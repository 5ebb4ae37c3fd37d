/** Types shared by the schedule model: an optional value, a success-or-error
    result, the two HTTP errors the service raises, and the first-position
    lookup that Python's `list.index` performs. */
module Common {

  datatype Option<+T> = None | Some(value: T)

  datatype Result<+R, +E> = Success(value: R) | Failure(error: E)

  /** The errors a lookup raises as `HTTPException`s. */
  datatype ErrorCode = NotFound | BadRequest
  {
    /** The HTTP status code the error is raised with. */
    function Status(): (code: int)
      ensures code == 404 <==> this == NotFound
      ensures code == 400 <==> this == BadRequest
    {
      match this
      case NotFound => 404
      case BadRequest => 400
    }
  }

  /** Position of the first occurrence of `x` in `s` (what `s.index(x)` returns
      when `x in s`); `|s|` when `x` does not occur. */
  function IndexOf<T(==)>(s: seq<T>, x: T): (i: nat)
    ensures i <= |s|
    ensures i < |s| <==> x in s
    ensures i < |s| ==> s[i] == x
    ensures forall j :: 0 <= j < i ==> s[j] != x
  {
    if s == [] then 0
    else if s[0] == x then 0
    else 1 + IndexOf(s[1..], x)
  }

  /** No value occurs twice in `s`. */
  predicate Distinct<T(==)>(s: seq<T>)
  {
    forall i, j :: 0 <= i < j < |s| ==> s[i] != s[j]
  }

  /** No value of `a` occurs in `b`. */
  predicate Disjoint<T(==)>(a: seq<T>, b: seq<T>)
  {
    forall i, j :: 0 <= i < |a| && 0 <= j < |b| ==> a[i] != b[j]
  }

  lemma DistinctAppend<T>(a: seq<T>, b: seq<T>)
    requires Distinct(a) && Distinct(b) && Disjoint(a, b)
    ensures Distinct(a + b)
  {
    forall i, j | 0 <= i < j < |a + b|
      ensures (a + b)[i] != (a + b)[j]
    {
      if j < |a| {
        assert (a + b)[i] == a[i] && (a + b)[j] == a[j];
      } else if i < |a| {
        assert (a + b)[i] == a[i] && (a + b)[j] == b[j - |a|];
      } else {
        assert (a + b)[i] == b[i - |a|] && (a + b)[j] == b[j - |a|];
      }
    }
  }

  lemma DisjointAppend<T>(a: seq<T>, b: seq<T>, c: seq<T>)
    requires Disjoint(a, c) && Disjoint(b, c)
    ensures Disjoint(a + b, c)
  {
    forall i, j | 0 <= i < |a + b| && 0 <= j < |c|
      ensures (a + b)[i] != c[j]
    {
      if i < |a| {
        assert (a + b)[i] == a[i];
      } else {
        assert (a + b)[i] == b[i - |a|];
      }
    }
  }

  /** In a duplicate-free sequence the first occurrence of `s[k]` is `k` itself. */
  lemma IndexOfDistinct<T>(s: seq<T>, k: nat)
    requires Distinct(s)
    requires k < |s|
    ensures IndexOf(s, s[k]) == k
  {
  }
}
