/** Cleaning of one cell's text: `" ".join(lesson.split())`, with a falsy cell
    replaced by the placeholder "Нет" (main.py:103, main.py:140).
    `str.split()` with no separator splits at runs of whitespace and drops
    empty pieces; `" ".join` puts one space between the pieces. */
module Cleaning {
  import opened Common

  /** The characters Python's `str.split()` treats as whitespace. */
  predicate IsSpace(c: char)
  {
    || ('\U{9}' <= c <= '\U{d}')
    || ('\U{1c}' <= c <= '\U{20}')
    || c == '\U{85}' || c == '\U{a0}' || c == '\U{1680}'
    || ('\U{2000}' <= c <= '\U{200a}')
    || c == '\U{2028}' || c == '\U{2029}' || c == '\U{202f}' || c == '\U{205f}'
    || c == '\U{3000}'
  }

  predicate AllSpaces(s: string)
  {
    forall i :: 0 <= i < |s| ==> IsSpace(s[i])
  }

  /** A piece `split()` can return: non-empty, without whitespace. */
  predicate IsWord(w: string)
  {
    |w| > 0 && forall i :: 0 <= i < |w| ==> !IsSpace(w[i])
  }

  predicate AllWords(ws: seq<string>)
  {
    forall k :: 0 <= k < |ws| ==> IsWord(ws[k])
  }

  /** Text as the cleaning leaves it: no whitespace at either end, no
      whitespace other than the plain space, and never two spaces in a row. */
  ghost predicate Normalized(t: string)
  {
    && (|t| > 0 ==> !IsSpace(t[0]) && !IsSpace(t[|t| - 1]))
    && (forall i :: 0 <= i < |t| && IsSpace(t[i]) ==> t[i] == ' ')
    // Adjacent positions are bound as a pair `i, j` with `j == i + 1` so that
    // the quantifier triggers on plain `t[i]` and `t[j]` terms.
    && (forall i, j :: 0 <= i < j < |t| && j == i + 1 ==> t[i] != ' ' || t[j] != ' ')
  }

  /** The number of whitespace characters `s` starts with. */
  function LeadingSpaces(s: string): (n: nat)
    ensures n <= |s|
    ensures forall i :: 0 <= i < n ==> IsSpace(s[i])
    ensures n < |s| ==> !IsSpace(s[n])
  {
    if s != [] && IsSpace(s[0]) then 1 + LeadingSpaces(s[1..]) else 0
  }

  /** `s` with its leading whitespace dropped. */
  function SkipSpaces(s: string): (t: string)
    ensures |t| <= |s| && t == s[|s| - |t|..]
    ensures AllSpaces(s[..|s| - |t|])
    ensures t == [] || !IsSpace(t[0])
  {
    s[LeadingSpaces(s)..]
  }

  /** The longest prefix of `s` without whitespace. */
  function LeadingWord(s: string): (w: string)
    ensures |w| <= |s| && w == s[..|w|]
    ensures forall i :: 0 <= i < |w| ==> !IsSpace(w[i])
    ensures |w| < |s| ==> IsSpace(s[|w|])
  {
    if s == [] || IsSpace(s[0]) then [] else [s[0]] + LeadingWord(s[1..])
  }

  /** `s.split()`. */
  function Split(s: string): (ws: seq<string>)
    ensures AllWords(ws)
    decreases |s|
  {
    var t := SkipSpaces(s);
    if t == [] then []
    else
      var w := LeadingWord(t);
      [w] + Split(t[|w|..])
  }

  /** `" ".join(ws)`. */
  function Join(ws: seq<string>): string
  {
    if |ws| == 0 then ""
    else if |ws| == 1 then ws[0]
    else ws[0] + " " + Join(ws[1..])
  }

  /** `" ".join(s.split())`. */
  function Clean(s: string): string
  {
    Join(Split(s))
  }

  /** Cleaned text is normalized. */
  lemma CleanNormalized(s: string)
    ensures Normalized(Clean(s))
  {
    JoinNormalized(Split(s));
  }

  /** The placeholder for a lesson slot whose cell is empty. */
  const NoLesson: string := "Нет"

  /** One cell's lesson text: a missing or empty cell becomes the placeholder,
      any other text is cleaned. */
  function CleanCell(cell: Option<string>): string
  {
    if cell.Some? && cell.value != "" then Clean(cell.value) else NoLesson
  }

  // ---------------------------------------------------------------------
  // Joining words gives normalized text.

  lemma {:induction false} JoinNormalized(ws: seq<string>)
    requires AllWords(ws)
    ensures Normalized(Join(ws))
    ensures |ws| > 0 ==> |Join(ws)| > 0
    decreases |ws|
  {
    if |ws| > 1 {
      var w, rest := ws[0], Join(ws[1..]);
      assert AllWords(ws[1..]) by {
        forall k | 0 <= k < |ws[1..]| ensures IsWord(ws[1..][k]) {
          assert ws[1..][k] == ws[k + 1];
        }
      }
      JoinNormalized(ws[1..]);
      var t := w + " " + rest;
      assert Join(ws) == t;
      assert IsWord(w) by { assert ws[0] == w; }
      assert forall i :: 0 <= i < |w| ==> t[i] == w[i] && !IsSpace(t[i]);
      assert t[|w|] == ' ';
      assert forall i :: |w| < i < |t| ==> t[i] == rest[i - |w| - 1];
      assert t[|t| - 1] == rest[|rest| - 1];
    } else if |ws| == 1 {
      assert IsWord(ws[0]);
    }
  }

  // ---------------------------------------------------------------------
  // Normalized text is left unchanged; cleaning is idempotent.

  /** `split()` of text starting with a word: that word, then the split of the rest. */
  lemma SplitAtWord(t: string)
    requires t != [] && !IsSpace(t[0])
    ensures Split(t) == [LeadingWord(t)] + Split(t[|LeadingWord(t)|..])
  {
    assert SkipSpaces(t) == t;
  }

  /** `split()` ignores leading whitespace. */
  lemma SplitAfterSpace(s: string)
    requires s != [] && IsSpace(s[0])
    ensures Split(s) == Split(s[1..])
  {
    var k := LeadingSpaces(s[1..]);
    assert LeadingSpaces(s) == 1 + k;
    assert s[1 + k..] == s[1..][k..];
  }

  lemma JoinCons(w: string, ws: seq<string>)
    requires ws != []
    ensures Join([w] + ws) == w + " " + Join(ws)
  {
    assert ([w] + ws)[1..] == ws;
  }

  /** A non-empty normalized text is a word, optionally followed by one space
      and more non-empty normalized text. */
  lemma NormalizedStep(t: string)
    requires Normalized(t) && t != []
    ensures |LeadingWord(t)| > 0
    ensures |LeadingWord(t)| < |t| ==>
              && |t| > |LeadingWord(t)| + 1
              && t[|LeadingWord(t)|] == ' '
              && Normalized(t[|LeadingWord(t)| + 1..])
              && !IsSpace(t[|LeadingWord(t)| + 1])
  {
    var n := |LeadingWord(t)|;
    assert !IsSpace(t[0]);
    if n < |t| {
      assert t[n] == ' ';
      assert !IsSpace(t[|t| - 1]);
      assert n + 1 < |t|;
      assert t[n + 1] != ' ' by {
        // Solver guidance only: names the pair (n, n + 1) of the adjacency
        // clause of `Normalized`.
        assert 0 <= n < n + 1 < |t| && n + 1 == n + 1;
      }
      NormalizedSuffix(t, n + 1);
    }
  }

  /** A suffix of normalized text that starts at a non-space is normalized. */
  lemma NormalizedSuffix(t: string, k: nat)
    requires Normalized(t) && k < |t| && !IsSpace(t[k])
    ensures Normalized(t[k..])
  {
    var tail := t[k..];
    assert forall i :: 0 <= i < |tail| ==> tail[i] == t[k + i];
    assert tail[|tail| - 1] == t[|t| - 1];
  }

  /** A string is its leading word followed by what comes after it. */
  lemma LeadingWordThenRest(s: string)
    ensures s == LeadingWord(s) + s[|LeadingWord(s)|..]
  {
  }

  /** A string with a space at position `n` is what precedes it, one space, and what follows. */
  lemma SpaceAt(t: string, n: nat)
    requires n < |t| && t[n] == ' '
    ensures t == t[..n] + " " + t[n + 1..]
  {
  }

  /** Text made of words with exactly one plain space between neighbours. */
  predicate WordsSpaced(t: string)
    decreases |t|
  {
    t == [] ||
      var n := |LeadingWord(t)|;
      n > 0 && (n == |t| || (n + 1 < |t| && t[n] == ' ' && !IsSpace(t[n + 1]) && WordsSpaced(t[n + 1..])))
  }

  lemma {:induction false} NormalizedWordsSpaced(t: string)
    requires Normalized(t)
    ensures WordsSpaced(t)
    decreases |t|
  {
    if t != [] {
      NormalizedStep(t);
      var n := |LeadingWord(t)|;
      if n < |t| {
        NormalizedWordsSpaced(t[n + 1..]);
      }
    }
  }

  /** Text that is one word splits into just that word. */
  lemma SingleWordSplit(t: string)
    requires t != [] && |LeadingWord(t)| == |t|
    ensures Split(t) == [t]
  {
    SplitAtWord(t);
    assert t[..|t|] == t;
    assert t[|t|..] == [];
    assert Split([]) == [];
  }

  /** One word, one space, then text that is already its own cleaning. */
  lemma FixpointStep(t: string, n: nat)
    requires n == |LeadingWord(t)| && 0 < n < |t| && t[n] == ' '
    requires Join(Split(t[n + 1..])) == t[n + 1..] && Split(t[n + 1..]) != []
    ensures Join(Split(t)) == t
  {
    var w, tail := LeadingWord(t), t[n + 1..];
    SplitAtWord(t);
    assert Split(t[n..]) == Split(tail) by {
      assert t[n..][1..] == tail;
      SplitAfterSpace(t[n..]);
    }
    JoinCons(w, Split(tail));
    SpaceAt(t, n);
  }

  lemma {:induction false} WordsSpacedIsFixpoint(t: string)
    requires WordsSpaced(t)
    ensures Join(Split(t)) == t
    ensures t != [] ==> Split(t) != []
    decreases |t|
  {
    if t != [] {
      var w := LeadingWord(t);
      SplitAtWord(t);
      if |w| == |t| {
        SingleWordSplit(t);
      } else {
        WordsSpacedIsFixpoint(t[|w| + 1..]);
        FixpointStep(t, |w|);
      }
    }
  }

  /** Normalized text is the join of its own split. */
  lemma NormalizedIsFixpoint(t: string)
    requires Normalized(t)
    ensures Join(Split(t)) == t
  {
    NormalizedWordsSpaced(t);
    WordsSpacedIsFixpoint(t);
  }

  /** Cleaning already-cleaned text changes nothing. */
  lemma CleanIdempotent(s: string)
    ensures Clean(Clean(s)) == Clean(s)
  {
    CleanNormalized(s);
    NormalizedIsFixpoint(Clean(s));
  }

  /** Cleaning leaves a string unchanged exactly when it is already normalized. */
  lemma CleanFixpointIff(t: string)
    ensures Clean(t) == t <==> Normalized(t)
  {
    CleanNormalized(t);
    if Normalized(t) {
      NormalizedIsFixpoint(t);
    }
  }

  // ---------------------------------------------------------------------
  // Whitespace-only text cleans to the empty string.

  lemma {:induction false} SplitEmptyIff(s: string)
    ensures Split(s) == [] <==> AllSpaces(s)
    decreases |s|
  {
    var t := SkipSpaces(s);
    assert s == s[..|s| - |t|] + t;
    if t != [] {
      assert !AllSpaces(s) by { assert s[|s| - |t|] == t[0]; }
    }
  }

  lemma JoinEmptyIff(ws: seq<string>)
    requires AllWords(ws)
    ensures Join(ws) == "" <==> ws == []
  {
    JoinNormalized(ws);
  }

  /** A string cleans to "" exactly when it holds only whitespace (the empty
      string included). */
  lemma CleanEmptyIff(s: string)
    ensures Clean(s) == "" <==> AllSpaces(s)
  {
    SplitEmptyIff(s);
    JoinEmptyIff(Split(s));
  }

  /** A missing or empty cell yields the placeholder; a non-empty cell of
      whitespace only yields "", not the placeholder; any other cell yields
      its cleaned text, which is non-empty. Whatever the cell, the result is
      normalized. */
  lemma CleanCellCases(cell: Option<string>)
    ensures cell == None || cell == Some("") ==> CleanCell(cell) == NoLesson
    ensures cell.Some? && cell.value != "" && AllSpaces(cell.value) ==> CleanCell(cell) == ""
    ensures cell.Some? && !AllSpaces(cell.value) ==>
              CleanCell(cell) == Clean(cell.value) && CleanCell(cell) != ""
    ensures Normalized(CleanCell(cell))
  {
    if cell.Some? {
      CleanEmptyIff(cell.value);
      CleanNormalized(cell.value);
    }
  }

  // ---------------------------------------------------------------------
  // Cleaning keeps every non-whitespace character, in order.

  /** `s` with all whitespace removed. */
  function Visible(s: string): (v: string)
    ensures |v| <= |s|
  {
    if s == [] then []
    else if IsSpace(s[0]) then Visible(s[1..])
    else [s[0]] + Visible(s[1..])
  }

  function Concat(ws: seq<string>): string
  {
    if ws == [] then [] else ws[0] + Concat(ws[1..])
  }

  lemma {:induction false} VisibleAppend(a: string, b: string)
    ensures Visible(a + b) == Visible(a) + Visible(b)
    decreases |a|
  {
    if a != [] {
      assert (a + b)[1..] == a[1..] + b;
      VisibleAppend(a[1..], b);
    } else {
      assert a + b == b;
    }
  }

  lemma {:induction false} VisibleOfWord(w: string)
    requires forall i :: 0 <= i < |w| ==> !IsSpace(w[i])
    ensures Visible(w) == w
    decreases |w|
  {
    if w != [] {
      VisibleOfWord(w[1..]);
      assert w == [w[0]] + w[1..];
    }
  }

  lemma {:induction false} VisibleSplit(s: string)
    ensures Concat(Split(s)) == Visible(s)
    decreases |s|
  {
    if s != [] && IsSpace(s[0]) {
      SplitAfterSpace(s);
      VisibleSplit(s[1..]);
    } else if s != [] {
      var w := LeadingWord(s);
      var rest := s[|w|..];
      SplitAtWord(s);
      assert s == w + rest;
      VisibleAppend(w, rest);
      VisibleOfWord(w);
      VisibleSplit(rest);
      assert ([w] + Split(rest))[1..] == Split(rest);
    }
  }

  lemma {:induction false} VisibleJoin(ws: seq<string>)
    requires AllWords(ws)
    ensures Visible(Join(ws)) == Concat(ws)
    decreases |ws|
  {
    if |ws| == 1 {
      VisibleOfWord(ws[0]);
      assert Concat(ws) == ws[0] + Concat([]);
    } else if |ws| > 1 {
      assert AllWords(ws[1..]) by {
        forall k | 0 <= k < |ws[1..]| ensures IsWord(ws[1..][k]) {
          assert ws[1..][k] == ws[k + 1];
        }
      }
      VisibleJoin(ws[1..]);
      VisibleAppend(ws[0] + " ", Join(ws[1..]));
      VisibleAppend(ws[0], " ");
      assert IsWord(ws[0]);
      VisibleOfWord(ws[0]);
      assert Visible(" ") == Visible([]);
    }
  }

  /** Cleaning removes and collapses whitespace only: the other characters
      come out exactly as they went in, in the same order. */
  lemma CleanKeepsVisible(s: string)
    ensures Visible(Clean(s)) == Visible(s)
  {
    VisibleSplit(s);
    VisibleJoin(Split(s));
  }

  /** The leading word of a word followed by whitespace is that word. */
  lemma {:induction false} LeadingWordOf(w: string, rest: string)
    requires forall i :: 0 <= i < |w| ==> !IsSpace(w[i])
    requires rest == [] || IsSpace(rest[0])
    ensures LeadingWord(w + rest) == w
    decreases |w|
  {
    if w != [] {
      assert (w + rest)[1..] == w[1..] + rest;
      LeadingWordOf(w[1..], rest);
    } else {
      assert w + rest == rest;
    }
  }

  /** `split()` skips any run of whitespace. */
  lemma {:induction false} SplitAfterSpaces(sp: string, rest: string)
    requires AllSpaces(sp)
    ensures Split(sp + rest) == Split(rest)
    decreases |sp|
  {
    if sp != [] {
      assert (sp + rest)[1..] == sp[1..] + rest;
      SplitAfterSpace(sp + rest);
      SplitAfterSpaces(sp[1..], rest);
    } else {
      assert sp + rest == rest;
    }
  }

  /** A word followed by whitespace splits into that word, then the split of the rest. */
  lemma SplitWordThenSpaces(w: string, sp: string, rest: string)
    requires IsWord(w) && sp != [] && AllSpaces(sp)
    ensures Split(w + sp + rest) == [w] + Split(rest)
  {
    var t := w + sp + rest;
    assert t == w + (sp + rest);
    LeadingWordOf(w, sp + rest);
    SplitAtWord(t);
    assert t[|w|..] == sp + rest;
    SplitAfterSpaces(sp, rest);
  }

  /** Whitespace before the text is dropped. */
  lemma CleanDropsLeadingSpaces(sp: string, rest: string)
    requires AllSpaces(sp)
    ensures Clean(sp + rest) == Clean(rest)
  {
    SplitAfterSpaces(sp, rest);
  }

  /** A run of whitespace after a word (spaces, tabs, line breaks, however
      many) becomes one space when more text follows, and disappears when
      nothing but whitespace follows. */
  lemma CleanCollapsesGap(w: string, sp: string, rest: string)
    requires IsWord(w) && sp != [] && AllSpaces(sp)
    ensures AllSpaces(rest) ==> Clean(w + sp + rest) == w
    ensures !AllSpaces(rest) ==> Clean(w + sp + rest) == w + " " + Clean(rest)
  {
    SplitWordThenSpaces(w, sp, rest);
    SplitEmptyIff(rest);
    if Split(rest) == [] {
      assert [w] + Split(rest) == [w];
    } else {
      JoinCons(w, Split(rest));
    }
  }
}
