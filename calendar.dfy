/** Which timetable applies and which weekday is asked for
    (main.py:83-95). The clock is not modelled: the current weekday
    (`datetime.weekday()`, Monday = 0 .. Sunday = 6) and the ISO 8601 week
    number are parameters. */
module Calendar {
  import opened Common

  /** The two alternating timetables. */
  datatype Parity = Odd | Even

  const Sunday := 6

  /** `schedule_type` as main.py:83-86 computes it: the base rule, then the
      branch taken on Sundays, which assigns the value the base rule already gave. */
  function ScheduleType(currentDay: int, currentWeek: int): (p: Parity)
    ensures p == Even <==> currentWeek % 2 == 0
  {
    var base := if currentWeek % 2 == 0 then Even else Odd;
    if currentDay == Sunday then (if currentWeek % 2 != 0 then Odd else Even)
    else base
  }

  /** The Sunday branch does not flip the parity: on Sunday the timetable is
      the one every other day of the same ISO week uses. */
  lemma SundayKeepsWeekParity(currentWeek: int, otherDay: int)
    ensures ScheduleType(Sunday, currentWeek) == ScheduleType(otherDay, currentWeek)
  {
  }

  /** The weekday asked for by the `day` token (main.py:90-95): "today" is the
      current weekday, "tomorrow" the next one (Sunday is followed by Monday),
      anything else is a bad request. */
  function TargetDay(day: string, currentDay: int): (r: Result<int, ErrorCode>)
    requires 0 <= currentDay <= Sunday
    ensures r.Success? <==> day == "today" || day == "tomorrow"
    ensures r.Failure? ==> r.error == BadRequest
    ensures r.Success? ==> 0 <= r.value <= Sunday
    ensures day == "today" ==> r.value == currentDay
    ensures day == "tomorrow" && currentDay < Sunday ==> r.value == currentDay + 1
    ensures day == "tomorrow" && currentDay == Sunday ==> r.value == 0
  {
    if day == "tomorrow" then Success((currentDay + 1) % 7)
    else if day == "today" then Success(currentDay)
    else Failure(BadRequest)
  }

  /** The `parity` token of the week lookup (main.py:118-121). */
  function ParseParity(parity: string): (p: Option<Parity>)
    ensures p == Some(Odd) <==> parity == "odd"
    ensures p == Some(Even) <==> parity == "even"
    ensures p == None <==> parity != "odd" && parity != "even"
  {
    if parity == "odd" then Some(Odd)
    else if parity == "even" then Some(Even)
    else None
  }
}
