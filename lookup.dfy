/** The two lookups the service answers: one day's lessons of a group
    (`get_schedule_for_day`, main.py:71-108) and a group's whole week for a
    chosen parity (`get_schedule_for_week`, main.py:111-146).

    Errors are the `HTTPException`s the source raises, as `Failure` values:
    404 for an unknown group, 400 for a bad day or parity token. */
module Lookup {
  import opened Common
  import opened Registry
  import opened Calendar
  import opened Cleaning
  import opened Schedule

  /** The two worksheets loaded at startup: `loaded_schedules["odd"]` and
      `loaded_schedules["even"]`. */
  datatype Store = Store(odd: Grid, even: Grid)
  {
    function Sheet(p: Parity): Grid
    {
      match p
      case Odd => odd
      case Even => even
    }
  }

  /** The token naming a parity, the key of `loaded_schedules`. */
  function ParityName(p: Parity): (name: string)
    ensures ParseParity(name) == Some(p)
  {
    match p
    case Odd => "odd"
    case Even => "even"
  }

  /** What `get_schedule_for_day` answers on weekday `currentDay` of ISO week
      `currentWeek`: the group check first, then the timetable of the week's
      parity, then the day token, then the six lessons of the target day. */
  function DayResponse(store: Store, userGroup: string, day: string, currentDay: int, currentWeek: int)
    : Result<DayLessons, ErrorCode>
    requires 0 <= currentDay <= Sunday
  {
    if userGroup !in Groups then Failure(NotFound)
    else
      var sheet := store.Sheet(ScheduleType(currentDay, currentWeek));
      match TargetDay(day, currentDay)
      case Failure(e) => Failure(e)
      case Success(target) => Success(DaySchedule(sheet, Column(userGroup), target))
  }

  /** What `get_schedule_for_week` answers: the group check first, then the
      parity token, then the six weekdays of that parity's timetable. */
  function WeekResponse(store: Store, userGroup: string, parity: string): Result<WeekLessons, ErrorCode>
  {
    if userGroup !in Groups then Failure(NotFound)
    else
      match ParseParity(parity)
      case None => Failure(BadRequest)
      case Some(p) => Success(WeekSchedule(store.Sheet(p), Column(userGroup)))
  }

  /** `get_schedule_for_day` (main.py:71-108), with the clock's weekday and
      ISO week number passed in. */
  method GetScheduleForDay(store: Store, userGroup: string, day: string, currentDay: int, currentWeek: int)
    returns (r: Result<DayLessons, ErrorCode>)
    requires 0 <= currentDay <= Sunday
    ensures r == DayResponse(store, userGroup, day, currentDay, currentWeek)
  {
    if userGroup !in Groups {
      return Failure(NotFound);
    }
    var scheduleColumn := Column(userGroup);
    var scheduleType := ScheduleType(currentDay, currentWeek);
    var sheetSchedule := store.Sheet(scheduleType);
    var target := TargetDay(day, currentDay);
    if target.Failure? {
      return Failure(target.error);
    }
    var schedule := ExtractDay(sheetSchedule, scheduleColumn, target.value);
    return Success(schedule);
  }

  /** `get_schedule_for_week` (main.py:111-146). */
  method GetScheduleForWeek(store: Store, userGroup: string, parity: string)
    returns (r: Result<WeekLessons, ErrorCode>)
    ensures r == WeekResponse(store, userGroup, parity)
  {
    if userGroup !in Groups {
      return Failure(NotFound);
    }
    var p := ParseParity(parity);
    if p.None? {
      return Failure(BadRequest);
    }
    var sheetSchedule := store.Sheet(p.value);
    var scheduleColumn := Column(userGroup);
    var weekSchedule := ExtractWeek(sheetSchedule, scheduleColumn);
    return Success(weekSchedule);
  }

  /** An unknown group is answered with 404 whatever the day token, the
      clock or the worksheets: the group is checked before anything else. */
  lemma UnknownGroupDayNotFound(store: Store, userGroup: string, day: string, currentDay: int, currentWeek: int)
    requires 0 <= currentDay <= Sunday
    requires userGroup !in Groups
    ensures DayResponse(store, userGroup, day, currentDay, currentWeek) == Failure(NotFound)
    ensures DayResponse(store, userGroup, day, currentDay, currentWeek).error.Status() == 404
  {
  }

  /** An unknown group is answered with 404 whatever the parity token. */
  lemma UnknownGroupWeekNotFound(store: Store, userGroup: string, parity: string)
    requires userGroup !in Groups
    ensures WeekResponse(store, userGroup, parity) == Failure(NotFound)
    ensures WeekResponse(store, userGroup, parity).error.Status() == 404
  {
  }

  /** For a known group, a day token other than "today" and "tomorrow" is
      answered with 400, before any worksheet is read: the answer is the same
      for every pair of worksheets. */
  lemma BadDayTokenRejected(s1: Store, s2: Store, userGroup: string, day: string, currentDay: int, currentWeek: int)
    requires 0 <= currentDay <= Sunday
    requires userGroup in Groups
    requires day != "today" && day != "tomorrow"
    ensures DayResponse(s1, userGroup, day, currentDay, currentWeek) == Failure(BadRequest)
    ensures DayResponse(s1, userGroup, day, currentDay, currentWeek).error.Status() == 400
    ensures DayResponse(s1, userGroup, day, currentDay, currentWeek)
              == DayResponse(s2, userGroup, day, currentDay, currentWeek)
  {
  }

  /** For a known group, a parity token other than "odd" and "even" is
      answered with 400, for every pair of worksheets. */
  lemma BadParityRejected(s1: Store, s2: Store, userGroup: string, parity: string)
    requires userGroup in Groups
    requires parity != "odd" && parity != "even"
    ensures WeekResponse(s1, userGroup, parity) == Failure(BadRequest)
    ensures WeekResponse(s1, userGroup, parity).error.Status() == 400
    ensures WeekResponse(s1, userGroup, parity) == WeekResponse(s2, userGroup, parity)
  {
  }

  /** A known group and a valid day token give the day schedule of the
      target weekday, read from the timetable whose parity is the current
      ISO week's (so, by `DayScheduleEntries`, the lessons "1".."6" taken from
      rows StartRow(target) .. StartRow(target) + 5 of the group's column). */
  lemma DayResponseFound(store: Store, userGroup: string, day: string, currentDay: int, currentWeek: int)
    requires 0 <= currentDay <= Sunday
    requires userGroup in Groups
    requires day == "today" || day == "tomorrow"
    ensures DayResponse(store, userGroup, day, currentDay, currentWeek)
              == Success(DaySchedule(store.Sheet(if currentWeek % 2 == 0 then Even else Odd),
                                     Column(userGroup), TargetDay(day, currentDay).value))
  {
  }

  /** On Sunday, "tomorrow" is Monday's block (rows 6..11) of the timetable
      of the current ISO week's parity. */
  lemma SundayTomorrowIsMonday(store: Store, userGroup: string, currentWeek: int)
    requires userGroup in Groups
    ensures DayResponse(store, userGroup, "tomorrow", Sunday, currentWeek)
              == Success(DaySchedule(store.Sheet(ScheduleType(Sunday, currentWeek)), Column(userGroup), 0))
  {
  }

  /** A known group and a valid parity token give the six weekdays
      pn, vt, sr, cht, pt, sb, each holding that weekday's day schedule from
      the chosen timetable. */
  lemma WeekResponseDays(store: Store, userGroup: string, parity: string)
    requires userGroup in Groups
    requires parity == "odd" || parity == "even"
    ensures var r := WeekResponse(store, userGroup, parity);
            var sheet := store.Sheet(if parity == "odd" then Odd else Even);
            && r.Success?
            && r.value.Keys == {"pn", "vt", "sr", "cht", "pt", "sb"}
            && forall d :: 0 <= d < |WeekDays| ==>
                 r.value[WeekDays[d]] == DaySchedule(sheet, Column(userGroup), d)
  {
    var p := if parity == "odd" then Odd else Even;
    WeekScheduleEntries(store.Sheet(p), Column(userGroup));
  }

  /** On a weekday other than Sunday, the day lookup for "today" is that
      weekday's entry of the week lookup for the current week's parity. */
  lemma TodayIsInTheWeek(store: Store, userGroup: string, currentDay: int, currentWeek: int)
    requires 0 <= currentDay < Sunday
    requires userGroup in Groups
    ensures var p := ParityName(ScheduleType(currentDay, currentWeek));
            WeekResponse(store, userGroup, p).Success?
            && DayResponse(store, userGroup, "today", currentDay, currentWeek)
                 == Success(WeekResponse(store, userGroup, p).value[WeekDays[currentDay]])
  {
    var p := ScheduleType(currentDay, currentWeek);
    WeekScheduleDays(store.Sheet(p), Column(userGroup));
  }
}
