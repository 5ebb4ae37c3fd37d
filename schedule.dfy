/** Reading a group's lessons out of a timetable worksheet: the block loops
    of the two lookups (main.py:97-104, main.py:125-141).

    A worksheet is modelled by the cells that hold text, keyed by (row,
    column); a cell outside the map is empty, so reading a cell never fails.
    Rows 6..47 hold seven blocks of six lesson rows, Monday first; column
    3 + i holds the lessons of the i-th registered group. */
module Schedule {
  import opened Common
  import opened Numbers
  import opened Calendar
  import opened Cleaning

  /** One worksheet: the text of the cell at (row, column), numbered from 1. */
  datatype Grid = Grid(cells: map<(int, int), string>)
  {
    function Cell(row: int, column: int): Option<string>
    {
      if (row, column) in cells then Some(cells[(row, column)]) else None
    }
  }

  /** A day's lessons: lesson number ("1".."6") to lesson text. */
  type DayLessons = map<string, string>

  /** A week's lessons: weekday key to that day's lessons. */
  type WeekLessons = map<string, DayLessons>

  const FirstLessonRow := 6
  const LessonsPerDay := 6

  /** The first row of weekday `day`'s block (Monday = 0). */
  function StartRow(day: nat): int
  {
    FirstLessonRow + day * LessonsPerDay
  }

  /** `get_lesson_number(i)`: the key of the lesson in position `i` of a block. */
  function LessonNumber(i: nat): string
  {
    DecimalString(i + 1)
  }

  /** Each key names its position: key "k" belongs to position k - 1. */
  lemma LessonNumberNames(i: nat)
    ensures ParseDecimal(LessonNumber(i)) == i + 1
  {
    ParseDecimalString(i + 1);
  }

  /** Different positions get different keys. */
  lemma LessonNumberInjective(i: nat, j: nat)
    ensures LessonNumber(i) == LessonNumber(j) <==> i == j
  {
    LessonNumberNames(i);
    LessonNumberNames(j);
  }

  /** The keys of the first `n` lessons of a block. */
  function FirstKeys(n: nat): set<string>
  {
    set i | 0 <= i < n :: LessonNumber(i)
  }

  /** One more lesson adds its own key, which is new. */
  lemma FirstKeysStep(n: nat)
    ensures FirstKeys(n + 1) == FirstKeys(n) + {LessonNumber(n)}
    ensures LessonNumber(n) !in FirstKeys(n)
  {
    forall j | 0 <= j < n
      ensures LessonNumber(j) != LessonNumber(n)
    {
      LessonNumberInjective(j, n);
    }
  }

  /** The keys of a day's lessons. */
  function LessonKeys(): set<string>
  {
    FirstKeys(LessonsPerDay)
  }

  /** The lesson keys are the six texts "1" to "6". */
  lemma LessonKeysAreOneToSix()
    ensures LessonKeys() == {"1", "2", "3", "4", "5", "6"}
    ensures |LessonKeys()| == 6
  {
    assert LessonNumber(0) == "1" && LessonNumber(1) == "2" && LessonNumber(2) == "3";
    assert LessonNumber(3) == "4" && LessonNumber(4) == "5" && LessonNumber(5) == "6";
  }

  /** The first `n` lessons of the block starting at `startRow`, read row by
      row: the lesson of row startRow + j goes under key LessonNumber(j). */
  function FirstLessons(grid: Grid, column: int, startRow: int, n: nat): DayLessons
  {
    if n == 0 then map[]
    else FirstLessons(grid, column, startRow, n - 1)[LessonNumber(n - 1) := CleanCell(grid.Cell(startRow + n - 1, column))]
  }

  /** Reading the next row of the block, row startRow + n, adds its lesson
      under the next key. */
  lemma FirstLessonsStep(grid: Grid, column: int, startRow: int, n: nat, row: int)
    requires row == startRow + n
    ensures FirstLessons(grid, column, startRow, n + 1)
              == FirstLessons(grid, column, startRow, n)[LessonNumber(n) := CleanCell(grid.Cell(row, column))]
  {
    assert startRow + (n + 1) - 1 == row;
  }

  /** The first `n` lessons carry exactly the keys of positions 0 .. n - 1. */
  lemma {:induction false} FirstLessonsKeys(grid: Grid, column: int, startRow: int, n: nat)
    ensures FirstLessons(grid, column, startRow, n).Keys == FirstKeys(n)
  {
    if n == 0 {
      assert FirstKeys(0) == {};
    } else {
      FirstLessonsKeys(grid, column, startRow, n - 1);
      FirstKeysStep(n - 1);
    }
  }

  /** The lesson in position `i` of the block is the cleaned cell of row
      startRow + i: a later row never overwrites an earlier key. */
  lemma {:induction false} FirstLessonsAt(grid: Grid, column: int, startRow: int, n: nat, i: nat)
    requires i < n
    ensures LessonNumber(i) in FirstLessons(grid, column, startRow, n)
    ensures FirstLessons(grid, column, startRow, n)[LessonNumber(i)]
              == CleanCell(grid.Cell(startRow + i, column))
  {
    if i == n - 1 {
      assert startRow + n - 1 == startRow + i;
    } else {
      LessonNumberInjective(i, n - 1);
      FirstLessonsAt(grid, column, startRow, n - 1, i);
    }
  }

  /** The lessons of weekday `day` in `column`: the whole six-row block. */
  function DaySchedule(grid: Grid, column: int, day: nat): DayLessons
  {
    FirstLessons(grid, column, StartRow(day), LessonsPerDay)
  }

  /** The day schedule has the six lesson keys, and the lesson in position
      `i` is the cleaned cell of row StartRow(day) + i. */
  lemma DayScheduleEntries(grid: Grid, column: int, day: nat)
    ensures DaySchedule(grid, column, day).Keys == LessonKeys()
    ensures forall i :: 0 <= i < LessonsPerDay ==>
              DaySchedule(grid, column, day)[LessonNumber(i)]
                == CleanCell(grid.Cell(StartRow(day) + i, column))
  {
    FirstLessonsKeys(grid, column, StartRow(day), LessonsPerDay);
    forall i | 0 <= i < LessonsPerDay
      ensures DaySchedule(grid, column, day)[LessonNumber(i)]
                == CleanCell(grid.Cell(StartRow(day) + i, column))
    {
      FirstLessonsAt(grid, column, StartRow(day), LessonsPerDay, i);
    }
  }

  /** The day schedule reads the six rows of the day's block in the group's
      column and nothing else: worksheets that agree there give the same lessons. */
  lemma DayScheduleReadsOnlyItsBlock(g1: Grid, g2: Grid, column: int, day: nat)
    requires forall row :: StartRow(day) <= row < StartRow(day) + LessonsPerDay ==>
               g1.Cell(row, column) == g2.Cell(row, column)
    ensures DaySchedule(g1, column, day) == DaySchedule(g2, column, day)
  {
    var m1, m2 := DaySchedule(g1, column, day), DaySchedule(g2, column, day);
    DayScheduleEntries(g1, column, day);
    DayScheduleEntries(g2, column, day);
    forall key | key in m1
      ensures m1[key] == m2[key]
    {
      var j :| 0 <= j < LessonsPerDay && key == LessonNumber(j);
      assert g1.Cell(StartRow(day) + j, column) == g2.Cell(StartRow(day) + j, column);
    }
  }

  /** The block loop of `get_schedule_for_day` (main.py:97-104). */
  method ExtractDay(grid: Grid, column: int, day: nat) returns (schedule: DayLessons)
    ensures schedule == DaySchedule(grid, column, day)
  {
    var startRow := StartRow(day);
    var endRow := startRow + 5;
    schedule := map[];
    for i := startRow to endRow + 1
      invariant schedule == FirstLessons(grid, column, startRow, i - startRow)
    {
      var lesson := grid.Cell(i, column);
      var cleanedLesson := CleanCell(lesson);
      var lessonNumber := LessonNumber(i - startRow);
      FirstLessonsStep(grid, column, startRow, i - startRow, i);
      schedule := schedule[lessonNumber := cleanedLesson];
    }
  }

  /** The weekday keys of the week view, Monday to Saturday; Sunday has none. */
  const WeekDays: seq<string> := ["pn", "vt", "sr", "cht", "pt", "sb"]

  lemma WeekDaysDistinct()
    ensures Distinct(WeekDays)
  {
  }

  /** The lessons of Monday to Saturday in `column`: the key of weekday `d`
      holds the day schedule of `d`. */
  function WeekSchedule(grid: Grid, column: int): WeekLessons
  {
    WeekDaysDistinct();
    map d | 0 <= d < |WeekDays| :: WeekDays[d] := DaySchedule(grid, column, d)
  }

  /** The weekday keys are six different texts. */
  lemma WeekDayKeys()
    ensures (set d | 0 <= d < |WeekDays| :: WeekDays[d]) == {"pn", "vt", "sr", "cht", "pt", "sb"}
    ensures |{"pn", "vt", "sr", "cht", "pt", "sb"}| == 6
  {
    var s := set d | 0 <= d < |WeekDays| :: WeekDays[d];
    assert WeekDays[0] in s && WeekDays[1] in s && WeekDays[2] in s;
    assert WeekDays[3] in s && WeekDays[4] in s && WeekDays[5] in s;
  }

  lemma WeekScheduleKeys(grid: Grid, column: int)
    ensures WeekSchedule(grid, column).Keys == set d | 0 <= d < |WeekDays| :: WeekDays[d]
  {
  }

  lemma WeekScheduleDays(grid: Grid, column: int)
    ensures forall d :: 0 <= d < |WeekDays| ==>
              WeekSchedule(grid, column)[WeekDays[d]] == DaySchedule(grid, column, d)
  {
    WeekDaysDistinct();
  }

  /** The week view has exactly the six keys pn, vt, sr, cht, pt, sb (no
      Sunday), and each holds the day schedule of its weekday. */
  lemma WeekScheduleEntries(grid: Grid, column: int)
    ensures WeekSchedule(grid, column).Keys == {"pn", "vt", "sr", "cht", "pt", "sb"}
    ensures |WeekSchedule(grid, column)| == 6
    ensures forall d :: 0 <= d < |WeekDays| ==>
              WeekSchedule(grid, column)[WeekDays[d]] == DaySchedule(grid, column, d)
  {
    WeekDayKeys();
    WeekScheduleKeys(grid, column);
    WeekScheduleDays(grid, column);
  }

  /** Worksheets whose six weekday schedules agree have the same week view. */
  lemma WeekScheduleOfDays(g1: Grid, g2: Grid, column: int)
    requires forall d :: 0 <= d < |WeekDays| ==> DaySchedule(g1, column, d) == DaySchedule(g2, column, d)
    ensures WeekSchedule(g1, column) == WeekSchedule(g2, column)
  {
    WeekScheduleKeys(g1, column);
    WeekScheduleKeys(g2, column);
    WeekScheduleDays(g1, column);
    WeekScheduleDays(g2, column);
    var w1, w2 := WeekSchedule(g1, column), WeekSchedule(g2, column);
    forall name | name in w1
      ensures w1[name] == w2[name]
    {
      var d :| 0 <= d < |WeekDays| && name == WeekDays[d];
    }
  }

  /** The week view reads rows 6..41 of the group's column and nothing else;
      in particular never Sunday's block, rows 42..47. */
  lemma WeekScheduleSkipsSunday(g1: Grid, g2: Grid, column: int)
    requires forall row :: StartRow(0) <= row < StartRow(Sunday) ==>
               g1.Cell(row, column) == g2.Cell(row, column)
    ensures WeekSchedule(g1, column) == WeekSchedule(g2, column)
  {
    forall d | 0 <= d < |WeekDays|
      ensures DaySchedule(g1, column, d) == DaySchedule(g2, column, d)
    {
      assert StartRow(d) + LessonsPerDay <= StartRow(Sunday);
      DayScheduleReadsOnlyItsBlock(g1, g2, column, d);
    }
    WeekScheduleOfDays(g1, g2, column);
  }

  /** The week map after the first `filled` weekdays of the loop: every
      weekday key is present, the filled ones hold their day schedule and
      the rest are still empty. */
  ghost predicate FilledUpTo(w: WeekLessons, grid: Grid, column: int, filled: nat)
  {
    && w.Keys == (set d | 0 <= d < |WeekDays| :: WeekDays[d])
    && forall d :: 0 <= d < |WeekDays| ==>
         w[WeekDays[d]] == (if d < filled then DaySchedule(grid, column, d) else map[])
  }

  /** The six empty weekday entries the week view starts from. */
  lemma EmptyWeekFilled(grid: Grid, column: int)
    ensures FilledUpTo(map["pn" := map[], "vt" := map[], "sr" := map[],
                           "cht" := map[], "pt" := map[], "sb" := map[]], grid, column, 0)
  {
    WeekDayKeys();
  }

  /** Storing the day schedule of the next weekday extends the filled prefix by one. */
  lemma FillNextDay(w: WeekLessons, grid: Grid, column: int, dayIndex: nat)
    requires dayIndex < |WeekDays|
    requires FilledUpTo(w, grid, column, dayIndex)
    ensures FilledUpTo(w[WeekDays[dayIndex] := DaySchedule(grid, column, dayIndex)], grid, column, dayIndex + 1)
  {
    WeekDaysDistinct();
    var w' := w[WeekDays[dayIndex] := DaySchedule(grid, column, dayIndex)];
    assert WeekDays[dayIndex] in w;
    assert w'.Keys == w.Keys;
  }

  /** Once all six weekdays are filled the map is the week view. */
  lemma FilledWeekIsWeekSchedule(w: WeekLessons, grid: Grid, column: int)
    requires FilledUpTo(w, grid, column, |WeekDays|)
    ensures w == WeekSchedule(grid, column)
  {
    WeekScheduleKeys(grid, column);
    WeekScheduleDays(grid, column);
    var target := WeekSchedule(grid, column);
    forall name | name in w
      ensures w[name] == target[name]
    {
      var d :| 0 <= d < |WeekDays| && name == WeekDays[d];
    }
  }

  /** The nested loops of `get_schedule_for_week` (main.py:125-141): the
      six weekday entries start empty and are filled in place. */
  method ExtractWeek(grid: Grid, column: int) returns (weekSchedule: WeekLessons)
    ensures weekSchedule == WeekSchedule(grid, column)
  {
    weekSchedule := map["pn" := map[], "vt" := map[], "sr" := map[],
                        "cht" := map[], "pt" := map[], "sb" := map[]];
    EmptyWeekFilled(grid, column);
    for dayIndex := 0 to |WeekDays|
      invariant FilledUpTo(weekSchedule, grid, column, dayIndex)
    {
      var dayName := WeekDays[dayIndex];
      var startRow := StartRow(dayIndex);
      var endRow := startRow + 5;
      // The inner dictionary is updated through the outer one; the local
      // `lessons` is that same dictionary, stored back once it is filled.
      var lessons := weekSchedule[dayName];
      assert lessons == map[] by {
        // Solver guidance only: day `dayIndex` is a weekday that is not yet
        // filled, so `FilledUpTo` gives it the empty map.
        assert dayIndex < |WeekDays| && !(dayIndex < dayIndex);
      }
      for i := startRow to endRow + 1
        invariant lessons == FirstLessons(grid, column, startRow, i - startRow)
      {
        var lesson := grid.Cell(i, column);
        var cleanedLesson := CleanCell(lesson);
        var lessonNumber := LessonNumber(i - startRow);
        FirstLessonsStep(grid, column, startRow, i - startRow, i);
        lessons := lessons[lessonNumber := cleanedLesson];
      }
      FillNextDay(weekSchedule, grid, column, dayIndex);
      weekSchedule := weekSchedule[dayName := lessons];
    }
    FilledWeekIsWeekSchedule(weekSchedule, grid, column);
  }
}
