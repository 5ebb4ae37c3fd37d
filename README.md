# SMPK schedule lookup — a Dafny model

SMPK_api is a small web service for a college timetable. Two spreadsheets,
one for odd ISO weeks and one for even ISO weeks, hold the lessons of 59
student groups. Each group has one column, starting at column 3. Rows 6..47
hold seven blocks of six lesson rows, Monday first. The service answers two
queries:

- the six lessons of one group for "today" or "tomorrow", taken from the
  timetable whose parity is the current ISO week's;
- the whole Monday-to-Saturday week of one group for a chosen parity.

Each lesson cell is whitespace-normalised the way `" ".join(text.split())`
does it, and a missing or empty cell becomes the placeholder "Нет".
An unknown group is answered with 404 and a bad day or parity token with 400.

The model is split into one module per component of `main.py`:

- `Common` (common.dfy): `Option` and `Result`, the two HTTP errors, and the
  first-position search that `list.index` performs.
- `Registry` (registry.dfy): the group list and the group-to-column map.
- `Numbers` (numbers.dfy): decimal text of a number, which is what
  `get_lesson_number` returns.
- `Calendar` (calendar.dfy): the week parity and the target weekday.
- `Cleaning` (cleaning.dfy): `str.split()`, `" ".join` and the cell rule.
- `Schedule` (schedule.dfy): the block loops, as methods over a worksheet.
  Each method is proved equal to a specification function, and lemmas state
  what that function returns.
- `Lookup` (lookup.dfy): the two request handlers, as methods proved against
  response functions, with the error-order lemmas.

A worksheet (`Schedule.Grid`) is a map from (row, column) to the cell's text.
A cell outside the map is empty. The two loaded worksheets (`Lookup.Store`)
are inputs. The clock is also an input: the weekday (Monday = 0 .. Sunday = 6)
and the ISO week number are parameters.

Three behaviours of the code are easy to misread, and the model keeps each
as written:

- **Sunday parity.** The Sunday branch (main.py:85-86) assigns the value the
  base rule (main.py:83) already gave, so Sunday uses the timetable of the
  ISO week that is ending (`Calendar.ScheduleType`,
  `Calendar.SundayKeepsWeekParity`). On Sunday, "tomorrow" is therefore
  Monday's block of that timetable, although the Monday starts an ISO week
  of the other parity (`Lookup.SundayTomorrowIsMonday`).
- **Group check comes first.** The group is checked (main.py:78-79,
  main.py:115-116) before the day or parity token, so an unknown group with
  a bad token gets 404.
- **All-whitespace cells.** A non-empty cell made only of whitespace is
  truthy at main.py:103, so it cleans to "" and not to "Нет"
  (`Cleaning.CleanCellCases`).

## Model

| member | source | states |
|---|---|---|
| `Common.IndexOf` | main.py:81 | `groups.index(g)`: the result is the first position holding `g`; it is below the length exactly when `g` is in the list |
| `Common.ErrorCode.Status` | main.py:78-79 | the not-found error has status 404 and the bad-request error status 400, and each status belongs to exactly one error kind; the lookup lemmas below attach these statuses to their cases |
| `Registry.GroupsDistinct` | main.py:24-32 | the group registry holds 59 codes and no code occurs twice |
| `Registry.Column` | main.py:81 | a known group's column is between 3 and 61; the group sits at list position column - 3, and at no earlier position |
| `Registry.ColumnOfPosition` | main.py:24-32 | the i-th registered group has column i + 3 |
| `Registry.ColumnInjective` | main.py:123 | two known groups share a column exactly when they are the same group |
| `Numbers.ParseDecimalString` | main.py:41-42 | `int(str(n)) == n`: the decimal text of a lesson number reads back as that number |
| `Numbers.DecimalStringInjective` | main.py:41-42 | different numbers have different decimal texts |
| `Schedule.LessonNumberNames` | main.py:41-42 | the key of block position i is the text of i + 1 |
| `Schedule.LessonNumberInjective` | main.py:41-42 | two block positions get the same key exactly when they are the same position |
| `Schedule.LessonKeysAreOneToSix` | main.py:97-104 | the keys of a day's lessons are exactly "1", "2", "3", "4", "5" and "6" |
| `Calendar.ScheduleType` | main.py:83-86 | the timetable is the even one exactly when the ISO week number is even, on every weekday including Sunday |
| `Calendar.SundayKeepsWeekParity` | main.py:85-86 | on Sunday the timetable is the one every other day of the same ISO week uses |
| `Calendar.TargetDay` | main.py:90-95 | "today" gives the current weekday and "tomorrow" the next one, with Sunday followed by Monday = 0; any other token is a 400; a successful result is always in 0..6 |
| `Calendar.ParseParity` | main.py:118-121 | "odd" and "even" select their timetable, and every other token is rejected |
| `Lookup.ParityName` | main.py:121 | the token naming a parity is accepted and selects that same parity |
| `Cleaning.Split` | main.py:103 | every piece `split()` returns is non-empty and holds no whitespace |
| `Cleaning.SplitEmptyIff` | main.py:103 | `split()` returns no pieces exactly when the text is whitespace only |
| `Cleaning.CleanNormalized` | main.py:103 | a cleaned text has no whitespace at either end, no whitespace other than the plain space, and no two spaces in a row |
| `Cleaning.NormalizedIsFixpoint` | main.py:103 | cleaning leaves text that is already normalised unchanged |
| `Cleaning.CleanIdempotent` | main.py:103 | cleaning twice gives the same text as cleaning once |
| `Cleaning.CleanFixpointIff` | main.py:103 | cleaning leaves a text unchanged exactly when that text is normalised |
| `Cleaning.CleanEmptyIff` | main.py:103 | a text cleans to "" exactly when it is whitespace only |
| `Cleaning.CleanKeepsVisible` | main.py:103 | cleaning keeps every non-whitespace character, in order, and adds none |
| `Cleaning.CleanDropsLeadingSpaces` | main.py:103 | whitespace before the text does not change the cleaned text |
| `Cleaning.CleanCollapsesGap` | main.py:103 | a run of whitespace after a word becomes one space when more text follows, and disappears when only whitespace follows |
| `Cleaning.CleanCellCases` | main.py:103 | a missing or empty cell gives "Нет"; a non-empty all-whitespace cell gives ""; any other cell gives its cleaned text, which is non-empty; every result is normalised |
| `Schedule.FirstLessonsKeys` | main.py:97-104 | after reading n rows of a block, the lessons carry exactly the keys of positions 0..n-1 |
| `Schedule.FirstLessonsAt` | main.py:100-104 | the lesson under the key of position i is the cleaned cell of row start + i; a later row never overwrites it |
| `Schedule.DayScheduleEntries` | main.py:97-104 | a day's lessons have exactly the six keys, and key k + 1 holds the cleaned cell of row 6 + 6 * day + k of the group's column |
| `Schedule.DayScheduleReadsOnlyItsBlock` | main.py:97-104 | worksheets that agree on the six rows of the day's block in that column give the same day lessons |
| `Schedule.ExtractDay` | main.py:97-104 | the block loop of the day lookup returns the day lessons of the target weekday |
| `Schedule.WeekScheduleEntries` | main.py:125-141 | the week view has exactly the keys pn, vt, sr, cht, pt and sb, and weekday d's entry is the day lessons of weekday d |
| `Schedule.WeekScheduleOfDays` | main.py:134-141 | worksheets whose six weekday schedules agree give the same week view |
| `Schedule.WeekScheduleSkipsSunday` | main.py:134-141 | the week view reads only rows 6..41 of the column; Sunday's block, rows 42..47, never affects it |
| `Schedule.ExtractWeek` | main.py:125-141 | the nested loops of the week lookup, filling six empty weekday entries in place, return the week view |
| `Lookup.GetScheduleForDay` | main.py:71-108 | the day handler returns exactly the day response: 404, then the timetable of the week's parity, then 400 for a bad token, then the target day's lessons |
| `Lookup.GetScheduleForWeek` | main.py:111-146 | the week handler returns exactly the week response: 404, then 400 for a bad parity, then the week view of that parity's timetable |
| `Lookup.UnknownGroupDayNotFound` | main.py:78-79 | an unknown group gets the not-found error, status 404, from the day lookup whatever the day token, the clock or the worksheets |
| `Lookup.UnknownGroupWeekNotFound` | main.py:115-116 | an unknown group gets the not-found error, status 404, from the week lookup whatever the parity token |
| `Lookup.BadDayTokenRejected` | main.py:90-95 | for a known group, a day token other than "today" and "tomorrow" gets the bad-request error, status 400, and the answer does not depend on the worksheets |
| `Lookup.BadParityRejected` | main.py:118-119 | for a known group, a parity token other than "odd" and "even" gets the bad-request error, status 400, and the answer does not depend on the worksheets |
| `Lookup.DayResponseFound` | main.py:81-104 | a known group with a valid day token gets the target day's lessons from the timetable whose parity is the ISO week's |
| `Lookup.SundayTomorrowIsMonday` | main.py:83-97 | on Sunday, "tomorrow" is Monday's block (rows 6..11) of the current week's timetable |
| `Lookup.WeekResponseDays` | main.py:118-141 | a known group with a valid parity gets the six weekday keys, each holding that weekday's lessons from the chosen timetable |
| `Lookup.TodayIsInTheWeek` | main.py:83-141 | from Monday to Saturday, "today" equals that weekday's entry of the week lookup for the current week's parity |

## Left out

- The FastAPI application, the CORS middleware and the two routes
  (main.py:13-22, main.py:149-156) are transport only.
- `load_schedule_file`, `initialize_schedules` and the startup hook
  (main.py:45-68) are not modelled. They load the workbooks with openpyxl,
  which is not part of this model. The two worksheets are given as a
  `Store`, so a request before startup finishes is not modelled. Which file
  holds which parity is data.
- `datetime.today()`, `weekday()` and `Week.withdate(...).week`
  (main.py:74-76) read the clock and an ISO-week library. The weekday
  (0..6, as `weekday()` guarantees) and the ISO week number are parameters.
- The `time.perf_counter` timing and the `logger` calls (main.py:73,
  main.py:106-107, main.py:113, main.py:143-144) are measurement only.
- Cells that hold numbers or dates are not modelled. On those, `.split()`
  would raise. Cells are optional strings.
- The `detail` messages of the HTTP errors are not modelled; only the status
  codes are.
- Python dictionaries keep insertion order, so the JSON keys come out as
  "1".."6" and pn..sb in order. Dafny maps are unordered, so that order is
  not captured.
- `Schedule.ExtractWeek` writes each day's lessons into a local map and then
  stores it under the weekday key. The source writes into the inner dict
  through the outer one. Both leave the same contents; the aliasing itself
  is not modelled.
- `Cleaning.IsSpace` lists the code points that `str.split()` treats as
  whitespace. Python's Unicode tables themselves are not modelled.
