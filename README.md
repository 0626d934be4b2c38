# Daily-plan bot: schedule store and calendar view

A model, in Dafny, of the data logic of a chat bot that keeps a personal daily
schedule in a JSON file (`bot.py`). The file maps date strings (`YYYY-MM-DD`)
to day plans; a day plan is an ordered dictionary from the eight two-hour slot
labels `8-10時` … `22-24時` to task texts, each `無任務` ("no task") when the day
is created. Five commands work on it:

- `start_plan date` creates the day, refusing a date `strptime("%Y-%m-%d")`
  rejects or a day that already exists;
- `add_task date slot task` overwrites one existing slot;
- `complete_task date slot` puts `✅ ` in front of a slot's text (twice gives
  two markers: the marker is not deduplicated);
- `view_plan date` shows a day;
- `view_calendar YYYY-MM` checks its argument (exactly one `-`, two integers for
  Python's `int()`, month in 1..12) and renders the month's week grid: padding
  cells are skipped, every real day contributes its label and its plan (or `無計畫`,
  "no plan"), struck through with `~~` exactly when the day is strictly before
  today, and a week becomes a field only when its text is non-empty.

Modules:

- `Outcomes` (outcomes.dfy): `Option`, the error kinds, `Result` and `Status`.
- `Strings` (strings.dfy): the Python string and integer behaviour the bot relies
  on: `f"{n}"`, `f"{n:02d}"`, `str.split("-")`, `str.join`, `int()` (which
  strips the ASCII space, `\t\n\v\f\r` and the non-ASCII spaces around the
  numeral, but not the ASCII separators 0x1C..0x1F).
- `Dates` (dates.dfy): `datetime.strptime(s, "%Y-%m-%d")` as CPython's regular
  expressions for `%Y`, `%m` and `%d` define it (four year digits; a month of one
  or two digits in 1..12; a day of one or two digits, or a space and a digit; the
  whole string consumed; year at least 1; the day in range for the Gregorian
  month), the order on dates, and the date strings the calendar builds.
- `Schedule` (schedule.dfy): slots, day plans as `seq<Slot>` (insertion order
  kept), the fixed slot set, and the pure updates of `add_task` and
  `complete_task`.
- `Calendar` (calendar.dfy): argument parsing, the rendering of a day, the
  specification of the two nested loops of `view_calendar`, and those loops as
  methods proved against it.
- `Bot` (bot.dfy): class `Store`, whose `file` field is the data file's content
  and whose `writes` field counts `save_data` calls; one method per command,
  each doing what the handler does: load the whole map, change the copy, save
  the whole map only on success.

Consequences of the code that the proofs make explicit:

- `view_calendar` compares `date_obj < today` strictly, so a day is struck
  through only when it is before today: viewing June 2024 on 2024-06-15, the
  14th is struck through and the 15th is shown plain (`Calendar.JuneExample`).
- A part that `int()` refuses raises `ValueError` inside the same handler as the
  two explicit argument checks, so it ends the command like them; the model
  names that error `NotAnInteger` (`Calendar.ParseYearMonth`).
- `view_calendar` only succeeds for four-digit years: the date string
  `f"{year}-{month:02d}-{day:02d}"` of the first real day is passed to strptime,
  whose `%Y` takes exactly four digits, so any other year ends the command with
  the date format error (`Calendar.CalendarFailsForOtherYears`,
  `Calendar.CalendarSucceeds`).
- `start_plan` accepts unpadded dates such as `2024-6-5` and stores the plan under
  that key, while the calendar only looks up `2024-06-05`, so such a plan is shown
  as "no plan" (`Dates.UnpaddedDateAccepted`, `Dates.CalendarKeyIsPadded`).

## Model

| member | source | states |
|---|---|---|
| `Schedule.NewDayPlan` | bot.py:48 | a new day has exactly the eight labels `8-10時` … `22-24時` in ascending order, no label twice, and every slot holds `無任務` |
| `Schedule.NewDayReadsNoTask` | bot.py:48 | every standard label is a key of a new day, and it reads `無任務` |
| `Schedule.Lookup` | bot.py:190 | `data[date][time]` is the text of a slot carrying that label, the only such text when labels are distinct |
| `Schedule.SlotsFromLabels` | bot.py:48 | `f"{i}-{i+2}時"` over `range(8, 24, 2)` yields exactly the eight standard labels, in ascending hour |
| `Schedule.SlotsFromTasks` | bot.py:48 | every slot the comprehension builds holds `無任務` |
| `Schedule.StandardLabelsDistinct` | bot.py:48 | the eight standard labels are pairwise different, so the comprehension builds eight keys |
| `Schedule.SetTask` | bot.py:73 | assigning an existing slot keeps the label sequence and changes that slot's text only |
| `Schedule.LookupSetTask` | bot.py:73 | after the assignment the slot reads the new text verbatim and every other label reads its old text |
| `Schedule.CompleteSlot` | bot.py:190 | completing a slot turns its text `v` into `✅ v`, keeps the labels and leaves every other slot alone |
| `Schedule.CompleteTwice` | bot.py:190 | completing the same slot twice gives `✅ ✅ v`, which differs from completing it once |
| `Strings.NatToString` | bot.py:48 | `f"{n}"` is a non-empty digit string without a leading zero whose decimal value is `n` |
| `Strings.NatToStringLength` | bot.py:145 | `f"{n}"` has 1, 2, 3, 4 or at least 5 digits on the corresponding ranges of `n` |
| `Strings.Pad2` | bot.py:145 | `f"{n:02d}"` is a digit string of value `n`, exactly two long below 100 and longer from 100 on |
| `Strings.CountZero` | bot.py:119 | a string has no `-` exactly when its count of `-` is zero |
| `Strings.Split` | bot.py:119 | `s.split("-")` has one part more than `s` has separators, and no part holds a separator |
| `Strings.JoinSplit` | bot.py:119 | joining the parts of a split with the separator gives back the original string |
| `Strings.SplitNoSeparator` | bot.py:119 | a string without the separator splits into itself alone |
| `Strings.SplitAtOnly` | bot.py:119-122 | `a-b` with no separator in `a` or `b` splits into exactly `a` and `b` |
| `Strings.SplitAfter` | bot.py:119 | a part free of the separator followed by the separator splits off as the first part of the split |
| `Strings.SplitJoin` | bot.py:151 | splitting the separator-join of separator-free parts gives back exactly those parts, in order |
| `Strings.DropUnderscores` | bot.py:122 | removing the digit-group underscores keeps every other character and no underscore, leaves only digits in a numeral and keeps a digit string unchanged |
| `Strings.DropUnderscoresConcat` | bot.py:122 | removing underscores from a concatenation is removing them from each part, in order |
| `Strings.DropGroupSeparator` | bot.py:122 | the underscore between two digit groups is dropped and their digits stay in order |
| `Strings.ParseIntDigits` | bot.py:122 | `int()` reads any non-empty digit string, leading zeros included, as its decimal value |
| `Strings.TrimUnspaced` | bot.py:122 | the whitespace trimming `int()` does leaves a string that neither starts nor ends with whitespace unchanged |
| `Strings.ParseIntKeepsFileSeparator` | bot.py:122 | `int()` refuses `2024` led by the ASCII separator 0x1C, which it does not strip although `str.isspace` accepts it |
| `Strings.ParseIntNumeral` | bot.py:122 | `int()` reads an unsigned numeral, underscores between digit groups allowed, as the value of its digits |
| `Strings.ParseIntGrouped` | bot.py:122 | `int("2_024")`-style input: two digit groups joined by one underscore are read as the value of their digits written together |
| `Strings.ParseIntNegative` | bot.py:122 | `int("-" + f"{n}") == -n` |
| `Strings.ParseIntMinus` | bot.py:122 | `int()` reads a `-` followed by an unsigned numeral as the negated value of the numeral |
| `Strings.IntToString` | bot.py:145 | `f"{i}"` for any integer, negative ones with a leading `-`, is read back by `int()` as `i` |
| `Strings.ParseIntNatToString` | bot.py:122 | `int(f"{n}") == n` |
| `Strings.ParseIntPad2` | bot.py:122 | `int(f"{n:02d}") == n`, so a zero-padded month is read correctly |
| `Dates.DigitsValueBelow` | bot.py:40 | a four-digit year field is below 10000, so a parsed year fits `datetime` |
| `Dates.ParseDate` | bot.py:40 | a date strptime accepts is a real calendar date with a year in 1..9999 |
| `Dates.BeforeOrder` | bot.py:147 | the date order `<` is irreflexive, asymmetric, transitive and total on distinct dates |
| `Dates.ParseMonthDay` | bot.py:146 | the month-day part accepted after the year gives a real date of that year |
| `Dates.MonthDayParses` | bot.py:145-146 | for a four-digit year, `{month:02d}-{day:02d}` is read back as that month and day exactly when that date exists |
| `Dates.DateString` | bot.py:145 | for a four-digit year and a month and day below 100, `f"{year}-{month:02d}-{day:02d}"` is ten characters of the form `YYYY-MM-DD` |
| `Dates.DateLayout` | bot.py:145 | four year digits followed by `-MM-DD` with two-digit fields put the separators at positions 4 and 7 and digits everywhere else |
| `Dates.JuneFifthSuffix` | bot.py:145 | the padded suffix for 5 June is `-06-05` |
| `Dates.JuneFifthParts` | bot.py:145 | the year 2024 and the suffix for 5 June join to `2024-06-05` |
| `Dates.NegativeYearRejected` | bot.py:146 | a negative year puts a `-` where strptime wants a year digit, so the string is refused |
| `Dates.ShortYearRejected` | bot.py:146 | a year field shorter than four digits makes strptime refuse the string |
| `Dates.LongYearRejected` | bot.py:146 | a year field longer than four digits makes strptime refuse the string |
| `Dates.FourDigitYear` | bot.py:146 | four year digits and a `-` are read as that year, and the rest is read as month and day |
| `Dates.DateStringBadYear` | bot.py:145-146 | the calendar's date string for a year outside 1000..9999 is refused by strptime |
| `Dates.DateStringParses` | bot.py:145-146 | the calendar's date string is read back as exactly its own date when the year has four digits and the date exists, and refused otherwise |
| `Dates.UnpaddedDateAccepted` | bot.py:40 | `2024-6-5` is a valid start_plan date, read as 5 June 2024 |
| `Dates.CalendarKeyIsPadded` | bot.py:145-150 | the calendar looks 5 June 2024 up under `2024-06-05`, which is not the key `2024-6-5` start_plan may have stored |
| `Calendar.ParseYearMonth` | bot.py:119-124 | the format error exactly when the argument does not hold exactly one `-`; the integer error exactly when it does and `int()` refuses a part; the month error exactly when both parts are read and the month is outside 1..12; a success is exactly `int()` of the two parts, with a month in 1..12 |
| `Calendar.ParseYearMonthRoundTrip` | bot.py:119-124 | `f"{year}-{month:02d}"` and `f"{year}-{month}"` with a month in 1..12 are read back as that year and month |
| `Calendar.ParseYearMonthBadMonth` | bot.py:119-124 | any argument made of two `int()`-readable parts around its only `-`, whatever their spelling, with a month outside 1..12 gets the month error |
| `Calendar.ParseYearMonthNoDash` | bot.py:119-120 | `2024` gets the format error |
| `Calendar.ParseYearMonthMonthThirteen` | bot.py:122-124 | `2024-13` gets the month error |
| `Calendar.ParseYearMonthMonthZero` | bot.py:122-124 | `2024-00` gets the month error |
| `Calendar.ParseYearMonthPaddedThirteen` | bot.py:122-124 | `2024-013` is read with month 13 and gets the month error |
| `Calendar.Strike` | bot.py:152-157 | `f"~~{text}~~"` is the text between two strike markers, four characters longer |
| `Calendar.SlotLine` | bot.py:151 | `f"{time}: {task}"` is the label, `: ` and the slot's task in that order, with no line break when neither has one |
| `Calendar.PlanTextLines` | bot.py:151 | when no label or task holds a line break, the joined plan text splits at line breaks into exactly one `label: task` line per slot, in slot order |
| `Calendar.DayBlock` | bot.py:157-158 | a day's block begins with `~~` exactly when the day is shown as past, so a future day's label is plain, and it ends with a blank line |
| `Calendar.RenderDay` | bot.py:143-146 | a grid cell fails only with the date format error that strptime raises |
| `Calendar.RenderDayStruckIffPast` | bot.py:145-157 | a rendered real day is struck through exactly when its date is strictly before today |
| `Calendar.RenderDayShowsPlan` | bot.py:145-158 | a real day shows `{day} 日`, a colon, then the joined `label: task` lines of the plan stored under its `YYYY-MM-DD` key or `無計畫` when there is none, and a blank line; label and plan are both struck through when the date is strictly before today and both plain otherwise |
| `Calendar.JuneExample` | bot.py:145-157 | viewing June 2024 on 2024-06-15, days 1..14 are struck through and days 15..30 are not |
| `Calendar.WeekText` | bot.py:141-158 | a week's text fails only with the date format error |
| `Calendar.CalendarFields` | bot.py:140-161 | the view's fields fail only with the date format error |
| `Calendar.CalendarView` | bot.py:119-161 | an argument error ends the command with that error; any other error is the date format error from strptime, and the argument errors occur exactly when the argument is refused |
| `Calendar.WeekTextErrorPersists` | bot.py:142-158 | a refused date in a week's first cells ends the whole week with that error |
| `Calendar.CalendarErrorPersists` | bot.py:140-161 | a refused date in the first weeks ends the whole view with that error |
| `Calendar.RenderDayEmptyIffPadding` | bot.py:143-158 | a cell adds no text exactly when it is padding |
| `Calendar.WeekTextEmptyIffPadding` | bot.py:141-160 | a week's text is empty exactly when all its cells are padding |
| `Calendar.FieldsAreRealWeeks` | bot.py:140-161 | a successful view has one field per week holding a real day, numbered from 1 in week order, each with non-empty text |
| `Calendar.WeekTextSucceeds` | bot.py:142-158 | with a four-digit year and days within the month, a week renders without error |
| `Calendar.CalendarSucceeds` | bot.py:127-161 | with a four-digit year and a well-formed grid, the view renders without error |
| `Calendar.BadYearWeek` | bot.py:142-146 | for a year outside 1000..9999 a week with a real day fails |
| `Calendar.CalendarFailsForOtherYears` | bot.py:140-146 | for a year outside 1000..9999, any grid with a real day makes the view fail with the date format error |
| `Calendar.RenderWeek` | bot.py:141-158 | the inner loop computes exactly the week text of the specification, error included |
| `Calendar.RenderCell` | bot.py:143-158 | one pass of the inner loop's body gives exactly the cell's rendering, the date format error included |
| `Calendar.AppendCell` | bot.py:142-158 | adding the next cell to the week text so far gives the week text one cell longer, and an error in that cell is the error of the whole week |
| `Calendar.RenderWeeks` | bot.py:140-161 | the outer loop computes exactly the fields of the specification, error included |
| `Bot.Store.Open` | bot.py:17-19 | an existing file is used as it is; a missing one is created holding the empty map, which is one write |
| `Bot.Store.Load` | bot.py:22-24 | loading returns the file's whole map |
| `Bot.Store.Save` | bot.py:27-29 | saving replaces the whole file and counts one write |
| `Bot.Store.StartPlan` | bot.py:38-52 | format error exactly for a date strptime refuses; already-exists error exactly for a valid date that has a plan, with nothing saved; otherwise exactly one key is added, holding the new day plan, one write, and the fixed slot set of every day is kept |
| `Bot.Store.AddTask` | bot.py:61-75 | unknown-date error exactly when the date has no plan, unknown-slot error exactly when the label is not a key of that day, both with nothing saved; otherwise the slot holds the new task verbatim, every other slot and every other date are unchanged, no key is added or removed |
| `Bot.Store.ViewPlan` | bot.py:87-91 | the stored plan of the date whenever it has one, and the unknown-date error exactly when it has none |
| `Bot.Store.ViewCalendar` | bot.py:119-161 | the argument error, or the fields the specification gives for the loaded map, the month's grid and today |
| `Bot.Store.CompleteTask` | bot.py:178-192 | the same errors as add_task with nothing saved; otherwise the slot's text gains the `✅ ` prefix, everything else is unchanged and no key is added or removed |
| `Bot.PlanADay` | bot.py:190 | a new day keeps its eight slots through add_task and two complete_task commands, and its first slot ends with the marker twice |

## Left out

- The chat-platform plumbing: bot construction, command decorators and argument
  tokenising, replies, embed titles, colours and field layout, `on_ready`,
  `on_command_error`, `bot.run`. These are I/O into a foreign library.
- The reply texts, including the list of valid slots in the unknown-slot reply;
  they are presentation only.
- JSON encoding: `Store.Load` and `Store.Save` read and replace the in-memory map.
  A corrupt or hand-edited file (a non-object value, non-string tasks, a JSON
  error, which start_plan would report as a date format error because
  `JSONDecodeError` is a `ValueError`) is not modelled; the map is taken to
  hold day plans, whose labels are distinct as in any JSON object.
- The generic `except Exception` replies: nothing in the modelled logic raises
  besides the errors modelled; they catch I/O failures.
- `datetime.now()`: today's date is the parameter `today`.
- `calendar.Calendar().monthdayscalendar`: the week grid is the parameter
  `monthGrid`; the lemmas that need a well-formed grid require weeks of seven
  cells whose real days are within the month (`Calendar.ValidGrid`).
- Non-ASCII digits: Python's `\d` in strptime and `int()` also accept other
  Unicode decimal digits; the model accepts ASCII digits only.
- Concurrency: two commands running at once can lose a write; the model runs
  one command at a time.
