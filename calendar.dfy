/**
 * The data logic of view_calendar: reading the `YYYY-MM` argument and turning
 * a month's week grid into one text field per week.
 */
module Calendar {
  import opened Outcomes
  import opened Strings
  import opened Dates
  import opened Schedule

  datatype YearMonth = YearMonth(year: int, month: int)

  /** One field of the calendar view: the 1-based week number and its text. */
  datatype Field = Field(week: nat, text: string)

  /** Shown for a day that has no plan. */
  const NoPlan: string := "無計畫"

  /**
   * The argument check of view_calendar: the text must hold a '-' and split
   * into exactly two parts, both parts must be integers for `int()`, and the
   * month must lie in 1..12.
   */
  function ParseYearMonth(s: string): (r: Result<YearMonth>)
    ensures r.Err? ==> r.error in {InvalidYearMonthFormat, NotAnInteger, InvalidMonth}
    ensures r == Err(InvalidYearMonthFormat) <==> Count(s, '-') != 1
    ensures r == Err(NotAnInteger) <==>
      Count(s, '-') == 1 && (ParseInt(Split(s, '-')[0]).None? || ParseInt(Split(s, '-')[1]).None?)
    ensures r == Err(InvalidMonth) <==>
      && Count(s, '-') == 1 && ParseInt(Split(s, '-')[0]).Some? && ParseInt(Split(s, '-')[1]).Some?
      && !(1 <= ParseInt(Split(s, '-')[1]).value <= 12)
    ensures r.Ok? ==>
      && Count(s, '-') == 1
      && ParseInt(Split(s, '-')[0]) == Some(r.value.year)
      && ParseInt(Split(s, '-')[1]) == Some(r.value.month)
      && 1 <= r.value.month <= 12
  {
    CountZero(s, '-');
    var parts := Split(s, '-');
    if '-' !in s || |parts| != 2 then Err(InvalidYearMonthFormat)
    else
      match ParseInt(parts[0])
      case None => Err(NotAnInteger)
      case Some(year) =>
        match ParseInt(parts[1])
        case None => Err(NotAnInteger)
        case Some(month) =>
          if 1 <= month <= 12 then Ok(YearMonth(year, month)) else Err(InvalidMonth)
  }

  /** `f"{year}-{month:02d}"` (or without the padding) is read back as that year and month. */
  lemma ParseYearMonthRoundTrip(year: nat, month: nat)
    requires 1 <= month <= 12
    ensures ParseYearMonth(NatToString(year) + "-" + Pad2(month)) == Ok(YearMonth(year, month))
    ensures ParseYearMonth(NatToString(year) + "-" + NatToString(month)) == Ok(YearMonth(year, month))
  {
    SplitAtOnly(NatToString(year), Pad2(month), '-');
    SplitAtOnly(NatToString(year), NatToString(month), '-');
    ParseIntNatToString(year);
    ParseIntNatToString(month);
    ParseIntPad2(month);
  }

  /**
   * An argument of two `int()`-readable parts around its only '-' whose month
   * is outside 1..12 gets the month error, whatever the spelling of the parts
   * (`2024-00`, `2024-013`, `+2024-13`).
   */
  lemma ParseYearMonthBadMonth(ys: string, ms: string)
    requires '-' !in ys && '-' !in ms
    requires ParseInt(ys).Some? && ParseInt(ms).Some? && !(1 <= ParseInt(ms).value <= 12)
    ensures ParseYearMonth(ys + "-" + ms) == Err(InvalidMonth)
  {
    SplitAtOnly(ys, ms, '-');
  }

  /** A year without a month, such as `2024`, is refused as malformed. */
  lemma ParseYearMonthNoDash()
    ensures ParseYearMonth("2024") == Err(InvalidYearMonthFormat)
  {
    CountZero("2024", '-');
  }

  /** `2024-13` is refused for its month. */
  lemma ParseYearMonthMonthThirteen()
    ensures ParseYearMonth("2024-13") == Err(InvalidMonth)
  {
    assert "2024-13" == "2024" + "-" + "13";
    assert DigitsValue("13") == 13;
    ParseIntDigits("2024");
    ParseIntDigits("13");
    ParseYearMonthBadMonth("2024", "13");
  }

  /** Month zero, spelled `00`, is refused for its month. */
  lemma ParseYearMonthMonthZero()
    ensures ParseYearMonth("2024-00") == Err(InvalidMonth)
  {
    assert "2024-00" == "2024" + "-" + "00";
    assert DigitsValue("00") == 0;
    ParseIntDigits("2024");
    ParseIntDigits("00");
    ParseYearMonthBadMonth("2024", "00");
  }

  /** A zero-padded three-digit month is read as its value and refused when out of range. */
  lemma ParseYearMonthPaddedThirteen()
    ensures ParseYearMonth("2024-013") == Err(InvalidMonth)
  {
    assert "2024-013" == "2024" + "-" + "013";
    assert DigitsValue("013") == 13 by {
      assert "013"[..2] == "01" && "01"[..1] == "0";
    }
    ParseIntDigits("2024");
    ParseIntDigits("013");
    ParseYearMonthBadMonth("2024", "013");
  }

  /** `f"~~{text}~~"`: the struck-through display of a past day. */
  function Strike(text: string): (r: string)
    ensures |r| == |text| + 4 && r[..2] == "~~" && r[|r| - 2..] == "~~" && r[2..|r| - 2] == text
  {
    "~~" + text + "~~"
  }

  /** `f"{time}: {task}"`. */
  function SlotLine(slot: Slot): (r: string)
    ensures |r| == |slot.period| + 2 + |slot.task|
    ensures r[..|slot.period|] == slot.period && r[|slot.period|..|slot.period| + 2] == ": "
    ensures r[|slot.period| + 2..] == slot.task
    ensures '\n' !in slot.period && '\n' !in slot.task ==> '\n' !in r
  {
    slot.period + ": " + slot.task
  }

  function SlotLines(p: DayPlan): seq<string>
  {
    seq(|p|, k requires 0 <= k < |p| => SlotLine(p[k]))
  }

  /** `"\n".join(...)` of the slot lines, in slot order. */
  function PlanText(p: DayPlan): string
  {
    JoinWith(SlotLines(p), "\n")
  }

  /**
   * When no label or task holds a line break, the plan text has one line per
   * slot, `label: task`, in slot order.
   */
  lemma PlanTextLines(p: DayPlan)
    requires |p| > 0
    requires forall k :: 0 <= k < |p| ==> '\n' !in p[k].period && '\n' !in p[k].task
    ensures Split(PlanText(p), '\n') == SlotLines(p)
  {
    SplitJoin(SlotLines(p), '\n');
  }

  /**
   * The text one real day adds to its week: the day label, a colon, the plan
   * (or the no-plan placeholder) and a blank line; both parts struck through
   * when the day is past. It starts with the strike marker exactly when the
   * day is past.
   */
  function DayBlock(day: nat, past: bool, plan: Option<DayPlan>): (r: string)
    ensures |r| >= 2 && (r[..2] == "~~" <==> past)
    ensures r[|r| - 2..] == "\n\n"
  {
    var dateLabel := NatToString(day) + " 日";
    var tasks := if plan.Some? then PlanText(plan.value) else NoPlan;
    var r := (if past then Strike(dateLabel) else dateLabel) + ":\n"
      + (if past then Strike(tasks) else tasks) + "\n\n";
    assert !past ==> r[..2][0] == NatToString(day)[0];
    r
  }

  /**
   * One cell of the week grid: nothing for padding (0), otherwise the block of
   * that day, past when its parsed date is strictly before `today`. strptime
   * refusing the built date string is an error.
   */
  function RenderDay(year: int, month: nat, day: nat, today: Date, data: ScheduleMap): (r: Result<string>)
    ensures r.Err? ==> r.error == InvalidDateFormat
  {
    if day == 0 then Ok("")
    else
      var dateStr := DateString(year, month, day);
      match ParseDate(dateStr)
      case None => Err(InvalidDateFormat)
      case Some(date) =>
        Ok(DayBlock(day, Before(date, today), if dateStr in data then Some(data[dateStr]) else None))
  }

  /** A real day is shown struck through exactly when its date is strictly before today. */
  lemma RenderDayStruckIffPast(year: int, month: nat, day: nat, today: Date, data: ScheduleMap)
    requires day != 0 && RenderDay(year, month, day, today, data).Ok?
    ensures |RenderDay(year, month, day, today, data).value| >= 2
    ensures RenderDay(year, month, day, today, data).value[..2] == "~~"
        <==> Before(Date(year, month, day), today)
  {
    DateStringParses(year, month, day);
  }

  /**
   * What a real day shows: its label and either the joined slot lines of the
   * plan stored under the day's date string or the no-plan placeholder, both
   * struck through when its date is strictly before today and plain otherwise.
   */
  lemma RenderDayShowsPlan(year: int, month: nat, day: nat, today: Date, data: ScheduleMap)
    requires day != 0 && RenderDay(year, month, day, today, data).Ok?
    ensures var key := DateString(year, month, day);
      var dayLabel := NatToString(day) + " 日";
      var tasks := if key in data then PlanText(data[key]) else NoPlan;
      RenderDay(year, month, day, today, data).value ==
        if Before(Date(year, month, day), today)
        then Strike(dayLabel) + ":\n" + Strike(tasks) + "\n\n"
        else dayLabel + ":\n" + tasks + "\n\n"
  {
    DateStringParses(year, month, day);
  }

  /**
   * June 2024 viewed on 2024-06-15: the days before the 15th are struck
   * through, the 15th itself and later days are not.
   */
  lemma JuneExample(day: nat, data: ScheduleMap)
    requires 1 <= day <= 30
    ensures RenderDay(2024, 6, day, Date(2024, 6, 15), data).Ok?
    ensures RenderDay(2024, 6, day, Date(2024, 6, 15), data).value[..2] == "~~" <==> day < 15
  {
    DateStringParses(2024, 6, day);
    RenderDayStruckIffPast(2024, 6, day, Date(2024, 6, 15), data);
  }

  /** The accumulated `week_plan` text of a week (or of its first cells). */
  function WeekText(year: int, month: nat, week: seq<nat>, today: Date, data: ScheduleMap): (r: Result<string>)
    ensures r.Err? ==> r.error == InvalidDateFormat
    decreases |week|
  {
    if week == [] then Ok("")
    else
      match WeekText(year, month, week[..|week| - 1], today, data)
      case Err(e) => Err(e)
      case Ok(text) =>
        match RenderDay(year, month, week[|week| - 1], today, data)
        case Err(e) => Err(e)
        case Ok(block) => Ok(text + block)
  }

  /** The fields of the view for a grid (or its first weeks): one per week with non-empty text. */
  function CalendarFields(year: int, month: nat, weeks: seq<seq<nat>>, today: Date, data: ScheduleMap)
    : (r: Result<seq<Field>>)
    ensures r.Err? ==> r.error == InvalidDateFormat
    decreases |weeks|
  {
    if weeks == [] then Ok([])
    else
      match CalendarFields(year, month, weeks[..|weeks| - 1], today, data)
      case Err(e) => Err(e)
      case Ok(fields) =>
        match WeekText(year, month, weeks[|weeks| - 1], today, data)
        case Err(e) => Err(e)
        case Ok(text) => Ok(if text != "" then fields + [Field(|weeks|, text)] else fields)
  }

  /** The whole view_calendar command for a given grid function and today's date. */
  function CalendarView(yearMonth: string, monthGrid: (int, int) -> seq<seq<nat>>, today: Date, data: ScheduleMap)
    : (r: Result<seq<Field>>)
    ensures ParseYearMonth(yearMonth).Err? ==> r == Err(ParseYearMonth(yearMonth).error)
    ensures r.Err? && r.error != InvalidDateFormat <==> ParseYearMonth(yearMonth).Err?
  {
    match ParseYearMonth(yearMonth)
    case Err(e) => Err(e)
    case Ok(ym) => CalendarFields(ym.year, ym.month, monthGrid(ym.year, ym.month), today, data)
  }

  /** An error in a week's first cells is the error of the whole week. */
  lemma {:induction false} WeekTextErrorPersists(year: int, month: nat, week: seq<nat>, j: nat,
                                                today: Date, data: ScheduleMap)
    requires j <= |week| && WeekText(year, month, week[..j], today, data).Err?
    ensures WeekText(year, month, week, today, data) == WeekText(year, month, week[..j], today, data)
  {
    if j < |week| {
      assert week[..|week| - 1][..j] == week[..j];
      WeekTextErrorPersists(year, month, week[..|week| - 1], j, today, data);
    } else {
      assert week[..j] == week;
    }
  }

  /** An error in the first weeks is the error of the whole view. */
  lemma {:induction false} CalendarErrorPersists(year: int, month: nat, weeks: seq<seq<nat>>, i: nat,
                                                today: Date, data: ScheduleMap)
    requires i <= |weeks| && CalendarFields(year, month, weeks[..i], today, data).Err?
    ensures CalendarFields(year, month, weeks, today, data) == CalendarFields(year, month, weeks[..i], today, data)
  {
    if i < |weeks| {
      assert weeks[..|weeks| - 1][..i] == weeks[..i];
      CalendarErrorPersists(year, month, weeks[..|weeks| - 1], i, today, data);
    } else {
      assert weeks[..i] == weeks;
    }
  }

  /** Whether a week row holds at least one real day. */
  predicate HasRealDay(week: seq<nat>)
  {
    exists k :: 0 <= k < |week| && week[k] != 0
  }

  /** A cell renders to nothing exactly when it is padding. */
  lemma RenderDayEmptyIffPadding(year: int, month: nat, day: nat, today: Date, data: ScheduleMap)
    requires RenderDay(year, month, day, today, data).Ok?
    ensures RenderDay(year, month, day, today, data).value == "" <==> day == 0
  {
  }

  /** A week holds a real day when its first cells do or its last cell is one. */
  lemma HasRealDaySnoc(week: seq<nat>)
    requires week != []
    ensures HasRealDay(week) <==> HasRealDay(week[..|week| - 1]) || week[|week| - 1] != 0
  {
    var init := week[..|week| - 1];
    if HasRealDay(init) {
      var k :| 0 <= k < |init| && init[k] != 0;
      assert week[k] != 0;
    }
    if HasRealDay(week) && week[|week| - 1] == 0 {
      var k :| 0 <= k < |week| && week[k] != 0;
      assert init[k] != 0;
    }
  }

  /** A week's text is empty exactly when the week is all padding. */
  lemma {:induction false} WeekTextEmptyIffPadding(year: int, month: nat, week: seq<nat>, today: Date,
                                                  data: ScheduleMap)
    requires WeekText(year, month, week, today, data).Ok?
    ensures WeekText(year, month, week, today, data).value == "" <==> !HasRealDay(week)
  {
    if week != [] {
      var init := week[..|week| - 1];
      var last := week[|week| - 1];
      var text := WeekText(year, month, init, today, data).value;
      var block := RenderDay(year, month, last, today, data).value;
      assert WeekText(year, month, week, today, data).value == text + block;
      WeekTextEmptyIffPadding(year, month, init, today, data);
      RenderDayEmptyIffPadding(year, month, last, today, data);
      HasRealDaySnoc(week);
      assert text + block == "" <==> text == "" && block == "" by {
        if text + block == "" {
          assert |text + block| == |text| + |block|;
        }
      }
    } else {
      assert !HasRealDay(week);
    }
  }

  /** The 1-based numbers of the weeks that hold a real day. */
  function RealWeeks(weeks: seq<seq<nat>>): seq<nat>
    decreases |weeks|
  {
    if weeks == [] then []
    else RealWeeks(weeks[..|weeks| - 1]) + (if HasRealDay(weeks[|weeks| - 1]) then [|weeks|] else [])
  }

  function WeekNumbers(fields: seq<Field>): seq<nat>
  {
    seq(|fields|, k requires 0 <= k < |fields| => fields[k].week)
  }

  /**
   * A successful view has exactly one field per week that holds a real day, in
   * week order, and every field's text is non-empty.
   */
  lemma {:induction false} FieldsAreRealWeeks(year: int, month: nat, weeks: seq<seq<nat>>, today: Date,
                                             data: ScheduleMap)
    requires CalendarFields(year, month, weeks, today, data).Ok?
    ensures WeekNumbers(CalendarFields(year, month, weeks, today, data).value) == RealWeeks(weeks)
    ensures forall f :: f in CalendarFields(year, month, weeks, today, data).value ==> f.text != ""
  {
    if weeks != [] {
      var init := weeks[..|weeks| - 1];
      CalendarFieldsLast(year, month, weeks, today, data);
      FieldsAreRealWeeks(year, month, init, today, data);
      WeekTextEmptyIffPadding(year, month, weeks[|weeks| - 1], today, data);
      var fields := CalendarFields(year, month, init, today, data).value;
      var text := WeekText(year, month, weeks[|weeks| - 1], today, data).value;
      if text != "" {
        WeekNumbersSnoc(fields, Field(|weeks|, text));
      }
    }
  }

  /** Appending a field appends its week number. */
  lemma WeekNumbersSnoc(fields: seq<Field>, f: Field)
    ensures WeekNumbers(fields + [f]) == WeekNumbers(fields) + [f.week]
  {
  }

  /** A successful view of a non-empty grid extends the fields of its first weeks by its last week. */
  lemma CalendarFieldsLast(year: int, month: nat, weeks: seq<seq<nat>>, today: Date, data: ScheduleMap)
    requires weeks != [] && CalendarFields(year, month, weeks, today, data).Ok?
    ensures CalendarFields(year, month, weeks[..|weeks| - 1], today, data).Ok?
    ensures WeekText(year, month, weeks[|weeks| - 1], today, data).Ok?
    ensures var fields := CalendarFields(year, month, weeks[..|weeks| - 1], today, data).value;
      var text := WeekText(year, month, weeks[|weeks| - 1], today, data).value;
      CalendarFields(year, month, weeks, today, data).value
        == if text != "" then fields + [Field(|weeks|, text)] else fields
  {
  }

  /** The shape of the grid `monthdayscalendar` returns: weeks of seven cells, real days in range. */
  predicate ValidGrid(year: int, month: int, weeks: seq<seq<nat>>)
    requires 1 <= month <= 12
  {
    forall i :: 0 <= i < |weeks| ==>
      |weeks[i]| == 7 && forall k :: 0 <= k < 7 ==> weeks[i][k] <= DaysInMonth(year, month)
  }

  lemma {:induction false} WeekTextSucceeds(year: int, month: nat, week: seq<nat>, today: Date, data: ScheduleMap)
    requires 1000 <= year <= 9999 && 1 <= month <= 12
    requires forall k :: 0 <= k < |week| ==> week[k] <= DaysInMonth(year, month)
    ensures WeekText(year, month, week, today, data).Ok?
  {
    if week != [] {
      WeekTextSucceeds(year, month, week[..|week| - 1], today, data);
      DateStringParses(year, month, week[|week| - 1]);
    }
  }

  /** With a four-digit year and a well-formed grid the view never fails. */
  lemma {:induction false} CalendarSucceeds(year: int, month: nat, weeks: seq<seq<nat>>, today: Date,
                                           data: ScheduleMap)
    requires 1000 <= year <= 9999 && 1 <= month <= 12 && ValidGrid(year, month, weeks)
    ensures CalendarFields(year, month, weeks, today, data).Ok?
  {
    if weeks != [] {
      CalendarSucceeds(year, month, weeks[..|weeks| - 1], today, data);
      WeekTextSucceeds(year, month, weeks[|weeks| - 1], today, data);
    }
  }

  /**
   * For a year without exactly four digits strptime refuses the date string of
   * the first real day, so the view fails with the date format error.
   */
  lemma CalendarFailsForOtherYears(year: int, month: nat, weeks: seq<seq<nat>>,
                                   today: Date, data: ScheduleMap, i: nat, k: nat)
    requires year < 1000 || 10000 <= year
    requires i < |weeks| && k < |weeks[i]| && weeks[i][k] != 0
    ensures CalendarFields(year, month, weeks, today, data) == Err(InvalidDateFormat)
  {
    BadYearWeek(year, month, weeks[i], k, today, data);
    var upto := weeks[..i + 1];
    assert upto[..|upto| - 1] == weeks[..i] && upto[|upto| - 1] == weeks[i];
    assert CalendarFields(year, month, upto, today, data).Err?;
    CalendarErrorPersists(year, month, weeks, i + 1, today, data);
  }

  lemma {:induction false} BadYearWeek(year: int, month: nat, week: seq<nat>, k: nat, today: Date,
                                      data: ScheduleMap)
    requires year < 1000 || 10000 <= year
    requires k < |week| && week[k] != 0
    ensures WeekText(year, month, week, today, data).Err?
    decreases |week|
  {
    var init := week[..|week| - 1];
    if k < |week| - 1 {
      assert init[k] == week[k];
      BadYearWeek(year, month, init, k, today, data);
    } else {
      DateStringBadYear(year, month, week[k]);
      assert RenderDay(year, month, week[k], today, data).Err?;
    }
  }

  /**
   * The last cell of a week: its rendering error ends the week's text, and
   * otherwise its block extends the text of the cells before it.
   */
  lemma WeekTextStep(year: int, month: nat, week: seq<nat>, today: Date, data: ScheduleMap,
                     text: string, cell: Result<string>)
    requires week != [] && WeekText(year, month, week[..|week| - 1], today, data) == Ok(text)
    requires RenderDay(year, month, week[|week| - 1], today, data) == cell
    ensures WeekText(year, month, week, today, data) == if cell.Ok? then Ok(text + cell.value) else cell
  {
  }

  /**
   * The rendering of one cell in the inner loop of view_calendar: a padding
   * cell adds nothing; otherwise build the date string, parse it, compare it
   * with today and render the day's block.
   */
  method RenderCell(year: int, month: nat, day: nat, today: Date, data: ScheduleMap)
    returns (r: Result<string>)
    ensures r == RenderDay(year, month, day, today, data)
  {
    if day == 0 {
      return Ok("");
    }
    var dateStr := DateString(year, month, day);
    var parsed := ParseDate(dateStr);
    if parsed.None? {
      return Err(InvalidDateFormat);
    }
    var past := Before(parsed.value, today);
    var plan := if dateStr in data then Some(data[dateStr]) else None;
    return Ok(DayBlock(day, past, plan));
  }

  /**
   * One pass of the inner loop of view_calendar: render the cell `week[j]` and
   * append its block to the text of the cells before it. A rendering error is
   * the result of the whole week.
   */
  method AppendCell(year: int, month: nat, week: seq<nat>, j: nat, today: Date, data: ScheduleMap, text: string)
    returns (r: Result<string>)
    requires j < |week| && WeekText(year, month, week[..j], today, data) == Ok(text)
    ensures r == WeekText(year, month, week[..j + 1], today, data)
    ensures r.Err? ==> r == WeekText(year, month, week, today, data)
  {
    var cell := RenderCell(year, month, week[j], today, data);
    ghost var upto := week[..j + 1];
    assert upto[..|upto| - 1] == week[..j] && upto[|upto| - 1] == week[j];
    WeekTextStep(year, month, upto, today, data, text, cell);
    if cell.Err? {
      WeekTextErrorPersists(year, month, week, j + 1, today, data);
      return cell;
    }
    return Ok(text + cell.value);
  }

  /**
   * The inner loop of view_calendar: append the block of every real day of a
   * week to `weekPlan`; strptime refusing a date string ends the command.
   */
  method RenderWeek(year: int, month: nat, week: seq<nat>, today: Date, data: ScheduleMap)
    returns (r: Result<string>)
    ensures r == WeekText(year, month, week, today, data)
  {
    var weekPlan := "";
    var j := 0;
    while j < |week|
      invariant 0 <= j <= |week|
      invariant WeekText(year, month, week[..j], today, data) == Ok(weekPlan)
    {
      var next := AppendCell(year, month, week, j, today, data, weekPlan);
      if next.Err? {
        return next;
      }
      weekPlan := next.value;
      j := j + 1;
    }
    assert week[..|week|] == week;
    return Ok(weekPlan);
  }

  /**
   * The outer loop of view_calendar: render each week in turn and emit it as
   * a field, numbered from 1, when its text is non-empty.
   */
  method RenderWeeks(year: int, month: nat, weeks: seq<seq<nat>>, today: Date, data: ScheduleMap)
    returns (r: Result<seq<Field>>)
    ensures r == CalendarFields(year, month, weeks, today, data)
  {
    var fields: seq<Field> := [];
    var i := 0;
    while i < |weeks|
      invariant 0 <= i <= |weeks|
      invariant CalendarFields(year, month, weeks[..i], today, data) == Ok(fields)
    {
      ghost var upto := weeks[..i + 1];
      assert upto[..|upto| - 1] == weeks[..i] && upto[|upto| - 1] == weeks[i];
      var weekPlan := RenderWeek(year, month, weeks[i], today, data);
      if weekPlan.Err? {
        CalendarErrorPersists(year, month, weeks, i + 1, today, data);
        return Err(weekPlan.error);
      }
      if weekPlan.value != "" {
        fields := fields + [Field(i + 1, weekPlan.value)];
      }
      i := i + 1;
    }
    assert weeks[..|weeks|] == weeks;
    return Ok(fields);
  }
}
