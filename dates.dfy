/**
 * Calendar dates as the bot uses them: `datetime.strptime(s, "%Y-%m-%d")`, the
 * strict order `date_obj < today`, and the date strings built with
 * `f"{year}-{month:02d}-{day:02d}"`.
 */
module Dates {
  import opened Outcomes
  import opened Strings

  datatype Date = Date(year: int, month: int, day: int)

  /** The proleptic Gregorian leap-year rule used by Python's datetime. */
  predicate IsLeapYear(y: int)
  {
    y % 4 == 0 && (y % 100 != 0 || y % 400 == 0)
  }

  function DaysInMonth(y: int, m: int): nat
    requires 1 <= m <= 12
  {
    if m == 2 then (if IsLeapYear(y) then 29 else 28)
    else if m == 4 || m == 6 || m == 9 || m == 11 then 30
    else 31
  }

  /** A date Python's `datetime.date` can hold. */
  predicate ValidDate(d: Date)
  {
    1 <= d.year <= 9999 && 1 <= d.month <= 12 && 1 <= d.day <= DaysInMonth(d.year, d.month)
  }

  /** `a < b` on dates: year first, then month, then day; a strict total order. */
  predicate Before(a: Date, b: Date)
  {
    || a.year < b.year
    || (a.year == b.year && a.month < b.month)
    || (a.year == b.year && a.month == b.month && a.day < b.day)
  }

  /** Before is irreflexive, asymmetric, total on distinct dates and transitive. */
  lemma BeforeOrder(a: Date, b: Date, c: Date)
    ensures !Before(a, a)
    ensures Before(a, b) ==> !Before(b, a)
    ensures a != b ==> Before(a, b) || Before(b, a)
    ensures Before(a, b) && Before(b, c) ==> Before(a, c)
  {
  }

  lemma {:induction false} DigitsValueBelow(s: string)
    requires AllDigits(s) && |s| <= 4
    ensures DigitsValue(s) < (if |s| == 0 then 1 else if |s| == 1 then 10
                              else if |s| == 2 then 100 else if |s| == 3 then 1000 else 10000)
  {
    if s != [] {
      DigitsValueBelow(s[..|s| - 1]);
    }
  }

  /**
   * The day field of "%d": one or two ASCII digits, or a space followed by a
   * digit; the range check comes later.
   */
  function DayField(s: string): Option<int>
  {
    if |s| == 1 && IsDigit(s[0]) then Some(DigitValue(s[0]))
    else if |s| == 2 && IsDigit(s[0]) && IsDigit(s[1]) then Some(DigitsValue(s))
    else if |s| == 2 && s[0] == ' ' && IsDigit(s[1]) then Some(DigitValue(s[1]))
    else None
  }

  /**
   * `datetime.strptime(s, "%Y-%m-%d")`: exactly four year digits, a '-', then
   * the month and day as ParseMonthDay reads them. None where Python raises
   * ValueError.
   */
  function ParseDate(s: string): (r: Option<Date>)
    ensures r.Some? ==> ValidDate(r.value)
  {
    if |s| < 5 || !AllDigits(s[..4]) || s[4] != '-' then None
    else
      DigitsValueBelow(s[..4]);
      ParseMonthDay(DigitsValue(s[..4]), s[5..])
  }

  /**
   * The "%m-%d" part: a month of one or two digits in 1..12, a '-', a day in
   * range for that month of that year, and nothing after it; the year must not
   * be 0.
   */
  function ParseMonthDay(year: int, rest: string): (r: Option<Date>)
    requires year <= 9999
    ensures r.Some? ==> ValidDate(r.value) && r.value.year == year
  {
    var monthLen :=
      if |rest| >= 2 && IsDigit(rest[0]) && rest[1] == '-' then 1
      else if |rest| >= 3 && IsDigit(rest[0]) && IsDigit(rest[1]) && rest[2] == '-' then 2
      else 0;
    if monthLen == 0 then None
    else
      var month := DigitsValue(rest[..monthLen]);
      match DayField(rest[monthLen + 1..])
      case None => None
      case Some(day) =>
        if 1 <= year && 1 <= month <= 12 && 1 <= day <= DaysInMonth(year, month)
        then Some(Date(year, month, day))
        else None
  }

  /**
   * `f"{year}-{month:02d}-{day:02d}"`: for a four-digit year and a month and
   * day below 100 it has the shape `YYYY-MM-DD`.
   */
  function DateString(year: int, month: nat, day: nat): (s: string)
    ensures 1000 <= year <= 9999 && month < 100 && day < 100 ==>
      && |s| == 10 && s[4] == '-' && s[7] == '-'
      && AllDigits(s[..4]) && AllDigits(s[5..7]) && AllDigits(s[8..])
  {
    NatToStringLength(if year < 0 then 0 else year);
    var ys := IntToString(year);
    var t := MonthDaySuffix(month, day);
    if 1000 <= year <= 9999 && month < 100 && day < 100 then
      DateLayout(ys, Pad2(month), Pad2(day), t);
      ys + t
    else ys + t
  }

  /** Four year digits followed by `-MM-DD` put each field at its fixed position. */
  lemma DateLayout(ys: string, ms: string, ds: string, t: string)
    requires |ys| == 4 && |ms| == 2 && |ds| == 2 && AllDigits(ys) && AllDigits(ms) && AllDigits(ds)
    requires t == "-" + ms + "-" + ds
    ensures var s := ys + t;
      && |s| == 10 && s[4] == '-' && s[7] == '-'
      && AllDigits(s[..4]) && AllDigits(s[5..7]) && AllDigits(s[8..])
  {
    var s := ys + t;
    assert s[..4] == ys && s[5..7] == ms && s[8..] == ds;
  }

  /** The `-{month:02d}-{day:02d}` part of a date string. */
  function MonthDaySuffix(month: nat, day: nat): (t: string)
    ensures |t| >= 5 && t[0] == '-' && t[1..] == Pad2(month) + "-" + Pad2(day)
  {
    "-" + Pad2(month) + "-" + Pad2(day)
  }

  /** The numeral of a month or day below 100 separated from what follows by a '-'. */
  lemma MonthDayParses(year: int, month: nat, day: nat)
    requires 1000 <= year <= 9999
    ensures ParseMonthDay(year, Pad2(month) + "-" + Pad2(day))
         == if ValidDate(Date(year, month, day)) then Some(Date(year, month, day)) else None
  {
    var ms, ds := Pad2(month), Pad2(day);
    var rest := ms + "-" + ds;
    if month >= 100 {
      assert rest[..3] == ms[..3];
      assert IsDigit(rest[1]) && IsDigit(rest[2]);
    } else {
      assert rest[..2] == ms && rest[2] == '-' && rest[3..] == ds;
      if day >= 100 {
        assert DayField(ds) == None;
      } else {
        assert DayField(ds) == Some(day);
      }
    }
  }

  /** A negative year puts its '-' where the first year digit belongs. */
  lemma NegativeYearRejected(ys: string, tail: string)
    requires |ys| >= 1 && ys[0] == '-' && |tail| >= 5
    ensures ParseDate(ys + tail) == None
  {
    var s := ys + tail;
    assert s[..4][0] == '-';
  }

  /** A year field shorter than four digits leaves a '-' among the first four characters. */
  lemma ShortYearRejected(ys: string, tail: string)
    requires |ys| < 4 && |tail| >= 5 && tail[0] == '-'
    ensures ParseDate(ys + tail) == None
  {
    var s := ys + tail;
    assert s[..4][|ys|] == '-';
  }

  /** A year field of five or more digits puts a digit where the first '-' belongs. */
  lemma LongYearRejected(ys: string, tail: string)
    requires |ys| >= 5 && AllDigits(ys)
    ensures ParseDate(ys + tail) == None
  {
    var s := ys + tail;
    assert s[4] == ys[4];
  }

  /** A four-digit year field is read as that year, and the rest after its '-'. */
  lemma FourDigitYear(ys: string, tail: string)
    requires |ys| == 4 && AllDigits(ys) && DigitsValue(ys) <= 9999 && |tail| >= 1 && tail[0] == '-'
    ensures ParseDate(ys + tail) == ParseMonthDay(DigitsValue(ys), tail[1..])
  {
    var s := ys + tail;
    assert s[..4] == ys && s[4] == '-' && s[5..] == tail[1..];
  }

  lemma DateStringBadYear(year: int, month: nat, day: nat)
    requires year < 1000 || 10000 <= year
    ensures ParseDate(DateString(year, month, day)) == None
  {
    var tail := MonthDaySuffix(month, day);
    if year < 0 {
      NegativeYearRejected(IntToString(year), tail);
    } else {
      NatToStringLength(year);
      if year < 1000 {
        ShortYearRejected(NatToString(year), tail);
      } else {
        LongYearRejected(NatToString(year), tail);
      }
    }
  }

  /**
   * What strptime makes of a date string built by the calendar view: the date
   * itself when the year has four digits and the date exists, else an error.
   */
  lemma DateStringParses(year: int, month: nat, day: nat)
    ensures ParseDate(DateString(year, month, day))
         == if 1000 <= year && ValidDate(Date(year, month, day))
            then Some(Date(year, month, day)) else None
  {
    if year < 1000 || 10000 <= year {
      DateStringBadYear(year, month, day);
    } else {
      NatToStringLength(year);
      FourDigitYear(NatToString(year), MonthDaySuffix(month, day));
      MonthDayParses(year, month, day);
    }
  }

  /** `f"{2024}"`, used by the examples. */
  lemma Numeral2024()
    ensures NatToString(2024) == "2024"
  {
    assert DigitChar(0) == '0' && DigitChar(2) == '2' && DigitChar(4) == '4';
    assert NatToString(20) == "20" by {
      assert NatToString(2) == "2";
    }
    assert NatToString(202) == "202";
    assert NatToString(2024) == NatToString(202) + "4";
  }

  /**
   * strptime also accepts dates without zero padding, so `2024-6-5` is a valid
   * argument to start_plan.
   */
  lemma UnpaddedDateAccepted()
    ensures ParseDate("2024-6-5") == Some(Date(2024, 6, 5))
  {
    Numeral2024();
    assert "2024-6-5" == NatToString(2024) + "-6-5";
    FourDigitYear(NatToString(2024), "-6-5");
    assert "-6-5"[1..] == "6-5";
    assert "6-5"[..1] == "6" && "6-5"[2..] == "5";
  }

  /**
   * The calendar view looks a day up under its zero-padded date string, so a
   * plan that start_plan stored under `2024-6-5` is never found there.
   */
  lemma CalendarKeyIsPadded()
    ensures DateString(2024, 6, 5) == "2024-06-05"
    ensures DateString(2024, 6, 5) != "2024-6-5"
  {
    DateStringJoins(2024, 6, 5);
    JuneFifthParts();
    assert |"2024-6-5"| == 8;
  }

  /** The year numeral and the padded month-and-day suffix of 2024-06-05. */
  lemma JuneFifthParts()
    ensures IntToString(2024) + MonthDaySuffix(6, 5) == "2024-06-05"
  {
    Numeral2024();
    JuneFifthSuffix();
    assert "2024" + "-06-05" == "2024-06-05";
  }

  /** The padded month-and-day suffix of June 5. */
  lemma JuneFifthSuffix()
    ensures MonthDaySuffix(6, 5) == "-06-05"
  {
    assert NatToString(6) == "6" && NatToString(5) == "5";
  }

  /** A date string is the year's numeral followed by the month-and-day suffix. */
  lemma DateStringJoins(year: int, month: nat, day: nat)
    ensures DateString(year, month, day) == IntToString(year) + MonthDaySuffix(month, day)
  {
  }
}
