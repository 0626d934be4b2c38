/**
 * The few pieces of Python's string and integer handling that the bot relies on:
 * decimal rendering (`f"{n}"`, `f"{n:02d}"`), `str.split`, `str.join` and `int()`.
 */
module Strings {
  import opened Outcomes

  predicate IsDigit(c: char) { '0' <= c <= '9' }

  function DigitValue(c: char): (d: nat)
    requires IsDigit(c)
    ensures d < 10
  {
    c as int - '0' as int
  }

  function DigitChar(d: nat): (c: char)
    requires d < 10
    ensures IsDigit(c) && DigitValue(c) == d
  {
    ('0' as int + d) as char
  }

  predicate AllDigits(s: string) { forall i :: 0 <= i < |s| ==> IsDigit(s[i]) }

  /** The value of a string of decimal digits, most significant first. */
  function DigitsValue(s: string): nat
    requires AllDigits(s)
    decreases |s|
  {
    if s == [] then 0 else DigitsValue(s[..|s| - 1]) * 10 + DigitValue(s[|s| - 1])
  }

  /** `f"{n}"` for a non-negative integer: its shortest decimal numeral. */
  function NatToString(n: nat): (s: string)
    ensures 1 <= |s| && AllDigits(s) && DigitsValue(s) == n
    ensures n != 0 ==> s[0] != '0'
  {
    if n < 10 then [DigitChar(n)]
    else
      var prefix := NatToString(n / 10);
      var s := prefix + [DigitChar(n % 10)];
      assert s[..|s| - 1] == prefix;
      s
  }

  /** The number of digits `f"{n}"` has, for the ranges the bot's dates need. */
  lemma {:induction false} NatToStringLength(n: nat)
    ensures n < 10 ==> |NatToString(n)| == 1
    ensures 10 <= n < 100 ==> |NatToString(n)| == 2
    ensures 100 <= n < 1000 ==> |NatToString(n)| == 3
    ensures 1000 <= n < 10000 ==> |NatToString(n)| == 4
    ensures 10000 <= n ==> |NatToString(n)| >= 5
  {
    if n >= 10 {
      NatToStringLength(n / 10);
    }
  }

  /** `f"{i}"` for any integer: a leading '-' for negative values. */
  function IntToString(i: int): (s: string)
    ensures ParseInt(s) == Some(i)
  {
    if i < 0 then
      ParseIntNegative(-i);
      "-" + NatToString(-i)
    else
      ParseIntNatToString(i);
      NatToString(i)
  }

  /** `f"{n:02d}"`: the numeral of `n`, left-padded with '0' to width two. */
  function Pad2(n: nat): (s: string)
    ensures AllDigits(s) && DigitsValue(s) == n
    ensures n < 100 ==> |s| == 2
    ensures 100 <= n ==> |s| >= 3
  {
    NatToStringLength(n);
    if n < 10 then
      var s := "0" + NatToString(n);
      assert s[..1] == "0";
      s
    else NatToString(n)
  }

  /** The number of occurrences of `c` in `s`. */
  function Count(s: string, c: char): nat
  {
    if s == [] then 0 else (if s[0] == c then 1 else 0) + Count(s[1..], c)
  }

  lemma {:induction false} CountZero(s: string, c: char)
    ensures Count(s, c) == 0 <==> c !in s
  {
    if s != [] {
      CountZero(s[1..], c);
      assert s == [s[0]] + s[1..];
    }
  }

  /** `s.split(sep)` for a one-character separator: every occurrence cuts. */
  function Split(s: string, sep: char): (parts: seq<string>)
    ensures |parts| == Count(s, sep) + 1
    ensures forall k :: 0 <= k < |parts| ==> sep !in parts[k]
  {
    if s == [] then [""]
    else
      var rest := Split(s[1..], sep);
      if s[0] == sep then [""] + rest
      else [[s[0]] + rest[0]] + rest[1..]
  }

  /** `sep.join(parts)`. */
  function JoinWith(parts: seq<string>, sep: string): string
  {
    if |parts| == 0 then ""
    else if |parts| == 1 then parts[0]
    else parts[0] + sep + JoinWith(parts[1..], sep)
  }

  /** Joining the pieces of a split with the separator gives back the string. */
  lemma {:induction false} JoinSplit(s: string, sep: char)
    ensures JoinWith(Split(s, sep), [sep]) == s
  {
    if s != [] {
      var rest := Split(s[1..], sep);
      JoinSplit(s[1..], sep);
      if s[0] == sep {
        assert ([""] + rest)[1..] == rest;
      } else {
        var parts := [[s[0]] + rest[0]] + rest[1..];
        if |rest| == 1 {
          assert JoinWith(parts, [sep]) == [s[0]] + rest[0];
        } else {
          assert parts[1..] == rest[1..];
          assert JoinWith(rest, [sep]) == rest[0] + [sep] + JoinWith(rest[1..], [sep]);
        }
      }
      assert s == [s[0]] + s[1..];
    }
  }

  lemma {:induction false} SplitNoSeparator(s: string, sep: char)
    requires sep !in s
    ensures Split(s, sep) == [s]
  {
    if s != [] {
      SplitNoSeparator(s[1..], sep);
      assert s == [s[0]] + s[1..];
    }
  }

  /** A piece without the separator, then the separator, is split off as the first part. */
  lemma {:induction false} SplitAfter(a: string, rest: string, sep: char)
    requires sep !in a
    ensures Split(a + [sep] + rest, sep) == [a] + Split(rest, sep)
  {
    var s := a + [sep] + rest;
    if a == [] {
      assert s[1..] == rest;
    } else {
      assert s[1..] == a[1..] + [sep] + rest;
      SplitAfter(a[1..], rest, sep);
      assert [a[0]] + a[1..] == a;
    }
  }

  /** Splitting `a-b` at its only separator gives `a` and `b`. */
  lemma SplitAtOnly(a: string, b: string, sep: char)
    requires sep !in a && sep !in b
    ensures Split(a + [sep] + b, sep) == [a, b]
  {
    SplitAfter(a, b, sep);
    SplitNoSeparator(b, sep);
  }

  /**
   * Splitting a join gives back its parts when no part holds the separator:
   * with JoinSplit, `sep.join` and `str.split(sep)` are inverse.
   */
  lemma {:induction false} SplitJoin(parts: seq<string>, sep: char)
    requires |parts| > 0 && forall k :: 0 <= k < |parts| ==> sep !in parts[k]
    ensures Split(JoinWith(parts, [sep]), sep) == parts
  {
    if |parts| == 1 {
      SplitNoSeparator(parts[0], sep);
    } else {
      SplitJoin(parts[1..], sep);
      SplitAfter(parts[0], JoinWith(parts[1..], [sep]), sep);
      assert [parts[0]] + parts[1..] == parts;
    }
  }

  /**
   * The characters `int()` strips around a numeral: the ASCII space and
   * `\t\n\v\f\r`, and the non-ASCII characters `str.isspace` accepts. The
   * ASCII separators 0x1C..0x1F, which `str.isspace` also accepts, are not
   * stripped.
   */
  predicate IsSpace(c: char)
  {
    if c <= ' ' then c == ' ' || '\t' <= c <= '\r'
    else '\U{85}' <= c && IsWideSpace(c)
  }

  /** The non-ASCII characters `str.isspace` accepts. */
  predicate IsWideSpace(c: char)
  {
    || c == '\U{85}' || c == '\U{A0}' || c == '\U{1680}' || '\U{2000}' <= c <= '\U{200A}'
    || c == '\U{2028}' || c == '\U{2029}' || c == '\U{202F}' || c == '\U{205F}' || c == '\U{3000}'
  }

  function TrimStart(s: string): string
  {
    if s != [] && IsSpace(s[0]) then TrimStart(s[1..]) else s
  }

  function TrimEnd(s: string): string
  {
    if s != [] && IsSpace(s[|s| - 1]) then TrimEnd(s[..|s| - 1]) else s
  }

  /**
   * A numeral `int()` accepts after its sign: decimal digits, where a single
   * underscore may separate two digits.
   */
  predicate IsNumeral(s: string)
  {
    && |s| > 0 && IsDigit(s[0]) && IsDigit(s[|s| - 1])
    && (forall i :: 0 <= i < |s| ==> IsDigit(s[i]) || s[i] == '_')
    && (forall i :: 0 <= i < |s| - 1 ==> NoDoubleUnderscoreAt(s, i))
  }

  /** The characters at `i` and `i + 1` are not both '_'. */
  predicate NoDoubleUnderscoreAt(s: string, i: nat)
    requires i + 1 < |s|
  {
    s[i] == '_' ==> s[i + 1] != '_'
  }

  /** The characters of `s` other than '_', in their order. */
  function DropUnderscores(s: string): (t: string)
    ensures forall c :: c in t <==> c in s && c != '_'
    ensures (forall i :: 0 <= i < |s| ==> IsDigit(s[i]) || s[i] == '_') ==> AllDigits(t)
    ensures AllDigits(s) ==> t == s
  {
    if s == [] then []
    else
      assert s == [s[0]] + s[1..];
      (if s[0] == '_' then [] else [s[0]]) + DropUnderscores(s[1..])
  }

  lemma {:induction false} DropUnderscoresConcat(a: string, b: string)
    ensures DropUnderscores(a + b) == DropUnderscores(a) + DropUnderscores(b)
  {
    if a == [] {
      assert a + b == b;
    } else {
      assert (a + b)[0] == a[0] && (a + b)[1..] == a[1..] + b;
      DropUnderscoresConcat(a[1..], b);
      var h := if a[0] == '_' then [] else [a[0]];
      assert h + (DropUnderscores(a[1..]) + DropUnderscores(b)) == (h + DropUnderscores(a[1..])) + DropUnderscores(b);
    }
  }

  function NumeralValue(s: string): nat
    requires IsNumeral(s)
  {
    DigitsValue(DropUnderscores(s))
  }

  /** `int(s)` in base ten: None where Python raises ValueError. */
  function ParseInt(s: string): Option<int>
  {
    var t := TrimEnd(TrimStart(s));
    if |t| > 0 && (t[0] == '+' || t[0] == '-') then
      if IsNumeral(t[1..]) then
        var v: int := NumeralValue(t[1..]);
        Some(if t[0] == '-' then -v else v)
      else None
    else if IsNumeral(t) then Some(NumeralValue(t))
    else None
  }

  /** `int(f"{n}") == n`. */
  lemma ParseIntNatToString(n: nat)
    ensures ParseInt(NatToString(n)) == Some(n)
  {
    ParseIntDigits(NatToString(n));
  }

  /** `int()` reads any non-empty digit string, leading zeros included, as its decimal value. */
  lemma ParseIntDigits(s: string)
    requires |s| > 0 && AllDigits(s)
    ensures ParseInt(s) == Some(DigitsValue(s))
  {
    DigitsAreNumeral(s);
    ParseIntNumeral(s);
  }

  /** A non-empty digit string is a numeral whose value is that of its digits. */
  lemma DigitsAreNumeral(s: string)
    requires |s| > 0 && AllDigits(s)
    ensures IsNumeral(s) && NumeralValue(s) == DigitsValue(s)
  {
  }

  /** `int(f"{-n}") == -n`: the sign is read, then the digits. */
  lemma ParseIntNegative(n: nat)
    ensures ParseInt("-" + NatToString(n)) == Some(-(n as int))
  {
    NatToStringNumeral(n);
    ParseIntMinus(NatToString(n));
  }

  /** `f"{n}"` is a numeral whose value is `n`. */
  lemma NatToStringNumeral(n: nat)
    ensures IsNumeral(NatToString(n)) && NumeralValue(NatToString(n)) == n
  {
    DigitsAreNumeral(NatToString(n));
  }

  /** `int()` refuses a numeral led by the ASCII file separator 0x1C. */
  lemma ParseIntKeepsFileSeparator()
    ensures ParseInt("\U{1C}2024").None?
  {
    var s := "\U{1C}2024";
    assert TrimEnd(TrimStart(s)) == s;
  }

  /** `int("-" + u)` for an unsigned numeral `u` is minus the value of `u`. */
  lemma ParseIntMinus(u: string)
    requires IsNumeral(u)
    ensures ParseInt("-" + u) == Some(-(NumeralValue(u) as int))
  {
    var s := "-" + u;
    assert s[0] == '-' && s[|s| - 1] == u[|u| - 1] && s[1..] == u;
    TrimUnspaced(s);
  }

  /** Stripping whitespace leaves a string that neither starts nor ends with a space unchanged. */
  lemma TrimUnspaced(s: string)
    requires |s| > 0 && !IsSpace(s[0]) && !IsSpace(s[|s| - 1])
    ensures TrimEnd(TrimStart(s)) == s
  {
  }

  /** `int()` reads an unsigned numeral without surrounding space as its value. */
  lemma ParseIntNumeral(s: string)
    requires IsNumeral(s)
    ensures ParseInt(s) == Some(NumeralValue(s))
  {
    TrimUnspaced(s);
  }

  /** Two digit groups joined by one underscore form a numeral. */
  lemma GroupedIsNumeral(a: string, b: string)
    requires |a| > 0 && |b| > 0 && AllDigits(a) && AllDigits(b)
    ensures IsNumeral(a + "_" + b)
  {
    var s := a + "_" + b;
    forall i | 0 <= i < |s|
      ensures IsDigit(s[i]) || s[i] == '_'
      ensures s[i] == '_' ==> i == |a|
    {
      if i < |a| {
        assert s[i] == a[i];
      } else if i > |a| {
        assert s[i] == b[i - |a| - 1];
      }
    }
  }

  /**
   * `int()` reads two digit groups joined by an underscore as the number their
   * digits spell, as in `int("2_024") == 2024`.
   */
  lemma ParseIntGrouped(a: string, b: string)
    requires |a| > 0 && |b| > 0 && AllDigits(a) && AllDigits(b)
    ensures ParseInt(a + "_" + b) == Some(DigitsValue(a + b))
  {
    GroupedIsNumeral(a, b);
    ParseIntNumeral(a + "_" + b);
    DropGroupSeparator(a, b);
  }

  /** Dropping the underscore between two digit groups leaves their digits in order. */
  lemma DropGroupSeparator(a: string, b: string)
    requires AllDigits(a) && AllDigits(b)
    ensures DropUnderscores(a + "_" + b) == a + b
  {
    var sep: string := "_";
    assert sep[1..] == [];
    assert DropUnderscores(sep) == [];
    DropUnderscoresConcat(a, sep);
    var da := DropUnderscores(a + sep);
    assert da == a;
    DropUnderscoresConcat(a + sep, b);
  }

  /** `int(f"{n:02d}") == n`. */
  lemma ParseIntPad2(n: nat)
    ensures ParseInt(Pad2(n)) == Some(n)
  {
    ParseIntDigits(Pad2(n));
  }
}
