/**
 * The two text conversions the core performs: `datetime.strptime(s, "%H:%M")` for the
 * template's start and end times, and `int(s)` for the provider id chosen in the UI.
 * Both fail with a `ValueError` in the source, modelled here as `None`.
 */
module Parsing {
  import opened Wrappers

  predicate IsDigit(c: char)
  {
    '0' <= c <= '9'
  }

  function DigitValue(c: char): (v: int)
    requires IsDigit(c)
    ensures 0 <= v <= 9
  {
    c as int - '0' as int
  }

  function DigitChar(v: int): (c: char)
    requires 0 <= v <= 9
    ensures IsDigit(c) && DigitValue(c) == v
  {
    ('0' as int + v) as char
  }

  predicate AllDigits(s: string)
  {
    forall i :: 0 <= i < |s| ==> IsDigit(s[i])
  }

  /** The decimal value of the digits of `s`, ignoring the `_` separators Python's `int` admits. */
  function DecimalValue(s: string): (v: nat)
    requires forall i :: 0 <= i < |s| ==> IsDigit(s[i]) || s[i] == '_'
  {
    if s == [] then 0
    else if s[|s| - 1] == '_' then DecimalValue(s[..|s| - 1])
    else 10 * DecimalValue(s[..|s| - 1]) + DigitValue(s[|s| - 1])
  }

  // ---------------------------------------------------------------------------
  // strptime(s, "%H:%M")

  /**
   * One field of `%H` or `%M`: one or two ASCII digits whose value is at most `max`.
   * `ClockHourField` and `ClockMinuteField` show that these are exactly the strings of the
   * regular expressions `strptime` uses for the two directives.
   */
  function ClockField(s: string, max: int): (r: Option<int>)
    ensures r.Some? ==> 0 <= r.value <= max
    ensures r.Some? <==> 1 <= |s| <= 2 && AllDigits(s) && DecimalValue(s) <= max
  {
    if 1 <= |s| <= 2 && AllDigits(s) && DecimalValue(s) <= max then Some(DecimalValue(s)) else None
  }

  /** `strptime`'s regular expression for `%H`: `2[0-3]|[0-1]\d|\d`. */
  predicate HourPattern(s: string)
  {
    || (|s| == 2 && s[0] == '2' && '0' <= s[1] <= '3')
    || (|s| == 2 && '0' <= s[0] <= '1' && IsDigit(s[1]))
    || (|s| == 1 && IsDigit(s[0]))
  }

  /** `strptime`'s regular expression for `%M`: `[0-5]\d|\d`. */
  predicate MinutePattern(s: string)
  {
    || (|s| == 2 && '0' <= s[0] <= '5' && IsDigit(s[1]))
    || (|s| == 1 && IsDigit(s[0]))
  }

  /** The value of one or two matched digits. */
  function FieldDigits(s: string): (v: int)
    requires 1 <= |s| <= 2 && AllDigits(s)
  {
    if |s| == 1 then DigitValue(s[0]) else 10 * DigitValue(s[0]) + DigitValue(s[1])
  }

  /** An hour field is accepted exactly when it matches `%H`, and its value is the digits read. */
  lemma ClockHourField(s: string)
    ensures ClockField(s, 23).Some? <==> HourPattern(s)
    ensures ClockField(s, 23).Some? ==> ClockField(s, 23).value == FieldDigits(s)
  {
    FieldValue(s);
  }

  /** A minute field is accepted exactly when it matches `%M`, and its value is the digits read. */
  lemma ClockMinuteField(s: string)
    ensures ClockField(s, 59).Some? <==> MinutePattern(s)
    ensures ClockField(s, 59).Some? ==> ClockField(s, 59).value == FieldDigits(s)
  {
    FieldValue(s);
  }

  /** For one or two digits the decimal value is the digits read. */
  lemma FieldValue(s: string)
    ensures 1 <= |s| <= 2 && AllDigits(s) ==> DecimalValue(s) == FieldDigits(s)
  {
    if 1 <= |s| <= 2 && AllDigits(s) {
      if |s| == 1 {
        assert s[..0] == [];
      } else {
        assert s[..1][..0] == [];
      }
    }
  }

  /**
   * `datetime.strptime(s, "%H:%M").time()`, as minutes since midnight. The whole string must be
   * matched ("unconverted data remains" otherwise), so it is an hour field, a colon and a minute field.
   */
  function ParseClock(s: string): (r: Option<int>)
    ensures r.Some? ==> 0 <= r.value < 24 * 60
  {
    var colon := if 2 <= |s| && s[1] == ':' then 1 else if 3 <= |s| && s[2] == ':' then 2 else 0;
    if colon == 0 then None
    else
      match (ClockField(s[..colon], 23), ClockField(s[colon + 1..], 59))
      case (Some(h), Some(m)) => Some(60 * h + m)
      case _ => None
  }

  /** Two zero-padded digits, as `%02d` and as the template's `"09:00"`. */
  function TwoDigits(v: int): (s: string)
    requires 0 <= v < 100
    ensures |s| == 2 && AllDigits(s) && DecimalValue(s) == v
  {
    var s := [DigitChar(v / 10), DigitChar(v % 10)];
    assert s[..1] == [DigitChar(v / 10)];
    assert [DigitChar(v / 10)][..0] == [];
    assert DecimalValue(s[..1]) == v / 10;
    assert v == 10 * (v / 10) + v % 10;
    s
  }

  /** `time.strftime("%H:%M")` for minutes since midnight. */
  function FormatClock(minutes: int): (s: string)
    requires 0 <= minutes < 24 * 60
    ensures |s| == 5 && s[2] == ':'
  {
    TwoDigits(minutes / 60) + ":" + TwoDigits(minutes % 60)
  }

  /** Every time of day written as `HH:MM` parses back to itself. */
  lemma ParseFormatClock(minutes: int)
    requires 0 <= minutes < 24 * 60
    ensures ParseClock(FormatClock(minutes)) == Some(minutes)
  {
    var s := FormatClock(minutes);
    assert s[..2] == TwoDigits(minutes / 60);
    assert s[3..] == TwoDigits(minutes % 60);
  }

  /** Two-digit and one-digit fields are accepted. */
  lemma ParseClockAcceptsExamples()
    ensures ParseClock("09:00") == Some(540)
    ensures ParseClock("17:00") == Some(1020)
    ensures ParseClock("9:5") == Some(545)
  {
    assert "09:00"[..2] == "09" && "09:00"[3..] == "00";
    assert DecimalValue("09") == 9 by { assert "09"[..1] == "0"; }
    assert DecimalValue("00") == 0 by { assert "00"[..1] == "0"; }
    assert "17:00"[..2] == "17" && "17:00"[3..] == "00";
    assert DecimalValue("17") == 17 by { assert "17"[..1] == "1"; }
    assert "9:5"[..1] == "9" && "9:5"[2..] == "5";
    assert DecimalValue("9") == 9 by { assert "9"[..0] == ""; }
    assert DecimalValue("5") == 5 by { assert "5"[..0] == ""; }
  }

  /** An hour of 24, a minute of 60, seconds and the empty string are refused. */
  lemma ParseClockRejectsExamples()
    ensures ParseClock("24:00") == None
    ensures ParseClock("12:60") == None
    ensures ParseClock("09:00:00") == None
    ensures ParseClock("") == None
  {
    assert "24:00"[..2] == "24";
    assert DecimalValue("24") == 24 by { assert "24"[..1] == "2"; }
    assert "12:60"[3..] == "60";
    assert DecimalValue("60") == 60 by { assert "60"[..1] == "6"; }
    assert "09:00:00"[3..] == "00:00";
  }

  // ---------------------------------------------------------------------------
  // int(s)

  /**
   * The whitespace `int()` drops around the digits: the ASCII blanks `\t`, `\n`, `\v`, `\f`,
   * `\r` and space, and the non-ASCII characters `str.isspace` admits. The ASCII separators
   * `\x1c` to `\x1f`, which `isspace` also admits, are not dropped.
   */
  predicate IsSpace(c: char)
  {
    || '\t' <= c <= '\r'
    || c == ' '
    || c == '\U{85}' || c == '\U{A0}' || c == '\U{1680}'
    || '\U{2000}' <= c <= '\U{200A}'
    || c == '\U{2028}' || c == '\U{2029}' || c == '\U{202F}' || c == '\U{205F}' || c == '\U{3000}'
  }

  /** The stripping `int(s)` performs before reading the sign and the digits. */
  function Strip(s: string): (r: string)
    ensures |r| <= |s|
    ensures r != [] ==> !IsSpace(r[0]) && !IsSpace(r[|r| - 1])
    decreases |s|
  {
    if s == [] then []
    else if IsSpace(s[0]) then Strip(s[1..])
    else if IsSpace(s[|s| - 1]) then Strip(s[..|s| - 1])
    else s
  }

  /** The digits of a Python integer literal: digits, single `_` only between two digits. */
  predicate DigitGroups(s: string)
  {
    && s != []
    && (forall i :: 0 <= i < |s| ==> IsDigit(s[i]) || s[i] == '_')
    && IsDigit(s[0]) && IsDigit(s[|s| - 1])
    && (forall i :: 0 <= i < |s| - 1 ==> !(s[i] == '_' && s[i + 1] == '_'))
  }

  /** `int(s)` for a `str` in base 10. */
  function ParseInt(s: string): (r: Option<int>)
    ensures r.Some? ==> Strip(s) != []
  {
    var t := Strip(s);
    var negative := t != [] && t[0] == '-';
    var body := if t != [] && (t[0] == '-' || t[0] == '+') then t[1..] else t;
    if DigitGroups(body) then
      var magnitude: int := DecimalValue(body);
      Some(if negative then -magnitude else magnitude)
    else None
  }

  /** The decimal digits of a natural number, without leading zeros: `str(n)`. */
  function NatDigits(n: nat): (s: string)
    ensures s != [] && AllDigits(s) && DecimalValue(s) == n
    ensures |s| > 1 ==> s[0] != '0'
  {
    if n < 10 then
      var s := [DigitChar(n)];
      assert s[..|s| - 1] == [];
      s
    else
      var s := NatDigits(n / 10) + [DigitChar(n % 10)];
      assert s[..|s| - 1] == NatDigits(n / 10);
      s
  }

  /** `str(n)` for an integer. */
  function IntToString(n: int): (s: string)
  {
    if n < 0 then "-" + NatDigits(-n) else NatDigits(n)
  }

  lemma StripUnspaced(s: string)
    requires s != [] && !IsSpace(s[0]) && !IsSpace(s[|s| - 1])
    ensures Strip(s) == s
  {
  }

  /** Every integer printed by `str` is read back by `int`. */
  lemma ParseIntToString(n: int)
    ensures ParseInt(IntToString(n)) == Some(n)
  {
    var s := IntToString(n);
    var digits := NatDigits(if n < 0 then -n else n);
    StripUnspaced(s);
    if n < 0 {
      assert s[1..] == digits;
    }
  }

  /** Surrounding blanks and a sign are admitted. */
  lemma ParseIntAcceptsExamples()
    ensures ParseInt(" 12 ") == Some(12)
    ensures ParseInt("-3") == Some(-3)
  {
    assert Strip(" 12 ") == "12" by {
      assert " 12 "[1..] == "12 ";
      assert "12 "[..2] == "12";
    }
    assert DecimalValue("12") == 12 by { assert "12"[..1] == "1"; }
    assert "-3"[1..] == "3";
    assert DecimalValue("3") == 3 by { assert "3"[..0] == ""; }
  }

  /** A non-ASCII blank is dropped around the digits, an ASCII separator such as `\x1c` is not. */
  lemma ParseIntSpaces()
    ensures ParseInt("\U{A0}5") == Some(5)
    ensures ParseInt("\U{1C}5") == None
  {
    assert Strip("\U{A0}5") == "5" by { assert "\U{A0}5"[1..] == "5"; }
    assert DecimalValue("5") == 5 by { assert "5"[..0] == ""; }
  }

  /** Digit separators are admitted singly, between digits. */
  lemma ParseIntSeparators()
    ensures ParseInt("1_0") == Some(10)
    ensures ParseInt("1__0") == None
  {
    assert DecimalValue("1_0") == 10 by {
      assert "1_0"[..2] == "1_";
      assert "1_"[..1] == "1";
      assert "1"[..0] == "";
    }
    assert !DigitGroups("1__0") by { assert "1__0"[1] == '_' && "1__0"[2] == '_'; }
  }

  /** An empty string and letters are a `ValueError`. */
  lemma ParseIntRejectsExamples()
    ensures ParseInt("") == None
    ensures ParseInt("abc") == None
  {
    assert !IsDigit('a');
  }
}
