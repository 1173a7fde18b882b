/**
 * `formatTime` of `src/lib/utils.ts`: a time in seconds rendered as
 * `MM:SS:mmm` (or `MM:SS` without milliseconds), each field zero-padded.
 *
 * Times are exact reals. The JavaScript operators are written out:
 * `Math.floor` is `Floor`, `%` is the remainder truncated towards zero,
 * `Number.prototype.toString` on a whole number is its decimal digits with a
 * leading `-` when negative, and `padStart(w, '0')` prepends zeros up to
 * width `w` and never shortens.
 */
module FormatTime {
  import opened Wrappers

  /** The three numeric fields computed by `formatTime`. */
  datatype ClockFields = ClockFields(minutes: int, seconds: int, millis: int)

  /** Truncation towards zero. */
  function Trunc(x: real): int {
    if x >= 0.0 then x.Floor else -((-x).Floor)
  }

  /** JavaScript `a % b`: the remainder takes the sign of `a`. */
  function JsRem(a: real, b: real): real
    requires b != 0.0
  {
    a - b * Trunc(a / b) as real
  }

  function Fields(t: real): ClockFields {
    ClockFields((t / 60.0).Floor, JsRem(t, 60.0).Floor, (JsRem(t, 1.0) * 1000.0).Floor)
  }

  function DigitChar(d: nat): char
    requires d < 10
  {
    (d + 48) as char
  }

  predicate IsDigit(c: char) {
    48 <= c as int <= 57
  }

  /** Every character of `s` is a decimal digit. */
  predicate DigitString(s: string) {
    forall i :: 0 <= i < |s| ==> IsDigit(s[i])
  }

  /** The decimal digits of `n`, without leading zeros. */
  function NatToString(n: nat): (s: string)
    ensures |s| >= 1 && DigitString(s)
    ensures s[0] == '0' <==> n == 0
  {
    if n < 10 then [DigitChar(n)] else NatToString(n / 10) + [DigitChar(n % 10)]
  }

  /** `n.toString()` for a whole number `n`: a `-` before the digits of a negative number. */
  function IntToString(n: int): (s: string)
    ensures n >= 0 ==> DigitString(s) && DigitsValue(s) == n
    ensures n < 0 ==> |s| >= 2 && s[0] == '-' && DigitString(s[1..]) && DigitsValue(s[1..]) == -n
  {
    if n < 0 then
      DigitsValueOfNatToString(-n);
      assert ("-" + NatToString(-n))[1..] == NatToString(-n);
      "-" + NatToString(-n)
    else
      DigitsValueOfNatToString(n);
      NatToString(n)
  }

  function Zeros(k: nat): (z: string)
    ensures |z| == k && forall i :: 0 <= i < k ==> z[i] == '0'
  {
    if k == 0 then [] else Zeros(k - 1) + ['0']
  }

  /** `s.padStart(width, '0')`. */
  function PadStart(s: string, width: nat): (r: string)
    ensures |r| == if |s| < width then width else |s|
    ensures r[|r| - |s|..] == s
    ensures forall i :: 0 <= i < |r| - |s| ==> r[i] == '0'
  {
    if |s| < width then Zeros(width - |s|) + s else s
  }

  function FormatTime(time: Option<real>, excludeMillis: bool): (r: string)
    ensures time.None? && excludeMillis ==> r == "--:--"
    ensures time.None? && !excludeMillis ==> r == "--:--:---"
  {
    match time
    case None => if excludeMillis then "--:--" else "--:--:---"
    case Some(t) =>
      var f := Fields(t);
      var res := PadStart(IntToString(f.minutes), 2) + ":" + PadStart(IntToString(f.seconds), 2);
      if excludeMillis then res else res + ":" + PadStart(IntToString(f.millis), 3)
  }

  // ----- Reading a formatted time back -----

  /** The value of a string of decimal digits (leading zeros allowed). */
  function DigitsValue(s: string): nat
    requires DigitString(s)
  {
    if s == [] then 0 else DigitsValue(s[..|s| - 1]) * 10 + (s[|s| - 1] as int - 48)
  }

  /** The pieces of `s` between the occurrences of `sep`. */
  function Split(s: string, sep: char): (parts: seq<string>)
    ensures |parts| >= 1
  {
    if s == [] then [[]]
    else
      var rest := Split(s[1..], sep);
      if s[0] == sep then [[]] + rest else [[s[0]] + rest[0]] + rest[1..]
  }

  predicate AllDigits(parts: seq<string>) {
    forall k :: 0 <= k < |parts| ==> DigitString(parts[k])
  }

  /** Reads `MM:SS` or `MM:SS:mmm` back into its fields (milliseconds 0 when absent). */
  function ParseClock(s: string): Option<ClockFields> {
    var parts := Split(s, ':');
    if (|parts| == 2 || |parts| == 3) && AllDigits(parts) then
      Some(ClockFields(DigitsValue(parts[0]), DigitsValue(parts[1]),
                       if |parts| == 3 then DigitsValue(parts[2]) else 0))
    else None
  }

  // ----- Properties -----

  /**
   * For a non-negative time the fields are in range: whole minutes, seconds
   * 0..59 and milliseconds 0..999, the latter the whole thousandths of the
   * fractional part.
   */
  lemma FieldsInRange(t: real)
    requires t >= 0.0
    ensures Fields(t).minutes == (t / 60.0).Floor >= 0
    ensures 0 <= Fields(t).seconds <= 59
    ensures 0 <= Fields(t).millis <= 999
    ensures Fields(t).minutes * 60 + Fields(t).seconds == t.Floor
    ensures Fields(t).millis == ((t - t.Floor as real) * 1000.0).Floor
  {
    var m := (t / 60.0).Floor;
    assert Trunc(t / 60.0) == m;
    var rem := JsRem(t, 60.0);
    assert rem == t - 60.0 * m as real;
    assert 0.0 <= rem < 60.0;
    assert Trunc(t / 1.0) == t.Floor;
    var frac := JsRem(t, 1.0);
    assert 0.0 <= frac < 1.0;
    assert 0.0 <= frac * 1000.0 < 1000.0;
    assert (m * 60) as real <= t < (m * 60) as real + 60.0;
    assert rem.Floor == t.Floor - m * 60;
  }

  lemma {:induction false} DigitsValueOfNatToString(n: nat)
    ensures DigitsValue(NatToString(n)) == n
  {
    if n >= 10 {
      var s := NatToString(n);
      assert s[..|s| - 1] == NatToString(n / 10);
      DigitsValueOfNatToString(n / 10);
    }
  }

  lemma {:induction false} DigitsValueLeadingZero(s: string)
    requires DigitString(s)
    ensures DigitsValue(['0'] + s) == DigitsValue(s)
  {
    if s != [] {
      var z := ['0'] + s;
      assert z[..|z| - 1] == ['0'] + s[..|s| - 1];
      DigitsValueLeadingZero(s[..|s| - 1]);
    }
  }

  lemma {:induction false} DigitsValueOfPadded(s: string, width: nat)
    requires DigitString(s)
    ensures DigitString(PadStart(s, width))
    ensures DigitsValue(PadStart(s, width)) == DigitsValue(s)
    decreases width - |s|
  {
    if |s| < width {
      DigitsValueLeadingZero(s);
      assert ['0'] + s == PadStart(s, |s| + 1);
      if |s| + 1 < width {
        DigitsValueOfPadded(['0'] + s, width);
        assert PadStart(['0'] + s, width) == PadStart(s, width);
      }
    }
  }

  lemma {:induction false} SplitNoSep(a: string, sep: char)
    requires sep !in a
    ensures Split(a, sep) == [a]
  {
    if a != [] {
      assert a[0] != sep;
      SplitNoSep(a[1..], sep);
      assert [a[0]] + a[1..] == a;
    }
  }

  lemma {:induction false} SplitAppend(a: string, sep: char, b: string)
    requires sep !in a
    ensures Split(a + [sep] + b, sep) == [a] + Split(b, sep)
  {
    if a == [] {
      assert a + [sep] + b == [sep] + b;
      assert ([sep] + b)[1..] == b;
    } else {
      assert (a + [sep] + b)[1..] == a[1..] + [sep] + b;
      SplitAppend(a[1..], sep, b);
      assert [a[0]] + a[1..] == a;
    }
  }

  /** A non-negative field as `formatTime` prints it. */
  function Field(n: nat, width: nat): string {
    PadStart(NatToString(n), width)
  }

  /** A zero-padded non-negative field: digits only, at least `width` long, reads back as the number. */
  lemma PaddedField(n: nat, width: nat)
    ensures DigitString(Field(n, width)) && ':' !in Field(n, width)
    ensures |Field(n, width)| >= width
    ensures DigitsValue(Field(n, width)) == n
  {
    DigitsValueOfNatToString(n);
    DigitsValueOfPadded(NatToString(n), width);
  }

  /** For a non-negative time, `formatTime` is the padded fields joined by `:`. */
  lemma FormatTimeFields(t: real, excludeMillis: bool)
    requires t >= 0.0
    ensures 0 <= Fields(t).minutes && 0 <= Fields(t).seconds && 0 <= Fields(t).millis
    ensures FormatTime(Some(t), excludeMillis)
         == if excludeMillis then Field(Fields(t).minutes, 2) + [':'] + Field(Fields(t).seconds, 2)
            else Field(Fields(t).minutes, 2) + [':'] + (Field(Fields(t).seconds, 2) + [':'] + Field(Fields(t).millis, 3))
  {
    FieldsInRange(t);
    var f := Fields(t);
    var mm, ss, ms := Field(f.minutes, 2), Field(f.seconds, 2), Field(f.millis, 3);
    PrintedField(f.minutes, 2);
    PrintedField(f.seconds, 2);
    PrintedField(f.millis, 3);
    assert mm + ":" + ss == mm + [':'] + ss;
    assert mm + ":" + ss + ":" + ms == mm + [':'] + (ss + [':'] + ms);
  }

  /** A non-negative field printed with `toString` and `padStart` is `Field`. */
  lemma PrintedField(n: int, width: nat)
    requires n >= 0
    ensures PadStart(IntToString(n), width) == Field(n, width)
  {
  }

  lemma ParseTwoFields(a: string, b: string)
    requires DigitString(a) && DigitString(b) && ':' !in a && ':' !in b
    ensures ParseClock(a + [':'] + b) == Some(ClockFields(DigitsValue(a), DigitsValue(b), 0))
    ensures |Split(a + [':'] + b, ':')| == 2
  {
    SplitNoSep(b, ':');
    SplitAppend(a, ':', b);
    var parts := Split(a + [':'] + b, ':');
    assert parts == [a, b];
    assert AllDigits(parts) by {
      forall k | 0 <= k < 2 ensures DigitString(parts[k]) {
        assert parts[k] == if k == 0 then a else b;
      }
    }
  }

  lemma ParseThreeFields(a: string, b: string, c: string)
    requires DigitString(a) && DigitString(b) && DigitString(c)
    requires ':' !in a && ':' !in b && ':' !in c
    ensures ParseClock(a + [':'] + (b + [':'] + c)) == Some(ClockFields(DigitsValue(a), DigitsValue(b), DigitsValue(c)))
    ensures |Split(a + [':'] + (b + [':'] + c), ':')| == 3
  {
    SplitNoSep(c, ':');
    SplitAppend(b, ':', c);
    SplitAppend(a, ':', b + [':'] + c);
    var parts := Split(a + [':'] + (b + [':'] + c), ':');
    assert parts == [a, b, c];
    assert AllDigits(parts) by {
      forall k | 0 <= k < 3 ensures DigitString(parts[k]) {
        assert parts[k] == if k == 0 then a else if k == 1 then b else c;
      }
    }
  }

  /**
   * For a non-negative time, the formatted text reads back as exactly the
   * fields `formatTime` computed: two `:`-separated fields with `excludeMillis`,
   * three without, each of them zero-padded and never truncated.
   */
  lemma FormatTimeRoundTrip(t: real, excludeMillis: bool)
    requires t >= 0.0
    ensures ParseClock(FormatTime(Some(t), excludeMillis))
         == Some(if excludeMillis then Fields(t).(millis := 0) else Fields(t))
    ensures |Split(FormatTime(Some(t), excludeMillis), ':')| == if excludeMillis then 2 else 3
  {
    FormatTimeFields(t, excludeMillis);
    var f := Fields(t);
    PaddedField(f.minutes, 2);
    PaddedField(f.seconds, 2);
    PaddedField(f.millis, 3);
    if excludeMillis {
      ParseTwoFields(Field(f.minutes, 2), Field(f.seconds, 2));
    } else {
      ParseThreeFields(Field(f.minutes, 2), Field(f.seconds, 2), Field(f.millis, 3));
    }
  }

  /** At least three digits for a number of 100 or more. */
  lemma {:induction false} NatToStringLength(n: nat)
    requires n >= 100
    ensures |NatToString(n)| >= 3
  {
    assert NatToString(n) == NatToString(n / 10) + [DigitChar(n % 10)];
    assert NatToString(n / 10) == NatToString(n / 100) + [DigitChar(n / 10 % 10)];
  }

  /** Padding never truncates: a time of 100 minutes or more prints at least three minute digits. */
  lemma LongMinutesKeepAllDigits(t: real, excludeMillis: bool)
    requires t >= 6000.0
    ensures |Split(FormatTime(Some(t), excludeMillis), ':')[0]| >= 3
  {
    FormatTimeFields(t, excludeMillis);
    var f := Fields(t);
    assert f.minutes >= 100;
    PaddedField(f.minutes, 2);
    PaddedField(f.seconds, 2);
    PaddedField(f.millis, 3);
    NatToStringLength(f.minutes);
    var mm := Field(f.minutes, 2);
    if excludeMillis {
      ParseTwoFields(mm, Field(f.seconds, 2));
      SplitAppend(mm, ':', Field(f.seconds, 2));
    } else {
      var rest := Field(f.seconds, 2) + [':'] + Field(f.millis, 3);
      SplitAppend(mm, ':', rest);
    }
  }
}
