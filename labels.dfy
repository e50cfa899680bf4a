/**
 * The log label `MM/DD HH:MM, <count>` that both detector variants build from
 * the wall clock and the number of detected objects, and its inverse.
 *
 * The clock is a parameter (a `Stamp`) instead of a call to the system time.
 */
module Labels {
  import opened Wrappers

  /** A wall-clock reading truncated to the minute. */
  datatype Stamp = Stamp(month: nat, day: nat, hour: nat, minute: nat)

  /** The ranges the system clock produces. */
  predicate ValidStamp(t: Stamp) {
    1 <= t.month <= 12 && 1 <= t.day <= 31 && t.hour <= 23 && t.minute <= 59
  }

  predicate IsDigit(c: char) {
    '0' <= c <= '9'
  }

  predicate AllDigits(s: string) {
    forall i :: 0 <= i < |s| ==> IsDigit(s[i])
  }

  function DigitValue(c: char): nat
    requires IsDigit(c)
  {
    c as int - '0' as int
  }

  function DigitChar(d: nat): (c: char)
    requires d < 10
    ensures IsDigit(c) && DigitValue(c) == d
  {
    ('0' as int + d) as char
  }

  /** Python's `str` of a non-negative integer: the shortest decimal numeral. */
  function Decimal(n: nat): (r: string)
    ensures 1 <= |r| && AllDigits(r)
    ensures r[0] == '0' <==> n == 0
    ensures |r| == 1 <==> n < 10
    ensures 10 <= n < 100 ==> |r| == 2
    decreases n
  {
    if n < 10 then [DigitChar(n)] else Decimal(n / 10) + [DigitChar(n % 10)]
  }

  /** The value of a numeral, read left to right. */
  function ParseDecimal(s: string): nat
    requires AllDigits(s)
    decreases |s|
  {
    if s == [] then 0 else ParseDecimal(s[..|s| - 1]) * 10 + DigitValue(s[|s| - 1])
  }

  lemma {:induction false} DecimalRoundTrip(n: nat)
    ensures ParseDecimal(Decimal(n)) == n
    decreases n
  {
    if n >= 10 {
      var s := Decimal(n);
      assert s[..|s| - 1] == Decimal(n / 10);
      DecimalRoundTrip(n / 10);
    }
  }

  /**
   * One field of the label: a `0` in front of values below ten, then the value
   * in decimal. For the ranges of a clock this is exactly two digits.
   */
  function Pad2(n: nat): (r: string)
    ensures 2 <= |r| && AllDigits(r)
    ensures n < 100 ==> |r| == 2 && ParseDecimal(r) == n
    ensures n < 100 ==> (r[0] == '0' <==> n < 10)
  {
    if n < 10 then
      assert ParseDecimal("0") == 0;
      "0" + Decimal(n)
    else
      DecimalRoundTrip(n);
      Decimal(n)
  }

  /** The record `MM/DD HH:MM, <count>` for a clock reading and an object count. */
  function Label(t: Stamp, count: nat): (r: string)
    ensures 14 <= |r|
    ensures '\n' !in r
  {
    DigitsHaveNoNewline(Pad2(t.month));
    DigitsHaveNoNewline(Pad2(t.day));
    DigitsHaveNoNewline(Pad2(t.hour));
    DigitsHaveNoNewline(Pad2(t.minute));
    DigitsHaveNoNewline(Decimal(count));
    Pad2(t.month) + "/" + Pad2(t.day) + " " + Pad2(t.hour) + ":" + Pad2(t.minute) + ", " + Decimal(count)
  }

  lemma DigitsHaveNoNewline(s: string)
    requires AllDigits(s)
    ensures '\n' !in s
  {
    forall i | 0 <= i < |s| ensures s[i] != '\n' {
      assert IsDigit(s[i]);
    }
  }

  /** The fields a well-formed label carries. */
  datatype LabelFields = LabelFields(at: Stamp, count: nat)

  /** Reads a label back into its fields; the inverse of `Label`. */
  function ParseLabel(s: string): Option<LabelFields> {
    if 14 <= |s| && AllDigits(s[0..2]) && s[2] == '/' && AllDigits(s[3..5]) && s[5] == ' '
       && AllDigits(s[6..8]) && s[8] == ':' && AllDigits(s[9..11]) && s[11..13] == ", "
       && AllDigits(s[13..])
    then
      var at := Stamp(ParseDecimal(s[0..2]), ParseDecimal(s[3..5]),
                      ParseDecimal(s[6..8]), ParseDecimal(s[9..11]));
      Some(LabelFields(at, ParseDecimal(s[13..])))
    else
      None
  }

  /** Slicing the `MM/DD HH:MM, ` layout of four two-character fields and a tail. */
  lemma FieldsAt(m: string, d: string, h: string, mi: string, tail: string)
    requires |m| == |d| == |h| == |mi| == 2
    ensures var s := m + "/" + d + " " + h + ":" + mi + ", " + tail;
            && s[0..2] == m && s[2] == '/' && s[3..5] == d && s[5] == ' '
            && s[6..8] == h && s[8] == ':' && s[9..11] == mi && s[11..13] == ", "
            && s[13..] == tail
  {
    var head := m + "/" + d + " " + h + ":" + mi + ", ";
    assert m + "/" + d + " " + h + ":" + mi + ", " + tail == head + tail;
    assert head[0..2] == m && head[3..5] == d && head[6..8] == h && head[9..11] == mi;
  }

  /**
   * Where the fields of a label sit: two-digit month, day, hour and minute at
   * fixed positions, the separators between them, then the count as `str`
   * writes it.
   */
  lemma LabelLayout(t: Stamp, count: nat)
    requires ValidStamp(t)
    ensures var s := Label(t, count);
            && s[0..2] == Pad2(t.month) && s[2] == '/'
            && s[3..5] == Pad2(t.day) && s[5] == ' '
            && s[6..8] == Pad2(t.hour) && s[8] == ':'
            && s[9..11] == Pad2(t.minute) && s[11..13] == ", "
            && s[13..] == Decimal(count)
  {
    FieldsAt(Pad2(t.month), Pad2(t.day), Pad2(t.hour), Pad2(t.minute), Decimal(count));
  }

  /** Every label can be read back exactly, count included. */
  lemma LabelRoundTrip(t: Stamp, count: nat)
    requires ValidStamp(t)
    ensures ParseLabel(Label(t, count)) == Some(LabelFields(t, count))
    ensures Label(t, count)[13..] == Decimal(count)
  {
    LabelLayout(t, count);
    DecimalRoundTrip(count);
  }

  /** Two labels are equal exactly when their clock readings and counts are. */
  lemma LabelInjective(t1: Stamp, c1: nat, t2: Stamp, c2: nat)
    requires ValidStamp(t1) && ValidStamp(t2)
    ensures Label(t1, c1) == Label(t2, c2) <==> t1 == t2 && c1 == c2
  {
    LabelRoundTrip(t1, c1);
    LabelRoundTrip(t2, c2);
  }
}
