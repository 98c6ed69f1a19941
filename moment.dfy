/**
 * The fixed instant pattern `yyyy-MM-dd'T'HH:mm:ss.SSS'Z'` that the calendar
 * module shares with moment.js (ICalHandler.MOMENT_FORMAT).
 *
 * An instant is a naive record of calendar fields; the trailing `Z` is a
 * literal and no time zone conversion happens in either direction.
 */
module Moment {
  import opened Optional

  /** Calendar fields of an instant, read without any time zone. */
  datatype Timestamp = Timestamp(
    year: int, month: int, day: int,
    hour: int, minute: int, second: int, millis: int)
  {
    /** Every field lies in its range and the day exists in its month. */
    predicate Valid() {
      && 1 <= year <= 9999
      && 1 <= month <= 12
      && 1 <= day <= DaysInMonth(year, month)
      && 0 <= hour < 24
      && 0 <= minute < 60
      && 0 <= second < 60
      && 0 <= millis < 1000
    }
  }

  /** A timestamp whose fields are all in range. */
  type Instant = t: Timestamp | t.Valid() witness Timestamp(1970, 1, 1, 0, 0, 0, 0)

  predicate IsLeapYear(y: int) {
    y % 4 == 0 && (y % 100 != 0 || y % 400 == 0)
  }

  function DaysInMonth(y: int, m: int): (n: int)
    ensures 28 <= n <= 31
  {
    if m == 2 then (if IsLeapYear(y) then 29 else 28)
    else if m == 4 || m == 6 || m == 9 || m == 11 then 30
    else 31
  }

  // ---------------------------------------------------------------------------
  // Fixed-width decimal fields

  function Pow10(n: nat): (r: nat)
    ensures r >= 1
  {
    if n == 0 then 1 else 10 * Pow10(n - 1)
  }

  predicate IsDigit(c: char) {
    '0' <= c <= '9'
  }

  predicate AllDigits(s: string) {
    forall i :: 0 <= i < |s| ==> IsDigit(s[i])
  }

  function DigitChar(d: nat): (c: char)
    requires d < 10
    ensures IsDigit(c)
  {
    ('0' as int + d) as char
  }

  function DigitValue(c: char): (d: nat)
    requires IsDigit(c)
    ensures d < 10 && DigitChar(d) == c
  {
    c as int - '0' as int
  }

  /** `n` written in exactly `width` decimal digits, padded with zeros on the left. */
  function Pad(n: nat, width: nat): (s: string)
    requires n < Pow10(width)
    ensures |s| == width && AllDigits(s)
  {
    if width == 0 then []
    else Pad(n / 10, width - 1) + [DigitChar(n % 10)]
  }

  /** The number a string of decimal digits denotes. */
  function DigitsValue(s: string): nat
    requires AllDigits(s)
  {
    if s == [] then 0
    else 10 * DigitsValue(s[..|s| - 1]) + DigitValue(s[|s| - 1])
  }

  lemma {:induction false} DigitsValuePad(n: nat, width: nat)
    requires n < Pow10(width)
    ensures DigitsValue(Pad(n, width)) == n
  {
    if width > 0 {
      var s := Pad(n, width);
      assert s[..|s| - 1] == Pad(n / 10, width - 1);
      DigitsValuePad(n / 10, width - 1);
    }
  }

  lemma {:induction false} PadDigitsValue(s: string)
    requires AllDigits(s)
    ensures DigitsValue(s) < Pow10(|s|) && Pad(DigitsValue(s), |s|) == s
  {
    if s != [] {
      var init := s[..|s| - 1];
      PadDigitsValue(init);
      var v := DigitsValue(s);
      assert v / 10 == DigitsValue(init) && v % 10 == DigitValue(s[|s| - 1]);
      assert s == init + [s[|s| - 1]];
    }
  }

  // ---------------------------------------------------------------------------
  // The pattern yyyy-MM-dd'T'HH:mm:ss.SSS'Z'

  /** Length of every string the pattern produces. */
  const PatternLength := 24

  /** The literal characters of the pattern sit at these positions. */
  predicate LiteralsAt(s: string)
    requires |s| == PatternLength
  {
    s[4] == '-' && s[7] == '-' && s[10] == 'T' && s[13] == ':' &&
    s[16] == ':' && s[19] == '.' && s[23] == 'Z'
  }

  /** The numeric fields of the pattern are all digits. */
  predicate FieldsAreDigits(s: string)
    requires |s| == PatternLength
  {
    AllDigits(s[0..4]) && AllDigits(s[5..7]) && AllDigits(s[8..10]) &&
    AllDigits(s[11..13]) && AllDigits(s[14..16]) && AllDigits(s[17..19]) &&
    AllDigits(s[20..23])
  }

  /** Renders an instant with the fixed pattern. */
  function Format(t: Instant): (s: string)
    ensures |s| == PatternLength && LiteralsAt(s)
  {
    Pad(t.year, 4) + "-" + Pad(t.month, 2) + "-" + Pad(t.day, 2) + "T" +
    Pad(t.hour, 2) + ":" + Pad(t.minute, 2) + ":" + Pad(t.second, 2) + "." +
    Pad(t.millis, 3) + "Z"
  }

  /**
   * Reads an instant written with the fixed pattern. The reading is strict:
   * wrong length, a wrong literal, a non-digit or an out-of-range field
   * gives `None`.
   */
  function Parse(s: string): (r: Option<Instant>)
    ensures r.Some? ==> |s| == PatternLength && LiteralsAt(s)
  {
    if |s| != PatternLength || !LiteralsAt(s) || !FieldsAreDigits(s) then None
    else
      var t := Timestamp(
        DigitsValue(s[0..4]), DigitsValue(s[5..7]), DigitsValue(s[8..10]),
        DigitsValue(s[11..13]), DigitsValue(s[14..16]), DigitsValue(s[17..19]),
        DigitsValue(s[20..23]));
      if t.Valid() then Some(t) else None
  }

  /** Reading back what was rendered gives the same instant. */
  lemma ParseFormat(t: Instant)
    ensures Parse(Format(t)) == Some(t)
  {
    var s := Format(t);
    assert s[0..4] == Pad(t.year, 4);
    assert s[5..7] == Pad(t.month, 2);
    assert s[8..10] == Pad(t.day, 2);
    assert s[11..13] == Pad(t.hour, 2);
    assert s[14..16] == Pad(t.minute, 2);
    assert s[17..19] == Pad(t.second, 2);
    assert s[20..23] == Pad(t.millis, 3);
    DigitsValuePad(t.year, 4);
    DigitsValuePad(t.month, 2);
    DigitsValuePad(t.day, 2);
    DigitsValuePad(t.hour, 2);
    DigitsValuePad(t.minute, 2);
    DigitsValuePad(t.second, 2);
    DigitsValuePad(t.millis, 3);
  }

  /** Every string that reads as an instant is exactly that instant's rendering. */
  lemma FormatParse(s: string)
    requires Parse(s).Some?
    ensures Format(Parse(s).value) == s
  {
    var t := Parse(s).value;
    PadDigitsValue(s[0..4]);
    PadDigitsValue(s[5..7]);
    PadDigitsValue(s[8..10]);
    PadDigitsValue(s[11..13]);
    PadDigitsValue(s[14..16]);
    PadDigitsValue(s[17..19]);
    PadDigitsValue(s[20..23]);
    assert s == s[0..4] + [s[4]] + s[5..7] + [s[7]] + s[8..10] + [s[10]] +
      s[11..13] + [s[13]] + s[14..16] + [s[16]] + s[17..19] + [s[19]] +
      s[20..23] + [s[23]];
  }

  /** Rendering is one-to-one: distinct instants never share a string. */
  lemma FormatInjective(t1: Instant, t2: Instant)
    requires Format(t1) == Format(t2)
    ensures t1 == t2
  {
    ParseFormat(t1);
    ParseFormat(t2);
  }

  // ---------------------------------------------------------------------------
  // Field updates

  /** The instant with its hour-of-day field replaced and every other field kept. */
  function WithHour(t: Instant, h: int): (r: Instant)
    requires 0 <= h < 24
    ensures r.hour == h
    ensures r.year == t.year && r.month == t.month && r.day == t.day
    ensures r.minute == t.minute && r.second == t.second && r.millis == t.millis
  {
    t.(hour := h)
  }

  /** Midnight of the instant's day: the date kept, the time of day zeroed. */
  function StartOfDay(t: Instant): (r: Instant)
    ensures r.year == t.year && r.month == t.month && r.day == t.day
    ensures r.hour == 0 && r.minute == 0 && r.second == 0 && r.millis == 0
  {
    t.(hour := 0, minute := 0, second := 0, millis := 0)
  }
}
