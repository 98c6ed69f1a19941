/**
 * The moment.js clock fields and setters the calendar page uses, on instants
 * held as whole seconds since the epoch in UTC. A setter given a value past its
 * field's range carries into the next field, as moment.js does.
 */
module Clock {
  import opened Grid

  const Minute := 60
  const Hour := 3600
  const Day := 86400

  /** `hours()`, `minutes()` and `seconds()` of an instant. */
  function HourOf(t: int): nat { (t % Day) / Hour }
  function MinuteOf(t: int): nat { (t % Hour) / Minute }
  function SecondOf(t: int): nat { t % Minute }

  /** `hours(h)`, `minutes(m)` and `seconds(s)`: the other fields are left as they were. */
  function SetHours(t: int, h: int): int { t + (h - HourOf(t)) * Hour }
  function SetMinutes(t: int, m: int): int { t + (m - MinuteOf(t)) * Minute }
  function SetSeconds(t: int, s: int): int { t + (s - SecondOf(t)) }

  /** Quotient and remainder are determined by any decomposition with the remainder in range. */
  lemma DivModUnique(t: int, n: int, q: int, r: int)
    requires 0 < n && 0 <= r < n && t == q * n + r
    ensures t / n == q && t % n == r
  {
    var q', r' := t / n, t % n;
    assert (q - q') * n == r' - r;
    if q != q' {
      var k := q - q';
      if k > 0 {
        MulAtLeast(k, n);
      } else {
        MulAtLeast(-k, n);
      }
    }
  }

  lemma MulAtLeast(k: int, n: int)
    requires k >= 1 && n > 0
    ensures k * n >= n
  {
    assert k * n == (k - 1) * n + n;
  }

  /** The fields read back an instant: its day, then hours, minutes and seconds into it. */
  lemma FieldsOf(t: int)
    ensures HourOf(t) < 24 && MinuteOf(t) < 60 && SecondOf(t) < 60
    ensures t == (t / Day) * Day + HourOf(t) * Hour + MinuteOf(t) * Minute + SecondOf(t)
    ensures MinuteOf(t) * Minute + SecondOf(t) == SecondsIntoHour(t)
  {
    var d, rd := t / Day, t % Day;
    var h, rh := rd / Hour, rd % Hour;
    DivModUnique(t, Hour, d * 24 + h, rh);
    var m, s := rh / Minute, rh % Minute;
    DivModUnique(t, Minute, (d * 24 + h) * 60 + m, s);
  }

  /** `hours(h)` with an hour of the day sets the hour and keeps the day, minutes and seconds. */
  lemma SetHoursFields(t: int, h: int)
    requires 0 <= h < 24
    ensures var r := SetHours(t, h);
      r / Day == t / Day && HourOf(r) == h && MinuteOf(r) == MinuteOf(t) && SecondOf(r) == SecondOf(t)
  {
    var r := SetHours(t, h);
    FieldsOf(t);
    var rest := MinuteOf(t) * Minute + SecondOf(t);
    assert r == (t / Day) * Day + h * Hour + rest;
    DivModUnique(r, Day, t / Day, h * Hour + rest);
    DivModUnique(h * Hour + rest, Hour, h, rest);
    DivModUnique(r, Hour, (t / Day) * 24 + h, rest);
    DivModUnique(r, Minute, ((t / Day) * 24 + h) * 60 + MinuteOf(t), SecondOf(t));
  }

  /** `minutes(m)` with a minute of the hour sets the minute and keeps the hour and seconds. */
  lemma SetMinutesFields(t: int, m: int)
    requires 0 <= m < 60
    ensures var r := SetMinutes(t, m);
      r / Hour == t / Hour && MinuteOf(r) == m && SecondOf(r) == SecondOf(t)
  {
    var r := SetMinutes(t, m);
    FieldsOf(t);
    var q := t / Hour;
    assert t == q * Hour + MinuteOf(t) * Minute + SecondOf(t) by {
      DivModUnique(t, Hour, (t / Day) * 24 + HourOf(t), MinuteOf(t) * Minute + SecondOf(t));
    }
    assert r == q * Hour + m * Minute + SecondOf(t);
    DivModUnique(r, Hour, q, m * Minute + SecondOf(t));
    DivModUnique(m * Minute + SecondOf(t), Minute, m, SecondOf(t));
    DivModUnique(r, Minute, q * 60 + m, SecondOf(t));
  }

  /**
   * `minutes(m).seconds(0)` puts an instant `m` minutes past the start of its
   * hour, whatever `m` is: a minute of 60 is the start of the next hour.
   */
  lemma SetMinutesCarry(t: int, m: int)
    ensures SetSeconds(SetMinutes(t, m), 0) == t - SecondsIntoHour(t) + m * Minute
  {
    FieldsOf(t);
    var u := SetMinutes(t, m);
    var q := t / Minute;
    DivModUnique(u, Minute, q + m - MinuteOf(t), SecondOf(t));
  }

  /**
   * `hours(h).minutes(0)`, the clock time an all-day event is given: the same
   * day, `h` o'clock sharp, with the seconds untouched.
   */
  function AtHour(t: int, h: int): (r: int)
    requires 0 <= h < 24
    ensures r / Day == t / Day && HourOf(r) == h && MinuteOf(r) == 0 && SecondOf(r) == SecondOf(t)
  {
    SetHoursFields(t, h);
    SetMinutesFields(SetHours(t, h), 0);
    DayKept(SetHours(t, h));
    SetMinutes(SetHours(t, h), 0)
  }

  /** `minutes(0)` does not leave the day, and keeps the hour. */
  lemma DayKept(t: int)
    ensures SetMinutes(t, 0) / Day == t / Day && HourOf(SetMinutes(t, 0)) == HourOf(t)
  {
    FieldsOf(t);
    var rest := HourOf(t) * Hour + SecondOf(t);
    assert SetMinutes(t, 0) == (t / Day) * Day + rest;
    DivModUnique(SetMinutes(t, 0), Day, t / Day, rest);
    DivModUnique(rest, Hour, HourOf(t), SecondOf(t));
  }
}
