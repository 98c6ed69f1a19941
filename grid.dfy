/**
 * The snapping arithmetic of the calendar page: after an event is dragged or
 * resized it is put back on a 15-minute grid. Instants are whole seconds
 * since the epoch, in UTC, so an hour starts at every multiple of 3600.
 */
module Grid {

  /** `model.timeConfig.interval`, the grid step in minutes, and the same step in seconds. */
  const IntervalMinutes := 15
  const IntervalSeconds := IntervalMinutes * 60
  const HalfInterval := IntervalSeconds / 2

  function Abs(n: int): nat {
    if n < 0 then -n else n
  }

  /**
   * Rounds a duration to a multiple of the interval: the remainder is dropped
   * when it is at most half an interval, otherwise the duration is rounded up.
   * The quotients are non-negative, so truncating them (`>> 0`) is `/`.
   */
  function RoundDuration(d: nat): (r: nat)
    ensures r % IntervalSeconds == 0
    ensures -HalfInterval <= r - d < HalfInterval
  {
    RoundDurationOffset(d);
    if d % IntervalSeconds <= HalfInterval then (d / IntervalSeconds) * IntervalSeconds
    else ((d + IntervalSeconds) / IntervalSeconds) * IntervalSeconds
  }

  /** How far rounding moves a duration: back by the remainder, or up to the next multiple. */
  lemma RoundDurationOffset(d: nat)
    ensures d % IntervalSeconds <= HalfInterval ==> (d / IntervalSeconds) * IntervalSeconds == d - d % IntervalSeconds
    ensures d % IntervalSeconds > HalfInterval ==>
      ((d + IntervalSeconds) / IntervalSeconds) * IntervalSeconds == d + IntervalSeconds - d % IntervalSeconds
    ensures ((d / IntervalSeconds) * IntervalSeconds) % IntervalSeconds == 0
    ensures (((d + IntervalSeconds) / IntervalSeconds) * IntervalSeconds) % IntervalSeconds == 0
  {
    var q, rest := d / IntervalSeconds, d % IntervalSeconds;
    assert d == q * IntervalSeconds + rest;
    assert d + IntervalSeconds == (q + 1) * IntervalSeconds + rest;
  }

  /** Exactly one multiple of the interval lies within half an interval below and strictly less than half above. */
  lemma GridPointUnique(d: int, m: int, n: int)
    requires m % IntervalSeconds == 0 && -HalfInterval <= m - d < HalfInterval
    requires n % IntervalSeconds == 0 && -HalfInterval <= n - d < HalfInterval
    ensures m == n
  {
    var p, q := m / IntervalSeconds, n / IntervalSeconds;
    assert m == p * IntervalSeconds && n == q * IntervalSeconds;
    assert -IntervalSeconds < (p - q) * IntervalSeconds < IntervalSeconds;
  }

  /**
   * The rounded duration is a nearest multiple of the interval, and where two
   * are equally near (a remainder of exactly half an interval) it is the lower one.
   */
  lemma RoundDurationNearest(d: nat, k: int)
    ensures Abs(RoundDuration(d) - d) <= Abs(k * IntervalSeconds - d)
    ensures Abs(RoundDuration(d) - d) == Abs(k * IntervalSeconds - d) ==> RoundDuration(d) <= k * IntervalSeconds
  {
    var r := RoundDuration(d);
    var m := k * IntervalSeconds;
    assert m % IntervalSeconds == 0;
    if -HalfInterval <= m - d < HalfInterval {
      GridPointUnique(d, m, r);
    } else {
      var j := r / IntervalSeconds;
      assert r == j * IntervalSeconds;
      if m < r {
        assert m <= r - IntervalSeconds by {
          assert (k - j) * IntervalSeconds < 0;
        }
      } else {
        assert m >= r + IntervalSeconds by {
          assert (k - j) * IntervalSeconds > 0;
        }
      }
    }
  }

  /** A duration already on the grid is left as it is. */
  lemma RoundDurationOnGrid(d: nat)
    requires d % IntervalSeconds == 0
    ensures RoundDuration(d) == d
  {
    GridPointUnique(d, d, RoundDuration(d));
  }

  /** The seconds into its hour of an instant: `minutes() * 60 + seconds()`. */
  function SecondsIntoHour(t: int): (s: nat)
    ensures s < 3600
  {
    t % 3600
  }

  /** The hour holding an instant starts on the grid: the grid step divides an hour. */
  lemma HourStartOnGrid(t: int)
    ensures (t - SecondsIntoHour(t)) % IntervalSeconds == 0
    ensures SecondsIntoHour(t) % IntervalSeconds == t % IntervalSeconds
  {
    var h := t / 3600;
    assert t - SecondsIntoHour(t) == h * 3600 == (h * 4) * IntervalSeconds;
  }

  /**
   * An endpoint snapped to the grid: the start of its hour plus its seconds
   * into the hour rounded like a duration. A rounded value of 3600 is the
   * minute 60 that carries into the next hour.
   */
  function SnapPoint(t: int): (r: int)
    ensures r % IntervalSeconds == 0
    ensures -HalfInterval <= r - t < HalfInterval
  {
    var hourStart := t - SecondsIntoHour(t);
    var rounded := RoundDuration(SecondsIntoHour(t));
    HourStartOnGrid(t);
    GridClosed(hourStart, rounded);
    hourStart + rounded
  }

  /**
   * How far snapping moves an endpoint (`startSecond` / `endSecond` after the
   * update): the remainder when it is at most half an interval, else what is
   * missing to the next grid point.
   */
  function Displacement(t: int): (s: nat)
  {
    var rest := SecondsIntoHour(t) % IntervalSeconds;
    if rest <= HalfInterval then rest else IntervalSeconds - rest
  }

  /** The displacement is the distance the endpoint moves, and at most half an interval. */
  lemma DisplacementIsDistance(t: int)
    ensures Displacement(t) == Abs(SnapPoint(t) - t)
    ensures Displacement(t) <= HalfInterval
  {
    var sec := SecondsIntoHour(t);
    assert SnapPoint(t) - t == RoundDuration(sec) - sec;
    RoundDurationOffset(sec);
  }

  /** A snapped event. */
  datatype Span = Span(start: int, end: int)

  /**
   * The endpoint that snapping moves less (the start on a tie) is snapped; the
   * other is placed the rounded duration away from it.
   */
  function SnapEvent(start: int, end: int): Span
    requires start <= end
  {
    var duration := RoundDuration(end - start);
    if Displacement(start) <= Displacement(end) then
      Span(SnapPoint(start), SnapPoint(start) + duration)
    else
      Span(SnapPoint(end) - duration, SnapPoint(end))
  }

  /**
   * A snapped event lies on the grid, lasts the rounded duration, keeps the
   * endpoint that moves less where snapping puts it, and moves each endpoint
   * by at most one interval.
   */
  lemma SnapEventSpec(start: int, end: int)
    requires start <= end
    ensures var s := SnapEvent(start, end);
      && s.start % IntervalSeconds == 0 && s.end % IntervalSeconds == 0
      && s.end - s.start == RoundDuration(end - start)
      && (Displacement(start) <= Displacement(end) ==> s.start == SnapPoint(start))
      && (Displacement(start) > Displacement(end) ==> s.end == SnapPoint(end))
      && Abs(s.start - start) <= IntervalSeconds && Abs(s.end - end) <= IntervalSeconds
  {
    DisplacementIsDistance(start);
    DisplacementIsDistance(end);
    GridClosed(SnapPoint(start), RoundDuration(end - start));
    GridClosed(SnapPoint(end), RoundDuration(end - start));
  }

  /** Sums and differences of grid points are grid points. */
  lemma GridClosed(a: int, b: int)
    requires a % IntervalSeconds == 0 && b % IntervalSeconds == 0
    ensures (a + b) % IntervalSeconds == 0 && (a - b) % IntervalSeconds == 0
  {
    var p, q := a / IntervalSeconds, b / IntervalSeconds;
    assert a + b == (p + q) * IntervalSeconds;
    assert a - b == (p - q) * IntervalSeconds;
  }

  /** An event already on the grid is left as it is: snapping twice is snapping once. */
  lemma SnapEventIdempotent(start: int, end: int)
    requires start <= end
    ensures var s := SnapEvent(start, end);
      s.start <= s.end && SnapEvent(s.start, s.end) == s
  {
    var s := SnapEvent(start, end);
    SnapEventSpec(start, end);
    OnGridFixed(s.start);
    OnGridFixed(s.end);
    RoundDurationOnGrid(s.end - s.start);
  }

  lemma OnGridFixed(t: int)
    requires t % IntervalSeconds == 0
    ensures SnapPoint(t) == t && Displacement(t) == 0
  {
    GridPointUnique(t, t, SnapPoint(t));
    HourStartOnGrid(t);
  }
}
