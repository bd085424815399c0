/**
 * Day/night background shading of the three charts
 * (add_background_shading_to_figure). Sunrise and sunset come from an
 * astronomical library in the source; here they are parameters giving the
 * local naive sunrise and sunset of each day number.
 */
module Shading {
  import opened Options
  import opened Times

  /** A shaded band `[x0, x1]` on the time axis. */
  datatype Rect = Rect(x0: Time, x1: Time)

  /**
   * What one visited day adds to a figure: the optional vertical lines at
   * midnight, sunrise and sunset, the morning band and the evening band.
   */
  datatype DayShade = DayShade(
    midnightLine: Option<Time>,
    sunriseLine: Option<Time>,
    morning: Rect,
    sunsetLine: Option<Time>,
    evening: Rect)

  function Max(a: int, b: int): int { if a >= b then a else b }
  function Min(a: int, b: int): int { if a <= b then a else b }

  /** The band `[a, b]` clipped to the plotted range `[lo, hi]`. */
  function Clip(a: Time, b: Time, lo: Time, hi: Time): Rect {
    Rect(Max(lo, a), Min(hi, b))
  }

  /** `(end - start).days + 2` iterations of `range`, none when negative. */
  function DaysVisited(start: Time, end: Time): (n: nat)
    ensures start <= end ==> n >= 2
    ensures n == 0 <==> end - start < -Day
    ensures n > 0 ==> (n - 2) * Day <= end - start < (n - 1) * Day
  {
    var d := (end - start) / Day + 2;
    if d < 0 then 0 else d
  }

  /**
   * The body of the per-day loop, branch for branch: `start` has already had
   * its seconds zeroed; `day` is `start` plus a whole number of days.
   */
  function ShadeDay(start: Time, end: Time, day: Time, sunrise: int -> Time, sunset: int -> Time): (r: DayShade)
    ensures var amMidnight := WithHms(day, 0, 0, 0);
            var pmMidnight := WithHms(day, 23, 59, 59);
            && r.morning == Clip(amMidnight, sunrise(DayNumber(day)), start, end)
            && r.evening == Clip(sunset(DayNumber(day)), pmMidnight, start, end)
    ensures start <= r.morning.x0 && r.morning.x1 <= end
    ensures start <= r.evening.x0 && r.evening.x1 <= end
    ensures r.midnightLine.Some? <==> start <= WithHms(day, 0, 0, 0)
    ensures r.sunriseLine.Some? <==> end >= sunrise(DayNumber(day))
    ensures r.sunsetLine.Some? <==> start <= sunset(DayNumber(day))
    ensures r.midnightLine.Some? ==> r.midnightLine.value == WithHms(day, 0, 0, 0)
    ensures r.sunriseLine.Some? ==> r.sunriseLine.value == sunrise(DayNumber(day))
    ensures r.sunsetLine.Some? ==> r.sunsetLine.value == sunset(DayNumber(day))
  {
    var amMidnight := WithHms(day, 0, 0, 0);
    var pmMidnight := WithHms(day, 23, 59, 59);
    var sunriseAt := sunrise(DayNumber(day));
    var sunsetAt := sunset(DayNumber(day));
    var sunriseLine := if end >= sunriseAt then Some(sunriseAt) else None;
    var morning :=
      if start <= amMidnight then
        (if end >= sunriseAt then Rect(amMidnight, sunriseAt) else Rect(amMidnight, end))
      else
        (if end >= sunriseAt then Rect(start, sunriseAt) else Rect(start, end));
    var evening :=
      if start <= sunsetAt then
        (if end >= pmMidnight then Rect(sunsetAt, pmMidnight) else Rect(sunsetAt, end))
      else
        (if end > pmMidnight then Rect(start, pmMidnight) else Rect(start, end));
    DayShade(
      if start <= amMidnight then Some(amMidnight) else None,
      sunriseLine,
      morning,
      if start <= sunsetAt then Some(sunsetAt) else None,
      evening)
  }

  /** The whole loop over the visited days, for the plotted range `[start, end]`. */
  function ShadeRange(start: Time, end: Time, sunrise: int -> Time, sunset: int -> Time): (r: seq<DayShade>)
    ensures |r| == DaysVisited(TruncateSeconds(start), end)
  {
    var s := TruncateSeconds(start);
    seq(DaysVisited(s, end), k requires 0 <= k => ShadeDay(s, end, s + k * Day, sunrise, sunset))
  }

  /**
   * The k-th visited day is the k-th calendar day from the range's first;
   * its morning band is midnight (carrying `start`'s microsecond) to sunrise
   * and its evening band sunset to 23:59:59, both clipped to the range.
   */
  lemma ShadeRangeDays(start: Time, end: Time, sunrise: int -> Time, sunset: int -> Time, k: int)
    requires 0 <= k < |ShadeRange(start, end, sunrise, sunset)|
    ensures var r := ShadeRange(start, end, sunrise, sunset);
            var s := TruncateSeconds(start);
            var d := DayNumber(start) + k;
            var us := MicrosecondOf(start);
            && r[k].morning == Clip(d * Day + us, sunrise(d), s, end)
            && r[k].evening == Clip(sunset(d), d * Day + 23 * Hour + 59 * Minute + 59 * Second + us, s, end)
            && (r[k].midnightLine.Some? <==> s <= d * Day + us)
            && (r[k].midnightLine.Some? ==> r[k].midnightLine.value == d * Day + us)
            && (r[k].sunriseLine.Some? <==> end >= sunrise(d))
            && (r[k].sunriseLine.Some? ==> r[k].sunriseLine.value == sunrise(d))
            && (r[k].sunsetLine.Some? <==> s <= sunset(d))
            && (r[k].sunsetLine.Some? ==> r[k].sunsetLine.value == sunset(d))
  {
    var s := TruncateSeconds(start);
    var day := s + k * Day;
    assert ShadeRange(start, end, sunrise, sunset)[k] == ShadeDay(s, end, day, sunrise, sunset);
    ShiftDays(s, k);
    assert DayNumber(day) == DayNumber(start) + k;
    assert MicrosecondOf(day) == MicrosecondOf(start);
    ClockOf(day, 0, 0, 0);
    ClockOf(day, 23, 59, 59);
  }

  lemma ClockOf(day: Time, h: int, m: int, sec: int)
    requires 0 <= h < 24 && 0 <= m < 60 && 0 <= sec < 60
    ensures WithHms(day, h, m, sec) == DayNumber(day) * Day + h * Hour + m * Minute + sec * Second + MicrosecondOf(day)
  {
    var t := WithHms(day, h, m, sec);
    assert t == DayNumber(t) * Day + TimeOfDay(t);
  }

  /** Every calendar day from the range's first to its last is visited. */
  lemma ShadeRangeCoversDays(start: Time, end: Time, sunrise: int -> Time, sunset: int -> Time)
    requires start <= end
    ensures DayNumber(end) - DayNumber(start) < |ShadeRange(start, end, sunrise, sunset)|
  {
    var s := TruncateSeconds(start);
    var q := (end - s) / Day;
    assert end - s == q * Day + (end - s) % Day;
    assert s == DayNumber(s) * Day + TimeOfDay(s);
    assert end == DayNumber(end) * Day + TimeOfDay(end);
    assert DayNumber(end) <= DayNumber(s) + q + 1;
  }
}
