/**
 * Timestamps as integer microseconds since 1970-01-01 00:00:00 of a fixed
 * clock (naive local time for the dashboard, UTC for the forecast log), and
 * the few `datetime` operations the dashboard performs on them.
 */
module Times {

  type Time = int

  const Second: int := 1_000_000
  const Minute: int := 60_000_000
  const Hour: int := 3_600_000_000
  const Day: int := 86_400_000_000

  /** Days since the epoch; `/` is floor division for a positive divisor, like `datetime`. */
  function DayNumber(t: Time): int {
    t / Day
  }

  /** Microseconds elapsed since the midnight that starts `t`'s day. */
  function TimeOfDay(t: Time): (r: int)
    ensures 0 <= r < Day
    ensures t == DayNumber(t) * Day + r
  {
    t % Day
  }

  function HourOf(t: Time): (h: int)
    ensures 0 <= h < 24
  {
    TimeOfDay(t) / Hour
  }

  function MinuteOf(t: Time): (m: int)
    ensures 0 <= m < 60
  {
    TimeOfDay(t) % Hour / Minute
  }

  function MicrosecondOf(t: Time): (us: int)
    ensures 0 <= us < Second
  {
    t % Second
  }

  /** The instant `q` whole days plus `r` microseconds after the epoch lies on day `q`. */
  lemma DayOfOffset(q: int, r: int)
    requires 0 <= r < Day
    ensures DayNumber(q * Day + r) == q
    ensures TimeOfDay(q * Day + r) == r
  {
  }

  /** Whole days never change the clock reading, down to the microsecond. */
  lemma ShiftDays(t: Time, k: int)
    ensures DayNumber(t + k * Day) == DayNumber(t) + k
    ensures TimeOfDay(t + k * Day) == TimeOfDay(t)
    ensures MicrosecondOf(t + k * Day) == MicrosecondOf(t)
  {
    var q := DayNumber(t);
    var r := TimeOfDay(t);
    assert t + k * Day == (q + k) * Day + r;
    DayOfOffset(q + k, r);
    ShiftDaysMicrosecond(t, k);
  }

  lemma ShiftDaysMicrosecond(t: Time, k: int)
    ensures MicrosecondOf(t + k * Day) == MicrosecondOf(t)
  {
    assert t + k * Day == t + (k * 86400) * Second;
  }

  /**
   * `datetime.replace(hour=h, minute=m, second=s, microsecond=us)`: same
   * calendar day, new clock reading.
   */
  function WithClock(t: Time, h: int, m: int, s: int, us: int): (r: Time)
    requires 0 <= h < 24 && 0 <= m < 60 && 0 <= s < 60 && 0 <= us < Second
    ensures DayNumber(r) == DayNumber(t)
    ensures TimeOfDay(r) == h * Hour + m * Minute + s * Second + us
  {
    DayOfOffset(DayNumber(t), h * Hour + m * Minute + s * Second + us);
    DayNumber(t) * Day + h * Hour + m * Minute + s * Second + us
  }

  /**
   * `datetime.replace(hour=h, minute=m, second=s)`: the microsecond field is
   * left as it was.
   */
  function WithHms(t: Time, h: int, m: int, s: int): (r: Time)
    requires 0 <= h < 24 && 0 <= m < 60 && 0 <= s < 60
    ensures DayNumber(r) == DayNumber(t)
    ensures MicrosecondOf(r) == MicrosecondOf(t)
    ensures TimeOfDay(r) == h * Hour + m * Minute + s * Second + MicrosecondOf(t)
  {
    var us := MicrosecondOf(t);
    var r := WithClock(t, h, m, s, us);
    var n := DayNumber(t) * 86400 + h * 3600 + m * 60 + s;
    assert r == n * Second + us;
    WholeSecondsPlus(n, us);
    r
  }

  lemma WholeSecondsPlus(n: int, us: int)
    requires 0 <= us < Second
    ensures MicrosecondOf(n * Second + us) == us
  {
  }

  /** `datetime.replace(second=0)`: hour, minute and microsecond are kept. */
  function TruncateSeconds(t: Time): (r: Time)
    ensures DayNumber(r) == DayNumber(t)
    ensures MicrosecondOf(r) == MicrosecondOf(t)
    ensures TimeOfDay(r) == HourOf(t) * Hour + MinuteOf(t) * Minute + MicrosecondOf(t)
    ensures r <= t < r + Minute
  {
    WithHms(t, HourOf(t), MinuteOf(t), 0)
  }

  /**
   * `dt.day()`: the day of the month of `t`, by the proleptic Gregorian
   * civil-from-days conversion (eras of 400 years starting on 0000-03-01).
   */
  function DayOfMonth(t: Time): (d: int)
    ensures 1 <= d <= 31
  {
    var z := DayNumber(t) + 719468;
    var era := z / 146097;
    var doe := z - era * 146097;
    var yoe := (doe - doe / 1460 + doe / 36524 - doe / 146096) / 365;
    var doy := doe - (365 * yoe + yoe / 4 - yoe / 100);
    var mp := (5 * doy + 2) / 153;
    doy - (153 * mp + 2) / 5 + 1
  }
}
