/** Clipping the weather series to the plotted time range (filter_weather_df_by_date). */
module Window {
  import opened Options
  import opened Times
  import opened Seqs
  import opened Records

  /** Yesterday at 00:00:01; the microsecond of `now` is kept, as `replace` does. */
  function DefaultStart(nowLocal: Time): (t: Time)
    ensures DayNumber(t) == DayNumber(nowLocal) - 1
    ensures Second <= TimeOfDay(t) < 2 * Second
    ensures MicrosecondOf(t) == MicrosecondOf(nowLocal)
  {
    DayOfOffset(DayNumber(nowLocal) - 1, TimeOfDay(nowLocal));
    ShiftDaysMicrosecond(nowLocal, -1);
    WithHms(nowLocal - Day, 0, 0, 1)
  }

  /** Tomorrow at 23:59:59.009999. */
  function DefaultEnd(nowLocal: Time): (t: Time)
    ensures DayNumber(t) == DayNumber(nowLocal) + 1
    ensures TimeOfDay(t) == Day - Second + 9999
  {
    DayOfOffset(DayNumber(nowLocal) + 1, TimeOfDay(nowLocal));
    WithClock(nowLocal + Day, 23, 59, 59, 9999)
  }

  function StartOf(nowLocal: Time, start: Option<Time>): Time {
    start.GetOr(DefaultStart(nowLocal))
  }

  function EndOf(nowLocal: Time, end: Option<Time>): Time {
    end.GetOr(DefaultEnd(nowLocal))
  }

  predicate InRange(row: Row, lo: Time, hi: Time) {
    lo <= row.date <= hi
  }

  /** The rows dated within the inclusive range, in series order. */
  function FilterByDate(series: seq<Row>, nowLocal: Time, start: Option<Time>, end: Option<Time>): (r: seq<Row>)
    ensures forall row :: row in r <==> row in series && StartOf(nowLocal, start) <= row.date <= EndOf(nowLocal, end)
    ensures |r| <= |series|
  {
    var lo := StartOf(nowLocal, start);
    var hi := EndOf(nowLocal, end);
    Filter(series, (row: Row) => InRange(row, lo, hi))
  }

  /** The window keeps series order: it commutes with concatenation. */
  lemma FilterByDateConcat(a: seq<Row>, b: seq<Row>, nowLocal: Time, start: Option<Time>, end: Option<Time>)
    ensures FilterByDate(a + b, nowLocal, start, end) == FilterByDate(a, nowLocal, start, end) + FilterByDate(b, nowLocal, start, end)
  {
    var lo := StartOf(nowLocal, start);
    var hi := EndOf(nowLocal, end);
    FilterConcat(a, b, (row: Row) => InRange(row, lo, hi));
  }

  lemma FilterByDateIdempotent(series: seq<Row>, nowLocal: Time, start: Option<Time>, end: Option<Time>)
    ensures FilterByDate(FilterByDate(series, nowLocal, start, end), nowLocal, start, end)
         == FilterByDate(series, nowLocal, start, end)
  {
    var lo := StartOf(nowLocal, start);
    var hi := EndOf(nowLocal, end);
    FilterIdempotent(series, (row: Row) => InRange(row, lo, hi));
  }

  /**
   * The default range in calendar terms: all of today, yesterday from its
   * second second on, tomorrow up to its last second, and no other day.
   */
  lemma DefaultRangeDays(nowLocal: Time, t: Time)
    ensures DayNumber(t) == DayNumber(nowLocal) ==> DefaultStart(nowLocal) <= t <= DefaultEnd(nowLocal)
    ensures (DayNumber(t) == DayNumber(nowLocal) - 1 && 2 * Second <= TimeOfDay(t)) ==>
              DefaultStart(nowLocal) <= t <= DefaultEnd(nowLocal)
    ensures (DayNumber(t) == DayNumber(nowLocal) + 1 && TimeOfDay(t) < Day - Second) ==>
              DefaultStart(nowLocal) <= t <= DefaultEnd(nowLocal)
    ensures (DayNumber(t) < DayNumber(nowLocal) - 1 || DayNumber(t) > DayNumber(nowLocal) + 1) ==>
              !(DefaultStart(nowLocal) <= t <= DefaultEnd(nowLocal))
  {
    var s := DefaultStart(nowLocal);
    var e := DefaultEnd(nowLocal);
    assert s == DayNumber(s) * Day + TimeOfDay(s);
    assert e == DayNumber(e) * Day + TimeOfDay(e);
    assert t == DayNumber(t) * Day + TimeOfDay(t);
  }
}
