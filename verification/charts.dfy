/**
 * The numeric decisions behind the temperature, wind and rain charts
 * (make_temp_fig, make_wind_fig, make_rain_fig): the plotted range, the
 * wind-bucket width, the axis ranges, the 32 degree line, which annotations
 * are drawn, and when a chart cannot be built at all.
 */
module Charts {
  import opened Options
  import opened Times
  import opened Seqs
  import opened Records
  import opened Window
  import opened Extremes
  import opened Shading

  /** Degrees added below the lowest dewpoint and above the highest temperature. */
  const TempPadding: real := 5.0
  /** Miles per hour added above the highest wind speed. */
  const WindPadding: real := 2.0
  /** Inches added above the highest daily rain, and the rain axis top when there is none. */
  const RainPadding: real := 1.0
  /** Target number of wind buckets across the plotted span. */
  const TargetBuckets: int := 180
  /** Spans up to this long get a fixed bucket width. */
  const ShortSpan: int := 15 * 60_000_000
  const ShortSpanBucketMinutes: int := 15
  const MinBucketMinutes: int := 2

  datatype Range<T> = Range(lo: T, hi: T)

  function Dates(rows: seq<Row>): seq<Time> {
    Map(rows, (row: Row) => row.date)
  }

  /** `df[col].min()`: the least non-null value of a column, null when there is none. */
  function ColumnMin(rows: seq<Row>, col: Row -> Option<real>): (r: Option<real>)
    ensures r.None? <==> forall i :: 0 <= i < |rows| ==> col(rows[i]).None?
    ensures r.Some? ==> exists i :: 0 <= i < |rows| && col(rows[i]) == r
    ensures forall i :: 0 <= i < |rows| && col(rows[i]).Some? ==> r.Some? && r.value <= col(rows[i]).value
  {
    var xs := Map(rows, col);
    assert forall i :: 0 <= i < |rows| ==> xs[i] == col(rows[i]);
    MinOf(xs)
  }

  /** `df[col].max()`: the greatest non-null value of a column, null when there is none. */
  function ColumnMax(rows: seq<Row>, col: Row -> Option<real>): (r: Option<real>)
    ensures r.None? <==> forall i :: 0 <= i < |rows| ==> col(rows[i]).None?
    ensures r.Some? ==> exists i :: 0 <= i < |rows| && col(rows[i]) == r
    ensures forall i :: 0 <= i < |rows| && col(rows[i]).Some? ==> r.Some? && col(rows[i]).value <= r.value
  {
    var xs := Map(rows, col);
    assert forall i :: 0 <= i < |rows| ==> xs[i] == col(rows[i]);
    MaxOf(xs)
  }

  /** `(DATE.min(), DATE.max())` of the plotted rows; null when there are none. */
  function PlottedRange(window: seq<Row>): (r: Option<Range<Time>>)
    ensures r.None? <==> |window| == 0
    ensures r.Some? ==> r.value.lo <= r.value.hi
    ensures r.Some? ==> forall i :: 0 <= i < |window| ==> r.value.lo <= window[i].date <= r.value.hi
    ensures r.Some? ==> exists i, j :: 0 <= i < |window| && 0 <= j < |window| && window[i].date == r.value.lo && window[j].date == r.value.hi
  {
    var ds := Dates(window);
    match (MinInt(ds), MaxInt(ds))
    case (Some(lo), Some(hi)) =>
      assert ds[0] == window[0].date;
      var i :| 0 <= i < |ds| && ds[i] == lo;
      var j :| 0 <= j < |ds| && ds[j] == hi;
      assert window[i].date == lo && window[j].date == hi;
      Some(Range(lo, hi))
    case _ => None
  }

  /**
   * The wind-bucket width in minutes: the span over 180, truncated, for a
   * span over 15 minutes, else 15; 2 when there is no span (the source's
   * exception path); never below 2.
   */
  function BucketMinutes(window: seq<Row>): (m: int)
    ensures m >= MinBucketMinutes
    ensures |window| == 0 ==> m == MinBucketMinutes
    ensures PlottedRange(window).Some? ==>
              var span := PlottedRange(window).value.hi - PlottedRange(window).value.lo;
              && (span <= ShortSpan ==> m == ShortSpanBucketMinutes)
              && (ShortSpan < span < MinBucketMinutes * TargetBuckets * Minute ==> m == MinBucketMinutes)
              && (span >= MinBucketMinutes * TargetBuckets * Minute ==>
                    m * TargetBuckets * Minute <= span < (m + 1) * TargetBuckets * Minute)
  {
    match PlottedRange(window)
    case None => MinBucketMinutes
    case Some(Range(lo, hi)) =>
      var span := hi - lo;
      var gb := if span > ShortSpan then span / Minute / TargetBuckets else ShortSpanBucketMinutes;
      if gb < MinBucketMinutes then MinBucketMinutes else gb
  }

  /** The temperature axis `[min(DEWPOINT) - 5, max(TEMP) + 5]`, over the whole series. */
  function TempAxis(series: seq<Row>): (r: Option<Range<real>>)
    ensures r.Some? <==> && (exists i :: 0 <= i < |series| && series[i].dewpoint.Some?)
                         && (exists i :: 0 <= i < |series| && series[i].temp.Some?)
    ensures r.Some? ==> forall i :: 0 <= i < |series| && series[i].dewpoint.Some? ==>
                          r.value.lo + TempPadding <= series[i].dewpoint.value
    ensures r.Some? ==> forall i :: 0 <= i < |series| && series[i].temp.Some? ==>
                          series[i].temp.value <= r.value.hi - TempPadding
    ensures r.Some? ==> && (exists i :: 0 <= i < |series| && series[i].dewpoint == Some(r.value.lo + TempPadding))
                        && (exists i :: 0 <= i < |series| && series[i].temp == Some(r.value.hi - TempPadding))
  {
    var lo := ColumnMin(series, (row: Row) => row.dewpoint);
    var hi := ColumnMax(series, (row: Row) => row.temp);
    if lo.Some? && hi.Some? then Some(Range(lo.value - TempPadding, hi.value + TempPadding)) else None
  }

  /** The 32 degree line is drawn when 32 lies strictly inside the axis. */
  predicate FreezingLineShown(axis: Range<real>) {
    axis.lo < 32.0 && 32.0 < axis.hi
  }

  /** In terms of the data: some dewpoint is below 37 and some temperature above 27. */
  lemma FreezingLineWhen(series: seq<Row>)
    requires TempAxis(series).Some?
    ensures FreezingLineShown(TempAxis(series).value) <==>
              (exists i :: 0 <= i < |series| && series[i].dewpoint.Some? && series[i].dewpoint.value < 37.0)
              && (exists i :: 0 <= i < |series| && series[i].temp.Some? && series[i].temp.value > 27.0)
  {
  }

  /** The wind axis `[0, max(WIND_SPEED) + 2]` over the whole series, forecast rows included. */
  function WindAxis(series: seq<Row>): (r: Option<Range<real>>)
    ensures r.Some? <==> exists i :: 0 <= i < |series| && series[i].windSpeed.Some?
    ensures r.Some? ==> r.value.lo == 0.0
    ensures r.Some? ==> forall i :: 0 <= i < |series| && series[i].windSpeed.Some? ==>
                          series[i].windSpeed.value + WindPadding <= r.value.hi
    ensures r.Some? ==> exists i :: 0 <= i < |series| && series[i].windSpeed == Some(r.value.hi - WindPadding)
  {
    var hi := ColumnMax(series, (row: Row) => row.windSpeed);
    if hi.Some? then Some(Range(0.0, hi.value + WindPadding)) else None
  }

  /** The rain axis `[0, max(RAIN_DAILIY) + 1]`, or `[0, 1]` with no rain column value. */
  function RainAxis(series: seq<Row>): (r: Range<real>)
    ensures r.lo == 0.0
    ensures (forall i :: 0 <= i < |series| ==> series[i].rainDaily.None?) ==> r.hi == RainPadding
    ensures forall i :: 0 <= i < |series| && series[i].rainDaily.Some? ==>
              series[i].rainDaily.value + RainPadding <= r.hi
                && exists j :: 0 <= j < |series| && series[j].rainDaily == Some(r.hi - RainPadding)
  {
    var hi := ColumnMax(series, (row: Row) => row.rainDaily);
    if hi.Some? then Range(0.0, hi.value + RainPadding) else Range(0.0, RainPadding)
  }

  /** A high/low marker is drawn when its time is after the first plotted time and not after the last. */
  function VisibleAnnotations(annotations: seq<Annotation>, plotted: Range<Time>): (r: seq<Annotation>)
    ensures forall a :: a in r <==> a in annotations && plotted.lo < a.time <= plotted.hi
  {
    Filter(annotations, (a: Annotation) => plotted.lo < a.time <= plotted.hi)
  }

  datatype TempChart = TempChart(
    xRange: Range<Time>,
    yRange: Range<real>,
    shading: seq<DayShade>,
    observed: seq<Row>,
    predicted: seq<Row>,
    highs: seq<Annotation>,
    lows: seq<Annotation>,
    freezingLine: bool)

  /**
   * make_temp_fig: null (no figure) when nothing is in the plotted range, or
   * when the series has no temperature or no dewpoint at all.
   */
  function TemperatureChart(series: seq<Row>, nowLocal: Time, start: Option<Time>, end: Option<Time>,
                            sunrise: int -> Time, sunset: int -> Time): (r: Option<TempChart>)
    ensures var window := FilterByDate(series, nowLocal, start, end);
            r.Some? <==> |window| > 0 && TempAxis(series).Some?
    ensures r.Some? ==>
              var c := r.value;
              && c.xRange == PlottedRange(FilterByDate(series, nowLocal, start, end)).value
              && c.yRange == TempAxis(series).value
              && (c.freezingLine <==> c.yRange.lo < 32.0 && 32.0 < c.yRange.hi)
              && (forall a :: a in c.highs <==> a in DailyAnnotations(series, HighTemp) && c.xRange.lo < a.time <= c.xRange.hi)
              && (forall a :: a in c.lows <==> a in DailyAnnotations(series, LowTemp) && c.xRange.lo < a.time <= c.xRange.hi)
              && c.shading == ShadeRange(c.xRange.lo, c.xRange.hi, sunrise, sunset)
              && c.observed == Filter(FilterByDate(series, nowLocal, start, end), (row: Row) => row.IsObserved())
              && c.predicted == Filter(FilterByDate(series, nowLocal, start, end), (row: Row) => row.IsForecast())
              && (forall row :: row in c.observed <==> row in FilterByDate(series, nowLocal, start, end) && row.IsObserved())
              && (forall row :: row in c.predicted <==> row in FilterByDate(series, nowLocal, start, end) && row.IsForecast())
  {
    var window := FilterByDate(series, nowLocal, start, end);
    var plotted := PlottedRange(window);
    var axis := TempAxis(series);
    if plotted.None? || axis.None? then None
    else
      AssembleTempChart(plotted.value, axis.value, window, series, sunrise, sunset)
  }

  /** The figure once both ranges are known. */
  function AssembleTempChart(plotted: Range<Time>, axis: Range<real>, window: seq<Row>, series: seq<Row>,
                     sunrise: int -> Time, sunset: int -> Time): (r: Option<TempChart>)
    ensures r.Some? && r.value.xRange == plotted && r.value.yRange == axis
    ensures r.value.freezingLine <==> axis.lo < 32.0 && 32.0 < axis.hi
    ensures forall a :: a in r.value.highs <==> a in DailyAnnotations(series, HighTemp) && plotted.lo < a.time <= plotted.hi
    ensures forall a :: a in r.value.lows <==> a in DailyAnnotations(series, LowTemp) && plotted.lo < a.time <= plotted.hi
    ensures r.value.shading == ShadeRange(plotted.lo, plotted.hi, sunrise, sunset)
    ensures r.value.observed == Filter(window, (row: Row) => row.IsObserved())
    ensures r.value.predicted == Filter(window, (row: Row) => row.IsForecast())
    ensures forall row :: row in r.value.observed <==> row in window && row.IsObserved()
    ensures forall row :: row in r.value.predicted <==> row in window && row.IsForecast()
  {
      Some(TempChart(
        plotted,
        axis,
        ShadeRange(plotted.lo, plotted.hi, sunrise, sunset),
        Filter(window, (row: Row) => row.IsObserved()),
        Filter(window, (row: Row) => row.IsForecast()),
        VisibleAnnotations(DailyAnnotations(series, HighTemp), plotted),
        VisibleAnnotations(DailyAnnotations(series, LowTemp), plotted),
        FreezingLineShown(axis)))
  }

  datatype WindChart = WindChart(
    xRange: Range<Time>,
    yRange: Range<real>,
    bucketMinutes: int,
    shading: seq<DayShade>)

  /** make_wind_fig: null when nothing is in the plotted range or the series has no wind speed. */
  function WindSpeedChart(series: seq<Row>, nowLocal: Time, start: Option<Time>, end: Option<Time>,
                          sunrise: int -> Time, sunset: int -> Time): (r: Option<WindChart>)
    ensures var window := FilterByDate(series, nowLocal, start, end);
            r.Some? <==> |window| > 0 && exists i :: 0 <= i < |series| && series[i].windSpeed.Some?
    ensures r.Some? ==>
              var window := FilterByDate(series, nowLocal, start, end);
              && r.value.xRange == PlottedRange(window).value
              && r.value.yRange == WindAxis(series).value
              && r.value.bucketMinutes == BucketMinutes(window)
              && r.value.shading == ShadeRange(r.value.xRange.lo, r.value.xRange.hi, sunrise, sunset)
  {
    var window := FilterByDate(series, nowLocal, start, end);
    match (PlottedRange(window), WindAxis(series))
    case (Some(plotted), Some(axis)) =>
      Some(WindChart(plotted, axis, BucketMinutes(window), ShadeRange(plotted.lo, plotted.hi, sunrise, sunset)))
    case _ => None
  }

  datatype RainChart = RainChart(
    xRange: Range<Time>,
    yRange: Range<real>,
    observed: seq<Row>,
    predicted: seq<Row>,
    shading: seq<DayShade>)

  /** make_rain_fig: null only when nothing is in the plotted range. */
  function RainfallChart(series: seq<Row>, nowLocal: Time, start: Option<Time>, end: Option<Time>,
                         sunrise: int -> Time, sunset: int -> Time): (r: Option<RainChart>)
    ensures r.Some? <==> |FilterByDate(series, nowLocal, start, end)| > 0
    ensures r.Some? ==>
              var window := FilterByDate(series, nowLocal, start, end);
              && r.value.xRange == PlottedRange(window).value
              && r.value.yRange == RainAxis(series)
              && r.value.shading == ShadeRange(r.value.xRange.lo, r.value.xRange.hi, sunrise, sunset)
              && r.value.observed == Filter(window, (row: Row) => row.IsObserved())
              && r.value.predicted == Filter(window, (row: Row) => row.IsForecast())
              && (forall row :: row in r.value.observed <==> row in window && row.IsObserved())
              && (forall row :: row in r.value.predicted <==> row in window && row.IsForecast())
  {
    var window := FilterByDate(series, nowLocal, start, end);
    match PlottedRange(window)
    case Some(plotted) =>
      Some(RainChart(
        plotted,
        RainAxis(series),
        Filter(window, (row: Row) => row.IsObserved()),
        Filter(window, (row: Row) => row.IsForecast()),
        ShadeRange(plotted.lo, plotted.hi, sunrise, sunset)))
    case None => None
  }
}
