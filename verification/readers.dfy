/**
 * The two log readers of the dashboard and their concatenation into one
 * weather series (dashboard/weather_dash_polars.py, read_weather_observations,
 * read_weather_predictions, make_weather_df).
 */
module Readers {
  import opened Options
  import opened Times
  import opened Seqs
  import opened Sorting
  import opened Records

  /** Only rows whose id is within this many of the largest id are read. */
  const IdWindow: int := 4000
  /** Observations older than this many days (against the UTC clock) are dropped. */
  const ObservationDays: int := 3

  function ObservationIds(log: seq<Observation>): seq<int> {
    Map(log, (o: Observation) => o.id)
  }

  /** Whether the observation reader keeps `o` from `log`. */
  predicate Retained(log: seq<Observation>, nowUtc: Time, toLocal: Time -> Time, o: Observation) {
    && o.id >= MaxInt(ObservationIds(log)).GetOr(0) - IdWindow
    && toLocal(o.date) > nowUtc - ObservationDays * Day
  }

  function ObservedRow(o: Observation, toLocal: Time -> Time): (row: Row)
    ensures row.IsObserved() && row.precipProb.None?
    ensures row.date == toLocal(o.date)
  {
    Row(toLocal(o.date), o.temp, o.dewpoint, o.windSpeed, o.windDirection, o.gust,
        o.rainHourly, o.rainDaily, o.rainEvent, None, None)
  }

  function ByDateDescending(row: Row): int { -row.date }
  function ByDate(row: Row): int { row.date }

  /**
   * The observation reader: the last 4000 ids, then the last three days,
   * newest first. The comparison mixes the local timestamp with the naive
   * UTC clock, as the source does.
   */
  function ReadObservations(log: seq<Observation>, nowUtc: Time, toLocal: Time -> Time): (r: seq<Row>)
    ensures multiset(r) == multiset(Map(Filter(log, o => Retained(log, nowUtc, toLocal, o)), o => ObservedRow(o, toLocal)))
    ensures forall i, j :: 0 <= i < j < |r| ==> r[i].date >= r[j].date
    ensures forall i :: 0 <= i < |r| ==> r[i].IsObserved() && r[i].precipProb.None?
  {
    var kept := Filter(log, o => Retained(log, nowUtc, toLocal, o));
    var rows := Map(kept, o => ObservedRow(o, toLocal));
    SortKeeps(rows, ByDateDescending, (row: Row) => row.IsObserved() && row.precipProb.None?);
    SortBy(rows, ByDateDescending)
  }

  /** Every retained observation is among the rows read, in local time. */
  lemma ReadObservationsExactly(log: seq<Observation>, nowUtc: Time, toLocal: Time -> Time, o: Observation)
    ensures o in log && Retained(log, nowUtc, toLocal, o) ==> ObservedRow(o, toLocal) in ReadObservations(log, nowUtc, toLocal)
  {
    if o in log && Retained(log, nowUtc, toLocal, o) {
      var kept := Filter(log, o => Retained(log, nowUtc, toLocal, o));
      var rows := Map(kept, o => ObservedRow(o, toLocal));
      var k :| 0 <= k < |kept| && kept[k] == o;
      assert rows[k] == ObservedRow(o, toLocal);
      assert ObservedRow(o, toLocal) in multiset(rows);
    }
  }

  lemma ReadObservationsOnly(log: seq<Observation>, nowUtc: Time, toLocal: Time -> Time, row: Row)
    requires row in ReadObservations(log, nowUtc, toLocal)
    ensures exists o :: o in log && Retained(log, nowUtc, toLocal, o) && ObservedRow(o, toLocal) == row
  {
    var kept := Filter(log, o => Retained(log, nowUtc, toLocal, o));
    var rows := Map(kept, o => ObservedRow(o, toLocal));
    assert row in multiset(rows);
    var k :| 0 <= k < |rows| && rows[k] == row;
    assert kept[k] in kept;
  }

  /** `utcnow() - timedelta(minutes=utcnow().minute)`: the clock with its minutes zeroed, seconds kept. */
  function ForecastCutoff(nowUtc: Time): (c: Time)
    ensures DayNumber(c) == DayNumber(nowUtc) && HourOf(c) == HourOf(nowUtc)
    ensures MinuteOf(c) == 0 && c <= nowUtc
    ensures TimeOfDay(c) % Minute == TimeOfDay(nowUtc) % Minute
  {
    var c := nowUtc - MinuteOf(nowUtc) * Minute;
    assert TimeOfDay(nowUtc) == HourOf(nowUtc) * Hour + MinuteOf(nowUtc) * Minute + TimeOfDay(nowUtc) % Minute;
    DayOfOffset(DayNumber(nowUtc), TimeOfDay(nowUtc) - MinuteOf(nowUtc) * Minute);
    c
  }

  function LatestUpdate(log: seq<StoredPrediction>): Option<Time> {
    MaxInt(Map(log, (p: StoredPrediction) => p.updated))
  }

  /** Whether the forecast reader keeps `p`: newest batch, period starting after the cutoff. */
  predicate Current(log: seq<StoredPrediction>, nowUtc: Time, p: StoredPrediction) {
    LatestUpdate(log) == Some(p.updated) && p.startTime > ForecastCutoff(nowUtc)
  }

  function PredictedRow(p: StoredPrediction, toLocal: Time -> Time): (row: Row)
    ensures row.IsForecast() && row.gust.None? && row.rainDaily.None?
    ensures row.date == toLocal(p.startTime)
  {
    Row(toLocal(p.startTime), Some(p.temperature as real), IntReading(p.dewpoint),
        Some(p.windSpeed as real), IntReading(p.windDirection), None, None, None, None,
        p.precipProb, Some(true))
  }

  /** The forecast reader: the newest batch's periods not yet elapsed, oldest first. */
  function ReadPredictions(log: seq<StoredPrediction>, nowUtc: Time, toLocal: Time -> Time): (r: seq<Row>)
    ensures multiset(r) == multiset(Map(Filter(log, p => Current(log, nowUtc, p)), p => PredictedRow(p, toLocal)))
    ensures forall i, j :: 0 <= i < j < |r| ==> r[i].date <= r[j].date
    ensures forall i :: 0 <= i < |r| ==> r[i].IsForecast()
  {
    var kept := Filter(log, p => Current(log, nowUtc, p));
    var rows := Map(kept, p => PredictedRow(p, toLocal));
    SortKeeps(rows, ByDate, (row: Row) => row.IsForecast());
    SortBy(rows, ByDate)
  }

  /** Every forecast row read belongs to the newest batch and starts after the cutoff. */
  lemma ReadPredictionsOnlyLatest(log: seq<StoredPrediction>, nowUtc: Time, toLocal: Time -> Time, row: Row)
    requires row in ReadPredictions(log, nowUtc, toLocal)
    ensures exists p :: && p in log && PredictedRow(p, toLocal) == row
                        && (forall q :: q in log ==> q.updated <= p.updated)
                        && p.startTime > ForecastCutoff(nowUtc)
  {
    var kept := Filter(log, p => Current(log, nowUtc, p));
    var rows := Map(kept, p => PredictedRow(p, toLocal));
    assert row in multiset(rows);
    var k :| 0 <= k < |rows| && rows[k] == row;
    var p := kept[k];
    assert p in kept;
    forall q | q in log ensures q.updated <= p.updated {
      var j :| 0 <= j < |log| && log[j] == q;
      assert Map(log, (p: StoredPrediction) => p.updated)[j] == q.updated;
    }
  }

  /** Every period of the newest batch that starts after the cutoff is read. */
  lemma ReadPredictionsExactly(log: seq<StoredPrediction>, nowUtc: Time, toLocal: Time -> Time, p: StoredPrediction)
    requires p in log && p.startTime > ForecastCutoff(nowUtc)
    requires forall q :: q in log ==> q.updated <= p.updated
    ensures PredictedRow(p, toLocal) in ReadPredictions(log, nowUtc, toLocal)
  {
    var times := Map(log, (q: StoredPrediction) => q.updated);
    var j :| 0 <= j < |log| && log[j] == p;
    assert times[j] == p.updated;
    var latest := LatestUpdate(log).value;
    var m :| 0 <= m < |times| && times[m] == latest;
    assert log[m] in log;
    assert Current(log, nowUtc, p);
    var kept := Filter(log, q => Current(log, nowUtc, q));
    var rows := Map(kept, q => PredictedRow(q, toLocal));
    var k :| 0 <= k < |kept| && kept[k] == p;
    assert rows[k] == PredictedRow(p, toLocal);
    assert PredictedRow(p, toLocal) in multiset(rows);
  }

  /** `pl.concat([observations, predictions], how="diagonal")`. */
  function MergeSeries(observed: seq<Row>, predicted: seq<Row>): (r: seq<Row>)
    requires forall i :: 0 <= i < |observed| ==> observed[i].IsObserved()
    requires forall i :: 0 <= i < |predicted| ==> predicted[i].IsForecast()
    ensures |r| == |observed| + |predicted|
    ensures forall i :: 0 <= i < |r| ==> (r[i].IsObserved() <==> i < |observed|)
    ensures forall i :: 0 <= i < |r| ==> (r[i].IsForecast() <==> |observed| <= i)
  {
    var r := observed + predicted;
    forall i | 0 <= i < |r| ensures r[i].IsObserved() <==> i < |observed| {
      if i >= |observed| {
        var k := i - |observed|;
        assert r[i] == predicted[k];
        assert predicted[k].IsForecast();
      }
    }
    r
  }

  /** Splitting the merged series on its provenance flag gives back the two inputs. */
  lemma MergeSplitsByProvenance(observed: seq<Row>, predicted: seq<Row>)
    requires forall i :: 0 <= i < |observed| ==> observed[i].IsObserved()
    requires forall i :: 0 <= i < |predicted| ==> predicted[i].IsForecast()
    ensures Filter(MergeSeries(observed, predicted), (row: Row) => row.IsObserved()) == observed
    ensures Filter(MergeSeries(observed, predicted), (row: Row) => row.IsForecast()) == predicted
  {
    var isObserved := (row: Row) => row.IsObserved();
    var isForecast := (row: Row) => row.IsForecast();
    FilterConcat(observed, predicted, isObserved);
    FilterConcat(observed, predicted, isForecast);
    FilterNone(predicted, isObserved);
    FilterAll(predicted, isForecast);
    FilterAll(observed, isObserved);
    FilterNone(observed, isForecast);
    assert Filter(observed + predicted, isObserved) == observed + [];
    assert Filter(observed + predicted, isForecast) == [] + predicted;
  }

  /** make_weather_df: observations (newest first) followed by the current forecast (oldest first). */
  function WeatherSeries(observations: seq<Observation>, predictions: seq<StoredPrediction>,
                         nowUtc: Time, toLocal: Time -> Time): (r: seq<Row>)
    ensures |r| == |ReadObservations(observations, nowUtc, toLocal)| + |ReadPredictions(predictions, nowUtc, toLocal)|
    ensures forall i :: 0 <= i < |r| ==> (r[i].IsObserved() <==> i < |ReadObservations(observations, nowUtc, toLocal)|)
    ensures forall i :: 0 <= i < |r| ==> r[i].IsObserved() || r[i].IsForecast()
  {
    MergeSeries(ReadObservations(observations, nowUtc, toLocal), ReadPredictions(predictions, nowUtc, toLocal))
  }

  /** The chart traces split the series back into what each reader produced. */
  lemma WeatherSeriesSplits(observations: seq<Observation>, predictions: seq<StoredPrediction>,
                            nowUtc: Time, toLocal: Time -> Time)
    ensures var r := WeatherSeries(observations, predictions, nowUtc, toLocal);
            && Filter(r, (row: Row) => row.IsObserved()) == ReadObservations(observations, nowUtc, toLocal)
            && Filter(r, (row: Row) => row.IsForecast()) == ReadPredictions(predictions, nowUtc, toLocal)
  {
    MergeSplitsByProvenance(ReadObservations(observations, nowUtc, toLocal), ReadPredictions(predictions, nowUtc, toLocal));
  }
}
