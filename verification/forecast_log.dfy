/**
 * One run of the forecast job (tasks/get_nws_forecast.py): decide whether a
 * fetched hourly forecast is newer than the stored batches, convert its
 * periods, give new texts and icons their ids, and append the periods to
 * the predictions log.
 */
module ForecastLog {
  import opened Options
  import opened Seqs
  import opened Times
  import opened Records
  import opened Conversions
  import opened Lookups
  import Readers

  /** One hourly period as the forecast service sends it, with its times already parsed. */
  datatype Period = Period(
    number: int,
    startTime: Time,
    endTime: Time,
    isDaytime: bool,
    temperature: int,
    precipProb: Option<int>,
    dewpointCelsius: Option<real>,
    windSpeed: string,
    windDirection: string,
    icon: string,
    shortForecast: string)

  /** The three CSV tables the job maintains. */
  datatype Store = Store(predictions: seq<StoredPrediction>, descriptions: seq<Entry>, icons: seq<Entry>)

  datatype Outcome = UpToDate | FrameFailed | Appended

  /** How far back the acceptance baseline lies when no batch is stored. */
  const BaselineAge: int := 365 * Day

  /** The stored batches' latest update time, or a year before now when the log is empty. */
  function Baseline(log: seq<StoredPrediction>, nowUtc: Time): (b: Time)
    ensures |log| == 0 ==> b == nowUtc - BaselineAge
    ensures forall i :: 0 <= i < |log| ==> log[i].updated <= b
    ensures |log| > 0 ==> exists i :: 0 <= i < |log| && log[i].updated == b
  {
    var times := Map(log, (p: StoredPrediction) => p.updated);
    assert forall i :: 0 <= i < |log| ==> times[i] == log[i].updated;
    match Readers.LatestUpdate(log)
    case Some(latest) => latest
    case None => nowUtc - BaselineAge
  }

  /** A fetched forecast is processed only when its update time is strictly after the baseline. */
  predicate Accepts(log: seq<StoredPrediction>, updated: Time, nowUtc: Time) {
    updated > Baseline(log, nowUtc)
  }

  /** With batches stored, a forecast is accepted exactly when it is newer than every stored row. */
  lemma AcceptsNewer(log: seq<StoredPrediction>, updated: Time, nowUtc: Time)
    requires |log| > 0
    ensures Accepts(log, updated, nowUtc) <==> forall i :: 0 <= i < |log| ==> log[i].updated < updated
  {
    var i :| 0 <= i < |log| && log[i].updated == Baseline(log, nowUtc);
  }

  /** Whether every period survives the checked casts of `make_forecast_frames`. */
  predicate Convertible(p: Period) {
    && ParseWindSpeed(p.windSpeed).Ok?
    && DewpointFahrenheit(p.dewpointCelsius).Ok?
    && CastInt8Cell(p.precipProb).Ok?
  }

  /**
   * The converted period joined onto the two tables, before the text
   * columns are dropped.
   */
  function FrameRow(p: Period, updated: Time, descriptions: seq<Entry>, icons: seq<Entry>): (r: StoredPrediction)
    requires Convertible(p)
    ensures r.number == p.number && r.startTime == p.startTime && r.endTime == p.endTime
    ensures r.temperature == p.temperature && r.isDaytime == p.isDaytime
    ensures r.updated == updated
    ensures ParseWindSpeed(p.windSpeed) == Ok(r.windSpeed)
    ensures r.windDirection == CompassDegrees(p.windDirection)
    ensures DewpointFahrenheit(p.dewpointCelsius) == Ok(r.dewpoint)
    ensures r.precipProb == p.precipProb
    ensures r.descriptionId == Lookup(descriptions, p.shortForecast)
    ensures r.iconId == Lookup(icons, p.icon)
  {
    StoredPrediction(
      0, p.number, p.startTime, p.endTime, p.isDaytime, p.temperature,
      CastInt8Cell(p.precipProb).value,
      DewpointFahrenheit(p.dewpointCelsius).value,
      ParseWindSpeed(p.windSpeed).value,
      CompassDegrees(p.windDirection),
      updated,
      Lookup(descriptions, p.shortForecast),
      Lookup(icons, p.icon))
  }

  /** The frame fails as a whole when any one period fails a cast. */
  function MakeFrame(periods: seq<Period>, updated: Time, descriptions: seq<Entry>, icons: seq<Entry>)
    : (r: Converted<seq<StoredPrediction>>)
    ensures r.Ok? <==> forall i :: 0 <= i < |periods| ==> Convertible(periods[i])
    ensures r.Ok? ==> |r.value| == |periods|
    ensures r.Ok? ==> forall i :: 0 <= i < |periods| ==> r.value[i] == FrameRow(periods[i], updated, descriptions, icons)
  {
    if forall i :: 0 <= i < |periods| ==> Convertible(periods[i]) then
      Ok(seq(|periods|, i requires 0 <= i < |periods| => FrameRow(periods[i], updated, descriptions, icons)))
    else CastError
  }

  /** The largest prediction id in the log, 0 when it is empty. */
  function MaxPredictionId(log: seq<StoredPrediction>): (m: int)
    ensures |log| == 0 ==> m == 0
    ensures forall i :: 0 <= i < |log| ==> log[i].id <= m
    ensures |log| > 0 ==> exists i :: 0 <= i < |log| && log[i].id == m
  {
    var ids := Map(log, (p: StoredPrediction) => p.id);
    assert forall i :: 0 <= i < |log| ==> ids[i] == log[i].id;
    MaxInt(ids).GetOr(0)
  }

  /** `add_new_predictions`: id = period number + the log's largest id; the log's rows come first. */
  function AddNewPredictions(log: seq<StoredPrediction>, frame: seq<StoredPrediction>): (r: seq<StoredPrediction>)
    ensures |r| == |log| + |frame|
    ensures log <= r
    ensures forall i :: |log| <= i < |r| ==>
              r[i] == frame[i - |log|].(id := frame[i - |log|].number + MaxPredictionId(log))
  {
    var base := MaxPredictionId(log);
    log + seq(|frame|, i requires 0 <= i < |frame| => frame[i].(id := frame[i].number + base))
  }

  /** Period numbers start at 1, so every appended id is larger than every stored one. */
  lemma NewPredictionIdsFresh(log: seq<StoredPrediction>, frame: seq<StoredPrediction>)
    requires forall i :: 0 <= i < |frame| ==> frame[i].number >= 1
    ensures var r := AddNewPredictions(log, frame);
            forall i, j :: 0 <= i < |log| <= j < |r| ==> r[i].id < r[j].id
  {
    var r := AddNewPredictions(log, frame);
    forall i, j | 0 <= i < |log| <= j < |r|
      ensures r[i].id < r[j].id
    {
      assert r[i] == log[i];
      assert r[j].id == frame[j - |log|].number + MaxPredictionId(log);
    }
  }

  /** Distinct period numbers in one batch give distinct ids. */
  lemma NewPredictionIdsDistinct(log: seq<StoredPrediction>, frame: seq<StoredPrediction>)
    requires forall i, j :: 0 <= i < j < |frame| ==> frame[i].number != frame[j].number
    ensures var r := AddNewPredictions(log, frame);
            forall i, j :: |log| <= i < j < |r| ==> r[i].id != r[j].id
  {
    var r := AddNewPredictions(log, frame);
    forall i, j | |log| <= i < j < |r|
      ensures r[i].id != r[j].id
    {
      assert r[i].id == frame[i - |log|].number + MaxPredictionId(log);
      assert r[j].id == frame[j - |log|].number + MaxPredictionId(log);
    }
  }

  function ShortForecasts(periods: seq<Period>): (r: seq<string>)
    ensures |r| == |periods| && forall i :: 0 <= i < |periods| ==> r[i] == periods[i].shortForecast
  {
    Map(periods, (p: Period) => p.shortForecast)
  }

  function Icons(periods: seq<Period>): (r: seq<string>)
    ensures |r| == |periods| && forall i :: 0 <= i < |periods| ==> r[i] == periods[i].icon
  {
    Map(periods, (p: Period) => p.icon)
  }

  /**
   * The frame built against tables that already hold every text and icon
   * of the batch, appended to the log; the tables are stored as given.
   */
  function AppendFrame(store: Store, periods: seq<Period>, updated: Time, descriptions: seq<Entry>, icons: seq<Entry>)
    : (r: Store)
    requires forall i :: 0 <= i < |periods| ==> Convertible(periods[i])
    ensures r.descriptions == descriptions && r.icons == icons
    ensures store.predictions <= r.predictions
    ensures |r.predictions| == |store.predictions| + |periods|
    ensures forall i :: |store.predictions| <= i < |r.predictions| ==> r.predictions[i].updated == updated
    ensures Resolves(periods, descriptions, icons) ==>
              forall i :: |store.predictions| <= i < |r.predictions| ==>
                r.predictions[i].descriptionId.Some? && r.predictions[i].iconId.Some?
  {
    var frame := MakeFrame(periods, updated, descriptions, icons).value;
    if Resolves(periods, descriptions, icons) then
      FrameResolved(periods, updated, descriptions, icons);
      Store(AddNewPredictions(store.predictions, frame), descriptions, icons)
    else
      Store(AddNewPredictions(store.predictions, frame), descriptions, icons)
  }

  /** Every text and icon of the batch has an id in the tables. */
  predicate Resolves(periods: seq<Period>, descriptions: seq<Entry>, icons: seq<Entry>) {
    && (forall t :: t in ShortForecasts(periods) ==> Lookup(descriptions, t).Some?)
    && (forall t :: t in Icons(periods) ==> Lookup(icons, t).Some?)
  }

  /**
   * The accepted branch as the job runs it: new texts and icons get ids by
   * `add_new_forecast_descriptions` and `add_new_forecast_icons`, the frame
   * is rebuilt against the grown tables (the rebuilt frame is the same one
   * when neither grew), and the periods are appended to the log. Texts stay
   * unique; ids need not (see `AppendBatchReusesId`).
   */
  function AppendBatch(store: Store, periods: seq<Period>, updated: Time): (r: Store)
    requires forall i :: 0 <= i < |periods| ==> Convertible(periods[i])
    ensures store.predictions <= r.predictions
    ensures store.descriptions <= r.descriptions && store.icons <= r.icons
    ensures |r.predictions| == |store.predictions| + |periods|
    ensures forall i :: |store.predictions| <= i < |r.predictions| ==>
              && r.predictions[i].updated == updated
              && r.predictions[i].descriptionId.Some?
              && r.predictions[i].iconId.Some?
    ensures UniqueTexts(store.descriptions) ==> UniqueTexts(r.descriptions)
    ensures UniqueTexts(store.icons) ==> UniqueTexts(r.icons)
  {
    var descriptions := AddNewTexts(store.descriptions, ShortForecasts(periods)).1;
    var icons := AddNewTexts(store.icons, Icons(periods)).1;
    AppendFrame(store, periods, updated, descriptions, icons)
  }

  /**
   * With descriptions stored and a batch bringing a new short forecast, the
   * job stores that text under an id an older text already holds.
   */
  lemma AppendBatchReusesId(store: Store, periods: seq<Period>, updated: Time)
    requires forall i :: 0 <= i < |periods| ==> Convertible(periods[i])
    requires |store.descriptions| > 0
    requires exists i :: 0 <= i < |periods| && Lookup(store.descriptions, periods[i].shortForecast).None?
    ensures var d := AppendBatch(store, periods, updated).descriptions;
            exists i, j :: 0 <= i < j < |d| && d[i].id == d[j].id && d[i].text != d[j].text
  {
    var texts := ShortForecasts(periods);
    var k :| 0 <= k < |periods| && Lookup(store.descriptions, periods[k].shortForecast).None?;
    assert texts[k] == periods[k].shortForecast;
    AddNewTextsReusesId(store.descriptions, texts);
  }

  /**
   * The same branch with the corrected allocation: new ids start one past
   * the largest, so unique ids stay unique as well as unique texts.
   */
  function AppendBatchCorrected(store: Store, periods: seq<Period>, updated: Time): (r: Store)
    requires forall i :: 0 <= i < |periods| ==> Convertible(periods[i])
    ensures store.predictions <= r.predictions
    ensures store.descriptions <= r.descriptions && store.icons <= r.icons
    ensures |r.predictions| == |store.predictions| + |periods|
    ensures forall i :: |store.predictions| <= i < |r.predictions| ==>
              && r.predictions[i].updated == updated
              && r.predictions[i].descriptionId.Some?
              && r.predictions[i].iconId.Some?
    ensures UniqueIds(store.descriptions) ==> UniqueIds(r.descriptions)
    ensures UniqueTexts(store.descriptions) ==> UniqueTexts(r.descriptions)
    ensures UniqueIds(store.icons) ==> UniqueIds(r.icons)
    ensures UniqueTexts(store.icons) ==> UniqueTexts(r.icons)
  {
    var descriptions := AllocateTexts(store.descriptions, ShortForecasts(periods)).1;
    var icons := AllocateTexts(store.icons, Icons(periods)).1;
    AppendFrame(store, periods, updated, descriptions, icons)
  }

  /**
   * Row k of the appended part is period k converted against the given
   * tables, with id period number + the log's largest id.
   */
  lemma AppendedRows(log: seq<StoredPrediction>, periods: seq<Period>, updated: Time, descriptions: seq<Entry>, icons: seq<Entry>)
    requires forall i :: 0 <= i < |periods| ==> Convertible(periods[i])
    ensures var r := AddNewPredictions(log, MakeFrame(periods, updated, descriptions, icons).value);
            forall k :: 0 <= k < |periods| ==>
              r[|log| + k] == FrameRow(periods[k], updated, descriptions, icons).(id := periods[k].number + MaxPredictionId(log))
  {
    var frame := MakeFrame(periods, updated, descriptions, icons).value;
    var r := AddNewPredictions(log, frame);
    forall k | 0 <= k < |periods|
      ensures r[|log| + k] == FrameRow(periods[k], updated, descriptions, icons).(id := periods[k].number + MaxPredictionId(log))
    {
      var row := frame[k];
      assert row == FrameRow(periods[k], updated, descriptions, icons);
      assert r[|log| + k] == row.(id := row.number + MaxPredictionId(log));
    }
  }

  /**
   * What the job's step stores: the tables as `add_new_forecast_descriptions`
   * and `add_new_forecast_icons` grow them, and each period converted against
   * them, with id period number + the log's largest id.
   */
  lemma AppendBatchRows(store: Store, periods: seq<Period>, updated: Time)
    requires forall i :: 0 <= i < |periods| ==> Convertible(periods[i])
    ensures var r := AppendBatch(store, periods, updated);
            && r.descriptions == AddNewTexts(store.descriptions, ShortForecasts(periods)).1
            && r.icons == AddNewTexts(store.icons, Icons(periods)).1
            && forall k :: 0 <= k < |periods| ==>
                 r.predictions[|store.predictions| + k]
                   == FrameRow(periods[k], updated, r.descriptions, r.icons).(id := periods[k].number + MaxPredictionId(store.predictions))
  {
    AppendBatchUnfolds(store, periods, updated);
    StoredRows(store, periods, updated, AddNewTexts(store.descriptions, ShortForecasts(periods)).1,
               AddNewTexts(store.icons, Icons(periods)).1, AppendBatch(store, periods, updated));
  }

  /** The same for the corrected step, whose tables grow by `AllocateTexts`. */
  lemma AppendBatchCorrectedRows(store: Store, periods: seq<Period>, updated: Time)
    requires forall i :: 0 <= i < |periods| ==> Convertible(periods[i])
    ensures var r := AppendBatchCorrected(store, periods, updated);
            && r.descriptions == AllocateTexts(store.descriptions, ShortForecasts(periods)).1
            && r.icons == AllocateTexts(store.icons, Icons(periods)).1
            && forall k :: 0 <= k < |periods| ==>
                 r.predictions[|store.predictions| + k]
                   == FrameRow(periods[k], updated, r.descriptions, r.icons).(id := periods[k].number + MaxPredictionId(store.predictions))
  {
    AppendBatchCorrectedUnfolds(store, periods, updated);
    StoredRows(store, periods, updated, AllocateTexts(store.descriptions, ShortForecasts(periods)).1,
               AllocateTexts(store.icons, Icons(periods)).1, AppendBatchCorrected(store, periods, updated));
  }

  /** A store built from the frame against `descriptions` and `icons` holds the rows `AppendedRows` gives. */
  lemma StoredRows(store: Store, periods: seq<Period>, updated: Time, descriptions: seq<Entry>, icons: seq<Entry>, r: Store)
    requires forall i :: 0 <= i < |periods| ==> Convertible(periods[i])
    requires r == Store(AddNewPredictions(store.predictions, MakeFrame(periods, updated, descriptions, icons).value), descriptions, icons)
    ensures r.descriptions == descriptions && r.icons == icons
    ensures forall k :: 0 <= k < |periods| ==>
              r.predictions[|store.predictions| + k]
                == FrameRow(periods[k], updated, r.descriptions, r.icons).(id := periods[k].number + MaxPredictionId(store.predictions))
  {
    AppendedRows(store.predictions, periods, updated, descriptions, icons);
  }

  lemma AppendBatchUnfolds(store: Store, periods: seq<Period>, updated: Time)
    requires forall i :: 0 <= i < |periods| ==> Convertible(periods[i])
    ensures var descriptions := AddNewTexts(store.descriptions, ShortForecasts(periods)).1;
            var icons := AddNewTexts(store.icons, Icons(periods)).1;
            AppendBatch(store, periods, updated)
              == Store(AddNewPredictions(store.predictions, MakeFrame(periods, updated, descriptions, icons).value), descriptions, icons)
  {
  }

  lemma AppendBatchCorrectedUnfolds(store: Store, periods: seq<Period>, updated: Time)
    requires forall i :: 0 <= i < |periods| ==> Convertible(periods[i])
    ensures var descriptions := AllocateTexts(store.descriptions, ShortForecasts(periods)).1;
            var icons := AllocateTexts(store.icons, Icons(periods)).1;
            AppendBatchCorrected(store, periods, updated)
              == Store(AddNewPredictions(store.predictions, MakeFrame(periods, updated, descriptions, icons).value), descriptions, icons)
  {
  }

  /** Once every text and icon of the batch is in the tables, every frame row carries both ids. */
  lemma FrameResolved(periods: seq<Period>, updated: Time, descriptions: seq<Entry>, icons: seq<Entry>)
    requires forall i :: 0 <= i < |periods| ==> Convertible(periods[i])
    requires Resolves(periods, descriptions, icons)
    ensures var frame := MakeFrame(periods, updated, descriptions, icons).value;
            forall i :: 0 <= i < |frame| ==>
              frame[i].updated == updated && frame[i].descriptionId.Some? && frame[i].iconId.Some?
  {
    var frame := MakeFrame(periods, updated, descriptions, icons).value;
    forall i | 0 <= i < |frame|
      ensures frame[i].updated == updated && frame[i].descriptionId.Some? && frame[i].iconId.Some?
    {
      assert periods[i].shortForecast == ShortForecasts(periods)[i];
      assert periods[i].icon == Icons(periods)[i];
    }
  }

  /**
   * One run of the job on a fetched forecast: a stale forecast and a failed
   * cast leave every table as it was.
   */
  function UpdateStore(store: Store, periods: seq<Period>, updated: Time, nowUtc: Time): (r: (Outcome, Store))
    ensures r.0 == UpToDate <==> !Accepts(store.predictions, updated, nowUtc)
    ensures r.0 == FrameFailed <==>
              Accepts(store.predictions, updated, nowUtc) && exists i :: 0 <= i < |periods| && !Convertible(periods[i])
    ensures r.0 != Appended ==> r.1 == store
    ensures r.0 == Appended ==> r.1 == AppendBatch(store, periods, updated)
  {
    if !Accepts(store.predictions, updated, nowUtc) then (UpToDate, store)
    else if forall i :: 0 <= i < |periods| ==> Convertible(periods[i]) then
      (Appended, AppendBatch(store, periods, updated))
    else (FrameFailed, store)
  }

  /** Running the job again on the forecast it has just stored changes nothing. */
  lemma UpdateStoreIdempotent(store: Store, periods: seq<Period>, updated: Time, nowUtc: Time, laterUtc: Time)
    requires |periods| > 0
    ensures var r := UpdateStore(store, periods, updated, nowUtc);
            r.0 == Appended ==> UpdateStore(r.1, periods, updated, laterUtc) == (UpToDate, r.1)
  {
    var r := UpdateStore(store, periods, updated, nowUtc);
    if r.0 == Appended {
      var log := r.1.predictions;
      var k := |store.predictions|;
      assert log[k].updated == updated;
      AcceptsNewer(log, updated, laterUtc);
    }
  }
}
