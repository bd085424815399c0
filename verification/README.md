# Weather dashboard and forecast log: a Dafny model

This project models the data rules of a home weather station's dashboard and of
its hourly forecast job, and proves properties of them.

- **Dashboard** (`dashboard/weather_dash_polars.py`):
  - It reads the observation log and the forecast predictions log, and merges them into one
    time-keyed series. A `PREDICTION` flag is null on observed rows and true on forecast rows.
  - It clips the series to a plotted window.
  - It computes the daily high/low annotations, the axis ranges, the wind-bucket width, the
    32° line, and the day/night shading rectangles.
  - It picks the thermometer colour.
- **Forecast job** (`tasks/get_nws_forecast.py`):
  - It accepts a fetched hourly forecast only when it is newer than the stored batches.
  - It converts the forecast's periods: compass points to degrees, "12 mph" to 12, and the
    dewpoint from °C to a whole °F.
  - It gives new forecast texts and icon URLs ids in two lookup tables.
  - It appends the periods to the predictions log.

Times are integers counting microseconds, so that `datetime.replace`, which keeps
the microsecond, can be modelled exactly. Polars nulls are `Option`. A checked
polars cast that can fail is a `Converted` value (`Ok` or `CastError`). Figures
that the source cannot build (it catches the exception and returns `None`) are
`Option` results.

Modules, following the program's structure:

| file | module | what |
|---|---|---|
| options.dfy | Options | `Option` |
| times.dfy | Times | day number, clock fields, `replace`, day of month |
| seqs.dfy | Seqs | filter, map, unique, null-skipping max/min |
| sorting.dfy | Sorting | stable sort by key |
| records.dfy | Records | observation row, stored prediction, merged series row |
| readers.dfy | Readers | the two log readers and the merge |
| window.dfy | Window | the plotted window |
| extremes.dfy | Extremes | daily highs and lows |
| shading.dfy | Shading | night shading rectangles |
| charts.dfy | Charts | axis ranges, bucket width, when a figure exists |
| gauges.dfy | Gauges | thermometer colour |
| conversions.dfy | Conversions | the forecast column transforms and casts |
| lookups.dfy | Lookups | the description and icon tables |
| forecast_log.dfy | ForecastLog | batch acceptance, id allocation, one run of the job |

## Where the model follows the code rather than the documented behaviour

- **Forecast cutoff.** The forecast reader keeps periods whose start is strictly after
  `utcnow − utcnow.minute minutes`. That is the current time with its minutes zeroed but its
  seconds and microseconds kept, not the top of the hour.
- **Observation age filter.** The observation reader compares the local-time `datect` with a
  naive UTC "now − 3 days". The model keeps this mix: `toLocal(date) > nowUtc − 3 days`.
- **Wind axis.** The wind axis top is the maximum wind speed over the whole series, forecast
  rows included, not only the observed rows.
- **Annotation visibility.** A high/low marker is drawn only when
  `first plotted time < time ≤ last plotted time`. A marker exactly at the first plotted time
  is not drawn.
- **Default window.** The default window starts yesterday at 00:00:01 with the microsecond of
  `now` kept. It ends tomorrow at 23:59:59.009999.
- **Id allocation.** New description and icon ids start at the table's current maximum, so the
  first new id repeats an existing one (see Findings). The job (`ForecastLog.AppendBatch` and
  `ForecastLog.UpdateStore`) is modelled with this rule. `ForecastLog.AppendBatchCorrected` is
  the same step with new ids starting one past the maximum.

## Model

| member | source | states |
|---|---|---|
| Times.TruncateSeconds | dashboard/weather_dash_polars.py:467 | setting the seconds to 0 keeps the day, the hour, the minute and the microsecond, leaves 0 seconds on the clock, and moves back by less than a minute |
| Readers.ReadObservations | dashboard/weather_dash_polars.py:148-218 | the rows read are, as a multiset, the retained observations (id at least max id − 4000, local date later than UTC now − 3 days) in local time; newest first; every row has a null prediction flag and no rain probability |
| Readers.ReadObservationsExactly | dashboard/weather_dash_polars.py:152-190 | every retained observation appears among the rows read |
| Readers.ReadObservationsOnly | dashboard/weather_dash_polars.py:152-190 | every row read comes from a retained observation |
| Readers.ForecastCutoff | dashboard/weather_dash_polars.py:249-250 | the cutoff is in the same day and hour as now, at minute 0, keeps now's seconds and microseconds, and is not after now |
| Readers.ReadPredictions | dashboard/weather_dash_polars.py:224-290 | the rows read are, as a multiset, the periods of the newest batch starting after the cutoff; oldest first; all flagged as forecast |
| Readers.ReadPredictionsExactly | dashboard/weather_dash_polars.py:231-252 | every period of the newest batch that starts after the cutoff is among the rows read |
| Readers.ReadPredictionsOnlyLatest | dashboard/weather_dash_polars.py:231-252 | every forecast row read comes from a period whose update time is the log's latest and whose start is after the cutoff |
| Readers.MergeSeries | dashboard/weather_dash_polars.py:293-298 | the merged series has as many rows as both inputs; a row is observed exactly when it comes from the first input, and a forecast exactly when it comes from the second |
| Readers.MergeSplitsByProvenance | dashboard/weather_dash_polars.py:293-298 | filtering the merged series on its flag gives back each input unchanged and in order |
| Readers.WeatherSeries | dashboard/weather_dash_polars.py:293-298 | the series is the observation rows followed by the forecast rows; every row is one or the other |
| Readers.WeatherSeriesSplits | dashboard/weather_dash_polars.py:293-298 | the observed and forecast traces of the charts are exactly what the two readers produced |
| Window.DefaultStart | dashboard/weather_dash_polars.py:439-445 | the default start is on the previous day, one second after midnight, with now's microsecond |
| Window.DefaultEnd | dashboard/weather_dash_polars.py:447-451 | the default end is on the next day at 23:59:59.009999 |
| Window.FilterByDate | dashboard/weather_dash_polars.py:453-455 | a row is in the window exactly when it is in the series and dated within the inclusive bounds |
| Window.FilterByDateConcat | dashboard/weather_dash_polars.py:453-455 | windowing commutes with concatenation, so it keeps series order |
| Window.FilterByDateIdempotent | dashboard/weather_dash_polars.py:453-455 | windowing twice is windowing once |
| Window.DefaultRangeDays | dashboard/weather_dash_polars.py:439-455 | with default bounds, every time today is in the window, yesterday after 00:00:02 and tomorrow before 23:59:59 too, and no other day is |
| Extremes.ExtremeIsExtreme | dashboard/weather_dash_polars.py:306-312 | a day's aggregate exists exactly when the day has a non-null reading, and then it is attained and no reading of that day beats it |
| Extremes.AnnotationOfSpec | dashboard/weather_dash_polars.py:314-327 | a day's annotation exists exactly when the day has a reading; it holds the extreme value at the first row of that day holding it |
| Extremes.GroupKeys | dashboard/weather_dash_polars.py:306 | the groups are the distinct day keys of the series, each once |
| Extremes.AnnotationsFollowGroups | dashboard/weather_dash_polars.py:313-327 | the annotations are those of the groups with a reading, one each, in group order |
| Extremes.AnnotationsByKeySpec | dashboard/weather_dash_polars.py:304-329 | one annotation per key with a reading and none for other keys; keys distinct; each value extreme for its key and placed at its first occurrence |
| Extremes.DailyAnnotationsSpec | dashboard/weather_dash_polars.py:304-329 | the same, with the day of the month as the key |
| Shading.DaysVisited | dashboard/weather_dash_polars.py:469 | the count is the whole days from start to end, rounded down, plus 2: none when the end is more than a day before the start, at least two for a non-empty range |
| Shading.ShadeDay | dashboard/weather_dash_polars.py:470-585 | the morning band is midnight to sunrise clipped to the range, the evening band is sunset to 23:59:59 clipped to it; each band starts no earlier than the range's start and ends no later than its end (on the last day the morning band can start after the range ends); each line is drawn exactly under its comparison, at midnight, sunrise and sunset respectively |
| Shading.ShadeRange | dashboard/weather_dash_polars.py:462-470 | one shade per visited day, counted from the start with its seconds zeroed |
| Shading.ShadeRangeDays | dashboard/weather_dash_polars.py:467-474 | the k-th shade is that of the k-th calendar day after the start, at the start's clock: its bands, and its midnight, sunrise and sunset lines with the comparisons that draw them |
| Shading.ShadeRangeCoversDays | dashboard/weather_dash_polars.py:467-470 | every calendar day from the range's first to its last gets a shade |
| Charts.PlottedRange | dashboard/weather_dash_polars.py:604-605 | there is a plotted range exactly when the window is non-empty; both ends are dates of the window and bound all its dates |
| Charts.BucketMinutes | dashboard/weather_dash_polars.py:733-744 | the bucket width is at least 2 minutes; 15 for a span of at most 15 minutes; otherwise the span divided by 180 minutes, rounded down, but at least 2 |
| Charts.TempAxis | dashboard/weather_dash_polars.py:608-609 | the temperature axis exists exactly when the series has a dewpoint and a temperature; it runs from the lowest dewpoint − 5 to the highest temperature + 5, both attained |
| Charts.FreezingLineWhen | dashboard/weather_dash_polars.py:703-704 | the 32° line is drawn exactly when some dewpoint is below 37 and some temperature above 27 |
| Charts.WindAxis | dashboard/weather_dash_polars.py:760-761 | the wind axis exists exactly when the series has a wind speed; it runs from 0 to the highest speed + 2, attained |
| Charts.RainAxis | dashboard/weather_dash_polars.py:841-845 | the rain axis runs from 0 to the highest daily rain + 1, or to 1 with no daily rain |
| Charts.VisibleAnnotations | dashboard/weather_dash_polars.py:681 | an annotation is drawn exactly when its time is after the first plotted time and not after the last |
| Charts.TemperatureChart | dashboard/weather_dash_polars.py:597-715 | the temperature chart exists exactly when the window is non-empty and the series has a dewpoint and a temperature; its ranges, 32° line and visible highs and lows are as above; its shading is that of the plotted range; the observed trace is the window's observed rows and the forecast trace its forecast rows, both in window order |
| Charts.AssembleTempChart | dashboard/weather_dash_polars.py:604-704 | the assembled chart carries the given ranges, the visible daily highs and lows, the 32° line rule, the shading of the plotted range, and traces that are the window's observed and forecast rows in window order |
| Charts.WindSpeedChart | dashboard/weather_dash_polars.py:721-825 | the wind chart exists exactly when the window is non-empty and the series has a wind speed; its x range is the plotted range, its y range the wind axis, its bucket width the one computed from the window, and its shading that of the plotted range |
| Charts.RainfallChart | dashboard/weather_dash_polars.py:831-905 | the rain chart exists exactly when the window is non-empty; its x range is the plotted range, its y range the rain axis, its shading that of the plotted range, and its two traces are the window's observed and forecast rows in window order |
| Gauges.ThermometerColor | dashboard/weather_dash_polars.py:1358-1369 | the colour bands partition the reals: purple below 0, dodgerblue [0,32), green [32,50), yellow [50,70), orange [70,90), red from 90 |
| Gauges.ColorMonotone | dashboard/weather_dash_polars.py:1358-1369 | a warmer reading never gets a colder colour |
| Conversions.CastInt16 | tasks/get_nws_forecast.py:207 | the strict cast succeeds exactly within the 16-bit range and then keeps the value |
| Conversions.CastInt8Cell | tasks/get_nws_forecast.py:217 | the rain probability cast succeeds exactly for null or an 8-bit value, and keeps it |
| Conversions.CompassDegrees | tasks/get_nws_forecast.py:74-83 | exactly the eight principal points map to a degree, a multiple of 45 in [0, 360); any other string maps to null |
| Conversions.CompassRoundTrip | tasks/get_nws_forecast.py:74-83 | the table is a bijection between the eight points and the eight multiples of 45 below 360 |
| Conversions.FirstToken | tasks/get_nws_forecast.py:207 | the first token is a space-free prefix, ended by a space or the string's end |
| Conversions.ParseInt | tasks/get_nws_forecast.py:207 | a string casts to an integer exactly when it is digits, optionally after a minus sign |
| Conversions.ParseWindSpeed | tasks/get_nws_forecast.py:205-207 | the speed is read exactly when the first token is an integer that fits 16 bits, and then it is that integer |
| Conversions.WindSpeedRoundTrip | tasks/get_nws_forecast.py:205-207 | any 16-bit speed written in decimal and followed by a space and a unit reads back unchanged |
| Conversions.Truncate | tasks/get_nws_forecast.py:215 | the float-to-int cast truncates toward zero |
| Conversions.DewpointFahrenheit | tasks/get_nws_forecast.py:215 | a null dewpoint stays null; a present one converts exactly when °C·9/5 + 32, truncated toward zero, fits 16 bits, and then it is that truncated value, within 1 degree of °C·9/5 + 32 |
| Conversions.DewpointMonotone | tasks/get_nws_forecast.py:215 | a higher °C dewpoint never gives a lower stored °F dewpoint |
| Lookups.Lookup | tasks/get_nws_forecast.py:220-226 | the join finds no id exactly when no entry has the text, and otherwise an id stored with that text |
| Lookups.MaxId | tasks/get_nws_forecast.py:112-114 | the table's largest id, attained, or 0 for an empty table |
| Lookups.Unmatched | tasks/get_nws_forecast.py:104-121 | the texts that need an id are those of the batch without an id, each once |
| Lookups.AddNewTexts | tasks/get_nws_forecast.py:103-138 | the table grows exactly when some text lacks an id; the old entries come first, unchanged; the new entries are exactly the distinct texts without an id, in order of first appearance, with ids counting up from the largest old id; afterwards every text of the batch has an id, and unique texts stay unique |
| Lookups.LookupAppend | tasks/get_nws_forecast.py:132-134 | appending entries never changes an id the join already found |
| Lookups.AddNewTextsReusesId | tasks/get_nws_forecast.py:125 | with a non-empty table, the first new entry takes an id already held by a different text |
| Lookups.AddNewTextsCollision | tasks/get_nws_forecast.py:116-134 | a table holding (0, "Sunny") and a batch with "Cloudy" store "Cloudy" under id 0 too |
| Lookups.AllocateTexts | tasks/get_nws_forecast.py:103-138 | the corrected allocation: the same new entries, with ids counting up from one past the largest old id (0 for an empty table); every text then has an id, and unique ids and unique texts stay unique |
| ForecastLog.Baseline | tasks/get_nws_forecast.py:286-295 | the baseline is the stored batches' latest update time, or now − 365 days for an empty log |
| ForecastLog.AcceptsNewer | tasks/get_nws_forecast.py:296-300 | with batches stored, a forecast is accepted exactly when it is strictly newer than every stored row |
| ForecastLog.FrameRow | tasks/get_nws_forecast.py:196-226 | a converted period keeps its number, times, daytime flag, temperature and rain probability, and carries the parsed speed, the compass degrees, the converted dewpoint, the batch's update time and the joined ids |
| ForecastLog.MakeFrame | tasks/get_nws_forecast.py:170-228 | the frame is built exactly when every period survives the casts, and then has one converted row per period |
| ForecastLog.MaxPredictionId | tasks/get_nws_forecast.py:246-248 | the log's largest id, attained, or 0 for an empty log |
| ForecastLog.AddNewPredictions | tasks/get_nws_forecast.py:243-271 | the old rows come first, unchanged; each new row's id is its period number plus the log's largest id |
| ForecastLog.AppendedRows | tasks/get_nws_forecast.py:243-251 | row k of the appended part is period k converted against the given tables, with id period number + the log's largest id |
| ForecastLog.NewPredictionIdsFresh | tasks/get_nws_forecast.py:246-251 | with period numbers from 1, every new id exceeds every stored id |
| ForecastLog.NewPredictionIdsDistinct | tasks/get_nws_forecast.py:250-251 | distinct period numbers give distinct new ids |
| ForecastLog.FrameResolved | tasks/get_nws_forecast.py:314-321 | once the tables hold every text and icon of the batch, every frame row carries both ids |
| ForecastLog.AppendBatch | tasks/get_nws_forecast.py:301-324 | the tables and log only grow; the log grows by one row per period, each with the batch's update time and both ids; unique texts stay unique |
| ForecastLog.AppendBatchRows | tasks/get_nws_forecast.py:301-324 | the job's step stores the tables as the as-written id rule grows them, and as row k period k converted and joined against those tables, with id period number + the log's largest id |
| ForecastLog.AppendBatchReusesId | tasks/get_nws_forecast.py:309-312 | with descriptions stored and a batch bringing a new short forecast, the job stores two different texts under one id |
| ForecastLog.AppendBatchCorrected | tasks/get_nws_forecast.py:301-324 | the same step with the corrected allocation: the same growth and ids present, and unique ids as well as unique texts stay unique |
| ForecastLog.AppendBatchCorrectedRows | tasks/get_nws_forecast.py:301-324 | the corrected step stores the tables as the corrected allocation grows them, and the same converted, joined and numbered rows |
| ForecastLog.UpdateStore | tasks/get_nws_forecast.py:277-326 | a forecast that is not newer leaves everything as it was; so does one whose frame fails a cast; otherwise the batch is appended by the job's step |
| ForecastLog.UpdateStoreIdempotent | tasks/get_nws_forecast.py:286-299 | running the job again on the forecast it has just stored is a no-op |

## Left out

- Reading and writing the CSV files, the HTTP request to the forecast service, and the radar
  image: pure I/O. The logs and tables are sequences passed in and returned.
- Timezone conversion (UTC to the station's zone) is a parameter `toLocal`. Sunrise and sunset
  are parameters keyed by day number. Both are foreign computations.
- The clocks (`utcnow`, `now`) are parameters.
- `api/main.py` (the append endpoint and its logarithmic dewpoint formula) is not part of this
  model.
- The circular mean of the wind direction and the rain-probability rescaling: floating-point
  trigonometry and division.
- The wind chart's per-bucket aggregation (`groupby_dynamic`): plot construction. Only the
  bucket width is modelled.
- Plotly figure objects, the Dash layout and callbacks, polling intervals and logging.
- The observation reader's non-strict `strptime` of `dateutc`: a timestamp that does not parse
  becomes null, and the 3-day filter then drops that row. The model's observations arrive dated,
  so such rows are not represented.
- The `strptime` fallbacks in `filter_other_plots`, and `strptime` of the forecast times: library
  string parsing. Times arrive parsed.
- `query_high_low` and `query_most_recent_data`: further reads of the observation log, outside
  the modelled core.
- Floating-point rounding: readings are exact reals.
- The `round(1)` of the observed dewpoint column: observed dewpoints are taken unrounded. The
  rounded column also feeds `min(DEWPOINT)`, the bottom of the temperature axis, so
  `Charts.TempAxis` can differ from the program's axis by at most 0.05 degree.
- `add_new_predictions` catching its own exceptions and returning false: the model's append
  cannot fail.
- Null forecast texts and icons: texts are plain strings.
- A lookup table holding the same text twice would make the join duplicate rows. The model's join
  takes the first match instead. `Lookups.AddNewTexts` proves that texts stay unique, so this
  cannot arise from the job's own writes.
- The ordering of polars `unique`, `groupby` and of sort ties is unspecified. The model uses
  first-appearance order and a stable sort.
- The construction-time casts of `number` and `temperature` to 16 bits: these values are taken as
  given.
- Times.DayOfMonth: only its range 1..31 is stated. The day-of-month arithmetic itself is not
  related to a calendar reference.
- Charts.BucketMinutes: the float division `seconds / 60 / 180` is modelled as exact integer
  division of microseconds, so rounding at bucket boundaries is not modelled.

## Findings

| source | as written | input that shows it | evidently intended | confidence | as-written member | corrected member |
|---|---|---|---|---|---|---|
| tasks/get_nws_forecast.py:125 | new description ids are `row_nr + max_id`, with `row_nr` counting from 0 | a description table holding (0, "Sunny") and a forecast with the new text "Cloudy": "Cloudy" is also stored with id 0 | new ids start one past the largest id, and at 0 for an empty table | not executed; high | Lookups.AddNewTextsCollision | Lookups.AllocateTexts |
| tasks/get_nws_forecast.py:154 | new icon ids are `row_nr + max_id`, with `row_nr` counting from 0 | an icon table holding one icon with id 0 and a forecast with a new icon: the new icon is also stored with id 0 | new ids start one past the largest id, and at 0 for an empty table | not executed; high | Lookups.AddNewTextsReusesId | Lookups.AllocateTexts |

`Lookups.AddNewTexts` models the rule as written, and the job (`ForecastLog.AppendBatch`,
`ForecastLog.UpdateStore`) uses it; `ForecastLog.AppendBatchReusesId` shows the collision at the
level of one run. `ForecastLog.AppendBatchCorrected` is the job step with the corrected
allocation, and keeps ids unique.
