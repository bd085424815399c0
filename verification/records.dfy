/** The rows of the two logs and of the merged series the dashboard draws from. */
module Records {
  import opened Options
  import opened Times

  /**
   * One row of the observation log with the columns the dashboard keeps.
   * `date` is the station's UTC time; readers convert it to local time.
   */
  datatype Observation = Observation(
    id: int,
    date: Time,
    temp: Option<real>,
    dewpoint: Option<real>,
    windSpeed: Option<real>,
    windDirection: Option<real>,
    gust: Option<real>,
    rainHourly: Option<real>,
    rainDaily: Option<real>,
    rainEvent: Option<real>)

  /** One row of the forecast predictions log; times are UTC. */
  datatype StoredPrediction = StoredPrediction(
    id: int,
    number: int,
    startTime: Time,
    endTime: Time,
    isDaytime: bool,
    temperature: int,
    precipProb: Option<int>,
    dewpoint: Option<int>,
    windSpeed: int,
    windDirection: Option<int>,
    updated: Time,
    descriptionId: Option<int>,
    iconId: Option<int>)

  /**
   * A row of the merged weather series, keyed by local time. `prediction`
   * is null for an observed row and true for a forecast row.
   */
  datatype Row = Row(
    date: Time,
    temp: Option<real>,
    dewpoint: Option<real>,
    windSpeed: Option<real>,
    windDirection: Option<real>,
    gust: Option<real>,
    rainHourly: Option<real>,
    rainDaily: Option<real>,
    rainEvent: Option<real>,
    precipProb: Option<int>,
    prediction: Option<bool>)
  {
    predicate IsObserved() { prediction.None? }
    predicate IsForecast() { prediction == Some(true) }
  }

  function IntReading(x: Option<int>): Option<real> {
    match x
    case Some(v) => Some(v as real)
    case None => None
  }
}
