/**
 * The column transforms the forecast job applies to each hourly period
 * before storing it (tasks/get_nws_forecast.py, make_forecast_frames):
 * compass points to degrees, "12 mph" to 12, dewpoint from Celsius to a
 * whole Fahrenheit degree, and polars' checked integer casts.
 */
module Conversions {
  import opened Options

  /** A checked cast: a value out of the target type's range is an error, not a wrap-around. */
  datatype Converted<+T> = Ok(value: T) | CastError

  const Int8Min: int := -128
  const Int8Max: int := 127
  const Int16Min: int := -32768
  const Int16Max: int := 32767

  function CastInt16(x: int): (r: Converted<int>)
    ensures r.Ok? <==> Int16Min <= x <= Int16Max
    ensures r.Ok? ==> r.value == x
  {
    if Int16Min <= x <= Int16Max then Ok(x) else CastError
  }

  /** A nullable cell cast to Int8: null stays null. */
  function CastInt8Cell(x: Option<int>): (r: Converted<Option<int>>)
    ensures r.Ok? <==> x.None? || Int8Min <= x.value <= Int8Max
    ensures r.Ok? ==> r.value == x
  {
    match x
    case None => Ok(None)
    case Some(v) => if Int8Min <= v <= Int8Max then Ok(Some(v)) else CastError
  }

  /** WIND_DIR_REPLACE_DICT: only the eight principal compass points. */
  const WindDirections: map<string, int> :=
    map["N" := 0, "NW" := 315, "W" := 270, "SW" := 225, "S" := 180, "SE" := 135, "E" := 90, "NE" := 45]

  /** `map_dict`: a point outside the table, such as "NNE", becomes null. */
  function CompassDegrees(s: string): (d: Option<int>)
    ensures d.Some? <==> s in {"N", "NE", "E", "SE", "S", "SW", "W", "NW"}
    ensures d.Some? ==> 0 <= d.value < 360 && d.value % 45 == 0
  {
    if s in WindDirections then Some(WindDirections[s]) else None
  }

  /** The compass point a multiple of 45 degrees names. */
  function CompassPoint(degrees: int): Option<string> {
    if degrees == 0 then Some("N")
    else if degrees == 45 then Some("NE")
    else if degrees == 90 then Some("E")
    else if degrees == 135 then Some("SE")
    else if degrees == 180 then Some("S")
    else if degrees == 225 then Some("SW")
    else if degrees == 270 then Some("W")
    else if degrees == 315 then Some("NW")
    else None
  }

  /** The table is a bijection between the eight points and the eight multiples of 45 in [0, 360). */
  lemma CompassRoundTrip(s: string, degrees: int)
    ensures CompassDegrees(s).Some? ==> CompassPoint(CompassDegrees(s).value) == Some(s)
    ensures CompassPoint(degrees).Some? ==> CompassDegrees(CompassPoint(degrees).value) == Some(degrees)
    ensures CompassPoint(degrees).Some? <==> 0 <= degrees < 360 && degrees % 45 == 0
  {
  }

  /** `str.split(" ").list.first()`: everything before the first space. */
  function FirstToken(s: string): (t: string)
    ensures ' ' !in t
    ensures t <= s
    ensures |t| < |s| ==> s[|t|] == ' '
  {
    if |s| == 0 || s[0] == ' ' then "" else [s[0]] + FirstToken(s[1..])
  }

  predicate IsDigit(c: char) { '0' <= c <= '9' }

  predicate AllDigits(s: string) {
    forall i :: 0 <= i < |s| ==> IsDigit(s[i])
  }

  /** The value of a string of decimal digits, most significant first. */
  function DigitsValue(s: string): nat
    requires AllDigits(s)
  {
    if |s| == 0 then 0 else 10 * DigitsValue(s[..|s| - 1]) + (s[|s| - 1] as int - '0' as int)
  }

  /** A string cast to an integer: optional minus sign, then at least one digit. */
  function ParseInt(s: string): (r: Option<int>)
    ensures r.Some? <==> (|s| > 0 && AllDigits(s)) || (|s| > 1 && s[0] == '-' && AllDigits(s[1..]))
  {
    if |s| > 0 && AllDigits(s) then Some(DigitsValue(s))
    else if |s| > 1 && s[0] == '-' && AllDigits(s[1..]) then Some(-(DigitsValue(s[1..]) as int))
    else None
  }

  /** The wind-speed column: the first token of "12 mph", cast to Int16. */
  function ParseWindSpeed(s: string): (r: Converted<int>)
    ensures ParseInt(FirstToken(s)).None? ==> r == CastError
    ensures ParseInt(FirstToken(s)).Some? ==>
              (r.Ok? <==> Int16Min <= ParseInt(FirstToken(s)).value <= Int16Max)
    ensures r.Ok? ==> ParseInt(FirstToken(s)) == Some(r.value) && Int16Min <= r.value <= Int16Max
  {
    match ParseInt(FirstToken(s))
    case Some(v) => CastInt16(v)
    case None => CastError
  }

  /** Decimal digits of `n`, no leading zeros. */
  function Decimal(n: nat): (s: string)
    ensures |s| > 0 && AllDigits(s)
  {
    var d := [(n % 10 + '0' as int) as char];
    if n < 10 then d else Decimal(n / 10) + d
  }

  lemma {:induction false} DecimalRoundTrip(n: nat)
    ensures DigitsValue(Decimal(n)) == n
  {
    var s := Decimal(n);
    if n >= 10 {
      DecimalRoundTrip(n / 10);
      assert s[..|s| - 1] == Decimal(n / 10);
    }
  }

  /** Any speed that fits an Int16, written as the forecast writes it, reads back unchanged. */
  lemma WindSpeedRoundTrip(n: nat, unit: string)
    requires n <= Int16Max
    ensures ParseWindSpeed(Decimal(n) + " " + unit) == Ok(n)
  {
    var digits := Decimal(n);
    var s := digits + " " + unit;
    FirstTokenOfWord(digits, " " + unit);
    assert s == digits + (" " + unit);
    DecimalRoundTrip(n);
  }

  lemma {:induction false} FirstTokenOfWord(word: string, rest: string)
    requires ' ' !in word
    requires |rest| > 0 && rest[0] == ' '
    ensures FirstToken(word + rest) == word
  {
    if |word| > 0 {
      assert (word + rest)[1..] == word[1..] + rest;
      FirstTokenOfWord(word[1..], rest);
      assert word == [word[0]] + word[1..];
    } else {
      assert word + rest == rest;
    }
  }

  /** Float-to-integer cast: truncation toward zero. */
  function Truncate(x: real): (r: int)
    ensures x >= 0.0 ==> r as real <= x < r as real + 1.0
    ensures x < 0.0 ==> r as real - 1.0 < x <= r as real
  {
    if x >= 0.0 then x.Floor else -((-x).Floor)
  }

  lemma TruncateMonotone(x: real, y: real)
    requires x <= y
    ensures Truncate(x) <= Truncate(y)
  {
  }

  function Fahrenheit(celsius: real): real {
    celsius * 9.0 / 5.0 + 32.0
  }

  /** The dewpoint column: °C·9/5 + 32, truncated, cast to Int16; a null cell stays null. */
  function DewpointFahrenheit(celsius: Option<real>): (r: Converted<Option<int>>)
    ensures celsius.None? ==> r == Ok(None)
    ensures celsius.Some? ==> (r.Ok? <==> Int16Min <= Truncate(Fahrenheit(celsius.value)) <= Int16Max)
    ensures celsius.Some? && r.Ok? ==> r.value == Some(Truncate(Fahrenheit(celsius.value)))
    ensures celsius.Some? && r.Ok? ==>
              && r.value.Some?
              && Int16Min <= r.value.value <= Int16Max
              && (r.value.value as real - Fahrenheit(celsius.value)) * (r.value.value as real - Fahrenheit(celsius.value)) < 1.0
  {
    match celsius
    case None => Ok(None)
    case Some(c) =>
      match CastInt16(Truncate(Fahrenheit(c)))
      case Ok(f) => Ok(Some(f))
      case CastError => CastError
  }

  /** A higher Celsius dewpoint never stores a lower Fahrenheit one. */
  lemma DewpointMonotone(c1: real, c2: real)
    requires c1 <= c2
    requires DewpointFahrenheit(Some(c1)).Ok? && DewpointFahrenheit(Some(c2)).Ok?
    ensures DewpointFahrenheit(Some(c1)).value.value <= DewpointFahrenheit(Some(c2)).value.value
  {
    TruncateMonotone(Fahrenheit(c1), Fahrenheit(c2));
  }
}
