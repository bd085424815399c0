/** The colour of the current-temperature thermometer (update_gauges_and_displays). */
module Gauges {

  datatype Color = Purple | DodgerBlue | Green | Yellow | Orange | Red

  /** The colour bands, tested in the source's order. */
  function ThermometerColor(temp: real): (c: Color)
    ensures c == Purple <==> temp < 0.0
    ensures c == DodgerBlue <==> 0.0 <= temp < 32.0
    ensures c == Green <==> 32.0 <= temp < 50.0
    ensures c == Yellow <==> 50.0 <= temp < 70.0
    ensures c == Orange <==> 70.0 <= temp < 90.0
    ensures c == Red <==> 90.0 <= temp
  {
    if temp < 0.0 then Purple
    else if temp < 32.0 && temp >= 0.0 then DodgerBlue
    else if temp < 50.0 && temp >= 32.0 then Green
    else if temp < 70.0 && temp >= 50.0 then Yellow
    else if temp < 90.0 && temp >= 70.0 then Orange
    else Red
  }

  /** Position of a colour on the scale, coldest first. */
  function Rank(c: Color): nat {
    match c
    case Purple => 0
    case DodgerBlue => 1
    case Green => 2
    case Yellow => 3
    case Orange => 4
    case Red => 5
  }

  /** A warmer reading never shows a colder colour. */
  lemma ColorMonotone(t1: real, t2: real)
    requires t1 <= t2
    ensures Rank(ThermometerColor(t1)) <= Rank(ThermometerColor(t2))
  {
  }
}
