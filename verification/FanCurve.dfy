/** The temperature curve of the fan controller (pocisys-gpu-runtime/fan_controller.py), over the reals. */
module FanCurve {

  /** Python's round: to the nearest integer, ties to even. */
  function Round(x: real): int {
    var n := x.Floor;
    var rest := x - n as real;
    if rest < 0.5 then n
    else if rest > 0.5 then n + 1
    else if n % 2 == 0 then n else n + 1
  }

  lemma {:induction false} RoundMonotone(x: real, y: real)
    requires x <= y
    ensures Round(x) <= Round(y)
  {
    if x.Floor < y.Floor {
      assert Round(x) <= x.Floor + 1 <= y.Floor <= Round(y);
    }
  }

  /** Linear interpolation between two points. */
  function Interpolate(t: real, lowTemp: real, lowDuty: int, highTemp: real, highDuty: int): real
    requires lowTemp < highTemp
  {
    lowDuty as real + (t - lowTemp) / (highTemp - lowTemp) * (highDuty - lowDuty) as real
  }

  /** The curve before rounding. */
  function Exact(t: real): real {
    if t <= 45.0 then 40.0
    else if t >= 70.0 then 100.0
    else if t <= 50.0 then Interpolate(t, 45.0, 40, 50.0, 50)
    else if t <= 55.0 then Interpolate(t, 50.0, 50, 55.0, 60)
    else if t <= 60.0 then Interpolate(t, 55.0, 60, 60.0, 75)
    else if t <= 65.0 then Interpolate(t, 60.0, 75, 65.0, 90)
    else Interpolate(t, 65.0, 90, 70.0, 100)
  }

  /** temperature_duty. */
  function TemperatureDuty(t: real): (duty: int)
    ensures 40 <= duty <= 100
  {
    ExactMonotone(t, if t < 70.0 then 70.0 else t);
    ExactMonotone(if t > 45.0 then 45.0 else t, t);
    Round(Exact(t))
  }

  lemma {:induction false} ExactMonotone(t: real, u: real)
    requires t <= u
    ensures 40.0 <= Exact(t) <= Exact(u) <= 100.0
  {
  }

  /** A hotter GPU never gets a slower fan, and the duty is within half a percent of the drawn curve. */
  lemma {:induction false} DutyMonotone(t: real, u: real)
    requires t <= u
    ensures TemperatureDuty(t) <= TemperatureDuty(u)
    ensures -0.5 <= TemperatureDuty(t) as real - Exact(t) <= 0.5
  {
    ExactMonotone(t, u);
    RoundMonotone(Exact(t), Exact(u));
  }

  /** The curve goes through its six points and stays flat outside them. */
  lemma {:induction false} CurvePoints(t: real)
    ensures t <= 45.0 ==> TemperatureDuty(t) == 40
    ensures TemperatureDuty(50.0) == 50 && TemperatureDuty(55.0) == 60 && TemperatureDuty(60.0) == 75
            && TemperatureDuty(65.0) == 90
    ensures t >= 70.0 ==> TemperatureDuty(t) == 100
  {
  }
}
