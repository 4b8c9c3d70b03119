/** The range guard: validates a temperature and a setpoint before they reach the controller. */
module Safety {
  import opened Config
  import opened Logging
  import Setpoint

  /** A `float` as far as the guard can tell: not-a-number, or a value. */
  datatype Reading = NaN | Val(v: real)

  /** What `checkRanges` returns, together with the diagnostic it logged on rejection. */
  datatype Verdict = Accept | Reject(error: Event) {
    /** The entries the check appends to the log: one on rejection, none on acceptance. */
    function Logged(): (l: seq<Event>)
      ensures |l| <= 1
      ensures l == [] <==> Accept?
      ensures Reject? ==> l[0] == error
    {
      if Accept? then [] else [error]
    }
  }

  /** x is a number within [lo, hi], both bounds included. */
  predicate Within(x: Reading, lo: int, hi: int) {
    x.Val? && lo as real <= x.v <= hi as real
  }

  /**
   * `checkRanges`: four checks in a fixed order, the first failing one decides
   * the diagnostic and nothing after it is examined.
   */
  function CheckRanges(tC: Reading, setC: Reading): (r: Verdict)
    ensures r.Accept? <==>
      Within(tC, MIN_SAFE_TEMPERATURE_VALUE, MAX_SAFE_TEMPERATURE_VALUE) &&
      Within(setC, POT_MIN_TEMPERATURE_VALUE, POT_MAX_TEMPERATURE_VALUE)
    ensures r.Reject? ==> r.error.IsRangeError() && r.error.Level() == Error
    // the first failure in the order temp-NaN, setpoint-NaN, temp-range, setpoint-range is the one reported
    ensures tC.NaN? ==> r == Reject(TemperatureNaN)
    ensures tC.Val? && setC.NaN? ==> r == Reject(SetpointNaN)
    ensures (tC.Val? && setC.Val? && !Within(tC, MIN_SAFE_TEMPERATURE_VALUE, MAX_SAFE_TEMPERATURE_VALUE)) ==>
      r == Reject(TemperatureOutOfRange(tC.v))
    ensures (Within(tC, MIN_SAFE_TEMPERATURE_VALUE, MAX_SAFE_TEMPERATURE_VALUE) && setC.Val? &&
             !Within(setC, POT_MIN_TEMPERATURE_VALUE, POT_MAX_TEMPERATURE_VALUE)) ==>
      r == Reject(SetpointOutOfRange(setC.v))
  {
    if tC.NaN? then Reject(TemperatureNaN)
    else if setC.NaN? then Reject(SetpointNaN)
    else if tC.v < MIN_SAFE_TEMPERATURE_VALUE as real || tC.v > MAX_SAFE_TEMPERATURE_VALUE as real then
      Reject(TemperatureOutOfRange(tC.v))
    else if setC.v < POT_MIN_TEMPERATURE_VALUE as real || setC.v > POT_MAX_TEMPERATURE_VALUE as real then
      Reject(SetpointOutOfRange(setC.v))
    else Accept
  }

  /**
   * A setpoint the dial selects never fails the setpoint checks: with it, the
   * guard accepts exactly the temperatures in the safe range.
   */
  lemma DialSetpointPassesGuard(tC: Reading, raw: AdcValue)
    ensures var r := CheckRanges(tC, Val(Setpoint.DialToSetpoint(raw) as real));
      (r.Accept? <==> Within(tC, MIN_SAFE_TEMPERATURE_VALUE, MAX_SAFE_TEMPERATURE_VALUE)) &&
      (r.Reject? ==> r.error == TemperatureNaN || r.error.TemperatureOutOfRange?)
  {
  }
}
