/**
 * The diagnostic sink. Messages are kept as abstract events carrying their
 * values rather than as formatted text.
 */
module Logging {
  import opened Config

  datatype LogLevel = Error | Warn | Info | Debug

  datatype Event =
    | SetpointChanged(from: int, to: int)       // "CHANGE - SETPOINT - FROM a C TO b C"
    | MotorOn                                   // "CHANGE - MOTOR ON"
    | MotorOff                                  // "CHANGE - MOTOR OFF"
    | PwmChanged(fromPwm: Byte, toPwm: Byte)    // "CHANGE - MOTOR PWM FROM a TO b"
    | TemperatureNaN                            // "TEMPERATURE NaN"
    | SetpointNaN                               // "SETPOINT NaN"
    | TemperatureOutOfRange(tC: real)           // "TEMP OUT OF SAFE RANGE"
    | SetpointOutOfRange(setC: real)            // "SETPOINT OUT OF ALLOWED RANGE"
  {
    /** The severity each call site passes to `logMessage`. */
    function Level(): (lv: LogLevel)
      ensures lv == Error <==> IsRangeError()
      ensures lv != Error ==> lv == Info
    {
      match this
      case SetpointChanged(_, _) => Info
      case MotorOn => Info
      case MotorOff => Info
      case PwmChanged(_, _) => Info
      case _ => Error
    }

    /** The diagnostics only the range guard emits. */
    predicate IsRangeError() {
      TemperatureNaN? || SetpointNaN? || TemperatureOutOfRange? || SetpointOutOfRange?
    }
  }

  /** The log every component appends to; one per system. */
  class EventLog {
    var events: seq<Event>

    constructor ()
      ensures events == []
    {
      events := [];
    }

    /** One call of `logMessage`. */
    method Emit(e: Event)
      modifies this
      ensures events == old(events) + [e]
    {
      events := events + [e];
    }
  }
}
