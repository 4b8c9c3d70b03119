/**
 * The two-speed hysteresis controller (`updateMotorTwoSpeed`). The motor
 * switches ON only after the temperature has stayed above the setpoint for
 * HOLD_MS without interruption, and OFF only after it has stayed below for
 * HOLD_MS; while ON, the speed is chosen afresh on every call.
 */
module Motor {
  import opened Config
  import opened Logging

  /** `now - start` computed on 32-bit `unsigned long`. */
  function Elapsed(now: Millis, start: Millis): (d: Millis)
    // d is the forward distance from start to now on the wrapping clock
    ensures (start + d) % WORD == now
    ensures start <= now ==> d == now - start
  {
    (now - start) % WORD
  }

  /** The subtraction measures a duration correctly even when `millis()` wrapped in between. */
  lemma ElapsedAcrossWrap(start: Millis, d: Millis)
    ensures Elapsed((start + d) % WORD, start) == d
  {
  }

  /** The temperature at or above which the running motor goes to full speed. */
  function HighThreshold(setC: real): real {
    setC * (1.0 + MAX_OVER_RATIO)
  }

  /** The `static` locals of `updateMotorTwoSpeed`. */
  datatype MotorState = MotorState(
    on: bool,
    curPwm: Byte,
    overTiming: bool,
    overStart: Millis,
    underTiming: bool,
    underStart: Millis)

  const INITIAL_MOTOR: MotorState := MotorState(false, 0, false, 0, false, 0)

  /**
   * What every reachable state satisfies: the applied duty cycle is one of the
   * three speeds, it is 0 exactly when the motor is off, and the two timers
   * never run together.
   */
  predicate Consistent(s: MotorState) {
    && (s.curPwm == 0 || s.curPwm == PWM_LOW || s.curPwm == PWM_HIGH)
    && (s.curPwm == 0 <==> !s.on)
    && !(s.overTiming && s.underTiming)
  }

  datatype StepResult = StepResult(next: MotorState, pwm: Byte, events: seq<Event>)

  /** The ON condition block: time the "above setpoint" interval, switch on once it lasted HOLD_MS. */
  function OverPhase(s: MotorState, tC: real, setC: real, now: Millis): (r: (MotorState, seq<Event>))
    ensures r.0.overTiming <==> tC > setC
    ensures r.0.overTiming ==> r.0.overStart == (if s.overTiming then s.overStart else now)
    ensures r.0.on <==> s.on || (tC > setC && s.overTiming && Elapsed(now, s.overStart) >= HOLD_MS)
    ensures r.1 == (if r.0.on != s.on then [MotorOn] else [])
    ensures r.0.curPwm == s.curPwm && r.0.underTiming == s.underTiming && r.0.underStart == s.underStart
  {
    if tC > setC then
      var s1 := if !s.overTiming then s.(overTiming := true, overStart := now) else s;
      if !s1.on && Elapsed(now, s1.overStart) >= HOLD_MS then (s1.(on := true), [MotorOn])
      else (s1, [])
    else
      (s.(overTiming := false), [])
  }

  /** The OFF condition block: time the "below setpoint" interval, switch off once it lasted HOLD_MS. */
  function UnderPhase(s: MotorState, tC: real, setC: real, now: Millis): (r: (MotorState, seq<Event>))
    ensures r.0.underTiming <==> tC < setC
    ensures r.0.underTiming ==> r.0.underStart == (if s.underTiming then s.underStart else now)
    ensures r.0.on <==> s.on && !(tC < setC && s.underTiming && Elapsed(now, s.underStart) >= HOLD_MS)
    ensures r.1 == (if r.0.on != s.on then [MotorOff] else [])
    ensures r.0.curPwm == s.curPwm && r.0.overTiming == s.overTiming && r.0.overStart == s.overStart
  {
    if tC < setC then
      var s1 := if !s.underTiming then s.(underTiming := true, underStart := now) else s;
      if s1.on && Elapsed(now, s1.underStart) >= HOLD_MS then (s1.(on := false), [MotorOff])
      else (s1, [])
    else
      (s.(underTiming := false), [])
  }

  /** Decide the target duty cycle and apply it, logging only a change. */
  function ApplyPhase(s: MotorState, tC: real, setC: real): (r: (MotorState, seq<Event>))
    ensures r.0.curPwm == 0 || r.0.curPwm == PWM_LOW || r.0.curPwm == PWM_HIGH
    ensures r.0.curPwm == 0 <==> !s.on
    ensures s.on ==> (r.0.curPwm == PWM_HIGH <==> tC >= HighThreshold(setC))
    ensures r.1 == (if r.0.curPwm != s.curPwm then [PwmChanged(s.curPwm, r.0.curPwm)] else [])
    ensures r.0 == s.(curPwm := r.0.curPwm)
  {
    var target: Byte := if s.on then (if tC >= HighThreshold(setC) then PWM_HIGH else PWM_LOW) else 0;
    if target != s.curPwm then (s.(curPwm := target), [PwmChanged(s.curPwm, target)])
    else (s, [])
  }

  /** One call of `updateMotorTwoSpeed(tC, setC)` at time `now`. */
  function Step(s: MotorState, tC: real, setC: real, now: Millis): (r: StepResult)
    ensures r.pwm == r.next.curPwm
    ensures Consistent(r.next)
    // ON only after tC > setC held for HOLD_MS on a timer started in an earlier call
    ensures (!s.on && r.next.on) <==>
      (!s.on && tC > setC && s.overTiming && Elapsed(now, s.overStart) >= HOLD_MS)
    // OFF only after tC < setC held for HOLD_MS on a timer started in an earlier call
    ensures (s.on && !r.next.on) <==>
      (s.on && tC < setC && s.underTiming && Elapsed(now, s.underStart) >= HOLD_MS)
    // a call that breaks a condition resets its timer; one that keeps it keeps the start time
    ensures r.next.overTiming <==> tC > setC
    ensures r.next.underTiming <==> tC < setC
    ensures r.next.overTiming ==> r.next.overStart == (if s.overTiming then s.overStart else now)
    ensures r.next.underTiming ==> r.next.underStart == (if s.underTiming then s.underStart else now)
    // speed is decided on every call, with no hold time
    ensures r.next.on ==> (r.next.curPwm == PWM_HIGH <==> tC >= HighThreshold(setC))
    // one log entry per ON/OFF transition, then one per change of the duty cycle
    ensures r.events ==
      (if s.on != r.next.on then [if r.next.on then MotorOn else MotorOff] else []) +
      (if s.curPwm != r.next.curPwm then [PwmChanged(s.curPwm, r.next.curPwm)] else [])
  {
    var (s1, e1) := OverPhase(s, tC, setC, now);
    var (s2, e2) := UnderPhase(s1, tC, setC, now);
    var (s3, e3) := ApplyPhase(s2, tC, setC);
    StepResult(s3, s3.curPwm, e1 + e2 + e3)
  }

  /** One control cycle's inputs. */
  datatype Input = Input(tC: real, setC: real, now: Millis)

  datatype RunResult = RunResult(final: MotorState, outputs: seq<Byte>, events: seq<Event>)

  /** Successive calls on `ins`, in order: the final state, each call's returned duty cycle, and the log. */
  function Run(s: MotorState, ins: seq<Input>): (r: RunResult)
    ensures |r.outputs| == |ins|
    ensures ins != [] ==> Consistent(r.final) && r.outputs[|ins| - 1] == r.final.curPwm
    decreases |ins|
  {
    if ins == [] then RunResult(s, [], [])
    else
      var p := Run(s, ins[..|ins| - 1]);
      var x := ins[|ins| - 1];
      var r := Step(p.final, x.tC, x.setC, x.now);
      RunResult(r.next, p.outputs + [r.pwm], p.events + r.events)
  }

  /**
   * While the temperature stays above the setpoint for less than HOLD_MS since
   * the over-timer started at t0, the motor stays off and nothing is logged.
   */
  lemma {:induction false} StaysOffDuringHold(s: MotorState, ins: seq<Input>, t0: Millis)
    requires Consistent(s) && !s.on
    requires s.overTiming ==> s.overStart == t0
    requires !s.overTiming && ins != [] ==> ins[0].now == t0
    requires forall i :: 0 <= i < |ins| ==> ins[i].tC > ins[i].setC && Elapsed(ins[i].now, t0) < HOLD_MS
    ensures var r := Run(s, ins);
      && !r.final.on && r.events == []
      && (forall i :: 0 <= i < |ins| ==> r.outputs[i] == 0)
      && (ins != [] ==> r.final.overTiming && r.final.overStart == t0)
    decreases |ins|
  {
    if ins != [] {
      var pre := ins[..|ins| - 1];
      StaysOffDuringHold(s, pre, t0);
      var p := Run(s, pre);
      assert p.final.overTiming ==> p.final.overStart == t0;
      assert !p.final.overTiming ==> pre == [] && ins[0] == ins[|ins| - 1];
    }
  }

  /** The first call on which the continuous over-interval reaches HOLD_MS switches the motor on. */
  lemma TurnsOnAfterHold(s: MotorState, ins: seq<Input>, t0: Millis, x: Input)
    requires Consistent(s) && !s.on
    requires s.overTiming ==> s.overStart == t0
    requires !s.overTiming ==> ins != [] && ins[0].now == t0
    requires forall i :: 0 <= i < |ins| ==> ins[i].tC > ins[i].setC && Elapsed(ins[i].now, t0) < HOLD_MS
    requires x.tC > x.setC && Elapsed(x.now, t0) >= HOLD_MS
    ensures var r := Run(s, ins + [x]);
      var speed := if x.tC >= HighThreshold(x.setC) then PWM_HIGH else PWM_LOW;
      && r.final.on && r.final.curPwm == speed
      && r.events == [MotorOn, PwmChanged(0, speed)]
      && (forall i :: 0 <= i < |ins| ==> r.outputs[i] == 0)
  {
    StaysOffDuringHold(s, ins, t0);
    assert (ins + [x])[..|ins|] == ins;
  }

  /**
   * While the temperature stays below the setpoint for less than HOLD_MS since
   * the under-timer started at t0, the motor keeps running and never logs ON or OFF.
   */
  lemma {:induction false} StaysOnDuringHold(s: MotorState, ins: seq<Input>, t0: Millis)
    requires Consistent(s) && s.on
    requires s.underTiming ==> s.underStart == t0
    requires !s.underTiming && ins != [] ==> ins[0].now == t0
    requires forall i :: 0 <= i < |ins| ==> ins[i].tC < ins[i].setC && Elapsed(ins[i].now, t0) < HOLD_MS
    ensures var r := Run(s, ins);
      && r.final.on
      && (forall e :: e in r.events ==> e.PwmChanged?)
      && (forall i :: 0 <= i < |ins| ==> r.outputs[i] != 0)
      && (ins != [] ==> r.final.underTiming && r.final.underStart == t0)
    decreases |ins|
  {
    if ins != [] {
      var pre := ins[..|ins| - 1];
      StaysOnDuringHold(s, pre, t0);
      var p := Run(s, pre);
      assert p.final.underTiming ==> p.final.underStart == t0;
      assert !p.final.underTiming ==> pre == [] && ins[0] == ins[|ins| - 1];
    }
  }

  /** The first call on which the continuous under-interval reaches HOLD_MS switches the motor off. */
  lemma TurnsOffAfterHold(s: MotorState, ins: seq<Input>, t0: Millis, x: Input)
    requires Consistent(s) && s.on
    requires s.underTiming ==> s.underStart == t0
    requires !s.underTiming ==> ins != [] && ins[0].now == t0
    requires forall i :: 0 <= i < |ins| ==> ins[i].tC < ins[i].setC && Elapsed(ins[i].now, t0) < HOLD_MS
    requires x.tC < x.setC && Elapsed(x.now, t0) >= HOLD_MS
    ensures var r := Run(s, ins + [x]);
      var before := Run(s, ins).final.curPwm;
      && !r.final.on && r.final.curPwm == 0
      && r.events == Run(s, ins).events + [MotorOff, PwmChanged(before, 0)]
      && (forall i :: 0 <= i < |ins| ==> r.outputs[i] != 0)
  {
    StaysOnDuringHold(s, ins, t0);
    assert (ins + [x])[..|ins|] == ins;
  }

  /**
   * A state in which repeating the same inputs changes nothing that is
   * observable: no ON/OFF transition is pending and the speed already matches.
   */
  predicate Settled(s: MotorState, tC: real, setC: real) {
    && Consistent(s)
    && (s.on ==> tC >= setC)
    && (!s.on ==> tC <= setC)
    && (s.on ==> (s.curPwm == PWM_HIGH <==> tC >= HighThreshold(setC)))
  }

  /** Once settled, calling again with unchanged readings, at any times, logs nothing and returns the same duty cycle. */
  lemma {:induction false} SettledIsQuiet(s: MotorState, ins: seq<Input>, tC: real, setC: real)
    requires Settled(s, tC, setC)
    requires forall i :: 0 <= i < |ins| ==> ins[i].tC == tC && ins[i].setC == setC
    ensures var r := Run(s, ins);
      && r.events == []
      && Settled(r.final, tC, setC)
      && r.final.on == s.on && r.final.curPwm == s.curPwm
      && (forall i :: 0 <= i < |ins| ==> r.outputs[i] == s.curPwm)
    decreases |ins|
  {
    if ins != [] {
      SettledIsQuiet(s, ins[..|ins| - 1], tC, setC);
    }
  }

  /** One more call after a run extends the run by that call's result. */
  lemma RunSnoc(s: MotorState, ins: seq<Input>, x: Input)
    ensures var p := Run(s, ins);
      var st := Step(p.final, x.tC, x.setC, x.now);
      Run(s, ins + [x]) == RunResult(st.next, p.outputs + [st.pwm], p.events + st.events)
  {
    assert (ins + [x])[..|ins|] == ins;
  }

  lemma AppendAssoc<T>(x: seq<T>, y: seq<T>, z: seq<T>)
    ensures (x + y) + z == x + (y + z)
  {
  }

  /** Running on `a` and then on `b` is running on `a + b`. */
  lemma {:induction false} RunSplit(s: MotorState, a: seq<Input>, b: seq<Input>)
    ensures var ra := Run(s, a);
      var rb := Run(ra.final, b);
      Run(s, a + b) == RunResult(rb.final, ra.outputs + rb.outputs, ra.events + rb.events)
    decreases |b|
  {
    if b != [] {
      var pre, x := b[..|b| - 1], b[|b| - 1];
      assert b == pre + [x];
      assert a + b == (a + pre) + [x];
      RunSplit(s, a, pre);
      RunSnoc(s, a + pre, x);
      var ra := Run(s, a);
      RunSnoc(ra.final, pre, x);
      var rp := Run(ra.final, pre);
      var st := Step(rp.final, x.tC, x.setC, x.now);
      assert Run(s, a + pre) == RunResult(rp.final, ra.outputs + rp.outputs, ra.events + rp.events);
      assert Run(s, a + b) == RunResult(st.next, (ra.outputs + rp.outputs) + [st.pwm], (ra.events + rp.events) + st.events);
      assert Run(ra.final, b) == RunResult(st.next, rp.outputs + [st.pwm], rp.events + st.events);
      AppendAssoc(ra.outputs, rp.outputs, [st.pwm]);
      AppendAssoc(ra.events, rp.events, st.events);
    } else {
      assert a + b == a;
    }
  }

  /**
   * An interruption is not accumulated: after one call with tC >= setC, a
   * running motor needs a whole new HOLD_MS below the setpoint, counted from
   * the first call after it, however long the earlier under-interval was.
   */
  lemma UnderInterruptionRestartsHold(s: MotorState, y: Input, ins: seq<Input>, t0: Millis)
    requires Consistent(s) && s.on
    requires y.tC >= y.setC
    requires ins != [] && ins[0].now == t0
    requires forall i :: 0 <= i < |ins| ==> ins[i].tC < ins[i].setC && Elapsed(ins[i].now, t0) < HOLD_MS
    ensures Run(s, [y] + ins).final.on
    ensures forall e :: e in Run(s, [y] + ins).events ==> e.PwmChanged?
  {
    var first := Step(s, y.tC, y.setC, y.now);
    assert [y][..0] == [];
    assert Run(s, [y]) == RunResult(first.next, [first.pwm], first.events);
    RunSplit(s, [y], ins);
    StaysOnDuringHold(first.next, ins, t0);
  }

  /**
   * Symmetrically, after one call with tC <= setC a stopped motor needs a whole
   * new HOLD_MS above the setpoint before it starts.
   */
  lemma OverInterruptionRestartsHold(s: MotorState, y: Input, ins: seq<Input>, t0: Millis)
    requires Consistent(s) && !s.on
    requires y.tC <= y.setC
    requires ins != [] && ins[0].now == t0
    requires forall i :: 0 <= i < |ins| ==> ins[i].tC > ins[i].setC && Elapsed(ins[i].now, t0) < HOLD_MS
    ensures !Run(s, [y] + ins).final.on
    ensures Run(s, [y] + ins).events == []
  {
    var first := Step(s, y.tC, y.setC, y.now);
    assert [y][..0] == [];
    assert Run(s, [y]) == RunResult(first.next, [first.pwm], first.events);
    RunSplit(s, [y], ins);
    StaysOffDuringHold(first.next, ins, t0);
  }

  /**
   * The hold time is measured correctly across a wrap of `millis()`: an
   * over-interval that starts 1000 ms before the wrap reaches HOLD_MS at 1000.
   */
  lemma HoldAcrossClockWrap()
    ensures var r := Run(INITIAL_MOTOR, [Input(26.0, 25.0, WORD - 1000), Input(26.0, 25.0, 999), Input(26.0, 25.0, 1000)]);
      r.outputs == [0, 0, PWM_LOW] && r.events == [MotorOn, PwmChanged(0, PWM_LOW)]
  {
    var ins := [Input(26.0, 25.0, WORD - 1000), Input(26.0, 25.0, 999)];
    assert Elapsed(999, WORD - 1000) == 1999;
    assert Elapsed(1000, WORD - 1000) == 2000;
    TurnsOnAfterHold(INITIAL_MOTOR, ins, WORD - 1000, Input(26.0, 25.0, 1000));
    assert ins + [Input(26.0, 25.0, 1000)] == [Input(26.0, 25.0, WORD - 1000), Input(26.0, 25.0, 999), Input(26.0, 25.0, 1000)];
  }

  /** `updateMotorTwoSpeed` with its `static` locals as fields. */
  class MotorController {
    var on: bool
    var curPwm: Byte
    var overTiming: bool
    var underTiming: bool
    var overStart: Millis
    var underStart: Millis

    constructor ()
      ensures State() == INITIAL_MOTOR && Consistent(State())
    {
      on := false;
      curPwm := 0;
      overTiming, underTiming := false, false;
      overStart, underStart := 0, 0;
    }

    function State(): MotorState
      reads this
    {
      MotorState(on, curPwm, overTiming, overStart, underTiming, underStart)
    }

    /**
     * One control cycle at time `now` (the `millis()` reading). Returns the
     * applied duty cycle, which also drives the motor output, and the status
     * LED level written alongside it.
     */
    method UpdateMotorTwoSpeed(tC: real, setC: real, now: Millis, log: EventLog) returns (pwm: Byte, led: bool)
      modifies this, log
      ensures State() == Step(old(State()), tC, setC, now).next
      ensures pwm == Step(old(State()), tC, setC, now).pwm
      ensures log.events == old(log.events) + Step(old(State()), tC, setC, now).events
      ensures Consistent(State()) && (led <==> on)
    {
      // start or continue timing the above-setpoint interval; switch on once it spans the hold time
      if tC > setC {
        if !overTiming {
          overTiming := true;
          overStart := now;
        }
        if !on && Elapsed(now, overStart) >= HOLD_MS {
          on := true;
          log.Emit(MotorOn);
        }
      } else {
        overTiming := false;
      }

      // likewise for the below-setpoint interval, switching off
      if tC < setC {
        if !underTiming {
          underTiming := true;
          underStart := now;
        }
        if on && Elapsed(now, underStart) >= HOLD_MS {
          on := false;
          log.Emit(MotorOff);
        }
      } else {
        underTiming := false;
      }

      var targetPwm: Byte := 0;
      if on {
        targetPwm := if tC >= HighThreshold(setC) then PWM_HIGH else PWM_LOW;
      }

      if targetPwm != curPwm {
        log.Emit(PwmChanged(curPwm, targetPwm));
        curPwm := targetPwm;
      }

      pwm := curPwm;
      led := curPwm > 0;
    }
  }
}
