/**
 * The setpoint tracker: maps the potentiometer reading onto the allowed
 * setpoint range and reports each change of the mapped value, except the
 * very first reading, which only seeds the history.
 */
module Setpoint {
  import opened Config
  import opened Logging

  function Abs(x: int): nat {
    if x < 0 then -x else x
  }

  lemma NatQuotient(p: nat, q: nat)
    requires q > 0
    ensures p / q >= 0 && 0 / q == 0
  {
  }

  /** Integer division as C and C++ define it: the quotient is truncated toward zero. */
  function TruncDiv(a: int, b: int): (q: int)
    requires b != 0
    ensures Abs(q) == Abs(a) / Abs(b)
    ensures q > 0 ==> (a > 0) == (b > 0)
    ensures q < 0 ==> (a > 0) != (b > 0)
  {
    NatQuotient(Abs(a), Abs(b));
    if a == 0 then 0
    else if (a < 0) == (b < 0) then Abs(a) / Abs(b)
    else -(Abs(a) / Abs(b))
  }

  lemma MulAtLeast(x: int, q: int)
    requires x >= 1 && q > 0
    ensures x * q >= q
  {
  }

  /** Euclidean division undoes an exact multiplication. */
  lemma MulDivCancel(p: int, q: int)
    requires q > 0
    ensures (p * q) / q == p
  {
    var d, r := (p * q) / q, (p * q) % q;
    assert p * q == d * q + r && 0 <= r < q;
    assert (p - d) * q == p * q - d * q;
    if d < p {
      MulAtLeast(p - d, q);
    }
  }

  /** A product divided by one of its factors gives back the other, truncating or not. */
  lemma ProductOverFactor(a: int, b: int)
    requires b != 0
    ensures TruncDiv(b * a, b) == a
  {
    var p, q := Abs(a), Abs(b);
    assert Abs(a * b) == p * q by {
      if a < 0 && b < 0 { assert a * b == (-a) * (-b); }
      else if a < 0 { assert a * b == -((-a) * b); }
      else if b < 0 { assert a * b == -(a * (-b)); }
    }
    MulDivCancel(p, q);
    assert b * a == a * b;
    assert Abs(TruncDiv(a * b, b)) == p;
    if a == 0 {
      assert a * b == 0;
    } else if (a < 0) == (b < 0) {
      assert a * b > 0 by {
        if a < 0 { assert a * b == (-a) * (-b); }
      }
    } else {
      assert a * b < 0 by {
        if a < 0 { assert a * b == -((-a) * b); } else { assert a * b == -(a * (-b)); }
      }
    }
  }

  /** For 0 <= k <= n and m >= 0, k * m / n stays within 0..m. */
  lemma QuotientBounded(k: int, m: int, n: int)
    ensures 0 <= k <= n && 0 <= m && n > 0 ==> 0 <= TruncDiv(k * m, n) <= m
  {
    if 0 <= k <= n && 0 <= m && n > 0 {
      var d := (k * m) / n;
      assert 0 <= k * m <= n * m by {
        assert (n - k) * m >= 0;
      }
      assert d * n <= k * m;
      assert TruncDiv(k * m, n) == d;
    }
  }

  /** The truncated quotient brackets the dividend: from below when it is non-negative, from above when negative. */
  lemma TruncBracket(a: int, n: int)
    ensures n > 0 && a >= 0 ==> TruncDiv(a, n) * n <= a < (TruncDiv(a, n) + 1) * n
    ensures n > 0 && a < 0 ==> (TruncDiv(a, n) - 1) * n < a <= TruncDiv(a, n) * n
  {
    if n > 0 {
      NatQuotient(Abs(a), n);
      var d, r := Abs(a) / n, Abs(a) % n;
      assert Abs(a) == d * n + r && 0 <= r < n;
      assert (d + 1) * n == d * n + n;
      if a >= 0 {
        assert TruncDiv(a, n) == d;
      } else {
        assert TruncDiv(a, n) == -d;
        assert -d * n == -(d * n);
        assert (-d - 1) * n == -(d * n) - n;
      }
    }
  }

  /** Arduino's `map`: rescales x from [inMin, inMax] onto [outMin, outMax] in integer arithmetic. */
  function ArduinoMap(x: int, inMin: int, inMax: int, outMin: int, outMax: int): (y: int)
    requires inMax != inMin
    ensures x == inMin ==> y == outMin
    ensures x == inMax ==> y == outMax
    ensures inMin <= x <= inMax && outMin <= outMax ==> outMin <= y <= outMax
    // linear with the quotient truncated: rounded down above the input's lower end, up below it
    ensures inMin < inMax && (x - inMin) * (outMax - outMin) >= 0 ==>
      (y - outMin) * (inMax - inMin) <= (x - inMin) * (outMax - outMin) < (y - outMin + 1) * (inMax - inMin)
    ensures inMin < inMax && (x - inMin) * (outMax - outMin) < 0 ==>
      (y - outMin - 1) * (inMax - inMin) < (x - inMin) * (outMax - outMin) <= (y - outMin) * (inMax - inMin)
  {
    var k, m, n := x - inMin, outMax - outMin, inMax - inMin;
    ProductOverFactor(m, n);
    QuotientBounded(k, m, n);
    TruncBracket(k * m, n);
    assert k == 0 ==> k * m == 0;
    TruncDiv(k * m, n) + outMin
  }

  /** The setpoint, in whole degrees, that a dial reading selects. */
  function DialToSetpoint(raw: AdcValue): (setC: int)
    ensures POT_MIN_TEMPERATURE_VALUE <= setC <= POT_MAX_TEMPERATURE_VALUE
    ensures raw == 0 ==> setC == POT_MIN_TEMPERATURE_VALUE
    ensures raw == 1023 ==> setC == POT_MAX_TEMPERATURE_VALUE
    // each 1023/20 counts of the dial add one degree, rounded down
    ensures (setC - POT_MIN_TEMPERATURE_VALUE) * 1023 <= raw * 20 < (setC - POT_MIN_TEMPERATURE_VALUE + 1) * 1023
    // so the top setpoint needs the dial at its very end
    ensures setC == POT_MAX_TEMPERATURE_VALUE <==> raw == 1023
  {
    ArduinoMap(raw, 0, 1023, POT_MIN_TEMPERATURE_VALUE, POT_MAX_TEMPERATURE_VALUE)
  }

  /** Turning the dial up never lowers the setpoint. */
  lemma DialMonotonic(x: AdcValue, y: AdcValue)
    requires x <= y
    ensures DialToSetpoint(x) <= DialToSetpoint(y)
  {
  }

  /** Every whole-degree setpoint in the allowed range can be selected with the dial. */
  lemma DialReachesEverySetpoint(s: int)
    requires POT_MIN_TEMPERATURE_VALUE <= s <= POT_MAX_TEMPERATURE_VALUE
    ensures exists raw: AdcValue :: DialToSetpoint(raw) == s
  {
    var k := s - POT_MIN_TEMPERATURE_VALUE;
    var raw := (k * 1023 + 19) / 20;
    assert 0 <= raw <= 1023;
    assert k * 1023 <= raw * 20 < k * 1023 + 1023;
    assert DialToSetpoint(raw) == s;
  }

  /** The tracker's persistent state: the `static` locals `seeded` and `lastSetC`. */
  datatype TrackerState = TrackerState(seeded: bool, lastSetC: int)

  const INITIAL_TRACKER: TrackerState := TrackerState(false, -1)

  datatype TrackResult = TrackResult(next: TrackerState, setC: int, events: seq<Event>)

  /** One call of `readSetpointC`, given the dial reading. */
  function Track(s: TrackerState, raw: AdcValue): (r: TrackResult)
    ensures r.setC == DialToSetpoint(raw)
    ensures r.next == TrackerState(true, r.setC)
    ensures |r.events| <= 1
    ensures r.events != [] <==> s.seeded && r.setC != s.lastSetC
    ensures r.events != [] ==> r.events[0] == SetpointChanged(s.lastSetC, r.setC)
  {
    var setC := DialToSetpoint(raw);
    if !s.seeded then
      TrackResult(TrackerState(true, setC), setC, [])
    else if setC != s.lastSetC then
      TrackResult(TrackerState(true, setC), setC, [SetpointChanged(s.lastSetC, setC)])
    else
      TrackResult(s, setC, [])
  }

  /** Successive calls of `readSetpointC` on the readings `raws`: the final state and every event, in order. */
  function TrackAll(s: TrackerState, raws: seq<AdcValue>): (r: (TrackerState, seq<Event>))
    ensures raws == [] ==> r == (s, [])
    ensures raws != [] ==> r.0 == TrackerState(true, DialToSetpoint(raws[|raws| - 1]))
    // at most one notification per reading, and none for the reading that seeds the tracker
    ensures |r.1| <= |raws|
    ensures !s.seeded && raws != [] ==> |r.1| < |raws|
    decreases |raws|
  {
    if raws == [] then (s, [])
    else
      var r := Track(s, raws[0]);
      var (last, rest) := TrackAll(r.next, raws[1..]);
      (last, r.events + rest)
  }

  /** The setpoints the readings select. */
  function Mapped(raws: seq<AdcValue>): (vals: seq<int>)
    ensures |vals| == |raws|
    ensures forall i :: 0 <= i < |raws| ==> vals[i] == DialToSetpoint(raws[i])
  {
    if raws == [] then [] else [DialToSetpoint(raws[0])] + Mapped(raws[1..])
  }

  /** Reference: one change notification for each pair of consecutive setpoints that differ. */
  function Changes(vals: seq<int>): seq<Event>
    decreases |vals|
  {
    if |vals| < 2 then []
    else (if vals[0] != vals[1] then [SetpointChanged(vals[0], vals[1])] else []) + Changes(vals[1..])
  }

  /** Once seeded with `last`, the tracker reports exactly the changes between consecutive setpoints. */
  lemma {:induction false} TrackAllSeeded(last: int, raws: seq<AdcValue>)
    ensures TrackAll(TrackerState(true, last), raws).1 == Changes([last] + Mapped(raws))
    ensures raws != [] ==> TrackAll(TrackerState(true, last), raws).0 == TrackerState(true, DialToSetpoint(raws[|raws| - 1]))
    decreases |raws|
  {
    if raws != [] {
      var s := DialToSetpoint(raws[0]);
      TrackAllSeeded(s, raws[1..]);
      assert [last] + Mapped(raws) == [last] + ([s] + Mapped(raws[1..]));
      assert ([last] + Mapped(raws))[1..] == [s] + Mapped(raws[1..]);
    }
  }

  /**
   * From power-up, the tracker never reports the first reading, and reports one
   * change per consecutive pair of differing setpoints, carrying both values.
   */
  lemma TrackAllFromStart(raws: seq<AdcValue>)
    ensures TrackAll(INITIAL_TRACKER, raws).1 == Changes(Mapped(raws))
  {
    if raws != [] {
      var s := DialToSetpoint(raws[0]);
      TrackAllSeeded(s, raws[1..]);
      assert Mapped(raws) == [s] + Mapped(raws[1..]);
    }
  }

  /** `readSetpointC` with its `static` locals as fields. */
  class SetpointTracker {
    var seeded: bool
    var lastSetC: int

    constructor ()
      ensures State() == INITIAL_TRACKER
    {
      seeded := false;
      lastSetC := -1;
    }

    function State(): TrackerState
      reads this
    {
      TrackerState(seeded, lastSetC)
    }

    /** Reads the dial (`raw` is the `analogRead` result) and returns the setpoint in degrees. */
    method ReadSetpointC(raw: AdcValue, log: EventLog) returns (setC: real)
      modifies this, log
      ensures State() == Track(old(State()), raw).next
      ensures setC == Track(old(State()), raw).setC as real
      ensures log.events == old(log.events) + Track(old(State()), raw).events
    {
      var mapped := ArduinoMap(raw, 0, 1023, POT_MIN_TEMPERATURE_VALUE, POT_MAX_TEMPERATURE_VALUE);
      if !seeded {
        lastSetC := mapped;
        seeded := true;
      } else if mapped != lastSetC {
        log.Emit(SetpointChanged(lastSetC, mapped));
        lastSetC := mapped;
      }
      setC := mapped as real;
    }
  }
}
