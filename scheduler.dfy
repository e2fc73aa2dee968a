/**
 * The emission scheduler of the Mustang model (`mustang_tick`): nine
 * rate-limited emitters visited in a fixed order, each either due (it sends
 * its frames and records the time) or left alone. The tick is the chain of the
 * nine steps; the frames are what each step sends, in order.
 */
module Scheduler {
  import opened Bytes
  import opened Encoders
  import opened VehicleState
  import opened Interpreter

  /** An emitter is due once its interval has passed since it last fired. */
  predicate Due(s: Snapshot, e: Emitter, now: u32)
  {
    Elapsed(now, s.timers.Get(e)) >= Interval(e)
  }

  /** The button is still held: armed, and no more than 100 ms since the press. */
  predicate ButtonHeld(s: Snapshot, now: u32)
  {
    s.buttonActive && Elapsed(now, s.buttonPressStart) <= ButtonHoldDuration
  }

  /** The blink phase flips when frames 0x3B3/0x3B2 go out (a transport is
      present and their emitter is due) and 500 ms have passed since the last flip. */
  predicate PhaseFlips(s: Snapshot, now: u32)
  {
    s.busAttached && Due(s, Blinker3B, now) && Elapsed(now, s.lastBlinkerToggle) >= BlinkerInterval
  }

  /** The button part of the 0x81 block: once the hold has expired the
      button is disarmed and its byte 1 cleared. */
  function ButtonBlock(s: Snapshot, now: u32): (r: Snapshot)
    requires WellFormed(s)
    ensures WellFormed(r)
  {
    if ButtonHeld(s, now) then s else s.(buttonActive := false, msgButton := s.msgButton[1 := 0x00])
  }

  /** The phase part of `send3BMessages`: with a transport present and 500 ms
      gone since the last flip, the phase flips and the time is recorded. */
  function BlinkerBlock(s: Snapshot, now: u32): Snapshot
  {
    if s.busAttached && Elapsed(now, s.lastBlinkerToggle) >= BlinkerInterval
    then s.(blinkerState := !s.blinkerState, lastBlinkerToggle := now)
    else s
  }

  /** The state change of emitter `e`'s block of the tick. When due, the
      button block first resolves the hold, the blinker block flips the phase
      if it is time, and every block records `now`. */
  function Step(s: Snapshot, e: Emitter, now: u32): (r: Snapshot)
    requires WellFormed(s)
    ensures WellFormed(r)
  {
    if !Due(s, e, now) then s
    else
      var r :=
        match e
        case Button81 => ButtonBlock(s, now)
        case Blinker3B => BlinkerBlock(s, now)
        case _ => s;
      r.(timers := s.timers.Set(e, now))
  }

  /** The frame 0x81 sends: the button's payload while it is held, else the idle payload. */
  function ButtonFrame(s: Snapshot, now: u32): Frame
  {
    Frame(0x81, if ButtonHeld(s, now) then s.msgButton else DefaultPayload)
  }

  /** Frames 0x3B3 and 0x3B2 carry the same payload, built with the phase as
      it stands after this tick's possible flip. */
  function BlinkerFrames(s: Snapshot, now: u32): seq<Frame>
  {
    var p := BlinkerPayload(BlinkerBlock(s, now).blinkerState, s.leftBlinker, s.rightBlinker);
    [Frame(0x3B3, p), Frame(0x3B2, p)]
  }

  /** What emitter `e` sends when it fires from state `s`. */
  function EmitterFrames(s: Snapshot, e: Emitter, now: u32): seq<Frame>
    requires WellFormed(s)
  {
    match e
    case Button81 => [ButtonFrame(s, now)]
    case Rpm => [Frame(0x204, RpmPayload(s.lastRpm))]
    case Speed => [Frame(0x202, SpeedPayload(s.lastSpeed))]
    case Temperature => [Frame(0x156, s.tempMessage)]
    case TirePressure => [Frame(0x3B5, TirePayload(s.tireKpa))]
    case Vin => [Frame(0x40A, s.vinMessages[0]), Frame(0x40A, s.vinMessages[1]), Frame(0x40A, s.vinMessages[2])]
    case Blinker3B => BlinkerFrames(s, now)
    case Drive109 => [Frame(0x109, Payload109)]
    case AbsTrac => [Frame(0x416, AbsTracPayload)]
  }

  /** What emitter `e`'s block hands to the transport: its frames when it is
      due and a transport is attached, else nothing. */
  function Emission(s: Snapshot, e: Emitter, now: u32): seq<Frame>
    requires WellFormed(s)
  {
    if s.busAttached && Due(s, e, now) then EmitterFrames(s, e, now) else []
  }

  // ---------------------------------------------------------------- properties

  /** One block touches only its own timer, and the button or blinker state
      when it is the button or blinker block; the vehicle settings and the
      VIN frames never change. */
  lemma StepFrame(s: Snapshot, e: Emitter, now: u32)
    requires WellFormed(s)
    ensures var r := Step(s, e, now);
      && r.timers.Get(e) == (if Due(s, e, now) then now else s.timers.Get(e))
      && (forall other :: other != e ==> r.timers.Get(other) == s.timers.Get(other))
      && r.busAttached == s.busAttached && r.vin == s.vin && r.vinMessages == s.vinMessages
      && r.tireKpa == s.tireKpa && r.lastRpm == s.lastRpm && r.lastSpeed == s.lastSpeed
      && r.tempMessage == s.tempMessage && r.leftBlinker == s.leftBlinker
      && r.rightBlinker == s.rightBlinker && r.buttonPressStart == s.buttonPressStart
      && (e != Button81 ==> r.buttonActive == s.buttonActive && r.msgButton == s.msgButton)
      && (e != Blinker3B ==> r.blinkerState == s.blinkerState && r.lastBlinkerToggle == s.lastBlinkerToggle)
  {
    if Due(s, e, now) {
      SetGet(s.timers, e, now);
    }
  }

  /** A block sends something exactly when a transport is attached and the
      block is due, and a due block always records `now`. */
  lemma FiresIffDue(s: Snapshot, e: Emitter, now: u32)
    requires WellFormed(s)
    ensures Emission(s, e, now) != [] <==> s.busAttached && Due(s, e, now)
    ensures Due(s, e, now) ==> Step(s, e, now).timers.Get(e) == now
    ensures !Due(s, e, now) ==> Step(s, e, now) == s
  {
    StepFrame(s, e, now);
  }

  /** The blocks in the order `mustang_tick` runs them, one per emitter. */
  const TickOrder: seq<Emitter> :=
    [Button81, Rpm, Speed, Temperature, TirePressure, Vin, Blinker3B, Drive109, AbsTrac]

  /** Run the blocks of `order` in turn. */
  function Run(s: Snapshot, order: seq<Emitter>, now: u32): (r: Snapshot)
    requires WellFormed(s)
    ensures WellFormed(r)
    decreases |order|
  {
    if order == [] then s else Run(Step(s, order[0], now), order[1..], now)
  }

  /** What a run of `order` hands to the transport, block by block. */
  function RunFrames(s: Snapshot, order: seq<Emitter>, now: u32): seq<Frame>
    requires WellFormed(s)
    decreases |order|
  {
    if order == [] then [] else Emission(s, order[0], now) + RunFrames(Step(s, order[0], now), order[1..], now)
  }

  /** The state after `mustang_tick(now)`: the nine blocks in the firmware's order. */
  function TickState(s: Snapshot, now: u32): (r: Snapshot)
    requires WellFormed(s)
    ensures WellFormed(r)
  {
    Run(s, TickOrder, now)
  }

  /** The frames `mustang_tick(now)` hands to the transport, in order. */
  function TickFrames(s: Snapshot, now: u32): seq<Frame>
    requires WellFormed(s)
  {
    RunFrames(s, TickOrder, now)
  }

  /** Running `[e] + rest` is running block `e`, then `rest`. */
  lemma RunCons(s: Snapshot, e: Emitter, rest: seq<Emitter>, now: u32)
    requires WellFormed(s)
    ensures Run(s, [e] + rest, now) == Run(Step(s, e, now), rest, now)
    ensures RunFrames(s, [e] + rest, now) == Emission(s, e, now) + RunFrames(Step(s, e, now), rest, now)
  {
    assert ([e] + rest)[1..] == rest;
  }

  /** No emitter appears twice in `order`. */
  predicate Distinct(order: seq<Emitter>)
  {
    forall i, j :: 0 <= i < j < |order| ==> order[i] != order[j]
  }

  /** After a run, an emitter of the run that was due on entry records
      `now`; every other timer keeps its time. */
  lemma {:induction false} RunTimer(s: Snapshot, order: seq<Emitter>, e: Emitter, now: u32)
    requires WellFormed(s) && Distinct(order)
    ensures Run(s, order, now).timers.Get(e) == if e in order && Due(s, e, now) then now else s.timers.Get(e)
    decreases |order|
  {
    if order != [] {
      var k := order[0];
      StepFrame(s, k, now);
      assert Distinct(order[1..]);
      RunTimer(Step(s, k, now), order[1..], e, now);
      if e == k {
        assert e !in order[1..] by {
          forall i | 0 <= i < |order[1..]|
            ensures order[1..][i] != e
          {
            assert order[1..][i] == order[i + 1];
          }
        }
      } else {
        assert e in order <==> e in order[1..] by {
          assert order == [k] + order[1..];
        }
      }
    }
  }

  /** A run changes no vehicle setting and never touches the VIN frames. */
  lemma {:induction false} RunKeepsSettings(s: Snapshot, order: seq<Emitter>, now: u32)
    requires WellFormed(s)
    ensures var r := Run(s, order, now);
      && r.busAttached == s.busAttached && r.vin == s.vin && r.vinMessages == s.vinMessages
      && r.tireKpa == s.tireKpa && r.lastRpm == s.lastRpm && r.lastSpeed == s.lastSpeed
      && r.tempMessage == s.tempMessage && r.leftBlinker == s.leftBlinker
      && r.rightBlinker == s.rightBlinker && r.buttonPressStart == s.buttonPressStart
    decreases |order|
  {
    if order != [] {
      StepFrame(s, order[0], now);
      RunKeepsSettings(Step(s, order[0], now), order[1..], now);
    }
  }

  /** The first block of a run with no repeats does not come back later in it. */
  lemma HeadNotInTail(order: seq<Emitter>)
    requires order != [] && Distinct(order)
    ensures Distinct(order[1..]) && order[0] !in order[1..]
    ensures forall e :: e != order[0] ==> (e in order <==> e in order[1..])
  {
    var rest := order[1..];
    forall i | 0 <= i < |rest|
      ensures rest[i] != order[0]
    {
      assert rest[i] == order[i + 1];
    }
    assert order == [order[0]] + rest;
  }

  /** A run resolves the button hold only if the 0x81 block is in it and due
      on entry: no other block touches what the hold check reads. */
  lemma {:induction false} RunButton(s: Snapshot, order: seq<Emitter>, now: u32)
    requires WellFormed(s) && Distinct(order)
    ensures var r := Run(s, order, now);
      var b := if Button81 in order && Due(s, Button81, now) then ButtonBlock(s, now) else s;
      r.buttonActive == b.buttonActive && r.msgButton == b.msgButton
    decreases |order|
  {
    if order != [] {
      var k := order[0];
      var s1 := Step(s, k, now);
      StepFrame(s, k, now);
      HeadNotInTail(order);
      RunButton(s1, order[1..], now);
      if k != Button81 {
        assert Due(s1, Button81, now) == Due(s, Button81, now);
        assert ButtonHeld(s1, now) == ButtonHeld(s, now);
      }
    }
  }

  /** A run flips the blink phase only if the blinker block is in it and due
      on entry, with a transport and 500 ms since the last flip. */
  lemma {:induction false} RunBlinker(s: Snapshot, order: seq<Emitter>, now: u32)
    requires WellFormed(s) && Distinct(order)
    ensures var r := Run(s, order, now);
      var p := if Blinker3B in order && Due(s, Blinker3B, now) then BlinkerBlock(s, now) else s;
      r.blinkerState == p.blinkerState && r.lastBlinkerToggle == p.lastBlinkerToggle
    decreases |order|
  {
    if order != [] {
      var k := order[0];
      var s1 := Step(s, k, now);
      StepFrame(s, k, now);
      HeadNotInTail(order);
      RunBlinker(s1, order[1..], now);
      if k != Blinker3B {
        assert Due(s1, Blinker3B, now) == Due(s, Blinker3B, now);
      }
    }
  }

  /** The timers after the tick, from the entry state alone. */
  function AdvancedTimers(s: Snapshot, now: u32): Timers
  {
    Timers(
      if Due(s, Button81, now) then now else s.timers.button81,
      if Due(s, Rpm, now) then now else s.timers.rpm,
      if Due(s, Speed, now) then now else s.timers.speed,
      if Due(s, Temperature, now) then now else s.timers.temperature,
      if Due(s, TirePressure, now) then now else s.timers.tirePressure,
      if Due(s, Vin, now) then now else s.timers.vin,
      if Due(s, Blinker3B, now) then now else s.timers.blinker3B,
      if Due(s, Drive109, now) then now else s.timers.drive109,
      if Due(s, AbsTrac, now) then now else s.timers.absTrac)
  }

  /** A reference definition of the tick from the entry state alone: the
      blocks touch disjoint parts of the state and read nothing another block
      writes, so the order they run in does not matter to the final state. */
  function TickOutcome(s: Snapshot, now: u32): Snapshot
    requires WellFormed(s)
  {
    var b := if Due(s, Button81, now) then ButtonBlock(s, now) else s;
    var p := if Due(s, Blinker3B, now) then BlinkerBlock(s, now) else s;
    s.(buttonActive := b.buttonActive, msgButton := b.msgButton,
       blinkerState := p.blinkerState, lastBlinkerToggle := p.lastBlinkerToggle,
       timers := AdvancedTimers(s, now))
  }

  /** Every emitter has exactly one block in the tick. */
  lemma TickOrderCovers(e: Emitter)
    ensures Distinct(TickOrder) && e in TickOrder
  {
    match e
    case Button81 => assert TickOrder[0] == e;
    case Rpm => assert TickOrder[1] == e;
    case Speed => assert TickOrder[2] == e;
    case Temperature => assert TickOrder[3] == e;
    case TirePressure => assert TickOrder[4] == e;
    case Vin => assert TickOrder[5] == e;
    case Blinker3B => assert TickOrder[6] == e;
    case Drive109 => assert TickOrder[7] == e;
    case AbsTrac => assert TickOrder[8] == e;
  }

  /** Over a whole tick, each emitter records `now` exactly when it was due
      on entry, and otherwise keeps its last-fired time. */
  lemma TickTimer(s: Snapshot, e: Emitter, now: u32)
    requires WellFormed(s)
    ensures TickState(s, now).timers.Get(e) == if Due(s, e, now) then now else s.timers.Get(e)
  {
    TickOrderCovers(e);
    RunTimer(s, TickOrder, e, now);
  }

  /** The timers after the tick, all at once. */
  lemma TickTimers(s: Snapshot, now: u32)
    requires WellFormed(s)
    ensures TickState(s, now).timers == AdvancedTimers(s, now)
  {
    TickTimer(s, Button81, now);
    TickTimer(s, Rpm, now);
    TickTimer(s, Speed, now);
    TickTimer(s, Temperature, now);
    TickTimer(s, TirePressure, now);
    TickTimer(s, Vin, now);
    TickTimer(s, Blinker3B, now);
    TickTimer(s, Drive109, now);
    TickTimer(s, AbsTrac, now);
  }

  /** Running the nine blocks in turn gives the reference outcome. */
  lemma TickStateIsOutcome(s: Snapshot, now: u32)
    requires WellFormed(s)
    ensures TickState(s, now) == TickOutcome(s, now)
  {
    RunKeepsSettings(s, TickOrder, now);
    TickOrderCovers(Button81);
    TickOrderCovers(Blinker3B);
    RunButton(s, TickOrder, now);
    RunBlinker(s, TickOrder, now);
    TickTimers(s, now);
  }

  /** The blocks may run in any order: every run of all nine blocks, each
      once, reaches the same reference outcome as the firmware's order. */
  lemma AnyOrder(s: Snapshot, order: seq<Emitter>, now: u32)
    requires WellFormed(s) && Distinct(order) && forall e :: e in order
    ensures Run(s, order, now) == TickOutcome(s, now)
  {
    RunKeepsSettings(s, order, now);
    RunButton(s, order, now);
    RunBlinker(s, order, now);
    AnyOrderTimers(s, order, now);
  }

  /** Every run of all nine blocks, each once, leaves the timers the tick does. */
  lemma AnyOrderTimers(s: Snapshot, order: seq<Emitter>, now: u32)
    requires WellFormed(s) && Distinct(order) && forall e :: e in order
    ensures Run(s, order, now).timers == AdvancedTimers(s, now)
  {
    var r := Run(s, order, now);
    forall e
      ensures r.timers.Get(e) == AdvancedTimers(s, now).Get(e)
    {
      RunTimer(s, order, e, now);
    }
    assert r.timers.button81 == r.timers.Get(Button81);
    assert r.timers.rpm == r.timers.Get(Rpm);
    assert r.timers.speed == r.timers.Get(Speed);
    assert r.timers.temperature == r.timers.Get(Temperature);
    assert r.timers.tirePressure == r.timers.Get(TirePressure);
    assert r.timers.vin == r.timers.Get(Vin);
    assert r.timers.blinker3B == r.timers.Get(Blinker3B);
    assert r.timers.drive109 == r.timers.Get(Drive109);
    assert r.timers.absTrac == r.timers.Get(AbsTrac);
  }

  /** The blink phase after a tick: flipped exactly when a transport is
      attached, the blinker block was due and 500 ms had passed since the
      last flip, which is then recorded as `now`. */
  lemma TickBlinkPhase(s: Snapshot, now: u32)
    requires WellFormed(s)
    ensures var r := TickState(s, now);
      && r.blinkerState == (if PhaseFlips(s, now) then !s.blinkerState else s.blinkerState)
      && r.lastBlinkerToggle == (if PhaseFlips(s, now) then now else s.lastBlinkerToggle)
  {
    TickStateIsOutcome(s, now);
  }

  /** The button after a tick: when the 0x81 block was due and the hold had
      expired, the button is disarmed and byte 1 of its payload cleared;
      otherwise both are as they were. */
  lemma TickButtonHold(s: Snapshot, now: u32)
    requires WellFormed(s)
    ensures var r := TickState(s, now);
      if Due(s, Button81, now) && !ButtonHeld(s, now)
      then !r.buttonActive && r.msgButton == s.msgButton[1 := 0x00]
      else r.buttonActive == s.buttonActive && r.msgButton == s.msgButton
  {
    TickStateIsOutcome(s, now);
  }

  /** A tick changes no vehicle setting: speeds, temperatures, tires, VIN and
      its frames, blinker flags, the transport and the press time. */
  lemma TickKeepsSettings(s: Snapshot, now: u32)
    requires WellFormed(s)
    ensures var r := TickState(s, now);
      && r.busAttached == s.busAttached && r.vin == s.vin && r.vinMessages == s.vinMessages
      && r.tireKpa == s.tireKpa && r.lastRpm == s.lastRpm && r.lastSpeed == s.lastSpeed
      && r.tempMessage == s.tempMessage && r.leftBlinker == s.leftBlinker
      && r.rightBlinker == s.rightBlinker && r.buttonPressStart == s.buttonPressStart
  {
    RunKeepsSettings(s, TickOrder, now);
  }

  /** A run with no transport hands nothing over, whatever is due. */
  lemma {:induction false} RunSilentWithoutTransport(s: Snapshot, order: seq<Emitter>, now: u32)
    requires WellFormed(s) && !s.busAttached
    ensures RunFrames(s, order, now) == []
    decreases |order|
  {
    if order != [] {
      StepFrame(s, order[0], now);
      RunSilentWithoutTransport(Step(s, order[0], now), order[1..], now);
    }
  }

  /** Without a transport a tick sends nothing, though its timers still advance. */
  lemma NoTransportNoFrames(s: Snapshot, now: u32)
    requires WellFormed(s) && !s.busAttached
    ensures TickFrames(s, now) == []
    ensures TickState(s, now).timers == AdvancedTimers(s, now)
  {
    RunSilentWithoutTransport(s, TickOrder, now);
    TickTimers(s, now);
  }

  /** With nothing due, a run changes nothing and sends nothing. */
  lemma {:induction false} RunIdle(s: Snapshot, order: seq<Emitter>, now: u32)
    requires WellFormed(s) && forall e :: !Due(s, e, now)
    ensures Run(s, order, now) == s && RunFrames(s, order, now) == []
    decreases |order|
  {
    if order != [] {
      FiresIffDue(s, order[0], now);
      RunIdle(s, order[1..], now);
    }
  }

  /** Rate limiting: a second tick at the same instant finds nothing due, so
      it sends nothing and changes nothing. */
  lemma TickTwiceSameInstant(s: Snapshot, now: u32)
    requires WellFormed(s)
    ensures var r := TickState(s, now);
      TickState(r, now) == r && TickFrames(r, now) == []
  {
    var r := TickState(s, now);
    forall e
      ensures !Due(r, e, now)
    {
      TickTimer(s, e, now);
    }
    RunIdle(r, TickOrder, now);
  }

  /** What the blocks of `order` would send, each judged from state `s`. */
  function EntryFrames(s: Snapshot, order: seq<Emitter>, now: u32): seq<Frame>
    requires WellFormed(s)
    decreases |order|
  {
    if order == [] then [] else Emission(s, order[0], now) + EntryFrames(s, order[1..], now)
  }

  /** Block `k` does not change what another block `e` sends. */
  lemma StepKeepsEmission(s: Snapshot, k: Emitter, e: Emitter, now: u32)
    requires WellFormed(s) && k != e
    ensures Emission(Step(s, k, now), e, now) == Emission(s, e, now)
  {
    StepKeepsDue(s, k, e, now);
    StepKeepsFrames(s, k, e, now);
    SameEmission(Step(s, k, now), s, e, now);
  }

  /** Block `k` leaves the transport flag and whether another block `e` is due as they were. */
  lemma StepKeepsDue(s: Snapshot, k: Emitter, e: Emitter, now: u32)
    requires WellFormed(s) && k != e
    ensures Step(s, k, now).busAttached == s.busAttached
    ensures Due(Step(s, k, now), e, now) == Due(s, e, now)
  {
    StepFrame(s, k, now);
  }

  /** What a block sends depends only on the transport flag, its timer and the frames it builds. */
  lemma SameEmission(s: Snapshot, t: Snapshot, e: Emitter, now: u32)
    requires WellFormed(s) && WellFormed(t)
    requires s.busAttached == t.busAttached && Due(s, e, now) == Due(t, e, now)
    requires EmitterFrames(s, e, now) == EmitterFrames(t, e, now)
    ensures Emission(s, e, now) == Emission(t, e, now)
  {
  }

  /** Block `k` does not change the frames another block `e` builds. */
  lemma StepKeepsFrames(s: Snapshot, k: Emitter, e: Emitter, now: u32)
    requires WellFormed(s) && k != e
    ensures EmitterFrames(Step(s, k, now), e, now) == EmitterFrames(s, e, now)
  {
    StepFrame(s, k, now);
  }

  /** Two states that agree on what each block of `order` sends agree on the whole. */
  lemma {:induction false} EntryFramesAgree(s: Snapshot, t: Snapshot, order: seq<Emitter>, now: u32)
    requires WellFormed(s) && WellFormed(t)
    requires forall e :: e in order ==> Emission(s, e, now) == Emission(t, e, now)
    ensures EntryFrames(s, order, now) == EntryFrames(t, order, now)
    decreases |order|
  {
    if order != [] {
      assert order[0] in order;
      forall e | e in order[1..]
        ensures e in order
      {
        var i :| 0 <= i < |order[1..]| && order[1..][i] == e;
        assert order[i + 1] == e;
      }
      EntryFramesAgree(s, t, order[1..], now);
    }
  }

  /** The frames of a run are those its blocks would send from the entry
      state: no block changes what a later block sends. */
  lemma {:induction false} RunFramesFromEntry(s: Snapshot, order: seq<Emitter>, now: u32)
    requires WellFormed(s) && Distinct(order)
    ensures RunFrames(s, order, now) == EntryFrames(s, order, now)
    decreases |order|
  {
    if order != [] {
      var k := order[0];
      var s1 := Step(s, k, now);
      HeadNotInTail(order);
      RunFramesFromEntry(s1, order[1..], now);
      forall e | e in order[1..]
        ensures Emission(s1, e, now) == Emission(s, e, now)
      {
        StepKeepsEmission(s, k, e, now);
      }
      EntryFramesAgree(s1, s, order[1..], now);
    }
  }

  /** The frames of a tick, in the firmware's order, each as its block would
      send it from the state the tick started in. */
  lemma TickFramesFromEntry(s: Snapshot, now: u32)
    requires WellFormed(s)
    ensures TickFrames(s, now) == EntryFrames(s, TickOrder, now)
  {
    TickOrderCovers(Button81);
    RunFramesFromEntry(s, TickOrder, now);
  }

  /** A button press followed by a tick in which 0x81 is due: the first frame
      carries the button's payload while the 100 ms hold lasts, and the idle
      payload after it, when the button is also disarmed and byte 1 cleared. */
  lemma PressThenTick(s: Snapshot, command: string, pressTime: u32, now: u32)
    requires WellFormed(s) && IsButtonCommand(command)
    requires s.busAttached && Due(s, Button81, now)
    ensures var pressed := HandleCommand(s, [Token(command, 0)], pressTime);
      var frames := TickFrames(pressed, now);
      var after := TickState(pressed, now);
      && |frames| > 0
      && (Elapsed(now, pressTime) <= ButtonHoldDuration ==>
            frames[0] == Frame(0x81, pressed.msgButton) && after.buttonActive)
      && (Elapsed(now, pressTime) > ButtonHoldDuration ==>
            frames[0] == Frame(0x81, DefaultPayload) && !after.buttonActive && after.msgButton[1] == 0x00)
  {
    var pressed := HandleCommand(s, [Token(command, 0)], pressTime);
    ButtonCommand(s, command, pressTime);
    assert Due(pressed, Button81, now);
    assert TickOrder == [Button81] + TickOrder[1..];
    RunCons(pressed, Button81, TickOrder[1..], now);
    TickButtonHold(pressed, now);
  }
}
