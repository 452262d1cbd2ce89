/**
 * The reset switch of src/os/OSResetSW.c: the interrupt handler, the one-shot reset callback
 * and the debounced switch state, over the driver's statics `Down`, `Hold` and `ResetCallback`.
 *
 * The hardware is recorded rather than driven: the value read from the processor-interface
 * interrupt cause register is a parameter, the values written to it are logged, the 0x200
 * interrupt mask is a flag, and a callback is an opaque id whose invocations are logged.
 * The system time and `OSMillisecondsToTicks(50)` are parameters.
 */
module OSResetSW {
  import opened Wrappers

  const TwoTo63: int := 0x8000_0000_0000_0000
  const TwoTo64: int := 0x1_0000_0000_0000_0000

  /** C `long long`. */
  type s64 = x: int | -TwoTo63 <= x < TwoTo63

  /** Two's-complement wrap-around of a 64-bit signed result. */
  function Wrap64(x: int): (r: s64)
    ensures -TwoTo63 <= x < TwoTo63 ==> r == x
    ensures (r - x) % TwoTo64 == 0
  {
    var m := (x + TwoTo63) % TwoTo64;
    assert (m - TwoTo63 - x) == -((x + TwoTo63) / TwoTo64) * TwoTo64;
    m - TwoTo63
  }

  /** The cause-register bit that reads 0 while the switch is pressed. */
  const ResetSwitchBit: bv32 := 0x10000

  /** The cause-register bit of a pending reset-switch interrupt, and the value that acknowledges it. */
  const ResetInterruptBit: bv32 := 0x2

  /** The driver's statics and the recorded hardware effects. */
  datatype SwitchState = SwitchState(
    down: int,                 // `Down`
    hold: s64,                 // `Hold`: the time the switch was seen released, 0 when none
    callback: Option<nat>,     // `ResetCallback`, None for NULL
    masked: bool,              // whether interrupt 0x200 is masked
    causeWrites: seq<bv32>,    // values written to the cause register, oldest first
    fired: seq<nat>)           // callbacks invoked, oldest first

  /** The statics are zero-initialised: nothing pressed, no hold time, no callback. */
  function Initial(masked: bool): (s: SwitchState)
    ensures s.down == 0 && s.hold == 0 && s.callback.None? && s.causeWrites == [] && s.fired == []
  {
    SwitchState(0, 0, None, masked, [], [])
  }

  /**
   * `__OSResetSWInterruptHandler`: the switch is down, the interrupt is acknowledged and masked,
   * and an installed callback is uninstalled and then invoked.
   */
  function HandleInterrupt(s: SwitchState): (t: SwitchState)
    ensures t.down == 1 && t.hold == s.hold && t.masked && t.causeWrites == s.causeWrites + [2]
    ensures t.callback.None?
    ensures s.callback.Some? ==> t.fired == s.fired + [s.callback.value]
    ensures s.callback.None? ==> t.fired == s.fired
  {
    var t := s.(down := 1, causeWrites := s.causeWrites + [2], masked := true);
    match s.callback
    case Some(cb) => t.(callback := None, fired := t.fired + [cb])
    case None => t
  }

  /**
   * `OSSetResetCallback`: installs `cb` and returns the previous callback. A real callback
   * acknowledges a pending interrupt and unmasks 0x200; NULL masks it.
   */
  function SetCallback(s: SwitchState, cb: Option<nat>): (r: (SwitchState, Option<nat>))
    ensures r.1 == s.callback && r.0.callback == cb
    ensures !r.0.masked <==> cb.Some?
    ensures r.0.causeWrites == s.causeWrites + (if cb.Some? then [2] else [])
    ensures r.0.down == s.down && r.0.hold == s.hold && r.0.fired == s.fired
  {
    var t := s.(callback := cb);
    if cb.Some? then (t.(causeWrites := t.causeWrites + [2], masked := false), s.callback)
    else (t.(masked := true), s.callback)
  }

  /**
   * `OSGetResetSwitchState` with cause-register value `reg` at system time `now`, where
   * `debounce` is `OSMillisecondsToTicks(50)`: 1 while the switch is pressed or within the
   * debounce time after its release, else 0.
   */
  function Poll(s: SwitchState, reg: bv32, now: s64, debounce: nat): (r: (SwitchState, int))
    ensures r.1 == 0 || r.1 == 1
    ensures r.1 == 1 <==>
      reg & ResetSwitchBit == 0 || s.down != 0 || (s.hold != 0 && Wrap64(now - s.hold) < debounce)
    ensures r.0.callback == s.callback && r.0.masked == s.masked && r.0.fired == s.fired
  {
    if reg & ResetSwitchBit == 0 then
      (s.(down := 1), 1)
    else if s.down != 0 then
      if reg & ResetInterruptBit != 0 then
        (s.(causeWrites := s.causeWrites + [2], down := 1), 1)
      else
        (s.(down := 0, hold := now), 1)
    else if s.hold != 0 && Wrap64(now - s.hold) < debounce then
      (s, 1)
    else
      (s.(hold := 0), 0)
  }

  /** While the switch is pressed, a poll records it as down and reports 1. */
  lemma PressedReadsDown(s: SwitchState, reg: bv32, now: s64, debounce: nat)
    requires reg & ResetSwitchBit == 0
    ensures Poll(s, reg, now, debounce) == (s.(down := 1), 1)
  {
  }

  /**
   * A poll that sees the switch released after it was down keeps reporting 1: it acknowledges a
   * pending interrupt and stays down, or else clears `Down` and starts the hold time.
   */
  lemma ReleaseStartsHold(s: SwitchState, reg: bv32, now: s64, debounce: nat)
    requires reg & ResetSwitchBit != 0 && s.down != 0
    ensures var (t, r) := Poll(s, reg, now, debounce);
      r == 1 &&
      (reg & ResetInterruptBit != 0 ==> t == s.(causeWrites := s.causeWrites + [2], down := 1)) &&
      (reg & ResetInterruptBit == 0 ==> t == s.(down := 0, hold := now))
  {
  }

  /**
   * After the release seen at a positive time `t0`, the switch still reads 1 for `debounce` ticks;
   * at the first poll after that it reads 0 and the hold time is cleared.
   */
  lemma DebounceWindow(s: SwitchState, reg: bv32, t0: s64, now: s64, debounce: nat)
    requires reg & ResetSwitchBit != 0 && reg & ResetInterruptBit == 0 && s.down != 0
    requires 0 < t0 <= now
    ensures var held := Poll(s, reg, t0, debounce).0;
      var (t, r) := Poll(held, reg, now, debounce);
      (now - t0 < debounce ==> r == 1 && t == held) &&
      (now - t0 >= debounce ==> r == 0 && t == held.(hold := 0))
  {
    var held := Poll(s, reg, t0, debounce).0;
    assert held.hold == t0 && held.down == 0;
    assert Wrap64(now - t0) == now - t0;
  }

  /** What the driver's three entry points can be asked to do. */
  datatype Event = Interrupt | Install(cb: Option<nat>) | Query(reg: bv32, now: s64)

  /** The state after a sequence of events. */
  function Run(s: SwitchState, events: seq<Event>, debounce: nat): SwitchState
    decreases |events|
  {
    if |events| == 0 then s
    else
      var e := events[0];
      var t := match e
        case Interrupt => HandleInterrupt(s)
        case Install(cb) => SetCallback(s, cb).0
        case Query(reg, now) => Poll(s, reg, now, debounce).0;
      Run(t, events[1..], debounce)
  }

  /** The number of installs of a real callback in a sequence of events. */
  function Installs(events: seq<Event>): nat
  {
    if |events| == 0 then 0
    else (if events[0].Install? && events[0].cb.Some? then 1 else 0) + Installs(events[1..])
  }

  /**
   * A callback fires at most once per install: over any sequence of events the number of
   * invocations is at most the number of installs, plus one for a callback installed at the start.
   */
  lemma {:induction false} FiresAtMostOncePerInstall(s: SwitchState, events: seq<Event>, debounce: nat)
    ensures |Run(s, events, debounce).fired| <= |s.fired| + (if s.callback.Some? then 1 else 0) + Installs(events)
    decreases |events|
  {
    if |events| > 0 {
      var e := events[0];
      var t := match e
        case Interrupt => HandleInterrupt(s)
        case Install(cb) => SetCallback(s, cb).0
        case Query(reg, now) => Poll(s, reg, now, debounce).0;
      FiresAtMostOncePerInstall(t, events[1..], debounce);
    }
  }

  /** Starting from the zero-initialised statics, there are never more invocations than installs. */
  lemma NoFireWithoutInstall(masked: bool, events: seq<Event>, debounce: nat)
    ensures |Run(Initial(masked), events, debounce).fired| <= Installs(events)
  {
    FiresAtMostOncePerInstall(Initial(masked), events, debounce);
  }

  /** The driver: its statics as fields, the hardware effects as recorded fields. */
  class ResetSwitch {
    var down: int
    var hold: s64
    var resetCallback: Option<nat>
    var masked: bool
    var causeWrites: seq<bv32>
    var fired: seq<nat>

    function State(): SwitchState
      reads this
    {
      SwitchState(down, hold, resetCallback, masked, causeWrites, fired)
    }

    constructor (initiallyMasked: bool)
      ensures State() == Initial(initiallyMasked)
    {
      down := 0;
      hold := 0;
      resetCallback := None;
      masked := initiallyMasked;
      causeWrites := [];
      fired := [];
    }

    /** `__OSResetSWInterruptHandler`. */
    method InterruptHandler()
      modifies this
      ensures State() == HandleInterrupt(old(State()))
    {
      down := 1;
      causeWrites := causeWrites + [2];
      masked := true;
      if resetCallback.Some? {
        var callback := resetCallback.value;
        resetCallback := None;
        fired := fired + [callback];
      }
    }

    /** `OSSetResetCallback`. */
    method SetResetCallback(callback: Option<nat>) returns (prevCallback: Option<nat>)
      modifies this
      ensures (State(), prevCallback) == SetCallback(old(State()), callback)
    {
      prevCallback := resetCallback;
      resetCallback := callback;
      if callback.Some? {
        causeWrites := causeWrites + [2];
        masked := false;
      } else {
        masked := true;
      }
    }

    /** `OSGetResetSwitchState`. */
    method GetResetSwitchState(reg: bv32, now: s64, debounce: nat) returns (state: int)
      modifies this
      ensures (State(), state) == Poll(old(State()), reg, now, debounce)
    {
      if reg & ResetSwitchBit == 0 {
        down := 1;
        state := 1;
      } else if down != 0 {
        if reg & ResetInterruptBit != 0 {
          causeWrites := causeWrites + [2];
          down := 1;
        } else {
          down := 0;
          hold := now;
        }
        state := 1;
      } else if hold != 0 && Wrap64(now - hold) < debounce {
        state := 1;
      } else {
        state := 0;
        hold := 0;
      }
    }
  }
}
