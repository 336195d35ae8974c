// The yogurt maker's firmware: the status bit set, the control step that
// moves it through cooking, cooling and incubating while counting down two
// millisecond timers, and the main loop that commits the next status.
module Firmware {
  import opened Wire

  /** `std::bitset<8>`: bit i is set when `s & Mask(i)` is not zero. */
  type Bitset = StatusBits

  /** `int16_t`. */
  type Int16 = x: int | -0x8000 <= x < 0x8000

  const STATUS_RUNNING: nat := 0
  const STATUS_COOKING: nat := 1
  const STATUS_COOLING: nat := 2
  const STATUS_INCUBATING: nat := 3

  const INITIAL_COOK_MS: Word := 30 * 60 * 1000
  const INITIAL_INCUBATE_MS: Word := 8 * 60 * 60 * 1000

  const COOK_TARGET: Int16 := 85
  const INCUBATE_TARGET: Int16 := 43
  /** The heater stays off while the temperature is less than this far from the target. */
  const TOLERANCE: nat := 5

  // ---------------------------------------------------------------- bit set

  /** The mask of bit i. */
  function Mask(i: nat): Bitset
    requires i < 8
  {
    match i
    case 0 => 0x01
    case 1 => 0x02
    case 2 => 0x04
    case 3 => 0x08
    case 4 => 0x10
    case 5 => 0x20
    case 6 => 0x40
    case _ => 0x80
  }

  predicate Test(s: Bitset, i: nat)
    requires i < 8
  {
    s & Mask(i) != 0
  }

  function Set(s: Bitset, i: nat): (r: Bitset)
    requires i < 8
    ensures Test(r, i)
  {
    s | Mask(i)
  }

  function Reset(s: Bitset, i: nat): (r: Bitset)
    requires i < 8
    ensures !Test(r, i)
  {
    s & !Mask(i)
  }

  function Flip(s: Bitset, i: nat): (r: Bitset)
    requires i < 8
    ensures Test(r, i) <==> !Test(s, i)
  {
    s ^ Mask(i)
  }

  /** Setting, resetting or flipping one bit leaves every other bit as it was. */
  lemma OtherBitsKept(s: Bitset, i: nat, j: nat)
    requires i < 8 && j < 8 && i != j
    ensures Test(Set(s, i), j) == Test(s, j)
    ensures Test(Reset(s, i), j) == Test(s, j)
    ensures Test(Flip(s, i), j) == Test(s, j)
  {
    var a, b := Mask(i), Mask(j);
    assert a & b == 0 by {
      assert a == 1 << i as bv8 && b == 1 << j as bv8;
    }
  }

  // ---------------------------------------------------------------- control step

  /** A characteristic value the firmware sets: a millisecond count (four bytes) or the status (one byte). */
  datatype Value = Time(ms: Word) | StatusValue(bits: Bitset)

  /** The bytes a value is sent as. */
  function Payload(v: Value): (payload: seq<Byte>)
    ensures v.Time? ==> |payload| == 4 && LoadWord(payload) == Some(v.ms)
    ensures v.StatusValue? ==> |payload| == 1 && DecodeStatus(payload) == v.bits
  {
    match v
    case Time(ms) => EncodeTime(ms)
    case StatusValue(bits) => EncodeStatus(bits)
  }

  /** A notification the firmware sends: the characteristic and its new value. */
  datatype Note = Notify(uuid: Uuid, value: Value)

  /** What one control step decides: the next status, the heater, the two timers and the notifications sent. */
  datatype ControlOutput = ControlOutput(nextStatus: Bitset, heaterOn: bool, cookMs: Word, incubateMs: Word, notes: seq<Note>)

  /** Cooking: running, not cooling, cooking set (incubating, if also set, is ignored). */
  predicate CookingPhase(s: Bitset)
  {
    Test(s, STATUS_RUNNING) && !Test(s, STATUS_COOLING) && Test(s, STATUS_COOKING)
  }

  /** Incubating: running, not cooling, not cooking, incubating set. */
  predicate IncubatingPhase(s: Bitset)
  {
    Test(s, STATUS_RUNNING) && !Test(s, STATUS_COOLING) && !Test(s, STATUS_COOKING) && Test(s, STATUS_INCUBATING)
  }

  function TargetTemp(s: Bitset): (t: Int16)
    ensures t == COOK_TARGET <==> Test(s, STATUS_COOKING)
    ensures t == INCUBATE_TARGET <==> !Test(s, STATUS_COOKING)
  {
    if Test(s, STATUS_COOKING) then COOK_TARGET else INCUBATE_TARGET
  }

  function Abs(x: int): nat
  {
    if x < 0 then -x else x
  }

  /** Whether a temperature is close enough to the target for the timer to run. */
  predicate InTolerance(s: Bitset, currentTemp: Int16)
  {
    Abs(currentTemp - TargetTemp(s)) < TOLERANCE
  }

  /** One control step over a status and the two timers, given the elapsed time and the current temperature. */
  function Control(status: Bitset, cookMs: Word, incubateMs: Word, delta: Word, currentTemp: Int16): (r: ControlOutput)
    // not running: nothing changes and the heater is off
    ensures !Test(status, STATUS_RUNNING) ==> r == ControlOutput(status, false, cookMs, incubateMs, [])
    // cooling: heater off, timers kept; at or below the target the next status is exactly {incubating}
    ensures Test(status, STATUS_RUNNING) && Test(status, STATUS_COOLING) ==>
      && !r.heaterOn && r.cookMs == cookMs && r.incubateMs == incubateMs && r.notes == []
      && r.nextStatus == if currentTemp <= TargetTemp(status) then 0x08 else status
    // running with no mode: nothing changes
    ensures Test(status, STATUS_RUNNING) && !Test(status, STATUS_COOLING) && !Test(status, STATUS_COOKING) && !Test(status, STATUS_INCUBATING) ==>
      r == ControlOutput(status, false, cookMs, incubateMs, [])
    // the heater runs only to bring an active phase back within tolerance, and then nothing else happens
    ensures r.heaterOn <==> (CookingPhase(status) || IncubatingPhase(status)) && !InTolerance(status, currentTemp)
    ensures r.heaterOn ==> r == ControlOutput(status, true, cookMs, incubateMs, [])
    // the timers only count down
    ensures r.cookMs <= cookMs && r.incubateMs <= incubateMs
    // cooking within tolerance: the cook timer drops by delta, or ends and the status moves to cooling
    ensures CookingPhase(status) && InTolerance(status, currentTemp) ==>
      && r.incubateMs == incubateMs
      && (cookMs > delta ==> r.cookMs == cookMs - delta && r.nextStatus == status)
      && (cookMs <= delta ==> r.cookMs == 0 && r.nextStatus == (status & 0xF0) | 0x05)
      // the remaining time is announced twice while counting, once when it runs out
      && r.notes == (if cookMs > delta then [Notify(COOK_TIME_UUID, Time(r.cookMs))] else []) + [Notify(COOK_TIME_UUID, Time(r.cookMs))]
    // incubating within tolerance: the incubation timer drops by delta, or ends and running is switched off
    ensures IncubatingPhase(status) && InTolerance(status, currentTemp) ==>
      && r.cookMs == cookMs
      && (incubateMs > delta ==> r.incubateMs == incubateMs - delta && r.nextStatus == status)
      && (incubateMs <= delta ==> r.incubateMs == 0 && r.nextStatus == status & 0xF0)
      // the remaining time is announced twice while counting, once when it runs out
      && r.notes == (if incubateMs > delta then [Notify(INCUBATION_TIME_UUID, Time(r.incubateMs))] else []) + [Notify(INCUBATION_TIME_UUID, Time(r.incubateMs))]
  {
    if !Test(status, STATUS_RUNNING) then ControlOutput(status, false, cookMs, incubateMs, [])
    else
      var target := TargetTemp(status);
      if Test(status, STATUS_COOLING) then
        var next := if currentTemp <= target then Set(0, STATUS_INCUBATING) else status;
        ControlOutput(next, false, cookMs, incubateMs, [])
      else if !Test(status, STATUS_COOKING) && !Test(status, STATUS_INCUBATING) then
        ControlOutput(status, false, cookMs, incubateMs, [])
      else
        var cooking := Test(status, STATUS_COOKING);
        var remaining := if cooking then cookMs else incubateMs;
        var channel := if cooking then COOK_TIME_UUID else INCUBATION_TIME_UUID;
        var nextStatusBit := if cooking then STATUS_COOLING else STATUS_RUNNING;
        if Abs(currentTemp - target) < TOLERANCE then
          var left: Word := if remaining > delta then remaining - delta else 0;
          var next :=
            if remaining > delta then status
            else Flip(Reset(Reset(Reset(status, STATUS_COOKING), STATUS_COOLING), STATUS_INCUBATING), nextStatusBit);
          var notes :=
            (if remaining > delta then [Notify(channel, Time(left))] else []) + [Notify(channel, Time(left))];
          ControlOutput(next, false, if cooking then left else cookMs, if cooking then incubateMs else left, notes)
        else
          ControlOutput(status, true, cookMs, incubateMs, [])
  }

  /** With the temperature pinned to the target, the heater is never switched on. */
  lemma PinnedTemperatureNeverHeats(status: Bitset, cookMs: Word, incubateMs: Word, delta: Word)
    ensures !Control(status, cookMs, incubateMs, delta, TargetTemp(status)).heaterOn
  {
  }

  /** The time passed to a control step: 0 on the first pass, else the `uint32_t` difference, which wraps. */
  function Elapsed(lastMillis: Word, now: Word): (d: Word)
    ensures lastMillis == 0 ==> d == 0
    ensures lastMillis != 0 && lastMillis <= now ==> d == now - lastMillis
    ensures lastMillis != 0 && now < lastMillis ==> d == now + 0x1_0000_0000 - lastMillis
  {
    if lastMillis == 0 then 0 else (now - lastMillis) % 0x1_0000_0000
  }

  // ---------------------------------------------------------------- the device

  class Controller {
    var status: Bitset
    var nextStatus: Bitset
    var heaterOn: bool
    var cookMsRemaining: Word
    var incubateMsRemaining: Word
    var lastMillis: Word
    /** The level last written to the heater's output pin. */
    var acEnable: bool
    /** Every notification sent so far, oldest first. */
    var notes: seq<Note>

    /** The initial globals, then setup announcing both timers. */
    constructor ()
      ensures status == 0 && nextStatus == 0 && !heaterOn && !acEnable && lastMillis == 0
      ensures cookMsRemaining == INITIAL_COOK_MS && incubateMsRemaining == INITIAL_INCUBATE_MS
      ensures notes == [Notify(COOK_TIME_UUID, Time(INITIAL_COOK_MS)),
                        Notify(INCUBATION_TIME_UUID, Time(INITIAL_INCUBATE_MS))]
    {
      status, nextStatus, heaterOn, acEnable, lastMillis := 0, 0, false, false, 0;
      cookMsRemaining := INITIAL_COOK_MS;
      incubateMsRemaining := INITIAL_INCUBATE_MS;
      notes := [Notify(COOK_TIME_UUID, Time(INITIAL_COOK_MS)),
                Notify(INCUBATION_TIME_UUID, Time(INITIAL_INCUBATE_MS))];
    }

    /** A write to the status characteristic: its first byte (the string's terminating zero when empty) becomes the status. */
    method OnStatusWrite(value: seq<Byte>)
      modifies this`status
      ensures status == DecodeStatus(value)
    {
      if |value| == 0 {
        status := 0;
      } else {
        status := value[0] as Bitset;
      }
    }

    /**
     * A write to the incubation time characteristic: the first four bytes of
     * the value followed by its terminating zero, read little-endian, become
     * the incubation timer. A value shorter than three bytes makes that read
     * run past the string's storage: `defined` is false and the model keeps
     * the timer.
     */
    method OnIncubationTimeWrite(value: seq<Byte>) returns (defined: bool)
      modifies this`incubateMsRemaining
      ensures defined <==> |value| >= 3
      ensures defined ==> LoadWord(value + [0]) == Some(incubateMsRemaining)
      ensures |value| >= 4 ==> LoadWord(value) == Some(incubateMsRemaining)
      ensures !defined ==> incubateMsRemaining == old(incubateMsRemaining)
    {
      if |value| < 3 {
        return false;
      }
      var terminated := value + [0];
      incubateMsRemaining := Join(terminated[0], terminated[1], terminated[2], terminated[3]);
      defined := true;
    }

    /**
     * The control step as the firmware runs it: `status` is only read, the
     * next status, the heater and the active timer are written, and each
     * timer update is announced.
     */
    method RunControl(delta: Word, currentTemp: Int16)
      modifies this`nextStatus, this`heaterOn, this`cookMsRemaining, this`incubateMsRemaining, this`notes
      ensures var out := Control(old(status), old(cookMsRemaining), old(incubateMsRemaining), delta, currentTemp);
        && nextStatus == out.nextStatus && heaterOn == out.heaterOn
        && cookMsRemaining == out.cookMs && incubateMsRemaining == out.incubateMs
        && notes == old(notes) + out.notes
    {
      var current := status;
      nextStatus := current;
      heaterOn := false;

      if !Test(current, STATUS_RUNNING) {
        return;
      }

      var target := TargetTemp(current);

      if Test(current, STATUS_COOLING) {
        if currentTemp <= target {
          nextStatus := 0;
          nextStatus := Set(nextStatus, STATUS_INCUBATING);
        }
        return;
      }

      // `cooking` says which timer `ms_remaining` refers to in the source
      var cooking: bool;
      var notifier: Uuid;
      var nextStatusBit: nat;
      if Test(current, STATUS_COOKING) {
        cooking, notifier, nextStatusBit := true, COOK_TIME_UUID, STATUS_COOLING;
      } else if Test(current, STATUS_INCUBATING) {
        cooking, notifier, nextStatusBit := false, INCUBATION_TIME_UUID, STATUS_RUNNING;
      } else {
        return;
      }

      if Abs(currentTemp - target) < TOLERANCE {
        var remaining := if cooking then cookMsRemaining else incubateMsRemaining;
        if remaining > delta {
          remaining := remaining - delta;
          notes := notes + [Notify(notifier, Time(remaining))];
        } else {
          remaining := 0;
          nextStatus := Reset(nextStatus, STATUS_COOKING);
          nextStatus := Reset(nextStatus, STATUS_COOLING);
          nextStatus := Reset(nextStatus, STATUS_INCUBATING);
          nextStatus := Flip(nextStatus, nextStatusBit);
        }
        if cooking {
          cookMsRemaining := remaining;
        } else {
          incubateMsRemaining := remaining;
        }
        notes := notes + [Notify(notifier, Time(remaining))];
      } else {
        heaterOn := true;
      }
    }

    /**
     * One pass of the main loop at time `now`: a control step with the
     * temperature pinned to the target, the status committed and announced
     * only when it changed, the heater pin driven, the time remembered.
     */
    method Loop(now: Word)
      modifies this`status, this`nextStatus, this`heaterOn, this`cookMsRemaining, this`incubateMsRemaining
      modifies this`notes, this`acEnable, this`lastMillis
      ensures var out := Control(old(status), old(cookMsRemaining), old(incubateMsRemaining),
                                 Elapsed(old(lastMillis), now), TargetTemp(old(status)));
        && status == nextStatus == out.nextStatus
        && acEnable == heaterOn == out.heaterOn
        && cookMsRemaining == out.cookMs && incubateMsRemaining == out.incubateMs
        && notes == old(notes) + out.notes
                    + if out.nextStatus != old(status) then [Notify(STATUS_UUID, StatusValue(out.nextStatus))] else []
      ensures lastMillis == now
      ensures !heaterOn
    {
      var delta: Word := if lastMillis == 0 then 0 else (now - lastMillis) % 0x1_0000_0000;
      PinnedTemperatureNeverHeats(status, cookMsRemaining, incubateMsRemaining, delta);
      RunControl(delta, TargetTemp(status));
      if status != nextStatus {
        status := nextStatus;
        notes := notes + [Notify(STATUS_UUID, StatusValue(status))];
      }
      acEnable := heaterOn;
      lastMillis := now;
    }
  }

  // ---------------------------------------------------------------- many passes of the loop

  /** The state that survives a pass of the loop. */
  datatype Timers = Timers(status: Bitset, cookMs: Word, incubateMs: Word)

  /** One pass of the loop with the temperature pinned to the target, as committed. */
  function Tick(t: Timers, delta: Word): Timers
  {
    var out := Control(t.status, t.cookMs, t.incubateMs, delta, TargetTemp(t.status));
    Timers(out.nextStatus, out.cookMs, out.incubateMs)
  }

  function Ticks(t: Timers, deltas: seq<Word>): Timers
    decreases |deltas|
  {
    if deltas == [] then t else Ticks(Tick(t, deltas[0]), deltas[1..])
  }

  function Sum(deltas: seq<Word>): nat
  {
    if deltas == [] then 0 else deltas[0] + Sum(deltas[1..])
  }

  /** While less time has passed than the cook timer holds, cooking goes on and the timer drops by exactly the time passed. */
  lemma {:induction false} CookCountdown(t: Timers, deltas: seq<Word>)
    requires CookingPhase(t.status) && Sum(deltas) < t.cookMs
    ensures Ticks(t, deltas) == Timers(t.status, t.cookMs - Sum(deltas), t.incubateMs)
    decreases |deltas|
  {
    if deltas != [] {
      var t' := Tick(t, deltas[0]);
      assert t' == Timers(t.status, t.cookMs - deltas[0], t.incubateMs);
      CookCountdown(t', deltas[1..]);
    }
  }

  /** A status without the running bit stays put however long the loop runs. */
  lemma {:induction false} StoppedStaysStopped(t: Timers, deltas: seq<Word>)
    requires !Test(t.status, STATUS_RUNNING)
    ensures Ticks(t, deltas) == t
    decreases |deltas|
  {
    if deltas != [] {
      StoppedStaysStopped(Tick(t, deltas[0]), deltas[1..]);
    }
  }

  /**
   * The end of cooking: once the cook timer runs out, {running, cooking}
   * becomes {running, cooling}; the next pass finds the (pinned) temperature
   * at the target and moves to {incubating} with running cleared, where the
   * loop waits until the status is written again.
   */
  lemma CookingEndsInIdleIncubation(t: Timers, delta: Word, deltas: seq<Word>)
    requires t.status == 0x03 && t.cookMs <= delta
    ensures Tick(t, delta) == Timers(0x05, 0, t.incubateMs)
    ensures Ticks(Tick(t, delta), deltas) == if deltas == [] then Timers(0x05, 0, t.incubateMs) else Timers(0x08, 0, t.incubateMs)
  {
    assert Tick(t, delta) == Timers(0x05, 0, t.incubateMs);
    if deltas != [] {
      var t2 := Tick(Tick(t, delta), deltas[0]);
      assert t2 == Timers(0x08, 0, t.incubateMs);
      StoppedStaysStopped(t2, deltas[1..]);
    }
  }

  /** The end of incubation: once the incubation timer runs out, {running, incubating} becomes idle. */
  lemma IncubationEndsIdle(t: Timers, delta: Word)
    requires t.status == 0x09 && t.incubateMs <= delta
    ensures Tick(t, delta) == Timers(0x00, t.cookMs, 0)
  {
  }
}
