/** The stepper task's pulse executor: for each received message it clamps the
    interval to a safe minimum, sets the direction line, enables the driver,
    waits for it to settle, and emits `steps` HIGH/LOW pulses with a delay
    after each, yielding the CPU every 100 pulses. The pin writes, delays and
    yields are recorded as a trace of events. */
module StepperTask {
  import opened Common

  /** Minimum safe interval between pulses (microseconds). */
  const MinIntervalUs: nat := 50
  /** Settling delay after enabling the driver (microseconds). */
  const EnableSettleUs: nat := 10
  /** Width of the HIGH part of a pulse (microseconds). */
  const PulseWidthUs: nat := 5
  /** A yield happens at every pulse index divisible by this. */
  const YieldEvery: nat := 100

  datatype StepperDirection = Clockwise | CounterClockwise

  /** The message the stepper task receives. The four ramp fields are part of
      the message but the executor never reads them. */
  datatype StepperMessage = StepperMessage(
    steps: U32,
    intervalUs: U32,
    direction: StepperDirection,
    accelRampSteps: U32,
    decelRampSteps: U32,
    accelStartIntervalUs: U32,
    decelEndIntervalUs: U32)

  /** What the executor does to the outside world, in order. */
  datatype PinEvent =
    | SetDirection(clockwise: bool)
    | SetEnable(on: bool)
    | SetPulse(high: bool)
    | DelayUs(us: nat)
    | Yield

  /** The interval after clamping: max(interval, MinIntervalUs). */
  function SafeInterval(interval: U32): (r: U32)
    ensures r >= MinIntervalUs && r >= interval
    ensures r == interval || r == MinIntervalUs
  {
    if interval < MinIntervalUs then MinIntervalUs else interval
  }

  /** The events of pulse number i. */
  function PulseEvents(i: nat, safe: nat): seq<PinEvent>
  {
    [SetPulse(true), DelayUs(PulseWidthUs), SetPulse(false)]
    + (if safe > PulseWidthUs then [DelayUs(safe - PulseWidthUs)] else [])
    + (if i % YieldEvery == 0 then [Yield] else [])
  }

  /** The events of pulses 0 .. n-1, in order. */
  function PulseTrain(n: nat, safe: nat): seq<PinEvent>
    decreases n
  {
    if n == 0 then [] else PulseTrain(n - 1, safe) + PulseEvents(n - 1, safe)
  }

  /** Everything one message produces. */
  function CommandTrace(msg: StepperMessage): seq<PinEvent>
  {
    [SetDirection(msg.direction == Clockwise), SetEnable(true), DelayUs(EnableSettleUs)]
    + PulseTrain(msg.steps, SafeInterval(msg.intervalUs))
  }

  // ---------------------------------------------------------------------
  // Observations of a trace
  // ---------------------------------------------------------------------

  /** The levels written to the pulse line, in order. */
  function PulseLevels(t: seq<PinEvent>): seq<bool>
  {
    if t == [] then []
    else (if t[0].SetPulse? then [t[0].high] else []) + PulseLevels(t[1..])
  }

  /** The total explicit delay (microseconds). */
  function DelaySum(t: seq<PinEvent>): nat
  {
    if t == [] then 0
    else (if t[0].DelayUs? then t[0].us else 0) + DelaySum(t[1..])
  }

  /** The number of yields. */
  function YieldCount(t: seq<PinEvent>): nat
  {
    if t == [] then 0
    else (if t[0].Yield? then 1 else 0) + YieldCount(t[1..])
  }

  /** n pulses: HIGH, LOW, HIGH, LOW, ... */
  function HighLow(n: nat): (r: seq<bool>)
    ensures |r| == 2 * n
    ensures forall k :: 0 <= k < |r| ==> r[k] == (k % 2 == 0)
  {
    if n == 0 then [] else HighLow(n - 1) + [true, false]
  }

  lemma {:induction false} ObservationsAppend(a: seq<PinEvent>, b: seq<PinEvent>)
    ensures PulseLevels(a + b) == PulseLevels(a) + PulseLevels(b)
    ensures DelaySum(a + b) == DelaySum(a) + DelaySum(b)
    ensures YieldCount(a + b) == YieldCount(a) + YieldCount(b)
    decreases |a|
  {
    if a != [] {
      assert (a + b)[1..] == a[1..] + b;
      ObservationsAppend(a[1..], b);
    } else {
      assert a + b == b;
    }
  }

  lemma PulseEventsObserved(i: nat, safe: nat)
    requires safe >= MinIntervalUs
    ensures PulseLevels(PulseEvents(i, safe)) == [true, false]
    ensures DelaySum(PulseEvents(i, safe)) == safe
    ensures YieldCount(PulseEvents(i, safe)) == if i % YieldEvery == 0 then 1 else 0
  {
    var tail := if i % YieldEvery == 0 then [Yield] else [];
    var t3 := [DelayUs(safe - PulseWidthUs)] + tail;
    var t2 := [SetPulse(false)] + t3;
    var t1 := [DelayUs(PulseWidthUs)] + t2;
    var t0 := [SetPulse(true)] + t1;
    assert PulseEvents(i, safe) == t0;
    assert t0[1..] == t1 && t1[1..] == t2 && t2[1..] == t3 && t3[1..] == tail;
    if tail != [] {
      assert tail[1..] == [];
    }
    assert PulseLevels(tail) == [] && DelaySum(tail) == 0;
    assert YieldCount(tail) == if i % YieldEvery == 0 then 1 else 0;
    assert PulseLevels(t3) == [] && DelaySum(t3) == safe - PulseWidthUs + DelaySum(tail);
    assert YieldCount(t3) == YieldCount(tail);
    assert PulseLevels(t2) == [false] + PulseLevels(t3) && DelaySum(t2) == DelaySum(t3);
    assert YieldCount(t2) == YieldCount(t3);
    assert PulseLevels(t1) == PulseLevels(t2) && DelaySum(t1) == PulseWidthUs + DelaySum(t2);
    assert YieldCount(t1) == YieldCount(t2);
    assert PulseLevels(t0) == [true] + PulseLevels(t1) && DelaySum(t0) == DelaySum(t1);
    assert YieldCount(t0) == YieldCount(t1);
  }

  /** Quotient and remainder by 100. The divisor is a literal so that the
      solver reasons linearly, as for the clock's divisors in TouchTask. */
  lemma DivMod100(n: int, q: int, r: int)
    requires 0 <= r < 100 && n == 100 * q + r
    ensures n / 100 == q && n % 100 == r
  {
  }

  /** One more pulse adds a yield exactly when its index is a multiple of
      100: the count of started hundreds goes up by that much. */
  lemma YieldsStep(m: nat)
    ensures (m + YieldEvery - 1) / YieldEvery + (if m % YieldEvery == 0 then 1 else 0)
         == (m + 1 + YieldEvery - 1) / YieldEvery
  {
    var q, r := m / 100, m % 100;
    DivMod100(m, q, r);
    DivMod100(m + 100, q + 1, r);
    if r == 0 {
      DivMod100(m + 99, q, 99);
    } else {
      DivMod100(m + 99, q + 1, r - 1);
    }
  }

  /** A train of n pulses writes HIGH then LOW n times. */
  lemma {:induction false} PulseTrainLevels(n: nat, safe: nat)
    requires safe >= MinIntervalUs
    ensures PulseLevels(PulseTrain(n, safe)) == HighLow(n)
    decreases n
  {
    if n > 0 {
      PulseTrainLevels(n - 1, safe);
      ObservationsAppend(PulseTrain(n - 1, safe), PulseEvents(n - 1, safe));
      PulseEventsObserved(n - 1, safe);
    }
  }

  /** A train of n pulses spends n * safe microseconds in delays. */
  lemma {:induction false} PulseTrainDelay(n: nat, safe: nat)
    requires safe >= MinIntervalUs
    ensures DelaySum(PulseTrain(n, safe)) == n * safe
    decreases n
  {
    if n > 0 {
      PulseTrainDelay(n - 1, safe);
      ObservationsAppend(PulseTrain(n - 1, safe), PulseEvents(n - 1, safe));
      PulseEventsObserved(n - 1, safe);
      assert (n - 1) * safe + safe == n * safe;
    }
  }

  /** A train of n pulses yields once per started hundred pulses. */
  lemma {:induction false} PulseTrainYields(n: nat, safe: nat)
    requires safe >= MinIntervalUs
    ensures YieldCount(PulseTrain(n, safe)) == (n + YieldEvery - 1) / YieldEvery
    decreases n
  {
    if n > 0 {
      PulseTrainYields(n - 1, safe);
      ObservationsAppend(PulseTrain(n - 1, safe), PulseEvents(n - 1, safe));
      PulseEventsObserved(n - 1, safe);
      YieldsStep(n - 1);
    }
  }

  /** What one message does, observed from outside: exactly msg.steps
      HIGH/LOW pulses (none for zero steps), 10 + steps * max(interval, 50)
      microseconds of explicit delay, and one yield per started hundred. */
  lemma CommandObserved(msg: StepperMessage)
    ensures PulseLevels(CommandTrace(msg)) == HighLow(msg.steps)
    ensures |PulseLevels(CommandTrace(msg))| == 2 * msg.steps
    ensures DelaySum(CommandTrace(msg)) == EnableSettleUs + msg.steps * SafeInterval(msg.intervalUs)
    ensures YieldCount(CommandTrace(msg)) == (msg.steps + 99) / 100
  {
    var prefix := [SetDirection(msg.direction == Clockwise), SetEnable(true), DelayUs(EnableSettleUs)];
    var train := PulseTrain(msg.steps, SafeInterval(msg.intervalUs));
    assert CommandTrace(msg) == prefix + train;
    ObservationsAppend(prefix, train);
    PulseTrainLevels(msg.steps, SafeInterval(msg.intervalUs));
    PulseTrainDelay(msg.steps, SafeInterval(msg.intervalUs));
    PulseTrainYields(msg.steps, SafeInterval(msg.intervalUs));
    PrefixObserved(msg.direction == Clockwise);
  }

  lemma PrefixObserved(clockwise: bool)
    ensures var prefix := [SetDirection(clockwise), SetEnable(true), DelayUs(EnableSettleUs)];
      PulseLevels(prefix) == [] && DelaySum(prefix) == EnableSettleUs && YieldCount(prefix) == 0
  {
    var p2 := [DelayUs(EnableSettleUs)];
    var p1 := [SetEnable(true)] + p2;
    var p0 := [SetDirection(clockwise)] + p1;
    assert p0[1..] == p1 && p1[1..] == p2 && p2[1..] == [];
    assert p2[0] == DelayUs(EnableSettleUs) && p2[0].DelayUs?;
    assert DelaySum(p2[1..]) == 0 && YieldCount(p2[1..]) == 0 && PulseLevels(p2[1..]) == [];
    assert PulseLevels(p2) == [] && DelaySum(p2) == EnableSettleUs && YieldCount(p2) == 0;
    assert PulseLevels(p1) == [] && DelaySum(p1) == EnableSettleUs && YieldCount(p1) == 0;
    assert PulseLevels(p0) == [] && DelaySum(p0) == EnableSettleUs && YieldCount(p0) == 0;
  }

  /** The direction line is set and the driver enabled before any pulse, even
      when there are no pulses at all. */
  lemma EnableBeforePulses(msg: StepperMessage)
    ensures |CommandTrace(msg)| >= 3
    ensures CommandTrace(msg)[0] == SetDirection(msg.direction == Clockwise)
    ensures CommandTrace(msg)[1] == SetEnable(true)
    ensures forall k :: 0 <= k < |CommandTrace(msg)| && CommandTrace(msg)[k].SetPulse? ==> k >= 3
  {
  }

  /** Only steps, intervalUs and direction matter: the ramp fields do not
      change anything the executor does. */
  lemma RampFieldsIgnored(msg: StepperMessage, accel: U32, decel: U32, start: U32, end: U32)
    ensures CommandTrace(msg)
         == CommandTrace(msg.(accelRampSteps := accel, decelRampSteps := decel,
                              accelStartIntervalUs := start, decelEndIntervalUs := end))
  {
  }

  /** The driver's three output lines and everything done to them so far. */
  class StepperDriver {
    /** Direction line: true for clockwise. */
    var directionPin: bool
    /** Enable line: true when the driver is enabled. */
    var enablePin: bool
    /** Step pulse line: true when HIGH. */
    var pulsePin: bool
    var trace: seq<PinEvent>

    /** Task start: the motor is disabled before any command is taken. The
        direction and pulse lines keep whatever level they had. */
    constructor (direction: bool, pulse: bool)
      ensures directionPin == direction && pulsePin == pulse
      ensures !enablePin
      ensures trace == [SetEnable(false)]
    {
      directionPin, pulsePin := direction, pulse;
      enablePin := false;
      trace := [SetEnable(false)];
    }

    /** The body of the task loop for one received message. The motor stays
        enabled afterwards. */
    method Execute(msg: StepperMessage)
      modifies this
      ensures trace == old(trace) + CommandTrace(msg)
      ensures directionPin == (msg.direction == Clockwise)
      ensures enablePin
      ensures pulsePin == if msg.steps == 0 then old(pulsePin) else false
    {
      var safeInterval := msg.intervalUs;
      if safeInterval < MinIntervalUs {
        safeInterval := MinIntervalUs;
      }
      assert safeInterval == SafeInterval(msg.intervalUs);

      var clockwise := msg.direction == Clockwise;
      directionPin := clockwise;
      trace := trace + [SetDirection(clockwise)];

      enablePin := true;
      trace := trace + [SetEnable(true)];

      trace := trace + [DelayUs(EnableSettleUs)];
      assert trace == old(trace) + [SetDirection(clockwise), SetEnable(true), DelayUs(EnableSettleUs)];
      PulseLoop(msg.steps, safeInterval);
    }

    /** The pulse loop: `steps` pulses, one interval apart. */
    method PulseLoop(steps: nat, safeInterval: nat)
      modifies this
      ensures trace == old(trace) + PulseTrain(steps, safeInterval)
      ensures directionPin == old(directionPin) && enablePin == old(enablePin)
      ensures pulsePin == if steps == 0 then old(pulsePin) else false
    {
      var i := 0;
      ghost var pulses: seq<PinEvent> := [];
      while i < steps
        invariant 0 <= i <= steps
        invariant pulses == PulseTrain(i, safeInterval)
        invariant trace == old(trace) + pulses
        invariant directionPin == old(directionPin) && enablePin == old(enablePin)
        invariant pulsePin == if i == 0 then old(pulsePin) else false
      {
        EmitPulse(i, safeInterval);
        assert trace == (old(trace) + pulses) + PulseEvents(i, safeInterval);
        pulses := pulses + PulseEvents(i, safeInterval);
        i := i + 1;
      }
    }

    /** One iteration of the pulse loop: a HIGH write, the pulse width, a LOW
        write, the rest of the interval, and a yield when i is a multiple of
        100. */
    method EmitPulse(i: nat, safeInterval: nat)
      modifies this
      ensures trace == old(trace) + PulseEvents(i, safeInterval)
      ensures !pulsePin
      ensures directionPin == old(directionPin) && enablePin == old(enablePin)
    {
      ghost var before := trace;
      pulsePin := true;
      trace := trace + [SetPulse(true)];
      trace := trace + [DelayUs(PulseWidthUs)];

      pulsePin := false;
      trace := trace + [SetPulse(false)];
      assert trace == before + [SetPulse(true), DelayUs(PulseWidthUs), SetPulse(false)];
      ghost var pulsed := trace;

      if safeInterval > PulseWidthUs {
        trace := trace + [DelayUs(safeInterval - PulseWidthUs)];
      }
      ghost var waited := trace;
      assert waited == pulsed + (if safeInterval > PulseWidthUs then [DelayUs(safeInterval - PulseWidthUs)] else []);

      if i % YieldEvery == 0 {
        trace := trace + [Yield];
      }
      assert trace == waited + (if i % YieldEvery == 0 then [Yield] else []);
    }

    /** The task loop over a finite run of received messages. */
    method Serve(msgs: seq<StepperMessage>)
      modifies this
      ensures trace == old(trace) + CommandTraces(msgs)
      ensures msgs != [] ==> enablePin
      ensures msgs == [] ==> enablePin == old(enablePin)
    {
      var k := 0;
      ghost var done: seq<PinEvent> := [];
      while k < |msgs|
        invariant 0 <= k <= |msgs|
        invariant done == CommandTraces(msgs[..k])
        invariant trace == old(trace) + done
        invariant k > 0 ==> enablePin
        invariant k == 0 ==> enablePin == old(enablePin)
      {
        Execute(msgs[k]);
        assert trace == (old(trace) + done) + CommandTrace(msgs[k]);
        assert msgs[..k + 1] == msgs[..k] + [msgs[k]];
        CommandTracesAppend(msgs[..k], msgs[k]);
        done := done + CommandTrace(msgs[k]);
        k := k + 1;
      }
      assert msgs[..k] == msgs;
    }
  }

  /** The traces of a run of messages, in order. */
  function CommandTraces(msgs: seq<StepperMessage>): seq<PinEvent>
    decreases |msgs|
  {
    if msgs == [] then [] else CommandTraces(msgs[..|msgs| - 1]) + CommandTrace(msgs[|msgs| - 1])
  }

  lemma CommandTracesAppend(msgs: seq<StepperMessage>, m: StepperMessage)
    ensures CommandTraces(msgs + [m]) == CommandTraces(msgs) + CommandTrace(m)
  {
    assert (msgs + [m])[..|msgs|] == msgs;
  }
}
