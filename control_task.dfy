/** The discrete PD controller of the control task: per touch-input message it
    looks the zone up in two tables, computes the error against the previous
    zone and its difference from the previous error, combines them with the
    gains, applies deadband and saturation, emits a relative motion command
    with alternating sign (plus a direction character for the display), and
    then advances its state unconditionally. */
module ControlTask {
  import opened Common

  /** Base step count per zone (zones 0..3). */
  const ZoneToStepsMap: seq<nat> := [0, 50, 200, 500]
  /** Pulse interval in microseconds per zone (zones 0..3). */
  const ZoneToSpeedMap: seq<nat> := [2000, 1500, 800, 300]
  /** What a zone outside the tables yields. */
  const DefaultBaseSteps: nat := 0
  const DefaultIntervalUs: nat := 1000

  const ProportionalGain: int := 8
  const DerivativeGain: int := 2
  /** Deadband: smaller totals are not sent. */
  const MinSteps: int := 10
  /** Saturation: larger totals are cut to this. */
  const MaxSteps: int := 1000
  /** Acceleration written into every emitted command (steps/s^2). */
  const CommandAccel: nat := 200
  /** Where the direction character goes on the display. */
  const DirectionCol: U8 := 5
  const DirectionRow: U8 := 0

  /** The message the touch side sends to the controller. */
  datatype TouchInputMessage = TouchInputMessage(touchValue: int, touchZone: U8, timestamp: U32)

  /** The controller state carried from one sampling period to the next. */
  datatype ControlState = ControlState(lastError: int, lastZone: U8, alternateDirection: bool)

  const InitialState: ControlState := ControlState(0, 0, false)

  datatype ZoneOutput = ZoneOutput(baseSteps: nat, intervalUs: nat)

  /** Everything one processed message produces: the next state, the command
      sent to the stepper queue (if any) and the display message (if any). */
  datatype ControlOutcome = ControlOutcome(
    next: ControlState,
    command: Option<MotionCommand>,
    display: Option<DisplayMessage>)

  /** The table lookup, with the default for zones beyond the tables. */
  function LookupZone(zone: U8): (r: ZoneOutput)
    ensures r.intervalUs > 0
    ensures r.baseSteps <= 500
  {
    if zone < |ZoneToStepsMap| then ZoneOutput(ZoneToStepsMap[zone], ZoneToSpeedMap[zone])
    else ZoneOutput(DefaultBaseSteps, DefaultIntervalUs)
  }

  /** e[k] = zone[k] - zone[k-1], as a signed value. */
  function ZoneError(s: ControlState, zone: U8): int
  {
    zone - s.lastZone
  }

  /** Base steps plus Kp * e[k] + Kd * (e[k] - e[k-1]). */
  function TotalSteps(s: ControlState, zone: U8): int
  {
    var e := ZoneError(s, zone);
    LookupZone(zone).baseSteps + ProportionalGain * e + DerivativeGain * (e - s.lastError)
  }

  /** Deadband below MinSteps, saturation above MaxSteps. */
  function Saturate(total: int): (c: nat)
    ensures c == 0 || MinSteps <= c <= MaxSteps
    ensures c == 0 <==> total < MinSteps
    ensures c == MaxSteps <==> total >= MaxSteps
    ensures MinSteps <= total <= MaxSteps ==> c == total
  {
    if total < MinSteps then 0
    else if total > MaxSteps then MaxSteps
    else total
  }

  function CommandSteps(s: ControlState, zone: U8): nat
  {
    Saturate(TotalSteps(s, zone))
  }

  /** The control law for one input zone from state s. */
  function ControlLaw(s: ControlState, zone: U8): (r: ControlOutcome)
    ensures r.next == ControlState(zone - s.lastZone, zone, !s.alternateDirection)
    ensures r.command.Some? <==> CommandSteps(s, zone) > 0
    ensures r.display.Some? <==> r.command.Some?
  {
    var steps := CommandSteps(s, zone);
    var sign := if s.alternateDirection then -1 else 1;
    var next := ControlState(ZoneError(s, zone), zone, !s.alternateDirection);
    if steps > 0 then
      ControlOutcome(
        next,
        Some(MotionCommand(steps * sign, IntervalUs(LookupZone(zone).intervalUs), CommandAccel, true)),
        Some(WriteChar(DirectionCol, DirectionRow, if sign > 0 then 'R' else 'L')))
    else
      ControlOutcome(next, None, None)
  }

  /** Zones 0..3 read the tables; every other zone gets 0 steps and 1000 us. */
  lemma LookupTable(zone: U8)
    ensures zone == 0 ==> LookupZone(zone) == ZoneOutput(0, 2000)
    ensures zone == 1 ==> LookupZone(zone) == ZoneOutput(50, 1500)
    ensures zone == 2 ==> LookupZone(zone) == ZoneOutput(200, 800)
    ensures zone == 3 ==> LookupZone(zone) == ZoneOutput(500, 300)
    ensures zone >= 4 ==> LookupZone(zone) == ZoneOutput(0, 1000)
  {
  }

  /** The command emitted for one message: its magnitude is the saturated
      total, its sign follows the stored direction flag, and the display gets
      'R' for the positive direction and 'L' for the negative one. */
  lemma EmittedCommand(s: ControlState, zone: U8)
    requires ControlLaw(s, zone).command.Some?
    ensures var c := ControlLaw(s, zone).command.value;
      && (if s.alternateDirection then c.targetPosition == -(CommandSteps(s, zone) as int)
          else c.targetPosition == CommandSteps(s, zone))
      && MinSteps <= CommandSteps(s, zone) <= MaxSteps
      && c.speed == IntervalUs(LookupZone(zone).intervalUs)
      && c.accelStepsPerSecSq == 200 && c.isRelative
      && ControlLaw(s, zone).display
         == Some(WriteChar(5, 0, if c.targetPosition > 0 then 'R' else 'L'))
  {
  }

  /** From the initial state {0, 0, false}, zone 3 gives error 3, derivative 3
      and 500 + 8*3 + 2*3 = 530 steps in the positive direction. */
  lemma InitialZoneThree()
    ensures ZoneError(InitialState, 3) == 3
    ensures TotalSteps(InitialState, 3) == 530
    ensures ControlLaw(InitialState, 3)
         == ControlOutcome(ControlState(3, 3, true),
                           Some(MotionCommand(530, IntervalUs(300), 200, true)),
                           Some(WriteChar(5, 0, 'R')))
  {
  }

  /** A state the controller can be in: the last error is the difference of
      two 8-bit zones. */
  predicate Reachable(s: ControlState)
  {
    -255 <= s.lastError <= 255
  }

  /** In a reachable state the PD term is at most 3060 in magnitude, so the
      float products of the source are exact integers, and the sum with the
      base steps fits a 32-bit signed integer. */
  lemma ControlSignalBounded(s: ControlState, zone: U8)
    requires Reachable(s)
    ensures var e := ZoneError(s, zone);
      -3060 <= ProportionalGain * e + DerivativeGain * (e - s.lastError) <= 3060
    ensures -3060 <= TotalSteps(s, zone) <= 3560
    ensures Reachable(ControlLaw(s, zone).next)
  {
  }

  /** The state after processing a sequence of zones, one per period. */
  function Run(s: ControlState, zones: seq<U8>): ControlState
    decreases |zones|
  {
    if zones == [] then s else Run(ControlLaw(s, zones[0]).next, zones[1..])
  }

  /** The commands sent while processing a sequence of zones. */
  function RunCommands(s: ControlState, zones: seq<U8>): seq<MotionCommand>
    decreases |zones|
  {
    if zones == [] then []
    else OptionToSeq(ControlLaw(s, zones[0]).command) + RunCommands(ControlLaw(s, zones[0]).next, zones[1..])
  }

  /** After any sequence of messages, from any state, the direction flag has
      flipped once per message, whether or not a command was emitted, and
      after a non-empty one the state remembers the last zone. */
  lemma {:induction false} RunState(s: ControlState, zones: seq<U8>)
    ensures Run(s, zones).alternateDirection == (s.alternateDirection != (|zones| % 2 == 1))
    ensures zones != [] ==> Run(s, zones).lastZone == zones[|zones| - 1]
    decreases |zones|
  {
    if zones != [] {
      var next := ControlLaw(s, zones[0]).next;
      RunState(next, zones[1..]);
      if |zones| > 1 {
        assert zones[1..][|zones[1..]| - 1] == zones[|zones| - 1];
      }
    }
  }

  /** Reachability is preserved along any run. */
  lemma {:induction false} RunKeepsReachable(s: ControlState, zones: seq<U8>)
    requires Reachable(s)
    ensures Reachable(Run(s, zones))
    decreases |zones|
  {
    if zones != [] {
      RunKeepsReachable(ControlLaw(s, zones[0]).next, zones[1..]);
    }
  }

  /** Every command sent during any run is relative, carries 200 steps/s^2 and
      moves between MinSteps and MaxSteps steps in either direction. */
  lemma {:induction false} RunCommandsBounded(s: ControlState, zones: seq<U8>)
    ensures forall c :: c in RunCommands(s, zones) ==>
      && (MinSteps <= c.targetPosition <= MaxSteps || -MaxSteps <= c.targetPosition <= -MinSteps)
      && c.isRelative && c.accelStepsPerSecSq == CommandAccel
    decreases |zones|
  {
    if zones != [] {
      var out := ControlLaw(s, zones[0]);
      RunCommandsBounded(out.next, zones[1..]);
      if out.command.Some? {
        EmittedCommand(s, zones[0]);
      }
    }
  }

  /** Two consecutive messages that both produce a command produce commands of
      opposite direction. */
  lemma ConsecutiveCommandsAlternate(s: ControlState, z1: U8, z2: U8)
    requires ControlLaw(s, z1).command.Some?
    requires ControlLaw(ControlLaw(s, z1).next, z2).command.Some?
    ensures (ControlLaw(s, z1).command.value.targetPosition > 0)
        <==> (ControlLaw(ControlLaw(s, z1).next, z2).command.value.targetPosition < 0)
  {
  }

  /** The controller task's state (gControlState) together with what it has
      put on the stepper and display queues. */
  class Controller {
    var lastError: int
    var lastZone: U8
    var alternateDirection: bool
    /** Commands sent to the stepper queue, oldest first. */
    var stepperQueue: seq<MotionCommand>
    /** Messages sent to the display queue, oldest first. */
    var displayQueue: seq<DisplayMessage>

    function State(): ControlState
      reads this
    {
      ControlState(lastError, lastZone, alternateDirection)
    }

    constructor ()
      ensures State() == InitialState
      ensures stepperQueue == [] && displayQueue == []
    {
      lastError, lastZone, alternateDirection := 0, 0, false;
      stepperQueue, displayQueue := [], [];
    }

    /** processControlLaw: only the zone of the input is read. */
    method ProcessControlLaw(input: TouchInputMessage)
      modifies this
      ensures State() == ControlLaw(old(State()), input.touchZone).next
      ensures stepperQueue == old(stepperQueue) + OptionToSeq(ControlLaw(old(State()), input.touchZone).command)
      ensures displayQueue == old(displayQueue) + OptionToSeq(ControlLaw(old(State()), input.touchZone).display)
    {
      var zone := input.touchZone;

      var baseSteps: nat := 0;
      var speedInterval: nat := 1000;
      if zone < |ZoneToStepsMap| {
        baseSteps := ZoneToStepsMap[zone];
        speedInterval := ZoneToSpeedMap[zone];
      }

      var currentError := zone - lastZone;
      var errorDerivative := currentError - lastError;
      var controlSignal := ProportionalGain * currentError + DerivativeGain * errorDerivative;
      var totalSteps := baseSteps + controlSignal;

      var commandSteps: nat := 0;
      if totalSteps < MinSteps {
        commandSteps := 0;
      } else if totalSteps > MaxSteps {
        commandSteps := MaxSteps;
      } else {
        commandSteps := totalSteps;
      }

      var directionMultiplier := if alternateDirection then -1 else 1;

      if commandSteps > 0 {
        var motorCmd := MotionCommand(commandSteps * directionMultiplier, IntervalUs(speedInterval), CommandAccel, true);
        stepperQueue := stepperQueue + [motorCmd];
        var displayMsg := WriteChar(DirectionCol, DirectionRow, if directionMultiplier > 0 then 'R' else 'L');
        displayQueue := displayQueue + [displayMsg];
      }

      lastError := currentError;
      lastZone := zone;
      alternateDirection := !alternateDirection;
    }

    /** One wake-up of the control task: it takes at most one pending message
        (a receive with zero timeout) and processes it; with nothing pending
        the state is kept. */
    method ControlPeriod(pending: seq<TouchInputMessage>) returns (rest: seq<TouchInputMessage>)
      modifies this
      ensures pending == [] ==>
        (rest == [] && State() == old(State())
         && stepperQueue == old(stepperQueue) && displayQueue == old(displayQueue))
      ensures pending != [] ==>
        (rest == pending[1..]
         && State() == ControlLaw(old(State()), pending[0].touchZone).next
         && stepperQueue == old(stepperQueue) + OptionToSeq(ControlLaw(old(State()), pending[0].touchZone).command)
         && displayQueue == old(displayQueue) + OptionToSeq(ControlLaw(old(State()), pending[0].touchZone).display))
    {
      if pending != [] {
        ProcessControlLaw(pending[0]);
        rest := pending[1..];
      } else {
        rest := [];
      }
    }
  }
}
