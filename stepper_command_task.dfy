/** The stepper command task: forever, it sends a relative move of 500 steps,
    waits five seconds, and flips the direction for the next move. */
module StepperCommandTask {
  import opened Common

  const StepsPerCommand: int := 500
  const SpeedStepsPerSec: nat := 500
  const AccelStepsPerSecSq: nat := 200
  /** Ticks waited after each send before the direction flips. */
  const DirectionSwapDelayTicks: nat := MsToTicks(5000)

  /** What the task sends and waits for, in order. */
  datatype CommandEvent = Send(cmd: MotionCommand) | Wait(ticks: nat)

  /** The command the loop builds when moveForward has the given value. */
  function CommandFor(moveForward: bool): MotionCommand
  {
    MotionCommand(if moveForward then StepsPerCommand else -StepsPerCommand,
                  StepsPerSec(SpeedStepsPerSec), AccelStepsPerSecSq, true)
  }

  /** The targets of a sequence of events' sent commands, added up. */
  function SentTargetSum(evs: seq<CommandEvent>): int
    decreases |evs|
  {
    if evs == [] then 0
    else (if evs[0].Send? then evs[0].cmd.targetPosition else 0) + SentTargetSum(evs[1..])
  }

  /** The events of `rounds` iterations of the loop: each round sends the
      command for the current direction (forward on even rounds), then waits. */
  predicate LoopTrace(evs: seq<CommandEvent>, rounds: nat)
  {
    && |evs| == 2 * rounds
    && forall n :: 0 <= n < rounds ==>
         evs[2 * n] == Send(CommandFor(n % 2 == 0)) && evs[2 * n + 1] == Wait(DirectionSwapDelayTicks)
  }

  /** The loop run for `rounds` iterations: each round sends the command for
      the current direction, waits, and flips the direction. */
  method CommandLoop(rounds: nat) returns (evs: seq<CommandEvent>)
    ensures LoopTrace(evs, rounds)
  {
    var moveForward := true;
    evs := [];
    var n := 0;
    while n < rounds
      invariant 0 <= n <= rounds
      invariant moveForward == (n % 2 == 0)
      invariant LoopTrace(evs, n)
    {
      var msg := MotionCommand(if moveForward then StepsPerCommand else -StepsPerCommand,
                               StepsPerSec(SpeedStepsPerSec), AccelStepsPerSecSq, true);
      evs := evs + [Send(msg)];
      evs := evs + [Wait(DirectionSwapDelayTicks)];
      moveForward := !moveForward;
      n := n + 1;
    }
  }

  /** The first command moves forward 500 steps. */
  lemma FirstCommandForward(evs: seq<CommandEvent>, rounds: nat)
    requires LoopTrace(evs, rounds) && rounds >= 1
    ensures evs[0] == Send(MotionCommand(500, StepsPerSec(500), 200, true))
  {
    assert evs[2 * 0] == Send(CommandFor(true));
  }

  /** Every round, the last one included, sends a relative command of +500 or
      -500 steps at 500 steps/s and 200 steps/s^2 and then waits 5000 ms. */
  lemma EveryCommand(evs: seq<CommandEvent>, rounds: nat, n: nat)
    requires LoopTrace(evs, rounds) && n < rounds
    ensures evs[2 * n].Send? && evs[2 * n + 1] == Wait(MsToTicks(5000))
    ensures evs[2 * n].cmd.targetPosition == 500 || evs[2 * n].cmd.targetPosition == -500
    ensures evs[2 * n].cmd.isRelative && evs[2 * n].cmd.speed == StepsPerSec(500)
    ensures evs[2 * n].cmd.accelStepsPerSecSq == 200
  {
  }

  /** Consecutive commands have opposite targets of magnitude 500; all are
      relative, at 500 steps/s and 200 steps/s^2. */
  lemma ConsecutiveCommandsAlternate(evs: seq<CommandEvent>, rounds: nat, n: nat)
    requires LoopTrace(evs, rounds) && n + 1 < rounds
    ensures evs[2 * n].Send? && evs[2 * n + 2].Send?
    ensures evs[2 * n + 2].cmd.targetPosition == -evs[2 * n].cmd.targetPosition
    ensures evs[2 * n].cmd.targetPosition == 500 || evs[2 * n].cmd.targetPosition == -500
    ensures evs[2 * n].cmd.isRelative && evs[2 * n].cmd.speed == StepsPerSec(500)
    ensures evs[2 * n].cmd.accelStepsPerSecSq == 200
  {
    assert evs[2 * (n + 1)] == Send(CommandFor((n + 1) % 2 == 0));
  }

  lemma {:induction false} SentTargetSumAppend(a: seq<CommandEvent>, b: seq<CommandEvent>)
    ensures SentTargetSum(a + b) == SentTargetSum(a) + SentTargetSum(b)
    decreases |a|
  {
    if a == [] {
      assert a + b == b;
    } else {
      assert (a + b)[1..] == a[1..] + b;
      SentTargetSumAppend(a[1..], b);
    }
  }

  /** The targets sent add up to zero after an even number of rounds (the
      motor is back where it started) and to +500 after an odd number. */
  lemma {:induction false} NetDisplacement(evs: seq<CommandEvent>, rounds: nat)
    requires LoopTrace(evs, rounds)
    ensures SentTargetSum(evs) == if rounds % 2 == 0 then 0 else 500
    decreases rounds
  {
    if rounds == 1 {
      assert evs[2 * 0] == Send(CommandFor(true)) && evs[2 * 0 + 1] == Wait(DirectionSwapDelayTicks);
      assert evs[1..][1..] == [];
      assert SentTargetSum(evs[1..]) == 0;
    } else if rounds >= 2 {
      var head := evs[..4];
      var rest := evs[4..];
      assert evs == head + rest;
      forall n | 0 <= n < rounds - 2
        ensures rest[2 * n] == Send(CommandFor(n % 2 == 0)) && rest[2 * n + 1] == Wait(DirectionSwapDelayTicks)
      {
        assert rest[2 * n] == evs[2 * (n + 2)] && rest[2 * n + 1] == evs[2 * (n + 2) + 1];
      }
      NetDisplacement(rest, rounds - 2);
      SentTargetSumAppend(head, rest);
      assert evs[2 * 0] == Send(CommandFor(true)) && evs[2 * 0 + 1] == Wait(DirectionSwapDelayTicks);
      assert evs[2 * 1] == Send(CommandFor(false)) && evs[2 * 1 + 1] == Wait(DirectionSwapDelayTicks);
      assert head == [Send(CommandFor(true)), Wait(DirectionSwapDelayTicks),
                      Send(CommandFor(false)), Wait(DirectionSwapDelayTicks)];
      assert head[1..][1..][1..][1..] == [];
      assert SentTargetSum(head[1..][1..][1..]) == 0;
      assert SentTargetSum(head[1..][1..]) == -500;
      assert SentTargetSum(head[1..]) == -500;
      assert SentTargetSum(head) == 0;
    }
  }
}
