/** Types shared by the firmware tasks: fixed-width integers, the display and
    motion messages that tasks put on queues, and FreeRTOS tick conversion. */
module Common {

  /** 2^32, the modulus of uint32_t, TickType_t and (on ESP32) unsigned long. */
  const U32Modulus: int := 0x1_0000_0000

  type U8 = x: int | 0 <= x < 256
  type U32 = x: int | 0 <= x < 0x1_0000_0000

  datatype Option<T> = None | Some(value: T)

  function OptionToSeq<T>(o: Option<T>): (s: seq<T>)
    ensures |s| <= 1
    ensures o.Some? <==> |s| == 1
    ensures o.Some? ==> s[0] == o.value
  {
    match o
    case None => []
    case Some(v) => [v]
  }

  /** Unsigned 32-bit subtraction `a - b`, wrapping around. */
  function SubU32(a: U32, b: U32): (r: U32)
    ensures (b + r) % U32Modulus == a
  {
    (a - b) % U32Modulus
  }

  /** The tick rate of the FreeRTOS port (configTICK_RATE_HZ). */
  const TickRateHz: nat := 1000

  /** pdMS_TO_TICKS: milliseconds to scheduler ticks, rounding down. */
  function MsToTicks(ms: nat): nat
  {
    ms * TickRateHz / 1000
  }

  /** A message to the character display task: write one character at a
      column and row, or clear the screen. */
  datatype DisplayMessage = WriteChar(col: U8, row: U8, c: char) | Clear

  /** The speed of a motion command. The controller computes the float
      1000000 / interval, carried here as the exact integer interval; the
      command generator uses a fixed number of steps per second. */
  datatype Speed = IntervalUs(us: nat) | StepsPerSec(sps: nat)

  /** The relative/absolute motion command written by the controller and by
      the command generator. */
  datatype MotionCommand = MotionCommand(
    targetPosition: int,
    speed: Speed,
    accelStepsPerSecSq: nat,
    isRelative: bool)
}
