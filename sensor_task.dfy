/** The photo-sensor task: it samples a beam sensor (true = unblocked,
    false = blocked), keeps the current and previous state, and counts the
    transitions from unblocked to blocked in a 32-bit counter. */
module SensorTask {
  import opened Common

  /** Number of adjacent pairs (unblocked, blocked) in a sequence of readings. */
  function FallingEdges(rs: seq<bool>): nat
    decreases |rs|
  {
    if |rs| < 2 then 0
    else FallingEdges(rs[..|rs| - 1]) + (if rs[|rs| - 2] && !rs[|rs| - 1] then 1 else 0)
  }

  /** The same count, scanning from the front: an independent definition. */
  function FallingEdgesFromFront(rs: seq<bool>): nat
    decreases |rs|
  {
    if |rs| < 2 then 0
    else (if rs[0] && !rs[1] then 1 else 0) + FallingEdgesFromFront(rs[1..])
  }

  lemma FallingEdgesSnoc(rs: seq<bool>, x: bool)
    requires rs != []
    ensures FallingEdges(rs + [x]) == FallingEdges(rs) + (if rs[|rs| - 1] && !x then 1 else 0)
  {
    assert (rs + [x])[..|rs|] == rs;
  }

  /** The two counts agree on every sequence of readings. */
  lemma {:induction false} FallingEdgesAgree(rs: seq<bool>)
    ensures FallingEdges(rs) == FallingEdgesFromFront(rs)
    decreases |rs|
  {
    if |rs| >= 2 {
      var init := rs[..|rs| - 1];
      FallingEdgesAgree(init);
      FallingEdgesAgree(rs[1..]);
      FallingEdgesAgree(init[1..]);
      assert rs[1..][..|rs| - 2] == init[1..];
      if |rs| > 2 {
        assert FallingEdges(rs[1..]) == FallingEdges(init[1..]) + (if rs[|rs| - 2] && !rs[|rs| - 1] then 1 else 0);
      }
    }
  }

  /** Readings only ever add edges: the count of a prefix is at most the count
      of the whole sequence. */
  lemma {:induction false} FallingEdgesMonotone(rs: seq<bool>, more: seq<bool>)
    ensures FallingEdges(rs) <= FallingEdges(rs + more)
    decreases |more|
  {
    if more != [] {
      var init := more[..|more| - 1];
      FallingEdgesMonotone(rs, init);
      assert rs + more == (rs + init) + [more[|more| - 1]];
      if rs + init != [] {
        FallingEdgesSnoc(rs + init, more[|more| - 1]);
      } else {
        assert rs == [];
      }
    } else {
      assert rs + more == rs;
    }
  }

  /** Incrementing a wrapped counter wraps the incremented count. */
  lemma IncrementWraps(x: nat)
    ensures (x % U32Modulus + 1) % U32Modulus == (x + 1) % U32Modulus
  {
    var q, r := x / U32Modulus, x % U32Modulus;
    if r + 1 == U32Modulus {
      assert x + 1 == U32Modulus * (q + 1);
    } else {
      assert x + 1 == U32Modulus * q + (r + 1);
    }
  }

  /** The task's static state and the readings it has taken. */
  class PhotoSensor {
    var sensorState: bool
    var lastState: bool
    var blockCount: U32
    /** Every reading taken since the task started, oldest first. */
    ghost var readings: seq<bool>

    ghost predicate Valid()
      reads this
    {
      if readings == [] then !sensorState && !lastState && blockCount == 0
      else
        && sensorState == readings[|readings| - 1]
        && lastState == readings[|readings| - 1]
        && blockCount == FallingEdges(readings) % U32Modulus
    }

    /** The static initialisers: both states false, count zero. */
    constructor ()
      ensures Valid() && readings == []
      ensures !sensorState && !lastState && blockCount == 0
    {
      sensorState, lastState, blockCount := false, false, 0;
      readings := [];
    }

    /** Task start: the first reading sets both states and is not counted. */
    method Start(initial: bool)
      requires Valid() && readings == []
      modifies this
      ensures Valid() && readings == [initial]
      ensures sensorState == initial && lastState == initial && blockCount == 0
    {
      lastState := initial;
      sensorState := lastState;
      readings := [initial];
    }

    /** One iteration of the task loop with reading `current`. */
    method Sample(current: bool)
      requires Valid() && readings != []
      modifies this
      ensures Valid() && readings == old(readings) + [current]
      ensures sensorState == current && lastState == current
      ensures blockCount == if old(lastState) && !current then (old(blockCount) + 1) % U32Modulus
                            else old(blockCount)
    {
      if current != lastState {
        sensorState := current;
        if !current && lastState {
          blockCount := (blockCount + 1) % U32Modulus;
        } else if current && !lastState {
          // rising edge: the source only logs it; nothing is counted
        }
        lastState := current;
      }
      FallingEdgesSnoc(readings, current);
      IncrementWraps(FallingEdges(readings));
      readings := readings + [current];
    }

    /** The task body over a finite run of readings: the start reading, then
        one sample per period. */
    method Monitor(initial: bool, samples: seq<bool>)
      requires Valid() && readings == []
      modifies this
      ensures Valid() && readings == [initial] + samples
      ensures blockCount == FallingEdges([initial] + samples) % U32Modulus
    {
      Start(initial);
      var k := 0;
      while k < |samples|
        invariant 0 <= k <= |samples|
        invariant Valid() && readings == [initial] + samples[..k]
      {
        Sample(samples[k]);
        assert samples[..k + 1] == samples[..k] + [samples[k]];
        k := k + 1;
      }
      assert samples[..k] == samples;
    }

    /** getSensorState: the most recent reading (false before the first). */
    method GetSensorState() returns (s: bool)
      requires Valid()
      ensures s == (readings != [] && readings[|readings| - 1])
    {
      s := sensorState;
    }

    /** getSensorBlockCount: the number of unblocked-to-blocked transitions so
        far, modulo 2^32. */
    method GetSensorBlockCount() returns (n: U32)
      requires Valid()
      ensures n == FallingEdges(readings) % U32Modulus
    {
      n := blockCount;
    }
  }
}
