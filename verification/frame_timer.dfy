/**
 The fixed-timestep clock of the playing screen. Every rendered frame adds its
 elapsed milliseconds to an accumulator; once the accumulator strictly exceeds
 the frame duration, one physics tick is due and the accumulator restarts from
 zero. Time beyond the threshold is discarded rather than carried over, so a
 long frame still yields a single tick.
 */
module FrameTimer {

  /** Milliseconds of accumulated frame time that make one physics tick due. */
  const FRAME_DURATION: real := 60.0

  /** The accumulator after a frame, and whether a physics tick is due. */
  datatype Advance = Advance(frameTime: real, stepDue: bool)

  function Accumulate(frameTime: real, elapsedMs: real): (r: Advance)
    ensures r.stepDue <==> FRAME_DURATION < frameTime + elapsedMs
    ensures r.stepDue ==> r.frameTime == 0.0
    ensures !r.stepDue ==> r.frameTime == frameTime + elapsedMs
    ensures r.frameTime <= FRAME_DURATION
    ensures 0.0 <= frameTime && 0.0 <= elapsedMs ==> 0.0 <= r.frameTime
  {
    var t := frameTime + elapsedMs;
    if t > FRAME_DURATION then Advance(0.0, true) else Advance(t, false)
  }

  /** The accumulator stays within [0, FRAME_DURATION] across any frame. */
  lemma AccumulatorStaysBounded(frameTime: real, elapsedMs: real)
    requires 0.0 <= frameTime <= FRAME_DURATION
    requires 0.0 <= elapsedMs
    ensures 0.0 <= Accumulate(frameTime, elapsedMs).frameTime <= FRAME_DURATION
  {
  }

  /** However long the frame, a tick that is due leaves nothing carried over. */
  lemma ExcessIsDiscarded(frameTime: real, elapsedMs: real)
    requires 0.0 <= frameTime
    requires FRAME_DURATION < elapsedMs
    ensures Accumulate(frameTime, elapsedMs) == Advance(0.0, true)
  {
  }

  /** Total of a sequence of frame times. */
  function Sum(s: seq<real>): real
  {
    if |s| == 0 then 0.0 else Sum(s[..|s| - 1]) + s[|s| - 1]
  }

  /**
   Runs the accumulator over the frame times of consecutive playing frames and
   counts the physics ticks. Every tick consumes more than FRAME_DURATION of
   elapsed time, so the simulation never runs faster than one tick per
   FRAME_DURATION; and since at most FRAME_DURATION + maxFrame is consumed per
   tick, it never falls further behind than the discarded excess.
   */
  method RunTimer(start: real, elapsed: seq<real>, maxFrame: real) returns (frameTime: real, steps: nat)
    requires 0.0 <= start <= FRAME_DURATION
    requires forall k :: 0 <= k < |elapsed| ==> 0.0 <= elapsed[k] <= maxFrame
    ensures 0.0 <= frameTime <= FRAME_DURATION
    ensures steps <= |elapsed|
    ensures FRAME_DURATION * steps as real + frameTime <= start + Sum(elapsed)
    ensures 0 < steps ==> FRAME_DURATION * steps as real + frameTime < start + Sum(elapsed)
    ensures start + Sum(elapsed) <= (FRAME_DURATION + maxFrame) * steps as real + frameTime
  {
    frameTime, steps := start, 0;
    ghost var budget := 0.0;
    var i := 0;
    while i < |elapsed|
      invariant 0 <= i <= |elapsed|
      invariant 0.0 <= frameTime <= FRAME_DURATION
      invariant steps <= i
      invariant budget == (FRAME_DURATION + maxFrame) * steps as real
      invariant FRAME_DURATION * steps as real + frameTime <= start + Sum(elapsed[..i])
      invariant 0 < steps ==> FRAME_DURATION * steps as real + frameTime < start + Sum(elapsed[..i])
      invariant start + Sum(elapsed[..i]) <= budget + frameTime
    {
      assert elapsed[..i + 1][..i] == elapsed[..i];
      assert Sum(elapsed[..i + 1]) == Sum(elapsed[..i]) + elapsed[i];
      var a := Accumulate(frameTime, elapsed[i]);
      if a.stepDue {
        ScaleStep(FRAME_DURATION + maxFrame, steps);
        budget := budget + FRAME_DURATION + maxFrame;
        steps := steps + 1;
      }
      frameTime := a.frameTime;
      i := i + 1;
    }
    assert elapsed[..i] == elapsed;
  }

  /** Distributes a multiplication over one more step. */
  lemma ScaleStep(c: real, n: nat)
    ensures c * (n + 1) as real == c * n as real + c
  {
  }
}
