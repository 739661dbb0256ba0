/**
 Properties of the game that hold across frames: the invariant every
 reachable state keeps, the shape of the mode state machine, and the facts
 the hit test relies on.
 */
module Invariants {
  import opened Physics
  import opened FrameTimer
  import opened Game

  /** What the terminal can report: elapsed time is never negative. */
  predicate WellFormed(input: Input)
  {
    0.0 <= input.frameTimeMs
  }

  /**
   The invariant of every reachable state: the ball never moves sideways and
   never rises above row 0, its velocity stays in range, the accumulator stays
   within one frame duration, the score is never negative, and outside the end
   screen the ball is not below the bottom row.
   */
  predicate Valid(s: State)
  {
    && s.ball.x == SPAWN_X
    && 0.0 <= s.ball.y
    && VelocityInRange(s.ball.velocity)
    && 0.0 <= s.frameTime <= FRAME_DURATION
    && 0 <= s.score
    && (s.mode != End ==> s.ball.y <= SCREEN_HEIGHT as real)
  }

  lemma NewStateIsValid()
    ensures Valid(NewState())
    ensures NewState().mode == Menu && NewState().score == 0
  {
  }

  lemma RestartIsValid(s: State)
    ensures Valid(Restart(s))
  {
  }

  /** A frame of the playing screen keeps the invariant. */
  lemma PlayPreservesValid(s: State, input: Input)
    requires Valid(s) && s.mode == Playing
    requires WellFormed(input)
    ensures Valid(Play(s, input))
    ensures Play(s, input).mode == Playing || Play(s, input).mode == End
  {
    var clocked := AdvanceClock(s, input.frameTimeMs);
    if FRAME_DURATION < s.frameTime + input.frameTimeMs {
      GravityKeepsVelocityInRange(s.ball.velocity);
    }
    assert VelocityInRange(clocked.ball.velocity);
    if Kicked(s, input) {
      KickVelocityInRange(clocked.ball);
    }
  }

  /** Any frame keeps the invariant. */
  lemma TickPreservesValid(s: State, input: Input)
    requires Valid(s)
    requires WellFormed(input)
    ensures Valid(Tick(s, input).state)
  {
    if s.mode == Playing {
      PlayPreservesValid(s, input);
    } else if input.key == Some(P) {
      RestartIsValid(s);
    }
  }

  /** The state reached by feeding frames to the game until one of them asks to quit. */
  function Run(s: State, inputs: seq<Input>): State
    decreases |inputs|
  {
    if |inputs| == 0 then s
    else
      var f := Tick(s, inputs[0]);
      if f.quitting then f.state else Run(f.state, inputs[1..])
  }

  /** Every state reachable from a valid one, the new game's in particular, is valid. */
  lemma {:induction false} RunPreservesValid(s: State, inputs: seq<Input>)
    requires Valid(s)
    requires forall k :: 0 <= k < |inputs| ==> WellFormed(inputs[k])
    ensures Valid(Run(s, inputs))
    decreases |inputs|
  {
    if |inputs| > 0 {
      TickPreservesValid(s, inputs[0]);
      var f := Tick(s, inputs[0]);
      if !f.quitting {
        RunPreservesValid(f.state, inputs[1..]);
      }
    }
  }

  /** In particular the ball's velocity is in [-2.0, 2.2) and y >= 0 after any sequence of frames. */
  lemma ReachableBallBounds(inputs: seq<Input>)
    requires forall k :: 0 <= k < |inputs| ==> WellFormed(inputs[k])
    ensures -2.0 <= Run(NewState(), inputs).ball.velocity < 2.2
    ensures 0.0 <= Run(NewState(), inputs).ball.y
    ensures Run(NewState(), inputs).ball.x == 40.0
  {
    NewStateIsValid();
    RunPreservesValid(NewState(), inputs);
  }

  /**
   The cell a click is tested against on the playing screen is column 40 and a
   row in [0, 52], so the hit test's additions stay far from the 32-bit limits.
   */
  lemma HitTestCellInRange(s: State, input: Input)
    requires Valid(s) && s.mode == Playing
    requires WellFormed(input)
    ensures Cell(AdvanceClock(s, input.frameTimeMs).ball).0 == 40
    ensures 0 <= Cell(AdvanceClock(s, input.frameTimeMs).ball).1 <= 52
  {
    var b := AdvanceClock(s, input.frameTimeMs).ball;
    if FRAME_DURATION < s.frameTime + input.frameTimeMs {
      GravityKeepsVelocityInRange(s.ball.velocity);
    }
    assert b.y < 53.0;
  }

  /**
   The mode state machine: the menu leads only to playing, playing only to the
   end screen, the end screen only back to playing; a quitting frame changes
   nothing, and only the menu and end screens quit.
   */
  lemma Transitions(s: State, input: Input)
    ensures s.mode == Menu ==> Tick(s, input).state.mode in {Menu, Playing}
    ensures s.mode == Playing ==> Tick(s, input).state.mode in {Playing, End}
    ensures s.mode == End ==> Tick(s, input).state.mode in {End, Playing}
    ensures Tick(s, input).quitting <==> s.mode != Playing && input.key == Some(Q)
    ensures Tick(s, input).quitting ==> Tick(s, input).state == s
    ensures s.mode != Menu ==> Tick(s, input).state.mode != Menu
  {
  }

  /** On a screen other than playing, P starts a fresh round whatever came before. */
  lemma PlayKeyRestarts(s: State, input: Input)
    requires s.mode != Playing
    requires input.key == Some(P)
    ensures Tick(s, input) == Frame(State(Ball(40.0, 25.0, 0.0), 0.0, Playing, 0), false)
  {
  }

  /** The end screen keeps the final score until P is pressed. */
  lemma EndScreenKeepsScore(s: State, input: Input)
    requires s.mode == End
    requires input.key != Some(P)
    ensures Tick(s, input).state == s
    ensures Tick(s, input).state.score == s.score
  {
  }

  /** While playing, the score goes up by exactly one on a hit click and stays put otherwise. */
  lemma ScoreCountsKicks(s: State, input: Input)
    requires s.mode == Playing
    ensures Tick(s, input).state.score == s.score + (if Kicked(s, input) then 1 else 0)
    ensures s.score <= Tick(s, input).state.score
  {
  }

  /** The round ends on the very frame the ball passes the bottom row, and the score survives. */
  lemma RoundEndsBelowBottomRow(s: State, input: Input)
    requires s.mode == Playing
    ensures Tick(s, input).state.mode == End <==> 50.0 < Tick(s, input).state.ball.y
    ensures Tick(s, input).state.mode != End ==> Tick(s, input).state.mode == Playing
  {
  }

  /** The float-to-integer cast agrees with the floor on the non-negative positions the ball takes. */
  lemma TruncateIsFloor(r: real)
    requires 0.0 <= r
    ensures Truncate(r) == r.Floor
  {
  }

  /** The hit test's boundary is inclusive on both axes. */
  lemma HitBoxExamples()
    ensures CalculateHitBox((40, 25), (40, 25), 1)
    ensures CalculateHitBox((40, 25), (41, 26), 1)
    ensures !CalculateHitBox((40, 25), (42, 25), 1)
    ensures CalculateHitBox((41, 26), (40, 25), 1)
  {
  }

  /** The hit test is symmetric in its two points and grows with the radius. */
  lemma HitBoxSymmetricMonotone(a: (int, int), b: (int, int), radius: int)
    ensures CalculateHitBox(a, b, radius) == CalculateHitBox(b, a, radius)
    ensures CalculateHitBox(a, b, radius) ==> CalculateHitBox(a, b, radius + 1)
    ensures radius < 0 ==> !CalculateHitBox(a, b, radius)
  {
  }
}
