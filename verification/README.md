# Kick Ups, modelled in Dafny

Kick Ups is a small terminal game. A ball falls under gravity on an 80×50
character screen. The player clicks on it to kick it back up and scores a
point per kick. The round ends when the ball drops below row 50. This project
models the game's logic with the rendering taken away, and proves properties
of that model.

- `physics.dfy` (module `Physics`): the ball (`x`, `y`, `velocity`). It covers
  gravity, which adds 0.2 only while the velocity is below 2.0; the move; the
  clamp at row 0; and the kick, which sets the velocity to -2.0.
- `frame_timer.dfy` (module `FrameTimer`): the frame-time accumulator. One
  physics tick becomes due when the accumulator strictly exceeds 60 ms; the
  accumulator then restarts at 0 and the excess is dropped. `RunTimer` runs
  it over many frames and bounds how fast and how slowly ticks happen.
- `game.dfy` (module `Game`): the state (ball, accumulator, mode, score). It
  holds the inclusive square hit test, the float-to-integer cast, the playing
  frame, restart, the key handling of the menu and end screens, and the mode
  dispatch `Tick`. A frame is a pure function from the state and an input
  snapshot to a `Frame` (the next state and a quit request). The snapshot holds
  the elapsed milliseconds, the click flag, the mouse cell and an optional key
  (P, Q or another key).
- `invariants.dfy` (module `Invariants`): the invariant of every reachable
  state and its proof over any sequence of frames (`Run`). It also holds the
  mode transition table, the score and end-of-round rules, and the facts the
  hit test relies on.

The source's `f32` fields are `real` here. Its `as i32` casts are `Truncate`
(rounding toward zero), which equals the floor on the non-negative positions
the ball takes. Repeated 0.2 steps are not exact in `f32`, so the velocity
bound is stated as the interval [-2.0, 2.2). That bound survives rounding; the
exact-real cap of 2.0 does not.

The ball moves only vertically. `x` only ever gets `+= 0.0`
(src/main.rs:44), and `kick` only sets the vertical velocity, so the model
keeps `x` fixed.

The main menu (`main_menu`) and the end screen (`dead`) differ only in what
they draw. Their key handling is the same, so both are modelled by
`Game.HandleKey`, which `Game.Tick` calls for the Menu and End modes.

## Model

| member | source | states |
|---|---|---|
| Physics.NewBall | src/main.rs:21-27 | A new ball is at the given position with velocity 0 |
| Physics.Gravity | src/main.rs:40-42 | Gravity adds exactly 0.2 when the velocity is below 2.0 and leaves it unchanged otherwise |
| Physics.GravityAndMove | src/main.rs:39-48 | One tick leaves x unchanged and applies gravity. y becomes the old y plus the new velocity, raised to 0 if that is negative, so y >= 0 whatever the prior velocity |
| Physics.Kick | src/main.rs:50-52 | A kick sets the velocity to exactly -2.0 and leaves x and y unchanged |
| Physics.GravityKeepsVelocityInRange | src/main.rs:40-42 | A velocity in [-2.0, 2.2) stays in that interval after gravity |
| Physics.KickVelocityInRange | src/main.rs:50-52 | After any kick the velocity is inside [-2.0, 2.2), whatever it was before |
| Physics.GravityIsMonotone | src/main.rs:40-42 | Gravity never lowers the velocity and raises it by at most 0.2 |
| Physics.FirstTickFromSpawn | src/main.rs:39-48 | From rest at (40, 25), one tick gives velocity 0.2 and y 25.2 |
| Physics.TerminalVelocityIsKept | src/main.rs:40-43 | At velocity 2.0 a tick keeps the velocity at 2.0 (no overshoot) and moves y down by 2.0 |
| FrameTimer.Accumulate | src/main.rs:81-85 | A tick is due iff the old accumulator plus the frame time exceeds 60. The accumulator then becomes 0; otherwise it grows by the frame time. It never exceeds 60 |
| FrameTimer.AccumulatorStaysBounded | src/main.rs:81-85 | With non-negative frame times the accumulator stays in [0, 60] |
| FrameTimer.ExcessIsDiscarded | src/main.rs:82-83 | A frame longer than 60 ms yields one tick and leaves nothing carried over |
| FrameTimer.RunTimer | src/main.rs:81-85 | Over n frames there are at most n ticks. Each tick consumes more than 60 ms (never faster than one per 60 ms) and at most 60 ms plus the longest frame |
| Game.NewState | src/main.rs:63-70 | The game opens on the menu with score 0, accumulator 0 and a resting ball at (40, 25) |
| Game.CalculateHitBox | src/main.rs:72-77 | A hit iff abs(mouse.x - ball.x) <= radius and abs(mouse.y - ball.y) <= radius, both bounds inclusive |
| Game.Truncate | src/main.rs:87 | The cast drops the fraction toward zero: the result is within 1 of the input, on the side of zero |
| Game.Cell | src/main.rs:87 | The hit-tested cell of a ball at non-negative coordinates is the floor of its x and y |
| Game.ClickHits | src/main.rs:87 | A click hits iff the click flag is set and the mouse is within 1 cell, on each axis, of the truncated ball position |
| Game.AdvanceClock | src/main.rs:81-85 | Mode and score are unchanged. One physics tick runs and the accumulator resets iff the total exceeds 60; otherwise the ball is unchanged and the accumulator grows by the frame time |
| Game.HandleClick | src/main.rs:87-90 | A click inside the ball's hit box kicks the ball and adds exactly 1 to the score. Anything else changes nothing |
| Game.CheckEnd | src/main.rs:97-99 | The mode becomes End iff the ball's y exceeds 50. Ball, accumulator and score are unchanged |
| Game.CheckEndIdempotent | src/main.rs:97-106 | The repeated end-of-round check is idempotent |
| Game.Play | src/main.rs:79-107 | A playing frame never moves x. y is the y after the clock step. The score rises by exactly 1 and the velocity becomes -2.0 iff the click hits the truncated ball cell with radius 1 after the tick; otherwise score and ball are as after the clock step. The mode becomes End iff the final y exceeds 50 |
| Game.Restart | src/main.rs:109-114 | Restart gives the opening state but in Playing: ball (40, 25) at rest, accumulator 0, score 0 |
| Game.HandleKey | src/main.rs:122-128 | The key handling of the menu (and, identically, of the end screen at src/main.rs:138-144): P restarts and Q requests quitting with the state unchanged. Any other key, or none, changes nothing |
| Game.Tick | src/main.rs:148-155 | Playing frames run the playing logic and never quit. Menu and End frames run the key handling |
| Invariants.NewStateIsValid | src/main.rs:63-70 | The opening state satisfies the reachable-state invariant |
| Invariants.RestartIsValid | src/main.rs:109-114 | A restarted state satisfies the reachable-state invariant |
| Invariants.PlayPreservesValid | src/main.rs:79-107 | A playing frame keeps the invariant: x = 40, y >= 0, velocity in [-2.0, 2.2), accumulator in [0, 60], score >= 0, y <= 50 unless the round ended |
| Invariants.TickPreservesValid | src/main.rs:148-155 | Every frame, in every mode, keeps the invariant |
| Invariants.RunPreservesValid | src/main.rs:148-155 | Any sequence of frames from a valid state ends in a valid state |
| Invariants.ReachableBallBounds | src/main.rs:39-52 | In every reachable state the velocity is in [-2.0, 2.2), y >= 0 and x = 40 |
| Invariants.HitTestCellInRange | src/main.rs:87 | A click is tested against cell (40, r) with 0 <= r <= 52, so the 32-bit arithmetic cannot overflow |
| Invariants.Transitions | src/main.rs:150-154 | Menu leads only to Playing, Playing only to End, End only back to Playing. Only Menu and End quit, on Q, and a quitting frame changes no state |
| Invariants.PlayKeyRestarts | src/main.rs:138-144 | On the menu or end screen, P gives ball (40, 25), velocity 0, accumulator 0, score 0, mode Playing |
| Invariants.EndScreenKeepsScore | src/main.rs:131-145 | The end screen keeps the state, and so the final score, until P is pressed |
| Invariants.ScoreCountsKicks | src/main.rs:87-90 | While playing, the score goes up by exactly 1 on a hit click and is unchanged otherwise |
| Invariants.RoundEndsBelowBottomRow | src/main.rs:97-106 | While playing, the frame ends the round iff the ball ends below row 50; otherwise the mode stays Playing |
| Invariants.TruncateIsFloor | src/main.rs:87 | On non-negative positions the cast equals the floor |
| Invariants.HitBoxExamples | src/main.rs:72-77 | (40,25) and (41,26) hit (40,25) with radius 1; (42,25) does not |
| Invariants.HitBoxSymmetricMonotone | src/main.rs:72-77 | The hit test is symmetric, grows with the radius, and never hits with a negative radius |

## Left out

- Rendering: screen clearing, drawing the ball, the menu, score and end-screen text, and their draw order. These are output-only calls into the terminal library.
- `main`, the window construction and the library's main loop. `Run` stands in for the loop: it feeds frames to `Tick` until one of them requests quitting.
- Exact IEEE `f32` rounding. The quantities are reals, and only bounds that survive rounding are stated (see `Physics.VelocityInRange`).
- Game.Truncate: the saturation of Rust's float-to-integer cast at the 32-bit limits is not modelled. Reachable positions stay in [0, 53) (`Invariants.HitTestCellInRange`), where it never applies.
- Game.HandleClick: the score is an unbounded integer. The source's 32-bit score overflow after 2^31 - 1 kicks (a panic or a wrap, depending on the build) is not modelled.
- The commented-out exact-cell click test in `play`, because it is dead code.
- The screen width (80) is not modelled. The source declares it but the logic never reads it: nothing moves the ball sideways.
- Horizontal motion: the code has none.
- Quitting is reported per frame as `Frame.quitting`. The library's persistent quit flag is not modelled.
