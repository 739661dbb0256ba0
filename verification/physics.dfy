/**
 The ball and its one-dimensional physics: gravity that accelerates the ball
 downwards until it reaches a terminal falling speed, a ceiling at row 0, and a
 kick that sends it upwards at a fixed speed. Positions are in screen cells,
 y grows downwards; the source's `f32` quantities are modelled as `real`.
 */
module Physics {

  /** Velocity added by one tick of gravity. */
  const GRAVITY: real := 0.2
  /** Gravity is only applied while the velocity is below this value. */
  const TERMINAL_VELOCITY: real := 2.0
  /** The velocity a kick gives the ball (upwards, since y grows downwards). */
  const KICK_VELOCITY: real := -2.0

  datatype Ball = Ball(x: real, y: real, velocity: real)

  /** A ball at rest at (x, y). */
  function NewBall(x: real, y: real): (b: Ball)
    ensures b.x == x && b.y == y
    ensures b.velocity == 0.0
  {
    Ball(x, y, 0.0)
  }

  /** The velocity after one tick of gravity. */
  function Gravity(v: real): (r: real)
    ensures v < TERMINAL_VELOCITY ==> r == v + GRAVITY
    ensures TERMINAL_VELOCITY <= v ==> r == v
  {
    if v < TERMINAL_VELOCITY then v + GRAVITY else v
  }

  /** One physics tick: accelerate, move by the new velocity, stop at the ceiling. */
  function GravityAndMove(b: Ball): (r: Ball)
    ensures r.x == b.x
    ensures r.velocity == Gravity(b.velocity)
    ensures 0.0 <= r.y
    ensures 0.0 <= b.y + r.velocity ==> r.y == b.y + r.velocity
    ensures b.y + r.velocity < 0.0 ==> r.y == 0.0
  {
    var v := Gravity(b.velocity);
    var y := b.y + v;
    Ball(b.x, if y < 0.0 then 0.0 else y, v)
  }

  /** A kick replaces the velocity and leaves the position alone. */
  function Kick(b: Ball): (r: Ball)
    ensures r.velocity == KICK_VELOCITY
    ensures r.x == b.x && r.y == b.y
  {
    b.(velocity := KICK_VELOCITY)
  }

  /**
   The velocities every reachable ball has: at least the kick velocity and
   below the terminal velocity plus one gravity step. Over exact reals the
   velocity would also stay on the 0.2 grid and never pass 2.0; with the
   source's `f32` rounding the last gravity step may start just below 2.0,
   so only this half-open interval is claimed.
   */
  predicate VelocityInRange(v: real) {
    KICK_VELOCITY <= v < TERMINAL_VELOCITY + GRAVITY
  }

  /** Gravity keeps the velocity in range. */
  lemma GravityKeepsVelocityInRange(v: real)
    requires VelocityInRange(v)
    ensures VelocityInRange(Gravity(v))
  {
  }

  /** A kick lands the velocity in range whatever it was before. */
  lemma KickVelocityInRange(b: Ball)
    ensures VelocityInRange(Kick(b).velocity)
  {
  }

  /** Gravity never slows the ball: the velocity only grows, by at most one step. */
  lemma GravityIsMonotone(v: real)
    ensures v <= Gravity(v) <= v + GRAVITY
  {
  }

  /** From rest at the spawn point, one tick gives velocity 0.2 and y 25.2. */
  lemma FirstTickFromSpawn()
    ensures GravityAndMove(NewBall(40.0, 25.0)) == Ball(40.0, 25.2, 0.2)
  {
  }

  /** At the terminal velocity there is no overshoot, yet the ball still falls 2.0 per tick. */
  lemma TerminalVelocityIsKept(b: Ball)
    requires b.velocity == TERMINAL_VELOCITY
    requires 0.0 <= b.y
    ensures GravityAndMove(b).velocity == 2.0
    ensures GravityAndMove(b).y == b.y + 2.0
  {
  }
}
