/**
 The game state and the per-frame logic of Kick Ups: a menu, a playing screen
 where the player clicks the falling ball to kick it back up and score, and an
 end screen once the ball drops below the bottom row. Rendering is not
 modelled; one frame is a pure function from the state and a snapshot of the
 frame's input to the next state and a quit request.
 */
module Game {
  import opened Physics
  import opened FrameTimer

  /** The bottom row: a ball below it ends the round. */
  const SCREEN_HEIGHT: int := 50
  /** Half the side of the square around the ball that accepts a click. */
  const BALL_RADIUS: int := 1
  /** Where every round starts the ball. */
  const SPAWN_X: real := 40.0
  const SPAWN_Y: real := 25.0

  datatype Mode = Menu | Playing | End

  datatype State = State(ball: Ball, frameTime: real, mode: Mode, score: int)

  datatype Option<T> = None | Some(value: T)

  /** The keys the screens react to; every other key is `OtherKey`. */
  datatype KeyCode = P | Q | OtherKey

  /** What the terminal reports for one frame. */
  datatype Input = Input(frameTimeMs: real, leftClick: bool, mouse: (int, int), key: Option<KeyCode>)

  /** The state after a frame, and whether the frame asked the terminal to quit. */
  datatype Frame = Frame(state: State, quitting: bool)

  /** The state the game opens with: the menu, a resting ball at the spawn point, no score. */
  function NewState(): (s: State)
    ensures s.mode == Menu
    ensures s.score == 0 && s.frameTime == 0.0
    ensures s.ball == Ball(SPAWN_X, SPAWN_Y, 0.0)
  {
    State(NewBall(SPAWN_X, SPAWN_Y), 0.0, Menu, 0)
  }

  function Abs(n: int): nat
  {
    if n < 0 then -n else n
  }

  /** Whether `mouse` lies in the square of half-side `radius` centred on `ball`, edges included. */
  function CalculateHitBox(ball: (int, int), mouse: (int, int), radius: int): (hit: bool)
    ensures hit <==> Abs(mouse.0 - ball.0) <= radius && Abs(mouse.1 - ball.1) <= radius
  {
    (mouse.0 >= ball.0 - radius && mouse.0 <= ball.0 + radius)
    && (mouse.1 >= ball.1 - radius && mouse.1 <= ball.1 + radius)
  }

  /** A float-to-integer cast: drops the fraction, rounding toward zero. */
  function Truncate(r: real): (n: int)
    ensures 0.0 <= r ==> n as real <= r < n as real + 1.0
    ensures r < 0.0 ==> n as real - 1.0 < r <= n as real
  {
    if r >= 0.0 then r.Floor else -((-r).Floor)
  }

  /** The screen cell the ball is drawn in and hit-tested against. */
  function Cell(b: Ball): (c: (int, int))
    ensures 0.0 <= b.x && 0.0 <= b.y ==> c == (b.x.Floor, b.y.Floor)
  {
    (Truncate(b.x), Truncate(b.y))
  }

  /** Adds the frame's time to the accumulator and runs one physics tick when it is due. */
  function AdvanceClock(s: State, elapsedMs: real): (r: State)
    ensures r.mode == s.mode && r.score == s.score
    ensures FRAME_DURATION < s.frameTime + elapsedMs ==> r.frameTime == 0.0 && r.ball == GravityAndMove(s.ball)
    ensures s.frameTime + elapsedMs <= FRAME_DURATION ==> r.frameTime == s.frameTime + elapsedMs && r.ball == s.ball
  {
    var a := Accumulate(s.frameTime, elapsedMs);
    var ball := if a.stepDue then GravityAndMove(s.ball) else s.ball;
    s.(frameTime := a.frameTime, ball := ball)
  }

  /** Whether a click this frame lands on the ball's cell or one of its eight neighbours. */
  function ClickHits(s: State, leftClick: bool, mouse: (int, int)): (hit: bool)
    ensures hit <==> leftClick
                     && Abs(mouse.0 - Truncate(s.ball.x)) <= BALL_RADIUS
                     && Abs(mouse.1 - Truncate(s.ball.y)) <= BALL_RADIUS
  {
    leftClick && CalculateHitBox(Cell(s.ball), mouse, BALL_RADIUS)
  }

  /** A click on the ball kicks it and scores a point; anything else changes nothing. */
  function HandleClick(s: State, leftClick: bool, mouse: (int, int)): (r: State)
    ensures ClickHits(s, leftClick, mouse) ==> r == s.(ball := Kick(s.ball), score := s.score + 1)
    ensures !ClickHits(s, leftClick, mouse) ==> r == s
  {
    if ClickHits(s, leftClick, mouse) then
      s.(ball := Kick(s.ball), score := s.score + 1)
    else
      s
  }

  /** Ends the round when the ball is below the bottom row; changes nothing else. */
  function CheckEnd(s: State): (r: State)
    ensures r.mode == End <==> s.mode == End || SCREEN_HEIGHT as real < s.ball.y
    ensures r.mode != End ==> r.mode == s.mode
    ensures r.ball == s.ball && r.frameTime == s.frameTime && r.score == s.score
  {
    if s.ball.y > SCREEN_HEIGHT as real then s.(mode := End) else s
  }

  /** Applying the end-of-round check a second time changes nothing. */
  lemma CheckEndIdempotent(s: State)
    ensures CheckEnd(CheckEnd(s)) == CheckEnd(s)
  {
  }

  /** Whether this frame's click kicks the ball: it is tested after the physics tick. */
  predicate Kicked(s: State, input: Input)
  {
    ClickHits(AdvanceClock(s, input.frameTimeMs), input.leftClick, input.mouse)
  }

  /** One frame of the playing screen: clock and physics, click, then the end-of-round check (made twice). */
  function Play(s: State, input: Input): (r: State)
    ensures r.ball.x == s.ball.x
    ensures r.ball.y == AdvanceClock(s, input.frameTimeMs).ball.y
    ensures r.frameTime == Accumulate(s.frameTime, input.frameTimeMs).frameTime
    ensures Kicked(s, input) ==> r.score == s.score + 1 && r.ball.velocity == KICK_VELOCITY
    ensures !Kicked(s, input) ==> r.score == s.score && r.ball == AdvanceClock(s, input.frameTimeMs).ball
    ensures r.mode == End <==> s.mode == End || SCREEN_HEIGHT as real < r.ball.y
    ensures r.mode != End ==> r.mode == s.mode
  {
    var clocked := AdvanceClock(s, input.frameTimeMs);
    var clicked := HandleClick(clocked, input.leftClick, input.mouse);
    CheckEnd(CheckEnd(clicked))
  }

  /** A fresh round: the ball back at the spawn point at rest, clock and score cleared, playing. */
  function Restart(s: State): (r: State)
    ensures r == NewState().(mode := Playing)
    ensures r.mode == Playing && r.score == 0 && r.frameTime == 0.0
    ensures r.ball == Ball(SPAWN_X, SPAWN_Y, 0.0)
  {
    State(NewBall(SPAWN_X, SPAWN_Y), 0.0, Playing, 0)
  }

  /**
   The keys of the main menu and of the end screen, which react to them alike:
   P starts a round, Q quits, others are ignored. Drawing either screen is not
   modelled, so this is all that is left of either.
   */
  function HandleKey(s: State, key: Option<KeyCode>): (f: Frame)
    ensures key == Some(P) ==> f == Frame(Restart(s), false)
    ensures key == Some(Q) ==> f == Frame(s, true)
    ensures key != Some(P) && key != Some(Q) ==> f == Frame(s, false)
  {
    match key
    case Some(P) => Frame(Restart(s), false)
    case Some(Q) => Frame(s, true)
    case _ => Frame(s, false)
  }

  /** One frame of the game, dispatched on the mode. */
  function Tick(s: State, input: Input): (f: Frame)
    ensures s.mode == Playing ==> f == Frame(Play(s, input), false)
    ensures s.mode != Playing ==> f == HandleKey(s, input.key)
  {
    match s.mode
    case Menu => HandleKey(s, input.key)
    case End => HandleKey(s, input.key)
    case Playing => Frame(Play(s, input), false)
  }
}
