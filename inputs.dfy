/**
 * The range fallbacks the editor applies to the run settings on the first
 * click after editing (main.py:433-509). An entry that is empty or
 * malformed, or that lies outside its range, is replaced by the entry's
 * default; it is never clamped to the nearest bound.
 */
module EditorInputs {
  import opened Options
  import opened Vectors
  import opened Curves
  import opened Physics

  /**
   * What the user typed in each box, once parsed: `None` for an empty box or
   * one with more than one `.` (or, for the velocities, more than one `-`).
   */
  datatype Entries = Entries(
    size: Option<int>, radius: Option<real>, x: Option<real>, y: Option<real>,
    xvel: Option<real>, yvel: Option<real>, friction: Option<real>,
    gravity: Option<real>, density: Option<real>)

  /** The values a run starts from. */
  datatype Settings = Settings(
    size: int, radius: real, x: real, y: real, xvel: real, yvel: real,
    friction: real, gravity: real, density: real)

  /** `v` respects the bounds that are present. */
  predicate Within(v: real, lo: Option<real>, hi: Option<real>) {
    (lo.None? || lo.value <= v) && (hi.None? || v <= hi.value)
  }

  /**
   * One box: its parsed value when present and within the bounds, its
   * default otherwise.
   */
  function Accept(entry: Option<real>, lo: Option<real>, hi: Option<real>, default: real): (r: real)
    requires Within(default, lo, hi)
    ensures Within(r, lo, hi)
    ensures r == default || entry == Some(r)
    ensures entry.Some? && Within(entry.value, lo, hi) ==> r == entry.value
    ensures entry.Some? && !Within(entry.value, lo, hi) ==> r == default
  {
    match entry
    case Some(v) => if Within(v, lo, hi) then v else default
    case None => default
  }

  /** main.py:430-436: the eraser and pen size, 1 to 10, default 3. */
  function ToolSize(entry: Option<int>): (size: int)
    ensures 1 <= size <= 10
    ensures size == 3 || entry == Some(size)
    ensures entry.Some? && 1 <= entry.value <= 10 ==> size == entry.value
  {
    match entry
    case Some(n) => if n < 1 || n > 10 then 3 else n
    case None => 3
  }

  /** Every setting lies where the editor's checks put it. */
  predicate Sane(s: Settings) {
    1 <= s.size <= 10 &&
    10.0 <= s.radius <= 75.0 &&
    0.0 <= s.x <= WIDTH && 0.0 <= s.y <= HEIGHT &&
    -500.0 <= s.xvel <= 500.0 && -500.0 <= s.yvel <= 500.0 &&
    s.gravity <= 1500.0
  }

  /** main.py:428-509: the fallbacks, box by box. */
  function Validate(e: Entries): (s: Settings)
    ensures Sane(s)
  {
    Settings(
      ToolSize(e.size),
      Accept(e.radius, Some(10.0), Some(75.0), 20.0),
      Accept(e.x, Some(0.0), Some(WIDTH), 0.0),
      Accept(e.y, Some(0.0), Some(HEIGHT), 0.0),
      Accept(e.xvel, Some(-500.0), Some(500.0), 0.0),
      Accept(e.yvel, Some(-500.0), Some(500.0), 0.0),
      Accept(e.friction, None, None, 0.0),
      Accept(e.gravity, None, Some(1500.0), 1000.0),
      Accept(e.density, None, None, 0.0))
  }

  /** The boxes as they read after validation: every value written back. */
  function Entered(s: Settings): Entries {
    Entries(Some(s.size), Some(s.radius), Some(s.x), Some(s.y), Some(s.xvel), Some(s.yvel),
            Some(s.friction), Some(s.gravity), Some(s.density))
  }

  /** Settings that already pass every check come through validation unchanged. */
  lemma ValidateKeepsSane(s: Settings)
    requires Sane(s)
    ensures Validate(Entered(s)) == s
  {
  }

  /** Validating a second time changes nothing. */
  lemma ValidateIdempotent(e: Entries)
    ensures Validate(Entered(Validate(e))) == Validate(e)
  {
    ValidateKeepsSane(Validate(e));
  }

  /** Gravity has an upper bound only: any negative value is accepted as typed. */
  lemma NegativeGravityAccepted(e: Entries, g: real)
    requires g < 0.0 && e.gravity == Some(g)
    ensures Validate(e).gravity == g
  {
  }

  /**
   * main.py:446-483: validation writes the radius, the starting position and
   * the starting velocity into the editor's one ball, which is made once
   * (main.py:230) and handed from run to run (main.py:343). Its colour,
   * freefall flag, checkpoint, tangent and side stay as the last run left
   * them, and a valid ball stays valid.
   */
  function Start(prev: BallState, s: Settings): (b: BallState)
    ensures b.radius == s.radius && b.pos == Vec(s.x, s.y) && b.vel == Vec(s.xvel, s.yvel)
    ensures b.color == prev.color && b.freefall == prev.freefall && b.checkpoint == prev.checkpoint &&
            b.tangent == prev.tangent && b.onTop == prev.onTop
    ensures Valid(prev) ==> Valid(b)
  {
    prev.(radius := s.radius, pos := Vec(s.x, s.y), vel := Vec(s.xvel, s.yvel))
  }

  /** The assignments `ball.radius = radius` … `ball.yvel = YVEL` of main.py:446-483. */
  method Apply(ball: Ball, s: Settings)
    modifies ball
    ensures ball.State() == Start(old(ball.State()), s)
  {
    ball.radius := s.radius;
    ball.x := s.x;
    ball.y := s.y;
    ball.xvel := s.xvel;
    ball.yvel := s.yvel;
  }

  /** A validated start lies inside the window, whatever the ball held before. */
  lemma SaneStartInside(prev: BallState, s: Settings)
    requires Sane(s)
    ensures !OutOfBounds(Start(prev, s))
  {
  }

  /**
   * A click after editing followed by Enter (main.py:340-343 and 422-509):
   * the settings are validated and written into the ball, and the run
   * starts from that ball, with the validated gravity.
   */
  method ValidateAndRun(ball: Ball, e: Entries, strokes: seq<Stroke>, dts: seq<real>, norm: Vec -> real)
      returns (outcome: Outcome)
    requires IsNorm(norm) && Valid(ball.State())
    modifies ball
    ensures var s := Validate(e);
            Step(outcome, ball.State()) == RunSpec(Start(old(ball.State()), s), Prepared(strokes), dts, s.gravity, norm)
  {
    var s := Validate(e);
    Apply(ball, s);
    outcome := RunSim(ball, strokes, dts, s.gravity, norm);
  }

  /** A ball in freefall, as the editor's ball is before its first run, starts a run that never faults. */
  lemma FreeStartNeverFaults(prev: BallState, s: Settings, curves: seq<Curve>, dts: seq<real>, g: real, norm: Vec -> real)
    requires AllWellFormed(curves) && IsNorm(norm) && prev.freefall
    ensures RunSpec(Start(prev, s), curves, dts, g, norm).outcome != Fault
  {
    RunNeverFaults(Start(prev, s), curves, dts, g, norm);
  }

  /**
   * A run that ends with the ball still bound to a curve leaves that binding
   * in the ball; once the drawing has been erased, the next run, validated
   * or not, fails on its first frame.
   */
  lemma EndedBoundRunFaultsNext(s0: BallState, curves: seq<Curve>, dts: seq<real>, g: real, norm: Vec -> real,
                                s: Settings, dt: real, g': real)
    requires AllWellFormed(curves) && IsNorm(norm) && Valid(s0)
    requires RunSpec(s0, curves, dts, g, norm).outcome == Ended && !RunSpec(s0, curves, dts, g, norm).state.freefall
    ensures var prev := RunSpec(s0, curves, dts, g, norm).state;
            Valid(prev) &&
            FrameSpec(Start(prev, s), [], dt, g', norm) == Step(Fault, Start(prev, s)) &&
            FrameSpec(prev, [], dt, g', norm) == Step(Fault, prev)
  {
    var prev := RunSpec(s0, curves, dts, g, norm).state;
    RunSpecValid(s0, curves, dts, g, norm);
    StaleCheckpointFaults(Start(prev, s), dt, g', norm);
    StaleCheckpointFaults(prev, dt, g', norm);
  }
}
