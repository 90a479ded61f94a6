/**
 * The ball and one frame of `run_sim` (main.py:28-60 and 140-211): contact
 * acquisition, the integrator and the out-of-bounds stop.
 */
module Physics {
  import opened RealArith
  import opened Vectors
  import opened Options
  import opened Curves
  import opened Contact
  import opened Search
  import opened Motion

  const WIDTH: real := 1000.0
  const HEIGHT: real := 800.0

  /** Everything a `Ball` holds, as a value. */
  datatype BallState = BallState(
    radius: real, pos: Vec, vel: Vec, color: Color,
    freefall: bool, checkpoint: Option<Checkpoint>, tangent: Option<Vec>, onTop: Option<bool>)

  /**
   * What the source relies on without checking: a ball that is not in
   * freefall has a checkpoint and a non-zero tangent (`move` divides by the
   * tangent's norm, the windowed search unpacks the checkpoint).
   */
  predicate Valid(s: BallState) {
    !s.freefall ==> s.checkpoint.Some? && s.tangent.Some? && s.tangent.value != Zero
  }

  /**
   * `Ball.move(dt)` (main.py:39-60) with gravity `g`: the velocity is
   * updated first and the position advances by the new velocity; the
   * binding, the side and the ball's size and colour are kept.
   */
  function MoveSpec(s: BallState, dt: real, g: real, norm: Vec -> real): (m: BallState)
    requires IsNorm(norm) && Valid(s)
    ensures m.pos == Add(s.pos, Scale(m.vel, dt))
    ensures m == s.(vel := m.vel, pos := m.pos, tangent := m.tangent)
  {
    if s.freefall then
      var vel := Vec(s.vel.x, s.vel.y + g * dt);
      s.(vel := vel, pos := Add(s.pos, Scale(vel, dt)))
    else
      var t := s.tangent.value;
      NormZero(norm, t);
      var u := Scale(t, 1.0 / norm(t));
      var acc := Scale(u, Dot(u, Gravity(g)));
      var vel := Add(Scale(u, Dot(u, s.vel)), Scale(acc, dt));
      s.(tangent := Some(u), vel := vel, pos := Add(s.pos, Scale(vel, dt)))
  }

  /**
   * In freefall only gravity acts: the horizontal velocity is kept, the
   * vertical one grows by `g * dt`, and the position advances by the new
   * velocity (semi-implicit Euler). Nothing else changes.
   */
  lemma MoveFreefall(s: BallState, dt: real, g: real, norm: Vec -> real)
    requires IsNorm(norm) && Valid(s) && s.freefall
    ensures var s' := MoveSpec(s, dt, g, norm);
            s'.vel == Add(s.vel, Scale(Gravity(g), dt)) && s'.pos == Add(s.pos, Scale(s'.vel, dt)) &&
            s' == s.(vel := s'.vel, pos := s'.pos)
  {
  }

  /**
   * On a track the new velocity is the square-root-free `TrackVelocity` of
   * the stored tangent: parallel to the edge, with gravity's component along
   * it added. The stored tangent becomes a unit vector along the edge; the
   * position advances by the new velocity; nothing else changes.
   */
  lemma MoveOnTrack(s: BallState, dt: real, g: real, norm: Vec -> real)
    requires IsNorm(norm) && Valid(s) && !s.freefall
    ensures var t, s' := s.tangent.value, MoveSpec(s, dt, g, norm);
            s'.vel == TrackVelocity(t, s.vel, g, dt) &&
            s'.pos == Add(s.pos, Scale(s'.vel, dt)) &&
            s'.tangent.Some? && Dot(s'.tangent.value, s'.tangent.value) == 1.0 &&
            Cross(t, s'.tangent.value) == 0.0 &&
            s' == s.(vel := s'.vel, pos := s'.pos, tangent := s'.tangent)
  {
    var t := s.tangent.value;
    ScaleToLength(norm, t, 1.0);
    var n := norm(t);
    var a := 1.0 / n;
    var u := Scale(t, a);
    var s' := MoveSpec(s, dt, g, norm);
    assert s'.tangent == Some(u);
    CrossScaleSelf(t, a);
    SqOne();
    var j, k := Dot(u, s.vel), Dot(u, Gravity(g));
    ScaleSum(u, j, k, dt);
    var w := j + Mul(k, dt);
    assert s'.vel == Scale(u, w);
    ScaleScale(t, a, w);
    CrossScaleSelf(t, Mul(a, w));
    DotScaleLeft(t, s.vel, a);
    DotScaleLeft(t, Gravity(g), a);
    DotComm(u, s.vel);
    DotComm(u, Gravity(g));
    DotScaleLeft(t, t, Mul(a, w));
    DotComm(t, Scale(t, Mul(a, w)));
    NormZero(norm, t);
    assert Dot(t, t) == Sq(n);
    var p := Dot(t, s.vel) + Mul(Dot(t, Gravity(g)), dt);
    Distribute(a, Dot(t, s.vel), Dot(t, Gravity(g)), dt);
    assert w == Mul(a, p);
    assert Mul(a, n) == 1.0;
    calc {
      Dot(t, s'.vel);
      == Mul(Mul(a, w), Sq(n));
      == Mul(Mul(a, Mul(a, p)), Sq(n));
      == { RegroupSquare(a, n, p); }
      Mul(Mul(Mul(a, n), Mul(a, n)), p);
      == Mul(Mul(1.0, 1.0), p);
      == p;
    }
    TrackVelocityCharacterized(t, s.vel, g, dt, s'.vel);
  }

  lemma RegroupSquare(a: real, n: real, p: real)
    ensures Mul(Mul(a, Mul(a, p)), Sq(n)) == Mul(Mul(Mul(a, n), Mul(a, n)), p)
  {
    calc {
      Mul(Mul(a, Mul(a, p)), Sq(n));
      == (a * (a * p)) * (n * n);
      == ((a * n) * (a * n)) * p;
      == Mul(Mul(Mul(a, n), Mul(a, n)), p);
    }
  }

  lemma Distribute(a: real, x: real, y: real, dt: real)
    ensures Mul(a, x + Mul(y, dt)) == Mul(a, x) + Mul(Mul(a, y), dt)
  {
    calc {
      Mul(a, x + Mul(y, dt));
      == a * (x + y * dt);
      == a * x + (a * y) * dt;
      == Mul(a, x) + Mul(Mul(a, y), dt);
    }
  }

  /**
   * Binding the ball to edge `cp.seg` of curve `cp.curve` (main.py:162-173
   * and 189-200): checkpoint, tangent and side are recorded, and a ball that
   * sinks into the edge is pushed out.
   */
  function Bind(s: BallState, curves: seq<Curve>, cp: Checkpoint, norm: Vec -> real): (b: BallState)
    requires AllWellFormed(curves) && IsNorm(norm)
    requires cp.curve < |curves| && cp.seg < |curves[cp.curve].edges|
    ensures b.checkpoint == Some(cp) && b.tangent == Some(curves[cp.curve].edges[cp.seg])
    ensures b.tangent.value != Zero
    ensures var curve := curves[cp.curve];
            var c, p, v, th := s.pos, curve.vertices[cp.seg], curve.edges[cp.seg], curve.thickness as real;
            b.onTop == Some(OnTop(c, p, v)) &&
            (Penetrates(c, s.radius, th, p, v) ==> b.pos == Depenetrated(norm, c, s.radius, th, p, v)) &&
            (!Penetrates(c, s.radius, th, p, v) ==> b.pos == c)
    ensures b == s.(checkpoint := b.checkpoint, tangent := b.tangent, onTop := b.onTop, pos := b.pos)
  {
    var curve := curves[cp.curve];
    var c, p, v := s.pos, curve.vertices[cp.seg], curve.edges[cp.seg];
    var th := curve.thickness as real;
    var pos := if Penetrates(c, s.radius, th, p, v) then Depenetrated(norm, c, s.radius, th, p, v) else c;
    s.(checkpoint := Some(cp), tangent := Some(v), onTop := Some(OnTop(c, p, v)), pos := pos)
  }

  /**
   * The windowed re-acquisition (main.py:145-175) for a ball on a track;
   * `None` when the checkpoint names a curve that does not exist (the
   * source raises `IndexError`).
   */
  function Windowed(s: BallState, curves: seq<Curve>, norm: Vec -> real): (w: Option<BallState>)
    requires AllWellFormed(curves) && IsNorm(norm) && Valid(s) && !s.freefall
    ensures w.None? <==> s.checkpoint.value.curve >= |curves|
    ensures w.Some? && w.value.freefall ==> w.value == s.(freefall := true)
    ensures w.Some? && !w.value.freefall ==>
              w.value.checkpoint.Some? && w.value.checkpoint.value.curve == s.checkpoint.value.curve &&
              w.value.vel == s.vel && w.value.radius == s.radius
  {
    var cp := s.checkpoint.value;
    if cp.curve >= |curves| then None
    else
      match NearestPassing(Mask(s.pos, s.radius, curves[cp.curve]), cp.seg)
      case Some(j) => Some(Bind(s, curves, Checkpoint(cp.curve, j), norm))
      case None => Some(s.(freefall := true))
  }

  /** The global acquisition (main.py:177-202) for a ball in freefall. */
  function Global(s: BallState, curves: seq<Curve>, norm: Vec -> real): (a: BallState)
    requires AllWellFormed(curves) && IsNorm(norm) && s.freefall
    ensures a.freefall <==> GlobalPick(Masks(s.pos, s.radius, curves), 0).None?
    ensures a.freefall ==> a == s
    ensures !a.freefall ==> a.checkpoint == GlobalPick(Masks(s.pos, s.radius, curves), 0)
  {
    match GlobalPick(Masks(s.pos, s.radius, curves), 0)
    case Some(cp) => Bind(s.(freefall := false), curves, cp, norm)
    case None => s
  }

  /** The physics block before `ball.move` (main.py:141-202); `None` is the `IndexError`. */
  function Acquire(s: BallState, curves: seq<Curve>, norm: Vec -> real): (a: Option<BallState>)
    requires AllWellFormed(curves) && IsNorm(norm) && Valid(s)
    ensures a.Some? ==> Valid(a.value)
  {
    if s.freefall then Some(Global(s, curves, norm))
    else
      match Windowed(s, curves, norm)
      case None => None
      case Some(w) => Some(if w.freefall then Global(w, curves, norm) else w)
  }

  /**
   * main.py:206: the disc lies entirely outside the window; a ball of
   * positive radius whose centre is in the window is never out.
   */
  predicate OutOfBounds(s: BallState): (b: bool)
    ensures s.radius > 0.0 && 0.0 <= s.pos.x <= WIDTH && 0.0 <= s.pos.y <= HEIGHT ==> !b
  {
    s.pos.x + s.radius <= 0.0 || s.pos.x - s.radius >= WIDTH ||
    s.pos.y + s.radius <= 0.0 || s.pos.y - s.radius >= HEIGHT
  }

  datatype Outcome = Running | Ended | Fault

  datatype Step = Step(outcome: Outcome, state: BallState)

  /**
   * One pass of the `while run` loop's physics (main.py:141-211): acquire a
   * contact, move, and stop the run with position and velocity zeroed once
   * the ball has left the window.
   */
  function FrameSpec(s: BallState, curves: seq<Curve>, dt: real, g: real, norm: Vec -> real): (st: Step)
    requires AllWellFormed(curves) && IsNorm(norm) && Valid(s)
    ensures st.outcome == Fault ==> st.state == s
    ensures st.outcome == Ended ==> st.state.pos == Zero && st.state.vel == Zero
    ensures st.outcome == Running ==> !OutOfBounds(st.state)
  {
    match Acquire(s, curves, norm)
    case None => Step(Fault, s)
    case Some(a) =>
      var m := MoveSpec(a, dt, g, norm);
      if OutOfBounds(m) then Step(Ended, m.(pos := Zero, vel := Zero)) else Step(Running, m)
  }

  /** Every edge of every curve fails the contact test at `c`. */
  predicate Free(c: Vec, r: real, curves: seq<Curve>)
    requires AllWellFormed(curves)
  {
    forall k :: 0 <= k < |curves| ==> Clear(Mask(c, r, curves[k]))
  }

  /**
   * What acquisition guarantees: it fails exactly on a checkpoint naming a
   * missing curve; otherwise the ball is valid, is bound to an existing edge
   * that passes the contact test at the frame's starting centre, or is in
   * freefall because no edge of any curve passes there; velocity, radius
   * and colour are untouched.
   */
  lemma AcquireSound(s: BallState, curves: seq<Curve>, norm: Vec -> real)
    requires AllWellFormed(curves) && IsNorm(norm) && Valid(s)
    ensures Acquire(s, curves, norm).None? <==> !s.freefall && s.checkpoint.value.curve >= |curves|
    ensures Acquire(s, curves, norm).Some? ==>
              var a := Acquire(s, curves, norm).value;
              Valid(a) && a.vel == s.vel && a.radius == s.radius && a.color == s.color &&
              (a.freefall ==> Free(s.pos, s.radius, curves) && a.pos == s.pos) &&
              (!a.freefall ==>
                 var cp := a.checkpoint.value;
                 cp.curve < |curves| && cp.seg < |curves[cp.curve].edges| &&
                 EdgePasses(s.pos, s.radius, curves[cp.curve], cp.seg))
  {
    var ms := Masks(s.pos, s.radius, curves);
    var hit := GlobalPick(ms, 0);
    if hit.Some? {
      assert ms[hit.value.curve] == Mask(s.pos, s.radius, curves[hit.value.curve]);
    }
    if !s.freefall && s.checkpoint.value.curve < |curves| {
      var cp := s.checkpoint.value;
      var pick := NearestPassing(Mask(s.pos, s.radius, curves[cp.curve]), cp.seg);
      if pick.Some? {
        assert Mask(s.pos, s.radius, curves[cp.curve])[pick.value];
      }
    }
  }

  /** A ball whose checkpoint, if it is bound, names an existing edge of `curves`. */
  predicate Anchored(s: BallState, curves: seq<Curve>) {
    Valid(s) &&
    (!s.freefall ==>
       s.checkpoint.value.curve < |curves| && s.checkpoint.value.seg < |curves[s.checkpoint.value.curve].edges|)
  }

  /** A frame raises `IndexError` exactly when a bound ball's checkpoint names a missing curve; it then changes nothing. */
  lemma FrameFaultIff(s: BallState, curves: seq<Curve>, dt: real, g: real, norm: Vec -> real)
    requires AllWellFormed(curves) && IsNorm(norm) && Valid(s)
    ensures FrameSpec(s, curves, dt, g, norm).outcome == Fault <==> !s.freefall && s.checkpoint.value.curve >= |curves|
    ensures FrameSpec(s, curves, dt, g, norm).outcome == Fault ==> FrameSpec(s, curves, dt, g, norm).state == s
  {
    AcquireSound(s, curves, norm);
  }

  /**
   * A frame that does not fail leaves the ball anchored to the same curves,
   * so the next frame on them cannot fail either.
   */
  lemma FrameAnchors(s: BallState, curves: seq<Curve>, dt: real, g: real, norm: Vec -> real)
    requires AllWellFormed(curves) && IsNorm(norm) && Valid(s)
    requires FrameSpec(s, curves, dt, g, norm).outcome != Fault
    ensures Anchored(FrameSpec(s, curves, dt, g, norm).state, curves)
  {
    AcquireSound(s, curves, norm);
    MoveKeepsBinding(Acquire(s, curves, norm).value, dt, g, norm);
  }

  /** Moving keeps the ball's binding (freefall flag and checkpoint) and its validity. */
  lemma MoveKeepsBinding(a: BallState, dt: real, g: real, norm: Vec -> real)
    requires IsNorm(norm) && Valid(a)
    ensures var m := MoveSpec(a, dt, g, norm);
            Valid(m) && m.freefall == a.freefall && m.checkpoint == a.checkpoint && m.radius == a.radius
  {
    if !a.freefall {
      MoveOnTrack(a, dt, g, norm);
      var u := MoveSpec(a, dt, g, norm).tangent.value;
      UnitNonZero(u);
    }
  }

  /**
   * main.py:206-211: a frame ends the run exactly when the moved ball is
   * out of the window, and an ended run leaves the ball at the origin at
   * rest; a run that goes on leaves it touching the window.
   */
  lemma FrameEnds(s: BallState, curves: seq<Curve>, dt: real, g: real, norm: Vec -> real)
    requires AllWellFormed(curves) && IsNorm(norm) && Valid(s)
    requires Acquire(s, curves, norm).Some?
    ensures var st, m := FrameSpec(s, curves, dt, g, norm), MoveSpec(Acquire(s, curves, norm).value, dt, g, norm);
            (st.outcome == Ended <==> OutOfBounds(m)) &&
            (st.outcome == Ended ==> st.state == m.(pos := Zero, vel := Zero)) &&
            (st.outcome == Running ==> st.state == m && !OutOfBounds(st.state))
  {
    AcquireSound(s, curves, norm);
  }

  /**
   * main.py:158-173: when some edge of the checkpoint's window passes, the
   * ball stays bound to the same curve, on the passing edge nearest the
   * old checkpoint.
   */
  lemma WindowHitKeepsCurve(s: BallState, curves: seq<Curve>, dt: real, g: real, norm: Vec -> real)
    requires AllWellFormed(curves) && IsNorm(norm) && Valid(s) && !s.freefall
    requires s.checkpoint.value.curve < |curves|
    requires NearestPassing(Mask(s.pos, s.radius, curves[s.checkpoint.value.curve]), s.checkpoint.value.seg).Some?
    ensures var st, cp := FrameSpec(s, curves, dt, g, norm), s.checkpoint.value;
            !st.state.freefall &&
            st.state.checkpoint ==
              Some(Checkpoint(cp.curve, NearestPassing(Mask(s.pos, s.radius, curves[cp.curve]), cp.seg).value))
  {
    var a := Acquire(s, curves, norm).value;
    MoveKeepsBinding(a, dt, g, norm);
  }

  /**
   * main.py:174-177: when no edge of the window passes, the global search
   * runs in the same frame, and the ball ends the frame bound exactly where
   * the global search binds it; when that search finds nothing too, the
   * ball falls freely with its old checkpoint and tangent.
   */
  lemma WindowMissSearchesGlobally(s: BallState, curves: seq<Curve>, dt: real, g: real, norm: Vec -> real)
    requires AllWellFormed(curves) && IsNorm(norm) && Valid(s) && !s.freefall
    requires s.checkpoint.value.curve < |curves|
    requires NearestPassing(Mask(s.pos, s.radius, curves[s.checkpoint.value.curve]), s.checkpoint.value.seg).None?
    ensures var st, hit := FrameSpec(s, curves, dt, g, norm), GlobalPick(Masks(s.pos, s.radius, curves), 0);
            (st.state.freefall <==> hit.None?) &&
            (hit.Some? ==> st.state.checkpoint == hit) &&
            (hit.None? ==> st.state.checkpoint == s.checkpoint && st.state.tangent == s.tangent)
  {
    var a := Acquire(s, curves, norm).value;
    MoveKeepsBinding(a, dt, g, norm);
  }

  /** The frames of one run (`run_sim`'s `while run` loop), one per clock tick in `dts`. */
  function RunSpec(s: BallState, curves: seq<Curve>, dts: seq<real>, g: real, norm: Vec -> real): Step
    requires AllWellFormed(curves) && IsNorm(norm) && Valid(s)
    decreases |dts|
  {
    if |dts| == 0 then Step(Running, s)
    else
      var st := FrameSpec(s, curves, dts[0], g, norm);
      if st.outcome != Running then st
      else
        FrameAnchors(s, curves, dts[0], g, norm);
        RunSpec(st.state, curves, dts[1..], g, norm)
  }

  /**
   * A run that starts anchored to its curves (in particular, a ball in
   * freefall) never raises `IndexError`, and when it ends by leaving the
   * window the ball is at the origin at rest.
   */
  lemma {:induction false} RunNeverFaults(s: BallState, curves: seq<Curve>, dts: seq<real>, g: real, norm: Vec -> real)
    requires AllWellFormed(curves) && IsNorm(norm) && Anchored(s, curves)
    ensures RunSpec(s, curves, dts, g, norm).outcome != Fault
    ensures RunSpec(s, curves, dts, g, norm).outcome == Ended ==>
              RunSpec(s, curves, dts, g, norm).state.pos == Zero && RunSpec(s, curves, dts, g, norm).state.vel == Zero
    decreases |dts|
  {
    if |dts| > 0 {
      FrameFaultIff(s, curves, dts[0], g, norm);
      var st := FrameSpec(s, curves, dts[0], g, norm);
      if st.outcome == Running {
        FrameAnchors(s, curves, dts[0], g, norm);
        RunNeverFaults(st.state, curves, dts[1..], g, norm);
      } else if st.outcome == Ended {
        AcquireSound(s, curves, norm);
        FrameEnds(s, curves, dts[0], g, norm);
      }
    }
  }

  /** Every state a run leaves the ball in is valid. */
  lemma {:induction false} RunSpecValid(s: BallState, curves: seq<Curve>, dts: seq<real>, g: real, norm: Vec -> real)
    requires AllWellFormed(curves) && IsNorm(norm) && Valid(s)
    ensures Valid(RunSpec(s, curves, dts, g, norm).state)
    decreases |dts|
  {
    if |dts| > 0 {
      var st := FrameSpec(s, curves, dts[0], g, norm);
      if st.outcome == Running {
        FrameAnchors(s, curves, dts[0], g, norm);
        RunSpecValid(st.state, curves, dts[1..], g, norm);
      } else if st.outcome == Ended {
        AcquireSound(s, curves, norm);
        MoveKeepsBinding(Acquire(s, curves, norm).value, dts[0], g, norm);
      }
    }
  }

  /** A checkpoint left over from an earlier run, on a curve that was since erased, makes the next frame fail. */
  lemma StaleCheckpointFaults(s: BallState, dt: real, g: real, norm: Vec -> real)
    requires IsNorm(norm) && Valid(s) && !s.freefall
    ensures FrameSpec(s, [], dt, g, norm) == Step(Fault, s)
  {
    FrameFaultIff(s, [], dt, g, norm);
  }

  /** The ball of main.py:28-60. */
  class Ball {
    var radius: real
    var x: real
    var y: real
    var xvel: real
    var yvel: real
    var color: Color
    var freefall: bool
    var checkpoint: Option<Checkpoint>
    var tangent: Option<Vec>
    var onTop: Option<bool>

    function State(): BallState
      reads this
    {
      BallState(radius, Vec(x, y), Vec(xvel, yvel), color, freefall, checkpoint, tangent, onTop)
    }

    /** main.py:29-37: a new ball starts in freefall with no contact recorded. */
    constructor (radius: real, pos: Vec, vel: Vec, color: Color)
      ensures State() == BallState(radius, pos, vel, color, true, None, None, None)
      ensures Valid(State())
    {
      this.radius := radius;
      x, y := pos.x, pos.y;
      xvel, yvel := vel.x, vel.y;
      this.color := color;
      freefall := true;
      checkpoint := None;
      tangent := None;
      onTop := None;
    }

    /** main.py:39-60. */
    method Move(dt: real, g: real, norm: Vec -> real)
      requires IsNorm(norm) && Valid(State())
      modifies this
      ensures State() == MoveSpec(old(State()), dt, g, norm)
    {
      ghost var s := State();
      if freefall {
        yvel := yvel + g * dt;
      } else {
        var t := tangent.value;
        NormZero(norm, t);
        var u := Scale(t, 1.0 / norm(t));
        tangent := Some(u);
        var acc := Scale(u, Dot(u, Gravity(g)));
        var trackVel := Scale(u, Dot(u, Vec(xvel, yvel)));
        trackVel := Add(trackVel, Scale(acc, dt));
        xvel, yvel := trackVel.x, trackVel.y;
      }
      var pos := Add(Vec(x, y), Scale(Vec(xvel, yvel), dt));
      x, y := pos.x, pos.y;
      assert State() == s.(vel := Vec(xvel, yvel), pos := pos, tangent := tangent);
    }

    /** main.py:208-211: the ball is put back at the origin, at rest. */
    method Stop()
      modifies this
      ensures State() == old(State()).(pos := Zero, vel := Zero)
    {
      x, y, xvel, yvel := 0.0, 0.0, 0.0, 0.0;
    }

    /** main.py:162-173 and 189-200 once the edge `cp` is chosen. */
    method BindTo(curves: seq<Curve>, cp: Checkpoint, norm: Vec -> real)
      requires AllWellFormed(curves) && IsNorm(norm)
      requires cp.curve < |curves| && cp.seg < |curves[cp.curve].edges|
      modifies this
      ensures State() == Bind(old(State()), curves, cp, norm)
    {
      var curve := curves[cp.curve];
      var center := Vec(x, y);
      var p, v := curve.vertices[cp.seg], curve.edges[cp.seg];
      var th := curve.thickness as real;
      checkpoint := Some(cp);
      tangent := Some(v);
      if Perp(center, p, v).y >= 0.0 {
        onTop := Some(true);
      } else {
        onTop := Some(false);
      }
      if Penetrates(center, radius, th, p, v) {
        var pushed := Depenetrated(norm, center, radius, th, p, v);
        x, y := pushed.x, pushed.y;
      }
    }
  }

  /** main.py:145-175: re-acquire around the checkpoint; `fault` is the `IndexError` on a missing curve. */
  method Reacquire(ball: Ball, curves: seq<Curve>, norm: Vec -> real) returns (fault: bool)
    requires AllWellFormed(curves) && IsNorm(norm) && Valid(ball.State()) && !ball.freefall
    modifies ball
    ensures fault <==> Windowed(old(ball.State()), curves, norm).None?
    ensures fault ==> ball.State() == old(ball.State())
    ensures !fault ==> ball.State() == Windowed(old(ball.State()), curves, norm).value
  {
    var center := Vec(ball.x, ball.y);
    var cp := ball.checkpoint.value;
    if cp.curve >= |curves| {
      return true;
    }
    var pick := NearestPassing(Mask(center, ball.radius, curves[cp.curve]), cp.seg);
    if pick.Some? {
      ball.BindTo(curves, Checkpoint(cp.curve, pick.value), norm);
    } else {
      ball.freefall := true;
    }
    return false;
  }

  /** main.py:177-202: bind a ball in freefall to the first passing edge of the first curve that has one. */
  method AcquireGlobally(ball: Ball, curves: seq<Curve>, norm: Vec -> real)
    requires AllWellFormed(curves) && IsNorm(norm) && ball.freefall
    modifies ball
    ensures ball.State() == Global(old(ball.State()), curves, norm)
  {
    var center := Vec(ball.x, ball.y);
    var hit := GlobalSearch(center, ball.radius, curves);
    if hit.Some? {
      ball.freefall := false;
      ball.BindTo(curves, hit.value, norm);
    }
  }

  /** One pass of the physics in `run_sim`'s loop (main.py:141-211), with `dt` from the clock. */
  method Frame(ball: Ball, curves: seq<Curve>, dt: real, g: real, norm: Vec -> real) returns (outcome: Outcome)
    requires AllWellFormed(curves) && IsNorm(norm) && Valid(ball.State())
    modifies ball
    ensures Step(outcome, ball.State()) == FrameSpec(old(ball.State()), curves, dt, g, norm)
  {
    if !ball.freefall {
      var fault := Reacquire(ball, curves, norm);
      if fault {
        return Fault;
      }
    }
    if ball.freefall {
      AcquireGlobally(ball, curves, norm);
    }
    assert Acquire(old(ball.State()), curves, norm) == Some(ball.State());
    ghost var goal := FrameSpec(old(ball.State()), curves, dt, g, norm);
    ball.Move(dt, g, norm);
    ghost var moved := ball.State();
    if ball.x + ball.radius <= 0.0 || ball.x - ball.radius >= WIDTH ||
       ball.y + ball.radius <= 0.0 || ball.y - ball.radius >= HEIGHT {
      assert OutOfBounds(moved);
      ball.Stop();
      return Ended;
    }
    assert goal == Step(Running, moved);
    return Running;
  }

  /**
   * `run_sim` (main.py:106-211) without drawing and events: prepare the
   * curves, then run one frame per clock tick in `dts` until the ball leaves
   * the window; running out of ticks stands for the user leaving the run.
   */
  method RunSim(ball: Ball, strokes: seq<Stroke>, dts: seq<real>, g: real, norm: Vec -> real) returns (outcome: Outcome)
    requires IsNorm(norm) && Valid(ball.State())
    modifies ball
    ensures Step(outcome, ball.State()) == RunSpec(old(ball.State()), Prepared(strokes), dts, g, norm)
  {
    var curves := PrepareCurves(strokes);
    ghost var goal := RunSpec(ball.State(), curves, dts, g, norm);
    outcome := Running;
    var i := 0;
    while i < |dts|
      invariant i <= |dts|
      invariant outcome == Running
      invariant Valid(ball.State())
      invariant RunSpec(ball.State(), curves, dts[i..], g, norm) == goal
      decreases |dts| - i
    {
      ghost var before := ball.State();
      outcome := Frame(ball, curves, dts[i], g, norm);
      RunSpecStep(before, curves, dts[i..], g, norm);
      if outcome != Running {
        assert Step(outcome, ball.State()) == goal;
        return;
      }
      assert dts[i..][1..] == dts[i + 1..];
      i := i + 1;
    }
    assert dts[i..] == [];
    assert Step(outcome, ball.State()) == goal;
  }

  lemma RunSpecStep(s: BallState, curves: seq<Curve>, dts: seq<real>, g: real, norm: Vec -> real)
    requires AllWellFormed(curves) && IsNorm(norm) && Valid(s) && |dts| > 0
    ensures var st := FrameSpec(s, curves, dts[0], g, norm);
            st.outcome == Running ==> Valid(st.state) && RunSpec(s, curves, dts, g, norm) == RunSpec(st.state, curves, dts[1..], g, norm)
    ensures var st := FrameSpec(s, curves, dts[0], g, norm);
            st.outcome != Running ==> RunSpec(s, curves, dts, g, norm) == st
  {
    if FrameSpec(s, curves, dts[0], g, norm).outcome == Running {
      FrameAnchors(s, curves, dts[0], g, norm);
    }
  }
}
