/**
 * The integrator of `Ball.move` (main.py:39-60) on plain values: gravity in
 * freefall, projection onto the track's tangent when bound to an edge.
 */
module Motion {
  import opened RealArith
  import opened Vectors

  /** Gravity as a vector; screen `y` grows downwards, so `g > 0` pulls down the screen. */
  function Gravity(g: real): Vec { Vec(0.0, g) }

  /**
   * Reference definition of the velocity on a track with tangent `t`: the
   * component of `vel` along `t`, plus the component of gravity along `t`
   * acting for `dt`, without any square root.
   */
  function TrackVelocity(t: Vec, vel: Vec, g: real, dt: real): Vec
    requires t != Zero
  {
    Along(t, Dot(t, vel) + Mul(Dot(t, Gravity(g)), dt))
  }

  /** The multiple of a non-zero `t` whose dot product with `t` is `x`. */
  function Along(t: Vec, x: real): Vec
    requires t != Zero
  {
    DotSelf(t);
    Scale(t, x / Dot(t, t))
  }

  lemma CrossScaleSelf(t: Vec, k: real)
    ensures Cross(t, Scale(t, k)) == 0.0
  {
    calc {
      Cross(t, Scale(t, k));
      == t.x * (t.y * k) - t.y * (t.x * k);
      == 0.0;
    }
  }

  lemma ScaleScale(a: Vec, j: real, k: real)
    ensures Scale(Scale(a, j), k) == Scale(a, Mul(j, k))
  {
    assert (a.x * j) * k == a.x * (j * k);
    assert (a.y * j) * k == a.y * (j * k);
  }

  lemma ScaleSum(a: Vec, j: real, k: real, dt: real)
    ensures Add(Scale(a, j), Scale(Scale(a, k), dt)) == Scale(a, j + Mul(k, dt))
  {
    assert a.x * j + (a.x * k) * dt == a.x * (j + k * dt);
    assert a.y * j + (a.y * k) * dt == a.y * (j + k * dt);
  }

  /** A vector parallel to a non-zero `t` is `t` scaled by its projection coefficient. */
  lemma ParallelIsScaled(t: Vec, w: Vec)
    requires t != Zero && Cross(t, w) == 0.0
    ensures w == Along(t, Dot(t, w))
  {
    DotSelf(t);
    var d := Dot(t, t);
    var x := Dot(t, w);
    calc {
      w.x * d;
      == w.x * (t.x * t.x + t.y * t.y);
      == t.x * (t.x * w.x + t.y * w.y) - t.y * (t.x * w.y - t.y * w.x);
      == t.x * x - t.y * Cross(t, w);
      == t.x * x;
    }
    calc {
      w.y * d;
      == w.y * (t.x * t.x + t.y * t.y);
      == t.y * (t.x * w.x + t.y * w.y) + t.x * (t.x * w.y - t.y * w.x);
      == t.y * x + t.x * Cross(t, w);
      == t.y * x;
    }
    assert w.x == (t.x * x) / d;
    assert w.y == (t.y * x) / d;
    assert (t.x * x) / d == t.x * (x / d);
    assert (t.y * x) / d == t.y * (x / d);
  }

  /**
   * `TrackVelocity` is the one velocity parallel to the track whose
   * projection on `t` is the old projection plus gravity's, times `dt`.
   */
  lemma TrackVelocityCharacterized(t: Vec, vel: Vec, g: real, dt: real, w: Vec)
    requires t != Zero
    ensures w == TrackVelocity(t, vel, g, dt) <==>
              Cross(t, w) == 0.0 && Dot(t, w) == Dot(t, vel) + Mul(Dot(t, Gravity(g)), dt)
  {
    DotSelf(t);
    var x := Dot(t, vel) + Mul(Dot(t, Gravity(g)), dt);
    var k := x / Dot(t, t);
    CrossScaleSelf(t, k);
    DotScaleLeft(t, t, k);
    DotComm(t, Scale(t, k));
    assert Mul(k, Dot(t, t)) == x;
    if Cross(t, w) == 0.0 && Dot(t, w) == x {
      ParallelIsScaled(t, w);
    }
  }
}
