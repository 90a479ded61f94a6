/**
 * The contact test between the ball and one edge of a curve
 * (main.py:152-156 and 180-184) and the push that lifts a ball that sinks
 * into the edge (main.py:171-173 and 198-200).
 *
 * For a ball centred at `c`, an edge starting at vertex `p` with edge vector
 * `v`, `Param` is the position of the centre's projection along the edge
 * (0 at `p`, 1 at `p + v`) and `Perp` is the vector from the projection's
 * foot to the centre.
 */
module Contact {
  import opened RealArith
  import opened Vectors
  import opened Options

  /** `einsum(vecs, projs) / einsum(vecs, vecs)`: the projection parameter (also `on_line`). */
  function Param(c: Vec, p: Vec, v: Vec): real
    requires v != Zero
  {
    DotSelf(v);
    Dot(Sub(c, p), v) / Dot(v, v)
  }

  /** `projs - vecs * scalars`: the perpendicular from the edge's line to the centre. */
  function Perp(c: Vec, p: Vec, v: Vec): Vec
    requires v != Zero
  {
    Sub(Sub(c, p), Scale(v, Param(c, p, v)))
  }

  /** The foot of the perpendicular, `center - projection` in the source. */
  function Foot(c: Vec, p: Vec, v: Vec): Vec
    requires v != Zero
  {
    Sub(c, Perp(c, p, v))
  }

  /** How far from the edge's centre line the ball may be and still touch it: `radius + thickness/2`. */
  function Reach(r: real, th: real): real { r + th / 2.0 }

  /**
   * The mask of main.py:156 and 184 for one edge: the projection falls on the
   * edge and the centre lies within `Reach` of its line. Distances are
   * compared through their squares; `PassesIffNorm` ties this to the source's
   * comparison of `np.linalg.norm(projection)`. An edge of length zero never
   * passes (NumPy's 0/0 is NaN and every comparison with NaN is false).
   * An edge passes exactly when the centre projects onto it and the ball
   * either sinks into it or exactly grazes it.
   */
  predicate Passes(c: Vec, r: real, th: real, p: Vec, v: Vec): (b: bool)
    ensures b <==> v != Zero && 0.0 <= Param(c, p, v) <= 1.0 &&
                   (Penetrates(c, r, th, p, v) ||
                    (Reach(r, th) >= 0.0 && Dot(Perp(c, p, v), Perp(c, p, v)) == Sq(Reach(r, th))))
  {
    v != Zero && 0.0 <= Param(c, p, v) <= 1.0 &&
    Reach(r, th) >= 0.0 && Dot(Perp(c, p, v), Perp(c, p, v)) <= Sq(Reach(r, th))
  }

  /**
   * The test of main.py:171 and 198: the centre is strictly closer than
   * `Reach`, which only a positive reach allows.
   */
  predicate Penetrates(c: Vec, r: real, th: real, p: Vec, v: Vec): (b: bool)
    requires v != Zero
    ensures b ==> Reach(r, th) > 0.0
  {
    DotSelf(Perp(c, p, v));
    SqZero();
    Reach(r, th) >= 0.0 && Dot(Perp(c, p, v), Perp(c, p, v)) < Sq(Reach(r, th))
  }

  /**
   * `projection[1] >= 0` (main.py:166 and 193): the side of the edge the ball
   * is on, that is, whether the centre lies at or beyond the foot of the
   * perpendicular in `y`.
   */
  predicate OnTop(c: Vec, p: Vec, v: Vec): (b: bool)
    requires v != Zero
    ensures b <==> c.y >= Foot(c, p, v).y
  {
    Perp(c, p, v).y >= 0.0
  }

  /** The perpendicular is orthogonal to the edge, and the projection plus the perpendicular is `c - p`. */
  lemma PerpOrthogonal(c: Vec, p: Vec, v: Vec)
    requires v != Zero
    ensures Dot(Perp(c, p, v), v) == 0.0
    ensures Add(Scale(v, Param(c, p, v)), Perp(c, p, v)) == Sub(c, p)
  {
    var t := Param(c, p, v);
    DotSelf(v);
    DotSubLeft(Sub(c, p), Scale(v, t), v);
    DotScaleLeft(v, v, t);
    calc {
      Dot(Perp(c, p, v), v);
      == Dot(Sub(c, p), v) - Dot(Scale(v, t), v);
      == Dot(Sub(c, p), v) - Mul(t, Dot(v, v));
      == Dot(Sub(c, p), v) - (Dot(Sub(c, p), v) / Dot(v, v)) * Dot(v, v);
      == 0.0;
    }
  }

  /**
   * The source's test with a norm function: `norm(projection) <= reach` and
   * `0 <= on_line <= 1` hold exactly when `Passes` does; `norm(projection) < reach`
   * exactly when `Penetrates` does.
   */
  lemma PassesIffNorm(norm: Vec -> real, c: Vec, r: real, th: real, p: Vec, v: Vec)
    requires IsNorm(norm) && v != Zero
    ensures Passes(c, r, th, p, v) <==>
              norm(Perp(c, p, v)) <= Reach(r, th) && 0.0 <= Param(c, p, v) <= 1.0
    ensures Penetrates(c, r, th, p, v) <==> norm(Perp(c, p, v)) < Reach(r, th)
  {
    NormZero(norm, Perp(c, p, v));
    SquareCompare(norm(Perp(c, p, v)), Reach(r, th));
  }

  /** A unit-free normal of `v` pointing to the `OnTop` side (`y >= 0`). */
  function UpNormal(v: Vec): (n: Vec)
    requires v != Zero
    ensures n != Zero && n.y >= 0.0 && Dot(n, v) == 0.0
  {
    if v.x >= 0.0 then Vec(-v.y, v.x) else Vec(v.y, -v.x)
  }

  /**
   * Depenetration as main.py:172-173 writes it: the centre is moved along the
   * perpendicular to distance `radius + thickness` from the edge's line.
   * When the centre lies on the line the perpendicular has norm zero and
   * the source divides by zero; the result is then `None` (a NaN position).
   */
  function DepenetratedAsWritten(norm: Vec -> real, c: Vec, r: real, th: real, p: Vec, v: Vec): (n: Option<Vec>)
    requires IsNorm(norm) && v != Zero
    ensures n.None? <==> Perp(c, p, v) == Zero
  {
    var q := Perp(c, p, v);
    NormZero(norm, q);
    if norm(q) == 0.0 then None
    else Some(Add(Foot(c, p, v), Scale(q, (r + th) / norm(q))))
  }

  /** The direction of the push: the perpendicular, or the `OnTop` normal when the centre is on the line. */
  function PushDirection(c: Vec, p: Vec, v: Vec): (d: Vec)
    requires v != Zero
    ensures d != Zero
  {
    var q := Perp(c, p, v);
    if q != Zero then q else UpNormal(v)
  }

  /**
   * Depenetration with the division by zero repaired: the centre moves to
   * distance `radius + thickness` from the edge's line, on the side
   * `OnTop` reports. Wherever the source's push is defined, this is the
   * source's push.
   */
  function Depenetrated(norm: Vec -> real, c: Vec, r: real, th: real, p: Vec, v: Vec): (c': Vec)
    requires IsNorm(norm) && v != Zero
    ensures Perp(c, p, v) != Zero ==> DepenetratedAsWritten(norm, c, r, th, p, v) == Some(c')
  {
    var d := PushDirection(c, p, v);
    NormZero(norm, d);
    Add(Foot(c, p, v), Scale(d, (r + th) / norm(d)))
  }

  /**
   * The centre (100, 100) lies on the line of the edge from (90, 100) with
   * vector (20, 0). For radius 20 and thickness 3 the edge passes and the
   * ball sinks into it, yet the source's push divides by zero.
   */
  lemma DepenetrationDividesByZero(norm: Vec -> real, c: Vec, r: real, th: real, p: Vec, v: Vec)
    requires IsNorm(norm)
    requires c == Vec(100.0, 100.0) && r == 20.0 && th == 3.0 && p == Vec(90.0, 100.0) && v == Vec(20.0, 0.0)
    ensures Passes(c, r, th, p, v) && Penetrates(c, r, th, p, v)
    ensures DepenetratedAsWritten(norm, c, r, th, p, v).None?
  {
    CentreOnEdge(c, r, th, p, v, 0.5);
  }

  /**
   * A centre that lies on the edge itself, at parameter `t`, gives a passing
   * edge that the ball sinks into whenever the reach is positive, and its
   * perpendicular is the zero vector.
   */
  lemma CentreOnEdge(c: Vec, r: real, th: real, p: Vec, v: Vec, t: real)
    requires v != Zero && 0.0 <= t <= 1.0 && Sub(c, p) == Scale(v, t) && Reach(r, th) > 0.0
    ensures Passes(c, r, th, p, v) && Penetrates(c, r, th, p, v)
    ensures Param(c, p, v) == t && Perp(c, p, v) == Zero
  {
    assert Sub(c, p) == Add(Scale(v, t), Zero);
    assert Dot(Zero, v) == 0.0;
    OffsetAcrossLine(c, p, v, t, Zero);
    OnLinePenetrates(c, r, th, p, v);
    OnLinePasses(c, r, th, p, v);
  }

  /** A centre on the edge's line sinks into the edge whenever the reach is positive. */
  lemma OnLinePenetrates(c: Vec, r: real, th: real, p: Vec, v: Vec)
    requires v != Zero && Perp(c, p, v) == Zero && Reach(r, th) > 0.0
    ensures Penetrates(c, r, th, p, v)
  {
    SqPos(Reach(r, th));
    assert Dot(Zero, Zero) == 0.0;
  }

  /** A centre on the edge's line that projects onto the edge passes whenever the reach is positive. */
  lemma OnLinePasses(c: Vec, r: real, th: real, p: Vec, v: Vec)
    requires v != Zero && Perp(c, p, v) == Zero && 0.0 <= Param(c, p, v) <= 1.0 && Reach(r, th) > 0.0
    ensures Passes(c, r, th, p, v)
  {
    SqPos(Reach(r, th));
    assert Dot(Zero, Zero) == 0.0;
  }

  lemma ScaleSign(y: real, k: real)
    requires k > 0.0
    ensures y * k >= 0.0 <==> y >= 0.0
  {
    if y > 0.0 {
      MulPos(y, k);
    } else if y < 0.0 {
      MulPos(-y, k);
    }
  }

  lemma DivCancel(t: real, d: real)
    requires d != 0.0
    ensures (t * d) / d == t
  {
  }

  /** A point `t` along the edge plus an offset `s` orthogonal to it projects back to `t`, with perpendicular `s`. */
  lemma OffsetAcrossLine(c: Vec, p: Vec, v: Vec, t: real, s: Vec)
    requires v != Zero && Dot(s, v) == 0.0 && Sub(c, p) == Add(Scale(v, t), s)
    ensures Param(c, p, v) == t && Perp(c, p, v) == s
  {
    DotAddLeft(Scale(v, t), s, v);
    DotScaleLeft(v, v, t);
    DotSelf(v);
    assert Dot(Sub(c, p), v) == t * Dot(v, v);
    DivCancel(t, Dot(v, v));
  }

  /**
   * After the push the centre projects onto the same point of the edge's
   * line, lies at distance `radius + thickness` from it, and stays on the
   * side `OnTop` reported before the push. A centre off the line moves
   * along its own perpendicular, away from the line, so it stays on its
   * side of the line whatever the edge's direction.
   */
  lemma DepenetratedGeometry(norm: Vec -> real, c: Vec, r: real, th: real, p: Vec, v: Vec)
    requires IsNorm(norm) && v != Zero
    ensures var c' := Depenetrated(norm, c, r, th, p, v);
            Param(c', p, v) == Param(c, p, v) &&
            Dot(Perp(c', p, v), Perp(c', p, v)) == Sq(r + th) &&
            (r + th > 0.0 ==> (OnTop(c', p, v) <==> OnTop(c, p, v))) &&
            (Perp(c, p, v) != Zero ==>
               norm(Perp(c, p, v)) > 0.0 &&
               Perp(c', p, v) == Scale(Perp(c, p, v), (r + th) / norm(Perp(c, p, v))))
  {
    var c' := Depenetrated(norm, c, r, th, p, v);
    var t := Param(c, p, v);
    var d := PushDirection(c, p, v);
    ScaleToLength(norm, d, r + th);
    var k := (r + th) / norm(d);
    var s := Scale(d, k);
    PerpOrthogonal(c, p, v);
    assert Dot(s, v) == 0.0 by {
      assert Dot(d, v) == 0.0;
      DotScaleLeft(d, v, k);
    }
    assert Sub(c', p) == Add(Scale(v, t), s);
    OffsetAcrossLine(c', p, v, t, s);
    if Perp(c, p, v) != Zero {
      assert d == Perp(c, p, v);
    }
    if r + th > 0.0 {
      var q := Perp(c, p, v);
      if q == Zero {
        SqZero();
      }
      ScaleSign(d.y, k);
    }
  }

  /**
   * Because the push uses the full thickness while contact allows half of
   * it, a pushed ball no longer touches the edge it was pushed off (for a
   * positive thickness).
   */
  lemma DepenetrationOvershoots(norm: Vec -> real, c: Vec, r: real, th: real, p: Vec, v: Vec)
    requires IsNorm(norm) && v != Zero && th > 0.0
    ensures !Passes(Depenetrated(norm, c, r, th, p, v), r, th, p, v)
  {
    DepenetratedGeometry(norm, c, r, th, p, v);
    if Reach(r, th) >= 0.0 {
      SqLess(Reach(r, th), r + th);
    }
  }
}
