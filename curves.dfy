/**
 * Curve preparation at the start of a simulation run (main.py:112-119):
 * strokes drawn in the editor become polylines with their edge vectors.
 */
module Curves {
  import opened Vectors

  datatype Color = Color(r: int, g: int, b: int)

  /** Integer mouse position, as `pygame.mouse.get_pos()` returns it. */
  datatype Point = Point(x: int, y: int)

  /** The first entry of a stroke list: `[size, color]`. */
  datatype Header = Header(size: int, color: Color)

  /** A stroke list `[header, p1, p2, ...]`. */
  datatype Stroke = Stroke(header: Header, points: seq<Point>)

  /** Python's `len(sublist)`: the header counts as one entry. */
  function Length(s: Stroke): nat { 1 + |s.points| }

  function ToVec(p: Point): Vec { Vec(p.x as real, p.y as real) }

  function ToVecs(ps: seq<Point>): (vs: seq<Vec>)
    ensures |vs| == |ps|
    ensures forall i :: 0 <= i < |ps| ==> vs[i] == ToVec(ps[i])
  {
    seq(|ps|, i requires 0 <= i < |ps| => ToVec(ps[i]))
  }

  /** A prepared curve: the stroke size as thickness, the cleaned vertices and the edge vectors. */
  datatype Curve = Curve(thickness: int, vertices: seq<Vec>, edges: seq<Vec>)

  /** Edge `i` joins vertex `i` to vertex `i + 1`; no edge has length zero. */
  ghost predicate WellFormed(c: Curve) {
    |c.vertices| >= 1 && |c.edges| == |c.vertices| - 1 &&
    forall i :: 0 <= i < |c.edges| ==> c.edges[i] == Sub(c.vertices[i + 1], c.vertices[i]) && c.edges[i] != Zero
  }

  ghost predicate NoAdjacentDuplicates(vs: seq<Vec>) {
    forall i :: 0 <= i < |vs| - 1 ==> vs[i] != vs[i + 1]
  }

  /** Boolean-mask indexing, `s[m]` in NumPy. */
  function Select<T>(s: seq<T>, m: seq<bool>): (r: seq<T>)
    requires |s| == |m|
    ensures |r| <= |s|
  {
    if |s| == 0 then [] else (if m[0] then [s[0]] else []) + Select(s[1..], m[1..])
  }

  /** `np.append(np.any(np.diff(pts, axis=0) != [0, 0], axis=1), True)`. */
  function KeepMask(pts: seq<Vec>): (m: seq<bool>)
    requires |pts| >= 1
    ensures |m| == |pts|
  {
    seq(|pts|, i requires 0 <= i < |pts| => i == |pts| - 1 || pts[i] != pts[i + 1])
  }

  /** `a` is `b` with some entries left out, the rest kept in order. */
  predicate Subsequence<T(==)>(a: seq<T>, b: seq<T>)
    decreases |b|
  {
    if |a| == 0 then true
    else if |b| == 0 then false
    else (a[0] == b[0] && Subsequence(a[1..], b[1..])) || Subsequence(a, b[1..])
  }

  /** How many neighbouring pairs of `pts` differ. */
  function Changes(pts: seq<Vec>): nat
    decreases |pts|
  {
    if |pts| < 2 then 0 else (if pts[0] != pts[1] then 1 else 0) + Changes(pts[1..])
  }

  /**
   * Reference definition of duplicate collapsing: of every run of equal
   * consecutive points exactly one copy survives.
   */
  function Dedup(pts: seq<Vec>): (r: seq<Vec>)
    requires |pts| >= 1
    ensures 1 <= |r| <= |pts|
    ensures r[0] == pts[0] && r[|r| - 1] == pts[|pts| - 1]
    ensures NoAdjacentDuplicates(r)
    ensures forall v :: v in r <==> v in pts
  {
    if |pts| == 1 then pts
    else if pts[0] == pts[1] then Dedup(pts[1..])
    else [pts[0]] + Dedup(pts[1..])
  }

  /**
   * The collapse only leaves points out, keeping the others in order, and
   * keeps one point more than there are changes between neighbours.
   */
  lemma {:induction false} DedupSubsequence(pts: seq<Vec>)
    requires |pts| >= 1
    ensures Subsequence(Dedup(pts), pts)
    ensures |Dedup(pts)| == 1 + Changes(pts)
    decreases |pts|
  {
    if |pts| == 1 {
      assert Subsequence(pts[1..], pts[1..]);
    } else {
      DedupSubsequence(pts[1..]);
      if pts[0] != pts[1] {
        assert Dedup(pts)[1..] == Dedup(pts[1..]);
      }
    }
  }

  lemma KeepMaskTail(pts: seq<Vec>)
    requires |pts| >= 2
    ensures KeepMask(pts)[1..] == KeepMask(pts[1..])
    ensures KeepMask(pts)[0] == (pts[0] != pts[1])
  {
  }

  /** The source's masked selection collapses runs exactly as `Dedup` does. */
  lemma {:induction false} CleanupIsDedup(pts: seq<Vec>)
    requires |pts| >= 1
    ensures Select(pts, KeepMask(pts)) == Dedup(pts)
  {
    if |pts| >= 2 {
      KeepMaskTail(pts);
      CleanupIsDedup(pts[1..]);
    }
  }

  /**
   * main.py:117: keep point `i` when it differs from point `i + 1`, and
   * always keep the last point.
   */
  function Cleanup(pts: seq<Vec>): (r: seq<Vec>)
    requires |pts| >= 1
    ensures r == Dedup(pts)
    ensures 1 <= |r| <= |pts|
    ensures r[0] == pts[0] && r[|r| - 1] == pts[|pts| - 1]
    ensures NoAdjacentDuplicates(r)
    ensures forall v :: v in r <==> v in pts
  {
    CleanupIsDedup(pts);
    Select(pts, KeepMask(pts))
  }

  /** A sequence without adjacent duplicates is left as it is. */
  lemma {:induction false} DedupKeepsClean(vs: seq<Vec>)
    requires |vs| >= 1 && NoAdjacentDuplicates(vs)
    ensures Dedup(vs) == vs
  {
    if |vs| >= 2 {
      assert vs[0] != vs[1];
      var tail := vs[1..];
      assert NoAdjacentDuplicates(tail) by {
        forall i | 0 <= i < |tail| - 1
          ensures tail[i] != tail[i + 1]
        {
          assert tail[i] == vs[i + 1] && tail[i + 1] == vs[i + 2];
        }
      }
      DedupKeepsClean(tail);
      assert vs == [vs[0]] + tail;
    }
  }

  lemma CleanupIdempotent(pts: seq<Vec>)
    requires |pts| >= 1
    ensures Cleanup(Cleanup(pts)) == Cleanup(pts)
  {
    DedupKeepsClean(Cleanup(pts));
  }

  /** `np.diff(vs, axis=0)`. */
  function Edges(vs: seq<Vec>): (es: seq<Vec>)
    requires |vs| >= 1
    ensures |es| == |vs| - 1
    ensures forall i :: 0 <= i < |es| ==> es[i] == Sub(vs[i + 1], vs[i])
  {
    seq(|vs| - 1, i requires 0 <= i < |vs| - 1 => Sub(vs[i + 1], vs[i]))
  }

  /** Running sums: the vertices reached from `start` by walking the edges `es`. */
  function Walk(start: Vec, es: seq<Vec>): (vs: seq<Vec>)
    ensures |vs| == |es| + 1 && vs[0] == start
    decreases |es|
  {
    if |es| == 0 then [start] else [start] + Walk(Add(start, es[0]), es[1..])
  }

  /** Walking the edges from the first vertex gives back every vertex: `Edges` loses nothing. */
  lemma {:induction false} WalkEdges(vs: seq<Vec>)
    requires |vs| >= 1
    ensures Walk(vs[0], Edges(vs)) == vs
  {
    if |vs| >= 2 {
      assert Add(vs[0], Edges(vs)[0]) == vs[1];
      assert Edges(vs)[1..] == Edges(vs[1..]);
      WalkEdges(vs[1..]);
    }
  }

  /** main.py:115-119 for one stroke: thickness, cleaned vertices, edge vectors. */
  function PrepareCurve(s: Stroke): (c: Curve)
    requires Length(s) >= 3
    ensures WellFormed(c)
    ensures c.thickness == s.header.size
    ensures c.vertices[0] == ToVec(s.points[0]) && c.vertices[|c.vertices| - 1] == ToVec(s.points[|s.points| - 1])
    ensures c.vertices == Cleanup(ToVecs(s.points)) && c.edges == Edges(c.vertices)
  {
    var vs := Cleanup(ToVecs(s.points));
    Curve(s.header.size, vs, Edges(vs))
  }

  /** main.py:112: `list(filter(lambda sublist: len(sublist) >= 3, points))`. */
  function Drawable(strokes: seq<Stroke>): (r: seq<Stroke>)
    ensures forall s :: s in r <==> s in strokes && Length(s) >= 3
    ensures forall i :: 0 <= i < |r| ==> Length(r[i]) >= 3
    ensures Subsequence(r, strokes)
  {
    if |strokes| == 0 then []
    else if Length(strokes[0]) >= 3 then
      var rest := Drawable(strokes[1..]);
      assert ([strokes[0]] + rest)[1..] == rest;
      [strokes[0]] + rest
    else Drawable(strokes[1..])
  }

  /**
   * The filter keeps the drawing order: filtering two drawings joined is
   * filtering each and joining the results (with `DrawableSingle`, this
   * pins `Drawable` down as the order-preserving filter).
   */
  lemma {:induction false} DrawableAppend(a: seq<Stroke>, b: seq<Stroke>)
    ensures Drawable(a + b) == Drawable(a) + Drawable(b)
    decreases |a|
  {
    if |a| > 0 {
      assert (a + b)[1..] == a[1..] + b;
      DrawableAppend(a[1..], b);
    } else {
      assert a + b == b;
    }
  }

  lemma DrawableSingle(s: Stroke)
    ensures Drawable([s]) == if Length(s) >= 3 then [s] else []
  {
    assert [s][1..] == [];
  }

  ghost predicate AllWellFormed(curves: seq<Curve>) {
    forall i :: 0 <= i < |curves| ==> WellFormed(curves[i])
  }

  /** The curves the physics sees, one per stroke with at least two points, in drawing order. */
  function Prepared(strokes: seq<Stroke>): (curves: seq<Curve>)
    ensures |curves| == |Drawable(strokes)| && AllWellFormed(curves)
    ensures forall i :: 0 <= i < |curves| ==> curves[i] == PrepareCurve(Drawable(strokes)[i])
  {
    var kept := Drawable(strokes);
    seq(|kept|, i requires 0 <= i < |kept| => PrepareCurve(kept[i]))
  }

  lemma TakeSnoc<T>(s: seq<T>, i: nat)
    requires i < |s|
    ensures s[..i + 1] == s[..i] + [s[i]]
  {
  }

  /** main.py:112-119: the loop that builds `thicknesses`, `new_points` and `vectors`. */
  method PrepareCurves(strokes: seq<Stroke>) returns (curves: seq<Curve>)
    ensures curves == Prepared(strokes)
  {
    var kept := Drawable(strokes);
    ghost var target := Prepared(strokes);
    curves := [];
    for i := 0 to |kept|
      invariant curves == target[..i]
    {
      var curve := PrepareCurve(kept[i]);
      assert curve == target[i];
      TakeSnoc(target, i);
      curves := curves + [curve];
    }
    assert target[..|kept|] == target;
  }
}
