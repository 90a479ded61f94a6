/**
 * Which edge the ball rests on: the windowed re-acquisition around the
 * previous checkpoint (main.py:145-175) and the global acquisition while in
 * freefall (main.py:177-202).
 *
 * As in the source, the contact test is first evaluated for every edge of a
 * curve into a boolean mask (`Mask`); the selection functions then work on
 * the mask alone.
 */
module Search {
  import opened RealArith
  import opened Vectors
  import opened Options
  import opened Curves
  import opened Contact

  /** `ball.checkpoint`: a curve index and an edge index within that curve. */
  datatype Checkpoint = Checkpoint(curve: nat, seg: nat)

  /** Edge `j` of `curve` passes the contact test for a ball of radius `r` at `c`. */
  predicate EdgePasses(c: Vec, r: real, curve: Curve, j: nat)
    requires WellFormed(curve) && j < |curve.edges|
  {
    Passes(c, r, curve.thickness as real, curve.vertices[j], curve.edges[j])
  }

  /** The `mask` array of main.py:156 and 184, one entry per edge. */
  function Mask(c: Vec, r: real, curve: Curve): (m: seq<bool>)
    requires WellFormed(curve)
    ensures |m| == |curve.edges|
    ensures forall j: nat :: j < |m| ==> (m[j] <==> EdgePasses(c, r, curve, j))
  {
    seq(|curve.edges|, j requires 0 <= j < |curve.edges| => EdgePasses(c, r, curve, j))
  }

  /** The masks of all curves, in curve order. */
  function Masks(c: Vec, r: real, curves: seq<Curve>): (ms: seq<seq<bool>>)
    requires AllWellFormed(curves)
    ensures |ms| == |curves| && forall i :: 0 <= i < |curves| ==> ms[i] == Mask(c, r, curves[i])
  {
    seq(|curves|, i requires 0 <= i < |curves| => Mask(c, r, curves[i]))
  }

  /** No entry of the mask is set. */
  predicate Clear(m: seq<bool>) {
    forall j :: 0 <= j < |m| ==> !m[j]
  }

  /** `np.where(m)[0]` restricted to the positions `lo .. hi-1`, as positions of `m`. */
  function PassingIndices(m: seq<bool>, lo: nat, hi: nat): (s: seq<nat>)
    requires hi <= |m|
    ensures forall k :: 0 <= k < |s| ==> lo <= s[k] < hi && m[s[k]]
    ensures |s| <= if lo <= hi then hi - lo else 0
    decreases hi - lo
  {
    if lo >= hi then [] else Single(m, lo) + PassingIndices(m, lo + 1, hi)
  }

  /** `[lo]` when position `lo` is set, `[]` otherwise. */
  function Single(m: seq<bool>, lo: nat): (s: seq<nat>)
    requires lo < |m|
    ensures |s| <= 1 && forall k :: 0 <= k < |s| ==> s[k] == lo && m[lo]
  {
    if m[lo] then [lo] else []
  }

  /** Strictly ascending. */
  predicate Ascending(s: seq<nat>) {
    forall k, l :: 0 <= k < l < |s| ==> s[k] < s[l]
  }

  /** Each entry below the next one. */
  predicate StepsUp(s: seq<nat>) {
    forall k {:trigger s[k]} :: 0 < k < |s| ==> s[k - 1] < s[k]
  }

  lemma {:induction false} StepsUpAscending(s: seq<nat>)
    requires StepsUp(s)
    ensures Ascending(s)
  {
    if |s| > 1 {
      var t := s[1..];
      assert StepsUp(t) by {
        forall k | 0 < k < |t|
          ensures t[k - 1] < t[k]
        {
          assert t[k - 1] == s[k] && t[k] == s[k + 1];
        }
      }
      StepsUpAscending(t);
      forall k, l | 0 <= k < l < |s|
        ensures s[k] < s[l]
      {
        assert s[l] == t[l - 1];
        if k > 0 {
          assert s[k] == t[k - 1];
        } else if l > 1 {
          assert s[1] == t[0] && t[0] < t[l - 1];
        }
      }
    }
  }

  lemma StepsUpCons(x: nat, s: seq<nat>)
    requires (|s| > 0 ==> x < s[0]) && StepsUp(s)
    ensures StepsUp([x] + s)
  {
    var t := [x] + s;
    forall k | 0 < k < |t|
      ensures t[k - 1] < t[k]
    {
      assert t[k] == s[k - 1];
      if k > 1 {
        assert t[k - 1] == s[k - 2];
      }
    }
  }

  lemma {:induction false} PassingIndicesStepUp(m: seq<bool>, lo: nat, hi: nat)
    requires hi <= |m|
    ensures StepsUp(PassingIndices(m, lo, hi))
    decreases hi - lo
  {
    if lo < hi {
      var rest := PassingIndices(m, lo + 1, hi);
      PassingIndicesStepUp(m, lo + 1, hi);
      assert PassingIndices(m, lo, hi) == Single(m, lo) + rest;
      if m[lo] {
        StepsUpCons(lo, rest);
      } else {
        assert Single(m, lo) + rest == rest;
      }
    }
  }

  /** `np.where` lists the positions in ascending order. */
  lemma PassingIndicesAscending(m: seq<bool>, lo: nat, hi: nat)
    requires hi <= |m|
    ensures Ascending(PassingIndices(m, lo, hi))
  {
    PassingIndicesStepUp(m, lo, hi);
    StepsUpAscending(PassingIndices(m, lo, hi));
  }

  /** `np.where` misses none of the set positions. */
  lemma {:induction false} PassingIndicesComplete(m: seq<bool>, lo: nat, hi: nat)
    requires hi <= |m|
    ensures forall j :: lo <= j < hi && m[j] ==> j in PassingIndices(m, lo, hi)
    decreases hi - lo
  {
    if lo < hi {
      var rest := PassingIndices(m, lo + 1, hi);
      PassingIndicesComplete(m, lo + 1, hi);
      var s := PassingIndices(m, lo, hi);
      assert s == Single(m, lo) + rest;
      forall j | lo <= j < hi && m[j]
        ensures j in s
      {
        if j == lo {
          assert Single(m, lo) == [lo];
        } else {
          assert j in rest;
        }
      }
    }
  }

  /** `max(seg_idx - 20, 0)`. */
  function WindowStart(seg: nat): (lo: nat)
    ensures lo <= seg <= lo + 20
  {
    if seg >= 20 then seg - 20 else 0
  }

  /** `min(seg_idx + 21, len(vectors[curve_idx]))`. */
  function WindowEnd(seg: nat, edgeCount: nat): (hi: nat)
    ensures hi <= edgeCount && hi <= seg + 21
    ensures seg < edgeCount ==> seg < hi
  {
    if seg + 21 <= edgeCount then seg + 21 else edgeCount
  }

  /** How many edges lie between edge `j` and the checkpoint's edge `seg`. */
  function Offset(j: nat, seg: nat): nat { if j >= seg then j - seg else seg - j }

  /** `np.abs(indices + start - seg_idx)` for the passing edges `idx`. */
  function Offsets(idx: seq<nat>, seg: nat): (ds: seq<nat>)
    ensures |ds| == |idx| && forall k :: 0 <= k < |idx| ==> ds[k] == Offset(idx[k], seg)
  {
    seq(|idx|, k requires 0 <= k < |idx| => Offset(idx[k], seg))
  }

  /** `np.where(ds == np.min(ds))[0][0]`: the first position of the minimum. */
  function FirstArgMin(ds: seq<nat>): (k: nat)
    requires |ds| > 0
    ensures k < |ds|
    ensures forall i :: 0 <= i < |ds| ==> ds[k] <= ds[i]
    ensures forall i :: 0 <= i < k ==> ds[i] > ds[k]
  {
    if |ds| == 1 then 0
    else
      var k := FirstArgMin(ds[1..]);
      if ds[0] <= ds[1 + k] then 0 else 1 + k
  }

  /**
   * Windowed re-acquisition as main.py:161-162 writes it: the position of
   * the closest passing edge within the list of passing edges is added to
   * the window start, as if every edge of the window passed.
   */
  function NearestPassingAsWritten(m: seq<bool>, seg: nat): (pick: Option<nat>)
    ensures pick.Some? ==> WindowStart(seg) <= pick.value < WindowEnd(seg, |m|)
  {
    var lo, hi := WindowStart(seg), WindowEnd(seg, |m|);
    var idx := PassingIndices(m, lo, hi);
    if |idx| == 0 then None else Some(lo + FirstArgMin(Offsets(idx, seg)))
  }

  /** The first minimum of the offsets of the passing positions is a nearest passing position, the lower on a tie. */
  lemma ArgMinIsNearest(m: seq<bool>, lo: nat, hi: nat, seg: nat, idx: seq<nat>)
    requires hi <= |m| && |idx| > 0
    requires forall k :: 0 <= k < |idx| ==> lo <= idx[k] < hi && m[idx[k]]
    requires Ascending(idx)
    requires forall j :: lo <= j < hi && m[j] ==> j in idx
    ensures var p := idx[FirstArgMin(Offsets(idx, seg))];
            forall j :: lo <= j < hi && m[j] ==>
              Offset(p, seg) < Offset(j, seg) || (Offset(p, seg) == Offset(j, seg) && p <= j)
  {
    var ds := Offsets(idx, seg);
    var k := FirstArgMin(ds);
    forall j | lo <= j < hi && m[j]
      ensures Offset(idx[k], seg) < Offset(j, seg) || (Offset(idx[k], seg) == Offset(j, seg) && idx[k] <= j)
    {
      var l :| 0 <= l < |idx| && idx[l] == j;
      assert ds[k] <= ds[l];
      assert l < k ==> ds[l] > ds[k];
      NearerOrEarlier(idx, seg, k, l);
    }
  }

  /** Position `k` of an ascending `idx` is nearer than `l`, or as near and not after it. */
  lemma NearerOrEarlier(idx: seq<nat>, seg: nat, k: nat, l: nat)
    requires Ascending(idx) && k < |idx| && l < |idx|
    requires Offset(idx[k], seg) <= Offset(idx[l], seg)
    requires l < k ==> Offset(idx[l], seg) > Offset(idx[k], seg)
    ensures Offset(idx[k], seg) < Offset(idx[l], seg) ||
            (Offset(idx[k], seg) == Offset(idx[l], seg) && idx[k] <= idx[l])
  {
    if k < l {
      assert idx[k] < idx[l];
    }
  }

  /**
   * Windowed re-acquisition, repaired: among the edges of the window whose
   * mask entry is set, the one closest to the checkpoint's edge, the lower
   * index on a tie; `None` exactly when no entry of the window is set.
   */
  function NearestPassing(m: seq<bool>, seg: nat): (pick: Option<nat>)
    ensures pick.None? <==> forall j :: WindowStart(seg) <= j < WindowEnd(seg, |m|) ==> !m[j]
    ensures pick.Some? ==> WindowStart(seg) <= pick.value < WindowEnd(seg, |m|) && m[pick.value]
    ensures pick.Some? ==>
              forall j :: WindowStart(seg) <= j < WindowEnd(seg, |m|) && m[j] ==>
                Offset(pick.value, seg) < Offset(j, seg) ||
                (Offset(pick.value, seg) == Offset(j, seg) && pick.value <= j)
  {
    var lo, hi := WindowStart(seg), WindowEnd(seg, |m|);
    var idx := PassingIndices(m, lo, hi);
    PassingIndicesAscending(m, lo, hi);
    PassingIndicesComplete(m, lo, hi);
    if |idx| == 0 then None
    else
      ArgMinIsNearest(m, lo, hi, seg, idx);
      Some(idx[FirstArgMin(Offsets(idx, seg))])
  }

  /** `indices[0]` of main.py:189: the first set entry of the mask. */
  function FirstPassing(m: seq<bool>): (pick: Option<nat>)
    ensures pick.None? <==> Clear(m)
    ensures pick.Some? ==> pick.value < |m| && m[pick.value] && forall j :: 0 <= j < pick.value ==> !m[j]
  {
    var idx := PassingIndices(m, 0, |m|);
    PassingIndicesAscending(m, 0, |m|);
    PassingIndicesComplete(m, 0, |m|);
    if |idx| == 0 then None else Some(idx[0])
  }

  /**
   * The result of main.py:179-202 over the curves from `i` on, given their
   * masks: the first curve with a set entry, and its first set entry.
   */
  function GlobalPick(ms: seq<seq<bool>>, i: nat): (hit: Option<Checkpoint>)
    requires i <= |ms|
    ensures hit.None? <==> forall k :: i <= k < |ms| ==> Clear(ms[k])
    ensures hit.Some? ==>
              var cp := hit.value;
              i <= cp.curve < |ms| && cp.seg < |ms[cp.curve]| && ms[cp.curve][cp.seg] &&
              (forall k :: i <= k < cp.curve ==> Clear(ms[k])) &&
              (forall j :: 0 <= j < cp.seg ==> !ms[cp.curve][j])
    decreases |ms| - i
  {
    if i == |ms| then None
    else
      var first := FirstPassing(ms[i]);
      if first.Some? then
        assert !Clear(ms[i]);
        Some(Checkpoint(i, first.value))
      else
        var rest := GlobalPick(ms, i + 1);
        assert Clear(ms[i]);
        assert rest.Some? ==> !Clear(ms[rest.value.curve]);
        rest
  }

  /**
   * main.py:179-202: compute each curve's mask in turn and stop at the first
   * curve with a passing edge (the `for ... break` loop).
   */
  method GlobalSearch(c: Vec, r: real, curves: seq<Curve>) returns (hit: Option<Checkpoint>)
    requires AllWellFormed(curves)
    ensures hit == GlobalPick(Masks(c, r, curves), 0)
  {
    ghost var ms := Masks(c, r, curves);
    hit := None;
    var i := 0;
    while i < |curves|
      invariant i <= |curves|
      invariant hit.None?
      invariant GlobalPick(ms, i) == GlobalPick(ms, 0)
      decreases |curves| - i
    {
      var m := Mask(c, r, curves[i]);
      var found := FirstPassing(m);
      if found.Some? {
        hit := Some(Checkpoint(i, found.value));
        break;
      }
      i := i + 1;
    }
  }

  /** A straight curve along the x-axis: vertices every 10 units, five edges of `(10, 0)`, thickness 2. */
  function AxisCurve(): (curve: Curve)
    ensures WellFormed(curve) && |curve.edges| == 5
  {
    Curve(2, seq(6, i => Vec(10.0 * i as real, 0.0)), seq(5, i => Vec(10.0, 0.0)))
  }

  lemma AxisEdge(px: real)
    ensures Param(Vec(35.0, 3.0), Vec(px, 0.0), Vec(10.0, 0.0)) == (35.0 - px) / 10.0
    ensures Perp(Vec(35.0, 3.0), Vec(px, 0.0), Vec(10.0, 0.0)) == Vec(0.0, 3.0)
  {
    var c, p, v := Vec(35.0, 3.0), Vec(px, 0.0), Vec(10.0, 0.0);
    assert Dot(Sub(c, p), v) == 350.0 - 10.0 * px;
    assert Dot(v, v) == 100.0;
    assert Scale(v, (35.0 - px) / 10.0) == Vec(35.0 - px, 0.0);
  }

  lemma AxisMaskEntry(j: nat)
    requires j < 5
    ensures EdgePasses(Vec(35.0, 3.0), 5.0, AxisCurve(), j) <==> j == 3
  {
    var curve := AxisCurve();
    assert curve.vertices[j] == Vec(10.0 * j as real, 0.0) && curve.edges[j] == Vec(10.0, 0.0);
    assert Sq(Reach(5.0, 2.0)) == 36.0;
    AxisEdge(10.0 * j as real);
    assert Dot(Vec(0.0, 3.0), Vec(0.0, 3.0)) == 9.0;
  }

  lemma AxisMask()
    ensures Mask(Vec(35.0, 3.0), 5.0, AxisCurve()) == [false, false, false, true, false]
  {
    var m := Mask(Vec(35.0, 3.0), 5.0, AxisCurve());
    forall j: nat | j < 5
      ensures m[j] == (j == 3)
    {
      AxisMaskEntry(j);
    }
  }

  lemma RankIsNotOffsetOnMask(m: seq<bool>)
    requires m == [false, false, false, true, false]
    ensures NearestPassingAsWritten(m, 3) == Some(0) && NearestPassing(m, 3) == Some(3)
  {
    var idx := PassingIndices(m, 0, 5);
    PassingIndicesComplete(m, 0, 5);
    assert 3 in idx;
    assert idx == [3];
  }

  /**
   * A ball of radius 5 at `(35, 3)` whose checkpoint is edge 3 of `AxisCurve`:
   * only edge 3 passes, yet the source's re-acquisition binds the ball to
   * edge 0, which does not pass; the repaired one keeps edge 3.
   */
  lemma RankIsNotOffset()
    ensures var m := Mask(Vec(35.0, 3.0), 5.0, AxisCurve());
            NearestPassingAsWritten(m, 3) == Some(0) && !m[0] &&
            NearestPassing(m, 3) == Some(3)
  {
    AxisMask();
    RankIsNotOffsetOnMask(Mask(Vec(35.0, 3.0), 5.0, AxisCurve()));
  }
}
