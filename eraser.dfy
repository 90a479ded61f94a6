/**
 * The eraser tool (main.py:525-553): every stroke is cut at the points the
 * eraser covers, and each maximal run of uncovered points becomes a stroke
 * of its own with the original header.
 */
module Eraser {
  import opened Curves

  /**
   * `np.linalg.norm(point - mouse) <= radius` with `radius = size * 5`, on
   * integer coordinates: the point under the mouse is covered for any
   * non-negative size, and a covered point lies in the square of side
   * `2 * radius` around the mouse.
   */
  predicate InRange(p: Point, mouse: Point, size: int): (b: bool)
    ensures p == mouse ==> (b <==> size >= 0)
    ensures b ==> -size * 5 <= p.x - mouse.x <= size * 5 && -size * 5 <= p.y - mouse.y <= size * 5
  {
    var radius, dx, dy := size * 5, p.x - mouse.x, p.y - mouse.y;
    if radius >= 0 && dx * dx + dy * dy <= radius * radius then
      SquareBound(dx, dy, radius);
      SquareBound(dy, dx, radius);
      true
    else false
  }

  lemma SquareBound(d: int, e: int, r: int)
    requires r >= 0 && d * d + e * e <= r * r
    ensures -r <= d <= r
  {
  }


  /** `is_in_range`. */
  function InRangeMask(pts: seq<Point>, mouse: Point, size: int): (mask: seq<bool>)
    ensures |mask| == |pts| && forall j :: 0 <= j < |pts| ==> mask[j] == InRange(pts[j], mouse, size)
  {
    seq(|pts|, j requires 0 <= j < |pts| => InRange(pts[j], mouse, size))
  }

  /** A half-open run `lo .. hi-1` of positions. */
  datatype Span = Span(lo: nat, hi: nat)

  /**
   * Reference definition: the maximal runs of `false` in `mask`, left to
   * right, built by reading the mask one entry at a time (a `false` extends
   * the run that ends just before it, or starts a new one).
   */
  function Runs(mask: seq<bool>): (runs: seq<Span>)
    ensures forall k :: 0 <= k < |runs| ==> runs[k].lo < runs[k].hi <= |mask|
    decreases |mask|
  {
    if |mask| == 0 then []
    else
      var n := |mask| - 1;
      var prev := Runs(mask[..n]);
      ExtendBounded(prev, n, mask[n]);
      Extend(prev, n, mask[n])
  }

  /** The run `r` is made of `false` entries and is bounded by `true` entries or the ends of the mask. */
  predicate MaximalRun(mask: seq<bool>, r: Span)
    requires r.lo <= r.hi <= |mask|
  {
    (forall j :: r.lo <= j < r.hi ==> !mask[j]) &&
    (r.lo == 0 || mask[r.lo - 1]) &&
    (r.hi == |mask| || mask[r.hi])
  }

  predicate MaximalRuns(mask: seq<bool>, runs: seq<Span>)
    requires forall k :: 0 <= k < |runs| ==> runs[k].lo < runs[k].hi <= |mask|
  {
    forall k :: 0 <= k < |runs| ==> MaximalRun(mask, runs[k])
  }

  /** Every `false` entry of the mask lies in some run. */
  predicate CoveredBy(mask: seq<bool>, runs: seq<Span>) {
    forall j :: 0 <= j < |mask| && !mask[j] ==> exists k :: 0 <= k < |runs| && runs[k].lo <= j < runs[k].hi
  }

  /** Every run is non-empty and lies within the first `len` positions. */
  predicate Bounded(len: nat, runs: seq<Span>) {
    forall k :: 0 <= k < |runs| ==> runs[k].lo < runs[k].hi <= len
  }

  /** Every run but the last ends before the last one starts. */
  predicate BeforeLast(runs: seq<Span>) {
    forall k :: 0 <= k < |runs| - 1 ==> runs[k].hi < runs[|runs| - 1].lo
  }

  /** Bounded, left to right, and separated by at least one position. */
  predicate OrderedRuns(len: nat, runs: seq<Span>) {
    Bounded(len, runs) &&
    (forall k, l :: 0 <= k < l < |runs| ==> runs[k].hi < runs[l].lo)
  }

  /** A prefix ending in `false` ends inside the last run; one ending in `true` ends after it. */
  predicate EndsRight(mask: seq<bool>, runs: seq<Span>) {
    |mask| > 0 ==>
      if mask[|mask| - 1] then |runs| == 0 || runs[|runs| - 1].hi < |mask|
      else |runs| > 0 && runs[|runs| - 1].hi == |mask|
  }

  /** The step of `Runs` from `m` to `m + [b]`. */
  function Extend(prev: seq<Span>, n: nat, b: bool): seq<Span> {
    if b then prev
    else if |prev| > 0 && prev[|prev| - 1].hi == n then prev[..|prev| - 1] + [Span(prev[|prev| - 1].lo, n + 1)]
    else prev + [Span(n, n + 1)]
  }

  lemma ExtendBounded(prev: seq<Span>, n: nat, b: bool)
    requires forall k :: 0 <= k < |prev| ==> prev[k].lo < prev[k].hi <= n
    ensures var runs := Extend(prev, n, b);
            forall k :: 0 <= k < |runs| ==> runs[k].lo < runs[k].hi <= n + 1
  {
    if !b && |prev| > 0 && prev[|prev| - 1].hi == n {
      var runs := Extend(prev, n, b);
      assert forall k :: 0 <= k < |prev| - 1 ==> runs[k] == prev[k];
    }
  }

  lemma OrderedStep(prev: seq<Span>, n: nat, before: bool, b: bool)
    requires OrderedRuns(n, prev)
    requires n > 0 ==> if before then |prev| == 0 || prev[|prev| - 1].hi < n
                       else |prev| > 0 && prev[|prev| - 1].hi == n
    ensures OrderedRuns(n + 1, Extend(prev, n, b))
  {
    if b {
    } else if |prev| > 0 && prev[|prev| - 1].hi == n {
      var runs := prev[..|prev| - 1] + [Span(prev[|prev| - 1].lo, n + 1)];
      assert forall k :: 0 <= k < |prev| - 1 ==> runs[k] == prev[k];
    } else {
      assert forall k :: 0 <= k < |prev| ==> prev[k].hi < n;
    }
  }

  /** The step of `Runs` keeps the run ends where the last mask entry says they are. */
  lemma ExtendEnds(prev: seq<Span>, n: nat, b: bool)
    requires Bounded(n, prev)
    ensures var runs := Extend(prev, n, b);
            if b then |runs| == 0 || runs[|runs| - 1].hi < n + 1
            else |runs| > 0 && runs[|runs| - 1].hi == n + 1
  {
  }

  lemma RunsEndRight(mask: seq<bool>)
    ensures Bounded(|mask|, Runs(mask)) && EndsRight(mask, Runs(mask))
  {
    if |mask| > 0 {
      var n := |mask| - 1;
      var prev := Runs(mask[..n]);
      assert Bounded(n, prev);
      ExtendEnds(prev, n, mask[n]);
    }
  }

  /** The runs lie inside the mask, left to right, separated by at least one `true`. */
  lemma {:induction false} RunsOrdered(mask: seq<bool>)
    ensures OrderedRuns(|mask|, Runs(mask))
    decreases |mask|
  {
    if |mask| > 0 {
      var n := |mask| - 1;
      var prefix := mask[..n];
      RunsOrdered(prefix);
      RunsEndRight(prefix);
      assert n > 0 ==> prefix[n - 1] == mask[n - 1];
      OrderedStep(Runs(prefix), n, n > 0 && mask[n - 1], mask[n]);
    }
  }

  lemma RunsBeforeLast(mask: seq<bool>)
    ensures BeforeLast(Runs(mask))
  {
    RunsOrdered(mask);
  }

  lemma RunsStep(mask: seq<bool>)
    requires |mask| > 0
    ensures Runs(mask) == Extend(Runs(mask[..|mask| - 1]), |mask| - 1, mask[|mask| - 1])
    ensures Bounded(|mask| - 1, Runs(mask[..|mask| - 1])) && Bounded(|mask|, Runs(mask))
    ensures EndsRight(mask[..|mask| - 1], Runs(mask[..|mask| - 1])) && EndsRight(mask, Runs(mask))
  {
    RunsEndRight(mask);
    RunsEndRight(mask[..|mask| - 1]);
  }

  /** A maximal run of the mask without its last entry stays maximal when that entry cannot extend it. */
  lemma KeepRun(mask: seq<bool>, r: Span)
    requires |mask| > 0 && r.lo <= r.hi <= |mask| - 1
    requires MaximalRun(mask[..|mask| - 1], r)
    requires r.hi < |mask| - 1 || mask[|mask| - 1]
    ensures MaximalRun(mask, r)
  {
    var n := |mask| - 1;
    assert forall j :: 0 <= j < n ==> mask[..n][j] == mask[j];
  }

  /** A maximal run that reaches the end of the shorter mask grows by a trailing `false`. */
  lemma GrowRun(mask: seq<bool>, r: Span)
    requires |mask| > 0 && r.lo <= r.hi == |mask| - 1
    requires MaximalRun(mask[..|mask| - 1], r) && !mask[|mask| - 1]
    ensures MaximalRun(mask, Span(r.lo, |mask|))
  {
    var n := |mask| - 1;
    assert forall j :: 0 <= j < n ==> mask[..n][j] == mask[j];
  }

  lemma MaximalStep(mask: seq<bool>, prev: seq<Span>)
    requires |mask| > 0
    requires var m := mask[..|mask| - 1]; Bounded(|m|, prev) && BeforeLast(prev) && MaximalRuns(m, prev)
    requires |mask| > 1 && !mask[|mask| - 2] ==> |prev| > 0 && prev[|prev| - 1].hi == |mask| - 1
    requires Bounded(|mask|, Extend(prev, |mask| - 1, mask[|mask| - 1]))
    ensures MaximalRuns(mask, Extend(prev, |mask| - 1, mask[|mask| - 1]))
  {
    var n := |mask| - 1;
    var m, runs := mask[..n], Extend(prev, n, mask[n]);
    if mask[n] {
      forall k | 0 <= k < |runs|
        ensures MaximalRun(mask, runs[k])
      {
        KeepRun(mask, prev[k]);
      }
    } else if |prev| > 0 && prev[|prev| - 1].hi == n {
      var last := |prev| - 1;
      forall k | 0 <= k < |runs|
        ensures MaximalRun(mask, runs[k])
      {
        if k < last {
          assert runs[k] == prev[k] && prev[k].hi < prev[last].lo;
          KeepRun(mask, prev[k]);
        } else {
          assert runs[k] == Span(prev[last].lo, n + 1);
          GrowRun(mask, prev[last]);
        }
      }
    } else {
      assert n > 0 ==> m[n - 1];
      forall k | 0 <= k < |runs|
        ensures MaximalRun(mask, runs[k])
      {
        if k < |prev| {
          assert runs[k] == prev[k];
          assert MaximalRun(m, prev[k]);
          KeepRun(mask, prev[k]);
        } else {
          assert runs[k] == Span(n, n + 1);
        }
      }
    }
  }

  lemma {:induction false} RunsAreMaximal(mask: seq<bool>)
    ensures MaximalRuns(mask, Runs(mask))
    decreases |mask|
  {
    if |mask| > 0 {
      var n := |mask| - 1;
      RunsStep(mask);
      RunsBeforeLast(mask[..n]);
      RunsAreMaximal(mask[..n]);
      MaximalStep(mask, Runs(mask[..n]));
    }
  }

  lemma CoverStep(mask: seq<bool>, prev: seq<Span>)
    requires |mask| > 0
    requires var m := mask[..|mask| - 1]; Bounded(|m|, prev) && CoveredBy(m, prev)
    requires |mask| > 1 && !mask[|mask| - 2] ==> |prev| > 0 && prev[|prev| - 1].hi == |mask| - 1
    ensures CoveredBy(mask, Extend(prev, |mask| - 1, mask[|mask| - 1]))
  {
    var n := |mask| - 1;
    var m, runs := mask[..n], Extend(prev, n, mask[n]);
    forall j | 0 <= j < |mask| && !mask[j]
      ensures exists k :: 0 <= k < |runs| && runs[k].lo <= j < runs[k].hi
    {
      if j < n {
        assert !m[j];
        var k :| 0 <= k < |prev| && prev[k].lo <= j < prev[k].hi;
        assert runs[k].lo == prev[k].lo && prev[k].hi <= runs[k].hi;
      } else {
        var k := |runs| - 1;
        assert runs[k].lo <= j < runs[k].hi;
      }
    }
  }

  lemma {:induction false} RunsCover(mask: seq<bool>)
    ensures CoveredBy(mask, Runs(mask))
    decreases |mask|
  {
    if |mask| > 0 {
      var n := |mask| - 1;
      RunsStep(mask);
      RunsCover(mask[..n]);
      CoverStep(mask, Runs(mask[..n]));
    }
  }

  /** `splice_points` as the source leaves it: each run as `[lo, hi]`, except an unfinished last run as `[lo]`. */
  function Render(runs: seq<Span>, open: bool): (splices: seq<seq<nat>>)
    ensures |splices| == |runs|
  {
    seq(|runs|, k requires 0 <= k < |runs| =>
      if open && k == |runs| - 1 then [runs[k].lo] else [runs[k].lo, runs[k].hi])
  }

  /** One transition of `is_in_range`, as the source turns it into an update of `splice_points`. */
  function Transition(splices: seq<seq<nat>>, n: nat, before: bool, b: bool): seq<seq<nat>> {
    var diff := (if b then 1 else 0) - (if before then 1 else 0);
    if diff == 1 && |splices| > 0 then splices[..|splices| - 1] + [splices[|splices| - 1] + [n]]
    else if diff == -1 then splices + [[n]]
    else splices
  }

  lemma RenderExtend(prev: seq<Span>, n: nat, before: bool, b: bool)
    requires n > 0 && Bounded(n, prev)
    requires !before ==> |prev| > 0 && prev[|prev| - 1].hi == n
    requires before ==> |prev| == 0 || prev[|prev| - 1].hi < n
    ensures Render(Extend(prev, n, b), !b) == Transition(Render(prev, !before), n, before, b)
  {
    var sp := Render(prev, !before);
    var next := Extend(prev, n, b);
    if !before && !b {
      assert next == prev[..|prev| - 1] + [Span(prev[|prev| - 1].lo, n + 1)];
      assert Render(next, true) == sp;
    } else if !before && b {
      RenderClose(prev, n);
    } else if before && !b {
      assert next == prev + [Span(n, n + 1)];
      assert Render(next, true) == sp + [[n]];
    }
  }

  lemma RenderClose(runs: seq<Span>, len: nat)
    requires |runs| > 0 && runs[|runs| - 1].hi == len
    ensures var sp := Render(runs, true);
            Render(runs, false) == sp[..|sp| - 1] + [sp[|sp| - 1] + [len]]
  {
    var sp, closed := Render(runs, true), Render(runs, false);
    var last := |runs| - 1;
    var expected := sp[..last] + [sp[last] + [len]];
    forall k | 0 <= k < |runs|
      ensures closed[k] == expected[k]
    {
      if k < last {
        assert expected[k] == sp[k];
      }
    }
  }

  lemma RenderPrefixStep(mask: seq<bool>, i: nat)
    requires 0 < i < |mask|
    ensures Render(Runs(mask[..i + 1]), !mask[i])
         == Transition(Render(Runs(mask[..i]), !mask[i - 1]), i, mask[i - 1], mask[i])
  {
    var prefix := mask[..i + 1];
    assert prefix[..i] == mask[..i];
    assert mask[..i][i - 1] == mask[i - 1];
    RunsStep(prefix);
    RenderExtend(Runs(mask[..i]), i, mask[i - 1], mask[i]);
  }

  lemma RenderFirst(mask: seq<bool>)
    requires |mask| > 0
    ensures Render(Runs(mask[..1]), !mask[0]) == if mask[0] then [] else [[0]]
  {
    var first := mask[..1];
    assert first[..0] == [];
    assert Runs(first) == if mask[0] then [] else [Span(0, 1)];
  }

  lemma RenderLast(mask: seq<bool>)
    requires |mask| > 0
    ensures var sp := Render(Runs(mask), !mask[|mask| - 1]);
            (!mask[|mask| - 1] ==> |sp| > 0) &&
            Render(Runs(mask), false)
              == if mask[|mask| - 1] then sp else sp[..|sp| - 1] + [sp[|sp| - 1] + [|mask|]]
  {
    RunsEndRight(mask);
    if !mask[|mask| - 1] {
      RenderClose(Runs(mask), |mask|);
    }
  }

  /** The splice list after the loop of main.py:536-543 has read entries `0 .. i`. */
  function Partial(mask: seq<bool>, i: nat): seq<seq<nat>>
    requires i < |mask|
  {
    if i == 0 then (if mask[0] then [] else [[0]])
    else Transition(Partial(mask, i - 1), i, mask[i - 1], mask[i])
  }

  /** While the points are outside the eraser, a splice is open. */
  lemma {:induction false} PartialOpen(mask: seq<bool>, i: nat)
    requires i < |mask| && !mask[i]
    ensures |Partial(mask, i)| > 0
  {
    if i > 0 && !mask[i - 1] {
      PartialOpen(mask, i - 1);
    }
  }

  /** The loop's splice list is the rendering of the runs of the prefix read so far. */
  lemma {:induction false} PartialRenders(mask: seq<bool>, i: nat, prefix: seq<bool>)
    requires i < |mask| && prefix == mask[..i + 1]
    ensures Partial(mask, i) == Render(Runs(prefix), !mask[i])
  {
    if i == 0 {
      RenderFirst(mask);
    } else {
      PartialRenders(mask, i - 1, mask[..i]);
      RenderPrefixStep(mask, i);
    }
  }

  lemma SplicesClose(mask: seq<bool>)
    requires |mask| > 0
    ensures var sp := Partial(mask, |mask| - 1);
            (!mask[|mask| - 1] ==> |sp| > 0) &&
            Render(Runs(mask), false)
              == if mask[|mask| - 1] then sp else sp[..|sp| - 1] + [sp[|sp| - 1] + [|mask|]]
  {
    PartialRenders(mask, |mask| - 1, mask);
    RenderLast(mask);
  }

  /** main.py:534-543: the splices opened and closed by the transitions of `is_in_range`. */
  method Transitions(mask: seq<bool>) returns (splices: seq<seq<nat>>)
    requires |mask| > 0
    ensures splices == Partial(mask, |mask| - 1)
  {
    splices := [];
    if !mask[0] {
      splices := splices + [[0]];
    }
    for i := 0 to |mask| - 1
      invariant splices == Partial(mask, i)
    {
      if !mask[i] {
        PartialOpen(mask, i);
      }
      var diff := (if mask[i + 1] then 1 else 0) - (if mask[i] then 1 else 0);
      if diff == 1 {
        splices := splices[..|splices| - 1] + [splices[|splices| - 1] + [i + 1]];
      } else if diff == -1 {
        splices := splices + [[i + 1]];
      }
    }
  }

  /**
   * main.py:534-546: the start and end of each run of points the eraser
   * misses; a run still open at the end of the stroke is closed there.
   */
  method Splices(mask: seq<bool>) returns (splices: seq<seq<nat>>)
    requires |mask| > 0
    ensures splices == Render(Runs(mask), false)
  {
    splices := Transitions(mask);
    SplicesClose(mask);
    if !mask[|mask| - 1] {
      splices := splices[..|splices| - 1] + [splices[|splices| - 1] + [|mask|]];
    }
  }

  /** The entries of `xs` whose mask entry is `false`, in order: the points the eraser misses. */
  function Survivors<T>(xs: seq<T>, mask: seq<bool>): (r: seq<T>)
    requires |xs| == |mask|
    ensures |r| <= |xs|
    decreases |xs|
  {
    if |xs| == 0 then []
    else
      var n := |xs| - 1;
      Survivors(xs[..n], mask[..n]) + (if mask[n] then [] else [xs[n]])
  }

  /** The concatenation of a sequence of sequences. */
  function Concat<T>(xss: seq<seq<T>>): seq<T>
    decreases |xss|
  {
    if |xss| == 0 then [] else Concat(xss[..|xss| - 1]) + xss[|xss| - 1]
  }

  lemma ConcatSnoc<T>(xss: seq<seq<T>>, xs: seq<T>)
    ensures Concat(xss + [xs]) == Concat(xss) + xs
  {
    assert (xss + [xs])[..|xss|] == xss;
  }

  /** The slices `xs[lo:hi]` cut out by a sequence of runs. */
  function Slices<T>(xs: seq<T>, runs: seq<Span>): (r: seq<seq<T>>)
    requires forall k :: 0 <= k < |runs| ==> runs[k].lo <= runs[k].hi <= |xs|
    ensures |r| == |runs|
  {
    seq(|runs|, k requires 0 <= k < |runs| => xs[runs[k].lo..runs[k].hi])
  }

  lemma SlicesPrefix<T>(xs: seq<T>, runs: seq<Span>, n: nat)
    requires n <= |xs| && Bounded(n, runs)
    ensures Slices(xs, runs) == Slices(xs[..n], runs)
  {
    forall k | 0 <= k < |runs|
      ensures Slices(xs, runs)[k] == Slices(xs[..n], runs)[k]
    {
      assert xs[..n][runs[k].lo..runs[k].hi] == xs[runs[k].lo..runs[k].hi];
    }
  }

  lemma SlicesGrowLast<T>(xs: seq<T>, prev: seq<Span>)
    requires |xs| > 0 && |prev| > 0 && Bounded(|xs| - 1, prev) && prev[|prev| - 1].hi == |xs| - 1
    ensures var n, last := |xs| - 1, |prev| - 1;
            Concat(Slices(xs, prev[..last] + [Span(prev[last].lo, n + 1)])) == Concat(Slices(xs, prev)) + [xs[n]]
  {
    var n, last := |xs| - 1, |prev| - 1;
    var lo := prev[last].lo;
    var runs := prev[..last] + [Span(lo, n + 1)];
    var before, after := Slices(xs, prev), Slices(xs, runs);
    var shared := before[..last];
    assert after == shared + [xs[lo..n + 1]] by {
      forall k | 0 <= k < |runs|
        ensures after[k] == (shared + [xs[lo..n + 1]])[k]
      {
        if k < last {
          assert runs[k] == prev[k];
        }
      }
    }
    assert before == shared + [xs[lo..n]];
    ConcatSnoc(shared, xs[lo..n + 1]);
    ConcatSnoc(shared, xs[lo..n]);
    assert xs[lo..n + 1] == xs[lo..n] + [xs[n]];
  }

  lemma SlicesAddRun<T>(xs: seq<T>, prev: seq<Span>)
    requires |xs| > 0 && Bounded(|xs| - 1, prev)
    ensures var n := |xs| - 1;
            Concat(Slices(xs, prev + [Span(n, n + 1)])) == Concat(Slices(xs, prev)) + [xs[n]]
  {
    var n := |xs| - 1;
    var runs := prev + [Span(n, n + 1)];
    var before, after := Slices(xs, prev), Slices(xs, runs);
    assert after == before + [[xs[n]]] by {
      forall k | 0 <= k < |runs|
        ensures after[k] == (before + [[xs[n]]])[k]
      {
        if k < |prev| {
          assert runs[k] == prev[k];
        } else {
          assert xs[n..n + 1] == [xs[n]];
        }
      }
    }
    ConcatSnoc(before, [xs[n]]);
  }

  lemma SlicesExtend<T>(xs: seq<T>, prev: seq<Span>, b: bool)
    requires |xs| > 0 && Bounded(|xs| - 1, prev)
    ensures var n := |xs| - 1;
            Concat(Slices(xs, Extend(prev, n, b))) == Concat(Slices(xs[..n], prev)) + (if b then [] else [xs[n]])
  {
    var n := |xs| - 1;
    SlicesPrefix(xs, prev, n);
    if b {
    } else if |prev| > 0 && prev[|prev| - 1].hi == n {
      SlicesGrowLast(xs, prev);
    } else {
      SlicesAddRun(xs, prev);
    }
  }

  lemma SlicesStep<T>(xs: seq<T>, mask: seq<bool>)
    requires |xs| == |mask| > 0
    ensures var n := |xs| - 1;
            Concat(Slices(xs, Runs(mask)))
              == Concat(Slices(xs[..n], Runs(mask[..n]))) + (if mask[n] then [] else [xs[n]])
  {
    var n := |xs| - 1;
    RunsStep(mask);
    SlicesExtend(xs, Runs(mask[..n]), mask[n]);
  }

  /** Cutting at the runs of uncovered points and gluing the pieces back gives the uncovered points. */
  lemma {:induction false} SlicesAreSurvivors<T>(xs: seq<T>, mask: seq<bool>)
    requires |xs| == |mask|
    ensures Concat(Slices(xs, Runs(mask))) == Survivors(xs, mask)
    decreases |xs|
  {
    if |xs| > 0 {
      var n := |xs| - 1;
      SlicesStep(xs, mask);
      SlicesAreSurvivors(xs[..n], mask[..n]);
    }
  }

  function PointsOf(strokes: seq<Stroke>): (r: seq<seq<Point>>)
    ensures |r| == |strokes|
  {
    seq(|strokes|, k requires 0 <= k < |strokes| => strokes[k].points)
  }

  /** No point of the stroke lies under the eraser. */
  predicate Untouched(s: Stroke, mouse: Point, size: int) {
    forall j :: 0 <= j < |s.points| ==> !InRange(s.points[j], mouse, size)
  }

  /** The strokes one stroke breaks into under the eraser (main.py:530-551): one per maximal run of uncovered points. */
  function Pieces(s: Stroke, mouse: Point, size: int): (ps: seq<Stroke>)
    ensures |ps| == |Runs(InRangeMask(s.points, mouse, size))|
    ensures forall k :: 0 <= k < |ps| ==> ps[k].header == s.header && |ps[k].points| > 0
  {
    var runs := Runs(InRangeMask(s.points, mouse, size));
    seq(|runs|, k requires 0 <= k < |runs| => Stroke(s.header, s.points[runs[k].lo..runs[k].hi]))
  }

  /**
   * Every piece keeps the stroke's header, has at least one point and lies
   * wholly outside the eraser; glued back together, the pieces' points are
   * exactly the stroke's uncovered points, in order.
   */
  lemma PiecesSound(s: Stroke, mouse: Point, size: int)
    ensures var pieces := Pieces(s, mouse, size);
            (forall k :: 0 <= k < |pieces| ==> pieces[k].header == s.header && |pieces[k].points| > 0) &&
            (forall k :: 0 <= k < |pieces| ==> Untouched(pieces[k], mouse, size)) &&
            Concat(PointsOf(pieces)) == Survivors(s.points, InRangeMask(s.points, mouse, size))
  {
    var mask := InRangeMask(s.points, mouse, size);
    var runs := Runs(mask);
    var pieces := Pieces(s, mouse, size);
    RunsAreMaximal(mask);
    SlicesAreSurvivors(s.points, mask);
    assert PointsOf(pieces) == Slices(s.points, runs);
    forall k | 0 <= k < |pieces|
      ensures Untouched(pieces[k], mouse, size)
    {
      assert MaximalRun(mask, runs[k]);
      forall j | 0 <= j < |pieces[k].points|
        ensures !InRange(pieces[k].points[j], mouse, size)
      {
        assert pieces[k].points[j] == s.points[runs[k].lo + j];
        assert !mask[runs[k].lo + j];
      }
    }
  }

  /** main.py:530-551, for one stroke that has at least one point. */
  method ErasePoints(s: Stroke, mouse: Point, size: int) returns (pieces: seq<Stroke>)
    requires Length(s) > 1
    ensures pieces == Pieces(s, mouse, size)
  {
    var mask := InRangeMask(s.points, mouse, size);
    var splices := Splices(mask);
    ghost var runs := Runs(mask);
    pieces := [];
    for k := 0 to |splices|
      invariant pieces == Pieces(s, mouse, size)[..k]
    {
      assert splices[k] == [runs[k].lo, runs[k].hi];
      pieces := pieces + [Stroke(s.header, s.points[splices[k][0]..splices[k][1]])];
    }
  }

  /** The pieces of every stroke, glued together in order. */
  function ConcatMap(f: Stroke -> seq<Stroke>, strokes: seq<Stroke>): seq<Stroke>
    decreases |strokes|
  {
    if |strokes| == 0 then []
    else
      var n := |strokes| - 1;
      ConcatMap(f, strokes[..n]) + f(strokes[n])
  }

  /** `Pieces` at a fixed eraser position, as a function value. */
  function PiecesAt(mouse: Point, size: int): Stroke -> seq<Stroke> {
    s => Pieces(s, mouse, size)
  }

  /** Reference definition of one eraser pass over the drawing: every stroke replaced by its pieces. */
  function EraseSpec(strokes: seq<Stroke>, mouse: Point, size: int): seq<Stroke> {
    ConcatMap(PiecesAt(mouse, size), strokes)
  }

  /** main.py:525-553: one frame of the eraser over every stroke; strokes without points are dropped. */
  method Erase(strokes: seq<Stroke>, mouse: Point, size: int) returns (erased: seq<Stroke>)
    ensures erased == EraseSpec(strokes, mouse, size)
  {
    erased := [];
    for i := 0 to |strokes|
      invariant erased == EraseSpec(strokes[..i], mouse, size)
    {
      assert strokes[..i + 1][..i] == strokes[..i];
      assert PiecesAt(mouse, size)(strokes[i]) == Pieces(strokes[i], mouse, size);
      if Length(strokes[i]) <= 1 {
        continue;
      }
      var pieces := ErasePoints(strokes[i], mouse, size);
      erased := erased + pieces;
    }
    assert strokes[..|strokes|] == strokes;
  }

  lemma {:induction false} RunsNoneCovered(mask: seq<bool>)
    requires |mask| > 0 && forall j :: 0 <= j < |mask| ==> !mask[j]
    ensures Runs(mask) == [Span(0, |mask|)]
    decreases |mask|
  {
    var n := |mask| - 1;
    if n > 0 {
      RunsNoneCovered(mask[..n]);
    } else {
      assert mask[..n] == [];
    }
  }

  lemma {:induction false} RunsAllCovered(mask: seq<bool>)
    requires forall j :: 0 <= j < |mask| ==> mask[j]
    ensures Runs(mask) == []
    decreases |mask|
  {
    if |mask| > 0 {
      RunsAllCovered(mask[..|mask| - 1]);
    }
  }

  /** A stroke the eraser does not touch comes through unchanged. */
  lemma UntouchedStrokeKept(s: Stroke, mouse: Point, size: int)
    requires |s.points| > 0 && Untouched(s, mouse, size)
    ensures Pieces(s, mouse, size) == [s]
  {
    RunsNoneCovered(InRangeMask(s.points, mouse, size));
    assert s.points[0..|s.points|] == s.points;
  }

  /** A stroke whose every point is under the eraser disappears. */
  lemma CoveredStrokeErased(s: Stroke, mouse: Point, size: int)
    requires forall j :: 0 <= j < |s.points| ==> InRange(s.points[j], mouse, size)
    ensures Pieces(s, mouse, size) == []
  {
    RunsAllCovered(InRangeMask(s.points, mouse, size));
  }

  lemma {:induction false} ConcatMapAppend(f: Stroke -> seq<Stroke>, a: seq<Stroke>, b: seq<Stroke>)
    ensures ConcatMap(f, a + b) == ConcatMap(f, a) + ConcatMap(f, b)
    decreases |b|
  {
    if |b| == 0 {
      assert a + b == a;
    } else {
      var n := |b| - 1;
      var ab := a + b;
      assert ab[..|ab| - 1] == a + b[..n];
      assert ab[|ab| - 1] == b[n];
      ConcatMapAppend(f, a, b[..n]);
      calc {
        ConcatMap(f, ab);
        ConcatMap(f, a + b[..n]) + f(b[n]);
        (ConcatMap(f, a) + ConcatMap(f, b[..n])) + f(b[n]);
        ConcatMap(f, a) + (ConcatMap(f, b[..n]) + f(b[n]));
      }
    }
  }

  lemma {:induction false} ConcatMapIdentity(f: Stroke -> seq<Stroke>, strokes: seq<Stroke>)
    requires forall i :: 0 <= i < |strokes| ==> f(strokes[i]) == [strokes[i]]
    ensures ConcatMap(f, strokes) == strokes
    decreases |strokes|
  {
    if |strokes| > 0 {
      var n := |strokes| - 1;
      var init := strokes[..n];
      forall i | 0 <= i < n
        ensures f(init[i]) == [init[i]]
      {
        assert init[i] == strokes[i];
      }
      ConcatMapIdentity(f, init);
      calc {
        ConcatMap(f, strokes);
        ConcatMap(f, init) + f(strokes[n]);
        init + [strokes[n]];
        { assert init + [strokes[n]] == strokes; }
        strokes;
      }
    }
  }

  lemma EraseSpecAppend(a: seq<Stroke>, b: seq<Stroke>, mouse: Point, size: int)
    ensures EraseSpec(a + b, mouse, size) == EraseSpec(a, mouse, size) + EraseSpec(b, mouse, size)
  {
    ConcatMapAppend(PiecesAt(mouse, size), a, b);
  }

  /** Strokes that all have points and are all out of the eraser's reach come through unchanged. */
  lemma EraseUntouched(strokes: seq<Stroke>, mouse: Point, size: int)
    requires forall i :: 0 <= i < |strokes| ==> |strokes[i].points| > 0 && Untouched(strokes[i], mouse, size)
    ensures EraseSpec(strokes, mouse, size) == strokes
  {
    var f := PiecesAt(mouse, size);
    forall i | 0 <= i < |strokes|
      ensures f(strokes[i]) == [strokes[i]]
    {
      UntouchedStrokeKept(strokes[i], mouse, size);
    }
    ConcatMapIdentity(f, strokes);
  }

  /** Holding the eraser still for a second frame changes nothing more. */
  lemma {:induction false} EraseIdempotent(strokes: seq<Stroke>, mouse: Point, size: int)
    ensures var once := EraseSpec(strokes, mouse, size);
            EraseSpec(once, mouse, size) == once
    decreases |strokes|
  {
    if |strokes| > 0 {
      var n := |strokes| - 1;
      var head := EraseSpec(strokes[..n], mouse, size);
      var tail := Pieces(strokes[n], mouse, size);
      assert PiecesAt(mouse, size)(strokes[n]) == tail;
      assert EraseSpec(strokes, mouse, size) == head + tail;
      EraseIdempotent(strokes[..n], mouse, size);
      EraseSpecAppend(head, tail, mouse, size);
      PiecesSound(strokes[n], mouse, size);
      EraseUntouched(tail, mouse, size);
    }
  }
}
