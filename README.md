# Curve-contact physics of the drawing sandbox, in Dafny

The sandbox lets a user draw freehand strokes and then drop a ball. The ball
falls under gravity, lands on a stroke and slides along it. It leaves the
stroke when no edge near its last contact still touches it. A run ends when
the ball leaves the window. This project models the core of `main.py` and
proves properties of the model:

- **Curve preparation** (`curves.dfy`, module `Curves`). Strokes with fewer
  than two points are dropped. Repeated consecutive points are collapsed.
  Each stroke becomes a polyline with non-zero edge vectors, and its pen
  size becomes the curve's thickness.
- **Contact test and depenetration** (`contact.dfy`, module `Contact`).
  - The contact test asks two things of one edge: does the ball's centre
    project onto the edge, and is it within `radius + thickness/2` of the
    edge's line?
  - A ball that sinks into the edge is pushed back out to
    `radius + thickness`.
- **Edge acquisition** (`search.dfy`, module `Search`). There are two
  searches:
  - the windowed re-acquisition, over 20 edges either side of the checkpoint;
  - the global search, which takes the first curve with a touching edge and
    that curve's first touching edge.
- **The integrator** (`motion.dfy` and `physics.dfy`).
  - `Motion` holds the track velocity as a value.
  - `Physics` holds the `Ball` class, one frame of `run_sim` as the
    imperative `Frame`, and the whole run loop as `RunSim`. Each is proved
    against a functional specification.
- **The eraser** (`eraser.dfy`, module `Eraser`). Each stroke is cut at the
  points under the eraser disc. Every maximal run of remaining points becomes
  a stroke of its own, keeping the original header. `Splices` and `Erase`
  keep the source's loops.
- **Editor range fallbacks** (`inputs.dfy`, module `EditorInputs`). A
  setting that is out of range is replaced by its default, not clamped.

Things the model represents differently:

- The clock is a sequence of time steps `dts`, one per frame. The run stops
  early when the ball leaves the window.
- `np.linalg.norm` is a function parameter `norm`. It must be non-negative
  and its square must equal the dot product. The contact test itself is
  stated on squared distances, and `Contact.PassesIffNorm` ties it to the
  source's comparison of norms.
- The source crashes with `IndexError` when a ball is still bound to a curve
  left over from an earlier run. The model reports this as the `Fault`
  outcome and leaves the ball unchanged.

What the code does that is easy to miss:

- **Global search in the same frame.** When the windowed search finds
  nothing, the global search runs in the same frame
  (`Physics.WindowMissSearchesGlobally`).
- **Depenetration distance.** The push moves the ball to
  `radius + thickness`, not `radius + thickness/2`. As a result, a pushed
  ball no longer touches the edge it was pushed off
  (`Contact.DepenetrationOvershoots`).
- **Gravity input.** An out-of-range gravity is replaced by 1000, not
  clamped. The range check has no lower bound
  (`EditorInputs.NegativeGravityAccepted`), but the gravity box accepts
  only digits and `.` (main.py:316), so a negative gravity cannot be typed.
- **One ball for every run.** The editor makes its ball once
  (main.py:230) and hands it from run to run (main.py:343). Validation
  overwrites only the radius, position and velocity (`EditorInputs.Start`),
  so a binding left by an earlier run survives into the next one
  (`EditorInputs.EndedBoundRunFaultsNext`).
- **Two repairs.** The physics models the repaired program, not the
  program as written: every member that binds the ball uses the repaired
  nearest-edge pick and the repaired push of the two findings below. These
  are `Physics.Bind`, `Physics.Ball.BindTo`, `Physics.Windowed`,
  `Physics.Reacquire`, `Physics.Global`, `Physics.AcquireGlobally`,
  `Physics.Acquire`, `Physics.FrameSpec`, `Physics.Frame`, `Physics.RunSpec`
  and `Physics.RunSim`, and every lemma about them. The pick differs from
  the program's on ordinary frames, not only on the finding's input: the
  program binds to window position `start + k`, where `k` is the rank of the
  nearest passing edge among the passing edges, so whenever an edge before
  it in the window does not pass, the program binds to another edge. The
  fault behaviour is the same in both, because the program's pick also stays
  on the checkpoint's curve and inside the window.

## Model

| member | source | states |
|---|---|---|
| Curves.Drawable | main.py:112 | a stroke is kept exactly when it has at least two points (`len >= 3` counting the header); the result is a subsequence of the drawing |
| Curves.DrawableAppend | main.py:112 | filtering two drawings joined is filtering each and joining the results, so the filter keeps the drawing order |
| Curves.DrawableSingle | main.py:112 | a single stroke is kept exactly when it has at least two points |
| Curves.CleanupIsDedup | main.py:117 | selecting with the "differs from the next point, or is last" mask gives the reference duplicate collapse `Dedup` |
| Curves.Dedup | main.py:117 | reference collapse: keeps the first and last point, leaves no two equal neighbours, keeps the same set of points, never grows |
| Curves.DedupSubsequence | main.py:117 | the collapse only leaves points out, keeping the rest in order, and keeps one point more than there are changes between neighbours |
| Curves.Cleanup | main.py:117 | the source's cleanup is `Dedup`, so it has all of `Dedup`'s properties |
| Curves.DedupKeepsClean | main.py:117 | a point list with no equal neighbours is left as it is |
| Curves.CleanupIdempotent | main.py:117 | cleaning a cleaned point list changes nothing |
| Curves.Edges | main.py:119 | `np.diff`: one edge fewer than vertices, edge i is vertex i+1 minus vertex i |
| Curves.WalkEdges | main.py:119 | summing the edge vectors from the first vertex rebuilds every vertex, so no geometry is lost |
| Curves.PrepareCurve | main.py:115-119 | the curve is well formed: edge i is vertex i+1 minus vertex i and is non-zero; thickness is the stroke size; the vertices are the cleaned points and the edges their differences; first and last points are kept |
| Curves.Prepared | main.py:112-119 | one well-formed curve per drawable stroke: curve i is the prepared i-th drawable stroke |
| Curves.PrepareCurves | main.py:112-119 | the preparation loop builds exactly `Prepared(strokes)` |
| Contact.Passes | main.py:152-156 | an edge passes exactly when it is non-zero, the centre projects onto it, and the ball sinks into it or exactly grazes it |
| Contact.Penetrates | main.py:171 | the ball can sink into an edge only when `radius + thickness/2` is positive |
| Contact.OnTop | main.py:166-169 | `projection[1] >= 0` holds exactly when the centre is at or beyond the foot of the perpendicular in `y` |
| Contact.PerpOrthogonal | main.py:152-153 | the perpendicular `projections` is orthogonal to the edge, and `scalar * v + perpendicular == centre - p` |
| Contact.PassesIffNorm | main.py:154-156 | the squared-distance test holds exactly when `norm(projection) <= radius + thickness/2` and `0 <= on_line <= 1`; the strict test holds exactly when `norm(projection) <` that reach |
| Contact.DepenetratedAsWritten | main.py:171-173 | the source's push is undefined (division by zero) exactly when the centre lies on the edge's line |
| Contact.DepenetrationDividesByZero | main.py:171-173 | a ball that touches and sinks into an edge with its centre on the edge's line makes the source's push divide by zero |
| Contact.CentreOnEdge | main.py:150-156 | a centre lying on the edge at parameter `t` projects to `t`, has a zero perpendicular, and the edge passes and is sunk into whenever the reach is positive |
| Contact.OnLinePenetrates | main.py:171 | a centre on the edge's line is strictly within any positive reach |
| Contact.OnLinePasses | main.py:156 | a centre on the edge's line that projects onto the edge passes for any positive reach |
| Contact.Depenetrated | main.py:171-173 | the repaired push; wherever the source's push is defined (centre off the line), it gives the same position |
| Contact.DepenetratedGeometry | main.py:171-173 | after the push the centre projects to the same point of the line, at distance `radius + thickness`, on the same side (`on_top`) as before; a centre off the line moves along its own perpendicular, scaled by `(radius + thickness) / norm(projection)` |
| Contact.DepenetrationOvershoots | main.py:171-173 | with positive thickness, the pushed ball no longer passes the contact test of that edge |
| Search.Mask | main.py:152-156 | entry j of the mask is set exactly when edge j passes the contact test |
| Search.Masks | main.py:178-184 | one mask per curve, in curve order |
| Search.WindowStart | main.py:147 | the window starts at most 20 edges before the checkpoint's edge, and not after it |
| Search.WindowEnd | main.py:148 | the window ends at most 21 edges after the checkpoint's edge and within the curve, and it contains the checkpoint's edge when that exists |
| Search.PassingIndices | main.py:157 | `np.where`: every listed position lies in the window and is set |
| Search.PassingIndicesComplete | main.py:157 | every set position of the window is listed |
| Search.PassingIndicesAscending | main.py:157 | the positions are listed in strictly ascending order |
| Search.ArgMinIsNearest | main.py:161-162 | taking the first minimum of the distances over the ascending list of set positions picks a set position nearest the checkpoint's edge, the lower one on a tie |
| Search.FirstArgMin | main.py:162 | the position of the minimum distance; on a tie, the first such position |
| Search.NearestPassingAsWritten | main.py:161-162 | the source's pick lies inside the window |
| Search.NearestPassing | main.py:157-162 | none exactly when no window edge passes; otherwise a passing window edge nearest the checkpoint's edge, the lower index on a tie |
| Search.RankIsNotOffset | main.py:161-162 | for a ball over edge 3 of a straight curve, the source's pick is edge 0, which does not pass; the repaired pick is edge 3 |
| Search.FirstPassing | main.py:186-189 | none exactly when no edge passes; otherwise the first passing edge |
| Search.GlobalPick | main.py:179-202 | none exactly when no curve has a passing edge; otherwise the first such curve and its first passing edge |
| Search.GlobalSearch | main.py:179-202 | the `for ... break` loop returns exactly `GlobalPick` |
| Motion.TrackVelocityCharacterized | main.py:43-55 | the on-track velocity is the one vector parallel to the tangent whose projection is the old projection plus gravity's times `dt` |
| Physics.MoveSpec | main.py:39-59 | the velocity changes first and the position advances by the new velocity; only velocity, position and tangent change |
| Physics.MoveFreefall | main.py:39-59 | in freefall only the vertical velocity changes, by `g * dt`; the position then advances by the new velocity; nothing else changes |
| Physics.MoveOnTrack | main.py:39-59 | on a track the velocity becomes `TrackVelocity` of the stored tangent, the stored tangent becomes a unit vector along it, and the position advances by the new velocity |
| Physics.MoveKeepsBinding | main.py:39-59 | moving keeps the freefall flag, the checkpoint, the radius and the ball's validity |
| Physics.Bind | main.py:162-173 | binding records the checkpoint, that edge's vector as the tangent (non-zero) and the side `on_top`; the ball is pushed out exactly when it sinks into the edge, and stays put otherwise; nothing else changes |
| Physics.Windowed | main.py:145-175 | fails exactly on a checkpoint naming a missing curve; a miss only sets the freefall flag; a hit keeps the curve, the velocity and the radius |
| Physics.Global | main.py:177-202 | the ball stays in freefall, unchanged, exactly when no curve has a passing edge; otherwise it is bound where `GlobalPick` points |
| Physics.Acquire | main.py:141-202 | acquisition leaves a valid ball whenever it succeeds |
| Physics.AcquireSound | main.py:141-202 | acquisition fails exactly on a checkpoint naming a missing curve; otherwise the ball is bound to an existing edge that touches it, or is in freefall because no edge of any curve touches it; velocity, radius and colour are kept |
| Physics.OutOfBounds | main.py:206 | a ball of positive radius whose centre is in the window is never out of it |
| Physics.FrameSpec | main.py:141-211 | a failing frame changes nothing; an ended frame leaves the ball at the origin at rest; a running frame leaves it touching the window |
| Physics.FrameFaultIff | main.py:145-148 | a frame raises `IndexError` exactly when a bound ball names a missing curve, and then changes nothing |
| Physics.FrameAnchors | main.py:141-211 | a frame that does not fail leaves the ball bound only to an existing edge, so the next frame on the same curves cannot fail |
| Physics.FrameEnds | main.py:204-211 | the run ends exactly when the moved ball is outside the window, with position and velocity reset to zero; otherwise the ball is the moved ball, still touching the window |
| Physics.WindowHitKeepsCurve | main.py:158-173 | when a window edge passes, the ball stays on the same curve, at the repaired nearest passing edge |
| Physics.WindowMissSearchesGlobally | main.py:174-189 | when no window edge passes, the ball ends up in freefall exactly when the global search finds nothing, with its old checkpoint and tangent, and otherwise bound where the global search binds it |
| Physics.RunNeverFaults | main.py:121-211 | a run that starts in freefall (or bound to an existing edge) never raises `IndexError`, and an ended run leaves the ball at the origin at rest |
| Physics.RunSpecValid | main.py:121-211 | every state a run leaves the ball in is valid |
| Physics.StaleCheckpointFaults | main.py:145-148 | a bound ball left over from an earlier run faults on a drawing with no curves |
| Physics.RunSpecStep | main.py:121-211 | a frame that keeps running leaves a valid ball, and the run continues from it with the remaining ticks |
| Physics.Ball.constructor | main.py:29-37 | a new ball is in freefall with no checkpoint, tangent or side |
| Physics.Ball.Move | main.py:39-59 | the ball's new state is `MoveSpec` of its old state |
| Physics.Ball.Stop | main.py:208-211 | the ball is put at the origin at rest; nothing else changes |
| Physics.Ball.BindTo | main.py:162-173 | the ball's new state is `Bind` of its old state |
| Physics.Reacquire | main.py:145-175 | the windowed search faults exactly when `Windowed` does and then changes nothing; otherwise it leaves `Windowed`'s state |
| Physics.AcquireGlobally | main.py:177-202 | the ball's new state is `Global` of its old state |
| Physics.Frame | main.py:141-211 | the outcome and the new state are `FrameSpec` of the old state |
| Physics.RunSim | main.py:106-211 | the outcome and the final state are `RunSpec` of the old state on the prepared curves |
| Eraser.InRange | main.py:531-533 | the point under the mouse is covered for any non-negative size; a covered point lies within `size * 5` of the mouse in each coordinate |
| Eraser.InRangeMask | main.py:531-533 | entry j is set exactly when point j lies within `size * 5` of the mouse |
| Eraser.Runs | main.py:534-546 | reference definition of the runs of uncovered points; every run is non-empty and lies inside the stroke |
| Eraser.RunsOrdered | main.py:534-546 | the runs lie inside the stroke, left to right, and no two of them touch |
| Eraser.RunsAreMaximal | main.py:534-546 | every run consists of uncovered points and is bounded by covered points or the stroke's ends |
| Eraser.RunsCover | main.py:534-546 | every uncovered point lies in some run |
| Eraser.PartialRenders | main.py:534-543 | after reading the mask up to entry i, the splice list holds `[lo, hi]` for every closed run of that prefix and `[lo]` for a run still open |
| Eraser.Transitions | main.py:534-543 | the transition loop leaves the splice list of the whole mask read, with the last run left open when the stroke ends outside the eraser |
| Eraser.Splices | main.py:534-546 | the transition loop yields `[lo, hi]` for every maximal run of uncovered points, in order |
| Eraser.SlicesAreSurvivors | main.py:548-551 | the slices, joined together, are exactly the uncovered points in order |
| Eraser.Pieces | main.py:530-551 | one piece per run, each with the stroke's header and at least one point |
| Eraser.PiecesSound | main.py:530-551 | every piece keeps the header, is non-empty and lies wholly outside the eraser; the pieces' points, joined, are exactly the uncovered points |
| Eraser.ErasePoints | main.py:530-551 | for a stroke with points, the loop builds exactly `Pieces` |
| Eraser.Erase | main.py:525-553 | one eraser frame replaces every stroke by its pieces, in order, and drops strokes without points |
| Eraser.UntouchedStrokeKept | main.py:530-551 | a stroke with points, none of them under the eraser, comes through unchanged |
| Eraser.CoveredStrokeErased | main.py:530-551 | a stroke whose points are all under the eraser disappears |
| Eraser.EraseSpecAppend | main.py:525-553 | erasing two drawings joined is erasing each and joining the results |
| Eraser.EraseUntouched | main.py:525-553 | a drawing that the eraser does not reach, with no empty strokes, is unchanged |
| Eraser.EraseIdempotent | main.py:525-553 | holding the eraser still for a second frame changes nothing more |
| EditorInputs.Accept | main.py:438-483 | a box's value is within its bounds; it is the entered value when that is present and in range, and the default otherwise |
| EditorInputs.ToolSize | main.py:430-436 | the size is between 1 and 10: the entered size when in range, 3 otherwise |
| EditorInputs.Validate | main.py:428-509 | every validated setting lies in its range |
| EditorInputs.ValidateKeepsSane | main.py:428-509 | settings already in range come through validation unchanged |
| EditorInputs.ValidateIdempotent | main.py:428-509 | validating the written-back settings again changes nothing |
| EditorInputs.NegativeGravityAccepted | main.py:495-502 | the range check accepts a negative gravity as entered (the box itself, main.py:316, lets no `-` in) |
| EditorInputs.Start | main.py:446-483 | validation writes radius, position and velocity into the previous ball; colour, freefall flag, checkpoint, tangent and side are kept, and a valid ball stays valid |
| EditorInputs.Apply | main.py:446-483 | the assignments to the ball's fields leave it in state `Start` of its old state |
| EditorInputs.SaneStartInside | main.py:206 | a validated starting position is never out of the window |
| EditorInputs.ValidateAndRun | main.py:338-343 | a run after validation starts from the previous run's ball with the validated settings written in, under the validated gravity |
| EditorInputs.FreeStartNeverFaults | main.py:230 | a ball in freefall, as the editor's new ball is, starts a run that never faults |
| EditorInputs.EndedBoundRunFaultsNext | main.py:145-148 | a run that ends with the ball bound leaves the binding in place, so after the drawing is erased the next run fails on its first frame, validated or not |

## Left out

- Drawing, the GUI widgets, the colour picker, the theme, the help and menu screens, and the pencil tool (main.py:521-522) are not modelled.
- Events that end a run (window close, Escape, the back button) are not modelled. A run in the model ends when the ball leaves the window or when the ticks in `dts` run out, which stands for those events.
- `clock.tick` becomes the sequence `dts` of time steps.
- The mouse position and the tool size become parameters of `Eraser.Erase`, which models one frame in which the eraser is in use. The test of the mouse button, the panel and the tool choice (main.py:520-524) is not modelled.
- Floating point: all coordinates are exact reals, so IEEE rounding is not modelled. NumPy's NaN appears in two places only:
  - a zero-length edge, which never passes the contact test (`Contact.Passes`);
  - the division by zero in depenetration (`Contact.DepenetratedAsWritten`).
- `np.linalg.norm` is the parameter `norm`, constrained by `Vectors.IsNorm`. No square root is computed.
- The `print` at main.py:160 is left out: it is output only.
- Friction and air density are read (main.py:486-509) but never used in motion. They are kept as settings that nothing consumes.
- Parsing the text boxes (`float`, `int`, `get_text`, `set_text`, the count of `.` and `-`) is reduced to an `Option`. A box the source resets to its default is `None`. A text `float()` would reject (an exception in the source) is not modelled.
- The `validated` flag (main.py:423-427) is not modelled. Validation runs on the first click after any change to a text box. `EditorInputs.ValidateAndRun` covers a run that follows such a click; a run without one is `Physics.RunSim` on the ball as the last run left it.
- The source's `IndexError` on a stale checkpoint ends the program. The model returns the `Fault` outcome instead and changes nothing.
- Physics.Bind: it uses the repaired push `Contact.Depenetrated`, so on the second finding's input (centre on the edge's line) it gives a position where the program computes NaN.
- Physics.Ball.BindTo (main.py:162-173): it performs `Physics.Bind`, so it uses the repaired push, and the edge it is given comes from the repaired pick.
- Physics.Windowed: it models the repaired program, not the program. It uses the repaired pick `Search.NearestPassing`, which differs from the program's pick on ordinary frames: with checkpoint 5 and only edge 6 of the window passing, the program binds to edge 0 and the model to edge 6; with checkpoint 30 and only edges 29 and 30 passing, the program binds to edge 11 (window start 10, rank 1) and the model to edge 30. It also inherits the repaired push from `Physics.Bind`.
- Physics.Reacquire (main.py:145-175): it performs `Physics.Windowed`, so it uses the repaired pick and push and binds to a different edge than the program on the frames named under `Physics.Windowed`.
- Physics.Global: it binds through `Physics.Bind`, so it uses the repaired push; its pick, the first passing edge of the first curve that has one, is the program's.
- Physics.AcquireGlobally: it performs `Physics.Global`, so it uses the repaired push.
- Physics.Acquire (main.py:141-202): it runs `Physics.Windowed` or `Physics.Global`, so it uses the repaired pick and push and differs from the program on the frames named under `Physics.Windowed`.
- Physics.AcquireSound: it is about `Physics.Acquire`; the program's pick can bind the ball to an edge that does not touch it, which the model's cannot.
- Physics.WindowHitKeepsCurve: it states the repaired pick; the program stays on the same curve too, but at the edge its rank-based pick names.
- Physics.WindowMissSearchesGlobally: the global search it describes uses the repaired push.
- Physics.FrameSpec (main.py:141-211): it acquires with `Physics.Acquire`, so it uses the repaired pick and push and differs from the program on the frames named under `Physics.Windowed`.
- Physics.FrameEnds: the moved ball it speaks of comes from the repaired pick and push.
- Physics.Frame: it follows `Physics.FrameSpec`, so it uses the repaired pick and push and differs from the program on the frames named under `Physics.Windowed` and on the second finding's input.
- Physics.RunSpecStep: each frame it steps through is `Physics.FrameSpec`, with the repaired pick and push.
- Physics.RunSim: it runs `Physics.Frame`, so it uses the repaired pick and push and differs from the program on every run that meets such a frame.
- EditorInputs.ValidateAndRun: the run it performs is `Physics.RunSim`, with the repaired pick and push.
- Search.NearestPassingAsWritten: only its range is stated, because it models the faulty pick of main.py:161-162, which the rest of the model replaces by `Search.NearestPassing`.

## Findings

| source | as written | input that shows it | evidently intended | confidence | as-written member | corrected member |
|---|---|---|---|---|---|---|
| main.py:161-162 | the new segment index is `start + k`, where `k` is the rank of the nearest passing edge among the passing edges, not its offset in the window | ball of radius 5 at (35, 3) with checkpoint edge 3 of a straight curve with vertices (0,0), (10,0), …, (50,0) and thickness 2: only edge 3 passes, yet the ball is bound to edge 0 | `start + indices[k]`: the nearest passing edge itself | high; not executed | Search.RankIsNotOffset | Search.NearestPassing |
| main.py:171-173 | the push divides by `norm(projection)`, which is zero when the centre lies on the edge's line | centre (100, 100), edge from (90, 100) with vector (20, 0), radius 20, thickness 3: the edge passes and the ball sinks into it, and the new position is NaN | push along the edge's normal, on the side `on_top` reports | high; not executed | Contact.DepenetrationDividesByZero | Contact.DepenetratedGeometry |
