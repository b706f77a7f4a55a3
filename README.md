# Spline curve editor: verified model of the curve core

This project models the core of a small interactive 2D curve editor written
in Python (pygame, OpenGL and Tk). The user picks a curve family (Bézier or
"B-spline"), clicks control points, and sees the curve. Finalizing a curve
stores it in a scene. Undo removes the newest point or curve. A playback
control can trace a curve's parameter from 0 to 1.

The model has two halves, both from `Splines/test.py`:

- **Curve evaluation** (pure).
  - `BezierCurves`: Bézier evaluation by direct Bernstein summation, written as a function plus the source's accumulating loop as a method proved equal to it.
  - `CubicSplines`: the Catmull-Rom blend with its segment index and modulo-n neighbour indices.
  - `Sampling`: the two samplers on the grid i/100, i = 0..100, as loop methods proved equal to one sampling function, plus the mode dispatch of `draw_current_curve`.
  - `Colors`: normalisation of the colour chooser's results.
- **Editing and playback state** (imperative). The source keeps this in module-level globals. `Editor.Session` is one class with those globals as fields. Its methods are the callbacks that change them. Each method's frame (`modifies this`f`) names exactly the fields its callback assigns. Its `ensures` give their new values. `Valid()` is the invariant "no family selected ⇒ no working points, and the speed is positive". Every editing method and the speed slider keep it. Undo and the animation tick are also written as functions on values (`Undone`, `NextT`). Lemmas about repeated calls are stated over those functions.

All arithmetic is over `real`. The colour chooser and
`random.randint` are foreign calls, so their results come in as method
parameters. I/O and drawing are left out (see below).

The model keeps these behaviours of the code as written:

- Selecting a family does not clear the working points (`set_bezier` and `set_b_spline` only assign `mode`).
- Scrubbing does not clamp the parameter. `click_x / width` can fall outside [0, 1] while the pointer is dragged past the bar's ends. Only the next tick brings a value ≥ 1 back to 1 or 0. So the parameter is not always in [0, 1].
- The spline is evaluated with as few as two points (the guard is `len(points) > 1`), its neighbour indices wrapping modulo n. Its curve starts at control point 1 and ends at control point 0 (`SplineStart`, `SplineEnd`).
- A finalized curve does not record its family. The dict has only `points`, `color` and `bg_color`.
- The 0.0009 initial speed is overwritten at start-up by `speed_modified(50)`. The session therefore starts at speed 0.005.

## Model

| member | source | states |
|---|---|---|
| `BezierCurves.BezierCurve` | Splines/test.py:42-49 | the loop over i = 0..n that accumulates `comb(n,i)·t^i·(1-t)^(n-i)·P_i` returns exactly `BezierAt(points, t)`, the Bernstein sum (origin for no points) |
| `BezierCurves.CombAbove` | Splines/test.py:47 | `math.comb(n, k)` is 0 when k > n |
| `BezierCurves.CombDiagonal` | Splines/test.py:47 | `math.comb(n, n)` is 1 |
| `BezierCurves.PowOne` | Splines/test.py:47 | 1^k = 1. With x^0 = 1 as in Python, this gives the endpoint weights. |
| `BezierCurves.PascalTerm` | Splines/test.py:47 | Pascal's rule lifted to the terms C(n,i)·a^i·b^(n-i) of the Bernstein weights |
| `BezierCurves.TermsEntry` | Splines/test.py:47 | entry i of the row `Terms(n, a, b)` is the i-th term C(n,i)·a^i·b^(n-i) |
| `BezierCurves.TermEnds` | Splines/test.py:47 | the first term of row n is b^n and the last is a^n |
| `BezierCurves.SumFirstLinear` | Splines/test.py:46-48 | summation is linear: entries a·x_i + b·y_i sum to a·Σx + b·Σy |
| `BezierCurves.SumFirstShift` | Splines/test.py:46-48 | a leading zero does not change a sum |
| `BezierCurves.SumFirstPad` | Splines/test.py:46-48 | a trailing zero does not change a sum |
| `BezierCurves.PascalRow` | Splines/test.py:47 | row n+1 of the terms is a times row n shifted right by one plus b times row n |
| `BezierCurves.RowSum` | Splines/test.py:47 | the terms of row n+1 add up to (a+b) times the terms of row n |
| `BezierCurves.Binomial` | Splines/test.py:47 | the binomial theorem: the n+1 terms C(n,i)·a^i·b^(n-i) add up to (a+b)^n |
| `BezierCurves.PartitionOfUnity` | Splines/test.py:47 | the n+1 Bernstein weights C(n,i)·t^i·(1-t)^(n-i) at any t add up to exactly 1 |
| `BezierCurves.PartialSumAtStart` | Splines/test.py:46-48 | at t = 0 every prefix of the accumulation (m ≥ 1 terms) is the first control point |
| `BezierCurves.PartialSumBeforeEnd` | Splines/test.py:46-48 | at t = 1 every accumulation that stops before the last control point is still the origin |
| `BezierCurves.BezierStart` | Splines/test.py:42-49 | for at least one control point, the curve at t = 0 is the first control point |
| `BezierCurves.BezierEnd` | Splines/test.py:42-49 | for at least one control point, the curve at t = 1 is the last control point |
| `BezierCurves.HalfWeights` | Splines/test.py:47 | the three quadratic weights at t = 1/2 are 1/4, 1/2 and 1/4 |
| `BezierCurves.QuadraticAtHalf` | Splines/test.py:42-49 | a three-point curve at t = 1/2 weighs its points 1/4, 1/2, 1/4 |
| `BezierCurves.QuadraticMidpoint` | Splines/test.py:42-49 | over (0,0), (50,100), (100,0) the curve at t = 1/2 is (50,50) |
| `BezierCurves.AffineStep` | Splines/test.py:48 | one accumulation step commutes with an affine map, up to the partial weight sum times the translation |
| `BezierCurves.PartialSumAffine` | Splines/test.py:46-48 | the accumulated sum over mapped points is the linear image of the sum plus (sum of weights so far) × translation |
| `BezierCurves.BezierAffine` | Splines/test.py:42-49 | affine invariance: evaluating affinely mapped control points gives the affinely mapped point |
| `CubicSplines.SegmentIndex` | Splines/test.py:63 | `k = int(t·(n-1))` lies in [0, n-1] for n ≥ 1 and 0 ≤ t ≤ 1, so the unmodded `points[k]` is in range; k = n-1 at t = 1 |
| `CubicSplines.LocalParam` | Splines/test.py:64 | the local parameter `t·(n-1) - k` lies in [0, 1) and is 0 at t = 1 |
| `CubicSplines.BlendCoordEnds` | Splines/test.py:70-75 | the cubic `a·u³ + b·u² + c·u + d` with the source's Catmull-Rom coefficients equals p1 at u = 0 and p2 at u = 1 |
| `CubicSplines.BlendEnds` | Splines/test.py:70-75 | the point-wise blend passes through the second point at u = 0 and the third at u = 1 |
| `CubicSplines.KnotParam` | Splines/test.py:63-64 | for n ≥ 2 the knot t = j/(n-1) lies in [0, 1], selects segment k = j and has local parameter 0 |
| `CubicSplines.SplineAt` | Splines/test.py:60-75 | `cubic_spline_interpolation`: with k = int(t·(n-1)) and u = t·(n-1) - k, k is a valid index, u lies in [0, 1), k + u = t·(n-1), and the value is the Catmull-Rom blend of points k, (k+1) mod n, (k+2) mod n, (k+3) mod n at u |
| `CubicSplines.SplineAtKnot` | Splines/test.py:60-75 | for n ≥ 2, at the knot t = j/(n-1) the curve is control point (j+1) mod n |
| `CubicSplines.SplineStart` | Splines/test.py:60-75 | at t = 0 the curve is control point 1 mod n, not control point 0 |
| `CubicSplines.SplineEnd` | Splines/test.py:60-75 | at t = 1 the wrap-around brings the curve to control point 0 |
| `CubicSplines.SegmentsMeet` | Splines/test.py:65-75 | the end (u = 1) of segment j-1 is the start (u = 0) of segment j: the curve is continuous at interior knots |
| `CubicSplines.BlendCoordSlopeEnds` | Splines/test.py:70-75 | the derivative 3a·u² + 2b·u + c of the blend is half the chord p2 - p0 at u = 0 and p3 - p1 at u = 1 |
| `CubicSplines.CubicShift` | Splines/test.py:75 | a cubic's change over a step h is h times 3a·u² + 2b·u + c plus h²·(3a·u + b + a·h) |
| `CubicSplines.SlopeIsDerivative` | Splines/test.py:70-75 | the blend's change over a step h is h times that slope plus an h² remainder, so the slope is the derivative |
| `CubicSplines.SegmentsTangent` | Splines/test.py:65-75 | consecutive segments have equal tangents where they meet: the curve is C¹ at interior knots |
| `Sampling.PointsBezierCurve` | Splines/test.py:51-58 | the loop over `range(101)` returns exactly `Samples(Bezier, points, t)` |
| `Sampling.PointsCubicSpline` | Splines/test.py:77-84 | the loop over `range(101)` returns exactly `Samples(BSpline, points, t)` |
| `Sampling.SamplesBelowCount` | Splines/test.py:79-83 | after the first m grid parameters, index i < m is in the list iff i/100 ≤ t: the kept parameters are a prefix of the grid |
| `Sampling.SamplesBelowValues` | Splines/test.py:79-83 | entry i of the list is the evaluation at the i-th grid parameter i/100 |
| `Sampling.SamplesExact` | Splines/test.py:53-57 | a sampler's result has at most 101 entries. Entry i is the evaluation at i/100, and index i ≤ 100 is present iff i/100 ≤ t. |
| `Sampling.FullSampleCount` | Splines/test.py:53-55 | for t ≥ 1 a sampler returns exactly 101 points |
| `Sampling.EmptyBeforeStart` | Splines/test.py:53-55 | for t < 0 a sampler returns the empty list |
| `Sampling.BezierPolylineEnds` | Splines/test.py:204 | the finalized Bézier polyline has 101 points, from the first control point to the last |
| `Sampling.SplinePolylineEnds` | Splines/test.py:206 | the finalized spline polyline has 101 points, from control point 1 mod n to control point 0 |
| `Sampling.CurrentCurve` | Splines/test.py:101-106 | `draw_current_curve` draws nothing below two points. With two or more points and a family it draws exactly that family's samples `Samples(family, points, t)`. With two or more points and no family it fails (`curve_points` unbound). A polyline is drawn iff there are two or more points and a family. |
| `Colors.NormalizeRgb` | Splines/test.py:183-185 | dividing the chooser's bytes by 255 gives components in [0, 1] that scale back to those bytes |
| `Colors.HexDigitValue` | Splines/test.py:191 | a hex digit of either case reads as a value below 16 |
| `Colors.HexByte` | Splines/test.py:191 | `int(color[i:i+2], 16)` of two hex digits is a byte |
| `Colors.DigitRoundTrip` | Splines/test.py:191 | the lower-case hex digit of a value below 16 reads back as that value |
| `Colors.ByteRoundTrip` | Splines/test.py:191 | two digits spelling v / 16 and v % 16 read back as the byte v |
| `Colors.ParseFill` | Splines/test.py:189-193 | '#rrggbb' becomes a fill colour with components in [0, 1] and alpha 255/255 = 1 |
| `Colors.FillRoundTrip` | Splines/test.py:189-193 | the chooser's '#rrggbb' for (r, g, b) parses to the normalised (r, g, b) of `choose_color` with alpha 1 |
| `Editor.UndoRemovesLast` | Splines/test.py:303-308 | undo removes exactly the last working point, keeping the curves. With no points it removes exactly the last curve. With neither it changes nothing. |
| `Editor.UndoRepeated` | Splines/test.py:303-308 | k undos remove the newest k working points. Once those run out, they remove curves newest first, down to none. |
| `Editor.UndoCount` | Splines/test.py:303-305 | from m curves and no working points, k undos leave max(m - k, 0) curves |
| `Editor.SliderSpeed` | Splines/test.py:525-527 | `int(speed) / 10000` is positive and at most 0.02 for slider values 1..200 |
| `Editor.NextT` | Splines/test.py:230-236 | after an active tick the parameter is at most 1. It is exactly 1 only when not looping. |
| `Editor.TickInRange` | Splines/test.py:230-236 | a tick from a parameter in [0, 1] with non-negative speed stays in [0, 1] |
| `Editor.TickAtBoundary` | Splines/test.py:234-236 | an unpaused tick that reaches 1 lands on exactly 0.0 when looping and exactly 1.0 otherwise |
| `Editor.PinnedAtEnd` | Splines/test.py:234-235 | without looping, any number of ticks from 1 stays at exactly 1 |
| `Editor.TicksInRange` | Splines/test.py:230-236 | any number of ticks from a parameter in [0, 1] stays in [0, 1] |
| `Editor.PausedHolds` | Splines/test.py:230-231 | while paused, ticks leave a parameter below 1 unchanged |
| `Editor.RandomPoints` | Splines/test.py:316-319 | the points built from the random pairs are, in order, exactly those pairs |
| `Editor.Session.constructor` | Splines/test.py:26-32 | initial state: no points, no curves, no family, red stroke, transparent fill. Playback is off, with t = 1, speed `SliderSpeed(50)`, no loop and no pause (also lines 121, 213-217, 533). |
| `Editor.Session.CurrentDrawing` | Splines/test.py:101-106 | under the invariant, the mode dispatch of `draw_current_curve` never fails. It draws a polyline exactly when there are two or more working points. |
| `Editor.Session.SetBezier` | Splines/test.py:123-127 | sets the family to Bézier. Nothing else changes, and the working points are kept. |
| `Editor.Session.SetBSpline` | Splines/test.py:129-133 | sets the family to B-spline. Nothing else changes, and the working points are kept. |
| `Editor.Session.Reset` | Splines/test.py:135-142 | empties points and curves and clears the family. Colours and playback are untouched. |
| `Editor.Session.AddPoint` | Splines/test.py:581-588 | with no family: warns, no change. Otherwise it appends (x, 720 - y) and changes nothing else. |
| `Editor.Session.ClearPoints` | Splines/test.py:589-592 | the `c` key empties the working points only |
| `Editor.Session.LoadPoints` | Splines/test.py:159-179 | with no family: warns, no change. A non-empty parsed file replaces the working points. An empty or cancelled one changes nothing. |
| `Editor.Session.ChooseColor` | Splines/test.py:181-185 | a chosen colour becomes the stroke colour, normalised. Cancelling changes nothing. |
| `Editor.Session.ChooseBackgroundColor` | Splines/test.py:187-193 | a chosen '#rrggbb' becomes an opaque fill colour. Cancelling changes nothing. |
| `Editor.Session.FinalizeCurve` | Splines/test.py:200-211 | with more than one point and a family: appends one curve (101 samples at t = 1 from that family's evaluator, current stroke, old fill), empties the points and resets the fill to transparent. The stroke is kept. Otherwise nothing changes. |
| `Editor.Session.Undo` | Splines/test.py:303-308 | the new points and curves are `Undone` of the old ones. Nothing else changes. |
| `Editor.Session.DrawRandomCurve` | Splines/test.py:310-325 | installs 2..10 points, each inside the 50-pixel margins, exactly the random pairs in order, and the family chosen by m. Curves and colours are untouched. |
| `Editor.Session.AnimateCurves` | Splines/test.py:219-236 | a tick: with animation off, no change. Otherwise t becomes `NextT` of the old t, so t ≤ 1. Under the invariant (positive speed) a t in [0, 1] stays in [0, 1]. |
| `Editor.Session.AnimateFlag` | Splines/test.py:256-270 | toggles animation. t is set to 0 on enable and to 1 on disable. |
| `Editor.Session.LoopFlag` | Splines/test.py:238-245 | flips the loop flag only |
| `Editor.Session.PauseFlag` | Splines/test.py:247-254 | flips the pause flag only |
| `Editor.Session.OnClick` | Splines/test.py:516-520 | while animating, sets t to click_x / bar width, unclamped. Otherwise no change. |
| `Editor.Session.SpeedModified` | Splines/test.py:525-529 | for a slider position in 1..200 the speed becomes `SliderSpeed(s)`, and the invariant (positive speed) is kept |
| `Editor.Session.ResetAnimation` | Splines/test.py:556-559 | sets t to 0, whether animating or not |

## Left out

- Rendering is not modelled: `draw_points`, `draw_curves`, the OpenGL calls of `draw_current_curve` and its `bg_color[3] > 0` fill decision are drawing output. Only the mode dispatch of `draw_current_curve` is kept (`CurrentCurve`).
- The Tk user interface is not modelled: labels, buttons, styles, images, the points listbox (`update_points_listbox`), the progress bar (`update_animation_progress`) and `print`. A `messagebox` warning becomes "state unchanged", plus a `warned` result where the source warns.
- `mainloop` is not modelled beyond its two core branches, mouse add-point and the `c` key. The pygame event loop, `QUIT`, the frame clock, the Ctrl+Z polling (which calls `Undo` once per frame while held) and the per-frame order of input, drawing and tick are I/O plumbing.
- The file handling of `save_points`, `load_points`, `save_curves_to_csv` and `load_curves_from_csv` is not modelled. It covers dialogs, file I/O, pandas, and float-to-text conversion, whose round trip depends on Python's float formatting. Only the mode guard of `load_points` and its replace-if-non-empty step are kept, with the parsed points passed in. Also left out: `save_curves_to_csv` puts the current global mode in every row's `type` column, and a scene loaded from CSV can hold curves of any length.
- `askcolor` and `random.randint` are foreign calls. Their results are parameters, with the ranges those functions guarantee as preconditions.
- The Tk slider (`from_=1, to=200`, line 529) is the only caller of `speed_modified` after start-up, so `SpeedModified` takes a position in 1..200 as a precondition, the same way.
- IEEE-754 rounding is not modelled. Coordinates, t, speed and the grid values `i / 100.0` are exact reals, so a float comparison `i/100 <= t` that rounds the other way is not modelled.
- `on_click`'s `event.widget == animate_progress_bar` test is always true, because the handler is bound only to that bar. `barWidth >= 1` is required because Tk never reports a width below 1.
- Sampling.PointsCubicSpline: requires at least one control point. With none, the source raises for t ≥ 0 and returns `[]` for t < 0. Its only callers (lines 102 and 202) pass two or more.
- The commented-out block in `animate_curves` (lines 223-228) is not code and is not modelled.
