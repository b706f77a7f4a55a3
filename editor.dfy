/** The editing and playback state of Splines/test.py. The source keeps it
    in module-level globals that its callbacks update in place; here it is
    one `Session` object whose methods are those callbacks. The transition
    functions that several calls compose (undo, the animation tick) are
    stated once on values, and the methods are proved to follow them. */
module Editor {
  import opened Geometry
  import opened Colors
  import opened Sampling

  /** The drawing window, `width, height = 1080, 720`. */
  const Width: int := 1080
  const Height: int := 720

  /** A finalized curve: the dict `{'points', 'color', 'bg_color'}`.  It does
      not record which family produced it. */
  datatype Curve = Curve(points: seq<Point>, color: Rgb, bgColor: Rgba)

  // ---------------------------------------------------------------------
  // Undo on values

  /** The part of the state `undo` touches: working points and finalized curves. */
  datatype Edit = Edit(points: seq<Point>, curves: seq<Curve>)

  /** `undo()`: drop the last working point if there is one, else the last
      finalized curve if there is one, else nothing. */
  function Undone(e: Edit): Edit
  {
    if e.points != [] then Edit(e.points[..|e.points| - 1], e.curves)
    else if e.curves != [] then Edit([], e.curves[..|e.curves| - 1])
    else e
  }

  /** k consecutive undos. */
  function UndoTimes(e: Edit, k: nat): Edit
    decreases k
  {
    if k == 0 then e else UndoTimes(Undone(e), k - 1)
  }

  /** One undo removes exactly one thing, the most recent, and leaves the rest. */
  lemma UndoRemovesLast(e: Edit)
    ensures e.points != [] ==>
      Undone(e).curves == e.curves && Undone(e).points + [e.points[|e.points| - 1]] == e.points
    ensures e.points == [] && e.curves != [] ==>
      Undone(e).points == [] && Undone(e).curves + [e.curves[|e.curves| - 1]] == e.curves
    ensures e.points == [] && e.curves == [] ==> Undone(e) == e
  {
    if e.points != [] {
      assert e.points[..|e.points| - 1] + [e.points[|e.points| - 1]] == e.points;
    } else if e.curves != [] {
      assert e.curves[..|e.curves| - 1] + [e.curves[|e.curves| - 1]] == e.curves;
    }
  }

  /** k undos first use up the working points, newest first, and then remove
      finalized curves, newest first, stopping quietly when both are gone. */
  lemma {:induction false} UndoRepeated(e: Edit, k: nat)
    ensures k <= |e.points| ==> UndoTimes(e, k) == Edit(e.points[..|e.points| - k], e.curves)
    ensures k > |e.points| ==>
      var left := if |e.curves| >= k - |e.points| then |e.curves| - (k - |e.points|) else 0;
      UndoTimes(e, k) == Edit([], e.curves[..left])
    decreases k
  {
    if k == 0 {
      assert e.points[..|e.points|] == e.points;
    } else {
      var e' := Undone(e);
      UndoRepeated(e', k - 1);
      var p, c := |e.points|, |e.curves|;
      if e.points != [] {
        if k <= p {
          assert e.points[..p - 1][..p - k] == e.points[..p - k];
        }
      } else if e.curves != [] {
        var left := if c >= k then c - k else 0;
        assert e.curves[..c - 1][..left] == e.curves[..left];
        if k == 1 {
          assert e'.curves[..|e'.curves|] == e'.curves;
        }
      }
    }
  }

  /** From a scene of m finalized curves and no working points, k undos leave
      max(m - k, 0) curves, never failing. */
  lemma UndoCount(curves: seq<Curve>, k: nat)
    ensures UndoTimes(Edit([], curves), k).points == []
    ensures |UndoTimes(Edit([], curves), k).curves| == if |curves| >= k then |curves| - k else 0
  {
    UndoRepeated(Edit([], curves), k);
  }

  // ---------------------------------------------------------------------
  // The animation tick on values

  /** `speed_modified(s)`: the slider position in ten-thousandths of the parameter per tick. */
  function SliderSpeed(s: int): (v: real)
    ensures v * 10000.0 == s as real
    ensures 1 <= s <= 200 ==> 0.0 < v <= 0.02
  {
    s as real / 10000.0
  }

  /** The parameter after one tick of `animate_curves` while animation is on:
      advance unless paused, then pin at 1 or wrap to 0 once it reaches 1. */
  function NextT(t: real, speed: real, paused: bool, loop: bool): (r: real)
    ensures r <= 1.0
    ensures r == 1.0 ==> !loop
  {
    var advanced := if paused then t else t + speed;
    if advanced >= 1.0 then (if loop then 0.0 else 1.0) else advanced
  }

  /** k ticks with fixed settings. */
  function Ticks(t: real, speed: real, paused: bool, loop: bool, k: nat): real
    decreases k
  {
    if k == 0 then t else Ticks(NextT(t, speed, paused, loop), speed, paused, loop, k - 1)
  }

  /** A tick keeps a parameter in [0, 1] there, for any non-negative speed. */
  lemma TickInRange(t: real, speed: real, paused: bool, loop: bool)
    requires 0.0 <= t <= 1.0 && speed >= 0.0
    ensures 0.0 <= NextT(t, speed, paused, loop) <= 1.0
  {
  }

  /** Looping, an unpaused tick that reaches 1 lands exactly on 0; pinned, exactly on 1. */
  lemma TickAtBoundary(t: real, speed: real, loop: bool)
    requires t + speed >= 1.0
    ensures NextT(t, speed, false, loop) == if loop then 0.0 else 1.0
  {
  }

  /** Without looping, ticks from the end stay at exactly 1, never overshooting. */
  lemma {:induction false} PinnedAtEnd(speed: real, paused: bool, k: nat)
    requires speed >= 0.0
    ensures Ticks(1.0, speed, paused, false, k) == 1.0
  {
    if k > 0 {
      assert NextT(1.0, speed, paused, false) == 1.0;
      PinnedAtEnd(speed, paused, k - 1);
    }
  }

  /** Any number of ticks from a parameter in [0, 1] stays in [0, 1]. */
  lemma {:induction false} TicksInRange(t: real, speed: real, paused: bool, loop: bool, k: nat)
    requires 0.0 <= t <= 1.0 && speed >= 0.0
    ensures 0.0 <= Ticks(t, speed, paused, loop, k) <= 1.0
    decreases k
  {
    if k > 0 {
      TickInRange(t, speed, paused, loop);
      TicksInRange(NextT(t, speed, paused, loop), speed, paused, loop, k - 1);
    }
  }

  /** While paused, ticks leave a parameter below 1 where it is. */
  lemma {:induction false} PausedHolds(t: real, speed: real, loop: bool, k: nat)
    requires t < 1.0
    ensures Ticks(t, speed, true, loop, k) == t
  {
    if k > 0 {
      PausedHolds(t, speed, loop, k - 1);
    }
  }

  // ---------------------------------------------------------------------
  // Random curves

  /** The control points `draw_random_curve` builds from its random (x, y) pairs. */
  function RandomPoints(coords: seq<(int, int)>): (r: seq<Point>)
    ensures |r| == |coords|
    ensures forall i :: 0 <= i < |coords| ==> r[i] == Point(coords[i].0 as real, coords[i].1 as real)
  {
    if coords == [] then []
    else RandomPoints(coords[..|coords| - 1])
         + [Point(coords[|coords| - 1].0 as real, coords[|coords| - 1].1 as real)]
  }

  /** `random.randint(50, width - 50)`, `random.randint(50, height - 50)`. */
  predicate InMargins(c: (int, int))
  {
    50 <= c.0 <= Width - 50 && 50 <= c.1 <= Height - 50
  }

  // ---------------------------------------------------------------------
  // The session

  class Session {
    /** The working (not yet finalized) control points. */
    var controlPoints: seq<Point>
    /** The finalized curves, oldest first. */
    var curves: seq<Curve>
    /** The selected family; `None` until one is chosen and after a reset. */
    var mode: Option<Family>
    var currentColor: Rgb
    var backgroundColor: Rgba
    var animate: bool
    var animationT: real
    var animationSpeed: real
    var loop: bool
    var paused: bool

    /** Points can only be entered once a family is chosen, and nothing
        else ever leaves points behind without one. */
    ghost predicate Valid()
      reads this
    {
      && (mode == None ==> controlPoints == [])
      && animationSpeed > 0.0
    }

    /** The state after the module's top level has run, including the
        initial `speed_modified(50)`. */
    constructor ()
      ensures Valid()
      ensures controlPoints == [] && curves == [] && mode == None
      ensures currentColor == DefaultStroke && backgroundColor == NoFill
      ensures !animate && animationT == 1.0 && animationSpeed == SliderSpeed(50)
      ensures !loop && !paused
    {
      controlPoints := [];
      curves := [];
      mode := None;
      currentColor := DefaultStroke;
      backgroundColor := NoFill;
      animate := false;
      animationT := 1.0;
      animationSpeed := SliderSpeed(50);
      loop := false;
      paused := false;
    }

    /** What `draw_current_curve` draws for the working points this frame.
        Under the invariant its mode dispatch always finds a family. */
    function CurrentDrawing(): (d: Drawing)
      reads this
      requires Valid()
      ensures !d.Unbound?
      ensures |controlPoints| > 1 <==> d.Polyline?
    {
      CurrentCurve(mode, controlPoints, animationT)
    }

    // -------------------------------------------------------------------
    // Editing

    /** `set_bezier()`: selects the family and keeps the working points. */
    method SetBezier()
      requires Valid()
      modifies this`mode
      ensures Valid() && mode == Some(Bezier)
    {
      mode := Some(Bezier);
    }

    /** `set_b_spline()`: selects the family and keeps the working points. */
    method SetBSpline()
      requires Valid()
      modifies this`mode
      ensures Valid() && mode == Some(BSpline)
    {
      mode := Some(BSpline);
    }

    /** `reset()`: forgets the working points, the curves and the family. */
    method Reset()
      requires Valid()
      modifies this`controlPoints, this`curves, this`mode
      ensures Valid()
      ensures controlPoints == [] && curves == [] && mode == None
    {
      controlPoints := [];
      curves := [];
      mode := None;
    }

    /** A mouse click at window position (x, y), y measured downwards: with a
        family chosen it appends the point in OpenGL's upward coordinates;
        without one it only warns. */
    method AddPoint(x: int, y: int) returns (warned: bool)
      requires Valid()
      modifies this`controlPoints
      ensures Valid()
      ensures warned <==> mode == None
      ensures controlPoints == if warned then old(controlPoints)
                               else old(controlPoints) + [Point(x as real, (Height - y) as real)]
    {
      if mode == None {
        warned := true;
      } else {
        warned := false;
        var flipped := Height - y;
        controlPoints := controlPoints + [Point(x as real, flipped as real)];
      }
    }

    /** The `c` key: clears the working points. */
    method ClearPoints()
      requires Valid()
      modifies this`controlPoints
      ensures Valid() && controlPoints == []
    {
      controlPoints := [];
    }

    /** `load_points()` with the file's parsed points as `file` (None when the
        dialog is cancelled or a line does not parse): refused without a
        family; an empty file changes nothing. */
    method LoadPoints(file: Option<seq<Point>>) returns (warned: bool)
      requires Valid()
      modifies this`controlPoints
      ensures Valid()
      ensures warned <==> mode == None
      ensures controlPoints == if !warned && file.Some? && file.value != [] then file.value
                               else old(controlPoints)
    {
      if mode == None {
        warned := true;
        return;
      }
      warned := false;
      if file.Some? && file.value != [] {
        controlPoints := file.value;
      }
    }

    /** `choose_color()`, given the chooser's (r, g, b) or None when cancelled. */
    method ChooseColor(picked: Option<(int, int, int)>)
      requires picked.Some? ==> IsByte(picked.value.0) && IsByte(picked.value.1) && IsByte(picked.value.2)
      modifies this`currentColor
      ensures currentColor == if picked.Some?
                              then NormalizeRgb(picked.value.0, picked.value.1, picked.value.2)
                              else old(currentColor)
    {
      if picked.Some? {
        currentColor := NormalizeRgb(picked.value.0, picked.value.1, picked.value.2);
      }
    }

    /** `choose_background_color()`, given the chooser's '#rrggbb' or None when cancelled. */
    method ChooseBackgroundColor(picked: Option<string>)
      requires picked.Some? ==> IsHexColor(picked.value)
      modifies this`backgroundColor
      ensures backgroundColor == if picked.Some? then ParseFill(picked.value) else old(backgroundColor)
      ensures picked.Some? ==> backgroundColor.a == 1.0
    {
      if picked.Some? {
        backgroundColor := ParseFill(picked.value);
      }
    }

    /** `finalize_curve()`: with at least two working points and a family, it
        appends one curve of 101 samples of the whole curve with the current
        colours, empties the working points and resets the fill; otherwise
        nothing changes.  The stroke colour is kept either way. */
    method FinalizeCurve()
      requires Valid()
      modifies this`curves, this`controlPoints, this`backgroundColor
      ensures Valid()
      ensures if |old(controlPoints)| > 1 && mode != None then
                && curves == old(curves)
                   + [Curve(Samples(mode.value, old(controlPoints), 1.0), currentColor, old(backgroundColor))]
                && controlPoints == []
                && backgroundColor == NoFill
              else
                && curves == old(curves)
                && controlPoints == old(controlPoints)
                && backgroundColor == old(backgroundColor)
      ensures |old(controlPoints)| > 1 && mode != None ==> |curves[|curves| - 1].points| == GridSize
    {
      if |controlPoints| > 1 && mode != None {
        var curvePoints: seq<Point>;
        match mode.value {
          case Bezier => curvePoints := PointsBezierCurve(controlPoints, 1.0);
          case BSpline => curvePoints := PointsCubicSpline(controlPoints, 1.0);
        }
        FullSampleCount(mode.value, controlPoints, 1.0);
        curves := curves + [Curve(curvePoints, currentColor, backgroundColor)];
        controlPoints := [];
        backgroundColor := NoFill;
      }
    }

    /** `undo()`. */
    method Undo()
      requires Valid()
      modifies this`controlPoints, this`curves
      ensures Valid()
      ensures Edit(controlPoints, curves) == Undone(Edit(old(controlPoints), old(curves)))
    {
      if |controlPoints| == 0 {
        if |curves| != 0 {
          curves := curves[..|curves| - 1];
        }
      } else {
        controlPoints := controlPoints[..|controlPoints| - 1];
      }
    }

    /** `draw_random_curve()`, given the values `random.randint` returned: the
        point count 2..10 as the length of `coords`, each point's coordinates
        inside a 50-pixel margin, and the family switch `m` in {0, 1}.  The
        curves and colours are left alone. */
    method DrawRandomCurve(coords: seq<(int, int)>, m: int)
      requires 2 <= |coords| <= 10
      requires forall i :: 0 <= i < |coords| ==> InMargins(coords[i])
      requires m == 0 || m == 1
      requires Valid()
      modifies this`controlPoints, this`mode
      ensures Valid()
      ensures controlPoints == RandomPoints(coords)
      ensures mode == if m == 0 then Some(Bezier) else Some(BSpline)
      ensures 2 <= |controlPoints| <= 10
      ensures forall i :: 0 <= i < |controlPoints| ==>
                50.0 <= controlPoints[i].x <= (Width - 50) as real
                && 50.0 <= controlPoints[i].y <= (Height - 50) as real
    {
      controlPoints := [];
      for i := 0 to |coords|
        invariant controlPoints == RandomPoints(coords[..i])
      {
        assert coords[..i + 1][..i] == coords[..i];
        controlPoints := controlPoints + [Point(coords[i].0 as real, coords[i].1 as real)];
      }
      assert coords[..|coords|] == coords;
      if m == 0 {
        mode := Some(Bezier);
      } else {
        mode := Some(BSpline);
      }
    }

    // -------------------------------------------------------------------
    // Playback

    /** `animate_curves()`, one frame's tick: nothing while animation is off. */
    method AnimateCurves()
      modifies this`animationT
      ensures animationT == if animate then NextT(old(animationT), animationSpeed, paused, loop)
                            else old(animationT)
      ensures animate ==> animationT <= 1.0
      ensures Valid() && 0.0 <= old(animationT) <= 1.0 ==> 0.0 <= animationT <= 1.0
    {
      if Valid() && 0.0 <= animationT <= 1.0 {
        TickInRange(animationT, animationSpeed, paused, loop);
      }
      if animate {
        if !paused {
          animationT := animationT + animationSpeed;
        }
        if animationT >= 1.0 {
          if !loop {
            animationT := 1.0;
          } else {
            animationT := 0.0;
          }
        }
      }
    }

    /** `animate_flag()`: turning animation on restarts the tracing at 0,
        turning it off shows the whole curve again. */
    method AnimateFlag()
      modifies this`animate, this`animationT
      ensures animate == !old(animate)
      ensures animationT == if animate then 0.0 else 1.0
    {
      if !animate {
        animationT := 0.0;
        animate := true;
      } else {
        animationT := 1.0;
        animate := false;
      }
    }

    /** `loop_flag()`. */
    method LoopFlag()
      modifies this`loop
      ensures loop == !old(loop)
    {
      loop := !loop;
    }

    /** `pause_flag()`. */
    method PauseFlag()
      modifies this`paused
      ensures paused == !old(paused)
    {
      paused := !paused;
    }

    /** `on_click(event)` on the progress bar, `barWidth` pixels wide: while
        animating, sets the parameter to the clicked fraction, unclamped (a
        drag past either end gives a value outside [0, 1]). */
    method OnClick(clickX: int, barWidth: int)
      requires barWidth >= 1
      modifies this`animationT
      ensures animationT == if animate then clickX as real / barWidth as real else old(animationT)
    {
      if animate {
        animationT := clickX as real / barWidth as real;
      }
    }

    /** `speed_modified(speed)`, called by the slider with a position in 1..200. */
    method SpeedModified(s: int)
      requires Valid() && 1 <= s <= 200
      modifies this`animationSpeed
      ensures Valid() && animationSpeed == SliderSpeed(s)
    {
      animationSpeed := s as real / 10000.0;
    }

    /** `reset_animation()`: restarts the tracing at 0, animating or not. */
    method ResetAnimation()
      modifies this`animationT
      ensures animationT == 0.0
    {
      animationT := 0.0;
    }
  }

  /** A session driven the way a user drives the editor; each step is
      checked against the contracts above alone. */
  method EditingScenario()
  {
    var s := new Session();
    var warned := s.AddPoint(10, 20);
    assert warned && s.controlPoints == [];
    s.SetBezier();
    warned := s.AddPoint(10, 20);
    warned := s.AddPoint(300, 700);
    assert s.controlPoints == [Point(10.0, 700.0), Point(300.0, 20.0)];
    s.SetBSpline();
    assert |s.controlPoints| == 2;
    s.FinalizeCurve();
    assert |s.curves| == 1 && s.controlPoints == [] && s.backgroundColor == NoFill;
    assert |s.curves[0].points| == GridSize && s.curves[0].color == DefaultStroke;
    s.FinalizeCurve();
    assert |s.curves| == 1;
    s.Undo();
    assert s.curves == [];
    s.Undo();
    assert s.curves == [] && s.controlPoints == [];
  }

  /** Playback: a scrub past the end of the bar leaves the parameter above 1
      until the next tick pins it. */
  method PlaybackScenario()
  {
    var s := new Session();
    s.OnClick(50, 175);
    assert s.animationT == 1.0;
    s.AnimateFlag();
    assert s.animate && s.animationT == 0.0;
    s.OnClick(350, 175);
    assert s.animationT == 2.0;
    s.AnimateCurves();
    assert s.animationT == 1.0;
    s.LoopFlag();
    s.AnimateCurves();
    assert s.animationT == 0.0;
    s.AnimateFlag();
    assert !s.animate && s.animationT == 1.0;
  }
}
