/**
 * The interactive viewport of the 3D viewer (src/renderer.rs), without the
 * GPU: the selected axis columns, the clamped visual parameters, the mouse
 * state, the projection, the debounce between the low-resolution and the
 * full-resolution render target, and the frame throttle. A texture is only
 * its size, a draw only the target, transform and uniforms it was given, and
 * the clock an integer number of milliseconds.
 *
 * What one event does is specified by the pure function `Step` on a `View`
 * (the renderer's logical state); what one frame draws by `PlanFrame` on a
 * `Debounce`. The `Renderer` class updates its fields in place and its
 * methods are proved to follow those functions.
 */
module Renderer {
  import opened Floats
  import opened Config
  import opened Ingest
  import opened Axes
  import Data

  // ---------------------------------------------------------------------
  // Axis selection

  /** The previous column index, wrapping from 0 to `m - 1` (Left, Up, PageUp). */
  function Prev(i: nat, m: nat): (r: nat)
    requires i < m
    ensures r < m
  {
    (if i == 0 then m else i) - 1
  }

  /** The next column index, wrapping from `m - 1` to 0 (Right, Down, PageDown). */
  function Next(i: nat, m: nat): (r: nat)
    requires i < m
    ensures r < m
  {
    if i + 1 >= m then 0 else i + 1
  }

  /** The branchy wrap-around agrees with arithmetic modulo the column count. */
  lemma CyclingIsModular(i: nat, m: nat)
    requires i < m
    ensures Prev(i, m) == (i + m - 1) % m
    ensures Next(i, m) == (i + 1) % m
  {
    if i == 0 {
      assert (m - 1) % m == m - 1;
    } else {
      assert (i + m - 1) % m == (i - 1 + m) % m == i - 1;
    }
  }

  /** Next undoes Prev and Prev undoes Next. */
  lemma NextUndoesPrev(i: nat, m: nat)
    requires i < m
    ensures Next(Prev(i, m), m) == i
    ensures Prev(Next(i, m), m) == i
  {
  }

  /** `Next` applied `k` times. */
  function NextTimes(i: nat, m: nat, k: nat): (r: nat)
    requires i < m
    ensures r < m
  {
    if k == 0 then i else Next(NextTimes(i, m, k - 1), m)
  }

  /** `Prev` applied `k` times. */
  function PrevTimes(i: nat, m: nat, k: nat): (r: nat)
    requires i < m
    ensures r < m
  {
    if k == 0 then i else Prev(PrevTimes(i, m, k - 1), m)
  }

  /** Up to a full cycle, `k` steps forward land `k` places on, wrapping once. */
  lemma {:induction false} NextTimesWraps(i: nat, m: nat, k: nat)
    requires i < m && k <= m
    ensures NextTimes(i, m, k) == if i + k < m then i + k else i + k - m
  {
    if k > 0 {
      NextTimesWraps(i, m, k - 1);
    }
  }

  /** Up to a full cycle, `k` steps back land `k` places before, wrapping once. */
  lemma {:induction false} PrevTimesWraps(i: nat, m: nat, k: nat)
    requires i < m && k <= m
    ensures PrevTimes(i, m, k) == if k <= i then i - k else i + m - k
  {
    if k > 0 {
      PrevTimesWraps(i, m, k - 1);
    }
  }

  /** Pressing the same axis key once per column brings the axis back to where it started. */
  lemma FullCycle(i: nat, m: nat)
    requires i < m
    ensures NextTimes(i, m, m) == i && PrevTimes(i, m, m) == i
  {
    NextTimesWraps(i, m, m);
    PrevTimesWraps(i, m, m);
  }

  // ---------------------------------------------------------------------
  // Columns

  /** A column that can be fitted: finite extrema in order, that is, at least one number. */
  predicate Plottable(c: ColumnData)
  {
    c.min.Finite? && c.max.Finite? && c.min.value <= c.max.value
  }

  /** A loaded column with at least one number can be fitted. */
  lemma LoadedColumnPlottable(name: string, data: seq<Cell>)
    requires !AllMissing(data)
    ensures Plottable(MakeColumn(name, data))
  {
    ExtremaOrdered(data);
  }

  /** At least two columns, each of which can be fitted. */
  predicate Fittable(cols: seq<ColumnData>)
  {
    |cols| >= 2 && forall i :: 0 <= i < |cols| ==> Plottable(cols[i])
  }

  /** The data range of a column that can be fitted. */
  function Lo(c: ColumnData): real
    requires Plottable(c)
  {
    c.min.value
  }

  function Hi(c: ColumnData): real
    requires Plottable(c)
  {
    c.max.value
  }

  /** `adjust_x`/`adjust_y` with the range of column `c`. */
  function FitEdges(a: Axis, c: ColumnData): Axis
    requires Plottable(c)
  {
    Fit(a, Lo(c), Hi(c), -1.0, 2.0)
  }

  /** `adjust_z` with the range of column `c`. */
  function FitDepth(a: Axis, c: ColumnData): Axis
    requires Plottable(c)
  {
    Fit(a, Lo(c), Hi(c), 0.0, 1.0)
  }

  /** The axis shows column `c` edge to edge. */
  predicate EdgesFit(a: Axis, c: ColumnData)
    requires Plottable(c)
  {
    Fits(a, Lo(c), Hi(c), -1.0, 2.0)
  }

  /** The axis maps column `c` onto the depth range `[0, 1]`. */
  predicate DepthFits(a: Axis, c: ColumnData)
    requires Plottable(c)
  {
    Fits(a, Lo(c), Hi(c), 0.0, 1.0)
  }

  /** A fitted axis fits its column and keeps a positive scale. */
  lemma FitColumn(a: Axis, c: ColumnData)
    requires Plottable(c) && a.scale > 0.0
    ensures EdgesFit(FitEdges(a, c), c) && FitEdges(a, c).scale > 0.0
    ensures DepthFits(FitDepth(a, c), c) && FitDepth(a, c).scale > 0.0
  {
    FitFits(a, Lo(c), Hi(c), -1.0, 2.0);
    FitFits(a, Lo(c), Hi(c), 0.0, 1.0);
  }

  // ---------------------------------------------------------------------
  // Sizes, draws and events

  /** A render target, known only by its size in pixels. */
  datatype Texture = Texture(width: nat, height: nat)

  /** Which off-screen target a draw went to, or which one the screen shows. */
  datatype Target = LowRes | FullRes

  /** One draw of the points: into which target, of which size, with which transform and uniforms. */
  datatype DrawCall = DrawCall(target: Target, texture: Texture, matrix: seq<seq<real>>, count: nat, pointsize: real, showborder: bool)

  /** The draw to the window: which target it samples and the inverse gamma it applies. */
  datatype ScreenDraw = ScreenDraw(source: Target, invGamma: real)

  /**
   * `(n as f32 * LOWRES_FACTOR) as u32`: a fifth of `n`, rounded down. The
   * cast truncates, so this is the whole part of `n * LOWRES_FACTOR`.
   */
  function LowresSize(n: nat): (r: nat)
    ensures r as real <= n as real * LOWRES_FACTOR < r as real + 1.0
  {
    n / 5
  }

  /** The keys the viewer reacts to; every other key is `OtherKey`. */
  datatype Key = Escape | B | J | K | N | M | R | Left | Right | Up | Down | PageUp | PageDown | OtherKey

  /** The keys that move an axis to another column. */
  predicate IsAxisKey(k: Key)
  {
    k.Left? || k.Right? || k.Up? || k.Down? || k.PageUp? || k.PageDown?
  }

  /** The keys that change how the points look: the border, the point size, the gamma, and the reset. */
  predicate IsStyleKey(k: Key)
  {
    k.B? || k.J? || k.K? || k.N? || k.M? || k.R?
  }

  /** The keys after which the x axis is fitted to its column again. */
  predicate RefitsX(k: Key)
  {
    k.Left? || k.Right? || k.R?
  }

  predicate RefitsY(k: Key)
  {
    k.Up? || k.Down? || k.R?
  }

  predicate RefitsZ(k: Key)
  {
    k.PageUp? || k.PageDown? || k.R?
  }

  /**
   * The window events the viewer reacts to. `Scrolled` carries the zoom
   * factors `SCROLL_BASE^dx` and `SCROLL_BASE^dy` of a line-wise wheel
   * movement; `Unhandled` stands for every event the loop ignores (key
   * releases, other mouse buttons, other scroll phases, ...).
   */
  datatype Event =
    | Closed
    | KeyPressed(key: Key)
    | LeftPressed
    | LeftReleased
    | MouseMoved(x: int, y: int)
    | Scrolled(factorX: real, factorY: real)
    | Resized(width: nat, height: nat)
    | Unhandled

  /** The events the model covers: pointer positions inside the window, positive zoom factors, a non-empty window. */
  predicate WellFormed(ev: Event)
  {
    match ev
    case MouseMoved(x, y) => x >= 0 && y >= 0
    case Scrolled(fx, fy) => fx > 0.0 && fy > 0.0
    case Resized(w, h) => w > 0 && h > 0
    case _ => true
  }

  predicate AllWellFormed(evs: seq<Event>)
  {
    forall i :: 0 <= i < |evs| ==> WellFormed(evs[i])
  }

  /** The event ends the main loop. */
  predicate Quits(ev: Event)
  {
    ev.Closed? || (ev.KeyPressed? && ev.key.Escape?)
  }

  /** The event selects another column for some axis, so the points must be rebuilt. */
  predicate ChangesColumns(ev: Event)
  {
    ev.KeyPressed? && IsAxisKey(ev.key)
  }

  /** The event changes what is drawn and so requests a redraw; a drag only while the button is down. */
  predicate Redraws(ev: Event, mouseDown: bool)
  {
    match ev
    case KeyPressed(k) => IsAxisKey(k) || IsStyleKey(k)
    case MouseMoved(_, _) => mouseDown
    case Scrolled(_, _) => true
    case Resized(_, _) => true
    case _ => false
  }

  // ---------------------------------------------------------------------
  // The view and what one event does to it

  /**
   * The renderer's logical state: the column on each axis, the visual
   * parameters, the mouse, the window size, the three projection axes, and
   * whether a redraw is pending.
   */
  datatype View = View(
    columnX: nat, columnY: nat, columnZ: nat,
    gamma: real, pointsize: real, showborder: bool,
    mouseX: nat, mouseY: nat, mouseDown: bool,
    width: nat, height: nat,
    x: Axis, y: Axis, z: Axis,
    redraw: bool)

  /**
   * What holds of every view the renderer reaches: fittable columns and a
   * valid index for each axis, gamma and point size inside their clamps, a
   * non-empty window, and positive scales.
   */
  predicate ViewValid(cols: seq<ColumnData>, v: View)
  {
    && Fittable(cols)
    && v.columnX < |cols| && v.columnY < |cols| && v.columnZ < |cols|
    && GAMMA_MIN <= v.gamma <= GAMMA_MAX
    && POINTSIZE_MIN <= v.pointsize <= POINTSIZE_MAX
    && v.width > 0 && v.height > 0
    && v.x.scale > 0.0 && v.y.scale > 0.0 && v.z.scale > 0.0
  }

  /**
   * The view `Renderer::new` starts with: columns 0 and 1 on x and y, column
   * 2 on depth when there is one and otherwise column 1 again, each axis
   * fitted from the identity, default visual parameters, the mouse at the
   * origin and up, and a redraw pending.
   */
  function InitialView(cols: seq<ColumnData>, width: nat, height: nat): (v: View)
    requires Fittable(cols) && width > 0 && height > 0
    ensures ViewValid(cols, v)
  {
    var cz := if |cols| > 2 then 2 else 1;
    FitColumn(Identity, cols[0]);
    FitColumn(Identity, cols[1]);
    FitColumn(Identity, cols[cz]);
    View(0, 1, cz, GAMMA_DEFAULT, POINTSIZE_DEFAULT, SHOWBORDER_DEFAULT, 0, 0, false, width, height,
      FitEdges(Identity, cols[0]), FitEdges(Identity, cols[1]), FitDepth(Identity, cols[cz]), true)
  }

  /** The initial view shows each selected column across its axis; a single-valued column keeps the identity scale. */
  lemma InitialViewFits(cols: seq<ColumnData>, width: nat, height: nat)
    requires Fittable(cols) && width > 0 && height > 0
    ensures var v := InitialView(cols, width, height);
      && EdgesFit(v.x, cols[v.columnX]) && EdgesFit(v.y, cols[v.columnY]) && DepthFits(v.z, cols[v.columnZ])
      && (cols[v.columnX].min == cols[v.columnX].max ==> v.x.scale == 1.0)
      && (cols[v.columnY].min == cols[v.columnY].max ==> v.y.scale == 1.0)
      && (cols[v.columnZ].min == cols[v.columnZ].max ==> v.z.scale == 1.0)
  {
    var v := InitialView(cols, width, height);
    FitColumn(Identity, cols[v.columnX]);
    FitColumn(Identity, cols[v.columnY]);
    FitColumn(Identity, cols[v.columnZ]);
  }

  /** B, J, K, N and M: toggle the border, or step the point size or the gamma by its change factor, clamped. */
  function Restyled(cols: seq<ColumnData>, v: View, k: Key): (r: View)
    requires ViewValid(cols, v) && (k.B? || k.J? || k.K? || k.N? || k.M?)
    ensures ViewValid(cols, r)
  {
    PressStaysInRange(v.pointsize, POINTSIZE_CHANGE, POINTSIZE_MIN, POINTSIZE_MAX);
    PressStaysInRange(v.gamma, GAMMA_CHANGE, GAMMA_MIN, GAMMA_MAX);
    match k
    case B => v.(showborder := !v.showborder, redraw := true)
    case J => v.(pointsize := Increase(v.pointsize, POINTSIZE_CHANGE, POINTSIZE_MAX), redraw := true)
    case K => v.(pointsize := Decrease(v.pointsize, POINTSIZE_CHANGE, POINTSIZE_MIN), redraw := true)
    case N => v.(gamma := Increase(v.gamma, GAMMA_CHANGE, GAMMA_MAX), redraw := true)
    case M => v.(gamma := Decrease(v.gamma, GAMMA_CHANGE, GAMMA_MIN), redraw := true)
  }

  /** R: all three axes fitted to their columns again, and the default visual parameters. */
  function ResetView(cols: seq<ColumnData>, v: View): (r: View)
    requires ViewValid(cols, v)
    ensures ViewValid(cols, r)
  {
    FitColumn(v.x, cols[v.columnX]);
    FitColumn(v.y, cols[v.columnY]);
    FitColumn(v.z, cols[v.columnZ]);
    v.(x := FitEdges(v.x, cols[v.columnX]), y := FitEdges(v.y, cols[v.columnY]), z := FitDepth(v.z, cols[v.columnZ]),
       gamma := GAMMA_DEFAULT, pointsize := POINTSIZE_DEFAULT, showborder := SHOWBORDER_DEFAULT, redraw := true)
  }

  /** Column `c` on x, and x fitted to it. */
  function ShowX(cols: seq<ColumnData>, v: View, c: nat): (r: View)
    requires ViewValid(cols, v) && c < |cols|
    ensures ViewValid(cols, r)
  {
    FitColumn(v.x, cols[c]);
    v.(columnX := c, x := FitEdges(v.x, cols[c]), redraw := true)
  }

  /** Column `c` on y, and y fitted to it. */
  function ShowY(cols: seq<ColumnData>, v: View, c: nat): (r: View)
    requires ViewValid(cols, v) && c < |cols|
    ensures ViewValid(cols, r)
  {
    FitColumn(v.y, cols[c]);
    v.(columnY := c, y := FitEdges(v.y, cols[c]), redraw := true)
  }

  /** Column `c` on depth, and depth fitted to it. */
  function ShowZ(cols: seq<ColumnData>, v: View, c: nat): (r: View)
    requires ViewValid(cols, v) && c < |cols|
    ensures ViewValid(cols, r)
  {
    FitColumn(v.z, cols[c]);
    v.(columnZ := c, z := FitDepth(v.z, cols[c]), redraw := true)
  }

  /**
   * The keyboard branch of the event loop: Escape is left to the caller; B,
   * J, K, N and M restyle; R resets; the arrow keys and PageUp/PageDown
   * select the previous or next column for x, y and depth, wrapping around,
   * and re-fit that axis. Every handled key requests a redraw.
   */
  function KeyStep(cols: seq<ColumnData>, v: View, k: Key): (r: View)
    requires ViewValid(cols, v)
    ensures ViewValid(cols, r)
  {
    match k
    case B => Restyled(cols, v, k)
    case J => Restyled(cols, v, k)
    case K => Restyled(cols, v, k)
    case N => Restyled(cols, v, k)
    case M => Restyled(cols, v, k)
    case R => ResetView(cols, v)
    case Left => ShowX(cols, v, Prev(v.columnX, |cols|))
    case Right => ShowX(cols, v, Next(v.columnX, |cols|))
    case Up => ShowY(cols, v, Prev(v.columnY, |cols|))
    case Down => ShowY(cols, v, Next(v.columnY, |cols|))
    case PageUp => ShowZ(cols, v, Prev(v.columnZ, |cols|))
    case PageDown => ShowZ(cols, v, Next(v.columnZ, |cols|))
    case Escape => v
    case OtherKey => v
  }

  /**
   * One event of step 3 of the frame: keys as `KeyStep`; the left button
   * sets and clears `mouseDown`; a pointer move pans both axes by the drag
   * while the button is down, and always records the new position; a line
   * scroll zooms both axes around the pointer; a resize records the window
   * size. What changes what is drawn requests a redraw, and only axis keys
   * change the selected columns.
   */
  function Step(cols: seq<ColumnData>, v: View, ev: Event): (r: View)
    requires ViewValid(cols, v) && WellFormed(ev)
    ensures ViewValid(cols, r)
    ensures r.redraw == (v.redraw || Redraws(ev, v.mouseDown))
    ensures !ChangesColumns(ev) ==> r.columnX == v.columnX && r.columnY == v.columnY && r.columnZ == v.columnZ
  {
    match ev
    case KeyPressed(k) => KeyStep(cols, v, k)
    case LeftPressed => v.(mouseDown := true)
    case LeftReleased => v.(mouseDown := false)
    case MouseMoved(px, py) =>
      if v.mouseDown then
        v.(x := Pan(v.x, PanShift(px - v.mouseX, v.width)), y := Pan(v.y, -PanShift(py - v.mouseY, v.height)),
           mouseX := px, mouseY := py, redraw := true)
      else
        v.(mouseX := px, mouseY := py)
    case Scrolled(fx, fy) =>
      v.(x := Zoom(v.x, fx, CursorX(v.mouseX, v.width)), y := Zoom(v.y, fy, CursorY(v.mouseY, v.height)), redraw := true)
    case Resized(w, h) => v.(width := w, height := h, redraw := true)
    case Closed => v
    case Unhandled => v
  }

  /** The events `evs` handled one after the other. */
  function Run(cols: seq<ColumnData>, v: View, evs: seq<Event>): (r: View)
    requires ViewValid(cols, v) && AllWellFormed(evs)
    ensures ViewValid(cols, r)
    decreases |evs|
  {
    if evs == [] then v else Step(cols, Run(cols, v, evs[..|evs| - 1]), evs[|evs| - 1])
  }

  /** Handling `a` and then `b` is handling `a + b`. */
  lemma {:induction false} RunAppend(cols: seq<ColumnData>, v: View, a: seq<Event>, b: seq<Event>)
    requires ViewValid(cols, v) && AllWellFormed(a) && AllWellFormed(b)
    ensures AllWellFormed(a + b)
    ensures Run(cols, v, a + b) == Run(cols, Run(cols, v, a), b)
    decreases |b|
  {
    assert AllWellFormed(a + b) by {
      forall i | 0 <= i < |a + b|
        ensures WellFormed((a + b)[i])
      {
        if i >= |a| {
          assert (a + b)[i] == b[i - |a|];
        }
      }
    }
    if b != [] {
      var b' := b[..|b| - 1];
      assert (a + b)[..|a + b| - 1] == a + b';
      RunAppend(cols, v, a, b');
    } else {
      assert a + b == a;
    }
  }

  /** A pending redraw stays pending however many events come, and none of them changes the columns unless it is an axis key. */
  lemma {:induction false} RunKeeps(cols: seq<ColumnData>, v: View, evs: seq<Event>)
    requires ViewValid(cols, v) && AllWellFormed(evs)
    ensures v.redraw ==> Run(cols, v, evs).redraw
    ensures (forall i :: 0 <= i < |evs| ==> !ChangesColumns(evs[i])) ==>
      var r := Run(cols, v, evs);
      r.columnX == v.columnX && r.columnY == v.columnY && r.columnZ == v.columnZ
    decreases |evs|
  {
    if evs != [] {
      RunKeeps(cols, v, evs[..|evs| - 1]);
    }
  }

  /** Some event of `evs` ends the main loop. */
  predicate AnyQuits(evs: seq<Event>)
  {
    exists i :: 0 <= i < |evs| && Quits(evs[i])
  }

  /** The events the loop gets to handle: all of `evs`, or those up to and including the first that quits. */
  function Handled(evs: seq<Event>): (h: seq<Event>)
    ensures |h| <= |evs| && h == evs[..|h|]
    ensures h == evs || (h != [] && Quits(h[|h| - 1]))
  {
    if evs == [] then []
    else if Quits(evs[0]) then [evs[0]]
    else [evs[0]] + Handled(evs[1..])
  }

  /** Without a quitting event the loop handles everything; otherwise it stops right after the first one. */
  lemma {:induction false} HandledStopsAtQuit(evs: seq<Event>, i: nat)
    requires i <= |evs| && forall k :: 0 <= k < i ==> !Quits(evs[k])
    ensures i == |evs| ==> Handled(evs) == evs && !AnyQuits(evs)
    ensures i < |evs| && Quits(evs[i]) ==> Handled(evs) == evs[..i + 1] && AnyQuits(evs)
    decreases i
  {
    if i > 0 {
      HandledStopsAtQuit(evs[1..], i - 1);
      assert evs == [evs[0]] + evs[1..];
      if i < |evs| {
        assert evs[..i + 1] == [evs[0]] + evs[1..][..i];
      }
    } else if i == |evs| {
      assert evs == [];
    } else if Quits(evs[0]) {
      assert evs[..1] == [evs[0]];
    }
  }

  // ---------------------------------------------------------------------
  // Properties of the event handling

  /**
   * Only Left/Right move the x column, Up/Down the y column and
   * PageUp/PageDown the depth column; a key that re-fits an axis leaves it
   * showing its (new) column across the window; an axis not re-fitted is
   * left alone.
   */
  lemma KeyRefits(cols: seq<ColumnData>, v: View, k: Key)
    requires ViewValid(cols, v)
    ensures var r := KeyStep(cols, v, k);
      && (RefitsX(k) ==> EdgesFit(r.x, cols[r.columnX]))
      && (RefitsY(k) ==> EdgesFit(r.y, cols[r.columnY]))
      && (RefitsZ(k) ==> DepthFits(r.z, cols[r.columnZ]))
      && (!RefitsX(k) ==> r.x == v.x && r.columnX == v.columnX)
      && (!RefitsY(k) ==> r.y == v.y && r.columnY == v.columnY)
      && (!RefitsZ(k) ==> r.z == v.z && r.columnZ == v.columnZ)
      && r.mouseX == v.mouseX && r.mouseY == v.mouseY && r.mouseDown == v.mouseDown
      && r.width == v.width && r.height == v.height
  {
    var r := KeyStep(cols, v, k);
    FitColumn(v.x, cols[r.columnX]);
    FitColumn(v.y, cols[r.columnY]);
    FitColumn(v.z, cols[r.columnZ]);
  }

  /** Pressing R twice is pressing it once. */
  lemma ResetIdempotent(cols: seq<ColumnData>, v: View)
    requires ViewValid(cols, v)
    ensures KeyStep(cols, KeyStep(cols, v, R), R) == KeyStep(cols, v, R)
  {
    var cx, cy, cz := cols[v.columnX], cols[v.columnY], cols[v.columnZ];
    FitIdempotent(v.x, Lo(cx), Hi(cx), -1.0, 2.0);
    FitIdempotent(v.y, Lo(cy), Hi(cy), -1.0, 2.0);
    FitIdempotent(v.z, Lo(cz), Hi(cz), 0.0, 1.0);
  }

  /** B toggles the border: pressing it twice restores the view, apart from the pending redraw. */
  lemma BTwice(cols: seq<ColumnData>, v: View)
    requires ViewValid(cols, v)
    ensures KeyStep(cols, KeyStep(cols, v, B), B) == v.(redraw := true)
  {
  }

  /**
   * When x shows its column edge to edge and that column has a proper
   * range, Right then Left, or Left then Right, gives back the same view
   * with a redraw requested.
   */
  lemma CycleXUndone(cols: seq<ColumnData>, v: View)
    requires ViewValid(cols, v)
    requires Lo(cols[v.columnX]) < Hi(cols[v.columnX]) && EdgesFit(v.x, cols[v.columnX])
    ensures KeyStep(cols, KeyStep(cols, v, Right), Left) == v.(redraw := true)
    ensures KeyStep(cols, KeyStep(cols, v, Left), Right) == v.(redraw := true)
  {
    var c := cols[v.columnX];
    var lo, hi := Lo(c), Hi(c);
    NextUndoesPrev(v.columnX, |cols|);
    var w1 := KeyStep(cols, v, Right);
    FitFits(w1.x, lo, hi, -1.0, 2.0);
    FitIsUnique(KeyStep(cols, w1, Left).x, v.x, lo, hi, -1.0, 2.0);
    var w2 := KeyStep(cols, v, Left);
    FitFits(w2.x, lo, hi, -1.0, 2.0);
    FitIsUnique(KeyStep(cols, w2, Right).x, v.x, lo, hi, -1.0, 2.0);
  }

  /** Pressing and releasing the button, and moving the pointer with the button up, never request a redraw. */
  lemma PointerAloneNeverRedraws(cols: seq<ColumnData>, v: View, px: nat, py: nat)
    requires ViewValid(cols, v)
    ensures Step(cols, Step(cols, v, LeftPressed), LeftReleased) == v.(mouseDown := false)
    ensures !v.mouseDown ==> Step(cols, v, MouseMoved(px, py)) == v.(mouseX := px, mouseY := py)
  {
  }

  /**
   * A drag in two moves pans as far as the same drag in one move, and
   * dragging back to where it started restores the axes.
   */
  lemma DragComposes(cols: seq<ColumnData>, v: View, x1: nat, y1: nat, x2: nat, y2: nat)
    requires ViewValid(cols, v) && v.mouseDown
    ensures Step(cols, Step(cols, v, MouseMoved(x1, y1)), MouseMoved(x2, y2)) == Step(cols, v, MouseMoved(x2, y2))
    ensures Step(cols, Step(cols, v, MouseMoved(x1, y1)), MouseMoved(v.mouseX, v.mouseY)) == v.(redraw := true)
  {
    DragsCompose(v.x, v.mouseX, x1, x2, v.width);
    DragsCompose(v.x, v.mouseX, x1, v.mouseX, v.width);
    var sy := v.height;
    assert -PanShift(y1 - v.mouseY, sy) + -PanShift(y2 - y1, sy) == -PanShift(y2 - v.mouseY, sy) by {
      DragsCompose(v.y, v.mouseY, y1, y2, sy);
    }
    assert -PanShift(y1 - v.mouseY, sy) + -PanShift(v.mouseY - y1, sy) == 0.0 by {
      DragsCompose(v.y, v.mouseY, y1, v.mouseY, sy);
    }
  }

  /** A scroll keeps the data point under the pointer under the pointer. */
  lemma ScrollKeepsPointer(cols: seq<ColumnData>, v: View, fx: real, fy: real)
    requires ViewValid(cols, v) && fx > 0.0 && fy > 0.0
    ensures var r := Step(cols, v, Scrolled(fx, fy));
      && DataAt(r.x, CursorX(v.mouseX, v.width)) == DataAt(v.x, CursorX(v.mouseX, v.width))
      && DataAt(r.y, CursorY(v.mouseY, v.height)) == DataAt(v.y, CursorY(v.mouseY, v.height))
      && r.x.scale >= SCALE_MIN && r.y.scale >= SCALE_MIN
  {
    ZoomKeepsPoint(v.x, fx, CursorX(v.mouseX, v.width));
    ZoomKeepsPoint(v.y, fy, CursorY(v.mouseY, v.height));
  }

  /**
   * Scrolling one way and then back by the same amount, with the pointer
   * still, restores the axes, unless a zoom ran into the scale floor.
   */
  lemma ScrollUndone(cols: seq<ColumnData>, v: View, fx: real, fy: real)
    requires ViewValid(cols, v) && fx > 0.0 && fy > 0.0
    requires v.x.scale >= SCALE_MIN && v.x.scale * fx >= SCALE_MIN
    requires v.y.scale >= SCALE_MIN && v.y.scale * fy >= SCALE_MIN
    ensures Step(cols, Step(cols, v, Scrolled(fx, fy)), Scrolled(1.0 / fx, 1.0 / fy)) == v.(redraw := true)
  {
    ZoomUndone(v.x, fx, CursorX(v.mouseX, v.width));
    ZoomUndone(v.y, fy, CursorY(v.mouseY, v.height));
  }

  // ---------------------------------------------------------------------
  // What one frame draws

  /** The debounce state: a redraw pending, the low-resolution target on screen, and since when. */
  datatype Debounce = Debounce(redraw: bool, lowres: bool, lowresStart: int)

  /** What a frame draws into the targets, the debounce state after it, and which target the window shows. */
  datatype Plan = Plan(targets: seq<Target>, after: Debounce, shown: Target)

  /**
   * Steps 1 and 2 of a frame at time `now`: a pending redraw goes to the
   * low-resolution target and starts the debounce; a debounce that has run
   * for more than `LOWRES_MILLIS` is promoted to one full-resolution draw;
   * the window then shows the low-resolution target while the debounce runs
   * and the full-resolution one otherwise.
   */
  function PlanFrame(d: Debounce, now: int): (p: Plan)
    ensures !p.after.redraw
    ensures p.targets == [] || p.targets == [LowRes] || p.targets == [FullRes]
    ensures p.shown == (if p.after.lowres then LowRes else FullRes)
  {
    var d1 := if d.redraw then Debounce(false, true, now) else d;
    var promote := d1.lowres && now - d1.lowresStart > LOWRES_MILLIS;
    var d2 := if promote then d1.(lowres := false) else d1;
    Plan((if d.redraw then [LowRes] else []) + (if promote then [FullRes] else []), d2, if d2.lowres then LowRes else FullRes)
  }

  /**
   * A frame with a redraw pending draws low-resolution only and shows it;
   * a frame without one draws full-resolution exactly when a debounce has
   * run for more than `LOWRES_MILLIS`, and shows low resolution exactly
   * while a debounce is still running.
   */
  lemma FrameDebounces(d: Debounce, now: int)
    ensures d.redraw ==> PlanFrame(d, now) == Plan([LowRes], Debounce(false, true, now), LowRes)
    ensures !d.redraw ==>
      && (PlanFrame(d, now).targets == [FullRes] <==> d.lowres && now - d.lowresStart > LOWRES_MILLIS)
      && (PlanFrame(d, now).shown.LowRes? <==> d.lowres && now - d.lowresStart <= LOWRES_MILLIS)
      && PlanFrame(d, now).after.lowresStart == d.lowresStart
  {
  }

  /** The number of full-resolution draws over frames at `times` with no event in between. */
  function FullDraws(d: Debounce, times: seq<int>): nat
    decreases |times|
  {
    if times == [] then 0
    else
      var p := PlanFrame(d, times[0]);
      (if p.targets == [FullRes] then 1 else 0) + FullDraws(p.after, times[1..])
  }

  /**
   * Over quiet frames, a running debounce is promoted to exactly one
   * full-resolution draw once a frame comes more than `LOWRES_MILLIS` after
   * its start, and never more than one.
   */
  lemma {:induction false} QuietFramesDrawOnce(d: Debounce, times: seq<int>)
    requires !d.redraw
    ensures FullDraws(d, times) ==
      if d.lowres && exists i :: 0 <= i < |times| && times[i] - d.lowresStart > LOWRES_MILLIS then 1 else 0
    decreases |times|
  {
    if times != [] {
      var p := PlanFrame(d, times[0]);
      QuietFramesDrawOnce(p.after, times[1..]);
      if d.lowres && times[0] - d.lowresStart <= LOWRES_MILLIS {
        assert p.after == d;
        if exists i :: 0 <= i < |times| && times[i] - d.lowresStart > LOWRES_MILLIS {
          var i :| 0 <= i < |times| && times[i] - d.lowresStart > LOWRES_MILLIS;
          assert times[1..][i - 1] == times[i];
        }
        if exists i :: 0 <= i < |times[1..]| && times[1..][i] - d.lowresStart > LOWRES_MILLIS {
          var i :| 0 <= i < |times[1..]| && times[1..][i] - d.lowresStart > LOWRES_MILLIS;
          assert times[i + 1] == times[1..][i];
        }
      }
    }
  }

  /**
   * A redraw requested at 0 shows low resolution until 500 ms have passed;
   * the first frame after that draws full resolution once, and later quiet
   * frames draw nothing.
   */
  lemma DebounceTimeline()
    ensures PlanFrame(Debounce(true, false, 0), 0) == Plan([LowRes], Debounce(false, true, 0), LowRes)
    ensures PlanFrame(Debounce(false, true, 0), 500) == Plan([], Debounce(false, true, 0), LowRes)
    ensures PlanFrame(Debounce(false, true, 0), 550) == Plan([FullRes], Debounce(false, false, 0), FullRes)
    ensures PlanFrame(Debounce(false, false, 0), 600) == Plan([], Debounce(false, false, 0), FullRes)
  {
  }

  /**
   * The sleep that caps the frame rate: just long enough that the frame lasts
   * `FRAME_MILLIS`, nothing if it already did, and never longer than one frame.
   */
  function SleepMillis(elapsed: nat): (sleep: nat)
    ensures sleep <= FRAME_MILLIS
    ensures elapsed + sleep >= FRAME_MILLIS
    ensures sleep == 0 || elapsed + sleep == FRAME_MILLIS
  {
    if elapsed < FRAME_MILLIS then FRAME_MILLIS - elapsed else 0
  }

  /** The running extrema of four cells, unfolded. */
  lemma FourCells(s: seq<Cell>)
    requires |s| == 4
    ensures Lowest(s) == MinCell(MinCell(MinCell(MinCell(PosInf, s[0]), s[1]), s[2]), s[3])
    ensures Highest(s) == MaxCell(MaxCell(MaxCell(MaxCell(NegInf, s[0]), s[1]), s[2]), s[3])
  {
    assert Lowest(s[..1]) == MinCell(PosInf, s[0]) && Highest(s[..1]) == MaxCell(NegInf, s[0]) by {
      assert s[..1][..0] == [];
    }
    assert Lowest(s[..2]) == MinCell(Lowest(s[..1]), s[1]) && Highest(s[..2]) == MaxCell(Highest(s[..1]), s[1]) by {
      assert s[..2][..1] == s[..1];
    }
    assert Lowest(s[..3]) == MinCell(Lowest(s[..2]), s[2]) && Highest(s[..3]) == MaxCell(Highest(s[..2]), s[2]) by {
      assert s[..3][..2] == s[..2];
    }
    assert s[..3] == s[..|s| - 1];
  }

  /** The end-to-end example: three four-row columns, the last one constant. */
  function ExampleColumns(): seq<ColumnData>
  {
    [MakeColumn("a", [Num(0.0), Num(1.0), Num(2.0), Num(3.0)]),
     MakeColumn("b", [Num(0.0), Num(2.0), Num(4.0), Num(6.0)]),
     MakeColumn("c", [Num(1.0), Num(1.0), Num(1.0), Num(1.0)])]
  }

  /** The example's points are its rows. */
  lemma ExamplePoints()
    ensures Data.PointsFromColumns(ExampleColumns(), 0, 1, 2) == [
      Data.Point(Num(0.0), Num(0.0), Num(1.0)), Data.Point(Num(1.0), Num(2.0), Num(1.0)),
      Data.Point(Num(2.0), Num(4.0), Num(1.0)), Data.Point(Num(3.0), Num(6.0), Num(1.0))]
  {
    var ps := Data.PointsFromColumns(ExampleColumns(), 0, 1, 2);
    assert |ps| == 4;
  }

  /** The example's start view fits each column to its axis interval. */
  lemma ExampleStart()
    ensures var cols := ExampleColumns();
      && Fittable(cols)
      && var v := InitialView(cols, 800, 600);
      && v.columnZ == 2
      && v.x == Axis(2.0 / 3.0, -1.0) && v.y == Axis(1.0 / 3.0, -1.0) && v.z == Axis(1.0, -1.0)
  {
    var cols := ExampleColumns();
    FourCells([Num(0.0), Num(1.0), Num(2.0), Num(3.0)]);
    FourCells([Num(0.0), Num(2.0), Num(4.0), Num(6.0)]);
    FourCells([Num(1.0), Num(1.0), Num(1.0), Num(1.0)]);
    assert cols[0].min == Finite(0.0) && cols[0].max == Finite(3.0);
    assert cols[1].min == Finite(0.0) && cols[1].max == Finite(6.0);
    assert cols[2].min == Finite(1.0) && cols[2].max == Finite(1.0);
  }

  /** Resizing to 400x300 gives targets of 400x300 and 80x60. */
  lemma ExampleResize()
    ensures LowresSize(400) == 80 && LowresSize(300) == 60
  {
  }

  // ---------------------------------------------------------------------
  // The renderer

  /** The viewport engine's state, minus the GPU handles. */
  class Renderer {
    const columns: seq<ColumnData>
    const m: nat
    const n: nat
    const projection: Projection
    var width: nat
    var height: nat
    var columnX: nat
    var columnY: nat
    var columnZ: nat
    var gamma: real
    var pointsize: real
    var showborder: bool
    var mouseX: nat
    var mouseY: nat
    var mouseDown: bool
    var lastFrame: int
    var redraw: bool
    var lowres: bool
    var lowresStart: int
    var points: seq<Data.Point>
    var textureStd: Texture
    var textureLowres: Texture

    /** The logical state the event handling acts on. */
    function State(): View
      reads this, projection
    {
      View(columnX, columnY, columnZ, gamma, pointsize, showborder, mouseX, mouseY, mouseDown, width, height,
        projection.X(), projection.Y(), projection.Z(), redraw)
    }

    /** The debounce state the drawing acts on. */
    function Timer(): Debounce
      reads this`redraw, this`lowres, this`lowresStart
    {
      Debounce(redraw, lowres, lowresStart)
    }

    /** The object invariant: a valid view, and render targets of the window's size and of a fifth of it. */
    predicate Valid()
      reads this, projection
    {
      && m == |columns|
      && ViewValid(columns, State())
      && textureStd == Texture(width, height)
      && textureLowres == Texture(LowresSize(width), LowresSize(height))
    }

    /** The vertex buffer holds the points of the columns now selected. */
    predicate GeometryCurrent()
      reads this
    {
      columnX < |columns| && columnY < |columns| && columnZ < |columns| &&
      points == Data.PointsFromColumns(columns, columnX, columnY, columnZ)
    }

    /**
     * `Renderer::new` at time `now`: the initial view, no debounce running,
     * the points of the selected columns in the vertex buffer, and targets of
     * the window's size.
     */
    constructor (width: nat, height: nat, columns: seq<ColumnData>, now: int)
      requires width > 0 && height > 0 && Fittable(columns)
      ensures Valid() && GeometryCurrent() && fresh(projection)
      ensures this.columns == columns && n == |points|
      ensures State() == InitialView(columns, width, height)
      ensures Timer() == Debounce(true, false, now) && lastFrame == now
    {
      var cz := if |columns| > 2 then 2 else 1;
      var pts := Data.PointsFromColumns(columns, 0, 1, cz);
      FitColumn(Identity, columns[0]);
      FitColumn(Identity, columns[1]);
      FitColumn(Identity, columns[cz]);
      var p := new Projection();
      p.AdjustX(Lo(columns[0]), Hi(columns[0]));
      p.AdjustY(Lo(columns[1]), Hi(columns[1]));
      p.AdjustZ(Lo(columns[cz]), Hi(columns[cz]));
      this.columns := columns;
      m := |columns|;
      n := |pts|;
      projection := p;
      this.width, this.height := width, height;
      columnX, columnY, columnZ := 0, 1, cz;
      gamma, pointsize, showborder := GAMMA_DEFAULT, POINTSIZE_DEFAULT, SHOWBORDER_DEFAULT;
      mouseX, mouseY, mouseDown := 0, 0, false;
      lastFrame := now;
      redraw, lowres, lowresStart := true, false, now;
      points := pts;
      textureStd := Texture(width, height);
      textureLowres := Texture(LowresSize(width), LowresSize(height));
    }

    /** The low-resolution draw: the low-resolution target, point size scaled down with it. */
    function LowResDraw(): DrawCall
      reads this, projection
    {
      DrawCall(LowRes, textureLowres, projection.Matrix(), n, pointsize * LOWRES_FACTOR, showborder)
    }

    /** The full-resolution draw: the window-sized target at the full point size. */
    function FullResDraw(): DrawCall
      reads this, projection
    {
      DrawCall(FullRes, textureStd, projection.Matrix(), n, pointsize, showborder)
    }

    /**
     * The low-resolution draw goes to the texture a fifth of the window's
     * size with smaller points; the full-resolution draw goes to the
     * window-sized texture with the point size inside its clamps.
     */
    lemma DrawTargets()
      requires Valid()
      ensures LowResDraw().texture == Texture(LowresSize(width), LowresSize(height))
      ensures 0.0 < LowResDraw().pointsize < pointsize
      ensures FullResDraw().texture == Texture(width, height)
      ensures POINTSIZE_MIN <= FullResDraw().pointsize <= POINTSIZE_MAX
    {
    }

    /** Steps 1 and 2 of one frame at time `now`, as `PlanFrame` says. */
    method RenderStep(now: int) returns (draws: seq<DrawCall>, screen: ScreenDraw)
      requires Valid()
      modifies this`redraw, this`lowres, this`lowresStart
      ensures Valid() && State() == old(State()).(redraw := false)
      ensures var p := PlanFrame(old(Timer()), now);
        && Timer() == p.after
        && |draws| == |p.targets|
        && (forall i :: 0 <= i < |draws| ==> draws[i] == if p.targets[i].LowRes? then old(LowResDraw()) else old(FullResDraw()))
        && screen == ScreenDraw(p.shown, 1.0 / gamma)
    {
      draws := [];
      if redraw {
        draws := draws + [LowResDraw()];
        redraw := false;
        lowres := true;
        lowresStart := now;
      }
      if lowres && now - lowresStart > LOWRES_MILLIS {
        draws := draws + [FullResDraw()];
        lowres := false;
      }
      screen := ScreenDraw(if lowres then LowRes else FullRes, 1.0 / gamma);
    }

    /** Left and Right: the previous or next column on x, wrapping around, and x fitted to it. */
    method SelectX(key: Key)
      requires Valid() && (key.Left? || key.Right?)
      modifies this`columnX, this`redraw, projection`scaleX, projection`deltaX
      ensures Valid()
      ensures State() == ShowX(columns, old(State()), if key.Left? then Prev(old(columnX), m) else Next(old(columnX), m))
    {
      ghost var target := ShowX(columns, State(), if key.Left? then Prev(columnX, m) else Next(columnX, m));
      if key.Left? {
        if columnX == 0 {
          columnX := m;
        }
        columnX := columnX - 1;
      } else {
        columnX := columnX + 1;
        if columnX >= m {
          columnX := 0;
        }
      }
      projection.AdjustX(Lo(columns[columnX]), Hi(columns[columnX]));
      redraw := true;
      assert State() == target;
    }

    /** Up and Down: the previous or next column on y, wrapping around, and y fitted to it. */
    method SelectY(key: Key)
      requires Valid() && (key.Up? || key.Down?)
      modifies this`columnY, this`redraw, projection`scaleY, projection`deltaY
      ensures Valid()
      ensures State() == ShowY(columns, old(State()), if key.Up? then Prev(old(columnY), m) else Next(old(columnY), m))
    {
      ghost var target := ShowY(columns, State(), if key.Up? then Prev(columnY, m) else Next(columnY, m));
      if key.Up? {
        if columnY == 0 {
          columnY := m;
        }
        columnY := columnY - 1;
      } else {
        columnY := columnY + 1;
        if columnY >= m {
          columnY := 0;
        }
      }
      projection.AdjustY(Lo(columns[columnY]), Hi(columns[columnY]));
      redraw := true;
      assert State() == target;
    }

    /** PageUp and PageDown: the previous or next column on depth, wrapping around, and depth fitted to it. */
    method SelectZ(key: Key)
      requires Valid() && (key.PageUp? || key.PageDown?)
      modifies this`columnZ, this`redraw, projection`scaleZ, projection`deltaZ
      ensures Valid()
      ensures State() == ShowZ(columns, old(State()), if key.PageUp? then Prev(old(columnZ), m) else Next(old(columnZ), m))
    {
      ghost var target := ShowZ(columns, State(), if key.PageUp? then Prev(columnZ, m) else Next(columnZ, m));
      if key.PageUp? {
        if columnZ == 0 {
          columnZ := m;
        }
        columnZ := columnZ - 1;
      } else {
        columnZ := columnZ + 1;
        if columnZ >= m {
          columnZ := 0;
        }
      }
      projection.AdjustZ(Lo(columns[columnZ]), Hi(columns[columnZ]));
      redraw := true;
      assert State() == target;
    }

    /** B, J, K, N and M: toggle the border, or step the point size or the gamma within its clamp. */
    method Restyle(key: Key)
      requires Valid() && (key.B? || key.J? || key.K? || key.N? || key.M?)
      modifies this`showborder, this`pointsize, this`gamma, this`redraw
      ensures Valid()
      ensures State() == Restyled(columns, old(State()), key)
    {
      match key {
        case B =>
          showborder := !showborder;
        case J =>
          pointsize := Min(pointsize * POINTSIZE_CHANGE, POINTSIZE_MAX);
        case K =>
          pointsize := Max(pointsize / POINTSIZE_CHANGE, POINTSIZE_MIN);
        case N =>
          gamma := Min(gamma * GAMMA_CHANGE, GAMMA_MAX);
        case M =>
          gamma := Max(gamma / GAMMA_CHANGE, GAMMA_MIN);
      }
      redraw := true;
    }

    /** R: fit all three axes to their columns and restore the default visual parameters. */
    method Reset()
      requires Valid()
      modifies this`gamma, this`pointsize, this`showborder, this`redraw,
        projection`scaleX, projection`deltaX, projection`scaleY, projection`deltaY, projection`scaleZ, projection`deltaZ
      ensures Valid()
      ensures State() == ResetView(columns, old(State()))
    {
      ghost var target := ResetView(columns, State());
      projection.AdjustX(Lo(columns[columnX]), Hi(columns[columnX]));
      projection.AdjustY(Lo(columns[columnY]), Hi(columns[columnY]));
      projection.AdjustZ(Lo(columns[columnZ]), Hi(columns[columnZ]));
      gamma := GAMMA_DEFAULT;
      pointsize := POINTSIZE_DEFAULT;
      showborder := SHOWBORDER_DEFAULT;
      redraw := true;
      assert State() == target;
    }

    /** A key press of step 3: the view changes as `KeyStep` says; Escape quits and the axis keys ask for new points. */
    method HandleKey(key: Key) returns (quit: bool, rebuild: bool)
      requires Valid()
      modifies this`columnX, this`columnY, this`columnZ, this`gamma, this`pointsize, this`showborder, this`redraw, projection
      ensures Valid()
      ensures State() == KeyStep(columns, old(State()), key)
      ensures quit <==> key.Escape?
      ensures rebuild <==> IsAxisKey(key)
    {
      quit, rebuild := key.Escape?, IsAxisKey(key);
      match key {
        case Left => SelectX(key);
        case Right => SelectX(key);
        case Up => SelectY(key);
        case Down => SelectY(key);
        case PageUp => SelectZ(key);
        case PageDown => SelectZ(key);
        case R => Reset();
        case B => Restyle(key);
        case J => Restyle(key);
        case K => Restyle(key);
        case N => Restyle(key);
        case M => Restyle(key);
        case Escape =>
        case OtherKey =>
      }
    }

    /** A pointer move: with the button down, pan both axes by the drag; always record the new position. */
    method MovePointer(posx: nat, posy: nat)
      requires Valid()
      modifies this`mouseX, this`mouseY, this`redraw, projection`deltaX, projection`deltaY
      ensures Valid()
      ensures State() == Step(columns, old(State()), MouseMoved(posx, posy))
    {
      if mouseDown {
        var dx := posx - mouseX;
        var dy := posy - mouseY;
        projection.MoveX(dx, width);
        projection.MoveY(dy, height);
        redraw := true;
      }
      mouseX := posx;
      mouseY := posy;
    }

    /** A line scroll: zoom both axes around the pointer. */
    method Scroll(fx: real, fy: real)
      requires Valid() && fx > 0.0 && fy > 0.0
      modifies this`redraw, projection`scaleX, projection`deltaX, projection`scaleY, projection`deltaY
      ensures Valid()
      ensures State() == Step(columns, old(State()), Scrolled(fx, fy))
    {
      projection.ScrollX(fx, mouseX, width);
      projection.ScrollY(fy, mouseY, height);
      redraw := true;
    }

    /** A resize: record the window size and reallocate both targets for it. */
    method Resize(w: nat, h: nat)
      requires Valid() && w > 0 && h > 0
      modifies this`width, this`height, this`textureStd, this`textureLowres, this`redraw
      ensures Valid()
      ensures State() == Step(columns, old(State()), Resized(w, h))
      ensures textureStd == Texture(w, h) && textureLowres == Texture(LowresSize(w), LowresSize(h))
    {
      width := w;
      height := h;
      textureStd := Texture(width, height);
      textureLowres := Texture(LowresSize(width), LowresSize(height));
      redraw := true;
    }

    /**
     * One event of step 3: the view changes as `Step` says, Closed and
     * Escape quit, and the axis keys ask for new points.
     */
    method HandleEvent(ev: Event) returns (quit: bool, rebuild: bool)
      requires Valid() && WellFormed(ev)
      modifies this`columnX, this`columnY, this`columnZ, this`gamma, this`pointsize, this`showborder, this`redraw,
        this`mouseX, this`mouseY, this`mouseDown, this`width, this`height, this`textureStd, this`textureLowres, projection
      ensures Valid()
      ensures State() == Step(columns, old(State()), ev)
      ensures quit <==> Quits(ev)
      ensures rebuild <==> ChangesColumns(ev)
    {
      quit, rebuild := false, false;
      match ev {
        case Closed =>
          quit := true;
        case KeyPressed(key) =>
          quit, rebuild := HandleKey(key);
        case LeftPressed =>
          mouseDown := true;
        case LeftReleased =>
          mouseDown := false;
        case MouseMoved(posx, posy) =>
          MovePointer(posx, posy);
        case Scrolled(fx, fy) =>
          Scroll(fx, fy);
        case Resized(w, h) =>
          Resize(w, h);
        case Unhandled =>
      }
    }

    /**
     * Step 3: handle the events in order until one quits; `count` is how
     * many were handled before the quitting one, or all of them. The view
     * becomes `Run` of the events handled, and without an axis key among
     * them the columns are the same.
     */
    method PollEvents(events: seq<Event>) returns (quit: bool, rebuild: bool, ghost count: nat)
      requires Valid() && AllWellFormed(events)
      modifies this`columnX, this`columnY, this`columnZ, this`gamma, this`pointsize, this`showborder, this`redraw,
        this`mouseX, this`mouseY, this`mouseDown, this`width, this`height, this`textureStd, this`textureLowres, projection
      ensures Valid()
      ensures count <= |events| && forall k :: 0 <= k < count ==> !Quits(events[k])
      ensures quit ==> count < |events| && Quits(events[count])
      ensures !quit ==> count == |events|
      ensures State() == Run(columns, old(State()), events[..if quit then count + 1 else count])
      ensures !rebuild ==> columnX == old(columnX) && columnY == old(columnY) && columnZ == old(columnZ)
    {
      rebuild := false;
      var i := 0;
      while i < |events|
        invariant 0 <= i <= |events|
        invariant Valid()
        invariant forall k :: 0 <= k < i ==> !Quits(events[k])
        invariant State() == Run(columns, old(State()), events[..i])
        invariant !rebuild ==> columnX == old(columnX) && columnY == old(columnY) && columnZ == old(columnZ)
      {
        var q, r := HandleEvent(events[i]);
        assert events[..i + 1][..i] == events[..i];
        rebuild := rebuild || r;
        if q {
          return true, rebuild, i;
        }
        i := i + 1;
      }
      return false, rebuild, i;
    }

    /**
     * Steps 3 and 4: handle the events as `PollEvents` does, so that the view
     * becomes `Run` of the `Handled` events, and, unless one quit, rebuild the
     * vertex buffer for the columns now selected.
     */
    method HandleEvents(events: seq<Event>) returns (quit: bool)
      requires Valid() && GeometryCurrent() && AllWellFormed(events)
      modifies this`columnX, this`columnY, this`columnZ, this`gamma, this`pointsize, this`showborder, this`redraw,
        this`mouseX, this`mouseY, this`mouseDown, this`width, this`height, this`textureStd, this`textureLowres,
        this`points, projection
      ensures Valid()
      ensures quit == AnyQuits(events)
      ensures State() == Run(columns, old(State()), Handled(events))
      ensures !quit ==> GeometryCurrent()
    {
      var rebuild;
      ghost var count;
      quit, rebuild, count := PollEvents(events);
      HandledStopsAtQuit(events, count);
      assert !quit ==> events[..count] == events;
      if !quit && rebuild {
        points := Data.PointsFromColumns(columns, columnX, columnY, columnZ);
      }
    }

    /**
     * Step 5: with the frame begun at `lastFrame` and `now` the time after
     * the events, sleep for what is left of `FRAME_MILLIS`; the next frame
     * begins when the sleep ends.
     */
    method Throttle(now: int) returns (sleep: nat)
      requires now >= lastFrame
      modifies this`lastFrame
      ensures sleep == SleepMillis(now - old(lastFrame))
      ensures lastFrame == now + sleep
    {
      var frameDelta := now - lastFrame;
      if frameDelta < FRAME_MILLIS {
        sleep := FRAME_MILLIS - frameDelta;
      } else {
        sleep := 0;
      }
      lastFrame := now + sleep;
    }

    /** Steps 3 to 5 of one frame: handle `events` and, unless one ended the loop, throttle at `later`. */
    method EndFrame(events: seq<Event>, later: int) returns (quit: bool, sleep: nat)
      requires Valid() && GeometryCurrent() && AllWellFormed(events)
      requires later >= lastFrame
      modifies this`columnX, this`columnY, this`columnZ, this`gamma, this`pointsize, this`showborder, this`redraw,
        this`mouseX, this`mouseY, this`mouseDown, this`width, this`height, this`textureStd, this`textureLowres,
        this`points, this`lastFrame, projection
      ensures Valid()
      ensures quit == AnyQuits(events)
      ensures State() == Run(columns, old(State()), Handled(events))
      ensures !quit ==> GeometryCurrent()
      ensures !quit ==> sleep == SleepMillis(later - old(lastFrame)) && lastFrame == later + sleep
    {
      quit := HandleEvents(events);
      sleep := 0;
      if !quit {
        sleep := Throttle(later);
      }
    }

    /**
     * One iteration of `run_forever`: render at `now`, handle `events`, and,
     * unless an event ended the loop, throttle at `later`.
     */
    method RunFrame(now: int, events: seq<Event>, later: int) returns (draws: seq<DrawCall>, screen: ScreenDraw, quit: bool, sleep: nat)
      requires Valid() && GeometryCurrent() && AllWellFormed(events)
      requires later >= lastFrame
      modifies this, projection
      ensures Valid()
      ensures var p := PlanFrame(old(Timer()), now);
        && |draws| == |p.targets|
        && (forall i :: 0 <= i < |draws| ==> draws[i] == if p.targets[i].LowRes? then old(LowResDraw()) else old(FullResDraw()))
        && screen == ScreenDraw(p.shown, 1.0 / old(gamma))
        && lowres == p.after.lowres && lowresStart == p.after.lowresStart
      ensures quit == AnyQuits(events)
      ensures State() == Run(columns, old(State()).(redraw := false), Handled(events))
      ensures !quit ==> GeometryCurrent()
      ensures !quit ==> sleep == SleepMillis(later - old(lastFrame)) && lastFrame == later + sleep
    {
      draws, screen := RenderStep(now);
      quit, sleep := EndFrame(events, later);
    }
  }
}
