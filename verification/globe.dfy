/** The legacy globe (assets/js/flux.js): the camera's interaction state,
    driven by mouse, wheel and keyboard events and eased toward its targets
    on every animation frame, plus that file's own `coordToPoint`,
    `midCoord` and `addFlux`.

    The module-level variables of the script become the fields of one
    `State` record and every handler becomes a function from state to
    state. The `mousemove`, `mouseup` and `mouseout` listeners that
    `onMouseDown` registers and `onMouseUp` removes are modelled by the
    `dragging` flag. */
module Globe {
  import opened Numerics
  import opened Sphere
  import Flux

  datatype Option<T> = None | Some(value: T)

  /** A `{x, y}` pair of the script. */
  datatype XY = XY(x: real, y: real)

  /** The interaction variables of the script, `overRenderer` starting
      `undefined` (falsy), and whether a drag is in progress. */
  datatype State = State(
    rotation: XY,
    target: XY,
    targetOnDown: XY,
    mouse: XY,
    mouseOnDown: XY,
    distance: real,
    distanceTarget: real,
    curZoomSpeed: real,
    overRenderer: bool,
    dragging: bool)

  /** The radius of the planet's `SphereGeometry`. */
  const PlanetRadius: real := 200.0

  /** The bounds `zoom` keeps the camera's target distance in. */
  const MinDistance: real := 500.0
  const MaxDistance: real := 2000.0

  /** The camera's target distance is within the zoom bounds. */
  predicate Settled(g: State) {
    MinDistance <= g.distanceTarget <= MaxDistance
  }

  /** `Math.PI` is positive: the one fact about it that the pole bounds and
      the angle arithmetic rely on. */
  predicate PiPositive(m: Math) {
    m.pi > 0.0
  }

  /** What every reachable state satisfies: the zoom speed is never changed
      from 0, and the target, the target saved at mouse-down and the
      rotation never tilt past a pole. */
  predicate Inv(m: Math, g: State) {
    && g.curZoomSpeed == 0.0
    && -m.pi / 2.0 <= g.target.y <= m.pi / 2.0
    && -m.pi / 2.0 <= g.targetOnDown.y <= m.pi / 2.0
    && -m.pi / 2.0 <= g.rotation.y <= m.pi / 2.0
  }

  /** The state when the script loads. Its target distance of 100000 lies
      outside the zoom bounds until the first frame clamps it. */
  function Initial(m: Math): (g: State)
    ensures PiPositive(m) ==> Inv(m, g)
    ensures !Settled(g)
    ensures g.distance == g.distanceTarget
  {
    State(XY(0.0, 0.0), XY(m.pi * 3.0 / 2.0, m.pi / 6.0), XY(0.0, 0.0), XY(0.0, 0.0), XY(0.0, 0.0),
          100000.0, 100000.0, 0.0, false, false)
  }

  /** `if (v > hi) v = hi; if (v < lo) v = lo;`, the order both clamps of the
      script use. */
  function Clamp(v: real, lo: real, hi: real): (r: real)
    ensures lo <= hi ==> lo <= r <= hi
    ensures lo <= v <= hi ==> r == v
    ensures r == v || r == lo || r == hi
    ensures lo <= hi && v > hi ==> r == hi
    ensures v < lo ==> r == lo
  {
    var a := if v > hi then hi else v;
    if a < lo then lo else a
  }

  /** `r` is what `zoom(delta)` makes of `g`: the target distance moves
      `delta` closer, landing on the bound it crossed when it leaves
      [500, 2000], and nothing else changes. */
  predicate ZoomedBy(g: State, delta: real, r: State) {
    && r == g.(distanceTarget := r.distanceTarget)
    && (MinDistance <= g.distanceTarget - delta <= MaxDistance ==> r.distanceTarget == g.distanceTarget - delta)
    && (g.distanceTarget - delta < MinDistance ==> r.distanceTarget == MinDistance)
    && (g.distanceTarget - delta > MaxDistance ==> r.distanceTarget == MaxDistance)
  }

  /** `zoom(delta)`: moves the target distance `delta` closer, clamped to
      [500, 2000]. The clamp only engages when the unclamped value falls
      outside the bounds, on the bound it crossed; nothing else changes. */
  function Zoom(g: State, delta: real): (r: State)
    ensures Settled(r)
    ensures ZoomedBy(g, delta, r)
  {
    g.(distanceTarget := Clamp(g.distanceTarget - delta, MinDistance, MaxDistance))
  }

  /** Zooming by more never leaves the camera target farther away. */
  lemma ZoomMonotone(g: State, d1: real, d2: real)
    requires d1 <= d2
    ensures Zoom(g, d2).distanceTarget <= Zoom(g, d1).distanceTarget
  {
  }

  /** Zooming in one step and out one step is the identity when the first
      step does not hit the near bound. */
  lemma ZoomInOut(g: State, delta: real)
    requires Settled(g) && delta >= 0.0
    requires g.distanceTarget - delta >= MinDistance
    ensures Zoom(Zoom(g, delta), -delta) == g
  {
  }

  /** `onMouseDown`: remembers where the drag started and which target was
      current, and starts listening to mouse moves. */
  function OnMouseDown(g: State, clientX: real, clientY: real): (r: State)
    ensures r.dragging
    ensures r.targetOnDown == g.target && r.target == g.target
    ensures r.mouseOnDown == XY(-clientX, clientY)
    ensures r.(targetOnDown := g.targetOnDown, mouseOnDown := g.mouseOnDown, dragging := g.dragging) == g
  {
    g.(mouseOnDown := XY(-clientX, clientY), targetOnDown := g.target, dragging := true)
  }

  /** `onMouseMove`: the target follows the mouse's offset from where the
      drag started, scaled by the camera distance; its vertical component is
      clamped to the poles. Only the mouse and the target change. */
  function OnMouseMove(m: Math, g: State, clientX: real, clientY: real): (r: State)
    ensures PiPositive(m) ==> -m.pi / 2.0 <= r.target.y <= m.pi / 2.0
    ensures r.mouse == XY(-clientX, clientY)
    ensures r == g.(mouse := r.mouse, target := r.target)
    ensures r.target.y != DragTarget(g, r.mouse).y ==> r.target.y == m.pi / 2.0 || r.target.y == -m.pi / 2.0
    ensures r.target.x == DragTarget(g, r.mouse).x
    ensures var raw := DragTarget(g, r.mouse);
            PiPositive(m) ==>
              && (-m.pi / 2.0 <= raw.y <= m.pi / 2.0 ==> r.target.y == raw.y)
              && (raw.y > m.pi / 2.0 ==> r.target.y == m.pi / 2.0)
              && (raw.y < -m.pi / 2.0 ==> r.target.y == -m.pi / 2.0)
  {
    var mouse := XY(-clientX, clientY);
    var raw := DragTarget(g, mouse);
    g.(mouse := mouse, target := XY(raw.x, Clamp(raw.y, -m.pi / 2.0, m.pi / 2.0)))
  }

  /** The unclamped target for mouse position `mouse`:
      `targetOnDown + (mouse - mouseOnDown) * 0.005 * distance / 1000`. */
  function DragTarget(g: State, mouse: XY): XY {
    var zoomDamp := g.distance / 1000.0;
    XY(g.targetOnDown.x + (mouse.x - g.mouseOnDown.x) * 0.005 * zoomDamp,
       g.targetOnDown.y + (mouse.y - g.mouseOnDown.y) * 0.005 * zoomDamp)
  }

  /** Dragging the mouse back to where the drag started puts the target
      back where it was when the drag started. */
  lemma {:induction false} DragBackRestores(m: Math, g: State)
    requires PiPositive(m)
    requires -m.pi / 2.0 <= g.targetOnDown.y <= m.pi / 2.0
    ensures OnMouseMove(m, g, -g.mouseOnDown.x, g.mouseOnDown.y).target == g.targetOnDown
  {
    var raw := DragTarget(g, g.mouseOnDown);
    ZeroTimes(0.005 * (g.distance / 1000.0));
    assert (g.mouseOnDown.x - g.mouseOnDown.x) * 0.005 * (g.distance / 1000.0) == 0.0;
    assert (g.mouseOnDown.y - g.mouseOnDown.y) * 0.005 * (g.distance / 1000.0) == 0.0;
    assert raw == g.targetOnDown;
  }

  lemma ZeroTimes(k: real)
    ensures 0.0 * k == 0.0
  {
  }

  /** `onMouseUp`: the drag ends and mouse moves are ignored again. */
  function OnMouseUp(g: State): (r: State)
    ensures !r.dragging
    ensures r == g.(dragging := false)
  {
    g.(dragging := false)
  }

  /** The container's `mouseover` listener. */
  function OnMouseOver(g: State): (r: State)
    ensures r.overRenderer && r == g.(overRenderer := true)
  {
    g.(overRenderer := true)
  }

  /** A `mouseout` of the container runs both of its listeners: the mouse
      is no longer over the renderer, and `onMouseOut` ends any drag. */
  function OnMouseOut(g: State): (r: State)
    ensures !r.overRenderer && !r.dragging
    ensures r == g.(overRenderer := false, dragging := false)
  {
    OnMouseUp(g).(overRenderer := false)
  }

  /** `onMouseWheel`: zooms by 0.3 of the wheel's vertical delta, but only
      while the mouse is over the renderer. */
  function OnMouseWheel(g: State, wheelDeltaY: real): (r: State)
    ensures !g.overRenderer ==> r == g
    ensures g.overRenderer ==> Settled(r) && ZoomedBy(g, wheelDeltaY * 0.3, r)
  {
    if g.overRenderer then Zoom(g, wheelDeltaY * 0.3) else g
  }

  const KeyUp: int := 38
  const KeyDown: int := 40

  /** `onDocumentKeyDown`: the up arrow brings the camera target 100 closer,
      down to the near bound; the down arrow moves it 100 away, up to the
      far bound; every other key is ignored. */
  function OnKeyDown(g: State, keyCode: int): (r: State)
    ensures r == g.(distanceTarget := r.distanceTarget)
    ensures keyCode != KeyUp && keyCode != KeyDown ==> r == g
    ensures keyCode == KeyUp ==> Settled(r) && ZoomedBy(g, 100.0, r)
    ensures keyCode == KeyDown ==> Settled(r) && ZoomedBy(g, -100.0, r)
  {
    if keyCode == KeyUp then Zoom(g, 100.0)
    else if keyCode == KeyDown then Zoom(g, -100.0)
    else g
  }

  /** `v` lies between `from` and `to`, whichever is the larger. */
  predicate Between(v: real, from: real, to: real) {
    if from <= to then from <= v <= to else to <= v <= from
  }

  /** `render`: applies the zoom speed, then eases the rotation a tenth and
      the distance three tenths of the way toward their targets. The gap to
      each target shrinks by the same factor, so the camera never
      overshoots, and the target distance is settled afterwards. */
  function Render(g: State): (r: State)
    ensures Settled(r)
    ensures ZoomedBy(g, g.curZoomSpeed, g.(distanceTarget := r.distanceTarget))
    ensures Settled(g) && g.curZoomSpeed == 0.0 ==> r.distanceTarget == g.distanceTarget
    ensures r == g.(rotation := r.rotation, distance := r.distance, distanceTarget := r.distanceTarget)
    ensures r.rotation.x - g.target.x == 0.9 * (g.rotation.x - g.target.x)
    ensures r.rotation.y - g.target.y == 0.9 * (g.rotation.y - g.target.y)
    ensures r.distance - r.distanceTarget == 0.7 * (g.distance - r.distanceTarget)
  {
    var z := Zoom(g, g.curZoomSpeed);
    z.(rotation := XY(Ease(z.rotation.x, z.target.x, 0.1), Ease(z.rotation.y, z.target.y, 0.1)),
       distance := Ease(z.distance, z.distanceTarget, 0.3))
  }

  /** Each eased value lands between where it was and its target: the
      camera never overshoots. */
  lemma RenderBetween(g: State)
    ensures var r := Render(g);
            && Between(r.rotation.x, g.rotation.x, g.target.x)
            && Between(r.rotation.y, g.rotation.y, g.target.y)
            && Between(r.distance, g.distance, r.distanceTarget)
  {
  }

  /** The camera position `render` computes: on the sphere of radius
      `distance` around the planet, in the direction of the rotation. */
  function CameraPosition(m: Math, g: State): (p: Vec3)
    ensures PythagoreanAt(m, g.rotation.x) && PythagoreanAt(m, g.rotation.y) ==>
              NormSq(p) == g.distance * g.distance
  {
    var d := g.distance;
    var rx := g.rotation.x;
    var ry := g.rotation.y;
    var p := Vec3(d * m.sin(rx) * m.cos(ry), d * m.sin(ry), d * m.cos(rx) * m.cos(ry));
    if PythagoreanAt(m, rx) && PythagoreanAt(m, ry) then
      CameraIdentity(d, m.sin(rx), m.cos(rx), m.sin(ry), m.cos(ry));
      p
    else
      p
  }

  lemma CameraIdentity(d: real, sx: real, cx: real, sy: real, cy: real)
    requires sx * sx + cx * cx == 1.0
    requires sy * sy + cy * cy == 1.0
    ensures (d * sx * cy) * (d * sx * cy) + (d * sy) * (d * sy) + (d * cx * cy) * (d * cx * cy) == d * d
  {
    var q := (d * cy) * (d * cy);
    assert (d * sx * cy) * (d * sx * cy) == q * (sx * sx);
    assert (d * cx * cy) * (d * cx * cy) == q * (cx * cx);
    assert q * (sx * sx) + q * (cx * cx) == q * (sx * sx + cx * cx);
    assert q == (d * d) * (cy * cy);
    assert (d * sy) * (d * sy) == (d * d) * (sy * sy);
    assert (d * d) * (cy * cy) + (d * d) * (sy * sy) == (d * d) * (sy * sy + cy * cy);
  }

  /** The events the globe listens to; `Frame` is one animation frame. */
  datatype Event =
    | MouseDown(clientX: real, clientY: real)
    | MouseMove(clientX: real, clientY: real)
    | MouseUp
    | MouseOver
    | MouseOut
    | Wheel(wheelDeltaY: real)
    | Key(keyCode: int)
    | Frame

  /** One event. A mouse move only reaches `onMouseMove` during a drag, when
      its listener is registered. */
  function Step(m: Math, g: State, e: Event): State {
    match e
    case MouseDown(x, y) => OnMouseDown(g, x, y)
    case MouseMove(x, y) => if g.dragging then OnMouseMove(m, g, x, y) else g
    case MouseUp => OnMouseUp(g)
    case MouseOver => OnMouseOver(g)
    case MouseOut => OnMouseOut(g)
    case Wheel(dy) => OnMouseWheel(g, dy)
    case Key(code) => OnKeyDown(g, code)
    case Frame => Render(g)
  }

  /** A sequence of events, in order. */
  function Run(m: Math, g: State, events: seq<Event>): State
    decreases |events|
  {
    if |events| == 0 then g else Step(m, Run(m, g, events[..|events| - 1]), events[|events| - 1])
  }

  /** Every handler keeps the invariant. */
  lemma {:induction false} StepInv(m: Math, g: State, e: Event)
    requires PiPositive(m) && Inv(m, g)
    ensures Inv(m, Step(m, g, e))
  {
    match e
    case Frame =>
      var r := Render(g);
      assert r.rotation.y == 0.9 * g.rotation.y + 0.1 * g.target.y;
    case _ =>
  }

  /** No sequence of events breaks the invariant. */
  lemma {:induction false} RunInv(m: Math, g: State, events: seq<Event>)
    requires PiPositive(m) && Inv(m, g)
    ensures Inv(m, Run(m, g, events))
    decreases |events|
  {
    if |events| > 0 {
      RunInv(m, g, events[..|events| - 1]);
      StepInv(m, Run(m, g, events[..|events| - 1]), events[|events| - 1]);
    }
  }

  /** Once settled, the target distance stays within the zoom bounds. */
  lemma {:induction false} StepSettled(m: Math, g: State, e: Event)
    requires Settled(g)
    ensures Settled(Step(m, g, e))
  {
  }

  /** After the first animation frame the target distance is within the
      zoom bounds for good. */
  lemma {:induction false} RunSettledAfterFrame(m: Math, g: State, events: seq<Event>, i: nat)
    requires i < |events| && events[i] == Frame
    ensures Settled(Run(m, g, events))
    decreases |events|
  {
    var n := |events| - 1;
    if i < n {
      RunSettledAfterFrame(m, g, events[..n], i);
      StepSettled(m, Run(m, g, events[..n]), events[n]);
    }
  }

  function Pow(b: real, n: nat): real {
    if n == 0 then 1.0 else b * Pow(b, n - 1)
  }

  /** `v += (t - v) * k`, the easing step of `render`. */
  function Ease(v: real, t: real, k: real): real {
    v + (t - v) * k
  }

  /** `n` easing steps toward a fixed target. */
  function EaseN(v: real, t: real, k: real, n: nat): real {
    if n == 0 then v else Ease(EaseN(v, t, k, n - 1), t, k)
  }

  /** Each easing step keeps `1 - k` of the gap, so `n` steps keep
      `(1 - k)^n` of it. */
  lemma {:induction false} EaseNGap(v: real, t: real, k: real, n: nat)
    ensures EaseN(v, t, k, n) - t == Pow(1.0 - k, n) * (v - t)
  {
    if n > 0 {
      var p := Pow(1.0 - k, n - 1);
      var e := EaseN(v, t, k, n - 1);
      EaseNGap(v, t, k, n - 1);
      EaseStep(e, t, k, p, v - t);
      EaseNUnfold(v, t, k, n);
      PowUnfold(1.0 - k, n);
    }
  }

  lemma EaseNUnfold(v: real, t: real, k: real, n: nat)
    requires n > 0
    ensures EaseN(v, t, k, n) == Ease(EaseN(v, t, k, n - 1), t, k)
  {
  }

  lemma PowUnfold(b: real, n: nat)
    requires n > 0
    ensures Pow(b, n) == b * Pow(b, n - 1)
  {
  }

  lemma EaseStep(e: real, t: real, k: real, p: real, c: real)
    requires e - t == p * c
    ensures Ease(e, t, k) - t == ((1.0 - k) * p) * c
  {
    EaseGap(e, t, k);
    GeometricStep(Ease(e, t, k) - t, e - t, 1.0 - k, p, c);
  }

  lemma EaseGap(v: real, t: real, k: real)
    ensures Ease(v, t, k) - t == (1.0 - k) * (v - t)
  {
  }

  /** `n` animation frames with no other event. */
  function Frames(g: State, n: nat): State {
    if n == 0 then g else Render(Frames(g, n - 1))
  }

  /** Frames without input leave the targets and the zoom speed alone, and
      ease the distance and the rotation `n` steps toward them. */
  lemma {:induction false} FramesEase(g: State, n: nat)
    requires Settled(g) && g.curZoomSpeed == 0.0
    ensures var h := Frames(g, n);
            && h.distanceTarget == g.distanceTarget && h.target == g.target && h.curZoomSpeed == 0.0
            && h.distance == EaseN(g.distance, g.distanceTarget, 0.3, n)
            && h.rotation.x == EaseN(g.rotation.x, g.target.x, 0.1, n)
            && h.rotation.y == EaseN(g.rotation.y, g.target.y, 0.1, n)
  {
    if n > 0 {
      FramesEase(g, n - 1);
    }
  }

  /** With no input the camera converges geometrically: after `n` frames
      the distance gap to the target is `0.7^n` and each rotation gap
      `0.9^n` of what it was. */
  lemma {:induction false} FramesConverge(g: State, n: nat)
    requires Settled(g) && g.curZoomSpeed == 0.0
    ensures var h := Frames(g, n);
            && h.distance - g.distanceTarget == Pow(0.7, n) * (g.distance - g.distanceTarget)
            && h.rotation.x - g.target.x == Pow(0.9, n) * (g.rotation.x - g.target.x)
            && h.rotation.y - g.target.y == Pow(0.9, n) * (g.rotation.y - g.target.y)
  {
    FramesDistanceGap(g, n);
    FramesRotationGap(g, n);
  }

  lemma {:induction false} FramesDistanceGap(g: State, n: nat)
    requires Settled(g) && g.curZoomSpeed == 0.0
    ensures Frames(g, n).distance - g.distanceTarget == Pow(0.7, n) * (g.distance - g.distanceTarget)
  {
    FramesEase(g, n);
    EaseNFactor(g.distance, g.distanceTarget, 0.3, 0.7, n);
  }

  lemma {:induction false} FramesRotationGap(g: State, n: nat)
    requires Settled(g) && g.curZoomSpeed == 0.0
    ensures Frames(g, n).rotation.x - g.target.x == Pow(0.9, n) * (g.rotation.x - g.target.x)
    ensures Frames(g, n).rotation.y - g.target.y == Pow(0.9, n) * (g.rotation.y - g.target.y)
  {
    FramesEase(g, n);
    EaseNFactor(g.rotation.x, g.target.x, 0.1, 0.9, n);
    EaseNFactor(g.rotation.y, g.target.y, 0.1, 0.9, n);
  }

  /** `EaseNGap` with the kept fraction `q = 1 - k` written out. */
  lemma EaseNFactor(v: real, t: real, k: real, q: real, n: nat)
    requires q == 1.0 - k
    ensures EaseN(v, t, k, n) - t == Pow(q, n) * (v - t)
  {
    EaseNGap(v, t, k, n);
  }

  /** `x == k y` and `y == p c` give `x == (k p) c`. */
  lemma GeometricStep(x: real, y: real, k: real, p: real, c: real)
    requires x == k * y && y == p * c
    ensures x == (k * p) * c
  {
  }

  /** JavaScript's `Math.trunc` on a finite number. */
  function Trunc(x: real): (t: int)
    ensures x >= 0.0 ==> 0.0 <= t as real <= x < t as real + 1.0
    ensures x < 0.0 ==> t as real - 1.0 < x <= t as real <= 0.0
  {
    if x >= 0.0 then x.Floor else -((-x).Floor)
  }

  /** JavaScript's `%` on numbers: the remainder of truncated division, so
      it carries the sign of the dividend. */
  function JsRemainder(a: real, b: real): (r: real)
    requires b > 0.0
    ensures a >= 0.0 ==> 0.0 <= r < b
    ensures a < 0.0 ==> -b < r <= 0.0
  {
    var t := Trunc(a / b);
    if a >= 0.0 then
      RemainderBelow(a, b, t as real);
      a - b * (t as real)
    else
      RemainderAbove(a, b, t as real);
      a - b * (t as real)
  }

  /** `t <= a / b < t + 1` gives `0 <= a - b t < b`. */
  lemma RemainderBelow(a: real, b: real, t: real)
    requires b > 0.0 && t <= a / b < t + 1.0
    ensures 0.0 <= a - b * t < b
  {
    ScaleBelow(a, b, t);
    ScaleStrictAbove(a, b, t + 1.0);
    assert b * (t + 1.0) == b * t + b;
  }

  /** `t - 1 < a / b <= t` gives `-b < a - b t <= 0`. */
  lemma RemainderAbove(a: real, b: real, t: real)
    requires b > 0.0 && t - 1.0 < a / b <= t
    ensures -b < a - b * t <= 0.0
  {
    ScaleAbove(a, b, t);
    ScaleStrictBelow(a, b, t - 1.0);
    assert b * (t - 1.0) == b * t - b;
  }

  lemma ScaleBelow(a: real, b: real, t: real)
    requires b > 0.0 && t <= a / b
    ensures b * t <= a
  {
    MulMono(t, a / b, b);
  }

  lemma ScaleAbove(a: real, b: real, t: real)
    requires b > 0.0 && a / b <= t
    ensures a <= b * t
  {
    MulMono(a / b, t, b);
  }

  lemma ScaleStrictBelow(a: real, b: real, t: real)
    requires b > 0.0 && t < a / b
    ensures b * t < a
  {
    MulStrictMono(a / b, t, b);
  }

  lemma ScaleStrictAbove(a: real, b: real, t: real)
    requires b > 0.0 && a / b < t
    ensures a < b * t
  {
    MulStrictMono(t, a / b, b);
  }

  lemma MulMono(a: real, b: real, c: real)
    requires a <= b && c > 0.0
    ensures a * c <= b * c
    ensures a < b ==> a * c < b * c
  {
    if a < b {
      MulStrictMono(b, a, c);
    }
  }

  lemma DivOf(x: real, b: real, y: real)
    requires b != 0.0 && x == y * b
    ensures x / b == y
  {
  }

  /** On `[0, b)` the remainder is the identity. */
  lemma JsRemainderIdentity(a: real, b: real)
    requires 0.0 <= a < b
    ensures JsRemainder(a, b) == a
  {
    var q := a / b;
    assert q * b == a;
    if q >= 1.0 {
      MulMono(1.0, q, b);
    }
    assert q < 1.0;
    assert Trunc(q) == 0;
  }

  /** For non-negative dividends the remainder has period `b`. */
  lemma JsRemainderShift(a: real, b: real)
    requires a >= 0.0 && b > 0.0
    ensures JsRemainder(a + b, b) == JsRemainder(a, b)
  {
    var q := a / b;
    assert q * b == a;
    assert (q + 1.0) * b == a + b;
    DivOf(a + b, b, q + 1.0);
    assert (q + 1.0).Floor == q.Floor + 1;
    assert b * ((q.Floor + 1) as real) == b * (q.Floor as real) + b;
  }

  /** `(theta + 3 PI) % (2 PI) - PI`: brings a longitude in radians into
      `[-PI, PI)` without changing it modulo a full turn, for every angle
      from `-3 PI` upward. */
  function NormalizeLongitude(m: Math, theta: real): (r: real)
    requires PiPositive(m)
    ensures theta >= -3.0 * m.pi ==> -m.pi <= r < m.pi
  {
    JsRemainder(theta + 3.0 * m.pi, 2.0 * m.pi) - m.pi
  }

  /** An angle already in `[-PI, PI)` is left unchanged. */
  lemma {:induction false} NormalizeLongitudeFixes(m: Math, theta: real)
    requires PiPositive(m)
    requires -m.pi <= theta < m.pi
    ensures NormalizeLongitude(m, theta) == theta
  {
    var a := theta + m.pi;
    assert theta + 3.0 * m.pi == a + 2.0 * m.pi;
    JsRemainderShift(a, 2.0 * m.pi);
    JsRemainderIdentity(a, 2.0 * m.pi);
  }

  /** A full turn more gives the same normalised longitude. */
  lemma {:induction false} NormalizeLongitudePeriodic(m: Math, theta: real)
    requires PiPositive(m)
    requires theta >= -3.0 * m.pi
    ensures NormalizeLongitude(m, theta + 2.0 * m.pi) == NormalizeLongitude(m, theta)
  {
    var a := theta + 3.0 * m.pi;
    assert (theta + 2.0 * m.pi) + 3.0 * m.pi == a + 2.0 * m.pi;
    JsRemainderShift(a, 2.0 * m.pi);
  }

  /** A latitude and longitude, in degrees. */
  datatype Coord = Coord(latitude: real, longitude: real)

  /** The arguments `midCoord` hands to `Math.atan2` and `Math.sqrt`. */
  datatype MidTerms = MidTerms(latY: real, radicand: real, lonY: real, lonX: real)

  function MidCoordTerms(m: Math, srcLat: real, srcLng: real, destLat: real, destLng: real): MidTerms
    requires PiPositive(m)
  {
    var phi1 := srcLat * m.pi / 180.0;
    var phi2 := destLat * m.pi / 180.0;
    var deltaLng := (destLng - srcLng) * m.pi / 180.0;
    var bearingX := m.cos(phi2) * m.cos(deltaLng);
    var bearingY := m.cos(phi2) * m.sin(deltaLng);
    MidTerms(m.sin(phi1) + m.sin(phi2),
             (m.cos(phi1) + bearingX) * (m.cos(phi1) + bearingX) + bearingY * bearingY,
             bearingY, m.cos(phi1) + bearingX)
  }

  /** `Math.atan2(y, x)` lies in `[-PI, PI]`, and in `[-PI/2, PI/2]` when
      `x` is not negative. */
  predicate Atan2At(m: Math, y: real, x: real) {
    && -m.pi <= m.atan2(y, x) <= m.pi
    && (x >= 0.0 ==> -m.pi / 2.0 <= m.atan2(y, x) <= m.pi / 2.0)
  }

  /** The primitives behave at the points `midCoord` evaluates them. */
  predicate MidCoordSound(m: Math, srcLat: real, srcLng: real, destLat: real, destLng: real)
    requires PiPositive(m)
  {
    var t := MidCoordTerms(m, srcLat, srcLng, destLat, destLng);
    SqrtAt(m, t.radicand) && Atan2At(m, t.latY, m.sqrt(t.radicand)) && Atan2At(m, t.lonY, t.lonX)
  }

  /** `phi3 * 180 / PI`: the midpoint's latitude, within [-90, 90] since
      the `atan2` has a non-negative second argument. */
  function MidLatitude(m: Math, t: MidTerms): (lat: real)
    requires PiPositive(m)
    ensures SqrtAt(m, t.radicand) && Atan2At(m, t.latY, m.sqrt(t.radicand)) ==> -90.0 <= lat <= 90.0
  {
    var phi3 := m.atan2(t.latY, m.sqrt(t.radicand));
    if SqrtAt(m, t.radicand) && Atan2At(m, t.latY, m.sqrt(t.radicand)) then
      DegreesBounds(m.pi, phi3, -0.5, 0.5);
      phi3 * 180.0 / m.pi
    else
      phi3 * 180.0 / m.pi
  }

  /** `theta3 * 180 / PI`: the source longitude turned by the bearing's
      `atan2` and normalised into [-180, 180). */
  function MidLongitude(m: Math, srcLng: real, t: MidTerms): (lon: real)
    requires PiPositive(m)
    ensures Atan2At(m, t.lonY, t.lonX) && -180.0 <= srcLng <= 180.0 ==> -180.0 <= lon < 180.0
  {
    var theta1 := srcLng * m.pi / 180.0;
    var theta3 := NormalizeLongitude(m, theta1 + m.atan2(t.lonY, t.lonX));
    if Atan2At(m, t.lonY, t.lonX) && -180.0 <= srcLng <= 180.0 then
      LongitudeInRange(m, srcLng, m.atan2(t.lonY, t.lonX));
      theta3 * 180.0 / m.pi
    else
      theta3 * 180.0 / m.pi
  }

  /** A source longitude in [-180, 180] turned by a bearing in [-pi, pi]
      normalises into [-180, 180) degrees. */
  lemma LongitudeInRange(m: Math, srcLng: real, bearing: real)
    requires PiPositive(m) && -180.0 <= srcLng <= 180.0 && -m.pi <= bearing <= m.pi
    ensures var theta3 := NormalizeLongitude(m, srcLng * m.pi / 180.0 + bearing);
            -180.0 <= theta3 * 180.0 / m.pi < 180.0
  {
    LongitudeArgument(m.pi, srcLng, bearing);
    LongitudeDegrees(m.pi, NormalizeLongitude(m, srcLng * m.pi / 180.0 + bearing));
  }

  lemma LongitudeArgument(pi: real, srcLng: real, bearing: real)
    requires pi > 0.0 && -180.0 <= srcLng <= 180.0 && -pi <= bearing
    ensures srcLng * pi / 180.0 + bearing >= -3.0 * pi
  {
    RadiansBounds(pi, srcLng);
    TwoAnglesAbove(pi, srcLng * pi / 180.0, bearing);
  }

  /** An angle in `[-pi, pi)` is in `[-180, 180)` degrees. */
  lemma LongitudeDegrees(pi: real, a: real)
    requires pi > 0.0 && -pi <= a < pi
    ensures -180.0 <= a * 180.0 / pi < 180.0
  {
    DegreesBounds(pi, a, -1.0, 1.0);
    DegreesUpperStrict(pi, a);
  }

  /** `midCoord`: the midpoint of the great-circle arc between two
      coordinates. Its latitude lies in [-90, 90] and, for a source
      longitude in [-180, 180], its longitude is normalised into
      [-180, 180). */
  function MidCoord(m: Math, srcLat: real, srcLng: real, destLat: real, destLng: real): (c: Coord)
    requires PiPositive(m)
    ensures MidCoordSound(m, srcLat, srcLng, destLat, destLng) ==> -90.0 <= c.latitude <= 90.0
    ensures MidCoordSound(m, srcLat, srcLng, destLat, destLng) && -180.0 <= srcLng <= 180.0 ==>
              -180.0 <= c.longitude < 180.0
  {
    var t := MidCoordTerms(m, srcLat, srcLng, destLat, destLng);
    Coord(MidLatitude(m, t), MidLongitude(m, srcLng, t))
  }

  /** Two angles of at least `-pi` sum to at least `-3 pi`. */
  lemma TwoAnglesAbove(pi: real, x: real, y: real)
    requires pi > 0.0 && -pi <= x && -pi <= y
    ensures x + y >= -3.0 * pi
  {
  }

  /** `deg * pi / 180` of a degree value in [-180, 180] lies in [-pi, pi]. */
  lemma RadiansBounds(pi: real, deg: real)
    requires pi > 0.0 && -180.0 <= deg <= 180.0
    ensures -pi <= deg * pi / 180.0 <= pi
  {
    MulMono(-180.0, deg, pi);
    MulMono(deg, 180.0, pi);
  }

  /** Radians between `lo pi` and `hi pi` are degrees between `180 lo` and
      `180 hi`. */
  lemma DegreesBounds(pi: real, a: real, lo: real, hi: real)
    requires pi > 0.0 && lo * pi <= a <= hi * pi
    ensures 180.0 * lo <= a * 180.0 / pi <= 180.0 * hi
  {
    var q := a / pi;
    assert q * pi == a;
    assert a * 180.0 / pi == q * 180.0;
    if q > hi {
      MulStrictMono(q, hi, pi);
    }
    if q < lo {
      MulStrictMono(lo, q, pi);
    }
  }

  /** An angle strictly below pi is strictly below 180 degrees. */
  lemma DegreesUpperStrict(pi: real, a: real)
    requires pi > 0.0 && a < pi
    ensures a * 180.0 / pi < 180.0
  {
    var q := a / pi;
    assert q * pi == a;
    assert a * 180.0 / pi == q * 180.0;
    if q >= 1.0 {
      MulMono(1.0, q, pi);
    }
  }

  /** `elevation || 0`. */
  function ElevationOrZero(elevation: Option<real>): real {
    if elevation.Some? then elevation.value else 0.0
  }

  /** The legacy `coordToPoint`: the planet is centred on the origin and the
      point lies `elevation` (0 when not given) above its surface. */
  function CoordToPoint(m: Math, lat: real, lng: real, elevation: Option<real>): (p: Vec3)
    ensures var r := PlanetRadius + ElevationOrZero(elevation);
            TrigSound(m, lat, lng) ==> NormSq(p) == r * r
  {
    var phi := Colatitude(m, lat);
    var theta := Azimuth(m, lng);
    var r := PlanetRadius + ElevationOrZero(elevation);
    var p := Vec3(r * m.sin(phi) * m.cos(theta), r * m.cos(phi), r * m.sin(phi) * m.sin(theta));
    if TrigSound(m, lat, lng) then
      SphereIdentity(r, m.sin(phi), m.cos(phi), m.sin(theta), m.cos(theta));
      p
    else
      p
  }

  /** Without an elevation the legacy `coordToPoint` is `latLonToXyz` on a
      planet of radius 200 at the origin, and an omitted elevation is the
      same as an elevation of 0. */
  lemma {:induction false} CoordToPointAgrees(m: Math, lat: real, lng: real)
    ensures CoordToPoint(m, lat, lng, None) == LatLonToXyz(m, lat, lng, Mesh(PlanetRadius, Zero))
    ensures CoordToPoint(m, lat, lng, None) == CoordToPoint(m, lat, lng, Some(0.0))
  {
    var p := SphericalOffset(m, PlanetRadius, lat, lng);
    assert Add(p, Zero) == p;
  }

  /** A point `e` above the surface is the surface point scaled by
      `(200 + e) / 200`: it lies on the same ray from the centre. */
  lemma CoordToPointRaised(m: Math, lat: real, lng: real, e: real)
    ensures CoordToPoint(m, lat, lng, Some(e)) == Scale((PlanetRadius + e) / PlanetRadius, CoordToPoint(m, lat, lng, None))
  {
    var k := (PlanetRadius + e) / PlanetRadius;
    var s := m.sin(Colatitude(m, lat));
    var c := m.cos(Colatitude(m, lat));
    var s2 := m.sin(Azimuth(m, lng));
    var c2 := m.cos(Azimuth(m, lng));
    assert k * PlanetRadius == PlanetRadius + e;
    assert k * (PlanetRadius * s * c2) == (k * PlanetRadius) * s * c2;
    assert k * (PlanetRadius * c) == (k * PlanetRadius) * c;
    assert k * (PlanetRadius * s * s2) == (k * PlanetRadius) * s * s2;
  }

  /** `addFlux`: a quadratic arc between two points on the planet whose
      control point lies above the `midCoord` point at twice the chord
      length over the surface. */
  function AddFlux(m: Math, srcLat: real, srcLng: real, destLat: real, destLng: real): (c: Flux.Bezier)
    requires PiPositive(m)
    ensures c.Quadratic?
    ensures c.v0 == CoordToPoint(m, srcLat, srcLng, None)
    ensures c.v2 == CoordToPoint(m, destLat, destLng, None)
    ensures TrigSound(m, srcLat, srcLng) ==> NormSq(c.v0) == PlanetRadius * PlanetRadius
    ensures TrigSound(m, destLat, destLng) ==> NormSq(c.v2) == PlanetRadius * PlanetRadius
    ensures var mid := MidCoord(m, srcLat, srcLng, destLat, destLng);
            var r := PlanetRadius + 2.0 * Length(m, Sub(c.v2, c.v0));
            TrigSound(m, mid.latitude, mid.longitude) ==> NormSq(c.v1) == r * r
    ensures var mid := MidCoord(m, srcLat, srcLng, destLat, destLng);
            var k := (PlanetRadius + 2.0 * Length(m, Sub(c.v2, c.v0))) / PlanetRadius;
            c.v1 == Scale(k, CoordToPoint(m, mid.latitude, mid.longitude, None))
  {
    var srcPoint := CoordToPoint(m, srcLat, srcLng, None);
    var destPoint := CoordToPoint(m, destLat, destLng, None);
    var distance := Length(m, Sub(destPoint, srcPoint));
    var mid := MidCoord(m, srcLat, srcLng, destLat, destLng);
    var midPoint := CoordToPoint(m, mid.latitude, mid.longitude, Some(distance * 2.0));
    CoordToPointRaised(m, mid.latitude, mid.longitude, distance * 2.0);
    Flux.Quadratic(srcPoint, midPoint, destPoint)
  }
}
