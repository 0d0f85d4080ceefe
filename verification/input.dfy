/**
 The scene's input handling: keys switch six movement flags, a pressed
 pointer drags the camera's two rotation angles, and each update folds the
 drag into the angles, clamping the pitch.

 Floats are modelled as reals: `1.5f` and `1.025f` become the reals they
 name, `0.4f` the real 0.4, and rounding is not modelled.
 */
module Input {
  import opened Options

  /** Pitch limit, in radians, either side of the horizon. */
  const PitchLimit: real := 1.5
  /** Radians of rotation per window height (or width) of pointer travel. */
  const DragSensitivity: real := 1.025
  const InitialPitch: real := 0.4

  datatype Point = Point(x: real, y: real)

  datatype Direction = Forward | Backward | Left | Right | Up | Down

  datatype Movement = Movement(forward: bool, backward: bool, left: bool, right: bool, up: bool, down: bool)

  datatype InputState = InputState(
    angleAroundX: real, angleAroundY: real,
    angleDeltaX: real, angleDeltaY: real,
    pointerPressed: bool,
    lastPointer: Option<Point>,
    width: int, height: int,
    move: Movement)

  /** The flag of `m` that moves the camera in direction `d`. */
  function Flag(m: Movement, d: Direction): bool {
    match d
    case Forward => m.forward
    case Backward => m.backward
    case Left => m.left
    case Right => m.right
    case Up => m.up
    case Down => m.down
  }

  /** The two key codes, lower and upper case, bound to direction `d`. */
  function Keys(d: Direction): (keys: (char, char)) {
    match d
    case Forward => ('w', 'W')
    case Backward => ('s', 'S')
    case Left => ('a', 'A')
    case Right => ('d', 'D')
    case Up => ('e', 'E')
    case Down => ('q', 'Q')
  }

  predicate IsKeyOf(key: int, d: Direction) {
    key == Keys(d).0 as int || key == Keys(d).1 as int
  }

  /**
   The state the scene starts in: pitch 0.4, yaw 0, no pending drag, the
   pointer released, no movement. The last pointer position is never set
   by the constructor, so it starts absent.
   */
  function Initial(width: int, height: int): (s: InputState)
    ensures s.angleAroundX == InitialPitch && s.angleAroundY == 0.0
    ensures s.angleDeltaX == 0.0 && s.angleDeltaY == 0.0
    ensures !s.pointerPressed && s.lastPointer.None?
    ensures forall d :: !Flag(s.move, d)
    ensures width > 0 && height > 0 ==> Valid(s)
  {
    InputState(InitialPitch, 0.0, 0.0, 0.0, false, None, width, height,
      Movement(false, false, false, false, false, false))
  }

  /**
   What every reachable state satisfies: a pressed pointer has a recorded
   position, the window has a size, and the pitch lies within the limit.
   */
  predicate Valid(s: InputState) {
    && (s.pointerPressed ==> s.lastPointer.Some?)
    && s.width > 0 && s.height > 0
    && -PitchLimit <= s.angleAroundX <= PitchLimit
  }

  /**
   `Scene::on_key(key, pressed)`: a movement key sets its flag to `pressed`;
   every other key is ignored.
   */
  function OnKey(s: InputState, key: int, pressed: bool): (r: InputState)
    ensures forall d :: IsKeyOf(key, d) ==> Flag(r.move, d) == pressed
    ensures forall d :: !IsKeyOf(key, d) ==> Flag(r.move, d) == Flag(s.move, d)
    ensures r.(move := s.move) == s
    ensures Valid(s) ==> Valid(r)
  {
    var m := s.move;
    if key == 'w' as int || key == 'W' as int then s.(move := m.(forward := pressed))
    else if key == 's' as int || key == 'S' as int then s.(move := m.(backward := pressed))
    else if key == 'a' as int || key == 'A' as int then s.(move := m.(left := pressed))
    else if key == 'd' as int || key == 'D' as int then s.(move := m.(right := pressed))
    else if key == 'e' as int || key == 'E' as int then s.(move := m.(up := pressed))
    else if key == 'q' as int || key == 'Q' as int then s.(move := m.(down := pressed))
    else s
  }

  /** `Scene::on_click(x, y, down)`: records the pointer position and whether the button is down. */
  function OnClick(s: InputState, x: real, y: real, down: bool): (r: InputState)
    ensures r.pointerPressed == down && r.lastPointer == Some(Point(x, y))
    ensures r.(pointerPressed := s.pointerPressed, lastPointer := s.lastPointer) == s
    ensures Valid(s) ==> Valid(r)
  {
    s.(lastPointer := Some(Point(x, y)), pointerPressed := down)
  }

  /** What `on_drag` needs to compute its deltas: a recorded position and a window with a size. */
  predicate CanDrag(s: InputState) {
    s.pointerPressed ==> s.lastPointer.Some? && s.width != 0 && s.height != 0
  }

  /**
   `Scene::on_drag(x, y)`: while the pointer is pressed, the travel since the
   last position, scaled by the window size, becomes the pending rotation
   (vertical travel turns about X, horizontal travel about Y), and the
   position is recorded. Released, nothing changes.
   */
  function OnDrag(s: InputState, x: real, y: real): (r: InputState)
    requires CanDrag(s)
    ensures !s.pointerPressed ==> r == s
    ensures s.pointerPressed ==>
      && r.angleDeltaX * (s.height as real) == DragSensitivity * (s.lastPointer.value.y - y)
      && r.angleDeltaY * (s.width as real) == DragSensitivity * (s.lastPointer.value.x - x)
      && r.lastPointer == Some(Point(x, y))
      && r.(angleDeltaX := s.angleDeltaX, angleDeltaY := s.angleDeltaY, lastPointer := s.lastPointer) == s
    ensures Valid(s) ==> Valid(r)
  {
    if s.pointerPressed then
      var last := s.lastPointer.value;
      s.(angleDeltaX := DragSensitivity * (last.y - y) / (s.height as real),
         angleDeltaY := DragSensitivity * (last.x - x) / (s.width as real),
         lastPointer := Some(Point(x, y)))
    else
      s
  }

  /**
   The size bookkeeping of `Scene::resize(w, h)`: the window's new width and
   height replace the old ones, which later drags divide by. The camera
   ratio, viewport and render-target storage it also updates are outside
   this model.
   */
  function OnResize(s: InputState, w: int, h: int): (r: InputState)
    ensures r.width == w && r.height == h
    ensures r.(width := s.width, height := s.height) == s
    ensures Valid(s) && w > 0 && h > 0 ==> Valid(r)
    ensures w <= 0 || h <= 0 ==> !Valid(r)
  {
    s.(width := w, height := h)
  }

  /** Pins the pitch within `[-PitchLimit, PitchLimit]`. */
  function ClampPitch(a: real): (c: real)
    ensures -PitchLimit <= c <= PitchLimit
    ensures -PitchLimit <= a <= PitchLimit ==> c == a
  {
    if a < -PitchLimit then -PitchLimit else if a > PitchLimit then PitchLimit else a
  }

  /**
   The first lines of `Scene::update`: the pending rotation is added to both
   angles, the pitch is clamped, and the pending rotation is cleared.
   */
  function ApplyRotation(s: InputState): (r: InputState)
    ensures -PitchLimit <= r.angleAroundX <= PitchLimit
    ensures r.angleDeltaX == 0.0 && r.angleDeltaY == 0.0
    ensures r.angleAroundY == s.angleAroundY + s.angleDeltaY
    ensures r.angleAroundX == ClampPitch(s.angleAroundX + s.angleDeltaX)
    ensures r.(angleAroundX := s.angleAroundX, angleAroundY := s.angleAroundY,
               angleDeltaX := s.angleDeltaX, angleDeltaY := s.angleDeltaY) == s
    ensures Valid(s) ==> Valid(r)
  {
    s.(angleAroundX := ClampPitch(s.angleAroundX + s.angleDeltaX),
       angleAroundY := s.angleAroundY + s.angleDeltaY,
       angleDeltaX := 0.0, angleDeltaY := 0.0)
  }
}
