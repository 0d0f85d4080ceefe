/**
 Properties of the input handling over single events and over whole event
 sequences.
 */
module InputProperties {
  import opened Options
  import opened Input

  /** Each key code moves the camera in at most one direction. */
  lemma KeysAreDistinct(key: int, d: Direction, e: Direction)
    requires IsKeyOf(key, d) && IsKeyOf(key, e)
    ensures d == e
  {
  }

  /** Pressing or releasing the same key twice leaves the state of the last call. */
  lemma OnKeyLastWins(s: InputState, key: int, p: bool, q: bool)
    ensures OnKey(OnKey(s, key, p), key, q) == OnKey(s, key, q)
  {
    var r, t := OnKey(OnKey(s, key, p), key, q), OnKey(s, key, q);
    assert forall d :: Flag(r.move, d) == Flag(t.move, d);
    assert r.move == t.move by {
      assert Flag(r.move, Forward) == Flag(t.move, Forward);
      assert Flag(r.move, Backward) == Flag(t.move, Backward);
      assert Flag(r.move, Left) == Flag(t.move, Left);
      assert Flag(r.move, Right) == Flag(t.move, Right);
      assert Flag(r.move, Up) == Flag(t.move, Up);
      assert Flag(r.move, Down) == Flag(t.move, Down);
    }
  }

  /** A drag after the button was released changes nothing. */
  lemma DragAfterReleaseIgnored(s: InputState, x: real, y: real, x': real, y': real)
    ensures OnDrag(OnClick(s, x, y, false), x', y') == OnClick(s, x, y, false)
  {
  }

  /**
   A drag right after pressing at `(x, y)` sets the pending rotation from
   the travel since the press.
   */
  lemma DragAfterPress(s: InputState, x: real, y: real, x': real, y': real)
    requires s.width != 0 && s.height != 0
    ensures var r := OnDrag(OnClick(s, x, y, true), x', y');
      && r.angleDeltaX == DragSensitivity * (y - y') / (s.height as real)
      && r.angleDeltaY == DragSensitivity * (x - x') / (s.width as real)
  {
    var c := OnClick(s, x, y, true);
    assert c.lastPointer.value == Point(x, y);
  }

  /**
   Drags do not add up: a second drag before the next update replaces the
   pending rotation with the travel of that drag alone.
   */
  lemma DragsOverwrite(s: InputState, x: real, y: real, x': real, y': real)
    requires s.pointerPressed && CanDrag(s)
    ensures var r := OnDrag(OnDrag(s, x, y), x', y');
      && r.angleDeltaX == DragSensitivity * (y - y') / (s.height as real)
      && r.angleDeltaY == DragSensitivity * (x - x') / (s.width as real)
  {
  }

  /** A drag after a resize scales the travel by the new window size. */
  lemma DragAfterResize(s: InputState, w: int, h: int, x: real, y: real)
    requires s.pointerPressed && s.lastPointer.Some? && w != 0 && h != 0
    ensures var r := OnDrag(OnResize(s, w, h), x, y);
      && r.angleDeltaX == DragSensitivity * (s.lastPointer.value.y - y) / (h as real)
      && r.angleDeltaY == DragSensitivity * (s.lastPointer.value.x - x) / (w as real)
  {
  }

  /**
   A resize to zero height or width leaves a pressed pointer unable to
   drag: `on_drag` would divide by the zero size.
   */
  lemma ZeroSizeBlocksDrag(s: InputState, w: int, h: int)
    requires s.pointerPressed && (w == 0 || h == 0)
    ensures !CanDrag(OnResize(s, w, h))
  {
  }

  /** The clamp and reset at the start of an update is idempotent. */
  lemma ApplyRotationIdempotent(s: InputState)
    ensures ApplyRotation(ApplyRotation(s)) == ApplyRotation(s)
  {
  }

  function Abs(a: real): real {
    if a < 0.0 then -a else a
  }

  /** The clamped pitch is the allowed pitch nearest to the unclamped one. */
  lemma ClampIsNearest(a: real, b: real)
    requires -PitchLimit <= b <= PitchLimit
    ensures Abs(ClampPitch(a) - a) <= Abs(b - a)
  {
  }

  /** The events the scene receives from its window. */
  datatype Event =
    | Key(key: int, pressed: bool)
    | Click(x: real, y: real, down: bool)
    | Drag(x: real, y: real)
    | Resize(w: int, h: int)
    | Update

  /** The window reports a size of at least one pixel each way. */
  predicate SizedWindow(e: Event) {
    e.Resize? ==> e.w > 0 && e.h > 0
  }

  function Step(s: InputState, e: Event): (r: InputState)
    requires Valid(s) && SizedWindow(e)
    ensures Valid(r)
  {
    match e
    case Key(k, p) => OnKey(s, k, p)
    case Click(x, y, d) => OnClick(s, x, y, d)
    case Drag(x, y) => OnDrag(s, x, y)
    case Resize(w, h) => OnResize(s, w, h)
    case Update => ApplyRotation(s)
  }

  /** The state after handling `events` in order. */
  function Run(s: InputState, events: seq<Event>): (r: InputState)
    requires Valid(s) && forall i | 0 <= i < |events| :: SizedWindow(events[i])
    ensures Valid(r)
    decreases |events|
  {
    if |events| == 0 then s else Run(Step(s, events[0]), events[1..])
  }

  /**
   From the initial state of a window with a size, every sequence of events
   whose resizes keep a size keeps the pitch within the limit, the window
   sized, and never drags without a recorded pointer position.
   */
  lemma ReachableStatesValid(width: int, height: int, events: seq<Event>)
    requires width > 0 && height > 0
    requires forall i | 0 <= i < |events| :: SizedWindow(events[i])
    ensures Valid(Run(Initial(width, height), events))
    ensures -PitchLimit <= Run(Initial(width, height), events).angleAroundX <= PitchLimit
  {
  }
}
