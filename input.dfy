/**
 * Keyboard and mouse state of archi/src/input.rs: six movement flags set and
 * cleared by scancode, the three movement axes they resolve to, and the
 * per-frame mouse deltas that every new batch of events resets.
 */
module InputEvents {
  import opened Wrappers

  datatype ElementState = Pressed | Released

  /** A key event: the physical scancode and whether the key went down or up. */
  datatype KeyboardInput = KeyboardInput(scancode: nat, state: ElementState)

  /** The six movement keys. */
  datatype Direction = Forward | Backward | Left | Right | Up | Down

  /** The scancode bound to each direction (W, S, A, D, space, left shift on a US layout). */
  function Scancode(d: Direction): nat
  {
    match d
    case Forward => 17
    case Left => 30
    case Backward => 31
    case Right => 32
    case Up => 57
    case Down => 42
  }

  /** The flag a scancode selects in `Movement::update`; other scancodes select nothing. */
  function DirectionOf(scancode: nat): (r: Option<Direction>)
    ensures r.Some? ==> Scancode(r.value) == scancode
  {
    match scancode
    case 17 => Some(Forward)
    case 30 => Some(Left)
    case 31 => Some(Backward)
    case 32 => Some(Right)
    case 57 => Some(Up)
    case 42 => Some(Down)
    case _ => None
  }

  /** The binding is one to one: each direction's scancode selects exactly that direction. */
  lemma ScancodeRoundTrip(d: Direction, scancode: nat)
    ensures DirectionOf(Scancode(d)) == Some(d)
    ensures DirectionOf(scancode) == Some(d) <==> scancode == Scancode(d)
  {
  }

  /** The value the selected flag takes: true on a press, false on a release. */
  function IsDown(state: ElementState): bool
  {
    match state
    case Pressed => true
    case Released => false
  }

  /** The six flags of `Movement` as a value. */
  datatype Keys = Keys(forward: bool, backward: bool, left: bool, right: bool, up: bool, down: bool)

  const NoKeys := Keys(false, false, false, false, false, false)

  /** The flag of one direction. */
  function Held(keys: Keys, d: Direction): bool
  {
    match d
    case Forward => keys.forward
    case Backward => keys.backward
    case Left => keys.left
    case Right => keys.right
    case Up => keys.up
    case Down => keys.down
  }

  /** Two key states with the same six flags are the same. */
  lemma KeysEqual(a: Keys, b: Keys)
    requires forall d: Direction :: Held(a, d) == Held(b, d)
    ensures a == b
  {
    assert Held(a, Forward) == Held(b, Forward) && Held(a, Backward) == Held(b, Backward);
    assert Held(a, Left) == Held(b, Left) && Held(a, Right) == Held(b, Right);
    assert Held(a, Up) == Held(b, Up) && Held(a, Down) == Held(b, Down);
  }

  /**
   * The effect of one key event: the flag its scancode selects becomes
   * IsDown(state); every other flag, and all of them for an unbound
   * scancode, keeps its value.
   */
  function Press(keys: Keys, input: KeyboardInput): (r: Keys)
    ensures forall d: Direction :: Held(r, d) == if DirectionOf(input.scancode) == Some(d) then IsDown(input.state) else Held(keys, d)
  {
    var value := IsDown(input.state);
    match DirectionOf(input.scancode)
    case Some(Forward) => keys.(forward := value)
    case Some(Left) => keys.(left := value)
    case Some(Backward) => keys.(backward := value)
    case Some(Right) => keys.(right := value)
    case Some(Up) => keys.(up := value)
    case Some(Down) => keys.(down := value)
    case None => keys
  }

  /** An unbound scancode changes nothing. */
  lemma UnboundKeyIgnored(keys: Keys, input: KeyboardInput)
    requires DirectionOf(input.scancode) == None
    ensures Press(keys, input) == keys
  {
    KeysEqual(Press(keys, input), keys);
  }

  /** Of two events on the same key only the later counts; in particular a repeated event is idempotent. */
  lemma PressLastWins(keys: Keys, a: KeyboardInput, b: KeyboardInput)
    requires a.scancode == b.scancode
    ensures Press(Press(keys, a), b) == Press(keys, b)
    ensures Press(Press(keys, b), b) == Press(keys, b)
  {
    KeysEqual(Press(Press(keys, a), b), Press(keys, b));
    KeysEqual(Press(Press(keys, b), b), Press(keys, b));
  }

  /** Events on different keys commute. */
  lemma PressCommutes(keys: Keys, a: KeyboardInput, b: KeyboardInput)
    requires a.scancode != b.scancode
    ensures Press(Press(keys, a), b) == Press(Press(keys, b), a)
  {
    KeysEqual(Press(Press(keys, a), b), Press(Press(keys, b), a));
  }

  /**
   * `Movement::axis`: 1 when only the positive key is held, -1 when only the
   * negative one is, 0 when both or neither are (the f32 values are exact
   * integers).
   */
  function Axis(positive: bool, negative: bool): (r: int)
    ensures r == 1 <==> positive && !negative
    ensures r == -1 <==> negative && !positive
    ensures r == 0 <==> positive == negative
  {
    match (positive, negative)
    case (true, false) => 1
    case (false, true) => -1
    case _ => 0
  }

  /** Swapping the two keys negates the axis. */
  lemma AxisAntisymmetric(a: bool, b: bool)
    ensures Axis(a, b) == -Axis(b, a)
  {
  }

  /** Which axis a direction drives and with which sign: x is right, y is up, z is backward. */
  function AxisOf(d: Direction): (nat, int)
  {
    match d
    case Right => (0, 1)
    case Left => (0, -1)
    case Up => (1, 1)
    case Down => (1, -1)
    case Backward => (2, 1)
    case Forward => (2, -1)
  }

  /** The key on the other side of the same axis. */
  function Opposite(d: Direction): (r: Direction)
    ensures AxisOf(r).0 == AxisOf(d).0 && AxisOf(r).1 == -AxisOf(d).1
    ensures r != d
  {
    match d
    case Right => Left
    case Left => Right
    case Up => Down
    case Down => Up
    case Backward => Forward
    case Forward => Backward
  }

  /** `axes`: (x, y, z) = (axis(right, left), axis(up, down), axis(backward, forward)). */
  function Axes(keys: Keys): (r: (int, int, int))
    ensures forall d: Direction :: AxisComponent(r, AxisOf(d).0) == AxisOf(d).1 <==> Held(keys, d) && !Held(keys, Opposite(d))
  {
    (Axis(keys.right, keys.left), Axis(keys.up, keys.down), Axis(keys.backward, keys.forward))
  }

  /** Component i of an (x, y, z) triple. */
  function AxisComponent(axes: (int, int, int), i: nat): int
  {
    if i == 0 then axes.0 else if i == 1 then axes.1 else axes.2
  }

  /**
   * Pressing a key whose opposite is up turns its axis fully its way; releasing
   * it again leaves the axis at 0 or at the opposite key's direction.
   */
  lemma PressSteers(keys: Keys, d: Direction)
    ensures !Held(keys, Opposite(d)) ==>
      AxisComponent(Axes(Press(keys, KeyboardInput(Scancode(d), Pressed))), AxisOf(d).0) == AxisOf(d).1
    ensures AxisComponent(Axes(Press(keys, KeyboardInput(Scancode(d), Released))), AxisOf(d).0) != AxisOf(d).1
  {
    ScancodeRoundTrip(d, Scancode(d));
    ScancodeRoundTrip(Opposite(d), Scancode(d));
  }

  /** `Movement`: the six flags, updated in place by key events. */
  class Movement {
    var forward: bool
    var backward: bool
    var left: bool
    var right: bool
    var up: bool
    var down: bool

    /** The flags as a value. */
    function Flags(): Keys
      reads this
    {
      Keys(forward, backward, left, right, up, down)
    }

    /** `Movement::default()`: no key held. */
    constructor ()
      ensures Flags() == NoKeys
    {
      forward, backward, left, right, up, down := false, false, false, false, false, false;
    }

    /** `Movement::update`: write IsDown(state) to the flag the scancode selects, if any. */
    method Update(input: KeyboardInput)
      modifies this
      ensures Flags() == Press(old(Flags()), input)
    {
      var value := IsDown(input.state);
      match DirectionOf(input.scancode)
      case Some(Forward) => forward := value;
      case Some(Left) => left := value;
      case Some(Backward) => backward := value;
      case Some(Right) => right := value;
      case Some(Up) => up := value;
      case Some(Down) => down := value;
      case None =>
    }

    /** `axes` read off the current flags, each component in {-1, 0, 1}. */
    function CurrentAxes(): (r: (int, int, int))
      reads this
      ensures r.0 in {-1, 0, 1} && r.1 in {-1, 0, 1} && r.2 in {-1, 0, 1}
      ensures r.0 == 1 <==> right && !left
      ensures r.0 == -1 <==> left && !right
      ensures r.1 == 1 <==> up && !down
      ensures r.1 == -1 <==> down && !up
      ensures r.2 == 1 <==> backward && !forward
      ensures r.2 == -1 <==> forward && !backward
    {
      Axes(Flags())
    }
  }

  /** `Mouse`: the latest motion deltas and scroll amount. */
  datatype Mouse = Mouse(deltaX: real, deltaY: real, scroll: real)

  const DefaultMouse := Mouse(0.0, 0.0, 0.0)

  datatype ScrollDelta = LineDelta(x: real, y: real) | PixelDelta(x: real, y: real)

  datatype DeviceEvent = MouseMotion(dx: real, dy: real) | MouseWheel(delta: ScrollDelta) | OtherDevice

  /**
   * `Mouse::update`: motion replaces both deltas and keeps the scroll; a wheel
   * event replaces the scroll by a tenth of its line count or a hundredth of
   * its horizontal pixel count and keeps the deltas; anything else is ignored.
   */
  function MouseUpdate(mouse: Mouse, event: DeviceEvent): (r: Mouse)
    ensures event.MouseMotion? ==> r == mouse.(deltaX := event.dx, deltaY := event.dy)
    ensures event.MouseWheel? ==> r.deltaX == mouse.deltaX && r.deltaY == mouse.deltaY
    ensures event.MouseWheel? && event.delta.LineDelta? ==> r.scroll * 10.0 == event.delta.y
    ensures event.MouseWheel? && event.delta.PixelDelta? ==> r.scroll * 100.0 == event.delta.x
    ensures event.OtherDevice? ==> r == mouse
  {
    match event
    case MouseMotion(dx, dy) => mouse.(deltaX := dx, deltaY := dy)
    case MouseWheel(delta) =>
      mouse.(scroll := match delta
        case LineDelta(_, y) => y / 10.0
        case PixelDelta(x, _) => x / 100.0)
    case OtherDevice => mouse
  }

  /** The window-loop events `Input::update` distinguishes. */
  datatype Event = NewEvents | Device(event: DeviceEvent) | Keyboard(input: KeyboardInput) | OtherEvent

  /** What `Input` holds: the movement flags and the mouse. */
  datatype InputState = InputState(keys: Keys, mouse: Mouse)

  /** The effect of one event on the input state. */
  function Step(s: InputState, e: Event): (r: InputState)
    ensures e.NewEvents? ==> r == InputState(s.keys, DefaultMouse)
    ensures e.Device? ==> r.keys == s.keys
    ensures e.Keyboard? ==> r.mouse == s.mouse
    ensures e.OtherEvent? ==> r == s
  {
    match e
    case NewEvents => s.(mouse := DefaultMouse)
    case Device(event) => s.(mouse := MouseUpdate(s.mouse, event))
    case Keyboard(input) => s.(keys := Press(s.keys, input))
    case OtherEvent => s
  }

  /** The state after a batch of events, in order. */
  function Replay(s: InputState, events: seq<Event>): InputState
    decreases |events|
  {
    if |events| == 0 then s else Replay(Step(s, events[0]), events[1..])
  }

  /** The key events of a batch, in order. */
  function KeyEvents(events: seq<Event>): (r: seq<KeyboardInput>)
    ensures |r| <= |events|
    decreases |events|
  {
    if |events| == 0 then []
    else (if events[0].Keyboard? then [events[0].input] else []) + KeyEvents(events[1..])
  }

  /** The flags after key events, in order. */
  function PressAll(keys: Keys, inputs: seq<KeyboardInput>): Keys
    decreases |inputs|
  {
    if |inputs| == 0 then keys else PressAll(Press(keys, inputs[0]), inputs[1..])
  }

  /** The flags depend on the key events alone: mouse and other events never touch them. */
  lemma {:induction false} KeysFollowKeyEvents(s: InputState, events: seq<Event>)
    ensures Replay(s, events).keys == PressAll(s.keys, KeyEvents(events))
    decreases |events|
  {
    if |events| > 0 {
      KeysFollowKeyEvents(Step(s, events[0]), events[1..]);
      if events[0].Keyboard? {
        assert KeyEvents(events) == [events[0].input] + KeyEvents(events[1..]);
        assert KeyEvents(events)[1..] == KeyEvents(events[1..]);
      } else {
        assert KeyEvents(events) == KeyEvents(events[1..]);
      }
    }
  }

  /** A batch that ends with NewEvents leaves the mouse at its default, whatever came before. */
  lemma {:induction false} NewEventsClearsMouse(s: InputState, events: seq<Event>)
    requires |events| > 0 && events[|events| - 1] == NewEvents
    ensures Replay(s, events).mouse == DefaultMouse
    decreases |events|
  {
    if |events| > 1 {
      NewEventsClearsMouse(Step(s, events[0]), events[1..]);
    }
  }

  /** `Input`: the movement flags (an object updated in place) and the mouse (a value replaced). */
  class Input {
    const movement: Movement
    var mouse: Mouse

    /** The whole state as a value. */
    function State(): InputState
      reads this, movement
    {
      InputState(movement.Flags(), mouse)
    }

    /** `Input::default()`. */
    constructor ()
      ensures State() == InputState(NoKeys, DefaultMouse)
      ensures fresh(movement)
    {
      movement := new Movement();
      mouse := DefaultMouse;
    }

    /**
     * `Input::update`: NewEvents resets the mouse, a device event updates it,
     * a key event goes to the movement flags, anything else is ignored.
     */
    method Update(e: Event)
      modifies this, movement
      ensures State() == Step(old(State()), e)
    {
      match e
      case NewEvents => mouse := DefaultMouse;
      case Device(event) => mouse := MouseUpdate(mouse, event);
      case Keyboard(input) => movement.Update(input);
      case OtherEvent =>
    }
  }
}
