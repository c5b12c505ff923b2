/** The client's per-frame input record and how it is folded from the device
    events of one frame. */
module PlayerInputs {
  import opened Common

  datatype MouseButton = Primary | Secondary | OtherButton
  datatype MouseEvent = Motion(x: real, y: real, dx: real, dy: real) | Wheel(dx: real, dy: real) | OtherMouseEvent
  datatype KeyboardKey = W | A | S | D | Up | Down | Left | Right | OtherKey(code: nat)
  datatype WindowEvent = CaptureMouse | ReleaseMouse | RequestFullscreen | ReleaseFullscreen
  datatype Gamepad = Gamepad(leftJoystick: Vec2, rightJoystick: Vec2)

  datatype Window = Window(focus: bool, canvasSize: (U32, U32), pixelRatio: real, events: seq<WindowEvent>)

  /** One frame of device state. `gamepads` is in the iteration order of the
      engine's gamepad map; `keyboard` is the list of held keys, both iterated and
      copied. */
  datatype Devices = Devices(
    window: Window,
    buttons: seq<MouseButton>,
    mouseEvents: seq<MouseEvent>,
    keyboard: seq<KeyboardKey>,
    gamepads: seq<Gamepad>)

  // The field writes of `from_devices`, one per kind of event.

  function MouseDeltaOf(e: MouseEvent): Option<Vec2> {
    match e
    case Motion(_, _, dx, dy) => Some(Vec2(dx, dy))
    case Wheel(dx, dy) => Some(Vec2(dx, dy))
    case OtherMouseEvent => None
  }

  function KeyX(k: KeyboardKey): Option<real> {
    match k
    case D => Some(1.0)
    case Right => Some(1.0)
    case A => Some(-1.0)
    case Left => Some(-1.0)
    case _ => None
  }

  function KeyZ(k: KeyboardKey): Option<real> {
    match k
    case W => Some(1.0)
    case Up => Some(1.0)
    case S => Some(-1.0)
    case Down => Some(-1.0)
    case _ => None
  }

  const DEAD_ZONE: real := 0.02

  /** A stick axis counts only outside the dead zone [-DEAD_ZONE, DEAD_ZONE]. */
  predicate OutsideDeadZone(v: real) {
    v > DEAD_ZONE || v < -DEAD_ZONE
  }

  /** Left stick x moves the direction's x. */
  function PadDirectionX(g: Gamepad): Option<real> {
    if OutsideDeadZone(g.leftJoystick.x) then Some(g.leftJoystick.x) else None
  }

  /** Left stick y moves the direction's z, negated. */
  function PadDirectionZ(g: Gamepad): Option<real> {
    if OutsideDeadZone(g.leftJoystick.y) then Some(-g.leftJoystick.y) else None
  }

  /** The right stick's x is copied into the mouse delta when the LEFT stick's x
      is outside the dead zone. */
  function PadDeltaX(g: Gamepad): Option<real> {
    if OutsideDeadZone(g.leftJoystick.x) then Some(g.rightJoystick.x) else None
  }

  function PadDeltaY(g: Gamepad): Option<real> {
    if OutsideDeadZone(g.leftJoystick.y) then Some(g.rightJoystick.y) else None
  }

  function MouseLockOf(e: WindowEvent): Option<bool> {
    match e
    case CaptureMouse => Some(true)
    case ReleaseMouse => Some(false)
    case _ => None
  }

  function FullscreenOf(e: WindowEvent): Option<bool> {
    match e
    case RequestFullscreen => Some(true)
    case ReleaseFullscreen => Some(false)
    case _ => None
  }

  /** The key mapping: D or Right sets x to 1, A or Left to -1, W or Up sets z to
      1, S or Down to -1; the last key mapped to an axis decides it. */
  lemma LastKeyDecides(dir: Vec3, keys: seq<KeyboardKey>, kx: nat, kz: nat)
    requires LastWriter(keys, KeyX, kx) && LastWriter(keys, KeyZ, kz)
    ensures Latest(dir.x, keys, KeyX) == (if keys[kx] == D || keys[kx] == Right then 1.0 else -1.0)
    ensures Latest(dir.z, keys, KeyZ) == (if keys[kz] == W || keys[kz] == Up then 1.0 else -1.0)
  {
    LastWriteWins(dir.x, keys, KeyX, kx);
    LastWriteWins(dir.z, keys, KeyZ, kz);
  }

  /** Gamepads whose left stick rests inside the dead zone change neither the
      direction nor the mouse delta. */
  lemma RestingSticksIgnored(dir: Vec3, delta: Vec2, pads: seq<Gamepad>)
    requires forall j | 0 <= j < |pads| ::
      !OutsideDeadZone(pads[j].leftJoystick.x) && !OutsideDeadZone(pads[j].leftJoystick.y)
    ensures Latest(dir.x, pads, PadDirectionX) == dir.x && Latest(dir.z, pads, PadDirectionZ) == dir.z
    ensures Latest(delta.x, pads, PadDeltaX) == delta.x && Latest(delta.y, pads, PadDeltaY) == delta.y
  {
    NoWriteKeeps(dir.x, pads, PadDirectionX);
    NoWriteKeeps(dir.z, pads, PadDirectionZ);
    NoWriteKeeps(delta.x, pads, PadDeltaX);
    NoWriteKeeps(delta.y, pads, PadDeltaY);
  }

  /** The button loop of `from_devices`. */
  method PressButtons(left: bool, right: bool, buttons: seq<MouseButton>) returns (l: bool, r: bool)
    ensures l == (left || Primary in buttons)
    ensures r == (right || Secondary in buttons)
  {
    l, r := left, right;
    for i := 0 to |buttons|
      invariant l == (left || Primary in buttons[..i])
      invariant r == (right || Secondary in buttons[..i])
    {
      assert buttons[..i + 1] == buttons[..i] + [buttons[i]];
      match buttons[i]
      case Primary => l := true;
      case Secondary => r := true;
      case OtherButton =>
    }
    assert buttons[..|buttons|] == buttons;
  }

  /** The mouse-event loop: motion and wheel events overwrite the delta. */
  method ApplyMouseEvents(delta: Vec2, events: seq<MouseEvent>) returns (r: Vec2)
    ensures r == Latest(delta, events, MouseDeltaOf)
  {
    r := delta;
    for i := 0 to |events|
      invariant r == Latest(delta, events[..i], MouseDeltaOf)
    {
      assert events[..i + 1] == events[..i] + [events[i]];
      LatestSnoc(delta, events[..i], events[i], MouseDeltaOf);
      match events[i]
      case Motion(_, _, dx, dy) =>
        r := r.(x := dx);
        r := r.(y := dy);
      case Wheel(dx, dy) =>
        r := r.(x := dx);
        r := r.(y := dy);
      case OtherMouseEvent =>
    }
    assert events[..|events|] == events;
  }

  /** The keyboard loop: mapped keys overwrite the direction's x or z. */
  method ApplyKeys(dir: Vec3, keys: seq<KeyboardKey>) returns (r: Vec3)
    ensures r == Vec3(Latest(dir.x, keys, KeyX), dir.y, Latest(dir.z, keys, KeyZ))
  {
    r := dir;
    for i := 0 to |keys|
      invariant r == Vec3(Latest(dir.x, keys[..i], KeyX), dir.y, Latest(dir.z, keys[..i], KeyZ))
    {
      assert keys[..i + 1] == keys[..i] + [keys[i]];
      LatestSnoc(dir.x, keys[..i], keys[i], KeyX);
      LatestSnoc(dir.z, keys[..i], keys[i], KeyZ);
      match keys[i]
      case D => r := r.(x := 1.0);
      case Right => r := r.(x := 1.0);
      case A => r := r.(x := -1.0);
      case Left => r := r.(x := -1.0);
      case W => r := r.(z := 1.0);
      case Up => r := r.(z := 1.0);
      case S => r := r.(z := -1.0);
      case Down => r := r.(z := -1.0);
      case OtherKey(_) =>
    }
    assert keys[..|keys|] == keys;
  }

  /** The gamepad loop: sticks outside the dead zone overwrite direction and delta. */
  method ApplyGamepads(dir: Vec3, delta: Vec2, pads: seq<Gamepad>) returns (d: Vec3, m: Vec2)
    ensures d == Vec3(Latest(dir.x, pads, PadDirectionX), dir.y, Latest(dir.z, pads, PadDirectionZ))
    ensures m == Vec2(Latest(delta.x, pads, PadDeltaX), Latest(delta.y, pads, PadDeltaY))
  {
    d, m := dir, delta;
    for i := 0 to |pads|
      invariant d == Vec3(Latest(dir.x, pads[..i], PadDirectionX), dir.y, Latest(dir.z, pads[..i], PadDirectionZ))
      invariant m == Vec2(Latest(delta.x, pads[..i], PadDeltaX), Latest(delta.y, pads[..i], PadDeltaY))
    {
      var g := pads[i];
      assert pads[..i + 1] == pads[..i] + [g];
      LatestSnoc(dir.x, pads[..i], g, PadDirectionX);
      LatestSnoc(dir.z, pads[..i], g, PadDirectionZ);
      LatestSnoc(delta.x, pads[..i], g, PadDeltaX);
      LatestSnoc(delta.y, pads[..i], g, PadDeltaY);
      if g.leftJoystick.x > DEAD_ZONE || g.leftJoystick.x < -DEAD_ZONE {
        d := d.(x := g.leftJoystick.x);
      }
      if g.leftJoystick.y > DEAD_ZONE || g.leftJoystick.y < -DEAD_ZONE {
        d := d.(z := -g.leftJoystick.y);
      }
      if g.leftJoystick.x > DEAD_ZONE || g.leftJoystick.x < -DEAD_ZONE {
        m := m.(x := g.rightJoystick.x);
      }
      if g.leftJoystick.y > DEAD_ZONE || g.leftJoystick.y < -DEAD_ZONE {
        m := m.(y := g.rightJoystick.y);
      }
    }
    assert pads[..|pads|] == pads;
  }

  /** The window-event loop: capture/release set the mouse lock, request/release
      set fullscreen. */
  method ApplyWindowEvents(lock: bool, fullscreen: bool, events: seq<WindowEvent>) returns (l: bool, f: bool)
    ensures l == Latest(lock, events, MouseLockOf)
    ensures f == Latest(fullscreen, events, FullscreenOf)
  {
    l, f := lock, fullscreen;
    for i := 0 to |events|
      invariant l == Latest(lock, events[..i], MouseLockOf)
      invariant f == Latest(fullscreen, events[..i], FullscreenOf)
    {
      var e := events[i];
      assert events[..i + 1] == events[..i] + [e];
      LatestSnoc(lock, events[..i], e, MouseLockOf);
      LatestSnoc(fullscreen, events[..i], e, FullscreenOf);
      match e
      case CaptureMouse => l := true;
      case ReleaseMouse => l := false;
      case RequestFullscreen => f := true;
      case ReleaseFullscreen => f := false;
    }
    assert events[..|events|] == events;
  }

  class PlayerInput {
    var directionVector: Vec3
    var mouseDelta: Vec2
    var mousePosition: Vec2
    var mouseLock: bool
    var isFullscreen: bool
    var focused: bool
    var leftClick: bool
    var rightClick: bool
    var canvas: (U32, U32)
    var pixelRatio: real
    var keyboard: seq<KeyboardKey>

    /** The state `new` gives. */
    predicate IsNew()
      reads this
    {
      && directionVector == Zero3 && mouseDelta == Zero2 && mousePosition == Zero2
      && !mouseLock && !isFullscreen && !focused && !leftClick && !rightClick
      && canvas == (0, 0) && pixelRatio == 1.0 && keyboard == []
    }

    /** `new(width, height)`: the arguments are ignored; the canvas starts at (0, 0). */
    constructor New(width: U32, height: U32)
      ensures IsNew()
    {
      directionVector := Zero3;
      mouseDelta := Zero2;
      mousePosition := Zero2;
      mouseLock := false;
      isFullscreen := false;
      focused := false;
      leftClick := false;
      rightClick := false;
      canvas := (0, 0);
      pixelRatio := 1.0;
      keyboard := [];
    }

    /** `Default` is `new(1920, 1080)`. */
    static method Default() returns (p: PlayerInput)
      ensures fresh(p) && p.IsNew()
    {
      p := new PlayerInput.New(1920, 1080);
    }

    /** Zeroes the three vectors; clicks, flags, canvas, ratio and keyboard stay. */
    method Reset()
      modifies this
      ensures directionVector == Zero3 && mouseDelta == Zero2 && mousePosition == Zero2
      ensures mouseLock == old(mouseLock) && isFullscreen == old(isFullscreen) && focused == old(focused)
      ensures leftClick == old(leftClick) && rightClick == old(rightClick)
      ensures canvas == old(canvas) && pixelRatio == old(pixelRatio) && keyboard == old(keyboard)
    {
      directionVector := Zero3;
      mouseDelta := Zero2;
      mousePosition := Zero2;
    }

    /** Folds one frame of device state into the record. Window focus, canvas,
        pixel ratio and held keys are copied; a primary or secondary button press
        sets its click (and nothing ever clears it here); the mouse delta is that
        of the last motion or wheel event, then overridden per axis by gamepads;
        the direction's x and z come from the last mapped key, then from gamepad
        sticks outside the dead zone; the mouse lock and fullscreen flags follow the
        last window event of their kind. The mouse position and the direction's y
        are never written. */
    method FromDevices(d: Devices)
      modifies this
      ensures focused == d.window.focus && canvas == d.window.canvasSize
      ensures pixelRatio == d.window.pixelRatio && keyboard == d.keyboard
      ensures leftClick == (old(leftClick) || Primary in d.buttons)
      ensures rightClick == (old(rightClick) || Secondary in d.buttons)
      ensures var m := Latest(old(mouseDelta), d.mouseEvents, MouseDeltaOf);
        mouseDelta == Vec2(Latest(m.x, d.gamepads, PadDeltaX), Latest(m.y, d.gamepads, PadDeltaY))
      ensures directionVector == Vec3(
        Latest(Latest(old(directionVector).x, d.keyboard, KeyX), d.gamepads, PadDirectionX),
        old(directionVector).y,
        Latest(Latest(old(directionVector).z, d.keyboard, KeyZ), d.gamepads, PadDirectionZ))
      ensures mouseLock == Latest(old(mouseLock), d.window.events, MouseLockOf)
      ensures isFullscreen == Latest(old(isFullscreen), d.window.events, FullscreenOf)
      ensures mousePosition == old(mousePosition)
    {
      var left, right := PressButtons(leftClick, rightClick, d.buttons);
      var delta := ApplyMouseEvents(mouseDelta, d.mouseEvents);
      var dir := ApplyKeys(directionVector, d.keyboard);
      dir, delta := ApplyGamepads(dir, delta, d.gamepads);
      var lock, fullscreen := ApplyWindowEvents(mouseLock, isFullscreen, d.window.events);
      focused, canvas, pixelRatio := d.window.focus, d.window.canvasSize, d.window.pixelRatio;
      leftClick, rightClick, keyboard := left, right, d.keyboard;
      directionVector, mouseDelta := dir, delta;
      mouseLock, isFullscreen := lock, fullscreen;
    }
  }
}
