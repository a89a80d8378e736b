/**
 * Per-tick input state (src/input.rs): button sets for keys and mouse
 * buttons, accumulated mouse motion, the cursor position and the window
 * focus that gates every query.
 */
module Input {
  import opened Wrappers

  /** winit's `ElementState`. */
  datatype ElementState = Pressed | Released

  /** A key code, winit's `VirtualKeyCode` by its number. */
  type KeyCode = nat

  /** winit's `MouseButton`. */
  datatype MouseButton = Left | Right | Middle | Other(code: nat)

  /** The three sets of a button set, as a value. */
  datatype Buttons<T> = Buttons(pressed: set<T>, released: set<T>, held: set<T>)

  /** `button_state_changed` on values. */
  function Changed<T>(b: Buttons<T>, button: T, state: ElementState): Buttons<T> {
    match state
    case Pressed =>
      if button in b.held then b
      else b.(held := b.held + {button}, pressed := b.pressed + {button})
    case Released =>
      b.(released := b.released + {button}, held := b.held - {button})
  }

  /** `ButtonSet::update` on values. */
  function EndTick<T>(b: Buttons<T>): Buttons<T> {
    b.(pressed := {}, released := {})
  }

  /**
   * A press makes the button held; it is reported as pressed this tick
   * exactly when it was not held before, so a repeated press is not
   * reported again. Nothing else changes.
   */
  lemma PressReportedOnce<T>(b: Buttons<T>, button: T, other: T)
    requires other != button
    ensures button in Changed(b, button, Pressed).held
    ensures button in Changed(b, button, Pressed).pressed <==> button in b.pressed || button !in b.held
    ensures b.released == Changed(b, button, Pressed).released
    ensures (other in Changed(b, button, Pressed).pressed <==> other in b.pressed)
         && (other in Changed(b, button, Pressed).held <==> other in b.held)
  {
  }

  /** A release is reported this tick and the button is no longer held; nothing else changes. */
  lemma ReleaseReported<T>(b: Buttons<T>, button: T, other: T)
    requires other != button
    ensures button in Changed(b, button, Released).released
    ensures button !in Changed(b, button, Released).held
    ensures Changed(b, button, Released).pressed == b.pressed
    ensures (other in Changed(b, button, Released).released <==> other in b.released)
         && (other in Changed(b, button, Released).held <==> other in b.held)
  {
  }

  /** Pressing and releasing within one tick reports both, and leaves the button not held. */
  lemma PressThenRelease<T>(b: Buttons<T>, button: T)
    requires button !in b.held
    ensures var after := Changed(Changed(b, button, Pressed), button, Released);
      button in after.pressed && button in after.released && button !in after.held
  {
  }

  /** The end of a tick forgets what was pressed and released, keeps what is held, and is idempotent. */
  lemma EndTickKeepsHeld<T>(b: Buttons<T>)
    ensures EndTick(b).held == b.held
    ensures EndTick(b).pressed == {} && EndTick(b).released == {}
    ensures EndTick(EndTick(b)) == EndTick(b)
  {
  }

  /** `ButtonSet<T>`: what was pressed and released this tick, and what is held. */
  class ButtonSet<T(==)> {
    var pressed: set<T>
    var released: set<T>
    var held: set<T>

    /** The three sets as one value. */
    function State(): Buttons<T>
      reads this
    {
      Buttons(pressed, released, held)
    }

    /** `ButtonSet::new`: all three sets empty. */
    constructor ()
      ensures State() == Buttons({}, {}, {})
    {
      pressed, released, held := {}, {}, {};
    }

    /** `was_button_pressed`: false when unfocused. */
    function WasButtonPressed(button: T, isFocused: bool): (r: bool)
      reads this
      ensures r ==> isFocused
    {
      isFocused && button in pressed
    }

    /** `was_button_released`: false when unfocused. */
    function WasButtonReleased(button: T, isFocused: bool): (r: bool)
      reads this
      ensures r ==> isFocused
    {
      isFocused && button in released
    }

    /** `is_button_held`: false when unfocused. */
    function IsButtonHeld(button: T, isFocused: bool): (r: bool)
      reads this
      ensures r ==> isFocused
    {
      isFocused && button in held
    }

    /** `button_state_changed`: a press joins `held`, and `pressed` only when it was not held; a release joins `released` and leaves `held`. */
    method ButtonStateChanged(button: T, state: ElementState)
      modifies this
      ensures State() == Changed(old(State()), button, state)
    {
      match state {
        case Pressed =>
          if button !in held {
            held := held + {button};
            pressed := pressed + {button};
          }
        case Released =>
          released := released + {button};
          held := held - {button};
      }
    }

    /** `update`: empties the per-tick sets and keeps `held`. */
    method Update()
      modifies this
      ensures State() == EndTick(old(State()))
    {
      pressed := {};
      released := {};
    }
  }

  /** The window events `process_button` looks at; every other event is `OtherEvent`. */
  datatype WindowEvent =
    | KeyboardInput(keyState: ElementState, keycode: Option<KeyCode>)
    | MouseInput(buttonState: ElementState, button: MouseButton)
    | CursorMoved(x: real, y: real)
    | OtherEvent

  /** `is_mouse_in`: the cursor lies in the rectangle, all four edges included. */
  function MouseIn(mouseX: real, mouseY: real, x: real, y: real, width: real, height: real): bool {
    mouseX >= x && mouseX <= x + width && mouseY >= y && mouseY <= y + height
  }

  /** The rectangle test includes its corners and excludes any point left of or above it. */
  lemma MouseInEdges(x: real, y: real, width: real, height: real, px: real, py: real)
    requires width >= 0.0 && height >= 0.0
    ensures MouseIn(x, y, x, y, width, height) && MouseIn(x + width, y + height, x, y, width, height)
    ensures px < x || py < y ==> !MouseIn(px, py, x, y, width, height)
  {
  }

  /** `Input`: the key and mouse-button sets, the motion accumulated this tick, the cursor and the focus. */
  class Input {
    const keys: ButtonSet<KeyCode>
    const mouseButtons: ButtonSet<MouseButton>
    var mouseDeltaX: real
    var mouseDeltaY: real
    var mouseX: real
    var mouseY: real
    var isFocused: bool

    /** `Input::new`: empty sets, no motion, cursor at the origin, unfocused. */
    constructor ()
      ensures fresh(keys) && fresh(mouseButtons)
      ensures keys.State() == Buttons({}, {}, {}) && mouseButtons.State() == Buttons({}, {}, {})
      ensures mouseDeltaX == 0.0 && mouseDeltaY == 0.0 && mouseX == 0.0 && mouseY == 0.0
      ensures !isFocused
    {
      keys := new ButtonSet();
      mouseButtons := new ButtonSet();
      mouseDeltaX, mouseDeltaY := 0.0, 0.0;
      mouseX, mouseY := 0.0, 0.0;
      isFocused := false;
    }

    /** `was_key_pressed`: gated by focus. */
    function WasKeyPressed(keycode: KeyCode): (r: bool)
      reads this, keys
      ensures r <==> isFocused && keycode in keys.pressed
    {
      keys.WasButtonPressed(keycode, isFocused)
    }

    /** `was_key_released`: gated by focus. */
    function WasKeyReleased(keycode: KeyCode): (r: bool)
      reads this, keys
      ensures r <==> isFocused && keycode in keys.released
    {
      keys.WasButtonReleased(keycode, isFocused)
    }

    /** `is_key_held`: gated by focus. */
    function IsKeyHeld(keycode: KeyCode): (r: bool)
      reads this, keys
      ensures r <==> isFocused && keycode in keys.held
    {
      keys.IsButtonHeld(keycode, isFocused)
    }

    /** `was_mouse_button_pressed`: gated by focus. */
    function WasMouseButtonPressed(button: MouseButton): (r: bool)
      reads this, mouseButtons
      ensures r <==> isFocused && button in mouseButtons.pressed
    {
      mouseButtons.WasButtonPressed(button, isFocused)
    }

    /** `was_mouse_button_pressed_ignore_focus`: answers as if focused. */
    function WasMouseButtonPressedIgnoreFocus(button: MouseButton): (r: bool)
      reads mouseButtons
      ensures r <==> button in mouseButtons.pressed
    {
      mouseButtons.WasButtonPressed(button, true)
    }

    /** `was_mouse_button_released`: gated by focus. */
    function WasMouseButtonReleased(button: MouseButton): (r: bool)
      reads this, mouseButtons
      ensures r <==> isFocused && button in mouseButtons.released
    {
      mouseButtons.WasButtonReleased(button, isFocused)
    }

    /** `is_mouse_button_held`: gated by focus. */
    function IsMouseButtonHeld(button: MouseButton): (r: bool)
      reads this, mouseButtons
      ensures r <==> isFocused && button in mouseButtons.held
    {
      mouseButtons.IsButtonHeld(button, isFocused)
    }

    /** `mouse_delta_x`: the motion accumulated this tick when focused, otherwise 0. */
    function MouseDeltaX(): (r: real)
      reads this
      ensures r == if isFocused then mouseDeltaX else 0.0
    {
      if isFocused then mouseDeltaX else 0.0
    }

    /** `mouse_delta_y`: the motion accumulated this tick when focused, otherwise 0. */
    function MouseDeltaY(): (r: real)
      reads this
      ensures r == if isFocused then mouseDeltaY else 0.0
    {
      if isFocused then mouseDeltaY else 0.0
    }

    /** `is_mouse_in`, on the cursor position. */
    function IsMouseIn(x: real, y: real, width: real, height: real): bool
      reads this
    {
      MouseIn(mouseX, mouseY, x, y, width, height)
    }

    /** `key_state_changed`. */
    method KeyStateChanged(keycode: KeyCode, state: ElementState)
      modifies keys
      ensures keys.State() == Changed(old(keys.State()), keycode, state)
    {
      keys.ButtonStateChanged(keycode, state);
    }

    /** `mouse_button_state_changed`. */
    method MouseButtonStateChanged(button: MouseButton, state: ElementState)
      modifies mouseButtons
      ensures mouseButtons.State() == Changed(old(mouseButtons.State()), button, state)
    {
      mouseButtons.ButtonStateChanged(button, state);
    }

    /**
     * `process_button`: a key event with a key code goes to the key set, a
     * mouse-button event to the mouse set, a cursor move sets the position;
     * these answer true, and every other event (a key without a code
     * included) changes nothing and answers false.
     */
    method ProcessButton(event: WindowEvent) returns (handled: bool)
      modifies this, keys, mouseButtons
      ensures handled <==> !(event.OtherEvent? || (event.KeyboardInput? && event.keycode.None?))
      ensures event.KeyboardInput? && event.keycode.Some? ==>
        keys.State() == Changed(old(keys.State()), event.keycode.value, event.keyState)
      ensures !(event.KeyboardInput? && event.keycode.Some?) ==> keys.State() == old(keys.State())
      ensures event.MouseInput? ==>
        mouseButtons.State() == Changed(old(mouseButtons.State()), event.button, event.buttonState)
      ensures !event.MouseInput? ==> mouseButtons.State() == old(mouseButtons.State())
      ensures event.CursorMoved? ==> mouseX == event.x && mouseY == event.y
      ensures !event.CursorMoved? ==> mouseX == old(mouseX) && mouseY == old(mouseY)
      ensures mouseDeltaX == old(mouseDeltaX) && mouseDeltaY == old(mouseDeltaY) && isFocused == old(isFocused)
    {
      match event {
        case KeyboardInput(state, keycode) =>
          if keycode.None? {
            return false;
          }
          KeyStateChanged(keycode.value, state);
        case MouseInput(state, button) =>
          MouseButtonStateChanged(button, state);
        case CursorMoved(x, y) =>
          mouseX := x;
          mouseY := y;
        case OtherEvent =>
          return false;
      }
      return true;
    }

    /** `mouse_moved` (and `process_mouse_motion`): adds the motion to this tick's totals. */
    method MouseMoved(deltaX: real, deltaY: real)
      modifies this
      ensures mouseDeltaX == old(mouseDeltaX) + deltaX && mouseDeltaY == old(mouseDeltaY) + deltaY
      ensures mouseX == old(mouseX) && mouseY == old(mouseY) && isFocused == old(isFocused)
    {
      mouseDeltaX := mouseDeltaX + deltaX;
      mouseDeltaY := mouseDeltaY + deltaY;
    }

    /** `set_focused`, without the cursor grab it asks of the window. */
    method SetFocused(focused: bool)
      modifies this
      ensures isFocused == focused
      ensures mouseDeltaX == old(mouseDeltaX) && mouseDeltaY == old(mouseDeltaY)
      ensures mouseX == old(mouseX) && mouseY == old(mouseY)
    {
      isFocused := focused;
    }

    /** `Input::update`: ends the tick for both button sets and zeroes the motion. */
    method Update()
      modifies this, keys, mouseButtons
      ensures keys.State() == EndTick(old(keys.State()))
      ensures mouseButtons.State() == EndTick(old(mouseButtons.State()))
      ensures mouseDeltaX == 0.0 && mouseDeltaY == 0.0
      ensures mouseX == old(mouseX) && mouseY == old(mouseY) && isFocused == old(isFocused)
    {
      keys.Update();
      mouseButtons.Update();
      mouseDeltaX := 0.0;
      mouseDeltaY := 0.0;
    }
  }

  /** Without focus every gated query is false, while the focus-ignoring mouse query still answers. */
  lemma UnfocusedQueriesFalse(input: Input, keycode: KeyCode, button: MouseButton)
    requires !input.isFocused && button in input.mouseButtons.pressed
    ensures !input.WasKeyPressed(keycode) && !input.WasKeyReleased(keycode) && !input.IsKeyHeld(keycode)
    ensures !input.WasMouseButtonPressed(button) && !input.WasMouseButtonReleased(button)
    ensures !input.IsMouseButtonHeld(button)
    ensures input.MouseDeltaX() == 0.0 && input.MouseDeltaY() == 0.0
    ensures input.WasMouseButtonPressedIgnoreFocus(button)
  {
  }
}
