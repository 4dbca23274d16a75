/**
 * The platform-independent input state: which keys and mouse buttons are
 * held, which went down or up during the current frame, and the cursor,
 * scroll and window values of the frame. Positions and deltas are `f32`
 * vectors in the engine; here they are integer pairs, so their additions
 * are exact.
 */
module InputState {
  import opened Wrappers

  datatype Key =
    | A | B | C | D | E | F | G | H | I | J | K | L | M | N | O | P | Q | R | S | T | U | V | W | X | Y | Z
    | Key0 | Key1 | Key2 | Key3 | Key4 | Key5 | Key6 | Key7 | Key8 | Key9
    | F1 | F2 | F3 | F4 | F5 | F6 | F7 | F8 | F9 | F10 | F11 | F12
    | Space | Enter | Escape | Backspace | Tab | Delete | Insert | Home | End | PageUp | PageDown
    | ShiftLeft | ShiftRight | ControlLeft | ControlRight | AltLeft | AltRight | SuperLeft | SuperRight
    | ArrowUp | ArrowDown | ArrowLeft | ArrowRight
    | Comma | Period | Slash | Backslash | Semicolon | Quote | BracketLeft | BracketRight | Minus | Equal | Grave
    | Numpad0 | Numpad1 | Numpad2 | Numpad3 | Numpad4 | Numpad5 | Numpad6 | Numpad7 | Numpad8 | Numpad9
    | NumpadAdd | NumpadSubtract | NumpadMultiply | NumpadDivide | NumpadDecimal | NumpadEnter

  datatype MouseButton = Left | Right | Middle | Back | Forward | Other(code: u16)

  datatype ButtonState = Pressed | Released

  datatype Vec2 = Vec2(x: int, y: int)
  {
    function Plus(v: Vec2): Vec2 { Vec2(x + v.x, y + v.y) }
    function Minus(v: Vec2): Vec2 { Vec2(x - v.x, y - v.y) }
  }

  const ZERO := Vec2(0, 0)

  /** The three sets one kind of button keeps: held now, gone down this frame, gone up this frame. */
  datatype Edges<T> = Edges(held: set<T>, down: set<T>, up: set<T>)

  /**
   * One button event: a press of a button not held makes it held and
   * down; a release of a held button makes it not held and up; a press of
   * a held button, or a release of one not held, changes nothing.
   */
  function Inject<T>(e: Edges<T>, b: T, state: ButtonState): (r: Edges<T>)
    ensures state == Pressed ==> r.held == e.held + {b} && r.up == e.up
    ensures state == Pressed ==> (b in e.held ==> r.down == e.down) && (b !in e.held ==> r.down == e.down + {b})
    ensures state == Released ==> r.held == e.held - {b} && r.down == e.down
    ensures state == Released ==> (b in e.held ==> r.up == e.up + {b}) && (b !in e.held ==> r.up == e.up)
  {
    match state
    case Pressed => if b !in e.held then Edges(e.held + {b}, e.down + {b}, e.up) else e
    case Released => if b in e.held then Edges(e.held - {b}, e.down, e.up + {b}) else e
  }

  /**
   * What the edge rules keep true within a frame: a button that went down
   * is still held or has gone up since, and a held button that went up has
   * gone down again since.
   */
  predicate Consistent<T>(e: Edges<T>)
  {
    e.down <= e.held + e.up && e.up * e.held <= e.down
  }

  lemma InjectConsistent<T>(e: Edges<T>, b: T, state: ButtonState)
    requires Consistent(e)
    ensures Consistent(Inject(e, b, state))
  {
  }

  /**
   * An event answers the queries for its own button only: afterwards a
   * pressed button is held, and down if it was down or not held before; a
   * released one is not held, and up if it was up or held before; every
   * other button answers as before.
   */
  lemma InjectTouchesOnlyItsButton<T>(e: Edges<T>, b: T, state: ButtonState, other: T)
    requires other != b
    ensures var r := Inject(e, b, state);
      && (state == Pressed ==> b in r.held && (b in r.down <==> b in e.down || b !in e.held) && (b in r.up <==> b in e.up))
      && (state == Released ==> b !in r.held && (b in r.up <==> b in e.up || b in e.held) && (b in r.down <==> b in e.down))
      && (other in r.held <==> other in e.held) && (other in r.down <==> other in e.down) && (other in r.up <==> other in e.up)
  {
  }

  /** A frame starts with nothing down or up, and the edge rules hold of that. */
  lemma StartFrameConsistent<T>(held: set<T>)
    ensures Consistent(Edges(held, {}, {}))
  {
  }

  /** The events of a frame, in order. */
  datatype Event<T> = Event(button: T, state: ButtonState)

  function Replay<T>(e: Edges<T>, events: seq<Event<T>>): Edges<T>
    decreases |events|
  {
    if events == [] then e
    else Replay(Inject(e, events[0].button, events[0].state), events[1..])
  }

  /** The state of a button's last event, if it has one. */
  function LastState<T(==)>(events: seq<Event<T>>, b: T): Option<ButtonState>
    decreases |events|
  {
    if events == [] then None
    else
      var last := events[|events| - 1];
      if last.button == b then Some(last.state) else LastState(events[..|events| - 1], b)
  }

  lemma {:induction false} ReplayAppend<T>(e: Edges<T>, events: seq<Event<T>>, ev: Event<T>)
    ensures Replay(e, events + [ev]) == Inject(Replay(e, events), ev.button, ev.state)
    decreases |events|
  {
    if events != [] {
      assert (events + [ev])[1..] == events[1..] + [ev];
      ReplayAppend(Inject(e, events[0].button, events[0].state), events[1..], ev);
    }
  }

  /**
   * Whatever the order of the events, a button is held afterwards exactly
   * when its last event was a press, or it had none and was held before.
   */
  lemma {:induction false} HeldIsLastEvent<T>(e: Edges<T>, events: seq<Event<T>>, b: T)
    ensures b in Replay(e, events).held <==>
              match LastState(events, b) case Some(s) => s == Pressed case None => b in e.held
    decreases |events|
  {
    if events != [] {
      var init, last := events[..|events| - 1], events[|events| - 1];
      assert events == init + [last];
      ReplayAppend(e, init, last);
      HeldIsLastEvent(e, init, b);
    }
  }

  /** The edge rules hold after any sequence of events in a frame. */
  lemma {:induction false} ReplayConsistent<T>(e: Edges<T>, events: seq<Event<T>>)
    requires Consistent(e)
    ensures Consistent(Replay(e, events))
    decreases |events|
  {
    if events != [] {
      InjectConsistent(e, events[0].button, events[0].state);
      ReplayConsistent(Inject(e, events[0].button, events[0].state), events[1..]);
    }
  }

  /** A press and a release within one frame: the key went down and up, and is not held. */
  lemma TapWithinFrame<T>(held: set<T>, b: T)
    requires b !in held
    ensures var e := Replay(Edges(held, {}, {}), [Event(b, Pressed), Event(b, Released)]);
      b in e.down && b in e.up && b !in e.held && e.held == held
  {
    var e0 := Edges(held, {}, {});
    var e1 := Inject(e0, b, Pressed);
    var e2 := Inject(e1, b, Released);
    assert [Event(b, Pressed), Event(b, Released)][1..] == [Event(b, Released)];
    assert [Event(b, Released)][1..] == [];
    assert Replay(e0, [Event(b, Pressed), Event(b, Released)]) == Replay(e1, [Event(b, Released)]) == Replay(e2, []) == e2;
  }

  /** `Input`. */
  class Input {
    var pressedKeys: set<Key>
    var justPressedKeys: set<Key>
    var justReleasedKeys: set<Key>
    var pressedMouse: set<MouseButton>
    var justPressedMouse: set<MouseButton>
    var justReleasedMouse: set<MouseButton>
    var mousePosition: Vec2
    var mouseDelta: Vec2
    var scrollDelta: Vec2
    var screenSize: Vec2

    ghost function Keys(): Edges<Key>
      reads this
    {
      Edges(pressedKeys, justPressedKeys, justReleasedKeys)
    }

    ghost function Mouse(): Edges<MouseButton>
      reads this
    {
      Edges(pressedMouse, justPressedMouse, justReleasedMouse)
    }

    /** The edge rules hold for the keys and for the mouse buttons. */
    ghost predicate Valid()
      reads this
    {
      Consistent(Keys()) && Consistent(Mouse())
    }

    /** `new`: nothing held, everything zero. */
    constructor ()
      ensures Valid()
      ensures Keys() == Edges({}, {}, {}) && Mouse() == Edges({}, {}, {})
      ensures mousePosition == ZERO && mouseDelta == ZERO && scrollDelta == ZERO && screenSize == ZERO
    {
      pressedKeys, justPressedKeys, justReleasedKeys := {}, {}, {};
      pressedMouse, justPressedMouse, justReleasedMouse := {}, {}, {};
      mousePosition, mouseDelta, scrollDelta, screenSize := ZERO, ZERO, ZERO, ZERO;
    }

    /** `start_frame`: the per-frame sets and deltas cleared, what is held and the positions kept. */
    method StartFrame()
      requires Valid()
      modifies this
      ensures Valid()
      ensures Keys() == Edges(old(pressedKeys), {}, {}) && Mouse() == Edges(old(pressedMouse), {}, {})
      ensures mouseDelta == ZERO && scrollDelta == ZERO
      ensures mousePosition == old(mousePosition) && screenSize == old(screenSize)
    {
      justPressedKeys := {};
      justReleasedKeys := {};
      justPressedMouse := {};
      justReleasedMouse := {};
      mouseDelta := ZERO;
      scrollDelta := ZERO;
      StartFrameConsistent(pressedKeys);
      StartFrameConsistent(pressedMouse);
    }

    /** `inject_key`: the edge rules on the key sets; nothing else changes. */
    method InjectKey(key: Key, state: ButtonState)
      requires Valid()
      modifies this
      ensures Valid()
      ensures Keys() == Inject(old(Keys()), key, state)
      ensures Mouse() == old(Mouse())
      ensures mousePosition == old(mousePosition) && mouseDelta == old(mouseDelta)
      ensures scrollDelta == old(scrollDelta) && screenSize == old(screenSize)
    {
      InjectConsistent(Keys(), key, state);
      match state
      case Pressed =>
        if key !in pressedKeys {
          pressedKeys := pressedKeys + {key};
          justPressedKeys := justPressedKeys + {key};
        }
      case Released =>
        if key in pressedKeys {
          pressedKeys := pressedKeys - {key};
          justReleasedKeys := justReleasedKeys + {key};
        }
    }

    /** `inject_mouse_button`: the same edge rules on the mouse-button sets. */
    method InjectMouseButton(button: MouseButton, state: ButtonState)
      requires Valid()
      modifies this
      ensures Valid()
      ensures Mouse() == Inject(old(Mouse()), button, state)
      ensures Keys() == old(Keys())
      ensures mousePosition == old(mousePosition) && mouseDelta == old(mouseDelta)
      ensures scrollDelta == old(scrollDelta) && screenSize == old(screenSize)
    {
      InjectConsistent(Mouse(), button, state);
      match state
      case Pressed =>
        if button !in pressedMouse {
          pressedMouse := pressedMouse + {button};
          justPressedMouse := justPressedMouse + {button};
        }
      case Released =>
        if button in pressedMouse {
          pressedMouse := pressedMouse - {button};
          justReleasedMouse := justReleasedMouse + {button};
        }
    }

    /**
     * `inject_mouse_position`: the movement since the last position added
     * to the frame's delta, except from the zero position, which stands
     * for "no position yet".
     */
    method InjectMousePosition(x: int, y: int)
      modifies this
      ensures mousePosition == Vec2(x, y)
      ensures old(mousePosition) != ZERO ==> mouseDelta == old(mouseDelta).Plus(Vec2(x, y).Minus(old(mousePosition)))
      ensures old(mousePosition) == ZERO ==> mouseDelta == old(mouseDelta)
      ensures Keys() == old(Keys()) && Mouse() == old(Mouse())
      ensures scrollDelta == old(scrollDelta) && screenSize == old(screenSize)
    {
      var newPosition := Vec2(x, y);
      if mousePosition != ZERO {
        mouseDelta := mouseDelta.Plus(newPosition.Minus(mousePosition));
      }
      mousePosition := newPosition;
    }

    /** `inject_scroll`: the frame's scroll delta grows by the event's. */
    method InjectScroll(dx: int, dy: int)
      modifies this
      ensures scrollDelta == old(scrollDelta).Plus(Vec2(dx, dy))
      ensures Keys() == old(Keys()) && Mouse() == old(Mouse())
      ensures mousePosition == old(mousePosition) && mouseDelta == old(mouseDelta) && screenSize == old(screenSize)
    {
      scrollDelta := scrollDelta.Plus(Vec2(dx, dy));
    }

    /** `inject_resize`. */
    method InjectResize(width: u32, height: u32)
      modifies this
      ensures screenSize == Vec2(width, height)
      ensures Keys() == old(Keys()) && Mouse() == old(Mouse())
      ensures mousePosition == old(mousePosition) && mouseDelta == old(mouseDelta) && scrollDelta == old(scrollDelta)
    {
      screenSize := Vec2(width, height);
    }

    /** `get_key`: held now. */
    predicate GetKey(key: Key)
      reads this
    {
      key in pressedKeys
    }

    /** `get_key_down`: went down this frame. */
    predicate GetKeyDown(key: Key)
      reads this
    {
      key in justPressedKeys
    }

    /** `get_key_up`: went up this frame. */
    predicate GetKeyUp(key: Key)
      reads this
    {
      key in justReleasedKeys
    }

    predicate GetMouseButton(button: MouseButton)
      reads this
    {
      button in pressedMouse
    }

    predicate GetMouseButtonDown(button: MouseButton)
      reads this
    {
      button in justPressedMouse
    }

    predicate GetMouseButtonUp(button: MouseButton)
      reads this
    {
      button in justReleasedMouse
    }
  }

  /** Scroll events within a frame add up, and the next frame starts from zero. */
  method ScrollAccumulates(input: Input, dx1: int, dy1: int, dx2: int, dy2: int) returns (frameScroll: Vec2)
    requires input.Valid()
    modifies input
    ensures frameScroll == old(input.scrollDelta).Plus(Vec2(dx1 + dx2, dy1 + dy2))
    ensures input.scrollDelta == ZERO && input.pressedKeys == old(input.pressedKeys)
  {
    input.InjectScroll(dx1, dy1);
    input.InjectScroll(dx2, dy2);
    frameScroll := input.scrollDelta;
    input.StartFrame();
  }
}
