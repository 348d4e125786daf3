/** The remote-input wire protocol end to end: every message the client's
    `start_handler` sends is decoded by the host into the input the event
    stands for, by the current decoders and, for keys, buttons and moves, by
    the legacy ones. */
module RemoteInput {
  import opened Outcomes
  import opened Text
  import opened Winput
  import opened OutputConst
  import opened InputCapture
  import ButtonController
  import MouseController
  import KeyboardController
  import OutputController

  /** The input the host should inject for an event, as a reference. */
  function Intended(e: Event): Option<Injection>
  {
    match e
    case Keyboard(vk, action) =>
      if action == Press then Some(SendKey(ButtonController.SendInputKey(vk, false)))
      else if action == Release then Some(SendKey(ButtonController.SendInputKey(vk, true)))
      else None
    case MouseButton(action, button) =>
      if action == Press then Some(PressButton(button))
      else if action == Release then Some(ReleaseButton(button))
      else None
    case MouseWheel(delta, direction) =>
      if direction == Horizontal then Some(ScrollHorizontally(delta.text))
      else if direction == Vertical then Some(ScrollVertically(delta.text))
      else None
    case MouseMoveRelative(x, y) => Some(MoveRelative(x, y))
    case OtherEvent => None
  }

  /** The host's decoding of a message, by the channel it arrives on. */
  function HostDecode(out: Outgoing, scroll: ScrollActions): Outcome<Option<Injection>>
  {
    if out.channel == ButtonChannel then ButtonController.DecodeButtonMessage(out.text, scroll)
    else MouseController.DecodeMoveMessage(out.text)
  }

  /** `get_mouse_button` undoes `button_to_i32`. */
  lemma ButtonCodeRoundTrip(button: Button)
    ensures ButtonController.GetMouseButton(ButtonToI32(button)) == button
  {
  }

  /** A one-character prefix followed by the text of a u8. */
  lemma PrefixedNumber(prefix: string, n: U8)
    requires |prefix| == 1
    ensures ButtonController.SplitsAtOne(prefix + NatToString(n)) == (prefix[0] as int < 0x80)
    ensures (prefix + NatToString(n))[..1] == prefix
    ensures ParseU8((prefix + NatToString(n))[1..]) == Some(n)
  {
    var s := prefix + NatToString(n);
    assert s[1..] == NatToString(n);
    ParseUnsignedOfNatToString(n, U8_MAX);
  }

  /** Keys: "p"/"r" and the key's number give back the same key, pressed or
      released, to both decoders. */
  lemma KeyRoundTrip(vk: U8, action: Action, scroll: ScrollActions)
    requires !Blocked(vk) && action != OtherAction
    ensures Encode(Keyboard(vk, action), scroll).Message?
    ensures var out := Encode(Keyboard(vk, action), scroll).out;
            out.channel == ButtonChannel &&
            ButtonController.DecodeButtonMessage(out.text, scroll) == Ok(Intended(Keyboard(vk, action))) &&
            KeyboardController.DecodeKeyboardMessage(out.text) ==
              Ok(Some(if action == Press then PressKey(vk) else ReleaseKey(vk)))
  {
    if action == Press {
      PrefixedNumber(PRESS_KEYBOARD_ACTION, vk);
    } else {
      PrefixedNumber(RELEASE_KEYBOARD_ACTION, vk);
    }
  }

  /** Mouse buttons: "m"/"t" and `button_to_i32` give back the same button to
      both decoders. */
  lemma MouseButtonRoundTrip(action: Action, button: Button, scroll: ScrollActions)
    requires action != OtherAction
    ensures Encode(MouseButton(action, button), scroll).Message?
    ensures var out := Encode(MouseButton(action, button), scroll).out;
            out.channel == ButtonChannel &&
            ButtonController.DecodeButtonMessage(out.text, scroll) == Ok(Intended(MouseButton(action, button))) &&
            KeyboardController.DecodeKeyboardMessage(out.text) == Ok(Intended(MouseButton(action, button)))
  {
    if action == Press {
      PrefixedNumber(PRESS_MOUSE_ACTION, ButtonToI32(button));
    } else {
      PrefixedNumber(RELEASE_MOUSE_ACTION, ButtonToI32(button));
    }
    ButtonCodeRoundTrip(button);
  }

  /** Wheel turns: the scroll prefix selects the direction and the delta's
      text is handed on, provided the two prefixes can be told apart. */
  lemma ScrollRoundTrip(delta: ScrollDelta, direction: WheelDirection, scroll: ScrollActions)
    requires Distinct(scroll) && !delta.isZero && direction != OtherDirection
    ensures Encode(MouseWheel(delta, direction), scroll).Message?
    ensures var out := Encode(MouseWheel(delta, direction), scroll).out;
            out.channel == ButtonChannel &&
            ButtonController.DecodeButtonMessage(out.text, scroll) == Ok(Intended(MouseWheel(delta, direction)))
  {
    var prefix := if direction == Horizontal then scroll.horizontal else scroll.vertical;
    var s := prefix + delta.text;
    assert s[..1] == prefix && s[1..] == delta.text;
  }

  /** "x y" gives back (x, y) to both mouse decoders. */
  lemma MoveTextDecodes(x: I32, y: I32)
    ensures MouseController.DecodeMoveMessage(IntToString(x) + " " + IntToString(y)) == Ok(Some(MoveRelative(x, y)))
    ensures OutputController.DecodeMoveMessage(IntToString(x) + " " + IntToString(y)) == Ok(MoveRelative(x, y))
  {
    SplitWhitespaceOfInts(x, y);
    ParseSignedOfIntToString(x, I32_MIN, I32_MAX);
    ParseSignedOfIntToString(y, I32_MIN, I32_MAX);
  }

  /** Moves: every move other than (0, 0) is sent on the mouse channel and
      decoded back into the same move. */
  lemma MoveRoundTrip(x: I32, y: I32, scroll: ScrollActions)
    requires x != 0 || y != 0
    ensures Encode(MouseMoveRelative(x, y), scroll).Message?
    ensures var out := Encode(MouseMoveRelative(x, y), scroll).out;
            out.channel == MouseChannel &&
            MouseController.DecodeMoveMessage(out.text) == Ok(Some(MoveRelative(x, y))) &&
            OutputController.DecodeMoveMessage(out.text) == Ok(MoveRelative(x, y))
  {
    MoveTextDecodes(x, y);
    assert Encode(MouseMoveRelative(x, y), scroll).out.text == IntToString(x) + " " + IntToString(y);
  }

  /** Every message the client sends is decoded by the host, on the channel
      it was sent on, into exactly the input its event stands for. */
  lemma EveryMessageRoundTrips(e: Event, scroll: ScrollActions)
    requires Distinct(scroll)
    ensures Encode(e, scroll).Message? ==> HostDecode(Encode(e, scroll).out, scroll) == Ok(Intended(e))
  {
    match e
    case Keyboard(vk, action) =>
      if !Blocked(vk) && action != OtherAction { KeyRoundTrip(vk, action, scroll); }
    case MouseButton(action, button) =>
      if action != OtherAction { MouseButtonRoundTrip(action, button, scroll); }
    case MouseWheel(delta, direction) =>
      if !delta.isZero && direction != OtherDirection { ScrollRoundTrip(delta, direction, scroll); }
    case MouseMoveRelative(x, y) =>
      if x != 0 || y != 0 { MoveRoundTrip(x, y, scroll); }
    case OtherEvent =>
  }
}
