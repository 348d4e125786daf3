/** The host side of the button channel (src/output/button_controller.rs): the
    callback registered by `start_keyboard_controller` takes the first
    character of each message as the action and the rest as its payload,
    and injects the key press or release, mouse button or scroll it names. */
module ButtonController {
  import opened Outcomes
  import opened Text
  import opened Winput
  import opened OutputConst

  const KEYEVENTF_KEYUP: nat := 0x0002
  const KEYEVENTF_SCANCODE: nat := 0x0008

  /** `get_mouse_button`: codes 0 to 4 name the five buttons; any other code
      falls back to the left button. */
  function GetMouseButton(key: U8): (button: Button)
    ensures key > 4 ==> button == Left
    ensures button == Left <==> key == 0 || key > 4
  {
    match key
    case 0 => Left
    case 1 => Right
    case 2 => Middle
    case 3 => X1
    case 4 => X2
    case _ => Left
  }

  /** `send_input_key`: the keyboard INPUT handed to `SendInput`. The virtual
      key is truncated to 16 bits (`as u16`); the key-up flag is set exactly
      when up is. */
  function SendInputKey(virtualKey: int, up: bool): (input: KeyboardInput)
    ensures input.wVk < 0x1_0000 && (0 <= virtualKey < 0x1_0000 ==> input.wVk == virtualKey)
    ensures (input.dwFlags == KEYEVENTF_KEYUP <==> up) && (input.dwFlags == 0 <==> !up)
    ensures input.dwExtraInfo == 1 && input.wScan == KEYEVENTF_SCANCODE && input.time == 0
  {
    KeyboardInput(virtualKey % 0x1_0000, if up then KEYEVENTF_KEYUP else 0, 1, KEYEVENTF_SCANCODE, 0)
  }

  /** Whether `split_at(1)` can cut s after its first character: s must not
      be empty and its first character must be a single UTF-8 byte. */
  predicate SplitsAtOne(s: string) { s != [] && s[0] as int < 0x80 }

  /** The callback body for one message: Panic where `split_at(1)` panics,
      None where the payload does not parse or the action is unknown, and
      otherwise the one input it injects. The f32 payload of a scroll is
      passed on as text. */
  function DecodeButtonMessage(s: string, scroll: ScrollActions): (r: Outcome<Option<Injection>>)
    ensures r == Panic <==> !SplitsAtOne(s)
    ensures !r.Err?
    ensures r.Ok? && r.value.Some? && (r.value.value.SendKey? || r.value.value.PressButton? || r.value.value.ReleaseButton?)
            ==> ParseU8(s[1..]).Some?
    ensures SplitsAtOne(s) && s[..1] in {PRESS_KEYBOARD_ACTION, RELEASE_KEYBOARD_ACTION, PRESS_MOUSE_ACTION, RELEASE_MOUSE_ACTION}
            ==> (r == Ok(None) <==> ParseU8(s[1..]).None?)
    ensures SplitsAtOne(s) && ParseU8(s[1..]).Some? ==>
              var k := ParseU8(s[1..]).value;
              (s[..1] == PRESS_KEYBOARD_ACTION ==> r == Ok(Some(SendKey(SendInputKey(k, false))))) &&
              (s[..1] == RELEASE_KEYBOARD_ACTION ==> r == Ok(Some(SendKey(SendInputKey(k, true))))) &&
              (s[..1] == PRESS_MOUSE_ACTION ==> r == Ok(Some(PressButton(GetMouseButton(k))))) &&
              (s[..1] == RELEASE_MOUSE_ACTION ==> r == Ok(Some(ReleaseButton(GetMouseButton(k)))))
    ensures SplitsAtOne(s) && s[..1] !in {PRESS_KEYBOARD_ACTION, RELEASE_KEYBOARD_ACTION, PRESS_MOUSE_ACTION, RELEASE_MOUSE_ACTION} ==>
              (s[..1] == scroll.horizontal ==> r == Ok(Some(ScrollHorizontally(s[1..])))) &&
              (s[..1] != scroll.horizontal && s[..1] == scroll.vertical ==> r == Ok(Some(ScrollVertically(s[1..])))) &&
              (s[..1] != scroll.horizontal && s[..1] != scroll.vertical ==> r == Ok(None))
  {
    if !SplitsAtOne(s) then Panic
    else
      var action := s[..1];
      var rest := s[1..];
      if action == PRESS_KEYBOARD_ACTION then
        match ParseU8(rest)
        case None => Ok(None)
        case Some(k) => Ok(Some(SendKey(SendInputKey(k, false))))
      else if action == RELEASE_KEYBOARD_ACTION then
        match ParseU8(rest)
        case None => Ok(None)
        case Some(k) => Ok(Some(SendKey(SendInputKey(k, true))))
      else if action == PRESS_MOUSE_ACTION then
        match ParseU8(rest)
        case None => Ok(None)
        case Some(k) => Ok(Some(PressButton(GetMouseButton(k))))
      else if action == RELEASE_MOUSE_ACTION then
        match ParseU8(rest)
        case None => Ok(None)
        case Some(k) => Ok(Some(ReleaseButton(GetMouseButton(k))))
      else if action == scroll.horizontal then Ok(Some(ScrollHorizontally(rest)))
      else if action == scroll.vertical then Ok(Some(ScrollVertically(rest)))
      else Ok(None)
  }

  /** A key or button action whose payload is not a u8 injects nothing. */
  lemma UnparsablePayloadInjectsNothing(action: string, payload: string, scroll: ScrollActions)
    requires action in {PRESS_KEYBOARD_ACTION, RELEASE_KEYBOARD_ACTION, PRESS_MOUSE_ACTION, RELEASE_MOUSE_ACTION}
    requires ParseU8(payload) == None
    ensures DecodeButtonMessage(action + payload, scroll) == Ok(None)
  {
    var s := action + payload;
    assert s[..1] == action && s[1..] == payload;
  }

  /** A first character that is none of the six actions injects nothing. */
  lemma UnknownActionInjectsNothing(s: string, scroll: ScrollActions)
    requires SplitsAtOne(s)
    requires s[..1] !in {PRESS_KEYBOARD_ACTION, RELEASE_KEYBOARD_ACTION, PRESS_MOUSE_ACTION, RELEASE_MOUSE_ACTION,
                         scroll.horizontal, scroll.vertical}
    ensures DecodeButtonMessage(s, scroll) == Ok(None)
  {
  }

  /** "p"+k presses virtual key k, for every u8 k. */
  lemma KeyPressMessage(k: U8, scroll: ScrollActions)
    ensures DecodeButtonMessage(PRESS_KEYBOARD_ACTION + NatToString(k), scroll) == Ok(Some(SendKey(SendInputKey(k, false))))
  {
    ParseUnsignedOfNatToString(k, U8_MAX);
    var p := PRESS_KEYBOARD_ACTION + NatToString(k);
    assert p[..1] == PRESS_KEYBOARD_ACTION && p[1..] == NatToString(k);
  }

  /** "r"+k releases virtual key k, for every u8 k. */
  lemma KeyReleaseMessage(k: U8, scroll: ScrollActions)
    ensures DecodeButtonMessage(RELEASE_KEYBOARD_ACTION + NatToString(k), scroll) == Ok(Some(SendKey(SendInputKey(k, true))))
  {
    ParseUnsignedOfNatToString(k, U8_MAX);
    var r := RELEASE_KEYBOARD_ACTION + NatToString(k);
    assert r[..1] == RELEASE_KEYBOARD_ACTION && r[1..] == NatToString(k);
  }
}
