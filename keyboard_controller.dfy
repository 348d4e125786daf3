/** The older button-channel handler (src/output/keyboard_controller.rs): the
    first character is the action and the rest must be a u8, which `unwrap`
    enforces before the action is looked at. Keys go through
    `winput::press`/`release` rather than `SendInput`. */
module KeyboardController {
  import opened Outcomes
  import opened Text
  import opened Winput
  import ButtonController

  /** The callback body for one message: Panic where `split_at(1)` or the u8
      `unwrap` panics; 'p' and 'r' press and release the key; otherwise the
      number names a mouse button (as in `get_mouse_button`), which 'm'
      presses and 't' releases; any other action does nothing. */
  function DecodeKeyboardMessage(s: string): (r: Outcome<Option<Injection>>)
    ensures r.Ok? <==> ButtonController.SplitsAtOne(s) && ParseU8(s[1..]).Some?
    ensures r.Ok? && r.value.Some? && (r.value.value.PressKey? || r.value.value.ReleaseKey?) ==>
              r.value.value.vk as int == ParseU8(s[1..]).value
    ensures !r.Err?
    ensures r.Ok? ==>
              var k := ParseU8(s[1..]).value;
              (s[..1] == "p" ==> r.value == Some(PressKey(k))) &&
              (s[..1] == "r" ==> r.value == Some(ReleaseKey(k))) &&
              (s[..1] == "m" ==> r.value == Some(PressButton(ButtonController.GetMouseButton(k)))) &&
              (s[..1] == "t" ==> r.value == Some(ReleaseButton(ButtonController.GetMouseButton(k)))) &&
              (s[..1] !in {"p", "r", "m", "t"} ==> r.value == None)
  {
    if !ButtonController.SplitsAtOne(s) then Panic
    else
      var action := s[..1];
      match ParseU8(s[1..])
      case None => Panic
      case Some(key) =>
        if action == "p" then Ok(Some(PressKey(key)))
        else if action == "r" then Ok(Some(ReleaseKey(key)))
        else
          var button := ButtonController.GetMouseButton(key);
          if action == "m" then Ok(Some(PressButton(button)))
          else if action == "t" then Ok(Some(ReleaseButton(button)))
          else Ok(None)
  }

  /** Any action, known or not, with a payload that is not a u8 panics. */
  lemma UnparsablePayloadPanics(c: char, payload: string)
    requires c as int < 0x80 && ParseU8(payload) == None
    ensures DecodeKeyboardMessage([c] + payload) == Panic
  {
    assert ([c] + payload)[1..] == payload;
  }
}
