/** The parts of the `winput` and Win32 input APIs the remote-input code
    exchanges: the events the client's message loop reports and the inputs
    the host injects. Both are values; what the operating system does with an
    injected input is not modelled. */
module Winput {
  import opened Text

  /** `winput::Action`. `OtherAction` stands for anything the library may
      report besides a press or a release, which the encoder skips. */
  datatype Action = Press | Release | OtherAction

  /** `winput::Button`. */
  datatype Button = Left | Right | Middle | X1 | X2

  /** `winput::WheelDirection`, with `OtherDirection` for anything else. */
  datatype WheelDirection = Horizontal | Vertical | OtherDirection

  /** An f32 wheel delta, by whether it equals 0.0 and by the text
      `delta.to_string()` prints for it. */
  datatype ScrollDelta = ScrollDelta(isZero: bool, text: string)

  /** `winput::message_loop::Event`; `vk` is the key's `Vk::into_u8()`. */
  datatype Event =
    | Keyboard(vk: U8, action: Action)
    | MouseButton(action: Action, button: Button)
    | MouseWheel(delta: ScrollDelta, direction: WheelDirection)
    | MouseMoveRelative(x: I32, y: I32)
    | OtherEvent

  /** `Vk::LeftWin` and `Vk::RightWin`. */
  const VK_LEFT_WIN: U8 := 0x5B
  const VK_RIGHT_WIN: U8 := 0x5C

  /** `KEYBDINPUT` as `send_input_key` fills it. */
  datatype KeyboardInput = KeyboardInput(wVk: nat, dwFlags: nat, dwExtraInfo: nat, wScan: nat, time: nat)

  /** What the host does to its own input devices for one message. */
  datatype Injection =
    | SendKey(input: KeyboardInput)         // SendInput with one keyboard INPUT
    | PressKey(vk: U8)                      // winput::press(Vk::from_u8(vk))
    | ReleaseKey(vk: U8)                    // winput::release(Vk::from_u8(vk))
    | PressButton(button: Button)           // winput::press(button)
    | ReleaseButton(button: Button)         // winput::release(button)
    | ScrollHorizontally(payload: string)   // Mouse::scrollh of the f32 payload
    | ScrollVertically(payload: string)     // Mouse::scroll of the f32 payload
    | MoveRelative(x: I32, y: I32)          // Mouse::move_relative(x, y)
}
