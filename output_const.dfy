/** The one-character action prefixes of the remote-input messages
    (src/output/output_const.rs). */
module OutputConst {
  const PRESS_KEYBOARD_ACTION := "p"
  const RELEASE_KEYBOARD_ACTION := "r"
  const PRESS_MOUSE_ACTION := "m"
  const RELEASE_MOUSE_ACTION := "t"

  /** `SCROLL_HORIZONTAL_ACTION` and `SCROLL_VERTICAL_ACTION`, whose values are
      not part of this model. */
  datatype ScrollActions = ScrollActions(horizontal: string, vertical: string)

  /** Prefixes a host can tell apart: one single-byte character each,
      different from each other and from the four button prefixes. */
  predicate Distinct(scroll: ScrollActions)
  {
    |scroll.horizontal| == 1 && |scroll.vertical| == 1 && scroll.horizontal != scroll.vertical
    && scroll.horizontal[0] as int < 0x80 && scroll.vertical[0] as int < 0x80
    && scroll.horizontal !in {PRESS_KEYBOARD_ACTION, RELEASE_KEYBOARD_ACTION, PRESS_MOUSE_ACTION, RELEASE_MOUSE_ACTION}
    && scroll.vertical !in {PRESS_KEYBOARD_ACTION, RELEASE_KEYBOARD_ACTION, PRESS_MOUSE_ACTION, RELEASE_MOUSE_ACTION}
  }
}
