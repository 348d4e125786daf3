/** The client side of remote input (src/input/input_capture.rs): the event
    loop that turns each keyboard and mouse event into a text message on the
    button or the mouse data channel, and the bounded retry that unregisters
    the message-loop window class afterwards. */
module InputCapture {
  import opened Outcomes
  import opened Text
  import opened Winput
  import opened OutputConst

  datatype Channel = ButtonChannel | MouseChannel

  /** A text message for one of the two data channels. */
  datatype Outgoing = Outgoing(channel: Channel, text: string)

  /** What one turn of the `start_handler` loop does with an event: `continue`
      at once (skipping the shutdown check), send nothing, or send a message. */
  datatype Encoded = Continue | NoMessage | Message(out: Outgoing)

  /** `button_to_i32`. */
  function ButtonToI32(button: Button): (code: nat)
    ensures code <= 4
    ensures button == Left <==> code == 0
  {
    match button
    case Left => 0
    case Right => 1
    case Middle => 2
    case X1 => 3
    case X2 => 4
  }

  /** The keys the application never forwards. */
  predicate Blocked(vk: U8) { vk == VK_LEFT_WIN || vk == VK_RIGHT_WIN }

  /** The body of the `start_handler` match for one event. */
  function Encode(e: Event, scroll: ScrollActions): (r: Encoded)
    ensures r.Message? && r.out.channel == ButtonChannel ==>
              (e.Keyboard? && !Blocked(e.vk) && e.action != OtherAction) ||
              (e.MouseButton? && e.action != OtherAction) ||
              (e.MouseWheel? && !e.delta.isZero && e.direction != OtherDirection)
    ensures r.Message? && r.out.channel == MouseChannel <==> e.MouseMoveRelative? && (e.x != 0 || e.y != 0)
    ensures e.Keyboard? && Blocked(e.vk) ==> r == NoMessage
  {
    match e
    case Keyboard(vk, action) =>
      if Blocked(vk) then NoMessage
      else if action == Press then Message(Outgoing(ButtonChannel, PRESS_KEYBOARD_ACTION + NatToString(vk)))
      else if action == Release then Message(Outgoing(ButtonChannel, RELEASE_KEYBOARD_ACTION + NatToString(vk)))
      else Continue
    case MouseButton(action, button) =>
      if action == Press then Message(Outgoing(ButtonChannel, PRESS_MOUSE_ACTION + NatToString(ButtonToI32(button))))
      else if action == Release then Message(Outgoing(ButtonChannel, RELEASE_MOUSE_ACTION + NatToString(ButtonToI32(button))))
      else Continue
    case MouseWheel(delta, direction) =>
      if delta.isZero then Continue
      else if direction == Horizontal then Message(Outgoing(ButtonChannel, scroll.horizontal + delta.text))
      else if direction == Vertical then Message(Outgoing(ButtonChannel, scroll.vertical + delta.text))
      else Continue
    case MouseMoveRelative(x, y) =>
      if x == 0 && y == 0 then Continue
      else Message(Outgoing(MouseChannel, IntToString(x) + " " + IntToString(y)))
    case OtherEvent => NoMessage
  }

  const SEND_BUTTON_ERROR := "Error sending message through data channel"

  /** `handle_button_action` given the channel's state and whether the send
      succeeds: the text it sends, if any, and its result. A failed send also
      notifies the shutdown handle, which the Err result stands for. */
  function HandleButtonAction(open: bool, sendSucceeds: bool, action: string, text: string): (r: (Option<string>, Outcome<Unit>))
    ensures r.0.Some? <==> open && sendSucceeds
    ensures r.0.Some? ==> r.0.value == action + text
    ensures r.1.Err? <==> open && !sendSucceeds
    ensures r.1.Err? ==> r.1.error == IoError(Other, SEND_BUTTON_ERROR)
    ensures !r.1.Panic?
  {
    if !open then (None, Ok(Unit))
    else if !sendSucceeds then (None, Err(IoError(Other, SEND_BUTTON_ERROR)))
    else (Some(action + text), Ok(Unit))
  }

  /** The conditions under which the loop handles one event: the state of
      each channel, whether the send succeeds, and what `check_for_error`
      answers after it. That answer depends on the permits the shutdown
      handle holds, which every task shares, so it is an input; in
      particular the loop's own notification need not make it true. */
  datatype Tick = Tick(event: Event, buttonOpen: bool, mouseOpen: bool, sendSucceeds: bool, checkFindsError: bool)

  /** The messages the loop delivered, whether it notified an error itself,
      and whether it ended by breaking on the shutdown check. */
  datatype Run = Run(delivered: seq<Outgoing>, notified: bool, stopped: bool)

  function Prepend(delivered: seq<Outgoing>, r: Run): Run
  {
    r.(delivered := delivered + r.delivered)
  }

  /** What delivering one message does: the messages that reach the channel,
      and whether it notifies an error. A failed send on the mouse channel is
      only logged. */
  function Deliver(out: Outgoing, t: Tick): (r: (seq<Outgoing>, bool))
    ensures r.1 <==> out.channel == ButtonChannel && t.buttonOpen && !t.sendSucceeds
    ensures r.0 == [] || r.0 == [out]
  {
    if out.channel == ButtonChannel then
      var (sent, result) := HandleButtonAction(t.buttonOpen, t.sendSucceeds, "", out.text);
      (if sent.Some? then [out] else [], result.Err?)
    else if t.mouseOpen && t.sendSucceeds then ([out], false)
    else ([], false)
  }

  /** One turn of the `start_handler` loop: the messages delivered, whether the
      loop has notified an error by now, and whether `check_for_error` then
      ends the loop. An event skipped with `continue` never reaches the check. */
  function Turn(t: Tick, scroll: ScrollActions, notified: bool): (r: (seq<Outgoing>, bool, bool))
    ensures notified ==> r.1
    ensures !notified ==>
              (r.1 <==> Encode(t.event, scroll).Message? && Encode(t.event, scroll).out.channel == ButtonChannel &&
                        t.buttonOpen && !t.sendSucceeds)
    ensures r.2 <==> t.checkFindsError && !Encode(t.event, scroll).Continue?
    ensures |r.0| <= 1
  {
    match Encode(t.event, scroll)
    case Continue => ([], notified, false)
    case NoMessage => ([], notified, t.checkFindsError)
    case Message(out) =>
      var (sent, failed) := Deliver(out, t);
      (sent, notified || failed, t.checkFindsError)
  }

  /** The `start_handler` loop over a run of events: it ends at the first
      turn whose shutdown check finds an error. */
  function Handle(ticks: seq<Tick>, scroll: ScrollActions, notified: bool): (r: Run)
    ensures notified ==> r.notified
    decreases |ticks|
  {
    if ticks == [] then Run([], notified, false)
    else
      var (sent, notified', stop) := Turn(ticks[0], scroll, notified);
      if stop then Run(sent, notified', true)
      else Prepend(sent, Handle(ticks[1..], scroll, notified'))
  }

  /** Helper: one turn of `Handle`. */
  lemma HandleStep(rest: seq<Tick>, scroll: ScrollActions, notified: bool)
    requires rest != []
    ensures var t := Turn(rest[0], scroll, notified);
            Handle(rest, scroll, notified) ==
            if t.2 then Run(t.0, t.1, true) else Prepend(t.0, Handle(rest[1..], scroll, t.1))
  {
  }

  /** Helper: prepending twice is prepending the concatenation. */
  lemma PrependTwice(first: seq<Outgoing>, second: seq<Outgoing>, r: Run)
    ensures Prepend(first, Prepend(second, r)) == Prepend(first + second, r)
  {
    assert first + (second + r.delivered) == (first + second) + r.delivered;
  }

  /** `start_handler`, over the events the message loop reports. */
  method StartHandler(ticks: seq<Tick>, scroll: ScrollActions) returns (delivered: seq<Outgoing>, notified: bool, stopped: bool)
    ensures Run(delivered, notified, stopped) == Handle(ticks, scroll, false)
  {
    delivered := [];
    notified := false;
    stopped := false;
    var i := 0;
    while i < |ticks|
      invariant 0 <= i <= |ticks|
      invariant Handle(ticks, scroll, false) == Prepend(delivered, Handle(ticks[i..], scroll, notified))
      invariant !stopped
    {
      HandleStep(ticks[i..], scroll, notified);
      assert ticks[i..][0] == ticks[i] && ticks[i..][1..] == ticks[i + 1..];
      var t := Turn(ticks[i], scroll, notified);
      if t.2 {
        delivered := delivered + t.0;
        notified := t.1;
        stopped := true;
        return;
      }
      PrependTwice(delivered, t.0, Handle(ticks[i + 1..], scroll, t.1));
      delivered := delivered + t.0;
      notified := t.1;
      i := i + 1;
    }
    assert ticks[i..] == [];
    assert delivered + [] == delivered;
  }

  /** The messages of a run of events, in order. */
  function Messages(events: seq<Event>, scroll: ScrollActions): seq<Outgoing>
  {
    if events == [] then []
    else
      var rest := Messages(events[1..], scroll);
      match Encode(events[0], scroll)
      case Message(out) => [out] + rest
      case _ => rest
  }

  /** When every channel is open, every send succeeds and the shutdown check
      never finds an error, the loop delivers the message of every event, in
      order, and never stops. */
  lemma {:induction false} HandleDeliversEveryMessage(ticks: seq<Tick>, scroll: ScrollActions)
    requires forall k :: 0 <= k < |ticks| ==>
               ticks[k].buttonOpen && ticks[k].mouseOpen && ticks[k].sendSucceeds && !ticks[k].checkFindsError
    ensures Handle(ticks, scroll, false) ==
            Run(Messages(seq(|ticks|, k requires 0 <= k < |ticks| => ticks[k].event), scroll), false, false)
    decreases |ticks|
  {
    var events := seq(|ticks|, k requires 0 <= k < |ticks| => ticks[k].event);
    if ticks != [] {
      HandleDeliversEveryMessage(ticks[1..], scroll);
      assert events[1..] == seq(|ticks[1..]|, k requires 0 <= k < |ticks[1..]| => ticks[1..][k].event);
    }
  }

  /** A failed send on the open button channel delivers nothing and notifies
      an error; the loop ends there only if the shutdown check then finds
      one, and otherwise goes on with the error already notified. */
  lemma ButtonSendFailureNotifies(ticks: seq<Tick>, scroll: ScrollActions)
    requires ticks != [] && ticks[0].buttonOpen && !ticks[0].sendSucceeds
    requires Encode(ticks[0].event, scroll).Message? && Encode(ticks[0].event, scroll).out.channel == ButtonChannel
    ensures Handle(ticks, scroll, false).notified
    ensures Handle(ticks, scroll, false) ==
            if ticks[0].checkFindsError then Run([], true, true) else Handle(ticks[1..], scroll, true)
  {
    var r := Handle(ticks[1..], scroll, true);
    assert [] + r.delivered == r.delivered;
  }

  // ---------------------------------------------------------------------------
  // unregister_class_w

  const UNREGISTER_ATTEMPTS := 5

  /** `unregister_class_w`: calls `UnregisterClassW` until it succeeds, at most
      five times; succeeds(k) is the answer of call k. */
  method UnregisterClassW(succeeds: nat -> bool) returns (attempts: nat, unregistered: bool)
    ensures attempts <= UNREGISTER_ATTEMPTS
    ensures unregistered <==> exists k :: 0 <= k < UNREGISTER_ATTEMPTS && succeeds(k)
    ensures unregistered ==> 1 <= attempts && succeeds(attempts - 1)
    ensures forall k :: 0 <= k < attempts - (if unregistered then 1 else 0) ==> !succeeds(k)
    ensures !unregistered ==> attempts == UNREGISTER_ATTEMPTS
  {
    attempts := 0;
    while attempts < UNREGISTER_ATTEMPTS
      invariant attempts <= UNREGISTER_ATTEMPTS
      invariant forall k :: 0 <= k < attempts ==> !succeeds(k)
    {
      if succeeds(attempts) {
        unregistered := true;
        attempts := attempts + 1;
        return;
      }
      attempts := attempts + 1;
    }
    unregistered := false;
  }
}
