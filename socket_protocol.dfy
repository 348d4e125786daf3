/** The text messages exchanged with the signalling server in
    src/websocketprotocol/socket_protocol.rs. Every message is a tag and its
    fields joined by '|'. The builders give the text handed to
    `WebSocket::send_text`; the parsers take what `WebSocket::receive`
    delivered, split it on '|' and match on the first piece. */
module SocketProtocol {
  import opened Outcomes
  import opened Text

  const INIT_OFFERER_MSG := "initOfferer"
  const OFFERER_SDP_MSG := "offererSdp"
  const INIT_CLIENT_MSG := "initClient"
  const CLIENT_SDP_MSG := "clientSdp"
  const START_SESSION_MSG := "startSession"
  const FORCE_STOP_SESSION_MSG := "forceStopSession"
  const SDP_REQUEST_FROM_MSG := "sdpRequestFrom"
  const SDP_CLIENT_MSG := "sdpClient"
  const SDP_OFFERER_MSG := "sdpOfferer"
  const STOP_SESSION_BY_TIMER_MSG := "stopSessionByTimer"

  /** The session length the offerer side assumes for every request. */
  const DEFAULT_MINUTES := "60"

  /** What `self.ws.receive()` produced: a failure, a text frame, or a frame
      that is not text (on which `as_text().unwrap()` panics). */
  datatype Received = ReceiveFailed | TextFrame(text: string) | NonTextFrame

  /** A request from a client to play a game offered by this host. */
  datatype ClientInfo = ClientInfo(clientName: string, gameName: string, gamePath: string, minutes: string)

  // ---------------------------------------------------------------------------
  // Builders

  /** Joining a tag with fields: the tag is the first piece of the text, and
      when no field holds a '|' the pieces are exactly the tag and the fields. */
  lemma {:induction false} TaggedFields(tag: string, fields: seq<string>)
    requires '|' !in tag
    ensures Split(Join([tag] + fields, '|'), '|')[0] == tag
    ensures NoSeparator(fields, '|') ==> Split(Join([tag] + fields, '|'), '|') == [tag] + fields
  {
    var all := [tag] + fields;
    if fields == [] {
      SplitFieldOnly(tag, '|');
    } else {
      assert all[1..] == fields;
      SplitFieldThenRest(tag, Join(fields, '|'), '|');
    }
    if NoSeparator(fields, '|') {
      assert NoSeparator(all, '|');
      SplitJoin(all, '|');
    }
  }

  /** `init_offer`: "initOfferer|username". The server reads the tag back, and
      the user name when it holds no '|'. */
  function InitOfferMessage(username: string): (msg: string)
    ensures Split(msg, '|')[0] == INIT_OFFERER_MSG
    ensures '|' !in username ==> Split(msg, '|') == [INIT_OFFERER_MSG, username]
  {
    JoinTwo(INIT_OFFERER_MSG, username, '|');
    TaggedFields(INIT_OFFERER_MSG, [username]);
    INIT_OFFERER_MSG + "|" + username
  }

  /** `send_sdp_to_client`: "offererSdp|client_name|sdp". */
  function SendSdpToClientMessage(clientName: string, sdp: string): (msg: string)
    ensures Split(msg, '|')[0] == OFFERER_SDP_MSG
    ensures NoSeparator([clientName, sdp], '|') ==> Split(msg, '|') == [OFFERER_SDP_MSG, clientName, sdp]
  {
    JoinThree(OFFERER_SDP_MSG, clientName, sdp, '|');
    TaggedFields(OFFERER_SDP_MSG, [clientName, sdp]);
    OFFERER_SDP_MSG + "|" + clientName + "|" + sdp
  }

  /** `init_client`: "initClient|username|offerer_username|game_name|minutes". */
  function InitClientMessage(username: string, offererUsername: string, gameName: string, minutes: string): (msg: string)
    ensures Split(msg, '|')[0] == INIT_CLIENT_MSG
    ensures NoSeparator([username, offererUsername, gameName, minutes], '|') ==>
              Split(msg, '|') == [INIT_CLIENT_MSG, username, offererUsername, gameName, minutes]
  {
    JoinFive(INIT_CLIENT_MSG, username, offererUsername, gameName, minutes, '|');
    TaggedFields(INIT_CLIENT_MSG, [username, offererUsername, gameName, minutes]);
    INIT_CLIENT_MSG + "|" + username + "|" + offererUsername + "|" + gameName + "|" + minutes
  }

  /** `send_sdp_to_offerer`: "clientSdp|offerer_username|sdp". */
  function SendSdpToOffererMessage(offererUsername: string, sdp: string): (msg: string)
    ensures Split(msg, '|')[0] == CLIENT_SDP_MSG
    ensures NoSeparator([offererUsername, sdp], '|') ==> Split(msg, '|') == [CLIENT_SDP_MSG, offererUsername, sdp]
  {
    JoinThree(CLIENT_SDP_MSG, offererUsername, sdp, '|');
    TaggedFields(CLIENT_SDP_MSG, [offererUsername, sdp]);
    CLIENT_SDP_MSG + "|" + offererUsername + "|" + sdp
  }

  /** `start_session`: "startSession|offerer|client|minutes". */
  function StartSessionMessage(offerer: string, client: string, minutes: string): (msg: string)
    ensures Split(msg, '|')[0] == START_SESSION_MSG
    ensures NoSeparator([offerer, client, minutes], '|') ==>
              Split(msg, '|') == [START_SESSION_MSG, offerer, client, minutes]
  {
    JoinFour(START_SESSION_MSG, offerer, client, minutes, '|');
    TaggedFields(START_SESSION_MSG, [offerer, client, minutes]);
    START_SESSION_MSG + "|" + offerer + "|" + client + "|" + minutes
  }

  /** `force_stop_session`: "forceStopSession|username". */
  function ForceStopSessionMessage(username: string): (msg: string)
    ensures Split(msg, '|')[0] == FORCE_STOP_SESSION_MSG
    ensures '|' !in username ==> Split(msg, '|') == [FORCE_STOP_SESSION_MSG, username]
  {
    JoinTwo(FORCE_STOP_SESSION_MSG, username, '|');
    TaggedFields(FORCE_STOP_SESSION_MSG, [username]);
    FORCE_STOP_SESSION_MSG + "|" + username
  }

  // ---------------------------------------------------------------------------
  // Parsers

  /** The '|'-separated pieces of a received text frame, or how receiving ends. */
  function ReceivedFields(frame: Received): Outcome<seq<string>>
  {
    match frame
    case ReceiveFailed => Err(IoError(Other, "Error receiving message"))
    case NonTextFrame => Panic
    case TextFrame(text) => Ok(Split(text, '|'))
  }

  /** `wait_for_game_solicitude`: "sdpRequestFrom|client|game|path" gives the
      client's request with the minutes fixed at "60"; another tag is
      InvalidData; fewer than three fields after the tag panics (unchecked
      `parts[i]`). */
  function GameSolicitude(frame: Received): Outcome<ClientInfo>
  {
    match ReceivedFields(frame)
    case Err(e) => Err(e)
    case Panic => Panic
    case Ok(parts) =>
      if parts[0] == SDP_REQUEST_FROM_MSG then
        if |parts| < 4 then Panic
        else Ok(ClientInfo(parts[1], parts[2], parts[3], DEFAULT_MINUTES))
      else Err(IoError(InvalidData, "Should be sdp request."))
  }

  /** The shape shared by `wait_for_client_sdp`, `wait_for_offerer_sdp` and
      `wait_for_stop_session`: a frame tagged tag gives its field 1, another
      tag is InvalidData with the given message, a tag alone panics. */
  function TaggedField(frame: Received, tag: string, invalid: string): Outcome<string>
  {
    match ReceivedFields(frame)
    case Err(e) => Err(e)
    case Panic => Panic
    case Ok(parts) =>
      if parts[0] == tag then
        if |parts| < 2 then Panic else Ok(parts[1])
      else Err(IoError(InvalidData, invalid))
  }

  /** `wait_for_client_sdp`. */
  function ClientSdp(frame: Received): Outcome<string>
  {
    TaggedField(frame, SDP_CLIENT_MSG, "Should be client sdp")
  }

  /** `wait_for_offerer_sdp`. */
  function OffererSdp(frame: Received): Outcome<string>
  {
    TaggedField(frame, SDP_OFFERER_MSG, "Should be offerer sdp")
  }

  /** `wait_for_stop_session` (its error message is the offerer-sdp one). */
  function StopSession(frame: Received): Outcome<string>
  {
    TaggedField(frame, STOP_SESSION_BY_TIMER_MSG, "Should be offerer sdp")
  }

  // ---------------------------------------------------------------------------
  // What the parsers accept

  /** A request with pipe-free fields is read back field by field, whatever
      follows the path, and the minutes are always "60". */
  lemma GameSolicitudeRoundTrip(client: string, game: string, path: string, extra: seq<string>)
    requires NoSeparator([client, game, path] + extra, '|')
    ensures GameSolicitude(TextFrame(Join([SDP_REQUEST_FROM_MSG, client, game, path] + extra, '|')))
            == Ok(ClientInfo(client, game, path, "60"))
  {
    var fields := [client, game, path] + extra;
    assert [SDP_REQUEST_FROM_MSG, client, game, path] + extra == [SDP_REQUEST_FROM_MSG] + fields;
    TaggedFields(SDP_REQUEST_FROM_MSG, fields);
  }

  /** Any text that does not start with the request tag is InvalidData. */
  lemma GameSolicitudeRejectsOtherTags(text: string)
    requires text != SDP_REQUEST_FROM_MSG && !(SDP_REQUEST_FROM_MSG + "|" <= text)
    ensures GameSolicitude(TextFrame(text)) == Err(IoError(InvalidData, "Should be sdp request."))
  {
    FirstFieldIs(text, SDP_REQUEST_FROM_MSG, '|');
  }

  /** A request tag with fewer than three fields panics. */
  lemma GameSolicitudeMissingFieldPanics(fields: seq<string>)
    requires |fields| < 3 && NoSeparator(fields, '|')
    ensures GameSolicitude(TextFrame(Join([SDP_REQUEST_FROM_MSG] + fields, '|'))) == Panic
  {
    TaggedFields(SDP_REQUEST_FROM_MSG, fields);
    var parts := Split(Join([SDP_REQUEST_FROM_MSG] + fields, '|'), '|');
    assert parts == [SDP_REQUEST_FROM_MSG] + fields;
    assert |parts| < 4 && parts[0] == SDP_REQUEST_FROM_MSG;
  }

  /** A failed receive and a non-text frame, for every parser. */
  lemma ReceiveFailures(tag: string, invalid: string)
    ensures TaggedField(ReceiveFailed, tag, invalid) == Err(IoError(Other, "Error receiving message"))
    ensures GameSolicitude(ReceiveFailed) == Err(IoError(Other, "Error receiving message"))
    ensures TaggedField(NonTextFrame, tag, invalid) == Panic
    ensures GameSolicitude(NonTextFrame) == Panic
  {
  }

  /** "tag|value" gives back the value when it has no '|'. */
  lemma TaggedFieldRoundTrip(tag: string, invalid: string, value: string)
    requires '|' !in tag && '|' !in value
    ensures TaggedField(TextFrame(tag + "|" + value), tag, invalid) == Ok(value)
  {
    SplitFieldOnly(value, '|');
    SplitFieldThenRest(tag, value, '|');
  }

  /** Fields after field 1 are ignored. */
  lemma TaggedFieldIgnoresMore(tag: string, invalid: string, value: string, more: string)
    requires '|' !in tag && '|' !in value
    ensures TaggedField(TextFrame(tag + "|" + value + "|" + more), tag, invalid) == Ok(value)
  {
    SplitFieldThenRest(value, more, '|');
    assert tag + "|" + value + "|" + more == tag + [('|')] + (value + "|" + more);
    SplitFieldThenRest(tag, value + "|" + more, '|');
  }

  /** A text whose first piece is not the tag is InvalidData, and the tag
      alone panics on the read of field 1. */
  lemma TaggedFieldErrors(tag: string, invalid: string, text: string)
    requires '|' !in tag
    ensures text != tag && !(tag + "|" <= text) ==>
              TaggedField(TextFrame(text), tag, invalid) == Err(IoError(InvalidData, invalid))
    ensures TaggedField(TextFrame(tag), tag, invalid) == Panic
  {
    FirstFieldIs(text, tag, '|');
    SplitFieldOnly(tag, '|');
  }

  /** The client's SDP answer round-trips through `wait_for_client_sdp`. */
  lemma ClientSdpRoundTrip(sdp: string)
    requires '|' !in sdp
    ensures ClientSdp(TextFrame(SDP_CLIENT_MSG + "|" + sdp)) == Ok(sdp)
  {
    TaggedFieldRoundTrip(SDP_CLIENT_MSG, "Should be client sdp", sdp);
  }

  /** The offerer's SDP offer round-trips through `wait_for_offerer_sdp`. */
  lemma OffererSdpRoundTrip(sdp: string)
    requires '|' !in sdp
    ensures OffererSdp(TextFrame(SDP_OFFERER_MSG + "|" + sdp)) == Ok(sdp)
  {
    TaggedFieldRoundTrip(SDP_OFFERER_MSG, "Should be offerer sdp", sdp);
  }

  /** The timer's stop notice gives back its field 1. */
  lemma StopSessionRoundTrip(value: string)
    requires '|' !in value
    ensures StopSession(TextFrame(STOP_SESSION_BY_TIMER_MSG + "|" + value)) == Ok(value)
  {
    TaggedFieldRoundTrip(STOP_SESSION_BY_TIMER_MSG, "Should be offerer sdp", value);
  }

  // ---------------------------------------------------------------------------
  // The connection

  const SEND_OFFER_ERROR := "Error sending offer message"
  const SEND_SDP_ERROR := "Error sending sdp message"
  const SEND_INIT_CLIENT_ERROR := "Error sending init client message"
  const SEND_FORCE_STOP_ERROR := "Error sending force_stop_session message"

  /** `WsProtocol`: the open websocket, seen as the texts sent so far and the
      frames still to be received. Whether a send reaches the socket is an
      input of each sending method. */
  class WsProtocol {
    var sent: seq<string>
    var incoming: seq<Received>

    constructor (incoming: seq<Received>)
      ensures sent == [] && this.incoming == incoming
    {
      sent := [];
      this.incoming := incoming;
    }

    /** Hands text to the socket; a failed send is `ErrorKind::Other` with the
        caller's message, and nothing is recorded as sent. */
    method Send(text: string, delivered: bool, failure: string) returns (r: Outcome<Unit>)
      modifies this
      ensures delivered ==> r == Ok(Unit) && sent == old(sent) + [text]
      ensures !delivered ==> r == Err(IoError(Other, failure)) && sent == old(sent)
      ensures incoming == old(incoming)
    {
      if delivered {
        sent := sent + [text];
        r := Ok(Unit);
      } else {
        r := Err(IoError(Other, failure));
      }
    }

    /** Takes the next frame off the socket. */
    method Receive() returns (frame: Received)
      requires incoming != []
      modifies this
      ensures frame == old(incoming[0]) && incoming == old(incoming[1..]) && sent == old(sent)
    {
      frame := incoming[0];
      incoming := incoming[1..];
    }

    /** `init_offer`. */
    method InitOffer(username: string, delivered: bool) returns (r: Outcome<Unit>)
      modifies this
      ensures delivered ==> r == Ok(Unit) && sent == old(sent) + [InitOfferMessage(username)]
      ensures !delivered ==> r == Err(IoError(Other, SEND_OFFER_ERROR)) && sent == old(sent)
      ensures incoming == old(incoming)
    {
      r := Send(InitOfferMessage(username), delivered, SEND_OFFER_ERROR);
    }

    /** `send_sdp_to_client`. */
    method SendSdpToClient(clientName: string, sdp: string, delivered: bool) returns (r: Outcome<Unit>)
      modifies this
      ensures delivered ==> r == Ok(Unit) && sent == old(sent) + [SendSdpToClientMessage(clientName, sdp)]
      ensures !delivered ==> r == Err(IoError(Other, SEND_SDP_ERROR)) && sent == old(sent)
      ensures incoming == old(incoming)
    {
      r := Send(SendSdpToClientMessage(clientName, sdp), delivered, SEND_SDP_ERROR);
    }

    /** `init_client`. */
    method InitClient(username: string, offererUsername: string, gameName: string, minutes: string, delivered: bool)
      returns (r: Outcome<Unit>)
      modifies this
      ensures delivered ==> r == Ok(Unit)
      ensures delivered ==> sent == old(sent) + [InitClientMessage(username, offererUsername, gameName, minutes)]
      ensures !delivered ==> r == Err(IoError(Other, SEND_INIT_CLIENT_ERROR)) && sent == old(sent)
      ensures incoming == old(incoming)
    {
      r := Send(InitClientMessage(username, offererUsername, gameName, minutes), delivered, SEND_INIT_CLIENT_ERROR);
    }

    /** `send_sdp_to_offerer`. */
    method SendSdpToOfferer(offererUsername: string, sdp: string, delivered: bool) returns (r: Outcome<Unit>)
      modifies this
      ensures delivered ==> r == Ok(Unit) && sent == old(sent) + [SendSdpToOffererMessage(offererUsername, sdp)]
      ensures !delivered ==> r == Err(IoError(Other, SEND_SDP_ERROR)) && sent == old(sent)
      ensures incoming == old(incoming)
    {
      r := Send(SendSdpToOffererMessage(offererUsername, sdp), delivered, SEND_SDP_ERROR);
    }

    /** `start_session` (its failure reuses the sdp message). */
    method StartSession(offerer: string, client: string, minutes: string, delivered: bool) returns (r: Outcome<Unit>)
      modifies this
      ensures delivered ==> r == Ok(Unit) && sent == old(sent) + [StartSessionMessage(offerer, client, minutes)]
      ensures !delivered ==> r == Err(IoError(Other, SEND_SDP_ERROR)) && sent == old(sent)
      ensures incoming == old(incoming)
    {
      r := Send(StartSessionMessage(offerer, client, minutes), delivered, SEND_SDP_ERROR);
    }

    /** `force_stop_session`. */
    method ForceStopSession(username: string, delivered: bool) returns (r: Outcome<Unit>)
      modifies this
      ensures delivered ==> r == Ok(Unit) && sent == old(sent) + [ForceStopSessionMessage(username)]
      ensures !delivered ==> r == Err(IoError(Other, SEND_FORCE_STOP_ERROR)) && sent == old(sent)
      ensures incoming == old(incoming)
    {
      r := Send(ForceStopSessionMessage(username), delivered, SEND_FORCE_STOP_ERROR);
    }

    /** `wait_for_game_solicitude`: reads one frame and interprets it. */
    method WaitForGameSolicitude() returns (r: Outcome<ClientInfo>)
      requires incoming != []
      modifies this
      ensures r == GameSolicitude(old(incoming[0]))
      ensures incoming == old(incoming[1..]) && sent == old(sent)
    {
      var frame := Receive();
      r := GameSolicitude(frame);
    }

    /** `wait_for_client_sdp`. */
    method WaitForClientSdp() returns (r: Outcome<string>)
      requires incoming != []
      modifies this
      ensures r == ClientSdp(old(incoming[0]))
      ensures incoming == old(incoming[1..]) && sent == old(sent)
    {
      var frame := Receive();
      r := ClientSdp(frame);
    }

    /** `wait_for_offerer_sdp`. */
    method WaitForOffererSdp() returns (r: Outcome<string>)
      requires incoming != []
      modifies this
      ensures r == OffererSdp(old(incoming[0]))
      ensures incoming == old(incoming[1..]) && sent == old(sent)
    {
      var frame := Receive();
      r := OffererSdp(frame);
    }

    /** `wait_for_stop_session`. */
    method WaitForStopSession() returns (r: Outcome<string>)
      requires incoming != []
      modifies this
      ensures r == StopSession(old(incoming[0]))
      ensures incoming == old(incoming[1..]) && sent == old(sent)
    {
      var frame := Receive();
      r := StopSession(frame);
    }
  }
}
