/** The older signalling client of src/websocketprotocol/websocketprotocol.rs.
    Its offer and SDP builders send the same texts as the current client (see
    `SameBuilders`); it differs in `initClient`, which has no minutes field,
    in the game request, which yields only the client's name, and in the
    message of every InvalidData error. */
module LegacySocketProtocol {
  import opened Outcomes
  import opened Text
  import SocketProtocol

  const INVALID_MESSAGE := "Invalid message"

  /** `initClient`: "initClient|username|offerer_username|game_name". */
  function InitClientMessage(username: string, offererUsername: string, gameName: string): (msg: string)
    ensures Split(msg, '|')[0] == SocketProtocol.INIT_CLIENT_MSG
    ensures NoSeparator([username, offererUsername, gameName], '|') ==>
              Split(msg, '|') == [SocketProtocol.INIT_CLIENT_MSG, username, offererUsername, gameName]
  {
    JoinFour(SocketProtocol.INIT_CLIENT_MSG, username, offererUsername, gameName, '|');
    SocketProtocol.TaggedFields(SocketProtocol.INIT_CLIENT_MSG, [username, offererUsername, gameName]);
    SocketProtocol.INIT_CLIENT_MSG + "|" + username + "|" + offererUsername + "|" + gameName
  }

  /** `wait_for_game_solicitude`: "sdpRequestFrom|client|game…" yields the
      client's name; field 2 is read (and dropped), so a request without it
      panics; any other tag is InvalidData "Invalid message". */
  function GameSolicitude(frame: SocketProtocol.Received): Outcome<string>
  {
    match SocketProtocol.ReceivedFields(frame)
    case Err(e) => Err(e)
    case Panic => Panic
    case Ok(parts) =>
      if parts[0] == SocketProtocol.SDP_REQUEST_FROM_MSG then
        if |parts| < 3 then Panic else Ok(parts[1])
      else Err(IoError(InvalidData, INVALID_MESSAGE))
  }

  /** `wait_for_client_sdp`. */
  function ClientSdp(frame: SocketProtocol.Received): Outcome<string>
  {
    SocketProtocol.TaggedField(frame, SocketProtocol.SDP_CLIENT_MSG, INVALID_MESSAGE)
  }

  /** `wait_for_offerer_sdp`. */
  function OffererSdp(frame: SocketProtocol.Received): Outcome<string>
  {
    SocketProtocol.TaggedField(frame, SocketProtocol.SDP_OFFERER_MSG, INVALID_MESSAGE)
  }

  /** The legacy `init_offer`, `send_sdp_to_client` and `send_sdp_to_offerer`
      use the same formats as the current client. */
  lemma SameBuilders(username: string, clientName: string, offererUsername: string, sdp: string)
    ensures SocketProtocol.InitOfferMessage(username) == "initOfferer|" + username
    ensures SocketProtocol.SendSdpToClientMessage(clientName, sdp) == "offererSdp|" + clientName + "|" + sdp
    ensures SocketProtocol.SendSdpToOffererMessage(offererUsername, sdp) == "clientSdp|" + offererUsername + "|" + sdp
  {
  }

  /** The legacy init message carries one field fewer than the current one:
      the same text up to the game name, without the minutes. */
  lemma InitClientWithoutMinutes(username: string, offererUsername: string, gameName: string, minutes: string)
    ensures SocketProtocol.InitClientMessage(username, offererUsername, gameName, minutes)
            == InitClientMessage(username, offererUsername, gameName) + "|" + minutes
    ensures NoSeparator([username, offererUsername, gameName], '|') ==>
              |Split(InitClientMessage(username, offererUsername, gameName), '|')| == 4
  {
  }

  /** A request with at least the client and game fields yields the client. */
  lemma GameSolicitudeRoundTrip(client: string, game: string, more: string)
    requires '|' !in client && '|' !in game
    ensures GameSolicitude(SocketProtocol.TextFrame(SocketProtocol.SDP_REQUEST_FROM_MSG + "|" + client + "|" + game)) == Ok(client)
    ensures GameSolicitude(SocketProtocol.TextFrame(SocketProtocol.SDP_REQUEST_FROM_MSG + "|" + client + "|" + game + "|" + more)) == Ok(client)
  {
    var tag := SocketProtocol.SDP_REQUEST_FROM_MSG;
    assert tag + "|" + client + "|" + game == tag + "|" + (client + "|" + game);
    SplitFieldThenRest(tag, client + "|" + game, '|');
    SplitFieldThenRest(client, game, '|');
    SplitFieldOnly(game, '|');
    assert tag + "|" + client + "|" + game + "|" + more == tag + "|" + (client + "|" + (game + "|" + more));
    SplitFieldThenRest(tag, client + "|" + (game + "|" + more), '|');
    SplitFieldThenRest(client, game + "|" + more, '|');
    SplitFieldThenRest(game, more, '|');
  }

  /** A request holding only the client's name panics on the read of field 2. */
  lemma GameSolicitudeWithoutGamePanics(client: string)
    requires '|' !in client
    ensures GameSolicitude(SocketProtocol.TextFrame(SocketProtocol.SDP_REQUEST_FROM_MSG + "|" + client)) == Panic
  {
    var tag := SocketProtocol.SDP_REQUEST_FROM_MSG;
    SplitFieldThenRest(tag, client, '|');
    SplitFieldOnly(client, '|');
  }

  /** Every legacy parser answers "Invalid message" to a text whose first
      piece is not its tag. */
  lemma RejectsOtherTags(text: string)
    ensures !(text == "sdpRequestFrom" || "sdpRequestFrom|" <= text) ==>
              GameSolicitude(SocketProtocol.TextFrame(text)) == Err(IoError(InvalidData, "Invalid message"))
    ensures !(text == "sdpClient" || "sdpClient|" <= text) ==>
              ClientSdp(SocketProtocol.TextFrame(text)) == Err(IoError(InvalidData, "Invalid message"))
    ensures !(text == "sdpOfferer" || "sdpOfferer|" <= text) ==>
              OffererSdp(SocketProtocol.TextFrame(text)) == Err(IoError(InvalidData, "Invalid message"))
  {
    FirstFieldIs(text, SocketProtocol.SDP_REQUEST_FROM_MSG, '|');
    FirstFieldIs(text, SocketProtocol.SDP_CLIENT_MSG, '|');
    FirstFieldIs(text, SocketProtocol.SDP_OFFERER_MSG, '|');
  }

  /** "sdpClient|s" and "sdpOfferer|s" give s back. */
  lemma SdpRoundTrips(sdp: string)
    requires '|' !in sdp
    ensures ClientSdp(SocketProtocol.TextFrame(SocketProtocol.SDP_CLIENT_MSG + "|" + sdp)) == Ok(sdp)
    ensures OffererSdp(SocketProtocol.TextFrame(SocketProtocol.SDP_OFFERER_MSG + "|" + sdp)) == Ok(sdp)
  {
    SocketProtocol.TaggedFieldRoundTrip(SocketProtocol.SDP_CLIENT_MSG, INVALID_MESSAGE, sdp);
    SocketProtocol.TaggedFieldRoundTrip(SocketProtocol.SDP_OFFERER_MSG, INVALID_MESSAGE, sdp);
  }

  /** Every request the current client accepts, the legacy client accepts
      with the same client name; the legacy one also accepts requests
      without a game path, on which the current one panics. */
  lemma LegacyAcceptsMore(frame: SocketProtocol.Received, client: string, game: string)
    ensures SocketProtocol.GameSolicitude(frame).Ok? ==>
              GameSolicitude(frame) == Ok(SocketProtocol.GameSolicitude(frame).value.clientName)
    ensures '|' !in client && '|' !in game ==>
              var twoFields := SocketProtocol.TextFrame(SocketProtocol.SDP_REQUEST_FROM_MSG + "|" + client + "|" + game);
              GameSolicitude(twoFields) == Ok(client) && SocketProtocol.GameSolicitude(twoFields) == Panic
  {
    if '|' !in client && '|' !in game {
      GameSolicitudeRoundTrip(client, game, "");
      var tag := SocketProtocol.SDP_REQUEST_FROM_MSG;
      assert tag + "|" + client + "|" + game == tag + "|" + (client + "|" + game);
      SplitFieldThenRest(tag, client + "|" + game, '|');
      SplitFieldThenRest(client, game, '|');
      SplitFieldOnly(game, '|');
      assert Split(tag + "|" + client + "|" + game, '|') == [tag, client, game];
    }
  }
}
