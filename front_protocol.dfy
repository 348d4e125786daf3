/** The local control connection of src/front_connection/front_protocol.rs: the
    front end writes newline-terminated lines on a TCP socket; the reader
    task cuts the byte stream into lines, strips their trailing newlines and
    dispatches each one. "startOffering|u" and "startGameWithUser|u|c|g|m"
    hand a `Client` to the session, "disconnect" waits on the disconnect
    barrier and any other line is ignored. */
module FrontProtocol {
  import opened Outcomes
  import opened Text

  const START_OFFERING := "startOffering"
  const START_GAME_WITH_USER := "startGameWithUser"
  const DISCONNECT := "disconnect"

  datatype ClientType = Sender | Receiver

  /** `Client`: who is starting, and for a receiver which offerer, game and
      session length it asked for. */
  datatype Client = Client(
    clientType: ClientType,
    username: string,
    userToConnect: Option<string>,
    gameName: Option<string>,
    minutes: Option<string>)

  /** What `handle_message` does with one line. */
  datatype Command = Start(client: Client) | AwaitDisconnect | Ignored

  /** `handle_message`: the first '|' piece selects the command. A start
      line with too few fields panics on the unchecked `parts[i]`. */
  function HandleMessage(msg: string): (r: Outcome<Command>)
    ensures !r.Err?
    ensures r.Ok? && r.value.Start? ==> var parts := Split(msg, '|');
              (parts[0] == START_OFFERING && r.value.client.clientType == Sender) ||
              (parts[0] == START_GAME_WITH_USER && r.value.client.clientType == Receiver)
    ensures r == Panic <==> (Split(msg, '|')[0] == START_OFFERING && |Split(msg, '|')| < 2) ||
                            (Split(msg, '|')[0] == START_GAME_WITH_USER && |Split(msg, '|')| < 5)
    ensures Split(msg, '|')[0] == DISCONNECT ==> r == Ok(AwaitDisconnect)
    ensures Split(msg, '|')[0] !in {START_OFFERING, START_GAME_WITH_USER, DISCONNECT} ==> r == Ok(Ignored)
  {
    var parts := Split(msg, '|');
    if parts[0] == START_OFFERING then
      if |parts| < 2 then Panic
      else Ok(Start(Client(Sender, TrimEnd(parts[1], '\n'), None, None, None)))
    else if parts[0] == START_GAME_WITH_USER then
      if |parts| < 5 then Panic
      else Ok(Start(Client(Receiver, parts[1], Some(parts[2]), Some(parts[3]), Some(TrimEnd(parts[4], '\n')))))
    else if parts[0] == DISCONNECT then Ok(AwaitDisconnect)
    else Ok(Ignored)
  }

  // ---------------------------------------------------------------------------
  // Line framing

  /** The bytes one `read_until(b'\n')` takes off the front of s: up to and
      including the first '\n', or all of s when it has none. */
  function LineLength(s: string): (n: nat)
    ensures n <= |s|
    ensures n == 0 <==> s == []
    decreases |s|
  {
    if s == [] then 0
    else if s[0] == '\n' then 1
    else 1 + LineLength(s[1..])
  }

  /** A line taken off the stream holds no '\n' but its last byte, and ends
      in '\n' unless it is the end of the stream. */
  lemma {:induction false} LineLengthIsLine(s: string)
    ensures var n := LineLength(s);
            ('\n' !in s[..n] || (s[n - 1] == '\n' && '\n' !in s[..n - 1])) &&
            (n < |s| ==> s[n - 1] == '\n')
    decreases |s|
  {
    if s != [] && s[0] != '\n' {
      LineLengthIsLine(s[1..]);
      var m := LineLength(s[1..]);
      assert s[..m + 1] == [s[0]] + s[1..][..m];
      if m > 0 {
        assert s[..m] == [s[0]] + s[1..][..m - 1];
      }
    }
  }

  /** The frames the reader loop takes off the stream, in order. */
  function Frames(s: string): (frames: seq<string>)
    decreases |s|
  {
    if s == [] then []
    else
      var n := LineLength(s);
      [s[..n]] + Frames(s[n..])
  }

  /** The frames cover the stream: nothing is lost or added between them. */
  lemma {:induction false} FramesCoverStream(s: string)
    ensures Concat(Frames(s)) == s
    decreases |s|
  {
    if s != [] {
      var n := LineLength(s);
      var tail := s[n..];
      FramesCoverStream(tail);
      assert Frames(s) == [s[..n]] + Frames(tail);
      ConcatCons(s[..n], Frames(tail));
      assert s[..n] + tail == s;
    }
  }

  /** Helper: Concat of a frame followed by more frames. */
  lemma ConcatCons(frame: string, frames: seq<string>)
    ensures Concat([frame] + frames) == frame + Concat(frames)
  {
    assert ([frame] + frames)[1..] == frames;
  }

  /** Every frame is a non-empty line: no '\n' before its last byte, and
      every frame but the last ends in '\n'. */
  lemma {:induction false} FramesAreLines(s: string)
    ensures forall i :: 0 <= i < |Frames(s)| ==>
              Frames(s)[i] != [] && '\n' !in Frames(s)[i][..|Frames(s)[i]| - 1]
    ensures forall i :: 0 <= i < |Frames(s)| - 1 ==> Frames(s)[i][|Frames(s)[i]| - 1] == '\n'
    decreases |s|
  {
    if s != [] {
      var n := LineLength(s);
      LineLengthIsLine(s);
      FramesAreLines(s[n..]);
      var frames := Frames(s);
      var rest := Frames(s[n..]);
      assert frames == [s[..n]] + rest;
      forall i | 0 <= i < |frames|
        ensures frames[i] != [] && '\n' !in frames[i][..|frames[i]| - 1]
      {
        if i > 0 {
          assert frames[i] == rest[i - 1];
        }
      }
      forall i | 0 <= i < |frames| - 1
        ensures frames[i][|frames[i]| - 1] == '\n'
      {
        if i > 0 {
          assert frames[i] == rest[i - 1];
        } else {
          assert n < |s|;
        }
      }
    }
  }

  function Concat(frames: seq<string>): string
  {
    if frames == [] then [] else frames[0] + Concat(frames[1..])
  }

  /** What the reader task did before it ended: the commands it dispatched,
      and whether it ended by a panic rather than at the end of the stream. */
  datatype Reading = Reading(commands: seq<Command>, panicked: bool)

  /** The commands of the frames, up to the first that panics. */
  function Dispatch(frames: seq<string>): (r: Reading)
    ensures |r.commands| <= |frames|
    ensures !r.panicked ==> |r.commands| == |frames|
  {
    if frames == [] then Reading([], false)
    else match HandleMessage(TrimEnd(frames[0], '\n'))
      case Ok(c) => Prepend([c], Dispatch(frames[1..]))
      case _ => Reading([], true)
  }

  function Prepend(commands: seq<Command>, r: Reading): Reading
  {
    Reading(commands + r.commands, r.panicked)
  }

  /** Helper: prepending twice is prepending the concatenation. */
  lemma PrependTwice(first: seq<Command>, second: seq<Command>, r: Reading)
    ensures Prepend(first, Prepend(second, r)) == Prepend(first + second, r)
  {
    assert first + (second + r.commands) == (first + second) + r.commands;
  }

  /** One turn of the reader loop, on the stream that is left. */
  lemma DispatchStep(s: string)
    requires s != []
    ensures var n := LineLength(s);
            var r := HandleMessage(TrimEnd(s[..n], '\n'));
            Dispatch(Frames(s)) == if r.Ok? then Prepend([r.value], Dispatch(Frames(s[n..]))) else Reading([], true)
  {
    var n := LineLength(s);
    var frames := Frames(s);
    assert frames[0] == s[..n] && frames[1..] == Frames(s[n..]);
  }

  /** The reader task spawned by `FrontConnection::new`, over the bytes the
      socket delivers before it is closed. */
  method ReadLoop(stream: string) returns (commands: seq<Command>, panicked: bool)
    ensures Reading(commands, panicked) == Dispatch(Frames(stream))
  {
    var rest := stream;
    commands := [];
    panicked := false;
    while true
      invariant Dispatch(Frames(stream)) == Prepend(commands, Dispatch(Frames(rest)))
      invariant !panicked
      decreases |rest|
    {
      var n := LineLength(rest);
      if n == 0 {
        assert commands + [] == commands;
        return;
      }
      var line := rest[..n];
      var msg := TrimEnd(line, '\n');
      DispatchStep(rest);
      var r := HandleMessage(msg);
      if !r.Ok? {
        assert commands + [] == commands;
        panicked := true;
        return;
      }
      PrependTwice(commands, [r.value], Dispatch(Frames(rest[n..])));
      commands := commands + [r.value];
      rest := rest[n..];
    }
  }

  // ---------------------------------------------------------------------------
  // What the front end writes

  /** The line a front end writes to start offering as username. */
  function StartOfferingLine(username: string): string
  {
    START_OFFERING + "|" + username + "\n"
  }

  /** A field the front end can write: no separator and no newline. */
  predicate Plain(field: string) { '|' !in field && '\n' !in field }

  lemma {:induction false} LineLengthOfPlain(body: string, rest: string)
    requires '\n' !in body
    ensures LineLength(body + "\n" + rest) == |body| + 1
    decreases |body|
  {
    var s := body + "\n" + rest;
    if body == [] {
      assert s[0] == '\n';
    } else {
      assert s[1..] == body[1..] + "\n" + rest;
      LineLengthOfPlain(body[1..], rest);
    }
  }

  /** A newline-free body and its newline make one frame, which the reader
      hands on without the newline. */
  lemma FramesOfPlainLine(body: string, rest: string)
    requires '\n' !in body
    ensures Frames(body + "\n" + rest) == [body + "\n"] + Frames(rest)
    ensures TrimEnd(body + "\n", '\n') == body
  {
    var s := body + "\n" + rest;
    LineLengthOfPlain(body, rest);
    assert s[..|body| + 1] == body + "\n";
    assert s[|body| + 1..] == rest;
    assert (body + "\n")[..|body|] == body;
  }

  /** "startOffering|u" gives a Sender whose other fields are all None. */
  lemma StartOfferingMessage(username: string)
    requires Plain(username)
    ensures HandleMessage(START_OFFERING + "|" + username) == Ok(Start(Client(Sender, username, None, None, None)))
  {
    SplitFieldThenRest(START_OFFERING, username, '|');
    SplitFieldOnly(username, '|');
  }

  /** "startGameWithUser|u|c|g|m" gives a Receiver with Some(c), Some(g), Some(m). */
  lemma StartGameWithUserMessage(username: string, offerer: string, game: string, minutes: string)
    requires Plain(username) && Plain(offerer) && Plain(game) && Plain(minutes)
    ensures HandleMessage(START_GAME_WITH_USER + "|" + username + "|" + offerer + "|" + game + "|" + minutes)
            == Ok(Start(Client(Receiver, username, Some(offerer), Some(game), Some(minutes))))
  {
    var fields := [START_GAME_WITH_USER, username, offerer, game, minutes];
    assert NoSeparator(fields, '|');
    SplitJoin(fields, '|');
    JoinFive(START_GAME_WITH_USER, username, offerer, game, minutes, '|');
  }

  /** A "startGameWithUser" message without the minutes field, like the line
      "startGameWithUser|axel|franco_god|Cuphead\n" the front-end sample
      script writes, panics. */
  lemma StartGameWithoutMinutesPanics(username: string, offerer: string, game: string)
    requires Plain(username) && Plain(offerer) && Plain(game)
    ensures HandleMessage(START_GAME_WITH_USER + "|" + username + "|" + offerer + "|" + game) == Panic
  {
    var fields := [START_GAME_WITH_USER, username, offerer, game];
    assert NoSeparator(fields, '|');
    SplitJoin(fields, '|');
    JoinFour(START_GAME_WITH_USER, username, offerer, game, '|');
  }

  /** A line that panics ends the reader task there: nothing on it or after
      it is dispatched. */
  lemma StartGameWithoutMinutesEndsReader(username: string, offerer: string, game: string, rest: string)
    requires Plain(username) && Plain(offerer) && Plain(game)
    ensures Dispatch(Frames(START_GAME_WITH_USER + "|" + username + "|" + offerer + "|" + game + "\n" + rest))
            == Reading([], true)
  {
    var body := START_GAME_WITH_USER + "|" + username + "|" + offerer + "|" + game;
    StartGameWithoutMinutesPanics(username, offerer, game);
    DispatchOfPlainLine(body, rest);
  }

  /** The reader's treatment of one newline-terminated line followed by rest. */
  lemma DispatchOfPlainLine(body: string, rest: string)
    requires '\n' !in body
    ensures var r := HandleMessage(body);
            Dispatch(Frames(body + "\n" + rest)) ==
            if r.Ok? then Prepend([r.value], Dispatch(Frames(rest))) else Reading([], true)
  {
    FramesOfPlainLine(body, rest);
    var frames := Frames(body + "\n" + rest);
    assert frames[0] == body + "\n" && frames[1..] == Frames(rest);
  }

  /** The "startOffering" lines for users, one after another. */
  function OfferingLines(users: seq<string>): string
  {
    if users == [] then [] else StartOfferingLine(users[0]) + OfferingLines(users[1..])
  }

  /** The reader task turns a stream of "startOffering" lines into one Sender
      client per line, in order, and reads on to the end of the stream. */
  lemma {:induction false} ReadingOfferingLines(users: seq<string>)
    requires forall i :: 0 <= i < |users| ==> Plain(users[i])
    ensures Dispatch(Frames(OfferingLines(users))) ==
            Reading(SenderStarts(users), false)
    decreases |users|
  {
    if users != [] {
      var body := START_OFFERING + "|" + users[0];
      var rest := OfferingLines(users[1..]);
      assert OfferingLines(users) == body + "\n" + rest;
      StartOfferingMessage(users[0]);
      DispatchOfPlainLine(body, rest);
      ReadingOfferingLines(users[1..]);
      assert Dispatch(Frames(rest)) == Reading(SenderStarts(users[1..]), false);
    }
  }

  /** One Sender start per user, in order. */
  function SenderStarts(users: seq<string>): (commands: seq<Command>)
    ensures |commands| == |users|
    ensures forall i :: 0 <= i < |users| ==> commands[i] == Start(Client(Sender, users[i], None, None, None))
  {
    if users == [] then [] else [Start(Client(Sender, users[0], None, None, None))] + SenderStarts(users[1..])
  }
}
