/** Latency measurement between the peers (src/webrtcommunication/latency.rs):
    both sides read the time from an SNTP server, the sender sends its reading
    as decimal text over the "latency" data channel, and the receiver logs
    the difference to its own reading as a `time,latency` line. The clock,
    the SNTP exchange and `sntpc::fraction_to_milliseconds` are inputs. */
module Latency {
  import opened Outcomes
  import opened Text

  const LATENCY_CHECK := false
  const LATENCY_CHANNEL_LABEL := "latency"

  const CHANNEL_ERROR := "Error creating latency data channel"
  const OPEN_FILE_ERROR := "Error opening file"
  const PARSE_DIGITS_ERROR := "Error parsing last two digits"
  const CLONE_ERROR := "Error cloning socket"
  const SNTP_ERROR := "Error getting time from SNTP server"

  /** The part of `sntpc::NtpResult` the latency code reads: the seconds, the
      fraction of a second and the roundtrip in microseconds. */
  datatype NtpResult = NtpResult(sec: nat, secFraction: nat, roundtrip: nat)

  // ---------------------------------------------------------------------------
  // Setting up the two sides

  /** What `start_latency_sender` leaves behind: its result, and whether it
      registered the loop that sends the time every few seconds. */
  datatype SenderSetup = SenderSetup(result: Outcome<Unit>, sendsTimes: bool)

  /** `start_latency_sender`, given whether the data channel could be
      created: with LATENCY_CHECK off it only creates the channel. */
  function StartLatencySender(channelCreated: bool): (r: SenderSetup)
    ensures r.result.Ok? <==> channelCreated
    ensures !channelCreated ==> r.result == Err(IoError(Other, CHANNEL_ERROR))
    ensures !r.sendsTimes
  {
    if !channelCreated then SenderSetup(Err(IoError(Other, CHANNEL_ERROR)), false)
    else SenderSetup(Ok(Unit), LATENCY_CHECK)
  }

  /** `start_latency_receiver`, given the error binding the UDP socket gave, if
      any, and whether the log file could be opened. */
  function StartLatencyReceiver(socketError: Option<IoError>, fileOpened: bool): (r: Outcome<Unit>)
    ensures r.Ok? <==> socketError.None? && fileOpened
    ensures socketError.Some? ==> r == Err(socketError.value)
    ensures socketError.None? && !fileOpened ==> r == Err(IoError(Other, OPEN_FILE_ERROR))
    ensures !r.Panic?
  {
    match socketError
    case Some(e) => Err(e)
    case None => if fileOpened then Ok(Unit) else Err(IoError(Other, OPEN_FILE_ERROR))
  }

  // ---------------------------------------------------------------------------
  // get_time_from_sntp

  /** What attempt number k of the retry loop meets: a socket that cannot be
      cloned, no answer from the server, or an answer. */
  datatype Attempt = CloneFailed | NoAnswer | Answer(ntp: NtpResult)

  /** The outcome of the retry loop from attempt `retry` on, where maxRetry is
      MAX_SNTP_RETRY. */
  function SntpFrom(attempt: nat -> Attempt, maxRetry: nat, retry: nat): (r: Outcome<NtpResult>)
    ensures !r.Panic?
    ensures r.Err? ==> r.error == IoError(Other, SNTP_ERROR) || r.error == IoError(Other, CLONE_ERROR)
    decreases maxRetry - retry
  {
    if retry >= maxRetry then Err(IoError(Other, SNTP_ERROR))
    else match attempt(retry)
      case CloneFailed => Err(IoError(Other, CLONE_ERROR))
      case Answer(ntp) => Ok(ntp)
      case NoAnswer => SntpFrom(attempt, maxRetry, retry + 1)
  }

  /** `get_time_from_sntp`: up to maxRetry attempts, each cloning the socket
      and asking the server; a clone failure ends the loop at once. */
  method GetTimeFromSntp(attempt: nat -> Attempt, maxRetry: nat) returns (r: Outcome<NtpResult>)
    ensures r == SntpFrom(attempt, maxRetry, 0)
  {
    var retry := 0;
    var result := NtpResult(0, 0, 0);
    while retry < maxRetry
      invariant retry <= maxRetry
      invariant SntpFrom(attempt, maxRetry, 0) == SntpFrom(attempt, maxRetry, retry)
    {
      var a := attempt(retry);
      if a.CloneFailed? {
        return Err(IoError(Other, CLONE_ERROR));
      }
      if a.Answer? {
        result := a.ntp;
        break;
      }
      retry := retry + 1;
    }
    if retry == maxRetry {
      return Err(IoError(Other, SNTP_ERROR));
    }
    r := Ok(result);
  }

  /** The loop makes at most maxRetry attempts: two runs that meet the same
      first maxRetry attempts end the same way. */
  lemma {:induction false} SntpUsesOnlyFirstAttempts(a: nat -> Attempt, b: nat -> Attempt, maxRetry: nat, retry: nat)
    requires forall k :: retry <= k < maxRetry ==> a(k) == b(k)
    ensures SntpFrom(a, maxRetry, retry) == SntpFrom(b, maxRetry, retry)
    decreases maxRetry - retry
  {
    if retry < maxRetry && a(retry).NoAnswer? {
      SntpUsesOnlyFirstAttempts(a, b, maxRetry, retry + 1);
    }
  }

  /** The loop fails with the SNTP error exactly when no attempt got an answer
      and no clone failed, and it yields a result exactly when some attempt
      got one after only unanswered attempts; that answer is the result. */
  lemma {:induction false} SntpOutcomes(a: nat -> Attempt, maxRetry: nat, retry: nat)
    ensures SntpFrom(a, maxRetry, retry) == Err(IoError(Other, SNTP_ERROR))
            <==> forall k :: retry <= k < maxRetry ==> a(k).NoAnswer?
    ensures SntpFrom(a, maxRetry, retry).Ok?
            <==> exists k :: retry <= k < maxRetry && a(k).Answer? && forall j :: retry <= j < k ==> a(j).NoAnswer?
    ensures forall k :: retry <= k < maxRetry && a(k).Answer? && (forall j :: retry <= j < k ==> a(j).NoAnswer?)
              ==> SntpFrom(a, maxRetry, retry) == Ok(a(k).ntp)
    decreases maxRetry - retry
  {
    if retry < maxRetry {
      SntpOutcomes(a, maxRetry, retry + 1);
    }
  }

  // ---------------------------------------------------------------------------
  // get_time

  /** `get_time`, given the outcome of `get_time_from_sntp` and the value
      fractionMs that `fraction_to_milliseconds` gives for its fraction: the
      last two decimal digits of the seconds, in milliseconds, plus the
      fraction, minus the roundtrip in milliseconds truncated to u32. The
      slice of the last two characters panics for seconds below 10, and the
      u32 sum and difference panic on overflow. */
  function GetTime(sntp: Outcome<NtpResult>, fractionMs: nat): (r: Outcome<nat>)
    requires fractionMs <= U32_MAX
    ensures r.Ok? ==> r.value <= U32_MAX
    ensures sntp.Err? ==> r == Err(sntp.error)
  {
    match sntp
    case Err(e) => Err(e)
    case Panic => Panic
    case Ok(ntp) =>
      var secs := NatToString(ntp.sec);
      if |secs| < 2 then Panic
      else
        match ParseU32(secs[|secs| - 2..])
        case None => Err(IoError(Other, PARSE_DIGITS_ERROR))
        case Some(digits) =>
          if digits == 0 then Ok(0)
          else if digits * 1000 > U32_MAX then Ok(0)
          else
            var rtt := (ntp.roundtrip / 1000) % 0x1_0000_0000;
            var sum := digits * 1000 + fractionMs;
            if sum > U32_MAX || sum < rtt then Panic
            else Ok(sum - rtt)
  }

  /** What `get_time` computes from an SNTP answer, in terms of its numbers:
      seconds below 10 panic; otherwise only sec % 100 counts, a multiple of
      100 seconds gives 0, and the result is (sec % 100) * 1000 + fractionMs
      minus the roundtrip in milliseconds, where that difference fits a u32.
      The parse error is never reached. */
  lemma GetTimeOfAnswer(ntp: NtpResult, fractionMs: nat)
    requires fractionMs <= U32_MAX
    ensures ntp.sec < 10 ==> GetTime(Ok(ntp), fractionMs) == Panic
    ensures ntp.sec >= 10 && ntp.sec % 100 == 0 ==> GetTime(Ok(ntp), fractionMs) == Ok(0)
    ensures ntp.sec >= 10 && ntp.sec % 100 != 0 ==>
              var sum := (ntp.sec % 100) * 1000 + fractionMs;
              var rtt := (ntp.roundtrip / 1000) % 0x1_0000_0000;
              GetTime(Ok(ntp), fractionMs) == if sum <= U32_MAX && rtt <= sum then Ok(sum - rtt) else Panic
    ensures !GetTime(Ok(ntp), fractionMs).Err?
  {
    if ntp.sec >= 10 {
      LastTwoDigits(ntp.sec);
      var secs := NatToString(ntp.sec);
      var last := secs[|secs| - 2..];
      assert last[0] != '+' by { assert IsDigit(last[0]); }
      assert last[0..] == last;
      assert ParseU32(last) == Some(ntp.sec % 100);
    }
  }

  /** With a fraction below one second, a reading lies within a 100-second
      window: below 100000 milliseconds. */
  lemma GetTimeWithinWindow(ntp: NtpResult, fractionMs: nat)
    requires fractionMs < 1000
    ensures GetTime(Ok(ntp), fractionMs).Ok? ==> GetTime(Ok(ntp), fractionMs).value < 100_000
  {
    GetTimeOfAnswer(ntp, fractionMs);
  }

  // ---------------------------------------------------------------------------
  // The receiver

  /** The `on_message` handler for one message: whether the socket could be
      cloned, the text received, and what `get_time` returns if it is called.
      Ok(None) is a message dropped, Ok(Some(l)) a latency l to log. A text
      that is not a u32 is dropped before the time is read, and so is a
      reading earlier than the received one (`checked_sub`). */
  function OnMessage(socketCloned: bool, msg: string, time: Outcome<nat>): (r: Outcome<Option<nat>>)
    ensures r.Panic? <==> socketCloned && ParseU32(msg).Some? && time.Panic?
    ensures r.Ok? && r.value.Some? ==>
              socketCloned && ParseU32(msg).Some? && time.Ok? && ParseU32(msg).value + r.value.value == time.value
    ensures socketCloned && ParseU32(msg).Some? && time.Ok? && ParseU32(msg).value <= time.value ==> r.Ok? && r.value.Some?
    ensures !r.Err?
  {
    if !socketCloned then Ok(None)
    else
      match ParseU32(msg)
      case None => Ok(None)
      case Some(received) =>
        match time
        case Err(_) => Ok(None)
        case Panic => Panic
        case Ok(now) => if now < received then Ok(None) else Ok(Some(now - received))
  }

  /** The sender's reading, printed, is read back by the receiver: the
      latency is the receiver's reading minus the sender's whenever that is
      not negative. */
  lemma SenderTimeRoundTrip(sent: nat, now: nat)
    requires sent <= U32_MAX
    ensures OnMessage(true, NatToString(sent), Ok(now)) == if sent <= now then Ok(Some(now - sent)) else Ok(None)
  {
    ParseUnsignedOfNatToString(sent, U32_MAX);
  }

  /** The line `writeln!(file, "{},{}", timestamp, latency)` writes. */
  function LatencyLine(timestamp: string, latency: nat): (line: string)
    ensures |line| >= 1 && line[|line| - 1] == '\n'
  {
    timestamp + "," + NatToString(latency) + "\n"
  }

  /** A printed number holds neither of the two delimiters of the log. */
  lemma NumberHasNoDelimiter(n: nat)
    ensures ',' !in NatToString(n) && '\n' !in NatToString(n)
  {
    var digits := NatToString(n);
    forall i | 0 <= i < |digits| ensures digits[i] != ',' && digits[i] != '\n' {
      assert IsDigit(digits[i]);
    }
  }

  /** A line is one record: splitting it at newlines gives its text before
      the final '\n', then nothing. */
  lemma LatencyLineIsOneRecord(timestamp: string, latency: nat)
    requires '\n' !in timestamp
    ensures var line := LatencyLine(timestamp, latency);
            Split(line, '\n') == [timestamp + "," + NatToString(latency), ""]
  {
    NumberHasNoDelimiter(latency);
    var body := timestamp + "," + NatToString(latency);
    assert LatencyLine(timestamp, latency) == body + ['\n'] + "";
    assert '\n' !in body;
    SplitFieldThenRest(body, "", '\n');
    SplitFieldOnly("", '\n');
  }

  /** The record reads back as its two comma-separated fields, the second of
      which parses to the latency, when the timestamp holds no comma (as an
      RFC 3339 timestamp does not). */
  lemma LatencyRecordFields(timestamp: string, latency: nat)
    requires ',' !in timestamp
    ensures Split(timestamp + "," + NatToString(latency), ',') == [timestamp, NatToString(latency)]
    ensures latency <= U32_MAX ==> ParseU32(NatToString(latency)) == Some(latency)
  {
    NumberHasNoDelimiter(latency);
    assert timestamp + "," + NatToString(latency) == timestamp + [','] + NatToString(latency);
    SplitFieldThenRest(timestamp, NatToString(latency), ',');
    SplitFieldOnly(NatToString(latency), ',');
    if latency <= U32_MAX {
      ParseUnsignedOfNatToString(latency, U32_MAX);
    }
  }

  /** The log file the receiver appends to. */
  class LatencyLog {
    var contents: string

    constructor()
      ensures contents == []
    {
      contents := [];
    }

    /** `write_in_file`: appends one line when the write succeeds, and
        returns Ok either way. */
    method WriteInFile(timestamp: string, latency: nat, written: bool) returns (r: Outcome<Unit>)
      modifies this
      ensures r == Ok(Unit)
      ensures contents == old(contents) + (if written then LatencyLine(timestamp, latency) else [])
    {
      if written {
        contents := contents + LatencyLine(timestamp, latency);
      }
      r := Ok(Unit);
    }

    /** One message handled by the receiver: a latency it keeps is written
        to the log (when the write succeeds), anything else leaves the log
        as it was. */
    method HandleMessage(socketCloned: bool, msg: string, time: Outcome<nat>, timestamp: string, written: bool)
      returns (r: Outcome<Unit>)
      modifies this
      ensures r.Panic? <==> OnMessage(socketCloned, msg, time).Panic?
      ensures !r.Err?
      ensures contents == old(contents) +
                (if written && OnMessage(socketCloned, msg, time).Ok? && OnMessage(socketCloned, msg, time).value.Some?
                 then LatencyLine(timestamp, OnMessage(socketCloned, msg, time).value.value)
                 else [])
    {
      var handled := OnMessage(socketCloned, msg, time);
      if handled.Panic? {
        return Panic;
      }
      if handled.value.Some? {
        r := WriteInFile(timestamp, handled.value.value, written);
      } else {
        r := Ok(Unit);
      }
    }
  }
}
