/** The host side of the mouse channel (src/output/mouse_controller.rs): each
    message is split on whitespace and its first two tokens are read as the
    i32 horizontal and vertical moves. */
module MouseController {
  import opened Outcomes
  import opened Text
  import opened Winput

  /** The callback body for one message, in the source's order: reading
      token 0 panics when there is none; a token 0 that is not an i32 ends
      the callback with no move, before token 1 is looked at; then the same
      for token 1. Further tokens are ignored. */
  function DecodeMoveMessage(s: string): (r: Outcome<Option<Injection>>)
    ensures r == Panic <==> |SplitWhitespace(s)| == 0 ||
                            (|SplitWhitespace(s)| == 1 && ParseI32(SplitWhitespace(s)[0]).Some?)
    ensures r.Ok? && r.value.Some? ==>
              (r.value.value.MoveRelative? && |SplitWhitespace(s)| >= 2 &&
               Some(r.value.value.x as int) == ParseI32(SplitWhitespace(s)[0]) &&
               Some(r.value.value.y as int) == ParseI32(SplitWhitespace(s)[1]))
    ensures |SplitWhitespace(s)| >= 2 && ParseI32(SplitWhitespace(s)[0]).Some? && ParseI32(SplitWhitespace(s)[1]).Some? ==>
              r == Ok(Some(MoveRelative(ParseI32(SplitWhitespace(s)[0]).value, ParseI32(SplitWhitespace(s)[1]).value)))
    ensures |SplitWhitespace(s)| >= 1 && ParseI32(SplitWhitespace(s)[0]).None? ==> r == Ok(None)
    ensures |SplitWhitespace(s)| >= 2 && ParseI32(SplitWhitespace(s)[0]).Some? && ParseI32(SplitWhitespace(s)[1]).None? ==>
              r == Ok(None)
    ensures !r.Err?
  {
    var parts := SplitWhitespace(s);
    if |parts| < 1 then Panic
    else match ParseI32(parts[0])
      case None => Ok(None)
      case Some(x) =>
        if |parts| < 2 then Panic
        else match ParseI32(parts[1])
          case None => Ok(None)
          case Some(y) => Ok(Some(MoveRelative(x, y)))
  }

  /** Either token failing to parse gives no move at all. */
  lemma UnparsableTokenMovesNothing(a: string, b: string)
    requires a != [] && b != [] && NoWhitespace(a) && NoWhitespace(b)
    requires ParseI32(a) == None || ParseI32(b) == None
    ensures DecodeMoveMessage(a + " " + b) == Ok(None)
  {
    SplitWhitespaceOfPair(a, b);
  }
}
