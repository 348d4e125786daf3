/** The older mouse-channel handler (src/output/output_controller.rs): the
    same "x y" format, with every failure left to `unwrap`. */
module OutputController {
  import opened Outcomes
  import opened Text
  import opened Winput

  /** The callback body for one message: a missing token or one that is not
      an i32 panics; otherwise the move is the first two tokens. */
  function DecodeMoveMessage(s: string): (r: Outcome<Injection>)
    ensures r.Ok? <==> |SplitWhitespace(s)| >= 2 &&
                       ParseI32(SplitWhitespace(s)[0]).Some? && ParseI32(SplitWhitespace(s)[1]).Some?
    ensures r.Ok? ==>
              (r.value.MoveRelative? &&
               Some(r.value.x as int) == ParseI32(SplitWhitespace(s)[0]) &&
               Some(r.value.y as int) == ParseI32(SplitWhitespace(s)[1]))
    ensures !r.Err?
  {
    var parts := SplitWhitespace(s);
    if |parts| < 1 then Panic
    else match ParseI32(parts[0])
      case None => Panic
      case Some(x) =>
        if |parts| < 2 then Panic
        else match ParseI32(parts[1])
          case None => Panic
          case Some(y) => Ok(MoveRelative(x, y))
  }
}
