/** The input events both game loops react to, with pygame's event queue, keyboard and mouse
    polling abstracted away: a button press is the `is_clicked()` answers at that moment, and
    the pipe timer carries the `random.randint` draw that the spawn will use. */
module Events {
  import opened Constants

  datatype Key = Space | KeyR | OtherKey

  datatype Event =
    | Quit
    | KeyDown(key: Key)
    | MouseDown(onStart: bool, onRestart: bool, onMenu: bool)
    | PipeTimer(gapHeight: int)
    | OtherEvent

  /** `random.randint(50, WINDOW_HEIGHT - PIPE_GAP - GROUND_HEIGHT - 50)` only draws in range. */
  predicate ValidDraw(e: Event) {
    e.PipeTimer? ==> ValidGapHeight(e.gapHeight)
  }

  predicate ValidDraws(es: seq<Event>) {
    forall k :: 0 <= k < |es| ==> ValidDraw(es[k])
  }
}
