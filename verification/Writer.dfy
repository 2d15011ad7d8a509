/**
 The stdout writer of internal/protocol/envelope.go: a mutex around one flag,
 one counter and the stream. Once quiesced, only the shutdown sequence's own
 lines pass.
 */
module Writer {
  datatype State<Line> = State(out: seq<Line>, quiesced: bool, dropped: nat)

  function Emitted<Line>(w: State<Line>, line: Line, last: bool): State<Line> {
    if w.quiesced && !last then w.(dropped := w.dropped + 1) else w.(out := w.out + [line])
  }

  function Quiesced<Line>(w: State<Line>): State<Line> { w.(quiesced := true) }

  class Writer<Line> {
    var out: seq<Line>
    var quiesced: bool
    var dropped: nat

    function View(): State<Line>
      reads this
    {
      State(out, quiesced, dropped)
    }

    constructor ()
      ensures View() == State([], false, 0)
    {
      out, quiesced, dropped := [], false, 0;
    }

    method Emit(line: Line) returns (written: bool)
      modifies this
      ensures View() == Emitted(old(View()), line, false)
      ensures written <==> !old(quiesced)
    {
      written := EmitLine(line, false);
    }

    method EmitFinal(line: Line)
      modifies this
      ensures View() == Emitted(old(View()), line, true)
    {
      var _ := EmitLine(line, true);
    }

    method EmitLine(line: Line, last: bool) returns (written: bool)
      modifies this
      ensures View() == Emitted(old(View()), line, last)
      ensures written <==> last || !old(quiesced)
      ensures written ==> out == old(out) + [line] && dropped == old(dropped)
      ensures !written ==> out == old(out) && dropped == old(dropped) + 1
    {
      if quiesced && !last {
        dropped := dropped + 1;
        return false;
      }
      out := out + [line];
      return true;
    }

    method Quiesce()
      modifies this
      ensures View() == Quiesced(old(View()))
    {
      quiesced := true;
    }
  }
}
