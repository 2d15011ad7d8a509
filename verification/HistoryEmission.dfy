/**
 The loop of internal/wa/historysync.go that emits the batches of one
 conversation after the other: each waits for a number from the
 acknowledgement window and is then written to stdout, while the client
 acknowledges and the session may be cancelled at any moment.
 */
module HistoryEmission {
  import opened Prelude
  import opened Messages
  import opened HistoryWindow

  type Batch = seq<Message>

  datatype Line = Line(sq: int, batch: Batch)

  /** The one history worker among the callers of Acquire. */
  const WORKER: nat := 0

  /** given: the batches of all conversations so far. acked: the highest number the client has acknowledged, or a reset has forgotten. */
  datatype Emission = Emission(win: System, todo: seq<Batch>, lines: seq<Line>, given: seq<Batch>, acked: int)

  datatype Move =
    | Give(batches: seq<Batch>)
    | InWindow(a: Action)
    | Write
    | GiveUp

  predicate Holds(s: Emission) { WORKER in s.win.callers && s.win.callers[WORKER].Got? }

  predicate Allowed(s: Emission, m: Move) {
    match m
    case Give(_) => s.todo == [] && WORKER !in s.win.callers
    case InWindow(a) => Enabled(s.win, a) && (a.Call? ==> a.id == WORKER && s.todo != [])
    case Write => Holds(s) && s.todo != []
    // The context is looked at once more before the line is written.
    case GiveUp => WORKER in s.win.callers && (s.win.callers[WORKER].Cancelled? || (Holds(s) && s.win.cancelled))
  }

  function Leave(s: Emission): System { s.win.(callers := s.win.callers - {WORKER}) }

  function Acknowledged(s: Emission, a: Action): int {
    match a
    case ClientAck(sq) => Max(s.acked, sq)
    case LogoutReset => Max(s.acked, s.win.w.next - 1)
    case _ => s.acked
  }

  function Do(s: Emission, m: Move): Emission
    requires Allowed(s, m)
  {
    match m
    case Give(batches) => s.(todo := batches, given := s.given + batches)
    case InWindow(a) => s.(win := Apply(s.win, a), acked := Acknowledged(s, a))
    case Write => s.(win := Leave(s), todo := s.todo[1..], lines := s.lines + [Line(s.win.callers[WORKER].sq, s.todo[0])])
    case GiveUp => s.(win := Leave(s), todo := [])
  }

  ghost predicate IsEmission(size: int, states: seq<Emission>, moves: seq<Move>) {
    && |states| == |moves| + 1
    && states[0] == Emission(System(Initial(size), false, map[], []), [], [], [], 0)
    && forall i :: 0 <= i < |moves| ==> Allowed(states[i], moves[i]) && states[i + 1] == Do(states[i], moves[i])
  }

  function BatchesOf(lines: seq<Line>): seq<Batch> { seq(|lines|, i requires 0 <= i < |lines| => lines[i].batch) }

  /** Everything given has been written or is still to come, and so has every number. */
  predicate Intact(s: Emission) {
    && BatchesOf(s.lines) + s.todo == s.given
    && s.win.w.next - 1 == |s.lines| + (if Holds(s) then 1 else 0)
    && (Holds(s) ==> s.win.callers[WORKER].sq == s.win.w.next - 1)
  }

  /** The worker has given up, and nothing will be written any more. */
  predicate Over(s: Emission) {
    && s.win.cancelled && BatchesOf(s.lines) <= s.given && |s.lines| <= s.win.w.next - 1
    && (WORKER in s.win.callers ==> s.win.callers[WORKER].AtTop? || s.win.callers[WORKER].Cancelled?)
  }

  predicate Numbered(lines: seq<Line>) { forall i :: 0 <= i < |lines| ==> lines[i].sq == i + 1 }

  ghost predicate Behind(s: Emission) { exists c :: Refines(s.win.w, c) && c.base <= s.acked + 1 }

  ghost predicate Orderly(s: Emission) {
    && s.win.callers.Keys <= {WORKER} && s.acked >= 0
    && (WORKER in s.win.callers && s.win.callers[WORKER].Cancelled? ==> s.win.cancelled)
    && Numbered(s.lines) && (Intact(s) || Over(s)) && Behind(s)
  }

  lemma WindowKeepsBehind(s: Emission, a: Action)
    requires Behind(s) && Enabled(s.win, a)
    ensures Behind(s.(win := Apply(s.win, a), acked := Acknowledged(s, a)))
  {
    var c :| Refines(s.win.w, c) && c.base <= s.acked + 1;
    var s' := s.(win := Apply(s.win, a), acked := Acknowledged(s, a));
    match a
    case Locked(id) =>
      TakeRefines(s.win.w, c);
      if s.win.w.HasRoom() {
        assert Refines(s'.win.w, c.(next := c.next + 1));
      }
    case ClientAck(sq) =>
      AckRefines(s.win.w, c, sq);
      assert Refines(s'.win.w, CounterAck(c, sq));
    case LogoutReset =>
      assert Interval(c.next, c.next) == {};
      assert Refines(s'.win.w, c.(base := c.next));
    case _ =>
      assert Refines(s'.win.w, c);
  }

  lemma WindowKeepsOrder(s: Emission, a: Action)
    requires Orderly(s) && Allowed(s, InWindow(a))
    ensures Orderly(Do(s, InWindow(a)))
  {
    WindowKeepsBehind(s, a);
  }

  lemma BatchesSnoc(lines: seq<Line>, line: Line)
    ensures BatchesOf(lines + [line]) == BatchesOf(lines) + [line.batch]
  {
  }

  lemma WriteKeepsOrder(s: Emission)
    requires Orderly(s) && Allowed(s, Write)
    ensures Orderly(Do(s, Write))
  {
    var line := Line(s.win.callers[WORKER].sq, s.todo[0]);
    BatchesSnoc(s.lines, line);
    assert BatchesOf(s.lines) + s.todo == BatchesOf(s.lines) + [s.todo[0]] + s.todo[1..];
    var c :| Refines(s.win.w, c) && c.base <= s.acked + 1;
    assert Refines(Do(s, Write).win.w, c);
  }

  lemma GiveUpKeepsOrder(s: Emission)
    requires Orderly(s) && Allowed(s, GiveUp)
    ensures Orderly(Do(s, GiveUp))
  {
    var c :| Refines(s.win.w, c) && c.base <= s.acked + 1;
    assert Refines(Do(s, GiveUp).win.w, c);
  }

  lemma GiveKeepsOrder(s: Emission, batches: seq<Batch>)
    requires Orderly(s) && Allowed(s, Give(batches))
    ensures Orderly(Do(s, Give(batches)))
  {
    assert BatchesOf(s.lines) + [] == BatchesOf(s.lines);
    var c :| Refines(s.win.w, c) && c.base <= s.acked + 1;
    assert Refines(Do(s, Give(batches)).win.w, c);
  }

  lemma MoveKeepsOrder(s: Emission, m: Move)
    requires Orderly(s) && Allowed(s, m)
    ensures Orderly(Do(s, m)) && Do(s, m).win.w.size == s.win.w.size
  {
    match m
    case Give(batches) => GiveKeepsOrder(s, batches);
    case InWindow(a) => WindowKeepsOrder(s, a);
    case Write => WriteKeepsOrder(s);
    case GiveUp => GiveUpKeepsOrder(s);
  }

  lemma {:induction false} EveryEmission(size: int, states: seq<Emission>, moves: seq<Move>, i: nat)
    requires IsEmission(size, states, moves) && i < |states|
    ensures Orderly(states[i]) && states[i].win.w.size == size
  {
    if i == 0 {
      InitialRefines(size);
      assert Refines(states[0].win.w, Counters(1, 1));
    } else {
      EveryEmission(size, states, moves, i - 1);
      assert Allowed(states[i - 1], moves[i - 1]);
      MoveKeepsOrder(states[i - 1], moves[i - 1]);
    }
  }

  /**
   Section 7 of the protocol, rules 1 to 3, in every run: the batch lines are
   numbered 1, 2, 3 and so on; they carry the batches of the conversations in
   order, none left out as long as the session is not cancelled; and they are
   never more than `size` ahead of the highest acknowledged number.
   */
  lemma LinesKeepTheRules(size: int, states: seq<Emission>, moves: seq<Move>, i: nat)
    requires IsEmission(size, states, moves) && i < |states|
    ensures Numbered(states[i].lines)
    ensures BatchesOf(states[i].lines) <= states[i].given
    ensures !states[i].win.cancelled ==> BatchesOf(states[i].lines) + states[i].todo == states[i].given
    ensures |states[i].lines| <= states[i].acked + Max(size, 0)
  {
    EveryEmission(size, states, moves, i);
    var s := states[i];
    var c :| Refines(s.win.w, c) && c.base <= s.acked + 1;
  }
}
