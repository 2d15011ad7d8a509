/**
 The acknowledgement window of internal/history/history.go: the object with
 its mutex-guarded fields, and the protocol it forms with any number of
 goroutines blocked in Acquire, an acknowledging client and a cancellable
 context. A channel is known by the number of channels made before it;
 `changed` is the one that is open, every earlier one has been closed.
 */
module HistoryWindow {
  import opened Prelude

  datatype State = State(size: int, next: int, outstanding: set<int>, changed: nat) {
    predicate HasRoom() { |outstanding| < size }
  }

  // ---------- The critical sections, on values ----------

  function Initial(size: int): State { State(size, 1, {}, 0) }

  /** The section of Acquire that runs when there is room. */
  function Take(w: State): State { w.(next := w.next + 1, outstanding := w.outstanding + {w.next}) }

  function Above(s: set<int>, sq: int): set<int> { set x | x in s && x > sq }

  function AfterAck(w: State, sq: int): State {
    var rest := Above(w.outstanding, sq);
    if rest == w.outstanding then w else w.(outstanding := rest, changed := w.changed + 1)
  }

  function AfterReset(w: State): State { w.(outstanding := {}, changed := w.changed + 1) }

  // ---------- The object ----------

  class Window {
    const size: int
    var next: int
    var outstanding: set<int>
    var changed: nat

    function View(): State
      reads this
    {
      State(size, next, outstanding, changed)
    }

    constructor (size: int)
      ensures View() == Initial(size)
    {
      this.size, next, outstanding, changed := size, 1, {}, 0;
    }

    /** One pass through the locked part of Acquire: a sequence number, or the channel to wait on. */
    method TryAcquire() returns (sq: Option<int>, ch: nat)
      modifies this
      ensures old(View()).HasRoom() ==> sq == Some(old(next)) && View() == Take(old(View()))
      ensures !old(View()).HasRoom() ==> sq == None && View() == old(View())
      ensures ch == old(changed)
    {
      ch := changed;
      if |outstanding| < size {
        sq := Some(next);
        outstanding := outstanding + {next};
        next := next + 1;
      } else {
        sq := None;
      }
    }

    method Ack(sq: int) returns (n: nat)
      modifies this
      ensures View() == AfterAck(old(View()), sq)
      ensures n == |old(outstanding)| - |outstanding|
    {
      n := 0;
      var todo := outstanding;
      while todo != {}
        invariant todo <= outstanding <= old(outstanding)
        invariant outstanding == Above(old(outstanding), sq) + todo
        invariant n + |outstanding| == |old(outstanding)|
        invariant changed == old(changed) && next == old(next)
        decreases |todo|
      {
        var s :| s in todo;
        todo := todo - {s};
        if s <= sq {
          outstanding := outstanding - {s};
          n := n + 1;
        }
      }
      if n > 0 {
        changed := changed + 1;
      } else {
        SubsetSizes(outstanding, old(outstanding));
      }
    }

    method Reset()
      modifies this
      ensures View() == AfterReset(old(View()))
    {
      outstanding := {};
      changed := changed + 1;
    }
  }

  lemma SubsetSizes(a: set<int>, b: set<int>)
    requires a <= b
    ensures |a| <= |b| && (|a| == |b| <==> a == b)
  {
    assert b == a + (b - a);
  }

  // ---------- Two counters are enough ----------

  /** Everything below `base` has been acknowledged, everything from `base` to `next` is in flight. */
  datatype Counters = Counters(base: int, next: int)

  function Interval(lo: int, hi: int): set<int>
    decreases hi - lo
  {
    if lo >= hi then {} else Interval(lo, hi - 1) + {hi - 1}
  }

  lemma {:induction false} IntervalMembers(lo: int, hi: int)
    ensures forall x :: x in Interval(lo, hi) <==> lo <= x < hi
    decreases hi - lo
  {
    if lo < hi {
      IntervalMembers(lo, hi - 1);
    }
  }

  lemma {:induction false} IntervalSize(lo: int, hi: int)
    requires lo <= hi
    ensures |Interval(lo, hi)| == hi - lo
    decreases hi - lo
  {
    if lo < hi {
      IntervalSize(lo, hi - 1);
      IntervalMembers(lo, hi - 1);
    }
  }

  ghost predicate Refines(w: State, c: Counters) {
    1 <= c.base <= c.next == w.next && w.outstanding == Interval(c.base, c.next) && c.next - c.base <= Max(w.size, 0)
  }

  /** A cumulative, repeated, stale or future acknowledgement moves `base` forward, within what was sent. */
  function CounterAck(c: Counters, sq: int): Counters { c.(base := Max(c.base, Min(sq + 1, c.next))) }

  lemma InitialRefines(size: int)
    ensures Refines(Initial(size), Counters(1, 1))
  {}

  lemma TakeRefines(w: State, c: Counters)
    requires Refines(w, c)
    ensures w.HasRoom() <==> c.next - c.base < w.size
    ensures w.HasRoom() ==> Refines(Take(w), c.(next := c.next + 1))
  {
    IntervalSize(c.base, c.next);
    assert Interval(c.base, c.next + 1) == Interval(c.base, c.next) + {c.next};
  }

  lemma AckRefines(w: State, c: Counters, sq: int)
    requires Refines(w, c)
    ensures Refines(AfterAck(w, sq), CounterAck(c, sq))
    ensures |w.outstanding| - |AfterAck(w, sq).outstanding| == CounterAck(c, sq).base - c.base
  {
    var c' := CounterAck(c, sq);
    IntervalSize(c.base, c.next);
    IntervalSize(c'.base, c'.next);
    IntervalMembers(c.base, c.next);
    IntervalMembers(c'.base, c'.next);
    assert Above(w.outstanding, sq) == Interval(c'.base, c'.next);
  }

  // ---------- The protocol ----------

  /** Where a goroutine is inside Acquire. */
  datatype Caller =
    | AtTop
    | AtLock
    | Blocked(ch: nat)
    | Got(sq: int)
    | Cancelled

  datatype System = System(w: State, cancelled: bool, callers: map<nat, Caller>, granted: seq<int>)

  datatype Action =
    | Call(id: nat)
    | CheckContext(id: nat)
    | Locked(id: nat)
    | Wake(id: nat)
    | WakeCancelled(id: nat)
    | ClientAck(sq: int)
    | LogoutReset
    | Cancel

  predicate At(s: System, id: nat, c: Caller) { id in s.callers && s.callers[id] == c }

  predicate Enabled(s: System, a: Action) {
    match a
    case Call(id) => id !in s.callers
    case CheckContext(id) => At(s, id, AtTop)
    case Locked(id) => At(s, id, AtLock)
    // A receive from a closed channel succeeds; one from an open channel blocks.
    case Wake(id) => id in s.callers && s.callers[id].Blocked? && s.callers[id].ch < s.w.changed
    case WakeCancelled(id) => id in s.callers && s.callers[id].Blocked? && s.cancelled
    case ClientAck(_) => true
    case LogoutReset => true
    case Cancel => true
  }

  function Move(s: System, id: nat, c: Caller): System { s.(callers := s.callers[id := c]) }

  function Apply(s: System, a: Action): System {
    match a
    case Call(id) => Move(s, id, AtTop)
    case CheckContext(id) => Move(s, id, if s.cancelled then Cancelled else AtLock)
    case Locked(id) =>
      if s.w.HasRoom() then Move(s, id, Got(s.w.next)).(w := Take(s.w), granted := s.granted + [s.w.next])
      else Move(s, id, Blocked(s.w.changed))
    case Wake(id) => Move(s, id, AtTop)
    case WakeCancelled(id) => Move(s, id, Cancelled)
    case ClientAck(sq) => s.(w := AfterAck(s.w, sq))
    case LogoutReset => s.(w := AfterReset(s.w))
    case Cancel => s.(cancelled := true)
  }

  ghost predicate IsRun(size: int, states: seq<System>, actions: seq<Action>) {
    && |states| == |actions| + 1
    && states[0] == System(Initial(size), false, map[], [])
    && forall i :: 0 <= i < |actions| ==> Enabled(states[i], actions[i]) && states[i + 1] == Apply(states[i], actions[i])
  }

  /** The window lies inside the numbers handed out, which are 1, 2, 3, ... without gaps. */
  ghost predicate Safe(s: System) {
    && (exists c :: Refines(s.w, c))
    && |s.granted| == s.w.next - 1
    && (forall i :: 0 <= i < |s.granted| ==> s.granted[i] == i + 1)
  }

  /** Nobody sleeps on an open channel while there is room. */
  ghost predicate NoLostWakeUp(s: System) {
    forall id :: id in s.callers && s.callers[id].Blocked? ==>
      s.callers[id].ch <= s.w.changed && (s.callers[id].ch == s.w.changed ==> !s.w.HasRoom())
  }

  lemma StepKeepsSafe(s: System, a: Action)
    requires Safe(s) && Enabled(s, a)
    ensures Safe(Apply(s, a))
  {
    var c :| Refines(s.w, c);
    var s' := Apply(s, a);
    match a
    case Locked(id) =>
      TakeRefines(s.w, c);
      if s.w.HasRoom() {
        assert Refines(s'.w, c.(next := c.next + 1));
      } else {
        assert Refines(s'.w, c);
      }
    case ClientAck(sq) =>
      AckRefines(s.w, c, sq);
      assert Refines(s'.w, CounterAck(c, sq));
    case LogoutReset =>
      assert Interval(c.next, c.next) == {};
      assert Refines(s'.w, c.(base := c.next));
    case _ =>
      assert Refines(s'.w, c);
  }

  lemma StepKeepsWakeUps(s: System, a: Action)
    requires NoLostWakeUp(s) && Enabled(s, a)
    ensures NoLostWakeUp(Apply(s, a))
  {
    if a.Locked? && s.w.HasRoom() {
      assert s.w.next in Take(s.w).outstanding;
      assert |Take(s.w).outstanding| >= |s.w.outstanding| by {
        SubsetSizes(s.w.outstanding, Take(s.w).outstanding);
      }
    }
  }

  /** Both hold in every state of every run, whatever the callers, the client and the context do. */
  lemma {:induction false} EveryRun(size: int, states: seq<System>, actions: seq<Action>, i: nat)
    requires IsRun(size, states, actions) && i < |states|
    ensures Safe(states[i]) && NoLostWakeUp(states[i]) && states[i].w.size == size
  {
    if i == 0 {
      InitialRefines(size);
    } else {
      EveryRun(size, states, actions, i - 1);
      assert Enabled(states[i - 1], actions[i - 1]);
      StepKeepsSafe(states[i - 1], actions[i - 1]);
      StepKeepsWakeUps(states[i - 1], actions[i - 1]);
    }
  }

  /** An acknowledgement that frees a place wakes every goroutine that is blocked. */
  lemma FreeingAckWakesAll(s: System, sq: int, id: nat)
    requires NoLostWakeUp(s) && id in s.callers && s.callers[id].Blocked?
    requires AfterAck(s.w, sq).outstanding != s.w.outstanding
    ensures Enabled(Apply(s, ClientAck(sq)), Wake(id))
  {}

  /** At most `size` batches are in flight, and they are the latest ones. */
  lemma InFlight(size: int, states: seq<System>, actions: seq<Action>, i: nat)
    requires IsRun(size, states, actions) && i < |states|
    ensures var w := states[i].w;
      && |w.outstanding| <= Max(size, 0)
      && w.outstanding == Interval(w.next - |w.outstanding|, w.next)
      && (forall x :: x in w.outstanding ==> x in states[i].granted)
  {
    EveryRun(size, states, actions, i);
    var s := states[i];
    var c :| Refines(s.w, c);
    IntervalSize(c.base, c.next);
    IntervalMembers(c.base, c.next);
    forall x | x in s.w.outstanding ensures x in s.granted {
      assert s.granted[x - 1] == x;
    }
  }
}
