/**
 The notification queue of internal/wa/historysync.go: event handlers append
 and signal a one-slot channel, one worker pops and waits. Appending and
 signalling are two steps, and so are finding the queue empty and waiting.
 */
module HistoryQueue {
  import opened Prelude

  /** usable: something is emitted for it, because it can be downloaded and its kind is known. */
  datatype Notification = Notification(id: nat, usable: bool)

  /** The session fields of the queue; signal is the one-slot channel hsig. */
  datatype Queue = Queue(hq: seq<Notification>, signal: bool, seen: bool, done: bool)

  function Append(q: Queue, n: Notification): Queue { q.(hq := q.hq + [n], seen := true) }

  // ---------- The object ----------

  class Session {
    var hq: seq<Notification>
    var hsig: bool
    var hseen: bool
    var hdone: bool

    function View(): Queue
      reads this
    {
      Queue(hq, hsig, hseen, hdone)
    }

    constructor ()
      ensures View() == Queue([], false, false, false)
    {
      hq, hsig, hseen, hdone := [], false, false, false;
    }

    method Enqueue(n: Notification)
      modifies this
      ensures View() == Append(old(View()), n).(signal := true)
      ensures hq == old(hq) + [n] && hsig && hseen && hdone == old(hdone)
    {
      hq := hq + [n];
      hseen := true;
      if !hsig {
        hsig := true;
      }
    }

    method Pop() returns (n: Option<Notification>)
      modifies this
      ensures old(hq) == [] ==> n == None && View() == old(View())
      ensures old(hq) != [] ==> n.Some? && [n.value] + hq == old(hq) && View() == old(View()).(hq := hq)
    {
      if |hq| == 0 {
        return None;
      }
      n := Some(hq[0]);
      hq := hq[1..];
    }

    /** True when this call announces the end of the history. */
    method HistoryDone(cancelled: bool) returns (announced: bool)
      modifies this
      ensures announced == (!cancelled && !old(hdone))
      ensures View() == if cancelled then old(View()) else old(View()).(done := true)
      ensures hdone == (old(hdone) || !cancelled) && hq == old(hq)
    {
      if cancelled {
        return false;
      }
      var already := hdone;
      hdone := true;
      announced := !already;
    }
  }

  // ---------- The protocol ----------

  datatype Worker =
    | AtTop
    | AtPop
    | Processing(n: Notification)
    /** It has processed one that reported progress 100, and asks whether more are queued. */
    | AtLook
    /** In historyDone, before and after the check of the context. */
    | ToAnnounce
    | Announcing
    /** The queue was empty when it looked. */
    | FoundEmpty
    | Waiting(idleTimer: bool)
    | Stopped

  datatype Event = Batches(n: Notification) | Done

  /** signalling: the handlers that have appended and not signalled yet. handled: what the worker is through with. */
  datatype System = System(q: Queue, worker: Worker, signalling: set<nat>, cancelled: bool, events: seq<Event>,
                           enqueued: seq<Notification>, handled: seq<Notification>)

  datatype Action =
    | AppendBy(id: nat, n: Notification)
    | SignalBy(id: nat)
    | Cancel
    | CheckContext
    | TryPop
    /** finished: the notification reported progress 100. */
    | Process(emits: bool, finished: bool)
    | LookAtQueue
    | CheckCancelled
    | Announce
    | ArmTimer
    | TakeSignal
    | IdleTimeout
    | SeeCancelled

  const START := System(Queue([], false, false, false), AtTop, {}, false, [], [], [])

  predicate Enabled(s: System, a: Action) {
    match a
    case AppendBy(id, _) => id !in s.signalling
    case SignalBy(id) => id in s.signalling
    case Cancel => true
    case CheckContext => s.worker == AtTop
    case TryPop => s.worker == AtPop
    // Once the context is cancelled, a download fails.
    case Process(emits, finished) =>
      && s.worker.Processing?
      && (emits ==> s.worker.n.usable) && (s.worker.n.usable && !s.cancelled ==> emits)
      && (finished ==> emits && !s.cancelled)
    case LookAtQueue => s.worker == AtLook
    case CheckCancelled => s.worker == ToAnnounce
    case Announce => s.worker == Announcing
    case ArmTimer => s.worker == FoundEmpty
    case TakeSignal => s.worker.Waiting? && s.q.signal
    case IdleTimeout => s.worker.Waiting? && s.worker.idleTimer
    case SeeCancelled => s.worker.Waiting? && s.cancelled
  }

  function Apply(s: System, a: Action): System
    requires Enabled(s, a)
  {
    match a
    case AppendBy(id, n) => s.(q := Append(s.q, n), signalling := s.signalling + {id}, enqueued := s.enqueued + [n])
    case SignalBy(id) => s.(q := s.q.(signal := true), signalling := s.signalling - {id})
    case Cancel => s.(cancelled := true)
    case CheckContext => s.(worker := if s.cancelled then Stopped else AtPop)
    case TryPop =>
      if s.q.hq == [] then s.(worker := FoundEmpty)
      else s.(worker := Processing(s.q.hq[0]), q := s.q.(hq := s.q.hq[1..]))
    case Process(emits, finished) =>
      s.(worker := if finished then AtLook else AtTop, handled := s.handled + [s.worker.n],
         events := s.events + if emits then [Batches(s.worker.n)] else [])
    case LookAtQueue => s.(worker := if s.q.hq == [] then ToAnnounce else AtTop)
    case CheckCancelled => s.(worker := if s.cancelled then AtTop else Announcing)
    case Announce =>
      s.(worker := AtTop, q := s.q.(done := true), events := s.events + if s.q.done then [] else [Done])
    case ArmTimer => s.(worker := Waiting(s.q.seen && !s.q.done))
    case TakeSignal => s.(worker := AtTop, q := s.q.(signal := false))
    case IdleTimeout => s.(worker := ToAnnounce)
    case SeeCancelled => s.(worker := Stopped)
  }

  ghost predicate IsRun(states: seq<System>, actions: seq<Action>) {
    && |states| == |actions| + 1 && states[0] == START
    && forall i :: 0 <= i < |actions| ==> Enabled(states[i], actions[i]) && states[i + 1] == Apply(states[i], actions[i])
  }

  /** What is emitted for these notifications. */
  function BatchesFor(ns: seq<Notification>): seq<Event> {
    if ns == [] then []
    else BatchesFor(ns[..|ns| - 1]) + if ns[|ns| - 1].usable then [Batches(ns[|ns| - 1])] else []
  }

  /** The events without the announcements of the end. */
  function WithoutDone(es: seq<Event>): seq<Event> {
    if es == [] then [] else WithoutDone(es[..|es| - 1]) + if es[|es| - 1].Done? then [] else [es[|es| - 1]]
  }

  function Dones(es: seq<Event>): nat {
    if es == [] then 0 else Dones(es[..|es| - 1]) + if es[|es| - 1].Done? then 1 else 0
  }

  function InHand(w: Worker): seq<Notification> { if w.Processing? then [w.n] else [] }

  /** Something was emitted for each handled usable notification, in order. */
  predicate AllEmitted(s: System) { WithoutDone(s.events) == BatchesFor(s.handled) }

  /** For each but the last one, which was interrupted; the worker takes no other. */
  predicate LastInterrupted(s: System) {
    && s.cancelled && (s.worker.AtTop? || s.worker.Stopped?) && s.handled != []
    && WithoutDone(s.events) == BatchesFor(s.handled[..|s.handled| - 1])
  }

  ghost predicate Invariant(s: System) {
    // Nothing is lost, repeated or reordered.
    && s.enqueued == s.handled + InHand(s.worker) + s.q.hq
    && (AllEmitted(s) || LastInterrupted(s))
    // The end is announced at most once.
    && Dones(s.events) == (if s.q.done then 1 else 0)
    // A worker that waits, or is about to, has been or will be signalled.
    && ((s.worker.FoundEmpty? || s.worker.Waiting?) && s.q.hq != [] ==> s.q.signal || s.signalling != {})
  }

  lemma EventsSnoc(es: seq<Event>, e: Event)
    ensures WithoutDone(es + [e]) == WithoutDone(es) + if e.Done? then [] else [e]
    ensures Dones(es + [e]) == Dones(es) + if e.Done? then 1 else 0
  {
    assert (es + [e])[..|es|] == es;
  }

  lemma BatchesSnoc(ns: seq<Notification>, n: Notification)
    ensures BatchesFor(ns + [n]) == BatchesFor(ns) + if n.usable then [Batches(n)] else []
  {
    assert (ns + [n])[..|ns|] == ns;
  }

  lemma AppendKeeps(s: System, id: nat, n: Notification)
    requires Invariant(s) && id !in s.signalling
    ensures Invariant(Apply(s, AppendBy(id, n)))
  {
    assert id in s.signalling + {id};
  }

  lemma FirstMoves(p: seq<Notification>, hq: seq<Notification>)
    requires hq != []
    ensures p + [] + hq == p + [hq[0]] + hq[1..]
  {
  }

  lemma PopKeeps(s: System)
    requires Invariant(s) && s.worker == AtPop
    ensures Invariant(Apply(s, TryPop))
  {
    if s.q.hq != [] {
      FirstMoves(s.handled, s.q.hq);
    }
  }

  lemma ConcatNothing<T>(p: seq<T>)
    ensures p + [] == p
  {
  }

  lemma ProcessKeeps(s: System, emits: bool, finished: bool)
    requires Invariant(s) && Enabled(s, Process(emits, finished))
    ensures Invariant(Apply(s, Process(emits, finished)))
  {
    var n := s.worker.n;
    BatchesSnoc(s.handled, n);
    ConcatNothing(s.events);
    ConcatNothing(s.handled + [n]);
    ConcatNothing(BatchesFor(s.handled));
    if emits {
      EventsSnoc(s.events, Batches(n));
    } else {
      assert (s.handled + [n])[..|s.handled|] == s.handled;
    }
  }

  lemma AnnounceKeeps(s: System)
    requires Invariant(s) && s.worker == Announcing
    ensures Invariant(Apply(s, Announce))
  {
    EventsSnoc(s.events, Done);
    ConcatNothing(s.events);
    ConcatNothing(WithoutDone(s.events));
  }

  lemma StepKeeps(s: System, a: Action)
    requires Invariant(s) && Enabled(s, a)
    ensures Invariant(Apply(s, a))
  {
    match a
    case AppendBy(id, n) => AppendKeeps(s, id, n);
    case TryPop => PopKeeps(s);
    case Process(emits, finished) => ProcessKeeps(s, emits, finished);
    case Announce => AnnounceKeeps(s);
    case _ =>
  }

  lemma {:induction false} EveryRun(states: seq<System>, actions: seq<Action>, i: nat)
    requires IsRun(states, actions) && i < |states|
    ensures Invariant(states[i])
  {
    if i > 0 {
      EveryRun(states, actions, i - 1);
      assert Enabled(states[i - 1], actions[i - 1]);
      StepKeeps(states[i - 1], actions[i - 1]);
    }
  }

  /** A waiting worker with something in the queue can go on now, or after a step that is already on its way. */
  lemma NoLostSignal(states: seq<System>, actions: seq<Action>, i: nat)
    requires IsRun(states, actions) && i < |states|
    requires states[i].worker.Waiting? && states[i].q.hq != []
    ensures Enabled(states[i], TakeSignal) || exists id :: Enabled(states[i], SignalBy(id)) && Enabled(Apply(states[i], SignalBy(id)), TakeSignal)
  {
    EveryRun(states, actions, i);
    var s := states[i];
    if !s.q.signal {
      var id :| id in s.signalling;
      assert Enabled(s, SignalBy(id)) && Enabled(Apply(s, SignalBy(id)), TakeSignal);
    }
  }

  // ---------- That the end comes ----------

  /** What the worker knows of notifications when it waits. */
  ghost predicate TimerOk(s: System) {
    && (s.q.seen <==> s.enqueued != [])
    && (s.q.done ==> s.handled != [] || s.enqueued != [])
    && (s.worker.Waiting? && !s.worker.idleTimer && !s.q.done ==> s.handled == [])
    && (s.worker.Waiting? && s.worker.idleTimer ==> s.enqueued != [])
    && (s.worker.AtLook? || s.worker.ToAnnounce? || s.worker.Announcing? ==> s.enqueued != [])
    && (s.worker.FoundEmpty? && s.handled != [] ==> s.enqueued != [])
  }

  lemma StepKeepsTimer(s: System, a: Action)
    requires TimerOk(s) && Invariant(s) && Enabled(s, a)
    ensures TimerOk(Apply(s, a))
  {
  }

  lemma {:induction false} TimerOverEveryRun(states: seq<System>, actions: seq<Action>, i: nat)
    requires IsRun(states, actions) && i < |states|
    ensures TimerOk(states[i])
  {
    if i > 0 {
      TimerOverEveryRun(states, actions, i - 1);
      EveryRun(states, actions, i - 1);
      assert Enabled(states[i - 1], actions[i - 1]);
      StepKeepsTimer(states[i - 1], actions[i - 1]);
    }
  }

  predicate FinishesByIdling(s: System) {
    Enabled(s, IdleTimeout) &&
    var s1 := Apply(s, IdleTimeout);
    Enabled(s1, CheckCancelled) &&
    var s2 := Apply(s1, CheckCancelled);
    Enabled(s2, Announce) && Apply(s2, Announce).events == s.events + [Done]
  }

  /**
   Over every run: a worker that waits after it has handled a notification can
   announce the end by the idle timer, if it has not been announced yet and the
   session is not cancelled; and the end is never announced before a
   notification has come.
   */
  lemma IdleWorkerCanFinish(states: seq<System>, actions: seq<Action>, i: nat)
    requires IsRun(states, actions) && i < |states|
    ensures states[i].q.done ==> states[i].enqueued != []
    ensures states[i].worker.Waiting? && states[i].handled != [] && !states[i].q.done && !states[i].cancelled ==> FinishesByIdling(states[i])
  {
    TimerOverEveryRun(states, actions, i);
    EveryRun(states, actions, i);
  }

  // ---------- When the end is the end ----------

  /** From s, where the end has been announced, to t, `since` has been handled and nothing but its batches emitted. */
  ghost predicate Goes(s: System, t: System, since: seq<Notification>) {
    && t.q.done
    && t.handled == s.handled + since
    && t.events == s.events + BatchesFor(since)
    && |s.enqueued| <= |t.enqueued| && t.enqueued[..|s.enqueued|] == s.enqueued
  }

  lemma GoesOn(s: System, t: System, since: seq<Notification>, a: Action) returns (since': seq<Notification>)
    requires Goes(s, t, since) && Enabled(t, a) && !Apply(t, a).cancelled
    ensures Goes(s, Apply(t, a), since')
  {
    ConcatNothing(t.events);
    if a.Process? {
      since' := since + [t.worker.n];
      BatchesSnoc(since, t.worker.n);
    } else {
      since' := since;
    }
  }

  lemma CancelledStays(s: System, a: Action)
    requires Enabled(s, a) && s.cancelled
    ensures Apply(s, a).cancelled
  {
  }

  lemma {:induction false} HandledSince(states: seq<System>, actions: seq<Action>, i: nat, j: nat) returns (since: seq<Notification>)
    requires IsRun(states, actions) && i <= j < |states| && states[i].q.done && !states[j].cancelled
    ensures Goes(states[i], states[j], since)
  {
    if i == j {
      since := [];
      ConcatNothing(states[i].handled);
      ConcatNothing(states[i].events);
    } else {
      var t, a := states[j - 1], actions[j - 1];
      assert Enabled(t, a) && states[j] == Apply(t, a);
      if t.cancelled {
        CancelledStays(t, a);
      }
      var before := HandledSince(states, actions, i, j - 1);
      since := GoesOn(states[i], t, before, a);
    }
  }

  /** What was queued in s and what has come since. */
  function Arrived(s: System, t: System): seq<Notification>
    requires |s.enqueued| <= |t.enqueued|
  {
    s.q.hq + t.enqueued[|s.enqueued|..]
  }

  predicate NothingUsable(ns: seq<Notification>) { forall k :: 0 <= k < |ns| ==> !ns[k].usable }

  lemma {:induction false} NoBatchesIff(ns: seq<Notification>)
    ensures BatchesFor(ns) == [] <==> NothingUsable(ns)
    ensures forall k :: 0 <= k < |BatchesFor(ns)| ==> BatchesFor(ns)[k].Batches?
  {
    if ns != [] {
      NoBatchesIff(ns[..|ns| - 1]);
      assert NothingUsable(ns) <==> NothingUsable(ns[..|ns| - 1]) && !ns[|ns| - 1].usable;
    }
  }

  lemma DropPrefix(h: seq<Notification>, u: seq<Notification>, v: seq<Notification>)
    requires h + u == h + v
    ensures u == v
  {
    assert (h + u)[|h|..] == u && (h + v)[|h|..] == v;
  }

  lemma Assoc(a: seq<Notification>, b: seq<Notification>, c: seq<Notification>)
    ensures a + b + c == a + (b + c)
  {
  }

  lemma TailOf(h: seq<Notification>, q: seq<Notification>, all: seq<Notification>)
    requires |h + q| <= |all| && all[..|h + q|] == h + q
    ensures all == h + (q + all[|h + q|..])
  {
    assert all == all[..|h + q|] + all[|h + q|..];
  }

  /** What has been handled since is what arrived, as far as it is not in hand or queued still. */
  lemma SinceIsArrived(s: System, t: System, since: seq<Notification>)
    requires Invariant(s) && Invariant(t) && Goes(s, t, since) && !s.worker.Processing?
    ensures Arrived(s, t) == since + (InHand(t.worker) + t.q.hq)
  {
    ConcatNothing(s.handled);
    TailOf(s.handled, s.q.hq, t.enqueued);
    Assoc(s.handled + since, InHand(t.worker), t.q.hq);
    Assoc(s.handled, since, InHand(t.worker) + t.q.hq);
    DropPrefix(s.handled, Arrived(s, t), since + (InHand(t.worker) + t.q.hq));
  }

  predicate EndsWithDone(es: seq<Event>) { es != [] && es[|es| - 1].Done? }

  lemma DoneIsAnnounced(s: System, a: Action)
    requires Enabled(s, a) && !s.q.done && Apply(s, a).q.done
    ensures EndsWithDone(Apply(s, a).events) && Apply(s, a).worker == AtTop
  {
  }

  lemma LastOf(es: seq<Event>, since: seq<Notification>)
    requires EndsWithDone(es)
    ensures EndsWithDone(es + BatchesFor(since)) <==> NothingUsable(since)
  {
    NoBatchesIff(since);
    ConcatNothing(es);
  }

  /**
   Over every run whose session is not cancelled: once the step after state i
   has announced the end, and the worker has nothing queued and nothing in hand,
   the end is the last event exactly if nothing is emitted for any notification
   that was queued at the announcement or has come since.
   */
  lemma DoneIsLastIff(states: seq<System>, actions: seq<Action>, i: nat, j: nat)
    requires IsRun(states, actions) && i < j < |states| && !states[i].q.done && states[i + 1].q.done
    requires !states[j].cancelled && states[j].q.hq == [] && !states[j].worker.Processing?
    ensures |states[i + 1].enqueued| <= |states[j].enqueued|
    ensures EndsWithDone(states[j].events) <==> NothingUsable(Arrived(states[i + 1], states[j]))
  {
    assert Enabled(states[i], actions[i]);
    DoneIsAnnounced(states[i], actions[i]);
    var since := HandledSince(states, actions, i + 1, j);
    EveryRun(states, actions, i + 1);
    EveryRun(states, actions, j);
    SinceIsArrived(states[i + 1], states[j], since);
    ConcatNothing(since);
    LastOf(states[i + 1].events, since);
  }

  // ---------- A run in which the end is not the end ----------

  ghost predicate Reaches(s: System) {
    exists states: seq<System>, actions: seq<Action> :: IsRun(states, actions) && states[|actions|] == s
  }

  lemma ReachStart()
    ensures Reaches(START)
  {
    assert IsRun([START], []);
  }

  lemma Reach(s: System, a: Action, t: System)
    requires Reaches(s) && Enabled(s, a) && Apply(s, a) == t
    ensures Reaches(t)
  {
    var states: seq<System>, actions: seq<Action> :| IsRun(states, actions) && states[|actions|] == s;
    var states', actions' := states + [t], actions + [a];
    forall i | 0 <= i < |actions'| ensures Enabled(states'[i], actions'[i]) && states'[i + 1] == Apply(states'[i], actions'[i]) {
      assert i < |actions| ==> Enabled(states[i], actions[i]);
    }
    assert IsRun(states', actions') && states'[|actions'|] == t;
  }

  /** The worker takes and processes the only queued notification, which reports progress 100 if `last`. */
  lemma Takes(s: System, n: Notification, last: bool)
    requires Reaches(s) && s.worker == AtTop && s.q.hq == [n] && n.usable && !s.cancelled
    ensures Reaches(s.(worker := if last then AtLook else AtTop, q := s.q.(hq := []),
                       handled := s.handled + [n], events := s.events + [Batches(n)]))
  {
    var s1 := s.(worker := AtPop);
    var s2 := s.(worker := Processing(n), q := s.q.(hq := []));
    Reach(s, CheckContext, s1);
    Reach(s1, TryPop, s2);
    Reach(s2, Process(true, last), s.(worker := if last then AtLook else AtTop, q := s.q.(hq := []),
                                      handled := s.handled + [n], events := s.events + [Batches(n)]));
  }

  lemma Appends(s: System, id: nat, n: Notification)
    requires Reaches(s) && id !in s.signalling
    ensures Reaches(s.(q := Append(s.q, n), signalling := s.signalling + {id}, enqueued := s.enqueued + [n]))
  {
    Reach(s, AppendBy(id, n), s.(q := Append(s.q, n), signalling := s.signalling + {id}, enqueued := s.enqueued + [n]));
  }

  /** The first notification is the last one by its progress; the second comes after the worker has found the queue empty. */
  lemma LateNotification(a: Notification, b: Notification) returns (s: System)
    requires a.usable
    ensures Reaches(s) && s.worker == ToAnnounce && s.q.hq == [b] && s.events == [Batches(a)] && !s.cancelled && !s.q.done
  {
    ReachStart();
    Appends(START, 0, a);
    var s1 := START.(q := Append(START.q, a), signalling := {0}, enqueued := [a]);
    assert START.signalling + {0} == {0} && START.enqueued + [a] == [a] && START.q.hq + [a] == [a];
    Takes(s1, a, true);
    var s2 := s1.(worker := AtLook, q := s1.q.(hq := []), handled := s1.handled + [a], events := s1.events + [Batches(a)]);
    var s3 := s2.(worker := ToAnnounce);
    Reach(s2, LookAtQueue, s3);
    Appends(s3, 1, b);
    s := s3.(q := Append(s3.q, b), signalling := s3.signalling + {1}, enqueued := s3.enqueued + [b]);
  }

  lemma Announces(s: System)
    requires Reaches(s) && s.worker == ToAnnounce && !s.cancelled && !s.q.done
    ensures Reaches(s.(worker := AtTop, q := s.q.(done := true), events := s.events + [Done]))
  {
    Reach(s, CheckCancelled, s.(worker := Announcing));
    Reach(s.(worker := Announcing), Announce, s.(worker := AtTop, q := s.q.(done := true), events := s.events + [Done]));
  }

  /**
   PROTOCOL.md section 7 says that the end follows the last batch. It does not
   have to: more history can arrive, even between the look at the queue and the
   announcement.
   */
  lemma BatchesCanFollowDone(a: Notification, b: Notification)
    requires a.usable && b.usable
    ensures exists s: System :: Reaches(s) && s.events == [Batches(a), Done, Batches(b)]
  {
    var s := LateNotification(a, b);
    Announces(s);
    var t := s.(worker := AtTop, q := s.q.(done := true), events := s.events + [Done]);
    Takes(t, b, false);
    var u := t.(q := t.q.(hq := []), handled := t.handled + [b], events := t.events + [Batches(b)]);
    assert u.events == [Batches(a), Done, Batches(b)];
    assert Reaches(u);
  }
}
