/**
 The rate bound of the send path. It needs the slot (one owner between the
 check and the hand-over), the pruned list, the outbox table (across restarts)
 and a clock that does not go back, all together.
 */
module SendRate {
  import opened Prelude
  import opened Backstop
  import opened Outbox
  import opened SendPath

  function Ats(log: seq<HandOver>): (r: seq<int>)
    ensures |r| == |log|
  {
    seq(|log|, i requires 0 <= i < |log| => log[i].at)
  }

  predicate CmdRate(s: State, k: Cmd) {
    && (k.pc.AtReserve? ==> k.pc.now <= s.clock && AllowedAt(Ats(s.log), k.pc.now))
    && (k.pc.Reserved? ==> k.pc.now <= s.clock && AllowedAt(Ats(s.log), k.pc.now))
  }

  /** The list in memory is what matters of the log, and the log keeps to the rate. */
  ghost predicate ListOk(log: seq<HandOver>, sends: seq<int>, clock: int) {
    Spaced(Ats(log)) && AtMost(Ats(log), clock) && RestOfLog(Ats(log), sends, clock)
  }

  ghost predicate RateOk(s: State) {
    && ListOk(s.log, s.sends, s.clock)
    && forall c :: 0 <= c < |s.cmds| ==> CmdRate(s, s.cmds[c])
  }

  // ---------- The steps ----------

  lemma QuietKeepsRate(s: State, s': State)
    requires RateOk(s)
    requires s'.log == s.log && s'.clock == s.clock && s'.sends == s.sends
    requires forall d :: 0 <= d < |s'.cmds| ==> Settled(s, s', d)
    ensures RateOk(s')
  {
    forall d | 0 <= d < |s'.cmds| ensures CmdRate(s', s'.cmds[d]) {
      assert Settled(s, s', d);
    }
  }

  lemma OwnStepKeepsRate(s: State, s': State, c: nat, k: Cmd)
    requires Alone(s, c) && s'.cmds == s.cmds[c := k] && CmdRate(s', k)
    requires ListOk(s'.log, s'.sends, s'.clock)
    ensures RateOk(s')
  {
    forall d | 0 <= d < |s'.cmds| ensures CmdRate(s', s'.cmds[d]) {
      if d != c {
        assert Between(s.cmds[d]) == false;
      }
    }
  }

  lemma SpacedAscending(log: seq<int>)
    requires Spaced(log)
    ensures Ascending(log)
  {
    forall i, j | 0 <= i < j < |log| ensures log[i] <= log[j] {
      SpacedIsAscending(log, i, j);
    }
  }

  /** What the backstop decides from its list is what the whole log would decide. */
  lemma BackstopDecides(s: State, now: int)
    requires ListOk(s.log, s.sends, s.clock) && s.clock <= now
    ensures Allows(s.sends, now) <==> AllowedAt(Ats(s.log), now)
    ensures ListOk(s.log, Kept(s.sends, now), now)
  {
    SpacedAscending(Ats(s.log));
    DecidesAsTheLog(Ats(s.log), s.sends, now);
  }

  lemma BackstopKeepsRate(s: State, c: nat, now: int)
    requires Alone(s, c) && RateOk(s) && At(s, c, AtBackstop) && s.clock <= now
    ensures RateOk(AfterBackstop(s, c, now))
  {
    BackstopDecides(s, now);
    RefuseShape(s.(sends := Kept(s.sends, now), clock := now), c);
    var s' := AfterBackstop(s, c, now);
    OwnStepKeepsRate(s, s', c, s'.cmds[c]);
  }

  lemma ReserveKeepsRate(s: State, c: nat, o: Reservation)
    requires Alone(s, c) && RateOk(s) && Enabled(s, ReserveId(c, o))
    ensures RateOk(AfterReserve(s, c, o))
  {
    var id, now := s.cmds[c].id, s.cmds[c].pc.now;
    assert CmdRate(s, s.cmds[c]);
    RefuseShape(s, c);
    RefuseShape(s.(table := Insert(s.table, id, now), ledger := Insert(s.ledger, id, now)), c);
    var s' := AfterReserve(s, c, o);
    assert s'.log == s.log && s'.sends == s.sends && s'.clock == s.clock;
    OwnStepKeepsRate(s, s', c, s'.cmds[c]);
  }

  lemma RecordKeepsList(log: seq<HandOver>, sends: seq<int>, clock: int, h: HandOver)
    requires ListOk(log, sends, clock) && clock <= h.at && AllowedAt(Ats(log), h.at)
    ensures ListOk(log + [h], sends + [h.at], h.at)
  {
    assert Ats(log + [h]) == Ats(log) + [h.at];
    SpacedAppend(Ats(log), h.at);
    RestAppend(Ats(log), sends, clock, h.at);
  }

  lemma RestAppend(log: seq<int>, s: seq<int>, clock: int, at: int)
    requires RestOfLog(log, s, clock) && clock <= at
    ensures RestOfLog(log + [at], s + [at], at)
  {
    var l, k := log + [at], |log| - |s|;
    assert l[k..] == log[k..] + [at];
    forall i | 0 <= i < |l| - |s + [at]| ensures at - l[i] >= SEND_WINDOW {
      assert l[i] == log[i];
    }
  }

  lemma DeliverKeepsRate(s: State, c: nat, at: int, marked: bool)
    requires Alone(s, c) && RateOk(s) && Enabled(s, Deliver(c, at, marked)) && s.clock <= at
    ensures RateOk(AfterDeliver(s, c, at, marked))
  {
    assert CmdRate(s, s.cmds[c]);
    RecordKeepsList(s.log, s.sends, s.clock, HandOver(at, Max(|s.ledger| - 1, 0)));
    var s' := AfterDeliver(s, c, at, marked);
    OwnStepKeepsRate(s, s', c, s'.cmds[c]);
  }

  // ---------- Restarting: what the table gives back ----------

  predicate InWindow(s: State, i: nat, now: int)
    requires i < |s.log|
  {
    now - s.log[i].at < SEND_WINDOW
  }

  /** The row of hand-over i is still in the table and its time was written. */
  predicate RowKept(s: State, i: nat)
    requires i < |s.log|
  {
    && |s.ledger| - |s.table| <= s.log[i].res < |s.ledger|
    && s.ledger[s.log[i].res].dispatched.Some?
  }

  ghost predicate Faithful(s: State, now: int) {
    forall i :: 0 <= i < |s.log| && InWindow(s, i, now) ==> RowKept(s, i)
  }

  ghost predicate Rising(s: seq<int>) { forall i, j :: 0 <= i < j < |s| ==> Less(s, i, j) }

  predicate Less(s: seq<int>, i: nat, j: nat)
    requires i < |s| && j < |s|
  {
    s[i] < s[j]
  }

  lemma {:induction false} SortRising(s: seq<int>)
    requires Rising(s)
    ensures Sort(s) == s
  {
    if s != [] {
      var t := s[..|s| - 1];
      forall i, j | 0 <= i < j < |t| ensures Less(t, i, j) {
        assert Less(s, i, j);
      }
      SortRising(t);
      if t != [] {
        assert Less(s, |t| - 1, |t|);
      }
      assert t + [s[|s| - 1]] == s;
    }
  }

  /** Some row was handed over after `since`, at x. */
  ghost predicate SomeSentAt(t: Table, since: int, x: int) { exists r :: 0 <= r < |t| && SentAt(t, r, since, x) }

  lemma SomeSentAtSnoc(t: Table, since: int, x: int)
    requires t != []
    ensures SomeSentAt(t, since, x) <==> SomeSentAt(t[..|t| - 1], since, x) || SentAt(t, |t| - 1, since, x)
  {
    var u := t[..|t| - 1];
    if r :| 0 <= r < |t| && SentAt(t, r, since, x) {
      assert r < |u| ==> SentAt(u, r, since, x);
    }
    if r :| 0 <= r < |u| && SentAt(u, r, since, x) {
      assert SentAt(t, r, since, x);
    }
  }

  lemma {:induction false} LaterHas(t: Table, since: int, x: int)
    ensures x in Later(t, since) <==> SomeSentAt(t, since, x)
  {
    if t != [] {
      LaterHas(t[..|t| - 1], since, x);
      SomeSentAtSnoc(t, since, x);
    }
  }

  /** Marked rows bear rising times. */
  ghost predicate RowsRising(t: Table) { forall i, j :: 0 <= i < j < |t| ==> RowsLess(t, i, j) }

  predicate RowsLess(t: Table, i: nat, j: nat)
    requires i < |t| && j < |t|
  {
    t[i].dispatched.Some? && t[j].dispatched.Some? ==> t[i].dispatched.value < t[j].dispatched.value
  }

  lemma {:induction false} LaterRising(t: Table, since: int)
    requires RowsRising(t)
    ensures Rising(Later(t, since))
  {
    if t != [] {
      var u := t[..|t| - 1];
      forall i, j | 0 <= i < j < |u| ensures RowsLess(u, i, j) {
        assert RowsLess(t, i, j);
      }
      LaterRising(u, since);
      var l := Later(u, since);
      forall i, j | 0 <= i < j < |Later(t, since)| ensures Less(Later(t, since), i, j) {
        if j < |l| {
          assert Less(l, i, j);
        } else {
          LaterHas(u, since, l[i]);
          var r :| 0 <= r < |u| && SentAt(u, r, since, l[i]);
          assert RowsLess(t, r, |u|);
        }
      }
    }
  }

  predicate Covers(a: seq<int>, b: seq<int>) { forall i :: 0 <= i < |a| ==> a[i] in b }

  lemma {:induction false} SameTimes(a: seq<int>, b: seq<int>)
    requires Rising(a) && Rising(b) && Covers(a, b) && Covers(b, a)
    ensures a == b
  {
    assert a != [] ==> a[0] in b;
    assert b != [] ==> b[0] in a;
    if a != [] {
      var a', b' := a[..|a| - 1], b[..|b| - 1];
      var m, n := a[|a| - 1], b[|b| - 1];
      LastIsLargest(a, n);
      LastIsLargest(b, m);
      AllButLast(a, b);
      AllButLast(b, a);
      SameTimes(a', b');
      assert a' + [m] == a && b' + [n] == b;
    }
  }

  lemma AllButLast(a: seq<int>, b: seq<int>)
    requires Rising(a) && a != [] && b != [] && a[|a| - 1] == b[|b| - 1] && Covers(a, b)
    ensures Rising(a[..|a| - 1]) && Covers(a[..|a| - 1], b[..|b| - 1])
  {
    var u := a[..|a| - 1];
    forall i, j | 0 <= i < j < |u| ensures Less(u, i, j) {
      assert Less(a, i, j);
    }
    forall i | 0 <= i < |u| ensures u[i] in b[..|b| - 1] {
      assert Less(a, i, |a| - 1);
      assert a[i] in b;
      var j :| 0 <= j < |b| && b[j] == a[i];
      assert b[..|b| - 1][j] == a[i];
    }
  }

  lemma LastIsLargest(a: seq<int>, x: int)
    requires Rising(a) && x in a
    ensures x <= a[|a| - 1]
  {
    var i :| 0 <= i < |a| && a[i] == x;
    if i < |a| - 1 {
      assert Less(a, i, |a| - 1);
    }
  }

  lemma RisingLog(log: seq<HandOver>, i: nat, j: nat)
    requires Spaced(Ats(log)) && i < j < |log|
    ensures log[i].at < log[j].at
  {
    SpacedIsAscending(Ats(log), i, j);
  }

  /** A hand-over is known by its reservation. */
  lemma OnePerReservation(ledger: Table, log: seq<HandOver>, i: nat, j: nat)
    requires LogOk(ledger, log) && i < |log| && j < |log| && log[i].res == log[j].res
    ensures i == j
  {
    assert i < j ==> Earlier(log, i, j);
    assert j < i ==> Earlier(log, j, i);
  }

  /** The hand-over whose time a marked row bears. */
  lemma MarkedBy(ledger: Table, log: seq<HandOver>, p: nat) returns (i: nat)
    requires LogOk(ledger, log) && p < |ledger| && ledger[p].dispatched.Some?
    ensures i < |log| && log[i] == HandOver(ledger[p].dispatched.value, p)
  {
    assert MarkOk(ledger, log, p);
    i :| 0 <= i < |log| && log[i] == HandOver(ledger[p].dispatched.value, p);
  }

  lemma LedgerRising(ledger: Table, log: seq<HandOver>, p: nat, q: nat)
    requires LogOk(ledger, log) && Spaced(Ats(log)) && p < q < |ledger|
    ensures RowsLess(ledger, p, q)
  {
    if ledger[p].dispatched.Some? && ledger[q].dispatched.Some? {
      var i := MarkedBy(ledger, log, p);
      var j := MarkedBy(ledger, log, q);
      assert j < i ==> Earlier(log, j, i);
      RisingLog(log, i, j);
    }
  }

  lemma TableRising(s: State)
    requires IsEnd(s.table, s.ledger) && LogOk(s.ledger, s.log) && Spaced(Ats(s.log))
    ensures RowsRising(s.table)
  {
    var k := |s.ledger| - |s.table|;
    forall i, j | 0 <= i < j < |s.table| ensures RowsLess(s.table, i, j) {
      LedgerRising(s.ledger, s.log, k + i, k + j);
    }
  }

  // The part of the log inside the window, and what RecentSends finds of it.

  lemma AtsRising(log: seq<HandOver>, c: nat)
    requires Spaced(Ats(log)) && c <= |log|
    ensures Rising(Ats(log)[c..])
  {
    var w := Ats(log)[c..];
    forall i, j | 0 <= i < j < |w| ensures Less(w, i, j) {
      RisingLog(log, c + i, c + j);
    }
  }

  /** A time RecentSends finds is that of a hand-over inside the window. */
  lemma FoundIsInWindow(s: State, now: int, c: nat, x: int)
    requires IsEnd(s.table, s.ledger) && LogOk(s.ledger, s.log) && CutAt(Ats(s.log), now, c)
    requires x in Later(s.table, now - SEND_WINDOW)
    ensures x in Ats(s.log)[c..]
  {
    LaterHas(s.table, now - SEND_WINDOW, x);
    var r :| 0 <= r < |s.table| && SentAt(s.table, r, now - SEND_WINDOW, x);
    var i := MarkedBy(s.ledger, s.log, |s.ledger| - |s.table| + r);
    assert Ats(s.log)[i] == x;
    assert i >= c;
    assert Ats(s.log)[c..][i - c] == x;
  }

  /** RecentSends finds a hand-over inside the window exactly if its row was kept. */
  lemma FoundIffKept(s: State, now: int, i: nat)
    requires IsEnd(s.table, s.ledger) && LogOk(s.ledger, s.log) && Spaced(Ats(s.log))
    requires i < |s.log| && InWindow(s, i, now)
    ensures s.log[i].at in Later(s.table, now - SEND_WINDOW) <==> RowKept(s, i)
  {
    var k, x, since := |s.ledger| - |s.table|, s.log[i].at, now - SEND_WINDOW;
    LaterHas(s.table, since, x);
    if RowKept(s, i) {
      var j := MarkedBy(s.ledger, s.log, s.log[i].res);
      OnePerReservation(s.ledger, s.log, i, j);
      assert SentAt(s.table, s.log[i].res - k, since, x);
    }
    if r :| 0 <= r < |s.table| && SentAt(s.table, r, since, x) {
      var j := MarkedBy(s.ledger, s.log, k + r);
      if i != j {
        RisingLog(s.log, Min(i, j), Max(i, j));
      }
    }
  }

  /** The rows give back the part of the log inside the window exactly when every hand-over inside it still has its row, with its time. */
  lemma RowsGiveItBackIff(s: State, now: int, c: nat)
    requires IsEnd(s.table, s.ledger) && LogOk(s.ledger, s.log) && Spaced(Ats(s.log)) && CutAt(Ats(s.log), now, c)
    ensures RecentSends(s.table, now - SEND_WINDOW) == Ats(s.log)[c..] <==> Faithful(s, now)
  {
    var found, w := Later(s.table, now - SEND_WINDOW), Ats(s.log)[c..];
    TableRising(s);
    LaterRising(s.table, now - SEND_WINDOW);
    SortRising(found);
    AtsRising(s.log, c);
    if Faithful(s, now) {
      FaithfulFindsAll(s, now, c);
      SameTimes(found, w);
    }
    if found == w {
      FindingAllIsFaithful(s, now, c);
    }
  }

  lemma FindingAllIsFaithful(s: State, now: int, c: nat)
    requires IsEnd(s.table, s.ledger) && LogOk(s.ledger, s.log) && Spaced(Ats(s.log)) && CutAt(Ats(s.log), now, c)
    requires Later(s.table, now - SEND_WINDOW) == Ats(s.log)[c..]
    ensures Faithful(s, now)
  {
    forall i | 0 <= i < |s.log| && InWindow(s, i, now) ensures RowKept(s, i) {
      assert Ats(s.log)[i] == s.log[i].at;
      assert Ats(s.log)[c..][i - c] == s.log[i].at;
      FoundIffKept(s, now, i);
    }
  }

  lemma FaithfulFindsAll(s: State, now: int, c: nat)
    requires IsEnd(s.table, s.ledger) && LogOk(s.ledger, s.log) && Spaced(Ats(s.log)) && CutAt(Ats(s.log), now, c)
    requires Faithful(s, now)
    ensures Covers(Later(s.table, now - SEND_WINDOW), Ats(s.log)[c..])
    ensures Covers(Ats(s.log)[c..], Later(s.table, now - SEND_WINDOW))
  {
    var w, found := Ats(s.log)[c..], Later(s.table, now - SEND_WINDOW);
    forall j | 0 <= j < |w| ensures w[j] in found {
      assert Ats(s.log)[c + j] == w[j];
      assert InWindow(s, c + j, now);
      FoundIffKept(s, now, c + j);
    }
    forall j | 0 <= j < |found| ensures found[j] in w {
      FoundIsInWindow(s, now, c, found[j]);
    }
  }

  lemma SortAtMost(t: Table, since: int, bound: int)
    requires AtMost(Later(t, since), bound)
    ensures AtMost(RecentSends(t, since), bound)
  {
    var r := RecentSends(t, since);
    SortAscends(Later(t, since));
    forall i | 0 <= i < |r| ensures r[i] <= bound {
      assert r[i] in multiset(r);
      assert r[i] in Later(t, since);
    }
  }

  /** What the rows give back are times of the log, which a clock that has not gone back does not clamp. */
  lemma ReloadTakesRows(s: State, now: int, later: int)
    requires LedgerOk(s) && AtMost(Ats(s.log), later)
    ensures Reload(s, now, later, true) == RecentSends(s.table, now - SEND_WINDOW)
  {
    var found := Later(s.table, now - SEND_WINDOW);
    forall j | 0 <= j < |found| ensures found[j] <= later {
      LaterHas(s.table, now - SEND_WINDOW, found[j]);
      var r :| 0 <= r < |s.table| && SentAt(s.table, r, now - SEND_WINDOW, found[j]);
      var i := MarkedBy(s.ledger, s.log, |s.ledger| - |s.table| + r);
      assert Ats(s.log)[i] == found[j];
    }
    SortAtMost(s.table, now - SEND_WINDOW, later);
  }

  /**
   The list a new process starts with is the part of the log inside the window
   exactly when every hand-over inside it still has its row, with its time, and
   the table could be read, unless there is no such hand-over.
   */
  lemma ReloadIsExactIff(s: State, now: int, later: int, readOk: bool)
    requires LedgerOk(s) && Spaced(Ats(s.log)) && AtMost(Ats(s.log), later)
    ensures Reload(s, now, later, readOk) == Prune(Ats(s.log), now) <==>
            Faithful(s, now) && (readOk || Prune(Ats(s.log), now) == [])
  {
    var ats := Ats(s.log);
    SpacedAscending(ats);
    var c := FindCut(ats, now);
    PruneCut(ats, now, c);
    if readOk {
      ReloadTakesRows(s, now, later);
      RowsGiveItBackIff(s, now, c);
    } else {
      assert Reload(s, now, later, false) == [];
      if ats[c..] == [] {
        assert forall i :: 0 <= i < |s.log| ==> ats[i] == s.log[i].at;
      }
    }
  }

  lemma RestartKeepsRate(s: State, now: int, later: int)
    requires LedgerOk(s) && RateOk(s) && s.clock <= now <= later && Faithful(s, now)
    ensures RateOk(Apply(s, Restart(now, later, true)))
  {
    var ats := Ats(s.log);
    SpacedAscending(ats);
    var c := FindCut(ats, now);
    RowsGiveItBackIff(s, now, c);
    assert forall i :: 0 <= i < |ats[c..]| ==> ats[c..][i] == ats[c + i];
  }

  // ---------- Every run ----------

  lemma StepKeepsRate(s: State, a: Action)
    requires SlotOk(s) && LedgerOk(s) && RateOk(s) && Enabled(s, a) && StepForward(s, a)
    requires a.Restart? ==> a.readOk && Faithful(s, a.now)
    ensures RateOk(Apply(s, a))
  {
    if Quiet(a) {
      QuietIsSettled(s, a);
      QuietKeepsRate(s, Apply(s, a));
    } else if a.Restart? {
      RestartKeepsRate(s, a.now, a.later);
    } else {
      WorkingOwns(s, a.c);
      OwnerIsAlone(s, a.c);
      match a
      case AskBackstop(c, now) => BackstopKeepsRate(s, c, now);
      case ReserveId(c, o) => ReserveKeepsRate(s, c, o);
      case Deliver(c, at, marked) => DeliverKeepsRate(s, c, at, marked);
    }
  }

  ghost predicate RestartsFaithful(states: seq<State>, actions: seq<Action>)
    requires |states| == |actions| + 1
  {
    forall i :: 0 <= i < |actions| && actions[i].Restart? ==> actions[i].readOk && Faithful(states[i], actions[i].now)
  }

  lemma {:induction false} RateOverEveryRun(states: seq<State>, actions: seq<Action>, n: nat)
    requires IsRun(states, actions) && ClockForward(states, actions) && RestartsFaithful(states, actions) && n < |states|
    ensures RateOk(states[n])
  {
    if n > 0 {
      RateOverEveryRun(states, actions, n - 1);
      TableIsEndOfLedger(states, actions, n - 1);
      SlotHasOneOwner(states, actions, n - 1);
      assert Enabled(states[n - 1], actions[n - 1]);
      assert StepForward(states[n - 1], actions[n - 1]);
      StepKeepsRate(states[n - 1], actions[n - 1]);
    }
  }

  /**
   Over every run, whatever commands interleave, two hand-overs are at least
   MIN_SEND_INTERVAL apart and no interval as long as the window holds more
   than MAX_SENDS_IN_WINDOW; and what the backstop would answer from its list
   is what the whole log of hand-overs would answer.
   */
  lemma RateBound(states: seq<State>, actions: seq<Action>, n: nat, from: int, now: int)
    requires IsRun(states, actions) && ClockForward(states, actions) && RestartsFaithful(states, actions) && n < |states|
    ensures forall i :: 1 <= i < |states[n].log| ==> states[n].log[i].at - states[n].log[i - 1].at >= MIN_SEND_INTERVAL
    ensures CountIn(Ats(states[n].log), from, from + SEND_WINDOW) <= MAX_SENDS_IN_WINDOW
    ensures states[n].clock <= now ==> (Allows(states[n].sends, now) <==> AllowedAt(Ats(states[n].log), now))
  {
    RateOverEveryRun(states, actions, n);
    var ats := Ats(states[n].log);
    AtMostThirtyPerWindow(ats, from);
    assert forall i :: 0 <= i < |ats| ==> ats[i] == states[n].log[i].at;
    if states[n].clock <= now {
      BackstopDecides(states[n], now);
    }
  }

  /**
   The check and the hand-over read the clock separately. Whatever it did in
   between, the log stays spaced exactly when it would also have allowed the
   send at the second reading; which it does if the clock did not go back.
   */
  lemma HandOverKeepsRateIff(s: State, c: nat, at: int, marked: bool)
    requires Spaced(Ats(s.log)) && Enabled(s, Deliver(c, at, marked))
    requires AllowedAt(Ats(s.log), s.cmds[c].pc.now)
    ensures Spaced(Ats(AfterDeliver(s, c, at, marked).log)) <==> AllowedAt(Ats(s.log), at)
    ensures s.cmds[c].pc.now <= at ==> AllowedAt(Ats(s.log), at)
  {
    assert Ats(AfterDeliver(s, c, at, marked).log) == Ats(s.log) + [at];
    SpacedAppend(Ats(s.log), at);
  }

  // ---------- Restarts that lose nothing ----------

  lemma RunPrefix(states: seq<State>, actions: seq<Action>, r: nat)
    requires IsRun(states, actions) && ClockForward(states, actions) && r <= |actions|
    ensures IsRun(states[..r + 1], actions[..r]) && ClockForward(states[..r + 1], actions[..r])
  {
    var st, ac := states[..r + 1], actions[..r];
    forall i | 0 <= i < r ensures Enabled(st[i], ac[i]) && st[i + 1] == Apply(st[i], ac[i]) && StepForward(st[i], ac[i]) {
      assert Enabled(states[i], actions[i]) && StepForward(states[i], actions[i]);
    }
    assert st[0] == states[0];
  }

  /** Over every run: the first restart that could lose a hand-over of the window loses none exactly if their rows are kept and read. */
  lemma RestartLosesNothingIff(states: seq<State>, actions: seq<Action>, r: nat)
    requires IsRun(states, actions) && ClockForward(states, actions) && r < |actions| && actions[r].Restart?
    requires RestartsFaithful(states[..r + 1], actions[..r])
    ensures var recent := Prune(Ats(states[r].log), actions[r].now);
      states[r + 1].sends == recent <==> Faithful(states[r], actions[r].now) && (actions[r].readOk || recent == [])
  {
    RunPrefix(states, actions, r);
    RateOverEveryRun(states[..r + 1], actions[..r], r);
    TableIsEndOfLedger(states, actions, r);
    assert Enabled(states[r], actions[r]) && StepForward(states[r], actions[r]);
    ReloadIsExactIff(states[r], actions[r].now, actions[r].later, actions[r].readOk);
  }


  /** Reservations that may have written a row. */
  predicate Reserves(a: Action) { a.ReserveId? && !a.outcome.InsertFails? }

  /** How many of the actions from..to are such reservations. */
  function Reservations(actions: seq<Action>, from: nat, to: nat): nat
    requires from <= to <= |actions|
  {
    if from == to then 0 else Reservations(actions, from, to - 1) + if Reserves(actions[to - 1]) then 1 else 0
  }

  predicate SentInWindow(a: Action, now: int) { a.Deliver? && now - a.at < SEND_WINDOW }

  /** Each hand-over of the last window was marked, and fewer than OUTBOX_KEEP reservations came after it. */
  ghost predicate WellKept(actions: seq<Action>, r: nat)
    requires r < |actions| && actions[r].Restart?
  {
    && actions[r].readOk
    && forall k :: 0 <= k < r && SentInWindow(actions[k], actions[r].now)
         ==> actions[k].marked && Reservations(actions, k + 1, r) < OUTBOX_KEEP
  }

  ghost predicate RestartsWellKept(actions: seq<Action>) {
    forall r :: 0 <= r < |actions| && actions[r].Restart? ==> WellKept(actions, r)
  }

  predicate StaysMarked(ledger: Table, ledger': Table, p: nat)
    requires p < |ledger| && p < |ledger'|
  {
    ledger[p].dispatched.Some? ==> ledger'[p].dispatched.Some?
  }

  /** Between the two ledgers lie at most n reservations. */
  ghost predicate Grows(ledger: Table, ledger': Table, n: nat) {
    && |ledger| <= |ledger'| <= |ledger| + n
    && forall p :: 0 <= p < |ledger| ==> StaysMarked(ledger, ledger', p)
  }

  lemma ReserveGrows(s: State, c: nat, o: Reservation)
    requires Enabled(s, ReserveId(c, o))
    ensures Grows(s.ledger, AfterReserve(s, c, o).ledger, if o.InsertFails? then 0 else 1)
    ensures AfterReserve(s, c, o).log == s.log
  {
    var id, now := s.cmds[c].id, s.cmds[c].pc.now;
    RefuseShape(s, c);
    RefuseShape(s.(table := Insert(s.table, id, now), ledger := Insert(s.ledger, id, now)), c);
  }

  lemma StepGrows(s: State, a: Action)
    requires Enabled(s, a)
    ensures Grows(s.ledger, Apply(s, a).ledger, if Reserves(a) then 1 else 0)
    ensures !a.Deliver? ==> Apply(s, a).log == s.log
  {
    if a.ReserveId? {
      ReserveGrows(s, a.c, a.outcome);
    } else if Quiet(a) {
      QuietIsSettled(s, a);
    } else if a.AskBackstop? {
      RefuseShape(s.(sends := Kept(s.sends, a.now), clock := a.now), a.c);
    }
  }

  lemma GrowsOn(l0: Table, l1: Table, l2: Table, m: nat, n: nat)
    requires Grows(l0, l1, m) && Grows(l1, l2, n)
    ensures Grows(l0, l2, m + n)
  {
    forall p | 0 <= p < |l0| ensures StaysMarked(l0, l2, p) {
      assert StaysMarked(l0, l1, p) && StaysMarked(l1, l2, p);
    }
  }

  lemma {:induction false} LedgerGrows(states: seq<State>, actions: seq<Action>, from: nat, to: nat)
    requires IsRun(states, actions) && from <= to < |states|
    ensures Grows(states[from].ledger, states[to].ledger, Reservations(actions, from, to))
  {
    if from < to {
      LedgerGrows(states, actions, from, to - 1);
      assert Enabled(states[to - 1], actions[to - 1]);
      StepGrows(states[to - 1], actions[to - 1]);
      GrowsOn(states[from].ledger, states[to - 1].ledger, states[to].ledger,
              Reservations(actions, from, to - 1), if Reserves(actions[to - 1]) then 1 else 0);
    }
  }

  /** The hand-over with index i in the log was made by action k. */
  ghost predicate MadeBy(states: seq<State>, actions: seq<Action>, k: nat, h: HandOver)
    requires |states| == |actions| + 1 && k < |actions|
  {
    && actions[k].Deliver? && h.at == actions[k].at && h.res == Max(|states[k].ledger| - 1, 0)
  }

  lemma {:induction false} DeliverOf(states: seq<State>, actions: seq<Action>, n: nat, i: nat) returns (k: nat)
    requires IsRun(states, actions) && n < |states| && i < |states[n].log|
    ensures k < n && MadeBy(states, actions, k, states[n].log[i])
  {
    var s, a := states[n - 1], actions[n - 1];
    assert Enabled(s, a) && states[n] == Apply(s, a);
    StepGrows(s, a);
    if i < |s.log| {
      k := DeliverOf(states, actions, n - 1, i);
    } else {
      k := n - 1;
    }
  }

  /** Of a hand-over that was marked, with fewer than OUTBOX_KEEP reservations since, the row is still there. */
  lemma MarkedRowIsKept(states: seq<State>, actions: seq<Action>, n: nat, i: nat, k: nat)
    requires IsRun(states, actions) && ClockForward(states, actions) && n < |states| && i < |states[n].log|
    requires k < n && MadeBy(states, actions, k, states[n].log[i])
    requires actions[k].marked && Reservations(actions, k + 1, n) < OUTBOX_KEEP
    ensures RowKept(states[n], i)
  {
    TableIsEndOfLedger(states, actions, k);
    TableIsEndOfLedger(states, actions, n);
    LedgerGrows(states, actions, k + 1, n);
    var s, a := states[k], actions[k];
    assert Enabled(s, a) && states[k + 1] == Apply(s, a);
    assert CmdLedger(s, s.cmds[a.c]);
    assert states[k + 1].ledger == MarkLast(s.ledger, a.at);
    assert StaysMarked(states[k + 1].ledger, states[n].ledger, |s.ledger| - 1);
  }

  /** Restarts are faithful if what was done before them kept the rows. */
  lemma WellKeptIsFaithful(states: seq<State>, actions: seq<Action>)
    requires IsRun(states, actions) && ClockForward(states, actions) && RestartsWellKept(actions)
    ensures RestartsFaithful(states, actions)
  {
    forall r | 0 <= r < |actions| && actions[r].Restart? ensures actions[r].readOk && Faithful(states[r], actions[r].now) {
      assert WellKept(actions, r);
      forall i | 0 <= i < |states[r].log| && InWindow(states[r], i, actions[r].now) ensures RowKept(states[r], i) {
        var k := DeliverOf(states, actions, r, i);
        assert SentInWindow(actions[k], actions[r].now);
        MarkedRowIsKept(states, actions, r, i, k);
      }
    }
  }

  /** The bound by what was done alone: no assumption on any state. */
  lemma RateBoundByActions(states: seq<State>, actions: seq<Action>, n: nat, from: int)
    requires IsRun(states, actions) && ClockForward(states, actions) && RestartsWellKept(actions) && n < |states|
    ensures forall i :: 1 <= i < |states[n].log| ==> states[n].log[i].at - states[n].log[i - 1].at >= MIN_SEND_INTERVAL
    ensures CountIn(Ats(states[n].log), from, from + SEND_WINDOW) <= MAX_SENDS_IN_WINDOW
  {
    WellKeptIsFaithful(states, actions);
    RateBound(states, actions, n, from, states[n].clock);
  }
}
