/**
 Runs of the send path that show where its promises end: hand-overs too close
 to each other or too many after a restart that lost some, or after a clock
 set back, and one outbox id handed over twice in a row. Each is built from
 whole sends, one after the other, on a machine at rest.
 */
module SendRuns {
  import opened Prelude
  import opened Backstop
  import opened Outbox
  import opened SendPath
  import opened SendRate

  // ---------- Reachable states ----------

  /** What is asked of a run: nothing, a clock that never goes back, or besides that one process all along. */
  datatype Mode = AnyClock | Forward | OneProcess

  /** Some such run leads to s. */
  ghost predicate Reaches(s: State, mode: Mode) {
    exists states: seq<State>, actions: seq<Action> :: Leads(states, actions, s, mode)
  }

  ghost predicate Leads(states: seq<State>, actions: seq<Action>, s: State, mode: Mode) {
    && IsRun(states, actions) && states[|actions|] == s
    && forall i :: 0 <= i < |actions| ==> Suits(states[i], actions[i], mode)
  }

  predicate Suits(s: State, a: Action, mode: Mode) {
    (!mode.AnyClock? ==> StepForward(s, a)) && (mode.OneProcess? ==> !a.Restart?)
  }

  predicate Steps(s: State, a: Action, s': State, mode: Mode) {
    Enabled(s, a) && s' == Apply(s, a) && Suits(s, a, mode)
  }

  lemma ReachStart(clock: int, mode: Mode)
    ensures Reaches(Initial(clock), mode)
  {
    assert Leads([Initial(clock)], [], Initial(clock), mode);
  }

  lemma Reach(s: State, a: Action, s': State, mode: Mode)
    requires Reaches(s, mode) && Steps(s, a, s', mode)
    ensures Reaches(s', mode)
  {
    var states: seq<State>, actions: seq<Action> :| Leads(states, actions, s, mode);
    var states', actions' := states + [s'], actions + [a];
    forall i | 0 <= i < |actions'|
      ensures Enabled(states'[i], actions'[i]) && states'[i + 1] == Apply(states'[i], actions'[i])
      ensures Suits(states'[i], actions'[i], mode)
    {
      if i < |actions| {
        assert Enabled(states[i], actions[i]);
        assert Suits(states[i], actions[i], mode);
      }
    }
    assert Leads(states', actions', s', mode);
  }

  // ---------- One send on a machine at rest ----------

  /** s with one more command. */
  function Plus(s: State, k: Cmd): State {
    s.(cmds := s.cmds + [k], sending := k.took && !k.freed)
  }

  /** What happens to a send that no check refuses. */
  datatype Send = Send(id: string, now: int, at: int, marked: bool)

  /** The clock readings, and that every check lets the send through. */
  predicate PassesAt(s: State, x: Send, mode: Mode) {
    && !s.sending && !Known(s.table, x.id) && Allows(s.sends, x.now)
    && (!mode.AnyClock? ==> s.clock <= x.now <= x.at)
  }

  function Asked(s: State, now: int): State { s.(sends := Kept(s.sends, now), clock := now) }

  function WithRow(s: State, id: string, now: int): State {
    s.(table := Reserve(s.table, id, now).0, ledger := Insert(s.ledger, id, now))
  }

  function Given(s: State, x: Send): State {
    s.(sends := s.sends + [x.at], clock := x.at,
       table := if x.marked then DispatchedAt(s.table, x.id, x.at) else s.table,
       ledger := if x.marked then MarkLast(s.ledger, x.at) else s.ledger,
       log := s.log + [HandOver(x.at, Max(|s.ledger| - 1, 0))])
  }

  lemma LastCmd(cmds: seq<Cmd>, k: Cmd, k': Cmd)
    ensures (cmds + [k])[|cmds|] == k && (cmds + [k])[|cmds| := k'] == cmds + [k']
  {
  }

  lemma ComesToBackstop(s: State, x: Send, mode: Mode)
    requires Reaches(s, mode) && PassesAt(s, x, mode)
    ensures Reaches(Plus(s, Cmd(x.id, AtBackstop, true, false)), mode)
  {
    var c := |s.cmds|;
    var s1, s2 := Plus(s, Cmd(x.id, Started, false, false)), Plus(s, Cmd(x.id, Checking, true, false));
    Reach(s, NewCommand(x.id), s1, mode);
    LastCmd(s.cmds, Cmd(x.id, Started, false, false), Cmd(x.id, Checking, true, false));
    Reach(s1, TakeSlot(c), s2, mode);
    LastCmd(s.cmds, Cmd(x.id, Checking, true, false), Cmd(x.id, AtBackstop, true, false));
    Reach(s2, Check(c, true, true), Plus(s, Cmd(x.id, AtBackstop, true, false)), mode);
  }

  lemma ComesToHandOver(s: State, x: Send, mode: Mode)
    requires Reaches(s, mode) && PassesAt(s, x, mode)
    ensures Reaches(Plus(WithRow(Asked(s, x.now), x.id, x.now), Cmd(x.id, Reserved(x.now), true, false)), mode)
  {
    var c := |s.cmds|;
    var k0, k1, k2 := Cmd(x.id, AtBackstop, true, false), Cmd(x.id, AtReserve(x.now), true, false), Cmd(x.id, Reserved(x.now), true, false);
    ComesToBackstop(s, x, mode);
    LastCmd(s.cmds, k0, k1);
    Reach(Plus(s, k0), AskBackstop(c, x.now), Plus(Asked(s, x.now), k1), mode);
    LastCmd(s.cmds, k1, k2);
    Reach(Plus(Asked(s, x.now), k1), ReserveId(c, Written), Plus(WithRow(Asked(s, x.now), x.id, x.now), k2), mode);
  }

  lemma GivesSlotBack(s: State, k: Cmd, mode: Mode)
    requires Reaches(Plus(s, k), mode) && k.took && !k.freed && (k.pc.Reserved? || k.pc.InFlight?)
    ensures Reaches(Plus(s, Cmd(k.id, Ended, true, true)), mode)
  {
    var c := |s.cmds|;
    var k1, k2 := Cmd(k.id, Deferred, true, true), Cmd(k.id, Ended, true, true);
    LastCmd(s.cmds, k, k.(freed := true));
    LastCmd(s.cmds, k.(freed := true), k1);
    LastCmd(s.cmds, k1, k2);
    Reach(Plus(s, k), Release(c), Plus(s, k1), mode);
    Reach(Plus(s, k1), RunDeferred(c), Plus(s, k2), mode);
  }

  /** The machine after a send that got to the hand-over. */
  function Sent(s: State, x: Send): State {
    Plus(Given(WithRow(Asked(s, x.now), x.id, x.now), x), Cmd(x.id, Ended, true, true))
  }

  lemma Sends(s: State, x: Send, mode: Mode)
    requires Reaches(s, mode) && PassesAt(s, x, mode)
    ensures Reaches(Sent(s, x), mode)
  {
    ComesToHandOver(s, x, mode);
    var w, k, k' := WithRow(Asked(s, x.now), x.id, x.now), Cmd(x.id, Reserved(x.now), true, false), Cmd(x.id, InFlight, true, false);
    LastCmd(s.cmds, k, k');
    Reach(Plus(w, k), Deliver(|s.cmds|, x.at, x.marked), Plus(Given(w, x), k'), mode);
    GivesSlotBack(Given(w, x), k', mode);
  }

  /** The machine after a send that gave up between reservation and hand-over. */
  function GivenUp(s: State, id: string, now: int): State {
    Plus(WithRow(Asked(s, now), id, now), Cmd(id, Ended, true, true))
  }

  lemma GivesUp(s: State, id: string, now: int, mode: Mode)
    requires Reaches(s, mode) && PassesAt(s, Send(id, now, now, false), mode)
    ensures Reaches(GivenUp(s, id, now), mode)
  {
    ComesToHandOver(s, Send(id, now, now, false), mode);
    GivesSlotBack(WithRow(Asked(s, now), id, now), Cmd(id, Reserved(now), true, false), mode);
  }

  // ---------- A hand-over that the restart does not find ----------

  lemma NothingSent(now: int)
    ensures Kept([], now) == [] && Allows([], now)
  {
  }

  lemma OneSent(t: int, now: int)
    requires now - t >= MIN_SEND_INTERVAL
    ensures Allows([t], now)
  {
    assert [t][..0] == [];
    assert !AnyFuture([t], now);
  }

  /** Reserving a first id. */
  lemma FirstReservation(id: string, now: int)
    ensures Reserve([], id, now) == ([Row(id, now, None)], false)
  {
    ReserveInOrder([], id, now);
    assert Insert([], id, now) == [Row(id, now, None)];
  }

  lemma FirstSend(clock: int, x: Send, mode: Mode)
    requires !mode.AnyClock? ==> clock <= x.now <= x.at
    ensures Reaches(Sent(Initial(clock), x), mode)
  {
    ReachStart(clock, mode);
    NothingSent(x.now);
    Sends(Initial(clock), x, mode);
  }

  lemma FirstSendLeaves(clock: int, x: Send)
    ensures var s := Sent(Initial(clock), x);
      && s.sends == [x.at] && s.log == [HandOver(x.at, 0)] && s.clock == x.at && !s.sending
      && s.table == s.ledger == [Row(x.id, x.now, if x.marked then Some(x.at) else None)]
  {
    NothingSent(x.now);
    FirstReservation(x.id, x.now);
  }

  /** The list a process starts with if the one hand-over was not marked, or if the table could not be read. */
  lemma LostReload(s: State, now: int, later: int, readOk: bool)
    requires |s.table| == 1 && (readOk ==> s.table[0].dispatched.None?)
    ensures Reload(s, now, later, readOk) == []
  {
    assert s.table[..0] == [];
    assert Later([], now - SEND_WINDOW) == [];
    assert s.table[0].dispatched.None? ==> Later(s.table, now - SEND_WINDOW) == [];
  }

  /** A new process that starts with an empty list. */
  function Reborn(s: State, later: int): State { s.(clock := later, sending := false, sends := [], cmds := []) }

  lemma Restarts(s: State, now: int, later: int, readOk: bool, mode: Mode)
    requires Reaches(s, mode) && Reload(s, now, later, readOk) == [] && !mode.OneProcess?
    requires mode.Forward? ==> s.clock <= now <= later
    ensures Reaches(Reborn(s, later), mode)
  {
    Reach(s, Restart(now, later, readOk), Reborn(s, later), mode);
  }

  /** At rest, with one hand-over of a reservation of `id` behind it. */
  predicate OnceSent(s: State, id: string, t: int, sends: seq<int>) {
    && !s.sending && s.sends == sends && s.log == [HandOver(t, 0)]
    && |s.table| == |s.ledger| == 1 && s.table[0].id == s.ledger[0].id == id
  }

  lemma RestartLoses(t: int, id: string, marked: bool, readOk: bool) returns (s: State)
    requires !(marked && readOk)
    ensures Reaches(s, Forward) && OnceSent(s, id, t, []) && s.clock == t + 1
  {
    var s1 := Sent(Initial(t), Send(id, t, t, marked));
    FirstSend(t, Send(id, t, t, marked), Forward);
    FirstSendLeaves(t, Send(id, t, t, marked));
    LostReload(s1, t + 1, t + 1, readOk);
    Restarts(s1, t + 1, t + 1, readOk, Forward);
    s := Reborn(s1, t + 1);
  }

  /** A second send handed over less than a second after the first breaks the floor. */
  lemma TooSoon(s: State, id: string, t: int, sends: seq<int>, x: Send)
    requires OnceSent(s, id, t, sends) && x.at - t < MIN_SEND_INTERVAL
    ensures Sent(s, x).log == [HandOver(t, 0), HandOver(x.at, 1)] && !Spaced(Ats(Sent(s, x).log))
  {
    var log := Sent(s, x).log;
    assert log == [HandOver(t, 0)] + [HandOver(x.at, 1)];
    assert Ats(log)[1] - Ats(log)[0] == x.at - t;
  }

  /**
   The clock goes forward all the time, and yet two hand-overs lie two
   milliseconds apart: the time of the first was not written, or not read.
   */
  lemma LostHandOverBreaksTheFloor(t: int, id: string, other: string, marked: bool, readOk: bool)
    requires id != other && !(marked && readOk)
    ensures exists s: State :: Reaches(s, Forward) && s.log == [HandOver(t, 0), HandOver(t + 2, 1)] && !Spaced(Ats(s.log))
  {
    var x := Send(other, t + 2, t + 2, true);
    var s := RestartLoses(t, id, marked, readOk);
    NothingSent(t + 2);
    Sends(s, x, Forward);
    TooSoon(s, id, t, [], x);
    assert Reaches(Sent(s, x), Forward);
  }

  // ---------- A clock set back between the check and the hand-over ----------

  /** The second send is allowed a second after the first, and handed over at a reading half a second earlier. */
  lemma ClockBackBreaksTheFloor(t: int, id: string, other: string)
    requires id != other
    ensures exists s: State :: Reaches(s, AnyClock) && s.log == [HandOver(t, 0), HandOver(t + 500, 1)] && !Spaced(Ats(s.log))
  {
    var s, x := Sent(Initial(t), Send(id, t, t, true)), Send(other, t + 1000, t + 500, true);
    FirstSend(t, Send(id, t, t, true), AnyClock);
    FirstSendLeaves(t, Send(id, t, t, true));
    OneSent(t, t + 1000);
    Sends(s, x, AnyClock);
    TooSoon(s, id, t, [t], x);
    assert Reaches(Sent(s, x), AnyClock);
  }

  // ---------- A clock set back over a full table ----------

  /** The rows of the first n ids, all reserved at t. */
  function Rows(ids: seq<string>, n: nat, t: int): Table
    requires n <= |ids|
  {
    seq(n, i requires 0 <= i < n => Row(ids[i], t, None))
  }

  function Done(ids: seq<string>, n: nat): seq<Cmd>
    requires n <= |ids|
  {
    seq(n, i requires 0 <= i < n => Cmd(ids[i], Ended, true, true))
  }

  /** After n sends that gave up. */
  function Filled(ids: seq<string>, n: nat, t: int): State
    requires n <= |ids|
  {
    State(t, false, [], Rows(ids, n, t), Done(ids, n), Rows(ids, n, t), [])
  }

  predicate Unlike(ids: seq<string>, i: nat, j: nat)
    requires i < |ids| && j < |ids|
  {
    ids[i] != ids[j]
  }

  ghost predicate AllDiffer(ids: seq<string>) { forall i, j :: 0 <= i < j < |ids| ==> Unlike(ids, i, j) }

  lemma RowsReserve(ids: seq<string>, n: nat, t: int)
    requires AllDiffer(ids) && n < |ids| && n < OUTBOX_KEEP
    ensures !Known(Rows(ids, n, t), ids[n])
    ensures Reserve(Rows(ids, n, t), ids[n], t).0 == Insert(Rows(ids, n, t), ids[n], t) == Rows(ids, n + 1, t)
  {
    var u := Rows(ids, n, t);
    forall i | 0 <= i < n ensures u[i].id != ids[n] {
      assert Unlike(ids, i, n);
    }
    assert InOrder(u) by {
      forall i, j | 0 <= i < j < |u| ensures NotAfter(u, i, j) {}
    }
    ReserveInOrder(u, ids[n], t);
  }

  lemma FillOne(ids: seq<string>, n: nat, t: int)
    requires AllDiffer(ids) && n < |ids| && n < OUTBOX_KEEP
    ensures PassesAt(Filled(ids, n, t), Send(ids[n], t, t, false), AnyClock)
    ensures GivenUp(Filled(ids, n, t), ids[n], t) == Filled(ids, n + 1, t)
  {
    RowsReserve(ids, n, t);
    NothingSent(t);
    assert Done(ids, n) + [Cmd(ids[n], Ended, true, true)] == Done(ids, n + 1);
  }

  lemma {:induction false} Fills(ids: seq<string>, n: nat, t: int)
    requires AllDiffer(ids) && n <= |ids| && n <= OUTBOX_KEEP
    ensures Reaches(Filled(ids, n, t), AnyClock)
  {
    if n == 0 {
      ReachStart(t, AnyClock);
      assert Filled(ids, 0, t) == Initial(t);
    } else {
      Fills(ids, n - 1, t);
      FillOne(ids, n - 1, t);
      GivesUp(Filled(ids, n - 1, t), ids[n - 1], t, AnyClock);
    }
  }

  lemma {:induction false} AllLater(table: Table, now: int)
    requires forall i :: 0 <= i < |table| ==> table[i].created > now
    ensures LaterReservations(table, now) == |table|
  {
    if table != [] {
      AllLater(table[..|table| - 1], now);
    }
  }

  lemma MarkKeepsKnown(t: Table, id: string, at: int, x: string)
    ensures Known(DispatchedAt(t, id, at), x) ==> Known(t, x)
  {
    var u := DispatchedAt(t, id, at);
    if i :| 0 <= i < |u| && u[i].id == x {
      assert t[i].id == x;
    }
  }

  /** At rest, after one hand-over, of the last reservation, which was of `id` and is forgotten. */
  predicate SentAndForgotten(s: State, id: string, t: int) {
    && !s.sending && s.sends == [t] && !Known(s.table, id)
    && |s.ledger| == OUTBOX_KEEP + 1 && s.ledger[OUTBOX_KEEP].id == id && s.log == [HandOver(t, OUTBOX_KEEP)]
  }

  /** A send whose id is reserved before every row of the full table. */
  lemma ForgottenAtOnce(ids: seq<string>, t: int, x: Send)
    requires |ids| == OUTBOX_KEEP && AllDiffer(ids) && x.id !in ids && x.now < t
    ensures PassesAt(Filled(ids, OUTBOX_KEEP, t), x, AnyClock)
    ensures SentAndForgotten(Sent(Filled(ids, OUTBOX_KEEP, t), x), x.id, x.at)
  {
    var s := Filled(ids, OUTBOX_KEEP, t);
    NothingSent(x.now);
    AllLater(s.table, x.now);
    assert !Known(s.table, x.id);
    RememberedIff(s.table, x.id, x.now);
    MarkKeepsKnown(Reserve(s.table, x.id, x.now).0, x.id, x.at, x.id);
  }

  lemma SentAgain(s: State, t: int, y: Send)
    requires SentAndForgotten(s, y.id, t) && y.now >= t + MIN_SEND_INTERVAL
    ensures PassesAt(s, y, AnyClock) && SentTwice(Sent(s, y), y.id)
  {
    OneSent(t, y.now);
  }

  /** The two hand-overs of s belong to adjacent reservations of one id. */
  predicate SentTwice(s: State, id: string) {
    && |s.log| == 2 && s.log[1].res == s.log[0].res + 1 < |s.ledger|
    && s.ledger[s.log[0].res].id == s.ledger[s.log[1].res].id == id
  }

  /**
   With the clock set back by one millisecond over a full table, whatever ids
   it holds, a new id is forgotten at once and handed over a second time.
   */
  lemma ForgottenIdIsSentTwice(ids: seq<string>, t: int, id: string)
    requires |ids| == OUTBOX_KEEP && AllDiffer(ids) && id !in ids
    ensures exists s: State :: Reaches(s, AnyClock) && SentTwice(s, id)
  {
    var x, y := Send(id, t - 1, t - 1, true), Send(id, t + 999, t + 999, true);
    Fills(ids, OUTBOX_KEEP, t);
    ForgottenAtOnce(ids, t, x);
    var s := Sent(Filled(ids, OUTBOX_KEEP, t), x);
    Sends(Filled(ids, OUTBOX_KEEP, t), x, AnyClock);
    SentAgain(s, t - 1, y);
    Sends(s, y, AnyClock);
    assert SentTwice(Sent(s, y), id);
  }

  // ---------- A restart after too many reservations ----------

  lemma ReachedTable(s: State, mode: Mode)
    requires Reaches(s, mode) && !mode.AnyClock?
    ensures TableOk(s.table, s.ledger) && LastBy(s.ledger, s.clock)
  {
    var states: seq<State>, actions: seq<Action> :| Leads(states, actions, s, mode);
    assert forall i :: 0 <= i < |actions| ==> Suits(states[i], actions[i], mode);
    TableIsEndOfLedger(states, actions, |actions|);
  }

  lemma ReachedList(s: State)
    requires Reaches(s, OneProcess)
    ensures ListOk(s.log, s.sends, s.clock)
  {
    var states: seq<State>, actions: seq<Action> :| Leads(states, actions, s, OneProcess);
    assert forall i :: 0 <= i < |actions| ==> Suits(states[i], actions[i], OneProcess);
    RateOverEveryRun(states, actions, |actions|);
  }

  lemma OneProcessIsForward(s: State)
    requires Reaches(s, OneProcess)
    ensures Reaches(s, Forward)
  {
    var states: seq<State>, actions: seq<Action> :| Leads(states, actions, s, OneProcess);
    forall i | 0 <= i < |actions| ensures Suits(states[i], actions[i], Forward) {
      assert Suits(states[i], actions[i], OneProcess);
    }
    assert Leads(states, actions, s, Forward);
  }

  /** The reservations so far are of these ids, in order. */
  ghost predicate Names(ledger: Table, ids: seq<string>) {
    |ledger| <= |ids| && forall p :: 0 <= p < |ledger| ==> ledger[p].id == ids[p]
  }

  lemma NextIsNew(s: State, ids: seq<string>)
    requires IsEnd(s.table, s.ledger) && Names(s.ledger, ids) && AllDiffer(ids) && |s.ledger| < |ids|
    ensures !Known(s.table, ids[|s.ledger|])
  {
    forall i | 0 <= i < |s.table| ensures s.table[i].id != ids[|s.ledger|] {
      var p := |s.ledger| - |s.table| + i;
      assert s.table[i] == s.ledger[p];
      assert Unlike(ids, p, |s.ledger|);
    }
  }

  /** Hand-over i was made a second after the one before, for reservation i, and marked. */
  predicate Beat(s: State, i: nat, t: int)
    requires i < |s.log|
  {
    s.log[i] == HandOver(t + MIN_SEND_INTERVAL * i, i) && i < |s.ledger| && s.ledger[i].dispatched.Some?
  }

  /** n hand-overs, one a second, all by time `now`. */
  ghost predicate Beats(s: State, ids: seq<string>, n: nat, t: int, now: int) {
    && !s.sending && |s.log| == n && s.clock <= now && Names(s.ledger, ids)
    && (forall i :: 0 <= i < n ==> Beat(s, i, t))
  }

  lemma BeatsAllow(s: State, ids: seq<string>, n: nat, t: int)
    requires Beats(s, ids, n, t, t + MIN_SEND_INTERVAL * n) && n < MAX_SENDS_IN_WINDOW
    ensures AllowedAt(Ats(s.log), t + MIN_SEND_INTERVAL * n)
  {
    if n > 0 {
      assert Beat(s, n - 1, t);
    }
  }

  predicate Passes(s: State, id: string, now: int) {
    !s.sending && s.clock <= now && !Known(s.table, id) && Allows(s.sends, now)
  }

  lemma AllowedByLog(s: State, now: int)
    requires Reaches(s, OneProcess) && s.clock <= now && AllowedAt(Ats(s.log), now)
    ensures Allows(s.sends, now)
  {
    ReachedList(s);
    BackstopDecides(s, now);
  }

  lemma NextAllowed(s: State, ids: seq<string>, n: nat, t: int)
    requires Reaches(s, OneProcess) && n < MAX_SENDS_IN_WINDOW && Beats(s, ids, n, t, t + MIN_SEND_INTERVAL * n)
    ensures Allows(s.sends, t + MIN_SEND_INTERVAL * n)
  {
    BeatsAllow(s, ids, n, t);
    AllowedByLog(s, t + MIN_SEND_INTERVAL * n);
  }

  /** The next send a second later gets through, as long as there are fewer than MAX_SENDS_IN_WINDOW. */
  lemma NextPasses(s: State, ids: seq<string>, n: nat, t: int)
    requires Reaches(s, OneProcess) && AllDiffer(ids) && n < MAX_SENDS_IN_WINDOW && |s.ledger| < |ids|
    requires Beats(s, ids, n, t, t + MIN_SEND_INTERVAL * n)
    ensures Passes(s, ids[|s.ledger|], t + MIN_SEND_INTERVAL * n)
  {
    ReachedTable(s, OneProcess);
    NextIsNew(s, ids);
    NextAllowed(s, ids, n, t);
  }

  lemma ReservedRows(s: State, id: string, now: int)
    requires Reaches(s, OneProcess) && Passes(s, id, now)
    ensures |Reserve(s.table, id, now).0| == Min(|s.table| + 1, OUTBOX_KEEP)
  {
    ReachedTable(s, OneProcess);
    ReserveKeepsTable(s.table, s.ledger, id, now);
  }

  lemma {:induction false} OneASecond(ids: seq<string>, n: nat, t: int) returns (s: State)
    requires AllDiffer(ids) && n <= |ids| && n <= MAX_SENDS_IN_WINDOW
    ensures Reaches(s, OneProcess) && Beats(s, ids, n, t, t + MIN_SEND_INTERVAL * n) && |s.ledger| == |s.table| == n
  {
    if n == 0 {
      s := Initial(t);
      ReachStart(t, OneProcess);
    } else {
      var r := OneASecond(ids, n - 1, t);
      s := OneMore(r, ids, n - 1, t);
    }
  }

  lemma OneMore(r: State, ids: seq<string>, n: nat, t: int) returns (s: State)
    requires Reaches(r, OneProcess) && Beats(r, ids, n, t, t + MIN_SEND_INTERVAL * n) && |r.ledger| == |r.table| == n < |ids|
    requires AllDiffer(ids) && n < MAX_SENDS_IN_WINDOW
    ensures Reaches(s, OneProcess) && Beats(s, ids, n + 1, t, t + MIN_SEND_INTERVAL * n) && |s.ledger| == |s.table| == n + 1
  {
    var now := t + MIN_SEND_INTERVAL * n;
    NextPasses(r, ids, n, t);
    ReservedRows(r, ids[n], now);
    Sends(r, Send(ids[n], now, now, true), OneProcess);
    SentBeats(r, ids, n, t);
    s := Sent(r, Send(ids[n], now, now, true));
  }

  lemma SentBeats(r: State, ids: seq<string>, n: nat, t: int)
    requires Beats(r, ids, n, t, t + MIN_SEND_INTERVAL * n) && |r.ledger| == n < |ids|
    ensures var now := t + MIN_SEND_INTERVAL * n; var s := Sent(r, Send(ids[n], now, now, true));
      Beats(s, ids, n + 1, t, now) && |s.ledger| == n + 1 && |s.table| == |Reserve(r.table, ids[n], now).0|
  {
    var now := t + MIN_SEND_INTERVAL * n;
    var s := Sent(r, Send(ids[n], now, now, true));
    forall i | 0 <= i < n + 1 ensures Beat(s, i, t) {
      assert i < n ==> Beat(r, i, t);
    }
  }

  const BEFORE: nat := MAX_SENDS_IN_WINDOW - 1

  /** One hand-over less than the window takes, and then m sends that gave up. */
  ghost predicate Abandoned(s: State, ids: seq<string>, m: nat, t: int) {
    && Beats(s, ids, BEFORE, t, t + MIN_SEND_INTERVAL * BEFORE)
    && |s.ledger| == BEFORE + m && |s.table| == Min(BEFORE + m, OUTBOX_KEEP)
    && (forall p :: BEFORE <= p < |s.ledger| ==> s.ledger[p].dispatched.None?)
  }

  lemma AbandonsOne(r: State, ids: seq<string>, m: nat, t: int) returns (s: State)
    requires Reaches(r, OneProcess) && Abandoned(r, ids, m, t) && AllDiffer(ids) && BEFORE + m < |ids|
    ensures Reaches(s, OneProcess) && Abandoned(s, ids, m + 1, t)
  {
    var now, id := t + MIN_SEND_INTERVAL * BEFORE, ids[BEFORE + m];
    NextPasses(r, ids, BEFORE, t);
    ReservedRows(r, id, now);
    GivesUp(r, id, now, OneProcess);
    s := GivenUp(r, id, now);
    forall i | 0 <= i < BEFORE ensures Beat(s, i, t) {
      assert Beat(r, i, t);
    }
  }

  lemma {:induction false} Abandons(ids: seq<string>, m: nat, t: int) returns (s: State)
    requires AllDiffer(ids) && BEFORE + m <= |ids|
    ensures Reaches(s, OneProcess) && Abandoned(s, ids, m, t)
  {
    if m == 0 {
      s := OneASecond(ids, BEFORE, t);
    } else {
      var r := Abandons(ids, m - 1, t);
      s := AbandonsOne(r, ids, m - 1, t);
    }
  }

  lemma {:induction false} NoneLater(table: Table, since: int)
    requires forall i :: 0 <= i < |table| ==> table[i].dispatched.None?
    ensures Later(table, since) == []
  {
    if table != [] {
      NoneLater(table[..|table| - 1], since);
    }
  }

  lemma NothingReloaded(s: State, now: int)
    requires forall i :: 0 <= i < |s.table| ==> s.table[i].dispatched.None?
    ensures Reload(s, now, now, true) == []
  {
    NoneLater(s.table, now - SEND_WINDOW);
  }

  lemma RebornAbandoned(r: State, ids: seq<string>, m: nat, t: int)
    requires Abandoned(r, ids, m, t)
    ensures Abandoned(Reborn(r, t + MIN_SEND_INTERVAL * BEFORE), ids, m, t)
  {
    var s := Reborn(r, t + MIN_SEND_INTERVAL * BEFORE);
    forall i | 0 <= i < BEFORE ensures Beat(s, i, t) {
      assert Beat(r, i, t);
    }
  }

  /** Every row of a hand-over has been trimmed away, so that the next process starts with an empty list. */
  lemma RestartForgets(ids: seq<string>, t: int) returns (s: State)
    requires AllDiffer(ids) && BEFORE + OUTBOX_KEEP <= |ids|
    ensures Reaches(s, Forward) && Abandoned(s, ids, OUTBOX_KEEP, t) && s.sends == []
  {
    var r := Abandons(ids, OUTBOX_KEEP, t);
    var now := t + MIN_SEND_INTERVAL * BEFORE;
    OneProcessIsForward(r);
    ReachedTable(r, Forward);
    NothingReloaded(r, now);
    Restarts(r, now, now, true, Forward);
    s := Reborn(r, now);
    RebornAbandoned(r, ids, OUTBOX_KEEP, t);
  }

  /** Hand-over i bears the time of its reservation's row. */
  predicate Marked(s: State, i: nat)
    requires i < |s.log|
  {
    s.log[i].res < |s.ledger| && s.ledger[s.log[i].res].dispatched.Some?
  }

  /** A further send on a machine at rest that has forgotten all but its last hand-over. */
  lemma SendsOn(r: State, ids: seq<string>, now: int) returns (s: State)
    requires Reaches(r, Forward) && !r.sending && r.clock <= now && Names(r.ledger, ids) && AllDiffer(ids) && |r.ledger| < |ids|
    requires Allows(r.sends, now) && forall i :: 0 <= i < |r.log| ==> Marked(r, i)
    ensures Reaches(s, Forward) && !s.sending && s.clock == now && Names(s.ledger, ids) && |s.ledger| == |r.ledger| + 1
    ensures s.sends == Kept(r.sends, now) + [now] && s.log == r.log + [HandOver(now, |r.ledger|)]
    ensures forall i :: 0 <= i < |s.log| ==> Marked(s, i)
  {
    var x := Send(ids[|r.ledger|], now, now, true);
    ReachedTable(r, Forward);
    NextIsNew(r, ids);
    Sends(r, x, Forward);
    s := Sent(r, x);
    forall i | 0 <= i < |s.log| ensures Marked(s, i) {
      assert i < |r.log| ==> Marked(r, i);
    }
  }

  lemma AbandonedMarked(s: State, ids: seq<string>, m: nat, t: int)
    requires Abandoned(s, ids, m, t)
    ensures s.log[0].at == t && forall i :: 0 <= i < |s.log| ==> Marked(s, i)
  {
    forall i | 0 <= i < |s.log| ensures Marked(s, i) && s.log[i].at == t + MIN_SEND_INTERVAL * i {
      assert Beat(s, i, t);
    }
  }

  lemma NotSpaced(s: State)
    requires |s.log| == MAX_SENDS_IN_WINDOW + 1 && s.log[MAX_SENDS_IN_WINDOW].at - s.log[0].at < SEND_WINDOW
    ensures !Spaced(Ats(s.log))
  {
    assert Ats(s.log)[MAX_SENDS_IN_WINDOW] - Ats(s.log)[0] < SEND_WINDOW;
  }

  /** More marked hand-overs than the window takes, one a second from t on. */
  ghost predicate TooMany(s: State, t: int) {
    && |s.log| == MAX_SENDS_IN_WINDOW + 1 && s.log[0].at == t
    && s.log[MAX_SENDS_IN_WINDOW].at == t + MAX_SENDS_IN_WINDOW * MIN_SEND_INTERVAL
    && !Spaced(Ats(s.log)) && (forall i :: 0 <= i < |s.log| ==> Marked(s, i))
  }

  /**
   The clock goes forward, every hand-over is marked and the table is read, and
   yet thirty-one hand-overs lie within thirty seconds: a thousand reservations
   given up between the 29th and a restart push the rows of the first 29 out.
   */
  lemma ForgottenHandOversBreakTheWindow(ids: seq<string>, t: int)
    requires AllDiffer(ids) && |ids| == MAX_SENDS_IN_WINDOW + OUTBOX_KEEP + 1
    ensures exists s: State :: Reaches(s, Forward) && TooMany(s, t)
  {
    var now := t + MIN_SEND_INTERVAL * BEFORE;
    var s0 := RestartForgets(ids, t);
    AbandonedMarked(s0, ids, OUTBOX_KEEP, t);
    NothingSent(now);
    var s1 := SendsOn(s0, ids, now);
    OneSent(now, now + MIN_SEND_INTERVAL);
    var s2 := SendsOn(s1, ids, now + MIN_SEND_INTERVAL);
    NotSpaced(s2);
    assert TooMany(s2, t);
  }
}
