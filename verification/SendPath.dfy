/**
 The send commands of internal/wa/commands.go as a state machine: any number
 of send commands interleave over the one send slot, the backstop's list, the
 outbox table and a clock, and the process may restart at any moment. `ledger`
 and `log` record, for the proofs, every reservation ever made and every
 hand-over to WhatsApp.
 */
module SendPath {
  import opened Prelude
  import opened Backstop
  import opened Outbox

  /** Where a send command is; from Checking to InFlight it owns the slot. */
  datatype Pc =
    | Started
    | Checking
    | AtBackstop
    | AtReserve(now: int)
    | Reserved(now: int)
    | InFlight
    | Deferred
    | Ended

  /** `took`: its swap of the slot flag succeeded. `freed`: its sync.Once has run. */
  datatype Cmd = Cmd(id: string, pc: Pc, took: bool, freed: bool)

  /** A hand-over: when, and which reservation it was for. */
  datatype HandOver = HandOver(at: int, res: nat)

  datatype State = State(clock: int, sending: bool, sends: seq<int>, table: Table, cmds: seq<Cmd>,
                         ledger: Table, log: seq<HandOver>)

  datatype Action =
    | NewCommand(id: string)
    | NotReady(c: nat)
    | TakeSlot(c: nat)
    | Check(c: nat, chatKnown: bool, readOk: bool)
    | AskBackstop(c: nat, now: int)
    | ReserveId(c: nat, outcome: Reservation)
    | Deliver(c: nat, at: int, marked: bool)
    | Release(c: nat)
    | Panic(c: nat)
    | RunDeferred(c: nat)
    | Restart(now: int, later: int, readOk: bool)

  function Initial(clock: int): State { State(clock, false, [], [], [], [], []) }

  predicate Working(pc: Pc) { !pc.Started? && !pc.Deferred? && !pc.Ended? }

  predicate Known?(s: State, c: nat) { c < |s.cmds| && Known(s.table, s.cmds[c].id) }

  predicate At(s: State, c: nat, pc: Pc) { c < |s.cmds| && s.cmds[c].pc == pc }

  function With(s: State, c: nat, cmd: Cmd): State
    requires c < |s.cmds|
  {
    s.(cmds := s.cmds[c := cmd])
  }

  function Goto(s: State, c: nat, pc: Pc): State
    requires c < |s.cmds|
  {
    With(s, c, s.cmds[c].(pc := pc))
  }

  /** The slot's release: only the first call of a command's Once stores false. */
  function Free(s: State, c: nat): State
    requires c < |s.cmds|
  {
    if s.cmds[c].freed then s else With(s, c, s.cmds[c].(freed := true)).(sending := false)
  }

  /** A refusal frees the slot before its error is written; the deferred release runs afterwards. */
  function Refuse(s: State, c: nat): State
    requires c < |s.cmds|
  {
    Goto(Free(s, c), c, Deferred)
  }

  lemma RefuseShape(s: State, c: nat)
    requires c < |s.cmds|
    ensures Refuse(s, c).cmds == s.cmds[c := s.cmds[c].(pc := Deferred, freed := true)]
    ensures Refuse(s, c) == s.(cmds := Refuse(s, c).cmds, sending := s.cmds[c].freed && s.sending)
  {
  }

  predicate Enabled(s: State, a: Action) {
    match a
    case NewCommand(_) => true
    case NotReady(c) => At(s, c, Started)
    case TakeSlot(c) => At(s, c, Started)
    case Check(c, _, _) => At(s, c, Checking)
    case AskBackstop(c, _) => At(s, c, AtBackstop)
    case ReserveId(c, o) => c < |s.cmds| && s.cmds[c].pc.AtReserve? && (o.DeleteFails? ==> !Known?(s, c))
    case Deliver(c, _, _) => c < |s.cmds| && s.cmds[c].pc.Reserved?
    case Release(c) => c < |s.cmds| && (s.cmds[c].pc.Reserved? || s.cmds[c].pc.InFlight?)
    case Panic(c) => c < |s.cmds| && Working(s.cmds[c].pc)
    case RunDeferred(c) => At(s, c, Deferred)
    case Restart(_, _, _) => true
  }

  function AfterTake(s: State, c: nat): State
    requires c < |s.cmds|
  {
    if s.sending then Goto(s, c, Ended)
    else With(s, c, s.cmds[c].(pc := Checking, took := true)).(sending := true)
  }

  function AfterCheck(s: State, c: nat, chatKnown: bool, readOk: bool): State
    requires c < |s.cmds|
  {
    if !chatKnown || !readOk || Known?(s, c) then Refuse(s, c) else Goto(s, c, AtBackstop)
  }

  function AfterBackstop(s: State, c: nat, now: int): State
    requires c < |s.cmds|
  {
    AfterAnswer(s, c, now, Kept(s.sends, now), Allows(s.sends, now))
  }

  /** The backstop, asked at now, kept these times and gave this answer. */
  function AfterAnswer(s: State, c: nat, now: int, kept: seq<int>, allowed: bool): State
    requires c < |s.cmds|
  {
    var s' := s.(sends := kept, clock := now);
    if allowed then Goto(s', c, AtReserve(now)) else Refuse(s', c)
  }

  function AfterReserve(s: State, c: nat, o: Reservation): State
    requires c < |s.cmds| && s.cmds[c].pc.AtReserve?
  {
    var id, now := s.cmds[c].id, s.cmds[c].pc.now;
    match o
    case InsertFails => Refuse(s, c)
    case DeleteFails => AfterDeleteFailed(s, c)
    case Written =>
      var (t, dup) := Reserve(s.table, id, now);
      if dup then Refuse(s, c) else AfterWrite(s, c, t)
  }

  /** The id is reserved and the table is t. */
  function AfterWrite(s: State, c: nat, t: Table): State
    requires c < |s.cmds| && s.cmds[c].pc.AtReserve?
  {
    Goto(s.(table := t, ledger := Insert(s.ledger, s.cmds[c].id, s.cmds[c].pc.now)), c, Reserved(s.cmds[c].pc.now))
  }

  /** The row is in the table, but the statement after it failed. */
  function AfterDeleteFailed(s: State, c: nat): State
    requires c < |s.cmds| && s.cmds[c].pc.AtReserve?
  {
    var id, now := s.cmds[c].id, s.cmds[c].pc.now;
    Refuse(s.(table := Insert(s.table, id, now), ledger := Insert(s.ledger, id, now)), c)
  }

  function MarkLast(t: Table, at: int): Table {
    if t == [] then t else t[|t| - 1 := t[|t| - 1].(dispatched := Some(at))]
  }

  function AfterDeliver(s: State, c: nat, at: int, marked: bool): State
    requires c < |s.cmds|
  {
    Goto(s.(sends := s.sends + [at], clock := at,
            table := if marked then DispatchedAt(s.table, s.cmds[c].id, at) else s.table,
            ledger := if marked then MarkLast(s.ledger, at) else s.ledger,
            log := s.log + [HandOver(at, Max(|s.ledger| - 1, 0))]), c, InFlight)
  }

  function Reload(s: State, now: int, later: int, readOk: bool): seq<int> {
    Clamp(if readOk then RecentSends(s.table, now - SEND_WINDOW) else [], later)
  }

  /** Whatever the clock did, a process starts with an ascending list, so that FloorIff holds of it. */
  lemma ReloadAscends(s: State, now: int, later: int, readOk: bool)
    ensures Ascending(Reload(s, now, later, readOk)) && AtMost(Reload(s, now, later, readOk), later)
  {
    RecentSendsAscend(s.table, now - SEND_WINDOW, 0);
    ClampSorted(if readOk then RecentSends(s.table, now - SEND_WINDOW) else [], later);
    ClampNotFuture(if readOk then RecentSends(s.table, now - SEND_WINDOW) else [], later);
  }

  function Apply(s: State, a: Action): State
    requires Enabled(s, a)
  {
    match a
    case NewCommand(id) => s.(cmds := s.cmds + [Cmd(id, Started, false, false)])
    case NotReady(c) => Goto(s, c, Ended)
    case TakeSlot(c) => AfterTake(s, c)
    case Check(c, chatKnown, readOk) => AfterCheck(s, c, chatKnown, readOk)
    case AskBackstop(c, now) => AfterBackstop(s, c, now)
    case ReserveId(c, o) => AfterReserve(s, c, o)
    case Deliver(c, at, marked) => AfterDeliver(s, c, at, marked)
    case Release(c) => Refuse(s, c)
    case Panic(c) => Goto(s, c, Deferred)
    case RunDeferred(c) => Goto(Free(s, c), c, Ended)
    case Restart(now, later, readOk) =>
      s.(clock := later, sending := false, sends := Reload(s, now, later, readOk), cmds := [])
  }

  ghost predicate IsRun(states: seq<State>, actions: seq<Action>) {
    && |states| == |actions| + 1
    && (exists clock :: states[0] == Initial(clock))
    && forall i :: 0 <= i < |actions| ==> Enabled(states[i], actions[i]) && states[i + 1] == Apply(states[i], actions[i])
  }

  // ---------- The slot, whatever the clock does ----------

  predicate Holds(s: State, c: nat) { c < |s.cmds| && s.cmds[c].took && !s.cmds[c].freed }

  predicate CmdOk(k: Cmd) {
    && (k.pc.Started? ==> !k.took && !k.freed)
    && (Working(k.pc) ==> k.took && !k.freed)
    && (k.pc.Deferred? ==> k.took)
    && (k.pc.Ended? && k.took ==> k.freed)
  }

  /** The flag is set exactly while one command has taken it and not yet run its Once. */
  ghost predicate SlotOk(s: State) {
    && (forall c :: 0 <= c < |s.cmds| ==> CmdOk(s.cmds[c]))
    && (forall c: nat, d: nat :: Holds(s, c) && Holds(s, d) ==> c == d)
    && (s.sending <==> exists c: nat :: Holds(s, c))
  }

  lemma FreeKeepsSlot(s: State, c: nat, pc: Pc)
    requires SlotOk(s) && c < |s.cmds| && s.cmds[c].took && (pc.Deferred? || pc.Ended?)
    ensures SlotOk(Goto(Free(s, c), c, pc))
  {
    var s' := Goto(Free(s, c), c, pc);
    assert forall d: nat :: d != c ==> (Holds(s', d) <==> Holds(s, d));
    if Holds(s, c) {
      assert forall d: nat :: d != c ==> !Holds(s, d);
    } else {
      assert s'.sending == s.sending;
    }
  }

  lemma GotoKeepsSlot(s: State, s': State, c: nat, pc: Pc)
    requires SlotOk(s) && c < |s.cmds| && s'.cmds == s.cmds[c := s.cmds[c].(pc := pc)] && s'.sending == s.sending
    requires CmdOk(s.cmds[c].(pc := pc))
    ensures SlotOk(s')
  {
    assert forall d: nat :: Holds(s', d) <==> Holds(s, d);
  }

  lemma TakeKeepsSlot(s: State, c: nat)
    requires SlotOk(s) && At(s, c, Started)
    ensures SlotOk(AfterTake(s, c))
  {
    var s' := AfterTake(s, c);
    if s.sending {
      GotoKeepsSlot(s, s', c, Ended);
    } else {
      assert Holds(s', c);
      assert forall d: nat :: d != c ==> (Holds(s', d) <==> Holds(s, d));
    }
  }

  lemma NewKeepsSlot(s: State, id: string)
    requires SlotOk(s)
    ensures SlotOk(Apply(s, NewCommand(id)))
  {
    assert forall d: nat :: Holds(Apply(s, NewCommand(id)), d) <==> Holds(s, d);
  }

  lemma RefuseKeepsSlot(s: State, s0: State, c: nat)
    requires SlotOk(s) && s0.cmds == s.cmds && s0.sending == s.sending
    requires c < |s.cmds| && s.cmds[c].took
    ensures SlotOk(Refuse(s0, c))
  {
    assert forall d: nat :: Holds(s0, d) <==> Holds(s, d);
    FreeKeepsSlot(s0, c, Deferred);
  }

  lemma StepKeepsSlot(s: State, a: Action)
    requires SlotOk(s) && Enabled(s, a)
    ensures SlotOk(Apply(s, a))
  {
    var s' := Apply(s, a);
    match a
    case NewCommand(id) => NewKeepsSlot(s, id);
    case NotReady(c) => GotoKeepsSlot(s, s', c, Ended);
    case TakeSlot(c) => TakeKeepsSlot(s, c);
    case Check(c, chatKnown, readOk) => CheckKeepsSlot(s, c, chatKnown, readOk);
    case AskBackstop(c, now) => BackstopKeepsSlot(s, c, now);
    case ReserveId(c, o) => ReserveKeepsSlot(s, c, o);
    case Deliver(c, _, _) => GotoKeepsSlot(s, s', c, InFlight);
    case Release(c) => RefuseKeepsSlot(s, s, c);
    case Panic(c) => GotoKeepsSlot(s, s', c, Deferred);
    case RunDeferred(c) => FreeKeepsSlot(s, c, Ended);
    case Restart(_, _, _) => assert forall d: nat :: !Holds(s', d);
  }

  lemma CheckKeepsSlot(s: State, c: nat, chatKnown: bool, readOk: bool)
    requires SlotOk(s) && At(s, c, Checking)
    ensures SlotOk(AfterCheck(s, c, chatKnown, readOk))
  {
    if !chatKnown || !readOk || Known?(s, c) {
      RefuseKeepsSlot(s, s, c);
    } else {
      GotoKeepsSlot(s, AfterCheck(s, c, chatKnown, readOk), c, AtBackstop);
    }
  }

  lemma BackstopKeepsSlot(s: State, c: nat, now: int)
    requires SlotOk(s) && At(s, c, AtBackstop)
    ensures SlotOk(AfterBackstop(s, c, now))
  {
    if Allows(s.sends, now) {
      GotoKeepsSlot(s, AfterBackstop(s, c, now), c, AtReserve(now));
    } else {
      RefuseKeepsSlot(s, s.(sends := Kept(s.sends, now), clock := now), c);
    }
  }

  lemma ReserveKeepsSlot(s: State, c: nat, o: Reservation)
    requires SlotOk(s) && Enabled(s, ReserveId(c, o))
    ensures SlotOk(AfterReserve(s, c, o))
  {
    var id, now := s.cmds[c].id, s.cmds[c].pc.now;
    var s' := AfterReserve(s, c, o);
    if o.Written? && !Reserve(s.table, id, now).1 {
      GotoKeepsSlot(s, s', c, Reserved(now));
    } else if o.DeleteFails? {
      RefuseKeepsSlot(s, s.(table := Insert(s.table, id, now), ledger := Insert(s.ledger, id, now)), c);
    } else {
      RefuseKeepsSlot(s, s, c);
    }
  }

  /** In every state of every run, with any clock, panics and restarts, the flag tells the one owner. */
  lemma {:induction false} SlotHasOneOwner(states: seq<State>, actions: seq<Action>, i: nat)
    requires IsRun(states, actions) && i < |states|
    ensures SlotOk(states[i])
  {
    if i > 0 {
      SlotHasOneOwner(states, actions, i - 1);
      assert Enabled(states[i - 1], actions[i - 1]);
      StepKeepsSlot(states[i - 1], actions[i - 1]);
    } else {
      assert forall d: nat :: !Holds(states[0], d);
    }
  }

  /** The command an action belongs to. */
  function Actor(a: Action): Option<nat> {
    match a
    case NewCommand(_) => None
    case NotReady(c) => Some(c)
    case TakeSlot(c) => Some(c)
    case Check(c, _, _) => Some(c)
    case AskBackstop(c, _) => Some(c)
    case ReserveId(c, _) => Some(c)
    case Deliver(c, _, _) => Some(c)
    case Release(c) => Some(c)
    case Panic(c) => Some(c)
    case RunDeferred(c) => Some(c)
    case Restart(_, _, _) => None
  }

  /**
   Nothing another command does, its stale second release included, frees the
   slot of the command that owns it, and no other command changes the backstop
   list, the table or the log meanwhile.
   */
  lemma OwnerIsUndisturbed(s: State, a: Action, c: nat)
    requires SlotOk(s) && Enabled(s, a) && Holds(s, c) && Actor(a) != Some(c) && !a.Restart?
    ensures Holds(Apply(s, a), c) && Apply(s, a).sending
    ensures Apply(s, a).cmds[c] == s.cmds[c]
    ensures Apply(s, a).sends == s.sends && Apply(s, a).table == s.table && Apply(s, a).log == s.log
    ensures Apply(s, a).ledger == s.ledger && Apply(s, a).clock == s.clock
  {
    if Actor(a).Some? {
      var d := Actor(a).value;
      assert !Holds(s, d);
      assert CmdOk(s.cmds[d]);
    }
  }

  /** How many steps of its own a command has left at most. */
  function StepsLeft(pc: Pc): nat {
    match pc
    case Started => 7
    case Checking => 6
    case AtBackstop => 5
    case AtReserve(_) => 4
    case Reserved(_) => 3
    case InFlight => 2
    case Deferred => 1
    case Ended => 0
  }

  function NextOf(s: State, c: nat): Action
    requires c < |s.cmds|
  {
    match s.cmds[c].pc
    case Started => TakeSlot(c)
    case Checking => Check(c, true, true)
    case AtBackstop => AskBackstop(c, s.clock)
    case AtReserve(_) => ReserveId(c, Written)
    case Reserved(_) => Deliver(c, s.clock, true)
    case InFlight => Release(c)
    case _ => RunDeferred(c)
  }

  lemma ReserveCountsDown(s: State, c: nat, o: Reservation)
    requires Enabled(s, ReserveId(c, o))
    ensures StepsLeft(AfterReserve(s, c, o).cmds[c].pc) < StepsLeft(s.cmds[c].pc)
  {
    var id, now := s.cmds[c].id, s.cmds[c].pc.now;
    RefuseShape(s, c);
    RefuseShape(s.(table := Insert(s.table, id, now), ledger := Insert(s.ledger, id, now)), c);
  }

  /** Each step of its own brings a command nearer to its end. */
  lemma OwnStepsCountDown(s: State, a: Action, c: nat)
    requires SlotOk(s) && c < |s.cmds| && Enabled(s, a) && Actor(a) == Some(c)
    ensures StepsLeft(Apply(s, a).cmds[c].pc) < StepsLeft(s.cmds[c].pc)
  {
    RefuseShape(s, c);
    if a.ReserveId? {
      ReserveCountsDown(s, c, a.outcome);
    } else if a.AskBackstop? {
      RefuseShape(s.(sends := Kept(s.sends, a.now), clock := a.now), c);
    }
  }

  /** On every path a command always has a next step until it has ended, and by then it has given the slot back. */
  lemma EveryPathGivesBack(s: State, c: nat)
    requires SlotOk(s) && c < |s.cmds|
    ensures !s.cmds[c].pc.Ended? ==> Enabled(s, NextOf(s, c)) && Actor(NextOf(s, c)) == Some(c)
    ensures s.cmds[c].pc.Ended? ==> !Holds(s, c)
  {
    assert CmdOk(s.cmds[c]);
  }

  /** Command c goes on alone until it has ended. */
  ghost function RunOut(s: State, c: nat): State
    requires SlotOk(s) && c < |s.cmds|
    decreases if c < |s.cmds| then StepsLeft(s.cmds[c].pc) else 0
  {
    if s.cmds[c].pc.Ended? then s
    else
      OwnStep(s, c);
      RunOut(Apply(s, NextOf(s, c)), c)
  }

  lemma OwnStep(s: State, c: nat)
    requires SlotOk(s) && c < |s.cmds| && !s.cmds[c].pc.Ended?
    ensures Enabled(s, NextOf(s, c)) && SlotOk(Apply(s, NextOf(s, c)))
    ensures |Apply(s, NextOf(s, c)).cmds| == |s.cmds|
    ensures StepsLeft(Apply(s, NextOf(s, c)).cmds[c].pc) < StepsLeft(s.cmds[c].pc)
    ensures forall d :: 0 <= d < |s.cmds| && d != c ==> Apply(s, NextOf(s, c)).cmds[d] == s.cmds[d]
  {
    EveryPathGivesBack(s, c);
    StepKeepsSlot(s, NextOf(s, c));
    OwnStepsCountDown(s, NextOf(s, c), c);
  }

  /** From any point a command that is left alone ends; if it owned the slot, the slot is free then. */
  lemma {:induction false} LeftAloneFreesTheSlot(s: State, c: nat)
    requires SlotOk(s) && c < |s.cmds|
    ensures |RunOut(s, c).cmds| == |s.cmds| && RunOut(s, c).cmds[c].pc.Ended? && SlotOk(RunOut(s, c))
    ensures forall d :: 0 <= d < |s.cmds| && d != c ==> RunOut(s, c).cmds[d] == s.cmds[d]
    ensures Holds(s, c) ==> !RunOut(s, c).sending
    decreases StepsLeft(s.cmds[c].pc)
  {
    if s.cmds[c].pc.Ended? {
      EveryPathGivesBack(s, c);
    } else {
      OwnStep(s, c);
      LeftAloneFreesTheSlot(Apply(s, NextOf(s, c)), c);
    }
    if Holds(s, c) {
      NobodyElseOwns(s, RunOut(s, c), c);
    }
  }

  lemma NobodyElseOwns(s: State, s': State, c: nat)
    requires SlotOk(s) && SlotOk(s') && Holds(s, c) && |s'.cmds| == |s.cmds| && s'.cmds[c].pc.Ended?
    requires forall d :: 0 <= d < |s.cmds| && d != c ==> s'.cmds[d] == s.cmds[d]
    ensures !s'.sending
  {
    EveryPathGivesBack(s', c);
    forall d: nat ensures !Holds(s', d) {
      if d < |s.cmds| && d != c {
        assert Holds(s', d) == Holds(s, d);
      }
    }
  }

  // ---------- The table, with reservation times that do not go back ----------

  predicate Differ(t: Table, i: nat, j: nat)
    requires i < |t| && j < |t|
  {
    t[i].id != t[j].id
  }

  ghost predicate Distinct(t: Table) { forall i, j :: 0 <= i < j < |t| ==> Differ(t, i, j) }

  /** More than OUTBOX_KEEP - 1 other reservations lie between two of one id. */
  ghost predicate FarApart(ledger: Table) {
    forall p, q :: 0 <= p < q < |ledger| && q - p <= OUTBOX_KEEP ==> Differ(ledger, p, q)
  }

  /** The table is the end of the ledger, at least the last OUTBOX_KEEP reservations of it. */
  ghost predicate IsEnd(t: Table, ledger: Table) {
    && |ledger| >= |t| >= Min(|ledger|, OUTBOX_KEEP)
    && forall i :: 0 <= i < |t| ==> t[i] == ledger[|ledger| - |t| + i]
  }

  ghost predicate TableOk(t: Table, ledger: Table) {
    IsEnd(t, ledger) && InOrder(ledger) && FarApart(ledger) && Distinct(t)
  }

  lemma NewDiffers(t: Table, id: string, now: int, i: nat)
    requires !Known(t, id) && i < |t|
    ensures Differ(Insert(t, id, now), i, |t|)
  {
  }

  lemma InsertDistinct(t: Table, id: string, now: int)
    requires Distinct(t) && !Known(t, id)
    ensures Distinct(Insert(t, id, now))
  {
    var u := Insert(t, id, now);
    forall i, j | 0 <= i < j < |u| ensures Differ(u, i, j) {
      if j < |t| {
        assert Differ(t, i, j);
      } else {
        NewDiffers(t, id, now, i);
      }
    }
  }

  lemma InsertFarApart(t: Table, ledger: Table, id: string, now: int)
    requires IsEnd(t, ledger) && FarApart(ledger) && !Known(t, id)
    ensures FarApart(Insert(ledger, id, now))
  {
    var u := Insert(ledger, id, now);
    forall p, q | 0 <= p < q < |u| && q - p <= OUTBOX_KEEP ensures Differ(u, p, q) {
      if q < |ledger| {
        assert Differ(ledger, p, q);
      } else {
        assert ledger[p] == t[p - (|ledger| - |t|)];
      }
    }
  }

  lemma EndInOrder(t: Table, ledger: Table, now: int)
    requires IsEnd(t, ledger) && InOrder(ledger) && LastBy(ledger, now)
    ensures InOrder(t) && LastBy(t, now)
  {
    forall i, j | 0 <= i < j < |t| ensures NotAfter(t, i, j) {
      assert NotAfter(ledger, |ledger| - |t| + i, |ledger| - |t| + j);
    }
  }

  lemma InsertKeepsTable(t: Table, ledger: Table, id: string, now: int)
    requires TableOk(t, ledger) && LastBy(ledger, now) && !Known(t, id)
    ensures TableOk(Insert(t, id, now), Insert(ledger, id, now))
  {
    InsertInOrder(ledger, id, now);
    InsertFarApart(t, ledger, id, now);
    InsertDistinct(t, id, now);
  }

  lemma TrimKeepsTable(t: Table, ledger: Table)
    requires TableOk(t, ledger)
    ensures TableOk(LastRows(t, OUTBOX_KEEP), ledger)
  {
    var u := LastRows(t, OUTBOX_KEEP);
    assert u == ledger[|ledger| - |u|..];
    forall i, j | 0 <= i < j < |u| ensures Differ(u, i, j) {
      assert Differ(t, |t| - |u| + i, |t| - |u| + j);
    }
  }

  /** A reservation reports a duplicate exactly for an id in the table, and otherwise keeps the table the end of the ledger. */
  lemma ReserveKeepsTable(t: Table, ledger: Table, id: string, now: int)
    requires TableOk(t, ledger) && LastBy(ledger, now)
    ensures Reserve(t, id, now).1 <==> Known(t, id)
    ensures !Known(t, id) ==> TableOk(Reserve(t, id, now).0, Insert(ledger, id, now))
    ensures !Known(t, id) ==> |Reserve(t, id, now).0| == Min(|t| + 1, OUTBOX_KEEP)
  {
    if !Known(t, id) {
      EndInOrder(t, ledger, now);
      ReserveInOrder(t, id, now);
      InsertKeepsTable(t, ledger, id, now);
      TrimKeepsTable(Insert(t, id, now), Insert(ledger, id, now));
    }
  }

  lemma MarkIsLast(t: Table, id: string, at: int)
    requires Distinct(t) && t != [] && t[|t| - 1].id == id
    ensures DispatchedAt(t, id, at) == MarkLast(t, at)
  {
    forall i | 0 <= i < |t| - 1 ensures t[i].id != id {
      assert Differ(t, i, |t| - 1);
    }
  }

  lemma MarkLastKeeps(t: Table, at: int)
    ensures InOrder(t) ==> InOrder(MarkLast(t, at))
    ensures FarApart(t) ==> FarApart(MarkLast(t, at))
    ensures Distinct(t) ==> Distinct(MarkLast(t, at))
  {
    var u := MarkLast(t, at);
    forall i, j | 0 <= i < j < |u| ensures NotAfter(u, i, j) == NotAfter(t, i, j) && Differ(u, i, j) == Differ(t, i, j) {
    }
  }

  lemma MarkLastIsEnd(t: Table, ledger: Table, at: int)
    requires IsEnd(t, ledger) && ledger != []
    ensures IsEnd(MarkLast(t, at), MarkLast(ledger, at))
  {
  }

  lemma MarkKeepsTable(t: Table, ledger: Table, id: string, at: int)
    requires TableOk(t, ledger) && ledger != [] && ledger[|ledger| - 1].id == id
    ensures TableOk(DispatchedAt(t, id, at), MarkLast(ledger, at))
  {
    assert t[|t| - 1] == ledger[|ledger| - 1];
    MarkIsLast(t, id, at);
    MarkLastKeeps(t, at);
    MarkLastKeeps(ledger, at);
    MarkLastIsEnd(t, ledger, at);
  }

  // ---------- The log against the ledger ----------

  predicate Earlier(log: seq<HandOver>, i: nat, j: nat)
    requires i < |log| && j < |log|
  {
    log[i].res < log[j].res
  }

  predicate MarkOk(ledger: Table, log: seq<HandOver>, p: nat)
    requires p < |ledger|
  {
    ledger[p].dispatched.Some? ==> HandOver(ledger[p].dispatched.value, p) in log
  }

  /** Hand-overs come in the order of their reservations, one each, and a marked row bears the time of its own. */
  ghost predicate LogOk(ledger: Table, log: seq<HandOver>) {
    && (forall i :: 0 <= i < |log| ==> log[i].res < |ledger|)
    && (forall i, j :: 0 <= i < j < |log| ==> Earlier(log, i, j))
    && (forall p :: 0 <= p < |ledger| ==> MarkOk(ledger, log, p))
  }

  lemma InsertKeepsLog(ledger: Table, log: seq<HandOver>, id: string, now: int)
    requires LogOk(ledger, log)
    ensures LogOk(Insert(ledger, id, now), log)
  {
    var u := Insert(ledger, id, now);
    forall p | 0 <= p < |u| ensures MarkOk(u, log, p) {
      assert p < |ledger| ==> MarkOk(ledger, log, p);
    }
  }

  predicate Fresh(ledger: Table, log: seq<HandOver>, id: string) {
    && ledger != []
    && ledger[|ledger| - 1].id == id
    && (log != [] ==> log[|log| - 1].res < |ledger| - 1)
  }

  lemma DeliverKeepsLog(ledger: Table, log: seq<HandOver>, id: string, at: int, marked: bool)
    requires LogOk(ledger, log) && Fresh(ledger, log, id)
    ensures LogOk(if marked then MarkLast(ledger, at) else ledger, log + [HandOver(at, |ledger| - 1)])
  {
    var u := if marked then MarkLast(ledger, at) else ledger;
    var h := HandOver(at, |ledger| - 1);
    var l := log + [h];
    forall p | 0 <= p < |u| ensures MarkOk(u, l, p) {
      assert MarkOk(ledger, log, p);
      assert l[|log|] == h;
    }
    forall i, j | 0 <= i < j < |l| ensures Earlier(l, i, j) {
      if j < |log| {
        assert Earlier(log, i, j);
      } else if i < |log| - 1 {
        assert Earlier(log, i, |log| - 1);
      }
    }
  }

  predicate CmdLedger(s: State, k: Cmd) {
    && (k.pc.AtReserve? ==> LastBy(s.ledger, k.pc.now) && k.pc.now <= s.clock)
    && (k.pc.Reserved? ==> Fresh(s.ledger, s.log, k.id) && k.pc.now <= s.clock)
  }

  ghost predicate LedgerOk(s: State) {
    && TableOk(s.table, s.ledger)
    && LogOk(s.ledger, s.log)
    && LastBy(s.ledger, s.clock)
    && forall c :: 0 <= c < |s.cmds| ==> CmdLedger(s, s.cmds[c])
  }

  /** The clock readings of an action, in order. */
  function Readings(a: Action): seq<int> {
    match a
    case AskBackstop(_, now) => [now]
    case Deliver(_, at, _) => [at]
    case Restart(now, later, _) => [now, later]
    case _ => []
  }

  /** No reading of the clock lies before an earlier one. */
  predicate StepForward(s: State, a: Action) {
    var r := Readings(a);
    (|r| >= 1 ==> s.clock <= r[0]) && (|r| == 2 ==> r[0] <= r[1])
  }

  ghost predicate ClockForward(states: seq<State>, actions: seq<Action>)
    requires |states| == |actions| + 1
  {
    forall i :: 0 <= i < |actions| ==> StepForward(states[i], actions[i])
  }

  /** Of no other command is anything known between check and hand-over. */
  ghost predicate Alone(s: State, c: nat) {
    c < |s.cmds| && forall d :: 0 <= d < |s.cmds| && d != c ==> Between(s.cmds[d]) == false
  }

  predicate Between(k: Cmd) { k.pc.AtReserve? || k.pc.Reserved? }

  lemma OwnerIsAlone(s: State, c: nat)
    requires SlotOk(s) && Holds(s, c)
    ensures Alone(s, c)
  {
    forall d | 0 <= d < |s.cmds| && d != c ensures Between(s.cmds[d]) == false {
      assert CmdOk(s.cmds[d]);
      assert !Holds(s, d);
    }
  }

  lemma OwnStepKeepsLedger(s: State, s': State, c: nat, k: Cmd)
    requires Alone(s, c) && s'.cmds == s.cmds[c := k] && CmdLedger(s', k)
    requires TableOk(s'.table, s'.ledger) && LogOk(s'.ledger, s'.log) && LastBy(s'.ledger, s'.clock)
    ensures LedgerOk(s')
  {
    forall d | 0 <= d < |s'.cmds| ensures CmdLedger(s', s'.cmds[d]) {
      if d != c {
        assert Between(s.cmds[d]) == false;
      }
    }
  }

  lemma AnswerKeepsLedger(s: State, c: nat, now: int, kept: seq<int>, allowed: bool)
    requires Alone(s, c) && LedgerOk(s) && At(s, c, AtBackstop) && s.clock <= now
    ensures LedgerOk(AfterAnswer(s, c, now, kept, allowed))
  {
    var s' := AfterAnswer(s, c, now, kept, allowed);
    RefuseShape(s.(sends := kept, clock := now), c);
    OwnStepKeepsLedger(s, s', c, s'.cmds[c]);
  }

  lemma BackstopKeepsLedger(s: State, c: nat, now: int)
    requires Alone(s, c) && LedgerOk(s) && At(s, c, AtBackstop) && s.clock <= now
    ensures LedgerOk(AfterBackstop(s, c, now))
  {
    AnswerKeepsLedger(s, c, now, Kept(s.sends, now), Allows(s.sends, now));
  }

  /** The owner's reservation is in the ledger, whatever became of the trimming of the table. */
  lemma InsertedKeepsLedger(s: State, s': State, c: nat, k: Cmd)
    requires Alone(s, c) && LedgerOk(s) && s.cmds[c].pc.AtReserve?
    requires s'.ledger == Insert(s.ledger, s.cmds[c].id, s.cmds[c].pc.now) && TableOk(s'.table, s'.ledger)
    requires s'.log == s.log && s'.clock == s.clock && s'.cmds == s.cmds[c := k]
    requires k.pc.Deferred? || (k.id == s.cmds[c].id && k.pc == Reserved(s.cmds[c].pc.now))
    ensures LedgerOk(s')
  {
    assert CmdLedger(s, s.cmds[c]);
    InsertKeepsLog(s.ledger, s.log, s.cmds[c].id, s.cmds[c].pc.now);
    OwnStepKeepsLedger(s, s', c, k);
  }

  lemma WriteKeepsLedger(s: State, c: nat, t: Table)
    requires Alone(s, c) && LedgerOk(s) && s.cmds[c].pc.AtReserve?
    requires TableOk(t, Insert(s.ledger, s.cmds[c].id, s.cmds[c].pc.now))
    ensures LedgerOk(AfterWrite(s, c, t))
  {
    var s' := AfterWrite(s, c, t);
    InsertedKeepsLedger(s, s', c, s'.cmds[c]);
  }

  lemma DeleteFailedKeepsLedger(s: State, c: nat)
    requires Alone(s, c) && LedgerOk(s) && s.cmds[c].pc.AtReserve? && !Known?(s, c)
    ensures LedgerOk(AfterDeleteFailed(s, c))
  {
    var id, now := s.cmds[c].id, s.cmds[c].pc.now;
    assert CmdLedger(s, s.cmds[c]);
    InsertKeepsTable(s.table, s.ledger, id, now);
    RefuseShape(s.(table := Insert(s.table, id, now), ledger := Insert(s.ledger, id, now)), c);
    InsertedKeepsLedger(s, AfterDeleteFailed(s, c), c, AfterDeleteFailed(s, c).cmds[c]);
  }

  lemma ReserveKeepsLedger(s: State, c: nat, o: Reservation)
    requires Alone(s, c) && LedgerOk(s) && Enabled(s, ReserveId(c, o))
    ensures LedgerOk(AfterReserve(s, c, o))
  {
    if o.DeleteFails? {
      DeleteFailedKeepsLedger(s, c);
    } else if o.Written? && !Known?(s, c) {
      assert CmdLedger(s, s.cmds[c]);
      ReserveKeepsTable(s.table, s.ledger, s.cmds[c].id, s.cmds[c].pc.now);
      WriteKeepsLedger(s, c, Reserve(s.table, s.cmds[c].id, s.cmds[c].pc.now).0);
    } else {
      QuietKeepsLedger(s, Refuse(s, c));
    }
  }

  lemma DeliverKeepsLedger(s: State, c: nat, at: int, marked: bool)
    requires Alone(s, c) && LedgerOk(s) && Enabled(s, Deliver(c, at, marked)) && s.clock <= at
    ensures LedgerOk(AfterDeliver(s, c, at, marked))
  {
    var id := s.cmds[c].id;
    assert CmdLedger(s, s.cmds[c]);
    DeliverKeepsLog(s.ledger, s.log, id, at, marked);
    if marked {
      MarkKeepsTable(s.table, s.ledger, id, at);
    }
    var s' := AfterDeliver(s, c, at, marked);
    OwnStepKeepsLedger(s, s', c, s'.cmds[c]);
  }

  /** Command d is as it was, or nothing is known of it between check and hand-over. */
  predicate Settled(s: State, s': State, d: nat)
    requires d < |s'.cmds|
  {
    (d < |s.cmds| && s'.cmds[d] == s.cmds[d]) || (!s'.cmds[d].pc.AtReserve? && !s'.cmds[d].pc.Reserved?)
  }

  lemma QuietKeepsLedger(s: State, s': State)
    requires LedgerOk(s)
    requires s'.table == s.table && s'.ledger == s.ledger && s'.log == s.log && s'.clock == s.clock
    requires forall d :: 0 <= d < |s'.cmds| ==> Settled(s, s', d)
    ensures LedgerOk(s')
  {
    forall d | 0 <= d < |s'.cmds| ensures CmdLedger(s', s'.cmds[d]) {
      assert Settled(s, s', d);
    }
  }

  predicate Quiet(a: Action) { !a.AskBackstop? && !a.ReserveId? && !a.Deliver? && !a.Restart? }

  lemma QuietIsSettled(s: State, a: Action)
    requires Enabled(s, a) && Quiet(a)
    ensures Apply(s, a).table == s.table && Apply(s, a).ledger == s.ledger && Apply(s, a).log == s.log
    ensures Apply(s, a).clock == s.clock && Apply(s, a).sends == s.sends
    ensures forall d :: 0 <= d < |Apply(s, a).cmds| ==> Settled(s, Apply(s, a), d)
  {
  }

  lemma StepKeepsLedger(s: State, a: Action)
    requires SlotOk(s) && LedgerOk(s) && Enabled(s, a) && StepForward(s, a)
    ensures LedgerOk(Apply(s, a))
  {
    if Quiet(a) {
      QuietIsSettled(s, a);
      QuietKeepsLedger(s, Apply(s, a));
    } else if !a.Restart? {
      WorkingOwns(s, a.c);
      OwnerIsAlone(s, a.c);
      match a
      case AskBackstop(c, now) => BackstopKeepsLedger(s, c, now);
      case ReserveId(c, o) => ReserveKeepsLedger(s, c, o);
      case Deliver(c, at, marked) => DeliverKeepsLedger(s, c, at, marked);
    }
  }

  lemma WorkingOwns(s: State, c: nat)
    requires SlotOk(s) && c < |s.cmds| && Working(s.cmds[c].pc)
    ensures Holds(s, c)
  {
    assert CmdOk(s.cmds[c]);
  }

  /** Over every run with a clock that does not go back, restarts and failed writes included, the table is the end of the ledger. */
  lemma {:induction false} TableIsEndOfLedger(states: seq<State>, actions: seq<Action>, i: nat)
    requires IsRun(states, actions) && ClockForward(states, actions) && i < |states|
    ensures LedgerOk(states[i])
  {
    if i > 0 {
      TableIsEndOfLedger(states, actions, i - 1);
      SlotHasOneOwner(states, actions, i - 1);
      assert Enabled(states[i - 1], actions[i - 1]);
      assert StepForward(states[i - 1], actions[i - 1]);
      StepKeepsLedger(states[i - 1], actions[i - 1]);
    }
  }

  /** Two hand-overs for one outbox id have at least OUTBOX_KEEP reservations of other sends between them. */
  lemma HandOversOfOneId(states: seq<State>, actions: seq<Action>, n: nat, i: nat, j: nat)
    requires IsRun(states, actions) && ClockForward(states, actions) && n < |states|
    requires i < j < |states[n].log|
    ensures states[n].log[i].res < states[n].log[j].res < |states[n].ledger|
    ensures states[n].ledger[states[n].log[i].res].id == states[n].ledger[states[n].log[j].res].id
            ==> states[n].log[j].res - states[n].log[i].res - 1 >= OUTBOX_KEEP
  {
    TableIsEndOfLedger(states, actions, n);
    var log, ledger := states[n].log, states[n].ledger;
    assert Earlier(log, i, j);
    if log[j].res - log[i].res <= OUTBOX_KEEP {
      assert Differ(ledger, log[i].res, log[j].res);
    }
  }

  /**
   A refused send leaves its outbox id unused except when the reservation's
   second statement failed: then the id is in the table although the client is
   told that nothing was stored.
   */
  lemma RefusalUsesTheIdIff(s: State, a: Action)
    requires Enabled(s, a) && (a.Check? || a.AskBackstop? || a.ReserveId?)
    requires Apply(s, a).cmds[a.c].pc.Deferred?
    ensures Apply(s, a).table == s.table <==> !(a.ReserveId? && a.outcome.DeleteFails?)
    ensures a.ReserveId? && a.outcome.DeleteFails? ==> !Known?(s, a.c) && Known?(Apply(s, a), a.c)
  {
    if a.ReserveId? && a.outcome.DeleteFails? {
      var t := Insert(s.table, s.cmds[a.c].id, s.cmds[a.c].pc.now);
      RefuseShape(s.(table := t, ledger := Insert(s.ledger, s.cmds[a.c].id, s.cmds[a.c].pc.now)), a.c);
      assert t[|s.table|].id == s.cmds[a.c].id;
    }
  }

  // ---------- beginSend itself ----------

  /** What the world answers to one send command. */
  datatype Inputs = Inputs(ready: bool, chatKnown: bool, readOk: bool, now: int, write: Reservation)

  /** The machine's steps of command c, nothing in between, up to the hand-over or a refusal. */
  function Begin(s: State, c: nat, x: Inputs): State
    requires At(s, c, Started)
  {
    if !x.ready then Goto(s, c, Ended)
    else
      var s1 := AfterTake(s, c);
      if s1.cmds[c].pc != Checking then s1
      else
        var s2 := AfterCheck(s1, c, x.chatKnown, x.readOk);
        if s2.cmds[c].pc != AtBackstop then s2
        else
          var s3 := AfterBackstop(s2, c, x.now);
          if !s3.cmds[c].pc.AtReserve? then s3 else AfterReserve(s3, c, x.write)
  }

  datatype Answer = Go | NotPairedOrConnected | Busy | UnknownChat | DuplicateOutboxId | RateLimitedLocal | StoreIo

  /** What send commands share. */
  datatype Shared = Shared(sending: bool, sends: seq<int>, table: Table)

  function SharedOf(s: State): Shared { Shared(s.sending, s.sends, s.table) }

  /** The answer is the first failing check in the documented order. */
  function AnswerTo(v: Shared, id: string, x: Inputs): Answer {
    if !x.ready then NotPairedOrConnected
    else if v.sending then Busy
    else if !x.chatKnown then UnknownChat
    else if !x.readOk then StoreIo
    else if Known(v.table, id) then DuplicateOutboxId
    else if !Allows(v.sends, x.now) then RateLimitedLocal
    else if !x.write.Written? then StoreIo
    else Go
  }

  /** A send run on its own gets through the machine's steps to the hand-over exactly when the answer is Go, and is left holding the slot only then. */
  lemma BeginAnswers(s: State, c: nat, x: Inputs)
    requires At(s, c, Started) && CmdOk(s.cmds[c])
    ensures Begin(s, c, x).cmds[c].pc.Reserved? <==> AnswerTo(SharedOf(s), s.cmds[c].id, x).Go?
    ensures Holds(Begin(s, c, x), c) <==> AnswerTo(SharedOf(s), s.cmds[c].id, x).Go?
  {
  }

  /** The shared state after a send that was answered so. */
  predicate Leaves(v: Shared, v': Shared, id: string, x: Inputs) {
    var answer := AnswerTo(v, id, x);
    && v'.sending == (answer.Go? || (v.sending && (answer.Busy? || answer.NotPairedOrConnected?)))
    && v'.sends == (if answer.Go? || answer.RateLimitedLocal? || (answer.StoreIo? && x.readOk) then Kept(v.sends, x.now) else v.sends)
    && v'.table == (if answer.Go? then Reserve(v.table, id, x.now).0
                    else if answer.StoreIo? && x.readOk && x.write.DeleteFails? then Insert(v.table, id, x.now)
                    else v.table)
  }

  /** Whether the send gets as far as the backstop. */
  predicate AsksBackstop(v: Shared, id: string, x: Inputs) {
    x.ready && !v.sending && x.chatKnown && x.readOk && !Known(v.table, id)
  }

  lemma EarlyRefusalLeaves(s: State, c: nat, x: Inputs)
    requires At(s, c, Started) && CmdOk(s.cmds[c]) && !AsksBackstop(SharedOf(s), s.cmds[c].id, x)
    ensures Leaves(SharedOf(s), SharedOf(Begin(s, c, x)), s.cmds[c].id, x)
  {
  }

  lemma BeginLeaves(s: State, c: nat, x: Inputs)
    requires At(s, c, Started) && CmdOk(s.cmds[c])
    ensures Leaves(SharedOf(s), SharedOf(Begin(s, c, x)), s.cmds[c].id, x)
  {
    if !AsksBackstop(SharedOf(s), s.cmds[c].id, x) {
      EarlyRefusalLeaves(s, c, x);
    } else {
      BackstopLeaves(s, c, x);
    }
  }

  lemma BackstopLeaves(s: State, c: nat, x: Inputs)
    requires At(s, c, Started) && CmdOk(s.cmds[c]) && AsksBackstop(SharedOf(s), s.cmds[c].id, x)
    ensures Leaves(SharedOf(s), SharedOf(Begin(s, c, x)), s.cmds[c].id, x)
  {
  }

  /** The shared state after a hand-over and the release that follows it. */
  function Delivered(v: Shared, id: string, at: int, marked: bool): Shared {
    Shared(false, v.sends + [at], if marked then DispatchedAt(v.table, id, at) else v.table)
  }

  /** What the machine's two steps leave of a command that holds the slot. */
  lemma DeliverLeaves(s: State, c: nat, at: int, marked: bool)
    requires Enabled(s, Deliver(c, at, marked)) && CmdOk(s.cmds[c])
    ensures SharedOf(Apply(Apply(s, Deliver(c, at, marked)), Release(c))) == Delivered(SharedOf(s), s.cmds[c].id, at, marked)
  {
    RefuseShape(AfterDeliver(s, c, at, marked), c);
  }

  class Bridge {
    var sending: bool
    const store: Store
    const limiter: Limiter

    constructor (store: Store, limiter: Limiter)
      ensures !sending && this.store == store && this.limiter == limiter
    {
      this.sending, this.store, this.limiter := false, store, limiter;
    }

    function View(): Shared
      reads this, store, limiter
    {
      Shared(sending, limiter.sends, store.rows)
    }

    /** The checks of section 6.5 of the protocol up to the backstop are passed. */
    ghost predicate ReachesBackstop(outboxId: string, x: Inputs)
      reads this, store
    {
      x.ready && !sending && x.chatKnown && x.readOk && forall i :: 0 <= i < |store.rows| ==> store.rows[i].id != outboxId
    }

    /** Leaves what the machine's steps leave (BeginLeaves), and answers as they go (BeginAnswers). */
    method BeginSend(outboxId: string, x: Inputs) returns (answer: Answer)
      modifies this, store, limiter
      // Each answer, exactly when.
      ensures answer == NotPairedOrConnected <==> !x.ready
      ensures answer == Busy <==> x.ready && old(sending)
      ensures answer == UnknownChat <==> x.ready && !old(sending) && !x.chatKnown
      ensures answer == DuplicateOutboxId <==>
                x.ready && !old(sending) && x.chatKnown && x.readOk &&
                exists i :: 0 <= i < |old(store.rows)| && old(store.rows)[i].id == outboxId
      ensures answer == RateLimitedLocal <==> old(ReachesBackstop(outboxId, x)) && !Allows(old(limiter.sends), x.now)
      ensures answer == StoreIo <==>
                || (x.ready && !old(sending) && x.chatKnown && !x.readOk)
                || (old(ReachesBackstop(outboxId, x)) && Allows(old(limiter.sends), x.now) && !x.write.Written?)
      // What is left of the slot, the list and the table.
      ensures sending <==> old(sending) || answer == Go
      ensures limiter.sends == if old(ReachesBackstop(outboxId, x)) then Kept(old(limiter.sends), x.now) else old(limiter.sends)
      ensures store.rows ==
                if answer == Go then Reserve(old(store.rows), outboxId, x.now).0
                else if answer == StoreIo && x.readOk && x.write.DeleteFails? then old(store.rows) + [Row(outboxId, x.now, None)]
                else old(store.rows)
      // The machine's view of the same.
      ensures answer == AnswerTo(old(View()), outboxId, x)
      ensures Leaves(old(View()), View(), outboxId, x)
    {
      if !x.ready {
        return NotPairedOrConnected;
      }
      if sending {
        return Busy;
      }
      sending := true;
      if !x.chatKnown {
        sending := false;
        return UnknownChat;
      }
      var known := store.OutboxKnown(outboxId);
      if !x.readOk || known {
        sending := false;
        return if x.readOk then DuplicateOutboxId else StoreIo;
      }
      var allowed := limiter.BackstopAllows(x.now);
      if !allowed {
        sending := false;
        return RateLimitedLocal;
      }
      var dup, ok := store.ReserveOutbox(outboxId, x.now, x.write);
      if !ok || dup {
        sending := false;
        return if ok then DuplicateOutboxId else StoreIo;
      }
      return Go;
    }

    /** deliver, whatever WhatsApp answers: it leaves what the machine's steps leave (DeliverLeaves). */
    method Deliver(outboxId: string, at: int, marked: bool)
      modifies this, store, limiter
      ensures !sending && limiter.sends == old(limiter.sends) + [at]
      ensures View() == Delivered(old(View()), outboxId, at, marked)
    {
      limiter.RecordSend(at);
      store.MarkDispatched(outboxId, at, marked);
      sending := false;
    }
  }
}
