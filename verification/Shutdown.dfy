/**
 How the bridge stops (Stop, goSafe, loggedOutBy, changeState and exit of
 internal/wa/bridge.go, and the end of run): the main thread, any number of
 goroutines that Stop waits for, and any number of whatsmeow event handlers it
 does not wait for, in every interleaving of their critical sections.
 */
module Shutdown {
  import opened Prelude
  import Writer
  import StoreLock

  const STOPPED := "stopped"
  const EXIT_OK := 0
  const EXIT_STORE_KEY := 3
  const EXIT_STORE_LOCKED := 4
  const EXIT_CLIENT_OUTDATED := 5
  const EXIT_NO_INIT := 6
  const EXIT_LOGGED_OUT := 7

  datatype Logout = Logout(reason: string, code: int, replyTo: string)

  datatype Line =
    | Event(text: string)
    | Status(state: string)
    | StoreIoError
    | LoggedOutLine(reason: string, code: int)
    | OkLogout(replyTo: string)
    | OkShutdown(replyTo: string)

  // ---------- The mutex-guarded fields of the bridge ----------

  datatype Fields = Fields(stopped: bool, session: bool, loggedOut: Option<Logout>, state: string, fatal: Option<int>)

  /** exit: the first request wins. */
  function Asked(b: Fields, code: int): Fields { if b.fatal.Some? then b else b.(fatal := Some(code)) }

  /** goSafe starts nothing once Stop has begun. */
  predicate Admits(b: Fields) { !b.stopped }

  function StopBegun(b: Fields): Fields { b.(stopped := true) }

  function WithState(b: Fields, v: string): Fields { b.(state := v) }

  /** The locked section of loggedOutBy, for the one session the bridge ever has: the first logout counts. */
  predicate Unlinks(b: Fields) { b.session && b.loggedOut.None? }

  function Recorded(b: Fields, lo: Logout): Fields { if Unlinks(b) then b.(loggedOut := Some(lo)) else b }

  class Bridge {
    var stopped: bool
    var session: bool
    var loggedOut: Option<Logout>
    var state: string
    var fatal: Option<int>
    var running: nat

    function View(): Fields
      reads this
    {
      Fields(stopped, session, loggedOut, state, fatal)
    }

    constructor ()
      ensures View() == Fields(false, false, None, "", None) && running == 0
    {
      stopped, session, loggedOut, state, fatal, running := false, false, None, "", None, 0;
    }

    /** Whether the goroutine is started; it is counted before the mutex is released. */
    method GoSafe() returns (started: bool)
      modifies this
      ensures started <==> Admits(old(View()))
      ensures started <==> !old(stopped)
      ensures running == old(running) + (if started then 1 else 0)
      ensures View() == old(View())
    {
      if stopped {
        return false;
      }
      running := running + 1;
      return true;
    }

    /** The first section of Stop: false if it has run before. */
    method BeginStop() returns (first: bool)
      modifies this
      ensures first <==> !old(stopped)
      ensures View() == StopBegun(old(View())) && running == old(running) && stopped
    {
      first := !stopped;
      stopped := true;
    }

    /** The first request wins. */
    method Exit(code: int)
      modifies this
      ensures View() == Asked(old(View()), code) && running == old(running)
      ensures View() == old(View()).(fatal := if old(fatal).Some? then old(fatal) else Some(code))
    {
      if fatal.None? {
        fatal := Some(code);
      }
    }

    method Record(lo: Logout) returns (first: bool)
      modifies this
      ensures first <==> Unlinks(old(View()))
      ensures first <==> old(session) && old(loggedOut).None?
      ensures View() == Recorded(old(View()), lo) && running == old(running)
      ensures View() == old(View()).(loggedOut := if first then Some(lo) else old(loggedOut))
    {
      if !session || loggedOut.Some? {
        return false;
      }
      loggedOut := Some(lo);
      return true;
    }

    /** Cancelling, disconnecting and logging lie between the two calls. */
    method LoggedOutBy(lo: Logout)
      modifies this
      ensures View() == if Unlinks(old(View())) then Asked(Recorded(old(View()), lo), EXIT_LOGGED_OUT) else old(View())
      ensures running == old(running)
    {
      var first := Record(lo);
      if first {
        Exit(EXIT_LOGGED_OUT);
      }
    }

    /** The locked section of changeState; the status line follows outside the mutex if it changed. */
    method ChangeState(s: string) returns (changed: bool)
      modifies this
      ensures changed <==> old(state) != s
      ensures View() == WithState(old(View()), s) && running == old(running)
      ensures View() == old(View()).(state := s)
    {
      changed := state != s;
      state := s;
    }

    /** What Stop writes about a logout, once Wipe has answered. */
    method ReportLogout(w: Writer.Writer<Line>, lo: Logout, failed: bool)
      modifies w
      ensures w.View() == old(w.View()).(out := old(w.out) + (if failed then [StoreIoError] else []) + [LoggedOutLine(lo.reason, lo.code)])
    {
      if failed {
        w.EmitFinal(StoreIoError);
      } else {
        assert w.out + [] == w.out;
      }
      w.EmitFinal(LoggedOutLine(lo.reason, lo.code));
    }

    /** The last section of Stop, from the answer of Wipe on: it writes the final lines up to the reply to the logout command. */
    method Report(w: Writer.Writer<Line>, lo: Option<Logout>, failed: bool)
      requires (lo.Some? ==> session) && (failed ==> lo.Some?)
      modifies this, w
      ensures View() == old(View()).(state := if session then "stopped" else old(state)) && running == old(running)
      ensures w.quiesced == old(w.quiesced) && w.dropped == old(w.dropped)
      ensures w.out == old(w.out) +
        ((if failed then [StoreIoError] else []) +
         (if lo.Some? then [LoggedOutLine(lo.value.reason, lo.value.code)] else []) +
         (if session && old(state) != "stopped" then [Status("stopped")] else []) +
         (if lo.Some? && lo.value.replyTo != "" then [OkLogout(lo.value.replyTo)] else []))
      // It is what the machine's steps leave due.
      ensures w.out == old(w.out) + Due(Told(lo, failed, session && old(state) != "stopped"))
    {
      ghost var out, tell := w.out, session && state != "stopped";
      ghost var error := if failed then [StoreIoError] else [];
      ghost var loggedOut := if lo.Some? then [LoggedOutLine(lo.value.reason, lo.value.code)] else [];
      ghost var status := if tell then [Status("stopped")] else [];
      FinalsSpelled(lo, failed, tell);
      if lo.Some? {
        ReportLogout(w, lo.value, failed);
      }
      assert w.out == out + (error + loggedOut);
      if session {
        var changed := ChangeState(STOPPED);
        if changed {
          w.EmitFinal(Status(STOPPED));
        }
      }
      assert w.out == out + (error + loggedOut + status);
      if lo.Some? && lo.value.replyTo != "" {
        w.EmitFinal(OkLogout(lo.value.replyTo));
      }
    }
  }

  // ---------- The threads ----------

  datatype Pc =
    | Admitted
    | Running
    | InStore
    | Telling(state: string)
    /** It has recorded a logout and not asked for the exit yet. */
    | Unlinking
    | Finished

  /** A goroutine of goSafe, which the wait counts, or an event handler, which it does not. */
  datatype Who = Worker(n: nat) | Handler(n: nat)

  datatype Reason = Eof | ShutdownCommand(id: string) | InitTimeout | Fatal(code: int)

  /** The main thread's next step. */
  datatype Stage =
    | Serving
    | ServingTell(state: string)
    | ToQuiesce
    | Waiting
    | ToReadLogout
    | ToRelease
    | ToReportFailure
    | ToReportLogout
    | ToSetStopped
    | ToTellStopped
    | ToReplyLogout
    | ToReplyShutdown
    | ToExit
    | Exited(exitCode: int)

  /** What the main thread knows: why it stops, whether the wait completed, the logout it read, whether the wipe failed, whether the state changed. */
  datatype Main = Main(stage: Stage, reason: Reason, waited: bool, lo: Option<Logout>, failed: bool, tell: bool)

  datatype State = State(b: Fields, w: Writer.State<Line>, st: StoreLock.State, workers: seq<Pc>, handlers: seq<Pc>, main: Main)

  const INITIAL := State(Fields(false, false, None, "", None), Writer.State([], false, 0), StoreLock.OPEN, [], [],
                         Main(Serving, Eof, false, None, false, false))

  predicate Has(s: State, who: Who) { if who.Worker? then who.n < |s.workers| else who.n < |s.handlers| }

  function PcOf(s: State, who: Who): Pc
    requires Has(s, who)
  {
    if who.Worker? then s.workers[who.n] else s.handlers[who.n]
  }

  function Goto(s: State, who: Who, pc: Pc): State
    requires Has(s, who)
  {
    if who.Worker? then s.(workers := s.workers[who.n := pc]) else s.(handlers := s.handlers[who.n := pc])
  }

  function EmitLine(s: State, line: Line): State { s.(w := Writer.Emitted(s.w, line, false)) }

  function EmitLast(s: State, line: Line): State { s.(w := Writer.Emitted(s.w, line, true)) }

  function To(s: State, stage: Stage): State { s.(main := s.main.(stage := stage)) }

  datatype Action =
    // The main thread, before Stop
    | Say(text: string)
    | Init
    | SetState(state: string)
    | TellState
    | Fail(code: int)
    // The main thread, in Stop and after it
    | BeginStop(reason: Reason)
    | Quiesce
    | WaitDone
    | WaitTimeout
    | ReadLogout
    | Release(wipeFails: bool)
    | ReportFailure
    | ReportLogout
    | SetStopped
    | TellStopped
    | ReplyLogout
    | ReplyShutdown
    | Exit
    // Everything else
    | NewEvent
    | GoSafe
    | BeginBody(n: nat)
    | Emit(who: Who, text: string)
    | RecordLogout(n: nat, lo: Logout)
    | AskSeven(n: nat)
    | UseStore(who: Who)
    | EndUse(who: Who)
    | ThreadSet(who: Who, state: string)
    | ThreadTell(who: Who)
    | AskExit(who: Who, code: int)
    | Finish(who: Who)

  /** The main thread's steps up to the wait. */
  predicate Early(a: Action) {
    a.Say? || a.Init? || a.SetState? || a.TellState? || a.Fail? || a.BeginStop? || a.Quiesce? || a.WaitDone? || a.WaitTimeout?
  }

  predicate At(s: State, who: Who, pc: Pc) { Has(s, who) && PcOf(s, who) == pc }

  predicate OfMain(a: Action) {
    a.Say? || a.Init? || a.SetState? || a.TellState? || a.Fail? || a.BeginStop? || a.Quiesce? || a.WaitDone? || a.WaitTimeout? ||
    a.ReadLogout? || a.Release? || a.ReportFailure? || a.ReportLogout? || a.SetStopped? || a.TellStopped? || a.ReplyLogout? || a.ReplyShutdown? || a.Exit?
  }

  predicate AllFinished(s: State) { forall n :: 0 <= n < |s.workers| ==> s.workers[n].Finished? }

  /** The exit codes of fatal errors; 7 is asked for by a recorded logout alone. */
  predicate FatalError(code: int) { code == EXIT_STORE_KEY || code == EXIT_STORE_LOCKED || code == EXIT_CLIENT_OUTDATED }

  predicate MainEnabled(s: State, a: Action)
    requires OfMain(a)
  {
    match a
    case Say(_) => s.main.stage.Serving?
    case Init => s.main.stage.Serving? && !s.b.session
    case SetState(v) => s.main.stage.Serving? && v != STOPPED
    case TellState => s.main.stage.ServingTell?
    case Fail(code) => s.main.stage.Serving? && FatalError(code)
    case BeginStop(reason) =>
      s.main.stage.Serving? && (reason.InitTimeout? ==> !s.b.session) && (reason.Fatal? ==> s.b.fatal == Some(reason.code))
    case Quiesce => s.main.stage.ToQuiesce?
    case WaitDone => s.main.stage.Waiting? && AllFinished(s)
    case WaitTimeout => s.main.stage.Waiting?
    case ReadLogout => s.main.stage.ToReadLogout?
    case Release(_) => s.main.stage.ToRelease? && s.st.readers == 0
    case ReportFailure => s.main.stage.ToReportFailure?
    case ReportLogout => s.main.stage.ToReportLogout?
    case SetStopped => s.main.stage.ToSetStopped?
    case TellStopped => s.main.stage.ToTellStopped?
    case ReplyLogout => s.main.stage.ToReplyLogout?
    case ReplyShutdown => s.main.stage.ToReplyShutdown?
    case Exit => s.main.stage.ToExit?
  }

  predicate Enabled(s: State, a: Action) {
    if OfMain(a) then MainEnabled(s, a)
    else
      match a
      case NewEvent => true
      case GoSafe => true
      case BeginBody(n) => At(s, Worker(n), Admitted)
      case Emit(who, _) => At(s, who, Running)
      case RecordLogout(n, _) => At(s, Worker(n), Running)
      case AskSeven(n) => At(s, Worker(n), Unlinking)
      case UseStore(who) => At(s, who, Running) && s.b.session
      case EndUse(who) => At(s, who, InStore)
      // Only events of the WhatsApp library set the state to stopped before Stop does.
      case ThreadSet(who, v) => At(s, who, Running) && (who.Worker? ==> v != STOPPED)
      case ThreadTell(who) => Has(s, who) && PcOf(s, who).Telling?
      case AskExit(who, code) => At(s, who, Running) && FatalError(code)
      case Finish(who) => At(s, who, Running)
  }

  function AfterRead(s: State): State {
    To(s.(main := s.main.(lo := s.b.loggedOut)), if s.b.session then ToRelease else ToReplyLogout)
  }

  function AfterRelease(s: State, wipeFails: bool): State {
    if s.main.lo.Some? then To(s.(st := StoreLock.Wiped(s.st, !wipeFails), main := s.main.(failed := wipeFails)), ToReportFailure)
    else To(s.(st := StoreLock.Closed(s.st)), ToSetStopped)
  }

  function AfterReportLogout(s: State): State {
    if s.main.lo.Some? then To(EmitLast(s, LoggedOutLine(s.main.lo.value.reason, s.main.lo.value.code)), ToSetStopped)
    else To(s, ToSetStopped)
  }

  function AfterReplyLogout(s: State): State {
    if s.main.lo.Some? && s.main.lo.value.replyTo != "" then To(EmitLast(s, OkLogout(s.main.lo.value.replyTo)), ToReplyShutdown)
    else To(s, ToReplyShutdown)
  }

  /** stopCode after a shutdown or the end of stdin, the given code otherwise. */
  function ExitCode(b: Fields, reason: Reason): int {
    match reason
    case InitTimeout => EXIT_NO_INIT
    case Fatal(c) => c
    case _ => if b.loggedOut.Some? then EXIT_LOGGED_OUT else EXIT_OK
  }

  function BeforeRead(s: State, a: Action): State
    requires Early(a) && MainEnabled(s, a)
  {
    match a
    case Say(text) => EmitLine(s, Event(text))
    case Init => s.(b := s.b.(session := true))
    case SetState(v) => To(s.(b := WithState(s.b, v)), if s.b.state != v then ServingTell(v) else Serving)
    case TellState => To(EmitLine(s, Status(s.main.stage.state)), Serving)
    case Fail(code) => s.(b := Asked(s.b, code))
    case BeginStop(reason) => To(s.(b := StopBegun(s.b), main := s.main.(reason := reason)), ToQuiesce)
    case Quiesce => To(s.(w := Writer.Quiesced(s.w)), Waiting)
    case WaitDone => To(s.(main := s.main.(waited := true)), ToReadLogout)
    case WaitTimeout => To(s, ToReadLogout)
  }

  function FromRead(s: State, a: Action): State
    requires OfMain(a) && !Early(a) && MainEnabled(s, a)
  {
    match a
    case ReadLogout => AfterRead(s)
    case Release(wipeFails) => AfterRelease(s, wipeFails)
    case ReportFailure => To(if s.main.failed then EmitLast(s, StoreIoError) else s, ToReportLogout)
    case ReportLogout => AfterReportLogout(s)
    case SetStopped => To(s.(b := WithState(s.b, STOPPED), main := s.main.(tell := s.b.state != STOPPED)), ToTellStopped)
    case TellStopped => To(if s.main.tell then EmitLast(s, Status(STOPPED)) else s, ToReplyLogout)
    case ReplyLogout => AfterReplyLogout(s)
    case ReplyShutdown =>
      To(if s.main.reason.ShutdownCommand? then EmitLast(s, OkShutdown(s.main.reason.id)) else s, ToExit)
    case Exit => To(s, Exited(ExitCode(s.b, s.main.reason)))
  }

  function MainApply(s: State, a: Action): State
    requires OfMain(a) && MainEnabled(s, a)
  {
    if Early(a) then BeforeRead(s, a) else FromRead(s, a)
  }

  function Apply(s: State, a: Action): State
    requires Enabled(s, a)
  {
    if OfMain(a) then MainApply(s, a)
    else
      match a
      case NewEvent => s.(handlers := s.handlers + [Running])
      case GoSafe => if Admits(s.b) then s.(workers := s.workers + [Admitted]) else s
      case BeginBody(n) => Goto(s, Worker(n), Running)
      case Emit(_, text) => EmitLine(s, Event(text))
      case RecordLogout(n, lo) => if Unlinks(s.b) then Goto(s.(b := Recorded(s.b, lo)), Worker(n), Unlinking) else s
      case AskSeven(n) => Goto(s.(b := Asked(s.b, EXIT_LOGGED_OUT)), Worker(n), Running)
      case UseStore(who) => if s.st.closed then s else Goto(s.(st := StoreLock.Used(s.st)), who, InStore)
      case EndUse(who) => Goto(s.(st := s.st.(readers := Max(s.st.readers - 1, 0))), who, Running)
      case ThreadSet(who, v) =>
        Goto(s.(b := WithState(s.b, v)), who, if s.b.state != v then Telling(v) else Running)
      case ThreadTell(who) => Goto(EmitLine(s, Status(PcOf(s, who).state)), who, Running)
      case AskExit(_, code) => s.(b := Asked(s.b, code))
      case Finish(who) => Goto(s, who, Finished)
  }

  predicate Step(s: State, a: Action, s': State) { Enabled(s, a) && s' == Apply(s, a) }

  predicate StepAt(states: seq<State>, actions: seq<Action>, i: nat) {
    i < |actions| && |states| == |actions| + 1 && Step(states[i], actions[i], states[i + 1])
  }

  ghost predicate IsRun(states: seq<State>, actions: seq<Action>) {
    && |states| == |actions| + 1
    && states[0] == INITIAL
    && forall i :: 0 <= i < |actions| ==> StepAt(states, actions, i)
  }

  // ---------- Where the main thread is ----------

  function Num(stage: Stage): nat {
    match stage
    case Serving => 0
    case ServingTell(_) => 0
    case ToQuiesce => 1
    case Waiting => 2
    case ToReadLogout => 3
    case ToRelease => 4
    case ToReportFailure => 5
    case ToReportLogout => 6
    case ToSetStopped => 7
    case ToTellStopped => 8
    case ToReplyLogout => 9
    case ToReplyShutdown => 10
    case ToExit => 11
    case Exited(_) => 12
  }

  predicate FlagsOk(s: State) {
    && (s.b.stopped <==> Num(s.main.stage) >= 1)
    && (s.w.quiesced <==> Num(s.main.stage) >= 2)
    && (s.b.loggedOut.Some? ==> s.b.session)
    && (Num(s.main.stage) <= 3 ==> s.main.lo.None?)
    && (s.main.lo.Some? ==> s.b.loggedOut == s.main.lo)
    && (Num(s.main.stage) in {4, 5, 6, 7, 8} ==> s.b.session)
    && (Num(s.main.stage) in {5, 6} ==> s.main.lo.Some?)
    && (Num(s.main.stage) <= 2 ==> !s.main.waited)
    && (s.main.lo.None? ==> !s.main.failed)
  }

  predicate OrdinaryKind(line: Line) { line.Event? || line.Status? }

  /** What a step of any other thread leaves alone, and what it may do to stdout. */
  lemma OthersFrame(s: State, a: Action)
    requires Enabled(s, a) && !OfMain(a)
    ensures Apply(s, a).main == s.main
    ensures Apply(s, a).b.stopped == s.b.stopped && Apply(s, a).b.session == s.b.session
    ensures Apply(s, a).w.quiesced == s.w.quiesced
    ensures Apply(s, a).st == s.st.(readers := Apply(s, a).st.readers)
    ensures s.b.loggedOut.Some? ==> Apply(s, a).b.loggedOut == s.b.loggedOut
    ensures Apply(s, a).b.loggedOut.Some? && s.b.loggedOut.None? ==> s.b.session && a.RecordLogout?
  {
  }

  lemma EarlyKeepsFlags(s: State, a: Action)
    requires FlagsOk(s) && Enabled(s, a) && Early(a)
    ensures FlagsOk(Apply(s, a))
  {
  }

  predicate Releasing(a: Action) { a.ReadLogout? || a.Release? || a.ReportFailure? || a.ReportLogout? }

  predicate Closing(a: Action) { a.SetStopped? || a.TellStopped? || a.ReplyLogout? || a.ReplyShutdown? || a.Exit? }

  lemma ReleasingKeepsFlags(s: State, a: Action)
    requires FlagsOk(s) && Enabled(s, a) && Releasing(a)
    ensures FlagsOk(Apply(s, a))
  {
  }

  /** From one stage to the next, nothing else of what the main thread knows changing but `tell`. */
  predicate Advances(m: Main, m': Main) {
    Num(m'.stage) == Num(m.stage) + 1 >= 8 && m' == m.(stage := m'.stage, tell := m'.tell)
  }

  lemma ClosingStatus(s: State, a: Action)
    requires Enabled(s, a) && (a.SetStopped? || a.TellStopped?)
    ensures Advances(s.main, Apply(s, a).main)
  {
  }

  lemma ClosingReplies(s: State, a: Action)
    requires Enabled(s, a) && (a.ReplyLogout? || a.ReplyShutdown? || a.Exit?)
    ensures Advances(s.main, Apply(s, a).main)
  {
  }

  lemma ClosingAdvances(s: State, a: Action)
    requires Enabled(s, a) && Closing(a)
    ensures Advances(s.main, Apply(s, a).main)
  {
    if a.SetStopped? || a.TellStopped? {
      ClosingStatus(s, a);
    } else {
      ClosingReplies(s, a);
    }
  }

  lemma ClosingKeepsFlags(s: State, a: Action)
    requires FlagsOk(s) && Enabled(s, a) && Closing(a)
    ensures FlagsOk(Apply(s, a))
  {
    ClosingAdvances(s, a);
  }

  lemma StepKeepsFlags(s: State, a: Action, s': State)
    requires FlagsOk(s) && Step(s, a, s')
    ensures FlagsOk(s')
  {
    if Early(a) {
      EarlyKeepsFlags(s, a);
    } else if Releasing(a) {
      ReleasingKeepsFlags(s, a);
    } else if Closing(a) {
      ClosingKeepsFlags(s, a);
    } else {
      OthersFrame(s, a);
    }
  }

  // ---------- Nothing is admitted once Stop has begun ----------

  /** From the moment `stopped` is set, no goroutine is added to those Stop waits for. */
  lemma {:induction false} NothingAdmittedAfterStop(states: seq<State>, actions: seq<Action>, i: nat, j: nat)
    requires IsRun(states, actions) && i <= j < |states| && states[i].b.stopped
    ensures states[j].b.stopped && |states[j].workers| == |states[i].workers|
  {
    if i < j {
      NothingAdmittedAfterStop(states, actions, i, j - 1);
      assert StepAt(states, actions, j - 1);
    }
  }

  // ---------- The store ----------

  function Inside(pcs: seq<Pc>): nat {
    if pcs == [] then 0 else Inside(pcs[..|pcs| - 1]) + if pcs[|pcs| - 1].InStore? then 1 else 0
  }

  lemma {:induction false} InsideUpdate(pcs: seq<Pc>, i: nat, pc: Pc)
    requires i < |pcs|
    ensures Inside(pcs[i := pc]) == Inside(pcs) - (if pcs[i].InStore? then 1 else 0) + (if pc.InStore? then 1 else 0)
  {
    var n := |pcs| - 1;
    var q := pcs[i := pc];
    if i < n {
      InsideUpdate(pcs[..n], i, pc);
      assert q[..n] == pcs[..n][i := pc];
    } else {
      assert q[..n] == pcs[..n];
    }
  }

  lemma {:induction false} InsideHas(pcs: seq<Pc>, i: nat)
    requires i < |pcs| && pcs[i].InStore?
    ensures Inside(pcs) > 0
  {
    if i < |pcs| - 1 {
      InsideHas(pcs[..|pcs| - 1], i);
    }
  }

  lemma InsideAppend(pcs: seq<Pc>, pc: Pc)
    ensures Inside(pcs + [pc]) == Inside(pcs) + if pc.InStore? then 1 else 0
  {
    assert (pcs + [pc])[..|pcs|] == pcs;
  }

  function InsideAll(s: State): nat { Inside(s.workers) + Inside(s.handlers) }

  predicate StoreOk(s: State) {
    && s.st.readers == InsideAll(s)
    && (s.st.closed ==> s.st.readers == 0)
    && (s.st.closed <==> s.b.session && Num(s.main.stage) >= 5) && (s.st.locked <==> !s.st.closed)
    && s.st.closings == (if s.st.closed then 1 else 0)
    && s.st.wipes == (if Num(s.main.stage) >= 5 && s.main.lo.Some? then 1 else 0)
    && (s.st.deleted <==> s.st.wipes == 1 && !s.main.failed)
  }

  lemma GotoInside(s: State, who: Who, pc: Pc)
    requires Has(s, who)
    ensures InsideAll(Goto(s, who, pc)) ==
            InsideAll(s) - (if PcOf(s, who).InStore? then 1 else 0) + (if pc.InStore? then 1 else 0)
    ensures PcOf(s, who).InStore? ==> InsideAll(s) > 0
  {
    if who.Worker? {
      InsideUpdate(s.workers, who.n, pc);
      if PcOf(s, who).InStore? { InsideHas(s.workers, who.n); }
    } else {
      InsideUpdate(s.handlers, who.n, pc);
      if PcOf(s, who).InStore? { InsideHas(s.handlers, who.n); }
    }
  }

  /** The readers the lock counts are the threads inside a store method. */
  lemma OthersCount(s: State, a: Action)
    requires Enabled(s, a) && !OfMain(a) && s.st.readers == InsideAll(s)
    ensures Apply(s, a).st.readers == InsideAll(Apply(s, a))
    ensures s.st.closed && s.st.readers == 0 ==> Apply(s, a).st.readers == 0
  {
    match a
    case NewEvent => InsideAppend(s.handlers, Running);
    case GoSafe => InsideAppend(s.workers, Admitted);
    case BeginBody(n) => GotoInside(s, Worker(n), Running);
    case RecordLogout(n, _) => GotoInside(s, Worker(n), Unlinking);
    case AskSeven(n) => GotoInside(s, Worker(n), Running);
    case UseStore(who) => GotoInside(s.(st := StoreLock.Used(s.st)), who, InStore);
    case EndUse(who) => GotoInside(s, who, Running);
    case ThreadSet(who, v) => GotoInside(s, who, if s.b.state != v then Telling(v) else Running);
    case ThreadTell(who) => GotoInside(s, who, Running);
    case Finish(who) => GotoInside(s, who, Finished);
    case _ =>
  }

  lemma EarlyKeepsStore(s: State, a: Action)
    requires FlagsOk(s) && StoreOk(s) && Enabled(s, a) && Early(a)
    ensures StoreOk(Apply(s, a))
  {
    assert Apply(s, a).workers == s.workers && Apply(s, a).handlers == s.handlers;
  }

  lemma ReleasingKeepsStore(s: State, a: Action)
    requires FlagsOk(s) && StoreOk(s) && Enabled(s, a) && Releasing(a)
    ensures StoreOk(Apply(s, a))
  {
    assert Apply(s, a).workers == s.workers && Apply(s, a).handlers == s.handlers;
  }

  lemma ClosingKeepsStore(s: State, a: Action)
    requires FlagsOk(s) && StoreOk(s) && Enabled(s, a) && Closing(a)
    ensures StoreOk(Apply(s, a))
  {
    ClosingAdvances(s, a);
  }

  lemma StepKeepsStore(s: State, a: Action, s': State)
    requires FlagsOk(s) && StoreOk(s) && Step(s, a, s')
    ensures StoreOk(s')
  {
    if Early(a) {
      EarlyKeepsStore(s, a);
    } else if Releasing(a) {
      ReleasingKeepsStore(s, a);
    } else if Closing(a) {
      ClosingKeepsStore(s, a);
    } else {
      OthersFrame(s, a);
      OthersCount(s, a);
    }
  }

  lemma {:induction false} EveryState(states: seq<State>, actions: seq<Action>, i: nat)
    requires IsRun(states, actions) && i < |states|
    ensures FlagsOk(states[i]) && StoreOk(states[i])
  {
    if i > 0 {
      EveryState(states, actions, i - 1);
      assert StepAt(states, actions, i - 1);
      StepKeepsFlags(states[i - 1], actions[i - 1], states[i]);
      StepKeepsStore(states[i - 1], actions[i - 1], states[i]);
    }
  }

  /**
   In every run the store is closed at most once, never while any thread is
   inside a store method, and exactly once by the time a stop of an
   initialized bridge is over; Wipe has run exactly if the logout Stop read
   was there, and its files are gone exactly if Wipe has run without an error.
   */
  lemma StoreClosedOnce(states: seq<State>, actions: seq<Action>, i: nat, who: Who)
    requires IsRun(states, actions) && i < |states|
    ensures states[i].st.closings <= 1 && states[i].st.wipes <= states[i].st.closings
    ensures states[i].st.closed && Has(states[i], who) ==> !PcOf(states[i], who).InStore?
    ensures states[i].st.locked <==> !states[i].st.closed
    ensures states[i].main.stage.Exited? ==>
              states[i].st.closings == (if states[i].b.session then 1 else 0) &&
              states[i].st.wipes == (if states[i].main.lo.Some? then 1 else 0) &&
              (states[i].st.deleted <==> states[i].main.lo.Some? && !states[i].main.failed)
  {
    EveryState(states, actions, i);
    if Has(states[i], who) {
      GotoInside(states[i], who, Running);
    }
  }

  // ---------- Stdout ----------

  /** The final line that the step out of stage k writes: section 6.11 of the protocol, in its order. */
  function LineAt(m: Main, k: nat): Option<Line> {
    if k == 5 && m.failed then Some(StoreIoError)
    else if k == 6 && m.lo.Some? then Some(LoggedOutLine(m.lo.value.reason, m.lo.value.code))
    else if k == 8 && m.tell then Some(Status(STOPPED))
    else if k == 9 && m.lo.Some? && m.lo.value.replyTo != "" then Some(OkLogout(m.lo.value.replyTo))
    else if k == 10 && m.reason.ShutdownCommand? then Some(OkShutdown(m.reason.id))
    else None
  }

  function DueUpTo(m: Main, n: nat): seq<Line> {
    if n == 0 then []
    else
      var line := LineAt(m, n - 1);
      if line.None? then DueUpTo(m, n - 1) else DueUpTo(m, n - 1) + [line.value]
  }

  /** The final lines due by now. */
  function Due(m: Main): seq<Line> { DueUpTo(m, Num(m.stage)) }

  lemma {:induction false} NoneUpTo(m: Main, n: nat)
    requires (n <= 6 || m.lo.None?) && (n <= 5 || !m.failed) && (n <= 8 || !m.tell) && n <= 10
    ensures DueUpTo(m, n) == []
  {
    if n > 0 {
      NoneUpTo(m, n - 1);
    }
  }

  /** What the main thread knows when Stop has ended. */
  function Told(lo: Option<Logout>, failed: bool, tell: bool): Main { Main(ToReplyShutdown, Eof, false, lo, failed, tell) }

  function Opt(line: Option<Line>): seq<Line> { if line.None? then [] else [line.value] }

  lemma FinalsInParts(m: Main)
    requires m.stage.ToReplyShutdown?
    ensures Due(m) == Opt(LineAt(m, 5)) + Opt(LineAt(m, 6)) + Opt(LineAt(m, 8)) + Opt(LineAt(m, 9))
  {
    NoneUpTo(m, 5);
    assert DueUpTo(m, 6) == Opt(LineAt(m, 5));
    assert DueUpTo(m, 7) == DueUpTo(m, 6) + Opt(LineAt(m, 6));
    assert DueUpTo(m, 8) == DueUpTo(m, 7);
    assert DueUpTo(m, 9) == DueUpTo(m, 8) + Opt(LineAt(m, 8));
    assert DueUpTo(m, 10) == DueUpTo(m, 9) + Opt(LineAt(m, 9));
  }

  lemma FinalsSpelled(lo: Option<Logout>, failed: bool, tell: bool)
    ensures Due(Told(lo, failed, tell)) ==
      (if failed then [StoreIoError] else []) +
      (if lo.Some? then [LoggedOutLine(lo.value.reason, lo.value.code)] else []) +
      (if tell then [Status("stopped")] else []) +
      (if lo.Some? && lo.value.replyTo != "" then [OkLogout(lo.value.replyTo)] else [])
  {
    FinalsInParts(Told(lo, failed, tell));
  }

  ghost predicate SameLines(m: Main, m': Main, n: nat) { forall k: nat :: k < n ==> LineAt(m, k) == LineAt(m', k) }

  lemma {:induction false} SameUpTo(m: Main, m': Main, n: nat)
    requires SameLines(m, m', n)
    ensures DueUpTo(m, n) == DueUpTo(m', n)
  {
    if n > 0 {
      assert LineAt(m, n - 1) == LineAt(m', n - 1);
      SameUpTo(m, m', n - 1);
    }
  }

  /** Ordinary lines, then exactly the given ones. */
  ghost predicate EndsWith(out: seq<Line>, last: seq<Line>) {
    && |last| <= |out|
    && (forall i :: 0 <= i < |last| ==> last[i] == out[|out| - |last| + i])
    && (forall i :: 0 <= i < |out| - |last| ==> OrdinaryKind(out[i]))
  }

  predicate Grows(out: seq<Line>, out': seq<Line>, last: seq<Line>, last': seq<Line>, line: Line) {
    out' == out + [line] && last' == last + [line]
  }

  lemma EndsWithMore(out: seq<Line>, out': seq<Line>, last: seq<Line>, last': seq<Line>, line: Line)
    requires EndsWith(out, last) && Grows(out, out', last, last', line)
    ensures EndsWith(out', last') && Plain(out', last') == Plain(out, last)
  {
  }

  lemma EndsWithOrdinary(out: seq<Line>, line: Line)
    requires EndsWith(out, []) && OrdinaryKind(line)
    ensures EndsWith(out + [line], [])
  {
  }

  /** From s to s' stdout got exactly what became due: one line or none. */
  predicate WritesDue(s: State, s': State, line: Option<Line>) {
    match line
    case None => s'.w.out == s.w.out && Due(s'.main) == Due(s.main)
    case Some(l) => Grows(s.w.out, s'.w.out, Due(s.main), Due(s'.main), l)
  }

  /** The line of this step alone. */
  function LineOf(s: State): Option<Line> { LineAt(s.main, Num(s.main.stage)) }

  /** A step from one stage to the next that writes the line of the stage it leaves. */
  lemma NextStageWrites(s: State, s': State)
    requires Num(s'.main.stage) == Num(s.main.stage) + 1
    requires SameLines(s.main, s'.main, Num(s.main.stage) + 1)
    requires s'.w.out == if LineOf(s).Some? then s.w.out + [LineOf(s).value] else s.w.out
    ensures WritesDue(s, s', LineOf(s))
  {
    SameUpTo(s.main, s'.main, Num(s.main.stage));
    assert LineAt(s.main, Num(s.main.stage)) == LineAt(s'.main, Num(s.main.stage));
  }

  lemma StepsAside(s: State, a: Action)
    requires FlagsOk(s) && Enabled(s, a) && (a.ReadLogout? || a.Release?) && !s.main.tell
    ensures WritesDue(s, Apply(s, a), None) && !Apply(s, a).main.tell
  {
    NoneUpTo(s.main, Num(s.main.stage));
    NoneUpTo(Apply(s, a).main, Num(Apply(s, a).main.stage));
  }

  lemma ReportsWrite(s: State, a: Action)
    requires FlagsOk(s) && Enabled(s, a) && (a.ReportFailure? || a.ReportLogout? || a.SetStopped?)
    ensures WritesDue(s, Apply(s, a), LineOf(s))
    ensures !a.SetStopped? ==> Apply(s, a).main.tell == s.main.tell
  {
    NextStageWrites(s, Apply(s, a));
  }

  lemma RepliesWrite(s: State, a: Action)
    requires FlagsOk(s) && Enabled(s, a) && (a.ReplyLogout? || a.ReplyShutdown?)
    ensures WritesDue(s, Apply(s, a), LineOf(s))
  {
    NextStageWrites(s, Apply(s, a));
  }

  lemma StatusWrites(s: State, a: Action)
    requires FlagsOk(s) && Enabled(s, a) && (a.TellStopped? || a.Exit?)
    ensures WritesDue(s, Apply(s, a), LineOf(s))
  {
    NextStageWrites(s, Apply(s, a));
  }

  ghost predicate OutOk(s: State) {
    EndsWith(s.w.out, Due(s.main)) && (Num(s.main.stage) <= 7 ==> !s.main.tell)
  }

  /** Stdout without the final lines. */
  function Plain(out: seq<Line>, last: seq<Line>): seq<Line> { if |last| <= |out| then out[..|out| - |last|] else [] }

  function PlainOf(s: State): seq<Line> { Plain(s.w.out, Due(s.main)) }

  lemma DueKeepsOut(s: State, s': State, line: Option<Line>)
    requires OutOk(s) && WritesDue(s, s', line) && (Num(s'.main.stage) <= 7 ==> !s'.main.tell)
    ensures OutOk(s') && PlainOf(s') == PlainOf(s)
  {
    if line.Some? {
      EndsWithMore(s.w.out, s'.w.out, Due(s.main), Due(s'.main), line.value);
    }
  }

  lemma LateKeepsOut(s: State, a: Action)
    requires FlagsOk(s) && OutOk(s) && Enabled(s, a) && (Releasing(a) || Closing(a))
    ensures OutOk(Apply(s, a)) && PlainOf(Apply(s, a)) == PlainOf(s)
  {
    if a.ReadLogout? || a.Release? {
      StepsAside(s, a);
      DueKeepsOut(s, Apply(s, a), None);
    } else {
      if a.ReportFailure? || a.ReportLogout? || a.SetStopped? {
        ReportsWrite(s, a);
      } else if a.TellStopped? || a.Exit? {
        StatusWrites(s, a);
      } else {
        RepliesWrite(s, a);
      }
      DueKeepsOut(s, Apply(s, a), LineOf(s));
    }
  }

  lemma NoneDue(m: Main)
    requires Num(m.stage) <= 3
    ensures Due(m) == []
  {
    NoneUpTo(m, Num(m.stage));
  }

  lemma OthersKeepOut(s: State, a: Action)
    requires FlagsOk(s) && OutOk(s) && Enabled(s, a) && !OfMain(a)
    ensures OutOk(Apply(s, a)) && (s.w.quiesced ==> PlainOf(Apply(s, a)) == PlainOf(s))
  {
    OthersFrame(s, a);
    if Apply(s, a).w.out != s.w.out {
      NoneDue(s.main);
      var line :| OrdinaryKind(line) && Apply(s, a).w.out == s.w.out + [line];
      EndsWithOrdinary(s.w.out, line);
    }
  }

  lemma EarlyKeepsOut(s: State, a: Action)
    requires FlagsOk(s) && OutOk(s) && Enabled(s, a) && Early(a)
    ensures OutOk(Apply(s, a)) && (s.w.quiesced ==> PlainOf(Apply(s, a)) == PlainOf(s))
  {
    NoneDue(s.main);
    NoneDue(Apply(s, a).main);
  }

  lemma StepKeepsOut(s: State, a: Action, s': State)
    requires FlagsOk(s) && OutOk(s) && Step(s, a, s')
    ensures OutOk(s') && (s.w.quiesced ==> PlainOf(s') == PlainOf(s) && s'.w.quiesced)
  {
    if Early(a) {
      EarlyKeepsOut(s, a);
      EarlyKeepsFlags(s, a);
    } else if OfMain(a) {
      LateKeepsOut(s, a);
      StepKeepsFlags(s, a, s');
    } else {
      OthersKeepOut(s, a);
      OthersFrame(s, a);
    }
  }

  lemma NothingWrittenYet()
    ensures OutOk(INITIAL)
  {
    NoneDue(INITIAL.main);
  }

  lemma RunKeepsOut(states: seq<State>, actions: seq<Action>, i: nat)
    requires IsRun(states, actions) && i < |actions| && OutOk(states[i])
    ensures OutOk(states[i + 1])
    ensures states[i].w.quiesced ==> PlainOf(states[i + 1]) == PlainOf(states[i]) && states[i + 1].w.quiesced
  {
    EveryState(states, actions, i);
    assert StepAt(states, actions, i);
    StepKeepsOut(states[i], actions[i], states[i + 1]);
  }

  /** In every state of every run stdout is ordinary lines followed by exactly the final lines due so far, in their order. */
  lemma {:induction false} FinalLines(states: seq<State>, actions: seq<Action>, i: nat)
    requires IsRun(states, actions) && i < |states|
    ensures OutOk(states[i])
  {
    if i == 0 {
      NothingWrittenYet();
    } else {
      FinalLines(states, actions, i - 1);
      RunKeepsOut(states, actions, i - 1);
    }
  }

  /** Once quiesced, the ordinary part of stdout never changes again, whatever outlives the wait. */
  lemma {:induction false} OnlyFinalsAfterQuiesce(states: seq<State>, actions: seq<Action>, i: nat, j: nat)
    requires IsRun(states, actions) && i <= j < |states| && states[i].w.quiesced
    ensures PlainOf(states[j]) == PlainOf(states[i]) && states[j].w.quiesced
  {
    if i < j {
      OnlyFinalsAfterQuiesce(states, actions, i, j - 1);
      FinalLines(states, actions, j - 1);
      RunKeepsOut(states, actions, j - 1);
    }
  }

  /** The place of a line among the final lines. */
  function Place(line: Line): nat {
    match line
    case StoreIoError => 5
    case LoggedOutLine(_, _) => 6
    case Status(_) => 8
    case OkLogout(_) => 9
    case OkShutdown(_) => 10
    case Event(_) => 0
  }

  /** The final lines never repeat and never leave their order: store_io, logged_out, status, ok of logout, ok of shutdown. */
  lemma {:induction false} FinalsInOrder(m: Main, n: nat)
    ensures forall i :: 0 <= i < |DueUpTo(m, n)| ==> 5 <= Place(DueUpTo(m, n)[i]) < n
    ensures forall i, j :: 0 <= i < j < |DueUpTo(m, n)| ==> Place(DueUpTo(m, n)[i]) < Place(DueUpTo(m, n)[j])
  {
    if n > 0 {
      FinalsInOrder(m, n - 1);
    }
  }

  // ---------- The wait, the logout and the exit code ----------

  /** If the wait completed, no goroutine is left that could record a logout, and Stop knows of any. */
  predicate WaitOk(s: State) {
    s.main.waited ==>
      && s.b.stopped
      && AllFinished(s)
      && (Num(s.main.stage) >= 4 ==> s.main.lo == s.b.loggedOut)
  }

  predicate Honours(b: Fields, reason: Reason, code: int) {
    match reason
    case InitTimeout => code == EXIT_NO_INIT
    case Fatal(c) => code == c
    case _ => (code == EXIT_OK || code == EXIT_LOGGED_OUT) && (code == EXIT_LOGGED_OUT ==> b.loggedOut.Some?)
  }

  predicate ExitOk(s: State) {
    s.main.stage.Exited? ==>
      && Honours(s.b, s.main.reason, s.main.stage.exitCode)
      && ((s.main.reason.Eof? || s.main.reason.ShutdownCommand?) && s.main.lo.Some? ==> s.main.stage.exitCode == EXIT_LOGGED_OUT)
  }

  lemma OthersKeepWait(s: State, a: Action)
    requires FlagsOk(s) && WaitOk(s) && ExitOk(s) && Enabled(s, a) && !OfMain(a)
    ensures WaitOk(Apply(s, a)) && ExitOk(Apply(s, a))
  {
    OthersFrame(s, a);
    if s.main.waited {
      FinishedStaysFinished(s, a);
    }
  }

  lemma FinishedStaysFinished(s: State, a: Action)
    requires Enabled(s, a) && !OfMain(a) && AllFinished(s) && s.b.stopped
    ensures Apply(s, a).workers == s.workers && !a.RecordLogout?
  {
  }

  lemma MainKeepsWait(s: State, a: Action)
    requires FlagsOk(s) && WaitOk(s) && ExitOk(s) && Enabled(s, a) && OfMain(a)
    ensures WaitOk(Apply(s, a)) && ExitOk(Apply(s, a))
  {
    assert Apply(s, a).workers == s.workers;
    assert Apply(s, a).b.loggedOut == s.b.loggedOut;
  }

  lemma StepKeepsWait(s: State, a: Action, s': State)
    requires FlagsOk(s) && WaitOk(s) && ExitOk(s) && Step(s, a, s')
    ensures WaitOk(s') && ExitOk(s')
  {
    if OfMain(a) {
      MainKeepsWait(s, a);
    } else {
      OthersKeepWait(s, a);
    }
  }

  lemma {:induction false} WaitAndExit(states: seq<State>, actions: seq<Action>, i: nat)
    requires IsRun(states, actions) && i < |states|
    ensures WaitOk(states[i]) && ExitOk(states[i])
  {
    if i > 0 {
      WaitAndExit(states, actions, i - 1);
      EveryState(states, actions, i - 1);
      assert StepAt(states, actions, i - 1);
      StepKeepsWait(states[i - 1], actions[i - 1], states[i]);
    }
  }

  /**
   If the wait completed, Wipe ran exactly if a logout was recorded at any
   point of the run, and then a shutdown or the end of stdin exits 7, and 0
   otherwise; the store is gone exactly if Wipe ran without an error.
   */
  lemma WipedIffLoggedOut(states: seq<State>, actions: seq<Action>, i: nat)
    requires IsRun(states, actions) && i < |states|
    requires states[i].main.stage.Exited? && states[i].main.waited
    ensures states[i].st.wipes == 1 <==> states[i].b.loggedOut.Some?
    ensures states[i].st.deleted <==> states[i].b.loggedOut.Some? && !states[i].main.failed
    ensures states[i].main.reason.Eof? || states[i].main.reason.ShutdownCommand? ==>
              states[i].main.stage.exitCode == (if states[i].b.loggedOut.Some? then EXIT_LOGGED_OUT else EXIT_OK)
  {
    EveryState(states, actions, i);
    WaitAndExit(states, actions, i);
  }

  /** A request to exit 7 means that a logout was recorded; a stop for it knows it. */
  predicate SevenOk(s: State) {
    && (forall n :: 0 <= n < |s.workers| && s.workers[n].Unlinking? ==> s.b.loggedOut.Some?)
    && (s.b.fatal == Some(EXIT_LOGGED_OUT) ==> s.b.loggedOut.Some?)
    && (Num(s.main.stage) >= 1 && s.main.reason == Fatal(EXIT_LOGGED_OUT) ==>
          s.b.loggedOut.Some? && (Num(s.main.stage) >= 4 ==> s.main.lo.Some?))
  }

  lemma OthersKeepSeven(s: State, a: Action)
    requires SevenOk(s) && Enabled(s, a) && !OfMain(a)
    ensures SevenOk(Apply(s, a))
  {
    OthersFrame(s, a);
  }

  lemma EarlyKeepsSeven(s: State, a: Action)
    requires SevenOk(s) && Enabled(s, a) && Early(a)
    ensures SevenOk(Apply(s, a))
  {
  }

  lemma ReleaseKeepsSeven(s: State, a: Action)
    requires SevenOk(s) && Enabled(s, a) && Releasing(a)
    ensures SevenOk(Apply(s, a))
  {
  }

  lemma ClosingKeepsSeven(s: State, a: Action)
    requires SevenOk(s) && Enabled(s, a) && Closing(a)
    ensures SevenOk(Apply(s, a))
  {
  }

  lemma StepKeepsSeven(s: State, a: Action, s': State)
    requires SevenOk(s) && Step(s, a, s')
    ensures SevenOk(s')
  {
    if Early(a) {
      EarlyKeepsSeven(s, a);
    } else if Releasing(a) {
      ReleaseKeepsSeven(s, a);
    } else if Closing(a) {
      ClosingKeepsSeven(s, a);
    } else {
      OthersKeepSeven(s, a);
    }
  }

  lemma {:induction false} SevenOverEveryRun(states: seq<State>, actions: seq<Action>, i: nat)
    requires IsRun(states, actions) && i < |states|
    ensures SevenOk(states[i])
  {
    if i > 0 {
      SevenOverEveryRun(states, actions, i - 1);
      assert StepAt(states, actions, i - 1);
      StepKeepsSeven(states[i - 1], actions[i - 1], states[i]);
    }
  }

  /** A stop asked for by a logout exits 7 and has run Wipe, whether or not the wait completed; the store is gone unless that failed. */
  lemma FatalSevenWiped(states: seq<State>, actions: seq<Action>, i: nat)
    requires IsRun(states, actions) && i < |states|
    requires states[i].main.stage.Exited? && states[i].main.reason == Fatal(EXIT_LOGGED_OUT)
    ensures states[i].main.stage.exitCode == EXIT_LOGGED_OUT && states[i].st.wipes == 1
    ensures states[i].st.deleted <==> !states[i].main.failed
  {
    SevenOverEveryRun(states, actions, i);
    WaitAndExit(states, actions, i);
    EveryState(states, actions, i);
  }

  /**
   A stop for a fatal error exits with that error's code. Code 7 tells whether
   the store was deleted exactly if the deletion went well where 7 is the code,
   and if there was no logout, or no successful deletion, where it is another.
   */
  lemma FatalCodeTellsDeletionIff(states: seq<State>, actions: seq<Action>, i: nat)
    requires IsRun(states, actions) && i < |states|
    requires states[i].main.stage.Exited? && states[i].main.reason.Fatal?
    ensures states[i].main.stage.exitCode == states[i].main.reason.code
    ensures (states[i].main.stage.exitCode == EXIT_LOGGED_OUT <==> states[i].st.deleted) <==>
            if states[i].main.reason.code == EXIT_LOGGED_OUT then !states[i].main.failed
            else states[i].main.lo.None? || states[i].main.failed
  {
    SevenOverEveryRun(states, actions, i);
    WaitAndExit(states, actions, i);
    EveryState(states, actions, i);
  }

  /** The exit codes of section 9 of the protocol. */
  lemma ExitCodes(states: seq<State>, actions: seq<Action>, i: nat)
    requires IsRun(states, actions) && i < |states| && states[i].main.stage.Exited?
    ensures match states[i].main.reason
      case InitTimeout => states[i].main.stage.exitCode == 6
      case Fatal(code) => states[i].main.stage.exitCode == code && states[i].b.fatal == Some(code)
      case _ => states[i].main.stage.exitCode in {0, 7} && (states[i].main.stage.exitCode == 7 ==> states[i].b.loggedOut.Some?)
  {
    WaitAndExit(states, actions, i);
    FatalIsAsked(states, actions, i);
  }

  lemma {:induction false} FatalIsAsked(states: seq<State>, actions: seq<Action>, i: nat)
    requires IsRun(states, actions) && i < |states|
    ensures Num(states[i].main.stage) >= 1 && states[i].main.reason.Fatal? ==> states[i].b.fatal == Some(states[i].main.reason.code)
  {
    if i > 0 {
      FatalIsAsked(states, actions, i - 1);
      assert StepAt(states, actions, i - 1);
      StepKeepsFirsts(states[i - 1], actions[i - 1], states[i]);
      ReasonStays(states[i - 1], actions[i - 1], states[i]);
    }
  }

  lemma ReasonStays(s: State, a: Action, s': State)
    requires Step(s, a, s')
    ensures Num(s.main.stage) >= 1 ==> s'.main.reason == s.main.reason
    ensures Num(s.main.stage) == 0 && Num(s'.main.stage) >= 1 ==>
              a.BeginStop? && s'.main.reason == a.reason && (a.reason.Fatal? ==> s.b.fatal == Some(a.reason.code))
  {
    if Closing(a) {
      ClosingAdvances(s, a);
    } else if !OfMain(a) {
      OthersFrame(s, a);
    }
  }

  lemma StepKeepsRead(s: State, a: Action, s': State)
    requires Step(s, a, s') && Num(s.main.stage) >= 4
    ensures Num(s'.main.stage) >= 4 && s'.main.lo == s.main.lo
  {
    if Closing(a) {
      ClosingAdvances(s, a);
    } else if !OfMain(a) {
      OthersFrame(s, a);
    }
  }

  lemma {:induction false} ReadOnce(states: seq<State>, actions: seq<Action>, i: nat, j: nat)
    requires IsRun(states, actions) && i < j < |states| && actions[i].ReadLogout?
    ensures states[j].main.lo == states[i].b.loggedOut && Num(states[j].main.stage) >= 4
  {
    assert StepAt(states, actions, j - 1);
    if i < j - 1 {
      ReadOnce(states, actions, i, j - 1);
      StepKeepsRead(states[j - 1], actions[j - 1], states[j]);
    }
  }

  /**
   Whatever outlives the wait: the exit code of a shutdown or of the end of
   stdin tells whether the store was deleted exactly if no logout was recorded
   between Stop's reading of it and stopCode's, and the deletion did not fail.
   */
  lemma ExitCodeTellsDeletionIff(states: seq<State>, actions: seq<Action>, i: nat, j: nat)
    requires IsRun(states, actions) && i < j < |actions| && actions[i].ReadLogout? && actions[j].Exit?
    requires states[j].main.reason.Eof? || states[j].main.reason.ShutdownCommand?
    ensures states[j + 1].main.stage.Exited?
    ensures (states[j + 1].main.stage.exitCode == EXIT_LOGGED_OUT <==> states[j + 1].st.deleted) <==>
            states[i].b.loggedOut == states[j].b.loggedOut && !states[j].main.failed
  {
    ReadOnce(states, actions, i, j);
    EveryState(states, actions, j);
    assert StepAt(states, actions, j);
  }

  // ---------- The final status line ----------

  lemma StepKeepsTell(s: State, a: Action, s': State)
    requires Step(s, a, s') && Num(s.main.stage) >= 8
    ensures Num(s'.main.stage) >= 8 && s'.main.tell == s.main.tell
  {
    if OfMain(a) {
      ClosingAdvances(s, a);
    } else {
      OthersFrame(s, a);
    }
  }

  lemma {:induction false} TellIsKept(states: seq<State>, actions: seq<Action>, i: nat, j: nat)
    requires IsRun(states, actions) && i < j < |states| && actions[i].SetStopped?
    ensures Num(states[j].main.stage) >= 8 && (states[j].main.tell <==> states[i].b.state != STOPPED)
  {
    assert StepAt(states, actions, j - 1);
    if i < j - 1 {
      TellIsKept(states, actions, i, j - 1);
      StepKeepsTell(states[j - 1], actions[j - 1], states[j]);
    }
  }

  ghost predicate HasStatus(lines: seq<Line>) { exists k :: 0 <= k < |lines| && lines[k].Status? }

  lemma HasStatusSnoc(lines: seq<Line>, line: Line)
    ensures HasStatus(lines + [line]) <==> HasStatus(lines) || line.Status?
  {
    var more := lines + [line];
    assert more[|lines|] == line;
    assert forall k :: 0 <= k < |lines| ==> more[k] == lines[k];
  }

  lemma {:induction false} StatusIsDueIff(m: Main, n: nat)
    ensures HasStatus(DueUpTo(m, n)) <==> n >= 9 && m.tell
  {
    if n > 0 {
      StatusIsDueIff(m, n - 1);
      var line := LineAt(m, n - 1);
      if line.Some? {
        HasStatusSnoc(DueUpTo(m, n - 1), line.value);
      }
    }
  }

  /**
   Over every run: when an initialized bridge has stopped, a status line is
   among the final lines of its stdout exactly if the state was not stopped
   already when Stop set it.
   */
  lemma StatusToldIff(states: seq<State>, actions: seq<Action>, i: nat, j: nat)
    requires IsRun(states, actions) && i < j < |states| && actions[i].SetStopped? && states[j].main.stage.Exited?
    ensures EndsWith(states[j].w.out, Due(states[j].main))
    ensures HasStatus(Due(states[j].main)) <==> states[i].b.state != STOPPED
  {
    TellIsKept(states, actions, i, j);
    StatusIsDueIff(states[j].main, Num(states[j].main.stage));
    FinalLines(states, actions, j);
  }

  // ---------- The final lines, spelled out ----------

  lemma AllParts(m: Main)
    requires m.stage.Exited?
    ensures Due(m) == Opt(LineAt(m, 5)) + Opt(LineAt(m, 6)) + Opt(LineAt(m, 8)) + Opt(LineAt(m, 9)) + Opt(LineAt(m, 10))
  {
    var r := m.(stage := ToReplyShutdown);
    FinalsInParts(r);
    SameUpTo(m, r, 10);
    assert DueUpTo(m, 11) == DueUpTo(m, 10) + Opt(LineAt(m, 10));
    assert DueUpTo(m, 12) == DueUpTo(m, 11);
  }

  /** What stdout ends with once run has returned, by the logout Stop read, the deletion, what it told and why it stopped. */
  lemma EndOfStdout(states: seq<State>, actions: seq<Action>, j: nat) returns (n: nat)
    requires IsRun(states, actions) && j < |states| && states[j].main.stage.Exited?
    ensures n <= |states[j].w.out| && forall k :: 0 <= k < n ==> states[j].w.out[k].Event? || states[j].w.out[k].Status?
    ensures var lo, reason := states[j].main.lo, states[j].main.reason;
      states[j].w.out[n..] ==
        (if lo.Some? && !states[j].st.deleted then [StoreIoError] else []) +
        (if lo.Some? then [LoggedOutLine(lo.value.reason, lo.value.code)] else []) +
        (if states[j].main.tell then [Status("stopped")] else []) +
        (if lo.Some? && lo.value.replyTo != "" then [OkLogout(lo.value.replyTo)] else []) +
        (if reason.ShutdownCommand? then [OkShutdown(reason.id)] else [])
  {
    var out, m := states[j].w.out, states[j].main;
    FinalLines(states, actions, j);
    EveryState(states, actions, j);
    AllParts(m);
    n := |out| - |Due(m)|;
    assert out[n..] == Due(m);
  }

  /**
   Section 6.11 of the protocol, over every run of an initialized bridge: when
   run has returned, stdout is ordinary lines and then store_io if the deletion
   failed, logged_out if Stop read a logout, status stopped if the state was
   another one when Stop set it, ok for the logout command if there was one,
   and ok for the shutdown command if it was one.
   */
  lemma LastLines(states: seq<State>, actions: seq<Action>, i: nat, j: nat) returns (n: nat)
    requires IsRun(states, actions) && i < j < |states| && actions[i].SetStopped? && states[j].main.stage.Exited?
    ensures n <= |states[j].w.out| && forall k :: 0 <= k < n ==> states[j].w.out[k].Event? || states[j].w.out[k].Status?
    ensures var lo, reason := states[j].main.lo, states[j].main.reason;
      states[j].w.out[n..] ==
        (if lo.Some? && !states[j].st.deleted then [StoreIoError] else []) +
        (if lo.Some? then [LoggedOutLine(lo.value.reason, lo.value.code)] else []) +
        (if states[i].b.state != "stopped" then [Status("stopped")] else []) +
        (if lo.Some? && lo.value.replyTo != "" then [OkLogout(lo.value.replyTo)] else []) +
        (if reason.ShutdownCommand? then [OkShutdown(reason.id)] else [])
  {
    TellIsKept(states, actions, i, j);
    n := EndOfStdout(states, actions, j);
  }

  /** Of a bridge that was never initialized only the ok for the shutdown command is left. */
  lemma LastLinesUninitialized(states: seq<State>, actions: seq<Action>, j: nat) returns (n: nat)
    requires IsRun(states, actions) && j < |states| && !states[j].b.session && states[j].main.stage.Exited?
    ensures n <= |states[j].w.out| && forall k :: 0 <= k < n ==> states[j].w.out[k].Event? || states[j].w.out[k].Status?
    ensures states[j].w.out[n..] == if states[j].main.reason.ShutdownCommand? then [OkShutdown(states[j].main.reason.id)] else []
  {
    EveryState(states, actions, j);
    NoSessionNoStatus(states, actions, j);
    n := EndOfStdout(states, actions, j);
  }

  lemma {:induction false} NoSessionNoStatus(states: seq<State>, actions: seq<Action>, j: nat)
    requires IsRun(states, actions) && j < |states| && !states[j].b.session
    ensures !states[j].main.tell
  {
    if j > 0 {
      assert StepAt(states, actions, j - 1);
      StepTells(states[j - 1], actions[j - 1], states[j]);
      EveryState(states, actions, j - 1);
      NoSessionNoStatus(states, actions, j - 1);
    }
  }

  lemma StepTells(s: State, a: Action, s': State)
    requires Step(s, a, s')
    ensures s.b.session ==> s'.b.session
    ensures s'.main.tell != s.main.tell ==> s.main.stage.ToSetStopped?
  {
    if !OfMain(a) {
      OthersFrame(s, a);
    }
  }

  lemma InParts(a: seq<Line>, b: seq<Line>, c: seq<Line>, d: seq<Line>, e: seq<Line>, line: Line)
    ensures line in a + b + c + d + e <==> line in a || line in b || line in c || line in d || line in e
  {
  }

  lemma InTail(out: seq<Line>, n: nat, line: Line)
    requires n <= |out| && forall k :: 0 <= k < n ==> out[k] != line
    ensures line in out <==> line in out[n..]
  {
    assert out == out[..n] + out[n..];
  }

  /** `line` is among the final lines of a stop that knows this. */
  lemma InFinals(lo: Option<Logout>, failed: bool, tell: bool, reason: Reason, line: Line)
    ensures var finals :=
      (if failed then [StoreIoError] else []) +
      (if lo.Some? then [LoggedOutLine(lo.value.reason, lo.value.code)] else []) +
      (if tell then [Status("stopped")] else []) +
      (if lo.Some? && lo.value.replyTo != "" then [OkLogout(lo.value.replyTo)] else []) +
      (if reason.ShutdownCommand? then [OkShutdown(reason.id)] else []);
      line in finals <==>
        || (failed && line == StoreIoError)
        || (lo.Some? && line == LoggedOutLine(lo.value.reason, lo.value.code))
        || (tell && line == Status("stopped"))
        || (lo.Some? && lo.value.replyTo != "" && line == OkLogout(lo.value.replyTo))
        || (reason.ShutdownCommand? && line == OkShutdown(reason.id))
  {
    InParts(if failed then [StoreIoError] else [],
            if lo.Some? then [LoggedOutLine(lo.value.reason, lo.value.code)] else [],
            if tell then [Status("stopped")] else [],
            if lo.Some? && lo.value.replyTo != "" then [OkLogout(lo.value.replyTo)] else [],
            if reason.ShutdownCommand? then [OkShutdown(reason.id)] else [], line);
  }

  /** Which replies and errors stdout holds in the end: line is any that is neither an event nor a status. */
  lemma FinalReplies(states: seq<State>, actions: seq<Action>, j: nat, line: Line)
    requires IsRun(states, actions) && j < |states| && states[j].main.stage.Exited? && !line.Event? && !line.Status?
    ensures var lo, reason := states[j].main.lo, states[j].main.reason;
      line in states[j].w.out <==>
        match line
        case StoreIoError => lo.Some? && !states[j].st.deleted
        case LoggedOutLine(why, code) => lo.Some? && lo.value.reason == why && lo.value.code == code
        case OkLogout(id) => lo.Some? && lo.value.replyTo == id != ""
        case OkShutdown(id) => reason == ShutdownCommand(id)
        case _ => false
  {
    var n := EndOfStdout(states, actions, j);
    InTail(states[j].w.out, n, line);
    InFinals(states[j].main.lo, states[j].main.lo.Some? && !states[j].st.deleted, states[j].main.tell, states[j].main.reason, line);
  }

  /** The reply to shutdown comes last. */
  lemma ShutdownReplyIsLast(states: seq<State>, actions: seq<Action>, j: nat)
    requires IsRun(states, actions) && j < |states| && states[j].main.stage.Exited? && states[j].main.reason.ShutdownCommand?
    ensures states[j].w.out != [] && states[j].w.out[|states[j].w.out| - 1] == OkShutdown(states[j].main.reason.id)
  {
    var n := EndOfStdout(states, actions, j);
    var out := states[j].w.out;
    assert out[n..] != [] && out[n..][|out[n..]| - 1] == OkShutdown(states[j].main.reason.id);
  }

  /** The first logout and the first request to exit count. */
  lemma {:induction false} FirstsStay(states: seq<State>, actions: seq<Action>, i: nat, j: nat)
    requires IsRun(states, actions) && i <= j < |states|
    ensures states[i].b.loggedOut.Some? ==> states[j].b.loggedOut == states[i].b.loggedOut
    ensures states[i].b.fatal.Some? ==> states[j].b.fatal == states[i].b.fatal
  {
    if i < j {
      FirstsStay(states, actions, i, j - 1);
      assert StepAt(states, actions, j - 1);
      StepKeepsFirsts(states[j - 1], actions[j - 1], states[j]);
    }
  }

  lemma StepKeepsFirsts(s: State, a: Action, s': State)
    requires Step(s, a, s')
    ensures s.b.loggedOut.Some? ==> s'.b.loggedOut == s.b.loggedOut
    ensures s.b.fatal.Some? ==> s'.b.fatal == s.b.fatal
  {
  }

  // ---------- Reachable states ----------

  ghost predicate Reaches(s: State) {
    exists states: seq<State>, actions: seq<Action> :: IsRun(states, actions) && states[|actions|] == s
  }

  lemma ReachStart()
    ensures Reaches(INITIAL)
  {
    assert IsRun([INITIAL], []);
  }

  lemma Reach(s: State, a: Action, s': State)
    requires Reaches(s) && Step(s, a, s')
    ensures Reaches(s')
  {
    var states: seq<State>, actions: seq<Action> :| IsRun(states, actions) && states[|actions|] == s;
    var states', actions' := states + [s'], actions + [a];
    forall i | 0 <= i < |actions'| ensures StepAt(states', actions', i) {
      if i < |actions| {
        assert StepAt(states, actions, i);
      }
    }
    assert IsRun(states', actions') && states'[|actions'|] == s';
  }

  /** The main thread's next step once it has read the logout, if the deletion goes well. */
  function NextOfMain(stage: Stage): Action {
    match stage
    case ToRelease => Release(false)
    case ToReportFailure => ReportFailure
    case ToReportLogout => ReportLogout
    case ToSetStopped => SetStopped
    case ToTellStopped => TellStopped
    case ToReplyLogout => ReplyLogout
    case ToReplyShutdown => ReplyShutdown
    case _ => Exit
  }

  predicate CanEnd(s: State) { 4 <= Num(s.main.stage) && s.st.readers == 0 }

  lemma NextRelease(s: State)
    requires CanEnd(s) && Num(s.main.stage) <= 6
    ensures Nexts(s)
  {
  }

  lemma NextClose(s: State)
    requires CanEnd(s) && 7 <= Num(s.main.stage) < 12
    ensures Nexts(s)
  {
    ClosingAdvances(s, NextOfMain(s.main.stage));
  }

  predicate Nexts(s: State) {
    var a := NextOfMain(s.main.stage);
    Enabled(s, a) && Num(Apply(s, a).main.stage) > Num(s.main.stage) && CanEnd(Apply(s, a))
  }

  lemma NextStep(s: State)
    requires CanEnd(s) && !s.main.stage.Exited?
    ensures Nexts(s)
  {
    if Num(s.main.stage) <= 6 {
      NextRelease(s);
    } else {
      NextClose(s);
    }
  }

  /** The main thread goes on alone. */
  function Ending(s: State): State
    requires CanEnd(s)
    decreases 12 - Num(s.main.stage)
  {
    if s.main.stage.Exited? then s
    else
      NextStep(s);
      Ending(Apply(s, NextOfMain(s.main.stage)))
  }

  /** Whether the deletion has failed, when a deletion still to come goes well. */
  predicate FailsYet(m: Main) { m.failed && !(m.stage.ToRelease? && m.lo.Some?) }

  /** With no thread inside the store nothing keeps Stop and run from ending; how they end follows from what they know. */
  lemma {:induction false} StopEnds(s: State)
    requires CanEnd(s) && Reaches(s)
    ensures Reaches(Ending(s)) && Ending(s).main.stage.Exited?
    ensures Ending(s).main.lo == s.main.lo && Ending(s).main.reason == s.main.reason && Ending(s).main.waited == s.main.waited
    ensures !s.main.stage.Exited? ==> Ending(s).main.stage.exitCode == ExitCode(s.b, s.main.reason)
    ensures Ending(s).b.session == s.b.session && Ending(s).b.loggedOut == s.b.loggedOut
    ensures Ending(s).main.failed == FailsYet(s.main)
    decreases 12 - Num(s.main.stage)
  {
    if !s.main.stage.Exited? {
      NextStep(s);
      var a := NextOfMain(s.main.stage);
      Reach(s, a, Apply(s, a));
      NextKeeps(s);
      StopEnds(Apply(s, a));
    }
  }

  /** What the step leaves as it is, and the code it ends with. */
  predicate Ends(s: State, t: State) {
    && t.main.lo == s.main.lo && t.main.reason == s.main.reason && t.main.waited == s.main.waited
    && t.b.session == s.b.session && t.b.loggedOut == s.b.loggedOut
    && (t.main.stage.Exited? ==> t.main.stage.exitCode == ExitCode(s.b, s.main.reason))
    && Num(t.main.stage) >= 5 && t.main.failed == FailsYet(s.main)
  }

  lemma NextReleaseKeeps(s: State)
    requires CanEnd(s) && Num(s.main.stage) <= 6
    ensures Enabled(s, NextOfMain(s.main.stage)) && Ends(s, Apply(s, NextOfMain(s.main.stage)))
  {
  }

  lemma NextKeeps(s: State)
    requires CanEnd(s) && !s.main.stage.Exited?
    ensures Enabled(s, NextOfMain(s.main.stage)) && Ends(s, Apply(s, NextOfMain(s.main.stage)))
  {
    if Num(s.main.stage) <= 6 {
      NextReleaseKeeps(s);
    } else {
      ClosingAdvances(s, NextOfMain(s.main.stage));
    }
  }

  /** A run to Exited from a state in which Stop has read the logout, as far as the counterexamples need it. */
  lemma Ended(s: State)
    requires CanEnd(s) && !s.main.stage.Exited? && Reaches(s)
    ensures var t := Ending(s);
      && Reaches(t) && t.main.stage == Exited(ExitCode(s.b, s.main.reason)) && t.b.session == s.b.session && t.main.waited == s.main.waited
      && t.st.wipes == (if s.main.lo.Some? then 1 else 0)
      && (t.st.deleted <==> s.main.lo.Some? && !FailsYet(s.main))
  {
    StopEnds(s);
    ReachedWipes(Ending(s));
  }

  lemma ReachedWipes(t: State)
    requires Reaches(t) && t.main.stage.Exited?
    ensures t.st.wipes == if t.main.lo.Some? then 1 else 0
    ensures t.st.deleted <==> t.main.lo.Some? && !t.main.failed
  {
    var states: seq<State>, actions: seq<Action> :| IsRun(states, actions) && states[|actions|] == t;
    EveryState(states, actions, |actions|);
  }

  lemma ReleaseFails(s: State)
    requires s.main.stage.ToRelease? && s.main.lo.Some? && s.st.readers == 0
    ensures Enabled(s, Release(true)) && CanEnd(Apply(s, Release(true)))
    ensures var t := Apply(s, Release(true)); t.b == s.b && t.main == s.main.(stage := ToReportFailure, failed := true)
  {
  }

  /** The same, if a file cannot be deleted. */
  lemma DeletionFails(s: State) returns (t: State)
    requires Reaches(s) && s.main.stage.ToRelease? && s.main.lo.Some? && s.st.readers == 0
    ensures Reaches(t) && t.main.stage == Exited(ExitCode(s.b, s.main.reason)) && t.main.waited == s.main.waited
    ensures t.main.lo == s.main.lo && t.b.loggedOut == s.b.loggedOut && !t.st.deleted
  {
    ReleaseFails(s);
    var r := Apply(s, Release(true));
    Reach(s, Release(true), r);
    StopEnds(r);
    ReachedWipes(Ending(r));
    t := Ending(r);
  }

  // ---------- Runs in which a claim of the documentation fails ----------

  const UNLINKED := Logout("user", 0, "1")

  function Stopping(reason: Reason, waited: bool, stage: Stage, lo: Option<Logout>): Main { Main(stage, reason, waited, lo, false, false) }

  /** The states below: an initialized bridge with one goroutine, or one event handler, and nothing written. */
  function Scene(b: Fields, quiesced: bool, dropped: nat, workers: seq<Pc>, handlers: seq<Pc>, main: Main): State {
    State(b, Writer.State([], quiesced, dropped), StoreLock.OPEN, workers, handlers, main)
  }

  const SERVING := Stopping(Eof, false, Serving, None)
  const ALIVE := Fields(false, true, None, "", None)

  lemma SceneStops(b: Fields, workers: seq<Pc>, handlers: seq<Pc>, why: Reason)
    requires Reaches(Scene(b, false, 0, workers, handlers, SERVING)) && !why.InitTimeout? && (why.Fatal? ==> b.fatal == Some(why.code))
    ensures Reaches(Scene(StopBegun(b), false, 0, workers, handlers, Stopping(why, false, ToQuiesce, None)))
  {
    Reach(Scene(b, false, 0, workers, handlers, SERVING), BeginStop(why),
          Scene(StopBegun(b), false, 0, workers, handlers, Stopping(why, false, ToQuiesce, None)));
  }

  lemma SceneQuiesces(b: Fields, workers: seq<Pc>, handlers: seq<Pc>, why: Reason)
    requires Reaches(Scene(b, false, 0, workers, handlers, Stopping(why, false, ToQuiesce, None)))
    ensures Reaches(Scene(b, true, 0, workers, handlers, Stopping(why, false, Waiting, None)))
  {
    Reach(Scene(b, false, 0, workers, handlers, Stopping(why, false, ToQuiesce, None)), Quiesce,
          Scene(b, true, 0, workers, handlers, Stopping(why, false, Waiting, None)));
  }

  lemma SceneWaits(b: Fields, dropped: nat, workers: seq<Pc>, handlers: seq<Pc>, why: Reason, waited: bool)
    requires Reaches(Scene(b, true, dropped, workers, handlers, Stopping(why, false, Waiting, None)))
    requires waited ==> forall n :: 0 <= n < |workers| ==> workers[n].Finished?
    ensures Reaches(Scene(b, true, dropped, workers, handlers, Stopping(why, waited, ToReadLogout, None)))
  {
    Reach(Scene(b, true, dropped, workers, handlers, Stopping(why, false, Waiting, None)), if waited then WaitDone else WaitTimeout,
          Scene(b, true, dropped, workers, handlers, Stopping(why, waited, ToReadLogout, None)));
  }

  lemma SceneReads(b: Fields, dropped: nat, workers: seq<Pc>, handlers: seq<Pc>, why: Reason, waited: bool)
    requires Reaches(Scene(b, true, dropped, workers, handlers, Stopping(why, waited, ToReadLogout, None))) && b.session
    ensures Reaches(Scene(b, true, dropped, workers, handlers, Stopping(why, waited, ToRelease, b.loggedOut)))
  {
    Reach(Scene(b, true, dropped, workers, handlers, Stopping(why, waited, ToReadLogout, None)), ReadLogout,
          Scene(b, true, dropped, workers, handlers, Stopping(why, waited, ToRelease, b.loggedOut)));
  }

  lemma SceneUnlinks(b: Fields, quiesced: bool, handlers: seq<Pc>, main: Main)
    requires Reaches(Scene(b, quiesced, 0, [Running], handlers, main)) && Unlinks(b)
    ensures Reaches(Scene(Recorded(b, UNLINKED), quiesced, 0, [Unlinking], handlers, main))
  {
    Reach(Scene(b, quiesced, 0, [Running], handlers, main), RecordLogout(0, UNLINKED),
          Scene(Recorded(b, UNLINKED), quiesced, 0, [Unlinking], handlers, main));
  }

  lemma SceneFinishes(b: Fields, dropped: nat, handlers: seq<Pc>, main: Main)
    requires Reaches(Scene(b, true, dropped, [Running], handlers, main))
    ensures Reaches(Scene(b, true, dropped, [Finished], handlers, main))
  {
    Reach(Scene(b, true, dropped, [Running], handlers, main), Finish(Worker(0)), Scene(b, true, dropped, [Finished], handlers, main));
  }

  lemma SceneEvent(workers: seq<Pc>)
    requires Reaches(Scene(ALIVE, false, 0, workers, [], SERVING))
    ensures Reaches(Scene(ALIVE, false, 0, workers, [Running], SERVING))
  {
    Reach(Scene(ALIVE, false, 0, workers, [], SERVING), NewEvent, Scene(ALIVE, false, 0, workers, [Running], SERVING));
  }

  lemma Initialized()
    ensures Reaches(Scene(ALIVE, false, 0, [], [], SERVING))
  {
    ReachStart();
    Reach(INITIAL, Init, Scene(ALIVE, false, 0, [], [], SERVING));
  }

  lemma OneGoroutine()
    ensures Reaches(Scene(ALIVE, false, 0, [Running], [], SERVING))
  {
    Initialized();
    var s2 := Scene(ALIVE, false, 0, [Admitted], [], SERVING);
    Reach(Scene(ALIVE, false, 0, [], [], SERVING), GoSafe, s2);
    Reach(s2, BeginBody(0), Scene(ALIVE, false, 0, [Running], [], SERVING));
  }

  // The wait times out, Stop reads that nobody logged out, and only then the
  // goroutine still running records a logout.

  lemma LateLogout()
    ensures Reaches(Scene(Recorded(StopBegun(ALIVE), UNLINKED), true, 0, [Unlinking], [], Stopping(Eof, false, ToRelease, None)))
  {
    var b := StopBegun(ALIVE);
    OneGoroutine();
    SceneStops(ALIVE, [Running], [], Eof);
    SceneQuiesces(b, [Running], [], Eof);
    SceneWaits(b, 0, [Running], [], Eof, false);
    SceneReads(b, 0, [Running], [], Eof, false);
    SceneUnlinks(b, true, [], Stopping(Eof, false, ToRelease, None));
  }

  /** Exit code 7 does not always mean that the store was deleted: Stop may not know of the logout. */
  lemma SevenWithoutWipe()
    ensures exists s: State :: Reaches(s) && s.main.stage == Exited(EXIT_LOGGED_OUT) && s.st.wipes == 0 && !s.st.deleted
  {
    LateLogout();
    var s := Scene(Recorded(StopBegun(ALIVE), UNLINKED), true, 0, [Unlinking], [], Stopping(Eof, false, ToRelease, None));
    Ended(s);
    assert Reaches(Ending(s));
  }

  // A logout is recorded in time and the wait completes, but a file cannot be deleted.

  lemma UnlinkedInTime()
    ensures Reaches(Scene(Recorded(StopBegun(ALIVE), UNLINKED), true, 0, [Unlinking], [], Stopping(Eof, false, Waiting, None)))
  {
    OneGoroutine();
    SceneStops(ALIVE, [Running], [], Eof);
    SceneQuiesces(StopBegun(ALIVE), [Running], [], Eof);
    SceneUnlinks(StopBegun(ALIVE), true, [], Stopping(Eof, false, Waiting, None));
  }

  const UNLINKED_ALIVE := Fields(true, true, Some(UNLINKED), "", Some(EXIT_LOGGED_OUT))

  lemma UnlinkedAndWaited()
    ensures Reaches(Scene(UNLINKED_ALIVE, true, 0, [Finished], [], Stopping(Eof, true, ToRelease, Some(UNLINKED))))
  {
    UnlinkedInTime();
    Reach(Scene(Recorded(StopBegun(ALIVE), UNLINKED), true, 0, [Unlinking], [], Stopping(Eof, false, Waiting, None)), AskSeven(0),
          Scene(UNLINKED_ALIVE, true, 0, [Running], [], Stopping(Eof, false, Waiting, None)));
    SceneFinishes(UNLINKED_ALIVE, 0, [], Stopping(Eof, false, Waiting, None));
    SceneWaits(UNLINKED_ALIVE, 0, [Finished], [], Eof, true);
    SceneReads(UNLINKED_ALIVE, 0, [Finished], [], Eof, true);
  }

  /** Nor when Stop knows of the logout and its wait completed. */
  lemma SevenNotDeleted()
    ensures exists s: State ::
              Reaches(s) && s.main.stage == Exited(EXIT_LOGGED_OUT) && s.main.waited && s.main.lo == s.b.loggedOut && !s.st.deleted
  {
    UnlinkedAndWaited();
    var s := Scene(UNLINKED_ALIVE, true, 0, [Finished], [], Stopping(Eof, true, ToRelease, Some(UNLINKED)));
    var t := DeletionFails(s);
    assert Reaches(t);
  }

  // An event that ends the connection for good sets the state to stopped after
  // Stop has begun, and its status line is dropped.

  const ENDED := Fields(true, true, None, STOPPED, None)

  lemma EventDuringStop()
    ensures Reaches(Scene(StopBegun(ALIVE), false, 0, [Running], [Running], Stopping(Eof, false, ToQuiesce, None)))
  {
    OneGoroutine();
    SceneEvent([Running]);
    SceneStops(ALIVE, [Running], [Running], Eof);
  }

  lemma StatusUntold()
    ensures Reaches(Scene(ENDED, true, 0, [Running], [Telling(STOPPED)], Stopping(Eof, false, Waiting, None)))
  {
    EventDuringStop();
    Reach(Scene(StopBegun(ALIVE), false, 0, [Running], [Running], Stopping(Eof, false, ToQuiesce, None)), ThreadSet(Handler(0), STOPPED),
          Scene(ENDED, false, 0, [Running], [Telling(STOPPED)], Stopping(Eof, false, ToQuiesce, None)));
    SceneQuiesces(ENDED, [Running], [Telling(STOPPED)], Eof);
  }

  lemma StatusDropped()
    ensures Reaches(Scene(ENDED, true, 1, [Finished], [Running], Stopping(Eof, true, ToRelease, None)))
  {
    StatusUntold();
    Reach(Scene(ENDED, true, 0, [Running], [Telling(STOPPED)], Stopping(Eof, false, Waiting, None)), ThreadTell(Handler(0)),
          Scene(ENDED, true, 1, [Running], [Running], Stopping(Eof, false, Waiting, None)));
    SceneFinishes(ENDED, 1, [Running], Stopping(Eof, false, Waiting, None));
    SceneWaits(ENDED, 1, [Finished], [Running], Eof, true);
    SceneReads(ENDED, 1, [Finished], [Running], Eof, true);
  }

  /** The steps that are left write nothing if there was no logout, the state is stopped already and no reply is due. */
  lemma {:induction false} SilentEnding(s: State)
    requires CanEnd(s) && s.main.lo.None? && !s.main.failed && s.main.reason.Eof?
    requires if Num(s.main.stage) <= 7 then s.b.state == STOPPED else !s.main.tell
    ensures Ending(s).w.out == s.w.out
    decreases 12 - Num(s.main.stage)
  {
    if !s.main.stage.Exited? {
      NextStep(s);
      SilentStep(s);
      SilentEnding(Apply(s, NextOfMain(s.main.stage)));
    }
  }

  lemma SilentStep(s: State)
    requires CanEnd(s) && !s.main.stage.Exited? && s.main.lo.None? && !s.main.failed && s.main.reason.Eof?
    requires if Num(s.main.stage) <= 7 then s.b.state == STOPPED else !s.main.tell
    ensures Enabled(s, NextOfMain(s.main.stage))
    ensures var t := Apply(s, NextOfMain(s.main.stage));
      && t.w.out == s.w.out && t.main.lo.None? && !t.main.failed && t.main.reason.Eof?
      && if Num(t.main.stage) <= 7 then t.b.state == STOPPED else !t.main.tell
  {
  }

  /**
   An initialized bridge may stop, its wait completed, with no status line at
   all on its stdout, although section 6.11 of the protocol lists status
   {stopped} among the final lines.
   */
  lemma StopWithoutStatus()
    ensures exists s: State :: Reaches(s) && s.main.stage.Exited? && s.main.waited && s.b.session && s.w.out == []
  {
    StatusDropped();
    var s := Scene(ENDED, true, 1, [Finished], [Running], Stopping(Eof, true, ToRelease, None));
    Ended(s);
    SilentEnding(s);
    assert Reaches(Ending(s));
  }

  // An event handler learns that the client is outdated and asks for exit 5, and
  // a goroutine records a logout before Stop reads it.

  const OUTDATED := ALIVE.(fatal := Some(EXIT_CLIENT_OUTDATED))

  lemma Outdated()
    ensures Reaches(Scene(OUTDATED, false, 0, [Running], [Running], SERVING))
  {
    OneGoroutine();
    SceneEvent([Running]);
    Reach(Scene(ALIVE, false, 0, [Running], [Running], SERVING), AskExit(Handler(0), EXIT_CLIENT_OUTDATED),
          Scene(OUTDATED, false, 0, [Running], [Running], SERVING));
  }

  lemma OutdatedAndUnlinked()
    ensures Reaches(Scene(StopBegun(Recorded(OUTDATED, UNLINKED)), true, 0, [Unlinking], [Running],
                          Stopping(Fatal(EXIT_CLIENT_OUTDATED), false, ToRelease, Some(UNLINKED))))
  {
    var b, why := Recorded(OUTDATED, UNLINKED), Fatal(EXIT_CLIENT_OUTDATED);
    Outdated();
    SceneUnlinks(OUTDATED, false, [Running], SERVING);
    SceneStops(b, [Unlinking], [Running], why);
    SceneQuiesces(StopBegun(b), [Unlinking], [Running], why);
    SceneWaits(StopBegun(b), 0, [Unlinking], [Running], why, false);
    SceneReads(StopBegun(b), 0, [Unlinking], [Running], why, false);
  }

  /** A store can be deleted under another exit code than 7: the first request to exit wins. */
  lemma FiveAndDeleted()
    ensures exists s: State :: Reaches(s) && s.main.stage == Exited(EXIT_CLIENT_OUTDATED) && s.st.deleted
  {
    OutdatedAndUnlinked();
    var s := Scene(StopBegun(Recorded(OUTDATED, UNLINKED)), true, 0, [Unlinking], [Running],
                   Stopping(Fatal(EXIT_CLIENT_OUTDATED), false, ToRelease, Some(UNLINKED)));
    Ended(s);
    assert Reaches(Ending(s));
  }
}
