/**
 Reported chats and their @lid aliases: the map of internal/wa/events.go, its
 stored copy in internal/store/store.go, and the goroutines that work on both.
 A reported @lid chat must be announced under its phone number once.
 */
module Alias {
  import opened Prelude

  /** What stands before the "@" of a JID. */
  type User = s: string | '@' !in s witness ""

  /** A JID as it is reported: ReportableChat asks for a user. */
  type Jid = s: string | s != "" && s[0] != '@' witness "1@lid"

  /** Reported chat -> a @lid chat that still waits for its alias. */
  type Chats = map<Jid, bool>

  datatype Update = Update(pn: Jid, aliasOf: Jid)

  // ---------- The two notions of a @lid chat ----------

  predicate HasLidSuffix(j: Jid) { |j| >= 4 && j[|j| - 4..] == "@lid" }

  /** markReported asks for something in front of the suffix. */
  predicate PendingInMemory(j: Jid) { |j| > 4 && j[|j| - 4..] == "@lid" }

  /** AddChats does not. */
  predicate PendingInTable(j: Jid) { HasLidSuffix(j) }

  /** As every reported JID has a user, the two are one question. */
  lemma PendingAlike(j: Jid)
    ensures PendingInMemory(j) <==> PendingInTable(j)
  {
    assert |j| >= 4 ==> j[|j| - 4..][0] == j[|j| - 4];
  }

  // ---------- Critical sections and table writes, on values ----------

  /** The loop of markReported: the new map and the chats that were new. */
  function Mark(mem: Chats, jids: seq<Jid>): (Chats, seq<Jid>) {
    if jids == [] then (mem, [])
    else
      var (m, added) := Mark(mem, jids[..|jids| - 1]);
      var j := jids[|jids| - 1];
      if j in m then (m, added) else (m[j := PendingInMemory(j)], added + [j])
  }

  /** INSERT ... ON CONFLICT (jid) DO NOTHING for each chat. */
  function AddChats(table: Chats, jids: seq<Jid>): Chats {
    if jids == [] then table
    else
      var t := AddChats(table, jids[..|jids| - 1]);
      var j := jids[|jids| - 1];
      if j in t then t else t[j := PendingInTable(j)]
  }

  predicate Claims(mem: Chats, lid: Jid) { lid in mem && mem[lid] }

  function Claim(mem: Chats, lid: Jid, pn: Jid): Chats { if Claims(mem, lid) then mem[lid := false][pn := false] else mem }

  /** UPDATE the row of lid if there is one; INSERT pn if there is none. */
  function ResolveLIDChat(table: Chats, lid: Jid, pn: Jid): Chats {
    var t := if lid in table then table[lid := false] else table;
    if pn in t then t else t[pn := false]
  }

  datatype Server = DefaultUser | HiddenUser | Group | Elsewhere(name: string)

  datatype Address = Address(user: User, server: Server)

  function ServerName(v: Server): string {
    match v
    case DefaultUser => "s.whatsapp.net"
    case HiddenUser => "lid"
    case Group => "g.us"
    case Elsewhere(name) => name
  }

  /** People and groups only. */
  predicate Reportable(a: Address) { !a.server.Elsewhere? && a.user != "" }

  function Text(a: Address): Jid
    requires a.user != ""
  {
    a.user + "@" + ServerName(a.server)
  }

  /** Of a hidden user, the number that came with the event goes before the one WhatsApp's own map knows. */
  function NumberOf(chat: Address, alt: Address, mapped: Option<Jid>): Option<Jid> {
    if !chat.server.HiddenUser? then None
    else if alt.server.DefaultUser? && alt.user != "" then Some(Text(alt))
    else mapped
  }

  // ---------- The object, one call at a time ----------

  datatype Stored = Stored(mem: Chats, table: Chats, updates: seq<Update>)

  /** A pending chat is claimed, resolved in the table if that is written, and announced. */
  function AfterAlias(s: Stored, lid: Jid, pn: Jid, stored: bool): Stored {
    if !Claims(s.mem, lid) then s
    else Stored(Claim(s.mem, lid, pn), if stored then ResolveLIDChat(s.table, lid, pn) else s.table, s.updates + [Update(pn, lid)])
  }

  class Index {
    var chats: Chats
    var table: Chats
    var updates: seq<Update>

    constructor (table: Chats)
      ensures chats == table && this.table == table && updates == []
    {
      chats, this.table, updates := table, table, [];
    }

    method MarkReported(jids: seq<Jid>, stored: bool) returns (added: seq<Jid>)
      modifies this
      ensures (chats, added) == Mark(old(chats), jids)
      ensures table == if stored then AddChats(old(table), added) else old(table)
      ensures updates == old(updates)
    {
      added := [];
      assert jids[..0] == [];
      for i := 0 to |jids|
        invariant (chats, added) == Mark(old(chats), jids[..i])
        invariant table == old(table) && updates == old(updates)
      {
        assert jids[..i + 1][..i] == jids[..i];
        var j := jids[i];
        if j !in chats {
          chats := chats[j := |j| > 4 && j[|j| - 4..] == "@lid"];
          added := added + [j];
        }
      }
      assert jids[..|jids|] == jids;
      if |added| > 0 && stored {
        table := AddChats(table, added);
      }
    }

    method Alias(lid: Jid, pn: Jid, stored: bool)
      modifies this
      ensures chats == Claim(old(chats), lid, pn)
      ensures table == if Claims(old(chats), lid) && stored then ResolveLIDChat(old(table), lid, pn) else old(table)
      ensures updates == old(updates) + if Claims(old(chats), lid) then [Update(pn, lid)] else []
      // Spelled out.
      ensures lid in old(chats) && old(chats)[lid] ==>
                && chats == old(chats)[lid := false][pn := false] && updates == old(updates) + [Update(pn, lid)]
                && (stored ==> table.Keys == old(table).Keys + {pn} && (lid in table ==> !table[lid]))
                && (stored ==> forall j :: j in table && j != lid ==> (table[j] <==> j in old(table) && old(table)[j]))
      ensures !(lid in old(chats) && old(chats)[lid] && stored) ==> table == old(table)
      ensures !(lid in old(chats) && old(chats)[lid]) ==> chats == old(chats) && updates == old(updates)
    {
      var pending := lid in chats && chats[lid];
      if pending {
        chats := chats[lid := false];
        chats := chats[pn := false];
        if stored {
          table := ResolveLIDChat(table, lid, pn);
        }
        updates := updates + [Update(pn, lid)];
      }
    }

    /**
     The name a chat is reported under: its phone number once that is known,
     and then nothing is left to announce for it.
     */
    method ChatJID(chat: Address, alt: Address, mapped: Option<Jid>, stored: bool) returns (name: Option<Jid>)
      modifies this
      ensures name.Some? <==> chat.user != "" && (chat.server.DefaultUser? || chat.server.HiddenUser? || chat.server.Group?)
      // The number of the event goes before the mapped one, and both before the @lid.
      ensures name.Some? ==>
                name == if chat.server.HiddenUser? && alt.server.DefaultUser? && alt.user != "" then Some(Text(alt))
                        else if chat.server.HiddenUser? && mapped.Some? then mapped
                        else Some(Text(chat))
      ensures name.Some? && NumberOf(chat, alt, mapped).None? ==> name.value == Text(chat)
      ensures name.Some? && NumberOf(chat, alt, mapped).Some? ==> name == NumberOf(chat, alt, mapped) && !Claims(chats, Text(chat))
      ensures var number := NumberOf(chat, alt, mapped);
        if Reportable(chat) && number.Some? && Claims(old(chats), Text(chat)) then
          && updates == old(updates) + [Update(number.value, Text(chat))]
          && chats == Claim(old(chats), Text(chat), number.value)
          && table == (if stored then ResolveLIDChat(old(table), Text(chat), number.value) else old(table))
        else
          updates == old(updates) && chats == old(chats) && table == old(table)
    {
      if !Reportable(chat) {
        return None;
      }
      if !chat.server.HiddenUser? {
        return Some(Text(chat));
      }
      var pn := if alt.server.DefaultUser? && alt.user != "" then Some(Text(alt)) else mapped;
      if pn.None? {
        return Some(Text(chat));
      }
      Alias(Text(chat), pn.value, stored);
      return pn;
    }

    ghost function View(): Stored
      reads this
    {
      Stored(chats, table, updates)
    }

    /**
     Alias for every pending chat whose number has become known: each is
     announced and no longer pending, its number is reported, nothing else
     changes, and the same holds of the table if the writes went through.
     */
    method SweepLIDs(numberOf: map<Jid, Jid>, stored: bool)
      requires OnlyLidsPend(chats) && NumbersArePlain(numberOf)
      modifies this
      ensures Swept(old(View()), View(), stored, Pending(old(chats)) * numberOf.Keys, numberOf)
      ensures OnlyLidsPend(chats) && Pending(chats) == Pending(old(chats)) - numberOf.Keys
    {
      var todo := Pending(chats);
      ghost var was := View();
      SweepStarts(was, stored, numberOf);
      while todo != {}
        invariant Sweeping(was, View(), stored, todo, numberOf)
        decreases |todo|
      {
        var l :| l in todo;
        SweepGoesOn(was, View(), stored, todo, numberOf, l);
        todo := todo - {l};
        if l in numberOf {
          Alias(l, numberOf[l], stored);
        }
      }
      SweepEnds(was, View(), stored, numberOf);
    }
  }

  /** The updates since `before` announce exactly the chats in `claimed`. */
  ghost predicate Sweeps(before: seq<Update>, us: seq<Update>, claimed: set<Jid>, numberOf: map<Jid, Jid>) {
    && |us| == |before| + |claimed| && us[..|before|] == before && claimed <= numberOf.Keys
    && (forall l :: l in claimed ==> Update(numberOf[l], l) in us[|before|..])
  }

  lemma SweepOne(before: seq<Update>, us: seq<Update>, claimed: set<Jid>, numberOf: map<Jid, Jid>, l: Jid)
    requires Sweeps(before, us, claimed, numberOf) && l in numberOf && l !in claimed
    ensures Sweeps(before, us + [Update(numberOf[l], l)], claimed + {l}, numberOf)
  {
    var us' := us + [Update(numberOf[l], l)];
    assert us'[..|before|] == us[..|before|] && us'[|before|..] == us[|before|..] + [Update(numberOf[l], l)];
  }

  function Pending(mem: Chats): set<Jid> { set j | j in mem && mem[j] }

  ghost predicate OnlyLidsPend(mem: Chats) { forall j :: j in mem && mem[j] ==> HasLidSuffix(j) }

  ghost predicate NumbersArePlain(numberOf: map<Jid, Jid>) { forall l :: l in numberOf ==> !HasLidSuffix(numberOf[l]) }

  function NumbersOf(claimed: set<Jid>, numberOf: map<Jid, Jid>): set<Jid> { set l | l in claimed && l in numberOf :: numberOf[l] }

  /** The chats in `claimed` are pending no more and their numbers are entered; every other entry is as it was. */
  ghost predicate Settles(before: Chats, after: Chats, claimed: set<Jid>, numberOf: map<Jid, Jid>) {
    && after.Keys == before.Keys + NumbersOf(claimed, numberOf)
    && (forall j :: j in after ==> (after[j] <==> j in before && before[j] && j !in claimed))
  }

  lemma NumbersOfMore(claimed: set<Jid>, numberOf: map<Jid, Jid>, l: Jid)
    requires l in numberOf
    ensures NumbersOf(claimed + {l}, numberOf) == NumbersOf(claimed, numberOf) + {numberOf[l]}
  {}

  lemma SettleInMemory(before: Chats, mem: Chats, claimed: set<Jid>, numberOf: map<Jid, Jid>, l: Jid)
    requires Settles(before, mem, claimed, numberOf) && l in numberOf && Claims(mem, l)
    requires OnlyLidsPend(before) && NumbersArePlain(numberOf)
    ensures Settles(before, Claim(mem, l, numberOf[l]), claimed + {l}, numberOf)
  {
    NumbersOfMore(claimed, numberOf, l);
  }

  lemma SettleInTable(before: Chats, table: Chats, claimed: set<Jid>, numberOf: map<Jid, Jid>, l: Jid)
    requires Settles(before, table, claimed, numberOf) && l in numberOf
    requires HasLidSuffix(l) && NumbersArePlain(numberOf)
    ensures Settles(before, ResolveLIDChat(table, l, numberOf[l]), claimed + {l}, numberOf)
  {
    NumbersOfMore(claimed, numberOf, l);
  }

  /** From `was` to `now` exactly the chats in `claimed` were settled and announced. */
  ghost predicate Swept(was: Stored, now: Stored, stored: bool, claimed: set<Jid>, numberOf: map<Jid, Jid>) {
    && Settles(was.mem, now.mem, claimed, numberOf)
    && (if stored then Settles(was.table, now.table, claimed, numberOf) else now.table == was.table)
    && Sweeps(was.updates, now.updates, claimed, numberOf)
  }

  lemma SweptOne(was: Stored, now: Stored, stored: bool, claimed: set<Jid>, numberOf: map<Jid, Jid>, l: Jid)
    requires Swept(was, now, stored, claimed, numberOf)
    requires OnlyLidsPend(was.mem) && NumbersArePlain(numberOf) && l in Pending(was.mem) && l !in claimed && l in numberOf
    ensures Swept(was, AfterAlias(now, l, numberOf[l], stored), stored, claimed + {l}, numberOf)
  {
    SettleInMemory(was.mem, now.mem, claimed, numberOf, l);
    if stored {
      SettleInTable(was.table, now.table, claimed, numberOf, l);
    }
    SweepOne(was.updates, now.updates, claimed, numberOf, l);
  }

  /** All pending chats but those in `todo` have been looked at. */
  ghost predicate Sweeping(was: Stored, now: Stored, stored: bool, todo: set<Jid>, numberOf: map<Jid, Jid>) {
    && OnlyLidsPend(was.mem) && NumbersArePlain(numberOf) && todo <= Pending(was.mem)
    && Swept(was, now, stored, (Pending(was.mem) - todo) * numberOf.Keys, numberOf)
  }

  lemma SweepStarts(was: Stored, stored: bool, numberOf: map<Jid, Jid>)
    requires OnlyLidsPend(was.mem) && NumbersArePlain(numberOf)
    ensures Sweeping(was, was, stored, Pending(was.mem), numberOf)
  {
    assert NumbersOf({}, numberOf) == {};
    assert (Pending(was.mem) - Pending(was.mem)) * numberOf.Keys == {};
  }

  lemma SweepGoesOn(was: Stored, now: Stored, stored: bool, todo: set<Jid>, numberOf: map<Jid, Jid>, l: Jid)
    requires Sweeping(was, now, stored, todo, numberOf) && l in todo
    ensures Sweeping(was, if l in numberOf then AfterAlias(now, l, numberOf[l], stored) else now, stored, todo - {l}, numberOf)
  {
    var claimed, claimed' := (Pending(was.mem) - todo) * numberOf.Keys, (Pending(was.mem) - (todo - {l})) * numberOf.Keys;
    if l in numberOf {
      assert claimed' == claimed + {l};
      SweptOne(was, now, stored, claimed, numberOf, l);
    } else {
      assert claimed' == claimed;
    }
  }

  lemma SweepEnds(was: Stored, now: Stored, stored: bool, numberOf: map<Jid, Jid>)
    requires Sweeping(was, now, stored, {}, numberOf)
    ensures Swept(was, now, stored, Pending(was.mem) * numberOf.Keys, numberOf)
    ensures OnlyLidsPend(now.mem) && Pending(now.mem) == Pending(was.mem) - numberOf.Keys
  {
    assert Pending(was.mem) - {} == Pending(was.mem);
  }

  lemma TextSpelled(user: User)
    requires user != ""
    ensures Text(Address(user, DefaultUser)) == user + "@s.whatsapp.net"
    ensures Text(Address(user, HiddenUser)) == user + "@lid" && Text(Address(user, Group)) == user + "@g.us"
    ensures HasLidSuffix(Text(Address(user, HiddenUser)))
  {
    assert user + "@" + "lid" == user + "@lid";
    assert user + "@" + "g.us" == user + "@g.us";
    assert user + "@" + "s.whatsapp.net" == user + "@s.whatsapp.net";
  }

  lemma {:induction false} MarkMembers(mem: Chats, jids: seq<Jid>)
    ensures var (m, added) := Mark(mem, jids);
      && (forall j :: j in m <==> j in mem || j in jids)
      && (forall j :: j in added <==> j in jids && j !in mem)
  {
    if jids != [] {
      var init, last := jids[..|jids| - 1], jids[|jids| - 1];
      MarkMembers(mem, init);
      assert jids == init + [last];
    }
  }

  ghost predicate NoRepeats(s: seq<Jid>) { forall a, b :: 0 <= a < b < |s| ==> s[a] != s[b] }

  lemma {:induction false} MarkOnce(mem: Chats, jids: seq<Jid>)
    ensures NoRepeats(Mark(mem, jids).1)
  {
    if jids != [] {
      var init, last := jids[..|jids| - 1], jids[|jids| - 1];
      MarkOnce(mem, init);
      MarkMembers(mem, init);
      var added := Mark(mem, init).1;
      assert forall k :: 0 <= k < |added| ==> added[k] in added;
    }
  }

  lemma {:induction false} MarkPends(mem: Chats, jids: seq<Jid>)
    ensures var m := Mark(mem, jids).0;
      && (forall j :: j in mem ==> j in m && m[j] == mem[j])
      && (forall j :: j in m && j !in mem ==> (m[j] <==> |j| > 4 && j[|j| - 4..] == "@lid"))
  {
    if jids != [] {
      MarkPends(mem, jids[..|jids| - 1]);
    }
  }

  /** markReported, spelled out: exactly the chats that were not there are new, each once, and pending if they end in "@lid". */
  lemma MarkSpelled(mem: Chats, jids: seq<Jid>)
    ensures var (m, added) := Mark(mem, jids);
      && (forall j :: j in m <==> j in mem || j in jids)
      && (forall j :: j in mem ==> m[j] == mem[j])
      && (forall j :: j in m && j !in mem ==> (m[j] <==> |j| > 4 && j[|j| - 4..] == "@lid"))
      && (forall j :: j in added <==> j in jids && j !in mem)
      && NoRepeats(added)
  {
    MarkMembers(mem, jids);
    MarkPends(mem, jids);
    MarkOnce(mem, jids);
  }

  // ---------- Interleavings ----------

  /** Where a goroutine is between its critical section and its end. */
  datatype Task =
    | ToInsert(jids: seq<Jid>)
    | ToResolve(lid: Jid, pn: Jid)
    | ToEmit(lid: Jid, pn: Jid)

  /** earlier: the updates of processes that have ended. */
  datatype System = System(mem: Chats, table: Chats, tasks: map<nat, Task>, updates: seq<Update>, earlier: seq<Update>)

  datatype Action =
    | MarkSection(t: nat, jids: seq<Jid>)
    | AliasSection(t: nat, lid: Jid, pn: Jid)
    /** ok: the store accepted the write. */
    | Advance(t: nat, ok: bool)
    | Restart

  predicate Enabled(s: System, a: Action) {
    match a
    case MarkSection(t, _) => t !in s.tasks
    case AliasSection(t, _, _) => t !in s.tasks
    case Advance(t, _) => t in s.tasks
    case Restart => true
  }

  function Apply(s: System, a: Action): System
    requires Enabled(s, a)
  {
    match a
    case MarkSection(t, jids) =>
      var (m, added) := Mark(s.mem, jids);
      s.(mem := m, tasks := if added == [] then s.tasks else s.tasks[t := ToInsert(added)])
    case AliasSection(t, lid, pn) =>
      s.(mem := Claim(s.mem, lid, pn), tasks := if Claims(s.mem, lid) then s.tasks[t := ToResolve(lid, pn)] else s.tasks)
    case Advance(t, ok) =>
      (match s.tasks[t]
       case ToInsert(jids) => s.(table := if ok then AddChats(s.table, jids) else s.table, tasks := s.tasks - {t})
       case ToResolve(lid, pn) => s.(table := if ok then ResolveLIDChat(s.table, lid, pn) else s.table, tasks := s.tasks[t := ToEmit(lid, pn)])
       case ToEmit(lid, pn) => s.(updates := s.updates + [Update(pn, lid)], tasks := s.tasks - {t}))
    case Restart => System(s.table, s.table, map[], [], s.earlier + s.updates)
  }

  ghost predicate IsRun(table: Chats, states: seq<System>, actions: seq<Action>) {
    && |states| == |actions| + 1
    && states[0] == System(table, table, map[], [], [])
    && forall i :: 0 <= i < |actions| ==> Enabled(states[i], actions[i]) && states[i + 1] == Apply(states[i], actions[i])
  }

  predicate Announces(t: Task, lid: Jid) { (t.ToResolve? || t.ToEmit?) && t.lid == lid }

  ghost predicate Announced(us: seq<Update>, lid: Jid) { exists i :: 0 <= i < |us| && us[i].aliasOf == lid }

  /** No @lid chat is announced twice. */
  ghost predicate AnnouncedOnce(us: seq<Update>) {
    forall i, j :: 0 <= i < j < |us| ==> us[i].aliasOf != us[j].aliasOf
  }

  /** Whoever announces a chat has claimed it, and nobody else can claim it again in this process. */
  ghost predicate Owned(s: System) {
    && AnnouncedOnce(s.updates)
    && (forall t, lid :: t in s.tasks && Announces(s.tasks[t], lid) ==> lid in s.mem && !s.mem[lid] && !Announced(s.updates, lid))
    && (forall t, t', lid :: t in s.tasks && t' in s.tasks && Announces(s.tasks[t], lid) && Announces(s.tasks[t'], lid) ==> t == t')
    && (forall i :: 0 <= i < |s.updates| ==> s.updates[i].aliasOf in s.mem && !s.mem[s.updates[i].aliasOf])
  }

  lemma {:induction false} MarkKeepsOld(mem: Chats, jids: seq<Jid>)
    ensures forall j :: j in mem ==> j in Mark(mem, jids).0 && Mark(mem, jids).0[j] == mem[j]
  {
    if jids != [] {
      MarkKeepsOld(mem, jids[..|jids| - 1]);
    }
  }

  lemma NotAnnounced(us: seq<Update>, lid: Jid)
    requires !Announced(us, lid)
    ensures forall i :: 0 <= i < |us| ==> us[i].aliasOf != lid
  {}

  lemma MarkOne(mem: Chats, j: Jid)
    ensures Mark(mem, [j]) == if j in mem then (mem, []) else (mem[j := PendingInMemory(j)], [j])
    ensures AddChats(mem, [j]) == if j in mem then mem else mem[j := PendingInTable(j)]
  {
    assert [j][..0] == [] && Mark(mem, []) == (mem, []) && AddChats(mem, []) == mem && [] + [j] == [j];
  }

  lemma ClaimKeepsOwned(s: System, t: nat, lid: Jid, pn: Jid)
    requires Owned(s) && t !in s.tasks && Claims(s.mem, lid)
    ensures Owned(Apply(s, AliasSection(t, lid, pn)))
  {
    var s' := Apply(s, AliasSection(t, lid, pn));
    assert !Announced(s.updates, lid);
    forall t', l | t' in s'.tasks && Announces(s'.tasks[t'], l)
      ensures l in s'.mem && !s'.mem[l] && !Announced(s'.updates, l)
    {
      assert t' != t ==> Announces(s.tasks[t'], l);
    }
  }

  lemma EmitKeepsOwned(s: System, t: nat, ok: bool)
    requires Owned(s) && t in s.tasks && s.tasks[t].ToEmit?
    ensures Owned(Apply(s, Advance(t, ok)))
  {
    var s', lid := Apply(s, Advance(t, ok)), s.tasks[t].lid;
    assert Announces(s.tasks[t], lid);
    NotAnnounced(s.updates, lid);
    forall t', l | t' in s'.tasks && Announces(s'.tasks[t'], l) ensures !Announced(s'.updates, l) {
      assert Announces(s.tasks[t'], l) && l != lid;
      NotAnnounced(s.updates, l);
    }
  }

  lemma MarkKeepsOwned(s: System, t: nat, jids: seq<Jid>)
    requires Owned(s) && t !in s.tasks
    ensures Owned(Apply(s, MarkSection(t, jids)))
  {
    MarkKeepsOld(s.mem, jids);
    var s' := Apply(s, MarkSection(t, jids));
    forall t', l | t' in s'.tasks && Announces(s'.tasks[t'], l) ensures t' in s.tasks && s.tasks[t'] == s'.tasks[t'] {}
  }

  lemma StoreKeepsOwned(s: System, t: nat, ok: bool)
    requires Owned(s) && t in s.tasks && !s.tasks[t].ToEmit?
    ensures Owned(Apply(s, Advance(t, ok)))
  {
    var s' := Apply(s, Advance(t, ok));
    forall t', l | t' in s'.tasks && Announces(s'.tasks[t'], l) ensures t' in s.tasks && Announces(s.tasks[t'], l) {}
  }

  lemma StepKeepsOwned(s: System, a: Action)
    requires Owned(s) && Enabled(s, a)
    ensures Owned(Apply(s, a))
  {
    match a
    case MarkSection(t, jids) => MarkKeepsOwned(s, t, jids);
    case AliasSection(t, lid, pn) =>
      if Claims(s.mem, lid) {
        ClaimKeepsOwned(s, t, lid, pn);
      }
    case Advance(t, ok) =>
      if s.tasks[t].ToEmit? {
        EmitKeepsOwned(s, t, ok);
      } else {
        StoreKeepsOwned(s, t, ok);
      }
    case Restart =>
  }

  /** In every interleaving, with any store failures, a process announces each chat at most once. */
  lemma {:induction false} AtMostOncePerProcess(table: Chats, states: seq<System>, actions: seq<Action>, i: nat)
    requires IsRun(table, states, actions) && i < |states|
    ensures Owned(states[i])
  {
    if i > 0 {
      AtMostOncePerProcess(table, states, actions, i - 1);
      assert Enabled(states[i - 1], actions[i - 1]);
      StepKeepsOwned(states[i - 1], actions[i - 1]);
    }
  }

  // ---------- Restarts ----------

  function All(s: System): seq<Update> { s.earlier + s.updates }

  /** The stored table knows about every announcement made so far. */
  ghost predicate Remembered(s: System) { AllResolved(All(s), s.table) }

  predicate Resolved(table: Chats, lid: Jid) { lid in table && !table[lid] }

  ghost predicate AllResolved(us: seq<Update>, table: Chats) { forall i :: 0 <= i < |us| ==> Resolved(table, us[i].aliasOf) }

  ghost predicate GoodRestarts(states: seq<System>, actions: seq<Action>)
    requires |states| == |actions| + 1
  {
    forall i :: 0 <= i < |actions| && actions[i].Restart? ==> Remembered(states[i])
  }

  ghost predicate OwnedForever(s: System) {
    && Owned(s) && AnnouncedOnce(All(s))
    && (forall i :: 0 <= i < |All(s)| ==> All(s)[i].aliasOf in s.mem && !s.mem[All(s)[i].aliasOf])
    && (forall t, lid :: t in s.tasks && Announces(s.tasks[t], lid) ==> !Announced(All(s), lid))
  }

  lemma ClaimKeepsForever(s: System, t: nat, lid: Jid, pn: Jid)
    requires OwnedForever(s) && t !in s.tasks && Claims(s.mem, lid)
    ensures OwnedForever(Apply(s, AliasSection(t, lid, pn)))
  {
    var s' := Apply(s, AliasSection(t, lid, pn));
    ClaimKeepsOwned(s, t, lid, pn);
    assert !Announced(All(s), lid);
    forall t', l | t' in s'.tasks && Announces(s'.tasks[t'], l) ensures !Announced(All(s'), l) {
      assert t' != t ==> Announces(s.tasks[t'], l);
    }
  }

  lemma EmitKeepsForever(s: System, t: nat, ok: bool)
    requires OwnedForever(s) && t in s.tasks && s.tasks[t].ToEmit?
    ensures OwnedForever(Apply(s, Advance(t, ok)))
  {
    var s', lid := Apply(s, Advance(t, ok)), s.tasks[t].lid;
    EmitKeepsOwned(s, t, ok);
    assert All(s') == All(s) + [Update(s.tasks[t].pn, lid)];
    assert Announces(s.tasks[t], lid);
    NotAnnounced(All(s), lid);
    forall t', l | t' in s'.tasks && Announces(s'.tasks[t'], l) ensures !Announced(All(s'), l) {
      assert Announces(s.tasks[t'], l) && l != lid;
      NotAnnounced(All(s), l);
    }
  }

  lemma StepKeepsForever(s: System, a: Action)
    requires OwnedForever(s) && Enabled(s, a) && (a.Restart? ==> Remembered(s))
    ensures OwnedForever(Apply(s, a))
  {
    StepKeepsOwned(s, a);
    match a
    case MarkSection(t, jids) =>
      MarkKeepsOld(s.mem, jids);
    case AliasSection(t, lid, pn) =>
      if Claims(s.mem, lid) {
        ClaimKeepsForever(s, t, lid, pn);
      }
    case Advance(t, ok) =>
      if s.tasks[t].ToEmit? {
        EmitKeepsForever(s, t, ok);
      } else if s.tasks[t].ToResolve? {
        assert Announces(s.tasks[t], s.tasks[t].lid);
      }
    case Restart =>
      assert All(Apply(s, a)) == All(s);
  }

  /** If every restart finds the announcements in the table, a chat is announced once over all processes. */
  lemma {:induction false} AtMostOnceAcrossRestarts(table: Chats, states: seq<System>, actions: seq<Action>, i: nat)
    requires IsRun(table, states, actions) && GoodRestarts(states, actions) && i < |states|
    ensures OwnedForever(states[i])
  {
    if i > 0 {
      AtMostOnceAcrossRestarts(table, states, actions, i - 1);
      assert Enabled(states[i - 1], actions[i - 1]);
      StepKeepsForever(states[i - 1], actions[i - 1]);
    }
  }

  // ---------- What the table remembers ----------

  ghost predicate PlainAliases(actions: seq<Action>) {
    forall i :: 0 <= i < |actions| && actions[i].AliasSection? ==> !HasLidSuffix(actions[i].pn)
  }

  predicate TaskOk(s: System, task: Task) {
    match task
    case ToInsert(jids) => forall k :: 0 <= k < |jids| ==> jids[k] in s.mem
    case ToResolve(lid, pn) =>
      HasLidSuffix(lid) && !HasLidSuffix(pn) && lid in s.mem && pn in s.mem && (lid in s.table ==> s.table[lid])
    case ToEmit(_, _) => true
  }

  /** Only @lid chats are pending; what is stored is in memory; what is pending in memory, or about to be resolved, is not resolved in the table. */
  ghost predicate Consistent(s: System) {
    && OnlyLidsPend(s.mem) && OnlyLidsPend(s.table) && s.table.Keys <= s.mem.Keys
    && (forall j :: j in s.mem && s.mem[j] && j in s.table ==> s.table[j])
    && (forall t :: t in s.tasks ==> TaskOk(s, s.tasks[t]))
  }

  predicate Plain(a: Action) { a.AliasSection? ==> !HasLidSuffix(a.pn) }

  lemma {:induction false} MarkAdds(mem: Chats, jids: seq<Jid>)
    ensures var (m, added) := Mark(mem, jids);
      && (forall j :: j in m && j !in mem ==> m[j] == PendingInMemory(j) && j in added)
      && (forall k :: 0 <= k < |added| ==> added[k] in m && added[k] !in mem)
  {
    if jids != [] {
      MarkAdds(mem, jids[..|jids| - 1]);
      MarkKeepsOld(mem, jids[..|jids| - 1]);
    }
  }

  lemma {:induction false} AddChatsAdds(table: Chats, jids: seq<Jid>)
    ensures var t := AddChats(table, jids);
      && (forall j :: j in table ==> j in t && t[j] == table[j])
      && (forall j :: j in t && j !in table ==> t[j] == PendingInTable(j) && j in jids)
      && (forall j :: j in jids ==> j in t)
  {
    if jids != [] {
      AddChatsAdds(table, jids[..|jids| - 1]);
      assert jids == jids[..|jids| - 1] + [jids[|jids| - 1]];
    }
  }

  lemma MarkKeepsConsistent(s: System, t: nat, jids: seq<Jid>)
    requires Consistent(s) && t !in s.tasks
    ensures Consistent(Apply(s, MarkSection(t, jids)))
  {
    MarkKeepsOld(s.mem, jids);
    MarkAdds(s.mem, jids);
    var s' := Apply(s, MarkSection(t, jids));
    forall t' | t' in s'.tasks ensures TaskOk(s', s'.tasks[t']) {
      assert t' in s.tasks ==> TaskOk(s, s.tasks[t']);
    }
  }

  lemma ClaimKeepsConsistent(s: System, t: nat, lid: Jid, pn: Jid)
    requires Consistent(s) && t !in s.tasks && !HasLidSuffix(pn)
    ensures Consistent(Apply(s, AliasSection(t, lid, pn)))
  {
    var s' := Apply(s, AliasSection(t, lid, pn));
    forall t' | t' in s'.tasks ensures TaskOk(s', s'.tasks[t']) {
      assert t' in s.tasks ==> TaskOk(s, s.tasks[t']);
    }
  }

  lemma InsertKeepsConsistent(s: System, t: nat, ok: bool)
    requires Consistent(s) && t in s.tasks && s.tasks[t].ToInsert?
    ensures Consistent(Apply(s, Advance(t, ok)))
  {
    var s', jids := Apply(s, Advance(t, ok)), s.tasks[t].jids;
    assert TaskOk(s, s.tasks[t]);
    AddChatsAdds(s.table, jids);
    forall t' | t' in s'.tasks ensures TaskOk(s', s'.tasks[t']) {
      assert TaskOk(s, s.tasks[t']);
    }
  }

  lemma ResolveKeepsConsistent(s: System, t: nat, ok: bool)
    requires Consistent(s) && Owned(s) && t in s.tasks && s.tasks[t].ToResolve?
    ensures Consistent(Apply(s, Advance(t, ok)))
  {
    var s', lid := Apply(s, Advance(t, ok)), s.tasks[t].lid;
    assert TaskOk(s, s.tasks[t]) && Announces(s.tasks[t], lid);
    forall t' | t' in s'.tasks ensures TaskOk(s', s'.tasks[t']) {
      if t' != t {
        assert TaskOk(s, s.tasks[t']);
        assert Announces(s.tasks[t'], lid) ==> t' == t;
      }
    }
  }

  lemma StepKeepsConsistent(s: System, a: Action)
    requires Consistent(s) && Owned(s) && Enabled(s, a) && Plain(a)
    ensures Consistent(Apply(s, a))
  {
    match a
    case MarkSection(t, jids) => MarkKeepsConsistent(s, t, jids);
    case AliasSection(t, lid, pn) => ClaimKeepsConsistent(s, t, lid, pn);
    case Advance(t, ok) =>
      if s.tasks[t].ToInsert? {
        InsertKeepsConsistent(s, t, ok);
      } else if s.tasks[t].ToResolve? {
        ResolveKeepsConsistent(s, t, ok);
      }
    case Restart =>
  }

  lemma {:induction false} EveryStateConsistent(table: Chats, states: seq<System>, actions: seq<Action>, i: nat)
    requires IsRun(table, states, actions) && OnlyLidsPend(table) && PlainAliases(actions) && i < |states|
    ensures Consistent(states[i]) && Owned(states[i])
  {
    AtMostOncePerProcess(table, states, actions, i);
    if i > 0 {
      EveryStateConsistent(table, states, actions, i - 1);
      assert Enabled(states[i - 1], actions[i - 1]);
      StepKeepsConsistent(states[i - 1], actions[i - 1]);
    }
  }

  /** Nothing that this process still does changes what the table knows of lid's alias. */
  ghost predicate Settled(s: System, lid: Jid) {
    && HasLidSuffix(lid) && Resolved(s.mem, lid)
    && (forall t :: t in s.tasks ==> !ResolvesToo(s.tasks[t], lid))
  }

  predicate ResolvesToo(task: Task, lid: Jid) { task.ToResolve? && (task.lid == lid || task.pn == lid) }

  lemma SettledStays(s: System, a: Action, lid: Jid)
    requires Settled(s, lid) && Consistent(s) && Enabled(s, a) && Plain(a) && !a.Restart?
    ensures Settled(Apply(s, a), lid) && Resolved(Apply(s, a).table, lid) == Resolved(s.table, lid)
  {
    var s' := Apply(s, a);
    match a
    case MarkSection(t, jids) =>
      MarkKeepsOld(s.mem, jids);
      assert forall t' :: t' in s'.tasks && s'.tasks[t'].ToResolve? ==> t' in s.tasks && s.tasks[t'] == s'.tasks[t'];
    case AliasSection(t, l, pn) =>
      assert forall t' :: t' in s'.tasks && ResolvesToo(s'.tasks[t'], lid) ==> t' in s.tasks && s.tasks[t'] == s'.tasks[t'];
    case Advance(t, ok) =>
      assert !ResolvesToo(s.tasks[t], lid);
      assert forall t' :: t' in s'.tasks && s'.tasks[t'].ToResolve? ==> t' in s.tasks && s.tasks[t'] == s'.tasks[t'];
      if s.tasks[t].ToInsert? {
        AddChatsAdds(s.table, s.tasks[t].jids);
        PendingAlike(lid);
      }
  }

  /** After the write that resolves lid. */
  lemma ResolveSettles(s: System, t: nat, ok: bool)
    requires Consistent(s) && Owned(s) && t in s.tasks && s.tasks[t].ToResolve?
    ensures var lid, s' := s.tasks[t].lid, Apply(s, Advance(t, ok));
      Settled(s', lid) && Resolved(s'.table, lid) == (ok && lid in s.table)
  {
    var s', lid := Apply(s, Advance(t, ok)), s.tasks[t].lid;
    assert TaskOk(s, s.tasks[t]) && Announces(s.tasks[t], lid);
    forall t' | t' in s'.tasks ensures !ResolvesToo(s'.tasks[t'], lid) {
      if t' != t {
        assert TaskOk(s, s.tasks[t']);
        assert Announces(s.tasks[t'], lid) ==> t' == t;
      }
    }
  }

  ghost predicate NoRestart(actions: seq<Action>, from: nat, to: nat) {
    forall i :: from <= i < to && i < |actions| ==> !actions[i].Restart?
  }

  /**
   Over every run: until the process ends the table remembers that a chat has
   got its alias exactly if, when its resolve was written, the write went
   through and the chat had been inserted before.
   */
  lemma {:induction false} RememberedIff(table: Chats, states: seq<System>, actions: seq<Action>, k: nat, n: nat)
    requires IsRun(table, states, actions) && OnlyLidsPend(table) && PlainAliases(actions) && k < n < |states|
    requires actions[k].Advance? && actions[k].t in states[k].tasks && states[k].tasks[actions[k].t].ToResolve?
    requires NoRestart(actions, k, n)
    ensures var lid := states[k].tasks[actions[k].t].lid;
      Settled(states[n], lid) && (Resolved(states[n].table, lid) <==> actions[k].ok && lid in states[k].table)
  {
    assert Enabled(states[n - 1], actions[n - 1]);
    EveryStateConsistent(table, states, actions, n - 1);
    if k == n - 1 {
      ResolveSettles(states[k], actions[k].t, actions[k].ok);
    } else {
      RememberedIff(table, states, actions, k, n - 1);
      SettledStays(states[n - 1], actions[n - 1], states[k].tasks[actions[k].t].lid);
    }
  }

  // ---------- Restarts that forget nothing, by what was done ----------

  predicate InsertsToo(task: Task, lid: Jid) { task.ToInsert? && lid in task.jids }

  /** The write went through, and a resolve did not overtake the insert of its chat. */
  ghost predicate InTurn(s: System, a: Action) {
    a.Advance? && a.t in s.tasks && !s.tasks[a.t].ToEmit? ==>
      && a.ok
      && (s.tasks[a.t].ToResolve? ==> forall t :: t in s.tasks ==> !InsertsToo(s.tasks[t], s.tasks[a.t].lid))
  }

  ghost predicate AllInTurn(states: seq<System>, actions: seq<Action>)
    requires |states| == |actions| + 1
  {
    forall i :: 0 <= i < |actions| ==> InTurn(states[i], actions[i])
  }

  ghost predicate BeingInserted(s: System, j: Jid) { exists t :: t in s.tasks && InsertsToo(s.tasks[t], j) }

  /** Every @lid chat in memory is stored or about to be, and every announced one is resolved in the table. */
  ghost predicate Kept(s: System) {
    && (forall j :: j in s.mem && HasLidSuffix(j) ==> j in s.table || BeingInserted(s, j))
    && (forall t :: t in s.tasks && s.tasks[t].ToEmit? ==> Resolved(s.table, s.tasks[t].lid))
    && Remembered(s)
  }

  lemma MarkKeepsKept(s: System, t: nat, jids: seq<Jid>)
    requires Kept(s) && t !in s.tasks
    ensures Kept(Apply(s, MarkSection(t, jids)))
  {
    MarkAdds(s.mem, jids);
    var s' := Apply(s, MarkSection(t, jids));
    assert All(s') == All(s);
    assert forall t' :: t' in s.tasks ==> t' in s'.tasks && s'.tasks[t'] == s.tasks[t'];
    forall j | j in s'.mem && HasLidSuffix(j) ensures j in s'.table || BeingInserted(s', j) {
      if j !in s.mem {
        assert InsertsToo(s'.tasks[t], j);
      } else if j !in s.table {
        var t' :| t' in s.tasks && InsertsToo(s.tasks[t'], j);
        assert InsertsToo(s'.tasks[t'], j);
      }
    }
  }

  lemma ClaimKeepsKept(s: System, t: nat, lid: Jid, pn: Jid)
    requires Kept(s) && t !in s.tasks && !HasLidSuffix(pn)
    ensures Kept(Apply(s, AliasSection(t, lid, pn)))
  {
    var s' := Apply(s, AliasSection(t, lid, pn));
    assert All(s') == All(s);
    assert forall t' :: t' in s.tasks ==> t' in s'.tasks && s'.tasks[t'] == s.tasks[t'];
    forall j | j in s'.mem && HasLidSuffix(j) ensures j in s'.table || BeingInserted(s', j) {
      if j !in s.table {
        var t' :| t' in s.tasks && InsertsToo(s.tasks[t'], j);
        assert InsertsToo(s'.tasks[t'], j);
      }
    }
  }

  lemma InsertKeepsKept(s: System, t: nat)
    requires Kept(s) && t in s.tasks && s.tasks[t].ToInsert?
    ensures Kept(Apply(s, Advance(t, true)))
  {
    var s' := Apply(s, Advance(t, true));
    assert All(s') == All(s);
    AddChatsAdds(s.table, s.tasks[t].jids);
    forall j | j in s'.mem && HasLidSuffix(j) ensures j in s'.table || BeingInserted(s', j) {
      if j !in s'.table {
        var t' :| t' in s.tasks && InsertsToo(s.tasks[t'], j);
        assert t' in s'.tasks && InsertsToo(s'.tasks[t'], j);
      }
    }
  }

  lemma ResolveKeepsKept(s: System, t: nat)
    requires Kept(s) && Consistent(s) && t in s.tasks && s.tasks[t].ToResolve? && InTurn(s, Advance(t, true))
    ensures Kept(Apply(s, Advance(t, true)))
  {
    var s', lid := Apply(s, Advance(t, true)), s.tasks[t].lid;
    assert All(s') == All(s);
    assert TaskOk(s, s.tasks[t]);
    assert !BeingInserted(s, lid);
    forall j | j in s'.mem && HasLidSuffix(j) ensures j in s'.table || BeingInserted(s', j) {
      if j !in s.table {
        var t' :| t' in s.tasks && InsertsToo(s.tasks[t'], j);
        assert t' in s'.tasks && InsertsToo(s'.tasks[t'], j);
      }
    }
  }

  lemma EmitKeepsKept(s: System, t: nat, ok: bool)
    requires Kept(s) && t in s.tasks && s.tasks[t].ToEmit?
    ensures Kept(Apply(s, Advance(t, ok)))
  {
    var s' := Apply(s, Advance(t, ok));
    assert All(s') == All(s) + [Update(s.tasks[t].pn, s.tasks[t].lid)];
    forall j | j in s'.mem && HasLidSuffix(j) ensures j in s'.table || BeingInserted(s', j) {
      if j !in s.table {
        var t' :| t' in s.tasks && InsertsToo(s.tasks[t'], j);
        assert t' in s'.tasks && InsertsToo(s'.tasks[t'], j);
      }
    }
  }

  lemma StepKeepsKept(s: System, a: Action)
    requires Kept(s) && Consistent(s) && Enabled(s, a) && Plain(a) && InTurn(s, a)
    ensures Kept(Apply(s, a))
  {
    match a
    case MarkSection(t, jids) => MarkKeepsKept(s, t, jids);
    case AliasSection(t, lid, pn) => ClaimKeepsKept(s, t, lid, pn);
    case Advance(t, ok) =>
      if s.tasks[t].ToInsert? {
        InsertKeepsKept(s, t);
      } else if s.tasks[t].ToResolve? {
        ResolveKeepsKept(s, t);
      } else {
        EmitKeepsKept(s, t, ok);
      }
    case Restart => assert All(Apply(s, a)) == All(s);
  }

  lemma {:induction false} EveryStateKept(table: Chats, states: seq<System>, actions: seq<Action>, i: nat)
    requires IsRun(table, states, actions) && OnlyLidsPend(table) && PlainAliases(actions) && AllInTurn(states, actions)
    requires i < |states|
    ensures Kept(states[i])
  {
    if i > 0 {
      EveryStateKept(table, states, actions, i - 1);
      EveryStateConsistent(table, states, actions, i - 1);
      assert Enabled(states[i - 1], actions[i - 1]) && InTurn(states[i - 1], actions[i - 1]);
      StepKeepsKept(states[i - 1], actions[i - 1]);
    }
  }

  /**
   Section 5.12 of the protocol: one announcement a chat, restarts included, in every
   interleaving in which the writes go through and no resolve is written while
   the insert of its chat is still to come.
   */
  lemma AnnouncedOnceIfInTurn(table: Chats, states: seq<System>, actions: seq<Action>, i: nat)
    requires IsRun(table, states, actions) && OnlyLidsPend(table) && PlainAliases(actions) && AllInTurn(states, actions)
    requires i < |states|
    ensures AnnouncedOnce(All(states[i]))
  {
    forall k | 0 <= k < |actions| && actions[k].Restart? ensures Remembered(states[k]) {
      EveryStateKept(table, states, actions, k);
    }
    AtMostOnceAcrossRestarts(table, states, actions, i);
  }

  // ---------- Runs in which a chat is announced twice ----------

  ghost predicate Reaches(s: System) {
    exists states: seq<System>, actions: seq<Action> :: IsRun(map[], states, actions) && states[|actions|] == s
  }

  lemma ReachStart()
    ensures Reaches(System(map[], map[], map[], [], []))
  {
    assert IsRun(map[], [System(map[], map[], map[], [], [])], []);
  }

  lemma Reach(s: System, a: Action)
    requires Reaches(s) && Enabled(s, a)
    ensures Reaches(Apply(s, a))
  {
    var states: seq<System>, actions: seq<Action> :| IsRun(map[], states, actions) && states[|actions|] == s;
    var states', actions' := states + [Apply(s, a)], actions + [a];
    forall i | 0 <= i < |actions'| ensures Enabled(states'[i], actions'[i]) && states'[i + 1] == Apply(states'[i], actions'[i]) {
      assert i < |actions| ==> Enabled(states[i], actions[i]);
    }
    assert IsRun(map[], states', actions') && states'[|actions'|] == Apply(s, a);
  }

  /** A pending chat that no goroutine works on is announced by one lookup. */
  lemma AnnounceAgain(s: System, t: nat, lid: Jid, pn: Jid) returns (s': System)
    requires Reaches(s) && Claims(s.mem, lid) && t !in s.tasks
    ensures Reaches(s') && All(s') == All(s) + [Update(pn, lid)]
  {
    Reach(s, AliasSection(t, lid, pn));
    var s1 := Apply(s, AliasSection(t, lid, pn));
    Reach(s1, Advance(t, true));
    var s2 := Apply(s1, Advance(t, true));
    Reach(s2, Advance(t, true));
    s' := Apply(s2, Advance(t, true));
  }

  lemma TwiceIn(us: seq<Update>, lid: Jid, pn: Jid)
    requires Announced(us, lid)
    ensures !AnnouncedOnce(us + [Update(pn, lid)])
  {
    var i :| 0 <= i < |us| && us[i].aliasOf == lid;
    var all := us + [Update(pn, lid)];
    assert all[i].aliasOf == all[|us|].aliasOf;
  }

  /** From any reachable state in which the table has forgotten an announcement, a restart, a report and a lookup make it again. */
  lemma ForgottenIsAnnouncedAgain(s: System, lid: Jid, pn: Jid) returns (s': System)
    requires Reaches(s) && Announced(All(s), lid) && PendingInMemory(lid) && !Resolved(s.table, lid)
    ensures Reaches(s') && !AnnouncedOnce(All(s'))
  {
    Reach(s, Restart);
    var s1 := Apply(s, Restart);
    MarkOne(s1.mem, lid);
    Reach(s1, MarkSection(0, [lid]));
    var s2 := Apply(s1, MarkSection(0, [lid]));
    s' := AnnounceAgain(s2, 1, lid, pn);
    assert All(s2) == All(s);
    TwiceIn(All(s), lid, pn);
  }

  /** A chat that has been marked, and whose insert is still to come. */
  function MarkedOnly(lid: Jid): System { System(map[lid := true], map[], map[1 := ToInsert([lid])], [], []) }

  lemma MarkedReached(lid: Jid)
    requires PendingInMemory(lid)
    ensures Reaches(MarkedOnly(lid))
  {
    ReachStart();
    MarkOne(map[], lid);
    Reach(System(map[], map[], map[], [], []), MarkSection(1, [lid]));
  }

  /** How it gets forgotten: markReported's insert lands after the alias has been resolved. */
  lemma LateInsertForgets(lid: Jid, pn: Jid) returns (s: System)
    requires PendingInMemory(lid) && lid != pn
    ensures Reaches(s) && Announced(All(s), lid) && !Resolved(s.table, lid) && s.tasks == map[]
  {
    MarkedReached(lid);
    var s1 := Apply(MarkedOnly(lid), AliasSection(2, lid, pn));
    Reach(MarkedOnly(lid), AliasSection(2, lid, pn));
    var s2 := Apply(s1, Advance(2, true));
    Reach(s1, Advance(2, true));
    var s3 := Apply(s2, Advance(2, true));
    Reach(s2, Advance(2, true));
    MarkOne(s3.table, lid);
    Reach(s3, Advance(1, true));
    s := Apply(s3, Advance(1, true));
    assert All(s)[0].aliasOf == lid;
  }

  /** Or the write of the alias fails. */
  lemma FailedResolveForgets(lid: Jid, pn: Jid) returns (s: System)
    requires PendingInMemory(lid) && lid != pn
    ensures Reaches(s) && Announced(All(s), lid) && !Resolved(s.table, lid) && s.tasks == map[]
  {
    MarkedReached(lid);
    MarkOne(map[], lid);
    var s1 := Apply(MarkedOnly(lid), Advance(1, true));
    Reach(MarkedOnly(lid), Advance(1, true));
    var s2 := Apply(s1, AliasSection(2, lid, pn));
    Reach(s1, AliasSection(2, lid, pn));
    var s3 := Apply(s2, Advance(2, false));
    Reach(s2, Advance(2, false));
    Reach(s3, Advance(2, true));
    s := Apply(s3, Advance(2, true));
    assert All(s)[0].aliasOf == lid;
  }

  /** Section 5.12 of the protocol says once, also across restarts: not so for any @lid chat and number. */
  lemma AnnouncedTwice(lid: Jid, pn: Jid)
    requires PendingInMemory(lid) && lid != pn
    ensures exists s: System :: Reaches(s) && !AnnouncedOnce(All(s))
  {
    var s := LateInsertForgets(lid, pn);
    var s' := ForgottenIsAnnouncedAgain(s, lid, pn);
  }

  // ---------- A run in which a chat is never announced ----------

  /** lid has got its alias, nobody has announced it and nobody is about to. */
  ghost predicate Unannounced(s: System, lid: Jid) {
    && Resolved(s.mem, lid) && Resolved(s.table, lid) && !Announced(All(s), lid)
    && (forall t :: t in s.tasks ==> !Announces(s.tasks[t], lid))
  }

  lemma StepKeepsUnannounced(s: System, a: Action, lid: Jid)
    requires Unannounced(s, lid) && Enabled(s, a)
    ensures Unannounced(Apply(s, a), lid)
  {
    var s' := Apply(s, a);
    match a
    case MarkSection(_, jids) =>
      MarkKeepsOld(s.mem, jids);
      assert All(s') == All(s);
    case AliasSection(_, _, _) => assert All(s') == All(s);
    case Advance(t, _) =>
      if s.tasks[t].ToEmit? {
        assert !Announces(s.tasks[t], lid);
        assert All(s') == All(s) + [Update(s.tasks[t].pn, s.tasks[t].lid)];
      } else {
        assert All(s') == All(s);
        assert s.tasks[t].ToResolve? ==> !Announces(s.tasks[t], lid);
        if s.tasks[t].ToInsert? {
          AddChatsAdds(s.table, s.tasks[t].jids);
        }
      }
    case Restart => assert All(s') == All(s);
  }

  /** Then it stays so, whatever happens and however often the process restarts. */
  lemma {:induction false} UnannouncedForGood(table: Chats, states: seq<System>, actions: seq<Action>, lid: Jid, i: nat, j: nat)
    requires IsRun(table, states, actions) && i <= j < |states| && Unannounced(states[i], lid)
    ensures Unannounced(states[j], lid)
  {
    if i < j {
      UnannouncedForGood(table, states, actions, lid, i, j - 1);
      assert Enabled(states[j - 1], actions[j - 1]);
      StepKeepsUnannounced(states[j - 1], actions[j - 1], lid);
    }
  }

  /** The process ends between the write of the alias and its announcement. */
  lemma AnnouncementIsLost(lid: Jid, pn: Jid) returns (s: System)
    requires PendingInMemory(lid) && lid != pn
    ensures Reaches(s) && Unannounced(s, lid)
  {
    MarkedReached(lid);
    MarkOne(map[], lid);
    var s1 := Apply(MarkedOnly(lid), Advance(1, true));
    Reach(MarkedOnly(lid), Advance(1, true));
    var s2 := Apply(s1, AliasSection(2, lid, pn));
    Reach(s1, AliasSection(2, lid, pn));
    var s3 := Apply(s2, Advance(2, true));
    Reach(s2, Advance(2, true));
    Reach(s3, Restart);
    s := Apply(s3, Restart);
    assert All(s) == [];
  }

  // ---------- Whole steps ----------

  datatype Step = MarkAll(jids: seq<Jid>) | AliasOne(lid: Jid, pn: Jid) | NewProcess

  /** An alias is a phone number, never itself a @lid. */
  ghost predicate Ordinary(st: Step) { st.AliasOne? ==> !HasLidSuffix(st.pn) }

  /** Critical section, successful write and announcement in one go. */
  function Whole(s: Stored, st: Step): Stored {
    match st
    case MarkAll(jids) =>
      var (m, added) := Mark(s.mem, jids);
      s.(mem := m, table := AddChats(s.table, added))
    case AliasOne(lid, pn) =>
      AfterAlias(s, lid, pn, true)
    case NewProcess => s.(mem := s.table)
  }

  ghost predicate InStep(s: Stored) {
    && s.mem == s.table && OnlyLidsPend(s.mem) && AnnouncedOnce(s.updates)
    && (forall i :: 0 <= i < |s.updates| ==> s.updates[i].aliasOf in s.mem && !s.mem[s.updates[i].aliasOf])
  }

  lemma {:induction false} MarkIsAddChats(mem: Chats, jids: seq<Jid>)
    requires OnlyLidsPend(mem)
    ensures var (m, added) := Mark(mem, jids); AddChats(mem, added) == m && OnlyLidsPend(m)
  {
    if jids != [] {
      var j := jids[|jids| - 1];
      assert jids == jids[..|jids| - 1] + [j];
      MarkIsAddChats(mem, jids[..|jids| - 1]);
      PendingAlike(j);
      var added := Mark(mem, jids[..|jids| - 1]).1;
      assert (added + [j])[..|added|] == added;
    }
  }

  /** Memory and table stay equal, and every chat is announced at most once, restarts included. */
  lemma WholeStepKeepsInStep(s: Stored, st: Step)
    requires InStep(s) && Ordinary(st)
    ensures InStep(Whole(s, st))
  {
    match st
    case MarkAll(jids) =>
      MarkIsAddChats(s.mem, jids);
      MarkKeepsOld(s.mem, jids);
    case AliasOne(lid, pn) =>
      if pn in s.mem {
        assert !s.mem[pn];
      }
    case NewProcess =>
  }

  lemma {:induction false} WholeRun(states: seq<Stored>, steps: seq<Step>, i: nat)
    requires |states| == |steps| + 1 && states[0] == Stored(map[], map[], [])
    requires forall k :: 0 <= k < |steps| ==> Ordinary(steps[k]) && states[k + 1] == Whole(states[k], steps[k])
    requires i < |states|
    ensures InStep(states[i])
  {
    if i > 0 {
      WholeRun(states, steps, i - 1);
      WholeStepKeepsInStep(states[i - 1], steps[i - 1]);
    }
  }
}
