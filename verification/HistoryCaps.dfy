/**
 Caps.Filter of internal/history/history.go: a day cap, a per-chat message cap
 counted over the whole process, and two stable sorts. What survives is
 described per time stamp, which says both which messages are kept and in
 which order.
 */
module HistoryCaps {
  import opened Prelude
  import opened Messages

  function Cutoff(nowMillis: int, days: int): int { nowMillis - days * 86400000 }

  // ---------- Stable sorting (sort.SliceStable) ----------

  function Key(m: Message, newestFirst: bool): int { if newestFirst then -m.ts else m.ts }

  function Insert(m: Message, s: seq<Message>, newestFirst: bool): seq<Message> {
    if s == [] || Key(m, newestFirst) <= Key(s[0], newestFirst) then [m] + s
    else [s[0]] + Insert(m, s[1..], newestFirst)
  }

  /** The stable sort: every message goes before the later ones of the same time. */
  function StableSort(s: seq<Message>, newestFirst: bool): seq<Message> {
    if s == [] then [] else Insert(s[0], StableSort(s[1..], newestFirst), newestFirst)
  }

  ghost predicate Sorted(s: seq<Message>, newestFirst: bool) {
    forall i, j :: 0 <= i < j < |s| ==> Key(s[i], newestFirst) <= Key(s[j], newestFirst)
  }

  /** The messages of one time, in order. */
  function At(s: seq<Message>, ts: int): seq<Message> {
    if s == [] then [] else (if s[0].ts == ts then [s[0]] else []) + At(s[1..], ts)
  }

  lemma {:induction false} AtAppend(a: seq<Message>, b: seq<Message>, ts: int)
    ensures At(a + b, ts) == At(a, ts) + At(b, ts)
  {
    if a == [] {
      assert a + b == b;
    } else {
      assert (a + b)[0] == a[0] && (a + b)[1..] == a[1..] + b;
      AtAppend(a[1..], b, ts);
      var first := if a[0].ts == ts then [a[0]] else [];
      assert first + (At(a[1..], ts) + At(b, ts)) == (first + At(a[1..], ts)) + At(b, ts);
    }
  }

  lemma {:induction false} AtEmpty(s: seq<Message>, ts: int)
    ensures At(s, ts) == [] <==> forall i :: 0 <= i < |s| ==> s[i].ts != ts
  {
    if s != [] {
      AtEmpty(s[1..], ts);
      if At(s, ts) == [] {
        forall i | 0 <= i < |s| ensures s[i].ts != ts {
          if i > 0 {
            assert s[1..][i - 1].ts != ts;
          }
        }
      }
    }
  }

  lemma {:induction false} InsertKeepsMessages(m: Message, s: seq<Message>, newestFirst: bool)
    ensures multiset(Insert(m, s, newestFirst)) == multiset([m]) + multiset(s)
    ensures |Insert(m, s, newestFirst)| == |s| + 1
  {
    if s != [] && Key(m, newestFirst) > Key(s[0], newestFirst) {
      InsertKeepsMessages(m, s[1..], newestFirst);
      assert s == [s[0]] + s[1..];
    }
  }

  lemma {:induction false} InsertSorts(m: Message, s: seq<Message>, newestFirst: bool)
    requires Sorted(s, newestFirst)
    ensures var r := Insert(m, s, newestFirst);
      && r != [] && Sorted(r, newestFirst)
      && (r[0] == m || (s != [] && r[0] == s[0]))
  {
    if s != [] && Key(m, newestFirst) > Key(s[0], newestFirst) {
      InsertSorts(m, s[1..], newestFirst);
      var t := Insert(m, s[1..], newestFirst);
      assert Key(s[0], newestFirst) <= Key(t[0], newestFirst);
      SortedCons(s[0], t, newestFirst);
    } else if s != [] {
      SortedCons(m, s, newestFirst);
    }
  }

  lemma SortedCons(m: Message, t: seq<Message>, newestFirst: bool)
    requires t != [] && Sorted(t, newestFirst) && Key(m, newestFirst) <= Key(t[0], newestFirst)
    ensures Sorted([m] + t, newestFirst)
  {
    forall j | 0 <= j < |t| ensures Key(m, newestFirst) <= Key(t[j], newestFirst) {
      assert j > 0 ==> Key(t[0], newestFirst) <= Key(t[j], newestFirst);
    }
  }

  lemma OneIsEmpty(a: seq<Message>, b: seq<Message>, c: seq<Message>)
    requires a == [] || b == []
    ensures a + (b + c) == b + (a + c)
  {}

  lemma {:induction false} InsertIsStable(m: Message, s: seq<Message>, newestFirst: bool, ts: int)
    ensures At(Insert(m, s, newestFirst), ts) == At([m], ts) + At(s, ts)
  {
    if s == [] || Key(m, newestFirst) <= Key(s[0], newestFirst) {
      AtAppend([m], s, ts);
    } else {
      var t := Insert(m, s[1..], newestFirst);
      InsertIsStable(m, s[1..], newestFirst, ts);
      AtAppend([s[0]], t, ts);
      AtAppend([s[0]], s[1..], ts);
      assert s == [s[0]] + s[1..];
      OneIsEmpty(At([s[0]], ts), At([m], ts), At(s[1..], ts));
    }
  }

  lemma {:induction false} SortKeepsMessages(s: seq<Message>, newestFirst: bool)
    ensures multiset(StableSort(s, newestFirst)) == multiset(s)
    ensures |StableSort(s, newestFirst)| == |s|
  {
    if s != [] {
      SortKeepsMessages(s[1..], newestFirst);
      InsertKeepsMessages(s[0], StableSort(s[1..], newestFirst), newestFirst);
      assert s == [s[0]] + s[1..];
    }
  }

  lemma {:induction false} SortSorts(s: seq<Message>, newestFirst: bool)
    ensures Sorted(StableSort(s, newestFirst), newestFirst)
  {
    if s != [] {
      SortSorts(s[1..], newestFirst);
      InsertSorts(s[0], StableSort(s[1..], newestFirst), newestFirst);
    }
  }

  lemma {:induction false} SortIsStable(s: seq<Message>, newestFirst: bool, ts: int)
    ensures At(StableSort(s, newestFirst), ts) == At(s, ts)
  {
    if s != [] {
      SortIsStable(s[1..], newestFirst, ts);
      InsertIsStable(s[0], StableSort(s[1..], newestFirst), newestFirst, ts);
      AtAppend([s[0]], s[1..], ts);
      assert s == [s[0]] + s[1..];
    }
  }

  // ---------- What one call keeps ----------

  function InWindow(msgs: seq<Message>, cutoff: int): seq<Message> {
    if msgs == [] then []
    else (if msgs[0].ts >= cutoff then [msgs[0]] else []) + InWindow(msgs[1..], cutoff)
  }

  lemma {:induction false} InWindowAppend(a: seq<Message>, m: Message, cutoff: int)
    ensures InWindow(a + [m], cutoff) == InWindow(a, cutoff) + if m.ts >= cutoff then [m] else []
  {
    if a == [] {
      assert a + [m] == [m];
    } else {
      assert (a + [m])[0] == a[0] && (a + [m])[1..] == a[1..] + [m];
      InWindowAppend(a[1..], m, cutoff);
      var first, last := if a[0].ts >= cutoff then [a[0]] else [], if m.ts >= cutoff then [m] else [];
      assert first + (InWindow(a[1..], cutoff) + last) == (first + InWindow(a[1..], cutoff)) + last;
    }
  }

  /** What the day cap leaves: every message of the last `days` times 24 hours, of each time in input order, and no other. */
  lemma {:induction false} InWindowIs(msgs: seq<Message>, nowMillis: int, days: int, ts: int)
    ensures At(InWindow(msgs, Cutoff(nowMillis, days)), ts) ==
            if ts >= nowMillis - days * 24 * 60 * 60 * 1000 then At(msgs, ts) else []
  {
    if msgs != [] {
      InWindowIs(msgs[1..], nowMillis, days, ts);
      var first := if msgs[0].ts >= Cutoff(nowMillis, days) then [msgs[0]] else [];
      AtAppend(first, InWindow(msgs[1..], Cutoff(nowMillis, days)), ts);
      assert first != [] ==> At(first, ts) == (if msgs[0].ts == ts then [msgs[0]] else []) + At([], ts);
    }
  }

  function Newest(inWindow: seq<Message>, room: nat): seq<Message> {
    var newest := StableSort(inWindow, true);
    if |newest| > room then newest[..room] else newest
  }

  function Kept(inWindow: seq<Message>, room: nat): seq<Message> {
    StableSort(Newest(inWindow, room), false)
  }

  /** Everything that is promised about the kept messages. */
  ghost predicate KeepsNewest(inWindow: seq<Message>, room: nat, kept: seq<Message>) {
    && |kept| == Min(room, |inWindow|)
    && Sorted(kept, false)
    && multiset(kept) <= multiset(inWindow)
    // Of each time the first ones in input order stay, in input order.
    && (forall ts :: At(kept, ts) <= At(inWindow, ts))
    // No dropped message is newer than a kept one.
    && (forall older, newer :: older < newer && At(kept, older) != [] ==> At(kept, newer) == At(inWindow, newer))
  }

  lemma NewestAt(inWindow: seq<Message>, room: nat, older: int, newer: int)
    requires older < newer
    ensures At(Newest(inWindow, room), older) <= At(inWindow, older)
    ensures At(Newest(inWindow, room), older) != [] ==> At(Newest(inWindow, room), newer) == At(inWindow, newer)
  {
    var s, cut := StableSort(inWindow, true), Newest(inWindow, room);
    SortSorts(inWindow, true);
    SortIsStable(inWindow, true, older);
    SortIsStable(inWindow, true, newer);
    var rest := s[|cut|..];
    assert s == cut + rest;
    AtAppend(cut, rest, older);
    AtAppend(cut, rest, newer);
    AtEmpty(cut, older);
    AtEmpty(rest, newer);
    if At(cut, older) != [] {
      var i :| 0 <= i < |cut| && cut[i].ts == older;
      forall j | 0 <= j < |rest| ensures rest[j].ts != newer {
        assert Key(s[i], true) <= Key(s[|cut| + j], true);
      }
    }
  }

  lemma KeptAt(inWindow: seq<Message>, room: nat, ts: int)
    ensures At(Kept(inWindow, room), ts) == At(Newest(inWindow, room), ts)
  {
    SortIsStable(Newest(inWindow, room), false, ts);
  }

  lemma KeptKeepsNewest(inWindow: seq<Message>, room: nat)
    ensures KeepsNewest(inWindow, room, Kept(inWindow, room))
  {
    var s, cut, kept := StableSort(inWindow, true), Newest(inWindow, room), Kept(inWindow, room);
    SortKeepsMessages(inWindow, true);
    SortKeepsMessages(cut, false);
    SortSorts(cut, false);
    assert s == cut + s[|cut|..];
    forall older, newer | older < newer && At(kept, older) != []
      ensures At(kept, newer) == At(inWindow, newer)
    {
      KeptAt(inWindow, room, older);
      KeptAt(inWindow, room, newer);
      NewestAt(inWindow, room, older, newer);
    }
    forall ts ensures At(kept, ts) <= At(inWindow, ts) {
      KeptAt(inWindow, room, ts);
      NewestAt(inWindow, room, ts, ts + 1);
    }
  }

  lemma FirstOfEqual(a: seq<Message>, b: seq<Message>)
    requires a != [] && Sorted(a, false) && Sorted(b, false)
    requires forall ts :: At(a, ts) == At(b, ts)
    ensures b != [] && a[0].ts >= b[0].ts
  {
    var t := a[0].ts;
    assert At(a, t) == At(b, t);
    AtEmpty(a, t);
    AtEmpty(b, t);
    var j :| 0 <= j < |b| && b[j].ts == t;
    assert j > 0 ==> Key(b[0], false) <= Key(b[j], false);
  }

  /** The times and what is kept of each fix the order: nothing is left to chance. */
  lemma {:induction false} OrderIsDetermined(a: seq<Message>, b: seq<Message>)
    requires Sorted(a, false) && Sorted(b, false)
    requires forall ts :: At(a, ts) == At(b, ts)
    ensures a == b
  {
    if a != [] {
      FirstOfEqual(a, b);
      FirstOfEqual(b, a);
      assert At(a, a[0].ts)[0] == At(b, a[0].ts)[0];
      forall ts ensures At(a[1..], ts) == At(b[1..], ts) {
        assert At(a, ts) == At(b, ts);
        AtAppend([a[0]], a[1..], ts);
        AtAppend([b[0]], b[1..], ts);
        assert a == [a[0]] + a[1..] && b == [b[0]] + b[1..];
        assert At(a[1..], ts) == At(a, ts)[|At([a[0]], ts)|..];
        assert At(b[1..], ts) == At(b, ts)[|At([b[0]], ts)|..];
      }
      OrderIsDetermined(a[1..], b[1..]);
      assert a == [a[0]] + a[1..] && b == [b[0]] + b[1..];
    } else if b != [] {
      FirstOfEqual(b, a);
    }
  }

  lemma {:induction false} CountAt(s: seq<Message>, m: Message)
    ensures multiset(s)[m] == multiset(At(s, m.ts))[m]
  {
    if s != [] {
      CountAt(s[1..], m);
      assert s == [s[0]] + s[1..];
    }
  }

  lemma SameSizeSubset(a: multiset<Message>, b: multiset<Message>)
    requires a <= b && |a| == |b|
    ensures a == b
  {
    assert b == a + (b - a);
    assert |b - a| == 0;
  }

  lemma CountOfPrefix(p: seq<Message>, q: seq<Message>, m: Message)
    requires p <= q
    ensures multiset(p)[m] <= multiset(q)[m]
  {
    assert q == p + q[|p|..];
  }

  lemma CountOfShorterPrefix(p: seq<Message>, q: seq<Message>)
    requires p <= q && |p| < |q|
    ensures multiset(p)[q[|p|]] < multiset(q)[q[|p|]]
  {
    assert q == p + ([q[|p|]] + q[|p| + 1..]);
  }

  lemma FewerOfEveryTime(a: seq<Message>, b: seq<Message>)
    requires forall t :: At(a, t) <= At(b, t)
    ensures multiset(a) <= multiset(b)
  {
    forall m ensures multiset(a)[m] <= multiset(b)[m] {
      CountAt(a, m);
      CountAt(b, m);
      CountOfPrefix(At(a, m.ts), At(b, m.ts), m);
    }
  }

  /** If a second, equally long selection keeps at least as much of every time, it keeps the same. */
  lemma NoMoreOfAnyTime(a: seq<Message>, b: seq<Message>, ts: int)
    requires |a| == |b| && forall t :: At(a, t) <= At(b, t)
    ensures At(a, ts) == At(b, ts)
  {
    FewerOfEveryTime(a, b);
    SameSizeSubset(multiset(a), multiset(b));
    var p, q := At(a, ts), At(b, ts);
    assert p <= q;
    if |p| < |q| {
      var m := q[|p|];
      AtTimes(b, ts);
      CountAt(a, m);
      CountAt(b, m);
      CountOfShorterPrefix(p, q);
    }
  }

  lemma {:induction false} AtTimes(s: seq<Message>, ts: int)
    ensures forall i :: 0 <= i < |At(s, ts)| ==> At(s, ts)[i].ts == ts
  {
    if s != [] {
      AtTimes(s[1..], ts);
    }
  }

  lemma PrefixesOfOne(p: seq<Message>, q: seq<Message>, whole: seq<Message>)
    requires p <= whole && q <= whole && |p| <= |q|
    ensures p <= q
  {}

  /** Both selections cut at one point in time: one keeps at least as much of every time. */
  lemma OneKeepsMore(inWindow: seq<Message>, room: nat, a: seq<Message>, b: seq<Message>, ts: int, t: int)
    requires KeepsNewest(inWindow, room, a) && KeepsNewest(inWindow, room, b)
    requires |At(a, ts)| < |At(b, ts)|
    ensures At(a, t) <= At(b, t)
  {
    assert At(b, ts) <= At(inWindow, ts);
    if t > ts {
      assert At(b, t) == At(inWindow, t);
    } else if t == ts {
      PrefixesOfOne(At(a, ts), At(b, ts), At(inWindow, ts));
    } else {
      assert At(a, t) == [];
    }
  }

  /** The promises leave exactly one result: what Filter returns. */
  lemma KeepsNewestIsDetermined(inWindow: seq<Message>, room: nat, kept: seq<Message>)
    requires KeepsNewest(inWindow, room, kept)
    ensures kept == Kept(inWindow, room)
  {
    var k := Kept(inWindow, room);
    KeptKeepsNewest(inWindow, room);
    forall ts ensures At(kept, ts) == At(k, ts) {
      assert At(kept, ts) <= At(inWindow, ts) && At(k, ts) <= At(inWindow, ts);
      if |At(kept, ts)| < |At(k, ts)| {
        forall t ensures At(kept, t) <= At(k, t) {
          OneKeepsMore(inWindow, room, kept, k, ts, t);
        }
        NoMoreOfAnyTime(kept, k, ts);
      } else if |At(k, ts)| < |At(kept, ts)| {
        forall t ensures At(k, t) <= At(kept, t) {
          OneKeepsMore(inWindow, room, k, kept, ts, t);
        }
        NoMoreOfAnyTime(k, kept, ts);
      }
    }
    OrderIsDetermined(kept, k);
  }

  // ---------- The counting object ----------

  function TotalFor(results: seq<(string, seq<Message>)>, chat: string): nat {
    if results == [] then 0
    else TotalFor(results[..|results| - 1], chat) + if results[|results| - 1].0 == chat then |results[|results| - 1].1| else 0
  }

  class Caps {
    const days: int
    const maxPerChat: int
    var counts: map<string, int>
    /** The result of every call of this process so far. */
    ghost var results: seq<(string, seq<Message>)>

    function Count(chat: string): int
      reads this
    {
      if chat in counts then counts[chat] else 0
    }

    /** The counters are the totals kept, and no chat is over its cap. */
    ghost predicate Valid()
      reads this
    {
      forall chat :: Count(chat) == TotalFor(results, chat) <= Max(maxPerChat, 0)
    }

    constructor (days: int, maxPerChat: int)
      ensures Valid() && results == [] && this.days == days && this.maxPerChat == maxPerChat
    {
      this.days, this.maxPerChat := days, maxPerChat;
      counts, results := map[], [];
    }

    method Filter(chat: string, msgs: seq<Message>, nowMillis: int) returns (kept: seq<Message>, dropped: int)
      requires Valid()
      modifies this
      ensures Valid() && results == old(results) + [(chat, kept)]
      ensures counts == old(counts)[chat := old(Count(chat)) + |kept|]
      ensures kept == Kept(InWindow(msgs, Cutoff(nowMillis, days)), Max(maxPerChat - old(Count(chat)), 0))
      ensures |kept| + dropped == |msgs|
    {
      var inWindow := DropOld(msgs, Cutoff(nowMillis, days));
      dropped := |msgs| - |inWindow|;
      var over;
      kept, over := KeepNewest(inWindow, Max(maxPerChat - Count(chat), 0));
      dropped := dropped + over;
      Record(chat, kept);
    }

    /** The counter update at the end of Filter's critical section. */
    method Record(chat: string, kept: seq<Message>)
      requires Valid() && |kept| <= Max(maxPerChat - Count(chat), 0)
      modifies this
      ensures Valid() && results == old(results) + [(chat, kept)]
      ensures counts == old(counts)[chat := old(Count(chat)) + |kept|]
    {
      counts := counts[chat := Count(chat) + |kept|];
      results := results + [(chat, kept)];
      forall c ensures Count(c) == TotalFor(results, c) <= Max(maxPerChat, 0) {
        assert old(Count(c)) == TotalFor(old(results), c) <= Max(maxPerChat, 0);
      }
    }
  }

  /** The two sorts of Filter and the cut between them. */
  method KeepNewest(inWindow: seq<Message>, room: nat) returns (kept: seq<Message>, over: int)
    ensures kept == Kept(inWindow, room)
    ensures |kept| + over == |inWindow| && |kept| <= room
  {
    kept, over := StableSort(inWindow, true), 0;
    SortKeepsMessages(inWindow, true);
    if |kept| > room {
      over := |kept| - room;
      kept := kept[..room];
    }
    SortKeepsMessages(kept, false);
    kept := StableSort(kept, false);
  }

  /** The loop of Filter. */
  method DropOld(msgs: seq<Message>, cutoff: int) returns (kept: seq<Message>)
    ensures kept == InWindow(msgs, cutoff)
  {
    kept := [];
    for i := 0 to |msgs|
      invariant kept == InWindow(msgs[..i], cutoff)
    {
      InWindowAppend(msgs[..i], msgs[i], cutoff);
      assert msgs[..i + 1] == msgs[..i] + [msgs[i]];
      if msgs[i].ts >= cutoff {
        kept := kept + [msgs[i]];
      }
    }
    assert msgs[..|msgs|] == msgs;
  }

}
