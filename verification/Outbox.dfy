/**
 The voolo_sent table of internal/store/store.go: the outbox ids the bridge
 remembers, and the times at which they were handed to WhatsApp. Rows are
 listed by rowid; the SQL is given its meaning on that list.
 */
module Outbox {
  import opened Prelude

  const OUTBOX_KEEP := 1000

  datatype Row = Row(id: string, created: int, dispatched: Option<int>)

  type Table = seq<Row>

  predicate Known(t: Table, id: string) { exists i :: 0 <= i < |t| && t[i].id == id }

  // ---------- ORDER BY created_at DESC, rowid DESC LIMIT keep ----------

  /** Row j comes before row i in that order. */
  predicate Newer(t: Table, j: nat, i: nat)
    requires j < |t| && i < |t|
  {
    t[j].created > t[i].created || (t[j].created == t[i].created && j > i)
  }

  /** How many of the first n rows come before row i. */
  function Rank(t: Table, i: nat, n: nat): (r: nat)
    requires i < |t| && n <= |t|
    ensures r <= n
  {
    if n == 0 then 0 else Rank(t, i, n - 1) + if Newer(t, n - 1, i) then 1 else 0
  }

  /** DELETE ... WHERE outbox_id NOT IN (SELECT ... LIMIT keep), on the first n rows. */
  function Trim(t: Table, keep: nat, n: nat): Table
    requires n <= |t|
  {
    if n == 0 then [] else Trim(t, keep, n - 1) + if Rank(t, n - 1, |t|) < keep then [t[n - 1]] else []
  }

  // ---------- The operations ----------

  function Insert(t: Table, id: string, now: int): Table { t + [Row(id, now, None)] }

  /** The table after a reservation, and whether the id was a duplicate. */
  function Reserve(t: Table, id: string, now: int): (Table, bool) {
    if Known(t, id) then (t, true)
    else
      var t' := Insert(t, id, now);
      (Trim(t', OUTBOX_KEEP, |t'|), false)
  }

  /** What ReserveOutbox ran into. The row is in the table already when the delete fails. */
  datatype Reservation = Written | InsertFails | DeleteFails

  function DispatchedAt(t: Table, id: string, at: int): Table {
    seq(|t|, i requires 0 <= i < |t| => if t[i].id == id then t[i].(dispatched := Some(at)) else t[i])
  }

  function Later(t: Table, since: int): seq<int> {
    if t == [] then []
    else
      var last := t[|t| - 1];
      Later(t[..|t| - 1], since) + if last.dispatched.Some? && last.dispatched.value > since then [last.dispatched.value] else []
  }

  function InsertSorted(s: seq<int>, x: int): seq<int> {
    if s == [] || s[|s| - 1] <= x then s + [x] else InsertSorted(s[..|s| - 1], x) + [s[|s| - 1]]
  }

  /** ORDER BY dispatched_at, rowid. */
  function Sort(s: seq<int>): seq<int> { if s == [] then [] else InsertSorted(Sort(s[..|s| - 1]), s[|s| - 1]) }

  function RecentSends(t: Table, since: int): seq<int> { Sort(Later(t, since)) }

  lemma AscendingSnoc(s: seq<int>, x: int)
    ensures Ascending(s + [x]) <==> Ascending(s) && AtMost(s, x)
  {
    var t := s + [x];
    assert forall i :: 0 <= i < |s| ==> t[i] == s[i];
    if Ascending(t) {
      assert forall i :: 0 <= i < |s| ==> t[i] <= t[|s|];
    }
  }

  lemma {:induction false} InsertedAtMost(s: seq<int>, x: int, bound: int)
    requires AtMost(s, bound) && x <= bound
    ensures AtMost(InsertSorted(s, x), bound)
  {
    if s != [] && s[|s| - 1] > x {
      InsertedAtMost(s[..|s| - 1], x, bound);
    }
  }

  lemma SplitLast(s: seq<int>)
    requires s != []
    ensures s == s[..|s| - 1] + [s[|s| - 1]]
    ensures multiset(s) == multiset(s[..|s| - 1]) + multiset{s[|s| - 1]}
  {
    assert s == s[..|s| - 1] + [s[|s| - 1]];
  }

  lemma {:induction false} InsertedInPlace(s: seq<int>, x: int)
    requires Ascending(s)
    ensures Ascending(InsertSorted(s, x)) && multiset(InsertSorted(s, x)) == multiset(s) + multiset{x}
  {
    if s != [] && s[|s| - 1] > x {
      var t, last := s[..|s| - 1], s[|s| - 1];
      SplitLast(s);
      AscendingSnoc(t, last);
      InsertedInPlace(t, x);
      InsertedAtMost(t, x, last);
      AscendingSnoc(InsertSorted(t, x), last);
    } else {
      assert AtMost(s, x) by {
        assert forall k :: 0 <= k < |s| ==> s[k] <= s[|s| - 1];
      }
      AscendingSnoc(s, x);
    }
  }

  lemma {:induction false} SortAscends(s: seq<int>)
    ensures Ascending(Sort(s)) && multiset(Sort(s)) == multiset(s)
  {
    if s != [] {
      SplitLast(s);
      SortAscends(s[..|s| - 1]);
      InsertedInPlace(Sort(s[..|s| - 1]), s[|s| - 1]);
    }
  }

  /** Row r was handed over after `since`, at x. */
  predicate SentAt(t: Table, r: nat, since: int, x: int)
    requires r < |t|
  {
    t[r].dispatched == Some(x) && x > since
  }

  function RowsSentAt(t: Table, since: int, x: int): set<nat> { set r: nat | r < |t| && SentAt(t, r, since, x) }

  lemma RowsSentAtSnoc(t: Table, since: int, x: int)
    requires t != []
    ensures |RowsSentAt(t, since, x)| == |RowsSentAt(t[..|t| - 1], since, x)| + if SentAt(t, |t| - 1, since, x) then 1 else 0
  {
    var u, last := t[..|t| - 1], |t| - 1;
    var all, before := RowsSentAt(t, since, x), RowsSentAt(u, since, x);
    assert forall r: nat :: r < last ==> SentAt(u, r, since, x) == SentAt(t, r, since, x);
    assert all == before + if SentAt(t, last, since, x) then {last} else {};
  }

  lemma {:induction false} LaterCounts(t: Table, since: int, x: int)
    ensures multiset(Later(t, since))[x] == |RowsSentAt(t, since, x)|
  {
    if t != [] {
      LaterCounts(t[..|t| - 1], since, x);
      RowsSentAtSnoc(t, since, x);
    }
  }

  /** Whatever the clock did, the times after `since` come back in ascending order, each as often as it is in a row. */
  lemma RecentSendsAscend(t: Table, since: int, x: int)
    ensures Ascending(RecentSends(t, since))
    ensures multiset(RecentSends(t, since))[x] == |RowsSentAt(t, since, x)|
    ensures RowsSentAt(t, since, x) == if x > since then set r: nat | r < |t| && t[r].dispatched == Some(x) else {}
  {
    SortAscends(Later(t, since));
    LaterCounts(t, since, x);
  }

  lemma KnownSnoc(t: Table, row: Row, id: string)
    ensures Known(t + [row], id) <==> Known(t, id) || row.id == id
  {
    KnownAppend(t, [row], id);
    assert [row][0] == row;
  }

  class Store {
    var rows: Table

    constructor ()
      ensures rows == []
    {
      rows := [];
    }

    /** Counts the rows of an id. */
    method OutboxKnown(id: string) returns (known: bool)
      ensures known <==> Known(rows, id)
    {
      var n := 0;
      for i := 0 to |rows|
        invariant n >= 0
        invariant n > 0 <==> Known(rows[..i], id)
      {
        assert rows[..i + 1] == rows[..i] + [rows[i]];
        KnownSnoc(rows[..i], rows[i], id);
        if rows[i].id == id {
          n := n + 1;
        }
      }
      assert rows[..|rows|] == rows;
      known := n > 0;
    }

    /** ok: the update of the row of id went through. */
    method MarkDispatched(id: string, at: int, ok: bool)
      modifies this
      ensures rows == if ok then DispatchedAt(old(rows), id, at) else old(rows)
      ensures |rows| == |old(rows)|
      ensures forall i :: 0 <= i < |rows| ==>
                rows[i] == if ok && old(rows)[i].id == id then old(rows)[i].(dispatched := Some(at)) else old(rows)[i]
    {
      if !ok {
        return;
      }
      for i := 0 to |rows|
        invariant |rows| == |old(rows)|
        invariant forall j :: 0 <= j < i ==> rows[j] == DispatchedAt(old(rows), id, at)[j]
        invariant forall j :: i <= j < |rows| ==> rows[j] == old(rows)[j]
      {
        if rows[i].id == id {
          rows := rows[i := rows[i].(dispatched := Some(at))];
        }
      }
    }

    /** The insert, which does nothing for an id in the table, and then the delete: not one transaction. */
    method ReserveOutbox(id: string, now: int, outcome: Reservation) returns (dup: bool, ok: bool)
      modifies this
      ensures ok <==> outcome.Written? || (outcome.DeleteFails? && Known(old(rows), id))
      ensures ok ==> (rows, dup) == Reserve(old(rows), id, now)
      ensures !ok ==> !dup
      ensures !ok ==> rows == if outcome.InsertFails? then old(rows) else Insert(old(rows), id, now)
    {
      if outcome.InsertFails? {
        return false, false;
      }
      if Known(rows, id) {
        return true, true;
      }
      rows := Insert(rows, id, now);
      if outcome.DeleteFails? {
        return false, false;
      }
      rows := Trim(rows, OUTBOX_KEEP, |rows|);
      return false, true;
    }
  }

  // ---------- Non-decreasing reservation times ----------

  predicate NotAfter(t: Table, i: nat, j: nat)
    requires i < |t| && j < |t|
  {
    t[i].created <= t[j].created
  }

  ghost predicate InOrder(t: Table) { forall i, j :: 0 <= i < j < |t| ==> NotAfter(t, i, j) }

  predicate LastBy(t: Table, now: int) { t != [] ==> t[|t| - 1].created <= now }

  function LastRows(t: Table, n: nat): Table { if |t| <= n then t else t[|t| - n..] }

  lemma {:induction false} RankInOrder(t: Table, i: nat, n: nat)
    requires InOrder(t) && i < |t| && n <= |t|
    ensures Rank(t, i, n) == Max(n - 1 - i, 0)
  {
    if n > 0 {
      RankInOrder(t, i, n - 1);
      if i < n - 1 {
        assert NotAfter(t, i, n - 1);
      } else if n - 1 < i {
        assert NotAfter(t, n - 1, i);
      }
    }
  }

  lemma {:induction false} TrimInOrder(t: Table, keep: nat, n: nat)
    requires InOrder(t) && n <= |t|
    ensures Trim(t, keep, n) == if |t| - keep <= 0 then t[..n] else if n <= |t| - keep then [] else t[|t| - keep..n]
  {
    if n > 0 {
      TrimInOrder(t, keep, n - 1);
      RankInOrder(t, n - 1, |t|);
      var lo := Max(|t| - keep, 0);
      if n > lo {
        assert t[lo..n] == t[lo..n - 1] + [t[n - 1]];
      }
    }
  }

  lemma InsertInOrder(t: Table, id: string, now: int)
    requires InOrder(t) && LastBy(t, now)
    ensures InOrder(Insert(t, id, now))
  {
    var u := Insert(t, id, now);
    forall i, j | 0 <= i < j < |u| ensures NotAfter(u, i, j) {
      if j < |t| {
        assert NotAfter(t, i, j);
      } else if i < |t| - 1 {
        assert NotAfter(t, i, |t| - 1);
      }
    }
  }

  /** With a clock that does not go back, a reservation keeps the last OUTBOX_KEEP rows, its own last. */
  lemma ReserveInOrder(t: Table, id: string, now: int)
    requires InOrder(t) && !Known(t, id) && LastBy(t, now)
    ensures Reserve(t, id, now) == (LastRows(Insert(t, id, now), OUTBOX_KEEP), false)
  {
    var t' := Insert(t, id, now);
    InsertInOrder(t, id, now);
    TrimInOrder(t', OUTBOX_KEEP, |t'|);
    assert t'[..|t'|] == t';
  }

  // ---------- Any clock ----------

  function LaterReservations(t: Table, now: int): nat {
    if t == [] then 0 else LaterReservations(t[..|t| - 1], now) + if t[|t| - 1].created > now then 1 else 0
  }

  lemma {:induction false} RankOfNewRow(t: Table, id: string, now: int, n: nat)
    requires n <= |t|
    ensures Rank(Insert(t, id, now), |t|, n) == LaterReservations(t[..n], now)
  {
    if n > 0 {
      RankOfNewRow(t, id, now, n - 1);
      assert t[..n][..n - 1] == t[..n - 1];
    }
  }

  lemma KnownAppend(a: Table, b: Table, id: string)
    ensures Known(a + b, id) <==> Known(a, id) || Known(b, id)
  {
    var c := a + b;
    if i :| 0 <= i < |a| && a[i].id == id {
      assert c[i].id == id;
    }
    if i :| 0 <= i < |b| && b[i].id == id {
      assert c[|a| + i].id == id;
    }
    if i :| 0 <= i < |c| && c[i].id == id {
      assert if i < |a| then a[i].id == id else b[i - |a|].id == id;
    }
  }

  /** Row i among the first n stays, and is the row of `id`. */
  predicate Stays(t: Table, keep: nat, i: nat, id: string)
    requires i < |t|
  {
    t[i].id == id && Rank(t, i, |t|) < keep
  }

  lemma {:induction false} TrimmedRows(t: Table, keep: nat, n: nat, id: string)
    requires n <= |t|
    ensures Known(Trim(t, keep, n), id) <==> exists i :: 0 <= i < n && Stays(t, keep, i, id)
  {
    if n > 0 {
      TrimmedRows(t, keep, n - 1, id);
      var last := if Rank(t, n - 1, |t|) < keep then [t[n - 1]] else [];
      KnownAppend(Trim(t, keep, n - 1), last, id);
      assert Known(last, id) <==> Stays(t, keep, n - 1, id) by {
        assert last != [] ==> last[0] == t[n - 1];
      }
    }
  }

  /** The rows before row i in ORDER BY created_at DESC, rowid DESC. */
  function LaterRows(t: Table, i: nat, n: nat): set<nat>
    requires i < |t| && n <= |t|
  {
    set j: nat | j < n && (t[j].created > t[i].created || (t[j].created == t[i].created && j > i))
  }

  lemma LaterRowsSnoc(t: Table, i: nat, n: nat)
    requires i < |t| && n < |t|
    ensures |LaterRows(t, i, n + 1)| == |LaterRows(t, i, n)| + if Newer(t, n, i) then 1 else 0
  {
    var all, before := LaterRows(t, i, n + 1), LaterRows(t, i, n);
    var more: set<nat> := if Newer(t, n, i) then {n} else {};
    forall j: nat ensures j in all <==> j in before || j in more {
      assert j in all <==> j < n + 1 && Newer(t, j, i);
    }
    assert all == before + more;
  }

  lemma {:induction false} RankCounts(t: Table, i: nat, n: nat)
    requires i < |t| && n <= |t|
    ensures Rank(t, i, n) == |LaterRows(t, i, n)|
  {
    if n > 0 {
      RankCounts(t, i, n - 1);
      LaterRowsSnoc(t, i, n - 1);
    }
  }

  ghost predicate IdsDiffer(t: Table) { forall i, j :: 0 <= i < j < |t| ==> OtherId(t, i, j) }

  predicate OtherId(t: Table, i: nat, j: nat)
    requires i < |t| && j < |t|
  {
    t[i].id != t[j].id
  }

  /**
   Whatever the clock did: of the rows of a table, the new one included,
   exactly those stay after a reservation that have fewer than 1,000 rows with
   a later time, or with the same time and entered later.
   */
  lemma RowStaysIff(t: Table, id: string, now: int, i: nat)
    requires !Known(t, id) && IdsDiffer(t + [Row(id, now, None)]) && i <= |t|
    ensures var u := t + [Row(id, now, None)];
      Known(Reserve(t, id, now).0, u[i].id) <==> |LaterRows(u, i, |u|)| < 1000
  {
    var u := Insert(t, id, now);
    TrimmedRows(u, OUTBOX_KEEP, |u|, u[i].id);
    RankCounts(u, i, |u|);
    if k :| 0 <= k < |u| && Stays(u, OUTBOX_KEEP, k, u[i].id) {
      assert k < i ==> OtherId(u, k, i);
      assert i < k ==> OtherId(u, i, k);
    }
    assert |LaterRows(u, i, |u|)| < 1000 ==> Stays(u, OUTBOX_KEEP, i, u[i].id);
  }

  /**
   A reservation that is not refused is remembered exactly when fewer than
   OUTBOX_KEEP remembered ids carry a later time. When the clock has been set
   back over a full table, the new id is forgotten at once.
   */
  lemma RememberedIff(t: Table, id: string, now: int)
    requires !Known(t, id)
    ensures Known(Reserve(t, id, now).0, id) <==> LaterReservations(t, now) < OUTBOX_KEEP
  {
    var t' := Insert(t, id, now);
    TrimmedRows(t', OUTBOX_KEEP, |t'|, id);
    RankOfNewRow(t, id, now, |t|);
    assert t[..|t|] == t;
    assert Rank(t', |t|, |t'|) == Rank(t', |t|, |t|);
    assert forall i :: 0 <= i < |t| ==> t'[i] == t[i];
    assert t'[|t|].id == id;
    assert Stays(t', OUTBOX_KEEP, |t|, id) <==> LaterReservations(t, now) < OUTBOX_KEEP;
  }
}
