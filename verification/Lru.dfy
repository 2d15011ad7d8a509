/**
 The lru of internal/wa/commands.go, used to remember the senders of quoted
 messages: a list in order of use and a map. Its state is shown to be a
 function of the trace of operations: the most recently used distinct keys,
 each with the value last put.
 */
module Lru {
  import opened Prelude

  // ---------- Sequences of distinct keys ----------

  ghost predicate Distinct(s: seq<string>) { s == [] || (s[0] !in s[1..] && Distinct(s[1..])) }

  function Remove(s: seq<string>, k: string): seq<string> {
    if s == [] then [] else if s[0] == k then s[1..] else [s[0]] + Remove(s[1..], k)
  }

  function Take(s: seq<string>, n: nat): seq<string> { if |s| <= n then s else s[..n] }

  lemma {:induction false} RemoveMembers(s: seq<string>, k: string, x: string)
    requires Distinct(s)
    ensures x in Remove(s, k) <==> x in s && x != k
    ensures |Remove(s, k)| == if k in s then |s| - 1 else |s|
  {
    if s != [] {
      RemoveMembers(s[1..], k, x);
    }
  }

  lemma {:induction false} RemoveKeepsDistinct(s: seq<string>, k: string)
    requires Distinct(s)
    ensures Distinct(Remove(s, k))
  {
    if s != [] && s[0] != k {
      RemoveKeepsDistinct(s[1..], k);
      RemoveMembers(s[1..], k, s[0]);
    }
  }

  lemma ConsDistinct(x: string, s: seq<string>)
    requires Distinct(s) && x !in s
    ensures Distinct([x] + s)
  {
    assert ([x] + s)[1..] == s;
  }

  lemma {:induction false} InitDistinct(s: seq<string>)
    requires Distinct(s) && s != []
    ensures Distinct(s[..|s| - 1]) && s[|s| - 1] !in s[..|s| - 1]
  {
    if |s| > 1 {
      InitDistinct(s[1..]);
      assert s[..|s| - 1] == [s[0]] + s[1..][..|s| - 2];
      ConsDistinct(s[0], s[1..][..|s| - 2]);
    }
  }

  /** Moving a key to the front commutes with keeping the first n, if it is among them. */
  lemma {:induction false} RemoveInside(s: seq<string>, k: string, n: nat)
    requires Distinct(s) && k in Take(s, n)
    ensures n > 0 && Remove(Take(s, n), k) == Take(Remove(s, k), n - 1)
  {
    if s[0] != k {
      assert s == [s[0]] + s[1..];
      assert Take(s, n)[1..] == Take(s[1..], n - 1);
      RemoveInside(s[1..], k, n - 1);
    } else {
      assert Take(s, n)[1..] == Take(s[1..], n - 1);
    }
  }

  lemma {:induction false} RemoveOutside(s: seq<string>, k: string, n: nat)
    requires k !in Take(s, n)
    ensures Take(Remove(s, k), n) == Take(s, n)
  {
    if s != [] && n > 0 {
      assert Take(s, n)[1..] == Take(s[1..], n - 1);
      assert s[0] == Take(s, n)[0];
      RemoveOutside(s[1..], k, n - 1);
    }
  }

  // ---------- The object ----------

  datatype Cache = Cache(order: seq<string>, vals: map<string, string>)

  ghost predicate Consistent(c: Cache, max: nat) {
    Distinct(c.order) && (forall k :: k in c.order <==> k in c.vals) && |c.order| <= max
  }

  class LRU {
    const max: nat
    /** The list, most recently used first. */
    var order: seq<string>
    var vals: map<string, string>

    function View(): Cache
      reads this
    {
      Cache(order, vals)
    }

    constructor (max: nat)
      ensures this.max == max && View() == Cache([], map[])
    {
      this.max, order, vals := max, [], map[];
    }

    method Put(k: string, v: string)
      modifies this
      ensures View() == AfterPut(old(View()), k, v, max)
    {
      if k in vals {
        vals := vals[k := v];
        order := [k] + Remove(order, k);
        return;
      }
      order, vals := [k] + order, vals[k := v];
      if |order| > max {
        var oldest := order[|order| - 1];
        order, vals := order[..|order| - 1], vals - {oldest};
      }
    }

    method Get(k: string) returns (r: Option<string>)
      modifies this
      ensures r == Lookup(old(View()), k)
      ensures View() == AfterGet(old(View()), k)
    {
      if k in vals {
        order := [k] + Remove(order, k);
        return Some(vals[k]);
      }
      return None;
    }
  }

  function Lookup(c: Cache, k: string): Option<string> { if k in c.vals then Some(c.vals[k]) else None }

  function AfterPut(c: Cache, k: string, v: string, max: nat): Cache {
    if k in c.vals then Cache([k] + Remove(c.order, k), c.vals[k := v])
    else if |c.order| < max then Cache([k] + c.order, c.vals[k := v])
    else Cache(([k] + c.order)[..|c.order|], c.vals[k := v] - {([k] + c.order)[|c.order|]})
  }

  function AfterGet(c: Cache, k: string): Cache {
    if k in c.vals then c.(order := [k] + Remove(c.order, k)) else c
  }

  // ---------- Traces ----------

  datatype Op = Put(k: string, v: string) | Get(k: string)

  function After(c: Cache, op: Op, max: nat): Cache {
    match op
    case Put(k, v) => AfterPut(c, k, v, max)
    case Get(k) => AfterGet(c, k)
  }

  function Run(ops: seq<Op>, max: nat): Cache {
    if ops == [] then Cache([], map[]) else After(Run(ops[..|ops| - 1], max), ops[|ops| - 1], max)
  }

  /** The keys used, in order: every put, and every get that hits. */
  function Used(ops: seq<Op>, max: nat): seq<string> {
    if ops == [] then []
    else
      var before, op := ops[..|ops| - 1], ops[|ops| - 1];
      Used(before, max) + if op.Put? || Lookup(Run(before, max), op.k).Some? then [op.k] else []
  }

  /** Distinct keys, the last used first. */
  function ByRecency(used: seq<string>): seq<string> {
    if used == [] then [] else [used[|used| - 1]] + Remove(ByRecency(used[..|used| - 1]), used[|used| - 1])
  }

  function LastPut(ops: seq<Op>, k: string): Option<string> {
    if ops == [] then None
    else
      var op := ops[|ops| - 1];
      if op.Put? && op.k == k then Some(op.v) else LastPut(ops[..|ops| - 1], k)
  }

  lemma {:induction false} ByRecencyIsDistinct(used: seq<string>)
    ensures Distinct(ByRecency(used)) && (forall x :: x in ByRecency(used) <==> x in used)
  {
    if used != [] {
      var init, last := used[..|used| - 1], used[|used| - 1];
      ByRecencyIsDistinct(init);
      RemoveKeepsDistinct(ByRecency(init), last);
      forall x ensures x in Remove(ByRecency(init), last) <==> x in init && x != last {
        RemoveMembers(ByRecency(init), last, x);
      }
      ConsDistinct(last, Remove(ByRecency(init), last));
      assert used == init + [last];
    }
  }

  /** What the cache is, by the trace alone. */
  ghost predicate AgreesWith(c: Cache, used: seq<string>, ops: seq<Op>, max: nat) {
    && Consistent(c, max)
    && c.order == Take(ByRecency(used), max)
    && (forall k :: k in c.vals ==> LastPut(ops, k) == Some(c.vals[k]))
  }

  lemma UseOfPresent(order: seq<string>, used: seq<string>, k: string, max: nat)
    requires order == Take(ByRecency(used), max) && k in order && Distinct(order)
    ensures [k] + Remove(order, k) == Take(ByRecency(used + [k]), max)
    ensures var order' := [k] + Remove(order, k);
      Distinct(order') && |order'| == |order| && (forall x :: x in order' <==> x in order)
  {
    ByRecencyIsDistinct(used);
    assert (used + [k])[..|used|] == used;
    RemoveInside(ByRecency(used), k, max);
    RemoveKeepsDistinct(order, k);
    forall x ensures x in Remove(order, k) <==> x in order && x != k {
      RemoveMembers(order, k, x);
    }
    RemoveMembers(order, k, k);
    ConsDistinct(k, Remove(order, k));
  }

  lemma UseOfAbsent(order: seq<string>, used: seq<string>, k: string, max: nat)
    requires order == Take(ByRecency(used), max) && k !in order
    ensures Take([k] + order, max) == Take(ByRecency(used + [k]), max)
  {
    assert (used + [k])[..|used|] == used;
    RemoveOutside(ByRecency(used), k, max);
  }

  /** Past max the last key goes, from list and map alike. */
  lemma DropLast(order: seq<string>, vals: map<string, string>)
    requires order != [] && Distinct(order) && (forall k :: k in order <==> k in vals)
    ensures var order', vals' := order[..|order| - 1], vals - {order[|order| - 1]};
      Distinct(order') && (forall k :: k in order' <==> k in vals')
  {
    InitDistinct(order);
    assert order == order[..|order| - 1] + [order[|order| - 1]];
  }

  lemma PutAbsent(c: Cache, k: string, v: string, max: nat)
    requires Consistent(c, max) && k !in c.vals
    ensures var c' := AfterPut(c, k, v, max);
      && Consistent(c', max) && c'.order == Take([k] + c.order, max)
      && (forall x :: x in c'.vals ==> (if x == k then c'.vals[x] == v else x in c.vals && c'.vals[x] == c.vals[x]))
  {
    ConsDistinct(k, c.order);
    if |c.order| >= max {
      DropLast([k] + c.order, c.vals[k := v]);
    }
  }

  lemma LastPutSnoc(before: seq<Op>, op: Op, k: string)
    ensures LastPut(before + [op], k) == if op.Put? && op.k == k then Some(op.v) else LastPut(before, k)
  {
    assert (before + [op])[..|before|] == before;
  }

  lemma HitAgrees(c: Cache, used: seq<string>, before: seq<Op>, op: Op, max: nat)
    requires AgreesWith(c, used, before, max) && op.k in c.vals
    ensures AgreesWith(After(c, op, max), used + [op.k], before + [op], max)
  {
    UseOfPresent(c.order, used, op.k, max);
    var c' := After(c, op, max);
    forall k | k in c'.vals ensures LastPut(before + [op], k) == Some(c'.vals[k]) {
      LastPutSnoc(before, op, k);
    }
  }

  lemma MissAgrees(c: Cache, used: seq<string>, before: seq<Op>, op: Op, max: nat)
    requires AgreesWith(c, used, before, max) && op.k !in c.vals && op.Put?
    ensures AgreesWith(After(c, op, max), used + [op.k], before + [op], max)
  {
    UseOfAbsent(c.order, used, op.k, max);
    PutAbsent(c, op.k, op.v, max);
    var c' := After(c, op, max);
    forall k | k in c'.vals ensures LastPut(before + [op], k) == Some(c'.vals[k]) {
      LastPutSnoc(before, op, k);
    }
  }

  lemma GetMissAgrees(c: Cache, used: seq<string>, before: seq<Op>, op: Op, max: nat)
    requires AgreesWith(c, used, before, max) && op.k !in c.vals && op.Get?
    ensures AgreesWith(After(c, op, max), used, before + [op], max)
  {
    forall k | k in c.vals ensures LastPut(before + [op], k) == Some(c.vals[k]) {
      LastPutSnoc(before, op, k);
    }
  }

  lemma {:induction false} RunAgrees(ops: seq<Op>, max: nat)
    ensures AgreesWith(Run(ops, max), Used(ops, max), ops, max)
  {
    if ops != [] {
      var before, op := ops[..|ops| - 1], ops[|ops| - 1];
      RunAgrees(before, max);
      var c, used := Run(before, max), Used(before, max);
      assert ops == before + [op];
      if op.k in c.vals {
        HitAgrees(c, used, before, op, max);
      } else if op.Put? {
        MissAgrees(c, used, before, op, max);
      } else {
        GetMissAgrees(c, used, before, op, max);
        assert used + [] == used;
      }
    }
  }

  // ---------- How long an entry stays ----------

  function Keys(s: seq<string>): set<string> { set x | x in s }

  /** The keys in front of k. */
  function Before(s: seq<string>, k: string): set<string> {
    if s == [] || s[0] == k then {} else {s[0]} + Before(s[1..], k)
  }

  lemma {:induction false} BeforeAreMembers(s: seq<string>, k: string)
    ensures forall x :: x in Before(s, k) ==> x in s
  {
    if s != [] && s[0] != k {
      BeforeAreMembers(s[1..], k);
    }
  }

  lemma {:induction false} BeforeRemove(s: seq<string>, x: string, k: string)
    requires Distinct(s) && x != k
    ensures Before(Remove(s, x), k) == Before(s, k) - {x}
  {
    if s != [] && s[0] != k {
      BeforeAreMembers(s[1..], k);
      if s[0] != x {
        BeforeRemove(s[1..], x, k);
        assert ([s[0]] + Remove(s[1..], x))[1..] == Remove(s[1..], x);
      }
    }
  }

  lemma {:induction false} AmongFirst(s: seq<string>, k: string, n: nat)
    requires Distinct(s) && k in s
    ensures k in Take(s, n) <==> |Before(s, k)| < n
  {
    if s[0] != k {
      BeforeAreMembers(s[1..], k);
      assert |Before(s, k)| == |Before(s[1..], k)| + 1;
      if n > 0 {
        AmongFirst(s[1..], k, n - 1);
        assert Take(s, n) == [s[0]] + Take(s[1..], n - 1);
      }
    } else if n > 0 {
      assert Take(s, n)[0] == k;
    }
  }

  /** The keys in front of k are those used since its last use. */
  lemma {:induction false} InFront(before: seq<string>, k: string, later: seq<string>)
    requires k !in later
    ensures Before(ByRecency(before + [k] + later), k) == Keys(later)
  {
    var all := before + [k] + later;
    if later == [] {
      assert all[|all| - 1] == k;
    } else {
      var init, last := later[..|later| - 1], later[|later| - 1];
      assert all[..|all| - 1] == before + [k] + init;
      assert later == init + [last];
      InFront(before, k, init);
      var s := ByRecency(before + [k] + init);
      ByRecencyIsDistinct(before + [k] + init);
      BeforeRemove(s, last, k);
      assert ([last] + Remove(s, last))[1..] == Remove(s, last);
      assert Keys(later) == Keys(init) + {last};
    }
  }

  /**
   get finds a key, with the value last put, exactly as long as fewer than max
   other keys have been used since the key's own last use.
   */
  lemma StaysUntilMaxOthersUsed(ops: seq<Op>, max: nat, before: seq<string>, k: string, later: seq<string>)
    requires Used(ops, max) == before + [k] + later && k !in later
    ensures Lookup(Run(ops, max), k) == if |Keys(later)| < max then LastPut(ops, k) else None
  {
    RunAgrees(ops, max);
    InFront(before, k, later);
    ByRecencyIsDistinct(Used(ops, max));
    AmongFirst(ByRecency(Used(ops, max)), k, max);
  }

  /** A key that was never put is never found. */
  lemma NeverPutNeverFound(ops: seq<Op>, max: nat, k: string)
    requires LastPut(ops, k) == None
    ensures Lookup(Run(ops, max), k) == None
  {
    RunAgrees(ops, max);
  }
}
