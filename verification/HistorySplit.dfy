/**
 Split of internal/history/history.go: one chat's messages are cut greedily
 into batches bounded by a message count and a byte budget. The result is
 specified without the loop's accumulator: it is a partition into batches
 that fit, and it is maximal. Every maximal partition is shown to be a
 smallest one.
 */
module HistorySplit {
  import opened Prelude
  import opened Messages

  const MAX_BATCH_MESSAGES := 200
  const MAX_BATCH_BYTES := 786432
  const ENVELOPE_OVERHEAD := 512

  function Budget(chatSize: nat): int { MAX_BATCH_BYTES - ENVELOPE_OVERHEAD - chatSize }

  /** A message and its comma. */
  function Cost(m: Message): nat { m.encodedSize + 1 }

  function TotalCost(ms: seq<Message>): nat { if ms == [] then 0 else Cost(ms[0]) + TotalCost(ms[1..]) }

  /** What one history_batch may hold: a message over the budget still travels, alone. */
  predicate Fits(batch: seq<Message>, budget: int) {
    0 < |batch| <= MAX_BATCH_MESSAGES && (|batch| == 1 || TotalCost(batch) <= budget)
  }

  ghost predicate IsPartition(parts: seq<seq<Message>>, msgs: seq<Message>, budget: int) {
    Flatten(parts) == msgs && forall i :: 0 <= i < |parts| ==> Fits(parts[i], budget)
  }

  /** Batch i could not have taken the first message of the next one. */
  ghost predicate Full(parts: seq<seq<Message>>, i: nat, budget: int)
    requires i + 1 < |parts|
  {
    parts[i + 1] != [] && !Fits(parts[i] + [parts[i + 1][0]], budget)
  }

  ghost predicate Maximal(parts: seq<seq<Message>>, budget: int) {
    forall i: nat :: i + 1 < |parts| ==> Full(parts, i, budget)
  }

  lemma {:induction false} TotalCostAppend(a: seq<Message>, b: seq<Message>)
    ensures TotalCost(a + b) == TotalCost(a) + TotalCost(b)
  {
    if a == [] {
      assert a + b == b;
    } else {
      assert (a + b)[1..] == a[1..] + b;
      TotalCostAppend(a[1..], b);
    }
  }

  /** The loop state: closed batches and the open one hold the messages read so far. */
  ghost predicate InProgress(out: seq<seq<Message>>, cur: seq<Message>, read: seq<Message>, budget: int) {
    && IsPartition(out, Flatten(out), budget) && Flatten(out) + cur == read
    && (cur == [] ==> out == [])
    && (cur != [] ==> Fits(cur, budget) && Maximal(out + [cur], budget))
  }

  method Split(chatSize: nat, msgs: seq<Message>) returns (out: seq<seq<Message>>)
    ensures IsPartition(out, msgs, Budget(chatSize))
    ensures Maximal(out, Budget(chatSize))
  {
    var budget := Budget(chatSize);
    out := [];
    var cur: seq<Message>, size := [], 0;
    for i := 0 to |msgs|
      invariant InProgress(out, cur, msgs[..i], budget)
      invariant size == TotalCost(cur)
    {
      var m := msgs[i];
      var ms := m.encodedSize + 1;
      assert msgs[..i + 1] == msgs[..i] + [m];
      TotalCostAppend(cur, [m]);
      if |cur| > 0 && (|cur| >= MAX_BATCH_MESSAGES || size + ms > budget) {
        CloseBatch(out, cur, m, msgs[..i], budget);
        out := out + [cur];
        cur, size := [], 0;
        assert cur + [m] == [m];
      } else {
        GrowBatch(out, cur, m, msgs[..i], budget);
      }
      cur := cur + [m];
      size := size + ms;
    }
    assert msgs[..|msgs|] == msgs;
    if |cur| > 0 {
      FlattenAppend(out, [cur]);
      out := out + [cur];
    }
  }

  lemma CloseBatch(out: seq<seq<Message>>, cur: seq<Message>, m: Message, read: seq<Message>, budget: int)
    requires InProgress(out, cur, read, budget) && cur != [] && !Fits(cur + [m], budget)
    ensures InProgress(out + [cur], [m], read + [m], budget)
  {
    FlattenAppend(out, [cur]);
    var a, b := out + [cur], out + [cur] + [[m]];
    forall i: nat | i + 1 < |b| ensures Full(b, i, budget) {
      if i + 1 < |a| {
        assert Full(a, i, budget);
      }
    }
  }

  lemma GrowBatch(out: seq<seq<Message>>, cur: seq<Message>, m: Message, read: seq<Message>, budget: int)
    requires InProgress(out, cur, read, budget) && Fits(cur + [m], budget)
    ensures InProgress(out, cur + [m], read + [m], budget)
  {
    if cur != [] {
      var a, b := out + [cur], out + [cur + [m]];
      forall i: nat | i + 1 < |b| ensures Full(b, i, budget) {
        assert Full(a, i, budget);
      }
    }
  }

  lemma SliceFits(batch: seq<Message>, i: nat, j: nat, budget: int)
    requires Fits(batch, budget) && i < j <= |batch|
    ensures Fits(batch[i..j], budget)
  {
    assert batch == batch[..i] + (batch[i..j] + batch[j..]);
    TotalCostAppend(batch[..i], batch[i..j] + batch[j..]);
    TotalCostAppend(batch[i..j], batch[j..]);
  }

  /**
   Greedy stays ahead: a maximal partition of what is left after any other
   partition has already covered `ahead` more messages has no more batches.
   */
  lemma {:induction false} StaysAhead(greedy: seq<seq<Message>>, other: seq<seq<Message>>, ahead: seq<Message>, budget: int)
    requires forall i :: 0 <= i < |greedy| ==> Fits(greedy[i], budget)
    requires forall i :: 0 <= i < |other| ==> Fits(other[i], budget)
    requires Maximal(greedy, budget)
    requires Flatten(other) == ahead + Flatten(greedy)
    ensures |greedy| <= |other|
    decreases |other|
  {
    if greedy != [] {
      var g, o := greedy[0], other[0];
      var rest := Flatten(greedy[1..]);
      assert Flatten(other) == o + Flatten(other[1..]) == ahead + g + rest;
      if |o| > |ahead| + |g| {
        FirstBatchCannotReach(greedy, o, Flatten(other[1..]), ahead, budget);
      }
      assert (ahead + g + rest)[|o|..] == (ahead + g)[|o|..] + rest;
      assert (o + Flatten(other[1..]))[|o|..] == Flatten(other[1..]);
      TailIsMaximal(greedy, budget);
      StaysAhead(greedy[1..], other[1..], (ahead + g)[|o|..], budget);
    }
  }

  /** A fitting batch cannot cover a maximal batch and the message after it. */
  lemma FirstBatchCannotReach(greedy: seq<seq<Message>>, o: seq<Message>, more: seq<Message>, ahead: seq<Message>, budget: int)
    requires greedy != [] && Fits(o, budget) && Maximal(greedy, budget)
    requires o + more == ahead + greedy[0] + Flatten(greedy[1..])
    ensures |o| <= |ahead| + |greedy[0]|
  {
    var g, rest := greedy[0], Flatten(greedy[1..]);
    if |o| > |ahead| + |g| {
      assert rest != [];
      assert Full(greedy, 0, budget);
      var next := greedy[1][0];
      assert rest[0] == next;
      var i, j := |ahead|, |ahead| + |g| + 1;
      assert o[i..j] == (o + more)[i..j] == (ahead + g + rest)[i..j] == g + [next];
      SliceFits(o, i, j, budget);
      assert false;
    }
  }

  /** No partition that respects the limits has fewer batches than Split's. */
  lemma SplitIsOptimal(out: seq<seq<Message>>, other: seq<seq<Message>>, msgs: seq<Message>, budget: int)
    requires IsPartition(out, msgs, budget) && Maximal(out, budget)
    requires IsPartition(other, msgs, budget)
    ensures |out| <= |other|
  {
    assert Flatten(other) == [] + Flatten(out);
    StaysAhead(out, other, [], budget);
  }

  /** The limits and maximality leave Split no freedom at all. */
  lemma {:induction false} SplitIsUnique(a: seq<seq<Message>>, b: seq<seq<Message>>, msgs: seq<Message>, budget: int)
    requires IsPartition(a, msgs, budget) && Maximal(a, budget)
    requires IsPartition(b, msgs, budget) && Maximal(b, budget)
    ensures a == b
    decreases |msgs|
  {
    if a != [] && b != [] {
      var ra, rb := Flatten(a[1..]), Flatten(b[1..]);
      FirstBatchesAgree(a, b, msgs, budget);
      assert ra == msgs[|a[0]|..] == rb;
      TailIsMaximal(a, budget);
      TailIsMaximal(b, budget);
      SplitIsUnique(a[1..], b[1..], ra, budget);
      assert a == [a[0]] + a[1..] && b == [b[0]] + b[1..];
    }
  }

  lemma FirstBatchesAgree(a: seq<seq<Message>>, b: seq<seq<Message>>, msgs: seq<Message>, budget: int)
    requires IsPartition(a, msgs, budget) && Maximal(a, budget) && a != []
    requires IsPartition(b, msgs, budget) && Maximal(b, budget) && b != []
    ensures a[0] == b[0] == msgs[..|a[0]|]
  {
    var ra, rb := Flatten(a[1..]), Flatten(b[1..]);
    assert a[0] + ra == msgs == b[0] + rb;
    NothingBefore(a[0], ra);
    NothingBefore(b[0], rb);
    FirstBatchCannotReach(b, a[0], ra, [], budget);
    FirstBatchCannotReach(a, b[0], rb, [], budget);
  }

  lemma NothingBefore(x: seq<Message>, y: seq<Message>)
    ensures [] + x + y == x + y && (x + y)[..|x|] == x
  {}

  lemma TailIsMaximal(parts: seq<seq<Message>>, budget: int)
    requires Maximal(parts, budget) && parts != []
    ensures Maximal(parts[1..], budget)
  {
    forall i: nat | i + 1 < |parts[1..]| ensures Full(parts[1..], i, budget) {
      assert Full(parts, i + 1, budget);
    }
  }

  // ---------- The limits in numbers ----------

  /** The encoded messages without their commas. */
  function Sizes(ms: seq<Message>): nat { if ms == [] then 0 else ms[0].encodedSize + Sizes(ms[1..]) }

  lemma {:induction false} CostIsSizes(ms: seq<Message>)
    ensures TotalCost(ms) == Sizes(ms) + |ms|
  {
    if ms != [] {
      CostIsSizes(ms[1..]);
    }
  }

  /**
   A batch has 1 to 200 messages; with their commas they and the chat take at
   most 786,432 - 512 bytes, unless there is one only; and it could not have
   taken the first message of the next batch.
   */
  lemma LimitsInNumbers(out: seq<seq<Message>>, msgs: seq<Message>, chatSize: nat, i: nat)
    requires IsPartition(out, msgs, Budget(chatSize)) && Maximal(out, Budget(chatSize)) && i < |out|
    ensures 1 <= |out[i]| <= 200 && (|out[i]| > 1 ==> Sizes(out[i]) + |out[i]| + chatSize <= 785_920)
    ensures i + 1 < |out| ==> out[i + 1] != []
    ensures i + 1 < |out| ==>
              (|out[i]| == 200 || Sizes(out[i]) + |out[i]| + out[i + 1][0].encodedSize + 1 + chatSize > 785_920)
  {
    assert Fits(out[i], Budget(chatSize));
    CostIsSizes(out[i]);
    if i + 1 < |out| {
      assert Full(out, i, Budget(chatSize));
      var next := out[i + 1][0];
      TotalCostAppend(out[i], [next]);
      assert TotalCost([next]) == Cost(next) + TotalCost([]);
    }
  }

  // ---------- The byte budget ----------

  lemma {:induction false} FlattenMember(parts: seq<seq<Message>>, m: Message)
    ensures m in Flatten(parts) <==> exists i :: 0 <= i < |parts| && m in parts[i]
  {
    if parts != [] {
      FlattenMember(parts[1..], m);
      if m in Flatten(parts[1..]) {
        var i :| 0 <= i < |parts[1..]| && m in parts[1..][i];
        assert m in parts[i + 1];
      }
      if i :| 0 <= i < |parts| && m in parts[i] && i > 0 {
        assert m in parts[1..][i - 1];
      }
    }
  }

  lemma CostOfMember(ms: seq<Message>, m: Message)
    requires m in ms
    ensures Cost(m) <= TotalCost(ms)
  {
    var i :| 0 <= i < |ms| && ms[i] == m;
    assert ms == ms[..i] + ([m] + ms[i + 1..]);
    TotalCostAppend(ms[..i], [m] + ms[i + 1..]);
    TotalCostAppend([m], ms[i + 1..]);
    assert TotalCost([m]) == Cost(m);
  }

  /** Every batch keeps the byte limit exactly when every message alone would. */
  lemma WithinBytesIffEachMessageIs(out: seq<seq<Message>>, msgs: seq<Message>, budget: int)
    requires IsPartition(out, msgs, budget)
    ensures (forall i :: 0 <= i < |out| ==> TotalCost(out[i]) <= budget) <==> (forall m :: m in msgs ==> Cost(m) <= budget)
  {
    if forall i :: 0 <= i < |out| ==> TotalCost(out[i]) <= budget {
      forall m | m in msgs ensures Cost(m) <= budget {
        FlattenMember(out, m);
        var i :| 0 <= i < |out| && m in out[i];
        CostOfMember(out[i], m);
      }
    }
    if forall m :: m in msgs ==> Cost(m) <= budget {
      forall i | 0 <= i < |out| ensures TotalCost(out[i]) <= budget {
        if |out[i]| == 1 {
          FlattenMember(out, out[i][0]);
          assert out[i][0] in out[i];
          assert TotalCost(out[i]) == Cost(out[i][0]);
        } else {
          assert Fits(out[i], budget);
        }
      }
    }
  }
}
