/**
 The send backstop of internal/wa/commands.go: the times of recent hand-overs,
 clamped when the clock has gone back and pruned to one window. Times are
 milliseconds.
 */
module Backstop {
  import opened Prelude

  const MIN_SEND_INTERVAL := 1_000
  const MAX_SENDS_IN_WINDOW := 30
  const SEND_WINDOW := 600_000

  // ---------- What the loops compute ----------

  predicate AnyFuture(s: seq<int>, now: int) { exists i :: 0 <= i < |s| && s[i] > now }

  function Pull(t: int, now: int): int { if t > now then now - MIN_SEND_INTERVAL else t }

  function Pulled(s: seq<int>, now: int): seq<int> { seq(|s|, i requires 0 <= i < |s| => Pull(s[i], now)) }

  /** Each entry raised to the largest entry up to it. */
  function RunningMax(s: seq<int>): (r: seq<int>)
    ensures |r| == |s|
  {
    if |s| <= 1 then s
    else
      var r := RunningMax(s[..|s| - 1]);
      r + [Max(s[|s| - 1], r[|r| - 1])]
  }

  function Clamp(s: seq<int>, now: int): (r: seq<int>)
    ensures |r| == |s|
  {
    if AnyFuture(s, now) then RunningMax(Pulled(s, now)) else s
  }

  /** The entries less than one window before now. */
  function Prune(s: seq<int>, now: int): (r: seq<int>)
    ensures |r| <= |s|
  {
    if s == [] then [] else Prune(s[..|s| - 1], now) + if now - s[|s| - 1] < SEND_WINDOW then [s[|s| - 1]] else []
  }

  function Kept(s: seq<int>, now: int): seq<int> { Prune(Clamp(s, now), now) }

  predicate FloorTrips(s: seq<int>, now: int) {
    var k := Kept(s, now);
    k != [] && now - k[|k| - 1] < MIN_SEND_INTERVAL
  }

  predicate Allows(s: seq<int>, now: int) { |Kept(s, now)| < MAX_SENDS_IN_WINDOW && !FloorTrips(s, now) }

  // ---------- The code ----------

  lemma {:induction false} RunningMaxStep(s: seq<int>, i: nat)
    requires 1 <= i < |s|
    ensures RunningMax(s[..i + 1]) == RunningMax(s[..i]) + [Max(s[i], RunningMax(s[..i])[i - 1])]
  {
    assert s[..i + 1][..i] == s[..i];
  }

  method ClampSends(sends: seq<int>, now: int) returns (clamped: seq<int>)
    ensures clamped == Clamp(sends, now)
  {
    clamped := sends;
    var limit := now - MIN_SEND_INTERVAL;
    var n := 0;
    for i := 0 to |sends|
      invariant |clamped| == |sends| && n >= 0
      invariant forall j :: 0 <= j < i ==> clamped[j] == Pull(sends[j], now)
      invariant forall j :: i <= j < |sends| ==> clamped[j] == sends[j]
      invariant n > 0 <==> AnyFuture(sends[..i], now)
    {
      assert sends[..i + 1] == sends[..i] + [sends[i]];
      assert sends[..i + 1][i] == sends[i];
      FutureAppend(sends[..i], sends[i], now);
      if sends[i] > now {
        clamped := clamped[i := limit];
        n := n + 1;
      }
    }
    assert sends[..|sends|] == sends;
    if n > 0 {
      assert clamped == Pulled(sends, now);
      clamped := RaiseInOrder(clamped);
    } else {
      assert clamped == sends;
    }
  }

  lemma FutureAppend(s: seq<int>, t: int, now: int)
    ensures AnyFuture(s + [t], now) <==> AnyFuture(s, now) || t > now
  {
    var u := s + [t];
    assert u[|s|] == t;
    assert forall i :: 0 <= i < |s| ==> u[i] == s[i];
  }

  /** The second loop of clampSends. */
  method RaiseInOrder(pulled: seq<int>) returns (raised: seq<int>)
    ensures raised == RunningMax(pulled)
  {
    raised := pulled;
    var i := 1;
    while i < |raised|
      invariant |raised| == |pulled|
      invariant 1 <= i && (i <= |pulled| || pulled == [])
      invariant i <= |pulled| ==> raised == RunningMax(pulled[..i]) + pulled[i..]
    {
      RunningMaxStep(pulled, i);
      if raised[i] < raised[i - 1] {
        raised := raised[i := raised[i - 1]];
      }
      i := i + 1;
    }
    if pulled != [] {
      assert pulled[..i] == pulled;
    }
  }

  class Limiter {
    var sends: seq<int>

    constructor (recent: seq<int>, now: int)
      ensures sends == Clamp(recent, now)
    {
      var s := ClampSends(recent, now);
      sends := s;
    }

    method BackstopAllows(now: int) returns (ok: bool)
      modifies this
      ensures sends == Kept(old(sends), now)
      ensures ok <==> Allows(old(sends), now)
    {
      sends := ClampSends(sends, now);
      var keep := [];
      for i := 0 to |sends|
        invariant sends == Clamp(old(sends), now)
        invariant keep == Prune(sends[..i], now)
      {
        assert sends[..i + 1][..i] == sends[..i];
        if now - sends[i] < SEND_WINDOW {
          keep := keep + [sends[i]];
        }
      }
      assert sends[..|sends|] == sends;
      sends := keep;
      if |keep| >= MAX_SENDS_IN_WINDOW {
        return false;
      }
      if |keep| > 0 && now - keep[|keep| - 1] < MIN_SEND_INTERVAL {
        return false;
      }
      return true;
    }

    method RecordSend(t: int)
      modifies this
      ensures sends == old(sends) + [t]
    {
      sends := sends + [t];
    }
  }

  // ---------- Clamping ----------

  lemma {:induction false} RunningMaxSorted(s: seq<int>)
    ensures Ascending(RunningMax(s))
    ensures forall i :: 0 <= i < |s| ==> s[i] <= RunningMax(s)[i]
  {
    if |s| > 1 {
      RunningMaxSorted(s[..|s| - 1]);
    }
  }

  lemma {:induction false} RunningMaxAtMost(s: seq<int>, bound: int)
    requires AtMost(s, bound)
    ensures AtMost(RunningMax(s), bound)
  {
    if |s| > 1 {
      RunningMaxAtMost(s[..|s| - 1], bound);
    }
  }

  /** Whatever the list, no clamped time lies after now, and the clamp never puts a time later than the latest one. */
  lemma ClampAtMost(s: seq<int>, now: int, bound: int)
    requires AtMost(s, bound)
    ensures AtMost(Clamp(s, now), Min(now, bound))
  {
    if AnyFuture(s, now) {
      var i :| 0 <= i < |s| && s[i] > now;
      RunningMaxAtMost(Pulled(s, now), Min(now, bound));
    }
  }

  lemma HasBound(s: seq<int>) returns (bound: int)
    ensures AtMost(s, bound)
  {
    if s == [] {
      bound := 0;
    } else {
      var b := HasBound(s[..|s| - 1]);
      bound := Max(b, s[|s| - 1]);
      assert forall i :: 0 <= i < |s| - 1 ==> s[i] == s[..|s| - 1][i];
    }
  }

  lemma ClampNotFuture(s: seq<int>, now: int)
    ensures AtMost(Clamp(s, now), now)
  {
    var b := HasBound(s);
    ClampAtMost(s, now, b);
  }

  lemma {:induction false} RunningMaxAt(s: seq<int>, k: nat)
    requires k < |s| && AtMost(s[..k], s[k])
    ensures RunningMax(s)[k] == s[k]
  {
    if k < |s| - 1 {
      var t := s[..|s| - 1];
      assert t[..k] == s[..k];
      RunningMaxAt(t, k);
    } else if k > 0 {
      RunningMaxAtMost(s[..k], s[k]);
    }
  }

  /** Clamping a sorted list keeps it sorted and of the same length, and leaves its times up to now alone. */
  lemma ClampSorted(s: seq<int>, now: int)
    requires Ascending(s)
    ensures Ascending(Clamp(s, now))
    ensures forall k :: 0 <= k < |s| && s[k] <= now ==> Clamp(s, now)[k] == s[k]
  {
    if AnyFuture(s, now) {
      var p := Pulled(s, now);
      RunningMaxSorted(p);
      forall k | 0 <= k < |s| && s[k] <= now ensures RunningMax(p)[k] == s[k] {
        RunningMaxAt(p, k);
      }
    }
  }

  // ---------- The floor ----------

  predicate JustSent(s: seq<int>, i: nat, now: int)
    requires i < |s|
  {
    now - MIN_SEND_INTERVAL < s[i] <= now
  }

  lemma {:induction false} LastOfRunningMax(s: seq<int>) returns (i: nat)
    requires s != []
    ensures i < |s| && RunningMax(s)[|s| - 1] == s[i]
  {
    if |s| == 1 || s[|s| - 1] >= RunningMax(s[..|s| - 1])[|s| - 2] {
      i := |s| - 1;
    } else {
      i := LastOfRunningMax(s[..|s| - 1]);
    }
  }

  lemma {:induction false} LastOfPrune(s: seq<int>, now: int) returns (i: nat)
    requires Prune(s, now) != []
    ensures i < |s| && Prune(s, now)[|Prune(s, now)| - 1] == s[i]
  {
    if now - s[|s| - 1] < SEND_WINDOW {
      i := |s| - 1;
    } else {
      i := LastOfPrune(s[..|s| - 1], now);
    }
  }

  lemma {:induction false} RunningMaxIsEarlier(s: seq<int>, k: nat) returns (i: nat)
    requires k < |s|
    ensures i <= k && RunningMax(s)[k] == s[i]
  {
    if k < |s| - 1 {
      i := RunningMaxIsEarlier(s[..|s| - 1], k);
    } else {
      i := LastOfRunningMax(s);
    }
  }

  /** Whatever happened to the clock, the floor refuses only because of a hand-over less than a second before now. */
  lemma FloorTripsOnlyFromASend(s: seq<int>, now: int) returns (i: nat)
    requires FloorTrips(s, now)
    ensures i < |s| && JustSent(s, i, now)
  {
    var k := LastOfPrune(Clamp(s, now), now);
    ClampNotFuture(s, now);
    if AnyFuture(s, now) {
      i := RunningMaxIsEarlier(Pulled(s, now), k);
    } else {
      i := k;
    }
  }

  // ---------- Sorted lists, and the full log of hand-overs ----------

  /** What the whole log of hand-overs would decide. */
  predicate AllowedAt(log: seq<int>, now: int) {
    && (|log| >= MAX_SENDS_IN_WINDOW ==> now - log[|log| - MAX_SENDS_IN_WINDOW] >= SEND_WINDOW)
    && (log != [] ==> now - log[|log| - 1] >= MIN_SEND_INTERVAL)
  }

  /** `s` is the log without some hand-overs that lie a window or more before now. */
  ghost predicate RestOfLog(log: seq<int>, s: seq<int>, now: int) {
    && |s| <= |log|
    && s == log[|log| - |s|..]
    && forall i :: 0 <= i < |log| - |s| ==> now - log[i] >= SEND_WINDOW
  }

  /** The first c times lie outside the window, the others inside. */
  ghost predicate CutAt(s: seq<int>, now: int, c: nat) {
    && c <= |s|
    && (forall i :: 0 <= i < c ==> now - s[i] >= SEND_WINDOW)
    && (forall i :: c <= i < |s| ==> now - s[i] < SEND_WINDOW)
  }

  lemma {:induction false} PruneCut(s: seq<int>, now: int, c: nat)
    requires CutAt(s, now, c)
    ensures Prune(s, now) == s[c..]
  {
    if c == |s| {
      PruneEverything(s, now);
    } else {
      var t := s[..|s| - 1];
      assert CutAt(t, now, c);
      PruneCut(t, now, c);
      assert t[c..] + [s[|s| - 1]] == s[c..];
    }
  }

  lemma {:induction false} FindCut(s: seq<int>, now: int) returns (c: nat)
    requires Ascending(s)
    ensures CutAt(s, now, c)
  {
    if s == [] || now - s[|s| - 1] >= SEND_WINDOW {
      c := |s|;
    } else {
      c := FindCut(s[..|s| - 1], now);
    }
  }

  lemma PruneSorted(s: seq<int>, now: int)
    requires Ascending(s)
    ensures RestOfLog(s, Prune(s, now), now)
    ensures forall i :: |s| - |Prune(s, now)| <= i < |s| ==> now - s[i] < SEND_WINDOW
  {
    var c := FindCut(s, now);
    PruneCut(s, now, c);
  }

  lemma RestOfRest(log: seq<int>, s: seq<int>, r: seq<int>, now: int)
    requires RestOfLog(log, s, now) && RestOfLog(s, r, now)
    ensures RestOfLog(log, r, now)
  {
    assert log[|log| - |s|..][|s| - |r|..] == log[|log| - |r|..];
    forall i | 0 <= i < |log| - |r| ensures now - log[i] >= SEND_WINDOW {
      if i >= |log| - |s| {
        assert log[i] == s[i - (|log| - |s|)];
      }
    }
  }

  /**
   With a clock that has not gone back, the pruned list in memory refuses
   exactly when the whole log would, and what is kept is again a rest of the log.
   */
  lemma DecidesAsTheLog(log: seq<int>, s: seq<int>, now: int)
    requires Ascending(log) && AtMost(log, now) && RestOfLog(log, s, now)
    ensures Allows(s, now) <==> AllowedAt(log, now)
    ensures RestOfLog(log, Kept(s, now), now)
  {
    assert forall i :: 0 <= i < |s| ==> s[i] == log[|log| - |s| + i];
    PruneSorted(s, now);
    var k := Prune(s, now);
    RestOfRest(log, s, k, now);
  }

  /** On a sorted list the floor refuses exactly after a hand-over less than a second before now. */
  lemma FloorIff(s: seq<int>, now: int)
    requires Ascending(s)
    ensures FloorTrips(s, now) <==> exists i :: 0 <= i < |s| && JustSent(s, i, now)
  {
    if FloorTrips(s, now) {
      var i := FloorTripsOnlyFromASend(s, now);
    }
    if i :| 0 <= i < |s| && JustSent(s, i, now) {
      SentTripsFloor(s, i, now);
    }
  }

  lemma SentTripsFloor(s: seq<int>, i: nat, now: int)
    requires Ascending(s) && i < |s| && JustSent(s, i, now)
    ensures FloorTrips(s, now)
  {
    ClampSorted(s, now);
    var c := Clamp(s, now);
    assert c[i] <= c[|c| - 1];
    assert now - c[|c| - 1] < SEND_WINDOW;
    var k := Prune(c, now);
    assert k[|k| - 1] == c[|c| - 1];
  }

  // ---------- What the list decides, whatever the clock did ----------

  /** A time after now becomes one at most a second before now. */
  lemma FutureIsPulledToNow(s: seq<int>, now: int, k: nat)
    requires k < |s| && s[k] > now
    ensures now - MIN_SEND_INTERVAL <= Clamp(s, now)[k] <= now
  {
    ClampNotFuture(s, now);
    RunningMaxSorted(Pulled(s, now));
  }

  /** The entries less than one window before now, and those after now. */
  function Recent(s: seq<int>, now: int): set<nat> { set k: nat | k < |s| && now - s[k] < SEND_WINDOW }

  lemma RecentSnoc(s: seq<int>, now: int)
    requires s != []
    ensures |Recent(s, now)| == |Recent(s[..|s| - 1], now)| + if now - s[|s| - 1] < SEND_WINDOW then 1 else 0
  {
    var t, last := s[..|s| - 1], |s| - 1;
    assert forall k: nat :: k < last ==> t[k] == s[k];
    assert Recent(s, now) == Recent(t, now) + if now - s[last] < SEND_WINDOW then {last} else {};
  }

  lemma {:induction false} PruneCounts(s: seq<int>, now: int)
    ensures |Prune(s, now)| == |Recent(s, now)|
  {
    if s != [] {
      PruneCounts(s[..|s| - 1], now);
      RecentSnoc(s, now);
    }
  }

  lemma ClampKeepsRecent(s: seq<int>, now: int)
    requires Ascending(s)
    ensures Recent(Clamp(s, now), now) == Recent(s, now)
  {
    ClampSorted(s, now);
    forall k: nat | k < |s| && s[k] > now ensures now - Clamp(s, now)[k] < SEND_WINDOW {
      FutureIsPulledToNow(s, now, k);
    }
  }

  /** A list in order keeps exactly as many entries as lie less than one window before now, or after it. */
  lemma KeptCounts(s: seq<int>, now: int)
    requires Ascending(s)
    ensures |Kept(s, now)| == |Recent(s, now)|
  {
    ClampKeepsRecent(s, now);
    PruneCounts(Clamp(s, now), now);
  }

  /**
   Whatever the clock did, a list in order lets a send through exactly if it
   has fewer than thirty entries less than ten minutes old, those after now
   included, and none less than a second old.
   */
  lemma AllowsIff(s: seq<int>, now: int)
    requires Ascending(s)
    ensures Allows(s, now) <==> |Recent(s, now)| < 30 && forall k :: 0 <= k < |s| ==> s[k] <= now - 1_000 || s[k] > now
    ensures Recent(s, now) == set k: nat | k < |s| && now - s[k] < 600_000
  {
    KeptCounts(s, now);
    FloorIff(s, now);
    assert forall k :: 0 <= k < |s| ==> (JustSent(s, k, now) <==> !(s[k] <= now - 1_000 || s[k] > now));
  }

  // ---------- No clock blocks sends for longer than the window ----------

  /** The list after further calls of backstopAllows at these readings, nothing being handed over. */
  function AfterCalls(s: seq<int>, readings: seq<int>): seq<int>
    decreases |readings|
  {
    if readings == [] then s else AfterCalls(Kept(s, readings[0]), readings[1..])
  }

  lemma {:induction false} PruneAtMost(s: seq<int>, now: int, bound: int)
    requires AtMost(s, bound)
    ensures AtMost(Prune(s, now), bound)
  {
    if s != [] {
      PruneAtMost(s[..|s| - 1], now, bound);
    }
  }

  lemma {:induction false} AfterCallsAtMost(s: seq<int>, readings: seq<int>, bound: int)
    requires AtMost(s, bound)
    ensures AtMost(AfterCalls(s, readings), bound)
    decreases |readings|
  {
    if readings != [] {
      ClampAtMost(s, readings[0], bound);
      PruneAtMost(Clamp(s, readings[0]), readings[0], bound);
      AfterCallsAtMost(Kept(s, readings[0]), readings[1..], bound);
    }
  }

  lemma {:induction false} PruneEverything(s: seq<int>, now: int)
    requires AtMost(s, now - SEND_WINDOW)
    ensures Prune(s, now) == []
  {
    if s != [] {
      PruneEverything(s[..|s| - 1], now);
    }
  }

  /**
   Whatever times are in the list and wherever the clock goes in between, a
   call a window after an earlier call is allowed if nothing was handed over
   since. In particular setting the clock back never blocks longer.
   */
  lemma NeverBlocksLongerThanTheWindow(s: seq<int>, first: int, readings: seq<int>, now: int)
    requires now >= first + SEND_WINDOW
    ensures Allows(AfterCalls(Kept(s, first), readings), now)
  {
    ClampNotFuture(s, first);
    PruneAtMost(Clamp(s, first), first, first);
    var r := AfterCalls(Kept(s, first), readings);
    AfterCallsAtMost(Kept(s, first), readings, first);
    ClampAtMost(r, now, first);
    PruneEverything(Clamp(r, now), now);
  }

  // ---------- The rate ----------

  predicate Spaced(log: seq<int>) {
    && (forall i :: 1 <= i < |log| ==> log[i] - log[i - 1] >= MIN_SEND_INTERVAL)
    && (forall i :: MAX_SENDS_IN_WINDOW <= i < |log| ==> log[i] - log[i - MAX_SENDS_IN_WINDOW] >= SEND_WINDOW)
  }

  function CountIn(log: seq<int>, from: int, to: int): nat {
    if log == [] then 0 else CountIn(log[..|log| - 1], from, to) + if from <= log[|log| - 1] < to then 1 else 0
  }

  lemma {:induction false} SpacedIsAscending(log: seq<int>, i: nat, j: nat)
    requires Spaced(log) && i <= j < |log|
    ensures log[j] - log[i] >= MIN_SEND_INTERVAL * (j - i)
  {
    if i < j {
      SpacedIsAscending(log, i, j - 1);
    }
  }

  /** A hand-over keeps the log spaced exactly when the log allows it at the time it is recorded. */
  lemma SpacedAppend(log: seq<int>, t: int)
    requires Spaced(log)
    ensures Spaced(log + [t]) <==> AllowedAt(log, t)
  {
    var l := log + [t];
    assert forall i :: 0 <= i < |log| ==> l[i] == log[i];
    assert l[|log|] == t;
  }

  lemma {:induction false} CountedRun(log: seq<int>, from: int, to: int) returns (i: nat)
    requires Ascending(log) && log != [] && from <= log[|log| - 1] < to
    ensures i < |log| && |log| - i == CountIn(log, from, to) && from <= log[i]
  {
    var t := log[..|log| - 1];
    if t != [] && from <= t[|t| - 1] {
      assert log[|t| - 1] <= log[|log| - 1];
      i := CountedRun(t, from, to);
    } else {
      i := |log| - 1;
      assert AtMost(t, from - 1);
      CountNone(t, from, to);
    }
  }

  lemma {:induction false} CountNone(log: seq<int>, from: int, to: int)
    requires AtMost(log, from - 1)
    ensures CountIn(log, from, to) == 0
  {
    if log != [] {
      CountNone(log[..|log| - 1], from, to);
    }
  }

  /** In a spaced log no half-open interval one window long holds more than MAX_SENDS_IN_WINDOW hand-overs. */
  lemma {:induction false} AtMostThirtyPerWindow(log: seq<int>, from: int)
    requires Spaced(log)
    ensures CountIn(log, from, from + SEND_WINDOW) <= MAX_SENDS_IN_WINDOW
  {
    if log != [] {
      if from <= log[|log| - 1] < from + SEND_WINDOW {
        forall i, j | 0 <= i < j < |log| ensures log[i] <= log[j] {
          SpacedIsAscending(log, i, j);
        }
        var i := CountedRun(log, from, from + SEND_WINDOW);
        if |log| - i > MAX_SENDS_IN_WINDOW {
          SpacedIsAscending(log, i, |log| - 1 - MAX_SENDS_IN_WINDOW);
        }
      } else {
        AtMostThirtyPerWindow(log[..|log| - 1], from);
      }
    }
  }
}
