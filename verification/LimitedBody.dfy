/**
 limitedBody of internal/transport/limit.go: a reader that cuts a response
 body off. Nothing is assumed of the source except the io.Reader contract: it
 may return any part of what was asked for, and its error with or after the
 last bytes.
 */
module LimitedBody {
  import opened Prelude

  datatype SourceError = EndOfFile | Broken
  datatype ReadErr = Nil | FromSource(e: SourceError) | BodyTooLarge

  // ---------- One read, as a relation ----------

  ghost predicate SourceRead(rest: Bytes, rest': Bytes, end: SourceError, n: int, chunk: Bytes, err: ReadErr) {
    |chunk| <= n && rest == chunk + rest' && (err == Nil || (err == FromSource(end) && rest' == []))
  }

  datatype State = State(rest: Bytes, left: int)

  ghost predicate BodyRead(s: State, s': State, end: SourceError, n: nat, chunk: Bytes, err: ReadErr) {
    if s.left <= 0 then
      s'.left == s.left && chunk == [] &&
      exists one, e :: SourceRead(s.rest, s'.rest, end, 1, one, e) && err == if |one| > 0 then BodyTooLarge else e
    else
      SourceRead(s.rest, s'.rest, end, Min(n, s.left), chunk, err) && s'.left == s.left - |chunk|
  }

  // ---------- The objects ----------

  class Source {
    var rest: Bytes
    const end: SourceError

    constructor (body: Bytes, end: SourceError)
      ensures rest == body && this.end == end
    {
      rest, this.end := body, end;
    }

    method Read(n: nat) returns (chunk: Bytes, err: ReadErr)
      modifies this
      ensures SourceRead(old(rest), rest, end, n, chunk, err)
    {
      var k: nat :| k <= n && k <= |rest|;
      var tell: bool := *;
      chunk, rest := rest[..k], rest[k..];
      err := if rest == [] && tell then FromSource(end) else Nil;
    }
  }

  class Limited {
    const rc: Source
    var left: int

    constructor (rc: Source, limit: int)
      ensures this.rc == rc && left == limit
    {
      this.rc, left := rc, limit;
    }

    function View(): State
      reads this, rc
    {
      State(rc.rest, left)
    }

    method Read(n: nat) returns (chunk: Bytes, err: ReadErr)
      modifies this, rc
      ensures BodyRead(old(View()), View(), rc.end, n, chunk, err)
    {
      if left <= 0 {
        var one, e := rc.Read(1);
        if |one| > 0 {
          return [], BodyTooLarge;
        }
        return [], e;
      }
      var want := if n > left then left else n;
      chunk, err := rc.Read(want);
      left := left - |chunk|;
    }
  }

  // ---------- Whole runs ----------

  datatype Call = Call(n: nat, chunk: Bytes, err: ReadErr)

  /** Any sequence of reads, with any buffer sizes, on any slicing of the source. */
  ghost predicate IsRun(body: Bytes, end: SourceError, limit: int, states: seq<State>, calls: seq<Call>) {
    && |states| == |calls| + 1 && states[0] == State(body, limit)
    && forall i :: 0 <= i < |calls| ==> BodyRead(states[i], states[i + 1], end, calls[i].n, calls[i].chunk, calls[i].err)
  }

  function Delivered(calls: seq<Call>): Bytes {
    if calls == [] then [] else Delivered(calls[..|calls| - 1]) + calls[|calls| - 1].chunk
  }

  function Consumed(body: Bytes, s: State): int { |body| - |s.rest| }

  /** The first n reads returned no error. */
  ghost predicate NoErrorBefore(calls: seq<Call>, n: nat)
    requires n <= |calls|
  {
    forall i :: 0 <= i < n ==> calls[i].err == Nil
  }

  /** What holds after any reads: a prefix has been delivered; up to the limit, nothing else was read. */
  ghost predicate Invariant(body: Bytes, limit: int, s: State, got: Bytes) {
    && got <= body && |s.rest| <= |body| && s.rest == body[Consumed(body, s)..]
    && s.left == limit - |got| && |got| <= Max(limit, 0) && Consumed(body, s) >= |got|
    && (s.left > 0 ==> Consumed(body, s) == |got|)
  }

  lemma {:induction false} EveryRun(body: Bytes, end: SourceError, limit: int, states: seq<State>, calls: seq<Call>, i: nat)
    requires IsRun(body, end, limit, states, calls) && i <= |calls|
    ensures Invariant(body, limit, states[i], Delivered(calls[..i]))
  {
    if i == 0 {
      assert body[0..] == body;
    } else {
      EveryRun(body, end, limit, states, calls, i - 1);
      assert calls[..i][..i - 1] == calls[..i - 1];
      var c := calls[i - 1];
    }
  }

  /** What has been delivered is a prefix of the body and never more than the limit. */
  lemma DeliversPrefix(body: Bytes, end: SourceError, limit: int, states: seq<State>, calls: seq<Call>)
    requires IsRun(body, end, limit, states, calls)
    ensures Delivered(calls) <= body && |Delivered(calls)| <= Max(limit, 0)
  {
    EveryRun(body, end, limit, states, calls, |calls|);
    assert calls[..|calls|] == calls;
  }

  lemma {:induction false} NothingReadAhead(body: Bytes, end: SourceError, limit: int, states: seq<State>, calls: seq<Call>, i: nat)
    requires IsRun(body, end, limit, states, calls) && i <= |calls| && NoErrorBefore(calls, i)
    ensures Consumed(body, states[i]) == |Delivered(calls[..i])|
  {
    if i > 0 {
      assert calls[..i][..i - 1] == calls[..i - 1];
      NothingReadAhead(body, end, limit, states, calls, i - 1);
      var s, s', c := states[i - 1], states[i], calls[i - 1];
      assert BodyRead(s, s', end, c.n, c.chunk, c.err);
      if s.left <= 0 {
        var one, e :| SourceRead(s.rest, s'.rest, end, 1, one, e) && c.err == if |one| > 0 then BodyTooLarge else e;
      }
    }
  }

  /**
   The first error tells which case it is. Within the limit: the whole body and
   the source's own error. Beyond it: exactly the limit, BodyTooLarge, and one
   byte more than the limit read from the source.
   */
  lemma FirstError(body: Bytes, end: SourceError, limit: int, states: seq<State>, calls: seq<Call>)
    requires IsRun(body, end, limit, states, calls) && calls != []
    requires NoErrorBefore(calls, |calls| - 1) && calls[|calls| - 1].err != Nil
    ensures |body| <= Max(limit, 0) ==> calls[|calls| - 1].err == FromSource(end) && Delivered(calls) == body
    ensures |body| > Max(limit, 0) ==>
      && calls[|calls| - 1].err == BodyTooLarge
      && Delivered(calls) == body[..Max(limit, 0)]
      && Consumed(body, states[|calls|]) == Max(limit, 0) + 1
  {
    var n := |calls| - 1;
    var s, s', c := states[n], states[n + 1], calls[n];
    EveryRun(body, end, limit, states, calls, n);
    NothingReadAhead(body, end, limit, states, calls, n);
    assert BodyRead(s, s', end, c.n, c.chunk, c.err);
    LastRead(body, limit, s, s', end, c, Delivered(calls[..n]));
  }

  lemma LastRead(body: Bytes, limit: int, s: State, s': State, end: SourceError, c: Call, got: Bytes)
    requires Invariant(body, limit, s, got) && Consumed(body, s) == |got|
    requires BodyRead(s, s', end, c.n, c.chunk, c.err) && c.err != Nil
    ensures |body| <= Max(limit, 0) ==> c.err == FromSource(end) && got + c.chunk == body
    ensures |body| > Max(limit, 0) ==>
      c.err == BodyTooLarge && got + c.chunk == body[..Max(limit, 0)] && Consumed(body, s') == Max(limit, 0) + 1
  {
    if s.left <= 0 {
      var one, e :| SourceRead(s.rest, s'.rest, end, 1, one, e) && c.err == if |one| > 0 then BodyTooLarge else e;
      assert got + c.chunk == got;
    }
  }

  /** The error is not sticky: a caller that reads on after BodyTooLarge can still be told that the body ended. */
  lemma ErrorIsNotSticky()
    ensures exists states: seq<State>, calls: seq<Call> ::
      IsRun([7], EndOfFile, 0, states, calls) && |calls| == 2 &&
      calls[0].err == BodyTooLarge && calls[1].err == FromSource(EndOfFile)
  {
    var states := [State([7], 0), State([], 0), State([], 0)];
    var calls := [Call(1, [], BodyTooLarge), Call(1, [], FromSource(EndOfFile))];
    assert SourceRead([7], [], EndOfFile, 1, [7], Nil);
    assert SourceRead([], [], EndOfFile, 1, [], FromSource(EndOfFile));
    assert IsRun([7], EndOfFile, 0, states, calls);
  }
}
