/**
 LineReader of internal/protocol/envelope.go: lines of bounded length out of a
 buffered stream that hands over arbitrary slices. The specification looks at
 the whole byte stream only, so that how the stream was sliced cannot matter.
 */
module LineReader {
  import opened Prelude

  const LF: Byte := 10
  const CR: Byte := 13

  // ---------- Specification on whole byte streams ----------

  /** The length of the first line, newline included; 0 if there is no newline. */
  function LineEnd(b: Bytes): (n: nat)
    ensures n <= |b|
  {
    if b == [] then 0
    else if b[0] == LF then 1
    else
      var n := LineEnd(b[1..]);
      if n == 0 then 0 else n + 1
  }

  /** A line without its "\n" or "\r\n". */
  function Strip(line: Bytes): Bytes
    requires line != []
  {
    var body := line[..|line| - 1];
    if body != [] && body[|body| - 1] == CR then body[..|body| - 1] else body
  }

  function Lines(b: Bytes, max: nat): seq<Bytes>
    decreases |b|
  {
    var n := LineEnd(b);
    if n == 0 then [] else (if n <= max then [Strip(b[..n])] else []) + Lines(b[n..], max)
  }

  datatype Ending = EndOfInput | ReadError

  /** Over-long lines, and the partial line at the end of the input. */
  function Drops(b: Bytes, max: nat, ending: Ending): nat
    decreases |b|
  {
    var n := LineEnd(b);
    if n == 0 then (if b != [] && ending == EndOfInput then 1 else 0)
    else (if n <= max then 0 else 1) + Drops(b[n..], max, ending)
  }

  lemma {:induction false} LineEndIsFirst(b: Bytes)
    ensures var n := LineEnd(b);
      if n == 0 then LF !in b else b[n - 1] == LF && LF !in b[..n - 1]
  {
    if b != [] && b[0] != LF {
      LineEndIsFirst(b[1..]);
      var n := LineEnd(b);
      assert b == [b[0]] + b[1..];
      assert n > 0 ==> b[..n - 1] == [b[0]] + b[1..][..n - 2];
    }
  }

  lemma {:induction false} LineEndAt(b: Bytes, n: nat)
    requires 0 < n <= |b| && b[n - 1] == LF && LF !in b[..n - 1]
    ensures LineEnd(b) == n
  {
    if n > 1 {
      assert b[0] in b[..n - 1];
      assert b[1..][..n - 2] == b[..n - 1][1..];
      LineEndAt(b[1..], n - 1);
    }
  }

  lemma {:induction false} NoLineEnd(b: Bytes)
    requires LF !in b
    ensures LineEnd(b) == 0
  {
    if b != [] {
      NoLineEnd(b[1..]);
    }
  }

  /** `seen` has been read of a line at the start of `all`, and `unread` is what follows. */
  ghost predicate InLine(all: Bytes, seen: Bytes, unread: Bytes) {
    LF !in seen && all == seen + unread
  }

  lemma MoreOfLine(all: Bytes, seen: Bytes, chunk: Bytes, rest: Bytes)
    requires InLine(all, seen, chunk + rest) && LF !in chunk
    ensures InLine(all, seen + chunk, rest)
    ensures rest == [] ==> LF !in all && |all| == |seen| + |chunk|
  {
    assert seen + (chunk + rest) == (seen + chunk) + rest;
  }

  lemma FirstLine(all: Bytes, seen: Bytes, chunk: Bytes, rest: Bytes)
    requires InLine(all, seen, chunk + rest)
    requires chunk != [] && chunk[|chunk| - 1] == LF && LF !in chunk[..|chunk| - 1]
    ensures var n := |seen| + |chunk|;
      LineEnd(all) == n <= |all| && all[..n] == seen + chunk && all[n..] == rest
  {
    var n := |seen| + |chunk|;
    assert all[..n - 1] == seen + chunk[..|chunk| - 1];
    LineEndAt(all, n);
  }

  // ---------- The reader ----------

  /** What ReadSlice returns before the stream ends: a slice that ends a line, or a full buffer. */
  datatype Slice = Newline(body: Bytes) | Full(part: Bytes) {
    predicate Valid() {
      match this
      case Newline(body) => LF !in body
      case Full(part) => LF !in part
    }

    function Bytes(): Bytes {
      match this
      case Newline(body) => body + [LF]
      case Full(part) => part
    }
  }

  datatype ReadErr = Nil | BufferFull | Ended

  function Joined(slices: seq<Slice>): Bytes { if slices == [] then [] else slices[0].Bytes() + Joined(slices[1..]) }

  ghost predicate AllValid(slices: seq<Slice>) { forall i :: 0 <= i < |slices| ==> slices[i].Valid() }

  class Reader {
    const max: nat
    const ending: Ending
    /** The slices still to come and the bytes after the last of them. */
    var slices: seq<Slice>
    var tail: Bytes
    var dropped: nat
    /** The bytes still to come. */
    ghost var unread: Bytes

    ghost predicate Valid()
      reads this
    {
      AllValid(slices) && LF !in tail && unread == Joined(slices) + tail
    }

    constructor (max: nat, slices: seq<Slice>, tail: Bytes, ending: Ending)
      requires AllValid(slices) && LF !in tail
      ensures Valid() && this.max == max && this.ending == ending && dropped == 0
      ensures unread == Joined(slices) + tail
    {
      this.max, this.ending, this.slices, this.tail, dropped := max, ending, slices, tail, 0;
      unread := Joined(slices) + tail;
    }

    /** bufio.Reader.ReadSlice('\n') */
    method ReadSlice() returns (chunk: Bytes, err: ReadErr)
      requires Valid()
      modifies this
      ensures dropped == old(dropped)
      ensures Valid() && chunk + unread == old(unread)
      ensures err == Nil ==> chunk != [] && chunk[|chunk| - 1] == LF && LF !in chunk[..|chunk| - 1]
      ensures err != Nil ==> LF !in chunk
      ensures err == Ended ==> unread == []
      ensures err != Ended ==> |slices| < |old(slices)|
    {
      if slices == [] {
        chunk, err, tail := tail, Ended, [];
      } else {
        var s := slices[0];
        chunk, err := s.Bytes(), if s.Newline? then Nil else BufferFull;
        assert s.Valid();
        slices := slices[1..];
        assert chunk + (Joined(slices) + tail) == (chunk + Joined(slices)) + tail;
      }
      unread := Joined(slices) + tail;
    }

    /** The bytes read of this line, unless they are too many. */
    ghost predicate Collected(seen: Bytes, buf: Bytes, tooLong: bool) {
      (tooLong <==> |seen| > max) && buf == if tooLong then [] else seen
    }

    method Collect(buf: Bytes, tooLong: bool, chunk: Bytes, ghost seen: Bytes) returns (buf': Bytes, tooLong': bool)
      requires Collected(seen, buf, tooLong)
      ensures Collected(seen + chunk, buf', tooLong')
    {
      buf', tooLong' := buf, tooLong;
      if !tooLong {
        if |buf| + |chunk| > max {
          tooLong', buf' := true, [];
        } else {
          buf' := buf + chunk;
        }
      }
    }

    /** What one pass of the inner loop leaves: a whole line, or the partial one before the end. */
    ghost predicate LineRead(all: Bytes, rest: Bytes, buf: Bytes, tooLong: bool, ended: bool) {
      var n := LineEnd(all);
      && ended == (n == 0)
      && (ended ==> rest == [] && (|buf| > 0 || tooLong <==> |all| > 0))
      && (!ended ==> rest == all[n..] && tooLong == (n > max) && (!tooLong ==> buf == all[..n]))
    }

    lemma EndIsRead(all: Bytes, seen: Bytes, chunk: Bytes, buf: Bytes, tooLong: bool)
      requires InLine(all, seen, chunk + []) && LF !in chunk && Collected(seen + chunk, buf, tooLong)
      ensures LineRead(all, [], buf, tooLong, true)
    {
      MoreOfLine(all, seen, chunk, []);
      NoLineEnd(all);
    }

    lemma LineIsRead(all: Bytes, seen: Bytes, chunk: Bytes, rest: Bytes, buf: Bytes, tooLong: bool)
      requires InLine(all, seen, chunk + rest) && Collected(seen + chunk, buf, tooLong)
      requires chunk != [] && chunk[|chunk| - 1] == LF && LF !in chunk[..|chunk| - 1]
      ensures LineRead(all, rest, buf, tooLong, false)
    {
      FirstLine(all, seen, chunk, rest);
    }

    /** The inner loop of Next: one line, or the end of the stream. */
    method ReadLine() returns (buf: Bytes, tooLong: bool, ended: bool)
      requires Valid()
      modifies this
      ensures dropped == old(dropped)
      ensures Valid()
      ensures LineRead(old(unread), unread, buf, tooLong, ended)
    {
      buf, tooLong := [], false;
      ghost var all := unread;
      ghost var seen: Bytes := [];
      while true
        invariant Valid() && InLine(all, seen, unread) && dropped == old(dropped)
        invariant Collected(seen, buf, tooLong)
        decreases |slices|
      {
        var chunk, err := ReadSlice();
        buf, tooLong := Collect(buf, tooLong, chunk, seen);
        ghost var now := seen + chunk;
        if err == BufferFull {
          MoreOfLine(all, seen, chunk, unread);
          seen := now;
          continue;
        }
        if err == Ended {
          EndIsRead(all, seen, chunk, buf, tooLong);
          return buf, tooLong, true;
        }
        LineIsRead(all, seen, chunk, unread, buf, tooLong);
        return buf, tooLong, false;
      }
    }

    /** None at the end of the stream. */
    method Next() returns (line: Option<Bytes>)
      requires Valid()
      modifies this
      ensures Valid()
      ensures line.None? ==> unread == [] && Lines(old(unread), max) == []
      ensures line.Some? ==> |unread| < |old(unread)|
      ensures line.Some? ==> Lines(old(unread), max) == [line.value] + Lines(unread, max)
      ensures dropped + Drops(unread, max, ending) == old(dropped) + Drops(old(unread), max, ending)
    {
      while true
        invariant Valid() && |unread| <= |old(unread)|
        invariant Lines(unread, max) == Lines(old(unread), max)
        invariant dropped + Drops(unread, max, ending) == old(dropped) + Drops(old(unread), max, ending)
        decreases |unread|
      {
        var buf, tooLong, ended := ReadLine();
        if ended {
          if ending == EndOfInput && (|buf| > 0 || tooLong) {
            dropped := dropped + 1;
          }
          return None;
        }
        if tooLong {
          dropped := dropped + 1;
          continue;
        }
        buf := buf[..|buf| - 1];
        if |buf| > 0 && buf[|buf| - 1] == CR {
          buf := buf[..|buf| - 1];
        }
        return Some(buf);
      }
    }

    /** Next until it fails, as the reading goroutine of run does. */
    method ReadAll() returns (lines: seq<Bytes>)
      requires Valid()
      modifies this
      ensures lines == Lines(old(unread), max)
      ensures dropped == old(dropped) + Drops(old(unread), max, ending)
    {
      lines := [];
      ghost var all := Lines(unread, max);
      var line := Next();
      while line.Some?
        invariant Valid()
        invariant all == lines + Pending(line, Lines(unread, max))
        invariant line.None? ==> unread == []
        invariant dropped + Drops(unread, max, ending) == old(dropped) + Drops(old(unread), max, ending)
        decreases |unread|, line.Some?
      {
        lines := lines + [line.value];
        line := Next();
      }
    }
  }

  /** What is left to collect once Next has returned `line`. */
  ghost function Pending(line: Option<Bytes>, later: seq<Bytes>): seq<Bytes> {
    if line.None? then [] else [line.value] + later
  }

  // ---------- The same, by rows ----------

  /** A text of rows and an unterminated rest. */
  function Text(rows: seq<Bytes>, rest: Bytes): Bytes { if rows == [] then rest else rows[0] + [LF] + Text(rows[1..], rest) }

  function KeptRows(rows: seq<Bytes>, max: nat): seq<Bytes> {
    if rows == [] then []
    else (if |rows[0]| < max then [Strip(rows[0] + [LF])] else []) + KeptRows(rows[1..], max)
  }

  function LongRows(rows: seq<Bytes>, max: nat): nat {
    if rows == [] then 0 else (if |rows[0]| < max then 0 else 1) + LongRows(rows[1..], max)
  }

  /** Every stream is such a text; reading it gives the rows that are short enough, in order. */
  lemma {:induction false} LinesOfText(rows: seq<Bytes>, rest: Bytes, max: nat, ending: Ending)
    requires LF !in rest && forall i :: 0 <= i < |rows| ==> LF !in rows[i]
    ensures Lines(Text(rows, rest), max) == KeptRows(rows, max)
    ensures Drops(Text(rows, rest), max, ending) ==
            LongRows(rows, max) + if rest != [] && ending == EndOfInput then 1 else 0
  {
    var b := Text(rows, rest);
    if rows == [] {
      NoLineEnd(b);
    } else {
      var n := |rows[0]| + 1;
      assert b == (rows[0] + [LF]) + Text(rows[1..], rest);
      assert b[..n] == rows[0] + [LF] && b[n..] == Text(rows[1..], rest) && b[..n - 1] == rows[0];
      LineEndAt(b, n);
      LinesOfText(rows[1..], rest, max, ending);
    }
  }

  lemma {:induction false} EveryStreamIsText(b: Bytes) returns (rows: seq<Bytes>, rest: Bytes)
    ensures LF !in rest && (forall i :: 0 <= i < |rows| ==> LF !in rows[i]) && Text(rows, rest) == b
    decreases |b|
  {
    var n := LineEnd(b);
    LineEndIsFirst(b);
    if n == 0 {
      rows, rest := [], b;
    } else {
      rows, rest := EveryStreamIsText(b[n..]);
      assert b == b[..n - 1] + [LF] + b[n..];
      assert ([b[..n - 1]] + rows)[1..] == rows;
      rows := [b[..n - 1]] + rows;
    }
  }

  /** What a row gives, whatever follows it: nothing and a drop if it is too long with its newline, else the row without one final CR. */
  lemma FirstRow(row: Bytes, later: Bytes, max: nat, ending: Ending)
    requires LF !in row
    ensures |row| + 1 > max ==>
              Lines(row + [10] + later, max) == Lines(later, max) && Drops(row + [10] + later, max, ending) == 1 + Drops(later, max, ending)
    ensures |row| + 1 <= max ==>
              && Lines(row + [10] + later, max) == [if row != [] && row[|row| - 1] == 13 then row[..|row| - 1] else row] + Lines(later, max)
              && Drops(row + [10] + later, max, ending) == Drops(later, max, ending)
  {
    var b, n := row + [LF] + later, |row| + 1;
    assert b[..n] == row + [LF] && b[n..] == later && b[..n - 1] == row;
    LineEndAt(b, n);
    assert (row + [LF])[..|row|] == row;
  }

  /** What is left without a newline gives no line, and a drop at the end of the input. */
  lemma Unterminated(rest: Bytes, max: nat, ending: Ending)
    requires LF !in rest
    ensures Lines(rest, max) == [] && Drops(rest, max, ending) == if rest != [] && ending.EndOfInput? then 1 else 0
  {
    NoLineEnd(rest);
  }

  /** Rows that end in CR LF each. */
  function CrLfText(rows: seq<Bytes>): Bytes { if rows == [] then [] else rows[0] + [13] + [10] + CrLfText(rows[1..]) }

  /** They come back exactly, also those that end in a CR themselves: one CR goes, no more. */
  lemma {:induction false} CrLfLinesComeBack(rows: seq<Bytes>, max: nat, ending: Ending)
    requires forall i :: 0 <= i < |rows| ==> LF !in rows[i] && |rows[i]| + 1 < max
    ensures Lines(CrLfText(rows), max) == rows && Drops(CrLfText(rows), max, ending) == 0
  {
    if rows == [] {
      Unterminated([], max, ending);
    } else {
      var row := rows[0] + [CR];
      FirstRow(row, CrLfText(rows[1..]), max, ending);
      assert row[..|row| - 1] == rows[0];
      CrLfLinesComeBack(rows[1..], max, ending);
      assert rows == [rows[0]] + rows[1..];
    }
  }

  /** Written lines come back unchanged, unless they end in a carriage return. */
  lemma {:induction false} WrittenLinesComeBack(rows: seq<Bytes>, max: nat, ending: Ending)
    requires forall i :: 0 <= i < |rows| ==> LF !in rows[i] && |rows[i]| < max
    requires forall i :: 0 <= i < |rows| ==> rows[i] == [] || rows[i][|rows[i]| - 1] != CR
    ensures Lines(Text(rows, []), max) == rows && Drops(Text(rows, []), max, ending) == 0
  {
    LinesOfText(rows, [], max, ending);
    KeepsAll(rows, max);
  }

  lemma {:induction false} KeepsAll(rows: seq<Bytes>, max: nat)
    requires forall i :: 0 <= i < |rows| ==> |rows[i]| < max
    requires forall i :: 0 <= i < |rows| ==> rows[i] == [] || rows[i][|rows[i]| - 1] != CR
    ensures KeptRows(rows, max) == rows && LongRows(rows, max) == 0
  {
    if rows != [] {
      KeepsAll(rows[1..], max);
      assert (rows[0] + [LF])[..|rows[0]|] == rows[0];
      assert rows == [rows[0]] + rows[1..];
    }
  }
}
