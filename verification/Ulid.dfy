/**
 ULIDs of internal/protocol/envelope.go: 16 bytes are pushed through a bit
 accumulator and leave it as base-32 digits, from the right to the left. The
 specification regroups the 128 bits; that the digits denote the same number,
 sort like it and can be decoded follows from that.
 */
module Ulid {
  import opened Prelude

  const CROCKFORD: string := "0123456789ABCDEFGHJKMNPQRSTVWXYZ"

  type Bit = x: int | 0 <= x < 2
  /** Bits per base-32 digit and per byte. */
  type Width = w: int | w == 5 || w == 8 witness 5

  // ---------- Bit strings and the numbers they denote ----------

  function Num(bits: seq<Bit>): nat { if bits == [] then 0 else 2 * Num(bits[..|bits| - 1]) + bits[|bits| - 1] }

  function ToBits(x: nat, n: nat): (bits: seq<Bit>)
    ensures |bits| == n
  {
    if n == 0 then [] else ToBits(x / 2, n - 1) + [x % 2]
  }

  lemma {:induction false} ToBitsOfNum(bits: seq<Bit>)
    ensures ToBits(Num(bits), |bits|) == bits
  {
    if bits != [] {
      ToBitsOfNum(bits[..|bits| - 1]);
      assert bits == bits[..|bits| - 1] + [bits[|bits| - 1]];
    }
  }

  lemma {:induction false} NumOfToBits(x: nat, n: nat)
    requires x < Pow(2, n)
    ensures Num(ToBits(x, n)) == x
  {
    if n > 0 {
      NumOfToBits(x / 2, n - 1);
      assert ToBits(x, n)[..n - 1] == ToBits(x / 2, n - 1);
    }
  }

  lemma {:induction false} NumBound(bits: seq<Bit>)
    ensures Num(bits) < Pow(2, |bits|)
  {
    if bits != [] {
      NumBound(bits[..|bits| - 1]);
    }
  }

  lemma {:induction false} LeadingZeros(n: nat, bits: seq<Bit>)
    ensures Num(ToBits(0, n) + bits) == Num(bits)
  {
    if bits != [] {
      var all := ToBits(0, n) + bits;
      assert all[..|all| - 1] == ToBits(0, n) + bits[..|bits| - 1];
      LeadingZeros(n, bits[..|bits| - 1]);
    } else if n > 0 {
      LeadingZeros(n - 1, []);
      assert ToBits(0, n) + [] == ToBits(0, n);
      assert ToBits(0, n - 1) + [] == ToBits(0, n - 1);
      assert ToBits(0, n)[..n - 1] == ToBits(0, n - 1);
    }
  }

  lemma Small()
    ensures Pow(2, 3) == 8 && Pow(2, 5) == 32 && Pow(2, 8) == 256
  {
    assert Pow(2, 3) == 8;
    assert Pow(2, 5) == 2 * (2 * Pow(2, 3));
    assert Pow(2, 8) == 2 * (2 * (2 * Pow(2, 5)));
  }

  // ---------- Grouping ----------

  lemma ConcatAssoc(x: seq<Bit>, y: seq<Bit>, z: seq<Bit>)
    ensures (x + y) + z == x + (y + z)
  {}

  function Size(w: Width, n: nat): nat { if w == 5 then 5 * n else 8 * n }

  function Limit(w: Width): nat { if w == 5 then 32 else 256 }

  ghost predicate AreDigits(d: seq<int>, w: Width) { forall i :: 0 <= i < |d| ==> 0 <= d[i] < Limit(w) }

  function Groups(d: seq<int>, w: Width): (bits: seq<Bit>)
    requires AreDigits(d, w)
    ensures |bits| == Size(w, |d|)
  {
    if d == [] then [] else ToBits(d[0], w) + Groups(d[1..], w)
  }

  function Ungroup(bits: seq<Bit>, w: Width, n: nat): (d: seq<int>)
    requires |bits| == Size(w, n)
    ensures |d| == n && AreDigits(d, w)
  {
    if n == 0 then []
    else
      NumBound(bits[..w]);
      [Num(bits[..w])] + Ungroup(bits[w..], w, n - 1)
  }

  lemma SplitConcat(x: seq<Bit>, y: seq<Bit>)
    ensures (x + y)[..|x|] == x && (x + y)[|x|..] == y
  {}

  lemma UngroupCons(bits: seq<Bit>, w: Width, n: nat, first: seq<Bit>, rest: seq<Bit>)
    requires |first| == w && |rest| == Size(w, n) && bits == first + rest
    ensures |bits| == Size(w, n + 1) && Ungroup(bits, w, n + 1) == [Num(first)] + Ungroup(rest, w, n)
  {
    SplitConcat(first, rest);
  }

  lemma {:induction false} UngroupOfGroups(d: seq<int>, w: Width)
    requires AreDigits(d, w)
    ensures Ungroup(Groups(d, w), w, |d|) == d
  {
    if d != [] {
      UngroupOfGroups(d[1..], w);
      NumOfToBits(d[0], w);
      UngroupCons(Groups(d, w), w, |d| - 1, ToBits(d[0], w), Groups(d[1..], w));
      assert d == [d[0]] + d[1..];
    }
  }

  lemma GroupsCons(x: int, d: seq<int>, w: Width)
    requires 0 <= x < Limit(w) && AreDigits(d, w)
    ensures AreDigits([x] + d, w) && Groups([x] + d, w) == ToBits(x, w) + Groups(d, w)
  {
    assert ([x] + d)[1..] == d;
  }

  lemma {:induction false} GroupsOfUngroup(bits: seq<Bit>, w: Width, n: nat)
    requires |bits| == Size(w, n)
    ensures Groups(Ungroup(bits, w, n), w) == bits
  {
    if n > 0 {
      var first, rest := bits[..w], bits[w..];
      ToBitsOfNum(first);
      NumBound(first);
      GroupsOfUngroup(rest, w, n - 1);
      assert bits == first + rest;
      UngroupCons(bits, w, n - 1, first, rest);
      GroupsCons(Num(first), Ungroup(rest, w, n - 1), w);
    }
  }

  lemma {:induction false} GroupsAppend(a: seq<int>, b: seq<int>, w: Width)
    requires AreDigits(a, w) && AreDigits(b, w)
    ensures AreDigits(a + b, w) && Groups(a + b, w) == Groups(a, w) + Groups(b, w)
  {
    if a == [] {
      assert a + b == b;
    } else {
      assert (a + b)[1..] == a[1..] + b;
      GroupsAppend(a[1..], b, w);
      ConcatAssoc(ToBits(a[0], w), Groups(a[1..], w), Groups(b, w));
    }
  }

  // ---------- The specification ----------

  predicate InAlphabet(c: char) { '0' <= c <= '9' || ('A' <= c <= 'Z' && c != 'I' && c != 'L' && c != 'O' && c != 'U') }

  ghost predicate InAlphabetAll(s: string) { forall i :: 0 <= i < |s| ==> InAlphabet(s[i]) }

  /** The ulidRe expression. */
  predicate IsULID(s: string) {
    |s| == 26 && '0' <= s[0] <= '7' && forall i :: 1 <= i < 26 ==> InAlphabet(s[i])
  }

  /** CROCKFORD[d], by the gaps of the alphabet (no I, L, O, U). */
  function CharOf(d: int): (c: char)
    requires 0 <= d < 32
    ensures InAlphabet(c)
  {
    if d < 10 then (d + 48) as char
    else if d < 18 then (d + 55) as char
    else if d < 20 then (d + 56) as char
    else if d < 22 then (d + 57) as char
    else if d < 27 then (d + 58) as char
    else (d + 59) as char
  }

  function DigitOf(c: char): (d: int)
    requires InAlphabet(c)
    ensures 0 <= d < 32 && CharOf(d) == c
  {
    var x := c as int;
    if c <= '9' then x - 48
    else if c < 'I' then x - 55
    else if c < 'L' then x - 56
    else if c < 'O' then x - 57
    else if c < 'U' then x - 58
    else x - 59
  }

  /** The table of the code is this bijection. */
  lemma CrockfordTable(d: int)
    requires 0 <= d < 32
    ensures |CROCKFORD| == 32 && CROCKFORD[d] == CharOf(d)
  {}

  lemma DigitOfChar(d: int)
    requires 0 <= d < 32
    ensures DigitOf(CharOf(d)) == d
  {}

  function Chars(d: seq<int>): (s: string)
    requires AreDigits(d, 5)
    ensures |s| == |d| && forall i :: 0 <= i < |s| ==> s[i] == CharOf(d[i])
  {
    seq(|d|, i requires 0 <= i < |d| => CharOf(d[i]))
  }

  function Digits(s: string): (d: seq<int>)
    requires InAlphabetAll(s)
    ensures |d| == |s| && AreDigits(d, 5) && Chars(d) == s
  {
    seq(|s|, i requires 0 <= i < |s| => DigitOf(s[i]))
  }

  lemma DigitsOfChars(d: seq<int>)
    requires AreDigits(d, 5)
    ensures InAlphabetAll(Chars(d)) && Digits(Chars(d)) == d
  {
    forall i | 0 <= i < |d| ensures InAlphabet(Chars(d)[i]) && DigitOf(Chars(d)[i]) == d[i] {
      DigitOfChar(d[i]);
    }
  }

  /** 130 bits in 26 characters: two zeros and the 128 bits of the bytes. */
  ghost predicate IsEncoding(s: string, b: Bytes) {
    |s| == 26 && |b| == 16 && InAlphabetAll(s) && Groups(Digits(s), 5) == [0, 0] + Groups(b, 8)
  }

  // ---------- Machine operations ----------

  function Or(x: nat, y: nat): nat {
    if x == 0 && y == 0 then 0 else (if x % 2 == 1 || y % 2 == 1 then 1 else 0) + 2 * Or(x / 2, y / 2)
  }

  function ShiftLeft(x: nat, k: nat): nat { if k == 0 then x else 2 * ShiftLeft(x, k - 1) }

  lemma {:induction false} OrZero(x: nat)
    ensures Or(0, x) == x
  {
    if x > 0 {
      OrZero(x / 2);
    }
  }

  /** Or-ing a shifted number above the accumulator puts its bits in front. */
  lemma {:induction false} OrPrepends(high: seq<Bit>, low: seq<Bit>)
    ensures Or(Num(low), ShiftLeft(Num(high), |low|)) == Num(high + low)
  {
    if low == [] {
      OrZero(Num(high));
      assert high + low == high;
    } else {
      var low' := low[..|low| - 1];
      OrPrepends(high, low');
      assert (high + low)[..|high + low| - 1] == high + low';
      var x, y := Num(low), ShiftLeft(Num(high), |low|);
      assert y == 2 * ShiftLeft(Num(high), |low'|);
      assert x / 2 == Num(low') && y / 2 == ShiftLeft(Num(high), |low'|);
      if x == 0 && y == 0 {
        assert Or(0, 0) == 0;
      }
    }
  }

  lemma {:induction false} NumAppend(high: seq<Bit>, low: seq<Bit>)
    ensures Num(high + low) == ShiftLeft(Num(high), |low|) + Num(low)
  {
    if low == [] {
      assert high + low == high;
    } else {
      var low' := low[..|low| - 1];
      NumAppend(high, low');
      assert (high + low)[..|high + low| - 1] == high + low';
    }
  }

  lemma ShiftByFive(x: nat)
    ensures ShiftLeft(x, 5) == 32 * x
  {
    assert ShiftLeft(x, 1) == 2 * ShiftLeft(x, 0);
    assert ShiftLeft(x, 2) == 2 * ShiftLeft(x, 1);
    assert ShiftLeft(x, 3) == 2 * ShiftLeft(x, 2);
    assert ShiftLeft(x, 4) == 2 * ShiftLeft(x, 3);
  }

  lemma NumTail(high: seq<Bit>, low: seq<Bit>)
    requires |low| == 5
    ensures Num(high + low) / 32 == Num(high) && Num(high + low) % 32 == Num(low) < 32
  {
    Small();
    NumBound(low);
    NumAppend(high, low);
    ShiftByFive(Num(high));
  }

  // ---------- The accumulator ----------

  /** The bits of b[from..] are those still in the accumulator and those of the digits written. */
  ghost predicate Holds(b: Bytes, from: int, accBits: seq<Bit>, digits: seq<int>, acc: nat, bits: nat) {
    && 0 <= from <= |b| && AreDigits(digits, 5)
    && |accBits| == bits && acc == Num(accBits)
    && Groups(b[from..], 8) == accBits + Groups(digits, 5)
  }

  lemma ReadByte(b: Bytes, from: nat, accBits: seq<Bit>, digits: seq<int>, acc: nat, bits: nat)
    requires Holds(b, from, accBits, digits, acc, bits) && from > 0
    ensures Holds(b, from - 1, ToBits(b[from - 1], 8) + accBits, digits, Or(acc, ShiftLeft(b[from - 1], bits)), bits + 8)
  {
    var x := ToBits(b[from - 1], 8);
    Small();
    NumOfToBits(b[from - 1], 8);
    OrPrepends(x, accBits);
    assert b[from - 1..] == [b[from - 1]] + b[from..];
    ConcatAssoc(x, accBits, Groups(digits, 5));
  }

  lemma WriteDigit(b: Bytes, from: nat, accBits: seq<Bit>, digits: seq<int>, acc: nat, bits: nat)
    requires Holds(b, from, accBits, digits, acc, bits) && bits >= 5
    ensures Holds(b, from, accBits[..bits - 5], [acc % 32] + digits, acc / 32, bits - 5)
  {
    var high, low := accBits[..bits - 5], accBits[bits - 5..];
    assert accBits == high + low;
    NumTail(high, low);
    ToBitsOfNum(low);
    GroupsCons(acc % 32, digits, 5);
    ConcatAssoc(high, low, Groups(digits, 5));
  }

  lemma WriteChar(out: string, idx: nat, digits: seq<int>, d: int)
    requires idx < |out| == 26 && 0 <= d < 32 && AreDigits(digits, 5) && out[idx + 1..] == Chars(digits)
    ensures out[idx := CharOf(d)][idx..] == Chars([d] + digits)
  {
    assert out[idx := CharOf(d)][idx..] == [CharOf(d)] + out[idx + 1..];
  }

  lemma ThreeBits(bits: seq<Bit>)
    requires |bits| == 3
    ensures ToBits(Num(bits), 5) == [0, 0] + bits
  {
    var padded := [0, 0] + bits;
    assert ToBits(0, 2) == [0, 0];
    LeadingZeros(2, bits);
    ToBitsOfNum(padded);
  }

  lemma LastDigit(all: seq<Bit>, accBits: seq<Bit>, digits: seq<int>)
    requires |accBits| == 3 && AreDigits(digits, 5)
    requires all == accBits + Groups(digits, 5)
    ensures Num(accBits) < 8 && Groups([Num(accBits)] + digits, 5) == [0, 0] + all
  {
    Small();
    NumBound(accBits);
    ThreeBits(accBits);
    GroupsCons(Num(accBits), digits, 5);
    ConcatAssoc([0, 0], accBits, Groups(digits, 5));
  }

  /** The variables of the two loops of New. */
  datatype Machine = Machine(acc: nat, bits: nat, out: string, idx: int)

  /** Where the bits are: those in the accumulator, and the digits written. */
  datatype Trail = Trail(accBits: seq<Bit>, digits: seq<int>)

  ghost predicate Running(b: Bytes, from: int, m: Machine, t: Trail) {
    && 0 <= from <= 16 == |b| && Holds(b, from, t.accBits, t.digits, m.acc, m.bits)
    && |m.out| == 26 && 0 <= m.idx <= 25 && |t.digits| == 25 - m.idx && m.out[m.idx + 1..] == Chars(t.digits)
  }

  /** The variables after one round of the inner loop. */
  function Written(m: Machine): Machine
    requires m.bits >= 5 && 0 <= m.idx < |m.out|
  {
    Machine(m.acc / 32, m.bits - 5, m.out[m.idx := CharOf(m.acc % 32)], m.idx - 1)
  }

  ghost function Shortened(m: Machine, t: Trail): Trail
    requires 5 <= m.bits <= |t.accBits|
  {
    Trail(t.accBits[..m.bits - 5], [m.acc % 32] + t.digits)
  }

  lemma WriteStep(b: Bytes, from: int, m: Machine, t: Trail)
    requires Running(b, from, m, t) && m.bits >= 5
    ensures 0 <= m.idx < |m.out| && m.bits <= |t.accBits|
    ensures Running(b, from, Written(m), Shortened(m, t))
  {
    WriteDigit(b, from, t.accBits, t.digits, m.acc, m.bits);
    WriteChar(m.out, m.idx, t.digits, m.acc % 32);
  }

  lemma FirstChar(all: seq<Bit>, digits: seq<int>, out: string, acc: int)
    requires |digits| == 25 && |out| == 26 && AreDigits(digits, 5) && 0 <= acc < 32 && out[1..] == Chars(digits)
    requires Groups([acc] + digits, 5) == all
    ensures var s := out[0 := CharOf(acc)]; InAlphabetAll(s) && Groups(Digits(s), 5) == all
  {
    WriteChar(out, 0, digits, acc);
    var s := out[0 := CharOf(acc)];
    assert s[0..] == s;
    DigitsOfChars([acc] + digits);
  }

  lemma AllRead(b: Bytes, m: Machine, t: Trail)
    requires Running(b, 0, m, t) && m.bits < 5
    ensures m.idx == 0 && |t.digits| == 25 && |t.accBits| == 3 && m.acc == Num(t.accBits)
    ensures Groups(b, 8) == t.accBits + Groups(t.digits, 5)
  {
    assert b[0..] == b;
  }

  lemma LastChar(b: Bytes, accBits: seq<Bit>, digits: seq<int>, acc: nat, out: string)
    requires |b| == 16 && |digits| == 25 && AreDigits(digits, 5) && |accBits| == 3 && acc == Num(accBits)
    requires Groups(b, 8) == accBits + Groups(digits, 5) && |out| == 26 && out[1..] == Chars(digits)
    ensures acc < 8 && IsEncoding(out[0 := CharOf(acc)], b)
  {
    LastDigit(Groups(b, 8), accBits, digits);
    FirstChar([0, 0] + Groups(b, 8), digits, out, acc);
  }

  lemma Finish(b: Bytes, m: Machine, t: Trail)
    requires Running(b, 0, m, t) && m.bits < 5
    ensures m.idx == 0 && IsEncoding(m.out[0 := CharOf(m.acc % 32)], b)
  {
    AllRead(b, m, t);
    LastChar(b, t.accBits, t.digits, m.acc, m.out);
    assert m.acc % 32 == m.acc;
  }

  lemma Begin(b: Bytes, out: string)
    requires |b| == 16 && |out| == 26
    ensures Running(b, 16, Machine(0, 0, out, 25), Trail([], []))
  {}

  /** The inner loop: digits leave the accumulator while it holds at least five bits. */
  method Drain(ghost b: Bytes, ghost from: int, start: Machine, ghost trail: Trail) returns (m: Machine, ghost t: Trail)
    requires Running(b, from, start, trail)
    ensures Running(b, from, m, t) && m.bits < 5
  {
    m, t := start, trail;
    while m.bits >= 5 && m.idx >= 0
      invariant Running(b, from, m, t)
      decreases m.bits
    {
      WriteStep(b, from, m, t);
      t := Shortened(m, t);
      m := Machine(m.acc / 32, m.bits - 5, m.out[m.idx := CharOf(m.acc % 32)], m.idx - 1);
    }
  }

  /** One round of the outer loop. */
  method PushByte(b: Bytes, i: nat, start: Machine, ghost trail: Trail) returns (m: Machine, ghost t: Trail)
    requires i < 16 && Running(b, i + 1, start, trail)
    ensures Running(b, i, m, t) && m.bits < 5
  {
    ReadByte(b, i + 1, trail.accBits, trail.digits, start.acc, start.bits);
    t := Trail(ToBits(b[i], 8) + trail.accBits, trail.digits);
    m := Machine(Or(start.acc, ShiftLeft(b[i], start.bits)), start.bits + 8, start.out, start.idx);
    m, t := Drain(b, i, m, t);
  }

  method EncodeBytes(b: Bytes) returns (s: string)
    requires |b| == 16
    ensures IsEncoding(s, b)
  {
    var m := Machine(0, 0, seq(26, _ => '0'), 25);
    ghost var t := Trail([], []);
    Begin(b, m.out);
    for i := 16 downto 0
      invariant Running(b, i, m, t) && m.bits < 5
    {
      m, t := PushByte(b, i, m, t);
    }
    Finish(b, m, t);
    s := m.out;
    if m.idx == 0 {
      s := s[0 := CharOf(m.acc % 32)];
    }
  }

  // ---------- The time part ----------

  const U64 := 0x1_0000_0000_0000_0000
  const TIME_RANGE := 0x1_0000_0000_0000

  function ToUint64(ms: int): nat { ms % U64 }

  function ShiftRight(x: nat, k: nat): nat { if k == 0 then x else ShiftRight(x / 2, k - 1) }

  lemma {:induction false} ToBitsSplit(x: nat, n: nat, k: nat)
    ensures ToBits(x, n + k) == ToBits(ShiftRight(x, k), n) + ToBits(x, k)
  {
    if k > 0 {
      ToBitsSplit(x / 2, n, k - 1);
      var high, low := ToBits(ShiftRight(x, k), n), ToBits(x / 2, k - 1);
      ConcatAssoc(high, low, [x % 2]);
    }
  }

  lemma {:induction false} ShiftAndMask(x: nat, k: nat)
    ensures x == ShiftLeft(ShiftRight(x, k), k) + Num(ToBits(x, k))
  {
    if k > 0 {
      ShiftAndMask(x / 2, k - 1);
      assert ToBits(x, k)[..k - 1] == ToBits(x / 2, k - 1);
    }
  }

  lemma ShiftByEight(x: nat)
    ensures ShiftLeft(x, 8) == 256 * x
  {
    ShiftByFive(x);
    assert ShiftLeft(x, 6) == 2 * ShiftLeft(x, 5);
    assert ShiftLeft(x, 7) == 2 * ShiftLeft(x, 6);
  }

  lemma {:induction false} ShiftLeftTwice(x: nat, j: nat, k: nat)
    ensures ShiftLeft(x, j + k) == ShiftLeft(ShiftLeft(x, j), k)
  {
    if k > 0 {
      ShiftLeftTwice(x, j, k - 1);
    }
  }

  lemma LowByte(x: nat)
    ensures Num(ToBits(x, 8)) == x % 256 && ShiftRight(x, 8) == x / 256
  {
    ShiftAndMask(x, 8);
    ShiftByEight(ShiftRight(x, 8));
    NumBound(ToBits(x, 8));
    Small();
    Quotient(x, ShiftRight(x, 8), Num(ToBits(x, 8)));
  }

  lemma Quotient(x: nat, q: nat, r: nat)
    requires x == 256 * q + r && r < 256
    ensures r == x % 256 && q == x / 256
  {
  }

  lemma ShiftBySixteen(x: nat)
    ensures ShiftLeft(x, 16) == 0x1_0000 * x
  {
    ShiftLeftTwice(x, 8, 8);
    ShiftByEight(x);
    ShiftByEight(256 * x);
  }

  lemma ShiftByTime(x: nat)
    ensures ShiftLeft(x, 48) == TIME_RANGE * x
  {
    ShiftLeftTwice(x, 32, 16);
    ShiftLeftTwice(x, 16, 16);
    ShiftBySixteen(x);
    ShiftBySixteen(0x1_0000 * x);
    ShiftBySixteen(0x1_0000_0000 * x);
  }

  lemma LowTime(x: nat)
    ensures Num(ToBits(x, 48)) == x % TIME_RANGE
  {
    ShiftAndMask(x, 48);
    ShiftByTime(ShiftRight(x, 48));
    NumBound(ToBits(x, 48));
    TimeRange();
  }

  lemma TimeRange()
    ensures Pow(2, 48) == TIME_RANGE
  {
    Small();
    assert Pow(2, 12) == 16 * Pow(2, 8);
    assert Pow(2, 16) == 16 * Pow(2, 12);
    assert Pow(2, 20) == 16 * Pow(2, 16);
    assert Pow(2, 24) == 16 * Pow(2, 20);
    assert Pow(2, 28) == 16 * Pow(2, 24);
    assert Pow(2, 32) == 16 * Pow(2, 28);
    assert Pow(2, 36) == 16 * Pow(2, 32);
    assert Pow(2, 40) == 16 * Pow(2, 36);
    assert Pow(2, 44) == 16 * Pow(2, 40);
  }

  /** The 48 low bits of the time, in six bytes. */
  function TimeBytes(ms: int): Bytes { Ungroup(ToBits(ToUint64(ms), 48), 8, 6) }

  lemma TimeBits(rest: nat, n: nat)
    ensures ToBits(rest, n + 8) == ToBits(rest / 256, n) + ToBits(rest % 256, 8)
  {
    LowByte(rest);
    ToBitsSplit(rest, n, 8);
    ToBitsOfNum(ToBits(rest, 8));
  }

  lemma ByteCons(x: Byte, b: Bytes)
    ensures Groups([x] + b, 8) == ToBits(x, 8) + Groups(b, 8)
  {
    assert ([x] + b)[1..] == b;
  }

  lemma TimeStep(all: seq<Bit>, rest: nat, i: nat, b: Bytes)
    requires i > 0 && all == ToBits(rest, 8 * i) + Groups(b, 8)
    ensures all == ToBits(rest / 256, 8 * (i - 1)) + Groups([rest % 256] + b, 8)
  {
    TimeBits(rest, 8 * (i - 1));
    ByteCons(rest % 256, b);
    ConcatAssoc(ToBits(rest / 256, 8 * (i - 1)), ToBits(rest % 256, 8), Groups(b, 8));
  }

  /** The first loop of New. */
  method WriteTime(ms: int) returns (b: Bytes)
    ensures b == TimeBytes(ms)
  {
    var rest := ToUint64(ms);
    ghost var all := ToBits(rest, 48);
    b := [];
    for i := 6 downto 0
      invariant |b| == 6 - i && all == ToBits(rest, 8 * i) + Groups(b, 8)
    {
      TimeStep(all, rest, i + 1, b);
      b := [rest % 256] + b;
      rest := rest / 256;
    }
    assert all == Groups(b, 8);
    UngroupOfGroups(b, 8);
  }

  /** IDSource.New: the time, and ten random bytes. */
  method New(ms: int, random: Bytes) returns (s: string)
    requires |random| == 10
    ensures IsEncoding(s, TimeBytes(ms) + random)
  {
    var b := WriteTime(ms);
    s := EncodeBytes(b + random);
  }

  // ---------- Main results ----------

  function Shifted(v: int, w: Width): int { if w == 5 then 32 * v else 256 * v }

  function Value(d: seq<int>, w: Width): int { if d == [] then 0 else Shifted(Value(d[..|d| - 1], w), w) + d[|d| - 1] }

  lemma ShiftByWidth(x: nat, w: Width)
    ensures ShiftLeft(x, w) == if w == 5 then 32 * x else 256 * x
  {
    ShiftByFive(x);
    ShiftByEight(x);
  }

  lemma {:induction false} NumOfGroups(d: seq<int>, w: Width)
    requires AreDigits(d, w)
    ensures Num(Groups(d, w)) == Value(d, w)
  {
    if d != [] {
      var init, last := d[..|d| - 1], d[|d| - 1];
      NumOfGroups(init, w);
      assert d == init + [last];
      GroupsAppend(init, [last], w);
      assert Groups([last], w) == ToBits(last, w) + Groups([], w) == ToBits(last, w);
      NumAppend(Groups(init, w), ToBits(last, w));
      ShiftByWidth(Num(Groups(init, w)), w);
      NumOfToBits(last, w);
    }
  }

  /** The characters denote the same number as the bytes. */
  lemma SameNumber(s: string, b: Bytes)
    requires IsEncoding(s, b)
    ensures Value(Digits(s), 5) == Value(b, 8)
  {
    NumOfGroups(Digits(s), 5);
    NumOfGroups(b, 8);
    assert ToBits(0, 2) == [0, 0];
    LeadingZeros(2, Groups(b, 8));
  }

  lemma TwoBits(y: nat)
    requires y < 4
    ensures ToBits(y, 2) == [0, 0] <==> y == 0
  {
    assert ToBits(y / 2, 1) == ToBits(y / 2 / 2, 0) + [y / 2 % 2];
    assert ToBits(y, 2) == ToBits(y / 2, 1) + [y % 2];
    assert ToBits(y, 2)[0] == y / 2 % 2 && ToBits(y, 2)[1] == y % 2;
  }

  lemma ShiftRightThree(x: nat)
    ensures ShiftRight(x, 3) == x / 8
  {
    assert ShiftRight(x, 3) == ShiftRight(x / 2, 2);
    assert ShiftRight(x / 2, 2) == ShiftRight(x / 2 / 2, 1);
    assert ShiftRight(x / 2 / 2, 1) == ShiftRight(x / 2 / 2 / 2, 0);
  }

  lemma TopBits(x: nat)
    ensures ToBits(x, 5)[..2] == ToBits(x / 8, 2)
  {
    ToBitsSplit(x, 2, 3);
    ShiftRightThree(x);
    var high, low := ToBits(x / 8, 2), ToBits(x, 3);
    assert (high + low)[..2] == high;
  }

  lemma FirstDigit(d: seq<int>)
    requires d != [] && AreDigits(d, 5)
    ensures Groups(d, 5)[..2] == [0, 0] <==> d[0] < 8
  {
    var first := ToBits(d[0], 5);
    assert (first + Groups(d[1..], 5))[..2] == first[..2];
    TopBits(d[0]);
    TwoBits(d[0] / 8);
  }

  function Decode(s: string): (b: Bytes)
    requires |s| == 26 && InAlphabetAll(s)
    ensures |b| == 16
  {
    Ungroup(Groups(Digits(s), 5)[2..], 8, 16)
  }

  /** Decoding gives the bytes back, and what New returns matches the pattern. */
  lemma DecodeOfEncoding(s: string, b: Bytes)
    requires IsEncoding(s, b)
    ensures IsULID(s) && Decode(s) == b
  {
    var bits := Groups(b, 8);
    assert ([0, 0] + bits)[2..] == bits && ([0, 0] + bits)[..2] == [0, 0];
    UngroupOfGroups(b, 8);
    FirstDigit(Digits(s));
    assert s[0] == CharOf(Digits(s)[0]);
  }

  /** Every string that matches the pattern is the encoding of the 16 bytes it decodes to. */
  lemma EncodingOfDecode(s: string)
    requires IsULID(s)
    ensures InAlphabetAll(s) && IsEncoding(s, Decode(s))
  {
    assert InAlphabetAll(s);
    var bits := Groups(Digits(s), 5);
    assert DigitOf(s[0]) < 8;
    FirstDigit(Digits(s));
    GroupsOfUngroup(bits[2..], 8, 16);
    assert bits == bits[..2] + bits[2..];
  }

  lemma {:induction false} GroupsPrefix(d: seq<int>, w: Width, n: nat)
    requires AreDigits(d, w) && n <= |d|
    ensures AreDigits(d[..n], w) && Size(w, n) <= |Groups(d, w)| && Groups(d[..n], w) == Groups(d, w)[..Size(w, n)]
  {
    assert d == d[..n] + d[n..];
    GroupsAppend(d[..n], d[n..], w);
  }

  /** The conversion to uint64 leaves the 48 low bits alone. */
  lemma LowOfUint64(ms: int)
    ensures ToUint64(ms) % TIME_RANGE == ms % 0x1_0000_0000_0000
  {
    var q := ms / U64;
    assert ms == TIME_RANGE * (65536 * q) + ToUint64(ms);
  }

  /** The first ten characters are the 48-bit time and nothing else. */
  lemma TimePrefix(s: string, ms: int, random: Bytes)
    requires |random| == 10 && IsEncoding(s, TimeBytes(ms) + random)
    ensures Value(Digits(s)[..10], 5) == ToUint64(ms) % TIME_RANGE == ms % 0x1_0000_0000_0000
  {
    LowOfUint64(ms);
    var d, time := Digits(s), ToBits(ToUint64(ms), 48);
    GroupsPrefix(d, 5, 10);
    GroupsPrefix(TimeBytes(ms) + random, 8, 6);
    assert (TimeBytes(ms) + random)[..6] == TimeBytes(ms);
    GroupsOfUngroup(time, 8, 6);
    var all := Groups(TimeBytes(ms) + random, 8);
    assert ([0, 0] + all)[..50] == [0, 0] + all[..48] == [0, 0] + time;
    NumOfGroups(d[..10], 5);
    assert ToBits(0, 2) == [0, 0];
    LeadingZeros(2, time);
    LowTime(ToUint64(ms));
  }

  // ---------- Order ----------

  /** Digits in lexicographic order. */
  ghost predicate Precedes(a: seq<int>, b: seq<int>) {
    exists k :: 0 <= k < |a| && k < |b| && a[..k] == b[..k] && a[k] < b[k]
  }

  ghost predicate StringLess(s: string, t: string) {
    exists k :: 0 <= k < |s| && k < |t| && s[..k] == t[..k] && s[k] < t[k]
  }

  lemma PrecedesSnoc(a: seq<int>, b: seq<int>)
    requires |a| == |b| > 0
    ensures var n := |a| - 1;
      Precedes(a, b) <==> Precedes(a[..n], b[..n]) || (a[..n] == b[..n] && a[n] < b[n])
  {
    var n := |a| - 1;
    if k :| 0 <= k < |a| && k < |b| && a[..k] == b[..k] && a[k] < b[k] {
      if k < n {
        assert a[..n][..k] == a[..k] && b[..n][..k] == b[..k];
      }
    }
    if k :| 0 <= k < |a[..n]| && k < |b[..n]| && a[..n][..k] == b[..n][..k] && a[..n][k] < b[..n][k] {
      assert a[..n][..k] == a[..k] && b[..n][..k] == b[..k];
    }
  }

  lemma {:induction false} ValueOrder(a: seq<int>, b: seq<int>, w: Width)
    requires |a| == |b| && AreDigits(a, w) && AreDigits(b, w)
    ensures Value(a, w) < Value(b, w) <==> Precedes(a, b)
    ensures Value(a, w) == Value(b, w) <==> a == b
  {
    if a != [] {
      var n := |a| - 1;
      ValueOrder(a[..n], b[..n], w);
      PrecedesSnoc(a, b);
      LastDigitDecides(Value(a[..n], w), a[n], Value(b[..n], w), b[n], w);
      EqualByLast(a, b);
    }
  }

  lemma LastDigitDecides(u: int, x: int, v: int, y: int, w: Width)
    requires 0 <= x < Limit(w) && 0 <= y < Limit(w)
    ensures Shifted(u, w) + x < Shifted(v, w) + y <==> u < v || (u == v && x < y)
    ensures Shifted(u, w) + x == Shifted(v, w) + y <==> u == v && x == y
  {
  }

  lemma EqualByLast(a: seq<int>, b: seq<int>)
    requires |a| == |b| > 0
    ensures a == b <==> a[..|a| - 1] == b[..|a| - 1] && a[|a| - 1] == b[|a| - 1]
  {
    var n := |a| - 1;
    assert a == a[..n] + [a[n]] && b == b[..n] + [b[n]];
  }

  lemma StringOrder(s: string, t: string)
    requires |s| == |t| && InAlphabetAll(s) && InAlphabetAll(t)
    ensures StringLess(s, t) <==> Precedes(Digits(s), Digits(t))
  {
    var a, b := Digits(s), Digits(t);
    if k :| 0 <= k < |s| && k < |t| && s[..k] == t[..k] && s[k] < t[k] {
      assert forall i :: 0 <= i < k ==> s[i] == s[..k][i] && t[i] == t[..k][i];
      assert a[..k] == b[..k] && a[k] < b[k];
    }
    if k :| 0 <= k < |a| && k < |b| && a[..k] == b[..k] && a[k] < b[k] {
      assert forall i :: 0 <= i < k ==> a[i] == a[..k][i] && b[i] == b[..k][i];
      assert s[..k] == t[..k] && s[k] < t[k];
    }
  }

  /** Strings sort like the numbers they denote. */
  lemma SortsLikeNumber(s: string, b: Bytes, t: string, c: Bytes)
    requires IsEncoding(s, b) && IsEncoding(t, c)
    ensures StringLess(s, t) <==> Value(b, 8) < Value(c, 8)
  {
    SameNumber(s, b);
    SameNumber(t, c);
    StringOrder(s, t);
    ValueOrder(Digits(s), Digits(t), 5);
  }

  /** An id of an earlier millisecond sorts first, whatever the random parts. */
  lemma EarlierSortsFirst(s: string, ms: int, random: Bytes, t: string, ms': int, random': Bytes)
    requires |random| == 10 && IsEncoding(s, TimeBytes(ms) + random)
    requires |random'| == 10 && IsEncoding(t, TimeBytes(ms') + random')
    requires 0 <= ms < ms' < TIME_RANGE
    ensures StringLess(s, t)
  {
    TimeOf(s, ms, random);
    TimeOf(t, ms', random');
    EarlierString(s, t);
  }

  lemma TimeOf(s: string, ms: int, random: Bytes)
    requires |random| == 10 && IsEncoding(s, TimeBytes(ms) + random) && 0 <= ms < TIME_RANGE
    ensures |s| == 26 && InAlphabetAll(s) && Value(Digits(s)[..10], 5) == ms
  {
    TimePrefix(s, ms, random);
    SmallTime(ms);
  }

  lemma SmallTime(ms: int)
    requires 0 <= ms < TIME_RANGE
    ensures ToUint64(ms) % TIME_RANGE == ms
  {}

  lemma EarlierString(s: string, t: string)
    requires |s| == |t| == 26 && InAlphabetAll(s) && InAlphabetAll(t)
    requires Value(Digits(s)[..10], 5) < Value(Digits(t)[..10], 5)
    ensures StringLess(s, t)
  {
    EarlierDigits(Digits(s), Digits(t));
    StringOrder(s, t);
  }

  lemma EarlierDigits(a: seq<int>, b: seq<int>)
    requires |a| == |b| == 26 && AreDigits(a, 5) && AreDigits(b, 5) && Value(a[..10], 5) < Value(b[..10], 5)
    ensures Precedes(a, b)
  {
    ValueOrder(a[..10], b[..10], 5);
    PrecedesByPrefix(a, b, 10);
  }

  lemma PrecedesByPrefix(a: seq<int>, b: seq<int>, n: nat)
    requires n <= |a| && n <= |b| && Precedes(a[..n], b[..n])
    ensures Precedes(a, b)
  {
    var k :| 0 <= k < n && a[..n][..k] == b[..n][..k] && a[..n][k] < b[..n][k];
    assert a[..n][..k] == a[..k] && b[..n][..k] == b[..k];
  }
}
