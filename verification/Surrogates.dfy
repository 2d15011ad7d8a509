/**
 loneSurrogate of internal/protocol/commands.go, against the escape tokens of
 a JSON text (sections 7 and 8.2 of RFC 8259): it refuses exactly the texts
 whose escapes encoding/json would have to replace by U+FFFD.
 */
module Surrogates {
  import opened Prelude

  const BACKSLASH: Byte := 92
  const LETTER_U: Byte := 117

  // ---------- Escape tokens ----------

  datatype Token =
    | Plain(b: Byte)
    /** A two-character escape, or a backslash at the end. */
    | Short(after: Option<Byte>)
    | Unit(u: nat)
  {
    predicate High() { Unit? && 0xD800 <= u <= 0xDBFF }
    predicate Low() { Unit? && 0xDC00 <= u <= 0xDFFF }
  }

  function HexDigit(c: Byte): Option<nat> {
    if 48 <= c <= 57 then Some(c - 48)
    else if 97 <= c <= 102 then Some(c - 97 + 10)
    else if 65 <= c <= 70 then Some(c - 65 + 10)
    else None
  }

  function HexNumber(digits: Bytes): Option<nat> {
    if digits == [] then Some(0)
    else match (HexNumber(digits[..|digits| - 1]), HexDigit(digits[|digits| - 1]))
      case (Some(r), Some(d)) => Some(16 * r + d)
      case _ => None
  }

  /** A \uXXXX escape at the start of b. */
  function Hex4(b: Bytes): Option<nat> {
    if |b| < 6 || b[0] != BACKSLASH || b[1] != LETTER_U then None else HexNumber(b[2..6])
  }

  function Scan(b: Bytes): seq<Token>
    decreases |b|
  {
    if b == [] then []
    else if b[0] != BACKSLASH then [Plain(b[0])] + Scan(b[1..])
    else match Hex4(b)
      case Some(u) => [Unit(u)] + Scan(b[6..])
      case None => if |b| == 1 then [Short(None)] else [Short(Some(b[1]))] + Scan(b[2..])
  }

  /** Every surrogate is half of an adjacent high-low pair. */
  ghost predicate AllPaired(ts: seq<Token>) {
    && (forall k :: 0 <= k < |ts| && ts[k].High() ==> k + 1 < |ts| && ts[k + 1].Low())
    && (forall k :: 0 <= k < |ts| && ts[k].Low() ==> k > 0 && ts[k - 1].High())
  }

  /** The same, from left to right. */
  predicate Paired(ts: seq<Token>) {
    if ts == [] then true
    else if ts[0].High() then |ts| > 1 && ts[1].Low() && Paired(ts[2..])
    else !ts[0].Low() && Paired(ts[1..])
  }

  lemma {:induction false} PairedIsAllPaired(ts: seq<Token>)
    ensures Paired(ts) <==> AllPaired(ts)
    decreases |ts|
  {
    if ts != [] {
      var n := if ts[0].High() && |ts| > 1 then 2 else 1;
      PairedIsAllPaired(ts[n..]);
      if AllPaired(ts) {
        assert ts[0].High() ==> ts[1].Low();
      }
      if Paired(ts) {
        forall k | 0 <= k < |ts| && ts[k].High() ensures k + 1 < |ts| && ts[k + 1].Low() {
          if k >= n {
            assert ts[n..][k - n].High();
          }
        }
        forall k | 0 <= k < |ts| && ts[k].Low() ensures k > 0 && ts[k - 1].High() {
          if k >= n {
            assert ts[n..][k - n].Low();
          }
        }
      }
    }
  }

  // ---------- The scanner ----------

  /** The closure hex4 of loneSurrogate. */
  method Hex4At(raw: Bytes, i: nat) returns (r: nat, ok: bool)
    ensures (if i <= |raw| then Hex4(raw[i..]) else None) == if ok then Some(r) else None
  {
    r := 0;
    if i + 6 > |raw| || raw[i] != BACKSLASH || raw[i + 1] != LETTER_U {
      return 0, false;
    }
    var digits := raw[i + 2..i + 6];
    assert raw[i..][2..6] == digits;
    for j := 0 to 4
      invariant HexNumber(digits[..j]) == Some(r)
    {
      assert digits[..j + 1][..j] == digits[..j];
      match HexDigit(digits[j])
      case Some(d) => r := 16 * r + d;
      case None =>
        HexNumberPrefix(digits, j + 1);
        return 0, false;
    }
    assert digits[..4] == digits;
    return r, true;
  }

  lemma {:induction false} HexNumberPrefix(digits: Bytes, n: nat)
    requires n <= |digits| && HexNumber(digits[..n]).None?
    ensures HexNumber(digits).None?
    decreases |digits| - n
  {
    if n == |digits| {
      assert digits[..n] == digits;
    } else {
      assert digits[..n + 1][..n] == digits[..n];
      HexNumberPrefix(digits, n + 1);
    }
  }

  lemma ScanPair(b: Bytes)
    requires Hex4(b).Some? && Unit(Hex4(b).value).High()
    ensures Paired(Scan(b)) <==>
            Hex4(b[6..]).Some? && Unit(Hex4(b[6..]).value).Low() && Paired(Scan(b[12..]))
  {
    var rest := b[6..];
    assert Scan(b) == [Unit(Hex4(b).value)] + Scan(rest);
    if Hex4(rest).Some? {
      assert Scan(rest) == [Unit(Hex4(rest).value)] + Scan(rest[6..]);
      assert rest[6..] == b[12..];
      assert Scan(b)[2..] == Scan(b[12..]);
    } else if rest != [] {
      assert Scan(rest) != [] && !Scan(rest)[0].Unit?;
    }
  }

  method LoneSurrogate(raw: Bytes) returns (lone: bool)
    ensures lone <==> !AllPaired(Scan(raw))
  {
    PairedIsAllPaired(Scan(raw));
    var i := 0;
    assert raw[0..] == raw;
    while i < |raw|
      invariant 0 <= i
      invariant Paired(Scan(raw)) <==> i >= |raw| || Paired(Scan(raw[i..]))
    {
      ghost var b := raw[i..];
      if raw[i] != BACKSLASH {
        assert b[1..] == raw[i + 1..];
        i := i + 1;
        continue;
      }
      var r, ok := Hex4At(raw, i);
      if !ok {
        assert |b| > 1 ==> b[2..] == raw[i + 2..];
        i := i + 2;
        continue;
      }
      assert b[6..] == raw[i + 6..];
      if 0xD800 <= r <= 0xDBFF {
        ScanPair(b);
        var lo, lowOk := Hex4At(raw, i + 6);
        if !lowOk || lo < 0xDC00 || lo > 0xDFFF {
          return true;
        }
        assert b[12..] == raw[i + 12..];
        i := i + 12;
      } else if 0xDC00 <= r <= 0xDFFF {
        return true;
      } else {
        i := i + 6;
      }
    }
    return false;
  }

  // ---------- What encoding/json makes of the escapes ----------

  datatype Decoded = Scalar(v: nat) | Verbatim(t: Token) | Replaced

  ghost predicate IsScalar(v: nat) { v <= 0x10FFFF && !(0xD800 <= v <= 0xDFFF) }

  function Combine(high: nat, low: nat): int { 0x10000 + (high - 0xD800) * 0x400 + (low - 0xDC00) }

  function Decode(ts: seq<Token>): seq<Decoded> {
    if ts == [] then []
    else if !ts[0].Unit? then [Verbatim(ts[0])] + Decode(ts[1..])
    else if ts[0].High() && |ts| > 1 && ts[1].Low() then [Scalar(Combine(ts[0].u, ts[1].u))] + Decode(ts[2..])
    else if ts[0].High() || ts[0].Low() then [Replaced] + Decode(ts[1..])
    else [Scalar(ts[0].u)] + Decode(ts[1..])
  }

  /** Refused exactly when something would be replaced. */
  lemma {:induction false} PairedIffNothingReplaced(ts: seq<Token>)
    ensures Paired(ts) <==> Replaced !in Decode(ts)
    decreases |ts|
  {
    if ts != [] {
      if ts[0].High() && |ts| > 1 && ts[1].Low() {
        PairedIffNothingReplaced(ts[2..]);
      } else {
        PairedIffNothingReplaced(ts[1..]);
      }
    }
  }

  lemma AcceptedIffNothingReplaced(raw: Bytes)
    ensures AllPaired(Scan(raw)) <==> Replaced !in Decode(Scan(raw))
  {
    PairedIsAllPaired(Scan(raw));
    PairedIffNothingReplaced(Scan(raw));
  }

  lemma {:induction false} HexNumberBound(digits: Bytes)
    requires HexNumber(digits).Some?
    ensures HexNumber(digits).value < Pow(16, |digits|)
  {
    if digits != [] {
      HexNumberBound(digits[..|digits| - 1]);
    }
  }

  lemma UnitBound(b: Bytes)
    requires Hex4(b).Some?
    ensures Hex4(b).value < 0x10000
  {
    HexNumberBound(b[2..6]);
    assert Pow(16, 2) == 256;
    assert Pow(16, 4) == 16 * (16 * Pow(16, 2));
  }

  lemma {:induction false} UnitsAreSixteenBit(raw: Bytes)
    ensures forall k :: 0 <= k < |Scan(raw)| && Scan(raw)[k].Unit? ==> Scan(raw)[k].u < 0x10000
    decreases |raw|
  {
    if raw != [] {
      if raw[0] != BACKSLASH {
        UnitsAreSixteenBit(raw[1..]);
      } else if Hex4(raw).Some? {
        UnitBound(raw);
        UnitsAreSixteenBit(raw[6..]);
      } else if |raw| > 1 {
        UnitsAreSixteenBit(raw[2..]);
      }
    }
  }

  lemma {:induction false} DecodesToScalars(ts: seq<Token>)
    requires forall k :: 0 <= k < |ts| && ts[k].Unit? ==> ts[k].u < 0x10000
    ensures forall d :: d in Decode(ts) && d.Scalar? ==> IsScalar(d.v)
    decreases |ts|
  {
    if ts != [] {
      if ts[0].High() && |ts| > 1 && ts[1].Low() {
        DecodesToScalars(ts[2..]);
      } else {
        DecodesToScalars(ts[1..]);
      }
    }
  }

  // ---------- Printing ----------

  /** The letter case of four hexadecimal digits. */
  datatype Cases = Cases(upper0: bool, upper1: bool, upper2: bool, upper3: bool)

  datatype Item =
    | Raw(b: Byte)
    | Escape(scalar: nat, first: Cases, second: Cases)
    | ShortEscape(after: Byte)
  {
    ghost predicate Valid() {
      match this
      case Raw(b) => b != BACKSLASH
      case Escape(v, _, _) => IsScalar(v)
      case ShortEscape(after) => after != LETTER_U
    }

    function Meaning(): Decoded {
      match this
      case Raw(b) => Verbatim(Plain(b))
      case Escape(v, _, _) => Scalar(v)
      case ShortEscape(after) => Verbatim(Short(Some(after)))
    }
  }

  function PrintDigit(d: nat, upper: bool): Byte
    requires d < 16
  {
    if d < 10 then 48 + d else if upper then 65 + d - 10 else 97 + d - 10
  }

  function PrintUnit(u: nat, c: Cases): Bytes
    requires u < 0x10000
  {
    [BACKSLASH, LETTER_U, PrintDigit(u / 4096, c.upper0), PrintDigit(u / 256 % 16, c.upper1),
     PrintDigit(u / 16 % 16, c.upper2), PrintDigit(u % 16, c.upper3)]
  }

  function HighOf(v: nat): nat
    requires 0x10000 <= v <= 0x10FFFF
  {
    0xD800 + (v - 0x10000) / 0x400
  }

  function LowOf(v: nat): nat
    requires 0x10000 <= v <= 0x10FFFF
  {
    0xDC00 + (v - 0x10000) % 0x400
  }

  function PrintItem(i: Item): Bytes
    requires i.Valid()
  {
    match i
    case Raw(b) => [b]
    case Escape(v, c, c') => if v < 0x10000 then PrintUnit(v, c) else PrintUnit(HighOf(v), c) + PrintUnit(LowOf(v), c')
    case ShortEscape(after) => [BACKSLASH, after]
  }

  function Print(items: seq<Item>): Bytes
    requires forall k :: 0 <= k < |items| ==> items[k].Valid()
  {
    if items == [] then [] else PrintItem(items[0]) + Print(items[1..])
  }

  function Meanings(items: seq<Item>): seq<Decoded> {
    if items == [] then [] else [items[0].Meaning()] + Meanings(items[1..])
  }

  lemma HexSnoc(digits: Bytes, x: Byte, value: nat, d: nat)
    requires HexNumber(digits) == Some(value) && HexDigit(x) == Some(d)
    ensures HexNumber(digits + [x]) == Some(16 * value + d)
  {
    assert (digits + [x])[..|digits|] == digits;
  }

  lemma FourBytes(w: Byte, x: Byte, y: Byte, z: Byte)
    ensures [] + [w] + [x] + [y] + [z] == [w, x, y, z]
  {}

  lemma HexOfFour(w: Byte, x: Byte, y: Byte, z: Byte, k: nat, l: nat, m: nat, n: nat)
    requires HexDigit(w) == Some(k) && HexDigit(x) == Some(l) && HexDigit(y) == Some(m) && HexDigit(z) == Some(n)
    ensures HexNumber([w, x, y, z]) == Some(16 * (16 * (16 * k + l) + m) + n)
  {
    HexSnoc([], w, 0, k);
    HexSnoc([] + [w], x, k, l);
    HexSnoc([] + [w] + [x], y, 16 * k + l, m);
    HexSnoc([] + [w] + [x] + [y], z, 16 * (16 * k + l) + m, n);
    FourBytes(w, x, y, z);
  }

  lemma FourDigits(u: nat)
    requires u < 0x10000
    ensures u / 4096 < 16 && 16 * (16 * (16 * (u / 4096) + u / 256 % 16) + u / 16 % 16) + u % 16 == u
  {
    assert 16 * (u / 4096) + u / 256 % 16 == u / 256;
    assert 16 * (u / 256) + u / 16 % 16 == u / 16;
  }

  lemma HexOfPrinted(u: nat, c: Cases)
    requires u < 0x10000
    ensures HexNumber(PrintUnit(u, c)[2..6]) == Some(u)
  {
    FourDigits(u);
    var k, l, m, n := u / 4096, u / 256 % 16, u / 16 % 16, u % 16;
    var w, x, y, z := PrintDigit(k, c.upper0), PrintDigit(l, c.upper1), PrintDigit(m, c.upper2), PrintDigit(n, c.upper3);
    HexOfFour(w, x, y, z, k, l, m, n);
    assert PrintUnit(u, c)[2..6] == [w, x, y, z];
  }

  lemma ScanPrintedUnit(u: nat, c: Cases, rest: Bytes)
    requires u < 0x10000
    ensures Scan(PrintUnit(u, c) + rest) == [Unit(u)] + Scan(rest)
  {
    var b := PrintUnit(u, c) + rest;
    HexOfPrinted(u, c);
    assert b[2..6] == PrintUnit(u, c)[2..6];
    assert b[6..] == rest;
  }

  /** Any printing of scalar values, raw or escaped, is read back unchanged. */
  lemma {:induction false} PrintedTextDecodes(items: seq<Item>)
    requires forall k :: 0 <= k < |items| ==> items[k].Valid()
    ensures Decode(Scan(Print(items))) == Meanings(items)
  {
    if items != [] {
      var rest := Print(items[1..]);
      PrintedTextDecodes(items[1..]);
      PrintedItemDecodes(items[0], rest);
    }
  }

  lemma PrintedItemDecodes(item: Item, rest: Bytes)
    requires item.Valid()
    ensures Decode(Scan(PrintItem(item) + rest)) == [item.Meaning()] + Decode(Scan(rest))
  {
    var b := PrintItem(item) + rest;
    match item
    case Raw(_) =>
      assert b[1..] == rest;
      assert Scan(b)[1..] == Scan(rest);
    case ShortEscape(_) =>
      assert b[2..] == rest;
      assert Scan(b)[1..] == Scan(rest);
    case Escape(v, c, c') =>
      if v < 0x10000 {
        ScanPrintedUnit(v, c, rest);
        assert Scan(b)[1..] == Scan(rest);
      } else {
        PrintedPairDecodes(v, c, c', rest);
      }
  }

  lemma PrintedAssoc(a: Bytes, b: Bytes, c: Bytes)
    ensures a + b + c == a + (b + c)
  {}

  lemma ScanPrintedPair(u: nat, w: nat, c: Cases, c': Cases, rest: Bytes)
    requires u < 0x10000 && w < 0x10000
    ensures Scan(PrintUnit(u, c) + PrintUnit(w, c') + rest) == [Unit(u), Unit(w)] + Scan(rest)
  {
    var low := PrintUnit(w, c');
    PrintedAssoc(PrintUnit(u, c), low, rest);
    ScanPrintedUnit(w, c', rest);
    ScanPrintedUnit(u, c, low + rest);
    assert [Unit(u)] + ([Unit(w)] + Scan(rest)) == [Unit(u), Unit(w)] + Scan(rest);
  }

  lemma PrintedPairDecodes(v: nat, c: Cases, c': Cases, rest: Bytes)
    requires 0x10000 <= v <= 0x10FFFF
    ensures Decode(Scan(PrintUnit(HighOf(v), c) + PrintUnit(LowOf(v), c') + rest)) == [Scalar(v)] + Decode(Scan(rest))
  {
    ScanPrintedPair(HighOf(v), LowOf(v), c, c', rest);
  }

  lemma {:induction false} NothingReplacedInMeanings(items: seq<Item>)
    ensures Replaced !in Meanings(items)
  {
    if items != [] {
      NothingReplacedInMeanings(items[1..]);
    }
  }

  /** Hence no printing of scalar values is refused. */
  lemma PrintedTextIsAccepted(items: seq<Item>)
    requires forall k :: 0 <= k < |items| ==> items[k].Valid()
    ensures AllPaired(Scan(Print(items)))
  {
    PrintedTextDecodes(items);
    NothingReplacedInMeanings(items);
    AcceptedIffNothingReplaced(Print(items));
  }

  /** And what is accepted decodes to scalar values only. */
  lemma AcceptedTextDecodesToScalars(raw: Bytes)
    requires AllPaired(Scan(raw))
    ensures forall d :: d in Decode(Scan(raw)) ==> d != Replaced && (d.Scalar? ==> IsScalar(d.v))
  {
    AcceptedIffNothingReplaced(raw);
    UnitsAreSixteenBit(raw);
    DecodesToScalars(Scan(raw));
  }
}
