/**
 The Ogg Opus page walk of internal/media/media.go: OggDurationSeconds reads
 raw bytes at moving offsets; the specification below never mentions offsets,
 it talks about a list of pages and the bytes that encode it (section 6 of
 RFC 3533, sections 4 and 5.1 of RFC 7845).
 */
module Ogg {
  import opened Prelude

  const U32 := 0x1_0000_0000
  const U64 := 0x1_0000_0000_0000_0000
  const NO_GRANULE := U64 - 1
  const MAX_INT32 := 0x7FFF_FFFF
  const MAX_OGG_BYTES_PER_SECOND := 72000
  const OGGS: Bytes := [79, 103, 103, 83]
  const OPUS_HEAD: Bytes := [79, 112, 117, 115, 72, 101, 97, 100]

  // ---------- Little-endian integers ----------

  function LeDecode(b: Bytes): nat { if b == [] then 0 else b[0] + 256 * LeDecode(b[1..]) }

  function LeEncode(v: nat, n: nat): (b: Bytes)
    ensures |b| == n
  {
    if n == 0 then [] else [v % 256] + LeEncode(v / 256, n - 1)
  }

  lemma {:induction false} LeDecodeEncode(v: nat, n: nat)
    requires v < Pow(256, n)
    ensures LeDecode(LeEncode(v, n)) == v
  {
    if n > 0 {
      LeDecodeEncode(v / 256, n - 1);
      assert LeEncode(v, n)[1..] == LeEncode(v / 256, n - 1);
    }
  }

  lemma {:induction false} LeEncodeDecode(b: Bytes)
    ensures LeDecode(b) < Pow(256, |b|)
    ensures LeEncode(LeDecode(b), |b|) == b
  {
    if b != [] {
      LeEncodeDecode(b[1..]);
      assert LeDecode(b) % 256 == b[0] && LeDecode(b) / 256 == LeDecode(b[1..]);
    }
  }

  /** The last byte is the most significant one. */
  lemma {:induction false} LeDecodeSnoc(b: Bytes, x: Byte)
    ensures LeDecode(b + [x]) == LeDecode(b) + Pow(256, |b|) * x
  {
    if b == [] {
      assert [] + [x] == [x] && [x][1..] == [];
    } else {
      assert (b + [x])[1..] == b[1..] + [x];
      LeDecodeSnoc(b[1..], x);
      assert Pow(256, |b|) * x == 256 * (Pow(256, |b| - 1) * x);
    }
  }

  // ---------- Pages and their bytes ----------

  datatype Page = Page(flags: Byte, granule: nat, serial: nat, sequence: nat, crc: Bytes, lacing: Bytes, data: Bytes) {
    predicate Bos() { flags / 2 % 2 == 1 }
    predicate Eos() { flags / 4 % 2 == 1 }
    predicate HasGranule() { granule != NO_GRANULE }
  }

  function Sum(s: Bytes): nat { if s == [] then 0 else s[0] + Sum(s[1..]) }

  lemma {:induction false} SumAppend(s: Bytes, x: Byte)
    ensures Sum(s + [x]) == Sum(s) + x
  {
    if s != [] {
      assert (s + [x])[1..] == s[1..] + [x];
      SumAppend(s[1..], x);
    }
  }

  predicate WellFormed(p: Page) {
    p.granule < U64 && p.serial < U32 && p.sequence < U32 && |p.crc| == 4 &&
    |p.lacing| <= 255 && |p.data| == Sum(p.lacing)
  }

  predicate AllWellFormed(ps: seq<Page>) { forall i :: 0 <= i < |ps| ==> WellFormed(ps[i]) }

  function PageSize(p: Page): nat { 27 + |p.lacing| + |p.data| }

  /** The fixed 27 bytes of a page header, section 6 of RFC 3533. */
  function EncodeHeader(p: Page): (h: Bytes)
    requires |p.lacing| <= 255 && |p.crc| == 4
    ensures |h| == 27
  {
    OGGS + [0, p.flags] + LeEncode(p.granule, 8) + LeEncode(p.serial, 4) + LeEncode(p.sequence, 4) +
    p.crc + [|p.lacing|]
  }

  function EncodePage(p: Page): (b: Bytes)
    requires |p.lacing| <= 255 && |p.crc| == 4
    ensures |b| == PageSize(p)
  {
    EncodeHeader(p) + (p.lacing + p.data)
  }

  function EncodeStream(ps: seq<Page>): Bytes
    requires AllWellFormed(ps)
  {
    if ps == [] then [] else EncodePage(ps[0]) + EncodeStream(ps[1..])
  }

  /** The first page of a non-empty buffer, if its header, lacing and body fit. */
  function ReadPage(b: Bytes): (r: Option<Page>)
  {
    if |b| < 27 || b[..4] != OGGS || b[4] != 0 then None
    else
      var hdr := 27 + b[26] as int;
      if |b| < hdr || |b| - hdr < Sum(b[27..hdr]) then None
      else Some(Page(b[5], LeDecode(b[6..14]), LeDecode(b[14..18]), LeDecode(b[18..22]),
                     b[22..26], b[27..hdr], b[hdr..hdr + Sum(b[27..hdr])]))
  }

  lemma HeaderFields(p: Page)
    requires WellFormed(p)
    ensures var h := EncodeHeader(p);
      && h[..4] == OGGS && h[4] == 0 && h[5] == p.flags && h[26] == |p.lacing| && h[22..26] == p.crc
      && h[6..14] == LeEncode(p.granule, 8) && h[14..18] == LeEncode(p.serial, 4) && h[18..22] == LeEncode(p.sequence, 4)
  {}

  lemma SliceOfPrefix(a: Bytes, b: Bytes, i: nat, j: nat)
    requires i <= j <= |a|
    ensures (a + b)[i..j] == a[i..j]
  {}

  lemma SliceOfSuffix(a: Bytes, b: Bytes, i: nat, j: nat)
    requires |a| <= i <= j <= |a| + |b|
    ensures (a + b)[i..j] == b[i - |a|..j - |a|]
  {}

  lemma ReadPageOfParts(h: Bytes, p: Page, rest: Bytes)
    requires WellFormed(p) && |h| == 27
    requires h[..4] == OGGS && h[4] == 0 && h[5] == p.flags && h[26] == |p.lacing| && h[22..26] == p.crc
    requires LeDecode(h[6..14]) == p.granule && LeDecode(h[14..18]) == p.serial && LeDecode(h[18..22]) == p.sequence
    ensures ReadPage(h + (p.lacing + p.data + rest)) == Some(p)
  {
    var t := p.lacing + p.data + rest;
    SliceOfPrefix(h, t, 0, 4);
    SliceOfPrefix(h, t, 6, 14);
    SliceOfPrefix(h, t, 14, 18);
    SliceOfPrefix(h, t, 18, 22);
    SliceOfPrefix(h, t, 22, 26);
    var hdr := 27 + |p.lacing|;
    SliceOfSuffix(h, t, 27, hdr);
    SliceOfSuffix(h, t, hdr, hdr + |p.data|);
    assert t[..|p.lacing|] == p.lacing;
    assert t[|p.lacing|..|p.lacing| + |p.data|] == p.data;
  }

  /** Where the fields of a page lie, section 6 of RFC 3533. */
  lemma PageLayout(flags: Byte, granule: Bytes, serial: Bytes, sequence: Bytes, crc: Bytes, lacing: Bytes, data: Bytes, rest: Bytes)
    requires |granule| == 8 && |serial| == |sequence| == |crc| == 4 && |lacing| <= 255 && |data| == Sum(lacing)
    ensures ReadPage([0x4F, 0x67, 0x67, 0x53, 0, flags] + granule + serial + sequence + crc + [|lacing|] + (lacing + data) + rest) ==
            Some(Page(flags, LeDecode(granule), LeDecode(serial), LeDecode(sequence), crc, lacing, data))
  {
    var h := [0x4F, 0x67, 0x67, 0x53, 0, flags] + granule + serial + sequence + crc + [|lacing|];
    LayoutFields(flags, granule, serial, sequence, crc, |lacing|);
    LeDecodeBound(granule);
    LeDecodeBound(serial);
    LeDecodeBound(sequence);
    ReadPageOfParts(h, Page(flags, LeDecode(granule), LeDecode(serial), LeDecode(sequence), crc, lacing, data), rest);
    assert h + (lacing + data) + rest == h + (lacing + data + rest);
  }

  lemma LeDecodeBound(b: Bytes)
    requires |b| == 8 || |b| == 4
    ensures LeDecode(b) < if |b| == 8 then U64 else U32
  {
    LeEncodeDecode(b);
    assert Pow(256, 4) == 256 * (256 * (256 * (256 * Pow(256, 0))));
    assert Pow(256, 8) == 256 * (256 * (256 * (256 * Pow(256, 4))));
  }

  lemma LayoutFields(flags: Byte, granule: Bytes, serial: Bytes, sequence: Bytes, crc: Bytes, n: Byte)
    requires |granule| == 8 && |serial| == |sequence| == |crc| == 4
    ensures var h := [0x4F, 0x67, 0x67, 0x53, 0, flags] + granule + serial + sequence + crc + [n];
      && |h| == 27 && h[..4] == OGGS && h[4] == 0 && h[5] == flags && h[26] == n && h[22..26] == crc
      && h[6..14] == granule && h[14..18] == serial && h[18..22] == sequence
  {
  }

  lemma ReadPageOfEncoding(p: Page, rest: Bytes)
    requires WellFormed(p)
    ensures ReadPage(EncodePage(p) + rest) == Some(p)
    ensures (EncodePage(p) + rest)[PageSize(p)..] == rest
  {
    LeDecodeEncode(p.granule, 8);
    LeDecodeEncode(p.serial, 4);
    LeDecodeEncode(p.sequence, 4);
    HeaderFields(p);
    ReadPageOfParts(EncodeHeader(p), p, rest);
    assert EncodePage(p) + rest == EncodeHeader(p) + (p.lacing + p.data + rest);
  }

  lemma Glue(b: Bytes, i: nat, j: nat)
    requires i <= j <= |b|
    ensures b[..i] + b[i..j] == b[..j]
  {}

  lemma HeaderOfSlices(b: Bytes, p: Page)
    requires |b| >= 27 && b[..4] == OGGS && b[4] == 0 && b[5] == p.flags && b[26] == |p.lacing| && b[22..26] == p.crc
    requires b[6..14] == LeEncode(p.granule, 8) && b[14..18] == LeEncode(p.serial, 4) && b[18..22] == LeEncode(p.sequence, 4)
    ensures EncodeHeader(p) == b[..27]
  {
    Glue(b, 4, 6);
    Glue(b, 6, 14);
    Glue(b, 14, 18);
    Glue(b, 18, 22);
    Glue(b, 22, 26);
    Glue(b, 26, 27);
    assert b[4..6] == [0, p.flags];
    assert b[26..27] == [b[26]];
  }

  lemma ThreeParts(b: Bytes, i: nat, j: nat, k: nat)
    requires i <= j <= k <= |b|
    ensures b == b[..i] + (b[i..j] + b[j..k]) + b[k..]
  {
    Glue(b, i, j);
    Glue(b, j, k);
  }

  lemma EncodingOfReadPage(b: Bytes)
    requires ReadPage(b).Some?
    ensures var p := ReadPage(b).value;
      WellFormed(p) && PageSize(p) <= |b| && b == EncodePage(p) + b[PageSize(p)..]
  {
    var p := ReadPage(b).value;
    LeEncodeDecode(b[6..14]);
    LeEncodeDecode(b[14..18]);
    LeEncodeDecode(b[18..22]);
    HeaderOfSlices(b, p);
    ThreeParts(b, 27, 27 + |p.lacing|, PageSize(p));
  }

  // ---------- The walk ----------

  /** The variables of the loop in OggDurationSeconds. */
  datatype Walker = Walker(page: nat, serial: nat, prevSeq: nat, preSkip: nat, maxGr: nat, seenGr: bool, ended: bool)

  const START := Walker(0, 0, 0, 0, 0, false, false)

  function PreSkip(p: Page): nat
    requires |p.data| >= 19
  {
    LeDecode(p.data[10..12])
  }

  /** The pre-skip field of an OpusHead, section 5.1 of RFC 7845: two bytes after the version and the channel count. */
  lemma PreSkipBytes(p: Page)
    requires |p.data| >= 19
    ensures PreSkip(p) == p.data[10] as int + 256 * (p.data[11] as int)
  {
    TwoBytes(p.data[10], p.data[11]);
    assert p.data[10..12] == [p.data[10], p.data[11]];
  }

  lemma TwoBytes(x: Byte, y: Byte)
    ensures LeDecode([x, y]) == x as int + 256 * (y as int)
  {
    assert [x, y][1..] == [y] && [y][1..] == [];
    assert LeDecode([y]) == y + 256 * LeDecode([]);
  }

  lemma PreSkipOfHead(p: Page, version: Byte, channels: Byte, v: nat, rest: Bytes)
    requires v < 65536 && p.data == OPUS_HEAD + [version, channels] + LeEncode(v, 2) + rest && |p.data| >= 19
    ensures PreSkip(p) == v
  {
    assert p.data[10..12] == LeEncode(v, 2);
    assert Pow(256, 2) == 256 * (256 * Pow(256, 0));
    LeDecodeEncode(v, 2);
  }

  /** The bits of the header type, section 6 of RFC 3533: continued, begin of stream, end of stream. */
  lemma FlagBits(p: Page, continued: bool, first: bool, last: bool, others: nat)
    requires p.flags == (if continued then 1 else 0) + (if first then 2 else 0) + (if last then 4 else 0) + 8 * others
    ensures p.Bos() == first && p.Eos() == last
  {
  }

  predicate Begins(p: Page) { p.Bos() && |p.data| >= 19 && p.data[..8] == OPUS_HEAD }

  /** One iteration on page p; None where the code returns 0. */
  function Accept(w: Walker, p: Page): Option<Walker> {
    if w.ended then None
    else if w.page == 0 && !Begins(p) then None
    else if w.page > 0 && (p.serial != w.serial || p.Bos() || p.sequence != (w.prevSeq + 1) % U32) then None
    else if p.HasGranule() && w.seenGr && p.granule < w.maxGr then None
    else Some(Walker(w.page + 1,
                     if w.page == 0 then p.serial else w.serial,
                     p.sequence,
                     if w.page == 0 then PreSkip(p) else w.preSkip,
                     if p.HasGranule() then p.granule else w.maxGr,
                     w.seenGr || p.HasGranule(),
                     p.Eos()))
  }

  function Walk(b: Bytes, w: Walker): Option<Walker>
    decreases |b|
  {
    if b == [] then Some(w)
    else match ReadPage(b)
      case None => None
      case Some(p) =>
        match Accept(w, p)
        case None => None
        case Some(w') => EncodingOfReadPage(b); Walk(b[PageSize(p)..], w')
  }

  /** Seconds from the counters left by the walk. The addition is on uint64 and may wrap. */
  function FloorSeconds(len: nat): int { (len + MAX_OGG_BYTES_PER_SECOND - 1) / MAX_OGG_BYTES_PER_SECOND }

  function RoundedSeconds(samples: nat, len: nat): int { Max(Min((samples + 47999) % U64 / 48000, MAX_INT32), FloorSeconds(len)) }

  function Seconds(seenGr: bool, maxGr: nat, preSkip: nat, len: nat): int {
    if !seenGr || maxGr <= preSkip then 0 else RoundedSeconds(maxGr - preSkip, len)
  }

  function Duration(b: Bytes): int {
    match Walk(b, START)
    case None => 0
    case Some(w) => Seconds(w.seenGr, w.maxGr, w.preSkip, |b|)
  }

  /** ReadPage at an offset of the whole buffer, as the loop indexes it. */
  function PageAt(b: Bytes, off: nat): Option<Page>
    requires off <= |b|
  {
    if |b| - off < 27 || b[off..off + 4] != OGGS || b[off + 4] != 0 then None
    else
      var hdr := 27 + b[off + 26] as int;
      if |b| - off < hdr || |b| - off - hdr < Sum(b[off + 27..off + hdr]) then None
      else Some(Page(b[off + 5], LeDecode(b[off + 6..off + 14]), LeDecode(b[off + 14..off + 18]),
                     LeDecode(b[off + 18..off + 22]), b[off + 22..off + 26], b[off + 27..off + hdr],
                     b[off + hdr..off + hdr + Sum(b[off + 27..off + hdr])]))
  }

  lemma SliceOfDrop(b: Bytes, off: nat, i: nat, j: nat)
    requires i <= j && off + j <= |b|
    ensures b[off..][i..j] == b[off + i..off + j]
  {}

  lemma ByteOfDrop(b: Bytes, off: nat, i: nat)
    requires off + i < |b|
    ensures b[off..][i] == b[off + i]
  {}

  lemma PageAtIsReadPage(b: Bytes, off: nat)
    requires off <= |b|
    ensures PageAt(b, off) == ReadPage(b[off..])
  {
    var rest := b[off..];
    if |rest| >= 27 {
      SliceOfDrop(b, off, 0, 4);
      SliceOfDrop(b, off, 6, 14);
      SliceOfDrop(b, off, 14, 18);
      SliceOfDrop(b, off, 18, 22);
      SliceOfDrop(b, off, 22, 26);
      ByteOfDrop(b, off, 4);
      ByteOfDrop(b, off, 5);
      ByteOfDrop(b, off, 26);
      var hdr := 27 + rest[26] as int;
      if |rest| >= hdr {
        SliceOfDrop(b, off, 27, hdr);
        var body := Sum(rest[27..hdr]);
        if |rest| - hdr >= body {
          SliceOfDrop(b, off, hdr, hdr + body);
        }
      }
    }
  }

  /** The bounds checks and the field reads at the head of the loop body. */
  method ParsePage(b: Bytes, off: nat) returns (p: Option<Page>)
    requires off <= |b|
    ensures p == ReadPage(b[off..])
  {
    PageAtIsReadPage(b, off);
    if |b| - off < 27 || b[off..off + 4] != OGGS || b[off + 4] != 0 {
      return None;
    }
    var hdr := 27 + b[off + 26] as int;
    if |b| - off < hdr {
      return None;
    }
    var body := SumOf(b[off + 27..off + hdr]);
    if |b| - off - hdr < body {
      return None;
    }
    return Some(Page(b[off + 5], LeDecode(b[off + 6..off + 14]), LeDecode(b[off + 14..off + 18]),
                     LeDecode(b[off + 18..off + 22]), b[off + 22..off + 26], b[off + 27..off + hdr],
                     b[off + hdr..off + hdr + body]));
  }

  /** The loop body of OggDurationSeconds; None where the code returns 0 from inside it. */
  method WalkPage(b: Bytes, off: nat, w: Walker) returns (end: nat, next: Option<Walker>)
    requires off < |b|
    ensures off < end <= |b|
    ensures Walk(b[off..], w) == if next.None? then None else Walk(b[end..], next.value)
  {
    var p := ParsePage(b, off);
    if p.None? {
      return |b|, None;
    }
    return off + PageSize(p.value), Accept(w, p.value);
  }

  method WalkBuffer(b: Bytes) returns (r: Option<Walker>)
    ensures r == Walk(b, START)
  {
    var w := START;
    var off := 0;
    assert b[0..] == b;
    while off < |b|
      invariant 0 <= off <= |b|
      invariant Walk(b[off..], w) == Walk(b, START)
    {
      var end, next := WalkPage(b, off, w);
      if next.None? {
        return None;
      }
      off, w := end, next.value;
    }
    return Some(w);
  }

  method OggDurationSeconds(b: Bytes) returns (secs: int)
    ensures secs == Duration(b)
  {
    var r := WalkBuffer(b);
    if r.None? || !r.value.seenGr || r.value.maxGr <= r.value.preSkip {
      return 0;
    }
    var whole := Min((r.value.maxGr - r.value.preSkip + 47999) % U64 / 48000, MAX_INT32);
    return Max(whole, (|b| + MAX_OGG_BYTES_PER_SECOND - 1) / MAX_OGG_BYTES_PER_SECOND);
  }

  /** The inner loop over the segment table. */
  method SumOf(s: Bytes) returns (total: nat)
    ensures total == Sum(s)
  {
    total := 0;
    for i := 0 to |s|
      invariant total == Sum(s[..i])
    {
      SumAppend(s[..i], s[i]);
      assert s[..i] + [s[i]] == s[..i + 1];
      total := total + s[i];
    }
    assert s[..|s|] == s;
  }

  // ---------- What the walk means ----------

  ghost predicate ValidStart(ps: seq<Page>) {
    ps != [] ==> Begins(ps[0])
  }

  ghost predicate OneStream(ps: seq<Page>) {
    forall i :: 0 < i < |ps| ==>
      ps[i].serial == ps[0].serial && !ps[i].Bos() && ps[i].sequence == (ps[i - 1].sequence + 1) % U32
  }

  ghost predicate NothingAfterEnd(ps: seq<Page>) {
    forall i :: 0 <= i < |ps| - 1 ==> !ps[i].Eos()
  }

  ghost predicate GranulesAscend(ps: seq<Page>) {
    forall i, j :: 0 <= i < j < |ps| && ps[i].HasGranule() && ps[j].HasGranule() ==> ps[i].granule <= ps[j].granule
  }

  ghost predicate WellOrdered(ps: seq<Page>) {
    ValidStart(ps) && OneStream(ps) && NothingAfterEnd(ps) && GranulesAscend(ps)
  }

  ghost predicate IsLargestGranule(ps: seq<Page>, g: nat) {
    && (exists i :: 0 <= i < |ps| && ps[i].HasGranule() && ps[i].granule == g)
    && (forall i :: 0 <= i < |ps| && ps[i].HasGranule() ==> ps[i].granule <= g)
  }

  /** An Ogg Opus stream with a readable, positive length. */
  ghost predicate ValidStream(ps: seq<Page>) {
    && AllWellFormed(ps) && WellOrdered(ps) && ps != []
    && (exists g: nat :: IsLargestGranule(ps, g) && g > PreSkip(ps[0]))
  }

  function AcceptAll(w: Walker, ps: seq<Page>): Option<Walker>
    decreases |ps|
  {
    if ps == [] then Some(w)
    else match Accept(w, ps[0])
      case None => None
      case Some(w') => AcceptAll(w', ps[1..])
  }

  lemma {:induction false} AcceptAllSnoc(w: Walker, ps: seq<Page>, p: Page)
    ensures AcceptAll(w, ps + [p]) ==
            match AcceptAll(w, ps) { case None => None case Some(w') => Accept(w', p) }
    decreases |ps|
  {
    if ps == [] {
      assert ([p])[1..] == [];
    } else {
      assert (ps + [p])[1..] == ps[1..] + [p];
      if Accept(w, ps[0]).Some? {
        AcceptAllSnoc(Accept(w, ps[0]).value, ps[1..], p);
      }
    }
  }

  /** What the loop variables hold after the pages ps. */
  ghost predicate Summarizes(w: Walker, ps: seq<Page>) {
    && w.page == |ps|
    && (ps == [] ==> w == START)
    && (ps != [] ==>
          && |ps[0].data| >= 19
          && w.serial == ps[0].serial && w.preSkip == PreSkip(ps[0])
          && w.prevSeq == ps[|ps| - 1].sequence && w.ended == ps[|ps| - 1].Eos())
    && (w.seenGr ==> IsLargestGranule(ps, w.maxGr))
    && (!w.seenGr ==> forall i :: 0 <= i < |ps| ==> !ps[i].HasGranule())
  }

  lemma WellOrderedPrefix(ps: seq<Page>, p: Page)
    requires WellOrdered(ps + [p])
    ensures WellOrdered(ps)
  {
    var qs := ps + [p];
    assert forall i :: 0 <= i < |ps| ==> qs[i] == ps[i];
  }

  lemma OrderedIsAccepted(w: Walker, ps: seq<Page>, p: Page)
    requires Summarizes(w, ps) && WellOrdered(ps + [p])
    ensures Accept(w, p).Some?
  {
    var qs := ps + [p];
    assert qs[|ps|] == p;
    if ps != [] {
      assert qs[|ps| - 1] == ps[|ps| - 1] && qs[0] == ps[0];
      if w.seenGr && p.HasGranule() {
        var i :| 0 <= i < |ps| && ps[i].HasGranule() && ps[i].granule == w.maxGr;
        assert qs[i] == ps[i] && qs[i].granule <= qs[|ps|].granule;
      }
    }
  }

  lemma AcceptedIsOrdered(w: Walker, ps: seq<Page>, p: Page)
    requires WellOrdered(ps) && Summarizes(w, ps) && Accept(w, p).Some?
    ensures WellOrdered(ps + [p])
  {
    var qs := ps + [p];
    assert forall i :: 0 <= i < |ps| ==> qs[i] == ps[i];
    assert qs[|ps|] == p;
    assert OneStream(qs);
    assert NothingAfterEnd(qs);
    forall i, j | 0 <= i < j < |qs| && qs[i].HasGranule() && qs[j].HasGranule()
      ensures qs[i].granule <= qs[j].granule
    {
      if j < |ps| {
        assert ps[i].granule <= ps[j].granule;
      } else {
        assert ps[i].granule <= w.maxGr;
      }
    }
  }

  lemma AcceptedIsSummarized(w: Walker, ps: seq<Page>, p: Page)
    requires Summarizes(w, ps) && Accept(w, p).Some?
    ensures Summarizes(Accept(w, p).value, ps + [p])
  {
    var qs, w' := ps + [p], Accept(w, p).value;
    assert qs[|ps|] == p && (ps != [] ==> qs[0] == ps[0]);
    if w'.seenGr {
      if p.HasGranule() {
        assert qs[|ps|].granule == w'.maxGr;
      } else {
        var i :| 0 <= i < |ps| && ps[i].HasGranule() && ps[i].granule == w.maxGr;
        assert qs[i] == ps[i];
      }
    }
  }

  lemma {:induction false} AcceptsExactlyOrdered(ps: seq<Page>)
    ensures AcceptAll(START, ps).Some? <==> WellOrdered(ps)
    ensures AcceptAll(START, ps).Some? ==> Summarizes(AcceptAll(START, ps).value, ps)
  {
    if ps != [] {
      var qs, p := ps[..|ps| - 1], ps[|ps| - 1];
      assert ps == qs + [p];
      AcceptsExactlyOrdered(qs);
      AcceptAllSnoc(START, qs, p);
      if WellOrdered(ps) {
        WellOrderedPrefix(qs, p);
      }
      if AcceptAll(START, qs).Some? {
        var w := AcceptAll(START, qs).value;
        if WellOrdered(ps) {
          OrderedIsAccepted(w, qs, p);
        }
        if Accept(w, p).Some? {
          AcceptedIsOrdered(w, qs, p);
          AcceptedIsSummarized(w, qs, p);
        }
      }
    }
  }

  // ---------- Bytes and pages ----------

  lemma {:induction false} WalkOfEncoding(ps: seq<Page>, w: Walker)
    requires AllWellFormed(ps)
    ensures Walk(EncodeStream(ps), w) == AcceptAll(w, ps)
    decreases |ps|
  {
    if ps != [] {
      ReadPageOfEncoding(ps[0], EncodeStream(ps[1..]));
      if Accept(w, ps[0]).Some? {
        WalkOfEncoding(ps[1..], Accept(w, ps[0]).value);
      }
    }
  }

  /** The pages of a buffer that the walk reads to its end. */
  function PagesOf(b: Bytes): seq<Page>
    decreases |b|
  {
    if b == [] || ReadPage(b).None? then []
    else EncodingOfReadPage(b); [ReadPage(b).value] + PagesOf(b[PageSize(ReadPage(b).value)..])
  }

  lemma {:induction false} EncodingOfWalk(b: Bytes, w: Walker)
    requires Walk(b, w).Some?
    ensures AllWellFormed(PagesOf(b)) && EncodeStream(PagesOf(b)) == b
    decreases |b|
  {
    if b != [] {
      var p := ReadPage(b).value;
      EncodingOfReadPage(b);
      var rest := b[PageSize(p)..];
      EncodingOfWalk(rest, Accept(w, p).value);
      assert PagesOf(b)[1..] == PagesOf(rest);
    }
  }

  lemma PagesOfFirst(p: Page, rest: Bytes)
    requires WellFormed(p)
    ensures PagesOf(EncodePage(p) + rest) == [p] + PagesOf(rest)
  {
    ReadPageOfEncoding(p, rest);
  }

  /** Walk-then-print: decoding is unique, so the pages of an encoding are the pages encoded. */
  lemma {:induction false} PagesOfEncoding(ps: seq<Page>)
    requires AllWellFormed(ps)
    ensures PagesOf(EncodeStream(ps)) == ps
  {
    if ps != [] {
      PagesOfFirst(ps[0], EncodeStream(ps[1..]));
      PagesOfEncoding(ps[1..]);
      assert ps == [ps[0]] + ps[1..];
    }
  }

  // ---------- Main results ----------

  /** The duration is positive exactly for the encodings of valid streams. */
  lemma PositiveIffValidStream(b: Bytes)
    ensures Duration(b) > 0 <==> exists ps :: ValidStream(ps) && EncodeStream(ps) == b
  {
    if Duration(b) > 0 {
      EncodingOfWalk(b, START);
      var ps := PagesOf(b);
      WalkOfEncoding(ps, START);
      AcceptsExactlyOrdered(ps);
      var w := Walk(b, START).value;
      assert IsLargestGranule(ps, w.maxGr);
      assert ValidStream(ps) && EncodeStream(ps) == b;
    }
    if ps :| ValidStream(ps) && EncodeStream(ps) == b {
      var g: nat :| IsLargestGranule(ps, g) && g > PreSkip(ps[0]);
      DurationOfStream(ps, g);
    }
  }

  lemma CountersOfStream(ps: seq<Page>, g: nat)
    requires ValidStream(ps) && IsLargestGranule(ps, g)
    ensures EncodeStream(ps) != [] && g > PreSkip(ps[0])
    ensures var r := Walk(EncodeStream(ps), START);
      r.Some? && r.value.seenGr && r.value.maxGr == g && r.value.preSkip == PreSkip(ps[0])
  {
    WalkOfEncoding(ps, START);
    AcceptsExactlyOrdered(ps);
    var w := AcceptAll(START, ps).value;
    var i :| 0 <= i < |ps| && ps[i].HasGranule() && ps[i].granule == g;
    assert w.seenGr;
    var g': nat :| IsLargestGranule(ps, g') && g' > PreSkip(ps[0]);
  }

  /** The value, by the page list alone; the only trace of uint64 is the wrap of the rounding. */
  lemma DurationOfStream(ps: seq<Page>, g: nat)
    requires ValidStream(ps) && IsLargestGranule(ps, g)
    ensures PreSkip(ps[0]) < g
    ensures var b := EncodeStream(ps);
      && Duration(b) == Max(Min((g - PreSkip(ps[0]) + 47999) % U64 / 48000, MAX_INT32), FloorSeconds(|b|))
      && Duration(b) > 0
  {
    CountersOfStream(ps, g);
  }

  lemma SecondsSpelled(samples: nat, len: nat)
    ensures RoundedSeconds(samples, len) ==
            Max(Min((samples + 47_999) % 0x1_0000_0000_0000_0000 / 48_000, 0x7FFF_FFFF), (len + 71_999) / 72_000)
  {
  }

  lemma DurationIsRounded(ps: seq<Page>, g: nat)
    requires ValidStream(ps) && IsLargestGranule(ps, g)
    ensures PreSkip(ps[0]) < g && Duration(EncodeStream(ps)) == RoundedSeconds(g - PreSkip(ps[0]), |EncodeStream(ps)|)
  {
    CountersOfStream(ps, g);
  }

  function HeadPreSkip(p: Page): nat
    requires |p.data| >= 19
  {
    p.data[10] as int + 256 * (p.data[11] as int)
  }

  lemma BeginsWithHead(ps: seq<Page>)
    requires ValidStream(ps)
    ensures |ps[0].data| >= 19 && PreSkip(ps[0]) == HeadPreSkip(ps[0])
  {
    PreSkipBytes(ps[0]);
  }

  /** The same with the pre-skip taken from two bytes of the first page. */
  lemma DurationOfBytes(ps: seq<Page>, g: nat)
    requires ValidStream(ps) && IsLargestGranule(ps, g)
    ensures HeadPreSkip(ps[0]) < g && Duration(EncodeStream(ps)) == RoundedSeconds(g - HeadPreSkip(ps[0]), |EncodeStream(ps)|)
  {
    BeginsWithHead(ps);
    DurationIsRounded(ps, g);
  }

  // A file, byte by byte: an OpusHead page with pre-skip 312, and a last page
  // that ends at sample 240,312. It is five seconds long.

  const ZEROS4: Bytes := [0, 0, 0, 0]
  const ONE4: Bytes := [1, 0, 0, 0]
  const OPUS_HEAD_312: Bytes := [0x4F, 0x70, 0x75, 0x73, 0x48, 0x65, 0x61, 0x64, 1, 1, 0x38, 0x01, 0, 0, 0, 0, 0, 0, 0]
  const GRANULE_240312: Bytes := [0xB8, 0xAA, 0x03, 0, 0, 0, 0, 0]

  function HeadPage(): Page { Page(2, 0, 1, 0, ZEROS4, [19], OPUS_HEAD_312) }

  function LastPage(): Page { Page(4, 240312, 1, 1, ZEROS4, [1], [7]) }

  lemma Numbers()
    ensures LeDecode(ZEROS4) == 0 && LeDecode(ONE4) == 1 && LeDecode(ZEROS4 + ZEROS4) == 0 && LeDecode(GRANULE_240312) == 240312
  {
    assert LeDecode([0]) == 0 && [0, 0][1..] == [0] && [0, 0, 0][1..] == [0, 0] && ZEROS4[1..] == ONE4[1..] == [0, 0, 0];
    assert ZEROS4 + ZEROS4 == [0, 0, 0, 0, 0, 0, 0, 0] && [0, 0, 0, 0, 0][1..] == ZEROS4 && [0, 0, 0, 0, 0, 0][1..] == [0, 0, 0, 0, 0];
    assert [0, 0, 0, 0, 0, 0, 0][1..] == [0, 0, 0, 0, 0, 0] && [0, 0, 0, 0, 0, 0, 0, 0][1..] == [0, 0, 0, 0, 0, 0, 0];
    assert GRANULE_240312[1..] == [0xAA, 0x03, 0, 0, 0, 0, 0] && [0xAA, 0x03, 0, 0, 0, 0, 0][1..] == [0x03, 0, 0, 0, 0, 0];
    assert [0x03, 0, 0, 0, 0, 0][1..] == [0, 0, 0, 0, 0];
  }

  function HeadBytes(): Bytes {
    [0x4F, 0x67, 0x67, 0x53, 0, 2] + (ZEROS4 + ZEROS4) + ONE4 + ZEROS4 + ZEROS4 + [1] + ([19] + OPUS_HEAD_312)
  }

  function LastBytes(): Bytes {
    [0x4F, 0x67, 0x67, 0x53, 0, 4] + GRANULE_240312 + ONE4 + ONE4 + ZEROS4 + [1] + ([1] + [7])
  }

  lemma ReadHead(rest: Bytes)
    ensures ReadPage(HeadBytes() + rest) == Some(HeadPage()) && |HeadBytes()| == PageSize(HeadPage()) == 47
  {
    Numbers();
    assert Sum([19]) == 19 + Sum([]);
    PageLayout(2, ZEROS4 + ZEROS4, ONE4, ZEROS4, ZEROS4, [19], OPUS_HEAD_312, rest);
  }

  lemma ReadLast(rest: Bytes)
    ensures ReadPage(LastBytes() + rest) == Some(LastPage()) && |LastBytes()| == PageSize(LastPage()) == 29
  {
    Numbers();
    assert Sum([1]) == 1 + Sum([]);
    PageLayout(4, GRANULE_240312, ONE4, ONE4, ZEROS4, [1], [7], rest);
  }

  lemma HeadBegins()
    ensures Begins(HeadPage()) && PreSkip(HeadPage()) == 312
  {
    assert OPUS_HEAD_312[..8] == OPUS_HEAD;
    PreSkipBytes(HeadPage());
  }

  lemma WalkOne(b: Bytes, p: Page, w: Walker, w': Walker)
    requires ReadPage(b) == Some(p) && |b| >= PageSize(p) && Accept(w, p) == Some(w')
    ensures Walk(b, w) == Walk(b[PageSize(p)..], w')
  {
  }

  lemma PagesAccepted()
    ensures Accept(START, HeadPage()) == Some(Walker(1, 1, 0, 312, 0, true, false))
    ensures Accept(Walker(1, 1, 0, 312, 0, true, false), LastPage()) == Some(Walker(2, 1, 1, 312, 240312, true, true))
  {
    HeadBegins();
  }

  lemma ReadLastAlone()
    ensures ReadPage(LastBytes()) == Some(LastPage())
  {
    ReadLast([]);
    assert LastBytes() + [] == LastBytes();
  }

  lemma FileIsWalked()
    ensures Walk(HeadBytes() + LastBytes(), START) == Some(Walker(2, 1, 1, 312, 240312, true, true))
  {
    var w, w' := Walker(1, 1, 0, 312, 0, true, false), Walker(2, 1, 1, 312, 240312, true, true);
    PagesAccepted();
    ReadHead(LastBytes());
    ReadLast([]);
    ReadLastAlone();
    WalkOne(HeadBytes() + LastBytes(), HeadPage(), START, w);
    assert (HeadBytes() + LastBytes())[47..] == LastBytes();
    WalkOne(LastBytes(), LastPage(), w, w');
    assert LastBytes()[29..] == [];
  }

  lemma FileIsFiveSeconds()
    ensures Duration(HeadBytes() + LastBytes()) == 5
  {
    FileIsWalked();
    ReadHead([]);
    ReadLast([]);
  }

  /** Samples at 48 kHz in whole seconds, rounded up, capped, and at least what the file's size says. */
  function ExactSeconds(samples: nat, len: nat): int { Max(Min((samples + 47999) / 48000, MAX_INT32), FloorSeconds(len)) }

  lemma RoundingExactUnlessWrapped(g: nat, preSkip: nat, len: nat)
    requires preSkip < g < U64
    ensures Seconds(true, g, preSkip, len) == ExactSeconds(g - preSkip, len)
            <==> (g - preSkip + 47999 < U64 || FloorSeconds(len) >= MAX_INT32)
  {
    if g - preSkip + 47999 >= U64 {
      assert (g - preSkip + 47999) % U64 == g - preSkip + 47999 - U64;
      assert (g - preSkip + 47999) / 48000 >= MAX_INT32;
    }
  }

  /**
   Section 6.6 of the protocol: the duration of a valid stream is its largest
   granule minus the pre-skip, in seconds rounded up, exactly if rounding up
   does not leave uint64 or the file's size already gives the largest duration.
   */
  lemma DurationIsExactIff(ps: seq<Page>, g: nat)
    requires ValidStream(ps) && IsLargestGranule(ps, g)
    ensures PreSkip(ps[0]) < g
    ensures var b := EncodeStream(ps);
      Duration(b) == ExactSeconds(g - PreSkip(ps[0]), |b|)
      <==> g - PreSkip(ps[0]) + 47999 < U64 || FloorSeconds(|b|) >= MAX_INT32
  {
    CountersOfStream(ps, g);
    var i :| 0 <= i < |ps| && ps[i].HasGranule() && ps[i].granule == g;
    assert WellFormed(ps[i]);
    RoundingExactUnlessWrapped(g, PreSkip(ps[0]), |EncodeStream(ps)|);
  }

  const ELEVEN_ZEROS: Bytes := [0, 0, 0, 0, 0, 0, 0, 0, 0, 0, 0]

  /** One page that begins the stream, with an OpusHead without pre-skip. */
  function LonePage(granule: nat): Page { Page(2, granule, 0, 0, [0, 0, 0, 0], [19], OPUS_HEAD + ELEVEN_ZEROS) }

  lemma LonePageBegins(granule: nat)
    requires granule < U64
    ensures WellFormed(LonePage(granule)) && Begins(LonePage(granule)) && PreSkip(LonePage(granule)) == 0 && PageSize(LonePage(granule)) == 47
  {
    var p := LonePage(granule);
    assert Sum([19]) == 19 + Sum([]);
    assert p.data[..8] == OPUS_HEAD;
    assert p.data[10..12] == [0, 0];
    assert LeDecode([0, 0]) == 0 + 256 * LeDecode([0]);
  }

  lemma LonePageIsValid(granule: nat)
    requires 0 < granule < NO_GRANULE
    ensures ValidStream([LonePage(granule)]) && IsLargestGranule([LonePage(granule)], granule)
  {
    var ps := [LonePage(granule)];
    LonePageBegins(granule);
    assert ps[0].HasGranule() && ps[0].granule == granule;
    assert IsLargestGranule(ps, granule);
  }

  lemma WrappedSeconds(granule: nat)
    requires U64 - 48000 < granule < NO_GRANULE
    ensures (granule + 47999) % U64 / 48000 == 0 && ExactSeconds(granule, 47) == MAX_INT32
  {
    assert (granule + 47999) % U64 == granule + 47999 - U64;
  }

  lemma LonePageSize(granule: nat)
    requires granule < U64
    ensures AllWellFormed([LonePage(granule)]) && |EncodeStream([LonePage(granule)])| == 47
  {
    LonePageBegins(granule);
    var ps := [LonePage(granule)];
    assert EncodeStream(ps) == EncodePage(ps[0]) + EncodeStream([]);
  }

  /** Files of 47 bytes for which it fails: with a granule within a second of 2^64 they are read as one second long. */
  lemma WrappedFileIsOneSecond(granule: nat)
    requires U64 - 48000 < granule < NO_GRANULE
    ensures ValidStream([LonePage(granule)]) && |EncodeStream([LonePage(granule)])| == 47
    ensures Duration(EncodeStream([LonePage(granule)])) == 1 && ExactSeconds(granule, 47) == MAX_INT32
  {
    LonePageIsValid(granule);
    LonePageSize(granule);
    LonePageBegins(granule);
    DurationOfStream([LonePage(granule)], granule);
    WrappedSeconds(granule);
  }

  lemma ReadPageOfPrefix(s: Bytes, t: Bytes)
    requires ReadPage(s).Some?
    ensures var p := ReadPage(s).value;
      ReadPage(s + t) == Some(p) && PageSize(p) <= |s| && (s + t)[PageSize(p)..] == s[PageSize(p)..] + t
  {
    var p := ReadPage(s).value;
    EncodingOfReadPage(s);
    var rest := s[PageSize(p)..];
    assert s + t == EncodePage(p) + (rest + t);
    ReadPageOfEncoding(p, rest + t);
  }

  lemma {:induction false} WalkConcat(s: Bytes, t: Bytes, w: Walker)
    requires Walk(s, w).Some?
    ensures Walk(s + t, w) == Walk(t, Walk(s, w).value)
    decreases |s|
  {
    if s == [] {
      assert s + t == t;
    } else {
      var p := ReadPage(s).value;
      ReadPageOfPrefix(s, t);
      WalkConcat(s[PageSize(p)..], t, Accept(w, p).value);
    }
  }

  /** After an end-of-stream page nothing may follow. */
  lemma NothingFollowsEnd(s: Bytes, t: Bytes)
    requires Duration(s) > 0 && Walk(s, START).value.ended && t != []
    ensures Duration(s + t) == 0
  {
    WalkConcat(s, t, START);
  }

  lemma {:induction false} WalkGrows(t: Bytes, w: Walker)
    requires Walk(t, w).Some? && w.page > 0
    ensures var w' := Walk(t, w).value;
      && w'.preSkip == w.preSkip && (w.seenGr ==> w'.seenGr && w'.maxGr >= w.maxGr)
    decreases |t|
  {
    if t != [] {
      var p := ReadPage(t).value;
      EncodingOfReadPage(t);
      WalkGrows(t[PageSize(p)..], Accept(w, p).value);
    }
  }

  lemma SecondsMonotone(g: nat, g': nat, preSkip: nat, len: nat, len': nat)
    requires preSkip < g <= g' && len <= len'
    requires g' - preSkip + 47999 < U64
    ensures Seconds(true, g, preSkip, len) <= Seconds(true, g', preSkip, len')
  {
    assert (g - preSkip + 47999) / 48000 <= (g' - preSkip + 47999) / 48000;
    assert FloorSeconds(len) <= FloorSeconds(len');
  }

  lemma CountersGrow(s: Bytes, t: Bytes)
    requires s != [] && Walk(s, START).Some? && Walk(s + t, START).Some?
    ensures var w, w' := Walk(s, START).value, Walk(s + t, START).value;
      w'.preSkip == w.preSkip && (w.seenGr ==> w'.seenGr && w'.maxGr >= w.maxGr)
  {
    WalkConcat(s, t, START);
    EncodingOfWalk(s, START);
    WalkOfEncoding(PagesOf(s), START);
    AcceptsExactlyOrdered(PagesOf(s));
    WalkGrows(t, Walk(s, START).value);
  }

  /** Appending to a readable stream never shortens it, as long as the longer one does not wrap. */
  lemma ExtensionNeverShortens(s: Bytes, t: Bytes)
    requires Duration(s) > 0 && Duration(s + t) > 0
    requires var w := Walk(s + t, START).value; w.maxGr - w.preSkip + 47999 < U64
    ensures Duration(s + t) >= Duration(s)
  {
    CountersGrow(s, t);
    var w, w' := Walk(s, START).value, Walk(s + t, START).value;
    SecondsMonotone(w.maxGr, w'.maxGr, w.preSkip, |s|, |s + t|);
  }
}
