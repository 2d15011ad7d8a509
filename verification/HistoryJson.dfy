/**
 The bytes of a history_batch line, as the JSON library prints messages, chats
 and the envelope of internal/protocol/events.go and envelope.go with HTML
 escaping off. The sizes that the batch limit rests on are the lengths of
 these bytes.
 */
module HistoryJson {
  import opened Prelude
  import opened Messages
  import opened HistoryBytes
  import Split = HistorySplit

  // ---------- Values ----------

  /** The bytes of an ASCII literal. */
  function B(s: string): (b: Bytes)
    ensures |b| == |s|
  {
    seq(|s|, i requires 0 <= i < |s| => s[i] as int % 256)
  }

  function Utf8(v: nat): Bytes {
    if v < 0x80 then [v]
    else if v < 0x800 then [0xC0 + v / 64, 0x80 + v % 64]
    else if v < 0x10000 then [0xE0 + v / 4096, 0x80 + v / 64 % 64, 0x80 + v % 64]
    else [0xF0 + v / 262144 % 8, 0x80 + v / 4096 % 64, 0x80 + v / 64 % 64, 0x80 + v % 64]
  }

  function HexDigit(d: nat): Byte
    requires d < 16
  {
    if d < 10 then 48 + d else 87 + d
  }

  function CharBytes(c: Char): Bytes {
    if c.BadByte? then B("\\ufffd")
    else if c.v == 0x22 then B("\\\"")
    else if c.v == 0x5C then B("\\\\")
    else if c.v == 8 then B("\\b")
    else if c.v == 9 then B("\\t")
    else if c.v == 10 then B("\\n")
    else if c.v == 12 then B("\\f")
    else if c.v == 13 then B("\\r")
    else if c.v < 0x20 then B("\\u00") + [HexDigit(c.v / 16), HexDigit(c.v % 16)]
    else if c.v == 0x2028 then B("\\u2028")
    else if c.v == 0x2029 then B("\\u2029")
    else Utf8(c.v)
  }

  function CharsBytes(t: Text): Bytes { if t == [] then [] else CharsBytes(t[..|t| - 1]) + CharBytes(t[|t| - 1]) }

  function Str(t: Text): Bytes { [34] + CharsBytes(t) + [34] }

  function Literal(s: string): Bytes { [34] + B(s) + [34] }

  function Decimal(n: nat): Bytes
    decreases n
  {
    if n < 10 then [48 + n] else Decimal(n / 10) + [48 + n % 10]
  }

  function Int(n: int): Bytes { if n < 0 then [45] + Decimal(-n) else Decimal(n) }

  function Bool(b: bool): Bytes { if b then B("true") else B("false") }

  lemma {:induction false} StrLength(t: Text)
    ensures |Str(t)| == StringSize(t)
  {
    CharsLength(t);
  }

  lemma {:induction false} CharsLength(t: Text)
    ensures |CharsBytes(t)| == CharsSize(t)
  {
    if t != [] {
      CharsLength(t[..|t| - 1]);
      CharLength(t[|t| - 1]);
    }
  }

  lemma CharLength(c: Char)
    ensures |CharBytes(c)| == CharSize(c)
  {
  }

  lemma {:induction false} DecimalLength(n: nat)
    ensures |Decimal(n)| == Digits(n)
  {
    if n >= 10 {
      DecimalLength(n / 10);
    }
  }

  lemma IntLength(n: int)
    ensures |Int(n)| == IntSize(n)
  {
    DecimalLength(if n < 0 then -n else n);
  }

  // ---------- Objects and arrays ----------

  function Joined(parts: seq<Bytes>): Bytes {
    if parts == [] then [] else if |parts| == 1 then parts[0] else parts[0] + [44] + Joined(parts[1..])
  }

  function Obj(members: seq<Bytes>): Bytes { [123] + Joined(members) + [125] }

  function Arr(elements: seq<Bytes>): Bytes { [91] + Joined(elements) + [93] }

  function Member(key: string, value: Bytes): Bytes { Literal(key) + [58] + value }

  /** A member with omitempty. */
  function Unempty(absent: bool, member: Bytes): seq<Bytes> { if absent then [] else [member] }

  /** The parts with a comma each. */
  function Total(parts: seq<Bytes>): nat { if parts == [] then 0 else |parts[0]| + 1 + Total(parts[1..]) }

  lemma {:induction false} JoinedLength(parts: seq<Bytes>)
    requires parts != []
    ensures |Joined(parts)| + 1 == Total(parts)
  {
    if |parts| > 1 {
      JoinedLength(parts[1..]);
    } else {
      assert parts[1..] == [];
    }
  }

  lemma {:induction false} TotalAppend(a: seq<Bytes>, b: seq<Bytes>)
    ensures Total(a + b) == Total(a) + Total(b)
  {
    if a == [] {
      assert a + b == b;
    } else {
      assert (a + b)[1..] == a[1..] + b;
      TotalAppend(a[1..], b);
    }
  }

  lemma TotalOne(a: Bytes)
    ensures Total([a]) == |a| + 1
  {
    assert [a][1..] == [];
  }

  lemma TotalUnempty(absent: bool, member: Bytes)
    ensures Total(Unempty(absent, member)) == if absent then 0 else |member| + 1
  {
    TotalOne(member);
  }

  lemma TotalTwo(a: Bytes, b: Bytes)
    ensures Total([a, b]) == |a| + |b| + 2
  {
    assert [a, b] == [a] + [b];
    TotalAppend([a], [b]);
    TotalOne(a);
    TotalOne(b);
  }

  lemma TotalThree(a: Bytes, b: Bytes, c: Bytes)
    ensures Total([a, b, c]) == |a| + |b| + |c| + 3
  {
    assert [a, b, c] == [a, b] + [c];
    TotalAppend([a, b], [c]);
    TotalTwo(a, b);
    TotalOne(c);
  }

  /** Four lists of members, one after the other. */
  lemma TotalLists(a: seq<Bytes>, b: seq<Bytes>, c: seq<Bytes>, d: seq<Bytes>)
    ensures Total(a + b + c + d) == Total(a) + Total(b) + Total(c) + Total(d)
  {
    TotalAppend(a, b);
    TotalAppend(a + b, c);
    TotalAppend(a + b + c, d);
  }

  lemma FourListsLength(a: seq<Bytes>, b: seq<Bytes>, c: seq<Bytes>, d: seq<Bytes>)
    requires a != []
    ensures |Obj(a + b + c + d)| == 1 + Total(a) + Total(b) + Total(c) + Total(d)
  {
    TotalLists(a, b, c, d);
    JoinedLength(a + b + c + d);
  }

  // ---------- A message ----------

  function QuoteJson(q: Quote): Bytes {
    Obj([Member("id", Str(q.id))] + if q.sender.Some? then [Member("senderJid", Str(q.sender.value))] else [])
  }

  lemma QuoteLength(q: Quote)
    ensures |QuoteJson(q)| == QuoteSize(q)
  {
    var id := Member("id", Str(q.id));
    var sender := if q.sender.Some? then [Member("senderJid", Str(q.sender.value))] else [];
    StrLength(q.id);
    TotalOne(id);
    if q.sender.Some? {
      StrLength(q.sender.value);
      TotalOne(sender[0]);
    }
    TotalAppend([id], sender);
    JoinedLength([id] + sender);
  }

  function MediaNumbers(m: Media): seq<Bytes> {
    Unempty(m.durationS == 0, Member("durationS", Int(m.durationS))) + Unempty(m.width == 0, Member("width", Int(m.width))) +
    Unempty(m.height == 0, Member("height", Int(m.height))) + Unempty(m.fileName == [], Member("fileName", Str(m.fileName)))
  }

  function MediaJson(m: Media): Bytes {
    Obj([Member("mime", Str(m.mime)), Member("sizeBytes", Int(m.sizeBytes))] + MediaNumbers(m))
  }

  lemma MediaNumbersLength(m: Media)
    ensures Total(MediaNumbers(m)) ==
            Unless(m.durationS == 0, Field(9, IntSize(m.durationS))) + Unless(m.width == 0, Field(5, IntSize(m.width))) +
            Unless(m.height == 0, Field(6, IntSize(m.height))) + Unless(m.fileName == [], Field(8, StringSize(m.fileName)))
  {
    var d, w := Member("durationS", Int(m.durationS)), Member("width", Int(m.width));
    var h, f := Member("height", Int(m.height)), Member("fileName", Str(m.fileName));
    IntLength(m.durationS);
    IntLength(m.width);
    IntLength(m.height);
    StrLength(m.fileName);
    TotalUnempty(m.durationS == 0, d);
    TotalUnempty(m.width == 0, w);
    TotalUnempty(m.height == 0, h);
    TotalUnempty(m.fileName == [], f);
    TotalLists(Unempty(m.durationS == 0, d), Unempty(m.width == 0, w), Unempty(m.height == 0, h), Unempty(m.fileName == [], f));
  }

  lemma MediaLength(m: Media)
    ensures |MediaJson(m)| == MediaSize(m)
  {
    var mime, size := Member("mime", Str(m.mime)), Member("sizeBytes", Int(m.sizeBytes));
    StrLength(m.mime);
    IntLength(m.sizeBytes);
    TotalTwo(mime, size);
    MediaNumbersLength(m);
    TotalAppend([mime, size], MediaNumbers(m));
    JoinedLength([mime, size] + MediaNumbers(m));
  }

  function Strings(ts: seq<Text>): seq<Bytes> { if ts == [] then [] else Strings(ts[..|ts| - 1]) + [Str(ts[|ts| - 1])] }

  function PairJson(p: Pair): Bytes { Obj([Member("lid", Str(p.lid)), Member("jid", Str(p.jid))]) }

  function Pairs(ps: seq<Pair>): seq<Bytes> { if ps == [] then [] else Pairs(ps[..|ps| - 1]) + [PairJson(ps[|ps| - 1])] }

  lemma {:induction false} StringsLength(ts: seq<Text>)
    ensures Total(Strings(ts)) == StringsSize(ts) && |Strings(ts)| == |ts|
  {
    if ts != [] {
      var init, last := ts[..|ts| - 1], ts[|ts| - 1];
      StringsLength(init);
      StrLength(last);
      TotalAppend(Strings(init), [Str(last)]);
      TotalOne(Str(last));
    }
  }

  lemma PairLength(p: Pair)
    ensures |PairJson(p)| == PairSize(p)
  {
    StrLength(p.lid);
    StrLength(p.jid);
    TotalTwo(Member("lid", Str(p.lid)), Member("jid", Str(p.jid)));
    JoinedLength([Member("lid", Str(p.lid)), Member("jid", Str(p.jid))]);
  }

  lemma {:induction false} PairsLength(ps: seq<Pair>)
    ensures Total(Pairs(ps)) == PairsSize(ps) && |Pairs(ps)| == |ps|
  {
    if ps != [] {
      var init, last := ps[..|ps| - 1], ps[|ps| - 1];
      PairsLength(init);
      PairLength(last);
      TotalAppend(Pairs(init), [PairJson(last)]);
      TotalOne(PairJson(last));
    }
  }

  lemma ArrLength(elements: seq<Bytes>)
    requires elements != []
    ensures |Arr(elements)| == ArraySize(Total(elements))
  {
    JoinedLength(elements);
  }

  function Names(m: Wire): seq<Bytes> {
    [Member("chatJid", Str(m.chatJid)), Member("id", Str(m.id)), Member("senderJid", Str(m.senderJid))] +
    [Member("fromMe", Bool(m.fromMe)), Member("ts", Int(m.ts)), Member("kind", Literal(KindName(m.kind)))]
  }

  function Texts(m: Wire): seq<Bytes> {
    Unempty(m.text == [], Member("text", Str(m.text))) + Unempty(m.pushName == [], Member("pushName", Str(m.pushName))) +
    if m.quoted.Some? then [Member("quoted", QuoteJson(m.quoted.value))] else []
  }

  function Mentions(m: Wire): seq<Bytes> {
    Unempty(m.mentions == [], Member("mentions", Arr(Strings(m.mentions)))) +
    Unempty(m.pairs == [], Member("mentionLids", Arr(Pairs(m.pairs))))
  }

  function Marks(m: Wire): seq<Bytes> {
    Unempty(!m.forwarded, Member("forwarded", Bool(true))) + Unempty(!m.edited, Member("edited", Bool(true))) +
    if m.media.Some? then [Member("media", MediaJson(m.media.value))] else []
  }

  function MessageJson(m: Wire): Bytes { Obj(Names(m) + Texts(m) + Mentions(m) + Marks(m)) }

  lemma NamesLength(m: Wire)
    ensures Total(Names(m)) == NamesSize(m)
  {
    StrLength(m.chatJid);
    StrLength(m.id);
    StrLength(m.senderJid);
    IntLength(m.ts);
    var a, b := Member("chatJid", Str(m.chatJid)), Member("id", Str(m.id));
    var c, d := Member("senderJid", Str(m.senderJid)), Member("fromMe", Bool(m.fromMe));
    var e, f := Member("ts", Int(m.ts)), Member("kind", Literal(KindName(m.kind)));
    TotalThree(a, b, c);
    TotalThree(d, e, f);
    TotalAppend([a, b, c], [d, e, f]);
  }

  lemma TextsLength(m: Wire)
    ensures Total(Texts(m)) ==
            Unless(m.text == [], Field(4, StringSize(m.text))) + Unless(m.pushName == [], Field(8, StringSize(m.pushName))) +
            (if m.quoted.Some? then Field(6, QuoteSize(m.quoted.value)) else 0)
  {
    var text, name := Member("text", Str(m.text)), Member("pushName", Str(m.pushName));
    var quoted := if m.quoted.Some? then [Member("quoted", QuoteJson(m.quoted.value))] else [];
    StrLength(m.text);
    StrLength(m.pushName);
    TotalUnempty(m.text == [], text);
    TotalUnempty(m.pushName == [], name);
    if m.quoted.Some? {
      QuoteLength(m.quoted.value);
      TotalOne(quoted[0]);
    }
    TotalAppend(Unempty(m.text == [], text), Unempty(m.pushName == [], name));
    TotalAppend(Unempty(m.text == [], text) + Unempty(m.pushName == [], name), quoted);
  }

  lemma MentionsLength(m: Wire)
    ensures Total(Mentions(m)) == MentionsSize(m)
  {
    var users, pairs := Member("mentions", Arr(Strings(m.mentions))), Member("mentionLids", Arr(Pairs(m.pairs)));
    StringsLength(m.mentions);
    PairsLength(m.pairs);
    if m.mentions != [] {
      ArrLength(Strings(m.mentions));
    }
    if m.pairs != [] {
      ArrLength(Pairs(m.pairs));
    }
    TotalUnempty(m.mentions == [], users);
    TotalUnempty(m.pairs == [], pairs);
    TotalAppend(Unempty(m.mentions == [], users), Unempty(m.pairs == [], pairs));
  }

  lemma MarksLength(m: Wire)
    ensures Total(Marks(m)) ==
            Unless(!m.forwarded, Field(9, BoolSize(true))) + Unless(!m.edited, Field(6, BoolSize(true))) +
            (if m.media.Some? then Field(5, MediaSize(m.media.value)) else 0)
  {
    var forwarded, edited := Member("forwarded", Bool(true)), Member("edited", Bool(true));
    var media := if m.media.Some? then [Member("media", MediaJson(m.media.value))] else [];
    TotalUnempty(!m.forwarded, forwarded);
    TotalUnempty(!m.edited, edited);
    if m.media.Some? {
      MediaLength(m.media.value);
      TotalOne(media[0]);
    }
    TotalAppend(Unempty(!m.forwarded, forwarded), Unempty(!m.edited, edited));
    TotalAppend(Unempty(!m.forwarded, forwarded) + Unempty(!m.edited, edited), media);
  }

  /** The encoded size of a message is the length of its JSON. */
  lemma MessageLength(m: Wire)
    ensures |MessageJson(m)| == MessageSize(m)
  {
    NamesLength(m);
    TextsLength(m);
    MentionsLength(m);
    MarksLength(m);
    FourListsLength(Names(m), Texts(m), Mentions(m), Marks(m));
  }

  // ---------- A chat ----------

  function ChatFirst(c: Chat): seq<Bytes> {
    [Member("jid", Str(c.jid)), Member("kind", Literal(if c.group then "group" else "dm"))] +
    Unempty(c.name == [], Member("name", Str(c.name)))
  }

  function ChatRest(c: Chat): seq<Bytes> {
    [Member("unreadCount", Int(c.unread)), Member("pinned", Bool(c.pinned))] +
    Unempty(c.mutedUntil == 0, Member("mutedUntil", Int(c.mutedUntil))) + [Member("archived", Bool(c.archived))] +
    Unempty(c.lastAt == 0, Member("lastMessageAt", Int(c.lastAt)))
  }

  function ChatJson(c: Chat): Bytes { Obj(ChatFirst(c) + ChatRest(c)) }

  lemma ChatFirstLength(c: Chat)
    ensures Total(ChatFirst(c)) ==
            Field(3, StringSize(c.jid)) + Field(4, if c.group then 7 else 4) + Unless(c.name == [], Field(4, StringSize(c.name)))
  {
    var jid, kind, name := Member("jid", Str(c.jid)), Member("kind", Literal(if c.group then "group" else "dm")), Member("name", Str(c.name));
    StrLength(c.jid);
    StrLength(c.name);
    TotalTwo(jid, kind);
    TotalUnempty(c.name == [], name);
    TotalAppend([jid, kind], Unempty(c.name == [], name));
  }

  lemma ChatRestLength(c: Chat)
    ensures Total(ChatRest(c)) ==
            Field(11, IntSize(c.unread)) + Field(6, BoolSize(c.pinned)) + Unless(c.mutedUntil == 0, Field(10, IntSize(c.mutedUntil))) +
            Field(8, BoolSize(c.archived)) + Unless(c.lastAt == 0, Field(13, IntSize(c.lastAt)))
  {
    var unread, pinned := Member("unreadCount", Int(c.unread)), Member("pinned", Bool(c.pinned));
    var muted, archived, last := Member("mutedUntil", Int(c.mutedUntil)), Member("archived", Bool(c.archived)), Member("lastMessageAt", Int(c.lastAt));
    IntLength(c.unread);
    IntLength(c.mutedUntil);
    IntLength(c.lastAt);
    TotalTwo(unread, pinned);
    TotalUnempty(c.mutedUntil == 0, muted);
    TotalOne(archived);
    TotalUnempty(c.lastAt == 0, last);
    TotalLists([unread, pinned], Unempty(c.mutedUntil == 0, muted), [archived], Unempty(c.lastAt == 0, last));
  }

  /** So is that of the chat. */
  lemma ChatLength(c: Chat)
    ensures |ChatJson(c)| == ChatSize(c)
  {
    ChatFirstLength(c);
    ChatRestLength(c);
    TotalAppend(ChatFirst(c), ChatRest(c));
    JoinedLength(ChatFirst(c) + ChatRest(c));
  }

  // ---------- The line ----------

  function PayloadJson(h: Header, chat: Bytes, messages: seq<Bytes>): Bytes {
    Obj([Member("seq", Int(h.number)), Member("syncType", Literal(SyncName(h.sync)))] +
        [Member("chat", chat), Member("messages", Arr(messages))] +
        if h.progress.Some? then [Member("progress", Int(h.progress.value))] else [])
  }

  /** Without its newline; ulid is 26 characters. */
  function LineJson(h: Header, ulid: string, chat: Bytes, messages: seq<Bytes>): Bytes {
    Obj([Member("v", [49]), Member("id", Literal(ulid)), Member("type", Literal("history_batch"))] +
        [Member("ts", Int(h.ts)), Member("payload", PayloadJson(h, chat, messages))])
  }

  /** These are the messages of the batch, printed. */
  ghost predicate Prints(messages: seq<Bytes>, batch: seq<Message>) {
    |messages| == |batch| && forall i :: 0 <= i < |batch| ==> |messages[i]| == batch[i].encodedSize
  }

  lemma {:induction false} PrintsCost(messages: seq<Bytes>, batch: seq<Message>)
    requires Prints(messages, batch)
    ensures Total(messages) == Split.TotalCost(batch)
  {
    if batch != [] {
      PrintsCost(messages[1..], batch[1..]);
    }
  }

  lemma PayloadLength(h: Header, chat: Bytes, messages: seq<Bytes>, batch: seq<Message>)
    requires Prints(messages, batch) && batch != []
    ensures |PayloadJson(h, chat, messages)| == PayloadSize(h, |chat|, batch)
  {
    var number, sync := Member("seq", Int(h.number)), Member("syncType", Literal(SyncName(h.sync)));
    var c, ms := Member("chat", chat), Member("messages", Arr(messages));
    var progress := if h.progress.Some? then [Member("progress", Int(h.progress.value))] else [];
    IntLength(h.number);
    PrintsCost(messages, batch);
    ArrLength(messages);
    TotalTwo(number, sync);
    TotalTwo(c, ms);
    if h.progress.Some? {
      IntLength(h.progress.value);
      TotalOne(progress[0]);
    }
    TotalAppend([number, sync], [c, ms]);
    TotalAppend([number, sync] + [c, ms], progress);
    JoinedLength([number, sync] + [c, ms] + progress);
  }

  /** And so is that of the whole line. */
  lemma LineLength(h: Header, ulid: string, chat: Bytes, messages: seq<Bytes>, batch: seq<Message>)
    requires Prints(messages, batch) && batch != [] && |ulid| == 26
    ensures |LineJson(h, ulid, chat, messages)| == LineSize(h, |chat|, batch)
  {
    var v, id, typ := Member("v", [49]), Member("id", Literal(ulid)), Member("type", Literal("history_batch"));
    var ts, payload := Member("ts", Int(h.ts)), Member("payload", PayloadJson(h, chat, messages));
    IntLength(h.ts);
    PayloadLength(h, chat, messages, batch);
    TotalThree(v, id, typ);
    TotalTwo(ts, payload);
    TotalAppend([v, id, typ], [ts, payload]);
    JoinedLength([v, id, typ] + [ts, payload]);
  }

  /**
   Section 7 of the protocol, on the bytes: a line that carries a batch of
   Split, its messages as toMessage made them and printed, has at most 786,432
   bytes.
   */
  lemma PrintedLineKeepsTheLimit(h: Header, ulid: string, chat: Chat, msgs: seq<Message>, out: seq<seq<Message>>, i: nat, wires: seq<Wire>)
    requires |ulid| == 26 && |chat.jid| <= MAX_JID_LEN && |chat.name| <= MAX_NAME_CHARS && AllCapped(msgs)
    requires Split.IsPartition(out, msgs, Split.Budget(ChatSize(chat))) && i < |out|
    requires out[i] == Sizeds(wires)
    ensures |LineJson(h, ulid, ChatJson(chat), Jsons(wires))| <= 786_432
  {
    assert Split.Fits(out[i], Split.Budget(ChatSize(chat)));
    SizedsPrint(wires);
    ChatLength(chat);
    LineLength(h, ulid, ChatJson(chat), Jsons(wires), out[i]);
    EveryLineKeepsTheLimit(h, chat, msgs, out, i);
  }

  function Sizeds(wires: seq<Wire>): seq<Message> { seq(|wires|, k requires 0 <= k < |wires| => Sized(wires[k])) }

  function Jsons(wires: seq<Wire>): seq<Bytes> { seq(|wires|, k requires 0 <= k < |wires| => MessageJson(wires[k])) }

  lemma SizedsPrint(wires: seq<Wire>)
    ensures Prints(Jsons(wires), Sizeds(wires))
  {
    forall k | 0 <= k < |wires| ensures |Jsons(wires)[k]| == Sizeds(wires)[k].encodedSize {
      MessageLength(wires[k]);
    }
  }
}
