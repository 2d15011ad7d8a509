/**
 The byte limit of history batches: what toMessage (internal/wa/events.go,
 internal/wa/convert.go) lets into a message, how long its JSON encoding is,
 and that a line carrying any batch of Split keeps the limit of section 7 of
 the protocol. Split itself has no bound on one message; the caps of the
 fields are what makes the limit hold.
 */
module HistoryBytes {
  import opened Prelude
  import opened Messages
  import opened HistorySplit
  import Limits = HistoryCaps

  const MAX_TEXT_CHARS := 65536
  const MAX_NAME_CHARS := 512
  const MAX_MIME_CHARS := 255
  const MAX_JID_LEN := 128
  const MAX_ID_LEN := 128
  const MAX_MENTIONS := 64

  /** A character of a Go string as `range` reads it: a scalar value, or a byte that is not UTF-8. */
  datatype Char = Scalar(v: nat) | BadByte

  type Text = seq<Char>

  type Int64 = n: int | -0x8000_0000_0000_0000 <= n < 0x8000_0000_0000_0000

  /** The characters of a Go literal. */
  function Ascii(s: string): Text { seq(|s|, i requires 0 <= i < |s| => Scalar(s[i] as int)) }

  // ---------- truncate ----------

  method Truncate(s: Text, n: nat) returns (r: Text)
    ensures r == s[..Min(|s|, n)]
  {
    if |s| <= n {
      return s;
    }
    var i := 0;
    for pos := 0 to |s|
      invariant i == pos <= n
    {
      if i == n {
        return s[..pos];
      }
      i := i + 1;
    }
    return s;
  }

  function Cut(s: Text, n: nat): Text { s[..Min(|s|, n)] }

  // ---------- JSON ----------

  /** The bytes of a character inside a JSON string, HTML escaping off: an escape of two or six, or UTF-8. */
  function CharSize(c: Char): (n: nat)
    ensures 1 <= n <= 6
  {
    if c.BadByte? || c.v == 0x2028 || c.v == 0x2029 then 6
    else if c.v == 0x22 || c.v == 0x5C || c.v in {8, 9, 10, 12, 13} then 2
    else if c.v < 0x20 then 6
    else if c.v < 0x80 then 1
    else if c.v < 0x800 then 2
    else if c.v < 0x10000 then 3
    else 4
  }

  function CharsSize(t: Text): nat { if t == [] then 0 else CharsSize(t[..|t| - 1]) + CharSize(t[|t| - 1]) }

  function StringSize(t: Text): nat { 2 + CharsSize(t) }

  function Digits(n: nat): nat
    decreases n
  {
    if n < 10 then 1 else 1 + Digits(n / 10)
  }

  function IntSize(n: int): nat { if n < 0 then 1 + Digits(-n) else Digits(n) }

  function BoolSize(b: bool): nat { if b then 4 else 5 }

  /** A key, its quotes, a colon, the value and a comma; the last comma of an object stands for one of its braces. */
  function Field(key: nat, value: nat): nat { key + value + 4 }

  function Unless(absent: bool, size: nat): nat { if absent then 0 else size }

  function ObjectSize(fields: nat): nat { 1 + fields }

  function StringsSize(ts: seq<Text>): nat {
    if ts == [] then 0 else StringsSize(ts[..|ts| - 1]) + StringSize(ts[|ts| - 1]) + 1
  }

  datatype Pair = Pair(lid: Text, jid: Text)

  function PairSize(p: Pair): nat { ObjectSize(Field(3, StringSize(p.lid)) + Field(3, StringSize(p.jid))) }

  function PairsSize(ps: seq<Pair>): nat { if ps == [] then 0 else PairsSize(ps[..|ps| - 1]) + PairSize(ps[|ps| - 1]) + 1 }

  /** The elements with a comma each, the last of which stands for one of the brackets. */
  function ArraySize(elements: nat): nat { 1 + elements }

  // ---------- A message on the wire ----------

  datatype Quote = Quote(id: Text, sender: Option<Text>)

  datatype Media = Media(mime: Text, sizeBytes: Int64, durationS: Int64, width: Int64, height: Int64, fileName: Text)

  datatype Kind = TextKind | Image | Video | Sticker | Voice | Audio | Document | Location | Contact | Poll | Unsupported

  function KindName(k: Kind): string {
    match k
    case TextKind => "text"
    case Image => "image"
    case Video => "video"
    case Sticker => "sticker"
    case Voice => "voice"
    case Audio => "audio"
    case Document => "document"
    case Location => "location"
    case Contact => "contact"
    case Poll => "poll"
    case Unsupported => "unsupported"
  }

  datatype Wire = Wire(chatJid: Text, id: Text, senderJid: Text, fromMe: bool, ts: Int64, kind: Kind, text: Text, pushName: Text,
                       quoted: Option<Quote>, mentions: seq<Text>, pairs: seq<Pair>, forwarded: bool, edited: bool, media: Option<Media>)

  function QuoteSize(q: Quote): nat {
    ObjectSize(Field(2, StringSize(q.id)) + if q.sender.Some? then Field(9, StringSize(q.sender.value)) else 0)
  }

  function MediaSize(m: Media): nat {
    ObjectSize(Field(4, StringSize(m.mime)) + Field(9, IntSize(m.sizeBytes)) + Unless(m.durationS == 0, Field(9, IntSize(m.durationS))) +
               Unless(m.width == 0, Field(5, IntSize(m.width))) + Unless(m.height == 0, Field(6, IntSize(m.height))) +
               Unless(m.fileName == [], Field(8, StringSize(m.fileName))))
  }

  function NamesSize(m: Wire): nat {
    Field(7, StringSize(m.chatJid)) + Field(2, StringSize(m.id)) + Field(9, StringSize(m.senderJid)) + Field(6, BoolSize(m.fromMe)) +
    Field(2, IntSize(m.ts)) + Field(4, 2 + |KindName(m.kind)|)
  }

  function BodySize(m: Wire): nat {
    Unless(m.text == [], Field(4, StringSize(m.text))) + Unless(m.pushName == [], Field(8, StringSize(m.pushName))) +
    (if m.quoted.Some? then Field(6, QuoteSize(m.quoted.value)) else 0) + (if m.media.Some? then Field(5, MediaSize(m.media.value)) else 0) +
    Unless(!m.forwarded, Field(9, BoolSize(true))) + Unless(!m.edited, Field(6, BoolSize(true)))
  }

  function MentionsSize(m: Wire): nat {
    Unless(m.mentions == [], Field(8, ArraySize(StringsSize(m.mentions)))) + Unless(m.pairs == [], Field(11, ArraySize(PairsSize(m.pairs))))
  }

  /** EncodedSize of a message. */
  function MessageSize(m: Wire): nat { ObjectSize(NamesSize(m) + BodySize(m) + MentionsSize(m)) }

  // ---------- What toMessage lets through ----------

  predicate Numbered(t: Text, suffix: Text) {
    && |suffix| < |t| <= |suffix| + 20
    && t[|t| - |suffix|..] == suffix
    && forall i :: 0 <= i < |t| - |suffix| ==> t[i].Scalar? && 0x30 <= t[i].v <= 0x39
  }

  predicate IsUserJID(t: Text) { |t| <= MAX_JID_LEN && (Numbered(t, Ascii("@s.whatsapp.net")) || Numbered(t, Ascii("@lid"))) }

  predicate IsIDChar(c: Char) {
    c.Scalar? && (0x30 <= c.v <= 0x39 || 0x41 <= c.v <= 0x5A || 0x61 <= c.v <= 0x7A || c.v in {0x2E, 0x5F, 0x2D})
  }

  predicate IsMessageID(t: Text) { 1 <= |t| <= MAX_ID_LEN && forall i :: 0 <= i < |t| ==> IsIDChar(t[i]) }

  /** A mention as WhatsApp wrote it: the person it resolves to, and its linked id if it was written by that. */
  datatype Mention = Mention(user: Text, lid: Option<Text>)

  datatype RawQuote = RawQuote(id: Text, user: Text)

  /** What the WhatsApp library hands over, of any length. */
  datatype Raw = Raw(id: Text, sender: Text, fromMe: bool, ts: Int64, kind: Kind, text: Text, pushName: Text,
                     quoted: Option<RawQuote>, mentions: seq<Mention>, forwarded: bool, edited: bool, media: Option<Media>)

  /** The loop over the mentions: people only, at most MAX_MENTIONS of them. */
  function TakenMentions(ms: seq<Mention>): (r: Taken)
    ensures |r.pairs| <= |r.users| <= MAX_MENTIONS
  {
    if ms == [] then Taken([], [])
    else
      var t := TakenMentions(ms[..|ms| - 1]);
      var m := ms[|ms| - 1];
      if |t.users| >= MAX_MENTIONS || !IsUserJID(m.user) then t
      else Taken(t.users + [m.user], if m.lid.Some? && m.lid.value != m.user then t.pairs + [Pair(m.lid.value, m.user)] else t.pairs)
  }

  datatype Taken = Taken(users: seq<Text>, pairs: seq<Pair>)

  function CutMedia(m: Media): Media { m.(mime := Cut(m.mime, MAX_MIME_CHARS), fileName := Cut(m.fileName, MAX_NAME_CHARS)) }

  function SenderOf(raw: Raw, chat: Text, group: bool): Text { if raw.sender == [] && !group then chat else raw.sender }

  function QuoteOf(q: Option<RawQuote>): Option<Quote> {
    if q.Some? && IsMessageID(q.value.id) then Some(Quote(q.value.id, if IsUserJID(q.value.user) then Some(q.value.user) else None))
    else None
  }

  /** None where the message is not reported. */
  function ToMessage(raw: Raw, chat: Text, group: bool): Option<Wire> {
    var sender := SenderOf(raw, chat, group);
    if !IsMessageID(raw.id) || !IsUserJID(sender) then None
    else
      var t := TakenMentions(raw.mentions);
      Some(Wire(chat, raw.id, sender, raw.fromMe, raw.ts, raw.kind, Cut(raw.text, MAX_TEXT_CHARS),
                if raw.fromMe then [] else Cut(raw.pushName, MAX_NAME_CHARS), QuoteOf(raw.quoted), t.users, t.pairs,
                raw.forwarded, raw.edited, if raw.media.Some? then Some(CutMedia(raw.media.value)) else None))
  }

  /** The people mentioned, in order. */
  function People(ms: seq<Mention>): seq<Text> {
    if ms == [] then [] else People(ms[..|ms| - 1]) + if IsUserJID(ms[|ms| - 1].user) then [ms[|ms| - 1].user] else []
  }

  lemma {:induction false} FirstPeopleAreTaken(ms: seq<Mention>)
    ensures TakenMentions(ms).users == People(ms)[..Min(|People(ms)|, 64)]
  {
    if ms != [] {
      FirstPeopleAreTaken(ms[..|ms| - 1]);
    }
  }

  /**
   Which messages are reported, and what of them: nobody named means the chat
   itself in a chat of two, a person's id and name are asked for, texts and
   names are cut to their first characters, of the people mentioned the first
   64 stay, and one's own name is left out.
   */
  lemma ToMessageSpelled(raw: Raw, chat: Text, group: bool)
    ensures var sender := if raw.sender != [] then raw.sender else if group then [] else chat;
      var m := ToMessage(raw, chat, group);
      && (m.Some? <==> IsMessageID(raw.id) && IsUserJID(sender))
      && (m.Some? ==>
            && m.value.chatJid == chat && m.value.id == raw.id && m.value.senderJid == sender && m.value.fromMe == raw.fromMe
            && m.value.ts == raw.ts && m.value.kind == raw.kind && m.value.forwarded == raw.forwarded && m.value.edited == raw.edited
            && m.value.text == raw.text[..Min(|raw.text|, 65_536)]
            && m.value.pushName == (if raw.fromMe then [] else raw.pushName[..Min(|raw.pushName|, 512)])
            && m.value.mentions == People(raw.mentions)[..Min(|People(raw.mentions)|, 64)]
            && (m.value.media.Some? <==> raw.media.Some?)
            && (raw.media.Some? ==> m.value.media.value == raw.media.value.(
                  mime := raw.media.value.mime[..Min(|raw.media.value.mime|, 255)],
                  fileName := raw.media.value.fileName[..Min(|raw.media.value.fileName|, 512)])))
  {
    FirstPeopleAreTaken(raw.mentions);
  }

  /** WhatsApp's own names: the bridge checks people's JIDs, and takes a chat's and a linked id as they come. */
  predicate LidsShort(ms: seq<Mention>) { forall i :: 0 <= i < |ms| && ms[i].lid.Some? ==> |ms[i].lid.value| <= MAX_JID_LEN }

  // ---------- How long it can get ----------

  lemma {:induction false} CharsBound(t: Text, n: nat)
    requires |t| <= n
    ensures CharsSize(t) <= 6 * n
  {
    if t != [] {
      CharsBound(t[..|t| - 1], n - 1);
    }
  }

  lemma {:induction false} StringsBound(ts: seq<Text>)
    requires AllShort(ts)
    ensures StringsSize(ts) <= 771 * |ts|
  {
    if ts != [] {
      StringsBound(ts[..|ts| - 1]);
      CharsBound(ts[|ts| - 1], MAX_JID_LEN);
    }
  }

  predicate AllShort(ts: seq<Text>) { forall i :: 0 <= i < |ts| ==> |ts[i]| <= MAX_JID_LEN }

  predicate AllShortPairs(ps: seq<Pair>) { forall i :: 0 <= i < |ps| ==> ShortPair(ps[i]) }

  predicate ShortPair(p: Pair) { |p.lid| <= MAX_JID_LEN && |p.jid| <= MAX_JID_LEN }

  lemma {:induction false} PairsBound(ps: seq<Pair>)
    requires AllShortPairs(ps)
    ensures PairsSize(ps) <= 1556 * |ps|
  {
    if ps != [] {
      PairsBound(ps[..|ps| - 1]);
      var p := ps[|ps| - 1];
      assert ShortPair(p);
      CharsBound(p.lid, MAX_JID_LEN);
      CharsBound(p.jid, MAX_JID_LEN);
    }
  }

  lemma {:induction false} DigitsBound(n: nat, d: nat)
    requires d > 0 && n < Pow(10, d)
    ensures Digits(n) <= d
    decreases d
  {
    if n >= 10 {
      assert Pow(10, 1) == 10;
      DigitsBound(n / 10, d - 1);
    }
  }

  lemma TenToNineteen()
    ensures Pow(10, 19) == 10_000_000_000_000_000_000
  {
    assert Pow(10, 4) == 10_000;
    assert Pow(10, 8) == 10_000 * Pow(10, 4) by { PowStep(4); PowStep(5); PowStep(6); PowStep(7); }
    assert Pow(10, 12) == 10_000 * Pow(10, 8) by { PowStep(8); PowStep(9); PowStep(10); PowStep(11); }
    assert Pow(10, 16) == 10_000 * Pow(10, 12) by { PowStep(12); PowStep(13); PowStep(14); PowStep(15); }
    PowStep(16);
    PowStep(17);
    PowStep(18);
  }

  lemma PowStep(n: nat)
    ensures Pow(10, n + 1) == 10 * Pow(10, n)
  {}

  lemma IntBound(n: Int64)
    ensures IntSize(n) <= 20
  {
    TenToNineteen();
    var m: int := n;
    DigitsBound(if m < 0 then -m else m, 19);
  }

  predicate ShortMessage(m: Wire) {
    && |m.chatJid| <= MAX_JID_LEN && |m.id| <= MAX_ID_LEN && |m.senderJid| <= MAX_JID_LEN
    && (m.quoted.Some? ==> ShortQuote(m.quoted.value))
    && |m.mentions| <= MAX_MENTIONS && |m.pairs| <= MAX_MENTIONS
    && AllShort(m.mentions) && AllShortPairs(m.pairs)
  }

  predicate ShortQuote(q: Quote) { |q.id| <= MAX_ID_LEN && (q.sender.Some? ==> |q.sender.value| <= MAX_JID_LEN) }

  predicate ShortTexts(m: Wire) {
    && |m.text| <= MAX_TEXT_CHARS && |m.pushName| <= MAX_NAME_CHARS
    && (m.media.Some? ==> |m.media.value.mime| <= MAX_MIME_CHARS && |m.media.value.fileName| <= MAX_NAME_CHARS)
  }

  lemma KindBound(k: Kind)
    ensures |KindName(k)| <= 11
  {
  }

  lemma NamesBound(m: Wire)
    requires ShortMessage(m)
    ensures NamesSize(m) <= 2402
  {
    CharsBound(m.chatJid, MAX_JID_LEN);
    CharsBound(m.id, MAX_ID_LEN);
    CharsBound(m.senderJid, MAX_JID_LEN);
    IntBound(m.ts);
    KindBound(m.kind);
  }

  lemma MediaBound(m: Media)
    requires |m.mime| <= MAX_MIME_CHARS && |m.fileName| <= MAX_NAME_CHARS
    ensures MediaSize(m) <= 4752
  {
    CharsBound(m.mime, MAX_MIME_CHARS);
    CharsBound(m.fileName, MAX_NAME_CHARS);
    IntBound(m.sizeBytes);
    IntBound(m.durationS);
    IntBound(m.width);
    IntBound(m.height);
  }

  lemma QuoteBound(q: Quote)
    requires ShortQuote(q)
    ensures QuoteSize(q) <= 1560
  {
    CharsBound(q.id, MAX_ID_LEN);
    if q.sender.Some? {
      CharsBound(q.sender.value, MAX_JID_LEN);
    }
  }

  lemma BodyBound(m: Wire)
    requires ShortMessage(m) && ShortTexts(m)
    ensures BodySize(m) <= 402_674
  {
    CharsBound(m.text, MAX_TEXT_CHARS);
    CharsBound(m.pushName, MAX_NAME_CHARS);
    if m.quoted.Some? {
      QuoteBound(m.quoted.value);
    }
    if m.media.Some? {
      MediaBound(m.media.value);
    }
  }

  lemma MentionsBound(m: Wire)
    requires ShortMessage(m)
    ensures MentionsSize(m) <= 148_957
  {
    StringsBound(m.mentions);
    PairsBound(m.pairs);
  }

  const MAX_MESSAGE_BYTES := 554_034

  lemma {:induction false} TakenAreShort(ms: seq<Mention>)
    requires LidsShort(ms)
    ensures AllShort(TakenMentions(ms).users) && AllShortPairs(TakenMentions(ms).pairs)
  {
    if ms != [] {
      TakenAreShort(ms[..|ms| - 1]);
    }
  }

  /** Whatever the phone put into the message, its caps keep it far below the budget of a batch. */
  lemma MessageBound(raw: Raw, chat: Text, group: bool)
    requires |chat| <= MAX_JID_LEN && LidsShort(raw.mentions) && ToMessage(raw, chat, group).Some?
    ensures MessageSize(ToMessage(raw, chat, group).value) <= MAX_MESSAGE_BYTES
  {
    var m := ToMessage(raw, chat, group).value;
    TakenAreShort(raw.mentions);
    NamesBound(m);
    BodyBound(m);
    MentionsBound(m);
  }

  // ---------- The chat and the line ----------

  /** The chat as ChatFromConversation fills it: the name is cut, the rest are numbers and flags. */
  datatype Chat = Chat(jid: Text, group: bool, name: Text, unread: Int64, pinned: bool, mutedUntil: Int64, archived: bool, lastAt: Int64)

  function ChatSize(c: Chat): nat {
    ObjectSize(Field(3, StringSize(c.jid)) + Field(4, if c.group then 7 else 4) + Unless(c.name == [], Field(4, StringSize(c.name))) +
               Field(11, IntSize(c.unread)) + Field(6, BoolSize(c.pinned)) + Unless(c.mutedUntil == 0, Field(10, IntSize(c.mutedUntil))) +
               Field(8, BoolSize(c.archived)) + Unless(c.lastAt == 0, Field(13, IntSize(c.lastAt))))
  }

  const MAX_CHAT_BYTES := 4_120

  lemma ChatBound(c: Chat)
    requires |c.jid| <= MAX_JID_LEN && |c.name| <= MAX_NAME_CHARS
    ensures ChatSize(c) <= MAX_CHAT_BYTES
  {
    CharsBound(c.jid, MAX_JID_LEN);
    CharsBound(c.name, MAX_NAME_CHARS);
    IntBound(c.unread);
    IntBound(c.mutedUntil);
    IntBound(c.lastAt);
  }

  datatype SyncType = Initial | Recent | Full | PushName | OnDemand

  function SyncName(t: SyncType): string {
    match t
    case Initial => "initial"
    case Recent => "recent"
    case Full => "full"
    case PushName => "push_name"
    case OnDemand => "on_demand"
  }

  /** What a history_batch line says besides the chat and the messages. */
  datatype Header = Header(ts: Int64, number: Int64, sync: SyncType, progress: Option<Int64>)

  function PayloadSize(h: Header, chatSize: nat, batch: seq<Message>): nat {
    ObjectSize(Field(3, IntSize(h.number)) + Field(8, 2 + |SyncName(h.sync)|) + Field(4, chatSize) +
               Field(8, ArraySize(TotalCost(batch))) + if h.progress.Some? then Field(8, IntSize(h.progress.value)) else 0)
  }

  /** The encoded line, without its newline: version, ULID, type, time and payload. */
  function LineSize(h: Header, chatSize: nat, batch: seq<Message>): nat {
    ObjectSize(Field(1, 1) + Field(2, 2 + 26) + Field(4, 2 + |"history_batch"|) + Field(2, IntSize(h.ts)) +
               Field(7, PayloadSize(h, chatSize, batch)))
  }

  /** ENVELOPE_OVERHEAD covers everything in the line but the chat and the messages with their commas. */
  lemma OverheadCovers(h: Header, chatSize: nat, batch: seq<Message>)
    ensures LineSize(h, chatSize, batch) <= ENVELOPE_OVERHEAD + chatSize + TotalCost(batch)
  {
    IntBound(h.ts);
    IntBound(h.number);
    if h.progress.Some? {
      IntBound(h.progress.value);
    }
  }

  /** No message is longer than toMessage can make it. */
  ghost predicate AllCapped(msgs: seq<Message>) { forall k :: 0 <= k < |msgs| ==> msgs[k].encodedSize <= MAX_MESSAGE_BYTES }

  /**
   Section 7 of the protocol: every line that carries a batch of Split has at
   most MAX_BATCH_BYTES bytes, whatever text, names and mentions the messages
   came with.
   */
  lemma EveryLineKeepsTheLimit(h: Header, chat: Chat, msgs: seq<Message>, out: seq<seq<Message>>, i: nat)
    requires |chat.jid| <= MAX_JID_LEN && |chat.name| <= MAX_NAME_CHARS
    requires AllCapped(msgs)
    requires IsPartition(out, msgs, Budget(ChatSize(chat))) && i < |out|
    ensures LineSize(h, ChatSize(chat), out[i]) <= MAX_BATCH_BYTES
  {
    ChatBound(chat);
    forall m | m in msgs ensures Cost(m) <= Budget(ChatSize(chat)) {
      var k :| 0 <= k < |msgs| && msgs[k] == m;
    }
    WithinBytesIffEachMessageIs(out, msgs, Budget(ChatSize(chat)));
    OverheadCovers(h, ChatSize(chat), out[i]);
  }

  // ---------- historyConversation ----------

  /** A message as the caps and Split see it. */
  function Sized(m: Wire): Message { Message(Plain(m.id), m.ts, MessageSize(m)) }

  /** A message id is ASCII. */
  function Plain(t: Text): string { seq(|t|, i requires 0 <= i < |t| => if t[i].Scalar? && t[i].v < 0x80 then t[i].v as char else '?') }

  function Reported(raws: seq<Raw>, chat: Chat): seq<Message> {
    if raws == [] then []
    else
      var m := ToMessage(raws[|raws| - 1], chat.jid, chat.group);
      Reported(raws[..|raws| - 1], chat) + if m.Some? then [Sized(m.value)] else []
  }

  lemma {:induction false} InWindowMember(msgs: seq<Message>, cutoff: int, m: Message)
    requires m in Limits.InWindow(msgs, cutoff)
    ensures m in msgs
  {
    if !(msgs[0].ts >= cutoff && m == msgs[0]) {
      InWindowMember(msgs[1..], cutoff, m);
    }
  }

  lemma KeptMember(msgs: seq<Message>, cutoff: int, room: nat, m: Message)
    requires m in Limits.Kept(Limits.InWindow(msgs, cutoff), room)
    ensures m in msgs
  {
    var inWindow := Limits.InWindow(msgs, cutoff);
    Limits.KeptKeepsNewest(inWindow, room);
    assert m in multiset(Limits.Kept(inWindow, room));
    assert m in multiset(inWindow);
    InWindowMember(msgs, cutoff, m);
  }

  lemma KeptAreCapped(msgs: seq<Message>, cutoff: int, room: nat)
    requires AllCapped(msgs)
    ensures AllCapped(Limits.Kept(Limits.InWindow(msgs, cutoff), room))
  {
    var kept := Limits.Kept(Limits.InWindow(msgs, cutoff), room);
    forall k | 0 <= k < |kept| ensures kept[k].encodedSize <= MAX_MESSAGE_BYTES {
      KeptMember(msgs, cutoff, room, kept[k]);
      var j :| 0 <= j < |msgs| && msgs[j] == kept[k];
    }
  }

  /** Every batch fits its line, whatever the line's header. */
  ghost predicate AllLinesFit(chat: Chat, out: seq<seq<Message>>) {
    forall h: Header, i :: 0 <= i < |out| ==> LineSize(h, ChatSize(chat), out[i]) <= MAX_BATCH_BYTES
  }

  lemma LinesFit(chat: Chat, msgs: seq<Message>, out: seq<seq<Message>>)
    requires |chat.jid| <= MAX_JID_LEN && |chat.name| <= MAX_NAME_CHARS && AllCapped(msgs)
    requires IsPartition(out, msgs, Budget(ChatSize(chat)))
    ensures AllLinesFit(chat, out)
  {
    forall h: Header, i | 0 <= i < |out| ensures LineSize(h, ChatSize(chat), out[i]) <= MAX_BATCH_BYTES {
      EveryLineKeepsTheLimit(h, chat, msgs, out, i);
    }
  }

  /** The messages of one conversation of a history part, as far as the loop over them. */
  method Collect(chat: Chat, raws: seq<Raw>) returns (msgs: seq<Message>)
    requires |chat.jid| <= MAX_JID_LEN && forall k :: 0 <= k < |raws| ==> LidsShort(raws[k].mentions)
    ensures msgs == Reported(raws, chat)
    ensures AllCapped(msgs)
  {
    msgs := [];
    for k := 0 to |raws|
      invariant msgs == Reported(raws[..k], chat)
      invariant AllCapped(msgs)
    {
      assert raws[..k + 1][..k] == raws[..k];
      var m := ToMessage(raws[k], chat.jid, chat.group);
      if m.Some? {
        MessageBound(raws[k], chat.jid, chat.group);
        msgs := msgs + [Sized(m.value)];
      }
    }
    assert raws[..|raws|] == raws;
  }

  method Batches(chat: Chat, kept: seq<Message>) returns (out: seq<seq<Message>>)
    requires |chat.jid| <= MAX_JID_LEN && |chat.name| <= MAX_NAME_CHARS && AllCapped(kept)
    ensures Flatten(out) == kept && AllLinesFit(chat, out)
  {
    out := Split(ChatSize(chat), kept);
    LinesFit(chat, kept, out);
  }

  /** What the caps leave of the messages found. */
  ghost function KeptOf(raws: seq<Raw>, chat: Chat, cutoff: int, room: nat): seq<Message> {
    Limits.Kept(Limits.InWindow(Reported(raws, chat), cutoff), room)
  }

  /** From the messages of a conversation to the batches emitted for it. */
  method Emitted(caps: Limits.Caps, key: string, chat: Chat, raws: seq<Raw>, nowMillis: int) returns (out: seq<seq<Message>>)
    requires caps.Valid() && |chat.jid| <= MAX_JID_LEN && |chat.name| <= MAX_NAME_CHARS
    requires forall k :: 0 <= k < |raws| ==> LidsShort(raws[k].mentions)
    modifies caps
    ensures caps.Valid() && AllLinesFit(chat, out)
    ensures Flatten(out) == KeptOf(raws, chat, Limits.Cutoff(nowMillis, caps.days), Max(caps.maxPerChat - old(caps.Count(key)), 0))
  {
    ghost var room := Max(caps.maxPerChat - caps.Count(key), 0);
    var msgs := Collect(chat, raws);
    KeptAreCapped(msgs, Limits.Cutoff(nowMillis, caps.days), room);
    var kept, dropped := caps.Filter(key, msgs, nowMillis);
    out := Batches(chat, kept);
  }

  /**
   Whatever the phone sent: the batches hold what the caps kept, in order, and
   each of them, with the chat repeated in it, is a line within the limit.
   */
  method Conversation(caps: Limits.Caps, key: string, found: Chat, raws: seq<Raw>, nowMillis: int) returns (chat: Chat, out: seq<seq<Message>>)
    requires caps.Valid() && |found.jid| <= MAX_JID_LEN && forall k :: 0 <= k < |raws| ==> LidsShort(raws[k].mentions)
    modifies caps
    ensures caps.Valid() && chat == found.(name := Cut(found.name, MAX_NAME_CHARS)) && AllLinesFit(chat, out)
    ensures Flatten(out) == KeptOf(raws, chat, Limits.Cutoff(nowMillis, caps.days), Max(caps.maxPerChat - old(caps.Count(key)), 0))
  {
    var name := Truncate(found.name, MAX_NAME_CHARS);
    chat := found.(name := name);
    out := Emitted(caps, key, chat, raws, nowMillis);
  }
}
