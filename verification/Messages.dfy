/** Requests and replies for a block, and what the other side reads when they travel as packets. */
module Messages {
  import opened Basics
  import opened Decimal
  import opened BlockRange
  import opened NetAddr
  import opened TextOrder
  import opened Packet

  datatype Msg =
    | Request(to: Addr, uri: Text, block: Block)
    | Reply(uri: Text, block: Block, data: seq<byte>)

  const VER_0_1: uint8 := 1
  const TYPE_GET_RESOURCE: uint8 := 5
  const TYPE_REPLY_RESOURCE: uint8 := 6
  const XHEADER_URI: Text := [117, 114, 105]
  const XHEADER_RANGE: Text := [114, 97, 110, 103, 101]

  /** `Task::req` and `readDataThenReplyRs`. */
  function PacketOf(m: Msg): Pkt
    requires m.block.start < TWO64 && m.block.end < TWO64
  {
    var text := ToText(Range(m.block.start, m.block.end));
    match m
    case Request(to, uri, b) => AddHeader(AddHeader(New(VER_0_1, TYPE_GET_RESOURCE), XHEADER_URI, uri), XHEADER_RANGE, text)
    case Reply(uri, b, data) =>
      WithPayload(AddHeader(AddHeader(New(VER_0_1, TYPE_REPLY_RESOURCE), XHEADER_RANGE, text), XHEADER_URI, uri), data)
  }

  /** Whether the lengths of the packet fit their fields. */
  ghost predicate Sendable(m: Msg) {
    && m.block.start < TWO64 && m.block.end < TWO64
    && LEN_HEADER + EntrySize(XHEADER_URI, m.uri) + EntrySize(XHEADER_RANGE, ToText(Range(m.block.start, m.block.end))) < TWO16
    && (m.Reply? ==> TWO16 + |m.data| < TWO32)
  }

  /** Whom a request is for is not in the packet; the connection knows. */
  function PeerOf(m: Msg): Addr {
    if m.Request? then m.to else Addr(0, 0, UNKNOWN)
  }

  /**
   What the other side makes of a packet: its type chooses the handler, `reqRs` or `recvRs`, and either does nothing
   when a header is missing or the range does not parse.
   */
  function Read(peer: Addr, q: Pkt): (r: Option<Msg>)
    ensures r.Some? ==> r.value.block.start < TWO64 && r.value.block.end < TWO64
  {
    if q.kind != TYPE_GET_RESOURCE && q.kind != TYPE_REPLY_RESOURCE then None
    else if XHEADER_URI !in q.headers || XHEADER_RANGE !in q.headers then None
    else
      match Parse(q.headers[XHEADER_RANGE])
      case None => None
      case Some(range) =>
        var uri, b := q.headers[XHEADER_URI], Block(range.start, range.end);
        Some(if q.kind == TYPE_GET_RESOURCE then Request(peer, uri, b) else Reply(uri, b, q.payload))
  }

  /** A message as its receiver reads it. None also for messages whose lengths overflow. */
  ghost function Heard(m: Msg): (r: Option<Msg>)
    ensures r.Some? ==> r.value.block.start < TWO64 && r.value.block.end < TWO64
  {
    if !Sendable(m) then None
    else
      PacketSized(m);
      match Decode(Encode(PacketOf(m)))
      case None => None
      case Some(q) => Read(PeerOf(m), q)
  }

  lemma PacketSized(m: Msg)
    requires Sendable(m)
    ensures var p, text := PacketOf(m), ToText(Range(m.block.start, m.block.end));
      && Sized(p) && Roomy(p)
      && p.headers == map[XHEADER_URI := m.uri, XHEADER_RANGE := text]
      && p.version == 1 && p.kind == (if m.Request? then 5 else 6) && p.payload == (if m.Reply? then m.data else [])
  {
    var text := ToText(Range(m.block.start, m.block.end));
    var p0 := New(VER_0_1, if m.Request? then TYPE_GET_RESOURCE else TYPE_REPLY_RESOURCE);
    var k1, v1 := if m.Request? then XHEADER_URI else XHEADER_RANGE, if m.Request? then m.uri else text;
    var k2, v2 := if m.Request? then XHEADER_RANGE else XHEADER_URI, if m.Request? then text else m.uri;
    assert XHEADER_URI[0] != XHEADER_RANGE[0];
    AddHeaderLengths(p0, k1, v1);
    AddHeaderSized(p0, k1, v1);
    var p1 := AddHeader(p0, k1, v1);
    AddHeaderSized(p1, k2, v2);
    if m.Reply? { WithPayloadSized(AddHeader(p1, k2, v2), m.data); }
  }

  lemma RangeTextClean(r: Range)
    ensures Clean(ToText(r)) && ToText(r) != []
  {
  }

  ghost function HeadersRead(m: Msg): map<Text, Text>
    requires m.block.start < TWO64 && m.block.end < TWO64
  {
    Survivors(PacketOf(m).headers, Sorted(PacketOf(m).headers.Keys))
  }

  lemma HeardReads(m: Msg)
    requires Sendable(m)
    ensures Heard(m) == Read(PeerOf(m), PacketOf(m).(headers := HeadersRead(m)))
  {
    hide Decode, Encode, PacketOf, Read;
    var p := PacketOf(m);
    PacketSized(m);
    PacketRoundTrip(p, []);
    assert Encode(p) + [] == Encode(p);
  }

  lemma TwoHeadersRead(h: map<Text, Text>, uri: Text, text: Text)
    requires h == map[XHEADER_URI := uri, XHEADER_RANGE := text] && Clean(text) && text != []
    ensures var r := Survivors(h, Sorted(h.Keys));
      && XHEADER_RANGE in r && r[XHEADER_RANGE] == text
      && (if XHEADER_URI in r then Some(r[XHEADER_URI]) else None) == ValueRead(uri)
  {
    hide Survivors, Sorted, ValueRead;
    var ks := Sorted(h.Keys);
    assert Clean(XHEADER_URI) && Clean(XHEADER_RANGE) && XHEADER_URI[0] != XHEADER_RANGE[0];
    SurvivorsExact(h, ks);
    assert XHEADER_URI in ks && XHEADER_RANGE in ks;
  }

  lemma HeadersReadFacts(m: Msg)
    requires Sendable(m)
    ensures var h, text := HeadersRead(m), ToText(Range(m.block.start, m.block.end));
      && XHEADER_RANGE in h && h[XHEADER_RANGE] == text
      && (if XHEADER_URI in h then Some(h[XHEADER_URI]) else None) == ValueRead(m.uri)
  {
    hide PacketOf, Survivors, Sorted, ToText;
    PacketSized(m);
    RangeTextClean(Range(m.block.start, m.block.end));
    TwoHeadersRead(PacketOf(m).headers, m.uri, ToText(Range(m.block.start, m.block.end)));
  }

  /** A range the other side can parse. */
  predicate Readable(b: Block) {
    b.start != b.end && b.start <= 2147483647 && b.end <= 2147483647
  }

  /** What the receiver reads, for every message whose lengths fit: the name cut at ':' and NUL, all else as sent, or nothing. */
  lemma HeardExact(m: Msg)
    requires Sendable(m)
    ensures Heard(m) == if Readable(m.block) && ValueRead(m.uri).Some? then Some(m.(uri := ValueRead(m.uri).value)) else None
    ensures Heard(m) == Some(m) <==> Readable(m.block) && Clean(m.uri) && m.uri != []
  {
    hide PacketOf, HeadersRead, Parse, ToText;
    HeardReads(m);
    HeadersReadFacts(m);
    PacketSized(m);
    RangeRoundTrip(Range(m.block.start, m.block.end));
  }

  /** Names that fit the header beside any range. */
  ghost predicate FitUri(u: Text) {
    u != [] && |u| <= LONGEST_URI
  }

  /** Names that travel: what the end-to-end results ask of every announced file. */
  ghost predicate GoodUri(u: Text) {
    FitUri(u) && Clean(u)
  }

  /** What the 16-bit header length leaves for a uri beside the longest range. */
  const LONGEST_URI: nat := TWO16 - 1 - LEN_HEADER - 5 - 7 - 41

  lemma {:induction false} PrintLength(n: nat, k: nat)
    requires k > 0 && n < Pow10(k)
    ensures |Print(n)| <= k
  {
    if n >= 10 {
      assert Pow10(1) == 10 * Pow10(0);
      PrintLength(n / 10, k - 1);
    }
  }

  lemma Ten20()
    ensures Pow10(20) == 100_000_000_000_000_000_000
  {
    assert Pow10(4) == 10_000;
    assert Pow10(8) == 1_0000_0000;
    assert Pow10(12) == 1_0000_0000_0000;
    assert Pow10(16) == 1_0000_0000_0000_0000;
  }

  lemma RangeTextLength(r: Range)
    ensures |ToText(r)| <= 41
  {
    TextShape(r);
    Ten20();
    PrintLength(r.start, 20);
    PrintLength(r.end, 20);
  }

  lemma FitSendable(m: Msg)
    requires |m.uri| <= LONGEST_URI && (m.Reply? ==> |m.data| <= INT_MAX)
    ensures Sendable(m) <==> m.block.start < TWO64 && m.block.end < TWO64
  {
    if m.block.start < TWO64 && m.block.end < TWO64 {
      RangeTextLength(Range(m.block.start, m.block.end));
    }
  }

  /** A message that fits arrives under the name its reader makes of it, or not at all. */
  lemma HeardOrLost(m: Msg)
    requires |m.uri| <= LONGEST_URI && (m.Reply? ==> |m.data| <= INT_MAX)
    ensures Heard(m) == if Readable(m.block) && ValueRead(m.uri).Some? then Some(m.(uri := ValueRead(m.uri).value)) else None
    ensures Clean(m.uri) && m.uri != [] ==> Heard(m) == if Readable(m.block) then Some(m) else None
  {
    hide Heard, ValueRead;
    FitSendable(m);
    if Sendable(m) { HeardExact(m); } else { Unsent(m); }
  }

  lemma Unsent(m: Msg)
    requires !Sendable(m)
    ensures Heard(m) == None
  {
  }
}
