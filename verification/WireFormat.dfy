/**
 The bytes and texts that other programs see, byte by byte: packet headers, requests and replies, table records,
 address keys and content ranges. The round trips elsewhere hold for any codec that undoes itself; these fix which one.
 */
module WireFormat {
  import opened Basics
  import opened Decimal
  import opened BlockRange
  import C = ContentRange
  import opened NetAddr
  import opened TextOrder
  import opened Packet
  import opened Messages
  import opened SyncDecision
  import opened ResourceCodec

  // ---------------------------------------------------------------- packets

  lemma LeadBytes(p: Pkt)
    ensures var n, t := p.headerLen, p.totalLen;
      Lead(p) == [p.version, p.kind, n / 256, n % 256, t / 0x100_0000, t / 0x1_0000 % 256, t / 0x100 % 256, t % 256]
  {
    var t := p.totalLen;
    assert t / 0x1_0000 / 256 == t / 0x100_0000;
    assert t % 0x1_0000 / 256 == t / 0x100 % 256 && t % 0x1_0000 % 256 == t % 256;
  }

  /** The eight header bytes: version, type, and both lengths in network byte order. The payload follows the header strings. */
  lemma HeaderLayout(p: Pkt)
    requires Roomy(p)
    ensures var b, n, t := Encode(p), p.headerLen, p.totalLen;
      && |b| == t && 8 <= n <= t
      && b[..8] == [p.version, p.kind, n / 256, n % 256, t / 0x100_0000, t / 0x1_0000 % 256, t / 0x100 % 256, t % 256]
      && b[n..] == p.payload
  {
    hide Lead, HeaderBytes, SizeOf;
    LeadBytes(p);
    assert Encode(p)[..8] == Lead(p);
    assert Encode(p)[p.headerLen..] == p.payload;
  }

  /** The header strings of a packet whose lengths are exact: the entries in key order and nothing else. */
  lemma HeaderStrings(p: Pkt)
    requires Sized(p) && Roomy(p)
    ensures Encode(p)[8..p.headerLen] == Body(p.headers, Sorted(p.headers.Keys))
  {
    BodySize(p.headers, p.headers.Keys);
    assert HeaderBytes(p) == Body(p.headers, Sorted(p.headers.Keys));
  }

  lemma EntryForm(k: Text, v: Text)
    requires NUL !in k && NUL !in v
    ensures Entry(k, v) == k + [58] + v + [0]
  {
  }

  /** The 'a' of "range" comes before the 'u' of "uri". */
  lemma RangeBeforeUri()
    ensures Sorted({XHEADER_URI, XHEADER_RANGE}) == [XHEADER_RANGE, XHEADER_URI]
  {
    var s := {XHEADER_URI, XHEADER_RANGE};
    assert XHEADER_URI[0] == 117 && XHEADER_RANGE[0] == 114;
    assert IsSmallest(XHEADER_RANGE, s);
    SmallestUnique(Smallest(s), XHEADER_RANGE, s);
    assert s - {XHEADER_RANGE} == {XHEADER_URI};
    SortedOne(XHEADER_URI);
  }

  lemma TwoBodies(h: map<Text, Text>, k: Text, l: Text)
    requires k in h && l in h
    ensures Body(h, [k, l]) == Entry(k, h[k]) + Entry(l, h[l])
  {
    hide Entry;
    BodyOne(h, k);
    assert [k, l][..1] == [k];
  }

  lemma TwoEntries(h: map<Text, Text>, uri: Text, text: Text)
    requires h == map[XHEADER_URI := uri, XHEADER_RANGE := text] && NUL !in uri && NUL !in text
    ensures Body(h, Sorted(h.Keys)) == [114, 97, 110, 103, 101, 58] + text + [0] + [117, 114, 105, 58] + uri + [0]
  {
    hide Entry, Sorted, Body;
    RangeBeforeUri();
    assert h.Keys == {XHEADER_URI, XHEADER_RANGE} && XHEADER_URI[0] != XHEADER_RANGE[0];
    TwoBodies(h, XHEADER_RANGE, XHEADER_URI);
    EntryForm(XHEADER_RANGE, text);
    EntryForm(XHEADER_URI, uri);
    assert Body(h, Sorted(h.Keys)) == XHEADER_RANGE + [58] + text + [0] + (XHEADER_URI + [58] + uri + [0]);
  }

  /** `start-end` in decimal, without the end when both are equal. */
  lemma RangeText(start: uint64, end: uint64)
    ensures ToText(Range(start, end)) == Print(start) + [45] + (if start == end then [] else Print(end))
  {
    TextShape(Range(start, end));
  }

  /** Version 1, a type, the strings "range:" with `text` and "uri:" with `uri`, each ended by NUL, and then `data`. */
  ghost predicate Spells(b: seq<byte>, kind: byte, text: Text, uri: Text, data: seq<byte>) {
    var n := 8 + 6 + |text| + 1 + 4 + |uri| + 1;
    && |b| == n + |data|
    && b[..8] == [1, kind, n / 256, n % 256, |b| / 0x100_0000, |b| / 0x1_0000 % 256, |b| / 0x100 % 256, |b| % 256]
    && b[8..n] == [114, 97, 110, 103, 101, 58] + text + [0] + [117, 114, 105, 58] + uri + [0]
    && b[n..] == data
  }

  /**
   A request is a packet of version 1 and type 5 with the strings "range:start-end" and "uri:name" and no payload; a
   reply is one of type 6 with the same strings, whose payload is the data.
   */
  lemma MessageBytes(m: Msg)
    requires Sendable(m) && NUL !in m.uri
    ensures Roomy(PacketOf(m))
    ensures Spells(Encode(PacketOf(m)), if m.Request? then 5 else 6,
                   Print(m.block.start) + [45] + (if m.block.start == m.block.end then [] else Print(m.block.end)),
                   m.uri, if m.Reply? then m.data else [])
  {
    hide PacketOf, Encode, Body, Sorted, SizeOf;
    var p, text := PacketOf(m), ToText(Range(m.block.start, m.block.end));
    RangeText(m.block.start, m.block.end);
    PacketSized(m);
    RangeTextClean(Range(m.block.start, m.block.end));
    TwoEntries(p.headers, m.uri, text);
    BodySize(p.headers, p.headers.Keys);
    HeaderLayout(p);
    HeaderStrings(p);
  }

  /** What the parser takes from any buffer: a total below eight is a packet without anything, else the bytes in their places. */
  lemma ParsedFields(b: seq<byte>)
    requires |b| >= 8
    ensures var b2: nat, b4: nat, b5: nat, b6: nat := b[2], b[4], b[5], b[6];
      var head, total := b2 * 256 + b[3], ((b4 * 256 + b5) * 256 + b6) * 256 + b[7];
      && (total < 8 ==> Decode(b) == Some(Pkt(0, 0, map[], [], 0, 0)))
      && (total >= 8 && Decode(b).Some? ==>
            var q := Decode(b).value;
            8 <= head <= total <= |b| && q.version == b[0] && q.kind == b[1] && q.headerLen == head && q.totalLen == total
            && q.payload == b[head..total] && ReadHeaders(b[8..head], map[]) == Some(q.headers))
  {
    hide ReadHeaders;
    var b2: nat, b4: nat, b5: nat, b6: nat := b[2], b[4], b[5], b[6];
    assert FromBe16(b[2..4]) == b2 * 256 + b[3];
    assert b[4..8][..2] == [b[4], b[5]] && b[4..8][2..] == [b[6], b[7]];
    assert FromBe32(b[4..8]) == ((b4 * 256 + b5) * 256 + b6) * 256 + b[7];
  }

  lemma SplitParts(s: Text, c: byte)
    ensures var p := Find(s, c);
      && (p + 1 >= |s| ==> |Split(s, c)| < 2)
      && (p + 1 < |s| ==> var rest := s[p + 1..];
                          |Split(s, c)| >= 2 && Split(s, c)[0] == s[..p] && Split(s, c)[1] == rest[..Find(rest, c)])
  {
    hide Find;
    var p := Find(s, c);
    if p + 1 < |s| {
      SplitFirst(s[p + 1..], c);
    } else if p + 1 == |s| {
      assert Split(s[p + 1..], c) == [];
    }
  }

  /** How one header string is read: nothing without a value, else all before the first ':' and all from there to the next. */
  lemma StringRead(m: map<Text, Text>, kv: Text)
    ensures var p := Find(kv, 58);
      HeaderOf(m, kv) == if p + 1 < |kv| then (var rest := kv[p + 1..]; m[kv[..p] := rest[..Find(rest, 58)]]) else m
  {
    hide Split, Find;
    SplitParts(kv, 58);
  }

  // ---------------------------------------------------------------- table records

  /** A length below 2^32: one, two or four bytes, least significant first. */
  function LengthBytes(n: uint32): seq<byte> {
    if n <= 255 then [n]
    else if n <= 65535 then [n % 256, n / 256]
    else [n % 256, n / 256 % 256, n / 0x1_0000 % 256, n / 0x100_0000]
  }

  /** The two flag bits that tell how long a length field is. */
  function LengthCode(n: uint32): byte {
    if n <= 255 then 0 else if n <= 65535 then 1 else 2
  }

  lemma LeSmall(n: nat)
    ensures Le(n, 1) == [n % 256] && Le(n, 2) == [n % 256, n / 256 % 256]
  {
    assert Le(n, 1) == [n % 256] + Le(n / 256, 0);
    assert Le(n / 256, 1) == [n / 256 % 256] + Le(n / 256 / 256, 0);
  }

  lemma LengthField(n: uint32)
    ensures SizeField(n) == LengthBytes(n)
  {
    LeSmall(n);
    LeSmall(n / 0x1_0000);
    assert Le(n, 4) == [n % 256] + Le(n / 256, 3);
    assert Le(n / 256, 3) == [n / 256 % 256] + Le(n / 256 / 256, 2);
    assert n / 256 / 256 == n / 0x1_0000;
  }

  lemma FromLeFront(b: seq<byte>)
    requires b != []
    ensures FromLe(b) == b[0] + 256 * FromLe(b[1..])
  {
  }

  lemma FromLe4(b0: byte, b1: byte, b2: byte, b3: byte)
    ensures FromLe([b0]) == b0 && FromLe([b0, b1]) == b0 + 256 * b1
    ensures FromLe([b0, b1, b2, b3]) == b0 + 256 * (b1 + 256 * (b2 + 256 * b3))
  {
    hide FromLe;
    FromLeEnd();
    FromLeFront([b0]);
    FromLeFront([b1]);
    FromLeFront([b3]);
    FromLeFront([b0, b1]);
    FromLeFront([b2, b3]);
    FromLeFront([b1, b2, b3]);
    FromLeFront([b0, b1, b2, b3]);
    assert [b0, b1][1..] == [b1] && [b2, b3][1..] == [b3] && [b1, b2, b3][1..] == [b2, b3] && [b0, b1, b2, b3][1..] == [b1, b2, b3];
    assert [b0][1..] == [] && [b1][1..] == [] && [b3][1..] == [];
  }

  lemma FromLeEnd()
    ensures FromLe([]) == 0
  {
  }

  /** How a length is read: flag 0 is one byte, flag 1 two, and every other flag four. */
  lemma LengthRead(f: Flag, b0: byte, b1: byte, b2: byte, b3: byte, rest: seq<byte>)
    ensures TakeSize(0, [b0] + rest) == Some((b0, rest))
    ensures TakeSize(1, [b0, b1] + rest) == Some((b0 + 256 * b1, rest))
    ensures f >= 2 ==> TakeSize(f, [b0, b1, b2, b3] + rest) == Some((b0 + 256 * (b1 + 256 * (b2 + 256 * b3)), rest))
  {
    hide FromLe;
    FromLe4(b0, b1, b2, b3);
    assert ([b0] + rest)[..1] == [b0] && ([b0] + rest)[1..] == rest;
    assert ([b0, b1] + rest)[..2] == [b0, b1] && ([b0, b1] + rest)[2..] == rest;
    assert ([b0, b1, b2, b3] + rest)[..4] == [b0, b1, b2, b3] && ([b0, b1, b2, b3] + rest)[4..] == rest;
  }

  lemma {:induction false} LeAt(n: nat, w: nat, k: nat)
    requires k < w
    ensures Pow256(k) > 0 && Le(n, w)[k] == n / Pow256(k) % 256
  {
    if k > 0 {
      LeAt(n / 256, w - 1, k - 1);
      DivideTwice(n, 256, Pow256(k - 1));
    }
  }

  /**
   A record is a flag byte with the codes of the name's, uri's, path's and hash's length from the high bits down, the
   four lengths, the size in eight bytes, least significant first, and the four strings, all in that order.
   */
  lemma RecordLayout(r: Resource)
    requires ShortStrings(r) && r.size < TWO64
    ensures Record(r) == [LengthCode(|r.name|) * 64 + LengthCode(|r.uri|) * 16 + LengthCode(|r.path|) * 4 + LengthCode(|r.hash|)]
      + (LengthBytes(|r.name|) + (LengthBytes(|r.uri|) + (LengthBytes(|r.path|) + LengthBytes(|r.hash|)))
      + (Le(r.size, 8) + (r.name + (r.uri + (r.path + r.hash)))))
    ensures forall k :: 0 <= k < 8 ==> Pow256(k) > 0 && Le(r.size, 8)[k] == r.size / Pow256(k) % 256
  {
    hide SizeField, LengthBytes, Le, Pow256;
    LengthField(|r.name|);
    LengthField(|r.uri|);
    LengthField(|r.path|);
    LengthField(|r.hash|);
    forall k | 0 <= k < 8 ensures Pow256(k) > 0 && Le(r.size, 8)[k] == r.size / Pow256(k) % 256 { LeAt(r.size, 8, k); }
  }

  // ---------------------------------------------------------------- texts

  function Dotted(a: byte, b: byte, c: byte, d: byte): uint32 {
    var hi: nat, mid: nat := a, b;
    var hi2: nat, mid2: nat := hi * 256 + mid, c;
    (hi2 * 256 + mid2) * 256 + d
  }

  lemma Octets(a: byte, b: byte, c: byte, d: byte)
    ensures var ip := Dotted(a, b, c, d);
      ip / 0x100_0000 == a && ip / 0x1_0000 % 256 == b && ip / 0x100 % 256 == c && ip % 256 == d
  {
    var ip := Dotted(a, b, c, d);
    assert ip / 256 == (a * 256 + b) * 256 + c;
    assert ip / 0x1_0000 == a * 256 + b;
  }

  /** The key of an address: "tcp://" or "udp://", the octets from the highest down, and the port. */
  lemma AddressText(a: byte, b: byte, c: byte, d: byte, port: uint16, kind: Transport)
    ensures Str(Addr(Dotted(a, b, c, d), port, kind))
      == (if kind == TCP then [116, 99, 112, 58, 47, 47] else [117, 100, 112, 58, 47, 47])
         + (Print(a) + ([46] + (Print(b) + ([46] + (Print(c) + ([46] + (Print(d) + ([58] + Print(port)))))))))
  {
    hide Print, Dotted;
    Octets(a, b, c, d);
  }

  lemma SmallNumbers()
    ensures Print(0) == [48] && Print(500) == [53, 48, 48]
  {
    assert Print(50) == [53, 48];
  }

  /** The documented example, "0-500/500/last". */
  lemma ContentRangeExample()
    ensures C.Text3(C.ContentRange(0, 500, 500, true)) == [48, 45, 53, 48, 48, 47, 53, 48, 48, 47, 108, 97, 115, 116]
  {
    SmallNumbers();
  }

  /** Every content range reads `start-end/total/` and then "last" or "more". */
  lemma ContentRangeText(r: C.ContentRange)
    ensures C.Text3(r) == Print(r.start) + [45] + Print((r.start + r.size) % 0x1_0000_0000_0000_0000) + [47]
                          + (Print(r.total) + [47] + (if r.last then [108, 97, 115, 116] else [109, 111, 114, 101]))
  {
    hide Print;
  }
}
