/** The mutable packet: its editors, the buffer writer and the parser, proved against Packet.dfy. */
module PacketClass {
  import opened Basics
  import opened BlockRange
  import opened TextOrder
  import P = Packet

  /** `memcpy` into a buffer. */
  method Copy(buf: array<byte>, pos: nat, d: seq<byte>)
    requires pos + |d| <= buf.Length
    modifies buf
    ensures buf[..] == old(buf[..pos]) + d + old(buf[pos + |d|..])
  {
    forall j | 0 <= j < |d| {
      buf[pos + j] := d[j];
    }
  }

  /** Fill the next `m` bytes of a buffer that is zero behind `before`: `d`, then zeros. */
  method WriteSlot(buf: array<byte>, pos: nat, ghost before: seq<byte>, d: seq<byte>, m: nat) returns (next: nat)
    requires |before| == pos && |d| <= m && pos + m <= buf.Length
    requires buf[..] == before + Zeros(buf.Length - pos)
    modifies buf
    ensures next == pos + m && buf[..] == before + (d + Zeros(m - |d|)) + Zeros(buf.Length - next)
  {
    Copy(buf, pos, d);
    next := pos + m;
    assert buf[..] == before + (d + Zeros(m - |d|)) + Zeros(buf.Length - next);
  }

  /** `sprintf(.., "%s:%s", key, value)`. */
  method WriteEntry(buf: array<byte>, pos: nat, ghost lead: seq<byte>, ghost body: seq<byte>, key: Text, value: Text)
    returns (next: nat)
    requires |lead| + |body| == pos && pos + P.EntrySize(key, value) <= buf.Length
    requires buf[..] == lead + body + Zeros(buf.Length - pos)
    modifies buf
    ensures next == pos + P.EntrySize(key, value)
    ensures buf[..] == lead + (body + P.Entry(key, value)) + Zeros(buf.Length - next)
  {
    next := WriteSlot(buf, pos, lead + body, P.Line(key, value), P.EntrySize(key, value));
    assert lead + (body + P.Entry(key, value)) == lead + body + P.Entry(key, value);
  }

  lemma SplitZeros(lead: seq<byte>, body: seq<byte>, m: nat, n: nat)
    ensures lead + body + Zeros(m + n) == lead + (body + Zeros(m)) + Zeros(n)
  {
  }

  lemma BodyStep(h: map<Text, Text>, ks: seq<Text>, i: nat)
    requires i < |ks| && forall k :: k in ks ==> k in h
    ensures P.Body(h, ks[..i + 1]) == P.Body(h, ks[..i]) + P.Entry(ks[i], h[ks[i]])
    ensures |P.Body(h, ks[..i])| + P.EntrySize(ks[i], h[ks[i]]) <= |P.Body(h, ks)|
  {
    assert ks[..i + 1][..i] == ks[..i];
    assert ks == ks[..i + 1] + ks[i + 1..];
    P.BodyAppend(h, ks[..i + 1], ks[i + 1..]);
  }

  lemma ReadFirst(s: seq<byte>, m: map<Text, Text>)
    ensures s == [] ==> P.ReadHeaders(s, m) == Some(m)
    ensures var n := Find(s, P.NUL);
      s != [] ==> P.ReadHeaders(s, m) == if n == |s| then None else P.ReadHeaders(s[n + 1..], P.HeaderOf(m, s[..n]))
  {
  }

  lemma TailOfTail<T>(b: seq<T>, k: nat, n: nat)
    requires k + n < |b|
    ensures b[k..][n + 1..] == b[k + n + 1..] && b[k..][..n] == b[k..k + n]
  {
  }

  /** The buffer holds the first `i` strings and zeros behind them. */
  ghost predicate Filled(b: seq<byte>, lead: seq<byte>, h: map<Text, Text>, ks: seq<Text>, i: nat, pos: nat)
    requires i <= |ks| && forall k :: k in ks ==> k in h
  {
    && |lead| == P.LEN_HEADER && pos == P.LEN_HEADER + |P.Body(h, ks[..i])| && P.LEN_HEADER + |P.Body(h, ks)| <= |b|
    && pos <= P.LEN_HEADER + |P.Body(h, ks)|
    && b == lead + P.Body(h, ks[..i]) + Zeros(|b| - pos)
  }

  lemma FirstSlot(b: seq<byte>, lead: seq<byte>, h: map<Text, Text>, ks: seq<Text>)
    requires |lead| == P.LEN_HEADER && forall k :: k in ks ==> k in h
    requires P.LEN_HEADER + |P.Body(h, ks)| <= |b| && b == lead + Zeros(|b| - P.LEN_HEADER)
    ensures Filled(b, lead, h, ks, 0, P.LEN_HEADER)
  {
    assert P.Body(h, ks[..0]) == [];
    assert lead + [] == lead;
  }

  /** One turn of the string loop of `writeTo`. */
  method WriteNext(buf: array<byte>, pos: nat, ghost lead: seq<byte>, h: map<Text, Text>, ks: seq<Text>, i: nat)
    returns (next: nat)
    requires i < |ks| && forall k :: k in ks ==> k in h
    requires Filled(buf[..], lead, h, ks, i, pos)
    modifies buf
    ensures Filled(buf[..], lead, h, ks, i + 1, next)
  {
    BodyStep(h, ks, i);
    next := WriteEntry(buf, pos, lead, P.Body(h, ks[..i]), ks[i], h[ks[i]]);
  }

  class LanSyncPkt {
    var version: uint8
    var kind: uint8
    var xheader: map<Text, Text>
    var payload: seq<byte>
    var headerLen: uint16
    var totalLen: uint32

    ghost function View(): P.Pkt
      reads this
    {
      P.Pkt(version, kind, xheader, payload, headerLen, totalLen)
    }

    constructor (version: uint8, kind: uint8)
      ensures View() == P.New(version, kind)
    {
      this.version, this.kind := version, kind;
      xheader, payload := map[], [];
      headerLen, totalLen := P.LEN_HEADER, P.LEN_HEADER;
    }

    method AddXheader(key: Text, value: Text)
      modifies this
      ensures View() == P.AddHeader(old(View()), key, value)
    {
      if key !in xheader {
        xheader := xheader[key := []];   // operator[] inserts an empty value
      }
      var exists_value := xheader[key];
      if |exists_value| != 0 {
        var kv_len := P.KvLen(key, exists_value);
        headerLen := P.Sub16(headerLen, kv_len);
        totalLen := P.Sub32(totalLen, kv_len);
      }
      xheader := xheader[key := value];
      assert xheader == old(xheader)[key := value];
      var kv_len := P.KvLen(key, value);
      headerLen := P.Add16(headerLen, kv_len);
      totalLen := P.Add32(totalLen, kv_len);
    }

    method SetPayload(data: seq<byte>)
      modifies this
      ensures View() == P.WithPayload(old(View()), data)
    {
      if |data| == 0 {
        return;
      }
      if payload != [] {
        totalLen := headerLen;
      }
      payload := data;
      totalLen := P.Add32(totalLen, |data| % TWO32);
    }

    method QueryXheader(key: Text) returns (r: Option<Text>)
      ensures r == if key in xheader then Some(xheader[key]) else None
    {
      return if key in xheader then Some(xheader[key]) else None;
    }

    /** The string loop of `writeTo`, over a zeroed buffer that begins with eight bytes `lead`. */
    method WriteHeaders(buf: array<byte>, ghost lead: seq<byte>)
      requires P.Roomy(View()) && buf.Length == totalLen && |lead| == P.LEN_HEADER
      requires buf[..] == lead + Zeros(totalLen - P.LEN_HEADER)
      modifies buf
      ensures buf[..] == lead + P.HeaderBytes(View()) + Zeros(totalLen - headerLen)
    {
      hide P.Body, P.SizeOf;
      var ks := Sorted(xheader.Keys);
      P.BodySize(xheader, xheader.Keys);
      var pos := P.LEN_HEADER;
      var i := 0;
      FirstSlot(buf[..], lead, xheader, ks);
      while i < |ks|
        invariant i <= |ks|
        invariant Filled(buf[..], lead, xheader, ks, i, pos)
      {
        pos := WriteNext(buf, pos, lead, xheader, ks, i);
        i := i + 1;
      }
      assert ks[..i] == ks;
      SplitZeros(lead, P.Body(xheader, ks), headerLen - pos, totalLen - headerLen);
    }

    method WriteTo() returns (out: seq<byte>)
      requires P.Roomy(View())
      ensures out == P.Encode(View())
    {
      var hd := new byte[totalLen](_ => 0);
      ghost var lead := P.Lead(View());
      assert hd[..] == [] + Zeros(totalLen);
      var pos := WriteSlot(hd, 0, [], [version, kind] + (P.Be16(headerLen) + P.Be32(totalLen)), P.LEN_HEADER);
      assert hd[..] == lead + Zeros(totalLen - P.LEN_HEADER);
      WriteHeaders(hd, lead);
      pos := WriteSlot(hd, headerLen, lead + P.HeaderBytes(View()), payload, |payload|);
      assert hd[..] == lead + P.HeaderBytes(View()) + payload;
      return hd[..];
    }

    /** The string loop of the parsing constructor: `kvLen` bytes of the header are consumed. */
    static method ParseHeaders(b: seq<byte>) returns (m: Option<map<Text, Text>>)
      ensures m == P.ReadHeaders(b, map[])
    {
      hide P.ReadHeaders, P.Split;
      var xheader: map<Text, Text> := map[];
      var kvLen := 0;
      assert b[0..] == b;
      while kvLen < |b|
        invariant kvLen <= |b|
        invariant P.ReadHeaders(b[kvLen..], xheader) == P.ReadHeaders(b, map[])
      {
        var n := Find(b[kvLen..], P.NUL);
        ReadFirst(b[kvLen..], xheader);
        if kvLen + n == |b| {
          return None;
        }
        TailOfTail(b, kvLen, n);
        var kvstr := b[kvLen..kvLen + n];
        kvLen := kvLen + n + 1;
        var kvv := P.Split(kvstr, P.SEP);
        if |kvv| >= 2 {
          xheader := xheader[kvv[0] := kvv[1]];
        }
      }
      ReadFirst(b[kvLen..], xheader);
      return Some(xheader);
    }

    /** `LanSyncPkt(header)`; `ok` is false where the original would read outside the buffer. */
    static method Parse(b: seq<byte>) returns (ok: bool, p: LanSyncPkt)
      ensures fresh(p) && ok == P.Decode(b).Some?
      ensures ok ==> p.View() == P.Decode(b).value
    {
      p := new LanSyncPkt(0, 0);
      if |b| < P.LEN_HEADER {
        return false, p;
      }
      var total := P.FromBe32(b[4..8]);
      if total < P.LEN_HEADER {
        p.headerLen, p.totalLen := 0, 0;
        return true, p;
      }
      var head := P.FromBe16(b[2..4]);
      if head < P.LEN_HEADER || total < head || |b| < total {
        return false, p;
      }
      var m := ParseHeaders(b[P.LEN_HEADER..head]);
      if m.None? {
        return false, p;
      }
      p.version, p.kind, p.xheader := b[0], b[1], m.value;
      p.headerLen, p.totalLen := head, total;
      p.payload := b[head..total];
      return true, p;
    }

    /** `operator==`: the payloads are compared over the payload length, byte by byte. */
    method Equals(q: LanSyncPkt) returns (same: bool)
      requires headerLen + |payload| == totalLen && q.headerLen + |q.payload| == q.totalLen
      ensures same == (View() == q.View())
    {
      if version != q.version || headerLen != q.headerLen || totalLen != q.totalLen || kind != q.kind || xheader != q.xheader {
        return false;
      }
      var i := 0;
      while i < totalLen - headerLen
        invariant i <= |payload| == |q.payload| && payload[..i] == q.payload[..i]
      {
        if payload[i] != q.payload[i] {
          return false;
        }
        i := i + 1;
      }
      assert payload[..i] == payload && q.payload[..i] == q.payload;
      return true;
    }
  }
}
