/** `LanSyncPkt`: an 8-byte big-endian header, `key:value` strings each ended by NUL, and a payload. */
module Packet {
  import opened Basics
  import opened BlockRange
  import opened TextOrder

  const NUL: byte := 0
  const SEP: byte := 58  // ':'
  const LEN_HEADER: nat := 8

  /** An empty payload stands for a null one: empty payloads are never stored. */
  datatype Pkt = Pkt(version: uint8, kind: uint8, headers: map<Text, Text>, payload: seq<byte>, headerLen: uint16, totalLen: uint32)

  // ---------------------------------------------------------------- building

  function New(version: uint8, kind: uint8): Pkt {
    Pkt(version, kind, map[], [], LEN_HEADER, LEN_HEADER)
  }

  function Add16(a: uint16, b: uint16): uint16 {
    if a + b < TWO16 then a + b else a + b - TWO16
  }

  function Sub16(a: uint16, b: uint16): uint16 {
    if a >= b then a - b else a - b + TWO16
  }

  function Add32(a: uint32, b: uint32): uint32 {
    if a + b < TWO32 then a + b else a + b - TWO32
  }

  function Sub32(a: uint32, b: uint32): uint32 {
    if a >= b then a - b else a - b + TWO32
  }

  function EntrySize(k: Text, v: Text): nat {
    |k| + |v| + 2
  }

  function KvLen(k: Text, v: Text): uint16 {
    var n := EntrySize(k, v);
    if n < TWO16 then n else n % TWO16
  }

  /** A value already there is taken out of the lengths first, unless it is empty. */
  function AddHeader(p: Pkt, k: Text, v: Text): Pkt {
    var old_ := if k in p.headers then p.headers[k] else [];
    var h := if old_ != [] then Sub16(p.headerLen, KvLen(k, old_)) else p.headerLen;
    var t := if old_ != [] then Sub32(p.totalLen, KvLen(k, old_)) else p.totalLen;
    p.(headers := p.headers[k := v], headerLen := Add16(h, KvLen(k, v)), totalLen := Add32(t, KvLen(k, v)))
  }

  function WithPayload(p: Pkt, data: seq<byte>): Pkt {
    if data == [] then p
    else
      var t := if p.payload != [] then p.headerLen else p.totalLen;
      p.(payload := data, totalLen := Add32(t, |data| % TWO32))
  }

  // ---------------------------------------------------------------- lengths

  function SizeOf(h: map<Text, Text>, s: set<Text>): nat
    requires s <= h.Keys
  {
    if s == {} then 0 else var m := Smallest(s); EntrySize(m, h[m]) + SizeOf(h, s - {m})
  }

  /** The lengths say exactly what the packet holds. */
  ghost predicate Sized(p: Pkt) {
    p.headerLen == LEN_HEADER + SizeOf(p.headers, p.headers.Keys) && p.totalLen == p.headerLen + |p.payload|
  }

  /** The lengths leave room for what the packet holds: what `writeTo` needs to stay inside its buffer. */
  ghost predicate Roomy(p: Pkt) {
    p.headerLen >= LEN_HEADER + SizeOf(p.headers, p.headers.Keys) && p.totalLen == p.headerLen + |p.payload|
  }

  lemma {:induction false} SizeWithout(h: map<Text, Text>, s: set<Text>, k: Text)
    requires s <= h.Keys && k in s
    ensures SizeOf(h, s) == EntrySize(k, h[k]) + SizeOf(h, s - {k})
  {
    var m := Smallest(s);
    if m != k {
      SizeWithout(h, s - {m}, k);
      assert m in s - {k};
      SmallestUnique(Smallest(s - {k}), m, s - {k});
      assert s - {m} - {k} == s - {k} - {m};
    }
  }

  lemma {:induction false} SizeAgrees(h: map<Text, Text>, g: map<Text, Text>, s: set<Text>)
    requires s <= h.Keys && s <= g.Keys && forall k :: k in s ==> h[k] == g[k]
    ensures SizeOf(h, s) == SizeOf(g, s)
  {
    if s != {} { SizeAgrees(h, g, s - {Smallest(s)}); }
  }

  lemma SizeOfUpdate(h: map<Text, Text>, k: Text, v: Text)
    ensures var g := h[k := v];
      SizeOf(g, g.Keys) == EntrySize(k, v) + SizeOf(h, h.Keys) - (if k in h then EntrySize(k, h[k]) else 0)
  {
    var g := h[k := v];
    SizeWithout(g, g.Keys, k);
    SizeAgrees(h, g, h.Keys - {k});
    assert g.Keys - {k} == h.Keys - {k};
    if k in h { SizeWithout(h, h.Keys, k); } else { assert h.Keys - {k} == h.Keys; }
  }

  /** Whether adding a header keeps both lengths in their fields. */
  ghost predicate FitsHeader(p: Pkt, k: Text, v: Text) {
    p.headerLen + EntrySize(k, v) < TWO16 && p.totalLen + EntrySize(k, v) < TWO32
  }

  lemma AddHeaderLengths(p: Pkt, k: Text, v: Text)
    requires Roomy(p) && FitsHeader(p, k, v)
    ensures var q, kept := AddHeader(p, k, v), if k in p.headers && p.headers[k] != [] then EntrySize(k, p.headers[k]) else 0;
      q.headerLen == p.headerLen + EntrySize(k, v) - kept && q.totalLen == p.totalLen + EntrySize(k, v) - kept
  {
    SizeOfUpdate(p.headers, k, v);
    if k in p.headers { SizeWithout(p.headers, p.headers.Keys, k); }
  }

  lemma Wrap(n: uint16, t: uint32, a: nat, b: nat)
    ensures Add16(Sub16(n, b % 0x1_0000), a % 0x1_0000) == (n + a - b) % 0x1_0000
    ensures Add32(Sub32(t, b % 0x1_0000), a % 0x1_0000) == (t + a % 0x1_0000 - b % 0x1_0000) % 0x1_0000_0000
  {
  }

  lemma KvLenIs(k: Text, v: Text)
    ensures KvLen(k, v) == (|k| + |v| + 2) % 0x1_0000
  {
  }

  /** Lengths are kept modulo 2^16 and 2^32, whatever is set; what a header adds to the total is itself cut to 16 bits. */
  lemma HeaderLengthsWrap(p: Pkt, k: Text, v: Text)
    ensures var q, kept := AddHeader(p, k, v), if k in p.headers && p.headers[k] != [] then |k| + |p.headers[k]| + 2 else 0;
      && q.headerLen == (p.headerLen + (|k| + |v| + 2) - kept) % 0x1_0000
      && q.totalLen == (p.totalLen + (|k| + |v| + 2) % 0x1_0000 - kept % 0x1_0000) % 0x1_0000_0000
  {
    hide KvLen, Add16, Add32;
    var replaced := k in p.headers && p.headers[k] != [];
    KvLenIs(k, v);
    if replaced { KvLenIs(k, p.headers[k]); }
    Wrap(p.headerLen, p.totalLen, |k| + |v| + 2, if replaced then |k| + |p.headers[k]| + 2 else 0);
  }

  lemma PayloadLengthWraps(p: Pkt, data: seq<byte>)
    requires data != []
    ensures WithPayload(p, data).totalLen == ((if p.payload != [] then p.headerLen else p.totalLen) + |data|) % 0x1_0000_0000
  {
  }

  /** A packet's lengths stay exact unless a header whose value is empty is set again; they never become too small. */
  lemma AddHeaderSized(p: Pkt, k: Text, v: Text)
    requires Roomy(p) && FitsHeader(p, k, v)
    ensures Roomy(AddHeader(p, k, v))
    ensures Sized(p) ==> (Sized(AddHeader(p, k, v)) <==> !(k in p.headers && p.headers[k] == []))
  {
    SizeOfUpdate(p.headers, k, v);
    AddHeaderLengths(p, k, v);
  }

  lemma WithPayloadSized(p: Pkt, data: seq<byte>)
    requires Roomy(p) && p.headerLen + |data| < TWO32
    ensures Roomy(WithPayload(p, data)) && (Sized(p) ==> Sized(WithPayload(p, data)))
    ensures WithPayload(p, data).payload == if data == [] then p.payload else data
  {
  }

  datatype Edit = SetHeader(key: Text, value: Text) | SetData(data: seq<byte>)

  function Apply(p: Pkt, e: Edit): Pkt {
    match e
    case SetHeader(k, v) => AddHeader(p, k, v)
    case SetData(d) => WithPayload(p, d)
  }

  function Build(p: Pkt, es: seq<Edit>): Pkt {
    if es == [] then p else Apply(Build(p, es[..|es| - 1]), es[|es| - 1])
  }

  ghost predicate EditFits(p: Pkt, e: Edit) {
    match e
    case SetHeader(k, v) => FitsHeader(p, k, v)
    case SetData(d) => p.headerLen + |d| < TWO32
  }

  ghost predicate EditsFit(p: Pkt, es: seq<Edit>) {
    es != [] ==> EditsFit(p, es[..|es| - 1]) && EditFits(Build(p, es[..|es| - 1]), es[|es| - 1])
  }

  ghost predicate NoEmptyValue(p: Pkt) {
    forall k :: k in p.headers ==> p.headers[k] != []
  }

  /** Over every sequence of edits whose lengths fit, with non-empty values, both lengths are exact. */
  lemma {:induction false} BuiltSized(version: uint8, kind: uint8, es: seq<Edit>)
    requires EditsFit(New(version, kind), es)
    ensures Roomy(Build(New(version, kind), es))
    ensures (forall i :: 0 <= i < |es| && es[i].SetHeader? ==> es[i].value != []) ==>
              Sized(Build(New(version, kind), es)) && NoEmptyValue(Build(New(version, kind), es))
  {
    if es != [] {
      var p, e := Build(New(version, kind), es[..|es| - 1]), es[|es| - 1];
      BuiltSized(version, kind, es[..|es| - 1]);
      match e
      case SetHeader(k, v) => AddHeaderSized(p, k, v);
      case SetData(d) => WithPayloadSized(p, d);
    }
  }

  /** The last value set for `k`. */
  function LastSet(es: seq<Edit>, k: Text): Option<Text> {
    if es == [] then None
    else
      var e := es[|es| - 1];
      if e.SetHeader? && e.key == k then Some(e.value) else LastSet(es[..|es| - 1], k)
  }

  /** The last data that was not empty. */
  function LastData(es: seq<Edit>): seq<byte> {
    if es == [] then []
    else
      var e := es[|es| - 1];
      if e.SetData? && e.data != [] then e.data else LastData(es[..|es| - 1])
  }

  /** A built packet holds the last value set for every key, and no other key, and the last data set. */
  lemma {:induction false} BuiltContents(version: uint8, kind: uint8, es: seq<Edit>, k: Text)
    ensures var p := Build(New(version, kind), es);
      && p.version == version && p.kind == kind && p.payload == LastData(es)
      && (if k in p.headers then Some(p.headers[k]) else None) == LastSet(es, k)
  {
    if es != [] { BuiltContents(version, kind, es[..|es| - 1], k); }
  }

  // ---------------------------------------------------------------- writing

  /** A `std::string` as `%s` prints it: up to its first NUL. */
  function Cut(s: Text): (r: Text)
    ensures |r| <= |s| && NUL !in r
    ensures NUL !in s ==> r == s
  {
    assert s[..|s|] == s;
    s[..Find(s, NUL)]
  }

  function Line(k: Text, v: Text): (r: Text)
    ensures NUL !in r && |r| < EntrySize(k, v)
  {
    Cut(k) + ([SEP] + Cut(v))
  }

  /** One `sprintf` into a zeroed slot of the size of the untruncated strings. */
  function Entry(k: Text, v: Text): (r: Text)
    ensures |r| == EntrySize(k, v)
  {
    Line(k, v) + Zeros(EntrySize(k, v) - |Line(k, v)|)
  }

  function Body(h: map<Text, Text>, ks: seq<Text>): Text
    requires forall k :: k in ks ==> k in h
  {
    if ks == [] then [] else Body(h, ks[..|ks| - 1]) + Entry(ks[|ks| - 1], h[ks[|ks| - 1]])
  }

  function Be16(n: uint16): (r: seq<byte>)
    ensures |r| == 2
  {
    [n / 0x100, n % 0x100]
  }

  function Be32(n: uint32): (r: seq<byte>)
    ensures |r| == 4
  {
    Be16(n / TWO16) + Be16(n % TWO16)
  }

  function FromBe16(b: seq<byte>): uint16
    requires |b| == 2
  {
    var hi: nat := b[0];
    hi * 0x100 + b[1]
  }

  function FromBe32(b: seq<byte>): uint32
    requires |b| == 4
  {
    FromBe16(b[..2]) * TWO16 + FromBe16(b[2..])
  }

  lemma BigEndianRoundTrip(n: uint16, m: uint32)
    ensures FromBe16(Be16(n)) == n && FromBe32(Be32(m)) == m
  {
    assert Be32(m)[..2] == Be16(m / TWO16) && Be32(m)[2..] == Be16(m % TWO16);
    assert m / TWO16 / 0x100 * 0x100 + m / TWO16 % 0x100 == m / TWO16;
    assert m % TWO16 / 0x100 * 0x100 + m % TWO16 % 0x100 == m % TWO16;
  }

  function Lead(p: Pkt): (r: seq<byte>)
    ensures |r| == LEN_HEADER
  {
    [p.version, p.kind] + (Be16(p.headerLen) + Be32(p.totalLen))
  }

  lemma {:induction false} BodyAppend(h: map<Text, Text>, a: seq<Text>, b: seq<Text>)
    requires forall k :: k in a + b ==> k in h
    ensures forall k :: k in a || k in b ==> k in h
    ensures Body(h, a + b) == Body(h, a) + Body(h, b)
  {
    hide Entry;
    assert forall k :: k in a || k in b ==> k in a + b;
    if b == [] {
      assert a + b == a;
    } else {
      assert (a + b)[..|a + b| - 1] == a + b[..|b| - 1];
      BodyAppend(h, a, b[..|b| - 1]);
    }
  }

  lemma {:induction false} BodySize(h: map<Text, Text>, s: set<Text>)
    requires s <= h.Keys
    ensures |Body(h, Sorted(s))| == SizeOf(h, s)
  {
    if s != {} {
      var m := Smallest(s);
      BodySize(h, s - {m});
      assert Sorted(s) == [m] + Sorted(s - {m});
      assert forall k :: k in Sorted(s) <==> k in s;
      BodyAppend(h, [m], Sorted(s - {m}));
      BodyOne(h, m);
    }
  }

  lemma BodyOne(h: map<Text, Text>, k: Text)
    requires k in h
    ensures Body(h, [k]) == Entry(k, h[k])
  {
    assert [k][..0] == [] && Body(h, []) == [];
  }

  /** The header strings, and the gap the lengths may leave behind them. */
  function HeaderBytes(p: Pkt): (r: Text)
    requires Roomy(p)
    ensures |r| == p.headerLen - LEN_HEADER
  {
    BodySize(p.headers, p.headers.Keys);
    var b := Body(p.headers, Sorted(p.headers.Keys));
    b + Zeros(p.headerLen - LEN_HEADER - |b|)
  }

  /** What `writeTo` appends: exactly `total_len` bytes. */
  function Encode(p: Pkt): (r: seq<byte>)
    requires Roomy(p)
    ensures |r| == p.totalLen
  {
    Lead(p) + (HeaderBytes(p) + p.payload)
  }

  // ---------------------------------------------------------------- reading

  /** `splitstr`: `getline` by separator; an empty last token is not produced. */
  function Split(s: Text, c: byte): (r: seq<Text>)
    ensures forall i :: 0 <= i < |r| ==> c !in r[i]
    ensures forall i :: 0 <= i < |r| ==> Within(r[i], s)
  {
    if s == [] then []
    else
      var p := Find(s, c);
      if p == |s| then [s]
      else
        var rest := Split(s[p + 1..], c);
        assert forall i | 0 <= i < |rest| :: Within(rest[i], s) by {
          forall i | 0 <= i < |rest| ensures Within(rest[i], s) { assert Within(rest[i], s[p + 1..]); }
        }
        [s[..p]] + rest
  }

  predicate Within(t: Text, s: Text) {
    forall x :: x in t ==> x in s
  }

  function HeaderOf(m: map<Text, Text>, kv: Text): map<Text, Text> {
    var t := Split(kv, SEP);
    if |t| >= 2 then m[t[0] := t[1]] else m
  }

  /** None: a string runs past the end of the header. */
  function ReadHeaders(b: Text, m: map<Text, Text>): Option<map<Text, Text>> {
    if b == [] then Some(m)
    else
      var p := Find(b, NUL);
      if p == |b| then None else ReadHeaders(b[p + 1..], HeaderOf(m, b[..p]))
  }

  /** `LanSyncPkt(header)` on a buffer that begins with a frame; None where the original would read outside of it. */
  function Decode(b: seq<byte>): Option<Pkt> {
    if |b| < LEN_HEADER then None
    else
      var total := FromBe32(b[4..8]);
      var head := FromBe16(b[2..4]);
      if total < LEN_HEADER then Some(Pkt(0, 0, map[], [], 0, 0))
      else if head < LEN_HEADER || total < head || |b| < total then None
      else
        match ReadHeaders(b[LEN_HEADER..head], map[])
        case None => None
        case Some(m) => Some(Pkt(b[0], b[1], m, b[head..total], head, total))
  }

  // ---------------------------------------------------------------- reading back what was written

  lemma FindAt(s: Text, rest: Text, c: byte)
    requires c !in s
    ensures Find(s + [c] + rest, c) == |s|
  {
    assert (s + [c] + rest)[|s|] == c;
    assert forall i | 0 <= i < |s| :: (s + [c] + rest)[i] == s[i];
  }

  lemma SplitField(s: Text, rest: Text, c: byte)
    requires c !in s
    ensures Split(s + [c] + rest, c) == [s] + Split(rest, c)
  {
    FindAt(s, rest, c);
    assert (s + [c] + rest)[..|s|] == s;
    assert (s + [c] + rest)[|s| + 1..] == rest;
  }

  lemma SplitLastField(s: Text, c: byte)
    requires c !in s
    ensures Split(s, c) == if s == [] then [] else [s]
  {
  }

  lemma ReadString(t: Text, rest: Text, m: map<Text, Text>)
    requires NUL !in t
    ensures ReadHeaders(t + [NUL] + rest, m) == ReadHeaders(rest, HeaderOf(m, t))
  {
    FindAt(t, rest, NUL);
    assert (t + [NUL] + rest)[..|t|] == t;
    assert (t + [NUL] + rest)[|t| + 1..] == rest;
  }

  lemma {:induction false} ReadPadding(n: nat, rest: Text, m: map<Text, Text>)
    ensures ReadHeaders(Zeros(n) + rest, m) == ReadHeaders(rest, m)
  {
    if n == 0 {
      assert Zeros(0) + rest == rest;
    } else {
      assert Zeros(n) + rest == [] + [NUL] + (Zeros(n - 1) + rest);
      ReadString([], Zeros(n - 1) + rest, m);
      ReadPadding(n - 1, rest, m);
    }
  }

  lemma ReadEntry(k: Text, v: Text, rest: Text, m: map<Text, Text>)
    ensures ReadHeaders(Entry(k, v) + rest, m) == ReadHeaders(rest, HeaderOf(m, Line(k, v)))
  {
    var pad := EntrySize(k, v) - |Line(k, v)|;
    assert Entry(k, v) + rest == Line(k, v) + [NUL] + (Zeros(pad - 1) + rest);
    ReadString(Line(k, v), Zeros(pad - 1) + rest, m);
    ReadPadding(pad - 1, rest, HeaderOf(m, Line(k, v)));
  }

  /** The header map a reader builds from the strings of `ks`. */
  function Survivors(h: map<Text, Text>, ks: seq<Text>): map<Text, Text>
    requires forall k :: k in ks ==> k in h
  {
    if ks == [] then map[] else HeaderOf(Survivors(h, ks[..|ks| - 1]), Line(ks[|ks| - 1], h[ks[|ks| - 1]]))
  }

  lemma {:induction false} ReadBody(h: map<Text, Text>, ks: seq<Text>, rest: Text)
    requires forall k :: k in ks ==> k in h
    ensures ReadHeaders(Body(h, ks) + rest, map[]) == ReadHeaders(rest, Survivors(h, ks))
  {
    if ks == [] {
      assert Body(h, ks) + rest == rest;
    } else {
      var init, k := ks[..|ks| - 1], ks[|ks| - 1];
      assert Body(h, ks) + rest == Body(h, init) + (Entry(k, h[k]) + rest);
      ReadBody(h, init, Entry(k, h[k]) + rest);
      ReadEntry(k, h[k], rest, Survivors(h, init));
    }
  }

  ghost predicate Clean(s: Text) {
    NUL !in s && SEP !in s
  }

  /** A header that survives the wire as it is. */
  ghost predicate CleanEntry(k: Text, v: Text) {
    Clean(k) && Clean(v) && v != []
  }

  ghost predicate CleanHeaders(h: map<Text, Text>) {
    forall k :: k in h ==> CleanEntry(k, h[k])
  }

  /** What a reader makes of a header value: its part before the first NUL, then before the first ':'; None: no header. */
  function ValueRead(v: Text): (r: Option<Text>)
    ensures r.Some? ==> SEP !in r.value && NUL !in r.value && |r.value| <= |v|
    ensures r == Some(v) <==> SEP !in v && NUL !in v && v != []
  {
    var c := Cut(v);
    if c == [] then None else Some(c[..Find(c, SEP)])
  }

  lemma SplitFirst(s: Text, c: byte)
    requires s != []
    ensures Split(s, c) != [] && Split(s, c)[0] == s[..Find(s, c)]
  {
    if Find(s, c) == |s| { assert s[..|s|] == s; }
  }

  lemma ReadLineBack(m: map<Text, Text>, k: Text, v: Text)
    requires Clean(k)
    ensures HeaderOf(m, Line(k, v)) == match ValueRead(v) case None => m case Some(w) => m[k := w]
  {
    assert Line(k, v) == k + [SEP] + Cut(v);
    SplitField(k, Cut(v), SEP);
    if Cut(v) != [] { SplitFirst(Cut(v), SEP); }
  }

  /** With clean keys each header is read on its own: the reader has exactly those whose value leaves something. */
  lemma {:induction false} SurvivorsExact(h: map<Text, Text>, ks: seq<Text>)
    requires forall k :: k in ks ==> k in h && Clean(k)
    ensures Survivors(h, ks) == map k | k in ks && ValueRead(h[k]).Some? :: ValueRead(h[k]).value
  {
    hide HeaderOf, Line, ValueRead, Clean;
    if ks != [] {
      var init, k := ks[..|ks| - 1], ks[|ks| - 1];
      SurvivorsExact(h, init);
      ReadLineBack(Survivors(h, init), k, h[k]);
      assert ks == init + [k];
    }
  }

  /** Nothing with a separator or NUL in it ever comes out of a header. */
  lemma {:induction false} SurvivorsAreClean(h: map<Text, Text>, ks: seq<Text>)
    requires forall k :: k in ks ==> k in h
    ensures forall x :: x in Survivors(h, ks) ==> Clean(x) && Clean(Survivors(h, ks)[x])
  {
    if ks != [] { SurvivorsAreClean(h, ks[..|ks| - 1]); }
  }

  /** The headers come back unchanged exactly when no key or value holds ':' or NUL and no value is empty. */
  lemma HeadersSurvive(h: map<Text, Text>)
    ensures Survivors(h, Sorted(h.Keys)) == h <==> CleanHeaders(h)
  {
    var ks := Sorted(h.Keys);
    SurvivorsAreClean(h, ks);
    if (forall k :: k in h ==> Clean(k)) {
      SurvivorsExact(h, ks);
    }
    if CleanHeaders(h) {
      assert forall k :: k in h ==> CleanEntry(k, h[k]) && ValueRead(h[k]) == Some(h[k]);
    }
    if Survivors(h, ks) == h {
      forall k | k in h ensures CleanEntry(k, h[k]) {
        assert ValueRead(h[k]) == Some(h[k]);
      }
    }
  }

  lemma ReadLead(p: Pkt, rest: seq<byte>)
    requires p.totalLen >= LEN_HEADER
    ensures var b := Lead(p) + rest;
      b[0] == p.version && b[1] == p.kind && FromBe16(b[2..4]) == p.headerLen && FromBe32(b[4..8]) == p.totalLen
  {
    var b := Lead(p) + rest;
    BigEndianRoundTrip(p.headerLen, p.totalLen);
    assert b[2..4] == Be16(p.headerLen);
    assert b[4..8] == Be32(p.totalLen);
  }

  lemma ReadHeaderBytes(p: Pkt)
    requires Roomy(p)
    ensures ReadHeaders(HeaderBytes(p), map[]) == Some(Survivors(p.headers, Sorted(p.headers.Keys)))
  {
    var ks := Sorted(p.headers.Keys);
    var pad := p.headerLen - LEN_HEADER - |Body(p.headers, ks)|;
    BodySize(p.headers, p.headers.Keys);
    ReadBody(p.headers, ks, Zeros(pad));
    ReadPadding(pad, [], Survivors(p.headers, ks));
    assert Zeros(pad) + [] == Zeros(pad);
  }

  /**
   A written packet, with anything behind it in the buffer, is read back with the same lengths, payload and type; it
   is read back equal exactly when its headers are clean.
   */
  lemma PacketRoundTrip(p: Pkt, rest: seq<byte>)
    requires Roomy(p)
    ensures Decode(Encode(p) + rest) == Some(p.(headers := Survivors(p.headers, Sorted(p.headers.Keys))))
    ensures Decode(Encode(p) + rest) == Some(p) <==> CleanHeaders(p.headers)
  {
    var b := Encode(p) + rest;
    var tail := HeaderBytes(p) + p.payload + rest;
    assert b == Lead(p) + tail;
    ReadLead(p, tail);
    assert b[LEN_HEADER..p.headerLen] == HeaderBytes(p);
    assert b[p.headerLen..p.totalLen] == p.payload;
    ReadHeaderBytes(p);
    HeadersSurvive(p.headers);
  }
}
