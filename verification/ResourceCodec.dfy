/** The file table as it travels: one record per file, with 1, 2 or 4-byte little-endian lengths chosen by a flag byte. */
module ResourceCodec {
  import opened Basics
  import opened SyncDecision

  const LOOP_LIMIT: nat := TWO32 - 1

  // ---------------------------------------------------------------- little-endian numbers

  function Le(n: nat, w: nat): (r: seq<byte>)
    ensures |r| == w
  {
    if w == 0 then [] else [n % 256] + Le(n / 256, w - 1)
  }

  function FromLe(b: seq<byte>): nat {
    if b == [] then 0 else var lo: nat := b[0]; lo + 256 * FromLe(b[1..])
  }

  function Pow256(w: nat): nat {
    if w == 0 then 1 else 256 * Pow256(w - 1)
  }

  lemma {:induction false} LeRoundTrip(n: nat, w: nat)
    requires n < Pow256(w)
    ensures FromLe(Le(n, w)) == n
  {
    if w > 0 {
      LeRoundTrip(n / 256, w - 1);
      assert Le(n, w)[1..] == Le(n / 256, w - 1);
    }
  }

  lemma {:induction false} FromLeBound(b: seq<byte>)
    ensures FromLe(b) < Pow256(|b|)
  {
    if b != [] { FromLeBound(b[1..]); }
  }

  lemma Powers()
    ensures Pow256(1) == 256 && Pow256(2) == TWO16 && Pow256(4) == TWO32 && Pow256(8) == TWO64
  {
    assert Pow256(3) == 256 * Pow256(2) && Pow256(5) == 256 * Pow256(4) && Pow256(6) == 256 * Pow256(5) && Pow256(7) == 256 * Pow256(6);
  }

  // ---------------------------------------------------------------- one record

  type Flag = f: nat | f < 4

  function FlagOf(n: nat): Flag {
    if n <= 255 then 0 else if n <= 65535 then 1 else 2
  }

  /** Flag 3 is never written; it reads as four bytes. */
  function Width(f: Flag): (w: nat)
    ensures 1 <= w <= 4
  {
    if f == 0 then 1 else if f == 1 then 2 else 4
  }

  /** A length as written: 32 bits at most. */
  function SizeField(n: nat): seq<byte> {
    Le(n % TWO32, Width(FlagOf(n)))
  }

  function FlagByte(r: Resource): byte {
    FlagOf(|r.name|) * 64 + FlagOf(|r.uri|) * 16 + FlagOf(|r.path|) * 4 + FlagOf(|r.hash|)
  }

  function Strings(r: Resource): Text {
    r.name + (r.uri + (r.path + r.hash))
  }

  function SizeFields(r: Resource): seq<byte> {
    SizeField(|r.name|) + (SizeField(|r.uri|) + (SizeField(|r.path|) + SizeField(|r.hash|)))
  }

  function Record(r: Resource): (b: seq<byte>)
    ensures b != []
  {
    [FlagByte(r)] + (SizeFields(r) + (Le(r.size % TWO64, 8) + Strings(r)))
  }

  function Serialize(t: seq<Resource>): seq<byte> {
    if t == [] then [] else Record(t[0]) + Serialize(t[1..])
  }

  function FlagAt(b: byte, k: nat): Flag
    requires k < 4
  {
    var n: nat := b;
    if k == 0 then n / 64 else if k == 1 then n / 16 % 4 else if k == 2 then n / 4 % 4 else n % 4
  }

  /** A length field and what follows it; None outside the buffer. */
  function TakeSize(f: Flag, b: seq<byte>): (r: Option<(nat, seq<byte>)>)
    ensures r.Some? ==> |b| >= Width(f) && r.value.1 == b[Width(f)..] && r.value.0 < TWO32
  {
    if |b| < Width(f) then None
    else
      FromLeBound(b[..Width(f)]);
      Powers();
      Some((FromLe(b[..Width(f)]), b[Width(f)..]))
  }

  datatype Sizes = Sizes(name: nat, uri: nat, path: nat, hash: nat, rest: seq<byte>)
  {
    function Total(): nat { name + uri + path + hash }
  }

  function TakeSizes(flags: byte, b: seq<byte>): (r: Option<Sizes>)
    ensures r.Some? ==> |r.value.rest| <= |b|
  {
    match TakeSize(FlagAt(flags, 0), b)
    case None => None
    case Some((n, b1)) =>
      match TakeSize(FlagAt(flags, 1), b1)
      case None => None
      case Some((u, b2)) =>
        match TakeSize(FlagAt(flags, 2), b2)
        case None => None
        case Some((p, b3)) =>
          match TakeSize(FlagAt(flags, 3), b3)
          case None => None
          case Some((h, b4)) => Some(Sizes(n, u, p, h, b4))
  }

  /** The first record of a non-empty buffer, and the rest; None when it runs past the end. */
  function TakeRecord(b: seq<byte>): (r: Option<(Resource, seq<byte>)>)
    requires b != []
    ensures r.Some? ==> |r.value.1| < |b|
  {
    match TakeSizes(b[0], b[1..])
    case None => None
    case Some(z) =>
      if |z.rest| < 8 + z.Total() then None
      else Some((Fields(z.rest[8..], z.name, z.uri, z.path, z.hash, FromLe(z.rest[..8])), z.rest[8..][z.Total()..]))
  }

  /** The four strings at the front of `s`. */
  function Fields(s: Text, n: nat, u: nat, p: nat, h: nat, size: nat): (r: Resource)
    requires |s| >= n + u + p + h
    ensures |r.name| == n && |r.uri| == u && |r.path| == p && |r.hash| == h
  {
    Resource(s[..n], s[n..n + u], s[n + u..n + u + p], s[n + u + p..n + u + p + h], size)
  }

  /** `deserialize`, which stops at the end of the buffer or after `limit` records. */
  function Take(b: seq<byte>, limit: nat): Option<seq<Resource>>
    decreases limit
  {
    if b == [] || limit == 0 then Some([])
    else
      match TakeRecord(b)
      case None => None
      case Some((r, rest)) =>
        match Take(rest, limit - 1)
        case None => None
        case Some(rs) => Some([r] + rs)
  }

  // ---------------------------------------------------------------- round trips

  predicate ShortStrings(r: Resource) {
    |r.name| < TWO32 && |r.uri| < TWO32 && |r.path| < TWO32 && |r.hash| < TWO32
  }

  lemma TakeSizeOf(n: nat, rest: seq<byte>)
    ensures TakeSize(FlagOf(n), SizeField(n) + rest) == Some((n % TWO32, rest))
  {
    var w := Width(FlagOf(n));
    Powers();
    LeRoundTrip(n % TWO32, w);
    assert (SizeField(n) + rest)[..w] == SizeField(n);
    assert (SizeField(n) + rest)[w..] == rest;
  }

  lemma Digits4(a: Flag, b: Flag, c: Flag, d: Flag)
    ensures var n := a * 64 + b * 16 + c * 4 + d; n / 64 == a && n / 16 % 4 == b && n / 4 % 4 == c && n % 4 == d
  {
    var n := a * 64 + b * 16 + c * 4 + d;
    assert n / 4 == a * 16 + b * 4 + c;
    assert n / 16 == a * 4 + b;
  }

  lemma FlagsOfByte(r: Resource)
    ensures FlagAt(FlagByte(r), 0) == FlagOf(|r.name|) && FlagAt(FlagByte(r), 1) == FlagOf(|r.uri|)
    ensures FlagAt(FlagByte(r), 2) == FlagOf(|r.path|) && FlagAt(FlagByte(r), 3) == FlagOf(|r.hash|)
  {
    hide FlagOf;
    Digits4(FlagOf(|r.name|), FlagOf(|r.uri|), FlagOf(|r.path|), FlagOf(|r.hash|));
  }

  lemma FieldsOf(r: Resource, rest: seq<byte>)
    ensures Fields(Strings(r) + rest, |r.name|, |r.uri|, |r.path|, |r.hash|, r.size) == r
    ensures (Strings(r) + rest)[|r.name| + |r.uri| + |r.path| + |r.hash|..] == rest
  {
  }

  lemma Regroup(a: seq<byte>, b: seq<byte>, c: seq<byte>, d: seq<byte>, e: seq<byte>)
    ensures (a + (b + (c + d))) + e == a + (b + (c + (d + e)))
  {
  }

  /** The lengths a reader sees are those of the strings modulo 2^32. */
  lemma TakeSizesOf(r: Resource, rest: seq<byte>)
    ensures TakeSizes(FlagByte(r), SizeFields(r) + rest)
         == Some(Sizes(|r.name| % TWO32, |r.uri| % TWO32, |r.path| % TWO32, |r.hash| % TWO32, rest))
  {
    hide TakeSize, SizeField, FlagOf, FlagAt, FlagByte;
    var b3 := SizeField(|r.hash|) + rest;
    var b2 := SizeField(|r.path|) + b3;
    var b1 := SizeField(|r.uri|) + b2;
    FlagsOfByte(r);
    Regroup(SizeField(|r.name|), SizeField(|r.uri|), SizeField(|r.path|), SizeField(|r.hash|), rest);
    TakeSizeOf(|r.name|, b1);
    TakeSizeOf(|r.uri|, b2);
    TakeSizeOf(|r.path|, b3);
    TakeSizeOf(|r.hash|, rest);
  }

  lemma FrontAndBack(a: byte, b: seq<byte>, c: seq<byte>, d: seq<byte>, e: seq<byte>)
    ensures var x := [a] + (b + (c + d)) + e; x[0] == a && x[1..] == b + (c + (d + e))
    ensures (c + (d + e))[..|c|] == c && (c + (d + e))[|c|..] == d + e
  {
  }

  lemma TakeRecordBy(b: seq<byte>, z: Sizes, size: seq<byte>, strings: Text)
    requires b != [] && TakeSizes(b[0], b[1..]) == Some(z) && z.rest == size + strings && |size| == 8
    requires z.Total() <= |strings|
    ensures TakeRecord(b) == Some((Fields(strings, z.name, z.uri, z.path, z.hash, FromLe(size)), strings[z.Total()..]))
  {
    hide TakeSizes, FromLe, Fields;
    assert z.rest[..8] == size && z.rest[8..] == strings;
  }

  lemma TakeRecordLengths(r: Resource, rest: seq<byte>)
    requires r.size < TWO64
    ensures var n, u, p, h := |r.name| % TWO32, |r.uri| % TWO32, |r.path| % TWO32, |r.hash| % TWO32;
      n + u + p + h <= |Strings(r) + rest| &&
      TakeRecord(Record(r) + rest) == Some((Fields(Strings(r) + rest, n, u, p, h, r.size), (Strings(r) + rest)[n + u + p + h..]))
  {
    hide TakeSizes, TakeRecord, SizeFields, FlagByte, Fields, Le, FromLe, Pow256;
    assert |Strings(r)| == |r.name| + |r.uri| + |r.path| + |r.hash|;
    hide Strings;
    var le := Le(r.size % TWO64, 8);
    FrontAndBack(FlagByte(r), SizeFields(r), le, Strings(r), rest);
    TakeSizesOf(r, le + (Strings(r) + rest));
    Powers();
    LeRoundTrip(r.size, 8);
    TakeRecordBy(Record(r) + rest, TakeSizes(FlagByte(r), SizeFields(r) + (le + (Strings(r) + rest))).value, le, Strings(r) + rest);
  }

  /** A record is read back exactly when each of its strings is shorter than 2^32; the read never fails. */
  lemma RecordRoundTrip(r: Resource, rest: seq<byte>)
    requires r.size < TWO64
    ensures TakeRecord(Record(r) + rest).Some?
    ensures ShortStrings(r) ==> TakeRecord(Record(r) + rest) == Some((r, rest))
    ensures TakeRecord(Record(r) + rest).value.0 == r ==> ShortStrings(r)
  {
    hide TakeRecord, Record, Strings, Fields;
    TakeRecordLengths(r, rest);
    if ShortStrings(r) { FieldsOf(r, rest); }
  }

  ghost predicate AllShort(t: seq<Resource>) {
    forall i :: 0 <= i < |t| ==> ShortStrings(t[i])
  }

  ghost predicate Sizes64(t: seq<Resource>) {
    forall i :: 0 <= i < |t| ==> t[i].size < TWO64
  }

  lemma {:induction false} TableReads(t: seq<Resource>, limit: nat)
    requires Sizes64(t) && AllShort(t)
    ensures Take(Serialize(t), limit) == Some(t[..Min(|t|, limit)])
  {
    hide Record, TakeRecord, ShortStrings;
    if t != [] && limit > 0 {
      RecordRoundTrip(t[0], Serialize(t[1..]));
      TableReads(t[1..], limit - 1);
      assert t[..Min(|t|, limit)] == [t[0]] + t[1..][..Min(|t| - 1, limit - 1)];
    } else {
      assert t[..Min(|t|, limit)] == [];
    }
  }

  lemma {:induction false} LongStringIsLost(t: seq<Resource>, limit: nat)
    requires Sizes64(t) && Take(Serialize(t), limit) == Some(t)
    ensures AllShort(t) && |t| <= limit
  {
    hide Record, TakeRecord, ShortStrings;
    if t != [] {
      assert limit > 0;
      RecordRoundTrip(t[0], Serialize(t[1..]));
      assert Take(TakeRecord(Serialize(t)).value.1, limit - 1) == Some(t[1..]);
      LongStringIsLost(t[1..], limit - 1);
      forall i | 0 <= i < |t| ensures ShortStrings(t[i]) {
        if i > 0 { assert t[i] == t[1..][i - 1]; }
      }
    }
  }

  /**
   A table survives the wire exactly when it has at most `limit` records, which for `deserialize` is 2^32 - 1, and no
   string of 2^32 bytes or more.
   */
  lemma TableRoundTrip(t: seq<Resource>, limit: nat)
    requires Sizes64(t)
    ensures Take(Serialize(t), limit) == Some(t) <==> AllShort(t) && |t| <= limit
  {
    hide Take, Serialize, ShortStrings;
    if AllShort(t) && |t| <= limit {
      TableReads(t, limit);
      assert t[..|t|] == t;
    }
    if Take(Serialize(t), limit) == Some(t) {
      LongStringIsLost(t, limit);
    }
  }

  // ---------------------------------------------------------------- tables that were cut

  lemma TakeSizeMore(f: Flag, b: seq<byte>, c: seq<byte>)
    requires TakeSize(f, b).Some?
    ensures TakeSize(f, b + c) == Some((TakeSize(f, b).value.0, TakeSize(f, b).value.1 + c))
  {
    assert (b + c)[..Width(f)] == b[..Width(f)];
    assert (b + c)[Width(f)..] == b[Width(f)..] + c;
  }

  lemma TakeSizesMore(flags: byte, b: seq<byte>, c: seq<byte>)
    requires TakeSizes(flags, b).Some?
    ensures var z := TakeSizes(flags, b).value; TakeSizes(flags, b + c) == Some(z.(rest := z.rest + c))
  {
    hide TakeSize, FlagAt;
    var b1 := TakeSize(FlagAt(flags, 0), b).value.1;
    var b2 := TakeSize(FlagAt(flags, 1), b1).value.1;
    var b3 := TakeSize(FlagAt(flags, 2), b2).value.1;
    TakeSizeMore(FlagAt(flags, 0), b, c);
    TakeSizeMore(FlagAt(flags, 1), b1, c);
    TakeSizeMore(FlagAt(flags, 2), b2, c);
    TakeSizeMore(FlagAt(flags, 3), b3, c);
  }

  /** A record that is all there is read the same whatever follows it. */
  lemma TakeRecordMore(b: seq<byte>, c: seq<byte>)
    requires b != [] && TakeRecord(b).Some?
    ensures TakeRecord(b + c) == Some((TakeRecord(b).value.0, TakeRecord(b).value.1 + c))
  {
    hide TakeSizes, FromLe;
    assert (b + c)[1..] == b[1..] + c;
    TakeSizesMore(b[0], b[1..], c);
    var z := TakeSizes(b[0], b[1..]).value;
    assert (z.rest + c)[..8] == z.rest[..8];
    assert (z.rest + c)[8..] == z.rest[8..] + c;
    FieldsMore(z.rest[8..], c, z.name, z.uri, z.path, z.hash, FromLe(z.rest[..8]));
  }

  lemma FieldsMore(s: Text, c: Text, n: nat, u: nat, p: nat, h: nat, size: nat)
    requires |s| >= n + u + p + h
    ensures Fields(s + c, n, u, p, h, size) == Fields(s, n, u, p, h, size)
    ensures (s + c)[n + u + p + h..] == s[n + u + p + h..] + c
  {
  }

  /** No part of a record passes for a record. */
  lemma CutRecord(r: Resource, n: nat)
    requires ShortStrings(r) && r.size < TWO64 && 0 < n < |Record(r)|
    ensures TakeRecord(Record(r)[..n]).None?
  {
    hide TakeRecord, Record, ShortStrings;
    var b, c := Record(r)[..n], Record(r)[n..];
    assert b + c == Record(r) && Record(r) + [] == Record(r);
    RecordRoundTrip(r, []);
    if TakeRecord(b).Some? { TakeRecordMore(b, c); }
  }

  /** A table cut inside a record is not read: the loop runs past the end of the buffer. Cut behind one, the records up to there are. */
  lemma {:induction false} CutTable(t: seq<Resource>, r: Resource, n: nat, limit: nat)
    requires Sizes64(t + [r]) && AllShort(t + [r]) && n < |Record(r)| && limit > |t|
    ensures Take(Serialize(t) + Record(r)[..n], limit) == if n == 0 then Some(t) else None
  {
    hide Record, TakeRecord, ShortStrings;
    var cut := Record(r)[..n];
    assert (t + [r])[|t|] == r;
    if t == [] {
      assert Serialize(t) + cut == cut;
      if n > 0 { CutRecord(r, n); }
    } else {
      assert (t + [r])[0] == t[0] && (t + [r])[1..] == t[1..] + [r];
      RecordRoundTrip(t[0], Serialize(t[1..]) + cut);
      assert Serialize(t) + cut == Record(t[0]) + (Serialize(t[1..]) + cut);
      CutTable(t[1..], r, n, limit - 1);
      assert t == [t[0]] + t[1..];
    }
  }

  // ---------------------------------------------------------------- the program's loops

  /** `set_flag_and_accum_hdsize`: append the length, return the flag. */
  method SetFlag(str: Text, buf: seq<byte>) returns (flag: Flag, out: seq<byte>)
    ensures flag == FlagOf(|str|) && out == buf + SizeField(|str|)
  {
    if |str| <= 255 {
      return 0, buf + Le(|str| % 256, 1);
    } else if |str| <= 65535 {
      return 1, buf + Le(|str| % TWO16, 2);
    } else {
      return 2, buf + Le(|str| % TWO32, 4);
    }
  }

  lemma {:induction false} SerializeAppend(a: seq<Resource>, r: Resource)
    ensures Serialize(a + [r]) == Serialize(a) + Record(r)
  {
    if a == [] {
      assert a + [r] == [r] && [r][1..] == [] && Serialize([]) == [];
    } else {
      assert (a + [r])[1..] == a[1..] + [r];
      SerializeAppend(a[1..], r);
    }
  }

  lemma Flatten(buf: seq<byte>, a: seq<byte>, b: seq<byte>, c: seq<byte>, n: seq<byte>, u: seq<byte>, p: seq<byte>,
        h: seq<byte>)
    ensures buf + a + b + c + n + u + p + h == buf + (a + (b + (c + (n + (u + (p + h))))))
  {
  }

  method SerializeOne(r: Resource, buf: seq<byte>) returns (out: seq<byte>)
    ensures out == buf + Record(r)
  {
    hide SizeField, FlagOf, Le;
    var flag: nat, f, sizes := 0, 0, [];
    f, sizes := SetFlag(r.name, sizes);
    flag := f;
    f, sizes := SetFlag(r.uri, sizes);
    flag := flag * 4 + f;
    f, sizes := SetFlag(r.path, sizes);
    flag := flag * 4 + f;
    f, sizes := SetFlag(r.hash, sizes);
    flag := flag * 4 + f;
    Regroup([], SizeField(|r.name|), SizeField(|r.uri|), SizeField(|r.path|), SizeField(|r.hash|));
    assert sizes == SizeFields(r);
    out := buf + [flag];
    out := out + sizes;
    out := out + Le(r.size % TWO64, 8);
    out := out + r.name;
    out := out + r.uri;
    out := out + r.path;
    out := out + r.hash;
    Flatten(buf, [flag], sizes, Le(r.size % TWO64, 8), r.name, r.uri, r.path, r.hash);
  }

  method SerializeTable(table: seq<Resource>) returns (buf: seq<byte>)
    ensures buf == Serialize(table)
  {
    buf := [];
    if |table| == 0 {
      return;
    }
    for i := 0 to |table|
      invariant buf == Serialize(table[..i])
    {
      buf := SerializeOne(table[i], buf);
      SerializeAppend(table[..i], table[i]);
      assert table[..i + 1] == table[..i] + [table[i]];
    }
    assert table[..|table|] == table;
  }

  /** `readSize`; `ok` is false past the end of the buffer. */
  method ReadSize(flag: Flag, data: seq<byte>, datap: nat) returns (ok: bool, size: nat, step: nat)
    requires datap <= |data|
    ensures step == Width(flag) && size < TWO32
    ensures ok <==> TakeSize(flag, data[datap..]).Some?
    ensures ok ==> datap + step <= |data| && TakeSize(flag, data[datap..]) == Some((size, data[datap + step..]))
  {
    step := if flag == 0 then 1 else if flag == 1 then 2 else 4;
    if |data| < datap + step {
      return false, 0, step;
    }
    size := FromLe(data[datap..datap + step]);
    Powers();
    FromLeBound(data[datap..datap + step]);
    assert data[datap..][..step] == data[datap..datap + step];
    assert data[datap..][step..] == data[datap + step..];
    ok := true;
  }

  /** Two lengths, one behind the other. */
  function TakePair(f: Flag, g: Flag, b: seq<byte>): Option<(nat, nat, seq<byte>)> {
    match TakeSize(f, b)
    case None => None
    case Some((n, b1)) =>
      match TakeSize(g, b1)
      case None => None
      case Some((m, b2)) => Some((n, m, b2))
  }

  lemma TwoPairs(flags: byte, b: seq<byte>)
    ensures TakeSizes(flags, b) == match TakePair(FlagAt(flags, 0), FlagAt(flags, 1), b)
      case None => None
      case Some((n, u, b2)) =>
        match TakePair(FlagAt(flags, 2), FlagAt(flags, 3), b2)
        case None => None
        case Some((p, h, b4)) => Some(Sizes(n, u, p, h, b4))
  {
    hide TakeSize, FlagAt;
  }

  method ReadPair(f: Flag, g: Flag, data: seq<byte>, datap: nat, pos: nat)
    returns (ok: bool, n: nat, m: nat, next: nat, pos1: nat)
    requires datap <= |data|
    ensures ok <==> TakePair(f, g, data[datap..]).Some?
    ensures ok ==> datap <= next <= |data| && pos1 - pos == next - datap
                   && TakePair(f, g, data[datap..]) == Some((n, m, data[next..]))
  {
    hide TakeSize, Width;
    next, pos1, m := datap, pos, 0;
    var step;
    ok, n, step := ReadSize(f, data, next);
    if !ok { return; }
    next, pos1 := next + step, pos1 + step;
    ok, m, step := ReadSize(g, data, next);
    if !ok { return; }
    next, pos1 := next + step, pos1 + step;
  }

  /** The four lengths of a record. */
  method ReadSizes(flags: byte, data: seq<byte>, datap: nat, pos: nat)
    returns (ok: bool, z: Sizes, next: nat, pos1: nat)
    requires datap <= |data|
    ensures ok <==> TakeSizes(flags, data[datap..]).Some?
    ensures ok ==> datap <= next <= |data| && pos1 - pos == next - datap && TakeSizes(flags, data[datap..]) == Some(z)
    ensures ok ==> z.rest == data[next..]
  {
    hide TakePair, TakeSizes, FlagAt;
    z := Sizes(0, 0, 0, 0, []);
    var name, uri, path, hash;
    TwoPairs(flags, data[datap..]);
    ok, name, uri, next, pos1 := ReadPair(FlagAt(flags, 0), FlagAt(flags, 1), data, datap, pos);
    if !ok { return; }
    ok, path, hash, next, pos1 := ReadPair(FlagAt(flags, 2), FlagAt(flags, 3), data, next, pos1);
    if !ok { return; }
    z := Sizes(name, uri, path, hash, data[next..]);
  }

  lemma FieldsInPlace(data: seq<byte>, at: nat, n: nat, u: nat, p: nat, h: nat, size: nat)
    requires at + n + u + p + h <= |data|
    ensures Fields(data[at..], n, u, p, h, size)
         == Resource(data[at..at + n], data[at + n..at + n + u], data[at + n + u..at + n + u + p],
                     data[at + n + u + p..at + n + u + p + h], size)
  {
  }

  lemma TailOfTail(b: seq<byte>, k: nat, n: nat)
    requires k + n <= |b|
    ensures b[k..][n..] == b[k + n..] && b[k..][..n] == b[k..k + n]
  {
  }

  /** One turn of the loop of `deserialize`. */
  method ReadRecord(data: seq<byte>, datap: nat, pos: nat) returns (ok: bool, r: Resource, next: nat, pos1: nat)
    requires datap < |data|
    ensures ok <==> TakeRecord(data[datap..]).Some?
    ensures ok ==> datap < next <= |data| && pos1 - pos == next - datap
    ensures ok ==> TakeRecord(data[datap..]) == Some((r, data[next..]))
  {
    hide TakeSizes, FromLe, Fields;
    r := NO_RESOURCE;
    next, pos1 := datap + 1, pos + 1;
    var z;
    TailOfTail(data, datap, 1);
    ok, z, next, pos1 := ReadSizes(data[datap], data, next, pos1);
    if !ok { return; }
    if |data| < next + 8 + z.Total() {
      ok := false;
      return;
    }
    var size := FromLe(data[next..next + 8]);
    TailOfTail(data, next, 8);
    next := next + 8;
    FieldsInPlace(data, next, z.name, z.uri, z.path, z.hash, size);
    TailOfTail(data, next, z.Total());
    var name := data[next..next + z.name];
    next, pos1 := next + z.name, pos1 + z.name;
    var uri := data[next..next + z.uri];
    next, pos1 := next + z.uri, pos1 + z.uri;
    var path := data[next..next + z.path];
    next, pos1 := next + z.path, pos1 + z.path;
    var hash := data[next..next + z.hash];
    next, pos1 := next + z.hash, pos1 + z.hash;
    pos1 := pos1 + 8;
    r := Resource(name, uri, path, hash, size);
  }

  function Then(rs: seq<Resource>, o: Option<seq<Resource>>): Option<seq<Resource>> {
    match o
    case None => None
    case Some(x) => Some(rs + x)
  }

  lemma ThenNothing(o: Option<seq<Resource>>)
    ensures Then([], o) == o
  {
    if o.Some? { assert [] + o.value == o.value; }
  }

  lemma TakeStep(data: seq<byte>, limit: nat, rs: seq<Resource>, r: Resource, rest: seq<byte>)
    requires data != [] && limit > 0 && TakeRecord(data) == Some((r, rest))
    ensures Then(rs, Take(data, limit)) == Then(rs + [r], Take(rest, limit - 1))
  {
    if Take(rest, limit - 1).Some? {
      assert rs + ([r] + Take(rest, limit - 1).value) == rs + [r] + Take(rest, limit - 1).value;
    }
  }

  /** `pos`, which ends the loop, always equals the read offset `datap`. */
  method Deserialize(data: seq<byte>) returns (table: Option<seq<Resource>>, pos: nat)
    ensures table == Take(data, 4294967295)
    ensures table.Some? && |table.value| < 4294967295 ==> pos == |data|
  {
    hide TakeRecord;
    var rs := [];
    var datap, loop_time := 0, 0;
    pos := 0;
    ThenNothing(Take(data, LOOP_LIMIT));
    assert data[0..] == data;
    while pos < |data| && loop_time < LOOP_LIMIT
      invariant pos == datap <= |data| && |rs| == loop_time <= LOOP_LIMIT
      invariant Take(data, LOOP_LIMIT) == Then(rs, Take(data[datap..], LOOP_LIMIT - loop_time))
    {
      ghost var tail := data[datap..];
      loop_time := loop_time + 1;
      var ok, r, next, pos1 := ReadRecord(data, datap, pos);
      if !ok {
        return None, pos;
      }
      TakeStep(tail, LOOP_LIMIT - loop_time + 1, rs, r, data[next..]);
      datap, pos := next, pos1;
      rs := rs + [r];
    }
    assert rs + [] == rs;
    return Some(rs), pos;
  }
}
