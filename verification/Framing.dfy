/** Reassembly of frames from a byte stream: however the bytes are cut into arrivals, the same frames come out. */
module Framing {
  import opened Basics
  import opened Packet

  const LIMIT: nat := 1024

  // ---------------------------------------------------------------- frames of a byte stream

  /** `isExtraAllDataNow`: length of the frame at the front, or 0 when it is not all there. */
  function FrameLen(b: seq<byte>): (n: nat)
    ensures n > 0 ==> LEN_HEADER <= n <= |b|
  {
    if |b| < LEN_HEADER then 0
    else
      var total := FromBe32(b[4..8]);
      if total < LEN_HEADER || total > |b| then 0 else total
  }

  function Frames(b: seq<byte>): seq<seq<byte>> {
    var n := FrameLen(b);
    if n == 0 then [] else [b[..n]] + Frames(b[n..])
  }

  /** What is left of `b` behind its frames. */
  function Rest(b: seq<byte>): seq<byte> {
    var n := FrameLen(b);
    if n == 0 then b else Rest(b[n..])
  }

  function Concat(fs: seq<seq<byte>>): seq<byte> {
    if fs == [] then [] else fs[0] + Concat(fs[1..])
  }

  /** The frame `read_cb` sees at the front: it reads the buffer length into 32 bits and looks no further. */
  function Seen(b: seq<byte>): (n: nat)
    ensures n <= |b| % TWO32 && (n > 0 ==> n >= LEN_HEADER)
  {
    FrameLen(b[..|b| % TWO32])
  }

  /** The first `k` frames seen in `b`, or all of them, and the bytes behind those. */
  function Drain(b: seq<byte>, k: nat): (seq<seq<byte>>, seq<byte>)
    decreases k
  {
    var n := Seen(b);
    if k == 0 || n == 0 then ([], b)
    else
      var (fs, rest) := Drain(b[n..], k - 1);
      ([b[..n]] + fs, rest)
  }

  lemma {:induction false} ConcatAppend(a: seq<seq<byte>>, b: seq<seq<byte>>)
    ensures Concat(a + b) == Concat(a) + Concat(b)
  {
    if a == [] {
      assert a + b == b;
    } else {
      assert (a + b)[1..] == a[1..] + b;
      ConcatAppend(a[1..], b);
    }
  }

  lemma FrontFrameStays(b: seq<byte>, c: seq<byte>)
    requires FrameLen(b) > 0
    ensures FrameLen(b + c) == FrameLen(b)
    ensures (b + c)[..FrameLen(b)] == b[..FrameLen(b)] && (b + c)[FrameLen(b)..] == b[FrameLen(b)..] + c
  {
    assert (b + c)[4..8] == b[4..8];
  }

  /** A frame seen is the frame at the front; below 4 GiB every one is seen. */
  lemma SeenIsFront(b: seq<byte>)
    ensures Seen(b) > 0 ==> FrameLen(b) == Seen(b)
    ensures |b| < TWO32 ==> Seen(b) == FrameLen(b)
  {
    var m := |b| % TWO32;
    assert b == b[..m] + b[m..];
    if Seen(b) > 0 { FrontFrameStays(b[..m], b[m..]); }
    if |b| < TWO32 { assert b[..m] == b; }
  }

  lemma {:induction false} DrainConserves(b: seq<byte>, k: nat)
    ensures var (fs, rest) := Drain(b, k);
      && Concat(fs) + rest == b && fs + Frames(rest) == Frames(b) && Rest(rest) == Rest(b)
      && (|b| < TWO32 ==> |fs| == Min(k, |Frames(b)|))
  {
    hide Seen, FrameLen;
    SeenIsFront(b);
    var n := Seen(b);
    if k > 0 && n > 0 {
      DrainConserves(b[n..], k - 1);
      var (fs, rest) := Drain(b[n..], k - 1);
      assert ([b[..n]] + fs)[1..] == fs;
      assert b[..n] + b[n..] == b;
    }
  }

  /** More bytes only add frames behind those already there. */
  lemma {:induction false} FramesOfMore(b: seq<byte>, c: seq<byte>)
    ensures Frames(b + c) == Frames(b) + Frames(Rest(b) + c)
    ensures Rest(b + c) == Rest(Rest(b) + c)
  {
    var n := FrameLen(b);
    if n > 0 {
      FrontFrameStays(b, c);
      FramesOfMore(b[n..], c);
    }
  }

  // ---------------------------------------------------------------- the connection

  /** One TCP connection: libevent's input buffer, and the frames handed to the session so far. */
  class Conn {
    var input: seq<byte>
    var delivered: seq<seq<byte>>

    constructor ()
      ensures input == [] && delivered == []
    {
      input, delivered := [], [];
    }

    /** `evbuffer_copyout` into the zeroed start of `head`. */
    method CopyOut(head: array<byte>, bytes: seq<byte>)
      requires |bytes| <= head.Length
      modifies head
      ensures head[..|bytes|] == bytes
    {
      forall i | 0 <= i < |bytes| {
        head[i] := bytes[i];
      }
    }

    /** `read_cb`. */
    method ReadCb()
      modifies this
      ensures input == Drain(old(input), LIMIT + 1).1
      ensures delivered == old(delivered) + Drain(old(input), LIMIT + 1).0
    {
      var recvLen := |input| % TWO32;
      if recvLen == 0 {
        DrainNone(input, delivered, LIMIT + 1);
        return;
      }
      var head := new byte[recvLen](_ => 0);
      var i := 0;
      while true
        invariant 0 <= i <= LIMIT && |input| % TWO32 <= head.Length && fresh(head)
        invariant Drain(old(input), LIMIT + 1).1 == Drain(input, LIMIT + 1 - i).1
        invariant old(delivered) + Drain(old(input), LIMIT + 1).0 == delivered + Drain(input, LIMIT + 1 - i).0
        decreases LIMIT - i
      {
        recvLen := |input| % TWO32;
        CopyOut(head, input[..recvLen]);
        var want := FrameLen(head[..recvLen]);
        DrainOne(input, delivered, LIMIT + 1 - i);
        if want == 0 || want > recvLen {
          break;
        }
        CopyOut(head, input[..want]);
        LengthAfter(|input|, want);
        input := input[want..];
        delivered := delivered + [head[..want]];
        if i >= LIMIT {
          break;
        }
        i := i + 1;
      }
      DrainNone(input, delivered, 0);
    }

    /** More bytes reach the connection. */
    method Receive(chunk: seq<byte>)
      modifies this
      ensures (delivered, input) == Arrival((old(delivered), old(input)), chunk)
    {
      input := input + chunk;
      ReadCb();
    }
  }

  lemma LengthAfter(n: nat, want: nat)
    requires want <= n % TWO32
    ensures (n - want) % TWO32 == n % TWO32 - want
  {
    ModUnique(n - want, TWO32, n / TWO32, n % TWO32 - want);
  }

  lemma DrainOne(b: seq<byte>, d: seq<seq<byte>>, k: nat)
    requires k > 0
    ensures Seen(b) == 0 ==> d + Drain(b, k).0 == d && Drain(b, k).1 == b
    ensures Seen(b) > 0 ==>
      && Drain(b, k).1 == Drain(b[Seen(b)..], k - 1).1
      && d + Drain(b, k).0 == d + [b[..Seen(b)]] + Drain(b[Seen(b)..], k - 1).0
  {
  }

  lemma DrainNone(b: seq<byte>, d: seq<seq<byte>>, k: nat)
    ensures |b| % TWO32 == 0 || k == 0 ==> Drain(b, k) == ([], b)
    ensures d + [] == d
  {
  }

  // ---------------------------------------------------------------- any chunking

  /** Delivered frames and buffered bytes after one more arrival and its callback. */
  function Arrival(st: (seq<seq<byte>>, seq<byte>), chunk: seq<byte>): (seq<seq<byte>>, seq<byte>) {
    var (fs, rest) := Drain(st.1 + chunk, LIMIT + 1);
    (st.0 + fs, rest)
  }

  function Arrivals(chunks: seq<seq<byte>>): (seq<seq<byte>>, seq<byte>) {
    if chunks == [] then ([], []) else Arrival(Arrivals(chunks[..|chunks| - 1]), chunks[|chunks| - 1])
  }

  function Received(chunks: seq<seq<byte>>): seq<byte> {
    if chunks == [] then [] else Received(chunks[..|chunks| - 1]) + chunks[|chunks| - 1]
  }

  /** The invariant: nothing is lost, and what is delivered is what the bytes alone determine. */
  ghost predicate Consistent(st: (seq<seq<byte>>, seq<byte>), received: seq<byte>) {
    && Concat(st.0) + st.1 == received
    && st.0 + Frames(st.1) == Frames(received)
    && Rest(st.1) == Rest(received)
  }

  lemma ArrivalConsistent(st: (seq<seq<byte>>, seq<byte>), received: seq<byte>, chunk: seq<byte>)
    requires Consistent(st, received)
    ensures Consistent(Arrival(st, chunk), received + chunk)
  {
    hide Frames, Rest, Concat, Drain;
    var b := st.1 + chunk;
    DrainConserves(b, LIMIT + 1);
    var (fs, rest) := Drain(b, LIMIT + 1);
    ConcatAppend(st.0, fs);
    FramesOfMore(received, chunk);
    FramesOfMore(st.1, chunk);
    assert Concat(st.0) + Concat(fs) + rest == Concat(st.0) + (Concat(fs) + rest) == Concat(st.0) + st.1 + chunk;
    assert st.0 + fs + Frames(rest) == st.0 + (fs + Frames(rest));
  }

  /**
   However bytes are cut into arrivals: delivered frames plus buffered bytes are the bytes received, and the delivered
   frames are a prefix of the frames those bytes spell, lacking exactly the complete frames still buffered.
   */
  lemma {:induction false} ChunkingConsistent(chunks: seq<seq<byte>>)
    ensures Consistent(Arrivals(chunks), Received(chunks))
  {
    if chunks != [] {
      ChunkingConsistent(chunks[..|chunks| - 1]);
      ArrivalConsistent(Arrivals(chunks[..|chunks| - 1]), Received(chunks[..|chunks| - 1]), chunks[|chunks| - 1]);
    }
  }

  /** A callback on less than 4 GiB leaves no complete frame behind exactly when at most 1025 were waiting. */
  lemma CallbackDrains(b: seq<byte>)
    requires |b| < TWO32
    ensures Frames(Drain(b, LIMIT + 1).1) == [] <==> |Frames(b)| <= 1025
  {
    DrainConserves(b, LIMIT + 1);
  }

  /** Two chunkings of the same bytes, neither of which ran into the limit last, delivered the same and buffer the same. */
  lemma ChunkingIndependent(a: seq<seq<byte>>, b: seq<seq<byte>>)
    requires Received(a) == Received(b)
    requires Frames(Arrivals(a).1) == [] && Frames(Arrivals(b).1) == []
    ensures Arrivals(a) == Arrivals(b)
  {
    hide Frames, Rest, Concat, Arrivals, Received;
    ChunkingConsistent(a);
    ChunkingConsistent(b);
    assert Arrivals(a).0 + [] == Arrivals(a).0;
    assert Arrivals(b).0 + [] == Arrivals(b).0;
    SamePrefixes(Concat(Arrivals(a).0), Arrivals(a).1, Arrivals(b).1);
  }

  lemma SamePrefixes(a: seq<byte>, x: seq<byte>, y: seq<byte>)
    requires a + x == a + y
    ensures x == y
  {
    assert x == (a + x)[|a|..];
    assert y == (a + y)[|a|..];
  }

  // ---------------------------------------------------------------- streams of packets

  ghost predicate Frame(f: seq<byte>) {
    |f| >= LEN_HEADER && FromBe32(f[4..8]) == |f|
  }

  ghost predicate AllFrame(fs: seq<seq<byte>>) {
    forall i :: 0 <= i < |fs| ==> Frame(fs[i])
  }

  lemma FrameAtFront(f: seq<byte>, rest: seq<byte>)
    requires Frame(f)
    ensures FrameLen(f + rest) == |f| && (f + rest)[..|f|] == f && (f + rest)[|f|..] == rest
  {
    assert (f + rest)[4..8] == f[4..8];
  }

  lemma {:induction false} FramesOfStream(fs: seq<seq<byte>>)
    requires AllFrame(fs)
    ensures Frames(Concat(fs)) == fs && Rest(Concat(fs)) == []
  {
    if fs != [] {
      FrameAtFront(fs[0], Concat(fs[1..]));
      FramesOfStream(fs[1..]);
    }
  }

  /**
   While a stream of frames is arriving in any pieces, the frames delivered are a prefix of those sent; once all
   bytes are there, all frames are delivered exactly when the buffer is empty.
   */
  lemma StreamDelivered(fs: seq<seq<byte>>, chunks: seq<seq<byte>>, later: seq<byte>)
    requires AllFrame(fs) && Received(chunks) + later == Concat(fs)
    ensures Arrivals(chunks).0 <= fs
    ensures later == [] ==> (Arrivals(chunks).0 == fs <==> Arrivals(chunks).1 == [])
  {
    hide Frames, Rest, Concat, Arrivals, Received, AllFrame;
    var (d, buf) := Arrivals(chunks);
    ChunkingConsistent(chunks);
    FramesOfStream(fs);
    FramesOfMore(Received(chunks), later);
    assert d + (Frames(buf) + Frames(Rest(Received(chunks)) + later)) == fs;
    if later == [] {
      assert Received(chunks) + later == Received(chunks);
      if d == fs {
        assert Concat(fs) + buf == Concat(fs) + [];
        SamePrefixes(Concat(fs), buf, []);
      }
      if buf == [] {
        assert Concat(d) + buf == Concat(d);
        assert Frames(buf) == [] by { NoBytesNoFrames(); }
        assert d + [] == d;
      }
    }
  }

  lemma NoBytesNoFrames()
    ensures Frames([]) == [] && Rest([]) == [] && Concat([]) == []
  {
  }

  /** 1026 complete frames in one arrival: the last one stays in the buffer until more bytes come. */
  lemma LastFrameIsStranded(fs: seq<seq<byte>>)
    requires AllFrame(fs) && |fs| == 1026 && |Concat(fs)| < TWO32
    ensures Arrivals([Concat(fs)]) == (fs[..1025], fs[1025])
  {
    hide Frames, Rest, Drain, AllFrame;
    FramesOfStream(fs);
    var b := Concat(fs);
    var (d, rest) := Drain(b, LIMIT + 1);
    DrainConserves(b, LIMIT + 1);
    var one: seq<seq<byte>> := [b];
    assert one[..0] == [] && Arrivals([]) == ([], []);
    assert [] + b == b && [] + d == d;
    assert d == fs[..LIMIT + 1] by { assert d == (d + Frames(rest))[..LIMIT + 1]; }
    assert fs == fs[..LIMIT + 1] + [fs[LIMIT + 1]];
    ConcatAppend(fs[..LIMIT + 1], [fs[LIMIT + 1]]);
    assert Concat([fs[LIMIT + 1]]) == fs[LIMIT + 1] + Concat([]) == fs[LIMIT + 1];
    SamePrefixes(Concat(d), rest, fs[LIMIT + 1]);
  }

  lemma PacketIsFrame(p: Pkt)
    requires Roomy(p)
    ensures Frame(Encode(p))
  {
    hide Roomy, HeaderBytes;
    BigEndianRoundTrip(p.headerLen, p.totalLen);
    assert Encode(p)[4..8] == Be32(p.totalLen);
  }

  ghost predicate AllRoomy(ps: seq<Pkt>) {
    forall i :: 0 <= i < |ps| ==> Roomy(ps[i]) && CleanHeaders(ps[i].headers)
  }

  ghost function EncodeAll(ps: seq<Pkt>): (fs: seq<seq<byte>>)
    requires AllRoomy(ps)
    ensures |fs| == |ps| && forall i :: 0 <= i < |ps| ==> fs[i] == Encode(ps[i])
  {
    seq(|ps|, i requires 0 <= i < |ps| => Encode(ps[i]))
  }

  /**
   Packets with clean headers, sent one after the other and cut into any pieces: each frame delivered parses to the
   packet sent in its place.
   */
  lemma PacketsDelivered(ps: seq<Pkt>, chunks: seq<seq<byte>>, later: seq<byte>, i: nat)
    requires AllRoomy(ps) && Received(chunks) + later == Concat(EncodeAll(ps))
    requires i < |Arrivals(chunks).0|
    ensures i < |ps| && Decode(Arrivals(chunks).0[i]) == Some(ps[i])
  {
    hide Arrivals, Received, Concat, Encode, Decode;
    var fs := EncodeAll(ps);
    forall j | 0 <= j < |fs| ensures Frame(fs[j]) { PacketIsFrame(ps[j]); }
    StreamDelivered(fs, chunks, later);
    PacketRoundTrip(ps[i], []);
    assert Encode(ps[i]) + [] == Encode(ps[i]);
  }
}
