/** Both ends of a transfer: what a node does on an index, on a request for a range, and on a reply. */
module Transfer {
  import opened Basics
  import opened BlockRange
  import opened NetAddr
  import opened TextOrder
  import opened Scheduler
  import opened FileStore
  import opened SyncDecision
  import opened Messages

  type Hash = seq<byte> -> Text

  // ---------------------------------------------------------------- serving a range

  /** `readDataThenReplyRs`: at most one reply. */
  function ReplyFor(uri: Text, file: Option<seq<byte>>, b: Block, size: nat): seq<Msg> {
    match ReadFrom(file, b.start, size)
    case None => []
    case Some(data) => [Reply(uri, b, data)]
  }

  function Batches(uri: Text, file: Option<seq<byte>>, offset: nat, end: nat): seq<Msg>
    decreases end - offset
  {
    if offset >= end then []
    else
      var size := Min(BLOCK_SIZE, end - offset);
      ReplyFor(uri, file, Block(offset, offset + size), size) + Batches(uri, file, offset + size, end)
  }

  /** `reqRs` for a parsed range. */
  function Serve(uri: Text, file: Option<seq<byte>>, r: Range): seq<Msg> {
    if r.Size() <= BLOCK_SIZE then ReplyFor(uri, file, Block(r.start, r.end), r.Size())
    else Batches(uri, file, r.start, r.end)
  }

  function Payloads(ms: seq<Msg>): seq<byte>
    requires forall m :: m in ms ==> m.Reply?
  {
    if ms == [] then [] else ms[0].data + Payloads(ms[1..])
  }

  /** Replies in order, each of 1 to BLOCK_SIZE bytes, whose ranges run from `start` to `end` without gap or overlap. */
  ghost predicate Tiles(ms: seq<Msg>, uri: Text, start: nat, end: nat) {
    if ms == [] then start == end
    else
      && ms[0].Reply? && ms[0].uri == uri && ms[0].block.start == start
      && start < ms[0].block.end <= end && ms[0].block.end - start <= 1048576
      && |ms[0].data| == ms[0].block.end - start
      && Tiles(ms[1..], uri, ms[0].block.end, end)
  }

  function Pieces(n: nat): nat {
    (n + 1048575) / 1048576
  }

  lemma ReadSliceSplits(f: seq<byte>, off: nat, n: nat, m: nat)
    ensures ReadSlice(f, off, n) + ReadSlice(f, off + n, m) == ReadSlice(f, off, n + m)
  {
  }

  /** Where a served range stops: at its end, or behind the last batch whose offset `lseek` accepts. */
  function Served(offset: nat, end: nat): (stop: nat)
    requires offset <= end
    ensures offset <= stop <= end && (stop == end || stop >= 0x8000_0000_0000_0000) && (end <= 0x8000_0000_0000_0000 ==> stop == end)
    decreases end - offset
  {
    if offset == end || offset >= OFF_MAX then offset else Served(offset + Min(BLOCK_SIZE, end - offset), end)
  }

  lemma BatchesStep(uri: Text, f: seq<byte>, offset: nat, end: nat)
    requires offset < end && offset < OFF_MAX
    ensures var size := Min(BLOCK_SIZE, end - offset);
      Batches(uri, Some(f), offset, end)
      == [Reply(uri, Block(offset, offset + size), ReadSlice(f, offset, size))] + Batches(uri, Some(f), offset + size, end)
  {
  }

  lemma {:induction false} NothingBeyond(uri: Text, f: seq<byte>, offset: nat, end: nat)
    requires offset >= OFF_MAX
    ensures Batches(uri, Some(f), offset, end) == []
    decreases end - offset
  {
    if offset < end { NothingBeyond(uri, f, offset + Min(BLOCK_SIZE, end - offset), end); }
  }

  lemma {:induction false} BatchesTile(uri: Text, f: seq<byte>, offset: nat, end: nat)
    requires offset <= end
    ensures var ms, stop := Batches(uri, Some(f), offset, end), Served(offset, end);
      Tiles(ms, uri, offset, stop) && |ms| == Pieces(stop - offset) && forall m :: m in ms ==> m.Reply?
    decreases end - offset
  {
    if offset >= OFF_MAX {
      NothingBeyond(uri, f, offset, end);
    } else if offset < end {
      var size := Min(BLOCK_SIZE, end - offset);
      BatchesTile(uri, f, offset + size, end);
      BatchesStep(uri, f, offset, end);
      var ms := Batches(uri, Some(f), offset, end);
      assert ms[1..] == Batches(uri, Some(f), offset + size, end);
      PiecesStep(offset, size, end);
    }
  }

  lemma PiecesStep(offset: nat, size: nat, end: nat)
    requires offset < end && offset < OFF_MAX && size == Min(BLOCK_SIZE, end - offset)
    ensures Pieces(Served(offset, end) - offset) == 1 + Pieces(Served(offset + size, end) - (offset + size))
  {
  }

  lemma {:induction false} BatchesPayload(uri: Text, f: seq<byte>, offset: nat, end: nat)
    requires offset <= end
    ensures var ms := Batches(uri, Some(f), offset, end);
      (forall m :: m in ms ==> m.Reply?) && Payloads(ms) == ReadSlice(f, offset, Served(offset, end) - offset)
    decreases end - offset
  {
    hide Tiles, Pieces, ReadSlice, ReplyFor;
    BatchesTile(uri, f, offset, end);
    if offset >= OFF_MAX {
      NothingBeyond(uri, f, offset, end);
    } else if offset < end {
      var size := Min(BLOCK_SIZE, end - offset);
      BatchesPayload(uri, f, offset + size, end);
      BatchesStep(uri, f, offset, end);
      var ms := Batches(uri, Some(f), offset, end);
      assert ms[1..] == Batches(uri, Some(f), offset + size, end);
      ReadSliceSplits(f, offset, size, Served(offset, end) - offset - size);
    }
  }

  /**
   A non-empty range of a file is answered by exactly enough replies, in order, tiling the range up to where its
   offsets are accepted, and their payloads put together are that slice of the file.
   */
  lemma ServeTiles(uri: Text, f: seq<byte>, r: Range)
    requires r.start < r.end
    ensures var ms, stop := Serve(uri, Some(f), r), Served(r.start, r.end);
      && Tiles(ms, uri, r.start, stop) && |ms| == Pieces(stop - r.start)
      && (forall m :: m in ms ==> m.Reply?)
      && Payloads(ms) == ReadSlice(f, r.start, stop - r.start)
      && (r.end <= |f| && r.end <= OFF_MAX ==> Payloads(ms) == f[r.start..r.end])
  {
    hide Batches, Tiles, Payloads, ReadSlice, ReplyFor, Pieces, Served;
    BatchesTile(uri, f, r.start, r.end);
    BatchesPayload(uri, f, r.start, r.end);
    if r.Size() <= BLOCK_SIZE { OneBatchServes(uri, f, r); }
    if r.end <= |f| && r.end <= OFF_MAX {
      WholeSlice(f, r.start, r.end);
    }
  }

  lemma WholeSlice(f: seq<byte>, start: nat, end: nat)
    requires start <= end <= |f|
    ensures ReadSlice(f, start, end - start) == f[start..end]
  {
  }

  /** An empty range draws one empty reply from a file that can be opened there, and a reversed one draws nothing. */
  lemma ServeEmptyOrReversed(uri: Text, file: Option<seq<byte>>, r: Range)
    requires r.start >= r.end
    ensures Serve(uri, file, r) == if r.start == r.end && file.Some? && r.start < 0x8000_0000_0000_0000
                                   then [Reply(uri, Block(r.start, r.start), [])] else []
  {
  }

  /** A range of at most one block is answered as the batch loop would. */
  lemma OneBatchServes(uri: Text, f: seq<byte>, r: Range)
    requires r.start < r.end && r.end - r.start <= BLOCK_SIZE
    ensures ReplyFor(uri, Some(f), Block(r.start, r.end), r.end - r.start) == Batches(uri, Some(f), r.start, r.end)
  {
    assert Batches(uri, Some(f), r.end, r.end) == [];
  }

  // ---------------------------------------------------------------- receiving

  datatype Node = Node(sched: Sched, files: map<Text, seq<byte>>)

  function Entry(files: map<Text, seq<byte>>, u: Text, h: Hash): Resource
    requires u in files
  {
    Resource([], u, [], h(files[u]), |files[u]|)
  }

  /** `idx()`: one entry per local file. The decision taken from it does not depend on its order. */
  function Listing(files: map<Text, seq<byte>>, h: Hash): (r: seq<Resource>)
    ensures |r| == |Sorted(files.Keys)|
    ensures forall i :: 0 <= i < |r| ==> Sorted(files.Keys)[i] in files && r[i] == Entry(files, Sorted(files.Keys)[i], h)
  {
    var us := Sorted(files.Keys);
    assert forall i :: 0 <= i < |us| ==> us[i] in us && us[i] in files;
    seq(|us|, i requires 0 <= i < |us| => Entry(files, us[i], h))
  }

  function AddAll(s: Sched, rs: seq<Resource>, k: nat, from: Addr, dead: set<Addr>): Sched
    requires k <= |rs|
  {
    if k == 0 then s
    else
      var r := rs[k - 1];
      AddResource(AddAll(s, rs, k - 1, from, dead), r.uri, r.hash, r.size, from, dead)
  }

  function RecvIdx(n: Node, from: Addr, table: seq<Resource>, h: Hash, dead: set<Addr>): Node {
    var need := NeedToSync(table, Listing(n.files, h));
    n.(sched := AddAll(n.sched, need, |need|, from, dead))
  }

  predicate Valid(files: map<Text, seq<byte>>, uri: Text, hash: Text, h: Hash) {
    uri in files && h(files[uri]) == hash
  }

  datatype Verdict = Unfinished | Verified | Mismatch | Unknown

  /** What `recvRs` finds once a block is marked. */
  function Judge(s: Sched, files: map<Text, seq<byte>>, uri: Text, h: Hash): Verdict {
    if !IsSuccess(s, uri) then Unfinished
    else if uri !in s.res then Unknown
    else if Valid(files, uri, s.res[uri].hash, h) then Verified
    else Mismatch
  }

  function Settle(s: Sched, uri: Text, v: Verdict): Sched {
    match v
    case Unfinished => s
    case Verified => CancelTask(s, uri)
    case Mismatch => Fail(s, uri)
    case Unknown => CancelTask(s, uri)
  }

  /** The file as `save` leaves it. */
  function Saved(files: map<Text, seq<byte>>, uri: Text, off: nat, data: seq<byte>, counts: seq<nat>): map<Text,
        seq<byte>>
    requires AllAtMost(counts, |data|)
  {
    files[uri := Written(if uri in files then files[uri] else [], off, data, counts)]
  }

  /** `recvRs` after a successful save; `counts` are the sizes of the writes the system performed. */
  function RecvRs(n: Node, uri: Text, b: Block, data: seq<byte>, counts: seq<nat>, h: Hash, dead: set<Addr>): Node
    requires AllAtMost(counts, |data|)
  {
    var files := Saved(n.files, uri, b.start, data, counts);
    var s := Succeed(n.sched, uri, b);
    Node(Tick(Settle(s, uri, Judge(s, files, uri, h)), 0, dead), files)
  }
}
