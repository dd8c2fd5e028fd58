/** The message handlers of `LogicCore`, driving the mutable coordinator and file store. */
module LogicCore {
  import opened Basics
  import opened BlockRange
  import opened NetAddr
  import opened FileStore
  import opened SyncDecision
  import opened Messages
  import S = Scheduler
  import P = Partition
  import T = Transfer
  import O = Operations
  import C = Coordinator

  /** Sizes of the reads the system performs when asked for a range: all of it, in pieces that make progress. */
  type Reads = (nat, nat) -> seq<nat>

  ghost predicate ReadsProgress(file: Option<seq<byte>>, os: Reads) {
    file.Some? ==> forall off: nat, n: nat :: off < OFF_MAX && off < |file.value| ==>
      Moves(os(off, n), Min(off + n, |file.value|) - off) && 0 !in os(off, n)
  }

  function FileOf(files: map<Text, seq<byte>>, uri: Text): Option<seq<byte>> {
    if uri in files then Some(files[uri]) else None
  }

  class Core {
    const coor: C.TaskCoordinator
    const store: Files
    const hash: T.Hash

    ghost function View(): T.Node
      reads coor, coor.tm, store
    {
      T.Node(coor.State(), store.files)
    }

    constructor (coor: C.TaskCoordinator, store: Files, hash: T.Hash)
      ensures this.coor == coor && this.store == store && this.hash == hash
    {
      this.coor, this.store, this.hash := coor, store, hash;
    }

    /** Every wanted entry of the peer's table is announced to the coordinator, in uri order. */
    method RecvIdx(from: Addr, table: seq<Resource>, dead: set<Addr>)
      requires P.Partitioned(coor.State())
      modifies coor, coor.tm
      ensures View() == T.RecvIdx(old(View()), from, table, hash, dead) && P.Partitioned(coor.State())
    {
      hide NeedToSync, P.Partitioned, S.AddResource, T.AddAll;
      var need := NeedToSyncLoop(table, T.Listing(store.files, hash));
      ghost var s0 := coor.State();
      var i := 0;
      AddAllStep(s0, need, 0, from, dead);
      while i < |need|
        invariant i <= |need| && store.files == old(store.files)
        invariant coor.State() == T.AddAll(s0, need, i, from, dead)
        invariant P.Partitioned(coor.State())
      {
        AddAllStep(s0, need, i + 1, from, dead);
        coor.AddResource(need[i].uri, need[i].hash, need[i].size, from, dead);
        i := i + 1;
      }
    }

    method ReadDataThenReplyRs(uri: Text, b: Block, os: Reads) returns (replies: seq<Msg>)
      requires b.start < TWO64 && b.end < TWO64 && ReadsProgress(FileOf(store.files, uri), os)
      ensures replies == T.ReplyFor(uri, FileOf(store.files, uri), b, Sub64(b.end, b.start))
    {
      var size := Sub64(b.end, b.start);
      var data := store.Read(uri, b.start, size, os(b.start, size));
      if data.None? {
        return [];
      }
      return [Reply(uri, b, data.value)];
    }

    /** The batch loop of `reqRs`. */
    method Batches(uri: Text, r: Range, os: Reads) returns (replies: seq<Msg>)
      requires ReadsProgress(FileOf(store.files, uri), os)
      ensures replies == T.Batches(uri, FileOf(store.files, uri), r.start, r.end)
    {
      hide T.Batches, T.ReplyFor, ReadsProgress;
      replies := [];
      var offset := r.start;
      ghost var file := FileOf(store.files, uri);
      while offset < r.end
        invariant r.start <= offset <= r.end || offset == r.start
        invariant replies + T.Batches(uri, file, offset, r.end) == T.Batches(uri, file, r.start, r.end)
        decreases r.end - offset
      {
        var size := Min(BLOCK_SIZE, r.end - offset);
        var b := Block(offset, offset + size);
        var one := ReadDataThenReplyRs(uri, b, os);
        BatchesUnfold(uri, file, offset, r.end);
        AppendTwice(replies, one, T.Batches(uri, file, offset + size, r.end));
        replies := replies + one;
        offset := offset + b.Size();
      }
      BatchesUnfold(uri, file, offset, r.end);
    }

    /** `reqRs`: headers as found in the packet. None when `Range(std::string)` throws. */
    method ReqRs(uri: Option<Text>, range: Option<Text>, os: Reads) returns (replies: Option<seq<Msg>>)
      requires uri.Some? ==> ReadsProgress(FileOf(store.files, uri.value), os)
      ensures replies == if uri.None? || range.None? then Some([])
                         else if Parse(range.value).None? then None
                         else Some(T.Serve(uri.value, FileOf(store.files, uri.value), Parse(range.value).value))
    {
      if uri.None? || range.None? {
        return Some([]);
      }
      var parsed := Parse(range.value);
      if parsed.None? {
        return None;
      }
      var r := parsed.value;
      var ms;
      if r.Size() <= BLOCK_SIZE {
        ms := ReadDataThenReplyRs(uri.value, Block(r.start, r.end), os);
      } else {
        ms := Batches(uri.value, r, os);
      }
      return Some(ms);
    }

    /** `recvRs` once the bytes are saved: mark the block, judge a complete list, ask for more. */
    method BlockDone(uri: Text, b: Block, dead: set<Addr>)
      requires P.Partitioned(coor.State())
      modifies coor.tm
      ensures var s := S.Succeed(old(coor.State()), uri, b);
        coor.State() == S.Tick(T.Settle(s, uri, T.Judge(s, store.files, uri, hash)), 0, dead)
      ensures P.Partitioned(coor.State())
    {
      var tm := coor.tm;
      SettledPartitioned(coor.State(), uri, b, store.files, hash);
      tm.Success(uri, b);
      var all := tm.IsSuccess(uri);
      if all {
        var ri := coor.QueryResource(uri);
        if ri.Some? {
          var valid := uri in store.files && hash(store.files[uri]) == ri.value.hash;   // validRes
          if valid {
            tm.CancelTask(uri);
          } else {
            tm.Fail(uri);
          }
        } else {
          assert false;   // the source cancels the list; a list whose resource is unknown cannot exist
        }
      }
      coor.Tick(0, dead);
    }

    /** `recvRs`; false when `Range(std::string)` throws. `disk`: the file cannot be opened, or the sizes of the writes. */
    method RecvRs(uri: Option<Text>, range: Option<Text>, data: seq<byte>, disk: Option<seq<nat>>, dead: set<Addr>)
      returns (ok: bool)
      requires P.Partitioned(coor.State())
      requires range.Some? && Parse(range.value).Some? ==>
        var n := Parse(range.value).value.Size(); n <= |data| && (disk.Some? ==> WriteCounts(disk.value, n))
      modifies coor.tm, store
      ensures P.Partitioned(coor.State())
      ensures ok <==> uri.None? || range.None? || Parse(range.value).Some?
      ensures uri.Some? && range.Some? && ok && disk.Some? ==>
        var r := Parse(range.value).value;
        AllAtMost(disk.value, r.Size())
        && View() == T.RecvRs(old(View()), uri.value, Block(r.start, r.end), data[..r.Size()], disk.value, hash, dead)
      ensures uri.None? || range.None? || !ok || disk.None? ==> View() == old(View())
    {
      if uri.None? || range.None? {
        return true;
      }
      var parsed := Parse(range.value);
      if parsed.None? {
        return false;
      }
      var r := parsed.value;
      if disk.Some? {
        WriteCountsBounded(disk.value, r.Size());
        var n := store.SaveTo(uri.value, r.start, data[..r.Size()], disk.value);
        if n == r.Size() {
          BlockDone(uri.value, Block(r.start, r.end), dead);
        }
      }
      return true;
    }
  }

  lemma BatchesUnfold(uri: Text, file: Option<seq<byte>>, offset: nat, end: nat)
    ensures var size := Min(BLOCK_SIZE, end - offset);
      T.Batches(uri, file, offset, end) == if offset >= end then []
        else T.ReplyFor(uri, file, Block(offset, offset + size), size) + T.Batches(uri, file, offset + size, end)
  {
  }

  lemma AppendTwice<A>(a: seq<A>, b: seq<A>, c: seq<A>)
    ensures a + (b + c) == a + b + c
  {
  }

  lemma AddAllStep(s: S.Sched, rs: seq<Resource>, k: nat, from: Addr, dead: set<Addr>)
    requires k <= |rs|
    ensures T.AddAll(s, rs, k, from, dead) == if k == 0 then s
      else S.AddResource(T.AddAll(s, rs, k - 1, from, dead), rs[k - 1].uri, rs[k - 1].hash, rs[k - 1].size, from, dead)
  {
  }

  lemma SettledPartitioned(s: S.Sched, uri: Text, b: Block, files: map<Text, seq<byte>>, h: T.Hash)
    requires P.Partitioned(s)
    ensures var t := S.Succeed(s, uri, b); P.Partitioned(T.Settle(t, uri, T.Judge(t, files, uri, h)))
  {
    O.SucceedKeeps(s, uri, b);
    O.CancelKeeps(S.Succeed(s, uri, b), uri);
    O.FailKeeps(S.Succeed(s, uri, b), uri);
  }
}
