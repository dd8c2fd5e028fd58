/** The block plan covers each file exactly, and every scheduler operation keeps every task list equal to its plan. */
module Partition {
  import opened Basics
  import opened BlockRange
  import opened NetAddr
  import opened Scheduler

  // ---------------------------------------------------------------- the plan

  lemma PlanCountArithmetic(size: nat)
    requires size > BLOCK_SIZE
    ensures size / BLOCK_SIZE <= Needed(size) <= size / BLOCK_SIZE + 1
    ensures BitPos(Needed(size) - 1) < size <= BitPos(Needed(size))
  {
  }

  lemma PastTheEnd(i: nat, size: nat)
    requires size > BLOCK_SIZE
    ensures BitPos(i) >= size <==> i >= Needed(size)
  {
  }

  /** The 32-bit loop bound stops the plan early exactly for files of 2^32 - 1 whole blocks or more. */
  lemma PlanCountExact(size: nat)
    ensures PlanCount(size) == Needed(size) <==> size / 1048576 + 1 < 0x1_0000_0000
  {
    if size > BLOCK_SIZE {
      PlanCountArithmetic(size);
      var q := size / BLOCK_SIZE + 1;
      if q < TWO32 {
        assert q % TWO32 == q;
      } else {
        assert q % TWO32 < TWO32 <= q;
        if q == TWO32 { assert q % TWO32 == 0; }
      }
    }
  }

  /** Whether block `i` of the plan holds byte `at`. */
  predicate Covers(i: nat, size: nat, at: nat) {
    PlanBlock(i, size).start <= at < PlanBlock(i, size).end
  }

  lemma CoversExactlyPos(i: nat, size: nat, at: nat)
    requires at < size
    ensures Covers(i, size, at) <==> i == at / BLOCK_SIZE
  {
    assert at / BLOCK_SIZE * BLOCK_SIZE <= at < at / BLOCK_SIZE * BLOCK_SIZE + BLOCK_SIZE;
  }

  /** Every byte lies in exactly one planned block, for every file the loop bound can plan. */
  lemma PlanTiles(size: nat, at: nat)
    requires at < size && size / 1048576 + 1 < 0x1_0000_0000
    ensures at / 1048576 < PlanCount(size)
    ensures forall i: nat :: i < PlanCount(size) ==> (Covers(i, size, at) <==> i == at / 1048576)
  {
    PlanCountExact(size);
    if size > BLOCK_SIZE {
      PlanCountArithmetic(size);
      assert BitPos(at / BLOCK_SIZE) <= at < BitPos(Needed(size));
    }
    forall i: nat | i < PlanCount(size) ensures Covers(i, size, at) <==> i == at / BLOCK_SIZE {
      CoversExactlyPos(i, size, at);
    }
  }

  /** The last byte of a file with 2^32 - 1 whole blocks or more is in no planned block. */
  lemma PlanTruncated(size: nat, at: nat)
    requires size / 1048576 + 1 >= 0x1_0000_0000 && at + 1 == size
    ensures forall i: nat :: i < PlanCount(size) ==> !Covers(i, size, at)
  {
    PlanCountExact(size);
    PlanCountArithmetic(size);
    forall i: nat | i < PlanCount(size) ensures !Covers(i, size, at) {
      assert i + 1 < Needed(size);
      assert BitPos(i) + BLOCK_SIZE == BitPos(i + 1) <= BitPos(Needed(size) - 1);
    }
  }

  lemma PlanBlockFacts(i: nat, size: nat)
    requires i < PlanCount(size)
    ensures PlanBlock(i, size).start <= PlanBlock(i, size).end <= size
    ensures PlanBlock(i, size).end - PlanBlock(i, size).start <= 1048576
    ensures size > 0 ==> PlanBlock(i, size).start < PlanBlock(i, size).end
    ensures Pos(PlanBlock(i, size).start) == i
  {
    PosOfBitPos(i);
    if size > BLOCK_SIZE {
      PlanCountArithmetic(size);
      assert BitPos(i) <= BitPos(Needed(size) - 1);
    }
  }

  lemma PlanBlocksDistinct(i: nat, j: nat, size: nat)
    requires PlanBlock(i, size) == PlanBlock(j, size)
    ensures i == j
  {
  }

  // ---------------------------------------------------------------- the invariant

  ghost predicate TaskPlanned(t: Task, u: Text, i: nat, info: ResourceInfo) {
    t.uri == u && t.total == info.size && t.block == PlanBlock(i, info.size) && t.ctx in info.owners
  }

  ghost predicate ListPlanned(ts: seq<Task>, u: Text, info: ResourceInfo) {
    |ts| == PlanCount(info.size) && 0 < |ts|
    && forall i :: 0 <= i < |ts| ==> TaskPlanned(ts[i], u, i, info)
  }

  ghost predicate ResourceOk(u: Text, info: ResourceInfo) {
    info.uri == u && info.owners != []
  }

  /** Entry `i` of every list holds planned block `i`, the list is complete, and its tasks ask known owners. */
  ghost predicate Partitioned(s: Sched) {
    (forall u :: u in s.res ==> ResourceOk(u, s.res[u]))
    && (forall u :: u in s.tasks ==> u in s.res && ListPlanned(s.tasks[u], u, s.res[u]))
  }

  /** `Stop` only exists inside `assignTask`. */
  ghost predicate NoneStopped(s: Sched) {
    forall x: Slot :: s.Has(x) ==> s.At(x).status != Stop
  }

  ghost predicate SameShape(s: Sched, t: Sched) {
    s.tasks.Keys == t.tasks.Keys && s.res == t.res
    && forall u :: u in s.tasks ==> |s.tasks[u]| == |t.tasks[u]|
  }

  ghost predicate SameElsewhere(s: Sched, t: Sched, x: Slot) {
    forall y: Slot :: s.Has(y) && t.Has(y) && y != x ==> t.At(y) == s.At(y)
  }

  lemma PutKeeps(s: Sched, x: Slot, t: Task)
    requires Partitioned(s) && s.Has(x)
    requires TaskPlanned(t, x.uri, x.i, s.res[x.uri])
    ensures var r := s.Put(x, t);
      Partitioned(r) && SameShape(s, r) && SameElsewhere(s, r, x) && r.Has(x) && r.At(x) == t
  {
  }

  lemma NextOwnerIsOwner(owners: seq<Addr>, ctx: Addr)
    requires ctx in owners
    ensures OwnerIndex(owners, ctx) < |owners|
    ensures NextOwner(owners, ctx) in owners
  {
    var k :| 0 <= k < |owners| && owners[k] == ctx;
    assert owners[k].Same(ctx);
  }

  /** The failover callback rewrites the slot it was called for, and only its owner. */
  lemma ReAssignIsLocal(s: Sched, x: Slot)
    requires Partitioned(s) && s.Has(x) && s.At(x).status != Success
    ensures var t := s.At(x);
      ReAssign(s, t.uri, t.block, t.ctx) == s.Put(x, t.(ctx := NextOwner(s.res[x.uri].owners, t.ctx)))
  {
    var t := s.At(x);
    var info := s.res[x.uri];
    assert TaskPlanned(t, x.uri, x.i, info);
    NextOwnerIsOwner(info.owners, t.ctx);
    PlanBlockFacts(x.i, info.size);
  }

  /** What a visit does to the slot it visits. */
  ghost function Visited(t: Task, downloads: uint8, owners: seq<Addr>, ms: uint64, dead: set<Addr>): Task {
    match t.status
    case Pendding => if downloads >= DOWNLOAD_LIMIT then t else Request(t, t.ctx !in dead)
    case Syning => TickTask(t, ms)
    case Failed => t.(ctx := NextOwner(owners, t.ctx))
    case Stop => t
    case Success => t
  }

  lemma VisitIsLocal(s: Sched, x: Slot, ms: uint64, dead: set<Addr>)
    requires Partitioned(s) && s.Has(x)
    ensures var r := TickSlot(s, x, ms, dead);
      && Partitioned(r) && SameShape(s, r) && SameElsewhere(s, r, x)
      && r.At(x) == Visited(s.At(x), s.downloads, s.res[x.uri].owners, ms, dead)
      && (if s.At(x).status == Pendding && s.downloads < DOWNLOAD_LIMIT
          then r.downloads == s.downloads + 1
               && r.out == s.out + [Sent(s.At(x).ctx, x.uri, s.At(x).block, s.At(x).ctx !in dead)]
          else r.downloads == s.downloads && r.out == s.out)
  {
    var t := s.At(x);
    var info := s.res[x.uri];
    assert TaskPlanned(t, x.uri, x.i, info);
    match t.status
    case Pendding => PutKeeps(s, x, Request(t, t.ctx !in dead));
    case Syning => PutKeeps(s, x, TickTask(t, ms));
    case Failed =>
      ReAssignIsLocal(s, x);
      NextOwnerIsOwner(info.owners, t.ctx);
      PutKeeps(s, x, t.(ctx := NextOwner(info.owners, t.ctx)));
    case Stop =>
    case Success =>
  }
}
