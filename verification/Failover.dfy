/** Failed blocks walking round the owners over ticks, and owners joining mid-transfer. */
module Failover {
  import opened Basics
  import opened BlockRange
  import opened NetAddr
  import opened TextOrder
  import opened Scheduler
  import opened Partition
  import opened Operations
  import opened Rotation
  import opened Accounts

  /** One firing of the coordinator's timer: elapsed milliseconds, and the peers whose connection is gone. */
  datatype Beat = Beat(ms: uint64, dead: set<Addr>)

  function Ticks(s: Sched, beats: seq<Beat>): Sched {
    if beats == [] then s
    else
      var b := beats[|beats| - 1];
      Tick(Ticks(s, beats[..|beats| - 1]), b.ms, b.dead)
  }

  lemma {:induction false} TicksKeepShape(s: Sched, beats: seq<Beat>)
    requires Partitioned(s)
    ensures Partitioned(Ticks(s, beats)) && SameShape(s, Ticks(s, beats))
  {
    if beats != [] {
      var init, b := beats[..|beats| - 1], beats[|beats| - 1];
      TicksKeepShape(s, init);
      TickKeeps(Ticks(s, init), b.ms, b.dead);
    }
  }

  // ---------------------------------------------------------------- requests are never repeated

  ghost predicate SentFor(e: Sent, u: Text, b: Block) {
    e.uri == u && e.block == b
  }

  /** No entry written between `s` and `r` asks for this block. */
  ghost predicate Unsent(s: Sched, r: Sched, u: Text, b: Block) {
    s.out <= r.out && forall k :: |s.out| <= k < |r.out| ==> !SentFor(r.out[k], u, b)
  }

  lemma {:induction false} TickSlotsUnsent(s: Sched, xs: seq<Slot>, x: Slot, ms: uint64, dead: set<Addr>)
    requires Partitioned(s) && s.Has(x) && s.At(x).status != Pendding && forall y :: y in xs ==> s.Has(y)
    ensures var r := TickSlots(s, xs, ms, dead);
      r.Has(x) && r.At(x).status != Pendding && Unsent(s, r, x.uri, s.At(x).block)
  {
    if xs != [] {
      var init, y := xs[..|xs| - 1], xs[|xs| - 1];
      var m := TickSlots(s, init, ms, dead);
      TickSlotsUnsent(s, init, x, ms, dead);
      TicksKeep(s, init, ms, dead);
      assert s.Has(y) && |m.tasks[y.uri]| == |s.tasks[y.uri]|;
      VisitIsLocal(m, y, ms, dead);
      assert TaskPlanned(m.At(y), y.uri, y.i, s.res[y.uri]);
      assert TaskPlanned(s.At(x), x.uri, x.i, s.res[x.uri]);
      if y != x && y.uri == x.uri && m.At(y).block == s.At(x).block {
        PlanBlocksDistinct(x.i, y.i, s.res[x.uri].size);
      }
    }
  }

  lemma TickUnsent(s: Sched, x: Slot, ms: uint64, dead: set<Addr>)
    requires Partitioned(s) && s.Has(x) && s.At(x).status != Pendding
    ensures var r := Tick(s, ms, dead);
      r.Has(x) && r.At(x).status != Pendding && Unsent(s, r, x.uri, s.At(x).block)
  {
    AllSlotsOnce(s.tasks);
    TickSlotsUnsent(s, AllSlots(s.tasks), x, ms, dead);
  }

  // ---------------------------------------------------------------- failover

  /** A failed block takes one step of the owners' walk at each tick, changes in nothing else, and is never asked for again. */
  lemma {:induction false} FailedTaskWalks(s: Sched, beats: seq<Beat>, x: Slot)
    requires Partitioned(s) && s.Has(x) && s.At(x).status == Failed
    ensures var r := Ticks(s, beats);
      && r.Has(x)
      && r.At(x) == s.At(x).(ctx := Walk(s.res[x.uri].owners, s.At(x).ctx, |beats|))
      && Unsent(s, r, x.uri, s.At(x).block)
  {
    if beats != [] {
      var init, b := beats[..|beats| - 1], beats[|beats| - 1];
      FailedTaskWalks(s, init, x);
      TicksKeepShape(s, init);
      TickUnsent(Ticks(s, init), x, b.ms, b.dead);
      TickFailed(Ticks(s, init), x, b.ms, b.dead);
    }
  }

  lemma {:induction false} WalkOfDifferent(owners: seq<Addr>, j: nat, k: nat)
    requires PairwiseDifferent(owners) && j < |owners|
    ensures Walk(owners, owners[j], k) == owners[(j + k) % |owners|]
  {
    hide NextOwner, PairwiseDifferent;
    if k == 0 {
      ModUnique(j, |owners|, 0, j);
    } else {
      WalkOfDifferent(owners, j, k - 1);
      NextOfDifferent(owners, (j + k - 1) % |owners|);
      ModStep(j + k - 1, |owners|);
    }
  }

  lemma NextOfDifferent(owners: seq<Addr>, p: nat)
    requires PairwiseDifferent(owners) && p < |owners|
    ensures NextOwner(owners, owners[p]) == owners[After(p, |owners|)]
  {
    assert OwnerIndex(owners, owners[p]) == p;
  }

  /** With pairwise different owners: from owner j to owner (j + k) mod n in k ticks, without a request. */
  lemma FailedTaskRotates(s: Sched, beats: seq<Beat>, x: Slot, j: nat)
    requires Partitioned(s) && s.Has(x) && s.At(x).status == Failed
    requires PairwiseDifferent(s.res[x.uri].owners)
    requires j < |s.res[x.uri].owners| && s.At(x).ctx == s.res[x.uri].owners[j]
    ensures var r, owners := Ticks(s, beats), s.res[x.uri].owners;
      && r.Has(x)
      && r.At(x) == s.At(x).(ctx := owners[(j + |beats|) % |owners|])
      && Unsent(s, r, x.uri, s.At(x).block)
  {
    hide Walk, Tick, Ticks;
    FailedTaskWalks(s, beats, x);
    WalkOfDifferent(s.res[x.uri].owners, j, |beats|);
  }

  /** After `k` ticks the failed block is at owner `m` exactly when the walk over its owners is. */
  lemma FailoverVisits(s: Sched, beats: seq<Beat>, x: Slot, i: nat, m: nat)
    requires Partitioned(s) && s.Has(x) && s.At(x).status == Failed
    requires i < |s.res[x.uri].owners| && m < |s.res[x.uri].owners| && s.At(x).ctx == s.res[x.uri].owners[i]
    ensures Ticks(s, beats).Has(x)
    ensures Ticks(s, beats).At(x).ctx.Same(s.res[x.uri].owners[m]) <==> VisitedAt(s.res[x.uri].owners, i, m, |beats|)
  {
    FailedTaskWalks(s, beats, x);
  }

  /** Some sequence of ticks brings the failed block to owner `m` exactly when the owners' walk reaches it. */
  lemma FailoverReaches(s: Sched, x: Slot, m: nat)
    requires Partitioned(s) && s.Has(x) && s.At(x).status == Failed && m < |s.res[x.uri].owners|
    ensures (exists beats :: Ticks(s, beats).Has(x) && Ticks(s, beats).At(x).ctx.Same(s.res[x.uri].owners[m]))
            <==> Reaches(s.res[x.uri].owners, s.At(x).ctx, s.res[x.uri].owners[m])
  {
    var owners, a := s.res[x.uri].owners, s.At(x).ctx;
    if beats :| Ticks(s, beats).Has(x) && Ticks(s, beats).At(x).ctx.Same(owners[m]) {
      FailedTaskWalks(s, beats, x);
      assert Walk(owners, a, |beats|).Same(owners[m]);
    }
    if k: nat :| Walk(owners, a, k).Same(owners[m]) {
      var beats := seq(k, (i: nat) => Beat(0, {}));
      FailedTaskWalks(s, beats, x);
      assert Ticks(s, beats).Has(x) && Ticks(s, beats).At(x).ctx.Same(owners[m]);
    }
  }

  // ---------------------------------------------------------------- a trap that is reached

  /** Owner `a` cannot be written to, then `b`, `a` again and `c` announce the same file of one byte. */
  function TrapOps(u: Text, hash: Text, a: Addr, b: Addr, c: Addr): seq<Op> {
    [OpAnnounce(u, hash, 1, a, {a}), OpAnnounce(u, hash, 1, b, {}), OpAnnounce(u, hash, 1, a, {}), OpAnnounce(u, hash, 1, c, {})]
  }

  ghost predicate FailedAt(s: Sched, u: Text, owners: seq<Addr>) {
    && Partitioned(s) && NoneStopped(s) && u in s.tasks && |s.tasks[u]| == 1 && s.tasks[u][0].status == Failed
    && s.res[u].size == 1 && s.res[u].owners == owners
  }

  lemma FirstOwnerDead(u: Text, hash: Text, a: Addr)
    ensures FailedAt(AddResource(EMPTY, u, hash, 1, a, {a}), u, [a])
  {
    hide Tick;
    var info := ResourceInfo(u, hash, 1, [a]);
    var s := EMPTY.(res := EMPTY.res[u := info]);
    var p := s.(tasks := s.tasks[u := [PlanTask(info, 0)]]);
    ReplanShape(s, info);
    var r := Replan(s, info);
    assert r.tasks[u] == [PlanTask(info, 0)];
    assert r.tasks.Keys == {u} by { assert r.tasks - {u} == s.tasks - {u}; OnlyKey(r.tasks, u); }
    assert r == p;
    assert Partitioned(p);
    TickKeeps(p, 0, {a});
    DeadTick(p, u, a);
  }

  lemma OnlyKey(m: map<Text, seq<Task>>, u: Text)
    requires m - {u} == map[] && u in m
    ensures m.Keys == {u}
  {
    assert forall k :: k in m && k != u ==> k in m - {u};
  }

  lemma OneSlotTick(p: Sched, u: Text, ms: uint64, dead: set<Addr>)
    requires p.tasks.Keys == {u} && |p.tasks[u]| == 1
    ensures Tick(p, ms, dead) == TickSlot(p, Slot(u, 0), ms, dead)
  {
    hide TickSlot;
    SortedOne(u);
    assert SlotsUpTo(p.tasks, [u], 0) == [];
    assert AllSlots(p.tasks) == [Slot(u, 0)];
    TickSlotsStep(p, [], Slot(u, 0), ms, dead);
    assert [] + [Slot(u, 0)] == [Slot(u, 0)];
  }

  /** One waiting block at an unreachable owner: the tick asks, the write fails. */
  lemma DeadTick(p: Sched, u: Text, a: Addr)
    requires Partitioned(p) && p.tasks.Keys == {u} && |p.tasks[u]| == 1 && p.downloads == 0
    requires p.tasks[u][0].status == Pendding && p.tasks[u][0].ctx == a
    ensures var r := Tick(p, 0, {a}); NoneStopped(r) && u in r.tasks && |r.tasks[u]| == 1 && r.tasks[u][0].status == Failed
  {
    hide Tick;
    OneSlotTick(p, u, 0, {a});
  }

  lemma NextOwnerFails(s: Sched, u: Text, hash: Text, owners: seq<Addr>, from: Addr)
    requires FailedAt(s, u, owners)
    ensures var r := AddResource(s, u, hash, 1, from, {});
      FailedAt(r, u, owners + [from]) && r.tasks[u][0].ctx == NextOwner(owners + [from], (owners + [from])[0])
  {
    OwnerJoinKeepsProgress(s, u, hash, 1, from, {}, 0);
    AddResourceKeeps(s, u, hash, 1, from, {});
    JoinNoneStopped(s, u, hash, from);
  }

  lemma JoinNoneStopped(s: Sched, u: Text, hash: Text, from: Addr)
    requires Partitioned(s) && NoneStopped(s) && u in s.tasks
    ensures NoneStopped(AddResource(s, u, hash, s.res[u].size, from, {}))
  {
    hide Replan, Tick;
    var info := s.res[u].(owners := s.res[u].owners + [from]);
    var a := s.(res := s.res[u := info]);
    AnnounceKeeps(s, u, hash, info.size, from);
    forall y: Slot | a.Has(y) ensures a.At(y).status != Stop { assert s.Has(y) && s.At(y).status != Stop; }
    ReplanSlots(a, info);
    var p := Replan(a, info);
    forall y: Slot | p.Has(y) ensures p.At(y).status != Stop {
      if a.Has(y) { assert a.At(y).status != Stop; }
    }
    TickNoneStopped(p, 0, {});
  }

  /**
   A duplicated owner traps the walk: the owners become a, b, a, c, whose first repeat is followed by a new owner, and
   from then on no number of ticks ever brings the block to c.
   */
  lemma DuplicateOwnerTraps(u: Text, hash: Text, a: Addr, b: Addr, c: Addr, beats: seq<Beat>)
    requires PairwiseDifferent([a, b, c])
    ensures var s := RunOps(EMPTY, TrapOps(u, hash, a, b, c));
      && FailedAt(s, u, [a, b, a, c]) && !Rotates([a, b, a, c])
      && Ticks(s, beats).Has(Slot(u, 0)) && !Ticks(s, beats).At(Slot(u, 0)).ctx.Same(c)
  {
    hide AddResource, Tick, NextOwner;
    var s1 := AddResource(EMPTY, u, hash, 1, a, {a});
    var s2 := AddResource(s1, u, hash, 1, b, {});
    var s3 := AddResource(s2, u, hash, 1, a, {});
    var s4 := AddResource(s3, u, hash, 1, c, {});
    FirstOwnerDead(u, hash, a);
    NextOwnerFails(s1, u, hash, [a], b);
    NextOwnerFails(s2, u, hash, [a] + [b], a);
    NextOwnerFails(s3, u, hash, [a] + [b] + [a], c);
    assert [a] + [b] + [a] + [c] == [a, b, a, c];
    TrapOpsRun(u, hash, a, b, c);
    TrapMoves(a, b, c);
    FailedTaskWalks(s4, beats, Slot(u, 0));
    var owners := [a, b, a, c];
    WalkStays(owners, 0, b, |beats|);
    SameIsSameIndex(owners, Walk(owners, b, |beats|), 3);
  }

  lemma TrapOpsRun(u: Text, hash: Text, a: Addr, b: Addr, c: Addr)
    ensures RunOps(EMPTY, TrapOps(u, hash, a, b, c))
         == AddResource(AddResource(AddResource(AddResource(
              EMPTY, u, hash, 1, a, {a}), u, hash, 1, b, {}), u, hash, 1, a, {}), u, hash, 1, c, {})
  {
    hide AddResource;
    var ops := TrapOps(u, hash, a, b, c);
    assert ops[..3][..2] == ops[..2] && ops[..2][..1] == ops[..1] && ops[..1][..0] == [];
    assert RunOps(EMPTY, ops[..0]) == EMPTY;
    assert RunOps(EMPTY, ops[..1]) == Do(EMPTY, ops[0]);
    assert RunOps(EMPTY, ops[..2]) == Do(RunOps(EMPTY, ops[..1]), ops[1]);
    assert RunOps(EMPTY, ops[..3]) == Do(RunOps(EMPTY, ops[..2]), ops[2]);
  }

  lemma TrapMoves(a: Addr, b: Addr, c: Addr)
    requires PairwiseDifferent([a, b, c])
    ensures var owners := [a, b, a, c];
      && FirstRepeat(owners) == 2 && First(owners, 2) == 0 && First(owners, 3) == 3
      && NextOwner(owners, a) == b && OwnerIndex(owners, b) == 1
  {
    var owners := [a, b, a, c];
    assert [a, b, c][0] == a && [a, b, c][1] == b && [a, b, c][2] == c;
    assert owners[0] == a && owners[1] == b && owners[2] == a && owners[3] == c;
    assert First(owners, 0) == 0 && First(owners, 1) == 1 && First(owners, 2) == 0 && First(owners, 3) == 3;
  }

  // ---------------------------------------------------------------- a new owner joins

  lemma JoinPlan(s: Sched, uri: Text, hash: Text, from: Addr, i: nat)
    requires Partitioned(s) && NoneStopped(s) && uri in s.tasks && i < |s.tasks[uri]|
    ensures var info := s.res[uri].(owners := s.res[uri].owners + [from]);
      var a := s.(res := s.res[uri := info]);
      var p := Replan(a, info);
      && Announce(s, uri, hash, info.size, from) == Some(a)
      && Partitioned(p) && p.res == a.res && p.Has(Slot(uri, i)) && |p.tasks[uri]| == |s.tasks[uri]|
      && p.At(Slot(uri, i)) == Rejoined(s.tasks[uri][i], info, i)
      && Rejoined(s.tasks[uri][i], info, i).status == s.tasks[uri][i].status
  {
    var info := s.res[uri].(owners := s.res[uri].owners + [from]);
    var a := s.(res := s.res[uri := info]);
    AnnounceKeeps(s, uri, hash, info.size, from);
    assert ListPlanned(a.tasks[uri], uri, info);
    ReplanShape(a, info);
    ReplanKeeps(a, info);
    assert s.Has(Slot(uri, i)) && s.At(Slot(uri, i)).status != Stop;
  }

  lemma TickCases(s: Sched, x: Slot, ms: uint64, dead: set<Addr>)
    requires Partitioned(s) && s.Has(x)
    ensures var t, r := s.At(x), Tick(s, ms, dead);
      && SameShape(s, r) && r.Has(x)
      && r.At(x).block == t.block
      && (t.status == Success ==> r.At(x) == t)
      && (t.status == Failed ==> r.At(x) == t.(ctx := NextOwner(s.res[x.uri].owners, t.ctx)))
      && (t.status in {Pendding, Syning} ==> r.At(x).ctx == t.ctx)
  {
    var n := TickAt(s, x, ms, dead);
    TickKeeps(s, ms, dead);
  }

  /**
   Announcing one more owner of a file that is being fetched loses nothing: finished blocks are untouched, the list
   keeps its blocks, unfinished blocks are dealt round robin over the owners including the new one, and failed
   ones have already moved one owner on.
   */
  lemma OwnerJoinKeepsProgress(s: Sched, uri: Text, hash: Text, size: nat, from: Addr,
        dead: set<Addr>, i: nat)
    requires Partitioned(s) && NoneStopped(s)
    requires uri in s.tasks && s.res[uri].size == size && i < |s.tasks[uri]|
    ensures var r, owners := AddResource(s, uri, hash, size, from, dead), s.res[uri].owners + [from];
      && uri in r.tasks && |r.tasks[uri]| == |s.tasks[uri]| && r.res == s.res[uri := s.res[uri].(owners := owners)]
      && r.tasks[uri][i].block == s.tasks[uri][i].block
      && (s.tasks[uri][i].status == Success ==> r.tasks[uri][i] == s.tasks[uri][i])
      && (s.tasks[uri][i].status in {Pendding, Syning} ==> r.tasks[uri][i].ctx == owners[i % Min(|owners|, 0x1_0000)])
      && (s.tasks[uri][i].status == Failed ==>
            r.tasks[uri][i] == s.tasks[uri][i].(ctx := NextOwner(owners, owners[i % Min(|owners|, 0x1_0000)])))
  {
    JoinPlan(s, uri, hash, from, i);
    var info := s.res[uri].(owners := s.res[uri].owners + [from]);
    TickCases(Replan(s.(res := s.res[uri := info]), info), Slot(uri, i), 0, dead);
  }
}
