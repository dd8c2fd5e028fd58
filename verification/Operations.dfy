/** Ticks, announcements, successes and cancellations: what each does to every slot, and that all keep the partition. */
module Operations {
  import opened Basics
  import opened BlockRange
  import opened NetAddr
  import opened TextOrder
  import opened Scheduler
  import opened Partition

  // ---------------------------------------------------------------- the slots of a tick

  lemma {:induction false} SlotsUpToMembers(tasks: map<Text, seq<Task>>, keys: seq<Text>, n: nat)
    requires n <= |keys| && forall u :: u in keys ==> u in tasks
    ensures forall x: Slot :: x in SlotsUpTo(tasks, keys, n) <==>
              x.uri in keys[..n] && x.i < |tasks[x.uri]|
  {
    if n > 0 {
      SlotsUpToMembers(tasks, keys, n - 1);
      var last := SlotsOf(keys[n - 1], |tasks[keys[n - 1]]|);
      assert keys[..n] == keys[..n - 1] + [keys[n - 1]];
      forall x: Slot ensures x in last <==> x.uri == keys[n - 1] && x.i < |tasks[keys[n - 1]]| {
        if x.uri == keys[n - 1] && x.i < |last| { assert last[x.i] == x; }
      }
    }
  }

  ghost predicate Distinct(xs: seq<Slot>) {
    forall i, j :: 0 <= i < j < |xs| ==> xs[i] != xs[j]
  }

  lemma {:induction false} SlotsUpToDistinct(tasks: map<Text, seq<Task>>, keys: seq<Text>, n: nat)
    requires n <= |keys| && forall u :: u in keys ==> u in tasks
    requires Ascending(keys)
    ensures Distinct(SlotsUpTo(tasks, keys, n))
  {
    if n > 0 {
      SlotsUpToDistinct(tasks, keys, n - 1);
      SlotsUpToMembers(tasks, keys, n - 1);
      AscendingDistinct(keys);
      var before, last := SlotsUpTo(tasks, keys, n - 1), SlotsOf(keys[n - 1], |tasks[keys[n - 1]]|);
      forall i | 0 <= i < |before| ensures before[i].uri != keys[n - 1] {
        assert before[i] in before;
      }
    }
  }

  lemma AllSlotsOnce(tasks: map<Text, seq<Task>>)
    ensures Distinct(AllSlots(tasks))
    ensures forall x: Slot :: x in AllSlots(tasks) <==> x.uri in tasks && x.i < |tasks[x.uri]|
  {
    var keys := Sorted(tasks.Keys);
    SlotsUpToDistinct(tasks, keys, |keys|);
    SlotsUpToMembers(tasks, keys, |keys|);
    assert keys[..|keys|] == keys;
  }

  // ---------------------------------------------------------------- tick

  lemma SlotsOfStep(u: Text, i: nat)
    ensures SlotsOf(u, i + 1) == SlotsOf(u, i) + [Slot(u, i)]
  {
  }

  lemma {:induction false} TickSlotsAppend(s: Sched, xs: seq<Slot>, ys: seq<Slot>, ms: uint64, dead: set<Addr>)
    ensures TickSlots(s, xs + ys, ms, dead) == TickSlots(TickSlots(s, xs, ms, dead), ys, ms, dead)
  {
    if ys == [] {
      assert xs + ys == xs;
    } else {
      TickSlotsAppend(s, xs, ys[..|ys| - 1], ms, dead);
      assert (xs + ys)[..|xs + ys| - 1] == xs + ys[..|ys| - 1];
    }
  }

  lemma TickSlotsStep(s: Sched, xs: seq<Slot>, x: Slot, ms: uint64, dead: set<Addr>)
    ensures TickSlots(s, xs + [x], ms, dead) == TickSlot(TickSlots(s, xs, ms, dead), x, ms, dead)
  {
    assert (xs + [x])[..|xs + [x]| - 1] == xs;
  }

  lemma {:induction false} TicksKeep(s: Sched, xs: seq<Slot>, ms: uint64, dead: set<Addr>)
    requires Partitioned(s) && forall x :: x in xs ==> s.Has(x)
    ensures var r := TickSlots(s, xs, ms, dead);
      Partitioned(r) && SameShape(s, r) && r.downloads >= s.downloads
      && (forall x :: s.Has(x) && x !in xs ==> r.At(x) == s.At(x))
  {
    if xs != [] {
      var init := xs[..|xs| - 1];
      TicksKeep(s, init, ms, dead);
      VisitIsLocal(TickSlots(s, init, ms, dead), xs[|xs| - 1], ms, dead);
      assert forall x :: x in init ==> x in xs;
    }
  }

  /** A tick visits each slot once: its block changes as one visit changes it, at some value of the slot counter. */
  lemma {:induction false} TickVisits(s: Sched, xs: seq<Slot>, x: Slot, ms: uint64, dead: set<Addr>) returns (n: uint8)
    requires Partitioned(s) && x in xs && Distinct(xs) && forall y :: y in xs ==> s.Has(y)
    ensures TickSlots(s, xs, ms, dead).Has(x)
    ensures TickSlots(s, xs, ms, dead).At(x) == Visited(s.At(x), n, s.res[x.uri].owners, ms, dead)
    ensures s.downloads <= n <= TickSlots(s, xs, ms, dead).downloads
  {
    var init, last := xs[..|xs| - 1], xs[|xs| - 1];
    var mid := TickSlots(s, init, ms, dead);
    TicksKeep(s, init, ms, dead);
    assert s.Has(last) && |mid.tasks[last.uri]| == |s.tasks[last.uri]|;
    VisitIsLocal(mid, last, ms, dead);
    if x == last {
      n := mid.downloads;
    } else {
      n := TickVisits(s, init, x, ms, dead);
    }
  }

  lemma TickKeeps(s: Sched, ms: uint64, dead: set<Addr>)
    requires Partitioned(s)
    ensures var r := Tick(s, ms, dead); Partitioned(r) && SameShape(s, r) && r.downloads >= s.downloads
  {
    AllSlotsOnce(s.tasks);
    TicksKeep(s, AllSlots(s.tasks), ms, dead);
  }

  lemma TickAt(s: Sched, x: Slot, ms: uint64, dead: set<Addr>) returns (n: uint8)
    requires Partitioned(s) && s.Has(x)
    ensures Tick(s, ms, dead).Has(x)
    ensures Tick(s, ms, dead).At(x) == Visited(s.At(x), n, s.res[x.uri].owners, ms, dead)
    ensures s.downloads <= n <= Tick(s, ms, dead).downloads
  {
    AllSlotsOnce(s.tasks);
    n := TickVisits(s, AllSlots(s.tasks), x, ms, dead);
  }

  lemma TickNoneStopped(s: Sched, ms: uint64, dead: set<Addr>)
    requires Partitioned(s) && NoneStopped(s)
    ensures NoneStopped(Tick(s, ms, dead))
  {
    TickKeeps(s, ms, dead);
    var r := Tick(s, ms, dead);
    forall y: Slot | r.Has(y) ensures r.At(y).status != Stop {
      assert s.Has(y) && s.At(y).status != Stop;
      var n := TickAt(s, y, ms, dead);
    }
  }

  lemma TickFailed(s: Sched, x: Slot, ms: uint64, dead: set<Addr>)
    requires Partitioned(s) && s.Has(x) && s.At(x).status == Failed
    ensures var r := Tick(s, ms, dead);
      Partitioned(r) && SameShape(s, r) && r.Has(x)
      && r.At(x) == s.At(x).(ctx := NextOwner(s.res[x.uri].owners, s.At(x).ctx))
  {
    var n := TickAt(s, x, ms, dead);
    TickKeeps(s, ms, dead);
  }

  /** A tick never idles: it leaves a task waiting only when the slot limit is reached. */
  lemma TickIsWorkConserving(s: Sched, x: Slot, ms: uint64, dead: set<Addr>)
    requires Partitioned(s) && s.Has(x)
    ensures var r := Tick(s, ms, dead);
      r.Has(x) && (r.At(x).status == Pendding ==> r.downloads >= 5)
  {
    var n := TickAt(s, x, ms, dead);
  }

  // ---------------------------------------------------------------- announcements

  /** Task `i` of a list after its resource was planned again. */
  function Rejoined(t: Task, info: ResourceInfo, i: nat): Task
    requires info.owners != []
  {
    if t.status == Success then t
    else t.(ctx := info.owners[OwnerOf(i, |info.owners|)], status := if t.status == Stop then Pendding else t.status)
  }

  /** Planning over a list: the first `k` unfinished blocks change owner, nothing else changes. */
  lemma {:induction false} AddPlanOver(s: Sched, info: ResourceInfo, k: nat)
    requires info.owners != [] && k <= PlanCount(info.size)
    requires info.uri in s.tasks && ListPlanned(s.tasks[info.uri], info.uri, info)
    ensures var u, r := info.uri, AddPlan(s, info, k);
      && r == s.(tasks := r.tasks) && r.tasks - {u} == s.tasks - {u}
      && u in r.tasks && |r.tasks[u]| == |s.tasks[u]|
      && forall i :: 0 <= i < |r.tasks[u]| ==>
           r.tasks[u][i] == if i < k && s.tasks[u][i].status != Success
                            then s.tasks[u][i].(ctx := info.owners[OwnerOf(i, |info.owners|)])
                            else s.tasks[u][i]
  {
    hide PlanCount, OwnerOf, AddTask, PlanTask;
    if k > 0 {
      AddPlanOver(s, info, k - 1);
      assert TaskPlanned(s.tasks[info.uri][k - 1], info.uri, k - 1, info);
      AddOver(AddPlan(s, info, k - 1), info, k - 1);
    }
  }

  /** Adding planned block `i` to a list that has it. */
  lemma AddOver(m: Sched, info: ResourceInfo, i: nat)
    requires info.owners != [] && i < PlanCount(info.size) && info.uri in m.tasks && i < |m.tasks[info.uri]|
    requires m.tasks[info.uri][i].uri == info.uri && m.tasks[info.uri][i].block == PlanBlock(i, info.size)
    ensures var x := Slot(info.uri, i);
      AddTask(m, PlanTask(info, i)) == if m.At(x).status == Success then m
                                       else m.Put(x, m.At(x).(ctx := info.owners[OwnerOf(i, |info.owners|)]))
  {
    hide PlanCount;
    PlanBlockFacts(i, info.size);
  }

  /** Adding planned block `i` where there are `i` before it. */
  lemma AddNew(m: Sched, info: ResourceInfo, i: nat)
    requires info.owners != [] && i < PlanCount(info.size)
    requires if i == 0 then info.uri !in m.tasks else info.uri in m.tasks && |m.tasks[info.uri]| == i
    ensures AddTask(m, PlanTask(info, i))
         == m.(tasks := m.tasks[info.uri := (if i == 0 then [] else m.tasks[info.uri]) + [PlanTask(info, i)]])
  {
    hide PlanCount;
    PlanBlockFacts(i, info.size);
    assert [] + [PlanTask(info, i)] == [PlanTask(info, i)];
  }

  /** Planning where there is no list: the first `k` planned blocks. */
  lemma {:induction false} AddPlanNew(s: Sched, info: ResourceInfo, k: nat)
    requires info.owners != [] && k <= PlanCount(info.size) && info.uri !in s.tasks
    ensures var u, r := info.uri, AddPlan(s, info, k);
      && r == s.(tasks := r.tasks) && r.tasks - {u} == s.tasks - {u}
      && (u in r.tasks <==> k > 0)
      && (k > 0 ==> |r.tasks[u]| == k && forall i :: 0 <= i < k ==> r.tasks[u][i] == PlanTask(info, i))
  {
    hide PlanCount, OwnerOf, AddTask, PlanTask;
    if k > 0 {
      AddPlanNew(s, info, k - 1);
      AddNew(AddPlan(s, info, k - 1), info, k - 1);
    }
  }

  lemma AddPlanShape(s: Sched, info: ResourceInfo, k: nat)
    requires info.owners != [] && k <= PlanCount(info.size)
    requires info.uri in s.tasks ==> ListPlanned(s.tasks[info.uri], info.uri, info)
    ensures var u, r := info.uri, AddPlan(s, info, k);
      && r == s.(tasks := r.tasks)
      && r.tasks - {u} == s.tasks - {u}
      && (u in s.tasks ==>
            u in r.tasks && |r.tasks[u]| == |s.tasks[u]|
            && forall i :: 0 <= i < |r.tasks[u]| ==>
              r.tasks[u][i] == if i < k && s.tasks[u][i].status != Success
                               then s.tasks[u][i].(ctx := info.owners[OwnerOf(i, |info.owners|)])
                               else s.tasks[u][i])
      && (u !in s.tasks ==>
            (u in r.tasks <==> k > 0)
            && (k > 0 ==> |r.tasks[u]| == k && forall i :: 0 <= i < k ==> r.tasks[u][i] == PlanTask(info, i)))
  {
    hide AddPlan, PlanCount, OwnerOf;
    if info.uri in s.tasks { AddPlanOver(s, info, k); } else { AddPlanNew(s, info, k); }
  }

  lemma ReplanShape(s: Sched, info: ResourceInfo)
    requires info.owners != []
    requires info.uri in s.tasks ==> ListPlanned(s.tasks[info.uri], info.uri, info)
    ensures var u, r, count := info.uri, Replan(s, info), PlanCount(info.size);
      && r == s.(tasks := r.tasks)
      && r.tasks - {u} == s.tasks - {u}
      && (u in s.tasks ==> u in r.tasks)
      && (u !in s.tasks ==> (u in r.tasks <==> count > 0))
      && (u in r.tasks ==>
            |r.tasks[u]| == count
            && (forall i :: 0 <= i < count ==>
                  r.tasks[u][i] == if u in s.tasks then Rejoined(s.tasks[u][i], info, i) else PlanTask(info, i)))
  {
    var u, s1 := info.uri, ReplaceStatus(s, info.uri, Pendding, Stop);
    if u in s.tasks {
      forall i | 0 <= i < |s1.tasks[u]| ensures TaskPlanned(s1.tasks[u][i], u, i, info) {
        assert TaskPlanned(s.tasks[u][i], u, i, info);
      }
    }
    AddPlanShape(s1, info, PlanCount(info.size));
    var s2 := AddPlan(s1, info, PlanCount(info.size));
    var s3 := ReplaceStatus(s2, u, Stop, Pendding);
    assert s3.tasks - {u} == s2.tasks - {u} == s1.tasks - {u} == s.tasks - {u};
  }

  lemma RejoinedPlanned(t: Task, info: ResourceInfo, i: nat)
    requires info.owners != [] && TaskPlanned(t, info.uri, i, info)
    ensures TaskPlanned(Rejoined(t, info, i), info.uri, i, info)
  {
  }

  lemma ReplanKeeps(s: Sched, info: ResourceInfo)
    requires Partitioned(s) && info.owners != [] && info.uri in s.res && s.res[info.uri] == info
    ensures Partitioned(Replan(s, info))
  {
    var u, r := info.uri, Replan(s, info);
    ReplanShape(s, info);
    forall v | v in r.tasks ensures v in r.res && ListPlanned(r.tasks[v], v, r.res[v]) {
      if v != u {
        assert v in r.tasks - {u};
        assert r.tasks[v] == (r.tasks - {u})[v] == (s.tasks - {u})[v] == s.tasks[v];
      } else {
        forall i | 0 <= i < |r.tasks[u]| ensures TaskPlanned(r.tasks[u][i], u, i, info) {
          if u in s.tasks {
            assert TaskPlanned(s.tasks[u][i], u, i, info);
            RejoinedPlanned(s.tasks[u][i], info, i);
          }
        }
      }
    }
  }

  lemma AnnounceKeeps(s: Sched, uri: Text, hash: Text, size: nat, from: Addr)
    requires Partitioned(s)
    ensures var a := Announce(s, uri, hash, size, from);
      a.Some? ==> Partitioned(a.value) && a.value.res.Keys == s.res.Keys + {uri}
  {
    var a := Announce(s, uri, hash, size, from);
    if a.Some? {
      forall u | u in a.value.tasks ensures u in a.value.res && ListPlanned(a.value.tasks[u], u, a.value.res[u]) {
        assert ListPlanned(s.tasks[u], u, s.res[u]);
        forall i | 0 <= i < |s.tasks[u]| ensures TaskPlanned(s.tasks[u][i], u, i, a.value.res[u]) {
          assert TaskPlanned(s.tasks[u][i], u, i, s.res[u]);
        }
      }
    }
  }

  lemma AddResourceKeeps(s: Sched, uri: Text, hash: Text, size: nat, from: Addr, dead: set<Addr>)
    requires Partitioned(s)
    ensures Partitioned(AddResource(s, uri, hash, size, from, dead))
  {
    AnnounceKeeps(s, uri, hash, size, from);
    var a := Announce(s, uri, hash, size, from);
    if a.Some? {
      ReplanKeeps(a.value, a.value.res[uri]);
      TickKeeps(Replan(a.value, a.value.res[uri]), 0, dead);
    }
  }

  lemma AddResourceKeys(s: Sched, uri: Text, hash: Text, size: nat, from: Addr, dead: set<Addr>)
    requires Partitioned(s)
    ensures var r := AddResource(s, uri, hash, size, from, dead);
      Partitioned(r) && s.res.Keys <= r.res.Keys <= s.res.Keys + {uri}
  {
    AddResourceKeeps(s, uri, hash, size, from, dead);
    AnnounceKeeps(s, uri, hash, size, from);
    var a := Announce(s, uri, hash, size, from);
    if a.Some? {
      var info := a.value.res[uri];
      assert ResourceOk(uri, info);
      ReplanKeeps(a.value, info);
      ReplanRes(a.value, info);
      TickKeeps(Replan(a.value, info), 0, dead);
    }
  }

  lemma ReplanRes(s: Sched, info: ResourceInfo)
    requires Partitioned(s) && info.owners != [] && info.uri in s.res && s.res[info.uri] == info
    ensures Replan(s, info).res == s.res
  {
    ReplanShape(s, info);
  }

  // ---------------------------------------------------------------- success, failure, cancellation

  lemma {:induction false} MarkSuccessShape(ts: seq<Task>, n: uint8, block: Block, k: nat)
    requires k <= |ts|
    ensures forall i :: 0 <= i < |ts| ==>
      MarkSuccess(ts, n, block, k).0[i] == if i < k && ts[i].block == block then ts[i].(status := Success) else ts[i]
  {
    if k > 0 { MarkSuccessShape(ts, n, block, k - 1); }
  }

  /** Blocks of one list are distinct, so a success marks at most one slot and gives back at most one download. */
  lemma {:induction false} MarkSuccessOnce(ts: seq<Task>, n: uint8, u: Text, info: ResourceInfo, block: Block, k: nat)
    requires ListPlanned(ts, u, info) && k <= |ts|
    ensures MarkSuccess(ts, n, block, k).1 ==
            if exists i :: 0 <= i < k && ts[i].block == block then Prev8(n) else n
  {
    if k > 0 {
      MarkSuccessOnce(ts, n, u, info, block, k - 1);
      MarkSuccessShape(ts, n, block, k - 1);
      assert TaskPlanned(ts[k - 1], u, k - 1, info);
      forall i | 0 <= i < k - 1 && ts[i].block == block && ts[k - 1].block == block ensures false {
        assert TaskPlanned(ts[i], u, i, info);
        PlanBlocksDistinct(i, k - 1, info.size);
      }
    }
  }

  lemma SucceedKeeps(s: Sched, uri: Text, block: Block)
    requires Partitioned(s)
    ensures Partitioned(Succeed(s, uri, block)) && SameShape(s, Succeed(s, uri, block))
  {
    if uri in s.tasks {
      MarkSuccessShape(s.tasks[uri], s.downloads, block, |s.tasks[uri]|);
      var r := Succeed(s, uri, block);
      forall i | 0 <= i < |r.tasks[uri]| ensures TaskPlanned(r.tasks[uri][i], uri, i, s.res[uri]) {
        assert TaskPlanned(s.tasks[uri][i], uri, i, s.res[uri]);
      }
    }
  }

  lemma FailKeeps(s: Sched, uri: Text)
    requires Partitioned(s)
    ensures Partitioned(Fail(s, uri))
  {
    if uri in s.tasks {
      var r := Fail(s, uri);
      forall i | 0 <= i < |r.tasks[uri]| ensures TaskPlanned(r.tasks[uri][i], uri, i, s.res[uri]) {
        assert TaskPlanned(s.tasks[uri][i], uri, i, s.res[uri]);
      }
    }
  }

  lemma CancelKeeps(s: Sched, uri: Text)
    requires Partitioned(s)
    ensures Partitioned(CancelTask(s, uri))
  {
  }

  // ---------------------------------------------------------------- runs

  /** Everything the rest of the program may ask of the coordinator and its task manager. */
  datatype Op =
    | OpAnnounce(uri: Text, hash: Text, size: nat, from: Addr, dead: set<Addr>)
    | OpTick(ms: uint64, dead: set<Addr>)
    | OpSuccess(uri: Text, block: Block)
    | OpFail(uri: Text)
    | OpCancel(uri: Text)

  function Do(s: Sched, op: Op): Sched {
    match op
    case OpAnnounce(uri, hash, size, from, dead) => AddResource(s, uri, hash, size, from, dead)
    case OpTick(ms, dead) => Tick(s, ms, dead)
    case OpSuccess(uri, block) => Succeed(s, uri, block)
    case OpFail(uri) => Fail(s, uri)
    case OpCancel(uri) => CancelTask(s, uri)
  }

  function RunOps(s: Sched, ops: seq<Op>): Sched {
    if ops == [] then s else Do(RunOps(s, ops[..|ops| - 1]), ops[|ops| - 1])
  }

  const EMPTY: Sched := Sched(map[], 0, map[], [])

  lemma {:induction false} RunOpsKeeps(s: Sched, ops: seq<Op>)
    requires Partitioned(s)
    ensures Partitioned(RunOps(s, ops))
  {
    if ops != [] {
      var m, op := RunOps(s, ops[..|ops| - 1]), ops[|ops| - 1];
      RunOpsKeeps(s, ops[..|ops| - 1]);
      match op
      case OpAnnounce(uri, hash, size, from, dead) => AddResourceKeeps(m, uri, hash, size, from, dead);
      case OpTick(ms, dead) => TickKeeps(m, ms, dead);
      case OpSuccess(uri, block) => SucceedKeeps(m, uri, block);
      case OpFail(uri) => FailKeeps(m, uri);
      case OpCancel(uri) => CancelKeeps(m, uri);
    }
  }

  /**
   In every reachable state each task list tiles its file: every byte of the file lies in the block of exactly one
   task of the list, for every file whose size the 32-bit planning loop can count.
   */
  lemma ReachableListsTile(ops: seq<Op>, uri: Text, at: nat)
    requires uri in RunOps(EMPTY, ops).tasks
    ensures var s := RunOps(EMPTY, ops);
      && uri in s.res && |s.tasks[uri]| == PlanCount(s.res[uri].size)
      && (forall i :: 0 <= i < |s.tasks[uri]| ==>
            s.tasks[uri][i].uri == uri && s.tasks[uri][i].total == s.res[uri].size && s.tasks[uri][i].ctx in s.res[uri].owners)
      && (at < s.res[uri].size && s.res[uri].size / 1048576 + 1 < 0x1_0000_0000 ==>
            at / 1048576 < |s.tasks[uri]|
            && forall i :: 0 <= i < |s.tasks[uri]| ==>
                (s.tasks[uri][i].block.start <= at < s.tasks[uri][i].block.end <==> i == at / 1048576))
  {
    RunOpsKeeps(EMPTY, ops);
    var s := RunOps(EMPTY, ops);
    var info := s.res[uri];
    assert forall i :: 0 <= i < |s.tasks[uri]| ==> TaskPlanned(s.tasks[uri][i], uri, i, info);
    if at < info.size && info.size / 1048576 + 1 < 0x1_0000_0000 {
      PlanTiles(info.size, at);
      forall i | 0 <= i < |s.tasks[uri]|
        ensures s.tasks[uri][i].block.start <= at < s.tasks[uri][i].block.end <==> i == at / 1048576
      {
        assert Covers(i, info.size, at) <==> i == at / 1048576;
      }
    }
  }
}
