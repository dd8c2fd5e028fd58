/**
 The mutable `TaskManager` and `TaskCoordinator`. The tick loop calls back into the coordinator, which calls
 `AddTask` on the very manager that is iterating: `Tick` is proved to be unaffected by that re-entrance.
 */
module Coordinator {
  import opened Basics
  import opened BlockRange
  import opened NetAddr
  import opened TextOrder
  import S = Scheduler
  import P = Partition
  import O = Operations

  class TaskManager {
    var tasks: map<Text, seq<S.Task>>
    var downloads: uint8
    var out: seq<S.Sent>

    ghost function View(): S.Sched
      reads this
    {
      S.Sched(tasks, downloads, map[], out)
    }

    constructor ()
      ensures View() == O.EMPTY
    {
      tasks, downloads, out := map[], 0, [];
    }

    method AddTask(t: S.Task)
      modifies this`tasks
      ensures View() == S.AddTask(old(View()), t)
    {
      if t.uri !in tasks {
        tasks := tasks[t.uri := []];
        tasks := tasks[t.uri := tasks[t.uri] + [t]];
        assert tasks[t.uri] == [t];
        assert tasks == old(tasks)[t.uri := [t]];
      } else {
        var pos := Pos(t.block.start);
        if pos >= |tasks[t.uri]| {
          tasks := tasks[t.uri := tasks[t.uri] + [t]];
        } else {
          if tasks[t.uri][pos].status == S.Success {
            return;
          }
          tasks := tasks[t.uri := tasks[t.uri][pos := S.Overwrite(tasks[t.uri][pos], t)]];
        }
      }
    }

    method CancelTask(uri: Text)
      modifies this`tasks
      ensures View() == S.CancelTask(old(View()), uri)
    {
      if uri in tasks {
        tasks := tasks - {uri};
      } else {
        assert tasks - {uri} == tasks;
      }
    }

    method ReplaceStatusByStatus(uri: Text, from: S.Status, to: S.Status)
      modifies this`tasks
      ensures View() == S.ReplaceStatus(old(View()), uri, from, to)
    {
      if uri !in tasks {
        return;
      }
      var ts := tasks[uri];
      var i := 0;
      while i < |ts|
        invariant i <= |ts| == |old(tasks[uri])|
        invariant forall k :: 0 <= k < i ==>
          ts[k] == if old(tasks[uri])[k].status == from then old(tasks[uri])[k].(status := to) else old(tasks[uri])[k]
        invariant forall k :: i <= k < |ts| ==> ts[k] == old(tasks[uri])[k]
      {
        if ts[i].status == from {
          ts := ts[i := ts[i].(status := to)];
        }
        i := i + 1;
      }
      tasks := tasks[uri := ts];
      assert ts == S.Replaced(old(tasks[uri]), from, to);
    }

    method Success(uri: Text, block: Block)
      modifies this`tasks, this`downloads
      ensures View() == S.Succeed(old(View()), uri, block)
    {
      if uri !in tasks {
        return;
      }
      var ts := tasks[uri];
      var i := 0;
      while i < |ts|
        invariant i <= |ts| == |old(tasks[uri])| && tasks == old(tasks)
        invariant (ts, downloads) == S.MarkSuccess(old(tasks[uri]), old(downloads), block, i)
      {
        if ts[i].block == block {
          ts := ts[i := ts[i].(status := S.Success)];
          downloads := Prev8(downloads);
        }
        i := i + 1;
      }
      tasks := tasks[uri := ts];
    }

    method Fail(uri: Text)
      modifies this`tasks, this`downloads
      ensures View() == S.Fail(old(View()), uri)
    {
      if uri !in tasks {
        return;
      }
      var ts := tasks[uri];
      var i := 0;
      while i < |ts|
        invariant i <= |ts| == |old(tasks[uri])| && tasks == old(tasks)
        invariant downloads == S.DecrementBy(old(downloads), i)
        invariant forall k :: 0 <= k < i ==> ts[k] == old(tasks[uri])[k].(status := S.Failed)
        invariant forall k :: i <= k < |ts| ==> ts[k] == old(tasks[uri])[k]
      {
        ts := ts[i := ts[i].(status := S.Failed)];
        downloads := Prev8(downloads);
        i := i + 1;
      }
      tasks := tasks[uri := ts];
      assert ts == S.AllFailed(old(tasks[uri]));
    }

    method IsSuccess(uri: Text) returns (b: bool)
      ensures b == S.IsSuccess(View(), uri)
    {
      if uri !in tasks {
        return false;
      }
      var ts := tasks[uri];
      var i := 0;
      while i < |ts|
        invariant i <= |ts|
        invariant forall k :: 0 <= k < i ==> ts[k].status == S.Success
      {
        if ts[i].status != S.Success {
          return false;
        }
        i := i + 1;
      }
      return true;
    }

    /** One turn of the inner loop of `Tick`. */
    method Visit(uri: Text, i: nat, ms: uint64, dead: set<Addr>, coor: TaskCoordinator)
      requires coor.tm == this && P.Partitioned(coor.State()) && coor.State().Has(S.Slot(uri, i))
      modifies this
      ensures coor.State() == S.TickSlot(old(coor.State()), S.Slot(uri, i), ms, dead)
      ensures P.Partitioned(coor.State()) && P.SameShape(old(coor.State()), coor.State())
    {
      P.VisitIsLocal(coor.State(), S.Slot(uri, i), ms, dead);
      var tsk := tasks[uri][i];
      match tsk.status {
        case Success =>
        case Stop =>
        case Pendding =>
          if downloads < DOWNLOAD_LIMIT {
            var ok := tsk.ctx !in dead;
            out := out + [S.Sent(tsk.ctx, tsk.uri, tsk.block, ok)];
            tasks := tasks[uri := tasks[uri][i := S.Request(tsk, ok)]];
            downloads := Next8(downloads);
          }
        case Syning =>
          tasks := tasks[uri := tasks[uri][i := S.TickTask(tsk, ms)]];
        case Failed =>
          coor.ReAssignTask(tsk.uri, tsk.block, tsk.ctx);
      }
    }

    /** The inner loop of `Tick`: one list. */
    method TickList(uri: Text, ms: uint64, dead: set<Addr>, coor: TaskCoordinator)
      requires coor.tm == this && P.Partitioned(coor.State()) && uri in tasks
      modifies this
      ensures coor.State() == S.TickSlots(old(coor.State()), S.SlotsOf(uri, |old(tasks)[uri]|), ms, dead)
      ensures P.Partitioned(coor.State()) && P.SameShape(old(coor.State()), coor.State())
    {
      ghost var s0 := coor.State();
      var i := 0;
      while i < |tasks[uri]|
        invariant uri in tasks && i <= |tasks[uri]|
        invariant coor.State() == S.TickSlots(s0, S.SlotsOf(uri, i), ms, dead)
        invariant P.Partitioned(coor.State()) && P.SameShape(s0, coor.State())
        decreases |s0.tasks[uri]| - i
      {
        O.SlotsOfStep(uri, i);
        O.TickSlotsStep(s0, S.SlotsOf(uri, i), S.Slot(uri, i), ms, dead);
        Visit(uri, i, ms, dead, coor);
        i := i + 1;
      }
    }

    /** `coor` stands for the bound callback; the partition is what keeps the iterated vectors from growing. */
    method Tick(ms: uint64, dead: set<Addr>, coor: TaskCoordinator)
      requires coor.tm == this && P.Partitioned(coor.State())
      modifies this
      ensures coor.State() == S.Tick(old(coor.State()), ms, dead)
      ensures P.Partitioned(coor.State())
    {
      ghost var s0 := coor.State();
      var keys := Sorted(tasks.Keys);
      var k := 0;
      while k < |keys|
        invariant k <= |keys|
        invariant coor.State() == S.TickSlots(s0, S.SlotsUpTo(s0.tasks, keys, k), ms, dead)
        invariant P.Partitioned(coor.State()) && P.SameShape(s0, coor.State())
      {
        var uri := keys[k];
        O.TickSlotsAppend(s0, S.SlotsUpTo(s0.tasks, keys, k), S.SlotsOf(uri, |s0.tasks[uri]|), ms, dead);
        TickList(uri, ms, dead, coor);
        k := k + 1;
      }
    }
  }

  class TaskCoordinator {
    const tm: TaskManager
    var res: map<Text, S.ResourceInfo>

    ghost function State(): S.Sched
      reads this, tm
    {
      tm.View().(res := res)
    }

    constructor (tm: TaskManager)
      ensures this.tm == tm && State() == tm.View()
    {
      this.tm := tm;
      res := map[];
    }

    method Tick(ms: uint64, dead: set<Addr>)
      requires P.Partitioned(State())
      modifies tm
      ensures State() == S.Tick(old(State()), ms, dead) && P.Partitioned(State())
    {
      tm.Tick(ms, dead, this);
    }

    method ReAssignTask(uri: Text, block: Block, ctx: Addr)
      requires uri in res
      modifies tm`tasks
      ensures State() == S.ReAssign(old(State()), uri, block, ctx)
    {
      var r := res[uri];
      var rs := r.owners;
      var i := 0;
      while i < |rs|
        invariant i <= |rs|
        invariant forall k :: 0 <= k < i ==> !rs[k].Same(ctx)
        invariant State() == old(State())
      {
        if rs[i].Same(ctx) {
          var newctx := if i == |rs| - 1 then rs[0] else rs[i + 1];
          assert i == S.OwnerIndex(rs, ctx);
          tm.AddTask(S.NewTask(r.uri, r.size, block, newctx));
          return;
        }
        i := i + 1;
      }
    }

    /** The block loop of `assignTask`: a 32-bit block counter and a 16-bit owner counter. */
    method AddBlocks(info: S.ResourceInfo, num: nat)
      requires info.owners != [] && info.size > BLOCK_SIZE
      modifies tm`tasks
      ensures State() == S.AddPlan(old(State()), info, Min(S.Needed(info.size), num))
    {
      hide S.AddPlan, S.OwnerOf, S.Needed;
      var ctxs := info.owners;
      ghost var s1 := State();
      var who := 0;
      var i := 0;
      FirstBlock(s1, info);
      while i < num
        invariant 0 <= i <= Min(S.Needed(info.size), num)
        invariant 0 <= who < TWO16 && (who == S.OwnerOf(i, |ctxs|) || (who == |ctxs| && S.OwnerOf(i, |ctxs|) == 0))
        invariant State() == S.AddPlan(s1, info, i)
      {
        if who >= |ctxs| {
          who := 0;
        }
        var bitPos := BitPos(i);
        P.PastTheEnd(i, info.size);
        if bitPos >= info.size {
          break;
        }
        var end := Min(info.size, bitPos + BLOCK_SIZE);
        AddedTo(s1, info, i);
        tm.AddTask(S.NewTask(info.uri, info.size, Block(bitPos, end), ctxs[who]));
        who := NextWho(i, |ctxs|, who);
        i := i + 1;
      }
    }

    /** `who++` on a `uint16_t`. */
    method NextWho(ghost i: nat, n: nat, who: nat) returns (r: nat)
      requires n > 0 && who == S.OwnerOf(i, n)
      ensures r < TWO16 && (r == S.OwnerOf(i + 1, n) || (r == n && S.OwnerOf(i + 1, n) == 0))
    {
      ModStep(i, Min(n, TWO16));
      r := (who + 1) % TWO16;
    }

    /** `assignTask` up to its final tick: waiting tasks are stopped, the plan is added over the list, and they wait again. */
    method PlanBlocks(info: S.ResourceInfo)
      requires info.owners != []
      modifies tm`tasks
      ensures State() == S.Replan(old(State()), info)
    {
      var ctxs := info.owners;
      tm.ReplaceStatusByStatus(info.uri, S.Pendding, S.Stop);
      ghost var s1 := State();
      var who := 0;
      if info.size <= BLOCK_SIZE {
        tm.AddTask(S.NewTask(info.uri, info.size, Block(0, info.size), ctxs[who]));
        assert S.PlanTask(info, 0) == S.NewTask(info.uri, info.size, Block(0, info.size), ctxs[0]);
        assert S.AddPlan(s1, info, 0) == s1;
      } else {
        AddBlocks(info, (info.size / BLOCK_SIZE + 1) % TWO32);
      }
      assert State() == S.AddPlan(s1, info, S.PlanCount(info.size));
      tm.ReplaceStatusByStatus(info.uri, S.Stop, S.Pendding);
    }

    method AssignTask(info: S.ResourceInfo, dead: set<Addr>)
      requires P.Partitioned(State()) && info.uri in res && res[info.uri] == info
      modifies tm
      ensures State() == S.Assign(old(State()), info, dead) && P.Partitioned(State())
    {
      if |info.owners| == 0 {
        return;
      }
      O.ReplanKeeps(State(), info);
      PlanBlocks(info);
      Tick(0, dead);
    }

    method AddResource(uri: Text, hash: Text, size: nat, from: Addr, dead: set<Addr>)
      requires P.Partitioned(State())
      modifies this, tm
      ensures State() == S.AddResource(old(State()), uri, hash, size, from, dead) && P.Partitioned(State())
    {
      O.AnnounceKeeps(State(), uri, hash, size, from);
      var info := S.ResourceInfo(uri, hash, size, [from]);
      if uri !in res {
        res := res[uri := info];
      } else {
        var old_r := res[uri];
        if old_r.size < info.size {
          tm.CancelTask(uri);
          res := res - {uri};
          res := res[uri := info];
          assert res == old(res)[uri := info];
        } else if old_r.size == info.size {
          res := res[uri := old_r.(owners := old_r.owners + [from])];
        } else {
          return;
        }
      }
      AssignTask(res[uri], dead);
    }

    method QueryResource(uri: Text) returns (r: Option<S.ResourceInfo>)
      ensures r == if uri in res then Some(res[uri]) else None
    {
      if uri in res {
        return Some(res[uri]);
      }
      return None;
    }
  }

  lemma FirstBlock(s: S.Sched, info: S.ResourceInfo)
    requires info.owners != []
    ensures S.AddPlan(s, info, 0) == s && S.OwnerOf(0, |info.owners|) == 0
    ensures S.Needed(info.size) >= 1
  {
  }

  lemma AddedTo(s: S.Sched, info: S.ResourceInfo, i: nat)
    requires info.owners != []
    ensures S.AddPlan(s, info, i + 1) == S.AddTask(S.AddPlan(s, info, i),
              S.NewTask(info.uri, info.size, Block(BitPos(i), Min(info.size, BitPos(i) + BLOCK_SIZE)),
                        info.owners[S.OwnerOf(i, |info.owners|)]))
  {
  }
}
