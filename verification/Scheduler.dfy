/**
 What one operation of `Task`, `TaskManager` and `TaskCoordinator` does to the whole scheduler state.
 The classes in Coordinator.dfy are proved to compute exactly these functions.
 */
module Scheduler {
  import opened Basics
  import opened BlockRange
  import opened NetAddr
  import opened TextOrder

  datatype Status = Pendding | Syning | Stop | Success | Failed

  datatype Task = Task(uri: Text, total: nat, block: Block, ctx: Addr, retry: uint8, passed: uint64, status: Status)

  /** A known resource. Its range is always `[0, size)`: `add_resource` builds no other. */
  datatype ResourceInfo = ResourceInfo(uri: Text, hash: Text, size: nat, owners: seq<Addr>)

  /** One request handed to a connection; `ok` is false when the write threw. */
  datatype Sent = Sent(to: Addr, uri: Text, block: Block, ok: bool)

  datatype Slot = Slot(uri: Text, i: nat)

  datatype Sched = Sched(
    tasks: map<Text, seq<Task>>,
    downloads: uint8,              // the `uint8_t` slot counter
    res: map<Text, ResourceInfo>,
    out: seq<Sent>)                // requests written so far, in order
  {
    predicate Has(x: Slot) { x.uri in tasks && x.i < |tasks[x.uri]| }

    function At(x: Slot): Task
      requires Has(x)
    {
      tasks[x.uri][x.i]
    }

    function Put(x: Slot, t: Task): Sched
      requires Has(x)
    {
      this.(tasks := tasks[x.uri := tasks[x.uri][x.i := t]])
    }
  }

  // ---------------------------------------------------------------- Task

  function NewTask(uri: Text, total: nat, block: Block, ctx: Addr): Task {
    Task(uri, total, block, ctx, 0, 0, Pendding)
  }

  /** `Task::operator=` copies three fields; status, timers and size stay those of the old task. */
  function Overwrite(old_: Task, t: Task): Task {
    old_.(uri := t.uri, block := t.block, ctx := t.ctx)
  }

  function Request(t: Task, ok: bool): Task {
    if ok then t.(status := Syning) else t.(retry := Next8(t.retry), status := Failed)
  }

  function TickTask(t: Task, ms: uint64): Task {
    var p := Add64(t.passed, ms);
    var t1 := if p >= RETRY_MS then t.(retry := Next8(t.retry), passed := 0) else t.(passed := p);
    if t1.retry >= MAX_RETRY then t1.(status := Failed) else t1
  }

  // ---------------------------------------------------------------- TaskManager

  function AddTask(s: Sched, t: Task): Sched {
    if t.uri !in s.tasks then s.(tasks := s.tasks[t.uri := [t]])
    else
      var ts := s.tasks[t.uri];
      var pos := Pos(t.block.start);
      if pos >= |ts| then s.(tasks := s.tasks[t.uri := ts + [t]])
      else if ts[pos].status == Success then s
      else s.Put(Slot(t.uri, pos), Overwrite(ts[pos], t))
  }

  function CancelTask(s: Sched, uri: Text): Sched {
    s.(tasks := s.tasks - {uri})
  }

  function Replaced(ts: seq<Task>, from: Status, to: Status): (r: seq<Task>)
    ensures |r| == |ts|
    ensures forall i :: 0 <= i < |ts| ==> r[i] == if ts[i].status == from then ts[i].(status := to) else ts[i]
  {
    seq(|ts|, i requires 0 <= i < |ts| => if ts[i].status == from then ts[i].(status := to) else ts[i])
  }

  function ReplaceStatus(s: Sched, uri: Text, from: Status, to: Status): Sched {
    if uri !in s.tasks then s else s.(tasks := s.tasks[uri := Replaced(s.tasks[uri], from, to)])
  }

  /** `download_num_--`, `times` times, on a `uint8_t`. */
  function DecrementBy(n: uint8, times: nat): uint8 {
    if times == 0 then n else Prev8(DecrementBy(n, times - 1))
  }

  /** The list and the counter after the first `k` tasks were compared with `block`. */
  function MarkSuccess(ts: seq<Task>, n: uint8, block: Block, k: nat): (r: (seq<Task>, uint8))
    requires k <= |ts|
    ensures |r.0| == |ts|
  {
    if k == 0 then (ts, n)
    else
      var (ts1, n1) := MarkSuccess(ts, n, block, k - 1);
      if ts1[k - 1].block == block
      then (ts1[k - 1 := ts1[k - 1].(status := Success)], Prev8(n1))
      else (ts1, n1)
  }

  function Succeed(s: Sched, uri: Text, block: Block): Sched {
    if uri !in s.tasks then s
    else
      var (ts, n) := MarkSuccess(s.tasks[uri], s.downloads, block, |s.tasks[uri]|);
      s.(tasks := s.tasks[uri := ts], downloads := n)
  }

  function AllFailed(ts: seq<Task>): (r: seq<Task>)
    ensures |r| == |ts|
    ensures forall i :: 0 <= i < |ts| ==> r[i] == ts[i].(status := Failed)
  {
    seq(|ts|, i requires 0 <= i < |ts| => ts[i].(status := Failed))
  }

  function Fail(s: Sched, uri: Text): Sched {
    if uri !in s.tasks then s
    else s.(tasks := s.tasks[uri := AllFailed(s.tasks[uri])], downloads := DecrementBy(s.downloads, |s.tasks[uri]|))
  }

  predicate IsSuccess(s: Sched, uri: Text) {
    uri in s.tasks && forall i :: 0 <= i < |s.tasks[uri]| ==> s.tasks[uri][i].status == Success
  }

  // ---------------------------------------------------------------- TaskCoordinator

  /** Index of the first owner that compares equal to `ctx`, or the number of owners. */
  function OwnerIndex(owners: seq<Addr>, ctx: Addr): (j: nat)
    ensures j <= |owners|
    ensures j < |owners| ==> owners[j].Same(ctx)
    ensures forall k :: 0 <= k < j ==> !owners[k].Same(ctx)
  {
    if owners == [] || owners[0].Same(ctx) then 0 else 1 + OwnerIndex(owners[1..], ctx)
  }

  function NextOwner(owners: seq<Addr>, ctx: Addr): Addr {
    var j := OwnerIndex(owners, ctx);
    if j == |owners| then ctx else if j == |owners| - 1 then owners[0] else owners[j + 1]
  }

  function ReAssign(s: Sched, uri: Text, block: Block, ctx: Addr): Sched {
    if uri !in s.res then s
    else
      var r := s.res[uri];
      if OwnerIndex(r.owners, ctx) == |r.owners| then s
      else AddTask(s, NewTask(r.uri, r.size, block, NextOwner(r.owners, ctx)))
  }

  /** What the tick loop does at one slot. */
  function TickSlot(s: Sched, x: Slot, ms: uint64, dead: set<Addr>): Sched {
    if !s.Has(x) then s
    else
      var t := s.At(x);
      match t.status
      case Pendding =>
        if s.downloads >= DOWNLOAD_LIMIT then s
        else
          var ok := t.ctx !in dead;
          s.Put(x, Request(t, ok)).(downloads := s.downloads + 1, out := s.out + [Sent(t.ctx, t.uri, t.block, ok)])
      case Syning => s.Put(x, TickTask(t, ms))
      case Failed => ReAssign(s, t.uri, t.block, t.ctx)
      case Stop => s
      case Success => s
  }

  function TickSlots(s: Sched, xs: seq<Slot>, ms: uint64, dead: set<Addr>): Sched {
    if xs == [] then s else TickSlot(TickSlots(s, xs[..|xs| - 1], ms, dead), xs[|xs| - 1], ms, dead)
  }

  function SlotsOf(u: Text, n: nat): (r: seq<Slot>)
    ensures |r| == n
    ensures forall i :: 0 <= i < n ==> r[i] == Slot(u, i)
  {
    seq(n, (i: nat) => Slot(u, i))
  }

  /** The slots of the first `n` keys, list by list. */
  function SlotsUpTo(tasks: map<Text, seq<Task>>, keys: seq<Text>, n: nat): seq<Slot>
    requires n <= |keys|
    requires forall u :: u in keys ==> u in tasks
  {
    if n == 0 then [] else SlotsUpTo(tasks, keys, n - 1) + SlotsOf(keys[n - 1], |tasks[keys[n - 1]]|)
  }

  /** Every slot, in the order the nested loops visit them. */
  function AllSlots(tasks: map<Text, seq<Task>>): seq<Slot> {
    SlotsUpTo(tasks, Sorted(tasks.Keys), |Sorted(tasks.Keys)|)
  }

  function Tick(s: Sched, ms: uint64, dead: set<Addr>): Sched {
    TickSlots(s, AllSlots(s.tasks), ms, dead)
  }

  /** `i`-th planned block of a file. */
  function PlanBlock(i: nat, size: nat): Block {
    Block(BitPos(i), Min(size, BitPos(i) + BLOCK_SIZE))
  }

  /** Blocks needed to cover `size` bytes; one even for an empty file. */
  function Needed(size: nat): nat {
    if size <= BLOCK_SIZE then 1 else (size + BLOCK_SIZE - 1) / BLOCK_SIZE
  }

  /** Blocks planned: the loop bound is a 32-bit `uint`. */
  function PlanCount(size: nat): nat {
    if size <= BLOCK_SIZE then 1 else Min(Needed(size), (size / BLOCK_SIZE + 1) % TWO32)
  }

  /** Owner of block `i` among `n`: the round-robin counter is a `uint16_t`. */
  function OwnerOf(i: nat, n: nat): (j: nat)
    requires n > 0
    ensures j < n
  {
    i % Min(n, TWO16)
  }

  function PlanTask(info: ResourceInfo, i: nat): Task
    requires info.owners != []
  {
    NewTask(info.uri, info.size, PlanBlock(i, info.size), info.owners[OwnerOf(i, |info.owners|)])
  }

  function AddPlan(s: Sched, info: ResourceInfo, k: nat): Sched
    requires info.owners != []
  {
    if k == 0 then s else AddTask(AddPlan(s, info, k - 1), PlanTask(info, k - 1))
  }

  function Replan(s: Sched, info: ResourceInfo): Sched
    requires info.owners != []
  {
    ReplaceStatus(AddPlan(ReplaceStatus(s, info.uri, Pendding, Stop), info, PlanCount(info.size)), info.uri, Stop, Pendding)
  }

  function Assign(s: Sched, info: ResourceInfo, dead: set<Addr>): Sched {
    if info.owners == [] then s else Tick(Replan(s, info), 0, dead)
  }

  /** The resource table after an announcement; None when the announcement is out of date and ignored. */
  function Announce(s: Sched, uri: Text, hash: Text, size: nat, from: Addr): Option<Sched> {
    var info := ResourceInfo(uri, hash, size, [from]);
    if uri !in s.res then Some(s.(res := s.res[uri := info]))
    else
      var o := s.res[uri];
      if o.size < size then Some(CancelTask(s, uri).(res := s.res[uri := info]))
      else if o.size == size then Some(s.(res := s.res[uri := o.(owners := o.owners + [from])]))
      else None
  }

  function AddResource(s: Sched, uri: Text, hash: Text, size: nat, from: Addr, dead: set<Addr>): Sched {
    match Announce(s, uri, hash, size, from)
    case None => s
    case Some(s1) => Assign(s1, s1.res[uri], dead)
  }
}
