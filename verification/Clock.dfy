/**
 Time-outs over whole runs. A block starts its clock when it is requested and is given up after five minutes of ticks,
 whatever else is announced, marked or cancelled in between.
 */
module Clock {
  import opened Basics
  import opened BlockRange
  import opened NetAddr
  import opened Scheduler
  import opened Partition
  import opened Operations
  import opened Accounts
  import opened Requests

  function Ms(op: Op): uint64 {
    if op.OpTick? then op.ms else 0
  }

  /** Milliseconds ticked by these operations. */
  function Elapsed(ops: seq<Op>): nat {
    if ops == [] then 0 else Elapsed(ops[..|ops| - 1]) + Ms(ops[|ops| - 1])
  }

  /** The operations as one block feels them: only a block in flight is ticked. */
  function Felt(t: Task, ops: seq<Op>): Task {
    if ops == [] then t
    else
      var m := Felt(t, ops[..|ops| - 1]);
      if m.status == Syning then TickTask(m, Ms(ops[|ops| - 1])) else m
  }

  // ---------------------------------------------------------------- the clock of one block

  ghost predicate JustRequested(t: Task) {
    t.status == Syning && t.retry == 0 && t.passed == 0
  }

  /** Within its bounds, the clock of a block in flight. */
  ghost predicate Running(t: Task) {
    t.status == Syning ==> t.retry < 5 && t.passed < 60000
  }

  lemma TickTaskCases(t: Task, ms: uint64)
    requires t.status == Syning && Running(t)
    ensures var r := TickTask(t, ms);
      && r.passed < 60000 && t.retry <= r.retry <= t.retry + 1
      && r.retry * 60000 + r.passed <= t.retry * 60000 + t.passed + ms
      && (r.status == Failed <==> r.retry >= 5) && (r.status == Syning <==> r.retry < 5)
      && (t.passed + ms < TWO64 ==>
            r.retry == t.retry + (if t.passed + ms >= 60000 then 1 else 0)
            && (t.passed + ms < 60000 ==> r.passed == t.passed + ms))
  {
  }

  /** The retry clock never runs ahead of the time that was ticked. */
  lemma {:induction false} RetryClock(t: Task, ops: seq<Op>)
    requires JustRequested(t)
    ensures var r := Felt(t, ops);
      && r.passed < 60000 && r.retry <= 5 && r.retry * 60000 + r.passed <= Elapsed(ops)
      && (r.status == Failed <==> r.retry == 5) && (r.status == Syning <==> r.retry < 5)
  {
    if ops != [] {
      RetryClock(t, ops[..|ops| - 1]);
      var m := Felt(t, ops[..|ops| - 1]);
      if m.status == Syning { TickTaskCases(m, Ms(ops[|ops| - 1])); }
    }
  }

  /** Nor does it fall behind by more than one tick per retry. */
  lemma {:induction false} RetryClockLag(t: Task, ops: seq<Op>, d: nat)
    requires JustRequested(t) && d + 60000 < TWO64
    requires forall k :: 0 <= k < |ops| ==> Ms(ops[k]) <= d
    ensures var r := Felt(t, ops);
      r.status == Syning ==> Elapsed(ops) <= r.retry * (59999 + d) + r.passed
  {
    if ops != [] {
      var init, ms := ops[..|ops| - 1], Ms(ops[|ops| - 1]);
      RetryClockLag(t, init, d);
      RetryClock(t, init);
      var m := Felt(t, init);
      if m.status == Syning {
        TickTaskCases(m, ms);
        var r := TickTask(m, ms);
        if r.retry == m.retry + 1 { OneMore(m.retry, 59999 + d); }
      }
    }
  }

  lemma OneMore(k: nat, a: nat)
    ensures (k + 1) * a == k * a + a
  {
  }

  lemma AtMostFour(k: nat, a: nat)
    requires k <= 4
    ensures k * a <= 4 * a
  {
  }

  /** Ticks that take time. */
  function Ticks(ops: seq<Op>): nat {
    if ops == [] then 0 else Ticks(ops[..|ops| - 1]) + if Ms(ops[|ops| - 1]) > 0 then 1 else 0
  }

  /** Ticks come every `d` ms, and `p` of them make a minute. */
  ghost predicate Every(ops: seq<Op>, d: nat, p: nat) {
    && 0 < d && d + 60000 < TWO64 && p > 0 && (p - 1) * d < 60000 <= p * d
    && forall k :: 0 <= k < |ops| ==> Ms(ops[k]) in {0, d}
  }

  lemma ShortOfAMinute(j: nat, d: nat, p: nat)
    requires j < p && (p - 1) * d < 60000 <= p * d
    ensures j * d < 60000 && (j * d + d >= 60000 <==> j + 1 == p)
  {
    assert j * d + d == (j + 1) * d;
    if j + 1 < p {
      assert (p - 1) * d == j * d + (p - 1 - j) * d;
      MulAtLeast(p - 1 - j, d);
    }
  }

  /** With ticks of one length the retry clock counts whole minutes, rounded up to ticks, and starts each from zero. */
  lemma {:induction false} RegularClock(t: Task, ops: seq<Op>, d: nat, p: nat)
    requires JustRequested(t) && Every(ops, d, p)
    ensures var r, k := Felt(t, ops), Ticks(ops);
      && (k < 5 * p ==> r.status == Syning && r.retry == k / p && r.passed == k % p * d)
      && (k >= 5 * p ==> r.status == Failed)
  {
    if ops != [] {
      var init, ms := ops[..|ops| - 1], Ms(ops[|ops| - 1]);
      RegularClock(t, init, d, p);
      var m, k := Felt(t, init), Ticks(init);
      if k < 5 * p {
        QuotientBound(k, p);
        ShortOfAMinute(k % p, d, p);
        if ms == 0 { ZeroTick(m); } else { RegularTick(m, k, d, p); }
      }
    }
  }

  lemma QuotientBound(k: nat, p: nat)
    requires p > 0 && k < 5 * p
    ensures k / p <= 4 && 0 <= k % p < p
  {
    assert k == k / p * p + k % p;
  }

  lemma RegularTick(m: Task, k: nat, d: nat, p: nat)
    requires p > 0 && k < 5 * p && m.status == Syning && m.retry == k / p <= 4 && m.passed == k % p * d < 60000
    requires 0 < d && d + 60000 < TWO64 && (k % p * d + d >= 60000 <==> k % p + 1 == p)
    ensures var r := TickTask(m, d);
      && (k + 1 < 5 * p ==> r.status == Syning && r.retry == (k + 1) / p && r.passed == (k + 1) % p * d)
      && (k + 1 >= 5 * p ==> r.status == Failed)
  {
    TickTaskCases(m, d);
    var q := k / p;
    assert k == q * p + k % p;
    if k % p + 1 == p {
      OneMore(q, p);
      ModUnique(k + 1, p, q + 1, 0);
      assert q == 4 ==> (q + 1) * p == 5 * p;
      if q < 4 { AtMostFour(q + 1, p); }
    } else {
      ModUnique(k + 1, p, q, k % p + 1);
      OneMore(k % p, d);
      AtMostFour(q, p);
    }
  }

  // ---------------------------------------------------------------- one operation

  /** What an operation makes of a block that was asked for: finished, or ticked by as much as the operation ticks. */
  ghost predicate Ticked(t: Task, r: Task, ms: uint64) {
    r.status == Success
    || (t.status != Success && r == (if t.status == Syning then TickTask(t, ms) else t).(ctx := r.ctx))
  }

  ghost predicate Asked(t: Task) {
    t.status in {Syning, Failed, Success} && Running(t)
  }

  lemma ZeroTick(t: Task)
    requires t.status == Syning && Running(t)
    ensures TickTask(t, 0) == t
  {
  }

  lemma TickTicks(s: Sched, ms: uint64, dead: set<Addr>, x: Slot)
    requires Partitioned(s) && s.Has(x) && Asked(s.At(x))
    ensures Tick(s, ms, dead).Has(x) && Ticked(s.At(x), Tick(s, ms, dead).At(x), ms)
  {
    var n := TickAt(s, x, ms, dead);
  }

  /** Planning again moves a block to another owner at most. */
  lemma ReplanMoves(s: Sched, info: ResourceInfo, x: Slot)
    requires Partitioned(s) && NoneStopped(s) && info.owners != [] && info.uri in s.res && s.res[info.uri] == info && s.Has(x)
    ensures var r := Replan(s, info); Partitioned(r) && r.Has(x) && r.At(x) == s.At(x).(ctx := r.At(x).ctx)
  {
    ReplanKeeps(s, info);
    ReplanShape(s, info);
    OtherLists(s, Replan(s, info), info.uri);
    assert s.At(x).status != Stop;
  }

  lemma AnnounceTicks(s: Sched, uri: Text, hash: Text, n: nat, from: Addr, dead: set<Addr>, x: Slot, size: nat)
    requires Listed(s, x, size) && (uri != x.uri || n <= size) && Asked(s.At(x))
    ensures var r := AddResource(s, uri, hash, n, from, dead); r.Has(x) && Ticked(s.At(x), r.At(x), 0)
  {
    hide Replan, Tick, Partitioned, NoneStopped;
    AnnounceAsks(s, uri, hash, n, from, x, size);
    AnnounceOwners(s, uri, hash, n, from);
    if s.At(x).status == Syning { ZeroTick(s.At(x)); }
    var a := Announce(s, uri, hash, n, from);
    if a.Some? {
      SlotKnown(s, x);
      assert a.value.At(x) == s.At(x);
      ReplanMoves(a.value, a.value.res[uri], x);
      TickTicks(Replan(a.value, a.value.res[uri]), 0, dead, x);
    }
  }

  lemma SucceedTicks(s: Sched, uri: Text, block: Block, x: Slot)
    requires Partitioned(s) && s.Has(x) && Asked(s.At(x))
    ensures Succeed(s, uri, block).Has(x) && Ticked(s.At(x), Succeed(s, uri, block).At(x), 0)
  {
    SucceedSlots(s, Key(uri, block));
    if s.At(x).status == Syning { ZeroTick(s.At(x)); }
  }

  /** The operation neither ends the list nor fails it. */
  ghost predicate Leaves(op: Op, u: Text, size: nat) {
    Spares(op, u, size) && (op.OpFail? ==> op.uri != u)
  }

  lemma StepTicks(s: Sched, op: Op, x: Slot, size: nat)
    requires Listed(s, x, size) && Asked(s.At(x)) && Leaves(op, x.uri, size)
    ensures Listed(Do(s, op), x, size) && Ticked(s.At(x), Do(s, op).At(x), Ms(op))
  {
    hide Partitioned, NoneStopped, Tick, AddResource, Succeed, Ticked, Running;
    StepAsks(s, op, x, size);
    match op
    case OpAnnounce(uri, hash, n, from, dead) => AnnounceTicks(s, uri, hash, n, from, dead, x, size);
    case OpTick(ms, dead) => TickTicks(s, ms, dead, x);
    case OpSuccess(uri, block) => SucceedTicks(s, uri, block, x);
    case OpFail(uri) => SameTicks(s.At(x));
    case OpCancel(uri) => SameTicks(s.At(x));
  }

  lemma SameTicks(t: Task)
    requires Asked(t)
    ensures Ticked(t, t, 0)
  {
    if t.status == Syning { ZeroTick(t); }
  }

  /** Over a run a requested block is finished, or its clock is what it felt. */
  lemma {:induction false} RunTicks(s: Sched, ops: seq<Op>, x: Slot, size: nat)
    requires Listed(s, x, size) && JustRequested(s.At(x)) && forall k :: 0 <= k < |ops| ==> Leaves(ops[k], x.uri, size)
    ensures var r := RunOps(s, ops);
      Listed(r, x, size) && (r.At(x).status == Success || r.At(x) == Felt(s.At(x), ops).(ctx := r.At(x).ctx))
  {
    hide Partitioned, NoneStopped, Do, Leaves;
    if ops != [] {
      var init, op := ops[..|ops| - 1], ops[|ops| - 1];
      RunTicks(s, init, x, size);
      RetryClock(s.At(x), init);
      var m := RunOps(s, init);
      assert Asked(m.At(x));
      StepTicks(m, op, x, size);
    }
  }

  // ---------------------------------------------------------------- where the clock starts

  /** Waiting blocks have not started their clock. */
  ghost predicate Fresh(s: Sched) {
    forall x: Slot :: s.Has(x) && s.At(x).status == Pendding ==> s.At(x).retry == 0 && s.At(x).passed == 0
  }

  /** Between operations of a run from nothing. */
  ghost predicate Settled(s: Sched) {
    Partitioned(s) && NoneStopped(s) && Fresh(s)
  }

  /** A block as the operation leaves it that was waiting before, or had no list: at most one request, and the clock at its start. */
  ghost predicate Started(t: Task) {
    match t.status
    case Pendding => t.retry == 0 && t.passed == 0
    case Syning => t.retry == 0 && t.passed == 0
    case Failed => t.retry == 1 && t.passed == 0
    case Success => true
    case Stop => false
  }

  lemma TickStarts(s: Sched, ms: uint64, dead: set<Addr>, x: Slot)
    requires Settled(s) && s.Has(x) && s.At(x).status == Pendding
    ensures var r := Tick(s, ms, dead);
      r.Has(x) && Started(r.At(x)) && r.At(x).status != Success
      && (r.At(x).status == Failed ==> s.At(x).ctx in dead) && (r.At(x).status == Syning ==> s.At(x).ctx !in dead)
  {
    var n := TickAt(s, x, ms, dead);
  }

  lemma TickSettled(s: Sched, ms: uint64, dead: set<Addr>)
    requires Settled(s)
    ensures Settled(Tick(s, ms, dead))
  {
    TickKeeps(s, ms, dead);
    TickNoneStopped(s, ms, dead);
    var r := Tick(s, ms, dead);
    forall x: Slot | r.Has(x) && r.At(x).status == Pendding ensures r.At(x).retry == 0 && r.At(x).passed == 0 {
      assert s.Has(x);
      var n := TickAt(s, x, ms, dead);
    }
  }

  lemma AnnounceSettled(s: Sched, uri: Text, hash: Text, n: nat, from: Addr)
    requires Settled(s)
    ensures var a := Announce(s, uri, hash, n, from);
      a.Some? ==> Settled(a.value) && uri in a.value.res && ResourceOk(uri, a.value.res[uri])
                  && forall x: Slot :: a.value.Has(x) ==> s.Has(x) && a.value.At(x) == s.At(x)
  {
    AnnounceOwners(s, uri, hash, n, from);
    var a := Announce(s, uri, hash, n, from);
    if a.Some? {
      forall x: Slot | a.value.Has(x) ensures s.Has(x) && a.value.At(x) == s.At(x) {}
    }
  }

  /** A planned slot keeps its clock, or is new and waits. */
  lemma ReplanSettled(s: Sched, info: ResourceInfo)
    requires Settled(s) && info.owners != [] && info.uri in s.res && s.res[info.uri] == info
    ensures Settled(Replan(s, info))
    ensures forall x: Slot :: Replan(s, info).Has(x) && !s.Has(x) ==> Replan(s, info).At(x).status == Pendding
    ensures forall x: Slot :: s.Has(x) ==> Replan(s, info).Has(x) && Replan(s, info).At(x).status == s.At(x).status
  {
    hide Replan;
    ReplanSlots(s, info);
    ReplanNoneStopped(s, info);
    var r := Replan(s, info);
    forall x: Slot | r.Has(x) && r.At(x).status == Pendding ensures r.At(x).retry == 0 && r.At(x).passed == 0 {
      if s.Has(x) { ReplanMoves(s, info, x); } else { NewSlotClock(s, info, x); }
    }
  }

  lemma NewSlotClock(s: Sched, info: ResourceInfo, x: Slot)
    requires Partitioned(s) && info.owners != [] && info.uri in s.res && s.res[info.uri] == info
    requires Replan(s, info).Has(x) && !s.Has(x)
    ensures Replan(s, info).At(x).retry == 0 && Replan(s, info).At(x).passed == 0
  {
    ReplanShape(s, info);
    OtherLists(s, Replan(s, info), info.uri);
  }

  lemma StepSettled(s: Sched, op: Op)
    requires Settled(s)
    ensures Settled(Do(s, op))
  {
    match op
    case OpAnnounce(uri, hash, n, from, dead) =>
      AnnounceSettled(s, uri, hash, n, from);
      var a := Announce(s, uri, hash, n, from);
      if a.Some? {
        ReplanSettled(a.value, a.value.res[uri]);
        TickSettled(Replan(a.value, a.value.res[uri]), 0, dead);
      }
    case OpTick(ms, dead) => TickSettled(s, ms, dead);
    case OpSuccess(uri, block) => SucceedSettled(s, uri, block);
    case OpFail(uri) => FailSettled(s, uri);
    case OpCancel(uri) => SubSettled(s, CancelTask(s, uri));
  }

  lemma SubSettled(s: Sched, r: Sched)
    requires Settled(s) && Partitioned(r) && forall x: Slot :: r.Has(x) ==> s.Has(x) && r.At(x) == s.At(x)
    ensures Settled(r)
  {
    forall x: Slot | r.Has(x) ensures r.At(x).status != Stop { assert s.At(x).status != Stop; }
  }

  lemma SucceedSettled(s: Sched, uri: Text, block: Block)
    requires Settled(s)
    ensures Settled(Succeed(s, uri, block))
  {
    hide Succeed;
    SucceedSlots(s, Key(uri, block));
    var r := Succeed(s, uri, block);
    forall x: Slot | r.Has(x) ensures r.At(x).status != Stop { assert s.Has(x) && s.At(x).status != Stop; }
  }

  lemma FailSettled(s: Sched, uri: Text)
    requires Settled(s)
    ensures Settled(Fail(s, uri))
  {
    FailKeeps(s, uri);
    var r := Fail(s, uri);
    forall x: Slot | r.Has(x)
      ensures r.At(x).status != Stop && (r.At(x).status == Pendding ==> r.At(x).retry == 0 && r.At(x).passed == 0)
    {
      assert s.Has(x) && s.At(x).status != Stop;
    }
  }

  /** In every reachable state a waiting block has retry and passed time zero. */
  lemma {:induction false} ReachableSettled(ops: seq<Op>)
    ensures Settled(RunOps(EMPTY, ops))
  {
    hide Settled, Do;
    if ops != [] {
      ReachableSettled(ops[..|ops| - 1]);
      StepSettled(RunOps(EMPTY, ops[..|ops| - 1]), ops[|ops| - 1]);
    } else {
      EmptySettled();
    }
  }

  lemma EmptySettled()
    ensures Settled(EMPTY)
  {
  }

  /** The block waited before the operation, or the operation makes its list. */
  ghost predicate Begins(s: Sched, op: Op, x: Slot) {
    (s.Has(x) ==> s.At(x).status == Pendding) || (op.OpAnnounce? && op.uri == x.uri && x.uri in s.res && s.res[x.uri].size < op.size)
  }

  /** Whatever the operation, a block it asks for starts its clock at zero, or has failed once for a write that threw. */
  lemma StepStarts(s: Sched, op: Op, x: Slot)
    requires Settled(s) && Begins(s, op, x) && Do(s, op).Has(x) && (op.OpFail? ==> op.uri != x.uri)
    ensures Started(Do(s, op).At(x))
  {
    match op
    case OpAnnounce(uri, hash, n, from, dead) =>
      AnnounceSettled(s, uri, hash, n, from);
      var a := Announce(s, uri, hash, n, from);
      if a.Some? {
        ReplanSettled(a.value, a.value.res[uri]);
        var p := Replan(a.value, a.value.res[uri]);
        TickKeeps(p, 0, dead);
        assert p.Has(x) && p.At(x).status == Pendding by { PlannedWaits(s, op, x); }
        TickStarts(p, 0, dead, x);
      }
    case OpTick(ms, dead) =>
      TickKeeps(s, ms, dead);
      TickStarts(s, ms, dead, x);
    case OpSuccess(uri, block) => SucceedSlots(s, Key(uri, block));
    case OpFail(uri) =>
    case OpCancel(uri) =>
  }

  lemma PlannedWaits(s: Sched, op: Op, x: Slot)
    requires Settled(s) && op.OpAnnounce? && Begins(s, op, x) && Do(s, op).Has(x)
    requires Announce(s, op.uri, op.hash, op.size, op.from).Some?
    ensures var a := Announce(s, op.uri, op.hash, op.size, op.from).value;
      op.uri in a.res && ResourceOk(op.uri, a.res[op.uri])
      && Replan(a, a.res[op.uri]).Has(x) && Replan(a, a.res[op.uri]).At(x).status == Pendding
  {
    hide Replan, Tick;
    AnnounceSettled(s, op.uri, op.hash, op.size, op.from);
    var a := Announce(s, op.uri, op.hash, op.size, op.from).value;
    ReplanSettled(a, a.res[op.uri]);
    TickKeeps(Replan(a, a.res[op.uri]), 0, op.dead);
  }

  // ---------------------------------------------------------------- time-outs

  /** A request made by operation `op` in a reachable state, and what follows it. */
  ghost predicate RequestedBy(ops: seq<Op>, op: Op, later: seq<Op>, x: Slot, size: nat) {
    var s := RunOps(EMPTY, ops);
    var r := Do(s, op);
    && Begins(s, op, x) && (op.OpFail? ==> op.uri != x.uri)
    && r.Has(x) && r.At(x).status == Syning && x.uri in r.res && r.res[x.uri].size == size
    && forall k :: 0 <= k < |later| ==> Leaves(later[k], x.uri, size)
  }

  lemma RequestIsFresh(ops: seq<Op>, op: Op, later: seq<Op>, x: Slot, size: nat)
    requires RequestedBy(ops, op, later, x, size)
    ensures var r := Do(RunOps(EMPTY, ops), op); Listed(r, x, size) && JustRequested(r.At(x))
  {
    hide Do, Begins, Leaves;
    var s := RunOps(EMPTY, ops);
    ReachableSettled(ops);
    StepSettled(s, op);
    StepStarts(s, op, x);
  }

  /**
   However time is cut into ticks and whatever else happens to other blocks and files, a block in flight is not given
   up in under 300000 ms from the operation that requested it.
   */
  lemma NoEarlyTimeout(ops: seq<Op>, op: Op, later: seq<Op>, x: Slot, size: nat)
    requires RequestedBy(ops, op, later, x, size) && Elapsed(later) < 300000
    ensures var r := RunOps(Do(RunOps(EMPTY, ops), op), later); r.Has(x) && r.At(x).status in {Syning, Success}
  {
    hide Do, Begins, Leaves;
    var s := Do(RunOps(EMPTY, ops), op);
    RequestIsFresh(ops, op, later, x, size);
    AllLeave(ops, op, later, x, size);
    RunTicks(s, later, x, size);
    RetryClock(s.At(x), later);
  }

  lemma AllLeave(ops: seq<Op>, op: Op, later: seq<Op>, x: Slot, size: nat)
    requires RequestedBy(ops, op, later, x, size)
    ensures forall k :: 0 <= k < |later| ==> Leaves(later[k], x.uri, size)
  {
  }

  /** And with ticks of at most `d` ms it is finished or given up once 5 * (60000 + d) ms were ticked. */
  lemma TimeoutHappens(ops: seq<Op>, op: Op, later: seq<Op>, x: Slot, size: nat, d: nat)
    requires RequestedBy(ops, op, later, x, size) && d + 60000 < TWO64
    requires forall k :: 0 <= k < |later| ==> Ms(later[k]) <= d
    requires Elapsed(later) >= 5 * (60000 + d)
    ensures var r := RunOps(Do(RunOps(EMPTY, ops), op), later); r.Has(x) && r.At(x).status in {Failed, Success}
  {
    hide Do, Begins, Leaves, Felt, Elapsed;
    var s := Do(RunOps(EMPTY, ops), op);
    RequestIsFresh(ops, op, later, x, size);
    AllLeave(ops, op, later, x, size);
    RunTicks(s, later, x, size);
    RetryClock(s.At(x), later);
    RetryClockLag(s.At(x), later, d);
    AtMostFour(if Felt(s.At(x), later).retry < 5 then Felt(s.At(x), later).retry else 4, 59999 + d);
  }

  /** With ticks every `d` ms a block is given up at exactly the tick that ends its fifth minute, minutes rounded up to ticks. */
  lemma TimeoutExactly(ops: seq<Op>, op: Op, later: seq<Op>, x: Slot, size: nat, d: nat, p: nat)
    requires RequestedBy(ops, op, later, x, size) && Every(later, d, p)
    ensures var r := RunOps(Do(RunOps(EMPTY, ops), op), later);
      r.Has(x) && (r.At(x).status == Success || r.At(x).status == (if Ticks(later) >= 5 * p then Failed else Syning))
  {
    hide Do, Begins, Leaves, Felt, Ticks;
    var s := Do(RunOps(EMPTY, ops), op);
    RequestIsFresh(ops, op, later, x, size);
    AllLeave(ops, op, later, x, size);
    RunTicks(s, later, x, size);
    RegularClock(s.At(x), later, d, p);
  }
}
