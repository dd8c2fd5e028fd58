/**
 What a failed verification does to the slot counter: `fail` gives back slots that `success` already gave back, the
 8-bit counter wraps, and with it wrapped nothing is ever requested again.
 */
module Stall {
  import opened Basics
  import opened BlockRange
  import opened NetAddr
  import opened Scheduler
  import opened Partition
  import opened Operations
  import opened FileStore
  import opened SyncDecision
  import opened Messages
  import opened Transfer
  import opened Accounts
  import opened Protocol
  import opened Witnesses

  // ---------------------------------------------------------------- the counter

  lemma {:induction false} DecrementWraps(n: uint8, k: nat)
    ensures DecrementBy(n, k) == (n - k) % 256
  {
    if k > 0 {
      DecrementWraps(n, k - 1);
      StepDown(n - k + 1);
    }
  }

  lemma StepDown(a: int)
    ensures (a - 1) % 256 == if a % 256 == 0 then 255 else a % 256 - 1
  {
  }

  lemma FailCounter(s: Sched, uri: Text)
    requires uri in s.tasks
    ensures Fail(s, uri).downloads == (s.downloads - |s.tasks[uri]|) % 256
  {
    DecrementWraps(s.downloads, |s.tasks[uri]|);
  }

  // ---------------------------------------------------------------- with no slot free nothing is sent

  ghost predicate SameOut(s: Sched, r: Sched) {
    r.out == s.out && r.downloads == s.downloads
  }

  lemma {:induction false} FullVisitsSendNothing(s: Sched, xs: seq<Slot>, ms: uint64, dead: set<Addr>)
    requires Partitioned(s) && s.downloads >= DOWNLOAD_LIMIT && AllIn(xs, s)
    ensures SameOut(s, TickSlots(s, xs, ms, dead))
  {
    hide Partitioned, TickSlot;
    if xs != [] {
      var init, x := xs[..|xs| - 1], xs[|xs| - 1];
      FullVisitsSendNothing(s, init, ms, dead);
      TicksKeep(s, init, ms, dead);
      assert s.Has(x) && TickSlots(s, init, ms, dead).Has(x);
      VisitIsLocal(TickSlots(s, init, ms, dead), x, ms, dead);
    }
  }

  lemma FullTickSendsNothing(s: Sched, ms: uint64, dead: set<Addr>)
    requires Partitioned(s) && s.downloads >= DOWNLOAD_LIMIT
    ensures Partitioned(Tick(s, ms, dead)) && SameOut(s, Tick(s, ms, dead))
  {
    AllSlotsOnce(s.tasks);
    FullVisitsSendNothing(s, AllSlots(s.tasks), ms, dead);
    TickKeeps(s, ms, dead);
  }

  lemma FullAnnounceSendsNothing(s: Sched, uri: Text, hash: Text, size: nat, from: Addr, dead: set<Addr>)
    requires Partitioned(s) && s.downloads >= DOWNLOAD_LIMIT
    ensures var r := AddResource(s, uri, hash, size, from, dead); Partitioned(r) && SameOut(s, r)
  {
    hide Tick, Replan, Partitioned;
    AnnounceKeeps(s, uri, hash, size, from);
    var a := Announce(s, uri, hash, size, from);
    if a.Some? {
      AnnounceOwned(s, uri, hash, size, from);
      ReplanKeeps(a.value, a.value.res[uri]);
      ReplanOut(a.value, a.value.res[uri]);
      FullTickSendsNothing(Replan(a.value, a.value.res[uri]), 0, dead);
    }
  }

  lemma AnnounceOwned(s: Sched, uri: Text, hash: Text, size: nat, from: Addr)
    requires Partitioned(s)
    ensures var a := Announce(s, uri, hash, size, from);
      a.Some? ==> Partitioned(a.value) && SameOut(s, a.value) && uri in a.value.res && ResourceOk(uri, a.value.res[uri])
  {
    AnnounceKeeps(s, uri, hash, size, from);
  }

  lemma ReplanOut(s: Sched, info: ResourceInfo)
    requires Partitioned(s) && info.owners != [] && info.uri in s.res && s.res[info.uri] == info
    ensures SameOut(s, Replan(s, info))
  {
    ReplanShape(s, info);
  }

  lemma {:induction false} FullIndexSendsNothing(s: Sched, rs: seq<Resource>, k: nat, from: Addr, dead: set<Addr>)
    requires Partitioned(s) && s.downloads >= DOWNLOAD_LIMIT && k <= |rs|
    ensures var r := AddAll(s, rs, k, from, dead); Partitioned(r) && SameOut(s, r)
  {
    hide Partitioned, AddResource;
    if k > 0 {
      FullIndexSendsNothing(s, rs, k - 1, from, dead);
      FullAnnounceSendsNothing(AddAll(s, rs, k - 1, from, dead), rs[k - 1].uri, rs[k - 1].hash, rs[k - 1].size, from, dead);
    }
  }

  // ---------------------------------------------------------------- with a slot free and a block waiting something is

  lemma {:induction false} VisitsSend(s: Sched, xs: seq<Slot>, x: Slot, ms: uint64, dead: set<Addr>)
    requires Partitioned(s) && AllIn(xs, s) && s.downloads < DOWNLOAD_LIMIT && x in xs && s.At(x).status == Pendding
    ensures |TickSlots(s, xs, ms, dead).out| > |s.out|
  {
    hide Partitioned, TickSlot;
    var init, y := xs[..|xs| - 1], xs[|xs| - 1];
    var m := TickSlots(s, init, ms, dead);
    TicksKeep(s, init, ms, dead);
    assert xs == init + [y] && s.Has(y) && m.Has(y);
    VisitIsLocal(m, y, ms, dead);
    VisitsOut(s, init, ms, dead);
    if x in init {
      VisitsSend(s, init, x, ms, dead);
    } else {
      assert m.At(x) == s.At(x);
    }
  }

  /** The counter grows with the requests written, until it is full. */
  lemma {:induction false} VisitsOut(s: Sched, xs: seq<Slot>, ms: uint64, dead: set<Addr>)
    requires Partitioned(s) && AllIn(xs, s)
    ensures var r := TickSlots(s, xs, ms, dead);
      |r.out| >= |s.out| && (|r.out| == |s.out| ==> SameOut(s, r))
  {
    hide Partitioned, TickSlot;
    if xs != [] {
      var init, y := xs[..|xs| - 1], xs[|xs| - 1];
      VisitsOut(s, init, ms, dead);
      TicksKeep(s, init, ms, dead);
      assert s.Has(y) && TickSlots(s, init, ms, dead).Has(y);
      VisitIsLocal(TickSlots(s, init, ms, dead), y, ms, dead);
    }
  }

  lemma TickSends(s: Sched, x: Slot, ms: uint64, dead: set<Addr>)
    requires Partitioned(s) && s.downloads < DOWNLOAD_LIMIT && s.Has(x) && s.At(x).status == Pendding
    ensures |Tick(s, ms, dead).out| > |s.out|
  {
    AllSlotsOnce(s.tasks);
    VisitsSend(s, AllSlots(s.tasks), x, ms, dead);
  }

  /** Some larger size is planned with at least one block; the 32-bit loop bound may wrap to none at others. */
  lemma LargerPlan(least: nat) returns (size: nat)
    ensures size >= least && PlanCount(size) > 0
  {
    size := least;
    if PlanCount(size) == 0 {
      var q := size / BLOCK_SIZE + 1;
      PlanCountArithmetic(size);
      size := size + BLOCK_SIZE;
      assert size / BLOCK_SIZE + 1 == q + 1;
      ModStep(q, TWO32);
      PlanCountArithmetic(size);
    }
  }

  lemma NewPlanWaits(s: Sched, info: ResourceInfo)
    requires Partitioned(s) && info.uri in s.res && s.res[info.uri] == info && info.uri !in s.tasks
    requires info.owners != [] && PlanCount(info.size) > 0
    ensures var p := Replan(s, info);
      Partitioned(p) && SameOut(s, p) && p.Has(Slot(info.uri, 0)) && p.At(Slot(info.uri, 0)).status == Pendding
  {
    ReplanKeeps(s, info);
    ReplanOut(s, info);
    NewPlan(s, info);
  }

  /** Some version of any file is requested at once when a slot is free. */
  lemma NewVersionSends(s: Sched, uri: Text, hash: Text, from: Addr, dead: set<Addr>) returns (size: nat)
    requires Partitioned(s) && s.downloads < DOWNLOAD_LIMIT
    ensures |AddResource(s, uri, hash, size, from, dead).out| > |s.out|
  {
    hide Tick, Replan, PlanCount;
    size := LargerPlan(if uri in s.res then s.res[uri].size + 1 else 0);
    AnnounceOwned(s, uri, hash, size, from);
    var a := Announce(s, uri, hash, size, from).value;
    assert uri !in a.tasks;
    NewPlanWaits(a, a.res[uri]);
    TickSends(Replan(a, a.res[uri]), Slot(uri, 0), 0, dead);
  }

  // ---------------------------------------------------------------- silence

  /** What can happen while no reply arrives. */
  ghost predicate Quiet(ops: seq<Op>) {
    forall k :: 0 <= k < |ops| ==> ops[k].OpAnnounce? || ops[k].OpTick? || ops[k].OpCancel?
  }

  /** No request will ever be written again. */
  ghost predicate Silent(s: Sched) {
    forall ops :: Quiet(ops) ==> RunOps(s, ops).out == s.out
  }

  lemma FullStepSendsNothing(s: Sched, op: Op)
    requires Partitioned(s) && s.downloads >= DOWNLOAD_LIMIT && (op.OpAnnounce? || op.OpTick? || op.OpCancel?)
    ensures Partitioned(Do(s, op)) && SameOut(s, Do(s, op))
  {
    match op
    case OpAnnounce(uri, hash, size, from, dead) => FullAnnounceSendsNothing(s, uri, hash, size, from, dead);
    case OpTick(ms, dead) => FullTickSendsNothing(s, ms, dead);
    case OpCancel(uri) => CancelKeeps(s, uri);
  }

  lemma {:induction false} FullRunSendsNothing(s: Sched, ops: seq<Op>)
    requires Partitioned(s) && s.downloads >= DOWNLOAD_LIMIT && Quiet(ops)
    ensures Partitioned(RunOps(s, ops)) && SameOut(s, RunOps(s, ops))
  {
    hide Partitioned, Do;
    if ops != [] {
      FullRunSendsNothing(s, ops[..|ops| - 1]);
      FullStepSendsNothing(RunOps(s, ops[..|ops| - 1]), ops[|ops| - 1]);
    }
  }

  /** Without replies, nothing is ever requested again exactly when the counter is at its limit or above. */
  lemma SilentExactly(s: Sched)
    requires Partitioned(s)
    ensures Silent(s) <==> s.downloads >= 5
  {
    hide Do, Partitioned;
    if s.downloads >= DOWNLOAD_LIMIT {
      forall ops | Quiet(ops) ensures RunOps(s, ops).out == s.out { FullRunSendsNothing(s, ops); }
    } else {
      var from := Addr(0, 0, TCP);
      var size := NewVersionSends(s, [], [], from, {});
      var ops := [OpAnnounce([], [], size, from, {})];
      assert ops[..0] == [] && RunOps(s, []) == s;
      assert RunOps(s, ops) == Do(s, ops[0]);
      SendingIsNotSilent(s, ops, size, from);
    }
  }

  lemma SendingIsNotSilent(s: Sched, ops: seq<Op>, size: nat, from: Addr)
    requires ops == [OpAnnounce([], [], size, from, {})] && RunOps(s, ops) == Do(s, ops[0])
    requires |AddResource(s, [], [], size, from, {}).out| > |s.out|
    ensures !Silent(s)
  {
    hide AddResource;
    assert Quiet(ops) && RunOps(s, ops).out != s.out;
  }

  /** For lists of every length: exactly when `fail` silences the scheduler for ever. */
  lemma FailSilencesExactly(s: Sched, uri: Text)
    requires Partitioned(s) && uri in s.tasks
    ensures Silent(Fail(s, uri)) <==> (s.downloads - |s.tasks[uri]|) % 256 >= 5
  {
    hide Silent, Partitioned, Fail;
    FailKeeps(s, uri);
    FailCounter(s, uri);
    SilentExactly(Fail(s, uri));
  }

  // ---------------------------------------------------------------- whole runs

  /** No slot free, and nothing under way that could free one. */
  ghost predicate Stalled(w: World) {
    Partitioned(w.node.sched) && w.node.sched.out == [] && w.node.sched.downloads >= DOWNLOAD_LIMIT && w.net == []
  }

  lemma StalledFlush(w: World, n: Node)
    requires Stalled(w) && Partitioned(n.sched) && SameOut(w.node.sched, n.sched)
    ensures Stalled(Flush(w, n)) && Flush(w, n).issued == w.issued
  {
    NothingWritten();
    assert w.issued + multiset{} == w.issued && n.sched.(out := []) == n.sched;
  }

  lemma StalledStep(w: World, step: Step, h: Hash)
    requires Stalled(w)
    ensures Stalled(Next(w, step, h)) && Next(w, step, h).issued == w.issued
  {
    hide Flush, Tick, Partitioned, AddAll, NeedToSync;
    match step
    case Index(from, table, dead) =>
      var need := NeedToSync(table, Listing(w.node.files, h));
      FullIndexSendsNothing(w.node.sched, need, |need|, from, dead);
      StalledFlush(w, RecvIdx(w.node, from, table, h, dead));
    case Timer(ms, dead) =>
      FullTickSendsNothing(w.node.sched, ms, dead);
      StalledFlush(w, w.node.(sched := Tick(w.node.sched, ms, dead)));
    case Answer(i, file) =>
    case Arrive(i, disk, dead) =>
    case Lose(i) =>
  }

  /** A stalled node stays stalled: no later index, tick or message makes it write another request. */
  lemma {:induction false} StalledForever(ws: seq<World>, steps: seq<Step>, h: Hash, n: nat, k: nat)
    requires IsRun(ws, steps, h) && n <= k < |ws| && Stalled(ws[n])
    ensures Stalled(ws[k]) && ws[k].issued == ws[n].issued
  {
    hide Stalled, Next;
    if k > n {
      StalledForever(ws, steps, h, n, k - 1);
      assert Takes(ws[k - 1], steps[k - 1], ws[k], h);
      StalledStep(ws[k - 1], steps[k - 1], h);
    }
  }

  /**
   A hash mismatch, for a file of any number of blocks and at any counter: when the counter lands at five or above and
   no message is left under way, every later download stops.
   */
  lemma MismatchStallsEverything(w: World, m: Msg, counts: seq<nat>, h: Hash, dead: set<Addr>)
    requires m.Reply? && AllAtMost(counts, |m.data|)
    requires Partitioned(w.node.sched) && w.node.sched.out == [] && w.net == []
    requires Judge(Succeed(w.node.sched, m.uri, m.block), Saved(w.node.files, m.uri, m.block.start, m.data, counts), m.uri, h) == Mismatch
    requires (Succeed(w.node.sched, m.uri, m.block).downloads - |w.node.sched.tasks[m.uri]|) % 256 >= DOWNLOAD_LIMIT
    ensures var r := Arrived(w, m, counts, h, dead); r.failed && Stalled(r)
  {
    hide Tick, Flush, Saved, Succeed, Fail, Judge, Partitioned;
    var s, files := w.node.sched, Saved(w.node.files, m.uri, m.block.start, m.data, counts);
    MismatchListed(s, m.uri, m.block, files, h);
    MismatchFills(s, m.uri, m.block, dead);
    FlushSilent(w.(matched := MatchedAfter(s, KeyOf(m), w.matched), failed := true),
                RecvRs(w.node, m.uri, m.block, m.data, counts, h, dead));
  }

  lemma MismatchListed(s: Sched, u: Text, b: Block, files: map<Text, seq<byte>>, h: Hash)
    requires Partitioned(s) && Judge(Succeed(s, u, b), files, u, h) == Mismatch
    ensures u in s.tasks
  {
    SucceedKeeps(s, u, b);
  }

  lemma MismatchFills(s: Sched, u: Text, b: Block, dead: set<Addr>)
    requires Partitioned(s) && u in s.tasks
    requires (Succeed(s, u, b).downloads - |s.tasks[u]|) % 256 >= DOWNLOAD_LIMIT
    ensures var q := Tick(Fail(Succeed(s, u, b), u), 0, dead); Partitioned(q) && q.out == s.out && q.downloads >= DOWNLOAD_LIMIT
  {
    hide Tick, Fail;
    var t := Succeed(s, u, b);
    SucceedKeeps(s, u, b);
    FailKeeps(t, u);
    FailCounter(t, u);
    FailOut(t, u);
    FullTickSendsNothing(Fail(t, u), 0, dead);
  }

  lemma FailOut(s: Sched, u: Text)
    ensures Fail(s, u).out == s.out
  {
  }

  lemma FlushSilent(w: World, n: Node)
    requires w.net == [] && Partitioned(n.sched) && n.sched.out == [] && n.sched.downloads >= DOWNLOAD_LIMIT
    ensures Stalled(Flush(w, n)) && Flush(w, n).failed == w.failed
  {
    NothingWritten();
    assert n.sched.(out := []) == n.sched;
  }

  // ---------------------------------------------------------------- it happens

  /** A peer announces one file of one byte with a hash that is not that of its bytes, answers, and the answer arrives. */
  function BadHashRun(u: Text, x: byte, bad: Text, from: Addr): seq<Step> {
    [Index(from, [Resource([], u, [], bad, 1)], {}), Answer(0, Some([x])), Arrive(0, Some([1]), {})]
  }

  ghost function BadHashWorld(u: Text, bad: Text, from: Addr): World {
    var info := ResourceInfo(u, bad, 1, [from]);
    World(Node(Sched(map[u := [PlanTask(info, 0).(status := Syning)]], 1, map[u := info], []), map[]),
          [Request(from, u, Block(0, 1))], multiset{Key(u, Block(0, 1))}, multiset{}, {}, false)
  }

  lemma BadHashPlan(u: Text, bad: Text, from: Addr)
    ensures var info := ResourceInfo(u, bad, 1, [from]);
      AddResource(EMPTY, u, bad, 1, from, {})
      == Sched(map[u := [PlanTask(info, 0).(status := Syning)]], 1, map[u := info], [Sent(from, u, Block(0, 1), true)])
  {
    hide AddResource;
    var info := ResourceInfo(u, bad, 1, [from]);
    NewFile(EMPTY, u, bad, 1, from);
    assert Plan(info) == [PlanTask(info, 0)];
    assert FirstAsked(Plan(info), 1) == [PlanTask(info, 0).(status := Syning)];
    assert AskedFor(Plan(info), 1) == [Sent(from, u, Block(0, 1), true)];
    assert EMPTY.out + AskedFor(Plan(info), 1) == [Sent(from, u, Block(0, 1), true)];
  }

  lemma OneSent(e: Sent)
    requires e.ok
    ensures Outgoing([e]) == [Request(e.to, e.uri, e.block)] && SentKeys([e]) == multiset{Key(e.uri, e.block)}
  {
    OutgoingTwo(e, e);
    OutStep([], e);
    assert [] + [e] == [e];
  }

  lemma BadHashAnnounced(u: Text, bad: Text, from: Addr, h: Hash)
    requires u != []
    ensures Next(Start(map[]), Index(from, [Resource([], u, [], bad, 1)], {}), h) == BadHashWorld(u, bad, from)
  {
    hide AddResource, Next;
    IndexOne(Start(map[]), from, Resource([], u, [], bad, 1), h);
    BadHashPlan(u, bad, from);
    OneSent(Sent(from, u, Block(0, 1), true));
  }

  ghost function BadHashReplied(u: Text, x: byte, bad: Text, from: Addr): World {
    BadHashWorld(u, bad, from).(net := [Reply(u, Block(0, 1), [x])])
  }

  lemma BadHashAnswered(u: Text, x: byte, bad: Text, from: Addr, h: Hash)
    requires GoodUri(u)
    ensures Next(BadHashWorld(u, bad, from), Answer(0, Some([x])), h) == BadHashReplied(u, x, bad, from)
  {
    hide Next;
    AnswerOne(BadHashWorld(u, bad, from), 0, [x], h);
    assert ReadSlice([x], 0, 1) == [x];
  }

  lemma BadHashMismatch(u: Text, x: byte, bad: Text, from: Addr, h: Hash)
    requires h([x]) != bad
    ensures var s := BadHashWorld(u, bad, from).node.sched;
      && Partitioned(s) && Succeed(s, u, Block(0, 1)).downloads == 0
      && Judge(Succeed(s, u, Block(0, 1)), Saved(map[], u, 0, [x], [1]), u, h) == Mismatch
  {
    hide Succeed;
    var s, b := BadHashWorld(u, bad, from).node.sched, Block(0, 1);
    var t := Succeed(s, u, b);
    assert Partitioned(s);
    assert SlotKey(s, Slot(u, 0)) == Key(u, b);
    SucceedSlots(s, Key(u, b));
    assert t.At(Slot(u, 0)).status == Success;
    assert [x][..1] == [x] && [1][1..] == [];
    assert Written([], 0, [x], [1]) == [x];
  }

  /**
   It is reached: from the empty state, a one-byte file announced with a wrong hash, answered and received, leaves the
   counter at 255 and the node stalled for every continuation of the run.
   */
  lemma StallIsReached(u: Text, x: byte, bad: Text, from: Addr, ws: seq<World>, steps: seq<Step>, h: Hash, k: nat)
    requires GoodUri(u) && h([x]) != bad
    requires IsRun(ws, steps, h) && ws[0] == Start(map[]) && BadHashRun(u, x, bad, from) <= steps && 3 <= k < |ws|
    ensures ws[3].failed && ws[3].node.sched.downloads == 255
    ensures Stalled(ws[k]) && ws[k].issued == multiset{Key(u, Block(0, 1))}
  {
    hide Next, Stalled, Arrived, Judge, Succeed, Saved;
    assert Takes(ws[0], steps[0], ws[1], h) && Takes(ws[1], steps[1], ws[2], h) && Takes(ws[2], steps[2], ws[3], h);
    BadHashAnnounced(u, bad, from, h);
    BadHashAnswered(u, x, bad, from, h);
    BadHashTaken(u, x, bad, from, h);
    BadHashMismatch(u, x, bad, from, h);
    assert steps[0] == BadHashRun(u, x, bad, from)[0] && steps[1] == BadHashRun(u, x, bad, from)[1];
    assert steps[2] == BadHashRun(u, x, bad, from)[2];
    MismatchStallsEverything(BadHashReplied(u, x, bad, from).(net := []), Reply(u, Block(0, 1), [x]), [1], h, {});
    BadHashArrives(u, x, bad, from, h);
    StalledForever(ws, steps, h, 3, k);
  }

  lemma BadHashTaken(u: Text, x: byte, bad: Text, from: Addr, h: Hash)
    requires GoodUri(u)
    ensures var w := BadHashReplied(u, x, bad, from);
      Next(w, Arrive(0, Some([1]), {}), h) == Arrived(w.(net := []), Reply(u, Block(0, 1), [x]), [1], h, {})
  {
    hide Next, Arrived;
    var w := BadHashReplied(u, x, bad, from);
    ArriveOne(w, 0, h);
    assert Without(w.net, 0) == [] && |w.net[0].data| == 1;
  }

  lemma BadHashArrives(u: Text, x: byte, bad: Text, from: Addr, h: Hash)
    requires h([x]) != bad
    ensures var r := Arrived(BadHashReplied(u, x, bad, from).(net := []), Reply(u, Block(0, 1), [x]), [1], h, {});
      r.node.sched.downloads == 255 && r.issued == multiset{Key(u, Block(0, 1))}
  {
    hide Tick, Succeed, Judge, Fail, Partitioned;
    var s, b := BadHashWorld(u, bad, from).node.sched, Block(0, 1);
    BadHashMismatch(u, x, bad, from, h);
    var t := Succeed(s, u, b);
    SucceedKeeps(s, u, b);
    FailKeeps(t, u);
    FailCounter(t, u);
    FailOut(t, u);
    FullTickSendsNothing(Fail(t, u), 0, {});
    SucceedSlots(s, Key(u, b));
    NothingWritten();
    assert multiset{Key(u, b)} + multiset{} == multiset{Key(u, b)};
  }
}
