/**
 Names that break the accounts. A header value is cut at ':' and NUL, so a request for "a:b" is answered as one for
 "a", and the answer marks a block of another file. Slot accounting holds for exactly the sets of names without such a pair.
 */
module Names {
  import opened Basics
  import opened BlockRange
  import opened NetAddr
  import Packet
  import opened Scheduler
  import opened Partition
  import opened Operations
  import opened FileStore
  import opened SyncDecision
  import opened Messages
  import opened Transfer
  import opened Accounts
  import opened Protocol
  import opened Witnesses

  /** What the other side makes of a name: nothing, or its part before the first NUL and then before the first ':'. */
  lemma NameReadExact(u: Text)
    ensures Packet.ValueRead(u) == None <==> u == [] || u[0] == Packet.NUL
    ensures Packet.ValueRead(u) == Some([]) <==> u != [] && u[0] == Packet.SEP
    ensures Packet.ValueRead(u) == Some(u) <==> u != [] && Packet.Clean(u)
    ensures Packet.ValueRead(u).Some? ==>
              var v := Packet.ValueRead(u).value;
              v <= u && 0 !in v && 58 !in v && (|v| == |u| || u[|v|] == 0 || u[|v|] == 58)
  {
    var p := Find(u, Packet.NUL);
    assert u != [] ==> (p == 0 <==> u[0] == Packet.NUL);
    if p > 0 { assert u[..p][0] == u[0]; }
  }

  const FROM: Addr := Addr(0, 0, TCP)
  const FIRST: Block := Block(0, BLOCK_SIZE)
  const SECOND: Block := Block(BLOCK_SIZE, BLOCK_SIZE + 1)

  /** `v` has two blocks, `u` has one that looks like the first of `v`. */
  function InfoV(v: Text): ResourceInfo {
    ResourceInfo(v, [], BLOCK_SIZE + 1, [FROM])
  }

  function InfoU(u: Text): ResourceInfo {
    ResourceInfo(u, [], BLOCK_SIZE, [FROM])
  }

  function AskedTask(u: Text, total: nat, b: Block): Task {
    NewTask(u, total, b, FROM).(status := Syning)
  }

  ghost function WithV(v: Text): Sched {
    Sched(map[v := [AskedTask(v, BLOCK_SIZE + 1, FIRST), AskedTask(v, BLOCK_SIZE + 1, SECOND)]], 2, map[v := InfoV(v)],
          [Sent(FROM, v, FIRST, true), Sent(FROM, v, SECOND, true)])
  }

  ghost function WithBoth(u: Text, v: Text): Sched {
    var s := WithV(v);
    Sched(s.tasks[u := [AskedTask(u, BLOCK_SIZE, FIRST)]], 3, s.res[u := InfoU(u)], [Sent(FROM, u, FIRST, true)])
  }

  lemma VPlanned(v: Text)
    ensures AddResource(EMPTY, v, [], BLOCK_SIZE + 1, FROM, {}) == WithV(v)
  {
    hide AddResource;
    var info := InfoV(v);
    NewFile(EMPTY, v, [], BLOCK_SIZE + 1, FROM);
    assert PlanCount(BLOCK_SIZE + 1) == 2;
    assert FirstAsked(Plan(info), 2) == [AskedTask(v, BLOCK_SIZE + 1, FIRST), AskedTask(v, BLOCK_SIZE + 1, SECOND)];
    assert EMPTY.out + AskedFor(Plan(info), 2) == [Sent(FROM, v, FIRST, true), Sent(FROM, v, SECOND, true)];
  }

  lemma VPartitioned(v: Text)
    ensures Partitioned(WithV(v).(out := []))
  {
    assert PlanCount(BLOCK_SIZE + 1) == 2;
  }

  lemma UPlanned(u: Text, v: Text)
    requires u != v
    ensures AddResource(WithV(v).(out := []), u, [], BLOCK_SIZE, FROM, {}) == WithBoth(u, v)
  {
    hide AddResource, Partitioned;
    var s, info := WithV(v).(out := []), InfoU(u);
    VPartitioned(v);
    forall x: Slot | s.Has(x) ensures Idle(s.At(x)) {}
    NewFile(s, u, [], BLOCK_SIZE, FROM);
    assert PlanCount(BLOCK_SIZE) == 1;
    assert FirstAsked(Plan(info), 1) == [AskedTask(u, BLOCK_SIZE, FIRST)];
    assert s.out + AskedFor(Plan(info), 1) == [Sent(FROM, u, FIRST, true)];
  }

  lemma BothPartitioned(u: Text, v: Text)
    requires u != v
    ensures Partitioned(WithBoth(u, v))
  {
    assert PlanCount(BLOCK_SIZE + 1) == 2 && PlanCount(BLOCK_SIZE) == 1;
  }

  // ---------------------------------------------------------------- the run

  function Entries(u: Text, n: nat): seq<Resource> {
    [Resource([], u, [], [], n)]
  }

  function AskV(v: Text): Step { Index(FROM, Entries(v, BLOCK_SIZE + 1), {}) }

  function AskU(u: Text): Step { Index(FROM, Entries(u, BLOCK_SIZE), {}) }

  const TAKEN: Option<seq<nat>> := Some([BLOCK_SIZE])

  lemma FirstIndex(v: Text, h: Hash)
    requires v != []
    ensures var w := Next(Start(map[]), AskV(v), h);
      w.node == Node(WithV(v).(out := []), map[]) && !w.failed
      && w.net == [Request(FROM, v, FIRST), Request(FROM, v, SECOND)]
  {
    hide AddResource, Next;
    IndexOne(Start(map[]), FROM, Entries(v, BLOCK_SIZE + 1)[0], h);
    VPlanned(v);
    OutgoingTwo(Sent(FROM, v, FIRST, true), Sent(FROM, v, SECOND, true));
  }

  lemma SecondIndex(w: World, u: Text, v: Text, h: Hash)
    requires u != [] && u != v && w.node == Node(WithV(v).(out := []), map[]) && !w.failed
    requires w.net == [Request(FROM, v, FIRST), Request(FROM, v, SECOND)]
    ensures var r := Next(w, AskU(u), h);
      r.node == Node(WithBoth(u, v).(out := []), map[]) && !r.failed
      && r.net == [Request(FROM, v, FIRST), Request(FROM, v, SECOND), Request(FROM, u, FIRST)]
  {
    hide AddResource, Next;
    IndexOne(w, FROM, Entries(u, BLOCK_SIZE)[0], h);
    UPlanned(u, v);
    OutgoingTwo(Sent(FROM, u, FIRST, true), Sent(FROM, u, FIRST, true));
  }

  /** `v` waits for its second block and `u` for its only one, while `d` slots are taken. */
  ghost predicate Scene(s: Sched, u: Text, v: Text, d: uint8) {
    && Partitioned(s) && s.out == [] && s.downloads == d && u != v
    && s.Has(Slot(v, 0)) && s.Has(Slot(v, 1)) && s.Has(Slot(u, 0))
    && s.At(Slot(v, 0)).block == FIRST && s.At(Slot(v, 1)).status == Syning && s.At(Slot(u, 0)).status == Syning
    && forall x: Slot :: s.Has(x) ==> Idle(s.At(x))
  }

  lemma BothIsScene(u: Text, v: Text)
    requires u != v
    ensures Scene(WithBoth(u, v).(out := []), u, v, 3)
  {
    BothPartitioned(u, v);
    hide Partitioned;
    SameTasksPartitioned(WithBoth(u, v));
  }

  lemma SameTasksPartitioned(s: Sched)
    requires Partitioned(s)
    ensures Partitioned(s.(out := []))
  {
  }

  /** A reply for the first block of `v` marks it, whoever asked for it, and gives back a slot. */
  lemma MarkedScene(s: Sched, u: Text, v: Text, d: uint8)
    requires Scene(s, u, v, d) && d > 0
    ensures var t := Succeed(s, v, FIRST); Scene(t, u, v, d - 1) && !IsSuccess(t, v) && Tick(t, 0, {}) == t
  {
    hide Partitioned, Tick, Succeed;
    var t, k := Succeed(s, v, FIRST), Key(v, FIRST);
    SucceedSlots(s, k);
    assert SlotKey(s, Slot(v, 0)) == k && Accounts.Holds(s, k);
    if SlotKey(s, Slot(v, 1)) == k { SlotKeysDistinct(s, Slot(v, 0), Slot(v, 1)); }
    forall x: Slot | t.Has(x) ensures Idle(t.At(x)) { assert s.Has(x); }
    AllIdle(t, {});
    assert t.At(Slot(v, 1)).status == Syning;
    assert t.tasks[v][1].status != Success;
  }

  lemma SceneArrives(w: World, i: nat, u: Text, v: Text, d: uint8, data: seq<byte>, h: Hash)
    requires Scene(w.node.sched, u, v, d) && d > 0 && !w.failed && GoodUri(v)
    requires i < |w.net| && w.net[i] == Reply(v, FIRST, data) && |data| == BLOCK_SIZE
    ensures var r := Next(w, Arrive(i, TAKEN, {}), h); Scene(r.node.sched, u, v, d - 1) && !r.failed && r.net == Without(w.net, i)
  {
    hide Scene, Next, Succeed, Tick, Saved, Without;
    ArriveOne(w, i, h);
    MarkedScene(w.node.sched, u, v, d);
    SceneOut(Succeed(w.node.sched, v, FIRST), u, v, d - 1);
    NothingWritten();
    assert Without(w.net, i) + [] == Without(w.net, i);
  }

  lemma SceneOut(s: Sched, u: Text, v: Text, d: uint8)
    requires Scene(s, u, v, d)
    ensures s.out == [] && s.(out := []) == s
  {
  }

  /** Two blocks in flight, one slot taken. */
  lemma SceneOverdrawn(w: World, u: Text, v: Text)
    requires Scene(w.node.sched, u, v, 1)
    ensures !Accounted(w)
  {
    var s, a, b := w.node.sched, Slot(v, 1), Slot(u, 0);
    assert s.tasks[a.uri][a.i].status == Syning && s.tasks[b.uri][b.i].status == Syning;
    TwoInside(ActiveSlots(s), a, b);
  }

  lemma TwoInside(xs: set<Slot>, a: Slot, b: Slot)
    requires a in xs && b in xs && a != b
    ensures |xs| >= 2
  {
    assert |xs| == |xs - {a} - {b}| + 2;
  }

  function Steps(u: Text, v: Text): seq<Step> {
    [AskV(v), AskU(u), Answer(2, Some([])), Arrive(2, TAKEN, {}), Answer(0, Some([])), Arrive(1, TAKEN, {})]
  }

  lemma SceneAnswers(w: World, i: nat, v: Text, h: Hash)
    requires i < |w.net| && w.net[i].Request? && w.net[i].block == FIRST
    requires FitUri(w.net[i].uri) && Packet.ValueRead(w.net[i].uri) == Some(v)
    ensures Next(w, Answer(i, Some([])), h) == w.(net := Without(w.net, i) + [Reply(v, FIRST, ReadSlice([], 0, BLOCK_SIZE))])
  {
    hide Next, Without, ReadSlice, Packet.ValueRead;
    AnswerOne(w, i, [], h);
  }

  /**
   Names u and v, where u is read as v: v's first block is asked for, u's block is asked for, the reply to the latter
   and the reply to the former both mark v's first block, and the counter falls below the number of blocks in flight.
   */
  lemma AmbiguousRun(u: Text, v: Text, names: set<Text>, h: Hash) returns (ws: seq<World>, steps: seq<Step>)
    requires u in names && v in names && u != v && FitNames(names) && Packet.ValueRead(u) == Some(v)
    ensures RunsClean(ws, steps, h, names) && !Accounted(ws[|steps|])
  {
    hide Scene, Next, Without, ReadSlice, Packet.ValueRead, Accounted, Announces;
    ReadNameIsGood(u, v);
    var data := ReadSlice([], 0, BLOCK_SIZE);
    steps := Steps(u, v);
    var w0 := Start(map[]);
    var w1 := Next(w0, steps[0], h);
    FirstIndex(v, h);
    var w2 := Next(w1, steps[1], h);
    SecondIndex(w1, u, v, h);
    BothIsScene(u, v);
    var w3 := Next(w2, steps[2], h);
    SceneAnswers(w2, 2, v, h);
    TakeThird(w2.net, w2.net[2], Reply(v, FIRST, data));
    var w4 := Next(w3, steps[3], h);
    SceneArrives(w3, 2, u, v, 3, data, h);
    var w5 := Next(w4, steps[4], h);
    SceneAnswers(w4, 0, v, h);
    TakeFirst(w4.net, Reply(v, FIRST, data));
    var w6 := Next(w5, steps[5], h);
    SceneArrives(w5, 1, u, v, 2, data, h);
    SceneOverdrawn(w6, u, v);
    ws := [w0, w1, w2, w3, w4, w5, w6];
    OnlyTheseNames(u, v, names);
    assert ws[0] == Start(map[]);
    assert forall k :: 0 <= k < 6 ==> Takes(ws[k], steps[k], ws[k + 1], h);
  }

  lemma ReadNameIsGood(u: Text, v: Text)
    requires FitUri(u) && FitUri(v) && Packet.ValueRead(u) == Some(v)
    ensures GoodUri(v) && Packet.ValueRead(v) == Some(v)
  {
    hide Packet.ValueRead;
    assert Packet.Clean(v);
  }

  lemma TakeThird(net: seq<Msg>, m: Msg, r: Msg)
    requires |net| == 3 && net[2] == m
    ensures (Without(net, 2) + [r])[2] == r && Without(Without(net, 2) + [r], 2) == net[..2]
    ensures |Without(net, 2) + [r]| == 3
  {
  }

  lemma TakeFirst(net: seq<Msg>, r: Msg)
    requires |net| == 2
    ensures |Without(net, 0) + [r]| == 2 && (Without(net, 0) + [r])[1] == r
  {
  }

  lemma OnlyTheseNames(u: Text, v: Text, names: set<Text>)
    requires u in names && v in names
    ensures forall k :: 0 <= k < |Steps(u, v)| ==> Announces(Steps(u, v)[k], names)
  {
  }

  /** Slot accounting holds over all runs announcing these names exactly when none of them is read as another. */
  lemma SlotAccountingExactly(names: set<Text>, h: Hash)
    requires FitNames(names)
    ensures (forall ws, steps :: RunsClean(ws, steps, h, names) ==> Accounted(ws[|steps|])) <==> Unambiguous(names)
  {
    hide RunsClean, Accounted, Packet.ValueRead, FitNames;
    if Unambiguous(names) {
      forall ws, steps | RunsClean(ws, steps, h, names) ensures |ws| > |steps| && Accounted(ws[|steps|]) {
        CleanLength(ws, steps, h, names);
        SlotAccounting(ws, steps, h, names);
      }
    } else {
      var u :| u in names && Packet.ValueRead(u).Some? && Packet.ValueRead(u).value in names && Packet.ValueRead(u).value != u;
      var ws, steps := AmbiguousRun(u, Packet.ValueRead(u).value, names, h);
      CleanLength(ws, steps, h, names);
      assert !(RunsClean(ws, steps, h, names) ==> Accounted(ws[|steps|]));
    }
  }

  lemma CleanLength(ws: seq<World>, steps: seq<Step>, h: Hash, names: set<Text>)
    requires RunsClean(ws, steps, h, names)
    ensures |ws| > |steps|
  {
  }
}
