/** Runs from the empty state, computed step by step: the inputs that show where a promise of the code ends. */
module Witnesses {
  import opened Basics
  import opened NetAddr
  import opened TextOrder
  import Packet
  import opened Scheduler
  import opened Partition
  import opened Operations
  import opened FileStore
  import opened SyncDecision
  import opened Messages
  import opened Transfer
  import opened Accounts
  import opened Protocol

  // ---------------------------------------------------------------- ticks with little to do

  /** A visit of zero milliseconds leaves it as it is. */
  ghost predicate Idle(t: Task) {
    t.status == Success || (t.status == Syning && t.passed < RETRY_MS && t.retry < MAX_RETRY)
  }

  lemma VisitIdle(s: Sched, x: Slot, dead: set<Addr>)
    requires s.Has(x) && Idle(s.At(x))
    ensures TickSlot(s, x, 0, dead) == s
  {
    if s.At(x).status == Syning {
      assert s.tasks[x.uri][x.i := s.At(x)] == s.tasks[x.uri];
      assert s.tasks[x.uri := s.tasks[x.uri]] == s.tasks;
    }
  }

  lemma {:induction false} TickIdle(s: Sched, xs: seq<Slot>, dead: set<Addr>)
    requires forall x :: x in xs ==> s.Has(x) && Idle(s.At(x))
    ensures TickSlots(s, xs, 0, dead) == s
  {
    if xs != [] {
      TickIdle(s, xs[..|xs| - 1], dead);
      VisitIdle(s, xs[|xs| - 1], dead);
    }
  }

  lemma AllIdle(s: Sched, dead: set<Addr>)
    requires forall x: Slot :: s.Has(x) ==> Idle(s.At(x))
    ensures Tick(s, 0, dead) == s
  {
    AllSlotsOnce(s.tasks);
    TickIdle(s, AllSlots(s.tasks), dead);
  }

  /** The list of `u` stands in one piece among the slots of a tick. */
  lemma {:induction false} SlotsAround(tasks: map<Text, seq<Task>>, keys: seq<Text>, n: nat, p: nat)
    returns (a: seq<Slot>, b: seq<Slot>)
    requires p < n <= |keys| && forall u :: u in keys ==> u in tasks
    ensures SlotsUpTo(tasks, keys, n) == a + SlotsOf(keys[p], |tasks[keys[p]]|) + b
  {
    if n == p + 1 {
      a, b := SlotsUpTo(tasks, keys, p), [];
    } else {
      a, b := SlotsAround(tasks, keys, n - 1, p);
      b := b + SlotsOf(keys[n - 1], |tasks[keys[n - 1]]|);
    }
  }

  lemma AllSlotsAround(tasks: map<Text, seq<Task>>, u: Text) returns (a: seq<Slot>, b: seq<Slot>)
    requires u in tasks
    ensures AllSlots(tasks) == a + SlotsOf(u, |tasks[u]|) + b
    ensures forall x :: x in a || x in b ==> x.uri != u && x.uri in tasks && x.i < |tasks[x.uri]|
  {
    hide SlotsUpTo;
    var keys := Sorted(tasks.Keys);
    assert u in keys;
    var p :| 0 <= p < |keys| && keys[p] == u;
    a, b := SlotsAround(tasks, keys, |keys|, p);
    AllSlotsOnce(tasks);
    var own, all := SlotsOf(u, |tasks[u]|), AllSlots(tasks);
    forall k, i | 0 <= k < |a| && 0 <= i < |own| ensures a[k] != Slot(u, i) {
      assert all[k] == a[k] && all[|a| + i] == own[i];
    }
    forall k, i | 0 <= k < |b| && 0 <= i < |own| ensures b[k] != Slot(u, i) {
      assert all[|a| + |own| + k] == b[k] && all[|a| + i] == own[i];
    }
    forall x | x in a || x in b ensures x.uri != u && x.uri in tasks && x.i < |tasks[x.uri]| {
      assert x in all && x == Slot(x.uri, x.i);
    }
  }

  // ---------------------------------------------------------------- a new file is announced

  function FirstAsked(ts: seq<Task>, j: nat): (r: seq<Task>)
    requires j <= |ts|
    ensures |r| == |ts| && forall i :: 0 <= i < |ts| ==> r[i] == if i < j then ts[i].(status := Syning) else ts[i]
  {
    seq(|ts|, i requires 0 <= i < |ts| => if i < j then ts[i].(status := Syning) else ts[i])
  }

  function AskedFor(ts: seq<Task>, j: nat): (r: seq<Sent>)
    requires j <= |ts|
    ensures |r| == j && forall i :: 0 <= i < j ==> r[i] == Sent(ts[i].ctx, ts[i].uri, ts[i].block, true)
  {
    seq(j, i requires 0 <= i < j => Sent(ts[i].ctx, ts[i].uri, ts[i].block, true))
  }

  /** The scheduler once the first `j` blocks of the list of `u` were asked for. */
  function Asking(s: Sched, u: Text, j: nat): Sched
    requires u in s.tasks && j <= |s.tasks[u]| && s.downloads + j < 256
  {
    s.(tasks := s.tasks[u := FirstAsked(s.tasks[u], j)], downloads := s.downloads + j, out := s.out + AskedFor(s.tasks[u], j))
  }

  lemma {:induction false} TickAsks(s: Sched, u: Text, j: nat)
    requires u in s.tasks && j <= |s.tasks[u]| && s.downloads + |s.tasks[u]| <= DOWNLOAD_LIMIT
    requires forall i :: 0 <= i < |s.tasks[u]| ==> s.tasks[u][i].status == Pendding
    ensures TickSlots(s, SlotsOf(u, j), 0, {}) == Asking(s, u, j)
  {
    hide TickSlot, Asking;
    if j == 0 {
      AskingNone(s, u);
    } else {
      TickAsks(s, u, j - 1);
      SlotsOfStep(u, j - 1);
      TickSlotsStep(s, SlotsOf(u, j - 1), Slot(u, j - 1), 0, {});
      AskingStep(s, u, j);
    }
  }

  lemma AskingNone(s: Sched, u: Text)
    requires u in s.tasks
    ensures Asking(s, u, 0) == s
  {
    assert FirstAsked(s.tasks[u], 0) == s.tasks[u] && s.tasks[u := s.tasks[u]] == s.tasks;
    assert s.out + AskedFor(s.tasks[u], 0) == s.out;
  }

  lemma AskingStep(s: Sched, u: Text, j: nat)
    requires u in s.tasks && 0 < j <= |s.tasks[u]| && s.downloads + |s.tasks[u]| <= DOWNLOAD_LIMIT
    requires s.tasks[u][j - 1].status == Pendding
    ensures TickSlot(Asking(s, u, j - 1), Slot(u, j - 1), 0, {}) == Asking(s, u, j)
  {
    var ts := s.tasks[u];
    var e := Sent(ts[j - 1].ctx, ts[j - 1].uri, ts[j - 1].block, true);
    assert FirstAsked(ts, j - 1)[j - 1 := ts[j - 1].(status := Syning)] == FirstAsked(ts, j);
    assert AskedFor(ts, j - 1) + [e] == AskedFor(ts, j);
    assert s.out + AskedFor(ts, j - 1) + [e] == s.out + AskedFor(ts, j);
    assert s.tasks[u := FirstAsked(ts, j - 1)][u := FirstAsked(ts, j)] == s.tasks[u := FirstAsked(ts, j)];
  }

  /** A tick asks for every block of one waiting list and leaves the others alone. */
  lemma TickAsksAll(s: Sched, u: Text)
    requires u in s.tasks && s.downloads + |s.tasks[u]| <= DOWNLOAD_LIMIT
    requires forall i :: 0 <= i < |s.tasks[u]| ==> s.tasks[u][i].status == Pendding
    requires forall x: Slot :: s.Has(x) && x.uri != u ==> Idle(s.At(x))
    ensures Tick(s, 0, {}) == Asking(s, u, |s.tasks[u]|)
  {
    var n := |s.tasks[u]|;
    var a, b := AllSlotsAround(s.tasks, u);
    var r := Asking(s, u, n);
    TickSlotsAppend(s, a + SlotsOf(u, n), b, 0, {});
    TickSlotsAppend(s, a, SlotsOf(u, n), 0, {});
    forall x | x in a ensures s.Has(x) && Idle(s.At(x)) {}
    forall x | x in b ensures r.Has(x) && Idle(r.At(x)) { assert s.Has(x) && r.At(x) == s.At(x); }
    TickIdle(s, a, {});
    TickAsks(s, u, n);
    TickIdle(r, b, {});
  }

  function Plan(info: ResourceInfo): (r: seq<Task>)
    requires info.owners != []
    ensures |r| == PlanCount(info.size) && forall i :: 0 <= i < |r| ==> r[i] == PlanTask(info, i)
  {
    seq(PlanCount(info.size), (i: nat) => PlanTask(info, i))
  }

  lemma NewPlan(s: Sched, info: ResourceInfo)
    requires Partitioned(s) && info.uri !in s.tasks && info.owners != [] && 0 < PlanCount(info.size)
    ensures Replan(s, info) == s.(tasks := s.tasks[info.uri := Plan(info)])
  {
    var p, u := Replan(s, info), info.uri;
    ReplanShape(s, info);
    assert p.tasks[u] == Plan(info);
    OtherLists(s, p, u);
    assert p.tasks == s.tasks[u := Plan(info)];
  }

  /** A new file whose blocks all find a free slot: its whole plan is in flight. */
  lemma NewFile(s: Sched, u: Text, hash: Text, size: nat, from: Addr)
    requires Partitioned(s) && u !in s.res && 0 < PlanCount(size) && s.downloads + PlanCount(size) <= DOWNLOAD_LIMIT
    requires forall x: Slot :: s.Has(x) ==> Idle(s.At(x))
    ensures var info := ResourceInfo(u, hash, size, [from]);
      AddResource(s, u, hash, size, from, {})
      == s.(res := s.res[u := info], tasks := s.tasks[u := FirstAsked(Plan(info), PlanCount(size))],
            downloads := s.downloads + PlanCount(size), out := s.out + AskedFor(Plan(info), PlanCount(size)))
  {
    hide Replan, Tick, PlanCount;
    var info := ResourceInfo(u, hash, size, [from]);
    var a := s.(res := s.res[u := info]);
    AnnounceKeeps(s, u, hash, size, from);
    var p := a.(tasks := a.tasks[u := Plan(info)]);
    NewPlan(a, info);
    forall x: Slot | p.Has(x) && x.uri != u ensures Idle(p.At(x)) { assert s.Has(x) && p.At(x) == s.At(x); }
    TickAsksAll(p, u);
    assert s.tasks[u := Plan(info)][u := FirstAsked(Plan(info), PlanCount(size))]
        == s.tasks[u := FirstAsked(Plan(info), PlanCount(size))];
  }

  /** A node without the file wants the one entry it is sent. */
  lemma OneWanted(r: Resource, files: map<Text, seq<byte>>, h: Hash)
    requires r.uri != [] && r.uri !in files
    ensures NeedToSync([r], Listing(files, h)) == [r]
  {
    var local, table := Listing(files, h), [r];
    assert table[..0] == [] && LastFor(table, r.uri) == Some(r);
    forall k | 0 <= k < |local| ensures local[k].uri != r.uri {
      assert Sorted(files.Keys)[k] in Sorted(files.Keys);
    }
    assert Wanted(table, local, r.uri);
    assert WantedUris(table, local) == {r.uri} by {
      assert table[0].uri == r.uri;
    }
    SortedOne(r.uri);
    WantedUrisAreKnown(table, local);
  }

  lemma IndexOne(w: World, from: Addr, r: Resource, h: Hash)
    requires r.uri != [] && r.uri !in w.node.files
    ensures Next(w, Index(from, [r], {}), h)
         == Flush(w, w.node.(sched := AddResource(w.node.sched, r.uri, r.hash, r.size, from, {})))
  {
    hide AddResource, Flush;
    OneWanted(r, w.node.files, h);
    assert AddAll(w.node.sched, [r], 0, from, {}) == w.node.sched;
    assert AddAll(w.node.sched, [r], 1, from, {}) == AddResource(w.node.sched, r.uri, r.hash, r.size, from, {});
  }

  // ---------------------------------------------------------------- requests and replies

  /** One whole block is read and answered under the name its reader made of it. */
  lemma AnswerOne(w: World, i: nat, file: seq<byte>, h: Hash)
    requires i < |w.net| && w.net[i].Request? && FitUri(w.net[i].uri) && Packet.ValueRead(w.net[i].uri).Some?
    requires w.net[i].block.start < w.net[i].block.end <= w.net[i].block.start + BLOCK_SIZE && w.net[i].block.end <= INT_MAX
    ensures var m := w.net[i];
      Next(w, Answer(i, Some(file)), h) == w.(net := Without(w.net, i)
        + [Reply(Packet.ValueRead(m.uri).value, m.block, ReadSlice(file, m.block.start, m.block.end - m.block.start))])
  {
    hide Heard, ReadSlice, Without, Packet.ValueRead;
    HeardOrLost(w.net[i]);
    OneAnswer(w.net[i], Some(file));
  }

  /** A clean reply, written at once, is taken as it was sent. */
  lemma ArriveOne(w: World, i: nat, h: Hash)
    requires i < |w.net| && w.net[i].Reply? && GoodUri(w.net[i].uri) && Readable(w.net[i].block)
    requires 0 < |w.net[i].data| <= BLOCK_SIZE
    ensures var m := w.net[i];
      Next(w, Arrive(i, Some([|m.data|]), {}), h) == Arrived(w.(net := Without(w.net, i)), m, [|m.data|], h, {})
  {
    hide Heard, Arrived;
    HeardOrLost(w.net[i]);
    assert [|w.net[i].data|][1..] == [];
    assert WriteCounts([|w.net[i].data|], |w.net[i].data|);
  }

  lemma OutgoingTwo(a: Sent, b: Sent)
    requires a.ok && b.ok
    ensures Outgoing([a]) == [Request(a.to, a.uri, a.block)]
    ensures Outgoing([a, b]) == [Request(a.to, a.uri, a.block), Request(b.to, b.uri, b.block)]
  {
    OutgoingStep([], a);
    OutgoingStep([a], b);
    assert [] + [a] == [a] && [a] + [b] == [a, b];
  }
}
