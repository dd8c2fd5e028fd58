/** What an announcement, a failure and a tick leave in the resource table, the lists and the requests written. */
module Records {
  import opened Basics
  import opened NetAddr
  import opened TextOrder
  import opened Scheduler
  import opened Partition
  import opened Operations
  import opened Accounts

  // ---------------------------------------------------------------- announcements

  /** An unknown file or a newer version: exactly what was announced, and a new list that asks its announcer alone. */
  lemma NewVersionRecord(s: Sched, uri: Text, hash: Text, size: nat, from: Addr, dead: set<Addr>)
    requires Partitioned(s) && (uri in s.res ==> s.res[uri].size < size)
    ensures var r := AddResource(s, uri, hash, size, from, dead);
      && r.res == s.res[uri := ResourceInfo(uri, hash, size, [from])]
      && (uri in r.tasks <==> PlanCount(size) > 0)
      && (uri in r.tasks ==> |r.tasks[uri]| == PlanCount(size) && forall i :: 0 <= i < |r.tasks[uri]| ==>
            r.tasks[uri][i].ctx == from && r.tasks[uri][i].total == size
            && r.tasks[uri][i].status in {Pendding, Syning, Failed})
  {
    hide Replan, Tick, PlanCount;
    AnnounceKeeps(s, uri, hash, size, from);
    var info := ResourceInfo(uri, hash, size, [from]);
    var a := Announce(s, uri, hash, size, from).value;
    assert a.res == s.res[uri := info] && uri !in a.tasks;
    var p := Replan(a, info);
    ReplanKeeps(a, info);
    ReplanRes(a, info);
    ReplanShape(a, info);
    TickKeeps(p, 0, dead);
    var r := Tick(p, 0, dead);
    if uri in r.tasks {
      forall i | 0 <= i < |r.tasks[uri]|
        ensures r.tasks[uri][i].ctx == from && r.tasks[uri][i].total == size && r.tasks[uri][i].status in {Pendding, Syning, Failed}
      {
        assert p.tasks[uri][i] == PlanTask(info, i);
        var n := TickAt(p, Slot(uri, i), 0, dead);
        assert r.At(Slot(uri, i)) == r.tasks[uri][i];
      }
    }
  }

  /** The table after any announcement; a known version keeps its hash, an older one changes nothing at all. */
  lemma AnnouncedRecord(s: Sched, uri: Text, hash: Text, size: nat, from: Addr, dead: set<Addr>)
    requires Partitioned(s)
    ensures var r := AddResource(s, uri, hash, size, from, dead);
      && (uri !in s.res || s.res[uri].size < size ==> r.res == s.res[uri := ResourceInfo(uri, hash, size, [from])])
      && (uri in s.res && s.res[uri].size == size ==>
            r.res == s.res[uri := ResourceInfo(uri, s.res[uri].hash, size, s.res[uri].owners + [from])])
      && (uri in s.res && s.res[uri].size > size ==> r == s)
  {
    hide Replan, Tick, PlanCount;
    if uri !in s.res || s.res[uri].size < size {
      NewVersionRecord(s, uri, hash, size, from, dead);
    } else if s.res[uri].size == size {
      AnnounceKeeps(s, uri, hash, size, from);
      assert ResourceOk(uri, s.res[uri]);
      var a := Announce(s, uri, hash, size, from).value;
      ReplanKeeps(a, a.res[uri]);
      ReplanRes(a, a.res[uri]);
      TickKeeps(Replan(a, a.res[uri]), 0, dead);
    }
  }

  /** What a tick of zero milliseconds can make of a block. */
  ghost predicate TickedZero(t: Task, r: Task, owners: seq<Addr>) {
    match t.status
    case Pendding => r in {t, t.(status := Syning), t.(status := Failed, retry := Next8(t.retry))}
    case Syning => r == TickTask(t, 0)
    case Failed => r == t.(ctx := NextOwner(owners, t.ctx))
    case Stop => r == t
    case Success => r == t
  }

  lemma TickZero(s: Sched, x: Slot, dead: set<Addr>)
    requires Partitioned(s) && s.Has(x)
    ensures Tick(s, 0, dead).Has(x) && TickedZero(s.At(x), Tick(s, 0, dead).At(x), s.res[x.uri].owners)
  {
    var n := TickAt(s, x, 0, dead);
  }

  /** Lists of other files see a tick of zero milliseconds, or nothing. */
  lemma AnnouncedElsewhere(s: Sched, uri: Text, hash: Text, size: nat, from: Addr, dead: set<Addr>, x: Slot)
    requires Partitioned(s) && x.uri != uri
    ensures var r := AddResource(s, uri, hash, size, from, dead);
      && (r.Has(x) <==> s.Has(x))
      && (s.Has(x) ==> r.At(x) == s.At(x) || TickedZero(s.At(x), r.At(x), s.res[x.uri].owners))
  {
    hide Replan, Tick, PlanCount, TickedZero;
    AnnounceKeeps(s, uri, hash, size, from);
    var a := Announce(s, uri, hash, size, from);
    if a.Some? {
      var info := a.value.res[uri];
      assert ResourceOk(uri, info);
      var p := Replan(a.value, info);
      ReplanKeeps(a.value, info);
      ReplanRes(a.value, info);
      ReplanShape(a.value, info);
      OtherLists(a.value, p, uri);
      TickKeeps(p, 0, dead);
      if s.Has(x) { TickZero(p, x, dead); }
    }
  }

  // ---------------------------------------------------------------- failure

  /** After `fail` each block of the file is Failed with all else kept, no other list changes, and the file is not complete. */
  lemma FailedList(s: Sched, uri: Text)
    requires Partitioned(s) && uri in s.tasks
    ensures var r := Fail(s, uri);
      && r.res == s.res && r.out == s.out && r.tasks.Keys == s.tasks.Keys && |r.tasks[uri]| == |s.tasks[uri]|
      && (forall i :: 0 <= i < |r.tasks[uri]| ==>
            r.tasks[uri][i] == s.tasks[uri][i].(status := Failed))
      && (forall v :: v in s.tasks && v != uri ==> r.tasks[v] == s.tasks[v])
      && !IsSuccess(r, uri)
  {
    assert ListPlanned(s.tasks[uri], uri, s.res[uri]);
    assert Fail(s, uri).tasks[uri][0].status == Failed;
  }

  // ---------------------------------------------------------------- who is asked, and in what order

  /** Entry `e` asks the owner in charge of a waiting block for it, and failed exactly when that owner is gone. */
  ghost predicate AsksOwner(s: Sched, e: Sent, dead: set<Addr>) {
    exists x :: s.Has(x) && s.At(x).status == Pendding && x.uri in s.res
      && e == Sent(s.At(x).ctx, x.uri, s.At(x).block, s.At(x).ctx !in dead) && e.to in s.res[x.uri].owners
  }

  lemma {:induction false} VisitsAskOwners(s: Sched, xs: seq<Slot>, ms: uint64, dead: set<Addr>)
    requires Partitioned(s) && AllIn(xs, s) && Distinct(xs)
    ensures var r := TickSlots(s, xs, ms, dead);
      s.out <= r.out && forall k :: |s.out| <= k < |r.out| ==> AsksOwner(s, r.out[k], dead)
  {
    hide Partitioned, TickSlot;
    if xs != [] {
      var init, x := xs[..|xs| - 1], xs[|xs| - 1];
      var m := TickSlots(s, init, ms, dead);
      VisitsAskOwners(s, init, ms, dead);
      TicksKeep(s, init, ms, dead);
      assert s.Has(x) && m.Has(x) && m.At(x) == s.At(x);
      VisitIsLocal(m, x, ms, dead);
      SlotOwner(s, x);
      if TickSlot(m, x, ms, dead).out != m.out {
        assert AsksOwner(s, Sent(s.At(x).ctx, x.uri, s.At(x).block, s.At(x).ctx !in dead), dead);
      }
    }
  }

  lemma SlotOwner(s: Sched, x: Slot)
    requires Partitioned(s) && s.Has(x)
    ensures x.uri in s.res && s.At(x).ctx in s.res[x.uri].owners
  {
    assert TaskPlanned(s.At(x), x.uri, x.i, s.res[x.uri]);
  }

  /** Every request a tick writes goes to the owner in charge of a waiting block; the rest of the output stays. */
  lemma TickAsksOwners(s: Sched, ms: uint64, dead: set<Addr>)
    requires Partitioned(s)
    ensures var r := Tick(s, ms, dead);
      s.out <= r.out && forall k :: |s.out| <= k < |r.out| ==> AsksOwner(s, r.out[k], dead)
  {
    AllSlotsOnce(s.tasks);
    VisitsAskOwners(s, AllSlots(s.tasks), ms, dead);
  }

  /** Uri order, then block order. */
  predicate Before(x: Slot, y: Slot) {
    Less(x.uri, y.uri) || (x.uri == y.uri && x.i < y.i)
  }

  ghost predicate InOrder(xs: seq<Slot>) {
    forall i, j :: 0 <= i < j < |xs| ==> Before(xs[i], xs[j])
  }

  lemma {:induction false} SlotsInOrder(tasks: map<Text, seq<Task>>, keys: seq<Text>, n: nat)
    requires n <= |keys| && (forall u :: u in keys ==> u in tasks) && Ascending(keys)
    ensures InOrder(SlotsUpTo(tasks, keys, n))
  {
    if n > 0 {
      SlotsInOrder(tasks, keys, n - 1);
      SlotsUpToMembers(tasks, keys, n - 1);
      var before, last := SlotsUpTo(tasks, keys, n - 1), SlotsOf(keys[n - 1], |tasks[keys[n - 1]]|);
      forall i | 0 <= i < |before| ensures Less(before[i].uri, keys[n - 1]) {
        assert before[i] in before;
        var k :| 0 <= k < n - 1 && keys[..n - 1][k] == before[i].uri;
      }
    }
  }

  /** What a tick leaves at its `i`-th slot. */
  lemma VisitedInTurn(s: Sched, xs: seq<Slot>, i: nat, ms: uint64, dead: set<Addr>)
    requires Partitioned(s) && AllIn(xs, s) && Distinct(xs) && i < |xs|
    ensures var m, r := TickSlots(s, xs[..i], ms, dead), TickSlots(s, xs, ms, dead);
      r.Has(xs[i]) && r.At(xs[i]) == Visited(s.At(xs[i]), m.downloads, s.res[xs[i].uri].owners, ms, dead)
  {
    hide Partitioned, TickSlot, TickSlots;
    var x, before, behind := xs[i], xs[..i], xs[i + 1..];
    var m := TickSlots(s, before, ms, dead);
    var q := TickSlot(m, x, ms, dead);
    assert xs == before + [x] + behind;
    TickSlotsAppend(s, before + [x], behind, ms, dead);
    TickSlotsStep(s, before, x, ms, dead);
    TicksKeep(s, before, ms, dead);
    assert s.Has(x) && x !in before && x !in behind && m.Has(x);
    VisitIsLocal(m, x, ms, dead);
    forall y | y in behind ensures q.Has(y) { assert s.Has(y); }
    TicksKeep(q, behind, ms, dead);
  }

  lemma CounterGrows(s: Sched, xs: seq<Slot>, i: nat, j: nat, ms: uint64, dead: set<Addr>)
    requires Partitioned(s) && AllIn(xs, s) && i <= j <= |xs|
    ensures TickSlots(s, xs[..i], ms, dead).downloads <= TickSlots(s, xs[..j], ms, dead).downloads
  {
    hide Partitioned, TickSlots;
    assert xs[..j] == xs[..i] + xs[i..j];
    TickSlotsAppend(s, xs[..i], xs[i..j], ms, dead);
    TicksKeep(s, xs[..i], ms, dead);
    var m := TickSlots(s, xs[..i], ms, dead);
    forall y | y in xs[i..j] ensures m.Has(y) { assert y in xs && s.Has(y); }
    TicksKeep(m, xs[i..j], ms, dead);
  }

  /** Free slots go to waiting blocks in uri order and then block order. */
  lemma TickInOrder(s: Sched, x: Slot, y: Slot, ms: uint64, dead: set<Addr>)
    requires Partitioned(s) && s.Has(x) && s.Has(y) && Before(x, y)
    requires s.At(x).status == Pendding && s.At(y).status == Pendding
    ensures var r := Tick(s, ms, dead);
      r.Has(x) && r.Has(y) && (r.At(y).status != Pendding ==> r.At(x).status != Pendding)
  {
    hide Partitioned, TickSlots;
    var xs, keys := AllSlots(s.tasks), Sorted(s.tasks.Keys);
    AllSlotsOnce(s.tasks);
    SlotsInOrder(s.tasks, keys, |keys|);
    assert x in xs && y in xs;
    var i :| 0 <= i < |xs| && xs[i] == x;
    var j :| 0 <= j < |xs| && xs[j] == y;
    LessTotal(x.uri, y.uri);
    LessTotal(x.uri, x.uri);
    assert j < i ==> Before(y, x);
    assert i < j;
    VisitedInTurn(s, xs, i, ms, dead);
    VisitedInTurn(s, xs, j, ms, dead);
    CounterGrows(s, xs, i, j, ms, dead);
  }
}
