/**
 End-to-end transfer. When every peer that owns a file holds the same version of it, no interleaving of
 announcements, ticks, answers, arrivals and losses can complete a file with wrong contents.
 */
module Delivery {
  import opened Basics
  import opened BlockRange
  import opened NetAddr
  import opened TextOrder
  import opened Scheduler
  import opened Partition
  import opened Operations
  import opened FileStore
  import opened SyncDecision
  import opened Messages
  import opened Transfer
  import opened Accounts
  import opened Protocol

  /** The one version of each file that its owners hold. */
  type Contents = map<Text, seq<byte>>

  // ---------------------------------------------------------------- assumptions on the environment

  ghost predicate TruthfulEntry(r: Resource, c: Contents, h: Hash) {
    r.uri in c && r.size == |c[r.uri]| && r.hash == h(c[r.uri])
  }

  /** Peers announce and serve the version in `c`, and a save that succeeds moves its bytes in one write. */
  ghost predicate Truthful(step: Step, w: World, c: Contents, h: Hash) {
    match step
    case Index(from, table, dead) => forall k :: 0 <= k < |table| ==> TruthfulEntry(table[k], c, h)
    case Answer(i, file) =>
      i < |w.net| && file.Some? ==> w.net[i].uri in c && file.value == c[w.net[i].uri]
    case Arrive(i, disk, dead) =>
      i < |w.net| && w.net[i].Reply? && disk.Some? ==> OneFullWrite(disk.value, |w.net[i].data|)
    case Timer(ms, dead) => true
    case Lose(i) => true
  }

  ghost predicate TruthfulRun(ws: seq<World>, steps: seq<Step>, c: Contents, h: Hash) {
    IsRun(ws, steps, h) && forall i :: 0 <= i < |steps| ==> Truthful(steps[i], ws[i], c, h)
  }

  /** Files whose names can travel and whose blocks the 32-bit planning loop can count; 4 PiB is the limit. */
  ghost predicate Plannable(c: Contents) {
    forall u :: u in c ==> GoodUri(u) && |c[u]| / BLOCK_SIZE + 1 < TWO32
  }

  // ---------------------------------------------------------------- invariants

  ghost predicate Sources(s: Sched, c: Contents, h: Hash) {
    forall u :: u in s.res ==> u in c && s.res[u].size == |c[u]| && s.res[u].hash == h(c[u])
  }

  /** The local bytes of a block are those of the peer. */
  ghost predicate BlockRight(files: map<Text, seq<byte>>, c: Contents, u: Text, b: Block) {
    && u in files && u in c && b.end <= |files[u]| && b.end <= |c[u]|
    && forall j :: b.start <= j < b.end ==> files[u][j] == c[u][j]
  }

  ghost predicate Progress(s: Sched, files: map<Text, seq<byte>>, c: Contents) {
    && (forall u :: u in s.tasks && u in files && u in c ==> |files[u]| <= |c[u]|)
    && (forall x :: s.Has(x) && s.At(x).status == Success ==> BlockRight(files, c, x.uri, s.At(x).block))
  }

  ghost predicate Finished(s: Sched, files: map<Text, seq<byte>>, done: set<Text>, c: Contents) {
    && (forall u :: u in done ==> u !in s.tasks && u in s.res && u in c && u in files && files[u] == c[u])
    && (forall u :: u in s.res ==> u in s.tasks || u in done)
    && (forall u :: u in s.tasks ==> !IsSuccess(s, u))
  }

  ghost predicate Untouched(s: Sched, files: map<Text, seq<byte>>, files0: map<Text, seq<byte>>) {
    forall u :: u !in s.res ==> (u in files <==> u in files0) && (u in files ==> files[u] == files0[u])
  }

  ghost predicate Store(s: Sched, files: map<Text, seq<byte>>, done: set<Text>, c: Contents, h: Hash) {
    Sources(s, c, h) && Progress(s, files, c) && Finished(s, files, done, c)
  }

  ghost predicate Honest(m: Msg, c: Contents) {
    m.Reply? ==>
      && m.uri in c && m.block.start < m.block.end <= |c[m.uri]|
      && m.data == ReadSlice(c[m.uri], m.block.start, m.block.end - m.block.start)
  }

  ghost predicate AllHonest(net: seq<Msg>, c: Contents) {
    forall i :: 0 <= i < |net| ==> Honest(net[i], c)
  }

  ghost predicate Delivering(w: World, files0: map<Text, seq<byte>>, c: Contents, h: Hash) {
    && !w.failed && Balanced(w)
    && Single(w.node.sched, w.issued, w.matched)
    && Store(w.node.sched, w.node.files, w.done, c, h)
    && Untouched(w.node.sched, w.node.files, files0)
    && AllHonest(w.net, c)
  }

  // ---------------------------------------------------------------- one request per block

  ghost function TotalAfter(s: Sched, x: Slot, ms: uint64, dead: set<Addr>, total: multiset<Key>): multiset<Key>
    requires s.Has(x)
  {
    if TickSlot(s, x, ms, dead).out == s.out then total else total + multiset{SlotKey(s, x)}
  }

  lemma VisitOwedActive(s: Sched, x: Slot, ms: uint64, dead: set<Addr>, total: multiset<Key>, matched: multiset<Key>)
    requires Partitioned(s) && s.Has(x) && OwedActive(s, total, matched)
    ensures OwedActive(TickSlot(s, x, ms, dead), TotalAfter(s, x, ms, dead, total), matched)
  {
    hide TickSlot, Partitioned;
    var r, after := TickSlot(s, x, ms, dead), TotalAfter(s, x, ms, dead, total);
    VisitIsLocal(s, x, ms, dead);
    PartitionedFixesBlocks(s, r);
    forall k | matched[k] < after[k] ensures exists y :: r.Has(y) && SlotKey(r, y) == k && Active(r.At(y)) {
      if k == SlotKey(s, x) && r.out != s.out {
        assert r.Has(x) && SlotKey(r, x) == k && Active(r.At(x));
      } else {
        var y :| s.Has(y) && SlotKey(s, y) == k && Active(s.At(y));
        assert r.Has(y) && SlotKey(r, y) == k && Active(r.At(y));
      }
    }
  }

  lemma VisitWaitingUnsent(s: Sched, x: Slot, ms: uint64, dead: set<Addr>, total: multiset<Key>)
    requires Partitioned(s) && s.Has(x) && WaitingUnsent(s, total)
    ensures WaitingUnsent(TickSlot(s, x, ms, dead), TotalAfter(s, x, ms, dead, total))
  {
    var r, after := TickSlot(s, x, ms, dead), TotalAfter(s, x, ms, dead, total);
    VisitIsLocal(s, x, ms, dead);
    PartitionedFixesBlocks(s, r);
    forall y | r.Has(y) && r.At(y).status == Pendding ensures after[SlotKey(r, y)] == 0 {
      assert s.Has(y) && SlotKey(s, y) == SlotKey(r, y) && s.At(y).status == Pendding;
      if SlotKey(s, y) == SlotKey(s, x) { SlotKeysDistinct(s, x, y); }
    }
  }

  lemma VisitTotal(s: Sched, x: Slot, ms: uint64, dead: set<Addr>, issued: multiset<Key>)
    requires Partitioned(s) && s.Has(x)
    ensures issued + SentKeys(TickSlot(s, x, ms, dead).out) == TotalAfter(s, x, ms, dead, issued + SentKeys(s.out))
  {
    VisitIsLocal(s, x, ms, dead);
    if TickSlot(s, x, ms, dead).out != s.out {
      OutStep(s.out, Sent(s.At(x).ctx, x.uri, s.At(x).block, s.At(x).ctx !in dead));
    }
  }

  lemma VisitKnownOnce(s: Sched, x: Slot, ms: uint64, dead: set<Addr>, total: multiset<Key>)
    requires Partitioned(s) && s.Has(x) && KnownOnce(s, total) && WaitingUnsent(s, total)
    ensures KnownOnce(TickSlot(s, x, ms, dead), TotalAfter(s, x, ms, dead, total))
  {
    VisitIsLocal(s, x, ms, dead);
    if TickSlot(s, x, ms, dead).out != s.out {
      assert s.At(x).status == Pendding && total[SlotKey(s, x)] == 0;
    }
  }

  lemma VisitSingle(s: Sched, x: Slot, ms: uint64, dead: set<Addr>, issued: multiset<Key>, matched: multiset<Key>)
    requires Partitioned(s) && s.Has(x) && Single(s, issued, matched)
    ensures Single(TickSlot(s, x, ms, dead), issued, matched)
  {
    hide OwedActive, WaitingUnsent, KnownOnce, TickSlot;
    var r, total := TickSlot(s, x, ms, dead), issued + SentKeys(s.out);
    VisitOwedActive(s, x, ms, dead, total, matched);
    VisitWaitingUnsent(s, x, ms, dead, total);
    VisitKnownOnce(s, x, ms, dead, total);
    VisitTotal(s, x, ms, dead, issued);
  }

  lemma {:induction false} VisitsSingle(s: Sched, xs: seq<Slot>, ms: uint64, dead: set<Addr>, issued: multiset<Key>,
        matched: multiset<Key>)
    requires Partitioned(s) && AllIn(xs, s) && Single(s, issued, matched)
    ensures Single(TickSlots(s, xs, ms, dead), issued, matched)
  {
    if xs != [] {
      var init, x := xs[..|xs| - 1], xs[|xs| - 1];
      VisitsSingle(s, init, ms, dead, issued, matched);
      TicksKeep(s, init, ms, dead);
      assert s.Has(x) && TickSlots(s, init, ms, dead).Has(x);
      VisitSingle(TickSlots(s, init, ms, dead), x, ms, dead, issued, matched);
    }
  }

  lemma TickSingle(s: Sched, ms: uint64, dead: set<Addr>, issued: multiset<Key>, matched: multiset<Key>)
    requires Partitioned(s) && Single(s, issued, matched)
    ensures Single(Tick(s, ms, dead), issued, matched)
  {
    AllSlotsOnce(s.tasks);
    VisitsSingle(s, AllSlots(s.tasks), ms, dead, issued, matched);
  }

  lemma TickKeepsSuccess(s: Sched, ms: uint64, dead: set<Addr>)
    requires Partitioned(s)
    ensures var r := Tick(s, ms, dead);
      SameKeys(s, r) && forall x :: s.Has(x) ==> (r.At(x).status == Success <==> s.At(x).status == Success)
  {
    TickKeeps(s, ms, dead);
    PartitionedFixesBlocks(s, Tick(s, ms, dead));
    forall x | s.Has(x) ensures Tick(s, ms, dead).At(x).status == Success <==> s.At(x).status == Success {
      var n := TickAt(s, x, ms, dead);
    }
  }

  /** Whatever keeps every slot's block and its being a success keeps the file invariants. */
  lemma SameSuccessStore(s: Sched, r: Sched, files: map<Text, seq<byte>>, done: set<Text>, c: Contents, h: Hash)
    requires SameKeys(s, r) && Store(s, files, done, c, h)
    requires forall x :: s.Has(x) ==> (r.At(x).status == Success <==> s.At(x).status == Success)
    ensures Store(r, files, done, c, h)
  {
    forall x | r.Has(x) && r.At(x).status == Success ensures BlockRight(files, c, x.uri, r.At(x).block) {
      assert s.Has(x) && s.At(x).status == Success;
    }
    forall u | u in r.tasks ensures !IsSuccess(r, u) {
      assert !IsSuccess(s, u);
      var i :| 0 <= i < |s.tasks[u]| && s.tasks[u][i].status != Success;
      assert s.Has(Slot(u, i)) && r.At(Slot(u, i)).status != Success;
    }
  }

  lemma TickStore(s: Sched, ms: uint64, dead: set<Addr>, files: map<Text, seq<byte>>, done: set<Text>, c: Contents,
        h: Hash)
    requires Partitioned(s) && Store(s, files, done, c, h)
    ensures var r := Tick(s, ms, dead); r.res == s.res && Store(r, files, done, c, h)
  {
    TickKeepsSuccess(s, ms, dead);
    SameSuccessStore(s, Tick(s, ms, dead), files, done, c, h);
  }

  // ---------------------------------------------------------------- announcements

  /** An announcement that is truthful, of a file that is not finished and not too long locally. */
  ghost predicate Fetchable(r: Resource, files: map<Text, seq<byte>>, done: set<Text>, c: Contents, h: Hash) {
    TruthfulEntry(r, c, h) && r.uri !in done && (r.uri in files ==> |files[r.uri]| <= |c[r.uri]|)
  }

  lemma ReplanSingle(s: Sched, info: ResourceInfo, issued: multiset<Key>, matched: multiset<Key>)
    requires Partitioned(s) && NoneStopped(s) && Single(s, issued, matched)
    requires info.owners != [] && info.uri in s.res && s.res[info.uri] == info
    requires info.uri !in s.tasks ==> forall k: Key :: k.uri == info.uri ==> (issued + SentKeys(s.out))[k] == 0
    ensures Single(Replan(s, info), issued, matched)
  {
    var r := Replan(s, info);
    var total := issued + SentKeys(s.out);
    ReplanSlots(s, info);
    forall k | matched[k] < total[k] ensures exists y :: r.Has(y) && SlotKey(r, y) == k && Active(r.At(y)) {
      var y :| s.Has(y) && SlotKey(s, y) == k && Active(s.At(y));
      assert r.Has(y) && SlotKey(r, y) == k && Active(r.At(y));
    }
    forall y | r.Has(y) && r.At(y).status == Pendding ensures total[SlotKey(r, y)] == 0 {
      if s.Has(y) {
        assert SlotKey(s, y) == SlotKey(r, y) && s.At(y).status == Pendding;
      } else {
        assert SlotKey(r, y).uri == info.uri;
      }
    }
  }

  lemma ReplanStore(s: Sched, info: ResourceInfo, files: map<Text, seq<byte>>, done: set<Text>, c: Contents, h: Hash)
    requires Partitioned(s) && NoneStopped(s) && Sources(s, c, h) && Progress(s, files, c)
    requires info.owners != [] && info.uri in s.res && s.res[info.uri] == info
    requires info.uri in files ==> |files[info.uri]| <= |c[info.uri]|
    ensures Sources(Replan(s, info), c, h) && Progress(Replan(s, info), files, c)
  {
    var r := Replan(s, info);
    ReplanSlots(s, info);
    forall x | r.Has(x) && r.At(x).status == Success ensures BlockRight(files, c, x.uri, r.At(x).block) {
      assert s.Has(x) && s.At(x).status == Success;
    }
  }

  lemma ReplanFinished(s: Sched, info: ResourceInfo, files: map<Text, seq<byte>>, done: set<Text>, c: Contents)
    requires Partitioned(s) && NoneStopped(s)
    requires info.owners != [] && info.uri in s.res && s.res[info.uri] == info && info.uri !in done
    requires PlanCount(info.size) > 0
    requires forall u :: u in done ==> u !in s.tasks && u in s.res && u in c && u in files && files[u] == c[u]
    requires forall u :: u in s.res ==> u in s.tasks || u in done || u == info.uri
    requires forall u :: u in s.tasks ==> !IsSuccess(s, u)
    ensures Finished(Replan(s, info), files, done, c)
  {
    var r := Replan(s, info);
    ReplanSlots(s, info);
    forall u | u in r.tasks ensures !IsSuccess(r, u) {
      if u in s.tasks {
        var i :| 0 <= i < |s.tasks[u]| && s.tasks[u][i].status != Success;
        assert s.Has(Slot(u, i)) && r.At(Slot(u, i)).status != Success;
      } else {
        assert ListPlanned(r.tasks[u], u, r.res[u]);
        assert r.Has(Slot(u, 0)) && !s.Has(Slot(u, 0)) && r.At(Slot(u, 0)).status == Pendding;
      }
    }
  }

  lemma PlanCountPositive(size: nat)
    requires size / BLOCK_SIZE + 1 < TWO32
    ensures PlanCount(size) > 0
  {
  }

  lemma SameTasksSingle(s: Sched, a: Sched, issued: multiset<Key>, matched: multiset<Key>)
    requires a.tasks == s.tasks && a.out == s.out && s.res.Keys <= a.res.Keys
    requires NoneStopped(s) && Single(s, issued, matched)
    ensures NoneStopped(a) && Single(a, issued, matched)
  {
    var total := issued + SentKeys(s.out);
    assert forall x: Slot :: (a.Has(x) <==> s.Has(x)) && (s.Has(x) ==> a.At(x) == s.At(x));
    forall k | matched[k] < total[k] ensures exists y :: a.Has(y) && SlotKey(a, y) == k && Active(a.At(y)) {
      var y :| s.Has(y) && SlotKey(s, y) == k && Active(s.At(y));
      assert a.Has(y) && SlotKey(a, y) == k;
    }
  }

  lemma SameTasksProgress(s: Sched, a: Sched, files: map<Text, seq<byte>>, c: Contents)
    requires a.tasks == s.tasks && Progress(s, files, c)
    ensures Progress(a, files, c)
  {
  }

  /** The table after a truthful announcement: a new resource, or one more owner of a known one; never a newer version. */
  lemma AnnounceTruthful(s: Sched, r: Resource, from: Addr, files: map<Text, seq<byte>>, done: set<Text>, c: Contents,
        h: Hash)
    requires Partitioned(s) && Store(s, files, done, c, h) && Fetchable(r, files, done, c, h)
    ensures var a := Announce(s, r.uri, r.hash, r.size, from);
      && a.Some? && Partitioned(a.value)
      && a.value.tasks == s.tasks && a.value.out == s.out && a.value.downloads == s.downloads
      && a.value.res.Keys == s.res.Keys + {r.uri}
      && a.value.res[r.uri].owners != [] && a.value.res[r.uri].uri == r.uri
      && Sources(a.value, c, h)
  {
    hide Progress, Finished;
    AnnounceKeeps(s, r.uri, r.hash, r.size, from);
  }

  lemma JoinDelivers(s: Sched, a: Sched, uri: Text, files: map<Text, seq<byte>>, done: set<Text>, c: Contents, h: Hash,
                     issued: multiset<Key>, matched: multiset<Key>)
    requires Partitioned(a) && NoneStopped(a) && Single(s, issued, matched) && Single(a, issued, matched)
    requires Finished(s, files, done, c) && Sources(a, c, h) && Progress(a, files, c) && Plannable(c)
    requires a.tasks == s.tasks && a.out == s.out && a.res.Keys == s.res.Keys + {uri}
    requires a.res[uri].owners != [] && a.res[uri].uri == uri && uri !in done
    requires uri in files && uri in c ==> |files[uri]| <= |c[uri]|
    ensures var p := Replan(a, a.res[uri]); Single(p, issued, matched) && Store(p, files, done, c, h)
  {
    var info := a.res[uri];
    PlanCountPositive(|c[uri]|);
    assert forall u :: u in a.tasks ==> !IsSuccess(a, u) by {
      forall u | u in a.tasks ensures !IsSuccess(a, u) { assert !IsSuccess(s, u); }
    }
    ReplanSingle(a, info, issued, matched);
    ReplanStore(a, info, files, done, c, h);
    ReplanFinished(a, info, files, done, c);
  }

  lemma AddResourceDelivers(s: Sched, r: Resource, from: Addr, dead: set<Addr>, files: map<Text, seq<byte>>,
        done: set<Text>,
                            c: Contents, h: Hash, net: seq<Msg>, issued: multiset<Key>, matched: multiset<Key>)
    requires Books(s, net, issued, matched) && Single(s, issued, matched) && Store(s, files, done, c, h)
    requires Fetchable(r, files, done, c, h) && Plannable(c)
    ensures var t := AddResource(s, r.uri, r.hash, r.size, from, dead);
      Books(t, net, issued, matched) && Single(t, issued, matched) && Store(t, files, done, c, h)
  {
    AddResourceBooks(s, r.uri, r.hash, r.size, from, dead, net, issued, matched);
    AnnounceTruthful(s, r, from, files, done, c, h);
    var a := Announce(s, r.uri, r.hash, r.size, from).value;
    SameTasksSingle(s, a, issued, matched);
    SameTasksProgress(s, a, files, c);
    JoinDelivers(s, a, r.uri, files, done, c, h, issued, matched);
    var p := Replan(a, a.res[r.uri]);
    ReplanKeeps(a, a.res[r.uri]);
    TickSingle(p, 0, dead, issued, matched);
    TickStore(p, 0, dead, files, done, c, h);
  }

  lemma NeededIsFetchable(table: seq<Resource>, r: Resource, s: Sched, files: map<Text, seq<byte>>, done: set<Text>,
        c: Contents, h: Hash)
    requires forall k :: 0 <= k < |table| ==> TruthfulEntry(table[k], c, h)
    requires Finished(s, files, done, c)
    requires r in NeedToSync(table, Listing(files, h))
    ensures Fetchable(r, files, done, c, h)
  {
    var local := Listing(files, h);
    NeedToSyncExact(table, local, r);
    LastForFacts(table, r.uri);
    if r.uri in files {
      var us := Sorted(files.Keys);
      var k :| 0 <= k < |us| && us[k] == r.uri;
      assert local[k] == Entry(files, r.uri, h);
      assert Supersedes(r, local[k]);
    }
  }

  lemma {:induction false} AddAllGrows(s: Sched, rs: seq<Resource>, k: nat, from: Addr, dead: set<Addr>)
    requires Partitioned(s) && k <= |rs|
    ensures Partitioned(AddAll(s, rs, k, from, dead)) && s.res.Keys <= AddAll(s, rs, k, from, dead).res.Keys
  {
    if k > 0 {
      AddAllGrows(s, rs, k - 1, from, dead);
      var r := rs[k - 1];
      AddResourceKeeps(AddAll(s, rs, k - 1, from, dead), r.uri, r.hash, r.size, from, dead);
      AddResourceKeys(AddAll(s, rs, k - 1, from, dead), r.uri, r.hash, r.size, from, dead);
    }
  }

  ghost predicate Sound(s: Sched, files: map<Text, seq<byte>>, done: set<Text>, c: Contents, h: Hash,
                        net: seq<Msg>, issued: multiset<Key>, matched: multiset<Key>) {
    Books(s, net, issued, matched) && Single(s, issued, matched) && Store(s, files, done, c, h)
  }

  lemma {:induction false} AddAllDelivers(s: Sched, rs: seq<Resource>, k: nat, from: Addr, dead: set<Addr>,
        files: map<Text, seq<byte>>,
                                          done: set<Text>, c: Contents, h: Hash, net: seq<Msg>,
                                          issued: multiset<Key>, matched: multiset<Key>)
    requires Sound(s, files, done, c, h, net, issued, matched)
    requires k <= |rs| && Plannable(c) && forall i :: 0 <= i < |rs| ==> Fetchable(rs[i], files, done, c, h)
    ensures Sound(AddAll(s, rs, k, from, dead), files, done, c, h, net, issued, matched)
  {
    hide Books, Single, Store, AddResource, Fetchable;
    if k > 0 {
      AddAllDelivers(s, rs, k - 1, from, dead, files, done, c, h, net, issued, matched);
      var m := AddAll(s, rs, k - 1, from, dead);
      AddResourceDelivers(m, rs[k - 1], from, dead, files, done, c, h, net, issued, matched);
    }
  }

  // ---------------------------------------------------------------- arrivals

  /** Writing a right block leaves every right block right, and makes this one right. */
  lemma SaveKeepsRight(files: map<Text, seq<byte>>, c: Contents, m: Msg, counts: seq<nat>)
    requires m.Reply? && Honest(m, c) && WriteCounts(counts, |m.data|) && OneFullWrite(counts, |m.data|)
    requires m.uri in files ==> |files[m.uri]| <= |c[m.uri]|
    ensures AllAtMost(counts, |m.data|)
    ensures var after := Saved(files, m.uri, m.block.start, m.data, counts);
      && BlockRight(after, c, m.uri, m.block)
      && |after[m.uri]| <= |c[m.uri]|
      && after.Keys == files.Keys + {m.uri}
      && (forall u :: u in files && u != m.uri ==> after[u] == files[u])
      && (forall u, b :: BlockRight(files, c, u, b) ==> BlockRight(after, c, u, b))
  {
    WriteCountsBounded(counts, |m.data|);
    var f := if m.uri in files then files[m.uri] else [];
    FullWriteIsRight(f, m.block.start, m.data, counts);
    var after := Saved(files, m.uri, m.block.start, m.data, counts);
    var g, src := WriteAt(f, m.block.start, m.data), c[m.uri];
    assert after[m.uri] == g && m.data != [];
    forall u, b | BlockRight(files, c, u, b) ensures BlockRight(after, c, u, b) {
      if u == m.uri {
        forall j | b.start <= j < b.end ensures g[j] == src[j] {
          assert f[j] == src[j];
        }
      }
    }
  }

  lemma SucceedSingle(s: Sched, k: Key, issued: multiset<Key>, matched: multiset<Key>)
    requires Partitioned(s) && Single(s, issued, matched) && matched[k] < (issued + SentKeys(s.out))[k]
    ensures Holds(s, k)
    ensures Single(Succeed(s, k.uri, k.block), issued, matched + multiset{k})
  {
    hide Succeed, Partitioned;
    var r, total := Succeed(s, k.uri, k.block), issued + SentKeys(s.out);
    SucceedSlots(s, k);
    forall q | (matched + multiset{k})[q] < total[q] ensures exists y :: r.Has(y) && SlotKey(r, y) == q && Active(r.At(y)) {
      assert q != k by { assert total[k] <= 1; }
      var y :| s.Has(y) && SlotKey(s, y) == q && Active(s.At(y));
      assert r.Has(y) && SlotKey(r, y) == q && Active(r.At(y));
    }
    forall y | r.Has(y) && r.At(y).status == Pendding ensures total[SlotKey(r, y)] == 0 {
      assert s.Has(y) && SlotKey(s, y) == SlotKey(r, y) && s.At(y).status == Pendding;
    }
  }

  lemma SucceedProgress(s: Sched, k: Key, files: map<Text, seq<byte>>, after: map<Text, seq<byte>>, c: Contents)
    requires Partitioned(s) && Progress(s, files, c) && k.uri in s.tasks
    requires BlockRight(after, c, k.uri, k.block) && |after[k.uri]| <= |c[k.uri]|
    requires after.Keys == files.Keys + {k.uri} && forall u :: u in files && u != k.uri ==> after[u] == files[u]
    requires forall u, b :: BlockRight(files, c, u, b) ==> BlockRight(after, c, u, b)
    ensures Progress(Succeed(s, k.uri, k.block), after, c)
  {
    var r := Succeed(s, k.uri, k.block);
    SucceedSlots(s, k);
    forall x | r.Has(x) && r.At(x).status == Success ensures BlockRight(after, c, x.uri, r.At(x).block) {
      assert s.Has(x) && SlotKey(s, x) == SlotKey(r, x);
      if SlotKey(s, x) != k { assert s.At(x).status == Success; }
    }
  }

  lemma BlocksInPlace(s: Sched, files: map<Text, seq<byte>>, c: Contents, h: Hash, u: Text, i: nat)
    requires Partitioned(s) && Sources(s, c, h) && Progress(s, files, c)
    requires IsSuccess(s, u) && i < |s.tasks[u]|
    ensures u in c && BlockRight(files, c, u, PlanBlock(i, |c[u]|)) && |files[u]| <= |c[u]|
    ensures |s.tasks[u]| == PlanCount(|c[u]|)
  {
    assert TaskPlanned(s.tasks[u][i], u, i, s.res[u]);
    assert s.Has(Slot(u, i)) && s.At(Slot(u, i)).status == Success;
  }

  lemma ByteInPlace(s: Sched, files: map<Text, seq<byte>>, c: Contents, h: Hash, u: Text, j: nat)
    requires Partitioned(s) && Sources(s, c, h) && Progress(s, files, c) && Plannable(c)
    requires IsSuccess(s, u) && u in c && j < |c[u]|
    ensures u in files && j < |files[u]| && files[u][j] == c[u][j]
  {
    var n := |c[u]|;
    assert ListPlanned(s.tasks[u], u, s.res[u]);
    PlanTiles(n, j);
    BlocksInPlace(s, files, c, h, u, j / BLOCK_SIZE);
    assert Covers(j / BLOCK_SIZE, n, j);
  }

  /** When every block of a list is in place, so is the whole file. */
  lemma AllBlocksAreTheFile(s: Sched, files: map<Text, seq<byte>>, c: Contents, h: Hash, u: Text)
    requires Partitioned(s) && Sources(s, c, h) && Progress(s, files, c) && Plannable(c)
    requires IsSuccess(s, u)
    ensures u in files && u in c && files[u] == c[u] && u in s.res && Judge(s, files, u, h) == Verified
  {
    assert ListPlanned(s.tasks[u], u, s.res[u]);
    BlocksInPlace(s, files, c, h, u, 0);
    var n := |c[u]|;
    if n > 0 { ByteInPlace(s, files, c, h, u, n - 1); }
    forall j | 0 <= j < n ensures files[u][j] == c[u][j] {
      ByteInPlace(s, files, c, h, u, j);
    }
    assert files[u] == c[u];
  }

  lemma CancelSingle(s: Sched, u: Text, issued: multiset<Key>, matched: multiset<Key>)
    requires Partitioned(s) && Single(s, issued, matched) && IsSuccess(s, u)
    ensures Single(CancelTask(s, u), issued, matched)
  {
    var r, total := CancelTask(s, u), issued + SentKeys(s.out);
    forall k | matched[k] < total[k] ensures exists y :: r.Has(y) && SlotKey(r, y) == k && Active(r.At(y)) {
      var y :| s.Has(y) && SlotKey(s, y) == k && Active(s.At(y));
      assert y.uri != u;
      assert r.Has(y) && SlotKey(r, y) == k && Active(r.At(y));
    }
    forall y | r.Has(y) && r.At(y).status == Pendding ensures total[SlotKey(r, y)] == 0 {
      assert s.Has(y) && SlotKey(s, y) == SlotKey(r, y);
    }
  }

  lemma CancelStore(s0: Sched, s: Sched, u: Text, before: map<Text, seq<byte>>, files: map<Text, seq<byte>>,
        done: set<Text>, c: Contents, h: Hash)
    requires Sources(s, c, h) && Progress(s, files, c) && u in s.res && u in files && u in c && files[u] == c[u]
    requires Finished(s0, before, done, c) && s.res == s0.res && s.tasks.Keys == s0.tasks.Keys
    requires forall v :: v in s.tasks && v != u ==> s.tasks[v] == s0.tasks[v]
    requires before.Keys <= files.Keys && forall v :: v in before && v != u ==> files[v] == before[v]
    ensures Store(CancelTask(s, u), files, done + {u}, c, h)
  {
    var r := CancelTask(s, u);
    forall x | r.Has(x) && r.At(x).status == Success ensures BlockRight(files, c, x.uri, r.At(x).block) {
      assert s.Has(x) && s.At(x).status == Success;
    }
    forall w | w in r.tasks ensures !IsSuccess(r, w) {
      assert w in s0.tasks && w != u && !IsSuccess(s0, w);
    }
  }

  lemma OngoingStore(s0: Sched, s: Sched, u: Text, before: map<Text, seq<byte>>, files: map<Text, seq<byte>>,
        done: set<Text>, c: Contents, h: Hash)
    requires Sources(s, c, h) && Progress(s, files, c) && !IsSuccess(s, u) && u in s.tasks
    requires Finished(s0, before, done, c) && s.res == s0.res && s.tasks.Keys == s0.tasks.Keys
    requires forall v :: v in s.tasks && v != u ==> s.tasks[v] == s0.tasks[v]
    requires before.Keys <= files.Keys && forall v :: v in before && v != u ==> files[v] == before[v]
    ensures Store(s, files, done, c, h)
  {
    forall w | w in s.tasks ensures !IsSuccess(s, w) {
      if w != u { assert w in s0.tasks && !IsSuccess(s0, w); }
    }
  }

  /** Judging a file after its next block either verifies it or goes on; it never fails. */
  lemma SettleStore(s0: Sched, s: Sched, u: Text, before: map<Text, seq<byte>>, files: map<Text, seq<byte>>,
        done: set<Text>, c: Contents, h: Hash,
                    issued: multiset<Key>, matched: multiset<Key>)
    requires Partitioned(s) && Sources(s, c, h) && Progress(s, files, c) && Plannable(c) && Single(s, issued, matched)
    requires Finished(s0, before, done, c) && s.res == s0.res && s.tasks.Keys == s0.tasks.Keys && u in s.tasks
    requires forall v :: v in s.tasks && v != u ==> s.tasks[v] == s0.tasks[v]
    requires before.Keys <= files.Keys && forall v :: v in before && v != u ==> files[v] == before[v]
    ensures var v := Judge(s, files, u, h);
      && v in {Verified, Unfinished}
      && Store(Settle(s, u, v), files, if v == Verified then done + {u} else done, c, h)
      && Single(Settle(s, u, v), issued, matched)
  {
    if IsSuccess(s, u) {
      AllBlocksAreTheFile(s, files, c, h, u);
      CancelSingle(s, u, issued, matched);
      CancelStore(s0, s, u, before, files, done, c, h);
    } else {
      OngoingStore(s0, s, u, before, files, done, c, h);
    }
  }

  lemma SucceedIsLocal(s: Sched, k: Key, c: Contents, h: Hash)
    requires Partitioned(s) && Sources(s, c, h)
    ensures var t := Succeed(s, k.uri, k.block);
      && Partitioned(t) && Sources(t, c, h) && t.res == s.res && t.tasks.Keys == s.tasks.Keys
      && forall v :: v in t.tasks && v != k.uri ==> t.tasks[v] == s.tasks[v]
  {
    SucceedSlots(s, k);
  }

  lemma MessageIsOwed(s: Sched, net: seq<Msg>, i: nat, issued: multiset<Key>, matched: multiset<Key>)
    requires Books(s, net, issued, matched) && i < |net|
    ensures matched[KeyOf(net[i])] < (issued + SentKeys(s.out))[KeyOf(net[i])]
  {
    KeysRemove(net, i);
  }

  /** The scheduler and the files right after a reply was saved, marked and judged, before the closing tick. */
  lemma ReplyDelivers(w: World, i: nat, counts: seq<nat>, files0: map<Text, seq<byte>>, c: Contents, h: Hash)
    requires Delivering(w, files0, c, h) && Plannable(c)
    requires i < |w.net| && w.net[i].Reply? && WriteCounts(counts, |w.net[i].data|) && OneFullWrite(counts, |w.net[i].data|)
    ensures AllAtMost(counts, |w.net[i].data|)
    ensures var m, s := w.net[i], w.node.sched;
      var after := Saved(w.node.files, m.uri, m.block.start, m.data, counts);
      var t := Succeed(s, m.uri, m.block);
      var v := Judge(t, after, m.uri, h);
      && m.uri in s.tasks && Accounts.Holds(s, KeyOf(m))
      && v in {Verified, Unfinished}
      && Store(Settle(t, m.uri, v), after, if v == Verified then w.done + {m.uri} else w.done, c, h)
      && Single(Settle(t, m.uri, v), w.issued, w.matched + multiset{KeyOf(m)})
  {
    hide Single, Sources, Finished, BlockRight, Succeed, Partitioned, NoneStopped, Covered, ActiveOwed, Saved;
    var m, s, files := w.net[i], w.node.sched, w.node.files;
    var k := KeyOf(m);
    assert Honest(m, c);
    MessageIsOwed(s, w.net, i, w.issued, w.matched);
    SucceedSingle(s, k, w.issued, w.matched);
    assert m.uri in s.tasks;
    SaveKeepsRight(files, c, m, counts);
    var after := Saved(files, m.uri, m.block.start, m.data, counts);
    SucceedProgress(s, k, files, after, c);
    SucceedIsLocal(s, k, c, h);
    var t := Succeed(s, m.uri, m.block);
    SettleStore(s, t, m.uri, files, after, w.done, c, h, w.issued, w.matched + multiset{k});
  }
}
