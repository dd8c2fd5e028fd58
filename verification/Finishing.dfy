/**
 When downloads finish. Over every truthful run a file is done exactly when the reply for each of its blocks was taken;
 and as long as nothing is lost, the network runs dry exactly when every announced file is done, after two steps a block.
 */
module Finishing {
  import opened Basics
  import opened NetAddr
  import opened Scheduler
  import opened Partition
  import opened Operations
  import opened FileStore
  import opened SyncDecision
  import opened Messages
  import opened Transfer
  import opened Accounts
  import opened Protocol
  import opened Delivery
  import opened EndToEnd
  import opened Witnesses

  // ---------------------------------------------------------------- every block was asked for before it was done

  ghost predicate PlannedKey(k: Key, c: Contents) {
    k.uri in c && exists i: nat :: i < PlanCount(|c[k.uri]|) && k.block == PlanBlock(i, |c[k.uri]|)
  }

  /** Requests are for planned blocks; a block that no longer waits was requested; so was every block of a done file. */
  ghost predicate Recorded(s: Sched, total: multiset<Key>, done: set<Text>, c: Contents) {
    && (forall k :: total[k] > 0 ==> PlannedKey(k, c))
    && (forall x :: s.Has(x) && s.At(x).status != Pendding ==> total[SlotKey(s, x)] > 0)
    && (forall u, i: nat :: u in done && u in c && i < PlanCount(|c[u]|) ==> total[Key(u, PlanBlock(i, |c[u]|))] > 0)
  }

  lemma SlotPlanned(s: Sched, x: Slot, c: Contents, h: Hash)
    requires Partitioned(s) && Sources(s, c, h) && s.Has(x)
    ensures x.uri in c && s.At(x).block == PlanBlock(x.i, |c[x.uri]|) && x.i < PlanCount(|c[x.uri]|)
    ensures PlannedKey(SlotKey(s, x), c)
  {
    assert TaskPlanned(s.At(x), x.uri, x.i, s.res[x.uri]);
  }

  lemma VisitRecorded(s: Sched, x: Slot, ms: uint64, dead: set<Addr>, total: multiset<Key>, done: set<Text>,
        c: Contents, h: Hash)
    requires Partitioned(s) && s.Has(x) && Sources(s, c, h) && Recorded(s, total, done, c)
    ensures Recorded(TickSlot(s, x, ms, dead), TotalAfter(s, x, ms, dead, total), done, c)
  {
    hide TickSlot, Partitioned, Sources;
    var r, after := TickSlot(s, x, ms, dead), TotalAfter(s, x, ms, dead, total);
    VisitIsLocal(s, x, ms, dead);
    PartitionedFixesBlocks(s, r);
    SlotPlanned(s, x, c, h);
    forall y | r.Has(y) && r.At(y).status != Pendding ensures after[SlotKey(r, y)] > 0 {
      assert s.Has(y) && SlotKey(r, y) == SlotKey(s, y);
    }
  }

  ghost predicate RecordedIn(s: Sched, issued: multiset<Key>, done: set<Text>, c: Contents) {
    Recorded(s, issued + SentKeys(s.out), done, c)
  }

  lemma {:induction false} VisitsRecorded(s: Sched, xs: seq<Slot>, ms: uint64, dead: set<Addr>, issued: multiset<Key>,
                                          done: set<Text>, c: Contents, h: Hash)
    requires Partitioned(s) && AllIn(xs, s) && Sources(s, c, h) && RecordedIn(s, issued, done, c)
    ensures RecordedIn(TickSlots(s, xs, ms, dead), issued, done, c)
  {
    hide Partitioned, TickSlot, Recorded;
    if xs != [] {
      var init, x := xs[..|xs| - 1], xs[|xs| - 1];
      var m := TickSlots(s, init, ms, dead);
      VisitsRecorded(s, init, ms, dead, issued, done, c, h);
      TicksKeep(s, init, ms, dead);
      assert s.Has(x) && m.Has(x);
      VisitRecorded(m, x, ms, dead, issued + SentKeys(m.out), done, c, h);
      VisitTotal(m, x, ms, dead, issued);
    }
  }

  lemma TickRecorded(s: Sched, ms: uint64, dead: set<Addr>, issued: multiset<Key>, done: set<Text>, c: Contents,
        h: Hash)
    requires Partitioned(s) && Sources(s, c, h) && RecordedIn(s, issued, done, c)
    ensures RecordedIn(Tick(s, ms, dead), issued, done, c)
  {
    AllSlotsOnce(s.tasks);
    VisitsRecorded(s, AllSlots(s.tasks), ms, dead, issued, done, c, h);
  }

  lemma AddResourceRecorded(s: Sched, r: Resource, from: Addr, dead: set<Addr>, files: map<Text, seq<byte>>,
                            issued: multiset<Key>, done: set<Text>, c: Contents, h: Hash)
    requires Partitioned(s) && NoneStopped(s) && Store(s, files, done, c, h) && Fetchable(r, files, done, c, h)
    requires RecordedIn(s, issued, done, c)
    ensures RecordedIn(AddResource(s, r.uri, r.hash, r.size, from, dead), issued, done, c)
  {
    hide Partitioned, Tick, Replan, Progress, Finished;
    AnnounceTruthful(s, r, from, files, done, c, h);
    var a := Announce(s, r.uri, r.hash, r.size, from).value;
    var p := Replan(a, a.res[r.uri]);
    SameTasksStopped(s, a);
    ReplanSlots(a, a.res[r.uri]);
    forall x | p.Has(x) && p.At(x).status != Pendding ensures (issued + SentKeys(p.out))[SlotKey(p, x)] > 0 {
      assert a.Has(x) && s.Has(x) && a.At(x) == s.At(x) && SlotKey(p, x) == SlotKey(s, x);
    }
    TickRecorded(p, 0, dead, issued, done, c, h);
  }

  lemma SameTasksStopped(s: Sched, a: Sched)
    requires NoneStopped(s) && a.tasks == s.tasks
    ensures NoneStopped(a)
  {
    forall x: Slot | a.Has(x) ensures a.At(x).status != Stop { assert s.Has(x) && s.At(x).status != Stop; }
  }

  lemma {:induction false} AddAllRecorded(s: Sched, rs: seq<Resource>, k: nat, from: Addr, dead: set<Addr>,
        files: map<Text, seq<byte>>,
                                          done: set<Text>, c: Contents, h: Hash, net: seq<Msg>,
                                          issued: multiset<Key>, matched: multiset<Key>)
    requires Sound(s, files, done, c, h, net, issued, matched) && Plannable(c) && RecordedIn(s, issued, done, c)
    requires k <= |rs| && forall i :: 0 <= i < |rs| ==> Fetchable(rs[i], files, done, c, h)
    ensures RecordedIn(AddAll(s, rs, k, from, dead), issued, done, c)
  {
    hide RecordedIn, Fetchable, AddResource, Single, Plannable;
    if k > 0 {
      AddAllRecorded(s, rs, k - 1, from, dead, files, done, c, h, net, issued, matched);
      AddAllDelivers(s, rs, k - 1, from, dead, files, done, c, h, net, issued, matched);
      AddResourceRecorded(AddAll(s, rs, k - 1, from, dead), rs[k - 1], from, dead, files, issued, done, c, h);
    }
  }

  // ---------------------------------------------------------------- the record, step by step

  /** The delivery invariant, with the record of requests beside it. */
  ghost predicate Recording(w: World, files0: map<Text, seq<byte>>, c: Contents, h: Hash) {
    Delivering(w, files0, c, h) && RecordedIn(w.node.sched, w.issued, w.done, c)
  }

  lemma FlushRecorded(s: Sched, issued: multiset<Key>, done: set<Text>, c: Contents)
    requires RecordedIn(s, issued, done, c)
    ensures RecordedIn(s.(out := []), issued + SentKeys(s.out), done, c)
  {
    var r, total := s.(out := []), issued + SentKeys(s.out);
    NothingWritten();
    assert total + SentKeys([]) == total;
    forall x | r.Has(x) && r.At(x).status != Pendding ensures total[SlotKey(r, x)] > 0 {
      assert s.Has(x) && SlotKey(r, x) == SlotKey(s, x);
    }
  }

  lemma SucceedRecorded(s: Sched, k: Key, issued: multiset<Key>, done: set<Text>, c: Contents)
    requires Partitioned(s) && RecordedIn(s, issued, done, c) && (issued + SentKeys(s.out))[k] > 0
    ensures RecordedIn(Succeed(s, k.uri, k.block), issued, done, c)
  {
    hide Succeed, Partitioned;
    var r := Succeed(s, k.uri, k.block);
    SucceedSlots(s, k);
    forall x | r.Has(x) && r.At(x).status != Pendding ensures (issued + SentKeys(r.out))[SlotKey(r, x)] > 0 {
      assert s.Has(x) && SlotKey(r, x) == SlotKey(s, x);
    }
  }

  lemma CancelRecorded(s: Sched, u: Text, issued: multiset<Key>, done: set<Text>, c: Contents, h: Hash)
    requires Partitioned(s) && Sources(s, c, h) && RecordedIn(s, issued, done, c) && IsSuccess(s, u)
    ensures RecordedIn(CancelTask(s, u), issued, done + {u}, c)
  {
    var r, total := CancelTask(s, u), issued + SentKeys(s.out);
    forall x | r.Has(x) && r.At(x).status != Pendding ensures total[SlotKey(r, x)] > 0 {
      assert s.Has(x) && SlotKey(r, x) == SlotKey(s, x);
    }
    forall i: nat | i < PlanCount(|c[u]|) ensures total[Key(u, PlanBlock(i, |c[u]|))] > 0 {
      assert ListPlanned(s.tasks[u], u, s.res[u]);
      assert s.Has(Slot(u, i)) && s.At(Slot(u, i)).status == Success;
      SlotPlanned(s, Slot(u, i), c, h);
    }
  }

  lemma SettleRecorded(s: Sched, u: Text, v: Verdict, issued: multiset<Key>, done: set<Text>, c: Contents, h: Hash)
    requires Partitioned(s) && Sources(s, c, h) && RecordedIn(s, issued, done, c)
    requires v in {Verified, Unfinished} && (v == Verified ==> IsSuccess(s, u))
    ensures var q := Settle(s, u, v);
      Partitioned(q) && Sources(q, c, h) && RecordedIn(q, issued, if v == Verified then done + {u} else done, c)
  {
    hide RecordedIn;
    if v == Verified {
      CancelKeeps(s, u);
      CancelRecorded(s, u, issued, done, c, h);
    }
  }

  lemma ArrivedRecorded(w: World, i: nat, counts: seq<nat>, dead: set<Addr>, files0: map<Text, seq<byte>>,
        c: Contents, h: Hash)
    requires Recording(w, files0, c, h) && Plannable(c)
    requires i < |w.net| && w.net[i].Reply? && WriteCounts(counts, |w.net[i].data|) && OneFullWrite(counts, |w.net[i].data|)
    ensures AllAtMost(counts, |w.net[i].data|)
    ensures var r := Arrived(w.(net := Without(w.net, i)), w.net[i], counts, h, dead);
      RecordedIn(r.node.sched, r.issued, r.done, c) && r.matched == w.matched + multiset{KeyOf(w.net[i])}
  {
    hide RecordedIn, Single, Progress, Finished, Untouched, Tick, Succeed, Saved, Partitioned, IsSuccess;
    var m, s := w.net[i], w.node.sched;
    ReplyDelivers(w, i, counts, files0, c, h);
    MessageIsOwed(s, w.net, i, w.issued, w.matched);
    var after := Saved(w.node.files, m.uri, m.block.start, m.data, counts);
    var t := Succeed(s, m.uri, m.block);
    var v := Judge(t, after, m.uri, h);
    SucceedIsLocal(s, KeyOf(m), c, h);
    SucceedRecorded(s, KeyOf(m), w.issued, w.done, c);
    SettleRecorded(t, m.uri, v, w.issued, w.done, c, h);
    var q, done := Settle(t, m.uri, v), if v == Verified then w.done + {m.uri} else w.done;
    TickRecorded(q, 0, dead, w.issued, done, c, h);
    FlushRecorded(Tick(q, 0, dead), w.issued, done, c);
  }

  lemma TakenRecorded(w: World, i: nat, heard: Option<Msg>, disk: Option<seq<nat>>, dead: set<Addr>,
        files0: map<Text, seq<byte>>,
                      c: Contents, h: Hash)
    requires Recording(w, files0, c, h) && Plannable(c)
    requires i < |w.net| && w.net[i].Reply? && (disk.Some? ==> OneFullWrite(disk.value, |w.net[i].data|))
    requires heard.Some? ==> heard.value == w.net[i]
    ensures var r := Taken(w.(net := Without(w.net, i)), heard, disk, h, dead); RecordedIn(r.node.sched, r.issued, r.done, c)
  {
    hide RecordedIn, Delivering, Arrived;
    if heard.Some? && disk.Some? && WriteCounts(disk.value, |w.net[i].data|) {
      ArrivedRecorded(w, i, disk.value, dead, files0, c, h);
    }
  }

  lemma IndexRecorded(w: World, from: Addr, table: seq<Resource>, dead: set<Addr>, files0: map<Text, seq<byte>>,
        c: Contents, h: Hash)
    requires Recording(w, files0, c, h) && Plannable(c)
    requires forall k :: 0 <= k < |table| ==> TruthfulEntry(table[k], c, h)
    ensures var r := Flush(w, RecvIdx(w.node, from, table, h, dead)); RecordedIn(r.node.sched, r.issued, r.done, c)
  {
    hide RecordedIn, Single, Progress, Finished, Untouched, Books, AddAll;
    var s, files := w.node.sched, w.node.files;
    var need := NeedToSync(table, Listing(files, h));
    forall i | 0 <= i < |need| ensures Fetchable(need[i], files, w.done, c, h) {
      NeededIsFetchable(table, need[i], s, files, w.done, c, h);
    }
    AddAllRecorded(s, need, |need|, from, dead, files, w.done, c, h, w.net, w.issued, w.matched);
    FlushRecorded(AddAll(s, need, |need|, from, dead), w.issued, w.done, c);
  }

  lemma TimerRecorded(w: World, ms: uint64, dead: set<Addr>, files0: map<Text, seq<byte>>, c: Contents, h: Hash)
    requires Recording(w, files0, c, h)
    ensures var r := Flush(w, w.node.(sched := Tick(w.node.sched, ms, dead))); RecordedIn(r.node.sched, r.issued, r.done, c)
  {
    hide RecordedIn, Single, Progress, Finished, Untouched, Tick;
    TickRecorded(w.node.sched, ms, dead, w.issued, w.done, c, h);
    FlushRecorded(Tick(w.node.sched, ms, dead), w.issued, w.done, c);
  }

  lemma NextRecorded(w: World, step: Step, files0: map<Text, seq<byte>>, c: Contents, h: Hash)
    requires Recording(w, files0, c, h) && Plannable(c) && Truthful(step, w, c, h)
    ensures Recording(Next(w, step, h), files0, c, h)
  {
    hide Delivering, RecordedIn, Taken, RecvIdx, Flush, Heard, AnswerTo, Tick;
    NextDelivers(w, step, files0, c, h);
    match step
    case Index(from, table, dead) => IndexRecorded(w, from, table, dead, files0, c, h);
    case Timer(ms, dead) => TimerRecorded(w, ms, dead, files0, c, h);
    case Answer(i, file) =>
    case Arrive(i, disk, dead) =>
      if i < |w.net| && w.net[i].Reply? {
        DeliveringSmall(w, i, files0, c, h);
        HeardOrLost(w.net[i]);
        TakenRecorded(w, i, Heard(w.net[i]), disk, dead, files0, c, h);
      }
    case Lose(i) =>
  }

  lemma {:induction false} RunRecorded(ws: seq<World>, steps: seq<Step>, n: nat, files0: map<Text, seq<byte>>,
        c: Contents, h: Hash)
    requires TruthfulRun(ws, steps, c, h) && ws[0] == Start(files0) && Plannable(c) && n < |ws|
    ensures Recording(ws[n], files0, c, h)
  {
    hide Recording, Next, Truthful;
    if n > 0 {
      RunRecorded(ws, steps, n - 1, files0, c, h);
      assert Takes(ws[n - 1], steps[n - 1], ws[n], h);
      NextRecorded(ws[n - 1], steps[n - 1], files0, c, h);
    } else {
      StartRecorded(files0, c, h);
    }
  }

  lemma StartRecorded(files: map<Text, seq<byte>>, c: Contents, h: Hash)
    ensures Recording(Start(files), files, c, h)
  {
    StartDelivers(files, c, h);
    NothingWritten();
  }

  // ---------------------------------------------------------------- done exactly when every block was taken

  ghost function BlockKeys(u: Text, size: nat, n: nat): set<Key> {
    set i: nat | i < n :: Key(u, PlanBlock(i, size))
  }

  lemma {:induction false} BlockKeysSize(u: Text, size: nat, n: nat)
    ensures |BlockKeys(u, size, n)| == n
  {
    if n > 0 {
      BlockKeysSize(u, size, n - 1);
      var k := Key(u, PlanBlock(n - 1, size));
      if k in BlockKeys(u, size, n - 1) {
        var i: nat :| i < n - 1 && k == Key(u, PlanBlock(i, size));
        PlanBlocksDistinct(i, n - 1, size);
      }
      assert BlockKeys(u, size, n) == BlockKeys(u, size, n - 1) + {k};
    }
  }

  /** The blocks of `u` whose reply was taken. */
  ghost function TakenBlocks(w: World, u: Text): set<Key> {
    set k | k in w.matched && k.uri == u
  }

  lemma TakenAreBlocks(w: World, u: Text, files0: map<Text, seq<byte>>, c: Contents, h: Hash)
    requires Recording(w, files0, c, h) && u in c
    ensures TakenBlocks(w, u) <= BlockKeys(u, |c[u]|, PlanCount(|c[u]|))
  {
    OneLedger(w, files0, c, h);
    forall k | k in TakenBlocks(w, u) ensures k in BlockKeys(u, |c[u]|, PlanCount(|c[u]|)) {
      assert w.issued[k] > 0;
    }
  }

  /** The parts of the invariant read off without the pending output. */
  lemma OneLedger(w: World, files0: map<Text, seq<byte>>, c: Contents, h: Hash)
    requires Recording(w, files0, c, h)
    ensures Partitioned(w.node.sched) && Single(w.node.sched, w.issued, w.matched) && NoneStopped(w.node.sched)
    ensures OwedActive(w.node.sched, w.issued, w.matched) && WaitingUnsent(w.node.sched, w.issued)
    ensures ActiveOwed(w.node.sched, w.issued, w.matched) && Recorded(w.node.sched, w.issued, w.done, c)
    ensures forall k :: w.matched[k] <= w.issued[k] <= 1
    ensures |w.issued| == |w.matched| + w.node.sched.downloads
  {
    NothingWritten();
    assert w.issued + multiset{} == w.issued;
    BooksBounds(w.node.sched, w.net, w.issued, w.matched);
    forall k ensures w.matched[k] <= w.issued[k] <= 1 { OneRequestEach(w, files0, c, h, k); }
  }

  /** A planned block was taken exactly when its slot is a success, or its whole file is done. */
  lemma TakenExactly(w: World, x: Slot, files0: map<Text, seq<byte>>, c: Contents, h: Hash)
    requires Recording(w, files0, c, h) && w.node.sched.Has(x)
    ensures SlotKey(w.node.sched, x) in w.matched <==> w.node.sched.At(x).status == Success
  {
    hide Delivering, Single, RecordedIn, Partitioned;
    var s, k := w.node.sched, SlotKey(w.node.sched, x);
    OneLedger(w, files0, c, h);
    if s.At(x).status == Success && k !in w.matched {
      assert w.matched[k] == 0 < w.issued[k];
      var y :| s.Has(y) && SlotKey(s, y) == k && Active(s.At(y));
      SlotKeysDistinct(s, x, y);
    }
    if k in w.matched {
      assert s.At(x).status != Pendding && !Active(s.At(x)) && s.At(x).status != Stop;
    }
  }

  /**
   Over every truthful run, with any losses, time-outs and failed writes: an announced file is done exactly when the
   replies of all its blocks were taken, and there are as many of those as it has blocks.
   */
  lemma DoneExactlyWhenTaken(files: map<Text, seq<byte>>, ws: seq<World>, steps: seq<Step>, n: nat, c: Contents,
        h: Hash, u: Text)
    requires Plannable(c) && TruthfulRun(ws, steps, c, h) && ws[0] == Start(files) && n < |ws|
    requires u in ws[n].node.sched.res
    ensures u in c && (u in ws[n].done <==> |TakenBlocks(ws[n], u)| == PlanCount(|c[u]|))
  {
    RunRecorded(ws, steps, n, files, c, h);
    DoneWhenTaken(ws[n], files, c, h, u);
  }

  lemma DoneIsTaken(w: World, files0: map<Text, seq<byte>>, c: Contents, h: Hash, u: Text, k: Key)
    requires Recording(w, files0, c, h) && u in w.done && u in c && k in BlockKeys(u, |c[u]|, PlanCount(|c[u]|))
    ensures k in TakenBlocks(w, u)
  {
    hide Balanced, Sources, Progress, Untouched, AllHonest, PlanCount, Single;
    var s := w.node.sched;
    OneLedger(w, files0, c, h);
    assert w.issued[k] > 0 && u !in s.tasks;
    assert !(exists y :: s.Has(y) && SlotKey(s, y) == k && Active(s.At(y)));
  }

  lemma UndoneIsNotTaken(w: World, files0: map<Text, seq<byte>>, c: Contents, h: Hash, u: Text) returns (k: Key)
    requires Recording(w, files0, c, h) && u in w.node.sched.res && u !in w.done && u in c
    ensures k in BlockKeys(u, |c[u]|, PlanCount(|c[u]|)) && k !in TakenBlocks(w, u)
  {
    hide Balanced, Progress, Untouched, AllHonest, PlanCount, Single, Recorded;
    var s := w.node.sched;
    DeliveringPartitioned(w, files0, c, h);
    assert !IsSuccess(s, u) && u in s.tasks;
    var i :| 0 <= i < |s.tasks[u]| && s.tasks[u][i].status != Success;
    SlotPlanned(s, Slot(u, i), c, h);
    TakenExactly(w, Slot(u, i), files0, c, h);
    k := SlotKey(s, Slot(u, i));
  }

  lemma DoneWhenTaken(w: World, files0: map<Text, seq<byte>>, c: Contents, h: Hash, u: Text)
    requires Recording(w, files0, c, h) && u in w.node.sched.res
    ensures u in c && (u in w.done <==> |TakenBlocks(w, u)| == PlanCount(|c[u]|))
  {
    hide BlockKeys, TakenBlocks, PlanCount, Balanced, Single, Progress, Finished, Untouched, AllHonest, RecordedIn;
    var n := PlanCount(|c[u]|);
    var all, taken := BlockKeys(u, |c[u]|, n), TakenBlocks(w, u);
    TakenAreBlocks(w, u, files0, c, h);
    BlockKeysSize(u, |c[u]|, n);
    if u in w.done {
      forall k | k in all ensures k in taken { DoneIsTaken(w, files0, c, h, u, k); }
      assert taken == all;
    } else {
      var k := UndoneIsNotTaken(w, files0, c, h, u);
      Smaller(taken, all, k);
    }
  }

  lemma Smaller(a: set<Key>, b: set<Key>, k: Key)
    requires a <= b && k in b && k !in a
    ensures |a| < |b|
  {
    assert a <= b - {k};
    SubsetSize(a, b - {k});
  }

  lemma SubsetSize(a: set<Key>, b: set<Key>)
    requires a <= b
    ensures |a| <= |b|
  {
    assert b == a + (b - a);
  }

  // ---------------------------------------------------------------- nothing is lost

  /** Every write succeeds, every request is answered from a file, every reply is written, and no message is lost. */
  ghost predicate Lossless(step: Step, w: World) {
    match step
    case Index(from, table, dead) => dead == {}
    case Timer(ms, dead) => dead == {}
    case Answer(i, file) => i < |w.net| && w.net[i].Request? ==> file.Some?
    case Arrive(i, disk, dead) => dead == {} && (i < |w.net| && w.net[i].Reply? ==> disk.Some? && WriteCounts(disk.value, |w.net[i].data|))
    case Lose(i) => i >= |w.net|
  }

  /** Files that a range text can describe. */
  ghost predicate Sendables(c: Contents) {
    Plannable(c) && forall u :: u in c ==> 0 < |c[u]| <= INT_MAX
  }

  /** Every request written is on the network. */
  ghost predicate AllSent(out: seq<Sent>) {
    Keys(Outgoing(out)) == SentKeys(out)
  }

  /** No block waits while a slot is free. */
  ghost predicate Busy(s: Sched) {
    forall x: Slot :: s.Has(x) && s.At(x).status == Pendding ==> s.downloads >= DOWNLOAD_LIMIT
  }

  /** Every request is matched, or on its way as itself or as its reply. */
  ghost predicate Conserved(w: World) {
    Keys(w.net) + w.matched == w.issued
  }

  ghost predicate Flowing(w: World) {
    Conserved(w) && Busy(w.node.sched)
  }

  lemma {:induction false} VisitsSent(s: Sched, xs: seq<Slot>, ms: uint64)
    requires Partitioned(s) && AllIn(xs, s) && AllSent(s.out)
    ensures AllSent(TickSlots(s, xs, ms, {}).out)
  {
    hide Partitioned, TickSlot, Outgoing, SentKeys;
    if xs != [] {
      var init, x := xs[..|xs| - 1], xs[|xs| - 1];
      var m := TickSlots(s, init, ms, {});
      VisitsSent(s, init, ms);
      TicksKeep(s, init, ms, {});
      assert s.Has(x) && m.Has(x);
      VisitIsLocal(m, x, ms, {});
      OutStep(m.out, Sent(m.At(x).ctx, x.uri, m.At(x).block, true));
    }
  }

  lemma TickFlows(s: Sched, ms: uint64)
    requires Partitioned(s) && AllSent(s.out)
    ensures AllSent(Tick(s, ms, {}).out) && Busy(Tick(s, ms, {}))
  {
    hide Outgoing, SentKeys;
    var r := Tick(s, ms, {});
    AllSlotsOnce(s.tasks);
    VisitsSent(s, AllSlots(s.tasks), ms);
    TickKeeps(s, ms, {});
    forall x: Slot | r.Has(x) && r.At(x).status == Pendding ensures r.downloads >= DOWNLOAD_LIMIT {
      assert s.Has(x);
      TickIsWorkConserving(s, x, ms, {});
    }
  }

  lemma AddResourceFlows(s: Sched, uri: Text, hash: Text, size: nat, from: Addr)
    requires Partitioned(s) && AllSent(s.out) && Busy(s)
    ensures var r := AddResource(s, uri, hash, size, from, {}); Partitioned(r) && AllSent(r.out) && Busy(r)
  {
    hide Tick, Replan, Partitioned, AllSent, Busy;
    AddResourceKeeps(s, uri, hash, size, from, {});
    AnnounceKeeps(s, uri, hash, size, from);
    var a := Announce(s, uri, hash, size, from);
    if a.Some? {
      AnnouncePlans(s, uri, hash, size, from);
      TickFlows(Replan(a.value, a.value.res[uri]), 0);
    }
  }

  lemma AnnouncePlans(s: Sched, uri: Text, hash: Text, size: nat, from: Addr)
    requires Partitioned(s)
    ensures var a := Announce(s, uri, hash, size, from);
      a.Some? ==> uri in a.value.res && a.value.res[uri].owners != []
                  && Partitioned(Replan(a.value, a.value.res[uri])) && Replan(a.value, a.value.res[uri]).out == s.out
  {
    hide Partitioned, Replan;
    AnnounceKeeps(s, uri, hash, size, from);
    var a := Announce(s, uri, hash, size, from);
    if a.Some? {
      assert uri in a.value.res && ResourceOk(uri, a.value.res[uri]) by { PartitionedOwners(a.value, uri); }
      ReplanKeeps(a.value, a.value.res[uri]);
      ReplanSame(a.value, a.value.res[uri]);
    }
  }

  lemma PartitionedOwners(s: Sched, u: Text)
    requires Partitioned(s)
    ensures u in s.res ==> ResourceOk(u, s.res[u])
  {
  }

  lemma ReplanSame(s: Sched, info: ResourceInfo)
    requires Partitioned(s) && info.owners != [] && info.uri in s.res && s.res[info.uri] == info
    ensures Replan(s, info).out == s.out && Replan(s, info).res == s.res
  {
    ReplanShape(s, info);
  }

  lemma {:induction false} AddAllFlows(s: Sched, rs: seq<Resource>, k: nat, from: Addr)
    requires Partitioned(s) && AllSent(s.out) && Busy(s) && k <= |rs|
    ensures var r := AddAll(s, rs, k, from, {}); Partitioned(r) && AllSent(r.out) && Busy(r)
  {
    hide Partitioned, AllSent, Busy, AddResource;
    if k > 0 {
      AddAllFlows(s, rs, k - 1, from);
      AddResourceFlows(AddAll(s, rs, k - 1, from, {}), rs[k - 1].uri, rs[k - 1].hash, rs[k - 1].size, from);
    }
  }

  lemma FlushFlows(w: World, n: Node)
    requires Conserved(w) && AllSent(n.sched.out) && Busy(n.sched)
    ensures Flowing(Flush(w, n))
  {
    hide Keys, Outgoing, SentKeys;
    KeysAppend(w.net, Outgoing(n.sched.out));
    var r := n.sched.(out := []);
    forall x: Slot | r.Has(x) && r.At(x).status == Pendding ensures r.downloads >= DOWNLOAD_LIMIT {
      assert n.sched.Has(x);
    }
  }

  lemma AnswerFlows(w: World, i: nat, file: Option<seq<byte>>, files0: map<Text, seq<byte>>, c: Contents, h: Hash)
    requires Delivering(w, files0, c, h) && Sendables(c) && Flowing(w) && i < |w.net| && w.net[i].Request? && file.Some?
    requires w.net[i].uri in c && file.value == c[w.net[i].uri]
    ensures var a := AnswerTo(w.net[i], file); |a| == 1 && a[0].Reply? && KeyOf(a[0]) == KeyOf(w.net[i])
    ensures Flowing(w.(net := Without(w.net, i) + AnswerTo(w.net[i], file)))
  {
    hide Heard, AnswerTo, Keys, Delivering, Busy, Without;
    var m := w.net[i];
    DeliveringSmall(w, i, files0, c, h);
    OwedBlock(w, i, files0, c, h);
    HeardOrLost(m);
    OneAnswer(m, file);
    var a := AnswerTo(m, file);
    KeysWithout(w.net, i);
    KeysAppend(Without(w.net, i), a);
    assert a == [a[0]];
    KeysOne(a[0]);
  }

  /** A block under way is a proper piece of a file that a range can describe. */
  lemma OwedBlock(w: World, i: nat, files0: map<Text, seq<byte>>, c: Contents, h: Hash)
    requires Delivering(w, files0, c, h) && Sendables(c) && i < |w.net|
    ensures Readable(w.net[i].block) && w.net[i].block.start < OFF_MAX
  {
    hide Delivering;
    OwedBlockInside(w, i, files0, c, h);
  }

  lemma ArrivedFlows(w: World, i: nat, counts: seq<nat>, files0: map<Text, seq<byte>>, c: Contents, h: Hash)
    requires Recording(w, files0, c, h) && Sendables(c) && Flowing(w)
    requires i < |w.net| && w.net[i].Reply? && WriteCounts(counts, |w.net[i].data|) && OneFullWrite(counts, |w.net[i].data|)
    ensures AllAtMost(counts, |w.net[i].data|)
    ensures Flowing(Arrived(w.(net := Without(w.net, i)), w.net[i], counts, h, {}))
  {
    hide RecordedIn, Single, Progress, Finished, Untouched, Tick, Succeed, Saved, Keys, Busy, AllSent, Without, Partitioned, IsSuccess;
    var m, s := w.net[i], w.node.sched;
    ArrivedRecorded(w, i, counts, {}, files0, c, h);
    ReplyDelivers(w, i, counts, files0, c, h);
    var after := Saved(w.node.files, m.uri, m.block.start, m.data, counts);
    var t := Succeed(s, m.uri, m.block);
    var v := Judge(t, after, m.uri, h);
    SucceedIsLocal(s, KeyOf(m), c, h);
    SucceedOut(s, KeyOf(m));
    CancelKeeps(t, m.uri);
    var q := Settle(t, m.uri, v);
    NothingSent();
    TickFlows(q, 0);
    KeysWithout(w.net, i);
    var done := if v == Verified then w.done + {m.uri} else w.done;
    var w1 := w.(net := Without(w.net, i), matched := w.matched + multiset{KeyOf(m)}, done := done);
    assert Conserved(w1);
    FlushFlows(w1, Node(Tick(q, 0, {}), after));
  }

  lemma SucceedOut(s: Sched, k: Key)
    requires Partitioned(s)
    ensures Succeed(s, k.uri, k.block).out == s.out
  {
    SucceedSlots(s, k);
  }

  lemma NothingSent()
    ensures AllSent([])
  {
    NothingWritten();
  }

  lemma TakenFlows(w: World, i: nat, heard: Option<Msg>, disk: Option<seq<nat>>, files0: map<Text, seq<byte>>,
        c: Contents, h: Hash)
    requires Recording(w, files0, c, h) && Sendables(c) && Flowing(w) && i < |w.net| && w.net[i].Reply?
    requires disk.Some? && WriteCounts(disk.value, |w.net[i].data|) && OneFullWrite(disk.value, |w.net[i].data|)
    requires heard == Some(w.net[i])
    ensures Flowing(Taken(w.(net := Without(w.net, i)), heard, disk, h, {}))
  {
    hide Recording, Flowing, Arrived;
    WriteCountsBounded(disk.value, |w.net[i].data|);
    ArrivedFlows(w, i, disk.value, files0, c, h);
  }

  lemma ReplyHeardHere(w: World, i: nat, files0: map<Text, seq<byte>>, c: Contents, h: Hash)
    requires Delivering(w, files0, c, h) && Sendables(c) && i < |w.net|
    ensures Heard(w.net[i]) == Some(w.net[i])
  {
    hide Heard, Delivering;
    DeliveringSmall(w, i, files0, c, h);
    OwedBlock(w, i, files0, c, h);
    HeardOrLost(w.net[i]);
  }

  lemma NextFlows(w: World, step: Step, files0: map<Text, seq<byte>>, c: Contents, h: Hash)
    requires Recording(w, files0, c, h) && Sendables(c) && Flowing(w) && Truthful(step, w, c, h) && Lossless(step, w)
    ensures Flowing(Next(w, step, h))
  {
    hide RecordedIn, Single, Store, Untouched, AllHonest, Partitioned, Taken, AnswerTo, Heard, AddAll, Tick, Keys, Flush, NeedToSync;
    NothingSent();
    match step
    case Index(from, table, dead) =>
      var need := NeedToSync(table, Listing(w.node.files, h));
      AddAllFlows(w.node.sched, need, |need|, from);
      FlushFlows(w, RecvIdx(w.node, from, table, h, {}));
    case Timer(ms, dead) =>
      TickFlows(w.node.sched, ms);
      FlushFlows(w, w.node.(sched := Tick(w.node.sched, ms, {})));
    case Answer(i, file) =>
      if i < |w.net| && w.net[i].Request? { AnswerFlows(w, i, file, files0, c, h); }
    case Arrive(i, disk, dead) =>
      if i < |w.net| && w.net[i].Reply? {
        ReplyHeardHere(w, i, files0, c, h);
        TakenFlows(w, i, Heard(w.net[i]), disk, files0, c, h);
      }
    case Lose(i) =>
  }

  ghost predicate LosslessRun(ws: seq<World>, steps: seq<Step>, c: Contents, h: Hash) {
    TruthfulRun(ws, steps, c, h) && forall i :: 0 <= i < |steps| ==> Lossless(steps[i], ws[i])
  }

  lemma {:induction false} RunFlows(ws: seq<World>, steps: seq<Step>, n: nat, files0: map<Text, seq<byte>>,
        c: Contents, h: Hash)
    requires LosslessRun(ws, steps, c, h) && ws[0] == Start(files0) && Sendables(c) && n < |ws|
    ensures Recording(ws[n], files0, c, h) && Flowing(ws[n])
  {
    hide Recording, Next, Truthful, Flowing, Lossless;
    RunRecorded(ws, steps, n, files0, c, h);
    if n > 0 {
      RunFlows(ws, steps, n - 1, files0, c, h);
      assert Takes(ws[n - 1], steps[n - 1], ws[n], h);
      NextFlows(ws[n - 1], steps[n - 1], files0, c, h);
    } else {
      StartFlows(files0);
    }
  }

  lemma StartFlows(files: map<Text, seq<byte>>)
    ensures Flowing(Start(files))
  {
    NothingWritten();
  }

  /**
   When nothing is lost the network runs dry exactly when every announced file is done: there is no deadlock, whatever
   the order of the messages, the timer and further announcements, and even when blocks time out meanwhile.
   */
  lemma DryExactlyWhenDone(files: map<Text, seq<byte>>, ws: seq<World>, steps: seq<Step>, n: nat, c: Contents, h: Hash)
    requires LosslessRun(ws, steps, c, h) && ws[0] == Start(files) && Sendables(c) && n < |ws|
    ensures ws[n].net == [] <==> ws[n].node.sched.res.Keys == ws[n].done
  {
    hide LosslessRun, Recording, Flowing;
    RunFlows(ws, steps, n, files, c, h);
    DryWhenDone(ws[n], files, c, h);
  }

  lemma DryWhenDone(w: World, files0: map<Text, seq<byte>>, c: Contents, h: Hash)
    requires Recording(w, files0, c, h) && Flowing(w)
    ensures w.net == [] <==> w.node.sched.res.Keys == w.done
  {
    hide Balanced, Single, Sources, Progress, Untouched, AllHonest, RecordedIn, Keys;
    var s := w.node.sched;
    OneLedger(w, files0, c, h);
    KeysSize(w.net);
    if w.net == [] {
      NothingWritten();
      assert w.matched == w.issued;
      forall u | u in s.res ensures u in w.done {
        if u !in w.done { StuckIsImpossible(w, u, files0, c, h); }
      }
    } else {
      var k := KeyOf(w.net[0]);
      KeysWithout(w.net, 0);
      assert w.matched[k] < w.issued[k];
      var x :| s.Has(x) && SlotKey(s, x) == k && Active(s.At(x));
      assert x.uri in s.tasks;
      TaskKnown(s, x.uri);
    }
  }

  lemma TaskKnown(s: Sched, u: Text)
    requires Partitioned(s) && u in s.tasks
    ensures u in s.res
  {
  }

  lemma StuckIsImpossible(w: World, u: Text, files0: map<Text, seq<byte>>, c: Contents, h: Hash)
    requires Recording(w, files0, c, h) && Flowing(w) && u in w.node.sched.res && u !in w.done
    ensures w.net != []
  {
    hide Balanced, Single, Sources, Progress, Untouched, AllHonest, RecordedIn, Keys, Partitioned, OwedActive, WaitingUnsent, Recorded;
    var s := w.node.sched;
    OneLedger(w, files0, c, h);
    KeysSize(w.net);
    assert |w.issued| == |Keys(w.net)| + |w.matched|;
    assert u in s.tasks && !IsSuccess(s, u);
    var i :| 0 <= i < |s.tasks[u]| && s.tasks[u][i].status != Success;
    var x := Slot(u, i);
    assert s.Has(x) && s.At(x).status != Stop;
    if s.At(x).status == Pendding {
      assert s.downloads >= DOWNLOAD_LIMIT;
    } else {
      assert w.matched[SlotKey(s, x)] < w.issued[SlotKey(s, x)];
      assert Keys(w.net)[SlotKey(s, x)] > 0;
    }
  }

  // ---------------------------------------------------------------- in how many steps

  ghost function WaitingSlots(s: Sched): set<Slot> {
    set u, i | u in s.tasks && 0 <= i < |s.tasks[u]| && s.tasks[u][i].status == Pendding :: Slot(u, i)
  }

  function Replies(net: seq<Msg>): nat {
    if net == [] then 0 else Replies(net[..|net| - 1]) + (if net[|net| - 1].Reply? then 1 else 0)
  }

  lemma {:induction false} RepliesAppend(a: seq<Msg>, b: seq<Msg>)
    ensures Replies(a + b) == Replies(a) + Replies(b)
  {
    if b == [] {
      assert a + b == a;
    } else {
      assert (a + b)[..|a + b| - 1] == a + b[..|b| - 1];
      RepliesAppend(a, b[..|b| - 1]);
    }
  }

  lemma RepliesOne(m: Msg)
    ensures Replies([m]) == if m.Reply? then 1 else 0
  {
    assert [m][..0] == [];
  }

  lemma RepliesWithout(net: seq<Msg>, i: nat)
    requires i < |net|
    ensures Replies(Without(net, i)) == Replies(net) - (if net[i].Reply? then 1 else 0) && |Without(net, i)| == |net| - 1
  {
    hide Replies;
    SplitAt(net, i);
    RepliesAppend(net[..i] + [net[i]], net[i + 1..]);
    RepliesAppend(net[..i], [net[i]]);
    RepliesAppend(net[..i], net[i + 1..]);
    RepliesOne(net[i]);
  }

  lemma {:induction false} RepliesBound(net: seq<Msg>)
    ensures Replies(net) <= |net|
  {
    if net != [] { RepliesBound(net[..|net| - 1]); }
  }

  lemma {:induction false} NoRepliesSent(out: seq<Sent>)
    ensures Replies(Outgoing(out)) == 0
  {
    if out != [] {
      NoRepliesSent(out[..|out| - 1]);
      var e := out[|out| - 1];
      RepliesAppend(Outgoing(out[..|out| - 1]), if e.ok then [Request(e.to, e.uri, e.block)] else []);
      if e.ok { RepliesOne(Request(e.to, e.uri, e.block)); }
    }
  }

  /** Answers and arrivals still to come: two for a block that waits or was asked for, one where the reply is under way. */
  ghost function ToDo(w: World): int {
    2 * |WaitingSlots(w.node.sched)| + 2 * |w.net| - Replies(w.net)
  }

  lemma VisitWaiting(s: Sched, x: Slot, ms: uint64, dead: set<Addr>)
    requires Partitioned(s) && s.Has(x)
    ensures var r := TickSlot(s, x, ms, dead);
      |WaitingSlots(r)| + |r.out| == |WaitingSlots(s)| + |s.out|
  {
    hide TickSlot, Partitioned;
    var r := TickSlot(s, x, ms, dead);
    VisitIsLocal(s, x, ms, dead);
    assert s.tasks.Keys == r.tasks.Keys;
    forall y: Slot ensures y in WaitingSlots(r) <==> y in WaitingSlots(s) && !(y == x && r.out != s.out) {
      if s.Has(y) && y != x { assert r.Has(y) && r.At(y) == s.At(y); }
      assert y in WaitingSlots(s) <==> s.Has(y) && s.At(y).status == Pendding;
      assert y in WaitingSlots(r) <==> r.Has(y) && r.At(y).status == Pendding;
    }
    if r.out == s.out {
      assert WaitingSlots(r) == WaitingSlots(s);
    } else {
      assert WaitingSlots(r) == WaitingSlots(s) - {x};
    }
  }

  lemma {:induction false} VisitsWaiting(s: Sched, xs: seq<Slot>, ms: uint64, dead: set<Addr>)
    requires Partitioned(s) && AllIn(xs, s)
    ensures var r := TickSlots(s, xs, ms, dead); |WaitingSlots(r)| + |r.out| == |WaitingSlots(s)| + |s.out|
  {
    hide Partitioned, TickSlot, WaitingSlots;
    if xs != [] {
      var init, x := xs[..|xs| - 1], xs[|xs| - 1];
      VisitsWaiting(s, init, ms, dead);
      TicksKeep(s, init, ms, dead);
      assert s.Has(x) && TickSlots(s, init, ms, dead).Has(x);
      VisitWaiting(TickSlots(s, init, ms, dead), x, ms, dead);
    }
  }

  lemma TickWaiting(s: Sched, ms: uint64, dead: set<Addr>)
    requires Partitioned(s)
    ensures var r := Tick(s, ms, dead); |WaitingSlots(r)| + |r.out| == |WaitingSlots(s)| + |s.out|
  {
    AllSlotsOnce(s.tasks);
    VisitsWaiting(s, AllSlots(s.tasks), ms, dead);
  }

  lemma FlushToDo(w: World, n: Node)
    requires AllSent(n.sched.out)
    ensures ToDo(Flush(w, n)) == 2 * (|WaitingSlots(n.sched)| + |n.sched.out|) + 2 * |w.net| - Replies(w.net)
  {
    var out := n.sched.out;
    OutgoingFacts(out);
    KeysSize(Outgoing(out));
    NoRepliesSent(out);
    RepliesAppend(w.net, Outgoing(out));
    assert WaitingSlots(n.sched.(out := [])) == WaitingSlots(n.sched);
  }

  /** Marking a block that was asked for takes none off the waiting ones. */
  lemma SettledWaiting(s: Sched, k: Key, v: Verdict, issued: multiset<Key>, matched: multiset<Key>)
    requires Partitioned(s) && Single(s, issued, matched) && matched[k] < (issued + SentKeys(s.out))[k]
    requires v in {Verified, Unfinished} && (v == Verified ==> IsSuccess(Succeed(s, k.uri, k.block), k.uri))
    ensures WaitingSlots(Settle(Succeed(s, k.uri, k.block), k.uri, v)) == WaitingSlots(s)
  {
    hide Succeed, Partitioned;
    var t := Succeed(s, k.uri, k.block);
    SucceedSlots(s, k);
    forall y: Slot ensures y in WaitingSlots(t) <==> y in WaitingSlots(s) {
      assert y in WaitingSlots(s) <==> s.Has(y) && s.At(y).status == Pendding;
      assert y in WaitingSlots(t) <==> t.Has(y) && t.At(y).status == Pendding;
      assert t.Has(y) <==> s.Has(y);
      if s.Has(y) && SlotKey(s, y) == k { assert s.At(y).status != Pendding; }
    }
    if v == Verified {
      forall y: Slot ensures y in WaitingSlots(CancelTask(t, k.uri)) <==> y in WaitingSlots(t) {
        if t.Has(y) && y.uri == k.uri { assert t.tasks[y.uri][y.i].status == Success; }
      }
    }
  }

  lemma ArrivedToDo(w: World, i: nat, counts: seq<nat>, files0: map<Text, seq<byte>>, c: Contents, h: Hash)
    requires Recording(w, files0, c, h) && Sendables(c)
    requires i < |w.net| && w.net[i].Reply? && WriteCounts(counts, |w.net[i].data|) && OneFullWrite(counts, |w.net[i].data|)
    ensures AllAtMost(counts, |w.net[i].data|)
    ensures ToDo(Arrived(w.(net := Without(w.net, i)), w.net[i], counts, h, {})) == ToDo(w) - 1
  {
    hide RecordedIn, Single, Progress, Finished, Untouched, Tick, Succeed, Saved, AllSent, Without, Partitioned, IsSuccess,
         WaitingSlots, Replies;
    var m, s := w.net[i], w.node.sched;
    WriteCountsBounded(counts, |m.data|);
    ReplyDelivers(w, i, counts, files0, c, h);
    MessageIsOwed(s, w.net, i, w.issued, w.matched);
    var after := Saved(w.node.files, m.uri, m.block.start, m.data, counts);
    var t := Succeed(s, m.uri, m.block);
    var v := Judge(t, after, m.uri, h);
    SettledWaiting(s, KeyOf(m), v, w.issued, w.matched);
    SucceedIsLocal(s, KeyOf(m), c, h);
    SucceedOut(s, KeyOf(m));
    CancelKeeps(t, m.uri);
    var q := Settle(t, m.uri, v);
    NothingSent();
    TickFlows(q, 0);
    TickWaiting(q, 0, {});
    RepliesWithout(w.net, i);
    var done := if v == Verified then w.done + {m.uri} else w.done;
    var w1 := w.(net := Without(w.net, i), matched := MatchedAfter(s, KeyOf(m), w.matched), done := done);
    FlushToDo(w1, Node(Tick(q, 0, {}), after));
  }

  /** An answer or an arrival that finds its message. */
  ghost predicate Effective(step: Step, w: World) {
    match step
    case Answer(i, file) => i < |w.net| && w.net[i].Request?
    case Arrive(i, disk, dead) => i < |w.net| && w.net[i].Reply?
    case Index(from, table, dead) => false
    case Timer(ms, dead) => false
    case Lose(i) => false
  }

  lemma TakenToDo(w: World, i: nat, heard: Option<Msg>, disk: Option<seq<nat>>, files0: map<Text, seq<byte>>,
        c: Contents, h: Hash)
    requires Recording(w, files0, c, h) && Sendables(c) && i < |w.net| && w.net[i].Reply?
    requires disk.Some? && WriteCounts(disk.value, |w.net[i].data|) && OneFullWrite(disk.value, |w.net[i].data|)
    requires heard == Some(w.net[i])
    ensures ToDo(Taken(w.(net := Without(w.net, i)), heard, disk, h, {})) == ToDo(w) - 1
  {
    hide Recording, ToDo, Arrived;
    WriteCountsBounded(disk.value, |w.net[i].data|);
    ArrivedToDo(w, i, disk.value, files0, c, h);
  }

  lemma TimerToDo(w: World, ms: uint64)
    requires Partitioned(w.node.sched) && w.node.sched.out == []
    ensures ToDo(Flush(w, w.node.(sched := Tick(w.node.sched, ms, {})))) == ToDo(w)
  {
    hide Partitioned, Tick, WaitingSlots;
    NothingSent();
    TickFlows(w.node.sched, ms);
    TickWaiting(w.node.sched, ms, {});
    FlushToDo(w, w.node.(sched := Tick(w.node.sched, ms, {})));
  }

  lemma AnswerToDo(w: World, i: nat, file: Option<seq<byte>>, files0: map<Text, seq<byte>>, c: Contents, h: Hash)
    requires Delivering(w, files0, c, h) && Sendables(c) && Flowing(w) && i < |w.net| && w.net[i].Request? && file.Some?
    requires w.net[i].uri in c && file.value == c[w.net[i].uri]
    ensures ToDo(w.(net := Without(w.net, i) + AnswerTo(w.net[i], file))) == ToDo(w) - 1
  {
    hide Delivering, AnswerTo, Without, Replies, WaitingSlots, Flowing;
    var a := AnswerTo(w.net[i], file);
    AnswerFlows(w, i, file, files0, c, h);
    RepliesWithout(w.net, i);
    RepliesAppend(Without(w.net, i), a);
    assert a == [a[0]];
    RepliesOne(a[0]);
  }

  lemma NextToDo(w: World, step: Step, files0: map<Text, seq<byte>>, c: Contents, h: Hash)
    requires Recording(w, files0, c, h) && Sendables(c) && Flowing(w) && Truthful(step, w, c, h) && Lossless(step, w) && !step.Index?
    ensures ToDo(Next(w, step, h)) == ToDo(w) - (if Effective(step, w) then 1 else 0)
  {
    hide RecordedIn, Single, Store, Untouched, AllHonest, Taken, AnswerTo, Heard, Tick, Flush, ToDo, Flowing;
    match step
    case Timer(ms, dead) =>
      DeliveringPartitioned(w, files0, c, h);
      TimerToDo(w, ms);
    case Answer(i, file) =>
      if i < |w.net| && w.net[i].Request? { AnswerToDo(w, i, file, files0, c, h); }
    case Arrive(i, disk, dead) =>
      if i < |w.net| && w.net[i].Reply? {
        ReplyHeardHere(w, i, files0, c, h);
        TakenToDo(w, i, Heard(w.net[i]), disk, files0, c, h);
      }
    case Lose(i) =>
  }

  /** How many of the steps `n` to `m` found their message. */
  ghost function Effectives(ws: seq<World>, steps: seq<Step>, n: nat, m: nat): nat
    requires |ws| == |steps| + 1 && n <= m < |ws|
    decreases m
  {
    if n == m then 0 else Effectives(ws, steps, n, m - 1) + (if Effective(steps[m - 1], ws[m - 1]) then 1 else 0)
  }

  lemma {:induction false} RunToDo(ws: seq<World>, steps: seq<Step>, n: nat, m: nat, files0: map<Text, seq<byte>>,
        c: Contents, h: Hash)
    requires LosslessRun(ws, steps, c, h) && ws[0] == Start(files0) && Sendables(c) && n <= m < |ws|
    requires forall k :: n <= k < m ==> !steps[k].Index?
    ensures ToDo(ws[m]) == ToDo(ws[n]) - Effectives(ws, steps, n, m)
    decreases m
  {
    hide Recording, Next, Truthful, Flowing, Lossless, ToDo, Effective;
    if m > n {
      RunToDo(ws, steps, n, m - 1, files0, c, h);
      RunFlows(ws, steps, m - 1, files0, c, h);
      assert Takes(ws[m - 1], steps[m - 1], ws[m], h);
      NextToDo(ws[m - 1], steps[m - 1], files0, c, h);
    }
  }

  lemma ToDoZero(w: World, files0: map<Text, seq<byte>>, c: Contents, h: Hash)
    requires Recording(w, files0, c, h) && Flowing(w)
    ensures ToDo(w) >= 0 && (ToDo(w) == 0 <==> w.node.sched.res.Keys == w.done)
  {
    hide Balanced, Single, Sources, Progress, Untouched, AllHonest, RecordedIn, Flowing, Replies;
    DryWhenDone(w, files0, c, h);
    RepliesBound(w.net);
    if w.node.sched.res.Keys == w.done {
      DeliveringPartitioned(w, files0, c, h);
      assert w.node.sched.tasks.Keys == {};
      assert WaitingSlots(w.node.sched) == {};
    }
  }

  /**
   Without losses, from any point on and until the next index: every announced file is done exactly when as many
   answers and arrivals found their message as were still to come, two for each block not yet asked for.
   */
  lemma DoneInExactlySteps(files: map<Text, seq<byte>>, ws: seq<World>, steps: seq<Step>, n: nat, m: nat, c: Contents,
        h: Hash)
    requires LosslessRun(ws, steps, c, h) && ws[0] == Start(files) && Sendables(c) && n <= m < |ws|
    requires forall k :: n <= k < m ==> !steps[k].Index?
    ensures Effectives(ws, steps, n, m) <= ToDo(ws[n])
    ensures ws[m].node.sched.res.Keys == ws[m].done <==> Effectives(ws, steps, n, m) == ToDo(ws[n])
  {
    hide Recording, Flowing, ToDo, Effectives;
    RunToDo(ws, steps, n, m, files, c, h);
    RunFlows(ws, steps, m, files, c, h);
    ToDoZero(ws[m], files, c, h);
  }

  ghost function ListSlots(u: Text, n: nat): set<Slot> {
    set i: nat | i < n :: Slot(u, i)
  }

  lemma {:induction false} ListSlotsSize(u: Text, n: nat)
    ensures |ListSlots(u, n)| == n
  {
    if n > 0 {
      ListSlotsSize(u, n - 1);
      assert ListSlots(u, n) == ListSlots(u, n - 1) + {Slot(u, n - 1)};
    }
  }

  lemma PlanWaiting(s: Sched, info: ResourceInfo)
    requires info.uri !in s.tasks && info.owners != []
    ensures |WaitingSlots(s.(tasks := s.tasks[info.uri := Plan(info)]))| == |WaitingSlots(s)| + PlanCount(info.size)
  {
    var u, n, p := info.uri, PlanCount(info.size), s.(tasks := s.tasks[info.uri := Plan(info)]);
    ListSlotsSize(u, n);
    forall y: Slot ensures y in WaitingSlots(p) <==> y in WaitingSlots(s) + ListSlots(u, n) {
      assert y in WaitingSlots(s) <==> s.Has(y) && s.At(y).status == Pendding;
      assert y in WaitingSlots(p) <==> p.Has(y) && p.At(y).status == Pendding;
    }
    assert WaitingSlots(p) == WaitingSlots(s) + ListSlots(u, n);
    assert WaitingSlots(s) !! ListSlots(u, n);
  }

  lemma NewFileWaiting(s: Sched, r: Resource, from: Addr)
    requires Partitioned(s) && s.out == [] && r.uri !in s.res && PlanCount(r.size) > 0
    ensures var q := AddResource(s, r.uri, r.hash, r.size, from, {});
      AllSent(q.out) && |WaitingSlots(q)| + |q.out| == |WaitingSlots(s)| + PlanCount(r.size)
  {
    hide Tick, Replan, WaitingSlots, AllSent, PlanCount;
    var info := ResourceInfo(r.uri, r.hash, r.size, [from]);
    var a := s.(res := s.res[r.uri := info]);
    AnnounceKeeps(s, r.uri, r.hash, r.size, from);
    NotListed(s, r.uri);
    NewPlan(a, info);
    ReplanKeeps(a, info);
    PlanWaiting(a, info);
    SameWaiting(s, a);
    NothingSent();
    TickFlows(Replan(a, info), 0);
    TickWaiting(Replan(a, info), 0, {});
  }

  lemma NotListed(s: Sched, u: Text)
    requires Partitioned(s) && u !in s.res
    ensures u !in s.tasks
  {
  }

  lemma SameWaiting(s: Sched, a: Sched)
    requires a.tasks == s.tasks
    ensures WaitingSlots(a) == WaitingSlots(s)
  {
  }

  /** Announcing a new file puts two steps a block on the list of what is still to come. */
  lemma AnnouncedToDo(w: World, from: Addr, r: Resource, h: Hash)
    requires Partitioned(w.node.sched) && w.node.sched.out == [] && r.uri !in w.node.sched.res && PlanCount(r.size) > 0
    requires NeedToSync([r], Listing(w.node.files, h)) == [r]
    ensures ToDo(Next(w, Index(from, [r], {}), h)) == ToDo(w) + 2 * PlanCount(r.size)
  {
    hide Flush, AddResource, WaitingSlots, Partitioned, AllSent, Replies, PlanCount;
    var s := w.node.sched;
    assert AddAll(s, [r], 0, from, {}) == s;
    assert AddAll(s, [r], 1, from, {}) == AddResource(s, r.uri, r.hash, r.size, from, {});
    NewFileWaiting(s, r, from);
    FlushToDo(w, w.node.(sched := AddResource(s, r.uri, r.hash, r.size, from, {})));
  }
}
