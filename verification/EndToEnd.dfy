/** The end-to-end theorem: the delivery invariant holds along every run, and what it says about finished files. */
module EndToEnd {
  import opened Basics
  import opened BlockRange
  import opened NetAddr
  import Packet
  import opened Scheduler
  import opened Partition
  import opened Operations
  import opened FileStore
  import opened SyncDecision
  import opened Messages
  import opened Transfer
  import opened Accounts
  import opened Protocol
  import opened ResourceCodec
  import opened Delivery

  // ---------------------------------------------------------------- flushing what a step wrote

  lemma FlushSingle(s: Sched, issued: multiset<Key>, matched: multiset<Key>)
    requires Single(s, issued, matched)
    ensures Single(s.(out := []), issued + SentKeys(s.out), matched)
  {
    var r, total := s.(out := []), issued + SentKeys(s.out);
    NothingWritten();
    assert total + SentKeys([]) == total;
    forall k | matched[k] < total[k] ensures exists y :: r.Has(y) && SlotKey(r, y) == k && Active(r.At(y)) {
      var y :| s.Has(y) && SlotKey(s, y) == k && Active(s.At(y));
      assert r.Has(y) && SlotKey(r, y) == k && Active(r.At(y));
    }
    forall y | r.Has(y) && r.At(y).status == Pendding ensures total[SlotKey(r, y)] == 0 {
      assert s.Has(y) && SlotKey(s, y) == SlotKey(r, y) && s.At(y).status == Pendding;
    }
  }

  lemma FlushStore(s: Sched, files: map<Text, seq<byte>>, done: set<Text>, c: Contents, h: Hash)
    requires Store(s, files, done, c, h)
    ensures Store(s.(out := []), files, done, c, h)
  {
    var r := s.(out := []);
    forall x | r.Has(x) && r.At(x).status == Success ensures BlockRight(files, c, x.uri, r.At(x).block) {
      assert s.Has(x) && s.At(x).status == Success;
    }
    forall u | u in r.tasks ensures !IsSuccess(r, u) {
      assert !IsSuccess(s, u);
    }
  }

  lemma {:induction false} OutgoingHonest(out: seq<Sent>, c: Contents)
    ensures AllHonest(Outgoing(out), c)
  {
    if out != [] { OutgoingHonest(out[..|out| - 1], c); }
  }

  lemma FlushDelivers(w: World, n: Node, files0: map<Text, seq<byte>>, c: Contents, h: Hash)
    requires !w.failed && Sound(n.sched, n.files, w.done, c, h, w.net, w.issued, w.matched)
    requires Untouched(n.sched, n.files, files0) && AllHonest(w.net, c)
    ensures Delivering(Flush(w, n), files0, c, h)
  {
    FlushBooks(w, n);
    FlushSingle(n.sched, w.issued, w.matched);
    FlushStore(n.sched, n.files, w.done, c, h);
    OutgoingHonest(n.sched.out, c);
  }

  // ---------------------------------------------------------------- one step

  lemma IndexDelivers(w: World, from: Addr, table: seq<Resource>, dead: set<Addr>, files0: map<Text, seq<byte>>,
        c: Contents, h: Hash)
    requires Delivering(w, files0, c, h) && Plannable(c)
    requires forall k :: 0 <= k < |table| ==> TruthfulEntry(table[k], c, h)
    ensures Delivering(Flush(w, RecvIdx(w.node, from, table, h, dead)), files0, c, h)
  {
    var s, files := w.node.sched, w.node.files;
    var need := NeedToSync(table, Listing(files, h));
    forall i | 0 <= i < |need| ensures Fetchable(need[i], files, w.done, c, h) {
      NeededIsFetchable(table, need[i], s, files, w.done, c, h);
    }
    AddAllDelivers(s, need, |need|, from, dead, files, w.done, c, h, w.net, w.issued, w.matched);
    AddAllGrows(s, need, |need|, from, dead);
    FlushDelivers(w, RecvIdx(w.node, from, table, h, dead), files0, c, h);
  }

  lemma TimerDelivers(w: World, ms: uint64, dead: set<Addr>, files0: map<Text, seq<byte>>, c: Contents, h: Hash)
    requires Delivering(w, files0, c, h)
    ensures Delivering(Flush(w, w.node.(sched := Tick(w.node.sched, ms, dead))), files0, c, h)
  {
    var s := w.node.sched;
    TickBooks(s, ms, dead, w.net, w.issued, w.matched);
    TickSingle(s, ms, dead, w.issued, w.matched);
    TickStore(s, ms, dead, w.node.files, w.done, c, h);
    FlushDelivers(w, w.node.(sched := Tick(s, ms, dead)), files0, c, h);
  }

  /** A block under way lies inside the file it belongs to. */
  lemma OwedBlockInside(w: World, i: nat, files0: map<Text, seq<byte>>, c: Contents, h: Hash)
    requires Delivering(w, files0, c, h) && i < |w.net|
    ensures w.net[i].uri in c && w.net[i].block.end <= |c[w.net[i].uri]|
    ensures |c[w.net[i].uri]| > 0 ==> w.net[i].block.start < w.net[i].block.end
  {
    hide Progress, Finished, Untouched, AllHonest, Covered, ActiveOwed;
    var s, k := w.node.sched, KeyOf(w.net[i]);
    MessageIsOwed(s, w.net, i, w.issued, w.matched);
    var x :| s.Has(x) && SlotKey(s, x) == k && Active(s.At(x));
    assert TaskPlanned(s.At(x), x.uri, x.i, s.res[x.uri]);
    PlanBlockFacts(x.i, s.res[x.uri].size);
  }

  lemma AnswerHonest(w: World, i: nat, file: Option<seq<byte>>, files0: map<Text, seq<byte>>, c: Contents, h: Hash)
    requires Delivering(w, files0, c, h) && Plannable(c) && i < |w.net| && w.net[i].Request?
    requires file.Some? ==> w.net[i].uri in c && file.value == c[w.net[i].uri]
    ensures AllHonest(Without(w.net, i) + AnswerTo(w.net[i], file), c)
    ensures var a := AnswerTo(w.net[i], file); a == [] || (|a| == 1 && KeyOf(a[0]) == KeyOf(w.net[i]) && Small(a[0]))
  {
    hide Heard, AnswerTo, Single, Store;
    DeliveringSmall(w, i, files0, c, h);
    OneAnswer(w.net[i], file);
    OwedBlockInside(w, i, files0, c, h);
    AnswersHonest(AnswerTo(w.net[i], file), w.net[i], file, c);
  }

  lemma AnswersHonest(a: seq<Msg>, m: Msg, file: Option<seq<byte>>, c: Contents)
    requires GoodUri(m.uri) && m.uri in c && m.block.end <= |c[m.uri]| && (file.Some? ==> file.value == c[m.uri])
    requires forall r :: r in a ==> IsAnswer(r, m, file)
    ensures AllHonest(a, c) && forall j :: 0 <= j < |a| ==> KeyOf(a[j]) == KeyOf(m) && Small(a[j])
  {
    forall j | 0 <= j < |a| ensures Honest(a[j], c) && KeyOf(a[j]) == KeyOf(m) && Small(a[j]) {
      assert IsAnswer(a[j], m, file);
    }
  }

  lemma AnswerDelivers(w: World, i: nat, file: Option<seq<byte>>, files0: map<Text, seq<byte>>, c: Contents, h: Hash)
    requires Delivering(w, files0, c, h) && Plannable(c) && i < |w.net| && w.net[i].Request?
    requires file.Some? ==> w.net[i].uri in c && file.value == c[w.net[i].uri]
    ensures Delivering(w.(net := Without(w.net, i) + AnswerTo(w.net[i], file)), files0, c, h)
  {
    AnswerHonest(w, i, file, files0, c, h);
    AnswerBooks(w.node.sched, w.net, i, AnswerTo(w.net[i], file), w.issued, w.matched);
  }

  lemma DropDelivers(w: World, i: nat, files0: map<Text, seq<byte>>, c: Contents, h: Hash)
    requires Delivering(w, files0, c, h) && i < |w.net|
    ensures Delivering(w.(net := Without(w.net, i)), files0, c, h)
  {
    hide Single, Store, Untouched, Books;
    DropBooks(w.node.sched, w.net, i, w.issued, w.matched);
  }

  /** Writing to a file with a task list leaves files nobody announced alone, whatever becomes of the list. */
  lemma SavedUntouched(s: Sched, u: Text, b: Block, v: Verdict, off: nat, data: seq<byte>, counts: seq<nat>,
        dead: set<Addr>, files: map<Text, seq<byte>>, files0: map<Text, seq<byte>>)
    requires Partitioned(s) && u in s.tasks && AllAtMost(counts, |data|) && v in {Verified, Unfinished}
    requires Untouched(s, files, files0)
    ensures var q := Settle(Succeed(s, u, b), u, v);
      Partitioned(q) && Untouched(Tick(q, 0, dead), Saved(files, u, off, data, counts), files0)
  {
    hide Succeed, Tick, Written;
    SucceedKeeps(s, u, b);
    CancelKeeps(Succeed(s, u, b), u);
    TickKeeps(Settle(Succeed(s, u, b), u, v), 0, dead);
  }

  lemma DeliveringPartitioned(w: World, files0: map<Text, seq<byte>>, c: Contents, h: Hash)
    requires Delivering(w, files0, c, h)
    ensures Partitioned(w.node.sched)
  {
  }

  lemma ArriveDelivers(w: World, i: nat, counts: seq<nat>, dead: set<Addr>, files0: map<Text, seq<byte>>, c: Contents,
        h: Hash)
    requires Delivering(w, files0, c, h) && Plannable(c)
    requires i < |w.net| && w.net[i].Reply? && WriteCounts(counts, |w.net[i].data|) && OneFullWrite(counts, |w.net[i].data|)
    ensures AllAtMost(counts, |w.net[i].data|)
    ensures Delivering(Arrived(w.(net := Without(w.net, i)), w.net[i], counts, h, dead), files0, c, h)
  {
    hide Single, Books, Store, Untouched, Tick, Saved, Succeed, Judge, Partitioned;
    var m, s, rest := w.net[i], w.node.sched, Without(w.net, i);
    ReplyDelivers(w, i, counts, files0, c, h);
    DropDelivers(w, i, files0, c, h);
    var after := Saved(w.node.files, m.uri, m.block.start, m.data, counts);
    var t := Succeed(s, m.uri, m.block);
    var v := Judge(t, after, m.uri, h);
    var matched := w.matched + multiset{KeyOf(m)};
    var done := if v == Verified then w.done + {m.uri} else w.done;
    var q := Settle(t, m.uri, v);
    DeliveringPartitioned(w, files0, c, h);
    SavedUntouched(s, m.uri, m.block, v, m.block.start, m.data, counts, dead, w.node.files, files0);
    TickSingle(q, 0, dead, w.issued, matched);
    TickStore(q, 0, dead, after, done, c, h);
    SettledBooks(s, w.net, i, v, dead, w.issued, w.matched);
    FlushDelivers(w.(net := rest, matched := matched, done := done), Node(Tick(q, 0, dead), after), files0, c, h);
  }

  lemma TakenDelivers(w: World, i: nat, heard: Option<Msg>, disk: Option<seq<nat>>, dead: set<Addr>,
        files0: map<Text, seq<byte>>, c: Contents, h: Hash)
    requires Delivering(w, files0, c, h) && Plannable(c)
    requires i < |w.net| && w.net[i].Reply? && (disk.Some? ==> OneFullWrite(disk.value, |w.net[i].data|))
    requires heard.Some? ==> heard.value == w.net[i]
    ensures Delivering(Taken(w.(net := Without(w.net, i)), heard, disk, h, dead), files0, c, h)
  {
    if heard.None? || disk.None? || !WriteCounts(disk.value, |w.net[i].data|) {
      DropDelivers(w, i, files0, c, h);
    } else {
      ArriveDelivers(w, i, disk.value, dead, files0, c, h);
    }
  }

  lemma DeliveringSmall(w: World, i: nat, files0: map<Text, seq<byte>>, c: Contents, h: Hash)
    requires Delivering(w, files0, c, h) && Plannable(c) && i < |w.net|
    ensures Small(w.net[i]) && GoodUri(w.net[i].uri)
  {
    OwedBlockInside(w, i, files0, c, h);
    BooksPartitioned(w.node.sched, w.net, w.issued, w.matched);
  }

  lemma NextDelivers(w: World, step: Step, files0: map<Text, seq<byte>>, c: Contents, h: Hash)
    requires Delivering(w, files0, c, h) && Plannable(c) && Truthful(step, w, c, h)
    ensures Delivering(Next(w, step, h), files0, c, h)
  {
    hide Delivering, Taken, RecvIdx, Flush, Heard, AnswerTo;
    match step
    case Index(from, table, dead) => IndexDelivers(w, from, table, dead, files0, c, h);
    case Timer(ms, dead) => TimerDelivers(w, ms, dead, files0, c, h);
    case Answer(i, file) =>
      if i < |w.net| && w.net[i].Request? { AnswerDelivers(w, i, file, files0, c, h); }
    case Arrive(i, disk, dead) =>
      if i < |w.net| && w.net[i].Reply? {
        DeliveringSmall(w, i, files0, c, h);
        HeardOrLost(w.net[i]);
        TakenDelivers(w, i, Heard(w.net[i]), disk, dead, files0, c, h);
      }
    case Lose(i) =>
      if i < |w.net| { DropDelivers(w, i, files0, c, h); }
  }

  lemma {:induction false} RunDelivers(ws: seq<World>, steps: seq<Step>, n: nat, files0: map<Text, seq<byte>>,
        c: Contents, h: Hash)
    requires TruthfulRun(ws, steps, c, h) && Delivering(ws[0], files0, c, h) && Plannable(c) && n < |ws|
    ensures Delivering(ws[n], files0, c, h)
  {
    hide Delivering, Next, Truthful;
    if n > 0 {
      RunDelivers(ws, steps, n - 1, files0, c, h);
      assert Takes(ws[n - 1], steps[n - 1], ws[n], h);
      NextDelivers(ws[n - 1], steps[n - 1], files0, c, h);
    }
  }

  lemma StartDelivers(files: map<Text, seq<byte>>, c: Contents, h: Hash)
    ensures Delivering(Start(files), files, c, h)
  {
    NothingWritten();
    assert Single(EMPTY, multiset{}, multiset{});
  }

  /**
   Over every interleaving, reordering and loss: a block marked Success holds the owners' bytes; a file verified as
   complete is the owners' file; verification never fails; a list that is complete is cleaned up at once; and files
   that nobody announced keep their bytes.
   */
  lemma EndToEnd(files: map<Text, seq<byte>>, ws: seq<World>, steps: seq<Step>, n: nat, c: Contents, h: Hash)
    requires Plannable(c) && TruthfulRun(ws, steps, c, h) && ws[0] == Start(files) && n < |ws|
    ensures var w := ws[n];
      && !w.failed
      && (forall u :: u in w.done ==> u in w.node.files && u in c && w.node.files[u] == c[u])
      && (forall x :: w.node.sched.Has(x) && w.node.sched.At(x).status == Success ==>
            BlockRight(w.node.files, c, x.uri, w.node.sched.At(x).block))
      && (forall u :: u in w.node.sched.tasks ==> !IsSuccess(w.node.sched, u))
      && (forall u :: u in w.node.sched.res ==> u in w.node.sched.tasks || u in w.done)
      && (forall u :: u in files && u !in w.node.sched.res ==> u in w.node.files && w.node.files[u] == files[u])
  {
    hide TruthfulRun, Balanced, Single;
    StartDelivers(files, c, h);
    RunDelivers(ws, steps, n, files, c, h);
  }

  /** Under the same assumptions each block is asked for at most once, and its reply is matched at most once. */
  lemma AskedOnce(files: map<Text, seq<byte>>, ws: seq<World>, steps: seq<Step>, n: nat, c: Contents, h: Hash, k: Key)
    requires Plannable(c) && TruthfulRun(ws, steps, c, h) && ws[0] == Start(files) && n < |ws|
    ensures ws[n].matched[k] <= ws[n].issued[k] <= 1
  {
    StartDelivers(files, c, h);
    RunDelivers(ws, steps, n, files, c, h);
    OneRequestEach(ws[n], files, c, h, k);
  }

  lemma OneRequestEach(w: World, files0: map<Text, seq<byte>>, c: Contents, h: Hash, k: Key)
    requires Delivering(w, files0, c, h)
    ensures w.matched[k] <= w.issued[k] <= 1
  {
    hide Store;
    NothingWritten();
    assert w.issued + multiset{} == w.issued;
    assert KnownOnce(w.node.sched, w.issued);
    assert Covered([], w.net, w.issued, w.matched);
    CoveredSizes(w.net, w.issued, w.matched);
  }

  // ---------------------------------------------------------------- the index exchange

  /** Once a file is done, no truthful index makes the node ask for it again. */
  lemma DoneIsNotAskedAgain(files: map<Text, seq<byte>>, ws: seq<World>, steps: seq<Step>, n: nat, c: Contents,
        h: Hash, table: seq<Resource>)
    requires Plannable(c) && TruthfulRun(ws, steps, c, h) && ws[0] == Start(files) && n < |ws|
    requires forall k :: 0 <= k < |table| ==> TruthfulEntry(table[k], c, h)
    ensures forall r :: r in NeedToSync(table, Listing(ws[n].node.files, h)) ==> r.uri !in ws[n].done
  {
    StartDelivers(files, c, h);
    RunDelivers(ws, steps, n, files, c, h);
    var w := ws[n];
    forall r | r in NeedToSync(table, Listing(w.node.files, h)) ensures r.uri !in w.done {
      NeededIsFetchable(table, r, w.node.sched, w.node.files, w.done, c, h);
    }
  }

  const TYPE_REPLY_TABLE_INDEX: uint8 := 4

  /** `reqIdx`: the table as the payload of a packet. */
  function IndexPacket(table: seq<Resource>): Packet.Pkt {
    Packet.WithPayload(Packet.New(VER_0_1, TYPE_REPLY_TABLE_INDEX), Serialize(table))
  }

  /** The table lists files as they are, under whatever names and paths. */
  ghost predicate Lists(table: seq<Resource>, files: map<Text, seq<byte>>, h: Hash) {
    forall k :: 0 <= k < |table| ==>
      table[k].uri in files && table[k].size == |files[table[k].uri]| && table[k].hash == h(files[table[k].uri])
  }

  /**
   A peer whose files are all current sends an index that arrives unchanged, packet and table, with anything behind it
   in the buffer, and that is truthful.
   */
  lemma PeerIndexIsTruthful(table: seq<Resource>, files: map<Text, seq<byte>>, c: Contents, h: Hash, rest: seq<byte>)
    requires forall u :: u in files ==> u in c && files[u] == c[u] && |c[u]| < TWO64
    requires Lists(table, files, h) && AllShort(table) && |table| < TWO32
    requires Packet.LEN_HEADER + |Serialize(table)| < TWO32
    ensures var p := IndexPacket(table);
      && p.version == 1 && p.kind == 4
      && Packet.Roomy(p) && Packet.Decode(Packet.Encode(p) + rest) == Some(p)
      && Take(p.payload, 4294967295) == Some(table)
    ensures forall k :: 0 <= k < |table| ==> TruthfulEntry(table[k], c, h)
  {
    hide Take, Serialize, Packet.Encode, Packet.Decode;
    TableRoundTrip(table, LOOP_LIMIT);
    var p0 := Packet.New(VER_0_1, TYPE_REPLY_TABLE_INDEX);
    assert Packet.Roomy(p0);
    Packet.WithPayloadSized(p0, Serialize(table));
    Packet.PacketRoundTrip(IndexPacket(table), rest);
  }
}
