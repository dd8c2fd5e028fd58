/**
 A node and everything that can happen to it: announcements, timer ticks, peers that answer requests, replies that
 arrive in any order, and messages that are lost. The network is a bag: a step may pick any message in it.
 */
module Protocol {
  import opened Basics
  import opened BlockRange
  import opened NetAddr
  import opened Scheduler
  import opened Partition
  import opened Operations
  import opened FileStore
  import opened SyncDecision
  import Packet
  import opened Messages
  import opened Transfer
  import opened Accounts

  datatype World = World(
    node: Node,
    net: seq<Msg>,
    issued: multiset<Key>,   // requests written so far
    matched: multiset<Key>,  // replies that marked a block
    done: set<Text>,         // files verified and cleaned up
    failed: bool)            // whether a verification ever failed

  datatype Step =
    | Index(from: Addr, table: seq<Resource>, dead: set<Addr>)
    | Timer(ms: uint64, dead: set<Addr>)
    | Answer(i: nat, file: Option<seq<byte>>)                            // a peer serves request i from its file
    | Arrive(i: nat, disk: Option<seq<nat>>, dead: set<Addr>)            // reply i arrives; disk: open failed, or write sizes
    | Lose(i: nat)

  function Without(net: seq<Msg>, i: nat): seq<Msg>
    requires i < |net|
  {
    net[..i] + net[i + 1..]
  }

  /** Move the requests a step wrote onto the network and into the ledger. */
  function Flush(w: World, n: Node): World {
    w.(node := n.(sched := n.sched.(out := [])),
       net := w.net + Outgoing(n.sched.out),
       issued := w.issued + SentKeys(n.sched.out))
  }

  ghost function AnswerTo(m: Msg, file: Option<seq<byte>>): seq<Msg> {
    match Heard(m)
    case None => []
    case Some(q) => if q.Request? then Serve(q.uri, file, Range(q.block.start, q.block.end)) else []
  }

  /** Reply `m` as it was read off the wire: saved, marked, judged. */
  ghost function Arrived(w: World, m: Msg, counts: seq<nat>, h: Hash, dead: set<Addr>): World
    requires m.Reply? && AllAtMost(counts, |m.data|)
  {
    var v := Judge(Succeed(w.node.sched, m.uri, m.block), Saved(w.node.files, m.uri, m.block.start, m.data, counts), m.uri, h);
    Flush(w.(matched := MatchedAfter(w.node.sched, KeyOf(m), w.matched),
             done := if v == Verified then w.done + {m.uri} else w.done,
             failed := w.failed || v == Mismatch),
          RecvRs(w.node, m.uri, m.block, m.data, counts, h, dead))
  }

  /** A reply is dropped when it cannot be read as one or the file cannot be written. */
  ghost function Taken(w: World, heard: Option<Msg>, disk: Option<seq<nat>>, h: Hash, dead: set<Addr>): World
  {
    if heard.None? || heard.value.Request? || disk.None? || !WriteCounts(disk.value, |heard.value.data|) then w
    else
      WriteCountsBounded(disk.value, |heard.value.data|);
      Arrived(w, heard.value, disk.value, h, dead)
  }

  ghost function Next(w: World, step: Step, h: Hash): World {
    match step
    case Index(from, table, dead) => Flush(w, RecvIdx(w.node, from, table, h, dead))
    case Timer(ms, dead) => Flush(w, w.node.(sched := Tick(w.node.sched, ms, dead)))
    case Answer(i, file) =>
      if i >= |w.net| || !w.net[i].Request? then w
      else w.(net := Without(w.net, i) + AnswerTo(w.net[i], file))
    case Arrive(i, disk, dead) =>
      if i >= |w.net| || !w.net[i].Reply? then w
      else Taken(w.(net := Without(w.net, i)), Heard(w.net[i]), disk, h, dead)
    case Lose(i) => if i >= |w.net| then w else w.(net := Without(w.net, i))
  }

  /** A run: the worlds `ws` before and after each of `steps`. */
  ghost predicate IsRun(ws: seq<World>, steps: seq<Step>, h: Hash) {
    |ws| == |steps| + 1 && forall i :: 0 <= i < |steps| ==> Takes(ws[i], steps[i], ws[i + 1], h)
  }

  ghost predicate Takes(w: World, step: Step, next: World, h: Hash) {
    next == Next(w, step, h)
  }

  function Start(files: map<Text, seq<byte>>): World {
    World(Node(EMPTY, files), [], multiset{}, multiset{}, {}, false)
  }

  // ---------------------------------------------------------------- the books, step by step

  ghost predicate Balanced(w: World) {
    w.node.sched.out == [] && Books(w.node.sched, w.net, w.issued, w.matched)
  }

  lemma NothingWritten()
    ensures SentKeys([]) == multiset{} && Outgoing([]) == [] && Keys([]) == multiset{}
  {
  }

  lemma FlushCovered(out: seq<Sent>, net: seq<Msg>, issued: multiset<Key>, matched: multiset<Key>)
    requires Covered(out, net, issued, matched)
    ensures Covered([], net + Outgoing(out), issued + SentKeys(out), matched)
  {
    KeysAppend(net, Outgoing(out));
    NothingWritten();
  }

  lemma FlushOwed(s: Sched, issued: multiset<Key>, matched: multiset<Key>)
    requires ActiveOwed(s, issued + SentKeys(s.out), matched)
    ensures ActiveOwed(s.(out := []), issued + SentKeys(s.out), matched)
  {
    var r := s.(out := []);
    forall x | r.Has(x) && Active(r.At(x)) ensures matched[SlotKey(r, x)] < (issued + SentKeys(s.out))[SlotKey(r, x)] {
      assert s.Has(x) && SlotKey(s, x) == SlotKey(r, x);
    }
  }

  lemma FlushBooks(w: World, n: Node)
    requires Books(n.sched, w.net, w.issued, w.matched)
    ensures Balanced(Flush(w, n))
  {
    hide Partitioned, NoneStopped, Covered, ActiveOwed, SentKeys, Outgoing;
    var total := w.issued + SentKeys(n.sched.out);
    FlushCovered(n.sched.out, w.net, w.issued, w.matched);
    FlushOwed(n.sched, w.issued, w.matched);
    FlushShape(n.sched);
    NothingWritten();
    assert total + multiset{} == total;
  }

  lemma FlushShape(s: Sched)
    requires Partitioned(s) && NoneStopped(s)
    ensures Partitioned(s.(out := [])) && NoneStopped(s.(out := []))
  {
    var r := s.(out := []);
    forall x: Slot | r.Has(x) ensures r.At(x).status != Stop {
      assert s.Has(x) && s.At(x).status != Stop;
    }
  }

  lemma {:induction false} AddAllBooks(s: Sched, rs: seq<Resource>, k: nat, from: Addr, dead: set<Addr>,
                                       net: seq<Msg>, issued: multiset<Key>, matched: multiset<Key>)
    requires Books(s, net, issued, matched) && k <= |rs|
    ensures Books(AddAll(s, rs, k, from, dead), net, issued, matched)
  {
    hide Books, AddResource;
    if k > 0 {
      AddAllBooks(s, rs, k - 1, from, dead, net, issued, matched);
      var r := rs[k - 1];
      AddResourceBooks(AddAll(s, rs, k - 1, from, dead), r.uri, r.hash, r.size, from, dead, net, issued, matched);
    }
  }

  lemma DropBooks(s: Sched, net: seq<Msg>, i: nat, issued: multiset<Key>, matched: multiset<Key>)
    requires Books(s, net, issued, matched) && i < |net|
    ensures Books(s, Without(net, i), issued, matched)
  {
    KeysRemove(net, i);
  }

  /** A request draws at most one reply, for the very range it asked for, under the name its reader made of it. */
  lemma OneAnswer(m: Msg, file: Option<seq<byte>>)
    requires m.Request? && Small(m) && |m.uri| <= LONGEST_URI
    ensures AnswerTo(m, file) == match Heard(m)
                                 case None => []
                                 case Some(q) => ReplyFor(q.uri, file, m.block, m.block.end - m.block.start)
    ensures |AnswerTo(m, file)| <= 1
    ensures forall r :: r in AnswerTo(m, file) ==> IsAnswer(r, m, file)
  {
    hide Heard, Packet.ValueRead;
    HeardOrLost(m);
    if Heard(m).Some? {
      OneBatch(Heard(m).value.uri, file, m.block);
    }
  }

  ghost predicate IsAnswer(r: Msg, m: Msg, file: Option<seq<byte>>) {
    && r.Reply? && r.block == m.block && Small(r) && m.block.start < m.block.end && Packet.ValueRead(m.uri) == Some(r.uri)
    && file.Some? && r.data == ReadSlice(file.value, m.block.start, m.block.end - m.block.start)
  }

  lemma OneBatch(uri: Text, file: Option<seq<byte>>, b: Block)
    requires b.start <= b.end < TWO64 && b.end - b.start <= BLOCK_SIZE
    ensures Serve(uri, file, Range(b.start, b.end)) == ReplyFor(uri, file, b, b.end - b.start)
  {
  }

  lemma KeysWithout(net: seq<Msg>, i: nat)
    requires i < |net|
    ensures Keys(net) == Keys(Without(net, i)) + multiset{KeyOf(net[i])}
  {
    KeysRemove(net, i);
  }

  lemma KeysOne(m: Msg)
    ensures Keys([m]) == multiset{KeyOf(m)}
  {
    KeysStep([], m);
    assert [] + [m] == [m];
  }

  lemma AnswerCovered(out: seq<Sent>, net: seq<Msg>, i: nat, a: seq<Msg>, issued: multiset<Key>, matched: multiset<Key>)
    requires Covered(out, net, issued, matched) && i < |net|
    requires a == [] || (|a| == 1 && KeyOf(a[0]) == KeyOf(net[i]))
    ensures Covered(out, Without(net, i) + a, issued, matched)
  {
    hide Keys, Outgoing, SentKeys, Without, KeyOf;
    KeysWithout(net, i);
    KeysAppend(Without(net, i), a);
    NothingWritten();
    if a != [] {
      KeysOne(a[0]);
      assert a == [a[0]];
    }
  }

  lemma AnswerBooks(s: Sched, net: seq<Msg>, i: nat, a: seq<Msg>, issued: multiset<Key>, matched: multiset<Key>)
    requires Books(s, net, issued, matched) && i < |net|
    requires a == [] || (|a| == 1 && KeyOf(a[0]) == KeyOf(net[i]) && Small(a[0]))
    ensures Books(s, Without(net, i) + a, issued, matched)
  {
    AnswerCovered(s.out, net, i, a, issued, matched);
  }

  /** The ledger after a reply that was under way was marked, judged without a mismatch, and the closing tick. */
  lemma SettledBooks(s: Sched, net: seq<Msg>, i: nat, v: Verdict, dead: set<Addr>, issued: multiset<Key>,
        matched: multiset<Key>)
    requires Books(s, net, issued, matched) && i < |net| && v != Mismatch
    ensures var m := net[i];
      Books(Tick(Settle(Succeed(s, m.uri, m.block), m.uri, v), 0, dead), Without(net, i), issued,
            MatchedAfter(s, KeyOf(m), matched))
  {
    hide Tick, Succeed, MatchedAfter;
    var m, rest := net[i], Without(net, i);
    var t, after := Succeed(s, m.uri, m.block), MatchedAfter(s, KeyOf(m), matched);
    SucceedBooks(s, net, i, issued, matched);
    CancelBooks(t, m.uri, rest, issued, after);
    TickBooks(Settle(t, m.uri, v), 0, dead, rest, issued, after);
  }

  // ---------------------------------------------------------------- names

  /**
   No announced name is read as another announced name. Only then is a reply that names a file about a request for
   that file: a reply to "a:b" comes back as a reply for "a".
   */
  ghost predicate Unambiguous(names: set<Text>) {
    forall u :: u in names && Packet.ValueRead(u).Some? && Packet.ValueRead(u).value in names ==> Packet.ValueRead(u).value == u
  }

  ghost predicate FitNames(names: set<Text>) {
    forall u :: u in names ==> FitUri(u)
  }

  /** The messages about announced files; what remains are replies under a name nobody announced. */
  function Known(net: seq<Msg>, names: set<Text>): seq<Msg> {
    if net == [] then []
    else Known(net[..|net| - 1], names) + (if net[|net| - 1].uri in names then [net[|net| - 1]] else [])
  }

  lemma {:induction false} KnownAppend(a: seq<Msg>, b: seq<Msg>, names: set<Text>)
    ensures Known(a + b, names) == Known(a, names) + Known(b, names)
  {
    if b == [] {
      assert a + b == a;
    } else {
      assert (a + b)[..|a + b| - 1] == a + b[..|b| - 1];
      KnownAppend(a, b[..|b| - 1], names);
    }
  }

  lemma KnownOne(m: Msg, names: set<Text>)
    ensures Known([m], names) == if m.uri in names then [m] else []
  {
    assert [m][..0] == [];
  }

  /** Taking message `i` out of the network takes it, or nothing, out of the known messages. */
  lemma KnownWithout(net: seq<Msg>, i: nat, names: set<Text>) returns (j: nat)
    requires i < |net|
    ensures net[i].uri !in names ==> Known(Without(net, i), names) == Known(net, names)
    ensures net[i].uri in names ==>
      j < |Known(net, names)| && Known(net, names)[j] == net[i] && Known(Without(net, i), names) == Without(Known(net, names), j)
  {
    hide Known;
    var a, b := net[..i], net[i + 1..];
    j := |Known(a, names)|;
    SplitAt(net, i);
    KnownAppend(a + [net[i]], b, names);
    KnownAppend(a, [net[i]], names);
    KnownAppend(a, b, names);
    KnownOne(net[i], names);
    Splice(Known(a, names), net[i], Known(b, names));
  }

  lemma Splice<T>(a: seq<T>, m: T, b: seq<T>)
    ensures (a + [m] + b)[|a|] == m
    ensures (a + [m] + b)[..|a|] + (a + [m] + b)[|a| + 1..] == a + b
    ensures a + [] + b == a + b
  {
  }

  lemma {:induction false} AllKnown(ms: seq<Msg>, names: set<Text>)
    requires forall i :: 0 <= i < |ms| ==> ms[i].uri in names
    ensures Known(ms, names) == ms
  {
    if ms != [] {
      AllKnown(ms[..|ms| - 1], names);
      assert ms == ms[..|ms| - 1] + [ms[|ms| - 1]];
    }
  }

  ghost predicate Proper(m: Msg, names: set<Text>) {
    Small(m) && |m.uri| <= LONGEST_URI && if m.Request? then m.uri in names else Packet.Clean(m.uri)
  }

  /** The books balance over the known messages, and strays are no more than the requests that drew them. */
  ghost predicate Ledger(w: World, names: set<Text>) {
    && w.node.sched.out == [] && Books(w.node.sched, Known(w.net, names), w.issued, w.matched)
    && w.node.sched.res.Keys <= names
    && (forall i :: 0 <= i < |w.net| ==> Proper(w.net[i], names))
    && |w.net| + |w.matched| <= |w.issued|
  }

  lemma {:induction false} OutgoingFacts(out: seq<Sent>)
    ensures |Outgoing(out)| <= |out| == |SentKeys(out)|
    ensures forall m :: m in Outgoing(out) ==> m.Request? && exists e :: e in out && e.uri == m.uri
  {
    if out != [] { OutgoingFacts(out[..|out| - 1]); }
  }

  lemma OutgoingProper(s: Sched, names: set<Text>)
    requires OutKnown(s) && s.res.Keys <= names && FitNames(names) && AllSmall(Outgoing(s.out))
    ensures forall i :: 0 <= i < |Outgoing(s.out)| ==> Outgoing(s.out)[i].uri in names && Proper(Outgoing(s.out)[i], names)
  {
    OutgoingFacts(s.out);
    forall i | 0 <= i < |Outgoing(s.out)| ensures Outgoing(s.out)[i].uri in names && Proper(Outgoing(s.out)[i], names) {
      assert Outgoing(s.out)[i] in Outgoing(s.out);
    }
  }

  lemma FlushLedger(w: World, n: Node, names: set<Text>)
    requires FitNames(names) && n.sched.res.Keys <= names
    requires Books(n.sched, Known(w.net, names), w.issued, w.matched)
    requires forall i :: 0 <= i < |w.net| ==> Proper(w.net[i], names)
    requires |w.net| + |w.matched| <= |w.issued|
    ensures Ledger(Flush(w, n), names)
  {
    hide Known, Partitioned, NoneStopped, Covered, ActiveOwed;
    var q := w.(net := Known(w.net, names));
    FlushBooks(q, n);
    OutgoingProper(n.sched, names);
    OutgoingFacts(n.sched.out);
    AllKnown(Outgoing(n.sched.out), names);
    KnownAppend(w.net, Outgoing(n.sched.out), names);
    assert |w.issued + SentKeys(n.sched.out)| == |w.issued| + |SentKeys(n.sched.out)|;
  }

  // ---------------------------------------------------------------- the ledger, step by step

  /** Only these names are announced. */
  ghost predicate Announces(step: Step, names: set<Text>) {
    step.Index? ==> forall k :: 0 <= k < |step.table| ==> step.table[k].uri == [] || step.table[k].uri in names
  }

  lemma NeededNames(table: seq<Resource>, local: seq<Resource>, names: set<Text>)
    requires forall k :: 0 <= k < |table| ==> table[k].uri == [] || table[k].uri in names
    ensures forall i :: 0 <= i < |NeedToSync(table, local)| ==> NeedToSync(table, local)[i].uri in names
  {
    var need := NeedToSync(table, local);
    forall i | 0 <= i < |need| ensures need[i].uri in names {
      NeedToSyncExact(table, local, need[i]);
      LastForFacts(table, need[i].uri);
    }
  }

  lemma {:induction false} AddAllNames(s: Sched, rs: seq<Resource>, k: nat, from: Addr, dead: set<Addr>,
        names: set<Text>)
    requires Partitioned(s) && s.res.Keys <= names && k <= |rs| && forall i :: 0 <= i < |rs| ==> rs[i].uri in names
    ensures Partitioned(AddAll(s, rs, k, from, dead)) && AddAll(s, rs, k, from, dead).res.Keys <= names
  {
    hide AddResource, Partitioned;
    if k > 0 {
      AddAllNames(s, rs, k - 1, from, dead, names);
      AddResourceKeys(AddAll(s, rs, k - 1, from, dead), rs[k - 1].uri, rs[k - 1].hash, rs[k - 1].size, from, dead);
    }
  }

  lemma IndexLedger(w: World, from: Addr, table: seq<Resource>, h: Hash, dead: set<Addr>, names: set<Text>)
    requires Ledger(w, names) && FitNames(names) && Announces(Index(from, table, dead), names)
    ensures Ledger(Next(w, Index(from, table, dead), h), names)
  {
    hide Known, AddAll, Books;
    var s, local := w.node.sched, Listing(w.node.files, h);
    var need := NeedToSync(table, local);
    NeededNames(table, local, names);
    AddAllBooks(s, need, |need|, from, dead, Known(w.net, names), w.issued, w.matched);
    BooksPartitioned(s, Known(w.net, names), w.issued, w.matched);
    AddAllNames(s, need, |need|, from, dead, names);
    FlushLedger(w, RecvIdx(w.node, from, table, h, dead), names);
  }

  lemma BooksPartitioned(s: Sched, net: seq<Msg>, issued: multiset<Key>, matched: multiset<Key>)
    requires Books(s, net, issued, matched)
    ensures Partitioned(s) && AllSmall(net)
  {
  }

  lemma TimerLedger(w: World, ms: uint64, h: Hash, dead: set<Addr>, names: set<Text>)
    requires Ledger(w, names) && FitNames(names)
    ensures Ledger(Next(w, Timer(ms, dead), h), names)
  {
    hide Known, Tick, Books;
    var s := w.node.sched;
    TickBooks(s, ms, dead, Known(w.net, names), w.issued, w.matched);
    BooksPartitioned(s, Known(w.net, names), w.issued, w.matched);
    TickKeeps(s, ms, dead);
    FlushLedger(w, w.node.(sched := Tick(s, ms, dead)), names);
  }

  lemma WithoutProper(net: seq<Msg>, i: nat, names: set<Text>)
    requires i < |net| && forall k :: 0 <= k < |net| ==> Proper(net[k], names)
    ensures |Without(net, i)| == |net| - 1
    ensures forall k :: 0 <= k < |net| - 1 ==> Proper(Without(net, i)[k], names)
  {
  }

  lemma DropLedger(w: World, i: nat, names: set<Text>)
    requires Ledger(w, names) && i < |w.net|
    ensures Ledger(w.(net := Without(w.net, i)), names)
  {
    hide Known, Books, Proper, Without;
    WithoutProper(w.net, i, names);
    var j := KnownWithout(w.net, i, names);
    if w.net[i].uri in names {
      DropBooks(w.node.sched, Known(w.net, names), j, w.issued, w.matched);
    }
  }

  /** The books over the known messages when request `i` is taken and `a` is put in. */
  lemma AnswerKnown(s: Sched, net: seq<Msg>, i: nat, a: seq<Msg>, names: set<Text>, issued: multiset<Key>,
        matched: multiset<Key>)
    requires Books(s, Known(net, names), issued, matched) && i < |net| && net[i].uri in names
    requires a == [] || (|a| == 1 && a[0].block == net[i].block && Small(a[0]))
    requires a != [] && a[0].uri in names ==> a[0].uri == net[i].uri
    ensures Books(s, Known(Without(net, i) + a, names), issued, matched)
  {
    hide Known, Books, Without, Small;
    var j := KnownWithout(net, i, names);
    KnownAppend(Without(net, i), a, names);
    if a == [] {
      assert Without(net, i) + a == Without(net, i);
      DropBooks(s, Known(net, names), j, issued, matched);
    } else {
      assert a == [a[0]];
      KnownOne(a[0], names);
      if a[0].uri in names {
        AnswerBooks(s, Known(net, names), j, a, issued, matched);
      } else {
        DropBooks(s, Known(net, names), j, issued, matched);
        assert Known(Without(net, i), names) + [] == Known(Without(net, i), names);
      }
    }
  }

  lemma AnswerProper(m: Msg, a: seq<Msg>, file: Option<seq<byte>>, names: set<Text>)
    requires m.Request? && Proper(m, names) && Unambiguous(names) && a == AnswerTo(m, file)
    ensures a == [] || (|a| == 1 && a[0].block == m.block && Proper(a[0], names))
    ensures a != [] && a[0].uri in names ==> a[0].uri == m.uri
  {
    hide AnswerTo, Packet.ValueRead, Small, Heard;
    OneAnswer(m, file);
    if a != [] {
      assert a[0] in a && IsAnswer(a[0], m, file);
      ShorterName(m.uri, a[0].uri);
    }
  }

  lemma AnswerLedger(w: World, i: nat, file: Option<seq<byte>>, names: set<Text>)
    requires Ledger(w, names) && Unambiguous(names) && i < |w.net| && w.net[i].Request?
    ensures Ledger(w.(net := Without(w.net, i) + AnswerTo(w.net[i], file)), names)
  {
    hide Known, Books, Without, AnswerTo, Small;
    var a := AnswerTo(w.net[i], file);
    WithoutProper(w.net, i, names);
    AnswerProper(w.net[i], a, file, names);
    AnswerKnown(w.node.sched, w.net, i, a, names, w.issued, w.matched);
  }

  lemma ShorterName(u: Text, v: Text)
    requires Packet.ValueRead(u) == Some(v)
    ensures |v| <= |u| && Packet.Clean(v)
  {
  }

  /** A reply under way is read as it was sent. */
  lemma ReplyHeard(m: Msg, names: set<Text>)
    requires m.Reply? && Proper(m, names)
    ensures Heard(m).Some? ==> Heard(m).value == m
  {
    hide Heard;
    HeardOrLost(m);
    if m.uri == [] { assert Packet.ValueRead(m.uri) == None; }
  }

  lemma ArrivedLedger(w: World, i: nat, counts: seq<nat>, h: Hash, dead: set<Addr>, names: set<Text>)
    requires Ledger(w, names) && FitNames(names) && i < |w.net| && w.net[i].Reply? && AllAtMost(counts, |w.net[i].data|)
    ensures var r := Arrived(w.(net := Without(w.net, i)), w.net[i], counts, h, dead); !r.failed ==> Ledger(r, names)
  {
    hide Known, Books, Without, Tick, Succeed, Judge, Proper, Saved, Partitioned;
    var s, m, rest := w.node.sched, w.net[i], Without(w.net, i);
    var r := Arrived(w.(net := rest), m, counts, h, dead);
    if !r.failed {
      var files := Saved(w.node.files, m.uri, m.block.start, m.data, counts);
      var v := Judge(Succeed(s, m.uri, m.block), files, m.uri, h);
      var n := RecvRs(w.node, m.uri, m.block, m.data, counts, h, dead);
      WithoutProper(w.net, i, names);
      var j := KnownWithout(w.net, i, names);
      BooksPartitioned(s, Known(w.net, names), w.issued, w.matched);
      SettledKeys(s, m.uri, m.block, v, dead);
      if m.uri in names {
        SettledBooks(s, Known(w.net, names), j, v, dead, w.issued, w.matched);
      } else {
        StrayChangesNothing(s, m, files, h);
        TickBooks(s, 0, dead, Known(w.net, names), w.issued, w.matched);
      }
      FlushLedger(w.(net := rest, matched := r.matched, done := r.done, failed := r.failed), n, names);
    }
  }

  lemma SettledKeys(s: Sched, u: Text, b: Block, v: Verdict, dead: set<Addr>)
    requires Partitioned(s) && v != Mismatch
    ensures Tick(Settle(Succeed(s, u, b), u, v), 0, dead).res == s.res
  {
    hide Tick, Succeed;
    SucceedKeeps(s, u, b);
    CancelKeeps(Succeed(s, u, b), u);
    TickKeeps(Settle(Succeed(s, u, b), u, v), 0, dead);
  }

  /** A reply for a file nobody announced finds no list. */
  lemma StrayChangesNothing(s: Sched, m: Msg, files: map<Text, seq<byte>>, h: Hash)
    requires Partitioned(s) && m.uri !in s.res
    ensures var t := Succeed(s, m.uri, m.block);
      t == s && Judge(t, files, m.uri, h) == Unfinished && forall matched :: MatchedAfter(s, KeyOf(m), matched) == matched
  {
  }

  lemma TakenLedger(w: World, i: nat, heard: Option<Msg>, disk: Option<seq<nat>>, h: Hash, dead: set<Addr>,
        names: set<Text>)
    requires Ledger(w, names) && FitNames(names) && i < |w.net| && w.net[i].Reply? && (heard.Some? ==> heard.value == w.net[i])
    ensures var r := Taken(w.(net := Without(w.net, i)), heard, disk, h, dead); !r.failed ==> Ledger(r, names)
  {
    hide Ledger, Arrived;
    DropLedger(w, i, names);
    if heard.Some? && disk.Some? && WriteCounts(disk.value, |w.net[i].data|) {
      WriteCountsBounded(disk.value, |w.net[i].data|);
      ArrivedLedger(w, i, disk.value, h, dead, names);
    }
  }

  lemma NextLedger(w: World, step: Step, h: Hash, names: set<Text>)
    requires Ledger(w, names) && FitNames(names) && Unambiguous(names) && Announces(step, names)
    ensures var r := Next(w, step, h); !r.failed ==> Ledger(r, names)
  {
    hide Heard, Taken, AnswerTo, RecvIdx, Known, Books, Tick, Flush;
    match step
    case Index(from, table, dead) => IndexLedger(w, from, table, h, dead, names);
    case Timer(ms, dead) => TimerLedger(w, ms, h, dead, names);
    case Answer(i, file) =>
      if i < |w.net| && w.net[i].Request? { AnswerLedger(w, i, file, names); }
    case Arrive(i, disk, dead) =>
      if i < |w.net| && w.net[i].Reply? {
        ReplyHeard(w.net[i], names);
        TakenLedger(w, i, Heard(w.net[i]), disk, h, dead, names);
      }
    case Lose(i) =>
      if i < |w.net| { DropLedger(w, i, names); }
  }

  lemma FailureSticks(w: World, step: Step, h: Hash)
    ensures w.failed ==> Next(w, step, h).failed
  {
  }

  lemma {:induction false} RunLedger(ws: seq<World>, steps: seq<Step>, h: Hash, names: set<Text>, n: nat)
    requires IsRun(ws, steps, h) && Ledger(ws[0], names) && n < |ws|
    requires FitNames(names) && Unambiguous(names) && forall k :: 0 <= k < |steps| ==> Announces(steps[k], names)
    ensures !ws[n].failed ==> Ledger(ws[n], names)
  {
    hide Ledger, Next, Announces, Unambiguous, FitNames;
    if n > 0 {
      RunLedger(ws, steps, h, names, n - 1);
      assert Takes(ws[n - 1], steps[n - 1], ws[n], h);
      FailureSticks(ws[n - 1], steps[n - 1], h);
      if !ws[n - 1].failed {
        NextLedger(ws[n - 1], steps[n - 1], h, names);
      }
    }
  }

  // ---------------------------------------------------------------- slot accounting

  /** The blocks in flight or given up. */
  ghost function ActiveSlots(s: Sched): set<Slot> {
    set u, i | u in s.tasks && 0 <= i < |s.tasks[u]| && Active(s.tasks[u][i]) :: Slot(u, i)
  }

  /** Slots have keys of their own, so they are no more than the keys they need. */
  lemma {:induction false} SlotsBelow(s: Sched, xs: set<Slot>, m: multiset<Key>)
    requires Partitioned(s) && forall x :: x in xs ==> s.Has(x) && SlotKey(s, x) in m
    ensures |xs| <= |m|
  {
    hide Partitioned;
    if xs != {} {
      var x :| x in xs;
      var k := SlotKey(s, x);
      forall y | y in xs - {x} ensures s.Has(y) && SlotKey(s, y) in m - multiset{k} {
        if SlotKey(s, y) == k { SlotKeysDistinct(s, x, y); }
      }
      SlotsBelow(s, xs - {x}, m - multiset{k});
    }
  }

  lemma ActiveSlotsOwed(s: Sched, total: multiset<Key>, matched: multiset<Key>)
    requires Partitioned(s) && ActiveOwed(s, total, matched)
    ensures |ActiveSlots(s)| <= |total - matched|
  {
    hide Partitioned;
    forall x | x in ActiveSlots(s) ensures s.Has(x) && SlotKey(s, x) in total - matched {
    }
    SlotsBelow(s, ActiveSlots(s), total - matched);
  }

  lemma CoveredSizes(net: seq<Msg>, issued: multiset<Key>, matched: multiset<Key>)
    requires Covered([], net, issued, matched)
    ensures matched <= issued && |issued| == |issued - matched| + |matched|
  {
    NothingWritten();
    assert Keys(net) + multiset{} == Keys(net) && issued + multiset{} == issued;
    assert issued == (issued - matched) + matched;
  }

  /** The accounts: requests written less replies matched is the counter, which bounds blocks and messages under way. */
  ghost predicate Accounted(w: World) {
    && w.matched <= w.issued
    && |w.issued| == |w.matched| + w.node.sched.downloads
    && |ActiveSlots(w.node.sched)| <= w.node.sched.downloads <= 5
    && |w.net| <= w.node.sched.downloads
  }

  lemma StartLedger(files: map<Text, seq<byte>>, names: set<Text>)
    ensures Ledger(Start(files), names)
  {
  }

  lemma LedgerAccounted(w: World, names: set<Text>)
    requires Ledger(w, names)
    ensures Accounted(w)
  {
    BooksBounds(w.node.sched, Known(w.net, names), w.issued, w.matched);
  }

  lemma BooksBounds(s: Sched, net: seq<Msg>, issued: multiset<Key>, matched: multiset<Key>)
    requires s.out == [] && Books(s, net, issued, matched)
    ensures matched <= issued && |issued| == |matched| + s.downloads
    ensures |ActiveSlots(s)| <= s.downloads <= DOWNLOAD_LIMIT
  {
    NothingWritten();
    assert issued + multiset{} == issued;
    CoveredSizes(net, issued, matched);
    ActiveSlotsOwed(s, issued, matched);
  }

  /** A run from nothing, over which these names and no others are announced and no verification fails. */
  ghost predicate RunsClean(ws: seq<World>, steps: seq<Step>, h: Hash, names: set<Text>) {
    && IsRun(ws, steps, h) && (exists files :: ws[0] == Start(files))
    && (forall k :: 0 <= k < |steps| ==> Announces(steps[k], names))
    && !ws[|steps|].failed
  }

  /**
   Slot accounting, over every run in which no verification failed, with announcements of any sizes and any
   interleaving, provided no announced name is read as another one: the counter is the number of requests written
   minus the number of replies matched, it never leaves [0, 5], and it covers every block in flight or given up.
   */
  lemma SlotAccounting(ws: seq<World>, steps: seq<Step>, h: Hash, names: set<Text>)
    requires RunsClean(ws, steps, h, names) && FitNames(names) && Unambiguous(names)
    ensures Accounted(ws[|steps|])
  {
    hide Ledger, Unambiguous, FitNames, Accounted, Announces;
    var files :| ws[0] == Start(files);
    StartLedger(files, names);
    RunLedger(ws, steps, h, names, |steps|);
    LedgerAccounted(ws[|steps|], names);
  }
}
