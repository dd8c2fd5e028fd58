/**
 The books of a download: which requests were written, which replies were matched, and how the slot counter
 relates the two. Proved for every scheduler operation.
 */
module Accounts {
  import opened Basics
  import opened BlockRange
  import opened NetAddr
  import opened Scheduler
  import opened Partition
  import opened Operations
  import opened Messages

  datatype Key = Key(uri: Text, block: Block)

  function KeyOf(m: Msg): Key {
    Key(m.uri, m.block)
  }

  function Keys(ms: seq<Msg>): multiset<Key> {
    if ms == [] then multiset{} else Keys(ms[..|ms| - 1]) + multiset{KeyOf(ms[|ms| - 1])}
  }

  lemma KeysStep(ms: seq<Msg>, m: Msg)
    ensures Keys(ms + [m]) == Keys(ms) + multiset{KeyOf(m)}
  {
    assert (ms + [m])[..|ms + [m]| - 1] == ms;
  }

  lemma SplitLast<T>(a: seq<T>, b: seq<T>)
    requires b != []
    ensures a + b == a + b[..|b| - 1] + [b[|b| - 1]]
  {
  }

  lemma SplitAt<T>(s: seq<T>, i: nat)
    requires i < |s|
    ensures s == s[..i] + [s[i]] + s[i + 1..]
  {
  }

  lemma {:induction false} KeysAppend(a: seq<Msg>, b: seq<Msg>)
    ensures Keys(a + b) == Keys(a) + Keys(b)
  {
    if b == [] {
      assert a + b == a;
    } else {
      var init, last := b[..|b| - 1], b[|b| - 1];
      KeysAppend(a, init);
      KeysStep(a + init, last);
      SplitLast(a, b);
    }
  }

  lemma {:induction false} KeysSize(ms: seq<Msg>)
    ensures |Keys(ms)| == |ms|
  {
    if ms != [] { KeysSize(ms[..|ms| - 1]); }
  }

  /** Taking message `i` out of the network takes out its key. */
  lemma KeysRemove(ms: seq<Msg>, i: nat)
    requires i < |ms|
    ensures Keys(ms) == Keys(ms[..i] + ms[i + 1..]) + multiset{KeyOf(ms[i])}
  {
    var a, m, b := ms[..i], ms[i], ms[i + 1..];
    KeysAppend(a, b);
    KeysStep(a, m);
    KeysAppend(a + [m], b);
    SplitAt(ms, i);
  }

  /** Keys of all requests written, delivered or not. */
  function SentKeys(out: seq<Sent>): multiset<Key> {
    if out == [] then multiset{}
    else SentKeys(out[..|out| - 1]) + multiset{Key(out[|out| - 1].uri, out[|out| - 1].block)}
  }

  /** The requests that made it onto a connection. */
  function Outgoing(out: seq<Sent>): seq<Msg> {
    if out == [] then []
    else
      var e := out[|out| - 1];
      Outgoing(out[..|out| - 1]) + (if e.ok then [Request(e.to, e.uri, e.block)] else [])
  }

  ghost predicate Active(t: Task) {
    t.status in {Syning, Failed}
  }

  ghost function SlotKey(s: Sched, x: Slot): Key
    requires s.Has(x)
  {
    Key(x.uri, s.At(x).block)
  }

  /** Every message under way, and every reply matched, answers for a request of its own. */
  ghost predicate Covered(out: seq<Sent>, net: seq<Msg>, issued: multiset<Key>, matched: multiset<Key>) {
    Keys(net) + Keys(Outgoing(out)) + matched <= issued + SentKeys(out)
  }

  /** Every block in flight or given up has an unmatched request. */
  ghost predicate ActiveOwed(s: Sched, total: multiset<Key>, matched: multiset<Key>) {
    forall x :: s.Has(x) && Active(s.At(x)) ==> matched[SlotKey(s, x)] < total[SlotKey(s, x)]
  }

  /** A message about at most one block, as every request and every reply to one is. */
  ghost predicate Small(m: Msg) {
    && m.block.start <= m.block.end && m.block.end - m.block.start <= BLOCK_SIZE
    && (m.Reply? ==> |m.data| == m.block.end - m.block.start)
  }

  ghost predicate AllSmall(ms: seq<Msg>) {
    forall i :: 0 <= i < |ms| ==> Small(ms[i])
  }

  /** Only known files are asked for. */
  ghost predicate OutKnown(s: Sched) {
    forall e :: e in s.out ==> e.uri in s.res
  }

  /**
   The ledger: `issued` are the keys of requests written before this operation, `s.out` those written during it,
   `matched` the keys of replies that marked a block, `net` the messages under way.
   */
  ghost predicate Books(s: Sched, net: seq<Msg>, issued: multiset<Key>, matched: multiset<Key>) {
    && Partitioned(s) && NoneStopped(s) && OutKnown(s)
    && |issued + SentKeys(s.out)| == |matched| + s.downloads
    && s.downloads <= DOWNLOAD_LIMIT
    && Covered(s.out, net, issued, matched)
    && AllSmall(net) && AllSmall(Outgoing(s.out))
    && ActiveOwed(s, issued + SentKeys(s.out), matched)
  }

  /** An unmatched request belongs to a block in flight or given up. */
  ghost predicate OwedActive(s: Sched, total: multiset<Key>, matched: multiset<Key>) {
    forall k :: matched[k] < total[k] ==> exists x :: s.Has(x) && SlotKey(s, x) == k && Active(s.At(x))
  }

  /** A waiting block has never been asked for. */
  ghost predicate WaitingUnsent(s: Sched, total: multiset<Key>) {
    forall x :: s.Has(x) && s.At(x).status == Pendding ==> total[SlotKey(s, x)] == 0
  }

  ghost predicate KnownOnce(s: Sched, total: multiset<Key>) {
    forall k :: total[k] <= 1 && (total[k] > 0 ==> k.uri in s.res)
  }

  /** With one version per file, each block is asked for at most once. */
  ghost predicate Single(s: Sched, issued: multiset<Key>, matched: multiset<Key>) {
    var total := issued + SentKeys(s.out);
    KnownOnce(s, total) && OwedActive(s, total, matched) && WaitingUnsent(s, total)
  }

  lemma SlotKeysDistinct(s: Sched, x: Slot, y: Slot)
    requires Partitioned(s) && s.Has(x) && s.Has(y) && SlotKey(s, x) == SlotKey(s, y)
    ensures x == y
  {
  }

  // ---------------------------------------------------------------- one visit of the tick loop

  lemma OutStep(out: seq<Sent>, e: Sent)
    ensures SentKeys(out + [e]) == SentKeys(out) + multiset{Key(e.uri, e.block)}
    ensures Keys(Outgoing(out + [e])) == Keys(Outgoing(out)) + (if e.ok then multiset{Key(e.uri, e.block)} else multiset{})
  {
    assert (out + [e])[..|out + [e]| - 1] == out;
    if e.ok {
      KeysStep(Outgoing(out), Request(e.to, e.uri, e.block));
    } else {
      assert Outgoing(out) + [] == Outgoing(out);
    }
  }

  /** Slots keep their blocks, and which of them are waiting, active or done changes only where stated. */
  ghost predicate SameKeys(s: Sched, r: Sched) {
    SameShape(s, r) && forall x :: s.Has(x) ==> r.Has(x) && r.At(x).block == s.At(x).block
  }

  lemma PartitionedFixesBlocks(s: Sched, r: Sched)
    requires Partitioned(s) && Partitioned(r) && SameShape(s, r)
    ensures SameKeys(s, r)
  {
  }

  lemma CoveredStep(out: seq<Sent>, e: Sent, net: seq<Msg>, issued: multiset<Key>, matched: multiset<Key>)
    requires Covered(out, net, issued, matched)
    ensures Covered(out + [e], net, issued, matched)
    ensures issued + SentKeys(out + [e]) == issued + SentKeys(out) + multiset{Key(e.uri, e.block)}
  {
    OutStep(out, e);
  }

  lemma VisitOwed(s: Sched, x: Slot, ms: uint64, dead: set<Addr>, total: multiset<Key>, matched: multiset<Key>)
    requires Partitioned(s) && s.Has(x) && ActiveOwed(s, total, matched) && matched <= total
    ensures var r := TickSlot(s, x, ms, dead);
      ActiveOwed(r, if r.out == s.out then total else total + multiset{SlotKey(s, x)}, matched)
  {
    var r := TickSlot(s, x, ms, dead);
    VisitIsLocal(s, x, ms, dead);
    PartitionedFixesBlocks(s, r);
    var after := if r.out == s.out then total else total + multiset{SlotKey(s, x)};
    forall y | r.Has(y) && Active(r.At(y)) ensures matched[SlotKey(r, y)] < after[SlotKey(r, y)] {
      assert s.Has(y) && SlotKey(s, y) == SlotKey(r, y);
      if y == x && s.At(x).status == Pendding {
        assert matched[SlotKey(s, x)] <= total[SlotKey(s, x)];
      } else {
        assert Active(s.At(y));
      }
    }
  }

  lemma VisitBooks(s: Sched, x: Slot, ms: uint64, dead: set<Addr>, net: seq<Msg>, issued: multiset<Key>,
        matched: multiset<Key>)
    requires Books(s, net, issued, matched) && s.Has(x)
    ensures Books(TickSlot(s, x, ms, dead), net, issued, matched)
  {
    var r := TickSlot(s, x, ms, dead);
    VisitIsLocal(s, x, ms, dead);
    VisitNoneStopped(s, x, ms, dead);
    CoveredMatched(s.out, net, issued, matched);
    VisitOwed(s, x, ms, dead, issued + SentKeys(s.out), matched);
    if r.out != s.out {
      CoveredStep(s.out, Sent(s.At(x).ctx, x.uri, s.At(x).block, s.At(x).ctx !in dead), net, issued, matched);
      VisitSmall(s, x, s.At(x).ctx, s.At(x).ctx !in dead);
    }
  }

  lemma VisitSmall(s: Sched, x: Slot, to: Addr, ok: bool)
    requires Partitioned(s) && s.Has(x) && AllSmall(Outgoing(s.out))
    ensures AllSmall(Outgoing(s.out + [Sent(to, x.uri, s.At(x).block, ok)]))
  {
    hide Outgoing;
    assert TaskPlanned(s.At(x), x.uri, x.i, s.res[x.uri]);
    PlanBlockFacts(x.i, s.res[x.uri].size);
    OutgoingStep(s.out, Sent(to, x.uri, s.At(x).block, ok));
  }

  lemma OutgoingStep(out: seq<Sent>, e: Sent)
    ensures Outgoing(out + [e]) == Outgoing(out) + (if e.ok then [Request(e.to, e.uri, e.block)] else [])
  {
    assert (out + [e])[..|out + [e]| - 1] == out;
  }

  lemma CoveredMatched(out: seq<Sent>, net: seq<Msg>, issued: multiset<Key>, matched: multiset<Key>)
    requires Covered(out, net, issued, matched)
    ensures matched <= issued + SentKeys(out)
  {
  }

  lemma VisitNoneStopped(s: Sched, x: Slot, ms: uint64, dead: set<Addr>)
    requires Partitioned(s) && NoneStopped(s) && s.Has(x)
    ensures NoneStopped(TickSlot(s, x, ms, dead))
  {
    var r := TickSlot(s, x, ms, dead);
    VisitIsLocal(s, x, ms, dead);
    forall y: Slot | r.Has(y) ensures r.At(y).status != Stop {
      assert s.Has(y) && s.At(y).status != Stop;
    }
  }

  ghost predicate AllIn(xs: seq<Slot>, s: Sched) {
    forall x :: x in xs ==> s.Has(x)
  }

  lemma {:induction false} VisitsBooks(s: Sched, xs: seq<Slot>, ms: uint64, dead: set<Addr>, net: seq<Msg>,
        issued: multiset<Key>, matched: multiset<Key>)
    requires Books(s, net, issued, matched) && AllIn(xs, s)
    ensures Books(TickSlots(s, xs, ms, dead), net, issued, matched)
  {
    if xs != [] {
      var init, x := xs[..|xs| - 1], xs[|xs| - 1];
      VisitsBooks(s, init, ms, dead, net, issued, matched);
      TicksKeep(s, init, ms, dead);
      assert s.Has(x) && TickSlots(s, init, ms, dead).Has(x);
      VisitBooks(TickSlots(s, init, ms, dead), x, ms, dead, net, issued, matched);
    }
  }

  lemma TickBooks(s: Sched, ms: uint64, dead: set<Addr>, net: seq<Msg>, issued: multiset<Key>, matched: multiset<Key>)
    requires Books(s, net, issued, matched)
    ensures Books(Tick(s, ms, dead), net, issued, matched)
  {
    AllSlotsOnce(s.tasks);
    VisitsBooks(s, AllSlots(s.tasks), ms, dead, net, issued, matched);
  }

  // ---------------------------------------------------------------- announcements

  lemma AnnounceSlots(s: Sched, uri: Text, hash: Text, size: nat, from: Addr)
    requires Partitioned(s)
    ensures var a := Announce(s, uri, hash, size, from);
      a.Some? ==>
        && Partitioned(a.value) && a.value.out == s.out && a.value.downloads == s.downloads
        && (forall x :: a.value.Has(x) ==> s.Has(x) && a.value.At(x) == s.At(x))
  {
    AnnounceKeeps(s, uri, hash, size, from);
  }

  lemma AnnounceBooks(s: Sched, uri: Text, hash: Text, size: nat, from: Addr, net: seq<Msg>, issued: multiset<Key>,
        matched: multiset<Key>)
    requires Books(s, net, issued, matched)
    ensures var a := Announce(s, uri, hash, size, from); a.Some? ==> Books(a.value, net, issued, matched)
  {
    AnnounceSlots(s, uri, hash, size, from);
    var a := Announce(s, uri, hash, size, from);
    if a.Some? {
      SubSlotsBooks(s, a.value, net, issued, matched);
    }
  }

  /** Dropping slots, or keeping them as they are, keeps the books. */
  lemma SubSlotsBooks(s: Sched, r: Sched, net: seq<Msg>, issued: multiset<Key>, matched: multiset<Key>)
    requires Books(s, net, issued, matched) && Partitioned(r) && s.res.Keys <= r.res.Keys && r.out == s.out && r.downloads == s.downloads
    requires forall x :: r.Has(x) ==> s.Has(x) && r.At(x) == s.At(x)
    ensures Books(r, net, issued, matched)
  {
  }

  lemma OtherLists(s: Sched, r: Sched, u: Text)
    requires r.tasks - {u} == s.tasks - {u}
    ensures forall v :: v != u ==> (v in s.tasks <==> v in r.tasks)
    ensures forall v :: v != u && v in s.tasks ==> r.tasks[v] == s.tasks[v]
  {
    forall v | v != u ensures v in s.tasks <==> v in r.tasks {
      assert v in s.tasks - {u} <==> v in r.tasks - {u};
    }
    forall v | v != u && v in s.tasks ensures r.tasks[v] == s.tasks[v] {
      assert r.tasks[v] == (r.tasks - {u})[v] == (s.tasks - {u})[v];
    }
  }

  lemma RejoinedSlots(s: Sched, info: ResourceInfo)
    requires Partitioned(s) && NoneStopped(s) && info.owners != [] && info.uri in s.res && s.res[info.uri] == info
    ensures forall x :: s.Has(x) ==>
      var r := Replan(s, info); r.Has(x) && r.At(x).status == s.At(x).status && r.At(x).block == s.At(x).block
  {
    var r := Replan(s, info);
    ReplanShape(s, info);
    OtherLists(s, r, info.uri);
    forall x: Slot | s.Has(x) ensures r.Has(x) && r.At(x).status == s.At(x).status && r.At(x).block == s.At(x).block {
      assert s.At(x).status != Stop;
    }
  }

  /** Planning again moves blocks to other owners and appends waiting blocks; it changes no account. */
  lemma ReplanSlots(s: Sched, info: ResourceInfo)
    requires Partitioned(s) && NoneStopped(s) && info.owners != [] && info.uri in s.res && s.res[info.uri] == info
    ensures var r := Replan(s, info);
      && Partitioned(r) && r.res == s.res && r.out == s.out && r.downloads == s.downloads
      && (forall x :: s.Has(x) ==> r.Has(x) && r.At(x).status == s.At(x).status && r.At(x).block == s.At(x).block)
      && (forall x :: r.Has(x) && !s.Has(x) ==> r.At(x).status == Pendding && x.uri == info.uri && x.uri !in s.tasks)
      && (forall u :: u in s.tasks ==> u in r.tasks)
      && (PlanCount(info.size) > 0 ==> info.uri in r.tasks)
      && (forall u :: u in r.tasks && u !in s.tasks ==> u == info.uri)
  {
    ReplanKeeps(s, info);
    ReplanShape(s, info);
    RejoinedSlots(s, info);
    OtherLists(s, Replan(s, info), info.uri);
  }

  lemma ReplanBooks(s: Sched, info: ResourceInfo, net: seq<Msg>, issued: multiset<Key>, matched: multiset<Key>)
    requires Books(s, net, issued, matched) && info.owners != [] && info.uri in s.res && s.res[info.uri] == info
    ensures Books(Replan(s, info), net, issued, matched)
  {
    ReplanSlots(s, info);
    var r := Replan(s, info);
    forall x: Slot | r.Has(x) ensures r.At(x).status != Stop {
      if s.Has(x) { assert s.At(x).status != Stop; }
    }
    forall x | r.Has(x) && Active(r.At(x)) ensures matched[SlotKey(r, x)] < (issued + SentKeys(r.out))[SlotKey(r, x)] {
      assert s.Has(x) && SlotKey(s, x) == SlotKey(r, x);
    }
  }

  lemma AddResourceBooks(s: Sched, uri: Text, hash: Text, size: nat, from: Addr, dead: set<Addr>, net: seq<Msg>,
        issued: multiset<Key>, matched: multiset<Key>)
    requires Books(s, net, issued, matched)
    ensures Books(AddResource(s, uri, hash, size, from, dead), net, issued, matched)
  {
    var a := Announce(s, uri, hash, size, from);
    AnnounceBooks(s, uri, hash, size, from, net, issued, matched);
    AnnounceKeeps(s, uri, hash, size, from);
    if a.Some? {
      ReplanBooks(a.value, a.value.res[uri], net, issued, matched);
      TickBooks(Replan(a.value, a.value.res[uri]), 0, dead, net, issued, matched);
    }
  }

  // ---------------------------------------------------------------- replies

  ghost predicate Holds(s: Sched, k: Key) {
    exists x :: s.Has(x) && SlotKey(s, x) == k
  }

  lemma SubsetSmaller(a: multiset<Key>, b: multiset<Key>)
    requires a <= b
    ensures |a| <= |b|
  {
    assert b == a + (b - a);
  }

  /** A block mark changes one slot, or nothing. */
  lemma SucceedSlots(s: Sched, k: Key)
    requires Partitioned(s)
    ensures var r := Succeed(s, k.uri, k.block);
      && Partitioned(r) && SameKeys(s, r) && r.out == s.out
      && r.downloads == (if Holds(s, k) then Prev8(s.downloads) else s.downloads)
      && (!Holds(s, k) ==> r == s)
      && (forall x :: s.Has(x) ==> r.At(x) == if SlotKey(s, x) == k then s.At(x).(status := Success) else s.At(x))
  {
    var r := Succeed(s, k.uri, k.block);
    SucceedKeeps(s, k.uri, k.block);
    PartitionedFixesBlocks(s, r);
    if k.uri in s.tasks {
      var ts := s.tasks[k.uri];
      MarkSuccessShape(ts, s.downloads, k.block, |ts|);
      MarkSuccessOnce(ts, s.downloads, k.uri, s.res[k.uri], k.block, |ts|);
      assert Holds(s, k) <==> exists i :: 0 <= i < |ts| && ts[i].block == k.block by {
        if i :| 0 <= i < |ts| && ts[i].block == k.block {
          assert SlotKey(s, Slot(k.uri, i)) == k;
        }
      }
      if !Holds(s, k) {
        assert r.tasks[k.uri] == ts;
      }
    }
  }

  ghost function MatchedAfter(s: Sched, k: Key, matched: multiset<Key>): multiset<Key> {
    if Holds(s, k) then matched + multiset{k} else matched
  }

  lemma CoveredWithout(out: seq<Sent>, net: seq<Msg>, i: nat, issued: multiset<Key>, matched: multiset<Key>)
    requires Covered(out, net, issued, matched) && i < |net|
    ensures Covered(out, net[..i] + net[i + 1..], issued, matched)
    ensures Covered(out, net[..i] + net[i + 1..], issued, matched + multiset{KeyOf(net[i])})
  {
    KeysRemove(net, i);
  }

  lemma SucceedOwed(s: Sched, k: Key, total: multiset<Key>, matched: multiset<Key>)
    requires Partitioned(s) && NoneStopped(s) && ActiveOwed(s, total, matched)
    ensures ActiveOwed(Succeed(s, k.uri, k.block), total, MatchedAfter(s, k, matched))
    ensures NoneStopped(Succeed(s, k.uri, k.block))
  {
    var r := Succeed(s, k.uri, k.block);
    SucceedSlots(s, k);
    forall x: Slot | r.Has(x) ensures r.At(x).status != Stop {
      assert s.Has(x) && s.At(x).status != Stop;
    }
    forall x | r.Has(x) && Active(r.At(x)) ensures MatchedAfter(s, k, matched)[SlotKey(r, x)] < total[SlotKey(r, x)] {
      assert s.Has(x) && SlotKey(s, x) == SlotKey(r, x);
      assert SlotKey(s, x) != k && Active(s.At(x));
    }
  }

  /** Matching a reply that was under way never underflows the counter, and the books stay balanced. */
  lemma SucceedBooks(s: Sched, net: seq<Msg>, i: nat, issued: multiset<Key>, matched: multiset<Key>)
    requires Books(s, net, issued, matched) && i < |net|
    ensures var k := KeyOf(net[i]);
      Books(Succeed(s, k.uri, k.block), net[..i] + net[i + 1..], issued, MatchedAfter(s, k, matched))
      && (Holds(s, k) ==> s.downloads > 0)
  {
    var k := KeyOf(net[i]);
    SucceedSlots(s, k);
    CoveredWithout(s.out, net, i, issued, matched);
    SucceedOwed(s, k, issued + SentKeys(s.out), matched);
    if Holds(s, k) {
      CoveredMatched(s.out, net[..i] + net[i + 1..], issued, matched + multiset{k});
      SubsetSmaller(matched + multiset{k}, issued + SentKeys(s.out));
    }
  }

  lemma CancelBooks(s: Sched, uri: Text, net: seq<Msg>, issued: multiset<Key>, matched: multiset<Key>)
    requires Books(s, net, issued, matched)
    ensures Books(CancelTask(s, uri), net, issued, matched)
  {
    SubSlotsBooks(s, CancelTask(s, uri), net, issued, matched);
  }
}
