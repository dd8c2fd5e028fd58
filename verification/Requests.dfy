/** Whatever sizes and hashes peers announce: within the lifetime of its list a block is requested at most once. */
module Requests {
  import opened Basics
  import opened BlockRange
  import opened NetAddr
  import opened Scheduler
  import opened Partition
  import opened Operations
  import opened Accounts

  /** The operation does not end the lifetime of the list of `u`: no clean-up, and no newer version. */
  ghost predicate Spares(op: Op, u: Text, size: nat) {
    match op
    case OpAnnounce(uri, hash, n, from, dead) => uri != u || n <= size
    case OpCancel(uri) => uri != u
    case OpTick(ms, dead) => true
    case OpSuccess(uri, block) => true
    case OpFail(uri) => true
  }

  /** Slot `x` is in the plan of a file of `size` bytes. */
  ghost predicate Listed(s: Sched, x: Slot, size: nat) {
    Partitioned(s) && NoneStopped(s) && s.Has(x) && s.res[x.uri].size == size
  }

  function KeyAt(x: Slot, size: nat): Key {
    Key(x.uri, PlanBlock(x.i, size))
  }

  /** Requests written for the block so far. */
  ghost function Asks(s: Sched, k: Key): nat {
    SentKeys(s.out)[k]
  }

  /** Requests that may still be written for it. */
  ghost function Left(s: Sched, x: Slot): nat {
    if s.Has(x) && s.At(x).status != Pendding then 0 else 1
  }

  /** The slot keeps its place, and what was asked is paid from what was left. */
  ghost predicate AskedFromLeft(s: Sched, r: Sched, x: Slot, size: nat) {
    Listed(r, x, size) && Asks(r, KeyAt(x, size)) + Left(r, x) <= Asks(s, KeyAt(x, size)) + Left(s, x)
  }

  lemma ListedKey(s: Sched, x: Slot, size: nat)
    requires Listed(s, x, size)
    ensures SlotKey(s, x) == KeyAt(x, size)
  {
    assert TaskPlanned(s.At(x), x.uri, x.i, s.res[x.uri]);
  }

  lemma VisitAsks(s: Sched, y: Slot, x: Slot, size: nat, ms: uint64, dead: set<Addr>)
    requires Listed(s, x, size) && s.Has(y)
    ensures AskedFromLeft(s, TickSlot(s, y, ms, dead), x, size)
  {
    hide TickSlot, Partitioned;
    var r := TickSlot(s, y, ms, dead);
    VisitIsLocal(s, y, ms, dead);
    VisitNoneStopped(s, y, ms, dead);
    ListedKey(s, x, size);
    if r.out != s.out {
      OutStep(s.out, Sent(s.At(y).ctx, y.uri, s.At(y).block, s.At(y).ctx !in dead));
      if SlotKey(s, y) == SlotKey(s, x) { SlotKeysDistinct(s, x, y); }
    }
  }

  lemma {:induction false} VisitsAsk(s: Sched, xs: seq<Slot>, x: Slot, size: nat, ms: uint64, dead: set<Addr>)
    requires Listed(s, x, size) && AllIn(xs, s)
    ensures AskedFromLeft(s, TickSlots(s, xs, ms, dead), x, size)
  {
    hide TickSlot, Partitioned, NoneStopped, Asks, Left;
    if xs != [] {
      var init, y := xs[..|xs| - 1], xs[|xs| - 1];
      VisitsAsk(s, init, x, size, ms, dead);
      TicksKeep(s, init, ms, dead);
      assert s.Has(y) && TickSlots(s, init, ms, dead).Has(y);
      VisitAsks(TickSlots(s, init, ms, dead), y, x, size, ms, dead);
    }
  }

  lemma TickAsks(s: Sched, ms: uint64, dead: set<Addr>, x: Slot, size: nat)
    requires Listed(s, x, size)
    ensures AskedFromLeft(s, Tick(s, ms, dead), x, size)
  {
    AllSlotsOnce(s.tasks);
    VisitsAsk(s, AllSlots(s.tasks), x, size, ms, dead);
  }

  /** Planning again asks for nothing and leaves as much to ask. */
  lemma ReplanAsks(s: Sched, info: ResourceInfo, x: Slot, size: nat)
    requires Listed(s, x, size) && info.owners != [] && info.uri in s.res && s.res[info.uri] == info
    ensures AskedFromLeft(s, Replan(s, info), x, size)
  {
    hide Replan;
    ReplanSlots(s, info);
    ReplanNoneStopped(s, info);
  }

  lemma ReplanNoneStopped(s: Sched, info: ResourceInfo)
    requires Partitioned(s) && NoneStopped(s) && info.owners != [] && info.uri in s.res && s.res[info.uri] == info
    ensures NoneStopped(Replan(s, info))
  {
    hide Replan;
    ReplanSlots(s, info);
    forall y: Slot | Replan(s, info).Has(y) ensures Replan(s, info).At(y).status != Stop {
      if s.Has(y) { assert s.At(y).status != Stop; }
    }
  }

  lemma AnnounceOwners(s: Sched, uri: Text, hash: Text, n: nat, from: Addr)
    requires Partitioned(s) && NoneStopped(s)
    ensures var a := Announce(s, uri, hash, n, from);
      a.Some? ==> Partitioned(a.value) && NoneStopped(a.value) && a.value.out == s.out
                  && uri in a.value.res && ResourceOk(uri, a.value.res[uri])
  {
    AnnounceKeeps(s, uri, hash, n, from);
    var a := Announce(s, uri, hash, n, from);
    if a.Some? {
      forall y: Slot | a.value.Has(y) ensures a.value.At(y).status != Stop {
        assert s.Has(y) && a.value.At(y) == s.At(y);
      }
    }
  }

  lemma AnnounceAsks(s: Sched, uri: Text, hash: Text, n: nat, from: Addr, x: Slot, size: nat)
    requires Listed(s, x, size) && (uri != x.uri || n <= size)
    ensures var a := Announce(s, uri, hash, n, from); a.Some? ==> AskedFromLeft(s, a.value, x, size)
  {
    hide Partitioned, NoneStopped;
    AnnounceOwners(s, uri, hash, n, from);
    SlotKnown(s, x);
  }

  lemma SlotKnown(s: Sched, x: Slot)
    requires Partitioned(s) && s.Has(x)
    ensures x.uri in s.res
  {
  }

  lemma AddResourceAsks(s: Sched, uri: Text, hash: Text, n: nat, from: Addr, dead: set<Addr>, x: Slot, size: nat)
    requires Listed(s, x, size) && (uri != x.uri || n <= size)
    ensures AskedFromLeft(s, AddResource(s, uri, hash, n, from, dead), x, size)
  {
    hide Replan, Tick, Partitioned, NoneStopped, Asks, Left;
    AnnounceAsks(s, uri, hash, n, from, x, size);
    AnnounceOwners(s, uri, hash, n, from);
    var a := Announce(s, uri, hash, n, from);
    if a.Some? {
      ReplanAsks(a.value, a.value.res[uri], x, size);
      TickAsks(Replan(a.value, a.value.res[uri]), 0, dead, x, size);
    }
  }

  lemma SucceedAsks(s: Sched, uri: Text, block: Block, x: Slot, size: nat)
    requires Listed(s, x, size)
    ensures AskedFromLeft(s, Succeed(s, uri, block), x, size)
  {
    hide Succeed;
    SucceedSlots(s, Key(uri, block));
    var r := Succeed(s, uri, block);
    forall y: Slot | r.Has(y) ensures r.At(y).status != Stop { assert s.Has(y) && s.At(y).status != Stop; }
  }

  lemma FailAsks(s: Sched, uri: Text, x: Slot, size: nat)
    requires Listed(s, x, size)
    ensures AskedFromLeft(s, Fail(s, uri), x, size)
  {
    FailKeeps(s, uri);
    var r := Fail(s, uri);
    forall y: Slot | r.Has(y) ensures r.At(y).status != Stop { assert s.Has(y) && s.At(y).status != Stop; }
  }

  lemma CancelAsks(s: Sched, uri: Text, x: Slot, size: nat)
    requires Listed(s, x, size) && uri != x.uri
    ensures AskedFromLeft(s, CancelTask(s, uri), x, size)
  {
    var r := CancelTask(s, uri);
    forall y: Slot | r.Has(y) ensures r.At(y).status != Stop { assert s.Has(y) && s.At(y).status != Stop; }
  }

  /** No operation asks for a block more often than was left, unless it ends the list. */
  lemma StepAsks(s: Sched, op: Op, x: Slot, size: nat)
    requires Listed(s, x, size) && Spares(op, x.uri, size)
    ensures AskedFromLeft(s, Do(s, op), x, size)
  {
    hide Listed, AskedFromLeft;
    match op
    case OpAnnounce(uri, hash, n, from, dead) => AddResourceAsks(s, uri, hash, n, from, dead, x, size);
    case OpTick(ms, dead) => TickAsks(s, ms, dead, x, size);
    case OpSuccess(uri, block) => SucceedAsks(s, uri, block, x, size);
    case OpFail(uri) => FailAsks(s, uri, x, size);
    case OpCancel(uri) => CancelAsks(s, uri, x, size);
  }

  /** The operation that makes the list, for a new file or a newer version, writes at most one request for each block. */
  lemma CreatedAsks(s: Sched, uri: Text, hash: Text, n: nat, from: Addr, dead: set<Addr>, x: Slot)
    requires Partitioned(s) && NoneStopped(s) && (uri in s.res ==> s.res[uri].size < n) && x.uri == uri && x.i < PlanCount(n)
    ensures var r := AddResource(s, uri, hash, n, from, dead);
      Listed(r, x, n) && Asks(r, KeyAt(x, n)) + Left(r, x) <= Asks(s, KeyAt(x, n)) + 1
  {
    hide Tick, Replan, Partitioned, NoneStopped, PlanCount;
    AnnounceOwners(s, uri, hash, n, from);
    var a := Announce(s, uri, hash, n, from).value;
    var info := a.res[uri];
    FreshList(s, uri, hash, n, from);
    NewListPlanned(a, info, x);
    ReplanNoneStopped(a, info);
    TickAsks(Replan(a, info), 0, dead, x, n);
  }

  lemma FreshList(s: Sched, uri: Text, hash: Text, n: nat, from: Addr)
    requires Partitioned(s) && (uri in s.res ==> s.res[uri].size < n)
    ensures var a := Announce(s, uri, hash, n, from); a.Some? && uri !in a.value.tasks && a.value.res[uri].size == n
  {
  }

  lemma NewListPlanned(a: Sched, info: ResourceInfo, x: Slot)
    requires Partitioned(a) && NoneStopped(a) && info.uri in a.res && a.res[info.uri] == info && info.owners != []
    requires info.uri !in a.tasks && x.uri == info.uri && x.i < PlanCount(info.size)
    ensures var p := Replan(a, info); Partitioned(p) && p.Has(x) && p.res == a.res && p.out == a.out
  {
    ReplanKeeps(a, info);
    ReplanShape(a, info);
  }

  // ---------------------------------------------------------------- runs

  /** The states `ss` before and after each of `ops`. */
  ghost predicate IsOpRun(ss: seq<Sched>, ops: seq<Op>) {
    |ss| == |ops| + 1 && forall i :: 0 <= i < |ops| ==> Did(ss[i], ops[i], ss[i + 1])
  }

  ghost predicate Did(s: Sched, op: Op, r: Sched) {
    r == Do(s, op)
  }

  /**
   Over any operations that spare its list a block is asked for at most once if it was waiting, and never again once
   it was asked for: not after a time-out, not after a failed write, and not when further owners join.
   */
  lemma {:induction false} RequestedOnce(ss: seq<Sched>, ops: seq<Op>, n: nat, x: Slot, size: nat)
    requires IsOpRun(ss, ops) && n < |ss|
    requires Listed(ss[0], x, size) && forall k :: 0 <= k < |ops| ==> Spares(ops[k], x.uri, size)
    ensures Listed(ss[n], x, size)
    ensures Asks(ss[n], KeyAt(x, size)) + Left(ss[n], x) <= Asks(ss[0], KeyAt(x, size)) + Left(ss[0], x)
  {
    hide Listed, Do, Spares, Asks, Left;
    if n > 0 {
      RequestedOnce(ss, ops, n - 1, x, size);
      assert Did(ss[n - 1], ops[n - 1], ss[n]);
      StepAsks(ss[n - 1], ops[n - 1], x, size);
    }
  }
}
