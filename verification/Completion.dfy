/**
 How long a download takes: with writes that do not throw, rounds of one tick and the successes of all blocks then in
 flight finish N waiting blocks, of any number of files, in exactly ceil(N / 5) rounds.
 */
module Completion {
  import opened Basics
  import opened TextOrder
  import opened Scheduler
  import opened Partition
  import opened Operations
  import opened Accounts

  ghost function Of(s: Sched, xs: seq<Slot>, st: Status): set<Slot> {
    set x | x in xs && s.Has(x) && s.At(x).status == st
  }

  /** The blocks still to be asked for. */
  ghost function Waiting(s: Sched): set<Slot> {
    Of(s, AllSlots(s.tasks), Pendding)
  }

  ghost predicate OnlyWaitingOrDone(s: Sched, xs: seq<Slot>) {
    forall x :: x in xs ==> s.Has(x) && s.At(x).status in {Pendding, Success}
  }

  /** Between rounds: nothing in flight, no slot taken. */
  ghost predicate AtRest(s: Sched) {
    Partitioned(s) && s.downloads == 0 && OnlyWaitingOrDone(s, AllSlots(s.tasks))
  }

  // ---------------------------------------------------------------- one tick

  lemma OfLast(s: Sched, m: Sched, xs: seq<Slot>, st: Status)
    requires xs != [] && Distinct(xs) && AllIn(xs, s) && SameShape(s, m) && SameElsewhere(m, s, xs[|xs| - 1])
    ensures Of(s, xs, st) == With(Of(m, xs[..|xs| - 1], st), xs[|xs| - 1], s.At(xs[|xs| - 1]).status == st)
    ensures xs[|xs| - 1] !in Of(m, xs[..|xs| - 1], st)
  {
  }

  /** What a tick has done after visiting `xs`. */
  ghost predicate Started(s: Sched, r: Sched, xs: seq<Slot>) {
    && r.downloads == |Of(r, xs, Syning)| == Min(5, |Of(s, xs, Pendding)|)
    && Of(s, xs, Pendding) == Of(r, xs, Pendding) + Of(r, xs, Syning)
    && (forall x :: x in xs ==> r.Has(x) && r.At(x).status in {Pendding, Syning, Success})
  }

  lemma {:induction false} TickStarts(s: Sched, xs: seq<Slot>, ms: uint64)
    requires Partitioned(s) && s.downloads == 0 && Distinct(xs) && OnlyWaitingOrDone(s, xs)
    ensures Started(s, TickSlots(s, xs, ms, {}), xs)
  {
    if xs != [] {
      var init, last := xs[..|xs| - 1], xs[|xs| - 1];
      assert xs == init + [last];
      TickStarts(s, init, ms);
      StartedStep(s, TickSlots(s, init, ms, {}), xs, ms);
    } else {
      assert Of(s, xs, Pendding) == {} && Of(s, xs, Syning) == {};
    }
  }

  lemma StartedStep(s: Sched, m: Sched, xs: seq<Slot>, ms: uint64)
    requires xs != [] && Partitioned(s) && s.downloads == 0 && Distinct(xs) && OnlyWaitingOrDone(s, xs)
    requires m == TickSlots(s, xs[..|xs| - 1], ms, {}) && Started(s, m, xs[..|xs| - 1])
    ensures Started(s, TickSlots(s, xs, ms, {}), xs)
  {
    hide TickSlot, TickSlots, Partitioned, Started, Of;
    var init, last := xs[..|xs| - 1], xs[|xs| - 1];
    assert xs == init + [last];
    TickSlotsStep(s, init, last, ms, {});
    var r := TickSlot(m, last, ms, {});
    TicksKeep(s, init, ms, {});
    assert s.Has(last) && last !in init;
    VisitIsLocal(m, last, ms, {});
    assert m.At(last) == s.At(last);
    OfLast(r, m, xs, Pendding);
    OfLast(r, m, xs, Syning);
    OfLast(s, s, xs, Pendding);
    var waits := s.At(last).status == Pendding;
    StartedSets(s, m, r, init, xs, last, waits, waits && m.downloads < DOWNLOAD_LIMIT);
  }

  function With(a: set<Slot>, x: Slot, add: bool): set<Slot> {
    if add then a + {x} else a
  }

  lemma SetStep(a: set<Slot>, b: set<Slot>, c: set<Slot>, x: Slot, waits: bool, starts: bool)
    requires a == b + c && x !in a && |c| == Min(DOWNLOAD_LIMIT, |a|)
    requires starts <==> waits && |c| < DOWNLOAD_LIMIT
    ensures With(a, x, waits) == With(b, x, waits && !starts) + With(c, x, starts)
    ensures |With(c, x, starts)| == |c| + (if starts then 1 else 0) == Min(DOWNLOAD_LIMIT, |With(a, x, waits)|)
  {
  }

  lemma NotOf(s: Sched, xs: seq<Slot>, x: Slot, st: Status)
    requires x !in xs
    ensures x !in Of(s, xs, st)
  {
  }

  lemma StartedSets(s: Sched, m: Sched, r: Sched, init: seq<Slot>, xs: seq<Slot>, x: Slot, waits: bool, starts: bool)
    requires Started(s, m, init) && x !in init && xs == init + [x] && AllIn(xs, r)
    requires forall y :: y in init ==> m.Has(y) && r.At(y) == m.At(y)
    requires r.At(x).status in {Pendding, Syning, Success}
    requires Of(r, xs, Pendding) == With(Of(m, init, Pendding), x, waits && !starts)
    requires Of(r, xs, Syning) == With(Of(m, init, Syning), x, starts)
    requires Of(s, xs, Pendding) == With(Of(s, init, Pendding), x, waits)
    requires starts <==> waits && m.downloads < DOWNLOAD_LIMIT
    requires r.downloads == m.downloads + (if starts then 1 else 0)
    ensures Started(s, r, xs)
  {
    hide Of, With;
    NotOf(s, init, x, Pendding);
    SetStep(Of(s, init, Pendding), Of(m, init, Pendding), Of(m, init, Syning), x, waits, starts);
    forall y | y in xs ensures r.Has(y) && r.At(y).status in {Pendding, Syning, Success} {
      if y != x { assert y in init; }
    }
  }

  // ---------------------------------------------------------------- the replies of one round

  /** Success reported for each of these slots, in this order. */
  function Replies(s: Sched, ys: seq<Slot>): Sched
    requires forall y :: y in ys ==> s.Has(y)
  {
    if ys == [] then s
    else
      var y := ys[|ys| - 1];
      Succeed(Replies(s, ys[..|ys| - 1]), y.uri, s.At(y).block)
  }

  lemma {:induction false} RepliesDo(s: Sched, ys: seq<Slot>)
    requires Partitioned(s) && Distinct(ys) && AllIn(ys, s) && |ys| <= s.downloads
    ensures var r := Replies(s, ys);
      && Partitioned(r) && SameShape(s, r) && r.downloads == s.downloads - |ys|
      && forall x :: s.Has(x) ==> r.Has(x) && r.At(x) == if x in ys then s.At(x).(status := Success) else s.At(x)
  {
    if ys != [] {
      var init, y := ys[..|ys| - 1], ys[|ys| - 1];
      assert ys == init + [y];
      RepliesDo(s, init);
      RepliesStep(s, Replies(s, init), init, y);
    }
  }

  lemma RepliesStep(s: Sched, m: Sched, init: seq<Slot>, y: Slot)
    requires Partitioned(s) && Partitioned(m) && SameShape(s, m) && s.Has(y) && y !in init && m.downloads > 0
    requires forall x :: s.Has(x) ==> m.Has(x) && m.At(x) == if x in init then s.At(x).(status := Success) else s.At(x)
    ensures var r := Succeed(m, y.uri, s.At(y).block);
      && Partitioned(r) && SameShape(s, r) && r.downloads == m.downloads - 1
      && forall x :: s.Has(x) ==> r.Has(x) && r.At(x) == if x == y || x in init then s.At(x).(status := Success) else s.At(x)
  {
    var k := Key(y.uri, s.At(y).block);
    assert SlotKey(m, y) == k;
    SucceedSlots(m, k);
    forall x | s.Has(x) ensures SlotKey(m, x) == k <==> x == y {
      if SlotKey(m, x) == k { SlotKeysDistinct(m, x, y); }
    }
  }

  /** `ys` lists the blocks in flight, each once, in whatever order their replies come. */
  ghost predicate InFlight(s: Sched, ys: seq<Slot>) {
    Distinct(ys) && forall x: Slot :: x in ys <==> s.Has(x) && s.At(x).status == Syning
  }

  lemma {:induction false} DistinctSize(ys: seq<Slot>, t: set<Slot>)
    requires Distinct(ys) && forall x :: x in ys <==> x in t
    ensures |ys| == |t|
  {
    if ys == [] {
      assert t == {};
    } else {
      var init, last := ys[..|ys| - 1], ys[|ys| - 1];
      assert ys == init + [last];
      DistinctSize(init, t - {last});
    }
  }

  // ---------------------------------------------------------------- rounds

  datatype Round = Round(ms: uint64, replies: seq<Slot>)

  /** One tick, then a success for every block in flight. */
  ghost predicate Plays(s: Sched, r: Round, next: Sched) {
    InFlight(Tick(s, r.ms, {}), r.replies) && next == Replies(Tick(s, r.ms, {}), r.replies)
  }

  /** The states between the rounds `rs`. */
  ghost predicate IsPlay(ss: seq<Sched>, rs: seq<Round>) {
    |ss| == |rs| + 1 && forall i :: 0 <= i < |rs| ==> Plays(ss[i], rs[i], ss[i + 1])
  }

  function SyningIn(s: Sched, xs: seq<Slot>): seq<Slot> {
    if xs == [] then []
    else
      var x := xs[|xs| - 1];
      SyningIn(s, xs[..|xs| - 1]) + (if s.Has(x) && s.At(x).status == Syning then [x] else [])
  }

  lemma {:induction false} SyningInExactly(s: Sched, xs: seq<Slot>)
    requires Distinct(xs)
    ensures Distinct(SyningIn(s, xs))
    ensures forall x :: x in SyningIn(s, xs) <==> x in xs && s.Has(x) && s.At(x).status == Syning
  {
    if xs != [] {
      SyningInExactly(s, xs[..|xs| - 1]);
      assert xs == xs[..|xs| - 1] + [xs[|xs| - 1]];
    }
  }

  /** The blocks in flight can always be listed, so every sequence of tick times can be played as answered rounds. */
  lemma RepliesExist(s: Sched)
    ensures InFlight(s, SyningIn(s, AllSlots(s.tasks)))
  {
    AllSlotsOnce(s.tasks);
    SyningInExactly(s, AllSlots(s.tasks));
  }

  lemma SameSlots(s: Sched, r: Sched)
    requires SameShape(s, r)
    ensures AllSlots(s.tasks) == AllSlots(r.tasks)
  {
    SameSlotsUpTo(s.tasks, r.tasks, Sorted(s.tasks.Keys), |Sorted(s.tasks.Keys)|);
  }

  lemma {:induction false} SameSlotsUpTo(a: map<Text, seq<Task>>, b: map<Text, seq<Task>>, keys: seq<Text>, n: nat)
    requires n <= |keys| && a.Keys == b.Keys && (forall u :: u in keys ==> u in a) && forall u :: u in a ==> |a[u]| == |b[u]|
    ensures SlotsUpTo(a, keys, n) == SlotsUpTo(b, keys, n)
  {
    if n > 0 { SameSlotsUpTo(a, b, keys, n - 1); }
  }

  lemma SetSizes(a: set<Slot>, b: set<Slot>)
    requires a !! b
    ensures |a + b| == |a| + |b|
  {
  }

  /** After a tick from rest: up to five blocks in flight, the rest waiting. */
  lemma TickFromRest(s: Sched, ms: uint64)
    requires AtRest(s)
    ensures var t, xs := Tick(s, ms, {}), AllSlots(s.tasks);
      && Partitioned(t) && SameShape(s, t) && AllSlots(t.tasks) == xs
      && (forall x: Slot :: x in xs <==> t.Has(x)) && Started(s, t, xs)
      && |Waiting(t)| == |Waiting(s)| - t.downloads
  {
    var t, xs := Tick(s, ms, {}), AllSlots(s.tasks);
    AllSlotsOnce(s.tasks);
    TickStarts(s, xs, ms);
    TickKeeps(s, ms, {});
    SameSlots(s, t);
    SetSizes(Of(t, xs, Pendding), Of(t, xs, Syning));
  }

  /** Every round takes up to five blocks off the list and ends at rest. */
  lemma RoundProgress(s: Sched, r: Round, q: Sched)
    requires AtRest(s) && Plays(s, r, q)
    ensures AtRest(q)
    ensures |Waiting(q)| == |Waiting(s)| - Min(5, |Waiting(s)|)
  {
    hide Tick, AllSlots, Partitioned, Replies;
    var t, xs := Tick(s, r.ms, {}), AllSlots(s.tasks);
    TickFromRest(s, r.ms);
    DistinctSize(r.replies, Of(t, xs, Syning));
    RepliesDo(t, r.replies);
    SameSlots(t, q);
    forall x | x in xs ensures q.Has(x) && q.At(x).status in {Pendding, Success} {
      assert t.Has(x);
    }
    assert Waiting(q) == Waiting(t) by {
      forall x: Slot ensures x in Waiting(q) <==> x in Waiting(t) {
        if x in xs { assert t.Has(x); }
      }
    }
  }

  lemma {:induction false} RoundsProgress(ss: seq<Sched>, rs: seq<Round>, k: nat)
    requires IsPlay(ss, rs) && AtRest(ss[0]) && k <= |rs|
    ensures AtRest(ss[k])
    ensures |Waiting(ss[k])| == if |Waiting(ss[0])| <= DOWNLOAD_LIMIT * k then 0 else |Waiting(ss[0])| - DOWNLOAD_LIMIT * k
  {
    hide AtRest, Plays, Waiting;
    if k > 0 {
      RoundsProgress(ss, rs, k - 1);
      assert Plays(ss[k - 1], rs[k - 1], ss[k]);
      RoundProgress(ss[k - 1], rs[k - 1], ss[k]);
    }
  }

  ghost predicate AllDone(s: Sched) {
    forall u :: u in s.tasks ==> IsSuccess(s, u)
  }

  lemma AtRestDone(s: Sched)
    requires AtRest(s)
    ensures AllDone(s) <==> |Waiting(s)| == 0
  {
    AllSlotsOnce(s.tasks);
    if |Waiting(s)| == 0 {
      forall u, i | u in s.tasks && 0 <= i < |s.tasks[u]| ensures s.tasks[u][i].status == Success {
        var x := Slot(u, i);
        assert x in AllSlots(s.tasks) && s.Has(x) && x !in Waiting(s);
      }
    } else {
      var x :| x in Waiting(s);
      assert s.tasks[x.uri][x.i].status != Success;
    }
  }

  /** From N waiting blocks and no taken slot: after k rounds every list is a success exactly when k >= ceil(N / 5). */
  lemma CompletionBound(ss: seq<Sched>, rs: seq<Round>, k: nat)
    requires IsPlay(ss, rs) && AtRest(ss[0]) && k <= |rs|
    ensures AllDone(ss[k]) <==> k >= (|Waiting(ss[0])| + 4) / 5
  {
    hide AtRest, Waiting, AllDone;
    RoundsProgress(ss, rs, k);
    AtRestDone(ss[k]);
  }
}
