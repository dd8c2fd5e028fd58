/**
 The walk of a failed block over the owners of its file. An owner may stand in the list more than once, and each step
 looks for the first owner that compares equal: that decides which owners the walk can reach.
 */
module Rotation {
  import opened Basics
  import opened NetAddr
  import opened Scheduler

  /** Owners that compare pairwise different. `addNetCtx` does not enforce this. */
  ghost predicate PairwiseDifferent(owners: seq<Addr>) {
    forall i, j :: 0 <= i < j < |owners| ==> !owners[i].Same(owners[j])
  }

  /** The owner after `k` reassignments, starting at `a`. */
  function Walk(owners: seq<Addr>, a: Addr, k: nat): Addr {
    if k == 0 then a else NextOwner(owners, Walk(owners, a, k - 1))
  }

  // ---------------------------------------------------------------- rings

  function After(p: nat, n: nat): nat {
    if p + 1 == n then 0 else p + 1
  }

  /** `k` steps round a ring of `n`, from `j`. */
  function Around(j: nat, k: nat, n: nat): (p: nat)
    requires j < n
    ensures p < n
  {
    if k == 0 then j else After(Around(j, k - 1, n), n)
  }

  lemma {:induction false} AroundIsModulo(j: nat, k: nat, n: nat)
    requires j < n
    ensures Around(j, k, n) == (j + k) % n
  {
    if k == 0 {
      ModUnique(j, n, 0, j);
    } else {
      AroundIsModulo(j, k - 1, n);
      ModStep(j + k - 1, n);
    }
  }

  /** The number of steps from place `j` to place `m`. */
  function Steps(j: nat, m: nat, n: nat): (k: nat)
    requires j < n && m < n
    ensures k < n
  {
    if m >= j then m - j else m + n - j
  }

  lemma StepsReach(j: nat, m: nat, n: nat, k: nat)
    requires j < n && m < n && k < n
    ensures Around(j, k, n) == m <==> k == Steps(j, m, n)
    ensures Around(j, n, n) == j
  {
    AroundIsModulo(j, k, n);
    AroundIsModulo(j, n, n);
    ModUnique(j + n, n, 1, j);
    if j + k < n { ModUnique(j + k, n, 0, j + k); } else { ModUnique(j + k, n, 1, j + k - n); }
  }

  // ---------------------------------------------------------------- places

  /** The first place of the owner at place `j`. */
  function First(owners: seq<Addr>, j: nat): (i: nat)
    requires j < |owners|
    ensures i <= j && owners[i].Same(owners[j])
    ensures forall k :: 0 <= k < i ==> !owners[k].Same(owners[j])
  {
    OwnerIndex(owners, owners[j])
  }

  lemma {:induction false} SameOwnerSameIndex(owners: seq<Addr>, a: Addr, b: Addr)
    requires a.Same(b)
    ensures OwnerIndex(owners, a) == OwnerIndex(owners, b)
  {
    if owners != [] { SameOwnerSameIndex(owners[1..], a, b); }
  }

  lemma FirstIsIndex(owners: seq<Addr>, j: nat)
    requires j < |owners|
    ensures First(owners, j) == OwnerIndex(owners, owners[j])
  {
  }

  lemma WalkNothing(owners: seq<Addr>, a: Addr)
    ensures Walk(owners, a, 0) == a
  {
  }

  /** One step, by places: from the owner at place `j` to the one after it. */
  lemma WalkStep(owners: seq<Addr>, a: Addr, k: nat)
    requires OwnerIndex(owners, Walk(owners, a, k)) < |owners|
    ensures var p := After(OwnerIndex(owners, Walk(owners, a, k)), |owners|);
      Walk(owners, a, k + 1) == owners[p] && OwnerIndex(owners, Walk(owners, a, k + 1)) == First(owners, p)
  {
  }

  /** The first place whose owner stands at an earlier place too, or the number of owners. */
  function FirstRepeat(owners: seq<Addr>, from: nat := 0): (p: nat)
    requires from <= |owners|
    ensures from <= p <= |owners|
    ensures forall j :: from <= j < p ==> First(owners, j) == j
    ensures p < |owners| ==> First(owners, p) < p
    decreases |owners| - from
  {
    if from == |owners| || First(owners, from) < from then from else FirstRepeat(owners, from + 1)
  }

  lemma NoRepeatIsDifferent(owners: seq<Addr>)
    ensures FirstRepeat(owners) == |owners| <==> PairwiseDifferent(owners)
  {
    var p := FirstRepeat(owners);
    if p == |owners| {
      forall i, j | 0 <= i < j < |owners| ensures !owners[i].Same(owners[j]) {
        assert First(owners, j) == j;
      }
    }
  }

  /** Before the first repeat the walk from the first owner goes place by place. */
  lemma {:induction false} WalkUpToRepeat(owners: seq<Addr>, k: nat)
    requires k < FirstRepeat(owners)
    ensures OwnerIndex(owners, Walk(owners, owners[0], k)) == k
  {
    hide NextOwner, Walk, FirstRepeat, First;
    WalkNothing(owners, owners[0]);
    if k == 0 {
      assert First(owners, 0) == 0;
      FirstIsIndex(owners, 0);
    } else {
      WalkUpToRepeat(owners, k - 1);
      WalkStep(owners, owners[0], k - 1);
    }
  }

  /** The walk never leaves the places between the one it falls back to and the first repeat. */
  lemma {:induction false} WalkStays(owners: seq<Addr>, low: nat, a: Addr, k: nat)
    requires var p := FirstRepeat(owners); p < |owners| && low <= First(owners, p) && low <= OwnerIndex(owners, a) < p
    ensures low <= OwnerIndex(owners, Walk(owners, a, k)) < FirstRepeat(owners)
  {
    hide NextOwner, Walk, First, FirstRepeat;
    WalkNothing(owners, a);
    if k > 0 {
      WalkStays(owners, low, a, k - 1);
      WalkStep(owners, a, k - 1);
    }
  }

  /** Falling back to the first place makes the walk a ring. */
  lemma {:induction false} WalkIsRing(owners: seq<Addr>, a: Addr, k: nat)
    requires var p := FirstRepeat(owners);
      (p < |owners| ==> First(owners, p) == 0) && OwnerIndex(owners, a) < p
    ensures OwnerIndex(owners, Walk(owners, a, k)) == Around(OwnerIndex(owners, a), k, FirstRepeat(owners))
  {
    hide NextOwner, Walk, First, FirstRepeat;
    WalkNothing(owners, a);
    if k > 0 {
      WalkIsRing(owners, a, k - 1);
      WalkStep(owners, a, k - 1);
      assert First(owners, 0) == 0;
    }
  }

  // ---------------------------------------------------------------- who is reached

  ghost predicate Reaches(owners: seq<Addr>, a: Addr, b: Addr) {
    exists k: nat :: Walk(owners, a, k).Same(b)
  }

  /** Every owner is reached from every owner. */
  ghost predicate AllReached(owners: seq<Addr>) {
    forall i, m :: 0 <= i < |owners| && 0 <= m < |owners| ==> Reaches(owners, owners[i], owners[m])
  }

  /** The first repeated owner is the first owner, and no new owner stands behind it. */
  predicate Rotates(owners: seq<Addr>) {
    var p := FirstRepeat(owners);
    p < |owners| ==> First(owners, p) == 0 && forall i :: p < i < |owners| ==> First(owners, i) < p
  }

  lemma SameIsSameIndex(owners: seq<Addr>, a: Addr, m: nat)
    requires m < |owners|
    ensures a.Same(owners[m]) <==> OwnerIndex(owners, a) == First(owners, m)
  {
    if a.Same(owners[m]) { SameOwnerSameIndex(owners, a, owners[m]); }
  }

  lemma RingReaches(owners: seq<Addr>, i: nat, m: nat)
    requires Rotates(owners) && i < |owners| && m < |owners|
    ensures Reaches(owners, owners[i], owners[m])
  {
    var p := FirstRepeat(owners);
    var a, b := First(owners, i), First(owners, m);
    assert a < p && b < p;
    var k := Steps(a, b, p);
    WalkIsRing(owners, owners[i], k);
    StepsReach(a, b, p, k);
    SameIsSameIndex(owners, Walk(owners, owners[i], k), m);
  }

  lemma TrapMisses(owners: seq<Addr>, i: nat, m: nat, low: nat)
    requires var p := FirstRepeat(owners);
      p < |owners| && low <= First(owners, p) && i < p && low <= i && m < |owners| && !(low <= First(owners, m) < p)
    ensures !Reaches(owners, owners[i], owners[m])
  {
    forall k: nat ensures !Walk(owners, owners[i], k).Same(owners[m]) {
      assert First(owners, i) == i;
      WalkStays(owners, low, owners[i], k);
      SameIsSameIndex(owners, Walk(owners, owners[i], k), m);
    }
  }

  /** For every list of owners: failover from each reaches each exactly when the first repeat is the first owner and the last news. */
  lemma FailoverReachesExactly(owners: seq<Addr>)
    ensures AllReached(owners) <==> Rotates(owners)
  {
    var p := FirstRepeat(owners);
    if Rotates(owners) {
      forall i, m | 0 <= i < |owners| && 0 <= m < |owners| ensures Reaches(owners, owners[i], owners[m]) {
        RingReaches(owners, i, m);
      }
    } else if First(owners, p) != 0 {
      assert First(owners, 0) == 0;
      TrapMisses(owners, First(owners, p), 0, First(owners, p));
    } else {
      var m :| p < m < |owners| && First(owners, m) >= p;
      TrapMisses(owners, 0, m, 0);
    }
  }

  // ---------------------------------------------------------------- who is reached exactly once

  ghost predicate VisitedAt(owners: seq<Addr>, i: nat, m: nat, k: nat)
    requires i < |owners| && m < |owners|
  {
    Walk(owners, owners[i], k).Same(owners[m])
  }

  /** Over as many steps as there are owners, from any of them: each exactly once, and back. */
  ghost predicate FullTurns(owners: seq<Addr>) {
    forall i :: 0 <= i < |owners| ==> FullTurnFrom(owners, i)
  }

  ghost predicate FullTurnFrom(owners: seq<Addr>, i: nat)
    requires i < |owners|
  {
    VisitedAt(owners, i, i, |owners|) && forall m :: 0 <= m < |owners| ==> OnceInATurn(owners, i, m)
  }

  ghost predicate OnceInATurn(owners: seq<Addr>, i: nat, m: nat)
    requires i < |owners| && m < |owners|
  {
    exists k :: 0 <= k < |owners| && OnlyVisitedAt(owners, i, m, k)
  }

  ghost predicate OnlyVisitedAt(owners: seq<Addr>, i: nat, m: nat, k: nat)
    requires i < |owners| && m < |owners|
  {
    forall q :: 0 <= q < |owners| ==> (VisitedAt(owners, i, m, q) <==> q == k)
  }

  lemma DifferentTurns(owners: seq<Addr>, i: nat, m: nat, k: nat)
    requires PairwiseDifferent(owners) && i < |owners| && m < |owners| && k <= |owners|
    ensures k < |owners| ==> (VisitedAt(owners, i, m, k) <==> k == Steps(i, m, |owners|))
    ensures k == |owners| ==> VisitedAt(owners, i, i, k)
  {
    NoRepeatIsDifferent(owners);
    assert First(owners, i) == i && First(owners, m) == m;
    WalkIsRing(owners, owners[i], k);
    SameIsSameIndex(owners, Walk(owners, owners[i], k), m);
    SameIsSameIndex(owners, Walk(owners, owners[i], k), i);
    StepsReach(i, m, |owners|, if k < |owners| then k else 0);
  }

  lemma DifferentIsFullTurns(owners: seq<Addr>)
    requires PairwiseDifferent(owners)
    ensures FullTurns(owners)
  {
    hide Walk, PairwiseDifferent;
    var n := |owners|;
    forall i | 0 <= i < n ensures FullTurnFrom(owners, i) {
      DifferentTurns(owners, i, i, n);
      forall m | 0 <= m < n ensures OnceInATurn(owners, i, m) {
        var k := Steps(i, m, n);
        forall q | 0 <= q < n ensures VisitedAt(owners, i, m, q) <==> q == k { DifferentTurns(owners, i, m, q); }
        assert OnlyVisitedAt(owners, i, m, k);
      }
    }
  }

  /** From the first owner, the owner that is repeated first is visited twice within a turn. */
  lemma RepeatVisits(owners: seq<Addr>)
    requires FirstRepeat(owners) < |owners|
    ensures var p := FirstRepeat(owners); var m := First(owners, p);
      VisitedAt(owners, 0, m, m) && VisitedAt(owners, 0, m, p)
  {
    hide Walk, NextOwner, First, FirstRepeat;
    var p := FirstRepeat(owners);
    var m := First(owners, p);
    WalkUpToRepeat(owners, m);
    WalkUpToRepeat(owners, p - 1);
    WalkStep(owners, owners[0], p - 1);
    SameIsSameIndex(owners, Walk(owners, owners[0], m), m);
    SameIsSameIndex(owners, Walk(owners, owners[0], p), m);
  }

  lemma RepeatIsVisitedTwice(owners: seq<Addr>)
    requires FirstRepeat(owners) < |owners|
    ensures !FullTurns(owners)
  {
    hide VisitedAt, First, FirstRepeat;
    var p := FirstRepeat(owners);
    var m := First(owners, p);
    RepeatVisits(owners);
    assert !OnceInATurn(owners, 0, m);
    assert !FullTurnFrom(owners, 0);
  }

  /** For every list of owners: a full turn visits each owner once and returns exactly when the owners are pairwise different. */
  lemma FullTurnsExactly(owners: seq<Addr>)
    ensures FullTurns(owners) <==> PairwiseDifferent(owners)
  {
    hide FullTurns, PairwiseDifferent;
    NoRepeatIsDifferent(owners);
    if PairwiseDifferent(owners) { DifferentIsFullTurns(owners); } else { RepeatIsVisitedTwice(owners); }
  }
}
