/** The byte-wise order of `std::string`, which fixes the iteration order of every `std::map` keyed by one. */
module TextOrder {
  import opened Basics

  predicate Less(a: Text, b: Text) {
    if b == [] then false
    else if a == [] then true
    else a[0] < b[0] || (a[0] == b[0] && Less(a[1..], b[1..]))
  }

  lemma {:induction false} LessTotal(a: Text, b: Text)
    ensures !Less(a, a)
    ensures a == b || Less(a, b) || Less(b, a)
    ensures !(Less(a, b) && Less(b, a))
  {
    if a != [] {
      LessTotal(a[1..], a[1..]);
      if b != [] {
        LessTotal(a[1..], b[1..]);
        if a[0] == b[0] && a[1..] == b[1..] {
          assert a == [a[0]] + a[1..] == [b[0]] + b[1..] == b;
        }
      }
    }
  }

  lemma {:induction false} LessTransitive(a: Text, b: Text, c: Text)
    requires Less(a, b) && Less(b, c)
    ensures Less(a, c)
  {
    if a != [] && a[0] == b[0] == c[0] {
      LessTransitive(a[1..], b[1..], c[1..]);
    }
  }

  /** `a` and `b` agree up to `n`, where `a` ends or has the smaller byte. */
  ghost predicate ComesFirstAt(a: Text, b: Text, n: nat) {
    n <= |a| && n < |b| && a[..n] == b[..n] && (n == |a| || a[n] < b[n])
  }

  /** The order is decided by the first difference, and a proper prefix comes first. */
  lemma {:induction false} LessExact(a: Text, b: Text)
    ensures Less(a, b) <==> exists n: nat :: ComesFirstAt(a, b, n)
  {
    if b != [] {
      if a == [] || a[0] < b[0] {
        assert ComesFirstAt(a, b, 0);
      } else {
        LessExact(a[1..], b[1..]);
        if n: nat :| ComesFirstAt(a, b, n) {
          assert a[0] == a[..n][0] == b[..n][0] == b[0];
          assert a[1..][..n - 1] == a[..n][1..] == b[..n][1..] == b[1..][..n - 1];
          assert ComesFirstAt(a[1..], b[1..], n - 1);
        }
        if a[0] == b[0] && Less(a[1..], b[1..]) {
          var n: nat :| ComesFirstAt(a[1..], b[1..], n);
          assert a[..n + 1] == [a[0]] + a[1..][..n] == [b[0]] + b[1..][..n] == b[..n + 1];
          assert ComesFirstAt(a, b, n + 1);
        }
      }
    }
  }

  predicate IsSmallest(m: Text, s: set<Text>) {
    m in s && forall x | x in s :: x == m || Less(m, x)
  }

  lemma SmallestExists(s: set<Text>)
    requires s != {}
    ensures exists m :: IsSmallest(m, s)
  {
    var x :| x in s;
    if s == {x} {
      assert IsSmallest(x, s);
    } else {
      var rest := s - {x};
      var y :| y in s && y != x;
      assert y in rest;
      SmallestExists(rest);
      var m :| IsSmallest(m, rest);
      LessTotal(m, x);
      if Less(m, x) {
        assert IsSmallest(m, s);
      } else {
        forall z | z in s ensures z == x || Less(x, z) {
          if z != x && z != m { LessTransitive(x, m, z); }
        }
        assert IsSmallest(x, s);
      }
    }
  }

  lemma SmallestUnique(m: Text, n: Text, s: set<Text>)
    requires IsSmallest(m, s) && IsSmallest(n, s)
    ensures m == n
  {
    LessTotal(m, n);
  }

  function Smallest(s: set<Text>): (m: Text)
    requires s != {}
    ensures IsSmallest(m, s)
  {
    SmallestExists(s);
    assert forall m, n | IsSmallest(m, s) && IsSmallest(n, s) :: m == n by {
      forall m, n | IsSmallest(m, s) && IsSmallest(n, s) ensures m == n { SmallestUnique(m, n, s); }
    }
    var m :| m in s && IsSmallest(m, s);
    m
  }

  ghost predicate Ascending(r: seq<Text>) {
    forall i, j :: 0 <= i < j < |r| ==> Less(r[i], r[j])
  }

  /** The keys of a `std::map` in iteration order. */
  function Sorted(s: set<Text>): (r: seq<Text>)
    ensures Ascending(r)
    ensures forall x :: x in r <==> x in s
  {
    if s == {} then []
    else
      var m := Smallest(s);
      var rest := Sorted(s - {m});
      assert forall i | 0 <= i < |rest| :: rest[i] in rest;
      [m] + rest
  }

  lemma SortedOne(u: Text)
    ensures Sorted({u}) == [u]
  {
    assert Smallest({u}) == u;
    assert {u} - {u} == {};
    assert Sorted({}) == [];
  }

  lemma AscendingDistinct(r: seq<Text>)
    requires Ascending(r)
    ensures forall i, j :: 0 <= i < |r| && 0 <= j < |r| && r[i] == r[j] ==> i == j
  {
    forall i, j | 0 <= i < |r| && 0 <= j < |r| && r[i] == r[j] ensures i == j {
      LessTotal(r[i], r[i]);
    }
  }
}
