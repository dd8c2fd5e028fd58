/** Which of the files a peer announces are worth fetching. */
module SyncDecision {
  import opened Basics
  import opened TextOrder

  datatype Resource = Resource(name: Text, uri: Text, path: Text, hash: Text, size: nat)

  /** A default-constructed `Resource`; its size is indeterminate in the original and never read. */
  const NO_RESOURCE: Resource := Resource([], [], [], [], 0)

  /** The last entry a table holds for `u`. */
  function LastFor(table: seq<Resource>, u: Text): Option<Resource> {
    if table == [] then None
    else if table[|table| - 1].uri == u then Some(table[|table| - 1])
    else LastFor(table[..|table| - 1], u)
  }

  /** The peer's copy is worth having over this local entry. */
  predicate Supersedes(r: Resource, l: Resource) {
    l.size < r.size || (l.size == r.size && l.hash != r.hash)
  }

  predicate SupersedesAll(r: Resource, local: seq<Resource>, u: Text) {
    forall k :: 0 <= k < |local| && local[k].uri == u ==> Supersedes(r, local[k])
  }

  predicate Wanted(peer: seq<Resource>, local: seq<Resource>, u: Text) {
    u != [] && LastFor(peer, u).Some? && SupersedesAll(LastFor(peer, u).value, local, u)
  }

  function WantedUris(peer: seq<Resource>, local: seq<Resource>): set<Text> {
    set k | 0 <= k < |peer| && Wanted(peer, local, peer[k].uri) :: peer[k].uri
  }

  function Pick(peer: seq<Resource>, uris: seq<Text>): (r: seq<Resource>)
    requires forall i :: 0 <= i < |uris| ==> LastFor(peer, uris[i]).Some?
    ensures |r| == |uris| && forall i :: 0 <= i < |uris| ==> r[i] == LastFor(peer, uris[i]).value
  {
    seq(|uris|, i requires 0 <= i < |uris| => LastFor(peer, uris[i]).value)
  }

  lemma WantedUrisAreKnown(peer: seq<Resource>, local: seq<Resource>)
    ensures forall i :: 0 <= i < |Sorted(WantedUris(peer, local))| ==> LastFor(peer, Sorted(WantedUris(peer, local))[i]).Some?
  {
    var us := Sorted(WantedUris(peer, local));
    forall i | 0 <= i < |us| ensures LastFor(peer, us[i]).Some? {
      assert us[i] in us;
    }
  }

  /** The peer's last entry for every wanted uri, in uri order. */
  function NeedToSync(peer: seq<Resource>, local: seq<Resource>): seq<Resource> {
    WantedUrisAreKnown(peer, local);
    Pick(peer, Sorted(WantedUris(peer, local)))
  }

  lemma {:induction false} LastForFacts(table: seq<Resource>, u: Text)
    ensures LastFor(table, u).Some? ==> LastFor(table, u).value in table && LastFor(table, u).value.uri == u
    ensures LastFor(table, u).Some? <==> exists k :: 0 <= k < |table| && table[k].uri == u
  {
    if table != [] {
      var init := table[..|table| - 1];
      LastForFacts(init, u);
      if table[|table| - 1].uri != u && LastFor(init, u).Some? {
        var k :| 0 <= k < |init| && init[k].uri == u;
        assert table[k].uri == u;
      }
      if k :| 0 <= k < |table| && table[k].uri == u && table[|table| - 1].uri != u {
        assert init[k].uri == u;
      }
    }
  }

  /** What the filter loop keeps after comparing with the first local entries. */
  ghost predicate FilteredTo(filtered: map<Text, Resource>, peer: seq<Resource>, local: seq<Resource>) {
    forall u :: (u in filtered <==> Wanted(peer, local, u)) && (u in filtered ==> filtered[u] == LastFor(peer, u).value)
  }

  /** First loop: the peer's table by uri, later entries replacing earlier ones. */
  method Collect(peer: seq<Resource>) returns (filtered: map<Text, Resource>)
    ensures FilteredTo(filtered, peer, [])
  {
    filtered := map[];
    var i := 0;
    while i < |peer|
      invariant i <= |peer|
      invariant FilteredTo(filtered, peer[..i], [])
    {
      assert peer[..i + 1][..i] == peer[..i];
      if |peer[i].uri| != 0 {
        filtered := filtered[peer[i].uri := peer[i]];
      }
      i := i + 1;
    }
    assert peer[..i] == peer;
  }

  /** Second loop: drop what the local table makes pointless. */
  method Filter(all: map<Text, Resource>, ghost peer: seq<Resource>, local: seq<Resource>)
    returns (filtered: map<Text, Resource>)
    requires FilteredTo(all, peer, [])
    ensures FilteredTo(filtered, peer, local)
  {
    filtered := all;
    var i := 0;
    while i < |local|
      invariant i <= |local|
      invariant FilteredTo(filtered, peer, local[..i])
    {
      filtered := FilterOne(filtered, local[i], peer, local, i);
      i := i + 1;
    }
    assert local[..i] == local;
  }

  method FilterOne(before: map<Text, Resource>, l: Resource, ghost peer: seq<Resource>, ghost local: seq<Resource>,
        ghost i: nat)
    returns (filtered: map<Text, Resource>)
    requires i < |local| && l == local[i] && FilteredTo(before, peer, local[..i])
    ensures FilteredTo(filtered, peer, local[..i + 1])
  {
    filtered := before;
    if l.uri !in filtered {
      filtered := filtered[l.uri := NO_RESOURCE];   // operator[] inserts a default value
    }
    var rs := filtered[l.uri];
    assert l.uri in before ==> l.uri != [] && rs.uri == l.uri by { LastForFacts(peer, l.uri); }
    if |rs.uri| == 0 || rs.size < l.size {
      filtered := filtered - {l.uri};
    } else if rs.size == l.size {
      if rs.hash == l.hash {
        filtered := filtered - {l.uri};
      }
    }
    FilterStep(before, filtered, peer, local, i);
  }

  /** `ResourceManagerBaseFilesystem::need_to_sync`, with `local` the listing of the local directory. */
  method NeedToSyncLoop(peer: seq<Resource>, local: seq<Resource>) returns (want: seq<Resource>)
    ensures want == NeedToSync(peer, local)
  {
    var all := Collect(peer);
    if |all| == 0 {
      NothingWanted(peer, local);
      return [];
    }
    var filtered := Filter(all, peer, local);
    var uris := Sorted(filtered.Keys);
    KeysAreWanted(filtered, peer, local);
    WantedUrisAreKnown(peer, local);
    want := [];
    var i := 0;
    while i < |uris|
      invariant i <= |uris| && |want| == i
      invariant forall k :: 0 <= k < i ==> want[k] == LastFor(peer, uris[k]).value
    {
      assert uris[i] in uris;
      want := want + [filtered[uris[i]]];
      i := i + 1;
    }
  }

  lemma NothingWanted(peer: seq<Resource>, local: seq<Resource>)
    requires FilteredTo(map[], peer, [])
    ensures NeedToSync(peer, local) == []
  {
  }

  lemma KeysAreWanted(filtered: map<Text, Resource>, peer: seq<Resource>, local: seq<Resource>)
    requires FilteredTo(filtered, peer, local)
    ensures filtered.Keys == WantedUris(peer, local)
  {
    forall u ensures u in filtered <==> u in WantedUris(peer, local) {
      LastForFacts(peer, u);
    }
  }

  lemma FilterStep(before: map<Text, Resource>, after: map<Text, Resource>, peer: seq<Resource>, local: seq<Resource>,
        i: nat)
    requires i < |local| && FilteredTo(before, peer, local[..i])
    requires var l := local[i];
      after == if l.uri !in before || !Supersedes(before[l.uri], l) then before - {l.uri} else before
    ensures FilteredTo(after, peer, local[..i + 1])
  {
  }

  // ---------------------------------------------------------------- what the decision means

  /** The result holds exactly the last peer entry of every uri that supersedes all local entries of that uri. */
  lemma NeedToSyncExact(peer: seq<Resource>, local: seq<Resource>, r: Resource)
    ensures r in NeedToSync(peer, local) <==>
            r.uri != [] && LastFor(peer, r.uri) == Some(r) && SupersedesAll(r, local, r.uri)
  {
    var us := Sorted(WantedUris(peer, local));
    WantedUrisAreKnown(peer, local);
    if r in NeedToSync(peer, local) {
      var i :| 0 <= i < |us| && r == LastFor(peer, us[i]).value;
      assert us[i] in us;
      LastForFacts(peer, us[i]);
    }
    if r.uri != [] && LastFor(peer, r.uri) == Some(r) && SupersedesAll(r, local, r.uri) {
      LastForFacts(peer, r.uri);
      var k :| 0 <= k < |peer| && peer[k].uri == r.uri;
      assert Wanted(peer, local, peer[k].uri);
      assert r.uri in us;
      var i :| 0 <= i < |us| && us[i] == r.uri;
      assert NeedToSync(peer, local)[i] == r;
    }
  }

  /** In uri order, and each uri at most once. */
  lemma NeedToSyncOrdered(peer: seq<Resource>, local: seq<Resource>, i: nat, j: nat)
    requires i < j < |NeedToSync(peer, local)|
    ensures Less(NeedToSync(peer, local)[i].uri, NeedToSync(peer, local)[j].uri)
  {
    var us := Sorted(WantedUris(peer, local));
    WantedUrisAreKnown(peer, local);
    LastForFacts(peer, us[i]);
    LastForFacts(peer, us[j]);
  }

  ghost predicate OneEntryEach(t: seq<Resource>) {
    forall i, j :: 0 <= i < j < |t| ==> t[i].uri != t[j].uri
  }

  lemma {:induction false} LastOfOne(t: seq<Resource>, r: Resource)
    requires OneEntryEach(t) && r in t
    ensures LastFor(t, r.uri) == Some(r)
  {
    var last := t[|t| - 1];
    if last.uri != r.uri {
      LastOfOne(t[..|t| - 1], r);
    } else {
      var k :| 0 <= k < |t| && t[k] == r;
      assert k == |t| - 1;
    }
  }

  /** Of two peers that both hold a uri, the receiver asks exactly when its copy is smaller, or as large but different. */
  lemma AsksExactly(sender: seq<Resource>, receiver: seq<Resource>, a: Resource, b: Resource)
    requires OneEntryEach(sender) && OneEntryEach(receiver)
    requires a in sender && b in receiver && a.uri == b.uri != []
    ensures a in NeedToSync(sender, receiver) <==> b.size < a.size || (b.size == a.size && b.hash != a.hash)
  {
    NeedToSyncExact(sender, receiver, a);
    LastOfOne(sender, a);
    var k :| 0 <= k < |receiver| && receiver[k] == b;
    assert forall i :: 0 <= i < |receiver| && receiver[i].uri == a.uri ==> i == k;
  }

  /** At different sizes exactly one of the two asks. */
  lemma ExactlyOneAsks(t: seq<Resource>, v: seq<Resource>, a: Resource, b: Resource)
    requires OneEntryEach(t) && OneEntryEach(v)
    requires a in t && b in v && a.uri == b.uri != [] && a.size != b.size
    ensures a in NeedToSync(t, v) <==> b !in NeedToSync(v, t)
  {
    AsksExactly(t, v, a, b);
    AsksExactly(v, t, b, a);
  }

  /** Once the receiver's file has the sender's size and hash, neither asks again. */
  lemma SettledAfterCopy(t: seq<Resource>, v: seq<Resource>, a: Resource, b: Resource)
    requires OneEntryEach(t) && OneEntryEach(v)
    requires a in t && b in v && a.uri == b.uri != [] && a.size == b.size && a.hash == b.hash
    ensures a !in NeedToSync(t, v) && b !in NeedToSync(v, t)
  {
    AsksExactly(t, v, a, b);
    AsksExactly(v, t, b, a);
  }
}
