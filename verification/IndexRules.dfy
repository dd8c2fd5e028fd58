/** What an index makes a node announce, told from the node's files and the peer's table alone. */
module IndexRules {
  import opened Basics
  import opened NetAddr
  import opened TextOrder
  import opened Scheduler
  import opened Partition
  import opened Operations
  import opened SyncDecision
  import opened Transfer
  import opened Records
  import opened Stall

  /** The peer's last entry for `u`, when the local file is absent, shorter, or as long with another hash. */
  function WantedEntry(files: map<Text, seq<byte>>, table: seq<Resource>, h: Hash, u: Text): Option<Resource> {
    match LastFor(table, u)
    case None => None
    case Some(r) =>
      if u != [] && (u !in files || |files[u]| < r.size || (|files[u]| == r.size && h(files[u]) != r.hash)) then Some(r) else None
  }

  lemma ListedFile(files: map<Text, seq<byte>>, h: Hash, k: nat)
    requires k < |Listing(files, h)|
    ensures var e := Listing(files, h)[k];
      e.uri in files && e.size == |files[e.uri]| && e.hash == h(files[e.uri])
  {
  }

  lemma FileListed(files: map<Text, seq<byte>>, h: Hash, u: Text) returns (k: nat)
    requires u in files
    ensures k < |Listing(files, h)| && Listing(files, h)[k].uri == u
  {
    var us := Sorted(files.Keys);
    k :| 0 <= k < |us| && us[k] == u;
  }

  /** The decision an index is acted on contains exactly the entries worth fetching over the files as they are. */
  lemma IndexWants(files: map<Text, seq<byte>>, table: seq<Resource>, h: Hash, r: Resource)
    ensures r in NeedToSync(table, Listing(files, h)) <==>
              r.uri != [] && LastFor(table, r.uri) == Some(r)
              && (r.uri !in files || |files[r.uri]| < r.size || (|files[r.uri]| == r.size && h(files[r.uri]) != r.hash))
  {
    hide Listing, NeedToSync;
    var local := Listing(files, h);
    NeedToSyncExact(table, local, r);
    forall k | 0 <= k < |local|
      ensures local[k].uri in files && local[k].size == |files[local[k].uri]| && local[k].hash == h(files[local[k].uri])
    {
      ListedFile(files, h, k);
    }
    if r.uri in files {
      var k := FileListed(files, h, r.uri);
      if SupersedesAll(r, local, r.uri) { assert Supersedes(r, local[k]); }
    }
  }

  // ---------------------------------------------------------------- the table after an index

  /** The record of `u` after an announcement of `e` by `from`. */
  function RecordAfter(o: Option<ResourceInfo>, e: Resource, from: Addr): ResourceInfo {
    if o.None? || o.value.size < e.size then ResourceInfo(e.uri, e.hash, e.size, [from])
    else if o.value.size == e.size then ResourceInfo(e.uri, o.value.hash, e.size, o.value.owners + [from])
    else o.value
  }

  function Record(s: Sched, u: Text): Option<ResourceInfo> {
    if u in s.res then Some(s.res[u]) else None
  }

  lemma AnnouncedRecordOf(s: Sched, e: Resource, from: Addr, dead: set<Addr>, u: Text)
    requires Partitioned(s)
    ensures var r := AddResource(s, e.uri, e.hash, e.size, from, dead);
      Partitioned(r) && Record(r, u) == if u == e.uri then Some(RecordAfter(Record(s, u), e, from)) else Record(s, u)
  {
    hide AddResource, Partitioned;
    AnnouncedRecord(s, e.uri, e.hash, e.size, from, dead);
    AddResourceKeeps(s, e.uri, e.hash, e.size, from, dead);
  }

  ghost predicate DistinctUris(rs: seq<Resource>) {
    forall i, j :: 0 <= i < j < |rs| ==> rs[i].uri != rs[j].uri
  }

  lemma {:induction false} AllRecords(s: Sched, rs: seq<Resource>, k: nat, from: Addr, dead: set<Addr>, u: Text)
    requires Partitioned(s) && k <= |rs| && DistinctUris(rs)
    ensures var r := AddAll(s, rs, k, from, dead);
      && Partitioned(r)
      && ((forall i :: 0 <= i < k ==> rs[i].uri != u) ==> Record(r, u) == Record(s, u))
      && (forall i :: 0 <= i < k && rs[i].uri == u ==> Record(r, u) == Some(RecordAfter(Record(s, u), rs[i], from)))
  {
    hide AddResource, Partitioned, RecordAfter, Record;
    if k > 0 {
      AllRecords(s, rs, k - 1, from, dead, u);
      AnnouncedRecordOf(AddAll(s, rs, k - 1, from, dead), rs[k - 1], from, dead, u);
    }
  }

  /**
   After an index the record of every uri is what one announcement of its wanted entry makes of it, and unchanged when
   there is none: every wanted file is announced once, and nothing else is.
   */
  lemma IndexRecords(n: Node, from: Addr, table: seq<Resource>, h: Hash, dead: set<Addr>, u: Text)
    requires Partitioned(n.sched)
    ensures var r, e := RecvIdx(n, from, table, h, dead), WantedEntry(n.files, table, h, u);
      && r.files == n.files
      && Record(r.sched, u) == if e.Some? then Some(RecordAfter(Record(n.sched, u), e.value, from)) else Record(n.sched, u)
  {
    hide Record, RecordAfter, NeedToSync, AddAll, Partitioned, Listing;
    var need := NeedToSync(table, Listing(n.files, h));
    forall i, j | 0 <= i < j < |need| ensures need[i].uri != need[j].uri {
      NeedToSyncOrdered(table, Listing(n.files, h), i, j);
      LessTotal(need[i].uri, need[i].uri);
    }
    AllRecords(n.sched, need, |need|, from, dead, u);
    var e := WantedEntry(n.files, table, h, u);
    LastForFacts(table, u);
    if e.Some? {
      IndexWants(n.files, table, h, e.value);
      var i :| 0 <= i < |need| && need[i] == e.value;
    } else {
      forall i | 0 <= i < |need| ensures need[i].uri != u {
        assert need[i] in need;
        IndexWants(n.files, table, h, need[i]);
      }
    }
  }

  // ---------------------------------------------------------------- in what order

  lemma AnnounceExtends(s: Sched, e: Resource, from: Addr, dead: set<Addr>)
    requires Partitioned(s)
    ensures var r := AddResource(s, e.uri, e.hash, e.size, from, dead); Partitioned(r) && s.out <= r.out
  {
    hide Tick, Replan, Partitioned;
    AddResourceKeeps(s, e.uri, e.hash, e.size, from, dead);
    var a := Announce(s, e.uri, e.hash, e.size, from);
    if a.Some? {
      AnnounceOwned(s, e.uri, e.hash, e.size, from);
      ReplanKeeps(a.value, a.value.res[e.uri]);
      ReplanOut(a.value, a.value.res[e.uri]);
      TickAsksOwners(Replan(a.value, a.value.res[e.uri]), 0, dead);
    }
  }

  lemma {:induction false} AllExtend(s: Sched, rs: seq<Resource>, j: nat, k: nat, from: Addr, dead: set<Addr>)
    requires Partitioned(s) && j <= k <= |rs|
    ensures Partitioned(AddAll(s, rs, k, from, dead)) && AddAll(s, rs, j, from, dead).out <= AddAll(s, rs, k, from, dead).out
    decreases k
  {
    hide AddResource, Partitioned;
    if k > j {
      AllExtend(s, rs, j, k - 1, from, dead);
      AnnounceExtends(AddAll(s, rs, k - 1, from, dead), rs[k - 1], from, dead);
    } else if k > 0 {
      AllExtend(s, rs, k - 1, k - 1, from, dead);
      AnnounceExtends(AddAll(s, rs, k - 1, from, dead), rs[k - 1], from, dead);
    }
  }

  /** On a node with nothing to do the first request an index draws is for the first wanted uri. */
  lemma IndexAsksFirstUriFirst(n: Node, from: Addr, table: seq<Resource>, h: Hash, dead: set<Addr>, e: Resource)
    requires n.sched == EMPTY && WantedEntry(n.files, table, h, e.uri) == Some(e) && PlanCount(e.size) > 0
    requires forall u :: WantedEntry(n.files, table, h, u).Some? && u != e.uri ==> Less(e.uri, u)
    ensures var out := RecvIdx(n, from, table, h, dead).sched.out; out != [] && out[0].uri == e.uri
  {
    hide NeedToSync, AddResource, AddAll, Listing;
    var need := NeedToSync(table, Listing(n.files, h));
    LastForFacts(table, e.uri);
    IndexWants(n.files, table, h, e);
    FirstNeeded(n.files, table, h, e);
    FirstAnnounced(need, from, dead);
    AllExtend(EMPTY, need, 1, |need|, from, dead);
  }

  lemma FirstNeeded(files: map<Text, seq<byte>>, table: seq<Resource>, h: Hash, e: Resource)
    requires WantedEntry(files, table, h, e.uri) == Some(e) && e in NeedToSync(table, Listing(files, h))
    requires forall u :: WantedEntry(files, table, h, u).Some? && u != e.uri ==> Less(e.uri, u)
    ensures NeedToSync(table, Listing(files, h))[0] == e
  {
    hide NeedToSync, Listing;
    var need := NeedToSync(table, Listing(files, h));
    var i :| 0 <= i < |need| && need[i] == e;
    if i > 0 {
      assert need[0] in need;
      IndexWants(files, table, h, need[0]);
      NeedToSyncOrdered(table, Listing(files, h), 0, i);
      LessTotal(need[0].uri, e.uri);
      LessTotal(e.uri, e.uri);
      assert false;
    }
  }

  lemma FirstAnnounced(need: seq<Resource>, from: Addr, dead: set<Addr>)
    requires need != [] && PlanCount(need[0].size) > 0
    ensures var out := AddAll(EMPTY, need, 1, from, dead).out; out != [] && out[0].uri == need[0].uri
  {
    hide Tick, Replan, PlanCount;
    var e := need[0];
    assert AddAll(EMPTY, need, 0, from, dead) == EMPTY;
    AnnounceOwned(EMPTY, e.uri, e.hash, e.size, from);
    var a := Announce(EMPTY, e.uri, e.hash, e.size, from).value;
    NewPlanWaits(a, a.res[e.uri]);
    var p := Replan(a, a.res[e.uri]);
    ReplanRes(a, a.res[e.uri]);
    TickSends(p, Slot(e.uri, 0), 0, dead);
    TickAsksOwners(p, 0, dead);
    assert AsksOwner(p, Tick(p, 0, dead).out[0], dead);
  }
}
