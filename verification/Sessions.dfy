/**
 The connection registry and the sessions of one `ProtoServer`: what a HELLO, any other packet, a new connection and
 a lost connection do. SessionClass.dfy proves the mutable objects compute these functions.
 */
module Sessions {
  import opened Basics
  import opened NetAddr

  datatype State = DISCONNECT | CONNECTING | ESTABLISED | DISRUPTION

  /** What kind of endpoint a registered connection belongs to. */
  datatype Role = Client | Listener | Datagram

  /** A registered connection; `id` tells objects with the same address apart. */
  datatype Conn = Conn(addr: Addr, id: nat, role: Role)

  /** `cli` is the session's `TcpCli`. */
  datatype Session = Session(state: State, cli: Conn)
  {
    predicate IsMe(a: Addr) { cli.addr.Same(a) }
  }

  type Registry = map<Text, Conn>

  datatype Server = Server(
    sess: seq<Session>,
    ctxs: Registry,              // registered connections, by the text of their address
    acks: seq<Addr>,             // HELLO_ACKs written, in order
    core: seq<(Addr, uint8)>,    // packets handed to the core logic: sender and type
    next: nat,                   // identity of the next connection object
    up: bool)                    // whether the event loop runs

  const TYPE_HELLO: uint8 := 1
  const TYPE_EXIT: uint8 := 255

  // ---------------------------------------------------------------- the registry

  function Tcp(a: Addr): Addr {
    a.(kind := TCP)
  }

  function AddConn(r: Registry, c: Conn): Registry {
    r[Str(c.addr) := c]
  }

  function FindConn(r: Registry, a: Addr): Option<Conn> {
    if Str(a) in r then Some(r[Str(a)]) else None
  }

  /** `connectWithTcp`: whatever is registered is used again; otherwise `ok` says whether the connect succeeds. */
  function Connect(r: Registry, a: Addr, ok: bool, id: nat): (Option<Conn>, Registry) {
    if Str(a) in r then (Some(r[Str(a)]), r)
    else if ok then (Some(Conn(a, id, Client)), AddConn(r, Conn(a, id, Client)))
    else (None, r)
  }

  datatype RegOp = Add(conn: Conn) | Dial(addr: Addr, ok: bool, id: nat) | Erase(addr: Addr)
  {
    function Target(): Addr { if Add? then conn.addr else addr }
  }

  function RegStep(r: Registry, op: RegOp): Registry {
    match op
    case Add(c) => AddConn(r, c)
    case Dial(a, ok, id) => Connect(r, a, ok, id).1
    case Erase(a) => r - {Str(a)}
  }

  function RegRun(ops: seq<RegOp>): Registry {
    if ops == [] then map[] else RegStep(RegRun(ops[..|ops| - 1]), ops[|ops| - 1])
  }

  /** An address as the registry should tell it apart. */
  datatype Id = Id(ip: uint32, port: uint16, tcp: bool)

  function IdOf(a: Addr): Id {
    Id(a.ip, a.port, a.kind == TCP)
  }

  /** The registry one would write with structured keys. */
  function IdealStep(r: map<Id, Conn>, op: RegOp): map<Id, Conn> {
    match op
    case Add(c) => r[IdOf(c.addr) := c]
    case Dial(a, ok, id) => if IdOf(a) in r || !ok then r else r[IdOf(a) := Conn(a, id, Client)]
    case Erase(a) => r - {IdOf(a)}
  }

  function IdealRun(ops: seq<RegOp>): map<Id, Conn> {
    if ops == [] then map[] else IdealStep(IdealRun(ops[..|ops| - 1]), ops[|ops| - 1])
  }

  ghost predicate Simulates(r: Registry, ideal: map<Id, Conn>) {
    forall a: Addr :: FindConn(r, a) == if IdOf(a) in ideal then Some(ideal[IdOf(a)]) else None
  }

  lemma StrIsId(a: Addr, b: Addr)
    ensures Str(a) == Str(b) <==> IdOf(a) == IdOf(b)
  {
    StrInjective(a, b);
  }

  lemma RegStepSimulates(r: Registry, ideal: map<Id, Conn>, op: RegOp)
    requires Simulates(r, ideal)
    ensures Simulates(RegStep(r, op), IdealStep(ideal, op))
  {
    hide Str;
    var r1, ideal1 := RegStep(r, op), IdealStep(ideal, op);
    var b := op.Target();
    assert FindConn(r, b) == if IdOf(b) in ideal then Some(ideal[IdOf(b)]) else None;
    forall a: Addr ensures FindConn(r1, a) == if IdOf(a) in ideal1 then Some(ideal1[IdOf(a)]) else None {
      StrIsId(a, b);
      assert FindConn(r, a) == if IdOf(a) in ideal then Some(ideal[IdOf(a)]) else None;
    }
  }

  /**
   After any run of registrations, connects and removals the string-keyed registry answers every lookup as a registry
   keyed by address, port and transport would, and a connection found is one to the address asked for.
   */
  lemma RegistryFaithful(ops: seq<RegOp>, a: Addr)
    ensures FindConn(RegRun(ops), a) == if IdOf(a) in IdealRun(ops) then Some(IdealRun(ops)[IdOf(a)]) else None
    ensures FindConn(RegRun(ops), a).Some? ==> IdOf(FindConn(RegRun(ops), a).value.addr) == IdOf(a)
  {
    RegRunSimulates(ops);
    IdealKeys(ops);
  }

  lemma {:induction false} RegRunSimulates(ops: seq<RegOp>)
    ensures Simulates(RegRun(ops), IdealRun(ops))
  {
    if ops != [] {
      RegRunSimulates(ops[..|ops| - 1]);
      RegStepSimulates(RegRun(ops[..|ops| - 1]), IdealRun(ops[..|ops| - 1]), ops[|ops| - 1]);
    }
  }

  lemma {:induction false} IdealKeys(ops: seq<RegOp>)
    ensures forall id :: id in IdealRun(ops) ==> IdOf(IdealRun(ops)[id].addr) == id
  {
    if ops != [] { IdealKeys(ops[..|ops| - 1]); }
  }

  // ---------------------------------------------------------------- the server

  function SessionIndex(sess: seq<Session>, a: Addr): (i: nat)
    ensures i <= |sess|
    ensures i < |sess| ==> sess[i].IsMe(a)
    ensures forall j :: 0 <= j < i ==> !sess[j].IsMe(a)
  {
    if sess == [] || sess[0].IsMe(a) then 0 else 1 + SessionIndex(sess[1..], a)
  }

  /** `ProtoServer::rmSessionIfExist`: the first session of that peer goes. */
  function RmSession(sess: seq<Session>, a: Addr): seq<Session> {
    var i := SessionIndex(sess, a);
    if i < |sess| then sess[..i] + sess[i + 1..] else sess
  }

  /** `unRegister`, with the disconnect callback it runs for TCP addresses. */
  function UnRegister(s: Server, a: Addr): Server {
    if Str(a) !in s.ctxs then s
    else s.(sess := if a.kind == TCP then RmSession(s.sess, a) else s.sess, ctxs := s.ctxs - {Str(a)})
  }

  /** `ProtoSession::recv` in its established state. */
  function SessionRecv(s: Server, from: Addr, kind: uint8): Server {
    if kind == TYPE_HELLO then s else s.(core := s.core + [(from, kind)])
  }

  function OnHello(s: Server, from: Addr, port: uint16, ok: bool): Server {
    var peer := Addr(from.ip, port, TCP);
    if SessionIndex(s.sess, peer) < |s.sess| then SessionRecv(s, from, TYPE_HELLO)
    else
      var (cli, ctxs) := Connect(s.ctxs, peer, ok, s.next);
      match cli
      case None => UnRegister(s, peer)
      case Some(c) =>
        s.(sess := s.sess + [Session(ESTABLISED, c)], ctxs := ctxs, acks := s.acks + [c.addr],
           next := if ctxs == s.ctxs then s.next else s.next + 1)
  }

  /** Anything but a HELLO; EXIT ends the event loop. */
  function OnPacket(s: Server, from: Addr, kind: uint8): Server {
    if kind == TYPE_EXIT then s.(up := false)
    else if SessionIndex(s.sess, from) < |s.sess| then SessionRecv(s, from, kind)
    else
      match FindConn(s.ctxs, Tcp(from))
      case None => s
      case Some(c) => SessionRecv(s.(sess := s.sess + [Session(ESTABLISED, c)]), from, kind)
  }

  /** After a failed connect there is nothing to remove. */
  lemma FailedConnect(s: Server, a: Addr, ok: bool)
    ensures Connect(s.ctxs, a, ok, s.next).0.None? ==>
              UnRegister(s, a) == s && Connect(s.ctxs, a, ok, s.next).1 == s.ctxs
  {
  }

  function OnConn(s: Server, a: Addr, role: Role): Server {
    s.(ctxs := AddConn(s.ctxs, Conn(a, s.next, role)), next := s.next + 1)
  }

  datatype Event =
    | Hello(from: Addr, port: uint16, ok: bool)   // ok: the TCP connect would succeed
    | Packet(from: Addr, kind: uint8)             // any type but HELLO
    | NewConn(addr: Addr, role: Role)             // `addConn`, by the accept callback or for a server socket
    | LostConn(addr: Addr)                        // `unRegister`, by the event callback

  function Handle(s: Server, e: Event): Server {
    if !s.up then s
    else
      match e
      case Hello(from, port, ok) => OnHello(s, from, port, ok)
      case Packet(from, kind) => OnPacket(s, from, kind)
      case NewConn(a, role) => OnConn(s, a, role)
      case LostConn(a) => UnRegister(s, a)
  }

  function Serve(s: Server, es: seq<Event>): Server {
    if es == [] then s else Handle(Serve(s, es[..|es| - 1]), es[|es| - 1])
  }

  const IDLE: Server := Server([], map[], [], [], 0, true)

  // ---------------------------------------------------------------- invariant

  ghost predicate Faithful(r: Registry) {
    forall k :: k in r ==> Str(r[k].addr) == k
  }

  ghost predicate Live(t: Session, r: Registry) {
    t.state == ESTABLISED && t.cli.addr.kind == TCP && Str(t.cli.addr) in r
  }

  ghost predicate PeersDiffer(sess: seq<Session>) {
    forall i, j :: 0 <= i < j < |sess| ==> !sess[i].IsMe(sess[j].cli.addr)
  }

  ghost predicate Known(s: Server) {
    (forall k :: k in s.ctxs ==> s.ctxs[k].id < s.next) && (forall i :: 0 <= i < |s.sess| ==> s.sess[i].cli.id < s.next)
  }

  /** Every session is established and its address registered for TCP, and no two sessions share address and port. */
  ghost predicate Good(s: Server) {
    Faithful(s.ctxs) && (forall i :: 0 <= i < |s.sess| ==> Live(s.sess[i], s.ctxs)) && PeersDiffer(s.sess) && Known(s)
  }

  lemma FaithfulLookup(r: Registry, a: Addr)
    requires Faithful(r)
    ensures FindConn(r, a).Some? ==> FindConn(r, a).value.addr.Same(a) && (FindConn(r, a).value.addr.kind == TCP <==> a.kind == TCP)
  {
    if Str(a) in r { StrInjective(r[Str(a)].addr, a); }
  }

  /** Taking out the session of `a` leaves none, and takes no other. */
  lemma RmSessionLeavesNone(sess: seq<Session>, a: Addr)
    requires PeersDiffer(sess)
    ensures var r := RmSession(sess, a);
      && PeersDiffer(r)
      && (forall t :: t in r <==> t in sess && !t.IsMe(a))
      && |r| >= |sess| - 1
  {
    var i, r := SessionIndex(sess, a), RmSession(sess, a);
    forall t ensures t in r <==> t in sess && !t.IsMe(a) {
      if t in sess && !t.IsMe(a) {
        var k :| 0 <= k < |sess| && sess[k] == t;
        if i < |sess| { assert r[if k < i then k else k - 1] == t; }
      }
      if t in r && i < |sess| {
        var k :| 0 <= k < |r| && r[k] == t;
        var j := if k < i then k else k + 1;
        assert sess[j] == t;
        if k < i { assert !sess[k].IsMe(sess[i].cli.addr); } else { assert !sess[i].IsMe(sess[j].cli.addr); }
      }
    }
  }

  /** A session's connection is registered under the key of `a` exactly when it is a TCP connection to `a`. */
  lemma SameKey(t: Session, r: Registry, a: Addr)
    requires Live(t, r)
    ensures Str(t.cli.addr) == Str(a) <==> a.kind == TCP && t.IsMe(a)
  {
    StrInjective(t.cli.addr, a);
  }

  lemma UnRegisterGood(s: Server, a: Addr)
    requires Good(s)
    ensures Good(UnRegister(s, a))
    ensures a.kind == TCP ==> forall t :: t in UnRegister(s, a).sess ==> !t.IsMe(a)
    ensures forall t :: t in s.sess && !t.IsMe(a) ==> t in UnRegister(s, a).sess
  {
    hide Str;
    RmSessionLeavesNone(s.sess, a);
    var r := UnRegister(s, a);
    forall i | 0 <= i < |s.sess| ensures Str(s.sess[i].cli.addr) == Str(a) <==> a.kind == TCP && s.sess[i].IsMe(a) {
      SameKey(s.sess[i], s.ctxs, a);
    }
    forall i | 0 <= i < |r.sess| ensures Live(r.sess[i], r.ctxs) && r.sess[i].cli.id < r.next {
      assert r.sess[i] in r.sess;
      var k :| 0 <= k < |s.sess| && s.sess[k] == r.sess[i];
      assert Live(s.sess[k], s.ctxs);
    }
  }

  lemma NewSessionGood(s: Server, a: Addr, c: Conn, ctxs: Registry, next: nat)
    requires Good(s) && SessionIndex(s.sess, a) == |s.sess|
    requires Faithful(ctxs) && s.ctxs.Keys <= ctxs.Keys && next >= s.next && forall k :: k in ctxs ==> ctxs[k].id < next
    requires FindConn(ctxs, Tcp(a)) == Some(c)
    ensures Good(s.(sess := s.sess + [Session(ESTABLISED, c)], ctxs := ctxs, next := next))
  {
    hide Str;
    FaithfulLookup(ctxs, Tcp(a));
    assert Str(c.addr) == Str(Tcp(a));
    var sess := s.sess + [Session(ESTABLISED, c)];
    forall i | 0 <= i < |sess| ensures Live(sess[i], ctxs) && sess[i].cli.id < next {
      if i < |s.sess| { assert Live(s.sess[i], s.ctxs); }
    }
    forall i, j | 0 <= i < j < |sess| ensures !sess[i].IsMe(sess[j].cli.addr) {
      if j == |s.sess| { assert !s.sess[i].IsMe(a); }
    }
  }

  lemma AddConnFaithful(r: Registry, c: Conn)
    requires Faithful(r)
    ensures Faithful(AddConn(r, c))
  {
  }

  lemma HandleGood(s: Server, e: Event)
    requires Good(s)
    ensures Good(Handle(s, e))
  {
    hide Str;
    match e
    case Hello(from, port, ok) =>
      var peer := Addr(from.ip, port, TCP);
      if SessionIndex(s.sess, peer) == |s.sess| {
        var (cli, ctxs) := Connect(s.ctxs, peer, ok, s.next);
        if cli.Some? {
          AddConnFaithful(s.ctxs, Conn(peer, s.next, Client));
          NewSessionGood(s, peer, cli.value, ctxs, if ctxs == s.ctxs then s.next else s.next + 1);
        } else {
          UnRegisterGood(s, peer);
        }
      }
    case Packet(from, kind) =>
      if SessionIndex(s.sess, from) == |s.sess| && FindConn(s.ctxs, Tcp(from)).Some? {
        NewSessionGood(s, from, FindConn(s.ctxs, Tcp(from)).value, s.ctxs, s.next);
      }
    case NewConn(a, role) =>
      AddConnFaithful(s.ctxs, Conn(a, s.next, role));
      forall i | 0 <= i < |s.sess| ensures Live(s.sess[i], OnConn(s, a, role).ctxs) { assert Live(s.sess[i], s.ctxs); }
    case LostConn(a) => UnRegisterGood(s, a);
  }

  /** The invariant holds in every reachable state; in particular no session is ever met in its DISCONNECT state. */
  lemma {:induction false} ServerInvariant(es: seq<Event>)
    ensures Good(Serve(IDLE, es))
  {
    if es != [] {
      ServerInvariant(es[..|es| - 1]);
      HandleGood(Serve(IDLE, es[..|es| - 1]), es[|es| - 1]);
    }
  }

  // ---------------------------------------------------------------- whose connection it is

  ghost predicate Serves(s: Server, a: Addr) {
    exists i :: 0 <= i < |s.sess| && s.sess[i].IsMe(a)
  }

  /** Every session talks over the very connection that is registered for its peer. */
  ghost predicate AllOwned(s: Server) {
    forall i :: 0 <= i < |s.sess| ==> FindConn(s.ctxs, s.sess[i].cli.addr) == Some(s.sess[i].cli)
  }

  /** A connection is registered for a peer that has a session already. */
  ghost predicate Displaces(s: Server, e: Event) {
    s.up && e.NewConn? && e.addr.kind == TCP && Serves(s, e.addr)
  }

  lemma UnRegisterOwned(s: Server, a: Addr)
    requires Good(s) && AllOwned(s)
    ensures AllOwned(UnRegister(s, a))
  {
    hide Str;
    RmSessionLeavesNone(s.sess, a);
    var r := UnRegister(s, a);
    forall i | 0 <= i < |r.sess| ensures FindConn(r.ctxs, r.sess[i].cli.addr) == Some(r.sess[i].cli) {
      assert r.sess[i] in r.sess;
      var k :| 0 <= k < |s.sess| && s.sess[k] == r.sess[i];
      assert Live(s.sess[k], s.ctxs) && FindConn(s.ctxs, s.sess[k].cli.addr) == Some(s.sess[k].cli);
      SameKey(s.sess[k], s.ctxs, a);
    }
  }

  lemma ConnOwned(s: Server, a: Addr, role: Role)
    requires Good(s) && AllOwned(s)
    ensures AllOwned(OnConn(s, a, role)) <==> !(a.kind == TCP && Serves(s, a))
  {
    hide Str;
    var r := OnConn(s, a, role);
    forall i | 0 <= i < |s.sess|
      ensures FindConn(r.ctxs, r.sess[i].cli.addr) == Some(r.sess[i].cli) <==> !(a.kind == TCP && s.sess[i].IsMe(a))
    {
      assert Live(s.sess[i], s.ctxs) && FindConn(s.ctxs, s.sess[i].cli.addr) == Some(s.sess[i].cli);
      SameKey(s.sess[i], s.ctxs, a);
    }
  }

  /** Sessions keep owning their connections at exactly the events that register none for a peer with a session. */
  lemma OwnedExactly(s: Server, e: Event)
    requires Good(s) && AllOwned(s)
    ensures AllOwned(Handle(s, e)) <==> !Displaces(s, e)
  {
    hide Str;
    if s.up {
      match e
      case Hello(from, port, ok) =>
        var peer := Addr(from.ip, port, TCP);
        if SessionIndex(s.sess, peer) == |s.sess| {
          HelloOwned(s, from, port, ok);
        }
      case Packet(from, kind) =>
        if FindConn(s.ctxs, Tcp(from)).Some? { FaithfulKey(s.ctxs, Tcp(from)); }
      case NewConn(a, role) => ConnOwned(s, a, role);
      case LostConn(a) => UnRegisterOwned(s, a);
    }
  }

  lemma FaithfulKey(r: Registry, a: Addr)
    requires Faithful(r) && FindConn(r, a).Some?
    ensures Str(FindConn(r, a).value.addr) == Str(a)
  {
  }

  lemma HelloOwned(s: Server, from: Addr, port: uint16, ok: bool)
    requires Good(s) && AllOwned(s)
    ensures AllOwned(OnHello(s, from, port, ok))
  {
    hide Str;
    var peer, r := Addr(from.ip, port, TCP), OnHello(s, from, port, ok);
    if FindConn(s.ctxs, peer).Some? { FaithfulKey(s.ctxs, peer); }
    forall i | 0 <= i < |r.sess| ensures FindConn(r.ctxs, r.sess[i].cli.addr) == Some(r.sess[i].cli) {
      if i < |s.sess| { assert FindConn(s.ctxs, s.sess[i].cli.addr) == Some(s.sess[i].cli); }
    }
  }

  ghost predicate NeverDisplaces(es: seq<Event>) {
    es != [] ==> NeverDisplaces(es[..|es| - 1]) && !Displaces(Serve(IDLE, es[..|es| - 1]), es[|es| - 1])
  }

  /** Over every run that accepts no second connection from a peer with a session, each session owns its registered connection. */
  lemma {:induction false} OwnedThroughout(es: seq<Event>)
    requires NeverDisplaces(es)
    ensures AllOwned(Serve(IDLE, es))
  {
    if es != [] {
      OwnedThroughout(es[..|es| - 1]);
      ServerInvariant(es[..|es| - 1]);
      OwnedExactly(Serve(IDLE, es[..|es| - 1]), es[|es| - 1]);
    }
  }

  // ---------------------------------------------------------------- what kind of endpoint it is

  /** Every session talks over a client connection. */
  ghost predicate AllClients(s: Server) {
    forall i :: 0 <= i < |s.sess| ==> s.sess[i].cli.role == Client
  }

  /** The event makes a session over a registered endpoint that is no client: it comes from a listening address. */
  ghost predicate Misconnects(s: Server, e: Event) {
    && s.up && (e.Hello? || (e.Packet? && e.kind != TYPE_EXIT))
    && var a := if e.Hello? then Addr(e.from.ip, e.port, TCP) else e.from;
       !Serves(s, a) && FindConn(s.ctxs, Tcp(a)).Some? && FindConn(s.ctxs, Tcp(a)).value.role != Client
  }

  /** Sessions stay on client connections at exactly the events that do not come from a listening address. */
  lemma ClientsExactly(s: Server, e: Event)
    requires Good(s) && AllClients(s)
    ensures AllClients(Handle(s, e)) <==> !Misconnects(s, e)
  {
    hide Str;
    var r := Handle(s, e);
    if s.up {
      match e
      case Hello(from, port, ok) =>
        ServesIsFound(s, Addr(from.ip, port, TCP));
        if Misconnects(s, e) { assert r.sess[|s.sess|].cli.role != Client; }
      case Packet(from, kind) =>
        ServesIsFound(s, from);
        if Misconnects(s, e) { assert r.sess[|s.sess|].cli.role != Client; }
      case NewConn(a, role) =>
      case LostConn(a) =>
        forall i | 0 <= i < |r.sess| ensures r.sess[i].cli.role == Client { assert r.sess[i] in r.sess; RmSessionLeavesNone(s.sess, a); }
    }
  }

  /** A server that hears a HELLO from its own address, as from its own broadcast, acknowledges it to its own listening socket. */
  lemma OwnHelloMisconnects(ip: uint32, udp: uint16, tcp: uint16, ok: bool)
    ensures var own := Addr(ip, tcp, TCP);
      var s := Serve(IDLE, [NewConn(own, Listener), Hello(Addr(ip, udp, UDP), tcp, ok)]);
      s.sess == [Session(ESTABLISED, Conn(own, 0, Listener))] && s.acks == [own]
  {
    hide Str;
    var own := Addr(ip, tcp, TCP);
    var es := [NewConn(own, Listener), Hello(Addr(ip, udp, UDP), tcp, ok)];
    assert es[..1][..0] == [] && Serve(IDLE, []) == IDLE;
    assert Serve(IDLE, es[..1]) == Handle(IDLE, es[0]);
    assert Serve(IDLE, es) == Handle(Serve(IDLE, es[..1]), es[1]);
  }

  // ---------------------------------------------------------------- what the invariant buys

  lemma ServesIsFound(s: Server, a: Addr)
    ensures Serves(s, a) <==> SessionIndex(s.sess, a) < |s.sess|
  {
  }

  /**
   A HELLO is answered exactly when its peer has no session and can be connected: then one session is made and one
   HELLO_ACK is written, to that peer. Any other HELLO changes nothing at all, so repeating one is harmless.
   */
  lemma HelloAnsweredOnce(es: seq<Event>, from: Addr, port: uint16, ok: bool)
    ensures var s, peer := Serve(IDLE, es), Addr(from.ip, port, TCP);
      var r := OnHello(s, from, port, ok);
      && (Serves(s, peer) || (!ok && FindConn(s.ctxs, peer).None?) ==> r == s)
      && (!Serves(s, peer) && (ok || FindConn(s.ctxs, peer).Some?) ==>
            Serves(r, peer) && |r.sess| == |s.sess| + 1 && s.sess <= r.sess
            && FindConn(r.ctxs, peer) == Some(r.sess[|s.sess|].cli)
            && s.acks <= r.acks && |r.acks| == |s.acks| + 1 && r.acks[|s.acks|].Same(peer) && r.core == s.core)
      && (forall ok2 :: Serves(r, peer) ==> OnHello(r, from, port, ok2) == r)
  {
    hide Str;
    var s, peer := Serve(IDLE, es), Addr(from.ip, port, TCP);
    ServerInvariant(es);
    ServesIsFound(s, peer);
    var r := OnHello(s, from, port, ok);
    ServesIsFound(r, peer);
    var (cli, ctxs) := Connect(s.ctxs, peer, ok, s.next);
    if !Serves(s, peer) && cli.Some? {
      FaithfulLookup(s.ctxs, peer);
      assert cli.value.addr.Same(peer);
      assert r.sess[|s.sess|].IsMe(peer);
    }
  }

  /** HELLO_ACKs are written for nothing but a HELLO. */
  lemma OnlyHelloIsAcked(s: Server, e: Event)
    ensures !e.Hello? ==> Handle(s, e).acks == s.acks
    ensures |Handle(s, e).acks| - |s.acks| == (if e.Hello? && |Handle(s, e).sess| > |s.sess| then 1 else 0)
  {
  }

  /** A lost TCP connection takes its session with it, and no other. */
  lemma LostConnectionEndsSession(es: seq<Event>, a: Addr)
    requires a.kind == TCP && Serve(IDLE, es).up
    ensures var s := Serve(IDLE, es);
      var r := Handle(s, LostConn(a));
      !Serves(r, a) && FindConn(r.ctxs, a).None? && forall t :: t in s.sess && !t.IsMe(a) ==> t in r.sess
  {
    ServerInvariant(es);
    var s := Serve(IDLE, es);
    UnRegisterGood(s, a);
    var r := Handle(s, LostConn(a));
    forall i | 0 <= i < |r.sess| ensures !r.sess[i].IsMe(a) {
      assert r.sess[i] in r.sess;
    }
  }

  // ---------------------------------------------------------------- what reaches the core logic

  /**
   A packet that is neither HELLO nor EXIT reaches the core logic exactly when its sender has a session or a registered
   TCP connection. A known sender's packet changes nothing else; a connected stranger's also makes its session, over the
   registered connection; any other packet changes nothing.
   */
  lemma PacketReachesCore(es: seq<Event>, from: Addr, kind: uint8)
    requires Serve(IDLE, es).up && kind != 1 && kind != 255
    ensures var s := Serve(IDLE, es);
      var r, link := Handle(s, Packet(from, kind)), FindConn(s.ctxs, Addr(from.ip, from.port, TCP));
      && (r.core == s.core + [(from, kind)] <==> Serves(s, from) || link.Some?)
      && (Serves(s, from) ==> r == s.(core := s.core + [(from, kind)]))
      && (!Serves(s, from) && link.Some? ==>
            r == s.(sess := s.sess + [Session(ESTABLISED, link.value)], core := s.core + [(from, kind)]))
      && (!Serves(s, from) && link.None? ==> r == s)
  {
    ServesIsFound(Serve(IDLE, es), from);
  }

  /** EXIT stops the event loop and does nothing else, and a stopped loop handles nothing more. */
  lemma {:induction false} ExitStopsEverything(s: Server, from: Addr, more: seq<Event>)
    ensures Serve(Handle(s, Packet(from, 255)), more) == s.(up := false)
  {
    if more != [] { ExitStopsEverything(s, from, more[..|more| - 1]); }
  }

  /** The types of the packets of `a` among those handed to the core logic. */
  function CoreFrom(core: seq<(Addr, uint8)>, a: Addr): seq<uint8> {
    if core == [] then []
    else
      var (from, kind) := core[|core| - 1];
      CoreFrom(core[..|core| - 1], a) + if from.Same(a) then [kind] else []
  }

  /** The types of the packets that `a` sends, without HELLOs. */
  function SentFrom(es: seq<Event>, a: Addr): seq<uint8> {
    if es == [] then []
    else
      var e := es[|es| - 1];
      SentFrom(es[..|es| - 1], a) + if e.Packet? && e.from.Same(a) && e.kind != TYPE_HELLO then [e.kind] else []
  }

  /** The event stops the loop or takes the connection of `a` away. */
  predicate Ends(e: Event, a: Addr) {
    match e
    case Packet(_, kind) => kind == TYPE_EXIT
    case LostConn(b) => b.kind == TCP && b.Same(a)
    case _ => false
  }

  lemma CoreFromStep(core: seq<(Addr, uint8)>, from: Addr, kind: uint8, a: Addr)
    ensures CoreFrom(core + [(from, kind)], a) == CoreFrom(core, a) + if from.Same(a) then [kind] else []
  {
    assert (core + [(from, kind)])[..|core|] == core;
  }

  lemma KnownPeerStep(s: Server, e: Event, a: Addr)
    requires Good(s) && s.up && Serves(s, a) && !Ends(e, a)
    ensures var r := Handle(s, e); r.up && Serves(r, a)
    ensures CoreFrom(Handle(s, e).core, a)
         == CoreFrom(s.core, a) + if e.Packet? && e.from.Same(a) && e.kind != TYPE_HELLO then [e.kind] else []
  {
    hide Str, CoreFrom;
    var i :| 0 <= i < |s.sess| && s.sess[i].IsMe(a);
    var r := Handle(s, e);
    match e
    case Hello(from, port, ok) =>
      FailedConnect(s, Addr(from.ip, port, TCP), ok);
      assert r.sess[i] == s.sess[i];
    case Packet(from, kind) =>
      ServesIsFound(s, from);
      CoreFromStep(s.core, from, kind, a);
      assert r.sess[i] == s.sess[i];
    case NewConn(b, role) => assert r.sess[i] == s.sess[i];
    case LostConn(b) =>
      UnRegisterGood(s, b);
      if b.kind == TCP { assert s.sess[i] in r.sess; } else { assert r.sess[i] == s.sess[i]; }
  }

  /**
   Once a peer has a session, each packet it sends reaches the core logic, once and in order, until its connection is
   lost or the loop stops, whatever other peers do in between.
   */
  lemma {:induction false} KnownPeerIsHeard(es: seq<Event>, more: seq<Event>, a: Addr)
    requires Serve(IDLE, es).up && Serves(Serve(IDLE, es), a)
    requires forall i :: 0 <= i < |more| ==> !Ends(more[i], a)
    ensures var r := Serve(Serve(IDLE, es), more);
      Good(r) && r.up && Serves(r, a) && CoreFrom(r.core, a) == CoreFrom(Serve(IDLE, es).core, a) + SentFrom(more, a)
  {
    hide Handle, Good, CoreFrom;
    if more == [] {
      ServerInvariant(es);
    } else {
      var s := Serve(Serve(IDLE, es), more[..|more| - 1]);
      KnownPeerIsHeard(es, more[..|more| - 1], a);
      HandleGood(s, more[|more| - 1]);
      KnownPeerStep(s, more[|more| - 1], a);
    }
  }

  /** What each event makes of the registry, entry by entry, and that connections come and go without a word to core or peers. */
  lemma RegistryAfter(s: Server, e: Event, b: Addr)
    requires s.up
    ensures var r := Handle(s, e);
      FindConn(r.ctxs, b) == match e
        case NewConn(a, role) => if IdOf(a) == IdOf(b) then Some(Conn(a, s.next, role)) else FindConn(s.ctxs, b)
        case LostConn(a) => if IdOf(a) == IdOf(b) then None else FindConn(s.ctxs, b)
        case Packet(_, _) => FindConn(s.ctxs, b)
        case Hello(from, port, ok) =>
          var peer := Addr(from.ip, port, TCP);
          if ok && !Serves(s, peer) && FindConn(s.ctxs, peer).None? && IdOf(peer) == IdOf(b)
          then Some(Conn(peer, s.next, Client)) else FindConn(s.ctxs, b)
    ensures e.NewConn? ==> Handle(s, e).sess == s.sess
    ensures e.NewConn? || e.LostConn? ==> Handle(s, e).core == s.core && Handle(s, e).acks == s.acks && Handle(s, e).up
    ensures e.LostConn? && e.addr.kind != TCP ==> Handle(s, e).sess == s.sess
  {
    hide Str;
    match e
    case NewConn(a, role) => StrIsId(a, b);
    case LostConn(a) => StrIsId(a, b);
    case Packet(_, _) =>
    case Hello(from, port, ok) =>
      var peer := Addr(from.ip, port, TCP);
      StrIsId(peer, b);
      ServesIsFound(s, peer);
      FailedConnect(s, peer, ok);
  }
}
