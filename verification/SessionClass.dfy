/** The mutable registry, sessions and server, proved against Sessions.dfy. */
module SessionClass {
  import opened Basics
  import opened NetAddr
  import M = Sessions

  /** A `TcpCli`, or any other endpoint, with the address of its peer. `id` is the identity of the object. */
  class Endpoint {
    const peer: Addr
    const id: nat
    const role: M.Role

    constructor (peer: Addr, id: nat, role: M.Role)
      ensures this.peer == peer && this.id == id && this.role == role
    {
      this.peer, this.id, this.role := peer, id, role;
    }

    function View(): M.Conn {
      M.Conn(peer, id, role)
    }
  }

  /** The part of `NetFrameworkEngineBaseEvent` that keeps connections, and what was written on them. */
  class Engine {
    var ctxs: map<Text, Endpoint>
    var acks: seq<Addr>
    var next: nat
    var up: bool
    ghost var made: set<Endpoint>   // every endpoint so far

    ghost predicate Valid()
      reads this
    {
      && (forall k :: k in ctxs ==> ctxs[k] in made)
      && (forall e :: e in made ==> e.id < next)
      && (forall e, f :: e in made && f in made && e.id == f.id ==> e == f)
    }

    ghost function View(): M.Registry
      reads this
    {
      map k | k in ctxs :: ctxs[k].View()
    }

    constructor ()
      ensures Valid() && View() == map[] && acks == [] && next == 0 && up && made == {}
    {
      ctxs, acks, next, up := map[], [], 0, true;
      made := {};
    }

    /** A new connection object is registered, over any that its key had. */
    method AddConn(peer: Addr, role: M.Role) returns (e: Endpoint)
      requires Valid()
      modifies this`ctxs, this`next, this`made
      ensures Valid() && e.View() == M.Conn(peer, old(next), role) && e !in old(made) && e in made && old(made) <= made
      ensures View() == M.AddConn(old(View()), e.View()) && next == old(next) + 1
      ensures ctxs == old(ctxs)[Str(peer) := e]
    {
      e := new Endpoint(peer, next, role);
      ctxs := ctxs[Str(peer) := e];
      next := next + 1;
      made := made + {e};
    }

    method FindTcpCli(a: Addr) returns (e: Endpoint?)
      requires Valid()
      ensures e == if Str(a) in ctxs then ctxs[Str(a)] else null
      ensures (if e == null then None else Some(e.View())) == M.FindConn(View(), a)
      ensures e != null ==> e in made
    {
      if Str(a) in ctxs {
        return ctxs[Str(a)];
      }
      return null;
    }

    method ConnectWithTcp(a: Addr, ok: bool) returns (e: Endpoint?)
      requires Valid()
      modifies this`ctxs, this`next, this`made
      ensures Valid() && old(made) <= made && (e != null ==> e in made)
      ensures (if e == null then None else Some(e.View()), View()) == M.Connect(old(View()), a, ok, old(next))
      ensures next == if View() == old(View()) then old(next) else old(next) + 1
    {
      e := FindTcpCli(a);
      if e != null || !ok {
        return;
      }
      e := AddConn(a, M.Client);
      assert Str(a) in View() && Str(a) !in old(View());
    }

    method WriteHelloAck(e: Endpoint)
      modifies this`acks
      ensures acks == old(acks) + [e.peer]
    {
      acks := acks + [e.peer];
    }

    method Erase(a: Addr)
      requires Valid()
      modifies this`ctxs
      ensures Valid() && View() == old(View()) - {Str(a)} && ctxs == old(ctxs) - {Str(a)}
    {
      ctxs := ctxs - {Str(a)};
    }

    method Shutdown()
      modifies this`up
      ensures !up
    {
      up := false;
    }
  }

  /** The core logic, reduced to the packets it was given. */
  class CoreLogic {
    var core: seq<(Addr, uint8)>

    constructor ()
      ensures core == []
    {
      core := [];
    }

    method Recv(from: Addr, kind: uint8)
      modifies this
      ensures core == old(core) + [(from, kind)]
    {
      core := core + [(from, kind)];
    }
  }

  class ProtoSession {
    var state: M.State
    var tcli: Endpoint?
    const logic: CoreLogic

    constructor (logic: CoreLogic)
      ensures this.logic == logic && state == M.DISCONNECT && tcli == null
    {
      state, tcli := M.DISCONNECT, null;
      this.logic := logic;
    }

    predicate Established()
      reads this
    {
      state == M.ESTABLISED && tcli != null
    }

    function View(): M.Session
      reads this
      requires tcli != null
    {
      M.Session(state, tcli.View())
    }

    method IsMe(a: Addr) returns (me: bool)
      requires tcli != null
      ensures me == tcli.peer.Same(a)
    {
      return tcli.peer.Same(a);
    }

    /** Only an established session is ever asked: its DISCONNECT branch is dead. */
    method Recv(from: Addr, kind: uint8)
      requires Established()
      modifies logic
      ensures logic.core == if kind == M.TYPE_HELLO then old(logic.core) else old(logic.core) + [(from, kind)]
    {
      match state
      case DISCONNECT => assert false;
      case ESTABLISED =>
        if kind == M.TYPE_HELLO {
          return;
        }
        logic.Recv(from, kind);
      case DISRUPTION => assert false;
      case CONNECTING => assert false;
    }

    /** Attach to a connection the peer opened. */
    method Bind(from: Addr, eng: Engine) returns (done: bool)
      requires tcli == null && eng.Valid()
      modifies this
      ensures done <==> M.FindConn(eng.View(), M.Tcp(from)).Some?
      ensures done ==> Established() && tcli in eng.made
                       && View() == M.Session(M.ESTABLISED, M.FindConn(eng.View(), M.Tcp(from)).value)
    {
      tcli := eng.FindTcpCli(M.Tcp(from));
      if tcli == null {
        return false;
      }
      state := M.ESTABLISED;
      return true;
    }

    /** Connect to the peer that said HELLO, and acknowledge. */
    method Call(from: Addr, port: uint16, ok: bool, eng: Engine) returns (done: bool)
      requires tcli == null && eng.Valid()
      modifies this, eng`ctxs, eng`next, eng`made, eng`acks
      ensures eng.Valid() && old(eng.made) <= eng.made && (done <==> tcli != null)
      ensures (if tcli != null then Some(tcli.View()) else None, eng.View())
           == M.Connect(old(eng.View()), Addr(from.ip, port, TCP), ok, old(eng.next))
      ensures eng.next == if eng.View() == old(eng.View()) then old(eng.next) else old(eng.next) + 1
      ensures done ==> Established() && tcli in eng.made && eng.acks == old(eng.acks) + [tcli.peer]
      ensures !done ==> eng.acks == old(eng.acks)
    {
      state := M.CONNECTING;
      tcli := eng.ConnectWithTcp(Addr(from.ip, port, TCP), ok);
      if tcli == null {
        return false;   // unRegister finds nothing to remove
      }
      eng.WriteHelloAck(tcli);
      state := M.ESTABLISED;
      return true;
    }
  }

  class ProtoServer {
    const eng: Engine
    const logic: CoreLogic
    var sess: seq<ProtoSession>

    ghost predicate Valid()
      reads this, sess, eng
    {
      eng.Valid() && forall i :: 0 <= i < |sess| ==> sess[i].Established() && sess[i].logic == logic && sess[i].tcli in eng.made
    }

    /** The registered connection of the session's peer is the session's own. */
    ghost predicate Owns(s: ProtoSession)
      reads this, s, eng
    {
      s.tcli != null && Str(s.tcli.peer) in eng.ctxs && eng.ctxs[Str(s.tcli.peer)] == s.tcli
    }

    /** What the sessions' view calls owning a connection is owning the object. */
    lemma OwnsExactly(s: ProtoSession)
      requires Valid() && s in sess
      ensures Owns(s) <==> M.FindConn(eng.View(), s.tcli.peer) == Some(s.tcli.View())
    {
    }

    ghost function View(): M.Server
      reads this, sess, eng, logic
      requires Valid()
    {
      M.Server(Views(sess), eng.View(), eng.acks, logic.core, eng.next, eng.up)
    }

    constructor ()
      ensures Valid() && View() == M.IDLE && fresh(eng) && fresh(logic)
    {
      eng := new Engine();
      logic := new CoreLogic();
      sess := [];
    }

    /** Index of the session of `a`, or the number of sessions. */
    method FindSession(a: Addr) returns (i: nat)
      requires Valid()
      ensures i == M.SessionIndex(Views(sess), a) <= |sess|
    {
      i := 0;
      while i < |sess|
        invariant i <= |sess|
        invariant forall j :: 0 <= j < i ==> !sess[j].View().IsMe(a)
      {
        var me := sess[i].IsMe(a);
        if me {
          return;
        }
        i := i + 1;
      }
    }

    method RmSessionIfExist(a: Addr) returns (found: bool)
      requires Valid()
      modifies this`sess
      ensures Valid() && Views(sess) == M.RmSession(old(Views(sess)), a)
    {
      hide Views;
      var i := FindSession(a);
      found := i < |sess|;
      if found {
        ViewsWithout(sess, i);
        sess := sess[..i] + sess[i + 1..];
      }
    }

    /** `unRegister`: the callback runs before the entry goes. */
    method UnRegister(a: Addr)
      requires Valid()
      modifies this`sess, eng`ctxs
      ensures Valid() && View() == M.UnRegister(old(View()), a)
    {
      hide Views, Str, M.RmSession;
      if Str(a) in eng.ctxs {
        if a.kind == TCP {
          var found := RmSessionIfExist(a);
        }
        eng.Erase(a);
      }
    }

    /** `addConn`, by the accept callback or for a server socket. */
    method NewConn(a: Addr, role: M.Role)
      requires Valid()
      modifies eng`ctxs, eng`next, eng`made
      ensures Valid() && View() == M.OnConn(old(View()), a, role)
    {
      var e := eng.AddConn(a, role);
    }

    method RecvHello(from: Addr, port: uint16, ok: bool)
      requires Valid()
      modifies this`sess, eng`ctxs, eng`next, eng`made, eng`acks, logic
      ensures Valid() && View() == M.OnHello(old(View()), from, port, ok)
    {
      hide Views, Str, M.SessionIndex;
      var i := FindSession(Addr(from.ip, port, TCP));
      if i < |sess| {
        Pass(sess[i], from, M.TYPE_HELLO);
      } else {
        Greet(from, port, ok);
      }
    }

    /** A HELLO from a peer without a session. */
    method Greet(from: Addr, port: uint16, ok: bool)
      requires Valid() && M.SessionIndex(Views(sess), Addr(from.ip, port, TCP)) == |sess|
      modifies this`sess, eng`ctxs, eng`next, eng`made, eng`acks
      ensures Valid() && View() == M.OnHello(old(View()), from, port, ok)
    {
      hide Views, Str, M.SessionIndex, M.SessionRecv, M.UnRegister, M.Connect, Engine.Valid, Engine.View;
      M.FailedConnect(old(View()), Addr(from.ip, port, TCP), ok);
      var s := new ProtoSession(logic);
      var done := s.Call(from, port, ok, eng);
      assert Valid() && Views(sess) == old(Views(sess));
      if done {
        Push(s);
      }
    }

    method Push(s: ProtoSession)
      requires Valid() && s.Established() && s.logic == logic && s.tcli in eng.made
      modifies this`sess
      ensures Valid() && sess == old(sess) + [s]
      ensures View() == old(View()).(sess := old(Views(sess)) + [s.View()])
    {
      hide Views;
      ViewsAppend(sess, s);
      sess := sess + [s];
    }

    method Pass(s: ProtoSession, from: Addr, kind: uint8)
      requires Valid() && s in sess
      modifies logic
      ensures Valid() && View() == M.SessionRecv(old(View()), from, kind)
    {
      s.Recv(from, kind);
    }

    method RecvPacket(from: Addr, kind: uint8)
      requires Valid()
      modifies this`sess, eng`up, logic
      ensures Valid() && View() == M.OnPacket(old(View()), from, kind)
    {
      if kind == M.TYPE_EXIT {
        eng.Shutdown();
        return;
      }
      hide Views, Str, M.SessionIndex, M.SessionRecv;
      var i := FindSession(from);
      if i < |sess| {
        Pass(sess[i], from, kind);
      } else {
        Meet(from, kind);
      }
    }

    /** A packet from a peer without a session. */
    method Meet(from: Addr, kind: uint8)
      requires Valid()
      modifies this`sess, logic
      ensures Valid()
      ensures View() == match M.FindConn(eng.View(), M.Tcp(from))
                        case None => old(View())
                        case Some(c) => M.SessionRecv(old(View()).(sess := old(Views(sess)) + [M.Session(M.ESTABLISED, c)]), from, kind)
    {
      hide Views, Str, M.SessionRecv;
      var s := new ProtoSession(logic);
      var done := s.Bind(from, eng);
      if done {
        Adopt(s, from, kind);
      }
    }

    /** Keep a session that was just bound, and let it handle the packet that made it. */
    method Adopt(s: ProtoSession, from: Addr, kind: uint8)
      requires Valid() && s.Established() && s.logic == logic && s.tcli in eng.made
      modifies this`sess, logic
      ensures Valid() && sess == old(sess) + [s]
      ensures View() == M.SessionRecv(old(View()).(sess := old(Views(sess)) + [s.View()]), from, kind)
    {
      hide Views;
      Push(s);
      s.Recv(from, kind);
    }
  }

  lemma ViewsAppend(sess: seq<ProtoSession>, s: ProtoSession)
    requires s.tcli != null && forall i :: 0 <= i < |sess| ==> sess[i].tcli != null
    ensures Views(sess + [s]) == Views(sess) + [s.View()]
  {
  }

  lemma ViewsWithout(sess: seq<ProtoSession>, k: nat)
    requires k < |sess| && forall i :: 0 <= i < |sess| ==> sess[i].tcli != null
    ensures Views(sess[..k] + sess[k + 1..]) == Views(sess)[..k] + Views(sess)[k + 1..]
  {
    hide Views;
    WithoutAt(sess, k);
    WithoutAt(Views(sess), k);
    assert Views(Without(sess, k)) == Without(Views(sess), k);
  }

  ghost function Without<T>(s: seq<T>, k: nat): seq<T>
    requires k < |s|
  {
    s[..k] + s[k + 1..]
  }

  lemma WithoutAt<T>(s: seq<T>, k: nat)
    requires k < |s|
    ensures |Without(s, k)| == |s| - 1
    ensures forall i :: 0 <= i < |s| - 1 ==> Without(s, k)[i] == s[if i < k then i else i + 1]
  {
  }

  ghost function Views(sess: seq<ProtoSession>): (r: seq<M.Session>)
    reads sess
    requires forall i :: 0 <= i < |sess| ==> sess[i].tcli != null
    ensures |r| == |sess| && forall i :: 0 <= i < |sess| ==> r[i] == sess[i].View()
  {
    if sess == [] then []
    else
      assert forall i :: 0 <= i < |sess| - 1 ==> sess[..|sess| - 1][i] == sess[i];
      Views(sess[..|sess| - 1]) + [sess[|sess| - 1].View()]
  }
}
