/** Network addresses and the text that keys the connection registry. */
module NetAddr {
  import opened Basics
  import opened Decimal

  datatype Transport = TCP | UDP | UNKNOWN

  datatype Addr = Addr(ip: uint32, port: uint16, kind: Transport)
  {
    /** `operator==` looks at address and port only. */
    predicate Same(other: Addr) {
      ip == other.ip && port == other.port
    }
  }

  const TCP_SCHEME: Text := [116, 99, 112, 58, 47, 47]  // "tcp://"
  const UDP_SCHEME: Text := [117, 100, 112, 58, 47, 47] // "udp://"
  const DOT: byte := 46
  const COLON: byte := 58

  /** The four octets and the port, without the scheme. */
  function HostPort(ip: uint32, port: uint16): Text {
    Print(ip / 0x100_0000) + ([DOT] +
    (Print(ip / 0x1_0000 % 256) + ([DOT] +
    (Print(ip / 0x100 % 256) + ([DOT] +
    (Print(ip % 256) + ([COLON] +
    Print(port))))))))
  }

  function Str(a: Addr): Text {
    (if a.kind == TCP then TCP_SCHEME else UDP_SCHEME) + HostPort(a.ip, a.port)
  }

  lemma OctetSum(x: uint32)
    ensures x == x / 0x100_0000 * 0x100_0000 + x / 0x1_0000 % 256 * 0x1_0000 + x / 0x100 % 256 * 0x100 + x % 256
  {
    var a, b, c := x / 0x100, x / 0x1_0000, x / 0x100_0000;
    assert x == a * 256 + x % 256;
    assert a / 256 == b && a == b * 256 + a % 256;
    assert b / 256 == c && b == c * 256 + b % 256;
  }

  lemma OctetsDetermine(x: uint32, y: uint32)
    requires x / 0x100_0000 == y / 0x100_0000
    requires x / 0x1_0000 % 256 == y / 0x1_0000 % 256
    requires x / 0x100 % 256 == y / 0x100 % 256
    requires x % 256 == y % 256
    ensures x == y
  {
    OctetSum(x);
    OctetSum(y);
  }

  lemma FieldAndRest(a: nat, b: nat, c: byte, x: Text, y: Text)
    requires !IsDigit(c)
    requires Print(a) + ([c] + x) == Print(b) + ([c] + y)
    ensures a == b && x == y
  {
    PrintedFieldUnique(a, b, [c] + x, [c] + y);
    assert x == ([c] + x)[1..];
    assert y == ([c] + y)[1..];
  }

  lemma LastField(a: nat, b: nat)
    requires Print(a) == Print(b)
    ensures a == b
  {
    PrintedFieldUnique(a, b, [], []);
  }

  lemma HostPortInjective(i: uint32, p: uint16, j: uint32, q: uint16)
    requires HostPort(i, p) == HostPort(j, q)
    ensures i == j && p == q
  {
    var i3, j3 := Print(i % 256) + ([COLON] + Print(p)), Print(j % 256) + ([COLON] + Print(q));
    var i2, j2 := Print(i / 0x100 % 256) + ([DOT] + i3), Print(j / 0x100 % 256) + ([DOT] + j3);
    var i1, j1 := Print(i / 0x1_0000 % 256) + ([DOT] + i2), Print(j / 0x1_0000 % 256) + ([DOT] + j2);
    FieldAndRest(i / 0x100_0000, j / 0x100_0000, DOT, i1, j1);
    FieldAndRest(i / 0x1_0000 % 256, j / 0x1_0000 % 256, DOT, i2, j2);
    FieldAndRest(i / 0x100 % 256, j / 0x100 % 256, DOT, i3, j3);
    FieldAndRest(i % 256, j % 256, COLON, Print(p), Print(q));
    LastField(p, q);
    OctetsDetermine(i, j);
  }

  /** Two addresses share a registry key exactly when they agree on address, port and being TCP. */
  lemma StrInjective(a: Addr, b: Addr)
    ensures Str(a) == Str(b) <==> a.ip == b.ip && a.port == b.port && (a.kind == TCP <==> b.kind == TCP)
  {
    if Str(a) == Str(b) {
      assert Str(a)[0] == Str(b)[0];
      assert Str(a)[6..] == HostPort(a.ip, a.port);
      assert Str(b)[6..] == HostPort(b.ip, b.port);
      HostPortInjective(a.ip, a.port, b.ip, b.port);
    }
  }
}
