/** Decimal numbers as the standard streams print them and as `stoi` and `sscanf("%lu")` read them. */
module Decimal {
  import opened Basics

  const ZERO: byte := 48  // '0'
  const PLUS: byte := 43
  const MINUS: byte := 45

  predicate IsDigit(c: byte) {
    48 <= c < 58
  }

  predicate IsSpace(c: byte) {
    9 <= c <= 13 || c == 32
  }

  predicate AllDigits(s: Text) {
    forall i :: 0 <= i < |s| ==> IsDigit(s[i])
  }

  function Print(n: nat): (s: Text)
    ensures s != [] && AllDigits(s)
  {
    if n < 10 then [ZERO + n] else Print(n / 10) + [ZERO + n % 10]
  }

  /** The number a string of digits denotes. */
  function Value(ds: Text): nat
    requires AllDigits(ds)
  {
    if ds == [] then 0 else Value(ds[..|ds| - 1]) * 10 + (ds[|ds| - 1] - ZERO)
  }

  lemma {:induction false} ValueOfPrint(n: nat)
    ensures Value(Print(n)) == n
  {
    if n >= 10 {
      ValueOfPrint(n / 10);
      assert Print(n)[..|Print(n)| - 1] == Print(n / 10);
    }
  }

  /** The longest prefix made of digits. */
  function LeadingDigits(s: Text): (ds: Text)
    ensures AllDigits(ds) && ds <= s
  {
    if s == [] || !IsDigit(s[0]) then [] else [s[0]] + LeadingDigits(s[1..])
  }

  lemma {:induction false} LeadingDigitsOf(ds: Text, rest: Text)
    requires AllDigits(ds)
    requires rest == [] || !IsDigit(rest[0])
    ensures LeadingDigits(ds + rest) == ds
  {
    if ds == [] {
      assert ds + rest == rest;
    } else {
      assert (ds + rest)[1..] == ds[1..] + rest;
      LeadingDigitsOf(ds[1..], rest);
    }
  }

  function SkipSpace(s: Text): Text {
    if s != [] && IsSpace(s[0]) then SkipSpace(s[1..]) else s
  }

  /** What `strtol` and `strtoul` see: blanks, one optional sign, then digits; trailing text is ignored. */
  function Scan(s: Text): Option<int> {
    var t := SkipSpace(s);
    var signed := t != [] && (t[0] == PLUS || t[0] == MINUS);
    var ds := LeadingDigits(if signed then t[1..] else t);
    if ds == [] then None
    else
      var v: int := Value(ds);
      if signed && t[0] == MINUS then Some(-v) else Some(v)
  }

  /** `std::stoi`: None is the exception, for no digits or a value outside `int`. */
  function StoI(s: Text): (r: Option<int>)
    ensures r.Some? ==> -0x8000_0000 <= r.value <= INT_MAX
  {
    match Scan(s)
    case None => None
    case Some(v) => if -0x8000_0000 <= v <= INT_MAX then Some(v) else None
  }

  /** `sscanf(s, "%lu", ..)`: None leaves the variable unassigned; large values saturate, negative ones wrap. */
  function ScanLu(s: Text): Option<uint64> {
    match Scan(s)
    case None => None
    case Some(v) => Some(if v >= TWO64 || v + TWO64 <= 0 then TWO64 - 1 else if v < 0 then v + TWO64 else v)
  }

  lemma ScanPrinted(n: nat, rest: Text)
    requires rest == [] || !IsDigit(rest[0])
    ensures Scan(Print(n) + rest) == Some(n)
    ensures Scan(Print(n)) == Some(n)
  {
    ValueOfPrint(n);
    LeadingDigitsOf(Print(n), rest);
    LeadingDigitsOf(Print(n), []);
    assert Print(n) + [] == Print(n);
    assert (Print(n) + rest)[0] == Print(n)[0];
  }

  /** A printed number ends where its first non-digit stands, so nothing is lost when numbers are joined by separators. */
  lemma PrintedFieldUnique(a: nat, b: nat, x: Text, y: Text)
    requires x == [] || !IsDigit(x[0])
    requires y == [] || !IsDigit(y[0])
    requires Print(a) + x == Print(b) + y
    ensures a == b && x == y
  {
    LeadingDigitsOf(Print(a), x);
    LeadingDigitsOf(Print(b), y);
    ValueOfPrint(a);
    ValueOfPrint(b);
    assert x == (Print(a) + x)[|Print(a)|..];
    assert y == (Print(b) + y)[|Print(b)|..];
  }

  function Pow10(k: nat): (p: nat)
    ensures p > 0
  {
    if k == 0 then 1 else 10 * Pow10(k - 1)
  }

  /** Printed numbers are decimal, most significant digit first, without leading zeros. */
  lemma {:induction false} PrintDigits(n: nat, k: nat)
    requires k < |Print(n)|
    ensures Print(n)[|Print(n)| - 1 - k] == 48 + n / Pow10(k) % 10
    ensures |Print(n)| > 1 ==> Print(n)[0] != 48
  {
    if n >= 10 {
      if k > 0 {
        PrintDigits(n / 10, k - 1);
        DivideTwice(n, 10, Pow10(k - 1));
      } else {
        PrintDigits(n / 10, 0);
      }
    }
  }

  lemma ScanSigned(minus: bool, t: Text)
    requires LeadingDigits(t) != []
    ensures var v: int := if minus then 0 - Value(LeadingDigits(t)) else Value(LeadingDigits(t));
      Scan([if minus then 45 else 43] + t) == Some(v)
  {
    hide Value, LeadingDigits;
    var c: byte := if minus then 45 else 43;
    assert ([c] + t)[1..] == t;
    assert SkipSpace([c] + t) == [c] + t;
  }

  /** One sign and digits are read, and what follows is not looked at. */
  lemma ScanForm(minus: bool, n: nat, rest: Text)
    requires rest == [] || !IsDigit(rest[0])
    ensures var v: int := if minus then 0 - n else n;
      Scan([if minus then 45 else 43] + (Print(n) + rest)) == Some(v)
  {
    hide Scan, Print, Value, LeadingDigits;
    ValueOfPrint(n);
    LeadingDigitsOf(Print(n), rest);
    ScanSigned(minus, Print(n) + rest);
  }

  /** Leading blanks are skipped; no digits, no number. */
  lemma ScanBlank(b: byte, s: Text)
    requires IsSpace(b)
    ensures Scan([b] + s) == Scan(s) && Scan([]) == None
  {
    assert ([b] + s)[1..] == s;
  }

  /** `%lu` saturates from 2^64 on, and a minus sign negates modulo 2^64. */
  lemma ScanLuExact(n: nat)
    ensures ScanLu(Print(n)) == Some(if n < 0x1_0000_0000_0000_0000 then n else 0xFFFF_FFFF_FFFF_FFFF)
    ensures ScanLu([45] + Print(n)) == Some(if n == 0 then 0
                                            else if n < 0x1_0000_0000_0000_0000 then 0x1_0000_0000_0000_0000 - n
                                            else 0xFFFF_FFFF_FFFF_FFFF)
  {
    hide Scan, Print;
    ScanPrinted(n, []);
    ScanForm(true, n, []);
    assert Print(n) + [] == Print(n);
  }
}
