/** Blocks, ranges and the `start-end` text a range travels as. */
module BlockRange {
  import opened Basics
  import opened Decimal

  datatype Block = Block(start: nat, end: nat)
  {
    function Size(): int { end - start }
  }

  datatype Range = Range(start: uint64, end: uint64)
  {
    /** The C++ size is a 64-bit subtraction and wraps. */
    function Size(): uint64 { Sub64(end, start) }
  }

  /** Index of the block holding `offset`. */
  function Pos(offset: nat): nat {
    if offset < BLOCK_SIZE then 0 else offset / BLOCK_SIZE
  }

  function BitPos(i: nat): nat {
    i * BLOCK_SIZE
  }

  lemma PosOfBitPos(i: nat)
    ensures Pos(BitPos(i)) == i
  {
  }

  function ToText(r: Range): Text {
    Print(r.start) + [MINUS] + (if r.Size() != 0 then Print(Add64(r.start, r.Size())) else [])
  }

  /** Offset of the first `c`, or the length when there is none. */
  function Find(s: Text, c: byte): (p: nat)
    ensures p <= |s|
    ensures p < |s| ==> s[p] == c
    ensures forall i :: 0 <= i < p ==> s[i] != c
  {
    if s == [] || s[0] == c then 0 else 1 + Find(s[1..], c)
  }

  /** `substr` before and after the first '-'; without a '-' both halves are the whole text. */
  function Halves(s: Text): (Text, Text) {
    var p := Find(s, MINUS);
    if p < |s| then (s[..p], s[p + 1..]) else (s, s)
  }

  /** An `int` stored in a `uint64_t`. */
  function Widen(v: int): uint64
    requires -0x8000_0000 <= v <= INT_MAX
  {
    if v < 0 then v + TWO64 else v
  }

  /** `Range(std::string)`; None is the exception thrown by `stoi`. */
  function Parse(s: Text): Option<Range> {
    var (left, right) := Halves(s);
    var a, b := StoI(left), StoI(right);
    if a.Some? && b.Some? then Some(Range(Widen(a.value), Widen(b.value))) else None
  }

  lemma FindAfterDigits(ds: Text, c: byte, rest: Text)
    requires AllDigits(ds) && !IsDigit(c)
    ensures Find(ds + [c] + rest, c) == |ds|
  {
    var s := ds + [c] + rest;
    assert s[|ds|] == c;
    assert forall i | 0 <= i < |ds| :: s[i] == ds[i] && IsDigit(s[i]);
  }

  lemma StoIPrinted(n: nat)
    ensures StoI(Print(n)) == if n <= INT_MAX then Some(n) else None
  {
    ScanPrinted(n, []);
  }

  lemma HalvesOfText(a: nat, tail: Text)
    ensures Halves(Print(a) + [MINUS] + tail) == (Print(a), tail)
  {
    var s := Print(a) + [MINUS] + tail;
    FindAfterDigits(Print(a), MINUS, tail);
    assert s[..|Print(a)|] == Print(a);
    assert s[|Print(a)| + 1..] == tail;
  }

  lemma TextShape(r: Range)
    ensures ToText(r) == Print(r.start) + [MINUS] + (if r.start != r.end then Print(r.end) else [])
  {
  }

  lemma StoIEmpty()
    ensures StoI([]) == None
  {
  }

  /** The exact set of ranges that survive the wire: both ends representable as `int`, and not empty. */
  lemma RangeRoundTrip(r: Range)
    ensures Parse(ToText(r)) ==
            if r.start != r.end && r.start <= 2147483647 && r.end <= 2147483647 then Some(r) else None
  {
    TextShape(r);
    HalvesOfText(r.start, if r.start != r.end then Print(r.end) else []);
    StoIPrinted(r.start);
    StoIPrinted(r.end);
    StoIEmpty();
  }

  /** Texts no range prints as: a number alone is an empty range, and a negative end wraps to 64 bits. */
  lemma ParseOtherTexts(a: nat, b: nat)
    requires a <= 2147483647 && 0 < b <= 2147483648
    ensures Parse(Print(a)) == Some(Range(a, a))
    ensures Parse(Print(a) + [45] + ([45] + Print(b))) == Some(Range(a, 0x1_0000_0000_0000_0000 - b))
  {
    hide Scan, Print;
    StoIPrinted(a);
    HalvesOfText(a, [45] + Print(b));
    ScanForm(true, b, []);
    assert Print(b) + [] == Print(b);
    assert Print(a)[..|Print(a)|] == Print(a);
    assert forall i | 0 <= i < |Print(a)| :: IsDigit(Print(a)[i]);
  }
}
