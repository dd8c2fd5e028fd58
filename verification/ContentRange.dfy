/** `ContentRange` and its text, `start-end/total/last` or `start-end/total/more`. */
module ContentRange {
  import opened Basics
  import opened Decimal
  import opened Packet

  datatype ContentRange = ContentRange(start: uint64, size: uint64, total: uint64, last: bool)

  const SLASH: byte := 47
  const LAST: Text := [108, 97, 115, 116]
  const MORE: Text := [109, 111, 114, 101]

  function Text3(r: ContentRange): Text {
    Print(r.start) + [MINUS] + Print(Add64(r.start, r.size)) + [SLASH] + (Print(r.total) + [SLASH] + (if r.last then LAST else MORE))
  }

  /** None where the original indexes past the fields it found, or leaves a member unassigned. */
  function ParseText(s: Text): Option<ContentRange> {
    var raw := Split(s, SLASH);
    if |raw| < 3 then None
    else
      var span := Split(raw[0], MINUS);
      if |span| < 2 then None
      else
        var total, start, end := ScanLu(Cut(raw[1])), ScanLu(Cut(span[0])), ScanLu(Cut(span[1]));
        if total.None? || start.None? then None
        else Some(ContentRange(start.value, Sub64(if end.Some? then end.value else 0, start.value), total.value, raw[2] == LAST))
  }

  lemma NumberText(n: uint64)
    ensures Print(n) != [] && MINUS !in Print(n) && SLASH !in Print(n) && ScanLu(Cut(Print(n))) == Some(n)
  {
    ScanPrinted(n, []);
    assert NUL !in Print(n);
  }

  lemma FieldsOfText(r: ContentRange)
    ensures Split(Text3(r), SLASH)
         == [Print(r.start) + [MINUS] + Print(Add64(r.start, r.size)), Print(r.total), if r.last then LAST else MORE]
  {
    hide Print, Split, Cut, ScanLu;
    var span := Print(r.start) + [MINUS] + Print(Add64(r.start, r.size));
    var tail := if r.last then LAST else MORE;
    NumberText(r.start);
    NumberText(Add64(r.start, r.size));
    NumberText(r.total);
    assert SLASH !in span && SLASH !in tail && tail != [];
    SplitField(span, Print(r.total) + [SLASH] + tail, SLASH);
    SplitField(Print(r.total), tail, SLASH);
    SplitLastField(tail, SLASH);
  }

  /** Parsing inverts printing for every value: even where `start + size` wraps, the subtraction wraps back. */
  lemma ContentRangeRoundTrip(r: ContentRange)
    ensures ParseText(Text3(r)) == Some(r)
  {
    hide Print, Split, Scan, Cut;
    var end := Add64(r.start, r.size);
    FieldsOfText(r);
    NumberText(r.start);
    NumberText(end);
    NumberText(r.total);
    SplitField(Print(r.start), Print(end), MINUS);
    SplitLastField(Print(end), MINUS);
  }
}
