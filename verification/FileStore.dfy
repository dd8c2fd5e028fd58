/** Reading and writing byte ranges of local files through short reads and short writes. */
module FileStore {
  import opened Basics

  /** What one POSIX `write` at `off` leaves in a file; a gap before `off` reads as zeros. */
  function WriteAt(f: seq<byte>, off: nat, d: seq<byte>): (r: seq<byte>)
    ensures d != [] ==> |r| == if off + |d| > |f| then off + |d| else |f|
    ensures d != [] ==> forall i :: 0 <= i < |r| ==>
              r[i] == if off <= i < off + |d| then d[i - off] else if i < |f| then f[i] else 0
  {
    if d == [] then f
    else
      var g := if |f| < off then f + Zeros(off - |f|) else f;
      g[..off] + d + (if off + |d| < |g| then g[off + |d|..] else [])
  }

  /** The bytes `[off, off + n)` of a file, zeros past its end: the buffer `readFrom` returns. */
  function ReadSlice(f: seq<byte>, off: nat, n: nat): (r: seq<byte>)
    ensures |r| == n
    ensures forall i :: 0 <= i < n ==> r[i] == if off + i < |f| then f[off + i] else 0
  {
    if off >= |f| then Zeros(n)
    else
      var end := Min(off + n, |f|);
      f[off..end] + Zeros(n - (end - off))
  }

  /** `lseek` refuses offsets that are negative as `off_t`. */
  const OFF_MAX: nat := 0x8000_0000_0000_0000

  function ReadFrom(file: Option<seq<byte>>, off: nat, n: nat): Option<seq<byte>> {
    if file.None? || off >= OFF_MAX then None else Some(ReadSlice(file.value, off, n))
  }

  /** Return values of successive `read`s or `write`s that end up moving `remaining` bytes. */
  predicate Moves(counts: seq<nat>, remaining: nat) {
    if remaining == 0 then counts == []
    else counts != [] && counts[0] <= Min(ONCE_MAX_READ_SIZE, remaining) && Moves(counts[1..], remaining - counts[0])
  }

  /** `saveTo` writes once before it looks at what remains. */
  predicate WriteCounts(counts: seq<nat>, n: nat) {
    counts != [] && counts[0] <= Min(ONCE_MAX_READ_SIZE, n) && Moves(counts[1..], n - counts[0])
  }

  predicate AllAtMost(counts: seq<nat>, n: nat) {
    forall i :: 0 <= i < |counts| ==> counts[i] <= n
  }

  /** Each write starts again at the first byte of the data: the position in the data is never advanced. */
  function Written(f: seq<byte>, pos: nat, data: seq<byte>, counts: seq<nat>): seq<byte>
    requires AllAtMost(counts, |data|)
    decreases |counts|
  {
    if counts == [] then f
    else Written(WriteAt(f, pos, data[..counts[0]]), pos + counts[0], data, counts[1..])
  }

  lemma NextMove(os: seq<nat>, remaining: nat)
    requires remaining > 0 && Moves(os, remaining)
    ensures os != [] && os[0] <= Min(ONCE_MAX_READ_SIZE, remaining) && Moves(os[1..], remaining - os[0])
  {
  }

  lemma {:induction false} MovesBounded(counts: seq<nat>, remaining: nat)
    requires Moves(counts, remaining)
    ensures AllAtMost(counts, remaining)
  {
    if remaining > 0 {
      MovesBounded(counts[1..], remaining - counts[0]);
      forall i | 0 <= i < |counts| ensures counts[i] <= remaining {
        if i > 0 { assert counts[i] == counts[1..][i - 1]; }
      }
    }
  }

  lemma WriteCountsBounded(counts: seq<nat>, n: nat)
    requires WriteCounts(counts, n)
    ensures AllAtMost(counts, n)
  {
    MovesBounded(counts[1..], n - counts[0]);
    forall i | 0 <= i < |counts| ensures counts[i] <= n {
      if i > 0 { assert counts[i] == counts[1..][i - 1]; }
    }
  }

  class Files {
    var files: map<Text, seq<byte>>

    constructor (files: map<Text, seq<byte>>)
      ensures this.files == files
    {
      this.files := files;
    }

    /** One `write`, of as much as the operating system takes. */
    method WriteSome(f: seq<byte>, pos: nat, data: seq<byte>, os: seq<nat>) returns (g: seq<byte>, n: nat)
      requires os != [] && AllAtMost(os, |data|)
      ensures n == os[0] && AllAtMost(os[1..], |data|)
      ensures Written(g, pos + n, data, os[1..]) == Written(f, pos, data, os)
    {
      n := os[0];
      g := WriteAt(f, pos, data[..n]);
    }

    /** The write loop of `saveTo` over the contents of one file. */
    method WriteAll(f0: seq<byte>, offset: nat, data: seq<byte>, counts: seq<nat>) returns (f: seq<byte>, ret: nat)
      requires WriteCounts(counts, |data|) && AllAtMost(counts, |data|)
      ensures ret == |data| && f == Written(f0, offset, data, counts)
    {
      var end := offset + |data|;
      var n;
      f, n := WriteSome(f0, offset, data, counts);
      var curpos := offset + n;
      ret := n;
      var os := counts[1..];
      while curpos < end
        invariant curpos == offset + ret && ret <= |data|
        invariant Moves(os, end - curpos)
        invariant AllAtMost(os, |data|)
        invariant Written(f, curpos, data, os) == Written(f0, offset, data, counts)
        decreases |os|
      {
        NextMove(os, end - curpos);
        f, n := WriteSome(f, curpos, data, os);
        curpos := curpos + n;
        ret := ret + n;
        os := os[1..];
      }
    }

    /** `counts` are the return values of `write`; they are what the operating system chose. */
    method SaveTo(path: Text, offset: nat, data: seq<byte>, counts: seq<nat>) returns (ret: nat)
      requires WriteCounts(counts, |data|)
      modifies this
      ensures AllAtMost(counts, |data|)
      ensures ret == |data|
      ensures files == old(files)[path := Written(if path in old(files) then old(files)[path] else [], offset, data, counts)]
    {
      WriteCountsBounded(counts, |data|);
      var f := if path in files then files[path] else [];   // O_CREAT
      f, ret := WriteAll(f, offset, data, counts);
      files := files[path := f];
    }

    /** The result does not depend on how short the reads are, as long as each one makes progress. */
    method Read(path: Text, offset: nat, size: nat, counts: seq<nat>) returns (data: Option<seq<byte>>)
      requires path in files && offset < OFF_MAX && offset < |files[path]| ==>
                 Moves(counts, Min(offset + size, |files[path]|) - offset) && 0 !in counts
      ensures data == ReadFrom(if path in files then Some(files[path]) else None, offset, size)
    {
      if path !in files || offset >= OFF_MAX {
        return None;
      }
      var f := files[path];
      var curpos := offset;
      var end := Min(offset + size, |f|);
      var buf := new byte[size](_ => 0);
      var pos := 0;
      var os := counts;
      while curpos < end
        invariant curpos == offset + pos && 0 <= pos <= size
        invariant curpos <= end || pos == 0
        invariant curpos < end ==> Moves(os, end - curpos)
        invariant forall i :: 0 <= i < pos ==> buf[i] == f[offset + i]
        invariant forall i :: pos <= i < size ==> buf[i] == 0
        decreases |os|
      {
        NextMove(os, end - curpos);
        var n := os[0];
        forall i | pos <= i < pos + n {
          buf[i] := f[offset + i];
        }
        curpos := curpos + n;
        pos := pos + n;
        os := os[1..];
      }
      assert buf[..] == ReadSlice(f, offset, size);
      return Some(buf[..]);
    }
  }

  // ---------------------------------------------------------------- when saveTo is right

  /** Every write that moved anything moved everything. */
  predicate OneFullWrite(counts: seq<nat>, n: nat) {
    forall i :: 0 <= i < |counts| ==> counts[i] == 0 || counts[i] == n
  }

  lemma {:induction false} FullWriteIsRight(f: seq<byte>, off: nat, d: seq<byte>, counts: seq<nat>)
    requires counts != [] && AllAtMost(counts, |d|)
    requires OneFullWrite(counts, |d|) && counts[0] <= |d| && Moves(counts[1..], |d| - counts[0])
    ensures Written(f, off, d, counts) == WriteAt(f, off, d)
  {
    assert forall i :: 0 <= i < |counts| - 1 ==> counts[1..][i] == counts[i + 1];
    assert d[..|d|] == d;
    if counts[0] == 0 && |d| > 0 {
      assert d[..0] == [];
      FullWriteIsRight(f, off, d, counts[1..]);
    } else {
      assert counts[0] == |d| && counts[1..] == [];
    }
  }

  /** One write can move everything exactly when there are at most 2 MiB. */
  lemma FullWriteAllowed(n: nat)
    ensures WriteCounts([n], n) <==> n <= 2097152
  {
    assert [n][1..] == [];
  }

  lemma {:induction false} LaterWritesKeep(f: seq<byte>, pos: nat, d: seq<byte>, counts: seq<nat>, at: nat)
    requires at < pos && at < |f|
    requires AllAtMost(counts, |d|)
    ensures at < |Written(f, pos, d, counts)| && Written(f, pos, d, counts)[at] == f[at]
    decreases |counts|
  {
    if counts != [] {
      LaterWritesKeep(WriteAt(f, pos, d[..counts[0]]), pos + counts[0], d, counts[1..], at);
    }
  }

  /** The data that exposes a split write: one marked byte in front. */
  function Marked(n: nat): (d: seq<byte>)
    requires n > 0
    ensures |d| == n && d[0] == 1
  {
    [1] + Zeros(n - 1)
  }

  lemma PartStartsOver(f: seq<byte>, pos: nat, d: seq<byte>, n: nat)
    requires n <= |d|
    ensures n == 0 ==> WriteAt(f, pos, d[..n]) == f
    ensures n > 0 ==> pos < |WriteAt(f, pos, d[..n])| && WriteAt(f, pos, d[..n])[pos] == d[0]
  {
  }

  /** Wherever the next bytes go, they start with the first byte of the data. */
  lemma {:induction false} EveryPartStartsOver(f: seq<byte>, pos: nat, d: seq<byte>, counts: seq<nat>, i: nat)
    requires d != [] && AllAtMost(counts, |d|) && i < |counts| && counts[i] > 0
    ensures pos < |Written(f, pos, d, counts)| && Written(f, pos, d, counts)[pos] == d[0]
    decreases i
  {
    hide WriteAt;
    var n, rest := counts[0], counts[1..];
    PartStartsOver(f, pos, d, n);
    if n > 0 {
      LaterWritesKeep(WriteAt(f, pos, d[..n]), pos + n, d, rest, pos);
    } else {
      EveryPartStartsOver(f, pos, d, rest, i - 1);
    }
  }

  lemma FullFirst(counts: seq<nat>, n: nat)
    requires counts != [] && counts[0] <= n && Moves(counts[1..], n - counts[0])
    ensures counts[0] == n ==> OneFullWrite(counts, n)
  {
  }

  lemma {:induction false} MovesSomething(counts: seq<nat>, remaining: nat)
    requires Moves(counts, remaining) && remaining > 0
    ensures exists i :: 0 <= i < |counts| && counts[i] > 0
  {
    if counts[0] > 0 {
    } else {
      MovesSomething(counts[1..], remaining);
      var i :| 0 <= i < |counts[1..]| && counts[1..][i] > 0;
      assert counts[i + 1] > 0;
    }
  }

  lemma WrittenFirst(f: seq<byte>, pos: nat, d: seq<byte>, counts: seq<nat>)
    requires counts != [] && AllAtMost(counts, |d|)
    ensures AllAtMost(counts[1..], |d|)
    ensures Written(f, pos, d, counts) == Written(WriteAt(f, pos, d[..counts[0]]), pos + counts[0], d, counts[1..])
  {
  }

  /** All but the first byte of marked data should arrive as zeros. */
  lemma MarkedTail(f: seq<byte>, off: nat, n: nat, k: nat)
    requires 0 < k < n
    ensures off + k < |WriteAt(f, off, Marked(n))| && WriteAt(f, off, Marked(n))[off + k] == 0
  {
  }

  lemma ShortFirstPart(f: seq<byte>, off: nat, n: nat, counts: seq<nat>)
    requires counts != [] && 0 < counts[0] < n && AllAtMost(counts, n)
    requires Moves(counts[1..], n - counts[0])
    ensures Written(f, off, Marked(n), counts) != WriteAt(f, off, Marked(n))
  {
    hide Written, Moves, WriteAt, Marked;
    var d, rest := Marked(n), counts[1..];
    MovesSomething(rest, n - counts[0]);
    var i :| 0 <= i < |rest| && rest[i] > 0;
    WrittenFirst(f, off, d, counts);
    EveryPartStartsOver(WriteAt(f, off, d[..counts[0]]), off + counts[0], d, rest, i);
    MarkedTail(f, off, n, counts[0]);
  }

  lemma {:induction false} SplitWriteIsWrong(f: seq<byte>, off: nat, n: nat, counts: seq<nat>)
    requires n > 0 && counts != [] && AllAtMost(counts, n)
    requires Moves(counts[1..], n - counts[0]) && !OneFullWrite(counts, n)
    ensures Written(f, off, Marked(n), counts) != WriteAt(f, off, Marked(n))
  {
    if counts[0] == 0 {
      var rest := counts[1..];
      assert Marked(n)[..0] == [];
      var i :| 0 <= i < |counts| && counts[i] != 0 && counts[i] != n;
      assert rest[i - 1] == counts[i];
      SplitWriteIsWrong(f, off, n, rest);
    } else {
      FullFirst(counts, n);
      ShortFirstPart(f, off, n, counts);
    }
  }

  /** `saveTo` stores every possible buffer of this length correctly exactly when one single write moved all of it. */
  lemma SaveToExact(f: seq<byte>, off: nat, n: nat, counts: seq<nat>)
    requires WriteCounts(counts, n)
    ensures AllAtMost(counts, n)
    ensures (forall d: seq<byte> :: |d| == n ==> Written(f, off, d, counts) == WriteAt(f, off, d))
            <==> OneFullWrite(counts, n)
  {
    WriteCountsBounded(counts, n);
    if OneFullWrite(counts, n) {
      forall d: seq<byte> | |d| == n ensures Written(f, off, d, counts) == WriteAt(f, off, d) {
        FullWriteIsRight(f, off, d, counts);
      }
    } else if n > 0 {
      SplitWriteIsWrong(f, off, n, counts);
      assert |Marked(n)| == n;
    } else {
      assert OneFullWrite(counts, n);
    }
  }

  /** Beyond two mebibytes no sequence of writes can be right for every buffer. */
  lemma LongSavesAreWrong(f: seq<byte>, off: nat, n: nat, counts: seq<nat>)
    requires WriteCounts(counts, n) && n > 2097152
    ensures AllAtMost(counts, n)
    ensures Written(f, off, Marked(n), counts) != WriteAt(f, off, Marked(n))
  {
    WriteCountsBounded(counts, n);
    MovesCapped(counts[1..], n - counts[0]);
    assert exists i :: 0 <= i < |counts| && counts[i] != 0 by {
      if counts[0] == 0 {
        MovesSomething(counts[1..], n);
        var i :| 0 <= i < |counts[1..]| && counts[1..][i] > 0;
        assert counts[i + 1] != 0;
      }
    }
    var i :| 0 <= i < |counts| && counts[i] != 0;
    assert counts[i] <= ONCE_MAX_READ_SIZE by { if i > 0 { assert counts[i] == counts[1..][i - 1]; } }
    SplitWriteIsWrong(f, off, n, counts);
  }

  lemma {:induction false} MovesCapped(counts: seq<nat>, remaining: nat)
    requires Moves(counts, remaining)
    ensures forall i :: 0 <= i < |counts| ==> counts[i] <= ONCE_MAX_READ_SIZE
  {
    if remaining > 0 {
      MovesCapped(counts[1..], remaining - counts[0]);
      forall i | 0 <= i < |counts| ensures counts[i] <= ONCE_MAX_READ_SIZE {
        if i > 0 { assert counts[i] == counts[1..][i - 1]; }
      }
    }
  }
}
