/** Bytes, texts and the constants shared by every component. */
module Basics {

  type byte = b: int | 0 <= b < 256

  /** A C++ `std::string`: any bytes, NUL included. */
  type Text = seq<byte>

  datatype Option<+T> = None | Some(value: T)

  const TWO16: nat := 0x1_0000
  const TWO32: nat := 0x1_0000_0000
  const TWO64: nat := 0x1_0000_0000_0000_0000
  const INT_MAX: nat := 0x7FFF_FFFF

  type uint8 = n: nat | n < 256
  type uint16 = n: nat | n < TWO16
  type uint32 = n: nat | n < TWO32
  type uint64 = n: nat | n < TWO64

  const BLOCK_SIZE: nat := 1024 * 1024
  const ONCE_MAX_READ_SIZE: nat := 2 * 1024 * 1024
  const DOWNLOAD_LIMIT: nat := 5
  const MAX_RETRY: nat := 5
  const RETRY_MS: nat := 1000 * 60

  function Min(a: int, b: int): int {
    if a <= b then a else b
  }

  /** Unsigned arithmetic wraps. */
  function Add64(a: uint64, b: uint64): uint64 {
    if a + b < TWO64 then a + b else a + b - TWO64
  }

  function Sub64(a: uint64, b: uint64): uint64 {
    if a >= b then a - b else a - b + TWO64
  }

  function Next8(n: uint8): uint8 {
    if n == 255 then 0 else n + 1
  }

  function Prev8(n: uint8): uint8 {
    if n == 0 then 255 else n - 1
  }

  /** `n` zero bytes: what `memset` and a sparse file leave behind. */
  function Zeros(n: nat): (r: seq<byte>)
    ensures |r| == n
    ensures forall i :: 0 <= i < n ==> r[i] == 0
  {
    seq(n, i => 0)
  }

  lemma MulAtLeast(d: int, m: nat)
    requires d >= 1
    ensures d * m >= m
  {
    assert d * m == m + (d - 1) * m;
  }

  lemma ModUnique(a: nat, m: nat, q: nat, r: nat)
    requires m > 0 && r < m && a == q * m + r
    ensures a % m == r && a / m == q
  {
    var d := q - a / m;
    assert d * m == q * m - a / m * m == a % m - r;
    if d >= 1 {
      MulAtLeast(d, m);
    } else if d <= -1 {
      MulAtLeast(-d, m);
    }
  }

  lemma MulAssociates(a: int, b: int, c: int)
    ensures a * (b * c) == b * (a * c)
  {
  }

  lemma DivideTwice(n: nat, d: nat, p: nat)
    requires d > 0 && p > 0
    ensures d * p > 0 && n / d / p == n / (d * p)
  {
    var m, l := n / d, n % d;
    var q, r := m / p, m % p;
    var x, dp := q * p, d * p;
    MulAtLeast(p, d);
    MulAtLeast(p - r, d);
    assert d * x == q * dp by { MulAssociates(d, q, p); }
    assert n == d * m + l && m == x + r;
    assert d * m == d * x + d * r;
    assert d * r + l < dp;
    ModUnique(n, dp, q, d * r + l);
  }

  lemma ModStep(i: nat, m: nat)
    requires m > 0
    ensures (i + 1) % m == if i % m + 1 == m then 0 else i % m + 1
  {
    assert i == i / m * m + i % m;
    if i % m + 1 == m {
      ModUnique(i + 1, m, i / m + 1, 0);
    } else {
      ModUnique(i + 1, m, i / m, i % m + 1);
    }
  }
}
