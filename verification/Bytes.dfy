/** Bytes, fixed-width integers and their big- and little-endian forms. */
module Bytes {
  type byte = b: int | 0 <= b < 0x100

  const TWO16 := 0x1_0000
  const TWO32 := 0x1_0000_0000

  function Zeros(n: nat): (z: seq<byte>)
    ensures |z| == n
  {
    seq(n, _ => 0)
  }

  function Be16(hi: byte, lo: byte): nat {
    0x100 * hi + lo
  }

  function Be24(a: byte, b: byte, c: byte): nat {
    0x1_0000 * a + 0x100 * b + c
  }

  function ToBe16(n: nat): (s: seq<byte>)
    requires n < TWO16
    ensures |s| == 2 && Be16(s[0], s[1]) == n
  {
    [n / 0x100, n % 0x100]
  }

  function ToBe24(n: nat): (s: seq<byte>)
    requires n < 0x100_0000
    ensures |s| == 3 && Be24(s[0], s[1], s[2]) == n
  {
    [n / 0x1_0000, n / 0x100 % 0x100, n % 0x100]
  }

  function Le16(lo: byte, hi: byte): nat {
    0x100 * hi + lo
  }

  function ToLe16(n: nat): (s: seq<byte>)
    requires n < TWO16
    ensures |s| == 2 && Le16(s[0], s[1]) == n
  {
    [n % 0x100, n / 0x100]
  }

  /** The 32-bit little-endian number at offset `o`. */
  function Le32(b: seq<byte>, o: nat): (n: nat)
    requires o + 4 <= |b|
    ensures n < TWO32
  {
    b[o] as int + 0x100 * b[o + 1] as int + 0x1_0000 * b[o + 2] as int + 0x100_0000 * b[o + 3] as int
  }

  function ToLe32(n: nat): (s: seq<byte>)
    requires n < TWO32
    ensures |s| == 4 && Le32(s, 0) == n
  {
    ToLe16(n % TWO16) + ToLe16(n / TWO16)
  }

  lemma SliceOfSlice<T>(s: seq<T>, from: nat, to: nat, i: nat, j: nat)
    requires from <= to <= |s| && i <= j <= to - from
    ensures s[from..to][i..j] == s[from + i..from + j]
  {
    var inner := s[from..to];
    var left, right := inner[i..j], s[from + i..from + j];
    forall k | 0 <= k < j - i
      ensures left[k] == right[k]
    {
      assert left[k] == inner[i + k] == s[from + i + k];
    }
  }

  lemma SameTail<T>(a: seq<T>, b: seq<T>, from: nat, i: nat, j: nat)
    requires |a| == |b| && from <= i <= j <= |a| && a[from..] == b[from..]
    ensures a[i..j] == b[i..j]
  {
    forall k | i <= k < j
      ensures a[k] == b[k]
    {
      assert a[from..][k - from] == b[from..][k - from];
    }
  }
}
