/** Numbers on the wire of QUIC: big-endian bytes and variable-length integers (section 16 of RFC 9000). */
module QuicInt {
  import opened Bytes
  import opened PacketNumber
  import opened Wrappers

  // Big-endian numbers.

  function BeNum(s: seq<byte>): nat {
    if s == [] then 0 else 0x100 * BeNum(s[..|s| - 1]) + s[|s| - 1]
  }

  function Pow256(n: nat): (p: nat)
    ensures p > 0
  {
    if n == 0 then 1 else 0x100 * Pow256(n - 1)
  }

  function ToBe(n: nat, size: nat): (s: seq<byte>)
    ensures |s| == size
  {
    if size == 0 then [] else ToBe(n / 0x100, size - 1) + [n % 0x100]
  }

  lemma {:induction false} BeNumBounded(s: seq<byte>)
    ensures BeNum(s) < Pow256(|s|)
  {
    if s != [] {
      BeNumBounded(s[..|s| - 1]);
    }
  }

  lemma {:induction false} BeNumOfToBe(n: nat, size: nat)
    requires n < Pow256(size)
    ensures BeNum(ToBe(n, size)) == n
  {
    if size > 0 {
      BeNumOfToBe(n / 0x100, size - 1);
      assert ToBe(n, size)[..size - 1] == ToBe(n / 0x100, size - 1);
    }
  }

  lemma WindowIsPow(bytes: nat)
    requires 1 <= bytes <= 4
    ensures Window(bytes) == Pow256(bytes)
  {
    assert Pow256(1) == 0x100;
    assert Pow256(2) == 0x1_0000;
    assert Pow256(3) == 0x100_0000;
  }

  // Variable-length integers.

  function Width(first: byte): (n: nat)
    ensures n == 1 || n == 2 || n == 4 || n == 8
  {
    match first / 64 case 0 => 1 case 1 => 2 case 2 => 4 case _ => 8
  }

  /** The value at offset `p` and the number of bytes it takes. */
  function Varint(d: seq<byte>, p: nat): (r: Option<(nat, nat)>)
    ensures r.Some? ==> r.value.1 > 0 && p + r.value.1 <= |d|
  {
    if p >= |d| || p + Width(d[p]) > |d| then None
    else Some((BeNum([d[p] % 64] + d[p + 1..p + Width(d[p])]), Width(d[p])))
  }

  /** The loop over the bytes of the value. */
  method ReadVarint(d: seq<byte>, p: nat) returns (r: Option<(nat, nat)>)
    ensures r == Varint(d, p)
  {
    if p >= |d| { return None; }
    var n := Width(d[p]);
    if p + n > |d| { return None; }
    var v: nat := d[p] % 64;
    ghost var all := [d[p] % 64] + d[p + 1..p + n];
    var i := 1;
    while i < n
      invariant 1 <= i <= n && v == BeNum(all[..i])
    {
      assert all[..i + 1][..i] == all[..i] && all[i] == d[p + i];
      v := 0x100 * v + d[p + i];
      i := i + 1;
    }
    assert all[..n] == all;
    return Some((v, n));
  }

  /** The code of a width: its top two bits. */
  function Code(width: nat): nat {
    match width case 1 => 0 case 2 => 1 case 4 => 2 case _ => 3
  }

  function EncodeVarint(n: nat, width: nat): (s: seq<byte>)
    requires width == 1 || width == 2 || width == 4 || width == 8
    requires n < 64 * Pow256(width - 1)
    ensures |s| == width
  {
    TopByte(n, width);
    var s := ToBe(n, width);
    [Code(width) * 64 + s[0]] + s[1..]
  }

  lemma {:induction false} TopByte(n: nat, width: nat)
    requires width > 0 && n < 64 * Pow256(width - 1)
    ensures ToBe(n, width)[0] < 64
  {
    if width > 1 {
      TopByte(n / 0x100, width - 1);
    } else {
      assert ToBe(n, 1) == [n % 0x100];
    }
  }

  lemma VarintOfEncoded(n: nat, width: nat, d: seq<byte>, p: nat)
    requires width == 1 || width == 2 || width == 4 || width == 8
    requires n < 64 * Pow256(width - 1)
    requires p + width <= |d| && d[p..p + width] == EncodeVarint(n, width)
    ensures Varint(d, p) == Some((n, width))
  {
    TopByte(n, width);
    var s := ToBe(n, width);
    assert d[p] == d[p..p + width][0] == Code(width) * 64 + s[0];
    assert d[p + 1..p + width] == d[p..p + width][1..] == s[1..];
    assert [s[0]] + s[1..] == s;
    assert Pow256(width) == 0x100 * Pow256(width - 1);
    BeNumOfToBe(n, width);
  }
}
