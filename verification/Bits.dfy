/** Exclusive or on bytes, bit by bit. */
module Bits {
  import opened Bytes

  function XorBits(a: nat, b: nat, width: nat): nat {
    if width == 0 then 0 else
      2 * XorBits(a / 2, b / 2, width - 1) + if a % 2 == b % 2 then 0 else 1
  }

  function Pow2(n: nat): (p: nat)
    ensures p > 0
  {
    if n == 0 then 1 else 2 * Pow2(n - 1)
  }

  lemma {:induction false} XorBounded(a: nat, b: nat, width: nat)
    ensures XorBits(a, b, width) < Pow2(width)
  {
    if width > 0 {
      XorBounded(a / 2, b / 2, width - 1);
    }
  }

  lemma {:induction false} XorUndone(a: nat, b: nat, width: nat)
    requires a < Pow2(width)
    ensures XorBits(XorBits(a, b, width), b, width) == a
  {
    if width > 0 {
      XorUndone(a / 2, b / 2, width - 1);
    }
  }

  function Xor(a: byte, b: byte): byte {
    XorBounded(a, b, 8);
    assert Pow2(8) == 0x100;
    XorBits(a, b, 8)
  }

  lemma XorTwice(a: byte, b: byte)
    ensures Xor(Xor(a, b), b) == a
  {
    XorUndone(a, b, 8);
  }

  lemma {:induction false} XorZero(a: nat, width: nat)
    requires a < Pow2(width)
    ensures XorBits(a, 0, width) == a
  {
    if width > 0 {
      XorZero(a / 2, width - 1);
    }
  }

  /** A mask of four bits leaves the upper half of a byte alone. */
  lemma XorLow(a: byte, b: byte)
    requires b < 16
    ensures Xor(a, b) / 16 == a / 16
  {
    XorZero(a / 16, 4);
    XorHalf(a, b, 7);
    XorHalf(a / 2, b / 2, 6);
    XorHalf(a / 4, b / 4, 5);
    XorHalf(a / 8, b / 8, 4);
    assert a / 2 / 2 / 2 / 2 == a / 16 && b / 2 / 2 / 2 / 2 == 0;
  }

  lemma XorHalf(a: nat, b: nat, width: nat)
    ensures XorBits(a, b, width + 1) / 2 == XorBits(a / 2, b / 2, width)
  {}
}
