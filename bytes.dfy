/** The C# `byte` and the three operations the cipher applies to it. The
    compound assignments `^=`, `+=` and `-=` on a `byte` compute in `int` and
    keep the low 8 bits, so addition and subtraction wrap modulo 256. */
module Bytes {

  type Byte = b: int | 0 <= b < 256

  function Pow2(k: nat): (p: nat)
    ensures p >= 1
  {
    if k == 0 then 1 else 2 * Pow2(k - 1)
  }

  /** Bitwise exclusive or of two naturals, from the lowest bit up. */
  function BitXor(a: nat, b: nat): nat
    decreases a + b
  {
    if a == 0 && b == 0 then 0
    else 2 * BitXor(a / 2, b / 2) + (if a % 2 == b % 2 then 0 else 1)
  }

  /** XOR of two k-bit values is a k-bit value. */
  lemma {:induction false} BitXorBelow(a: nat, b: nat, k: nat)
    requires a < Pow2(k) && b < Pow2(k)
    ensures BitXor(a, b) < Pow2(k)
    decreases k
  {
    if k > 0 && !(a == 0 && b == 0) {
      BitXorBelow(a / 2, b / 2, k - 1);
    }
  }

  /** XOR with the same value twice is the identity. */
  lemma {:induction false} BitXorTwice(a: nat, b: nat)
    ensures BitXor(BitXor(a, b), b) == a
    decreases a + b
  {
    if !(a == 0 && b == 0) {
      var x := BitXor(a, b);
      BitXorTwice(a / 2, b / 2);
      assert x / 2 == BitXor(a / 2, b / 2);
      assert x % 2 == (if a % 2 == b % 2 then 0 else 1);
    }
  }

  /** Bit `k` of `x`, counting from the lowest. */
  predicate Bit(x: nat, k: nat)
    decreases k
  {
    if k == 0 then x % 2 == 1 else Bit(x / 2, k - 1)
  }

  /** Each bit of the XOR is set exactly when the operands' bits differ. */
  lemma {:induction false} BitXorBit(a: nat, b: nat, k: nat)
    ensures Bit(BitXor(a, b), k) == (Bit(a, k) != Bit(b, k))
    decreases k
  {
    if k > 0 {
      BitXorBit(a / 2, b / 2, k - 1);
      assert BitXor(a, b) / 2 == BitXor(a / 2, b / 2);
    }
  }

  lemma BitXorBits(a: nat, b: nat)
    ensures forall k: nat :: Bit(BitXor(a, b), k) == (Bit(a, k) != Bit(b, k))
  {
    forall k: nat
      ensures Bit(BitXor(a, b), k) == (Bit(a, k) != Bit(b, k))
    {
      BitXorBit(a, b, k);
    }
  }

  /** `a ^ b` on bytes. */
  function XorByte(a: Byte, b: Byte): (r: Byte)
    ensures forall k: nat :: Bit(r, k) == (Bit(a, k) != Bit(b, k))
  {
    BitXorBelow(a, b, 8);
    BitXorBits(a, b);
    BitXor(a, b)
  }

  /** `(byte)(a + b)`: a sum past 255 wraps round. */
  function AddByte(a: Byte, b: Byte): (r: Byte)
    ensures a + b < 256 ==> r == a + b
    ensures a + b >= 256 ==> r == a + b - 256
  {
    (a + b) % 256
  }

  /** `(byte)(a - b)`: the Euclidean remainder is the low 8 bits, so a
      difference below 0 wraps round. */
  function SubByte(a: Byte, b: Byte): (r: Byte)
    ensures a >= b ==> r == a - b
    ensures a < b ==> r == a - b + 256
  {
    (a - b) % 256
  }

  lemma XorByteTwice(a: Byte, b: Byte)
    ensures XorByte(XorByte(a, b), b) == a
  {
    BitXorTwice(a, b);
  }

  lemma SubUndoesAdd(a: Byte, b: Byte)
    ensures SubByte(AddByte(a, b), b) == a
  {
  }

  lemma AddUndoesSub(a: Byte, b: Byte)
    ensures AddByte(SubByte(a, b), b) == a
  {
  }
}
