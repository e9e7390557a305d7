/** Bytes, little-endian 16-bit words and byte blocks shared by all components. */
module Bytes {

  type Byte = b: int | 0 <= b < 0x100
  type Word = w: int | 0 <= w < 0x1_0000

  type Data = seq<Byte>
  type Block = s: Data | |s| == 16 witness seq(16, _ => 0)
  type Address = s: Data | |s| == 6 witness seq(6, _ => 0)

  // get_le16
  function Le16(lo: Byte, hi: Byte): Word {
    lo + 0x100 * hi
  }

  // put_le16
  function Put16(w: Word): (s: Data)
    ensures |s| == 2 && Le16(s[0], s[1]) == w
  {
    [w % 0x100, w / 0x100]
  }

  // The connection handle in the low twelve bits of a handle word.
  function Handle12(w: Word): (h: Word)
    ensures h < 0x1000
  {
    w % 0x1000
  }

  // Exclusive or, bit by bit.
  function Xor(a: Byte, b: Byte): Byte {
    assert Pow2(8) == 0x100;
    XorBits(a, b, 8)
  }

  function XorBits(a: nat, b: nat, bits: nat): (x: nat)
    ensures x < Pow2(bits)
  {
    if bits == 0 then 0 else (a + b) % 2 + 2 * XorBits(a / 2, b / 2, bits - 1)
  }

  function Pow2(n: nat): (p: nat)
    ensures p > 0
  {
    if n == 0 then 1 else 2 * Pow2(n - 1)
  }

  lemma SameParity(a: nat, b: nat, c: nat)
    requires (a + b) % 2 == (a + c) % 2 && b / 2 == c / 2
    ensures b == c
  {
    assert b == 2 * (b / 2) + b % 2;
  }

  lemma {:induction false} XorBitsCancels(a: nat, b: nat, c: nat, bits: nat)
    requires b < Pow2(bits) && c < Pow2(bits)
    requires XorBits(a, b, bits) == XorBits(a, c, bits)
    ensures b == c
  {
    if bits > 0 {
      var x, y := XorBits(a / 2, b / 2, bits - 1), XorBits(a / 2, c / 2, bits - 1);
      assert (a + b) % 2 + 2 * x == (a + c) % 2 + 2 * y;
      assert x == y;
      XorBitsCancels(a / 2, b / 2, c / 2, bits - 1);
      SameParity(a, b, c);
    }
  }

  lemma {:induction false} XorBitsCommutes(a: nat, b: nat, bits: nat)
    ensures XorBits(a, b, bits) == XorBits(b, a, bits)
  {
    if bits > 0 {
      XorBitsCommutes(a / 2, b / 2, bits - 1);
    }
  }

  /** A mask applied twice is off again. */
  lemma {:induction false} XorBitsUndoes(a: nat, b: nat, bits: nat)
    requires a < Pow2(bits)
    ensures XorBits(XorBits(a, b, bits), b, bits) == a
  {
    if bits > 0 {
      var x := XorBits(a / 2, b / 2, bits - 1);
      XorBitsUndoes(a / 2, b / 2, bits - 1);
      Halves((a + b) % 2, x);
      Parity(a, b);
      assert a == a % 2 + 2 * (a / 2);
    }
  }

  lemma Halves(p: nat, x: nat)
    requires p < 2
    ensures (p + 2 * x) / 2 == x && (p + 2 * x) % 2 == p
  {
  }

  lemma Parity(a: nat, b: nat)
    ensures forall c: nat :: c % 2 == (a + b) % 2 ==> (c + b) % 2 == a % 2
  {
  }
}
