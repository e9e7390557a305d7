/** The legacy pairing functions of sw2d_final.c over an uninterpreted block cipher. */
module Pairing {
  import opened Bytes

  // e(key, block): AES-128 on one block. Only injectivity in the block is ever used.
  type Cipher = (Block, Block) -> Block

  ghost predicate Injective(e: Cipher) {
    forall k: Block, x: Block, y: Block :: e(k, x) == e(k, y) ==> x == y
  }

  function XorBlock(a: Block, b: Block): (r: Block) {
    seq(16, i requires 0 <= i < 16 => Xor(a[i], b[i]))
  }

  lemma XorBlockCancels(a: Block, b: Block, c: Block)
    requires XorBlock(a, b) == XorBlock(a, c)
    ensures b == c
  {
    forall i | 0 <= i < 16 ensures b[i] == c[i] {
      assert XorBlock(a, b)[i] == XorBlock(a, c)[i];
      XorBitsCancels(a[i], b[i], c[i], 8);
    }
  }

  lemma XorBlockCommutes(a: Block, b: Block)
    ensures XorBlock(a, b) == XorBlock(b, a)
  {
    forall i | 0 <= i < 16 ensures XorBlock(a, b)[i] == XorBlock(b, a)[i] {
      XorBitsCommutes(a[i], b[i], 8);
    }
  }

  // A Pairing Request or Pairing Response, opcode included.
  type PairingPdu = s: Data | |s| == 7 witness seq(7, _ => 0)

  function P1(preq: PairingPdu, pres: PairingPdu, iat: Byte, rat: Byte): Block {
    pres + preq + [rat, iat]
  }

  function P2(ia: Address, ra: Address): Block {
    [0, 0, 0, 0] + ia + ra
  }

  function C1(e: Cipher, k: Block, r: Block, preq: PairingPdu, pres: PairingPdu,
              iat: Byte, ia: Address, rat: Byte, ra: Address): Block
  {
    e(k, XorBlock(e(k, XorBlock(r, P1(preq, pres, iat, rat))), P2(ia, ra)))
  }

  function S1(e: Cipher, k: Block, r1: Block, r2: Block): Block {
    e(k, r1[..8] + r2[..8])
  }

  // The common core of the injectivity results: equal values with equal addresses
  // come from equal inner blocks.
  lemma C1Inner(e: Cipher, k: Block, x: Block, y: Block, p: Block)
    requires Injective(e)
    requires e(k, XorBlock(e(k, x), p)) == e(k, XorBlock(e(k, y), p))
    ensures x == y
  {
    XorBlockCommutes(e(k, x), p);
    XorBlockCommutes(e(k, y), p);
    XorBlockCancels(p, e(k, x), e(k, y));
  }

  /** For one transcript, a Confirm value is met by exactly one Random. */
  lemma C1InjectiveInRandom(e: Cipher, k: Block, r: Block, r': Block, preq: PairingPdu, pres: PairingPdu,
                            iat: Byte, ia: Address, rat: Byte, ra: Address)
    requires Injective(e)
    ensures C1(e, k, r, preq, pres, iat, ia, rat, ra) == C1(e, k, r', preq, pres, iat, ia, rat, ra) <==> r == r'
  {
    if C1(e, k, r, preq, pres, iat, ia, rat, ra) == C1(e, k, r', preq, pres, iat, ia, rat, ra) {
      var p1 := P1(preq, pres, iat, rat);
      C1Inner(e, k, XorBlock(r, p1), XorBlock(r', p1), P2(ia, ra));
      XorBlockCommutes(r, p1);
      XorBlockCommutes(r', p1);
      XorBlockCancels(p1, r, r');
    }
  }

  /** A Confirm value binds both pairing PDUs and both address types. */
  lemma C1InjectiveInPdus(e: Cipher, k: Block, r: Block,
                          preq: PairingPdu, pres: PairingPdu, iat: Byte, rat: Byte,
                          preq': PairingPdu, pres': PairingPdu, iat': Byte, rat': Byte, ia: Address, ra: Address)
    requires Injective(e)
    ensures C1(e, k, r, preq, pres, iat, ia, rat, ra) == C1(e, k, r, preq', pres', iat', ia, rat', ra)
            <==> preq == preq' && pres == pres' && iat == iat' && rat == rat'
  {
    if C1(e, k, r, preq, pres, iat, ia, rat, ra) == C1(e, k, r, preq', pres', iat', ia, rat', ra) {
      var p, p' := P1(preq, pres, iat, rat), P1(preq', pres', iat', rat');
      C1Inner(e, k, XorBlock(r, p), XorBlock(r, p'), P2(ia, ra));
      XorBlockCancels(r, p, p');
      assert pres == p[..7] && pres' == p'[..7];
      assert preq == p[7..14] && preq' == p'[7..14];
      assert rat == p[14] && iat == p[15] && rat' == p'[14] && iat' == p'[15];
    }
  }

  /** A Confirm value binds both device addresses. */
  lemma C1InjectiveInAddresses(e: Cipher, k: Block, r: Block, preq: PairingPdu, pres: PairingPdu,
                               iat: Byte, rat: Byte, ia: Address, ra: Address, ia': Address, ra': Address)
    requires Injective(e)
    ensures C1(e, k, r, preq, pres, iat, ia, rat, ra) == C1(e, k, r, preq, pres, iat, ia', rat, ra')
            <==> ia == ia' && ra == ra'
  {
    if C1(e, k, r, preq, pres, iat, ia, rat, ra) == C1(e, k, r, preq, pres, iat, ia', rat, ra') {
      var p, p' := P2(ia, ra), P2(ia', ra');
      XorBlockCancels(e(k, XorBlock(r, P1(preq, pres, iat, rat))), p, p');
      assert ia == p[4..10] && ia' == p'[4..10];
      assert ra == p[10..16] && ra' == p'[10..16];
    }
  }

  /** Two sessions share a key exactly when both randoms agree on their first eight bytes. */
  lemma S1DependsOnFirstHalves(e: Cipher, k: Block, r1: Block, r2: Block, q1: Block, q2: Block)
    requires Injective(e)
    ensures S1(e, k, r1, r2) == S1(e, k, q1, q2) <==> r1[..8] == q1[..8] && r2[..8] == q2[..8]
  {
    var d: Block, d': Block := r1[..8] + r2[..8], q1[..8] + q2[..8];
    if e(k, d) == e(k, d') {
      assert r1[..8] == d[..8] && q1[..8] == d'[..8];
      assert r2[..8] == d[8..] && q2[..8] == d'[8..];
    }
  }

  /** The block masked first, byte by byte: response, request, responder's address type, initiator's. */
  lemma FirstMask(preq: PairingPdu, pres: PairingPdu, iat: Byte, rat: Byte, i: nat)
    requires i < 16
    ensures P1(preq, pres, iat, rat)[i]
            == if i < 7 then pres[i] else if i < 14 then preq[i - 7] else if i == 14 then rat else iat
  {
  }

  /** The block masked second: four zeros, the initiator's address, the responder's. */
  lemma SecondMask(ia: Address, ra: Address, i: nat)
    requires i < 16
    ensures P2(ia, ra)[i] == if i < 4 then 0 else if i < 10 then ia[i - 4] else ra[i - 10]
  {
  }

  /** c1 encrypts twice: the Random masked by the first block, then the result masked by the second. */
  lemma C1Layout(e: Cipher, k: Block, r: Block, preq: PairingPdu, pres: PairingPdu,
                 iat: Byte, ia: Address, rat: Byte, ra: Address, x: Block, y: Block)
    requires forall i | 0 <= i < 16 ::
               x[i] == Xor(r[i], if i < 7 then pres[i] else if i < 14 then preq[i - 7]
                                 else if i == 14 then rat else iat)
    requires forall i | 0 <= i < 16 ::
               y[i] == Xor(e(k, x)[i], if i < 4 then 0 else if i < 10 then ia[i - 4] else ra[i - 10])
    ensures C1(e, k, r, preq, pres, iat, ia, rat, ra) == e(k, y)
  {
    var p1, p2 := P1(preq, pres, iat, rat), P2(ia, ra);
    forall i | 0 <= i < 16 ensures x[i] == XorBlock(r, p1)[i] { FirstMask(preq, pres, iat, rat, i); }
    assert x == XorBlock(r, p1);
    forall i | 0 <= i < 16 ensures y[i] == XorBlock(e(k, x), p2)[i] { SecondMask(ia, ra, i); }
    assert y == XorBlock(e(k, x), p2);
  }

  /** s1 encrypts the first half of the first Random and the first half of the second, in this order. */
  lemma S1Layout(e: Cipher, k: Block, r1: Block, r2: Block, x: Block)
    requires forall i | 0 <= i < 16 :: x[i] == if i < 8 then r1[i] else r2[i - 8]
    ensures S1(e, k, r1, r2) == e(k, x)
  {
    assert x == r1[..8] + r2[..8];
  }

  // ---------- the functions as they fill their buffers ----------

  method Copy(to: array<Byte>, at: nat, from: Data)
    requires at + |from| <= to.Length
    modifies to
    ensures to[..] == old(to[..at]) + from + old(to[at + |from|..])
  {
    forall i | 0 <= i < |from| { to[at + i] := from[i]; }
  }

  method AesInPlace(e: Cipher, k: Block, block: array<Byte>)
    requires block.Length == 16
    modifies block
    ensures block[..] == e(k, old(block[..]))
  {
    Copy(block, 0, e(k, block[..]));
  }

  method XorOnto(block: array<Byte>, mask: array<Byte>)
    requires block.Length == mask.Length == 16 && block != mask
    modifies block
    ensures block[..] == XorBlock(old(block[..]), mask[..])
  {
    for i := 0 to 16
      invariant forall j | 0 <= j < i :: block[j] == Xor(old(block[j]), mask[j])
      invariant forall j | i <= j < 16 :: block[j] == old(block[j])
    {
      block[i] := Xor(block[i], mask[i]);
    }
  }

  method FillP1(preq: PairingPdu, pres: PairingPdu, iat: Byte, rat: Byte) returns (p1: array<Byte>)
    ensures fresh(p1) && p1[..] == P1(preq, pres, iat, rat)
  {
    p1 := new Byte[16](_ => 0);
    Copy(p1, 0, pres);
    Copy(p1, 7, preq);
    p1[14] := rat;
    p1[15] := iat;
  }

  method FillP2(ia: Address, ra: Address) returns (p2: array<Byte>)
    ensures fresh(p2) && p2[..] == P2(ia, ra)
  {
    p2 := new Byte[16](_ => 0);
    Copy(p2, 4, ia);
    Copy(p2, 10, ra);
  }

  /** smp_c1 */
  method SmpC1(e: Cipher, k: Block, r: Block, preq: PairingPdu, pres: PairingPdu,
               iat: Byte, ia: Address, rat: Byte, ra: Address, confirm: array<Byte>)
    requires confirm.Length == 16
    modifies confirm
    ensures confirm[..] == C1(e, k, r, preq, pres, iat, ia, rat, ra)
  {
    var p1 := FillP1(preq, pres, iat, rat);
    var tmp := new Byte[16](i requires 0 <= i < 16 => r[i]);
    assert tmp[..] == r;
    XorOnto(tmp, p1);
    AesInPlace(e, k, tmp);
    var p2 := FillP2(ia, ra);
    XorOnto(tmp, p2);
    Copy(confirm, 0, e(k, tmp[..]));
  }

  /** smp_s1 */
  method SmpS1(e: Cipher, k: Block, r1: Block, r2: Block, stk: array<Byte>)
    requires stk.Length == 16
    modifies stk
    ensures stk[..] == S1(e, k, r1, r2)
  {
    var d := new Byte[16](_ => 0);
    Copy(d, 0, r1[..8]);
    Copy(d, 8, r2[..8]);
    assert d[..] == r1[..8] + r2[..8];
    Copy(stk, 0, e(k, d[..]));
  }
}
