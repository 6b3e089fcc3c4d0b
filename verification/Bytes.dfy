/** Bytes and big-endian numbers. */
module Bytes {

  newtype Byte = n: int | 0 <= n < 256 witness 0

  function Power(k: nat): nat { if k == 0 then 1 else 256 * Power(k - 1) }

  /** The big-endian form of a number in `k` bytes. */
  function BigEndian(n: nat, k: nat): (b: seq<Byte>)
    requires n < Power(k)
    ensures |b| == k
  {
    if k == 0 then [] else BigEndian(n / 256, k - 1) + [(n % 256) as Byte]
  }

  /** The number that bytes stand for, most significant first. */
  function Number(b: seq<Byte>): (n: nat)
    ensures n < Power(|b|)
  {
    if b == [] then 0 else 256 * Number(b[..|b| - 1]) + b[|b| - 1] as int
  }

  lemma {:induction false} NumberOfBigEndian(n: nat, k: nat)
    requires n < Power(k)
    ensures Number(BigEndian(n, k)) == n
  {
    if k > 0 {
      NumberOfBigEndian(n / 256, k - 1);
      assert BigEndian(n, k)[..k - 1] == BigEndian(n / 256, k - 1);
    }
  }

  lemma {:induction false} BigEndianOfNumber(b: seq<Byte>)
    ensures BigEndian(Number(b), |b|) == b
  {
    if b != [] {
      BigEndianOfNumber(b[..|b| - 1]);
      assert b == b[..|b| - 1] + [b[|b| - 1]];
    }
  }

  // Exclusive or of the `k` low bits, bit by bit.
  function XorBits(a: nat, b: nat, k: nat): (x: nat)
    ensures x < Power2(k)
  {
    if k == 0 then 0 else Differ(a, b) + 2 * XorBits(a / 2, b / 2, k - 1)
  }

  // The lowest bit.
  function Differ(a: nat, b: nat): nat { if a % 2 != b % 2 then 1 else 0 }

  lemma LowBit(a: nat, b: nat, y: nat)
    ensures (Differ(a, b) + 2 * y) / 2 == y
    ensures Differ(Differ(a, b) + 2 * y, b) == a % 2
  {
    if Differ(a, b) == 1 { assert (1 + 2 * y) % 2 == 1; } else { assert (2 * y) % 2 == 0; }
  }

  function Power2(k: nat): nat { if k == 0 then 1 else 2 * Power2(k - 1) }

  lemma {:induction false} XorBitsTwice(a: nat, b: nat, k: nat)
    requires a < Power2(k)
    ensures XorBits(XorBits(a, b, k), b, k) == a
  {
    if k > 0 {
      XorBitsTwice(a / 2, b / 2, k - 1);
      LowBit(a, b, XorBits(a / 2, b / 2, k - 1));
      hide Differ;
    }
  }

  function Xor(a: Byte, b: Byte): Byte {
    assert Power2(8) == 256 by { Powers(); }
    XorBits(a as int, b as int, 8) as Byte
  }

  lemma Powers()
    ensures Power2(8) == 256 && Power(1) == 256 && Power(2) == 0x1_0000 && Power(4) == 0x1_0000_0000
    ensures Power(8) == 0x1_0000_0000_0000_0000
  {
    assert Power(4) == 256 * (256 * Power(2)) && Power(6) == 256 * (256 * Power(4)) && Power(8) == 256 * (256 * Power(6));
    assert Power2(4) == 4 * Power2(2) && Power2(6) == 4 * Power2(4) && Power2(8) == 4 * Power2(6);
  }

  lemma XorTwice(a: Byte, b: Byte)
    ensures Xor(Xor(a, b), b) == a
  {
    Powers();
    XorBitsTwice(a as int, b as int, 8);
  }
}
