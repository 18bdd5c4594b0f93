/** Bytes, 64-bit words and their big-endian encodings, as Go's uint8, uint64
    and encoding/binary use them. */
module Bytes {

  const WORD: int := 0x1_0000_0000_0000_0000

  type Byte = x: int | 0 <= x < 256
  type Word = x: int | 0 <= x < 0x1_0000_0000_0000_0000

  /** The bytes of a string all of whose characters are single bytes. */
  function Ascii(s: string): (bs: seq<Byte>)
    ensures |bs| == |s|
  {
    seq(|s|, i requires 0 <= i < |s| => (s[i] as int) % 256)
  }

  // ---- exclusive or ----

  /** Bitwise exclusive or, one bit at a time. */
  function Xor(a: nat, b: nat): nat {
    if a == 0 && b == 0 then 0 else 2 * Xor(a / 2, b / 2) + (if a % 2 == b % 2 then 0 else 1)
  }

  lemma XorParts(a: nat, b: nat)
    ensures Xor(a, b) / 2 == Xor(a / 2, b / 2) && Xor(a, b) % 2 == if a % 2 == b % 2 then 0 else 1
  {
  }

  lemma {:induction false} XorCommutes(a: nat, b: nat)
    ensures Xor(a, b) == Xor(b, a)
  {
    if a != 0 || b != 0 {
      XorCommutes(a / 2, b / 2);
    }
  }

  lemma {:induction false} XorCancels(a: nat, b: nat)
    ensures Xor(Xor(a, b), b) == a
  {
    if a != 0 || b != 0 {
      var x := Xor(a, b);
      var y := Xor(x, b);
      XorParts(a, b);
      XorParts(x, b);
      XorCancels(a / 2, b / 2);
      assert y / 2 == a / 2 && y % 2 == a % 2;
    }
  }

  lemma {:induction false} XorZero(a: nat)
    ensures Xor(a, 0) == a
  {
    if a == 0 {
    } else {
      XorZero(a / 2);
    }
  }

  /** `q` moved up by `n` bits. */
  function Shifted(q: nat, n: nat): nat {
    if n == 0 then q else 2 * Shifted(q, n - 1)
  }

  /** Exclusive or with a number of `n` bits leaves the bits above them alone. */
  lemma {:induction false} XorHigh(q: nat, r: nat, c: nat, n: nat)
    requires r < Pow2(n) && c < Pow2(n)
    ensures Xor(Shifted(q, n) + r, c) == Shifted(q, n) + Xor(r, c)
  {
    if n == 0 {
      XorZero(q);
    } else {
      var h := Shifted(q, n - 1);
      XorHigh(q, r / 2, c / 2, n - 1);
      XorParts(2 * h + r, c);
      XorParts(r, c);
      assert (2 * h + r) / 2 == h + r / 2 && (2 * h + r) % 2 == r % 2;
    }
  }

  /** On a word and a byte: only the last byte of the word changes. */
  lemma XorLastByte(q: nat, r: Byte, c: Byte)
    requires 256 * q + r < WORD
    ensures XorWord(256 * q + r, c) == 256 * q + Xor(r, c)
  {
    assert Shifted(q, 1) == 2 * q;
    assert Shifted(q, 2) == 4 * q;
    assert Shifted(q, 3) == 8 * q;
    assert Shifted(q, 4) == 16 * q;
    assert Shifted(q, 5) == 32 * q;
    assert Shifted(q, 6) == 64 * q;
    assert Shifted(q, 7) == 128 * q;
    assert Shifted(q, 8) == 256 * q;
    assert Pow2(4) == 16;
    assert Pow2(8) == 256;
    XorHigh(q, r, c, 8);
  }

  /** Exclusive or with `b` moves a number by at most `b`. */
  lemma {:induction false} XorNear(a: nat, b: nat)
    ensures a - b <= Xor(a, b) <= a + b
  {
    if a != 0 || b != 0 {
      XorNear(a / 2, b / 2);
    }
  }

  function Pow2(n: nat): nat {
    if n == 0 then 1 else 2 * Pow2(n - 1)
  }

  /** Exclusive or stays within the width of its operands. */
  lemma {:induction false} XorWidth(a: nat, b: nat, n: nat)
    requires a < Pow2(n) && b < Pow2(n)
    ensures Xor(a, b) < Pow2(n)
  {
    if n == 0 {
    } else {
      XorWidth(a / 2, b / 2, n - 1);
    }
  }

  lemma Pow2Word()
    ensures Pow2(64) == WORD
  {
    assert Pow2(8) == 0x100;
    assert Pow2(16) == 0x1_0000;
    assert Pow2(24) == 0x100_0000;
    assert Pow2(32) == 0x1_0000_0000;
    assert Pow2(40) == 0x100_0000_0000;
    assert Pow2(48) == 0x1_0000_0000_0000;
    assert Pow2(56) == 0x100_0000_0000_0000;
  }

  /** `h ^ c` on 64-bit words. */
  function XorWord(h: Word, c: Byte): (r: Word) {
    Pow2Word();
    XorWidth(h, c, 64);
    Xor(h, c)
  }

  lemma XorWordInjective(h: Word, h': Word, c: Byte, c': Byte)
    ensures XorWord(h, c) == XorWord(h', c) ==> h == h'
    ensures XorWord(h, c) == XorWord(h, c') ==> c == c'
    ensures -255 <= XorWord(h, c) - h <= 255
  {
    XorCancels(h, c);
    XorCancels(h', c);
    XorCommutes(h, c);
    XorCommutes(h, c');
    XorCancels(c, h);
    XorCancels(c', h);
    XorNear(h, c);
  }

  // ---- big-endian numbers ----

  /** binary.BigEndian.PutUint16 and PutUint64: the `n` low bytes of `v`. */
  function PutBig(v: nat, n: nat): (bs: seq<Byte>)
    ensures |bs| == n
  {
    if n == 0 then [] else PutBig(v / 256, n - 1) + [v % 256]
  }

  /** binary.BigEndian.Uint16 and Uint64. */
  function Big(bs: seq<Byte>): nat {
    if bs == [] then 0 else 256 * Big(bs[..|bs| - 1]) + bs[|bs| - 1]
  }

  function Pow256(n: nat): nat {
    if n == 0 then 1 else 256 * Pow256(n - 1)
  }

  lemma BigAppend(bs: seq<Byte>, b: Byte)
    ensures Big(bs + [b]) == 256 * Big(bs) + b
  {
    assert (bs + [b])[..|bs|] == bs;
  }

  lemma {:induction false} BigPut(v: nat, n: nat)
    requires v < Pow256(n)
    ensures Big(PutBig(v, n)) == v
  {
    if n == 0 {
    } else {
      var q := v / 256;
      BigPut(q, n - 1);
      BigAppend(PutBig(q, n - 1), v % 256);
      assert v == 256 * q + v % 256;
    }
  }

  lemma {:induction false} PutBigOf(bs: seq<Byte>)
    ensures Big(bs) < Pow256(|bs|)
    ensures PutBig(Big(bs), |bs|) == bs
  {
    if bs == [] {
    } else {
      var n := |bs| - 1;
      PutBigOf(bs[..n]);
      assert bs == bs[..n] + [bs[n]];
      assert Big(bs) / 256 == Big(bs[..n]) && Big(bs) % 256 == bs[n];
    }
  }

  /** Big-endian: the first byte is the most significant one. */
  lemma {:induction false} BigMeans(b: Byte, bs: seq<Byte>)
    ensures Big([b] + bs) == b * Pow256(|bs|) + Big(bs)
  {
    var t := [b] + bs;
    if bs == [] {
      assert t[..0] == [];
    } else {
      var n := |bs| - 1;
      assert t[..|t| - 1] == [b] + bs[..n];
      BigMeans(b, bs[..n]);
      assert b * Pow256(|bs|) == 256 * (b * Pow256(n));
    }
  }

  lemma Pow256Values()
    ensures Pow256(2) == 0x1_0000 && Pow256(8) == WORD
  {
    assert Pow256(4) == 0x1_0000_0000;
    assert Pow256(6) == 0x1_0000_0000_0000;
  }
}
