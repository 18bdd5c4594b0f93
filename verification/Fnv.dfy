/** The two FNV-1a style keys: netutil.AddrKey, which names a peer's flag cycle,
    and tunnelpool's addrPairKey, which names a UDP stream. Both fold bytes into a
    64-bit state; they differ in offset and multiplier. */
module Fnv {
  import opened Bytes

  const OFFSET_64: Word := 14695981039346656037
  const PRIME_64: Word := 1099511628211
  const INVERSE_64: Word := 14886173955864302971

  /** addrPairKey pairs the 32-bit constants with a 64-bit state. */
  const OFFSET_32: Word := 2166136261
  const PRIME_32: Word := 16777619
  const INVERSE_32: Word := 9778875398352553115

  predicate IsPrime(p: Word) {
    p == PRIME_64 || p == PRIME_32
  }

  function Step(h: Word, c: Byte, p: Word): Word {
    XorWord(h, c) * p % WORD
  }

  function Fold(h: Word, bs: seq<Byte>, p: Word): Word
    decreases |bs|
  {
    if bs == [] then h else Fold(Step(h, bs[0], p), bs[1..], p)
  }

  lemma {:induction false} FoldConcat(h: Word, bs: seq<Byte>, cs: seq<Byte>, p: Word)
    ensures Fold(h, bs + cs, p) == Fold(Fold(h, bs, p), cs, p)
    decreases |bs|
  {
    if bs == [] {
      assert bs + cs == cs;
    } else {
      assert (bs + cs)[1..] == bs[1..] + cs;
      FoldConcat(Step(h, bs[0], p), bs[1..], cs, p);
    }
  }

  lemma FoldSnoc(h: Word, bs: seq<Byte>, c: Byte, p: Word)
    ensures Fold(h, bs + [c], p) == Step(Fold(h, bs, p), c, p)
  {
    FoldConcat(h, bs, [c], p);
    assert Fold(Fold(h, bs, p), [c], p) == Fold(Step(Fold(h, bs, p), c, p), [], p);
  }

  // ---- one step is a bijection of the state ----

  /** Multiplication by either odd constant modulo 2^64 can be undone. */
  lemma MultiplyInjective(x: Word, y: Word, p: Word)
    requires IsPrime(p)
    requires x * p % WORD == y * p % WORD
    ensures x == y
  {
    var q := x * p / WORD - y * p / WORD;
    assert (x - y) * p == WORD * q;
    if p == PRIME_64 {
      var k := INVERSE_64 * PRIME_64 / WORD;
      assert INVERSE_64 * PRIME_64 == 1 + WORD * k;
      assert x - y == WORD * (q * INVERSE_64 - (x - y) * k);
    } else {
      var k := INVERSE_32 * PRIME_32 / WORD;
      assert INVERSE_32 * PRIME_32 == 1 + WORD * k;
      assert x - y == WORD * (q * INVERSE_32 - (x - y) * k);
    }
  }

  /** A step is injective in the state and in the byte it folds in. */
  lemma StepInjective(h: Word, h': Word, c: Byte, c': Byte, p: Word)
    requires IsPrime(p)
    ensures Step(h, c, p) == Step(h', c, p) ==> h == h'
    ensures Step(h, c, p) == Step(h, c', p) ==> c == c'
  {
    XorWordInjective(h, h', c, c');
    if Step(h, c, p) == Step(h', c, p) {
      MultiplyInjective(XorWord(h, c), XorWord(h', c), p);
    }
    if Step(h, c, p) == Step(h, c', p) {
      MultiplyInjective(XorWord(h, c), XorWord(h, c'), p);
    }
  }

  /** Two states never merge, whatever bytes follow. */
  lemma {:induction false} FoldInjective(h: Word, h': Word, bs: seq<Byte>, p: Word)
    requires IsPrime(p) && Fold(h, bs, p) == Fold(h', bs, p)
    ensures h == h'
    decreases |bs|
  {
    if bs == [] {
    } else {
      FoldInjective(Step(h, bs[0], p), Step(h', bs[0], p), bs[1..], p);
      StepInjective(h, h', bs[0], bs[0], p);
    }
  }

  // ---- three bytes in a row ----

  /** The square of a multiplier, reduced to 64 bits. */
  function Square(p: Word): Word {
    p * p % WORD
  }

  /** Differences small enough to come from three folded bytes cannot cancel: the
      multiplier and its square are too far apart, and too far below 2^64. */
  lemma SmallDifferences(p: Word, d: int, e: int, g: int, t: int)
    requires IsPrime(p)
    requires -510 <= d <= 510 && -510 <= e <= 510 && -510 <= g <= 510
    requires d * Square(p) + e * p - g == WORD * t
    ensures d == 0 && e == 0 && g == 0
  {
    if p == PRIME_64 {
      assert Square(p) == 956575116354345;
    } else {
      assert Square(p) == 281488499309161;
    }
  }

  /** Reducing modulo 2^64 after multiplying: the difference of two products. */
  lemma ProductDifference(x: Word, y: Word, p: Word) returns (m: int)
    ensures x * p % WORD - y * p % WORD == (x - y) * p - WORD * m
  {
    m := x * p / WORD - y * p / WORD;
    assert x * p == WORD * (x * p / WORD) + x * p % WORD;
    assert y * p == WORD * (y * p / WORD) + y * p % WORD;
  }

  lemma TwoProducts(p: Word, d: int, e: int, g: int, m0: int, m1: int) returns (t: int)
    requires IsPrime(p)
    requires (d * p - WORD * m0 + e) * p - WORD * m1 == g
    ensures d * Square(p) + e * p - g == WORD * t
  {
    t := m1 + m0 * p - d * (p * p / WORD);
    if p == PRIME_64 {
      assert PRIME_64 * PRIME_64 == WORD * (PRIME_64 * PRIME_64 / WORD) + Square(PRIME_64);
    } else {
      assert PRIME_32 * PRIME_32 == WORD * (PRIME_32 * PRIME_32 / WORD) + Square(PRIME_32);
    }
  }

  /** Two chains of two multiplications whose inputs, intermediate offsets and
      results stay close together are the same chain. */
  lemma CloseChains(p: Word, a: Word, a': Word, b: Word, b': Word)
    requires IsPrime(p)
    requires -510 <= a - a' <= 510
    requires -510 <= (b - a * p % WORD) - (b' - a' * p % WORD) <= 510
    requires -510 <= b * p % WORD - b' * p % WORD <= 510
    ensures a == a' && b == b'
  {
    var m0 := ProductDifference(a, a', p);
    var m1 := ProductDifference(b, b', p);
    var d, e := a - a', (b - a * p % WORD) - (b' - a' * p % WORD);
    var g := b * p % WORD - b' * p % WORD;
    assert d * p - WORD * m0 + e == b - b';
    var t := TwoProducts(p, d, e, g, m0, m1);
    SmallDifferences(p, d, e, g, t);
  }

  /** From one state, three bytes can be read back from the resulting state. */
  lemma ThreeSteps(h: Word, b: seq<Byte>, c: seq<Byte>, p: Word)
    requires IsPrime(p) && |b| == |c| == 3
    requires Fold(h, b, p) == Fold(h, c, p)
    ensures b == c
  {
    FoldThree(h, b, p);
    FoldThree(h, c, p);
    ThreeStepBytes(h, b[0], b[1], b[2], c[0], c[1], c[2], p);
  }

  lemma ThreeStepBytes(h: Word, b0: Byte, b1: Byte, b2: Byte, c0: Byte, c1: Byte, c2: Byte, p: Word)
    requires IsPrime(p)
    requires Step(Step(Step(h, b0, p), b1, p), b2, p) == Step(Step(Step(h, c0, p), c1, p), c2, p)
    ensures b0 == c0 && b1 == c1 && b2 == c2
  {
    var s1, t1 := Step(h, b0, p), Step(h, c0, p);
    var s2, t2 := Step(s1, b1, p), Step(t1, c1, p);
    MultiplyInjective(XorWord(s2, b2), XorWord(t2, c2), p);
    Offsets(h, h, b0, c0);
    Offsets(s1, t1, b1, c1);
    Offsets(s2, t2, b2, c2);
    CloseChains(p, XorWord(h, b0), XorWord(h, c0), XorWord(s1, b1), XorWord(t1, c1));
    XorWordInjective(h, h, b0, c0);
    XorWordInjective(s1, s1, b1, c1);
    XorWordInjective(s2, s2, b2, c2);
  }

  lemma Offsets(h: Word, h': Word, c: Byte, c': Byte)
    ensures -510 <= (XorWord(h, c) - h) - (XorWord(h', c') - h') <= 510
    ensures h == h' ==> -510 <= XorWord(h, c) - XorWord(h', c') <= 510
    ensures XorWord(h, c) == XorWord(h', c') ==> -510 <= h - h' <= 510
  {
    XorWordInjective(h, h', c, c');
    XorWordInjective(h', h, c', c);
  }

  lemma FoldThree(h: Word, b: seq<Byte>, p: Word)
    requires |b| == 3
    ensures Fold(h, b, p) == Step(Step(Step(h, b[0], p), b[1], p), b[2], p)
  {
    assert b == [b[0]] + ([b[1]] + [b[2]]);
    FoldSnoc(h, [b[0], b[1]], b[2], p);
    FoldSnoc(h, [b[0]], b[1], p);
    FoldSnoc(h, [], b[0], p);
    assert [] + [b[0]] == [b[0]] && [b[0]] + [b[1]] == [b[0], b[1]] && [b[0], b[1]] + [b[2]] == b;
  }

  /** Two byte strings that differ only inside a window of three consecutive bytes
      never share a key: the prefix, the suffix and the multiplier are arbitrary. */
  lemma WindowDistinct(pre: seq<Byte>, b: seq<Byte>, c: seq<Byte>, post: seq<Byte>, h: Word, p: Word)
    requires IsPrime(p) && |b| == |c| == 3
    ensures Fold(h, pre + b + post, p) == Fold(h, pre + c + post, p) <==> b == c
  {
    if Fold(h, pre + b + post, p) == Fold(h, pre + c + post, p) {
      forall w | w == b || w == c
        ensures Fold(h, pre + w + post, p) == Fold(Fold(Fold(h, pre, p), w, p), post, p)
      {
        FoldConcat(h, pre + w, post, p);
        FoldConcat(h, pre, w, p);
      }
      var s := Fold(h, pre, p);
      FoldInjective(Fold(s, b, p), Fold(s, c, p), post, p);
      ThreeSteps(s, b, c, p);
    }
  }

  /** Strings of one length that differ in a single byte never share a key. */
  lemma OneByteDistinct(bs: seq<Byte>, i: nat, c: Byte, h: Word, p: Word)
    requires IsPrime(p) && i < |bs|
    ensures Fold(h, bs[i := c], p) == Fold(h, bs, p) <==> c == bs[i]
  {
    var s := Fold(h, bs[..i], p);
    assert bs == bs[..i] + ([bs[i]] + bs[i + 1..]);
    assert bs[i := c] == bs[..i] + ([c] + bs[i + 1..]);
    FoldConcat(h, bs[..i], [bs[i]] + bs[i + 1..], p);
    FoldConcat(h, bs[..i], [c] + bs[i + 1..], p);
    assert ([bs[i]] + bs[i + 1..])[1..] == bs[i + 1..] && ([c] + bs[i + 1..])[1..] == bs[i + 1..];
    if Fold(h, bs[i := c], p) == Fold(h, bs, p) {
      FoldInjective(Step(s, bs[i], p), Step(s, c, p), bs[i + 1..], p);
      StepInjective(s, s, bs[i], c, p);
    }
  }

  // ---- AddrKey ----

  const MAPPED_PREFIX: seq<Byte> := [0, 0, 0, 0, 0, 0, 0, 0, 0, 0, 0xff, 0xff]

  /** net.IP.To16: the canonical sixteen bytes, or nothing for a malformed address. */
  function To16(ip: seq<Byte>): seq<Byte> {
    if |ip| == 4 then MAPPED_PREFIX + ip else if |ip| == 16 then ip else []
  }

  /** The two bytes of a port, most significant first. */
  function PortBytes(port: int): seq<Byte> {
    [port / 256 % 256, port % 256]
  }

  method AddrKey(ip: seq<Byte>, port: int) returns (h: Word)
    ensures h == Fold(OFFSET_64, To16(ip) + PortBytes(port), PRIME_64)
  {
    h := OFFSET_64;
    var b := To16(ip);
    for i := 0 to |b|
      invariant h == Fold(OFFSET_64, b[..i], PRIME_64)
    {
      FoldSnoc(OFFSET_64, b[..i], b[i], PRIME_64);
      assert b[..i + 1] == b[..i] + [b[i]];
      h := XorWord(h, b[i]);
      h := h * PRIME_64 % WORD;
    }
    assert b[..|b|] == b;
    FoldConcat(OFFSET_64, b, PortBytes(port), PRIME_64);
    ghost var s := h;
    h := XorWord(h, port / 256 % 256);
    h := h * PRIME_64 % WORD;
    h := XorWord(h, port % 256);
    h := h * PRIME_64 % WORD;
    FoldSnoc(s, [], port / 256 % 256, PRIME_64);
    FoldSnoc(s, [port / 256 % 256], port % 256, PRIME_64);
    assert [] + [port / 256 % 256] == [port / 256 % 256];
    assert [port / 256 % 256] + [port % 256] == PortBytes(port);
  }

  function AddrKeyOf(ip: seq<Byte>, port: int): Word {
    Fold(OFFSET_64, To16(ip) + PortBytes(port), PRIME_64)
  }

  /** An IPv4 address and the IPv6 address it is mapped to have one key. */
  lemma MappedKey(ip: seq<Byte>, port: int)
    requires |ip| == 4
    ensures AddrKeyOf(ip, port) == AddrKeyOf([0, 0, 0, 0, 0, 0, 0, 0, 0, 0, 0xff, 0xff] + ip, port)
  {
  }

  /** Of a malformed address only the port counts. */
  lemma MalformedKey(ip: seq<Byte>, port: int)
    requires |ip| != 4 && |ip| != 16
    ensures AddrKeyOf(ip, port) == AddrKeyOf([], port)
  {
  }

  /** A port is folded in as the two bytes that it has on the wire. */
  lemma PortKey(ip: seq<Byte>, port: nat)
    requires |ip| == 16 && port < 65536
    ensures AddrKeyOf(ip, port) == Fold(OFFSET_64, ip + PutBig(port, 2), PRIME_64)
  {
    assert PutBig(port / 256, 1) == [port / 256];
    assert PutBig(port, 2) == PortBytes(port);
  }

  lemma FoldOne(h: Word, c: Byte, p: Word)
    ensures Fold(h, [c], p) == XorWord(h, c) * p % WORD
  {
    FoldSnoc(h, [], c, p);
    assert [] + [c] == [c];
  }

  /** A published value of FNV-1a, the hash of the letter a. */
  lemma KnownHash()
    ensures Fold(OFFSET_64, Ascii("a"), PRIME_64) == 0xaf63dc4c8601ec8c
  {
    assert Ascii("a") == [97];
    assert Xor(0, 1) == 1 && Xor(1, 3) == 2 && Xor(2, 6) == 4;
    assert Xor(4, 12) == 8 && Xor(9, 24) == 17;
    assert Xor(18, 48) == 34 && Xor(0x25, 97) == 0x44;
    XorLastByte(57406175934947875, 0x25, 97);
    FoldOne(OFFSET_64, 97, PRIME_64);
  }

  /** Hosts of one IPv4 /24 network, or of one IPv6 /120, on any ports: all 2^24
      (host, port) pairs have different keys. */
  lemma AddrKeyDistinctInNetwork(ip: seq<Byte>, port: int, ip': seq<Byte>, port': int)
    requires |To16(ip)| == |To16(ip')| == 16 && To16(ip)[..15] == To16(ip')[..15]
    requires 0 <= port < 65536 && 0 <= port' < 65536
    ensures AddrKeyOf(ip, port) == AddrKeyOf(ip', port') <==> To16(ip) == To16(ip') && port == port'
  {
    var b, b' := To16(ip), To16(ip');
    var w, w' := [b[15]] + PortBytes(port), [b'[15]] + PortBytes(port');
    assert b + PortBytes(port) == b[..15] + w + [];
    assert b' + PortBytes(port') == b'[..15] + w' + [];
    WindowDistinct(b[..15], w, w', [], OFFSET_64, PRIME_64);
    if w == w' {
      assert w[1] == w'[1] && w[2] == w'[2] && w[0] == w'[0];
      assert b == b[..15] + [b[15]] && b' == b'[..15] + [b'[15]];
    }
  }

  // ---- addrPairKey ----

  function PairKey(a: seq<Byte>, b: seq<Byte>): Word {
    Fold(OFFSET_32, a + b, PRIME_32)
  }

  method AddrPairKey(a: seq<Byte>, b: seq<Byte>) returns (h: Word)
    ensures h == PairKey(a, b)
  {
    h := OFFSET_32;
    var parts := [a, b];
    ghost var done: seq<Byte> := [];
    for k := 0 to 2
      invariant done == if k == 0 then [] else if k == 1 then a else a + b
      invariant h == Fold(OFFSET_32, done, PRIME_32)
    {
      var s := parts[k];
      ghost var h0 := h;
      for i := 0 to |s|
        invariant h == Fold(h0, s[..i], PRIME_32)
      {
        FoldSnoc(h0, s[..i], s[i], PRIME_32);
        assert s[..i + 1] == s[..i] + [s[i]];
        h := XorWord(h, s[i]);
        h := h * PRIME_32 % WORD;
      }
      assert s[..|s|] == s;
      FoldConcat(OFFSET_32, done, s, PRIME_32);
      done := done + s;
    }
  }

  /** The key of pairs uses the constants of the 32-bit hash on 64 bits: its value for the
      letter a and nothing. */
  lemma KnownPairKey()
    ensures PairKey(Ascii("a"), []) == 36342608335481132
  {
    assert Ascii("a") + [] == [97];
    assert Xor(1, 0) == 1 && Xor(3, 1) == 2 && Xor(6, 3) == 5;
    assert Xor(12, 6) == 10 && Xor(24, 12) == 20;
    assert Xor(49, 24) == 41 && Xor(98, 48) == 82 && Xor(0xc5, 97) == 0xa4;
    XorLastByte(8461469, 0xc5, 97);
    FoldOne(OFFSET_32, 97, PRIME_32);
  }

  /** The key sees only the concatenation, so where the first string ends is lost:
      two different flows that share a key. */
  lemma PairKeyCollision()
    ensures Ascii("1.2.3.4:12") != Ascii("1.2.3.4:123")
    ensures PairKey(Ascii("1.2.3.4:12"), Ascii("34.1.1.1:80")) == PairKey(Ascii("1.2.3.4:123"), Ascii("4.1.1.1:80"))
  {
    assert |Ascii("1.2.3.4:12")| == 10 && |Ascii("1.2.3.4:123")| == 11;
    assert Ascii("1.2.3.4:12") + Ascii("34.1.1.1:80") == Ascii("1.2.3.4:123") + Ascii("4.1.1.1:80");
  }

  /** Clients that differ only in the last three characters of their address are
      told apart in front of one target. */
  lemma PairKeyDistinctTails(pre: seq<Byte>, w: seq<Byte>, w': seq<Byte>, b: seq<Byte>)
    requires |w| == |w'| == 3
    ensures PairKey(pre + w, b) == PairKey(pre + w', b) <==> w == w'
  {
    WindowDistinct(pre, w, w', b, OFFSET_32, PRIME_32);
  }
}
