/** Where the numbers of FIPS 180-4 come from, what its functions compute, and that its padding loses
    nothing. */
module Sha256Meaning {
  import opened Bytes
  import opened Sha256

  // ---------------------------------------------------------------- constants

  /** The first sixty-four primes. */
  const PRIMES: seq<nat> :=
    [2, 3, 5, 7, 11, 13, 17, 19]
    + [23, 29, 31, 37, 41, 43, 47, 53]
    + [59, 61, 67, 71, 73, 79, 83, 89]
    + [97, 101, 103, 107, 109, 113, 127, 131]
    + [137, 139, 149, 151, 157, 163, 167, 173]
    + [179, 181, 191, 193, 197, 199, 211, 223]
    + [227, 229, 233, 239, 241, 251, 257, 263]
    + [269, 271, 277, 281, 283, 293, 307, 311]

  const TWO32: nat := 0x1_0000_0000

  /** The integer parts of their cube roots. */
  function CubeRoot(p: nat): nat {
    if p < 8 then 1 else if p < 27 then 2 else if p < 64 then 3 else if p < 125 then 4 else if p < 216 then 5 else 6
  }

  /** f is the first thirty-two bits of the fractional part of the square root of p, n its integer part. */
  predicate SquareRootBits(p: nat, n: nat, f: nat) {
    var r := n * TWO32 + f;
    f < TWO32 && r * r <= p * TWO32 * TWO32 < (r + 1) * (r + 1)
  }

  predicate CubeRootBits(p: nat, n: nat, f: nat) {
    var r := n * TWO32 + f;
    f < TWO32 && r * r * r <= p * TWO32 * TWO32 * TWO32 < (r + 1) * (r + 1) * (r + 1)
  }

  /** Section 4.2.2: constant t comes from the cube root of the t-th prime. */
  lemma RoundConstantsAreCubeRoots(t: nat)
    requires t < 64
    ensures CubeRootBits(PRIMES[t], CubeRoot(PRIMES[t]), RoundConstant(t) as nat)
  {
    hide CubeRootBits, CubeRoot, RoundConstant;
    if t < 8 {
      FirstRow(t);
    } else if t < 16 {
      SecondRow(t);
    } else if t < 24 {
      ThirdRow(t);
    } else if t < 32 {
      FourthRow(t);
    } else if t < 40 {
      FifthRow(t);
    } else if t < 48 {
      SixthRow(t);
    } else if t < 56 {
      SeventhRow(t);
    } else {
      EighthRow(t);
    }
  }

  lemma FirstRow(t: nat)
    requires 0 <= t < 8
    ensures CubeRootBits(PRIMES[t], CubeRoot(PRIMES[t]), RoundConstant(t) as nat)
  {
    assert CubeRootBits(2, 1, 0x428a2f98);
    assert CubeRootBits(3, 1, 0x71374491);
    assert CubeRootBits(5, 1, 0xb5c0fbcf);
    assert CubeRootBits(7, 1, 0xe9b5dba5);
    assert CubeRootBits(11, 2, 0x3956c25b);
    assert CubeRootBits(13, 2, 0x59f111f1);
    assert CubeRootBits(17, 2, 0x923f82a4);
    assert CubeRootBits(19, 2, 0xab1c5ed5);
    hide CubeRootBits;
  }

  lemma SecondRow(t: nat)
    requires 8 <= t < 16
    ensures CubeRootBits(PRIMES[t], CubeRoot(PRIMES[t]), RoundConstant(t) as nat)
  {
    assert CubeRootBits(23, 2, 0xd807aa98);
    assert CubeRootBits(29, 3, 0x12835b01);
    assert CubeRootBits(31, 3, 0x243185be);
    assert CubeRootBits(37, 3, 0x550c7dc3);
    assert CubeRootBits(41, 3, 0x72be5d74);
    assert CubeRootBits(43, 3, 0x80deb1fe);
    assert CubeRootBits(47, 3, 0x9bdc06a7);
    assert CubeRootBits(53, 3, 0xc19bf174);
    hide CubeRootBits;
  }

  lemma ThirdRow(t: nat)
    requires 16 <= t < 24
    ensures CubeRootBits(PRIMES[t], CubeRoot(PRIMES[t]), RoundConstant(t) as nat)
  {
    assert CubeRootBits(59, 3, 0xe49b69c1);
    assert CubeRootBits(61, 3, 0xefbe4786);
    assert CubeRootBits(67, 4, 0x0fc19dc6);
    assert CubeRootBits(71, 4, 0x240ca1cc);
    assert CubeRootBits(73, 4, 0x2de92c6f);
    assert CubeRootBits(79, 4, 0x4a7484aa);
    assert CubeRootBits(83, 4, 0x5cb0a9dc);
    assert CubeRootBits(89, 4, 0x76f988da);
    hide CubeRootBits;
  }

  lemma FourthRow(t: nat)
    requires 24 <= t < 32
    ensures CubeRootBits(PRIMES[t], CubeRoot(PRIMES[t]), RoundConstant(t) as nat)
  {
    assert CubeRootBits(97, 4, 0x983e5152);
    assert CubeRootBits(101, 4, 0xa831c66d);
    assert CubeRootBits(103, 4, 0xb00327c8);
    assert CubeRootBits(107, 4, 0xbf597fc7);
    assert CubeRootBits(109, 4, 0xc6e00bf3);
    assert CubeRootBits(113, 4, 0xd5a79147);
    assert CubeRootBits(127, 5, 0x06ca6351);
    assert CubeRootBits(131, 5, 0x14292967);
    hide CubeRootBits;
  }

  lemma FifthRow(t: nat)
    requires 32 <= t < 40
    ensures CubeRootBits(PRIMES[t], CubeRoot(PRIMES[t]), RoundConstant(t) as nat)
  {
    assert CubeRootBits(137, 5, 0x27b70a85);
    assert CubeRootBits(139, 5, 0x2e1b2138);
    assert CubeRootBits(149, 5, 0x4d2c6dfc);
    assert CubeRootBits(151, 5, 0x53380d13);
    assert CubeRootBits(157, 5, 0x650a7354);
    assert CubeRootBits(163, 5, 0x766a0abb);
    assert CubeRootBits(167, 5, 0x81c2c92e);
    assert CubeRootBits(173, 5, 0x92722c85);
    hide CubeRootBits;
  }

  lemma SixthRow(t: nat)
    requires 40 <= t < 48
    ensures CubeRootBits(PRIMES[t], CubeRoot(PRIMES[t]), RoundConstant(t) as nat)
  {
    assert CubeRootBits(179, 5, 0xa2bfe8a1);
    assert CubeRootBits(181, 5, 0xa81a664b);
    assert CubeRootBits(191, 5, 0xc24b8b70);
    assert CubeRootBits(193, 5, 0xc76c51a3);
    assert CubeRootBits(197, 5, 0xd192e819);
    assert CubeRootBits(199, 5, 0xd6990624);
    assert CubeRootBits(211, 5, 0xf40e3585);
    assert CubeRootBits(223, 6, 0x106aa070);
    hide CubeRootBits;
  }

  lemma SeventhRow(t: nat)
    requires 48 <= t < 56
    ensures CubeRootBits(PRIMES[t], CubeRoot(PRIMES[t]), RoundConstant(t) as nat)
  {
    assert CubeRootBits(227, 6, 0x19a4c116);
    assert CubeRootBits(229, 6, 0x1e376c08);
    assert CubeRootBits(233, 6, 0x2748774c);
    assert CubeRootBits(239, 6, 0x34b0bcb5);
    assert CubeRootBits(241, 6, 0x391c0cb3);
    assert CubeRootBits(251, 6, 0x4ed8aa4a);
    assert CubeRootBits(257, 6, 0x5b9cca4f);
    assert CubeRootBits(263, 6, 0x682e6ff3);
    hide CubeRootBits;
  }

  lemma EighthRow(t: nat)
    requires 56 <= t < 64
    ensures CubeRootBits(PRIMES[t], CubeRoot(PRIMES[t]), RoundConstant(t) as nat)
  {
    assert CubeRootBits(269, 6, 0x748f82ee);
    assert CubeRootBits(271, 6, 0x78a5636f);
    assert CubeRootBits(277, 6, 0x84c87814);
    assert CubeRootBits(281, 6, 0x8cc70208);
    assert CubeRootBits(283, 6, 0x90befffa);
    assert CubeRootBits(293, 6, 0xa4506ceb);
    assert CubeRootBits(307, 6, 0xbef9a3f7);
    assert CubeRootBits(311, 6, 0xc67178f2);
    hide CubeRootBits;
  }

  /** Section 5.3.3: the initial hash value comes from the square roots of the first eight primes. */
  lemma InitialIsSquareRoots()
    ensures var v := INITIAL;
            && SquareRootBits(2, 1, v.a as nat) && SquareRootBits(3, 1, v.b as nat)
            && SquareRootBits(5, 2, v.c as nat) && SquareRootBits(7, 2, v.d as nat)
            && SquareRootBits(11, 3, v.e as nat) && SquareRootBits(13, 3, v.f as nat)
            && SquareRootBits(17, 4, v.g as nat) && SquareRootBits(19, 4, v.h as nat)
  {
  }

  // ---------------------------------------------------------------- functions

  /** Where x has a one, y is chosen, else z. */
  lemma ChChooses(x: bv32, y: bv32, z: bv32)
    ensures Ch(x, y, z) & x == y & x && Ch(x, y, z) & !x == z & !x
  {
  }

  /** Two of three win. */
  lemma MajDecides(x: bv32, y: bv32, z: bv32)
    ensures Maj(x, y, z) == (x & y) | (x & z) | (y & z)
  {
  }

  /** BigSigma0: x rotated by 2, 13 and 22. */
  lemma BigSigma0Rotates(x: bv32, p: bv32, q: bv32, r: bv32)
    requires p == (x >> 2) | (x << 30) && q == (x >> 13) | (x << 19) && r == (x >> 22) | (x << 10)
    ensures BigSigma0(x) == p ^ q ^ r
  {
    hide Rotr, BigSigma0;
    BigSigma0Parts(x);
    BigSigma0Of(x, p, q, r);
  }

  lemma BigSigma0Parts(x: bv32)
    ensures Rotr(x, 2) == (x >> 2) | (x << 30) && Rotr(x, 13) == (x >> 13) | (x << 19) && Rotr(x, 22) == (x >> 22) | (x << 10)
  {
  }

  lemma BigSigma0Of(x: bv32, p: bv32, q: bv32, r: bv32)
    requires Rotr(x, 2) == p && Rotr(x, 13) == q && Rotr(x, 22) == r
    ensures BigSigma0(x) == p ^ q ^ r
  {
    hide Rotr;
  }

  /** BigSigma1: by 6, 11 and 25. */
  lemma BigSigma1Rotates(x: bv32, p: bv32, q: bv32, r: bv32)
    requires p == (x >> 6) | (x << 26) && q == (x >> 11) | (x << 21) && r == (x >> 25) | (x << 7)
    ensures BigSigma1(x) == p ^ q ^ r
  {
    hide Rotr, BigSigma1;
    BigSigma1Parts(x);
    BigSigma1Of(x, p, q, r);
  }

  lemma BigSigma1Parts(x: bv32)
    ensures Rotr(x, 6) == (x >> 6) | (x << 26) && Rotr(x, 11) == (x >> 11) | (x << 21) && Rotr(x, 25) == (x >> 25) | (x << 7)
  {
  }

  lemma BigSigma1Of(x: bv32, p: bv32, q: bv32, r: bv32)
    requires Rotr(x, 6) == p && Rotr(x, 11) == q && Rotr(x, 25) == r
    ensures BigSigma1(x) == p ^ q ^ r
  {
    hide Rotr;
  }

  /** SmallSigma0: by 7 and 18, and shifted by 3. */
  lemma SmallSigma0Rotates(x: bv32, p: bv32, q: bv32)
    requires p == (x >> 7) | (x << 25) && q == (x >> 18) | (x << 14)
    ensures SmallSigma0(x) == p ^ q ^ (x >> 3)
  {
    hide Rotr, SmallSigma0;
    SmallSigma0Parts(x);
    SmallSigma0Of(x, p, q);
  }

  lemma SmallSigma0Parts(x: bv32)
    ensures Rotr(x, 7) == (x >> 7) | (x << 25) && Rotr(x, 18) == (x >> 18) | (x << 14)
  {
  }

  lemma SmallSigma0Of(x: bv32, p: bv32, q: bv32)
    requires Rotr(x, 7) == p && Rotr(x, 18) == q
    ensures SmallSigma0(x) == p ^ q ^ (x >> 3)
  {
    hide Rotr;
  }

  /** SmallSigma1: by 17 and 19, and shifted by 10. */
  lemma SmallSigma1Rotates(x: bv32, p: bv32, q: bv32)
    requires p == (x >> 17) | (x << 15) && q == (x >> 19) | (x << 13)
    ensures SmallSigma1(x) == p ^ q ^ (x >> 10)
  {
    hide Rotr, SmallSigma1;
    SmallSigma1Parts(x);
    SmallSigma1Of(x, p, q);
  }

  lemma SmallSigma1Parts(x: bv32)
    ensures Rotr(x, 17) == (x >> 17) | (x << 15) && Rotr(x, 19) == (x >> 19) | (x << 13)
  {
  }

  lemma SmallSigma1Of(x: bv32, p: bv32, q: bv32)
    requires Rotr(x, 17) == p && Rotr(x, 19) == q
    ensures SmallSigma1(x) == p ^ q ^ (x >> 10)
  {
    hide Rotr;
  }

  lemma FourFields(p: bv32, q: bv32, r: bv32, s: bv32, w: bv32, w3: bv32, w2: bv32, w1: bv32)
    requires p < 256 && q < 256 && r < 256 && s < 256 && w == (p << 24) | (q << 16) | (r << 8) | s
    requires w3 == w >> 24 && w2 == w >> 16 && w1 == w >> 8
    ensures w3 & 0xff == p & 0xff && w2 & 0xff == q & 0xff && w1 & 0xff == r & 0xff && w & 0xff == s & 0xff
  {
  }

  lemma WidenSmall(b: byte)
    ensures Widen(b) < 256
  {
  }

  lemma SameByte(x: bv32, y: bv32)
    requires x & 0xff == y & 0xff
    ensures ByteOf(x) == ByteOf(y)
  {
  }

  lemma BytesOfFields(p: bv32, q: bv32, r: bv32, s: bv32, w: bv32, w3: bv32, w2: bv32, w1: bv32)
    requires p < 256 && q < 256 && r < 256 && s < 256 && w == (p << 24) | (q << 16) | (r << 8) | s
    requires w3 == w >> 24 && w2 == w >> 16 && w1 == w >> 8
    ensures WordBytes(w) == [ByteOf(p), ByteOf(q), ByteOf(r), ByteOf(s)]
  {
    hide ByteOf, WordBytes;
    FourFields(p, q, r, s, w, w3, w2, w1);
    FieldBytes(p, q, r, s, w, w3, w2, w1);
    BytesOfWord(w, w3, w2, w1);
  }

  lemma BytesOfWord(w: bv32, w3: bv32, w2: bv32, w1: bv32)
    requires w3 == w >> 24 && w2 == w >> 16 && w1 == w >> 8
    ensures WordBytes(w) == [ByteOf(w3), ByteOf(w2), ByteOf(w1), ByteOf(w)]
  {
    hide ByteOf;
  }

  lemma FieldBytes(p: bv32, q: bv32, r: bv32, s: bv32, w: bv32, w3: bv32, w2: bv32, w1: bv32)
    requires w3 & 0xff == p & 0xff && w2 & 0xff == q & 0xff && w1 & 0xff == r & 0xff && w & 0xff == s & 0xff
    ensures ByteOf(w3) == ByteOf(p) && ByteOf(w2) == ByteOf(q) && ByteOf(w1) == ByteOf(r) && ByteOf(w) == ByteOf(s)
  {
    hide ByteOf;
    SameByte(w3, p);
    SameByte(w2, q);
    SameByte(w1, r);
    SameByte(w, s);
  }

  /** Words are big-endian: a word's bytes come back in the order in which they made it. */
  lemma WordOfBytes(a: byte, b: byte, c: byte, d: byte)
    ensures WordBytes(Word(a, b, c, d)) == [ByteOf(Widen(a)), ByteOf(Widen(b)), ByteOf(Widen(c)), ByteOf(Widen(d))]
    ensures Word(a, b, c, d) == (Widen(a) << 24) | (Widen(b) << 16) | (Widen(c) << 8) | Widen(d)
  {
    hide Widen, ByteOf, WordBytes;
    WidenSmall(a);
    WidenSmall(b);
    WidenSmall(c);
    WidenSmall(d);
    var w := Word(a, b, c, d);
    BytesOfFields(Widen(a), Widen(b), Widen(c), Widen(d), w, w >> 24, w >> 16, w >> 8);
  }

  /** The first word of the message "abc", padded. */
  lemma AbcWord()
    ensures Word(0x61, 0x62, 0x63, 0x80) == 0x61626380
    ensures WordBytes(0x61626380) == [0x61, 0x62, 0x63, 0x80]
  {
  }

  lemma AddIsSum(x: bv32, y: bv32)
    ensures Add(x, y) == x + y
  {
  }

  /** Section 6.2.2, step 1: the schedule. */
  lemma ScheduleExactly(block: seq<byte>, t: nat)
    requires |block| == 64 && t < 64
    ensures t < 16 ==> W(block, t) == Word(block[4 * t], block[4 * t + 1], block[4 * t + 2], block[4 * t + 3])
    ensures t >= 16 ==> W(block, t) == Add4(SmallSigma1(W(block, t - 2)), W(block, t - 7), SmallSigma0(W(block, t - 15)), W(block, t - 16))
  {
    hide Word, SmallSigma0, SmallSigma1, Add4;
  }

  /** Steps 2 and 3: sixty-four rounds, the newest values first. */
  lemma RoundExactly(v: Vars, block: seq<byte>, t: nat)
    requires |block| == 64 && t < 64
    ensures Rounds(v, block, 0) == v
    ensures var u := Rounds(v, block, t);
            var t1 := Add(Add(Add(Add(u.h, BigSigma1(u.e)), Ch(u.e, u.f, u.g)), RoundConstant(t)), W(block, t));
            var t2 := Add(BigSigma0(u.a), Maj(u.a, u.b, u.c));
            Rounds(v, block, t + 1) == Vars(Add(t1, t2), u.a, u.b, u.c, Add(u.d, t1), u.e, u.f, u.g)
  {
    hide W, BigSigma0, BigSigma1, Ch, Maj, RoundConstant, Add;
  }

  /** Step 4: the result is added to what was there; and the digest is the eight words in order. */
  lemma CompressExactly(v: Vars, block: seq<byte>)
    requires |block| == 64
    ensures var u := Rounds(v, block, 64);
            Compress(v, block) == Vars(Add(v.a, u.a), Add(v.b, u.b), Add(v.c, u.c), Add(v.d, u.d),
                                       Add(v.e, u.e), Add(v.f, u.f), Add(v.g, u.g), Add(v.h, u.h))
    ensures Absorb(v, block) == Compress(v, block)
    ensures DigestBytes(v) == WordBytes(v.a) + WordBytes(v.b) + WordBytes(v.c) + WordBytes(v.d)
                            + WordBytes(v.e) + WordBytes(v.f) + WordBytes(v.g) + WordBytes(v.h)
  {
    hide Rounds, WordBytes, Add;
    OneBlock(v, block);
  }

  lemma OneBlock(v: Vars, block: seq<byte>)
    requires |block| == 64
    ensures Absorb(v, block) == Compress(v, block)
  {
    hide Compress;
    assert block[..64] == block && block[64..] == [];
  }

  // ---------------------------------------------------------------- padding

  /** Section 5.1.1: the message, a one bit, the fewest zeros that fill a block, and the bit length. */
  lemma PaddedExactly(m: seq<byte>)
    requires |m| < 0x2000_0000_0000_0000
    ensures var p, n := Padded(m), |Padded(m)|;
            && n % 64 == 0 && |m| + 9 <= n < |m| + 9 + 64
            && p[..|m|] == m && p[|m|] == 0x80 && (forall i :: |m| < i < n - 8 ==> p[i] == 0)
            && FromBE(p[n - 8..]) == 8 * |m|
  {
    hide ToBE, FromBE, PadZeros;
    WholeBlocks(|m|);
    Pow256Widths();
    FromBEToBE(8 * |m|, 8);
    assert Padded(m)[|Padded(m)| - 8..] == ToBE(8 * |m|, 8);
  }

  /** Different messages are padded differently. */
  lemma PaddingInjective(a: seq<byte>, b: seq<byte>)
    requires |a| < 0x2000_0000_0000_0000 && |b| < 0x2000_0000_0000_0000 && Padded(a) == Padded(b)
    ensures a == b
  {
    hide Padded, FromBE;
    PaddedExactly(a);
    PaddedExactly(b);
  }
}
