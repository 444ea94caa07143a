/** The table-driven CRC-32 of include/collectivefabric/digest/crc32.hpp, proved against the
    bit-serial shift register with reflected polynomial 0xEDB88320.  Words are naturals below
    2^32; `x >> k` is division and `x & 0xff` a remainder, so only `^` needs a definition. */
module Crc32 {
  import opened Bytes

  const POLYNOMIAL: u32 := 0xEDB88320
  const ALL_ONES: u32 := 0xffffffff

  // ---------------------------------------------------------------- exclusive or

  /** Bitwise exclusive or. */
  function Xor(a: nat, b: nat): (r: nat)
    decreases a + b
  {
    if a == 0 && b == 0 then 0
    else (if a % 2 == b % 2 then 0 else 1) + 2 * Xor(a / 2, b / 2)
  }

  function Pow2(n: nat): nat { if n == 0 then 1 else 2 * Pow2(n - 1) }

  lemma {:induction false} XorBelow(a: nat, b: nat, n: nat)
    requires a < Pow2(n) && b < Pow2(n)
    ensures Xor(a, b) < Pow2(n)
    decreases n
  {
    if n > 0 {
      XorBelow(a / 2, b / 2, n - 1);
    }
  }

  lemma Pow2Word()
    ensures Pow2(8) == 0x100 && Pow2(31) == 0x8000_0000 && Pow2(32) == 0x1_0000_0000
  {
    assert Pow2(4) == 16;
    assert Pow2(12) == 0x1000;
    assert Pow2(16) == 0x1_0000;
    assert Pow2(20) == 0x10_0000;
    assert Pow2(24) == 0x100_0000;
    assert Pow2(28) == 0x1000_0000;
  }

  function Xor32(a: u32, b: u32): u32 {
    Pow2Word();
    XorBelow(a, b, 32);
    Xor(a, b)
  }

  lemma {:induction false} XorZero(a: nat)
    ensures Xor(a, 0) == a && Xor(0, a) == a
    decreases a
  {
    if a > 0 {
      XorZero(a / 2);
    }
  }

  lemma {:induction false} XorSelf(a: nat)
    ensures Xor(a, a) == 0
    decreases a
  {
    if a > 0 {
      XorSelf(a / 2);
    }
  }

  lemma {:induction false} XorCommutes(a: nat, b: nat)
    ensures Xor(a, b) == Xor(b, a)
    decreases a + b
  {
    if a + b > 0 {
      XorCommutes(a / 2, b / 2);
    }
  }

  lemma {:induction false} XorAssociates(a: nat, b: nat, c: nat)
    ensures Xor(a, Xor(b, c)) == Xor(Xor(a, b), c)
    decreases a + b + c
  {
    if a + b + c > 0 {
      XorAssociates(a / 2, b / 2, c / 2);
      XorHalves(b, c);
      XorHalves(a, b);
      XorHalves(a, Xor(b, c));
      XorHalves(Xor(a, b), c);
    }
  }

  lemma XorHalves(a: nat, b: nat)
    ensures Xor(a, b) / 2 == Xor(a / 2, b / 2)
    ensures Xor(a, b) % 2 == if a % 2 == b % 2 then 0 else 1
  {
  }

  /** The low binary digit of 2 * h + l. */
  lemma LowDigit(h: nat, l: nat)
    requires l < 2
    ensures (2 * h + l) / 2 == h && (2 * h + l) % 2 == l
  {
  }

  /** Exclusive or works digit by digit. */
  lemma XorDigits(g: nat, k: nat, h: nat, l: nat)
    requires k < 2 && l < 2
    ensures Xor(2 * g + k, 2 * h + l) == 2 * Xor(g, h) + (if k == l then 0 else 1)
  {
    LowDigit(g, k);
    LowDigit(h, l);
  }

  lemma XorCancels(a: nat, b: nat, c: nat)
    requires Xor(a, b) == Xor(a, c)
    ensures b == c
  {
    XorAssociates(a, a, b);
    XorAssociates(a, a, c);
    XorSelf(a);
    XorZero(b);
    XorZero(c);
  }

  // ---------------------------------------------------------------- the register

  /** One shift of the reflected register. */
  function BitStep(c: u32): u32 { if c % 2 == 1 then Xor32(POLYNOMIAL, c / 2) else c / 2 }

  function Steps(c: u32, k: nat): u32
    decreases k
  {
    if k == 0 then c else Steps(BitStep(c), k - 1)
  }

  /** The register after feeding data one byte at a time. */
  function Feed(c: u32, data: seq<byte>): u32 {
    if data == [] then c
    else Steps(Xor32(Feed(c, data[..|data| - 1]), data[|data| - 1]), 8)
  }

  /** The checksum of a whole message: Crc32::compute. */
  function Checksum(data: seq<byte>): u32 { Xor32(Feed(ALL_ONES, data), ALL_ONES) }

  lemma {:induction false} FeedConcat(c: u32, x: seq<byte>, y: seq<byte>)
    ensures Feed(c, x + y) == Feed(Feed(c, x), y)
    decreases |y|
  {
    hide Steps, Xor32;
    if y == [] {
      assert x + y == x;
    } else {
      var y' := y[..|y| - 1];
      FeedConcat(c, x, y');
      assert (x + y)[..|x + y| - 1] == x + y';
    }
  }

  // ---------------------------------------------------------------- reference definition

  /** The k low-order bits of v, least significant first. */
  function Bits(v: nat, k: nat): seq<u32>
    decreases k
  {
    if k == 0 then [] else [v % 2] + Bits(v / 2, k - 1)
  }

  function MessageBits(data: seq<byte>): seq<u32> {
    if data == [] then [] else MessageBits(data[..|data| - 1]) + Bits(data[|data| - 1], 8)
  }

  /** The bit-serial divider: each message bit is added to the bit about to leave the register. */
  function Divide(c: u32, bits: seq<u32>): u32
    decreases |bits|
  {
    if bits == [] then c else Divide(BitStep(Xor32(c, bits[0])), bits[1..])
  }

  lemma {:induction false} DivideConcat(c: u32, x: seq<u32>, y: seq<u32>)
    ensures Divide(c, x + y) == Divide(Divide(c, x), y)
    decreases |x|
  {
    if x == [] {
      assert x + y == y;
    } else {
      DivideConcat(BitStep(Xor32(c, x[0])), x[1..], y);
      assert (x + y)[1..] == x[1..] + y;
    }
  }

  lemma DivideNothing(c: u32)
    ensures Divide(c, []) == c
  {
  }

  /** Feeding bytes through the register is bit-serial division of the message's bits. */
  lemma {:induction false} FeedDivides(c: u32, data: seq<byte>)
    ensures Feed(c, data) == Divide(c, MessageBits(data))
  {
    hide Steps, Xor, Bits, Divide, HighPart;
    if data == [] {
      DivideNothing(c);
    } else {
      var front, b := data[..|data| - 1], data[|data| - 1];
      FeedDivides(c, front);
      ByteDivides(Feed(c, front), b, 8);
      Pow2Word();
      XorZero(Divide(Feed(c, front), Bits(b, 8)));
      DivideConcat(c, MessageBits(front), Bits(b, 8));
      HighBits(b, 8);
    }
  }

  /** v >> k */
  function HighPart(v: nat, k: nat): nat
    decreases k
  {
    if k == 0 then v else HighPart(v / 2, k - 1)
  }

  lemma {:induction false} HighBits(v: nat, k: nat)
    requires v < Pow2(k)
    ensures HighPart(v, k) == 0
    decreases k
  {
    if k > 0 {
      HighBits(v / 2, k - 1);
    }
  }

  lemma {:induction false} ByteDivides(c: u32, v: u32, k: nat)
    ensures Steps(Xor32(c, v), k) == Xor(Divide(c, Bits(v, k)), HighPart(v, k))
    decreases k
  {
    if k > 0 {
      var low := Xor32(c, v % 2);
      SplitLowBit(c, v);
      assert Xor(low, 2 * (v / 2)) == Xor32(c, v);
      StepField(low, v / 2);
      ByteDivides(BitStep(low), v / 2, k - 1);
      assert Bits(v, k)[1..] == Bits(v / 2, k - 1);
    }
  }

  lemma SplitLowBit(c: nat, v: nat)
    ensures Xor(c, v) == Xor(Xor(c, v % 2), 2 * (v / 2))
  {
    XorZero(c / 2);
    XorHalves(c, v % 2);
    XorHalves(Xor(c, v % 2), 2 * (v / 2));
    XorHalves(c, v);
    assert v % 2 / 2 == 0;
  }

  // ---------------------------------------------------------------- register algebra

  /** Register bits that a step only shifts can be added before or after the step. */
  lemma StepField(x: u32, y: nat)
    requires Xor(x, 2 * y) < 0x1_0000_0000
    ensures BitStep(Xor(x, 2 * y)) == Xor(BitStep(x), y)
  {
    hide Xor;
    var h, l := x / 2, x % 2;
    XorDigits(h, l, y, 0);
    LowDigit(Xor(h, y), l);
    if l == 1 {
      XorAssociates(POLYNOMIAL, h, y);
    }
  }

  /** y shifted left k times. */
  function Raised(y: nat, k: nat): nat
    decreases k
  {
    if k == 0 then y else 2 * Raised(y, k - 1)
  }

  lemma RaisedByte(y: nat)
    ensures Raised(y, 8) == 256 * y
  {
    assert Raised(y, 4) == 16 * y;
    assert Raised(y, 6) == 64 * y;
  }

  lemma {:induction false} StepsField(x: u32, y: nat, k: nat)
    requires Xor(x, Raised(y, k)) < 0x1_0000_0000
    ensures Steps(Xor(x, Raised(y, k)), k) == Xor(Steps(x, k), y)
    decreases k
  {
    if k > 0 {
      StepField(x, Raised(y, k - 1));
      StepsField(BitStep(x), y, k - 1);
    }
  }

  lemma BitStepInjective(c: u32, d: u32)
    requires BitStep(c) == BitStep(d)
    ensures c == d
  {
    if c % 2 == 1 && d % 2 == 1 {
      XorCancels(POLYNOMIAL, c / 2, d / 2);
    } else if c % 2 == 1 {
      PolynomialHasTopBit(c / 2, d / 2);
    } else if d % 2 == 1 {
      PolynomialHasTopBit(d / 2, c / 2);
    }
  }

  lemma PolynomialHasTopBit(h: nat, g: nat)
    requires h < 0x8000_0000 && g < 0x8000_0000
    ensures Xor(POLYNOMIAL, h) != g
  {
    if Xor(POLYNOMIAL, h) == g {
      XorAssociates(POLYNOMIAL, h, h);
      XorSelf(h);
      XorZero(POLYNOMIAL);
      Pow2Word();
      XorBelow(g, h, 31);
    }
  }

  lemma {:induction false} StepsInjective(c: u32, d: u32, k: nat)
    requires Steps(c, k) == Steps(d, k)
    ensures c == d
    decreases k
  {
    if k > 0 {
      StepsInjective(BitStep(c), BitStep(d), k - 1);
      BitStepInjective(c, d);
    }
  }

  lemma {:induction false} StepsAdd(c: u32, j: nat, k: nat)
    ensures Steps(c, j + k) == Steps(Steps(c, j), k)
    decreases j
  {
    if j > 0 {
      StepsAdd(BitStep(c), j - 1, k);
    }
  }

  /** Distinct registers stay distinct, whatever is fed. */
  lemma {:induction false} FeedInjective(c: u32, d: u32, data: seq<byte>)
    requires Feed(c, data) == Feed(d, data)
    ensures c == d
  {
    if data != [] {
      var front, b := data[..|data| - 1], data[|data| - 1];
      StepsInjective(Xor32(Feed(c, front), b), Xor32(Feed(d, front), b), 8);
      XorCommutes(Feed(c, front), b);
      XorCommutes(Feed(d, front), b);
      XorCancels(b, Feed(c, front), Feed(d, front));
      FeedInjective(c, d, front);
    }
  }

  // ---------------------------------------------------------------- short bursts

  /** Up to four bytes as one word, first byte in the low-order position. */
  function Pack(w: seq<byte>): (v: nat)
    ensures v < Pow256(|w|)
  {
    if w == [] then 0 else w[0] + 256 * Pack(w[1..])
  }

  lemma {:induction false} PackInjective(x: seq<byte>, y: seq<byte>)
    requires |x| == |y| && Pack(x) == Pack(y)
    ensures x == y
  {
    if x != [] {
      PackInjective(x[1..], y[1..]);
      assert x == [x[0]] + x[1..] && y == [y[0]] + y[1..];
    }
  }

  lemma PackShort(w: seq<byte>)
    requires |w| <= 4
    ensures Pack(w) < 0x1_0000_0000
  {
    Pow256Widths();
    assert Pow256(0) == 1 && Pow256(3) == 0x100_0000;
  }

  /** Eight steps consume the low byte of a word and leave the rest to be added. */
  lemma ConsumeByte(c: u32, b: byte, high: nat)
    requires b + 256 * high < 0x1_0000_0000
    ensures Steps(Xor32(c, b + 256 * high), 8) == Xor(Steps(Xor32(c, b), 8), high)
  {
    hide Steps, Xor, Raised, Pow2;
    Pow2Word();
    RaisedByte(high);
    ConcatIsXor(b, high, 8);
    XorAssociates(c, b, 256 * high);
    assert Xor(Xor32(c, b), 256 * high) == Xor32(c, b + 256 * high);
    StepsField(Xor32(c, b), high, 8);
  }

  /** Feeding at most four bytes is one exclusive or with the packed word, then pure steps. */
  lemma {:induction false} FeedShort(c: u32, w: seq<byte>)
    requires |w| <= 4 && Pack(w) < 0x1_0000_0000
    ensures Feed(c, w) == Steps(Xor32(c, Pack(w)), 8 * |w|)
    decreases |w|
  {
    if w == [] {
      XorZero(c);
    } else {
      var rest := w[1..];
      PackShort(rest);
      var first := Steps(Xor32(c, w[0]), 8);
      var word := Xor32(c, Pack(w));
      calc {
        Feed(c, w);
        { FeedFirst(c, w); }
        Feed(first, rest);
        { FeedShort(first, rest); }
        Steps(Xor32(first, Pack(rest)), 8 * |rest|);
        { ConsumeByte(c, w[0], Pack(rest)); }
        Steps(Steps(word, 8), 8 * |rest|);
        { StepsAdd(word, 8, 8 * |rest|); }
        Steps(word, 8 + 8 * |rest|);
      }
    }
  }

  lemma FeedFirst(c: u32, w: seq<byte>)
    requires w != []
    ensures Feed(c, w) == Feed(Steps(Xor32(c, w[0]), 8), w[1..])
  {
    assert [w[0]][..0] == [];
    assert Feed(c, [w[0]]) == Steps(Xor32(c, w[0]), 8);
    assert w == [w[0]] + w[1..];
    FeedConcat(c, [w[0]], w[1..]);
  }

  /** A low field below 2^k and a field shifted past it do not overlap. */
  lemma {:induction false} ConcatIsXor(low: nat, high: nat, k: nat)
    requires low < Pow2(k)
    ensures Xor(low, Raised(high, k)) == low + Raised(high, k)
    decreases k
  {
    hide Xor;
    if k == 0 {
      XorZero(high);
    } else {
      ConcatIsXor(low / 2, high, k - 1);
      LowBitJoins(low, Raised(high, k - 1));
    }
  }

  /** A low bit and an even rest do not overlap if nothing above the bit does. */
  lemma LowBitJoins(low: nat, rest: nat)
    requires Xor(low / 2, rest) == low / 2 + rest
    ensures Xor(low, 2 * rest) == low + 2 * rest
  {
    hide Xor;
    XorDigits(low / 2, low % 2, rest, 0);
  }

  /** Replacing at most four consecutive bytes by different ones always changes the checksum. */
  lemma BurstChangesFeed(c: u32, pre: seq<byte>, x: seq<byte>, y: seq<byte>, post: seq<byte>)
    requires |x| == |y| <= 4 && x != y
    ensures Feed(c, pre + x + post) != Feed(c, pre + y + post)
  {
    var p := Feed(c, pre);
    FeedConcat(c, pre, x);
    FeedConcat(c, pre, y);
    FeedConcat(c, pre + x, post);
    FeedConcat(c, pre + y, post);
    if Feed(c, pre + x + post) == Feed(c, pre + y + post) {
      FeedInjective(Feed(p, x), Feed(p, y), post);
      PackShort(x);
      PackShort(y);
      FeedShort(p, x);
      FeedShort(p, y);
      StepsInjective(Xor32(p, Pack(x)), Xor32(p, Pack(y)), 8 * |x|);
      XorCancels(p, Pack(x), Pack(y));
      PackInjective(x, y);
    }
  }

  lemma BurstChangesChecksum(pre: seq<byte>, x: seq<byte>, y: seq<byte>, post: seq<byte>)
    requires |x| == |y| <= 4 && x != y
    ensures Checksum(pre + x + post) != Checksum(pre + y + post)
  {
    hide Feed;
    BurstChangesFeed(ALL_ONES, pre, x, y, post);
    var a, b := Feed(ALL_ONES, pre + x + post), Feed(ALL_ONES, pre + y + post);
    XorCommutes(a, ALL_ONES);
    XorCommutes(b, ALL_ONES);
    if Checksum(pre + x + post) == Checksum(pre + y + post) {
      XorCancels(ALL_ONES, a, b);
    }
  }

  // ---------------------------------------------------------------- bits

  /** Bit i of a number. */
  function Bit(v: nat, i: nat): nat { HighPart(v, i) % 2 }

  /** Exclusive or, bit by bit. */
  lemma {:induction false} XorBit(a: nat, b: nat, i: nat)
    ensures Bit(Xor(a, b), i) == (Bit(a, i) + Bit(b, i)) % 2
    decreases i
  {
    XorHalves(a, b);
    if i > 0 {
      XorBit(a / 2, b / 2, i - 1);
    }
  }

  /** One shift, bit by bit: every bit moves down one place, and when a bit leaves the polynomial is
      added. */
  lemma BitStepBits(c: u32, i: nat)
    ensures Bit(BitStep(c), i) == (Bit(c, i + 1) + (if c % 2 == 1 then Bit(POLYNOMIAL, i) else 0)) % 2
  {
    hide Xor;
    XorBit(POLYNOMIAL, c / 2, i);
  }

  /** The polynomial of IEEE 802.3, x^32 + x^26 + x^23 + x^22 + x^16 + x^12 + x^11 + x^10 + x^8 + x^7 + x^5
      + x^4 + x^2 + x + 1, with x^i below x^32 at bit 31 - i. */
  lemma PolynomialIsReflected()
    ensures POLYNOMIAL == Pow2(31 - 26) + Pow2(31 - 23) + Pow2(31 - 22) + Pow2(31 - 16) + Pow2(31 - 12) + Pow2(31 - 11)
                        + Pow2(31 - 10) + Pow2(31 - 8) + Pow2(31 - 7) + Pow2(31 - 5) + Pow2(31 - 4) + Pow2(31 - 2)
                        + Pow2(31 - 1) + Pow2(31)
  {
    assert Pow2(5) == 0x20 && Pow2(8) == 0x100 && Pow2(9) == 0x200;
    assert Pow2(12) == 0x1000;
    assert Pow2(15) == 0x8000;
    assert Pow2(19) == 0x8_0000 && Pow2(20) == 0x10_0000 && Pow2(21) == 0x20_0000;
    assert Pow2(23) == 0x80_0000 && Pow2(24) == 0x100_0000;
    assert Pow2(26) == 0x400_0000 && Pow2(27) == 0x800_0000;
    assert Pow2(29) == 0x2000_0000 && Pow2(30) == 0x4000_0000 && Pow2(31) == 0x8000_0000;
  }

  lemma {:induction false} Complement(a: nat, n: nat)
    requires a < Pow2(n)
    ensures Xor(a, Pow2(n) - 1) == Pow2(n) - 1 - a
    decreases n
  {
    if n > 0 {
      Complement(a / 2, n - 1);
      LowDigit(Pow2(n - 1) - 1, 1);
    }
  }

  /** The checksum of a message: its bits, each byte's lowest first, are divided in a register that starts
      as all ones, and the remainder is complemented. */
  lemma ChecksumDivides(data: seq<byte>)
    ensures Checksum(data) == 0xFFFF_FFFF - Divide(0xFFFF_FFFF, MessageBits(data))
  {
    hide Feed, Divide, Xor, Pow2;
    FeedDivides(ALL_ONES, data);
    Pow2Word();
    Complement(Feed(ALL_ONES, data), 32);
  }

  // ---------------------------------------------------------------- the implementation

  /** The 256-entry table the byte loop looks up. */
  ghost predicate IsTable(t: seq<u32>) {
    |t| == 256 && forall i :: 0 <= i < 256 ==> t[i] == Steps(i, 8)
  }

  /** The inner loop of make_table. */
  method TableEntry(i: u32) returns (crc: u32)
    ensures crc == Steps(i, 8)
  {
    hide Xor32;
    crc := i;
    for j := 0 to 8
      invariant Steps(crc, 8 - j) == Steps(i, 8)
    {
      crc := if crc % 2 == 1 then Xor32(POLYNOMIAL, crc / 2) else crc / 2;
    }
  }

  method MakeTable() returns (table: seq<u32>)
    ensures IsTable(table)
  {
    hide Steps;
    var t := new u32[256];
    for i := 0 to 256
      invariant forall k :: 0 <= k < i ==> t[k] == Steps(k, 8)
    {
      t[i] := TableEntry(i);
    }
    table := t[..];
  }

  /** One table lookup does the work of eight shifts. */
  lemma TableStep(t: seq<u32>, crc: u32, b: byte)
    requires IsTable(t)
    ensures Xor(t[Xor32(crc, b) % 256], crc / 256) == Steps(Xor32(crc, b), 8)
  {
    var z := Xor32(crc, b);
    var low, high := z % 256, z / 256;
    assert high == crc / 256 by { HighByte(crc, b); }
    assert Xor32(0, low + 256 * high) == z by { XorZero(z); }
    assert Xor32(0, low) == low by { XorZero(low); }
    assert Steps(z, 8) == Xor(Steps(low, 8), high) by { ConsumeByte(0, low, high); }
    assert t[low] == Steps(low, 8);
  }

  lemma HighByte(crc: nat, b: byte)
    ensures Xor(crc, b) / 256 == crc / 256
  {
    assert HighPart(Xor(crc, b), 8) == HighPart(crc, 8) by {
      Pow2Word();
      XorHigh(crc, b, 8);
    }
    HighPart8(crc);
    HighPart8(Xor(crc, b));
  }

  lemma HighPart8(v: nat)
    ensures HighPart(v, 8) == v / 256
  {
    var v2 := v / 2 / 2;
    var v4 := v2 / 2 / 2;
    var v6 := v4 / 2 / 2;
    assert HighPart(v, 8) == HighPart(v2, 6);
    assert HighPart(v2, 6) == HighPart(v4, 4);
    assert HighPart(v4, 4) == HighPart(v6, 2);
    assert HighPart(v6, 2) == v6 / 2 / 2;
  }

  lemma {:induction false} XorHigh(a: nat, b: nat, k: nat)
    requires b < Pow2(k)
    ensures HighPart(Xor(a, b), k) == HighPart(a, k)
    decreases k
  {
    if k == 0 {
      XorZero(a);
    } else {
      XorHalves(a, b);
      XorHigh(a / 2, b / 2, k - 1);
    }
  }

  class Crc {
    var crc: u32
    const table: seq<u32>

    ghost predicate Valid() {
      IsTable(table)
    }

    constructor ()
      ensures Valid() && crc == ALL_ONES
    {
      crc := ALL_ONES;
      var t := MakeTable();
      table := t;
    }

    method Update(data: seq<byte>)
      requires Valid()
      modifies this
      ensures Valid() && crc == Feed(old(crc), data)
    {
      for i := 0 to |data|
        invariant crc == Feed(old(crc), data[..i])
      {
        var b := data[i];
        TableStep(table, crc, b);
        assert data[..i + 1][..i] == data[..i];
        crc := Xor32(table[Xor32(crc, b) % 256], crc / 256);
      }
      assert data[..|data|] == data;
    }

    method Value() returns (v: u32)
      ensures v == Xor32(crc, ALL_ONES)
    {
      v := Xor32(crc, ALL_ONES);
    }

    method Reset()
      modifies this`crc
      ensures crc == ALL_ONES
    {
      crc := ALL_ONES;
    }

    static method Compute(data: seq<byte>) returns (v: u32)
      ensures v == Checksum(data)
    {
      var c := new Crc();
      c.Update(data);
      v := c.Value();
    }
  }
}
