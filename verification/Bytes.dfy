/** Fixed-width integers and the big-endian byte layout shared by the frame protocol
    (src/protocol.cpp) and the canonical codec (include/collectivefabric/digest/canonical.hpp). */
module Bytes {

  type byte = x: int | 0 <= x < 0x100
  type u16 = x: int | 0 <= x < 0x1_0000
  type u32 = x: int | 0 <= x < 0x1_0000_0000
  type u64 = x: int | 0 <= x < 0x1_0000_0000_0000_0000

  const U64_LIMIT: nat := 0x1_0000_0000_0000_0000

  function Pow256(n: nat): (p: nat)
    ensures p >= 1
  {
    if n == 0 then 1 else 256 * Pow256(n - 1)
  }

  lemma Pow256Widths()
    ensures Pow256(1) == 0x100 && Pow256(2) == 0x1_0000
    ensures Pow256(4) == 0x1_0000_0000 && Pow256(8) == U64_LIMIT
  {
    assert Pow256(3) == 0x100_0000;
    assert Pow256(5) == 0x100_0000_0000;
    assert Pow256(6) == 0x1_0000_0000_0000;
    assert Pow256(7) == 0x100_0000_0000_0000;
  }

  /** The n low-order bytes of v, most significant first. */
  function ToBE(v: nat, n: nat): (bs: seq<byte>)
    ensures |bs| == n
  {
    if n == 0 then [] else ToBE(v / 256, n - 1) + [v % 256]
  }

  function FromBE(bs: seq<byte>): (v: nat)
    ensures v < Pow256(|bs|)
  {
    if bs == [] then 0 else FromBE(bs[..|bs| - 1]) * 256 + bs[|bs| - 1]
  }

  lemma {:induction false} FromBEToBE(v: nat, n: nat)
    requires v < Pow256(n)
    ensures FromBE(ToBE(v, n)) == v
  {
    if n > 0 {
      FromBEToBE(v / 256, n - 1);
      assert ToBE(v, n)[..n - 1] == ToBE(v / 256, n - 1);
    }
  }

  lemma {:induction false} ToBEFromBE(bs: seq<byte>)
    ensures ToBE(FromBE(bs), |bs|) == bs
  {
    if bs != [] {
      var front, last := bs[..|bs| - 1], bs[|bs| - 1];
      ToBEFromBE(front);
      LowByte(FromBE(front), last);
      assert bs == front + [last];
    }
  }

  lemma LowByte(high: nat, low: byte)
    ensures (high * 256 + low) / 256 == high && (high * 256 + low) % 256 == low
  {
  }

  /** v >> (i * 8) */
  function ShiftRightBytes(v: nat, i: nat): nat {
    if i == 0 then v else ShiftRightBytes(v / 256, i - 1)
  }

  lemma {:induction false} ShiftRightOneMore(v: nat, i: nat)
    ensures ShiftRightBytes(v, i + 1) == ShiftRightBytes(v, i) / 256
  {
    if i > 0 {
      ShiftRightOneMore(v / 256, i - 1);
    }
  }

  /** The loop both codecs write: bytes are shifted out from the most significant end. */
  method PushBE(buf: seq<byte>, v: nat, n: nat) returns (out: seq<byte>)
    ensures out == buf + ToBE(v, n)
  {
    out := buf;
    var i := n;
    while i > 0
      invariant 0 <= i <= n
      invariant out == buf + ToBE(ShiftRightBytes(v, i), n - i)
    {
      i := i - 1;
      ShiftRightOneMore(v, i);
      var b := ShiftRightBytes(v, i) % 256;
      assert ToBE(ShiftRightBytes(v, i), n - i) == ToBE(ShiftRightBytes(v, i + 1), n - i - 1) + [b];
      out := out + [b];
    }
  }

  /** The loop both codecs read with: each byte is shifted in at the least significant end. */
  method ReadBE(data: seq<byte>, pos: nat, n: nat) returns (v: nat)
    requires pos + n <= |data|
    ensures v == FromBE(data[pos..pos + n])
  {
    v := 0;
    var i := 0;
    while i < n
      invariant 0 <= i <= n
      invariant v == FromBE(data[pos..pos + i])
    {
      assert data[pos..pos + i + 1][..i] == data[pos..pos + i];
      v := v * 256 + data[pos + i];
      i := i + 1;
    }
  }

  lemma PartOfPart<T>(s: seq<T>, from: nat, size: nat, at: nat, w: nat)
    requires from + size <= |s| && at + w <= size
    ensures s[from..from + size][at..at + w] == s[from + at..from + at + w]
  {
    var part, whole := s[from..from + size][at..at + w], s[from + at..from + at + w];
    assert |part| == |whole|;
    forall k | 0 <= k < |part|
      ensures part[k] == whole[k]
    {
    }
  }

  /** The four parts of a header are where their lengths put them, in anything that starts with it. */
  lemma FourParts<T>(s: seq<T>, a: seq<T>, b: seq<T>, c: seq<T>, d: seq<T>)
    requires a + b + c + d <= s
    ensures var i, j, k := |a|, |a| + |b|, |a| + |b| + |c|;
            s[..i] == a && s[i..j] == b && s[j..k] == c && s[k..k + |d|] == d
  {
    var h := a + b + c + d;
    assert forall n :: 0 <= n < |h| ==> s[n] == h[n];
  }

  // ---------------------------------------------------------------- digits

  lemma ModUnique(v: int, m: nat, q: int, r: int)
    requires m > 0 && v == m * q + r && 0 <= r < m
    ensures v % m == r
  {
    var d := q - v / m;
    MultipleIsFar(m, d);
    assert m * d == v % m - r;
  }

  lemma MultipleIsFar(m: nat, d: int)
    ensures d > 0 ==> m * d >= m
    ensures d < 0 ==> m * d + m <= 0
  {
    if d > 0 {
      MultipleGrows(m, d - 1);
    } else if d < 0 {
      MultipleGrows(m, -d - 1);
      assert m * d == -(m * -d);
    }
  }

  lemma {:induction false} MultipleGrows(m: nat, k: nat)
    ensures m * (k + 1) >= m
    decreases k
  {
    if k > 0 {
      MultipleGrows(m, k - 1);
      assert m * (k + 1) == m * k + m;
    }
  }

  lemma DivDiv(v: nat, p: nat)
    requires p > 0
    ensures v / 256 / p == v / (256 * p)
  {
    var q := v / (256 * p);
    var r := v % (256 * p);
    assert v == 256 * p * q + r;
    assert v / 256 == p * q + r / 256 by { assert v == 256 * (p * q) + r; }
    assert r / 256 < p;
    QuotientUnique(v / 256, p, q, r / 256);
  }

  lemma QuotientUnique(v: nat, p: nat, q: nat, r: nat)
    requires p > 0 && v == p * q + r && r < p
    ensures v / p == q
  {
    ModUnique(v, p, q, r);
    var d := q - v / p;
    assert p * d == p * q - p * (v / p);
    MultipleIsFar(p, d);
  }

  /** Byte i of n is the digit of weight 256^(n - 1 - i): most significant first. */
  lemma {:induction false} BigEndian(v: nat, n: nat, i: nat)
    requires i < n
    ensures ToBE(v, n)[i] == v / Pow256(n - 1 - i) % 256
    decreases n
  {
    if i < n - 1 {
      BigEndian(v / 256, n - 1, i);
      DivDiv(v, Pow256(n - 2 - i));
      assert Pow256(n - 1 - i) == 256 * Pow256(n - 2 - i);
    }
  }

  lemma FromBEStep(bs: seq<byte>, from: nat, to: nat)
    requires from <= to < |bs|
    ensures FromBE(bs[from..to + 1]) == FromBE(bs[from..to]) * 256 + bs[to]
    ensures FromBE(bs[from..from]) == 0
  {
    var s := bs[from..to + 1];
    assert s[..|s| - 1] == bs[from..to];
  }

  /** Four bytes as a number, most significant first. */
  function Four(a: nat, b: nat, c: nat, d: nat): nat { 0x100_0000 * a + 0x1_0000 * b + 0x100 * c + d }

  /** Two, four and eight bytes read as a number. */
  lemma ReadTwo(bs: seq<byte>, at: nat)
    requires at + 2 <= |bs|
    ensures FromBE(bs[at..at + 2]) == Four(0, 0, bs[at], bs[at + 1])
  {
    FromBEStep(bs, at, at);
    FromBEStep(bs, at, at + 1);
  }

  lemma ReadFour(bs: seq<byte>, at: nat)
    requires at + 4 <= |bs|
    ensures FromBE(bs[at..at + 4]) == Four(bs[at], bs[at + 1], bs[at + 2], bs[at + 3])
  {
    hide FromBE;
    FromBEStep(bs, at, at);
    FromBEStep(bs, at, at + 1);
    FromBEStep(bs, at, at + 2);
    FromBEStep(bs, at, at + 3);
  }

  lemma ReadEight(bs: seq<byte>, at: nat)
    requires at + 8 <= |bs|
    ensures FromBE(bs[at..at + 8]) == 0x1_0000_0000 * Four(bs[at], bs[at + 1], bs[at + 2], bs[at + 3])
                                      + Four(bs[at + 4], bs[at + 5], bs[at + 6], bs[at + 7])
  {
    hide FromBE;
    ReadFour(bs, at);
    FromBEStep(bs, at, at + 4);
    FromBEStep(bs, at, at + 5);
    FromBEStep(bs, at, at + 6);
    FromBEStep(bs, at, at + 7);
  }
}
