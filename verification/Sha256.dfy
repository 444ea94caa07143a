/** The incremental hasher of include/collectivefabric/digest/sha256.hpp, proved against the
    one-shot definition of FIPS 180-4, sections 4.1.2, 5.1.1, 5.3.3 and 6.2.2. */
module Sha256 {
  import opened Bytes

  // ---------------------------------------------------------------- FIPS 180-4

  const K: seq<bv32> :=
    [0x428a2f98, 0x71374491, 0xb5c0fbcf, 0xe9b5dba5, 0x3956c25b, 0x59f111f1, 0x923f82a4, 0xab1c5ed5]
    + [0xd807aa98, 0x12835b01, 0x243185be, 0x550c7dc3, 0x72be5d74, 0x80deb1fe, 0x9bdc06a7, 0xc19bf174]
    + [0xe49b69c1, 0xefbe4786, 0x0fc19dc6, 0x240ca1cc, 0x2de92c6f, 0x4a7484aa, 0x5cb0a9dc, 0x76f988da]
    + [0x983e5152, 0xa831c66d, 0xb00327c8, 0xbf597fc7, 0xc6e00bf3, 0xd5a79147, 0x06ca6351, 0x14292967]
    + [0x27b70a85, 0x2e1b2138, 0x4d2c6dfc, 0x53380d13, 0x650a7354, 0x766a0abb, 0x81c2c92e, 0x92722c85]
    + [0xa2bfe8a1, 0xa81a664b, 0xc24b8b70, 0xc76c51a3, 0xd192e819, 0xd6990624, 0xf40e3585, 0x106aa070]
    + [0x19a4c116, 0x1e376c08, 0x2748774c, 0x34b0bcb5, 0x391c0cb3, 0x4ed8aa4a, 0x5b9cca4f, 0x682e6ff3]
    + [0x748f82ee, 0x78a5636f, 0x84c87814, 0x8cc70208, 0x90befffa, 0xa4506ceb, 0xbef9a3f7, 0xc67178f2]

  function RoundConstant(t: nat): bv32
    requires t < 64
  {
    K[t]
  }

  /** The eight working variables, or the eight words of a hash value. */
  datatype Vars = Vars(a: bv32, b: bv32, c: bv32, d: bv32, e: bv32, f: bv32, g: bv32, h: bv32)

  const INITIAL := Vars(0x6a09e667, 0xbb67ae85, 0x3c6ef372, 0xa54ff53a,
                        0x510e527f, 0x9b05688c, 0x1f83d9ab, 0x5be0cd19)

  function Rotr(x: bv32, n: bv6): bv32
    requires 0 < n < 32
  {
    (x >> n) | (x << (32 - n))
  }

  /** Addition modulo 2^32. */
  function Add(x: bv32, y: bv32): bv32 { x + y }

  function Add4(a: bv32, b: bv32, c: bv32, d: bv32): bv32 { a + b + c + d }

  function Ch(x: bv32, y: bv32, z: bv32): bv32 { (x & y) ^ (!x & z) }
  function Maj(x: bv32, y: bv32, z: bv32): bv32 { (x & y) ^ (x & z) ^ (y & z) }
  function BigSigma0(x: bv32): bv32 { Rotr(x, 2) ^ Rotr(x, 13) ^ Rotr(x, 22) }
  function BigSigma1(x: bv32): bv32 { Rotr(x, 6) ^ Rotr(x, 11) ^ Rotr(x, 25) }
  function SmallSigma0(x: bv32): bv32 { Rotr(x, 7) ^ Rotr(x, 18) ^ (x >> 3) }
  function SmallSigma1(x: bv32): bv32 { Rotr(x, 17) ^ Rotr(x, 19) ^ (x >> 10) }

  function Widen(b: byte): bv32 { (b as bv8) as bv32 }

  /** Four bytes as a word, first byte most significant. */
  function Word(b0: byte, b1: byte, b2: byte, b3: byte): bv32 {
    (Widen(b0) << 24) | (Widen(b1) << 16) | (Widen(b2) << 8) | Widen(b3)
  }

  /** The message schedule: word t of a 64-byte block. */
  function W(block: seq<byte>, t: nat): bv32
    requires |block| == 64
  {
    if t < 16 then Word(block[(4 * t) % 64], block[(4 * t + 1) % 64], block[(4 * t + 2) % 64], block[(4 * t + 3) % 64])
    else
      Add4(SmallSigma1(W(block, t - 2)), W(block, t - 7), SmallSigma0(W(block, t - 15)), W(block, t - 16))
  }

  function Round(v: Vars, k: bv32, w: bv32): Vars {
    var t1 := Add(Add(Add(Add(v.h, BigSigma1(v.e)), Ch(v.e, v.f, v.g)), k), w);
    var t2 := Add(BigSigma0(v.a), Maj(v.a, v.b, v.c));
    Vars(Add(t1, t2), v.a, v.b, v.c, Add(v.d, t1), v.e, v.f, v.g)
  }

  function Rounds(v: Vars, block: seq<byte>, t: nat): Vars
    requires |block| == 64 && t <= 64
    decreases t
  {
    if t == 0 then v else Round(Rounds(v, block, t - 1), RoundConstant(t - 1), W(block, t - 1))
  }

  function AddVars(u: Vars, v: Vars): Vars {
    Vars(Add(u.a, v.a), Add(u.b, v.b), Add(u.c, v.c), Add(u.d, v.d),
         Add(u.e, v.e), Add(u.f, v.f), Add(u.g, v.g), Add(u.h, v.h))
  }

  function Compress(v: Vars, block: seq<byte>): Vars
    requires |block| == 64
  {
    AddVars(v, Rounds(v, block, 64))
  }

  /** All complete 64-byte blocks of the message, in order. */
  function Absorb(v: Vars, message: seq<byte>): Vars
    decreases |message|
  {
    if |message| < 64 then v else Absorb(Compress(v, message[..64]), message[64..])
  }

  function Zeros(n: nat): (s: seq<byte>)
    ensures |s| == n
  {
    seq(n, _ => 0)
  }

  /** Section 5.1.1 in bytes: the smallest number of zeros that leaves room for the length. */
  function PadZeros(n: nat): (k: nat)
    ensures (n + 1 + k) % 64 == 56 && k < 64
  {
    (119 - n % 64) % 64
  }

  function Padded(message: seq<byte>): seq<byte> {
    message + [0x80] + Zeros(PadZeros(|message|)) + ToBE(8 * |message|, 8)
  }

  function WordBytes(x: bv32): seq<byte> {
    [ByteOf(x >> 24), ByteOf(x >> 16), ByteOf(x >> 8), ByteOf(x)]
  }

  /** The low-order byte of a word. */
  function ByteOf(x: bv32): byte { ((x & 0xff) as bv8) as int }

  function DigestBytes(v: Vars): seq<byte> {
    WordBytes(v.a) + WordBytes(v.b) + WordBytes(v.c) + WordBytes(v.d)
    + WordBytes(v.e) + WordBytes(v.f) + WordBytes(v.g) + WordBytes(v.h)
  }

  /** SHA-256 of a message. */
  function Sha(message: seq<byte>): seq<byte> {
    DigestBytes(Absorb(INITIAL, Padded(message)))
  }

  // ---------------------------------------------------------------- blocks and chunks

  lemma {:induction false} AbsorbConcat(v: Vars, x: seq<byte>, y: seq<byte>)
    requires |x| % 64 == 0
    ensures Absorb(v, x + y) == Absorb(Absorb(v, x), y)
    decreases |x|
  {
    hide Compress;
    var all := x + y;
    if x == [] {
      assert all == y;
    } else {
      assert all[..64] == x[..64] && all[64..] == x[64..] + y;
      AbsorbConcat(Compress(v, x[..64]), x[64..], y);
    }
  }

  /** The hash value after whole blocks, and the bytes still waiting for their block. */
  function Whole(n: nat): nat { n - n % 64 }

  lemma AbsorbByte(v: Vars, fed: seq<byte>, b: byte)
    ensures var pending := fed[Whole(|fed|)..] + [b];
            |pending| <= 64
            && (|pending| == 64 ==>
                  Whole(|fed| + 1) == |fed| + 1
                  && Absorb(v, fed + [b]) == Compress(Absorb(v, fed[..Whole(|fed|)]), pending))
            && (|pending| < 64 ==>
                  Whole(|fed| + 1) == Whole(|fed|) && (fed + [b])[Whole(|fed|)..] == pending)
  {
    hide Compress;
    var n := Whole(|fed|);
    var pending := fed[n..] + [b];
    if |pending| == 64 {
      assert fed + [b] == fed[..n] + pending;
      AbsorbConcat(v, fed[..n], pending);
      assert pending[..64] == pending;
      assert Absorb(v, fed + [b]) == Absorb(Compress(Absorb(v, fed[..n]), pending), pending[64..]);
    }
  }

  // ---------------------------------------------------------------- the hasher

  function ToVars(s: seq<bv32>): Vars
    requires |s| == 8
  {
    Vars(s[0], s[1], s[2], s[3], s[4], s[5], s[6], s[7])
  }

  lemma SumReverses(a: bv32, b: bv32, c: bv32, d: bv32)
    ensures a + b + c + d == d + c + b + a
  {
  }

  lemma Add4Sum(a: bv32, b: bv32, c: bv32, d: bv32)
    ensures Add4(a, b, c, d) == a + b + c + d
  {
  }

  lemma Add4Reverses(a: bv32, b: bv32, c: bv32, d: bv32)
    ensures Add4(a, b, c, d) == Add4(d, c, b, a)
  {
    hide Add4;
    Add4Sum(a, b, c, d);
    Add4Sum(d, c, b, a);
    SumReverses(a, b, c, d);
  }

  lemma FirstWord(block: seq<byte>, t: nat)
    requires |block| == 64 && t < 16
    ensures W(block, t) == Word(block[t * 4], block[t * 4 + 1], block[t * 4 + 2], block[t * 4 + 3])
  {
    hide Word;
  }

  class Hasher {
    const state: array<bv32>
    const buffer: array<byte>
    var bufferLen: nat
    var totalBytes: u64
    ghost var fed: seq<byte>  // every byte since the last reset, padding included

    ghost predicate Valid()
      reads this, state, buffer
    {
      Pending() && totalBytes == |fed| % U64_LIMIT
    }

    constructor ()
      ensures Valid() && fed == [] && fresh(state) && fresh(buffer)
    {
      state := new bv32[8];
      buffer := new byte[64];
      bufferLen := 0;
      totalBytes := 0;
      fed := [];
      new;
      Reset();
    }

    method Reset()
      requires state.Length == 8 && buffer.Length == 64
      modifies this, state
      ensures Valid() && fed == []
    {
      state[0], state[1], state[2], state[3] := 0x6a09e667, 0xbb67ae85, 0x3c6ef372, 0xa54ff53a;
      state[4], state[5], state[6], state[7] := 0x510e527f, 0x9b05688c, 0x1f83d9ab, 0x5be0cd19;
      totalBytes := 0;
      bufferLen := 0;
      fed := [];
    }

    /** One block through the compression function, with the schedule in a local array. */
    method Transform()
      requires state.Length == 8 && buffer.Length == 64
      modifies state
      ensures ToVars(state[..]) == Compress(old(ToVars(state[..])), buffer[..])
    {
      hide Rounds, Add;
      ghost var block := buffer[..];
      ghost var start := ToVars(state[..]);
      var w := Schedule();
      var v := RunRounds(w, block);
      AddState(v);
    }

    /** The 64 rounds over the eight working variables. */
    method RunRounds(w: array<bv32>, ghost block: seq<byte>) returns (v: Vars)
      requires state.Length == 8 && w.Length == 64 && |block| == 64
      requires forall t :: 0 <= t < 64 ==> w[t] == W(block, t)
      ensures v == Rounds(ToVars(state[..]), block, 64)
    {
      hide BigSigma0, BigSigma1, Ch, Maj, Add, W, RoundConstant;
      ghost var start := ToVars(state[..]);
      var a, b, c, d := state[0], state[1], state[2], state[3];
      var e, f, g, h := state[4], state[5], state[6], state[7];
      for i := 0 to 64
        invariant Vars(a, b, c, d, e, f, g, h) == Rounds(start, block, i)
      {
        var temp1 := Add(Add(Add(Add(h, BigSigma1(e)), Ch(e, f, g)), RoundConstant(i)), w[i]);
        var temp2 := Add(BigSigma0(a), Maj(a, b, c));
        h, g, f, e, d, c, b, a := g, f, e, Add(d, temp1), c, b, a, Add(temp1, temp2);
      }
      v := Vars(a, b, c, d, e, f, g, h);
    }

    method AddState(v: Vars)
      requires state.Length == 8
      modifies state
      ensures ToVars(state[..]) == AddVars(old(ToVars(state[..])), v)
    {
      hide Add;
      state[0], state[1], state[2], state[3] := Add(state[0], v.a), Add(state[1], v.b), Add(state[2], v.c), Add(state[3], v.d);
      state[4], state[5], state[6], state[7] := Add(state[4], v.e), Add(state[5], v.f), Add(state[6], v.g), Add(state[7], v.h);
    }

    method Schedule() returns (w: array<bv32>)
      requires buffer.Length == 64
      ensures fresh(w) && w.Length == 64
      ensures forall t :: 0 <= t < 64 ==> w[t] == W(buffer[..], t)
    {
      w := new bv32[64];
      FirstWords(w);
      LaterWords(w, buffer[..]);
    }

    method FirstWords(w: array<bv32>)
      requires buffer.Length == 64 && w.Length == 64 && w as object != buffer
      modifies w
      ensures forall t :: 0 <= t < 16 ==> w[t] == W(buffer[..], t)
    {
      hide Word, W;
      ghost var block := buffer[..];
      for i := 0 to 16
        invariant forall t :: 0 <= t < i ==> w[t] == W(block, t)
        invariant buffer[..] == block
      {
        FirstWord(block, i);
        w[i] := Word(buffer[i * 4], buffer[i * 4 + 1], buffer[i * 4 + 2], buffer[i * 4 + 3]);
      }
    }

    method LaterWords(w: array<bv32>, ghost block: seq<byte>)
      requires w.Length == 64 && |block| == 64
      requires forall t :: 0 <= t < 16 ==> w[t] == W(block, t)
      modifies w
      ensures forall t :: 0 <= t < 64 ==> w[t] == W(block, t)
    {
      hide SmallSigma0, SmallSigma1, Word, Add4;
      for i := 16 to 64
        invariant forall t :: 0 <= t < i ==> w[t] == W(block, t)
      {
        var s0, s1 := SmallSigma0(w[i - 15]), SmallSigma1(w[i - 2]);
        Add4Reverses(w[i - 16], s0, w[i - 7], s1);
        w[i] := Add4(w[i - 16], s0, w[i - 7], s1);
      }
    }

    method Update(data: seq<byte>)
      requires Valid()
      modifies this, state, buffer
      ensures Valid() && fed == old(fed) + data
    {
      hide Absorb, Compress, ToVars;
      var i := 0;
      while i < |data|
        invariant 0 <= i <= |data|
        invariant Pending() && fed == old(fed) + data[..i] && totalBytes == old(totalBytes)
      {
        PushByte(data[i]);
        assert data[..i + 1] == data[..i] + [data[i]];
        i := i + 1;
      }
      assert data[..i] == data;
      CountWraps(old(|fed|), |data|);
      totalBytes := (totalBytes + |data|) % U64_LIMIT;
    }

    /** Valid() except for the byte count, which update adds at its end. */
    ghost predicate Pending()
      reads this, state, buffer
    {
      && state.Length == 8 && buffer.Length == 64
      && bufferLen == |fed| % 64
      && buffer[..bufferLen] == fed[Whole(|fed|)..]
      && ToVars(state[..]) == Absorb(INITIAL, fed[..Whole(|fed|)])
    }

    /** The body of update's loop. */
    method PushByte(b: byte)
      requires Pending()
      modifies this`bufferLen, this`fed, state, buffer
      ensures Pending() && fed == old(fed) + [b]
    {
      hide Absorb, Compress;
      AbsorbByte(INITIAL, fed, b);
      ghost var was := fed;
      buffer[bufferLen] := b;
      bufferLen := bufferLen + 1;
      assert buffer[..bufferLen] == was[Whole(|was|)..] + [b];
      fed := fed + [b];
      if bufferLen == 64 {
        assert buffer[..] == buffer[..64];
        Transform();
        bufferLen := 0;
        assert fed[..Whole(|fed|)] == fed;
      } else {
        assert fed[..Whole(|fed|)] == was[..Whole(|was|)];
      }
    }

    /** The padding loop terminates from every buffer fill, and for messages below 2^61 bytes the
        answer is the FIPS digest of everything fed. */
    method Finish() returns (digest: seq<byte>)
      requires Valid()
      modifies this, state, buffer
      ensures old(|fed|) < 0x2000_0000_0000_0000 ==> digest == Sha(old(fed))
      ensures |digest| == 32
    {
      hide Absorb, Compress, ToBE, ShiftRightBytes;
      ghost var message := fed;
      var bitLen := (totalBytes * 8) % U64_LIMIT;
      Update([0x80]);
      PadWithZeros(message);
      ghost var body := fed;
      PushLength(bitLen);
      PaddedAligned(message, bitLen);
      assert fed[..|fed|] == fed;
      digest := DigestBytes(ToVars(state[..]));
    }

    /** Zero bytes until eight places are left in the block. */
    method PadWithZeros(ghost message: seq<byte>)
      requires Valid() && fed == message + [0x80]
      modifies this, state, buffer
      ensures Valid() && fed == message + [0x80] + Zeros(PadZeros(|message|))
    {
      hide Absorb, Compress;
      ghost var zeros: nat := 0;
      ghost var need := PadZeros(|message|);
      while bufferLen != 56
        invariant Valid() && zeros <= need
        invariant fed == message + [0x80] + Zeros(zeros)
        decreases need - zeros
      {
        Update([0]);
        zeros := zeros + 1;
      }
      FirstMultiple(|message| + 1, zeros, need);
    }

    /** The length, most significant byte first. */
    method PushLength(bitLen: u64)
      requires Valid()
      modifies this, state, buffer
      ensures Valid() && fed == old(fed) + ToBE(bitLen, 8)
    {
      hide Absorb, Compress, Valid;
      var i := 8;
      while i > 0
        invariant 0 <= i <= 8 && Valid()
        invariant fed == old(fed) + ToBE(ShiftRightBytes(bitLen, i), 8 - i)
      {
        i := i - 1;
        ShiftRightOneMore(bitLen, i);
        var b := ShiftRightBytes(bitLen, i) % 256;
        assert ToBE(ShiftRightBytes(bitLen, i), 8 - i) == ToBE(ShiftRightBytes(bitLen, i + 1), 8 - i - 1) + [b];
        Update([b]);
      }
    }

    static method Digest(data: seq<byte>) returns (digest: seq<byte>)
      ensures |data| < 0x2000_0000_0000_0000 ==> digest == Sha(data)
    {
      hide Sha;
      var h := new Hasher();
      h.Update(data);
      assert h.fed == data;
      digest := h.Finish();
    }
  }

  /** Fewer zeros than the padding asks for never reach the length position. */
  lemma FirstMultiple(n: nat, zeros: nat, need: nat)
    requires zeros <= need < 64 && (n + need) % 64 == 56 && (n + zeros) % 64 == 56
    ensures zeros == need
  {
  }

  lemma CountWraps(n: nat, k: nat)
    ensures (n % U64_LIMIT + k) % U64_LIMIT == (n + k) % U64_LIMIT
  {
  }

  lemma BitLength(n: nat)
    requires n < 0x2000_0000_0000_0000
    ensures (n % U64_LIMIT * 8) % U64_LIMIT == 8 * n
  {
  }

  lemma WholeBlocks(n: nat)
    ensures (n + 1 + PadZeros(n) + 8) % 64 == 0
  {
  }

  lemma PaddedAligned(message: seq<byte>, bitLen: u64)
    requires bitLen == (|message| % U64_LIMIT * 8) % U64_LIMIT
    ensures var all := message + [0x80] + Zeros(PadZeros(|message|)) + ToBE(bitLen, 8);
            Whole(|all|) == |all|
            && (|message| < 0x2000_0000_0000_0000 ==> all == Padded(message))
  {
    hide ToBE, PadZeros;
    WholeBlocks(|message|);
    if |message| < 0x2000_0000_0000_0000 {
      BitLength(|message|);
    }
  }
}
