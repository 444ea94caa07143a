/** The framed stream protocol of src/protocol.cpp: header(16) crc32(4) payload. */
module Protocol {
  import opened Bytes
  import opened Crc32

  const MAGIC: u32 := 0x43464250
  const VERSION: u16 := 1
  const HEADER: nat := 20
  const MAX_PAYLOAD: nat := 64 * 1024 * 1024

  datatype MessageKind =
    | Hello | JoinGroup | GroupAccept | Contribution | ResultBytes
    | Barrier | Complete | Epoch | RequestCollective | ErrorMessage

  function KindCode(k: MessageKind): u16 {
    match k
    case Hello => 1
    case JoinGroup => 2
    case GroupAccept => 3
    case Contribution => 4
    case ResultBytes => 5
    case Barrier => 6
    case Complete => 7
    case Epoch => 8
    case RequestCollective => 9
    case ErrorMessage => 10
  }

  function KindOf(code: u16): (k: MessageKind)
    requires 1 <= code <= 10
    ensures KindCode(k) == code
  {
    if code == 1 then Hello
    else if code == 2 then JoinGroup
    else if code == 3 then GroupAccept
    else if code == 4 then Contribution
    else if code == 5 then ResultBytes
    else if code == 6 then Barrier
    else if code == 7 then Complete
    else if code == 8 then Epoch
    else if code == 9 then RequestCollective
    else ErrorMessage
  }

  datatype Frame = Frame(version: u16, kind: MessageKind, payload: seq<byte>)

  datatype Reason = BadMagic | UnsupportedVersion | InvalidKind | OversizedPayload | ChecksumMismatch

  datatype Verdict = NeedMore | Got(frame: Frame, consumed: nat) | Reject(reason: Reason)

  // ---------------------------------------------------------------- specification

  function Header(f: Frame): (h: seq<byte>)
    ensures |h| == 16
  {
    ToBE(MAGIC, 4) + ToBE(f.version, 2) + ToBE(KindCode(f.kind), 2) + ToBE(|f.payload|, 8)
  }

  function Encoded(f: Frame): (bs: seq<byte>)
    ensures |bs| == HEADER + |f.payload|
  {
    Header(f) + ToBE(Checksum(Header(f) + f.payload), 4) + f.payload
  }

  /** The frames a decoder of this version accepts. */
  predicate Acceptable(f: Frame) {
    f.version == VERSION && |f.payload| <= MAX_PAYLOAD
  }

  function Field(bytes: seq<byte>, at: nat, n: nat): nat
    requires at + n <= |bytes|
  {
    FromBE(bytes[at..at + n])
  }

  /** What the first sixteen bytes alone decide: a reason to reject, or the payload length. */
  function HeaderFault(bytes: seq<byte>): (r: (bool, Reason))
    requires |bytes| >= 16
  {
    if Field(bytes, 0, 4) != MAGIC then (true, BadMagic)
    else if Field(bytes, 4, 2) != VERSION then (true, UnsupportedVersion)
    else if Field(bytes, 6, 2) == 0 || Field(bytes, 6, 2) > 10 then (true, InvalidKind)
    else (Field(bytes, 8, 8) > MAX_PAYLOAD, OversizedPayload)
  }

  function Decoded(bytes: seq<byte>): (v: Verdict)
    ensures v.Got? ==> v.consumed <= |bytes|
  {
    if |bytes| < 16 then NeedMore
    else if HeaderFault(bytes).0 then Reject(HeaderFault(bytes).1)
    else
      var total := HEADER + Field(bytes, 8, 8);
      if |bytes| < total then NeedMore
      else if Checksum(bytes[..16] + bytes[HEADER..total]) != Field(bytes, 16, 4) then Reject(ChecksumMismatch)
      else Got(Frame(VERSION, KindOf(Field(bytes, 6, 2)), bytes[HEADER..total]), total)
  }

  // ---------------------------------------------------------------- one frame

  lemma KindCodeSmall(k: MessageKind)
    ensures 0 < KindCode(k) <= 10
  {
  }

  /** Header fields read back from anything that starts with f's header. */
  lemma HeaderFields(f: Frame, bytes: seq<byte>)
    requires Acceptable(f)
    requires |bytes| >= 16 && bytes[..16] == Header(f)
    ensures Field(bytes, 0, 4) == MAGIC
    ensures Field(bytes, 4, 2) == VERSION
    ensures Field(bytes, 6, 2) == KindCode(f.kind)
    ensures Field(bytes, 8, 8) == |f.payload|
    ensures !HeaderFault(bytes).0
  {
    hide ToBE, FromBE, KindCode, Pow256;
    KindCodeSmall(f.kind);
    Pow256Widths();
    FourParts(bytes, ToBE(MAGIC, 4), ToBE(f.version, 2), ToBE(KindCode(f.kind), 2), ToBE(|f.payload|, 8));
    FromBEToBE(MAGIC, 4);
    FromBEToBE(f.version, 2);
    FromBEToBE(KindCode(f.kind), 2);
    FromBEToBE(|f.payload|, 8);
  }

  /** Encoding then decoding gives the frame back and consumes exactly its bytes. */
  lemma RoundTrip(f: Frame, rest: seq<byte>)
    requires Acceptable(f)
    ensures Decoded(Encoded(f) + rest) == Got(f, |Encoded(f)|)
  {
    hide Checksum, Header, HeaderFault, Pow256, ToBE, FromBE;
    var bytes := Encoded(f) + rest;
    var crc := Checksum(Header(f) + f.payload);
    assert bytes[..16] == Header(f);
    HeaderFields(f, bytes);
    assert bytes[16..20] == ToBE(crc, 4);
    Pow256Widths();
    FromBEToBE(crc, 4);
    assert bytes[HEADER..HEADER + |f.payload|] == f.payload;
  }

  /** The header of an accepted frame is determined by its decoded fields. */
  lemma HeaderCanonical(bytes: seq<byte>, f: Frame)
    requires |bytes| >= 16 && !HeaderFault(bytes).0
    requires f.version == VERSION && KindCode(f.kind) == Field(bytes, 6, 2)
    requires |f.payload| == Field(bytes, 8, 8)
    ensures Header(f) == bytes[..16]
  {
    ToBEFromBE(bytes[0..4]);
    ToBEFromBE(bytes[4..6]);
    ToBEFromBE(bytes[6..8]);
    ToBEFromBE(bytes[8..16]);
    assert bytes[..16] == bytes[0..4] + bytes[4..6] + bytes[6..8] + bytes[8..16];
  }

  /** A FRAME verdict means the consumed bytes are the encoding of the returned frame. */
  lemma Canonical(bytes: seq<byte>)
    requires Decoded(bytes).Got?
    ensures var v := Decoded(bytes);
            Acceptable(v.frame) && v.consumed <= |bytes| && bytes[..v.consumed] == Encoded(v.frame)
  {
    var v := Decoded(bytes);
    HeaderCanonical(bytes, v.frame);
    ToBEFromBE(bytes[16..20]);
    assert bytes[..v.consumed] == bytes[..16] + bytes[16..20] + bytes[20..v.consumed];
  }

  /** FRAME exactly when the input starts with the encoding of an acceptable frame. */
  lemma GotIffEncodedPrefix(bytes: seq<byte>, f: Frame)
    ensures Decoded(bytes) == Got(f, |Encoded(f)|) <==> Acceptable(f) && Encoded(f) <= bytes
  {
    if Decoded(bytes) == Got(f, |Encoded(f)|) {
      Canonical(bytes);
    }
    if Acceptable(f) && Encoded(f) <= bytes {
      RoundTrip(f, bytes[|Encoded(f)|..]);
      assert bytes == Encoded(f) + bytes[|Encoded(f)|..];
    }
  }

  /** FRAME and REJECT verdicts survive any extension of the input. */
  lemma VerdictStable(bytes: seq<byte>, more: seq<byte>)
    requires Decoded(bytes) != NeedMore
    ensures Decoded(bytes + more) == Decoded(bytes)
  {
    hide Checksum, FromBE;
    var all := bytes + more;
    assert all[0..4] == bytes[0..4];
    assert all[4..6] == bytes[4..6];
    assert all[6..8] == bytes[6..8];
    assert all[8..16] == bytes[8..16];
    if !HeaderFault(bytes).0 {
      var total := HEADER + Field(bytes, 8, 8);
      assert all[16..20] == bytes[16..20];
      assert all[..16] == bytes[..16];
      assert all[HEADER..total] == bytes[HEADER..total];
    }
  }

  /** Every proper prefix of a valid encoding asks for more bytes. */
  lemma ProperPrefixNeedsMore(f: Frame, k: nat)
    requires Acceptable(f) && k < |Encoded(f)|
    ensures Decoded(Encoded(f)[..k]) == NeedMore
  {
    hide Decoded, Encoded, Acceptable;
    var cut := Encoded(f)[..k];
    if Decoded(cut) != NeedMore {
      VerdictStable(cut, Encoded(f)[k..]);
      assert cut + Encoded(f)[k..] == Encoded(f) + [];
      RoundTrip(f, []);
    }
  }

  /** Changing up to four consecutive payload bytes in transit is always caught. */
  lemma BurstRejected(f: Frame, pre: seq<byte>, x: seq<byte>, y: seq<byte>, post: seq<byte>, rest: seq<byte>)
    requires Acceptable(f) && f.payload == pre + x + post
    requires |x| == |y| <= 4 && x != y
    ensures var crc := ToBE(Checksum(Header(f) + f.payload), 4);
            Decoded(Header(f) + crc + (pre + y + post) + rest) == Reject(ChecksumMismatch)
  {
    hide Checksum, FromBE, ToBE;
    var h := Header(f);
    var crc := Checksum(h + f.payload);
    var altered := pre + y + post;
    var bytes := h + ToBE(crc, 4) + altered + rest;
    assert bytes[..16] == h;
    HeaderFields(f, bytes);
    assert bytes[16..20] == ToBE(crc, 4);
    Pow256Widths();
    FromBEToBE(crc, 4);
    assert bytes[HEADER..HEADER + |altered|] == altered;
    ChecksumsDiffer(h, pre, x, y, post);
  }

  lemma ChecksumsDiffer(h: seq<byte>, pre: seq<byte>, x: seq<byte>, y: seq<byte>, post: seq<byte>)
    requires |x| == |y| <= 4 && x != y
    ensures Checksum(h + (pre + x + post)) != Checksum(h + (pre + y + post))
  {
    assert h + (pre + x + post) == (h + pre) + x + post;
    assert h + (pre + y + post) == (h + pre) + y + post;
    BurstChangesChecksum(h + pre, x, y, post);
  }

  // ---------------------------------------------------------------- every verdict

  const KINDS: seq<MessageKind> :=
    [Hello, JoinGroup, GroupAccept, Contribution, ResultBytes, Barrier, Complete, Epoch, RequestCollective, ErrorMessage]

  /** The bytes "CFBP". */
  predicate MagicBytes(b: seq<byte>) requires |b| >= 16 { b[..4] == [0x43, 0x46, 0x42, 0x50] }

  /** Version 1. */
  predicate VersionBytes(b: seq<byte>) requires |b| >= 16 { b[4] == 0 && b[5] == 1 }

  /** One of the ten kinds, numbered from 1. */
  predicate KindBytes(b: seq<byte>) requires |b| >= 16 { b[6] == 0 && 1 <= b[7] <= 10 }

  /** The payload length the header announces. */
  function Announced(b: seq<byte>): nat
    requires |b| >= 16
  {
    0x1_0000_0000 * Four(b[8], b[9], b[10], b[11]) + Four(b[12], b[13], b[14], b[15])
  }

  lemma FieldsAreBytes(b: seq<byte>)
    requires |b| >= 16
    ensures Field(b, 0, 4) == MAGIC <==> MagicBytes(b)
    ensures Field(b, 4, 2) == VERSION <==> VersionBytes(b)
    ensures 1 <= Field(b, 6, 2) <= 10 <==> KindBytes(b)
    ensures KindBytes(b) ==> Field(b, 6, 2) == b[7]
    ensures Field(b, 8, 8) == Announced(b)
  {
    hide FromBE;
    ReadFour(b, 0);
    ReadTwo(b, 4);
    ReadTwo(b, 6);
    ReadEight(b, 8);
    assert MagicBytes(b) <==> b[0] == 0x43 && b[1] == 0x46 && b[2] == 0x42 && b[3] == 0x50;
  }

  /** The verdict on every input, byte by byte, in the order of the checks: fewer than sixteen bytes
      wait; then magic, version, kind and length each reject on their own bytes; then an incomplete
      frame waits, the checksum over header and payload decides, and what is left is the frame. */
  lemma DecodedExactly(b: seq<byte>)
    ensures Decoded(b) ==
            if |b| < 16 then NeedMore
            else if !MagicBytes(b) then Reject(BadMagic)
            else if !VersionBytes(b) then Reject(UnsupportedVersion)
            else if !KindBytes(b) then Reject(InvalidKind)
            else if Announced(b) > 67_108_864 then Reject(OversizedPayload)
            else if |b| < 20 + Announced(b) then NeedMore
            else if Checksum(b[..16] + b[20..20 + Announced(b)]) != Four(b[16], b[17], b[18], b[19]) then
              Reject(ChecksumMismatch)
            else Got(Frame(1, KINDS[b[7] - 1], b[20..20 + Announced(b)]), 20 + Announced(b))
  {
    hide Checksum, Field, HeaderFault, KindOf, MagicBytes, VersionBytes, KindBytes, Announced, Four;
    if |b| >= 16 {
      HeaderFaultExactly(b);
      if |b| >= 20 {
        ChecksumField(b);
      }
    }
  }

  lemma HeaderFaultExactly(b: seq<byte>)
    requires |b| >= 16
    ensures Field(b, 8, 8) == Announced(b)
    ensures HeaderFault(b).0 <==> !(MagicBytes(b) && VersionBytes(b) && KindBytes(b) && Announced(b) <= 67_108_864)
    ensures HeaderFault(b).0 ==>
              HeaderFault(b).1 == if !MagicBytes(b) then BadMagic else if !VersionBytes(b) then UnsupportedVersion
                                  else if !KindBytes(b) then InvalidKind else OversizedPayload
    ensures KindBytes(b) ==> 1 <= Field(b, 6, 2) <= 10 && KindOf(Field(b, 6, 2)) == KINDS[b[7] - 1]
  {
    hide Field, MagicBytes, VersionBytes, KindBytes, Announced;
    FieldsAreBytes(b);
    if KindBytes(b) {
      KindNamed(b[7]);
    }
  }

  lemma KindNamed(code: u16)
    requires 1 <= code <= 10
    ensures KindOf(code) == KINDS[code - 1]
  {
  }

  lemma ChecksumField(b: seq<byte>)
    requires |b| >= 20
    ensures Field(b, 16, 4) == Four(b[16], b[17], b[18], b[19])
  {
    ReadFour(b, 16);
  }

  /** The sixteen bytes every frame starts with. */
  lemma HeaderOnTheWire(f: Frame)
    requires |f.payload| < U64_LIMIT
    ensures var h := Header(f);
            && MagicBytes(h) && Four(0, 0, h[4], h[5]) == f.version
            && KindBytes(h) && KINDS[h[7] - 1] == f.kind && Announced(h) == |f.payload|
  {
    hide ToBE, FromBE, KindCode, Pow256;
    var h := Header(f);
    KindCodeSmall(f.kind);
    KindAt(f.kind);
    Pow256Widths();
    FourParts(h, ToBE(MAGIC, 4), ToBE(f.version, 2), ToBE(KindCode(f.kind), 2), ToBE(|f.payload|, 8));
    FromBEToBE(MAGIC, 4);
    FromBEToBE(f.version, 2);
    FromBEToBE(KindCode(f.kind), 2);
    FromBEToBE(|f.payload|, 8);
    FieldsAreBytes(h);
    ReadTwo(h, 4);
  }

  lemma KindAt(k: MessageKind)
    ensures 1 <= KindCode(k) <= 10 && KINDS[KindCode(k) - 1] == k
  {
  }

  /** With a whole header to judge by, the decoder waits if and only if the header is that of an
      acceptable frame of which not all bytes are there. */
  lemma WaitsIff(b: seq<byte>)
    requires |b| >= 16
    ensures Decoded(b) == NeedMore <==>
            exists f :: Acceptable(f) && Header(f) == b[..16] && |b| < |Encoded(f)|
  {
    hide Checksum, Header, HeaderFault, FromBE;
    if Decoded(b) == NeedMore {
      assert !HeaderFault(b).0;
      HeaderChecks(b);
      var f := Frame(VERSION, KindOf(Field(b, 6, 2)), Unread(Field(b, 8, 8)));
      HeaderCanonical(b, f);
      assert Acceptable(f) && Header(f) == b[..16] && |b| < |Encoded(f)|;
    }
    forall f | Acceptable(f) && Header(f) == b[..16] && |b| < |Encoded(f)|
      ensures Decoded(b) == NeedMore
    {
      HeaderFields(f, b);
    }
  }

  lemma HeaderChecks(b: seq<byte>)
    requires |b| >= 16 && !HeaderFault(b).0
    ensures 1 <= Field(b, 6, 2) <= 10 && Field(b, 8, 8) <= MAX_PAYLOAD
  {
  }

  /** Some payload of this length. */
  function Unread(n: nat): (p: seq<byte>)
    ensures |p| == n
  {
    seq(n, _ => 0)
  }

  // ---------------------------------------------------------------- streams of frames

  function EncodedAll(fs: seq<Frame>): seq<byte> {
    if fs == [] then [] else EncodedAll(fs[..|fs| - 1]) + Encoded(fs[|fs| - 1])
  }

  ghost predicate AllAcceptable(fs: seq<Frame>) {
    forall i :: 0 <= i < |fs| ==> Acceptable(fs[i])
  }

  /** One call on a FrameDecoder. */
  datatype Call = FeedCall(chunk: seq<byte>) | NextCall

  /** A decoder's buffer, the frames it has handed out, and the verdict of every `next` so far. */
  datatype Session = Session(buffer: seq<byte>, frames: seq<Frame>, verdicts: seq<Verdict>)

  function Step(s: Session, c: Call): Session {
    match c
    case FeedCall(chunk) => s.(buffer := s.buffer + chunk)
    case NextCall =>
      var v := Decoded(s.buffer);
      if v.Got? then
        Session(s.buffer[v.consumed..], s.frames + [v.frame], s.verdicts + [v])
      else s.(verdicts := s.verdicts + [v])
  }

  function Run(calls: seq<Call>): Session {
    if calls == [] then Session([], [], []) else Step(Run(calls[..|calls| - 1]), calls[|calls| - 1])
  }

  /** All bytes fed so far, in order. */
  function Fed(calls: seq<Call>): seq<byte> {
    if calls == [] then []
    else
      var before := Fed(calls[..|calls| - 1]);
      match calls[|calls| - 1]
      case FeedCall(chunk) => before + chunk
      case NextCall => before
  }

  /** On any byte stream, chunked in any way, nothing is lost, invented or reordered: the
      encodings of the frames handed out, followed by the buffer, are the bytes fed. */
  lemma {:induction false} BytesConserved(calls: seq<Call>)
    ensures var s := Run(calls);
            AllAcceptable(s.frames) && EncodedAll(s.frames) + s.buffer == Fed(calls)
  {
    hide Encoded, Decoded;
    if calls != [] {
      var before := calls[..|calls| - 1];
      BytesConserved(before);
      var s := Run(before);
      match calls[|calls| - 1]
      case FeedCall(chunk) =>
        assert EncodedAll(s.frames) + (s.buffer + chunk) == (EncodedAll(s.frames) + s.buffer) + chunk;
      case NextCall =>
        var v := Decoded(s.buffer);
        if v.Got? {
          Canonical(s.buffer);
          var fs := s.frames + [v.frame];
          assert fs[..|fs| - 1] == s.frames;
          assert s.buffer == Encoded(v.frame) + s.buffer[v.consumed..];
        }
    }
  }

  lemma {:induction false} EncodedAllConcat(x: seq<Frame>, y: seq<Frame>)
    ensures EncodedAll(x + y) == EncodedAll(x) + EncodedAll(y)
    decreases |y|
  {
    hide Encoded, Decoded;
    if y == [] {
      assert x + y == x;
    } else {
      EncodedAllConcat(x, y[..|y| - 1]);
      assert (x + y)[..|x + y| - 1] == x + y[..|y| - 1];
    }
  }

  /** Two frame lists whose encodings agree as far as the shorter one goes agree themselves. */
  lemma {:induction false} PrefixOfEncodings(x: seq<Frame>, t: seq<byte>, y: seq<Frame>)
    requires AllAcceptable(x) && AllAcceptable(y)
    requires EncodedAll(x) + t <= EncodedAll(y)
    ensures x <= y
    decreases |x|
  {
    hide Encoded, Decoded, AllAcceptable, EncodedAll;
    if x != [] {
      FirstFrame(x);
      NoFrames(x, y);
      FirstFrame(y);
      var after := EncodedAll(x[1..]) + t;
      var tail := EncodedAll(y)[|EncodedAll(x) + t|..];
      assert EncodedAll(y) == Encoded(x[0]) + (after + tail);
      Acceptables(x);
      Acceptables(y);
      RoundTrip(x[0], after + tail);
      RoundTrip(y[0], EncodedAll(y[1..]));
      DropSame(Encoded(x[0]), after + tail, EncodedAll(y[1..]));
      PrefixOfEncodings(x[1..], t, y[1..]);
      assert x == [x[0]] + x[1..] && y == [y[0]] + y[1..];
    }
  }

  lemma DropSame(e: seq<byte>, a: seq<byte>, b: seq<byte>)
    requires e + a == e + b
    ensures a == b
  {
    assert a == (e + a)[|e|..] && b == (e + b)[|e|..];
  }

  lemma Acceptables(fs: seq<Frame>)
    requires AllAcceptable(fs) && fs != []
    ensures Acceptable(fs[0]) && AllAcceptable(fs[1..])
  {
  }

  /** Some bytes are not the encoding of no frames. */
  lemma NoFrames(x: seq<Frame>, y: seq<Frame>)
    requires x != [] && |EncodedAll(x)| <= |EncodedAll(y)|
    ensures y != []
  {
    FirstFrame(x);
  }

  lemma FirstFrame(fs: seq<Frame>)
    requires fs != []
    ensures EncodedAll(fs) == Encoded(fs[0]) + EncodedAll(fs[1..])
  {
    assert fs == [fs[0]] + fs[1..];
    EncodedAllConcat([fs[0]], fs[1..]);
    assert [fs[0]][..0] == [];
    assert EncodedAll([fs[0]]) == Encoded(fs[0]);
  }

  lemma EmptyNeedsMore()
    ensures Decoded([]) == NeedMore
  {
  }

  /** What the decoder says when its buffer holds the unread part of a valid stream. */
  lemma NextOnValidStream(unread: seq<Frame>, buffer: seq<byte>)
    requires AllAcceptable(unread) && buffer <= EncodedAll(unread)
    ensures Decoded(buffer) == NeedMore ||
            (unread != [] && Decoded(buffer) == Got(unread[0], |Encoded(unread[0])|))
    ensures unread != [] && |buffer| >= |Encoded(unread[0])| ==> Decoded(buffer).Got?
  {
    hide Encoded, Decoded;
    if unread == [] {
      EmptyNeedsMore();
    } else {
      FirstFrame(unread);
      var all := EncodedAll(unread);
      RoundTrip(unread[0], EncodedAll(unread[1..]));
      if Decoded(buffer) != NeedMore {
        VerdictStable(buffer, all[|buffer|..]);
        assert buffer + all[|buffer|..] == all;
      }
      if |buffer| >= |Encoded(unread[0])| {
        var n := |Encoded(unread[0])|;
        assert buffer[..n] == all[..n] == Encoded(unread[0]);
        RoundTrip(unread[0], buffer[n..]);
        assert buffer == Encoded(unread[0]) + buffer[n..];
      }
    }
  }

  /** However a valid stream is cut into chunks and however `next` calls are interleaved, the
      frames handed out are a prefix of the frames sent and no call ever answers REJECT. */
  lemma {:induction false} StreamSafe(sent: seq<Frame>, calls: seq<Call>)
    requires AllAcceptable(sent) && Fed(calls) <= EncodedAll(sent)
    ensures Run(calls).frames <= sent
    ensures forall i :: 0 <= i < |Run(calls).verdicts| ==> !Run(calls).verdicts[i].Reject?
  {
    hide Encoded, Decoded;
    BytesConserved(calls);
    PrefixOfEncodings(Run(calls).frames, Run(calls).buffer, sent);
    if calls != [] {
      var before := calls[..|calls| - 1];
      assert Fed(before) <= Fed(calls);
      StreamSafe(sent, before);
      BytesConserved(before);
      BufferIsUnread(sent, Run(before));
      NextOnValidStream(sent[|Run(before).frames|..], Run(before).buffer);
    }
  }

  lemma BufferIsUnread(sent: seq<Frame>, s: Session)
    requires s.frames <= sent && EncodedAll(s.frames) + s.buffer <= EncodedAll(sent)
    ensures s.buffer <= EncodedAll(sent[|s.frames|..])
    ensures EncodedAll(s.frames) + s.buffer == EncodedAll(sent) ==> s.buffer == EncodedAll(sent[|s.frames|..])
  {
    hide Encoded, Decoded;
    var unread := sent[|s.frames|..];
    assert sent == s.frames + unread;
    EncodedAllConcat(s.frames, unread);
    var n := |EncodedAll(s.frames)|;
    assert EncodedAll(sent)[n..] == EncodedAll(unread);
    assert (EncodedAll(s.frames) + s.buffer)[n..] == s.buffer;
  }

  /** With every byte of the stream fed, one more `next` hands out the next frame, if any. */
  lemma NextHandsOut(sent: seq<Frame>, s: Session)
    requires AllAcceptable(sent) && s.frames <= sent
    requires EncodedAll(s.frames) + s.buffer == EncodedAll(sent)
    ensures |s.frames| < |sent| ==> Step(s, NextCall).frames == sent[..|s.frames| + 1]
    ensures |s.frames| == |sent| ==> Step(s, NextCall).frames == sent
  {
    hide Encoded, Decoded;
    BufferIsUnread(sent, s);
    var unread := sent[|s.frames|..];
    NextOnValidStream(unread, s.buffer);
    if unread != [] {
      FirstFrame(unread);
      assert unread[0] == sent[|s.frames|];
    }
  }

  function Nexts(n: nat): seq<Call> { if n == 0 then [] else Nexts(n - 1) + [NextCall] }

  lemma {:induction false} FedUnchanged(calls: seq<Call>, n: nat)
    ensures Fed(calls + Nexts(n)) == Fed(calls)
  {
    var all := calls + Nexts(n);
    if n == 0 {
      assert all == calls;
    } else {
      FedUnchanged(calls, n - 1);
      assert all[..|all| - 1] == calls + Nexts(n - 1);
    }
  }

  lemma RunOneMore(calls: seq<Call>, n: nat)
    ensures Run(calls + Nexts(n + 1)) == Step(Run(calls + Nexts(n)), NextCall)
  {
    hide Step;
    var all := calls + Nexts(n + 1);
    assert all[..|all| - 1] == calls + Nexts(n);
  }

  lemma {:induction false} EachNextHandsOut(sent: seq<Frame>, calls: seq<Call>, n: nat)
    requires AllAcceptable(sent) && Fed(calls) == EncodedAll(sent)
    ensures Run(calls + Nexts(n)).frames <= sent
    ensures |Run(calls + Nexts(n)).frames| >= n || Run(calls + Nexts(n)).frames == sent
    decreases n
  {
    hide Encoded, Decoded, Run, Fed, Nexts;
    FedUnchanged(calls, n);
    StreamSafe(sent, calls + Nexts(n));
    if n > 0 {
      EachNextHandsOut(sent, calls, n - 1);
      FedUnchanged(calls, n - 1);
      BytesConserved(calls + Nexts(n - 1));
      NextHandsOut(sent, Run(calls + Nexts(n - 1)));
      RunOneMore(calls, n - 1);
    }
  }

  /** Once every byte has been fed, |sent| further `next` calls have handed out every frame, in
      order, and nothing is left over: chunk boundaries make no difference. */
  lemma StreamComplete(sent: seq<Frame>, calls: seq<Call>, n: nat)
    requires AllAcceptable(sent) && Fed(calls) == EncodedAll(sent) && n >= |sent|
    ensures Run(calls + Nexts(n)).frames == sent && Run(calls + Nexts(n)).buffer == []
  {
    hide Encoded, Decoded;
    EachNextHandsOut(sent, calls, n);
    FedUnchanged(calls, n);
    BytesConserved(calls + Nexts(n));
  }

  lemma RejectKept(s: Session, call: Call)
    requires Decoded(s.buffer).Reject?
    ensures var t := Step(s, call);
            && t.frames == s.frames && Decoded(t.buffer) == Decoded(s.buffer)
            && t.verdicts == s.verdicts + (if call.NextCall? then [Decoded(s.buffer)] else [])
  {
    hide Decoded;
    if call.FeedCall? {
      VerdictStable(s.buffer, call.chunk);
    }
  }

  function Repeated(v: Verdict, n: nat): seq<Verdict> { if n == 0 then [] else Repeated(v, n - 1) + [v] }

  function NextsIn(calls: seq<Call>): nat {
    if calls == [] then 0 else NextsIn(calls[..|calls| - 1]) + (if calls[|calls| - 1].NextCall? then 1 else 0)
  }

  /** Once a REJECT is due, no continuation of the session revives the stream: no frame is ever
      handed out again and every later `next` answers that same REJECT. */
  lemma {:induction false} RejectIsFinal(calls: seq<Call>, more: seq<Call>)
    requires Decoded(Run(calls).buffer).Reject?
    ensures Run(calls + more).frames == Run(calls).frames
    ensures Decoded(Run(calls + more).buffer) == Decoded(Run(calls).buffer)
    ensures Run(calls + more).verdicts == Run(calls).verdicts + Repeated(Decoded(Run(calls).buffer), NextsIn(more))
    decreases |more|
  {
    hide Decoded, Step;
    if more == [] {
      assert calls + more == calls;
    } else {
      var front, last := more[..|more| - 1], more[|more| - 1];
      RejectIsFinal(calls, front);
      assert (calls + more)[..|calls + more| - 1] == calls + front;
      RejectKept(Run(calls + front), last);
    }
  }

  // ---------------------------------------------------------------- implementation

  method Encode(f: Frame) returns (out: seq<byte>)
    ensures out == Encoded(f)
  {
    out := PushBE([], MAGIC, 4);
    out := PushBE(out, f.version, 2);
    out := PushBE(out, KindCode(f.kind), 2);
    out := PushBE(out, |f.payload|, 8);
    assert out == Header(f);
    var crc := new Crc();
    crc.Update(out);
    crc.Update(f.payload);
    FeedConcat(ALL_ONES, out, f.payload);
    var sum := crc.Value();
    out := PushBE(out, sum, 4);
    out := out + f.payload;
  }

  method Decode(bytes: seq<byte>) returns (v: Verdict)
    ensures v == Decoded(bytes)
  {
    hide FromBE, KindOf, KindCode, Feed, Xor;
    if |bytes| < 16 {
      return NeedMore;
    }
    var magic := ReadBE(bytes, 0, 4);
    if magic != MAGIC {
      return Reject(BadMagic);
    }
    var version := ReadBE(bytes, 4, 2);
    if version != VERSION {
      return Reject(UnsupportedVersion);
    }
    var kind := ReadBE(bytes, 6, 2);
    if kind == 0 || kind > 10 {
      return Reject(InvalidKind);
    }
    var length := ReadBE(bytes, 8, 8);
    if length > MAX_PAYLOAD {
      return Reject(OversizedPayload);
    }
    if |bytes| < HEADER {
      return NeedMore;
    }
    var total := HEADER + length;
    if |bytes| < total {
      return NeedMore;
    }
    var stored := ReadBE(bytes, 16, 4);
    var crc := new Crc();
    crc.Update(bytes[0..16]);
    crc.Update(bytes[HEADER..total]);
    FeedConcat(ALL_ONES, bytes[..16], bytes[HEADER..total]);
    assert bytes[0..16] == bytes[..16];
    var sum := crc.Value();
    if sum != stored {
      return Reject(ChecksumMismatch);
    }
    v := Got(Frame(version, KindOf(kind), bytes[HEADER..total]), total);
  }

  class FrameDecoder {
    var buffer: seq<byte>
    ghost var calls: seq<Call>  // every feed and next so far

    ghost predicate Valid()
      reads this
    {
      buffer == Run(calls).buffer
    }

    constructor ()
      ensures Valid() && calls == [] && buffer == []
    {
      buffer := [];
      calls := [];
    }

    method Feed(data: seq<byte>)
      requires Valid()
      modifies this
      ensures Valid() && calls == old(calls) + [FeedCall(data)]
      ensures buffer == old(buffer) + data
    {
      ExtendRun(calls, FeedCall(data));
      buffer := buffer + data;
      calls := calls + [FeedCall(data)];
    }

    method Next() returns (v: Verdict)
      requires Valid()
      modifies this
      ensures Valid() && calls == old(calls) + [NextCall]
      ensures v == Decoded(old(buffer)) && Run(calls).verdicts == Run(old(calls)).verdicts + [v]
      ensures buffer == if v.Got? then old(buffer)[v.consumed..] else old(buffer)
    {
      ExtendRun(calls, NextCall);
      v := Decode(buffer);
      if v.Got? {
        buffer := buffer[v.consumed..];
      }
      calls := calls + [NextCall];
    }
  }

  lemma ExtendRun(calls: seq<Call>, c: Call)
    ensures Run(calls + [c]) == Step(Run(calls), c)
  {
    assert (calls + [c])[..|calls|] == calls;
  }
}
