/** The file around a persisted state: magic, version, length, checksum, payload (src/store.cpp). */
module StoreFile {
  import opened Bytes
  import opened Crc32
  import Store
  import Laws = StoreLaws
  import Codec = StoreCodec
  import Canonical
  import Sha256

  const MAGIC: nat := 0x4346_4142
  const HEADER: nat := 20

  datatype Reason =
    | TooSmall | BadMagic | UnsupportedVersion | LengthMismatch | ChecksumMismatch | Undecodable(fault: Canonical.Fault)

  datatype LoadResult = Loaded(state: Store.PersistentState) | Unloadable(reason: Reason)

  // ---------------------------------------------------------------- specification

  function Header(version: nat, payload: seq<byte>): (h: seq<byte>)
    ensures |h| == HEADER
  {
    ToBE(MAGIC, 4) + ToBE(version, 4) + ToBE(|payload|, 8) + ToBE(Checksum(payload), 4)
  }

  /** What save writes. */
  function FileOf(payload: seq<byte>): seq<byte> { Header(Store.FORMAT_VERSION, payload) + payload }

  function Field(file: seq<byte>, at: nat, n: nat): nat
    requires at + n <= |file|
  {
    FromBE(file[at..at + n])
  }

  /** What load answers. */
  function Opened(file: seq<byte>): LoadResult {
    if |file| < HEADER then Unloadable(TooSmall)
    else if Field(file, 0, 4) != MAGIC then Unloadable(BadMagic)
    else if Field(file, 4, 4) > Store.FORMAT_VERSION then Unloadable(UnsupportedVersion)
    else if Field(file, 8, 8) != |file| - HEADER then Unloadable(LengthMismatch)
    else if Checksum(file[HEADER..]) != Field(file, 16, 4) then Unloadable(ChecksumMismatch)
    else
      match Store.Decoded(file[HEADER..])
      case Refused(f) => Unloadable(Undecodable(f))
      case Accepted(s) => Loaded(s)
  }

  // ---------------------------------------------------------------- laws

  /** What load answers on every file, byte by byte, in the order of the checks. */
  lemma OpenedExactly(f: seq<byte>)
    ensures Opened(f) ==
            if |f| < 20 then Unloadable(TooSmall)
            else if f[..4] != [0x43, 0x46, 0x41, 0x42] then Unloadable(BadMagic)
            else if Four(f[4], f[5], f[6], f[7]) > 1 then Unloadable(UnsupportedVersion)
            else if 0x1_0000_0000 * Four(f[8], f[9], f[10], f[11]) + Four(f[12], f[13], f[14], f[15]) != |f| - 20 then
              Unloadable(LengthMismatch)
            else if Checksum(f[20..]) != Four(f[16], f[17], f[18], f[19]) then Unloadable(ChecksumMismatch)
            else
              match Store.Decoded(f[20..])
              case Refused(fault) => Unloadable(Undecodable(fault))
              case Accepted(s) => Loaded(s)
  {
    hide Checksum, Store.Decoded, Field, Four;
    if |f| >= 20 {
      FieldsAreBytes(f);
    }
  }

  lemma FieldsAreBytes(f: seq<byte>)
    requires |f| >= 20
    ensures Field(f, 0, 4) == MAGIC <==> f[..4] == [0x43, 0x46, 0x41, 0x42]
    ensures Field(f, 4, 4) == Four(f[4], f[5], f[6], f[7])
    ensures Field(f, 8, 8) == 0x1_0000_0000 * Four(f[8], f[9], f[10], f[11]) + Four(f[12], f[13], f[14], f[15])
    ensures Field(f, 16, 4) == Four(f[16], f[17], f[18], f[19])
  {
    hide FromBE;
    ReadFour(f, 0);
    ReadFour(f, 4);
    ReadEight(f, 8);
    ReadFour(f, 16);
    assert f[..4] == [0x43, 0x46, 0x41, 0x42] <==> f[0] == 0x43 && f[1] == 0x46 && f[2] == 0x41 && f[3] == 0x42;
  }

  lemma HeaderFields(version: nat, checked: seq<byte>, payload: seq<byte>, file: seq<byte>)
    requires version <= 1 && |checked| < U64_LIMIT
    requires |file| >= HEADER && file[..HEADER] == Header(version, checked)
    ensures Field(file, 0, 4) == MAGIC && Field(file, 4, 4) == version
    ensures Field(file, 8, 8) == |checked| && Field(file, 16, 4) == Checksum(checked)
  {
    hide Checksum, ToBE, FromBE, Pow256;
    Pow256Widths();
    FourParts(file, ToBE(MAGIC, 4), ToBE(version, 4), ToBE(|checked|, 8), ToBE(Checksum(checked), 4));
    FromBEToBE(MAGIC, 4);
    FromBEToBE(version, 4);
    FromBEToBE(|checked|, 8);
    FromBEToBE(Checksum(checked), 4);
  }

  /** A file is loaded if and only if it is a header, of this version or the one before, around an
      acceptable payload; and then that payload's state is what it yields. */
  lemma LoadedIff(file: seq<byte>, s: Store.PersistentState)
    requires |file| < U64_LIMIT
    ensures Opened(file) == Loaded(s) <==>
            |file| >= HEADER && Store.Decoded(file[HEADER..]) == Store.Accepted(s)
            && exists version: nat :: version <= 1 && file[..HEADER] == Header(version, file[HEADER..])
  {
    hide Checksum, Header, Store.Decoded;
    if |file| >= HEADER {
      var payload := file[HEADER..];
      if Opened(file) == Loaded(s) {
        HeaderRead(file, Field(file, 4, 4));
      }
      forall version: nat | version <= 1 && file[..HEADER] == Header(version, payload)
        ensures Store.Decoded(payload) == Store.Accepted(s) ==> Opened(file) == Loaded(s)
      {
        HeaderFields(version, payload, payload, file);
      }
    }
  }

  lemma HeaderRead(file: seq<byte>, version: nat)
    requires HEADER <= |file| < U64_LIMIT && Field(file, 0, 4) == MAGIC && Field(file, 4, 4) == version
    requires Field(file, 8, 8) == |file| - HEADER && Checksum(file[HEADER..]) == Field(file, 16, 4)
    ensures file[..HEADER] == Header(version, file[HEADER..])
  {
    hide Checksum;
    ToBEFromBE(file[0..4]);
    ToBEFromBE(file[4..8]);
    ToBEFromBE(file[8..16]);
    ToBEFromBE(file[16..20]);
    assert file[..HEADER] == file[0..4] + file[4..8] + file[8..16] + file[16..20];
  }

  /** Loading what was saved gives the state back. */
  lemma SaveThenLoad(s: Store.PersistentState)
    requires Store.WellFormed(s) && |Store.Encoded(s)| < U64_LIMIT
    ensures Opened(FileOf(Store.Encoded(s))) == Loaded(s)
  {
    hide Checksum, Header, Store.Encoded, Store.Decoded, Store.WellFormed;
    var payload := Store.Encoded(s);
    var file := FileOf(payload);
    Laws.RoundTrip(s);
    assert file[..HEADER] == Header(1, payload) && file[HEADER..] == payload;
    HeaderFields(1, payload, payload, file);
  }

  /** A file cut short or extended is never loaded. */
  lemma ResizedRefused(payload: seq<byte>, file: seq<byte>)
    requires |payload| < U64_LIMIT && |file| != |FileOf(payload)|
    requires file <= FileOf(payload) || FileOf(payload) <= file
    ensures Opened(file) == Unloadable(if |file| < HEADER then TooSmall else LengthMismatch)
  {
    hide Checksum, Header, Store.Decoded;
    var whole := FileOf(payload);
    assert whole[..HEADER] == Header(1, payload);
    if |file| >= HEADER {
      assert file[..HEADER] == whole[..HEADER];
      HeaderFields(1, payload, payload, file);
    }
  }

  /** Replacing up to four consecutive payload bytes by different ones is always noticed. */
  lemma BurstNoticed(pre: seq<byte>, x: seq<byte>, y: seq<byte>, post: seq<byte>)
    requires |x| == |y| <= 4 && x != y && |pre + x + post| < U64_LIMIT
    ensures Opened(Header(Store.FORMAT_VERSION, pre + x + post) + (pre + y + post)) == Unloadable(ChecksumMismatch)
  {
    hide Header, Checksum, Store.Decoded;
    var good, bad := pre + x + post, pre + y + post;
    var file := Header(1, good) + bad;
    assert file[..HEADER] == Header(1, good) && file[HEADER..] == bad;
    HeaderFields(1, good, bad, file);
    BurstChangesChecksum(pre, x, y, post);
  }

  // ---------------------------------------------------------------- implementation

  /** Below this many bytes the digest of a payload is defined. */
  const DIGESTED: nat := 0x2000_0000_0000_0000

  /** The bytes save hands to the file, and the digest it returns. */
  method Save(s: Store.PersistentState) returns (file: seq<byte>, digest: seq<byte>)
    requires |Store.Encoded(s)| < U64_LIMIT
    ensures file == FileOf(Store.Encoded(s))
    ensures |Store.Encoded(s)| < DIGESTED ==> digest == Sha256.Sha(Store.Encoded(s))
  {
    hide Checksum, Store.Encoded, Sha256.Sha;
    var payload := Codec.Encode(s);
    file := PushBE([], MAGIC, 4);
    file := PushBE(file, Store.FORMAT_VERSION, 4);
    file := PushBE(file, |payload|, 8);
    var crc := Crc.Compute(payload);
    file := PushBE(file, crc, 4);
    file := file + payload;
    digest := Sha256.Hasher.Digest(payload);
  }

  method Load(file: seq<byte>) returns (res: LoadResult, digest: seq<byte>)
    ensures res == Opened(file)
    ensures res.Loaded? && |file| - HEADER < DIGESTED ==> digest == Sha256.Sha(file[HEADER..])
  {
    hide Checksum, Store.Decoded, Sha256.Sha;
    digest := [];
    if |file| < HEADER {
      return Unloadable(TooSmall), digest;
    }
    var magic := ReadBE(file, 0, 4);
    if magic != MAGIC {
      return Unloadable(BadMagic), digest;
    }
    var version := ReadBE(file, 4, 4);
    if version > Store.FORMAT_VERSION {
      return Unloadable(UnsupportedVersion), digest;
    }
    var length := ReadBE(file, 8, 8);
    if length != |file| - HEADER {
      return Unloadable(LengthMismatch), digest;
    }
    var stored := ReadBE(file, 16, 4);
    var payload := file[HEADER..];
    var crc := Crc.Compute(payload);
    if crc != stored {
      return Unloadable(ChecksumMismatch), digest;
    }
    var result := Codec.Decode(payload);
    match result {
      case Refused(f) => res := Unloadable(Undecodable(f));
      case Accepted(s) =>
        res := Loaded(s);
        digest := Sha256.Hasher.Digest(payload);
    }
  }
}
