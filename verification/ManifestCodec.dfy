/**
 The MANIFEST file format (crates/sui-archival/src/lib.rs, `write_manifest` and `read_manifest`;
 blobs in crates/sui-storage/src/blob.rs): four magic bytes, one blob holding the manifest in
 BCS, and the SHA3-256 of everything before it.  The hash is an arbitrary function.
 */
module ManifestCodec {
  import opened ChainTypes
  import opened Manifests

  type Bytes = seq<byte>

  datatype Parsed<T> = Parsed(value: T, rest: Bytes) | Malformed

  const MANIFEST_FILE_MAGIC: Bytes := [0x00, 0xC0, 0xFF, 0xEE]
  const SHA3_BYTES: nat := 32
  const BCS_ENCODING: byte := 1
  const MAX_SEQUENCE_LENGTH: nat := 0x7FFF_FFFF
  const TWO_64: nat := 0x1_0000_0000_0000_0000

  // ---------------------------------------------------------------- little-endian integers

  function Pow(base: nat, k: nat): nat { if k == 0 then 1 else base * Pow(base, k - 1) }

  function LittleEndian(n: nat, k: nat): (s: Bytes)
    ensures |s| == k
  {
    if k == 0 then [] else [n % 256] + LittleEndian(n / 256, k - 1)
  }

  function FromLittleEndian(s: Bytes): nat {
    if s == [] then 0 else s[0] + 256 * FromLittleEndian(s[1..])
  }

  lemma {:induction false} LittleEndianInverse(n: nat, k: nat)
    requires n < Pow(256, k)
    ensures FromLittleEndian(LittleEndian(n, k)) == n
  {
    if k == 0 {
    } else {
      assert n / 256 < Pow(256, k - 1);
      LittleEndianInverse(n / 256, k - 1);
      assert LittleEndian(n, k)[1..] == LittleEndian(n / 256, k - 1);
    }
  }

  lemma {:induction false} FromLittleEndianBound(s: Bytes)
    ensures FromLittleEndian(s) < Pow(256, |s|)
  {
    if s == [] {
    } else {
      FromLittleEndianBound(s[1..]);
    }
  }

  lemma LowByte(low: nat, high: nat)
    requires low < 256
    ensures (low + 256 * high) % 256 == low && (low + 256 * high) / 256 == high
  {
  }

  /** Every byte string is the encoding of the number it denotes. */
  lemma {:induction false} LittleEndianCanonical(s: Bytes)
    ensures LittleEndian(FromLittleEndian(s), |s|) == s
  {
    if s == [] {
    } else {
      LittleEndianCanonical(s[1..]);
      LowByte(s[0], FromLittleEndian(s[1..]));
    }
  }

  lemma Pow256Is64Bits()
    ensures Pow(256, 8) == TWO_64
  {
    assert Pow(256, 4) == 0x1_0000_0000 by { assert Pow(256, 2) == 0x1_0000; }
    assert Pow(256, 6) == 0x1_0000_0000_0000;
  }

  function EncodeU64(n: u64): Bytes { LittleEndian(n, 8) }

  function DecodeU64(s: Bytes): Parsed<u64> {
    if |s| < 8 then Malformed
    else
      FromLittleEndianBound(s[..8]); Pow256Is64Bits();
      Parsed(FromLittleEndian(s[..8]), s[8..])
  }

  lemma U64RoundTrip(n: u64, rest: Bytes)
    ensures DecodeU64(EncodeU64(n) + rest) == Parsed(n, rest)
  {
    Pow256Is64Bits();
    LittleEndianInverse(n, 8);
    assert (EncodeU64(n) + rest)[..8] == EncodeU64(n);
  }

  lemma U64Canonical(s: Bytes)
    requires DecodeU64(s).Parsed?
    ensures s == EncodeU64(DecodeU64(s).value) + DecodeU64(s).rest
  {
    LittleEndianCanonical(s[..8]);
    assert s == s[..8] + s[8..];
  }

  // ---------------------------------------------------------------- variable-length integers

  function Varint(n: nat): (s: Bytes)
    ensures |s| > 0
  {
    if n < 128 then [n] else [n % 128 + 128] + Varint(n / 128)
  }

  /** Reads at most `max` bytes. */
  function ReadVarint(s: Bytes, max: nat): Parsed<nat> {
    if max == 0 || s == [] then Malformed
    else if s[0] < 128 then Parsed(s[0], s[1..])
    else
      match ReadVarint(s[1..], max - 1)
      case Malformed => Malformed
      case Parsed(v, rest) => Parsed(s[0] - 128 + 128 * v, rest)
  }

  /** Reading on after a byte with its top bit set. */
  lemma ReadVarintStep(low: nat, s: Bytes, max: nat, high: nat, rest: Bytes)
    requires low < 128 && max > 0 && ReadVarint(s, max - 1) == Parsed(high, rest)
    ensures ReadVarint([low + 128] + s, max) == Parsed(low + 128 * high, rest)
  {
    assert ([low + 128] + s)[1..] == s;
  }

  lemma {:induction false} VarintRoundTrip(n: nat, max: nat, rest: Bytes)
    requires n < Pow(128, max) && max > 0
    ensures ReadVarint(Varint(n) + rest, max) == Parsed(n, rest)
  {
    if n < 128 {
      assert (Varint(n) + rest)[1..] == rest;
    } else {
      assert n / 128 < Pow(128, max - 1);
      VarintRoundTrip(n / 128, max - 1, rest);
      ReadVarintStep(n % 128, Varint(n / 128) + rest, max, n / 128, rest);
      assert Varint(n) + rest == [n % 128 + 128] + (Varint(n / 128) + rest);
    }
  }

  lemma {:induction false} ReadVarintConsumes(s: Bytes, max: nat)
    requires ReadVarint(s, max).Parsed?
    ensures |ReadVarint(s, max).rest| < |s|
  {
    if s[0] >= 128 { ReadVarintConsumes(s[1..], max - 1); }
  }

  /** A prefix as long as the shortest form is the shortest form. */
  lemma {:induction false} VarintCanonical(s: Bytes, max: nat)
    requires ReadVarint(s, max).Parsed?
    requires |s| == |Varint(ReadVarint(s, max).value)| + |ReadVarint(s, max).rest|
    ensures s == Varint(ReadVarint(s, max).value) + ReadVarint(s, max).rest
  {
    var v, rest := ReadVarint(s, max).value, ReadVarint(s, max).rest;
    if s[0] < 128 {
      assert s == [s[0]] + s[1..];
    } else {
      var high := ReadVarint(s[1..], max - 1).value;
      ReadVarintConsumes(s[1..], max - 1);
      assert high > 0 && v % 128 == s[0] - 128 && v / 128 == high;
      VarintCanonical(s[1..], max - 1);
      assert s == [s[0]] + s[1..];
    }
  }

  lemma Pow128Covers()
    ensures Pow(128, 5) > MAX_SEQUENCE_LENGTH && Pow(128, 10) >= TWO_64
  {
    assert Pow(128, 2) == 0x4000;
    assert Pow(128, 4) == 0x1000_0000;
    assert Pow(128, 6) == 0x400_0000_0000;
    assert Pow(128, 8) == 0x100_0000_0000_0000;
  }

  /** A BCS length or variant tag: at most five bytes, in the shortest form. */
  function ReadUleb32(s: Bytes): Parsed<nat> {
    match ReadVarint(s, 5)
    case Malformed => Malformed
    case Parsed(v, rest) =>
      if v <= 0xFFFF_FFFF && |s| == |Varint(v)| + |rest| then Parsed(v, rest) else Malformed
  }

  lemma Uleb32RoundTrip(n: nat, rest: Bytes)
    requires n <= MAX_SEQUENCE_LENGTH
    ensures ReadUleb32(Varint(n) + rest) == Parsed(n, rest)
  {
    Pow128Covers();
    VarintRoundTrip(n, 5, rest);
  }

  lemma Uleb32Canonical(s: Bytes)
    requires ReadUleb32(s).Parsed?
    ensures s == Varint(ReadUleb32(s).value) + ReadUleb32(s).rest
  {
    VarintCanonical(s, 5);
  }

  // ---------------------------------------------------------------- BCS of a manifest

  function EncodeFile(f: FileMetadata): Bytes {
    Varint(if f.fileType == CheckpointContent then 0 else 1)
    + (EncodeU64(f.epochNum) + (EncodeU64(f.start) + (EncodeU64(f.end) + f.sha3Digest)))
  }

  function DecodeFile(s: Bytes): Parsed<FileMetadata> {
    match ReadUleb32(s)
    case Malformed => Malformed
    case Parsed(tag, s1) =>
      if tag > 1 then Malformed
      else
        match DecodeU64(s1)
        case Malformed => Malformed
        case Parsed(epoch, s2) =>
          match DecodeU64(s2)
          case Malformed => Malformed
          case Parsed(start, s3) =>
            match DecodeU64(s3)
            case Malformed => Malformed
            case Parsed(end, s4) =>
              if |s4| < 32 then Malformed
              else
                var t := if tag == 0 then CheckpointContent else CheckpointSummaryFile;
                Parsed(FileMetadata(t, epoch, start, end, s4[..32]), s4[32..])
  }

  lemma FileRoundTrip(f: FileMetadata, rest: Bytes)
    ensures DecodeFile(EncodeFile(f) + rest) == Parsed(f, rest)
  {
    var tag := if f.fileType == CheckpointContent then 0 else 1;
    var s4: Bytes := f.sha3Digest + rest;
    var s3 := EncodeU64(f.end) + s4;
    var s2 := EncodeU64(f.start) + s3;
    var s1 := EncodeU64(f.epochNum) + s2;
    assert EncodeFile(f) + rest == Varint(tag) + s1;
    Uleb32RoundTrip(tag, s1);
    U64RoundTrip(f.epochNum, s2);
    U64RoundTrip(f.start, s3);
    U64RoundTrip(f.end, s4);
    assert s4[..32] == f.sha3Digest && s4[32..] == rest;
  }

  /** Three numbers and the digest after the tag. */
  lemma FileBodyCanonical(s1: Bytes, s2: Bytes, s3: Bytes, f: FileMetadata, rest: Bytes)
    requires DecodeU64(s1) == Parsed(f.epochNum, s2) && DecodeU64(s2) == Parsed(f.start, s3)
    requires DecodeU64(s3) == Parsed(f.end, f.sha3Digest + rest)
    ensures s1 == (EncodeU64(f.epochNum) + (EncodeU64(f.start) + (EncodeU64(f.end) + f.sha3Digest))) + rest
  {
    U64Canonical(s1);
    U64Canonical(s2);
    U64Canonical(s3);
  }

  lemma FileCanonical(s: Bytes)
    requires DecodeFile(s).Parsed?
    ensures s == EncodeFile(DecodeFile(s).value) + DecodeFile(s).rest
  {
    var f, rest := DecodeFile(s).value, DecodeFile(s).rest;
    var s1 := ReadUleb32(s).rest;
    var s2 := DecodeU64(s1).rest;
    var s3 := DecodeU64(s2).rest;
    var s4 := DecodeU64(s3).rest;
    assert s4 == s4[..32] + s4[32..];
    Uleb32Canonical(s);
    FileBodyCanonical(s1, s2, s3, f, rest);
  }

  function EncodeFiles(files: seq<FileMetadata>): Bytes {
    if files == [] then [] else EncodeFile(files[0]) + EncodeFiles(files[1..])
  }

  function DecodeFiles(s: Bytes, count: nat): Parsed<seq<FileMetadata>>
    decreases count
  {
    if count == 0 then Parsed([], s)
    else
      match DecodeFile(s)
      case Malformed => Malformed
      case Parsed(f, s1) =>
        match DecodeFiles(s1, count - 1)
        case Malformed => Malformed
        case Parsed(files, rest) => Parsed([f] + files, rest)
  }

  /** A file decoded in front of decoded files. */
  lemma DecodeFilesStep(f: FileMetadata, s: Bytes, files: seq<FileMetadata>, rest: Bytes)
    requires DecodeFiles(s, |files|) == Parsed(files, rest)
    ensures DecodeFiles(EncodeFile(f) + s, |files| + 1) == Parsed([f] + files, rest)
  {
    FileRoundTrip(f, s);
  }

  lemma EncodeFilesSplit(files: seq<FileMetadata>, rest: Bytes)
    requires files != []
    ensures EncodeFiles(files) + rest == EncodeFile(files[0]) + (EncodeFiles(files[1..]) + rest)
  {
  }

  lemma {:induction false} FilesRoundTrip(files: seq<FileMetadata>, rest: Bytes)
    ensures DecodeFiles(EncodeFiles(files) + rest, |files|) == Parsed(files, rest)
  {
    if files == [] {
      assert EncodeFiles(files) + rest == rest;
    } else {
      EncodeFilesSplit(files, rest);
      FilesRoundTrip(files[1..], rest);
      DecodeFilesStep(files[0], EncodeFiles(files[1..]) + rest, files[1..], rest);
      assert files == [files[0]] + files[1..];
    }
  }

  lemma JoinFiles(s: Bytes, f: FileMetadata, s1: Bytes, files: seq<FileMetadata>, rest: Bytes)
    requires s == EncodeFile(f) + s1 && s1 == EncodeFiles(files) + rest
    ensures s == EncodeFiles([f] + files) + rest
  {
    assert ([f] + files)[1..] == files;
  }

  lemma {:induction false} FilesCanonical(s: Bytes, count: nat)
    requires DecodeFiles(s, count).Parsed?
    ensures |DecodeFiles(s, count).value| == count
    ensures s == EncodeFiles(DecodeFiles(s, count).value) + DecodeFiles(s, count).rest
    decreases count
  {
    if count == 0 {
      assert s == [] + s;
    } else {
      var f, s1 := DecodeFile(s).value, DecodeFile(s).rest;
      FilesCanonical(s1, count - 1);
      FileCanonical(s);
      JoinFiles(s, f, s1, DecodeFiles(s1, count - 1).value, DecodeFiles(s1, count - 1).rest);
    }
  }

  function EncodeManifest(m: Manifest): Bytes {
    Varint(0)
    + ([m.archiveVersion]
    + (EncodeU64(m.nextCheckpointSeqNum)
    + (Varint(|m.fileMetadata|)
    + (EncodeFiles(m.fileMetadata)
    + EncodeU64(m.epoch)))))
  }

  function DecodeManifest(s: Bytes): Option<Manifest> {
    match ReadUleb32(s)
    case Malformed => None
    case Parsed(tag, s1) =>
      if tag != 0 || s1 == [] then None
      else
        match DecodeU64(s1[1..])
        case Malformed => None
        case Parsed(next, s2) => DecodeTail(s1[0], next, s2)
  }

  /** The file list, then the epoch, then nothing. */
  function DecodeTail(version: byte, next: u64, s: Bytes): Option<Manifest> {
    match ReadUleb32(s)
    case Malformed => None
    case Parsed(count, s1) =>
      if count > MAX_SEQUENCE_LENGTH then None
      else
        match DecodeFiles(s1, count)
        case Malformed => None
        case Parsed(files, s2) =>
          match DecodeU64(s2)
          case Malformed => None
          case Parsed(epoch, rest) => if rest == [] then Some(ManifestV1(version, next, files, epoch)) else None
  }

  lemma ManifestRoundTrip(m: Manifest)
    requires |m.fileMetadata| <= MAX_SEQUENCE_LENGTH
    ensures DecodeManifest(EncodeManifest(m)) == Some(m)
  {
    var s4 := EncodeU64(m.epoch);
    var s3 := EncodeFiles(m.fileMetadata) + s4;
    var s2 := Varint(|m.fileMetadata|) + s3;
    var s1 := EncodeU64(m.nextCheckpointSeqNum) + s2;
    var s0: Bytes := [m.archiveVersion] + s1;
    assert EncodeManifest(m) == Varint(0) + s0;
    Uleb32RoundTrip(0, s0);
    assert s0[1..] == s1;
    U64RoundTrip(m.nextCheckpointSeqNum, s2);
    Uleb32RoundTrip(|m.fileMetadata|, s3);
    FilesRoundTrip(m.fileMetadata, s4);
    assert s4 == s4 + [];
    U64RoundTrip(m.epoch, []);
  }

  lemma TailCanonical(version: byte, next: u64, s: Bytes)
    requires DecodeTail(version, next, s).Some?
    ensures var m := DecodeTail(version, next, s).value;
      && m.archiveVersion == version && m.nextCheckpointSeqNum == next
      && |m.fileMetadata| <= MAX_SEQUENCE_LENGTH
      && s == Varint(|m.fileMetadata|) + (EncodeFiles(m.fileMetadata) + EncodeU64(m.epoch))
  {
    var count, s1 := ReadUleb32(s).value, ReadUleb32(s).rest;
    var s2 := DecodeFiles(s1, count).rest;
    Uleb32Canonical(s);
    FilesCanonical(s1, count);
    U64Canonical(s2);
    var m := DecodeTail(version, next, s).value;
    assert s2 == EncodeU64(m.epoch) by { assert EncodeU64(m.epoch) + [] == EncodeU64(m.epoch); }
  }

  /** The decoder accepts nothing but encodings. */
  lemma ManifestCanonical(s: Bytes)
    requires DecodeManifest(s).Some?
    ensures var m := DecodeManifest(s).value;
      s == EncodeManifest(m) && |m.fileMetadata| <= MAX_SEQUENCE_LENGTH
  {
    var s1 := ReadUleb32(s).rest;
    var next, s2 := DecodeU64(s1[1..]).value, DecodeU64(s1[1..]).rest;
    assert s == Varint(0) + s1 by { Uleb32Canonical(s); }
    assert s1[1..] == EncodeU64(next) + s2 by { U64Canonical(s1[1..]); }
    TailCanonical(s1[0], next, s2);
    JoinManifest(DecodeManifest(s).value, s, s1, s2);
  }

  lemma JoinManifest(m: Manifest, s: Bytes, s1: Bytes, s2: Bytes)
    requires s == Varint(0) + s1 && s1 != [] && s1[0] == m.archiveVersion
    requires s1[1..] == EncodeU64(m.nextCheckpointSeqNum) + s2
    requires s2 == Varint(|m.fileMetadata|) + (EncodeFiles(m.fileMetadata) + EncodeU64(m.epoch))
    ensures s == EncodeManifest(m)
  {
    assert s1 == [s1[0]] + s1[1..];
  }

  // ---------------------------------------------------------------- blobs

  function WriteBlob(data: Bytes): Bytes { Varint(|data|) + ([BCS_ENCODING] + data) }

  function ReadBlob(s: Bytes): Parsed<Bytes> {
    match ReadVarint(s, 10)
    case Malformed => Malformed
    case Parsed(v, s1) =>
      var len := v % TWO_64;
      if len == 0 || |s1| < 1 + len || s1[0] != BCS_ENCODING then Malformed
      else Parsed(s1[1..1 + len], s1[1 + len..])
  }

  lemma BlobRoundTrip(data: Bytes, rest: Bytes)
    requires 0 < |data| < TWO_64
    ensures ReadBlob(WriteBlob(data) + rest) == Parsed(data, rest)
  {
    var s1: Bytes := [BCS_ENCODING] + data + rest;
    assert WriteBlob(data) + rest == Varint(|data|) + s1;
    Pow128Covers();
    VarintRoundTrip(|data|, 10, s1);
    assert s1[1..1 + |data|] == data && s1[1 + |data|..] == rest;
  }

  // ---------------------------------------------------------------- the MANIFEST file

  /** None when the manifest cannot be serialized: too many files, or a blob beyond 2^64 bytes. */
  function WriteManifest(sha3: Bytes -> Digest, m: Manifest): Option<Bytes> {
    var data := EncodeManifest(m);
    if |m.fileMetadata| > MAX_SEQUENCE_LENGTH || |data| >= TWO_64 then None
    else
      var content := MANIFEST_FILE_MAGIC + WriteBlob(data);
      Some(content + sha3(content))
  }

  /** The blob is read from everything after the magic, the checksum bytes included. */
  function ReadManifest(sha3: Bytes -> Digest, file: Bytes): Option<Manifest> {
    if |file| < MAGIC_BYTES || file[..MAGIC_BYTES] != MANIFEST_FILE_MAGIC then None
    else if |file| < SHA3_BYTES then None
    else
      var content, checksum := file[..|file| - SHA3_BYTES], file[|file| - SHA3_BYTES..];
      if sha3(content) != checksum then None
      else
        match ReadBlob(file[MAGIC_BYTES..])
        case Malformed => None
        case Parsed(data, _) => DecodeManifest(data)
  }

  /** Reading back any file that carries the magic, a manifest's blob, anything at all, and the right
      checksum yields that manifest. */
  lemma ReadWithSlack(sha3: Bytes -> Digest, m: Manifest, slack: Bytes)
    requires |m.fileMetadata| <= MAX_SEQUENCE_LENGTH && |EncodeManifest(m)| < TWO_64
    ensures var content := MANIFEST_FILE_MAGIC + WriteBlob(EncodeManifest(m)) + slack;
      ReadManifest(sha3, content + sha3(content)) == Some(m)
  {
    var data := EncodeManifest(m);
    var content := MANIFEST_FILE_MAGIC + WriteBlob(data) + slack;
    var file := content + sha3(content);
    assert file[..|file| - SHA3_BYTES] == content && file[|file| - SHA3_BYTES..] == sha3(content);
    assert file[..MAGIC_BYTES] == MANIFEST_FILE_MAGIC;
    assert file[MAGIC_BYTES..] == WriteBlob(data) + (slack + sha3(content));
    BlobRoundTrip(data, slack + sha3(content));
    ManifestRoundTrip(m);
  }

  /** Parsing undoes printing. */
  lemma ReadUndoesWrite(sha3: Bytes -> Digest, m: Manifest)
    requires WriteManifest(sha3, m).Some?
    ensures ReadManifest(sha3, WriteManifest(sha3, m).value) == Some(m)
  {
    ReadWithSlack(sha3, m, []);
    var content := MANIFEST_FILE_MAGIC + WriteBlob(EncodeManifest(m));
    assert content + [] == content;
  }

  /** Two manifests never share a file. */
  lemma WriteIsInjective(sha3: Bytes -> Digest, m: Manifest, n: Manifest)
    requires WriteManifest(sha3, m).Some? && WriteManifest(sha3, m) == WriteManifest(sha3, n)
    ensures m == n
  {
    ReadUndoesWrite(sha3, m);
    ReadUndoesWrite(sha3, n);
  }

  /** An accepted file carries the magic and the checksum of all its other bytes. */
  lemma AcceptedCarriesItsChecksum(sha3: Bytes -> Digest, file: Bytes)
    requires ReadManifest(sha3, file).Some?
    ensures |file| >= SHA3_BYTES && file[..MAGIC_BYTES] == MANIFEST_FILE_MAGIC
    ensures file[|file| - SHA3_BYTES..] == sha3(file[..|file| - SHA3_BYTES])
  {
    assert file == file[..|file| - SHA3_BYTES] + file[|file| - SHA3_BYTES..];
  }

  /** Changing an accepted file without touching its checksum is only accepted when the two contents
      collide under the hash. */
  lemma AcceptedChangeIsACollision(sha3: Bytes -> Digest, file: Bytes, other: Bytes)
    requires ReadManifest(sha3, file).Some? && ReadManifest(sha3, other).Some?
    requires |other| == |file| && other != file
    requires other[|file| - SHA3_BYTES..] == file[|file| - SHA3_BYTES..]
    ensures var k := |file| - SHA3_BYTES;
      other[..k] != file[..k] && sha3(other[..k]) == sha3(file[..k])
  {
    var k := |file| - SHA3_BYTES;
    assert file == file[..k] + file[k..] && other == other[..k] + other[k..];
  }

  /** What follows the magic starts with a length in its shortest form, and the blob of that length ends
      where the checksum starts. */
  predicate CanonicalHeader(file: Bytes) {
    && |file| >= MAGIC_BYTES
    && var s := file[MAGIC_BYTES..];
    match ReadVarint(s, 10)
    case Malformed => false
    case Parsed(v, s1) => s == Varint(v % TWO_64) + s1 && |s1| == 1 + v % TWO_64 + SHA3_BYTES
  }

  /** What `write_manifest` prints has such a header. */
  lemma WrittenHeader(data: Bytes, checksum: Digest)
    requires 0 < |data| < TWO_64
    ensures CanonicalHeader((MANIFEST_FILE_MAGIC + WriteBlob(data)) + checksum)
  {
    var s1: Bytes := ([BCS_ENCODING] + data) + checksum;
    WrittenBehindMagic(data, checksum);
    Pow128Covers();
    VarintRoundTrip(|data|, 10, s1);
  }

  lemma WrittenBehindMagic(data: Bytes, checksum: Digest)
    ensures ((MANIFEST_FILE_MAGIC + WriteBlob(data)) + checksum)[MAGIC_BYTES..]
         == Varint(|data|) + (([BCS_ENCODING] + data) + checksum)
  {
    DropFirst(MANIFEST_FILE_MAGIC, Varint(|data|), [BCS_ENCODING] + data, checksum);
  }

  lemma DropFirst(a: Bytes, b: Bytes, c: Bytes, d: Bytes)
    ensures ((a + (b + c)) + d)[|a|..] == b + (c + d)
  {
  }

  /** With such a header the file is the magic, the blob as it is written, and 32 more bytes. */
  lemma HeaderSplits(file: Bytes)
    requires |file| >= MAGIC_BYTES && file[..MAGIC_BYTES] == MANIFEST_FILE_MAGIC && CanonicalHeader(file)
    requires ReadBlob(file[MAGIC_BYTES..]).Parsed?
    ensures var data, rest := ReadBlob(file[MAGIC_BYTES..]).value, ReadBlob(file[MAGIC_BYTES..]).rest;
      && |rest| == SHA3_BYTES && 0 < |data| < TWO_64
      && file == (MANIFEST_FILE_MAGIC + WriteBlob(data)) + rest
  {
    var s := file[MAGIC_BYTES..];
    var data, rest := ReadBlob(s).value, ReadBlob(s).rest;
    var s1 := ReadVarint(s, 10).rest;
    BlobBody(s1, |data|);
    assert file == MANIFEST_FILE_MAGIC + s;
  }

  lemma BlobBody(s: Bytes, len: nat)
    requires |s| >= 1 + len
    ensures s == ([s[0]] + s[1..1 + len]) + s[1 + len..]
  {
  }

  /** An accepted file is what `write_manifest` prints for its manifest exactly when its header is. */
  lemma AcceptedIsCanonicalIff(sha3: Bytes -> Digest, file: Bytes)
    requires ReadManifest(sha3, file).Some?
    ensures WriteManifest(sha3, ReadManifest(sha3, file).value) == Some(file) <==> CanonicalHeader(file)
  {
    var m := ReadManifest(sha3, file).value;
    var data := ReadBlob(file[MAGIC_BYTES..]).value;
    ManifestCanonical(data);
    if CanonicalHeader(file) {
      HeaderSplits(file);
      var content := MANIFEST_FILE_MAGIC + WriteBlob(data);
      assert file[..|file| - SHA3_BYTES] == content;
    }
    if WriteManifest(sha3, m) == Some(file) {
      WrittenHeader(data, sha3(MANIFEST_FILE_MAGIC + WriteBlob(data)));
    }
  }

  /** What is accepted need not be what `write_manifest` prints: any bytes may stand between the blob and
      the checksum. */
  lemma AcceptedNeedNotBeCanonical(sha3: Bytes -> Digest, m: Manifest) returns (file: Bytes)
    requires WriteManifest(sha3, m).Some?
    ensures ReadManifest(sha3, file) == Some(m) && Some(file) != WriteManifest(sha3, m)
  {
    var content := MANIFEST_FILE_MAGIC + WriteBlob(EncodeManifest(m));
    file := (content + [0]) + sha3(content + [0]);
    assert ReadManifest(sha3, file) == Some(m) by { ReadWithSlack(sha3, m, [0]); }
    LongerFileDiffers(sha3, content, [0]);
  }

  lemma LongerFileDiffers(sha3: Bytes -> Digest, content: Bytes, slack: Bytes)
    requires slack != []
    ensures (content + slack) + sha3(content + slack) != content + sha3(content)
  {
    assert |(content + slack) + sha3(content + slack)| == |content + sha3(content)| + |slack|;
  }

  function OverlongFile(data: Bytes, tail: Bytes): Bytes
    requires |data| < 128
  {
    MANIFEST_FILE_MAGIC + ([|data| + 128] + ([0] + ([BCS_ENCODING] + data + tail)))
  }

  lemma OverlongEnd(data: Bytes, tail: Bytes)
    requires 0 < |data| < 128 && |tail| == SHA3_BYTES - 1
    ensures |OverlongFile(data, tail)| == |MANIFEST_FILE_MAGIC + WriteBlob(data)| + SHA3_BYTES
    ensures OverlongFile(data, tail)[|OverlongFile(data, tail)| - SHA3_BYTES..] == [data[|data| - 1]] + tail
    ensures OverlongFile(data, tail)[MAGIC_BYTES] != (MANIFEST_FILE_MAGIC + WriteBlob(data))[MAGIC_BYTES]
  {
  }

  lemma OverlongRead(sha3: Bytes -> Digest, m: Manifest, tail: Bytes)
    requires |m.fileMetadata| <= MAX_SEQUENCE_LENGTH && 0 < |EncodeManifest(m)| < 128 && |tail| == SHA3_BYTES - 1
    requires var file := OverlongFile(EncodeManifest(m), tail);
      file[|file| - SHA3_BYTES..] == sha3(file[..|file| - SHA3_BYTES])
    ensures ReadManifest(sha3, OverlongFile(EncodeManifest(m), tail)) == Some(m)
  {
    var file := OverlongFile(EncodeManifest(m), tail);
    assert file[..MAGIC_BYTES] == MANIFEST_FILE_MAGIC;
    assert file[MAGIC_BYTES..] == [|EncodeManifest(m)| + 128] + ([0] + ([BCS_ENCODING] + EncodeManifest(m) + tail));
    OverlongBlob(EncodeManifest(m), tail);
    ManifestRoundTrip(m);
  }

  lemma OverlongDiffers(sha3: Bytes -> Digest, m: Manifest, tail: Bytes)
    requires |m.fileMetadata| <= MAX_SEQUENCE_LENGTH && 0 < |EncodeManifest(m)| < 128 && |tail| == SHA3_BYTES - 1
    ensures WriteManifest(sha3, m).Some?
    ensures var file, written := OverlongFile(EncodeManifest(m), tail), WriteManifest(sha3, m).value;
      |file| == |written| && file != written
  {
    var content := MANIFEST_FILE_MAGIC + WriteBlob(EncodeManifest(m));
    OverlongEnd(EncodeManifest(m), tail);
    assert (content + sha3(content))[MAGIC_BYTES] == content[MAGIC_BYTES];
  }

  /** The length of a file does not decide it: for every short manifest there is a hash and an accepted
      file of the right length that is not what is written.  The blob's length takes two bytes instead of
      one, and the blob's last byte is at the same time the first byte of the checksum. */
  lemma LengthDoesNotDecide(m: Manifest, tail: Bytes) returns (sha3: Bytes -> Digest, file: Bytes)
    requires |m.fileMetadata| <= MAX_SEQUENCE_LENGTH && 0 < |EncodeManifest(m)| < 128 && |tail| == SHA3_BYTES - 1
    ensures ReadManifest(sha3, file) == Some(m) && WriteManifest(sha3, m).Some?
    ensures |file| == |WriteManifest(sha3, m).value| && file != WriteManifest(sha3, m).value
  {
    var data := EncodeManifest(m);
    var digest: Digest := [data[|data| - 1]] + tail;
    sha3 := (s: Bytes) => digest;
    file := OverlongFile(data, tail);
    OverlongEnd(data, tail);
    OverlongRead(sha3, m, tail);
    OverlongDiffers(sha3, m, tail);
  }

  /** A length below 128 may be written with a second, empty byte. */
  lemma OverlongBlob(data: Bytes, rest: Bytes)
    requires 0 < |data| < 128
    ensures ReadBlob([|data| + 128] + ([0] + ([BCS_ENCODING] + data + rest))) == Parsed(data, rest)
  {
    var s1: Bytes := [BCS_ENCODING] + data + rest;
    assert ([0] + s1)[1..] == s1;
    ReadVarintStep(|data|, [0] + s1, 10, 0, s1);
    assert s1[1..1 + |data|] == data && s1[1 + |data|..] == rest;
  }
}
