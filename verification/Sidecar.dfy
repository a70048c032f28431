/**
 The manifest of an assembly and its sidecar file (the `Manifest` struct of reassembler.rs).
 Reading a saved sidecar gives the manifest back, which is why reloading it for every packet
 is the same as keeping it in memory.
 */
module Sidecar {
  import opened Wrappers
  import opened Bytes
  import opened Crc32
  import opened Errors
  import opened Bitmaps

  const MANIFEST_MAGIC: bytes := [0x50, 0x4D, 0x41, 0x4E]  // "PMAN"
  const MANIFEST_VERSION: byte := 1
  const MANIFEST_HEADER_LEN: nat := 32

  datatype Manifest = Manifest(payloadSize: u32, numChunks: u32, sizeHint: u64, name: bytes, bitmap: bytes)
  {
    /** What `save` needs for `open` to return the same manifest. */
    predicate Sized() {
      |name| < U32 && |bitmap| == BitmapLen(numChunks)
    }

    predicate Complete() {
      IsComplete(bitmap, numChunks)
    }
  }

  function Fresh(payloadSize: u32, numChunks: u32, name: bytes): Manifest {
    Manifest(payloadSize, numChunks, 0, name, Zeros(BitmapLen(numChunks)))
  }

  /** The header with its CRC field cleared. */
  function Header(m: Manifest): (h: bytes)
    ensures |h| == 28
  {
    MANIFEST_MAGIC + [MANIFEST_VERSION, 0, 0, 0] + LeBytes(m.payloadSize, 4) + LeBytes(m.numChunks, 4)
    + LeBytes(m.sizeHint, 8) + LeBytes(|m.name| % U32, 4)
  }

  function Save(m: Manifest): (buf: bytes)
    ensures |buf| == MANIFEST_HEADER_LEN + |m.name| + |m.bitmap|
  {
    Header(m) + LeBytes(Checksum(Header(m) + Zeros(4)), 4) + m.name + m.bitmap
  }

  function Open(buf: bytes): (r: Result<Manifest, Error>)
    ensures r.Success? ==> r.value.Sized()
    ensures r.Failure? ==> r == Failure(BadManifest)
  {
    if |buf| < MANIFEST_HEADER_LEN || buf[0..4] != MANIFEST_MAGIC || buf[4] != MANIFEST_VERSION then
      Failure(BadManifest)
    else
      Powers();
      var numChunks := LeValue(buf[12..16]);
      var nameEnd := MANIFEST_HEADER_LEN + LeValue(buf[24..28]);
      if Checksum(buf[..28] + Zeros(4)) != LeValue(buf[28..32]) then Failure(BadManifest)
      else if |buf| < nameEnd + BitmapLen(numChunks) then Failure(BadManifest)
      else Success(Manifest(LeValue(buf[8..12]), numChunks, LeValue(buf[16..24]), buf[32..nameEnd],
                            buf[nameEnd..nameEnd + BitmapLen(numChunks)]))
  }

  lemma HeaderFields(m: Manifest)
    ensures var h := Header(m);
      h[0..4] == MANIFEST_MAGIC && h[4] == MANIFEST_VERSION
      && h[8..12] == LeBytes(m.payloadSize, 4) && h[12..16] == LeBytes(m.numChunks, 4)
      && h[16..24] == LeBytes(m.sizeHint, 8) && h[24..28] == LeBytes(|m.name| % U32, 4)
  {
  }

  lemma SavedSlice(m: Manifest, i: nat, j: nat)
    requires i <= j <= 28
    ensures Save(m)[i..j] == Header(m)[i..j]
  {
    hide Header, Checksum, LeBytes;
  }

  lemma SavedTail(m: Manifest)
    ensures var buf, nameEnd := Save(m), 32 + |m.name|;
      buf[..28] == Header(m) && buf[28..32] == LeBytes(Checksum(Header(m) + Zeros(4)), 4)
      && buf[32..nameEnd] == m.name && buf[nameEnd..nameEnd + |m.bitmap|] == m.bitmap
  {
    hide Header, Checksum, LeBytes;
  }

  lemma SavedFields(m: Manifest)
    ensures var buf := Save(m);
      buf[0..4] == MANIFEST_MAGIC && buf[4] == MANIFEST_VERSION
      && buf[8..12] == LeBytes(m.payloadSize, 4) && buf[12..16] == LeBytes(m.numChunks, 4)
      && buf[16..24] == LeBytes(m.sizeHint, 8) && buf[24..28] == LeBytes(|m.name| % U32, 4)
  {
    hide Header, Checksum, LeBytes, Save;
    HeaderFields(m);
    SavedSlice(m, 0, 4);
    SavedSlice(m, 4, 5);
    SavedSlice(m, 8, 12);
    SavedSlice(m, 12, 16);
    SavedSlice(m, 16, 24);
    SavedSlice(m, 24, 28);
    assert Save(m)[4..5][0] == Header(m)[4..5][0];
  }

  lemma OpenSized(m: Manifest)
    requires m.Sized()
    ensures Open(Save(m)) == Success(m)
  {
    hide Header, Checksum, LeBytes, LeValue, Save, BitmapLen;
    Powers();
    SavedFields(m);
    SavedTail(m);
    LeValueOfBytes(m.payloadSize, 4);
    LeValueOfBytes(m.numChunks, 4);
    LeValueOfBytes(m.sizeHint, 8);
    LeValueOfBytes(|m.name|, 4);
    LeValueOfBytes(Checksum(Header(m) + Zeros(4)), 4);
  }

  /** A sidecar reads back as it was saved exactly when its lengths fit. */
  lemma OpenSave(m: Manifest)
    ensures Open(Save(m)) == Success(m) <==> m.Sized()
  {
    hide Save, Open;
    if m.Sized() { OpenSized(m); }
  }

  /** The layout of a sidecar: its magic and version, and every field. */
  lemma SidecarLayout(m: Manifest)
    ensures var s := Save(m);
      && s[0] == 0x50 && s[1] == 0x4D && s[2] == 0x41 && s[3] == 0x4E && s[4] == 1 && s[5] == s[6] == s[7] == 0
      && U32At(s, 8) == m.payloadSize && U32At(s, 12) == m.numChunks && U64At(s, 16) == m.sizeHint
      && U32At(s, 24) == |m.name| % U32 && U32At(s, 28) == Checksum(s[..28] + [0, 0, 0, 0])
      && s[32..] == m.name + m.bitmap
  {
    SavedReserved(m);
    SavedFields(m);
    SavedTail(m);
    hide Header, Checksum, LeBytes, LeValue, Save, U32At, U64At;
    Powers();
    var s := Save(m);
    assert s[0] == s[0..4][0] && s[1] == s[0..4][1] && s[2] == s[0..4][2] && s[3] == s[0..4][3];
    FieldAt(s, 8, m.payloadSize, 4);
    FieldAt(s, 12, m.numChunks, 4);
    FieldAt(s, 16, m.sizeHint, 8);
    FieldAt(s, 24, |m.name| % U32, 4);
    assert Zeros(4) == [0, 0, 0, 0];
    FieldAt(s, 28, Checksum(s[..28] + Zeros(4)), 4);
    var end := 32 + |m.name|;
    assert s[32..] == s[32..end] + s[end..end + |m.bitmap|];
  }

  lemma SavedReserved(m: Manifest)
    ensures Save(m)[5] == Save(m)[6] == Save(m)[7] == 0
  {
    hide Checksum, LeBytes;
  }

  /** Whatever opens carries the magic, the version, its own lengths, and the checksum of its header. */
  lemma OpenedIsSaved(buf: bytes)
    requires Open(buf).Success?
    ensures var m := Open(buf).value; var end := 32 + |m.name| + |m.bitmap|;
      && |buf| >= end && buf[..5] == Save(m)[..5] && buf[8..28] == Save(m)[8..28]
      && U32At(buf, 28) == Checksum(buf[..28] + [0, 0, 0, 0])
      && buf[32..end] == m.name + m.bitmap
  {
    hide Checksum, LeBytes, LeValue, BitmapLen, U32At;
    var m := Open(buf).value;
    Powers();
    LeBytesOfValue(buf[8..12]);
    LeBytesOfValue(buf[12..16]);
    LeBytesOfValue(buf[16..24]);
    LeBytesOfValue(buf[24..28]);
    LeBytesOfValue(buf[28..32]);
    SavedFields(m);
    hide Save, Header;
    FieldAt(buf, 28, Checksum(buf[..28] + Zeros(4)), 4);
    assert Zeros(4) == [0, 0, 0, 0];
    HeadJoined(buf);
    HeadJoined(Save(m));
    var nameEnd, end := 32 + |m.name|, 32 + |m.name| + |m.bitmap|;
    assert buf[32..end] == buf[32..nameEnd] + buf[nameEnd..end];
  }

  lemma HeadJoined(b: bytes)
    requires |b| >= 32
    ensures b[..5] == b[0..4] + [b[4]] && b[8..28] == b[8..12] + b[12..16] + b[16..24] + b[24..28]
  {
  }

  /** A sidecar whose header is damaged within four bytes is refused; its name and bitmap are not covered. */
  lemma HeaderDamageRefused(m: Manifest, damaged: bytes, at: nat)
    requires m.Sized() && |damaged| == |Save(m)| && at + 4 <= 28
    requires damaged != Save(m) && forall k :: 0 <= k < |damaged| && !(at <= k < at + 4) ==> damaged[k] == Save(m)[k]
    ensures Open(damaged).Failure?
  {
    hide Checksum, LeBytes, LeValue, Save, Header, BitmapLen;
    var s := Save(m);
    OpenSized(m);
    if Open(damaged).Success? {
      var x, y := damaged[..28] + Zeros(4), s[..28] + Zeros(4);
      assert damaged[28..32] == s[28..32];
      var k :| 0 <= k < |damaged| && damaged[k] != s[k];
      assert x[k] != y[k];
      BurstDetected(x, y, at);
    }
  }
}
