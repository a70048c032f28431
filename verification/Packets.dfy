/**
 The datagram codec (proto/packets.rs): a 32-byte header, a CRC over the whole datagram with
 the CRC field zeroed, and the payload. Encoding and decoding are inverse in both directions,
 and a damaged datagram is refused.
 */
module Packets {
  import opened Wrappers
  import opened Bytes
  import opened Crc32

  const MAGIC: bytes := [0x50, 0x41, 0x52, 0x43]  // "PARC"
  const PROTOCOL_VERSION: byte := 1
  const HEADER_LEN: nat := 32
  const MIN_CHUNK_SIZE: nat := 64
  const MAX_CHUNK_SIZE: nat := 65000

  const LAST_CHUNK: u16 := 1
  const RETRANSMIT_HINT: u16 := 4

  datatype PacketType = Data | Manifest | Retransmit | NameOnly | Heartbeat

  function ToU8(t: PacketType): byte {
    match t
    case Data => 1
    case Manifest => 2
    case Retransmit => 3
    case NameOnly => 4
    case Heartbeat => 5
  }

  function FromU8(b: byte): (r: Option<PacketType>)
    ensures r.Some? ==> ToU8(r.value) == b
    ensures 1 <= b <= 5 ==> r.Some?
  {
    if b == 1 then Some(Data)
    else if b == 2 then Some(Manifest)
    else if b == 3 then Some(Retransmit)
    else if b == 4 then Some(NameOnly)
    else if b == 5 then Some(Heartbeat)
    else None
  }

  datatype Packet = Packet(
    ptype: PacketType, flags: u16, fileId: i64, chunkId: u32, numChunks: u32, payload: bytes)
  {
    /** The LAST_CHUNK bit of the flags. */
    predicate IsLast() {
      flags % 2 == 1
    }

    /** What `payload_len` can carry. */
    predicate Fits() {
      |payload| < U32
    }
  }

  datatype DecodeError = ShortHeader | BadMagic | UnsupportedVersion | UnknownType | LengthMismatch | CrcMismatch

  /** The header up to the CRC field; `payload_len` keeps the low 32 bits of the length. */
  function Header(p: Packet): (h: bytes)
    ensures |h| == 28
  {
    MAGIC + [PROTOCOL_VERSION, ToU8(p.ptype)] + LeBytes(p.flags, 2) + LeBytes(I64Bits(p.fileId), 8)
    + LeBytes(p.chunkId, 4) + LeBytes(p.numChunks, 4) + LeBytes(|p.payload| % U32, 4)
  }

  function Assemble(header: bytes, crc: bytes, payload: bytes): bytes {
    header + crc + payload
  }

  function Encode(p: Packet): (buf: bytes)
    ensures |buf| == HEADER_LEN + |p.payload|
  {
    Assemble(Header(p), LeBytes(Checksum(Assemble(Header(p), Zeros(4), p.payload)), 4), p.payload)
  }

  /** The datagram with its CRC field cleared. */
  function Zeroed(buf: bytes): (z: bytes)
    requires |buf| >= HEADER_LEN
    ensures |z| == |buf|
    ensures forall k :: 0 <= k < |buf| ==> z[k] == if 28 <= k < 32 then 0 else buf[k]
  {
    buf[..28] + Zeros(4) + buf[32..]
  }

  function Decode(buf: bytes): Result<Packet, DecodeError> {
    if |buf| < HEADER_LEN then Failure(ShortHeader)
    else if buf[0..4] != MAGIC then Failure(BadMagic)
    else if buf[4] != PROTOCOL_VERSION then Failure(UnsupportedVersion)
    else match FromU8(buf[5])
      case None => Failure(UnknownType)
      case Some(t) =>
        Powers();
        if |buf| != HEADER_LEN + LeValue(buf[24..28]) then Failure(LengthMismatch)
        else if Checksum(Zeroed(buf)) != LeValue(buf[28..32]) then Failure(CrcMismatch)
        else Success(Packet(t, LeValue(buf[6..8]), I64Of(LeValue(buf[8..16])), LeValue(buf[16..20]),
                            LeValue(buf[20..24]), buf[32..]))
  }

  // ---- the code, filling and clearing buffers in place ----

  method CopyInto(buf: array<byte>, at: nat, s: bytes)
    requires at + |s| <= buf.Length
    modifies buf
    ensures buf[..] == old(buf[..at]) + s + old(buf[at + |s|..])
  {
    for k := 0 to |s|
      invariant buf[..] == old(buf[..at]) + s[..k] + old(buf[at + k..])
    {
      buf[at + k] := s[k];
    }
  }

  method EncodePacket(p: Packet) returns (buf: array<byte>)
    ensures fresh(buf) && buf[..] == Encode(p)
  {
    hide Encode, Header, Assemble, Checksum, LeBytes;
    buf := new byte[HEADER_LEN + |p.payload|](_ => 0);
    ghost var blank := Zeros(buf.Length);
    assert buf[..] == blank;
    CopyInto(buf, 0, Header(p));
    assert buf[..] == Header(p) + blank[28..];
    CopyInto(buf, HEADER_LEN, p.payload);
    assert blank[28..32] == Zeros(4);
    AssembleIs(Header(p), blank[28..32], p.payload);
    assert buf[..] == Header(p) + blank[28..32] + p.payload;
    var crc := ComputeChecksum(buf[..]);
    CopyInto(buf, 28, LeBytes(crc, 4));
    AssembledCrc(p, crc, buf[..]);
  }

  lemma AssembleIs(h: bytes, c: bytes, payload: bytes)
    ensures Assemble(h, c, payload) == h + c + payload
  {
  }

  lemma AssembledCrc(p: Packet, crc: u32, buf: bytes)
    requires crc == Checksum(Assemble(Header(p), Zeros(4), p.payload))
    requires |buf| == 32 + |p.payload| && buf[..28] == Header(p) && buf[28..32] == LeBytes(crc, 4)
    requires buf[32..] == p.payload
    ensures buf == Encode(p)
  {
    hide Checksum, Header, LeBytes;
  }

  method DecodePacket(buf: bytes) returns (r: Result<Packet, DecodeError>)
    ensures r == Decode(buf)
  {
    hide Checksum, LeValue;
    if |buf| < HEADER_LEN { return Failure(ShortHeader); }
    if buf[0..4] != MAGIC { return Failure(BadMagic); }
    if buf[4] != PROTOCOL_VERSION { return Failure(UnsupportedVersion); }
    var t := FromU8(buf[5]);
    if t.None? { return Failure(UnknownType); }
    if |buf| != HEADER_LEN + LeValue(buf[24..28]) { return Failure(LengthMismatch); }
    var tmp := new byte[|buf|](k requires 0 <= k < |buf| => buf[k]);
    CopyInto(tmp, 28, [0, 0, 0, 0]);
    assert tmp[..] == Zeroed(buf);
    var actual := ComputeChecksum(tmp[..]);
    if actual != LeValue(buf[28..32]) { return Failure(CrcMismatch); }
    Powers();
    r := Success(Packet(t.value, LeValue(buf[6..8]), I64Of(LeValue(buf[8..16])), LeValue(buf[16..20]),
                        LeValue(buf[20..24]), buf[32..]));
  }

  // ---- the codec is a bijection ----

  lemma HeaderFields(p: Packet)
    ensures var h := Header(p);
      h[0..4] == MAGIC && h[4] == PROTOCOL_VERSION && h[5] == ToU8(p.ptype)
      && h[6..8] == LeBytes(p.flags, 2) && h[8..16] == LeBytes(I64Bits(p.fileId), 8)
      && h[16..20] == LeBytes(p.chunkId, 4) && h[20..24] == LeBytes(p.numChunks, 4)
      && h[24..28] == LeBytes(|p.payload| % U32, 4)
  {
  }

  lemma AssembleFields(header: bytes, crc: bytes, payload: bytes, i: nat, j: nat)
    requires |header| == 28 && |crc| == 4 && i <= j <= 28
    ensures var b := Assemble(header, crc, payload);
      b[i..j] == header[i..j] && b[..28] == header && b[28..32] == crc && b[32..] == payload
  {
  }

  lemma I64RoundTrip(x: i64)
    ensures I64Of(I64Bits(x)) == x
  {
  }

  /** A packet survives the wire exactly when its length fits the `payload_len` field. */
  lemma DecodeEncode(p: Packet)
    ensures Decode(Encode(p)) == if p.Fits() then Success(p) else Failure(LengthMismatch)
  {
    hide Checksum, LeBytes, LeValue, Header, Assemble;
    var h, pl := Header(p), p.payload;
    var crc := Checksum(Assemble(h, Zeros(4), pl));
    var buf := Encode(p);
    Powers();
    HeaderFields(p);
    AssembleFields(h, LeBytes(crc, 4), pl, 0, 4);
    AssembleFields(h, LeBytes(crc, 4), pl, 4, 5);
    AssembleFields(h, LeBytes(crc, 4), pl, 5, 6);
    AssembleFields(h, LeBytes(crc, 4), pl, 6, 8);
    AssembleFields(h, LeBytes(crc, 4), pl, 8, 16);
    AssembleFields(h, LeBytes(crc, 4), pl, 16, 20);
    AssembleFields(h, LeBytes(crc, 4), pl, 20, 24);
    AssembleFields(h, LeBytes(crc, 4), pl, 24, 28);
    assert buf[4..5][0] == h[4..5][0] && buf[5..6][0] == h[5..6][0];
    ZeroedEncoding(p);
    LeValueOfBytes(p.flags, 2);
    LeValueOfBytes(I64Bits(p.fileId), 8);
    LeValueOfBytes(p.chunkId, 4);
    LeValueOfBytes(p.numChunks, 4);
    LeValueOfBytes(|pl| % U32, 4);
    LeValueOfBytes(crc, 4);
    I64RoundTrip(p.fileId);
  }

  lemma ZeroedEncoding(p: Packet)
    ensures Zeroed(Encode(p)) == Assemble(Header(p), Zeros(4), p.payload)
  {
    hide Checksum, LeBytes, Header;
  }

  /** Whatever is accepted is the encoding of what it was read as. */
  lemma EncodeDecode(buf: bytes)
    requires Decode(buf).Success?
    ensures Decode(buf).value.Fits() && Encode(Decode(buf).value) == buf
  {
    hide Checksum, LeBytes, LeValue, Assemble;
    var p := Decode(buf).value;
    Powers();
    LeBytesOfValue(buf[6..8]);
    LeBytesOfValue(buf[8..16]);
    LeBytesOfValue(buf[16..20]);
    LeBytesOfValue(buf[20..24]);
    LeBytesOfValue(buf[24..28]);
    LeBytesOfValue(buf[28..32]);
    assert buf[4..6] == [buf[4], buf[5]];
    assert buf[..28] == buf[0..4] + buf[4..6] + buf[6..8] + buf[8..16] + buf[16..20] + buf[20..24] + buf[24..28];
    assert Header(p) == buf[..28];
    Reassembled(buf);
  }

  lemma Reassembled(buf: bytes)
    requires |buf| >= HEADER_LEN
    ensures Assemble(buf[..28], buf[28..32], buf[32..]) == buf
    ensures Assemble(buf[..28], Zeros(4), buf[32..]) == Zeroed(buf)
  {
  }

  // ---- the datagram, byte by byte ----

  lemma EncodedFields(p: Packet)
    ensures var e := Encode(p);
      && e[0..4] == MAGIC && e[4] == PROTOCOL_VERSION && e[5] == ToU8(p.ptype) && e[6..8] == LeBytes(p.flags, 2)
      && e[8..16] == LeBytes(I64Bits(p.fileId), 8) && e[16..20] == LeBytes(p.chunkId, 4)
      && e[20..24] == LeBytes(p.numChunks, 4) && e[24..28] == LeBytes(|p.payload| % U32, 4)
      && e[28..32] == LeBytes(Checksum(Zeroed(e)), 4) && e[32..] == p.payload
  {
    hide Checksum, LeBytes, Header, Assemble;
    var h, crc := Header(p), LeBytes(Checksum(Assemble(Header(p), Zeros(4), p.payload)), 4);
    HeaderFields(p);
    ZeroedEncoding(p);
    AssembleFields(h, crc, p.payload, 0, 4);
    AssembleFields(h, crc, p.payload, 4, 5);
    AssembleFields(h, crc, p.payload, 5, 6);
    AssembleFields(h, crc, p.payload, 6, 8);
    AssembleFields(h, crc, p.payload, 8, 16);
    AssembleFields(h, crc, p.payload, 16, 20);
    AssembleFields(h, crc, p.payload, 20, 24);
    AssembleFields(h, crc, p.payload, 24, 28);
    var e := Encode(p);
    assert e[4..5][0] == h[4..5][0] && e[5..6][0] == h[5..6][0];
  }

  /** The layout of a datagram: its magic and version, the codes of the packet types, and every field. */
  lemma WireLayout(p: Packet)
    ensures var e := Encode(p);
      && e[0] == 0x50 && e[1] == 0x41 && e[2] == 0x52 && e[3] == 0x43 && e[4] == 1
      && (e[5] == 1 <==> p.ptype.Data?) && (e[5] == 2 <==> p.ptype.Manifest?) && (e[5] == 3 <==> p.ptype.Retransmit?)
      && (e[5] == 4 <==> p.ptype.NameOnly?) && (e[5] == 5 <==> p.ptype.Heartbeat?)
    ensures var e := Encode(p);
      && U16At(e, 6) == p.flags && U64At(e, 8) == (if p.fileId < 0 then p.fileId + U64 else p.fileId)
      && U32At(e, 16) == p.chunkId && U32At(e, 20) == p.numChunks && U32At(e, 24) == |p.payload| % U32
      && U32At(e, 28) == Checksum(Zeroed(e)) && e[32..] == p.payload
  {
    hide Encode, Checksum, LeBytes, LeValue, U16At, U32At, U64At, Zeroed;
    var e := Encode(p);
    Powers();
    EncodedFields(p);
    assert e[0] == e[0..4][0] && e[1] == e[0..4][1] && e[2] == e[0..4][2] && e[3] == e[0..4][3];
    FieldAt(e, 6, p.flags, 2);
    FieldAt(e, 8, I64Bits(p.fileId), 8);
    FieldAt(e, 16, p.chunkId, 4);
    FieldAt(e, 20, p.numChunks, 4);
    FieldAt(e, 24, |p.payload| % U32, 4);
    FieldAt(e, 28, Checksum(Zeroed(e)), 4);
  }

  // ---- damage ----

  /** Two datagrams of one length that differ at most inside the four bytes from `at`. */
  ghost predicate Confined(a: bytes, b: bytes, at: nat) {
    |a| == |b| && forall k :: 0 <= k < |a| && !(at <= k < at + 4) ==> a[k] == b[k]
  }

  /**
   A datagram damaged inside any window of four bytes is refused, unless the damage falls on
   both sides of the boundary between the CRC field and the payload.
   */
  lemma DamageRefused(p: Packet, damaged: bytes, at: nat)
    requires p.Fits() && damaged != Encode(p) && Confined(damaged, Encode(p), at)
    requires damaged[..32] == Encode(p)[..32] || damaged[32..] == Encode(p)[32..]
    ensures Decode(damaged).Failure?
  {
    hide Decode, Encode;
    DecodeEncode(p);
    if Decode(damaged).Success? {
      AcceptedAlike(damaged, Encode(p), at);
    }
  }

  lemma AcceptedAlike(a: bytes, b: bytes, at: nat)
    requires Decode(a).Success? && Decode(b).Success? && Confined(a, b, at)
    requires a[..32] == b[..32] || a[32..] == b[32..]
    ensures a == b
  {
    hide Checksum, LeValue;
    LengthFieldKept(a, b);
    CrcFieldKept(a, b, at);
    SlicesAgree(a, b, 28, 32);
    var x, y := Zeroed(a), Zeroed(b);
    if x != y { BurstDetected(x, y, at); }
    forall k | 0 <= k < |a| ensures a[k] == b[k] { assert x[k] == y[k]; }
  }

  lemma SlicesAgree(a: bytes, b: bytes, i: nat, j: nat)
    requires i <= j <= |a| && j <= |b| && a[i..j] == b[i..j]
    ensures forall k :: i <= k < j ==> a[k] == b[k]
  {
    forall k | i <= k < j ensures a[k] == b[k] { assert a[k] == a[i..j][k - i] && b[k] == b[i..j][k - i]; }
  }

  /** Two accepted datagrams of one length carry the same `payload_len`. */
  lemma LengthFieldKept(a: bytes, b: bytes)
    requires Decode(a).Success? && Decode(b).Success? && |a| == |b|
    ensures a[24..28] == b[24..28]
  {
    hide Checksum;
    LeBytesOfValue(a[24..28]);
    LeBytesOfValue(b[24..28]);
  }

  /** A damaged CRC field alone, or with `payload_len`, cannot be accepted. */
  lemma CrcFieldKept(a: bytes, b: bytes, at: nat)
    requires Decode(a).Success? && Decode(b).Success? && Confined(a, b, at) && a[24..28] == b[24..28]
    requires a[..32] == b[..32] || a[32..] == b[32..]
    ensures a[28..32] == b[28..32]
  {
    hide Checksum, LeValue;
    if a[..32] == b[..32] {
      assert a[28..32] == a[..32][28..32] && b[28..32] == b[..32][28..32];
    } else {
      SlicesAgree(a, b, 24, 28);
      SlicesAgree(a, b, 32, |a|);
      LeBytesOfValue(a[28..32]);
      LeBytesOfValue(b[28..32]);
      if j :| 28 <= j < 32 && a[j] != b[j] {
        assert Zeroed(a) == Zeroed(b);
      }
    }
  }

  lemma KeptHeaderDecides(p: Packet, damaged: bytes)
    requires p.Fits() && |damaged| == |Encode(p)| && damaged[..28] == Encode(p)[..28]
    ensures Decode(damaged).Success? <==> Checksum(Zeroed(damaged)) == LeValue(damaged[28..32])
  {
    hide Checksum, LeValue, Encode;
    DecodeEncode(p);
    var buf := Encode(p);
    assert damaged[0..4] == damaged[..28][0..4] && buf[0..4] == buf[..28][0..4];
    assert damaged[24..28] == damaged[..28][24..28] && buf[24..28] == buf[..28][24..28];
    assert damaged[4] == damaged[..28][4] && buf[4] == buf[..28][4];
    assert damaged[5] == damaged[..28][5] && buf[5] == buf[..28][5];
  }

  /**
   Damage that keeps the first 28 bytes is missed exactly when the new CRC field is the old
   register changed by a linear function of the payload change: the one way out that
   `DamageRefused` has to exclude.
   */
  lemma StraddlingDamage(p: Packet, damaged: bytes)
    requires p.Fits() && |damaged| == |Encode(p)| && damaged[..28] == Encode(p)[..28]
    ensures var x, y := Zeroed(Encode(p)), Zeroed(damaged);
      Decode(damaged).Success?
      <==> Value(Xor(Register(x), Run(ZERO, Diff(Octets(x), Octets(y))))) == LeValue(damaged[28..32])
  {
    KeptHeaderDecides(p, damaged);
    hide Register, Run, LeValue, Encode, Value, Diff, Octets;
    var x, y := Zeroed(Encode(p)), Zeroed(damaged);
    ChecksumDifference(x, y);
    XorTwice(Register(x), Register(y));
  }

  lemma XorTwice(r: Word, s: Word)
    ensures Xor(r, Xor(r, s)) == s
  {
  }
}
