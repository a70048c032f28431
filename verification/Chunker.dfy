/** Cutting a file into packets (chunker.rs). */
module Chunker {
  import opened Wrappers
  import opened Bytes
  import opened Errors
  import opened Packets

  /** Chunks needed for `size` bytes; an empty file still gets one. */
  function Count(size: nat, payloadSize: nat): nat
    requires payloadSize > 0
  {
    if size == 0 then 1 else (size + payloadSize - 1) / payloadSize
  }

  /** The count as the source returns it, cast to `u32`. */
  function ChunksForSize(size: nat, payloadSize: nat): u32
    requires payloadSize > 0
  {
    Count(size, payloadSize) % U32
  }

  function Min(x: nat, y: nat): nat {
    if x <= y then x else y
  }

  function ChunkStart(payloadSize: nat, c: nat): nat {
    c * payloadSize
  }

  /** The bytes of chunk `c`. */
  function ChunkBytes(content: bytes, payloadSize: nat, c: nat): bytes {
    var start := Min(ChunkStart(payloadSize, c), |content|);
    content[start..Min(start + payloadSize, |content|)]
  }

  /** An open file; `payloadSize` is the datagram size less the header. */
  datatype Cut = Cut(content: bytes, fileId: i64, payloadSize: nat)
  {
    ghost predicate Legal() {
      MIN_CHUNK_SIZE - HEADER_LEN <= payloadSize <= MAX_CHUNK_SIZE - HEADER_LEN
    }

    function NumChunks(): u32
      requires payloadSize > 0
    {
      ChunksForSize(|content|, payloadSize)
    }

    function DataPacket(c: u32): (r: Result<Packet, Error>)
      requires payloadSize > 0
    {
      if c >= NumChunks() then Failure(OutOfRange(c, NumChunks()))
      else Success(Packet(Data, if c == NumChunks() - 1 then LAST_CHUNK else 0, fileId, c, NumChunks(),
                          ChunkBytes(content, payloadSize, c)))
    }

    /** As `DataPacket`, with the type changed and the hint bit, clear in a fresh packet, set. */
    function RetransmitPacket(c: u32): (r: Result<Packet, Error>)
      requires payloadSize > 0
    {
      match DataPacket(c)
      case Failure(e) => Failure(e)
      case Success(p) => Success(p.(ptype := Retransmit, flags := p.flags + RETRANSMIT_HINT))
    }

    function ManifestPacket(name: bytes): Packet
      requires payloadSize > 0
    {
      Packet(Manifest, 0, fileId, 0, NumChunks(), name)
    }
  }

  /** Opening checks the datagram size first, then the file. */
  function OpenCut(file: Option<bytes>, fileId: i64, chunkSize: nat): (r: Result<Cut, Error>)
    ensures r.Success? ==> r.value.Legal()
  {
    if !(MIN_CHUNK_SIZE <= chunkSize <= MAX_CHUNK_SIZE) then Failure(BadChunkSize)
    else match file
      case None => Failure(NotFound)
      case Some(content) => Success(Cut(content, fileId, chunkSize - HEADER_LEN))
  }

  // ---- the chunks tile the file ----

  lemma MulStep(p: nat, c: nat)
    ensures ChunkStart(p, c + 1) == ChunkStart(p, c) + p
    ensures ChunkStart(p, 0) == 0
  {
  }

  lemma MulMonotone(p: nat, c: nat, d: nat)
    requires c <= d
    ensures ChunkStart(p, c) <= ChunkStart(p, d)
    ensures c < d ==> ChunkStart(p, c) + p <= ChunkStart(p, d)
  {
    assert ChunkStart(p, d) == ChunkStart(p, c) + (d - c) * p;
    if c < d { assert (d - c) * p == p + (d - c - 1) * p; }
  }

  /** The last chunk starts inside the file (or the file is empty) and reaches its end. */
  lemma CountBounds(size: nat, p: nat)
    requires p > 0
    ensures Count(size, p) >= 1
    ensures size > 0 ==> ChunkStart(p, Count(size, p) - 1) < size
    ensures size <= ChunkStart(p, Count(size, p))
    ensures size == 0 ==> Count(size, p) == 1
  {
    if size > 0 {
      var n, r := (size + p - 1) / p, (size + p - 1) % p;
      assert size + p - 1 == n * p + r;
      MulStep(p, n - 1);
    }
  }

  /** Every chunk but the last is full, and all lie inside the file. */
  lemma ChunkPlace(content: bytes, p: nat, c: nat)
    requires p > 0 && c < Count(|content|, p)
    ensures ChunkStart(p, c) <= |content|
    ensures var len := |ChunkBytes(content, p, c)|;
      ChunkStart(p, c) + len <= |content|
      && ChunkBytes(content, p, c) == content[ChunkStart(p, c)..ChunkStart(p, c) + len]
      && (c < Count(|content|, p) - 1 ==> len == p)
      && (c == Count(|content|, p) - 1 ==> ChunkStart(p, c) + len == |content|)
  {
    var n := Count(|content|, p);
    CountBounds(|content|, p);
    MulMonotone(p, c, n - 1);
    MulStep(p, n - 1);
    MulStep(p, 0);
  }

  function Joined(content: bytes, p: nat, k: nat): bytes {
    if k == 0 then [] else Joined(content, p, k - 1) + ChunkBytes(content, p, k - 1)
  }

  lemma {:induction false} JoinedPrefix(content: bytes, p: nat, k: nat)
    requires p > 0 && k <= Count(|content|, p)
    ensures Joined(content, p, k) == content[..Min(ChunkStart(p, k), |content|)]
  {
    if k > 0 {
      JoinedPrefix(content, p, k - 1);
      ChunkPlace(content, p, k - 1);
      MulStep(p, k - 1);
      CountBounds(|content|, p);
    }
  }

  /** The payloads of all data packets, in order, are the file. */
  lemma ChunksJoinToContent(cut: Cut)
    requires cut.payloadSize > 0
    ensures Joined(cut.content, cut.payloadSize, Count(|cut.content|, cut.payloadSize)) == cut.content
  {
    var n := Count(|cut.content|, cut.payloadSize);
    CountBounds(|cut.content|, cut.payloadSize);
    JoinedPrefix(cut.content, cut.payloadSize, n);
    assert cut.content[..|cut.content|] == cut.content;
  }

  /** Empty files and exact multiples: one chunk, and no chunk too many. */
  lemma CountOfMultiples(k: nat, p: nat)
    requires p > 0
    ensures Count(0, p) == 1
    ensures k > 0 ==> Count(k * p, p) == k
  {
    if k > 0 {
      CountBounds(k * p, p);
      var n := Count(k * p, p);
      if n < k { MulMonotone(p, n, k); }
      if n > k { MulMonotone(p, k, n - 1); }
    }
  }
}
