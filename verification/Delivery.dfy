/**
 The ground station as a state machine over datagrams and power cuts (receiver.rs over
 reassembler.rs), and its safety claim: whatever arrives, in whatever order, every file it
 lands is byte-identical to the file that was sent.
 */
module Delivery {
  import opened Wrappers
  import opened Bytes
  import opened Bitmaps
  import opened Sidecar
  import opened Packets
  import opened Chunker
  import opened GroundPaths
  import opened Reassembly

  // ---- the ground ----

  datatype Ground = Ground(assemblies: map<i64, Assembly>, finals: map<Path, bytes>)
  {
    function At(id: i64): Assembly {
      if id in assemblies then assemblies[id] else NOTHING
    }
  }

  const EMPTY_GROUND := Ground(map[], map[])

  /** Landing a complete, named assembly; anything else is refused and changes nothing. */
  function Finalized(g: Ground, id: i64): Ground {
    match g.At(id)
    case Assembly(Some(m), Some(d)) =>
      if m.Complete() && m.name != [] && GroundPath(m.name) != [] then
        Ground(g.assemblies[id := NOTHING], g.finals[GroundPath(m.name) := d])
      else g
    case _ => g
  }

  /** One packet: ingest it, and land the file when that completed it. */
  function Deliver(g: Ground, p: Packet): Ground {
    var st := Ingest(g.At(p.fileId), p);
    var g' := g.(assemblies := g.assemblies[p.fileId := st.next]);
    if st.outcome == Complete then Finalized(g', p.fileId) else g'
  }

  /** One datagram: undecodable ones are dropped. */
  function Receive(g: Ground, datagram: bytes): Ground {
    match Decode(datagram)
    case Failure(_) => g
    case Success(p) => Deliver(g, p)
  }

  // ---- power cuts ----

  /**
   What a data file may read after power is lost while it changes from `x` to `y` without a
   sync: any length in between, every old byte either still old or already new, and anything
   at all where the file was being extended.
   */
  ghost predicate Torn(x: bytes, y: bytes, d: bytes) {
    (|x| <= |d| <= |y| || |y| <= |d| <= |x|)
    && forall k :: 0 <= k < |d| && k < |x| ==> d[k] == x[k] || (k < |y| && d[k] == y[k])
  }

  /** `c` is what may be left of `a` when power is lost while packet `p` is being ingested. */
  ghost predicate MayRemain(a: Assembly, p: Packet, c: Assembly) {
    var trail := [a] + Ingest(a, p).trail;
    c in trail
    || exists i :: 0 <= i < |trail| - 1 && TornBetween(trail[i], trail[i + 1], c)
  }

  ghost predicate TornBetween(before: Assembly, after: Assembly, c: Assembly) {
    before.manifest == after.manifest == c.manifest
    && before.data.Some? && after.data.Some? && c.data.Some?
    && Torn(before.data.value, after.data.value, c.data.value)
  }

  datatype Event = Datagram(d: bytes) | PowerCut(p: Packet, left: Assembly)

  ghost predicate Possible(g: Ground, e: Event) {
    match e
    case Datagram(_) => true
    case PowerCut(p, left) => MayRemain(g.At(p.fileId), p, left)
  }

  function After(g: Ground, e: Event): Ground {
    match e
    case Datagram(d) => Receive(g, d)
    case PowerCut(p, left) => g.(assemblies := g.assemblies[p.fileId := left])
  }

  // ---- what the sender puts on the link ----

  /** A file on the payload, and the payload sizes it has been cut at. */
  datatype Source = Source(name: bytes, content: bytes, sizes: set<nat>)

  /**
   The limits the protocol relies on. The reassembler tells cuts apart by their chunk count
   alone, so two sizes in use for one file must give different counts or a single chunk.
   */
  ghost predicate Sound(src: Source) {
    Limits(src) && ToldApart(src)
  }

  ghost predicate Limits(src: Source) {
    |src.name| < U32 && forall P :: P in src.sizes ==> 0 < P < U32 && Countable(Count(|src.content|, P))
  }

  ghost predicate ToldApart(src: Source) {
    forall P, Q :: P in src.sizes && Q in src.sizes && P > 0 && Q > 0
      && Count(|src.content|, P) == Count(|src.content|, Q)
      ==> P == Q || Count(|src.content|, P) == 1
  }

  lemma PositiveSizes(src: Source)
    requires Sound(src)
    ensures forall P :: P in src.sizes ==> P > 0
  {
  }

  /** `p` is cut from `src` at payload size `P`. */
  ghost predicate CutAt(src: Source, P: nat, p: Packet)
    requires P > 0
  {
    var cut := Cut(src.content, p.fileId, P);
    p == cut.ManifestPacket(src.name)
    || p == cut.ManifestPacket(src.name).(ptype := NameOnly)
    || cut.DataPacket(p.chunkId) == Success(p)
    || cut.RetransmitPacket(p.chunkId) == Success(p)
  }

  type Catalog = map<i64, Source>

  ghost predicate SoundCatalog(cat: Catalog) {
    forall id :: id in cat ==> Sound(cat[id])
  }

  ghost predicate Sent(cat: Catalog, p: Packet)
    requires SoundCatalog(cat)
  {
    p.fileId in cat && exists P :: P in cat[p.fileId].sizes && CutAt(cat[p.fileId], P, p)
  }

  /** The link delivers packets that were sent, and datagrams that no longer decode. */
  ghost predicate FromLink(cat: Catalog, e: Event)
    requires SoundCatalog(cat)
  {
    match e
    case Datagram(d) => Decode(d).Success? ==> Sent(cat, Decode(d).value)
    case PowerCut(p, _) => Sent(cat, p)
  }

  // ---- the invariant ----

  /** Chunk `c` of the cut at `P` is in the data file, where it belongs. */
  ghost predicate Held(content: bytes, P: nat, c: nat, d: bytes) {
    RightBytes(content, d, ChunkStart(P, c), ChunkStart(P, c) + |ChunkBytes(content, P, c)|)
  }

  ghost predicate RightBytes(content: bytes, d: bytes, from: nat, to: nat) {
    forall k :: from <= k < to ==> RightAt(content, d, k)
  }

  ghost predicate RightAt(content: bytes, d: bytes, k: nat) {
    k < |d| && k < |content| && d[k] == content[k]
  }

  /** `w` is right wherever `d` was. */
  ghost predicate NoWorse(content: bytes, d: bytes, w: bytes) {
    |d| <= |w| && forall k: nat :: RightAt(content, d, k) ==> RightAt(content, w, k)
  }

  /** The chunk size that the first packets of the cut at `P` lead the ground to. */
  function FirstLen(content: bytes, P: nat): nat {
    |ChunkBytes(content, P, 0)|
  }

  ghost predicate Agrees(src: Source, P: nat, m: Sidecar.Manifest, d: bytes)
    requires P > 0
  {
    var n := Count(|src.content|, P);
    m.Sized() && m.numChunks == n
    && (m.name == [] || m.name == src.name)
    && (m.payloadSize == 0 || m.payloadSize == FirstLen(src.content, P))
    && (m.payloadSize == 0 && n > 1 ==> forall c :: 0 <= c < n ==> !IsSet(m.bitmap, c))
    && (forall c :: 0 <= c < n && IsSet(m.bitmap, c) ==> Held(src.content, P, c, d))
  }

  ghost predicate Consistent(src: Source, a: Assembly)
    requires Sound(src)
  {
    |Contents(a.data)| <= |src.content|
    && (a.manifest.Some? ==> exists P :: P in src.sizes && Agrees(src, P, a.manifest.value, Contents(a.data)))
    && (a.manifest.Some? && a.data.None? ==> NoneSet(a.manifest.value))
  }

  ghost predicate NoneSet(m: Sidecar.Manifest) {
    forall c :: 0 <= c < m.numChunks ==> !IsSet(m.bitmap, c)
  }

  /** Every landed file is some catalogued file, whole. */
  ghost predicate Identical(cat: Catalog, finals: map<Path, bytes>) {
    forall path :: path in finals ==>
      exists id :: id in cat && GroundPath(cat[id].name) == path && finals[path] == cat[id].content
  }

  ghost predicate Safe(cat: Catalog, g: Ground)
    requires SoundCatalog(cat)
  {
    (forall id :: id in g.assemblies ==> id in cat && Consistent(cat[id], g.assemblies[id]))
    && Identical(cat, g.finals)
  }

  // ---- one chunk ----

  lemma PacketOfCut(src: Source, P: nat, p: Packet)
    requires Sound(src) && P in src.sizes && CutAt(src, P, p)
    ensures p.numChunks == Count(|src.content|, P)
    ensures p.ptype.Manifest? || p.ptype.NameOnly? ==> p.payload == src.name
    ensures p.ptype.Data? || p.ptype.Retransmit? ==>
      p.chunkId < p.numChunks && p.payload == ChunkBytes(src.content, P, p.chunkId)
      && (p.IsLast() <==> p.chunkId == p.numChunks - 1)
    ensures p.Fits() && !p.ptype.Heartbeat?
  {
    hide Count, ChunkBytes, ToldApart;
    if p.ptype.Data? || p.ptype.Retransmit? { ChunkAtMost(src.content, P, p.chunkId); }
  }

  /** The flags on the wire: the last chunk and the retransmission, nothing else. */
  lemma FlagsOfCut(src: Source, P: nat, p: Packet)
    requires Sound(src) && P in src.sizes && CutAt(src, P, p)
    ensures p.ptype.Data? || p.ptype.Retransmit? ==>
      p.flags == (if p.chunkId == Count(|src.content|, P) - 1 then 1 else 0) + (if p.ptype.Retransmit? then 4 else 0)
    ensures p.ptype.Manifest? || p.ptype.NameOnly? ==> p.flags == 0 && p.chunkId == 0
  {
    hide Count, ChunkBytes, ToldApart;
    PacketOfCut(src, P, p);
  }

  lemma ChunkAtMost(content: bytes, P: nat, c: nat)
    ensures |ChunkBytes(content, P, c)| <= P
  {
  }

  /** A chunk that reveals the chunk size reveals the right one. */
  lemma RevealedSize(src: Source, P: nat, p: Packet)
    requires Sound(src) && P in src.sizes && CutAt(src, P, p) && (p.ptype.Data? || p.ptype.Retransmit?) && !Tail(p)
    ensures |p.payload| == FirstLen(src.content, P) < U32
  {
    PacketOfCut(src, P, p);
    CountBounds(|src.content|, P);
    ChunkPlace(src.content, P, p.chunkId);
    ChunkPlace(src.content, P, 0);
  }

  /** Once the chunk size is known, chunks go where they belong. */
  lemma RightOffset(src: Source, P: nat, size: nat, c: nat)
    requires Sound(src) && P in src.sizes && c < Count(|src.content|, P)
    requires size == FirstLen(src.content, P)
    ensures Offset(size, c) == ChunkStart(P, c)
  {
    CountBounds(|src.content|, P);
    ChunkPlace(src.content, P, 0);
    MulStep(P, 0);
    MulStep(size, 0);
  }

  /** Writing a chunk in place never spoils a byte that is already right. */
  lemma WriteKeepsBytes(content: bytes, P: nat, c: nat, d: bytes, w: bytes)
    requires P > 0 && c < Count(|content|, P) && |d| <= |content|
    requires var at, s := ChunkStart(P, c), ChunkBytes(content, P, c); w == WriteAt(Grow(d, at + |s|), at, s)
    ensures |w| <= |content| && Held(content, P, c, w) && NoWorse(content, d, w)
    ensures c == Count(|content|, P) - 1 ==> |w| == |content|
  {
    var at, s := ChunkStart(P, c), ChunkBytes(content, P, c);
    ChunkPlace(content, P, c);
    forall k | at <= k < at + |s| ensures w[k] == content[k] { assert s[k - at] == content[at..at + |s|][k - at]; }
  }

  lemma HeldStays(content: bytes, P: nat, c: nat, d: bytes, w: bytes)
    requires Held(content, P, c, d) && NoWorse(content, d, w)
    ensures Held(content, P, c, w)
  {
    RightStays(content, d, w, ChunkStart(P, c), ChunkStart(P, c) + |ChunkBytes(content, P, c)|);
  }

  lemma RightStays(content: bytes, d: bytes, w: bytes, from: nat, to: nat)
    requires RightBytes(content, d, from, to) && NoWorse(content, d, w)
    ensures RightBytes(content, w, from, to)
  {
  }

  lemma SameLen(d: bytes)
    ensures SetLen(d, |d|) == d
  {
  }

  /** What the store steps make of the data file. */
  lemma PlacedChunk(src: Source, P: nat, m: Sidecar.Manifest, d: bytes, p: Packet)
    requires Sound(src) && P in src.sizes && CutAt(src, P, p) && (p.ptype.Data? || p.ptype.Retransmit?)
    requires |d| <= |src.content| && m.payloadSize == FirstLen(src.content, P)
    ensures var w := Written(m.payloadSize, p, d);
      Placed(m.payloadSize, p, d) == w && |w| <= |src.content| && Held(src.content, P, p.chunkId, w)
      && NoWorse(src.content, d, w) && (p.IsLast() ==> |w| == |src.content|)
  {
    hide Held, NoWorse, ChunkBytes, ChunkStart, Offset, Count, CutAt, WriteAt, Grow, SetLen;
    PacketOfCut(src, P, p);
    RightOffset(src, P, m.payloadSize, p.chunkId);
    ChunkPlace(src.content, P, p.chunkId);
    var w := Written(m.payloadSize, p, d);
    WriteKeepsBytes(src.content, P, p.chunkId, d, w);
    SameLen(w);
  }

  /**
   The store steps whatever the data file held before: the chunk is in its place, every other byte
   kept is the old one, and the last chunk settles the length of the file.
   */
  lemma PlacedAnywhere(src: Source, P: nat, m: Sidecar.Manifest, d: bytes, p: Packet)
    requires Sound(src) && P in src.sizes && CutAt(src, P, p) && (p.ptype.Data? || p.ptype.Retransmit?)
    requires m.payloadSize == FirstLen(src.content, P)
    ensures var w, at := Placed(m.payloadSize, p, d), ChunkStart(P, p.chunkId);
      var end := at + |p.payload|;
      && Held(src.content, P, p.chunkId, w)
      && |w| == (if p.chunkId == Count(|src.content|, P) - 1 then |src.content| else if |d| < end then end else |d|)
      && forall k :: 0 <= k < |w| && !(at <= k < end) ==> w[k] == if k < |d| then d[k] else 0
  {
    hide Count, ChunkBytes, CutAt, ToldApart, Offset, ChunkStart, Written;
    PacketOfCut(src, P, p);
    RightOffset(src, P, m.payloadSize, p.chunkId);
    ChunkPlace(src.content, P, p.chunkId);
    var at, s, w := ChunkStart(P, p.chunkId), p.payload, Placed(m.payloadSize, p, d);
    WrittenAnywhere(m.payloadSize, p, d);
    assert |s| == |ChunkBytes(src.content, P, p.chunkId)|;
    forall k | at <= k < at + |s| ensures RightAt(src.content, w, k) {
      assert s[k - at] == src.content[at..at + |s|][k - at];
    }
  }

  lemma WrittenAnywhere(size: nat, p: Packet, d: bytes)
    ensures var w, at := Written(size, p, d), Offset(size, p.chunkId);
      var end := at + |p.payload|;
      && |w| == (if |d| < end then end else |d|)
      && (forall k :: at <= k < end ==> w[k] == p.payload[k - at])
      && forall k :: 0 <= k < |w| && !(at <= k < end) ==> w[k] == if k < |d| then d[k] else 0
  {
    hide Offset;
  }

  // ---- the invariant is kept ----

  /** Files cut into one chunk look alike at every size. */
  lemma SameCut(src: Source, P: nat, Q: nat, m: Sidecar.Manifest, d: bytes)
    requires Sound(src) && P in src.sizes && Q in src.sizes && Agrees(src, P, m, d)
    requires m.numChunks == Count(|src.content|, Q)
    ensures Agrees(src, Q, m, d)
  {
    if P != Q {
      ChunkPlace(src.content, P, 0);
      ChunkPlace(src.content, Q, 0);
      MulStep(P, 0);
      MulStep(Q, 0);
      forall c | 0 <= c < m.numChunks && IsSet(m.bitmap, c) ensures Held(src.content, Q, c, d) {
        assert c == 0 && Held(src.content, P, 0, d);
      }
    }
  }

  lemma AgreesStays(src: Source, P: nat, m: Sidecar.Manifest, d: bytes, w: bytes)
    requires Sound(src) && P in src.sizes && Agrees(src, P, m, d) && NoWorse(src.content, d, w)
    ensures Agrees(src, P, m, w)
  {
    forall c | 0 <= c < m.numChunks && IsSet(m.bitmap, c) ensures Held(src.content, P, c, w) {
      HeldStays(src.content, P, c, d, w);
    }
  }

  lemma MarkedAgrees(src: Source, P: nat, m: Sidecar.Manifest, p: Packet, w: bytes)
    requires Sound(src) && P in src.sizes && Agrees(src, P, m, w)
    requires p.chunkId < m.numChunks && Held(src.content, P, p.chunkId, w) && m.payloadSize == FirstLen(src.content, P)
    ensures Agrees(src, P, Marked(m, p), w)
  {
    var marked := Marked(m, p);
    CountBounds(|src.content|, P);
    ChunkPlace(src.content, P, 0);
    forall c | 0 <= c < m.numChunks && IsSet(marked.bitmap, c) ensures Held(src.content, P, c, w) {
      SetBitSetsOne(m.bitmap, p.chunkId, c);
    }
    assert marked.payloadSize == 0 ==> m.numChunks == 1;
  }

  lemma FreshAgrees(src: Source, P: nat, size: u32, name: bytes, d: bytes)
    requires Sound(src) && P in src.sizes && (size == 0 || size == FirstLen(src.content, P))
    requires name == [] || name == src.name
    ensures Agrees(src, P, Fresh(size, Count(|src.content|, P), name), d)
  {
    var m := Fresh(size, Count(|src.content|, P), name);
    forall c | 0 <= c < m.numChunks ensures !IsSet(m.bitmap, c) { FreshIsClear(BitmapLen(m.numChunks), c); }
  }

  /** Learning the chunk size, from nothing or from a name-only assembly. */
  lemma SizingAgrees(src: Source, P: nat, a: Assembly, p: Packet)
    requires Sound(src) && P in src.sizes && CutAt(src, P, p) && (p.ptype.Data? || p.ptype.Retransmit?)
    requires Writes(a.manifest, p) && (a.manifest.Some? ==> Agrees(src, P, a.manifest.value, Contents(a.data)))
    ensures Agrees(src, P, Sizing(a.manifest, p), Contents(a.data))
    ensures Sizing(a.manifest, p).payloadSize == FirstLen(src.content, P)
    ensures a.manifest.None? || NoneSet(a.manifest.value) ==> NoneSet(Sizing(a.manifest, p))
  {
    PacketOfCut(src, P, p);
    if !Tail(p) { RevealedSize(src, P, p); }
    hide IsSet, Count, ChunkBytes, CutAt, Sound, Held;
    if a.manifest.None? {
      FreshAgrees(src, P, |p.payload| % U32, [], Contents(a.data));
      FreshNoneSet(|p.payload| % U32, p.numChunks, []);
    }
  }

  lemma FreshNoneSet(size: u32, n: u32, name: bytes)
    ensures NoneSet(Fresh(size, n, name))
  {
    forall c | 0 <= c < n ensures !IsSet(Zeros(BitmapLen(n)), c) { FreshIsClear(BitmapLen(n), c); }
  }

  lemma StoreChunkConsistent(src: Source, P: nat, m: Sidecar.Manifest, data: Option<bytes>, p: Packet)
    requires Sound(src) && P in src.sizes && CutAt(src, P, p) && (p.ptype.Data? || p.ptype.Retransmit?)
    requires |Contents(data)| <= |src.content| && Agrees(src, P, m, Contents(data))
    requires m.payloadSize == FirstLen(src.content, P)
    ensures var st := StoreChunk(m, data, p);
      Consistent(src, st.next) && forall i :: 0 <= i < |st.trail| ==> Consistent(src, st.trail[i])
  {
    hide Written, Placed, Marked, Agrees, IsSet, Sidecar.Manifest.Complete;
    var d := Contents(data);
    var w := Written(m.payloadSize, p, d);
    PlacedChunk(src, P, m, d, p);
    PacketOfCut(src, P, p);
    AgreesStays(src, P, m, d, w);
    AgreesCount(src, P, m, w);
    MarkedAgrees(src, P, m, p, w);
  }

  lemma AgreesCount(src: Source, P: nat, m: Sidecar.Manifest, d: bytes)
    requires Sound(src) && P in src.sizes && Agrees(src, P, m, d)
    ensures m.numChunks == Count(|src.content|, P)
  {
  }

  lemma IngestChunkConsistent(src: Source, P: nat, a: Assembly, p: Packet)
    requires Sound(src) && P in src.sizes && CutAt(src, P, p) && (p.ptype.Data? || p.ptype.Retransmit?)
    requires Writes(a.manifest, p) && |Contents(a.data)| <= |src.content|
    requires a.manifest.Some? ==> Agrees(src, P, a.manifest.value, Contents(a.data))
    requires a.manifest.Some? && a.data.None? ==> NoneSet(a.manifest.value)
    ensures var st := IngestChunk(a, p);
      Consistent(src, st.next) && forall i :: 0 <= i < |st.trail| ==> Consistent(src, st.trail[i])
  {
    hide Agrees, StoreChunk, Sizing, Sound, NoneSet;
    SizingAgrees(src, P, a, p);
    StoreChunkConsistent(src, P, Sizing(a.manifest, p), a.data, p);
  }

  lemma IngestManifestConsistent(src: Source, P: nat, a: Assembly, p: Packet)
    requires Sound(src) && P in src.sizes && |Contents(a.data)| <= |src.content|
    requires p.numChunks == Count(|src.content|, P) && p.payload == src.name
    requires a.manifest.Some? ==> Agrees(src, P, a.manifest.value, Contents(a.data))
    requires a.manifest.Some? && a.data.None? ==> NoneSet(a.manifest.value)
    ensures var st := IngestManifest(a, p);
      Consistent(src, st.next) && forall i :: 0 <= i < |st.trail| ==> Consistent(src, st.trail[i])
  {
    FreshAgrees(src, P, 0, p.payload, Contents(a.data));
    var m := match a.manifest case None => Fresh(0, p.numChunks, p.payload) case Some(x) => x;
    assert Agrees(src, P, m, Contents(a.data));
    assert Agrees(src, P, m.(name := src.name), Contents(a.data));
    FreshNoneSet(0, p.numChunks, p.payload);
    assert a.data.None? ==> NoneSet(m) && NoneSet(m.(name := src.name));
  }

  /** Packets of another cut leave the assembly as it was. */
  lemma WrongCountIgnored(a: Assembly, p: Packet)
    requires a.manifest.Some? && a.manifest.value.numChunks != p.numChunks && !p.ptype.Heartbeat?
    ensures Ingest(a, p) == Step(a, Mismatched, false, [])
  {
  }

  /** A heartbeat does nothing. */
  lemma HeartbeatIgnored(g: Ground, p: Packet)
    requires p.ptype.Heartbeat?
    ensures Deliver(g, p).finals == g.finals && forall id: i64 :: Deliver(g, p).At(id) == g.At(id)
  {
  }

  lemma NothingHappens(a: Assembly, p: Packet)
    requires (p.ptype.Data? || p.ptype.Retransmit?) && !Writes(a.manifest, p)
    ensures Ingest(a, p) == Step(a, Mismatched, false, [])
  {
  }

  /** Every durable step of one packet keeps the assembly consistent with the file. */
  lemma IngestConsistent(src: Source, P: nat, a: Assembly, p: Packet)
    requires Sound(src) && P in src.sizes && CutAt(src, P, p) && Consistent(src, a)
    ensures Consistent(src, Ingest(a, p).next)
    ensures forall i :: 0 <= i < |Ingest(a, p).trail| ==> Consistent(src, Ingest(a, p).trail[i])
  {
    PacketOfCut(src, P, p);
    hide Agrees, IngestChunk, IngestManifest, CutAt, Writes, Sound;
    if a.manifest.Some? && a.manifest.value.numChunks != p.numChunks {
      WrongCountIgnored(a, p);
    } else {
      if a.manifest.Some? {
        var Q :| Q in src.sizes && Agrees(src, Q, a.manifest.value, Contents(a.data));
        SameCut(src, Q, P, a.manifest.value, Contents(a.data));
      }
      match p.ptype {
        case Manifest => IngestManifestConsistent(src, P, a, p);
        case NameOnly => IngestManifestConsistent(src, P, a, p);
        case _ =>
          if Writes(a.manifest, p) { IngestChunkConsistent(src, P, a, p); } else { NothingHappens(a, p); }
      }
    }
  }

  // ---- power cuts keep it too ----

  lemma TornRight(content: bytes, x: bytes, y: bytes, d: bytes, from: nat, to: nat)
    requires Torn(x, y, d) && RightBytes(content, x, from, to) && RightBytes(content, y, from, to)
    ensures RightBytes(content, d, from, to)
  {
    forall k | from <= k < to ensures RightAt(content, d, k) {
      assert RightAt(content, x, k) && RightAt(content, y, k);
    }
  }

  lemma TornAgrees(src: Source, P: nat, m: Sidecar.Manifest, x: bytes, y: bytes, d: bytes)
    requires Sound(src) && P in src.sizes && Torn(x, y, d) && Agrees(src, P, m, x) && Agrees(src, P, m, y)
    ensures Agrees(src, P, m, d)
  {
    forall c | 0 <= c < m.numChunks && IsSet(m.bitmap, c) ensures Held(src.content, P, c, d) {
      assert Held(src.content, P, c, x) && Held(src.content, P, c, y);
      TornRight(src.content, x, y, d, ChunkStart(P, c), ChunkStart(P, c) + |ChunkBytes(src.content, P, c)|);
    }
  }

  lemma TornConsistent(src: Source, before: Assembly, after: Assembly, c: Assembly)
    requires Sound(src) && Consistent(src, before) && Consistent(src, after) && TornBetween(before, after, c)
    ensures Consistent(src, c)
  {
    hide Agrees;
    if c.manifest.Some? {
      var m, x, y := c.manifest.value, before.data.value, after.data.value;
      var P :| P in src.sizes && Agrees(src, P, m, x);
      var Q :| Q in src.sizes && Agrees(src, Q, m, y);
      AgreesCount(src, P, m, x);
      SameCut(src, Q, P, m, y);
      TornAgrees(src, P, m, x, y, c.data.value);
    }
  }

  /** Crash safety: whatever a power cut leaves of an ingest is consistent with the file. */
  lemma CrashConsistent(src: Source, P: nat, a: Assembly, p: Packet, left: Assembly)
    requires Sound(src) && P in src.sizes && CutAt(src, P, p) && Consistent(src, a) && MayRemain(a, p, left)
    ensures Consistent(src, left)
  {
    hide Sound, CutAt, Consistent, TornBetween, Ingest;
    IngestConsistent(src, P, a, p);
    var trail := [a] + Ingest(a, p).trail;
    forall i | 0 <= i < |trail| ensures Consistent(src, trail[i]) {
      if i > 0 { assert trail[i] == Ingest(a, p).trail[i - 1]; }
    }
    if left !in trail {
      var i :| 0 <= i < |trail| - 1 && TornBetween(trail[i], trail[i + 1], left);
      TornConsistent(src, trail[i], trail[i + 1], left);
    }
  }

  /** The chunk is on disk in full, in its place. */
  ghost predicate OnDisk(content: bytes, P: nat, c: nat, d: bytes) {
    var from, to := ChunkStart(P, c), ChunkStart(P, c) + |ChunkBytes(content, P, c)|;
    to <= |d| && d[from..to] == ChunkBytes(content, P, c)
  }

  /** What a sidecar claims about a data file, read for the cut at `P`. */
  ghost predicate Durable(src: Source, P: nat, m: Sidecar.Manifest, d: bytes)
    requires P > 0
  {
    var n := Count(|src.content|, P);
    m.numChunks == n
    && (forall c :: 0 <= c < n && IsSet(m.bitmap, c) ==> OnDisk(src.content, P, c, d))
    && (IsSet(m.bitmap, n - 1) ==> |d| == |src.content|)
  }

  /**
   What consistency promises of the two files found after a power cut: every bit names a chunk
   that is on disk, the data never outgrows the file, and it has the file's length once the
   last bit is set.
   */
  lemma BitsAreDurable(src: Source, a: Assembly)
    requires Sound(src) && Consistent(src, a)
    ensures |Contents(a.data)| <= |src.content|
    ensures a.manifest.Some? ==> exists P :: P in src.sizes && Durable(src, P, a.manifest.value, Contents(a.data))
  {
    if a.manifest.Some? {
      var d, m := Contents(a.data), a.manifest.value;
      var P :| P in src.sizes && Agrees(src, P, m, d);
      AgreesDurable(src, P, m, d);
    }
  }

  lemma AgreesDurable(src: Source, P: nat, m: Sidecar.Manifest, d: bytes)
    requires Sound(src) && P in src.sizes && Agrees(src, P, m, d) && |d| <= |src.content|
    ensures Durable(src, P, m, d)
  {
    hide Held, OnDisk, Count, IsSet;
    CountBounds(|src.content|, P);
    forall c | 0 <= c < m.numChunks && IsSet(m.bitmap, c)
      ensures OnDisk(src.content, P, c, d)
      ensures c == m.numChunks - 1 ==> |d| == |src.content|
    {
      HeldSlice(src.content, P, c, d);
    }
  }

  lemma HeldSlice(content: bytes, P: nat, c: nat, d: bytes)
    requires P > 0 && c < Count(|content|, P) && Held(content, P, c, d) && |d| <= |content|
    ensures OnDisk(content, P, c, d) && (c == Count(|content|, P) - 1 ==> |d| == |content|)
  {
    ChunkPlace(content, P, c);
    CountBounds(|content|, P);
    SliceRight(content, d, ChunkStart(P, c), ChunkStart(P, c) + |ChunkBytes(content, P, c)|);
  }

  lemma SliceRight(content: bytes, d: bytes, from: nat, to: nat)
    requires from <= to <= |content| && RightBytes(content, d, from, to) && (from == to ==> from <= |d|)
    ensures to <= |d| && d[from..to] == content[from..to]
  {
    if from < to { assert RightAt(content, d, to - 1); }
    forall k | from <= k < to ensures d[k] == content[k] { assert RightAt(content, d, k); }
  }

  // ---- the size hint ----

  /** The hint is the length of the file once the last chunk has been marked, and nothing before that. */
  ghost predicate HintTold(src: Source, m: Option<Sidecar.Manifest>) {
    m.Some? ==>
      var n := m.value.numChunks;
      m.value.sizeHint == if n > 0 && IsSet(m.value.bitmap, n - 1) then |src.content| % U64 else 0
  }

  lemma MarkedHint(src: Source, P: nat, m: Sidecar.Manifest, p: Packet)
    requires Sound(src) && P in src.sizes && CutAt(src, P, p) && (p.ptype.Data? || p.ptype.Retransmit?)
    requires m.Sized() && m.numChunks == Count(|src.content|, P) && m.payloadSize == FirstLen(src.content, P)
    requires HintTold(src, Some(m))
    ensures HintTold(src, Some(Marked(m, p)))
  {
    hide Count, ChunkBytes, CutAt, ToldApart, IsSet, SetBit, FirstLen, Offset, ChunkStart;
    PacketOfCut(src, P, p);
    RightOffset(src, P, m.payloadSize, p.chunkId);
    ChunkPlace(src.content, P, p.chunkId);
    BitOfChunk(m, p.chunkId);
    SetBitSetsOne(m.bitmap, p.chunkId, m.numChunks - 1);
  }

  lemma BitOfChunk(m: Sidecar.Manifest, c: nat)
    requires m.Sized() && c < m.numChunks && Countable(m.numChunks)
    ensures c / 8 < |m.bitmap|
  {
  }

  lemma FreshHint(src: Source, size: u32, n: u32, name: bytes)
    ensures HintTold(src, Some(Fresh(size, n, name)))
  {
    if n > 0 { FreshIsClear(BitmapLen(n), n - 1); }
  }

  /** Every durable step of every packet of the file keeps the hint right. */
  lemma HintKept(src: Source, P: nat, a: Assembly, p: Packet)
    requires Sound(src) && P in src.sizes && CutAt(src, P, p) && Consistent(src, a) && HintTold(src, a.manifest)
    ensures HintTold(src, Ingest(a, p).next.manifest)
    ensures forall i :: 0 <= i < |Ingest(a, p).trail| ==> HintTold(src, Ingest(a, p).trail[i].manifest)
  {
    PacketOfCut(src, P, p);
    if a.manifest.Some? && a.manifest.value.numChunks == p.numChunks {
      var Q :| Q in src.sizes && Agrees(src, Q, a.manifest.value, Contents(a.data));
      SameCut(src, Q, P, a.manifest.value, Contents(a.data));
    }
    hide Agrees, CutAt, Sound, HintTold, Written, Placed, Marked, Sidecar.Manifest.Complete, Consistent, Tail;
    if p.ptype.Manifest? || p.ptype.NameOnly? {
      FreshHint(src, 0, p.numChunks, p.payload);
      NameHint(src, a, p);
    } else if Writes(a.manifest, p) {
      ChunkHint(src, P, a, p);
    } else {
      NothingHappens(a, p);
    }
  }

  lemma NameHint(src: Source, a: Assembly, p: Packet)
    requires HintTold(src, a.manifest) && HintTold(src, Some(Fresh(0, p.numChunks, p.payload)))
    ensures var st := IngestManifest(a, p);
      HintTold(src, st.next.manifest) && forall i :: 0 <= i < |st.trail| ==> HintTold(src, st.trail[i].manifest)
  {
    hide IsSet, Sidecar.Manifest.Complete, Fresh;
  }

  lemma ChunkHint(src: Source, P: nat, a: Assembly, p: Packet)
    requires Sound(src) && P in src.sizes && CutAt(src, P, p) && (p.ptype.Data? || p.ptype.Retransmit?)
    requires Writes(a.manifest, p) && (a.manifest.Some? ==> Agrees(src, P, a.manifest.value, Contents(a.data)))
    requires HintTold(src, a.manifest)
    ensures var st := IngestChunk(a, p);
      HintTold(src, st.next.manifest) && forall i :: 0 <= i < |st.trail| ==> HintTold(src, st.trail[i].manifest)
  {
    hide CutAt, Sound, HintTold, StoreChunk, Sizing, IsSet, Writes, Held, Count, FirstLen;
    SizedHint(src, a.manifest, p);
    SizingAgrees(src, P, a, p);
    var m := Sizing(a.manifest, p);
    MarkedHint(src, P, m, p);
    StoreHint(src, m, a.data, p);
  }

  lemma StoreHint(src: Source, m: Sidecar.Manifest, data: Option<bytes>, p: Packet)
    requires HintTold(src, Some(m)) && HintTold(src, Some(Marked(m, p)))
    ensures var st := StoreChunk(m, data, p);
      HintTold(src, st.next.manifest) && forall i :: 0 <= i < |st.trail| ==> HintTold(src, st.trail[i].manifest)
  {
    hide HintTold, Written, Placed, Marked, Sidecar.Manifest.Complete;
  }

  lemma SizedHint(src: Source, m: Option<Sidecar.Manifest>, p: Packet)
    requires Writes(m, p) && HintTold(src, m)
    ensures m.Some? || !Tail(p)
    ensures HintTold(src, Some(Sizing(m, p)))
  {
    hide IsSet;
    FreshHint(src, |p.payload| % U32, p.numChunks, []);
  }

  // ---- landing ----

  lemma ByteInChunk(content: bytes, P: nat, k: nat) returns (c: nat)
    requires P > 0 && k < |content|
    ensures c < Count(|content|, P) && ChunkStart(P, c) <= k < ChunkStart(P, c) + |ChunkBytes(content, P, c)|
  {
    c := k / P;
    var r := k % P;
    assert k == c * P + r;
    CountBounds(|content|, P);
    if c >= Count(|content|, P) { MulMonotone(P, Count(|content|, P), c); }
    ChunkPlace(content, P, c);
  }

  lemma HeldByte(content: bytes, P: nat, c: nat, d: bytes, k: nat)
    requires Held(content, P, c, d) && ChunkStart(P, c) <= k < ChunkStart(P, c) + |ChunkBytes(content, P, c)|
    ensures RightAt(content, d, k)
  {
  }

  lemma CompleteIsContent(src: Source, P: nat, m: Sidecar.Manifest, d: bytes)
    requires Sound(src) && P in src.sizes && Agrees(src, P, m, d) && m.Complete() && |d| <= |src.content|
    ensures d == src.content
  {
    CompleteMeansAllSet(m.bitmap, m.numChunks);
    hide Held, Sidecar.Manifest.Complete, Count, ChunkBytes, ChunkStart, IsSet;
    forall k | 0 <= k < |src.content| ensures RightAt(src.content, d, k) {
      var c := ByteInChunk(src.content, P, k);
      assert IsSet(m.bitmap, c) && Held(src.content, P, c, d);
      HeldByte(src.content, P, c, d, k);
    }
    if src.content != [] { assert RightAt(src.content, d, |src.content| - 1); }
    forall k | 0 <= k < |src.content| ensures d[k] == src.content[k] { assert RightAt(src.content, d, k); }
  }

  lemma FinalizedSafe(cat: Catalog, g: Ground, id: i64)
    requires SoundCatalog(cat) && Safe(cat, g)
    ensures Safe(cat, Finalized(g, id))
  {
    var a := g.At(id);
    if a.manifest.Some? && a.data.Some? && a.manifest.value.Complete() && a.manifest.value.name != [] {
      var src := cat[id];
      var P :| P in src.sizes && Agrees(src, P, a.manifest.value, a.data.value);
      CompleteIsContent(src, P, a.manifest.value, a.data.value);
    }
  }

  lemma DeliverSafe(cat: Catalog, g: Ground, p: Packet)
    requires SoundCatalog(cat) && Safe(cat, g) && Sent(cat, p)
    ensures Safe(cat, Deliver(g, p))
  {
    hide Consistent, CutAt, Ingest, Finalized, Safe, Countable, ToldApart;
    var src := cat[p.fileId];
    var P :| P in src.sizes && CutAt(src, P, p);
    AtConsistent(cat, g, p.fileId);
    IngestConsistent(src, P, g.At(p.fileId), p);
    var g' := g.(assemblies := g.assemblies[p.fileId := Ingest(g.At(p.fileId), p).next]);
    PutSafe(cat, g, p.fileId, Ingest(g.At(p.fileId), p).next);
    FinalizedSafe(cat, g', p.fileId);
  }

  lemma PutSafe(cat: Catalog, g: Ground, id: i64, a: Assembly)
    requires SoundCatalog(cat) && Safe(cat, g) && id in cat && Consistent(cat[id], a)
    ensures Safe(cat, g.(assemblies := g.assemblies[id := a]))
  {
    hide Consistent;
  }

  lemma AtConsistent(cat: Catalog, g: Ground, id: i64)
    requires SoundCatalog(cat) && Safe(cat, g) && id in cat
    ensures Consistent(cat[id], g.At(id))
  {
  }

  lemma StepSafe(cat: Catalog, g: Ground, e: Event)
    requires SoundCatalog(cat) && Safe(cat, g) && FromLink(cat, e) && Possible(g, e)
    ensures Safe(cat, After(g, e))
  {
    hide Consistent, CutAt, Decode, Deliver, MayRemain, Safe, Countable, ToldApart;
    match e {
      case Datagram(d) => if Decode(d).Success? { DeliverSafe(cat, g, Decode(d).value); }
      case PowerCut(p, left) =>
        var src := cat[p.fileId];
        var P :| P in src.sizes && CutAt(src, P, p);
        AtConsistent(cat, g, p.fileId);
        CrashConsistent(src, P, g.At(p.fileId), p, left);
        PutSafe(cat, g, p.fileId, left);
    }
  }

  /** Intact and detectably damaged datagrams are all the link may deliver. */
  lemma LinkDelivers(cat: Catalog, p: Packet, d: bytes, at: nat)
    requires SoundCatalog(cat) && Sent(cat, p) && Confined(d, Encode(p), at)
    requires d[..32] == Encode(p)[..32] || d[32..] == Encode(p)[32..]
    ensures FromLink(cat, Datagram(d))
  {
    hide Encode, Decode, Confined, Sound;
    var src := cat[p.fileId];
    assert Sound(src);
    SentFits(cat, p);
    if d == Encode(p) { DecodeEncode(p); } else { DamageRefused(p, d, at); }
  }

  lemma SentFits(cat: Catalog, p: Packet)
    requires SoundCatalog(cat) && Sent(cat, p)
    ensures p.Fits()
  {
    var P :| P in cat[p.fileId].sizes && CutAt(cat[p.fileId], P, p);
    PacketOfCut(cat[p.fileId], P, p);
  }

  // ---- whole runs ----

  function RunGround(g: Ground, es: seq<Event>): Ground
    decreases |es|
  {
    if es == [] then g else RunGround(After(g, es[0]), es[1..])
  }

  ghost predicate LegalRun(cat: Catalog, g: Ground, es: seq<Event>)
    requires SoundCatalog(cat)
    decreases |es|
  {
    es == [] || (FromLink(cat, es[0]) && Possible(g, es[0]) && LegalRun(cat, After(g, es[0]), es[1..]))
  }

  /**
   The safety claim. Packets of any number of files, cut at any sizes the ground can tell
   apart, lost, repeated, reordered and damaged at will, with power cuts at any point of an
   ingest and files landing again after late packets: every landed file is whole.
   */
  lemma {:induction false} LandedFilesAreIdentical(cat: Catalog, g: Ground, es: seq<Event>)
    requires SoundCatalog(cat) && Safe(cat, g) && LegalRun(cat, g, es)
    ensures Safe(cat, RunGround(g, es)) && Identical(cat, RunGround(g, es).finals)
    decreases |es|
  {
    if es != [] {
      hide After, FromLink, Possible, Sound;
      StepSafe(cat, g, es[0]);
      LandedFilesAreIdentical(cat, After(g, es[0]), es[1..]);
    }
  }

  /** The run may start from nothing, and files with a landing place of their own are found there. */
  lemma LandedFromNothing(cat: Catalog, es: seq<Event>, id: i64)
    requires SoundCatalog(cat) && LegalRun(cat, EMPTY_GROUND, es) && id in cat
    requires forall j :: j in cat && GroundPath(cat[j].name) == GroundPath(cat[id].name) ==> j == id
    ensures var finals := RunGround(EMPTY_GROUND, es).finals;
      GroundPath(cat[id].name) in finals ==> finals[GroundPath(cat[id].name)] == cat[id].content
  {
    LandedFilesAreIdentical(cat, EMPTY_GROUND, es);
  }
}
