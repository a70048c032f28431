/**
 Changing the chunk size of a file while it is on its way. The ground compares chunk counts
 and nothing else (reassembler.rs), so landing the right bytes in every interleaving depends
 on the sizes giving different counts, and on nothing more.
 */
module MixedSizes {
  import opened Wrappers
  import opened Bytes
  import opened Bitmaps
  import opened Sidecar
  import opened Packets
  import opened Chunker
  import opened GroundPaths
  import opened Reassembly
  import opened Delivery
  import opened Recovery

  /** Nothing but the file itself is found at its landing place. */
  ghost predicate LandsWell(src: Source, g: Ground) {
    GroundPath(src.name) in g.finals ==> g.finals[GroundPath(src.name)] == src.content
  }

  lemma {:induction false} ToldApartLandsWell(src: Source, id: i64, g: Ground, ps: seq<Packet>)
    requires Sound(src) && FromFile(src, id, ps)
    requires SoundCatalog(map[id := src]) && Safe(map[id := src], g)
    ensures LandsWell(src, DeliverAll(g, ps))
    decreases |ps|
  {
    var cat: Catalog := map[id := src];
    if ps != [] {
      hide Deliver, CutAt, Safe, Sound;
      assert cat[ps[0].fileId] == src;
      DeliverSafe(cat, g, ps[0]);
      ToldApartLandsWell(src, id, Deliver(g, ps[0]), ps[1..]);
    }
  }

  // ---- two sizes, one count ----

  /** The first `k` chunks at `P`, in order. */
  function FirstChunks(cut: Cut, k: nat): (ps: seq<Packet>)
    requires 0 < cut.payloadSize < U32 && k <= Count(|cut.content|, cut.payloadSize) < U32
  {
    if k == 0 then [] else FirstChunks(cut, k - 1) + [cut.DataPacket(k - 1).value]
  }

  /** A named assembly that has exactly the first `k` chunks of the cut at `P`. */
  ghost predicate HasFirst(src: Source, P: nat, k: nat, a: Assembly)
    requires Sound(src) && P in src.sizes
  {
    Belongs(src, P, a) && a.manifest.Some? && a.manifest.value.name == src.name
    && Measure(Count(|src.content|, P), a) == Count(|src.content|, P) - k
    && (forall c :: k <= c < Count(|src.content|, P) ==> !IsSet(a.manifest.value.bitmap, c))
    && (k > 0 ==> a.manifest.value.payloadSize == FirstLen(src.content, P))
  }

  lemma OneMoreChunk(src: Source, P: nat, id: i64, k: nat, a: Assembly)
    requires Sound(src) && P in src.sizes && src.name != [] && HasFirst(src, P, k, a) && k + 1 < Count(|src.content|, P)
    ensures Cut(src.content, id, P).DataPacket(k).Success?
    ensures var p := Cut(src.content, id, P).DataPacket(k).value;
      CutAt(src, P, p) && Ingest(a, p).outcome == Accepted && HasFirst(src, P, k + 1, Ingest(a, p).next)
  {
    hide IsSet, Count, CountMissing, SetBit, Belongs, Ingest, Useful, CutAt, Limits, ToldApart, ChunkBytes, FirstLen;
    SizeFacts(src, P);
    NextIsUseful(src, P, id, k, a);
    var n := Count(|src.content|, P);
    var p := Cut(src.content, id, P).DataPacket(k).value;
    UsefulPacket(src, P, a, p);
    ChunkEffect(src, P, a, p);
    SizedByChunk(src, P, a, p);
    var m' := Ingest(a, p).next.manifest.value;
    forall c | k + 1 <= c < n ensures !IsSet(m'.bitmap, c) { SetBitSetsOne(a.manifest.value.bitmap, k, c); }
  }

  lemma NextIsUseful(src: Source, P: nat, id: i64, k: nat, a: Assembly)
    requires Sound(src) && P in src.sizes && src.name != [] && HasFirst(src, P, k, a) && k + 1 < Count(|src.content|, P)
    ensures Cut(src.content, id, P).DataPacket(k).Success?
    ensures var p := Cut(src.content, id, P).DataPacket(k).value;
      p.chunkId == k && p.ptype.Data? && CutAt(src, P, p) && Useful(a, p)
  {
    hide IsSet, Count, CountMissing, Consistent, ChunkBytes;
    var p := Cut(src.content, id, P).DataPacket(k).value;
    PacketOfCut(src, P, p);
  }

  lemma SizedByChunk(src: Source, P: nat, a: Assembly, p: Packet)
    requires Sound(src) && P in src.sizes && Belongs(src, P, a) && CutAt(src, P, p) && a.manifest.Some?
    requires (p.ptype.Data? || p.ptype.Retransmit?) && Useful(a, p)
    ensures Ingest(a, p).next.manifest.Some?
      && Ingest(a, p).next.manifest.value.payloadSize == FirstLen(src.content, P)
  {
    hide IsSet, SetBit, Sidecar.Manifest.Complete, Written, Placed;
    BelongsAgrees(src, P, a);
    PacketOfCut(src, P, p);
    SizingAgrees(src, P, a, p);
  }

  lemma {:induction false} DeliverAppend(g: Ground, ps: seq<Packet>, p: Packet)
    ensures DeliverAll(g, ps + [p]) == Deliver(DeliverAll(g, ps), p)
    decreases |ps|
  {
    hide Deliver;
    if ps == [] {
      assert DeliverAll(Deliver(g, p), []) == Deliver(g, p);
    } else {
      assert (ps + [p])[1..] == ps[1..] + [p];
      DeliverAppend(Deliver(g, ps[0]), ps[1..], p);
    }
  }

  /** The name, then the first `k` chunks. */
  function Opening(src: Source, P: nat, id: i64, k: nat): seq<Packet>
    requires 0 < P < U32 && k <= Count(|src.content|, P) < U32
  {
    [Cut(src.content, id, P).ManifestPacket(src.name)] + FirstChunks(Cut(src.content, id, P), k)
  }

  lemma Unnamed(src: Source, P: nat, id: i64)
    requires Sound(src) && P in src.sizes && src.name != [] && Count(|src.content|, P) > 1
    ensures var g := DeliverAll(EMPTY_GROUND, Opening(src, P, id, 0));
      HasFirst(src, P, 0, g.At(id)) && g.finals == map[]
  {
    var n, p := Count(|src.content|, P), Cut(src.content, id, P).ManifestPacket(src.name);
    hide Count, CountMissing, BitmapLen;
    NamePacket(src, P, p);
    UsefulPacket(src, P, NOTHING, p);
    assert Opening(src, P, id, 0) == [p];
    DeliverAppend(EMPTY_GROUND, [], p);
    forall c | 0 <= c < n ensures !IsSet(Zeros(BitmapLen(n)), c) { FreshIsClear(BitmapLen(n), c); }
  }

  lemma {:induction false} OpeningRun(src: Source, P: nat, id: i64, k: nat)
    requires Sound(src) && P in src.sizes && src.name != [] && k < Count(|src.content|, P)
    requires Count(|src.content|, P) > 1
    ensures var g := DeliverAll(EMPTY_GROUND, Opening(src, P, id, k));
      HasFirst(src, P, k, g.At(id)) && g.finals == map[]
  {
    hide HasFirst, CutAt, Deliver, FirstChunks, DeliverAll, Count, Opening, Limits, ToldApart, ChunkBytes;
    SizeFacts(src, P);
    if k == 0 {
      Unnamed(src, P, id);
    } else {
      OpeningStep(src, P, id, k);
      OpeningRun(src, P, id, k - 1);
      var before := Opening(src, P, id, k - 1);
      var g := DeliverAll(EMPTY_GROUND, before);
      NextChunkHeld(src, P, id, k - 1, g);
      DeliverAppend(EMPTY_GROUND, before, Cut(src.content, id, P).DataPacket(k - 1).value);
    }
  }

  lemma {:induction false} OpeningIsCut(src: Source, P: nat, id: i64, k: nat)
    requires 0 < P < U32 && k <= Count(|src.content|, P) < U32
    ensures forall i :: 0 <= i < |Opening(src, P, id, k)| ==>
      Opening(src, P, id, k)[i].fileId == id && CutAt(src, P, Opening(src, P, id, k)[i])
  {
    if k > 0 {
      OpeningIsCut(src, P, id, k - 1);
      OpeningStep(src, P, id, k);
      DataPacketCut(src, P, id, k - 1);
      hide CutAt, Opening, Count;
    }
  }

  /** Delivering the next chunk adds it, and lands nothing while others are missing. */
  lemma NextChunkHeld(src: Source, P: nat, id: i64, k: nat, g: Ground)
    requires Sound(src) && P in src.sizes && src.name != [] && k + 1 < Count(|src.content|, P)
    requires HasFirst(src, P, k, g.At(id)) && g.finals == map[]
    ensures Cut(src.content, id, P).DataPacket(k).Success?
    ensures var p := Cut(src.content, id, P).DataPacket(k).value;
      p.fileId == id && CutAt(src, P, p) && HasFirst(src, P, k + 1, Deliver(g, p).At(id))
        && Deliver(g, p).finals == map[]
  {
    OneMoreChunk(src, P, id, k, g.At(id));
    hide HasFirst, CutAt, Ingest, Finalized, Count, Limits, ToldApart;
  }

  lemma OpeningStep(src: Source, P: nat, id: i64, k: nat)
    requires 0 < P < U32 && 0 < k <= Count(|src.content|, P) < U32
    ensures Opening(src, P, id, k) == Opening(src, P, id, k - 1) + [Cut(src.content, id, P).DataPacket(k - 1).value]
  {
  }

  lemma Differ(k: nat, P: nat, Q: nat)
    requires k > 0 && P != Q
    ensures k * P != k * Q
  {
  }

  /** The last chunk of another cut with the same count completes the file at a wrong length. */
  lemma WrongTail(src: Source, P: nat, Q: nat, id: i64, g: Ground)
    requires Sound(src) && P in src.sizes && src.name != [] && GroundPath(src.name) != [] && P != Q && 0 < Q < U32
    requires Count(|src.content|, P) == Count(|src.content|, Q) > 1
    requires HasFirst(src, P, Count(|src.content|, P) - 1, g.At(id)) && g.finals == map[]
    ensures var n := Count(|src.content|, P);
      Cut(src.content, id, Q).DataPacket(n - 1).Success?
      && Cut(src.content, id, Q).DataPacket(n - 1).value.fileId == id
      && !LandsWell(src, Deliver(g, Cut(src.content, id, Q).DataPacket(n - 1).value))
  {
    hide IsSet, Count, Placed, GroundPath, Limits, ToldApart, Deliver, Marked, Sidecar.Manifest.Complete, Belongs;
    hide ChunkBytes, Measure, FirstLen;
    SizeFacts(src, P);
    var n, m, d := Count(|src.content|, P), g.At(id).manifest.value, Contents(g.At(id).data);
    WrongLength(src, P, Q, id, d);
    var p := Cut(src.content, id, Q).DataPacket(n - 1).value;
    LastMissing(src, P, g.At(id), p);
    hide HasFirst;
    TailLands(g, p, m);
  }

  lemma SizeFacts(src: Source, P: nat)
    requires Limits(src) && P in src.sizes
    ensures 0 < P < U32 && 0 < Count(|src.content|, P) < U32
  {
    CountBounds(|src.content|, P);
    hide Count;
  }

  /** With one chunk missing, any last chunk with the right count completes the assembly. */
  lemma LastMissing(src: Source, P: nat, a: Assembly, p: Packet)
    requires Sound(src) && P in src.sizes && Count(|src.content|, P) > 1
    requires HasFirst(src, P, Count(|src.content|, P) - 1, a) && p.chunkId == Count(|src.content|, P) - 1
    ensures var m := a.manifest.value;
      m.name == src.name && m.numChunks == Count(|src.content|, P) && m.payloadSize == P
      && !IsSet(m.bitmap, p.chunkId) && Marked(m, p).Complete()
  {
    var n, m, d := Count(|src.content|, P), a.manifest.value, Contents(a.data);
    hide IsSet, Count, CountMissing, SetBit, Agrees;
    BelongsAgrees(src, P, a);
    AgreesSized(src, P, m, d);
    InBitmap(n, n - 1);
    SetBitCounts(m.bitmap, n, 0, n - 1);
    CompleteAtZero(Marked(m, p), n);
    FullFirst(src, P);
  }

  lemma FullFirst(src: Source, P: nat)
    requires Sound(src) && P in src.sizes && Count(|src.content|, P) > 1
    ensures FirstLen(src.content, P) == P
  {
    ChunkPlace(src.content, P, 0);
  }

  lemma WrongLength(src: Source, P: nat, Q: nat, id: i64, d: bytes)
    requires P > 0 && 0 < Q < U32 && P != Q && Count(|src.content|, P) == Count(|src.content|, Q) > 1
    requires Count(|src.content|, Q) < U32
    ensures var n := Count(|src.content|, Q); var r := Cut(src.content, id, Q).DataPacket(n - 1);
      r.Success? && r.value.IsLast() && r.value.chunkId == n - 1 && r.value.numChunks == n && r.value.ptype.Data?
      && |Placed(P, r.value, d)| != |src.content|
  {
    var n := Count(|src.content|, Q);
    ChunkPlace(src.content, Q, n - 1);
    Differ(n - 1, P, Q);
  }

  /** A last chunk that completes a named assembly is landed as the data file then stands. */
  lemma TailLands(g: Ground, p: Packet, m: Sidecar.Manifest)
    requires p.ptype.Data? && g.At(p.fileId).manifest == Some(m) && m.numChunks == p.numChunks && m.payloadSize != 0
    requires !IsSet(m.bitmap, p.chunkId) && Marked(m, p).Complete() && m.name != [] && GroundPath(m.name) != []
    ensures var finals := Deliver(g, p).finals;
      GroundPath(m.name) in finals && finals[GroundPath(m.name)]
        == Placed(m.payloadSize, p, Contents(g.At(p.fileId).data))
  {
    hide IsSet, SetBit, Placed, Written, GroundPath, IsComplete;
  }

  /**
   Mixed chunk sizes, exactly: every interleaving of the packets of all sizes lands the right
   bytes if and only if no two sizes give the same count of several chunks.
   */
  lemma LandsWellIffToldApart(src: Source, id: i64)
    requires Limits(src) && src.name != [] && GroundPath(src.name) != []
    ensures ToldApart(src) <==> forall ps :: FromFile(src, id, ps) ==> LandsWell(src, DeliverAll(EMPTY_GROUND, ps))
  {
    hide DeliverAll, LandsWell;
    if ToldApart(src) {
      forall ps | FromFile(src, id, ps) ensures LandsWell(src, DeliverAll(EMPTY_GROUND, ps)) {
        ToldApartLandsWell(src, id, EMPTY_GROUND, ps);
      }
    } else {
      var P, Q :| P in src.sizes && Q in src.sizes && P > 0 && Q > 0
        && Count(|src.content|, P) == Count(|src.content|, Q) && P != Q && Count(|src.content|, P) != 1;
      var ps := Confused(src, P, Q, id);
    }
  }

  lemma Confused(src: Source, P: nat, Q: nat, id: i64) returns (ps: seq<Packet>)
    requires Limits(src) && P in src.sizes && Q in src.sizes && src.name != [] && GroundPath(src.name) != []
    requires P != Q && P > 0 && Q > 0 && Count(|src.content|, P) == Count(|src.content|, Q) != 1
    ensures FromFile(src, id, ps) && !LandsWell(src, DeliverAll(EMPTY_GROUND, ps))
  {
    hide Limits, ToldApart, Sound, DeliverAll, HasFirst, GroundPath, Deliver, FirstChunks, Count, CutAt, Opening;
    hide FromFile;
    var n, one := Count(|src.content|, P), src.(sizes := {P});
    CountBounds(|src.content|, P);
    OneSizeSound(src, P);
    SizeFacts(src, Q);
    OpeningRun(one, P, id, n - 1);
    OpeningIsCut(one, P, id, n - 1);
    var opening := Opening(one, P, id, n - 1);
    WrongTail(one, P, Q, id, DeliverAll(EMPTY_GROUND, opening));
    var p := Cut(src.content, id, Q).DataPacket(n - 1).value;
    DeliverAppend(EMPTY_GROUND, opening, p);
    ps := opening + [p];
    DataPacketCut(src, Q, id, n - 1);
    OneMoreFromFile(src, one, P, Q, id, opening, p);
  }

  lemma OneSizeSound(src: Source, P: nat)
    requires Limits(src) && P in src.sizes
    ensures Sound(src.(sizes := {P})) && 0 < P < U32 && Count(|src.content|, P) < U32
  {
    hide Count;
  }

  lemma OneMoreFromFile(src: Source, one: Source, P: nat, Q: nat, id: i64, opening: seq<Packet>, p: Packet)
    requires Limits(src) && P in src.sizes && Q in src.sizes && P > 0 && Q > 0 && one == src.(sizes := {P})
    requires forall k :: 0 <= k < |opening| ==> opening[k].fileId == id && CutAt(one, P, opening[k])
    requires p.fileId == id && CutAt(src, Q, p)
    ensures FromFile(src, id, opening + [p])
  {
    hide CutAt;
    var ps := opening + [p];
    forall k | 0 <= k < |ps| ensures ps[k].fileId == id && exists R :: R in src.sizes && CutAt(src, R, ps[k]) {
      if k < |opening| { SameCutAt(src, one, P, ps[k]); }
    }
  }

  lemma DataPacketCut(src: Source, Q: nat, id: i64, c: u32)
    requires Q > 0 && Cut(src.content, id, Q).DataPacket(c).Success?
    ensures CutAt(src, Q, Cut(src.content, id, Q).DataPacket(c).value)
  {
  }

  lemma SameCutAt(src: Source, other: Source, P: nat, p: Packet)
    requires P > 0 && other.content == src.content && other.name == src.name
    ensures CutAt(src, P, p) <==> CutAt(other, P, p)
  {
  }
}
