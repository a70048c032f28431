/**
 A power cut inside `finalize` (reassembler.rs): the data file has been renamed to its landing place
 and the sidecar, which says that every chunk is there, has not been removed. The next chunk starts
 a data file of its own beside that sidecar, and the next name packet lands it over the good file.
 */
module HalfLanded {
  import opened Wrappers
  import opened Bytes
  import opened Bitmaps
  import opened Sidecar
  import opened Packets
  import opened Chunker
  import opened GroundPaths
  import opened Reassembly
  import opened Delivery
  import opened Recovery
  import opened Stranded

  /** The two files between the rename and the removal of the sidecar. */
  function HalfFinalized(g: Ground, id: i64): Ground {
    match g.At(id)
    case Assembly(Some(m), Some(d)) =>
      if m.Complete() && m.name != [] && GroundPath(m.name) != [] then
        Ground(g.assemblies[id := Assembly(Some(m), None)], g.finals[GroundPath(m.name) := d])
      else g
    case _ => g
  }

  /** A sidecar with the name, the count and every bit of the cut at `P`. */
  ghost predicate Full(src: Source, P: nat, m: Sidecar.Manifest)
    requires Sound(src) && P in src.sizes
  {
    && m.Sized() && m.numChunks == Count(|src.content|, P) && m.name == src.name && m.Complete()
    && (m.payloadSize == FirstLen(src.content, P) || (m.payloadSize == 0 && m.numChunks == 1))
    && forall c :: 0 <= c < m.numChunks ==> IsSet(m.bitmap, c)
  }

  ghost predicate IsHalfLanded(src: Source, P: nat, id: i64, g: Ground)
    requires Sound(src) && P in src.sizes
  {
    && g.At(id).manifest.Some? && g.At(id).data.None? && Full(src, P, g.At(id).manifest.value)
    && GroundPath(src.name) in g.finals && g.finals[GroundPath(src.name)] == src.content
  }

  /** Such a cut after any completing packet leaves this, with the file itself in its place. */
  lemma CutHalfLands(src: Source, P: nat, g: Ground, p: Packet)
    requires Sound(src) && P in src.sizes && src.name != [] && GroundPath(src.name) != []
    requires Consistent(src, g.At(p.fileId)) && CutAt(src, P, p) && Ingest(g.At(p.fileId), p).outcome == Complete
    ensures var g1 := g.(assemblies := g.assemblies[p.fileId := Ingest(g.At(p.fileId), p).next]);
      Deliver(g, p) == Finalized(g1, p.fileId) && IsHalfLanded(src, P, p.fileId, HalfFinalized(g1, p.fileId))
  {
    hide Count, CutAt, Ingest, Sound, Agrees, Consistent, Belongs, Measure, GroundPath, Sidecar.Manifest.Complete;
    hide IsSet, FirstLen;
    PowerCutStrands(src, P, g, p);
    var a := Ingest(g.At(p.fileId), p).next;
    StrandedFacts(src, P, a);
    FullSize(src, P, a.manifest.value, src.content);
  }

  lemma FullSize(src: Source, P: nat, m: Sidecar.Manifest, d: bytes)
    requires Sound(src) && P in src.sizes && Agrees(src, P, m, d)
    requires forall c :: 0 <= c < m.numChunks ==> IsSet(m.bitmap, c)
    ensures m.Sized() && (m.payloadSize == FirstLen(src.content, P) || (m.payloadSize == 0 && m.numChunks == 1))
  {
    hide IsSet, Held;
    CountBounds(|src.content|, P);
    assert IsSet(m.bitmap, 0);
  }

  // ---- what late chunks lay down ----

  /** Byte `k` belongs to one of these chunks. */
  ghost predicate Covered(content: bytes, P: nat, cs: set<nat>, k: nat) {
    exists c :: c in cs && ChunkStart(P, c) <= k < ChunkStart(P, c) + |ChunkBytes(content, P, c)|
  }

  /** The data file holds these chunks of the file, and zeros where there is none of them. */
  ghost predicate Laid(content: bytes, P: nat, cs: set<nat>, d: bytes)
    requires P > 0
  {
    && |d| <= |content|
    && (forall k :: 0 <= k < |d| ==> d[k] == if Covered(content, P, cs, k) then content[k] else 0)
    && (forall c :: c in cs ==> c < Count(|content|, P) && ChunkStart(P, c) + |ChunkBytes(content, P, c)| <= |d|)
    && (d == [] || exists c :: c in cs && ChunkStart(P, c) + |ChunkBytes(content, P, c)| == |d|)
  }

  lemma LaidMore(content: bytes, P: nat, cs: set<nat>, d: bytes, c: nat)
    requires P > 0 && c < Count(|content|, P) && Laid(content, P, cs, d)
    ensures var at, s := ChunkStart(P, c), ChunkBytes(content, P, c);
      Laid(content, P, cs + {c}, WriteAt(Grow(d, at + |s|), at, s))
  {
    ChunkPlace(content, P, c);
    var at, s := ChunkStart(P, c), ChunkBytes(content, P, c);
    hide Count, ChunkBytes, ChunkStart;
    var w := WriteAt(Grow(d, at + |s|), at, s);
    assert |w| == if |d| < at + |s| then at + |s| else |d|;
    forall k | 0 <= k < |w| ensures w[k] == if Covered(content, P, cs + {c}, k) then content[k] else 0 {
      ByteLaid(content, P, cs, d, c, k);
    }
    hide Covered, WriteAt, Grow;
    assert c in cs + {c};
  }

  lemma ByteLaid(content: bytes, P: nat, cs: set<nat>, d: bytes, c: nat, k: nat)
    requires P > 0 && c < Count(|content|, P) && Laid(content, P, cs, d)
    requires var at, s := ChunkStart(P, c), ChunkBytes(content, P, c);
      k < |WriteAt(Grow(d, at + |s|), at, s)| && k < |content|
    ensures var at, s := ChunkStart(P, c), ChunkBytes(content, P, c);
      WriteAt(Grow(d, at + |s|), at, s)[k] == if Covered(content, P, cs + {c}, k) then content[k] else 0
  {
    ChunkPlace(content, P, c);
    hide Count, ChunkBytes, ChunkStart;
    var at, s := ChunkStart(P, c), ChunkBytes(content, P, c);
    CoveredMore(content, P, cs, c, k);
    if at <= k < at + |s| {
      assert s[k - at] == content[at..at + |s|][k - at];
    } else if k >= |d| {
      assert !Covered(content, P, cs, k);
      GrownZero(d, at + |s|, k);
    }
  }

  lemma GrownZero(d: bytes, n: nat, k: nat)
    requires |d| <= k < n
    ensures Grow(d, n)[k] == 0
  {
  }

  lemma CoveredMore(content: bytes, P: nat, cs: set<nat>, c: nat, k: nat)
    ensures Covered(content, P, cs + {c}, k)
      <==> Covered(content, P, cs, k) || ChunkStart(P, c) <= k < ChunkStart(P, c) + |ChunkBytes(content, P, c)|
  {
    hide ChunkStart, ChunkBytes;
  }

  predicate AllZero(s: bytes) {
    forall k :: 0 <= k < |s| ==> s[k] == 0
  }

  /** The last chunk is among these, and every chunk that is not is all zeros. */
  ghost predicate Suffices(content: bytes, P: nat, cs: set<nat>)
    requires P > 0
  {
    Count(|content|, P) - 1 in cs
    && forall c: nat :: c < Count(|content|, P) && c !in cs ==> AllZero(ChunkBytes(content, P, c))
  }

  /** What some chunks lay down is the file exactly under that condition. */
  lemma LaidIsContent(content: bytes, P: nat, cs: set<nat>, d: bytes)
    requires P > 0 && cs != {} && Laid(content, P, cs, d)
    ensures d == content <==> Suffices(content, P, cs)
  {
    hide Count, ChunkBytes, ChunkStart, Covered;
    if Suffices(content, P, cs) {
      SufficesLays(content, P, cs, d);
    }
    if d == content {
      LaidSuffices(content, P, cs);
    }
  }

  lemma SufficesLays(content: bytes, P: nat, cs: set<nat>, d: bytes)
    requires P > 0 && Laid(content, P, cs, d) && Suffices(content, P, cs)
    ensures d == content
  {
    hide Count, ChunkBytes, ChunkStart, Covered;
    CountBounds(|content|, P);
    ChunkPlace(content, P, Count(|content|, P) - 1);
    forall k | 0 <= k < |d| ensures d[k] == content[k] {
      var c := ByteInChunk(content, P, k);
      if c in cs {
        CoveredBy(content, P, cs, c, k);
      } else {
        ZeroByte(content, P, c, k);
      }
    }
  }

  lemma CoveredBy(content: bytes, P: nat, cs: set<nat>, c: nat, k: nat)
    requires c in cs && ChunkStart(P, c) <= k < ChunkStart(P, c) + |ChunkBytes(content, P, c)|
    ensures Covered(content, P, cs, k)
  {
  }

  lemma ZeroByte(content: bytes, P: nat, c: nat, k: nat)
    requires P > 0 && c < Count(|content|, P) && AllZero(ChunkBytes(content, P, c))
    requires ChunkStart(P, c) <= k < ChunkStart(P, c) + |ChunkBytes(content, P, c)|
    ensures k < |content| && content[k] == 0
  {
    ChunkPlace(content, P, c);
    hide ChunkBytes, ChunkStart;
    var at, s := ChunkStart(P, c), ChunkBytes(content, P, c);
    assert s[k - at] == content[at..at + |s|][k - at];
  }

  lemma LaidSuffices(content: bytes, P: nat, cs: set<nat>)
    requires P > 0 && cs != {} && Laid(content, P, cs, content)
    ensures Suffices(content, P, cs)
  {
    hide Count, ChunkBytes, ChunkStart, Covered;
    var n := Count(|content|, P);
    CountBounds(|content|, P);
    if content == [] {
      var c :| c in cs;
    } else {
      var c :| c in cs && ChunkStart(P, c) + |ChunkBytes(content, P, c)| == |content|;
      OnlyLastReaches(content, P, c);
    }
    forall c: nat | c < n && c !in cs ensures AllZero(ChunkBytes(content, P, c)) {
      UncoveredZero(content, P, cs, c);
    }
  }

  lemma OnlyLastReaches(content: bytes, P: nat, c: nat)
    requires P > 0 && content != [] && c < Count(|content|, P)
    requires ChunkStart(P, c) + |ChunkBytes(content, P, c)| == |content|
    ensures c == Count(|content|, P) - 1
  {
    hide Count, ChunkBytes, ChunkStart;
    var n := Count(|content|, P);
    CountBounds(|content|, P);
    ChunkPlace(content, P, c);
    if c < n - 1 { MulMonotone(P, c, n - 1); }
  }

  lemma UncoveredZero(content: bytes, P: nat, cs: set<nat>, c: nat)
    requires P > 0 && Laid(content, P, cs, content) && c < Count(|content|, P) && c !in cs
    ensures AllZero(ChunkBytes(content, P, c))
  {
    hide Count, ChunkBytes, ChunkStart;
    ChunkPlace(content, P, c);
    var at, s := ChunkStart(P, c), ChunkBytes(content, P, c);
    forall k | 0 <= k < |s| ensures s[k] == 0 {
      assert s[k] == content[at..at + |s|][k] == content[at + k];
      if Covered(content, P, cs, at + k) {
        var e :| e in cs && ChunkStart(P, e) <= at + k < ChunkStart(P, e) + |ChunkBytes(content, P, e)|;
        ApartChunks(content, P, c, e, at + k);
      }
    }
  }

  lemma ApartChunks(content: bytes, P: nat, c: nat, e: nat, k: nat)
    requires P > 0 && ChunkStart(P, c) <= k < ChunkStart(P, c) + |ChunkBytes(content, P, c)|
    requires ChunkStart(P, e) <= k < ChunkStart(P, e) + |ChunkBytes(content, P, e)|
    ensures c == e
  {
    ChunkAtMost(content, P, c);
    ChunkAtMost(content, P, e);
    if c < e { MulMonotone(P, c, e); }
    if e < c { MulMonotone(P, e, c); }
  }

  // ---- late packets of a half landed file ----

  /** These chunks have come since the cut, and nothing has landed. */
  ghost predicate Refilling(src: Source, P: nat, a: Assembly, cs: set<nat>)
    requires Sound(src) && P in src.sizes
  {
    && a.manifest.Some? && Full(src, P, a.manifest.value) && (a.data.None? <==> cs == {})
    && (cs != {} ==> Laid(src.content, P, cs, a.data.value))
  }

  /** A chunk with its bit set is written all the same. */
  lemma FullTakes(src: Source, P: nat, a: Assembly, p: Packet)
    requires Sound(src) && P in src.sizes && CutAt(src, P, p) && !IsName(p)
    requires a.manifest.Some? && Full(src, P, a.manifest.value) && |Contents(a.data)| <= |src.content|
    ensures p.chunkId < Count(|src.content|, P)
    ensures var st, at := Ingest(a, p), ChunkStart(P, p.chunkId);
      && st.outcome == Duplicate && st.next.manifest.Some? && Full(src, P, st.next.manifest.value)
      && st.next.data == Some(WriteAt(Grow(Contents(a.data), at + |p.payload|), at, p.payload))
      && p.payload == ChunkBytes(src.content, P, p.chunkId)
  {
    hide Count, ChunkBytes, ChunkStart, CutAt, Sound, IsSet, Offset, WriteAt, Grow, Sidecar.Manifest.Complete;
    PacketOfCut(src, P, p);
    var m := Sizing(a.manifest, p);
    SizedFull(src, P, a.manifest.value, p);
    assert m.payloadSize == FirstLen(src.content, P);
    PlacedChunk(src, P, m, Contents(a.data), p);
    RightOffset(src, P, m.payloadSize, p.chunkId);
  }

  lemma SizedFull(src: Source, P: nat, m: Sidecar.Manifest, p: Packet)
    requires Sound(src) && P in src.sizes && CutAt(src, P, p) && !IsName(p) && Full(src, P, m)
    ensures Writes(Some(m), p)
    ensures Sizing(Some(m), p).payloadSize == FirstLen(src.content, P) && Full(src, P, Sizing(Some(m), p))
  {
    hide IsSet, ToldApart, CutAt, IsComplete, ChunkBytes, Count;
    PacketOfCut(src, P, p);
    ChunkAtMost(src.content, P, 0);
    CountBounds(|src.content|, P);
    ChunkPlace(src.content, P, 0);
    if m.payloadSize == 0 { assert m.numChunks == 1 && p.chunkId == 0; }
  }

  lemma ChunkLays(src: Source, P: nat, g: Ground, cs: set<nat>, p: Packet)
    requires Sound(src) && P in src.sizes && CutAt(src, P, p) && !IsName(p)
    requires Refilling(src, P, g.At(p.fileId), cs)
    ensures Refilling(src, P, Deliver(g, p).At(p.fileId), cs + {p.chunkId}) && Deliver(g, p).finals == g.finals
  {
    hide Count, ChunkBytes, ChunkStart, CutAt, Ingest, Sound, Full, WriteAt, Grow, Covered;
    PositiveSizes(src);
    var a := g.At(p.fileId);
    var d := Contents(a.data);
    if cs == {} { NothingLaid(src.content, P); }
    assert Laid(src.content, P, cs, d);
    FullTakes(src, P, a, p);
    LaidMore(src.content, P, cs, d, p.chunkId);
    assert p.chunkId in cs + {p.chunkId};
  }

  lemma NothingLaid(content: bytes, P: nat)
    requires P > 0
    ensures Laid(content, P, {}, [])
  {
  }

  /** A name packet finds the sidecar complete, and lands whatever data there is. */
  lemma NameLandsLaid(src: Source, P: nat, g: Ground, cs: set<nat>, p: Packet)
    requires Sound(src) && P in src.sizes && CutAt(src, P, p) && IsName(p)
    requires src.name != [] && GroundPath(src.name) != [] && Refilling(src, P, g.At(p.fileId), cs)
    ensures var a, g' := g.At(p.fileId), Deliver(g, p);
      if cs == {} then g'.finals == g.finals && g'.At(p.fileId) == a
      else g'.finals == g.finals[GroundPath(src.name) := a.data.value] && g'.At(p.fileId) == NOTHING
  {
    hide Count, ChunkBytes, CutAt, Sound, IsSet, Sidecar.Manifest.Complete, GroundPath, Laid, FirstLen;
    PacketOfCut(src, P, p);
  }

  ghost predicate NoNames(ps: seq<Packet>) {
    forall k :: 0 <= k < |ps| ==> !IsName(ps[k])
  }

  function Ids(ps: seq<Packet>): set<nat> {
    set p | p in ps :: p.chunkId
  }

  lemma {:induction false} LateChunksLay(src: Source, P: nat, id: i64, g: Ground, cs: set<nat>, ps: seq<Packet>)
    requires Sound(src) && P in src.sizes && OfFile(src, P, id, ps) && NoNames(ps)
    requires Refilling(src, P, g.At(id), cs)
    ensures Refilling(src, P, DeliverAll(g, ps).At(id), cs + Ids(ps)) && DeliverAll(g, ps).finals == g.finals
    decreases |ps|
  {
    hide Refilling, Deliver, CutAt, Sound, IsName, Ids;
    if ps == [] {
      IdsFirst(cs, ps);
    } else {
      PositiveSizes(src);
      ChunkLays(src, P, g, cs, ps[0]);
      LateChunksLay(src, P, id, Deliver(g, ps[0]), cs + {ps[0].chunkId}, ps[1..]);
      IdsFirst(cs, ps);
    }
  }

  lemma IdsFirst(cs: set<nat>, ps: seq<Packet>)
    ensures ps == [] ==> cs + Ids(ps) == cs
    ensures ps != [] ==> cs + {ps[0].chunkId} + Ids(ps[1..]) == cs + Ids(ps)
  {
    if ps != [] {
      assert ps == [ps[0]] + ps[1..];
    }
  }

  /**
   From a half landed file, over every run of its chunks and then its name: the file is still whole at
   its landing place if and only if no chunk came before the name, or the last one did and every chunk
   that did not come is all zeros.
   */
  lemma HalfLandedStaysIff(src: Source, P: nat, id: i64, g: Ground, ps: seq<Packet>, p: Packet)
    requires Sound(src) && P in src.sizes && src.name != [] && GroundPath(src.name) != []
    requires IsHalfLanded(src, P, id, g) && OfFile(src, P, id, ps) && NoNames(ps)
    requires CutAt(src, P, p) && p.fileId == id && IsName(p)
    ensures var g', path := Deliver(DeliverAll(g, ps), p), GroundPath(src.name);
      path in g'.finals && (g'.finals[path] == src.content <==> ps == [] || Suffices(src.content, P, Ids(ps)))
  {
    hide CutAt, Sound, Full, Deliver, DeliverAll, GroundPath, Laid, Suffices;
    PositiveSizes(src);
    LateChunksLay(src, P, id, g, {}, ps);
    assert {} + Ids(ps) == Ids(ps);
    NameLandsLaid(src, P, DeliverAll(g, ps), Ids(ps), p);
    if ps != [] {
      assert ps[0].chunkId in Ids(ps);
      LaidIsContent(src.content, P, Ids(ps), DeliverAll(g, ps).At(id).data.value);
    }
  }

  /** So every file of more than one chunk can be spoiled after it has landed whole. */
  lemma AnyFileMaySpoil(src: Source, P: nat, id: i64) returns (ps: seq<Packet>, last: Packet, late: seq<Packet>)
    requires Sound(src) && P in src.sizes && src.name != [] && GroundPath(src.name) != []
    requires Count(|src.content|, P) > 1
    ensures OfFile(src, P, id, ps + [last] + late)
    ensures var g := DeliverAll(EMPTY_GROUND, ps);
      var g1 := g.(assemblies := g.assemblies[id := Ingest(g.At(id), last).next]);
      var cut := HalfFinalized(g1, id);
      && Deliver(g, last) == Finalized(g1, id) && IsHalfLanded(src, P, id, cut)
      && GroundPath(src.name) in DeliverAll(cut, late).finals
      && DeliverAll(cut, late).finals[GroundPath(src.name)] != src.content
  {
    hide Count, CutAt, Ingest, Deliver, Consistent, GroundPath, IsHalfLanded, Finalized, HalfFinalized, DeliverAll;
    hide IsStranded, Possible;
    ps, last := AnyFileMayStrand(src, P, id);
    var g := DeliverAll(EMPTY_GROUND, ps);
    assert last.fileId == id && CutAt(src, P, last) by { assert (ps + [last])[|ps|] == last; }
    CutHalfLands(src, P, g, last);
    var g1 := g.(assemblies := g.assemblies[id := Ingest(g.At(id), last).next]);
    var cut := HalfFinalized(g1, id);
    var first, name := FirstAgain(src, P, id);
    HalfLandedStaysIff(src, P, id, cut, [first], name);
    assert Ids([first]) == {0};
    assert !Suffices(src.content, P, {0});
    late := [first, name];
    TwoDelivered(cut, first, name);
    forall k | 0 <= k < |ps + [last] + late|
      ensures (ps + [last] + late)[k].fileId == id && CutAt(src, P, (ps + [last] + late)[k])
    {
      if k <= |ps| { assert (ps + [last] + late)[k] == (ps + [last])[k]; }
    }
  }

  lemma FirstAgain(src: Source, P: nat, id: i64) returns (first: Packet, name: Packet)
    requires Sound(src) && P in src.sizes && Count(|src.content|, P) > 1
    ensures first.fileId == name.fileId == id && CutAt(src, P, first) && CutAt(src, P, name)
    ensures !IsName(first) && first.chunkId == 0 && IsName(name)
  {
    hide Count, ChunkBytes;
    first, name := Cut(src.content, id, P).RetransmitPacket(0).value, Cut(src.content, id, P).ManifestPacket(src.name);
  }

  lemma TwoDelivered(g: Ground, p: Packet, q: Packet)
    ensures DeliverAll(g, [p, q]) == Deliver(DeliverAll(g, [p]), q)
  {
    hide Deliver;
    assert [p, q][1..] == [q] && [q][1..] == [] && [p][1..] == [];
    assert DeliverAll(g, [p, q]) == DeliverAll(DeliverAll(Deliver(g, p), [q]), []);
    assert DeliverAll(g, [p]) == DeliverAll(Deliver(g, p), []);
  }
}
