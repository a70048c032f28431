/**
 Two states from which recovery does not go on by itself: an assembly that is complete when the
 power fails before it is landed, and one begun at a chunk count the sender no longer uses.
 */
module Stranded {
  import opened Wrappers
  import opened Bytes
  import opened Bitmaps
  import opened Sidecar
  import opened Packets
  import opened Chunker
  import opened GroundPaths
  import opened Reassembly
  import opened Delivery
  import opened Recovery

  /** Every chunk and the name are there, and the file has not landed. */
  ghost predicate IsStranded(src: Source, P: nat, a: Assembly)
    requires Sound(src) && P in src.sizes
  {
    Belongs(src, P, a) && a.manifest.Some? && Measure(Count(|src.content|, P), a) == 0
  }

  predicate IsName(p: Packet) {
    p.ptype.Manifest? || p.ptype.NameOnly?
  }

  /** Losing power right after the last durable step of a completing packet is possible, and strands the file. */
  lemma PowerCutStrands(src: Source, P: nat, g: Ground, p: Packet)
    requires Sound(src) && P in src.sizes && Consistent(src, g.At(p.fileId)) && CutAt(src, P, p)
    requires Ingest(g.At(p.fileId), p).outcome == Complete
    ensures var cut := PowerCut(p, Ingest(g.At(p.fileId), p).next);
      Possible(g, cut) && IsStranded(src, P, After(g, cut).At(p.fileId)) && After(g, cut).finals == g.finals
  {
    hide IsSet, Count, CountMissing, Sidecar.Manifest.Complete, Agrees, CutAt, Consistent, IngestChunk, IngestManifest;
    var a := g.At(p.fileId);
    var st := Ingest(a, p);
    PacketOfCut(src, P, p);
    IngestConsistent(src, P, a, p);
    CompleteAnswer(a, p);
    CompleteCount(a, p);
    NextReachable(a, p);
    var m := st.next.manifest.value;
    SizedIfConsistent(src, st.next);
    CompleteAtZero(m, Count(|src.content|, P));
  }

  lemma SizedIfConsistent(src: Source, a: Assembly)
    requires Sound(src) && Consistent(src, a) && a.manifest.Some?
    ensures a.manifest.value.Sized() && Countable(a.manifest.value.numChunks)
  {
    hide Held, IsSet;
  }

  lemma CompleteCount(a: Assembly, p: Packet)
    requires Ingest(a, p).outcome == Complete
    ensures Ingest(a, p).next.manifest.Some? && Ingest(a, p).next.manifest.value.numChunks == p.numChunks
  {
    hide IsSet, Written, Placed, Sidecar.Manifest.Complete, SetBit;
  }

  /** What a packet leaves is a state the power may be cut in. */
  lemma NextReachable(a: Assembly, p: Packet)
    ensures Ingest(a, p).next in [a] + Ingest(a, p).trail
  {
    hide StoreChunk, IngestChunk, IngestManifest;
    if IsName(p) {
      NameReachable(a, p);
    } else if !p.ptype.Heartbeat? {
      ChunkReachable(a, p);
    }
  }

  lemma ChunkReachable(a: Assembly, p: Packet)
    ensures IngestChunk(a, p).next in [a] + IngestChunk(a, p).trail
  {
    hide StoreChunk, Writes, Sizing;
    if Writes(a.manifest, p) {
      WritesSizes(a, p);
      var st, whole := StoreChunk(Sizing(a.manifest, p), a.data, p), IngestChunk(a, p);
      StoredDurable(Sizing(a.manifest, p), a.data, p);
      assert whole.trail[|whole.trail| - |st.trail|..] == st.trail;
      assert st.next in whole.trail[|whole.trail| - |st.trail|..];
    }
  }

  lemma WritesSizes(a: Assembly, p: Packet)
    requires Writes(a.manifest, p)
    ensures a.manifest.Some? || !Tail(p)
  {
  }

  lemma StoredDurable(m: Sidecar.Manifest, data: Option<bytes>, p: Packet)
    ensures StoreChunk(m, data, p).next in StoreChunk(m, data, p).trail
  {
    hide IsSet, Written, Placed, Marked;
    var st := StoreChunk(m, data, p);
    assert st.trail[|st.trail| - 1] == st.next;
  }

  lemma NameReachable(a: Assembly, p: Packet)
    ensures IngestManifest(a, p).next in [a] + IngestManifest(a, p).trail
  {
    hide Sidecar.Manifest.Complete, Zeros, BitmapLen;
    var st := IngestManifest(a, p);
    var trail := [a] + st.trail;
    assert trail[|trail| - 1] == st.next;
  }

  /** So any file may be stranded: send all of it but its last packet, and cut the power during that one. */
  lemma AnyFileMayStrand(src: Source, P: nat, id: i64) returns (ps: seq<Packet>, last: Packet)
    requires Sound(src) && P in src.sizes && src.name != []
    ensures OfFile(src, P, id, ps + [last])
    ensures var g := DeliverAll(EMPTY_GROUND, ps); var left := Ingest(g.At(id), last).next;
      Consistent(src, g.At(id)) && Ingest(g.At(id), last).outcome == Complete
      && Possible(g, PowerCut(last, left)) && IsStranded(src, P, After(g, PowerCut(last, left)).At(id))
      && After(g, PowerCut(last, left)).finals == map[]
  {
    hide Count, CutAt, CompletesAtLast, AllChunkIds, IsStranded, Possible, Ingest, Round;
    var ranges := Wanted(Count(|src.content|, P), NOTHING);
    RoundCompletes(src, P, id, NOTHING, ranges);
    var all := Round(src, P, id, NOTHING, AllChunkIds(ranges));
    RoundIsCut(src, P, id, NOTHING, AllChunkIds(ranges));
    ps, last := UpToLast(src, P, id, EMPTY_GROUND, all);
    PowerCutStrands(src, P, DeliverAll(EMPTY_GROUND, ps), last);
  }

  lemma {:induction false} UpToLast(src: Source, P: nat, id: i64, g: Ground, all: seq<Packet>)
    returns (ps: seq<Packet>, last: Packet)
    requires Sound(src) && P in src.sizes && OfFile(src, P, id, all) && Consistent(src, g.At(id))
    requires CompletesAtLast(g.At(id), all)
    ensures ps + [last] == all && last.fileId == id && CutAt(src, P, last)
    ensures var g' := DeliverAll(g, ps);
      Consistent(src, g'.At(id)) && Ingest(g'.At(id), last).outcome == Complete && g'.finals == g.finals
    decreases |all|
  {
    hide CutAt, Consistent, Ingest, Finalized, Sound;
    if |all| == 1 {
      ps, last := [], all[0];
    } else {
      IngestConsistent(src, P, g.At(id), all[0]);
      var rest;
      rest, last := UpToLast(src, P, id, Deliver(g, all[0]), all[1..]);
      ps := [all[0]] + rest;
      assert ps[1..] == rest;
    }
  }

  // ---- only the name lands it ----

  lemma StrandedFacts(src: Source, P: nat, a: Assembly)
    requires Sound(src) && P in src.sizes && src.name != [] && IsStranded(src, P, a)
    ensures var m := a.manifest.value;
      m.numChunks == Count(|src.content|, P) && m.name == src.name && m.Complete()
      && a.data == Some(src.content) && (forall c :: 0 <= c < m.numChunks ==> IsSet(m.bitmap, c))
      && Agrees(src, P, m, src.content)
  {
    hide IsSet, CountMissing, Sidecar.Manifest.Complete, Count, Agrees, NoneSet;
    var m, d := a.manifest.value, Contents(a.data);
    BelongsAgrees(src, P, a);
    AgreesSized(src, P, m, d);
    AgreesNamed(src, P, m, d);
    CompleteAtZero(m, m.numChunks);
    BitmapAgreement(m.bitmap, m.numChunks);
    CompleteIsContent(src, P, m, d);
    HasData(src, P, a);
  }

  lemma HasData(src: Source, P: nat, a: Assembly)
    requires Sound(src) && P in src.sizes && Consistent(src, a) && a.manifest.Some?
    requires a.manifest.value.numChunks == Count(|src.content|, P)
    requires forall c :: 0 <= c < a.manifest.value.numChunks ==> IsSet(a.manifest.value.bitmap, c)
    ensures a.data.Some?
  {
    hide IsSet, Agrees;
    CountBounds(|src.content|, P);
    assert IsSet(a.manifest.value.bitmap, 0);
  }

  /** What a chunk does to a sidecar with every bit set. */
  lemma FullSidecarKept(a: Assembly, p: Packet)
    requires a.manifest.Some? && p.chunkId < p.numChunks
    requires forall c :: 0 <= c < a.manifest.value.numChunks ==> IsSet(a.manifest.value.bitmap, c)
    ensures var st := IngestChunk(a, p);
      && (st.outcome == Duplicate || st.outcome == Mismatched) && st.next.manifest.Some?
      && var m, m' := a.manifest.value, st.next.manifest.value;
         m'.bitmap == m.bitmap && m'.name == m.name && m'.numChunks == m.numChunks
  {
    hide IsSet, Written, Placed, Marked, Sidecar.Manifest.Complete;
  }

  /** A chunk of any cut of the file finds its bit set or its count wrong, and the file stays stranded. */
  lemma ChunkCannotLand(src: Source, P: nat, Q: nat, a: Assembly, p: Packet)
    requires Sound(src) && P in src.sizes && Q in src.sizes && src.name != [] && IsStranded(src, P, a)
    requires CutAt(src, Q, p) && !IsName(p)
    ensures Ingest(a, p).outcome == Duplicate || Ingest(a, p).outcome == Mismatched
    ensures IsStranded(src, P, Ingest(a, p).next)
  {
    hide IsSet, CountMissing, Count, Agrees, Sidecar.Manifest.Complete, Consistent, CutAt, Sound, IngestChunk;
    StrandedFacts(src, P, a);
    PacketOfCut(src, Q, p);
    IngestConsistent(src, Q, a, p);
    FullSidecarKept(a, p);
  }

  /** A name packet with the right count lands it; any other is turned away. */
  lemma NameLands(src: Source, P: nat, Q: nat, g: Ground, p: Packet)
    requires Sound(src) && P in src.sizes && Q in src.sizes && src.name != [] && GroundPath(src.name) != []
    requires IsStranded(src, P, g.At(p.fileId)) && CutAt(src, Q, p) && IsName(p)
    ensures p.numChunks == Count(|src.content|, P) ==>
      Ingest(g.At(p.fileId), p).outcome == Complete
      && Deliver(g, p).finals == g.finals[GroundPath(src.name) := src.content] && Deliver(g, p).At(p.fileId) == NOTHING
    ensures p.numChunks != Count(|src.content|, P) ==>
      Deliver(g, p).finals == g.finals && Deliver(g, p).At(p.fileId) == g.At(p.fileId)
  {
    hide IsSet, CountMissing, Count, Agrees, Sidecar.Manifest.Complete, Consistent, CutAt, Sound, GroundPath;
    StrandedFacts(src, P, g.At(p.fileId));
    PacketOfCut(src, Q, p);
  }

  lemma ChunkLandsNothing(src: Source, P: nat, Q: nat, g: Ground, p: Packet)
    requires Sound(src) && P in src.sizes && Q in src.sizes && src.name != []
    requires IsStranded(src, P, g.At(p.fileId)) && CutAt(src, Q, p) && !IsName(p)
    ensures Deliver(g, p).finals == g.finals && IsStranded(src, P, Deliver(g, p).At(p.fileId))
  {
    hide IsStranded, CutAt, Ingest, Sound;
    ChunkCannotLand(src, P, Q, g.At(p.fileId), p);
  }

  /** Landed files stay. */
  lemma {:induction false} FinalsStay(g: Ground, ps: seq<Packet>, path: Path)
    requires path in g.finals
    ensures path in DeliverAll(g, ps).finals
    decreases |ps|
  {
    if ps != [] {
      FinalsKept(g, ps[0], path);
      hide Deliver;
      FinalsStay(Deliver(g, ps[0]), ps[1..], path);
    }
  }

  lemma FinalsKept(g: Ground, p: Packet, path: Path)
    requires path in g.finals
    ensures path in Deliver(g, p).finals
  {
    hide Ingest, GroundPath, Sidecar.Manifest.Complete;
  }

  ghost predicate HasItsName(n: nat, ps: seq<Packet>) {
    exists k :: 0 <= k < |ps| && IsName(ps[k]) && ps[k].numChunks == n
  }

  /**
   A stranded file lands if and only if its name comes again: over every run of its packets, cut
   at any of its sizes, no chunk ever brings it down.
   */
  lemma {:induction false} StrandedLandsIffNamed(src: Source, P: nat, id: i64, g: Ground, ps: seq<Packet>)
    requires Sound(src) && P in src.sizes && src.name != [] && GroundPath(src.name) != []
    requires IsStranded(src, P, g.At(id)) && FromFile(src, id, ps) && GroundPath(src.name) !in g.finals
    ensures GroundPath(src.name) in DeliverAll(g, ps).finals <==> HasItsName(Count(|src.content|, P), ps)
    decreases |ps|
  {
    assert P > 0 && forall Q :: Q in src.sizes ==> Q > 0;
    hide IsStranded, CutAt, Deliver, Sound, GroundPath, Count;
    if ps != [] {
      var p, n := ps[0], Count(|src.content|, P);
      var Q :| Q in src.sizes && CutAt(src, Q, p);
      assert FromFile(src, id, ps[1..]);
      NameFirst(n, ps);
      if IsName(p) {
        NameLands(src, P, Q, g, p);
        if p.numChunks == n {
          FinalsStay(Deliver(g, p), ps[1..], GroundPath(src.name));
        } else {
          StrandedLandsIffNamed(src, P, id, Deliver(g, p), ps[1..]);
        }
      } else {
        ChunkLandsNothing(src, P, Q, g, p);
        StrandedLandsIffNamed(src, P, id, Deliver(g, p), ps[1..]);
      }
    }
  }

  lemma NameFirst(n: nat, ps: seq<Packet>)
    requires ps != []
    ensures HasItsName(n, ps) <==> (IsName(ps[0]) && ps[0].numChunks == n) || HasItsName(n, ps[1..])
  {
    if HasItsName(n, ps[1..]) {
      var k :| 0 <= k < |ps[1..]| && IsName(ps[1..][k]) && ps[1..][k].numChunks == n;
      assert IsName(ps[k + 1]);
    }
  }

  // ---- an assembly begun at another count ----

  /** No packet of a cut with another count reaches the assembly. */
  lemma {:induction false} ForeignCut(src: Source, P: nat, id: i64, g: Ground, ps: seq<Packet>)
    requires Sound(src) && P in src.sizes && OfFile(src, P, id, ps)
    requires g.At(id).manifest.Some? && g.At(id).manifest.value.numChunks != Count(|src.content|, P)
    ensures DeliverAll(g, ps).finals == g.finals && DeliverAll(g, ps).At(id) == g.At(id)
    decreases |ps|
  {
    hide CutAt, Sound, Count;
    if ps != [] {
      PacketOfCut(src, P, ps[0]);
      WrongCountIgnored(g.At(id), ps[0]);
      NothingDelivered(g, ps[0]);
      hide Deliver, Ingest;
      ForeignCut(src, P, id, Deliver(g, ps[0]), ps[1..]);
    }
  }

  lemma NothingDelivered(g: Ground, p: Packet)
    requires Ingest(g.At(p.fileId), p).outcome == Mismatched && Ingest(g.At(p.fileId), p).next == g.At(p.fileId)
    ensures Deliver(g, p).finals == g.finals && Deliver(g, p).At(p.fileId) == g.At(p.fileId)
  {
  }

  /** Some packets of the cut at `P` bring the file down. */
  ghost predicate CanFinish(src: Source, P: nat, id: i64, g: Ground)
    requires P > 0
  {
    exists ps :: OfFile(src, P, id, ps) && GroundPath(src.name) in DeliverAll(g, ps).finals
  }

  /**
   After a change of chunk size: a sender cutting at `P` can bring down a file already begun if
   and only if the assembly was begun at that cut's count, over every run of its packets.
   */
  lemma CanFinishIffCountsMatch(src: Source, P: nat, id: i64, g: Ground)
    requires Sound(src) && P in src.sizes && src.name != [] && GroundPath(src.name) != []
    requires Consistent(src, g.At(id)) && g.At(id).manifest.Some? && GroundPath(src.name) !in g.finals
    ensures CanFinish(src, P, id, g) <==> g.At(id).manifest.value.numChunks == Count(|src.content|, P)
  {
    hide Count, CutAt, GroundPath, DeliverAll, Consistent, Ingest;
    var n := Count(|src.content|, P);
    if g.At(id).manifest.value.numChunks != n {
      forall ps | OfFile(src, P, id, ps) ensures GroundPath(src.name) !in DeliverAll(g, ps).finals {
        ForeignCut(src, P, id, g, ps);
      }
    } else if Measure(n, g.At(id)) > 0 {
      var ranges := Wanted(n, g.At(id));
      RoundLands(src, P, id, g, ranges);
      var ps := Round(src, P, id, g.At(id), AllChunkIds(ranges));
      RoundIsCut(src, P, id, g.At(id), AllChunkIds(ranges));
      hide Round;
      assert OfFile(src, P, id, ps);
    } else {
      NameAgain(src, P, id, g);
    }
  }

  /** Sending a stranded file's name again lands it. */
  lemma NameAgain(src: Source, P: nat, id: i64, g: Ground)
    requires Sound(src) && P in src.sizes && src.name != [] && GroundPath(src.name) != []
    requires IsStranded(src, P, g.At(id))
    ensures var p := Cut(src.content, id, P).ManifestPacket(src.name);
      OfFile(src, P, id, [p]) && DeliverAll(g, [p]).finals == g.finals[GroundPath(src.name) := src.content]
  {
    hide Count, GroundPath, Deliver, Measure, Consistent;
    var p := Cut(src.content, id, P).ManifestPacket(src.name);
    NamePacket(src, P, p);
    NameLands(src, P, P, g, p);
    assert DeliverAll(g, [p]) == DeliverAll(Deliver(g, p), [p][1..]) && [p][1..] == [];
  }
}
