/**
 The recovery claim without an order between name and chunks: interrupting requests are served
 last first, so the name the cleaner asked for first arrives after the chunks.
 */
module NameAnywhere {
  import opened Wrappers
  import opened Bytes
  import opened Messages
  import opened Bitmaps
  import opened Sidecar
  import opened Packets
  import opened Chunker
  import opened Reassembly
  import opened Delivery
  import opened Recovery

  /** A round with the name after the first `j` chunks. */
  function RoundAt(src: Source, P: nat, id: i64, cs: seq<nat>, j: nat): seq<Packet>
    requires 0 < P < U32 && Count(|src.content|, P) < U32 && j <= |cs|
    requires forall k :: 0 <= k < |cs| ==> cs[k] < Count(|src.content|, P)
  {
    var cut := Cut(src.content, id, P);
    Retransmits(cut, cs[..j]) + [cut.ManifestPacket(src.name)] + Retransmits(cut, cs[j..])
  }

  /** The first packet of a round is its first chunk, when the name comes later. */
  lemma RoundAtHead(src: Source, P: nat, id: i64, cs: seq<nat>, j: nat)
    requires 0 < P < U32 && Count(|src.content|, P) < U32 && 0 < j <= |cs|
    requires forall k :: 0 <= k < |cs| ==> cs[k] < Count(|src.content|, P)
    ensures var ps := RoundAt(src, P, id, cs, j);
      |ps| == |cs| + 1 && ps[0] == Cut(src.content, id, P).RetransmitPacket(cs[0]).value
      && ps[1..] == RoundAt(src, P, id, cs[1..], j - 1)
  {
    hide Count;
    var cut := Cut(src.content, id, P);
    assert cs[..j][1..] == cs[1..][..j - 1] && cs[1..][j - 1..] == cs[j..];
    var a, b, c := Retransmits(cut, cs[..j]), [cut.ManifestPacket(src.name)], Retransmits(cut, cs[j..]);
    assert a == [a[0]] + Retransmits(cut, cs[..j][1..]);
    assert (a + b + c)[1..] == a[1..] + b + c;
  }

  /** The chunk a round starts with is not one that the assembly has to refuse. */
  ghost predicate CanStart(src: Source, P: nat, a: Assembly, cs: seq<nat>)
    requires P > 0
  {
    cs == [] || Count(|src.content|, P) == 1 || (a.manifest.Some? && a.manifest.value.payloadSize != 0)
    || cs[0] != Count(|src.content|, P) - 1
  }

  /** The listed chunks are the missing ones of the assembly. */
  ghost predicate JustLacks(n: nat, a: Assembly, cs: seq<nat>) {
    match a.manifest
    case None => |cs| == n && forall k :: 0 <= k < n ==> cs[k] == k
    case Some(m) => JustMissing(m, n, cs)
  }

  lemma FirstChunk(src: Source, P: nat, a: Assembly, p: Packet, cs: seq<nat>)
    requires Sound(src) && P in src.sizes && Belongs(src, P, a) && CutAt(src, P, p) && p.ptype.Retransmit?
    requires cs != [] && p.chunkId == cs[0] && InCut(src, P, cs) && NeedsName(a)
    requires JustLacks(Count(|src.content|, P), a, cs) && CanStart(src, P, a, cs)
    ensures Useful(a, p)
    ensures var st := Ingest(a, p);
      st.outcome == Accepted && st.next.manifest.Some? && st.next.manifest.value.name == [] && Belongs(src, P, st.next)
      && JustLacks(Count(|src.content|, P), st.next, cs[1..]) && CanStart(src, P, st.next, cs[1..])
  {
    var n := Count(|src.content|, P);
    CountBounds(|src.content|, P);
    PacketOfCut(src, P, p);
    if a.manifest.Some? { FirstIsMissing(a.manifest.value, n, cs); BelongsAgrees(src, P, a); }
    assert Useful(a, p);
    UsefulPacket(src, P, a, p);
    ChunkLeaves(src, P, a, p);
    hide IsSet, CountMissing, Count, SetBit, Ingest, Belongs, Useful, CutAt;
    var m' := Ingest(a, p).next.manifest.value;
    match a.manifest
    case Some(m) =>
      AgreesSized(src, P, m, Contents(a.data));
      InBitmap(n, cs[0]);
      NextMissing(m, m', n, cs);
    case None =>
      LacksAfterFirst(m', n, cs);
  }

  /** What the first chunk of a round leaves of the manifest. */
  lemma ChunkLeaves(src: Source, P: nat, a: Assembly, p: Packet)
    requires Sound(src) && P in src.sizes && Belongs(src, P, a) && CutAt(src, P, p) && p.ptype.Retransmit?
    requires Useful(a, p)
    ensures var n, st := Count(|src.content|, P), Ingest(a, p);
      st.next.manifest.Some? && (n > 1 ==> st.next.manifest.value.payloadSize != 0)
      && st.next.manifest.value.bitmap
         == SetBit(if a.manifest.Some? then a.manifest.value.bitmap else Zeros(BitmapLen(n)), p.chunkId)
      && st.next.manifest.value.name == if a.manifest.Some? then a.manifest.value.name else []
  {
    hide IsSet, SetBit, Sidecar.Manifest.Complete, Written, Placed, BitmapLen;
    PacketOfCut(src, P, p);
    if a.manifest.Some? { BelongsAgrees(src, P, a); }
    SizingAgrees(src, P, a, p);
    ChunkPlace(src.content, P, 0);
  }

  lemma LacksAfterFirst(m: Sidecar.Manifest, n: u32, cs: seq<nat>)
    requires 0 < n && Countable(n) && |cs| == n && forall k :: 0 <= k < n ==> cs[k] == k
    requires m.bitmap == SetBit(Zeros(BitmapLen(n)), 0)
    ensures JustMissing(m, n, cs[1..])
  {
    FreshMissesAll(BitmapLen(n), n, 0);
    InBitmap(n, 0);
    FreshIsClear(BitmapLen(n), 0);
    SetBitCounts(Zeros(BitmapLen(n)), n, 0, 0);
    hide IsSet, SetBit, CountMissing;
    forall c | 0 <= c < n && !IsSet(m.bitmap, c) ensures c in cs[1..] {
      SetBitSetsOne(Zeros(BitmapLen(n)), 0, c);
      assert c > 0;
      assert cs[1..][c - 1] == c;
    }
  }

  /** Wherever the name comes, every packet is accepted and the last one completes the file. */
  lemma {:induction false} AnywhereCompletes(src: Source, P: nat, id: i64, a: Assembly, cs: seq<nat>, j: nat)
    requires Sound(src) && P in src.sizes && src.name != [] && Belongs(src, P, a) && NeedsName(a)
    requires InCut(src, P, cs) && j <= |cs| && (a.manifest.None? ==> j > 0)
    requires JustLacks(Count(|src.content|, P), a, cs) && CanStart(src, P, a, cs)
    ensures CompletesAtLast(a, RoundAt(src, P, id, cs, j))
    decreases j
  {
    hide Count, CutAt, IsSet, CountMissing, Belongs, Ingest, JustLacks, CanStart, Useful;
    var cut := Cut(src.content, id, P);
    if j == 0 {
      NameThenRest(src, P, id, a, cs);
      RoundAtZero(src, P, id, cs);
    } else {
      var p := cut.RetransmitPacket(cs[0]).value;
      assert CutAt(src, P, p) by { RetransmitCut(src, P, id, cs[0]); }
      FirstChunk(src, P, a, p, cs);
      RoundAtHead(src, P, id, cs, j);
      AnywhereCompletes(src, P, id, Ingest(a, p).next, cs[1..], j - 1);
      hide RoundAt;
    }
  }

  lemma RetransmitCut(src: Source, P: nat, id: i64, c: nat)
    requires Sound(src) && P in src.sizes && c < Count(|src.content|, P)
    ensures Cut(src.content, id, P).RetransmitPacket(c).Success?
    ensures CutAt(src, P, Cut(src.content, id, P).RetransmitPacket(c).value)
  {
    hide Count;
  }

  lemma NameThenRest(src: Source, P: nat, id: i64, a: Assembly, cs: seq<nat>)
    requires Sound(src) && P in src.sizes && src.name != [] && Belongs(src, P, a) && NeedsName(a) && a.manifest.Some?
    requires InCut(src, P, cs) && JustLacks(Count(|src.content|, P), a, cs) && CanStart(src, P, a, cs)
    ensures CompletesAtLast(a, [Cut(src.content, id, P).ManifestPacket(src.name)]
      + Retransmits(Cut(src.content, id, P), cs))
  {
    var n, p := Count(|src.content|, P), Cut(src.content, id, P).ManifestPacket(src.name);
    NamePacket(src, P, p);
    NameKeepsBits(src, P, a, p);
    hide Count, CountMissing, IsSet, Ingest, CompletesAtLast, CutAt, Belongs;
    UsefulPacket(src, P, a, p);
    var rest := Retransmits(Cut(src.content, id, P), cs);
    if cs != [] {
      ChunksComplete(src, P, id, Ingest(a, p).next, cs);
    }
    NameThenChunks(a, p, rest);
  }

  lemma NameKeepsBits(src: Source, P: nat, a: Assembly, p: Packet)
    requires Sound(src) && P in src.sizes && src.name != [] && Belongs(src, P, a) && NeedsName(a) && a.manifest.Some?
    requires p.ptype.Manifest? && p.payload == src.name && p.numChunks == Count(|src.content|, P)
    ensures Useful(a, p)
    ensures var m' := Ingest(a, p).next.manifest;
      m' == Some(a.manifest.value.(name := src.name))
  {
    hide Count, IsComplete;
  }

  /**
   The recovery claim in full: from any reachable unnamed assembly, or none, the name and every
   missing range, in any order of the ranges and with the name anywhere among the chunks, is
   accepted throughout and completes the file exactly at the last packet.
   */
  lemma AnyOrderCompletes(src: Source, P: nat, id: i64, a: Assembly, ranges: seq<RequestedRange>, j: nat)
    requires Sound(src) && P in src.sizes && src.name != [] && Belongs(src, P, a) && NeedsName(a)
    requires multiset(ranges) == multiset(Wanted(Count(|src.content|, P), a)) && j <= |AllChunkIds(ranges)|
    ensures InCut(src, P, AllChunkIds(ranges))
    ensures CompletesAtLast(a, RoundAt(src, P, id, AllChunkIds(ranges), j))
  {
    hide Missing, CountMissing, AllChunkIds, Belongs, Count, CompletesAtLast, IsSet, Retransmits;
    hide RoundAt;
    var n, cs := Count(|src.content|, P), AllChunkIds(ranges);
    UnnamedRound(src, P, id, a, ranges);
    if j == 0 {
      RoundAtZero(src, P, id, cs);
    } else {
      CountBounds(|src.content|, P);
      if a.manifest.None? {
        WholeRange(n, ranges);
      } else {
        RangesJustMissing(a.manifest.value, n, ranges);
        if a.manifest.value.payloadSize == 0 && n > 1 { UnsizedStart(src, P, a, ranges); }
      }
      AnywhereCompletes(src, P, id, a, cs, j);
    }
  }

  lemma RoundAtZero(src: Source, P: nat, id: i64, cs: seq<nat>)
    requires 0 < P < U32 && Count(|src.content|, P) < U32
    requires forall k :: 0 <= k < |cs| ==> cs[k] < Count(|src.content|, P)
    ensures RoundAt(src, P, id, cs, 0)
      == [Cut(src.content, id, P).ManifestPacket(src.name)] + Retransmits(Cut(src.content, id, P), cs)
  {
    hide Count;
    var cut := Cut(src.content, id, P);
    assert cs[0..] == cs && cs[..0] == [];
    assert [] + [cut.ManifestPacket(src.name)] == [cut.ManifestPacket(src.name)];
  }

  lemma WholeRange(n: nat, ranges: seq<RequestedRange>)
    requires multiset(ranges) == multiset([RequestedRange(0, n)])
    ensures |AllChunkIds(ranges)| == n && forall k :: 0 <= k < n ==> AllChunkIds(ranges)[k] == k
  {
    SingleRange(ranges, RequestedRange(0, n));
    assert ranges[1..] == [] && AllChunkIds(ranges) == ChunkIds(ranges[0]) + [];
  }
}
