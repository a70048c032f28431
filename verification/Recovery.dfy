/**
 The recovery claim: the gaps close (the loop in the demo's main, over reassembler.rs). From
 any reachable assembly in which something is missing, sending the name if that is and every
 missing range brings the file to completion at the last packet, and no packet ever takes
 progress away.
 */
module Recovery {
  import opened Wrappers
  import opened Bytes
  import opened Messages
  import opened Bitmaps
  import opened Sidecar
  import opened Packets
  import opened Chunker
  import opened GroundPaths
  import opened Reassembly
  import opened Delivery

  /** Missing chunks, plus one while the name is missing. */
  function Measure(n: nat, a: Assembly): nat {
    match a.manifest
    case None => n + 1
    case Some(m) => CountMissing(m.bitmap, n, 0) + if m.name == [] then 1 else 0
  }

  /** The assembly belongs to the cut at `P`. */
  ghost predicate Belongs(src: Source, P: nat, a: Assembly)
    requires Sound(src) && P in src.sizes
  {
    Consistent(src, a) && (a.manifest.Some? ==> a.manifest.value.numChunks == Count(|src.content|, P))
  }

  lemma BelongsAgrees(src: Source, P: nat, a: Assembly)
    requires Sound(src) && P in src.sizes && Belongs(src, P, a) && a.manifest.Some?
    ensures Agrees(src, P, a.manifest.value, Contents(a.data))
  {
    hide Agrees;
    var Q :| Q in src.sizes && Agrees(src, Q, a.manifest.value, Contents(a.data));
    SameCut(src, Q, P, a.manifest.value, Contents(a.data));
  }

  /** The packet tells the ground something new. */
  ghost predicate Useful(a: Assembly, p: Packet) {
    match p.ptype
    case Manifest => (a.manifest.None? || a.manifest.value.name == []) && p.payload != []
    case NameOnly => (a.manifest.None? || a.manifest.value.name == []) && p.payload != []
    case Heartbeat => false
    case _ => Writes(a.manifest, p) && (a.manifest.None? || !IsSet(a.manifest.value.bitmap, p.chunkId))
  }

  /** Useful packets lower the measure by one and say `Complete` exactly when it reaches zero. */
  lemma UsefulPacket(src: Source, P: nat, a: Assembly, p: Packet)
    requires Sound(src) && P in src.sizes && Belongs(src, P, a) && CutAt(src, P, p) && Useful(a, p)
    ensures var st, n := Ingest(a, p), Count(|src.content|, P);
      Measure(n, st.next) == Measure(n, a) - 1
      && st.outcome == (if Measure(n, st.next) == 0 then Complete else Accepted)
      && Belongs(src, P, st.next) && st.next.manifest.Some?
  {
    hide IsSet, CountMissing, Count, BitmapLen, Agrees, SetBit, Sidecar.Manifest.Complete, Written, Placed;
    var n := Count(|src.content|, P);
    PacketOfCut(src, P, p);
    IngestConsistent(src, P, a, p);
    if a.manifest.Some? { BelongsAgrees(src, P, a); AgreesSized(src, P, a.manifest.value, Contents(a.data)); }
    var st := Ingest(a, p);
    FreshMissesAll(BitmapLen(n), n, 0);
    if p.ptype.Data? || p.ptype.Retransmit? {
      var m := Sizing(a.manifest, p);
      if a.manifest.None? { FreshIsClear(BitmapLen(n), p.chunkId); }
      InBitmap(n, p.chunkId);
      SetBitCounts(m.bitmap, n, 0, p.chunkId);
    }
    CompleteAtZero(st.next.manifest.value, n);
  }

  lemma AgreesSized(src: Source, P: nat, m: Sidecar.Manifest, d: bytes)
    requires Sound(src) && P in src.sizes && Agrees(src, P, m, d)
    ensures m.Sized() && m.numChunks == Count(|src.content|, P)
  {
  }

  lemma InBitmap(n: u32, c: nat)
    requires Countable(n) && c < n
    ensures c / 8 < BitmapLen(n)
  {
  }

  lemma CompleteAtZero(m: Sidecar.Manifest, n: nat)
    requires m.Sized() && m.numChunks == n && Countable(n)
    ensures m.Complete() <==> CountMissing(m.bitmap, n, 0) == 0
  {
    hide IsSet, CountMissing;
    BitmapAgreement(m.bitmap, n);
  }

  /** A packet that is not useful changes neither bits nor name. */
  lemma UselessPacket(src: Source, P: nat, a: Assembly, p: Packet)
    requires Sound(src) && P in src.sizes && Belongs(src, P, a) && CutAt(src, P, p) && !Useful(a, p)
    ensures Measure(Count(|src.content|, P), Ingest(a, p).next) <= Measure(Count(|src.content|, P), a)
  {
    hide IsSet, CountMissing, Count, BitmapLen, Sidecar.Manifest.Complete, Written, Placed;
    var n := Count(|src.content|, P);
    PacketOfCut(src, P, p);
    FreshMissesAll(BitmapLen(n), n, 0);
  }

  /** Before the file lands, no packet of its cut takes progress away. */
  lemma MeasureNeverRises(src: Source, P: nat, a: Assembly, p: Packet)
    requires Sound(src) && P in src.sizes && Belongs(src, P, a) && CutAt(src, P, p)
    ensures Measure(Count(|src.content|, P), Ingest(a, p).next) <= Measure(Count(|src.content|, P), a)
  {
    hide Measure, Count, Ingest, CutAt, Useful, Belongs;
    if Useful(a, p) { UsefulPacket(src, P, a, p); } else { UselessPacket(src, P, a, p); }
  }

  // ---- one recovery round ----

  /** Every packet is accepted, and exactly the last one completes the file. */
  ghost predicate CompletesAtLast(a: Assembly, ps: seq<Packet>)
    decreases |ps|
  {
    ps != []
    && if |ps| == 1 then Ingest(a, ps[0]).outcome == Complete
       else Ingest(a, ps[0]).outcome == Accepted && CompletesAtLast(Ingest(a, ps[0]).next, ps[1..])
  }

  /** Packets of one file, all cut at `P`. */
  ghost predicate OfFile(src: Source, P: nat, id: i64, ps: seq<Packet>)
    requires P > 0
  {
    forall k :: 0 <= k < |ps| ==> ps[k].fileId == id && CutAt(src, P, ps[k])
  }

  /** Packets of one file, cut at any of its sizes. */
  ghost predicate FromFile(src: Source, id: i64, ps: seq<Packet>)
    requires Limits(src)
  {
    forall k :: 0 <= k < |ps| ==> ps[k].fileId == id && exists P :: P in src.sizes && CutAt(src, P, ps[k])
  }

  function ChunkIds(r: RequestedRange): (cs: seq<nat>)
    ensures |cs| == r.count && forall k :: 0 <= k < r.count ==> cs[k] == r.start + k
  {
    seq(r.count, k requires 0 <= k < r.count => r.start + k)
  }

  /** The chunks of the ranges, each range ascending. */
  function AllChunkIds(ranges: seq<RequestedRange>): seq<nat> {
    if ranges == [] then [] else ChunkIds(ranges[0]) + AllChunkIds(ranges[1..])
  }

  ghost predicate InCut(src: Source, P: nat, cs: seq<nat>)
    requires P > 0
  {
    forall k :: 0 <= k < |cs| ==> cs[k] < Count(|src.content|, P)
  }

  function Retransmits(cut: Cut, cs: seq<nat>): (ps: seq<Packet>)
    requires 0 < cut.payloadSize < U32 && Count(|cut.content|, cut.payloadSize) < U32
    requires forall k :: 0 <= k < |cs| ==> cs[k] < Count(|cut.content|, cut.payloadSize)
    ensures |ps| == |cs| && forall k :: 0 <= k < |cs| ==> cut.RetransmitPacket(cs[k]) == Success(ps[k])
  {
    if cs == [] then [] else [cut.RetransmitPacket(cs[0]).value] + Retransmits(cut, cs[1..])
  }

  lemma {:induction false} IdsCovered(ranges: seq<RequestedRange>, c: nat)
    ensures c in AllChunkIds(ranges) <==> Covers(ranges, c)
    ensures |AllChunkIds(ranges)| == Sum(ranges)
  {
    if ranges != [] {
      var rest := ranges[1..];
      IdsCovered(rest, c);
      assert c in ChunkIds(ranges[0]) <==> ranges[0].Contains(c) by {
        if ranges[0].Contains(c) { assert ChunkIds(ranges[0])[c - ranges[0].start] == c; }
      }
      if k :| 0 <= k < |ranges| && ranges[k].Contains(c) {
        assert k > 0 ==> rest[k - 1].Contains(c);
      }
      if k :| 0 <= k < |rest| && rest[k].Contains(c) {
        assert ranges[k + 1].Contains(c);
      }
    }
  }

  lemma {:induction false} SumConcat(a: seq<RequestedRange>, b: seq<RequestedRange>)
    ensures Sum(a + b) == Sum(a) + Sum(b)
  {
    if a == [] { assert a + b == b; }
    else { assert (a + b)[1..] == a[1..] + b; SumConcat(a[1..], b); }
  }

  function Without(a: seq<RequestedRange>, k: nat): seq<RequestedRange>
    requires k < |a|
  {
    a[..k] + a[k + 1..]
  }

  lemma WithoutOne(a: seq<RequestedRange>, k: nat)
    requires k < |a|
    ensures multiset(Without(a, k)) == multiset(a) - multiset{a[k]}
    ensures Sum(a) == a[k].count + Sum(Without(a, k))
  {
    var front, back := a[..k], a[k + 1..];
    assert a == front + ([a[k]] + back);
    SumConcat(front, back);
    SumConcat(front, [a[k]] + back);
    assert ([a[k]] + back)[1..] == back;
  }

  /** The order of the ranges does not matter for how many chunks they name. */
  lemma {:induction false} SumPermuted(a: seq<RequestedRange>, b: seq<RequestedRange>)
    requires multiset(a) == multiset(b)
    ensures Sum(a) == Sum(b)
    decreases |a|
  {
    if a == [] {
      assert |multiset(b)| == 0;
    } else {
      assert a[0] in multiset(b);
      var k :| 0 <= k < |b| && b[k] == a[0];
      WithoutOne(a, 0);
      WithoutOne(b, k);
      SumPermuted(Without(a, 0), Without(b, k));
    }
  }

  lemma CoversPermuted(a: seq<RequestedRange>, b: seq<RequestedRange>, c: nat)
    requires multiset(a) == multiset(b) && Covers(a, c)
    ensures Covers(b, c)
  {
    var k :| 0 <= k < |a| && a[k].Contains(c);
    assert a[k] in multiset(b);
    var j :| 0 <= j < |b| && b[j] == a[k];
  }

  // ---- a list that names every missing chunk, and no more chunks than are missing ----

  ghost predicate JustMissing(m: Sidecar.Manifest, n: nat, cs: seq<nat>) {
    |cs| == CountMissing(m.bitmap, n, 0)
    && forall c :: 0 <= c < n && !IsSet(m.bitmap, c) ==> c in cs
  }

  lemma {:induction false} MissingSet(bm: bytes, n: nat, i: nat)
    requires i <= n
    ensures |set c | i <= c < n && !IsSet(bm, c)| == CountMissing(bm, n, i)
    decreases n - i
  {
    hide IsSet;
    var s := set c | i <= c < n && !IsSet(bm, c);
    if i == n {
      assert s == {};
    } else {
      MissingSet(bm, n, i + 1);
      var t := set c | i + 1 <= c < n && !IsSet(bm, c);
      if IsSet(bm, i) { assert s == t; } else { assert s == {i} + t && i !in t; }
    }
  }

  lemma {:induction false} FewerThanListed(s: set<int>, cs: seq<nat>)
    requires forall c :: c in s ==> c in cs
    ensures |s| <= |cs|
    decreases |cs|
  {
    if cs == [] {
      assert forall c :: c !in s;
    } else {
      FewerThanListed(s - {cs[0]}, cs[1..]);
      assert s <= {cs[0]} + (s - {cs[0]});
    }
  }

  /** Such a list can afford no repetition: its first chunk is missing. */
  lemma FirstIsMissing(m: Sidecar.Manifest, n: nat, cs: seq<nat>)
    requires JustMissing(m, n, cs) && cs != []
    ensures !IsSet(m.bitmap, cs[0]) || cs[0] >= n
  {
    hide IsSet;
    if IsSet(m.bitmap, cs[0]) {
      var missing := set c | 0 <= c < n && !IsSet(m.bitmap, c);
      MissingSet(m.bitmap, n, 0);
      forall c | c in missing ensures c in cs[1..] {
        assert c in cs && c != cs[0];
        var k :| 0 <= k < |cs| && cs[k] == c;
        assert cs[1..][k - 1] == c;
      }
      FewerThanListed(missing, cs[1..]);
    }
  }

  lemma NextMissing(m: Sidecar.Manifest, m': Sidecar.Manifest, n: nat, cs: seq<nat>)
    requires JustMissing(m, n, cs) && cs != []
    requires m'.bitmap == SetBit(m.bitmap, cs[0]) && CountMissing(m'.bitmap, n, 0) == |cs| - 1 && cs[0] / 8 < |m.bitmap|
    ensures JustMissing(m', n, cs[1..])
  {
    hide IsSet, SetBit;
    forall c | 0 <= c < n && !IsSet(m'.bitmap, c) ensures c in cs[1..] {
      SetBitSetsOne(m.bitmap, cs[0], c);
      assert c in cs && c != cs[0];
      var k :| 0 <= k < |cs| && cs[k] == c;
      assert cs[1..][k - 1] == c;
    }
  }

  /** Sending the listed chunks to a named assembly completes it at the last one. */
  lemma {:induction false} ChunksComplete(src: Source, P: nat, id: i64, a: Assembly, cs: seq<nat>)
    requires Sound(src) && P in src.sizes && Belongs(src, P, a) && a.manifest.Some? && a.manifest.value.name != []
    requires InCut(src, P, cs) && cs != [] && JustMissing(a.manifest.value, Count(|src.content|, P), cs)
    requires a.manifest.value.payloadSize != 0 || Count(|src.content|, P) == 1 || cs[0] != Count(|src.content|, P) - 1
    ensures CompletesAtLast(a, Retransmits(Cut(src.content, id, P), cs))
    decreases |cs|
  {
    hide IsSet, CountMissing, Count, Agrees, SetBit, Consistent, BitmapLen, Ingest;
    var n, m := Count(|src.content|, P), a.manifest.value;
    var ps := Retransmits(Cut(src.content, id, P), cs);
    var p := ps[0];
    FirstIsMissing(m, n, cs);
    assert CutAt(src, P, p);
    PacketOfCut(src, P, p);
    UsefulPacket(src, P, a, p);
    var a' := Ingest(a, p).next;
    ChunkEffect(src, P, a, p);
    BelongsAgrees(src, P, a);
    AgreesSized(src, P, m, Contents(a.data));
    InBitmap(n, cs[0]);
    if |cs| > 1 {
      NextMissing(m, a'.manifest.value, n, cs);
      ChunksComplete(src, P, id, a', cs[1..]);
    }
  }

  /** What a new chunk does to the manifest. */
  lemma ChunkEffect(src: Source, P: nat, a: Assembly, p: Packet)
    requires Sound(src) && P in src.sizes && Belongs(src, P, a) && CutAt(src, P, p) && a.manifest.Some?
    requires (p.ptype.Data? || p.ptype.Retransmit?) && Useful(a, p)
    ensures var m, st := a.manifest.value, Ingest(a, p);
      st.next.manifest.Some? && st.next.manifest.value.bitmap == SetBit(m.bitmap, p.chunkId)
      && st.next.manifest.value.name == m.name && st.next.manifest.value.numChunks == m.numChunks
      && (Count(|src.content|, P) > 1 ==> st.next.manifest.value.payloadSize != 0)
  {
    hide IsSet, SetBit, Sidecar.Manifest.Complete, Written, Placed;
    PacketOfCut(src, P, p);
    BelongsAgrees(src, P, a);
    SizingAgrees(src, P, a, p);
    ChunkPlace(src.content, P, 0);
  }

  // ---- what one round of the loop sends ----

  /** The ranges the ground reports; the whole file when it knows nothing of it yet. */
  function Wanted(n: nat, a: Assembly): seq<RequestedRange> {
    match a.manifest
    case None => [RequestedRange(0, n)]
    case Some(m) => Missing(m.bitmap, n)
  }

  predicate NeedsName(a: Assembly) {
    a.manifest.None? || a.manifest.value.name == []
  }

  function Round(src: Source, P: nat, id: i64, a: Assembly, cs: seq<nat>): seq<Packet>
    requires 0 < P < U32 && Count(|src.content|, P) < U32
    requires forall k :: 0 <= k < |cs| ==> cs[k] < Count(|src.content|, P)
  {
    (if NeedsName(a) then [Cut(src.content, id, P).ManifestPacket(src.name)] else [])
    + Retransmits(Cut(src.content, id, P), cs)
  }

  lemma {:induction false} ClearGap(bm: bytes, n: nat, i: nat)
    requires i <= n && forall c :: 0 <= c < n ==> !IsSet(bm, c)
    ensures GapEnd(bm, n, i) == n
    decreases n - i
  {
    if i < n { ClearGap(bm, n, i + 1); }
  }

  /** With no chunk received the missing ranges are the one range of the whole file. */
  lemma ClearMissing(bm: bytes, n: nat)
    requires n > 0 && forall c :: 0 <= c < n ==> !IsSet(bm, c)
    ensures Missing(bm, n) == [RequestedRange(0, n)]
  {
    ClearGap(bm, n, 0);
    assert !IsSet(bm, 0) && MissingFrom(bm, n, n) == [];
  }

  lemma SingleRange(ranges: seq<RequestedRange>, r: RequestedRange)
    requires multiset(ranges) == multiset([r])
    ensures ranges == [r]
  {
    assert |multiset(ranges)| == 1;
    assert ranges[0] in multiset([r]);
  }

  /** The reported ranges, in any order, name every missing chunk and no more than are missing. */
  lemma RangesJustMissing(m: Sidecar.Manifest, n: nat, ranges: seq<RequestedRange>)
    requires multiset(ranges) == multiset(Missing(m.bitmap, n))
    ensures JustMissing(m, n, AllChunkIds(ranges))
    ensures forall k :: 0 <= k < |AllChunkIds(ranges)| ==> AllChunkIds(ranges)[k] < n
  {
    hide IsSet, Missing, CountMissing, Sum, AllChunkIds;
    var cs := AllChunkIds(ranges);
    MissingSum(m.bitmap, n, 0);
    SumPermuted(ranges, Missing(m.bitmap, n));
    MissingIsFrom(m.bitmap, n);
    IdsCovered(ranges, 0);
    forall c: nat | c < n && !IsSet(m.bitmap, c) ensures c in cs {
      MissingCovers(m.bitmap, n, 0, c);
      CoversPermuted(Missing(m.bitmap, n), ranges, c);
      IdsCovered(ranges, c);
    }
    forall k | 0 <= k < |cs| ensures cs[k] < n {
      IdsCovered(ranges, cs[k]);
      CoversPermuted(ranges, Missing(m.bitmap, n), cs[k]);
      MissingCovers(m.bitmap, n, 0, cs[k]);
    }
  }

  lemma MissingIsFrom(bm: bytes, n: nat)
    ensures Missing(bm, n) == MissingFrom(bm, n, 0)
  {
  }

  /** An assembly that does not know the chunk size yet is not sent the last chunk first. */
  lemma UnsizedStart(src: Source, P: nat, a: Assembly, ranges: seq<RequestedRange>)
    requires Sound(src) && P in src.sizes && Belongs(src, P, a) && a.manifest.Some?
    requires multiset(ranges) == multiset(Missing(a.manifest.value.bitmap, Count(|src.content|, P)))
    requires a.manifest.value.payloadSize == 0 && Count(|src.content|, P) > 1
    ensures AllChunkIds(ranges) != [] && AllChunkIds(ranges)[0] == 0
  {
    hide IsSet;
    var m, n := a.manifest.value, Count(|src.content|, P);
    BelongsAgrees(src, P, a);
    ClearMissing(m.bitmap, n);
    SingleRange(ranges, RequestedRange(0, n));
  }

  lemma NamedRound(src: Source, P: nat, id: i64, a: Assembly, ranges: seq<RequestedRange>)
    requires Sound(src) && P in src.sizes && Belongs(src, P, a) && a.manifest.Some? && a.manifest.value.name != []
    requires Measure(Count(|src.content|, P), a) > 0
    requires multiset(ranges) == multiset(Missing(a.manifest.value.bitmap, Count(|src.content|, P)))
    ensures InCut(src, P, AllChunkIds(ranges))
    ensures CompletesAtLast(a, Retransmits(Cut(src.content, id, P), AllChunkIds(ranges)))
  {
    hide Missing, CountMissing, AllChunkIds, CompletesAtLast, Belongs, Count;
    CountBounds(|src.content|, P);
    RangesJustMissing(a.manifest.value, Count(|src.content|, P), ranges);
    if a.manifest.value.payloadSize == 0 && Count(|src.content|, P) > 1 { UnsizedStart(src, P, a, ranges); }
    ChunksComplete(src, P, id, a, AllChunkIds(ranges));
  }

  lemma NameEffect(src: Source, P: nat, a: Assembly, p: Packet)
    requires Sound(src) && P in src.sizes && Belongs(src, P, a) && NeedsName(a) && src.name != []
    requires p.ptype.Manifest? && p.payload == src.name && p.numChunks == Count(|src.content|, P)
    ensures var st := Ingest(a, p);
      st.next.manifest.Some? && st.next.manifest.value.name == src.name
      && Wanted(p.numChunks, a) == Missing(st.next.manifest.value.bitmap, p.numChunks)
  {
    hide Missing;
    CountBounds(|src.content|, P);
    if a.manifest.None? {
      forall c | 0 <= c < p.numChunks ensures !IsSet(Zeros(BitmapLen(p.numChunks)),
          c) { FreshIsClear(BitmapLen(p.numChunks), c); }
      ClearMissing(Zeros(BitmapLen(p.numChunks)), p.numChunks);
    }
  }

  /**
   The recovery claim: from any reachable assembly in which a chunk or the name is missing, one
   round that gets through answers `Complete` at its last packet and not before, whatever the order
   of the ranges. An assembly in which nothing is missing is the subject of `Stranded`.
   */
  lemma RoundCompletes(src: Source, P: nat, id: i64, a: Assembly, ranges: seq<RequestedRange>)
    requires Sound(src) && P in src.sizes && src.name != [] && Belongs(src, P, a)
    requires Measure(Count(|src.content|, P), a) > 0
    requires multiset(ranges) == multiset(Wanted(Count(|src.content|, P), a))
    ensures InCut(src, P, AllChunkIds(ranges))
    ensures CompletesAtLast(a, Round(src, P, id, a, AllChunkIds(ranges)))
  {
    hide Missing, CountMissing, AllChunkIds, Belongs, Count, Retransmits, Wanted, CompletesAtLast, Measure;
    if NeedsName(a) {
      UnnamedRound(src, P, id, a, ranges);
    } else {
      WantedNamed(Count(|src.content|, P), a);
      NamedRound(src, P, id, a, ranges);
      var ps := Retransmits(Cut(src.content, id, P), AllChunkIds(ranges));
      assert [] + ps == ps;
    }
  }

  lemma UnnamedRound(src: Source, P: nat, id: i64, a: Assembly, ranges: seq<RequestedRange>)
    requires Sound(src) && P in src.sizes && src.name != [] && Belongs(src, P, a) && NeedsName(a)
    requires multiset(ranges) == multiset(Wanted(Count(|src.content|, P), a))
    ensures InCut(src, P, AllChunkIds(ranges))
    ensures CompletesAtLast(a, Round(src, P, id, a, AllChunkIds(ranges)))
  {
    hide Missing, CountMissing, AllChunkIds, Belongs, Count, Wanted, Ingest, CompletesAtLast, IsSet, CutAt;
    var n, cs := Count(|src.content|, P), AllChunkIds(ranges);
    var p := Cut(src.content, id, P).ManifestPacket(src.name);
    NamePacket(src, P, p);
    NameEffect(src, P, a, p);
    UsefulPacket(src, P, a, p);
    var a' := Ingest(a, p).next;
    RangesJustMissing(a'.manifest.value, n, ranges);
    var rest := Retransmits(Cut(src.content, id, P), cs);
    if Measure(n, a') > 0 {
      NamedRound(src, P, id, a', ranges);
      NotEmpty(a', rest);
    }
    NameThenChunks(a, p, rest);
  }

  lemma NotEmpty(a: Assembly, ps: seq<Packet>)
    requires CompletesAtLast(a, ps)
    ensures ps != []
  {
  }

  lemma NamePacket(src: Source, P: nat, p: Packet)
    requires Sound(src) && P in src.sizes && p == Cut(src.content, p.fileId, P).ManifestPacket(src.name)
    ensures CutAt(src, P, p) && p.ptype.Manifest? && p.payload == src.name && p.numChunks == Count(|src.content|, P)
  {
  }

  lemma WantedNamed(n: nat, a: Assembly)
    requires a.manifest.Some?
    ensures Wanted(n, a) == Missing(a.manifest.value.bitmap, n)
  {
  }

  lemma NameThenChunks(a: Assembly, p: Packet, rest: seq<Packet>)
    requires if rest == [] then Ingest(a, p).outcome == Complete
             else Ingest(a, p).outcome == Accepted && CompletesAtLast(Ingest(a, p).next, rest)
    ensures CompletesAtLast(a, [p] + rest)
  {
    assert ([p] + rest)[1..] == rest;
  }

  // ---- the round lands the file ----

  function DeliverAll(g: Ground, ps: seq<Packet>): Ground
    decreases |ps|
  {
    if ps == [] then g else DeliverAll(Deliver(g, ps[0]), ps[1..])
  }

  /** The file is at its landing place, byte for byte, nothing of it is held, and all else is as it was. */
  ghost predicate Landed(src: Source, id: i64, g: Ground, g': Ground) {
    g'.finals == g.finals[GroundPath(src.name) := src.content] && g'.At(id) == NOTHING
    && forall j: i64 :: j != id ==> g'.At(j) == g.At(j)
  }

  /** A `Complete` answer means there is a data file to land. */
  lemma CompleteLands(src: Source, P: nat, g: Ground, p: Packet)
    requires Sound(src) && P in src.sizes && GroundPath(src.name) != [] && src.name != []
    requires Consistent(src, g.At(p.fileId)) && CutAt(src, P, p) && Ingest(g.At(p.fileId), p).outcome == Complete
    ensures Landed(src, p.fileId, g, Deliver(g, p))
  {
    hide IngestChunk, IngestManifest, IsSet, Count, CutAt, IsComplete, Agrees;
    var a := g.At(p.fileId);
    var st := Ingest(a, p);
    CompleteAnswer(a, p);
    IngestConsistent(src, P, a, p);
    var m := st.next.manifest.value;
    var Q :| Q in src.sizes && Agrees(src, Q, m, Contents(st.next.data));
    CountBounds(|src.content|, Q);
    AgreesNamed(src, Q, m, Contents(st.next.data));
    CompleteMeansAllSet(m.bitmap, m.numChunks);
    assert IsSet(m.bitmap, 0);
    CompleteIsContent(src, Q, m, Contents(st.next.data));
  }

  lemma AgreesNamed(src: Source, P: nat, m: Sidecar.Manifest, d: bytes)
    requires Sound(src) && P in src.sizes && Agrees(src, P, m, d)
    ensures m.Sized() && m.numChunks == Count(|src.content|, P) && (m.name == [] || m.name == src.name)
  {
  }

  lemma CompleteAnswer(a: Assembly, p: Packet)
    requires Ingest(a, p).outcome == Complete
    ensures var m := Ingest(a, p).next.manifest; m.Some? && m.value.Complete() && m.value.name != []
  {
    hide Sidecar.Manifest.Complete;
  }

  lemma {:induction false} CompletingRunLands(src: Source, P: nat, id: i64, g: Ground, ps: seq<Packet>)
    requires Sound(src) && P in src.sizes && GroundPath(src.name) != [] && src.name != []
    requires Consistent(src, g.At(id)) && OfFile(src, P, id, ps) && CompletesAtLast(g.At(id), ps)
    ensures Landed(src, id, g, DeliverAll(g, ps))
    decreases |ps|
  {
    hide Ingest, Consistent, CutAt, Finalized, GroundPath;
    if |ps| == 1 {
      CompleteLands(src, P, g, ps[0]);
      assert DeliverAll(Deliver(g, ps[0]), ps[1..]) == Deliver(g, ps[0]);
    } else {
      IngestConsistent(src, P, g.At(id), ps[0]);
      CompletingRunLands(src, P, id, Deliver(g, ps[0]), ps[1..]);
    }
  }

  lemma RoundIsCut(src: Source, P: nat, id: i64, a: Assembly, cs: seq<nat>)
    requires Sound(src) && P in src.sizes && InCut(src, P, cs)
    ensures OfFile(src, P, id, Round(src, P, id, a, cs))
  {
    var rest := Retransmits(Cut(src.content, id, P), cs);
    forall k | 0 <= k < |rest| ensures CutAt(src, P, rest[k]) && rest[k].fileId == id {
      assert Cut(src.content, id, P).RetransmitPacket(cs[k]) == Success(rest[k]);
    }
  }

  /** One round that gets through puts the file, byte for byte, where it belongs. */
  lemma RoundLands(src: Source, P: nat, id: i64, g: Ground, ranges: seq<RequestedRange>)
    requires Sound(src) && P in src.sizes && src.name != [] && GroundPath(src.name) != [] && Belongs(src, P, g.At(id))
    requires Measure(Count(|src.content|, P), g.At(id)) > 0
    requires multiset(ranges) == multiset(Wanted(Count(|src.content|, P), g.At(id)))
    ensures InCut(src, P, AllChunkIds(ranges))
    ensures Landed(src, id, g, DeliverAll(g, Round(src, P, id, g.At(id), AllChunkIds(ranges))))
  {
    hide Round, CompletesAtLast, DeliverAll, OfFile, AllChunkIds, GroundPath, Measure, Wanted;
    RoundCompletes(src, P, id, g.At(id), ranges);
    RoundIsCut(src, P, id, g.At(id), AllChunkIds(ranges));
    CompletingRunLands(src, P, id, g, Round(src, P, id, g.At(id), AllChunkIds(ranges)));
  }
}
