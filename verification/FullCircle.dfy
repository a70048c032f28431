/**
 One undisturbed turn of the whole system: the cleaner plans from every sidecar, each request
 reaches the sender, whose loop serves its queue to the end over the link, and the ground lands
 the files. The requests interrupt, so the last gap asked for is sent first and the name last.
 */
module FullCircle {
  import opened Wrappers
  import opened Bytes
  import opened Messages
  import opened Bitmaps
  import opened Packets
  import opened Chunker
  import opened GroundPaths
  import opened Reassembly
  import opened Delivery
  import opened Recovery
  import opened NameAnywhere
  import opened Queue
  import opened Dedup
  import opened Cleaner
  import opened ClosedLoop
  import opened PassRun
  import opened Running
  import Sender
  import SenderBook
  import RateLimiter
  import Sidecar

  /** Turn after turn in the same world. */
  function Same(w: Sender.World, k: nat): (ws: seq<Sender.World>)
    ensures |ws| == k && forall i :: 0 <= i < k ==> ws[i] == w
  {
    seq(k, i => w)
  }

  /** What `k` turns of the sender's loop make of its queue. */
  function Turns(x: Fixed, w: Sender.World, items: seq<WorkItem>, k: nat): Ran {
    RunOver(items, x.rows, x.chunkSize, Same(w, k))
  }

  /** The sender knows the file, its copy is on disk, and nothing is broken. */
  ghost predicate Ready(x: Fixed, w: Sender.World, src: Source, id: i64) {
    && MIN_CHUNK_SIZE <= x.chunkSize <= MAX_CHUNK_SIZE
    && Sound(src) && x.chunkSize - HEADER_LEN in src.sizes && src.name != []
    && id in x.rows && x.rows[id].fileId == id && x.rows[id].fileName == src.name
       && x.rows[id].fileSize == |src.content|
    && w.readable && w.linkUp && src.name in w.files && w.files[src.name] == src.content
    && RateLimiter.FitsBucket(x.chunkSize, w.kbps) && RateLimiter.FitsBucket(HEADER_LEN + |src.name|, w.kbps)
    && Count(|src.content|, x.chunkSize - HEADER_LEN) < 0x8000_0000
  }

  function CutOf(x: Fixed, src: Source, id: i64): Cut
    requires x.chunkSize >= HEADER_LEN
  {
    Cut(src.content, id, x.chunkSize - HEADER_LEN)
  }

  predicate InRange(r: RequestedRange, n: nat) {
    r.count > 0 && r.End() <= n
  }

  // ---- asking ----

  function Reversed(ranges: seq<RequestedRange>): seq<RequestedRange> {
    if ranges == [] then [] else Reversed(ranges[1..]) + [ranges[0]]
  }

  function Resends(id: i64, ranges: seq<RequestedRange>): (items: seq<WorkItem>)
    ensures |items| == |ranges| && forall k :: 0 <= k < |ranges| ==> items[k] == RetransmitItem(id, ranges[k])
  {
    seq(|ranges|, k requires 0 <= k < |ranges| => RetransmitItem(id, ranges[k]))
  }

  lemma {:induction false} ReversedSame(ranges: seq<RequestedRange>)
    ensures multiset(Reversed(ranges)) == multiset(ranges)
    ensures forall r :: r in Reversed(ranges) <==> r in ranges
  {
    if ranges != [] {
      ReversedSame(ranges[1..]);
      assert ranges == [ranges[0]] + ranges[1..];
    }
  }

  lemma TotalIsCount(x: Fixed, w: Sender.World, src: Source, id: i64)
    requires Ready(x, w, src, id)
    ensures Sender.Total(|src.content|, x.chunkSize) == Count(|src.content|, x.chunkSize - HEADER_LEN)
      == CutOf(x, src, id).NumChunks()
  {
    hide Count;
  }

  lemma SmallAsI32(n: nat)
    requires n < 0x8000_0000
    ensures n % U32 == n && AsI32(n) == n
  {
  }

  /** A gap is queued as it was asked for. */
  lemma GapQueued(x: Fixed, w: Sender.World, src: Source, id: i64, r: RequestedRange)
    requires Ready(x, w, src, id) && InRange(r, Count(|src.content|, x.chunkSize - HEADER_LEN))
    ensures RequestItems(x, Key(id, RetransmitKind, r)) == [RetransmitItem(id, r)]
  {
    hide Count, Sender.Total, Sound, AsI32;
    TotalIsCount(x, w, src, id);
    SmallAsI32(r.start);
    SmallAsI32(r.count);
    var n := Count(|src.content|, x.chunkSize - HEADER_LEN);
    assert r.start < n && r.count <= n - r.start;
  }

  lemma {:induction false} GapsQueued(x: Fixed, w: Sender.World, src: Source, id: i64,
      ranges: seq<RequestedRange>, items: seq<WorkItem>)
    requires Ready(x, w, src, id)
    requires forall k :: 0 <= k < |ranges| ==> InRange(ranges[k], Count(|src.content|, x.chunkSize - HEADER_LEN))
    ensures Heard(x, Gaps(id, ranges), items) == Resends(id, Reversed(ranges)) + items
    decreases |ranges|
  {
    var plan := Gaps(id, ranges);
    if ranges == [] {
      assert Resends(id, Reversed(ranges)) + items == items;
    } else {
      GapQueued(x, w, src, id, ranges[0]);
      hide Ready, Count, InRange, RequestItems;
      assert plan[1..] == Gaps(id, ranges[1..]);
      GapsQueued(x, w, src, id, ranges[1..], [RetransmitItem(id, ranges[0])] + items);
      assert Resends(id, Reversed(ranges)) == Resends(id, Reversed(ranges[1..])) + [RetransmitItem(id, ranges[0])];
      assert Resends(id, Reversed(ranges[1..])) + ([RetransmitItem(id, ranges[0])] + items)
        == Resends(id, Reversed(ranges)) + items;
    }
  }

  // ---- sending ----

  lemma ServedChunk(x: Fixed, w: Sender.World, src: Source, id: i64, r: RequestedRange)
    requires Ready(x, w, src, id) && InRange(r, Count(|src.content|, x.chunkSize - HEADER_LEN))
    ensures var item := RetransmitItem(id, r);
      Sender.Addressed(item) && CutOf(x, src, id).RetransmitPacket(r.start).Success?
      && Sender.Serve(item, x.rows, x.chunkSize, w) == Sender.Out(CutOf(x, src, id).RetransmitPacket(r.start).value)
  {
    TotalIsCount(x, w, src, id);
    hide Count, ChunkBytes, Sound;
  }

  lemma TurnOf(x: Fixed, w: Sender.World, item: WorkItem, rest: seq<WorkItem>, p: Packet, k: nat)
    requires Sender.Addressed(item) && Sender.Serve(item, x.rows, x.chunkSize, w) == Sender.Out(p)
    ensures Turns(x, w, [item] + rest, k + 1) == Prefixed([p], Turns(x, w, SenderBook.Residue(item) + rest, k))
  {
    hide Sender.Serve, SenderBook.Residue, RunOver;
    assert ([item] + rest)[1..] == rest;
    assert Same(w, k + 1)[1..] == Same(w, k);
    NextTurn([item] + rest, x.rows, x.chunkSize, Same(w, k + 1));
  }

  /** One chunk of a resend goes out, and the rest of it stays in front. */
  lemma ChunkGoesOut(x: Fixed, w: Sender.World, src: Source, id: i64, r: RequestedRange, rest: seq<WorkItem>, k: nat)
    requires Ready(x, w, src, id) && InRange(r, Count(|src.content|, x.chunkSize - HEADER_LEN))
    ensures CutOf(x, src, id).RetransmitPacket(r.start).Success?
    ensures Turns(x, w, [RetransmitItem(id, r)] + rest, k + 1)
      == Prefixed([CutOf(x, src, id).RetransmitPacket(r.start).value], Turns(x, w,
         (if r.count > 1 then [RetransmitItem(id, RequestedRange(r.start + 1, r.count - 1))] else []) + rest, k))
  {
    hide Count, Sender.Serve, ChunkBytes, Ready, Chunker.Cut.RetransmitPacket, ChunksForSize, Turns;
    ServedChunk(x, w, src, id, r);
    Positive(x, w, src, id);
    TurnOf(x, w, RetransmitItem(id, r), rest, CutOf(x, src, id).RetransmitPacket(r.start).value, k);
  }

  lemma {:induction false} RangeGoesOut(x: Fixed, w: Sender.World, src: Source, id: i64,
      r: RequestedRange, rest: seq<WorkItem>, k: nat)
    requires Ready(x, w, src, id) && InRange(r, Count(|src.content|, x.chunkSize - HEADER_LEN))
    ensures forall i :: 0 <= i < r.count ==> ChunkIds(r)[i] < Count(|src.content|, x.chunkSize - HEADER_LEN)
    ensures Turns(x, w, [RetransmitItem(id, r)] + rest, r.count + k)
      == Prefixed(Retransmits(CutOf(x, src, id), ChunkIds(r)), Turns(x, w, rest, k))
    decreases r.count
  {
    hide Count, Ready, Chunker.Cut.RetransmitPacket, Retransmits, ChunksForSize, Turns, Prefixed;
    ChunkGoesOut(x, w, src, id, r, rest, r.count + k - 1);
    Positive(x, w, src, id);
    var cut := CutOf(x, src, id);
    var p := cut.RetransmitPacket(r.start).value;
    var s := RequestedRange(r.start + 1, r.count - 1);
    assert ChunkIds(r) == [r.start] + ChunkIds(s);
    RetransmitsCons(cut, r.start, ChunkIds(s));
    hide ChunkIds;
    if r.count == 1 {
      assert Retransmits(cut, ChunkIds(s)) == [] && [] + rest == rest && [p] + [] == [p];
    } else {
      RangeGoesOut(x, w, src, id, s, rest, k);
      PrefixedTwice([p], Retransmits(cut, ChunkIds(s)), Turns(x, w, rest, k));
    }
  }

  lemma RetransmitsCons(cut: Cut, c: nat, cs: seq<nat>)
    requires 0 < cut.payloadSize < U32 && Count(|cut.content|, cut.payloadSize) < U32
    requires c < Count(|cut.content|, cut.payloadSize)
    requires forall k :: 0 <= k < |cs| ==> cs[k] < Count(|cut.content|, cut.payloadSize)
    ensures cut.RetransmitPacket(c).Success?
    ensures Retransmits(cut, [c] + cs) == [cut.RetransmitPacket(c).value] + Retransmits(cut, cs)
  {
    hide Count;
    assert ([c] + cs)[1..] == cs;
  }

  lemma Positive(x: Fixed, w: Sender.World, src: Source, id: i64)
    requires Ready(x, w, src, id)
    ensures 0 < CutOf(x, src, id).payloadSize < U32 && Count(|src.content|, CutOf(x, src, id).payloadSize) < U32
  {
    hide Count;
  }

  lemma {:induction false} RetransmitsConcat(cut: Cut, a: seq<nat>, b: seq<nat>)
    requires 0 < cut.payloadSize < U32 && Count(|cut.content|, cut.payloadSize) < U32
    requires forall k :: 0 <= k < |a| ==> a[k] < Count(|cut.content|, cut.payloadSize)
    requires forall k :: 0 <= k < |b| ==> b[k] < Count(|cut.content|, cut.payloadSize)
    ensures Retransmits(cut, a + b) == Retransmits(cut, a) + Retransmits(cut, b)
  {
    hide Count;
    if a == [] {
      assert a + b == b;
    } else {
      assert (a + b)[1..] == a[1..] + b;
      RetransmitsConcat(cut, a[1..], b);
    }
  }

  lemma ResendsSplit(id: i64, ranges: seq<RequestedRange>, rest: seq<WorkItem>)
    requires ranges != []
    ensures Resends(id, ranges) + rest == [RetransmitItem(id, ranges[0])] + (Resends(id, ranges[1..]) + rest)
  {
  }

  lemma {:induction false} RangesGoOut(x: Fixed, w: Sender.World, src: Source, id: i64,
      ranges: seq<RequestedRange>, rest: seq<WorkItem>, k: nat)
    requires Ready(x, w, src, id)
    requires forall i :: 0 <= i < |ranges| ==> InRange(ranges[i], Count(|src.content|, x.chunkSize - HEADER_LEN))
    ensures InCut(src, x.chunkSize - HEADER_LEN, AllChunkIds(ranges))
    ensures Turns(x, w, Resends(id, ranges) + rest, Sum(ranges) + k)
      == Prefixed(Retransmits(CutOf(x, src, id), AllChunkIds(ranges)), Turns(x, w, rest, k))
    decreases |ranges|
  {
    hide Count, Turns, Ready, InRange, Retransmits, ChunkIds, Chunker.Cut.RetransmitPacket, ChunksForSize, Prefixed;
    Positive(x, w, src, id);
    if ranges == [] {
      assert Resends(id, ranges) + rest == rest;
      RetransmitsNone(CutOf(x, src, id));
      PrefixedNone(Turns(x, w, rest, k));
    } else {
      var cut, r := CutOf(x, src, id), ranges[0];
      RangesGoOut(x, w, src, id, ranges[1..], rest, k);
      ResendsSplit(id, ranges, rest);
      RangeGoesOut(x, w, src, id, r, Resends(id, ranges[1..]) + rest, Sum(ranges[1..]) + k);
      RetransmitsConcat(cut, ChunkIds(r), AllChunkIds(ranges[1..]));
      PrefixedTwice(Retransmits(cut, ChunkIds(r)), Retransmits(cut, AllChunkIds(ranges[1..])), Turns(x, w, rest, k));
    }
  }

  lemma RetransmitsNone(cut: Cut)
    requires 0 < cut.payloadSize < U32 && Count(|cut.content|, cut.payloadSize) < U32
    ensures Retransmits(cut, []) == []
  {
  }

  // ---- landing ----

  lemma {:induction false} DepthOfResends(id: i64, ranges: seq<RequestedRange>, rest: seq<WorkItem>)
    ensures Depth(Resends(id, ranges) + rest) == Sum(ranges) + Depth(rest)
  {
    if ranges == [] {
      assert Resends(id, ranges) + rest == rest;
    } else {
      DepthOfResends(id, ranges[1..], rest);
      assert (Resends(id, ranges) + rest)[1..] == Resends(id, ranges[1..]) + rest;
    }
  }

  /** What the requests for one file queue: the gaps, last first, then the name, which was asked for first. */
  function FileItems(src: Source, id: i64, m: Sidecar.Manifest): seq<WorkItem> {
    Resends(id, Reversed(Missing(m.bitmap, m.numChunks))) + NameItems(src, id, m)
  }

  function NameItems(src: Source, id: i64, m: Sidecar.Manifest): seq<WorkItem> {
    if m.name == [] then [ManifestItem(id, src.name)] else []
  }

  function FileKeys(id: i64, m: Sidecar.Manifest): seq<Key> {
    NamePlan(id, Some(m)) + RangePlan(id, Some(m))
  }

  /** The packets those are: the gaps, last first, each ascending, and then the name if that is missing. */
  ghost function FilePackets(x: Fixed, w: Sender.World, src: Source, id: i64, m: Sidecar.Manifest): seq<Packet>
    requires Ready(x, w, src, id) && m.numChunks == Count(|src.content|, x.chunkSize - HEADER_LEN)
  {
    Positive(x, w, src, id);
    GapsInCut(src, x.chunkSize - HEADER_LEN, m);
    Retransmits(CutOf(x, src, id), AllChunkIds(Reversed(Missing(m.bitmap, m.numChunks)))) + NamePackets(x, src, id, m)
  }

  function NamePackets(x: Fixed, src: Source, id: i64, m: Sidecar.Manifest): seq<Packet>
    requires x.chunkSize > HEADER_LEN
  {
    if m.name == [] then [CutOf(x, src, id).ManifestPacket(src.name)] else []
  }

  lemma GapsInCut(src: Source, P: nat, m: Sidecar.Manifest)
    requires P > 0 && m.numChunks == Count(|src.content|, P)
    ensures InCut(src, P, AllChunkIds(Reversed(Missing(m.bitmap, m.numChunks))))
  {
    hide Missing, Count, AllChunkIds, Reversed;
    ReversedSame(Missing(m.bitmap, m.numChunks));
    RangesJustMissing(m, m.numChunks, Reversed(Missing(m.bitmap, m.numChunks)));
  }

  lemma NameHeard(x: Fixed, w: Sender.World, src: Source, id: i64, m: Sidecar.Manifest, plan: seq<Key>,
      items: seq<WorkItem>)
    requires Ready(x, w, src, id)
    ensures Heard(x, NamePlan(id, Some(m)) + plan, items) == Heard(x, plan, NameItems(src, id, m) + items)
  {
    hide Count, Sound;
    var names := NamePlan(id, Some(m));
    if m.name == [] {
      assert (names + plan)[1..] == plan;
      assert RequestItems(x, names[0]) == [ManifestItem(id, src.name)];
    } else {
      assert names + plan == plan && NameItems(src, id, m) + items == items;
    }
  }

  lemma NameServed(x: Fixed, w: Sender.World, src: Source, id: i64, m: Sidecar.Manifest, rest: seq<WorkItem>, k: nat)
    requires Ready(x, w, src, id)
    ensures Turns(x, w, NameItems(src, id, m) + rest, Depth(NameItems(src, id, m)) + k)
      == Prefixed(NamePackets(x, src, id, m), Turns(x, w, rest, k))
  {
    hide Count, Sound, Encode, RateLimiter.FitsBucket, Turns, Prefixed;
    var items := NameItems(src, id, m);
    if m.name == [] {
      assert items[1..] == [] && Depth(items) == 1 + Depth([]);
      TurnOf(x, w, ManifestItem(id, src.name), rest, CutOf(x, src, id).ManifestPacket(src.name), k);
      assert SenderBook.Residue(items[0]) + rest == rest;
    } else {
      assert items + rest == rest;
      PrefixedNone(Turns(x, w, rest, k));
    }
  }

  lemma GapsInRange(m: Sidecar.Manifest)
    ensures var ranges := Missing(m.bitmap, m.numChunks);
      (forall k :: 0 <= k < |ranges| ==> InRange(ranges[k], m.numChunks))
      && forall k :: 0 <= k < |Reversed(ranges)| ==> InRange(Reversed(ranges)[k], m.numChunks)
  {
    var ranges := Missing(m.bitmap, m.numChunks);
    MissingWellSpaced(m.bitmap, m.numChunks, 0);
    hide MissingFrom, IsSet, Reversed;
    ReversedSame(ranges);
    assert forall k :: 0 <= k < |ranges| ==> InRange(ranges[k], m.numChunks);
    forall k | 0 <= k < |Reversed(ranges)| ensures InRange(Reversed(ranges)[k], m.numChunks) {
      assert Reversed(ranges)[k] in Reversed(ranges);
    }
  }

  /** What the sender makes of the requests for one file, in front of what it holds. */
  lemma FileQueued(x: Fixed, w: Sender.World, src: Source, id: i64, m: Sidecar.Manifest, items: seq<WorkItem>)
    requires Ready(x, w, src, id) && m.numChunks == Count(|src.content|, x.chunkSize - HEADER_LEN)
    ensures Heard(x, FileKeys(id, m), items) == FileItems(src, id, m) + items
  {
    var ranges := Missing(m.bitmap, m.numChunks);
    GapsInRange(m);
    hide Count, Missing, Ready, Heard, NamePlan, NameItems, Reversed, InRange;
    NameHeard(x, w, src, id, m, Gaps(id, ranges), items);
    GapsQueued(x, w, src, id, ranges, NameItems(src, id, m) + items);
    assert Resends(id, Reversed(ranges)) + (NameItems(src, id, m) + items) == FileItems(src, id, m) + items;
  }

  lemma FileServed(x: Fixed, w: Sender.World, src: Source, id: i64, m: Sidecar.Manifest, rest: seq<WorkItem>, k: nat)
    requires Ready(x, w, src, id) && m.numChunks == Count(|src.content|, x.chunkSize - HEADER_LEN)
    ensures Turns(x, w, FileItems(src, id, m) + rest, Depth(FileItems(src, id, m)) + k)
      == Prefixed(FilePackets(x, w, src, id, m), Turns(x, w, rest, k))
  {
    hide Count, Missing, Turns, Retransmits, AllChunkIds, NameItems, Depth, Reversed, Ready, Prefixed;
    var ranges, names := Missing(m.bitmap, m.numChunks), NameItems(src, id, m);
    Positive(x, w, src, id);
    GapsInRange(m);
    GapsInCut(src, x.chunkSize - HEADER_LEN, m);
    hide InRange;
    DepthOfResends(id, Reversed(ranges), names);
    assert Resends(id, Reversed(ranges)) + (names + rest) == FileItems(src, id, m) + rest;
    RangesGoOut(x, w, src, id, Reversed(ranges), names + rest, Depth(names) + k);
    NameServed(x, w, src, id, m, rest, k);
    PrefixedTwice(Retransmits(CutOf(x, src, id), AllChunkIds(Reversed(ranges))), NamePackets(x, src, id, m), Turns(x,
        w, rest, k));
  }

  // ---- what one file's packets do ----

  /** Hears and serves a file's requests: the file lands if something of it is missing, and else nothing is sent. */
  lemma FileComesDown(x: Fixed, w: Sender.World, src: Source, id: i64, g: Ground)
    requires Ready(x, w, src, id) && GroundPath(src.name) != []
    requires g.At(id).manifest.Some? && Belongs(src, x.chunkSize - HEADER_LEN, g.At(id))
    ensures var m, n := g.At(id).manifest.value, Count(|src.content|, x.chunkSize - HEADER_LEN);
      var ps := FilePackets(x, w, src, id, m);
      && (Measure(n, g.At(id)) > 0 ==> Recovery.Landed(src, id, g, DeliverAll(g, ps)))
      && (Measure(n, g.At(id)) == 0 ==> ps == [])
  {
    var P, m := x.chunkSize - HEADER_LEN, g.At(id).manifest.value;
    assert m.numChunks == Count(|src.content|, P) && Sound(src) && P in src.sizes && src.name != [];
    hide Count, Missing, Retransmits, AllChunkIds, DeliverAll, GroundPath, CompletesAtLast, Measure, Recovery.Landed;
    hide Belongs, CutAt, Reversed, Ready;
    var ranges := Reversed(Missing(m.bitmap, m.numChunks));
    Positive(x, w, src, id);
    GapsInCut(src, P, m);
    if Measure(m.numChunks, g.At(id)) > 0 {
      ReversedSame(Missing(m.bitmap, m.numChunks));
      PassCompletes(src, P, id, g.At(id), ranges);
      PassIsCut(src, P, id, AllChunkIds(ranges), m.name == []);
      assert Consistent(src, g.At(id)) by { BelongsConsistent(src, P, g.At(id)); }
      CompletingRunLands(src, P, id, g, FilePackets(x, w, src, id, m));
    } else {
      NothingMissing(src, P, id, g.At(id));
      NoGapsNoPackets(CutOf(x, src, id), m);
    }
  }

  /** There is nothing to ask for when nothing is missing. */
  lemma NothingMissing(src: Source, P: nat, id: i64, a: Assembly)
    requires Sound(src) && P in src.sizes && Belongs(src, P, a) && a.manifest.Some?
    requires Measure(Count(|src.content|, P), a) == 0
    ensures a.manifest.value.name != [] && Missing(a.manifest.value.bitmap, a.manifest.value.numChunks) == []
  {
    hide IsSet, CountMissing, Missing, Count, Agrees;
    var m := a.manifest.value;
    BelongsAgrees(src, P, a);
    AgreesSized(src, P, m, Contents(a.data));
    BitmapAgreement(m.bitmap, m.numChunks);
  }

  lemma NoGapsNoPackets(cut: Cut, m: Sidecar.Manifest)
    requires 0 < cut.payloadSize < U32 && Count(|cut.content|, cut.payloadSize) < U32
    requires Missing(m.bitmap, m.numChunks) == []
    ensures AllChunkIds(Reversed(Missing(m.bitmap, m.numChunks))) == []
    ensures Retransmits(cut, AllChunkIds(Reversed(Missing(m.bitmap, m.numChunks)))) == []
  {
    hide Missing;
  }

  lemma BelongsConsistent(src: Source, P: nat, a: Assembly)
    requires Sound(src) && P in src.sizes && Belongs(src, P, a)
    ensures Consistent(src, a)
  {
    hide Consistent, Count;
  }

  lemma PassCompletes(src: Source, P: nat, id: i64, a: Assembly, ranges: seq<RequestedRange>)
    requires Sound(src) && P in src.sizes && src.name != [] && Belongs(src, P, a) && a.manifest.Some?
    requires Measure(Count(|src.content|, P), a) > 0
    requires multiset(ranges) == multiset(Missing(a.manifest.value.bitmap, Count(|src.content|, P)))
    ensures InCut(src, P, AllChunkIds(ranges))
    ensures CompletesAtLast(a, Retransmits(Cut(src.content, id, P), AllChunkIds(ranges))
      + if a.manifest.value.name == [] then [Cut(src.content, id, P).ManifestPacket(src.name)] else [])
  {
    hide Count, Missing, Retransmits, AllChunkIds, CompletesAtLast, Measure, Belongs;
    if a.manifest.value.name == [] {
      UnnamedPass(src, P, id, a, ranges);
    } else {
      NamedRound(src, P, id, a, ranges);
      var ps := Retransmits(Cut(src.content, id, P), AllChunkIds(ranges));
      assert ps + [] == ps;
    }
  }

  lemma UnnamedPass(src: Source, P: nat, id: i64, a: Assembly, ranges: seq<RequestedRange>)
    requires Sound(src) && P in src.sizes && src.name != [] && Belongs(src, P, a)
    requires a.manifest.Some? && a.manifest.value.name == []
    requires multiset(ranges) == multiset(Missing(a.manifest.value.bitmap, Count(|src.content|, P)))
    ensures InCut(src, P, AllChunkIds(ranges))
    ensures CompletesAtLast(a, Retransmits(Cut(src.content, id, P), AllChunkIds(ranges))
      + [Cut(src.content, id, P).ManifestPacket(src.name)])
  {
    hide Count, Missing, Retransmits, AllChunkIds, CompletesAtLast, Measure, Belongs, IsSet, CountMissing;
    var cs, cut := AllChunkIds(ranges), Cut(src.content, id, P);
    RangesJustMissing(a.manifest.value, Count(|src.content|, P), ranges);
    CountBounds(|src.content|, P);
    if a.manifest.value.payloadSize == 0 && Count(|src.content|, P) > 1 { UnsizedStart(src, P, a, ranges); }
    AnywhereCompletes(src, P, id, a, cs, |cs|);
    RetransmitsNone(cut);
    assert cs[..|cs|] == cs && cs[|cs|..] == [];
    assert RoundAt(src, P, id, cs, |cs|) == Retransmits(cut, cs) + [cut.ManifestPacket(src.name)];
  }

  lemma PassIsCut(src: Source, P: nat, id: i64, cs: seq<nat>, name: bool)
    requires Sound(src) && P in src.sizes && InCut(src, P, cs)
    ensures var ps := Retransmits(Cut(src.content, id, P), cs)
                      + if name then [Cut(src.content, id, P).ManifestPacket(src.name)] else [];
      OfFile(src, P, id, ps)
  {
    hide Count;
    forall k | 0 <= k < |cs| ensures CutAt(src, P, Cut(src.content, id, P).RetransmitPacket(cs[k]).value) {
      RetransmitCut(src, P, id, cs[k]);
    }
  }

  // ---- every file in flight ----

  /** The file is under way on the ground and the sender can serve it. */
  ghost predicate FileReady(x: Fixed, w: Sender.World, cat: Catalog, id: i64, g: Ground) {
    && id in cat && Ready(x, w, cat[id], id) && GroundPath(cat[id].name) != []
    && g.At(id).manifest.Some? && Belongs(cat[id], x.chunkSize - HEADER_LEN, g.At(id))
  }

  lemma ReadyCount(x: Fixed, w: Sender.World, cat: Catalog, id: i64, g: Ground)
    requires FileReady(x, w, cat, id, g)
    ensures g.At(id).manifest.value.numChunks == Count(|cat[id].content|, x.chunkSize - HEADER_LEN)
  {
    hide Count, Consistent, Sound;
  }

  ghost predicate AllReady(x: Fixed, w: Sender.World, cat: Catalog, ids: seq<i64>, g: Ground) {
    forall k :: 0 <= k < |ids| ==> FileReady(x, w, cat, ids[k], g)
  }

  ghost predicate Ascending(ids: seq<i64>) {
    forall k, l :: 0 <= k < l < |ids| ==> ids[k] < ids[l]
  }

  /** No two of the files have the same landing place. */
  ghost predicate OwnPlaces(cat: Catalog, ids: seq<i64>)
    requires forall k :: 0 <= k < |ids| ==> ids[k] in cat
  {
    forall k, l :: 0 <= k < l < |ids| ==> GroundPath(cat[ids[k]].name) != GroundPath(cat[ids[l]].name)
  }

  /** A later file's requests cut in before an earlier one's. */
  ghost function QueueFor(x: Fixed, w: Sender.World, cat: Catalog, ids: seq<i64>, g: Ground): seq<WorkItem>
    requires AllReady(x, w, cat, ids, g)
  {
    if ids == [] then []
    else
      var front, id := ids[..|ids| - 1], ids[|ids| - 1];
      assert FileReady(x, w, cat, id, g);
      FileItems(cat[id], id, g.At(id).manifest.value) + QueueFor(x, w, cat, front, g)
  }

  ghost function PacketsFor(x: Fixed, w: Sender.World, cat: Catalog, ids: seq<i64>, g: Ground): seq<Packet>
    requires AllReady(x, w, cat, ids, g)
  {
    if ids == [] then []
    else
      var front, id := ids[..|ids| - 1], ids[|ids| - 1];
      assert FileReady(x, w, cat, id, g);
      FilePackets(x, w, cat[id], id, g.At(id).manifest.value) + PacketsFor(x, w, cat, front, g)
  }

  lemma PlanOfLast(g: Ground, ids: seq<i64>)
    requires ids != [] && g.At(ids[|ids| - 1]).manifest.Some?
    ensures var front, id := ids[..|ids| - 1], ids[|ids| - 1];
      Plan(Looks(g, ids)) == Plan(Looks(g, front)) + FileKeys(id, g.At(id).manifest.value)
  {
    hide NamePlan, RangePlan;
    var front, id := ids[..|ids| - 1], ids[|ids| - 1];
    var rs := Readings(Looks(g, ids));
    assert rs[..|ids| - 1] == Readings(Looks(g, front));
    var m := g.At(id).manifest;
    assert rs[|ids| - 1] == Reading(id, m, m) && m == Some(m.value);
    assert PlanFor(rs) == PlanFor(rs[..|ids| - 1]) + NamePlan(id, m) + RangePlan(id, m);
  }

  /** The plan for all of them, heard. */
  lemma {:induction false} PlanQueued(x: Fixed, w: Sender.World, cat: Catalog, ids: seq<i64>, g: Ground)
    requires AllReady(x, w, cat, ids, g) && x.chunkSize >= 64
    ensures Heard(x, Plan(Looks(g, ids)), []) == QueueFor(x, w, cat, ids, g)
    decreases |ids|
  {
    hide Ready, FileItems, FileKeys, Heard, Count, Belongs;
    if ids == [] {
      NoPlan(x, g, ids);
    } else {
      var front, id := ids[..|ids| - 1], ids[|ids| - 1];
      assert FileReady(x, w, cat, id, g);
      PlanQueued(x, w, cat, front, g);
      PlanOfLast(g, ids);
      var m := g.At(id).manifest.value;
      HeardInTurn(x, Plan(Looks(g, front)), FileKeys(id, m), []);
      ReadyCount(x, w, cat, id, g);
      FileQueued(x, w, cat[id], id, m, QueueFor(x, w, cat, front, g));
    }
  }

  lemma NoPlan(x: Fixed, g: Ground, ids: seq<i64>)
    requires ids == [] && x.chunkSize >= 64
    ensures Heard(x, Plan(Looks(g, ids)), []) == []
  {
  }

  /** Served to the end, that queue puts these packets on the link. */
  lemma {:induction false} QueueServed(x: Fixed, w: Sender.World, cat: Catalog, ids: seq<i64>, g: Ground)
    requires AllReady(x, w, cat, ids, g)
    ensures var items := QueueFor(x, w, cat, ids, g);
      Turns(x, w, items, Depth(items)) == Ran(PacketsFor(x, w, cat, ids, g), [], Going)
    decreases |ids|
  {
    hide Ready, FileItems, FilePackets, Count, Depth, Turns, Prefixed;
    if ids == [] {
      NoTurnsAtAll(x, w);
    } else {
      var front, id := ids[..|ids| - 1], ids[|ids| - 1];
      assert FileReady(x, w, cat, id, g);
      QueueServed(x, w, cat, front, g);
      var m, rest := g.At(id).manifest.value, QueueFor(x, w, cat, front, g);
      DepthConcat(FileItems(cat[id], id, m), rest);
      FileServed(x, w, cat[id], id, m, rest, Depth(rest));
      PrefixedIs(FilePackets(x, w, cat[id], id, m), Turns(x, w, rest, Depth(rest)));
    }
  }

  lemma NoTurnsAtAll(x: Fixed, w: Sender.World)
    ensures Turns(x, w, [], Depth([])) == Ran([], [], Going)
  {
  }

  lemma {:induction false} DepthConcat(a: seq<WorkItem>, b: seq<WorkItem>)
    ensures Depth(a + b) == Depth(a) + Depth(b)
  {
    if a == [] {
      assert a + b == b;
    } else {
      assert (a + b)[1..] == a[1..] + b;
      DepthConcat(a[1..], b);
    }
  }

  lemma {:induction false} DeliverInTurn(g: Ground, a: seq<Packet>, b: seq<Packet>)
    ensures DeliverAll(g, a + b) == DeliverAll(DeliverAll(g, a), b)
    decreases |a|
  {
    hide Deliver;
    if a == [] {
      assert a + b == b;
    } else {
      assert (a + b)[1..] == a[1..] + b;
      DeliverInTurn(Deliver(g, a[0]), a[1..], b);
    }
  }

  /** Something of the file is missing. */
  ghost predicate Lacking(x: Fixed, cat: Catalog, id: i64, g: Ground)
    requires x.chunkSize > HEADER_LEN
  {
    id in cat && Measure(Count(|cat[id].content|, x.chunkSize - HEADER_LEN), g.At(id)) > 0
  }

  /** The final directory once every lacking file among these has landed, the last first. */
  ghost function LandedAll(x: Fixed, cat: Catalog, ids: seq<i64>, g: Ground, finals: map<Path, bytes>): map<Path, bytes>
    requires x.chunkSize > HEADER_LEN
  {
    if ids == [] then finals
    else
      var front, id := ids[..|ids| - 1], ids[|ids| - 1];
      LandedAll(x, cat, front, g,
        if Lacking(x, cat, id, g) then finals[GroundPath(cat[id].name) := cat[id].content] else finals)
  }

  /** Those packets land every lacking file, one after another, and touch nothing else. */
  lemma {:induction false} AllComeDown(x: Fixed, w: Sender.World, cat: Catalog, ids: seq<i64>, g0: Ground, g: Ground)
    requires x.chunkSize > HEADER_LEN && AllReady(x, w, cat, ids, g0) && Ascending(ids)
    requires forall k :: 0 <= k < |ids| ==> g.At(ids[k]) == g0.At(ids[k])
    ensures var g' := DeliverAll(g, PacketsFor(x, w, cat, ids, g0));
      && g'.finals == LandedAll(x, cat, ids, g0, g.finals)
      && forall id: i64 :: g'.At(id) == if id in ids && Lacking(x, cat, id, g0) then NOTHING else g.At(id)
    decreases |ids|
  {
    hide Ready, FilePackets, Count, DeliverAll, GroundPath, Measure, Belongs;
    if ids == [] {
      NoneDelivered(g);
    } else {
      var front, id := ids[..|ids| - 1], ids[|ids| - 1];
      assert FileReady(x, w, cat, id, g0);
      ReadyCount(x, w, cat, id, g0);
      var ps := FilePackets(x, w, cat[id], id, g0.At(id).manifest.value);
      FileComesDown(x, w, cat[id], id, g);
      var g1 := DeliverAll(g, ps);
      if !Lacking(x, cat, id, g0) { NoneDelivered(g); }
      assert ids == front + [id];
      AllComeDown(x, w, cat, front, g0, g1);
      DeliverInTurn(g, ps, PacketsFor(x, w, cat, front, g0));
    }
  }

  lemma NoneDelivered(g: Ground)
    ensures DeliverAll(g, []) == g
  {
  }

  /** A landing place of none of these files is left alone. */
  lemma {:induction false} OtherPlaces(x: Fixed, cat: Catalog, ids: seq<i64>, g: Ground, finals: map<Path, bytes>,
      path: Path)
    requires x.chunkSize > HEADER_LEN && forall k :: 0 <= k < |ids| ==> ids[k] in cat
    requires forall k :: 0 <= k < |ids| ==> path != GroundPath(cat[ids[k]].name)
    ensures SamePlace(path, finals, LandedAll(x, cat, ids, g, finals))
    decreases |ids|
  {
    hide GroundPath, Lacking;
    if ids != [] {
      var front, id := ids[..|ids| - 1], ids[|ids| - 1];
      OtherPlaces(x, cat, front, g,
        if Lacking(x, cat, id, g) then finals[GroundPath(cat[id].name) := cat[id].content] else finals, path);
    }
  }

  ghost predicate SamePlace(path: Path, a: map<Path, bytes>, b: map<Path, bytes>) {
    (path in a <==> path in b) && (path in a ==> a[path] == b[path])
  }

  /** With places of their own, each lacking file is found at its place, and the others leave theirs as it was. */
  lemma {:induction false} EachAtItsPlace(x: Fixed, cat: Catalog, ids: seq<i64>, g: Ground, finals: map<Path, bytes>,
      k: nat)
    requires x.chunkSize > HEADER_LEN && k < |ids| && (forall i :: 0 <= i < |ids| ==> ids[i] in cat)
    requires OwnPlaces(cat, ids)
    ensures var path, after := GroundPath(cat[ids[k]].name), LandedAll(x, cat, ids, g, finals);
      if Lacking(x, cat, ids[k], g) then path in after && after[path] == cat[ids[k]].content
      else SamePlace(path, finals, after)
    decreases |ids|
  {
    hide GroundPath, Lacking;
    var front, id := ids[..|ids| - 1], ids[|ids| - 1];
    var next := if Lacking(x, cat, id, g) then finals[GroundPath(cat[id].name) := cat[id].content] else finals;
    if k == |ids| - 1 {
      OtherPlaces(x, cat, front, g, next, GroundPath(cat[id].name));
    } else {
      EachAtItsPlace(x, cat, front, g, next, k);
    }
  }

  // ---- the pass ----

  /** With an empty queue the sender's status holds no request back. */
  lemma NothingPending(key: Key)
    ensures !IsAlreadyPending(Some(Snapshot([])), key)
  {
  }

  lemma PassAsksAll(g: Ground, ids: seq<i64>, entries: Entries, now: real, reaches: bool, script: nat -> Tick,
      budget: Budget, ttl: real)
    requires Ascending(ids) && Forgotten(Plan(Looks(g, ids)), entries, now, script, budget)
    ensures KeysOf(CallsOf(g, [], ids, Begin(entries, now, reaches), script, budget, ttl)) == Plan(Looks(g, ids))
  {
    hide AskFrom, PlanFor, Live, IsAlreadyPending;
    var plan := Plan(Looks(g, ids));
    forall k | 0 <= k < |plan| ensures !IsAlreadyPending(Some(Snapshot([])), plan[k]) { NothingPending(plan[k]); }
    UnhinderedPassAsksAll(entries, now, reaches, Readings(Looks(g, ids)), script, Some(Snapshot([])), budget, ttl);
  }

  lemma ReadyIsReadable(x: Fixed, w: Sender.World, cat: Catalog, ids: seq<i64>, g: Ground)
    requires AllReady(x, w, cat, ids, g) && Ascending(ids)
    ensures ReadableAll(g, ids)
  {
    hide Belongs, GroundPath;
    forall k | 0 <= k < |ids| ensures Countable31(g.At(ids[k]).manifest) {
      assert FileReady(x, w, cat, ids[k], g);
      ReadyCount(x, w, cat, ids[k], g);
    }
  }

  /** A file with something missing is at its landing place, whole, and no longer held; any other is as it was. */
  ghost predicate Settles(x: Fixed, cat: Catalog, id: i64, g: Ground, g': Ground)
    requires x.chunkSize > HEADER_LEN && id in cat
  {
    var path := GroundPath(cat[id].name);
    if Lacking(x, cat, id, g) then path in g'.finals && g'.finals[path] == cat[id].content && g'.At(id) == NOTHING
    else g'.At(id) == g.At(id) && SamePlace(path, g.finals, g'.finals)
  }

  /**
   One pass of the cleaner over every file in flight, with nothing queued, nothing remembered, the
   budget wide enough and every request heard and acknowledged: it is a run of the closed loop. The
   sender's loop then serves the queue that run leaves to the end, and goes on. The
   files that land are exactly those of which a chunk or the name is missing, each byte for byte;
   those complete already (power lost just before landing) stay as they are; nothing else changes.
   */
  lemma PassBringsAllDown(x: Fixed, w: Sender.World, cat: Catalog, ids: seq<i64>, g: Ground, entries: Entries,
      now: real, reaches: bool, script: nat -> Tick, hears: Key -> bool, budget: Budget, ttl: real)
    requires x.chunkSize >= 64 && AllReady(x, w, cat, ids, g) && Ascending(ids) && OwnPlaces(cat, ids)
    requires forall key :: hears(key)
    requires Forgotten(Plan(Looks(g, ids)), entries, now, script, budget)
    ensures var s, start := Loop([], g, Idle, []), Begin(entries, now, reaches);
      var es := PassEvents(g, [], ids, start, script, hears, budget, ttl);
      var queue := RunLoop(x, s, es).items;
      var r := Turns(x, w, queue, Depth(queue));
      var g' := DeliverAll(g, r.sent);
      && EnabledRun(x, s, es) && KeysOf(CallsOf(g, [], ids, start, script, budget, ttl)) == Plan(Looks(g, ids))
      && r.items == [] && r.end == Going
      && (forall k :: 0 <= k < |ids| ==> Settles(x, cat, ids[k], g, g'))
      && (forall id: i64 :: id !in ids ==> g'.At(id) == g.At(id))
      && forall path :: (forall k :: 0 <= k < |ids| ==> path != GroundPath(cat[ids[k]].name))
           ==> SamePlace(path, g.finals, g'.finals)
  {
    hide Ready, Belongs, GroundPath, Lacking, SamePlace, CallsOf, Heard, Depth, Turns, Plan, DeliverAll, Forgotten;
    hide LandedAll, PacketsFor, QueueFor, RunLoop, EnabledRun, PassEvents, Looks;
    ReadyIsReadable(x, w, cat, ids, g);
    PassIsLoop(x, g, [], ids, Begin(entries, now, reaches), script, hears, budget, ttl);
    hide Ascending, ReadableAll;
    assert forall k :: 0 <= k < |ids| ==> FileReady(x, w, cat, ids[k], g);
    PassAsksAll(g, ids, entries, now, reaches, script, budget, ttl);
    AllHeard(CallsOf(g, [], ids, Begin(entries, now, reaches), script, budget, ttl), hears);
    PlanQueued(x, w, cat, ids, g);
    QueueServed(x, w, cat, ids, g);
    AllComeDown(x, w, cat, ids, g, g);
    forall k | 0 <= k < |ids| ensures Settles(x, cat, ids[k], g, DeliverAll(g, PacketsFor(x, w, cat, ids, g))) {
      EachAtItsPlace(x, cat, ids, g, g.finals, k);
    }
    forall path | forall k :: 0 <= k < |ids| ==> path != GroundPath(cat[ids[k]].name)
      ensures SamePlace(path, g.finals, LandedAll(x, cat, ids, g, g.finals))
    {
      OtherPlaces(x, cat, ids, g, g.finals, path);
    }
  }
}
