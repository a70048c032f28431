/**
 Power cuts when a saved sidecar need not have reached the disk (`save` of reassembler.rs renames
 without syncing the directory): after a cut, any sidecar the file has had since its assembly was
 begun, or none, may be found beside newer data. The safety claim of `Delivery` still holds,
 because no packet ever spoils a byte that an older sidecar vouches for.
 */
module Lagging {
  import opened Wrappers
  import opened Bytes
  import opened Bitmaps
  import opened Sidecar
  import opened Packets
  import GroundPaths
  import opened Reassembly
  import opened Delivery

  type Vouch = Option<Sidecar.Manifest>

  /** The ground as the running receiver sees it, and per file the sidecars a power cut may bring back. */
  datatype Disk = Disk(ground: Ground, older: map<i64, set<Vouch>>)
  {
    function Older(id: i64): set<Vouch> {
      if id in older then older[id] else {}
    }
  }

  /** `lags` tells which sidecars of other files the cut brings back. */
  datatype Happening = Arrives(d: bytes) | PowerLost(p: Packet, left: Assembly, lags: map<i64, Vouch>)

  /** The durable states a file goes through in one ingest, from the one it was in. */
  function Trail(a: Assembly, p: Packet): seq<Assembly> {
    [a] + Ingest(a, p).trail
  }

  /** The data file a cut at step `i` may leave: synced, or torn while it changes. */
  ghost predicate DataAt(trail: seq<Assembly>, i: nat, data: Option<bytes>)
    requires i < |trail|
  {
    data == trail[i].data
    || (i + 1 < |trail| && TornBetween(trail[i], trail[i + 1], Assembly(trail[i].manifest, data)))
  }

  /** A sidecar from before the ingest, or one saved up to step `i` of it. */
  ghost predicate SidecarAt(trail: seq<Assembly>, older: set<Vouch>, i: nat, m: Vouch)
    requires i < |trail|
  {
    m in older || exists j :: 0 <= j <= i && m == trail[j].manifest
  }

  ghost predicate MayLag(a: Assembly, older: set<Vouch>, p: Packet, left: Assembly) {
    exists i :: 0 <= i < |Trail(a, p)| && DataAt(Trail(a, p), i, left.data)
      && SidecarAt(Trail(a, p), older, i, left.manifest)
  }

  /** Every cut of the machine in `Delivery` is one of these. */
  lemma MayRemainMayLag(a: Assembly, older: set<Vouch>, p: Packet, left: Assembly)
    requires MayRemain(a, p, left)
    ensures MayLag(a, older, p, left)
  {
    hide Ingest, Torn;
    var trail := Trail(a, p);
    if left in trail {
      var i :| 0 <= i < |trail| && trail[i] == left;
      assert DataAt(trail, i, left.data) && SidecarAt(trail, older, i, left.manifest);
    } else {
      var i :| 0 <= i < |trail| - 1 && TornBetween(trail[i], trail[i + 1], left);
      assert left == Assembly(trail[i].manifest, left.data);
      assert DataAt(trail, i, left.data) && SidecarAt(trail, older, i, left.manifest);
    }
  }

  ghost predicate CanHappen(s: Disk, h: Happening) {
    match h
    case Arrives(_) => true
    case PowerLost(p, left, lags) =>
      && MayLag(s.ground.At(p.fileId), s.Older(p.fileId), p, left)
      && forall id :: id in lags ==> id in s.ground.assemblies && lags[id] in s.Older(id)
  }

  function Vouches(trail: seq<Assembly>): set<Vouch> {
    set a | a in trail :: a.manifest
  }

  /** One packet; landing a file, or having nothing of it, leaves no older sidecar behind. */
  function Take(s: Disk, p: Packet): Disk {
    var g, id := Deliver(s.ground, p), p.fileId;
    Disk(g, s.older[id := if g.At(id) == NOTHING then {}
                          else s.Older(id) + Vouches(Trail(s.ground.At(id), p))])
  }

  function Lagged(assemblies: map<i64, Assembly>, lags: map<i64, Vouch>): map<i64, Assembly> {
    map id | id in assemblies :: if id in lags then assemblies[id].(manifest := lags[id]) else assemblies[id]
  }

  /** After a cut what is found is what there is. */
  function Following(s: Disk, h: Happening): Disk {
    match h
    case Arrives(d) => (match Decode(d) case Failure(_) => s case Success(p) => Take(s, p))
    case PowerLost(p, left, lags) =>
      Disk(s.ground.(assemblies := Lagged(s.ground.assemblies, lags)[p.fileId := left]), map[])
  }

  ghost predicate OverLink(cat: Catalog, h: Happening)
    requires SoundCatalog(cat)
  {
    match h
    case Arrives(d) => Decode(d).Success? ==> Sent(cat, Decode(d).value)
    case PowerLost(p, _, _) => Sent(cat, p)
  }

  // ---- data only gets better ----

  /** The data file of `b` is right wherever that of `a` was. */
  ghost predicate Better(src: Source, a: Assembly, b: Assembly) {
    && NoWorse(src.content, Contents(a.data), Contents(b.data)) && |Contents(b.data)| <= |src.content|
    && (a.data.Some? ==> b.data.Some?)
  }

  ghost predicate Improves(src: Source, trail: seq<Assembly>) {
    forall i, j :: 0 <= i <= j < |trail| ==> Better(src, trail[i], trail[j])
  }

  /** A sidecar stays true of better data. */
  lemma OlderStays(src: Source, m: Vouch, x: Assembly, y: Assembly)
    requires Sound(src) && Consistent(src, Assembly(m, x.data)) && Better(src, x, y)
    ensures Consistent(src, Assembly(m, y.data))
  {
    hide Agrees, NoWorse;
    if m.Some? {
      var P :| P in src.sizes && Agrees(src, P, m.value, Contents(x.data));
      AgreesStays(src, P, m.value, Contents(x.data), Contents(y.data));
    }
  }

  lemma SelfNoWorse(content: bytes, d: bytes)
    ensures NoWorse(content, d, d)
  {
  }

  /** The data file as it was, an empty one where there was none, or the one with the chunk written. */
  ghost predicate OneOf(data: Option<bytes>, w: bytes, b: Assembly) {
    b.data == data || b.data == Some(Contents(data)) || b.data == Some(w)
  }

  /** Through the steps of an ingest the data file only ever goes from the first of these to the last. */
  ghost predicate InSteps(data: Option<bytes>, w: bytes, trail: seq<Assembly>) {
    && (forall i :: 0 <= i < |trail| ==> OneOf(data, w, trail[i]))
    && forall i, j :: 0 <= i <= j < |trail| ==>
         trail[i].data == trail[j].data || trail[j].data == Some(w)
         || (trail[i].data == data && trail[j].data == Some(Contents(data)))
  }

  lemma StoredInSteps(m: Sidecar.Manifest, data: Option<bytes>, p: Packet, w: bytes)
    requires Placed(m.payloadSize, p, Contents(data)) == Written(m.payloadSize, p, Contents(data)) == w
    ensures var st := StoreChunk(m, data, p);
      st.trail != [] && st.next.data == Some(w) && st.trail[0].data == Some(Contents(data))
      && forall i :: 0 < i < |st.trail| ==> st.trail[i].data == Some(w)
  {
    hide Written, Placed, Marked, Sidecar.Manifest.Complete;
  }

  /** First the files as they were found, then an empty data file if there was none, then the chunk written. */
  lemma ChunkInSteps(a: Assembly, p: Packet, w: bytes)
    requires Writes(a.manifest, p) && (a.manifest.Some? || !Tail(p))
    requires var m, d := Sizing(a.manifest, p), Contents(a.data);
      Placed(m.payloadSize, p, d) == Written(m.payloadSize, p, d) == w
    ensures InSteps(a.data, w, [a] + IngestChunk(a, p).trail)
    ensures IngestChunk(a, p).next.data == Some(w)
  {
    hide Written, Placed, Sizing, StoreChunk, InSteps, Tail;
    var m := Sizing(a.manifest, p);
    StoredInSteps(m, a.data, p, w);
    var st, sized := StoreChunk(m, a.data, p), Assembly(Some(m), a.data);
    var created := if a.manifest.None? then [sized] else [];
    var patched := if (if a.manifest.None? then m else a.manifest.value).payloadSize == 0 then [sized] else [];
    SplitInSteps(a.data, w, [a] + created + patched, st.trail);
    assert [a] + IngestChunk(a, p).trail == [a] + created + patched + st.trail;
  }

  lemma SplitInSteps(data: Option<bytes>, w: bytes, early: seq<Assembly>, late: seq<Assembly>)
    requires forall i :: 0 <= i < |early| ==> early[i].data == data
    requires late != [] && late[0].data == Some(Contents(data))
    requires forall i :: 0 < i < |late| ==> late[i].data == Some(w)
    ensures InSteps(data, w, early + late)
  {
    var trail := early + late;
    assert forall i :: |early| < i < |trail| ==> trail[i] == late[i - |early|];
  }

  lemma NameInSteps(a: Assembly, p: Packet, w: bytes)
    ensures var trail := [a] + IngestManifest(a, p).trail;
      InSteps(a.data, w, trail) && IngestManifest(a, p).next.data == a.data == trail[|trail| - 1].data
  {
    hide Sidecar.Manifest.Complete;
    var trail := [a] + IngestManifest(a, p).trail;
    assert forall i :: 0 <= i < |trail| ==> trail[i].data == a.data;
  }

  lemma StepsImprove(src: Source, data: Option<bytes>, w: bytes, trail: seq<Assembly>)
    requires InSteps(data, w, trail) && NoWorse(src.content, Contents(data), w)
    requires |Contents(data)| <= |src.content| && |w| <= |src.content|
    ensures Improves(src, trail)
  {
    SelfNoWorse(src.content, Contents(data));
    SelfNoWorse(src.content, w);
    hide NoWorse;
  }

  lemma WriteImproves(src: Source, P: nat, a: Assembly, p: Packet)
    requires Sound(src) && P in src.sizes && CutAt(src, P, p) && Consistent(src, a)
    requires (p.ptype.Data? || p.ptype.Retransmit?) && Writes(a.manifest, p)
    ensures Improves(src, [a] + IngestChunk(a, p).trail)
    ensures var trail := [a] + IngestChunk(a, p).trail; trail[|trail| - 1].data == IngestChunk(a, p).next.data
  {
    PacketOfCut(src, P, p);
    WritesTold(a.manifest, p);
    if a.manifest.Some? {
      var Q :| Q in src.sizes && Agrees(src, Q, a.manifest.value, Contents(a.data));
      SameCut(src, Q, P, a.manifest.value, Contents(a.data));
    }
    hide Agrees, IngestChunk, CutAt, Sound, NoWorse, Improves, InSteps, Sizing, Written, Placed, Tail, Writes;
    SizingAgrees(src, P, a, p);
    PlacedChunk(src, P, Sizing(a.manifest, p), Contents(a.data), p);
    var w := Written(Sizing(a.manifest, p).payloadSize, p, Contents(a.data));
    ChunkInSteps(a, p, w);
    StepsImprove(src, a.data, w, [a] + IngestChunk(a, p).trail);
    EndsStored(a, p);
  }

  lemma WritesTold(m: Vouch, p: Packet)
    requires Writes(m, p)
    ensures m.Some? || !Tail(p)
    ensures m.Some? ==> m.value.numChunks == p.numChunks
  {
  }

  lemma EndsStored(a: Assembly, p: Packet)
    requires Writes(a.manifest, p) && (a.manifest.Some? || !Tail(p))
    ensures var st := IngestChunk(a, p); st.trail != [] && st.trail[|st.trail| - 1].data == st.next.data
  {
    hide Written, Placed, Marked, Sidecar.Manifest.Complete, Sizing;
  }

  /** From each durable step of an ingest to every later one, the data file only gets better. */
  lemma IngestImproves(src: Source, P: nat, a: Assembly, p: Packet)
    requires Sound(src) && P in src.sizes && CutAt(src, P, p) && Consistent(src, a)
    ensures Improves(src, Trail(a, p)) && Trail(a, p)[|Trail(a, p)| - 1].data == Ingest(a, p).next.data
  {
    hide Agrees, IngestChunk, IngestManifest, CutAt, Writes, Sound, NoWorse, Improves, InSteps, Sizing;
    PacketOfCut(src, P, p);
    var d := Contents(a.data);
    SelfNoWorse(src.content, d);
    if p.ptype.Manifest? || p.ptype.NameOnly? {
      NameInSteps(a, p, d);
      StepsImprove(src, a.data, d, Trail(a, p));
    } else if Writes(a.manifest, p) {
      WriteImproves(src, P, a, p);
    } else {
      NothingHappens(a, p);
      Alone(src, a);
      assert Trail(a, p) == [a];
    }
  }

  lemma Alone(src: Source, a: Assembly)
    requires |Contents(a.data)| <= |src.content|
    ensures Improves(src, [a])
  {
    SelfNoWorse(src.content, Contents(a.data));
  }

  // ---- the invariant ----

  /** Every sidecar a cut may bring back is true of the data as it is now. */
  ghost predicate OlderTrue(src: Source, older: set<Vouch>, data: Option<bytes>)
    requires Sound(src)
  {
    forall m :: m in older ==> Consistent(src, Assembly(m, data))
  }

  ghost predicate AllOlderTrue(cat: Catalog, s: Disk)
    requires SoundCatalog(cat)
  {
    forall id :: id in s.older && s.older[id] != {} ==>
      id in cat && OlderTrue(cat[id], s.older[id], s.ground.At(id).data)
  }

  ghost predicate Trusted(cat: Catalog, s: Disk)
    requires SoundCatalog(cat)
  {
    Safe(cat, s.ground) && AllOlderTrue(cat, s)
  }

  /** Whatever a cut leaves of one ingest is consistent with the file, however old its sidecar. */
  lemma LagConsistent(src: Source, P: nat, a: Assembly, older: set<Vouch>, p: Packet, left: Assembly)
    requires Sound(src) && P in src.sizes && CutAt(src, P, p) && Consistent(src, a) && OlderTrue(src, older, a.data)
    requires MayLag(a, older, p, left)
    ensures Consistent(src, left)
  {
    hide Sound, CutAt, Consistent, TornBetween, Ingest, Better;
    var trail := Trail(a, p);
    IngestImproves(src, P, a, p);
    TrailConsistent(src, P, a, p);
    var i :| 0 <= i < |trail| && DataAt(trail, i, left.data) && SidecarAt(trail, older, i, left.manifest);
    var m := left.manifest;
    VouchHolds(src, trail, older, i, m);
    assert left == Assembly(m, left.data);
    if left.data != trail[i].data {
      assert Better(src, trail[i], trail[i + 1]);
      OlderStays(src, m, trail[i], trail[i + 1]);
      TornUnder(trail[i], trail[i + 1], m, left.data);
      TornConsistent(src, Assembly(m, trail[i].data), Assembly(m, trail[i + 1].data), left);
    }
  }

  lemma TrailConsistent(src: Source, P: nat, a: Assembly, p: Packet)
    requires Sound(src) && P in src.sizes && CutAt(src, P, p) && Consistent(src, a)
    ensures forall i :: 0 <= i < |Trail(a, p)| ==> Consistent(src, Trail(a, p)[i])
  {
    hide Sound, CutAt, Consistent, Ingest;
    IngestConsistent(src, P, a, p);
    forall i | 0 <= i < |Trail(a, p)| ensures Consistent(src, Trail(a, p)[i]) {
      if i > 0 { assert Trail(a, p)[i] == Ingest(a, p).trail[i - 1]; }
    }
  }

  /** A sidecar a cut may find at step `i` is true of the data of that step. */
  lemma VouchHolds(src: Source, trail: seq<Assembly>, older: set<Vouch>, i: nat, m: Vouch)
    requires Sound(src) && i < |trail| && Improves(src, trail) && OlderTrue(src, older, trail[0].data)
    requires forall j :: 0 <= j < |trail| ==> Consistent(src, trail[j])
    requires SidecarAt(trail, older, i, m)
    ensures Consistent(src, Assembly(m, trail[i].data))
  {
    hide Sound, Consistent, Better;
    if m in older {
      assert Better(src, trail[0], trail[i]);
      OlderStays(src, m, trail[0], trail[i]);
    } else {
      var j :| 0 <= j <= i && m == trail[j].manifest;
      assert Assembly(m, trail[j].data) == trail[j] && Better(src, trail[j], trail[i]);
      OlderStays(src, m, trail[j], trail[i]);
    }
  }

  lemma TornUnder(x: Assembly, y: Assembly, m: Vouch, data: Option<bytes>)
    requires TornBetween(x, y, Assembly(x.manifest, data))
    ensures TornBetween(Assembly(m, x.data), Assembly(m, y.data), Assembly(m, data))
  {
    hide Torn;
  }

  /** After an ingest every sidecar the file has had is true of the data. */
  lemma IngestKeepsOlder(src: Source, P: nat, a: Assembly, older: set<Vouch>, p: Packet)
    requires Sound(src) && P in src.sizes && CutAt(src, P, p) && Consistent(src, a) && OlderTrue(src, older, a.data)
    ensures OlderTrue(src, older + Vouches(Trail(a, p)), Ingest(a, p).next.data)
  {
    hide Sound, CutAt, Consistent, Ingest, Better;
    var trail := Trail(a, p);
    IngestImproves(src, P, a, p);
    TrailConsistent(src, P, a, p);
    var last := |trail| - 1;
    forall m | m in older + Vouches(trail) ensures Consistent(src, Assembly(m, Ingest(a, p).next.data)) {
      if m !in older {
        var b :| b in trail && b.manifest == m;
        var j :| 0 <= j < |trail| && trail[j] == b;
        assert SidecarAt(trail, older, last, m);
      }
      VouchHolds(src, trail, older, last, m);
    }
  }

  lemma TakeTrusted(cat: Catalog, s: Disk, p: Packet)
    requires SoundCatalog(cat) && Trusted(cat, s) && Sent(cat, p)
    ensures Trusted(cat, Take(s, p))
  {
    hide Consistent, CutAt, Ingest, Safe, Countable, ToldApart, OlderTrue, Vouches, Trail, Deliver;
    var id, src := p.fileId, cat[p.fileId];
    var P :| P in src.sizes && CutAt(src, P, p);
    DeliverSafe(cat, s.ground, p);
    AtConsistent(cat, s.ground, id);
    OlderTrueAt(cat, s, id);
    IngestKeepsOlder(src, P, s.ground.At(id), s.Older(id), p);
    AfterDeliver(s.ground, p);
    forall j | j in Take(s, p).older && Take(s, p).older[j] != {}
      ensures j in cat && OlderTrue(cat[j], Take(s, p).older[j], Take(s, p).ground.At(j).data)
    {
      if j != id { assert s.older[j] != {}; }
    }
  }

  lemma OlderTrueAt(cat: Catalog, s: Disk, id: i64)
    requires SoundCatalog(cat) && Trusted(cat, s) && id in cat
    ensures OlderTrue(cat[id], s.Older(id), s.ground.At(id).data)
  {
    hide Consistent, Safe;
  }

  /** A packet leaves its file as ingested or lands it, and leaves all others alone. */
  lemma AfterDeliver(g: Ground, p: Packet)
    ensures Deliver(g, p).At(p.fileId) == NOTHING || Deliver(g, p).At(p.fileId) == Ingest(g.At(p.fileId), p).next
    ensures forall j: i64 :: j != p.fileId ==> Deliver(g, p).At(j) == g.At(j)
  {
    hide Ingest, Sidecar.Manifest.Complete, GroundPaths.GroundPath;
  }

  lemma CutTrusted(cat: Catalog, s: Disk, p: Packet, left: Assembly, lags: map<i64, Vouch>)
    requires SoundCatalog(cat) && Trusted(cat, s) && Sent(cat, p) && CanHappen(s, PowerLost(p, left, lags))
    ensures Trusted(cat, Following(s, PowerLost(p, left, lags)))
  {
    hide Consistent, CutAt, Countable, ToldApart, MayLag, Identical;
    var src := cat[p.fileId];
    var P :| P in src.sizes && CutAt(src, P, p);
    AtConsistent(cat, s.ground, p.fileId);
    OlderTrueAt(cat, s, p.fileId);
    LagConsistent(src, P, s.ground.At(p.fileId), s.Older(p.fileId), p, left);
    var g := Lagged(s.ground.assemblies, lags);
    forall id | id in g ensures id in cat && Consistent(cat[id], g[id]) {
      if id in lags {
        OlderTrueAt(cat, s, id);
        assert lags[id] in s.Older(id) && g[id] == Assembly(lags[id], s.ground.At(id).data);
      }
    }
  }

  function RunDisk(s: Disk, hs: seq<Happening>): Disk
    decreases |hs|
  {
    if hs == [] then s else RunDisk(Following(s, hs[0]), hs[1..])
  }

  ghost predicate LegalHistory(cat: Catalog, s: Disk, hs: seq<Happening>)
    requires SoundCatalog(cat)
    decreases |hs|
  {
    hs == [] || (OverLink(cat, hs[0]) && CanHappen(s, hs[0]) && LegalHistory(cat, Following(s, hs[0]), hs[1..]))
  }

  /**
   The safety claim again, over every run in which each power cut may bring back, for every file
   under way, any sidecar it has had: every landed file is whole.
   */
  lemma {:induction false} LaggingRunsAreSafe(cat: Catalog, s: Disk, hs: seq<Happening>)
    requires SoundCatalog(cat) && Trusted(cat, s) && LegalHistory(cat, s, hs)
    ensures Trusted(cat, RunDisk(s, hs)) && Identical(cat, RunDisk(s, hs).ground.finals)
    decreases |hs|
  {
    if hs != [] {
      hide Following, OverLink, CanHappen, Sound, AllOlderTrue, Take;
      HappeningTrusted(cat, s, hs[0]);
      LaggingRunsAreSafe(cat, Following(s, hs[0]), hs[1..]);
    }
  }

  lemma HappeningTrusted(cat: Catalog, s: Disk, h: Happening)
    requires SoundCatalog(cat) && Trusted(cat, s) && OverLink(cat, h) && CanHappen(s, h)
    ensures Trusted(cat, Following(s, h))
  {
    hide Trusted, Take, Decode, CutAt, MayLag, Sound;
    match h {
      case Arrives(d) => if Decode(d).Success? { TakeTrusted(cat, s, Decode(d).value); }
      case PowerLost(p, left, lags) => CutTrusted(cat, s, p, left, lags);
    }
  }

  /** In particular from nothing: what is found at a file's own landing place is that file. */
  lemma LaggingFromNothing(cat: Catalog, hs: seq<Happening>, id: i64)
    requires SoundCatalog(cat) && LegalHistory(cat, Disk(EMPTY_GROUND, map[]), hs) && id in cat
    requires forall j :: j in cat && GroundPaths.GroundPath(cat[j].name) == GroundPaths.GroundPath(cat[id].name)
               ==> j == id
    ensures var finals, path := RunDisk(Disk(EMPTY_GROUND, map[]), hs).ground.finals,
          GroundPaths.GroundPath(cat[id].name);
      path in finals ==> finals[path] == cat[id].content
  {
    hide LegalHistory, RunDisk, GroundPaths.GroundPath;
    LaggingRunsAreSafe(cat, Disk(EMPTY_GROUND, map[]), hs);
  }
}
