/**
 Cleaner, sender and ground together: passes that plan from sidecars read one at a time,
 requests that may be lost, a queue that is served, dropped and flushed meanwhile, and
 deliveries and power cuts on the ground between any two of these. No chunk is ever queued
 twice, and everything asked for was missing when it was planned.
 */
module ClosedLoop {
  import opened Wrappers
  import opened Bytes
  import opened Messages
  import opened Bitmaps
  import opened Queue
  import opened Dedup
  import opened Cleaner
  import Delivery
  import Ledger
  import Sender
  import SenderBook
  import Sidecar

  /** Both readings of one sidecar, and the ground as it was at the second. */
  datatype Look = Look(reading: Reading, seen: Delivery.Ground)

  datatype Phase =
    | Idle
    | Planning(pending: seq<SnapshotEntry>, looks: seq<Look>, half: Option<Reading>)
    | Asking(pending: seq<SnapshotEntry>, looks: seq<Look>, next: nat)

  /** A request the sender heard, and the ground its plan was drawn from. */
  datatype Asked = Asked(key: Key, seen: Delivery.Ground)

  datatype Loop = Loop(items: seq<WorkItem>, ground: Delivery.Ground, phase: Phase, log: seq<Asked>)

  datatype Event =
    | StartPass
    | ReadName(id: i64)
    | ReadGaps
    | StartAsking
    | AskNext(allowed: bool, heard: bool)
    | EndPass
    | ServeHead(ok: bool)
    | FlushAll
    | Arrive(e: Delivery.Event)

  /** The sender's table and datagram size, unchanged throughout. */
  datatype Fixed = Fixed(rows: Ledger.Rows, chunkSize: nat)

  ghost predicate Sane(x: Fixed) {
    x.chunkSize >= 64 && forall id :: id in x.rows ==> x.rows[id].fileId == id
  }

  function Readings(looks: seq<Look>): (rs: seq<Reading>)
    ensures |rs| == |looks| && forall k :: 0 <= k < |rs| ==> rs[k] == looks[k].reading
  {
    seq(|looks|, k requires 0 <= k < |looks| => looks[k].reading)
  }

  function Plan(looks: seq<Look>): seq<Key> {
    PlanFor(Readings(looks))
  }

  /** The ground a file's gaps were read from. */
  function ThenOf(looks: seq<Look>, id: i64): Option<Delivery.Ground> {
    if looks == [] then None
    else if looks[|looks| - 1].reading.fileId == id then Some(looks[|looks| - 1].seen)
    else ThenOf(looks[..|looks| - 1], id)
  }

  /** What the sender puts at the front of its queue for a request; nothing when it refuses. */
  function RequestItems(x: Fixed, key: Key): seq<WorkItem>
    requires x.chunkSize >= 64
  {
    if key.kind == ResendNameKind then
      if key.fileId in x.rows then [ManifestItem(key.fileId, x.rows[key.fileId].fileName)] else []
    else
      match Sender.Asked(x.rows, x.chunkSize, key.fileId, AsI32(key.range.start % U32), key.range.count % U32)
      case Failure(_) => []
      case Success(items) => items
  }

  ghost predicate Enabled(s: Loop, e: Event) {
    match e
    case StartPass => s.phase.Idle?
    case ReadName(id) =>
      s.phase.Planning? && s.phase.half == None
        && forall k :: 0 <= k < |s.phase.looks| ==> s.phase.looks[k].reading.fileId < id
    case ReadGaps => s.phase.Planning? && s.phase.half.Some?
      && Countable31(s.ground.At(s.phase.half.value.fileId).manifest)
    case StartAsking => s.phase.Planning? && s.phase.half == None
    case AskNext(_, _) => s.phase.Asking? && s.phase.next < |Plan(s.phase.looks)|
    case EndPass => s.phase.Asking?
    case ServeHead(_) => s.items != []
    case FlushAll => true
    case Arrive(ev) => Delivery.Possible(s.ground, ev)
  }

  /** The cleaner casts a range's start to `i32`, so the protocol relies on fewer than 2^31 chunks. */
  predicate Countable31(m: Option<Sidecar.Manifest>) {
    m.None? || m.value.numChunks < 0x8000_0000
  }

  /** Every chunk named in a plan fits the integers it is passed in. */
  predicate Narrow(key: Key) {
    key.range.End() < 0x8000_0000
  }

  function Next(x: Fixed, s: Loop, e: Event): Loop
    requires x.chunkSize >= 64
  {
    match e
    case StartPass => s.(phase := Planning(Snapshot(s.items), [], None))
    case ReadName(id) =>
      if s.phase.Planning? then s.(phase := s.phase.(half := Some(Reading(id, s.ground.At(id).manifest, None)))) else s
    case ReadGaps =>
      if s.phase.Planning? && s.phase.half.Some? then
        var r := s.phase.half.value;
        var look := Look(r.(second := s.ground.At(r.fileId).manifest), s.ground);
        s.(phase := Planning(s.phase.pending, s.phase.looks + [look], None))
      else s
    case StartAsking => if s.phase.Planning? then s.(phase := Asking(s.phase.pending, s.phase.looks, 0)) else s
    case AskNext(allowed, heard) =>
      if s.phase.Asking? && s.phase.next < |Plan(s.phase.looks)| then
        var key := Plan(s.phase.looks)[s.phase.next];
        var s' := s.(phase := s.phase.(next := s.phase.next + 1));
        if IsAlreadyPending(Some(s.phase.pending), key) || !allowed || !heard then s'
        else s'.(items := RequestItems(x, key) + s.items,
                 log := s.log + match ThenOf(s.phase.looks, key.fileId) case None => [] case Some(g) => [Asked(key, g)])
      else s
    case EndPass => s.(phase := Idle)
    case ServeHead(ok) =>
      if s.items == [] then s
      else s.(items := (if ok then SenderBook.Residue(s.items[0]) else []) + s.items[1..])
    case FlushAll => s.(items := [])
    case Arrive(ev) => s.(ground := Delivery.After(s.ground, ev))
  }

  // ---- the invariant ----

  /** Two queued items that share no chunk. */
  predicate Clear(a: WorkItem, b: WorkItem) {
    a.ManifestItem? || b.ManifestItem? || a.fileId != b.fileId
    || a.range.End() <= b.range.start || b.range.End() <= a.range.start
  }

  ghost predicate NoneTwice(items: seq<WorkItem>) {
    forall k, l :: 0 <= k < l < |items| ==> Clear(items[k], items[l])
  }

  predicate HoldsChunk(item: WorkItem, f: i64, c: nat) {
    !item.ManifestItem? && item.fileId == f && item.range.Contains(c)
  }

  /** With nonempty ranges, items clear of each other are items with no chunk of a file in common. */
  lemma NoneTwiceMeans(items: seq<WorkItem>)
    requires SenderBook.AllNonempty(items)
    ensures NoneTwice(items) <==>
      forall k, l, f, c :: 0 <= k < l < |items| && HoldsChunk(items[k], f, c) ==> !HoldsChunk(items[l], f, c)
  {
    if forall k, l, f, c :: 0 <= k < l < |items| && HoldsChunk(items[k], f, c) ==> !HoldsChunk(items[l], f, c) {
      forall k, l | 0 <= k < l < |items| ensures Clear(items[k], items[l]) {
        assert SenderBook.Nonempty(items[k]) && SenderBook.Nonempty(items[l]);
        if !Clear(items[k], items[l]) {
          var c := if items[k].range.start < items[l].range.start then items[l].range.start else items[k].range.start;
          assert HoldsChunk(items[k], items[k].fileId, c);
        }
      }
    }
  }

  ghost predicate InPending(pending: seq<SnapshotEntry>, f: i64, c: nat) {
    Find(pending, f).Some? && AnyContains(Find(pending, f).value.ranges, c)
  }

  /** One of the requests already made in this pass asked for the chunk. */
  ghost predicate InKeys(keys: seq<Key>, f: i64, c: nat) {
    exists k :: 0 <= k < |keys| && keys[k].kind == RetransmitKind && keys[k].fileId == f && keys[k].range.Contains(c)
  }

  /** All that is queued was queued when the status was taken, or asked for since. */
  ghost predicate Accounted(items: seq<WorkItem>, pending: seq<SnapshotEntry>, keys: seq<Key>) {
    forall f, c :: ContainsChunk(items, f, c) ==> InPending(pending, f, c) || InKeys(keys, f, c)
  }

  ghost predicate SolidEntries(pending: seq<SnapshotEntry>) {
    forall f :: Find(pending, f).Some? ==> SolidRanges(Find(pending, f).value.ranges)
  }

  /** The gaps of a look are the gaps of the ground it was taken from. */
  ghost predicate TrueLook(l: Look) {
    l.reading.second == l.seen.At(l.reading.fileId).manifest && Countable31(l.reading.second)
  }

  ghost predicate TrueLooks(looks: seq<Look>) {
    IdsAscend(Readings(looks)) && forall k :: 0 <= k < |looks| ==> TrueLook(looks[k])
  }

  ghost predicate MissingAt(g: Delivery.Ground, f: i64, c: nat) {
    g.At(f).manifest.Some? && c < g.At(f).manifest.value.numChunks && !IsSet(g.At(f).manifest.value.bitmap, c)
  }

  /** Every chunk of the request was missing on the ground it was planned from. */
  ghost predicate WasMissing(a: Asked) {
    a.key.kind == RetransmitKind ==> forall c :: a.key.range.Contains(c) ==> MissingAt(a.seen, a.key.fileId, c)
  }

  ghost predicate LogSound(log: seq<Asked>) {
    forall k :: 0 <= k < |log| ==> WasMissing(log[k])
  }

  ghost predicate PhaseSound(s: Loop) {
    match s.phase
    case Idle => true
    case Planning(pending, looks, half) =>
      && Accounted(s.items, pending, []) && SolidEntries(pending) && TrueLooks(looks)
      && (half.Some? ==> forall k :: 0 <= k < |looks| ==> looks[k].reading.fileId < half.value.fileId)
    case Asking(pending, looks, next) =>
      && next <= |Plan(looks)| && Accounted(s.items, pending, Plan(looks)[..next]) && SolidEntries(pending)
         && TrueLooks(looks)
  }

  ghost predicate Invariant(s: Loop) {
    NoneTwice(s.items) && SenderBook.AllNonempty(s.items) && LogSound(s.log) && PhaseSound(s)
  }

  // ---- taking the status ----

  lemma StatusSound(items: seq<WorkItem>)
    requires SenderBook.AllNonempty(items)
    ensures Accounted(items, Snapshot(items), []) && SolidEntries(Snapshot(items))
  {
    hide Snapshot, Find, ContainsChunk, AnyContains, RangesOf, HasFile, HasManifest;
    forall f, c | ContainsChunk(items, f, c) ensures InPending(Snapshot(items), f, c) {
      ContainsChunkAgrees(items, f, c);
    }
    forall f | Find(Snapshot(items), f).Some? ensures SolidRanges(Find(Snapshot(items), f).value.ranges) {
      SnapshotAgrees(items, f);
      RangesSolid(items, f);
    }
  }

  // ---- the queue only shrinks by itself ----

  lemma ServedShrinks(items: seq<WorkItem>, ok: bool)
    requires items != [] && NoneTwice(items) && SenderBook.AllNonempty(items)
    ensures var after := (if ok then SenderBook.Residue(items[0]) else []) + items[1..];
      NoneTwice(after) && SenderBook.AllNonempty(after)
      && forall f, c :: ContainsChunk(after, f, c) ==> ContainsChunk(items, f, c)
  {
    var rest := if ok then SenderBook.Residue(items[0]) else [];
    var after := rest + items[1..];
    assert SenderBook.Nonempty(items[0]);
    assert rest == [] || (|rest| == 1 && rest[0].fileId == items[0].fileId && !rest[0].ManifestItem?
      && !items[0].ManifestItem?
      && rest[0].range.End() == items[0].range.End() && rest[0].range.start > items[0].range.start
         && rest[0].range.count > 0);
    hide SenderBook.Residue;
    var d := 1 - |rest|;
    assert forall k :: |rest| <= k < |after| ==> after[k] == items[k + d];
    forall k, l | 0 <= k < l < |after| ensures Clear(after[k], after[l]) {
      assert Clear(items[k + d], items[l + d]);
    }
    forall f, c | ContainsChunk(after, f, c) ensures ContainsChunk(items, f, c) {
      var k :| 0 <= k < |after| && HoldsChunk(after[k], f, c);
      if k < |rest| {
        assert after[0] == rest[0] && HoldsChunk(rest[0], f, c);
        assert HoldsChunk(items[0], f, c);
      } else {
        assert HoldsChunk(items[k + d], f, c);
      }
    }
  }

  lemma ShrinkAccounted(items: seq<WorkItem>, after: seq<WorkItem>, pending: seq<SnapshotEntry>, keys: seq<Key>)
    requires Accounted(items, pending, keys) && forall f, c :: ContainsChunk(after, f, c) ==> ContainsChunk(items, f, c)
    ensures Accounted(after, pending, keys)
  {
    hide ContainsChunk, InPending, InKeys;
  }

  // ---- one request ----

  ghost predicate Inside(item: WorkItem, key: Key) {
    item.ManifestItem?
    || (key.kind == RetransmitKind && item.fileId == key.fileId
        && key.range.start <= item.range.start && item.range.End() <= key.range.End())
  }

  ghost predicate AllInside(items: seq<WorkItem>, key: Key) {
    forall k :: 0 <= k < |items| ==> Inside(items[k], key)
  }

  /** What a request queues lies inside what it asked for. */
  lemma RequestWithin(x: Fixed, key: Key)
    requires Sane(x) && Narrow(key) && (key.kind == RetransmitKind ==> key.range.count > 0)
    ensures var items := RequestItems(x, key);
      |items| <= 1 && SenderBook.AllNonempty(items) && AllInside(items, key)
      && (key.kind == ResendNameKind ==> forall k :: 0 <= k < |items| ==> items[k].ManifestItem?)
  {
    hide Sender.Total;
  }

  ghost predicate NotQueued(items: seq<WorkItem>, key: Key) {
    forall c :: key.range.Contains(c) ==> !ContainsChunk(items, key.fileId, c)
  }

  /** A chunk both asked for and queued would have made the request one of those left out. */
  lemma NotHeld(items: seq<WorkItem>, pending: seq<SnapshotEntry>, plan: seq<Key>, next: nat, c: nat)
    requires next < |plan| && Apart(plan) && Substantial(plan) && plan[next].kind == RetransmitKind
    requires Accounted(items, pending, plan[..next]) && SolidEntries(pending)
    requires !IsAlreadyPending(Some(pending), plan[next]) && plan[next].range.Contains(c)
    ensures !ContainsChunk(items, plan[next].fileId, c)
  {
    hide ContainsChunk, RangeIntersectsAny, Find;
    var key := plan[next];
    if InPending(pending, key.fileId, c) {
      IntersectsIffShared(key.range, Find(pending, key.fileId).value.ranges);
    }
    assert !InKeys(plan[..next], key.fileId, c) by {
      forall k | 0 <= k < next ensures !(plan[k].kind == RetransmitKind && plan[k].fileId == key.fileId
        && plan[k].range.Contains(c)) {
        assert Separate(plan[k], plan[next]);
      }
    }
  }

  lemma PushClear(items: seq<WorkItem>, more: seq<WorkItem>, key: Key)
    requires NoneTwice(items) && SenderBook.AllNonempty(items) && |more| <= 1 && SenderBook.AllNonempty(more)
    requires AllInside(more, key) && (key.kind == RetransmitKind ==> NotQueued(items, key))
    ensures NoneTwice(more + items) && SenderBook.AllNonempty(more + items)
  {
    var all := more + items;
    forall k, l | 0 <= k < l < |all| ensures Clear(all[k], all[l]) {
      if k >= |more| {
        assert Clear(items[k - |more|], items[l - |more|]);
      } else {
        NewClear(items, more[0], key, l - |more|);
      }
    }
  }

  lemma NewClear(items: seq<WorkItem>, item: WorkItem, key: Key, j: nat)
    requires SenderBook.AllNonempty(items) && j < |items| && SenderBook.Nonempty(item)
    requires Inside(item, key) && (key.kind == RetransmitKind ==> NotQueued(items, key))
    ensures Clear(item, items[j])
  {
    assert SenderBook.Nonempty(items[j]);
    if !Clear(item, items[j]) {
      var c := if item.range.start < items[j].range.start then items[j].range.start else item.range.start;
      assert HoldsChunk(items[j], key.fileId, c);
      assert key.range.Contains(c);
    }
  }

  lemma PushAccounted(items: seq<WorkItem>, more: seq<WorkItem>, pending: seq<SnapshotEntry>, plan: seq<Key>, next: nat)
    requires next < |plan| && Accounted(items, pending, plan[..next])
    requires AllInside(more, plan[next])
    ensures Accounted(more + items, pending, plan[..next + 1])
  {
    hide InPending;
    var all := more + items;
    forall f, c | ContainsChunk(all, f, c) ensures InPending(pending, f, c) || InKeys(plan[..next + 1], f, c) {
      var k :| 0 <= k < |all| && HoldsChunk(all[k], f, c);
      if k < |more| {
        assert all[k] == more[k] && Inside(more[k], plan[next]);
        assert HoldsChunk(more[k], f, c);
        assert plan[next].range.Contains(c) && plan[..next + 1][next] == plan[next];
      } else {
        assert HoldsChunk(items[k - |more|], f, c);
        KeysGrow(plan, next, f, c);
      }
    }
  }

  lemma KeysGrow(plan: seq<Key>, next: nat, f: i64, c: nat)
    requires next < |plan|
    ensures InKeys(plan[..next], f, c) ==> InKeys(plan[..next + 1], f, c)
  {
    if InKeys(plan[..next], f, c) {
      var k :| 0 <= k < next && plan[..next][k].kind == RetransmitKind && plan[..next][k].fileId == f
        && plan[..next][k].range.Contains(c);
      assert plan[..next + 1][k] == plan[..next][k];
    }
  }

  lemma SkipAccounted(items: seq<WorkItem>, pending: seq<SnapshotEntry>, plan: seq<Key>, next: nat)
    requires next < |plan| && Accounted(items, pending, plan[..next])
    ensures Accounted(items, pending, plan[..next + 1])
  {
    hide InPending, InKeys, ContainsChunk;
    forall f, c | ContainsChunk(items, f, c) ensures InPending(pending, f, c) || InKeys(plan[..next + 1], f, c) {
      KeysGrow(plan, next, f, c);
    }
  }

  // ---- what was planned was missing ----

  /** A planned key comes from one look, and each of its chunks was missing there. */
  lemma {:induction false} PlannedWasMissing(looks: seq<Look>, k: nat)
    requires TrueLooks(looks) && k < |Plan(looks)|
    ensures var key := Plan(looks)[k];
      Narrow(key) && ThenOf(looks, key.fileId).Some? && WasMissing(Asked(key, ThenOf(looks, key.fileId).value))
    decreases |looks|
  {
    hide NamePlan, RangePlan, WasMissing, TrueLook, IdsAscend, Narrow;
    var front, l := looks[..|looks| - 1], looks[|looks| - 1];
    var id, older := l.reading.fileId, Plan(front);
    var names, gaps := NamePlan(id, l.reading.first), RangePlan(id, l.reading.second);
    LastLook(looks);
    hide PlanFor, TrueLooks;
    if k < |older| {
      PlannedWasMissing(front, k);
      EarlierFile(looks, k);
    } else if k < |older| + |names| {
      assert Plan(looks)[k] == names[k - |older|];
      NameIsName(id, l.reading.first, k - |older|, l.seen);
    } else {
      var j := k - |older| - |names|;
      assert Plan(looks)[k] == gaps[j];
      GapMissing(l, j);
    }
  }

  lemma LastLook(looks: seq<Look>)
    requires looks != [] && TrueLooks(looks)
    ensures var front, l := looks[..|looks| - 1], looks[|looks| - 1];
      TrueLooks(front) && TrueLook(l)
      && Plan(looks) == Plan(front) + NamePlan(l.reading.fileId, l.reading.first)
         + RangePlan(l.reading.fileId, l.reading.second)
  {
    hide TrueLook;
    var front := looks[..|looks| - 1];
    assert Readings(looks)[..|looks| - 1] == Readings(front);
  }

  /** What earlier looks planned is for files before the last one. */
  lemma EarlierFile(looks: seq<Look>, k: nat)
    requires looks != [] && TrueLooks(looks) && k < |Plan(looks[..|looks| - 1])|
    ensures Plan(looks[..|looks| - 1])[k].fileId < looks[|looks| - 1].reading.fileId
  {
    hide TrueLook;
    var front := looks[..|looks| - 1];
    assert Readings([]) == [] && Plan([]) == [];
    assert front != [];
    assert Readings(looks)[..|looks| - 1] == Readings(front);
    PlanIsApart(Readings(front));
    assert Readings(front)[|front| - 1] == Readings(looks)[|front| - 1];
    assert Readings(looks)[|front| - 1].fileId < Readings(looks)[|front|].fileId;
  }

  lemma NameIsName(id: i64, m: Option<Sidecar.Manifest>, j: nat, g: Delivery.Ground)
    requires j < |NamePlan(id, m)|
    ensures NamePlan(id, m)[j].fileId == id && Narrow(NamePlan(id, m)[j]) && WasMissing(Asked(NamePlan(id, m)[j], g))
  {
  }

  lemma GapMissing(l: Look, j: nat)
    requires TrueLook(l) && j < |RangePlan(l.reading.fileId, l.reading.second)|
    ensures var key := RangePlan(l.reading.fileId, l.reading.second)[j];
      key.fileId == l.reading.fileId && Narrow(key) && WasMissing(Asked(key, l.seen))
  {
    hide IsSet, MissingFrom;
    var m := l.reading.second.value;
    var key := RangePlan(l.reading.fileId, l.reading.second)[j];
    MissingWellSpaced(m.bitmap, m.numChunks, 0);
    assert Missing(m.bitmap, m.numChunks)[j].End() <= m.numChunks;
    forall c | key.range.Contains(c) ensures MissingAt(l.seen, key.fileId, c) {
      GapsPlanned(l.reading.fileId, m, c);
      assert RangePlan(l.reading.fileId, Some(m))[j].range.Contains(c);
    }
  }

  // ---- every run ----

  lemma AskSound(x: Fixed, s: Loop, e: Event)
    requires Sane(x) && Invariant(s) && e.AskNext? && Enabled(s, e)
    ensures Invariant(Next(x, s, e))
  {
    hide Plan, ThenOf, RequestItems, IsAlreadyPending, Accounted, NoneTwice, SenderBook.AllNonempty;
    hide SolidEntries, TrueLooks;
    var pending, looks, next := s.phase.pending, s.phase.looks, s.phase.next;
    var plan := Plan(looks);
    PlanSound(looks);
    var key := plan[next];
    PlannedWasMissing(looks, next);
    SkipAccounted(s.items, pending, plan, next);
    if !IsAlreadyPending(Some(pending), key) && e.allowed && e.heard {
      var more := RequestItems(x, key);
      assert key.kind == RetransmitKind ==> key.range.count > 0;
      RequestWithin(x, key);
      if key.kind == RetransmitKind {
        forall c | key.range.Contains(c) ensures !ContainsChunk(s.items, key.fileId, c) {
          NotHeld(s.items, pending, plan, next, c);
        }
      }
      PushClear(s.items, more, key);
      PushAccounted(s.items, more, pending, plan, next);
    }
  }

  lemma PlanSound(looks: seq<Look>)
    requires TrueLooks(looks)
    ensures Apart(Plan(looks)) && Substantial(Plan(looks))
  {
    PlanIsApart(Readings(looks));
  }

  lemma LookTaken(looks: seq<Look>, l: Look)
    requires TrueLooks(looks) && TrueLook(l)
    requires forall k :: 0 <= k < |looks| ==> looks[k].reading.fileId < l.reading.fileId
    ensures TrueLooks(looks + [l])
  {
  }

  /** Every step of the three parties keeps the invariant. */
  lemma StepSound(x: Fixed, s: Loop, e: Event)
    requires Sane(x) && Invariant(s) && Enabled(s, e)
    ensures Invariant(Next(x, s, e))
  {
    hide Accounted, SolidEntries, NoneTwice, SenderBook.AllNonempty, SenderBook.Residue, TrueLook;
    match e {
      case StartPass => StatusSound(s.items);
      case ReadGaps =>
        var r := s.phase.half.value;
        var l := Look(r.(second := s.ground.At(r.fileId).manifest), s.ground);
        assert TrueLook(l) by { TrueReading(s.ground, r); }
        LookTaken(s.phase.looks, l);
      case AskNext(_, _) => AskSound(x, s, e);
      case ServeHead(ok) =>
        ServedShrinks(s.items, ok);
        ShrunkPhase(x, s, e);
      case FlushAll =>
        NothingQueued();
        ShrunkPhase(x, s, e);
      case StartAsking => assert Plan(s.phase.looks)[..0] == [];
      case _ =>
    }
  }

  lemma TrueReading(g: Delivery.Ground, r: Reading)
    requires Countable31(g.At(r.fileId).manifest)
    ensures TrueLook(Look(r.(second := g.At(r.fileId).manifest), g))
  {
  }

  lemma NothingQueued()
    ensures NoneTwice([]) && SenderBook.AllNonempty([])
  {
  }

  lemma ShrunkPhase(x: Fixed, s: Loop, e: Event)
    requires Sane(x) && PhaseSound(s) && (e.FlushAll? || e.ServeHead?)
    requires forall f, c :: ContainsChunk(Next(x, s, e).items, f, c) ==> ContainsChunk(s.items, f, c)
    ensures PhaseSound(Next(x, s, e))
  {
    hide ContainsChunk, Plan, SenderBook.Residue, SolidEntries, TrueLooks, Accounted;
    var after := Next(x, s, e).items;
    match s.phase
    case Idle =>
    case Planning(pending, _, _) => ShrinkAccounted(s.items, after, pending, []);
    case Asking(pending, looks, next) => ShrinkAccounted(s.items, after, pending, Plan(looks)[..next]);
  }

  function RunLoop(x: Fixed, s: Loop, es: seq<Event>): Loop
    requires x.chunkSize >= 64
    decreases |es|
  {
    if es == [] then s else RunLoop(x, Next(x, s, es[0]), es[1..])
  }

  ghost predicate EnabledRun(x: Fixed, s: Loop, es: seq<Event>)
    requires x.chunkSize >= 64
    decreases |es|
  {
    es == [] || (Enabled(s, es[0]) && EnabledRun(x, Next(x, s, es[0]), es[1..]))
  }

  /**
   In every interleaving of passes, requests that are heard or lost, sends, failures, flushes,
   deliveries and power cuts, no chunk of a file is ever queued twice if none was at the start,
   and every chunk asked for was missing on the ground when its request was planned.
   */
  lemma {:induction false} NeverQueuedTwice(x: Fixed, s: Loop, es: seq<Event>)
    requires Sane(x) && Invariant(s) && EnabledRun(x, s, es)
    ensures Invariant(RunLoop(x, s, es))
    decreases |es|
  {
    if es != [] {
      hide Invariant, Enabled, Next, Sane;
      StepSound(x, s, es[0]);
      NeverQueuedTwice(x, Next(x, s, es[0]), es[1..]);
    }
  }

  lemma FromAnyQueue(x: Fixed, items: seq<WorkItem>, ground: Delivery.Ground, es: seq<Event>)
    requires Sane(x) && NoneTwice(items) && SenderBook.AllNonempty(items)
    requires EnabledRun(x, Loop(items, ground, Idle, []), es)
    ensures NoneTwice(RunLoop(x, Loop(items, ground, Idle, []), es).items)
    ensures LogSound(RunLoop(x, Loop(items, ground, Idle, []), es).log)
  {
    NeverQueuedTwice(x, Loop(items, ground, Idle, []), es);
  }
}
