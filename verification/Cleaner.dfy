/**
 One pass of the cleaner (cleaner/mod.rs): plan a request for every gap on the ground, leave
 out what the sender already holds or was asked for recently, and send the rest within the
 link's budget. Times are in seconds; the world is a script of delays and replies.
 */
module Cleaner {
  import opened Wrappers
  import opened Bytes
  import opened Messages
  import opened Bitmaps
  import opened Queue
  import opened Dedup
  import Sidecar
  import Sender
  import SenderBook
  import Errors
  import RateLimiter
  import Ledger

  /** The sender's status, if it could be asked. */
  type Status = Option<seq<SnapshotEntry>>

  /** `budget` of the active link. */
  datatype Budget = Budget(maxInFlight: nat, minPeriod: RateLimiter.Delay)

  /** The two times the sidecar of one in-flight file is opened while planning. */
  datatype Reading = Reading(fileId: i64, first: Option<Sidecar.Manifest>, second: Option<Sidecar.Manifest>)

  /** What happens around one request: time passing at each step, and whether it is acknowledged. */
  datatype Tick = Tick(
    beforeInsert: RateLimiter.Delay, beforeRead: RateLimiter.Delay, late: RateLimiter.Delay, reply: bool)

  datatype Call = Call(key: Key, at: real, ok: bool)

  /** Where a pass stands: requests made, the dedup table, the clock, the last send, replies counted. */
  datatype Pass = Pass(calls: seq<Call>, entries: Entries, now: real, last: real, sent: nat)

  // ---- planning ----

  function NamePlan(id: i64, m: Option<Sidecar.Manifest>): seq<Key> {
    if m.Some? && m.value.name != [] then [] else [Key(id, ResendNameKind, RequestedRange(0, 0))]
  }

  function Gaps(id: i64, ranges: seq<RequestedRange>): (plan: seq<Key>)
    ensures |plan| == |ranges|
    ensures forall k :: 0 <= k < |plan| ==> plan[k] == Key(id, RetransmitKind, ranges[k])
  {
    seq(|ranges|, k requires 0 <= k < |ranges| => Key(id, RetransmitKind, ranges[k]))
  }

  function RangePlan(id: i64, m: Option<Sidecar.Manifest>): seq<Key> {
    match m case None => [] case Some(x) => Gaps(id, Missing(x.bitmap, x.numChunks))
  }

  function PlanFor(rs: seq<Reading>): seq<Key> {
    if rs == [] then []
    else PlanFor(rs[..|rs| - 1]) + NamePlan(rs[|rs| - 1].fileId, rs[|rs| - 1].first)
         + RangePlan(rs[|rs| - 1].fileId, rs[|rs| - 1].second)
  }

  method PlanGaps(id: i64, m: Sidecar.Manifest) returns (keys: seq<Key>)
    ensures keys == RangePlan(id, Some(m))
  {
    hide Missing;
    var missing := MissingRanges(m.bitmap, m.numChunks);
    keys := [];
    for j := 0 to |missing|
      invariant keys == Gaps(id, missing)[..j]
    {
      keys := keys + [Key(id, RetransmitKind, missing[j])];
    }
  }

  method MakePlan(rs: seq<Reading>) returns (planned: seq<Key>)
    ensures planned == PlanFor(rs)
  {
    hide RangePlan;
    planned := [];
    for k := 0 to |rs|
      invariant planned == PlanFor(rs[..k])
    {
      assert rs[..k + 1][..k] == rs[..k];
      var id, hasName := rs[k].fileId, rs[k].first.Some? && rs[k].first.value.name != [];
      ghost var before := planned;
      if !hasName { planned := planned + [Key(id, ResendNameKind, RequestedRange(0, 0))]; }
      assert planned == before + NamePlan(id, rs[k].first);
      var gaps := [];
      if rs[k].second.Some? { gaps := PlanGaps(id, rs[k].second.value); }
      assert gaps == RangePlan(id, rs[k].second) by { NoneNoRanges(id); }
      planned := planned + gaps;
    }
    assert rs[..|rs|] == rs;
  }

  lemma NoneNoRanges(id: i64)
    ensures RangePlan(id, None) == []
  {
  }

  /** Two planned requests, the first before the second, ask for different things. */
  predicate Separate(a: Key, b: Key) {
    a.fileId != b.fileId || a.kind != b.kind || (a.kind == RetransmitKind && a.range.End() <= b.range.start)
  }

  ghost predicate Apart(plan: seq<Key>) {
    forall k, l :: 0 <= k < l < |plan| ==> Separate(plan[k], plan[l])
  }

  ghost predicate Substantial(plan: seq<Key>) {
    forall k :: 0 <= k < |plan| ==> plan[k].kind == RetransmitKind ==> plan[k].range.count > 0
  }

  ghost predicate IdsAscend(rs: seq<Reading>) {
    forall k, l :: 0 <= k < l < |rs| ==> rs[k].fileId < rs[l].fileId
  }

  ghost predicate IdsAtMost(plan: seq<Key>, id: int) {
    forall k :: 0 <= k < |plan| ==> plan[k].fileId <= id
  }

  ghost predicate AllOf(plan: seq<Key>, id: i64) {
    forall k :: 0 <= k < |plan| ==> plan[k].fileId == id
  }

  /** No chunk and no name is planned twice. */
  lemma {:induction false} PlanIsApart(rs: seq<Reading>)
    requires IdsAscend(rs)
    ensures Apart(PlanFor(rs)) && Substantial(PlanFor(rs))
    ensures rs != [] ==> IdsAtMost(PlanFor(rs), rs[|rs| - 1].fileId)
  {
    if rs != [] {
      hide NamePlan, RangePlan, Separate, Substantial, Apart;
      var front, r := rs[..|rs| - 1], rs[|rs| - 1];
      PlanIsApart(front);
      FilePlanApart(r);
      var names, gaps := NamePlan(r.fileId, r.first), RangePlan(r.fileId, r.second);
      JoinApart(PlanFor(front), names + gaps, r.fileId);
      assert PlanFor(front) + (names + gaps) == PlanFor(front) + names + gaps;
    }
  }

  lemma FilePlanApart(r: Reading)
    ensures var plan := NamePlan(r.fileId, r.first) + RangePlan(r.fileId, r.second);
      Apart(plan) && Substantial(plan) && AllOf(plan, r.fileId)
  {
    var names, gaps := NamePlan(r.fileId, r.first), RangePlan(r.fileId, r.second);
    GapsApart(r.fileId, r.second);
    assert |names| <= 1
        && forall k :: 0 <= k < |names| ==> names[k] == Key(r.fileId, ResendNameKind, RequestedRange(0, 0));
    hide NamePlan, RangePlan;
    assert forall k, l :: 0 <= k < |names| && 0 <= l < |gaps| ==> Separate(names[k], gaps[l]);
    Joined(names, gaps);
  }

  lemma GapsApart(id: i64, m: Option<Sidecar.Manifest>)
    ensures var plan := RangePlan(id, m);
      Apart(plan) && Substantial(plan) && AllOf(plan, id)
        && forall k :: 0 <= k < |plan| ==> plan[k].kind == RetransmitKind
  {
    if m.Some? {
      MissingWellSpaced(m.value.bitmap, m.value.numChunks, 0);
      hide MissingFrom, IsSet;
      var ranges := Missing(m.value.bitmap, m.value.numChunks);
      assert forall k :: 0 <= k < |ranges| ==> ranges[k].count > 0;
      assert forall k, l :: 0 <= k < l < |ranges| ==> ranges[k].End() < ranges[l].start;
    }
  }

  lemma Joined(a: seq<Key>, b: seq<Key>)
    requires Apart(a) && Apart(b) && Substantial(a) && Substantial(b)
    requires forall k, l :: 0 <= k < |a| && 0 <= l < |b| ==> Separate(a[k], b[l])
    ensures Apart(a + b) && Substantial(a + b)
  {
    hide Separate;
    var c := a + b;
    forall k, l | 0 <= k < l < |c| ensures Separate(c[k], c[l]) {
      if k < |a| && |a| <= l { assert Separate(a[k], b[l - |a|]); }
    }
  }

  lemma JoinApart(a: seq<Key>, b: seq<Key>, id: i64)
    requires Apart(a) && Apart(b) && Substantial(a) && Substantial(b)
    requires AllOf(b, id) && forall k :: 0 <= k < |a| ==> a[k].fileId < id
    ensures Apart(a + b) && Substantial(a + b) && IdsAtMost(a + b, id)
  {
    assert forall k, l :: 0 <= k < |a| && 0 <= l < |b| ==> Separate(a[k], b[l]);
    hide Apart, Substantial, Separate;
    Joined(a, b);
  }

  lemma ApartDistinct(plan: seq<Key>)
    requires Apart(plan) && Substantial(plan)
    ensures Distinct(plan)
  {
    forall k, l | 0 <= k < l < |plan| ensures plan[k] != plan[l] {
      assert Separate(plan[k], plan[l]);
    }
  }

  ghost predicate Distinct(plan: seq<Key>) {
    forall k, l :: 0 <= k < l < |plan| ==> plan[k] != plan[l]
  }

  /** The planned ranges of a file are its gaps, chunk for chunk. */
  lemma GapsPlanned(id: i64, m: Sidecar.Manifest, c: nat)
    ensures (exists k :: 0 <= k < |RangePlan(id, Some(m))| && RangePlan(id, Some(m))[k].range.Contains(c))
      <==> c < m.numChunks && !IsSet(m.bitmap, c)
  {
    hide MissingFrom, IsSet;
    MissingCovers(m.bitmap, m.numChunks, 0, c);
    var plan, ranges := RangePlan(id, Some(m)), Missing(m.bitmap, m.numChunks);
    if Covers(ranges, c) {
      var k :| 0 <= k < |ranges| && ranges[k].Contains(c);
      assert plan[k].range.Contains(c);
    }
  }

  // ---- what the sender already holds ----

  /** Without a status from the sender nothing counts as pending. */
  predicate IsAlreadyPending(status: Status, key: Key) {
    match status
    case None => false
    case Some(pending) =>
      match Find(pending, key.fileId)
      case None => false
      case Some(entry) =>
        if key.kind == ResendNameKind then entry.manifestPending else RangeIntersectsAny(key.range, entry.ranges)
  }

  ghost predicate SolidRanges(ranges: seq<RequestedRange>) {
    forall k :: 0 <= k < |ranges| ==> ranges[k].count > 0
  }

  lemma {:induction false} RangesSolid(items: seq<WorkItem>, f: i64)
    requires SenderBook.AllNonempty(items)
    ensures SolidRanges(RangesOf(items, f))
    decreases |items|
  {
    if items != [] {
      RangesSolid(items[..|items| - 1], f);
      assert SenderBook.Nonempty(items[|items| - 1]);
    }
  }

  /** Something of what the request asks for is queued. */
  ghost predicate OnQueue(items: seq<WorkItem>, key: Key) {
    if key.kind == ResendNameKind then HasManifest(items, key.fileId)
    else exists c: nat :: key.range.Contains(c) && ContainsChunk(items, key.fileId, c)
  }

  /** A request counts as pending exactly when the name, or one of the chunks, it asks for is queued. */
  lemma PendingIffQueued(items: seq<WorkItem>, key: Key)
    requires SenderBook.AllNonempty(items) && (key.kind == RetransmitKind ==> key.range.count > 0)
    ensures IsAlreadyPending(Some(Snapshot(items)), key) <==> OnQueue(items, key)
  {
    hide Snapshot, Find, ContainsChunk, AnyContains, RangesOf, HasFile, HasManifest, RangeIntersectsAny;
    var f, pending := key.fileId, Snapshot(items);
    SnapshotAgrees(items, f);
    if key.kind == ResendNameKind {
      if !HasFile(items, f) { NoRanges(items, f); }
    } else {
      forall c: nat ensures ContainsChunk(items, f, c)
        <==> Find(pending, f).Some? && AnyContains(Find(pending, f).value.ranges, c)
      {
        ContainsChunkAgrees(items, f, c);
      }
      if Find(pending, f).Some? {
        RangesSolid(items, f);
        IntersectsIffShared(key.range, Find(pending, f).value.ranges);
      }
    }
  }

  // ---- one request ----

  function Ask(p: Pass, key: Key, t: Tick, status: Status, budget: Budget, ttl: real): Pass {
    if IsAlreadyPending(status, key) then p
    else
      var tried := p.now + t.beforeInsert;
      if Live(p.entries, key, tried) then p.(now := tried)
      else
        var read := tried + t.beforeRead;
        var woke := if read - p.last < budget.minPeriod then read + (budget.minPeriod - (read - p.last)) else read;
        var at := woke + t.late;
        Pass(p.calls + [Call(key, at, t.reply)], Inserted(p.entries, key, tried, ttl), at, at,
             if t.reply then p.sent + 1 else p.sent)
  }

  function AskFrom(p: Pass, plan: seq<Key>, i: nat, script: nat -> Tick, status: Status,
      budget: Budget, ttl: real): Pass
    requires i <= |plan|
    decreases |plan| - i
  {
    if i == |plan| || p.sent >= budget.maxInFlight then p
    else AskFrom(Ask(p, plan[i], script(i), status, budget, ttl), plan, i + 1, script, status, budget, ttl)
  }

  /** The pass starts as if the last request had gone out a minute ago, where the clock reaches back that far. */
  function Begin(entries: Entries, now: real, reaches: bool): Pass {
    Pass([], entries, now, if reaches then now - 60.0 else now, 0)
  }

  method RunPass(rs: seq<Reading>, status: Status, budget: Budget, dedup: DedupTable,
                 script: nat -> Tick, start: real, reaches: bool)
    returns (calls: seq<Call>, saved: Table)
    modifies dedup
    ensures var p := AskFrom(Begin(old(dedup.entries), start, reaches), PlanFor(rs), 0, script, status, budget,
        dedup.ttl);
      calls == p.calls && dedup.entries == Collected(p.entries, p.now) && saved == Saved(dedup.entries, p.now)
  {
    hide PlanFor, Ask, Collected, Saved, IsAlreadyPending, Live;
    var planned := MakePlan(rs);
    var sent, now := 0, start;
    var last := if reaches then now - 60.0 else now;
    calls := [];
    var i := 0;
    while i < |planned|
      invariant 0 <= i <= |planned|
      invariant AskFrom(Pass(calls, dedup.entries, now, last, sent), planned, i, script, status, budget, dedup.ttl)
        == AskFrom(Begin(old(dedup.entries), start, reaches), planned, 0, script, status, budget, dedup.ttl)
    {
      if sent >= budget.maxInFlight { break; }
      ghost var p := Pass(calls, dedup.entries, now, last, sent);
      var call;
      now, last, call := AskOne(p, planned[i], script(i), status, budget, dedup, now, last);
      if call.Some? {
        calls := calls + [call.value];
        if call.value.ok { sent := sent + 1; }
      }
      assert Pass(calls, dedup.entries, now, last, sent) == Ask(p, planned[i], script(i), status, budget, dedup.ttl);
      i := i + 1;
    }
    dedup.Gc(now);
    saved := dedup.Save(now);
  }

  /** One turn of the request loop. */
  method AskOne(ghost p: Pass, key: Key, t: Tick, status: Status, budget: Budget, dedup: DedupTable,
                start: real, before: real)
    returns (now: real, last: real, call: Option<Call>)
    requires p.entries == dedup.entries && p.now == start && p.last == before
    modifies dedup
    ensures Pass(if call.Some? then p.calls + [call.value] else p.calls, dedup.entries, now, last,
                 if call.Some? && call.value.ok then p.sent + 1 else p.sent)
      == Ask(p, key, t, status, budget, dedup.ttl)
  {
    now, last, call := start, before, None;
    if IsAlreadyPending(status, key) { return; }
    now := now + t.beforeInsert;
    var added := dedup.TryInsert(key, now);
    if !added { return; }
    now := now + t.beforeRead;
    var since := now - last;
    if since < budget.minPeriod { now := now + (budget.minPeriod - since); }
    now := now + t.late;
    last := now;
    call := Some(Call(key, now, t.reply));
  }

  // ---- budget and spacing ----

  function Acknowledged(calls: seq<Call>): nat {
    if calls == [] then 0 else Acknowledged(calls[..|calls| - 1]) + if calls[|calls| - 1].ok then 1 else 0
  }

  /** Requests are at least the link's minimum period apart. */
  ghost predicate Spaced(calls: seq<Call>, period: real) {
    forall k :: 0 < k < |calls| ==> calls[k].at - calls[k - 1].at >= period
  }

  ghost predicate InPass(p: Pass, budget: Budget) {
    && p.sent == Acknowledged(p.calls) <= budget.maxInFlight && p.last <= p.now
    && Spaced(p.calls, budget.minPeriod) && (p.calls != [] ==> p.calls[|p.calls| - 1].at == p.last)
  }

  lemma AskStays(p: Pass, key: Key, t: Tick, status: Status, budget: Budget, ttl: real)
    requires InPass(p, budget) && p.sent < budget.maxInFlight
    ensures InPass(Ask(p, key, t, status, budget, ttl), budget)
  {
    hide IsAlreadyPending;
    var p' := Ask(p, key, t, status, budget, ttl);
    if |p'.calls| > |p.calls| { assert p'.calls[..|p'.calls| - 1] == p.calls; }
  }

  lemma {:induction false} RestStays(p: Pass, plan: seq<Key>, i: nat, script: nat -> Tick,
      status: Status, budget: Budget, ttl: real)
    requires i <= |plan| && InPass(p, budget)
    ensures InPass(AskFrom(p, plan, i, script, status, budget, ttl), budget)
    decreases |plan| - i
  {
    hide Ask, InPass;
    if i < |plan| && p.sent < budget.maxInFlight {
      AskStays(p, plan[i], script(i), status, budget, ttl);
      RestStays(Ask(p, plan[i], script(i), status, budget, ttl), plan, i + 1, script, status, budget, ttl);
    }
  }

  /** Whatever the plan, the clock and the replies, a pass keeps to the budget of its link. */
  lemma PassKeepsBudget(entries: Entries, now: real, reaches: bool, plan: seq<Key>, script: nat -> Tick,
      status: Status, budget: Budget, ttl: real)
    ensures var p := AskFrom(Begin(entries, now, reaches), plan, 0, script, status, budget, ttl);
      Acknowledged(p.calls) <= budget.maxInFlight && Spaced(p.calls, budget.minPeriod)
  {
    RestStays(Begin(entries, now, reaches), plan, 0, script, status, budget, ttl);
  }

  /**
   A request waits for the spacing and no longer: what delays it beyond that is the clock's. It is
   remembered for the time to live, acknowledged or not.
   */
  lemma AskedWithoutDelay(p: Pass, key: Key, t: Tick, status: Status, budget: Budget, ttl: real)
    requires |Ask(p, key, t, status, budget, ttl).calls| > |p.calls|
    ensures var p' := Ask(p, key, t, status, budget, ttl);
      var ready, spaced := p.now + t.beforeInsert + t.beforeRead, p.last + budget.minPeriod;
      && p'.calls == p.calls + [Call(key, (if ready < spaced then spaced else ready) + t.late, t.reply)]
      && p'.now == p'.last == p'.calls[|p.calls|].at
      && p'.entries == p.entries[key := p.now + t.beforeInsert + ttl]
  {
    hide IsAlreadyPending, Live;
  }

  /** The first request of a pass does not wait, on links that space requests by up to a minute. */
  lemma FirstAskedAtOnce(entries: Entries, now: real, key: Key, t: Tick, status: Status, budget: Budget, ttl: real)
    requires budget.minPeriod <= 60.0
    ensures var p' := Ask(Begin(entries, now, true), key, t, status, budget, ttl);
      p'.calls != [] ==> p'.calls[0].at == now + t.beforeInsert + t.beforeRead + t.late
  {
    hide IsAlreadyPending, Live;
  }

  // ---- which requests are made ----

  predicate Called(calls: seq<Call>, key: Key) {
    exists k :: 0 <= k < |calls| && calls[k].key == key
  }

  /** The request was made, or the sender held it, or the table did when the pass began. */
  ghost predicate Settled(calls: seq<Call>, key: Key, status: Status, e0: Entries, t0: real) {
    Called(calls, key) || IsAlreadyPending(status, key) || Live(e0, key, t0)
  }

  /** What a pass has done with the plan before position `i`, from a table `e0` at time `t0`. */
  ghost predicate Sifted(p: Pass, plan: seq<Key>, i: nat, e0: Entries, t0: real, status: Status)
    requires i <= |plan|
  {
    && t0 <= p.now && p.last <= p.now
    && (forall k :: 0 <= k < |p.calls| ==> Proper(p.calls[k], e0, t0, status) && p.calls[k].key in plan[..i])
    && (forall k :: 0 <= k < i ==> Settled(p.calls, plan[k], status, e0, t0))
    && (forall k :: i <= k < |plan| ==> SameHold(p.entries, e0, plan[k]))
  }

  ghost predicate SameHold(a: Entries, b: Entries, key: Key) {
    (key in a <==> key in b) && (key in b ==> a[key] == b[key])
  }

  /** A request is made only for what the sender does not hold and the table has let go. */
  ghost predicate Proper(c: Call, e0: Entries, t0: real, status: Status) {
    t0 <= c.at && !IsAlreadyPending(status, c.key) && !Live(e0, c.key, c.at)
  }

  lemma AskSifts(p: Pass, plan: seq<Key>, i: nat, t: Tick, e0: Entries, t0: real, status: Status, budget: Budget,
      ttl: real)
    requires i < |plan| && Distinct(plan) && Sifted(p, plan, i, e0, t0, status)
    ensures Sifted(Ask(p, plan[i], t, status, budget, ttl), plan, i + 1, e0, t0, status)
  {
    hide IsAlreadyPending, Called, Settled;
    var p' := Ask(p, plan[i], t, status, budget, ttl);
    assert plan[..i + 1] == plan[..i] + [plan[i]];
    assert forall key :: key in plan[..i] ==> key in plan[..i + 1];
    forall k | 0 <= k < i + 1 ensures Settled(p'.calls, plan[k], status, e0, t0) {
      if k < i {
        SettledStays(p.calls, p'.calls, plan[k], status, e0, t0);
      } else {
        assert SameHold(p.entries, e0, plan[i]);
        AskSettles(p, plan[i], t, e0, t0, status, budget, ttl);
      }
    }
  }

  lemma SettledStays(calls: seq<Call>, more: seq<Call>, key: Key, status: Status, e0: Entries, t0: real)
    requires calls <= more && Settled(calls, key, status, e0, t0)
    ensures Settled(more, key, status, e0, t0)
  {
    CalledStays(calls, more, key);
  }

  lemma AskSettles(p: Pass, key: Key, t: Tick, e0: Entries, t0: real, status: Status, budget: Budget, ttl: real)
    requires t0 <= p.now && SameHold(p.entries, e0, key)
    ensures Settled(Ask(p, key, t, status, budget, ttl).calls, key, status, e0, t0)
  {
    hide IsAlreadyPending, Called;
    var p' := Ask(p, key, t, status, budget, ttl);
    if |p'.calls| > |p.calls| { LastCalled(p'.calls); }
  }

  lemma CalledStays(calls: seq<Call>, more: seq<Call>, key: Key)
    requires calls <= more
    ensures Called(calls, key) ==> Called(more, key)
  {
    if Called(calls, key) {
      var j :| 0 <= j < |calls| && calls[j].key == key;
      assert more[j].key == key;
    }
  }

  lemma LastCalled(calls: seq<Call>)
    requires calls != []
    ensures Called(calls, calls[|calls| - 1].key)
  {
  }

  lemma {:induction false} RestSifts(p: Pass, plan: seq<Key>, i: nat, script: nat -> Tick, e0: Entries,
      t0: real, status: Status, budget: Budget, ttl: real)
    returns (upTo: nat)
    requires i <= |plan| && Distinct(plan) && Sifted(p, plan, i, e0, t0, status)
    ensures i <= upTo <= |plan|
    ensures var q := AskFrom(p, plan, i, script, status, budget, ttl);
      Sifted(q, plan, upTo, e0, t0, status) && (upTo < |plan| ==> q.sent >= budget.maxInFlight)
    decreases |plan| - i
  {
    hide Ask, Sifted;
    if i < |plan| && p.sent < budget.maxInFlight {
      AskSifts(p, plan, i, script(i), e0, t0, status, budget, ttl);
      var p' := Ask(p, plan[i], script(i), status, budget, ttl);
      upTo := RestSifts(p', plan, i + 1, script, e0, t0, status, budget, ttl);
    } else {
      upTo := i;
    }
  }

  /** What the sender answers when its queue is as given; nothing if it cannot be asked. */
  function StatusOf(queue: Option<seq<WorkItem>>): Status {
    match queue case None => None case Some(items) => Some(Snapshot(items))
  }

  /** The sender answered, and something of what the request asks for is queued. */
  ghost predicate KnownQueued(queue: Option<seq<WorkItem>>, key: Key) {
    queue.Some? && OnQueue(queue.value, key)
  }

  lemma PendingIffKnown(queue: Option<seq<WorkItem>>, plan: seq<Key>)
    requires Substantial(plan) && (queue.Some? ==> SenderBook.AllNonempty(queue.value))
    ensures forall key :: key in plan ==> (IsAlreadyPending(StatusOf(queue), key) <==> KnownQueued(queue, key))
  {
    hide IsAlreadyPending, OnQueue;
    forall key | key in plan ensures IsAlreadyPending(StatusOf(queue), key) <==> KnownQueued(queue, key) {
      if queue.Some? { PendingIffQueued(queue.value, key); } else { NonePending(key); }
    }
  }

  lemma NonePending(key: Key)
    ensures !IsAlreadyPending(None, key)
  {
  }

  /**
   A pass asks only for planned gaps of which no chunk is queued, and that were not asked for
   recently; and unless its budget is spent it asks for all of those. A sender that does not answer
   counts as having nothing queued.
   */
  lemma PassAsksForGaps(entries: Entries, now: real, reaches: bool, rs: seq<Reading>, script: nat -> Tick,
      queue: Option<seq<WorkItem>>, budget: Budget, ttl: real)
    requires IdsAscend(rs) && (queue.Some? ==> SenderBook.AllNonempty(queue.value))
    ensures var plan := PlanFor(rs); var p := AskFrom(Begin(entries, now, reaches), plan, 0, script, StatusOf(queue),
        budget, ttl);
      && (forall k :: 0 <= k < |p.calls| ==>
          p.calls[k].key in plan && now <= p.calls[k].at
          && !KnownQueued(queue, p.calls[k].key) && !Live(entries, p.calls[k].key, p.calls[k].at))
      && (Acknowledged(p.calls) < budget.maxInFlight ==>
          forall k :: 0 <= k < |plan| ==>
            Called(p.calls, plan[k]) || KnownQueued(queue, plan[k]) || Live(entries, plan[k], now))
  {
    hide IsAlreadyPending, KnownQueued;
    var plan, p0, status := PlanFor(rs), Begin(entries, now, reaches), StatusOf(queue);
    PlanIsApart(rs);
    ApartDistinct(plan);
    PendingIffKnown(queue, plan);
    var upTo := RestSifts(p0, plan, 0, script, entries, now, status, budget, ttl);
    RestStays(p0, plan, 0, script, status, budget, ttl);
    assert plan[..|plan|] == plan;
    var p := AskFrom(p0, plan, 0, script, status, budget, ttl);
    assert forall k :: 0 <= k < |p.calls| ==>
      Proper(p.calls[k], entries, now, status) && p.calls[k].key in plan[..upTo];
    assert upTo == |plan| ==> forall k :: 0 <= k < |plan| ==> Settled(p.calls, plan[k], status, entries, now);
  }

  // ---- a pass with nothing in its way ----

  function KeysOf(calls: seq<Call>): (keys: seq<Key>)
    ensures |keys| == |calls| && forall k :: 0 <= k < |calls| ==> keys[k] == calls[k].key
  {
    seq(|calls|, k requires 0 <= k < |calls| => calls[k].key)
  }

  /** Nothing of the plan is remembered at `now`; every request is acknowledged; the budget covers it. */
  ghost predicate Forgotten(plan: seq<Key>, entries: Entries, now: real, script: nat -> Tick, budget: Budget) {
    && |plan| <= budget.maxInFlight && (forall k :: 0 <= k < |plan| ==> script(k).reply)
    && forall k :: 0 <= k < |plan| ==> !Live(entries, plan[k], now)
  }

  /** And nothing of it is queued. */
  ghost predicate Unhindered(plan: seq<Key>, entries: Entries, now: real, script: nat -> Tick, status: Status,
      budget: Budget) {
    && Forgotten(plan, entries, now, script, budget)
    && forall k :: 0 <= k < |plan| ==> !IsAlreadyPending(status, plan[k])
  }

  /** The first `i` planned requests were made and acknowledged. */
  ghost predicate AskedSoFar(p: Pass, plan: seq<Key>, i: nat, e0: Entries, t0: real)
    requires i <= |plan|
  {
    && KeysOf(p.calls) == plan[..i] && p.sent == i && t0 <= p.now && p.last <= p.now
    && forall k :: i <= k < |plan| ==> SameHold(p.entries, e0, plan[k])
  }

  lemma AskNextKey(p: Pass, plan: seq<Key>, i: nat, e0: Entries, t0: real, script: nat -> Tick, status: Status,
      budget: Budget, ttl: real)
    requires i < |plan| && Distinct(plan) && Unhindered(plan, e0, t0, script, status, budget)
    requires AskedSoFar(p, plan, i, e0, t0)
    ensures AskedSoFar(Ask(p, plan[i], script(i), status, budget, ttl), plan, i + 1, e0, t0)
  {
    hide IsAlreadyPending;
    var key, t := plan[i], script(i);
    assert SameHold(p.entries, e0, key);
    assert !Live(p.entries, key, p.now + t.beforeInsert);
    var p' := Ask(p, key, t, status, budget, ttl);
    assert KeysOf(p'.calls) == KeysOf(p.calls) + [key] == plan[..i + 1];
  }

  lemma {:induction false} AskAllKeys(p: Pass, plan: seq<Key>, i: nat, e0: Entries, t0: real, script: nat -> Tick,
      status: Status, budget: Budget, ttl: real)
    requires i <= |plan| && Distinct(plan) && Unhindered(plan, e0, t0, script, status, budget)
    requires AskedSoFar(p, plan, i, e0, t0)
    ensures KeysOf(AskFrom(p, plan, i, script, status, budget, ttl).calls) == plan
    decreases |plan| - i
  {
    hide Ask, Live, IsAlreadyPending, Distinct, SameHold;
    if i < |plan| {
      AskNextKey(p, plan, i, e0, t0, script, status, budget, ttl);
      AskAllKeys(Ask(p, plan[i], script(i), status, budget, ttl), plan, i + 1, e0, t0, script, status, budget, ttl);
    } else {
      assert plan[..|plan|] == plan;
    }
  }

  /** Such a pass asks for its whole plan, in order. */
  lemma UnhinderedPassAsksAll(entries: Entries, now: real, reaches: bool, rs: seq<Reading>, script: nat -> Tick,
      status: Status, budget: Budget, ttl: real)
    requires IdsAscend(rs) && Unhindered(PlanFor(rs), entries, now, script, status, budget)
    ensures KeysOf(AskFrom(Begin(entries, now, reaches), PlanFor(rs), 0, script, status, budget, ttl).calls)
      == PlanFor(rs)
  {
    PlanIsApart(rs);
    ApartDistinct(PlanFor(rs));
    hide PlanFor, Unhindered, AskFrom;
    AskAllKeys(Begin(entries, now, reaches), PlanFor(rs), 0, entries, now, script, status, budget, ttl);
  }

  // ---- the request as the sender reads it ----

  /** `as i32`: the two's complement reading of a `u32`. */
  function AsI32(x: u32): Sender.i32 {
    if x < 0x8000_0000 then x else x - U32
  }

  /** What a request for a range means: its chunks up to the end of the file, at least one. */
  function Meant(id: i64, range: RequestedRange, total: nat): Queue.WorkItem
    requires range.start < total
  {
    var wanted := if range.count == 0 then 1 else range.count;
    var left := total - range.start;
    RetransmitItem(id, RequestedRange(range.start, if wanted <= left then wanted else left))
  }

  /**
   A range is queued as meant exactly when it starts below 2^31 and inside the file; from 2^31 on
   the sign bit turns the request into one for the whole file.
   */
  lemma RequestedAsMeant(rows: Ledger.Rows, chunkSize: nat, id: i64, range: RequestedRange)
    requires chunkSize >= 64 && range.start < U32 && range.count < U32 && id in rows && rows[id].fileId == id
    ensures var asked := Sender.Asked(rows, chunkSize, id, AsI32(range.start), range.count);
      var total := Sender.Total(rows[id].fileSize, chunkSize);
      && (range.start < total && asked == Success([Meant(id, range, total)])
          <==> range.start < total && range.start < 0x8000_0000)
      && (range.start < 0x8000_0000 && range.start >= total ==> asked == Failure(Errors.OutOfRange(range.start, total)))
      && (range.start >= 0x8000_0000 ==> asked == Success(SenderBook.FullFile(id, rows[id].fileName, total)))
  {
    hide Sender.Total;
  }
}
