/**
 A pass of the cleaner as a run of the closed loop: reading the sidecars and making the requests
 one after another are steps of that machine, so what `ClosedLoop` proves of every interleaving
 holds of the pass that `Cleaner` proves correct.
 */
module PassRun {
  import opened Wrappers
  import opened Bytes
  import opened Queue
  import opened Dedup
  import opened Cleaner
  import opened ClosedLoop
  import Delivery
  import Ledger
  import Sender
  import SenderBook

  /** The sender's queue after it has heard these requests. */
  function Heard(x: Fixed, keys: seq<Key>, items: seq<WorkItem>): seq<WorkItem>
    requires x.chunkSize >= 64
    decreases |keys|
  {
    if keys == [] then items else Heard(x, keys[1..], RequestItems(x, keys[0]) + items)
  }

  /** The requests among these calls that the sender heard, acknowledged or not. */
  function HeardKeys(calls: seq<Call>, hears: Key -> bool): seq<Key> {
    if calls == [] then []
    else (if hears(calls[0].key) then [calls[0].key] else []) + HeardKeys(calls[1..], hears)
  }

  /** The step of the closed loop that one turn of the request loop takes. */
  function AskEvent(p: Pass, key: Key, t: Tick, hears: Key -> bool): Event {
    AskNext(!Live(p.entries, key, p.now + t.beforeInsert), hears(key))
  }

  function AskEvents(p: Pass, plan: seq<Key>, i: nat, script: nat -> Tick, hears: Key -> bool, status: Status,
      budget: Budget, ttl: real): seq<Event>
    requires i <= |plan|
    decreases |plan| - i
  {
    if i == |plan| || p.sent >= budget.maxInFlight then []
    else
      var p' := Cleaner.Ask(p, plan[i], script(i), status, budget, ttl);
      [AskEvent(p, plan[i], script(i), hears)] + AskEvents(p', plan, i + 1, script, hears, status, budget, ttl)
  }

  /** One turn: the queue grows by what is heard of the call it makes, if it makes one. */
  lemma AskIsStep(x: Fixed, s: Loop, p: Pass, t: Tick, hears: Key -> bool, budget: Budget, ttl: real)
    requires x.chunkSize >= 64 && s.phase.Asking? && s.phase.next < |Plan(s.phase.looks)|
    ensures var key := Plan(s.phase.looks)[s.phase.next];
      var e, p' := AskEvent(p, key, t, hears), Cleaner.Ask(p, key, t, Some(s.phase.pending), budget, ttl);
      Enabled(s, e) && p.calls <= p'.calls
      && Next(x, s, e).items == Heard(x, HeardKeys(p'.calls[|p.calls|..], hears), s.items)
      && Next(x, s, e).phase == s.phase.(next := s.phase.next + 1) && Next(x, s, e).ground == s.ground
  {
    hide Plan, IsAlreadyPending, RequestItems, ThenOf;
    var key := Plan(s.phase.looks)[s.phase.next];
    var p' := Cleaner.Ask(p, key, t, Some(s.phase.pending), budget, ttl);
    var made := p'.calls[|p.calls|..];
    assert made == [] || (|made| == 1 && made[0].key == key && made[1..] == []);
    if made != [] && hears(key) {
      assert HeardKeys(made, hears) == [key] + [] && [key][1..] == [];
      assert Heard(x, [key], s.items) == RequestItems(x, key) + s.items;
    }
  }

  lemma {:induction false} HeardInTurn(x: Fixed, a: seq<Key>, b: seq<Key>, items: seq<WorkItem>)
    requires x.chunkSize >= 64
    ensures Heard(x, a + b, items) == Heard(x, b, Heard(x, a, items))
    decreases |a|
  {
    hide RequestItems;
    if a == [] {
      assert a + b == b;
    } else {
      assert (a + b)[1..] == a[1..] + b;
      HeardInTurn(x, a[1..], b, RequestItems(x, a[0]) + items);
    }
  }

  lemma {:induction false} HeardKeysInTurn(a: seq<Call>, b: seq<Call>, hears: Key -> bool)
    ensures HeardKeys(a + b, hears) == HeardKeys(a, hears) + HeardKeys(b, hears)
    decreases |a|
  {
    if a == [] {
      assert a + b == b;
    } else {
      assert (a + b)[1..] == a[1..] + b;
      HeardKeysInTurn(a[1..], b, hears);
      var head := if hears(a[0].key) then [a[0].key] else [];
      assert head + (HeardKeys(a[1..], hears) + HeardKeys(b, hears)) == HeardKeys(a, hears) + HeardKeys(b, hears);
    }
  }

  /** These steps can be taken, and leave the queue as hearing the calls made between `p` and `q` does. */
  ghost predicate Follows(x: Fixed, s: Loop, es: seq<Event>, p: Pass, q: Pass, hears: Key -> bool)
    requires x.chunkSize >= 64
  {
    && EnabledRun(x, s, es) && p.calls <= q.calls
    && RunLoop(x, s, es).items == Heard(x, HeardKeys(q.calls[|p.calls|..], hears), s.items)
    && RunLoop(x, s, es).ground == s.ground
  }

  lemma OneMore(x: Fixed, s: Loop, e: Event, es: seq<Event>, p: Pass, p': Pass, q: Pass, hears: Key -> bool)
    requires x.chunkSize >= 64 && Enabled(s, e) && p.calls <= p'.calls && Next(x, s, e).ground == s.ground
    requires Next(x, s, e).items == Heard(x, HeardKeys(p'.calls[|p.calls|..], hears), s.items)
    requires Follows(x, Next(x, s, e), es, p', q, hears)
    ensures Follows(x, s, [e] + es, p, q, hears)
  {
    hide Enabled, Next, Heard, HeardKeys;
    assert ([e] + es)[1..] == es;
    var made, later := p'.calls[|p.calls|..], q.calls[|p'.calls|..];
    assert q.calls[|p.calls|..] == made + later;
    HeardKeysInTurn(made, later, hears);
    HeardInTurn(x, HeardKeys(made, hears), HeardKeys(later, hears), s.items);
  }

  lemma NoMore(x: Fixed, s: Loop, p: Pass, hears: Key -> bool)
    requires x.chunkSize >= 64
    ensures Follows(x, s, [], p, p, hears)
  {
    assert p.calls[|p.calls|..] == [];
  }

  /** When every request is heard. */
  lemma {:induction false} AllHeard(calls: seq<Call>, hears: Key -> bool)
    requires forall key :: hears(key)
    ensures HeardKeys(calls, hears) == KeysOf(calls)
  {
    if calls != [] { AllHeard(calls[1..], hears); }
  }

  /**
   The request loop, whatever its clock, its replies and which of its requests are heard, is a run
   of the closed loop, and leaves the sender's queue as hearing those requests does.
   */
  lemma {:induction false} AskFromIsLoop(x: Fixed, s: Loop, p: Pass, script: nat -> Tick, hears: Key -> bool,
      budget: Budget, ttl: real)
    requires x.chunkSize >= 64 && s.phase.Asking? && s.phase.next <= |Plan(s.phase.looks)|
    ensures var plan, i, status := Plan(s.phase.looks), s.phase.next, Some(s.phase.pending);
      Follows(x, s, AskEvents(p, plan, i, script, hears, status, budget, ttl), p,
        AskFrom(p, plan, i, script, status, budget, ttl), hears)
    decreases |Plan(s.phase.looks)| - s.phase.next
  {
    hide Plan, Cleaner.Ask, Heard, HeardKeys, RequestItems, Enabled, Next, AskEvent, Follows;
    var plan, i, status := Plan(s.phase.looks), s.phase.next, Some(s.phase.pending);
    if i < |plan| && p.sent < budget.maxInFlight {
      var e, p' := AskEvent(p, plan[i], script(i), hears), Cleaner.Ask(p, plan[i], script(i), status, budget, ttl);
      AskIsStep(x, s, p, script(i), hears, budget, ttl);
      AskFromIsLoop(x, Next(x, s, e), p', script, hears, budget, ttl);
      OneMore(x, s, e, AskEvents(p', plan, i + 1, script, hears, status, budget, ttl), p, p',
        AskFrom(p', plan, i + 1, script, status, budget, ttl), hears);
    } else {
      NoMore(x, s, p, hears);
    }
  }

  lemma {:induction false} RunInTurn(x: Fixed, s: Loop, a: seq<Event>, b: seq<Event>)
    requires x.chunkSize >= 64 && EnabledRun(x, s, a) && EnabledRun(x, RunLoop(x, s, a), b)
    ensures EnabledRun(x, s, a + b) && RunLoop(x, s, a + b) == RunLoop(x, RunLoop(x, s, a), b)
    decreases |a|
  {
    hide Enabled, Next;
    if a == [] {
      assert a + b == b;
    } else {
      assert (a + b)[1..] == a[1..] + b;
      RunInTurn(x, Next(x, s, a[0]), a[1..], b);
    }
  }

  /** The steps of planning: both readings of every sidecar in turn. */
  function ReadEvents(ids: seq<i64>): seq<Event> {
    if ids == [] then [] else ReadEvents(ids[..|ids| - 1]) + [ReadName(ids[|ids| - 1]), ReadGaps]
  }

  /** The looks these steps take while the ground rests. */
  function Looks(g: Delivery.Ground, ids: seq<i64>): (looks: seq<Look>)
    ensures |looks| == |ids|
    ensures forall k :: 0 <= k < |ids| ==> looks[k] == Look(Reading(ids[k], g.At(ids[k]).manifest,
        g.At(ids[k]).manifest), g)
  {
    seq(|ids|, k requires 0 <= k < |ids| => Look(Reading(ids[k], g.At(ids[k]).manifest, g.At(ids[k]).manifest), g))
  }

  ghost predicate ReadableAll(g: Delivery.Ground, ids: seq<i64>) {
    (forall k, l :: 0 <= k < l < |ids| ==> ids[k] < ids[l])
    && forall k :: 0 <= k < |ids| ==> Countable31(g.At(ids[k]).manifest)
  }

  lemma {:induction false} PlanningReads(x: Fixed, s: Loop, ids: seq<i64>)
    requires x.chunkSize >= 64 && s.phase.Planning? && s.phase.half == None && s.phase.looks == []
    requires ReadableAll(s.ground, ids)
    ensures EnabledRun(x, s, ReadEvents(ids))
    ensures RunLoop(x, s, ReadEvents(ids)) == s.(phase := Planning(s.phase.pending, Looks(s.ground, ids), None))
    decreases |ids|
  {
    if ids != [] {
      var front, id := ids[..|ids| - 1], ids[|ids| - 1];
      PlanningReads(x, s, front);
      var s1 := RunLoop(x, s, ReadEvents(front));
      OneRead(x, s1, id);
      hide Next, Enabled;
      assert s1.phase.looks + [Look(Reading(id, s.ground.At(id).manifest, s.ground.At(id).manifest), s.ground)]
        == Looks(s.ground, ids);
      RunInTurn(x, s, ReadEvents(front), [ReadName(id), ReadGaps]);
    }
  }

  lemma OneRead(x: Fixed, s: Loop, id: i64)
    requires x.chunkSize >= 64 && s.phase.Planning? && s.phase.half == None && Countable31(s.ground.At(id).manifest)
    requires forall k :: 0 <= k < |s.phase.looks| ==> s.phase.looks[k].reading.fileId < id
    ensures EnabledRun(x, s, [ReadName(id), ReadGaps])
    ensures RunLoop(x, s, [ReadName(id), ReadGaps]) == s.(phase := Planning(s.phase.pending, s.phase.looks
      + [Look(Reading(id, s.ground.At(id).manifest, s.ground.At(id).manifest), s.ground)], None))
  {
    var es := [ReadName(id), ReadGaps];
    assert es[1..] == [ReadGaps] && es[1..][1..] == [];
    var s1 := Next(x, s, es[0]);
    assert RunLoop(x, s, es) == RunLoop(x, Next(x, s1, ReadGaps), []);
  }

  /** A whole pass over these files, up to its last request. */
  function PassEvents(g: Delivery.Ground, items: seq<WorkItem>, ids: seq<i64>, start: Pass, script: nat -> Tick,
      hears: Key -> bool, budget: Budget, ttl: real): seq<Event>
  {
    [StartPass] + ReadEvents(ids) + ([StartAsking]
      + AskEvents(start, Plan(Looks(g, ids)), 0, script, hears, Some(Snapshot(items)), budget, ttl))
  }

  /** The requests of a pass whose sidecars and status are read while ground and queue rest. */
  function CallsOf(g: Delivery.Ground, items: seq<WorkItem>, ids: seq<i64>, start: Pass, script: nat -> Tick,
      budget: Budget, ttl: real): seq<Call>
  {
    AskFrom(start, Plan(Looks(g, ids)), 0, script, Some(Snapshot(items)), budget, ttl).calls
  }

  lemma PassIsLoop(x: Fixed, g: Delivery.Ground, items: seq<WorkItem>, ids: seq<i64>, start: Pass,
      script: nat -> Tick, hears: Key -> bool, budget: Budget, ttl: real)
    requires x.chunkSize >= 64 && ReadableAll(g, ids) && start.calls == []
    ensures var s, es := Loop(items, g, Idle, []), PassEvents(g, items, ids, start, script, hears, budget, ttl);
      var calls := CallsOf(g, items, ids, start, script, budget, ttl);
      EnabledRun(x, s, es) && RunLoop(x, s, es).items == Heard(x, HeardKeys(calls, hears), items)
  {
    var s, pending := Loop(items, g, Idle, []), Snapshot(items);
    var s1 := s.(phase := Planning(pending, [], None));
    var s2 := s.(phase := Planning(pending, Looks(g, ids), None));
    var s3 := s.(phase := Asking(pending, Looks(g, ids), 0));
    OneStep(x, s, StartPass);
    OneStep(x, s2, StartAsking);
    PlanningReads(x, s1, ids);
    hide Enabled, Next, RunLoop, EnabledRun, Snapshot, AskFrom, AskEvents, Plan, Heard, HeardKeys;
    AskFromIsLoop(x, s3, start, script, hears, budget, ttl);
    var asks := AskEvents(start, Plan(Looks(g, ids)), 0, script, hears, Some(pending), budget, ttl);
    RunInTurn(x, s2, [StartAsking], asks);
    RunInTurn(x, s, [StartPass], ReadEvents(ids));
    RunInTurn(x, s, [StartPass] + ReadEvents(ids), [StartAsking] + asks);
    var calls := CallsOf(g, items, ids, start, script, budget, ttl);
    assert calls[|start.calls|..] == calls;
  }

  lemma OneStep(x: Fixed, s: Loop, e: Event)
    requires x.chunkSize >= 64 && Enabled(s, e)
    ensures EnabledRun(x, s, [e]) && RunLoop(x, s, [e]) == Next(x, s, e)
  {
    hide Next;
    assert [e][1..] == [];
  }

  /** So a pass leaves no chunk queued twice if none was, whichever of its requests are heard. */
  lemma PassQueuesNothingTwice(x: Fixed, g: Delivery.Ground, items: seq<WorkItem>, ids: seq<i64>, start: Pass,
      script: nat -> Tick, hears: Key -> bool, budget: Budget, ttl: real)
    requires Sane(x) && ReadableAll(g, ids) && start.calls == []
    requires NoneTwice(items) && SenderBook.AllNonempty(items)
    ensures NoneTwice(Heard(x, HeardKeys(CallsOf(g, items, ids, start, script, budget, ttl), hears), items))
  {
    hide NoneTwice, SenderBook.AllNonempty, RunLoop, EnabledRun, CallsOf, PassEvents, Heard, HeardKeys, ReadableAll;
    PassIsLoop(x, g, items, ids, start, script, hears, budget, ttl);
    FromAnyQueue(x, items, g, PassEvents(g, items, ids, start, script, hears, budget, ttl));
  }

  /** The control call a request makes: what the sender's runtime does with it is what `RequestItems` says. */
  method Hear(rt: Sender.SenderRuntime, key: Key, now: int) returns (ok: bool)
    requires rt.Valid() && key.range.start < U32 && key.range.count < U32
    modifies rt`book, rt.queue, rt.ledger
    ensures rt.Valid()
    ensures rt.queue.items
      == RequestItems(Fixed(old(rt.ledger.rows), rt.chunkSize), key) + old(rt.queue.items)
    ensures ok <==> RequestItems(Fixed(old(rt.ledger.rows), rt.chunkSize), key) != []
  {
    hide RequestItems, Sender.Asked, SenderBook.Record, SenderBook.InBalance, SenderBook.Items, Sender.AllCarried;
    hide Sender.AllAddressed, Sender.SizesFit, Ledger.MarkedQueued, Ledger.Keyed, Sender.Within;
    ghost var items := rt.queue.items;
    RequestIs(Fixed(rt.ledger.rows, rt.chunkSize), key);
    var r;
    if key.kind == ResendNameKind {
      r := rt.ResendName(key.fileId);
    } else {
      r := rt.Enqueue(key.fileId, AsI32(key.range.start), key.range.count, true, now);
    }
    assert [] + items == items;
    ok := r.Success?;
  }

  lemma RequestIs(x: Fixed, key: Key)
    requires x.chunkSize >= 64 && key.range.start < U32 && key.range.count < U32
    ensures key.kind == ResendNameKind ==>
      var known := key.fileId in x.rows;
      RequestItems(x, key) == if known then [ManifestItem(key.fileId, x.rows[key.fileId].fileName)] else []
    ensures key.kind == RetransmitKind ==>
      var asked := Sender.Asked(x.rows, x.chunkSize, key.fileId, AsI32(key.range.start), key.range.count);
      && RequestItems(x, key) == (if asked.Success? then asked.value else [])
      && (asked.Success? ==> asked.value != [])
  {
    hide Sender.Total;
  }
}
