/**
 Catching files lost whole (reconcile.rs and cleaner/reconciler.rs): compare the newest
 ledger snapshot with what has landed, and ask again for what is missing, at most once per
 period. Clock readings are nanoseconds since the epoch.
 */
module Reconcile {
  import opened Wrappers
  import opened Bytes
  import opened Errors
  import opened GroundPaths
  import opened Snapshot

  const NANOS: int := 1_000_000_000

  datatype Verdict =
    | Complete
    | SizeMismatch(expected: u64, found: nat)
    | InFlight(stale: bool)
    | Queued
    | TooRecent
    | GoneOnPayload
    | Missing

  /** What the ground and the sender know; `pending` is `None` if the sender could not be asked. */
  datatype GroundState = GroundState(inFlight: map<i64, nat>, pending: Option<set<i64>>)

  /** Whole seconds of a duration, cut toward zero. */
  function NumSeconds(d: int): int {
    if d >= 0 then d / NANOS else -((-d) / NANOS)
  }

  /** Unix seconds of a clock reading. */
  function Timestamp(now: int): (t: int)
    ensures t * 1_000_000_000 <= now < (t + 1) * 1_000_000_000
  {
    now / NANOS
  }

  function QueuedOrCreated(row: SnapshotRow): Option<int> {
    if row.queuedAt.Some? then row.queuedAt else row.createdAt
  }

  function Classify(row: SnapshotRow, finals: map<Path, bytes>, g: GroundState, now: int, grace: u64): Verdict {
    var landed := GroundPath(row.fileName);
    if landed in finals then
      if |finals[landed]| == row.fileSize then Complete else SizeMismatch(row.fileSize, |finals[landed]|)
    else if row.fileId in g.inFlight then InFlight(g.inFlight[row.fileId] > grace)
    else if g.pending.Some? && row.fileId in g.pending.value then Queued
    else if !row.stillExists then GoneOnPayload
    else if QueuedOrCreated(row).Some? && NumSeconds(now - QueuedOrCreated(row).value) < I64Of(grace) then TooRecent
    else Missing
  }

  // ---- what the verdicts mean ----

  /** Fewer than `grace` whole seconds, counted in nanoseconds; cut toward zero, which a negative bound shows. */
  predicate Recent(d: int, grace: i64) {
    d <= if grace > 0 then grace * 1_000_000_000 - 1 else (grace - 1) * 1_000_000_000
  }

  lemma RecentIs(d: int, grace: i64)
    ensures NumSeconds(d) < grace <==> Recent(d, grace)
  {
  }

  /** It was queued within the grace period; where the snapshot says nothing of that, made within it. */
  predicate WithinGrace(row: SnapshotRow, now: int, grace: u64) {
    (row.queuedAt.Some? && Recent(now - row.queuedAt.value, I64Of(grace)))
    || (row.queuedAt.None? && row.createdAt.Some? && Recent(now - row.createdAt.value, I64Of(grace)))
  }

  /** What lies at the file's landing place. */
  function Found(row: SnapshotRow, finals: map<Path, bytes>): Option<bytes> {
    if GroundPath(row.fileName) in finals then Some(finals[GroundPath(row.fileName)]) else None
  }

  predicate LandedWhole(row: SnapshotRow, finals: map<Path, bytes>) {
    Found(row, finals).Some? && |Found(row, finals).value| == row.fileSize
  }

  predicate LandedWrong(row: SnapshotRow, finals: map<Path, bytes>) {
    Found(row, finals).Some? && |Found(row, finals).value| != row.fileSize
  }

  predicate UnderWay(row: SnapshotRow, finals: map<Path, bytes>, g: GroundState) {
    Found(row, finals).None? && row.fileId in g.inFlight
  }

  /** And nothing has come of it for longer than the grace period. */
  predicate LeftLying(row: SnapshotRow, finals: map<Path, bytes>, g: GroundState, grace: u64) {
    UnderWay(row, finals, g) && g.inFlight[row.fileId] > grace
  }

  predicate Waiting(row: SnapshotRow, finals: map<Path, bytes>, g: GroundState) {
    Found(row, finals).None? && row.fileId !in g.inFlight && g.pending.Some? && row.fileId in g.pending.value
  }

  /** Neither landed, nor under way, nor known to be queued. */
  predicate Unaccounted(row: SnapshotRow, finals: map<Path, bytes>, g: GroundState) {
    Found(row, finals).None? && row.fileId !in g.inFlight && (g.pending.Some? ==> row.fileId !in g.pending.value)
  }

  /** Exactly when each verdict is given, and what it carries. */
  lemma VerdictsMean(row: SnapshotRow, finals: map<Path, bytes>, g: GroundState, now: int, grace: u64)
    ensures var v := Classify(row, finals, g, now, grace);
      && (v == Complete <==> LandedWhole(row, finals))
      && (forall expected, found :: v == SizeMismatch(expected, found) <==>
          LandedWrong(row, finals) && expected == row.fileSize && found == |Found(row, finals).value|)
      && (forall stale :: v == InFlight(stale) <==>
          UnderWay(row, finals, g) && (stale <==> LeftLying(row, finals, g, grace)))
      && (v == Queued <==> Waiting(row, finals, g))
      && (v == GoneOnPayload <==> Unaccounted(row, finals, g) && !row.stillExists)
      && (v == TooRecent <==> Unaccounted(row, finals, g) && row.stillExists && WithinGrace(row, now, grace))
      && (v == Missing <==> Unaccounted(row, finals, g) && row.stillExists && !WithinGrace(row, now, grace))
  {
    hide GroundPath, NumSeconds, Recent;
    if QueuedOrCreated(row).Some? { RecentIs(now - QueuedOrCreated(row).value, I64Of(grace)); }
  }

  datatype Judged = Judged(row: SnapshotRow, verdict: Verdict)

  function Plan(rows: seq<SnapshotRow>, finals: map<Path, bytes>, g: GroundState, now: int,
      grace: u64): (plan: seq<Judged>)
    ensures |plan| == |rows|
    ensures forall k :: 0 <= k < |rows| ==> plan[k] == Judged(rows[k], Classify(rows[k], finals, g, now, grace))
  {
    seq(|rows|, k requires 0 <= k < |rows| => Judged(rows[k], Classify(rows[k], finals, g, now, grace)))
  }

  // ---- the tally ----

  datatype Summary = Summary(total: nat, complete: nat, inFlight: nat, staleInFlight: nat, queued: nat,
                             tooRecent: nat, gone: nat, mismatched: nat, missing: nat, requested: nat)

  const ZERO_SUMMARY := Summary(0, 0, 0, 0, 0, 0, 0, 0, 0, 0)

  /** The seven verdicts make up the total, and the stale assemblies are among those in flight. */
  predicate AddsUp(s: Summary) {
    s.complete + s.mismatched + s.inFlight + s.queued + s.tooRecent + s.gone + s.missing == s.total
    && s.staleInFlight <= s.inFlight
  }

  predicate SameKind(a: Verdict, b: Verdict) {
    match a
    case Complete => b.Complete?
    case SizeMismatch(_, _) => b.SizeMismatch?
    case InFlight(_) => b.InFlight?
    case Queued => b.Queued?
    case TooRecent => b.TooRecent?
    case GoneOnPayload => b.GoneOnPayload?
    case Missing => b.Missing?
  }

  /** How many rows were judged like `v`. */
  function Judgements(plan: seq<Judged>, v: Verdict): nat {
    if plan == [] then 0
    else Judgements(plan[..|plan| - 1], v) + if SameKind(v, plan[|plan| - 1].verdict) then 1 else 0
  }

  function Stale(plan: seq<Judged>): nat {
    if plan == [] then 0
    else Stale(plan[..|plan| - 1]) + if plan[|plan| - 1].verdict == InFlight(true) then 1 else 0
  }

  /** What a pass reports of its plan. */
  function Tally(plan: seq<Judged>): Summary {
    Summary(|plan|, Judgements(plan, Complete), Judgements(plan, InFlight(false)), Stale(plan), Judgements(plan,
        Queued),
            Judgements(plan, TooRecent), Judgements(plan, GoneOnPayload), Judgements(plan, SizeMismatch(0, 0)),
            Judgements(plan, Missing), 0)
  }

  /** The loop of `from_plan`: each counter counts the rows of its verdict. */
  method FromPlan(plan: seq<Judged>) returns (s: Summary)
    ensures s == Tally(plan) && AddsUp(s)
  {
    s := ZERO_SUMMARY.(total := |plan|);
    for k := 0 to |plan|
      invariant s.total == |plan| && s.requested == 0
      invariant s.complete == Judgements(plan[..k], Complete)
      invariant s.mismatched == Judgements(plan[..k], SizeMismatch(0, 0))
      invariant s.inFlight == Judgements(plan[..k], InFlight(false)) && s.staleInFlight == Stale(plan[..k])
      invariant s.queued == Judgements(plan[..k], Queued) && s.tooRecent == Judgements(plan[..k], TooRecent)
      invariant s.gone == Judgements(plan[..k], GoneOnPayload) && s.missing == Judgements(plan[..k], Missing)
      invariant s.complete + s.mismatched + s.inFlight + s.queued + s.tooRecent + s.gone + s.missing == k
      invariant s.staleInFlight <= s.inFlight
    {
      assert plan[..k + 1][..k] == plan[..k];
      match plan[k].verdict {
        case Complete => s := s.(complete := s.complete + 1);
        case SizeMismatch(_, _) => s := s.(mismatched := s.mismatched + 1);
        case InFlight(stale) =>
          s := s.(inFlight := s.inFlight + 1);
          if stale { s := s.(staleInFlight := s.staleInFlight + 1); }
        case Queued => s := s.(queued := s.queued + 1);
        case TooRecent => s := s.(tooRecent := s.tooRecent + 1);
        case GoneOnPayload => s := s.(gone := s.gone + 1);
        case Missing => s := s.(missing := s.missing + 1);
      }
    }
    assert plan[..|plan|] == plan;
  }

  // ---- the tally counts rows ----

  function RowsWhere(rows: seq<SnapshotRow>, p: SnapshotRow -> bool): nat {
    if rows == [] then 0
    else RowsWhere(rows[..|rows| - 1], p) + if p(rows[|rows| - 1]) then 1 else 0
  }

  /** Nothing accounts for the file, and it was queued, or made, a grace period ago. */
  predicate Lost(row: SnapshotRow, s: Scene, grace: u64) {
    Unaccounted(row, s.finals, s.ground) && row.stillExists && !WithinGrace(row, s.now, grace)
  }

  /** What a pass has to report of these rows. */
  function Account(rows: seq<SnapshotRow>, s: Scene, grace: u64): Summary {
    Summary(|rows|,
      RowsWhere(rows, (row: SnapshotRow) => LandedWhole(row, s.finals)),
      RowsWhere(rows, (row: SnapshotRow) => UnderWay(row, s.finals, s.ground)),
      RowsWhere(rows, (row: SnapshotRow) => LeftLying(row, s.finals, s.ground, grace)),
      RowsWhere(rows, (row: SnapshotRow) => Waiting(row, s.finals, s.ground)),
      RowsWhere(rows, (row: SnapshotRow) =>
        Unaccounted(row, s.finals, s.ground) && row.stillExists && WithinGrace(row, s.now, grace)),
      RowsWhere(rows, (row: SnapshotRow) => Unaccounted(row, s.finals, s.ground) && !row.stillExists),
      RowsWhere(rows, (row: SnapshotRow) => LandedWrong(row, s.finals)),
      RowsWhere(rows, (row: SnapshotRow) => Lost(row, s, grace)),
      0)
  }

  lemma {:induction false} JudgedRows(rows: seq<SnapshotRow>, s: Scene, grace: u64, v: Verdict, p: SnapshotRow -> bool)
    requires forall row :: SameKind(v, Classify(row, s.finals, s.ground, s.now, grace)) <==> p(row)
    ensures Judgements(Plan(rows, s.finals, s.ground, s.now, grace), v) == RowsWhere(rows, p)
  {
    hide Classify, SameKind;
    if rows != [] {
      var front, plan := rows[..|rows| - 1], Plan(rows, s.finals, s.ground, s.now, grace);
      JudgedRows(front, s, grace, v, p);
      assert plan[..|plan| - 1] == Plan(front, s.finals, s.ground, s.now, grace);
    }
  }

  lemma {:induction false} StaleRows(rows: seq<SnapshotRow>, s: Scene, grace: u64, p: SnapshotRow -> bool)
    requires forall row :: Classify(row, s.finals, s.ground, s.now, grace) == InFlight(true) <==> p(row)
    ensures Stale(Plan(rows, s.finals, s.ground, s.now, grace)) == RowsWhere(rows, p)
  {
    hide Classify;
    if rows != [] {
      var front, plan := rows[..|rows| - 1], Plan(rows, s.finals, s.ground, s.now, grace);
      StaleRows(front, s, grace, p);
      assert plan[..|plan| - 1] == Plan(front, s.finals, s.ground, s.now, grace);
    }
  }

  lemma SameKindMeans(row: SnapshotRow, s: Scene, grace: u64)
    ensures var v := Classify(row, s.finals, s.ground, s.now, grace);
      && (SameKind(Complete, v) <==> LandedWhole(row, s.finals))
      && (SameKind(SizeMismatch(0, 0), v) <==> LandedWrong(row, s.finals))
      && (SameKind(InFlight(false), v) <==> UnderWay(row, s.finals, s.ground))
      && (v == InFlight(true) <==> LeftLying(row, s.finals, s.ground, grace))
      && (SameKind(Queued, v) <==> Waiting(row, s.finals, s.ground))
      && (SameKind(GoneOnPayload, v) <==> Unaccounted(row, s.finals, s.ground) && !row.stillExists)
      && (SameKind(TooRecent, v) <==>
          Unaccounted(row, s.finals, s.ground) && row.stillExists && WithinGrace(row, s.now, grace))
      && (SameKind(Missing, v) <==> Lost(row, s, grace))
  {
    hide Classify, LandedWhole, Waiting, Unaccounted, WithinGrace, GroundPath;
    VerdictsMean(row, s.finals, s.ground, s.now, grace);
    var v := Classify(row, s.finals, s.ground, s.now, grace);
    var found := Found(row, s.finals);
    assert v.SizeMismatch? ==> v == SizeMismatch(v.expected, v.found);
    assert LandedWrong(row, s.finals) ==> v == SizeMismatch(row.fileSize, |found.value|);
    assert v.InFlight? ==> v == InFlight(v.stale);
    assert UnderWay(row, s.finals, s.ground) ==> v == InFlight(LeftLying(row, s.finals, s.ground, grace));
  }

  /** The tally of a pass counts the rows that stand as each verdict says. */
  lemma TallyIsAccount(rows: seq<SnapshotRow>, s: Scene, grace: u64)
    ensures Tally(Plan(rows, s.finals, s.ground, s.now, grace)) == Account(rows, s, grace)
  {
    hide Classify, SameKind, LandedWhole, LandedWrong, UnderWay, LeftLying, Waiting, Unaccounted, WithinGrace;
    hide Lost, Judgements, RowsWhere, Stale;
    forall row: SnapshotRow { SameKindMeans(row, s, grace); }
    JudgedRows(rows, s, grace, Complete, (row: SnapshotRow) => LandedWhole(row, s.finals));
    JudgedRows(rows, s, grace, InFlight(false), (row: SnapshotRow) => UnderWay(row, s.finals, s.ground));
    StaleRows(rows, s, grace, (row: SnapshotRow) => LeftLying(row, s.finals, s.ground, grace));
    JudgedRows(rows, s, grace, Queued, (row: SnapshotRow) => Waiting(row, s.finals, s.ground));
    JudgedRows(rows, s, grace, TooRecent, (row: SnapshotRow) =>
      Unaccounted(row, s.finals, s.ground) && row.stillExists && WithinGrace(row, s.now, grace));
    JudgedRows(rows, s, grace, GoneOnPayload, (row: SnapshotRow) =>
      Unaccounted(row, s.finals, s.ground) && !row.stillExists);
    JudgedRows(rows, s, grace, SizeMismatch(0, 0), (row: SnapshotRow) => LandedWrong(row, s.finals));
    JudgedRows(rows, s, grace, Missing, (row: SnapshotRow) => Lost(row, s, grace));
  }

  // ---- one pass ----

  type Requested = map<i64, int>

  /** What the pass finds: the clock, the newest landed snapshot, the ground, the sender's replies. */
  datatype Scene = Scene(now: int, snapshot: Option<bytes>, finals: map<Path, bytes>, ground: GroundState,
      reply: nat -> bool)

  datatype Settings = Settings(period: u64, grace: u64)

  /** Requests older than one period are forgotten. */
  function Retained(requested: Requested, ts: int, period: int): Requested {
    map id | id in requested && ts - requested[id] < period :: requested[id]
  }

  /** One request made in a pass, and whether the sender took it. */
  datatype Request = Request(row: SnapshotRow, taken: bool)

  datatype Asked = Asked(requested: Requested, calls: seq<Request>)

  predicate Wants(j: Judged, reachable: bool, requested: Requested) {
    j.verdict == Missing && reachable && j.row.fileId !in requested
  }

  function AskMissing(plan: seq<Judged>, requested: Requested, ts: int, reachable: bool, reply: nat -> bool): Asked {
    if plan == [] then Asked(requested, [])
    else
      var k := |plan| - 1;
      var a := AskMissing(plan[..k], requested, ts, reachable, reply);
      if !Wants(plan[k], reachable, a.requested) then a
      else Asked(if reply(k) then a.requested[plan[k].row.fileId := ts] else a.requested,
                 a.calls + [Request(plan[k].row, reply(k))])
  }

  datatype Memory = Memory(lastRun: Option<int>, requested: Requested)

  datatype PassResult = PassResult(memory: Memory, calls: seq<Request>, error: Option<Error>)

  /** Without a readable snapshot the pass ends before anything is forgotten or asked for. */
  function Pass(m: Memory, s: Scene, c: Settings): PassResult {
    var ts := Timestamp(s.now);
    if s.snapshot == None then PassResult(Memory(Some(ts), m.requested), [], None)
    else
      match Parse(s.snapshot.value)
      case Failure(e) => PassResult(Memory(Some(ts), m.requested), [], Some(e))
      case Success(rows) =>
        var plan := Plan(rows, s.finals, s.ground, s.now, c.grace);
        var a := AskMissing(plan, Retained(m.requested, ts, I64Of(c.period)), ts, s.ground.pending.Some?, s.reply);
        PassResult(Memory(Some(ts), a.requested), a.calls, None)
  }

  /** When the next scheduled pass is due; never run is due at once. */
  function DueTime(m: Memory, period: u64): int {
    match m.lastRun case None => 0 case Some(t) => t + I64Of(period)
  }

  /** The rows of the snapshot a pass finds, if there is one and it can be read. */
  function RowsSeen(s: Scene): seq<SnapshotRow> {
    match s.snapshot
    case None => []
    case Some(text) => match Parse(text) case Failure(_) => [] case Success(rows) => rows
  }

  class ReconcileState {
    var lastRun: Option<int>
    var requested: Requested

    constructor ()
      ensures lastRun == None && requested == map[]
    {
      lastRun, requested := None, map[];
    }

    function Value(): Memory
      reads this
    {
      Memory(lastRun, requested)
    }

    method Run(s: Scene, c: Settings) returns (r: Result<Summary, Error>, calls: seq<Request>)
      modifies this
      ensures var p := Pass(old(Value()), s, c); Value() == p.memory && calls == p.calls && r.Failure? == p.error.Some?
      ensures r.Failure? <==> s.snapshot.Some? && Parse(s.snapshot.value).Failure?
      ensures r.Failure? ==> r.error == Parse(s.snapshot.value).error
      ensures r.Success? ==> AddsUp(r.value) && r.value == Account(RowsSeen(s), s, c.grace).(requested := Taken(calls))
    {
      hide Parse, Plan, Tally, AddsUp, AskMissing, Taken, Account;
      NothingTallied(s, c.grace);
      var ts := Timestamp(s.now);
      lastRun := Some(ts);
      calls := [];
      if s.snapshot == None { return Success(ZERO_SUMMARY), []; }
      var rows := ParseSnapshot(s.snapshot.value);
      if rows.Failure? { return Failure(rows.error), []; }
      var plan := Plan(rows.value, s.finals, s.ground, s.now, c.grace);
      var summary := FromPlan(plan);
      TallyIsAccount(rows.value, s, c.grace);
      requested := map id | id in requested && ts - requested[id] < I64Of(c.period) :: requested[id];
      var taken;
      calls, taken := AskAll(plan, ts, s.ground.pending.Some?, s.reply);
      RequestedAside(summary, taken);
      r := Success(summary.(requested := taken));
    }

    /** The request loop over the judged rows. */
    method AskAll(plan: seq<Judged>, ts: int, reachable: bool,
        reply: nat -> bool) returns (calls: seq<Request>, taken: nat)
      modifies this`requested
      ensures Asked(requested, calls) == AskMissing(plan, old(requested), ts, reachable, reply)
      ensures taken == Taken(calls)
    {
      calls, taken := [], 0;
      for k := 0 to |plan|
        invariant Asked(requested, calls) == AskMissing(plan[..k], old(requested), ts, reachable, reply)
        invariant taken == Taken(calls)
      {
        assert plan[..k + 1][..k] == plan[..k];
        if plan[k].verdict != Missing || !reachable || plan[k].row.fileId in requested { continue; }
        ghost var before := calls;
        calls := calls + [Request(plan[k].row, reply(k))];
        assert calls[..|calls| - 1] == before;
        if reply(k) {
          requested := requested[plan[k].row.fileId := ts];
          taken := taken + 1;
        }
      }
      assert plan[..|plan|] == plan;
    }
  }

  lemma NothingTallied(s: Scene, grace: u64)
    ensures Account([], s, grace).(requested := Taken([])) == ZERO_SUMMARY && AddsUp(ZERO_SUMMARY)
  {
  }

  lemma RequestedAside(s: Summary, n: nat)
    ensures AddsUp(s.(requested := n)) <==> AddsUp(s)
  {
  }

  function Taken(calls: seq<Request>): nat {
    if calls == [] then 0 else Taken(calls[..|calls| - 1]) + if calls[|calls| - 1].taken then 1 else 0
  }

  // ---- what one pass asks for ----

  /** A request is for a missing file not requested before, and is remembered if it was taken. */
  ghost predicate CallFits(q: Request, plan: seq<Judged>, before: Requested, reachable: bool, requested: Requested) {
    reachable && Judged(q.row, Missing) in plan && q.row.fileId !in before && (q.taken ==> q.row.fileId in requested)
  }

  ghost predicate TakenFor(calls: seq<Request>, id: i64) {
    exists k :: 0 <= k < |calls| && calls[k].taken && calls[k].row.fileId == id
  }

  lemma TakenForStays(calls: seq<Request>, q: Request, id: i64)
    ensures TakenFor(calls, id) || (q.taken && q.row.fileId == id) <==> TakenFor(calls + [q], id)
  {
    if TakenFor(calls, id) {
      var k :| 0 <= k < |calls| && calls[k].taken && calls[k].row.fileId == id;
      assert (calls + [q])[k] == calls[k];
    } else if q.taken && q.row.fileId == id {
      assert (calls + [q])[|calls|] == q;
    }
  }

  /** Asked requests are for missing files not requested before, and once one is taken its file is left alone. */
  ghost predicate Orderly(plan: seq<Judged>, before: Requested, ts: int, reachable: bool, a: Asked) {
    && (forall id :: id in before ==> id in a.requested && a.requested[id] == before[id])
    && (forall id :: id in a.requested && id !in before ==> a.requested[id] == ts && TakenFor(a.calls, id))
    && (forall k :: 0 <= k < |a.calls| ==> CallFits(a.calls[k], plan, before, reachable, a.requested))
    && (forall k, l :: 0 <= k < l < |a.calls| && a.calls[k].taken ==> a.calls[k].row.fileId != a.calls[l].row.fileId)
  }

  /** One row judged, on top of what the rows before it led to. */
  lemma RowOrderly(front: seq<Judged>, j: Judged, before: Requested, ts: int, reachable: bool, a: Asked, yes: bool)
    requires Orderly(front, before, ts, reachable, a)
    ensures Orderly(front + [j], before, ts, reachable, a)
    ensures Wants(j, reachable, a.requested) ==>
      Orderly(front + [j], before, ts, reachable,
              Asked(if yes then a.requested[j.row.fileId := ts] else a.requested, a.calls + [Request(j.row, yes)]))
  {
    forall k | 0 <= k < |a.calls| ensures CallFits(a.calls[k], front + [j], before, reachable, a.requested) {
      assert CallFits(a.calls[k], front, before, reachable, a.requested);
      InFront(front, j, Judged(a.calls[k].row, Missing));
    }
    if Wants(j, reachable, a.requested) {
      assert j == Judged(j.row, Missing);
      assert (front + [j])[|front|] == j;
      var requested := if yes then a.requested[j.row.fileId := ts] else a.requested;
      assert CallFits(Request(j.row, yes), front + [j], before, reachable, requested);
      forall k | 0 <= k < |a.calls| ensures CallFits(a.calls[k], front + [j], before, reachable, requested) {
        assert CallFits(a.calls[k], front + [j], before, reachable, a.requested);
      }
      forall id | id in requested && id !in before
        ensures requested[id] == ts && TakenFor(a.calls + [Request(j.row, yes)], id)
      {
        TakenForStays(a.calls, Request(j.row, yes), id);
      }
    }
  }

  lemma InFront(front: seq<Judged>, j: Judged, x: Judged)
    ensures x in front ==> x in front + [j]
  {
  }

  lemma {:induction false} AskedOrderly(plan: seq<Judged>, before: Requested, ts: int, reachable: bool,
      reply: nat -> bool)
    ensures Orderly(plan, before, ts, reachable, AskMissing(plan, before, ts, reachable, reply))
  {
    if plan != [] {
      var k := |plan| - 1;
      AskedOrderly(plan[..k], before, ts, reachable, reply);
      var a := AskMissing(plan[..k], before, ts, reachable, reply);
      assert plan[..k] + [plan[k]] == plan;
      hide Orderly;
      RowOrderly(plan[..k], plan[k], before, ts, reachable, a, reply(k));
    }
  }

  /** Every missing file is asked for, unless it was already requested or is by the end of the pass. */
  lemma {:induction false} NoneOverlooked(plan: seq<Judged>, before: Requested, ts: int, reply: nat -> bool, j: nat)
    requires j < |plan| && plan[j].verdict == Missing
    ensures var a := AskMissing(plan, before, ts, true, reply);
      plan[j].row.fileId in a.requested || exists k :: 0 <= k < |a.calls| && a.calls[k].row == plan[j].row
  {
    var k := |plan| - 1;
    var a, b := AskMissing(plan, before, ts, true, reply), AskMissing(plan[..k], before, ts, true, reply);
    if j < k {
      NoneOverlooked(plan[..k], before, ts, reply, j);
      if i :| 0 <= i < |b.calls| && b.calls[i].row == plan[j].row { assert a.calls[i].row == plan[j].row; }
    } else if plan[k].row.fileId !in b.requested {
      assert a.calls[|b.calls|].row == plan[j].row;
    }
  }

  // ---- runs of passes ----

  function After(m: Memory, scenes: seq<Scene>, c: Settings): Memory
    decreases |scenes|
  {
    if scenes == [] then m else After(Pass(m, scenes[0], c).memory, scenes[1..], c)
  }

  /** The requests made in pass `i` of a run. */
  function CallsIn(m: Memory, scenes: seq<Scene>, c: Settings, i: nat): seq<Request>
    requires i < |scenes|
    decreases |scenes|
  {
    if i == 0 then Pass(m, scenes[0], c).calls else CallsIn(Pass(m, scenes[0], c).memory, scenes[1..], c, i - 1)
  }

  /** The ground clock never goes back. */
  ghost predicate Monotone(now: int, scenes: seq<Scene>)
    decreases |scenes|
  {
    scenes == [] || (now <= scenes[0].now && Monotone(scenes[0].now, scenes[1..]))
  }

  lemma PassOrderly(m: Memory, s: Scene, c: Settings)
    ensures var p := Pass(m, s, c); var ts := Timestamp(s.now);
      && (p.calls != [] ==> s.snapshot.Some? && Parse(s.snapshot.value).Success?)
      && (s.snapshot.Some? && Parse(s.snapshot.value).Success? ==>
          Orderly(Plan(Parse(s.snapshot.value).value, s.finals, s.ground, s.now, c.grace),
                  Retained(m.requested, ts, I64Of(c.period)), ts, s.ground.pending.Some?,
                      Asked(p.memory.requested, p.calls)))
      && (s.snapshot.None? || Parse(s.snapshot.value).Failure? ==> p.memory.requested == m.requested)
      && p.memory.lastRun == Some(ts)
  {
    hide Parse, Classify, Orderly, AskMissing, Retained;
    if s.snapshot.Some? && Parse(s.snapshot.value).Success? {
      var ts := Timestamp(s.now);
      AskedOrderly(Plan(Parse(s.snapshot.value).value, s.finals, s.ground, s.now, c.grace),
                   Retained(m.requested, ts, I64Of(c.period)), ts, s.ground.pending.Some?, s.reply);
    }
  }

  /** While a request for `id` is remembered until `until`, nothing is asked for it before then. */
  lemma {:induction false} Remembered(m: Memory, scenes: seq<Scene>, c: Settings, now: int, id: i64,
      until: int, j: nat, b: nat)
    requires Monotone(now, scenes) && j < |scenes|
    requires Timestamp(now) >= until || (id in m.requested && m.requested[id] + I64Of(c.period) >= until)
    requires b < |CallsIn(m, scenes, c, j)| && CallsIn(m, scenes, c, j)[b].row.fileId == id
    ensures Timestamp(scenes[j].now) >= until
    decreases |scenes|
  {
    hide Parse, Plan, Classify, AskMissing;
    var s := scenes[0];
    PassOrderly(m, s, c);
    assert Timestamp(s.now) >= Timestamp(now);
    if j > 0 {
      hide Pass;
      var m' := Pass(m, s, c).memory;
      Remembered(m', scenes[1..], c, s.now, id, until, j - 1, b);
    }
  }

  /**
   Over any run of passes with a monotone clock, two requests for one file, the first of them
   taken by the sender, are at least one period apart; within one pass there are no two.
   */
  lemma {:induction false} RequestsApart(m: Memory, scenes: seq<Scene>, c: Settings, now: int, i: nat, a: nat,
      j: nat, b: nat)
    requires Monotone(now, scenes) && i <= j < |scenes| && (i == j ==> a < b)
    requires a < |CallsIn(m, scenes, c, i)| && b < |CallsIn(m, scenes, c, j)|
    requires var first := CallsIn(m, scenes, c, i)[a];
      first.taken && first.row.fileId == CallsIn(m, scenes, c, j)[b].row.fileId
    ensures i < j && Timestamp(scenes[j].now) - Timestamp(scenes[i].now) >= I64Of(c.period)
    ensures scenes[j].now - scenes[i].now > (I64Of(c.period) - 1) * 1_000_000_000
    decreases |scenes|
  {
    hide Parse, Plan, Classify, AskMissing;
    var s := scenes[0];
    var m' := Pass(m, s, c).memory;
    if i > 0 {
      RequestsApart(m', scenes[1..], c, s.now, i - 1, a, j - 1, b);
    } else {
      PassOrderly(m, s, c);
      hide Pass;
      if j > 0 {
        var id := CallsIn(m, scenes, c, 0)[a].row.fileId;
        assert m'.requested[id] == Timestamp(s.now);
        Remembered(m', scenes[1..], c, s.now, id, Timestamp(s.now) + I64Of(c.period), j - 1, b);
      }
    }
  }

  /** Nothing is remembered from after the last pass. */
  ghost predicate Dated(m: Memory) {
    forall id :: id in m.requested ==> m.lastRun.Some? && m.requested[id] <= m.lastRun.value
  }

  lemma PassDated(m: Memory, s: Scene, c: Settings)
    requires Dated(m) && (m.lastRun.Some? ==> m.lastRun.value <= Timestamp(s.now))
    ensures Dated(Pass(m, s, c).memory)
  {
    hide Parse, Plan, Classify, AskMissing;
    PassOrderly(m, s, c);
  }

  /**
   A scheduled pass starts with a clean slate: every request remembered from earlier passes has
   expired, so each missing file is asked for again if the sender can be reached.
   */
  lemma ScheduledPassForgets(m: Memory, s: Scene, c: Settings, rows: seq<SnapshotRow>, k: nat)
    requires Dated(m) && Timestamp(s.now) >= DueTime(m, c.period)
    requires s.snapshot.Some? && Parse(s.snapshot.value) == Success(rows) && s.ground.pending.Some?
    requires k < |rows| && Lost(rows[k], s, c.grace)
    ensures Retained(m.requested, Timestamp(s.now), I64Of(c.period)) == map[]
    ensures var p := Pass(m, s, c);
      exists l :: 0 <= l < |p.calls| && p.calls[l].row.fileId == rows[k].fileId
  {
    hide Parse, Lost, Pass;
    assert Retained(m.requested, Timestamp(s.now), I64Of(c.period)) == map[];
    LostAskedIff(m, s, c, rows, k);
  }

  /**
   In a pass that can read its snapshot and reach the sender, a lost file is asked for if and only if
   no request for it is remembered from less than a period ago.
   */
  lemma LostAskedIff(m: Memory, s: Scene, c: Settings, rows: seq<SnapshotRow>, k: nat)
    requires s.snapshot.Some? && Parse(s.snapshot.value) == Success(rows) && s.ground.pending.Some?
    requires k < |rows| && Lost(rows[k], s, c.grace)
    ensures var id := rows[k].fileId;
      (exists l :: 0 <= l < |Pass(m, s, c).calls| && Pass(m, s, c).calls[l].row.fileId == id)
      <==> !(id in m.requested && Timestamp(s.now) - m.requested[id] < I64Of(c.period))
  {
    hide Parse, Classify, Lost;
    LostIsMissing(rows[k], s, c.grace);
    var ts, id := Timestamp(s.now), rows[k].fileId;
    var plan, before := Plan(rows, s.finals, s.ground, s.now, c.grace), Retained(m.requested, ts, I64Of(c.period));
    var a := AskMissing(plan, before, ts, true, s.reply);
    assert Pass(m, s, c).calls == a.calls;
    NoneOverlooked(plan, before, ts, s.reply, k);
    AskedOrderly(plan, before, ts, true, s.reply);
    if id !in before && id in a.requested {
      var l :| 0 <= l < |a.calls| && a.calls[l].taken && a.calls[l].row.fileId == id;
    }
  }

  /** A pass is due exactly when a request made at the last one is forgotten; without a last one, at once. */
  lemma DueIffForgotten(m: Memory, now: int, c: Settings, id: i64)
    ensures m.lastRun.None? && now >= 0 ==> Timestamp(now) >= DueTime(m, c.period)
    ensures m.lastRun.Some? ==>
      (Timestamp(now) >= DueTime(m, c.period)
       <==> Retained(map[id := m.lastRun.value], Timestamp(now), I64Of(c.period)) == map[])
  {
    if m.lastRun.Some? && Timestamp(now) < DueTime(m, c.period) {
      assert id in Retained(map[id := m.lastRun.value], Timestamp(now), I64Of(c.period));
    }
  }

  /** A file with an assembly in the holding directory is never asked for, complete or not. */
  lemma HeldNeverAsked(m: Memory, scenes: seq<Scene>, c: Settings, j: nat, b: nat)
    requires j < |scenes| && b < |CallsIn(m, scenes, c, j)|
    ensures CallsIn(m, scenes, c, j)[b].row.fileId !in scenes[j].ground.inFlight
  {
    hide Parse, CallsIn, GroundPath;
    AskedWasLost(m, scenes, c, j, b);
  }

  /** The final directory only grows from pass to pass. */
  ghost predicate FinalsGrow(scenes: seq<Scene>) {
    forall i, j, path :: 0 <= i <= j < |scenes| && path in scenes[i].finals ==> path in scenes[j].finals
  }

  /** Once something has landed at a file's path, no later pass asks for the file. */
  lemma LandedNeverAsked(m: Memory, scenes: seq<Scene>, c: Settings, i: nat, j: nat, b: nat)
    requires FinalsGrow(scenes) && i <= j < |scenes| && b < |CallsIn(m, scenes, c, j)|
    ensures GroundPath(CallsIn(m, scenes, c, j)[b].row.fileName) !in scenes[i].finals
    decreases |scenes|
  {
    AskedWasLost(m, scenes, c, j, b);
    assert GroundPath(CallsIn(m, scenes, c, j)[b].row.fileName) !in scenes[j].finals;
  }

  lemma LostIsMissing(row: SnapshotRow, s: Scene, grace: u64)
    ensures Lost(row, s, grace) <==> Classify(row, s.finals, s.ground, s.now, grace) == Missing
  {
    hide Classify, Unaccounted, WithinGrace;
    VerdictsMean(row, s.finals, s.ground, s.now, grace);
  }

  /** Every request of a run is for a row of that pass's snapshot whose file is lost, made to a sender that answers. */
  lemma {:induction false} AskedWasLost(m: Memory, scenes: seq<Scene>, c: Settings, j: nat, b: nat)
    requires j < |scenes| && b < |CallsIn(m, scenes, c, j)|
    ensures var row, s := CallsIn(m, scenes, c, j)[b].row, scenes[j];
      && Lost(row, s, c.grace) && s.ground.pending.Some?
      && s.snapshot.Some? && Parse(s.snapshot.value).Success? && row in Parse(s.snapshot.value).value
    decreases |scenes|
  {
    hide Parse, AskMissing, GroundPath, Lost, Classify;
    if j == 0 {
      var s, row := scenes[0], CallsIn(m, scenes, c, 0)[b].row;
      PassOrderly(m, s, c);
      var rows := Parse(s.snapshot.value).value;
      var plan := Plan(rows, s.finals, s.ground, s.now, c.grace);
      assert Judged(row, Missing) in plan;
      var k :| 0 <= k < |plan| && plan[k] == Judged(row, Missing);
      assert rows[k] == row;
      LostIsMissing(row, s, c.grace);
    } else {
      AskedWasLost(Pass(m, scenes[0], c).memory, scenes[1..], c, j - 1, b);
    }
  }
}
