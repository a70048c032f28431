/**
 The cleaner's memory of what it asked for (cleaner/dedup.rs): each request is held back for
 a time to live, across restarts too. Times are in seconds.
 */
module Dedup {
  import opened Bytes
  import opened Messages

  datatype Kind = RetransmitKind | ResendNameKind
  datatype Key = Key(fileId: i64, kind: Kind, range: RequestedRange)

  type Entries = map<Key, real>

  /** The persisted table: whole seconds left for each request. */
  type Table = map<Key, nat>

  predicate Live(e: Entries, k: Key, now: real) {
    k in e && e[k] > now
  }

  function Inserted(e: Entries, k: Key, now: real, ttl: real): Entries {
    if Live(e, k, now) then e else e[k := now + ttl]
  }

  function Collected(e: Entries, now: real): Entries {
    map k | k in e && e[k] > now :: e[k]
  }

  function Saved(e: Entries, now: real): Table {
    map k | k in e && e[k] >= now :: (e[k] - now).Floor
  }

  function Loaded(t: Table, now: real): Entries {
    map k | k in t :: now + t[k] as real
  }

  class DedupTable {
    var entries: Entries
    const ttl: real

    constructor (ttl: real)
      ensures entries == map[] && this.ttl == ttl
    {
      entries, this.ttl := map[], ttl;
    }

    /** A table read back after a restart. */
    constructor Load(table: Table, ttl: real, now: real)
      ensures entries == Loaded(table, now) && this.ttl == ttl
      ensures forall k, t: real :: Live(entries, k, t) <==> k in table && t < now + table[k] as real
    {
      entries := map k | k in table :: now + table[k] as real;
      this.ttl := ttl;
    }

    /** Refused while the same request is still fresh. */
    method TryInsert(k: Key, now: real) returns (added: bool)
      modifies this
      ensures added == !Live(old(entries), k, now)
      ensures entries == Inserted(old(entries), k, now, ttl)
    {
      if k in entries {
        if entries[k] > now { return false; }
      }
      entries := entries[k := now + ttl];
      added := true;
    }

    method Gc(now: real)
      modifies this
      ensures entries == Collected(old(entries), now)
      ensures forall k, t: real :: t >= now ==> (Live(entries, k, t) <==> Live(old(entries), k, t))
      ensures forall k :: k in entries ==> Live(entries, k, now)
    {
      entries := map k | k in entries && entries[k] > now :: entries[k];
    }

    method Save(now: real) returns (table: Table)
      ensures table == Saved(entries, now)
      ensures forall k :: Live(entries, k, now) ==> k in table
      ensures forall k :: k in table ==> k in entries && table[k] as real <= entries[k] - now < table[k] as real + 1.0
    {
      table := map k | k in entries && entries[k] >= now :: (entries[k] - now).Floor;
    }
  }

  // ---- runs ----

  datatype Step =
    | Ask(key: Key, now: real)
    | Gc(now: real)
    | Restart(saved: real, loaded: real)
  {
    function Begins(): real {
      if Restart? then saved else now
    }

    function Ends(): real {
      if Restart? then loaded else now
    }
  }

  function Stepped(e: Entries, s: Step, ttl: real): Entries {
    match s
    case Ask(k, now) => Inserted(e, k, now, ttl)
    case Gc(now) => Collected(e, now)
    case Restart(saved, loaded) => Loaded(Saved(e, saved), loaded)
  }

  function Run(e: Entries, steps: seq<Step>, ttl: real): Entries
    decreases |steps|
  {
    if steps == [] then e else Run(Stepped(e, steps[0], ttl), steps[1..], ttl)
  }

  /** The clock never goes back, from `now` on. */
  ghost predicate Monotone(now: real, steps: seq<Step>)
    decreases |steps|
  {
    steps == []
    || (now <= steps[0].Begins() <= steps[0].Ends() && Monotone(steps[0].Ends(), steps[1..]))
  }

  /** Whether the ask at position `j` of the run is accepted. */
  ghost predicate Accepted(e: Entries, steps: seq<Step>, ttl: real, j: nat, k: Key)
    requires j < |steps|
    decreases |steps|
  {
    if j == 0 then steps[0].Ask? && steps[0].key == k && !Live(e, k, steps[0].now)
    else Accepted(Stepped(e, steps[0], ttl), steps[1..], ttl, j - 1, k)
  }

  function Restarts(steps: seq<Step>): nat {
    if steps == [] then 0 else (if steps[0].Restart? then 1 else 0) + Restarts(steps[1..])
  }

  /** A request written before a restart stays held back until less than a second before it would have been. */
  lemma RestartKeepsHold(e: Entries, k: Key, saved: real, loaded: real, now: real)
    requires saved <= loaded && Live(e, k, saved)
    requires now <= e[k] - 1.0
    ensures Live(Loaded(Saved(e, saved), loaded), k, now)
    ensures Loaded(Saved(e, saved), loaded)[k] <= e[k] + (loaded - saved)
  {
    assert k in Saved(e, saved);
  }

  /** While a key is held until `until`, each restart gives up less than a second of it. */
  lemma {:induction false} HeldUntil(e: Entries, steps: seq<Step>, ttl: real, now: real, k: Key, until: real, j: nat)
    requires Monotone(now, steps) && j < |steps|
    requires now >= until || (k in e && e[k] >= until)
    requires ttl >= 0.0 && Accepted(e, steps, ttl, j, k)
    ensures steps[j].Ask? && steps[j].now >= until - Restarts(steps[..j]) as real
    decreases |steps|
  {
    if j == 0 {
      assert steps[..0] == [];
    } else {
      var s := steps[0];
      var e' := Stepped(e, s, ttl);
      var until' := if s.Restart? then until - 1.0 else until;
      assert s.Ends() >= until' || (k in e' && e'[k] >= until') by {
        if s.Restart? && s.saved < until { assert k in Saved(e, s.saved); }
      }
      HeldUntil(e', steps[1..], ttl, s.Ends(), k, until', j - 1);
      assert steps[..j][1..] == steps[1..][..j - 1];
    }
  }

  /**
   Over any run of requests and collections, two accepted requests for one key are at least
   the time to live apart; each restart in between costs less than a second of that.
   */
  lemma {:induction false} AcceptedApart(e: Entries, steps: seq<Step>, ttl: real, now: real, k: Key, i: nat, j: nat)
    requires ttl >= 0.0 && Monotone(now, steps) && i < j < |steps|
    requires Accepted(e, steps, ttl, i, k) && Accepted(e, steps, ttl, j, k)
    ensures steps[i].Ask? && steps[j].Ask?
    ensures steps[j].now - steps[i].now >= ttl - Restarts(steps[i..j]) as real
    decreases |steps|
  {
    var e' := Stepped(e, steps[0], ttl);
    if i == 0 {
      HeldUntil(e', steps[1..], ttl, steps[0].Ends(), k, steps[0].now + ttl, j - 1);
      assert steps[0..j][1..] == steps[1..][..j - 1];
    } else {
      AcceptedApart(e', steps[1..], ttl, steps[0].Ends(), k, i - 1, j - 1);
      TailSlice(steps, i, j);
    }
  }

  lemma TailSlice(steps: seq<Step>, i: nat, j: nat)
    requires 0 < i <= j <= |steps|
    ensures steps[1..][i - 1..j - 1] == steps[i..j]
  {
  }

  // ---- no key is held for longer ----

  /** The time the process was down in these steps. */
  function Down(steps: seq<Step>): real {
    if steps == [] then 0.0
    else (if steps[0].Restart? then steps[0].loaded - steps[0].saved else 0.0) + Down(steps[1..])
  }

  ghost predicate NoneAccepted(e: Entries, steps: seq<Step>, ttl: real, i: nat, j: nat, k: Key) {
    forall l :: i <= l < j < |steps| ==> !Accepted(e, steps, ttl, l, k)
  }

  /** A key held until `until` at the latest is free again by then, restarts putting that off by the time down. */
  lemma {:induction false} FreeFrom(e: Entries, steps: seq<Step>, ttl: real, now: real, k: Key, until: real, j: nat)
    requires Monotone(now, steps) && j < |steps| && steps[j].Ask? && steps[j].key == k
    requires (k in e ==> e[k] <= until) && NoneAccepted(e, steps, ttl, 0, j, k)
    requires k !in e || steps[j].now >= until + Down(steps[..j])
    ensures Accepted(e, steps, ttl, j, k)
    decreases |steps|
  {
    if j == 0 {
      assert steps[..0] == [];
    } else {
      var s := steps[0];
      var e' := Stepped(e, s, ttl);
      var until' := if s.Restart? then until + (s.loaded - s.saved) else until;
      assert !Accepted(e, steps, ttl, 0, k);
      assert k in e' ==> k in e && e'[k] <= until';
      forall l | 0 <= l < j - 1 < |steps[1..]| ensures !Accepted(e', steps[1..], ttl, l, k) {
        assert !Accepted(e, steps, ttl, l + 1, k);
      }
      assert steps[..j][1..] == steps[1..][..j - 1];
      FreeFrom(e', steps[1..], ttl, s.Ends(), k, until', j - 1);
    }
  }

  /** After an accepted ask, the next one is accepted once the time to live has passed, and the time down with it. */
  lemma {:induction false} FreeAfter(e: Entries, steps: seq<Step>, ttl: real, now: real, k: Key, i: nat, j: nat)
    requires ttl >= 0.0 && Monotone(now, steps) && i < j < |steps| && steps[j].Ask? && steps[j].key == k
    requires Accepted(e, steps, ttl, i, k) && NoneAccepted(e, steps, ttl, i + 1, j, k)
    ensures steps[i].Ask?
    ensures steps[j].now - steps[i].now >= ttl + Down(steps[i..j]) ==> Accepted(e, steps, ttl, j, k)
    decreases |steps|
  {
    var e' := Stepped(e, steps[0], ttl);
    forall l | i <= l < j - 1 < |steps[1..]| ensures !Accepted(e', steps[1..], ttl, l, k) {
      assert !Accepted(e, steps, ttl, l + 1, k);
    }
    if i == 0 {
      assert steps[0..j][1..] == steps[1..][..j - 1];
      if steps[j].now - steps[0].now >= ttl + Down(steps[0..j]) {
        FreeFrom(e', steps[1..], ttl, steps[0].Ends(), k, steps[0].now + ttl, j - 1);
      }
    } else {
      FreeAfter(e', steps[1..], ttl, steps[0].Ends(), k, i - 1, j - 1);
      TailSlice(steps, i, j);
    }
  }

  lemma {:induction false} NeverDown(steps: seq<Step>)
    requires Restarts(steps) == 0
    ensures Down(steps) == 0.0
  {
    if steps != [] { NeverDown(steps[1..]); }
  }

  /**
   A key is held for its time to live, no more and no less: after an accepted ask, with no restart
   and no accepted ask of the key in between, another is accepted if and only if that has passed.
   */
  lemma AcceptedAgainIff(e: Entries, steps: seq<Step>, ttl: real, now: real, k: Key, i: nat, j: nat)
    requires ttl >= 0.0 && Monotone(now, steps) && i < j < |steps| && steps[j].Ask? && steps[j].key == k
    requires Accepted(e, steps, ttl, i, k) && NoneAccepted(e, steps, ttl, i + 1, j, k)
    requires Restarts(steps[i..j]) == 0
    ensures steps[i].Ask?
    ensures Accepted(e, steps, ttl, j, k) <==> steps[j].now - steps[i].now >= ttl
  {
    hide Accepted, Monotone, Restarts, Down;
    FreeAfter(e, steps, ttl, now, k, i, j);
    NeverDown(steps[i..j]);
    if Accepted(e, steps, ttl, j, k) { AcceptedApart(e, steps, ttl, now, k, i, j); }
  }

  /** The first ask of a key that the table does not hold is accepted. */
  lemma FirstIsAccepted(e: Entries, steps: seq<Step>, ttl: real, now: real, k: Key, j: nat)
    requires Monotone(now, steps) && j < |steps| && steps[j].Ask? && steps[j].key == k && k !in e
    requires forall l :: 0 <= l < j ==> !(steps[l].Ask? && steps[l].key == k)
    ensures Accepted(e, steps, ttl, j, k)
  {
    forall l | 0 <= l < j < |steps| ensures !Accepted(e, steps, ttl, l, k) { AcceptedIsAsk(e, steps, ttl, l, k); }
    FreeFrom(e, steps, ttl, now, k, now, j);
  }

  lemma {:induction false} AcceptedIsAsk(e: Entries, steps: seq<Step>, ttl: real, j: nat, k: Key)
    requires j < |steps|
    ensures Accepted(e, steps, ttl, j, k) ==> steps[j].Ask? && steps[j].key == k
    decreases |steps|
  {
    if j > 0 { AcceptedIsAsk(Stepped(e, steps[0], ttl), steps[1..], ttl, j - 1, k); }
  }

  // ---- collecting garbage is invisible ----

  function Answers(e: Entries, steps: seq<Step>, ttl: real): seq<bool>
    decreases |steps|
  {
    if steps == [] then []
    else (if steps[0].Ask? then [!Live(e, steps[0].key, steps[0].now)] else [])
         + Answers(Stepped(e, steps[0], ttl), steps[1..], ttl)
  }

  function WithoutGc(steps: seq<Step>): seq<Step> {
    if steps == [] then [] else (if steps[0].Gc? then [] else [steps[0]]) + WithoutGc(steps[1..])
  }

  /** The two tables hold back the same requests from `now` on. */
  ghost predicate AlikeFrom(a: Entries, b: Entries, now: real) {
    forall k :: (Live(a, k, now) <==> Live(b, k, now)) && (Live(a, k, now) ==> a[k] == b[k])
  }

  lemma StepAlike(a: Entries, b: Entries, s: Step, ttl: real, now: real)
    requires AlikeFrom(a, b, now) && now <= s.Begins() <= s.Ends()
    ensures !s.Gc? ==> AlikeFrom(Stepped(a, s, ttl), Stepped(b, s, ttl), s.Ends())
    ensures s.Gc? ==> AlikeFrom(Stepped(a, s, ttl), b, s.Ends())
    ensures s.Ask? ==> Live(a, s.key, s.now) == Live(b, s.key, s.now)
  {
    forall k | true
      ensures Live(a, k, s.Begins()) <==> Live(b, k, s.Begins())
      ensures Live(a, k, s.Begins()) ==> a[k] == b[k]
    {
      assert Live(a, k, now) <==> Live(b, k, now);
    }
    if s.Restart? {
      var a', b' := Stepped(a, s, ttl), Stepped(b, s, ttl);
      forall k ensures (Live(a', k, s.loaded) <==> Live(b', k, s.loaded)) && (Live(a', k, s.loaded)
        ==> a'[k] == b'[k]) {
        assert Live(a, k, s.saved) <==> Live(b, k, s.saved);
      }
    }
  }

  /** Removing every collection from a run changes no answer. */
  lemma {:induction false} GcIsInvisible(a: Entries, b: Entries, steps: seq<Step>, ttl: real, now: real)
    requires Monotone(now, steps) && AlikeFrom(a, b, now)
    ensures Answers(a, steps, ttl) == Answers(b, WithoutGc(steps), ttl)
    decreases |steps|
  {
    if steps != [] {
      var s := steps[0];
      StepAlike(a, b, s, ttl, now);
      var rest := WithoutGc(steps[1..]);
      if s.Gc? {
        GcIsInvisible(Stepped(a, s, ttl), b, steps[1..], ttl, s.Ends());
        assert WithoutGc(steps) == rest;
      } else {
        GcIsInvisible(Stepped(a, s, ttl), Stepped(b, s, ttl), steps[1..], ttl, s.Ends());
        assert WithoutGc(steps) == [s] + rest && ([s] + rest)[1..] == rest;
      }
    }
  }
}
