/**
 The token bucket that paces the link (rate_limiter.rs), over exact arithmetic instead of
 floating point. Time is in seconds, tokens are bytes. The clock and the oversleep of each
 `sleep` are given as a script.
 */
module RateLimiter {
  import opened Bytes

  type Delay = x: real | x >= 0.0 witness 0.0

  function Rate(kbps: u64): (r: real)
    ensures r >= 0.0
  {
    kbps as real * 1000.0 / 8.0
  }

  /** `x.max(1.0)` */
  function AtLeastOne(x: real): (r: real)
    ensures r >= 1.0
  {
    if x < 1.0 then 1.0 else x
  }

  function Least(x: real, y: real): real {
    if x < y then x else y
  }

  /** `burst` is one second of traffic, and at least one byte. */
  datatype Bucket = Bucket(rate: real, burst: real, tokens: real, last: real)
  {
    ghost predicate Valid() {
      rate >= 0.0 && burst >= 1.0 && 0.0 <= tokens
    }
  }

  function Full(kbps: u64, now: real): Bucket {
    Bucket(Rate(kbps), AtLeastOne(Rate(kbps)), AtLeastOne(Rate(kbps)), now)
  }

  /** Tokens that accrue in `elapsed` seconds. */
  function Earned(rate: real, elapsed: real): real {
    elapsed * rate
  }

  lemma EarnedMore(rate: real, x: real, y: real)
    requires rate >= 0.0 && 0.0 <= x <= y
    ensures 0.0 <= Earned(rate, x) <= Earned(rate, y)
  {
    NonNegative(y - x, rate);
    NonNegative(x, rate);
    assert Earned(rate, y) == Earned(rate, x) + (y - x) * rate;
  }

  lemma NonNegative(a: real, b: real)
    requires a >= 0.0 && b >= 0.0
    ensures a * b >= 0.0
  {
  }

  lemma EarnedAdds(rate: real, x: real, y: real)
    ensures Earned(rate, x) + Earned(rate, y) == Earned(rate, x + y)
  {
  }

  function Refilled(b: Bucket, now: real): Bucket {
    b.(last := now, tokens := Least(b.tokens + Earned(b.rate, now - b.last), b.burst))
  }

  // ---- waiting ----

  /** When the loop reads the clock again: it slept for the shortfall, perhaps longer. */
  function Woken(b: Bucket, n: nat, late: Delay): real {
    b.last + (n as real - b.tokens) / AtLeastOne(b.rate) + late
  }

  /** The bucket `acquire(n)` looks at after `k` sleeps, the first look being at `b`. */
  function AfterSleeps(b: Bucket, n: nat, late: nat -> Delay, k: nat): Bucket {
    if k == 0 then b
    else
      var c := AfterSleeps(b, n, late, k - 1);
      if c.tokens >= n as real then c else Refilled(c, Woken(c, n, late(k - 1)))
  }

  predicate Enough(b: Bucket, n: nat) {
    b.tokens >= n as real
  }

  /** `acquire(n)` has returned by the time it has slept `k` times. */
  predicate Returned(b: Bucket, n: nat, late: nat -> Delay, k: nat) {
    Enough(AfterSleeps(b, n, late, k), n)
  }

  lemma QuotientCovers(needed: real, rate: real, late: real)
    requires rate > 0.0 && needed >= 0.0 && late >= 0.0
    ensures (needed / rate + late) * rate >= needed
  {
    assert needed / rate * rate == needed;
    assert late * rate >= 0.0;
  }

  /** A shortfall that the bucket can hold is covered by one sleep. */
  lemma OneSleepSuffices(b: Bucket, n: nat, late: Delay)
    requires b.Valid() && b.rate >= 1.0 && n as real <= b.burst && !Enough(b, n)
    ensures Enough(Refilled(b, Woken(b, n, late)), n)
  {
    QuotientCovers(n as real - b.tokens, b.rate, late);
  }

  /** A request beyond the bucket's size, or any shortfall at rate zero, is never covered. */
  lemma {:induction false} NeverEnough(b: Bucket, n: nat, late: nat -> Delay, k: nat)
    requires !Enough(b, n) && (n as real > b.burst || b.rate == 0.0)
    ensures !Enough(AfterSleeps(b, n, late, k), n)
    ensures var c := AfterSleeps(b, n, late, k); c.burst == b.burst && c.rate == b.rate
  {
    if k > 0 {
      NeverEnough(b, n, late, k - 1);
      var c := AfterSleeps(b, n, late, k - 1);
      assert (Woken(c, n, late(k - 1)) - c.last) * b.rate == 0.0 || n as real > b.burst;
    }
  }

  /** `b` is a bucket of a limiter set to `kbps`, just refilled. */
  ghost predicate SetTo(b: Bucket, kbps: u64) {
    b.Valid() && b.rate == Rate(kbps) && b.burst == AtLeastOne(Rate(kbps)) && b.tokens <= b.burst
  }

  /**
   `acquire(n)` returns exactly when the tokens are there already, or the link has a rate and
   `n` fits the bucket; and then it has slept at most once.
   */
  lemma AcquireReturns(b: Bucket, kbps: u64, n: nat, late: nat -> Delay)
    requires SetTo(b, kbps)
    ensures (exists k: nat :: Returned(b, n, late, k)) <==> Enough(b, n) || (kbps > 0 && n as real <= b.burst)
    ensures (exists k: nat :: Returned(b, n, late, k)) ==> Returned(b, n, late, 1)
  {
    assert AfterSleeps(b, n, late, 0) == b;
    if Enough(b, n) {
      assert Returned(b, n, late, 1);
    } else if kbps > 0 && n as real <= b.burst {
      OneSleepSuffices(b, n, late(0));
      assert Returned(b, n, late, 1);
    } else {
      forall k: nat ensures !Returned(b, n, late, k) { NeverEnough(b, n, late, k); }
    }
  }

  /** One second of traffic covers `n` bytes. */
  predicate FitsBucket(n: nat, kbps: u64) {
    n == 0 || (kbps > 0 && n as real <= AtLeastOne(Rate(kbps)))
  }

  /** Except for a single byte that alone decides: the call returns, after at most one sleep, or never does. */
  lemma ReturnsIffFits(b: Bucket, kbps: u64, n: nat, late: nat -> Delay)
    requires SetTo(b, kbps) && n != 1
    ensures FitsBucket(n, kbps) <==> Returned(b, n, late, 1)
    ensures !FitsBucket(n, kbps) ==> forall k: nat :: !Returned(b, n, late, k)
  {
    AcquireReturns(b, kbps, n, late);
  }

  lemma {:induction false} SleepsKeepRate(b: Bucket, n: nat, late: nat -> Delay, k: nat)
    ensures var c := AfterSleeps(b, n, late, k); c.rate == b.rate && c.burst == b.burst
  {
    if k > 0 { SleepsKeepRate(b, n, late, k - 1); }
  }

  /** A 30 kbit/s link never lets a full default datagram through, however long it waits. */
  lemma SlowLinkBlocks(b: Bucket, late: nat -> Delay, k: nat)
    requires SetTo(b, 30)
    ensures b.burst == 3750.0 && !Returned(b, 16192, late, k)
  {
    NeverEnough(b, 16192, late, k);
  }

  /** A new limiter grants at once, before any sleep, exactly what fits one second of traffic or is one byte. */
  lemma NewLimiterGrants(kbps: u64, made: real, asked: real, n: nat, late: nat -> Delay)
    requires made <= asked
    ensures Returned(Refilled(Full(kbps, made), asked), n, late, 0) <==> n <= 1 || n <= 125 * kbps
  {
    EarnedMore(Rate(kbps), 0.0, asked - made);
    hide Earned;
    assert Rate(kbps) == 125.0 * kbps as real;
  }

  /** A sleep is as long as it must be: with no oversleep it ends when the tokens asked for are just there. */
  lemma SleepJustEnough(b: Bucket, n: nat)
    requires b.Valid() && b.rate >= 1.0 && n as real <= b.burst && !Enough(b, n)
    ensures Refilled(b, Woken(b, n, 0.0)).tokens == n as real
  {
    var needed := n as real - b.tokens;
    assert needed / b.rate * b.rate == needed;
  }

  // ---- what is granted in a window ----

  datatype Event = Refill(now: real) | Spend(n: nat)

  function Apply(b: Bucket, e: Event): Bucket {
    match e
    case Refill(now) => Refilled(b, now)
    case Spend(n) => b.(tokens := b.tokens - n as real)
  }

  function ApplyAll(b: Bucket, es: seq<Event>): Bucket {
    if es == [] then b else Apply(ApplyAll(b, es[..|es| - 1]), es[|es| - 1])
  }

  /** Clock readings never go back, and tokens are spent only when there, after a refill. */
  ghost predicate Allowed(b: Bucket, e: Event) {
    match e
    case Refill(now) => now >= b.last
    case Spend(n) => n as real <= b.tokens <= b.burst
  }

  ghost predicate Legal(b: Bucket, es: seq<Event>) {
    forall k :: 0 <= k < |es| ==> Allowed(ApplyAll(b, es[..k]), es[k])
  }

  /** Bytes granted by the run from `b` at times within `from..to`. */
  function Granted(b: Bucket, es: seq<Event>, from: real, to: real): nat {
    if es == [] then 0
    else
      var front, e := es[..|es| - 1], es[|es| - 1];
      Granted(b, front, from, to) + if e.Spend? && from <= ApplyAll(b, front).last <= to then e.n else 0
  }

  lemma LegalFront(b: Bucket, es: seq<Event>)
    requires Legal(b, es) && es != []
    ensures var front := es[..|es| - 1]; Legal(b, front) && Allowed(ApplyAll(b, front), es[|es| - 1])
  {
    var front := es[..|es| - 1];
    assert forall k :: 0 <= k < |front| ==> front[..k] == es[..k];
    assert es[..|es| - 1] == front;
  }

  lemma ApplyValid(b: Bucket, e: Event)
    requires b.Valid() && Allowed(b, e)
    ensures Apply(b, e).Valid() && Apply(b, e).last >= b.last
    ensures Apply(b, e).rate == b.rate && Apply(b, e).burst == b.burst
    ensures e.Refill? ==> Apply(b, e).tokens <= b.tokens + Earned(b.rate, e.now - b.last)
  {
    if e.Refill? { EarnedMore(b.rate, 0.0, e.now - b.last); }
  }

  lemma {:induction false} RunValid(b: Bucket, es: seq<Event>)
    requires b.Valid() && Legal(b, es)
    ensures ApplyAll(b, es).Valid() && ApplyAll(b, es).last >= b.last
    ensures ApplyAll(b, es).rate == b.rate && ApplyAll(b, es).burst == b.burst
  {
    if es != [] {
      hide Apply, Allowed, Legal;
      LegalFront(b, es);
      RunValid(b, es[..|es| - 1]);
      ApplyValid(ApplyAll(b, es[..|es| - 1]), es[|es| - 1]);
    }
  }

  /** `g` bytes granted since `from`, with the bucket now at `c`, keep the bound for windows from `from` to `to`. */
  ghost predicate Within(c: Bucket, g: nat, from: real, to: real) {
    g == 0
    || (from <= c.last <= to && g as real + c.tokens <= c.burst + Earned(c.rate, c.last - from))
    || (c.last > to && g as real <= c.burst + Earned(c.rate, to - from))
  }

  lemma EventWithin(c: Bucket, g: nat, e: Event, from: real, to: real)
    requires c.Valid() && Allowed(c, e) && from <= to && Within(c, g, from, to)
    ensures Within(Apply(c, e), g + if e.Spend? && from <= c.last <= to then e.n else 0, from, to)
  {
    ApplyValid(c, e);
    hide Earned;
    match e {
      case Refill(now) =>
        if g > 0 && from <= c.last <= to {
          EarnedAdds(c.rate, c.last - from, now - c.last);
          EarnedMore(c.rate, c.last - from, to - from);
        }
      case Spend(n) =>
        if from <= c.last { EarnedMore(c.rate, 0.0, c.last - from); }
    }
  }

  /**
   What has been granted since `from` and what is still in the bucket come to at most one
   bucket and the rate over the time since.
   */
  lemma {:induction false} RunWithin(b: Bucket, es: seq<Event>, from: real, to: real)
    requires b.Valid() && Legal(b, es) && from <= to
    ensures Within(ApplyAll(b, es), Granted(b, es, from, to), from, to)
  {
    if es != [] {
      hide Apply, Allowed, Legal, Within;
      var front := es[..|es| - 1];
      LegalFront(b, es);
      RunWithin(b, front, from, to);
      RunValid(b, front);
      EventWithin(ApplyAll(b, front), Granted(b, front, from, to), es[|es| - 1], from, to);
    } else {
      assert Granted(b, es, from, to) == 0;
    }
  }

  /** In every window of every run at one rate, at most one bucket plus the rate times its length is granted. */
  lemma WindowBound(b: Bucket, es: seq<Event>, from: real, to: real)
    requires b.Valid() && Legal(b, es) && from <= to
    ensures Granted(b, es, from, to) as real <= b.burst + b.rate * (to - from)
  {
    hide Earned, ApplyAll, Granted, Legal, Within;
    RunWithin(b, es, from, to);
    RunValid(b, es);
    WithinBound(ApplyAll(b, es), Granted(b, es, from, to), from, to);
    EarnedIs(b.rate, to - from);
  }

  lemma WithinBound(c: Bucket, g: nat, from: real, to: real)
    requires c.Valid() && from <= to && Within(c, g, from, to)
    ensures g as real <= c.burst + Earned(c.rate, to - from)
  {
    EarnedMore(c.rate, 0.0, to - from);
    hide Earned;
    if from <= c.last <= to { EarnedMore(c.rate, c.last - from, to - from); }
  }

  lemma EarnedIs(rate: real, elapsed: real)
    ensures Earned(rate, elapsed) == rate * elapsed
  {
  }

  // ---- the limiter ----

  class RateLimiter {
    var bytesPerSec: real
    var burstBytes: real
    var tokens: real
    var last: real
    ghost var since: Bucket          // the bucket when the rate was last set
    ghost var events: seq<Event>     // what happened since

    function State(): Bucket
      reads this
    {
      Bucket(bytesPerSec, burstBytes, tokens, last)
    }

    /** The state is what a legal run at one rate makes of the bucket, so `WindowBound` holds of it. */
    ghost predicate Valid()
      reads this
    {
      since.Valid() && Legal(since, events) && State() == ApplyAll(since, events)
    }

    constructor (kbps: u64, now: real)
      ensures Valid() && State() == Full(kbps, now) && SetTo(State(), kbps)
    {
      bytesPerSec := Rate(kbps);
      burstBytes, tokens, last := AtLeastOne(Rate(kbps)), AtLeastOne(Rate(kbps)), now;
      since, events := Full(kbps, now), [];
    }

    /** A new rate; the tokens stay until the next refill cuts them to the new size. */
    method SetKbps(kbps: u64)
      requires Valid()
      modifies this
      ensures Valid() && State() == old(State()).(rate := Rate(kbps), burst := AtLeastOne(Rate(kbps)))
      ensures events == []
    {
      RunValid(since, events);
      bytesPerSec := Rate(kbps);
      burstBytes := AtLeastOne(Rate(kbps));
      since, events := State(), [];
    }

    ghost method Happen(e: Event)
      requires since.Valid() && Legal(since, events) && Allowed(ApplyAll(since, events), e)
      modifies this`events
      ensures events == old(events) + [e] && Legal(since, events)
      ensures ApplyAll(since, events) == Apply(ApplyAll(since, old(events)), e)
    {
      var before := events;
      events := events + [e];
      assert events[..|events| - 1] == before;
      forall k | 0 <= k < |events| ensures Allowed(ApplyAll(since, events[..k]), events[k]) {
        if k < |before| { assert events[..k] == before[..k] && Allowed(ApplyAll(since, before[..k]), before[k]); }
      }
    }

    method RefillAt(now: real)
      requires Valid() && now >= last
      modifies this`tokens, this`last, this`events
      ensures Valid() && State() == Refilled(old(State()), now) && events == old(events) + [Refill(now)]
      ensures tokens <= burstBytes
    {
      var elapsed := now - last;
      last := now;
      tokens := Least(tokens + Earned(bytesPerSec, elapsed), burstBytes);
      Happen(Refill(now));
    }

    /**
     Waits for `n` tokens and takes them. `patience` bounds how many sleeps are watched: the
     call itself would go on for ever where `AcquireReturns` says so.
     */
    method Acquire(n: nat, start: real, late: nat -> Delay, patience: nat) returns (granted: bool, sleeps: nat)
      requires Valid() && start >= last
      modifies this
      ensures Valid() && since == old(since) && sleeps <= patience
      ensures var b := Refilled(old(State()), start);
        && granted == Returned(b, n, late, sleeps)
        && (sleeps > 0 ==> !Returned(b, n, late, sleeps - 1)) && (!granted ==> sleeps == patience)
        && var c := AfterSleeps(b, n, late, sleeps);
           State() == if granted then c.(tokens := c.tokens - n as real) else c
      ensures |events| == |old(events)| + sleeps + (if granted then 2 else 1) && old(events) <= events
      ensures granted ==> events[|events| - 1] == Spend(n)
    {
      hide Legal, ApplyAll, Refilled, Apply, AfterSleeps;
      ghost var b := Refilled(State(), start);
      sleeps, granted := 0, false;
      RefillAt(start);
      NoSleeps(b, n, late);
      while tokens < n as real && sleeps < patience
        invariant Valid() && since == old(since) && sleeps <= patience
        invariant State() == AfterSleeps(b, n, late, sleeps) && tokens <= burstBytes
        invariant sleeps > 0 ==> !Returned(b, n, late, sleeps - 1)
        invariant |events| == |old(events)| + sleeps + 1 && old(events) <= events
        decreases patience - sleeps
      {
        var needed := n as real - tokens;
        var secs := needed / AtLeastOne(bytesPerSec);
        SleepForward(State(), n);
        NextSleep(b, n, late, sleeps);
        RefillAt(last + secs + late(sleeps));
        sleeps := sleeps + 1;
      }
      if tokens >= n as real {
        Take(n);
        granted := true;
      }
    }

    ghost predicate SetAt(kbps: u64)
      reads this
    {
      bytesPerSec == Rate(kbps) && burstBytes == AtLeastOne(Rate(kbps))
    }

    /** Whether `acquire(n)`, called `gap` after the last reading, returns: one sleep shows it. */
    method AcquireReturning(n: nat, ghost kbps: u64, gap: Delay, late: nat -> Delay) returns (granted: bool)
      requires Valid() && SetAt(kbps) && n != 1
      modifies this
      ensures Valid() && SetAt(kbps) && granted == FitsBucket(n, kbps)
    {
      ghost var b := Refilled(State(), last + gap);
      RefilledSetTo(this, kbps, gap);
      ReturnsIffFits(b, kbps, n, late);
      hide Legal, ApplyAll, Refilled, AfterSleeps, Returned, Rate, AtLeastOne, FitsBucket;
      var sleeps;
      granted, sleeps := Acquire(n, last + gap, late, 1);
      SleepsKeepRate(b, n, late, sleeps);
      RefillKeepsRate(old(State()), old(last) + gap);
      EarlierLook(b, n, late);
    }

    method Take(n: nat)
      requires Valid() && n as real <= tokens <= burstBytes
      modifies this`tokens, this`events
      ensures Valid() && events == old(events) + [Spend(n)]
      ensures State() == old(State()).(tokens := old(tokens) - n as real)
    {
      tokens := tokens - n as real;
      Happen(Spend(n));
    }
  }

  lemma RefilledSetTo(l: RateLimiter, kbps: u64, gap: Delay)
    requires l.Valid() && l.SetAt(kbps)
    ensures SetTo(Refilled(l.State(), l.last + gap), kbps)
  {
    RunValid(l.since, l.events);
    EarnedMore(l.bytesPerSec, 0.0, gap);
  }

  lemma RefillKeepsRate(b: Bucket, now: real)
    ensures Refilled(b, now).rate == b.rate && Refilled(b, now).burst == b.burst
  {
  }

  /** What was enough at the first look is enough at the next. */
  lemma EarlierLook(b: Bucket, n: nat, late: nat -> Delay)
    ensures Returned(b, n, late, 0) ==> Returned(b, n, late, 1)
  {
    assert AfterSleeps(b, n, late, 0) == b;
  }

  lemma NoSleeps(b: Bucket, n: nat, late: nat -> Delay)
    ensures AfterSleeps(b, n, late, 0) == b
  {
  }

  lemma NextSleep(b: Bucket, n: nat, late: nat -> Delay, k: nat)
    requires !Returned(b, n, late, k)
    ensures var c := AfterSleeps(b, n, late, k);
      AfterSleeps(b, n, late, k + 1) == Refilled(c, Woken(c, n, late(k)))
  {
  }

  lemma SleepForward(b: Bucket, n: nat)
    requires !Enough(b, n)
    ensures (n as real - b.tokens) / AtLeastOne(b.rate) >= 0.0
  {
  }
}
