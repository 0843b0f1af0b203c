/**
 * The client-side budget of SP-API requests (packages/amazon-adapter/src/budget.ts): a token bucket
 * for each seller and operation and one for each operation of the application, charged together or
 * not at all. Tokens are exact numbers; the rounding of floating point is not modelled.
 */
module RateBudget {
  import opened Common

  datatype Operation =
    | PatchListingsItem | GetListingsItem | SearchListingsItems
    | GetCompetitiveSummary | SearchOrders | GetInventorySummaries

  datatype Limits = Limits(pairRate: real, pairBurst: real, applicationRate: Option<real>)

  /** AMAZON_RATE_LIMITS of packages/amazon-adapter/src/descriptor.ts. */
  function LimitsOf(op: Operation): (r: Limits)
    ensures r.pairRate > 0.0 && r.pairBurst >= 1.0
    ensures r.applicationRate.Some? ==> r.applicationRate.value > 0.0
  {
    match op
    case PatchListingsItem => Limits(5.0, 5.0, Some(500.0))
    case GetListingsItem => Limits(5.0, 5.0, Some(100.0))
    case SearchListingsItems => Limits(5.0, 5.0, Some(100.0))
    case GetCompetitiveSummary => Limits(0.033, 1.0, None)
    case SearchOrders => Limits(0.0056, 20.0, None)
    case GetInventorySummaries => Limits(2.0, 2.0, None)
  }

  datatype BucketKey = Pair(sellerId: string, operation: Operation) | Application(operation: Operation)

  datatype Bucket = Bucket(tokens: real, updatedMs: int, rate: real, burst: real)

  datatype Level = PairLevel | ApplicationLevel

  datatype Answer = Granted | Refused(retryAtMs: int, level: Level)

  type Buckets = map<BucketKey, Bucket>

  function MinReal(a: real, b: real): (r: real) { if a <= b then a else b }

  function MaxReal(a: real, b: real): (r: real) { if a >= b then a else b }

  function Ceil(x: real): (n: int)
    ensures n as real >= x
    ensures n as real - 1.0 < x
  {
    -((-x).Floor)
  }

  /** What flows into a bucket between two moments. */
  function Inflow(rate: real, fromMs: int, toMs: int): (r: real) {
    (Max(0, toMs - fromMs) as real) / 1000.0 * rate
  }

  function Refill(b: Bucket, now: int): (r: Bucket) {
    b.(tokens := MinReal(b.burst, b.tokens + Inflow(b.rate, b.updatedMs, now)), updatedMs := now)
  }

  function Fetch(bs: Buckets, key: BucketKey, rate: real, burst: real, now: int): (r: Bucket) {
    Refill(if key in bs then bs[key] else Bucket(burst, now, rate, burst), now)
  }

  /** The share of the application's rate that the other processes leave. */
  function ApplicationRate(op: Operation, load: real): (r: real)
    requires LimitsOf(op).applicationRate.Some?
    ensures load <= LimitsOf(op).applicationRate.value ==> r + load == LimitsOf(op).applicationRate.value
    ensures load >= LimitsOf(op).applicationRate.value ==> r == 0.0
  {
    MaxReal(0.0, LimitsOf(op).applicationRate.value - load)
  }

  /** The part of the full burst that goes with a part of the rate: a whole number, at least 1. */
  function Share(full: real, part: real, whole: real): (r: real)
    requires whole > 0.0
  {
    MaxReal(1.0, (full * (part / whole)).Floor as real)
  }

  function ApplicationBurst(op: Operation, load: real, fullBurst: real): (r: real)
    requires LimitsOf(op).applicationRate.Some?
  {
    var rate := ApplicationRate(op, load);
    if rate > 0.0 then Share(fullBurst, rate, LimitsOf(op).applicationRate.value) else 0.0
  }

  /**
   * A process's part of the application's limits: what the load leaves of the rate, and the whole tokens
   * of that part of the burst, one at least while anything is left.
   */
  lemma {:induction false} PartIsWhatIsLeft(op: Operation, load: real, fullBurst: real)
    requires LimitsOf(op).applicationRate.Some?
    ensures var limit, burst := LimitsOf(op).applicationRate.value, ApplicationBurst(op, load, fullBurst);
            var part := fullBurst * ((limit - load) / limit);
            if load >= limit then ApplicationRate(op, load) == 0.0 == burst
            else
              && ApplicationRate(op, load) == limit - load
              && burst >= 1.0 && burst == burst.Floor as real && part < burst + 1.0 && (burst > 1.0 ==> burst <= part)
  {
  }

  function Wait(b: Bucket): (ms: int) {
    if b.rate > 0.0 then Ceil((1.0 - b.tokens) / b.rate * 1000.0) else 60000
  }

  function PairBucket(bs: Buckets, sellerId: string, op: Operation, now: int): (r: Bucket) {
    Fetch(bs, Pair(sellerId, op), LimitsOf(op).pairRate, LimitsOf(op).pairBurst, now)
  }

  /** The application's bucket after it took over the rate and the burst of this call. */
  function ApplicationBucket(bs: Buckets, op: Operation, now: int, load: real, fullBurst: real): (r: Bucket)
    requires LimitsOf(op).applicationRate.Some?
  {
    var rate := ApplicationRate(op, load);
    var burst := ApplicationBurst(op, load, fullBurst);
    var b := Fetch(bs, Application(op), rate, burst, now);
    b.(rate := rate, burst := burst, tokens := MinReal(b.tokens, burst))
  }

  function Charged(b: Bucket): (r: Bucket) { b.(tokens := b.tokens - 1.0) }

  /** The part of tryAcquire for an operation with an application limit; `pair` is refilled and stored. */
  function AcquireShared(bs: Buckets, pair: Bucket, sellerId: string, op: Operation, now: int, load: real,
          fullBurst: real): (r: (Buckets, Answer))
    requires LimitsOf(op).applicationRate.Some?
  {
    var app := ApplicationBucket(bs, op, now, load, fullBurst);
    if pair.tokens < 1.0 then (bs[Application(op) := app], Refused(now + Wait(pair), PairLevel))
    else if app.tokens < 1.0 then (bs[Application(op) := app], Refused(now + Wait(app), ApplicationLevel))
    else (bs[Pair(sellerId, op) := Charged(pair)][Application(op) := Charged(app)], Granted)
  }

  /** tryAcquire on values: the buckets it leaves and its answer. */
  function Acquire(bs: Buckets, sellerId: string, op: Operation, now: int, load: real,
          fullBurst: real): (r: (Buckets, Answer)) {
    var pair := PairBucket(bs, sellerId, op, now);
    var stored := bs[Pair(sellerId, op) := pair];
    if LimitsOf(op).applicationRate.Some? then AcquireShared(stored, pair, sellerId, op, now, load, fullBurst)
    else if pair.tokens < 1.0 then (stored, Refused(now + Wait(pair), PairLevel))
    else (stored[Pair(sellerId, op) := Charged(pair)], Granted)
  }

  /** observePairLimit on values. */
  function Observe(bs: Buckets, sellerId: string, op: Operation, rate: real): (r: Buckets) {
    var key := Pair(sellerId, op);
    if rate <= 0.0 then bs
    else if key in bs then bs[key := bs[key].(rate := rate)]
    else bs[key := Bucket(LimitsOf(op).pairBurst, 0, rate, LimitsOf(op).pairBurst)]
  }

  /** The budget as the source keeps it: one map of buckets that every call changes in place. */
  class TwoLevelBudget {
    var buckets: Buckets
    const applicationBurst: Operation -> real

    constructor (applicationBurst: Operation -> real)
      ensures buckets == map[] && this.applicationBurst == applicationBurst
    {
      buckets := map[];
      this.applicationBurst := applicationBurst;
    }

    /** bucket(): finds or creates the bucket and refills it. */
    method Touch(key: BucketKey, rate: real, burst: real, now: int) returns (b: Bucket)
      modifies this`buckets
      ensures b == Fetch(old(buckets), key, rate, burst, now)
      ensures buckets == old(buckets)[key := b]
    {
      if key !in buckets {
        buckets := buckets[key := Bucket(burst, now, rate, burst)];
      }
      b := buckets[key];
      b := b.(tokens := MinReal(b.burst, b.tokens + (Max(0, now - b.updatedMs) as real) / 1000.0 * b.rate));
      b := b.(updatedMs := now);
      buckets := buckets[key := b];
    }

    /** tryAcquire(): `load` is what applicationLoadRps() answers. */
    method TryAcquire(sellerId: string, op: Operation, now: int, load: real) returns (answer: Answer)
      modifies this`buckets
      ensures (buckets, answer) == Acquire(old(buckets), sellerId, op, now, load, applicationBurst(op))
    {
      var limits := LimitsOf(op);
      var pair := Touch(Pair(sellerId, op), limits.pairRate, limits.pairBurst, now);
      if limits.applicationRate.None? {
        if pair.tokens < 1.0 {
          return Refused(now + Wait(pair), PairLevel);
        }
        buckets := buckets[Pair(sellerId, op) := pair.(tokens := pair.tokens - 1.0)];
        return Granted;
      }
      answer := AcquireBoth(pair, sellerId, op, now, load);
    }

    /** The part of tryAcquire() for an operation whose application limit is known; `pair` is refilled already. */
    method AcquireBoth(pair: Bucket, sellerId: string, op: Operation, now: int, load: real) returns (answer: Answer)
      requires Pair(sellerId, op) in buckets && buckets[Pair(sellerId, op)] == pair
                 && LimitsOf(op).applicationRate.Some?
      modifies this`buckets
      ensures (buckets, answer) == AcquireShared(old(buckets), pair, sellerId, op, now, load, applicationBurst(op))
    {
      var limit := LimitsOf(op).applicationRate.value;
      var appRate := MaxReal(0.0, limit - load);
      var appBurst := if appRate > 0.0 then Share(applicationBurst(op), appRate, limit) else 0.0;
      var app := Touch(Application(op), appRate, appBurst, now);
      app := app.(rate := appRate, burst := appBurst, tokens := MinReal(app.tokens, appBurst));
      buckets := buckets[Application(op) := app];
      assert buckets == old(buckets)[Application(op) := app];
      if pair.tokens < 1.0 {
        return Refused(now + Wait(pair), PairLevel);
      }
      if app.tokens < 1.0 {
        return Refused(now + Wait(app), ApplicationLevel);
      }
      buckets := buckets[Pair(sellerId, op) := pair.(tokens := pair.tokens - 1.0)];
      buckets := buckets[Application(op) := app.(tokens := app.tokens - 1.0)];
      assert buckets == old(buckets)[Pair(sellerId, op) := Charged(pair)][Application(op) := Charged(app)];
      answer := Granted;
    }

    method ObservePairLimit(sellerId: string, op: Operation, ratePerSecond: real)
      modifies this`buckets
      ensures buckets == Observe(old(buckets), sellerId, op, ratePerSecond)
    {
      if !(ratePerSecond > 0.0) {
        return;
      }
      var key := Pair(sellerId, op);
      if key in buckets {
        buckets := buckets[key := buckets[key].(rate := ratePerSecond)];
      } else {
        buckets := buckets[key := Bucket(LimitsOf(op).pairBurst, 0, ratePerSecond, LimitsOf(op).pairBurst)];
      }
    }
  }

  // ---------------------------------------------------------------- runs

  datatype Call =
    | TryCall(sellerId: string, operation: Operation, now: int, load: real)
    | ObserveCall(sellerId: string, operation: Operation, rate: real)

  function After(bs: Buckets, c: Call, fullBurst: Operation -> real): (r: Buckets) {
    match c
    case TryCall(sellerId, op, now, load) => Acquire(bs, sellerId, op, now, load, fullBurst(op)).0
    case ObserveCall(sellerId, op, rate) => Observe(bs, sellerId, op, rate)
  }

  predicate IsGrant(bs: Buckets, c: Call, fullBurst: Operation -> real) {
    c.TryCall? && Acquire(bs, c.sellerId, c.operation, c.now, c.load, fullBurst(c.operation)).1.Granted?
  }

  function Run(bs: Buckets, cs: seq<Call>, fullBurst: Operation -> real): (r: Buckets)
    decreases cs
  {
    if cs == [] then bs else Run(After(bs, cs[0], fullBurst), cs[1..], fullBurst)
  }

  function Answers(bs: Buckets, cs: seq<Call>, fullBurst: Operation -> real): (r: seq<Answer>)
    decreases cs
  {
    if cs == [] then []
    else
      (if cs[0].TryCall? then
         [Acquire(bs, cs[0].sellerId, cs[0].operation, cs[0].now, cs[0].load, fullBurst(cs[0].operation)).1]
       else [])
      + Answers(After(bs, cs[0], fullBurst), cs[1..], fullBurst)
  }

  /** Grants of an operation to one seller, or to all sellers when no seller is named. */
  function Grants(bs: Buckets, cs: seq<Call>, sellerId: Option<string>, op: Operation,
          fullBurst: Operation -> real): (n: nat)
    decreases cs
  {
    if cs == [] then 0
    else
      (if IsGrant(bs, cs[0], fullBurst) && cs[0].operation == op
       && (sellerId.None? || cs[0].sellerId == sellerId.value) then 1 else 0)
      + Grants(After(bs, cs[0], fullBurst), cs[1..], sellerId, op, fullBurst)
  }

  /** The clock never goes back and stays inside the interval; the outside load is never negative. */
  predicate Timely(cs: seq<Call>, s: int, t: int) {
    if cs == [] then s <= t
    else if cs[0].TryCall? then s <= cs[0].now <= t && cs[0].load >= 0.0 && Timely(cs[1..], cs[0].now, t)
    else Timely(cs[1..], s, t)
  }

  predicate BucketOk(b: Bucket, s: int) {
    && 0.0 <= b.tokens <= b.burst
    && b.rate >= 0.0
    && (b.updatedMs <= s || b.tokens == b.burst)
  }

  /** What holds of the buckets at any time `s` of a run. */
  ghost predicate Sound(bs: Buckets, fullBurst: Operation -> real, s: int) {
    forall key :: key in bs ==>
      && BucketOk(bs[key], s)
      && match key
         case Pair(_, op) => bs[key].burst == LimitsOf(op).pairBurst
         case Application(op) =>
           && LimitsOf(op).applicationRate.Some?
           && bs[key].rate <= LimitsOf(op).applicationRate.value
           && bs[key].burst <= MaxReal(1.0, fullBurst(op))
  }

  lemma {:induction false} InflowBound(rate: real, r: real, fromMs: int, toMs: int)
    requires 0.0 <= rate <= r && fromMs <= toMs
    ensures 0.0 <= Inflow(rate, fromMs, toMs) <= r * (toMs - fromMs) as real / 1000.0
  {
    var d := (toMs - fromMs) as real / 1000.0;
    assert d >= 0.0 && d * rate <= d * r;
  }

  /** A share of the full burst is at most the full burst. */
  lemma {:induction false} ShareBound(full: real, part: real, whole: real)
    requires 0.0 <= part <= whole && whole > 0.0
    ensures Share(full, part, whole) <= MaxReal(1.0, full)
  {
    var ratio := part / whole;
    assert 0.0 <= ratio <= 1.0;
    if full >= 0.0 {
      assert full * ratio <= full * 1.0;
    } else {
      assert full * ratio <= 0.0;
    }
  }

  lemma {:induction false} RefillOk(b: Bucket, s: int, now: int)
    requires BucketOk(b, s) && s <= now
    ensures BucketOk(Refill(b, now), now)
  {
    if b.updatedMs <= now {
      InflowBound(b.rate, b.rate, b.updatedMs, now);
    }
  }

  lemma {:induction false} ApplicationOk(bs: Buckets, op: Operation, fullBurst: Operation -> real, s: int, now: int,
          load: real)
    requires Sound(bs, fullBurst, s) && s <= now && load >= 0.0 && LimitsOf(op).applicationRate.Some?
    ensures var app := ApplicationBucket(bs, op, now, load, fullBurst(op));
            && BucketOk(app, now) && app.updatedMs == now
            && app.rate <= LimitsOf(op).applicationRate.value
            && app.burst <= MaxReal(1.0, fullBurst(op))
  {
    var rate, burst := ApplicationRate(op, load), ApplicationBurst(op, load, fullBurst(op));
    assert burst <= MaxReal(1.0, fullBurst(op)) by {
      if rate > 0.0 {
        ShareBound(fullBurst(op), rate, LimitsOf(op).applicationRate.value);
      }
    }
    var b := if Application(op) in bs then bs[Application(op)] else Bucket(burst, now, rate, burst);
    assert BucketOk(b, now);
    RefillOk(b, now, now);
  }

  lemma {:induction false} PairOk(bs: Buckets, sellerId: string, op: Operation, fullBurst: Operation -> real, s: int,
          now: int)
    requires Sound(bs, fullBurst, s) && s <= now
    ensures var pair := PairBucket(bs, sellerId, op, now);
            && BucketOk(pair, now) && pair.updatedMs == now && pair.burst == LimitsOf(op).pairBurst
            && Sound(bs[Pair(sellerId, op) := pair], fullBurst, now)
  {
    if Pair(sellerId, op) in bs {
      RefillOk(bs[Pair(sellerId, op)], s, now);
    }
  }

  lemma {:induction false} SharedSound(bs: Buckets, pair: Bucket, c: Call, fullBurst: Operation -> real)
    requires c.TryCall? && c.load >= 0.0 && Sound(bs, fullBurst, c.now) && LimitsOf(c.operation).applicationRate.Some?
    requires BucketOk(pair, c.now) && pair.updatedMs == c.now && pair.burst == LimitsOf(c.operation).pairBurst
    ensures Sound(AcquireShared(bs, pair, c.sellerId, c.operation, c.now, c.load, fullBurst(c.operation)).0,
                  fullBurst, c.now)
  {
    ApplicationOk(bs, c.operation, fullBurst, c.now, c.now, c.load);
  }

  lemma {:induction false} AfterSound(bs: Buckets, c: Call, fullBurst: Operation -> real, s: int, now: int)
    requires Sound(bs, fullBurst, s) && s <= now
    requires c.TryCall? ==> c.now == now && c.load >= 0.0
    ensures Sound(After(bs, c, fullBurst), fullBurst, now)
  {
    if c.TryCall? {
      var pair := PairBucket(bs, c.sellerId, c.operation, now);
      PairOk(bs, c.sellerId, c.operation, fullBurst, s, now);
      if LimitsOf(c.operation).applicationRate.Some? {
        SharedSound(bs[Pair(c.sellerId, c.operation) := pair], pair, c, fullBurst);
      }
    }
  }

  // ---------------------------------------------------------------- bound for one seller

  /** The pair rate in force for a seller: the observed one, or the documented one before any call. */
  function InForce(bs: Buckets, sellerId: string, op: Operation): (r: real) {
    if Pair(sellerId, op) in bs then bs[Pair(sellerId, op)].rate else LimitsOf(op).pairRate
  }

  /** The rate of a pair by its calls alone: the last one observed, or else the documented one. */
  function ObservedRate(cs: seq<Call>, sellerId: string, op: Operation): (r: real) {
    if cs == [] then LimitsOf(op).pairRate
    else
      var c := cs[|cs| - 1];
      if Observes(c, sellerId, op) then c.rate
      else ObservedRate(cs[..|cs| - 1], sellerId, op)
  }

  lemma {:induction false} RunLast(bs: Buckets, cs: seq<Call>, c: Call, fullBurst: Operation -> real)
    ensures Run(bs, cs + [c], fullBurst) == After(Run(bs, cs, fullBurst), c, fullBurst)
    decreases cs
  {
    if cs == [] {
      assert [] + [c] == [c] && [c][1..] == [];
    } else {
      assert (cs + [c])[1..] == cs[1..] + [c] && (cs + [c])[0] == cs[0];
      RunLast(After(bs, cs[0], fullBurst), cs[1..], c, fullBurst);
    }
  }

  predicate Observes(c: Call, sellerId: string, op: Operation) {
    c.ObserveCall? && c.sellerId == sellerId && c.operation == op && c.rate > 0.0
  }

  lemma {:induction false} RateAfter(bs: Buckets, c: Call, sellerId: string, op: Operation,
          fullBurst: Operation -> real)
    ensures InForce(After(bs, c, fullBurst), sellerId, op)
         == if Observes(c, sellerId, op) then c.rate else InForce(bs, sellerId, op)
  {
  }

  /** The rate that a bucket uses is the one its calls say. */
  lemma {:induction false} RateIsTheObserved(cs: seq<Call>, sellerId: string, op: Operation,
          fullBurst: Operation -> real)
    ensures InForce(Run(map[], cs, fullBurst), sellerId, op) == ObservedRate(cs, sellerId, op)
  {
    if cs != [] {
      var front, c := cs[..|cs| - 1], cs[|cs| - 1];
      assert cs == front + [c];
      RunLast(map[], front, c, fullBurst);
      RateAfter(Run(map[], front, fullBurst), c, sellerId, op, fullBurst);
      RateIsTheObserved(front, sellerId, op, fullBurst);
    }
  }

  predicate RatesWithin(cs: seq<Call>, sellerId: string, op: Operation, r: real) {
    forall c :: c in cs && c.ObserveCall? && c.sellerId == sellerId && c.operation == op ==> c.rate <= r
  }

  /** What a rate lets flow in a time. */
  function Flow(rate: real, ms: int): (x: real) { rate * (ms as real / 1000.0) }

  lemma {:induction false} FlowAdds(rate: real, a: int, b: int)
    ensures Flow(rate, a + b) == Flow(rate, a) + Flow(rate, b)
  {
    assert (a + b) as real / 1000.0 == a as real / 1000.0 + b as real / 1000.0;
  }

  lemma {:induction false} FlowGrows(rate: real, r: real, ms: int)
    requires 0.0 <= rate <= r && ms >= 0
    ensures 0.0 <= Flow(rate, ms) <= Flow(r, ms)
  {
  }

  /** Tokens a bucket can have at `s` at most, when it fills at rate `r`. */
  function Potential(b: Bucket, s: int, r: real): (x: real) {
    MinReal(b.burst, b.tokens + Flow(r, Max(0, s - b.updatedMs)))
  }

  /** A refill stays within the potential, and the potential grows no faster than `r` allows. */
  lemma {:induction false} PotentialGrows(b: Bucket, s: int, now: int, r: real)
    requires BucketOk(b, s) && s <= now && b.rate <= r
    ensures Refill(b, now).tokens <= Potential(b, now, r) <= Potential(b, s, r) + Flow(r, now - s)
  {
    var d, d0 := Max(0, now - b.updatedMs), Max(0, s - b.updatedMs);
    FlowGrows(b.rate, r, d);
    FlowGrows(r, r, d0);
    FlowGrows(r, r, now - s);
    if b.updatedMs <= s {
      FlowAdds(r, d0, now - s);
    }
  }

  lemma {:induction false} PotentialIsNotNegative(b: Bucket, s: int, r: real)
    requires BucketOk(b, s) && b.rate <= r
    ensures Potential(b, s, r) >= 0.0
  {
    FlowGrows(b.rate, r, Max(0, s - b.updatedMs));
  }

  /** Tokens the pair's bucket can have at `s` at most. */
  function PairTokens(bs: Buckets, sellerId: string, op: Operation, s: int, r: real): (x: real) {
    if Pair(sellerId, op) in bs then Potential(bs[Pair(sellerId, op)], s, r) else LimitsOf(op).pairBurst
  }

  function One(granted: bool): (x: real) { if granted then 1.0 else 0.0 }

  lemma {:induction false} PairOwnCall(bs: Buckets, c: Call, fullBurst: Operation -> real, s: int, r: real)
    requires Sound(bs, fullBurst, s) && c.TryCall? && s <= c.now && InForce(bs, c.sellerId, c.operation) <= r
    ensures var u := After(bs, c, fullBurst);
            && InForce(u, c.sellerId, c.operation) <= r
            && PairTokens(u, c.sellerId, c.operation, c.now, r) + One(IsGrant(bs, c, fullBurst))
               <= PairTokens(bs, c.sellerId, c.operation, s, r) + Flow(r, c.now - s)
  {
    var key := Pair(c.sellerId, c.operation);
    var pair := PairBucket(bs, c.sellerId, c.operation, c.now);
    FlowGrows(r, r, c.now - s);
    if key in bs {
      PotentialGrows(bs[key], s, c.now, r);
    }
    var u := After(bs, c, fullBurst);
    assert u[key] == if IsGrant(bs, c, fullBurst) then Charged(pair) else pair;
    assert Flow(r, 0) == 0.0;
  }

  lemma {:induction false} PairOtherCall(bs: Buckets, c: Call, sellerId: string, op: Operation,
          fullBurst: Operation -> real, s: int, now: int, r: real)
    requires Sound(bs, fullBurst, s) && s <= now && InForce(bs, sellerId, op) <= r
    requires c.sellerId != sellerId || c.operation != op
    ensures var u := After(bs, c, fullBurst);
            && InForce(u, sellerId, op) <= r
            && PairTokens(u, sellerId, op, now, r) <= PairTokens(bs, sellerId, op, s, r) + Flow(r, now - s)
  {
    var key := Pair(sellerId, op);
    FlowGrows(r, r, now - s);
    assert key in After(bs, c, fullBurst) <==> key in bs;
    if key in bs {
      assert After(bs, c, fullBurst)[key] == bs[key];
      PotentialGrows(bs[key], s, now, r);
    }
  }

  lemma {:induction false} PairObserve(bs: Buckets, c: Call, fullBurst: Operation -> real, s: int, r: real)
    requires Sound(bs, fullBurst, s) && c.ObserveCall? && c.rate <= r && InForce(bs, c.sellerId, c.operation) <= r
    ensures var u := After(bs, c, fullBurst);
            && InForce(u, c.sellerId, c.operation) <= r
            && PairTokens(u, c.sellerId, c.operation, s, r) <= PairTokens(bs, c.sellerId, c.operation, s, r)
  {
    FlowGrows(r, r, Max(0, s));
  }

  /** One call moves the pair's potential up by what flows in, minus what it grants. */
  lemma {:induction false} PairCall(bs: Buckets, c: Call, sellerId: string, op: Operation,
          fullBurst: Operation -> real, s: int, now: int, r: real)
    requires Sound(bs, fullBurst, s) && s <= now && InForce(bs, sellerId, op) <= r
    requires if c.TryCall? then c.now == now
               else now == s && (c.sellerId == sellerId && c.operation == op ==> c.rate <= r)
    ensures InForce(After(bs, c, fullBurst), sellerId, op) <= r
    ensures PairTokens(After(bs, c, fullBurst), sellerId, op, now, r)
          + One(IsGrant(bs, c, fullBurst) && c.operation == op && c.sellerId == sellerId)
         <= PairTokens(bs, sellerId, op, s, r) + Flow(r, now - s)
  {
    if c.sellerId != sellerId || c.operation != op {
      PairOtherCall(bs, c, sellerId, op, fullBurst, s, now, r);
    } else if c.TryCall? {
      PairOwnCall(bs, c, fullBurst, s, r);
    } else {
      PairObserve(bs, c, fullBurst, s, r);
      assert Flow(r, 0) == 0.0;
    }
  }

  /** What was granted now and later is within what the potential and the two inflows allow. */
  lemma {:induction false} Chain(one: real, later: real, before: real, after: real, inflow: real, laterInflow: real)
    requires after + one <= before + inflow && later <= after + laterInflow
    ensures one + later <= before + (laterInflow + inflow)
  {
  }

  lemma {:induction false} GrantsUnfold(bs: Buckets, cs: seq<Call>, sellerId: Option<string>, op: Operation,
          fullBurst: Operation -> real)
    requires cs != []
    ensures Grants(bs, cs, sellerId, op, fullBurst) as real
         == One(IsGrant(bs, cs[0], fullBurst) && cs[0].operation == op
                && (sellerId.None? || cs[0].sellerId == sellerId.value))
          + Grants(After(bs, cs[0], fullBurst), cs[1..], sellerId, op, fullBurst) as real
  {
  }

  /** The first call of a run keeps the budget sound and its potential within bounds. */
  lemma {:induction false} PairHead(bs: Buckets, cs: seq<Call>, sellerId: string, op: Operation,
          fullBurst: Operation -> real, s: int, t: int, r: real, now: int)
    requires Sound(bs, fullBurst, s) && cs != [] && Timely(cs, s, t) && now == (if cs[0].TryCall? then cs[0].now else s)
    requires InForce(bs, sellerId, op) <= r && RatesWithin(cs, sellerId, op, r)
    ensures var u := After(bs, cs[0], fullBurst);
            && s <= now && Sound(u, fullBurst, now) && Timely(cs[1..], now, t)
            && InForce(u, sellerId, op) <= r && RatesWithin(cs[1..], sellerId, op, r)
            && PairTokens(u, sellerId, op, now, r)
               + One(IsGrant(bs, cs[0], fullBurst) && cs[0].operation == op && cs[0].sellerId == sellerId)
               <= PairTokens(bs, sellerId, op, s, r) + Flow(r, now - s)
  {
    assert cs[0] in cs && forall d :: d in cs[1..] ==> d in cs;
    PairCall(bs, cs[0], sellerId, op, fullBurst, s, now, r);
    AfterSound(bs, cs[0], fullBurst, s, now);
  }

  /** The grants of the pair in these calls stay within its tokens at `s` and what flows in until `t`. */
  predicate PairBounded(bs: Buckets, cs: seq<Call>, sellerId: string, op: Operation, fullBurst: Operation -> real,
          s: int, t: int, r: real) {
    Grants(bs, cs, Some(sellerId), op, fullBurst) as real <= PairTokens(bs, sellerId, op, s, r) + Flow(r, t - s)
  }

  lemma {:induction false} PairStep(bs: Buckets, cs: seq<Call>, sellerId: string, op: Operation,
          fullBurst: Operation -> real, s: int, t: int, r: real, now: int, u: Buckets)
    requires cs != [] && u == After(bs, cs[0], fullBurst)
    requires PairTokens(u, sellerId, op, now, r)
               + One(IsGrant(bs, cs[0], fullBurst) && cs[0].operation == op && cs[0].sellerId == sellerId)
          <= PairTokens(bs, sellerId, op, s, r) + Flow(r, now - s)
    requires PairBounded(u, cs[1..], sellerId, op, fullBurst, now, t, r)
    requires Flow(r, t - s) == Flow(r, t - now) + Flow(r, now - s)
    ensures PairBounded(bs, cs, sellerId, op, fullBurst, s, t, r)
  {
    GrantsUnfold(bs, cs, Some(sellerId), op, fullBurst);
    Chain(One(IsGrant(bs, cs[0], fullBurst) && cs[0].operation == op && cs[0].sellerId == sellerId),
          Grants(u, cs[1..], Some(sellerId), op, fullBurst) as real, PairTokens(bs, sellerId, op, s, r),
          PairTokens(u, sellerId, op, now, r), Flow(r, now - s), Flow(r, t - now));
  }

  lemma {:induction false} PairStart(bs: Buckets, sellerId: string, op: Operation, fullBurst: Operation -> real,
          s: int, t: int, r: real)
    requires Sound(bs, fullBurst, s) && s <= t && InForce(bs, sellerId, op) <= r
    ensures PairBounded(bs, [], sellerId, op, fullBurst, s, t, r)
  {
    FlowGrows(r, r, t - s);
    if Pair(sellerId, op) in bs {
      PotentialIsNotNegative(bs[Pair(sellerId, op)], s, r);
    }
    assert Grants(bs, [], Some(sellerId), op, fullBurst) == 0;
  }

  lemma {:induction false} PairPotential(bs: Buckets, cs: seq<Call>, sellerId: string, op: Operation,
          fullBurst: Operation -> real, s: int, t: int, r: real)
    requires Sound(bs, fullBurst, s) && Timely(cs, s, t)
    requires InForce(bs, sellerId, op) <= r && RatesWithin(cs, sellerId, op, r)
    ensures PairBounded(bs, cs, sellerId, op, fullBurst, s, t, r)
    decreases cs
  {
    if cs == [] {
      PairStart(bs, sellerId, op, fullBurst, s, t, r);
    } else {
      var now := if cs[0].TryCall? then cs[0].now else s;
      var u := After(bs, cs[0], fullBurst);
      PairHead(bs, cs, sellerId, op, fullBurst, s, t, r, now);
      PairPotential(u, cs[1..], sellerId, op, fullBurst, now, t, r);
      FlowAdds(r, t - now, now - s);
      assert (t - now) + (now - s) == t - s;
      PairStep(bs, cs, sellerId, op, fullBurst, s, t, r, now, u);
    }
  }

  lemma {:induction false} RunSound(bs: Buckets, cs: seq<Call>, fullBurst: Operation -> real, s: int, t: int)
    requires Sound(bs, fullBurst, s) && Timely(cs, s, t)
    ensures Sound(Run(bs, cs, fullBurst), fullBurst, t)
    decreases cs
  {
    if cs != [] {
      var now := if cs[0].TryCall? then cs[0].now else s;
      AfterSound(bs, cs[0], fullBurst, s, now);
      RunSound(After(bs, cs[0], fullBurst), cs[1..], fullBurst, now, t);
    }
  }

  /**
   * In every interval one seller gets at most the burst plus what the largest pair rate in force in
   * it lets flow, whatever was observed before and whatever the outside load does.
   */
  lemma {:induction false} SellerWindow(before: seq<Call>, inside: seq<Call>, sellerId: string, op: Operation,
          fullBurst: Operation -> real, start: int, s: int, t: int, r: real)
    requires Timely(before, start, s) && Timely(inside, s, t)
    requires ObservedRate(before, sellerId, op) <= r && RatesWithin(inside, sellerId, op, r)
    ensures Grants(Run(map[], before, fullBurst), inside, Some(sellerId), op, fullBurst) as real
         <= LimitsOf(op).pairBurst + r * ((t - s) as real / 1000.0)
  {
    var bs := Run(map[], before, fullBurst);
    RunSound(map[], before, fullBurst, start, s);
    RateIsTheObserved(before, sellerId, op, fullBurst);
    PairPotential(bs, inside, sellerId, op, fullBurst, s, t, r);
  }

  // ---------------------------------------------------------------- bound for all sellers together

  /** Tokens the application's bucket can have at `s` at most. */
  function ApplicationTokens(bs: Buckets, op: Operation, fullBurst: Operation -> real, s: int, r: real): (x: real) {
    if Application(op) in bs then Potential(bs[Application(op)], s, r) else MaxReal(1.0, fullBurst(op))
  }

  lemma {:induction false} ApplicationOwnCall(bs: Buckets, c: Call, fullBurst: Operation -> real, s: int, r: real)
    requires Sound(bs, fullBurst, s) && c.TryCall? && s <= c.now && c.load >= 0.0
    requires LimitsOf(c.operation).applicationRate == Some(r)
    ensures ApplicationTokens(After(bs, c, fullBurst), c.operation, fullBurst, c.now, r)
              + One(IsGrant(bs, c, fullBurst))
         <= ApplicationTokens(bs, c.operation, fullBurst, s, r) + Flow(r, c.now - s)
  {
    var key := Application(c.operation);
    var pair := PairBucket(bs, c.sellerId, c.operation, c.now);
    var stored := bs[Pair(c.sellerId, c.operation) := pair];
    PairOk(bs, c.sellerId, c.operation, fullBurst, s, c.now);
    ApplicationOk(bs, c.operation, fullBurst, s, c.now, c.load);
    var app := ApplicationBucket(stored, c.operation, c.now, c.load, fullBurst(c.operation));
    assert app == ApplicationBucket(bs, c.operation, c.now, c.load, fullBurst(c.operation));
    var u := After(bs, c, fullBurst);
    assert u[key] == if IsGrant(bs, c, fullBurst) then Charged(app) else app;
    FlowGrows(r, r, c.now - s);
    if key in bs {
      PotentialGrows(bs[key], s, c.now, r);
    }
    assert Flow(r, 0) == 0.0;
  }

  lemma {:induction false} ApplicationOtherCall(bs: Buckets, c: Call, op: Operation, fullBurst: Operation -> real,
          s: int, now: int, r: real)
    requires Sound(bs, fullBurst, s) && s <= now && LimitsOf(op).applicationRate == Some(r)
    requires c.ObserveCall? || c.operation != op
    ensures ApplicationTokens(After(bs, c, fullBurst), op, fullBurst, now, r)
         <= ApplicationTokens(bs, op, fullBurst, s, r) + Flow(r, now - s)
  {
    var key := Application(op);
    FlowGrows(r, r, now - s);
    assert key in After(bs, c, fullBurst) <==> key in bs;
    if key in bs {
      assert After(bs, c, fullBurst)[key] == bs[key];
      PotentialGrows(bs[key], s, now, r);
    }
  }

  lemma {:induction false} ApplicationHead(bs: Buckets, cs: seq<Call>, op: Operation, fullBurst: Operation -> real,
          s: int, t: int, r: real, now: int)
    requires Sound(bs, fullBurst, s) && cs != [] && Timely(cs, s, t) && now == (if cs[0].TryCall? then cs[0].now else s)
    requires LimitsOf(op).applicationRate == Some(r)
    ensures var u := After(bs, cs[0], fullBurst);
            && s <= now && Sound(u, fullBurst, now) && Timely(cs[1..], now, t)
            && ApplicationTokens(u, op, fullBurst, now, r) + One(IsGrant(bs, cs[0], fullBurst) && cs[0].operation == op)
               <= ApplicationTokens(bs, op, fullBurst, s, r) + Flow(r, now - s)
  {
    AfterSound(bs, cs[0], fullBurst, s, now);
    if cs[0].TryCall? && cs[0].operation == op {
      ApplicationOwnCall(bs, cs[0], fullBurst, s, r);
    } else {
      ApplicationOtherCall(bs, cs[0], op, fullBurst, s, now, r);
    }
  }

  lemma {:induction false} ApplicationPotential(bs: Buckets, cs: seq<Call>, op: Operation,
          fullBurst: Operation -> real, s: int, t: int, r: real)
    requires Sound(bs, fullBurst, s) && Timely(cs, s, t) && LimitsOf(op).applicationRate == Some(r)
    ensures Grants(bs, cs, None, op, fullBurst) as real <= ApplicationTokens(bs, op, fullBurst, s, r) + Flow(r, t - s)
    decreases cs
  {
    if cs == [] {
      FlowGrows(r, r, t - s);
      if Application(op) in bs {
        PotentialIsNotNegative(bs[Application(op)], s, r);
      }
    } else {
      var now := if cs[0].TryCall? then cs[0].now else s;
      var u := After(bs, cs[0], fullBurst);
      ApplicationHead(bs, cs, op, fullBurst, s, t, r, now);
      ApplicationPotential(u, cs[1..], op, fullBurst, now, t, r);
      GrantsUnfold(bs, cs, None, op, fullBurst);
      FlowAdds(r, t - now, now - s);
      Chain(One(IsGrant(bs, cs[0], fullBurst) && cs[0].operation == op),
            Grants(u, cs[1..], None, op, fullBurst) as real, ApplicationTokens(bs, op, fullBurst, s, r),
            ApplicationTokens(u, op, fullBurst, now, r), Flow(r, now - s), Flow(r, t - now));
    }
  }

  /**
   * In every interval all sellers together get at most the application's burst (one request at
   * least) plus what its documented rate lets flow, however the outside load changes.
   */
  lemma {:induction false} ApplicationWindow(before: seq<Call>, inside: seq<Call>, op: Operation,
          fullBurst: Operation -> real, start: int, s: int, t: int)
    requires Timely(before, start, s) && Timely(inside, s, t) && LimitsOf(op).applicationRate.Some?
    ensures Grants(Run(map[], before, fullBurst), inside, None, op, fullBurst) as real
         <= MaxReal(1.0, fullBurst(op)) + LimitsOf(op).applicationRate.value * ((t - s) as real / 1000.0)
  {
    var bs := Run(map[], before, fullBurst);
    var r := LimitsOf(op).applicationRate.value;
    RunSound(map[], before, fullBurst, start, s);
    ApplicationPotential(bs, inside, op, fullBurst, s, t, r);
  }

  // ---------------------------------------------------------------- a refusal costs nothing

  /** Refilling in two steps is refilling in one. */
  lemma {:induction false} RefillTwice(b: Bucket, s: int, now: int)
    requires BucketOk(b, s) && s <= now
    ensures Refill(Refill(b, s), now) == Refill(b, now)
  {
    var d := (now - s) as real / 1000.0;
    assert d * b.rate >= 0.0;
    if b.updatedMs <= s {
      var d0 := (s - b.updatedMs) as real / 1000.0;
      assert (now - b.updatedMs) as real / 1000.0 == d0 + d;
      assert (d0 + d) * b.rate == d0 * b.rate + d * b.rate;
    } else {
      InflowBound(b.rate, b.rate, Min(b.updatedMs, now), now);
    }
  }

  /** Every application bucket runs at the rate and the burst of this constant load. */
  ghost predicate Steady(bs: Buckets, fullBurst: Operation -> real, load: real) {
    forall op :: Application(op) in bs && LimitsOf(op).applicationRate.Some? ==>
      && bs[Application(op)].rate == ApplicationRate(op, load)
      && bs[Application(op)].burst == ApplicationBurst(op, load, fullBurst(op))
  }

  /** At any time from `t` on, the two budgets hold the same tokens for every seller and operation. */
  ghost predicate SameFuture(a: Buckets, b: Buckets, fullBurst: Operation -> real, load: real, t: int) {
    && (forall sellerId, op, now | now >= t :: PairBucket(a, sellerId, op, now) == PairBucket(b, sellerId, op, now))
    && (forall op, now | now >= t && LimitsOf(op).applicationRate.Some? ::
          ApplicationBucket(a, op, now, load, fullBurst(op)) == ApplicationBucket(b, op, now, load, fullBurst(op)))
  }

  lemma {:induction false} RefusedPair(bs: Buckets, c: Call, fullBurst: Operation -> real, s: int, sellerId: string,
          op: Operation, now: int)
    requires Sound(bs, fullBurst, s) && c.TryCall? && s <= c.now <= now && !IsGrant(bs, c, fullBurst)
    ensures PairBucket(bs, sellerId, op, now) == PairBucket(After(bs, c, fullBurst), sellerId, op, now)
  {
    var key := Pair(sellerId, op);
    var u := After(bs, c, fullBurst);
    if c.sellerId == sellerId && c.operation == op {
      assert u[key] == PairBucket(bs, sellerId, op, c.now);
      var b :=
        if key in bs then bs[key]
        else Bucket(LimitsOf(op).pairBurst, c.now, LimitsOf(op).pairRate, LimitsOf(op).pairBurst);
      assert BucketOk(b, c.now);
      RefillTwice(b, c.now, now);
      InflowBound(b.rate, b.rate, c.now, now);
    } else {
      assert key in u <==> key in bs;
      assert key in bs ==> u[key] == bs[key];
    }
  }

  lemma {:induction false} RefusedApplication(bs: Buckets, c: Call, fullBurst: Operation -> real, s: int,
          op: Operation, now: int)
    requires Sound(bs, fullBurst, s) && c.TryCall? && c.load >= 0.0 && s <= c.now <= now && !IsGrant(bs, c, fullBurst)
    requires Steady(bs, fullBurst, c.load) && LimitsOf(op).applicationRate.Some?
    ensures ApplicationBucket(bs, op, now, c.load, fullBurst(op))
              == ApplicationBucket(After(bs, c, fullBurst), op, now, c.load, fullBurst(op))
  {
    var key := Application(op);
    var u := After(bs, c, fullBurst);
    if c.operation == op {
      var rate, burst := ApplicationRate(op, c.load), ApplicationBurst(op, c.load, fullBurst(op));
      var b := if key in bs then bs[key] else Bucket(burst, c.now, rate, burst);
      assert BucketOk(b, c.now) && b.rate == rate && b.burst == burst;
      RefillOk(b, c.now, c.now);
      assert u[key] == Refill(b, c.now);
      RefillTwice(b, c.now, now);
      InflowBound(b.rate, b.rate, c.now, now);
    } else {
      assert key in u <==> key in bs;
      assert key in bs ==> u[key] == bs[key];
    }
  }

  /** Budgets with the same future answer alike and stay alike. */
  lemma {:induction false} SameStep(a: Buckets, b: Buckets, c: Call, fullBurst: Operation -> real, t: int)
    requires c.TryCall? && SameFuture(a, b, fullBurst, c.load, t) && t <= c.now
    ensures Acquire(a, c.sellerId, c.operation, c.now, c.load, fullBurst(c.operation)).1
         == Acquire(b, c.sellerId, c.operation, c.now, c.load, fullBurst(c.operation)).1
    ensures SameFuture(After(a, c, fullBurst), After(b, c, fullBurst), fullBurst, c.load, c.now)
  {
    var op := c.operation;
    SharedAnswer(a, b, c, fullBurst, t);
    var u, v := After(a, c, fullBurst), After(b, c, fullBurst);
    forall sellerId, o, now | now >= c.now ensures PairBucket(u, sellerId, o, now) == PairBucket(v, sellerId, o, now) {
      if c.sellerId == sellerId && op == o {
        assert u[Pair(sellerId, o)] == v[Pair(sellerId, o)];
      } else {
        assert PairBucket(u, sellerId, o, now) == PairBucket(a, sellerId, o, now);
        assert PairBucket(v, sellerId, o, now) == PairBucket(b, sellerId, o, now);
      }
    }
    forall o, now | now >= c.now && LimitsOf(o).applicationRate.Some?
      ensures ApplicationBucket(u, o, now, c.load, fullBurst(o)) == ApplicationBucket(v, o, now, c.load, fullBurst(o))
    {
      if op == o {
        assert u[Application(o)] == v[Application(o)];
      } else {
        assert ApplicationBucket(u, o, now, c.load, fullBurst(o)) == ApplicationBucket(a, o, now, c.load, fullBurst(o));
        assert ApplicationBucket(v, o, now, c.load, fullBurst(o)) == ApplicationBucket(b, o, now, c.load, fullBurst(o));
      }
    }
  }

  lemma {:induction false} SharedAnswer(a: Buckets, b: Buckets, c: Call, fullBurst: Operation -> real, t: int)
    requires c.TryCall? && SameFuture(a, b, fullBurst, c.load, t) && t <= c.now
    ensures Acquire(a, c.sellerId, c.operation, c.now, c.load, fullBurst(c.operation)).1
         == Acquire(b, c.sellerId, c.operation, c.now, c.load, fullBurst(c.operation)).1
    ensures After(a, c, fullBurst)[Pair(c.sellerId, c.operation)]
              == After(b, c, fullBurst)[Pair(c.sellerId, c.operation)]
    ensures LimitsOf(c.operation).applicationRate.Some? ==>
              After(a, c, fullBurst)[Application(c.operation)] == After(b, c, fullBurst)[Application(c.operation)]
  {
    var op := c.operation;
    var pair := PairBucket(a, c.sellerId, op, c.now);
    assert pair == PairBucket(b, c.sellerId, op, c.now);
    if LimitsOf(op).applicationRate.Some? {
      var sa, sb := a[Pair(c.sellerId, op) := pair], b[Pair(c.sellerId, op) := pair];
      var app := ApplicationBucket(a, op, c.now, c.load, fullBurst(op));
      assert app == ApplicationBucket(b, op, c.now, c.load, fullBurst(op));
      assert app == ApplicationBucket(sa, op, c.now, c.load, fullBurst(op));
      assert app == ApplicationBucket(sb, op, c.now, c.load, fullBurst(op));
    }
  }

  /** Acquisitions only, at one load, with a clock that does not go back. */
  predicate Acquisitions(cs: seq<Call>, load: real, s: int) {
    cs == [] || (cs[0].TryCall? && cs[0].load == load && cs[0].now >= s && Acquisitions(cs[1..], load, cs[0].now))
  }

  lemma {:induction false} SameAnswers(a: Buckets, b: Buckets, cs: seq<Call>, fullBurst: Operation -> real,
          load: real, t: int)
    requires SameFuture(a, b, fullBurst, load, t) && Acquisitions(cs, load, t)
    ensures Answers(a, cs, fullBurst) == Answers(b, cs, fullBurst)
    decreases cs
  {
    if cs != [] {
      SameStep(a, b, cs[0], fullBurst, t);
      SameAnswers(After(a, cs[0], fullBurst), After(b, cs[0], fullBurst), cs[1..], fullBurst, load, cs[0].now);
    }
  }

  predicate ConstantLoad(cs: seq<Call>, load: real) {
    forall c :: c in cs && c.TryCall? ==> c.load == load
  }

  lemma {:induction false} SteadyRun(bs: Buckets, cs: seq<Call>, fullBurst: Operation -> real, load: real)
    requires Steady(bs, fullBurst, load) && ConstantLoad(cs, load)
    ensures Steady(Run(bs, cs, fullBurst), fullBurst, load)
    decreases cs
  {
    if cs != [] {
      assert cs[0] in cs && forall d :: d in cs[1..] ==> d in cs;
      SteadyRun(After(bs, cs[0], fullBurst), cs[1..], fullBurst, load);
    }
  }

  /**
   * At a constant load a refused acquisition is invisible: whatever is asked later, by whichever
   * seller, gets the answer it would have got without it.
   */
  lemma {:induction false} RefusalIsInvisible(before: seq<Call>, c: Call, later: seq<Call>,
          fullBurst: Operation -> real, start: int, s: int)
    requires Timely(before, start, s) && c.TryCall? && c.load >= 0.0 && s <= c.now
    requires ConstantLoad(before, c.load) && Acquisitions(later, c.load, c.now)
    requires !IsGrant(Run(map[], before, fullBurst), c, fullBurst)
    ensures var bs := Run(map[], before, fullBurst);
            Answers(After(bs, c, fullBurst), later, fullBurst) == Answers(bs, later, fullBurst)
  {
    var bs := Run(map[], before, fullBurst);
    var u := After(bs, c, fullBurst);
    RunSound(map[], before, fullBurst, start, s);
    SteadyRun(map[], before, fullBurst, c.load);
    forall sellerId, op, now | now >= c.now
      ensures PairBucket(bs, sellerId, op, now) == PairBucket(u, sellerId, op, now) {
      RefusedPair(bs, c, fullBurst, s, sellerId, op, now);
    }
    forall op, now | now >= c.now && LimitsOf(op).applicationRate.Some?
      ensures ApplicationBucket(bs, op, now, c.load, fullBurst(op))
                == ApplicationBucket(u, op, now, c.load, fullBurst(op))
    {
      RefusedApplication(bs, c, fullBurst, s, op, now);
    }
    SameAnswers(bs, u, later, fullBurst, c.load, c.now);
  }

  // ---------------------------------------------------------------- the retry time of a refusal

  lemma {:induction false} TokensAt(b: Bucket, now: int, ms: nat)
    requires b.rate > 0.0 && b.burst >= 1.0 && b.tokens < 1.0 && b.updatedMs == now
    ensures Refill(b, now + ms).tokens >= 1.0 <==> ms as real >= (1.0 - b.tokens) / b.rate * 1000.0
  {
    var need := (1.0 - b.tokens) / b.rate;
    assert need * b.rate == 1.0 - b.tokens;
    var d := ms as real / 1000.0;
    if d >= need {
      assert d * b.rate >= need * b.rate;
    } else {
      assert d * b.rate < need * b.rate;
    }
  }

  /** A bucket brought up to date at `now` without a whole token has one after `Wait`, and not before. */
  lemma {:induction false} WaitIsExact(b: Bucket, now: int)
    requires b.updatedMs == now && b.tokens < 1.0 && b.rate > 0.0 && b.burst >= 1.0
    ensures Wait(b) > 0 && Refill(b, now + Wait(b)).tokens >= 1.0
    ensures forall at :: now <= at < now + Wait(b) ==> Refill(b, at).tokens < 1.0
  {
    var need := (1.0 - b.tokens) / b.rate * 1000.0;
    assert need > 0.0;
    TokensAt(b, now, Wait(b));
    forall at | now <= at < now + Wait(b) ensures Refill(b, at).tokens < 1.0 {
      TokensAt(b, now, at - now);
    }
  }

  /**
   * The level that refuses has a whole token at the time it names and at no earlier whole
   * millisecond, as long as nothing else is granted.
   */
  lemma {:induction false} RetryAtIsExact(bs: Buckets, sellerId: string, op: Operation, now: int, load: real,
          fullBurst: Operation -> real, s: int)
    requires Sound(bs, fullBurst, s) && s <= now && load >= 0.0
    ensures var (u, answer) := Acquire(bs, sellerId, op, now, load, fullBurst(op));
            answer.Refused? ==>
              var key := if answer.level.PairLevel? then Pair(sellerId, op) else Application(op);
              && key in u
              && (u[key].rate <= 0.0 ==> answer.retryAtMs == now + 60000)
              && (u[key].rate > 0.0 ==>
                    && answer.retryAtMs > now
                    && Refill(u[key], answer.retryAtMs).tokens >= 1.0
                    && forall at :: now <= at < answer.retryAtMs ==> Refill(u[key], at).tokens < 1.0)
  {
    var (u, answer) := Acquire(bs, sellerId, op, now, load, fullBurst(op));
    if answer.Refused? {
      var key := if answer.level.PairLevel? then Pair(sellerId, op) else Application(op);
      PairOk(bs, sellerId, op, fullBurst, s, now);
      var b := u[key];
      assert b.updatedMs == now && b.tokens < 1.0 && answer.retryAtMs == now + Wait(b);
      if b.rate > 0.0 {
        WaitIsExact(b, now);
      }
    }
  }
}
