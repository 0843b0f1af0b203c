/**
 * The budget's answers by its calls alone (packages/amazon-adapter/src/budget.ts:31-70): a request is
 * refused exactly when, with it, some stretch of calls up to now would hold more grants than the burst
 * and what flowed in since. No token, bucket or refill appears in the condition.
 */
module BudgetWindows {
  import opened Common
  import opened RateBudget

  // ---------------------------------------------------------------- one level

  /** A request as one level sees it: what flowed in since the request before, the most it may hold, what it spent. */
  datatype Touch = Touch(capacity: real, inflow: real, spent: real)

  /** What flowed in after touch `m`. */
  function Income(ts: seq<Touch>, m: nat): (x: real)
    requires m < |ts|
  {
    if m == |ts| - 1 then 0.0 else Income(ts[..|ts| - 1], m) + ts[|ts| - 1].inflow
  }

  /** What was spent from touch `m` on, before the last. */
  function Spent(ts: seq<Touch>, m: nat): (x: real)
    requires m < |ts|
  {
    if m == |ts| - 1 then 0.0 else Spent(ts[..|ts| - 1], m) + ts[|ts| - 2].spent
  }

  /** What the stretch from touch `m` on leaves for the last one. */
  function Room(ts: seq<Touch>, m: nat): (x: real)
    requires m < |ts|
  {
    ts[m].capacity + Income(ts, m) - Spent(ts, m)
  }

  /** Some stretch leaves no whole token. */
  predicate Overdrawn(ts: seq<Touch>) { exists m :: 0 <= m < |ts| && Room(ts, m) < 1.0 }

  /** The tokens of a bucket at its last touch, before that is charged. */
  function Level(ts: seq<Touch>): (x: real)
    requires ts != []
  {
    var n := |ts| - 1;
    if n == 0 then ts[0].capacity else MinReal(ts[n].capacity, Level(ts[..n]) - ts[n - 1].spent + ts[n].inflow)
  }

  lemma {:induction false} RoomBefore(ts: seq<Touch>, m: nat)
    requires m < |ts| - 1
    ensures Room(ts, m) == Room(ts[..|ts| - 1], m) - ts[|ts| - 2].spent + ts[|ts| - 1].inflow
  {
  }

  /** The bucket holds the least that any stretch leaves. */
  lemma {:induction false} LevelIsLeastRoom(ts: seq<Touch>)
    requires ts != []
    ensures forall m :: 0 <= m < |ts| ==> Level(ts) <= Room(ts, m)
    ensures exists m :: 0 <= m < |ts| && Level(ts) == Room(ts, m)
  {
    var n := |ts| - 1;
    if n == 0 {
      assert Level(ts) == Room(ts, 0);
    } else {
      var front := ts[..n];
      LevelIsLeastRoom(front);
      forall m | 0 <= m < |ts| ensures Level(ts) <= Room(ts, m) {
        if m < n {
          RoomBefore(ts, m);
          assert Level(front) <= Room(front, m);
        }
      }
      if ts[n].capacity <= Level(front) - ts[n - 1].spent + ts[n].inflow {
        assert Level(ts) == Room(ts, n);
      } else {
        var m :| 0 <= m < |front| && Level(front) == Room(front, m);
        RoomBefore(ts, m);
        assert Level(ts) == Room(ts, m);
      }
    }
  }

  /** A level refuses exactly when it is overdrawn. */
  lemma {:induction false} LowExactlyWhenOverdrawn(ts: seq<Touch>)
    requires ts != []
    ensures Level(ts) < 1.0 <==> Overdrawn(ts)
  {
    LevelIsLeastRoom(ts);
  }

  // ---------------------------------------------------------------- the calls so far

  datatype Asked = Asked(call: Call, granted: bool)

  /** The calls from the start of the process, with what each was granted. */
  function History(cs: seq<Call>, fullBurst: Operation -> real): (h: seq<Asked>)
    ensures |h| == |cs| && forall i :: 0 <= i < |cs| ==> h[i].call == cs[i]
  {
    if cs == [] then []
    else
      var front, c := cs[..|cs| - 1], cs[|cs| - 1];
      History(front, fullBurst) + [Asked(c, IsGrant(Run(map[], front, fullBurst), c, fullBurst))]
  }

  function CallsOf(h: seq<Asked>): (cs: seq<Call>) { seq(|h|, i requires 0 <= i < |h| => h[i].call) }

  /** A request for the operation, by this seller or, if none is named, by any. */
  predicate Asks(c: Call, sellerId: Option<string>, op: Operation) {
    c.TryCall? && c.operation == op && (sellerId.None? || c.sellerId == sellerId.value)
  }

  function LastAsk(h: seq<Asked>, sellerId: Option<string>, op: Operation): (c: Option<Call>)
    ensures c.Some? ==> c.value.TryCall? && exists i :: 0 <= i < |h| && h[i].call == c.value
  {
    if h == [] then None
    else if Asks(h[|h| - 1].call, sellerId, op) then Some(h[|h| - 1].call)
    else LastAsk(h[..|h| - 1], sellerId, op)
  }

  /** The requests of a pair: the documented burst, and what flowed in at the rate observed before each. */
  function PairTouches(h: seq<Asked>, sellerId: string, op: Operation): (ts: seq<Touch>) {
    if h == [] then []
    else
      var front, a := h[..|h| - 1], h[|h| - 1];
      if !Asks(a.call, Some(sellerId), op) then PairTouches(front, sellerId, op)
      else
        var last := LastAsk(front, Some(sellerId), op);
        var rate := ObservedRate(CallsOf(front), sellerId, op);
        PairTouches(front, sellerId, op)
        + [Touch(LimitsOf(op).pairBurst,
                 if last.None? then 0.0 else Flow(rate, a.call.now - last.value.now), One(a.granted))]
  }

  /** A request of the application's level as its touch. */
  function ApplicationTouch(h: seq<Asked>, a: Asked, fullBurst: Operation -> real): (t: Touch)
    requires a.call.TryCall? && LimitsOf(a.call.operation).applicationRate.Some?
  {
    var op := a.call.operation;
    var last, burst := LastAsk(h, None, op), ApplicationBurst(op, a.call.load, fullBurst(op));
    if last.None? then Touch(burst, 0.0, One(a.granted))
    else Touch(MinReal(burst, ApplicationBurst(op, last.value.load, fullBurst(op))),
               Flow(ApplicationRate(op, last.value.load), a.call.now - last.value.now), One(a.granted))
  }

  /** The requests of all sellers, with the bursts and the rates that the outside load left at them. */
  function ApplicationTouches(h: seq<Asked>, op: Operation, fullBurst: Operation -> real): (ts: seq<Touch>)
    requires LimitsOf(op).applicationRate.Some?
  {
    if h == [] then []
    else
      var front, a := h[..|h| - 1], h[|h| - 1];
      if !Asks(a.call, None, op) then ApplicationTouches(front, op, fullBurst)
      else ApplicationTouches(front, op, fullBurst) + [ApplicationTouch(front, a, fullBurst)]
  }

  /** The clock of the requests never goes back. */
  predicate InOrder(cs: seq<Call>) {
    forall i, j :: 0 <= i < j < |cs| && cs[i].TryCall? && cs[j].TryCall? ==> cs[i].now <= cs[j].now
  }

  // ---------------------------------------------------------------- the buckets hold the levels

  /** The pair's bucket after a history. */
  ghost predicate PairHolds(bs: Buckets, h: seq<Asked>, sellerId: string, op: Operation) {
    var key, ts, last := Pair(sellerId, op), PairTouches(h, sellerId, op), LastAsk(h, Some(sellerId), op);
    var rate, burst := ObservedRate(CallsOf(h), sellerId, op), LimitsOf(op).pairBurst;
    && (ts == [] <==> last.None?)
    && rate > 0.0
    && if ts == [] then
         && (key in bs ==> bs[key].tokens == bs[key].burst == burst && bs[key].rate == rate)
         && (key !in bs ==> rate == LimitsOf(op).pairRate)
       else key in bs && bs[key] == Bucket(Level(ts) - ts[|ts| - 1].spent, last.value.now, rate, burst)
  }

  /** The application's bucket after a history. */
  ghost predicate ApplicationHolds(bs: Buckets, h: seq<Asked>, op: Operation, fullBurst: Operation -> real)
    requires LimitsOf(op).applicationRate.Some?
  {
    var key, ts, last := Application(op), ApplicationTouches(h, op, fullBurst), LastAsk(h, None, op);
    && (ts == [] <==> last.None?)
    && if ts == [] then key !in bs
       else
         key in bs && bs[key] == Bucket(Level(ts) - ts[|ts| - 1].spent, last.value.now,
                                        ApplicationRate(op, last.value.load),
                                        ApplicationBurst(op, last.value.load, fullBurst(op)))
  }

  /** One more call after a history. */
  lemma {:induction false} OneMoreCall(h: seq<Asked>, a: Asked)
    ensures (h + [a])[..|h|] == h && (h + [a])[|h|] == a
    ensures CallsOf(h + [a]) == CallsOf(h) + [a.call] && CallsOf(h + [a])[..|h|] == CallsOf(h)
  {
  }

  /** The pair's bucket when it is brought up to date for a request holds the level of that request. */
  lemma {:induction false} PairFetched(bs: Buckets, h: seq<Asked>, c: Call, granted: bool)
    requires c.TryCall? && PairHolds(bs, h, c.sellerId, c.operation)
    requires var last := LastAsk(h, Some(c.sellerId), c.operation); last.Some? ==> last.value.now <= c.now
    ensures var ts := PairTouches(h + [Asked(c, granted)], c.sellerId, c.operation);
            var rate := ObservedRate(CallsOf(h), c.sellerId, c.operation);
            && |ts| == |PairTouches(h, c.sellerId, c.operation)| + 1 && ts[|ts| - 1].spent == One(granted)
            && PairBucket(bs, c.sellerId, c.operation, c.now)
               == Bucket(Level(ts), c.now, rate, LimitsOf(c.operation).pairBurst)
  {
    var a := Asked(c, granted);
    OneMoreCall(h, a);
    var ts, last := PairTouches(h, c.sellerId, c.operation), LastAsk(h, Some(c.sellerId), c.operation);
    var u := PairTouches(h + [a], c.sellerId, c.operation);
    assert u[..|ts|] == ts;
    var rate, burst := ObservedRate(CallsOf(h), c.sellerId, c.operation), LimitsOf(c.operation).pairBurst;
    if ts == [] {
      assert Level(u) == burst;
      if Pair(c.sellerId, c.operation) in bs {
        InflowIsNotNegative(rate, bs[Pair(c.sellerId, c.operation)].updatedMs, c.now);
      }
    } else {
      InflowIsFlow(rate, last.value.now, c.now);
    }
  }

  lemma {:induction false} InflowIsNotNegative(rate: real, from: int, to: int)
    requires rate >= 0.0
    ensures Inflow(rate, from, to) >= 0.0
  {
  }

  lemma {:induction false} InflowIsFlow(rate: real, from: int, to: int)
    requires from <= to
    ensures Inflow(rate, from, to) == Flow(rate, to - from)
  {
  }

  /** A bucket that is brought up to date for a request, with other limits from then on. */
  function Anew(was: Option<Bucket>, rate: real, burst: real, now: int): (r: Bucket) {
    var tokens := match was
                  case None => burst
                  case Some(o) => MinReal(MinReal(burst, o.burst), o.tokens + Flow(o.rate, now - o.updatedMs));
    Bucket(tokens, now, rate, burst)
  }

  lemma {:induction false} FetchedAnew(bs: Buckets, key: BucketKey, rate: real, burst: real, now: int)
    requires rate >= 0.0 && (key in bs ==> bs[key].updatedMs <= now)
    ensures var b := Fetch(bs, key, rate, burst, now);
            b.(rate := rate, burst := burst, tokens := MinReal(b.tokens, burst))
            == Anew(if key in bs then Some(bs[key]) else None, rate, burst, now)
  {
    if key in bs {
      InflowIsFlow(bs[key].rate, bs[key].updatedMs, now);
    } else {
      InflowIsNotNegative(rate, now, now);
    }
  }

  lemma {:induction false} LevelNext(ts: seq<Touch>, t: Touch)
    ensures Level(ts + [t])
         == if ts == [] then t.capacity else MinReal(t.capacity, Level(ts) - ts[|ts| - 1].spent + t.inflow)
  {
    assert (ts + [t])[..|ts|] == ts;
  }

  lemma {:induction false} ApplicationTouched(h: seq<Asked>, a: Asked, fullBurst: Operation -> real)
    requires a.call.TryCall? && LimitsOf(a.call.operation).applicationRate.Some?
    ensures ApplicationTouches(h + [a], a.call.operation, fullBurst)
         == ApplicationTouches(h, a.call.operation, fullBurst) + [ApplicationTouch(h, a, fullBurst)]
  {
    assert (h + [a])[..|h|] == h;
  }

  /** The application's bucket when it is brought up to date for a request. */
  lemma {:induction false} ApplicationFetched(bs: Buckets, h: seq<Asked>, c: Call, granted: bool,
          fullBurst: Operation -> real)
    requires c.TryCall? && LimitsOf(c.operation).applicationRate.Some?
    requires ApplicationHolds(bs, h, c.operation, fullBurst)
    requires var last := LastAsk(h, None, c.operation); last.Some? ==> last.value.now <= c.now
    ensures var ts := ApplicationTouches(h + [Asked(c, granted)], c.operation, fullBurst);
            && |ts| == |ApplicationTouches(h, c.operation, fullBurst)| + 1 && ts[|ts| - 1].spent == One(granted)
            && ApplicationBucket(bs, c.operation, c.now, c.load, fullBurst(c.operation))
               == Bucket(Level(ts), c.now, ApplicationRate(c.operation, c.load),
                         ApplicationBurst(c.operation, c.load, fullBurst(c.operation)))
  {
    var op, a := c.operation, Asked(c, granted);
    ApplicationTouched(h, a, fullBurst);
    LevelNext(ApplicationTouches(h, op, fullBurst), ApplicationTouch(h, a, fullBurst));
    FetchedAnew(bs, Application(op), ApplicationRate(op, c.load), ApplicationBurst(op, c.load, fullBurst(op)), c.now);
  }

  /** What a call leaves of the two buckets of a request. */
  lemma {:induction false} AcquireLeaves(bs: Buckets, c: Call, fullBurst: Operation -> real)
    requires c.TryCall?
    ensures var pair := PairBucket(bs, c.sellerId, c.operation, c.now);
            var (u, answer) := Acquire(bs, c.sellerId, c.operation, c.now, c.load, fullBurst(c.operation));
            && Pair(c.sellerId, c.operation) in u
            && u[Pair(c.sellerId, c.operation)] == pair.(tokens := pair.tokens - One(answer.Granted?))
            && (forall key :: key in u && key != Pair(c.sellerId, c.operation) && key != Application(c.operation) ==>
                  key in bs && u[key] == bs[key])
            && (forall key :: key in bs ==> key in u)
            && if LimitsOf(c.operation).applicationRate.None? then
                 && (Application(c.operation) in u <==> Application(c.operation) in bs)
                 && answer == (if pair.tokens < 1.0 then Refused(c.now + Wait(pair), PairLevel) else Granted)
               else
                 var app := ApplicationBucket(bs, c.operation, c.now, c.load, fullBurst(c.operation));
                 && Application(c.operation) in u
                 && u[Application(c.operation)] == app.(tokens := app.tokens - One(answer.Granted?))
                 && answer == (if pair.tokens < 1.0 then Refused(c.now + Wait(pair), PairLevel)
                               else if app.tokens < 1.0 then Refused(c.now + Wait(app), ApplicationLevel) else Granted)
  {
  }

  /** What one more call does to what the history says of a pair. */
  lemma {:induction false} PairHistory(h: seq<Asked>, a: Asked, sellerId: string, op: Operation)
    ensures var mine, c := Some(sellerId), a.call;
            && LastAsk(h + [a], mine, op) == (if Asks(c, mine, op) then Some(c) else LastAsk(h, mine, op))
            && (!Asks(c, mine, op) ==> PairTouches(h + [a], sellerId, op) == PairTouches(h, sellerId, op))
            && ObservedRate(CallsOf(h + [a]), sellerId, op)
               == (if Observes(c, sellerId, op) then c.rate else ObservedRate(CallsOf(h), sellerId, op))
  {
    OneMoreCall(h, a);
  }

  lemma {:induction false} PairAfterRequest(bs: Buckets, h: seq<Asked>, c: Call, fullBurst: Operation -> real)
    requires c.TryCall? && PairHolds(bs, h, c.sellerId, c.operation)
    requires var last := LastAsk(h, Some(c.sellerId), c.operation); last.Some? ==> last.value.now <= c.now
    ensures PairHolds(After(bs, c, fullBurst), h + [Asked(c, IsGrant(bs, c, fullBurst))], c.sellerId, c.operation)
  {
    var a := Asked(c, IsGrant(bs, c, fullBurst));
    PairHistory(h, a, c.sellerId, c.operation);
    AcquireLeaves(bs, c, fullBurst);
    PairFetched(bs, h, c, a.granted);
  }

  lemma {:induction false} PairAfterOther(bs: Buckets, h: seq<Asked>, c: Call, sellerId: string, op: Operation,
          fullBurst: Operation -> real)
    requires PairHolds(bs, h, sellerId, op) && c.TryCall? && !Asks(c, Some(sellerId), op)
    ensures PairHolds(After(bs, c, fullBurst), h + [Asked(c, IsGrant(bs, c, fullBurst))], sellerId, op)
  {
    PairHistory(h, Asked(c, IsGrant(bs, c, fullBurst)), sellerId, op);
    AcquireLeaves(bs, c, fullBurst);
    var key, u := Pair(sellerId, op), After(bs, c, fullBurst);
    assert key in u <==> key in bs;
    assert key in bs ==> u[key] == bs[key];
  }

  lemma {:induction false} ObserveLeaves(bs: Buckets, c: Call, sellerId: string, op: Operation,
          fullBurst: Operation -> real)
    requires c.ObserveCall?
    ensures var key, u, burst := Pair(sellerId, op), After(bs, c, fullBurst), LimitsOf(op).pairBurst;
            if Observes(c, sellerId, op)
            then key in u && u[key] == (if key in bs then bs[key].(rate := c.rate) else Bucket(burst, 0, c.rate, burst))
            else (key in u <==> key in bs) && (key in bs ==> u[key] == bs[key])
  {
  }

  lemma {:induction false} PairAfterObserve(bs: Buckets, h: seq<Asked>, c: Call, sellerId: string, op: Operation,
          fullBurst: Operation -> real)
    requires PairHolds(bs, h, sellerId, op) && c.ObserveCall?
    ensures PairHolds(After(bs, c, fullBurst), h + [Asked(c, IsGrant(bs, c, fullBurst))], sellerId, op)
  {
    PairHistory(h, Asked(c, IsGrant(bs, c, fullBurst)), sellerId, op);
    ObserveLeaves(bs, c, sellerId, op, fullBurst);
  }

  lemma {:induction false} PairAfter(bs: Buckets, h: seq<Asked>, c: Call, sellerId: string, op: Operation,
          fullBurst: Operation -> real)
    requires PairHolds(bs, h, sellerId, op)
    requires var last := LastAsk(h, Some(sellerId), op); c.TryCall? && last.Some? ==> last.value.now <= c.now
    ensures PairHolds(After(bs, c, fullBurst), h + [Asked(c, IsGrant(bs, c, fullBurst))], sellerId, op)
  {
    if c.ObserveCall? {
      PairAfterObserve(bs, h, c, sellerId, op, fullBurst);
    } else if Asks(c, Some(sellerId), op) {
      PairAfterRequest(bs, h, c, fullBurst);
    } else {
      PairAfterOther(bs, h, c, sellerId, op, fullBurst);
    }
  }

  lemma {:induction false} ApplicationHistory(h: seq<Asked>, a: Asked, op: Operation, fullBurst: Operation -> real)
    requires LimitsOf(op).applicationRate.Some?
    ensures LastAsk(h + [a], None, op) == if Asks(a.call, None, op) then Some(a.call) else LastAsk(h, None, op)
    ensures !Asks(a.call, None, op) ==>
              ApplicationTouches(h + [a], op, fullBurst) == ApplicationTouches(h, op, fullBurst)
  {
    OneMoreCall(h, a);
  }

  lemma {:induction false} ApplicationAfterRequest(bs: Buckets, h: seq<Asked>, c: Call, fullBurst: Operation -> real)
    requires c.TryCall? && LimitsOf(c.operation).applicationRate.Some?
    requires ApplicationHolds(bs, h, c.operation, fullBurst)
    requires var last := LastAsk(h, None, c.operation); last.Some? ==> last.value.now <= c.now
    ensures ApplicationHolds(After(bs, c, fullBurst), h + [Asked(c, IsGrant(bs, c, fullBurst))], c.operation, fullBurst)
  {
    var a := Asked(c, IsGrant(bs, c, fullBurst));
    ApplicationHistory(h, a, c.operation, fullBurst);
    AcquireLeaves(bs, c, fullBurst);
    ApplicationFetched(bs, h, c, a.granted, fullBurst);
  }

  lemma {:induction false} ApplicationAfter(bs: Buckets, h: seq<Asked>, c: Call, op: Operation,
          fullBurst: Operation -> real)
    requires LimitsOf(op).applicationRate.Some? && ApplicationHolds(bs, h, op, fullBurst)
    requires var last := LastAsk(h, None, op); c.TryCall? && last.Some? ==> last.value.now <= c.now
    ensures ApplicationHolds(After(bs, c, fullBurst), h + [Asked(c, IsGrant(bs, c, fullBurst))], op, fullBurst)
  {
    if Asks(c, None, op) {
      ApplicationAfterRequest(bs, h, c, fullBurst);
    } else {
      ApplicationHistory(h, Asked(c, IsGrant(bs, c, fullBurst)), op, fullBurst);
      var key, u := Application(op), After(bs, c, fullBurst);
      if c.TryCall? {
        AcquireLeaves(bs, c, fullBurst);
      }
      assert key in u <==> key in bs;
      assert key in bs ==> u[key] == bs[key];
    }
  }

  lemma {:induction false} LastIsEarlier(cs: seq<Call>, c: Call, fullBurst: Operation -> real, sellerId: Option<string>,
          op: Operation)
    requires InOrder(cs + [c]) && c.TryCall?
    ensures var last := LastAsk(History(cs, fullBurst), sellerId, op); last.Some? ==> last.value.now <= c.now
  {
    var h := History(cs, fullBurst);
    var last := LastAsk(h, sellerId, op);
    if last.Some? {
      var i :| 0 <= i < |h| && h[i].call == last.value;
      assert (cs + [c])[i] == last.value && (cs + [c])[|cs|] == c;
    }
  }

  lemma {:induction false} RunHolds(cs: seq<Call>, fullBurst: Operation -> real, sellerId: string, op: Operation)
    requires InOrder(cs)
    ensures PairHolds(Run(map[], cs, fullBurst), History(cs, fullBurst), sellerId, op)
    ensures LimitsOf(op).applicationRate.Some? ==>
              ApplicationHolds(Run(map[], cs, fullBurst), History(cs, fullBurst), op, fullBurst)
  {
    if cs != [] {
      var front, c := cs[..|cs| - 1], cs[|cs| - 1];
      assert cs == front + [c];
      assert InOrder(front) by {
        assert forall i :: 0 <= i < |front| ==> front[i] == cs[i];
      }
      RunHolds(front, fullBurst, sellerId, op);
      RunLast(map[], front, c, fullBurst);
      var bs, h := Run(map[], front, fullBurst), History(front, fullBurst);
      if c.TryCall? {
        LastIsEarlier(front, c, fullBurst, Some(sellerId), op);
        LastIsEarlier(front, c, fullBurst, None, op);
      }
      PairAfter(bs, h, c, sellerId, op, fullBurst);
      if LimitsOf(op).applicationRate.Some? {
        ApplicationAfter(bs, h, c, op, fullBurst);
      }
    }
  }

  // ---------------------------------------------------------------- the answer

  /**
   * After any calls with a clock that does not go back, whatever was observed and whatever the outside
   * load: a request is refused by its pair exactly when some stretch of the pair's requests up to it
   * leaves no whole token of the burst and of what flowed in at the observed rates; by the application
   * exactly when that is so of the requests of all sellers, and not of the pair's; and granted otherwise.
   */
  lemma {:induction false} AnswerIsExact(cs: seq<Call>, c: Call, fullBurst: Operation -> real)
    requires c.TryCall? && InOrder(cs + [c])
    ensures var h := History(cs, fullBurst) + [Asked(c, false)];
            var answer := Acquire(Run(map[], cs, fullBurst), c.sellerId, c.operation, c.now, c.load,
                                  fullBurst(c.operation)).1;
            var shared := LimitsOf(c.operation).applicationRate.Some?;
            var pair := Overdrawn(PairTouches(h, c.sellerId, c.operation));
            var all := shared && Overdrawn(ApplicationTouches(h, c.operation, fullBurst));
            && (answer.Refused? && answer.level.PairLevel? <==> pair)
            && (answer.Refused? && answer.level.ApplicationLevel? <==> !pair && all)
            && (answer.Granted? <==> !pair && !all)
  {
    var bs, h := Run(map[], cs, fullBurst), History(cs, fullBurst);
    assert InOrder(cs) by {
      assert forall i :: 0 <= i < |cs| ==> (cs + [c])[i] == cs[i];
    }
    RunHolds(cs, fullBurst, c.sellerId, c.operation);
    LastIsEarlier(cs, c, fullBurst, Some(c.sellerId), c.operation);
    LastIsEarlier(cs, c, fullBurst, None, c.operation);
    AcquireLeaves(bs, c, fullBurst);
    PairFetched(bs, h, c, false);
    LowExactlyWhenOverdrawn(PairTouches(h + [Asked(c, false)], c.sellerId, c.operation));
    if LimitsOf(c.operation).applicationRate.Some? {
      ApplicationFetched(bs, h, c, false, fullBurst);
      LowExactlyWhenOverdrawn(ApplicationTouches(h + [Asked(c, false)], c.operation, fullBurst));
    }
  }
}
