/**
 * demoOrderLines and syncOrders (apps/console/server/demo-us.ts:114-129, 398-406): orders are read in
 * windows of what changed, and the windows must add up to the full state.
 */
module Orders {
  import opened Common
  import opened Text

  const MINUTE_MS := 60000
  const ORDER_FIRST_MS := 2 * MINUTE_MS
  const ORDER_EVERY_MS := 10 * MINUTE_MS
  const ORDER_SHIP_AFTER_MS := 60 * MINUTE_MS
  const ORDER_CANCEL_AFTER_MS := 20 * MINUTE_MS

  datatype Status = OPEN | SHIPPED | CANCELLED

  datatype Line = Line(ref: string, lineRef: string, marketplace: string,
                       sku: string, quantity: nat, orderedAt: int, status: Status)

  datatype Shop = Shop(skus: seq<string>, fromMs: int, marketplace: string)

  // ---------------------------------------------------------------- the orders themselves

  /** When order `k` is placed. */
  function PlacedAt(shop: Shop, k: nat): (t: int) { shop.fromMs + ORDER_FIRST_MS + k * ORDER_EVERY_MS }

  predicate IsCancelled(k: nat) { k % 10 == 9 }

  /** When order `k` is shipped or cancelled. */
  function ChangedAt(shop: Shop, k: nat): (t: int) {
    PlacedAt(shop, k) + if IsCancelled(k) then ORDER_CANCEL_AFTER_MS else ORDER_SHIP_AFTER_MS
  }

  predicate Exists(shop: Shop, k: nat, now: int) { shop.skus != [] && PlacedAt(shop, k) <= now }

  function StatusAt(shop: Shop, k: nat, now: int): (s: Status) {
    if ChangedAt(shop, k) > now then OPEN else if IsCancelled(k) then CANCELLED else SHIPPED
  }

  /**
   * The life of an order: every ten minutes one is placed; it is open at first, every tenth for 20
   * minutes and then cancelled, the others for an hour and then shipped, for good.
   */
  lemma {:induction false} LifeOfAnOrder(shop: Shop, k: nat, now: int)
    requires Exists(shop, k, now)
    ensures PlacedAt(shop, k + 1) == PlacedAt(shop, k) + 600000 && PlacedAt(shop, 0) == shop.fromMs + 120000
    ensures var age := now - PlacedAt(shop, k);
            && age >= 0
            && (k % 10 == 9 ==> StatusAt(shop, k, now) == if age < 1200000 then OPEN else CANCELLED)
            && (k % 10 != 9 ==> StatusAt(shop, k, now) == if age < 3600000 then OPEN else SHIPPED)
  {
  }

  /** `padStart(7, '0')`. */
  function Pad7(s: string): (r: string)
    decreases 7 - |s|
  {
    if |s| >= 7 then s else Pad7("0" + s)
  }

  function Ref(k: nat): (r: string) { "114-" + (Number(k) + (['-'] + Tail(k))) }

  function Number(k: nat): (r: string) { Pad7(Print(3000000 + k)) }

  function Tail(k: nat): (r: string) { Pad7(Print((k * 7919) % 10000000)) }

  function LineAt(shop: Shop, k: nat, now: int): (line: Line)
    requires shop.skus != []
  {
    LineOf(shop, k, PlacedAt(shop, k), StatusAt(shop, k, now))
  }

  function LineOf(shop: Shop, k: nat, at: int, status: Status): (line: Line)
    requires shop.skus != []
  {
    Line(Ref(k), Ref(k) + "-1", shop.marketplace, shop.skus[k % |shop.skus|], 1, at, status)
  }

  /** The number of an order fills its seven places, so padding adds nothing. */
  lemma {:induction false} NumberIsPrinted(k: nat)
    ensures Number(k) == Print(3000000 + k) && '-' !in Number(k)
  {
    assert Pow10(6) == 1000000;
    PrintLength(3000000 + k, 6);
  }

  lemma {:induction false} NumbersAreDistinct(j: nat, k: nat)
    requires Number(j) == Number(k)
    ensures j == k
  {
    NumberIsPrinted(j);
    NumberIsPrinted(k);
    DecimalPrint(3000000 + j);
    DecimalPrint(3000000 + k);
  }

  /** No two orders share a reference. */
  lemma {:induction false} RefsAreDistinct(j: nat, k: nat)
    requires Ref(j) == Ref(k)
    ensures j == k
  {
    NumberIsPrinted(j);
    NumberIsPrinted(k);
    CutAfter("114-", '-', Number(j), Tail(j), Number(k), Tail(k));
    NumbersAreDistinct(j, k);
  }

  // ---------------------------------------------------------------- the window

  /** The time by which an order is read: of its placing while open, of its change afterwards. */
  function ReadBy(shop: Shop, k: nat, now: int): (t: int) {
    if StatusAt(shop, k, now) == OPEN then PlacedAt(shop, k) else ChangedAt(shop, k)
  }

  /** The lines of the orders from `k` on that changed since `since`. */
  function Window(shop: Shop, now: int, since: int, k: nat): (lines: seq<Line>)
    requires shop.skus != []
    decreases Max(0, now - PlacedAt(shop, k) + 1)
  {
    if PlacedAt(shop, k) > now then []
    else (if ReadBy(shop, k, now) < since then [] else [LineAt(shop, k, now)]) + Window(shop, now, since, k + 1)
  }

  /** `demoOrderLines`. */
  method DemoOrderLines(shop: Shop, now: int, since: int) returns (lines: seq<Line>)
    ensures lines == if shop.skus == [] then [] else Window(shop, now, since, 0)
  {
    lines := [];
    if shop.skus == [] {
      return;
    }
    var k, at := 0, shop.fromMs + ORDER_FIRST_MS;
    while at <= now
      invariant k >= 0 && at == PlacedAt(shop, k)
      invariant lines + Window(shop, now, since, k) == Window(shop, now, since, 0)
      decreases now - at
    {
      var line := OneLine(shop, now, since, k);
      ghost var next := Window(shop, now, since, k + 1);
      assert lines + (line + next) == (lines + line) + next;
      lines := lines + line;
      k := k + 1;
      at := shop.fromMs + ORDER_FIRST_MS + k * ORDER_EVERY_MS;
    }
    assert lines + [] == lines;
  }

  /** The body of the loop: the line of order `k`, if it is in the window. */
  method OneLine(shop: Shop, now: int, since: int, k: nat) returns (r: seq<Line>)
    requires shop.skus != [] && PlacedAt(shop, k) <= now
    ensures Window(shop, now, since, k) == r + Window(shop, now, since, k + 1)
  {
    var at := shop.fromMs + ORDER_FIRST_MS + k * ORDER_EVERY_MS;
    var cancelled := k % 10 == 9;
    var changeAt := at + if cancelled then ORDER_CANCEL_AFTER_MS else ORDER_SHIP_AFTER_MS;
    var status := if changeAt <= now then (if cancelled then CANCELLED else SHIPPED) else OPEN;
    if (if status == OPEN then at else changeAt) < since {
      return [];
    }
    r := [LineOf(shop, k, at, status)];
  }

  /** Order `k` is in the window: it exists and was placed or changed since. */
  predicate InWindow(shop: Shop, k: nat, now: int, since: int) { Exists(shop, k, now) && ReadBy(shop, k, now) >= since }

  lemma {:induction false} WindowHas(shop: Shop, now: int, since: int, from: nat, line: Line)
    requires shop.skus != []
    ensures line in Window(shop, now, since, from) <==>
            exists k: nat :: k >= from && InWindow(shop, k, now, since) && line == LineAt(shop, k, now)
    decreases Max(0, now - PlacedAt(shop, from) + 1)
  {
    if PlacedAt(shop, from) <= now {
      WindowHas(shop, now, since, from + 1, line);
      if line == LineAt(shop, from, now) && InWindow(shop, from, now, since) {
        assert from >= from && InWindow(shop, from, now, since);
      }
    } else {
      assert forall k: nat :: k >= from ==> PlacedAt(shop, k) >= PlacedAt(shop, from);
    }
  }

  // ---------------------------------------------------------------- polling

  /**
   * One call of `syncOrders`: the clock before it and at the read, and whether the pipeline took all
   * lines (None) or threw after some of them.
   */
  datatype Poll = Poll(at: int, now: int, failedAfter: Option<nat>)

  /** What is known of the orders, by reference; `readAt` is the clock at the last complete read. */
  datatype State = State(ordersSince: int, known: map<string, Line>, readAt: int)

  /** Taking lines: the last status wins. */
  function Taken(known: map<string, Line>, lines: seq<Line>): (r: map<string, Line>)
    decreases |lines|
  {
    if lines == [] then known else Taken(known[lines[0].ref := lines[0]], lines[1..])
  }

  function Lines(shop: Shop, now: int, since: int): (r: seq<Line>) {
    if shop.skus == [] then [] else Window(shop, now, since, 0)
  }

  function Step(shop: Shop, s: State, p: Poll): (r: State) {
    var lines := Lines(shop, p.now, s.ordersSince - MINUTE_MS);
    if p.failedAfter.None? then State(p.at, Taken(s.known, lines), p.now)
    else s.(known := Taken(s.known, lines[..Min(p.failedAfter.value, |lines|)]))
  }

  /** From the start of the process. */
  function Run(shop: Shop, polls: seq<Poll>): (s: State) {
    if polls == [] then State(shop.fromMs, map[], shop.fromMs)
    else Step(shop, Run(shop, polls[..|polls| - 1]), polls[|polls| - 1])
  }

  class OrderSync {
    const shop: Shop
    var ordersSince: int
    var known: map<string, Line>
    var readAt: int

    constructor (shop: Shop)
      ensures this.shop == shop && Now() == Run(shop, [])
    {
      this.shop := shop;
      ordersSince, known, readAt := shop.fromMs, map[], shop.fromMs;
    }

    function Now(): (s: State)
      reads this
    {
      State(ordersSince, known, readAt)
    }

    method SyncOrders(p: Poll)
      modifies this
      ensures Now() == Step(shop, old(Now()), p)
    {
      var lines := DemoOrderLines(shop, p.now, ordersSince - MINUTE_MS);
      var taken := if p.failedAfter.None? then lines else lines[..Min(p.failedAfter.value, |lines|)];
      ghost var before := known;
      for i := 0 to |taken|
        invariant Taken(known, taken[i..]) == Taken(before, taken)
        invariant ordersSince == old(ordersSince) && readAt == old(readAt)
      {
        assert taken[i..][1..] == taken[i + 1..];
        known := known[taken[i].ref := taken[i]];
      }
      assert taken[|taken|..] == [];
      if p.failedAfter.None? {
        ordersSince, readAt := p.at, p.now;
      }
    }
  }

  // ---------------------------------------------------------------- the windows add up

  /** A clock that does not go back; polls follow one another. */
  predicate Timely(polls: seq<Poll>, from: int) {
    polls == [] ||
    (var p := polls[|polls| - 1];
     && p.at <= p.now && Timely(polls[..|polls| - 1], from)
     && Clock(polls[..|polls| - 1], from) <= p.at)
  }

  function Clock(polls: seq<Poll>, from: int): (t: int) { if polls == [] then from else polls[|polls| - 1].now }

  /** What is known of order `k` was true at some time since the last complete read, or it did not exist then. */
  ghost predicate TracksOrder(shop: Shop, known: map<string, Line>, k: nat, readAt: int, clock: int) {
    if Ref(k) in known
    then exists t :: readAt <= t <= clock && Exists(shop, k, t) && known[Ref(k)] == LineAt(shop, k, t)
    else !Exists(shop, k, readAt)
  }

  /** Only orders are known. */
  ghost predicate OnlyOrders(shop: Shop, known: map<string, Line>, clock: int) {
    forall r :: r in known ==> exists k: nat :: r == Ref(k) && Exists(shop, k, clock)
  }

  ghost predicate Tracks(shop: Shop, s: State, clock: int) {
    && s.ordersSince <= s.readAt <= clock
    && OnlyOrders(shop, s.known, clock)
    && forall k: nat :: TracksOrder(shop, s.known, k, s.readAt, clock)
  }

  /** Exactly the orders placed so far, each with its current status. */
  ghost predicate IsFullState(shop: Shop, known: map<string, Line>, now: int) {
    && OnlyOrders(shop, known, now)
    && forall k: nat :: Exists(shop, k, now) ==> Ref(k) in known && known[Ref(k)] == LineAt(shop, k, now)
  }

  /** The lines are true at `now`. */
  ghost predicate TrueLines(shop: Shop, lines: seq<Line>, now: int) {
    forall line :: line in lines ==> exists k: nat :: Exists(shop, k, now) && line == LineAt(shop, k, now)
  }

  lemma {:induction false} TakenLines(shop: Shop, known: map<string, Line>, lines: seq<Line>, now: int, k: nat)
    requires TrueLines(shop, lines, now)
    decreases |lines|
    ensures var r := Taken(known, lines);
            if shop.skus != [] && LineAt(shop, k, now) in lines then Ref(k) in r && r[Ref(k)] == LineAt(shop, k, now)
            else (Ref(k) in r <==> Ref(k) in known) && (Ref(k) in known ==> r[Ref(k)] == known[Ref(k)])
  {
    if lines != [] {
      assert lines == [lines[0]] + lines[1..];
      var line := lines[0];
      assert forall l :: l in lines[1..] ==> l in lines;
      TakenLines(shop, known[line.ref := line], lines[1..], now, k);
      assert line in lines;
      var j: nat :| Exists(shop, j, now) && line == LineAt(shop, j, now);
      if Ref(j) == Ref(k) {
        RefsAreDistinct(j, k);
      }
    }
  }

  lemma {:induction false} TakenKeys(shop: Shop, known: map<string, Line>, lines: seq<Line>, now: int)
    requires TrueLines(shop, lines, now) && OnlyOrders(shop, known, now)
    ensures OnlyOrders(shop, Taken(known, lines), now)
    decreases |lines|
  {
    if lines != [] {
      assert lines == [lines[0]] + lines[1..];
      var line := lines[0];
      assert line in lines && forall l :: l in lines[1..] ==> l in lines;
      var j: nat :| Exists(shop, j, now) && line == LineAt(shop, j, now);
      TakenKeys(shop, known[line.ref := line], lines[1..], now);
    }
  }

  lemma {:induction false} WindowIsTrue(shop: Shop, now: int, since: int)
    ensures TrueLines(shop, Lines(shop, now, since), now)
  {
    forall line | line in Lines(shop, now, since)
      ensures exists k: nat :: Exists(shop, k, now) && line == LineAt(shop, k, now) {
      WindowHas(shop, now, since, 0, line);
      var k: nat :| InWindow(shop, k, now, since) && line == LineAt(shop, k, now);
    }
  }

  /** An order whose line is not in the window has had its present status since before the last complete read. */
  lemma {:induction false} Unchanged(shop: Shop, k: nat, since: int, readAt: int, t: int, now: int)
    requires Exists(shop, k, now) && !InWindow(shop, k, now, since) && since <= readAt <= t <= now
    ensures Exists(shop, k, readAt) && LineAt(shop, k, t) == LineAt(shop, k, now)
  {
  }

  lemma {:induction false} OrderAfterPoll(shop: Shop, s: State, clock: int, p: Poll, lines: seq<Line>, k: nat)
    requires Tracks(shop, s, clock) && clock <= p.at <= p.now
    requires TrueLines(shop, lines, p.now)
    ensures TracksOrder(shop, Taken(s.known, lines), k, s.readAt, p.now)
    ensures lines == Lines(shop, p.now, s.ordersSince - MINUTE_MS) && Exists(shop, k, p.now) ==>
              var known := Taken(s.known, lines); Ref(k) in known && known[Ref(k)] == LineAt(shop, k, p.now)
  {
    var since := s.ordersSince - MINUTE_MS;
    TakenLines(shop, s.known, lines, p.now, k);
    assert TracksOrder(shop, s.known, k, s.readAt, clock);
    if shop.skus != [] && LineAt(shop, k, p.now) in lines {
      var j: nat :| Exists(shop, j, p.now) && LineAt(shop, k, p.now) == LineAt(shop, j, p.now);
      RefsAreDistinct(j, k);
      assert s.readAt <= p.now <= p.now;
    } else if lines == Lines(shop, p.now, since) && Exists(shop, k, p.now) {
      WindowHas(shop, p.now, since, 0, LineAt(shop, k, p.now));
      assert !InWindow(shop, k, p.now, since);
      Unchanged(shop, k, since, s.readAt, s.readAt, p.now);
      var t :| s.readAt <= t <= clock && Exists(shop, k, t) && s.known[Ref(k)] == LineAt(shop, k, t);
      Unchanged(shop, k, since, s.readAt, t, p.now);
    }
  }

  /** After a complete read every order is known as it is. */
  lemma {:induction false} CompleteRead(shop: Shop, s: State, clock: int, p: Poll)
    requires Tracks(shop, s, clock) && clock <= p.at <= p.now
    ensures var known := Taken(s.known, Lines(shop, p.now, s.ordersSince - MINUTE_MS));
            IsFullState(shop, known, p.now) && Tracks(shop, State(p.at, known, p.now), p.now)
  {
    var lines := Lines(shop, p.now, s.ordersSince - MINUTE_MS);
    var known := Taken(s.known, lines);
    WindowIsTrue(shop, p.now, s.ordersSince - MINUTE_MS);
    assert OnlyOrders(shop, s.known, p.now);
    TakenKeys(shop, s.known, lines, p.now);
    forall k: nat
      ensures TracksOrder(shop, known, k, p.now, p.now)
      ensures Exists(shop, k, p.now) ==> Ref(k) in known && known[Ref(k)] == LineAt(shop, k, p.now)
    {
      OrderAfterPoll(shop, s, clock, p, lines, k);
      assert p.now <= p.now <= p.now;
    }
  }

  /** After a read that failed half way, what is known is still true of some time since the last complete one. */
  lemma {:induction false} BrokenRead(shop: Shop, s: State, clock: int, p: Poll, n: nat)
    requires Tracks(shop, s, clock) && clock <= p.at <= p.now
    requires n <= |Lines(shop, p.now, s.ordersSince - MINUTE_MS)|
    ensures Tracks(shop, s.(known := Taken(s.known, Lines(shop, p.now, s.ordersSince - MINUTE_MS)[..n])), p.now)
  {
    var all := Lines(shop, p.now, s.ordersSince - MINUTE_MS);
    var lines := all[..n];
    WindowIsTrue(shop, p.now, s.ordersSince - MINUTE_MS);
    assert forall l :: l in lines ==> l in all;
    assert OnlyOrders(shop, s.known, p.now);
    TakenKeys(shop, s.known, lines, p.now);
    forall k: nat ensures TracksOrder(shop, Taken(s.known, lines), k, s.readAt, p.now) {
      OrderAfterPoll(shop, s, clock, p, lines, k);
    }
  }

  lemma {:induction false} StepTracks(shop: Shop, s: State, clock: int, p: Poll)
    requires Tracks(shop, s, clock) && clock <= p.at <= p.now
    ensures Tracks(shop, Step(shop, s, p), p.now)
    ensures p.failedAfter.None? ==> IsFullState(shop, Step(shop, s, p).known, p.now)
  {
    if p.failedAfter.None? {
      CompleteRead(shop, s, clock, p);
    } else {
      BrokenRead(shop, s, clock, p, Min(p.failedAfter.value, |Lines(shop, p.now, s.ordersSince - MINUTE_MS)|));
    }
  }

  lemma {:induction false} RunTracks(shop: Shop, polls: seq<Poll>)
    requires Timely(polls, shop.fromMs)
    ensures Tracks(shop, Run(shop, polls), Clock(polls, shop.fromMs))
  {
    if polls != [] {
      var rest, p := polls[..|polls| - 1], polls[|polls| - 1];
      RunTracks(shop, rest);
      StepTracks(shop, Run(shop, rest), Clock(rest, shop.fromMs), p);
    }
  }

  /**
   * Reading in windows equals reading everything: after any polls under a clock that does not go back,
   * some of which may have failed half way, a complete poll leaves exactly the orders placed so far,
   * each with its one reference, its one SKU and its current status.
   */
  lemma {:induction false} WindowsAddUp(shop: Shop, polls: seq<Poll>)
    requires polls != [] && Timely(polls, shop.fromMs) && polls[|polls| - 1].failedAfter.None?
    ensures IsFullState(shop, Run(shop, polls).known, polls[|polls| - 1].now)
  {
    var rest, p := polls[..|polls| - 1], polls[|polls| - 1];
    RunTracks(shop, rest);
    StepTracks(shop, Run(shop, rest), Clock(rest, shop.fromMs), p);
  }
}
