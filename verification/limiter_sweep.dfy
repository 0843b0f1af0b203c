/**
 * When the background sweep of createRateLimiter (apps/console/server/stand-server.ts:2060-2061) can
 * be noticed in an answer.
 */
module LimiterSweep {
  import opened Common
  import opened RateLimiter

  // ---------------------------------------------------------------- answers of the stored entries

  /** The stored entries after a request or a sweep. */
  function Next(cfg: Config, es: seq<Entry>, e: Event): (r: seq<Entry>) {
    match e
    case Timer(t) => Swept(es, t - WINDOW_MS)
    case Request(k, t) => AfterCheck(cfg, es, k, t)
  }

  function Left(cfg: Config, es: seq<Entry>, evs: seq<Event>): (r: seq<Entry>)
    decreases |evs|
  {
    if evs == [] then es else Left(cfg, Next(cfg, es, evs[0]), evs[1..])
  }

  /** What the requests among the events are answered. */
  function Answers(cfg: Config, es: seq<Entry>, evs: seq<Event>): (r: seq<Decision>)
    decreases |evs|
  {
    if evs == [] then []
    else if evs[0].Timer? then Answers(cfg, Next(cfg, es, evs[0]), evs[1..])
    else [Checked(cfg, es, evs[0].key, evs[0].t).1] + Answers(cfg, Next(cfg, es, evs[0]), evs[1..])
  }

  lemma {:induction false} AnswersAppend(cfg: Config, es: seq<Entry>, a: seq<Event>, b: seq<Event>)
    ensures Left(cfg, es, a + b) == Left(cfg, Left(cfg, es, a), b)
    ensures Answers(cfg, es, a + b) == Answers(cfg, es, a) + Answers(cfg, Left(cfg, es, a), b)
    decreases |a|
  {
    if a == [] {
      assert a + b == b;
    } else {
      assert (a + b)[1..] == a[1..] + b && (a + b)[0] == a[0];
      AnswersAppend(cfg, Next(cfg, es, a[0]), a[1..], b);
    }
  }

  lemma {:induction false} LastAnswer(cfg: Config, es: seq<Entry>, evs: seq<Event>, k: Key, t: int)
    ensures Answers(cfg, es, evs + [Request(k, t)])
              == Answers(cfg, es, evs) + [Checked(cfg, Left(cfg, es, evs), k, t).1]
  {
    var e := Request(k, t);
    var u := Left(cfg, es, evs);
    AnswersAppend(cfg, es, evs, [e]);
    assert [e][1..] == [];
    assert Answers(cfg, u, [e]) == [Checked(cfg, u, k, t).1] + Answers(cfg, Next(cfg, u, e), []);
  }

  // ---------------------------------------------------------------- the condition

  /** No stale entry stands behind a fresh one. */
  predicate StaleFirst(es: seq<Entry>, edge: int) {
    forall i, j :: 0 <= i < j < |es| && Stale(es[j], edge) ==> Stale(es[i], edge)
  }

  /** Whatever comes later, the answers after the sweep are those without it. */
  ghost predicate Invisible(cfg: Config, es: seq<Entry>, t: int) {
    forall evs :: Timely(evs, t) ==> Answers(cfg, es, evs) == Answers(cfg, Swept(es, t - WINDOW_MS), evs)
  }

  // ---------------------------------------------------------------- stale entries in front

  /** Entries that a minute has passed. */
  predicate AllOld(es: seq<Entry>, edge: int) {
    forall e :: e in es ==> e.times != [] && forall x :: x in e.times ==> x <= edge
  }

  lemma {:induction false} RecentNone(list: seq<int>, edge: int)
    requires forall x :: x in list ==> x <= edge
    ensures Recent(list, edge) == []
  {
    if list != [] {
      assert list[0] in list && forall x :: x in list[1..] ==> x in list;
      RecentNone(list[1..], edge);
    }
  }

  lemma {:induction false} OldList(es: seq<Entry>, edge: int, k: Key)
    requires AllOld(es, edge)
    ensures Recent(Find(es, k), edge) == []
  {
    if es != [] {
      assert es[0] in es && forall e :: e in es[1..] ==> e in es;
      if es[0].key == k {
        RecentNone(es[0].times, edge);
      } else {
        OldList(es[1..], edge, k);
      }
    }
  }

  lemma {:induction false} SweptConcat(a: seq<Entry>, b: seq<Entry>, edge: int)
    ensures Swept(a + b, edge) == Swept(a, edge) + Swept(b, edge)
  {
    if a == [] {
      assert a + b == b;
    } else {
      assert (a + b)[1..] == a[1..] + b && (a + b)[0] == a[0];
      SweptConcat(a[1..], b, edge);
    }
  }

  lemma {:induction false} SweptOld(es: seq<Entry>, edge: int)
    requires AllOld(es, edge)
    ensures Swept(es, edge) == []
  {
    if es != [] {
      assert es[0] in es && forall e :: e in es[1..] ==> e in es;
      assert es[0].times[|es[0].times| - 1] in es[0].times;
      SweptOld(es[1..], edge);
    }
  }

  lemma {:induction false} WithoutNone(es: seq<Entry>, k: Key)
    requires k !in Keys(es)
    ensures Without(es, k) == es
  {
    if es != [] {
      assert es[0] in es && forall e :: e in es[1..] ==> e in es;
      WithoutNone(es[1..], k);
      assert es == [es[0]] + es[1..];
    }
  }

  lemma {:induction false} WithoutCons(e: Entry, es: seq<Entry>, k: Key)
    ensures Without([e] + es, k) == if e.key == k then es else [e] + Without(es, k)
  {
    assert ([e] + es)[1..] == es;
  }

  lemma {:induction false} WithoutConcat(a: seq<Entry>, b: seq<Entry>, k: Key)
    ensures Without(a + b, k) == if k in Keys(a) then Without(a, k) + b else a + Without(b, k)
  {
    if a == [] {
      assert a + b == b && a + Without(b, k) == Without(b, k);
    } else {
      WithoutConcat(a[1..], b, k);
      WithoutFirst(a[0], a[1..], b, k);
      assert a == [a[0]] + a[1..];
      KeysOfCons(a);
    }
  }

  lemma {:induction false} WithoutFirst(e: Entry, rest: seq<Entry>, b: seq<Entry>, k: Key)
    ensures var w := Without(rest + b, k);
            && Without(([e] + rest) + b, k) == (if e.key == k then rest + b else [e] + w)
            && (w == Without(rest, k) + b ==> [e] + w == ([e] + Without(rest, k)) + b)
            && (w == rest + Without(b, k) ==> [e] + w == ([e] + rest) + Without(b, k))
    ensures Without([e] + rest, k) == if e.key == k then rest else [e] + Without(rest, k)
  {
    assert ([e] + rest) + b == [e] + (rest + b);
    WithoutCons(e, rest + b, k);
    WithoutCons(e, rest, k);
  }

  lemma {:induction false} KeysOfCons(a: seq<Entry>)
    requires a != []
    ensures forall x :: x in Keys(a) <==> x == a[0].key || x in Keys(a[1..])
  {
    assert a == [a[0]] + a[1..] && a[0] in a;
  }

  lemma {:induction false} WithoutIsPart(es: seq<Entry>, k: Key)
    ensures forall e :: e in Without(es, k) ==> e in es
  {
    if es != [] {
      assert forall e :: e in es[1..] ==> e in es;
      WithoutIsPart(es[1..], k);
    }
  }

  /** Dropping `n` entries of `p + us` at the front, where the ceiling alone would drop `m` of `us`. */
  lemma {:induction false} DropBoth(p: seq<Entry>, us: seq<Entry>, n: nat, m: nat) returns (q: seq<Entry>)
    requires n <= |p| + |us| && m == (if n <= |p| then 0 else n - |p|)
    ensures (p + us)[n..] == q + us[m..] && forall e :: e in q ==> e in p
  {
    if n <= |p| {
      q := p[n..];
      assert us[0..] == us;
    } else {
      q := [];
      assert [] + us[m..] == us[m..];
    }
  }

  /** With old entries in front and without them: the same answer, and the same rest behind what is left of them. */
  lemma {:induction false} RequestOnBoth(cfg: Config, p: seq<Entry>, b: seq<Entry>, k: Key, t: int)
    returns (q: seq<Entry>)
    requires AllOld(p, t - WINDOW_MS) && (k in Keys(p) ==> k !in Keys(b))
    ensures Checked(cfg, p + b, k, t).1 == Checked(cfg, b, k, t).1
    ensures AfterCheck(cfg, p + b, k, t) == q + AfterCheck(cfg, b, k, t)
    ensures forall e :: e in q ==> e in p
  {
    FindConcat(p, b, k);
    OldList(p, t - WINDOW_MS, k);
    if k in Keys(p) {
      FindNone(b, k);
      WithoutNone(b, k);
    }
    WithoutConcat(p, b, k);
    WithoutIsPart(p, k);
    var (us, d) := Checked(cfg, b, k, t);
    var (ws, c) := Checked(cfg, p + b, k, t);
    var p1 := if k in Keys(p) then Without(p, k) else p;
    assert ws == p1 + us;
    q := DropBoth(p1, us, Excess(cfg, ws, c), Excess(cfg, us, d));
  }

  /** Behind old entries a limiter answers as without them. */
  lemma {:induction false} OldEntriesAreInvisible(cfg: Config, a: State, p: seq<Entry>, b: seq<Entry>,
          evs: seq<Event>, t: int)
    requires ConfigOk(cfg) && Inv(cfg, a) && a.clock <= t && Timely(evs, t)
    requires a.entries == p + b && AllOld(p, t - WINDOW_MS)
    ensures Answers(cfg, p + b, evs) == Answers(cfg, b, evs)
    decreases |evs|
  {
    if evs != [] {
      var e := evs[0];
      match e {
        case Timer(t1) =>
          TimerKeeps(cfg, a, t1);
          SweptConcat(p, b, t1 - WINDOW_MS);
          SweptOld(p, t1 - WINDOW_MS);
          var rest := Swept(b, t1 - WINDOW_MS);
          assert [] + rest == rest;
          OldEntriesAreInvisible(cfg, Step(cfg, a, e), [], rest, evs[1..], t1);
        case Request(k, t1) =>
          RequestKeeps(cfg, a, k, t1);
          DropFront(a.entries, p, b, a.lastAsk);
          if k in Keys(p) {
            NotAmongLater(b, a.lastAsk, k);
          }
          var q := RequestOnBoth(cfg, p, b, k, t1);
          OldEntriesAreInvisible(cfg, Step(cfg, a, e), q, AfterCheck(cfg, b, k, t1), evs[1..], t1);
      }
    }
  }

  /** Each entry is what its key finds. */
  lemma {:induction false} FindOf(es: seq<Entry>, e: Entry, asked: map<Key, nat>)
    requires InAskOrder(es, asked) && e in es
    ensures Find(es, e.key) == e.times
  {
    if es[0] != e {
      assert e in es[1..];
      OrderOfTail(es, asked);
      FindOf(es[1..], e, asked);
    }
  }

  /** A stored list is sorted, so a stale entry is old as a whole. */
  lemma {:induction false} StaleIsOld(cfg: Config, s: State, e: Entry, edge: int)
    requires Inv(cfg, s) && e in s.entries && Stale(e, edge)
    ensures forall x :: x in e.times ==> x <= edge
  {
    FindOf(s.entries, e, s.lastAsk);
    assert LogOkAt(cfg, s, e.key);
    SuffixIsSorted(Log(s, e.key), e.times, s.clock - WINDOW_MS);
  }

  lemma {:induction false} SuffixIsSorted(log: seq<int>, list: seq<int>, edge: int)
    requires Sorted(log) && Rest(log, list, edge)
    ensures Sorted(list)
  {
  }

  lemma {:induction false} StaleInFront(es: seq<Entry>, edge: int) returns (n: nat)
    requires StaleFirst(es, edge)
    ensures n <= |es| && (forall i :: 0 <= i < n ==> Stale(es[i], edge))
    ensures forall i :: n <= i < |es| ==> !Stale(es[i], edge)
  {
    n := 0;
    while n < |es| && Stale(es[n], edge)
      invariant n <= |es| && forall i :: 0 <= i < n ==> Stale(es[i], edge)
    {
      n := n + 1;
    }
  }

  lemma {:induction false} SweptFresh(es: seq<Entry>, edge: int)
    requires forall e :: e in es ==> !Stale(e, edge)
    ensures Swept(es, edge) == es
  {
    if es != [] {
      assert es[0] in es && forall e :: e in es[1..] ==> e in es;
      SweptFresh(es[1..], edge);
      assert es == [es[0]] + es[1..];
    }
  }

  lemma {:induction false} StaleFirstIsInvisible(cfg: Config, s: State, t: int)
    requires ConfigOk(cfg) && Inv(cfg, s) && s.clock <= t && StaleFirst(s.entries, t - WINDOW_MS)
    ensures Invisible(cfg, s.entries, t)
  {
    var edge := t - WINDOW_MS;
    var n := StaleInFront(s.entries, edge);
    var p, b := s.entries[..n], s.entries[n..];
    assert s.entries == p + b;
    forall e | e in p ensures e.times != [] && forall x :: x in e.times ==> x <= edge {
      StaleIsOld(cfg, s, e, edge);
    }
    SweptConcat(p, b, edge);
    SweptOld(p, edge);
    SweptFresh(b, edge);
    assert [] + b == b;
    forall evs | Timely(evs, t) ensures Answers(cfg, s.entries, evs) == Answers(cfg, Swept(s.entries, edge), evs) {
      OldEntriesAreInvisible(cfg, s, p, b, evs, t);
    }
  }

  // ---------------------------------------------------------------- a stale entry behind a fresh one

  function Xs(n: nat): (s: string)
    ensures |s| == n
  {
    if n == 0 then "" else Xs(n - 1) + "x"
  }

  /** The address lengths in use. */
  function Longest(es: seq<Entry>): (n: nat)
    ensures forall e :: e in es ==> |e.key.address| <= n
  {
    if es == [] then 0 else Max(|es[0].key.address|, Longest(es[1..]))
  }

  /** Every address in use is shorter than `n`. */
  predicate Shorter(es: seq<Entry>, n: nat) { forall e :: e in es ==> |e.key.address| < n }

  function Newcomer(n: nat): (k: Key) { Key(false, Xs(n)) }

  /** `n` clients not seen before, each asking once. */
  function Fill(from: nat, n: nat, t: int): (evs: seq<Event>)
    ensures |evs| == n && Timely(evs, t) && forall e :: e in evs ==> e.t == t
  {
    if n == 0 then [] else FillOn(Fill(from, n - 1, t), Request(Newcomer(from + n - 1), t), t)
  }

  function FillOn(evs: seq<Event>, e: Event, t: int): (r: seq<Event>)
    requires forall f :: f in evs ==> f.t == t
    requires e.t == t
    ensures r == evs + [e] && Timely(r, t)
  {
    AllAtOnce(evs + [e], t);
    evs + [e]
  }

  lemma {:induction false} AllAtOnce(evs: seq<Event>, t: int)
    requires forall e :: e in evs ==> e.t == t
    ensures Timely(evs, t)
  {
    if evs != [] {
      assert evs[0] in evs && forall e :: e in evs[1..] ==> e in evs;
      AllAtOnce(evs[1..], t);
    }
  }

  function Newcomers(from: nat, n: nat, t: int): (es: seq<Entry>)
    ensures |es| == n && forall e :: e in es ==> from <= |e.key.address| < from + n
  {
    if n == 0 then [] else Newcomers(from, n - 1, t) + [Entry(Newcomer(from + n - 1), [t])]
  }

  /** The last entries, at most `max` of them: what the ceiling keeps. */
  function LastOf(es: seq<Entry>, max: nat): (r: seq<Entry>)
    ensures |r| == Min(|es|, max) && forall e :: e in r ==> e in es
  {
    es[Max(0, |es| - max)..]
  }

  lemma {:induction false} LastOfSplit(a: seq<Entry>, b: seq<Entry>, max: nat)
    requires |b| <= max
    ensures LastOf(a + b, max) == LastOf(a, max - |b|) + b
  {
  }

  lemma {:induction false} LastOfPush(es: seq<Entry>, e: Entry, max: nat)
    requires max >= 1
    ensures LastOf(LastOf(es, max) + [e], max) == LastOf(es + [e], max)
  {
  }

  /** A client not seen before is admitted and pushes out the first entry of a full map. */
  lemma {:induction false} NewcomerJoins(cfg: Config, es: seq<Entry>, k: Key, t: int)
    requires ConfigOk(cfg) && k !in Keys(es)
    ensures AfterCheck(cfg, es, k, t) == LastOf(es + [Entry(k, [t])], cfg.maxClients)
    ensures Checked(cfg, es, k, t).1.Admitted?
  {
    FindNone(es, k);
    WithoutNone(es, k);
    assert [] + [t] == [t];
  }

  /** One request after others. */
  lemma {:induction false} OneMore(cfg: Config, es: seq<Entry>, evs: seq<Event>, e: Event)
    ensures Left(cfg, es, evs + [e]) == Next(cfg, Left(cfg, es, evs), e)
  {
    AnswersAppend(cfg, es, evs, [e]);
    assert [e][1..] == [];
  }

  lemma {:induction false} NotSeen(es: seq<Entry>, from: nat, n: nat, t: int, u: seq<Entry>)
    requires Shorter(es, from) && forall e :: e in u ==> e in es || e in Newcomers(from, n, t)
    ensures Newcomer(from + n) !in Keys(u)
  {
  }

  lemma {:induction false} PushAssoc(es: seq<Entry>, news: seq<Entry>, e: Entry)
    ensures es + (news + [e]) == (es + news) + [e]
  {
  }

  lemma {:induction false} FillStep(cfg: Config, es: seq<Entry>, evs: seq<Event>, all: seq<Entry>, k: Key, t: int)
    requires ConfigOk(cfg) && cfg.maxClients >= 1
    requires Left(cfg, es, evs) == LastOf(all, cfg.maxClients) && k !in Keys(LastOf(all, cfg.maxClients))
    ensures Left(cfg, es, evs + [Request(k, t)]) == LastOf(all + [Entry(k, [t])], cfg.maxClients)
  {
    OneMore(cfg, es, evs, Request(k, t));
    NewcomerJoins(cfg, LastOf(all, cfg.maxClients), k, t);
    LastOfPush(all, Entry(k, [t]), cfg.maxClients);
  }

  lemma {:induction false} AllOf(es: seq<Entry>, max: nat)
    requires |es| <= max
    ensures LastOf(es + [], max) == es
  {
  }

  lemma {:induction false} Filled(cfg: Config, es: seq<Entry>, from: nat, n: nat, t: int)
    requires ConfigOk(cfg) && |es| <= cfg.maxClients && cfg.maxClients >= 1 && Shorter(es, from)
    ensures Left(cfg, es, Fill(from, n, t)) == LastOf(es + Newcomers(from, n, t), cfg.maxClients)
  {
    if n == 0 {
      AllOf(es, cfg.maxClients);
    } else {
      var k, news := Newcomer(from + n - 1), Newcomers(from, n - 1, t);
      Filled(cfg, es, from, n - 1, t);
      NotSeen(es, from, n - 1, t, LastOf(es + news, cfg.maxClients));
      FillStep(cfg, es, Fill(from, n - 1, t), es + news, k, t);
      PushAssoc(es, news, Entry(k, [t]));
    }
  }

  /** The key stands in the map at most once. */
  predicate Once(es: seq<Entry>, k: Key) { k !in Keys(Without(es, k)) }

  /** How many admissions of the key the last minute holds. */
  function Held(es: seq<Entry>, k: Key, t: int): (n: nat) { |Recent(Find(es, k), t - WINDOW_MS)| }

  lemma {:induction false} RecentIsRecent(list: seq<int>, edge: int)
    ensures forall x :: x in Recent(list, edge) ==> x > edge
    ensures Recent(Recent(list, edge), edge) == Recent(list, edge)
  {
    if list != [] {
      RecentIsRecent(list[1..], edge);
      if list[0] > edge {
        assert ([list[0]] + Recent(list[1..], edge))[1..] == Recent(list[1..], edge);
      }
    }
  }

  /** A key's entry at the end is the one it finds. */
  lemma {:induction false} PlacedLast(front: seq<Entry>, last: Entry)
    requires last.key !in Keys(front)
    ensures Once(front + [last], last.key) && Find(front + [last], last.key) == last.times
  {
    FindConcat(front, [last], last.key);
    FindCons(last, [], last.key);
    assert [last] + [] == [last];
    WithoutConcat(front, [last], last.key);
    assert Without([last], last.key) == [] && front + [] == front;
  }

  lemma {:induction false} RecentAndNow(list: seq<int>, t: int)
    ensures var r := Recent(list, t - WINDOW_MS);
            Recent(r, t - WINDOW_MS) == r && Recent(r + [t], t - WINDOW_MS) == r + [t]
  {
    var r := Recent(list, t - WINDOW_MS);
    RecentIsRecent(list, t - WINDOW_MS);
    assert forall i :: 0 <= i < |r| ==> r[i] in r;
    RecentAll(r + [t], t - WINDOW_MS);
  }

  /** Where a request leaves its key. */
  lemma {:induction false} AskedLast(cfg: Config, es: seq<Entry>, k: Key, t: int)
    returns (front: seq<Entry>, last: Entry)
    requires ConfigOk(cfg) && cfg.maxClients >= 1 && Once(es, k)
    ensures AfterCheck(cfg, es, k, t) == front + [last] && last.key == k && k !in Keys(front)
    ensures var list := Recent(Find(es, k), t - WINDOW_MS);
            last.times == if |list| < LimitOf(cfg, k) then list + [t] else list
  {
    var (us, d) := Checked(cfg, es, k, t);
    var rest, n := Without(es, k), Excess(cfg, us, d);
    front, last := rest[n..], us[|us| - 1];
    assert us[n..] == front + [last];
    assert forall e :: e in front ==> e in rest;
  }

  /** One request: it is admitted exactly below the limit, and then holds one more. */
  lemma {:induction false} AskOnce(cfg: Config, es: seq<Entry>, k: Key, t: int)
    requires ConfigOk(cfg) && cfg.maxClients >= 1 && Once(es, k)
    ensures var u, m := AfterCheck(cfg, es, k, t), Held(es, k, t);
            && (Checked(cfg, es, k, t).1.Admitted? <==> m < LimitOf(cfg, k))
            && Once(u, k) && Held(u, k, t) == if m < LimitOf(cfg, k) then m + 1 else m
  {
    var front, last := AskedLast(cfg, es, k, t);
    PlacedLast(front, last);
    RecentAndNow(Find(es, k), t);
  }

  function Repeat(k: Key, t: int, n: nat): (evs: seq<Event>)
    ensures |evs| == n && forall e :: e in evs ==> e.t == t
  {
    if n == 0 then [] else Repeat(k, t, n - 1) + [Request(k, t)]
  }

  /** From `m` admissions, `n` more requests lead here. */
  function Reached(m: nat, limit: nat, n: nat): (r: nat) { Max(m, Min(limit, m + n)) }

  lemma {:induction false} CountUp(m: nat, limit: nat, n: nat)
    ensures Reached(m, limit, 0) == m
    ensures n > 0 ==>
              var h := Reached(m, limit, n - 1); Reached(m, limit, n) == if h < limit then h + 1 else h
  {
  }

  lemma {:induction false} AskAgain(cfg: Config, es: seq<Entry>, evs: seq<Event>, k: Key, t: int)
    requires ConfigOk(cfg) && cfg.maxClients >= 1 && Once(Left(cfg, es, evs), k)
    ensures var u, m := Left(cfg, es, evs + [Request(k, t)]), Held(Left(cfg, es, evs), k, t);
            Once(u, k) && Held(u, k, t) == if m < LimitOf(cfg, k) then m + 1 else m
  {
    OneMore(cfg, es, evs, Request(k, t));
    AskOnce(cfg, Left(cfg, es, evs), k, t);
  }

  lemma {:induction false} AskOften(cfg: Config, es: seq<Entry>, k: Key, t: int, n: nat)
    requires ConfigOk(cfg) && cfg.maxClients >= 1 && Once(es, k)
    ensures Once(Left(cfg, es, Repeat(k, t, n)), k)
    ensures Held(Left(cfg, es, Repeat(k, t, n)), k, t) == Reached(Held(es, k, t), LimitOf(cfg, k), n)
  {
    CountUp(Held(es, k, t), LimitOf(cfg, k), n);
    if n == 0 {
      assert Left(cfg, es, []) == es;
    } else {
      AskOften(cfg, es, k, t, n - 1);
      AskAgain(cfg, es, Repeat(k, t, n - 1), k, t);
      assert Repeat(k, t, n) == Repeat(k, t, n - 1) + [Request(k, t)];
    }
  }

  /** A run that tells two maps apart: the key is in the one and not in the other, and asks until one refuses it. */
  lemma {:induction false} AsksTell(cfg: Config, a: seq<Entry>, b: seq<Entry>, k: Key, t: int) returns (n: nat)
    requires ConfigOk(cfg) && cfg.maxClients >= 1 && Once(a, k) && Once(b, k)
    requires Held(a, k, t) == 0 < Held(b, k, t)
    ensures Checked(cfg, Left(cfg, a, Repeat(k, t, n)), k, t).1.Admitted?
    ensures Checked(cfg, Left(cfg, b, Repeat(k, t, n)), k, t).1.Refused?
  {
    n := Max(0, LimitOf(cfg, k) - Held(b, k, t));
    AskOften(cfg, a, k, t, n);
    AskOften(cfg, b, k, t, n);
    AskOnce(cfg, Left(cfg, a, Repeat(k, t, n)), k, t);
    AskOnce(cfg, Left(cfg, b, Repeat(k, t, n)), k, t);
  }

  lemma {:induction false} SweptSome(es: seq<Entry>, edge: int, e: Entry)
    requires e in es && Stale(e, edge)
    ensures |Swept(es, edge)| < |es|
  {
    if es[0] != e {
      SweptSome(es[1..], edge, e);
    }
  }

  /** A fresh entry behind others is found, and its key stands nowhere else. */
  lemma {:induction false} FoundBehind(front: seq<Entry>, e: Entry, back: seq<Entry>, t: int)
    requires e.key !in Keys(front) && e.key !in Keys(back) && e.times != [] && !Stale(e, t - WINDOW_MS)
    ensures Once(front + ([e] + back), e.key) && Held(front + ([e] + back), e.key, t) > 0
  {
    FindConcat(front, [e] + back, e.key);
    FindCons(e, back, e.key);
    WithoutConcat(front, [e] + back, e.key);
    assert ([e] + back)[1..] == back;
    assert forall x :: x in Keys(front + back) ==> x in Keys(front) || x in Keys(back);
    LastIsRecent(e.times, t - WINDOW_MS);
  }

  lemma {:induction false} LastIsRecent(list: seq<int>, edge: int)
    requires list != [] && list[|list| - 1] > edge
    ensures Recent(list, edge) != []
  {
    if list[0] <= edge {
      LastIsRecent(list[1..], edge);
    }
  }

  lemma {:induction false} NotFound(es: seq<Entry>, k: Key, t: int)
    requires k !in Keys(es)
    ensures Once(es, k) && Held(es, k, t) == 0
  {
    FindNone(es, k);
    WithoutNone(es, k);
  }

  /** The first `m` of `a + news` go, and with them the fresh entry at `i`; without the stale entries it stays. */
  lemma {:induction false} FreshStays(cfg: Config, front: seq<Entry>, f: Entry, back: seq<Entry>, edge: int, s: Entry)
    requires s in back && Stale(s, edge) && !Stale(f, edge)
    ensures var b := Swept(front + ([f] + back), edge);
            && b == Swept(front, edge) + ([f] + Swept(back, edge))
            && |b| - |Swept(front, edge)| < |back| + 1
  {
    SweptConcat(front, [f] + back, edge);
    assert ([f] + back)[1..] == back;
    SweptSome(back, edge, s);
  }

  /** An entry with as many behind it as fit is gone. */
  lemma {:induction false} GoneBefore(front: seq<Entry>, f: Entry, back: seq<Entry>, news: seq<Entry>, t: int, max: nat)
    requires |back| + |news| == max && f.key !in Keys(back) && f.key !in Keys(news)
    ensures var a := LastOf((front + ([f] + back)) + news, max); Once(a, f.key) && Held(a, f.key, t) == 0
  {
    assert (front + ([f] + back)) + news == (front + [f]) + (back + news);
    LastOfSplit(front + [f], back + news, max);
    assert LastOf(front + [f], 0) + (back + news) == back + news;
    assert forall e :: e in back + news <==> e in back || e in news;
    NotFound(back + news, f.key, t);
  }

  /** A fresh entry with fewer behind it than fit is kept. */
  lemma {:induction false} KeptBefore(front: seq<Entry>, f: Entry, back: seq<Entry>, news: seq<Entry>, t: int, max: nat)
    requires |back| + |news| + 1 <= max && f.key !in Keys(front) && f.key !in Keys(back) && f.key !in Keys(news)
    requires f.times != [] && !Stale(f, t - WINDOW_MS)
    ensures var b := LastOf((front + ([f] + back)) + news, max); Once(b, f.key) && Held(b, f.key, t) > 0
  {
    var rest := [f] + (back + news);
    assert (front + ([f] + back)) + news == front + rest;
    LastOfSplit(front, rest, max);
    assert forall e :: e in back + news <==> e in back || e in news;
    FoundBehind(LastOf(front, max - |rest|), f, back + news, t);
  }

  lemma {:induction false} NotANewcomer(es: seq<Entry>, f: Entry, from: nat, n: nat, t: int)
    requires f in es && Shorter(es, from)
    ensures f.key !in Keys(Newcomers(from, n, t))
  {
  }

  /** Enough newcomers push the fresh entry out. */
  lemma {:induction false} PushedOut(cfg: Config, front: seq<Entry>, f: Entry, back: seq<Entry>, t: int, from: nat)
    requires ConfigOk(cfg) && |front| + 1 + |back| <= cfg.maxClients && f.key !in Keys(back)
    requires Shorter(front + ([f] + back), from)
    ensures var a := Left(cfg, front + ([f] + back), Fill(from, cfg.maxClients - |back|, t));
            Once(a, f.key) && Held(a, f.key, t) == 0
  {
    var es, n := front + ([f] + back), cfg.maxClients - |back|;
    Filled(cfg, es, from, n, t);
    NotANewcomer(es, f, from, n, t);
    GoneBefore(front, f, back, Newcomers(from, n, t), t, cfg.maxClients);
  }

  /** As many newcomers leave it where it is when a stale entry behind it is gone. */
  lemma {:induction false} StaysIn(cfg: Config, front: seq<Entry>, f: Entry, back: seq<Entry>, t: int,
          s: Entry, from: nat)
    requires ConfigOk(cfg) && |front| + 1 + |back| <= cfg.maxClients
    requires f.key !in Keys(front) && f.key !in Keys(back) && f.times != []
    requires s in back && Stale(s, t - WINDOW_MS) && !Stale(f, t - WINDOW_MS)
    requires Shorter(front + ([f] + back), from)
    ensures var b := Left(cfg, Swept(front + ([f] + back), t - WINDOW_MS), Fill(from, cfg.maxClients - |back|, t));
            Once(b, f.key) && Held(b, f.key, t) > 0
  {
    var edge, es, n := t - WINDOW_MS, front + ([f] + back), cfg.maxClients - |back|;
    var sf, sb := Swept(front, edge), Swept(back, edge);
    FreshStays(cfg, front, f, back, edge, s);
    SweptIsPart(es, edge);
    Filled(cfg, Swept(es, edge), from, n, t);
    NotANewcomer(es, f, from, n, t);
    SweptKeys(front, edge, f.key);
    SweptKeys(back, edge, f.key);
    KeptBefore(sf, f, sb, Newcomers(from, n, t), t, cfg.maxClients);
  }

  lemma {:induction false} SweptKeys(es: seq<Entry>, edge: int, k: Key)
    requires k !in Keys(es)
    ensures k !in Keys(Swept(es, edge))
  {
    SweptIsPart(es, edge);
  }

  lemma {:induction false} SweptIsPart(es: seq<Entry>, edge: int)
    ensures forall e :: e in Swept(es, edge) ==> e in es
  {
    if es != [] {
      assert forall e :: e in es[1..] ==> e in es;
      SweptIsPart(es[1..], edge);
      var r := Swept(es[1..], edge);
      assert ([es[0]] + r)[1..] == r;
    }
  }

  lemma {:induction false} StandsAlone(front: seq<Entry>, f: Entry, back: seq<Entry>, asked: map<Key, nat>)
    requires InAskOrder(front + ([f] + back), asked)
    ensures f.key !in Keys(front) && f.key !in Keys(back)
  {
    DropFront(front + ([f] + back), front, [f] + back, asked);
    assert f in [f] + back && ([f] + back)[1..] == back;
    OrderOfTail([f] + back, asked);
    NotAmongLater(back, asked, f.key);
  }

  /** Two maps that newcomers make different are told apart by a run at one moment. */
  lemma {:induction false} RunTells(cfg: Config, a: seq<Entry>, b: seq<Entry>, fill: seq<Event>, k: Key, t: int)
    returns (evs: seq<Event>)
    requires ConfigOk(cfg) && cfg.maxClients >= 1 && forall e :: e in fill ==> e.t == t
    requires Once(Left(cfg, a, fill), k) && Once(Left(cfg, b, fill), k)
    requires Held(Left(cfg, a, fill), k, t) == 0 < Held(Left(cfg, b, fill), k, t)
    ensures Timely(evs, t) && Answers(cfg, a, evs) != Answers(cfg, b, evs)
  {
    var c := AsksTell(cfg, Left(cfg, a, fill), Left(cfg, b, fill), k, t);
    var asks := fill + Repeat(k, t, c);
    evs := asks + [Request(k, t)];
    AllAtOnce(evs, t);
    AnswersAppend(cfg, a, fill, Repeat(k, t, c));
    AnswersAppend(cfg, b, fill, Repeat(k, t, c));
    LastAnswer(cfg, a, asks, k, t);
    LastAnswer(cfg, b, asks, k, t);
    LastsDiffer(Answers(cfg, a, asks), Checked(cfg, Left(cfg, a, asks), k, t).1,
                Answers(cfg, b, asks), Checked(cfg, Left(cfg, b, asks), k, t).1);
  }

  lemma {:induction false} LastsDiffer(a: seq<Decision>, x: Decision, b: seq<Decision>, y: Decision)
    requires x != y
    ensures a + [x] != b + [y]
  {
    assert (a + [x])[|a|] == x && (b + [y])[|b|] == y;
  }

  lemma {:induction false} StaleBehindFreshShows(cfg: Config, s: State, t: int, i: nat, j: nat)
    returns (evs: seq<Event>)
    requires ConfigOk(cfg) && Inv(cfg, s) && i < j < |s.entries|
    requires Stale(s.entries[j], t - WINDOW_MS) && !Stale(s.entries[i], t - WINDOW_MS)
    ensures Timely(evs, t) && Answers(cfg, s.entries, evs) != Answers(cfg, Swept(s.entries, t - WINDOW_MS), evs)
  {
    var es := s.entries;
    var front, f, back := es[..i], es[i], es[i + 1..];
    assert es == front + ([f] + back) && back[j - i - 1] == es[j] && f in es;
    StandsAlone(front, f, back, s.lastAsk);
    var from := Longest(es) + 1;
    PushedOut(cfg, front, f, back, t, from);
    StaysIn(cfg, front, f, back, t, es[j], from);
    evs := RunTells(cfg, es, Swept(es, t - WINDOW_MS), Fill(from, cfg.maxClients - |back|, t), f.key, t);
  }

  /**
   * A sweep is invisible to everything that comes later if and only if no stale entry stands behind a
   * fresh one: then what it forgets would have been evicted first anyway. Otherwise newcomers push out
   * the fresh client without the sweep and not with it, and that client's next requests tell.
   */
  lemma {:induction false} InvisibleExactlyWhenStaleFirst(cfg: Config, s: State, t: int)
    requires ConfigOk(cfg) && Inv(cfg, s) && s.clock <= t
    ensures Invisible(cfg, s.entries, t) <==> StaleFirst(s.entries, t - WINDOW_MS)
  {
    if StaleFirst(s.entries, t - WINDOW_MS) {
      StaleFirstIsInvisible(cfg, s, t);
    } else {
      var i, j :| 0 <= i < j < |s.entries| && Stale(s.entries[j], t - WINDOW_MS) && !Stale(s.entries[i], t - WINDOW_MS);
      var evs := StaleBehindFreshShows(cfg, s, t, i, j);
      assert Timely(evs, t);
    }
  }

  // ---------------------------------------------------------------- a sweep that shows

  /** The client with this address, without a credential. */
  function Anonymous(address: string): (k: Key) { Key(false, address) }

  /** Two clients fill a map of two; the older one asks again and is refused, so it stands behind the other. */
  function Crowded(): (evs: seq<Event>) {
    [Request(Anonymous("a"), 0), Request(Anonymous("b"), 1), Request(Anonymous("a"), 10)]
  }

  /** The refusal moves the older client behind the other. */
  lemma {:induction false} OlderMovesBack()
    ensures var a, b := Entry(Anonymous("a"), [0]), Entry(Anonymous("b"), [1]);
            AfterCheck(Config(1, 1, 2), [a, b], Anonymous("a"), 10) == [b, a]
  {
    var a, b := Entry(Anonymous("a"), [0]), Entry(Anonymous("b"), [1]);
    RecentAll([0], 10 - WINDOW_MS);
    assert [a, b][1..] == [b] && Without([a, b], a.key) == [b];
    assert [b] + [a] == [b, a] && [b, a][0..] == [b, a];
  }

  lemma {:induction false} AfterThree(cfg: Config, es: seq<Entry>, e0: Event, e1: Event, e2: Event)
    ensures Left(cfg, es, [e0, e1, e2]) == Next(cfg, Next(cfg, Next(cfg, es, e0), e1), e2)
  {
    assert [] + [e0] == [e0] && [e0] + [e1] == [e0, e1] && [e0, e1] + [e2] == [e0, e1, e2];
    OneMore(cfg, es, [], e0);
    OneMore(cfg, es, [e0], e1);
    OneMore(cfg, es, [e0, e1], e2);
  }

  /** Two newcomers fill the map. */
  lemma {:induction false} TwoJoin(a: Key, b: Key)
    requires a != b
    ensures var cfg := Config(1, 1, 2);
            && AfterCheck(cfg, [], a, 0) == [Entry(a, [0])]
            && AfterCheck(cfg, [Entry(a, [0])], b, 1) == [Entry(a, [0]), Entry(b, [1])]
  {
    var cfg, u := Config(1, 1, 2), [Entry(a, [0])];
    NewcomerJoins(cfg, [], a, 0);
    assert LastOf([] + u, 2) == u;
    NewcomerJoins(cfg, u, b, 1);
    assert LastOf(u + [Entry(b, [1])], 2) == [Entry(a, [0]), Entry(b, [1])];
  }

  lemma {:induction false} CrowdedMap()
    ensures Left(Config(1, 1, 2), [], Crowded()) == [Entry(Anonymous("b"), [1]), Entry(Anonymous("a"), [0])]
  {
    var a, b := Anonymous("a"), Anonymous("b");
    AfterThree(Config(1, 1, 2), [], Request(a, 0), Request(b, 1), Request(a, 10));
    TwoJoin(a, b);
    OlderMovesBack();
  }

  /** Two requests at one moment. */
  lemma {:induction false} TwoAnswers(cfg: Config, es: seq<Entry>, k: Key, l: Key, t: int)
    ensures Answers(cfg, es, [Request(k, t), Request(l, t)])
         == [Checked(cfg, es, k, t).1, Checked(cfg, AfterCheck(cfg, es, k, t), l, t).1]
  {
    var e, f := Request(k, t), Request(l, t);
    var u := AfterCheck(cfg, es, k, t);
    assert [e, f][1..] == [f] && [f][1..] == [];
    assert Answers(cfg, u, [f]) == [Checked(cfg, u, l, t).1] + Answers(cfg, Next(cfg, u, f), []);
  }

  /** Without the sweep: "c" pushes "b" out, and "b" is admitted again. */
  lemma {:induction false} Unswept(es: seq<Entry>)
    requires es == [Entry(Anonymous("b"), [1]), Entry(Anonymous("a"), [0])]
    ensures Answers(Config(1, 1, 2), es, [Request(Anonymous("c"), 60000), Request(Anonymous("b"), 60000)])
              == [Admitted, Admitted]
  {
    var cfg, b, c := Config(1, 1, 2), Anonymous("b"), Anonymous("c");
    var u := [es[1], Entry(c, [60000])];
    NewcomerJoins(cfg, es, c, 60000);
    assert LastOf(es + [Entry(c, [60000])], 2) == u;
    NewcomerJoins(cfg, u, b, 60000);
    TwoAnswers(cfg, es, c, b, 60000);
  }

  /** After the sweep: "c" finds room, and "b" is still refused. */
  lemma {:induction false} SweptMap(es: seq<Entry>)
    requires es == [Entry(Anonymous("b"), [1]), Entry(Anonymous("a"), [0])]
    ensures Answers(Config(1, 1, 2), Swept(es, 0), [Request(Anonymous("c"), 60000), Request(Anonymous("b"), 60000)])
              == [Admitted, Refused(1)]
  {
    var cfg, b, c := Config(1, 1, 2), Anonymous("b"), Anonymous("c");
    var u, last := [es[0]], Entry(c, [60000]);
    assert Swept(es, 0) == u by {
      assert es[1..] == [es[1]] && [es[1]][1..] == [];
    }
    NewcomerJoins(cfg, u, c, 60000);
    assert LastOf(u + [last], 2) == [es[0], last];
    RecentAll([1], 0);
    TwoAnswers(cfg, u, c, b, 60000);
  }

  /**
   * A sweep that changes an answer. A minute after "a" was admitted the sweep forgets it, so the
   * newcomer "c" finds room and "b" is still refused; without the sweep "c" pushes "b" out, and "b"
   * is admitted a second time within its minute.
   */
  lemma {:induction false} SweepShows()
    ensures var cfg, es := Config(1, 1, 2), Left(Config(1, 1, 2), [], Crowded());
            var b, c := Request(Anonymous("b"), 60000), Request(Anonymous("c"), 60000);
            && Answers(cfg, es, [c, b]) == [Admitted, Admitted]
            && Answers(cfg, es, [Timer(60000), c, b]) == [Admitted, Refused(1)]
            && !StaleFirst(es, 0)
  {
    CrowdedMap();
    var es := Left(Config(1, 1, 2), [], Crowded());
    Unswept(es);
    SweptMap(es);
    var rb, rc := Request(Anonymous("b"), 60000), Request(Anonymous("c"), 60000);
    assert [Timer(60000), rc, rb][1..] == [rc, rb];
    assert Stale(es[1], 0) && !Stale(es[0], 0);
  }

  // ---------------------------------------------------------------- runs without evictions

  function NoSweeps(evs: seq<Event>): (r: seq<Event>) {
    if evs == [] then [] else if evs[0].Request? then [evs[0]] + NoSweeps(evs[1..]) else NoSweeps(evs[1..])
  }

  predicate NoEvictions(cfg: Config, es: seq<Entry>, evs: seq<Event>)
    decreases |evs|
  {
    evs == [] ||
    ((evs[0].Request? ==> EvictedBy(cfg, es, evs[0].key, evs[0].t) == [])
     && NoEvictions(cfg, Next(cfg, es, evs[0]), evs[1..]))
  }

  lemma {:induction false} AnswerOfLog(cfg: Config, s: State, k: Key, t: int)
    requires ConfigOk(cfg) && Inv(cfg, s) && s.clock <= t
    ensures Checked(cfg, s.entries, k, t).1 == FullAnswer(Log(s, k), LimitOf(cfg, k), t)
  {
    RequestFacts(cfg, s, k, t);
  }

  /** Two limiters with the same full logs answer alike and keep the same full logs. */
  lemma {:induction false} SameLogs(cfg: Config, s: State, u: State, k: Key, t: int, x: Key)
    requires ConfigOk(cfg) && Inv(cfg, s) && Inv(cfg, u) && s.clock <= t && u.clock <= t
    requires Log(s, x) == Log(u, x) && Log(s, k) == Log(u, k)
    requires EvictedBy(cfg, s.entries, k, t) == [] && EvictedBy(cfg, u.entries, k, t) == []
    ensures Checked(cfg, s.entries, k, t).1 == Checked(cfg, u.entries, k, t).1
    ensures Log(Step(cfg, s, Request(k, t)), x) == Log(Step(cfg, u, Request(k, t)), x)
  {
    AnswerOfLog(cfg, s, k, t);
    AnswerOfLog(cfg, u, k, t);
    RequestLogs(cfg, s, k, t, x);
    RequestLogs(cfg, u, k, t, x);
  }

  /** As many keys as entries. */
  lemma {:induction false} KeyCount(es: seq<Entry>, asked: map<Key, nat>)
    requires InAskOrder(es, asked)
    ensures |Keys(es)| == |es|
  {
    if es == [] {
      assert Keys(es) == {};
    } else {
      OrderOfTail(es, asked);
      KeyCount(es[1..], asked);
      NotAmongLater(es[1..], asked, es[0].key);
      assert es == [es[0]] + es[1..];
      assert Keys(es) == Keys(es[1..]) + {es[0].key};
    }
  }

  lemma {:induction false} SubsetSize(a: set<Key>, b: set<Key>)
    requires a <= b
    ensures |a| <= |b|
  {
    if a != {} {
      var x :| x in a;
      SubsetSize(a - {x}, b - {x});
    }
  }

  /** The keys after a request, before the ceiling is applied. */
  lemma {:induction false} KeysChecked(cfg: Config, s: State, k: Key, t: int)
    requires ConfigOk(cfg) && Inv(cfg, s) && s.clock <= t
    ensures var us := Checked(cfg, s.entries, k, t).0;
            Keys(us) == Keys(s.entries) + {k} && |us| == |Keys(us)|
  {
    var us := Checked(cfg, s.entries, k, t).0;
    CheckedKeeps(cfg, s, k, t);
    KeyCount(us, s.lastAsk[k := s.asks]);
    WithoutKey(s.entries, k, s.lastAsk);
    assert us == Without(s.entries, k) + [us[|us| - 1]] && us[|us| - 1].key == k;
    assert us[|us| - 1] in us;
    forall x ensures x in Keys(us) <==> x in Keys(s.entries) + {k} {
      if x in Keys(s.entries) && x != k {
        var e :| e in s.entries && e.key == x;
        assert e in us;
      }
    }
  }

  /** Fewer keys fit where more keys do. */
  lemma {:induction false} FitsToo(cfg: Config, s: State, u: State, k: Key, t: int)
    requires ConfigOk(cfg) && Inv(cfg, s) && Inv(cfg, u) && s.clock <= t && u.clock <= t
    requires Keys(s.entries) <= Keys(u.entries) && EvictedBy(cfg, u.entries, k, t) == []
    requires Checked(cfg, s.entries, k, t).1 == Checked(cfg, u.entries, k, t).1
    ensures EvictedBy(cfg, s.entries, k, t) == []
    ensures Keys(AfterCheck(cfg, s.entries, k, t)) <= Keys(AfterCheck(cfg, u.entries, k, t))
  {
    KeysChecked(cfg, s, k, t);
    KeysChecked(cfg, u, k, t);
    SubsetSize(Keys(Checked(cfg, s.entries, k, t).0), Keys(Checked(cfg, u.entries, k, t).0));
    EvictedAndKept(cfg, s.entries, k, t);
    EvictedAndKept(cfg, u.entries, k, t);
  }

  /**
   * As long as the ceiling evicts nothing, the sweeps of the timer never change an answer, wherever
   * they fall. It is enough that the limiter without sweeps evicts nothing: with them it holds less.
   */
  lemma {:induction false} SweepsAreInvisible(cfg: Config, s: State, u: State, evs: seq<Event>)
    requires ConfigOk(cfg) && Inv(cfg, s) && Inv(cfg, u) && u.clock <= s.clock && Timely(evs, s.clock)
    requires (forall k :: Log(s, k) == Log(u, k)) && Keys(s.entries) <= Keys(u.entries)
    requires NoEvictions(cfg, u.entries, NoSweeps(evs))
    ensures Answers(cfg, s.entries, evs) == Answers(cfg, u.entries, NoSweeps(evs))
    decreases |evs|
  {
    if evs != [] {
      var e := evs[0];
      match e {
        case Timer(t) =>
          TimerKeeps(cfg, s, t);
          SweptIsPart(s.entries, t - WINDOW_MS);
          SweepsAreInvisible(cfg, Step(cfg, s, e), u, evs[1..]);
        case Request(k, t) =>
          AnswerOfLog(cfg, s, k, t);
          AnswerOfLog(cfg, u, k, t);
          RequestKeeps(cfg, s, k, t);
          RequestKeeps(cfg, u, k, t);
          assert NoSweeps(evs)[0] == e && NoSweeps(evs)[1..] == NoSweeps(evs[1..]);
          FitsToo(cfg, s, u, k, t);
          forall x ensures Log(Step(cfg, s, e), x) == Log(Step(cfg, u, e), x) {
            SameLogs(cfg, s, u, k, t, x);
          }
          SweepsAreInvisible(cfg, Step(cfg, s, e), Step(cfg, u, e), evs[1..]);
      }
    }
  }

  /** The clients that ask. */
  function Asking(evs: seq<Event>): (ks: set<Key>) { set e | e in evs && e.Request? :: e.key }

  lemma {:induction false} FewClientsFit(cfg: Config, s: State, evs: seq<Event>, ks: set<Key>)
    requires ConfigOk(cfg) && Inv(cfg, s) && Timely(evs, s.clock)
    requires Keys(s.entries) <= ks && Asking(evs) <= ks && |ks| <= cfg.maxClients
    ensures NoEvictions(cfg, s.entries, evs)
    decreases |evs|
  {
    if evs != [] {
      var e := evs[0];
      assert e in evs && forall f :: f in evs[1..] ==> f in evs;
      match e {
        case Timer(t) =>
          TimerKeeps(cfg, s, t);
          SweptIsPart(s.entries, t - WINDOW_MS);
        case Request(k, t) =>
          RequestKeeps(cfg, s, k, t);
          KeysChecked(cfg, s, k, t);
          SubsetSize(Keys(Checked(cfg, s.entries, k, t).0), ks);
          EvictedAndKept(cfg, s.entries, k, t);
      }
      FewClientsFit(cfg, Step(cfg, s, e), evs[1..], ks);
    }
  }

  lemma {:induction false} WithoutSweeps(evs: seq<Event>, from: int)
    requires Timely(evs, from)
    ensures Asking(NoSweeps(evs)) == Asking(evs) && (forall t :: t <= from ==> Timely(NoSweeps(evs), t))
  {
    if evs != [] {
      WithoutSweeps(evs[1..], evs[0].t);
      assert evs == [evs[0]] + evs[1..];
      assert Asking(evs) == Asking(evs[1..]) + if evs[0].Request? then {evs[0].key} else {};
      if evs[0].Request? {
        var r := [evs[0]] + NoSweeps(evs[1..]);
        assert r[1..] == NoSweeps(evs[1..]);
        assert Asking(r) == Asking(NoSweeps(evs[1..])) + {evs[0].key};
      }
    }
  }

  /** What a caller can check: at most maxClients different clients never notice a sweep. */
  lemma {:induction false} FewClientsNeverNotice(cfg: Config, evs: seq<Event>)
    requires ConfigOk(cfg) && Timely(evs, 0) && |Asking(evs)| <= cfg.maxClients
    ensures Answers(cfg, [], evs) == Answers(cfg, [], NoSweeps(evs))
  {
    RunKeeps(cfg, START, []);
    WithoutSweeps(evs, 0);
    assert Keys([]) == {};
    FewClientsFit(cfg, START, NoSweeps(evs), Asking(evs));
    SweepsAreInvisible(cfg, START, START, evs);
  }
}
