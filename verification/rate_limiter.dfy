/**
 * createRateLimiter (apps/console/server/stand-server.ts:2055-2088): a sliding minute for each key,
 * with a ceiling on the number of keys and a background sweep.
 *
 * The ghost log keeps every admission of a key since the key was last evicted; the limiter keeps
 * only what the last minute needs. The contracts say that the answers are those of the full log.
 */
module RateLimiter {
  import opened Common
  import opened Text
  import ClientKey

  const WINDOW_MS := 60000

  /** `auth|address` or `anon|address`. */
  datatype Key = Key(auth: bool, address: string)

  datatype Decision = Admitted | Refused(retryAfterSeconds: int)

  /** `list.filter((x) => x > edge)`. */
  function Recent(list: seq<int>, edge: int): (r: seq<int>) {
    if list == [] then []
    else if list[0] > edge then [list[0]] + Recent(list[1..], edge)
    else Recent(list[1..], edge)
  }

  predicate Sorted(list: seq<int>) { forall i, j :: 0 <= i < j < |list| ==> list[i] <= list[j] }

  /** Entry `i` and the one `limit` later are at least a minute apart. */
  predicate Apart(log: seq<int>, limit: nat, i: int) {
    0 <= i && i + limit < |log| ==> log[i] + WINDOW_MS <= log[i + limit]
  }

  /** Any `limit + 1` successive admissions span at least a minute. */
  ghost predicate Spaced(log: seq<int>, limit: nat) { forall i :: Apart(log, limit, i) }

  /** `list` is what is left of `log` after dropping some entries at its front that `edge` has passed. */
  predicate Rest(log: seq<int>, list: seq<int>, edge: int) {
    && |list| <= |log|
    && list == log[|log| - |list|..]
    && forall i :: 0 <= i < |log| - |list| ==> log[i] <= edge
  }

  lemma {:induction false} RecentOfSorted(list: seq<int>, edge: int)
    requires Sorted(list)
    ensures Rest(list, Recent(list, edge), edge)
    ensures forall x :: x in Recent(list, edge) ==> x > edge
  {
    if list != [] {
      if list[0] > edge {
        RecentAll(list, edge);
      } else {
        RecentOfSorted(list[1..], edge);
        var r := Recent(list[1..], edge);
        assert list[|list| - |r|..] == list[1..][|list| - 1 - |r|..];
        forall i | 0 <= i < |list| - |r| ensures list[i] <= edge {
          if i > 0 {
            assert list[i] == list[1..][i - 1];
          }
        }
      }
    }
  }

  lemma {:induction false} RecentAll(list: seq<int>, edge: int)
    requires forall i :: 0 <= i < |list| ==> list[i] > edge
    ensures Recent(list, edge) == list
  {
    if list != [] {
      RecentAll(list[1..], edge);
    }
  }

  lemma {:induction false} RecentDropsFront(log: seq<int>, list: seq<int>, edge: int, later: int)
    requires Rest(log, list, edge) && edge <= later
    ensures Recent(log, later) == Recent(list, later)
    decreases |log|
  {
    if |list| == |log| {
      assert log == list;
    } else {
      assert log[0] <= edge;
      assert log[1..][|log| - 1 - |list|..] == list;
      assert forall i :: 0 <= i < |log| - 1 - |list| ==> log[1..][i] == log[i + 1];
      RecentDropsFront(log[1..], list, edge, later);
    }
  }

  /** How long a refused client is told to wait: until the admission that must leave the window does. */
  function RetryAfter(list: seq<int>, limit: nat, t: int): (s: int)
    requires 1 <= limit <= |list|
  {
    Max(1, CeilDiv(list[|list| - limit] + WINDOW_MS - t, 1000))
  }

  /** The full log admits a request exactly when fewer than `limit` of its entries lie in the last minute. */
  predicate Admits(log: seq<int>, limit: nat, t: int) { |Recent(log, t - WINDOW_MS)| < limit }

  // ---------------------------------------------------------------- theorems about the full log

  /** Any admissions that lie less than a minute apart are at most `limit` many. */
  lemma {:induction false} NoMinuteExceeds(log: seq<int>, limit: nat)
    requires Sorted(log) && Spaced(log, limit)
    ensures forall i, j :: 0 <= i <= j < |log| && log[j] - log[i] < WINDOW_MS ==> j - i + 1 <= limit
  {
    forall i, j | 0 <= i <= j < |log| && j - i + 1 > limit ensures log[j] - log[i] >= WINDOW_MS {
      assert Apart(log, limit, i) && log[i + limit] <= log[j];
    }
  }

  lemma {:induction false} RecentCount(log: seq<int>, limit: nat, t: int)
    requires Sorted(log) && 1 <= limit
    ensures |Recent(log, t)| < limit <==> (|log| < limit || log[|log| - limit] <= t)
  {
    RecentOfSorted(log, t);
    var r := Recent(log, t);
    if |log| >= limit {
      var k := |log| - limit;
      if |r| >= limit {
        assert log[k] == r[k - (|log| - |r|)];
        assert r[k - (|log| - |r|)] in r;
      }
    }
  }

  /** The admission that must leave the window is the same in the full log and in its recent part. */
  lemma {:induction false} BlockingEntry(log: seq<int>, limit: nat, t: int)
    requires Sorted(log) && limit >= 1 && !Admits(log, limit, t)
    ensures var list := Recent(log, t - WINDOW_MS);
            limit <= |list| <= |log| && log[|log| - limit] == list[|list| - limit] > t - WINDOW_MS
  {
    RecentOfSorted(log, t - WINDOW_MS);
    RestFromTheEnd(log, Recent(log, t - WINDOW_MS), t - WINDOW_MS, limit);
  }

  lemma {:induction false} RestFromTheEnd(log: seq<int>, list: seq<int>, edge: int, limit: nat)
    requires Rest(log, list, edge) && 1 <= limit <= |list| && forall x :: x in list ==> x > edge
    ensures log[|log| - limit] == list[|list| - limit] > edge
  {
    assert list[|list| - limit] in list;
  }

  /**
   * A refused client that waits as many seconds as it was told is admitted, if nothing else was
   * admitted under its key in between; and it is still refused after any whole number of seconds
   * less.
   */
  lemma {:induction false} WaitIsExact(log: seq<int>, limit: nat, t: int)
    requires Sorted(log) && limit >= 1 && !Admits(log, limit, t)
    ensures var list := Recent(log, t - WINDOW_MS);
            && limit <= |list|
            && (var s := RetryAfter(list, limit, t);
                && s >= 1
                && Admits(log, limit, t + 1000 * s)
                && forall w :: 0 <= w < s ==> !Admits(log, limit, t + 1000 * w))
  {
    var list := Recent(log, t - WINDOW_MS);
    BlockingEntry(log, limit, t);
    var s := RetryAfter(list, limit, t);
    RecentCount(log, limit, t + 1000 * s - WINDOW_MS);
    forall w | 0 <= w < s ensures !Admits(log, limit, t + 1000 * w) {
      RecentCount(log, limit, t + 1000 * w - WINDOW_MS);
    }
  }

  // ---------------------------------------------------------------- the limiter

  datatype Headers = Headers(authorization: Option<string>, forwardedFor: Option<string>)

  /** The key of a request: the header names the client only behind a trusted proxy. */
  function KeyOf(trustProxy: bool, headers: Headers, remoteAddress: Option<string>): (k: Key)
    ensures !trustProxy ==>
              k.address == ClientKey.ClientKeyOf(if remoteAddress.Some? then remoteAddress.value else "unknown")
    ensures k.auth <==> headers.authorization.Some? && headers.authorization.value != ""
  {
    var auth := headers.authorization.Some? && headers.authorization.value != "";
    var forwarded := if headers.forwardedFor.Some? then Trim(Split(headers.forwardedFor.value, ',')[0]) else "";
    Key(auth, ClientKey.ClientKeyOf(
                if trustProxy && forwarded != "" then forwarded
                else if remoteAddress.Some? then remoteAddress.value else "unknown"))
  }

  /** Behind a trusted proxy the first address that the header names is the client, unless it is blank. */
  lemma {:induction false} FirstForwardedIsTheClient(headers: Headers, remoteAddress: Option<string>, first: string,
          rest: string)
    requires ',' !in first && headers.forwardedFor in {Some(first), Some(first + "," + rest)}
    ensures KeyOf(true, headers, remoteAddress).address
         == if Blank(first) then KeyOf(false, headers, remoteAddress).address else ClientKey.ClientKeyOf(Trim(first))
  {
    IndexAfter(first, ',', "");
    assert first + "" == first;
    IndexAfter(first, ',', "," + rest);
    assert first + "," + rest == first + ("," + rest);
    assert (first + ("," + rest))[..|first|] == first;
    assert Split(headers.forwardedFor.value, ',')[0] == first;
  }

  // ---------------------------------------------------------------- one step, on values

  /** An entry of the JavaScript Map `hits`; the entries stand in insertion order. */
  datatype Entry = Entry(key: Key, times: seq<int>)

  /** `hits.get(k) ?? []`. */
  function Find(es: seq<Entry>, k: Key): (r: seq<int>) {
    if es == [] then [] else if es[0].key == k then es[0].times else Find(es[1..], k)
  }

  /** `hits.delete(k)`. */
  function Without(es: seq<Entry>, k: Key): (r: seq<Entry>)
    ensures |r| <= |es|
  {
    if es == [] then [] else if es[0].key == k then es[1..] else [es[0]] + Without(es[1..], k)
  }

  /** One step of the search for `k` at entry `i`. */
  lemma {:induction false} WithoutStep(es: seq<Entry>, i: nat, k: Key)
    requires i < |es|
    ensures es[..i] + Without(es[i..], k)
         == if es[i].key == k then es[..i] + es[i + 1..] else es[..i + 1] + Without(es[i + 1..], k)
  {
    assert es[i..][0] == es[i] && es[i..][1..] == es[i + 1..];
    if es[i].key != k {
      assert es[..i + 1] == es[..i] + [es[i]];
      assert es[..i] + ([es[i]] + Without(es[i + 1..], k)) == (es[..i] + [es[i]]) + Without(es[i + 1..], k);
    }
  }

  predicate Stale(e: Entry, edge: int) { e.times != [] && e.times[|e.times| - 1] <= edge }

  function Swept(es: seq<Entry>, edge: int): (r: seq<Entry>)
    ensures |r| <= |es|
  {
    if es == [] then []
    else if Stale(es[0], edge) then Swept(es[1..], edge)
    else [es[0]] + Swept(es[1..], edge)
  }

  /** A sweep at `t` forgets exactly the keys whose last admission is a minute old. */
  lemma {:induction false} SweepForgets(es: seq<Entry>, t: int, e: Entry)
    ensures e in Swept(es, t - WINDOW_MS) <==>
            e in es && (e.times == [] || t - e.times[|e.times| - 1] < 60000)
  {
    if es != [] {
      SweepForgets(es[1..], t, e);
      assert es == [es[0]] + es[1..];
    }
  }

  /** One step of the sweep at entry `i`: the entry goes, or it is passed over. */
  lemma {:induction false} SweepStep(es: seq<Entry>, i: nat, edge: int)
    requires i < |es|
    ensures var less := es[..i] + es[i + 1..];
            es[..i] + Swept(es[i..], edge)
            == if Stale(es[i], edge) then less[..i] + Swept(less[i..], edge) else es[..i + 1] + Swept(es[i + 1..], edge)
  {
    var less, rest := es[..i] + es[i + 1..], Swept(es[i + 1..], edge);
    assert es[i..][0] == es[i] && es[i..][1..] == es[i + 1..];
    if Stale(es[i], edge) {
      assert less[..i] == es[..i] && less[i..] == es[i + 1..];
    } else {
      assert es[..i + 1] == es[..i] + [es[i]];
      assert es[..i] + ([es[i]] + rest) == (es[..i] + [es[i]]) + rest;
    }
  }

  datatype Config = Config(authorizedPerMinute: nat, anonymousPerMinute: nat, maxClients: nat)

  function LimitOf(cfg: Config, k: Key): (n: nat) { if k.auth then cfg.authorizedPerMinute else cfg.anonymousPerMinute }

  /** The entries after a request, before the ceiling is applied, and the answer. */
  function Checked(cfg: Config, es: seq<Entry>, k: Key, t: int): (r: (seq<Entry>, Decision)) {
    var limit := LimitOf(cfg, k);
    var list := Recent(Find(es, k), t - WINDOW_MS);
    if limit >= 1 && |list| >= limit then (Without(es, k) + [Entry(k, list)], Refused(RetryAfter(list, limit, t)))
    else (Without(es, k) + [Entry(k, list + [t])], Admitted)
  }

  /** How many entries the ceiling evicts, at the front. */
  function Excess(cfg: Config, es: seq<Entry>, d: Decision): (n: nat)
    ensures n <= |es|
  {
    if d.Admitted? && |es| > cfg.maxClients then |es| - cfg.maxClients else 0
  }

  function AfterCheck(cfg: Config, es: seq<Entry>, k: Key, t: int): (r: seq<Entry>) {
    var (us, d) := Checked(cfg, es, k, t);
    us[Excess(cfg, us, d)..]
  }

  /** The keys evicted by a request. */
  function EvictedBy(cfg: Config, es: seq<Entry>, k: Key, t: int): (r: seq<Entry>) {
    var (us, d) := Checked(cfg, es, k, t);
    us[..Excess(cfg, us, d)]
  }

  /** The limiter with its fields and loops. */
  class Limiter {
    const cfg: Config
    const trustProxy: bool
    var hits: seq<Entry>

    constructor (cfg: Config, trustProxy: bool)
      ensures hits == [] && this.cfg == cfg && this.trustProxy == trustProxy
    {
      this.cfg, this.trustProxy := cfg, trustProxy;
      hits := [];
    }

    method Delete(k: Key)
      modifies this`hits
      ensures hits == Without(old(hits), k)
    {
      var i := 0;
      while i < |hits| && hits[i].key != k
        invariant 0 <= i <= |hits| && hits == old(hits)
        invariant hits[..i] + Without(hits[i..], k) == Without(hits, k)
      {
        WithoutStep(hits, i, k);
        i := i + 1;
      }
      if i < |hits| {
        WithoutStep(hits, i, k);
        hits := hits[..i] + hits[i + 1..];
      } else {
        assert hits[i..] == [] && hits[..i] == hits;
      }
    }

    /** The timer's sweep. */
    method Sweep(now: int)
      modifies this`hits
      ensures hits == Swept(old(hits), now - WINDOW_MS)
    {
      var edge := now - WINDOW_MS;
      var i := 0;
      while i < |hits|
        invariant 0 <= i <= |hits|
        invariant hits[..i] + Swept(hits[i..], edge) == Swept(old(hits), edge)
        decreases |hits| - i
      {
        SweepStep(hits, i, edge);
        if Stale(hits[i], edge) {
          hits := hits[..i] + hits[i + 1..];
        } else {
          i := i + 1;
        }
      }
      assert hits[i..] == [] && hits[..i] == hits;
    }

    /** The request check; `t` is what the clock shows. */
    method Check(headers: Headers, remoteAddress: Option<string>, t: int) returns (d: Decision)
      requires cfg.authorizedPerMinute >= 1 && cfg.anonymousPerMinute >= 1
      modifies this`hits
      ensures var k := KeyOf(trustProxy, headers, remoteAddress);
              && d == Checked(cfg, old(hits), k, t).1
              && hits == AfterCheck(cfg, old(hits), k, t)
      ensures d.Admitted? ==> Size() <= cfg.maxClients
    {
      var key := KeyOf(trustProxy, headers, remoteAddress);
      var limit := LimitOf(cfg, key);
      var list := Recent(Find(hits, key), t - WINDOW_MS);
      Delete(key);
      if |list| >= limit {
        hits := hits + [Entry(key, list)];
        return Refused(RetryAfter(list, limit, t));
      }
      hits := hits + [Entry(key, list + [t])];
      ghost var full := hits;
      while |hits| > cfg.maxClients
        invariant |hits| <= |full| && hits == full[|full| - |hits|..]
        invariant |hits| == |full| || |hits| >= cfg.maxClients
        decreases |hits|
      {
        hits := hits[1..];
      }
      d := Admitted;
    }

    function Size(): (n: nat)
      reads this
    {
      |hits|
    }
  }

  // ---------------------------------------------------------------- refinement of the full log

  /**
   * The limiter with its history: the full log of each key since its last eviction, the number of
   * the request that last asked for it, and the latest time seen.
   */
  datatype State = State(entries: seq<Entry>, log: map<Key, seq<int>>, lastAsk: map<Key, nat>, asks: nat, clock: int)

  datatype Event = Request(key: Key, t: int) | Timer(t: int)

  function Log(s: State, k: Key): (r: seq<int>) { if k in s.log then s.log[k] else [] }

  function AskOf(asked: map<Key, nat>, k: Key): (n: nat) { if k in asked then asked[k] else 0 }

  function Keys(es: seq<Entry>): (r: set<Key>) { set e | e in es :: e.key }

  function Step(cfg: Config, s: State, e: Event): (r: State) {
    match e
    case Timer(t) => s.(entries := Swept(s.entries, t - WINDOW_MS), clock := t)
    case Request(k, t) =>
      var d := Checked(cfg, s.entries, k, t).1;
      var evicted := EvictedBy(cfg, s.entries, k, t);
      var logged := if d.Admitted? then s.log[k := Log(s, k) + [t]] else s.log;
      State(AfterCheck(cfg, s.entries, k, t),
            map x | x in logged && x !in Keys(evicted) :: logged[x],
            s.lastAsk[k := s.asks], s.asks + 1, t)
  }

  function Run(cfg: Config, s: State, es: seq<Event>): (r: State)
    decreases |es|
  {
    if es == [] then s else Run(cfg, Step(cfg, s, es[0]), es[1..])
  }

  /** The clock does not go back. */
  predicate Timely(es: seq<Event>, from: int) { es == [] || (es[0].t >= from && Timely(es[1..], es[0].t)) }

  predicate ConfigOk(cfg: Config) { cfg.authorizedPerMinute >= 1 && cfg.anonymousPerMinute >= 1 }

  ghost predicate LogOk(cfg: Config, log: seq<int>, kept: seq<int>, k: Key, clock: int) {
    && Sorted(log) && (forall x :: x in log ==> x <= clock)
    && Spaced(log, LimitOf(cfg, k))
    && Rest(log, kept, clock - WINDOW_MS)
  }

  /** The entries stand in the order in which their keys were last asked for; so no key stands twice. */
  predicate InAskOrder(es: seq<Entry>, asked: map<Key, nat>) {
    forall i, j :: 0 <= i < j < |es| ==> AskOf(asked, es[i].key) < AskOf(asked, es[j].key)
  }

  /** Every key of `es` was asked for after `k`. */
  predicate AllLater(k: Key, es: seq<Entry>, asked: map<Key, nat>) {
    forall e :: e in es ==> AskOf(asked, k) < AskOf(asked, e.key)
  }

  ghost predicate LogOkAt(cfg: Config, s: State, k: Key) { LogOk(cfg, Log(s, k), Find(s.entries, k), k, s.clock) }

  ghost predicate Inv(cfg: Config, s: State) {
    && |s.entries| <= cfg.maxClients
    && InAskOrder(s.entries, s.lastAsk)
    && (forall e :: e in s.entries ==> e.times != [] && AskOf(s.lastAsk, e.key) < s.asks)
    && (forall k :: LogOkAt(cfg, s, k))
  }

  lemma {:induction false} FindNone(es: seq<Entry>, k: Key)
    requires k !in Keys(es)
    ensures Find(es, k) == []
  {
    if es != [] {
      assert es[0] in es && es[0].key in Keys(es);
      assert Keys(es[1..]) <= Keys(es);
      FindNone(es[1..], k);
    }
  }

  /** The list of a key in a Map of two parts. */
  lemma {:induction false} FindConcat(a: seq<Entry>, b: seq<Entry>, x: Key)
    ensures Find(a + b, x) == if x in Keys(a) then Find(a, x) else Find(b, x)
  {
    if a == [] {
      assert a + b == b;
    } else {
      assert a + b == [a[0]] + (a[1..] + b) && a == [a[0]] + a[1..];
      assert a[0] in a && a[0].key in Keys(a);
      assert forall y :: y in Keys(a) <==> y == a[0].key || y in Keys(a[1..]);
      FindCons(a[0], a[1..] + b, x);
      FindConcat(a[1..], b, x);
    }
  }

  lemma {:induction false} FindCons(e: Entry, es: seq<Entry>, x: Key)
    ensures Find([e] + es, x) == if e.key == x then e.times else Find(es, x)
  {
    assert ([e] + es)[1..] == es;
  }

  lemma {:induction false} OrderOfTail(es: seq<Entry>, asked: map<Key, nat>)
    requires InAskOrder(es, asked) && es != []
    ensures InAskOrder(es[1..], asked) && AllLater(es[0].key, es[1..], asked)
  {
  }

  lemma {:induction false} OrderOfCons(e: Entry, es: seq<Entry>, asked: map<Key, nat>)
    requires InAskOrder(es, asked) && AllLater(e.key, es, asked)
    ensures InAskOrder([e] + es, asked)
  {
  }

  lemma {:induction false} NotAmongLater(es: seq<Entry>, asked: map<Key, nat>, k: Key)
    requires AllLater(k, es, asked)
    ensures k !in Keys(es) && Find(es, k) == []
  {
    FindNone(es, k);
  }

  lemma {:induction false} WithoutKey(es: seq<Entry>, k: Key, asked: map<Key, nat>)
    requires InAskOrder(es, asked)
    ensures InAskOrder(Without(es, k), asked)
    ensures forall e :: e in Without(es, k) <==> e in es && e.key != k
    ensures k in Keys(es) ==> |Without(es, k)| == |es| - 1
  {
    if es != [] {
      assert es == [es[0]] + es[1..];
      OrderOfTail(es, asked);
      if es[0].key == k {
        NotAmongLater(es[1..], asked, k);
      } else {
        WithoutKey(es[1..], k, asked);
        OrderOfCons(es[0], Without(es[1..], k), asked);
      }
    }
  }

  lemma {:induction false} FindWithout(es: seq<Entry>, k: Key, asked: map<Key, nat>, x: Key)
    requires InAskOrder(es, asked)
    ensures Find(Without(es, k), x) == if x == k then [] else Find(es, x)
  {
    if es != [] {
      OrderOfTail(es, asked);
      if es[0].key == k {
        NotAmongLater(es[1..], asked, k);
      } else {
        FindWithout(es[1..], k, asked, x);
        FindCons(es[0], Without(es[1..], k), x);
      }
    }
  }

  lemma {:induction false} AppendAsked(es: seq<Entry>, e: Entry, asked: map<Key, nat>)
    requires InAskOrder(es, asked) && forall x :: x in es ==> AskOf(asked, x.key) < AskOf(asked, e.key)
    ensures InAskOrder(es + [e], asked)
  {
    assert forall i :: 0 <= i < |es| ==> es[i] in es;
  }

  /** Asking for a key that has no entry leaves the order of the entries alone. */
  lemma {:induction false} AskElsewhere(es: seq<Entry>, asked: map<Key, nat>, k: Key, n: nat)
    requires InAskOrder(es, asked) && forall e :: e in es ==> e.key != k
    ensures InAskOrder(es, asked[k := n])
  {
    assert forall i :: 0 <= i < |es| ==> es[i] in es;
    assert forall e :: e in es ==> AskOf(asked[k := n], e.key) == AskOf(asked, e.key);
  }

  /** Dropping entries at the front drops the keys asked for longest ago. */
  lemma {:induction false} DropFront(es: seq<Entry>, front: seq<Entry>, back: seq<Entry>, asked: map<Key, nat>)
    requires InAskOrder(es, asked) && es == front + back
    ensures InAskOrder(back, asked)
    ensures forall e :: e in front ==> AllLater(e.key, back, asked)
  {
    assert forall j :: 0 <= j < |back| ==> es[|front| + j] == back[j];
    assert forall i :: 0 <= i < |front| ==> es[i] == front[i];
  }

  lemma {:induction false} FindDropped(es: seq<Entry>, front: seq<Entry>, back: seq<Entry>, asked: map<Key, nat>,
          x: Key)
    requires InAskOrder(es, asked) && es == front + back
    ensures Find(back, x) == if x in Keys(front) then [] else Find(es, x)
  {
    DropFront(es, front, back, asked);
    FindConcat(front, back, x);
    if x in Keys(front) {
      var e :| e in front && e.key == x;
      NotAmongLater(back, asked, x);
    }
  }

  lemma {:induction false} SweptOrder(es: seq<Entry>, edge: int, asked: map<Key, nat>)
    requires InAskOrder(es, asked)
    ensures InAskOrder(Swept(es, edge), asked)
    ensures forall e :: e in Swept(es, edge) ==> e in es
  {
    if es != [] {
      OrderOfTail(es, asked);
      SweptOrder(es[1..], edge, asked);
      if !Stale(es[0], edge) {
        OrderOfCons(es[0], Swept(es[1..], edge), asked);
      }
    }
  }

  /** A list survives the sweep, or the edge has passed its last entry. */
  predicate SurvivesOrStale(before: seq<int>, after: seq<int>, edge: int) {
    after == before || (after == [] && before != [] && before[|before| - 1] <= edge)
  }

  lemma {:induction false} SweptFind(es: seq<Entry>, edge: int, asked: map<Key, nat>, x: Key)
    requires InAskOrder(es, asked)
    ensures SurvivesOrStale(Find(es, x), Find(Swept(es, edge), x), edge)
  {
    if es != [] {
      var rest, r := es[1..], Swept(es[1..], edge);
      OrderOfTail(es, asked);
      SweptFind(rest, edge, asked, x);
      if !Stale(es[0], edge) {
        FindCons(es[0], r, x);
      } else if es[0].key == x {
        SweptOrder(rest, edge, asked);
        NotAmongLater(r, asked, x);
      }
    }
  }

  lemma {:induction false} EdgeMoves(log: seq<int>, list: seq<int>, edge: int, later: int)
    requires Rest(log, list, edge) && edge <= later
    ensures Rest(log, list, later)
  {
  }

  /** Forgetting a list whose last entry the edge has passed leaves a rest of the log. */
  lemma {:induction false} SweptRest(log: seq<int>, before: seq<int>, after: seq<int>, edge: int, later: int)
    requires Sorted(log) && Rest(log, before, edge) && edge <= later
    requires SurvivesOrStale(before, after, later)
    ensures Rest(log, after, later)
  {
    if after != before {
      assert log[|log| - 1] == before[|before| - 1];
    }
  }

  lemma {:induction false} LogOkSwept(cfg: Config, log: seq<int>, before: seq<int>, after: seq<int>, k: Key,
          clock: int, t: int)
    requires LogOk(cfg, log, before, k, clock) && clock <= t
    requires SurvivesOrStale(before, after, t - WINDOW_MS)
    ensures LogOk(cfg, log, after, k, t)
  {
    SweptRest(log, before, after, clock - WINDOW_MS, t - WINDOW_MS);
  }

  lemma {:induction false} TimerKeepsLog(cfg: Config, s: State, t: int, k: Key)
    requires Inv(cfg, s) && s.clock <= t
    ensures LogOkAt(cfg, Step(cfg, s, Timer(t)), k)
  {
    var swept := Swept(s.entries, t - WINDOW_MS);
    assert LogOkAt(cfg, s, k);
    SweptFind(s.entries, t - WINDOW_MS, s.lastAsk, k);
    LogOkSwept(cfg, Log(s, k), Find(s.entries, k), Find(swept, k), k, s.clock, t);
    assert Step(cfg, s, Timer(t)) == s.(entries := swept, clock := t);
  }

  lemma {:induction false} TimerKeeps(cfg: Config, s: State, t: int)
    requires Inv(cfg, s) && s.clock <= t
    ensures Inv(cfg, Step(cfg, s, Timer(t)))
  {
    var u := Step(cfg, s, Timer(t));
    SweptOrder(s.entries, t - WINDOW_MS, s.lastAsk);
    forall k ensures LogOkAt(cfg, u, k) {
      TimerKeepsLog(cfg, s, t, k);
    }
  }

  /** One more admission keeps a log sorted and spaced when fewer than `limit` lie in the last minute. */
  lemma {:induction false} Admission(log: seq<int>, limit: nat, t: int)
    requires Sorted(log) && Spaced(log, limit) && limit >= 1 && Admits(log, limit, t)
    requires forall i :: 0 <= i < |log| ==> log[i] <= t
    ensures Sorted(log + [t]) && Spaced(log + [t], limit)
    ensures Rest(log + [t], Recent(log, t - WINDOW_MS) + [t], t - WINDOW_MS)
  {
    RecentCount(log, limit, t - WINDOW_MS);
    RecentOfSorted(log, t - WINDOW_MS);
    forall i ensures Apart(log + [t], limit, i) {
      assert Apart(log, limit, i);
    }
  }

  /** The pruned list decides like the full log, and both stay good whatever is decided. */
  lemma {:induction false} PrunedDecides(cfg: Config, log: seq<int>, kept: seq<int>, k: Key, clock: int, t: int)
    requires ConfigOk(cfg) && LogOk(cfg, log, kept, k, clock) && clock <= t
    ensures var list := Recent(kept, t - WINDOW_MS);
            && list == Recent(log, t - WINDOW_MS)
            && (if Admits(log, LimitOf(cfg, k), t) then LogOk(cfg, log + [t], list + [t], k, t)
                else LogOk(cfg, log, list, k, t) && list != [])
  {
    assert forall i :: 0 <= i < |log| ==> log[i] in log;
    RecentDropsFront(log, kept, clock - WINDOW_MS, t - WINDOW_MS);
    if Admits(log, LimitOf(cfg, k), t) {
      Admission(log, LimitOf(cfg, k), t);
    } else {
      RecentOfSorted(log, t - WINDOW_MS);
    }
  }

  /** Why the pruned list decides like the full log, and why the log stays spaced. */
  lemma {:induction false} RequestFacts(cfg: Config, s: State, k: Key, t: int)
    requires ConfigOk(cfg) && Inv(cfg, s) && s.clock <= t
    ensures var list := Recent(Find(s.entries, k), t - WINDOW_MS);
            var (_, d) := Checked(cfg, s.entries, k, t);
            && list == Recent(Log(s, k), t - WINDOW_MS)
            && (d.Admitted? <==> Admits(Log(s, k), LimitOf(cfg, k), t))
            && (d.Refused? ==> LogOk(cfg, Log(s, k), list, k, t) && list != [])
            && (d.Admitted? ==> LogOk(cfg, Log(s, k) + [t], list + [t], k, t))
  {
    assert LogOkAt(cfg, s, k);
    PrunedDecides(cfg, Log(s, k), Find(s.entries, k), k, s.clock, t);
  }

  lemma {:induction false} CheckedFind(cfg: Config, s: State, k: Key, t: int, x: Key)
    requires Inv(cfg, s)
    ensures var (us, d) := Checked(cfg, s.entries, k, t);
            var list := Recent(Find(s.entries, k), t - WINDOW_MS);
            Find(us, x) == if x != k then Find(s.entries, x) else if d.Admitted? then list + [t] else list
  {
    var (us, d) := Checked(cfg, s.entries, k, t);
    var rest, last := Without(s.entries, k), us[|us| - 1];
    WithoutKey(s.entries, k, s.lastAsk);
    FindWithout(s.entries, k, s.lastAsk, x);
    FindConcat(rest, [last], x);
    FindCons(last, [], x);
    assert [last] + [] == [last] && us == rest + [last];
    if x in Keys(rest) {
      var e :| e in rest && e.key == x;
    } else {
      FindNone(rest, x);
    }
  }

  /** A key asked for now joins the others at the end. */
  lemma {:induction false} JoinsAtTheEnd(rest: seq<Entry>, last: Entry, asked: map<Key, nat>, n: nat)
    requires InAskOrder(rest, asked) && last.times != []
    requires forall e :: e in rest ==> e.key != last.key && e.times != [] && AskOf(asked, e.key) < n
    ensures InAskOrder(rest + [last], asked[last.key := n])
    ensures forall e :: e in rest + [last] ==> e.times != [] && AskOf(asked[last.key := n], e.key) < n + 1
  {
    AskElsewhere(rest, asked, last.key, n);
    AppendAsked(rest, last, asked[last.key := n]);
  }

  /** The entries and their order after a request, before the ceiling is applied. */
  lemma {:induction false} CheckedKeeps(cfg: Config, s: State, k: Key, t: int)
    requires ConfigOk(cfg) && Inv(cfg, s) && s.clock <= t
    ensures var (us, d) := Checked(cfg, s.entries, k, t);
            var asked := s.lastAsk[k := s.asks];
            && InAskOrder(us, asked)
            && (forall e :: e in us ==> e.times != [] && AskOf(asked, e.key) < s.asks + 1)
  {
    var (us, d) := Checked(cfg, s.entries, k, t);
    var rest := Without(s.entries, k);
    RequestFacts(cfg, s, k, t);
    WithoutKey(s.entries, k, s.lastAsk);
    JoinsAtTheEnd(rest, us[|us| - 1], s.lastAsk, s.asks);
  }

  /** A refused key had an entry, so a refusal makes the map no larger. */
  lemma {:induction false} RefusalFits(cfg: Config, s: State, k: Key, t: int)
    requires ConfigOk(cfg) && Inv(cfg, s) && s.clock <= t
    ensures var (us, d) := Checked(cfg, s.entries, k, t); d.Refused? ==> |us| <= cfg.maxClients
  {
    WithoutKey(s.entries, k, s.lastAsk);
    if k !in Keys(s.entries) {
      FindNone(s.entries, k);
    }
  }

  /** The full logs after a request. */
  lemma {:induction false} RequestLogs(cfg: Config, s: State, k: Key, t: int, x: Key)
    ensures var d := Checked(cfg, s.entries, k, t).1;
            Log(Step(cfg, s, Request(k, t)), x)
            == if x in Keys(EvictedBy(cfg, s.entries, k, t)) then []
               else if x == k && d.Admitted? then Log(s, k) + [t] else Log(s, x)
  {
    var d := Checked(cfg, s.entries, k, t).1;
    var evicted := EvictedBy(cfg, s.entries, k, t);
    var logged := if d.Admitted? then s.log[k := Log(s, k) + [t]] else s.log;
    assert Step(cfg, s, Request(k, t)).log == map y | y in logged && y !in Keys(evicted) :: logged[y];
  }

  /** What is evicted and what stays make up the entries before the ceiling is applied. */
  lemma {:induction false} EvictedAndKept(cfg: Config, es: seq<Entry>, k: Key, t: int)
    ensures Checked(cfg, es, k, t).0 == EvictedBy(cfg, es, k, t) + AfterCheck(cfg, es, k, t)
  {
    var (us, d) := Checked(cfg, es, k, t);
    var n := Excess(cfg, us, d);
    assert us == us[..n] + us[n..];
  }

  /** The stored lists after a request. */
  lemma {:induction false} RequestFinds(cfg: Config, s: State, k: Key, t: int, x: Key)
    requires ConfigOk(cfg) && Inv(cfg, s) && s.clock <= t
    ensures var d := Checked(cfg, s.entries, k, t).1;
            var list := Recent(Find(s.entries, k), t - WINDOW_MS);
            Find(AfterCheck(cfg, s.entries, k, t), x)
            == if x in Keys(EvictedBy(cfg, s.entries, k, t)) then []
               else if x != k then Find(s.entries, x) else if d.Admitted? then list + [t] else list
  {
    CheckedKeeps(cfg, s, k, t);
    CheckedFind(cfg, s, k, t, x);
    EvictedAndKept(cfg, s.entries, k, t);
    FindDropped(Checked(cfg, s.entries, k, t).0, EvictedBy(cfg, s.entries, k, t),
                AfterCheck(cfg, s.entries, k, t), s.lastAsk[k := s.asks], x);
  }

  lemma {:induction false} LogOkLater(cfg: Config, log: seq<int>, kept: seq<int>, k: Key, clock: int, t: int)
    requires LogOk(cfg, log, kept, k, clock) && clock <= t
    ensures LogOk(cfg, log, kept, k, t)
  {
    EdgeMoves(log, kept, clock - WINDOW_MS, t - WINDOW_MS);
  }

  lemma {:induction false} LogOkEmpty(cfg: Config, k: Key, t: int)
    ensures LogOk(cfg, [], [], k, t)
  {
    forall i ensures Apart([], LimitOf(cfg, k), i) {
    }
  }

  lemma {:induction false} RequestKeepsLog(cfg: Config, s: State, k: Key, t: int, x: Key)
    requires ConfigOk(cfg) && Inv(cfg, s) && s.clock <= t
    ensures LogOk(cfg, Log(Step(cfg, s, Request(k, t)), x), Find(AfterCheck(cfg, s.entries, k, t), x), x, t)
  {
    RequestLogs(cfg, s, k, t, x);
    RequestFinds(cfg, s, k, t, x);
    if x in Keys(EvictedBy(cfg, s.entries, k, t)) {
      LogOkEmpty(cfg, x, t);
    } else if x == k {
      RequestFacts(cfg, s, k, t);
    } else {
      assert LogOkAt(cfg, s, x);
      LogOkLater(cfg, Log(s, x), Find(s.entries, x), x, s.clock, t);
    }
  }

  /** The entries that stay after a request: within the ceiling, in ask order, none empty. */
  lemma {:induction false} RequestEntries(cfg: Config, s: State, k: Key, t: int)
    requires ConfigOk(cfg) && Inv(cfg, s) && s.clock <= t
    ensures var es, asked := AfterCheck(cfg, s.entries, k, t), s.lastAsk[k := s.asks];
            var evicted := EvictedBy(cfg, s.entries, k, t);
            && |es| <= cfg.maxClients
            && (evicted != [] ==> |es| == cfg.maxClients)
            && InAskOrder(es, asked)
            && (forall e :: e in es ==> e.times != [] && AskOf(asked, e.key) < s.asks + 1)
            && (forall e :: e in evicted ==> AllLater(e.key, es, asked))
  {
    CheckedKeeps(cfg, s, k, t);
    RefusalFits(cfg, s, k, t);
    EvictedAndKept(cfg, s.entries, k, t);
    DropFront(Checked(cfg, s.entries, k, t).0, EvictedBy(cfg, s.entries, k, t),
              AfterCheck(cfg, s.entries, k, t), s.lastAsk[k := s.asks]);
  }

  lemma {:induction false} RequestKeeps(cfg: Config, s: State, k: Key, t: int)
    requires ConfigOk(cfg) && Inv(cfg, s) && s.clock <= t
    ensures Inv(cfg, Step(cfg, s, Request(k, t)))
  {
    var u := Step(cfg, s, Request(k, t));
    RequestEntries(cfg, s, k, t);
    forall x ensures LogOkAt(cfg, u, x) {
      RequestKeepsLog(cfg, s, k, t, x);
    }
  }

  const START: State := State([], map[], map[], 0, 0)

  lemma {:induction false} RunKeeps(cfg: Config, s: State, es: seq<Event>)
    requires ConfigOk(cfg) && Inv(cfg, s) && Timely(es, s.clock)
    ensures Inv(cfg, Run(cfg, s, es))
    decreases |es|
  {
    if es != [] {
      match es[0] {
        case Timer(t) => TimerKeeps(cfg, s, t);
        case Request(k, t) => RequestKeeps(cfg, s, k, t);
      }
      RunKeeps(cfg, Step(cfg, s, es[0]), es[1..]);
    }
  }

  /** The answer of the full log, with the time a refused client has to wait. */
  function FullAnswer(log: seq<int>, limit: nat, t: int): (d: Decision)
    requires limit >= 1
  {
    var list := Recent(log, t - WINDOW_MS);
    if |list| >= limit then Refused(RetryAfter(list, limit, t)) else Admitted
  }

  /** What a request at time `t` does, in terms of the full logs. */
  ghost predicate FollowsLog(cfg: Config, s: State, k: Key, t: int)
    requires ConfigOk(cfg)
  {
    var u := Step(cfg, s, Request(k, t));
    var d := Checked(cfg, s.entries, k, t).1;
    var evicted := EvictedBy(cfg, s.entries, k, t);
    var limit := if k.auth then cfg.authorizedPerMinute else cfg.anonymousPerMinute;
    && d == FullAnswer(Log(s, k), limit, t)
    && (d.Admitted? <==> Admits(Log(s, k), limit, t))
    && |u.entries| <= cfg.maxClients
    && (forall e :: e in u.entries ==> e.times != [])
    && (forall e :: e in evicted ==> AllLater(e.key, u.entries, u.lastAsk))
    && (evicted != [] ==> |u.entries| == cfg.maxClients)
    && (forall x :: Log(u, x) == if x in Keys(evicted) then []
                                 else if x == k && d.Admitted? then Log(s, k) + [t] else Log(s, x))
  }

  lemma {:induction false} RequestFollowsLog(cfg: Config, s: State, k: Key, t: int)
    requires ConfigOk(cfg) && Inv(cfg, s) && s.clock <= t
    ensures FollowsLog(cfg, s, k, t)
  {
    RequestFacts(cfg, s, k, t);
    RequestEntries(cfg, s, k, t);
    forall x ensures Log(Step(cfg, s, Request(k, t)), x)
                     == if x in Keys(EvictedBy(cfg, s.entries, k, t)) then []
                        else if x == k && Checked(cfg, s.entries, k, t).1.Admitted? then Log(s, k) + [t] else Log(s, x)
    {
      RequestLogs(cfg, s, k, t, x);
    }
  }

  /**
   * The limiter refines the full log. After any run of requests and sweeps under a clock that does
   * not go back, a request is admitted exactly when fewer than `limit` admissions of its key since
   * its last eviction lie in the last minute; what is evicted was asked for longer ago than
   * everything that stays, and only when the ceiling is reached; no stored list is empty.
   */
  lemma {:induction false} RefinesFullLog(cfg: Config, before: seq<Event>, k: Key, t: int)
    requires ConfigOk(cfg) && Timely(before, 0) && Run(cfg, START, before).clock <= t
    ensures FollowsLog(cfg, Run(cfg, START, before), k, t)
  {
    RunKeeps(cfg, START, before);
    RequestFollowsLog(cfg, Run(cfg, START, before), k, t);
  }

  /** In every run and for every key, admissions since the last eviction respect the limit in each minute. */
  lemma {:induction false} EveryMinuteRespectsTheLimit(cfg: Config, es: seq<Event>, k: Key)
    requires ConfigOk(cfg) && Timely(es, 0)
    ensures var log := Log(Run(cfg, START, es), k);
            var limit := if k.auth then cfg.authorizedPerMinute else cfg.anonymousPerMinute;
            forall i, j :: 0 <= i <= j < |log| && log[j] - log[i] < 60000 ==> j - i + 1 <= limit
  {
    var s := Run(cfg, START, es);
    RunKeeps(cfg, START, es);
    assert LogOkAt(cfg, s, k);
    NoMinuteExceeds(Log(s, k), LimitOf(cfg, k));
  }
}
