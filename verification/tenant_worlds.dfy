/**
 * worldsFor (apps/console/server/tenant-worlds.ts:114-131): two bounded caches of a user's worlds,
 * keyed by a fingerprint of the user's memberships, with an awaited query in the middle of the update.
 *
 * A call is split at its await: `Begin` looks the user up, `Complete` stores what the query gave.
 * Between the two any other calls may do either.
 */
module TenantWorlds {
  import opened Common
  import opened Text

  const INDEX_TTL_MS := 60000
  const INDEX_MAX_USERS := 10000
  const EMPTY_MAX_USERS := 2000

  datatype Membership = Membership(tenantId: string, membershipId: string, role: string)

  datatype Row = Row(tenantId: string, title: string)

  datatype Entry = Entry(fingerprint: string, at: int, rows: seq<Row>)

  // ---------------------------------------------------------------- the fingerprint

  /** JavaScript's order of strings. */
  predicate StringLe(a: string, b: string) {
    a == "" || (b != "" && (a[0] < b[0] || (a[0] == b[0] && StringLe(a[1..], b[1..]))))
  }

  predicate Ascending(ss: seq<string>) { forall i, j :: 0 <= i < j < |ss| ==> StringLe(ss[i], ss[j]) }

  function Insert(s: string, ss: seq<string>): (r: seq<string>) {
    if ss == [] || StringLe(s, ss[0]) then [s] + ss else [ss[0]] + Insert(s, ss[1..])
  }

  /** `ss.sort()`. */
  function Sort(ss: seq<string>): (r: seq<string>) { if ss == [] then [] else Insert(ss[0], Sort(ss[1..])) }

  function Part(m: Membership): (s: string) { m.tenantId + [':'] + m.membershipId + [':'] + m.role }

  function Parts(ms: seq<Membership>): (r: seq<string>) { if ms == [] then [] else [Part(ms[0])] + Parts(ms[1..]) }

  function Fingerprint(ms: seq<Membership>): (f: string) { Join(Sort(Parts(ms)), '|') }

  lemma {:induction false} OrderIsTotal(a: string, b: string)
    ensures StringLe(a, b) || StringLe(b, a)
    ensures StringLe(a, b) && StringLe(b, a) ==> a == b
  {
    if a != "" && b != "" {
      OrderIsTotal(a[1..], b[1..]);
      if a[0] == b[0] {
        assert a == [a[0]] + a[1..] && b == [b[0]] + b[1..];
      }
    }
  }

  lemma {:induction false} OrderIsTransitive(a: string, b: string, c: string)
    requires StringLe(a, b) && StringLe(b, c)
    ensures StringLe(a, c)
  {
    if a != "" && a[0] == b[0] == c[0] {
      OrderIsTransitive(a[1..], b[1..], c[1..]);
    }
  }

  lemma {:induction false} InsertKeeps(s: string, ss: seq<string>)
    requires Ascending(ss)
    ensures Ascending(Insert(s, ss)) && multiset(Insert(s, ss)) == multiset(ss) + multiset{s}
  {
    if ss == [] {
      assert [s] + ss == [s];
    } else if StringLe(s, ss[0]) {
      forall i | 0 <= i < |ss| ensures StringLe(s, ss[i]) {
        if i > 0 {
          OrderIsTransitive(s, ss[0], ss[i]);
        }
      }
    } else {
      OrderIsTotal(s, ss[0]);
      InsertKeeps(s, ss[1..]);
      var r := Insert(s, ss[1..]);
      assert ss == [ss[0]] + ss[1..];
      forall x | x in r ensures StringLe(ss[0], x) {
        assert x in multiset(ss[1..]) + multiset{s};
        if x != s {
          assert x in ss[1..];
        }
      }
    }
  }

  lemma {:induction false} SortKeeps(ss: seq<string>)
    ensures Ascending(Sort(ss)) && multiset(Sort(ss)) == multiset(ss)
  {
    if ss != [] {
      SortKeeps(ss[1..]);
      InsertKeeps(ss[0], Sort(ss[1..]));
      assert ss == [ss[0]] + ss[1..];
    }
  }

  lemma {:induction false} FirstIsLeast(a: seq<string>, x: string)
    requires Ascending(a) && x in a
    ensures StringLe(a[0], x)
  {
    OrderIsTotal(x, x);
  }

  lemma {:induction false} OneAscendingOrder(a: seq<string>, b: seq<string>)
    requires Ascending(a) && Ascending(b) && multiset(a) == multiset(b)
    ensures a == b
  {
    assert |a| == |multiset(a)| == |multiset(b)| == |b|;
    if a != [] {
      assert a[0] in multiset(b) && b[0] in multiset(a);
      FirstIsLeast(b, a[0]);
      FirstIsLeast(a, b[0]);
      OrderIsTotal(a[0], b[0]);
      SameRest(a, b);
      OneAscendingOrder(a[1..], b[1..]);
    }
  }

  lemma {:induction false} SameRest(a: seq<string>, b: seq<string>)
    requires a != [] && b != [] && a[0] == b[0] && multiset(a) == multiset(b)
    ensures multiset(a[1..]) == multiset(b[1..])
    ensures a[1..] == b[1..] ==> a == b
  {
    assert a == [a[0]] + a[1..] && b == [b[0]] + b[1..];
    assert multiset(a) == multiset{a[0]} + multiset(a[1..]);
    assert multiset(b) == multiset{a[0]} + multiset(b[1..]);
    assert multiset(a[1..]) == multiset(a) - multiset{a[0]};
    assert multiset(b[1..]) == multiset(b) - multiset{a[0]};
  }

  /** Ids hold neither separator, roles hold no bar: what keeps fingerprints apart. */
  predicate Clean(m: Membership) {
    ':' !in m.tenantId && '|' !in m.tenantId && ':' !in m.membershipId && '|' !in m.membershipId && '|' !in m.role
  }

  predicate AllClean(ms: seq<Membership>) { forall m :: m in ms ==> Clean(m) }

  lemma {:induction false} PartIsInjective(a: Membership, b: Membership)
    requires Clean(a) && Clean(b) && Part(a) == Part(b)
    ensures a == b
  {
    var restA, restB := a.membershipId + [':'] + a.role, b.membershipId + [':'] + b.role;
    assert Part(a) == a.tenantId + ([':'] + restA) && Part(b) == b.tenantId + ([':'] + restB);
    CutAt(':', a.tenantId, restA, b.tenantId, restB);
    assert restA == a.membershipId + ([':'] + a.role) && restB == b.membershipId + ([':'] + b.role);
    CutAt(':', a.membershipId, a.role, b.membershipId, b.role);
  }

  lemma {:induction false} PartsCount(ms: seq<Membership>, m: Membership)
    requires Clean(m) && AllClean(ms)
    ensures multiset(Parts(ms))[Part(m)] == multiset(ms)[m]
  {
    if ms != [] {
      PartsCount(ms[1..], m);
      assert ms == [ms[0]] + ms[1..];
      if Part(ms[0]) == Part(m) {
        PartIsInjective(ms[0], m);
      }
    }
  }

  lemma {:induction false} PartsAre(ms: seq<Membership>)
    ensures forall p :: p in Parts(ms) <==> exists m :: m in ms && p == Part(m)
  {
    if ms != [] {
      PartsAre(ms[1..]);
      assert ms == [ms[0]] + ms[1..];
    }
  }

  lemma {:induction false} PartsConcat(a: seq<Membership>, b: seq<Membership>)
    ensures Parts(a + b) == Parts(a) + Parts(b)
  {
    if a == [] {
      assert a + b == b;
    } else {
      assert (a + b)[1..] == a[1..] + b;
      PartsConcat(a[1..], b);
    }
  }

  /** Taking one membership out takes its part out. */
  lemma {:induction false} TakeOut(b: seq<Membership>, m: Membership) returns (rest: seq<Membership>)
    requires m in b
    ensures multiset(b) == multiset(rest) + multiset{m}
    ensures multiset(Parts(b)) == multiset(Parts(rest)) + multiset{Part(m)}
  {
    var i :| 0 <= i < |b| && b[i] == m;
    rest := b[..i] + b[i + 1..];
    assert b == b[..i] + ([b[i]] + b[i + 1..]);
    PartsConcat(b[..i], [b[i]] + b[i + 1..]);
    PartsConcat(b[..i], b[i + 1..]);
    assert ([b[i]] + b[i + 1..])[1..] == b[i + 1..];
  }

  lemma {:induction false} Cancel<T>(a: multiset<T>, b: multiset<T>, x: T)
    requires a + multiset{x} == b + multiset{x}
    ensures a == b
  {
    assert a == (a + multiset{x}) - multiset{x} && b == (b + multiset{x}) - multiset{x};
  }

  lemma {:induction false} NothingCounted<T>(b: seq<T>)
    ensures b != [] ==> multiset(b) != multiset{}
  {
    if b != [] {
      assert b[0] in multiset(b);
    }
  }

  /** Equal memberships, counted, have equal parts, counted. */
  lemma {:induction false} SamePartsOf(a: seq<Membership>, b: seq<Membership>)
    requires multiset(a) == multiset(b)
    ensures multiset(Parts(a)) == multiset(Parts(b))
    decreases |a|
  {
    if a == [] {
      NothingCounted(b);
    } else {
      assert a == [a[0]] + a[1..] && a[0] in multiset(b);
      var rest := TakeOut(b, a[0]);
      Cancel(multiset(a[1..]), multiset(rest), a[0]);
      SamePartsOf(a[1..], rest);
    }
  }

  /** And the other way round. */
  lemma {:induction false} SameMembershipsOf(a: seq<Membership>, b: seq<Membership>, m: Membership)
    requires AllClean(a) && AllClean(b) && multiset(Parts(a)) == multiset(Parts(b))
    ensures multiset(a)[m] == multiset(b)[m]
  {
    if m in a || m in b {
      PartsCount(a, m);
      PartsCount(b, m);
    } else {
      assert m !in multiset(a) && m !in multiset(b);
    }
  }

  lemma {:induction false} SamePartsSameMemberships(a: seq<Membership>, b: seq<Membership>)
    requires AllClean(a) && AllClean(b) && multiset(Parts(a)) == multiset(Parts(b))
    ensures multiset(a) == multiset(b)
  {
    forall m ensures multiset(a)[m] == multiset(b)[m] {
      SameMembershipsOf(a, b, m);
    }
  }

  lemma {:induction false} JoinIsNotEmpty(a: seq<string>)
    requires a != [] && a[0] != ""
    ensures Join(a, '|') != ""
  {
  }

  lemma {:induction false} JoinIsInjective(a: seq<string>, b: seq<string>)
    requires forall p :: p in a || p in b ==> p != "" && '|' !in p
    requires Join(a, '|') == Join(b, '|')
    ensures a == b
  {
    if a != [] {
      assert a[0] in a;
      JoinIsNotEmpty(a);
    }
    if b != [] {
      assert b[0] in b;
      JoinIsNotEmpty(b);
    }
    if a != [] {
      SplitJoin(a, '|');
      SplitJoin(b, '|');
    }
  }

  lemma {:induction false} SortedPartsAreClean(ms: seq<Membership>)
    requires AllClean(ms)
    ensures forall p :: p in Sort(Parts(ms)) ==> p != "" && '|' !in p
  {
    SortKeeps(Parts(ms));
    PartsAre(ms);
    forall p | p in Sort(Parts(ms)) ensures p != "" && '|' !in p {
      assert p in multiset(Sort(Parts(ms)));
      assert p in Parts(ms);
      var m :| m in ms && p == Part(m);
      assert ':' in p;
    }
  }

  /**
   * The order of the memberships never matters to the fingerprint; and of memberships whose ids and
   * roles hold no separator, anything else does.
   */
  lemma {:induction false} FingerprintIsExact(a: seq<Membership>, b: seq<Membership>)
    ensures multiset(a) == multiset(b) ==> Fingerprint(a) == Fingerprint(b)
    ensures AllClean(a) && AllClean(b) && Fingerprint(a) == Fingerprint(b) ==> multiset(a) == multiset(b)
  {
    SortKeeps(Parts(a));
    SortKeeps(Parts(b));
    if multiset(a) == multiset(b) {
      SamePartsOf(a, b);
      OneAscendingOrder(Sort(Parts(a)), Sort(Parts(b)));
    }
    if AllClean(a) && AllClean(b) && Fingerprint(a) == Fingerprint(b) {
      SortedPartsAreClean(a);
      SortedPartsAreClean(b);
      JoinIsInjective(Sort(Parts(a)), Sort(Parts(b)));
      SamePartsSameMemberships(a, b);
    }
  }

  /** With a separator in an id, different memberships share a fingerprint. */
  lemma {:induction false} SeparatorsCollide(x: string, y: string, z: string, role: string)
    ensures var a, b := Membership(x + [':'] + y, z, role), Membership(x, y + [':'] + z, role);
            Fingerprint([a]) == Fingerprint([b]) && a != b
  {
    var a, b := Membership(x + [':'] + y, z, role), Membership(x, y + [':'] + z, role);
    assert |a.tenantId| > |b.tenantId|;
    assert Part(a) == Part(b);
    assert [a][1..] == [] && [b][1..] == [];
    assert Parts([a]) == [Part(a)] + Parts([]) && Parts([b]) == [Part(b)] + Parts([]);
  }

  // ---------------------------------------------------------------- the two caches, on values

  /** A pair of a JavaScript Map; the pairs stand in insertion order. */
  datatype Slot = Slot(user: string, entry: Entry)

  function Get(m: seq<Slot>, user: string): (r: Option<Entry>) {
    if m == [] then None else if m[0].user == user then Some(m[0].entry) else Get(m[1..], user)
  }

  /** `m.delete(user)`. */
  function Without(m: seq<Slot>, user: string): (r: seq<Slot>)
    ensures |r| <= |m|
  {
    if m == [] then [] else if m[0].user == user then m[1..] else [m[0]] + Without(m[1..], user)
  }

  datatype State = State(cache: seq<Slot>, emptyCache: seq<Slot>)

  datatype Event =
    | Begin(user: string, memberships: seq<Membership>, now: int)
    | Complete(user: string, memberships: seq<Membership>, rows: seq<Row>, at: int)

  /** The entry a call finds, if it may be used. */
  function Lookup(s: State, user: string, fingerprint: string, now: int): (r: Option<seq<Row>>) {
    var found := if Get(s.cache, user).Some? then Get(s.cache, user) else Get(s.emptyCache, user);
    if found.Some? && found.value.fingerprint == fingerprint
        && now - found.value.at <= INDEX_TTL_MS then Some(found.value.rows) else None
  }

  /** Storing at the end of a Map that is full first drops its first pair. */
  function Stored(m: seq<Slot>, limit: nat, slot: Slot): (r: seq<Slot>)
    requires limit >= 1
  {
    (if |m| >= limit then m[1..] else m) + [slot]
  }

  function Step(s: State, e: Event): (r: State) {
    match e
    case Begin(_, _, _) => s
    case Complete(user, memberships, rows, at) =>
      var slot := Slot(user, Entry(Fingerprint(memberships), at, rows));
      var cache, emptyCache := Without(s.cache, user), Without(s.emptyCache, user);
      if rows != [] then State(Stored(cache, INDEX_MAX_USERS, slot), emptyCache)
      else State(cache, Stored(emptyCache, EMPTY_MAX_USERS, slot))
  }

  const START: State := State([], [])

  function Run(s: State, es: seq<Event>): (r: State) {
    if es == [] then s else Step(Run(s, es[..|es| - 1]), es[|es| - 1])
  }

  // ---------------------------------------------------------------- the source's object

  /** The caches with the source's statements. */
  class WorldIndex {
    var cache: seq<Slot>
    var emptyCache: seq<Slot>

    constructor ()
      ensures Current() == START
    {
      cache, emptyCache := [], [];
    }

    function Current(): (s: State)
      reads this
    {
      State(cache, emptyCache)
    }

    /** Lines 120-130: after the query. */
    method Store(user: string, memberships: seq<Membership>, rows: seq<Row>, at: int)
      modifies this
      ensures Current() == Step(old(Current()), Complete(user, memberships, rows, at))
    {
      var entry := Entry(Fingerprint(memberships), at, rows);
      cache := Without(cache, user);
      emptyCache := Without(emptyCache, user);
      if rows != [] {
        if |cache| >= INDEX_MAX_USERS {
          cache := cache[1..];
        }
        cache := cache + [Slot(user, entry)];
      } else {
        if |emptyCache| >= EMPTY_MAX_USERS {
          emptyCache := emptyCache[1..];
        }
        emptyCache := emptyCache + [Slot(user, entry)];
      }
    }

    /** The halves of other calls that run while this one waits. */
    method Others(es: seq<Event>)
      modifies this
      ensures Current() == Run(old(Current()), es)
    {
      for i := 0 to |es|
        invariant Current() == Run(old(Current()), es[..i])
      {
        assert es[..i + 1][..i] == es[..i];
        if es[i].Complete? {
          Store(es[i].user, es[i].memberships, es[i].rows, es[i].at);
        }
      }
      assert es[..|es|] == es;
    }

    /** One call: `meanwhile` runs during the query, which answers with rows or throws. */
    method WorldsFor(user: string, memberships: seq<Membership>, now: int, meanwhile: seq<Event>,
            answer: Reply<seq<Row>>, at: int)
      returns (r: Reply<seq<Row>>)
      modifies this
      ensures var hit := Lookup(old(Current()), user, Fingerprint(memberships), now);
              if hit.Some? then r == Answer(hit.value) && Current() == old(Current())
              else r == answer
                   && Current() == Run(old(Current()), meanwhile
                                       + if answer.Answer? then [Complete(user, memberships, answer.value, at)] else [])
    {
      var fingerprint := Fingerprint(memberships);
      var entry := Get(cache, user);
      if entry.None? {
        entry := Get(emptyCache, user);
      }
      if entry.None? || entry.value.fingerprint != fingerprint || now - entry.value.at > INDEX_TTL_MS {
        Others(meanwhile);
        if answer.Threw? {
          assert meanwhile + [] == meanwhile;
          return Threw;
        }
        Store(user, memberships, answer.value, at);
        var e := Complete(user, memberships, answer.value, at);
        assert (meanwhile + [e])[..|meanwhile|] == meanwhile;
        return answer;
      }
      r := Answer(entry.value.rows);
    }
  }

  // ---------------------------------------------------------------- what every interleaving keeps

  predicate Holds(m: seq<Slot>, user: string) { exists slot :: slot in m && slot.user == user }

  predicate Single(m: seq<Slot>) { forall i, j :: 0 <= i < j < |m| ==> m[i].user != m[j].user }

  /** `q` is the number of the last query completed for its user, and it gave the entry. */
  ghost predicate From(es: seq<Event>, slot: Slot, q: nat) {
    && q < |es| && es[q].Complete? && es[q].user == slot.user
    && slot.entry == Entry(Fingerprint(es[q].memberships), es[q].at, es[q].rows)
    && forall j :: q < j < |es| && es[j].Complete? ==> es[j].user != slot.user
  }

  ghost predicate FromQueries(es: seq<Event>, m: seq<Slot>) {
    forall slot :: slot in m ==> exists q: nat :: From(es, slot, q)
  }

  /** After the events `es`. */
  ghost predicate Inv(s: State, es: seq<Event>) {
    && Single(s.cache) && Single(s.emptyCache)
    && (forall user :: !(Holds(s.cache, user) && Holds(s.emptyCache, user)))
    && (forall slot :: slot in s.cache ==> slot.entry.rows != [])
    && (forall slot :: slot in s.emptyCache ==> slot.entry.rows == [])
    && |s.cache| <= INDEX_MAX_USERS && |s.emptyCache| <= EMPTY_MAX_USERS
    && FromQueries(es, s.cache) && FromQueries(es, s.emptyCache)
  }

  lemma {:induction false} SingleTail(m: seq<Slot>)
    requires Single(m) && m != []
    ensures Single(m[1..]) && forall slot :: slot in m[1..] ==> slot.user != m[0].user
    ensures forall slot :: slot in m <==> slot == m[0] || slot in m[1..]
  {
    assert m == [m[0]] + m[1..];
  }

  lemma {:induction false} SingleCons(slot: Slot, m: seq<Slot>)
    requires Single(m) && forall x :: x in m ==> x.user != slot.user
    ensures Single([slot] + m)
  {
  }

  lemma {:induction false} WithoutUser(m: seq<Slot>, user: string)
    requires Single(m)
    ensures Single(Without(m, user)) && !Holds(Without(m, user), user)
    ensures forall slot :: slot in Without(m, user) <==> slot in m && slot.user != user
  {
    if m != [] {
      SingleTail(m);
      if m[0].user != user {
        WithoutUser(m[1..], user);
        SingleCons(m[0], Without(m[1..], user));
      }
    }
  }

  lemma {:induction false} GetIs(m: seq<Slot>, user: string)
    ensures Get(m, user).Some? ==> Slot(user, Get(m, user).value) in m
    ensures Get(m, user).None? ==> !Holds(m, user)
  {
    if m != [] {
      assert m == [m[0]] + m[1..];
      GetIs(m[1..], user);
    }
  }

  lemma {:induction false} StoredKeeps(m: seq<Slot>, limit: nat, slot: Slot)
    requires Single(m) && !Holds(m, slot.user) && |m| <= limit && limit >= 1
    ensures var r := Stored(m, limit, slot);
            Single(r) && |r| <= limit && forall x :: x in r ==> x == slot || x in m
  {
  }

  /** Provenance after one more query: of its user's new entry, and of the entries of all others. */
  lemma {:induction false} QueriesStay(es: seq<Event>, e: Event, before: seq<Slot>, after: seq<Slot>)
    requires e.Complete? && FromQueries(es, before)
    requires forall x :: x in after ==>
               x == Slot(e.user, Entry(Fingerprint(e.memberships), e.at, e.rows)) || (x in before && x.user != e.user)
    ensures FromQueries(es + [e], after)
  {
    forall x | x in after ensures exists q: nat :: From(es + [e], x, q) {
      if x in before && x.user != e.user {
        var q: nat :| From(es, x, q);
        assert From(es + [e], x, q);
      } else {
        assert From(es + [e], x, |es|);
      }
    }
  }

  lemma {:induction false} BeginKeeps(s: State, es: seq<Event>, e: Event)
    requires Inv(s, es) && e.Begin?
    ensures Inv(s, es + [e])
  {
    forall slot | slot in s.cache || slot in s.emptyCache ensures exists q: nat :: From(es + [e], slot, q) {
      var q: nat :| From(es, slot, q);
      assert From(es + [e], slot, q);
    }
  }

  lemma {:induction false} CompleteKeeps(s: State, es: seq<Event>, e: Event)
    requires Inv(s, es) && e.Complete?
    ensures Inv(Step(s, e), es + [e])
  {
    WithoutUser(s.cache, e.user);
    WithoutUser(s.emptyCache, e.user);
    var slot := Slot(e.user, Entry(Fingerprint(e.memberships), e.at, e.rows));
    var r := Step(s, e);
    if e.rows != [] {
      StoredKeeps(Without(s.cache, e.user), INDEX_MAX_USERS, slot);
    } else {
      StoredKeeps(Without(s.emptyCache, e.user), EMPTY_MAX_USERS, slot);
    }
    QueriesStay(es, e, s.cache, r.cache);
    QueriesStay(es, e, s.emptyCache, r.emptyCache);
    assert forall user :: user != e.user && Holds(r.cache, user) ==> Holds(s.cache, user);
    assert forall user :: user != e.user && Holds(r.emptyCache, user) ==> Holds(s.emptyCache, user);
  }

  /**
   * In every interleaving of calls: a user is in at most one cache and once there; `cache` holds only
   * non-empty lists and `emptyCache` only empty ones; both stay within their limits; and each entry
   * comes from the last query completed for its user.
   */
  lemma {:induction false} RunKeeps(es: seq<Event>)
    ensures Inv(Run(START, es), es)
  {
    if es != [] {
      var rest, e := es[..|es| - 1], es[|es| - 1];
      RunKeeps(rest);
      assert rest + [e] == es;
      if e.Begin? {
        BeginKeeps(Run(START, rest), rest, e);
      } else {
        CompleteKeeps(Run(START, rest), rest, e);
      }
    }
  }

  /**
   * Query `q` gave `rows`, at most 60 s ago, to a call of this user with the same fingerprint, hence with
   * the same memberships if they are free of separators, and no later query is known.
   */
  ghost predicate Justifies(es: seq<Event>, q: nat, user: string, memberships: seq<Membership>, rows: seq<Row>,
          now: int) {
    && q < |es| && es[q].Complete? && es[q].user == user && es[q].rows == rows
    && Fingerprint(es[q].memberships) == Fingerprint(memberships)
    && (AllClean(es[q].memberships) && AllClean(memberships) ==> multiset(es[q].memberships) == multiset(memberships))
    && now - es[q].at <= INDEX_TTL_MS
    && forall j :: q < j < |es| && es[j].Complete? ==> es[j].user != user
  }

  /**
   * A list that a call is given without a query comes from the last query completed for the same user,
   * made for a call with the same fingerprint, at most 60 s before.
   */
  lemma {:induction false} HitsAreFresh(es: seq<Event>, user: string, memberships: seq<Membership>, now: int)
    ensures var hit := Lookup(Run(START, es), user, Fingerprint(memberships), now);
            hit.Some? ==> exists q: nat :: Justifies(es, q, user, memberships, hit.value, now)
  {
    var s := Run(START, es);
    RunKeeps(es);
    GetIs(s.cache, user);
    GetIs(s.emptyCache, user);
    if Lookup(s, user, Fingerprint(memberships), now).Some? {
      var entry := if Get(s.cache, user).Some? then Get(s.cache, user).value else Get(s.emptyCache, user).value;
      var slot := Slot(user, entry);
      assert slot in s.cache || slot in s.emptyCache;
      var q: nat :| From(es, slot, q);
      assert es[q] in es;
      FingerprintIsExact(es[q].memberships, memberships);
      assert Justifies(es, q, user, memberships, entry.rows, now);
    }
  }

  /** A slot of the user that a call with this fingerprint may use at `now`. */
  predicate Fresh(slot: Slot, user: string, fingerprint: string, now: int) {
    slot.user == user && slot.entry.fingerprint == fingerprint && now - slot.entry.at <= INDEX_TTL_MS
  }

  /**
   * In every interleaving a call is answered without a query exactly when one of the caches holds an
   * entry of the user with its fingerprint, at most 60 s old; and then with the rows of that entry.
   */
  lemma {:induction false} HitsExactlyWhenFresh(es: seq<Event>, user: string, fingerprint: string, now: int,
          rows: seq<Row>)
    ensures var s := Run(START, es);
            Lookup(s, user, fingerprint, now) == Some(rows) <==>
            exists slot :: (slot in s.cache || slot in s.emptyCache)
                           && Fresh(slot, user, fingerprint, now) && slot.entry.rows == rows
  {
    var s := Run(START, es);
    RunKeeps(es);
    GetIs(s.cache, user);
    GetIs(s.emptyCache, user);
    forall slot | slot in s.cache && slot.user == user ensures Get(s.cache, user) == Some(slot.entry) {
      SingleGet(s.cache, slot);
    }
    forall slot | slot in s.emptyCache && slot.user == user
      ensures Get(s.cache, user).None? && Get(s.emptyCache, user) == Some(slot.entry)
    {
      SingleGet(s.emptyCache, slot);
      assert Holds(s.emptyCache, user);
      assert Get(s.cache, user).Some? ==> Holds(s.cache, user);
    }
    if Lookup(s, user, fingerprint, now) == Some(rows) {
      var entry := if Get(s.cache, user).Some? then Get(s.cache, user).value else Get(s.emptyCache, user).value;
      assert Fresh(Slot(user, entry), user, fingerprint, now);
    }
  }

  lemma {:induction false} SingleGet(m: seq<Slot>, slot: Slot)
    requires Single(m) && slot in m
    ensures Get(m, slot.user) == Some(slot.entry)
  {
    if m[0] != slot {
      SingleTail(m);
      SingleGet(m[1..], slot);
    }
  }

  /** What a query gave is found by the next call of the user with the same memberships within 60 s. */
  lemma {:induction false} StoredIsFound(es: seq<Event>, e: Event, now: int)
    requires e.Complete? && now - e.at <= INDEX_TTL_MS
    ensures Lookup(Run(START, es + [e]), e.user, Fingerprint(e.memberships), now) == Some(e.rows)
  {
    assert (es + [e])[..|es|] == es;
    var s := Run(START, es + [e]);
    var slot := Slot(e.user, Entry(Fingerprint(e.memberships), e.at, e.rows));
    if e.rows != [] {
      assert s.cache[|s.cache| - 1] == slot;
    } else {
      assert s.emptyCache[|s.emptyCache| - 1] == slot;
    }
    assert Fresh(slot, e.user, Fingerprint(e.memberships), now);
    HitsExactlyWhenFresh(es + [e], e.user, Fingerprint(e.memberships), now, e.rows);
  }

  /**
   * Storing a user's list drops at most one other user, only from the Map of the same kind and only
   * when that Map is full; so a user with no worlds never evicts one who has some, nor the other way.
   */
  lemma {:induction false} EvictsOnlyItsKind(s: State, es: seq<Event>, e: Event, victim: Slot)
    requires Inv(s, es) && e.Complete?
    ensures victim in s.cache && victim.user != e.user && victim !in Step(s, e).cache ==>
              e.rows != [] && victim == Without(s.cache, e.user)[0] && |Without(s.cache, e.user)| == INDEX_MAX_USERS
    ensures victim in s.emptyCache && victim.user != e.user && victim !in Step(s, e).emptyCache ==>
              e.rows == [] && victim == Without(s.emptyCache, e.user)[0]
                  && |Without(s.emptyCache, e.user)| == EMPTY_MAX_USERS
  {
    WithoutUser(s.cache, e.user);
    WithoutUser(s.emptyCache, e.user);
    StaysUnlessFirst(Without(s.cache, e.user), victim);
    StaysUnlessFirst(Without(s.emptyCache, e.user), victim);
  }

  lemma {:induction false} StaysUnlessFirst(m: seq<Slot>, slot: Slot)
    ensures slot in m ==> slot == m[0] || slot in m[1..]
  {
    if m != [] {
      assert m == [m[0]] + m[1..];
    }
  }
}
