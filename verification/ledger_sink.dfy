/**
 * The sink behind the receiver, transaction by transaction: pipelineSink
 * (packages/amazon-notifications/src/receiver.ts:316-326), processInbound
 * (packages/pricing-pipeline/src/pipeline.ts:894-953) and the store's insert into the ledger
 * (packages/pricing-store-pg/src/store.ts:2288-2335, 1090-1098).
 *
 * Any number of calls overlap. Each goes through its items; the first one that takes the entry
 * along inserts it first in its own transaction, and a call with nothing to record inserts it at
 * its end. An insert waits while another open transaction holds the same entry; every transaction
 * may roll back and every call may stop at any point. So the contract that ReceiverProtocol
 * assumes of its sink is a theorem here, for the deliveries that meet it.
 */
module LedgerSink {
  import opened Common
  import opened ReceiverProtocol

  /**
   * Guarded: a snapshot, a pricing health or a listing status, recorded together with the entry.
   * Fetch: a changed resource that is polled, without the entry. Ignored: any other event.
   */
  datatype Item = Guarded | Fetch | Ignored

  /** What the adapter makes of a notification. */
  datatype Inbound = Verification | Refused | Events(items: seq<Item>)

  datatype Delivery = Delivery(route: Route, notificationId: string, inbound: Inbound)

  /** What a call made of its notification, and whether the entry was in the ledger when it decided so. */
  datatype Decision = Decision(answer: SinkAnswer, before: bool)

  /** Open: a transaction that tried the insert; `inserted` is its row count. Gone: the call threw or crashed. */
  datatype Phase = Between | Open(inserted: bool) | Answered(answer: SinkAnswer) | Gone

  /** `pending`: the call still has the entry to record. `decided` is history. */
  datatype Call = Call(delivery: Delivery, next: nat, pending: bool, phase: Phase, decided: Option<Decision>)

  /** Item `item` of call `call` took effect. */
  datatype Applied = Applied(call: nat, item: nat)

  /** `ledger` is what is committed; `effects`, `rejections` and `applied` are history. */
  datatype System = System(
    ledger: set<Key>, effects: multiset<Key>, rejections: set<Key>, applied: seq<Applied>, calls: seq<Call>)

  const NOTHING: System := System({}, multiset{}, {}, [], [])

  datatype Move =
    | Start(delivery: Delivery)
    | Pass(call: nat)
    | Insert(call: nat)
    | Commit(call: nat)
    | Rollback(call: nat)
    | Apply(call: nat)
    | End(call: nat)
    | Stop(call: nat)

  // ---------------------------------------------------------------- one call

  function ItemsOf(d: Delivery): (items: seq<Item>) {
    if d.inbound.Events? then d.inbound.items else []
  }

  function EntryOf(d: Delivery): (k: Key) { KeyOf(d.route, d.notificationId) }

  /** The call is about to do its last part, finish(). */
  predicate AtEnd(c: Call) { c.next >= |ItemsOf(c.delivery)| }

  predicate At(c: Call, item: Item) { !AtEnd(c) && ItemsOf(c.delivery)[c.next] == item }

  /** Another open transaction holds the entry. */
  predicate Held(s: System, k: Key) {
    exists i :: 0 <= i < |s.calls| && s.calls[i].phase == Open(true) && EntryOf(s.calls[i].delivery) == k
  }

  predicate Possible(accounts: set<Route>, s: System, m: Move) {
    m.Start? || (m.call < |s.calls| && MayDo(accounts, s, s.calls[m.call], m))
  }

  /** An insert that would add a row waits until no other open transaction holds the entry. */
  predicate MayDo(accounts: set<Route>, s: System, c: Call, m: Move)
    requires !m.Start?
  {
    match m
    case Pass(_) => c.phase.Between? && (At(c, Fetch) || At(c, Ignored))
    case Insert(_) =>
      && c.phase.Between? && c.pending && (At(c, Guarded) || AtEnd(c))
      && (c.delivery.route in accounts ==> !Held(s, EntryOf(c.delivery)))
    case Commit(_) => c.phase.Open?
    case Rollback(_) => c.phase.Open?
    case Apply(_) => c.phase.Between? && !c.pending && At(c, Guarded)
    case End(_) => c.phase.Between? && !c.pending && AtEnd(c)
    case Stop(_) => !c.phase.Answered?
  }

  /** The insert adds a row: the account exists, and the entry is not there yet. */
  predicate Inserts(accounts: set<Route>, ledger: set<Key>, d: Delivery) {
    d.route in accounts && EntryOf(d) !in ledger
  }

  /** What the call makes of its notification when its transaction commits. */
  function Answer(c: Call): (a: SinkAnswer)
    requires c.phase.Open?
  {
    if !AtEnd(c) then (if c.phase.inserted then Accepted else AlreadyRecorded)
    else if c.delivery.inbound.Refused? then Rejected else Accepted
  }

  function After(accounts: set<Route>, s: System, c: Call, m: Move): (r: Call)
    requires !m.Start? && MayDo(accounts, s, c, m)
  {
    match m
    case Pass(_) => c.(next := c.next + 1)
    case Insert(_) => c.(phase := Open(Inserts(accounts, s.ledger, c.delivery)))
    case Commit(_) =>
      var d := c.(decided := Some(Decision(Answer(c), EntryOf(c.delivery) in s.ledger)));
      if AtEnd(c) || !c.phase.inserted then d.(phase := Answered(Answer(c)))
      else d.(phase := Between, next := c.next + 1, pending := false)
    case Rollback(_) => c.(phase := Between)
    case Apply(_) => c.(next := c.next + 1)
    case End(_) => c.(phase := Answered(Accepted))
    case Stop(_) => c.(phase := Gone)
  }

  // ---------------------------------------------------------------- all calls

  /** What a commit leaves in the database and in the history. */
  function Committed(s: System, j: nat, c: Call): (r: System)
    requires c.phase.Open?
  {
    var k := EntryOf(c.delivery);
    var u := if c.phase.inserted then s.(ledger := s.ledger + {k}) else s;
    if !AtEnd(c) then
      if !c.phase.inserted then u
      else u.(effects := s.effects + multiset{k}, applied := s.applied + [Applied(j, c.next)])
    else if c.delivery.inbound.Refused? then u.(rejections := s.rejections + {k})
    else u
  }

  function Database(accounts: set<Route>, s: System, c: Call, m: Move): (r: System)
    requires !m.Start? && MayDo(accounts, s, c, m)
  {
    match m
    case Commit(j) => Committed(s, j, c)
    case Pass(j) => if At(c, Fetch) then s.(applied := s.applied + [Applied(j, c.next)]) else s
    case Apply(j) => s.(applied := s.applied + [Applied(j, c.next)])
    case _ => s
  }

  function Take(accounts: set<Route>, s: System, m: Move): (r: System) {
    if !Possible(accounts, s, m) then s
    else
      match m
      case Start(d) => s.(calls := s.calls + [Call(d, 0, true, Between, None)])
      case _ =>
        var c := s.calls[m.call];
        Database(accounts, s, c, m).(calls := s.calls[m.call := After(accounts, s, c, m)])
  }

  function TakeAll(accounts: set<Route>, s: System, ms: seq<Move>): (r: System) {
    if ms == [] then s else Take(accounts, TakeAll(accounts, s, ms[..|ms| - 1]), ms[|ms| - 1])
  }

  // ---------------------------------------------------------------- what every run keeps

  /** No item before `n` takes the entry along. */
  predicate NoneGuarded(d: Delivery, n: nat) {
    n <= |ItemsOf(d)| && forall i :: 0 <= i < n ==> !ItemsOf(d)[i].Guarded?
  }

  predicate HasGuarded(d: Delivery) { exists i :: 0 <= i < |ItemsOf(d)| && ItemsOf(d)[i].Guarded? }

  /** Nothing decided, nothing guarded passed; a transaction is open at a guarded item or at the end. */
  predicate Undecided(accounts: set<Route>, ledger: set<Key>, c: Call) {
    && NoneGuarded(c.delivery, c.next) && !c.phase.Answered?
    && (c.phase.Open? ==> At(c, Guarded) || AtEnd(c))
    && (c.phase == Open(true) ==> c.delivery.route in accounts)
    && (c.phase == Open(false) && c.delivery.route in accounts ==> EntryOf(c.delivery) in ledger)
  }

  /** The entry went in together with a guarded item. */
  predicate Recorded(accounts: set<Route>, ledger: set<Key>, c: Call) {
    && !c.phase.Open? && !NoneGuarded(c.delivery, c.next) && c.delivery.route in accounts
    && c.decided == Some(Decision(Accepted, false)) && EntryOf(c.delivery) in ledger
    && (c.phase.Answered? ==> c.phase.answer.Accepted? && AtEnd(c))
  }

  /** The call answered without recording a guarded item: the insert added nothing, or there was none. */
  predicate Ended(accounts: set<Route>, ledger: set<Key>, c: Call)
    requires c.decided.Some?
  {
    var d := c.decided.value;
    && NoneGuarded(c.delivery, c.next) && c.phase == Answered(d.answer)
    && (d.before || c.delivery.route in accounts ==> EntryOf(c.delivery) in ledger)
    && (if At(c, Guarded) then d.answer.AlreadyRecorded? && (c.delivery.route in accounts ==> d.before)
        else AtEnd(c) && d.answer == if c.delivery.inbound.Refused? then Rejected else Accepted)
  }

  predicate CallOk(accounts: set<Route>, ledger: set<Key>, c: Call) {
    && c.next <= |ItemsOf(c.delivery)|
    && if !c.pending then Recorded(accounts, ledger, c)
       else if c.decided.None? then Undecided(accounts, ledger, c)
       else Ended(accounts, ledger, c)
  }

  /** Entries in open transactions are not in the ledger. */
  predicate Uncommitted(s: System) {
    forall i :: 0 <= i < |s.calls| && s.calls[i].phase == Open(true) ==> EntryOf(s.calls[i].delivery) !in s.ledger
  }

  /** No two open transactions hold the same entry. */
  predicate Exclusive(s: System) {
    forall i, j :: 0 <= i < j < |s.calls| && s.calls[i].phase == s.calls[j].phase == Open(true) ==>
      EntryOf(s.calls[i].delivery) != EntryOf(s.calls[j].delivery)
  }

  /** No two calls recorded the same entry together with a guarded item. */
  predicate OneRecorder(s: System) {
    forall i, j :: 0 <= i < j < |s.calls| && !s.calls[i].pending && !s.calls[j].pending ==>
      EntryOf(s.calls[i].delivery) != EntryOf(s.calls[j].delivery)
  }

  ghost predicate EffectsOk(accounts: set<Route>, s: System) {
    && (forall k :: s.effects[k] <= if k in s.ledger then 1 else 0)
    && (forall k :: k in s.ledger ==> exists r :: r in accounts && r.tenantId == k.tenantId)
  }

  ghost predicate Inv(accounts: set<Route>, s: System) {
    && (forall i :: 0 <= i < |s.calls| ==> CallOk(accounts, s.ledger, s.calls[i]))
    && Uncommitted(s) && Exclusive(s) && OneRecorder(s) && EffectsOk(accounts, s)
  }

  lemma {:induction false} LedgerGrows(accounts: set<Route>, s: System, m: Move)
    ensures s.ledger <= Take(accounts, s, m).ledger
  {
  }

  lemma {:induction false} OwnCallOk(accounts: set<Route>, s: System, m: Move)
    requires !m.Start? && Possible(accounts, s, m) && CallOk(accounts, s.ledger, s.calls[m.call])
    requires s.calls[m.call].phase == Open(true) ==> EntryOf(s.calls[m.call].delivery) !in s.ledger
    ensures CallOk(accounts, Take(accounts, s, m).ledger, After(accounts, s, s.calls[m.call], m))
  {
  }

  lemma {:induction false} CallsStayOk(accounts: set<Route>, s: System, m: Move)
    requires Inv(accounts, s)
    ensures forall i :: 0 <= i < |Take(accounts, s, m).calls| ==>
              CallOk(accounts, Take(accounts, s, m).ledger, Take(accounts, s, m).calls[i])
  {
    var u := Take(accounts, s, m);
    LedgerGrows(accounts, s, m);
    if !m.Start? && Possible(accounts, s, m) {
      OwnCallOk(accounts, s, m);
    }
    forall i | 0 <= i < |u.calls| ensures CallOk(accounts, u.ledger, u.calls[i]) {
      if i < |s.calls| {
        assert CallOk(accounts, s.ledger, s.calls[i]);
      }
    }
  }

  lemma {:induction false} StaysUncommitted(accounts: set<Route>, s: System, m: Move)
    requires Inv(accounts, s)
    ensures Uncommitted(Take(accounts, s, m))
  {
  }

  lemma {:induction false} StaysExclusive(accounts: set<Route>, s: System, m: Move)
    requires Inv(accounts, s)
    ensures Exclusive(Take(accounts, s, m))
  {
  }

  lemma {:induction false} StaysOneRecorder(accounts: set<Route>, s: System, m: Move)
    requires Inv(accounts, s)
    ensures OneRecorder(Take(accounts, s, m))
  {
  }

  lemma {:induction false} EffectsStayOk(accounts: set<Route>, s: System, m: Move)
    requires Inv(accounts, s)
    ensures EffectsOk(accounts, Take(accounts, s, m))
  {
  }

  lemma {:induction false} TakeKeeps(accounts: set<Route>, s: System, m: Move)
    requires Inv(accounts, s)
    ensures Inv(accounts, Take(accounts, s, m))
  {
    CallsStayOk(accounts, s, m);
    StaysUncommitted(accounts, s, m);
    StaysExclusive(accounts, s, m);
    StaysOneRecorder(accounts, s, m);
    EffectsStayOk(accounts, s, m);
  }

  lemma {:induction false} RunKeeps(accounts: set<Route>, ms: seq<Move>)
    ensures Inv(accounts, TakeAll(accounts, NOTHING, ms))
  {
    if ms != [] {
      RunKeeps(accounts, ms[..|ms| - 1]);
      TakeKeeps(accounts, TakeAll(accounts, NOTHING, ms[..|ms| - 1]), ms[|ms| - 1]);
    }
  }

  // ---------------------------------------------------------------- the contract of the sink

  /** What the receivers' protocol sees of the sink. */
  function View(s: System): (w: World) {
    INITIAL.(ledger := s.ledger, effects := s.effects, rejections := s.rejections)
  }

  /** The account exists, and the notification was rejected or has something to record its entry with. */
  predicate Regular(accounts: set<Route>, d: Delivery) {
    d.route in accounts && (d.inbound.Refused? || HasGuarded(d))
  }

  /**
   * The protocol's contract derived: a call of a regular delivery changes the ledger, the effects and
   * the rejections at the commit of one transaction and nowhere else, as one delivery of the protocol
   * with an answer that SinkMay allows.
   */
  lemma {:induction false} CommitIsADelivery(cfg: Config, accounts: set<Route>, ms: seq<Move>, m: Move)
    requires cfg.recordsLedger
    ensures var s := TakeAll(accounts, NOTHING, ms);
            var w, u := View(s), View(Take(accounts, s, m));
            if m.Commit? && Possible(accounts, s, m) then
              var c := s.calls[m.call];
              Regular(accounts, c.delivery) ==>
                && SinkMay(cfg, w, EntryOf(c.delivery), Answer(c))
                && u == Delivering(cfg, w, EntryOf(c.delivery), Answer(c))
            else u == w
  {
    RunKeeps(accounts, ms);
    var s := TakeAll(accounts, NOTHING, ms);
    if m.Commit? && Possible(accounts, s, m) {
      assert CallOk(accounts, s.ledger, s.calls[m.call]);
      var k := EntryOf(s.calls[m.call].delivery);
      assert k in s.ledger ==> s.ledger + {k} == s.ledger;
    }
  }

  /** A call decides once, and the answer it gives is what it decided. */
  lemma {:induction false} AnswerIsTheDecision(accounts: set<Route>, ms: seq<Move>, j: nat, m: Move)
    ensures var s := TakeAll(accounts, NOTHING, ms);
            j < |s.calls| ==>
              && (s.calls[j].phase.Answered? ==>
                    s.calls[j].decided.Some? && s.calls[j].decided.value.answer == s.calls[j].phase.answer)
              && (s.calls[j].decided.Some? ==> Take(accounts, s, m).calls[j].decided == s.calls[j].decided)
  {
    RunKeeps(accounts, ms);
    var s := TakeAll(accounts, NOTHING, ms);
    if j < |s.calls| {
      assert CallOk(accounts, s.ledger, s.calls[j]);
    }
  }

  /** The two clauses of SinkMay, about the ledger when the call decided. */
  predicate Honest(d: Decision) {
    (d.answer.Accepted? ==> !d.before) && (d.answer.AlreadyRecorded? ==> d.before)
  }

  /** Whatever else goes on, an answer to this delivery meets the contract. */
  ghost predicate AlwaysHonest(accounts: set<Route>, d: Delivery) {
    forall ms, j: nat ::
      var s := TakeAll(accounts, NOTHING, ms);
      j < |s.calls| && s.calls[j].delivery == d && s.calls[j].phase.Answered? ==>
        s.calls[j].decided.Some? && Honest(s.calls[j].decided.value)
  }

  /** No account of the tenant exists, so nothing of it is ever recorded. */
  predicate Unknown(accounts: set<Route>, d: Delivery) {
    forall r :: r in accounts ==> r.tenantId != d.route.tenantId
  }

  predicate Meets(accounts: set<Route>, d: Delivery) {
    d.inbound.Refused? || if HasGuarded(d) then d.route in accounts else Unknown(accounts, d)
  }

  lemma {:induction false} MeetsIsHonest(accounts: set<Route>, d: Delivery)
    requires Meets(accounts, d)
    ensures AlwaysHonest(accounts, d)
  {
    forall ms, j: nat
      ensures var s := TakeAll(accounts, NOTHING, ms);
              j < |s.calls| && s.calls[j].delivery == d && s.calls[j].phase.Answered? ==>
                s.calls[j].decided.Some? && Honest(s.calls[j].decided.value)
    {
      RunKeeps(accounts, ms);
      var s := TakeAll(accounts, NOTHING, ms);
      if j < |s.calls| {
        assert CallOk(accounts, s.ledger, s.calls[j]);
      }
    }
  }

  // ---------------------------------------------------------------- runs that show the other half

  lemma {:induction false} TakeOne(accounts: set<Route>, s: System, ms: seq<Move>, m: Move)
    ensures TakeAll(accounts, s, ms + [m]) == Take(accounts, TakeAll(accounts, s, ms), m)
  {
    assert (ms + [m])[..|ms|] == ms;
  }

  lemma {:induction false} TakeAppend(accounts: set<Route>, s: System, ms: seq<Move>, ns: seq<Move>)
    ensures TakeAll(accounts, s, ms + ns) == TakeAll(accounts, TakeAll(accounts, s, ms), ns)
  {
    if ns == [] {
      assert ms + ns == ms;
    } else {
      var n := |ns| - 1;
      assert (ms + ns)[..|ms + ns| - 1] == ms + ns[..n];
      TakeAppend(accounts, s, ms, ns[..n]);
    }
  }

  /** No transaction is open. */
  predicate Quiet(s: System) { forall i :: 0 <= i < |s.calls| ==> !s.calls[i].phase.Open? }

  /** Call `j` is new and has passed `n` items; the ledger is as it was and no item from `n` on was applied. */
  predicate Waiting(s: System, j: nat, d: Delivery, n: nat) {
    && |s.calls| == j + 1 && s.calls[j] == Call(d, n, true, Between, None) && Quiet(s)
    && forall x :: x in s.applied ==> x.call <= j && (x.call == j ==> x.item < n)
  }

  /** A call that starts and passes the items before its first guarded one. */
  lemma {:induction false} Passes(accounts: set<Route>, s: System, d: Delivery, n: nat) returns (ms: seq<Move>)
    requires Quiet(s) && NoneGuarded(d, n) && forall x :: x in s.applied ==> x.call < |s.calls|
    ensures Waiting(TakeAll(accounts, s, ms), |s.calls|, d, n) && TakeAll(accounts, s, ms).ledger == s.ledger
  {
    if n == 0 {
      ms := [Start(d)];
      TakeOne(accounts, s, [], Start(d));
      assert [] + [Start(d)] == [Start(d)];
    } else {
      ms := Passes(accounts, s, d, n - 1);
      TakeOne(accounts, s, ms, Pass(|s.calls|));
      ms := ms + [Pass(|s.calls|)];
    }
  }

  /** Where the call decides: its first guarded item, or its end. */
  function FirstGuarded(items: seq<Item>): (n: nat)
    ensures n <= |items| && (forall i :: 0 <= i < n ==> !items[i].Guarded?) && (n < |items| ==> items[n].Guarded?)
  {
    if items == [] || items[0].Guarded? then 0 else 1 + FirstGuarded(items[1..])
  }

  /** A new call goes to its decision and commits it while no other transaction is open. */
  lemma {:induction false} Decides(accounts: set<Route>, s: System, d: Delivery) returns (ms: seq<Move>)
    requires Quiet(s) && forall x :: x in s.applied ==> x.call < |s.calls|
    ensures var u, n := TakeAll(accounts, s, ms), FirstGuarded(ItemsOf(d));
            var ins := Inserts(accounts, s.ledger, d);
            var c := Call(d, n, true, Open(ins), None);
            && |u.calls| == |s.calls| + 1 && u.calls[|s.calls|] == After(accounts, s, c, Commit(|s.calls|))
            && Quiet(u) && u.ledger == (if ins then s.ledger + {EntryOf(d)} else s.ledger)
            && forall x :: x in u.applied ==> x.call <= |s.calls| && (x.call == |s.calls| ==> x.item <= n)
  {
    var j := |s.calls|;
    ms := Passes(accounts, s, d, FirstGuarded(ItemsOf(d)));
    TakeOne(accounts, s, ms, Insert(j));
    TakeOne(accounts, s, ms + [Insert(j)], Commit(j));
    ms := ms + [Insert(j)] + [Commit(j)];
  }

  /**
   * Which deliveries meet the contract in every run: rejected ones; those with something to record
   * the entry with, for an account that exists; and those of which nothing can ever be recorded.
   * A delivery without such an item is accepted at its end also when the entry was there before, and
   * one for an account that does not exist is called a repetition of what was never recorded.
   */
  lemma {:induction false} HonestExactlyWhenMeets(accounts: set<Route>, d: Delivery)
    ensures AlwaysHonest(accounts, d) <==> Meets(accounts, d)
  {
    if Meets(accounts, d) {
      MeetsIsHonest(accounts, d);
    } else if HasGuarded(d) {
      var ms := Decides(accounts, NOTHING, d);
      var s := TakeAll(accounts, NOTHING, ms);
      assert s.calls[0].decided == Some(Decision(AlreadyRecorded, false));
    } else {
      var r :| r in accounts && r.tenantId == d.route.tenantId;
      var first := Delivery(r, d.notificationId, Refused);
      var ms := Decides(accounts, NOTHING, first);
      var s := TakeAll(accounts, NOTHING, ms);
      assert EntryOf(d) in s.ledger;
      var ns := Decides(accounts, s, d);
      TakeAppend(accounts, NOTHING, ms, ns);
      var u := TakeAll(accounts, NOTHING, ms + ns);
      assert u.calls[1].decided == Some(Decision(Accepted, true));
    }
  }

  // ---------------------------------------------------------------- what takes effect

  /** The item is one that does something. */
  predicate Does(s: System, j: nat, i: nat) {
    j < |s.calls| && i < |ItemsOf(s.calls[j].delivery)| && !ItemsOf(s.calls[j].delivery)[i].Ignored?
  }

  predicate IsGuarded(s: System, x: Applied) {
    Does(s, x.call, x.item) && ItemsOf(s.calls[x.call].delivery)[x.item].Guarded?
  }

  /** What was applied was passed by its call, and a guarded item only by a call that recorded its entry. */
  predicate AppliedWas(s: System) {
    forall x :: x in s.applied ==>
      && Does(s, x.call, x.item) && x.item < s.calls[x.call].next
      && (IsGuarded(s, x) ==> !s.calls[x.call].pending)
  }

  predicate AppliedOnce(s: System) { forall p, q :: 0 <= p < q < |s.applied| ==> s.applied[p] != s.applied[q] }

  /** What a call passed was applied. */
  ghost predicate PassedIsApplied(s: System) {
    forall j: nat, i: nat :: Does(s, j, i) && i < s.calls[j].next ==> Applied(j, i) in s.applied
  }

  ghost predicate AppliedOk(s: System) { AppliedWas(s) && AppliedOnce(s) && PassedIsApplied(s) }

  /** A call passes an item in this move, and applies it unless it is ignored. */
  predicate Passing(c: Call, r: Call, more: seq<Applied>, j: nat) {
    && r.delivery == c.delivery && (!c.pending ==> !r.pending)
    && if r.next == c.next then more == []
       else
         && !AtEnd(c) && r.next == c.next + 1
         && more == (if At(c, Ignored) then [] else [Applied(j, c.next)])
         && (At(c, Guarded) ==> !r.pending)
  }

  lemma {:induction false} MovePasses(accounts: set<Route>, s: System, m: Move)
    requires !m.Start? && Possible(accounts, s, m) && CallOk(accounts, s.ledger, s.calls[m.call])
    ensures var u, c := Take(accounts, s, m), s.calls[m.call];
            && u.calls == s.calls[m.call := u.calls[m.call]]
            && s.applied <= u.applied
            && Passing(c, u.calls[m.call], u.applied[|s.applied|..], m.call)
  {
  }

  lemma {:induction false} PassingKeeps(s: System, u: System, j: nat, more: seq<Applied>)
    requires AppliedOk(s) && j < |s.calls| == |u.calls| && u.calls == s.calls[j := u.calls[j]]
    requires u.applied == s.applied + more && Passing(s.calls[j], u.calls[j], more, j)
    ensures AppliedOk(u)
  {
    forall i: nat, k: nat | Does(u, k, i) && i < u.calls[k].next ensures Applied(k, i) in u.applied {
      assert Does(s, k, i);
    }
    forall x | x in u.applied
      ensures Does(u, x.call, x.item) && x.item < u.calls[x.call].next && (IsGuarded(u, x) ==> !u.calls[x.call].pending)
    {
      assert x in s.applied || x in more;
    }
  }

  lemma {:induction false} AppliedStays(accounts: set<Route>, s: System, m: Move)
    requires Inv(accounts, s) && AppliedOk(s)
    ensures AppliedOk(Take(accounts, s, m))
  {
    var u := Take(accounts, s, m);
    if m.Start? {
      assert u.calls[..|s.calls|] == s.calls;
    } else if Possible(accounts, s, m) {
      MovePasses(accounts, s, m);
      PassingKeeps(s, u, m.call, u.applied[|s.applied|..]);
    }
  }

  lemma {:induction false} RunApplies(accounts: set<Route>, ms: seq<Move>)
    ensures AppliedOk(TakeAll(accounts, NOTHING, ms))
  {
    if ms != [] {
      RunKeeps(accounts, ms[..|ms| - 1]);
      RunApplies(accounts, ms[..|ms| - 1]);
      AppliedStays(accounts, TakeAll(accounts, NOTHING, ms[..|ms| - 1]), ms[|ms| - 1]);
    }
  }

  /** Guarded items of one notification. */
  predicate Repeats(s: System, x: Applied, y: Applied) {
    && IsGuarded(s, x) && IsGuarded(s, y)
    && EntryOf(s.calls[x.call].delivery) == EntryOf(s.calls[y.call].delivery)
  }

  /**
   * However many calls for a notification overlap, roll back, are tried again or stop: its guarded
   * items take effect through one of them at most, each once; and an accepted call has applied all its
   * items, any other call that answers none that is guarded.
   */
  lemma {:induction false} TakesEffectOnce(accounts: set<Route>, ms: seq<Move>)
    ensures var s := TakeAll(accounts, NOTHING, ms);
            && (forall p, q :: 0 <= p < q < |s.applied| && Repeats(s, s.applied[p], s.applied[q]) ==>
                  s.applied[p].call == s.applied[q].call && s.applied[p].item != s.applied[q].item)
            && (forall j: nat, i: nat :: Does(s, j, i) && s.calls[j].phase == Answered(Accepted) ==>
                  Applied(j, i) in s.applied)
            && (forall x :: x in s.applied && IsGuarded(s, x) && s.calls[x.call].phase.Answered? ==>
                  s.calls[x.call].phase.answer.Accepted?)
            && (forall k :: s.effects[k] <= if k in s.ledger then 1 else 0)
  {
    RunKeeps(accounts, ms);
    RunApplies(accounts, ms);
    var s := TakeAll(accounts, NOTHING, ms);
    forall j: nat, i: nat | Does(s, j, i) && s.calls[j].phase == Answered(Accepted) ensures Applied(j, i) in s.applied {
      assert CallOk(accounts, s.ledger, s.calls[j]);
    }
    forall x | x in s.applied && IsGuarded(s, x) && s.calls[x.call].phase.Answered?
      ensures s.calls[x.call].phase.answer.Accepted?
    {
      assert CallOk(accounts, s.ledger, s.calls[x.call]);
    }
    forall p, q | 0 <= p < q < |s.applied| && Repeats(s, s.applied[p], s.applied[q])
      ensures s.applied[p].call == s.applied[q].call && s.applied[p].item != s.applied[q].item
    {
      assert s.applied[p] in s.applied && s.applied[q] in s.applied;
    }
  }

  /** Two accounts of one tenant share the entry: of their deliveries of a notification one is accepted at most. */
  lemma {:induction false} TwoAccountsShare(accounts: set<Route>, ms: seq<Move>, i: nat, j: nat)
    requires i < j < |TakeAll(accounts, NOTHING, ms).calls|
    ensures var s := TakeAll(accounts, NOTHING, ms);
            var c, d := s.calls[i].delivery, s.calls[j].delivery;
            c.route.tenantId == d.route.tenantId && c.notificationId == d.notificationId
            && HasGuarded(c) && HasGuarded(d) ==>
              !(s.calls[i].phase == s.calls[j].phase == Answered(Accepted))
  {
    RunKeeps(accounts, ms);
    var s := TakeAll(accounts, NOTHING, ms);
    assert CallOk(accounts, s.ledger, s.calls[i]) && CallOk(accounts, s.ledger, s.calls[j]);
  }

  // ---------------------------------------------------------------- all of a notification or nothing

  /** A call that recorded its entry and is over has applied all its items. */
  ghost predicate AllOrNothing(accounts: set<Route>, d: Delivery) {
    forall ms, j: nat, i: nat ::
      var s := TakeAll(accounts, NOTHING, ms);
      Does(s, j, i) && s.calls[j].delivery == d && !s.calls[j].pending && s.calls[j].phase.Gone? ==>
        Applied(j, i) in s.applied
  }

  /** Nothing is to be done behind the item that takes the entry along. */
  predicate NothingBehind(d: Delivery) {
    forall i, k :: 0 <= i < k < |ItemsOf(d)| && ItemsOf(d)[i].Guarded? ==> ItemsOf(d)[k].Ignored?
  }

  lemma {:induction false} NothingBehindIsWhole(accounts: set<Route>, d: Delivery)
    requires d.route in accounts ==> NothingBehind(d)
    ensures AllOrNothing(accounts, d)
  {
    forall ms, j: nat, i: nat
      ensures var s := TakeAll(accounts, NOTHING, ms);
              Does(s, j, i) && s.calls[j].delivery == d && !s.calls[j].pending && s.calls[j].phase.Gone? ==>
                Applied(j, i) in s.applied
    {
      RunKeeps(accounts, ms);
      RunApplies(accounts, ms);
      var s := TakeAll(accounts, NOTHING, ms);
      if Does(s, j, i) && s.calls[j].delivery == d && !s.calls[j].pending {
        assert CallOk(accounts, s.ledger, s.calls[j]);
        var g :| 0 <= g < s.calls[j].next && ItemsOf(d)[g].Guarded?;
        assert i < s.calls[j].next;
      }
    }
  }

  /**
   * A call that stops after its entry was recorded is not repeated, the entry being there. So a
   * notification is applied as a whole or not at all, in every run, exactly when nothing is to be done
   * behind its first guarded item.
   */
  lemma {:induction false} WholeExactlyWhenNothingBehind(accounts: set<Route>, d: Delivery)
    ensures AllOrNothing(accounts, d) <==> (d.route in accounts ==> NothingBehind(d))
  {
    if d.route in accounts ==> NothingBehind(d) {
      NothingBehindIsWhole(accounts, d);
    } else {
      var i, k :| 0 <= i < k < |ItemsOf(d)| && ItemsOf(d)[i].Guarded? && !ItemsOf(d)[k].Ignored?;
      var ms := Decides(accounts, NOTHING, d);
      TakeOne(accounts, NOTHING, ms, Stop(0));
      var s := TakeAll(accounts, NOTHING, ms + [Stop(0)]);
      assert Does(s, 0, k) && !s.calls[0].pending && s.calls[0].phase.Gone?;
      assert Applied(0, k) !in s.applied;
    }
  }

  // ---------------------------------------------------------------- what the ledger says

  ghost predicate Exact(accounts: set<Route>, s: System) {
    (forall i :: 0 <= i < |s.calls| ==> Regular(accounts, s.calls[i].delivery)) ==>
      forall k :: k in s.ledger <==> s.effects[k] == 1 || k in s.rejections
  }

  lemma {:induction false} StaysExact(accounts: set<Route>, s: System, m: Move)
    requires Inv(accounts, s) && Exact(accounts, s)
    ensures Exact(accounts, Take(accounts, s, m))
  {
    var u := Take(accounts, s, m);
    if forall i :: 0 <= i < |u.calls| ==> Regular(accounts, u.calls[i].delivery) {
      forall i | 0 <= i < |s.calls| ensures Regular(accounts, s.calls[i].delivery) {
        assert u.calls[i].delivery == s.calls[i].delivery;
      }
      if m.Commit? && Possible(accounts, s, m) {
        assert CallOk(accounts, s.ledger, s.calls[m.call]);
      }
    }
  }

  /** Of regular deliveries the ledger holds exactly the entries of those that took effect or were rejected. */
  lemma {:induction false} LedgerIsExact(accounts: set<Route>, ms: seq<Move>)
    ensures Exact(accounts, TakeAll(accounts, NOTHING, ms))
  {
    if ms != [] {
      RunKeeps(accounts, ms[..|ms| - 1]);
      LedgerIsExact(accounts, ms[..|ms| - 1]);
      StaysExact(accounts, TakeAll(accounts, NOTHING, ms[..|ms| - 1]), ms[|ms| - 1]);
    }
  }
}
