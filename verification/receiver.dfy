/**
 * createNotificationReceiver (packages/amazon-notifications/src/receiver.ts:141-292) with the loops
 * and branches of the source, run against an environment shared with other receivers. Whatever the
 * environment answers, and whatever others do between two of its calls, a poll is a run of
 * ReceiverProtocol; so every theorem of ReceiverSafety holds after it.
 */
module Receiver {
  import opened Common
  import opened SqsQueue
  import opened ReceiverProtocol
  import opened ReceiverSafety

  /** A receiver inside the fan-out of a message, at this stage of a route that is left to do. */
  predicate On(w: Worker, stage: Stage) {
    w.Handling? && w.task.Fanout? && w.task.stage == stage && w.task.next < |w.task.routes|
  }

  function Moved(w: Worker, stage: Stage): (r: Worker)
    requires w.Handling? && w.task.Fanout?
  {
    w.(task := w.task.(stage := stage))
  }

  function CountedOn(w: Worker, a: SinkAnswer): (r: Worker)
    requires w.Handling? && w.task.Fanout?
  {
    w.(task := Counted(w.task, a))
  }

  datatype Alert =
    | NOTIFICATION_GIVING_UP | NOTIFICATION_UNPARSEABLE | NOTIFICATION_FOREIGN_APPLICATION
    | NOTIFICATION_UNKNOWN_SELLER | NOTIFICATION_LATE | NOTIFICATION_QUEUE_SILENT

  /** The event is one of those that came after `before`. */
  ghost predicate Added(e: Event, before: seq<Event>, now: seq<Event>) {
    before <= now && e in now[|before|..]
  }

  lemma {:induction false} AddedStays(e: Event, before: seq<Event>, mid: seq<Event>, now: seq<Event>, later: seq<Event>)
    requires before <= mid && Added(e, mid, now) && now <= later
    ensures Added(e, before, later)
  {
    var i :| |mid| <= i < |now| && now[i] == e;
    assert later[|before|..][i - |before|] == e;
  }

  /**
   * Queue, ledger, journal, sink and the other processes. Each call first lets the others act, then
   * answers as the state allows; failures and the answers of the sink are its own choice.
   */
  class Environment {
    const cfg: Config
    var world: World
    ghost var trace: seq<Event>
    /** What the router answered for which seller. */
    ghost var routed: seq<(string, seq<Route>)>
    /** The alerts that were raised, whether or not raising them failed. */
    ghost var alerts: seq<Alert>
    /** How many calls have thrown. */
    ghost var thrown: nat

    ghost predicate Valid()
      reads this
    {
      world == Run(cfg, INITIAL, trace)
    }

    constructor (cfg: Config)
      ensures Valid() && this.cfg == cfg && world == INITIAL
      ensures trace == [] && routed == [] && alerts == [] && thrown == 0
    {
      this.cfg := cfg;
      world := INITIAL;
      trace, routed, alerts, thrown := [], [], [], 0;
    }

    /** Any events of the sender, the queue and the receivers other than `me`. */
    method Others(me: nat)
      requires Valid()
      modifies `world, `trace
      ensures Valid() && old(trace) <= trace
      ensures Local(world, me) == old(Local(world, me))
      ensures forall e :: e in trace[|old(trace)|..] ==> ByEnvironment(e) || e.worker != me
    {
      var es: seq<Event> := *;
      if forall e :: e in es ==> ByEnvironment(e) || e.worker != me {
        OthersKeepLocal(cfg, world, es, me);
        RunAppend(cfg, INITIAL, trace, es);
        world := Run(cfg, world, es);
        trace := trace + es;
        assert trace[|old(trace)|..] == es;
      }
    }

    /** One event of a receiver. */
    method Do(e: Event)
      requires Valid() && !ByEnvironment(e) && Enabled(cfg, world, e)
      modifies `world, `trace
      ensures Valid() && trace == old(trace) + [e]
      ensures Local(world, e.worker) == After(cfg, old(Local(world, e.worker)), e)
    {
      RunAppend(cfg, INITIAL, trace, [e]);
      assert Run(cfg, world, [e]) == Step(cfg, world, e) by {
        assert [e][..0] == [];
      }
      world := Step(cfg, world, e);
      trace := trace + [e];
    }

    /** An event that touches nothing but the receiver's own state. */
    method Own(e: Event)
      requires Valid() && (e.Begin? || e.Finish? || e.StartDelete? || e.EndPoll? || e.Abort?)
      requires Ready(cfg, Local(world, e.worker), e)
      modifies `world, `trace
      ensures Valid() && Added(e, old(trace), trace)
      ensures Local(world, e.worker) == After(cfg, old(Local(world, e.worker)), e)
      ensures TakenOut(cfg, trace, |old(trace)|, e.worker) == 0
    {
      Others(e.worker);
      OthersTakeNone(cfg, trace, |old(trace)|, e.worker);
      ghost var others := trace;
      Do(e);
      assert trace[|trace| - 1] == e && trace[..|trace| - 1] == others;
    }

    /** The message goes to its routes. */
    method Enter(me: nat, routes: seq<Route>)
      requires Valid() && Local(world, me).Handling? && Local(world, me).task.NoTask? && Local(world, me).todo != []
      requires Screen(cfg, Local(world, me).todo[0].content, routes).None?
      modifies `world, `trace
      ensures Valid() && Added(Begin(me, routes), old(trace), trace)
      ensures var w := old(Local(world, me));
              Local(world, me) == w.(todo := w.todo[1..], task := Fanout(w.todo[0], routes, 0, AtJournal, 0, 0, 0))
    {
      Own(Begin(me, routes));
    }

    /** All routes of the message are done: it is queued for deletion. */
    method Leave(me: nat)
      requires Valid() && Local(world, me).Handling? && Local(world, me).task.Fanout?
                 && Local(world, me).task.stage.AtJournal?
      requires Local(world, me).task.next == |Local(world, me).task.routes|
      modifies `world, `trace
      ensures Valid() && old(trace) <= trace
      ensures var w := old(Local(world, me));
              Local(world, me) == w.(task := NoTask, outcomes := w.outcomes + [FanoutOutcome(w.task)],
                                     toDelete := w.toDelete + [Ticket(w.task.message, w.task.routes)])
    {
      Own(Finish(me));
    }

    method Now(me: nat) returns (ms: int)
      requires Valid()
      modifies `world, `trace
      ensures Valid() && old(trace) <= trace && Local(world, me) == old(Local(world, me))
      ensures ms == world.now
    {
      Others(me);
      ms := world.now;
    }

    /** ReceiveMessage; None is a queue error. */
    method Receive(me: nat) returns (r: Option<seq<Received>>)
      requires Valid() && Local(world, me).Idle?
      modifies `world, `trace
      ensures Valid() && old(trace) <= trace
      ensures r.None? ==> Local(world, me).Idle?
      ensures r.Some? ==> |r.value| <= 10 && Local(world, me) == Handling(SortByTime(r.value), NoTask, [], [])
    {
      Others(me);
      var fails: bool := *;
      if fails {
        return None;
      }
      var out := HandedOut(world.queue, world.now, BatchLimit(cfg.policy));
      Do(Poll(me, SortByTime(out)));
      r := Some(out);
    }

    /** The router's answer for the seller of a message. */
    method Resolve(me: nat, sellerId: string) returns (r: Reply<seq<Route>>)
      requires Valid()
      modifies this
      ensures Valid() && old(trace) <= trace && Local(world, me) == old(Local(world, me))
      ensures routed == old(routed) + if r.Answer? then [(sellerId, r.value)] else []
      ensures alerts == old(alerts)
      ensures thrown == old(thrown) + if r.Threw? then 1 else 0
    {
      Others(me);
      r := *;
      match r {
        case Answer(routes) => routed := routed + [(sellerId, routes)];
        case Threw => thrown := thrown + 1;
      }
    }

    /** An alert; false when raising it fails. */
    method RaiseAlert(me: nat, alert: Alert) returns (ok: bool)
      requires Valid()
      modifies `world, `trace, `alerts, `thrown
      ensures Valid() && old(trace) <= trace && Local(world, me) == old(Local(world, me))
      ensures alerts == old(alerts) + [alert]
      ensures thrown == old(thrown) + if ok then 0 else 1
    {
      Others(me);
      alerts := alerts + [alert];
      ok := *;
      thrown := if ok then thrown else thrown + 1;
    }

    /** A call of the fan-out that throws, its effect possibly committed. */
    method Throw(me: nat)
      requires Valid() && Local(world, me).Handling? && Local(world, me).task.Fanout?
                 && !Local(world, me).task.stage.Failed?
      modifies `world, `trace
      ensures Valid() && old(trace) <= trace
      ensures Local(world, me) == Moved(old(Local(world, me)), Failed)
    {
      Others(me);
      var lost: Option<SinkAnswer> := *;
      if Enabled(cfg, world, Fail(me, lost)) {
        Do(Fail(me, lost));
      } else {
        Do(Fail(me, None));
      }
    }

    method RecordRaw(me: nat) returns (r: Reply<bool>)
      requires Valid() && On(Local(world, me), AtJournal)
      modifies `world, `trace, `thrown
      ensures Valid() && old(trace) <= trace
      ensures Local(world, me) == Moved(old(Local(world, me)), if r.Threw? then Failed else AtCheck)
      ensures thrown == old(thrown) + if r.Threw? then 1 else 0
    {
      var fails: bool := *;
      if fails {
        Throw(me);
        thrown := thrown + 1;
        return Threw;
      }
      Others(me);
      var repeated := CurrentKey(Local(world, me)) in world.journal;
      Do(Journal(me, repeated));
      r := Answer(repeated);
    }

    method WasProcessed(me: nat) returns (r: Reply<bool>)
      requires Valid() && On(Local(world, me), AtCheck)
      modifies `world, `trace, `thrown
      ensures Valid() && old(trace) <= trace
      ensures r.Answer? && r.value ==> Local(world, me) == CountedOn(old(Local(world, me)), AlreadyRecorded)
      ensures !(r.Answer? && r.value) ==>
                Local(world, me) == Moved(old(Local(world, me)), if r.Threw? then Failed else AtDeliver)
      ensures thrown == old(thrown) + if r.Threw? then 1 else 0
    {
      var fails: bool := *;
      if fails {
        Throw(me);
        thrown := thrown + 1;
        return Threw;
      }
      Others(me);
      var found := CurrentKey(Local(world, me)) in world.ledger;
      Do(Check(me, found));
      r := Answer(found);
    }

    method DeliverToSink(me: nat) returns (r: Reply<SinkAnswer>)
      requires Valid() && On(Local(world, me), AtDeliver)
      modifies `world, `trace, `thrown
      ensures Valid() && old(trace) <= trace
      ensures r.Threw? ==> Local(world, me) == Moved(old(Local(world, me)), Failed)
      ensures r.Answer? && cfg.recordsLedger ==> Local(world, me) == CountedOn(old(Local(world, me)), r.value)
      ensures r.Answer? && !cfg.recordsLedger ==> Local(world, me) == Moved(old(Local(world, me)), AtMark(r.value))
      ensures thrown == old(thrown) + if r.Threw? then 1 else 0
    {
      var fails: bool := *;
      if fails {
        Throw(me);
        thrown := thrown + 1;
        return Threw;
      }
      Others(me);
      var answer: SinkAnswer := *;
      if !SinkMay(cfg, world, CurrentKey(Local(world, me)), answer) {
        answer := Rejected;
      }
      Do(Deliver(me, answer));
      r := Answer(answer);
    }

    method MarkProcessed(me: nat, ghost answer: SinkAnswer) returns (ok: bool)
      requires Valid() && On(Local(world, me), AtMark(answer))
      modifies `world, `trace, `thrown
      ensures Valid() && old(trace) <= trace
      ensures Local(world, me)
           == if ok then CountedOn(old(Local(world, me)), answer) else Moved(old(Local(world, me)), Failed)
      ensures thrown == old(thrown) + if ok then 0 else 1
    {
      ok := *;
      if ok {
        Others(me);
        Do(Mark(me));
      } else {
        Throw(me);
        thrown := thrown + 1;
      }
    }

    /** ChangeMessageVisibility for a message that failed; its result is not looked at by the caller. */
    method HideAgain(me: nat, seconds: int) returns (ok: bool)
      requires Valid() && Ready(cfg, Local(world, me), Settle(me, true))
      requires seconds == RetryPause(cfg.policy, Local(world, me).task.message.receiveCount)
      modifies `world, `trace, `thrown
      ensures Valid() && old(trace) <= trace
      ensures Local(world, me) == After(cfg, old(Local(world, me)), if ok then Settle(me, true) else Abort(me))
      ensures thrown == old(thrown) + if ok then 0 else 1
    {
      Others(me);
      ok := *;
      if ok {
        var hidden: bool := *;
        Do(Settle(me, hidden));
      } else {
        Do(Abort(me));
        thrown := thrown + 1;
      }
    }

    /** Giving a message up leaves it as it is. */
    method GiveUp(me: nat)
      requires Valid() && Ready(cfg, Local(world, me), Settle(me, false))
      modifies `world, `trace
      ensures Valid() && old(trace) <= trace
      ensures Local(world, me) == After(cfg, old(Local(world, me)), Settle(me, false))
    {
      Others(me);
      Do(Settle(me, false));
    }

    /** DeleteMessageBatch of the next chunk; None is a failed request, which may still have been performed. */
    method DeleteBatch(me: nat, handles: seq<Handle>) returns (r: Option<seq<bool>>)
      requires Valid() && Ready(cfg, Local(world, me), DeleteChunk(me, true, None))
      requires handles == HandlesOf(Chunk(Local(world, me).toDelete))
      modifies `world, `trace
      ensures Valid() && old(trace) <= trace
      ensures Local(world, me) == After(cfg, old(Local(world, me)), DeleteChunk(me, true, None))
      ensures r.Some? ==> |r.value| == |handles|
      ensures TakenOut(cfg, trace, |old(trace)|, me) == if r.Some? then CountTrue(r.value) else 0
    {
      Others(me);
      OthersTakeNone(cfg, trace, |old(trace)|, me);
      ghost var others := trace;
      var performed: bool := *;
      var lost: bool := *;
      r := if performed && !lost then Some(DeleteFlags(world.queue, handles)) else None;
      if r.Some? {
        AnsweredTakes(cfg, trace, DeleteChunk(me, performed, r));
      }
      Do(DeleteChunk(me, performed, r));
      assert trace[..|trace| - 1] == others;
    }
  }

  datatype PollReport =
    | Report(received: nat, outcomes: seq<Outcome>, deleted: nat, deleteFailed: nat)
    | QueueError
    | Aborted

  lemma {:induction false} ClockRuns(cfg: Config, es: seq<Event>, now: seq<Event>)
    requires es <= now
    ensures Run(cfg, INITIAL, es).now <= Run(cfg, INITIAL, now).now
  {
    var fs := now[|es|..];
    assert now == es + fs;
    RunAppend(cfg, INITIAL, es, fs);
    RunGrows(cfg, Run(cfg, INITIAL, es), fs);
  }

  /** What a receiver asks the queue to delete may be deleted, from then on. */
  lemma {:induction false} AskedIsDischarged(cfg: Config, mid: seq<Event>, now: seq<Event>, me: nat, asked: seq<Ticket>)
    requires mid <= now && Local(Run(cfg, INITIAL, mid), me) == Deleting(asked)
    ensures forall t :: t in asked ==> Discharged(cfg, Run(cfg, INITIAL, now), t)
  {
    RunKeeps(cfg, mid);
    var fs := now[|mid|..];
    assert now == mid + fs;
    RunAppend(cfg, INITIAL, mid, fs);
    RunGrows(cfg, Run(cfg, INITIAL, mid), fs);
    assert WorkerOk(cfg, Run(cfg, INITIAL, mid), Deleting(asked));
    GrowthKeepsWorker(cfg, Run(cfg, INITIAL, mid), Run(cfg, INITIAL, now), Deleting(asked));
  }

  /** The messages of a batch whose outcome does not keep them in the queue. */
  function Discarded(ms: seq<Received>, os: seq<Outcome>): (r: seq<Received>)
    requires |os| <= |ms|
  {
    if os == [] then []
    else
      var n := |os| - 1;
      Discarded(ms, os[..n]) + if Kept(os[n]) then [] else [ms[n]]
  }

  function MessagesOf(ts: seq<Ticket>): (r: seq<Received>)
    ensures |r| == |ts|
  {
    seq(|ts|, i requires 0 <= i < |ts| => ts[i].message)
  }

  /** The outcomes that a message with these routes can have. */
  predicate OutcomeFits(cfg: Config, c: Content, routes: seq<Route>, o: Outcome) {
    match Screen(cfg, c, routes)
    case Some(screened) => o == screened
    case None => o in {Delivered, Duplicate, RejectedByAdapter, Retry, GivenUp}
  }

  function Lates(n: nat): (r: seq<Alert>)
    ensures |r| == n && forall a :: a in r ==> a == NOTIFICATION_LATE
  {
    seq(n, i => NOTIFICATION_LATE)
  }

  lemma {:induction false} LatesAdd(before: seq<Alert>, n: nat, k: nat)
    ensures before + Lates(n) + Lates(k) == before + Lates(n + k)
  {
  }

  /** The alert of a message that is screened out; a corrupt one is given up at its last receipt only. */
  function ScreenAlerts(o: Outcome, last: bool): (r: seq<Alert>) {
    match o
    case Corrupt => if last then [NOTIFICATION_GIVING_UP] else []
    case UnparseableBody => [NOTIFICATION_UNPARSEABLE]
    case ForeignApplication => [NOTIFICATION_FOREIGN_APPLICATION]
    case UnknownSeller => [NOTIFICATION_UNKNOWN_SELLER]
    case _ => []
  }

  predicate LateAt(cfg: Config, c: Content, now: int) {
    c.sentMs.Some? && now - c.sentMs.value > cfg.policy.lateAfterMs
  }

  predicate WarnsIfLate(cfg: Config, c: Content, added: seq<Alert>, from: int, to: int) {
    AllLate(added) && if added == [] then !LateAt(cfg, c, from) else LateAt(cfg, c, to)
  }

  /**
   * The alerts that go with an outcome. Of a message that went to its routes: one that it is late for
   * each route that was not a duplicate, none on time, and at the end one when it is given up. `from`
   * and `to` are the clock before and after the handling.
   */
  predicate AlertsFit(cfg: Config, m: Received, o: Outcome, added: seq<Alert>, from: int, to: int) {
    var last := m.receiveCount >= cfg.policy.maxReceiveCount;
    match o
    case Delivered => WarnsIfLate(cfg, m.content, added, from, to)
    case RejectedByAdapter => WarnsIfLate(cfg, m.content, added, from, to)
    case Duplicate => added == []
    case Retry => !last && AllLate(added)
    case GivenUp =>
      last && added != [] && added[|added| - 1] == NOTIFICATION_GIVING_UP && AllLate(added[..|added| - 1])
    case _ => added == ScreenAlerts(o, last)
  }

  /** With this outcome there were `n` warnings that the message is late. */
  predicate WarnedLate(o: Outcome, late: bool, n: nat) {
    && (!late ==> n == 0)
    && (o.Duplicate? ==> n == 0)
    && (late && (o.Delivered? || o.RejectedByAdapter?) ==> n > 0)
  }

  /** The alerts of a message that went to its routes. */
  function WarningsOf(o: Outcome, n: nat): (r: seq<Alert>) {
    Lates(n) + if o.GivenUp? then [NOTIFICATION_GIVING_UP] else []
  }

  lemma {:induction false} LatesFit(cfg: Config, m: Received, o: Outcome, late: bool, n: nat, from: int, to: int)
    requires o in {Delivered, Duplicate, RejectedByAdapter, Retry, GivenUp} && WarnedLate(o, late, n)
    requires if late then LateAt(cfg, m.content, to) else !LateAt(cfg, m.content, from)
    requires o.GivenUp? ==> m.receiveCount >= cfg.policy.maxReceiveCount
    requires o.Retry? ==> m.receiveCount < cfg.policy.maxReceiveCount
    ensures AlertsFit(cfg, m, o, WarningsOf(o, n), from, to)
  {
    assert Lates(n) + [] == Lates(n);
    assert (Lates(n) + [NOTIFICATION_GIVING_UP])[..n] == Lates(n);
  }

  /** How many of the outcomes a call that threw inside the fan-out has led to. */
  function Failures(os: seq<Outcome>): (n: nat) {
    if os == [] then 0
    else Failures(os[..|os| - 1]) + if os[|os| - 1] in {Retry, GivenUp} then 1 else 0
  }

  lemma {:induction false} FitsEarlier(cfg: Config, m: Received, o: Outcome, added: seq<Alert>,
          earlier: int, from: int, to: int)
    requires earlier <= from && AlertsFit(cfg, m, o, added, from, to)
    ensures AlertsFit(cfg, m, o, added, earlier, to)
  {
  }

  predicate AllLate(added: seq<Alert>) { forall a :: a in added ==> a == NOTIFICATION_LATE }

  /** The router is asked about this message. */
  predicate Asks(cfg: Config, c: Content) { Eligible(cfg, c) && c.parsed.envelope.sellerId.Some? }

  /** One more message of a batch: it is among the discarded ones unless its outcome keeps it; its failure counts. */
  lemma {:induction false} HandledNext(ms: seq<Received>, os: seq<Outcome>, o: Outcome, ts: seq<Ticket>,
          next: seq<Ticket>)
    requires |os| < |ms| && MessagesOf(ts) == Discarded(ms, os)
    requires if Kept(o) then next == ts else |next| == |ts| + 1 && next[..|ts|] == ts && next[|ts|].message == ms[|os|]
    ensures MessagesOf(next) == Discarded(ms, os + [o])
    ensures Failures(os + [o]) == Failures(os) + Failures([o])
  {
    assert (os + [o])[..|os|] == os;
    assert [o][..0] == [];
    if !Kept(o) {
      assert MessagesOf(next) == MessagesOf(ts) + [ms[|os|]];
    }
  }

  class NotificationReceiver {
    const env: Environment
    const me: nat
    var lastMessageAt: int
    var silenceAlerted: bool

    constructor (env: Environment, me: nat)
      ensures this.env == env && this.me == me && lastMessageAt == env.world.now && !silenceAlerted
    {
      this.env, this.me := env, me;
      lastMessageAt, silenceAlerted := env.world.now, false;
    }

    /** Tells the environment that handle() is done with a message before any route of it. */
    method Screened(ghost m: Received, routes: seq<Route>)
      requires env.Valid() && Ready(env.cfg, Local(env.world, me), Begin(me, routes))
      requires m == Local(env.world, me).todo[0]
      modifies env`world, env`trace
      ensures env.Valid() && Added(Begin(me, routes), old(env.trace), env.trace)
      ensures Local(env.world, me) == After(env.cfg, old(Local(env.world, me)), Begin(me, routes))
    {
      env.Own(Begin(me, routes));
    }

    /** An exception leaves pollOnce: what it held is forgotten. */
    method Forget()
      requires env.Valid()
      modifies env`world, env`trace
      ensures env.Valid() && old(env.trace) <= env.trace && Local(env.world, me).Idle?
    {
      env.Own(Abort(me));
    }

    /**
     * handle(): one message of the batch; None when an exception leaves it. `routes` is what the
     * router answered for the seller of the message, or empty when it was not asked.
     */
    method Handle(m: Received, toDelete: seq<Ticket>)
      returns (outcome: Option<Outcome>, toDelete': seq<Ticket>, routes: seq<Route>)
      requires env.Valid()
      requires var w := Local(env.world, me);
               w.Handling? && w.task.NoTask? && w.toDelete == toDelete && w.todo != [] && w.todo[0] == m
      modifies env
      ensures env.Valid() && old(env.trace) <= env.trace
      ensures outcome.None? ==> Local(env.world, me).Idle?
      ensures outcome.Some? ==>
                var w := old(Local(env.world, me));
                && Local(env.world, me) == Handling(w.todo[1..], NoTask, toDelete', w.outcomes + [outcome.value])
                && toDelete' == (if Kept(outcome.value) then toDelete else toDelete + [Ticket(m, routes)])
                && OutcomeFits(env.cfg, m.content, routes, outcome.value)
                && Added(Begin(me, routes), old(env.trace), env.trace)
                && (if Asks(env.cfg, m.content)
                    then env.routed == old(env.routed) + [(m.content.parsed.envelope.sellerId.value, routes)]
                    else routes == [] && env.routed == old(env.routed))
                && old(env.alerts) <= env.alerts
                && AlertsFit(env.cfg, m, outcome.value, env.alerts[|old(env.alerts)|..],
                             old(env.world.now), env.world.now)
      ensures outcome.None? ==> env.thrown > old(env.thrown)
      ensures outcome.Some? ==> env.thrown == old(env.thrown) + Failures([outcome.value])
    {
      toDelete', routes := toDelete, [];
      if !m.content.intact {
        outcome := Mangled(m);
        return;
      }
      if m.content.parsed.Unparseable? {
        outcome, toDelete' := Drop(m, [], UnparseableBody, toDelete);
        return;
      }
      var e := m.content.parsed.envelope;
      if e.applicationId != env.cfg.applicationId {
        outcome, toDelete' := Drop(m, [], ForeignApplication, toDelete);
        return;
      }
      if e.notificationType !in SUPPORTED_NOTIFICATION_TYPES {
        outcome, toDelete' := Drop(m, [], UnsupportedType, toDelete);
        return;
      }
      outcome, toDelete', routes := ToRoutes(m, toDelete);
    }

    /** The body does not match its checksum: the message stays, with an alert at its last allowed receipt. */
    method Mangled(m: Received) returns (outcome: Option<Outcome>)
      requires env.Valid() && !m.content.intact
      requires var w := Local(env.world, me); w.Handling? && w.task.NoTask? && w.todo != [] && w.todo[0] == m
      modifies env`world, env`trace, env`alerts, env`thrown
      ensures env.Valid() && old(env.trace) <= env.trace
      ensures outcome.None? ==> Local(env.world, me).Idle?
      ensures env.alerts == old(env.alerts) + ScreenAlerts(Corrupt, m.receiveCount >= env.cfg.policy.maxReceiveCount)
      ensures env.thrown == old(env.thrown) + if outcome.Some? then 0 else 1
      ensures outcome.Some? ==>
                var w := old(Local(env.world, me));
                && outcome.value == Corrupt && Added(Begin(me, []), old(env.trace), env.trace)
                && Local(env.world, me) == w.(todo := w.todo[1..], outcomes := w.outcomes + [Corrupt])
    {
      Screened(m, []);
      ghost var mid := env.trace;
      if m.receiveCount >= env.cfg.policy.maxReceiveCount {
        var ok := env.RaiseAlert(me, NOTIFICATION_GIVING_UP);
        if !ok {
          Forget();
          return None;
        }
      }
      AddedStays(Begin(me, []), old(env.trace), old(env.trace), mid, env.trace);
      outcome := Some(Corrupt);
    }

    /** handle() from the router on, for a message that the receiver must process. */
    method ToRoutes(m: Received, toDelete: seq<Ticket>)
      returns (outcome: Option<Outcome>, toDelete': seq<Ticket>, routes: seq<Route>)
      requires env.Valid() && Eligible(env.cfg, m.content)
      requires var w := Local(env.world, me);
               w.Handling? && w.task.NoTask? && w.toDelete == toDelete && w.todo != [] && w.todo[0] == m
      modifies env
      ensures env.Valid() && old(env.trace) <= env.trace
      ensures outcome.None? ==> Local(env.world, me).Idle?
      ensures outcome.Some? ==>
                var w := old(Local(env.world, me));
                && Local(env.world, me) == Handling(w.todo[1..], NoTask, toDelete', w.outcomes + [outcome.value])
                && toDelete' == (if Kept(outcome.value) then toDelete else toDelete + [Ticket(m, routes)])
                && OutcomeFits(env.cfg, m.content, routes, outcome.value)
                && Added(Begin(me, routes), old(env.trace), env.trace)
                && (if m.content.parsed.envelope.sellerId.Some?
                    then env.routed == old(env.routed) + [(m.content.parsed.envelope.sellerId.value, routes)]
                    else routes == [] && env.routed == old(env.routed))
                && old(env.alerts) <= env.alerts
                && AlertsFit(env.cfg, m, outcome.value, env.alerts[|old(env.alerts)|..],
                             old(env.world.now), env.world.now)
      ensures outcome.None? ==> env.thrown > old(env.thrown)
      ensures outcome.Some? ==> env.thrown == old(env.thrown) + Failures([outcome.value])
    {
      toDelete', routes := toDelete, [];
      var e := m.content.parsed.envelope;
      if e.sellerId.Some? {
        var answer := env.Resolve(me, e.sellerId.value);
        if answer.Threw? {
          Forget();
          return None, toDelete', routes;
        }
        routes := answer.value;
      }
      ghost var asked := env.trace;
      ClockRuns(env.cfg, old(env.trace), asked);
      outcome, toDelete' := Dispose(m, routes, toDelete);
      if outcome.Some? {
        AddedStays(Begin(me, routes), old(env.trace), asked, env.trace, env.trace);
        FitsEarlier(env.cfg, m, outcome.value, env.alerts[|old(env.alerts)|..], old(env.world.now),
                    Run(env.cfg, INITIAL, asked).now, env.world.now);
      }
    }

    /** handle() with the routes that the router answered. */
    method Dispose(m: Received, routes: seq<Route>, toDelete: seq<Ticket>)
      returns (outcome: Option<Outcome>, toDelete': seq<Ticket>)
      requires env.Valid() && Eligible(env.cfg, m.content)
      requires m.content.parsed.envelope.sellerId.None? ==> routes == []
      requires var w := Local(env.world, me);
               w.Handling? && w.task.NoTask? && w.toDelete == toDelete && w.todo != [] && w.todo[0] == m
      modifies env`world, env`trace, env`alerts, env`thrown
      ensures env.Valid() && old(env.trace) <= env.trace
      ensures outcome.None? ==> Local(env.world, me).Idle?
      ensures outcome.Some? ==>
                var w := old(Local(env.world, me));
                && Local(env.world, me) == Handling(w.todo[1..], NoTask, toDelete', w.outcomes + [outcome.value])
                && toDelete' == (if Kept(outcome.value) then toDelete else toDelete + [Ticket(m, routes)])
                && OutcomeFits(env.cfg, m.content, routes, outcome.value)
                && Added(Begin(me, routes), old(env.trace), env.trace)
                && old(env.alerts) <= env.alerts
                && AlertsFit(env.cfg, m, outcome.value, env.alerts[|old(env.alerts)|..],
                             old(env.world.now), env.world.now)
      ensures outcome.None? ==> env.thrown > old(env.thrown)
      ensures outcome.Some? ==> env.thrown == old(env.thrown) + Failures([outcome.value])
    {
      if |routes| == 0 {
        outcome, toDelete' := Drop(m, routes, UnknownSeller, toDelete);
        return;
      }
      var now := env.Now(me);
      ghost var read := env.trace;
      ClockRuns(env.cfg, old(env.trace), read);
      var late := m.content.sentMs.Some? && now - m.content.sentMs.value > env.cfg.policy.lateAfterMs;
      ghost var warned;
      outcome, toDelete', warned := FanOut(m, routes, late, toDelete);
      ClockRuns(env.cfg, read, env.trace);
      if outcome.Some? {
        AddedStays(Begin(me, routes), old(env.trace), read, env.trace, env.trace);
        LatesFit(env.cfg, m, outcome.value, late, warned, old(env.world.now), env.world.now);
        assert env.alerts[|old(env.alerts)|..] == WarningsOf(outcome.value, warned);
      }
    }

    /** The message is not for the receiver: it is queued for deletion, then an alert is raised. */
    method Drop(m: Received, routes: seq<Route>, o: Outcome, toDelete: seq<Ticket>)
      returns (outcome: Option<Outcome>, toDelete': seq<Ticket>)
      requires env.Valid()
      requires var w := Local(env.world, me);
               w.Handling? && w.task.NoTask? && w.toDelete == toDelete && w.todo != [] && w.todo[0] == m
      requires Screen(env.cfg, m.content, routes) == Some(o) && !Kept(o)
      modifies env`world, env`trace, env`alerts, env`thrown
      ensures env.Valid() && old(env.trace) <= env.trace
      ensures outcome.None? ==> Local(env.world, me).Idle?
      ensures env.alerts == old(env.alerts) + ScreenAlerts(o, false)
      ensures outcome.Some? ==>
                var w := old(Local(env.world, me));
                && outcome.value == o && toDelete' == toDelete + [Ticket(m, routes)]
                && Added(Begin(me, routes), old(env.trace), env.trace)
                && Local(env.world, me) == Handling(w.todo[1..], NoTask, toDelete', w.outcomes + [o])
      ensures env.thrown == old(env.thrown) + if outcome.Some? then 0 else 1
    {
      Screened(m, routes);
      ghost var mid := env.trace;
      toDelete' := toDelete + [Ticket(m, routes)];
      if o != UnsupportedType {
        var alert :=
          if o == UnparseableBody then NOTIFICATION_UNPARSEABLE
          else if o == ForeignApplication then NOTIFICATION_FOREIGN_APPLICATION else NOTIFICATION_UNKNOWN_SELLER;
        var ok := env.RaiseAlert(me, alert);
        if !ok {
          Forget();
          return None, toDelete';
        }
      }
      outcome := Some(o);
      AddedStays(Begin(me, routes), old(env.trace), old(env.trace), mid, env.trace);
    }

    /** The try block of handle(): journal, ledger check, delivery and mark, route by route. */
    method FanOut(m: Received, routes: seq<Route>, late: bool, toDelete: seq<Ticket>)
      returns (outcome: Option<Outcome>, toDelete': seq<Ticket>, ghost warned: nat)
      requires env.Valid()
      requires var w := Local(env.world, me);
               w.Handling? && w.task.NoTask? && w.toDelete == toDelete && w.todo != [] && w.todo[0] == m
      requires Screen(env.cfg, m.content, routes).None?
      modifies env`world, env`trace, env`alerts, env`thrown
      ensures env.Valid() && old(env.trace) <= env.trace
      ensures outcome.None? ==> Local(env.world, me).Idle?
      ensures outcome.Some? ==>
                var w := old(Local(env.world, me));
                && outcome.value in {Delivered, Duplicate, RejectedByAdapter, Retry, GivenUp}
                && Added(Begin(me, routes), old(env.trace), env.trace)
                && warned <= |routes| && WarnedLate(outcome.value, late, warned)
                && env.alerts == old(env.alerts) + WarningsOf(outcome.value, warned)
                && (outcome.value.GivenUp? ==> m.receiveCount >= env.cfg.policy.maxReceiveCount)
                && (outcome.value.Retry? ==> m.receiveCount < env.cfg.policy.maxReceiveCount)
                && toDelete' == (if Kept(outcome.value) then toDelete else toDelete + [Ticket(m, routes)])
                && Local(env.world, me) == Handling(w.todo[1..], NoTask, toDelete', w.outcomes + [outcome.value])
      ensures outcome.None? ==> env.thrown > old(env.thrown)
      ensures outcome.Some? ==> env.thrown == old(env.thrown) + Failures([outcome.value])
    {
      toDelete' := toDelete;
      env.Enter(me, routes);
      ghost var mid := env.trace;
      var failed, delivered, rejected, duplicates;
      failed, delivered, rejected, duplicates, warned := EveryRoute(m, |routes|, late);
      if failed {
        outcome := Recover(m);
        AddedStays(Begin(me, routes), old(env.trace), old(env.trace), mid, env.trace);
        return;
      }
      env.Leave(me);
      AddedStays(Begin(me, routes), old(env.trace), old(env.trace), mid, env.trace);
      toDelete' := toDelete + [Ticket(m, routes)];
      outcome := Some(if delivered > 0 then Delivered else if rejected > 0 then RejectedByAdapter
                      else if duplicates > 0 then Duplicate else Delivered);
    }

    /** A worker that is about to take route `i` of its message. */
    static ghost function AtRoute(w: Worker, m: Received, i: nat, delivered: nat, rejected: nat,
            duplicates: nat): (r: Worker)
      requires w.Handling? && w.task.Fanout?
    {
      w.(task := Fanout(m, w.task.routes, i, AtJournal, delivered, rejected, duplicates))
    }

    static lemma {:induction false} RouteCounted(w: Worker, m: Received, i: nat, d: nat, r: nat, u: nat, a: SinkAnswer)
      requires w.Handling? && w.task.Fanout?
      ensures CountedOn(AtRoute(w, m, i, d, r, u), a)
           == AtRoute(w, m, i + 1, d + if a.Accepted? then 1 else 0,
                      r + if a.Rejected? then 1 else 0, u + if a.AlreadyRecorded? then 1 else 0)
    {
    }

    /** The loop over the routes; `failed` when an exception leaves it. */
    method EveryRoute(ghost m: Received, count: nat, late: bool)
      returns (failed: bool, delivered: nat, rejected: nat, duplicates: nat, ghost warned: nat)
      requires env.Valid()
      requires var w := Local(env.world, me);
               w.Handling? && w.task.Fanout? && w == AtRoute(w, m, 0, 0, 0, 0) && count == |w.task.routes|
      modifies env`world, env`trace, env`alerts, env`thrown
      ensures env.Valid() && old(env.trace) <= env.trace
      ensures env.alerts == old(env.alerts) + Lates(warned) && warned <= count && (!late ==> warned == 0)
      ensures !failed ==> delivered + rejected + duplicates == count && (late ==> warned == delivered + rejected)
      ensures failed ==> FailedOn(Local(env.world, me), old(Local(env.world, me)), m)
      ensures !failed ==>
                Local(env.world, me) == AtRoute(old(Local(env.world, me)), m, count, delivered, rejected, duplicates)
      ensures env.thrown == old(env.thrown) + if failed then 1 else 0
    {
      ghost var w := Local(env.world, me);
      delivered, rejected, duplicates, failed, warned := 0, 0, 0, false, 0;
      var i := 0;
      while i < count && !failed
        invariant 0 <= i <= count
        invariant env.Valid() && old(env.trace) <= env.trace
        invariant !failed ==> Local(env.world, me) == AtRoute(w, m, i, delivered, rejected, duplicates)
        invariant failed ==> FailedOn(Local(env.world, me), w, m)
        invariant env.alerts == old(env.alerts) + Lates(warned) && (!late ==> warned == 0)
        invariant warned <= i
        invariant !failed ==> delivered + rejected + duplicates == i && (late ==> warned == delivered + rejected)
        invariant env.thrown == old(env.thrown) + if failed then 1 else 0
        decreases count - i, if failed then 0 else 1
      {
        var answer: Option<SinkAnswer>;
        failed, answer := Round(m, late);
        if answer.None? {
          continue;
        }
        ghost var more := if late && !answer.value.AlreadyRecorded? then 1 else 0;
        LatesAdd(old(env.alerts), warned, more);
        warned := warned + more;
        RouteCounted(w, m, i, delivered, rejected, duplicates, answer.value);
        i := i + 1;
        match answer.value {
          case AlreadyRecorded => duplicates := duplicates + 1;
          case Accepted => delivered := delivered + 1;
          case Rejected => rejected := rejected + 1;
        }
      }
    }

    /** The body of the loop: the route, and the alert of a late notification that was not a duplicate. */
    method Round(ghost m: Received, late: bool) returns (failed: bool, answer: Option<SinkAnswer>)
      requires env.Valid()
      requires var w := Local(env.world, me);
               On(w, AtJournal) && w.task.message == m
      modifies env`world, env`trace, env`alerts, env`thrown
      ensures env.Valid() && old(env.trace) <= env.trace
      ensures failed ==> FailedOn(Local(env.world, me), old(Local(env.world, me)), m)
      ensures !failed ==> answer.Some? && Local(env.world, me) == CountedOn(old(Local(env.world, me)), answer.value)
      ensures answer.None? ==> failed && env.alerts == old(env.alerts)
      ensures answer.Some? ==>
                env.alerts == old(env.alerts) + Lates(if late && !answer.value.AlreadyRecorded? then 1 else 0)
      ensures env.thrown == old(env.thrown) + if failed then 1 else 0
    {
      var result := OneRoute(m);
      if result.Threw? {
        return true, None;
      }
      failed, answer := false, Some(result.value);
      if late && !result.value.AlreadyRecorded? {
        failed := WarnLate(m);
      }
    }

    /** The alert about a late notification, raised inside the try block. */
    method WarnLate(ghost m: Received) returns (failed: bool)
      requires env.Valid()
      requires var w := Local(env.world, me);
               w.Handling? && w.task.Fanout? && !w.task.stage.Failed? && w.task.message == m
      modifies env`world, env`trace, env`alerts, env`thrown
      ensures env.Valid() && old(env.trace) <= env.trace
      ensures env.alerts == old(env.alerts) + [NOTIFICATION_LATE]
      ensures if failed then FailedOn(Local(env.world, me), old(Local(env.world, me)), m)
              else Local(env.world, me) == old(Local(env.world, me))
      ensures env.thrown == old(env.thrown) + if failed then 1 else 0
    {
      var ok := env.RaiseAlert(me, NOTIFICATION_LATE);
      if !ok {
        env.Throw(me);
      }
      failed := !ok;
    }

    /** The receiver's state when a call of the fan-out of `m` has thrown. */
    static ghost predicate FailedOn(w: Worker, base: Worker, m: Received)
      requires base.Handling?
    {
      w.Handling? && w.task.Fanout? && w.task.stage.Failed? && w.task.message == m && w == base.(task := w.task)
    }

    /** The journal and the ledger: whether the notification was processed on this route before. */
    method Known(ghost m: Received) returns (known: Reply<bool>)
      requires env.Valid()
      requires var w := Local(env.world, me);
               On(w, AtJournal) && w.task.message == m
      modifies env`world, env`trace, env`thrown
      ensures env.Valid() && old(env.trace) <= env.trace
      ensures var w := old(Local(env.world, me));
              if known.Threw? then FailedOn(Local(env.world, me), w, m)
              else Local(env.world, me) == if known.value then CountedOn(w, AlreadyRecorded) else Moved(w, AtDeliver)
      ensures env.thrown == old(env.thrown) + if known.Threw? then 1 else 0
    {
      var recorded := env.RecordRaw(me);
      if recorded.Threw? {
        return Threw;
      }
      known := env.WasProcessed(me);
    }

    /** The sink, and for a plain sink the ledger after it. */
    method DeliverOnce(ghost m: Received) returns (result: Reply<SinkAnswer>)
      requires env.Valid()
      requires var w := Local(env.world, me);
               On(w, AtDeliver) && w.task.message == m
      modifies env`world, env`trace, env`thrown
      ensures env.Valid() && old(env.trace) <= env.trace
      ensures var w := old(Local(env.world, me));
              if result.Threw? then FailedOn(Local(env.world, me), w, m)
              else Local(env.world, me) == CountedOn(w, result.value)
      ensures env.thrown == old(env.thrown) + if result.Threw? then 1 else 0
    {
      result := env.DeliverToSink(me);
      if result.Answer? && !env.cfg.recordsLedger {
        var ok := env.MarkProcessed(me, result.value);
        if !ok {
          result := Threw;
        }
      }
    }

    /** The body of the loop over routes, up to the counters: what became of the notification on this route. */
    method OneRoute(ghost m: Received) returns (result: Reply<SinkAnswer>)
      requires env.Valid()
      requires var w := Local(env.world, me);
               On(w, AtJournal) && w.task.message == m
      modifies env`world, env`trace, env`thrown
      ensures env.Valid() && old(env.trace) <= env.trace
      ensures var w := old(Local(env.world, me));
              if result.Threw? then FailedOn(Local(env.world, me), w, m)
              else Local(env.world, me) == CountedOn(w, result.value)
      ensures env.thrown == old(env.thrown) + if result.Threw? then 1 else 0
    {
      var known := Known(m);
      if known.Threw? {
        return Threw;
      }
      if known.value {
        return Answer(AlreadyRecorded);
      }
      result := DeliverOnce(m);
    }

    /** The catch block of handle(). */
    method Recover(m: Received) returns (outcome: Option<Outcome>)
      requires env.Valid()
      requires var w := Local(env.world, me);
               w.Handling? && w.task.Fanout? && w.task.stage.Failed? && w.task.message == m
      modifies env`world, env`trace, env`alerts, env`thrown
      ensures env.Valid() && old(env.trace) <= env.trace
      ensures outcome.None? ==> Local(env.world, me).Idle?
      ensures env.alerts == old(env.alerts)
                            + if m.receiveCount >= env.cfg.policy.maxReceiveCount then [NOTIFICATION_GIVING_UP] else []
      ensures outcome.Some? ==>
                && outcome.value == (if m.receiveCount >= env.cfg.policy.maxReceiveCount then GivenUp else Retry)
                && Local(env.world, me)
                     == old(Local(env.world, me)).(task := NoTask,
                                                   outcomes := old(Local(env.world, me)).outcomes + [outcome.value])
      ensures env.thrown == old(env.thrown) + if outcome.Some? then 0 else 1
    {
      if m.receiveCount >= env.cfg.policy.maxReceiveCount {
        var ok := env.RaiseAlert(me, NOTIFICATION_GIVING_UP);
        if !ok {
          Forget();
          return None;
        }
        env.GiveUp(me);
        return Some(GivenUp);
      }
      var pause := RetryPause(env.cfg.policy, m.receiveCount);
      var ok := env.HideAgain(me, pause);
      outcome := if ok then Some(Retry) else None;
    }

    /** The first part of pollOnce: the batch in the order of handling, and the note that the queue is not silent. */
    method Fetch() returns (parsed: Option<seq<Received>>)
      requires env.Valid() && Local(env.world, me).Idle?
      modifies env`world, env`trace, this
      ensures env.Valid() && old(env.trace) <= env.trace
      ensures parsed.None? ==> Local(env.world, me).Idle?
      ensures parsed.Some? ==>
                |parsed.value| <= 10 && Ordered(parsed.value)
                    && Local(env.world, me) == Handling(parsed.value, NoTask, [], [])
      ensures parsed.None? || parsed.value == [] ==>
                lastMessageAt == old(lastMessageAt) && silenceAlerted == old(silenceAlerted)
      ensures parsed.Some? && parsed.value != [] ==> !silenceAlerted && lastMessageAt == env.world.now
    {
      var received := env.Receive(me);
      if received.None? {
        return None;
      }
      var messages := received.value;
      SortedBatch(messages, None);
      assert |SortByTime(messages)| == |multiset(SortByTime(messages))| == |multiset(messages)| == |messages|;
      if |messages| > 0 {
        lastMessageAt := env.Now(me);
        silenceAlerted := false;
      }
      parsed := Some(SortByTime(messages));
    }

    /**
     * pollOnce(): `asked` are the tickets whose messages the poll asked the queue to delete, from event
     * `from` on.
     */
    method PollOnce()
      returns (report: PollReport, ghost batch: seq<Received>, ghost asked: seq<Ticket>, ghost from: nat)
      requires env.Valid() && Local(env.world, me).Idle?
      modifies env, this
      ensures env.Valid() && old(env.trace) <= env.trace && Local(env.world, me).Idle?
      ensures report.Report? ==>
                && |report.outcomes| == report.received == |batch| <= 10
                && Ordered(batch)
                && MessagesOf(asked) == Discarded(batch, report.outcomes)
                && |old(env.trace)| <= from <= |env.trace|
                && Local(Run(env.cfg, INITIAL, env.trace[..from]), me) == Deleting(asked)
                && report.deleted == TakenOut(env.cfg, env.trace, from, me)
                && report.deleted + report.deleteFailed == |asked|
                && (forall t :: t in asked ==> Discharged(env.cfg, env.world, t))
      ensures Safe(env.cfg, env.world)
      ensures report.QueueError? || batch == [] ==>
                lastMessageAt == old(lastMessageAt) && silenceAlerted == old(silenceAlerted)
      ensures batch != [] ==> !silenceAlerted && old(env.world.now) <= lastMessageAt <= env.world.now
      ensures match report
              case Report(_, outcomes, _, _) => env.thrown == old(env.thrown) + Failures(outcomes)
              case QueueError => env.thrown == old(env.thrown)
              case Aborted => env.thrown > old(env.thrown)
    {
      batch, asked, from := [], [], 0;
      var fetched := Fetch();
      ghost var got := env.trace;
      ClockRuns(env.cfg, old(env.trace), got);
      if fetched.None? {
        RunIsSafe(env.cfg, env.trace);
        return QueueError, batch, asked, from;
      }
      var parsed := fetched.value;
      batch := parsed;
      var done, outcomes, toDelete := HandleAll(parsed);
      if !done {
        ClockRuns(env.cfg, got, env.trace);
        RunIsSafe(env.cfg, env.trace);
        return Aborted, batch, asked, from;
      }
      asked := toDelete;
      var deleted, deleteFailed;
      deleted, deleteFailed, from := DeletePhase(toDelete);
      ClockRuns(env.cfg, got, env.trace);
      RunIsSafe(env.cfg, env.trace);
      report := Report(|parsed|, outcomes, deleted, deleteFailed);
    }

    /** The end of pollOnce, with the event `from` on which it asks for deletes. */
    method DeletePhase(toDelete: seq<Ticket>) returns (deleted: nat, deleteFailed: nat, ghost from: nat)
      requires env.Valid()
      requires var w := Local(env.world, me); w.Handling? && w.task.NoTask? && w.todo == [] && w.toDelete == toDelete
      modifies env`world, env`trace
      ensures env.Valid() && old(env.trace) <= env.trace && Local(env.world, me).Idle?
      ensures |old(env.trace)| <= from <= |env.trace|
      ensures Local(Run(env.cfg, INITIAL, env.trace[..from]), me) == Deleting(toDelete)
      ensures deleted == TakenOut(env.cfg, env.trace, from, me)
      ensures deleted + deleteFailed == |toDelete|
      ensures forall t :: t in toDelete ==> Discharged(env.cfg, env.world, t)
    {
      env.Own(StartDelete(me));
      from := |env.trace|;
      ghost var mid := env.trace;
      deleted, deleteFailed := DeleteAll(toDelete);
      ghost var last := env.trace;
      env.Own(EndPoll(me));
      assert env.trace[..|last|] == last && env.trace[..from] == mid;
      TakenOutAdds(env.cfg, env.trace, from, |last|, me);
      AskedIsDischarged(env.cfg, mid, env.trace, me, toDelete);
    }

    /** The loop of pollOnce over the sorted batch; not done when an exception leaves it. */
    method HandleAll(parsed: seq<Received>) returns (done: bool, outcomes: seq<Outcome>, toDelete: seq<Ticket>)
      requires env.Valid() && Local(env.world, me) == Handling(parsed, NoTask, [], [])
      modifies env
      ensures env.Valid() && old(env.trace) <= env.trace
      ensures !done ==> Local(env.world, me).Idle?
      ensures done ==>
                && |outcomes| == |parsed|
                && Local(env.world, me) == Handling([], NoTask, toDelete, outcomes)
                && MessagesOf(toDelete) == Discarded(parsed, outcomes)
      ensures if done then env.thrown == old(env.thrown) + Failures(outcomes) else env.thrown > old(env.thrown)
    {
      toDelete, outcomes := [], [];
      var n := 0;
      while n < |parsed|
        invariant 0 <= n <= |parsed| && |outcomes| == n
        invariant env.Valid() && old(env.trace) <= env.trace
        invariant Local(env.world, me) == Handling(parsed[n..], NoTask, toDelete, outcomes)
        invariant MessagesOf(toDelete) == Discarded(parsed, outcomes)
        invariant env.thrown == old(env.thrown) + Failures(outcomes)
      {
        var outcome, toDelete', _ := Handle(parsed[n], toDelete);
        if outcome.None? {
          return false, outcomes, toDelete;
        }
        assert parsed[n..][1..] == parsed[n + 1..];
        HandledNext(parsed, outcomes, outcome.value, toDelete, toDelete');
        outcomes, toDelete, n := outcomes + [outcome.value], toDelete', n + 1;
      }
      assert parsed[n..] == [];
      done := true;
    }

    /** The delete loop of pollOnce, ten messages a request. */
    method DeleteAll(toDelete: seq<Ticket>) returns (deleted: nat, deleteFailed: nat)
      requires env.Valid() && Local(env.world, me) == Deleting(toDelete)
      modifies env`world, env`trace
      ensures env.Valid() && old(env.trace) <= env.trace && Local(env.world, me) == Deleting([])
      ensures deleted == TakenOut(env.cfg, env.trace, |old(env.trace)|, me)
      ensures deleted + deleteFailed == |toDelete|
    {
      deleted, deleteFailed := 0, 0;
      var i := 0;
      while i < |toDelete|
        invariant 0 <= i
        invariant env.Valid() && old(env.trace) <= env.trace
        invariant Local(env.world, me) == Deleting(if i < |toDelete| then toDelete[i..] else [])
        invariant deleted == TakenOut(env.cfg, env.trace, |old(env.trace)|, me)
        invariant deleted + deleteFailed == Min(i, |toDelete|)
      {
        ghost var before := env.trace;
        var chunk := toDelete[i..Min(i + 10, |toDelete|)];
        assert chunk == Chunk(toDelete[i..]);
        var r := env.DeleteBatch(me, HandlesOf(chunk));
        assert i + 10 < |toDelete| ==> toDelete[i..][10..] == toDelete[i + 10..];
        assert env.trace[..|before|] == before;
        TakenOutAdds(env.cfg, env.trace, |old(env.trace)|, |before|, me);
        if r.None? {
          deleteFailed := deleteFailed + |chunk|;
        } else {
          var ok := CountTrue(r.value);
          deleted := deleted + ok;
          deleteFailed := deleteFailed + (|r.value| - ok);
        }
        i := i + 10;
      }
    }

    /** checkSilence(): true when it raises the one warning of this silence; `at` is the clock it read. */
    method CheckSilence() returns (raised: bool, ghost at: int)
      requires env.Valid()
      modifies env`world, env`trace, env`alerts, env`thrown, this`silenceAlerted
      ensures env.Valid() && old(env.trace) <= env.trace && Local(env.world, me) == old(Local(env.world, me))
      ensures old(env.world.now) <= at <= env.world.now
      ensures raised <==> at - lastMessageAt >= env.cfg.policy.silenceAlertAfterMs && !old(silenceAlerted)
      ensures silenceAlerted == (old(silenceAlerted) || raised)
      ensures env.alerts == old(env.alerts) + if raised then [NOTIFICATION_QUEUE_SILENT] else []
    {
      var now := env.Now(me);
      at := now;
      ghost var read := env.trace;
      ClockRuns(env.cfg, old(env.trace), read);
      var silentMs := now - lastMessageAt;
      if silentMs < env.cfg.policy.silenceAlertAfterMs || silenceAlerted {
        raised := false;
        return;
      }
      silenceAlerted := true;
      var ok := env.RaiseAlert(me, NOTIFICATION_QUEUE_SILENT);
      raised := true;
      ClockRuns(env.cfg, read, env.trace);
    }
  }
}
