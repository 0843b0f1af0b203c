/**
 * What every run of the receiver protocol keeps: no notification is lost, none takes effect twice.
 */
module ReceiverSafety {
  import opened Common
  import opened SqsQueue
  import opened ReceiverProtocol

  // ---------------------------------------------------------------- no loss

  /** The ledger holds the notification for this route, or the adapter rejected it. */
  predicate Settled(s: World, k: Key) { k in s.ledger || k in s.rejections }

  /** A received copy carries what was sent under its message id. */
  predicate Genuine(s: World, m: Received) {
    m.handle.messageId < |s.sent| && m.content == s.sent[m.handle.messageId]
  }

  predicate SettledBefore(s: World, m: Received, routes: seq<Route>, n: nat)
    requires n <= |routes|
  {
    forall i :: 0 <= i < n ==> Settled(s, KeyAt(m, routes, i))
  }

  /**
   * The reason why a message may be deleted: its body arrived intact and, unless the receiver
   * screened it out, every route of its handling is settled.
   */
  predicate Discharged(cfg: Config, s: World, t: Ticket) {
    && Genuine(s, t.message)
    && t.message.content.intact
    && (Screen(cfg, t.message.content, t.routes).None? ==> SettledBefore(s, t.message, t.routes, |t.routes|))
  }

  predicate TaskOk(cfg: Config, s: World, t: Task) {
    t.Fanout? ==>
      && Genuine(s, t.message)
      && Screen(cfg, t.message.content, t.routes).None?
      && t.next <= |t.routes|
      && SettledBefore(s, t.message, t.routes, t.next)
      && t.delivered + t.rejected + t.duplicates == t.next
      && (t.stage.AtMark? ==> !cfg.recordsLedger)
      && (t.stage.AtMark? && t.stage.answer.Rejected? ==> t.next < |t.routes|)
  }

  predicate WorkerOk(cfg: Config, s: World, w: Worker) {
    match w
    case Idle => true
    case Handling(todo, task, toDelete, _) =>
      && (forall m :: m in todo ==> Genuine(s, m))
      && TaskOk(cfg, s, task)
      && (forall t :: t in toDelete ==> Discharged(cfg, s, t))
    case Deleting(toDelete) => forall t :: t in toDelete ==> Discharged(cfg, s, t)
  }

  predicate StoredOk(sent: seq<Content>, m: Stored) {
    && m.messageId < |sent|
    && m.content == sent[m.messageId]
    && (m.handle.Some? ==> m.handle.value.messageId == m.messageId)
  }

  predicate QueueOk(sent: seq<Content>, ms: seq<Stored>) {
    forall m :: m in ms ==> StoredOk(sent, m)
  }

  /** How often a message is in the queue. */
  function InQueue(ms: seq<Stored>, id: nat): (n: nat) {
    if ms == [] then 0 else (if ms[0].messageId == id then 1 else 0) + InQueue(ms[1..], id)
  }

  /** How often a message is among these tickets. */
  function OnTickets(ts: seq<Ticket>, id: nat): (n: nat) {
    if ts == [] then 0 else (if ts[0].message.handle.messageId == id then 1 else 0) + OnTickets(ts[1..], id)
  }

  /** Every message ever sent is in the queue or has left it, once. */
  ghost predicate Conserved(s: World) {
    forall id: nat :: InQueue(s.queue, id) + OnTickets(s.departed, id) == if id < |s.sent| then 1 else 0
  }

  ghost predicate Inv(cfg: Config, s: World) {
    && QueueOk(s.sent, s.queue)
    && Conserved(s)
    && (forall t :: t in s.departed ==> Discharged(cfg, s, t))
    && (forall id :: id in s.workers ==> WorkerOk(cfg, s, s.workers[id]))
  }

  /** What no event undoes. */
  predicate Grows(s: World, u: World) {
    s.ledger <= u.ledger && s.rejections <= u.rejections && s.sent <= u.sent && s.now <= u.now
  }

  lemma {:induction false} GrowthKeepsWorker(cfg: Config, s: World, u: World, w: Worker)
    requires Grows(s, u) && WorkerOk(cfg, s, w)
    ensures WorkerOk(cfg, u, w)
  {
  }

  lemma {:induction false} InQueueAppend(ms: seq<Stored>, ns: seq<Stored>, id: nat)
    ensures InQueue(ms + ns, id) == InQueue(ms, id) + InQueue(ns, id)
  {
    if ms == [] {
      assert ms + ns == ns;
    } else {
      assert (ms + ns)[1..] == ms[1..] + ns;
      InQueueAppend(ms[1..], ns, id);
    }
  }

  lemma {:induction false} OnTicketsAppend(ts: seq<Ticket>, us: seq<Ticket>, id: nat)
    ensures OnTickets(ts + us, id) == OnTickets(ts, id) + OnTickets(us, id)
  {
    if ts == [] {
      assert ts + us == us;
    } else {
      assert (ts + us)[1..] == ts[1..] + us;
      OnTicketsAppend(ts[1..], us, id);
    }
  }

  lemma {:induction false} InQueueWithout(ms: seq<Stored>, i: nat, id: nat)
    requires i < |ms|
    ensures InQueue(ms, id) == InQueue(Without(ms, i), id) + if ms[i].messageId == id then 1 else 0
  {
    assert ms == ms[..i] + ([ms[i]] + ms[i + 1..]);
    InQueueAppend(ms[..i], [ms[i]] + ms[i + 1..], id);
    InQueueAppend([ms[i]], ms[i + 1..], id);
    InQueueAppend(ms[..i], ms[i + 1..], id);
  }

  lemma {:induction false} ReceiveKeeps(sent: seq<Content>, ms: seq<Stored>, now: int, max: nat, untilMs: int)
    requires QueueOk(sent, ms)
    ensures QueueOk(sent, AfterReceive(ms, now, max, untilMs))
    ensures forall m :: m in HandedOut(ms, now, max) ==>
              m.handle.messageId < |sent| && m.content == sent[m.handle.messageId]
  {
    if ms != [] {
      var k := if max > 0 && ms[0].visibleAtMs <= now then max - 1 else max;
      ReceiveKeeps(sent, ms[1..], now, k, untilMs);
      assert ms[0] in ms && forall m :: m in ms[1..] ==> m in ms;
      var rest := AfterReceive(ms[1..], now, k, untilMs);
      var head := if k < max then Hidden(ms[0], untilMs) else ms[0];
      assert AfterReceive(ms, now, max, untilMs) == [head] + rest;
      forall m | m in [head] + rest ensures StoredOk(sent, m) {
        assert m == head || m in rest;
      }
    }
  }

  lemma {:induction false} ReceiveKeepsIds(ms: seq<Stored>, now: int, max: nat, untilMs: int, id: nat)
    ensures InQueue(AfterReceive(ms, now, max, untilMs), id) == InQueue(ms, id)
  {
    if ms != [] {
      var k := if max > 0 && ms[0].visibleAtMs <= now then max - 1 else max;
      ReceiveKeepsIds(ms[1..], now, k, untilMs, id);
      var rest := AfterReceive(ms[1..], now, k, untilMs);
      var head := if k < max then Hidden(ms[0], untilMs) else ms[0];
      assert AfterReceive(ms, now, max, untilMs) == [head] + rest && ([head] + rest)[1..] == rest;
    }
  }

  lemma {:induction false} DeleteSubset(ms: seq<Stored>, hs: seq<Handle>)
    ensures forall m :: m in AfterDelete(ms, hs) ==> m in ms
  {
    if hs != [] {
      DeleteSubset(AfterDeleteOne(ms, hs[0]), hs[1..]);
    }
  }

  lemma {:induction false} GoneSubset(ms: seq<Stored>, ts: seq<Ticket>)
    ensures forall t :: t in Gone(ms, ts) ==> t in ts
  {
    if ts != [] {
      GoneSubset(AfterDeleteOne(ms, ts[0].message.handle), ts[1..]);
    }
  }

  /** A delete moves messages from the queue to the departed, one for one. */
  lemma {:induction false} DeleteMoves(sent: seq<Content>, ms: seq<Stored>, ts: seq<Ticket>, id: nat)
    requires QueueOk(sent, ms)
    ensures InQueue(ms, id) == InQueue(AfterDelete(ms, HandlesOf(ts)), id) + OnTickets(Gone(ms, ts), id)
  {
    if ts != [] {
      var h := ts[0].message.handle;
      var rest := AfterDeleteOne(ms, h);
      assert HandlesOf(ts)[0] == h && HandlesOf(ts)[1..] == HandlesOf(ts[1..]);
      var i := IndexOf(ms, h);
      var head := if i < |ms| then [ts[0]] else [];
      if i < |ms| {
        InQueueWithout(ms, i, id);
        assert StoredOk(sent, ms[i]);
      }
      DeleteMoves(sent, rest, ts[1..], id);
      OnTicketsAppend(head, Gone(rest, ts[1..]), id);
    }
  }

  lemma {:induction false} SortKeepsElements(ms: seq<Received>)
    ensures forall m :: m in SortByTime(ms) <==> m in ms
  {
    SortedBatch(ms, None);
    forall m ensures m in SortByTime(ms) <==> m in ms {
      assert m in SortByTime(ms) <==> m in multiset(SortByTime(ms));
      assert m in ms <==> m in multiset(ms);
    }
  }

  lemma {:induction false} StepGrows(cfg: Config, s: World, e: Event)
    ensures Grows(s, Step(cfg, s, e))
  {
  }

  lemma {:induction false} RunGrows(cfg: Config, s: World, es: seq<Event>)
    ensures Grows(s, Run(cfg, s, es))
  {
    if es != [] {
      RunGrows(cfg, s, es[..|es| - 1]);
      StepGrows(cfg, Run(cfg, s, es[..|es| - 1]), es[|es| - 1]);
    }
  }

  // ---------------------------------------------------------------- what delete requests take out

  /** The messages that answered delete requests of `me` took out of the queue, from event `from` on. */
  function TakenOut(cfg: Config, es: seq<Event>, from: nat, me: nat): (n: int)
    requires from <= |es|
  {
    if |es| == from then 0
    else
      var front, e := es[..|es| - 1], es[|es| - 1];
      TakenOut(cfg, front, from, me)
      + if e.DeleteChunk? && e.worker == me && e.replied.Some?
        then |Run(cfg, INITIAL, front).queue| - |Run(cfg, INITIAL, es).queue| else 0
  }

  lemma {:induction false} TakenOutAdds(cfg: Config, es: seq<Event>, from: nat, mid: nat, me: nat)
    requires from <= mid <= |es|
    ensures TakenOut(cfg, es, from, me) == TakenOut(cfg, es[..mid], from, me) + TakenOut(cfg, es, mid, me)
  {
    if mid == |es| {
      assert es[..mid] == es;
    } else {
      assert es[..|es| - 1][..mid] == es[..mid];
      TakenOutAdds(cfg, es[..|es| - 1], from, mid, me);
    }
  }

  lemma {:induction false} OthersTakeNone(cfg: Config, es: seq<Event>, from: nat, me: nat)
    requires from <= |es| && forall e :: e in es[from..] ==> ByEnvironment(e) || e.worker != me
    ensures TakenOut(cfg, es, from, me) == 0
  {
    if |es| > from {
      var front := es[..|es| - 1];
      assert es[from..][|es| - 1 - from] == es[|es| - 1];
      assert forall e :: e in front[from..] ==> e in es[from..];
      OthersTakeNone(cfg, front, from, me);
    }
  }

  /** An answered request took out as many messages as entries are answered as successful. */
  lemma {:induction false} AnsweredTakes(cfg: Config, es: seq<Event>, e: Event)
    requires e.DeleteChunk? && e.replied.Some? && Enabled(cfg, Run(cfg, INITIAL, es), e)
    ensures |Run(cfg, INITIAL, es).queue| - |Run(cfg, INITIAL, es + [e]).queue| == CountTrue(e.replied.value)
  {
    var s := Run(cfg, INITIAL, es);
    assert (es + [e])[..|es|] == es;
    DeletedCount(s.queue, HandlesOf(Chunk(Local(s, e.worker).toDelete)));
  }

  /** Moving a message's visibility keeps what the queue holds. */
  lemma {:induction false} VisibilityKeeps(sent: seq<Content>, ms: seq<Stored>, i: nat, untilMs: int, id: nat)
    requires i < |ms| && QueueOk(sent, ms)
    ensures QueueOk(sent, ms[i := ms[i].(visibleAtMs := untilMs)])
    ensures InQueue(ms[i := ms[i].(visibleAtMs := untilMs)], id) == InQueue(ms, id)
  {
    var q := ms[i := ms[i].(visibleAtMs := untilMs)];
    InQueueWithout(ms, i, id);
    InQueueWithout(q, i, id);
    assert Without(ms, i) == Without(q, i);
    forall m | m in q ensures StoredOk(sent, m) {
      var j :| 0 <= j < |q| && q[j] == m;
      assert ms[j] in ms;
    }
  }

  /** The events of the sender and the queue keep what the queue holds. */
  lemma {:induction false} EnvironmentKeepsQueue(cfg: Config, s: World, e: Event, id: nat)
    requires QueueOk(s.sent, s.queue) && ByEnvironment(e) && Enabled(cfg, s, e)
    ensures var u := Step(cfg, s, e);
            && QueueOk(u.sent, u.queue)
            && InQueue(u.queue, id) == InQueue(s.queue, id) + if e.Send? && id == |s.sent| then 1 else 0
  {
    match e
    case Send(c) =>
      var m := Stored(|s.sent|, c, 0, 0, None);
      InQueueAppend(s.queue, [m], id);
    case Tick(_) =>
    case Reappear(i) => VisibilityKeeps(s.sent, s.queue, i, s.now, id);
    case Reorder(i) =>
      InQueueWithout(s.queue, i, id);
      InQueueAppend(Without(s.queue, i), [s.queue[i]], id);
  }

  lemma {:induction false} EnvironmentKeeps(cfg: Config, s: World, e: Event)
    requires Inv(cfg, s) && ByEnvironment(e) && Enabled(cfg, s, e)
    ensures Inv(cfg, Step(cfg, s, e))
  {
    var u := Step(cfg, s, e);
    StepGrows(cfg, s, e);
    EnvironmentKeepsQueue(cfg, s, e, 0);
    forall id: nat
      ensures InQueue(u.queue, id) + OnTickets(u.departed, id) == if id < |u.sent| then 1 else 0
    {
      EnvironmentKeepsQueue(cfg, s, e, id);
    }
    forall id | id in u.workers ensures WorkerOk(cfg, u, u.workers[id]) {
      GrowthKeepsWorker(cfg, s, u, s.workers[id]);
    }
  }

  /** Only a delete changes which messages the queue holds, and it moves them to the departed. */
  lemma {:induction false} QueueKeeps(cfg: Config, s: World, w: Worker, e: Event, id: nat)
    requires QueueOk(s.sent, s.queue) && !ByEnvironment(e) && Ready(cfg, w, e)
    ensures var u := Shared(cfg, s, w, e);
            && QueueOk(s.sent, u.queue)
            && InQueue(u.queue, id) + OnTickets(u.departed, id) == InQueue(s.queue, id) + OnTickets(s.departed, id)
  {
    if e.Poll? {
      var untilMs := s.now + cfg.policy.visibilityTimeoutSeconds * 1000;
      ReceiveKeeps(s.sent, s.queue, s.now, BatchLimit(cfg.policy), untilMs);
      ReceiveKeepsIds(s.queue, s.now, BatchLimit(cfg.policy), untilMs, id);
    } else if e.Settle? {
      var i := IndexOf(s.queue, w.task.message.handle);
      if i < |s.queue| {
        VisibilityKeeps(s.sent, s.queue, i, s.now + RetryPause(cfg.policy, w.task.message.receiveCount) * 1000, id);
      }
    } else if e.DeleteChunk? {
      var chunk := Chunk(w.toDelete);
      DeleteSubset(s.queue, HandlesOf(chunk));
      DeleteMoves(s.sent, s.queue, chunk, id);
      OnTicketsAppend(s.departed, Gone(s.queue, chunk), id);
    } else {
      assert Shared(cfg, s, w, e).queue == s.queue && Shared(cfg, s, w, e).departed == s.departed;
    }
  }

  /** Queue, history and conservation after an event of a receiver. */
  lemma {:induction false} SharedKeeps(cfg: Config, s: World, e: Event)
    requires Inv(cfg, s) && !ByEnvironment(e) && Enabled(cfg, s, e)
    ensures QueueOk(Step(cfg, s, e).sent, Step(cfg, s, e).queue)
    ensures Conserved(Step(cfg, s, e))
  {
    var w := Local(s, e.worker);
    var u := Step(cfg, s, e);
    QueueKeeps(cfg, s, w, e, 0);
    forall id: nat
      ensures InQueue(u.queue, id) + OnTickets(u.departed, id) == if id < |u.sent| then 1 else 0
    {
      QueueKeeps(cfg, s, w, e, id);
    }
  }

  /** Only a delete request makes messages depart, and those on the tickets of its chunk. */
  lemma {:induction false} NewlyDeparted(cfg: Config, s: World, e: Event, t: Ticket)
    requires !ByEnvironment(e) && Enabled(cfg, s, e) && t in Step(cfg, s, e).departed
    ensures t in s.departed || (e.DeleteChunk? && t in Gone(s.queue, Chunk(Local(s, e.worker).toDelete)))
  {
  }

  /** A message departs only on a ticket of the receiver that asked for the delete. */
  lemma {:induction false} DepartedKeep(cfg: Config, s: World, e: Event)
    requires Inv(cfg, s) && !ByEnvironment(e) && Enabled(cfg, s, e)
    ensures forall t :: t in Step(cfg, s, e).departed ==> Discharged(cfg, Step(cfg, s, e), t)
  {
    var w := Local(s, e.worker);
    StepGrows(cfg, s, e);
    assert WorkerOk(cfg, s, w);
    forall t | t in Step(cfg, s, e).departed ensures Discharged(cfg, s, t) {
      NewlyDeparted(cfg, s, e, t);
      if t !in s.departed {
        GoneSubset(s.queue, Chunk(w.toDelete));
        assert t in Chunk(w.toDelete) && t in w.toDelete;
      }
    }
  }

  /** The local state of the receiver itself after its event. */
  lemma {:induction false} OwnKeeps(cfg: Config, s: World, e: Event)
    requires Inv(cfg, s) && !ByEnvironment(e) && Enabled(cfg, s, e)
    ensures WorkerOk(cfg, Step(cfg, s, e), After(cfg, Local(s, e.worker), e))
  {
    var w := Local(s, e.worker);
    var u := Step(cfg, s, e);
    StepGrows(cfg, s, e);
    assert WorkerOk(cfg, s, w);
    GrowthKeepsWorker(cfg, s, u, w);
    match e
    case Poll(_, batch) =>
      ReceiveKeeps(s.sent, s.queue, s.now, BatchLimit(cfg.policy), 0);
      SortKeepsElements(HandedOut(s.queue, s.now, BatchLimit(cfg.policy)));
    case Begin(_, routes) => assert w.todo[0] in w.todo;
    case Check(_, found) => CountedKeeps(cfg, u, w.task, AlreadyRecorded, found);
    case Deliver(_, answer) => CountedKeeps(cfg, u, w.task, answer, cfg.recordsLedger);
    case Mark(_) => CountedKeeps(cfg, u, w.task, w.task.stage.answer, true);
    case _ =>
  }

  /** Counting a route as done is right when the answer left its key settled. */
  lemma {:induction false} CountedKeeps(cfg: Config, u: World, t: Task, a: SinkAnswer, counted: bool)
    requires TaskOk(cfg, u, t) && t.Fanout? && t.next < |t.routes|
    requires counted ==> Settled(u, KeyAt(t.message, t.routes, t.next))
    ensures counted ==> TaskOk(cfg, u, Counted(t, a))
  {
  }

  lemma {:induction false} StepKeeps(cfg: Config, s: World, e: Event)
    requires Inv(cfg, s)
    ensures Inv(cfg, Step(cfg, s, e))
  {
    if !Enabled(cfg, s, e) {
    } else if ByEnvironment(e) {
      EnvironmentKeeps(cfg, s, e);
    } else {
      var u := Step(cfg, s, e);
      SharedKeeps(cfg, s, e);
      DepartedKeep(cfg, s, e);
      OwnKeeps(cfg, s, e);
      StepGrows(cfg, s, e);
      forall id | id in u.workers ensures WorkerOk(cfg, u, u.workers[id]) {
        if id != e.worker {
          GrowthKeepsWorker(cfg, s, u, s.workers[id]);
        }
      }
    }
  }

  lemma {:induction false} RunKeeps(cfg: Config, es: seq<Event>)
    ensures Inv(cfg, Run(cfg, INITIAL, es))
  {
    if es != [] {
      RunKeeps(cfg, es[..|es| - 1]);
      StepKeeps(cfg, Run(cfg, INITIAL, es[..|es| - 1]), es[|es| - 1]);
    }
  }

  /** The message is one the receiver must process: intact, parsed, ours, of a supported type. */
  predicate Eligible(cfg: Config, c: Content) {
    && c.intact && c.parsed.Parsed?
    && c.parsed.envelope.applicationId == cfg.applicationId
    && c.parsed.envelope.notificationType in SUPPORTED_NOTIFICATION_TYPES
  }

  /** Which messages are screened out, and as what. */
  lemma {:induction false} ScreenedAs(cfg: Config, c: Content, routes: seq<Route>)
    ensures var o := Screen(cfg, c, routes);
            && (o == Some(Corrupt) <==> !c.intact)
            && (o == Some(UnparseableBody) <==> c.intact && c.parsed.Unparseable?)
            && (o == Some(ForeignApplication) <==>
                  c.intact && c.parsed.Parsed? && c.parsed.envelope.applicationId != cfg.applicationId)
            && (o == Some(UnsupportedType) <==>
                  && c.intact && c.parsed.Parsed? && c.parsed.envelope.applicationId == cfg.applicationId
                  && c.parsed.envelope.notificationType !in SUPPORTED_NOTIFICATION_TYPES)
            && (o == Some(UnknownSeller) <==> Eligible(cfg, c) && routes == [])
            && (o.None? <==> Eligible(cfg, c) && routes != [])
  {
  }

  /** The pause before a retry starts at the base, doubles with every receipt and stops growing at its limit. */
  lemma {:induction false} PausesDouble(p: Policy, n: nat)
    requires n >= 1 && p.retryMaxSeconds >= 0
    ensures RetryPause(p, 1) == Min(p.retryMaxSeconds, p.retryBaseSeconds)
    ensures RetryPause(p, n + 1) == Min(p.retryMaxSeconds, 2 * RetryPause(p, n))
  {
    var x, y := Pow2(n - 1), Pow2(n);
    assert y == 2 * x && p.retryBaseSeconds * y == 2 * (p.retryBaseSeconds * x);
    assert Pow2(0) == 1;
  }

  /**
   * What becomes of a message whose handling failed: before its last allowed receipt it is retried, and
   * hidden for the pause if the queue still knows its handle; from that receipt on it is given up and
   * left as it is. In both cases it stays in the queue.
   */
  lemma {:induction false} FailedIsRetriedOrGivenUp(cfg: Config, s: World, e: Event, i: nat)
    requires Enabled(cfg, s, e) && e.Settle? && i == IndexOf(s.queue, Local(s, e.worker).task.message.handle)
    ensures var m, u := Local(s, e.worker).task.message, Step(cfg, s, e);
            var last := m.receiveCount >= cfg.policy.maxReceiveCount;
            && Local(u, e.worker).outcomes == Local(s, e.worker).outcomes + [if last then GivenUp else Retry]
            && Local(u, e.worker).toDelete == Local(s, e.worker).toDelete
            && |u.queue| == |s.queue|
            && (forall j :: 0 <= j < |s.queue| && (j != i || last || !e.hidden) ==> u.queue[j] == s.queue[j])
            && (i < |s.queue| && !last && e.hidden ==>
                  && u.queue[i] == s.queue[i].(visibleAtMs := u.queue[i].visibleAtMs)
                  && u.queue[i].visibleAtMs == s.now + RetryPause(cfg.policy, m.receiveCount) * 1000)
  {
  }

  /**
   * No loss. In every run, a message that left the queue carried exactly what was sent, arrived
   * intact and, if it was eligible and its seller known, every route of the handling that deleted
   * it has the notification in the ledger or rejected by the adapter; every other message sent is
   * still in the queue, once.
   */
  lemma {:induction false} NothingIsLost(cfg: Config, es: seq<Event>)
    ensures var s := Run(cfg, INITIAL, es);
            && Conserved(s)
            && forall t :: t in s.departed ==>
                 && t.message.handle.messageId < |s.sent|
                 && t.message.content == s.sent[t.message.handle.messageId]
                 && t.message.content.intact
                 && (Eligible(cfg, t.message.content) ==>
                       forall r :: r in t.routes ==> Settled(s, KeyOf(r, NotificationId(t.message.content))))
  {
    var s := Run(cfg, INITIAL, es);
    RunKeeps(cfg, es);
    forall t, r | t in s.departed && r in t.routes && Eligible(cfg, t.message.content)
      ensures Settled(s, KeyOf(r, NotificationId(t.message.content)))
    {
      var i :| 0 <= i < |t.routes| && t.routes[i] == r;
      assert Discharged(cfg, s, t);
      assert Screen(cfg, t.message.content, t.routes).None?;
      assert Settled(s, KeyAt(t.message, t.routes, i));
    }
  }

  /** The fan-out counters add up, so the last fall-back of the outcome is never taken. */
  lemma {:induction false} OutcomeNamesACounter(cfg: Config, es: seq<Event>, id: nat)
    ensures var w := Local(Run(cfg, INITIAL, es), id);
            w.Handling? && w.task.Fanout? && w.task.next == |w.task.routes| ==>
              && w.task.delivered + w.task.rejected + w.task.duplicates == |w.task.routes| > 0
              && (FanoutOutcome(w.task) == Delivered <==> w.task.delivered > 0)
              && (FanoutOutcome(w.task) == Duplicate <==> w.task.duplicates == |w.task.routes|)
  {
    RunKeeps(cfg, es);
  }

  // ---------------------------------------------------------------- raw journal first

  ghost predicate JournalInv(cfg: Config, s: World) {
    && (forall k :: k in s.effects ==> k in s.journal)
    && (forall id :: id in s.workers ==> Journaled(s, s.workers[id]))
  }

  predicate Journaled(s: World, w: Worker) {
    w.Handling? && w.task.Fanout? && (w.task.stage.AtCheck? || w.task.stage.AtDeliver?) && w.task.next < |w.task.routes|
    ==> CurrentKey(w) in s.journal
  }

  lemma {:induction false} JournalStep(cfg: Config, s: World, e: Event)
    requires JournalInv(cfg, s)
    ensures JournalInv(cfg, Step(cfg, s, e))
  {
    if Enabled(cfg, s, e) && !ByEnvironment(e) {
      JournaledNext(cfg, s, e);
      var u := Step(cfg, s, e);
      forall id | id in u.workers ensures Journaled(u, u.workers[id]) {
        assert id != e.worker ==> id in s.workers && u.workers[id] == s.workers[id];
      }
    }
  }

  /** What a receiver's event does to the effects, the journal and its own state. */
  lemma {:induction false} JournaledNext(cfg: Config, s: World, e: Event)
    requires JournalInv(cfg, s) && Enabled(cfg, s, e) && !ByEnvironment(e)
    ensures var u := Step(cfg, s, e);
            && s.journal <= u.journal && (forall k :: k in u.effects ==> k in u.journal)
            && u.workers == s.workers[e.worker := After(cfg, Local(s, e.worker), e)]
            && Journaled(u, u.workers[e.worker])
  {
    var w := Local(s, e.worker);
    assert Journaled(s, w);
    if e.Fail? {
      FailingJournaled(cfg, s, w, e.lost);
    } else if e.Deliver? {
      assert CurrentKey(w) in s.journal;
    } else {
      assert Shared(cfg, s, w, e).effects == s.effects;
    }
  }

  lemma {:induction false} FailingJournaled(cfg: Config, s: World, w: Worker, lost: Option<SinkAnswer>)
    requires w.Handling? && w.task.Fanout? && Journaled(s, w)
    requires forall k :: k in s.effects ==> k in s.journal
    ensures var d := Failing(cfg, s, w, lost);
            s.journal <= d.journal && forall k :: k in d.effects ==> k in d.journal
  {
  }

  /** Nothing reaches the decision path before its raw text is in the journal of notifications. */
  lemma {:induction false} RawTextFirst(cfg: Config, es: seq<Event>)
    ensures JournalInv(cfg, Run(cfg, INITIAL, es))
    ensures forall k :: k in Run(cfg, INITIAL, es).effects ==> k in Run(cfg, INITIAL, es).journal
  {
    if es != [] {
      RawTextFirst(cfg, es[..|es| - 1]);
      JournalStep(cfg, Run(cfg, INITIAL, es[..|es| - 1]), es[|es| - 1]);
    }
  }

  // ---------------------------------------------------------------- at most one effect

  ghost predicate OnceInv(s: World) {
    forall k :: s.effects[k] <= if k in s.ledger then 1 else 0
  }

  lemma {:induction false} OnceStep(cfg: Config, s: World, e: Event)
    requires OnceInv(s) && cfg.recordsLedger && Inv(cfg, s)
    ensures OnceInv(Step(cfg, s, e))
  {
    if Enabled(cfg, s, e) && !ByEnvironment(e) {
      var w := Local(s, e.worker);
      assert WorkerOk(cfg, s, w);
      if e.Deliver? || e.Fail? {
        assert w.task.Fanout? && !w.task.stage.AtMark?;
      } else {
        assert Step(cfg, s, e).effects == s.effects && s.ledger <= Step(cfg, s, e).ledger;
      }
    }
  }

  /**
   * A sink that records the ledger in its own transaction: in every run, with any number of
   * receivers, failures, redeliveries and crashes, each notification takes effect at most once for
   * each route, and only together with its ledger entry.
   */
  lemma {:induction false} AtMostOnce(cfg: Config, es: seq<Event>)
    requires cfg.recordsLedger
    ensures OnceInv(Run(cfg, INITIAL, es))
    ensures forall k :: Run(cfg, INITIAL, es).effects[k] <= 1
  {
    if es != [] {
      AtMostOnce(cfg, es[..|es| - 1]);
      RunKeeps(cfg, es[..|es| - 1]);
      OnceStep(cfg, Run(cfg, INITIAL, es[..|es| - 1]), es[|es| - 1]);
    }
  }

  /**
   * Nothing sent is lost, nothing departs before it is settled, and a sink that records the ledger
   * has applied each notification at most once.
   */
  ghost predicate Safe(cfg: Config, s: World) {
    && Conserved(s)
    && (forall t, r :: t in s.departed && r in t.routes && Eligible(cfg, t.message.content) ==>
          Settled(s, KeyOf(r, NotificationId(t.message.content))))
    && (cfg.recordsLedger ==> forall k :: s.effects[k] <= 1)
  }

  lemma {:induction false} RunIsSafe(cfg: Config, es: seq<Event>)
    ensures Safe(cfg, Run(cfg, INITIAL, es))
  {
    NothingIsLost(cfg, es);
    if cfg.recordsLedger {
      AtMostOnce(cfg, es);
    }
  }

  /** 1 while the receiver holds an accepted delivery of `k` that is not marked yet. */
  function Unmarked(w: Worker, k: Key): (r: nat) {
    if w.Handling? && w.task.Fanout? && w.task.next < |w.task.routes|
        && w.task.stage.AtMark? && w.task.stage.answer.Accepted?
       && CurrentKey(w) == k then 1 else 0
  }

  /** Between its ledger check and its mark the only receiver knows that the key is not in the ledger. */
  predicate Unseen(s: World, w: Worker) {
    w.Handling? && w.task.Fanout? && (w.task.stage.AtDeliver? || w.task.stage.AtMark?)
        && w.task.next < |w.task.routes| ==>
      CurrentKey(w) !in s.ledger
  }

  ghost predicate PlainInv(s: World, id: nat) {
    && Unseen(s, Local(s, id))
    && forall k :: s.effects[k] <= (if k in s.ledger then 1 else 0) + s.gaps[k] + Unmarked(Local(s, id), k)
  }

  lemma {:induction false} PlainStep(cfg: Config, s: World, e: Event, id: nat)
    requires PlainInv(s, id) && (ByEnvironment(e) || e.worker == id) && !cfg.recordsLedger
    ensures PlainInv(Step(cfg, s, e), id)
  {
    if Enabled(cfg, s, e) && !ByEnvironment(e) {
      var w := Local(s, id);
      var u := Step(cfg, s, e);
      assert Local(u, id) == After(cfg, w, e);
      if e.Deliver? || e.Mark? || e.Fail? || e.Abort? {
        PlainCall(cfg, s, e, id);
      } else {
        assert u.effects == s.effects && u.ledger == s.ledger && u.gaps == s.gaps;
        assert forall k :: Unmarked(w, k) == 0 == Unmarked(After(cfg, w, e), k);
      }
    }
  }

  lemma {:induction false} PlainDeliver(cfg: Config, s: World, e: Event, id: nat)
    requires PlainInv(s, id) && !cfg.recordsLedger && Enabled(cfg, s, e) && e.Deliver? && e.worker == id
    ensures PlainInv(Step(cfg, s, e), id)
  {
    assert Local(Step(cfg, s, e), id) == After(cfg, Local(s, id), e);
  }

  lemma {:induction false} PlainMark(cfg: Config, s: World, e: Event, id: nat)
    requires PlainInv(s, id) && !cfg.recordsLedger && Enabled(cfg, s, e) && e.Mark? && e.worker == id
    ensures PlainInv(Step(cfg, s, e), id)
  {
    assert Local(Step(cfg, s, e), id) == After(cfg, Local(s, id), e);
  }

  lemma {:induction false} PlainFail(cfg: Config, s: World, e: Event, id: nat)
    requires PlainInv(s, id) && !cfg.recordsLedger && Enabled(cfg, s, e) && e.Fail? && e.worker == id
    ensures PlainInv(Step(cfg, s, e), id)
  {
    var w := Local(s, id);
    assert Local(Step(cfg, s, e), id) == After(cfg, w, e) == w.(task := w.task.(stage := Failed));
    PlainFailing(cfg, s, w, e.lost);
  }

  /** A call that fails leaves no effect beside ledger and gaps. */
  lemma {:induction false} PlainFailing(cfg: Config, s: World, w: Worker, lost: Option<SinkAnswer>)
    requires !cfg.recordsLedger && w.Handling? && w.task.Fanout? && Unseen(s, w)
    requires forall k :: s.effects[k] <= (if k in s.ledger then 1 else 0) + s.gaps[k] + Unmarked(w, k)
    ensures var d := Failing(cfg, s, w, lost);
            forall k :: d.effects[k] <= (if k in d.ledger then 1 else 0) + d.gaps[k]
  {
  }

  lemma {:induction false} PlainAbort(cfg: Config, s: World, e: Event, id: nat)
    requires PlainInv(s, id) && !cfg.recordsLedger && Enabled(cfg, s, e) && e.Abort? && e.worker == id
    ensures PlainInv(Step(cfg, s, e), id)
  {
    assert Local(Step(cfg, s, e), id) == After(cfg, Local(s, id), e);
  }

  lemma {:induction false} PlainCall(cfg: Config, s: World, e: Event, id: nat)
    requires PlainInv(s, id) && !cfg.recordsLedger && Enabled(cfg, s, e)
    requires (e.Deliver? || e.Mark? || e.Fail? || e.Abort?) && e.worker == id
    ensures PlainInv(Step(cfg, s, e), id)
  {
    if e.Deliver? {
      PlainDeliver(cfg, s, e, id);
    } else if e.Mark? {
      PlainMark(cfg, s, e, id);
    } else if e.Fail? {
      PlainFail(cfg, s, e, id);
    } else {
      PlainAbort(cfg, s, e, id);
    }
  }

  /**
   * A plain sink and one receiver, restarted as often as it crashes: for each route a notification
   * takes effect at most once plus the times the receiver failed or stopped between an accepted
   * delivery and its mark, hence plus its failures and crashes.
   */
  lemma {:induction false} OncePlusGaps(cfg: Config, es: seq<Event>, id: nat)
    requires !cfg.recordsLedger
    requires forall e :: e in es ==> ByEnvironment(e) || e.worker == id
    ensures PlainInv(Run(cfg, INITIAL, es), id)
    ensures forall k :: Run(cfg, INITIAL, es).effects[k] <= 1 + Run(cfg, INITIAL, es).gaps[k] <= 1 + Mishaps(es)
  {
    if es != [] {
      OncePlusGaps(cfg, es[..|es| - 1], id);
      assert es[|es| - 1] in es;
      PlainStep(cfg, Run(cfg, INITIAL, es[..|es| - 1]), es[|es| - 1], id);
    }
    var s := Run(cfg, INITIAL, es);
    forall k ensures s.effects[k] <= 1 + s.gaps[k] <= 1 + Mishaps(es) {
      GapsAreMishaps(cfg, es, k);
      var w := Local(s, id);
      if Unmarked(w, k) == 1 {
        assert k !in s.ledger;
      }
    }
  }

  /** The failures and crashes of a run. */
  function Mishaps(es: seq<Event>): (n: nat) {
    if es == [] then 0
    else Mishaps(es[..|es| - 1]) + if es[|es| - 1].Fail? || es[|es| - 1].Abort? then 1 else 0
  }

  /** The receiver has an accepted delivery of `k` behind it that is not marked, or loses the answer of one. */
  predicate AcceptedUnmarked(w: Worker, e: Event, k: Key) {
    && w.Handling? && w.task.Fanout? && w.task.next < |w.task.routes| && CurrentKey(w) == k
    && if w.task.stage.AtMark? then w.task.stage.answer.Accepted?
       else e.Fail? && w.task.stage.AtDeliver? && e.lost == Some(Accepted)
  }

  /** A gap arises one at a time, and only where a receiver fails or stops between an accepted delivery and its mark. */
  lemma {:induction false} GapIsAMishap(cfg: Config, s: World, e: Event, k: Key)
    ensures var u := Step(cfg, s, e);
            || u.gaps[k] == s.gaps[k]
            || (u.gaps[k] == s.gaps[k] + 1 && (e.Fail? || e.Abort?) && AcceptedUnmarked(Local(s, e.worker), e, k))
  {
  }

  lemma {:induction false} GapsAreMishaps(cfg: Config, es: seq<Event>, k: Key)
    ensures Run(cfg, INITIAL, es).gaps[k] <= Mishaps(es)
  {
    if es != [] {
      GapsAreMishaps(cfg, es[..|es| - 1], k);
      GapIsAMishap(cfg, Run(cfg, INITIAL, es[..|es| - 1]), es[|es| - 1], k);
    }
  }

  lemma {:induction false} RunOne(cfg: Config, es: seq<Event>, e: Event)
    ensures Run(cfg, INITIAL, es + [e]) == Step(cfg, Run(cfg, INITIAL, es), e)
  {
    assert (es + [e])[..|es + [e]| - 1] == es;
  }

  /** Two receivers that hold copies of the same message at their own points of its fan-out. */
  predicate Racing(s: World, m: Received, n: Received, r: Route, stage0: Stage, stage1: Stage) {
    && Local(s, 0) == Handling([], Fanout(m, [r], 0, stage0, 0, 0, 0), [], [])
    && Local(s, 1) == Handling([], Fanout(n, [r], 0, stage1, 0, 0, 0), [], [])
    && m.content == n.content
  }

  /** A poll that finds one visible message. */
  lemma {:induction false} PollOne(cfg: Config, s: World, id: nat)
    requires |s.queue| == 1 && s.queue[0].visibleAtMs <= s.now && Local(s, id).Idle?
    ensures var hidden := Hidden(s.queue[0], s.now + cfg.policy.visibilityTimeoutSeconds * 1000);
            && Enabled(cfg, s, Poll(id, [Copy(hidden)]))
            && Step(cfg, s, Poll(id, [Copy(hidden)]))
               == s.(queue := [hidden], workers := s.workers[id := Handling([Copy(hidden)], NoTask, [], [])])
  {
    var q := s.queue;
    var untilMs := s.now + cfg.policy.visibilityTimeoutSeconds * 1000;
    assert q[1..] == [];
    assert HandedOut(q[1..], s.now, BatchLimit(cfg.policy) - 1) == [];
    assert SortByTime([]) == [];
    assert AfterReceive(q, s.now, BatchLimit(cfg.policy), untilMs) == [Hidden(q[0], untilMs)];
  }

  /** The n-th copy of the only message sent. */
  function NthCopy(c: Content, n: nat): (r: Received) { Received(Handle(0, n), c, n) }

  /** Its state in the queue after n receipts. */
  function NthStored(c: Content, n: nat, visibleAtMs: int): (r: Stored) {
    Stored(0, c, visibleAtMs, n, if n == 0 then None else Some(Handle(0, n)))
  }

  lemma {:induction false} FirstSend(cfg: Config, c: Content)
    ensures Run(cfg, INITIAL, [Send(c)]) == INITIAL.(sent := [c], queue := [NthStored(c, 0, 0)])
  {
    RunOne(cfg, [], Send(c));
    assert [] + [Send(c)] == [Send(c)] && Run(cfg, INITIAL, []) == INITIAL;
  }

  lemma {:induction false} FirstPoll(cfg: Config, c: Content)
    ensures Run(cfg, INITIAL, [Send(c)] + [Poll(0, [NthCopy(c, 1)])])
         == INITIAL.(sent := [c], queue := [NthStored(c, 1, cfg.policy.visibilityTimeoutSeconds * 1000)],
                     workers := map[][0 := Handling([NthCopy(c, 1)], NoTask, [], [])])
  {
    FirstSend(cfg, c);
    RunOne(cfg, [Send(c)], Poll(0, [NthCopy(c, 1)]));
    PollOne(cfg, Run(cfg, INITIAL, [Send(c)]), 0);
  }

  /** The first receipt runs out of its visibility timeout, and a second receiver polls. */
  lemma {:induction false} SecondPoll(cfg: Config, s: World, c: Content, hideMs: nat)
    requires s.queue == [NthStored(c, 1, hideMs)] && s.now == 0 && Local(s, 1).Idle?
    ensures var u := Step(cfg, Step(cfg, s, Tick(hideMs)), Poll(1, [NthCopy(c, 2)]));
            && u == s.(now := u.now, queue := u.queue, workers := u.workers)
            && u.workers == s.workers[1 := Handling([NthCopy(c, 2)], NoTask, [], [])]
  {
    PollOne(cfg, s.(now := hideMs), 1);
  }

  /** Both receivers get the message: the visibility timeout of the first runs out while it works. */
  lemma {:induction false} RaceReceives(cfg: Config, c: Content) returns (es: seq<Event>)
    ensures var s := Run(cfg, INITIAL, es);
            && Local(s, 0) == Handling([NthCopy(c, 1)], NoTask, [], [])
            && Local(s, 1) == Handling([NthCopy(c, 2)], NoTask, [], [])
            && s.ledger == s.journal == {} && s.effects == s.gaps == multiset{}
    ensures forall e :: e in es ==> !e.Fail? && !e.Abort?
  {
    var hideMs := cfg.policy.visibilityTimeoutSeconds * 1000;
    es := [Send(c)] + [Poll(0, [NthCopy(c, 1)])];
    FirstPoll(cfg, c);
    var s := Run(cfg, INITIAL, es);
    SecondPoll(cfg, s, c, hideMs);
    RunOne(cfg, es, Tick(hideMs));
    es := es + [Tick(hideMs)];
    RunOne(cfg, es, Poll(1, [NthCopy(c, 2)]));
    es := es + [Poll(1, [NthCopy(c, 2)])];
  }

  lemma {:induction false} RaceBegins(cfg: Config, s: World, m: Received, n: Received, r: Route, id: nat)
    requires id < 2 && m.content == n.content && Screen(cfg, m.content, [r]).None?
    requires Local(s, 0) == if id == 0 then Handling([m], NoTask, [], [])
               else Handling([], Fanout(m, [r], 0, AtJournal, 0, 0, 0), [], [])
    requires Local(s, 1) == Handling([n], NoTask, [], [])
    ensures var u := Step(cfg, s, Begin(id, [r]));
            && u == s.(workers := u.workers)
            && Local(u, id) == Handling([], Fanout(if id == 0 then m else n, [r], 0, AtJournal, 0, 0, 0), [], [])
            && Local(u, 1 - id) == Local(s, 1 - id)
  {
    assert [m][1..] == [] && [n][1..] == [];
  }

  /** The next call of one of the two. */
  lemma {:induction false} RaceCall(cfg: Config, s: World, m: Received, n: Received, r: Route, a: Stage, b: Stage,
          e: Event)
    requires Racing(s, m, n, r, a, b) && !cfg.recordsLedger
    requires !ByEnvironment(e) && e.worker < 2 && Enabled(cfg, s, e)
    requires e.Journal? || (e.Check? && !e.found) || (e.Deliver? && e.answer.Accepted?)
    ensures var u := Step(cfg, s, e);
            var k := KeyAt(m, [r], 0);
            var next := if e.Journal? then AtCheck else if e.Check? then AtDeliver else AtMark(Accepted);
            && Racing(u, m, n, r, if e.worker == 0 then next else a, if e.worker == 1 then next else b)
            && u.ledger == s.ledger && u.gaps == s.gaps
            && u.journal == (if e.Journal? then s.journal + {k} else s.journal)
            && u.effects == (if e.Deliver? then s.effects + multiset{k} else s.effects)
  {
  }

  /** Both journal, both find the ledger empty, both deliver. */
  lemma {:induction false} RaceRuns(cfg: Config, start: seq<Event>, m: Received, n: Received, r: Route)
    requires !cfg.recordsLedger
    requires var s := Run(cfg, INITIAL, start);
             && Racing(s, m, n, r, AtJournal, AtJournal)
             && s.ledger == s.journal == {} && s.effects == s.gaps == multiset{}
    ensures var s := Run(cfg, INITIAL, start + [Journal(0, false)] + [Journal(1, true)] + [Check(0, false)]
                                             + [Check(1, false)] + [Deliver(0, Accepted)] + [Deliver(1, Accepted)]);
            s.effects[KeyAt(m, [r], 0)] == 2 && s.gaps[KeyAt(m, [r], 0)] == 0
  {
    var es := start;
    RunOne(cfg, es, Journal(0, false));
    RaceCall(cfg, Run(cfg, INITIAL, es), m, n, r, AtJournal, AtJournal, Journal(0, false));
    es := es + [Journal(0, false)];
    RunOne(cfg, es, Journal(1, true));
    RaceCall(cfg, Run(cfg, INITIAL, es), m, n, r, AtCheck, AtJournal, Journal(1, true));
    es := es + [Journal(1, true)];
    RunOne(cfg, es, Check(0, false));
    RaceCall(cfg, Run(cfg, INITIAL, es), m, n, r, AtCheck, AtCheck, Check(0, false));
    es := es + [Check(0, false)];
    RunOne(cfg, es, Check(1, false));
    RaceCall(cfg, Run(cfg, INITIAL, es), m, n, r, AtDeliver, AtCheck, Check(1, false));
    es := es + [Check(1, false)];
    RunOne(cfg, es, Deliver(0, Accepted));
    RaceCall(cfg, Run(cfg, INITIAL, es), m, n, r, AtDeliver, AtDeliver, Deliver(0, Accepted));
    es := es + [Deliver(0, Accepted)];
    RunOne(cfg, es, Deliver(1, Accepted));
    RaceCall(cfg, Run(cfg, INITIAL, es), m, n, r, AtMark(Accepted), AtDeliver, Deliver(1, Accepted));
  }

  /**
   * Why the ledger belongs in the sink's transaction: with a plain sink, two receivers and a
   * visibility timeout that runs out during the handling, a notification takes effect twice
   * although no call failed and no receiver stopped.
   */
  lemma {:induction false} PlainSinkTwoReceivers(cfg: Config) returns (es: seq<Event>, k: Key)
    requires !cfg.recordsLedger
    ensures Run(cfg, INITIAL, es).effects[k] == 2 && Run(cfg, INITIAL, es).gaps[k] == 0
    ensures forall e :: e in es ==> !e.Fail? && !e.Abort?
  {
    var c := Content(true, Parsed(Envelope("n", cfg.applicationId, "PRICING_HEALTH", None, Some("seller"))), Some(0));
    var r := Route("tenant", "account");
    var es0 := RaceReceives(cfg, c);
    var m, n := NthCopy(c, 1), NthCopy(c, 2);
    RunOne(cfg, es0, Begin(0, [r]));
    RaceBegins(cfg, Run(cfg, INITIAL, es0), m, n, r, 0);
    RunOne(cfg, es0 + [Begin(0, [r])], Begin(1, [r]));
    RaceBegins(cfg, Run(cfg, INITIAL, es0 + [Begin(0, [r])]), m, n, r, 1);
    var start := es0 + [Begin(0, [r])] + [Begin(1, [r])];
    RaceRuns(cfg, start, m, n, r);
    k := KeyAt(m, [r], 0);
    es := start + [Journal(0, false)] + [Journal(1, true)] + [Check(0, false)]
                + [Check(1, false)] + [Deliver(0, Accepted)] + [Deliver(1, Accepted)];
  }

  /** In every run, of any number of receivers, each notification takes effect at most once plus its gaps. */
  ghost predicate OnlyGapsRepeat(cfg: Config) {
    forall es, k :: Run(cfg, INITIAL, es).effects[k] <= 1 + Run(cfg, INITIAL, es).gaps[k]
  }

  /** The bound holds for any number of receivers exactly when the sink writes the ledger in its own transaction. */
  lemma {:induction false} OnlyTheLedgerHoldsForMany(cfg: Config)
    ensures OnlyGapsRepeat(cfg) <==> cfg.recordsLedger
  {
    if cfg.recordsLedger {
      forall es, k ensures Run(cfg, INITIAL, es).effects[k] <= 1 + Run(cfg, INITIAL, es).gaps[k] {
        AtMostOnce(cfg, es);
      }
    } else {
      var es, k := PlainSinkTwoReceivers(cfg);
      assert Run(cfg, INITIAL, es).effects[k] > 1 + Run(cfg, INITIAL, es).gaps[k];
    }
  }
}
