/**
 * The notification receiver as a protocol (packages/amazon-notifications/src/receiver.ts): any
 * number of receivers share one at-least-once queue and one ledger of processed notifications.
 *
 * A run is any sequence of events: sends, clock ticks, redeliveries and reorderings by the queue,
 * and, for each receiver, one event per awaited call of the source together with the answer the
 * environment gave. Every call may fail, before or after its effect was committed, and a receiver
 * may stop at any point (Abort). An event that is not possible in a state changes nothing, so the
 * theorems speak of all event sequences without exception.
 */
module ReceiverProtocol {
  import opened Common
  import opened SqsQueue

  datatype Route = Route(tenantId: string, channelAccountId: string)

  /**
   * What the ledger of processed notifications and the journal of raw ones are unique by: tenant,
   * channel and notification (migrations/0083_amazon_notification_receiver.sql:58), where the
   * channel of every account the router finds is Amazon (lines 28-29). Two accounts of one tenant
   * share an entry.
   */
  datatype Key = Key(tenantId: string, notificationId: string)

  datatype Policy = Policy(
    maxMessages: int, visibilityTimeoutSeconds: nat, maxReceiveCount: int,
    retryBaseSeconds: nat, retryMaxSeconds: nat, silenceAlertAfterMs: int, lateAfterMs: int)

  /** `recordsLedger`: the sink writes the ledger in the transaction of its own effect. */
  datatype Config = Config(policy: Policy, applicationId: string, recordsLedger: bool)

  const SUPPORTED_NOTIFICATION_TYPES: set<string> :=
    {"ANY_OFFER_CHANGED", "PRICING_HEALTH", "LISTINGS_ITEM_STATUS_CHANGE", "LISTINGS_ITEM_STATUS_CHANGED",
     "LISTINGS_ITEM_ISSUES_CHANGE"}

  datatype Outcome =
    | Delivered | Duplicate | RejectedByAdapter | ForeignApplication | UnknownSeller | UnsupportedType
    | UnparseableBody | Corrupt | Retry | GivenUp

  /** Outcomes that leave the message in the queue. */
  predicate Kept(o: Outcome) { o in {Corrupt, Retry, GivenUp} }

  datatype SinkAnswer = Accepted | Rejected | AlreadyRecorded

  /** Which awaited call of the fan-out comes next for the current route. */
  datatype Stage = AtJournal | AtCheck | AtDeliver | AtMark(answer: SinkAnswer) | Failed

  datatype Task =
    | NoTask
    | Fanout(message: Received, routes: seq<Route>, next: nat, stage: Stage,
             delivered: nat, rejected: nat, duplicates: nat)

  /** An entry of the list of messages to delete, with the routes its handling had. */
  datatype Ticket = Ticket(message: Received, routes: seq<Route>)

  datatype Worker =
    | Idle
    | Handling(todo: seq<Received>, task: Task, toDelete: seq<Ticket>, outcomes: seq<Outcome>)
    | Deleting(toDelete: seq<Ticket>)

  /**
   * `sent` is indexed by message id. `effects`, `gaps`, `rejections` and `departed` are history:
   * what the sink applied, how often a receiver failed between an accepted delivery and its mark,
   * what the adapter rejected, and what left the queue on whose ticket.
   */
  datatype World = World(
    now: int, sent: seq<Content>, queue: seq<Stored>,
    ledger: set<Key>, journal: set<Key>, effects: multiset<Key>,
    gaps: multiset<Key>, rejections: set<Key>, departed: seq<Ticket>, workers: map<nat, Worker>)

  const INITIAL: World := World(0, [], [], {}, {}, multiset{}, multiset{}, {}, [], map[])

  /**
   * `lost`: a call that fails was not performed (None) or was, and its answer did not arrive. `replied`:
   * what the queue said of each entry of a delete request, or None when the request failed.
   */
  datatype Event =
    | Send(content: Content)
    | Tick(ms: nat)
    | Reappear(index: nat)
    | Reorder(index: nat)
    | Poll(worker: nat, batch: seq<Received>)
    | Begin(worker: nat, routes: seq<Route>)
    | Journal(worker: nat, repeated: bool)
    | Check(worker: nat, found: bool)
    | Deliver(worker: nat, answer: SinkAnswer)
    | Mark(worker: nat)
    | Fail(worker: nat, lost: Option<SinkAnswer>)
    | Settle(worker: nat, hidden: bool)
    | Finish(worker: nat)
    | StartDelete(worker: nat)
    | DeleteChunk(worker: nat, performed: bool, replied: Option<seq<bool>>)
    | EndPoll(worker: nat)
    | Abort(worker: nat)

  predicate ByEnvironment(e: Event) { e.Send? || e.Tick? || e.Reappear? || e.Reorder? }

  // ---------------------------------------------------------------- order inside a batch

  /** Sort key of a message: a message without an event time comes last. */
  function EventTime(m: Received): (r: Option<int>) {
    if m.content.parsed.Parsed? then m.content.parsed.envelope.eventTime else None
  }

  predicate NotAfter(a: Received, b: Received) {
    EventTime(b).None? || (EventTime(a).Some? && EventTime(a).value <= EventTime(b).value)
  }

  function InsertByTime(m: Received, ms: seq<Received>): (r: seq<Received>) {
    if ms == [] || NotAfter(m, ms[0]) then [m] + ms else [ms[0]] + InsertByTime(m, ms[1..])
  }

  /** The stable sort of pollOnce. */
  function SortByTime(ms: seq<Received>): (r: seq<Received>) {
    if ms == [] then [] else InsertByTime(ms[0], SortByTime(ms[1..]))
  }

  function WithTime(ms: seq<Received>, t: Option<int>): (r: seq<Received>) {
    if ms == [] then []
    else (if EventTime(ms[0]) == t then [ms[0]] else []) + WithTime(ms[1..], t)
  }

  predicate Ordered(ms: seq<Received>) {
    forall i, j :: 0 <= i < j < |ms| ==> NotAfter(ms[i], ms[j])
  }

  lemma {:induction false} InsertAdds(m: Received, ms: seq<Received>)
    ensures multiset(InsertByTime(m, ms)) == multiset{m} + multiset(ms)
  {
    if ms == [] || NotAfter(m, ms[0]) {
    } else {
      InsertAdds(m, ms[1..]);
      assert ms == [ms[0]] + ms[1..];
    }
  }

  lemma {:induction false} InsertOrders(m: Received, ms: seq<Received>)
    requires Ordered(ms)
    ensures Ordered(InsertByTime(m, ms))
  {
    if ms == [] || NotAfter(m, ms[0]) {
    } else {
      InsertOrders(m, ms[1..]);
      InsertAdds(m, ms[1..]);
      forall x | x in InsertByTime(m, ms[1..]) ensures NotAfter(ms[0], x) {
        assert x in multiset(InsertByTime(m, ms[1..]));
        assert x == m || x in ms[1..];
      }
    }
  }

  lemma {:induction false} InsertStable(m: Received, ms: seq<Received>, t: Option<int>)
    ensures WithTime(InsertByTime(m, ms), t) == WithTime([m] + ms, t)
  {
    assert ([m] + ms)[1..] == ms;
    if ms == [] || NotAfter(m, ms[0]) {
    } else {
      InsertStable(m, ms[1..], t);
      assert ([m] + ms[1..])[1..] == ms[1..];
      assert EventTime(m) != EventTime(ms[0]);
    }
  }

  /**
   * A polled batch is handled in order of event time, with nothing lost or added, and messages of
   * equal time in the order the queue gave them.
   */
  lemma {:induction false} SortedBatch(ms: seq<Received>, t: Option<int>)
    ensures multiset(SortByTime(ms)) == multiset(ms)
    ensures Ordered(SortByTime(ms))
    ensures WithTime(SortByTime(ms), t) == WithTime(ms, t)
  {
    if ms != [] {
      var sorted := SortByTime(ms[1..]);
      SortedBatch(ms[1..], t);
      InsertAdds(ms[0], sorted);
      InsertOrders(ms[0], sorted);
      InsertStable(ms[0], sorted, t);
      assert ms == [ms[0]] + ms[1..];
      assert ([ms[0]] + sorted)[1..] == sorted;
    }
  }

  // ---------------------------------------------------------------- one message

  /** What handle() decides before it consults the ledger; None when the message goes to its routes. */
  function Screen(cfg: Config, c: Content, routes: seq<Route>): (r: Option<Outcome>) {
    if !c.intact then Some(Corrupt)
    else if c.parsed.Unparseable? then Some(UnparseableBody)
    else if c.parsed.envelope.applicationId != cfg.applicationId then Some(ForeignApplication)
    else if c.parsed.envelope.notificationType !in SUPPORTED_NOTIFICATION_TYPES then Some(UnsupportedType)
    else if routes == [] then Some(UnknownSeller)
    else None
  }

  function NotificationId(c: Content): (r: string) {
    if c.parsed.Parsed? then c.parsed.envelope.notificationId else ""
  }

  function KeyOf(r: Route, notificationId: string): (k: Key) { Key(r.tenantId, notificationId) }

  function KeyAt(m: Received, routes: seq<Route>, i: nat): (r: Key)
    requires i < |routes|
  {
    KeyOf(routes[i], NotificationId(m.content))
  }

  /** Seconds until a failed message may be received again. */
  function RetryPause(p: Policy, receiveCount: nat): (r: int) {
    Min(p.retryMaxSeconds, p.retryBaseSeconds * Pow2(Max(0, receiveCount - 1)))
  }

  /** The outcome of a message whose routes were all gone through. */
  function FanoutOutcome(t: Task): (r: Outcome)
    requires t.Fanout?
  {
    if t.delivered > 0 then Delivered
    else if t.rejected > 0 then RejectedByAdapter
    else if t.duplicates > 0 then Duplicate
    else Delivered
  }

  /** The receiver's batch limit: the queue client clamps maxMessages to 1..10. */
  function BatchLimit(p: Policy): (r: nat)
    ensures 1 <= r <= 10
  {
    Max(1, Min(10, p.maxMessages))
  }

  // ---------------------------------------------------------------- one receiver

  function Counted(t: Task, a: SinkAnswer): (r: Task)
    requires t.Fanout?
  {
    var u := t.(next := t.next + 1, stage := AtJournal);
    match a
    case Accepted => u.(delivered := u.delivered + 1)
    case Rejected => u.(rejected := u.rejected + 1)
    case AlreadyRecorded => u.(duplicates := u.duplicates + 1)
  }

  function Chunk(ts: seq<Ticket>): (r: seq<Ticket>) {
    if |ts| <= 10 then ts else ts[..10]
  }

  function AfterChunk(ts: seq<Ticket>): (r: seq<Ticket>) {
    if |ts| <= 10 then [] else ts[10..]
  }

  function HandlesOf(ts: seq<Ticket>): (r: seq<Handle>)
    ensures |r| == |ts|
    ensures forall i :: 0 <= i < |ts| ==> r[i] == ts[i].message.handle
  {
    seq(|ts|, i requires 0 <= i < |ts| => ts[i].message.handle)
  }

  /** Can this receiver, in this local state, do this event? What it needs of the shared state is in Enabled. */
  predicate Ready(cfg: Config, w: Worker, e: Event) {
    if e.Poll? then w.Idle?
    else if e.StartDelete? then w.Handling? && w.task.NoTask? && w.todo == []
    else if e.DeleteChunk? then w.Deleting? && w.toDelete != []
    else if e.EndPoll? then w.Deleting? && w.toDelete == []
    else if e.Abort? then true
    else if e.Begin? then w.Handling? && w.task.NoTask? && w.todo != []
    else
      && w.Handling? && w.task.Fanout?
      && match e
         case Journal(_, _) => w.task.stage.AtJournal? && w.task.next < |w.task.routes|
         case Check(_, _) => w.task.stage.AtCheck? && w.task.next < |w.task.routes|
         case Deliver(_, _) => w.task.stage.AtDeliver? && w.task.next < |w.task.routes|
         case Mark(_) => w.task.stage.AtMark? && w.task.next < |w.task.routes|
         case Finish(_) => w.task.stage.AtJournal? && w.task.next >= |w.task.routes|
         case Fail(_, _) => !w.task.stage.Failed?
         case Settle(_, _) => w.task.stage.Failed?
         case _ => false
  }

  /** The local state of the receiver after its own event. */
  function After(cfg: Config, w: Worker, e: Event): (r: Worker)
    requires !ByEnvironment(e) && Ready(cfg, w, e)
  {
    match e
    case Poll(_, batch) => Handling(batch, NoTask, [], [])
    case Begin(_, routes) =>
      var m := w.todo[0];
      var next := w.(todo := w.todo[1..]);
      (match Screen(cfg, m.content, routes)
       case None => next.(task := Fanout(m, routes, 0, AtJournal, 0, 0, 0))
       case Some(o) =>
         next.(outcomes := w.outcomes + [o],
               toDelete := if Kept(o) then w.toDelete else w.toDelete + [Ticket(m, routes)]))
    case Journal(_, _) => w.(task := w.task.(stage := AtCheck))
    case Check(_, found) =>
      w.(task := if found then Counted(w.task, AlreadyRecorded) else w.task.(stage := AtDeliver))
    case Deliver(_, answer) =>
      w.(task := if cfg.recordsLedger then Counted(w.task, answer) else w.task.(stage := AtMark(answer)))
    case Mark(_) => w.(task := Counted(w.task, w.task.stage.answer))
    case Fail(_, _) => w.(task := w.task.(stage := Failed))
    case Settle(_, _) =>
      w.(task := NoTask,
         outcomes := w.outcomes
             + [if w.task.message.receiveCount >= cfg.policy.maxReceiveCount then GivenUp else Retry])
    case Finish(_) =>
      w.(task := NoTask, outcomes := w.outcomes + [FanoutOutcome(w.task)],
         toDelete := w.toDelete + [Ticket(w.task.message, w.task.routes)])
    case StartDelete(_) => Deleting(w.toDelete)
    case DeleteChunk(_, _, _) => Deleting(AfterChunk(w.toDelete))
    case EndPoll(_) => Idle
    case Abort(_) => Idle
  }

  // ---------------------------------------------------------------- the shared state

  function Local(s: World, id: nat): (r: Worker) {
    if id in s.workers then s.workers[id] else Idle
  }

  function CurrentKey(w: Worker): (r: Key)
    requires w.Handling? && w.task.Fanout? && w.task.next < |w.task.routes|
  {
    KeyAt(w.task.message, w.task.routes, w.task.next)
  }

  /**
   * The contract of the sink: with its own ledger it accepts only what is not in the ledger yet.
   * LedgerSink derives it from the sink's transactions, and says which deliveries meet it.
   */
  predicate SinkMay(cfg: Config, s: World, k: Key, a: SinkAnswer) {
    cfg.recordsLedger ==> (a.Accepted? ==> k !in s.ledger) && (a.AlreadyRecorded? ==> k in s.ledger)
  }

  /** The answer carried by the event is one the environment can give in this state. */
  predicate Fits(cfg: Config, s: World, w: Worker, e: Event)
    requires !ByEnvironment(e) && Ready(cfg, w, e)
  {
    && (e.Poll? ==> e.batch == SortByTime(HandedOut(s.queue, s.now, BatchLimit(cfg.policy))))
    && (e.Journal? ==> e.repeated == (CurrentKey(w) in s.journal))
    && (e.Check? ==> e.found == (CurrentKey(w) in s.ledger))
    && (e.Deliver? ==> SinkMay(cfg, s, CurrentKey(w), e.answer))
    && (e.Fail? && e.lost.Some? && w.task.stage.AtDeliver? && w.task.next < |w.task.routes| ==>
          SinkMay(cfg, s, CurrentKey(w), e.lost.value))
    && (e.DeleteChunk? && e.replied.Some? ==>
          e.performed && e.replied.value == DeleteFlags(s.queue, HandlesOf(Chunk(w.toDelete))))
  }

  predicate Enabled(cfg: Config, s: World, e: Event) {
    if ByEnvironment(e) then e.Reappear? || e.Reorder? ==> e.index < |s.queue|
    else Ready(cfg, Local(s, e.worker), e) && Fits(cfg, s, Local(s, e.worker), e)
  }

  /** The sink's transaction: what it accepts or rejects is in the ledger too when the sink writes it. */
  function Delivering(cfg: Config, s: World, k: Key, a: SinkAnswer): (r: World) {
    var ledger := if cfg.recordsLedger then s.ledger + {k} else s.ledger;
    match a
    case Accepted => s.(effects := s.effects + multiset{k}, ledger := ledger)
    case Rejected => s.(rejections := s.rejections + {k}, ledger := ledger)
    case AlreadyRecorded => s
  }

  /** What a call that fails leaves behind: its effect if it was performed, and a gap if a mark is now missing. */
  function Failing(cfg: Config, s: World, w: Worker, lost: Option<SinkAnswer>): (r: World)
    requires w.Handling? && w.task.Fanout?
  {
    if w.task.next >= |w.task.routes| then s
    else
      var k := CurrentKey(w);
      match w.task.stage
      case AtJournal => if lost.Some? then s.(journal := s.journal + {k}) else s
      case AtDeliver =>
        if lost.None? then s
        else
          var d := Delivering(cfg, s, k, lost.value);
          if cfg.recordsLedger || !lost.value.Accepted? then d else d.(gaps := d.gaps + multiset{k})
      case AtMark(a) =>
        var d := if lost.Some? then s.(ledger := s.ledger + {k}) else s;
        if a.Accepted? then d.(gaps := d.gaps + multiset{k}) else d
      case _ => s
  }

  function Shared(cfg: Config, s: World, w: Worker, e: Event): (r: World)
    requires !ByEnvironment(e) && Ready(cfg, w, e)
  {
    match e
    case Poll(_, _) =>
      s.(queue := AfterReceive(s.queue, s.now, BatchLimit(cfg.policy),
                               s.now + cfg.policy.visibilityTimeoutSeconds * 1000))
    case Journal(_, _) => s.(journal := s.journal + {CurrentKey(w)})
    case Deliver(_, answer) => Delivering(cfg, s, CurrentKey(w), answer)
    case Mark(_) => s.(ledger := s.ledger + {CurrentKey(w)})
    case Fail(_, lost) => Failing(cfg, s, w, lost)
    case Settle(_, hidden) =>
      if hidden && w.task.message.receiveCount < cfg.policy.maxReceiveCount then
        s.(queue := AfterChangeVisibility(s.queue, w.task.message.handle,
                                          s.now + RetryPause(cfg.policy, w.task.message.receiveCount) * 1000))
      else s
    case DeleteChunk(_, performed, _) =>
      if !performed then s
      else
        var chunk := Chunk(w.toDelete);
        s.(queue := AfterDelete(s.queue, HandlesOf(chunk)), departed := s.departed + Gone(s.queue, chunk))
    case Abort(_) =>
      if w.Handling? && w.task.Fanout? && w.task.stage.AtMark?
          && w.task.stage.answer.Accepted? && w.task.next < |w.task.routes| then
        s.(gaps := s.gaps + multiset{CurrentKey(w)})
      else s
    case _ => s
  }

  /** The tickets on which a delete request takes a message out of the queue. */
  function Gone(queue: seq<Stored>, ts: seq<Ticket>): (r: seq<Ticket>) {
    if ts == [] then []
    else
      (if IndexOf(queue, ts[0].message.handle) < |queue| then [ts[0]] else [])
      + Gone(AfterDeleteOne(queue, ts[0].message.handle), ts[1..])
  }

  function Step(cfg: Config, s: World, e: Event): (r: World) {
    if !Enabled(cfg, s, e) then s
    else
      match e
      case Send(c) => s.(sent := s.sent + [c], queue := s.queue + [Stored(|s.sent|, c, 0, 0, None)])
      case Tick(ms) => s.(now := s.now + ms)
      case Reappear(i) => s.(queue := s.queue[i := s.queue[i].(visibleAtMs := s.now)])
      case Reorder(i) => s.(queue := Without(s.queue, i) + [s.queue[i]])
      case _ =>
        var w := Local(s, e.worker);
        Shared(cfg, s, w, e).(workers := s.workers[e.worker := After(cfg, w, e)])
  }

  function Run(cfg: Config, s: World, es: seq<Event>): (r: World) {
    if es == [] then s else Step(cfg, Run(cfg, s, es[..|es| - 1]), es[|es| - 1])
  }

  lemma {:induction false} RunAppend(cfg: Config, s: World, es: seq<Event>, fs: seq<Event>)
    ensures Run(cfg, s, es + fs) == Run(cfg, Run(cfg, s, es), fs)
  {
    if fs == [] {
      assert es + fs == es;
    } else {
      var n := |fs| - 1;
      assert (es + fs)[..|es + fs| - 1] == es + fs[..n];
      RunAppend(cfg, s, es, fs[..n]);
    }
  }

  /** Other receivers and the queue never touch the local state of a receiver. */
  lemma {:induction false} OthersKeepLocal(cfg: Config, s: World, es: seq<Event>, id: nat)
    requires forall e :: e in es ==> ByEnvironment(e) || e.worker != id
    ensures Local(Run(cfg, s, es), id) == Local(s, id)
  {
    if es != [] {
      OthersKeepLocal(cfg, s, es[..|es| - 1], id);
      assert es[|es| - 1] in es;
    }
  }
}
