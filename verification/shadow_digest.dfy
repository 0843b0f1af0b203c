/**
 * createShadowDigest().send (packages/alert-delivery/src/shadow-digest.ts:61-112) with the store it
 * relies on (packages/pricing-store-pg/src/shadow.ts:452-483): one row for each tenant and period,
 * written before the letter and marked after it. Every await may throw or kill the process, with or
 * without its effect.
 */
module ShadowDigest {
  import opened Common

  datatype Period = Period(tenantId: string, periodStart: string)

  datatype Row = Row(delivered: bool, attempts: nat)

  datatype Target = Target(period: Period, decisions: nat, heldWrites: nat, ownerEmail: Option<string>)

  /** How an awaited call goes: it returns, it throws, or the process dies in it; `applied`: its effect took place. */
  datatype Await = Returns | Throws(applied: bool) | Dies(applied: bool)

  /** The awaits of one target. */
  datatype Turn = Turn(record: Await, mail: Await, mark: Await, fail: Await)

  datatype Counters = Counters(letters: nat, quiet: nat, noRecipient: nat, failed: nat, alreadySent: nat) {
    function Total(): (n: nat) { letters + quiet + noRecipient + failed + alreadySent }
  }

  const ZERO := Counters(0, 0, 0, 0, 0)

  /**
   * The rows, and two histories: the letters that went out, and of these the ones whose delivery mark
   * was not set because of a failure or a crash between the letter and the mark.
   */
  datatype State = State(rows: map<Period, Row>, mailed: seq<Period>, gaps: seq<Period>)

  /** A run goes on to its next target, or ends here. */
  datatype After = Continues(state: State, counters: Counters) | Ends(left: State)

  predicate Applied(a: Await) { a.Returns? || a.applied }

  // ---------------------------------------------------------------- the store

  function Recorded(s: State, p: Period): (r: State) {
    if p in s.rows then s else s.(rows := s.rows[p := Row(false, 0)])
  }

  predicate Delivered(s: State, p: Period) { p in s.rows && s.rows[p].delivered }

  function Mailed(s: State, p: Period): (r: State) { s.(mailed := s.mailed + [p]) }

  function Marked(s: State, p: Period): (r: State) {
    if p in s.rows then s.(rows := s.rows[p := Row(true, s.rows[p].attempts + 1)]) else s
  }

  function Attempted(s: State, p: Period): (r: State) {
    if p in s.rows then s.(rows := s.rows[p := s.rows[p].(attempts := s.rows[p].attempts + 1)]) else s
  }

  // ---------------------------------------------------------------- one target, on values

  predicate Quiet(t: Target) { t.decisions == 0 && t.heldWrites == 0 }

  /** The failure branch: counted, and the attempt written down. */
  function AfterFailure(s: State, c: Counters, p: Period, fail: Await): (r: After) {
    var s1 := if Applied(fail) then Attempted(s, p) else s;
    if fail.Returns? then Continues(s1, c.(failed := c.failed + 1)) else Ends(s1)
  }

  /** From the letter on. */
  function AfterRecord(s: State, c: Counters, p: Period, turn: Turn): (r: After) {
    var s1 := if Applied(turn.mail) then Mailed(s, p) else s;
    var lost := s1.(gaps := s1.gaps + if Applied(turn.mail) then [p] else []);
    if turn.mail.Dies? then Ends(lost)
    else if turn.mail.Throws? then AfterFailure(lost, c, p, turn.fail)
    else
      var s2 := if Applied(turn.mark) then Marked(s1, p) else lost;
      if turn.mark.Dies? then Ends(s2)
      else if turn.mark.Throws? then AfterFailure(s2, c, p, turn.fail)
      else Continues(s2, c.(letters := c.letters + 1))
  }

  function Handled(s: State, c: Counters, t: Target, turn: Turn): (r: After) {
    if Quiet(t) then Continues(s, c.(quiet := c.quiet + 1))
    else if t.ownerEmail.None? then Continues(s, c.(noRecipient := c.noRecipient + 1))
    else
      var s1 := if Applied(turn.record) then Recorded(s, t.period) else s;
      if !turn.record.Returns? then Ends(s1)
      else if Delivered(s1, t.period) then Continues(s1, c.(alreadySent := c.alreadySent + 1))
      else AfterRecord(s1, c, t.period, turn)
  }

  /** One run over its targets; `turns(i)` are the awaits of target `i`. */
  function Sent(s: State, c: Counters, ts: seq<Target>, turns: nat -> Turn, i: nat): (r: After)
    requires i <= |ts|
    decreases |ts| - i
  {
    if i == |ts| then Continues(s, c)
    else match Handled(s, c, ts[i], turns(i))
      case Ends(s1) => Ends(s1)
      case Continues(s1, c1) => Sent(s1, c1, ts, turns, i + 1)
  }

  function StateOf(r: After): (s: State) { match r case Continues(s, _) => s case Ends(s) => s }

  datatype Attempt = Attempt(targets: Reply<seq<Target>>, turns: nat -> Turn)

  /** The state after a sequence of runs, from an empty table. */
  function Runs(runs: seq<Attempt>): (s: State) {
    if runs == [] then State(map[], [], [])
    else
      var s, run := Runs(runs[..|runs| - 1]), runs[|runs| - 1];
      if run.targets.Threw? then s else StateOf(Sent(s, ZERO, run.targets.value, run.turns, 0))
  }

  // ---------------------------------------------------------------- the source's loop

  class Digest {
    var rows: map<Period, Row>
    var mailed: seq<Period>
    var gaps: seq<Period>

    constructor ()
      ensures Now() == State(map[], [], [])
    {
      rows, mailed, gaps := map[], [], [];
    }

    function Now(): (s: State)
      reads this
    {
      State(rows, mailed, gaps)
    }

    method Record(p: Period, a: Await) returns (delivered: bool)
      modifies this`rows
      ensures Now() == (if Applied(a) then Recorded(old(Now()), p) else old(Now()))
      ensures delivered == Delivered(Now(), p)
    {
      if Applied(a) && p !in rows {
        rows := rows[p := Row(false, 0)];
      }
      delivered := p in rows && rows[p].delivered;
    }

    method MailSend(p: Period, a: Await)
      modifies this`mailed
      ensures Now() == if Applied(a) then Mailed(old(Now()), p) else old(Now())
    {
      if Applied(a) {
        mailed := mailed + [p];
      }
    }

    method MarkDelivered(p: Period, a: Await)
      modifies this`rows
      ensures Now() == if Applied(a) then Marked(old(Now()), p) else old(Now())
    {
      if Applied(a) && p in rows {
        rows := rows[p := Row(true, rows[p].attempts + 1)];
      }
    }

    method MarkFailed(p: Period, a: Await)
      modifies this`rows
      ensures Now() == if Applied(a) then Attempted(old(Now()), p) else old(Now())
    {
      if Applied(a) && p in rows {
        rows := rows[p := rows[p].(attempts := rows[p].attempts + 1)];
      }
    }

    /** The try block: the letter and its mark. `gaps` notes a letter that is left without its mark. */
    method SendLetter(p: Period, turn: Turn) returns (alive: bool, threw: bool)
      modifies this
      ensures var c := ZERO;
              match AfterRecord(old(Now()), c, p, turn.(fail := Dies(false)))
              case Ends(s) => Now() == s && (!alive || threw)
              case Continues(s, d) => Now() == s && alive && !threw
      ensures !alive <==> turn.mail.Dies? || (turn.mail.Returns? && turn.mark.Dies?)
    {
      MailSend(p, turn.mail);
      if !turn.mail.Returns? {
        gaps := gaps + if Applied(turn.mail) then [p] else [];
        return !turn.mail.Dies?, true;
      }
      MarkDelivered(p, turn.mark);
      if !Applied(turn.mark) {
        gaps := gaps + [p];
      }
      return !turn.mark.Dies?, !turn.mark.Returns?;
    }

    /** One run; None when it ended before its last target. */
    method Send(targets: Reply<seq<Target>>, turns: nat -> Turn) returns (outcome: Option<Counters>)
      modifies this
      ensures targets.Threw? ==> outcome.None? && Now() == old(Now())
      ensures targets.Answer? ==>
                match Sent(old(Now()), ZERO, targets.value, turns, 0)
                case Ends(s) => outcome.None? && Now() == s
                case Continues(s, c) => outcome == Some(c) && Now() == s
    {
      if targets.Threw? {
        return None;
      }
      var c := ZERO;
      for i := 0 to |targets.value|
        invariant Sent(Now(), c, targets.value, turns, i) == Sent(old(Now()), ZERO, targets.value, turns, 0)
      {
        var t, turn := targets.value[i], turns(i);
        if t.decisions == 0 && t.heldWrites == 0 {
          c := c.(quiet := c.quiet + 1);
          continue;
        }
        if t.ownerEmail.None? {
          c := c.(noRecipient := c.noRecipient + 1);
          continue;
        }
        var delivered := Record(t.period, turn.record);
        if !turn.record.Returns? {
          return None;
        }
        if delivered {
          c := c.(alreadySent := c.alreadySent + 1);
          continue;
        }
        var alive, threw := SendLetter(t.period, turn);
        if !alive {
          return None;
        }
        if threw {
          c := c.(failed := c.failed + 1);
          MarkFailed(t.period, turn.fail);
          if !turn.fail.Returns? {
            return None;
          }
        } else {
          c := c.(letters := c.letters + 1);
        }
      }
      outcome := Some(c);
    }
  }

  // ---------------------------------------------------------------- letters and marks

  function Occurs(ps: seq<Period>, p: Period): (n: nat) {
    if ps == [] then 0 else Occurs(ps[..|ps| - 1], p) + if ps[|ps| - 1] == p then 1 else 0
  }

  lemma {:induction false} OccursPush(ps: seq<Period>, q: Period, p: Period)
    ensures Occurs(ps + [q], p) == Occurs(ps, p) + if q == p then 1 else 0
  {
    assert (ps + [q])[..|ps|] == ps;
  }

  /** Each letter was marked or is a gap, and a period is marked at most once. */
  predicate AccountedAt(s: State, p: Period) {
    Occurs(s.mailed, p) == Occurs(s.gaps, p) + if Delivered(s, p) then 1 else 0
  }

  ghost predicate Accounted(s: State) { forall p :: AccountedAt(s, p) }

  /** What was delivered stays delivered and is not mailed again. */
  predicate SettledAt(s: State, t: State, p: Period) {
    Delivered(s, p) ==> Delivered(t, p) && Occurs(t.mailed, p) == Occurs(s.mailed, p)
  }

  ghost predicate Settled(s: State, t: State) { forall p :: SettledAt(s, t, p) }

  /** Both at once: what a step keeps. */
  ghost predicate Kept(s: State, t: State) { Accounted(t) && Settled(s, t) }

  lemma {:induction false} KeptTwice(s: State, t: State, u: State)
    requires Kept(s, t) && Kept(t, u)
    ensures Kept(s, u)
  {
    forall p ensures SettledAt(s, u, p) {
      assert SettledAt(s, t, p) && SettledAt(t, u, p);
    }
  }

  /** A change of the rows that delivers nothing. */
  lemma {:induction false} SameDeliveries(s: State, t: State)
    requires Accounted(s) && t.mailed == s.mailed && t.gaps == s.gaps
    requires forall p :: Delivered(t, p) <==> Delivered(s, p)
    ensures Kept(s, t)
  {
    forall p ensures AccountedAt(t, p) && SettledAt(s, t, p) {
      assert AccountedAt(s, p);
    }
  }

  lemma {:induction false} LostLetter(s: State, p: Period)
    requires Accounted(s) && !Delivered(s, p)
    ensures Kept(s, State(s.rows, s.mailed + [p], s.gaps + [p]))
  {
    var t := State(s.rows, s.mailed + [p], s.gaps + [p]);
    forall q ensures AccountedAt(t, q) && SettledAt(s, t, q) {
      assert AccountedAt(s, q) && (Delivered(t, q) <==> Delivered(s, q));
      OccursPush(s.mailed, p, q);
      OccursPush(s.gaps, p, q);
    }
  }

  lemma {:induction false} MarkedLetter(s: State, p: Period)
    requires Accounted(s) && p in s.rows && !Delivered(s, p)
    ensures Kept(s, Marked(Mailed(s, p), p))
  {
    var t := Marked(Mailed(s, p), p);
    forall q ensures AccountedAt(t, q) && SettledAt(s, t, q) {
      assert AccountedAt(s, q) && (Delivered(t, q) <==> q == p || Delivered(s, q));
      OccursPush(s.mailed, p, q);
    }
  }

  lemma {:induction false} FailureKeeps(s: State, c: Counters, p: Period, fail: Await)
    requires Accounted(s)
    ensures Kept(s, StateOf(AfterFailure(s, c, p, fail)))
  {
    SameDeliveries(s, StateOf(AfterFailure(s, c, p, fail)));
  }

  lemma {:induction false} LetterKeeps(s: State, c: Counters, p: Period, turn: Turn)
    requires Accounted(s) && p in s.rows && !Delivered(s, p)
    ensures Kept(s, StateOf(AfterRecord(s, c, p, turn)))
  {
    var s1 := if Applied(turn.mail) then Mailed(s, p) else s;
    var lost := s1.(gaps := s1.gaps + if Applied(turn.mail) then [p] else []);
    var t := if turn.mail.Returns? && Applied(turn.mark) then Marked(s1, p) else lost;
    assert Kept(s, t) by {
      assert s.gaps + [] == s.gaps;
      if Applied(turn.mail) {
        LostLetter(s, p);
        MarkedLetter(s, p);
      } else {
        SameDeliveries(s, lost);
      }
    }
    FailureKeeps(t, c, p, turn.fail);
    KeptTwice(s, t, StateOf(AfterFailure(t, c, p, turn.fail)));
  }

  lemma {:induction false} HandledKeeps(s: State, c: Counters, t: Target, turn: Turn)
    requires Accounted(s)
    ensures Kept(s, StateOf(Handled(s, c, t, turn)))
  {
    SameDeliveries(s, s);
    var s1 := Recorded(s, t.period);
    SameDeliveries(s, s1);
    if !Delivered(s1, t.period) {
      LetterKeeps(s1, c, t.period, turn);
      KeptTwice(s, s1, StateOf(AfterRecord(s1, c, t.period, turn)));
    }
  }

  lemma {:induction false} SentKeeps(s: State, c: Counters, ts: seq<Target>, turns: nat -> Turn, i: nat)
    requires Accounted(s) && i <= |ts|
    ensures Kept(s, StateOf(Sent(s, c, ts, turns, i)))
    decreases |ts| - i
  {
    if i < |ts| {
      HandledKeeps(s, c, ts[i], turns(i));
      match Handled(s, c, ts[i], turns(i)) {
        case Ends(_) =>
        case Continues(s1, c1) =>
          SentKeeps(s1, c1, ts, turns, i + 1);
          KeptTwice(s, s1, StateOf(Sent(s1, c1, ts, turns, i + 1)));
      }
    } else {
      SameDeliveries(s, s);
    }
  }

  lemma {:induction false} RunsAreAccounted(runs: seq<Attempt>)
    ensures Accounted(Runs(runs))
  {
    if runs != [] {
      var run := runs[|runs| - 1];
      RunsAreAccounted(runs[..|runs| - 1]);
      if run.targets.Answer? {
        SentKeeps(Runs(runs[..|runs| - 1]), ZERO, run.targets.value, run.turns, 0);
      }
    }
  }

  /**
   * Over any sequence of runs with failures and crashes at any await, the letters of a period are its
   * gaps (letters left without their mark) and, if it is marked delivered, exactly one more.
   */
  lemma {:induction false} LettersOfAPeriod(runs: seq<Attempt>, p: Period)
    ensures var s := Runs(runs);
            && Occurs(s.mailed, p) == Occurs(s.gaps, p) + (if Delivered(s, p) then 1 else 0)
            && Occurs(s.mailed, p) <= 1 + Occurs(s.gaps, p)
  {
    RunsAreAccounted(runs);
    assert AccountedAt(Runs(runs), p);
  }

  /**
   * A gap is a mishap between a letter and its mark: the mail call failed or the process died though
   * the letter went out, or the mark failed or the process died before it was set.
   */
  lemma {:induction false} GapIsAMishap(s: State, c: Counters, t: Target, turn: Turn)
    ensures var u := StateOf(Handled(s, c, t, turn));
            || u.gaps == s.gaps
            || (&& u.gaps == s.gaps + [t.period] && u.mailed == s.mailed + [t.period]
                && if turn.mail.Returns? then !turn.mark.Returns? && !turn.mark.applied else turn.mail.applied)
  {
    assert s.gaps + [] == s.gaps;
  }

  /** A period marked delivered is never mailed again, whatever runs follow. */
  lemma {:induction false} NeverMailedAgain(before: seq<Attempt>, after: seq<Attempt>, p: Period)
    requires Delivered(Runs(before), p)
    ensures Delivered(Runs(before + after), p) && Occurs(Runs(before + after).mailed, p)
              == Occurs(Runs(before).mailed, p)
  {
    if after == [] {
      assert before + after == before;
    } else {
      var n, run := |after| - 1, after[|after| - 1];
      assert (before + after)[..|before| + n] == before + after[..n];
      NeverMailedAgain(before, after[..n], p);
      RunsAreAccounted(before + after[..n]);
      if run.targets.Answer? {
        var s := Runs(before + after[..n]);
        SentKeeps(s, ZERO, run.targets.value, run.turns, 0);
        assert SettledAt(s, StateOf(Sent(s, ZERO, run.targets.value, run.turns, 0)), p);
      }
    }
  }

  // ---------------------------------------------------------------- the counters

  /** What becomes of a target that its run gets through. */
  datatype Kind = IsQuiet | Unaddressed | Repeated | Lettered | Broken

  /** By the target, the marks when its turn comes, and how its letter and its mark go. */
  function KindOf(s: State, t: Target, turn: Turn): (k: Kind) {
    if t.decisions == 0 && t.heldWrites == 0 then IsQuiet
    else if t.ownerEmail.None? then Unaddressed
    else if Delivered(s, t.period) then Repeated
    else if turn.mail.Returns? && turn.mark.Returns? then Lettered
    else Broken
  }

  /** How many of the targets from `i` on are of this kind, each by the state when its turn comes. */
  function Tally(s: State, ts: seq<Target>, turns: nat -> Turn, i: nat, k: Kind): (n: nat)
    requires i <= |ts|
    decreases |ts| - i
  {
    if i == |ts| then 0
    else
      (if KindOf(s, ts[i], turns(i)) == k then 1 else 0)
      + Tally(StateOf(Handled(s, ZERO, ts[i], turns(i))), ts, turns, i + 1, k)
  }

  function CounterFor(c: Counters, k: Kind): (n: nat) {
    match k
    case IsQuiet => c.quiet
    case Unaddressed => c.noRecipient
    case Repeated => c.alreadySent
    case Lettered => c.letters
    case Broken => c.failed
  }

  lemma {:induction false} CountersDoNotMatter(s: State, c: Counters, t: Target, turn: Turn)
    ensures StateOf(Handled(s, c, t, turn)) == StateOf(Handled(s, ZERO, t, turn))
  {
  }

  /** No await of the target ends the run: what fails is written down, and the writing returns. */
  predicate Survives(s: State, t: Target, turn: Turn) {
    match KindOf(s, t, turn)
    case IsQuiet => true
    case Unaddressed => true
    case Repeated => turn.record.Returns?
    case Lettered => turn.record.Returns?
    case Broken =>
      && turn.record.Returns? && turn.fail.Returns?
      && !turn.mail.Dies? && (turn.mail.Returns? ==> !turn.mark.Dies?)
  }

  /**
   * What one target does to its row: made if its record took effect; marked and counted by a mark that
   * took effect after a letter; counted by a failure that was written down. Other rows stay.
   */
  ghost predicate RowAfter(s: State, u: State, t: Target, turn: Turn) {
    var k, p := KindOf(s, t, turn), t.period;
    var asked := !k.IsQuiet? && !k.Unaddressed?;
    var open := asked && turn.record.Returns? && !k.Repeated?;
    var marked := open && turn.mail.Returns? && Applied(turn.mark);
    var threw := k.Broken? && !turn.mail.Dies? && (turn.mail.Returns? ==> turn.mark.Throws?);
    var failed := open && threw && Applied(turn.fail);
    && (forall q :: q in u.rows <==> q in s.rows || (q == p && asked && Applied(turn.record)))
    && (forall q :: q in s.rows && q != p ==> u.rows[q] == s.rows[q])
    && (p in u.rows ==>
          var before := if p in s.rows then s.rows[p] else Row(false, 0);
          u.rows[p] == Row(before.delivered || marked,
                           before.attempts + (if marked then 1 else 0) + if failed then 1 else 0))
  }

  /** A run goes on after a target exactly when the target survives its awaits, and leaves its row so. */
  lemma {:induction false} OneTarget(s: State, c: Counters, t: Target, turn: Turn)
    ensures Handled(s, c, t, turn).Continues? <==> Survives(s, t, turn)
    ensures RowAfter(s, StateOf(Handled(s, c, t, turn)), t, turn)
  {
  }

  predicate AllSurvive(s: State, ts: seq<Target>, turns: nat -> Turn, i: nat)
    requires i <= |ts|
    decreases |ts| - i
  {
    i == |ts|
    || (Survives(s, ts[i], turns(i)) && AllSurvive(StateOf(Handled(s, ZERO, ts[i], turns(i))), ts, turns, i + 1))
  }

  /** A run gets through all its targets exactly when each survives its awaits. */
  lemma {:induction false} CompletesExactlyWhen(s: State, c: Counters, ts: seq<Target>, turns: nat -> Turn, i: nat)
    requires i <= |ts|
    ensures Sent(s, c, ts, turns, i).Continues? <==> AllSurvive(s, ts, turns, i)
    decreases |ts| - i
  {
    if i < |ts| {
      OneTarget(s, c, ts[i], turns(i));
      CountersDoNotMatter(s, c, ts[i], turns(i));
      var n := Handled(s, c, ts[i], turns(i));
      if n.Continues? {
        CompletesExactlyWhen(n.state, n.counters, ts, turns, i + 1);
      }
    }
  }

  /** What one target adds to the counters and to the letters. */
  lemma {:induction false} CounterOfOne(s: State, c: Counters, t: Target, turn: Turn, k: Kind)
    requires Handled(s, c, t, turn).Continues?
    ensures var n := Handled(s, c, t, turn);
            && CounterFor(n.counters, k) == CounterFor(c, k) + (if KindOf(s, t, turn) == k then 1 else 0)
            && (KindOf(s, t, turn).Lettered? ==>
                  n.state.mailed == s.mailed + [t.period] && Delivered(n.state, t.period))
  {
  }

  lemma {:induction false} CountersAdd(s: State, c: Counters, ts: seq<Target>, turns: nat -> Turn, i: nat, k: Kind)
    requires i <= |ts| && Sent(s, c, ts, turns, i).Continues?
    ensures CounterFor(Sent(s, c, ts, turns, i).counters, k) == CounterFor(c, k) + Tally(s, ts, turns, i, k)
    decreases |ts| - i
  {
    if i < |ts| {
      CounterOfOne(s, c, ts[i], turns(i), k);
      CountersDoNotMatter(s, c, ts[i], turns(i));
      var n := Handled(s, c, ts[i], turns(i));
      CountersAdd(n.state, n.counters, ts, turns, i + 1, k);
    }
  }

  /** No letter is counted that did not go out. */
  lemma {:induction false} LettersWentOut(s: State, c: Counters, ts: seq<Target>, turns: nat -> Turn, i: nat)
    requires i <= |ts| && Sent(s, c, ts, turns, i).Continues?
    ensures Tally(s, ts, turns, i, Lettered) <= |Sent(s, c, ts, turns, i).state.mailed| - |s.mailed|
    decreases |ts| - i
  {
    if i < |ts| {
      CountersDoNotMatter(s, c, ts[i], turns(i));
      var n := Handled(s, c, ts[i], turns(i));
      LettersWentOut(n.state, n.counters, ts, turns, i + 1);
    }
  }

  lemma {:induction false} KindsAddUp(s: State, ts: seq<Target>, turns: nat -> Turn, i: nat)
    requires i <= |ts|
    ensures Tally(s, ts, turns, i, IsQuiet) + Tally(s, ts, turns, i, Unaddressed) + Tally(s, ts, turns, i, Repeated)
          + Tally(s, ts, turns, i, Lettered) + Tally(s, ts, turns, i, Broken) == |ts| - i
    decreases |ts| - i
  {
    if i < |ts| {
      KindsAddUp(StateOf(Handled(s, ZERO, ts[i], turns(i))), ts, turns, i + 1);
    }
  }

  /**
   * A completed run accounts for every target under the right name: quiet and without an address by the
   * target alone, already sent if its mark was set when its turn came, a letter if the mail and the mark
   * both returned, failed otherwise; and the five counters add up.
   */
  lemma {:induction false} CompletedRunAddsUp(s: State, ts: seq<Target>, turns: nat -> Turn)
    requires Sent(s, ZERO, ts, turns, 0).Continues?
    ensures var c := Sent(s, ZERO, ts, turns, 0).counters;
            && c.quiet == Tally(s, ts, turns, 0, IsQuiet) && c.noRecipient == Tally(s, ts, turns, 0, Unaddressed)
            && c.alreadySent == Tally(s, ts, turns, 0, Repeated) && c.letters == Tally(s, ts, turns, 0, Lettered)
            && c.failed == Tally(s, ts, turns, 0, Broken)
            && c.Total() == |ts|
            && c.letters <= |Sent(s, ZERO, ts, turns, 0).state.mailed| - |s.mailed|
  {
    LettersWentOut(s, ZERO, ts, turns, 0);
    CountersAdd(s, ZERO, ts, turns, 0, IsQuiet);
    CountersAdd(s, ZERO, ts, turns, 0, Unaddressed);
    CountersAdd(s, ZERO, ts, turns, 0, Repeated);
    CountersAdd(s, ZERO, ts, turns, 0, Lettered);
    CountersAdd(s, ZERO, ts, turns, 0, Broken);
    KindsAddUp(s, ts, turns, 0);
  }

  /**
   * A letter lost to a failure or a crash is made up for: a run whose awaits all return leaves every
   * target that has something to say and an address delivered.
   */
  lemma {:induction false} CleanRunDelivers(s: State, c: Counters, ts: seq<Target>, turns: nat -> Turn, i: nat)
    requires i <= |ts| && Accounted(s)
    requires forall j: nat :: i <= j < |ts| ==> turns(j) == Turn(Returns, Returns, Returns, Returns)
    ensures var r := Sent(s, c, ts, turns, i);
            r.Continues? && forall j :: i <= j < |ts| && !Quiet(ts[j]) && ts[j].ownerEmail.Some? ==>
                Delivered(r.state, ts[j].period)
    decreases |ts| - i
  {
    if i < |ts| {
      var n := Handled(s, c, ts[i], turns(i));
      HandledKeeps(s, c, ts[i], turns(i));
      CleanRunDelivers(n.state, n.counters, ts, turns, i + 1);
      SentKeeps(n.state, n.counters, ts, turns, i + 1);
      assert SettledAt(n.state, StateOf(Sent(n.state, n.counters, ts, turns, i + 1)), ts[i].period);
    }
  }
}
