/**
 * The dispatcher on top of the transport: a PATCH is one call of `request` that is not idempotent
 * (packages/amazon-adapter/src/dispatch.ts:111-126, packages/amazon-client/src/transport.ts:163-218).
 */
module WritePath {
  import opened Common
  import opened ChannelPort
  import opened Dispatch
  import T = Transport

  /** The channel may have taken the value: it said so, or nobody knows. */
  predicate MayBeProcessed(a: T.Answer) { T.IsOk(a) || T.Undecided(a) }

  /** What the dispatcher sees of a call: `submission` is the body of a success, `error` the class of a failure. */
  function PatchOf(t: T.Trace, submission: Submission, error: ErrorCode): (r: Reply<PatchAnswer>) {
    match t.result
    case Threw => Threw
    case Answer(Success(_, _)) => Answer(PatchOk(submission))
    case Answer(Failure(_, unknown, _, _)) => Answer(PatchFailed(unknown, error))
  }

  /** However often the transport sends a PATCH, at most one send can have been processed, and that is the last. */
  lemma {:induction false} WrittenAtMostOnce(p: T.Policy, q: T.Init, env: nat -> T.Turn, cache: T.Cache)
    requires !q.idempotent
    ensures var sends := T.Requested(p, q, env, cache).sends;
            forall i :: 0 <= i < |sends| && MayBeProcessed(sends[i].answer) ==> i == |sends| - 1
  {
    T.AtMostOneProcessed(p, q, env, cache);
  }

  /** A failed call says "outcome unknown" exactly when some send can have been processed. */
  lemma {:induction false} UnknownIsExact(p: T.Policy, q: T.Init, env: nat -> T.Turn, cache: T.Cache)
    requires !q.idempotent
    ensures var t := T.Requested(p, q, env, cache);
            t.result.Answer? && t.result.value.Failure? ==>
              (t.result.value.outcomeUnknown <==> exists i :: 0 <= i < |t.sends| && MayBeProcessed(t.sends[i].answer))
  {
    T.ResultTellsTheTruth(p, q, env, cache);
    var t := T.Requested(p, q, env, cache);
    if t.result.Answer? && t.result.value.Failure? && t.result.value.outcomeUnknown {
      assert MayBeProcessed(t.sends[|t.sends| - 1].answer);
    }
  }

  /**
   * A write whose value was sent is reported REJECTED for a failed call only if no send of it can have
   * been processed, and OUTCOME_UNKNOWN exactly if one can have been.
   */
  lemma {:induction false} FailedPatchIsReportedRight(stores: Stores, batch: seq<Write>, world: World,
          submission: Submission, error: ErrorCode, 
                                                      p: T.Policy, q: T.Init, env: nat -> T.Turn, cache: T.Cache)
    requires !q.idempotent && Sent(stores, batch, world).Some?
    requires world.patch == PatchOf(T.Requested(p, q, env, cache), submission, error)
    requires T.Requested(p, q, env, cache).result.Answer? && T.Requested(p, q, env, cache).result.value.Failure?
    ensures var sends, listing := T.Requested(p, q, env, cache).sends, world.read.value.listing;
            var processed := exists i :: 0 <= i < |sends| && MayBeProcessed(sends[i].answer);
            Dispatched(stores, batch, world)
            == Answer(Withheld(listing, batch)
                      + All(Sendable(listing, batch), if processed then OUTCOME_UNKNOWN(error) else REJECTED(error)))
  {
    UnknownIsExact(p, q, env, cache);
  }
}
