/**
 * createSpApiClient().request and AccessTokenCache (packages/amazon-client/src/transport.ts): the retry
 * loop under every call to the channel. What the network and the clock answer is a function of the
 * attempt, so a statement for all of them covers everything the channel can do.
 */
module Transport {
  import opened Common

  datatype Policy = Policy(maxAttempts: int, baseDelayMs: int, maxDelayMs: int)

  datatype Init = Init(idempotent: bool, noThrottleRetry: bool)

  datatype Status = Http(code: nat) | NETWORK_ERROR | TIMED_OUT

  /**
   * What one send gives. `readable`: the body of a success can be read and parsed; `namesToken`: the
   * errors of a refusal speak of a token or of missing authorization.
   */
  datatype Answer =
    | Response(status: nat, readable: bool, namesToken: bool)
    | Failed(timedOut: bool, aborted: bool)

  datatype Lwa =
    | LwaUnreachable(timedOut: bool)
    | LwaRefused(status: nat)
    | LwaMalformed(status: nat)
    | LwaIssued(token: string, expiresIn: int)

  /** What happens during one attempt: the credentials' key, the two clock readings around the token, the answers. */
  datatype Turn = Turn(key: Reply<string>, now: int, lwa: Lwa, later: int, answer: Answer)

  datatype CachedToken = CachedToken(token: string, expiresAtMs: int)

  type Cache = map<string, CachedToken>

  /** A request that was sent. `issued`: its token was issued during this attempt. */
  datatype Send = Send(attempt: nat, key: string, token: string, issued: bool, answer: Answer)

  datatype Record = Record(attempt: nat, status: Status)

  datatype Result =
    | Success(status: nat, attempts: seq<Record>)
    | Failure(failed: Status, outcomeUnknown: bool, tokenFailure: bool, attempts: seq<Record>)

  datatype Trace = Trace(result: Reply<Result>, sends: seq<Send>, sleeps: seq<int>, cache: Cache)

  const TOKEN_EARLY_REFRESH_MS := 60000

  function Backoff(attempt: nat, p: Policy): (ms: int)
    requires attempt >= 1
  {
    Min(p.maxDelayMs, p.baseDelayMs * Pow2(attempt - 1))
  }

  predicate IsOk(a: Answer) { a.Response? && 200 <= a.status < 300 }

  predicate IsAuth(a: Answer) { a.Response? && a.status in {401, 403} }

  predicate IsThrottle(a: Answer) { a.Response? && a.status == 429 }

  /** The request may have reached the channel: a transport failure or a server error. */
  predicate Undecided(a: Answer) { a.Failed? || a.status >= 500 }

  function StatusOf(a: Answer): (s: Status) {
    match a
    case Response(status, _, _) => Http(status)
    case Failed(timedOut, _) => if timedOut then TIMED_OUT else NETWORK_ERROR
  }

  function Records(sends: seq<Send>): (r: seq<Record>) {
    seq(|sends|, i requires 0 <= i < |sends| => Record(sends[i].attempt, StatusOf(sends[i].answer)))
  }

  // ---------------------------------------------------------------- the token

  datatype Token = TokenOk(key: string, token: string, issued: bool) | TokenFailed(status: Status)

  predicate Usable(cache: Cache, key: string, now: int) {
    key in cache && cache[key].expiresAtMs > now && cache[key].token != ""
  }

  /** `accessToken`: a cached token that has not expired, or a new one. */
  function TokenFor(cache: Cache, turn: Turn): (r: Reply<Token>) {
    if turn.key.Threw? then Threw
    else
      var key := turn.key.value;
      if Usable(cache, key, turn.now) then Reply.Answer(TokenOk(key, cache[key].token, false))
      else match turn.lwa
        case LwaUnreachable(timedOut) => Reply.Answer(TokenFailed(if timedOut then TIMED_OUT else NETWORK_ERROR))
        case LwaRefused(status) => Reply.Answer(TokenFailed(Http(status)))
        case LwaMalformed(status) => Reply.Answer(TokenFailed(Http(status)))
        case LwaIssued(token, _) => Reply.Answer(TokenOk(key, token, true))
  }

  function CacheAfter(cache: Cache, turn: Turn): (r: Cache) {
    if turn.key.Answer? && !Usable(cache, turn.key.value, turn.now) && turn.lwa.LwaIssued?
    then cache[turn.key.value :=
               CachedToken(turn.lwa.token, turn.later + turn.lwa.expiresIn * 1000 - TOKEN_EARLY_REFRESH_MS)]
    else cache
  }

  // ---------------------------------------------------------------- one attempt

  datatype Next =
    | Done(trace: Trace)
    | Again(refreshed: bool, sends: seq<Send>, sleeps: seq<int>, cache: Cache)

  function Attempt(p: Policy, q: Init, turn: Turn, attempt: nat, refreshed: bool, before: seq<Send>, sleeps: seq<int>,
          cache: Cache): (r: Next)
    requires attempt >= 1
  {
    var token, kept := TokenFor(cache, turn), CacheAfter(cache, turn);
    if token.Threw? then Done(Trace(Threw, before, sleeps, kept))
    else if token.value.TokenFailed? then
      Done(Trace(Reply.Answer(Failure(token.value.status, false, true, Records(before))), before, sleeps, kept))
    else
      var a := turn.answer;
      var sends := before + [Send(attempt, token.value.key, token.value.token, token.value.issued, a)];
      if a.Failed? && a.aborted then Done(Trace(Threw, sends, sleeps, kept))
      else if IsOk(a) then
        Done(Trace(if a.readable then Reply.Answer(Success(a.status, Records(sends))) else Threw, sends, sleeps, kept))
      else if IsAuth(a) && !refreshed && a.namesToken then Again(true, sends, sleeps, kept - {token.value.key})
      else if ((IsThrottle(a) && !q.noThrottleRetry) || (Undecided(a) && q.idempotent)) && attempt < p.maxAttempts then
        Again(refreshed, sends, sleeps + [Backoff(attempt, p)], kept)
      else Done(Trace(Reply.Answer(Failure(StatusOf(a), Undecided(a), false, Records(sends))), sends, sleeps, kept))
  }

  /** The call from a given attempt on. */
  function From(p: Policy, q: Init, env: nat -> Turn, attempt: nat, refreshed: bool, before: seq<Send>,
          sleeps: seq<int>, cache: Cache): (t: Trace)
    requires attempt >= 1
    decreases Max(0, p.maxAttempts - attempt) + if refreshed then 0 else 1
  {
    match Attempt(p, q, env(attempt), attempt, refreshed, before, sleeps, cache)
    case Done(t) => t
    case Again(r, ss, ps, c) => From(p, q, env, attempt + 1, r, ss, ps, c)
  }

  /** One call of `request`. */
  function Requested(p: Policy, q: Init, env: nat -> Turn, cache: Cache): (t: Trace) {
    From(p, q, env, 1, false, [], [], cache)
  }

  // ---------------------------------------------------------------- the source's objects and loop

  class AccessTokenCache {
    var tokens: Cache

    constructor ()
      ensures tokens == map[]
    {
      tokens := map[];
    }

    function Get(key: string, nowMs: int): (r: Option<string>)
      reads this
      ensures r.Some? <==> key in tokens && tokens[key].expiresAtMs > nowMs
      ensures r.Some? ==> r.value == tokens[key].token
    {
      if key in tokens && tokens[key].expiresAtMs > nowMs then Some(tokens[key].token) else None
    }

    method Set(key: string, token: string, expiresAtMs: int)
      modifies this
      ensures tokens == old(tokens)[key := CachedToken(token, expiresAtMs)]
    {
      tokens := tokens[key := CachedToken(token, expiresAtMs)];
    }

    method Drop(key: string)
      modifies this
      ensures tokens == old(tokens) - {key}
    {
      tokens := tokens - {key};
    }
  }

  class SpApiClient {
    const retry: Policy
    const tokens: AccessTokenCache

    constructor (retry: Policy, tokens: AccessTokenCache)
      ensures this.retry == retry && this.tokens == tokens
    {
      this.retry, this.tokens := retry, tokens;
    }

    method AccessToken(turn: Turn) returns (r: Reply<Token>)
      modifies tokens
      ensures r == TokenFor(old(tokens.tokens), turn) && tokens.tokens == CacheAfter(old(tokens.tokens), turn)
    {
      if turn.key.Threw? {
        return Threw;
      }
      var key := turn.key.value;
      var cached := tokens.Get(key, turn.now);
      if cached.Some? && cached.value != "" {
        return Reply.Answer(TokenOk(key, cached.value, false));
      }
      match turn.lwa {
        case LwaUnreachable(timedOut) => r := Reply.Answer(TokenFailed(if timedOut then TIMED_OUT else NETWORK_ERROR));
        case LwaRefused(status) => r := Reply.Answer(TokenFailed(Http(status)));
        case LwaMalformed(status) => r := Reply.Answer(TokenFailed(Http(status)));
        case LwaIssued(token, expiresIn) =>
          tokens.Set(key, token, turn.later + expiresIn * 1000 - TOKEN_EARLY_REFRESH_MS);
          r := Reply.Answer(TokenOk(key, token, true));
      }
    }

    /** `request`, with the requests sent and the pauses made. */
    method Request(q: Init, env: nat -> Turn) returns (r: Reply<Result>, sends: seq<Send>, sleeps: seq<int>)
      modifies tokens
      ensures Trace(r, sends, sleeps, tokens.tokens) == Requested(retry, q, env, old(tokens.tokens))
    {
      var attempts: seq<Record> := [];
      var tokenRefreshed := false;
      var attempt := 1;
      sends, sleeps := [], [];
      while true
        invariant attempt >= 1 && attempts == Records(sends)
        invariant From(retry, q, env, attempt, tokenRefreshed, sends, sleeps, tokens.tokens)
                    == Requested(retry, q, env, old(tokens.tokens))
        decreases Max(0, retry.maxAttempts - attempt) + if tokenRefreshed then 0 else 1
      {
        var turn := env(attempt);
        var token := AccessToken(turn);
        if token.Threw? {
          return Threw, sends, sleeps;
        }
        if token.value.TokenFailed? {
          return Reply.Answer(Failure(token.value.status, false, true, attempts)), sends, sleeps;
        }
        var a := turn.answer;
        sends := sends + [Send(attempt, token.value.key, token.value.token, token.value.issued, a)];
        if a.Failed? && a.aborted {
          return Threw, sends, sleeps;
        }
        attempts := attempts + [Record(attempt, StatusOf(a))];
        assert attempts == Records(sends);
        if IsOk(a) {
          return if a.readable then Reply.Answer(Success(a.status, attempts)) else Threw, sends, sleeps;
        }
        if IsAuth(a) && !tokenRefreshed && a.namesToken {
          tokens.Drop(token.value.key);
          tokenRefreshed := true;
          attempt := attempt + 1;
          continue;
        }
        var unknown := Undecided(a);
        if ((IsThrottle(a) && !q.noThrottleRetry) || (unknown && q.idempotent)) && attempt < retry.maxAttempts {
          sleeps := sleeps + [Backoff(attempt, retry)];
          attempt := attempt + 1;
          continue;
        }
        return Reply.Answer(Failure(StatusOf(a), unknown, false, attempts)), sends, sleeps;
      }
    }
  }

  // ---------------------------------------------------------------- what every call keeps

  /** An answer after which the call goes on. */
  predicate Retried(q: Init, a: Answer) {
    IsAuth(a) || (IsThrottle(a) && !q.noThrottleRetry) || (Undecided(a) && q.idempotent)
  }

  /** Every send but the last was retried for a reason, at most one for its token, and that one with a new token. */
  ghost predicate Lawful(q: Init, sends: seq<Send>) {
    && (forall i :: 0 <= i < |sends| ==> sends[i].attempt == i + 1)
    && (forall i :: 0 <= i < |sends| - 1 ==> Retried(q, sends[i].answer))
    && (forall i, j :: 0 <= i < j < |sends| - 1 ==> !(IsAuth(sends[i].answer) && IsAuth(sends[j].answer)))
    && (forall i :: 0 <= i < |sends| - 1 ==> IsAuth(sends[i].answer) && sends[i + 1].key == sends[i].key ==>
        sends[i + 1].issued)
  }

  /** Before each attempt: all earlier sends were retried. */
  ghost predicate Going(q: Init, refreshed: bool, before: seq<Send>, cache: Cache) {
    && Lawful(q, before)
    && (forall i :: 0 <= i < |before| ==> Retried(q, before[i].answer) && (IsAuth(before[i].answer) ==> refreshed))
    && (forall i, j :: 0 <= i < j < |before| ==> !(IsAuth(before[i].answer) && IsAuth(before[j].answer)))
    && (before != [] && IsAuth(before[|before| - 1].answer) ==> before[|before| - 1].key !in cache)
  }

  lemma {:induction false} SendIsLawful(q: Init, refreshed: bool, before: seq<Send>, cache: Cache, send: Send)
    requires Going(q, refreshed, before, cache)
    requires send.attempt == |before| + 1 && (send.key !in cache ==> send.issued)
    ensures Lawful(q, before + [send])
  {
    var sends := before + [send];
    assert forall i :: 0 <= i < |before| ==> sends[i] == before[i];
  }

  lemma {:induction false} GoingOn(q: Init, refreshed: bool, before: seq<Send>, cache: Cache, send: Send, r: bool,
          c: Cache)
    requires Going(q, refreshed, before, cache) && Lawful(q, before + [send])
    requires Retried(q, send.answer) && (refreshed ==> r)
    requires IsAuth(send.answer) ==> !refreshed && r && send.key !in c
    ensures Going(q, r, before + [send], c)
  {
    var sends := before + [send];
    assert forall i :: 0 <= i < |before| ==> sends[i] == before[i];
  }

  lemma {:induction false} AttemptIsLawful(p: Policy, q: Init, turn: Turn, attempt: nat, refreshed: bool,
          before: seq<Send>, sleeps: seq<int>, cache: Cache)
    requires Going(q, refreshed, before, cache) && attempt == |before| + 1
    ensures match Attempt(p, q, turn, attempt, refreshed, before, sleeps, cache)
            case Done(t) => Lawful(q, t.sends) && |before| <= |t.sends| <= attempt
            case Again(r, ss, _, c) =>
                Going(q, r, ss, c) && |ss| == attempt && (attempt < p.maxAttempts || (r && !refreshed))
  {
    var token := TokenFor(cache, turn);
    if token.Answer? && token.value.TokenOk? {
      var send := Send(attempt, token.value.key, token.value.token, token.value.issued, turn.answer);
      SendIsLawful(q, refreshed, before, cache, send);
      var n := Attempt(p, q, turn, attempt, refreshed, before, sleeps, cache);
      if n.Again? {
        GoingOn(q, refreshed, before, cache, send, n.refreshed, n.cache);
      }
    }
  }

  lemma {:induction false} CallIsLawful(p: Policy, q: Init, env: nat -> Turn, attempt: nat, refreshed: bool,
                                        before: seq<Send>, sleeps: seq<int>, cache: Cache)
    requires Going(q, refreshed, before, cache) && attempt == |before| + 1
    requires attempt <= Max(1, p.maxAttempts) + if refreshed then 1 else 0
    ensures var t := From(p, q, env, attempt, refreshed, before, sleeps, cache);
            Lawful(q, t.sends) && |t.sends| <= Max(1, p.maxAttempts) + 1
    decreases Max(0, p.maxAttempts - attempt) + if refreshed then 0 else 1
  {
    AttemptIsLawful(p, q, env(attempt), attempt, refreshed, before, sleeps, cache);
    match Attempt(p, q, env(attempt), attempt, refreshed, before, sleeps, cache) {
      case Done(_) =>
      case Again(r, ss, ps, c) => CallIsLawful(p, q, env, attempt + 1, r, ss, ps, c);
    }
  }

  /**
   * Whatever the channel answers, a call sends at most maxAttempts + 1 requests (two when maxAttempts
   * is below one), one more than the policy only for a token that was replaced; and each is lawful.
   */
  lemma {:induction false} SendsAreBounded(p: Policy, q: Init, env: nat -> Turn, cache: Cache)
    ensures var t := Requested(p, q, env, cache);
            Lawful(q, t.sends) && |t.sends| <= Max(1, p.maxAttempts) + 1
  {
    CallIsLawful(p, q, env, 1, false, [], [], cache);
  }

  /** The first answer refuses the token, the second the request. */
  function Refusing(k: nat): (t: Turn) {
    Turn(Reply.Answer("key"), 0, LwaIssued("token", 3600), 0, Response(if k == 1 then 401 else 400, true, k == 1))
  }

  /** One send more than maxAttempts is the bound exactly for policies of at least one attempt. */
  lemma {:induction false} BoundIsExact(p: Policy, q: Init, cache: Cache)
    ensures (forall env :: |Requested(p, q, env, cache).sends| <= p.maxAttempts + 1) <==> p.maxAttempts >= 1
  {
    if p.maxAttempts >= 1 {
      forall env ensures |Requested(p, q, env, cache).sends| <= p.maxAttempts + 1 {
        SendsAreBounded(p, q, env, cache);
      }
    } else {
      var env: nat -> Turn := (k: nat) => Refusing(k);
      var n := Attempt(p, q, env(1), 1, false, [], [], cache);
      var m := Attempt(p, q, env(2), 2, true, n.sends, n.sleeps, n.cache);
      assert n.Again? && n.refreshed && m.Done? && |m.trace.sends| == 2;
      assert From(p, q, env, 2, true, n.sends, n.sleeps, n.cache) == m.trace;
      assert |Requested(p, q, env, cache).sends| == 2;
    }
  }

  /**
   * In a call that is not idempotent every send but the last was answered 429, 401 or 403, so at most
   * one send can have been processed; and nothing is sent after a 429 where the caller forbids it.
   */
  lemma {:induction false} AtMostOneProcessed(p: Policy, q: Init, env: nat -> Turn, cache: Cache)
    ensures var sends := Requested(p, q, env, cache).sends;
            && (!q.idempotent ==> forall i :: 0 <= i < |sends| - 1 ==>
                IsThrottle(sends[i].answer) || IsAuth(sends[i].answer))
            && (q.noThrottleRetry ==> forall i :: 0 <= i < |sends| - 1 ==> !IsThrottle(sends[i].answer))
  {
    SendsAreBounded(p, q, env, cache);
  }

  /** What the result says about the last send, and about all of them. */
  ghost predicate Reported(q: Init, t: Trace) {
    t.result.Answer? ==>
      match t.result.value
      case Success(status, attempts) =>
        && attempts == Records(t.sends) && t.sends != []
        && IsOk(t.sends[|t.sends| - 1].answer) && t.sends[|t.sends| - 1].answer.status == status
      case Failure(failed, unknown, tokenFailure, attempts) =>
        && attempts == Records(t.sends)
        && (forall i :: 0 <= i < |t.sends| ==> !IsOk(t.sends[i].answer))
        && (unknown ==> t.sends != [] && Undecided(t.sends[|t.sends| - 1].answer))
        && (!tokenFailure ==> t.sends != [] && failed == StatusOf(t.sends[|t.sends| - 1].answer))
        && (!unknown && !q.idempotent ==> forall i :: 0 <= i < |t.sends| ==> !Undecided(t.sends[i].answer))
  }

  /** An earlier answer that was retried is no success, and of a call that is not idempotent it is decided. */
  lemma {:induction false} RetriedIsRefused(q: Init, a: Answer)
    requires Retried(q, a)
    ensures !IsOk(a) && (!q.idempotent ==> !Undecided(a))
  {
  }

  lemma {:induction false} AttemptIsReported(p: Policy, q: Init, turn: Turn, attempt: nat, refreshed: bool,
          before: seq<Send>, sleeps: seq<int>, cache: Cache)
    requires Going(q, refreshed, before, cache) && attempt == |before| + 1
    ensures var n := Attempt(p, q, turn, attempt, refreshed, before, sleeps, cache);
            n.Done? ==> Reported(q, n.trace)
  {
    forall i | 0 <= i < |before| ensures !IsOk(before[i].answer) && (!q.idempotent ==> !Undecided(before[i].answer)) {
      RetriedIsRefused(q, before[i].answer);
    }
  }

  lemma {:induction false} CallIsReported(p: Policy, q: Init, env: nat -> Turn, attempt: nat, refreshed: bool,
                                          before: seq<Send>, sleeps: seq<int>, cache: Cache)
    requires Going(q, refreshed, before, cache) && attempt == |before| + 1
    ensures Reported(q, From(p, q, env, attempt, refreshed, before, sleeps, cache))
    decreases Max(0, p.maxAttempts - attempt) + if refreshed then 0 else 1
  {
    AttemptIsReported(p, q, env(attempt), attempt, refreshed, before, sleeps, cache);
    AttemptIsLawful(p, q, env(attempt), attempt, refreshed, before, sleeps, cache);
    match Attempt(p, q, env(attempt), attempt, refreshed, before, sleeps, cache) {
      case Done(_) =>
      case Again(r, ss, ps, c) => CallIsReported(p, q, env, attempt + 1, r, ss, ps, c);
    }
  }

  /**
   * A returned result lists exactly the sends with their answers. Success means that the last send was
   * answered so; failure that none was. A failure that does not say "outcome unknown", of a call that
   * is not idempotent, means that no send was left undecided.
   */
  lemma {:induction false} ResultTellsTheTruth(p: Policy, q: Init, env: nat -> Turn, cache: Cache)
    ensures Reported(q, Requested(p, q, env, cache))
  {
    CallIsReported(p, q, env, 1, false, [], [], cache);
  }

  // ---------------------------------------------------------------- pauses

  /** Pauses never shrink, never exceed the policy, and are fewer than its attempts. */
  ghost predicate Paced(p: Policy, sleeps: seq<int>) {
    && (forall i :: 0 <= i < |sleeps| ==> 0 <= sleeps[i] <= p.maxDelayMs)
    && (forall i, j :: 0 <= i < j < |sleeps| ==> sleeps[i] <= sleeps[j])
    && |sleeps| <= Max(0, p.maxAttempts - 1)
  }

  lemma {:induction false} BackoffGrows(a: nat, b: nat, p: Policy)
    requires 1 <= a <= b && p.baseDelayMs >= 0
    ensures Backoff(a, p) <= Backoff(b, p)
  {
    Pow2Grows(a - 1, b - 1);
    var x, y := Pow2(a - 1), Pow2(b - 1);
    assert p.baseDelayMs * x <= p.baseDelayMs * y;
  }

  lemma {:induction false} Pow2Grows(a: nat, b: nat)
    requires a <= b
    ensures Pow2(a) <= Pow2(b)
  {
    if a < b {
      Pow2Grows(a, b - 1);
    }
  }

  lemma {:induction false} CallIsPaced(p: Policy, q: Init, env: nat -> Turn, attempt: nat, refreshed: bool,
                                       before: seq<Send>, sleeps: seq<int>, cache: Cache)
    requires attempt >= 1 && p.baseDelayMs >= 0 && p.maxDelayMs >= 0
    requires Paced(p, sleeps) && |sleeps| <= attempt - 1
    requires forall i :: 0 <= i < |sleeps| ==> sleeps[i] <= Backoff(attempt, p)
    ensures Paced(p, From(p, q, env, attempt, refreshed, before, sleeps, cache).sleeps)
    decreases Max(0, p.maxAttempts - attempt) + if refreshed then 0 else 1
  {
    BackoffGrows(attempt, attempt + 1, p);
    match Attempt(p, q, env(attempt), attempt, refreshed, before, sleeps, cache) {
      case Done(_) =>
      case Again(r, ss, ps, c) =>
        if ps != sleeps {
          assert ps == sleeps + [Backoff(attempt, p)];
          assert p.baseDelayMs * Pow2(attempt - 1) >= 0;
        }
        CallIsPaced(p, q, env, attempt + 1, r, ss, ps, c);
    }
  }

  lemma {:induction false} PausesAreBounded(p: Policy, q: Init, env: nat -> Turn, cache: Cache)
    requires p.baseDelayMs >= 0 && p.maxDelayMs >= 0
    ensures Paced(p, Requested(p, q, env, cache).sleeps)
  {
    CallIsPaced(p, q, env, 1, false, [], [], cache);
  }

  // ---------------------------------------------------------------- how long a token is used

  /** The turn had to ask for a token for its key and got one. */
  predicate Issued(cache: Cache, turn: Turn) {
    var r := TokenFor(cache, turn);
    r.Answer? && r.value.TokenOk? && r.value.issued
  }

  /**
   * A token that was issued is used without another request exactly until a minute before its end, and
   * by its own key only; from then on, or once it is dropped, the next turn of the key asks again.
   */
  lemma {:induction false} TokenIsUsedUntilItsEnd(cache: Cache, turn: Turn, next: Turn)
    requires Issued(cache, turn) && next.key.Answer?
    ensures turn.key.Answer? && turn.lwa.LwaIssued?
    ensures var key, token := turn.key.value, turn.lwa.token;
            var ends := turn.later + turn.lwa.expiresIn * 1000 - 60000;
            var kept := CacheAfter(cache, turn);
            && TokenFor(cache, turn).value == TokenOk(key, token, true)
            && (next.key.value == key ==>
                  if token != "" && next.now < ends then TokenFor(kept, next).value == TokenOk(key, token, false)
                  else Asks(kept, next))
            && (next.key.value == key ==> Asks(kept - {key}, next))
            && (next.key.value != key ==> TokenFor(kept, next) == TokenFor(cache, next))
  {
  }

  /** The turn asks for a token: it gets the one issued, or the failure of the request. */
  predicate Asks(cache: Cache, turn: Turn)
    requires turn.key.Answer?
  {
    TokenFor(cache, turn)
    == Reply.Answer(match turn.lwa
                    case LwaIssued(token, _) => TokenOk(turn.key.value, token, true)
                    case LwaUnreachable(true) => TokenFailed(TIMED_OUT)
                    case LwaUnreachable(false) => TokenFailed(NETWORK_ERROR)
                    case LwaRefused(status) => TokenFailed(Http(status))
                    case LwaMalformed(status) => TokenFailed(Http(status)))
  }

  /** The first turn of a key asks. */
  lemma {:induction false} UnknownKeyAsks(cache: Cache, turn: Turn)
    requires turn.key.Answer? && turn.key.value !in cache
    ensures Asks(cache, turn) && (!turn.lwa.LwaIssued? ==> CacheAfter(cache, turn) == cache)
  {
  }

  // ---------------------------------------------------------------- when a call goes on

  /** The channel refused the token of this send. */
  predicate TokenRefused(a: Answer) { IsAuth(a) && a.namesToken }

  /**
   * After send `i` the call goes on: its token was refused for the first time, or the answer allows a
   * retry (429 unless the caller forbids it, undecided if the call is idempotent) and an attempt is left.
   */
  predicate GoesOn(p: Policy, q: Init, sends: seq<Send>, i: nat)
    requires i < |sends|
  {
    var a := sends[i].answer;
    || (TokenRefused(a) && forall j :: 0 <= j < i ==> !TokenRefused(sends[j].answer))
    || (a.Response? && a.status == 429 && !q.noThrottleRetry && i + 1 < p.maxAttempts)
    || (Undecided(a) && !(a.Failed? && a.aborted) && q.idempotent && i + 1 < p.maxAttempts)
  }

  /** One pause for each send that was retried otherwise than for its token: doubled each time, up to the limit. */
  function Pauses(p: Policy, sends: seq<Send>): (ms: seq<int>) {
    if sends == [] then []
    else
      var n := |sends| - 1;
      Pauses(p, sends[..n])
      + if TokenRefused(sends[n].answer) then [] else [Min(p.maxDelayMs, p.baseDelayMs * Pow2(n))]
  }

  /** The sends are those of the environment's answers, one for each attempt, and after each the call goes on. */
  ghost predicate Under(p: Policy, q: Init, env: nat -> Turn, sends: seq<Send>) {
    && (forall i :: 0 <= i < |sends| ==> sends[i].attempt == i + 1 && sends[i].answer == env(i + 1).answer)
    && (forall i :: 0 <= i < |sends| ==> GoesOn(p, q, sends, i))
  }

  /** What the last answer makes of the call. */
  function Conclusion(a: Answer, sends: seq<Send>): (r: Reply<Result>) {
    if a.Failed? && a.aborted then Threw
    else if IsOk(a) then if a.readable then Reply.Answer(Success(a.status, Records(sends))) else Threw
    else Reply.Answer(Failure(StatusOf(a), Undecided(a), false, Records(sends)))
  }

  /**
   * The whole course of a call. Either its last answer does not let it go on, and is its result; or it
   * would go on but gets no token. Every earlier send lets it go on, with the pauses of these sends.
   */
  ghost predicate Course(p: Policy, q: Init, env: nat -> Turn, t: Trace) {
    var n := |t.sends|;
    if n > 0 && !GoesOn(p, q, t.sends, n - 1) then
      && Under(p, q, env, t.sends[..n - 1]) && t.sleeps == Pauses(p, t.sends[..n - 1])
      && t.sends[n - 1].attempt == n && t.sends[n - 1].answer == env(n).answer
      && t.result == Conclusion(env(n).answer, t.sends)
    else
      && Under(p, q, env, t.sends) && t.sleeps == Pauses(p, t.sends)
      && (t.result.Threw? || exists status :: t.result.value == Failure(status, false, true, Records(t.sends)))
  }

  lemma {:induction false} StillGoesOn(p: Policy, q: Init, sends: seq<Send>, send: Send, i: nat)
    requires i < |sends|
    ensures GoesOn(p, q, sends + [send], i) == GoesOn(p, q, sends, i)
  {
    assert forall j :: 0 <= j <= i ==> (sends + [send])[j] == sends[j];
  }

  predicate Refreshed(before: seq<Send>) { exists i :: 0 <= i < |before| && TokenRefused(before[i].answer) }

  /** One more send, answered in turn. */
  lemma {:induction false} OneMoreSend(p: Policy, q: Init, env: nat -> Turn, before: seq<Send>, send: Send)
    requires Under(p, q, env, before) && send.attempt == |before| + 1 && send.answer == env(|before| + 1).answer
    ensures var sends := before + [send];
            && sends[..|before|] == before
            && Pauses(p, sends) == Pauses(p, before) + (if TokenRefused(send.answer) then []
                                                        else [Min(p.maxDelayMs, p.baseDelayMs * Pow2(|before|))])
            && (GoesOn(p, q, sends, |before|) ==> Under(p, q, env, sends))
            && (Refreshed(sends) <==> Refreshed(before) || TokenRefused(send.answer))
  {
    var sends := before + [send];
    assert sends[..|before|] == before && sends[|before|] == send;
    forall i | 0 <= i < |before| ensures GoesOn(p, q, sends, i) && sends[i] == before[i] {
      StillGoesOn(p, q, before, send, i);
    }
    if Refreshed(before) {
      var i :| 0 <= i < |before| && TokenRefused(before[i].answer);
      assert TokenRefused(sends[i].answer);
    }
  }

  /** An attempt with a token ends the call exactly when its answer does not let it go on. */
  lemma {:induction false} AttemptGoesOn(p: Policy, q: Init, turn: Turn, attempt: nat, before: seq<Send>,
          sleeps: seq<int>, cache: Cache)
    requires attempt == |before| + 1 && TokenFor(cache, turn).Answer? && TokenFor(cache, turn).value.TokenOk?
    ensures var token := TokenFor(cache, turn).value;
            var sends := before + [Send(attempt, token.key, token.token, token.issued, turn.answer)];
            match Attempt(p, q, turn, attempt, Refreshed(before), before, sleeps, cache)
            case Done(t) =>
              && !GoesOn(p, q, sends, |before|) && t.sends == sends && t.sleeps == sleeps
              && t.result == Conclusion(turn.answer, sends)
            case Again(r, ss, ps, c) =>
              && GoesOn(p, q, sends, |before|) && ss == sends
              && ps == sleeps + (if TokenRefused(turn.answer) then []
                                 else [Min(p.maxDelayMs, p.baseDelayMs * Pow2(|before|))])
              && r == (Refreshed(before) || TokenRefused(turn.answer))
  {
    var token := TokenFor(cache, turn).value;
    var sends := before + [Send(attempt, token.key, token.token, token.issued, turn.answer)];
    assert forall j :: 0 <= j < |before| ==> sends[j] == before[j];
    assert (forall j :: 0 <= j < |before| ==> !TokenRefused(sends[j].answer)) <==> !Refreshed(before);
    assert sleeps + [] == sleeps;
  }

  lemma {:induction false} Concludes(p: Policy, q: Init, env: nat -> Turn, before: seq<Send>, send: Send, t: Trace)
    requires Under(p, q, env, before) && t.sleeps == Pauses(p, before) && t.sends == before + [send]
    requires send.attempt == |before| + 1 && send.answer == env(|before| + 1).answer
    requires !GoesOn(p, q, t.sends, |before|) && t.result == Conclusion(send.answer, t.sends)
    ensures Course(p, q, env, t)
  {
    assert t.sends[..|before|] == before;
  }

  lemma {:induction false} GetsNoToken(p: Policy, q: Init, env: nat -> Turn, t: Trace)
    requires Under(p, q, env, t.sends) && t.sleeps == Pauses(p, t.sends)
    requires t.result.Threw? || exists status :: t.result.value == Failure(status, false, true, Records(t.sends))
    ensures Course(p, q, env, t)
  {
  }

  lemma {:induction false} NoTokenEnds(p: Policy, q: Init, turn: Turn, attempt: nat, refreshed: bool,
          before: seq<Send>, sleeps: seq<int>, cache: Cache)
    requires attempt >= 1 && (TokenFor(cache, turn).Threw? || TokenFor(cache, turn).value.TokenFailed?)
    ensures var next := Attempt(p, q, turn, attempt, refreshed, before, sleeps, cache);
            && next.Done? && next.trace.sends == before && next.trace.sleeps == sleeps
            && (next.trace.result.Threw?
                || exists status :: next.trace.result.value == Failure(status, false, true, Records(before)))
  {
    if TokenFor(cache, turn).Answer? {
      var result := Attempt(p, q, turn, attempt, refreshed, before, sleeps, cache).trace.result;
      assert result.value == Failure(TokenFor(cache, turn).value.status, false, true, Records(before));
    }
  }

  /** The attempt `|before| + 1` of a call: it ends the call on course, or leaves it there. */
  ghost predicate OnCourse(p: Policy, q: Init, env: nat -> Turn, before: seq<Send>, next: Next) {
    match next
    case Done(t) => Course(p, q, env, t)
    case Again(r, ss, ps, _) =>
      && |ss| == |before| + 1 && Under(p, q, env, ss) && ps == Pauses(p, ss) && r == Refreshed(ss)
      && (|ss| < p.maxAttempts || (r && !Refreshed(before)))
  }

  lemma {:induction false} AttemptIsOnCourse(p: Policy, q: Init, env: nat -> Turn, before: seq<Send>,
          sleeps: seq<int>, cache: Cache)
    requires Under(p, q, env, before) && sleeps == Pauses(p, before)
    ensures OnCourse(p, q, env, before,
                     Attempt(p, q, env(|before| + 1), |before| + 1, Refreshed(before), before, sleeps, cache))
  {
    var attempt, turn := |before| + 1, env(|before| + 1);
    var next := Attempt(p, q, turn, attempt, Refreshed(before), before, sleeps, cache);
    var token := TokenFor(cache, turn);
    if token.Answer? && token.value.TokenOk? {
      var send := Send(attempt, token.value.key, token.value.token, token.value.issued, turn.answer);
      OneMoreSend(p, q, env, before, send);
      AttemptGoesOn(p, q, turn, attempt, before, sleeps, cache);
      if next.Done? {
        Concludes(p, q, env, before, send, next.trace);
      } else {
        LeftToDo(p, q, before, send);
      }
    } else {
      NoTokenEnds(p, q, turn, attempt, Refreshed(before), before, sleeps, cache);
      GetsNoToken(p, q, env, next.trace);
    }
  }

  lemma {:induction false} LeftToDo(p: Policy, q: Init, before: seq<Send>, send: Send)
    requires GoesOn(p, q, before + [send], |before|)
    ensures |before| + 1 < p.maxAttempts || (TokenRefused(send.answer) && !Refreshed(before))
  {
    assert forall j :: 0 <= j < |before| ==> (before + [send])[j] == before[j];
  }

  lemma {:induction false} CallIsOnCourse(p: Policy, q: Init, env: nat -> Turn, attempt: nat, refreshed: bool,
          before: seq<Send>, sleeps: seq<int>, cache: Cache)
    requires attempt == |before| + 1 && refreshed == Refreshed(before)
    requires Under(p, q, env, before) && sleeps == Pauses(p, before)
    ensures Course(p, q, env, From(p, q, env, attempt, refreshed, before, sleeps, cache))
    decreases Max(0, p.maxAttempts - attempt) + if refreshed then 0 else 1
  {
    AttemptIsOnCourse(p, q, env, before, sleeps, cache);
    var next := Attempt(p, q, env(attempt), attempt, refreshed, before, sleeps, cache);
    var t := From(p, q, env, attempt, refreshed, before, sleeps, cache);
    if next.Done? {
      assert t == next.trace;
    } else {
      CallIsOnCourse(p, q, env, attempt + 1, next.refreshed, next.sends, next.sleeps, next.cache);
      assert t == From(p, q, env, attempt + 1, next.refreshed, next.sends, next.sleeps, next.cache);
    }
  }

  /** A call sends again exactly as long as its answers let it go on, and ends with what the last one means. */
  lemma {:induction false} RetriesAreExact(p: Policy, q: Init, env: nat -> Turn, cache: Cache)
    ensures Course(p, q, env, Requested(p, q, env, cache))
  {
    CallIsOnCourse(p, q, env, 1, false, [], [], cache);
  }
}
