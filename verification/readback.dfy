/**
 * readBackAmazon and confirmAmazon (packages/amazon-adapter/src/readback.ts): reading written values
 * back, and the window in which an unapplied write is pending.
 */
module ReadBack {
  import opened Common
  import opened ChannelPort
  import opened Dispatch
  import opened Sequences
  import MinorUnits
  import Planning

  datatype Request = Request(scope: string, field: Field, identity: Identity)

  datatype Observation = Observation(marketplace: string, sku: string, value: Value)

  datatype Failure = Failure(scope: string, code: ErrorCode)

  datatype Reading = Seen(observation: Observation) | Failed(code: ErrorCode)

  datatype Result = Result(observations: seq<Observation>, failures: seq<Failure>)

  /** What the session, the budget and the channel answer during one call; each SKU is read at most once. */
  datatype Answers = Answers(session: Reply<Option<ErrorCode>>,
                             allowed: string -> bool, read: string -> Reply<ReadAnswer>)

  // ---------------------------------------------------------------- one request

  /** `ourPrice`: the base price written in the offer, never rounded. */
  function OurPrice(stores: Stores, listing: Listing, marketplace: Option<string>): (r: Option<Value>) {
    var offer, store := FindOffer(listing.offers, marketplace), StoreOf(stores, marketplace);
    if offer.None? || offer.value.value.None? || store.None? then None
    else
      var minor := MinorUnits.DecimalToMinor(offer.value.value.value);
      var currency := if offer.value.currency.Some? then offer.value.currency.value else store.value.currency;
      if minor.None? || currency == "" then None else Some(Price(Integer(minor.value), currency, store.value.basis))
  }

  function FirstMerchant(fs: seq<Fulfillment>): (r: Option<Number>) {
    if fs == [] then None else if fs[0].code == "DEFAULT" then Some(fs[0].quantity) else FirstMerchant(fs[1..])
  }

  /** `merchantQuantity`. */
  function MerchantQuantity(listing: Listing): (r: Option<int>)
    ensures r.Some? ==> Merchant(listing)
  {
    var q := FirstMerchant(listing.fulfillment);
    if q.Some? && SafeInteger(q.value) && q.value.n >= 0 then
      MerchantIsFound(listing.fulfillment);
      Some(q.value.n)
    else None
  }

  lemma {:induction false} MerchantIsFound(fs: seq<Fulfillment>)
    ensures FirstMerchant(fs).Some? ==> exists f :: f in fs && f.code == "DEFAULT"
  {
    if fs != [] {
      assert fs[0] in fs;
      MerchantIsFound(fs[1..]);
    }
  }

  predicate Usable(stores: Stores, r: Request) {
    Sku(r.identity).Some? && StoreOf(stores, r.identity.marketplace).Some?
  }

  /** What the listing that was read says about a request. */
  function ReadingOf(stores: Stores, listing: Listing, r: Request): (x: Reading)
    requires Usable(stores, r)
  {
    var m := r.identity.marketplace;
    var identity := (v: Value) => Observation(m.value, Sku(r.identity).value, v);
    if r.field == PRICE then
      if HasRule(listing, m) then Failed(CHANNEL_REPRICER_ACTIVE)
      else if HasBounds(listing, m) then Failed(CHANNEL_BOUNDS_PRESENT)
      else
        var price := OurPrice(stores, listing, m);
        if price.None? then Failed(NOT_FOUND) else Seen(identity(price.value))
    else
      var quantity := MerchantQuantity(listing);
      if quantity.Some? then Seen(identity(Quantity(Integer(quantity.value))))
      else if !Merchant(listing) && exists f :: f in listing.fulfillment && f.code != ""
      then Failed(PRECONDITION_FAILED)
      else Failed(OTHER)
  }

  /** Place `i` is the first DEFAULT entry, or the end if there is none. */
  predicate FirstDefault(fs: seq<Fulfillment>, i: nat) {
    i <= |fs| && (i < |fs| ==> fs[i].code == "DEFAULT") && forall j :: 0 <= j < i ==> fs[j].code != "DEFAULT"
  }

  lemma {:induction false} FirstDefaultIsRead(fs: seq<Fulfillment>, i: nat)
    requires FirstDefault(fs, i)
    ensures FirstMerchant(fs) == if i < |fs| then Some(fs[i].quantity) else None
  {
    if i > 0 {
      assert fs[0].code != "DEFAULT";
      FirstDefaultIsRead(fs[1..], i - 1);
    }
  }

  /**
   * What a listing says about a quantity: that of the first DEFAULT entry if it is a safe integer from
   * zero on; without a DEFAULT entry a listing with another fulfilment is not ours to confirm; and
   * anything else is no data.
   */
  lemma {:induction false} QuantityReadings(stores: Stores, listing: Listing, r: Request, i: nat)
    requires Usable(stores, r) && r.field != PRICE && FirstDefault(listing.fulfillment, i)
    ensures var fs, x := listing.fulfillment, ReadingOf(stores, listing, r);
            if i < |fs| then
              if fs[i].quantity.Integer? && 0 <= fs[i].quantity.n <= MAX_SAFE_INTEGER
              then x.Seen? && x.observation.value == Quantity(fs[i].quantity) else x == Failed(OTHER)
            else if exists f :: f in fs && f.code != "" then x == Failed(PRECONDITION_FAILED) else x == Failed(OTHER)
  {
    FirstDefaultIsRead(listing.fulfillment, i);
    assert i < |listing.fulfillment| ==> listing.fulfillment[i] in listing.fulfillment;
  }

  /** What a listing says about a price: nothing of an offer that the channel prices or bounds; else what it shows. */
  lemma {:induction false} PriceReadings(stores: Stores, listing: Listing, r: Request)
    requires Usable(stores, r) && r.field == PRICE
    ensures var m, x := r.identity.marketplace, ReadingOf(stores, listing, r);
            var offer := FindOffer(listing.offers, m);
            match offer
            case None => x == Failed(NOT_FOUND)
            case Some(o) =>
              if o.rule then x == Failed(CHANNEL_REPRICER_ACTIVE)
              else if o.minimum || o.maximum then x == Failed(CHANNEL_BOUNDS_PRESENT)
              else
                var minor := if o.value.Some? then MinorUnits.DecimalToMinor(o.value.value) else None;
                var store := StoreOf(stores, m).value;
                var currency := if o.currency.Some? then o.currency.value else store.currency;
                if minor.None? || currency == "" then x == Failed(NOT_FOUND)
                else x == Seen(Observation(m.value, Sku(r.identity).value,
                                           Price(Integer(minor.value), currency, store.basis)))
  {
  }

  /** The failure of a whole SKU, if its read gave nothing to use. */
  function SkuFailure(a: Answers, sku: string): (r: Option<ErrorCode>)
    requires !Raises(a, sku)
  {
    if !a.allowed(sku) then Some(RATE_LIMITED)
    else match a.read(sku).value
      case ReadFailed(error) => Some(error)
      case ReadOk(listing) => if listing.sku != Some(Some(sku)) then Some(RESPONSE_MISMATCH) else None
  }

  predicate Raises(a: Answers, sku: string) { a.allowed(sku) && a.read(sku).Threw? }

  /** The answer to a request, whatever the other requests are. */
  function AnswerTo(stores: Stores, a: Answers, r: Request): (x: Reading)
    requires Usable(stores, r) ==> !Raises(a, Sku(r.identity).value)
  {
    if !Usable(stores, r) then Failed(VALIDATION)
    else
      var sku := Sku(r.identity).value;
      var failure := SkuFailure(a, sku);
      if failure.Some? then Failed(failure.value) else ReadingOf(stores, a.read(sku).value.listing, r)
  }

  // ---------------------------------------------------------------- all requests, on values

  function Unusable(stores: Stores, rs: seq<Request>): (r: seq<Request>)
    ensures forall x :: x in r ==> !Usable(stores, x)
  {
    if rs == [] then []
    else Unusable(stores, rs[..|rs| - 1]) + if Usable(stores, rs[|rs| - 1]) then [] else [rs[|rs| - 1]]
  }

  function BySku(stores: Stores, rs: seq<Request>): (gs: seq<Group<string, Request>>) {
    if rs == [] then []
    else
      var r, gs := rs[|rs| - 1], BySku(stores, rs[..|rs| - 1]);
      if !Usable(stores, r) then gs
      else WithGroup(gs, Sku(r.identity).value, GroupFor(gs, Sku(r.identity).value) + [r])
  }

  /** Every request stands in the group of its SKU. */
  ghost predicate InItsGroup(stores: Stores, gs: seq<Group<string, Request>>) {
    forall g, r :: g in gs && r in g.items ==> Usable(stores, r) && Sku(r.identity) == Some(g.key)
  }

  lemma {:induction false} WithGroupStays(stores: Stores, gs: seq<Group<string, Request>>, r: Request)
    requires InItsGroup(stores, gs) && Usable(stores, r)
    ensures InItsGroup(stores, WithGroup(gs, Sku(r.identity).value, GroupFor(gs, Sku(r.identity).value) + [r]))
  {
    if gs != [] && gs[0].key != Sku(r.identity).value {
      WithGroupStays(stores, gs[1..], r);
    }
  }

  lemma {:induction false} BySkuGroups(stores: Stores, rs: seq<Request>)
    ensures InItsGroup(stores, BySku(stores, rs))
  {
    if rs != [] {
      BySkuGroups(stores, rs[..|rs| - 1]);
      if Usable(stores, rs[|rs| - 1]) {
        WithGroupStays(stores, BySku(stores, rs[..|rs| - 1]), rs[|rs| - 1]);
      }
    }
  }

  /** No read of these groups throws. */
  predicate Calm(a: Answers, gs: seq<Group<string, Request>>) { forall g :: g in gs ==> !Raises(a, g.key) }

  ghost predicate Answerable(stores: Stores, a: Answers, rs: seq<Request>) {
    forall r :: r in rs && Usable(stores, r) ==> !Raises(a, Sku(r.identity).value)
  }

  ghost function ObservationsOf(stores: Stores, a: Answers, rs: seq<Request>): (os: seq<Observation>)
    requires Answerable(stores, a, rs)
  {
    if rs == [] then []
    else
      var x := AnswerTo(stores, a, rs[|rs| - 1]);
      ObservationsOf(stores, a, rs[..|rs| - 1]) + if x.Seen? then [x.observation] else []
  }

  ghost function FailuresOf(stores: Stores, a: Answers, rs: seq<Request>): (fs: seq<Failure>)
    requires Answerable(stores, a, rs)
  {
    if rs == [] then []
    else
      var x := AnswerTo(stores, a, rs[|rs| - 1]);
      FailuresOf(stores, a, rs[..|rs| - 1]) + if x.Failed? then [Failure(rs[|rs| - 1].scope, x.code)] else []
  }

  function Flat(gs: seq<Group<string, Request>>): (rs: seq<Request>) {
    if gs == [] then [] else Flat(gs[..|gs| - 1]) + gs[|gs| - 1].items
  }

  // ---------------------------------------------------------------- the source's loops

  /** The first loop: requests without a SKU or a store fail, the others are grouped by SKU. */
  method GroupRequests(stores: Stores, requests: seq<Request>)
    returns (failures: seq<Failure>, groups: seq<Group<string, Request>>)
    ensures |failures| == |Unusable(stores, requests)|
    ensures forall i :: 0 <= i < |failures| ==> failures[i] == Failure(Unusable(stores, requests)[i].scope, VALIDATION)
    ensures groups == BySku(stores, requests)
  {
    failures, groups := [], [];
    for i := 0 to |requests|
      invariant |failures| == |Unusable(stores, requests[..i])|
      invariant forall j :: 0 <= j < |failures| ==>
                  failures[j] == Failure(Unusable(stores, requests[..i])[j].scope, VALIDATION)
      invariant groups == BySku(stores, requests[..i])
    {
      assert requests[..i + 1][..i] == requests[..i];
      var r := requests[i];
      var sku := Sku(r.identity);
      if sku.None? || StoreOf(stores, r.identity.marketplace).None? {
        failures := failures + [Failure(r.scope, VALIDATION)];
      } else {
        groups := WithGroup(groups, sku.value, GroupFor(groups, sku.value) + [r]);
      }
    }
    assert requests[..|requests|] == requests;
  }

  /** The body of the second loop for one SKU. */
  method ReadGroup(stores: Stores, a: Answers, sku: string, group: seq<Request>)
    returns (observations: seq<Observation>, failures: seq<Failure>)
    requires !Raises(a, sku) && forall r :: r in group ==> Usable(stores, r) && Sku(r.identity) == Some(sku)
    ensures Answerable(stores, a, group)
    ensures observations == ObservationsOf(stores, a, group) && failures == FailuresOf(stores, a, group)
  {
    observations, failures := [], [];
    var failure := SkuFailure(a, sku);
    for i := 0 to |group|
      invariant observations == ObservationsOf(stores, a, group[..i]) && failures == FailuresOf(stores, a, group[..i])
    {
      assert group[..i + 1][..i] == group[..i];
      var r := group[i];
      if failure.Some? {
        failures := failures + [Failure(r.scope, failure.value)];
      } else {
        var x := ReadingOf(stores, a.read(sku).value.listing, r);
        match x {
          case Seen(o) => observations := observations + [o];
          case Failed(code) => failures := failures + [Failure(r.scope, code)];
        }
      }
    }
    assert group[..|group|] == group;
  }

  lemma {:induction false} FlatStays(stores: Stores, a: Answers, gs: seq<Group<string, Request>>)
    requires InItsGroup(stores, gs) && Calm(a, gs)
    ensures forall r :: r in Flat(gs) ==> Usable(stores, r)
    ensures Answerable(stores, a, Flat(gs))
  {
    if gs != [] {
      FlatStays(stores, a, gs[..|gs| - 1]);
      assert gs[|gs| - 1] in gs;
    }
  }

  lemma {:induction false} AnswersAppend(stores: Stores, a: Answers, xs: seq<Request>, ys: seq<Request>)
    requires Answerable(stores, a, xs) && Answerable(stores, a, ys)
    ensures Answerable(stores, a, xs + ys)
    ensures ObservationsOf(stores, a, xs + ys) == ObservationsOf(stores, a, xs) + ObservationsOf(stores, a, ys)
    ensures FailuresOf(stores, a, xs + ys) == FailuresOf(stores, a, xs) + FailuresOf(stores, a, ys)
  {
    if ys == [] {
      assert xs + ys == xs;
    } else {
      assert (xs + ys)[..|xs + ys| - 1] == xs + ys[..|ys| - 1];
      AnswersAppend(stores, a, xs, ys[..|ys| - 1]);
    }
  }

  /** The second loop, over the groups; Threw as soon as a read throws. */
  method ReadGroups(stores: Stores, a: Answers, groups: seq<Group<string, Request>>) returns (r: Reply<Result>)
    requires InItsGroup(stores, groups)
    ensures r.Threw? <==> !Calm(a, groups)
    ensures r.Answer? ==> Answerable(stores, a, Flat(groups))
    ensures r.Answer? ==>
              r.value == Result(ObservationsOf(stores, a, Flat(groups)), FailuresOf(stores, a, Flat(groups)))
  {
    var observations: seq<Observation>, failures: seq<Failure> := [], [];
    for i := 0 to |groups|
      invariant Calm(a, groups[..i]) && Answerable(stores, a, Flat(groups[..i]))
      invariant observations == ObservationsOf(stores, a, Flat(groups[..i]))
      invariant failures == FailuresOf(stores, a, Flat(groups[..i]))
    {
      var g := groups[i];
      assert g in groups && groups[..i + 1][..i] == groups[..i];
      if a.allowed(g.key) && a.read(g.key).Threw? {
        return Threw;
      }
      var os, fs := ReadGroup(stores, a, g.key, g.items);
      AnswersAppend(stores, a, Flat(groups[..i]), g.items);
      observations, failures := observations + os, failures + fs;
      assert Calm(a, groups[..i + 1]) by {
        assert groups[..i + 1] == groups[..i] + [g];
      }
    }
    assert groups[..|groups|] == groups;
    r := Answer(Result(observations, failures));
  }

  /** `readBackAmazon`. */
  method ReadBackAmazon(stores: Stores, a: Answers, requests: seq<Request>) returns (r: Reply<Result>)
    ensures r == ReadBackOf(stores, a, requests)
  {
    if a.session.Threw? {
      return Threw;
    }
    if a.session.value.Some? {
      var failures := seq(|requests|, i requires 0 <= i < |requests| =>
                          Failure(requests[i].scope, a.session.value.value));
      return Answer(Result([], failures));
    }
    var failures, groups := GroupRequests(stores, requests);
    BySkuGroups(stores, requests);
    r := ReadGroups(stores, a, groups);
    if r.Answer? {
      UnusableFail(stores, a, Unusable(stores, requests));
      assert failures == FailuresOf(stores, a, Unusable(stores, requests));
      r := Answer(Result(r.value.observations, failures + r.value.failures));
    }
  }

  ghost function ReadBackOf(stores: Stores, a: Answers, requests: seq<Request>): (r: Reply<Result>) {
    var gs := BySku(stores, requests);
    if a.session.Threw? then Threw
    else if a.session.value.Some? then
      Answer(Result([], seq(|requests|, i requires 0 <= i < |requests| =>
                            Failure(requests[i].scope, a.session.value.value))))
    else if !Calm(a, gs) then Threw
    else
      BySkuGroups(stores, requests);
      FlatStays(stores, a, gs);
      Answer(Result(ObservationsOf(stores, a, Flat(gs)),
                    FailuresOf(stores, a, Unusable(stores, requests)) + FailuresOf(stores, a, Flat(gs))))
  }

  lemma {:induction false} UnusableFail(stores: Stores, a: Answers, rs: seq<Request>)
    requires forall r :: r in rs ==> !Usable(stores, r)
    ensures |FailuresOf(stores, a, rs)| == |rs| && forall i :: 0 <= i < |rs| ==>
              FailuresOf(stores, a, rs)[i] == Failure(rs[i].scope, VALIDATION)
  {
    if rs != [] {
      UnusableFail(stores, a, rs[..|rs| - 1]);
    }
  }

  // ---------------------------------------------------------------- one observation or one failure for each request

  /** The request, read alone, is answered with this observation. */
  function GivesObservation(stores: Stores, a: Answers, o: Observation): (p: Request -> bool) {
    (r: Request) => (Usable(stores, r) ==> !Raises(a, Sku(r.identity).value)) && AnswerTo(stores, a, r) == Seen(o)
  }

  /** The request, read alone, is answered with this failure, under its own scope. */
  function GivesFailure(stores: Stores, a: Answers, f: Failure): (p: Request -> bool) {
    (r: Request) => (Usable(stores, r) ==> !Raises(a, Sku(r.identity).value))
        && r.scope == f.scope && AnswerTo(stores, a, r) == Failed(f.code)
  }

  function IsObservation(o: Observation): (p: Observation -> bool) { (x: Observation) => x == o }

  function IsFailure(f: Failure): (p: Failure -> bool) { (x: Failure) => x == f }

  lemma {:induction false} ObservationsCount(stores: Stores, a: Answers, rs: seq<Request>, o: Observation)
    requires Answerable(stores, a, rs)
    ensures Count(ObservationsOf(stores, a, rs), IsObservation(o)) == Count(rs, GivesObservation(stores, a, o))
  {
    if rs != [] {
      var rest, x := rs[..|rs| - 1], AnswerTo(stores, a, rs[|rs| - 1]);
      ObservationsCount(stores, a, rest, o);
      CountAppend(ObservationsOf(stores, a, rest), if x.Seen? then [x.observation] else [], IsObservation(o));
    }
  }

  lemma {:induction false} FailuresCount(stores: Stores, a: Answers, rs: seq<Request>, f: Failure)
    requires Answerable(stores, a, rs)
    ensures Count(FailuresOf(stores, a, rs), IsFailure(f)) == Count(rs, GivesFailure(stores, a, f))
  {
    if rs != [] {
      var rest, r := rs[..|rs| - 1], rs[|rs| - 1];
      var x := AnswerTo(stores, a, r);
      FailuresCount(stores, a, rest, f);
      CountAppend(FailuresOf(stores, a, rest), if x.Failed? then [Failure(r.scope, x.code)] else [], IsFailure(f));
    }
  }

  lemma {:induction false} AnswersAddUp(stores: Stores, a: Answers, rs: seq<Request>)
    requires Answerable(stores, a, rs)
    ensures |ObservationsOf(stores, a, rs)| + |FailuresOf(stores, a, rs)| == |rs|
  {
    if rs != [] {
      AnswersAddUp(stores, a, rs[..|rs| - 1]);
    }
  }

  lemma {:induction false} AnswersCount(stores: Stores, a: Answers, rs: seq<Request>, o: Observation, f: Failure)
    requires Answerable(stores, a, rs)
    ensures Count(ObservationsOf(stores, a, rs), IsObservation(o)) == Count(rs, GivesObservation(stores, a, o))
    ensures Count(FailuresOf(stores, a, rs), IsFailure(f)) == Count(rs, GivesFailure(stores, a, f))
    ensures |ObservationsOf(stores, a, rs)| + |FailuresOf(stores, a, rs)| == |rs|
  {
    ObservationsCount(stores, a, rs, o);
    FailuresCount(stores, a, rs, f);
    AnswersAddUp(stores, a, rs);
  }

  lemma {:induction false} FlatCount(gs: seq<Group<string, Request>>, p: Request -> bool)
    ensures Count(Flat(gs), p) == GroupCount(gs, p)
  {
    if gs != [] {
      FlatCount(gs[..|gs| - 1], p);
      CountAppend(Flat(gs[..|gs| - 1]), gs[|gs| - 1].items, p);
      GroupCountAppend(gs[..|gs| - 1], gs[|gs| - 1], p);
      assert gs == gs[..|gs| - 1] + [gs[|gs| - 1]];
    }
  }

  /** Grouping by SKU keeps every usable request, once. */
  lemma {:induction false} GroupingPartitions(stores: Stores, rs: seq<Request>, p: Request -> bool)
    ensures Count(Unusable(stores, rs), p) + Count(Flat(BySku(stores, rs)), p) == Count(rs, p)
  {
    FlatCount(BySku(stores, rs), p);
    if rs != [] {
      var rest, r := rs[..|rs| - 1], rs[|rs| - 1];
      GroupingPartitions(stores, rest, p);
      FlatCount(BySku(stores, rest), p);
      CountAppend(Unusable(stores, rest), if Usable(stores, r) then [] else [r], p);
      if Usable(stores, r) {
        WithGroupCounts(BySku(stores, rest), Sku(r.identity).value, r, p);
      }
    }
  }

  function Every(): (p: Request -> bool) { (r: Request) => true }

  lemma {:induction false} CountEvery(rs: seq<Request>)
    ensures Count(rs, Every()) == |rs|
  {
    if rs != [] {
      CountEvery(rs[..|rs| - 1]);
    }
  }

  /**
   * Every request yields exactly one observation or one failure. The answers are, as a whole, those
   * that the requests get when each is read alone: each observation and each failure occurs as often
   * as there are requests that give it, and there are as many answers as requests.
   */
  lemma {:induction false} OneAnswerEach(stores: Stores, a: Answers, requests: seq<Request>, o: Observation, f: Failure)
    requires a.session == Answer(None) && ReadBackOf(stores, a, requests).Answer?
    ensures var r := ReadBackOf(stores, a, requests).value;
            && |r.observations| + |r.failures| == |requests|
            && Count(r.observations, IsObservation(o)) == Count(requests, GivesObservation(stores, a, o))
            && Count(r.failures, IsFailure(f)) == Count(requests, GivesFailure(stores, a, f))
  {
    var bad, good := Unusable(stores, requests), Flat(BySku(stores, requests));
    BySkuGroups(stores, requests);
    FlatStays(stores, a, BySku(stores, requests));
    AnswersCount(stores, a, bad, o, f);
    AnswersCount(stores, a, good, o, f);
    UnusableFail(stores, a, bad);
    NothingSeen(stores, a, bad, o);
    GroupingPartitions(stores, requests, GivesObservation(stores, a, o));
    GroupingPartitions(stores, requests, GivesFailure(stores, a, f));
    GroupingPartitions(stores, requests, Every());
    CountEvery(bad);
    CountEvery(good);
    CountEvery(requests);
    CountAppend(FailuresOf(stores, a, bad), FailuresOf(stores, a, good), IsFailure(f));
  }

  lemma {:induction false} NothingSeen(stores: Stores, a: Answers, rs: seq<Request>, o: Observation)
    requires forall r :: r in rs ==> !Usable(stores, r)
    ensures Count(rs, GivesObservation(stores, a, o)) == 0
  {
    if rs != [] {
      NothingSeen(stores, a, rs[..|rs| - 1], o);
      assert rs[|rs| - 1] in rs;
    }
  }

  // ---------------------------------------------------------------- confirmation

  datatype ConfirmRequest = ConfirmRequest(id: string, scope: Request, expected: Value, dispatchedAt: int)

  datatype Confirmation =
    | APPLIED(id: string, observation: Observation)
    | NOT_APPLIED(id: string, observation: Observation)
    | PENDING(id: string, checkAfter: int)
    | UNKNOWN(id: string, error: ErrorCode)

  /** The answers during one confirmation, and the two readings of the clock after the read. */
  datatype Turn = Turn(answers: Answers, now: int, later: int)

  /** The comparison of the source: amounts of money, or quantities. */
  predicate Matches(expected: Value, seen: Value) {
    || (expected.Price? && seen.Price? && seen.amountMinor == expected.amountMinor)
    || (expected.Quantity? && seen.Quantity? && seen.quantity == expected.quantity)
  }

  /** What an observation means for a write dispatched at `dispatchedAt`. */
  function Judged(window: int, r: ConfirmRequest, o: Observation, now: int, later: int): (c: Confirmation) {
    var elapsed := now - r.dispatchedAt;
    if Matches(r.expected, o.value) then APPLIED(r.id, o)
    else if elapsed < window then PENDING(r.id, later + Min(60000, window - elapsed))
    else NOT_APPLIED(r.id, o)
  }

  ghost function Confirmed(stores: Stores, window: int, turn: Turn, r: ConfirmRequest): (c: Reply<Confirmation>) {
    var read := ReadBackOf(stores, turn.answers, [r.scope]);
    if read.Threw? then Threw
    else if read.value.observations == [] then
      Answer(UNKNOWN(r.id, if read.value.failures == [] then OTHER else read.value.failures[0].code))
    else Answer(Judged(window, r, read.value.observations[0], turn.now, turn.later))
  }

  /**
   * What a request whose read gave `o` is answered, by the time since its dispatch: APPLIED for an equal
   * value; else PENDING as long as the window lasts, with the next check a minute on or at the end of the
   * window, whichever is first; else NOT_APPLIED.
   */
  predicate Settles(window: int, turn: Turn, r: ConfirmRequest, o: Observation, c: Confirmation) {
    var ends := r.dispatchedAt + window;
    && c.id == r.id && !c.UNKNOWN?
    && (c.APPLIED? <==> Matches(r.expected, o.value))
    && (c.PENDING? <==> !Matches(r.expected, o.value) && turn.now < ends)
    && (c.NOT_APPLIED? <==> !Matches(r.expected, o.value) && turn.now >= ends)
    && (c.PENDING? ==> c.checkAfter == turn.later + Min(60000, ends - turn.now))
    && (!c.PENDING? ==> c.observation == o)
  }

  /** The answer to a request, from its own read: settled if it was seen, else UNKNOWN with the read's error. */
  ghost predicate AnswersRequest(stores: Stores, window: int, turn: Turn, r: ConfirmRequest, c: Confirmation) {
    var read := ReadBackOf(stores, turn.answers, [r.scope]);
    && read.Answer?
    && match read.value
       case Result(observations, failures) =>
         if observations != [] then Settles(window, turn, r, observations[0], c)
         else c == UNKNOWN(r.id, if failures == [] then OTHER else failures[0].code)
  }

  /** The body of the loop: one request read back and judged. */
  method ConfirmOne(stores: Stores, window: int, turn: Turn, r: ConfirmRequest) returns (c: Reply<Confirmation>)
    ensures c == Confirmed(stores, window, turn, r)
    ensures c.Answer? ==> AnswersRequest(stores, window, turn, r, c.value)
  {
    var read := ReadBackAmazon(stores, turn.answers, [r.scope]);
    if read.Threw? {
      return Threw;
    }
    if read.value.observations == [] {
      return Answer(UNKNOWN(r.id, if read.value.failures == [] then OTHER else read.value.failures[0].code));
    }
    var o := read.value.observations[0];
    var matches :=
      if r.expected.Price? && o.value.Price? then o.value.amountMinor == r.expected.amountMinor
      else if r.expected.Quantity? && o.value.Quantity? then o.value.quantity == r.expected.quantity
      else false;
    if matches {
      return Answer(APPLIED(r.id, o));
    }
    var elapsed := turn.now - r.dispatchedAt;
    if elapsed < window {
      return Answer(PENDING(r.id, turn.later + Min(60000, window - elapsed)));
    }
    c := Answer(NOT_APPLIED(r.id, o));
  }

  lemma {:induction false} ConfirmedAnswers(stores: Stores, window: int, turn: Turn, r: ConfirmRequest)
    ensures var c := Confirmed(stores, window, turn, r); c.Answer? ==> AnswersRequest(stores, window, turn, r, c.value)
  {
    var read := ReadBackOf(stores, turn.answers, [r.scope]);
    if read.Answer? && read.value.observations != [] {
      assert Settles(window, turn, r, read.value.observations[0], Confirmed(stores, window, turn, r).value);
    }
  }

  /** `confirmAmazon`. */
  method ConfirmAmazon(stores: Stores, window: int, turns: seq<Turn>, requests: seq<ConfirmRequest>)
    returns (out: Reply<seq<Confirmation>>)
    requires |turns| == |requests|
    ensures out.Threw? <==> exists i :: 0 <= i < |requests| && Confirmed(stores, window, turns[i], requests[i]).Threw?
    ensures out.Answer? ==>
              && |out.value| == |requests|
              && forall i :: 0 <= i < |requests| ==>
                   && Confirmed(stores, window, turns[i], requests[i]) == Answer(out.value[i])
                   && AnswersRequest(stores, window, turns[i], requests[i], out.value[i])
  {
    var cs: seq<Confirmation> := [];
    for i := 0 to |requests|
      invariant |cs| == i
      invariant forall j :: 0 <= j < i ==> Confirmed(stores, window, turns[j], requests[j]) == Answer(cs[j])
    {
      var c := ConfirmOne(stores, window, turns[i], requests[i]);
      if c.Threw? {
        return Threw;
      }
      cs := cs + [c.value];
    }
    forall i | 0 <= i < |requests| ensures AnswersRequest(stores, window, turns[i], requests[i], cs[i]) {
      ConfirmedAnswers(stores, window, turns[i], requests[i]);
    }
    out := Answer(cs);
  }

  lemma {:induction false} AnswersToOne(stores: Stores, a: Answers, r: Request)
    requires Answerable(stores, a, [r])
    ensures Usable(stores, r) ==> !Raises(a, Sku(r.identity).value)
    ensures var x := AnswerTo(stores, a, r);
            && ObservationsOf(stores, a, [r]) == (if x.Seen? then [x.observation] else [])
            && FailuresOf(stores, a, [r]) == (if x.Failed? then [Failure(r.scope, x.code)] else [])
  {
    assert r in [r] && [r][..0] == [];
    assert ObservationsOf(stores, a, []) == [] && FailuresOf(stores, a, []) == [];
  }

  lemma {:induction false} GroupsOfOne(stores: Stores, r: Request)
    ensures if Usable(stores, r)
            then BySku(stores, [r]) == [Group(Sku(r.identity).value, [r])] && Unusable(stores, [r]) == []
            else BySku(stores, [r]) == [] && Unusable(stores, [r]) == [r]
    ensures Flat(BySku(stores, [r])) == if Usable(stores, r) then [r] else []
  {
    assert [r][..0] == [];
    assert BySku(stores, []) == [] && Unusable(stores, []) == [];
    if Usable(stores, r) {
      var g := Group(Sku(r.identity).value, [r]);
      assert [] + [r] == [r] && [g][..0] == [];
    }
  }

  lemma {:induction false} CalmAlone(stores: Stores, a: Answers, r: Request)
    ensures Calm(a, BySku(stores, [r])) <==> Usable(stores, r) ==> !Raises(a, Sku(r.identity).value)
  {
    GroupsOfOne(stores, r);
    if Usable(stores, r) {
      assert Group(Sku(r.identity).value, [r]) in BySku(stores, [r]);
    }
  }

  lemma {:induction false} ResultAlone(stores: Stores, a: Answers, r: Request)
    requires Usable(stores, r) ==> !Raises(a, Sku(r.identity).value)
    ensures Answerable(stores, a, Flat(BySku(stores, [r])))
    ensures var flat, bad, x := Flat(BySku(stores, [r])), Unusable(stores, [r]), AnswerTo(stores, a, r);
            && ObservationsOf(stores, a, flat) == (if x.Seen? then [x.observation] else [])
            && FailuresOf(stores, a, bad) + FailuresOf(stores, a, flat)
               == (if x.Failed? then [Failure(r.scope, x.code)] else [])
  {
    GroupsOfOne(stores, r);
    assert Answerable(stores, a, [r]) && Answerable(stores, a, []);
    AnswersToOne(stores, a, r);
    assert ObservationsOf(stores, a, []) == [] && FailuresOf(stores, a, []) == [];
  }

  /** Read alone, a request gets its own answer: the observation, or the failure. */
  lemma {:induction false} ReadAlone(stores: Stores, a: Answers, r: Request)
    requires a.session == Answer(None)
    ensures ReadBackOf(stores, a, [r]).Threw? <==> Usable(stores, r) && Raises(a, Sku(r.identity).value)
    ensures ReadBackOf(stores, a, [r]).Answer? ==>
              ReadBackOf(stores, a, [r]).value == match AnswerTo(stores, a, r)
                                                  case Seen(o) => Result([o], [])
                                                  case Failed(code) => Result([], [Failure(r.scope, code)])
  {
    CalmAlone(stores, a, r);
    if Calm(a, BySku(stores, [r])) {
      ResultAlone(stores, a, r);
    }
  }

  /** An observation that is judged comes from a listing of the request's own SKU, its own store and its own field. */
  lemma {:induction false} ObservationIsOwn(stores: Stores, window: int, turn: Turn, r: ConfirmRequest)
    requires var c := Confirmed(stores, window, turn, r); c.Answer? && !c.value.UNKNOWN?
    ensures turn.answers.session == Answer(None) && Usable(stores, r.scope)
              && turn.answers.allowed(Sku(r.scope.identity).value)
    ensures var sku := Sku(r.scope.identity).value;
            && turn.answers.read(sku).Answer? && turn.answers.read(sku).value.ReadOk?
            && turn.answers.read(sku).value.listing.sku == Some(Some(sku))
            && (var x := ReadingOf(stores, turn.answers.read(sku).value.listing, r.scope);
                x.Seen? && Confirmed(stores, window, turn, r).value
                    == Judged(window, r, x.observation, turn.now, turn.later))
  {
    var a := turn.answers;
    if a.session == Answer(None) {
      ReadAlone(stores, a, r.scope);
    }
  }

  /** The read of the request's SKU gives this listing. */
  predicate Reads(a: Answers, sku: string, listing: Listing) {
    && a.session == Answer(None) && a.allowed(sku) && a.read(sku).Answer?
    && a.read(sku).value == ReadOk(listing) && listing.sku == Some(Some(sku))
  }

  /** A price in the money of the store it is expected in, as the planner accepts it, or no price. */
  predicate InStoreMoney(stores: Stores, r: Request, v: Value) {
    v.Price? ==>
      var store := StoreOf(stores, r.identity.marketplace);
      store.Some? && v.currency == store.value.currency && v.basis == store.value.basis
  }

  /** The offer of the request's store names no currency, or the store's. */
  predicate InStoreCurrency(stores: Stores, listing: Listing, r: Request) {
    var offer, store := FindOffer(listing.offers, r.identity.marketplace), StoreOf(stores, r.identity.marketplace);
    offer.Some? && store.Some? ==> offer.value.currency in {None, Some(store.value.currency)}
  }

  /** A request is confirmed as APPLIED exactly when the listing shows the expected value. */
  ghost predicate Tells(stores: Stores, window: int, turn: Turn, r: ConfirmRequest, seen: Value) {
    var c := Confirmed(stores, window, turn, r);
    c.Answer? && (c.value.APPLIED? <==> seen == r.expected)
  }

  lemma {:induction false} ListingIsJudged(stores: Stores, window: int, turn: Turn, r: ConfirmRequest, listing: Listing)
    requires Usable(stores, r.scope) && Reads(turn.answers, Sku(r.scope.identity).value, listing)
    requires ReadingOf(stores, listing, r.scope).Seen?
    ensures Confirmed(stores, window, turn, r)
         == Answer(Judged(window, r, ReadingOf(stores, listing, r.scope).observation, turn.now, turn.later))
  {
    ReadAlone(stores, turn.answers, r.scope);
  }

  /** What a listing shows for a request, beside the amount. */
  lemma {:induction false} SeenMoney(stores: Stores, listing: Listing, r: Request)
    requires Usable(stores, r) && ReadingOf(stores, listing, r).Seen?
    ensures var v := ReadingOf(stores, listing, r).observation.value;
            var store := StoreOf(stores, r.identity.marketplace).value;
            && (r.field == PRICE <==> v.Price?) && (v.Quantity? || v.Price?)
            && (v.Price? ==> v.basis == store.basis)
            && (v.Price? ==> (v.currency == store.currency <==> InStoreCurrency(stores, listing, r)))
  {
  }

  /**
   * For every amount or quantity the caller may expect, in the money of the store: the confirmation is
   * APPLIED exactly when the listing shows the expected value, if and only if the offer of that store
   * names no currency or the store's. In any other currency as many minor units are taken for the value.
   */
  lemma {:induction false} TellsExactlyInStoreCurrency(stores: Stores, window: int, turn: Turn, r: Request,
          listing: Listing)
    requires Usable(stores, r) && Reads(turn.answers, Sku(r.identity).value, listing)
    requires ReadingOf(stores, listing, r).Seen?
    ensures var seen := ReadingOf(stores, listing, r).observation.value;
            (forall id, v, at :: InStoreMoney(stores, r, v) ==>
               Tells(stores, window, turn, ConfirmRequest(id, r, v, at), seen))
            <==> (r.field == PRICE ==> InStoreCurrency(stores, listing, r))
  {
    var seen := ReadingOf(stores, listing, r).observation.value;
    SeenMoney(stores, listing, r);
    if r.field == PRICE ==> InStoreCurrency(stores, listing, r) {
      forall id, v, at | InStoreMoney(stores, r, v)
        ensures Tells(stores, window, turn, ConfirmRequest(id, r, v, at), seen)
      {
        ListingIsJudged(stores, window, turn, ConfirmRequest(id, r, v, at), listing);
      }
    } else {
      var store := StoreOf(stores, r.identity.marketplace).value;
      var v := Price(seen.amountMinor, store.currency, store.basis);
      assert InStoreMoney(stores, r, v);
      ListingIsJudged(stores, window, turn, ConfirmRequest("", r, v, 0), listing);
      assert !Tells(stores, window, turn, ConfirmRequest("", r, v, 0), seen);
    }
  }

  /** So a write that the planner accepts is APPLIED only if the channel shows its value, for such an offer. */
  lemma {:induction false} PlannedWriteIsConfirmedRight(stores: Stores, account: Account, w: Write, window: int,
          turn: Turn, id: string, at: int, listing: Listing)
    requires Planning.Validate(stores, account, w).None?
    requires Sku(w.identity).Some? ==> Reads(turn.answers, Sku(w.identity).value, listing)
    ensures var r := Request(w.scope, w.scopeField, w.identity);
            && Usable(stores, r)
            && (ReadingOf(stores, listing, r).Seen? && (w.value.Price? ==> InStoreCurrency(stores, listing, r)) ==>
                  Tells(stores, window, turn, ConfirmRequest(id, r, w.value, at),
                        ReadingOf(stores, listing, r).observation.value))
  {
    var r := Request(w.scope, w.scopeField, w.identity);
    if ReadingOf(stores, listing, r).Seen? {
      TellsExactlyInStoreCurrency(stores, window, turn, r, listing);
    }
  }

  /** `listing` shows a price of `n` minor units in `currency` for the request, free of rules and bounds. */
  predicate Shows(listing: Listing, r: Request, n: nat, currency: string) {
    var m := r.identity.marketplace;
    var offer := FindOffer(listing.offers, m);
    && offer.Some? && !HasRule(listing, m) && !HasBounds(listing, m)
    && offer.value.value.Some? && MinorUnits.DecimalToMinor(offer.value.value.value) == Some(n)
    && offer.value.currency == Some(currency) && currency != ""
  }

  lemma {:induction false} ShownPriceIsSeen(stores: Stores, listing: Listing, r: Request, n: nat, currency: string)
    requires Usable(stores, r) && r.field == PRICE && Shows(listing, r, n, currency)
    ensures var store := StoreOf(stores, r.identity.marketplace).value;
            ReadingOf(stores, listing, r)
            == Seen(Observation(r.identity.marketplace.value,
                                Sku(r.identity).value, Price(Integer(n), currency, store.basis)))
  {
  }

  /** Amazon shows a price of the expected minor units in another currency: the confirmation is APPLIED all the same. */
  lemma {:induction false} AnotherCurrencyIsApplied(stores: Stores, listing: Listing, r: ConfirmRequest, n: nat,
          currency: string, window: int, now: int)
    requires Usable(stores, r.scope) && r.scope.field == PRICE && Shows(listing, r.scope, n, currency)
    requires r.expected.Price? && r.expected.amountMinor == Integer(n) && r.expected.currency != currency
    ensures var o := ReadingOf(stores, listing, r.scope).observation;
            o.value != r.expected && Judged(window, r, o, now, now).APPLIED?
  {
    ShownPriceIsSeen(stores, listing, r.scope, n, currency);
  }

  /**
   * Writing and reading agree: if the offer shows the price that the dispatcher printed, with the zeros
   * at its end or without, the confirmation of that price is APPLIED, whatever the clock.
   */
  lemma {:induction false} WrittenPriceIsConfirmed(stores: Stores, window: int, turn: Turn, r: ConfirmRequest, n: nat,
          listing: Listing, currency: string)
    requires n <= MAX_SAFE_INTEGER && Usable(stores, r.scope)
               && r.scope.field == PRICE && r.expected.Price? && r.expected.amountMinor == Integer(n)
    requires Reads(turn.answers, Sku(r.scope.identity).value, listing)
    requires !HasRule(listing, r.scope.identity.marketplace) && !HasBounds(listing, r.scope.identity.marketplace)
    requires var offer := FindOffer(listing.offers, r.scope.identity.marketplace);
             && offer.Some? && offer.value.value in {Some(MinorUnits.MinorToDecimal(n)), Some(MinorUnits.Shortest(n))}
             && offer.value.currency == Some(currency) && currency != ""
    ensures var c := Confirmed(stores, window, turn, r); c.Answer? && c.value.APPLIED?
  {
    MinorUnits.PrintedReadsBack(n);
    assert Shows(listing, r.scope, n, currency);
    ShownPriceIsSeen(stores, listing, r.scope, n, currency);
    ReadAlone(stores, turn.answers, r.scope);
  }

  // ---------------------------------------------------------------- the window

  /** Check `i` came out pending, and the next one was not made before its `checkAfter`. */
  ghost predicate Waits(window: int, r: ConfirmRequest, os: seq<Observation>, times: seq<int>, i: nat)
    requires |os| == |times|
  {
    i < |times| ==>
      && Judged(window, r, os[i], times[i], times[i]).PENDING?
      && (i + 1 < |times| ==> times[i + 1] >= Judged(window, r, os[i], times[i], times[i]).checkAfter)
  }

  lemma {:induction false} MinutesPass(window: int, r: ConfirmRequest, os: seq<Observation>, times: seq<int>, i: nat)
    requires |os| == |times| && i < |times| && forall j: nat :: Waits(window, r, os, times, j)
    ensures times[i] >= times[0] + 60000 * i
  {
    assert Waits(window, r, os, times, i);
    if i > 0 {
      MinutesPass(window, r, os, times, i - 1);
      assert Waits(window, r, os, times, i - 1);
    }
  }

  /**
   * A caller that first asks no earlier than the dispatch, then always waits for `checkAfter`, and
   * whose reads succeed, is answered PENDING at most ceil(window / 60000) times.
   */
  lemma {:induction false} PendingIsBounded(window: int, r: ConfirmRequest, os: seq<Observation>, times: seq<int>)
    requires |os| == |times| && window >= 0 && forall j: nat :: Waits(window, r, os, times, j)
    requires times != [] ==> times[0] >= r.dispatchedAt
    ensures |times| <= CeilDiv(window, 60000)
  {
    if times != [] {
      var last := |times| - 1;
      MinutesPass(window, r, os, times, last);
      assert Waits(window, r, os, times, last);
    }
  }
}
