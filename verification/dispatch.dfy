/** dispatchAmazon (packages/amazon-adapter/src/dispatch.ts): read, filter, patch, and one outcome for each write. */
module Dispatch {
  import opened Common
  import opened ChannelPort
  import opened Sequences
  import Planning

  // ---------------------------------------------------------------- what the channel answers

  /**
   * An element of `attributes.purchasable_offer`. `rule`, `minimum` and `maximum` say that the
   * attribute is present and not empty; `value` is the text of the first price of the first schedule.
   */
  datatype Offer = Offer(marketplace: Option<string>, audience: Option<string>,
                         rule: bool, minimum: bool, maximum: bool,
                         value: Option<string>, currency: Option<string>)

  datatype Fulfillment = Fulfillment(code: string, quantity: Number)

  datatype Summary = Summary(marketplace: Option<string>, productType: Option<string>)

  /** `sku` is absent, null or a text: None, Some(None), Some(Some(text)). */
  datatype Listing = Listing(sku: Option<Option<string>>, summaries: seq<Summary>,
                             offers: seq<Offer>, fulfillment: seq<Fulfillment>)

  datatype Issue = Issue(severity: string, marketplaces: Option<seq<string>>, attributes: seq<string>)

  datatype Submission = Submission(sku: Option<Option<string>>,
                                   status: string, issues: seq<Issue>, submissionId: string)

  datatype ReadAnswer = ReadFailed(error: ErrorCode) | ReadOk(listing: Listing)

  datatype PatchAnswer = PatchFailed(outcomeUnknown: bool, failure: ErrorCode) | PatchOk(submission: Submission)

  /** What every awaited call and every budget answers during one dispatch. */
  datatype World = World(
    session: Reply<Option<ErrorCode>>, late: bool, readAllowed: bool, read: Reply<ReadAnswer>,
    writeAllowed: bool, patch: Reply<PatchAnswer>, alert: Reply<()>)

  // ---------------------------------------------------------------- what the dispatch sends and says

  datatype OfferPrice = OfferPrice(marketplace: Option<string>, currency: string, amountMinor: Number)

  datatype Body =
    | PriceBody(productType: string, values: seq<OfferPrice>)
    | QuantityBody(productType: string, quantity: Number)

  datatype Status = ACCEPTED(submissionRef: string) | REJECTED(code: ErrorCode) | OUTCOME_UNKNOWN(error: ErrorCode)

  datatype Outcome = Outcome(id: string, status: Status)

  // ---------------------------------------------------------------- mapping.ts, errors.ts

  /** An offer of the store for every buyer. */
  predicate OffersTo(o: Offer, m: Option<string>) {
    o.marketplace == m && o.audience in {None, Some("ALL")}
  }

  function FindOffer(offers: seq<Offer>, m: Option<string>): (r: Option<Offer>) {
    if offers == [] then None
    else if offers[0].marketplace == m && offers[0].audience in {None, Some("ALL")} then Some(offers[0])
    else FindOffer(offers[1..], m)
  }

  /** The offer that counts for a store is the first one to every buyer there, if there is one. */
  lemma {:induction false} FirstOfferCounts(offers: seq<Offer>, m: Option<string>, i: nat)
    requires i <= |offers| && forall j :: 0 <= j < i ==> !OffersTo(offers[j], m)
    ensures i < |offers| && OffersTo(offers[i], m) ==> FindOffer(offers, m) == Some(offers[i])
    ensures i == |offers| ==> FindOffer(offers, m).None?
  {
    if i > 0 {
      assert !OffersTo(offers[0], m);
      FirstOfferCounts(offers[1..], m, i - 1);
    }
  }

  predicate HasRule(listing: Listing, m: Option<string>) {
    FindOffer(listing.offers, m).Some? && FindOffer(listing.offers, m).value.rule
  }

  predicate HasBounds(listing: Listing, m: Option<string>) {
    var o := FindOffer(listing.offers, m);
    o.Some? && (o.value.minimum || o.value.maximum)
  }

  /** The channel prices the offer itself, or bounds its price. */
  predicate ChannelOwned(listing: Listing, w: Write) {
    HasRule(listing, w.identity.marketplace) || HasBounds(listing, w.identity.marketplace)
  }

  predicate Merchant(listing: Listing) { exists f :: f in listing.fulfillment && f.code == "DEFAULT" }

  function ProductType(summaries: seq<Summary>, m: Option<string>): (r: Option<string>) {
    if summaries == [] then None
    else if summaries[0].marketplace == m then summaries[0].productType
    else ProductType(summaries[1..], m)
  }

  predicate Names(issue: Issue, m: Option<string>) {
    issue.marketplaces.None? || issue.marketplaces.value == [] || (m.Some? && m.value in issue.marketplaces.value)
  }

  /** `errors.find(...)`: the first error that concerns the store. */
  function IssueFor(issues: seq<Issue>, m: Option<string>): (r: Option<Issue>)
    ensures r.Some? <==> exists i :: i in issues && i.severity == "ERROR" && Names(i, m)
  {
    if issues == [] then None
    else if issues[0].severity == "ERROR" && Names(issues[0], m) then Some(issues[0])
    else IssueFor(issues[1..], m)
  }

  function ClassifyIssue(issue: Issue): (code: ErrorCode) {
    if "minimum_seller_allowed_price" in issue.attributes
        || "maximum_seller_allowed_price" in issue.attributes then CHANNEL_BOUNDS_PRESENT
    else if "automated_pricing_merchandising_rule_plan" in issue.attributes then CHANNEL_REPRICER_ACTIVE
    else VALIDATION
  }

  // ---------------------------------------------------------------- the batch

  /** The check of lines 39-43: one SKU, one field, no channel minimum. */
  predicate OneSkuOneField(batch: seq<Write>) {
    && batch != []
    && !batch[0].value.ChannelMinPrice?
    && forall w :: w in batch ==> SkuOf(w) == SkuOf(batch[0]) && FieldOf(w.value) == FieldOf(batch[0].value)
  }

  function OfferPriceOf(stores: Stores, w: Write): (r: Option<OfferPrice>) {
    var store := StoreOf(stores, w.identity.marketplace);
    if store.Some? && w.value.Price?
    then Some(OfferPrice(w.identity.marketplace, store.value.currency, w.value.amountMinor))
    else None
  }

  function OfferPrices(stores: Stores, items: seq<Write>): (r: Option<seq<OfferPrice>>)
    ensures r.Some? <==> forall w :: w in items ==> OfferPriceOf(stores, w).Some?
    ensures r.Some? ==> |r.value| == |items| && forall i :: 0 <= i < |items| ==>
              OfferPriceOf(stores, items[i]) == Some(r.value[i])
  {
    if items == [] then Some([])
    else
      var head, tail := OfferPriceOf(stores, items[0]), OfferPrices(stores, items[1..]);
      if head.None? || tail.None? then None else Some([head.value] + tail.value)
  }

  /** `patchBody`; None where the source throws (a store it does not know). */
  function PatchBody(stores: Stores, productType: string, items: seq<Write>): (r: Option<Body>)
    requires items != []
  {
    if items[0].value.Quantity? then Some(QuantityBody(productType, items[0].value.quantity))
    else
      var values := OfferPrices(stores, items);
      if values.None? then None else Some(PriceBody(productType, values.value))
  }

  /** The writes that may be sent, in order. */
  function Sendable(listing: Listing, ws: seq<Write>): (r: seq<Write>)
    ensures forall w :: w in r <==> w in ws && (w.value.Quantity? || !ChannelOwned(listing, w))
  {
    if ws == [] then []
    else
      var w, rest := ws[|ws| - 1], ws[..|ws| - 1];
      assert ws == rest + [w];
      Sendable(listing, rest) + if w.value.Quantity? || !ChannelOwned(listing, w) then [w] else []
  }

  function Withheld(listing: Listing, ws: seq<Write>): (r: seq<Outcome>) {
    if ws == [] then []
    else
      var w := ws[|ws| - 1];
      Withheld(listing, ws[..|ws| - 1])
      + if w.value.Quantity? || !ChannelOwned(listing, w) then []
        else [Outcome(w.id, REJECTED(if HasRule(listing, w.identity.marketplace) then CHANNEL_REPRICER_ACTIVE
                                     else CHANNEL_BOUNDS_PRESENT))]
  }

  function All(ws: seq<Write>, status: Status): (r: seq<Outcome>)
  {
    seq(|ws|, i requires 0 <= i < |ws| => Outcome(ws[i].id, status))
  }

  /** What the channel's answer says about one write that was sent. */
  function Verdict(s: Submission, w: Write): (status: Status) {
    var issue := IssueFor(s.issues, w.identity.marketplace);
    if s.status == "ACCEPTED" && issue.None? then ACCEPTED(s.submissionId)
    else REJECTED(if issue.Some? then ClassifyIssue(issue.value) else VALIDATION)
  }

  function Verdicts(s: Submission, ws: seq<Write>): (r: seq<Outcome>) {
    seq(|ws|, i requires 0 <= i < |ws| => Outcome(ws[i].id, Verdict(s, ws[i])))
  }

  // ---------------------------------------------------------------- the specification

  /** The error that ends the dispatch before anything is filtered or sent, or None. `Threw` means an exception. */
  function Obstacle(batch: seq<Write>, world: World): (r: Reply<Option<ErrorCode>>) {
    if world.session.Threw? || world.session.value.Some? then world.session
    else if !OneSkuOneField(batch) then Answer(Some(VALIDATION))
    else if world.late then Answer(Some(TIMEOUT))
    else if !world.readAllowed then Answer(Some(RATE_LIMITED))
    else if world.read.Threw? then Threw
    else if world.read.value.ReadFailed? then Answer(Some(world.read.value.error))
    else
      var listing := world.read.value.listing;
      if listing.sku != Some(SkuOf(batch[0])) then Answer(Some(RESPONSE_MISMATCH))
      else if ProductType(listing.summaries, batch[0].identity.marketplace) in {None, Some("")}
      then Answer(Some(NOT_FOUND))
      else if batch[0].value.Quantity? && !Merchant(listing) then Answer(Some(PRECONDITION_FAILED))
      else Answer(None)
  }

  predicate Clear(batch: seq<Write>, world: World)
    ensures Clear(batch, world) ==>
              && OneSkuOneField(batch) && world.read.Answer? && world.read.value.ReadOk?
              && ProductType(world.read.value.listing.summaries, batch[0].identity.marketplace).Some?
  {
    Obstacle(batch, world) == Answer(None)
  }

  /** The body that is sent, if one is. */
  function Sent(stores: Stores, batch: seq<Write>, world: World): (r: Option<Body>) {
    if !Clear(batch, world) then None
    else
      var listing := world.read.value.listing;
      var ws := Sendable(listing, batch);
      if ws == [] || !world.writeAllowed then None
      else PatchBody(stores, ProductType(listing.summaries, batch[0].identity.marketplace).value, ws)
  }

  /** The outcomes of the writes that were to be sent. */
  function Answered(stores: Stores, batch: seq<Write>, world: World, ws: seq<Write>): (r: Reply<seq<Outcome>>)
    requires Clear(batch, world)
  {
    if ws == [] then Answer([])
    else if !world.writeAllowed then Answer(All(ws, REJECTED(RATE_LIMITED)))
    else if PatchBody(stores, "", ws).None? || world.patch.Threw? then Threw
    else match world.patch.value
      case PatchFailed(unknown, error) => Answer(All(ws, if unknown then OUTCOME_UNKNOWN(error) else REJECTED(error)))
      case PatchOk(s) =>
        if s.sku != Some(SkuOf(batch[0])) then
          if world.alert.Threw? then Threw else Answer(All(ws, OUTCOME_UNKNOWN(RESPONSE_MISMATCH)))
        else Answer(Verdicts(s, ws))
  }

  function Dispatched(stores: Stores, batch: seq<Write>, world: World): (r: Reply<seq<Outcome>>) {
    var obstacle := Obstacle(batch, world);
    if obstacle.Threw? then Threw
    else if obstacle.value.Some? then Answer(All(batch, REJECTED(obstacle.value.value)))
    else
      var listing := world.read.value.listing;
      var answered := Answered(stores, batch, world, Sendable(listing, batch));
      if answered.Threw? then Threw else Answer(Withheld(listing, batch) + answered.value)
  }

  // ---------------------------------------------------------------- the source's loops and early returns

  method OneSkuAndField(batch: seq<Write>) returns (ok: bool)
    ensures ok == OneSkuOneField(batch)
  {
    var skus: set<Option<string>>, fields: set<Field> := {}, {};
    for i := 0 to |batch|
      invariant forall x :: x in skus <==> exists j :: 0 <= j < i && x == SkuOf(batch[j])
      invariant forall x :: x in fields <==> exists j :: 0 <= j < i && x == FieldOf(batch[j].value)
    {
      skus, fields := skus + {SkuOf(batch[i])}, fields + {FieldOf(batch[i].value)};
    }
    if batch == [] {
      return false;
    }
    ok := |skus| == 1 && |fields| == 1 && CHANNEL_MIN_PRICE !in fields;
    SizeOne(skus, SkuOf(batch[0]));
    SizeOne(fields, FieldOf(batch[0].value));
    assert forall j :: 0 <= j < |batch| ==>
        batch[j] in batch && SkuOf(batch[j]) in skus && FieldOf(batch[j].value) in fields;
  }

  /** A set of one element is told by its size. */
  lemma {:induction false} SizeOne<T>(s: set<T>, x: T)
    requires x in s
    ensures |s| == 1 <==> forall y :: y in s ==> y == x
  {
    assert |s - {x}| == |s| - 1;
    if |s| == 1 {
      forall y | y in s ensures y == x {
        assert y !in s - {x};
      }
    }
    if forall y :: y in s ==> y == x {
      assert s == {x};
    }
  }

  /** The price writes that the channel lets through, and the refusals of the others. */
  method Filter(listing: Listing, batch: seq<Write>) returns (outcomes: seq<Outcome>, sendable: seq<Write>)
    requires forall w :: w in batch ==> !w.value.Quantity?
    ensures outcomes == Withheld(listing, batch) && sendable == Sendable(listing, batch)
  {
    outcomes, sendable := [], [];
    for i := 0 to |batch|
      invariant outcomes == Withheld(listing, batch[..i]) && sendable == Sendable(listing, batch[..i])
    {
      assert batch[..i + 1][..i] == batch[..i];
      var w := batch[i];
      var repricer, bounds := HasRule(listing, w.identity.marketplace), HasBounds(listing, w.identity.marketplace);
      if repricer || bounds {
        outcomes := outcomes
            + [Outcome(w.id, REJECTED(if repricer then CHANNEL_REPRICER_ACTIVE else CHANNEL_BOUNDS_PRESENT))];
      } else {
        sendable := sendable + [w];
      }
    }
    assert batch[..|batch|] == batch;
  }

  /** `for (const w of sendable) outcomes.push(...)` with one status for all. */
  method PushAll(outcomes: seq<Outcome>, ws: seq<Write>, status: Status) returns (r: seq<Outcome>)
    ensures r == outcomes + All(ws, status)
  {
    r := outcomes;
    for i := 0 to |ws|
      invariant r == outcomes + All(ws[..i], status)
    {
      r := r + [Outcome(ws[i].id, status)];
      assert All(ws[..i + 1], status) == All(ws[..i], status) + [Outcome(ws[i].id, status)];
    }
    assert ws[..|ws|] == ws;
  }

  method PushVerdicts(outcomes: seq<Outcome>, s: Submission, ws: seq<Write>) returns (r: seq<Outcome>)
    ensures r == outcomes + Verdicts(s, ws)
  {
    r := outcomes;
    for i := 0 to |ws|
      invariant r == outcomes + Verdicts(s, ws[..i])
    {
      var issue := IssueFor(s.issues, ws[i].identity.marketplace);
      if s.status == "ACCEPTED" && issue.None? {
        r := r + [Outcome(ws[i].id, ACCEPTED(s.submissionId))];
      } else {
        r := r + [Outcome(ws[i].id, REJECTED(if issue.Some? then ClassifyIssue(issue.value) else VALIDATION))];
      }
      assert Verdicts(s, ws[..i + 1]) == Verdicts(s, ws[..i]) + [Outcome(ws[i].id, Verdict(s, ws[i]))];
    }
    assert ws[..|ws|] == ws;
  }

  lemma {:induction false} QuantitiesPass(listing: Listing, ws: seq<Write>)
    requires forall w :: w in ws ==> w.value.Quantity?
    ensures Sendable(listing, ws) == ws && Withheld(listing, ws) == []
  {
    if ws != [] {
      var rest, w := ws[..|ws| - 1], ws[|ws| - 1];
      assert rest + [w] == ws && w in ws;
      assert forall v :: v in rest ==> v in ws;
      QuantitiesPass(listing, rest);
    }
  }

  /** The part after the read: filter, write budget, PATCH, answer. */
  method Send(stores: Stores, batch: seq<Write>, world: World) returns (r: Reply<seq<Outcome>>, sent: Option<Body>)
    requires Clear(batch, world)
    ensures r == Dispatched(stores, batch, world) && sent == Sent(stores, batch, world)
  {
    sent := None;
    var listing := world.read.value.listing;
    var outcomes: seq<Outcome>, sendable := [], batch;
    if batch[0].value.Quantity? {
      QuantitiesPass(listing, batch);
    } else {
      outcomes, sendable := Filter(listing, batch);
      if sendable == [] {
        assert outcomes + [] == outcomes;
        return Answer(outcomes), None;
      }
    }
    if !world.writeAllowed {
      outcomes := PushAll(outcomes, sendable, REJECTED(RATE_LIMITED));
      return Answer(outcomes), None;
    }
    sent := PatchBody(stores, ProductType(listing.summaries, batch[0].identity.marketplace).value, sendable);
    if sent.None? {
      return Threw, None;
    }
    r := Submit(stores, batch, world, outcomes, sendable);
  }

  /** The part after the PATCH is sent: one outcome for each write of it. */
  method Submit(stores: Stores, batch: seq<Write>, world: World, withheld: seq<Outcome>,
          sendable: seq<Write>)
    returns (r: Reply<seq<Outcome>>)
    requires Clear(batch, world) && world.writeAllowed && sendable != [] && PatchBody(stores, "", sendable).Some?
    ensures var answered := Answered(stores, batch, world, sendable);
            r == if answered.Threw? then Threw else Answer(withheld + answered.value)
  {
    var outcomes := withheld;
    if world.patch.Threw? {
      return Threw;
    }
    match world.patch.value {
      case PatchFailed(unknown, error) =>
        outcomes := PushAll(outcomes, sendable, if unknown then OUTCOME_UNKNOWN(error) else REJECTED(error));
      case PatchOk(s) =>
        if s.sku != Some(SkuOf(batch[0])) {
          if world.alert.Threw? {
            return Threw;
          }
          outcomes := PushAll(outcomes, sendable, OUTCOME_UNKNOWN(RESPONSE_MISMATCH));
        } else {
          outcomes := PushVerdicts(outcomes, s, sendable);
        }
    }
    r := Answer(outcomes);
  }

  /** The dispatcher. `sent` is the body of the PATCH, if one was sent. */
  method DispatchAmazon(stores: Stores, batch: seq<Write>, world: World) returns (r: Reply<seq<Outcome>>,
          sent: Option<Body>)
    ensures r == Dispatched(stores, batch, world) && sent == Sent(stores, batch, world)
  {
    if world.session.Threw? {
      return Threw, None;
    }
    if world.session.value.Some? {
      return Answer(All(batch, REJECTED(world.session.value.value))), None;
    }
    var ok := OneSkuAndField(batch);
    if !ok {
      return Answer(All(batch, REJECTED(VALIDATION))), None;
    }
    if world.late {
      return Answer(All(batch, REJECTED(TIMEOUT))), None;
    }
    if !world.readAllowed {
      return Answer(All(batch, REJECTED(RATE_LIMITED))), None;
    }
    if world.read.Threw? {
      return Threw, None;
    }
    if world.read.value.ReadFailed? {
      return Answer(All(batch, REJECTED(world.read.value.error))), None;
    }
    var listing := world.read.value.listing;
    if listing.sku != Some(SkuOf(batch[0])) {
      return Answer(All(batch, REJECTED(RESPONSE_MISMATCH))), None;
    }
    if ProductType(listing.summaries, batch[0].identity.marketplace) in {None, Some("")} {
      return Answer(All(batch, REJECTED(NOT_FOUND))), None;
    }
    if batch[0].value.Quantity? && !Merchant(listing) {
      return Answer(All(batch, REJECTED(PRECONDITION_FAILED))), None;
    }
    r, sent := Send(stores, batch, world);
  }

  // ---------------------------------------------------------------- one outcome for each write

  function OutcomeById(id: string): (p: Outcome -> bool) { (o: Outcome) => o.id == id }

  /** An outcome for each write, in order. */
  ghost predicate Labels(os: seq<Outcome>, ws: seq<Write>) {
    |os| == |ws| && forall i :: 0 <= i < |ws| ==> os[i].id == ws[i].id
  }

  lemma {:induction false} LabelCount(os: seq<Outcome>, ws: seq<Write>, id: string)
    requires Labels(os, ws)
    ensures Count(os, OutcomeById(id)) == Count(ws, ById(id))
  {
    if ws != [] {
      LabelCount(os[..|os| - 1], ws[..|ws| - 1], id);
    }
  }

  lemma {:induction false} FilterPartitions(listing: Listing, ws: seq<Write>, id: string)
    ensures Count(Withheld(listing, ws), OutcomeById(id)) + Count(Sendable(listing, ws), ById(id))
              == Count(ws, ById(id))
  {
    if ws != [] {
      var rest, w := ws[..|ws| - 1], ws[|ws| - 1];
      var passes := w.value.Quantity? || !ChannelOwned(listing, w);
      FilterPartitions(listing, rest, id);
      CountAppend(Sendable(listing, rest), if passes then [w] else [], ById(id));
      var code := if HasRule(listing, w.identity.marketplace) then CHANNEL_REPRICER_ACTIVE else CHANNEL_BOUNDS_PRESENT;
      CountAppend(Withheld(listing, rest), if passes then [] else [Outcome(w.id, REJECTED(code))], OutcomeById(id));
    }
  }

  lemma {:induction false} AnsweredLabels(stores: Stores, batch: seq<Write>, world: World, ws: seq<Write>)
    requires Clear(batch, world) && Answered(stores, batch, world, ws).Answer?
    ensures Labels(Answered(stores, batch, world, ws).value, ws)
  {
  }

  /** On every return, each write of the batch has exactly one outcome: each id occurs as often as in the batch. */
  lemma {:induction false} OneOutcomeEach(stores: Stores, batch: seq<Write>, world: World, id: string)
    ensures var r := Dispatched(stores, batch, world);
            r.Answer? ==> Count(r.value, OutcomeById(id)) == Count(batch, ById(id))
  {
    var obstacle := Obstacle(batch, world);
    if obstacle.Answer? && obstacle.value.Some? {
      LabelCount(All(batch, REJECTED(obstacle.value.value)), batch, id);
    } else if obstacle.Answer? {
      var listing := world.read.value.listing;
      var ws := Sendable(listing, batch);
      var answered := Answered(stores, batch, world, ws);
      FilterPartitions(listing, batch, id);
      if answered.Answer? {
        AnsweredLabels(stores, batch, world, ws);
        LabelCount(answered.value, ws, id);
        CountAppend(Withheld(listing, batch), answered.value, OutcomeById(id));
      }
    }
  }

  // ---------------------------------------------------------------- what is sent

  /** The prices of a body come from writes that were let through, hence from offers without rule and bounds. */
  lemma {:induction false} SentPrices(stores: Stores, listing: Listing, batch: seq<Write>, v: OfferPrice)
    requires forall w :: w in batch ==> w.value.Price?
    requires var values := OfferPrices(stores, Sendable(listing, batch)); values.Some? && v in values.value
    ensures !HasRule(listing, v.marketplace) && !HasBounds(listing, v.marketplace)
    ensures exists w :: w in batch && OfferPriceOf(stores, w) == Some(v)
  {
    var ws := Sendable(listing, batch);
    var values := OfferPrices(stores, ws).value;
    var i :| 0 <= i < |values| && values[i] == v;
    assert ws[i] in ws && OfferPriceOf(stores, ws[i]) == Some(v);
  }

  /** What a body is made of. */
  lemma {:induction false} SentBody(stores: Stores, batch: seq<Write>, world: World)
    requires Sent(stores, batch, world).Some?
    ensures Clear(batch, world)
    ensures var listing, body := world.read.value.listing, Sent(stores, batch, world).value;
            if batch[0].value.Quantity? then body.QuantityBody? && batch[0].value == Quantity(body.quantity)
            else body.PriceBody? && OfferPrices(stores, Sendable(listing, batch)) == Some(body.values)
  {
    var ws := Sendable(world.read.value.listing, batch);
    assert ws[0] in ws;
    if batch[0].value.Quantity? {
      QuantitiesPass(world.read.value.listing, batch);
    } else {
      assert FieldOf(ws[0].value) == FieldOf(batch[0].value);
    }
  }

  /**
   * What is in the PATCH: about the SKU of the batch that was read, never a price for an offer that
   * the channel prices or bounds itself, never a quantity of an offer that is not the merchant's own,
   * and only values of the batch.
   */
  lemma {:induction false} OnlyOwnedValuesAreSent(stores: Stores, batch: seq<Write>, world: World)
    requires Sent(stores, batch, world).Some?
    ensures OneSkuOneField(batch) && world.read.Answer? && world.read.value.ReadOk?
    ensures var listing := world.read.value.listing;
            && listing.sku == Some(SkuOf(batch[0]))
            && match Sent(stores, batch, world).value
               case PriceBody(_, values) =>
                 forall v :: v in values ==>
                   && !HasRule(listing, v.marketplace) && !HasBounds(listing, v.marketplace)
                   && exists w :: w in batch && OfferPriceOf(stores, w) == Some(v)
               case QuantityBody(_, quantity) => Merchant(listing) && batch[0].value == Quantity(quantity)
  {
    SentBody(stores, batch, world);
    var listing, body := world.read.value.listing, Sent(stores, batch, world).value;
    if body.PriceBody? {
      assert forall w :: w in batch ==> FieldOf(w.value) == FieldOf(batch[0].value);
      forall v | v in body.values
        ensures !HasRule(listing, v.marketplace) && !HasBounds(listing, v.marketplace)
        ensures exists w :: w in batch && OfferPriceOf(stores, w) == Some(v)
      {
        SentPrices(stores, listing, batch, v);
      }
    }
  }

  /** Every write of the batch is rejected with this code, in order, and nothing is sent. */
  ghost predicate AllRejected(stores: Stores, batch: seq<Write>, world: World, code: ErrorCode) {
    var r := Dispatched(stores, batch, world);
    && Sent(stores, batch, world).None? && r.Answer? && |r.value| == |batch|
    && forall i :: 0 <= i < |batch| ==> r.value[i] == Outcome(batch[i].id, REJECTED(code))
  }

  /** The calls before the read went through, and the listing was read. */
  predicate WasRead(batch: seq<Write>, world: World) {
    && world.session == Answer(None) && OneSkuOneField(batch) && !world.late && world.readAllowed
    && world.read.Answer? && world.read.value.ReadOk?
  }

  /** The listing is about the SKU of the batch and names a product type for its store. */
  predicate IsListed(batch: seq<Write>, listing: Listing)
    requires batch != []
  {
    && listing.sku == Some(SkuOf(batch[0]))
    && ProductType(listing.summaries, batch[0].identity.marketplace) !in {None, Some("")}
  }

  /** Each hurdle before the PATCH, when all before it are taken: its code for every write, and nothing sent. */
  lemma {:induction false} HurdlesReject(stores: Stores, batch: seq<Write>, world: World)
    ensures world.session.Answer? && world.session.value.Some? ==>
              AllRejected(stores, batch, world, world.session.value.value)
    ensures world.session == Answer(None) && !OneSkuOneField(batch) ==> AllRejected(stores, batch, world, VALIDATION)
    ensures world.session == Answer(None) && OneSkuOneField(batch) && world.late ==>
              AllRejected(stores, batch, world, TIMEOUT)
    ensures world.session == Answer(None) && OneSkuOneField(batch) && !world.late && !world.readAllowed ==>
              AllRejected(stores, batch, world, RATE_LIMITED)
    ensures world.session == Answer(None) && OneSkuOneField(batch) && !world.late && world.readAllowed
            && world.read.Answer? && world.read.value.ReadFailed? ==>
              AllRejected(stores, batch, world, world.read.value.error)
    ensures WasRead(batch, world) && world.read.value.listing.sku != Some(SkuOf(batch[0])) ==>
              AllRejected(stores, batch, world, RESPONSE_MISMATCH)
    ensures WasRead(batch, world) && world.read.value.listing.sku == Some(SkuOf(batch[0]))
            && !IsListed(batch, world.read.value.listing) ==>
              AllRejected(stores, batch, world, NOT_FOUND)
    ensures WasRead(batch, world) && IsListed(batch, world.read.value.listing) && batch[0].value.Quantity?
            && (forall f :: f in world.read.value.listing.fulfillment ==> f.code != "DEFAULT") ==>
              AllRejected(stores, batch, world, PRECONDITION_FAILED)
  {
  }

  /**
   * A PATCH is sent exactly when every hurdle is taken, the write budget allows it, some write is not held
   * back, and the store of every price that is sent is known.
   */
  lemma {:induction false} SentExactlyWhen(stores: Stores, batch: seq<Write>, world: World)
    ensures Sent(stores, batch, world).Some? <==>
            && WasRead(batch, world) && IsListed(batch, world.read.value.listing) && world.writeAllowed
            && var listing := world.read.value.listing;
               && (batch[0].value.Quantity? ==> exists f :: f in listing.fulfillment && f.code == "DEFAULT")
               && (exists w :: w in batch && (w.value.Quantity? || !ChannelOwned(listing, w)))
               && forall w :: w in batch && w.value.Price? && !ChannelOwned(listing, w) ==>
                    StoreOf(stores, w.identity.marketplace).Some?
  {
    if Clear(batch, world) {
      var listing := world.read.value.listing;
      var ws := Sendable(listing, batch);
      assert forall w :: w in batch ==> FieldOf(w.value) == FieldOf(batch[0].value);
      if ws != [] {
        assert ws[0] in ws;
        forall w | w in ws ensures OfferPriceOf(stores, w).Some? <==>
                                   w.value.Price? && StoreOf(stores, w.identity.marketplace).Some? {
        }
      }
      if w :| w in batch && (w.value.Quantity? || !ChannelOwned(listing, w)) {
        assert w in ws;
      }
    }
  }

  // ---------------------------------------------------------------- what the channel's answer means

  /** An error of the answer that concerns the store of the write. */
  predicate Blames(issue: Issue, w: Write) { issue.severity == "ERROR" && Names(issue, w.identity.marketplace) }

  predicate Blameless(s: Submission, w: Write) { forall i :: i in s.issues ==> !Blames(i, w) }

  /** Issue `k` is the first one that blames the write. */
  predicate FirstBlame(issues: seq<Issue>, w: Write, k: nat) {
    k < |issues| && Blames(issues[k], w) && forall j :: 0 <= j < k ==> !Blames(issues[j], w)
  }

  /**
   * What an answer about the right SKU means for a write that was sent: it is accepted, under the
   * channel's reference, if and only if the submission is and no error blames the write; otherwise it is
   * rejected for the first such error, or as invalid if there is none.
   */
  ghost predicate Meant(s: Submission, w: Write, status: Status) {
    && (status.ACCEPTED? <==> s.status == "ACCEPTED" && Blameless(s, w))
    && (status.ACCEPTED? ==> status.submissionRef == s.submissionId)
    && (!status.ACCEPTED? ==> status.REJECTED?)
    && (status.REJECTED? && Blameless(s, w) ==> status.code == VALIDATION)
    && (forall k: nat :: FirstBlame(s.issues, w, k) ==> status == REJECTED(ClassifyIssue(s.issues[k])))
  }

  lemma {:induction false} FirstIsFound(issues: seq<Issue>, w: Write, k: nat)
    requires FirstBlame(issues, w, k)
    ensures IssueFor(issues, w.identity.marketplace) == Some(issues[k])
  {
    if k > 0 {
      assert !Blames(issues[0], w);
      FirstIsFound(issues[1..], w, k - 1);
    }
  }

  lemma {:induction false} VerdictIsMeant(s: Submission, w: Write)
    ensures Meant(s, w, Verdict(s, w))
  {
    var issue := IssueFor(s.issues, w.identity.marketplace);
    assert issue.Some? <==> exists i :: i in s.issues && Blames(i, w);
    forall k: nat | FirstBlame(s.issues, w, k) ensures Verdict(s, w) == REJECTED(ClassifyIssue(s.issues[k])) {
      FirstIsFound(s.issues, w, k);
    }
  }

  /** A write held back for an offer that the channel prices (or else bounds) itself. */
  predicate HeldBack(listing: Listing, w: Write, o: Outcome) {
    var m := w.identity.marketplace;
    && o.id == w.id && !w.value.Quantity?
    && if HasRule(listing, m) then o.status == REJECTED(CHANNEL_REPRICER_ACTIVE)
       else HasBounds(listing, m) && o.status == REJECTED(CHANNEL_BOUNDS_PRESENT)
  }

  lemma {:induction false} WithheldAreHeldBack(listing: Listing, ws: seq<Write>)
    ensures |Withheld(listing, ws)| + |Sendable(listing, ws)| == |ws|
    ensures forall o :: o in Withheld(listing, ws) ==> exists w :: w in ws && HeldBack(listing, w, o)
  {
    if ws != [] {
      var rest, w := ws[..|ws| - 1], ws[|ws| - 1];
      WithheldAreHeldBack(listing, rest);
      assert ws == rest + [w];
      forall o | o in Withheld(listing, ws) ensures exists v :: v in ws && HeldBack(listing, v, o) {
        if o in Withheld(listing, rest) {
          var v :| v in rest && HeldBack(listing, v, o);
        } else {
          assert HeldBack(listing, w, o);
        }
      }
    }
  }

  lemma {:induction false} AnswerFollowsSent(stores: Stores, batch: seq<Write>, world: World)
    requires Sent(stores, batch, world).Some? && world.patch.Answer? && world.patch.value.PatchOk?
    requires world.patch.value.submission.sku == Some(SkuOf(batch[0]))
    ensures var listing := world.read.value.listing;
            Dispatched(stores, batch, world)
            == Answer(Withheld(listing, batch) + Verdicts(world.patch.value.submission, Sendable(listing, batch)))
  {
    var ws := Sendable(world.read.value.listing, batch);
    assert PatchBody(stores, "", ws).Some?;
  }

  /**
   * After a PATCH that was answered about the right SKU: first the writes that were held back, rejected
   * for what the channel owns, then each write that was sent, with what the answer means for it.
   */
  lemma {:induction false} AnswerIsMeant(stores: Stores, batch: seq<Write>, world: World)
    requires Sent(stores, batch, world).Some? && world.patch.Answer? && world.patch.value.PatchOk?
    requires world.patch.value.submission.sku == Some(SkuOf(batch[0]))
    ensures Dispatched(stores, batch, world).Answer?
    ensures var os, s := Dispatched(stores, batch, world).value, world.patch.value.submission;
            var listing := world.read.value.listing;
            var ws := Sendable(listing, batch);
            var held := |batch| - |ws|;
            && 0 <= held && |os| == |batch|
            && (forall i :: 0 <= i < held ==> exists w :: w in batch && HeldBack(listing, w, os[i]))
            && forall i :: 0 <= i < |ws| ==> os[held + i].id == ws[i].id && Meant(s, ws[i], os[held + i].status)
  {
    var listing, s := world.read.value.listing, world.patch.value.submission;
    var ws := Sendable(listing, batch);
    WithheldAreHeldBack(listing, batch);
    AnswerFollowsSent(stores, batch, world);
    var held, os := Withheld(listing, batch), Dispatched(stores, batch, world).value;
    forall i | 0 <= i < |held| ensures exists w :: w in batch && HeldBack(listing, w, os[i]) {
      assert os[i] == held[i] && held[i] in held;
    }
    forall i | 0 <= i < |ws| ensures os[|held| + i].id == ws[i].id && Meant(s, ws[i], os[|held| + i].status) {
      VerdictIsMeant(s, ws[i]);
      assert os[|held| + i] == Verdicts(s, ws)[i];
    }
  }

  lemma {:induction false} WithheldAreRejected(listing: Listing, ws: seq<Write>)
    ensures forall o :: o in Withheld(listing, ws) ==> o.status.REJECTED?
  {
    if ws != [] {
      WithheldAreRejected(listing, ws[..|ws| - 1]);
    }
  }

  /** An acceptance comes only from the channel's answer to a body that was sent. */
  lemma {:induction false} AcceptedIsVerdict(stores: Stores, batch: seq<Write>, world: World, o: Outcome)
    requires Dispatched(stores, batch, world).Answer? && o in Dispatched(stores, batch, world).value
               && o.status.ACCEPTED?
    ensures Clear(batch, world) && world.patch.Answer? && world.patch.value.PatchOk? && Sent(stores, batch, world).Some?
    ensures var s, ws := world.patch.value.submission, Sendable(world.read.value.listing, batch);
            && s.sku == Some(SkuOf(batch[0])) && s.status == "ACCEPTED" && o.status.submissionRef == s.submissionId
            && exists w :: w in ws && o.id == w.id && Blameless(s, w)
  {
    var listing := world.read.value.listing;
    WithheldAreRejected(listing, batch);
    var ws := Sendable(listing, batch);
    var answered := Answered(stores, batch, world, ws);
    assert o in answered.value;
    var i :| 0 <= i < |ws| && o == Outcome(ws[i].id, Verdict(world.patch.value.submission, ws[i]));
    var s := world.patch.value.submission;
    VerdictIsMeant(s, ws[i]);
    assert ws[i] in ws && o.id == ws[i].id && Blameless(s, ws[i]);
  }

  /** The write's own value for its own store (or its own quantity) was in the body that was sent. */
  predicate OwnValueSent(stores: Stores, w: Write, sent: Option<Body>) {
    && sent.Some?
    && match sent.value
       case PriceBody(_, values) => OfferPriceOf(stores, w).Some? && OfferPriceOf(stores, w).value in values
       case QuantityBody(_, quantity) => w.value == Quantity(quantity)
  }

  /** Every accepted outcome is about a write whose own value was sent. */
  ghost predicate Truthful(stores: Stores, batch: seq<Write>, world: World) {
    var r := Dispatched(stores, batch, world);
    r.Answer? ==> forall o :: o in r.value && o.status.ACCEPTED? ==>
                    exists w :: w in batch && w.id == o.id && OwnValueSent(stores, w, Sent(stores, batch, world))
  }

  /** A batch whose acceptances say the truth: prices, or quantities that are all the same. */
  predicate Uniform(batch: seq<Write>) {
    batch != [] && batch[0].value.Quantity? ==> forall w :: w in batch && w.value.Quantity? ==>
        w.value == batch[0].value
  }

  lemma {:induction false} AcceptedWasSent(stores: Stores, batch: seq<Write>, world: World)
    requires Uniform(batch)
    ensures Truthful(stores, batch, world)
  {
    var r := Dispatched(stores, batch, world);
    if r.Answer? {
      forall o | o in r.value && o.status.ACCEPTED?
        ensures exists w :: w in batch && w.id == o.id && OwnValueSent(stores, w, Sent(stores, batch, world))
      {
        AcceptedIsVerdict(stores, batch, world, o);
        var listing := world.read.value.listing;
        var ws := Sendable(listing, batch);
        var w :| w in ws && o.id == w.id;
        var i :| 0 <= i < |ws| && ws[i] == w;
        assert ws[i] in ws && ws[0] in ws;
        if !batch[0].value.Quantity? {
          assert FieldOf(ws[0].value) == FieldOf(batch[0].value);
          assert OfferPriceOf(stores, ws[i]) == Some(OfferPrices(stores, ws).value[i]);
        } else {
          QuantitiesPass(listing, batch);
        }
        assert OwnValueSent(stores, ws[i], Sent(stores, batch, world));
      }
    }
  }

  /** A world that accepts everything. */
  function Accepting(batch: seq<Write>): (world: World)
    requires batch != []
  {
    var sku := Some(SkuOf(batch[0]));
    World(Answer(None), false, true,
          Answer(ReadOk(Listing(sku, [Summary(batch[0].identity.marketplace, Some("PRODUCT"))],
                                [], [Fulfillment("DEFAULT", NotInteger)]))),
          true, Answer(PatchOk(Submission(sku, "ACCEPTED", [], "1"))), Answer(()))
  }

  lemma {:induction false} AcceptingIsClear(batch: seq<Write>)
    requires OneSkuOneField(batch) && batch[0].value.Quantity?
    ensures Clear(batch, Accepting(batch))
  {
    var world := Accepting(batch);
    var listing := world.read.value.listing;
    assert ProductType(listing.summaries, batch[0].identity.marketplace) == Some("PRODUCT");
    assert Merchant(listing);
  }

  lemma {:induction false} QuantitiesAnswered(stores: Stores, batch: seq<Write>, world: World)
    requires Clear(batch, world) && batch[0].value.Quantity?
               && world.writeAllowed && world.patch.Answer? && world.patch.value.PatchOk?
    requires world.patch.value.submission.sku == Some(SkuOf(batch[0]))
    ensures Answered(stores, batch, world, batch) == Answer(Verdicts(world.patch.value.submission, batch))
  {
  }

  lemma {:induction false} EmptyFront(os: seq<Outcome>)
    ensures [] + os == os
  {
  }

  /** A channel that accepts everything makes every quantity of a batch accepted, and gets only the first. */
  lemma {:induction false} OnlyFirstQuantityIsSent(stores: Stores, batch: seq<Write>, world: World)
    requires Clear(batch, world) && forall w :: w in batch ==> w.value.Quantity?
    requires world.writeAllowed && world.patch.Answer? && world.patch.value.PatchOk?
    requires var s := world.patch.value.submission;
             s.sku == Some(SkuOf(batch[0])) && s.status == "ACCEPTED" && s.issues == []
    ensures Sent(stores, batch, world) == Some(QuantityBody(
              ProductType(world.read.value.listing.summaries, batch[0].identity.marketplace).value,
                  batch[0].value.quantity))
    ensures var r := Dispatched(stores, batch, world);
            && r.Answer? && |r.value| == |batch|
            && forall i :: 0 <= i < |batch| ==>
                 r.value[i] == Outcome(batch[i].id, ACCEPTED(world.patch.value.submission.submissionId))
  {
    assert batch[0] in batch;
    QuantitiesPass(world.read.value.listing, batch);
    QuantitiesAnswered(stores, batch, world);
    EmptyFront(Verdicts(world.patch.value.submission, batch));
  }

  lemma {:induction false} MixedQuantitiesLie(stores: Stores, batch: seq<Write>, i: nat)
    requires OneSkuOneField(batch) && i < |batch|
    requires batch[0].value.Quantity? && batch[i].value != batch[0].value
    requires forall i, j :: 0 <= i < j < |batch| ==> batch[i].id != batch[j].id
    ensures !Truthful(stores, batch, Accepting(batch))
  {
    var world := Accepting(batch);
    assert forall w :: w in batch ==> w.value.Quantity?;
    AcceptingIsClear(batch);
    OnlyFirstQuantityIsSent(stores, batch, world);
    var os := Dispatched(stores, batch, world).value;
    var o := os[i];
    assert IssueFor([], batch[i].identity.marketplace).None?;
    assert o in os && o.status.ACCEPTED? && o.id == batch[i].id;
    forall w | w in batch && w.id == o.id ensures !OwnValueSent(stores, w, Sent(stores, batch, world)) {
      var j :| 0 <= j < |batch| && batch[j] == w;
      assert j == i;
    }
  }

  /**
   * The check of the batch admits several quantities of one SKU, though only the first is sent and all
   * can be accepted. For a batch that passes the check, acceptances say the truth whatever the channel
   * answers if and only if its writes are prices or its quantities are all the same.
   */
  lemma {:induction false} TruthfulExactlyWhenUniform(stores: Stores, batch: seq<Write>)
    requires OneSkuOneField(batch)
    requires forall i, j :: 0 <= i < j < |batch| ==> batch[i].id != batch[j].id
    ensures (forall world :: Truthful(stores, batch, world)) <==> Uniform(batch)
  {
    if Uniform(batch) {
      forall world ensures Truthful(stores, batch, world) {
        AcceptedWasSent(stores, batch, world);
      }
    } else {
      var w :| w in batch && w.value.Quantity? && w.value != batch[0].value;
      var i :| 0 <= i < |batch| && batch[i] == w;
      MixedQuantitiesLie(stores, batch, i);
      assert !Truthful(stores, batch, Accepting(batch));
    }
  }

  /** Nobody can tell whether the value reached the offer: no answer to the PATCH, or an answer about another SKU. */
  predicate Undecided(batch: seq<Write>, world: World) {
    && batch != [] && world.patch.Answer?
    && match world.patch.value
       case PatchFailed(unknown, _) => unknown
       case PatchOk(s) => s.sku != Some(SkuOf(batch[0]))
  }

  /**
   * Every write whose value was sent without a decision is reported OUTCOME_UNKNOWN, and nothing else
   * ever is: a rejection means that the value was not sent, or that the channel or the transport says
   * that it was not taken.
   */
  lemma {:induction false} UnknownExactlyWhenUndecided(stores: Stores, batch: seq<Write>, world: World)
    requires Dispatched(stores, batch, world).Answer?
    ensures var os := Dispatched(stores, batch, world).value;
            if Sent(stores, batch, world).Some? && Undecided(batch, world)
            then exists error :: os == Withheld(world.read.value.listing, batch)
                                       + All(Sendable(world.read.value.listing, batch), OUTCOME_UNKNOWN(error))
            else forall o :: o in os ==> !o.status.OUTCOME_UNKNOWN?
  {
    if Clear(batch, world) {
      WithheldAreRejected(world.read.value.listing, batch);
    }
  }

  // ---------------------------------------------------------------- planner and dispatcher together

  /** No awaited call throws. */
  predicate Answers(world: World) {
    world.session.Answer? && world.read.Answer? && world.patch.Answer? && world.alert.Answer?
  }

  /**
   * What the planner plans, the dispatcher takes: the batch passes its check, building the body never
   * throws, and acceptances say the truth.
   */
  lemma {:induction false} PlannedBatchesPass(stores: Stores, account: Account, writes: seq<Write>, b: Planning.Batch,
          world: World)
    requires b in Planning.PlanOf(stores, account, writes).batches
    ensures OneSkuOneField(b.items)
    ensures Answers(world) ==> Dispatched(stores, b.items, world).Answer?
    ensures Truthful(stores, b.items, world)
  {
    Planning.BatchShape(stores, account, writes);
    WellFormedPasses(stores, account, b);
    AcceptedWasSent(stores, b.items, world);
    if Answers(world) {
      BuildsABody(stores, b.items, world);
    }
  }

  lemma {:induction false} WellFormedPasses(stores: Stores, account: Account, b: Planning.Batch)
    requires Planning.WellFormed(stores, account, b)
    ensures OneSkuOneField(b.items) && Uniform(b.items)
    ensures b.items[0].value.Quantity? || forall w :: w in b.items ==> OfferPriceOf(stores, w).Some?
  {
    var ws := b.items;
    assert forall w :: w in ws ==> Planning.Acceptable(stores, account, w);
    assert ws[0] in ws;
    if ws[0].value.Quantity? {
      assert forall w :: w in ws ==> w == ws[0];
    }
  }

  /** The dispatch throws only where the world does, if each price of the batch can be put into the body. */
  lemma {:induction false} BuildsABody(stores: Stores, batch: seq<Write>, world: World)
    requires OneSkuOneField(batch) && Answers(world)
    requires batch[0].value.Quantity? || forall w :: w in batch ==> OfferPriceOf(stores, w).Some?
    ensures Dispatched(stores, batch, world).Answer?
  {
    if Clear(batch, world) {
      var ws := Sendable(world.read.value.listing, batch);
      if ws != [] {
        assert ws[0] in ws && ws[0] in batch && FieldOf(ws[0].value) == FieldOf(batch[0].value);
        assert batch[0].value.Price? ==> OfferPrices(stores, ws).Some?;
      }
    }
  }

  /** All outcomes of dispatching the batches one after the other. */
  function AllOutcomes(stores: Stores, bs: seq<Planning.Batch>, worlds: seq<World>): (r: seq<Outcome>)
    requires |worlds| == |bs|
  {
    if bs == [] then []
    else
      var last := |bs| - 1;
      var r := Dispatched(stores, bs[last].items, worlds[last]);
      AllOutcomes(stores, bs[..last], worlds[..last]) + if r.Answer? then r.value else []
  }

  lemma {:induction false} OutcomesCount(stores: Stores, bs: seq<Planning.Batch>, worlds: seq<World>, id: string)
    requires |worlds| == |bs|
    requires forall i :: 0 <= i < |bs| ==> Dispatched(stores, bs[i].items, worlds[i]).Answer?
    ensures Count(AllOutcomes(stores, bs, worlds), OutcomeById(id)) == Count(Planning.ItemsOf(bs), ById(id))
  {
    if bs != [] {
      var last := |bs| - 1;
      OutcomesCount(stores, bs[..last], worlds[..last], id);
      OneOutcomeEach(stores, bs[last].items, worlds[last], id);
      CountAppend(AllOutcomes(stores, bs[..last], worlds[..last]),
                  Dispatched(stores, bs[last].items, worlds[last]).value, OutcomeById(id));
      CountAppend(Planning.ItemsOf(bs[..last]), bs[last].items, ById(id));
    }
  }

  /**
   * From end to end: plan any writes and dispatch every batch, whatever the channel answers. Each id
   * is answered, by a rejection of the plan or an outcome of a dispatch, exactly as often as it was
   * given.
   */
  lemma {:induction false} EveryWriteIsAnsweredOnce(stores: Stores, account: Account, writes: seq<Write>,
          worlds: seq<World>, id: string)
    requires |worlds| == |Planning.PlanOf(stores, account, writes).batches| && forall w :: w in worlds ==> Answers(w)
    ensures var plan := Planning.PlanOf(stores, account, writes);
            Count(plan.rejected, Planning.RejectedById(id))
                + Count(AllOutcomes(stores, plan.batches, worlds), OutcomeById(id))
            == Count(writes, ById(id))
  {
    var plan := Planning.PlanOf(stores, account, writes);
    forall i | 0 <= i < |plan.batches| ensures Dispatched(stores, plan.batches[i].items, worlds[i]).Answer? {
      assert worlds[i] in worlds && plan.batches[i] in plan.batches;
      PlannedBatchesPass(stores, account, writes, plan.batches[i], worlds[i]);
    }
    OutcomesCount(stores, plan.batches, worlds, id);
    Planning.PlanPartitions(stores, account, writes, id);
  }
}
