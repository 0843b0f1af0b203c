/**
 * competitorSnapshotRow and competitorSnapshotFromRow (packages/analytics-export/src/competitor-history.ts:89-164):
 * a competitor snapshot and its row of parallel columns.
 *
 * `null` in a column is None. A column that an old row lacks is an empty one, as the decoder treats it.
 */
module CompetitorHistory {
  import opened Common

  datatype Basis = GROSS | NET

  datatype Money = Money(amountMinor: int, currency: string, basis: Basis)

  datatype Rating = Rating(positivePct: real, count: int)

  datatype Days = Days(min: Option<int>, max: Option<int>)

  datatype Offer = Offer(
    rank: Option<int>, sellerRef: Option<string>, isSelf: bool,
    price: Money, shipping: Option<Money>, totalPrice: Option<Money>,
    condition: Option<string>, fulfillment: Option<string>, deliveryDays: Option<Days>, holdsBuyBox: Option<bool>,
    rating: Option<Rating>, couponPrice: Option<Money>)

  datatype Buybox = Buybox(price: Money, isSelf: Option<bool>, shipping: Option<Money>, sellerRef: Option<string>)

  datatype Segment = Segment(sellerRef: Option<string>, isSelf: bool, membership: string, viewSharePct: real)

  datatype Completeness = TOP_N(n: int) | CHEAPEST_ONLY | FULL

  datatype Snapshot = Snapshot(
    marketplace: string, channelProductRef: string, condition: string, source: string, sourceEventId: Option<string>,
    observedAt: string, completeness: Completeness, buybox: Option<Buybox>, offers: seq<Offer>,
    channelSuggestedPrice: Option<Money>, buyboxSegments: Option<seq<Segment>>)

  datatype Storefront = Storefront(currency: string, basis: string)

  /** Everything in a row that does not come from the snapshot. */
  datatype Header = Header(tenantId: string, snapshotId: string,
                           receivedAt: string, channelAccountId: string, channel: string,
                           sanityVerdict: string, delivery: string)

  datatype OfferColumns = OfferColumns(
    sellerRef: seq<string>, amount: seq<int>, shipping: seq<Option<int>>,
    condition: seq<string>, fulfillment: seq<string>,
    isSelf: seq<bool>, holdsBuybox: seq<Option<bool>>, rank: seq<Option<int>>,
    daysMin: seq<Option<int>>, daysMax: seq<Option<int>>,
    feedbackCount: seq<Option<int>>, feedbackPct: seq<Option<int>>, coupon: seq<Option<int>>)

  datatype SegmentColumns = SegmentColumns(sellerRef: seq<string>,
                                           isSelf: seq<bool>, membership: seq<string>, viewShareBp: seq<int>)

  datatype Row = Row(
    header: Header, dataClass: string, observedAt: string, marketplace: string,
    channelProductRef: string, condition: string,
    currency: string, priceBasis: string, source: string, sourceEventId: Option<string>,
    completeness: string, completenessN: Option<int>,
    buyboxAmount: Option<int>, buyboxShipping: Option<int>, buyboxIsSelf: Option<bool>, buyboxSellerRef: Option<string>,
    suggested: Option<int>, offers: OfferColumns, segments: SegmentColumns)

  // ---------------------------------------------------------------- encoding

  function Map<T, U>(ts: seq<T>, f: T -> U): (r: seq<U>)
    ensures |r| == |ts| && forall i :: 0 <= i < |ts| ==> r[i] == f(ts[i])
  {
    seq(|ts|, i requires 0 <= i < |ts| => f(ts[i]))
  }

  function BasisText(b: Basis): (s: string) { if b == NET then "NET" else "GROSS" }

  /** `Math.round`. */
  function Round(x: real): (n: int) { (x + 0.5).Floor }

  function Amount(m: Option<Money>): (r: Option<int>) { if m.Some? then Some(m.value.amountMinor) else None }

  function OrEmpty(s: Option<string>): (r: string) { if s.Some? then s.value else "" }

  /** The price whose currency and basis the row takes. */
  function FirstPrice(s: Snapshot): (m: Option<Money>) {
    if s.buybox.Some? then Some(s.buybox.value.price) else if s.offers != [] then Some(s.offers[0].price) else None
  }

  function CurrencyOf(s: Snapshot, front: Option<Storefront>): (c: Option<string>) {
    if FirstPrice(s).Some? then Some(FirstPrice(s).value.currency)
    else if front.Some? then Some(front.value.currency)
    else None
  }

  function BasisOf(s: Snapshot, front: Option<Storefront>): (b: Option<string>) {
    if FirstPrice(s).Some? then Some(BasisText(FirstPrice(s).value.basis))
    else if front.Some? then Some(front.value.basis)
    else None
  }

  /** `o.find((x) => x.holdsBuyBox === true)`. */
  function Winner(os: seq<Offer>): (r: Option<Offer>) {
    if os == [] then None else if os[0].holdsBuyBox == Some(true) then Some(os[0]) else Winner(os[1..])
  }

  function BuyboxShipping(s: Snapshot): (r: Option<int>) {
    if s.buybox.None? then None
    else if s.buybox.value.shipping.Some? then Amount(s.buybox.value.shipping)
    else
      var winner := Winner(s.offers);
      if winner.Some? then Amount(winner.value.shipping) else None
  }

  function EncodeOffers(os: seq<Offer>, condition: string): (r: OfferColumns) {
    OfferColumns(
      Map(os, (o: Offer) => OrEmpty(o.sellerRef)), Map(os, (o: Offer) => o.price.amountMinor),
      Map(os, (o: Offer) => Amount(o.shipping)),
      Map(os, (o: Offer) => if o.condition.Some? then o.condition.value else condition),
      Map(os, (o: Offer) => OrEmpty(o.fulfillment)), Map(os, (o: Offer) => o.isSelf),
      Map(os, (o: Offer) => o.holdsBuyBox),
      Map(os, (o: Offer) => o.rank),
      Map(os, (o: Offer) => if o.deliveryDays.Some? then o.deliveryDays.value.min else None),
      Map(os, (o: Offer) => if o.deliveryDays.Some? then o.deliveryDays.value.max else None),
      Map(os, (o: Offer) => if o.rating.Some? then Some(o.rating.value.count) else None),
      Map(os, (o: Offer) => if o.rating.Some? then Some(Round(o.rating.value.positivePct)) else None),
      Map(os, (o: Offer) => Amount(o.couponPrice)))
  }

  function EncodeSegments(ss: seq<Segment>): (r: SegmentColumns) {
    SegmentColumns(Map(ss, (x: Segment) => OrEmpty(x.sellerRef)), Map(ss, (x: Segment) => x.isSelf),
                   Map(ss, (x: Segment) => x.membership), Map(ss, (x: Segment) => Round(x.viewSharePct * 100.0)))
  }

  /** `competitorSnapshotRow`; Threw for a snapshot without a currency or a basis. */
  function Encode(h: Header, s: Snapshot, front: Option<Storefront>): (r: Reply<Row>) {
    var currency, basis := CurrencyOf(s, front), BasisOf(s, front);
    if currency in {None, Some("")} || basis in {None, Some("")} then Threw
    else
      var bb := s.buybox;
      Answer(Row(
        h, if h.channel == "AMAZON" then "AMAZON_INFO" else "CHANNEL_INFO",
        s.observedAt, s.marketplace, s.channelProductRef, s.condition,
        currency.value, basis.value, s.source, s.sourceEventId,
        match s.completeness case TOP_N(_) => "TOP_N" case CHEAPEST_ONLY => "CHEAPEST_ONLY" case FULL => "FULL",
        if s.completeness.TOP_N? then Some(s.completeness.n) else None,
        if bb.Some? then Some(bb.value.price.amountMinor) else None, BuyboxShipping(s),
        if bb.Some? then bb.value.isSelf else None, if bb.Some? then bb.value.sellerRef else None,
        Amount(s.channelSuggestedPrice), EncodeOffers(s.offers, s.condition),
        EncodeSegments(if s.buyboxSegments.Some? then s.buyboxSegments.value else [])))
  }

  // ---------------------------------------------------------------- decoding

  /** `column[i]` where the column may be too short. */
  function At<T>(column: seq<T>, i: nat): (r: Option<T>) { if i < |column| then Some(column[i]) else None }

  /** A nullable cell. */
  function Cell<T>(column: seq<Option<T>>, i: nat): (r: Option<T>) { if i < |column| then column[i] else None }

  /** A text cell where the empty text means that nothing is known. */
  function Text(s: Option<string>): (r: Option<string>) { if s == Some("") then None else s }

  function DecodeBasis(priceBasis: string): (b: Basis) { if priceBasis == "NET" then NET else GROSS }

  function MoneyOf(row: Row, amount: int): (m: Money) { Money(amount, row.currency, DecodeBasis(row.priceBasis)) }

  function OptMoney(row: Row, amount: Option<int>): (m: Option<Money>) {
    if amount.Some? then Some(MoneyOf(row, amount.value)) else None
  }

  function DecodeOffer(row: Row, i: nat): (o: Offer)
    requires i < |row.offers.amount|
  {
    var c := row.offers;
    var shipping := Cell(c.shipping, i);
    var pct, count := Cell(c.feedbackPct, i), Cell(c.feedbackCount, i);
    Offer(Cell(c.rank, i), Text(At(c.sellerRef, i)), At(c.isSelf, i) == Some(true), MoneyOf(row, c.amount[i]),
          OptMoney(row, shipping), if shipping.Some? then Some(MoneyOf(row, c.amount[i] + shipping.value)) else None,
          Text(At(c.condition, i)), Text(At(c.fulfillment, i)), Some(Days(Cell(c.daysMin, i), Cell(c.daysMax, i))),
          if Cell(c.holdsBuybox, i) == Some(true) then Some(true) else None,
          if pct.Some? && count.Some? then Some(Rating(pct.value as real, count.value)) else None,
          OptMoney(row, Cell(c.coupon, i)))
  }

  function DecodeSegment(row: Row, i: nat): (x: Segment)
    requires i < |row.segments.membership|
  {
    var c := row.segments;
    Segment(Text(At(c.sellerRef, i)), At(c.isSelf, i) == Some(true), c.membership[i],
            (if i < |c.viewShareBp| then c.viewShareBp[i] else 0) as real / 100.0)
  }

  /** `competitorSnapshotFromRow`; `iso` is the normalisation of an instant to ISO 8601 in UTC. */
  function Decode(row: Row, iso: string -> string): (s: Snapshot) {
    var offers := seq(|row.offers.amount|, i requires 0 <= i < |row.offers.amount| => DecodeOffer(row, i));
    var segments := seq(|row.segments.membership|, i requires 0 <= i < |row.segments.membership| =>
                        DecodeSegment(row, i));
    Snapshot(row.marketplace, row.channelProductRef, row.condition,
             row.source, Text(row.sourceEventId), iso(row.observedAt),
             if row.completeness == "TOP_N"
             then TOP_N(if row.completenessN.Some? then row.completenessN.value else |offers|)
             else if row.completeness == "FULL" then FULL else CHEAPEST_ONLY,
             if row.buyboxAmount.Some?
             then Some(Buybox(MoneyOf(row, row.buyboxAmount.value),
                              row.buyboxIsSelf, OptMoney(row, row.buyboxShipping), Text(row.buyboxSellerRef)))
             else None,
             offers, OptMoney(row, row.suggested), if segments != [] then Some(segments) else None)
  }

  // ---------------------------------------------------------------- one offer, there and back

  /** What an offer of a snapshot becomes. */
  function OfferBack(row: Row, condition: string, o: Offer): (r: Offer) {
    var pct := if o.rating.Some? then Some(Rating(Round(o.rating.value.positivePct) as real, o.rating.value.count))
        else None;
    Offer(o.rank, Text(o.sellerRef), o.isSelf, MoneyOf(row, o.price.amountMinor), OptMoney(row, Amount(o.shipping)),
          if o.shipping.Some? then Some(MoneyOf(row, o.price.amountMinor + o.shipping.value.amountMinor)) else None,
          Text(Some(if o.condition.Some? then o.condition.value else condition)), Text(o.fulfillment),
          Some(if o.deliveryDays.Some? then o.deliveryDays.value else Days(None, None)),
          if o.holdsBuyBox == Some(true) then Some(true) else None, pct, OptMoney(row, Amount(o.couponPrice)))
  }

  /** What one place of the columns decodes to. */
  lemma {:induction false} OfferAtIsBack(row: Row, os: seq<Offer>, condition: string, i: nat)
    requires i < |os| && row.offers == EncodeOffers(os, condition)
    ensures DecodeOffer(row, i) == OfferBack(row, condition, os[i])
  {
    var o, c := os[i], row.offers;
    assert At(c.sellerRef, i) == Some(OrEmpty(o.sellerRef)) && At(c.fulfillment, i) == Some(OrEmpty(o.fulfillment));
    assert At(c.condition, i) == Some(if o.condition.Some? then o.condition.value else condition);
    assert At(c.isSelf, i) == Some(o.isSelf) && Cell(c.rank, i) == o.rank && Cell(c.holdsBuybox, i) == o.holdsBuyBox;
  }

  lemma {:induction false} OffersBack(h: Header, s: Snapshot, front: Option<Storefront>, iso: string -> string)
    requires Encode(h, s, front).Answer?
    ensures var row := Encode(h, s, front).value;
            && |Decode(row, iso).offers| == |s.offers|
            && forall i :: 0 <= i < |s.offers| ==>
                 Decode(row, iso).offers[i] == OfferBack(row, s.condition, s.offers[i])
  {
    var row := Encode(h, s, front).value;
    assert row.offers == EncodeOffers(s.offers, s.condition);
    forall i | 0 <= i < |s.offers| ensures DecodeOffer(row, i) == OfferBack(row, s.condition, s.offers[i]) {
      OfferAtIsBack(row, s.offers, s.condition, i);
    }
  }

  /** The same offer with its amounts in the row's money; shipping that is not known stays so and leaves no total. */
  predicate SameAmounts(row: Row, o: Offer, back: Offer) {
    && back.rank == o.rank && back.isSelf == o.isSelf
    && back.price.amountMinor == o.price.amountMinor
    && Amount(back.shipping) == Amount(o.shipping) && Amount(back.couponPrice) == Amount(o.couponPrice)
    && (back.totalPrice.None? <==> o.shipping.None?)
    && (o.shipping.Some? ==> back.totalPrice.value.amountMinor == o.price.amountMinor + o.shipping.value.amountMinor)
    && Native(row, Some(back.price)) && Native(row, back.shipping)
    && Native(row, back.couponPrice) && Native(row, back.totalPrice)
  }

  lemma {:induction false} BackHasSameAmounts(row: Row, condition: string, o: Offer)
    ensures SameAmounts(row, o, OfferBack(row, condition, o))
  {
  }

  /**
   * A snapshot has a row exactly when its first price, that of the Buy Box or else of the first offer,
   * names a currency; without any price, when the store is known with a currency and a basis.
   */
  lemma {:induction false} HasRowExactlyWhen(h: Header, s: Snapshot, front: Option<Storefront>)
    ensures Encode(h, s, front).Answer? <==>
            if s.buybox.Some? then s.buybox.value.price.currency != ""
            else if s.offers != [] then s.offers[0].price.currency != ""
            else front.Some? && front.value.currency != "" && front.value.basis != ""
  {
  }

  /** Place `i` of the columns is about this offer: its own amounts, flags and texts, each in its own column. */
  predicate PlaceHolds(c: OfferColumns, i: nat, o: Offer, condition: string) {
    && i < |c.sellerRef| && c.sellerRef[i] == OrEmpty(o.sellerRef)
    && i < |c.amount| && c.amount[i] == o.price.amountMinor
    && i < |c.shipping| && c.shipping[i] == Amount(o.shipping)
    && i < |c.condition| && c.condition[i] == (if o.condition.Some? then o.condition.value else condition)
    && i < |c.fulfillment| && c.fulfillment[i] == OrEmpty(o.fulfillment)
    && i < |c.isSelf| && c.isSelf[i] == o.isSelf
    && i < |c.holdsBuybox| && c.holdsBuybox[i] == o.holdsBuyBox
    && i < |c.rank| && c.rank[i] == o.rank
    && i < |c.daysMin| && c.daysMin[i] == (if o.deliveryDays.Some? then o.deliveryDays.value.min else None)
    && i < |c.daysMax| && c.daysMax[i] == (if o.deliveryDays.Some? then o.deliveryDays.value.max else None)
    && i < |c.feedbackCount| && c.feedbackCount[i] == (if o.rating.Some? then Some(o.rating.value.count) else None)
    && i < |c.coupon| && c.coupon[i] == Amount(o.couponPrice)
  }

  /** Place `i` of the offers is the first that holds the Buy Box; at the end there is none. */
  predicate FirstHolder(os: seq<Offer>, i: nat) {
    && i <= |os| && (i < |os| ==> os[i].holdsBuyBox == Some(true))
    && forall j :: 0 <= j < i ==> os[j].holdsBuyBox != Some(true)
  }

  lemma {:induction false} WinnerIsFirstHolder(os: seq<Offer>, i: nat)
    requires FirstHolder(os, i)
    ensures Winner(os) == if i < |os| then Some(os[i]) else None
  {
    if i > 0 {
      assert os[0].holdsBuyBox != Some(true);
      WinnerIsFirstHolder(os[1..], i - 1);
    }
  }

  /** What a row says of the Buy Box: its own price and shipping, or the shipping of the first offer that holds it. */
  lemma {:induction false} BuyboxOfRow(h: Header, s: Snapshot, front: Option<Storefront>, i: nat)
    requires Encode(h, s, front).Answer? && FirstHolder(s.offers, i)
    ensures var row := Encode(h, s, front).value;
            && (row.buyboxAmount.Some? <==> s.buybox.Some?)
            && match s.buybox
               case None => row.buyboxShipping.None? && row.buyboxIsSelf.None? && row.buyboxSellerRef.None?
               case Some(bb) =>
                 && row.buyboxAmount == Some(bb.price.amountMinor) && row.buyboxIsSelf == bb.isSelf
                 && row.buyboxSellerRef == bb.sellerRef
                 && row.buyboxShipping == (if bb.shipping.Some? then Some(bb.shipping.value.amountMinor)
                                           else if i < |s.offers| then Amount(s.offers[i].shipping) else None)
  {
    WinnerIsFirstHolder(s.offers, i);
  }

  /**
   * Through the thirteen columns and back: as many offers, in the same order, each with its own amounts;
   * and the row's class of data is that of its channel.
   */
  lemma {:induction false} AmountsComeBack(h: Header, s: Snapshot, front: Option<Storefront>, iso: string -> string)
    requires Encode(h, s, front).Answer?
    ensures var row := Encode(h, s, front).value;
            && |Decode(row, iso).offers| == |s.offers|
            && (forall i :: 0 <= i < |s.offers| ==> PlaceHolds(row.offers, i, s.offers[i], s.condition))
            && (forall i :: 0 <= i < |s.offers| ==> SameAmounts(row, s.offers[i], Decode(row, iso).offers[i]))
            && CurrencyOf(s, front) == Some(row.currency)
            && row.header == h && row.dataClass == (if h.channel == "AMAZON" then "AMAZON_INFO" else "CHANNEL_INFO")
  {
    var row := Encode(h, s, front).value;
    OffersBack(h, s, front, iso);
    forall i | 0 <= i < |s.offers| ensures SameAmounts(row, s.offers[i], Decode(row, iso).offers[i]) {
      BackHasSameAmounts(row, s.condition, s.offers[i]);
    }
  }

  function SegmentBack(x: Segment): (r: Segment) {
    Segment(Text(x.sellerRef), x.isSelf, x.membership, Round(x.viewSharePct * 100.0) as real / 100.0)
  }

  function SegmentsOf(s: Snapshot): (r: seq<Segment>) { if s.buyboxSegments.Some? then s.buyboxSegments.value else [] }

  lemma {:induction false} SegmentsBack(h: Header, s: Snapshot, front: Option<Storefront>, iso: string -> string)
    requires Encode(h, s, front).Answer?
    ensures var row := Encode(h, s, front).value;
            Decode(row, iso).buyboxSegments
            == if SegmentsOf(s) == [] then None else Some(Map(SegmentsOf(s), SegmentBack))
  {
    var row := Encode(h, s, front).value;
    var ss := SegmentsOf(s);
    var back := seq(|row.segments.membership|, i requires 0 <= i < |row.segments.membership| => DecodeSegment(row, i));
    assert |back| == |ss|;
    forall i | 0 <= i < |ss| ensures back[i] == SegmentBack(ss[i]) {
    }
    assert back == Map(ss, SegmentBack);
  }

  // ---------------------------------------------------------------- encoding again gives the same row

  /**
   * When a snapshot's row survives decoding and encoding: its instant is canonical, no offer denies
   * holding the Buy Box, and the texts that must not be empty are not.
   */
  predicate Retracts(s: Snapshot, iso: string -> string) {
    && iso(s.observedAt) == s.observedAt
    && s.sourceEventId != Some("")
    && (s.buybox.Some? ==> s.buybox.value.sellerRef != Some(""))
    && forall o :: o in s.offers ==> o.holdsBuyBox != Some(false) && (o.condition == Some("") ==> s.condition == "")
  }

  lemma {:induction false} WinnerBack(row: Row, condition: string, os: seq<Offer>, bs: seq<Offer>)
    requires |os| == |bs| && forall i :: 0 <= i < |os| ==> bs[i] == OfferBack(row, condition, os[i])
    ensures Winner(os).Some? <==> Winner(bs).Some?
    ensures Winner(os).Some? ==> Amount(Winner(os).value.shipping) == Amount(Winner(bs).value.shipping)
  {
    if os != [] {
      assert bs[0] == OfferBack(row, condition, os[0]);
      WinnerBack(row, condition, os[1..], bs[1..]);
    }
  }

  lemma {:induction false} RoundTwice(n: int)
    ensures Round(n as real) == n && Round(n as real / 100.0 * 100.0) == n
  {
    var x := n as real / 100.0;
    assert x * 100.0 == n as real;
  }

  lemma {:induction false} HoldsBack(h: Option<bool>)
    ensures (if h == Some(true) then Some(true) else None) == h <==> h != Some(false)
  {
    if h.Some? && !h.value {
      assert h == Some(false);
    }
  }

  lemma {:induction false} ColumnsAgain(row: Row, condition: string, os: seq<Offer>, bs: seq<Offer>)
    requires |os| == |bs| && forall i :: 0 <= i < |os| ==> bs[i] == OfferBack(row, condition, os[i])
    ensures var c, d := EncodeOffers(os, condition), EncodeOffers(bs, condition);
            && d == c.(condition := d.condition, holdsBuybox := d.holdsBuybox)
            && (d.condition == c.condition <==> forall o :: o in os ==> o.condition == Some("") ==> condition == "")
            && (d.holdsBuybox == c.holdsBuybox <==> forall o :: o in os ==> o.holdsBuyBox != Some(false))
  {
    var c, d := EncodeOffers(os, condition), EncodeOffers(bs, condition);
    forall i | 0 <= i < |os|
      ensures d.sellerRef[i] == c.sellerRef[i] && d.fulfillment[i] == c.fulfillment[i]
      ensures d.feedbackPct[i] == c.feedbackPct[i] && d.feedbackCount[i] == c.feedbackCount[i]
      ensures d.daysMin[i] == c.daysMin[i] && d.daysMax[i] == c.daysMax[i]
      ensures d.condition[i] == c.condition[i] <==> (os[i].condition == Some("") ==> condition == "")
      ensures d.holdsBuybox[i] == c.holdsBuybox[i] <==> os[i].holdsBuyBox != Some(false)
    {
      if os[i].rating.Some? {
        RoundTwice(Round(os[i].rating.value.positivePct));
      }
      HoldsBack(os[i].holdsBuyBox);
    }
    assert d.sellerRef == c.sellerRef && d.fulfillment == c.fulfillment && d.feedbackPct == c.feedbackPct;
    assert d.feedbackCount == c.feedbackCount && d.daysMin == c.daysMin && d.daysMax == c.daysMax;
    assert d.amount == c.amount && d.shipping == c.shipping
        && d.isSelf == c.isSelf && d.rank == c.rank && d.coupon == c.coupon;
    assert forall i :: 0 <= i < |os| ==> os[i] in os;
    if forall o :: o in os ==> o.condition == Some("") ==> condition == "" {
      assert d.condition == c.condition;
    }
    if forall o :: o in os ==> o.holdsBuyBox != Some(false) {
      assert d.holdsBuybox == c.holdsBuybox;
    }
  }

  lemma {:induction false} SegmentsAgain(ss: seq<Segment>)
    ensures EncodeSegments(Map(ss, SegmentBack)) == EncodeSegments(ss)
  {
    var c, d := EncodeSegments(ss), EncodeSegments(Map(ss, SegmentBack));
    forall i | 0 <= i < |ss| ensures d.viewShareBp[i] == c.viewShareBp[i] && d.sellerRef[i] == c.sellerRef[i] {
      RoundTwice(Round(ss[i].viewSharePct * 100.0));
    }
    assert d.viewShareBp == c.viewShareBp && d.sellerRef == c.sellerRef
        && d.isSelf == c.isSelf && d.membership == c.membership;
  }

  /** The decoded snapshot has the same currency and basis. */
  lemma {:induction false} SameMoney(h: Header, s: Snapshot, front: Option<Storefront>, iso: string -> string)
    requires Encode(h, s, front).Answer?
    ensures var t := Decode(Encode(h, s, front).value, iso);
            CurrencyOf(t, front) == CurrencyOf(s, front) && BasisOf(t, front) == BasisOf(s, front)
  {
    OffersBack(h, s, front, iso);
  }

  /** The cells that always survive: amounts, flags, completeness. */
  lemma {:induction false} CellsAgain(h: Header, s: Snapshot, front: Option<Storefront>, iso: string -> string)
    requires Encode(h, s, front).Answer?
    ensures var row := Encode(h, s, front).value;
            var t := Decode(row, iso);
            && t.completeness == s.completeness && Amount(t.channelSuggestedPrice) == Amount(s.channelSuggestedPrice)
            && t.buybox == (if s.buybox.Some?
                            then Some(Buybox(MoneyOf(row, s.buybox.value.price.amountMinor), s.buybox.value.isSelf,
                                             OptMoney(row, BuyboxShipping(s)), Text(s.buybox.value.sellerRef)))
                            else None)
  {
  }

  lemma {:induction false} ShippingAgain(row: Row, s: Snapshot, t: Snapshot)
    requires |s.offers| == |t.offers| && forall i :: 0 <= i < |s.offers| ==>
               t.offers[i] == OfferBack(row, s.condition, s.offers[i])
    requires s.buybox.Some? <==> t.buybox.Some?
    requires s.buybox.Some? ==> t.buybox.value.shipping == OptMoney(row, BuyboxShipping(s))
    ensures BuyboxShipping(t) == BuyboxShipping(s)
  {
    WinnerBack(row, s.condition, s.offers, t.offers);
  }

  lemma {:induction false} OffersAgain(h: Header, s: Snapshot, front: Option<Storefront>, iso: string -> string)
    requires Encode(h, s, front).Answer?
    ensures var t := Decode(Encode(h, s, front).value, iso);
            && BuyboxShipping(t) == BuyboxShipping(s)
            && (EncodeOffers(t.offers, s.condition) == EncodeOffers(s.offers, s.condition) <==>
                forall o :: o in s.offers ==>
                    o.holdsBuyBox != Some(false) && (o.condition == Some("") ==> s.condition == ""))
            && EncodeSegments(SegmentsOf(t)) == EncodeSegments(SegmentsOf(s))
  {
    var row := Encode(h, s, front).value;
    var t := Decode(row, iso);
    OffersBack(h, s, front, iso);
    CellsAgain(h, s, front, iso);
    ShippingAgain(row, s, t);
    ColumnsAgain(row, s.condition, s.offers, t.offers);
    SegmentsBack(h, s, front, iso);
    SegmentsAgain(SegmentsOf(s));
  }

  /** A row is determined by the parts of its snapshot. */
  lemma {:induction false} RowsAgree(h: Header, s: Snapshot, t: Snapshot, front: Option<Storefront>)
    requires Encode(h, s, front).Answer?
    requires CurrencyOf(t, front) == CurrencyOf(s, front) && BasisOf(t, front) == BasisOf(s, front)
    requires t.marketplace == s.marketplace && t.channelProductRef == s.channelProductRef
               && t.condition == s.condition && t.source == s.source
    requires t.completeness == s.completeness && Amount(t.channelSuggestedPrice) == Amount(s.channelSuggestedPrice)
    requires s.buybox.Some? <==> t.buybox.Some?
    requires s.buybox.Some? ==>
               s.buybox.value.price.amountMinor == t.buybox.value.price.amountMinor
                   && s.buybox.value.isSelf == t.buybox.value.isSelf
    requires BuyboxShipping(t) == BuyboxShipping(s) && EncodeSegments(SegmentsOf(t)) == EncodeSegments(SegmentsOf(s))
    ensures Encode(h, t, front).Answer?
    ensures Encode(h, t, front).value == Encode(h, s, front).value <==>
            && t.observedAt == s.observedAt && t.sourceEventId == s.sourceEventId
            && (s.buybox.Some? ==> t.buybox.value.sellerRef == s.buybox.value.sellerRef)
            && EncodeOffers(t.offers, s.condition) == EncodeOffers(s.offers, s.condition)
  {
  }

  /**
   * Snapshot to row to snapshot is a retraction exactly for the snapshots of `Retracts`: encoding,
   * decoding and encoding again gives the same row if and only if they hold. In particular an offer
   * that the channel says does not hold the Buy Box is written `false` and comes back as unknown.
   */
  lemma {:induction false} EncodingAgain(h: Header, s: Snapshot, front: Option<Storefront>, iso: string -> string)
    requires Encode(h, s, front).Answer?
    ensures var row := Encode(h, s, front).value;
            && Encode(h, Decode(row, iso), front).Answer?
            && (Encode(h, Decode(row, iso), front).value == row <==> Retracts(s, iso))
  {
    var t := Decode(Encode(h, s, front).value, iso);
    SameMoney(h, s, front, iso);
    CellsAgain(h, s, front, iso);
    OffersAgain(h, s, front, iso);
    RowsAgree(h, s, t, front);
  }

  // ---------------------------------------------------------------- a normal form comes back unchanged

  /** An amount in the row's own currency and basis. */
  predicate Native(row: Row, m: Option<Money>) { m.Some? ==> m.value == MoneyOf(row, m.value.amountMinor) }

  predicate Known(s: Option<string>) { s != Some("") }

  predicate NormalOffer(row: Row, condition: string, o: Offer) {
    && Native(row, Some(o.price)) && Native(row, o.shipping) && Native(row, o.couponPrice)
    && o.totalPrice == (if o.shipping.None? then None
                        else Some(MoneyOf(row, o.price.amountMinor + o.shipping.value.amountMinor)))
    && Known(o.sellerRef) && Known(o.fulfillment) && Known(o.condition)
    && (o.condition.None? ==> condition == "")
    && o.deliveryDays.Some? && o.holdsBuyBox != Some(false)
    && (o.rating.Some? ==> Round(o.rating.value.positivePct) as real == o.rating.value.positivePct)
  }

  predicate NormalSegment(x: Segment) {
    Known(x.sellerRef) && Round(x.viewSharePct * 100.0) as real == x.viewSharePct * 100.0
  }

  /** One currency and basis, nothing empty where absence is meant, nothing finer than the columns hold. */
  predicate Normal(row: Row, s: Snapshot, iso: string -> string) {
    && iso(s.observedAt) == s.observedAt && Known(s.sourceEventId) && Native(row, s.channelSuggestedPrice)
    && (s.buybox.Some? ==>
          && Native(row, Some(s.buybox.value.price)) && Native(row, s.buybox.value.shipping)
               && Known(s.buybox.value.sellerRef)
          && (s.buybox.value.shipping.None? ==> BuyboxShipping(s).None?))
    && (forall o :: o in s.offers ==> NormalOffer(row, s.condition, o))
    && s.buyboxSegments != Some([]) && forall x :: x in SegmentsOf(s) ==> NormalSegment(x)
  }

  lemma {:induction false} OfferUnchanged(row: Row, condition: string, o: Offer)
    ensures OfferBack(row, condition, o) == o <==> NormalOffer(row, condition, o)
  {
    var b := OfferBack(row, condition, o);
    HoldsBack(o.holdsBuyBox);
    assert b.sellerRef == o.sellerRef <==> Known(o.sellerRef);
    assert b.fulfillment == o.fulfillment <==> Known(o.fulfillment);
    assert b.price == o.price <==> Native(row, Some(o.price));
    assert b.shipping == o.shipping <==> Native(row, o.shipping);
    assert b.couponPrice == o.couponPrice <==> Native(row, o.couponPrice);
    assert b.condition == o.condition <==> Known(o.condition) && (o.condition.None? ==> condition == "");
    if o.rating.Some? {
      assert b.rating == o.rating <==> Round(o.rating.value.positivePct) as real == o.rating.value.positivePct;
    }
  }

  lemma {:induction false} SegmentUnchanged(x: Segment)
    ensures SegmentBack(x) == x <==> NormalSegment(x)
  {
    var n := Round(x.viewSharePct * 100.0) as real;
    assert n / 100.0 == x.viewSharePct <==> n == x.viewSharePct * 100.0;
  }

  lemma {:induction false} OffersUnchanged(row: Row, condition: string, os: seq<Offer>, bs: seq<Offer>)
    requires |os| == |bs| && forall i :: 0 <= i < |os| ==> bs[i] == OfferBack(row, condition, os[i])
    ensures bs == os <==> forall o :: o in os ==> NormalOffer(row, condition, o)
  {
    forall i | 0 <= i < |os| ensures bs[i] == os[i] <==> NormalOffer(row, condition, os[i]) {
      OfferUnchanged(row, condition, os[i]);
    }
    assert forall i :: 0 <= i < |os| ==> os[i] in os;
  }

  lemma {:induction false} SegmentsUnchanged(ss: seq<Segment>)
    ensures Map(ss, SegmentBack) == ss <==> forall x :: x in ss ==> NormalSegment(x)
  {
    var back := Map(ss, SegmentBack);
    forall i | 0 <= i < |ss| ensures back[i] == ss[i] <==> NormalSegment(ss[i]) {
      SegmentUnchanged(ss[i]);
    }
    assert forall i :: 0 <= i < |ss| ==> ss[i] in ss;
  }

  lemma {:induction false} SegmentsMatch(s: Snapshot, t: Snapshot)
    requires t.buyboxSegments == if SegmentsOf(s) == [] then None else Some(Map(SegmentsOf(s), SegmentBack))
    ensures t.buyboxSegments == s.buyboxSegments <==>
              s.buyboxSegments != Some([]) && forall x :: x in SegmentsOf(s) ==> NormalSegment(x)
  {
    SegmentsUnchanged(SegmentsOf(s));
  }

  lemma {:induction false} BuyboxUnchanged(row: Row, s: Snapshot, t: Snapshot)
    requires row.buyboxShipping == BuyboxShipping(s)
    requires t.buybox == if s.buybox.Some?
                         then Some(Buybox(MoneyOf(row, s.buybox.value.price.amountMinor), s.buybox.value.isSelf,
                                          OptMoney(row, row.buyboxShipping), Text(s.buybox.value.sellerRef)))
                         else None
    ensures t.buybox == s.buybox <==> (s.buybox.Some? ==>
              && Native(row, Some(s.buybox.value.price)) && Native(row, s.buybox.value.shipping)
                   && Known(s.buybox.value.sellerRef)
              && (s.buybox.value.shipping.None? ==> BuyboxShipping(s).None?))
  {
  }

  /** A snapshot comes back unchanged if and only if it is in normal form. */
  lemma {:induction false} NormalFormsComeBack(h: Header, s: Snapshot, front: Option<Storefront>, iso: string -> string)
    requires Encode(h, s, front).Answer?
    ensures var row := Encode(h, s, front).value;
            Decode(row, iso) == s <==> Normal(row, s, iso)
  {
    var row := Encode(h, s, front).value;
    var t := Decode(row, iso);
    CellsAgain(h, s, front, iso);
    OffersBack(h, s, front, iso);
    SegmentsBack(h, s, front, iso);
    OffersUnchanged(row, s.condition, s.offers, t.offers);
    SegmentsMatch(s, t);
    BuyboxUnchanged(row, s, t);
    assert t.channelSuggestedPrice == s.channelSuggestedPrice <==> Native(row, s.channelSuggestedPrice);
  }
}
