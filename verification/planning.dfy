/** planAmazonDispatch (packages/amazon-adapter/src/planning.ts): versioned writes become batches. */
module Planning {
  import opened Common
  import opened ChannelPort
  import opened Sequences

  const MAX_QUANTITY := 1000000

  datatype Rejection = Rejection(id: string, code: ErrorCode)

  datatype Batch = Batch(items: seq<Write>, requestCount: nat)

  datatype Plan = Plan(batches: seq<Batch>, rejected: seq<Rejection>)

  /** What a write must be to be sent; the planner answers with the first requirement that fails. */
  predicate Acceptable(stores: Stores, account: Account, w: Write) {
    var store := StoreOf(stores, w.identity.marketplace);
    && FieldOf(w.value) == w.scopeField != CHANNEL_MIN_PRICE
    && SkuOf(w).Some?
    && store.Some?
    && w.identity.marketplace.value in account.marketplaces
    && account.region == Some(store.value.region)
    && w.identity.region in {None, Some(""), Some(store.value.region)}
    && (w.value.Price? ==>
          && w.value.currency == store.value.currency && w.value.basis == store.value.basis
          && SafeInteger(w.value.amountMinor) && w.value.amountMinor.n >= 1)
    && (w.value.Quantity? ==> SafeInteger(w.value.quantity) && 0 <= w.value.quantity.n <= MAX_QUANTITY)
  }

  /** `validate`, in the source's order of checks. */
  function Validate(stores: Stores, account: Account, w: Write): (error: Option<ErrorCode>)
    ensures error.None? <==> Acceptable(stores, account, w)
  {
    var marketplace := w.identity.marketplace;
    var store := StoreOf(stores, marketplace);
    if w.value.ChannelMinPrice? then Some(UNSUPPORTED)
    else if FieldOf(w.value) != w.scopeField then Some(VALIDATION)
    else if SkuOf(w).None? then Some(VALIDATION)
    else if store.None? then Some(VALIDATION)
    else if marketplace.value !in account.marketplaces then Some(PRECONDITION_FAILED)
    else if Some(store.value.region) != account.region then Some(PRECONDITION_FAILED)
    else if w.identity.region.Some? && w.identity.region.value != "" && w.identity.region.value != store.value.region
      then Some(VALIDATION)
    else if w.value.Price? then
      if w.value.currency != store.value.currency then Some(VALIDATION)
      else if w.value.basis != store.value.basis then Some(VALIDATION)
      else if !SafeInteger(w.value.amountMinor) || w.value.amountMinor.n < 1 then Some(VALIDATION)
      else None
    else if !SafeInteger(w.value.quantity) || w.value.quantity.n < 0
        || w.value.quantity.n > MAX_QUANTITY then Some(VALIDATION)
    else None
  }

  // ---------------------------------------------------------------- the four passes, on values

  function ValidOf(stores: Stores, account: Account, ws: seq<Write>): (r: seq<Write>) {
    if ws == [] then []
    else
      var w := ws[|ws| - 1];
      ValidOf(stores, account, ws[..|ws| - 1]) + if Validate(stores, account, w).None? then [w] else []
  }

  function InvalidOf(stores: Stores, account: Account, ws: seq<Write>): (r: seq<Rejection>) {
    if ws == [] then []
    else
      var w := ws[|ws| - 1];
      var error := Validate(stores, account, w);
      InvalidOf(stores, account, ws[..|ws| - 1]) + if error.Some? then [Rejection(w.id, error.value)] else []
  }

  /** The write a scope keeps: a later one replaces it only with a higher version. */
  function Newest(ws: seq<Write>, scope: string): (r: Option<Write>)
    ensures r.Some? ==> r.value in ws && r.value.scope == scope
    ensures r.None? <==> forall w :: w in ws ==> w.scope != scope
  {
    if ws == [] then None
    else
      var w, rest := ws[|ws| - 1], ws[..|ws| - 1];
      assert forall x :: x in ws <==> x == w || x in rest;
      var cur := Newest(rest, scope);
      if w.scope == scope && (cur.None? || w.version > cur.value.version) then Some(w) else cur
  }

  predicate IsNewest(valid: seq<Write>, w: Write) { Newest(valid, w.scope) == Some(w) }

  function SelectedOf(valid: seq<Write>, ws: seq<Write>): (r: seq<Write>) {
    if ws == [] then []
    else
      var w := ws[|ws| - 1];
      SelectedOf(valid, ws[..|ws| - 1]) + if IsNewest(valid, w) then [w] else []
  }

  /** Why a valid write that is not the newest of its scope is rejected. */
  function Superseded(valid: seq<Write>, w: Write): (code: ErrorCode) {
    var top := Newest(valid, w.scope);
    if top.Some? && top.value.version == w.version then DUPLICATE_ACTION else STALE_VERSION
  }

  function SupersededOf(valid: seq<Write>, ws: seq<Write>): (r: seq<Rejection>) {
    if ws == [] then []
    else
      var w := ws[|ws| - 1];
      SupersededOf(valid, ws[..|ws| - 1]) + if IsNewest(valid, w) then [] else [Rejection(w.id, Superseded(valid, w))]
  }

  predicate Taken(group: seq<Write>, w: Write) {
    exists g :: g in group && g.identity.marketplace == w.identity.marketplace
  }

  /** A write that goes alone: a quantity, or a price for a store that its SKU's group already prices. */
  predicate Alone(gs: seq<Group<Option<string>, Write>>, w: Write) {
    w.value.Quantity? || Taken(GroupFor(gs, SkuOf(w)), w)
  }

  function GroupsOf(ws: seq<Write>): (r: seq<Group<Option<string>, Write>>) {
    if ws == [] then []
    else
      var w, gs := ws[|ws| - 1], GroupsOf(ws[..|ws| - 1]);
      if Alone(gs, w) then gs else WithGroup(gs, SkuOf(w), GroupFor(gs, SkuOf(w)) + [w])
  }

  function SinglesOf(ws: seq<Write>): (r: seq<Batch>) {
    if ws == [] then []
    else
      var w, rest := ws[|ws| - 1], ws[..|ws| - 1];
      SinglesOf(rest) + if Alone(GroupsOf(rest), w) then [Batch([w], 2)] else []
  }

  function BatchesOf(gs: seq<Group<Option<string>, Write>>): (r: seq<Batch>) {
    if gs == [] then [] else BatchesOf(gs[..|gs| - 1]) + [Batch(gs[|gs| - 1].items, 2)]
  }

  function PlanOf(stores: Stores, account: Account, writes: seq<Write>): (plan: Plan) {
    var valid := ValidOf(stores, account, writes);
    var selected := SelectedOf(valid, valid);
    Plan(SinglesOf(selected) + BatchesOf(GroupsOf(selected)),
         InvalidOf(stores, account, writes) + SupersededOf(valid, valid))
  }

  // ---------------------------------------------------------------- the loops of the source

  method Screen(stores: Stores, account: Account, writes: seq<Write>)
    returns (valid: seq<Write>, rejected: seq<Rejection>)
    ensures valid == ValidOf(stores, account, writes) && rejected == InvalidOf(stores, account, writes)
  {
    valid, rejected := [], [];
    for i := 0 to |writes|
      invariant valid == ValidOf(stores, account, writes[..i]) && rejected == InvalidOf(stores, account, writes[..i])
    {
      assert writes[..i + 1][..i] == writes[..i];
      var error := Validate(stores, account, writes[i]);
      if error.Some? {
        rejected := rejected + [Rejection(writes[i].id, error.value)];
      } else {
        valid := valid + [writes[i]];
      }
    }
    assert writes[..|writes|] == writes;
  }

  /** The Map from each scope to its newest write. */
  ghost predicate IsNewestMap(newest: map<string, Write>, ws: seq<Write>) {
    && (forall s :: s in newest <==> Newest(ws, s).Some?)
    && (forall s :: s in newest ==> newest[s] == Newest(ws, s).value)
  }

  lemma {:induction false} NewestOfOneMore(ws: seq<Write>, w: Write, newest: map<string, Write>)
    requires IsNewestMap(newest, ws)
    ensures IsNewestMap(if w.scope !in newest || w.version > newest[w.scope].version then newest[w.scope := w]
                        else newest, ws + [w])
  {
    assert (ws + [w])[..|ws|] == ws;
  }

  method FindNewest(valid: seq<Write>) returns (newest: map<string, Write>)
    ensures IsNewestMap(newest, valid)
  {
    newest := map[];
    for i := 0 to |valid|
      invariant IsNewestMap(newest, valid[..i])
    {
      var w := valid[i];
      NewestOfOneMore(valid[..i], w, newest);
      assert valid[..i + 1] == valid[..i] + [w];
      if w.scope !in newest || w.version > newest[w.scope].version {
        newest := newest[w.scope := w];
      }
    }
    assert valid[..|valid|] == valid;
  }

  method Select(valid: seq<Write>) returns (selected: seq<Write>, rejected: seq<Rejection>)
    ensures selected == SelectedOf(valid, valid) && rejected == SupersededOf(valid, valid)
  {
    var newest := FindNewest(valid);
    selected, rejected := [], [];
    for i := 0 to |valid|
      invariant selected == SelectedOf(valid, valid[..i]) && rejected == SupersededOf(valid, valid[..i])
    {
      assert valid[..i + 1][..i] == valid[..i];
      var w := valid[i];
      assert w in valid && Newest(valid, w.scope).Some?;
      var top := newest[w.scope];
      if top == w {
        selected := selected + [w];
      } else {
        rejected := rejected + [Rejection(w.id, if top.version == w.version then DUPLICATE_ACTION else STALE_VERSION)];
      }
    }
    assert valid[..|valid|] == valid;
  }

  /** The third loop: quantities and colliding prices go alone, other prices join the group of their SKU. */
  method GroupPrices(selected: seq<Write>) returns (batches: seq<Batch>, groups: seq<Group<Option<string>, Write>>)
    ensures batches == SinglesOf(selected) && groups == GroupsOf(selected)
  {
    batches, groups := [], [];
    for i := 0 to |selected|
      invariant batches == SinglesOf(selected[..i]) && groups == GroupsOf(selected[..i])
    {
      assert selected[..i + 1][..i] == selected[..i];
      var w := selected[i];
      if w.value.Quantity? {
        batches := batches + [Batch([w], 2)];
      } else {
        var group := GroupFor(groups, SkuOf(w));
        if Taken(group, w) {
          batches := batches + [Batch([w], 2)];
        } else {
          groups := WithGroup(groups, SkuOf(w), group + [w]);
        }
      }
    }
    assert selected[..|selected|] == selected;
  }

  /** The last loop: the price groups become batches. */
  method PushGroups(batches: seq<Batch>, groups: seq<Group<Option<string>, Write>>) returns (r: seq<Batch>)
    ensures r == batches + BatchesOf(groups)
  {
    r := batches;
    for i := 0 to |groups|
      invariant r == batches + BatchesOf(groups[..i])
    {
      assert groups[..i + 1][..i] == groups[..i];
      r := r + [Batch(groups[i].items, 2)];
    }
    assert groups[..|groups|] == groups;
  }

  /** The planner. */
  method PlanDispatch(stores: Stores, account: Account, writes: seq<Write>) returns (plan: Plan)
    ensures plan == PlanOf(stores, account, writes)
  {
    var valid, rejected := Screen(stores, account, writes);
    var selected, superseded := Select(valid);
    var singles, groups := GroupPrices(selected);
    var batches := PushGroups(singles, groups);
    plan := Plan(batches, rejected + superseded);
  }

  // ---------------------------------------------------------------- the plan partitions its writes

  function ItemsOf(bs: seq<Batch>): (r: seq<Write>) {
    if bs == [] then [] else ItemsOf(bs[..|bs| - 1]) + bs[|bs| - 1].items
  }

  function RejectedById(id: string): (p: Rejection -> bool) { (r: Rejection) => r.id == id }

  lemma {:induction false} ItemsAppend(a: seq<Batch>, b: seq<Batch>)
    ensures ItemsOf(a + b) == ItemsOf(a) + ItemsOf(b)
  {
    if b == [] {
      assert a + b == a;
    } else {
      assert (a + b)[..|a + b| - 1] == a + b[..|b| - 1];
      ItemsAppend(a, b[..|b| - 1]);
    }
  }

  lemma {:induction false} CountOneMore(bs: seq<Batch>, b: Batch, p: Write -> bool)
    ensures Count(ItemsOf(bs + [b]), p) == Count(ItemsOf(bs), p) + Count(b.items, p)
  {
    assert (bs + [b])[..|bs|] == bs;
    CountAppend(ItemsOf(bs), b.items, p);
  }

  lemma {:induction false} ScreenPartitions(stores: Stores, account: Account, ws: seq<Write>, id: string)
    ensures Count(ValidOf(stores, account, ws), ById(id)) + Count(InvalidOf(stores, account, ws), RejectedById(id))
              == Count(ws, ById(id))
  {
    if ws != [] {
      var rest, w := ws[..|ws| - 1], ws[|ws| - 1];
      ScreenPartitions(stores, account, rest, id);
      var error := Validate(stores, account, w);
      CountAppend(ValidOf(stores, account, rest), if error.None? then [w] else [], ById(id));
      CountAppend(InvalidOf(stores, account, rest),
                  if error.Some? then [Rejection(w.id, error.value)] else [], RejectedById(id));
    }
  }

  lemma {:induction false} SelectPartitions(valid: seq<Write>, ws: seq<Write>, id: string)
    ensures Count(SelectedOf(valid, ws), ById(id)) + Count(SupersededOf(valid, ws), RejectedById(id))
              == Count(ws, ById(id))
  {
    if ws != [] {
      var rest, w := ws[..|ws| - 1], ws[|ws| - 1];
      SelectPartitions(valid, rest, id);
      CountAppend(SelectedOf(valid, rest), if IsNewest(valid, w) then [w] else [], ById(id));
      CountAppend(SupersededOf(valid, rest),
                  if IsNewest(valid, w) then [] else [Rejection(w.id, Superseded(valid, w))], RejectedById(id));
    }
  }

  lemma {:induction false} BatchesCount(gs: seq<Group<Option<string>, Write>>, p: Write -> bool)
    ensures Count(ItemsOf(BatchesOf(gs)), p) == GroupCount(gs, p)
  {
    if gs != [] {
      var rest, g := gs[..|gs| - 1], gs[|gs| - 1];
      BatchesCount(rest, p);
      CountOneMore(BatchesOf(rest), Batch(g.items, 2), p);
      assert rest + [g] == gs;
      GroupCountAppend(rest, g, p);
    }
  }

  /** The last write is planned once: alone or in its group. */
  lemma {:induction false} GroupingNext(ws: seq<Write>, p: Write -> bool)
    requires ws != []
    ensures var rest, w := ws[..|ws| - 1], ws[|ws| - 1];
            Count(ItemsOf(SinglesOf(ws)), p) + GroupCount(GroupsOf(ws), p)
            == Count(ItemsOf(SinglesOf(rest)), p) + GroupCount(GroupsOf(rest), p) + if p(w) then 1 else 0
  {
    var rest, w := ws[..|ws| - 1], ws[|ws| - 1];
    var gs := GroupsOf(rest);
    if Alone(gs, w) {
      CountOneMore(SinglesOf(rest), Batch([w], 2), p);
      assert [w][..0] == [];
    } else {
      WithGroupCounts(gs, SkuOf(w), w, p);
      assert SinglesOf(rest) + [] == SinglesOf(rest);
    }
  }

  lemma {:induction false} GroupingKeeps(ws: seq<Write>, p: Write -> bool)
    ensures Count(ItemsOf(SinglesOf(ws)), p) + GroupCount(GroupsOf(ws), p) == Count(ws, p)
  {
    if ws != [] {
      GroupingKeeps(ws[..|ws| - 1], p);
      GroupingNext(ws, p);
    }
  }

  /** Whatever is selected is planned, as often as it is selected. */
  lemma {:induction false} PlannedCount(stores: Stores, account: Account, writes: seq<Write>, p: Write -> bool)
    ensures var valid := ValidOf(stores, account, writes);
            Count(ItemsOf(PlanOf(stores, account, writes).batches), p) == Count(SelectedOf(valid, valid), p)
  {
    var valid := ValidOf(stores, account, writes);
    var selected := SelectedOf(valid, valid);
    ItemsAppend(SinglesOf(selected), BatchesOf(GroupsOf(selected)));
    CountAppend(ItemsOf(SinglesOf(selected)), ItemsOf(BatchesOf(GroupsOf(selected))), p);
    BatchesCount(GroupsOf(selected), p);
    GroupingKeeps(selected, p);
  }

  /**
   * The plan partitions its writes: each id lands in the batches and the rejections together exactly
   * as often as it was given, so a write with an id of its own lands exactly once.
   */
  lemma {:induction false} PlanPartitions(stores: Stores, account: Account, writes: seq<Write>, id: string)
    ensures var plan := PlanOf(stores, account, writes);
            Count(ItemsOf(plan.batches), ById(id)) + Count(plan.rejected, RejectedById(id)) == Count(writes, ById(id))
  {
    var valid := ValidOf(stores, account, writes);
    PlannedCount(stores, account, writes, ById(id));
    ScreenPartitions(stores, account, writes, id);
    SelectPartitions(valid, valid, id);
    CountAppend(InvalidOf(stores, account, writes), SupersededOf(valid, valid), RejectedById(id));
  }

  // ---------------------------------------------------------------- the newest version wins

  ghost predicate Distinct<T>(ts: seq<T>) { forall i, j :: 0 <= i < j < |ts| ==> ts[i] != ts[j] }

  lemma {:induction false} ValidIs(stores: Stores, account: Account, ws: seq<Write>, w: Write)
    ensures w in ValidOf(stores, account, ws) <==> w in ws && Acceptable(stores, account, w)
    ensures Distinct(ws) ==> Distinct(ValidOf(stores, account, ws))
  {
    if ws != [] {
      var rest, last := ws[..|ws| - 1], ws[|ws| - 1];
      assert ws == rest + [last];
      ValidIs(stores, account, rest, w);
      if Distinct(ws) {
        assert Distinct(rest) && last !in rest;
        ValidIs(stores, account, rest, last);
      }
    }
  }

  /** The write at `i` has the highest version of its scope, and stands before every other write of that version. */
  ghost predicate TopAt(ws: seq<Write>, scope: string, i: nat) {
    && i < |ws| && ws[i].scope == scope
    && (forall j :: 0 <= j < |ws| && ws[j].scope == scope ==> ws[j].version <= ws[i].version)
    && (forall j :: 0 <= j < i && ws[j].scope == scope ==> ws[j].version < ws[i].version)
  }

  lemma {:induction false} TopStays(ws: seq<Write>, w: Write, scope: string, i: nat)
    requires TopAt(ws, scope, i) && !(w.scope == scope && w.version > ws[i].version)
    ensures TopAt(ws + [w], scope, i)
  {
  }

  lemma {:induction false} TopMoves(ws: seq<Write>, w: Write, scope: string)
    requires w.scope == scope && forall v :: v in ws && v.scope == scope ==> v.version < w.version
    ensures TopAt(ws + [w], scope, |ws|)
  {
    assert forall j :: 0 <= j < |ws| ==> (ws + [w])[j] in ws;
  }

  lemma {:induction false} NewestIsHighest(ws: seq<Write>, scope: string) returns (i: nat)
    requires Newest(ws, scope).Some?
    ensures TopAt(ws, scope, i) && ws[i] == Newest(ws, scope).value
  {
    var rest, last := ws[..|ws| - 1], ws[|ws| - 1];
    assert ws == rest + [last];
    var cur := Newest(rest, scope);
    if cur.None? {
      TopMoves(rest, last, scope);
      i := |rest|;
    } else {
      i := NewestIsHighest(rest, scope);
      if last.scope == scope && last.version > cur.value.version {
        assert forall v :: v in rest && v.scope == scope ==> v.version <= rest[i].version;
        TopMoves(rest, last, scope);
        i := |rest|;
      } else {
        TopStays(rest, last, scope, i);
      }
    }
  }

  lemma {:induction false} SelectedCount(valid: seq<Write>, ws: seq<Write>, scope: string)
    requires Distinct(ws)
    ensures Count(SelectedOf(valid, ws), ByScope(scope))
            == if Newest(valid, scope).Some? && Newest(valid, scope).value in ws then 1 else 0
    ensures forall w :: w in SelectedOf(valid, ws) <==> w in ws && IsNewest(valid, w)
  {
    if ws != [] {
      var rest, w := ws[..|ws| - 1], ws[|ws| - 1];
      assert ws == rest + [w] && w !in rest;
      SelectedCount(valid, rest, scope);
      CountAppend(SelectedOf(valid, rest), if IsNewest(valid, w) then [w] else [], ByScope(scope));
      assert Count([w], ByScope(scope)) == if w.scope == scope then 1 else 0 by {
        assert [w][..0] == [];
      }
    }
  }

  /**
   * For pairwise distinct writes, each scope with a valid write has exactly one planned: a valid one
   * of the highest valid version, the first given among those of that version. A scope without a
   * valid write has none.
   */
  lemma {:induction false} NewestWins(stores: Stores, account: Account, writes: seq<Write>, scope: string)
    requires Distinct(writes)
    ensures var planned := ItemsOf(PlanOf(stores, account, writes).batches);
            && Count(planned, ByScope(scope))
                 == (if exists w :: w in writes && Acceptable(stores, account, w) && w.scope == scope then 1 else 0)
            && (forall w :: w in planned && w.scope == scope ==>
                  && w in writes && Acceptable(stores, account, w)
                  && (forall v :: v in writes && Acceptable(stores, account, v) && v.scope == scope ==>
                      v.version <= w.version)
                  && exists i: nat :: TopAt(ValidOf(stores, account, writes), scope, i)
                       && ValidOf(stores, account, writes)[i] == w)
  {
    var valid := ValidOf(stores, account, writes);
    var planned := ItemsOf(PlanOf(stores, account, writes).batches);
    forall w ensures w in valid <==> w in writes && Acceptable(stores, account, w) {
      ValidIs(stores, account, writes, w);
    }
    assert Distinct(valid) by {
      if valid != [] {
        ValidIs(stores, account, writes, valid[0]);
      }
    }
    SelectedCount(valid, valid, scope);
    PlannedCount(stores, account, writes, ByScope(scope));
    if Newest(valid, scope).Some? {
      var i := NewestIsHighest(valid, scope);
      assert TopAt(valid, scope, i) && valid[i] == Newest(valid, scope).value;
    }
    forall w | w in planned && w.scope == scope ensures IsNewest(valid, w) {
      var same: Write -> bool := x => x == w;
      PlannedCount(stores, account, writes, same);
      CountOne(planned, same);
      CountOne(SelectedOf(valid, valid), same);
    }
  }

  lemma {:induction false} InvalidAre(stores: Stores, account: Account, ws: seq<Write>, r: Rejection)
    ensures r in InvalidOf(stores, account, ws) <==>
            exists w :: w in ws && w.id == r.id && Validate(stores, account, w) == Some(r.code)
  {
    if ws != [] {
      var rest, w := ws[..|ws| - 1], ws[|ws| - 1];
      assert ws == rest + [w];
      InvalidAre(stores, account, rest, r);
    }
  }

  lemma {:induction false} SupersededAre(valid: seq<Write>, ws: seq<Write>, r: Rejection)
    ensures r in SupersededOf(valid, ws) <==>
            exists w :: w in ws && w.id == r.id && !IsNewest(valid, w) && Superseded(valid, w) == r.code
  {
    if ws != [] {
      var rest, w := ws[..|ws| - 1], ws[|ws| - 1];
      assert ws == rest + [w];
      SupersededAre(valid, rest, r);
    }
  }

  /** The write and the store it names fit together, but not the account: it serves other stores, or another region. */
  predicate WrongAccount(stores: Stores, account: Account, w: Write) {
    var store := StoreOf(stores, w.identity.marketplace);
    && FieldOf(w.value) == w.scopeField && SkuOf(w).Some? && store.Some?
    && (w.identity.marketplace.value !in account.marketplaces || account.region != Some(store.value.region))
  }

  /** Which error an invalid write gets: the channel minimum is unsupported, a wrong account comes next. */
  lemma {:induction false} ErrorsAre(stores: Stores, account: Account, w: Write)
    ensures var error := Validate(stores, account, w);
            && (error.None? <==> Acceptable(stores, account, w))
            && (error == Some(UNSUPPORTED) <==> w.value.ChannelMinPrice?)
            && (error == Some(PRECONDITION_FAILED) <==>
                  !w.value.ChannelMinPrice? && WrongAccount(stores, account, w))
            && (error.Some? ==> error.value in {UNSUPPORTED, PRECONDITION_FAILED, VALIDATION})
  {
  }

  /** A valid write that gives way to `top`, the first of the highest version of its scope. */
  predicate GivesWay(w: Write, top: Write, code: ErrorCode) {
    w != top && code == if top.version == w.version then DUPLICATE_ACTION else STALE_VERSION
  }

  lemma {:induction false} SupersededGivesWay(valid: seq<Write>, w: Write, code: ErrorCode)
    requires w in valid
    ensures !IsNewest(valid, w) && Superseded(valid, w) == code <==>
            exists i: nat :: TopAt(valid, w.scope, i) && GivesWay(w, valid[i], code)
  {
    var i := NewestIsHighest(valid, w.scope);
    forall j: nat | TopAt(valid, w.scope, j) ensures j == i {
    }
    assert TopAt(valid, w.scope, i) && Newest(valid, w.scope) == Some(valid[i]);
  }

  /**
   * The rejections are exactly the invalid writes with their errors, and the valid ones other than the
   * first of the highest version of their scope: a duplicate of the same version, or stale.
   */
  lemma {:induction false} RejectionReasons(stores: Stores, account: Account, writes: seq<Write>, r: Rejection)
    ensures var valid := ValidOf(stores, account, writes);
            r in PlanOf(stores, account, writes).rejected <==>
            || (exists w :: w in writes && w.id == r.id && Validate(stores, account, w) == Some(r.code))
            || (exists w, i: nat ::
                  w in valid && w.id == r.id && TopAt(valid, w.scope, i) && GivesWay(w, valid[i], r.code))
    ensures forall w :: w in ValidOf(stores, account, writes) <==> w in writes && Acceptable(stores, account, w)
  {
    var valid := ValidOf(stores, account, writes);
    forall w ensures w in valid <==> w in writes && Acceptable(stores, account, w) {
      ValidIs(stores, account, writes, w);
    }
    InvalidAre(stores, account, writes, r);
    SupersededAre(valid, valid, r);
    forall w | w in valid
      ensures !IsNewest(valid, w) && Superseded(valid, w) == r.code <==>
              exists i: nat :: TopAt(valid, w.scope, i) && GivesWay(w, valid[i], r.code)
    {
      SupersededGivesWay(valid, w, r.code);
    }
  }

  // ---------------------------------------------------------------- the shape of batches

  ghost predicate DistinctMarkets(ws: seq<Write>) {
    forall i, j :: 0 <= i < j < |ws| ==> ws[i].identity.marketplace != ws[j].identity.marketplace
  }

  /** One quantity, or the prices of one SKU in pairwise distinct stores; every item valid. */
  ghost predicate WellFormed(stores: Stores, account: Account, b: Batch) {
    && b.items != []
    && (forall w :: w in b.items ==> Acceptable(stores, account, w) && SkuOf(w) == SkuOf(b.items[0]))
    && (if b.items[0].value.Quantity? then |b.items| == 1
        else DistinctMarkets(b.items) && forall w :: w in b.items ==> w.value.Price?)
  }

  ghost predicate GroupOk(stores: Stores, account: Account, g: Group<Option<string>, Write>) {
    && WellFormed(stores, account, Batch(g.items, 2)) && g.items[0].value.Price? && SkuOf(g.items[0]) == g.key
  }

  lemma {:induction false} WithGroupOk(stores: Stores, account: Account, gs: seq<Group<Option<string>, Write>>,
          w: Write)
    requires forall g :: g in gs ==> GroupOk(stores, account, g)
    requires Acceptable(stores, account, w) && !Alone(gs, w)
    ensures forall g :: g in WithGroup(gs, SkuOf(w), GroupFor(gs, SkuOf(w)) + [w]) ==> GroupOk(stores, account, g)
  {
    if gs == [] {
      assert GroupOk(stores, account, Group(SkuOf(w), [] + [w]));
    } else if gs[0].key == SkuOf(w) {
      ExtendedGroup(stores, account, gs[0], w);
    } else {
      WithGroupOk(stores, account, gs[1..], w);
    }
  }

  lemma {:induction false} ExtendedGroup(stores: Stores, account: Account, g: Group<Option<string>, Write>, w: Write)
    requires GroupOk(stores, account, g) && g.key == SkuOf(w)
               && w.value.Price? && Acceptable(stores, account, w) && !Taken(g.items, w)
    ensures GroupOk(stores, account, Group(g.key, g.items + [w]))
  {
    var items := g.items + [w];
    assert items[0] == g.items[0];
    forall i, j | 0 <= i < j < |items| ensures items[i].identity.marketplace != items[j].identity.marketplace {
      if j == |g.items| {
        assert g.items[i] in g.items;
      }
    }
  }

  lemma {:induction false} GroupsOk(stores: Stores, account: Account, ws: seq<Write>)
    requires forall w :: w in ws ==> Acceptable(stores, account, w)
    ensures forall g :: g in GroupsOf(ws) ==> GroupOk(stores, account, g)
    ensures forall b :: b in SinglesOf(ws) ==> WellFormed(stores, account, b)
  {
    if ws != [] {
      var rest, w := ws[..|ws| - 1], ws[|ws| - 1];
      assert ws == rest + [w];
      GroupsOk(stores, account, rest);
      var gs := GroupsOf(rest);
      if Alone(gs, w) {
        assert Batch([w], 2).items[0] == w && forall v :: v in [w] ==> v == w;
        assert Acceptable(stores, account, w);
      } else {
        WithGroupOk(stores, account, gs, w);
      }
    }
  }

  lemma {:induction false} BatchesAre(gs: seq<Group<Option<string>, Write>>, b: Batch)
    requires b in BatchesOf(gs)
    ensures exists g :: g in gs && b == Batch(g.items, 2)
  {
    var rest, g := gs[..|gs| - 1], gs[|gs| - 1];
    assert gs == rest + [g];
    if b != Batch(g.items, 2) {
      BatchesAre(rest, b);
      var h :| h in rest && b == Batch(h.items, 2);
      assert h in gs;
    }
  }

  lemma {:induction false} SelectedAre(valid: seq<Write>, ws: seq<Write>)
    ensures forall w :: w in SelectedOf(valid, ws) ==> w in ws
  {
    if ws != [] {
      assert ws == ws[..|ws| - 1] + [ws[|ws| - 1]];
      SelectedAre(valid, ws[..|ws| - 1]);
    }
  }

  /** Every batch of every plan is well formed. */
  lemma {:induction false} BatchShape(stores: Stores, account: Account, writes: seq<Write>)
    ensures forall b :: b in PlanOf(stores, account, writes).batches ==>
              WellFormed(stores, account, b) && b.requestCount == 2
  {
    var valid := ValidOf(stores, account, writes);
    var selected := SelectedOf(valid, valid);
    SelectedAre(valid, valid);
    forall w | w in selected ensures Acceptable(stores, account, w) {
      ValidIs(stores, account, writes, w);
    }
    GroupsOk(stores, account, selected);
    SinglesCost(selected);
    forall b | b in BatchesOf(GroupsOf(selected)) ensures WellFormed(stores, account, b) && b.requestCount == 2 {
      BatchesAre(GroupsOf(selected), b);
    }
  }

  lemma {:induction false} SinglesCost(ws: seq<Write>)
    ensures forall b :: b in SinglesOf(ws) ==> b.requestCount == 2
  {
    if ws != [] {
      SinglesCost(ws[..|ws| - 1]);
    }
  }

  lemma {:induction false} FitsIn(ws: seq<Write>, names: set<string>)
    requires DistinctMarkets(ws) && forall w :: w in ws ==>
               w.identity.marketplace.Some? && w.identity.marketplace.value in names
    ensures |ws| <= |names|
  {
    if ws != [] {
      var rest, w := ws[..|ws| - 1], ws[|ws| - 1];
      assert ws == rest + [w];
      var others := names - {w.identity.marketplace.value};
      assert forall v :: v in rest ==> v.identity.marketplace != w.identity.marketplace;
      FitsIn(rest, others);
      assert |others| == |names| - 1;
    }
  }

  /**
   * A batch never holds more writes than its account's region has stores, hence never more than the
   * declared batch size (packages/amazon-adapter/src/descriptor.ts:63), the number of all stores.
   */
  lemma {:induction false} BatchSize(stores: Stores, account: Account, b: Batch)
    requires WellFormed(stores, account, b)
    ensures var here := set m | m in stores && account.region == Some(stores[m].region);
            1 <= |b.items| <= |here| <= |stores|
  {
    var here := set m | m in stores && account.region == Some(stores[m].region);
    if b.items[0].value.Quantity? {
      assert b.items == [b.items[0]];
      assert DistinctMarkets(b.items);
    }
    FitsIn(b.items, here);
    SubsetSize(here, stores.Keys);
  }

  lemma {:induction false} SubsetSize(a: set<string>, b: set<string>)
    requires a <= b
    ensures |a| <= |b|
  {
    if a != {} {
      var x :| x in a;
      SubsetSize(a - {x}, b - {x});
    }
  }

  /** With the stores of Release 1.0, one for each region, every batch holds exactly one write. */
  lemma {:induction false} ReleaseBatchesHoldOne(account: Account, writes: seq<Write>)
    ensures forall b :: b in PlanOf(RELEASE, account, writes).batches ==> |b.items| == 1
  {
    BatchShape(RELEASE, account, writes);
    forall b | b in PlanOf(RELEASE, account, writes).batches ensures |b.items| == 1 {
      BatchSize(RELEASE, account, b);
      var here := set m | m in RELEASE && account.region == Some(RELEASE[m].region);
      var one := if account.region == Some("EU") then "A1PA6795UKMFR9" else "ATVPDKIKX0DER";
      SubsetSize(here, {one});
    }
  }
}
