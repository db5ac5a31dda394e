/**
What an upgrade means for each item of the subscription, in terms of the plans and the
request alone. The predicates here describe billing a second time, independently of the
functions the handler is built from.
*/
module PlanTerms {
  import opened Options
  import opened PlanDiff
  import opened PlanDiffEffects
  import opened PlanUpgrade

  // ----- what a plan bills -----

  predicate Given(p: Option<string>) {
    p != None && p != Some("")
  }

  /** Seats follow the member count. */
  predicate ManagedSeats(plan: Plan, req: Request) {
    req.organization && Given(plan.seatPriceId)
  }

  predicate Metered(plan: Plan, req: Request) {
    plan.metered || (req.resolved.Some? && req.resolved.value.metered)
  }

  /** The price to bill: what Stripe resolved, or the first given of the prices for the interval, or the plain price. */
  predicate BaseIsPriced(price: Option<string>, plan: Plan, req: Request) {
    if req.resolved.Some? && Given(req.resolved.value.id) then price == req.resolved.value.id
    else
      var preferred := if req.annual then [plan.annualDiscountPriceId, plan.annualPriceId] else [];
      || (exists k :: 0 <= k < |preferred| && Given(preferred[k]) && price == preferred[k] && forall j :: 0 <= j < k ==> !Given(preferred[j]))
      || ((forall k :: 0 <= k < |preferred| ==> !Given(preferred[k])) && price == plan.priceId)
  }

  /** No quantity for usage-based billing, one under managed seats, else the seats asked for, at least one of them. */
  predicate BaseIsCounted(quantity: Option<int>, plan: Plan, req: Request) {
    && (Metered(plan, req) <==> quantity == None)
    && (!Metered(plan, req) && ManagedSeats(plan, req) ==> quantity == Some(1))
    && (!Metered(plan, req) && !ManagedSeats(plan, req) && req.seats !in {None, Some(0)} ==> quantity == req.seats)
    && (!Metered(plan, req) && !ManagedSeats(plan, req) && req.seats in {None, Some(0)} ==> quantity == Some(1))
  }

  /** The items of a plan: a base item unless it is seat-only, a seat item for managed seats, and its lines. */
  lemma {:induction false} PlanItemsAre(plan: Plan, req: Request)
    ensures var items, n := PlanItems(plan, req), |PlanItems(plan, req)| - |plan.lines|;
            && (n == 1 || n == 2) && items[n..] == plan.lines
            && (n == 2 <==> ManagedSeats(plan, req) && plan.seatPriceId != plan.priceId)
            && (ManagedSeats(plan, req) ==> items[n - 1] == PhaseItem(plan.seatPriceId, Some(req.memberCount)))
            && (!(ManagedSeats(plan, req) && plan.seatPriceId == plan.priceId) ==>
                  BaseIsPriced(items[0].price, plan, req) && BaseIsCounted(items[0].quantity, plan, req))
  {
    BasePriceIs(plan, req);
    BaseQuantityIs(plan, req);
  }

  lemma {:induction false} BasePriceIs(plan: Plan, req: Request)
    ensures BaseIsPriced(BasePrice(plan, req), plan, req)
  {
    if !(req.resolved.Some? && Given(req.resolved.value.id)) && req.annual {
      var preferred := [plan.annualDiscountPriceId, plan.annualPriceId];
      if Given(preferred[0]) {
        assert BasePrice(plan, req) == preferred[0];
      } else if Given(preferred[1]) {
        assert BasePrice(plan, req) == preferred[1];
      }
    }
  }

  lemma {:induction false} BaseQuantityIs(plan: Plan, req: Request)
    ensures BaseIsCounted(BaseQuantity(plan, req), plan, req)
  {
  }

  // ----- which item is the plan's -----

  /** A plan is recognised by any of its prices, or by one of its lookup keys. */
  predicate Recognises(plan: Plan, item: Item) {
    || item.price in {plan.priceId, plan.annualPriceId, plan.annualDiscountPriceId}
    || (Given(item.lookupKey) && item.lookupKey in {plan.lookupKey, plan.annualDiscountLookupKey})
  }

  predicate RecognisedBySome(plans: seq<Plan>, item: Item) {
    exists k :: 0 <= k < |plans| && Recognises(plans[k], item)
  }

  /** Item `i` is the first that some plan recognises; an only item needs no plan. */
  predicate IsPlanItem(plans: seq<Plan>, items: seq<Item>, i: nat)
    requires i < |items|
  {
    || (RecognisedBySome(plans, items[i]) && forall j :: 0 <= j < i ==> !RecognisedBySome(plans, items[j]))
    || |items| == 1
  }

  lemma {:induction false} SameRecognition(plans: seq<Plan>, item: Item)
    ensures MatchesSome(plans, item) <==> RecognisedBySome(plans, item)
  {
    forall k | 0 <= k < |plans| ensures Matches(plans[k], item) <==> Recognises(plans[k], item) {}
  }

  lemma {:induction false} PlanItemIsBase(plans: seq<Plan>, items: seq<Item>, i: nat)
    requires i < |items| && IsPlanItem(plans, items, i)
    ensures BaseOf(plans, items) == items[i].price
  {
    forall j | 0 <= j < |items| { SameRecognition(plans, items[j]); }
    var r := ResolvePlanItem(plans, items);
    assert r.Some? && r.value.index == i;
  }

  // ----- what becomes of each item -----

  function LinesOf(plan: Plan, p: Option<string>): nat {
    Count(PhasePrices(plan.lines), p)
  }

  /** How many items of price `p` the old plan bills as lines beyond those of the new one. */
  function Surplus(prev: Option<Plan>, plan: Plan, p: Option<string>): int {
    if prev.None? || p.None? then 0 else LinesOf(prev.value, p) - LinesOf(plan, p)
  }

  /** Item `i` is among the surplus copies of its price. */
  predicate IsSurplus(prev: Option<Plan>, plan: Plan, items: seq<Item>, i: nat)
    requires i < |items|
  {
    Count(ItemPrices(items)[..i], items[i].price) < Surplus(prev, plan, items[i].price)
  }

  /** `p` is the old plan's seat price, and the new plan has another one. */
  predicate IsLeftSeat(prev: Option<Plan>, plan: Plan, req: Request, p: Option<string>) {
    ManagedSeats(plan, req) && prev.Some? && Given(p) && p == prev.value.seatPriceId && p != plan.seatPriceId
  }

  lemma {:induction false} SurplusIsRemoved(c: Change, plans: seq<Plan>, prev: Option<Plan>, plan: Plan, req: Request, items: seq<Item>, i: nat)
    requires IsUpgrade(c, plans, prev, plan, req, items) && i < |items|
    ensures VerdictAt(c, ItemPrices(items), i) == Remove <==> IsSurplus(prev, plan, items, i)
  {
    var p := items[i].price;
    if p.Some? { assert AtOr(c.delta, p.value, 0) == Difference(PhasePrices(OldLines(prev)), PhasePrices(plan.lines), p.value); }
  }

  lemma {:induction false} LeftSeatIsSwapped(c: Change, plans: seq<Plan>, prev: Option<Plan>, plan: Plan, req: Request, items: seq<Item>,
                                             p: Option<string>)
    requires IsUpgrade(c, plans, prev, plan, req, items)
    ensures IsOldSeat(c, p) <==> IsLeftSeat(prev, plan, req, p)
    ensures IsOldSeat(c, p) ==> c.seat.value.newPrice == plan.seatPriceId.value && c.seat.value.quantity == req.memberCount
  {
  }

  /** What Stripe makes of item `i` when it applies the immediate updates. */
  function Becomes(c: Change, items: seq<Item>, i: nat): seq<PhaseItem>
    requires i < |items|
  {
    ApplyToItem(items[i], ImmediateSpec(c, items))
  }

  /** A surplus copy of a line item is deleted; nothing else is. */
  lemma {:induction false} OnlySurplusGoes(c: Change, plans: seq<Plan>, prev: Option<Plan>, plan: Plan, req: Request, items: seq<Item>, i: nat)
    requires IsUpgrade(c, plans, prev, plan, req, items) && DistinctIds(items) && i < |items|
    ensures Becomes(c, items, i) == [] <==> IsSurplus(prev, plan, items, i)
  {
    SurplusIsRemoved(c, plans, prev, plan, req, items, i);
    ApplyEdit(c, items, i);
    assert PhasePrices(WithoutIds(items)) == ItemPrices(items);
  }

  /** The old seat item becomes the new one, with the member count. */
  lemma {:induction false} SeatItemBecomes(c: Change, plans: seq<Plan>, prev: Option<Plan>, plan: Plan, req: Request, items: seq<Item>, i: nat)
    requires IsUpgrade(c, plans, prev, plan, req, items) && DistinctIds(items) && i < |items|
    requires !IsSurplus(prev, plan, items, i) && IsLeftSeat(prev, plan, req, items[i].price)
    ensures Becomes(c, items, i) == [PhaseItem(plan.seatPriceId, Some(req.memberCount))]
  {
    SurplusIsRemoved(c, plans, prev, plan, req, items, i);
    LeftSeatIsSwapped(c, plans, prev, plan, req, items, items[i].price);
    ApplyEdit(c, items, i);
    assert PhasePrices(WithoutIds(items)) == ItemPrices(items);
  }

  lemma {:induction false} PlanItemIsRewritten(c: Change, plans: seq<Plan>, prev: Option<Plan>, plan: Plan, req: Request, items: seq<Item>,
                                               i: nat)
    requires IsUpgrade(c, plans, prev, plan, req, items) && i < |items| && IsPlanItem(plans, items, i)
    requires !IsSurplus(prev, plan, items, i) && !IsLeftSeat(prev, plan, req, items[i].price)
    ensures VerdictAt(c, ItemPrices(items), i) == SwapBase
  {
    SurplusIsRemoved(c, plans, prev, plan, req, items, i);
    LeftSeatIsSwapped(c, plans, prev, plan, req, items, items[i].price);
    PlanItemIsBase(plans, items, i);
  }

  lemma {:induction false} RewrittenBecomes(c: Change, items: seq<Item>, i: nat)
    requires DistinctIds(items) && i < |items| && VerdictAt(c, ItemPrices(items), i) == SwapBase
    ensures Becomes(c, items, i) == [PhaseItem(c.newBase, c.baseQuantity)]
  {
    ApplyEdit(c, items, i);
    assert PhasePrices(WithoutIds(items)) == ItemPrices(items);
  }

  /**
  Main result: the item the old plan is recognised by becomes the base item of the new plan,
  with the price for the interval and the quantity for the seats asked for. For a seat-only
  plan its price is the seat price.
  */
  lemma {:induction false} BaseItemBecomes(c: Change, plans: seq<Plan>, prev: Option<Plan>, plan: Plan, req: Request, items: seq<Item>, i: nat)
    requires IsUpgrade(c, plans, prev, plan, req, items) && DistinctIds(items) && i < |items|
    requires IsPlanItem(plans, items, i)
    requires !IsSurplus(prev, plan, items, i) && !IsLeftSeat(prev, plan, req, items[i].price)
    ensures |Becomes(c, items, i)| == 1 && BaseIsCounted(Becomes(c, items, i)[0].quantity, plan, req)
    ensures if ManagedSeats(plan, req) && plan.seatPriceId == plan.priceId then Becomes(c, items, i)[0].price == plan.seatPriceId
            else BaseIsPriced(Becomes(c, items, i)[0].price, plan, req)
  {
    PlanItemIsRewritten(c, plans, prev, plan, req, items, i);
    RewrittenBecomes(c, items, i);
    BasePriceIs(plan, req);
    BaseQuantityIs(plan, req);
  }

  /** An item in none of these roles. */
  predicate IsOther(plans: seq<Plan>, prev: Option<Plan>, plan: Plan, req: Request, items: seq<Item>, base: nat, i: nat)
    requires base < |items| && i < |items|
  {
    && IsPlanItem(plans, items, base) && items[i].price != items[base].price
    && !IsSurplus(prev, plan, items, i) && !IsLeftSeat(prev, plan, req, items[i].price)
  }

  lemma {:induction false} OtherIsKept(c: Change, plans: seq<Plan>, prev: Option<Plan>, plan: Plan, req: Request, items: seq<Item>,
                                       base: nat, i: nat)
    requires IsUpgrade(c, plans, prev, plan, req, items) && base < |items| && i < |items|
    requires IsOther(plans, prev, plan, req, items, base, i)
    ensures VerdictAt(c, ItemPrices(items), i) == Keep
  {
    SurplusIsRemoved(c, plans, prev, plan, req, items, i);
    LeftSeatIsSwapped(c, plans, prev, plan, req, items, items[i].price);
    PlanItemIsBase(plans, items, base);
  }

  lemma {:induction false} KeptIsUntouched(c: Change, items: seq<Item>, i: nat)
    requires DistinctIds(items) && i < |items| && VerdictAt(c, ItemPrices(items), i) == Keep
    ensures Find(ImmediateSpec(c, items), items[i].id) == None
  {
    FindInSpec(c, items, i);
  }

  /** An item in none of these roles is not mentioned in the updates at all, and stays as it is. */
  lemma {:induction false} OtherItemIsUntouched(c: Change, plans: seq<Plan>, prev: Option<Plan>, plan: Plan, req: Request, items: seq<Item>,
                                                base: nat, i: nat)
    requires IsUpgrade(c, plans, prev, plan, req, items) && DistinctIds(items) && base < |items| && i < |items|
    requires IsOther(plans, prev, plan, req, items, base, i)
    ensures Find(ImmediateSpec(c, items), items[i].id) == None
    ensures Becomes(c, items, i) == [PhaseItem(items[i].price, items[i].quantity)]
  {
    OtherIsKept(c, plans, prev, plan, req, items, base, i);
    KeptIsUntouched(c, items, i);
  }
}
