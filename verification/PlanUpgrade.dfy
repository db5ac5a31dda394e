/**
Plans, the item a plan is recognised by, and the change that an upgrade prepares.
*/
module PlanUpgrade {
  import opened Options
  import opened PlanDiff
  import opened PlanDiffEffects

  /** `lines` are the plan's extra line items; one whose price is not a price id has price None. */
  datatype Plan = Plan(
    priceId: Option<string>,
    annualPriceId: Option<string>,
    annualDiscountPriceId: Option<string>,
    lookupKey: Option<string>,
    annualDiscountLookupKey: Option<string>,
    seatPriceId: Option<string>,
    metered: bool,
    lines: seq<PhaseItem>)

  datatype StripePrice = StripePrice(id: Option<string>, metered: bool)

  /** The request, with what Stripe and the member table answered. */
  datatype Request = Request(
    annual: bool,
    organization: bool,
    seats: Option<int>,
    memberCount: int,
    resolved: Option<StripePrice>)

  // ----- the item a plan is recognised by -----

  predicate Matches(plan: Plan, item: Item) {
    || plan.priceId == item.price
    || plan.annualPriceId == item.price
    || plan.annualDiscountPriceId == item.price
    || (Truthy(item.lookupKey) && (plan.lookupKey == item.lookupKey || plan.annualDiscountLookupKey == item.lookupKey))
  }

  predicate MatchesSome(plans: seq<Plan>, item: Item) {
    exists k :: 0 <= k < |plans| && Matches(plans[k], item)
  }

  datatype PlanItem = PlanItem(index: nat, plan: Option<Plan>)

  function FirstPlan(plans: seq<Plan>, item: Item): (plan: Plan)
    requires MatchesSome(plans, item)
    ensures exists k :: 0 <= k < |plans| && plans[k] == plan && Matches(plan, item) &&
                        forall j :: 0 <= j < k ==> !Matches(plans[j], item)
  {
    if Matches(plans[0], item) then plans[0]
    else
      assert MatchesSome(plans[1..], item) by {
        var k :| 0 <= k < |plans| && Matches(plans[k], item);
        assert plans[1..][k - 1] == plans[k];
      }
      var plan := FirstPlan(plans[1..], item);
      assert exists k :: 0 <= k < |plans| && plans[k] == plan && Matches(plan, item) &&
                         forall j :: 0 <= j < k ==> !Matches(plans[j], item) by {
        var k :| 0 <= k < |plans[1..]| && plans[1..][k] == plan && Matches(plan, item) &&
                 forall j :: 0 <= j < k ==> !Matches(plans[1..][j], item);
        forall j | 0 <= j < k + 1 ensures !Matches(plans[j], item) {
          if j > 0 { assert plans[1..][j - 1] == plans[j]; }
        }
        assert plans[k + 1] == plan;
      }
      plan
  }

  function Scan(plans: seq<Plan>, items: seq<Item>, i: nat): (r: Option<PlanItem>)
    requires i <= |items|
    ensures r.Some? ==> i <= r.value.index < |items| && MatchesSome(plans, items[r.value.index])
                        && r.value.plan == Some(FirstPlan(plans, items[r.value.index]))
    ensures forall j :: i <= j < (if r.Some? then r.value.index else |items|) ==> !MatchesSome(plans, items[j])
    decreases |items| - i
  {
    if i == |items| then None
    else if MatchesSome(plans, items[i]) then Some(PlanItem(i, Some(FirstPlan(plans, items[i]))))
    else Scan(plans, items, i + 1)
  }

  /** The first item that matches a plan; failing that, the item of a one-item subscription. */
  function ResolvePlanItem(plans: seq<Plan>, items: seq<Item>): (r: Option<PlanItem>)
    ensures r.Some? ==> r.value.index < |items|
    ensures r.Some? && r.value.plan.Some? ==> MatchesSome(plans, items[r.value.index]) &&
                                              r.value.plan.value == FirstPlan(plans, items[r.value.index])
    ensures r.Some? && r.value.plan.Some? ==> forall j :: 0 <= j < r.value.index ==> !MatchesSome(plans, items[j])
    ensures r.Some? && r.value.plan.None? ==> |items| == 1
    ensures r.None? ==> |items| != 1 && forall j :: 0 <= j < |items| ==> !MatchesSome(plans, items[j])
  {
    var r := Scan(plans, items, 0);
    if r.Some? then r
    else if |items| == 1 then Some(PlanItem(0, None))
    else None
  }

  // ----- the new plan's items -----

  function PlanPriceId(plan: Plan, annual: bool): Option<string> {
    if !annual then plan.priceId
    else if Truthy(plan.annualDiscountPriceId) then plan.annualDiscountPriceId
    else if Truthy(plan.annualPriceId) then plan.annualPriceId
    else plan.priceId
  }

  predicate HasSeat(plan: Plan, req: Request) {
    Truthy(plan.seatPriceId) && req.organization
  }

  predicate IsMetered(plan: Plan, req: Request) {
    plan.metered || (req.resolved.Some? && req.resolved.value.metered)
  }

  function BaseQuantity(plan: Plan, req: Request): Option<int> {
    if IsMetered(plan, req) then None
    else if HasSeat(plan, req) then Some(1)
    else if req.seats.Some? && req.seats.value != 0 then req.seats
    else Some(1)
  }

  predicate IsSeatOnly(plan: Plan, req: Request) {
    HasSeat(plan, req) && plan.seatPriceId == plan.priceId
  }

  function BasePrice(plan: Plan, req: Request): Option<string> {
    if req.resolved.Some? && Truthy(req.resolved.value.id) then req.resolved.value.id
    else PlanPriceId(plan, req.annual)
  }

  /** Base and seat items only: the plan's extra lines follow them verbatim. */
  function LeadingItems(plan: Plan, req: Request): (r: seq<PhaseItem>)
    ensures r != []
  {
    (if IsSeatOnly(plan, req) then [] else [PhaseItem(BasePrice(plan, req), BaseQuantity(plan, req))]) +
    (if HasSeat(plan, req) then [PhaseItem(plan.seatPriceId, Some(req.memberCount))] else [])
  }

  function PlanItems(plan: Plan, req: Request): seq<PhaseItem> {
    LeadingItems(plan, req) + plan.lines
  }

  // ----- the upgrade -----

  function OldLines(prev: Option<Plan>): seq<PhaseItem> {
    if prev.Some? then prev.value.lines else []
  }

  function SeatChange(prev: Option<Plan>, plan: Plan, req: Request): Option<SeatSwap> {
    if HasSeat(plan, req) && prev.Some? && Truthy(prev.value.seatPriceId) && prev.value.seatPriceId != plan.seatPriceId
    then Some(SeatSwap(prev.value.seatPriceId.value, plan.seatPriceId.value, req.memberCount))
    else None
  }

  function BaseOf(plans: seq<Plan>, items: seq<Item>): Option<string> {
    var r := ResolvePlanItem(plans, items);
    if r.Some? then items[r.value.index].price else None
  }

  /** The change the handler prepares before it branches. */
  ghost predicate IsUpgrade(c: Change, plans: seq<Plan>, prev: Option<Plan>, plan: Plan, req: Request, items: seq<Item>) {
    && c.base == BaseOf(plans, items)
    && c.newBase == LeadingItems(plan, req)[0].price
    && c.baseQuantity == BaseQuantity(plan, req)
    && c.seat == SeatChange(prev, plan, req)
    && c.order == FirstSeen(PhasePrices(OldLines(prev)) + PhasePrices(plan.lines))
    && IsDelta(PhasePrices(OldLines(prev)), PhasePrices(plan.lines), c.order, c.delta)
  }

  method Upgrade(plans: seq<Plan>, prev: Option<Plan>, plan: Plan, req: Request, items: seq<Item>)
    returns (c: Change, updates: seq<Update>)
    ensures IsUpgrade(c, plans, prev, plan, req, items)
    ensures updates == ImmediateSpec(c, items)
  {
    var order, delta := BuildDelta(PhasePrices(OldLines(prev)), PhasePrices(plan.lines));
    c := Change(BaseOf(plans, items), LeadingItems(plan, req)[0].price, BaseQuantity(plan, req),
                SeatChange(prev, plan, req), order, delta);
    updates := ImmediateUpdates(c, items);
  }
}
