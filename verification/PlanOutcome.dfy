/**
What an upgrade leaves of a subscription that was built from the old plan: the new plan's
items, with their quantities, exactly under a condition on the two plans and what is held.
*/
module PlanOutcome {
  import opened Options
  import opened PlanDiff
  import opened PlanDiffEffects
  import opened PlanUpgrade

  // ----- items up to their order -----

  /** The same elements equally often, in whatever order. */
  ghost predicate SameItems<T(!new)>(a: seq<T>, b: seq<T>) {
    forall x :: Count(a, x) == Count(b, x)
  }

  lemma {:induction false} SameAsMultisets<T(!new)>(a: seq<T>, b: seq<T>)
    ensures SameItems(a, b) <==> multiset(a) == multiset(b)
  {
    forall x ensures Count(a, x) == multiset(a)[x] && Count(b, x) == multiset(b)[x] {
      CountIsMultiplicity(a, x);
      CountIsMultiplicity(b, x);
    }
    if SameItems(a, b) {
      forall x ensures multiset(a)[x] == multiset(b)[x] {
        assert Count(a, x) == Count(b, x);
      }
      assert multiset(a) == multiset(b);
    }
  }

  lemma {:induction false} SameLength<T(!new)>(a: seq<T>, b: seq<T>)
    requires SameItems(a, b)
    ensures |a| == |b|
  {
    SameAsMultisets(a, b);
    assert |multiset(a)| == |a| && |multiset(b)| == |b|;
  }

  lemma {:induction false} CountedIffIn<T>(s: seq<T>, x: T)
    ensures Count(s, x) > 0 <==> x in s
  {
    CountIsMultiplicity(s, x);
  }

  lemma {:induction false} QuantitiesConcat(a: seq<PhaseItem>, b: seq<PhaseItem>, p: Option<string>)
    ensures QuantitiesAt(a + b, p) == QuantitiesAt(a, p) + QuantitiesAt(b, p)
  {
    if b == [] {
      assert a + b == a;
    } else {
      QuantitiesConcat(a, b[..|b| - 1], p);
      assert (a + b)[..|a + b| - 1] == a + b[..|b| - 1];
    }
  }

  lemma {:induction false} QuantitiesSize(items: seq<PhaseItem>, p: Option<string>)
    ensures |QuantitiesAt(items, p)| == Count(PhasePrices(items), p)
  {
    QuantitiesLength(items, |items|, p);
    assert items[..|items|] == items && PhasePrices(items)[..|items|] == PhasePrices(items);
  }

  lemma {:induction false} SameQuantities(a: seq<PhaseItem>, b: seq<PhaseItem>, p: Option<string>)
    requires SameItems(a, b)
    ensures SameItems(QuantitiesAt(a, p), QuantitiesAt(b, p))
  {
    forall q: Option<int> ensures Count(QuantitiesAt(a, p), q) == Count(QuantitiesAt(b, p), q) {
      CountByQuantity(a, PhaseItem(p, q));
      CountByQuantity(b, PhaseItem(p, q));
    }
  }

  // ----- a subscription built from a plan -----

  /** Base and seat are two items, not one. */
  predicate SeatBeside(plan: Plan, req: Request) {
    HasSeat(plan, req) && !IsSeatOnly(plan, req)
  }

  /**
  What a subscription built from a plan holds: the item of the base price (of the seat price
  for a plan that is seat-only), the seat item, the line items, and items of no plan.
  Quantities may have changed since.
  */
  datatype Holding = Holding(
    base: string,
    baseQuantity: Option<int>,
    seatQuantity: Option<int>,
    lines: seq<PhaseItem>,
    others: seq<PhaseItem>)

  function HeldLead(prev: Plan, req: Request, h: Holding): seq<PhaseItem> {
    [PhaseItem(Some(h.base), h.baseQuantity)] +
    if SeatBeside(prev, req) then [PhaseItem(prev.seatPriceId, h.seatQuantity)] else []
  }

  ghost predicate BuiltFrom(items: seq<Item>, prev: Plan, req: Request, h: Holding) {
    && SameItems(WithoutIds(items), HeldLead(prev, req, h) + (h.lines + h.others))
    && SameItems(PhasePrices(h.lines), PhasePrices(prev.lines))
    && (IsSeatOnly(prev, req) ==> prev.seatPriceId == Some(h.base))
  }

  /** `p` is the price of no line item and of no unrelated item. */
  predicate OneRole(p: Option<string>, prev: Plan, plan: Plan, h: Holding) {
    && Count(PhasePrices(prev.lines), p) == 0
    && Count(PhasePrices(plan.lines), p) == 0
    && Count(PhasePrices(h.others), p) == 0
  }

  /** Base and seat price of the old plan play one role each, and the plan item found is the base item. */
  predicate RolesApart(plans: seq<Plan>, prev: Plan, plan: Plan, req: Request, items: seq<Item>, h: Holding) {
    && BaseOf(plans, items) == Some(h.base)
    && OneRole(Some(h.base), prev, plan, h)
    && (SeatBeside(prev, req) ==> prev.seatPriceId != Some(h.base) && OneRole(prev.seatPriceId, prev, plan, h))
  }

  /** What the main result is about: an upgrade of a subscription that was built from `prev`. */
  ghost predicate Upgrades(c: Change, plans: seq<Plan>, prev: Plan, plan: Plan, req: Request, items: seq<Item>, h: Holding) {
    && IsUpgrade(c, plans, Some(prev), plan, req, items) && DistinctIds(items)
    && BuiltFrom(items, prev, req, h) && RolesApart(plans, prev, plan, req, items, h)
  }

  /** The subscription has exactly the new plan's items, quantities included, and the unrelated ones. */
  ghost predicate YieldsItems(after: seq<PhaseItem>, plan: Plan, req: Request, h: Holding) {
    SameItems(after, PlanItems(plan, req) + h.others)
  }

  // ----- the condition -----

  predicate SeatSwapped(prev: Plan, plan: Plan, req: Request) {
    HasSeat(prev, req) && prev.seatPriceId != plan.seatPriceId
  }

  /**
  Whether base and seat come out right. Without a seat in the new plan, the old plan must not
  have a seat item of its own. A seat-only plan turns the old base item into the seat item,
  and gives it the member count only when the seat price is swapped. A seat beside the base
  must have been there, and an unchanged seat price keeps its quantity.
  */
  predicate LeadMatches(prev: Plan, plan: Plan, req: Request, h: Holding) {
    if !HasSeat(plan, req) then !SeatBeside(prev, req)
    else if IsSeatOnly(plan, req) then
      !SeatBeside(prev, req) && (SeatSwapped(prev, plan, req) || BaseQuantity(plan, req) == Some(req.memberCount))
    else
      SeatBeside(prev, req) && (SeatSwapped(prev, plan, req) || h.seatQuantity == Some(req.memberCount))
  }

  /** How many more items of price `p` the new plan lists. */
  function Growth(prev: Plan, plan: Plan, p: Option<string>): int {
    if p.Some? then Difference(PhasePrices(prev.lines), PhasePrices(plan.lines), p.value) else 0
  }

  /**
  Whether the line items of one price come out right, by their quantities: those `held`, those
  of the plan's `lines` and of `others`. A price the new plan has `d` more of must not be on
  the subscription, and is added without a quantity. Of any other price the first `-d` copies
  are removed, and the rest must have the quantities wanted already.
  */
  ghost predicate Fits(held: seq<Option<int>>, d: int, lines: seq<Option<int>>, others: seq<Option<int>>) {
    if d > 0 then held == [] && forall q :: q in lines ==> q == None
    else SameItems(Dropped(held, -d), lines + others)
  }

  ghost predicate LineFits(items: seq<Item>, prev: Plan, plan: Plan, h: Holding, p: Option<string>) {
    Fits(QuantitiesAt(WithoutIds(items), p), Growth(prev, plan, p), QuantitiesAt(plan.lines, p), QuantitiesAt(h.others, p))
  }

  ghost predicate LinesFit(items: seq<Item>, prev: Plan, plan: Plan, h: Holding) {
    forall p :: p in PhasePrices(prev.lines) + PhasePrices(plan.lines) ==> LineFits(items, prev, plan, h, p)
  }

  // ----- the leading items -----

  /** The items that stand in the place of the old base and seat items after the change. */
  function GainedLead(c: Change, prev: Plan, req: Request, h: Holding): seq<PhaseItem> {
    (if IsOldSeat(c, c.base) then [] else [PhaseItem(c.newBase, c.baseQuantity)]) +
    if c.seat.Some? then [PhaseItem(Some(c.seat.value.newPrice), Some(c.seat.value.quantity))]
    else if SeatBeside(prev, req) then [PhaseItem(prev.seatPriceId, h.seatQuantity)] else []
  }

  lemma {:induction false} SamePair<T(!new)>(x: T, y: T, z: T)
    ensures SameItems([x, y], [x, z]) <==> y == z
  {
    CountConcat([x], [y], y);
    CountConcat([x], [z], y);
    assert [x, y] == [x] + [y] && [x, z] == [x] + [z];
    OneCount(y, y);
    OneCount(z, y);
  }

  lemma {:induction false} SameSingle<T(!new)>(x: T, y: T)
    ensures SameItems([x], [y]) <==> x == y
  {
    OneCount(x, x);
    OneCount(y, x);
  }

  /** The seat item as the change leaves it, whether it was rewritten or kept. */
  function SeatAfter(prev: Plan, plan: Plan, req: Request, h: Holding): PhaseItem {
    if HasSeat(plan, req) && SeatSwapped(prev, plan, req) then PhaseItem(plan.seatPriceId, Some(req.memberCount))
    else PhaseItem(prev.seatPriceId, h.seatQuantity)
  }

  lemma {:induction false} GainedShape(c: Change, plans: seq<Plan>, prev: Plan, plan: Plan, req: Request, items: seq<Item>, h: Holding)
    requires Upgrades(c, plans, prev, plan, req, items, h)
    ensures var base := PhaseItem(LeadingItems(plan, req)[0].price, BaseQuantity(plan, req));
            GainedLead(c, prev, req, h) ==
              if SeatBeside(prev, req) then [base, SeatAfter(prev, plan, req, h)]
              else if IsSeatOnly(prev, req) && HasSeat(plan, req) && SeatSwapped(prev, plan, req) then [SeatAfter(prev, plan, req, h)]
              else [base]
  {
    assert c.seat.Some? <==> HasSeat(plan, req) && SeatSwapped(prev, plan, req);
    assert IsOldSeat(c, c.base) <==> c.seat.Some? && IsSeatOnly(prev, req);
  }

  lemma {:induction false} SameShort<T(!new)>(a: seq<T>, b: seq<T>)
    requires 1 <= |a| <= 2 && 1 <= |b| <= 2
    requires |a| == |b| == 2 ==> a[0] == b[0]
    ensures SameItems(a, b) <==> a == b
  {
    if |a| != |b| {
      if SameItems(a, b) { SameLength(a, b); }
    } else if |a| == 1 {
      SameSingle(a[0], b[0]);
      assert a == [a[0]] && b == [b[0]];
    } else {
      SamePair(a[0], a[1], b[1]);
      assert a == [a[0], a[1]] && b == [a[0], b[1]];
    }
  }

  lemma {:induction false} EqualLead(c: Change, plans: seq<Plan>, prev: Plan, plan: Plan, req: Request, items: seq<Item>, h: Holding)
    requires Upgrades(c, plans, prev, plan, req, items, h)
    ensures GainedLead(c, prev, req, h) == LeadingItems(plan, req) <==> LeadMatches(prev, plan, req, h)
  {
    var gained, wanted := GainedLead(c, prev, req, h), LeadingItems(plan, req);
    GainedShape(c, plans, prev, plan, req, items, h);
    if |gained| == |wanted| == 1 {
      assert gained == wanted <==> gained[0] == wanted[0];
    } else if |gained| == |wanted| == 2 {
      assert gained == wanted <==> gained[1] == wanted[1];
    }
  }

  lemma {:induction false} LeadExactly(c: Change, plans: seq<Plan>, prev: Plan, plan: Plan, req: Request, items: seq<Item>, h: Holding)
    requires Upgrades(c, plans, prev, plan, req, items, h)
    ensures SameItems(GainedLead(c, prev, req, h), LeadingItems(plan, req)) <==> LeadMatches(prev, plan, req, h)
  {
    GainedShape(c, plans, prev, plan, req, items, h);
    SameShort(GainedLead(c, prev, req, h), LeadingItems(plan, req));
    EqualLead(c, plans, prev, plan, req, items, h);
  }

  predicate IsHeldLead(prev: Plan, req: Request, h: Holding, p: Option<string>) {
    p == Some(h.base) || (SeatBeside(prev, req) && p == prev.seatPriceId)
  }

  /** The quantities on the subscription come from the parts it was built from. */
  lemma {:induction false} HeldQuantities(items: seq<Item>, prev: Plan, req: Request, h: Holding, p: Option<string>)
    requires BuiltFrom(items, prev, req, h)
    ensures SameItems(QuantitiesAt(WithoutIds(items), p),
                      QuantitiesAt(HeldLead(prev, req, h), p) + (QuantitiesAt(h.lines, p) + QuantitiesAt(h.others, p)))
    ensures |QuantitiesAt(h.lines, p)| == Count(PhasePrices(prev.lines), p)
    ensures |QuantitiesAt(h.others, p)| == Count(PhasePrices(h.others), p)
    ensures |QuantitiesAt(WithoutIds(items), p)| == Count(ItemPrices(items), p)
  {
    SameQuantities(WithoutIds(items), HeldLead(prev, req, h) + (h.lines + h.others), p);
    QuantitiesConcat(HeldLead(prev, req, h), h.lines + h.others, p);
    QuantitiesConcat(h.lines, h.others, p);
    QuantitiesSize(h.lines, p);
    QuantitiesSize(h.others, p);
    QuantitiesSize(WithoutIds(items), p);
  }

  lemma {:induction false} QuantitiesOfOne(x: PhaseItem, p: Option<string>)
    ensures QuantitiesAt([x], p) == if x.price == p then [x.quantity] else []
  {
    assert [x][..0] == [];
  }

  lemma {:induction false} LeadQuantities(prev: Plan, req: Request, h: Holding, p: Option<string>)
    ensures QuantitiesAt(HeldLead(prev, req, h), p) ==
      (if p == Some(h.base) then [h.baseQuantity] else []) +
      if SeatBeside(prev, req) && p == prev.seatPriceId then [h.seatQuantity] else []
  {
    var base, seat := PhaseItem(Some(h.base), h.baseQuantity), PhaseItem(prev.seatPriceId, h.seatQuantity);
    QuantitiesOfOne(base, p);
    if SeatBeside(prev, req) {
      QuantitiesOfOne(seat, p);
      QuantitiesConcat([base], [seat], p);
    } else {
      assert HeldLead(prev, req, h) == [base] + [];
      assert [base] + [] == [base];
    }
  }

  lemma {:induction false} OnlyFirst<T(!new)>(held: seq<T>, first: seq<T>, second: seq<T>, third: seq<T>)
    requires SameItems(held, first + (second + third)) && |second| == 0 && |third| == 0
    ensures SameItems(held, first) && |held| == |first|
  {
    assert first + (second + third) == first;
    SameLength(held, first);
  }

  lemma {:induction false} OnlyLast<T(!new)>(held: seq<T>, first: seq<T>, second: seq<T>, third: seq<T>)
    requires SameItems(held, first + (second + third)) && |first| == 0 && |second| == 0
    ensures SameItems(held, third)
  {
    assert first + (second + third) == third;
  }

  function LeadQuantity(h: Holding, p: Option<string>): Option<int> {
    if p == Some(h.base) then h.baseQuantity else h.seatQuantity
  }

  lemma {:induction false} OneLeadQuantity(prev: Plan, req: Request, h: Holding, p: Option<string>)
    requires IsHeldLead(prev, req, h, p) && (SeatBeside(prev, req) ==> prev.seatPriceId != Some(h.base))
    ensures QuantitiesAt(HeldLead(prev, req, h), p) == [LeadQuantity(h, p)]
  {
    LeadQuantities(prev, req, h, p);
  }

  lemma {:induction false} OneRoleHeld(items: seq<Item>, prev: Plan, plan: Plan, req: Request, h: Holding, p: Option<string>)
    requires BuiltFrom(items, prev, req, h) && OneRole(p, prev, plan, h)
    ensures SameItems(QuantitiesAt(WithoutIds(items), p), QuantitiesAt(HeldLead(prev, req, h), p))
    ensures Count(ItemPrices(items), p) == |QuantitiesAt(HeldLead(prev, req, h), p)|
  {
    HeldQuantities(items, prev, req, h, p);
    OnlyFirst(QuantitiesAt(WithoutIds(items), p), QuantitiesAt(HeldLead(prev, req, h), p),
              QuantitiesAt(h.lines, p), QuantitiesAt(h.others, p));
  }

  /** A base or seat price of the old plan is on exactly one item. */
  lemma {:induction false} LeadHeldOnce(plans: seq<Plan>, prev: Plan, plan: Plan, req: Request, items: seq<Item>, h: Holding, p: Option<string>)
    requires BuiltFrom(items, prev, req, h) && RolesApart(plans, prev, plan, req, items, h) && IsHeldLead(prev, req, h, p)
    ensures SameItems(QuantitiesAt(WithoutIds(items), p), [LeadQuantity(h, p)])
    ensures Count(ItemPrices(items), p) == 1
  {
    OneRoleHeld(items, prev, plan, req, h, p);
    OneLeadQuantity(prev, req, h, p);
  }

  lemma {:induction false} LeadNotInDelta(c: Change, plans: seq<Plan>, prev: Plan, plan: Plan, req: Request, items: seq<Item>, h: Holding,
                                          p: Option<string>)
    requires Upgrades(c, plans, prev, plan, req, items, h) && IsHeldLead(prev, req, h, p)
    ensures Quota(c, p) == 0 && AddedAt(c, ItemPrices(items), p) == 0
  {
    if p.Some? {
      assert Difference(PhasePrices(prev.lines), PhasePrices(plan.lines), p.value) == 0;
    }
  }

  /** The line part of what ends with price `p`. */
  function LinePart(c: Change, prev: Plan, req: Request, items: seq<Item>, h: Holding, p: Option<string>): seq<Option<int>> {
    if IsHeldLead(prev, req, h, p) then [] else FinalQuantities(c, WithoutIds(items), p)
  }

  /** What the leading items turn into, whatever becomes of the lines. */
  lemma {:induction false} RewrittenLead(c: Change, plans: seq<Plan>, prev: Plan, plan: Plan, req: Request, items: seq<Item>, h: Holding,
                                         x: PhaseItem)
    requires Upgrades(c, plans, prev, plan, req, items, h)
    ensures RewrittenItems(c, ItemPrices(items), |items|, x)
         == (if x == PhaseItem(c.newBase, c.baseQuantity) && !IsOldSeat(c, c.base) then 1 else 0)
            + if c.seat.Some? && x == PhaseItem(Some(c.seat.value.newPrice), Some(c.seat.value.quantity)) then 1 else 0
  {
    assert ItemPrices(items)[..|items|] == ItemPrices(items);
    LeadHeldOnce(plans, prev, plan, req, items, h, Some(h.base));
    LeadNotInDelta(c, plans, prev, plan, req, items, h, Some(h.base));
    if c.seat.Some? {
      assert IsHeldLead(prev, req, h, prev.seatPriceId);
      LeadHeldOnce(plans, prev, plan, req, items, h, prev.seatPriceId);
      LeadNotInDelta(c, plans, prev, plan, req, items, h, prev.seatPriceId);
    }
  }

  lemma {:induction false} StayingLead(c: Change, plans: seq<Plan>, prev: Plan, plan: Plan, req: Request, items: seq<Item>, h: Holding,
                                       x: PhaseItem)
    requires Upgrades(c, plans, prev, plan, req, items, h)
    ensures Count(FinalQuantities(c, WithoutIds(items), x.price), x.quantity)
         == Count(LinePart(c, prev, req, items, h, x.price), x.quantity)
            + if c.seat.None? && SeatBeside(prev, req) && x == PhaseItem(prev.seatPriceId, h.seatQuantity) then 1 else 0
  {
    if IsHeldLead(prev, req, h, x.price) {
      var bare := WithoutIds(items);
      LeadHeldOnce(plans, prev, plan, req, items, h, x.price);
      LeadNotInDelta(c, plans, prev, plan, req, items, h, x.price);
      assert bare[..|items|] == bare && NoQuantities(0) == [];
      if IsRewritten(c, x.price) {
        assert FinalQuantities(c, bare, x.price) == [];
      } else {
        assert FinalQuantities(c, bare, x.price) == QuantitiesAt(bare, x.price);
        OneCount(h.seatQuantity, x.quantity);
      }
    }
  }

  lemma {:induction false} GainedCount(c: Change, prev: Plan, req: Request, h: Holding, x: PhaseItem)
    ensures Count(GainedLead(c, prev, req, h), x)
         == (if x == PhaseItem(c.newBase, c.baseQuantity) && !IsOldSeat(c, c.base) then 1 else 0)
            + (if c.seat.Some? && x == PhaseItem(Some(c.seat.value.newPrice), Some(c.seat.value.quantity)) then 1 else 0)
            + if c.seat.None? && SeatBeside(prev, req) && x == PhaseItem(prev.seatPriceId, h.seatQuantity) then 1 else 0
  {
    var base := if IsOldSeat(c, c.base) then [] else [PhaseItem(c.newBase, c.baseQuantity)];
    var seat := if c.seat.Some? then [PhaseItem(Some(c.seat.value.newPrice), Some(c.seat.value.quantity))]
                else if SeatBeside(prev, req) then [PhaseItem(prev.seatPriceId, h.seatQuantity)] else [];
    CountConcat(base, seat, x);
    if base != [] { OneCount(base[0], x); }
    if seat != [] { OneCount(seat[0], x); }
  }

  /** After the change every item is a leading item or one of the line part of its price. */
  lemma {:induction false} EveryItem(c: Change, plans: seq<Plan>, prev: Plan, plan: Plan, req: Request, items: seq<Item>, h: Holding,
                                     x: PhaseItem)
    requires Upgrades(c, plans, prev, plan, req, items, h)
    ensures Count(Apply(items, ImmediateSpec(c, items)), x)
         == Count(GainedLead(c, prev, req, h), x) + Count(LinePart(c, prev, req, items, h, x.price), x.quantity)
  {
    ImmediateItemCount(c, items, x);
    RewrittenLead(c, plans, prev, plan, req, items, h, x);
    StayingLead(c, plans, prev, plan, req, items, h, x);
    GainedCount(c, prev, req, h, x);
  }

  // ----- the line items -----

  /** The quantities that price `p` should end with, base and seat items apart. */
  function Wanted(plan: Plan, h: Holding, p: Option<string>): seq<Option<int>> {
    QuantitiesAt(plan.lines, p) + QuantitiesAt(h.others, p)
  }

  lemma {:induction false} WantedCount(plan: Plan, req: Request, h: Holding, x: PhaseItem)
    ensures Count(PlanItems(plan, req) + h.others, x)
         == Count(LeadingItems(plan, req), x) + Count(Wanted(plan, h, x.price), x.quantity)
  {
    CountConcat(PlanItems(plan, req), h.others, x);
    CountConcat(LeadingItems(plan, req), plan.lines, x);
    CountByQuantity(plan.lines, x);
    CountByQuantity(h.others, x);
    CountConcat(QuantitiesAt(plan.lines, x.price), QuantitiesAt(h.others, x.price), x.quantity);
  }

  lemma {:induction false} OneRoleWantsNothing(prev: Plan, plan: Plan, h: Holding, p: Option<string>)
    requires OneRole(p, prev, plan, h)
    ensures Wanted(plan, h, p) == []
  {
    QuantitiesSize(plan.lines, p);
    QuantitiesSize(h.others, p);
  }

  /** What the loop makes of the quantities of a price: the first `-d` go, or what is missing of `d` comes. */
  function Edited(held: seq<Option<int>>, d: int): seq<Option<int>> {
    if d > 0 then held + NoQuantities(Max(d - |held|, 0)) else Dropped(held, -d)
  }

  lemma {:induction false} NoLeadNoRewrite(c: Change, plans: seq<Plan>, prev: Plan, plan: Plan, req: Request, items: seq<Item>, h: Holding,
                                           p: Option<string>)
    requires Upgrades(c, plans, prev, plan, req, items, h) && !IsHeldLead(prev, req, h, p)
    ensures !IsRewritten(c, p)
  {
  }

  lemma {:induction false} QuotaIsGrowth(c: Change, prev: Plan, plan: Plan, p: Option<string>)
    requires IsDelta(PhasePrices(prev.lines), PhasePrices(plan.lines), c.order, c.delta)
    ensures Quota(c, p) == Max(-Growth(prev, plan, p), 0)
  {
    if p.Some? { assert AtOr(c.delta, p.value, 0) == Growth(prev, plan, p); }
  }

  lemma {:induction false} AddedIsGrowth(c: Change, prev: Plan, plan: Plan, prices: seq<Option<string>>, p: Option<string>)
    requires IsDelta(PhasePrices(prev.lines), PhasePrices(plan.lines), c.order, c.delta) && !IsRewritten(c, p)
    ensures var d := Growth(prev, plan, p); AddedAt(c, prices, p) == if d > 0 then Max(d - Count(prices, p), 0) else 0
  {
    assert prices[..|prices|] == prices;
    if p.Some? { assert AtOr(c.delta, p.value, 0) == Growth(prev, plan, p); }
    QuotaIsGrowth(c, prev, plan, p);
    KeptCount(c, prices, |prices|, p);
  }

  /** What the loop does to a price that is no base or seat price of the old plan. */
  lemma {:induction false} LinePartIs(c: Change, prev: Plan, plan: Plan, req: Request, items: seq<Item>, h: Holding, p: Option<string>)
    requires IsDelta(PhasePrices(prev.lines), PhasePrices(plan.lines), c.order, c.delta)
    requires !IsRewritten(c, p) && !IsHeldLead(prev, req, h, p)
    ensures LinePart(c, prev, req, items, h, p) == Edited(QuantitiesAt(WithoutIds(items), p), Growth(prev, plan, p))
  {
    var bare := WithoutIds(items);
    QuotaIsGrowth(c, prev, plan, p);
    AddedIsGrowth(c, prev, plan, PhasePrices(bare), p);
    QuantitiesSize(bare, p);
    FinalIsEdited(c, bare, p, Growth(prev, plan, p));
  }

  lemma {:induction false} FinalIsEdited(c: Change, items: seq<PhaseItem>, p: Option<string>, d: int)
    requires !IsRewritten(c, p) && Quota(c, p) == Max(-d, 0)
    requires AddedAt(c, PhasePrices(items), p) == if d > 0 then Max(d - |QuantitiesAt(items, p)|, 0) else 0
    ensures FinalQuantities(c, items, p) == Edited(QuantitiesAt(items, p), d)
  {
    assert items[..|items|] == items;
    if d <= 0 { assert Dropped(QuantitiesAt(items, p), -d) + NoQuantities(0) == Dropped(QuantitiesAt(items, p), -d); }
  }

  lemma {:induction false} HeldSize(items: seq<Item>, prev: Plan, plan: Plan, req: Request, h: Holding, p: Option<string>)
    requires BuiltFrom(items, prev, req, h) && !IsHeldLead(prev, req, h, p)
    ensures |QuantitiesAt(WithoutIds(items), p)| == Count(PhasePrices(prev.lines), p) + |QuantitiesAt(h.others, p)|
    ensures |QuantitiesAt(plan.lines, p)| == Count(PhasePrices(plan.lines), p)
  {
    HeldQuantities(items, prev, req, h, p);
    LeadQuantities(prev, req, h, p);
    SameLength(QuantitiesAt(WithoutIds(items), p),
               QuantitiesAt(HeldLead(prev, req, h), p) + (QuantitiesAt(h.lines, p) + QuantitiesAt(h.others, p)));
    QuantitiesSize(plan.lines, p);
  }

  lemma {:induction false} AllNone(s: seq<Option<int>>, n: nat)
    requires |s| == n
    ensures SameItems(NoQuantities(n), s) <==> forall q :: q in s ==> q == None
  {
    if forall q :: q in s ==> q == None {
      forall i | 0 <= i < n ensures s[i] == None {
        assert s[i] in s;
      }
      assert NoQuantities(n) == s;
    }
    if SameItems(NoQuantities(n), s) {
      forall q | q in s ensures q == None {
        CountedIffIn(s, q);
        NoQuantitiesCount(n, q);
      }
    }
  }

  lemma {:induction false} EditedExactly(held: seq<Option<int>>, d: int, lines: seq<Option<int>>, others: seq<Option<int>>, before: nat)
    requires |held| == before + |others| && (d > 0 ==> |lines| == before + d)
    ensures SameItems(Edited(held, d), lines + others) <==> Fits(held, d, lines, others)
  {
    if d > 0 {
      if SameItems(Edited(held, d), lines + others) {
        SameLength(Edited(held, d), lines + others);
      }
      if held == [] {
        assert held + NoQuantities(d) == NoQuantities(d) && lines + others == lines;
        AllNone(lines, d);
      }
    }
  }

  /** The line part of a price comes out right exactly under the stated condition. */
  lemma {:induction false} LineExactly(c: Change, plans: seq<Plan>, prev: Plan, plan: Plan, req: Request, items: seq<Item>, h: Holding,
                                       p: Option<string>)
    requires Upgrades(c, plans, prev, plan, req, items, h) && !IsHeldLead(prev, req, h, p)
    ensures SameItems(LinePart(c, prev, req, items, h, p), Wanted(plan, h, p)) <==> LineFits(items, prev, plan, h, p)
  {
    NoLeadNoRewrite(c, plans, prev, plan, req, items, h, p);
    LinePartIs(c, prev, plan, req, items, h, p);
    HeldSize(items, prev, plan, req, h, p);
    EditedExactly(QuantitiesAt(WithoutIds(items), p), Growth(prev, plan, p), QuantitiesAt(plan.lines, p), QuantitiesAt(h.others, p),
                  Count(PhasePrices(prev.lines), p));
  }

  lemma {:induction false} NothingEdited(held: seq<Option<int>>, lines: seq<Option<int>>, others: seq<Option<int>>)
    requires SameItems(held, others) && |lines| == 0
    ensures Fits(held, 0, lines, others)
  {
    assert lines + others == others && Dropped(held, 0) == held;
  }

  /** A price on no line of either plan needs no condition. */
  lemma {:induction false} NoLineFits(items: seq<Item>, prev: Plan, plan: Plan, req: Request, h: Holding, p: Option<string>)
    requires BuiltFrom(items, prev, req, h) && !IsHeldLead(prev, req, h, p)
    requires Count(PhasePrices(prev.lines), p) == 0 && Count(PhasePrices(plan.lines), p) == 0
    ensures LineFits(items, prev, plan, h, p)
  {
    HeldQuantities(items, prev, req, h, p);
    LeadQuantities(prev, req, h, p);
    QuantitiesSize(plan.lines, p);
    OnlyLast(QuantitiesAt(WithoutIds(items), p), QuantitiesAt(HeldLead(prev, req, h), p),
             QuantitiesAt(h.lines, p), QuantitiesAt(h.others, p));
    NothingEdited(QuantitiesAt(WithoutIds(items), p), QuantitiesAt(plan.lines, p), QuantitiesAt(h.others, p));
  }

  /** With all lines in order, the line part of every price is as wanted. */
  lemma {:induction false} LinePartWanted(c: Change, plans: seq<Plan>, prev: Plan, plan: Plan, req: Request, items: seq<Item>, h: Holding,
                                          p: Option<string>)
    requires Upgrades(c, plans, prev, plan, req, items, h)
    requires OneRole(p, prev, plan, h) || LinesFit(items, prev, plan, h)
    ensures SameItems(LinePart(c, prev, req, items, h, p), Wanted(plan, h, p))
  {
    if IsHeldLead(prev, req, h, p) {
      OneRoleWantsNothing(prev, plan, h, p);
    } else {
      LineExactly(c, plans, prev, plan, req, items, h, p);
      CountedIffIn(PhasePrices(prev.lines), p);
      CountedIffIn(PhasePrices(plan.lines), p);
      if p !in PhasePrices(prev.lines) + PhasePrices(plan.lines) {
        NoLineFits(items, prev, plan, req, h, p);
      }
    }
  }

  // ----- the main result -----

  /** The base and seat prices of the new plan play one role each. */
  predicate NewLeadApart(prev: Plan, plan: Plan, req: Request, h: Holding) {
    forall x :: x in LeadingItems(plan, req) ==> OneRole(x.price, prev, plan, h)
  }

  lemma {:induction false} MismatchAt(c: Change, plans: seq<Plan>, prev: Plan, plan: Plan, req: Request, items: seq<Item>, h: Holding,
                                      x: PhaseItem)
    requires Upgrades(c, plans, prev, plan, req, items, h) && OneRole(x.price, prev, plan, h)
    requires Count(GainedLead(c, prev, req, h), x) != Count(LeadingItems(plan, req), x)
    ensures Count(Apply(items, ImmediateSpec(c, items)), x) != Count(PlanItems(plan, req) + h.others, x)
  {
    EveryItem(c, plans, prev, plan, req, items, h, x);
    WantedCount(plan, req, h, x);
    LinePartWanted(c, plans, prev, plan, req, items, h, x.price);
  }

  lemma {:induction false} LeadMismatchShows(c: Change, plans: seq<Plan>, prev: Plan, plan: Plan, req: Request, items: seq<Item>, h: Holding)
    requires Upgrades(c, plans, prev, plan, req, items, h)
    requires !LeadMatches(prev, plan, req, h) && NewLeadApart(prev, plan, req, h)
    ensures !YieldsItems(Apply(items, ImmediateSpec(c, items)), plan, req, h)
  {
    var gained, wanted := GainedLead(c, prev, req, h), LeadingItems(plan, req);
    LeadExactly(c, plans, prev, plan, req, items, h);
    var x :| Count(gained, x) != Count(wanted, x);
    CountedIffIn(gained, x);
    CountedIffIn(wanted, x);
    if x in gained { GainedPrices(c, plans, prev, plan, req, items, h, x); }
    MismatchAt(c, plans, prev, plan, req, items, h, x);
  }

  lemma {:induction false} GainedPrices(c: Change, plans: seq<Plan>, prev: Plan, plan: Plan, req: Request, items: seq<Item>, h: Holding,
                                        x: PhaseItem)
    requires Upgrades(c, plans, prev, plan, req, items, h) && NewLeadApart(prev, plan, req, h)
    requires x in GainedLead(c, prev, req, h)
    ensures OneRole(x.price, prev, plan, h)
  {
    var lead := LeadingItems(plan, req);
    assert lead[0] in lead && lead[|lead| - 1] in lead;
  }

  lemma {:induction false} LinesShow(c: Change, plans: seq<Plan>, prev: Plan, plan: Plan, req: Request, items: seq<Item>, h: Holding,
                                     p: Option<string>)
    requires Upgrades(c, plans, prev, plan, req, items, h) && LeadMatches(prev, plan, req, h)
    requires YieldsItems(Apply(items, ImmediateSpec(c, items)), plan, req, h)
    ensures SameItems(LinePart(c, prev, req, items, h, p), Wanted(plan, h, p))
  {
    LeadExactly(c, plans, prev, plan, req, items, h);
    forall q: Option<int> ensures Count(LinePart(c, prev, req, items, h, p), q) == Count(Wanted(plan, h, p), q) {
      var x := PhaseItem(p, q);
      EveryItem(c, plans, prev, plan, req, items, h, x);
      WantedCount(plan, req, h, x);
    }
  }

  lemma {:induction false} LineIsNoLead(prev: Plan, plan: Plan, req: Request, h: Holding, plans: seq<Plan>, items: seq<Item>, p: Option<string>)
    requires RolesApart(plans, prev, plan, req, items, h) && p in PhasePrices(prev.lines) + PhasePrices(plan.lines)
    ensures !IsHeldLead(prev, req, h, p)
  {
    CountedIffIn(PhasePrices(prev.lines), p);
    CountedIffIn(PhasePrices(plan.lines), p);
  }

  lemma {:induction false} FitYields(c: Change, plans: seq<Plan>, prev: Plan, plan: Plan, req: Request, items: seq<Item>, h: Holding)
    requires Upgrades(c, plans, prev, plan, req, items, h)
    requires LeadMatches(prev, plan, req, h) && LinesFit(items, prev, plan, h)
    ensures YieldsItems(Apply(items, ImmediateSpec(c, items)), plan, req, h)
  {
    LeadExactly(c, plans, prev, plan, req, items, h);
    var after, target := Apply(items, ImmediateSpec(c, items)), PlanItems(plan, req) + h.others;
    forall x: PhaseItem ensures Count(after, x) == Count(target, x) {
      EveryItem(c, plans, prev, plan, req, items, h, x);
      WantedCount(plan, req, h, x);
      LinePartWanted(c, plans, prev, plan, req, items, h, x.price);
    }
  }

  /**
  Main result: an upgrade turns the old plan's items into the new plan's, with their
  quantities and beside every unrelated item, exactly when the base and seat items come out
  right and so does every line item. Plans may be seat-only, and line items may repeat.
  */
  lemma {:induction false} UpgradeYieldsPlan(c: Change, plans: seq<Plan>, prev: Plan, plan: Plan, req: Request, items: seq<Item>, h: Holding)
    requires Upgrades(c, plans, prev, plan, req, items, h)
    requires LeadMatches(prev, plan, req, h) || NewLeadApart(prev, plan, req, h)
    ensures YieldsItems(Apply(items, ImmediateSpec(c, items)), plan, req, h)
       <==> LeadMatches(prev, plan, req, h) && LinesFit(items, prev, plan, h)
  {
    if !LeadMatches(prev, plan, req, h) {
      LeadMismatchShows(c, plans, prev, plan, req, items, h);
    } else if YieldsItems(Apply(items, ImmediateSpec(c, items)), plan, req, h) {
      forall p | p in PhasePrices(prev.lines) + PhasePrices(plan.lines) ensures LineFits(items, prev, plan, h, p) {
        LinesShow(c, plans, prev, plan, req, items, h, p);
        LineIsNoLead(prev, plan, req, h, plans, items, p);
        LineExactly(c, plans, prev, plan, req, items, h, p);
      }
    } else if LinesFit(items, prev, plan, h) {
      FitYields(c, plans, prev, plan, req, items, h);
    }
  }

  /** The scheduled branch yields the plan on the same condition, if no item it keeps lacks a quantity. */
  lemma {:induction false} ScheduleYieldsPlan(c: Change, plans: seq<Plan>, prev: Plan, plan: Plan, req: Request, items: seq<Item>, h: Holding)
    requires Upgrades(c, plans, prev, plan, req, items, h)
    requires LeadMatches(prev, plan, req, h) || NewLeadApart(prev, plan, req, h)
    requires KeptItemsHaveQuantity(c, WithoutIds(items), |items|)
    ensures YieldsItems(ScheduledSpec(c, WithoutIds(items)), plan, req, h)
       <==> LeadMatches(prev, plan, req, h) && LinesFit(items, prev, plan, h)
  {
    BranchesAgree(c, items);
    UpgradeYieldsPlan(c, plans, prev, plan, req, items, h);
  }

  // ----- without repeats -----

  lemma {:induction false} AtMostOnce<T>(s: seq<T>, x: T)
    requires NoRepeats(s)
    ensures Count(s, x) <= 1
  {
    if s != [] {
      AtMostOnce(s[..|s| - 1], x);
      CountedIffIn(s[..|s| - 1], x);
    }
  }

  /** A line is found under its price. */
  lemma {:induction false} LineQuantity(lines: seq<PhaseItem>, x: PhaseItem)
    ensures x in lines <==> x.quantity in QuantitiesAt(lines, x.price)
  {
    CountByQuantity(lines, x);
    CountedIffIn(lines, x);
    CountedIffIn(QuantitiesAt(lines, x.price), x.quantity);
  }

  lemma {:induction false} FitsWhenKept(held: Option<int>, line: Option<int>)
    ensures Fits([held], 0, [line], []) <==> held == line
  {
    assert Dropped([held], 0) == [held] && [line] + [] == [line];
    SameSingle(held, line);
  }

  lemma {:induction false} FitsWhenDropped(held: Option<int>)
    ensures Fits([held], -1, [], [])
  {
    assert Dropped([held], 1) == [] && [] + [] == Dropped([held], 1);
  }

  lemma {:induction false} FitsWhenNew(held: seq<Option<int>>, line: Option<int>, others: seq<Option<int>>)
    ensures Fits(held, 1, [line], others) <==> held == [] && line == None
  {
    assert line in [line];
  }

  lemma {:induction false} OneHeld(held: seq<Option<int>>, was: Option<int>, others: seq<Option<int>>)
    requires SameItems(held, [was] + others) && |held| <= 1
    ensures held == [was] && others == []
  {
    SameLength(held, [was] + others);
    assert [was] + others == [was];
    assert held == [held[0]];
    SameSingle(held[0], was);
  }

  /** `Fits` for quantities of a price that no item and no line of a plan repeats. */
  lemma {:induction false} FitsOnce(held: seq<Option<int>>, was: seq<Option<int>>, lines: seq<Option<int>>, others: seq<Option<int>>)
    requires SameItems(held, was + others) && |held| <= 1 && |was| <= 1 && |lines| <= 1 && |was| + |lines| > 0
    ensures Fits(held, |lines| - |was|, lines, others)
       <==> lines == [] || lines == was || (held == [] && lines == [None])
  {
    if |was| == 0 {
      assert lines == [lines[0]];
      FitsWhenNew(held, lines[0], others);
    } else {
      assert was == [was[0]];
      OneHeld(held, was[0], others);
      if |lines| == 0 {
        FitsWhenDropped(was[0]);
      } else {
        assert lines == [lines[0]];
        FitsWhenKept(was[0], lines[0]);
      }
    }
  }

  /** A line of the new plan that comes out right: held as it is, or new and without a quantity. */
  predicate LineHeldOrNew(items: seq<Item>, h: Holding, x: PhaseItem) {
    x in h.lines || (x.price !in ItemPrices(items) && x.quantity.None?)
  }

  lemma {:induction false} NotFirst<T(!new)>(held: seq<T>, first: seq<T>, second: seq<T>, third: seq<T>)
    requires SameItems(held, first + (second + third)) && |first| == 0
    ensures SameItems(held, second + third)
  {
    assert first + (second + third) == second + third;
  }

  lemma {:induction false} NoLeadQuantity(items: seq<Item>, prev: Plan, req: Request, h: Holding, p: Option<string>)
    requires BuiltFrom(items, prev, req, h) && !IsHeldLead(prev, req, h, p)
    ensures SameItems(QuantitiesAt(WithoutIds(items), p), QuantitiesAt(h.lines, p) + QuantitiesAt(h.others, p))
  {
    HeldQuantities(items, prev, req, h, p);
    LeadQuantities(prev, req, h, p);
    NotFirst(QuantitiesAt(WithoutIds(items), p), QuantitiesAt(HeldLead(prev, req, h), p),
             QuantitiesAt(h.lines, p), QuantitiesAt(h.others, p));
  }

  lemma {:induction false} SizesWithoutRepeats(items: seq<Item>, prev: Plan, plan: Plan, req: Request, h: Holding, p: Option<string>)
    requires BuiltFrom(items, prev, req, h) && !IsHeldLead(prev, req, h, p) && p.Some?
    requires NoRepeats(ItemPrices(items)) && NoRepeats(PhasePrices(plan.lines))
    requires p in PhasePrices(prev.lines) + PhasePrices(plan.lines)
    ensures var held, was, lines := QuantitiesAt(WithoutIds(items), p), QuantitiesAt(h.lines, p), QuantitiesAt(plan.lines, p);
            && |held| <= 1 && |was| <= 1 && |lines| <= 1 && |was| + |lines| > 0
            && Growth(prev, plan, p) == |lines| - |was| && (held == [] <==> p !in ItemPrices(items))
  {
    HeldQuantities(items, prev, req, h, p);
    HeldSize(items, prev, plan, req, h, p);
    AtMostOnce(ItemPrices(items), p);
    AtMostOnce(PhasePrices(plan.lines), p);
    CountedIffIn(PhasePrices(prev.lines), p);
    CountedIffIn(PhasePrices(plan.lines), p);
    CountedIffIn(ItemPrices(items), p);
  }

  lemma {:induction false} FitsWithoutRepeats(items: seq<Item>, prev: Plan, plan: Plan, req: Request, h: Holding, p: Option<string>)
    requires BuiltFrom(items, prev, req, h) && !IsHeldLead(prev, req, h, p) && p.Some?
    requires NoRepeats(ItemPrices(items)) && NoRepeats(PhasePrices(plan.lines))
    requires p in PhasePrices(prev.lines) + PhasePrices(plan.lines)
    ensures var was, lines := QuantitiesAt(h.lines, p), QuantitiesAt(plan.lines, p);
            && |lines| <= 1 && |was| <= 1
            && (LineFits(items, prev, plan, h, p) <==>
                lines == [] || lines == was || (p !in ItemPrices(items) && lines == [None]))
  {
    NoLeadQuantity(items, prev, req, h, p);
    SizesWithoutRepeats(items, prev, plan, req, h, p);
    FitsOnce(QuantitiesAt(WithoutIds(items), p), QuantitiesAt(h.lines, p), QuantitiesAt(plan.lines, p), QuantitiesAt(h.others, p));
  }

  lemma {:induction false} LinesWithoutRepeats(plans: seq<Plan>, prev: Plan, plan: Plan, req: Request, items: seq<Item>, h: Holding)
    requires BuiltFrom(items, prev, req, h) && RolesApart(plans, prev, plan, req, items, h)
    requires NoRepeats(ItemPrices(items)) && NoRepeats(PhasePrices(plan.lines))
    requires None !in PhasePrices(prev.lines) + PhasePrices(plan.lines)
    ensures LinesFit(items, prev, plan, h) <==> forall x :: x in plan.lines ==> LineHeldOrNew(items, h, x)
  {
    forall x | x in plan.lines && LinesFit(items, prev, plan, h) ensures LineHeldOrNew(items, h, x) {
      OneLine(plans, prev, plan, req, items, h, x);
    }
    if forall x :: x in plan.lines ==> LineHeldOrNew(items, h, x) {
      forall p | p in PhasePrices(prev.lines) + PhasePrices(plan.lines) ensures LineFits(items, prev, plan, h, p) {
        LineIsNoLead(prev, plan, req, h, plans, items, p);
        FitsWithoutRepeats(items, prev, plan, req, h, p);
        if QuantitiesAt(plan.lines, p) != [] {
          var x := PhaseItem(p, QuantitiesAt(plan.lines, p)[0]);
          LineQuantity(plan.lines, x);
          OneLine(plans, prev, plan, req, items, h, x);
        }
      }
    }
  }

  lemma {:induction false} OnceIn(lines: seq<Option<int>>, was: seq<Option<int>>, q: Option<int>, isNew: bool)
    requires q in lines && |lines| <= 1 && |was| <= 1
    ensures lines == [] || lines == was || (isNew && lines == [None]) <==> q in was || (isNew && q.None?)
  {
    assert lines == [q];
    if |was| == 1 { assert was == [was[0]]; }
  }

  lemma {:induction false} OneLine(plans: seq<Plan>, prev: Plan, plan: Plan, req: Request, items: seq<Item>, h: Holding, x: PhaseItem)
    requires BuiltFrom(items, prev, req, h) && RolesApart(plans, prev, plan, req, items, h)
    requires NoRepeats(ItemPrices(items)) && NoRepeats(PhasePrices(plan.lines))
    requires None !in PhasePrices(prev.lines) + PhasePrices(plan.lines) && x in plan.lines
    ensures x.price in PhasePrices(prev.lines) + PhasePrices(plan.lines)
    ensures LineFits(items, prev, plan, h, x.price) <==> LineHeldOrNew(items, h, x)
  {
    var i :| 0 <= i < |plan.lines| && plan.lines[i] == x;
    assert PhasePrices(plan.lines)[i] == x.price;
    LineIsNoLead(prev, plan, req, h, plans, items, x.price);
    FitsWithoutRepeats(items, prev, plan, req, h, x.price);
    LineQuantity(plan.lines, x);
    LineQuantity(h.lines, x);
    OnceIn(QuantitiesAt(plan.lines, x.price), QuantitiesAt(h.lines, x.price), x.quantity, x.price !in ItemPrices(items));
  }

  /**
  When no price repeats, the condition on the lines is plain: each line of the new plan is held
  with the plan's quantity, or its price is new to the subscription and it has no quantity.
  */
  lemma {:induction false} UpgradeWithoutRepeats(c: Change, plans: seq<Plan>, prev: Plan, plan: Plan, req: Request, items: seq<Item>, h: Holding)
    requires Upgrades(c, plans, prev, plan, req, items, h)
    requires LeadMatches(prev, plan, req, h) || NewLeadApart(prev, plan, req, h)
    requires NoRepeats(ItemPrices(items)) && NoRepeats(PhasePrices(plan.lines))
    requires None !in PhasePrices(prev.lines) + PhasePrices(plan.lines)
    ensures YieldsItems(Apply(items, ImmediateSpec(c, items)), plan, req, h)
       <==> LeadMatches(prev, plan, req, h) && forall x :: x in plan.lines ==> LineHeldOrNew(items, h, x)
  {
    UpgradeYieldsPlan(c, plans, prev, plan, req, items, h);
    LinesWithoutRepeats(plans, prev, plan, req, items, h);
  }

  // ----- concrete failures -----

  lemma {:induction false} TwoItems(c: Change, base: Item, seat: Item)
    requires c.order == [] && c.delta == map[] && base.id != seat.id
    requires base.price == c.base && seat.price != c.base && !IsOldSeat(c, c.base)
    ensures Apply([base, seat], ImmediateSpec(c, [base, seat])) ==
            [PhaseItem(c.newBase, c.baseQuantity),
             if IsOldSeat(c, seat.price) then PhaseItem(Some(c.seat.value.newPrice), Some(c.seat.value.quantity))
             else PhaseItem(seat.price, seat.quantity)]
  {
    var items := [base, seat];
    var bare := WithoutIds(items);
    ApplyImmediate(c, items);
    assert ImmediateEntries(c, bare, 1) == [] + ImmediateEntry(c, bare, 0);
    assert ImmediateEntries(c, bare, 2) == ImmediateEntries(c, bare, 1) + ImmediateEntry(c, bare, 1);
    assert AsPhaseItems([]) == [];
  }

  lemma {:induction false} BaseComesFirst(plans: seq<Plan>, items: seq<Item>)
    requires plans != [] && items != [] && Matches(plans[0], items[0])
    ensures BaseOf(plans, items) == items[0].price
  {
    assert MatchesSome(plans, items[0]);
    assert Scan(plans, items, 0).Some?;
  }

  function SimplePlan(price: string, seat: string): Plan {
    Plan(Some(price), None, None, None, None, Some(seat), false, [])
  }

  /** An unchanged seat price keeps a seat quantity that has gone stale, whatever the member count is. */
  lemma {:induction false} StaleSeatStays(c: Change)
    requires IsUpgrade(c, [SimplePlan("pb", "s"), SimplePlan("nb", "s")], Some(SimplePlan("pb", "s")), SimplePlan("nb", "s"),
                       Request(false, true, None, 7, None),
                       [Item("i0", Some("pb"), None, Some(1)), Item("i1", Some("s"), None, Some(3))])
    ensures var items := [Item("i0", Some("pb"), None, Some(1)), Item("i1", Some("s"), None, Some(3))];
            Apply(items, ImmediateSpec(c, items)) == [PhaseItem(Some("nb"), Some(1)), PhaseItem(Some("s"), Some(3))]
    ensures PlanItems(SimplePlan("nb", "s"), Request(false, true, None, 7, None)) ==
            [PhaseItem(Some("nb"), Some(1)), PhaseItem(Some("s"), Some(7))]
  {
    NothingInDelta(c);
    BaseComesFirst([SimplePlan("pb", "s"), SimplePlan("nb", "s")],
                   [Item("i0", Some("pb"), None, Some(1)), Item("i1", Some("s"), None, Some(3))]);
    TwoItems(c, Item("i0", Some("pb"), None, Some(1)), Item("i1", Some("s"), None, Some(3)));
  }

  /** A new plan that is seat-only gets its seat price twice from an old plan with a seat item. */
  lemma {:induction false} SeatOnlyDoubles(c: Change)
    requires IsUpgrade(c, [SimplePlan("pb", "s1"), SimplePlan("s2", "s2")], Some(SimplePlan("pb", "s1")), SimplePlan("s2", "s2"),
                       Request(false, true, None, 7, None),
                       [Item("i0", Some("pb"), None, Some(1)), Item("i1", Some("s1"), None, Some(3))])
    ensures var items := [Item("i0", Some("pb"), None, Some(1)), Item("i1", Some("s1"), None, Some(3))];
            Apply(items, ImmediateSpec(c, items)) == [PhaseItem(Some("s2"), Some(1)), PhaseItem(Some("s2"), Some(7))]
    ensures PlanItems(SimplePlan("s2", "s2"), Request(false, true, None, 7, None)) == [PhaseItem(Some("s2"), Some(7))]
  {
    NothingInDelta(c);
    BaseComesFirst([SimplePlan("pb", "s1"), SimplePlan("s2", "s2")],
                   [Item("i0", Some("pb"), None, Some(1)), Item("i1", Some("s1"), None, Some(3))]);
    TwoItems(c, Item("i0", Some("pb"), None, Some(1)), Item("i1", Some("s1"), None, Some(3)));
  }

  lemma {:induction false} NothingInDelta(c: Change)
    requires IsDelta([], [], c.order, c.delta)
    ensures c.delta == map[]
  {
  }

  /** A concrete failure: a plan that doubles an add-on the subscription has gets no second copy. */
  lemma {:induction false} DoubledAddOnIsLost(c: Change)
    requires c.base == Some("old") && c.newBase == Some("new") && c.seat == None
    requires IsDelta([Some("addon")], [Some("addon"), Some("addon")], c.order, c.delta)
    ensures var items := [Item("i0", Some("old"), None, Some(1)), Item("i1", Some("addon"), None, Some(1))];
            Count(PhasePrices(Apply(items, ImmediateSpec(c, items))), Some("addon")) == 1
  {
    var items := [Item("i0", Some("old"), None, Some(1)), Item("i1", Some("addon"), None, Some(1))];
    var one, two: seq<Option<string>> := [Some("addon")], [Some("addon"), Some("addon")];
    assert one[..0] == [] && two[..1] == one;
    assert Count(one, Some("addon")) == 1 && Count(two, Some("addon")) == 2;
    assert AtOr(c.delta, "addon", 0) == Difference(one, two, "addon");
    var prices := ItemPrices(items);
    assert prices[..1] == [Some("old")] && prices[..1][..0] == [];
    assert Count(prices, Some("addon")) == 1;
    LineItemEffect(c, items, "addon");
  }
}
