/**
What the diff does to a subscription: the exact count of every price afterwards, the
agreement of the immediate and the scheduled branch, and the ids that are mentioned.
*/
module PlanDiffEffects {
  import opened Options
  import opened PlanDiff

  // ----- Stripe's effect of an update list -----

  ghost predicate DistinctIds(items: seq<Item>) {
    forall i, j :: 0 <= i < j < |items| ==> items[i].id != items[j].id
  }

  predicate Names(u: Update, id: string) {
    !u.Added? && u.id == id
  }

  /** The first entry that names `id`. */
  function Find(updates: seq<Update>, id: string): Option<Update> {
    if updates == [] then None
    else if Names(updates[0], id) then Some(updates[0])
    else Find(updates[1..], id)
  }

  /** Stripe deletes or rewrites an item that is named, and leaves every other item alone. */
  function ApplyToItem(item: Item, updates: seq<Update>): seq<PhaseItem> {
    match Find(updates, item.id)
    case Some(Deleted(_)) => []
    case Some(Rewritten(_, price, quantity)) => [PhaseItem(price, quantity)]
    case _ => [PhaseItem(item.price, item.quantity)]
  }

  function ApplyToItems(items: seq<Item>, n: nat, updates: seq<Update>): seq<PhaseItem>
    requires n <= |items|
  {
    if n == 0 then [] else ApplyToItems(items, n - 1, updates) + ApplyToItem(items[n - 1], updates)
  }

  function AddedItems(updates: seq<Update>): seq<PhaseItem> {
    if updates == [] then []
    else (if updates[0].Added? then [PhaseItem(Some(updates[0].newPrice), None)] else []) + AddedItems(updates[1..])
  }

  /** The subscription's items once Stripe has applied `updates`. */
  function Apply(items: seq<Item>, updates: seq<Update>): seq<PhaseItem> {
    ApplyToItems(items, |items|, updates) + AddedItems(updates)
  }

  function WithoutIds(items: seq<Item>): (r: seq<PhaseItem>)
    ensures |r| == |items|
    ensures PhasePrices(r) == ItemPrices(items)
  {
    seq(|items|, i requires 0 <= i < |items| => PhaseItem(items[i].price, items[i].quantity))
  }

  // ----- counting -----

  lemma {:induction false} CountIsMultiplicity<T>(s: seq<T>, x: T)
    ensures Count(s, x) == multiset(s)[x]
  {
    if s != [] {
      CountIsMultiplicity(s[..|s| - 1], x);
      assert s == s[..|s| - 1] + [s[|s| - 1]];
    }
  }

  lemma {:induction false} CountConcat<T>(a: seq<T>, b: seq<T>, x: T)
    ensures Count(a + b, x) == Count(a, x) + Count(b, x)
  {
    CountIsMultiplicity(a, x);
    CountIsMultiplicity(b, x);
    CountIsMultiplicity(a + b, x);
  }

  /** How many items of price `p` survive removal. */
  function Surviving(c: Change, prices: seq<Option<string>>, n: nat, p: Option<string>): nat
    requires n <= |prices|
  {
    Max(Count(prices[..n], p) - Quota(c, p), 0)
  }

  predicate IsRewritten(c: Change, p: Option<string>) {
    IsOldSeat(c, p) || p == c.base
  }

  lemma {:induction false} KeptCount(c: Change, prices: seq<Option<string>>, n: nat, p: Option<string>)
    requires n <= |prices|
    ensures Kept(c, prices, n, p) == if IsRewritten(c, p) then 0 else Surviving(c, prices, n, p)
  {
    if n > 0 {
      KeptCount(c, prices, n - 1, p);
      CountStep(prices, n - 1, p);
    }
  }

  /** How many of the first `n` entries are rewritten to price `q`. */
  function RewrittenTo(c: Change, prices: seq<Option<string>>, n: nat, q: Option<string>): int
    requires n <= |prices|
  {
    (if q == c.newBase && !IsOldSeat(c, c.base) then Surviving(c, prices, n, c.base) else 0) +
    (if c.seat.Some? && q == Some(c.seat.value.newPrice)
     then Surviving(c, prices, n, Some(c.seat.value.oldPrice)) else 0)
  }

  lemma {:induction false} PricesConcat(a: seq<PhaseItem>, b: seq<PhaseItem>)
    ensures PhasePrices(a + b) == PhasePrices(a) + PhasePrices(b)
  {
  }

  lemma {:induction false} PricesCount(a: seq<PhaseItem>, b: seq<PhaseItem>, q: Option<string>)
    ensures Count(PhasePrices(a + b), q) == Count(PhasePrices(a), q) + Count(PhasePrices(b), q)
  {
    PricesConcat(a, b);
    CountConcat(PhasePrices(a), PhasePrices(b), q);
  }

  lemma {:induction false} RewrittenStep(c: Change, prices: seq<Option<string>>, n: nat, q: Option<string>)
    requires n < |prices|
    ensures var v := VerdictAt(c, prices, n);
            RewrittenTo(c, prices, n + 1, q) == RewrittenTo(c, prices, n, q) +
            (if (v == SwapBase && q == c.newBase) || (v == SwapSeat && q == Some(c.seat.value.newPrice)) then 1 else 0)
  {
    CountStep(prices, n, c.base);
    if c.seat.Some? { CountStep(prices, n, Some(c.seat.value.oldPrice)); }
  }

  lemma {:induction false} KeptStep(c: Change, prices: seq<Option<string>>, n: nat, q: Option<string>)
    requires n < |prices|
    ensures Kept(c, prices, n + 1, q) == Kept(c, prices, n, q) + (if VerdictAt(c, prices, n) == Keep && prices[n] == q then 1 else 0)
  {
  }

  lemma {:induction false} EntryCount(c: Change, items: seq<PhaseItem>, i: nat, q: Option<string>)
    requires i < |items|
    ensures var v := VerdictAt(c, PhasePrices(items), i);
            Count(PhasePrices(EntryAt(c, items, i)), q) ==
            if || (v == Keep && q == items[i].price)
               || (v == SwapBase && q == c.newBase)
               || (v == SwapSeat && q == Some(c.seat.value.newPrice)) then 1 else 0
  {
    var prices := PhasePrices(EntryAt(c, items, i));
    if prices != [] { assert prices[..|prices| - 1] == []; }
  }

  lemma {:induction false} EntriesCount(c: Change, items: seq<PhaseItem>, n: nat, q: Option<string>)
    requires n <= |items|
    ensures Count(PhasePrices(Entries(c, items, n)), q)
         == Kept(c, PhasePrices(items), n, q) + RewrittenTo(c, PhasePrices(items), n, q)
  {
    if n == 0 {
      assert PhasePrices(Entries(c, items, 0)) == [];
    } else {
      EntriesCount(c, items, n - 1, q);
      EntryCount(c, items, n - 1, q);
      RewrittenStep(c, PhasePrices(items), n - 1, q);
      PricesCount(Entries(c, items, n - 1), EntryAt(c, items, n - 1), q);
      KeptStep(c, PhasePrices(items), n - 1, q);
    }
  }

  lemma {:induction false} CopiesCount(n: nat, p: string, q: Option<string>)
    ensures Count(PhasePrices(AsPhaseItems(Copies(n, p))), q) == if q == Some(p) then n else 0
  {
    if n > 0 {
      CopiesCount(n - 1, p, q);
      assert PhasePrices(AsPhaseItems(Copies(n, p)))[..n - 1] == PhasePrices(AsPhaseItems(Copies(n - 1, p)));
    }
  }

  lemma {:induction false} AdditionsStep(c: Change, prices: seq<Option<string>>, n: nat, p: string)
    requires n < |c.order|
    ensures Count(PhasePrices(AsPhaseItems(Additions(c, prices, n + 1))), Some(p))
         == Count(PhasePrices(AsPhaseItems(Additions(c, prices, n))), Some(p))
            + if c.order[n] == p then ToAdd(c, prices, |prices|, p) else 0
  {
    var k := ToAdd(c, prices, |prices|, c.order[n]);
    var before, more := Additions(c, prices, n), Copies(k, c.order[n]);
    assert AsPhaseItems(before + more) == AsPhaseItems(before) + AsPhaseItems(more);
    PricesCount(AsPhaseItems(before), AsPhaseItems(more), Some(p));
    CopiesCount(k, c.order[n], Some(p));
  }

  /** In a list without repeats, the last of the first `n + 1` keys is not among the first `n`. */
  lemma {:induction false} KeyStep(order: seq<string>, n: nat, p: string)
    requires n < |order| && NoRepeats(order)
    ensures p in order[..n + 1] <==> p in order[..n] || p == order[n]
    ensures p in order[..n] ==> p != order[n]
  {
    assert order[..n + 1] == order[..n] + [order[n]];
  }

  lemma {:induction false} AdditionsCount(c: Change, prices: seq<Option<string>>, n: nat, p: string)
    requires n <= |c.order| && NoRepeats(c.order)
    ensures Count(PhasePrices(AsPhaseItems(Additions(c, prices, n))), Some(p))
         == if p in c.order[..n] then ToAdd(c, prices, |prices|, p) else 0
  {
    if n > 0 {
      AdditionsCount(c, prices, n - 1, p);
      AdditionsStep(c, prices, n - 1, p);
      KeyStep(c.order, n - 1, p);
    }
  }

  /** Additions come in the order of the dictionary's keys. */
  lemma {:induction false} AdditionsInOrder(c: Change, prices: seq<Option<string>>, n: nat, i: nat, j: nat) returns (k: nat, m: nat)
    requires n <= |c.order| && i <= j < |Additions(c, prices, n)|
    ensures k <= m < n && Additions(c, prices, n)[i] == c.order[k] && Additions(c, prices, n)[j] == c.order[m]
  {
    var before := Additions(c, prices, n - 1);
    if j < |before| {
      k, m := AdditionsInOrder(c, prices, n - 1, i, j);
    } else if i < |before| {
      k, m := AdditionsInOrder(c, prices, n - 1, i, i);
      m := n - 1;
    } else {
      k, m := n - 1, n - 1;
    }
  }

  ghost predicate WellFormedDelta(c: Change) {
    NoRepeats(c.order) && forall p :: p in c.delta ==> p in c.order
  }

  /** The count of price `p` after the change, for every price without exception. */
  function FinalCount(c: Change, prices: seq<Option<string>>, p: string): int {
    var here := if IsRewritten(c, Some(p)) then 0 else Count(prices, Some(p));
    var d := AtOr(c.delta, p, 0);
    RewrittenTo(c, prices, |prices|, Some(p)) +
    (if d > 0 then Max(here, d) else if IsRewritten(c, Some(p)) then 0 else Max(here + d, 0))
  }

  lemma {:induction false} CountAdds(c: Change, prices: seq<Option<string>>, p: string)
    ensures FinalCount(c, prices, p) == Kept(c, prices, |prices|, Some(p)) + RewrittenTo(c, prices, |prices|, Some(p))
                                      + ToAdd(c, prices, |prices|, p)
  {
    KeptCount(c, prices, |prices|, Some(p));
    assert prices[..|prices|] == prices;
  }

  lemma {:induction false} ScheduledCount(c: Change, items: seq<PhaseItem>, p: string)
    requires WellFormedDelta(c)
    ensures Count(PhasePrices(ScheduledSpec(c, items)), Some(p)) == FinalCount(c, PhasePrices(items), p)
  {
    var prices := PhasePrices(items);
    var entries, added := Entries(c, items, |items|), AsPhaseItems(Additions(c, prices, |c.order|));
    PricesCount(entries, added, Some(p));
    EntriesCount(c, items, |items|, Some(p));
    AdditionsCount(c, prices, |c.order|, p);
    CountAdds(c, prices, p);
    assert c.order[..|c.order|] == c.order;
  }

  // ----- the update list, applied by id -----

  lemma {:induction false} FindConcat(a: seq<Update>, b: seq<Update>, id: string)
    ensures Find(a + b, id) == if Find(a, id).Some? then Find(a, id) else Find(b, id)
  {
    if a == [] {
      assert a + b == b;
    } else {
      assert (a + b)[1..] == a[1..] + b;
      FindConcat(a[1..], b, id);
    }
  }

  /** The update for position `i`, if there is one. */
  function TheEdit(c: Change, items: seq<Item>, i: nat): Option<Update>
    requires i < |items|
  {
    if EditAt(c, items, i) == [] then None else Some(EditAt(c, items, i)[0])
  }

  lemma {:induction false} FindInEdit(c: Change, items: seq<Item>, i: nat)
    requires i < |items|
    ensures Find(EditAt(c, items, i), items[i].id) == TheEdit(c, items, i)
  {
  }

  lemma {:induction false} FindInOtherEdit(c: Change, items: seq<Item>, k: nat, i: nat)
    requires k < |items| && i < |items| && k != i && DistinctIds(items)
    ensures Find(EditAt(c, items, k), items[i].id) == None
  {
    var edit := EditAt(c, items, k);
    if edit != [] {
      assert edit[1..] == [] && edit[0].id == items[k].id;
    }
  }

  function Flatten(parts: seq<seq<Update>>): seq<Update> {
    if parts == [] then [] else Flatten(parts[..|parts| - 1]) + parts[|parts| - 1]
  }

  lemma {:induction false} FindNowhere(parts: seq<seq<Update>>, id: string)
    requires forall k :: 0 <= k < |parts| ==> Find(parts[k], id) == None
    ensures Find(Flatten(parts), id) == None
  {
    if parts != [] {
      FindNowhere(parts[..|parts| - 1], id);
      FindConcat(Flatten(parts[..|parts| - 1]), parts[|parts| - 1], id);
    }
  }

  lemma {:induction false} FindInOne(parts: seq<seq<Update>>, i: nat, id: string)
    requires i < |parts| && forall k :: 0 <= k < |parts| && k != i ==> Find(parts[k], id) == None
    ensures Find(Flatten(parts), id) == Find(parts[i], id)
  {
    var n := |parts| - 1;
    FindConcat(Flatten(parts[..n]), parts[n], id);
    if i == n { FindNowhere(parts[..n], id); } else { FindInOne(parts[..n], i, id); }
  }

  function EditParts(c: Change, items: seq<Item>, n: nat): (r: seq<seq<Update>>)
    requires n <= |items|
    ensures |r| == n && forall k :: 0 <= k < n ==> r[k] == EditAt(c, items, k)
  {
    if n == 0 then [] else EditParts(c, items, n - 1) + [EditAt(c, items, n - 1)]
  }

  lemma {:induction false} FlattenMore(parts: seq<seq<Update>>, part: seq<Update>)
    ensures Flatten(parts + [part]) == Flatten(parts) + part
  {
    assert (parts + [part])[..|parts|] == parts;
  }

  lemma {:induction false} EditsAreFlat(c: Change, items: seq<Item>, n: nat)
    requires n <= |items|
    ensures Edits(c, items, n) == Flatten(EditParts(c, items, n))
  {
    if n > 0 {
      EditsAreFlat(c, items, n - 1);
      FlattenMore(EditParts(c, items, n - 1), EditAt(c, items, n - 1));
    }
  }

  lemma {:induction false} FindInEdits(c: Change, items: seq<Item>, i: nat)
    requires i < |items| && DistinctIds(items)
    ensures Find(Edits(c, items, |items|), items[i].id) == TheEdit(c, items, i)
  {
    var parts := EditParts(c, items, |items|);
    EditsAreFlat(c, items, |items|);
    forall k | 0 <= k < |parts| && k != i ensures Find(parts[k], items[i].id) == None {
      FindInOtherEdit(c, items, k, i);
    }
    FindInOne(parts, i, items[i].id);
    FindInEdit(c, items, i);
  }

  lemma {:induction false} FindInAdded(prices: seq<string>, id: string)
    ensures Find(AsUpdates(prices), id) == None
  {
    if prices != [] {
      assert AsUpdates(prices)[1..] == AsUpdates(prices[1..]);
      FindInAdded(prices[1..], id);
    }
  }

  lemma {:induction false} AddedConcat(a: seq<Update>, b: seq<Update>)
    ensures AddedItems(a + b) == AddedItems(a) + AddedItems(b)
  {
    if a == [] {
      assert a + b == b;
    } else {
      assert (a + b)[1..] == a[1..] + b;
      AddedConcat(a[1..], b);
      var first := if a[0].Added? then [PhaseItem(Some(a[0].newPrice), None)] else [];
      assert AddedItems(a + b) == first + (AddedItems(a[1..]) + AddedItems(b));
      assert first + (AddedItems(a[1..]) + AddedItems(b)) == first + AddedItems(a[1..]) + AddedItems(b);
    }
  }

  lemma {:induction false} AddedOfPrices(prices: seq<string>)
    ensures AddedItems(AsUpdates(prices)) == AsPhaseItems(prices)
  {
    if prices != [] {
      assert AsUpdates(prices)[1..] == AsUpdates(prices[1..]);
      AddedOfPrices(prices[1..]);
    }
  }

  lemma {:induction false} NothingAdded(updates: seq<Update>)
    requires forall k :: 0 <= k < |updates| ==> !updates[k].Added?
    ensures AddedItems(updates) == []
  {
    if updates != [] {
      NothingAdded(updates[1..]);
    }
  }

  lemma {:induction false} EditsAddNothing(c: Change, items: seq<Item>, n: nat)
    requires n <= |items|
    ensures AddedItems(Edits(c, items, n)) == []
  {
    forall k | 0 <= k < |Edits(c, items, n)| ensures !Edits(c, items, n)[k].Added? {
      EditsNameItems(c, items, n, k);
    }
    NothingAdded(Edits(c, items, n));
  }

  /** What position `i` becomes under the immediate change: a kept item is not touched at all. */
  function ImmediateEntry(c: Change, items: seq<PhaseItem>, i: nat): seq<PhaseItem>
    requires i < |items|
  {
    if VerdictAt(c, PhasePrices(items), i) == Keep then [items[i]] else EntryAt(c, items, i)
  }

  function ImmediateEntries(c: Change, items: seq<PhaseItem>, n: nat): seq<PhaseItem>
    requires n <= |items|
  {
    if n == 0 then [] else ImmediateEntries(c, items, n - 1) + ImmediateEntry(c, items, n - 1)
  }

  lemma {:induction false} FindInSpec(c: Change, items: seq<Item>, i: nat)
    requires i < |items| && DistinctIds(items)
    ensures Find(ImmediateSpec(c, items), items[i].id) == TheEdit(c, items, i)
  {
    var added := Additions(c, ItemPrices(items), |c.order|);
    FindConcat(Edits(c, items, |items|), AsUpdates(added), items[i].id);
    FindInEdits(c, items, i);
    FindInAdded(added, items[i].id);
  }

  lemma {:induction false} ApplyEdit(c: Change, items: seq<Item>, i: nat)
    requires i < |items| && DistinctIds(items)
    ensures ApplyToItem(items[i], ImmediateSpec(c, items)) == ImmediateEntry(c, WithoutIds(items), i)
  {
    FindInSpec(c, items, i);
    assert PhasePrices(WithoutIds(items)) == ItemPrices(items);
  }

  lemma {:induction false} ApplyEdits(c: Change, items: seq<Item>, n: nat, updates: seq<Update>)
    requires n <= |items|
    requires forall i :: 0 <= i < |items| ==> ApplyToItem(items[i], updates) == ImmediateEntry(c, WithoutIds(items), i)
    ensures ApplyToItems(items, n, updates) == ImmediateEntries(c, WithoutIds(items), n)
  {
    if n > 0 {
      ApplyEdits(c, items, n - 1, updates);
    }
  }

  lemma {:induction false} ApplyImmediate(c: Change, items: seq<Item>)
    requires DistinctIds(items)
    ensures Apply(items, ImmediateSpec(c, items))
         == ImmediateEntries(c, WithoutIds(items), |items|) + AsPhaseItems(Additions(c, ItemPrices(items), |c.order|))
  {
    var added := Additions(c, ItemPrices(items), |c.order|);
    forall i | 0 <= i < |items|
      ensures ApplyToItem(items[i], ImmediateSpec(c, items)) == ImmediateEntry(c, WithoutIds(items), i)
    {
      ApplyEdit(c, items, i);
    }
    ApplyEdits(c, items, |items|, ImmediateSpec(c, items));
    AddedConcat(Edits(c, items, |items|), AsUpdates(added));
    EditsAddNothing(c, items, |items|);
    AddedOfPrices(added);
    assert [] + AsPhaseItems(added) == AsPhaseItems(added);
  }

  // ----- counting items with their quantities -----

  /** The quantities of the items that carry price `p`, in order. */
  function QuantitiesAt(items: seq<PhaseItem>, p: Option<string>): seq<Option<int>> {
    if items == [] then []
    else
      var last := items[|items| - 1];
      QuantitiesAt(items[..|items| - 1], p) + if last.price == p then [last.quantity] else []
  }

  lemma {:induction false} QuantitiesStep(items: seq<PhaseItem>, n: nat, p: Option<string>)
    requires n < |items|
    ensures QuantitiesAt(items[..n + 1], p)
         == QuantitiesAt(items[..n], p) + if items[n].price == p then [items[n].quantity] else []
  {
    assert items[..n + 1][..n] == items[..n];
  }

  lemma {:induction false} QuantitiesLength(items: seq<PhaseItem>, n: nat, p: Option<string>)
    requires n <= |items|
    ensures |QuantitiesAt(items[..n], p)| == Count(PhasePrices(items)[..n], p)
  {
    if n > 0 {
      QuantitiesLength(items, n - 1, p);
      QuantitiesStep(items, n - 1, p);
      CountStep(PhasePrices(items), n - 1, p);
    }
  }

  lemma {:induction false} CountMore<T>(s: seq<T>, y: T, x: T)
    ensures Count(s + [y], x) == Count(s, x) + if y == x then 1 else 0
  {
    assert (s + [y])[..|s|] == s;
  }

  /** Items are counted by looking up their quantity among those of their price. */
  lemma {:induction false} CountByQuantity(items: seq<PhaseItem>, x: PhaseItem)
    ensures Count(items, x) == Count(QuantitiesAt(items, x.price), x.quantity)
  {
    if items != [] {
      var last := items[|items| - 1];
      CountByQuantity(items[..|items| - 1], x);
      if last.price == x.price {
        CountMore(QuantitiesAt(items[..|items| - 1], x.price), last.quantity, x.quantity);
      } else {
        assert QuantitiesAt(items[..|items| - 1], x.price) + [] == QuantitiesAt(items[..|items| - 1], x.price);
      }
    }
  }

  function Dropped<T>(s: seq<T>, k: nat): seq<T> {
    if k <= |s| then s[k..] else []
  }

  /** How many of the first `n` items are kept and equal `x`. */
  function KeptItems(c: Change, items: seq<PhaseItem>, n: nat, x: PhaseItem): nat
    requires n <= |items|
  {
    if n == 0 then 0
    else KeptItems(c, items, n - 1, x) + if items[n - 1] == x && VerdictAt(c, PhasePrices(items), n - 1) == Keep then 1 else 0
  }

  lemma {:induction false} KeptAfter(c: Change, items: seq<PhaseItem>, n: nat)
    requires n < |items|
    ensures VerdictAt(c, PhasePrices(items), n) == Keep <==>
            |QuantitiesAt(items[..n], items[n].price)| >= Quota(c, items[n].price) && !IsRewritten(c, items[n].price)
  {
    QuantitiesLength(items, n, items[n].price);
  }

  /** The quantities with which the items of price `p` among the first `n` are kept. */
  function KeptQuantities(c: Change, items: seq<PhaseItem>, n: nat, p: Option<string>): seq<Option<int>>
    requires n <= |items|
  {
    if IsRewritten(c, p) then [] else Dropped(QuantitiesAt(items[..n], p), Quota(c, p))
  }

  lemma {:induction false} KeptQuantitiesStep(c: Change, items: seq<PhaseItem>, n: nat, x: PhaseItem)
    requires n < |items|
    ensures Count(KeptQuantities(c, items, n + 1, x.price), x.quantity)
         == Count(KeptQuantities(c, items, n, x.price), x.quantity)
            + if items[n] == x && VerdictAt(c, PhasePrices(items), n) == Keep then 1 else 0
  {
    var s := QuantitiesAt(items[..n], x.price);
    QuantitiesStep(items, n, x.price);
    if items[n].price == x.price {
      KeptAfter(c, items, n);
      DroppedMore(s, items[n].quantity, Quota(c, x.price), x.quantity);
    } else {
      assert s + [] == s;
    }
  }

  /** Removal takes the first copies of a price, so the kept ones are the last. */
  lemma {:induction false} KeptItemsCount(c: Change, items: seq<PhaseItem>, n: nat, x: PhaseItem)
    requires n <= |items|
    ensures KeptItems(c, items, n, x) == Count(KeptQuantities(c, items, n, x.price), x.quantity)
  {
    if n > 0 {
      KeptItemsCount(c, items, n - 1, x);
      KeptQuantitiesStep(c, items, n - 1, x);
    }
  }

  lemma {:induction false} DroppedMore<T>(s: seq<T>, y: T, k: nat, x: T)
    ensures Count(Dropped(s + [y], k), x) == Count(Dropped(s, k), x) + if |s| >= k && y == x then 1 else 0
  {
    if |s| >= k {
      assert (s + [y])[k..] == s[k..] + [y];
      CountMore(s[k..], y, x);
    } else {
      assert Dropped(s + [y], k) == [];
    }
  }

  /** How many of the first `n` items are rewritten to `x`. */
  function RewrittenItems(c: Change, prices: seq<Option<string>>, n: nat, x: PhaseItem): int
    requires n <= |prices|
  {
    (if x == PhaseItem(c.newBase, c.baseQuantity) && !IsOldSeat(c, c.base) then Surviving(c, prices, n, c.base) else 0) +
    (if c.seat.Some? && x == PhaseItem(Some(c.seat.value.newPrice), Some(c.seat.value.quantity))
     then Surviving(c, prices, n, Some(c.seat.value.oldPrice)) else 0)
  }

  lemma {:induction false} RewrittenItemsStep(c: Change, prices: seq<Option<string>>, n: nat, x: PhaseItem)
    requires n < |prices|
    ensures var v := VerdictAt(c, prices, n);
            RewrittenItems(c, prices, n + 1, x) == RewrittenItems(c, prices, n, x) +
            if || (v == SwapBase && x == PhaseItem(c.newBase, c.baseQuantity))
               || (v == SwapSeat && x == PhaseItem(Some(c.seat.value.newPrice), Some(c.seat.value.quantity))) then 1 else 0
  {
    CountStep(prices, n, c.base);
    if c.seat.Some? { CountStep(prices, n, Some(c.seat.value.oldPrice)); }
  }

  lemma {:induction false} OneCount<T>(y: T, x: T)
    ensures Count([y], x) == if y == x then 1 else 0
  {
    assert [y][..0] == [];
  }

  lemma {:induction false} ImmediateEntryCount(c: Change, items: seq<PhaseItem>, i: nat, x: PhaseItem)
    requires i < |items|
    ensures var v := VerdictAt(c, PhasePrices(items), i);
            Count(ImmediateEntry(c, items, i), x) ==
            if || (v == Keep && x == items[i])
               || (v == SwapBase && x == PhaseItem(c.newBase, c.baseQuantity))
               || (v == SwapSeat && x == PhaseItem(Some(c.seat.value.newPrice), Some(c.seat.value.quantity))) then 1 else 0
  {
    var entry := ImmediateEntry(c, items, i);
    if entry != [] { OneCount(entry[0], x); assert entry == [entry[0]]; }
  }

  lemma {:induction false} ImmediateEntriesCount(c: Change, items: seq<PhaseItem>, n: nat, x: PhaseItem)
    requires n <= |items|
    ensures Count(ImmediateEntries(c, items, n), x) == KeptItems(c, items, n, x) + RewrittenItems(c, PhasePrices(items), n, x)
  {
    if n > 0 {
      ImmediateEntriesCount(c, items, n - 1, x);
      ImmediateEntryCount(c, items, n - 1, x);
      RewrittenItemsStep(c, PhasePrices(items), n - 1, x);
      CountConcat(ImmediateEntries(c, items, n - 1), ImmediateEntry(c, items, n - 1), x);
    }
  }

  /** Added items have no quantity, so they are counted by price. */
  lemma {:induction false} AddedCount(prices: seq<string>, x: PhaseItem)
    ensures Count(AsPhaseItems(prices), x) == if x.quantity.None? then Count(PhasePrices(AsPhaseItems(prices)), x.price) else 0
  {
    if prices != [] {
      var n := |prices| - 1;
      AddedCount(prices[..n], x);
      assert AsPhaseItems(prices)[..n] == AsPhaseItems(prices[..n]);
      assert PhasePrices(AsPhaseItems(prices))[..n] == PhasePrices(AsPhaseItems(prices[..n]));
    }
  }

  lemma {:induction false} NoneAddedWithoutPrice(prices: seq<string>)
    ensures Count(PhasePrices(AsPhaseItems(prices)), None) == 0
  {
    if prices != [] {
      var n := |prices| - 1;
      NoneAddedWithoutPrice(prices[..n]);
      assert PhasePrices(AsPhaseItems(prices))[..n] == PhasePrices(AsPhaseItems(prices[..n]));
    }
  }

  function NoQuantities(n: nat): seq<Option<int>> {
    seq(n, _ => None)
  }

  lemma {:induction false} NoQuantitiesCount(n: nat, q: Option<int>)
    ensures Count(NoQuantities(n), q) == if q.None? then n else 0
  {
    if n > 0 {
      NoQuantitiesCount(n - 1, q);
      assert NoQuantities(n)[..n - 1] == NoQuantities(n - 1);
    }
  }

  function AddedAt(c: Change, prices: seq<Option<string>>, p: Option<string>): nat {
    if p.Some? then ToAdd(c, prices, |prices|, p.value) else 0
  }

  /** The quantities of the items that end with price `p` without being rewritten to it. */
  function FinalQuantities(c: Change, items: seq<PhaseItem>, p: Option<string>): seq<Option<int>> {
    KeptQuantities(c, items, |items|, p) + NoQuantities(AddedAt(c, PhasePrices(items), p))
  }

  /** Main result: how often every item, with its quantity, occurs after the immediate change. */
  lemma {:induction false} ImmediateItemCount(c: Change, items: seq<Item>, x: PhaseItem)
    requires DistinctIds(items) && WellFormedDelta(c)
    ensures Count(Apply(items, ImmediateSpec(c, items)), x)
         == RewrittenItems(c, ItemPrices(items), |items|, x)
            + Count(FinalQuantities(c, WithoutIds(items), x.price), x.quantity)
  {
    var bare, prices, n := WithoutIds(items), ItemPrices(items), |items|;
    var entries, added := ImmediateEntries(c, bare, n), Additions(c, prices, |c.order|);
    ApplyImmediate(c, items);
    CountConcat(entries, AsPhaseItems(added), x);
    ImmediateEntriesCount(c, bare, n, x);
    KeptItemsCount(c, bare, n, x);
    AddedCount(added, x);
    AddedTotal(c, prices, x.price);
    CountConcat(KeptQuantities(c, bare, n, x.price), NoQuantities(AddedAt(c, prices, x.price)), x.quantity);
    NoQuantitiesCount(AddedAt(c, prices, x.price), x.quantity);
  }

  lemma {:induction false} AddedTotal(c: Change, prices: seq<Option<string>>, p: Option<string>)
    requires WellFormedDelta(c)
    ensures Count(PhasePrices(AsPhaseItems(Additions(c, prices, |c.order|))), p) == AddedAt(c, prices, p)
  {
    if p.Some? {
      AdditionsCount(c, prices, |c.order|, p.value);
      assert c.order[..|c.order|] == c.order;
    } else {
      NoneAddedWithoutPrice(Additions(c, prices, |c.order|));
    }
  }

  // ----- the two branches agree -----

  predicate HasQuantityIfKept(c: Change, items: seq<PhaseItem>, i: nat)
    requires i < |items|
  {
    VerdictAt(c, PhasePrices(items), i) == Keep ==> items[i].quantity.Some?
  }

  /** No item that survives unchanged lacks a quantity. */
  ghost predicate KeptItemsHaveQuantity(c: Change, items: seq<PhaseItem>, n: nat)
    requires n <= |items|
  {
    forall i :: 0 <= i < n ==> HasQuantityIfKept(c, items, i)
  }

  lemma {:induction false} EqualHalves<T>(a: seq<T>, x: seq<T>, b: seq<T>, y: seq<T>)
    requires |a| == |b|
    ensures a + x == b + y <==> a == b && x == y
  {
    if a + x == b + y {
      assert (a + x)[..|a|] == a && (b + y)[..|b|] == b;
      assert (a + x)[|a|..] == x && (b + y)[|b|..] == y;
    }
  }

  lemma {:induction false} SameEntry(c: Change, items: seq<PhaseItem>, i: nat)
    requires i < |items|
    ensures |ImmediateEntry(c, items, i)| == |EntryAt(c, items, i)|
    ensures PhasePrices(ImmediateEntry(c, items, i)) == PhasePrices(EntryAt(c, items, i))
    ensures ImmediateEntry(c, items, i) == EntryAt(c, items, i) <==> HasQuantityIfKept(c, items, i)
  {
    if VerdictAt(c, PhasePrices(items), i) == Keep {
      assert EntryAt(c, items, i)[0].quantity == Some(items[i].quantity.GetOr(1));
      assert ImmediateEntry(c, items, i)[0] == items[i];
    }
  }

  lemma {:induction false} SamePrices(c: Change, items: seq<PhaseItem>, n: nat)
    requires n <= |items|
    ensures |ImmediateEntries(c, items, n)| == |Entries(c, items, n)|
    ensures PhasePrices(ImmediateEntries(c, items, n)) == PhasePrices(Entries(c, items, n))
  {
    if n > 0 {
      SamePrices(c, items, n - 1);
      SameEntry(c, items, n - 1);
      PricesConcat(ImmediateEntries(c, items, n - 1), ImmediateEntry(c, items, n - 1));
      PricesConcat(Entries(c, items, n - 1), EntryAt(c, items, n - 1));
    }
  }

  lemma {:induction false} QuantityStep(c: Change, items: seq<PhaseItem>, n: nat)
    requires n < |items|
    ensures KeptItemsHaveQuantity(c, items, n + 1) <==> KeptItemsHaveQuantity(c, items, n) && HasQuantityIfKept(c, items, n)
  {
  }

  lemma {:induction false} SameEntries(c: Change, items: seq<PhaseItem>, n: nat)
    requires n <= |items|
    ensures ImmediateEntries(c, items, n) == Entries(c, items, n) <==> KeptItemsHaveQuantity(c, items, n)
  {
    if n > 0 {
      SameEntries(c, items, n - 1);
      SamePrices(c, items, n - 1);
      SameEntry(c, items, n - 1);
      EqualHalves(ImmediateEntries(c, items, n - 1), ImmediateEntry(c, items, n - 1),
                  Entries(c, items, n - 1), EntryAt(c, items, n - 1));
      QuantityStep(c, items, n - 1);
    }
  }

  /**
  Main result: when the current phase lists the subscription's own prices and quantities,
  the two branches always agree on the sequence of prices, and they agree on quantities
  as well exactly when no item that is kept as it is lacks a quantity. (The scheduled
  branch writes 1 for a missing quantity, the immediate branch leaves the item alone.)
  */
  lemma {:induction false} BranchesAgree(c: Change, items: seq<Item>)
    requires DistinctIds(items)
    ensures PhasePrices(Apply(items, ImmediateSpec(c, items))) == PhasePrices(ScheduledSpec(c, WithoutIds(items)))
    ensures Apply(items, ImmediateSpec(c, items)) == ScheduledSpec(c, WithoutIds(items))
       <==> KeptItemsHaveQuantity(c, WithoutIds(items), |items|)
  {
    var bare := WithoutIds(items);
    ApplyImmediate(c, items);
    SamePrices(c, bare, |items|);
    SameEntries(c, bare, |items|);
    var a, b := ImmediateEntries(c, bare, |items|), Entries(c, bare, |items|);
    var added := AsPhaseItems(Additions(c, ItemPrices(items), |c.order|));
    PricesConcat(a, added);
    PricesConcat(b, added);
    EqualHalves(a, added, b, added);
  }

  /** The items with one for every missing quantity. */
  function Filled(items: seq<PhaseItem>): (r: seq<PhaseItem>)
    ensures |r| == |items| && PhasePrices(r) == PhasePrices(items)
    ensures forall i :: 0 <= i < |r| ==> r[i] == if items[i].quantity == None then PhaseItem(items[i].price, Some(1)) else items[i]
  {
    seq(|items|, i requires 0 <= i < |items| => if items[i].quantity == None then PhaseItem(items[i].price, Some(1)) else items[i])
  }

  lemma {:induction false} FilledEntries(c: Change, items: seq<PhaseItem>, n: nat)
    requires n <= |items|
    ensures Entries(c, items, n) == Entries(c, Filled(items), n)
    ensures KeptItemsHaveQuantity(c, Filled(items), n)
  {
    if n > 0 {
      FilledEntries(c, items, n - 1);
      assert EntryAt(c, items, n - 1) == EntryAt(c, Filled(items), n - 1);
    }
  }

  /** To the scheduled branch a missing quantity is one, and then it does what the immediate branch does. */
  lemma {:induction false} MissingQuantityIsOne(c: Change, items: seq<PhaseItem>)
    ensures ScheduledSpec(c, items) == ScheduledSpec(c, Filled(items))
    ensures ScheduledSpec(c, items) ==
            ImmediateEntries(c, Filled(items), |items|) + AsPhaseItems(Additions(c, PhasePrices(items), |c.order|))
  {
    FilledEntries(c, items, |items|);
    SameEntries(c, Filled(items), |items|);
  }

  /** Main result: the count of every price once Stripe has applied the immediate updates. */
  lemma {:induction false} ImmediateCount(c: Change, items: seq<Item>, p: string)
    requires DistinctIds(items) && WellFormedDelta(c)
    ensures Count(PhasePrices(Apply(items, ImmediateSpec(c, items))), Some(p)) == FinalCount(c, ItemPrices(items), p)
  {
    BranchesAgree(c, items);
    ScheduledCount(c, WithoutIds(items), p);
  }

  lemma {:induction false} LineItemCount(c: Change, prices: seq<Option<string>>, p: string)
    requires Some(p) != c.base && Some(p) != c.newBase
    requires c.seat.Some? ==> p != c.seat.value.oldPrice && p != c.seat.value.newPrice
    ensures var cur, d := Count(prices, Some(p)), AtOr(c.delta, p, 0);
            FinalCount(c, prices, p) == if d <= 0 then Max(cur + d, 0) else Max(cur, d)
  {
  }

  /** A price that is neither a base nor a seat price: removals stop at zero, additions count what is there. */
  lemma {:induction false} LineItemEffect(c: Change, items: seq<Item>, p: string)
    requires DistinctIds(items) && WellFormedDelta(c)
    requires Some(p) != c.base && Some(p) != c.newBase
    requires c.seat.Some? ==> p != c.seat.value.oldPrice && p != c.seat.value.newPrice
    ensures var cur, d := Count(ItemPrices(items), Some(p)), AtOr(c.delta, p, 0);
            Count(PhasePrices(Apply(items, ImmediateSpec(c, items))), Some(p))
            == if d <= 0 then Max(cur + d, 0) else Max(cur, d)
  {
    ImmediateCount(c, items, p);
    LineItemCount(c, ItemPrices(items), p);
  }

  // ----- ids -----

  lemma {:induction false} EditsNameItems(c: Change, items: seq<Item>, n: nat, k: nat)
    requires n <= |items| && k < |Edits(c, items, n)|
    ensures !Edits(c, items, n)[k].Added?
    ensures exists i :: 0 <= i < n && items[i].id == Edits(c, items, n)[k].id
  {
    var before := Edits(c, items, n - 1);
    if k < |before| {
      EditsNameItems(c, items, n - 1, k);
      assert Edits(c, items, n)[k] == before[k];
    } else {
      assert Edits(c, items, n)[k] == EditAt(c, items, n - 1)[k - |before|];
      assert items[n - 1].id == Edits(c, items, n)[k].id;
    }
  }

  lemma {:induction false} EditIdsDistinct(c: Change, items: seq<Item>, n: nat, j: nat, k: nat)
    requires n <= |items| && DistinctIds(items) && j < k < |Edits(c, items, n)|
    ensures !Edits(c, items, n)[j].Added? && !Edits(c, items, n)[k].Added?
    ensures Edits(c, items, n)[j].id != Edits(c, items, n)[k].id
  {
    var before := Edits(c, items, n - 1);
    if k < |before| {
      EditIdsDistinct(c, items, n - 1, j, k);
      assert Edits(c, items, n)[j] == before[j] && Edits(c, items, n)[k] == before[k];
    } else {
      assert k == |before|;
      EditsNameItems(c, items, n - 1, j);
      assert Edits(c, items, n)[j] == before[j];
      assert Edits(c, items, n)[k] == EditAt(c, items, n - 1)[0];
    }
  }

  /** Every id in the update list is an id of the subscription. */
  lemma {:induction false} EachIdKnown(c: Change, items: seq<Item>, k: nat)
    requires k < |ImmediateSpec(c, items)| && !ImmediateSpec(c, items)[k].Added?
    ensures exists i :: 0 <= i < |items| && items[i].id == ImmediateSpec(c, items)[k].id
  {
    var us, edits := ImmediateSpec(c, items), Edits(c, items, |items|);
    assert k < |edits|;
    EditsNameItems(c, items, |items|, k);
    assert us[k] == edits[k];
  }

  /** No id is mentioned twice, and the additions come after every entry that names one. */
  lemma {:induction false} EachIdOnce(c: Change, items: seq<Item>, j: nat, k: nat)
    requires DistinctIds(items) && j < k < |ImmediateSpec(c, items)|
    ensures var us := ImmediateSpec(c, items);
            !us[k].Added? ==> !us[j].Added? && us[j].id != us[k].id
    ensures forall m | 0 <= m < |ImmediateSpec(c, items)| && !ImmediateSpec(c, items)[m].Added? ::
              exists i :: 0 <= i < |items| && items[i].id == ImmediateSpec(c, items)[m].id
  {
    var us, edits := ImmediateSpec(c, items), Edits(c, items, |items|);
    if k < |edits| {
      EditIdsDistinct(c, items, |items|, j, k);
      assert us[j] == edits[j] && us[k] == edits[k];
    } else {
      assert us[k].Added?;
    }
    forall m | 0 <= m < |us| && !us[m].Added? ensures exists i :: 0 <= i < |items| && items[i].id == us[m].id {
      EachIdKnown(c, items, m);
    }
  }
}
