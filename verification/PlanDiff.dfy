/**
The multiset line-item diff of the Stripe upgrade handler.

An upgrade compares the line items of the old and the new plan, and edits the list of
items of a live subscription. The handler does this twice, in two loops written
separately: one builds the update list of an immediate change, the other the item list
of the next schedule phase. Both loops decrement quota dictionaries as they go. Here
each is proved equal to a closed form that has no running state: what happens to the
item at position i depends only on its price and on how many earlier items share it.
*/
module PlanDiff {
  import opened Options

  /** A subscription item; `price` is None when Stripe reports no price id. */
  datatype Item = Item(id: string, price: Option<string>, lookupKey: Option<string>, quantity: Option<int>)

  /** An item of a schedule phase, or an item seen without its id. */
  datatype PhaseItem = PhaseItem(price: Option<string>, quantity: Option<int>)

  /** One entry of the `items` argument of `subscriptions.update`. */
  datatype Update =
    | Deleted(id: string)
    | Rewritten(id: string, price: Option<string>, quantity: Option<int>)
    | Added(newPrice: string)

  /** The only entry the handler ever puts into its price map. */
  datatype SeatSwap = SeatSwap(oldPrice: string, newPrice: string, quantity: int)

  /**
  What the handler knows when a loop starts. `order` lists the keys of the delta
  dictionary in insertion order; a key deleted since is no longer in `delta`.
  */
  datatype Change = Change(
    base: Option<string>,
    newBase: Option<string>,
    baseQuantity: Option<int>,
    seat: Option<SeatSwap>,
    order: seq<string>,
    delta: map<string, int>)

  datatype Verdict = Remove | SwapSeat | SwapBase | Keep

  // ----- the line-item delta -----

  function Count<T(==)>(s: seq<T>, x: T): (n: nat) {
    if s == [] then 0 else Count(s[..|s| - 1], x) + (if s[|s| - 1] == x then 1 else 0)
  }

  lemma {:induction false} CountStep<T>(s: seq<T>, i: nat, x: T)
    requires i < |s|
    ensures Count(s[..i + 1], x) == Count(s[..i], x) + (if s[i] == x then 1 else 0)
  {
    assert s[..i + 1][..i] == s[..i];
  }

  predicate NoRepeats<T(==)>(s: seq<T>) {
    forall i, j :: 0 <= i < j < |s| ==> s[i] != s[j]
  }

  /** What the two plans' lines differ by in price `p`: above zero when the new plan has more. */
  function Difference(oldLines: seq<Option<string>>, newLines: seq<Option<string>>, p: string): int {
    Count(newLines, Some(p)) - Count(oldLines, Some(p))
  }

  /** `delta` is the signed multiset difference of the two line lists, without its zeros. */
  ghost predicate IsDelta(oldLines: seq<Option<string>>, newLines: seq<Option<string>>,
                          order: seq<string>, delta: map<string, int>)
  {
    && NoRepeats(order)
    && (forall p :: p in delta ==> p in order)
    && (forall p :: p in delta <==> Difference(oldLines, newLines, p) != 0)
    && (forall p :: p in delta ==> delta[p] == Difference(oldLines, newLines, p))
  }

  /** A key is noted where it is first seen. */
  function NoteKey(order: seq<string>, line: Option<string>): seq<string> {
    if line.Some? && line.value !in order then order + [line.value] else order
  }

  /** Keys of a dictionary filled from `lines` in turn, in insertion order. */
  function FirstSeen(lines: seq<Option<string>>): (r: seq<string>)
    ensures NoRepeats(r)
    ensures forall p :: p in r <==> Count(lines, Some(p)) > 0
  {
    if lines == [] then [] else NoteKey(FirstSeen(lines[..|lines| - 1]), lines[|lines| - 1])
  }

  lemma {:induction false} FirstSeenStep(seen: seq<Option<string>>, lines: seq<Option<string>>, i: nat)
    requires i < |lines|
    ensures FirstSeen(seen + lines[..i + 1]) == NoteKey(FirstSeen(seen + lines[..i]), lines[i])
  {
    var longer := seen + lines[..i + 1];
    assert longer[..|longer| - 1] == seen + lines[..i];
    assert longer[|longer| - 1] == lines[i];
  }

  /** Keys stay where they are as more lines come: they are in order of first appearance. */
  lemma {:induction false} SeenStaySeen(lines: seq<Option<string>>, n: nat)
    requires n <= |lines|
    ensures FirstSeen(lines[..n]) <= FirstSeen(lines)
  {
    if n == |lines| {
      assert lines[..n] == lines;
    } else {
      SeenStaySeen(lines[..|lines| - 1], n);
      assert lines[..|lines| - 1][..n] == lines[..n];
    }
  }

  function AtOr(m: map<string, int>, p: string, default: int): int {
    if p in m then m[p] else default
  }

  function Signed(add: bool, n: int): int {
    if add then n else -n
  }

  ghost predicate KeysAre(order: seq<string>, delta: map<string, int>) {
    forall p :: p in delta <==> p in order
  }

  /** `delta` is `start` with the first `n` lines counted. */
  ghost predicate Counted(start: map<string, int>, add: bool, lines: seq<Option<string>>, n: nat, delta: map<string, int>)
    requires n <= |lines|
  {
    forall p :: AtOr(delta, p, 0) == AtOr(start, p, 0) + Signed(add, Count(lines[..n], Some(p)))
  }

  function Bump(delta: map<string, int>, add: bool, line: Option<string>): map<string, int> {
    if line.Some? then delta[line.value := AtOr(delta, line.value, 0) + Signed(add, 1)] else delta
  }

  lemma {:induction false} CountedStep(start: map<string, int>, add: bool, lines: seq<Option<string>>, n: nat, delta: map<string, int>)
    requires n < |lines| && Counted(start, add, lines, n, delta)
    ensures Counted(start, add, lines, n + 1, Bump(delta, add, lines[n]))
  {
    forall p: string { CountStep(lines, n, Some(p)); }
  }

  /** What the counting loop holds after `n` lines. */
  ghost predicate LinesCounted(order: seq<string>, delta: map<string, int>, start: map<string, int>, add: bool,
                               seen: seq<Option<string>>, lines: seq<Option<string>>, n: nat)
    requires n <= |lines|
  {
    order == FirstSeen(seen + lines[..n]) && KeysAre(order, delta) && Counted(start, add, lines, n, delta)
  }

  lemma {:induction false} LinesStart(order: seq<string>, delta: map<string, int>, add: bool,
                                      seen: seq<Option<string>>, lines: seq<Option<string>>)
    requires order == FirstSeen(seen) && KeysAre(order, delta)
    ensures LinesCounted(order, delta, delta, add, seen, lines, 0)
  {
    assert seen + lines[..0] == seen && lines[..0] == [];
  }

  lemma {:induction false} LinesStep(order: seq<string>, delta: map<string, int>, start: map<string, int>, add: bool,
                                     seen: seq<Option<string>>, lines: seq<Option<string>>, n: nat)
    requires n < |lines| && LinesCounted(order, delta, start, add, seen, lines, n)
    ensures LinesCounted(NoteKey(order, lines[n]), Bump(delta, add, lines[n]), start, add, seen, lines, n + 1)
  {
    FirstSeenStep(seen, lines, n);
    CountedStep(start, add, lines, n, delta);
    KeysStep(order, delta, add, lines[n]);
  }

  lemma {:induction false} KeysStep(order: seq<string>, delta: map<string, int>, add: bool, line: Option<string>)
    requires KeysAre(order, delta)
    ensures KeysAre(NoteKey(order, line), Bump(delta, add, line))
  {
  }

  /** One of the two counting loops: the old plan's lines count down, the new plan's count up. */
  method CountLines(lines: seq<Option<string>>, add: bool, ghost seen: seq<Option<string>>,
                    order0: seq<string>, delta0: map<string, int>)
    returns (order: seq<string>, delta: map<string, int>)
    requires order0 == FirstSeen(seen) && KeysAre(order0, delta0)
    ensures LinesCounted(order, delta, delta0, add, seen, lines, |lines|)
  {
    order, delta := order0, delta0;
    LinesStart(order, delta, add, seen, lines);
    for i := 0 to |lines|
      invariant LinesCounted(order, delta, delta0, add, seen, lines, i)
    {
      LinesStep(order, delta, delta0, add, seen, lines, i);
      order, delta := NoteKey(order, lines[i]), Bump(delta, add, lines[i]);
    }
  }

  ghost predicate IsDifference(oldLines: seq<Option<string>>, newLines: seq<Option<string>>, delta: map<string, int>) {
    forall p :: AtOr(delta, p, 0) == Difference(oldLines, newLines, p)
  }

  lemma {:induction false} CountedTwice(oldLines: seq<Option<string>>, newLines: seq<Option<string>>,
                                        first: map<string, int>, delta: map<string, int>)
    requires Counted(map[], false, oldLines, |oldLines|, first) && Counted(first, true, newLines, |newLines|, delta)
    ensures IsDifference(oldLines, newLines, delta)
  {
    assert oldLines[..|oldLines|] == oldLines && newLines[..|newLines|] == newLines;
  }

  lemma {:induction false} NoZerosLeft(oldLines: seq<Option<string>>, newLines: seq<Option<string>>,
                                       order: seq<string>, delta: map<string, int>)
    requires NoRepeats(order) && IsDifference(oldLines, newLines, delta)
    requires forall p :: p in delta ==> p in order && delta[p] != 0
    ensures IsDelta(oldLines, newLines, order, delta)
  {
    forall p ensures p in delta <==> Difference(oldLines, newLines, p) != 0 {
      assert AtOr(delta, p, 0) == Difference(oldLines, newLines, p);
    }
    forall p | p in delta ensures delta[p] == Difference(oldLines, newLines, p) {
      assert AtOr(delta, p, 0) == Difference(oldLines, newLines, p);
    }
  }

  /** Deletes the keys whose count is zero. */
  method DropZeros(order: seq<string>, full: map<string, int>) returns (delta: map<string, int>)
    requires NoRepeats(order) && KeysAre(order, full)
    ensures forall p :: p in delta ==> p in order && delta[p] != 0
    ensures forall p :: AtOr(delta, p, 0) == AtOr(full, p, 0)
  {
    delta := full;
    for i := 0 to |order|
      invariant forall p :: p in delta ==> p in order
      invariant forall k :: i <= k < |order| ==> order[k] in delta
      invariant forall k :: 0 <= k < i ==> order[k] in delta ==> delta[order[k]] != 0
      invariant forall p :: AtOr(delta, p, 0) == AtOr(full, p, 0)
    {
      if delta[order[i]] == 0 {
        delta := delta - {order[i]};
      }
    }
  }

  method BuildDelta(oldLines: seq<Option<string>>, newLines: seq<Option<string>>)
    returns (order: seq<string>, delta: map<string, int>)
    ensures order == FirstSeen(oldLines + newLines)
    ensures IsDelta(oldLines, newLines, order, delta)
  {
    order, delta := CountLines(oldLines, false, [], [], map[]);
    assert [] + oldLines[..|oldLines|] == oldLines;
    ghost var first := delta;
    order, delta := CountLines(newLines, true, oldLines, order, delta);
    assert newLines[..|newLines|] == newLines;
    CountedTwice(oldLines, newLines, first, delta);
    ghost var full := delta;
    delta := DropZeros(order, delta);
    assert IsDifference(oldLines, newLines, delta) by {
      forall p ensures AtOr(delta, p, 0) == Difference(oldLines, newLines, p) {
        assert AtOr(full, p, 0) == Difference(oldLines, newLines, p);
      }
    }
    NoZerosLeft(oldLines, newLines, order, delta);
  }

  // ----- the closed form of both loops -----

  /** How many items of price `p` the change removes. */
  function Quota(c: Change, p: Option<string>): nat {
    if p.Some? && p.value in c.delta && c.delta[p.value] < 0 then -c.delta[p.value] else 0
  }

  predicate IsOldSeat(c: Change, p: Option<string>) {
    c.seat.Some? && p == Some(c.seat.value.oldPrice)
  }

  /** What happens to position `i` of a list of item prices. */
  function VerdictAt(c: Change, prices: seq<Option<string>>, i: nat): Verdict
    requires i < |prices|
  {
    var p := prices[i];
    if Count(prices[..i], p) < Quota(c, p) then Remove
    else if IsOldSeat(c, p) then SwapSeat
    else if p == c.base then SwapBase
    else Keep
  }

  /** How many of the first `n` items are kept and carry price `p`. */
  function Kept(c: Change, prices: seq<Option<string>>, n: nat, p: Option<string>): nat
    requires n <= |prices|
  {
    if n == 0 then 0
    else Kept(c, prices, n - 1, p) + (if prices[n - 1] == p && VerdictAt(c, prices, n - 1) == Keep then 1 else 0)
  }

  /** The copies of line item `p` that the first `n` kept items leave to be added. */
  function ToAdd(c: Change, prices: seq<Option<string>>, n: nat, p: string): nat
    requires n <= |prices|
  {
    if p in c.delta then Max(c.delta[p] - Kept(c, prices, n, Some(p)), 0) else 0
  }

  function Copies(n: nat, p: string): (r: seq<string>) {
    seq(n, _ => p)
  }

  /** The prices added at the end, in the order of the delta dictionary's keys. */
  function Additions(c: Change, prices: seq<Option<string>>, n: nat): seq<string>
    requires n <= |c.order|
  {
    if n == 0 then []
    else Additions(c, prices, n - 1) + Copies(ToAdd(c, prices, |prices|, c.order[n - 1]), c.order[n - 1])
  }

  function ItemPrices(items: seq<Item>): (r: seq<Option<string>>)
    ensures |r| == |items|
    ensures forall i :: 0 <= i < |r| ==> r[i] == items[i].price
  {
    seq(|items|, i requires 0 <= i < |items| => items[i].price)
  }

  function PhasePrices(items: seq<PhaseItem>): (r: seq<Option<string>>)
    ensures |r| == |items|
    ensures forall i :: 0 <= i < |r| ==> r[i] == items[i].price
  {
    seq(|items|, i requires 0 <= i < |items| => items[i].price)
  }

  /** The update that position `i` contributes: none when the item is left untouched. */
  function EditAt(c: Change, items: seq<Item>, i: nat): seq<Update>
    requires i < |items|
  {
    match VerdictAt(c, ItemPrices(items), i)
    case Remove => [Deleted(items[i].id)]
    case SwapSeat => [Rewritten(items[i].id, Some(c.seat.value.newPrice), Some(c.seat.value.quantity))]
    case SwapBase => [Rewritten(items[i].id, c.newBase, c.baseQuantity)]
    case Keep => []
  }

  function Edits(c: Change, items: seq<Item>, n: nat): seq<Update>
    requires n <= |items|
  {
    if n == 0 then [] else Edits(c, items, n - 1) + EditAt(c, items, n - 1)
  }

  /** The phase entry that position `i` contributes: none when the item is removed. */
  function EntryAt(c: Change, items: seq<PhaseItem>, i: nat): seq<PhaseItem>
    requires i < |items|
  {
    match VerdictAt(c, PhasePrices(items), i)
    case Remove => []
    case SwapSeat => [PhaseItem(Some(c.seat.value.newPrice), Some(c.seat.value.quantity))]
    case SwapBase => [PhaseItem(c.newBase, c.baseQuantity)]
    case Keep => [PhaseItem(items[i].price, Some(items[i].quantity.GetOr(1)))]
  }

  function Entries(c: Change, items: seq<PhaseItem>, n: nat): seq<PhaseItem>
    requires n <= |items|
  {
    if n == 0 then [] else Entries(c, items, n - 1) + EntryAt(c, items, n - 1)
  }

  function AsUpdates(prices: seq<string>): (r: seq<Update>)
    ensures |r| == |prices|
  {
    seq(|prices|, i requires 0 <= i < |prices| => Added(prices[i]))
  }

  function AsPhaseItems(prices: seq<string>): (r: seq<PhaseItem>)
    ensures |r| == |prices|
  {
    seq(|prices|, i requires 0 <= i < |prices| => PhaseItem(Some(prices[i]), None))
  }

  function ImmediateSpec(c: Change, items: seq<Item>): seq<Update> {
    Edits(c, items, |items|) + AsUpdates(Additions(c, ItemPrices(items), |c.order|))
  }

  function ScheduledSpec(c: Change, items: seq<PhaseItem>): seq<PhaseItem> {
    Entries(c, items, |items|) + AsPhaseItems(Additions(c, PhasePrices(items), |c.order|))
  }

  // ----- the running dictionaries of the two loops -----

  /** `quota` is what is left of the removal quotas after `n` items. */
  ghost predicate QuotaAfter(c: Change, prices: seq<Option<string>>, n: nat, quota: map<string, int>)
    requires n <= |prices|
  {
    forall p :: AtOr(quota, p, 0) == Max(Quota(c, Some(p)) - Count(prices[..n], Some(p)), 0)
  }

  /** `delta` is what is left of the delta dictionary after `n` items. */
  ghost predicate DeltaAfter(c: Change, prices: seq<Option<string>>, n: nat, delta: map<string, int>)
    requires n <= |prices|
  {
    forall p :: Max(AtOr(delta, p, 0), 0) == ToAdd(c, prices, n, p)
  }

  /** The quota dictionary both loops start from: the negative deltas, sign turned. */
  function RemovalQuotas(delta: map<string, int>): (q: map<string, int>) {
    map p | p in delta && delta[p] < 0 :: -delta[p]
  }

  /** The loops' step on a kept item: consume one positive delta. */
  function ConsumeOne(delta: map<string, int>, p: Option<string>): map<string, int> {
    if p.Some? && p.value in delta && delta[p.value] > 0 then
      if delta[p.value] == 1 then delta - {p.value} else delta[p.value := delta[p.value] - 1]
    else delta
  }

  lemma {:induction false} ConsumeKeepsDelta(c: Change, prices: seq<Option<string>>, n: nat, delta: map<string, int>)
    requires n < |prices| && DeltaAfter(c, prices, n, delta)
    ensures VerdictAt(c, prices, n) == Keep ==> DeltaAfter(c, prices, n + 1, ConsumeOne(delta, prices[n]))
    ensures VerdictAt(c, prices, n) != Keep ==> DeltaAfter(c, prices, n + 1, delta)
  {
    var rest := if VerdictAt(c, prices, n) == Keep then ConsumeOne(delta, prices[n]) else delta;
    forall p: string ensures Max(AtOr(rest, p, 0), 0) == ToAdd(c, prices, n + 1, p) {
      assert Max(AtOr(delta, p, 0), 0) == ToAdd(c, prices, n, p);
    }
  }

  lemma {:induction false} QuotaStep(c: Change, prices: seq<Option<string>>, n: nat, quota: map<string, int>)
    requires n < |prices| && QuotaAfter(c, prices, n, quota)
    ensures QuotaOf(quota, prices[n]) > 0 <==> VerdictAt(c, prices, n) == Remove
    ensures VerdictAt(c, prices, n) == Remove ==>
      QuotaAfter(c, prices, n + 1, quota[prices[n].value := quota[prices[n].value] - 1])
    ensures VerdictAt(c, prices, n) != Remove ==> QuotaAfter(c, prices, n + 1, quota)
  {
    var p := prices[n];
    if p.Some? { assert AtOr(quota, p.value, 0) == Max(Quota(c, p) - Count(prices[..n], p), 0); }
    forall q: string { CountStep(prices, n, Some(q)); }
  }

  function QuotaOf(quota: map<string, int>, p: Option<string>): int {
    if p.Some? then AtOr(quota, p.value, 0) else 0
  }

  /** The trailing loop of both branches: add every positive delta that is left. */
  method LeftToAdd(c: Change, ghost prices: seq<Option<string>>, delta: map<string, int>)
    returns (added: seq<string>)
    requires DeltaAfter(c, prices, |prices|, delta)
    ensures added == Additions(c, prices, |c.order|)
  {
    added := [];
    for k := 0 to |c.order|
      invariant added == Additions(c, prices, k)
    {
      var p := c.order[k];
      var n := Max(AtOr(delta, p, 0), 0);
      for j := 0 to n
        invariant added == Additions(c, prices, k) + Copies(j, p)
      {
        added := added + [p];
      }
    }
  }

  /** The immediate branch: per-item updates for `subscriptions.update`. */
  method ImmediateUpdates(c: Change, items: seq<Item>) returns (updates: seq<Update>)
    ensures updates == ImmediateSpec(c, items)
  {
    ghost var prices := ItemPrices(items);
    var quota := RemovalQuotas(c.delta);
    var delta := c.delta;
    updates := [];
    for i := 0 to |items|
      invariant updates == Edits(c, items, i)
      invariant QuotaAfter(c, prices, i, quota)
      invariant DeltaAfter(c, prices, i, delta)
    {
      var p := items[i].price;
      QuotaStep(c, prices, i, quota);
      ConsumeKeepsDelta(c, prices, i, delta);
      if QuotaOf(quota, p) > 0 {
        quota := quota[p.value := quota[p.value] - 1];
        updates := updates + [Deleted(items[i].id)];
      } else if IsOldSeat(c, p) {
        updates := updates + [Rewritten(items[i].id, Some(c.seat.value.newPrice), Some(c.seat.value.quantity))];
      } else if p == c.base {
        updates := updates + [Rewritten(items[i].id, c.newBase, c.baseQuantity)];
      } else {
        delta := ConsumeOne(delta, p);
      }
    }
    var added := LeftToAdd(c, prices, delta);
    updates := updates + AsUpdates(added);
  }

  /** The deferred branch: the items of the second phase of the schedule. */
  method ScheduledItems(c: Change, items: seq<PhaseItem>) returns (phase: seq<PhaseItem>)
    ensures phase == ScheduledSpec(c, items)
  {
    ghost var prices := PhasePrices(items);
    var quota := RemovalQuotas(c.delta);
    var delta := c.delta;
    phase := [];
    for i := 0 to |items|
      invariant phase == Entries(c, items, i)
      invariant QuotaAfter(c, prices, i, quota)
      invariant DeltaAfter(c, prices, i, delta)
    {
      var p := items[i].price;
      QuotaStep(c, prices, i, quota);
      ConsumeKeepsDelta(c, prices, i, delta);
      if QuotaOf(quota, p) > 0 {
        quota := quota[p.value := quota[p.value] - 1];
      } else if IsOldSeat(c, p) {
        phase := phase + [PhaseItem(Some(c.seat.value.newPrice), Some(c.seat.value.quantity))];
      } else if p == c.base {
        phase := phase + [PhaseItem(c.newBase, c.baseQuantity)];
      } else {
        phase := phase + [PhaseItem(p, Some(items[i].quantity.GetOr(1)))];
        delta := ConsumeOne(delta, p);
      }
    }
    var added := LeftToAdd(c, prices, delta);
    phase := phase + AsPhaseItems(added);
  }
}
