/**
API keys: a decrementing budget with timed refills, and a request counter that resets
after an idle gap. Times are milliseconds since the epoch.
*/
module ApiKeys {
  import opened Options
  import opened TableStore

  datatype Row = Row(
    enabled: Option<bool>,
    expiresAt: Option<int>,
    remaining: Option<int>,
    refillAmount: Option<int>,
    refillInterval: Option<int>,
    lastRefillAt: Option<int>,
    createdAt: int,
    rateLimitEnabled: Option<bool>,
    window: Option<int>,
    limit: Option<int>,
    lastRequest: Option<int>,
    requestCount: int)

  datatype Failure =
    | InvalidKey
    | Disabled
    | Expired
    | NotPermitted
    | UsageExceeded
    | RateLimited(tryAgainIn: int)

  datatype Outcome = Valid(row: Row) | Invalid(reason: Failure)

  /** What is left of the row, None when it was deleted or never there, and the answer. */
  datatype Step = Step(row: Option<Row>, outcome: Outcome)

  /** One presentation of a key; the two flags are the answers of the config and permission checks. */
  datatype Call = Call(now: int, configMatches: bool, permitted: bool)

  predicate NonZero(n: Option<int>) {
    n.Some? && n.value != 0
  }

  // ----- creating a key -----

  datatype Settings = Settings(
    remaining: Option<int>,
    refillAmount: Option<int>,
    refillInterval: Option<int>,
    rateLimitEnabled: bool,
    window: int,
    limit: int,
    expiresAt: Option<int>)

  /** The row a new key starts with; None when only one half of the refill settings is given. */
  function NewRow(s: Settings, now: int): Option<Row> {
    if NonZero(s.refillAmount) != NonZero(s.refillInterval) then None
    else Some(Row(Some(true), s.expiresAt,
                  if s.remaining.None? && s.refillAmount.Some? then s.refillAmount else s.remaining,
                  s.refillAmount, s.refillInterval, None, now,
                  Some(s.rateLimitEnabled), Some(s.window), Some(s.limit), None, 0))
  }

  predicate PastExpiry(row: Row, now: int) {
    row.expiresAt.Some? && row.expiresAt.value < now
  }

  // ----- one validation -----

  datatype Limit = Allowed(row: Row) | Denied(tryAgainIn: int)

  /** The request counter: every allowed request restamps `lastRequest`. */
  function RateLimit(row: Row, limiterOn: bool, now: int): Limit {
    if !limiterOn || row.rateLimitEnabled == Some(false) then Allowed(row.(lastRequest := Some(now)))
    else if row.window.None? || row.limit.None? then Allowed(row)
    else if row.lastRequest.None? then Allowed(row.(lastRequest := Some(now), requestCount := 1))
    else
      var elapsed := now - row.lastRequest.value;
      if elapsed > row.window.value then Allowed(row.(lastRequest := Some(now), requestCount := 1))
      else if row.requestCount >= row.limit.value then Denied(row.window.value - elapsed)
      else Allowed(row.(lastRequest := Some(now), requestCount := row.requestCount + 1))
  }

  function LastRefill(row: Row): int {
    if NonZero(row.lastRefillAt) then row.lastRefillAt.value else row.createdAt
  }

  predicate RefillDue(row: Row, now: int) {
    NonZero(row.refillInterval) && NonZero(row.refillAmount) && now - LastRefill(row) > row.refillInterval.value
  }

  /** The row after a refill that is due, before anything is spent. */
  function Refilled(row: Row, now: int): Row {
    if row.remaining.Some? && RefillDue(row, now)
    then row.(remaining := row.refillAmount, lastRefillAt := Some(now))
    else row
  }

  function Spend(row: Row): Row {
    if row.remaining.Some? then row.(remaining := Some(row.remaining.value - 1)) else row
  }

  predicate IsExpired(row: Row, now: int) {
    NonZero(row.expiresAt) && now > row.expiresAt.value
  }

  predicate IsSpentForGood(row: Row) {
    row.remaining == Some(0) && row.refillAmount.None?
  }

  function Validate(stored: Option<Row>, limiterOn: bool, call: Call): Step {
    if stored.None? then Step(None, Invalid(InvalidKey))
    else
      var row := stored.value;
      if !call.configMatches then Step(stored, Invalid(InvalidKey))
      else if row.enabled == Some(false) then Step(stored, Invalid(Disabled))
      else if IsExpired(row, call.now) then Step(None, Invalid(Expired))
      else if !call.permitted then Step(stored, Invalid(NotPermitted))
      else if IsSpentForGood(row) then Step(None, Invalid(UsageExceeded))
      else
        var filled := Refilled(row, call.now);
        if filled.remaining == Some(0) then Step(stored, Invalid(UsageExceeded))
        else match RateLimit(Spend(filled), limiterOn, call.now)
          case Denied(tryAgainIn) => Step(stored, Invalid(RateLimited(tryAgainIn)))
          case Allowed(updated) => Step(Some(updated), Valid(updated))
  }

  // ----- the stored keys -----

  class KeyStore {
    const table: Table<string, Row>

    constructor ()
      ensures Consistent() && fresh(table) && Keys() == map[]
    {
      table := new Table<string, Row>();
    }

    ghost predicate Consistent()
      reads table
    {
      table.Valid()
    }

    ghost function Keys(): map<string, Row>
      reads table
    {
      table.View()
    }

    /** Creating a key purges every key that has expired, unless the settings are refused. */
    method CreateKey(hashed: string, settings: Settings, now: int) returns (ok: bool)
      requires Consistent() && hashed !in Keys()
      modifies table
      ensures Consistent() && ok == NewRow(settings, now).Some?
      ensures !ok ==> Keys() == old(Keys())
      ensures ok ==> Lookup(Keys(), hashed) == NewRow(settings, now)
      ensures var was := old(Keys());
              ok ==> Keys() - {hashed} == map k | k in was && (was[k].expiresAt == None || now <= was[k].expiresAt.value) :: was[k]
    {
      var row := NewRow(settings, now);
      ok := row.Some?;
      if ok {
        var _ := table.DeleteMany((_, row: Row) => PastExpiry(row, now));
        table.Create(hashed, row.value);
      }
    }

    /** Validates a key and writes, deletes or leaves its row; no other key is touched. */
    method ValidateApiKey(hashed: string, limiterOn: bool, call: Call) returns (outcome: Outcome)
      requires Consistent()
      modifies table
      ensures Consistent()
      ensures Step(Lookup(Keys(), hashed), outcome) == Validate(old(Lookup(Keys(), hashed)), limiterOn, call)
      ensures Keys() - {hashed} == old(Keys()) - {hashed}
    {
      var found := table.FindOne(hashed);
      if found.None? {
        return Invalid(InvalidKey);
      }
      var row := found.value;
      if !call.configMatches {
        return Invalid(InvalidKey);
      }
      if row.enabled == Some(false) {
        return Invalid(Disabled);
      }
      if IsExpired(row, call.now) {
        var _ := table.ConsumeOne(hashed);
        return Invalid(Expired);
      }
      if !call.permitted {
        return Invalid(NotPermitted);
      }
      var remaining, lastRefillAt := row.remaining, row.lastRefillAt;
      if remaining == Some(0) && row.refillAmount.None? {
        var _ := table.ConsumeOne(hashed);
        return Invalid(UsageExceeded);
      } else if remaining.Some? {
        if RefillDue(row, call.now) {
          remaining, lastRefillAt := row.refillAmount, Some(call.now);
        }
        if remaining == Some(0) {
          return Invalid(UsageExceeded);
        }
        remaining := Some(remaining.value - 1);
      }
      match RateLimit(row.(remaining := remaining, lastRefillAt := lastRefillAt), limiterOn, call.now) {
        case Denied(tryAgainIn) => return Invalid(RateLimited(tryAgainIn));
        case Allowed(updated) =>
          var _ := table.Update(hashed, (row: Row) => row.(
            remaining := updated.remaining, lastRefillAt := updated.lastRefillAt,
            lastRequest := updated.lastRequest, requestCount := updated.requestCount));
          return Valid(updated);
      }
    }
  }

  // ----- failures -----

  /**
  A validation that fails writes nothing: the row stays as it was, or is deleted, and it is
  deleted exactly when it has expired or its budget is spent with no refill configured.
  */
  lemma {:induction false} FailureWritesNothing(row: Row, limiterOn: bool, call: Call)
    ensures var s := Validate(Some(row), limiterOn, call);
            s.outcome.Invalid? ==> s.row == Some(row) || s.row == None
    ensures Validate(Some(row), limiterOn, call).row == None <==>
            call.configMatches && row.enabled != Some(false) &&
            (IsExpired(row, call.now) || (call.permitted && IsSpentForGood(row)))
  {
  }

  /**
  The hint of a denial is one millisecond short: the limiter still denies after exactly
  that wait, and allows at every later time.
  */
  lemma {:induction false} HintIsOneShort(row: Row, limiterOn: bool, now: int, later: int)
    requires RateLimit(row, limiterOn, now).Denied? && now <= later
    ensures RateLimit(row, limiterOn, later).Denied? <==> later <= now + RateLimit(row, limiterOn, now).tryAgainIn
    ensures RateLimit(row, limiterOn, now + RateLimit(row, limiterOn, now).tryAgainIn) == Denied(0)
  {
  }

  // ----- runs -----

  /** What a run leaves: the row, the times of its successes, and how many of them refilled. */
  datatype Trace = Trace(row: Option<Row>, times: seq<int>, refills: nat)

  /** What one call makes of a run so far. */
  function Extend(t: Trace, limiterOn: bool, call: Call): Trace {
    var s := Validate(t.row, limiterOn, call);
    if s.outcome.Invalid? then t.(row := s.row)
    else Trace(s.row, t.times + [call.now],
               t.refills + if t.row.value.remaining.Some? && RefillDue(t.row.value, call.now) then 1 else 0)
  }

  function Play(row: Row, limiterOn: bool, calls: seq<Call>): Trace {
    if calls == [] then Trace(Some(row), [], 0)
    else
      Extend(Play(row, limiterOn, calls[..|calls| - 1]), limiterOn, calls[|calls| - 1])
  }

  /** The clock never goes back, and does not read earlier than `start`. */
  ghost predicate Ordered(calls: seq<Call>, start: int) {
    && (forall i :: 0 <= i < |calls| ==> start <= calls[i].now)
    && (forall i, j :: 0 <= i < j < |calls| ==> calls[i].now <= calls[j].now)
  }

  predicate SameSettings(a: Row, b: Row) {
    && a.enabled == b.enabled && a.expiresAt == b.expiresAt && a.createdAt == b.createdAt
    && a.refillAmount == b.refillAmount && a.refillInterval == b.refillInterval
    && a.rateLimitEnabled == b.rateLimitEnabled && a.window == b.window && a.limit == b.limit
    && (a.remaining.Some? <==> b.remaining.Some?)
  }

  lemma {:induction false} StepKeepsSettings(row: Row, limiterOn: bool, call: Call)
    ensures var s := Validate(Some(row), limiterOn, call); s.row.Some? ==> SameSettings(row, s.row.value)
  {
  }

  lemma {:induction false} SettingsFixed(row: Row, limiterOn: bool, calls: seq<Call>)
    ensures var t := Play(row, limiterOn, calls); t.row.Some? ==> SameSettings(row, t.row.value)
  {
    if calls != [] {
      SettingsFixed(row, limiterOn, calls[..|calls| - 1]);
      var t := Play(row, limiterOn, calls[..|calls| - 1]);
      if t.row.Some? { StepKeepsSettings(t.row.value, limiterOn, calls[|calls| - 1]); }
    }
  }

  // ----- the budget -----

  predicate Refills(row: Row) {
    NonZero(row.refillInterval) && NonZero(row.refillAmount)
  }

  /** A budget of at least zero and, if it is refilled, positive refill settings. */
  predicate Sensible(row: Row) {
    && row.remaining.Some? && row.remaining.value >= 0
    && (Refills(row) ==> row.refillInterval.value > 0 && row.refillAmount.value > 0)
  }

  /** A counted key as it is created. */
  predicate Counted(row: Row) {
    Sensible(row) && row.lastRefillAt.None? && row.createdAt >= 0
  }

  function PerRefill(row: Row): int {
    if Refills(row) then row.refillAmount.value else 0
  }

  function Period(row: Row): int {
    if Refills(row) then row.refillInterval.value + 1 else 1
  }

  /**
  The invariant of the budget: what was spent and what is left came from the initial
  budget and the refills, and the refills are at least a period apart.
  */
  ghost predicate BudgetHolds(row: Row, t: Trace, now: int)
    requires row.remaining.Some?
  {
    && |t.times| + (if t.row.Some? && t.row.value.remaining.Some? then t.row.value.remaining.value else 0)
         <= row.remaining.value + t.refills * PerRefill(row)
    && (t.row.Some? ==> t.row.value.remaining.Some? && t.row.value.remaining.value >= 0)
    && (t.row.Some? ==> t.refills * Period(row) <= LastRefill(t.row.value) - row.createdAt)
    && (t.row.Some? ==> LastRefill(t.row.value) <= now)
    && t.refills * Period(row) <= now - row.createdAt
    && (!Refills(row) ==> t.refills == 0)
  }

  lemma {:induction false} OneMore(k: int, n: int)
    ensures (k + 1) * n == k * n + n
  {
  }

  /** A success takes one from the budget, or from a fresh refill. */
  lemma {:induction false} SuccessSpends(row: Row, limiterOn: bool, call: Call)
    requires row.remaining.Some? && 0 <= row.createdAt <= call.now
    requires Validate(Some(row), limiterOn, call).outcome.Valid?
    ensures var after := Validate(Some(row), limiterOn, call).row;
            var left := if RefillDue(row, call.now) then row.refillAmount.value else row.remaining.value;
            && after.Some? && left != 0 && after.value.remaining == Some(left - 1)
            && LastRefill(after.value) == if RefillDue(row, call.now) then call.now else LastRefill(row)
  {
  }

  lemma {:induction false} BudgetFailure(row: Row, t: Trace, limiterOn: bool, call: Call, before: int)
    requires Counted(row) && BudgetHolds(row, t, before) && row.createdAt <= before <= call.now
    requires Validate(t.row, limiterOn, call).outcome.Invalid?
    ensures BudgetHolds(row, Extend(t, limiterOn, call), call.now)
  {
    if t.row.Some? {
      FailureWritesNothing(t.row.value, limiterOn, call);
    }
  }

  lemma {:induction false} BudgetSuccess(row: Row, t: Trace, limiterOn: bool, call: Call, before: int)
    requires Counted(row) && BudgetHolds(row, t, before) && row.createdAt <= before <= call.now
    requires t.row.Some? && SameSettings(row, t.row.value)
    requires Validate(t.row, limiterOn, call).outcome.Valid?
    ensures BudgetHolds(row, Extend(t, limiterOn, call), call.now)
  {
    SuccessSpends(t.row.value, limiterOn, call);
    OneMore(t.refills, PerRefill(row));
    OneMore(t.refills, Period(row));
    assert RefillDue(t.row.value, call.now) ==> Refills(row);
  }

  lemma {:induction false} BudgetStep(row: Row, t: Trace, limiterOn: bool, call: Call, before: int)
    requires Counted(row) && BudgetHolds(row, t, before) && row.createdAt <= before <= call.now
    requires t.row.Some? ==> SameSettings(row, t.row.value)
    ensures BudgetHolds(row, Extend(t, limiterOn, call), call.now)
  {
    if Validate(t.row, limiterOn, call).outcome.Invalid? {
      BudgetFailure(row, t, limiterOn, call, before);
    } else {
      BudgetSuccess(row, t, limiterOn, call, before);
    }
  }

  lemma {:induction false} BudgetInvariant(row: Row, limiterOn: bool, calls: seq<Call>, now: int)
    requires Counted(row) && Ordered(calls, row.createdAt)
    requires row.createdAt <= now && forall i :: 0 <= i < |calls| ==> calls[i].now <= now
    ensures BudgetHolds(row, Play(row, limiterOn, calls), now)
    decreases |calls|
  {
    if calls != [] {
      var call := calls[|calls| - 1];
      BudgetInvariant(row, limiterOn, calls[..|calls| - 1], call.now);
      SettingsFixed(row, limiterOn, calls[..|calls| - 1]);
      BudgetStep(row, Play(row, limiterOn, calls[..|calls| - 1]), limiterOn, call, call.now);
    }
  }

  lemma {:induction false} AtMostDiv(k: nat, n: int, span: int)
    requires n > 0 && k * n <= span
    ensures k <= span / n
  {
    var q := span / n;
    assert span < (q + 1) * n by { assert span == q * n + span % n; OneMore(q, n); }
    if k > q {
      MulOrder(q + 1, k, n);
      assert false;
    }
  }

  lemma {:induction false} MulOrder(a: int, b: int, n: int)
    requires a <= b && n >= 0
    ensures a * n <= b * n
  {
  }

  /**
  Main result: over any run of a counted key the budget never goes below zero, and the
  successes up to time `now` are at most the initial budget plus one refill amount for each
  whole period of `refillInterval + 1` since the key was created (nothing without refills).
  */
  lemma {:induction false} BudgetBound(row: Row, limiterOn: bool, calls: seq<Call>, now: int)
    requires Counted(row) && Ordered(calls, row.createdAt)
    requires row.createdAt <= now && forall i :: 0 <= i < |calls| ==> calls[i].now <= now
    ensures var t := Play(row, limiterOn, calls);
            && (t.row.Some? ==> t.row.value.remaining.Some? && t.row.value.remaining.value >= 0)
            && |t.times| <= row.remaining.value +
                 if Refills(row) then (now - row.createdAt) / (row.refillInterval.value + 1) * row.refillAmount.value else 0
  {
    BudgetInvariant(row, limiterOn, calls, now);
    var t := Play(row, limiterOn, calls);
    if Refills(row) {
      AtMostDiv(t.refills, Period(row), now - row.createdAt);
      MulOrder(t.refills, (now - row.createdAt) / Period(row), PerRefill(row));
    }
  }

  // ----- when the budget bounds anything -----

  predicate LimiterApplies(row: Row, limiterOn: bool) {
    limiterOn && row.rateLimitEnabled != Some(false) && row.window.Some? && row.limit.Some?
  }

  /** A new key with a budget, to which neither expiry nor the limiter applies. */
  predicate OnlyBudgeted(row: Row, limiterOn: bool) {
    && row.remaining.Some? && row.lastRefillAt.None? && row.createdAt >= 0
    && row.enabled != Some(false) && row.expiresAt.None? && !LimiterApplies(row, limiterOn)
  }

  ghost predicate UpTo(calls: seq<Call>, start: int, now: int) {
    Ordered(calls, start) && forall i :: 0 <= i < |calls| ==> calls[i].now <= now
  }

  ghost predicate AllWithin(row: Row, limiterOn: bool, now: int, bound: int) {
    forall calls :: UpTo(calls, row.createdAt, now) ==> |Play(row, limiterOn, calls).times| <= bound
  }

  /** However many calls are made by then, no more than some number of them succeed. */
  ghost predicate UsesBounded(row: Row, limiterOn: bool, now: int) {
    exists bound: int :: AllWithin(row, limiterOn, now, bound)
  }

  function Repeated(n: nat, now: int): seq<Call> {
    seq(n, _ => Call(now, true, true))
  }

  /** A row that lets any number of calls at `now` succeed. */
  predicate Endless(row: Row, limiterOn: bool, now: int) {
    && row.remaining.Some? && row.enabled != Some(false) && row.expiresAt.None?
    && !LimiterApplies(row, limiterOn) && LastRefill(row) <= now
    && if Refills(row) && row.refillInterval.value < 0 then true
       else if RefillDue(row, now) then row.refillAmount.value < 0 && now > 0
       else row.remaining.value < 0
  }

  lemma {:induction false} EndlessStep(row: Row, limiterOn: bool, now: int)
    requires Endless(row, limiterOn, now) && row.createdAt <= now
    ensures var s := Validate(Some(row), limiterOn, Call(now, true, true));
            s.outcome.Valid? && s.row.Some? && Endless(s.row.value, limiterOn, now)
  {
  }

  lemma {:induction false} EndlessRun(row: Row, limiterOn: bool, now: int, n: nat)
    requires Endless(row, limiterOn, now) && row.createdAt <= now
    ensures var t := Play(row, limiterOn, Repeated(n, now));
            |t.times| == n && t.row.Some? && Endless(t.row.value, limiterOn, now)
  {
    if n > 0 {
      EndlessRun(row, limiterOn, now, n - 1);
      assert Repeated(n, now)[..n - 1] == Repeated(n - 1, now);
      SettingsFixed(row, limiterOn, Repeated(n - 1, now));
      EndlessStep(Play(row, limiterOn, Repeated(n - 1, now)).row.value, limiterOn, now);
    }
  }

  lemma {:induction false} EndlessIsUnbounded(row: Row, limiterOn: bool, now: int)
    requires Endless(row, limiterOn, now) && row.createdAt <= now
    ensures !UsesBounded(row, limiterOn, now)
  {
    forall bound: int ensures !AllWithin(row, limiterOn, now, bound) {
      var n := if bound < 0 then 0 else bound + 1;
      EndlessRun(row, limiterOn, now, n);
      assert UpTo(Repeated(n, now), row.createdAt, now);
    }
  }

  /** When the trouble starts, if the settings are not sensible. */
  function TroubleAt(row: Row): int {
    if row.remaining.Some? && row.remaining.value >= 0 && Refills(row) && row.refillInterval.value > 0
    then row.createdAt + row.refillInterval.value + 1
    else row.createdAt
  }

  /**
  The budget of a key bounds its successes if and only if the settings are sensible. Key
  creation rejects none of the others: a negative budget never runs out, a negative refill
  amount makes it negative, and a negative interval refills it before every use.
  */
  lemma {:induction false} BoundedExactly(row: Row, limiterOn: bool)
    requires OnlyBudgeted(row, limiterOn)
    ensures (forall now :: row.createdAt <= now ==> UsesBounded(row, limiterOn, now)) <==> Sensible(row)
  {
    if Sensible(row) {
      forall now | row.createdAt <= now ensures UsesBounded(row, limiterOn, now) {
        var bound := row.remaining.value +
                     if Refills(row) then (now - row.createdAt) / (row.refillInterval.value + 1) * row.refillAmount.value else 0;
        forall calls | UpTo(calls, row.createdAt, now) ensures |Play(row, limiterOn, calls).times| <= bound {
          BudgetBound(row, limiterOn, calls, now);
        }
        assert AllWithin(row, limiterOn, now, bound);
      }
    } else {
      EndlessIsUnbounded(row, limiterOn, TroubleAt(row));
    }
  }

  // ----- when the budget stays above zero -----

  ghost predicate NotNegative(r: Option<Row>) {
    r.Some? && r.value.remaining.Some? ==> r.value.remaining.value >= 0
  }

  predicate RefillsPositive(row: Row) {
    Refills(row) ==> row.refillAmount.value > 0
  }

  lemma {:induction false} NotNegativeStep(row: Row, limiterOn: bool, call: Call)
    requires NotNegative(Some(row)) && RefillsPositive(row)
    ensures NotNegative(Validate(Some(row), limiterOn, call).row)
  {
  }

  lemma {:induction false} NotNegativeRun(row: Row, limiterOn: bool, calls: seq<Call>)
    requires NotNegative(Some(row)) && RefillsPositive(row)
    ensures NotNegative(Play(row, limiterOn, calls).row)
  {
    if calls != [] {
      var front := calls[..|calls| - 1];
      NotNegativeRun(row, limiterOn, front);
      SettingsFixed(row, limiterOn, front);
      var t := Play(row, limiterOn, front);
      if t.row.Some? { NotNegativeStep(t.row.value, limiterOn, calls[|calls| - 1]); }
    }
  }

  /** The first call that finds a refill due. */
  function FirstRefill(row: Row): Call
    requires Refills(row)
  {
    Call(row.createdAt + Max(row.refillInterval.value, 0) + 1, true, true)
  }

  lemma {:induction false} RefillGoesNegative(row: Row, limiterOn: bool)
    requires OnlyBudgeted(row, limiterOn) && row.remaining.value >= 0 && !RefillsPositive(row)
    ensures Ordered([FirstRefill(row)], row.createdAt) && !NotNegative(Play(row, limiterOn, [FirstRefill(row)]).row)
  {
    var call := FirstRefill(row);
    assert [call][..0] == [];
    assert RefillDue(row, call.now);
    assert Play(row, limiterOn, [call]) == Extend(Play(row, limiterOn, []), limiterOn, call);
  }

  /**
  The budget stays at or above zero in every run if and only if it starts there and no refill
  amount is negative. The interval does not matter for this: a negative one refills too often.
  */
  lemma {:induction false} NotNegativeExactly(row: Row, limiterOn: bool)
    requires OnlyBudgeted(row, limiterOn)
    ensures (forall calls | Ordered(calls, row.createdAt) :: NotNegative(Play(row, limiterOn, calls).row))
       <==> row.remaining.value >= 0 && RefillsPositive(row)
  {
    if row.remaining.value < 0 {
      assert Ordered([], row.createdAt) && !NotNegative(Play(row, limiterOn, []).row);
    } else if !RefillsPositive(row) {
      RefillGoesNegative(row, limiterOn);
    } else {
      forall calls | Ordered(calls, row.createdAt) ensures NotNegative(Play(row, limiterOn, calls).row) {
        NotNegativeRun(row, limiterOn, calls);
      }
    }
  }

  // ----- the rate limit -----

  /** A key the limiter applies to, as it is created. */
  predicate Limited(row: Row, limiterOn: bool) {
    && limiterOn && row.rateLimitEnabled != Some(false)
    && row.window.Some? && row.limit.Some? && row.lastRequest.None?
  }

  /** The length of the last stretch of times with no gap longer than `window`. */
  function Burst(times: seq<int>, window: int): nat {
    if |times| <= 1 then |times|
    else if times[|times| - 1] - times[|times| - 2] > window then 1
    else 1 + Burst(times[..|times| - 1], window)
  }

  ghost predicate BurstsBounded(times: seq<int>, window: int, bound: int) {
    forall n :: 0 <= n <= |times| ==> Burst(times[..n], window) <= bound
  }

  /** The stored counter is the length of the last burst, and no burst has outgrown the limit. */
  ghost predicate LimiterHolds(t: Trace, window: int, bound: int) {
    && BurstsBounded(t.times, window, bound)
    && (t.row.Some? && t.times == [] ==> t.row.value.lastRequest.None?)
    && (t.row.Some? && t.times != [] ==> t.row.value.lastRequest == Some(t.times[|t.times| - 1]))
    && (t.row.Some? && t.times != [] ==> t.row.value.requestCount == Burst(t.times, window))
  }

  /** What a success does to the counter, and when it is possible. */
  lemma {:induction false} SuccessStamps(row: Row, limiterOn: bool, call: Call)
    requires limiterOn && row.rateLimitEnabled != Some(false) && row.window.Some? && row.limit.Some?
    requires Validate(Some(row), limiterOn, call).outcome.Valid?
    ensures var after := Validate(Some(row), limiterOn, call).row;
            && after.Some? && after.value.lastRequest == Some(call.now)
            && (if row.lastRequest.None? || call.now - row.lastRequest.value > row.window.value
                then after.value.requestCount == 1
                else after.value.requestCount == row.requestCount + 1 && row.requestCount < row.limit.value)
  {
  }

  lemma {:induction false} BurstsExtend(times: seq<int>, now: int, window: int, bound: int)
    requires BurstsBounded(times, window, bound) && Burst(times + [now], window) <= bound
    ensures BurstsBounded(times + [now], window, bound)
  {
    var more := times + [now];
    forall n | 0 <= n <= |more| ensures Burst(more[..n], window) <= bound {
      if n == |more| { assert more[..n] == more; } else { assert more[..n] == times[..n]; }
    }
  }

  lemma {:induction false} LimiterStep(row: Row, t: Trace, limiterOn: bool, call: Call)
    requires Limited(row, limiterOn) && t.row.Some? && SameSettings(row, t.row.value)
    requires LimiterHolds(t, row.window.value, Max(1, row.limit.value))
    requires Validate(t.row, limiterOn, call).outcome.Valid?
    ensures LimiterHolds(Extend(t, limiterOn, call), row.window.value, Max(1, row.limit.value))
  {
    SuccessStamps(t.row.value, limiterOn, call);
    assert (t.times + [call.now])[..|t.times|] == t.times;
    BurstsExtend(t.times, call.now, row.window.value, Max(1, row.limit.value));
  }

  lemma {:induction false} LimiterInvariant(row: Row, limiterOn: bool, calls: seq<Call>)
    requires Limited(row, limiterOn)
    ensures LimiterHolds(Play(row, limiterOn, calls), row.window.value, Max(1, row.limit.value))
  {
    if calls != [] {
      var front, call := calls[..|calls| - 1], calls[|calls| - 1];
      LimiterInvariant(row, limiterOn, front);
      SettingsFixed(row, limiterOn, front);
      var t := Play(row, limiterOn, front);
      if t.row.Some? {
        FailureWritesNothing(t.row.value, limiterOn, call);
        if Validate(t.row, limiterOn, call).outcome.Valid? {
          LimiterStep(row, t, limiterOn, call);
        }
      }
    }
  }

  lemma {:induction false} StretchWithinBurst(times: seq<int>, window: int, i: nat, j: nat)
    requires i <= j < |times|
    requires forall k :: i <= k < j ==> times[k + 1] - times[k] <= window
    ensures Burst(times[..j + 1], window) >= j - i + 1
    decreases j
  {
    if i < j {
      StretchWithinBurst(times, window, i, j - 1);
      assert times[..j + 1][..j] == times[..j];
      assert times[(j - 1) + 1] - times[j - 1] <= window;
    }
  }

  /** Main result: successes with no idle gap longer than the window between them are at most the limit. */
  lemma {:induction false} BurstBound(row: Row, limiterOn: bool, calls: seq<Call>, i: nat, j: nat)
    requires Limited(row, limiterOn)
    requires var times := Play(row, limiterOn, calls).times;
             i <= j < |times| && forall k :: i <= k < j ==> times[k + 1] - times[k] <= row.window.value
    ensures j - i + 1 <= Max(1, row.limit.value)
  {
    LimiterInvariant(row, limiterOn, calls);
    StretchWithinBurst(Play(row, limiterOn, calls).times, row.window.value, i, j);
  }

  ghost predicate TimesUpTo(times: seq<int>, last: int) {
    && (forall i, j :: 0 <= i < j < |times| ==> times[i] <= times[j])
    && (forall i :: 0 <= i < |times| ==> times[i] <= last)
  }

  lemma {:induction false} TimesOrdered(row: Row, limiterOn: bool, calls: seq<Call>, last: int)
    requires Ordered(calls, row.createdAt) && forall i :: 0 <= i < |calls| ==> calls[i].now <= last
    ensures TimesUpTo(Play(row, limiterOn, calls).times, last)
    decreases |calls|
  {
    if calls != [] {
      var front, call := calls[..|calls| - 1], calls[|calls| - 1];
      TimesOrdered(row, limiterOn, front, call.now);
      var before, times := Play(row, limiterOn, front).times, Play(row, limiterOn, calls).times;
      assert times == before || times == before + [call.now];
    }
  }

  /** Hence every interval no longer than the window holds at most max(1, limit) successes. */
  lemma {:induction false} WindowBound(row: Row, limiterOn: bool, calls: seq<Call>, i: nat, j: nat)
    requires Limited(row, limiterOn) && Ordered(calls, row.createdAt)
    requires var times := Play(row, limiterOn, calls).times;
             i <= j < |times| && times[j] - times[i] <= row.window.value
    ensures j - i + 1 <= Max(1, row.limit.value)
  {
    TimesOrdered(row, limiterOn, calls, if calls == [] then 0 else calls[|calls| - 1].now);
    var times := Play(row, limiterOn, calls).times;
    forall k | i <= k < j ensures times[k + 1] - times[k] <= row.window.value {
      assert times[i] <= times[k] && times[k + 1] <= times[j] by {
        assert i < k || i == k;
        assert k + 1 < j || k + 1 == j;
      }
    }
    BurstBound(row, limiterOn, calls, i, j);
  }
}
