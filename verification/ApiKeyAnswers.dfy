/**
What validating an API key answers, and what it writes, in terms of the stored row and the
call alone: which check refuses what, and when a request within its limits is let through.
*/
module ApiKeyAnswers {
  import opened Options
  import opened TableStore
  import opened ApiKeys

  /** Neither absent nor zero. */
  predicate Given(n: Option<int>) {
    n != None && n != Some(0)
  }

  // ----- the checks in order -----

  predicate Known(row: Option<Row>, call: Call) {
    row != None && call.configMatches
  }

  predicate PassesEnabled(row: Option<Row>, call: Call) {
    Known(row, call) && row.value.enabled != Some(false)
  }

  predicate PassesExpiry(row: Option<Row>, call: Call) {
    PassesEnabled(row, call) && (!Given(row.value.expiresAt) || call.now <= row.value.expiresAt.value)
  }

  predicate PassesPermissions(row: Option<Row>, call: Call) {
    PassesExpiry(row, call) && call.permitted
  }

  /** More than the refill interval has passed since the last refill, or since creation if there was none. */
  predicate RefillArrives(row: Row, now: int) {
    && Given(row.refillAmount) && Given(row.refillInterval)
    && (Given(row.lastRefillAt) ==> now > row.lastRefillAt.value + row.refillInterval.value)
    && (!Given(row.lastRefillAt) ==> now > row.createdAt + row.refillInterval.value)
  }

  /** What there is to spend, for a key with a budget. */
  function Funds(row: Row, now: int): Option<int> {
    if row.remaining == None then None else if RefillArrives(row, now) then row.refillAmount else row.remaining
  }

  predicate PassesBudget(row: Option<Row>, call: Call) {
    PassesPermissions(row, call) && Funds(row.value, call.now) != Some(0)
  }

  /** The limiter applies to the row. */
  predicate IsLimited(row: Row, limiterOn: bool) {
    limiterOn && row.rateLimitEnabled != Some(false) && row.window != None && row.limit != None
  }

  /** The limit is used up, and no more than the window has passed since the last success. */
  predicate AtLimit(row: Row, limiterOn: bool, now: int) {
    && IsLimited(row, limiterOn) && row.lastRequest != None
    && now <= row.lastRequest.value + row.window.value && row.limit.value <= row.requestCount
  }

  /** Main result: each answer is given exactly when the checks before it pass and its own fails. */
  lemma {:induction false} AnswerExactly(row: Option<Row>, limiterOn: bool, call: Call)
    ensures var outcome := Validate(row, limiterOn, call).outcome;
      && (outcome == Invalid(InvalidKey) <==> !Known(row, call))
      && (outcome == Invalid(Disabled) <==> Known(row, call) && !PassesEnabled(row, call))
      && (outcome == Invalid(Expired) <==> PassesEnabled(row, call) && !PassesExpiry(row, call))
      && (outcome == Invalid(NotPermitted) <==> PassesExpiry(row, call) && !PassesPermissions(row, call))
      && (outcome == Invalid(UsageExceeded) <==> PassesPermissions(row, call) && !PassesBudget(row, call))
      && (PassesBudget(row, call) && AtLimit(row.value, limiterOn, call.now) <==> outcome.Invalid? && outcome.reason.RateLimited?)
      && (PassesBudget(row, call) && AtLimit(row.value, limiterOn, call.now) ==>
            outcome == Invalid(RateLimited(row.value.lastRequest.value + row.value.window.value - call.now)))
      && (PassesBudget(row, call) && !AtLimit(row.value, limiterOn, call.now) <==> outcome.Valid?)
  {
  }

  /** A call that opens a new burst: the first success, or one after an idle gap longer than the window. */
  predicate OpensBurst(row: Row, now: int)
    requires row.window.Some?
  {
    row.lastRequest == None || now > row.lastRequest.value + row.window.value
  }

  /** What a success stores and returns: every field is accounted for. */
  lemma {:induction false} SuccessWrites(row: Option<Row>, limiterOn: bool, call: Call)
    requires Validate(row, limiterOn, call).outcome.Valid?
    ensures row.Some?
    ensures var s, was := Validate(row, limiterOn, call), row.value;
      && s.row == Some(s.outcome.row)
      && var r := s.outcome.row;
      && r == was.(remaining := r.remaining, lastRefillAt := r.lastRefillAt, lastRequest := r.lastRequest, requestCount := r.requestCount)
      && (was.remaining == None ==> r.remaining == None && r.lastRefillAt == was.lastRefillAt)
      && (was.remaining != None && RefillArrives(was, call.now) ==>
            r.remaining == Some(was.refillAmount.value - 1) && r.lastRefillAt == Some(call.now))
      && (was.remaining != None && !RefillArrives(was, call.now) ==>
            r.remaining == Some(was.remaining.value - 1) && r.lastRefillAt == was.lastRefillAt)
      && (!limiterOn || was.rateLimitEnabled == Some(false) ==> r.lastRequest == Some(call.now) && r.requestCount == was.requestCount)
      && (limiterOn && was.rateLimitEnabled != Some(false) && (was.window == None || was.limit == None) ==>
            r.lastRequest == was.lastRequest && r.requestCount == was.requestCount)
      && (IsLimited(was, limiterOn) ==> r.lastRequest == Some(call.now))
      && (IsLimited(was, limiterOn) ==> r.requestCount == if OpensBurst(was, call.now) then 1 else was.requestCount + 1)
  {
  }

  // ----- over runs -----

  /** The row of a new key, field by field, and when its settings are refused. */
  lemma {:induction false} NewRowIs(s: Settings, now: int)
    ensures NewRow(s, now) == None <==> (Given(s.refillAmount) && !Given(s.refillInterval)) ||
                                        (Given(s.refillInterval) && !Given(s.refillAmount))
    ensures NewRow(s, now) != None ==>
      var r := NewRow(s, now).value;
      && r.enabled == Some(true) && r.createdAt == now && r.requestCount == 0
      && r.lastRequest == None && r.lastRefillAt == None
      && r.expiresAt == s.expiresAt && r.refillAmount == s.refillAmount && r.refillInterval == s.refillInterval
      && r.rateLimitEnabled == Some(s.rateLimitEnabled) && r.window == Some(s.window) && r.limit == Some(s.limit)
      && r.remaining == if s.remaining == None then s.refillAmount else s.remaining
  {
  }

  /** The last burst of successes has reached the limit, and the window since the last success has not passed. */
  predicate BurstIsFull(times: seq<int>, window: int, limit: int, now: int) {
    times != [] && now <= times[|times| - 1] + window && limit <= Burst(times, window)
  }

  /**
  Main result: in every run of a new key, a call that passes the other checks is let through
  unless the last burst of successes has reached the limit and no more than the window has
  passed since the last of them.
  */
  lemma {:induction false} LimiterExactly(s: Settings, created: int, calls: seq<Call>, call: Call)
    requires NewRow(s, created).Some? && s.rateLimitEnabled
    requires PassesBudget(Play(NewRow(s, created).value, true, calls).row, call)
    ensures var t := Play(NewRow(s, created).value, true, calls);
            var outcome := Validate(t.row, true, call).outcome;
            if BurstIsFull(t.times, s.window, s.limit, call.now)
            then outcome == Invalid(RateLimited(t.times[|t.times| - 1] + s.window - call.now))
            else outcome.Valid?
  {
    var row := NewRow(s, created).value;
    var t := Play(row, true, calls);
    NewRowIs(s, created);
    LimiterInvariant(row, true, calls);
    SettingsFixed(row, true, calls);
    AnswerExactly(t.row, true, call);
  }

  /** With the limiter off for the key or for the server, no call is denied by it. */
  lemma {:induction false} UnlimitedIsNeverDenied(s: Settings, created: int, limiterOn: bool, calls: seq<Call>, call: Call)
    requires NewRow(s, created).Some? && !(limiterOn && s.rateLimitEnabled)
    ensures var row := Play(NewRow(s, created).value, limiterOn, calls).row;
            Validate(row, limiterOn, call).outcome.Valid? <==> PassesBudget(row, call)
  {
    var row := NewRow(s, created).value;
    NewRowIs(s, created);
    SettingsFixed(row, limiterOn, calls);
    AnswerExactly(Play(row, limiterOn, calls).row, limiterOn, call);
  }
}
