# Verified models of Kernia

Kernia is an authentication library. Most of its handlers move data between a request, a
database and a remote service. This project models the parts that hold an algorithm or a
state machine, and proves what holds for every input and in every run.

`dafny verify dfyconfig.toml` checks everything. The modules follow the source:

| module | what it models |
|---|---|
| `PlanDiff`, `PlanDiffEffects`, `PlanUpgrade`, `PlanTerms`, `PlanOutcome` | the multiset line-item diff of the Stripe upgrade handler |
| `Transactions` | the transaction boundary and the after-hook queue |
| `TableStore` | the rows of the memory adapter, on which the next two run |
| `ApiKeys`, `ApiKeyAnswers` | API-key budget, refill and request counter |
| `OAuthProvider`, `OAuthRuns`, `OAuthSafety`, `OAuthAnswers` | authorization codes, PKCE, refresh rotation, family teardown |
| `RateLimit` | the fixed-window limiter, in memory and in Redis |
| `WhereClauses` | where-lists as a fold, as SQL and as a Mongo filter |
| `SamlAssertions` | the collapse of an XML tree into dictionaries and the assertion count |
| `ScimToken` | printing and reading of SCIM bearer tokens over base64url |
| `ScimPatch`, `ScimDocument` | SCIM patch operations, as laws on documents and as edits in memory |

Code that works by changing things step by step is a method or a class here, and each such
method is proved equal to a specification: a closed form for the two diff loops, a step
function for the handlers, a map for a table. The theorems are about the specifications.
`PlanTerms`, `ApiKeyAnswers` and `OAuthAnswers` say what the specifications answer a second
time, in terms of the stored rows and the request alone.

## What the proofs found

- Stripe diff: the two branches agree on prices always, and on quantities exactly when no
  kept item lacks a quantity (the scheduled branch writes 1 for it, which a metered item must
  not have). An upgrade yields the new plan's items under exact conditions on seats and lines,
  which fail in these ways: a seat price that stays the same keeps its stored quantity, so
  three seats remain for seven members while the subscription row records seven; a seat-only
  plan gets its seat price twice from a plan with a seat item; a seat item beside the base
  that only one of the plans has stays or never comes; a plan that goes from one copy of an
  add-on to two ends with one; an added line item loses its quantity.
- Hook queue: with hooks that do not raise, the hooks of committed writes run exactly once
  and in order. A hook that raises cancels the rest of its batch although the writes are
  committed. The docstring of `hook_queue.py` says that an adapter's own `transaction()`
  installs the queue; in the code only `kernia.db.transaction` does. A block opened on the
  adapter alone runs hooks before the commit, and can commit a write whose hook is lost.
- API keys: the `tryAgainIn` hint is one millisecond short. Key creation accepts
  a negative budget, refill amount or refill interval; with any of them the budget bounds
  nothing, and with one of the first two it can go below zero.
- OAuth: a comment in the schema says that disabled clients are rejected at revocation; the
  code checks that at the token endpoint only, so a disabled client can still revoke.
- Fixed window: a stretch of time shorter than the window can hold `2 * max - 1` allowed
  hits, and no more; with a window of one second, `max`.
- Mongo filters: sound for the left-to-right fold, and equal to it exactly when no clause
  after the first is OR-connected.

## Assumptions

- Stripe applies an update list by id: an item that is named is deleted, or takes the price
  and quantity of the entry (none when the entry has none); other items stay; additions go to
  the end.
- Redis treats a key as absent from its expiry instant on, and one hit of the script sees one
  reading of an integer clock. Expiring a key with a period that is not positive deletes it.
- Random codes and tokens are fresh, and hashing them is injective, so they are numbers here.
  The S256 transformation is an arbitrary function.
- Each handler call is one step at one reading of the clock, and clocks do not go back.
- A parsed XML name starts with neither `@` nor `#`.

## Model

| member | source | states |
|---|---|---|
| PlanDiff.BuildDelta | packages/core/src/kernia_stripe/routes.py:965-977 | the dictionary holds exactly the prices whose count differs between the two plans, each with its signed difference, keys in order of first appearance |
| PlanDiff.SeenStaySeen | packages/core/src/kernia_stripe/routes.py:965-974 | keys stay where they are as more lines come, so they are in order of first appearance |
| PlanDiff.ImmediateUpdates | packages/core/src/kernia_stripe/routes.py:1074-1114 | the loop over shrinking dictionaries yields the closed form: the fate of each item depends only on its price and how many earlier items share it, and what is added is the positive delta not met by kept items |
| PlanDiff.ScheduledItems | packages/core/src/kernia_stripe/routes.py:995-1033 | the same closed form for the items of the next schedule phase |
| PlanDiffEffects.KeptCount | packages/core/src/kernia_stripe/routes.py:1079-1108 | items kept of a price are those beyond its removal quota, and none of a rewritten price |
| PlanDiffEffects.ApplyImmediate | packages/core/src/kernia_stripe/routes.py:1079-1114 | with distinct ids, applying the updates by id rewrites each item by its own verdict and appends the additions |
| PlanDiffEffects.ImmediateCount | packages/core/src/kernia_stripe/routes.py:1074-1114 | the exact count of every price after the immediate change, base and seat prices included |
| PlanDiffEffects.ScheduledCount | packages/core/src/kernia_stripe/routes.py:995-1033 | the exact count of every price in the next phase |
| PlanDiffEffects.ImmediateItemCount | packages/core/src/kernia_stripe/routes.py:1074-1114 | the exact count of every item with its quantity after the immediate change: removal takes the first copies of a price, so the last are kept |
| PlanDiffEffects.LineItemEffect | packages/core/src/kernia_stripe/routes.py:1079-1114 | for a price in no other role: max(cur + d, 0) when d <= 0, max(cur, d) when d > 0 |
| PlanDiffEffects.AdditionsInOrder | packages/core/src/kernia_stripe/routes.py:1111-1114 | additions come in the order of the dictionary's keys |
| PlanDiffEffects.BranchesAgree | packages/core/src/kernia_stripe/routes.py:995-1114 | the two branches give the same prices in the same order, and the same quantities if and only if every kept item has a quantity |
| PlanDiffEffects.MissingQuantityIsOne | packages/core/src/kernia_stripe/routes.py:1023-1024 | to the scheduled branch a missing quantity is one, and then it does what the immediate branch does |
| PlanDiffEffects.EachIdOnce | packages/core/src/kernia_stripe/routes.py:1079-1108 | every id mentioned is an id of the subscription, and none is mentioned twice |
| PlanUpgrade.ResolvePlanItem | packages/core/src/kernia_stripe/utils.py:57-92 | the first item that matches any plan, with the first plan it matches; without a match, an item only for a one-item subscription |
| PlanUpgrade.Upgrade | packages/core/src/kernia_stripe/routes.py:933-977 | the change the handler prepares, and the updates of the immediate branch for it |
| PlanTerms.PlanItemsAre | packages/core/src/kernia_stripe/routes.py:270-291 | the items of a plan: a base item unless it is seat-only, with the price for the interval and the quantity for the seats, a seat item with the member count, and its lines |
| PlanTerms.PlanItemIsBase | packages/core/src/kernia_stripe/utils.py:57-92 | the item whose price is rewritten is the first that some plan recognises by a price or a lookup key, or the only one |
| PlanTerms.OnlySurplusGoes | packages/core/src/kernia_stripe/routes.py:1085-1089 | an item is deleted if and only if it is among the copies of its price that the old plan bills beyond the new one |
| PlanTerms.SeatItemBecomes | packages/core/src/kernia_stripe/routes.py:1090-1099 | the old seat item takes the new seat price and the member count |
| PlanTerms.BaseItemBecomes | packages/core/src/kernia_stripe/routes.py:1100-1105 | the plan's item takes the price for the interval, annual or monthly, and no quantity when metered, one under managed seats, else the seats asked for or one |
| PlanTerms.OtherItemIsUntouched | packages/core/src/kernia_stripe/routes.py:1106-1112 | an item in no such role is not mentioned and stays as it is |
| PlanOutcome.LeadExactly | packages/core/src/kernia_stripe/routes.py:951-963 | which upgrades leave the right base and seat items, quantities included, for plans with and without a seat and seat-only plans |
| PlanOutcome.LineExactly | packages/core/src/kernia_stripe/routes.py:1079-1114 | when the line items of one price come out right: a price the new plan has more of is not held and its lines have no quantity; of any other, the copies that are kept have the quantities wanted |
| PlanOutcome.UpgradeYieldsPlan | packages/core/src/kernia_stripe/routes.py:933-1114 | a subscription built from the old plan ends with the new plan's items, quantities included, and every unrelated item, if and only if base and seat come out right and so does every line |
| PlanOutcome.ScheduleYieldsPlan | packages/core/src/kernia_stripe/routes.py:995-1033 | the scheduled branch does so on the same condition when no kept item lacks a quantity |
| PlanOutcome.UpgradeWithoutRepeats | packages/core/src/kernia_stripe/routes.py:933-1114 | when no price repeats the condition on lines is plain: each new line is held with its quantity, or is new and has none |
| PlanOutcome.StaleSeatStays | packages/core/src/kernia_stripe/routes.py:951-963 | an unchanged seat price keeps a stale quantity: three seats for seven members |
| PlanOutcome.SeatOnlyDoubles | packages/core/src/kernia_stripe/routes.py:1079-1102 | an upgrade to a seat-only plan that leaves its seat price twice |
| PlanOutcome.DoubledAddOnIsLost | packages/core/src/kernia_stripe/routes.py:1105-1114 | a concrete upgrade from one add-on to two that leaves one |
| Transactions.Runtime.RunTransaction | packages/core/src/kernia/db/transaction.py:45-62 | outermost: queue, adapter block, reset, drain on a clean exit; nested: the adapter block alone |
| Transactions.Runtime.QueueAfterTransactionHooks | packages/core/src/kernia/db/hook_queue.py:25-35 | hooks join an installed queue and run inline without one |
| Transactions.Runtime.RunInAdapter | packages/core/src/kernia_sqlalchemy/adapter.py:417-432 | the outermost block commits or rolls back, a nested one reuses the connection |
| Transactions.Runtime.Run | packages/core/src/kernia_sqlalchemy/adapter.py:169-185 | a program tree of writes, raises, catches and blocks runs as the step function says |
| Transactions.Exec | packages/core/src/kernia/db/hook_queue.py:47-60 | queue and connection variables are restored on every exit, and nothing committed or logged is lost |
| Transactions.InsideNothingRuns | packages/core/src/kernia/db/transaction.py:49-53 | inside a transaction, however nested, nothing commits and no hook runs; writes and hooks pile up in step |
| Transactions.AloneRuns | packages/core/src/kernia_sqlalchemy/adapter.py:424-432 | inside the adapter's own transaction hooks run before anything is committed, and a block of the core drains into the open connection |
| Transactions.RunsAsSpecified | packages/core/src/kernia/db/transaction.py:45-62 | from an idle runtime every program leaves the log and rows of a specification that has no queue and no connection |
| Transactions.HooksFollowCommits | packages/core/src/kernia/db/transaction.py:55-62 | in a run each hook runs at most once, in queue order, after the outermost commit of its write and never after a rollback, if and only if every block opened on the adapter alone is free of hooks |
| Transactions.AdapterBlockSettles | packages/core/src/kernia_sqlalchemy/adapter.py:417-432 | one block opened on the adapter alone keeps that discipline if and only if it runs no hook and commits no write that has one |
| Transactions.ThroughCoreIsDisciplined | packages/core/src/kernia/db/transaction.py:45-62 | programs that open their transactions through the core meet the condition |
| Transactions.EveryCommittedHookRuns | packages/core/src/kernia/db/transaction.py:61-62 | the hooks a run ran are all hooks of the writes it committed, in order, if and only if no committed batch has a hook that raises before its last |
| Transactions.HooksRunExactlyOnce | packages/core/src/kernia/db/transaction.py:45-62 | so with hooks that do not raise exactly the hooks of committed writes run, once each and in order |
| Transactions.CleanRunCommitsAll | packages/core/src/kernia/db/transaction.py:45-62 | a program that raises nothing, with hooks that raise nothing, ends without an error and commits exactly its writes in order |
| Transactions.RaisingHookCancels | packages/core/src/kernia/db/transaction.py:61-62 | a hook that raises: its write is committed and the hook behind it never runs |
| Transactions.OutermostRollback | packages/core/src/kernia/db/transaction.py:55-60 | an outermost block that raises commits nothing and runs no hook |
| Transactions.AdapterAloneRunsEarly | packages/core/src/kernia_sqlalchemy/adapter.py:424-432 | a block opened on the adapter alone runs the hook of a write that is then rolled back |
| Transactions.AdapterAloneLosesHook | packages/core/src/kernia_sqlalchemy/adapter.py:424-432 | a block opened on the adapter alone, out of which nothing is raised, commits a write whose hook never runs |
| TableStore.Table.FindOne | packages/core/src/kernia_memory_adapter/adapter.py:107-125 | finds the row a unique key maps to |
| TableStore.Table.Create | packages/core/src/kernia_memory_adapter/adapter.py:93-105 | appending a row adds one entry to the map |
| TableStore.Table.Update | packages/core/src/kernia_memory_adapter/adapter.py:158-170 | editing the first match changes one entry and no other, and returns the row |
| TableStore.Table.ConsumeOne | packages/core/src/kernia_memory_adapter/adapter.py:219-230 | deletes and returns the row of a key; afterwards the key is absent |
| TableStore.Table.DeleteMany | packages/core/src/kernia_memory_adapter/adapter.py:199-209 | exactly the matching rows go, and their number is returned |
| ApiKeys.KeyStore.CreateKey | packages/core/src/kernia_api_key/plugin.py:881-974 | half a refill setting is refused; otherwise the expired keys are purged and the row starts with the given budget and clean counters |
| ApiKeys.KeyStore.ValidateApiKey | packages/core/src/kernia_api_key/plugin.py:579-672 | answer and row are those of one step, and no other key's row changes |
| ApiKeys.FailureWritesNothing | packages/core/src/kernia_api_key/plugin.py:600-649 | a failure leaves the row as it was or deletes it, and deletes it if and only if it has expired or is spent for good |
| ApiKeys.HintIsOneShort | packages/core/src/kernia_api_key/plugin.py:559-571 | after a denial the limiter denies up to and including the hinted wait, and at no later time |
| ApiKeys.BudgetBound | packages/core/src/kernia_api_key/plugin.py:620-656 | over every run the budget stays at or above zero, and successes are at most the initial budget plus one refill amount for each whole period of interval + 1 |
| ApiKeys.BoundedExactly | packages/core/src/kernia_api_key/plugin.py:620-640 | a budget bounds the successes by every moment if and only if it is not negative and any refill amount and interval are positive |
| ApiKeys.NotNegativeExactly | packages/core/src/kernia_api_key/plugin.py:620-640 | the budget stays at or above zero in every run if and only if it starts there and no refill amount is negative |
| ApiKeys.BurstBound | packages/core/src/kernia_api_key/plugin.py:540-576 | successes with no idle gap longer than the window between them number at most max(1, limit) |
| ApiKeys.WindowBound | packages/core/src/kernia_api_key/plugin.py:540-576 | so does every time interval no longer than the window |
| ApiKeyAnswers.AnswerExactly | packages/core/src/kernia_api_key/plugin.py:579-649 | each answer is given if and only if the checks before it pass and its own fails, in terms of the row and the call |
| ApiKeyAnswers.SuccessWrites | packages/core/src/kernia_api_key/plugin.py:629-672 | every field of the row after a success: budget, refill time, last request and count |
| ApiKeyAnswers.NewRowIs | packages/core/src/kernia_api_key/plugin.py:881-974 | every field of a new key, and which settings are refused |
| ApiKeyAnswers.LimiterExactly | packages/core/src/kernia_api_key/plugin.py:540-576 | in every run of a new key, a call that passes the other checks is denied if and only if the last burst of successes has reached the limit and no more than the window has passed since |
| ApiKeyAnswers.UnlimitedIsNeverDenied | packages/core/src/kernia_api_key/plugin.py:547-550 | with the limiter off for the server or the key, no call is denied by it |
| OAuthProvider.Provider.HandleAuthorize | packages/core/src/kernia_oauth_provider/plugin.py:439-501 | the checks in order, and the code row stored |
| OAuthProvider.Provider.HandleRedeem | packages/core/src/kernia_oauth_provider/plugin.py:560-621 | a code is consumed before it is checked; tokens only when every check passes |
| OAuthProvider.Provider.HandleRotate | packages/core/src/kernia_oauth_provider/plugin.py:623-667 | replay tears the family down; a live token is marked revoked and replaced |
| OAuthProvider.Provider.InvalidateRefreshFamily | packages/core/src/kernia_oauth_provider/plugin.py:701-709 | exactly the tokens of that client and user are deleted |
| OAuthProvider.Provider.IssueTokens | packages/core/src/kernia_oauth_provider/plugin.py:775-790 | a refresh token is stored if and only if the scope has offline_access |
| OAuthProvider.Provider.HandleClientCredentials | packages/core/src/kernia_oauth_provider/plugin.py:669-696 | confidential clients only, no identity scopes |
| OAuthProvider.Provider.HandleRevoke | packages/core/src/kernia_oauth_provider/plugin.py:883-926 | deletes the token if it belongs to the caller |
| OAuthRuns.StepKeeps | packages/core/src/kernia_oauth_provider/plugin.py:531-698 | every request keeps the invariant that ties codes, tokens and lineages together |
| OAuthSafety.Reachable | packages/core/src/kernia_oauth_provider/plugin.py:531-698 | so it holds in every state a sequence of requests can reach |
| OAuthSafety.RotationIsAChain | packages/core/src/kernia_oauth_provider/plugin.py:635-667 | a code roots at most one lineage, a token is replaced at most once, a lineage has at most one live token (section 4.14 of RFC 9700) |
| OAuthSafety.DeadStaysDead | packages/core/src/kernia_oauth_provider/plugin.py:653-659 | a token that is no longer live is never live again |
| OAuthSafety.DeadIsRefused | packages/core/src/kernia_oauth_provider/plugin.py:623-667 | and is refused in every continuation |
| OAuthSafety.RotatedIsRefused | packages/core/src/kernia_oauth_provider/plugin.py:653-667 | a refresh token is good for one rotation: once exchanged it is refused ever after |
| OAuthSafety.RevokedIsRefused | packages/core/src/kernia_oauth_provider/plugin.py:903-913 | a token revoked by its client is refused ever after |
| OAuthSafety.RevocationIgnoresDisabled | packages/core/src/kernia_oauth_provider/plugin.py:883-902 | revocation is answered without an error if and only if the client is known, its secret is accepted and no hint contradicts, disabled or not |
| OAuthSafety.DisabledClientRevokes | packages/core/src/kernia_oauth_provider/plugin.py:531-545 | a disabled client gets nothing at the token endpoint, but deletes its token by revocation |
| OAuthSafety.ReplayTearsDown | packages/core/src/kernia_oauth_provider/plugin.py:635-639 | after a revoked token is presented by its client, no token issued before for that client and user is accepted in any continuation |
| OAuthSafety.ScopeNeverWidens | packages/core/src/kernia_oauth_provider/plugin.py:642-667 | along a lineage scopes only narrow, within what was allowed at authorize; client, user and session stay (section 6 of RFC 6749) |
| OAuthSafety.PkceExactly | packages/core/src/kernia_oauth_provider/plugin.py:581-610 | the checks pass if and only if the verifier hashes to the stored challenge, or none was stored, presented or required (section 4.6 of RFC 7636) |
| OAuthSafety.CodeBinding | packages/core/src/kernia_oauth_provider/plugin.py:560-621 | a code yields tokens if and only if it was issued to that client and redirect URI, was never consumed, has not expired and the verifier proves possession |
| OAuthSafety.CodeIsSingleUse | packages/core/src/kernia_oauth_provider/plugin.py:563-572 | a code presented once, with whatever result, is refused ever after |
| OAuthSafety.GrantComesFromAuthorize | packages/core/src/kernia_oauth_provider/plugin.py:485-501 | a granted code comes from an authorize request of the run, on the terms it recorded |
| OAuthSafety.AuthorizeIsUnique | packages/core/src/kernia_oauth_provider/plugin.py:485-501 | no two requests of a run issue the same code |
| OAuthAnswers.AuthorizeExactly | packages/core/src/kernia_oauth_provider/plugin.py:439-501 | a request gets a code if and only if the client is known, the redirect URI registered, a user logged in, a challenge given where one is needed, the method S256 or absent and every scope word allowed; each refusal has its own condition |
| OAuthAnswers.GrantWasRegistered | packages/core/src/kernia_oauth_provider/plugin.py:464-501 | every code granted in a run comes from an authorize request whose redirect URI was registered at that moment, and records its terms |
| OAuthAnswers.RedeemExactly | packages/core/src/kernia_oauth_provider/plugin.py:531-621 | when a code is exchanged and for what, the refusals, and that only the presented code is consumed |
| OAuthAnswers.RotateExactly | packages/core/src/kernia_oauth_provider/plugin.py:623-667 | when a refresh token is exchanged and for what, the refusals, and what each outcome does to the stored tokens |
| OAuthAnswers.ClientCredentialsExactly | packages/core/src/kernia_oauth_provider/plugin.py:669-696 | a confidential client gets a token for itself if and only if it asks for no identity scope; nothing is stored |
| OAuthAnswers.RevokeExactly | packages/core/src/kernia_oauth_provider/plugin.py:883-926 | the presented token is deleted if the caller owns it, and nothing else |
| OAuthAnswers.MintsExactly | packages/core/src/kernia_oauth_provider/plugin.py:775-790 | tokens come with a refresh token if and only if the scope has offline_access; it is new, and stored on the terms of the answer with its lifetime |
| OAuthAnswers.MintedTokenRotates | packages/core/src/kernia_oauth_provider/plugin.py:623-667 | a minted token that is neither rotated nor deleted since is exchanged whenever its client presents it within its lifetime |
| RateLimit.InMemoryStore.Hit | packages/core/src/kernia/auth/rate_limit.py:65-74 | one hit on a bucket |
| RateLimit.RedisStore.Hit | packages/core/src/kernia/auth/rate_limit.py:83-114 | one run of the script and the reading of its answer |
| RateLimit.StoresAgree | packages/core/src/kernia/auth/rate_limit.py:65-114 | both stores decide alike on every sequence of hits, for any windows and maxima on any keys |
| RateLimit.DecisionExactly | packages/core/src/kernia/auth/rate_limit.py:65-114 | what either store answers: one hit opened the current window, the hits since then are counted, and allowed, remaining and reset time follow from the count |
| RateLimit.RunIsPlay | packages/core/src/kernia/auth/rate_limit.py:65-74 | hits on other keys leave a key alone |
| RateLimit.WindowBound | packages/core/src/kernia/auth/rate_limit.py:65-114 | in a run of either store, with other keys in between, at most max hits on a key are allowed in one window of its counter |
| RateLimit.SlidingBound | packages/core/src/kernia/auth/rate_limit.py:65-114 | in such a run any stretch shorter than the window holds at most 2 * max - 1 allowed hits on a key, and at most max when the window is one second |
| RateLimit.BoundIsAttained | packages/core/src/kernia/auth/rate_limit.py:65-74 | for every window and maximum some run attains that bound within one second |
| WhereClauses.Match | packages/core/src/kernia_memory_adapter/adapter.py:33-75 | the loop computes the left fold |
| WhereClauses.FoldMeans | packages/core/src/kernia_memory_adapter/adapter.py:36-75 | the fold holds if and only if the first clause or some OR clause holds and so does every AND clause after it |
| WhereClauses.WhereToSql | packages/core/src/kernia_sqlalchemy/adapter.py:101-142 | the nested SQL condition agrees with the fold on every row |
| WhereClauses.WhereToBson | packages/core/src/kernia_mongo/adapter.py:87-112 | the filter groups the clauses by connector |
| WhereClauses.AcceptsMeans | packages/core/src/kernia_mongo/adapter.py:96-112 | what a filter of two or more clauses accepts, clause by clause |
| WhereClauses.MongoIsSound | packages/core/src/kernia_mongo/adapter.py:87-112 | a row the filter accepts is matched by the fold |
| WhereClauses.MongoAgreesExactly | packages/core/src/kernia_mongo/adapter.py:87-112 | filter and fold agree on every row if and only if no clause after the first is OR-connected |
| SamlAssertions.ElementToDict | packages/core/src/kernia_sso/saml_parser.py:49-79 | the loops that fill the dictionary compute the collapse |
| SamlAssertions.LocalNameExactly | packages/core/src/kernia_sso/saml_parser.py:31-46 | the local name is the longest end of the tag that has neither '}' nor ':' |
| SamlAssertions.LocalNameIs | packages/core/src/kernia_sso/saml_parser.py:31-46 | in Clark notation, behind a prefix or alone, the local name is the name |
| SamlAssertions.CollapseHolds | packages/core/src/kernia_sso/saml_parser.py:49-79 | a leaf is its text; any other element holds its children of each name in order, its attributes and its text |
| SamlAssertions.CountAllNodes | packages/core/src/kernia_sso/saml_parser.py:126-146 | the accumulating walk computes the count |
| SamlAssertions.CollapseCounts | packages/core/src/kernia_sso/saml_parser.py:49-79 | the dictionary of an element counts exactly the elements inside it, whatever is merged or turned into text |
| SamlAssertions.CountIsExact | packages/core/src/kernia_sso/saml_parser.py:82-97 | the count in a parsed document is the number of elements with that local name |
| SamlAssertions.ValidateSingleAssertion | packages/core/src/kernia_sso/saml_assertions.py:57-91 | a response is accepted if and only if it decodes, parses and has Assertion and EncryptedAssertion elements that total one; each failure has its own answer |
| SamlAssertions.VerdictExactly | packages/core/src/kernia_sso/saml_assertions.py:57-91 | each answer of the check has its exact condition on the text and the elements |
| SamlAssertions.NamespacedAssertionAccepted | packages/core/src/kernia_sso/saml_assertions.py:57-91 | a response with one assertion is accepted whatever namespace or prefix its tags carry |
| ScimToken.Base64RoundTrip | packages/core/src/kernia_scim/plugin.py:78-85 | decoding inverts encoding for every byte string (section 5 of RFC 4648) |
| ScimToken.PadRestores | packages/core/src/kernia_scim/plugin.py:83-85 | padding by -len modulo 4 restores what was stripped |
| ScimToken.StandardAlphabet | packages/core/src/kernia_scim/plugin.py:78-80 | the alphabet of table 2 in section 5 of RFC 4648 |
| ScimToken.GroupSpells | packages/core/src/kernia_scim/plugin.py:78-80 | the four digits of a group spell the number its bytes spell, the most significant first |
| ScimToken.TokenRoundTrip | packages/core/src/kernia_scim/plugin.py:435-439 | a printed token reads back as the same parts if and only if base and provider are non-empty and free of ':' |
| ScimToken.PayloadSpells | packages/core/src/kernia_scim/plugin.py:435-438 | the parts are joined by ':', before the organization only if there is one |
| ScimToken.PrintParsed | packages/core/src/kernia_scim/plugin.py:264-275 | an accepted payload is the print of its parts, or that and a final ':' |
| ScimToken.ParseExactly | packages/core/src/kernia_scim/plugin.py:264-275 | which payloads are accepted and what they are read as |
| ScimPatch.ReadWritten | packages/core/src/kernia_scim/patch.py:24-35 | reading at or below a written path reads the value |
| ScimPatch.WriteElsewhere | packages/core/src/kernia_scim/patch.py:24-35 | a write changes nothing at a path apart from it, scalars on the way included |
| ScimPatch.WriteAbove | packages/core/src/kernia_scim/patch.py:24-35 | everything above a written path is an object afterwards |
| ScimPatch.ReadRemoved | packages/core/src/kernia_scim/patch.py:38-46 | nothing is left at or below a removed path |
| ScimPatch.RemoveElsewhere | packages/core/src/kernia_scim/patch.py:38-46 | a removal changes nothing at a path apart from it |
| ScimPatch.RemoveMissing | packages/core/src/kernia_scim/patch.py:38-46 | a removal changes nothing if and only if nothing is at the path, because a part is missing or a scalar |
| ScimPatch.RemoveAbove | packages/core/src/kernia_scim/patch.py:38-46 | what is above a removed path stays an object, the same scalar, or absent |
| ScimPatch.RemoveUndoesWrite | packages/core/src/kernia_scim/patch.py:24-46 | removing a new name below existing objects undoes its write |
| ScimPatch.PatchElsewhere | packages/core/src/kernia_scim/patch.py:49-78 | a list of operations leaves alone every path none of them touches |
| ScimPatch.LastWriteWins | packages/core/src/kernia_scim/patch.py:54-78 | of the writes, merges and removals, the last that touches a path decides what is read there, if it is made at the path or above it |
| ScimPatch.UnsupportedStops | packages/core/src/kernia_scim/patch.py:76-77 | an unsupported operation stops the list after everything before it was applied |
| ScimDocument.Node.SetPath | packages/core/src/kernia_scim/patch.py:24-35 | the edit of the nested dictionaries in memory is the write of the document they stand for |
| ScimDocument.Node.DelPath | packages/core/src/kernia_scim/patch.py:38-46 | likewise for a removal |
| ScimDocument.ApplyPatchOps | packages/core/src/kernia_scim/patch.py:49-78 | likewise for a list of operations, up to the one that stops it |

## Left out

- HTTP, sessions, redirects, cookies, and every call to Stripe, an identity provider or a webhook; what they answer is a parameter.
- Cryptography, XML parsing, base64 and UTF-8 decoding of a SAML response, UTF-8 in SCIM tokens: library code, a parameter where the model needs it. SCIM strings are byte strings here, and the base64 decoder is the strict one.
- Interleaving inside a handler, several clock readings in one call, deferred writes of API keys, and writes outside a handler.
- Which rows a single where clause selects, and the escaping and 256-character cut of Mongo patterns.
- PlanOutcome.UpgradeYieldsPlan: asks that the base and seat prices of the old plan play one role each, and those of the new plan too when base and seat come out wrong.
- PlanUpgrade.ResolvePlanItem: plans are a list, and the case-insensitive plan lookup by name is not modelled; the handler's old plan is a parameter.
- Transactions.Runtime.Run: rows carry no fields and nothing is read back; a hook is a name and whether it raises, so a hook that itself writes or opens a transaction is not modelled.
- ApiKeys.BudgetBound: asks for a budget of at least zero and positive refill settings, which key creation does not check; without them no bound holds (ApiKeys.BoundedExactly).
- OAuthProvider.Provider.HandleAuthorize: the response type, the consent record and the state and nonce parameters.
- OAuthProvider.Provider.IssueTokens: access tokens and id tokens, which no step of the model reads.
- OAuthProvider.Provider.HandleRevoke: the table of opaque access tokens.
- TableStore.Table.Create: asks for a key that no row has, since keys are random and fresh.
- ScimPatch.PatchElsewhere: how a raw operation is read (its name in any case, a dotted path split at the dots) is not modelled; operations are given with their paths in parts.
- ScimDocument.Node.SetPath: walks down by calling itself where the source loops; the edits and their order are the same. A write without a path is one edit for each entry of its mapping (ScimPatch.MergeIsWrites).
- ScimDocument.ApplyPatchOps: asks that the values of different operations share no dictionaries, as values of one parsed JSON body do not.
- `find_node`, the lookups of `_authenticate` after the token is split, key updates and listings, plan checkout, schedules other than the item list: straight-line code around the modelled parts.
