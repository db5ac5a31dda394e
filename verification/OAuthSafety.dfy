/**
What a client can rely on in every run of the provider: rotation, teardown after a
replay, scopes that never widen, and the binding of tokens to one authorization.
*/
module OAuthSafety {
  import opened Options
  import opened OAuthProvider
  import opened OAuthRuns

  /** Every state that a sequence of requests reaches from the empty provider satisfies the invariant. */
  lemma {:induction false} Reachable(cfg: Config, calls: seq<Call>)
    requires Clocked(calls)
    ensures Inv(Run(cfg, EMPTY, calls))
  {
    assert Inv(EMPTY);
    RunKeeps(cfg, EMPTY, calls);
  }

  // ----- rotation -----

  /**
  Main result: in every reachable state two refresh tokens that start at the same code are
  the same token, two that replaced the same token are the same token, and two live ones
  of one lineage are the same token.
  */
  lemma {:induction false} RotationIsAChain(cfg: Config, calls: seq<Call>, a: nat, b: nat)
    requires Clocked(calls)
    requires var w := Run(cfg, EMPTY, calls); a in w.origins && b in w.origins && a != b
    ensures var w := Run(cfg, EMPTY, calls);
            && !(w.origins[a].parent.None? && w.origins[b].parent.None? && w.origins[a].root == w.origins[b].root)
            && !(w.origins[a].parent.Some? && w.origins[a].parent == w.origins[b].parent)
            && !(Live(w, a) && Live(w, b) && w.origins[a].root == w.origins[b].root)
  {
    Reachable(cfg, calls);
  }

  /** Tokens already numbered only disappear or are revoked, and consumed codes stay consumed. */
  ghost predicate OnlyGoes(w: World, v: World) {
    && w.tables.next <= v.tables.next
    && w.spent <= v.spent
    && (forall t: nat | t < w.tables.next && t in v.tables.tokens :: t in w.tables.tokens)
    && (forall t: nat | t < w.tables.next && Live(v, t) :: Live(w, t))
  }

  lemma {:induction false} MarkOnlyGoes(w: World, p: nat, now: int)
    requires p in w.tables.tokens && now > 0
    ensures OnlyGoes(w, Marked(w, p, now))
  {
    var m := Marked(w, p, now);
    forall t: nat | Live(m, t) ensures Live(w, t) {}
  }

  lemma {:induction false} IssueOnlyGoes(w: World, m: World, o: Origin)
    requires OnlyGoes(w, m)
    ensures OnlyGoes(w, Issued(m, o))
  {
    var v := Issued(m, o);
    forall t: nat | t < w.tables.next && t in v.tables.tokens ensures t in m.tables.tokens && v.tables.tokens[t] == m.tables.tokens[t] {}
  }

  lemma {:induction false} RotateOnlyGoes(cfg: Config, w: World, call: Call)
    requires Inv(w) && call.now > 0 && call.request.Rotate?
    ensures OnlyGoes(w, Advance(cfg, w, call))
  {
    forall t | t in w.tables.tokens ensures t in w.origins { assert TokenSound(w, t); }
    RotateShape(cfg, w, call);
    if Rotates(w, call) {
      var p := call.request.token.value;
      MarkOnlyGoes(w, p, call.now);
      IssueOnlyGoes(w, Marked(w, p, call.now), ChildOrigin(cfg, w, call));
    }
  }

  lemma {:induction false} RedeemOnlyGoes(cfg: Config, w: World, call: Call)
    requires call.request.Redeem?
    ensures OnlyGoes(w, Advance(cfg, w, call))
  {
    RedeemShape(cfg, w, call);
    if Presents(w, call.request) {
      IssueOnlyGoes(w, Consumed(w, call.request.code.value), RootOrigin(cfg, w, call));
    }
  }

  lemma {:induction false} AuthorizeOnlyGoes(cfg: Config, w: World, call: Call)
    requires call.request.Authorize?
    ensures OnlyGoes(w, Advance(cfg, w, call))
  {
    AuthorizeShape(cfg, w, call);
  }

  lemma {:induction false} OtherOnlyGoes(cfg: Config, w: World, call: Call)
    requires call.request.ClientCredentials? || call.request.Revoke? || call.request.Configure?
    ensures OnlyGoes(w, Advance(cfg, w, call))
  {
    OtherShape(cfg, w, call);
  }

  lemma {:induction false} StepOnlyGoes(cfg: Config, w: World, call: Call)
    requires Inv(w) && call.now > 0
    ensures OnlyGoes(w, Advance(cfg, w, call))
  {
    match call.request
    case Authorize(_, _, _, _, _, _) => AuthorizeOnlyGoes(cfg, w, call);
    case Redeem(_, _, _, _) => RedeemOnlyGoes(cfg, w, call);
    case Rotate(_, _, _) => RotateOnlyGoes(cfg, w, call);
    case _ => OtherOnlyGoes(cfg, w, call);
  }

  lemma {:induction false} RunOnlyGoes(cfg: Config, w: World, calls: seq<Call>)
    requires Inv(w) && Clocked(calls)
    ensures OnlyGoes(w, Run(cfg, w, calls))
  {
    if calls != [] {
      var front := calls[..|calls| - 1];
      RunOnlyGoes(cfg, w, front);
      RunKeeps(cfg, w, front);
      StepOnlyGoes(cfg, Run(cfg, w, front), calls[|calls| - 1]);
    }
  }

  /** A token that was issued and is no longer live is never live again. */
  lemma {:induction false} DeadStaysDead(cfg: Config, w: World, calls: seq<Call>, t: nat)
    requires Inv(w) && Clocked(calls)
    requires t in w.origins && !Live(w, t)
    ensures !Live(Run(cfg, w, calls), t)
  {
    RunOnlyGoes(cfg, w, calls);
  }

  /** A refresh request is answered with tokens exactly when it rotates the live token it presents. */
  lemma {:induction false} OnlyLiveTokensRotate(cfg: Config, w: World, call: Call)
    requires call.request.Rotate?
    ensures var response := Step(cfg, w.tables, call.request, call.now).response;
            && (response.TokensIssued? <==> Rotates(w, call)) && (response.Refused? <==> !Rotates(w, call))
    ensures Rotates(w, call) ==> Live(w, call.request.token.value)
  {
  }

  /** Main result: a token that was issued and is no longer live is refused in every continuation. */
  lemma {:induction false} DeadIsRefused(cfg: Config, w: World, calls: seq<Call>, later: Call)
    requires Inv(w) && Clocked(calls)
    requires later.request.Rotate? && later.request.token.Some?
    requires later.request.token.value in w.origins && !Live(w, later.request.token.value)
    ensures Step(cfg, Run(cfg, w, calls).tables, later.request, later.now).response.Refused?
  {
    DeadStaysDead(cfg, w, calls, later.request.token.value);
    OnlyLiveTokensRotate(cfg, Run(cfg, w, calls), later);
  }

  lemma {:induction false} RotatedIsDead(cfg: Config, w: World, call: Call)
    requires Inv(w) && call.now > 0 && Rotates(w, call)
    ensures var p := call.request.token.value; p in Advance(cfg, w, call).origins && !Live(Advance(cfg, w, call), p)
  {
    var p := call.request.token.value;
    assert TokenSound(w, p);
    forall t | t in w.tables.tokens ensures t in w.origins { assert TokenSound(w, t); }
    RotateShape(cfg, w, call);
    assert p < w.tables.next;
  }

  /** A refresh token is good for one rotation: once exchanged, it is refused ever after. */
  lemma {:induction false} RotatedIsRefused(cfg: Config, w: World, first: Call, calls: seq<Call>, again: Call)
    requires Inv(w) && first.now > 0 && Clocked(calls) && Rotates(w, first)
    requires again.request.Rotate? && again.request.token == first.request.token
    ensures Step(cfg, Run(cfg, Advance(cfg, w, first), calls).tables, again.request, again.now).response.Refused?
  {
    StepKeeps(cfg, w, first);
    RotatedIsDead(cfg, w, first);
    DeadIsRefused(cfg, Advance(cfg, w, first), calls, again);
  }

  /** A request to revoke `t` that its client is entitled to make. */
  predicate Revokes(w: World, r: Request, t: nat) {
    r.Revoke? && r.presented == t && RevokeStep(w.tables, r).response == Done
    && (t in w.tables.tokens ==> w.tables.tokens[t].client == r.caller.client)
  }

  lemma {:induction false} RevokedIsGone(cfg: Config, w: World, revoke: Call, t: nat)
    requires Revokes(w, revoke.request, t)
    ensures t !in Advance(cfg, w, revoke).tables.tokens && Advance(cfg, w, revoke).origins == w.origins
  {
  }

  /** A token revoked by its client is refused ever after. */
  lemma {:induction false} RevokedIsRefused(cfg: Config, w: World, revoke: Call, calls: seq<Call>, later: Call)
    requires Inv(w) && revoke.now > 0 && Clocked(calls)
    requires later.request.Rotate? && later.request.token.Some? && later.request.token.value in w.origins
    requires Revokes(w, revoke.request, later.request.token.value)
    ensures Step(cfg, Run(cfg, Advance(cfg, w, revoke), calls).tables, later.request, later.now).response.Refused?
  {
    StepKeeps(cfg, w, revoke);
    RevokedIsGone(cfg, w, revoke, later.request.token.value);
    DeadIsRefused(cfg, Advance(cfg, w, revoke), calls, later);
  }

  // ----- disabled clients -----

  function Switched(t: Tables, client: string, disabled: bool): Tables {
    if client in t.clients then t.(clients := t.clients[client := t.clients[client].(disabled := disabled)]) else t
  }

  /** Revocation is answered without an error under the same conditions whether or not the client is disabled. */
  lemma {:induction false} RevocationIgnoresDisabled(t: Tables, r: Request, disabled: bool)
    requires r.Revoke?
    ensures RevokeStep(t, r).response == Done <==>
            r.caller.client in t.clients && SecretAccepted(t.clients[r.caller.client], r.caller) && !r.hintContradicts
    ensures var s := RevokeStep(Switched(t, r.caller.client, disabled), r);
            s.response == RevokeStep(t, r).response && s.tables.tokens == RevokeStep(t, r).tables.tokens
  {
  }

  /** A disabled client gets nothing at the token endpoint, but deletes a token of its own by revocation. */
  lemma {:induction false} DisabledClientRevokes(cfg: Config, t: Tables, r: Request, other: Request, now: int)
    requires r.Revoke? && r.caller.client in t.clients && t.clients[r.caller.client].disabled
    requires r.caller.secretMatches && !r.hintContradicts
    requires r.presented in t.tokens && t.tokens[r.presented].client == r.caller.client
    requires (other.Redeem? || other.Rotate? || other.ClientCredentials?) && other.caller == r.caller
    ensures Step(cfg, t, other, now) == Answer(t, Refused(InvalidClient))
    ensures Step(cfg, t, r, now) == Answer(t.(tokens := t.tokens - {r.presented}), Done)
  {
  }

  // ----- replay -----

  /** A revoked refresh token is presented by its own client. */
  predicate IsReplay(w: World, r: Request) {
    && r.Rotate? && Authenticated(w.tables, r.caller)
    && r.token.Some? && r.token.value in w.tables.tokens
    && w.tables.tokens[r.token.value].client == r.caller.client
    && IsRevoked(w.tables.tokens[r.token.value])
  }

  lemma {:induction false} ReplayDeletes(cfg: Config, w: World, replay: Call, t: nat)
    requires Inv(w) && IsReplay(w, replay.request) && t in w.origins && replay.request.token.value in w.origins
    requires var p := w.origins[replay.request.token.value].issued;
             w.origins[t].issued.client == p.client && w.origins[t].issued.user == p.user
    ensures t !in Advance(cfg, w, replay).tables.tokens
  {
    assert TokenSound(w, replay.request.token.value);
    if t in w.tables.tokens { assert TokenSound(w, t); }
  }

  lemma {:induction false} UnknownTokenRefused(cfg: Config, tables: Tables, r: Request, now: int)
    requires r.Rotate? && r.token.Some? && r.token.value !in tables.tokens
    ensures Step(cfg, tables, r, now).response.Refused?
  {
  }

  lemma {:induction false} UnknownCodeRefused(cfg: Config, tables: Tables, r: Request, now: int)
    requires r.Redeem? && r.code.Some? && r.code.value !in tables.codes
    ensures Step(cfg, tables, r, now).response.Refused?
  {
  }

  /**
  Main result: after a replay no refresh token issued so far for the same client and user
  is accepted again, in any continuation of the run.
  */
  lemma {:induction false} ReplayTearsDown(cfg: Config, w: World, replay: Call, calls: seq<Call>, later: Call)
    requires Inv(w) && replay.now > 0 && Clocked(calls)
    requires IsReplay(w, replay.request)
    requires later.request.Rotate? && later.request.token.Some? && later.request.token.value in w.origins
    requires var p, t := w.origins[replay.request.token.value].issued, w.origins[later.request.token.value].issued;
             replay.request.token.value in w.origins && t.client == p.client && t.user == p.user
    ensures var v := Run(cfg, Advance(cfg, w, replay), calls);
            Step(cfg, v.tables, later.request, later.now).response.Refused?
  {
    var v, t := Advance(cfg, w, replay), later.request.token.value;
    StepKeeps(cfg, w, replay);
    StepOnlyGoes(cfg, w, replay);
    RunOnlyGoes(cfg, v, calls);
    ReplayDeletes(cfg, w, replay, t);
    UnknownTokenRefused(cfg, Run(cfg, v, calls).tables, later.request, later.now);
  }

  // ----- scope -----

  /** `t` descends from `s` by rotations. */
  ghost predicate Descends(w: World, t: nat, s: nat)
    decreases t
  {
    t in w.origins && (t == s || (w.origins[t].parent.Some? && w.origins[t].parent.value < t
                                  && Descends(w, w.origins[t].parent.value, s)))
  }

  /**
  Main result: along every lineage the scope only narrows, from what was allowed at
  authorize through the code to each token, and client, user and session stay the same.
  */
  lemma {:induction false} ScopeNeverWidens(cfg: Config, calls: seq<Call>, t: nat, s: nat)
    requires Clocked(calls) && Descends(Run(cfg, EMPTY, calls), t, s)
    ensures var w := Run(cfg, EMPTY, calls);
            && s in w.origins && w.origins[s].root == w.origins[t].root
            && Within(w.origins[t].issued.scope, w.origins[s].issued.scope)
            && SameParty(w.origins[t].issued, w.origins[s].issued)
    ensures var w := Run(cfg, EMPTY, calls);
            var root := w.origins[t].root;
            && root in w.grants
            && Within(w.origins[t].issued.scope, w.grants[root].row.scope)
            && Within(w.grants[root].row.scope, w.grants[root].allowed)
            && w.origins[t].issued.client == w.grants[root].row.client
            && w.origins[t].issued.user == w.grants[root].row.user
            && w.origins[t].issued.session == w.grants[root].row.session
    decreases t
  {
    Reachable(cfg, calls);
    var w := Run(cfg, EMPTY, calls);
    assert OriginSound(w, t) && GrantSound(w, w.origins[t].root);
    if t != s {
      ScopeNeverWidens(cfg, calls, w.origins[t].parent.value, s);
    }
  }

  // ----- codes -----

  /** What the verifier proves: it hashes to the stored challenge, or neither was used and none was required. */
  predicate ProofHolds(cfg: Config, client: Client, row: Code, verifier: Option<string>) {
    if Truthy(row.challenge) then Truthy(verifier) && cfg.pkce(verifier.value) == row.challenge.value
    else !Truthy(verifier) && !PkceRequired(client, row.scope)
  }

  lemma {:induction false} PkceExactly(cfg: Config, client: Client, row: Code, verifier: Option<string>)
    requires row.challengeMethod in {None, Some(S256)}
    ensures PkceError(cfg, client, row, verifier).None? <==> ProofHolds(cfg, client, row, verifier)
  {
    assert Truthy(Some(S256));
  }

  /**
  Main result: a code is exchanged for tokens exactly when the client is authenticated, the
  code was issued to that client and redirect URI, has never been consumed, has not expired,
  and the verifier proves possession; and the tokens carry the user, scope and session
  recorded at authorize.
  */
  lemma {:induction false} CodeBinding(cfg: Config, calls: seq<Call>, call: Call)
    requires Clocked(calls) && call.request.Redeem?
    ensures var w, r := Run(cfg, EMPTY, calls), call.request;
            Step(cfg, w.tables, r, call.now).response.TokensIssued? <==>
              (&& Authenticated(w.tables, r.caller) && r.redirectUri != ""
               && r.code.Some? && r.code.value in w.grants && r.code.value !in w.spent
               && w.grants[r.code.value].row.client == r.caller.client
               && w.grants[r.code.value].row.redirectUri == r.redirectUri
               && call.now <= w.grants[r.code.value].row.expiresAt
               && ProofHolds(cfg, w.tables.clients[r.caller.client], w.grants[r.code.value].row, r.verifier))
    ensures var w, r := Run(cfg, EMPTY, calls), call.request;
            var response := Step(cfg, w.tables, r, call.now).response;
            response.TokensIssued? ==>
              var row := w.grants[r.code.value].row;
              response.user == row.user && response.scope == row.scope && response.session == row.session
  {
    Reachable(cfg, calls);
    GrantsAccountedFor(cfg, calls);
    var w, r := Run(cfg, EMPTY, calls), call.request;
    if Presents(w, r) {
      assert CodeSound(w, r.code.value);
      PkceExactly(cfg, w.tables.clients[r.caller.client], w.tables.codes[r.code.value], r.verifier);
    }
  }

  ghost predicate Accounted(w: World) {
    forall c | c in w.grants :: c in w.tables.codes || c in w.spent
  }

  lemma {:induction false} AccountedStep(cfg: Config, w: World, call: Call)
    requires Inv(w) && Accounted(w)
    ensures Accounted(Advance(cfg, w, call))
  {
    StepNumbers(cfg, w, call);
    if call.request.Authorize? {
      AuthorizeShape(cfg, w, call);
    } else {
      assert w.tables.codes.Keys - (w.tables.codes.Keys - Advance(cfg, w, call).tables.codes.Keys)
          <= Advance(cfg, w, call).tables.codes.Keys;
    }
  }

  /** A granted code is stored until it is consumed. */
  lemma {:induction false} GrantsAccountedFor(cfg: Config, calls: seq<Call>)
    requires Clocked(calls)
    ensures Accounted(Run(cfg, EMPTY, calls))
  {
    if calls != [] {
      var front := calls[..|calls| - 1];
      GrantsAccountedFor(cfg, front);
      Reachable(cfg, front);
      AccountedStep(cfg, Run(cfg, EMPTY, front), calls[|calls| - 1]);
    }
  }

  lemma {:induction false} SpentIsGone(w: World, c: nat)
    requires Inv(w) && c in w.spent
    ensures c !in w.tables.codes
  {
    assert c in w.tables.codes ==> CodeSound(w, c);
  }

  /** Once a code has been presented, whatever came of it, no later request exchanges it. */
  lemma {:induction false} CodeIsSingleUse(cfg: Config, w: World, first: Call, calls: seq<Call>, again: Call)
    requires Inv(w) && first.now > 0 && Clocked(calls)
    requires Presents(w, first.request)
    requires again.request.Redeem? && again.request.code == first.request.code
    ensures var v := Run(cfg, Advance(cfg, w, first), calls);
            Step(cfg, v.tables, again.request, again.now).response.Refused?
  {
    var v := Advance(cfg, w, first);
    RedeemShape(cfg, w, first);
    StepKeeps(cfg, w, first);
    RunOnlyGoes(cfg, v, calls);
    RunKeeps(cfg, v, calls);
    var c := first.request.code.value;
    SpentIsGone(Run(cfg, v, calls), c);
    UnknownCodeRefused(cfg, Run(cfg, v, calls).tables, again.request, again.now);
  }

  /** Call number `i` of the run issued code `c`. */
  ghost predicate IssuedBy(cfg: Config, calls: seq<Call>, i: nat, c: nat)
    requires i < |calls|
  {
    Step(cfg, Run(cfg, EMPTY, calls[..i]).tables, calls[i].request, calls[i].now).response == CodeIssued(c)
  }

  /** Call number `i` of the run is the authorize request that issued code `c` on the recorded terms. */
  ghost predicate Grants(cfg: Config, calls: seq<Call>, i: nat, c: nat, row: Code)
    requires i < |calls|
  {
    && calls[i].request.Authorize? && calls[i].request.session.Some?
    && IssuedBy(cfg, calls, i, c)
    && row == NewCode(cfg, calls[i].request, calls[i].now)
  }

  /** Every granted code comes from an authorize request of the run, whose terms it records. */
  lemma {:induction false} GrantComesFromAuthorize(cfg: Config, calls: seq<Call>, c: nat) returns (i: nat)
    requires c in Run(cfg, EMPTY, calls).grants
    ensures i < |calls| && Grants(cfg, calls, i, c, Run(cfg, EMPTY, calls).grants[c].row)
    decreases |calls|
  {
    i := |calls| - 1;
    var front := calls[..i];
    var w := Run(cfg, EMPTY, front);
    StepNumbers(cfg, w, calls[i]);
    if !IssuedBy(cfg, calls, i, c) {
      i := GrantComesFromAuthorize(cfg, front, c);
      assert front[..i] == calls[..i];
    }
  }

  lemma {:induction false} PrefixNext(cfg: Config, calls: seq<Call>, i: nat)
    requires i <= |calls|
    ensures Run(cfg, EMPTY, calls[..i]).tables.next <= Run(cfg, EMPTY, calls).tables.next
    decreases |calls|
  {
    if i == |calls| {
      assert calls[..i] == calls;
    } else {
      var front := calls[..|calls| - 1];
      PrefixNext(cfg, front, i);
      assert front[..i] == calls[..i];
      StepNumbers(cfg, Run(cfg, EMPTY, front), calls[|calls| - 1]);
    }
  }

  lemma {:induction false} LaterCodesDiffer(cfg: Config, calls: seq<Call>, i: nat, j: nat, c: nat)
    requires i < j < |calls| && IssuedBy(cfg, calls, i, c)
    ensures !IssuedBy(cfg, calls, j, c)
  {
    var upTo := calls[..i + 1];
    assert upTo[..i] == calls[..i];
    StepNumbers(cfg, Run(cfg, EMPTY, calls[..i]), calls[i]);
    assert Run(cfg, EMPTY, upTo).tables.next == c + 1;
    PrefixNext(cfg, calls[..j], i + 1);
    assert calls[..j][..i + 1] == upTo;
    StepNumbers(cfg, Run(cfg, EMPTY, calls[..j]), calls[j]);
  }

  /** No two requests of a run issue the same code, so the one behind a grant is unique. */
  lemma {:induction false} AuthorizeIsUnique(cfg: Config, calls: seq<Call>, i: nat, j: nat, c: nat)
    requires i < |calls| && j < |calls| && IssuedBy(cfg, calls, i, c) && IssuedBy(cfg, calls, j, c)
    ensures i == j
  {
    if i < j {
      LaterCodesDiffer(cfg, calls, i, j, c);
    } else if j < i {
      LaterCodesDiffer(cfg, calls, j, i, c);
    }
  }
}
