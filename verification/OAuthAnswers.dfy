/**
What each endpoint of the provider answers and stores, in terms of the request and the
stored rows alone, and that a refresh token once minted can be used.
*/
module OAuthAnswers {
  import opened Options
  import opened OAuthProvider
  import opened OAuthRuns
  import opened OAuthSafety

  predicate Given(s: Option<string>) {
    s != None && s != Some("")
  }

  predicate NeedsPkce(client: Client, scope: seq<string>) {
    client.isPublic || client.requirePkce || "offline_access" in scope
  }

  // ----- authorize -----

  function Asked(r: Request): seq<string>
    requires r.Authorize?
  {
    if r.requested == None then ["openid"] else r.requested.value
  }

  predicate Named(r: Request)
    requires r.Authorize?
  {
    r.client != "" && r.redirectUri != ""
  }

  predicate Registered(t: Tables, r: Request)
    requires r.Authorize?
  {
    Named(r) && r.client in t.clients && r.redirectUri in t.clients[r.client].redirectUris
  }

  predicate LoggedIn(t: Tables, r: Request)
    requires r.Authorize?
  {
    Registered(t, r) && r.session != None
  }

  predicate Challenged(t: Tables, r: Request)
    requires r.Authorize?
  {
    && LoggedIn(t, r)
    && (NeedsPkce(t.clients[r.client], Asked(r)) ==> Given(r.challenge))
    && (Given(r.challengeMethod) ==> r.challengeMethod == Some("S256"))
  }

  predicate Permitted(cfg: Config, t: Tables, r: Request)
    requires r.Authorize?
  {
    && Challenged(t, r)
    && forall s :: s in Asked(r) ==> s in t.clients[r.client].allowedScopes || s in cfg.supportedScopes
  }

  /** The code row stores the terms of the request. */
  predicate Records(cfg: Config, r: Request, now: int, row: Code)
    requires r.Authorize? && r.session.Some?
  {
    && row.client == r.client && row.redirectUri == r.redirectUri
    && row.user == r.session.value.user && row.session == Some(r.session.value.id)
    && row.scope == Asked(r) && row.expiresAt == now + cfg.codeTtl
    && row.challenge == r.challenge
    && (Given(r.challengeMethod) ==> row.challengeMethod == r.challengeMethod)
    && (!Given(r.challengeMethod) ==> row.challengeMethod == if Given(r.challenge) then Some("S256") else None)
  }

  /** Main result: a request gets a code exactly when every check passes, and each refusal has its own condition. */
  lemma {:induction false} AuthorizeExactly(cfg: Config, t: Tables, r: Request, now: int)
    requires r.Authorize?
    ensures var response := Step(cfg, t, r, now).response;
      && (response.CodeIssued? <==> Permitted(cfg, t, r))
      && (response == Refused(InvalidScope) <==> Challenged(t, r) && !Permitted(cfg, t, r))
      && (response == Refused(LoginRequired) <==> Registered(t, r) && !LoggedIn(t, r))
      && (response == Refused(InvalidClient) <==> Named(r) && r.client !in t.clients)
      && (response == Refused(InvalidRequest) <==>
            !Named(r) || (r.client in t.clients && !Registered(t, r)) || (LoggedIn(t, r) && !Challenged(t, r)))
    ensures !Permitted(cfg, t, r) ==> Step(cfg, t, r, now).tables == t
    ensures Permitted(cfg, t, r) ==>
      var a := Step(cfg, t, r, now);
      && a.response == CodeIssued(t.next) && t.next in a.tables.codes
      && a.tables == t.(codes := t.codes[t.next := a.tables.codes[t.next]], next := t.next + 1)
      && Records(cfg, r, now, a.tables.codes[t.next])
  {
  }

  /**
  Main result: every code granted in a run was asked for by an authorize request whose client
  had registered the redirect URI at that moment, and records the terms of that request.
  */
  lemma {:induction false} GrantWasRegistered(cfg: Config, calls: seq<Call>, c: nat) returns (i: nat)
    requires c in Run(cfg, EMPTY, calls).grants
    ensures i < |calls| && calls[i].request.Authorize? && calls[i].request.session.Some?
    ensures var row, r := Run(cfg, EMPTY, calls).grants[c].row, calls[i].request;
            && Records(cfg, r, calls[i].now, row)
            && Permitted(cfg, Run(cfg, EMPTY, calls[..i]).tables, r)
            && row.redirectUri in Run(cfg, EMPTY, calls[..i]).tables.clients[row.client].redirectUris
  {
    i := GrantComesFromAuthorize(cfg, calls, c);
    AuthorizeExactly(cfg, Run(cfg, EMPTY, calls[..i]).tables, calls[i].request, calls[i].now);
  }

  // ----- the token endpoint -----

  /** The client is known and enabled, and is public or presents its secret. */
  predicate Trusted(t: Tables, caller: Caller) {
    && caller.client in t.clients && !t.clients[caller.client].disabled
    && (t.clients[caller.client].isPublic || caller.secretMatches)
  }

  /** A verifier that hashes to the challenge, or neither of them where none is needed. */
  predicate Proves(cfg: Config, client: Client, row: Code, verifier: Option<string>) {
    if Given(row.challenge) then Given(verifier) && cfg.pkce(verifier.value) == row.challenge.value
    else !Given(verifier) && !NeedsPkce(client, row.scope)
  }

  /** The request gets as far as consuming a stored code. */
  predicate Finds(t: Tables, r: Request)
    requires r.Redeem?
  {
    Trusted(t, r.caller) && r.redirectUri != "" && r.code.Some? && r.code.value in t.codes
  }

  predicate IsOwnCode(t: Tables, r: Request, now: int)
    requires r.Redeem?
  {
    && Finds(t, r) && now <= t.codes[r.code.value].expiresAt
    && t.codes[r.code.value].client == r.caller.client && t.codes[r.code.value].redirectUri == r.redirectUri
  }

  /** Main result: what a code is exchanged for, and that only the presented code is consumed. */
  lemma {:induction false} RedeemExactly(cfg: Config, t: Tables, r: Request, now: int)
    requires r.Redeem? && (Finds(t, r) ==> t.codes[r.code.value].challengeMethod in {None, Some("S256")})
    ensures var a := Step(cfg, t, r, now);
      && (a.response.TokensIssued? <==>
            IsOwnCode(t, r, now) && Proves(cfg, t.clients[r.caller.client], t.codes[r.code.value], r.verifier))
      && (a.response == Refused(InvalidClient) <==> !Trusted(t, r.caller))
      && (a.response == Refused(CodeExpired) <==> Finds(t, r) && t.codes[r.code.value].expiresAt < now)
      && (a.response == Refused(ClientMismatch) <==>
            Finds(t, r) && now <= t.codes[r.code.value].expiresAt && t.codes[r.code.value].client != r.caller.client)
      && (a.response == Refused(RedirectMismatch) <==>
            && Finds(t, r) && now <= t.codes[r.code.value].expiresAt
            && t.codes[r.code.value].client == r.caller.client && t.codes[r.code.value].redirectUri != r.redirectUri)
      && (a.response == Refused(InvalidGrant) <==>
            Trusted(t, r.caller) && r.redirectUri != "" && r.code.Some? && r.code.value !in t.codes)
      && a.tables.codes == (if Finds(t, r) then t.codes - {r.code.value} else t.codes)
      && a.tables.clients == t.clients
    ensures var a := Step(cfg, t, r, now);
      a.response.TokensIssued? ==>
        var row := t.codes[r.code.value];
        && a.response.client == r.caller.client && a.response.user == row.user
        && a.response.scope == row.scope && a.response.session == row.session
  {
    assert Truthy(Some(S256));
  }

  /** The request presents a stored token of its own client. */
  predicate HoldsToken(t: Tables, r: Request)
    requires r.Rotate?
  {
    && Trusted(t, r.caller) && r.token.Some? && r.token.value in t.tokens
    && t.tokens[r.token.value].client == r.caller.client
  }

  predicate Unrevoked(row: Refresh) {
    row.revoked == None || row.revoked == Some(0)
  }

  predicate MayRotate(t: Tables, r: Request, now: int)
    requires r.Rotate?
  {
    && HoldsToken(t, r) && Unrevoked(t.tokens[r.token.value]) && now <= t.tokens[r.token.value].expiresAt
    && (r.narrowed.Some? ==> forall s :: s in r.narrowed.value ==> s in t.tokens[r.token.value].scope)
  }

  /** Main result: which tokens are exchanged and for what, and what each outcome does to the stored ones. */
  lemma {:induction false} RotateExactly(cfg: Config, t: Tables, r: Request, now: int)
    requires r.Rotate? && forall k :: k in t.tokens ==> k < t.next
    ensures var a := Step(cfg, t, r, now);
      && (a.response.TokensIssued? <==> MayRotate(t, r, now)) && (a.response.Refused? <==> !MayRotate(t, r, now))
      && a.tables.codes == t.codes && a.tables.clients == t.clients
    ensures var response := Step(cfg, t, r, now).response;
      && (response == Refused(InvalidClient) <==> !Trusted(t, r.caller))
      && (response == Refused(InvalidRequest) <==> Trusted(t, r.caller) && r.token.None?)
      && (response == Refused(ClientMismatch) <==>
            Trusted(t, r.caller) && r.token.Some? && r.token.value in t.tokens && !HoldsToken(t, r))
      && (response == Refused(TokenExpired) <==>
            HoldsToken(t, r) && Unrevoked(t.tokens[r.token.value]) && t.tokens[r.token.value].expiresAt < now)
      && (response == Refused(InvalidGrant) <==>
            || (Trusted(t, r.caller) && r.token.Some? && r.token.value !in t.tokens)
            || (HoldsToken(t, r) && !Unrevoked(t.tokens[r.token.value])))
    ensures MayRotate(t, r, now) ==>
      var a, row := Step(cfg, t, r, now), t.tokens[r.token.value];
      && a.response.client == r.caller.client && a.response.user == row.user && a.response.session == row.session
      && a.response.scope == (if r.narrowed.Some? then r.narrowed.value else row.scope)
      && (forall k :: k in t.tokens ==> k in a.tables.tokens)
      && (forall k :: k in t.tokens ==> a.tables.tokens[k] == if k == r.token.value then row.(revoked := Some(now)) else t.tokens[k])
    ensures HoldsToken(t, r) && !Unrevoked(t.tokens[r.token.value]) ==>
      var a, row := Step(cfg, t, r, now), t.tokens[r.token.value];
      a.tables.tokens == map k | k in t.tokens && (t.tokens[k].client != row.client || t.tokens[k].user != row.user) :: t.tokens[k]
    ensures !MayRotate(t, r, now) && !(HoldsToken(t, r) && !Unrevoked(t.tokens[r.token.value])) ==> Step(cfg, t, r, now).tables == t
  {
  }

  /** A machine client gets a token for itself, with no identity scope, no refresh token and nothing stored. */
  lemma {:induction false} ClientCredentialsExactly(cfg: Config, t: Tables, r: Request, now: int)
    requires r.ClientCredentials?
    ensures var a := Step(cfg, t, r, now);
      && (a.response.TokensIssued? <==>
            && Trusted(t, r.caller) && !t.clients[r.caller.client].isPublic
            && "openid" !in r.words && "profile" !in r.words && "email" !in r.words && "offline_access" !in r.words)
      && (a.response.TokensIssued? ==>
            a.response == TokensIssued(r.caller.client, "client:" + r.caller.client, r.words, None, None))
      && (!a.response.TokensIssued? ==> a.response.Refused?) && a.tables == t
  {
    if exists s :: s in r.words && s in ["openid", "profile", "email", OFFLINE_ACCESS] {
      var s :| s in r.words && s in ["openid", "profile", "email", OFFLINE_ACCESS];
    }
  }

  /** Revocation deletes the presented token if the caller owns it, and touches nothing else. */
  lemma {:induction false} RevokeExactly(cfg: Config, t: Tables, r: Request, now: int)
    requires r.Revoke?
    ensures var a := Step(cfg, t, r, now);
      var entitled := r.caller.client in t.clients && (t.clients[r.caller.client].isPublic || r.caller.secretMatches);
      && a.response == (if !entitled then Refused(InvalidClient) else if r.hintContradicts then Refused(UnsupportedTokenType) else Done)
      && a.tables == t.(tokens := map k | k in t.tokens &&
                          !(a.response == Done && k == r.presented && t.tokens[k].client == r.caller.client) :: t.tokens[k])
  {
  }

  // ----- a minted token can be used -----

  /** The answer mints refresh token `n`: a number never handed out before, stored on the terms of the answer. */
  predicate Mints(cfg: Config, t: Tables, a: Answer, now: int, n: nat) {
    && a.response.TokensIssued? && a.response.refresh == Some(n)
    && t.next <= n < a.tables.next && n in a.tables.tokens
    && var row := a.tables.tokens[n];
    && row.client == a.response.client && row.user == a.response.user
    && row.scope == a.response.scope && row.session == a.response.session
    && row.revoked == None && row.expiresAt == now + cfg.refreshTtl
  }

  /** A refresh token is minted exactly for offline_access, and no other token appears. */
  ghost predicate MintsAsAsked(cfg: Config, t: Tables, a: Answer, now: int) {
    && (a.response.TokensIssued? ==> (a.response.refresh.Some? <==> "offline_access" in a.response.scope))
    && (a.response.TokensIssued? && a.response.refresh.Some? ==> Mints(cfg, t, a, now, a.response.refresh.value))
    && (forall k :: k in a.tables.tokens ==> k in t.tokens || (a.response.TokensIssued? && a.response.refresh == Some(k)))
  }

  lemma {:induction false} RedeemMints(cfg: Config, t: Tables, r: Request, now: int)
    requires r.Redeem?
    ensures MintsAsAsked(cfg, t, Step(cfg, t, r, now), now)
  {
  }

  lemma {:induction false} RotateMints(cfg: Config, t: Tables, r: Request, now: int)
    requires r.Rotate?
    ensures MintsAsAsked(cfg, t, Step(cfg, t, r, now), now)
  {
  }

  /** Main result: tokens come with a refresh token exactly for offline_access, and it is new and stored. */
  lemma {:induction false} MintsExactly(cfg: Config, t: Tables, r: Request, now: int)
    ensures MintsAsAsked(cfg, t, Step(cfg, t, r, now), now)
  {
    match r
    case Redeem(_, _, _, _) => RedeemMints(cfg, t, r, now);
    case Rotate(_, _, _) => RotateMints(cfg, t, r, now);
    case ClientCredentials(_, _) => ClientCredentialsExactly(cfg, t, r, now);
    case _ =>
  }

  ghost predicate Minted(cfg: Config, w: World, call: Call, n: nat) {
    Mints(cfg, w.tables, Step(cfg, w.tables, call.request, call.now), call.now, n)
  }

  lemma {:induction false} OriginsStay(cfg: Config, w: World, call: Call)
    requires Inv(w)
    ensures forall t :: t in w.origins ==> t in Advance(cfg, w, call).origins && Advance(cfg, w, call).origins[t] == w.origins[t]
  {
    MintsExactly(cfg, w.tables, call.request, call.now);
  }

  lemma {:induction false} OriginsStayInRun(cfg: Config, w: World, calls: seq<Call>, t: nat)
    requires Inv(w) && Clocked(calls) && t in w.origins
    ensures t in Run(cfg, w, calls).origins && Run(cfg, w, calls).origins[t] == w.origins[t]
  {
    if calls != [] {
      var front := calls[..|calls| - 1];
      OriginsStayInRun(cfg, w, front, t);
      RunKeeps(cfg, w, front);
      OriginsStay(cfg, Run(cfg, w, front), calls[|calls| - 1]);
    }
  }

  /** A stored token keeps the terms on which it was minted, for as long as it is stored. */
  lemma {:induction false} TermsStay(cfg: Config, w: World, call: Call, calls: seq<Call>, n: nat)
    requires Inv(w) && call.now > 0 && Clocked(calls) && Minted(cfg, w, call, n)
    requires n in Run(cfg, Advance(cfg, w, call), calls).tables.tokens
    ensures Run(cfg, Advance(cfg, w, call), calls).tables.tokens[n].(revoked := None) == Advance(cfg, w, call).tables.tokens[n]
  {
    var v := Advance(cfg, w, call);
    StepKeeps(cfg, w, call);
    assert TokenSound(v, n);
    OriginsStayInRun(cfg, v, calls, n);
    RunKeeps(cfg, v, calls);
    assert TokenSound(Run(cfg, v, calls), n);
  }

  /**
  Main result: a minted token that has been neither rotated nor deleted since is exchanged for
  tokens whenever its client presents it within its lifetime, for any scope within its own.
  */
  lemma {:induction false} MintedTokenRotates(cfg: Config, w: World, call: Call, calls: seq<Call>, later: Call, n: nat)
    requires Inv(w) && call.now > 0 && Clocked(calls) && Minted(cfg, w, call, n)
    requires var v := Run(cfg, Advance(cfg, w, call), calls).tables;
             n in v.tokens && Unrevoked(v.tokens[n]) && later.request.Rotate? && Trusted(v, later.request.caller)
    requires var response, r := Step(cfg, w.tables, call.request, call.now).response, later.request;
             && r.token == Some(n) && r.caller.client == response.client && later.now <= call.now + cfg.refreshTtl
             && (r.narrowed.Some? ==> forall s :: s in r.narrowed.value ==> s in response.scope)
    ensures Step(cfg, Run(cfg, Advance(cfg, w, call), calls).tables, later.request, later.now).response.TokensIssued?
  {
    var v := Run(cfg, Advance(cfg, w, call), calls);
    TermsStay(cfg, w, call, calls, n);
    StepKeeps(cfg, w, call);
    RunKeeps(cfg, Advance(cfg, w, call), calls);
    RotateExactly(cfg, v.tables, later.request, later.now);
  }
}
