/**
The token endpoint of the OAuth provider: authorization codes with PKCE, refresh tokens
that rotate, and the teardown of a family when a rotated token is replayed.

Codes and tokens are fresh numbers, since the random strings they stand for do not repeat;
a number not handed out yet stands for a string the server never issued. Scopes are lists
of words. Each request is one step.
*/
module OAuthProvider {
  import opened Options
  import opened TableStore

  datatype Client = Client(
    isPublic: bool,
    disabled: bool,
    requirePkce: bool,
    redirectUris: seq<string>,
    allowedScopes: seq<string>)

  /** `pkce` is the S256 transformation of a code verifier. */
  datatype Config = Config(supportedScopes: seq<string>, codeTtl: int, refreshTtl: int, pkce: string -> string)

  datatype Code = Code(
    client: string,
    user: string,
    redirectUri: string,
    scope: seq<string>,
    challenge: Option<string>,
    challengeMethod: Option<string>,
    session: Option<string>,
    expiresAt: int)

  datatype Refresh = Refresh(
    client: string,
    user: string,
    scope: seq<string>,
    session: Option<string>,
    expiresAt: int,
    revoked: Option<int>)

  datatype Session = Session(id: string, user: string)

  /** The client id a caller presents, and whether the secret it came with is the stored one. */
  datatype Caller = Caller(client: string, secretMatches: bool)

  datatype Request =
    | Authorize(client: string, redirectUri: string, requested: Option<seq<string>>,
                challenge: Option<string>, challengeMethod: Option<string>, session: Option<Session>)
    | Redeem(caller: Caller, code: Option<nat>, redirectUri: string, verifier: Option<string>)
    | Rotate(caller: Caller, token: Option<nat>, narrowed: Option<seq<string>>)
    | ClientCredentials(caller: Caller, words: seq<string>)
    | Revoke(caller: Caller, presented: nat, hintContradicts: bool)
    | Configure(clients: map<string, Client>)

  datatype Error =
    | InvalidRequest | InvalidClient | LoginRequired | InvalidScope | InvalidGrant
    | CodeExpired | TokenExpired | ClientMismatch | RedirectMismatch | PkceFailed | UnsupportedTokenType

  datatype Response =
    | CodeIssued(code: nat)
    | TokensIssued(client: string, user: string, scope: seq<string>, session: Option<string>, refresh: Option<nat>)
    | Done
    | Refused(error: Error)

  /** The stored rows. `next` is the first number never handed out. */
  datatype Tables = Tables(clients: map<string, Client>, codes: map<nat, Code>, tokens: map<nat, Refresh>, next: nat)

  datatype Answer = Answer(tables: Tables, response: Response)

  const OFFLINE_ACCESS := "offline_access"
  const S256 := "S256"

  predicate Within(small: seq<string>, large: seq<string>) {
    forall s :: s in small ==> s in large
  }

  predicate PkceRequired(client: Client, scope: seq<string>) {
    client.isPublic || OFFLINE_ACCESS in scope || client.requirePkce
  }

  predicate SecretAccepted(client: Client, caller: Caller) {
    client.isPublic || caller.secretMatches
  }

  /** Client authentication at the token endpoint. */
  predicate Authenticated(t: Tables, caller: Caller) {
    && caller.client in t.clients
    && !t.clients[caller.client].disabled
    && SecretAccepted(t.clients[caller.client], caller)
  }

  predicate IsRevoked(row: Refresh) {
    row.revoked.Some? && row.revoked.value != 0
  }

  // ----- authorize -----

  function RequestedScope(requested: Option<seq<string>>): seq<string> {
    requested.GetOr(["openid"])
  }

  function AuthorizeError(cfg: Config, t: Tables, r: Request): Option<Error>
    requires r.Authorize?
  {
    var scope := RequestedScope(r.requested);
    if r.client == "" || r.redirectUri == "" then Some(InvalidRequest)
    else if r.client !in t.clients then Some(InvalidClient)
    else
      var client := t.clients[r.client];
      if r.redirectUri !in client.redirectUris then Some(InvalidRequest)
      else if r.session.None? then Some(LoginRequired)
      else if PkceRequired(client, scope) && !Truthy(r.challenge) then Some(InvalidRequest)
      else if Truthy(r.challengeMethod) && r.challengeMethod != Some(S256) then Some(InvalidRequest)
      else if !Within(scope, client.allowedScopes + cfg.supportedScopes) then Some(InvalidScope)
      else None
  }

  function NewCode(cfg: Config, r: Request, now: int): Code
    requires r.Authorize? && r.session.Some?
  {
    Code(r.client, r.session.value.user, r.redirectUri, RequestedScope(r.requested), r.challenge,
         if Truthy(r.challengeMethod) then r.challengeMethod else if Truthy(r.challenge) then Some(S256) else None,
         Some(r.session.value.id), now + cfg.codeTtl)
  }

  function AuthorizeStep(cfg: Config, t: Tables, r: Request, now: int): Answer
    requires r.Authorize?
  {
    var error := AuthorizeError(cfg, t, r);
    if error.Some? then Answer(t, Refused(error.value))
    else Answer(t.(codes := t.codes[t.next := NewCode(cfg, r, now)], next := t.next + 1), CodeIssued(t.next))
  }

  // ----- issuing -----

  function NewRefresh(cfg: Config, client: string, user: string, scope: seq<string>, session: Option<string>, now: int): Refresh {
    Refresh(client, user, scope, session, now + cfg.refreshTtl, None)
  }

  /** A refresh token is minted only for `offline_access`. */
  function Issue(cfg: Config, t: Tables, client: string, user: string, scope: seq<string>, session: Option<string>, now: int): Answer {
    if OFFLINE_ACCESS in scope then
      Answer(t.(tokens := t.tokens[t.next := NewRefresh(cfg, client, user, scope, session, now)], next := t.next + 1),
             TokensIssued(client, user, scope, session, Some(t.next)))
    else Answer(t, TokensIssued(client, user, scope, session, None))
  }

  // ----- the grants -----

  function PkceError(cfg: Config, client: Client, row: Code, verifier: Option<string>): Option<Error> {
    if PkceRequired(client, row.scope) && !Truthy(verifier) then Some(InvalidRequest)
    else if Truthy(row.challenge) && !Truthy(verifier) then Some(InvalidRequest)
    else if Truthy(verifier) && !Truthy(row.challenge) then Some(InvalidRequest)
    else if Truthy(row.challenge) then
      var computed := if !Truthy(row.challengeMethod) || row.challengeMethod == Some(S256)
                      then cfg.pkce(verifier.value) else verifier.value;
      if computed != row.challenge.value then Some(PkceFailed) else None
    else None
  }

  function RedeemError(cfg: Config, t: Tables, r: Request, row: Code, now: int): Option<Error>
    requires r.Redeem? && r.caller.client in t.clients
  {
    if row.expiresAt < now then Some(CodeExpired)
    else if row.client != r.caller.client then Some(ClientMismatch)
    else if row.redirectUri != r.redirectUri then Some(RedirectMismatch)
    else PkceError(cfg, t.clients[r.caller.client], row, r.verifier)
  }

  /** A code is consumed before anything about it is checked. */
  function RedeemStep(cfg: Config, t: Tables, r: Request, now: int): Answer
    requires r.Redeem?
  {
    if !Authenticated(t, r.caller) then Answer(t, Refused(InvalidClient))
    else if r.code.None? || r.redirectUri == "" then Answer(t, Refused(InvalidRequest))
    else if r.code.value !in t.codes then Answer(t, Refused(InvalidGrant))
    else
      var row := t.codes[r.code.value];
      var spent := t.(codes := t.codes - {r.code.value});
      var error := RedeemError(cfg, t, r, row, now);
      if error.Some? then Answer(spent, Refused(error.value))
      else Issue(cfg, spent, r.caller.client, row.user, row.scope, row.session, now)
  }

  function WithoutFamily(tokens: map<nat, Refresh>, client: string, user: string): map<nat, Refresh> {
    map k | k in tokens && !(tokens[k].client == client && tokens[k].user == user) :: tokens[k]
  }

  function RotateStep(cfg: Config, t: Tables, r: Request, now: int): Answer
    requires r.Rotate?
  {
    if !Authenticated(t, r.caller) then Answer(t, Refused(InvalidClient))
    else if r.token.None? then Answer(t, Refused(InvalidRequest))
    else if r.token.value !in t.tokens then Answer(t, Refused(InvalidGrant))
    else
      var row := t.tokens[r.token.value];
      if row.client != r.caller.client then Answer(t, Refused(ClientMismatch))
      else if IsRevoked(row) then
        Answer(t.(tokens := WithoutFamily(t.tokens, r.caller.client, row.user)), Refused(InvalidGrant))
      else if row.expiresAt < now then Answer(t, Refused(TokenExpired))
      else if r.narrowed.Some? && !Within(r.narrowed.value, row.scope) then Answer(t, Refused(InvalidScope))
      else
        Issue(cfg, t.(tokens := t.tokens[r.token.value := row.(revoked := Some(now))]),
              r.caller.client, row.user, r.narrowed.GetOr(row.scope), row.session, now)
  }

  function ClientCredentialsStep(cfg: Config, t: Tables, r: Request, now: int): Answer
    requires r.ClientCredentials?
  {
    if !Authenticated(t, r.caller) then Answer(t, Refused(InvalidClient))
    else if t.clients[r.caller.client].isPublic then Answer(t, Refused(InvalidClient))
    else if exists s :: s in r.words && s in ["openid", "profile", "email", OFFLINE_ACCESS] then Answer(t, Refused(InvalidScope))
    else Issue(cfg, t, r.caller.client, "client:" + r.caller.client, r.words, None, now)
  }

  function RevokeStep(t: Tables, r: Request): Answer
    requires r.Revoke?
  {
    if r.caller.client !in t.clients || !SecretAccepted(t.clients[r.caller.client], r.caller) then Answer(t, Refused(InvalidClient))
    else if r.hintContradicts then Answer(t, Refused(UnsupportedTokenType))
    else if r.presented in t.tokens && t.tokens[r.presented].client == r.caller.client then
      Answer(t.(tokens := t.tokens - {r.presented}), Done)
    else Answer(t, Done)
  }

  function Step(cfg: Config, t: Tables, r: Request, now: int): Answer {
    match r
    case Authorize(_, _, _, _, _, _) => AuthorizeStep(cfg, t, r, now)
    case Redeem(_, _, _, _) => RedeemStep(cfg, t, r, now)
    case Rotate(_, _, _) => RotateStep(cfg, t, r, now)
    case ClientCredentials(_, _) => ClientCredentialsStep(cfg, t, r, now)
    case Revoke(_, _, _) => RevokeStep(t, r)
    case Configure(clients) => Answer(t.(clients := clients), Done)
  }

  // ----- the handlers -----

  class Provider {
    const cfg: Config
    const codes: Table<nat, Code>
    const tokens: Table<nat, Refresh>
    var clients: map<string, Client>
    var next: nat

    constructor (cfg: Config)
      ensures Valid() && fresh(codes) && fresh(tokens) && this.cfg == cfg
      ensures Now() == Tables(map[], map[], map[], 0)
    {
      this.cfg := cfg;
      codes := new Table<nat, Code>();
      tokens := new Table<nat, Refresh>();
      clients, next := map[], 0;
    }

    ghost predicate Valid()
      reads this, codes, tokens
    {
      && codes.Valid() && tokens.Valid()
      && (forall k :: k in codes.View() ==> k < next)
      && (forall k :: k in tokens.View() ==> k < next)
    }

    ghost function Now(): Tables
      reads this, codes, tokens
    {
      Tables(clients, codes.View(), tokens.View(), next)
    }

    method HandleAuthorize(r: Request, now: int) returns (response: Response)
      requires Valid() && r.Authorize?
      modifies this, codes
      ensures Valid() && Answer(Now(), response) == AuthorizeStep(cfg, old(Now()), r, now)
    {
      var scope := RequestedScope(r.requested);
      if r.client == "" || r.redirectUri == "" { return Refused(InvalidRequest); }
      if r.client !in clients { return Refused(InvalidClient); }
      var client := clients[r.client];
      if r.redirectUri !in client.redirectUris { return Refused(InvalidRequest); }
      if r.session.None? { return Refused(LoginRequired); }
      if PkceRequired(client, scope) && !Truthy(r.challenge) { return Refused(InvalidRequest); }
      if Truthy(r.challengeMethod) && r.challengeMethod != Some(S256) { return Refused(InvalidRequest); }
      if !Within(scope, client.allowedScopes + cfg.supportedScopes) { return Refused(InvalidScope); }
      codes.Create(next, NewCode(cfg, r, now));
      response := CodeIssued(next);
      next := next + 1;
    }

    method IssueTokens(client: string, user: string, scope: seq<string>, session: Option<string>, now: int)
      returns (response: Response)
      requires Valid()
      modifies this`next, tokens
      ensures Valid() && Answer(Now(), response) == Issue(cfg, old(Now()), client, user, scope, session, now)
    {
      response := TokensIssued(client, user, scope, session, None);
      if OFFLINE_ACCESS in scope {
        tokens.Create(next, NewRefresh(cfg, client, user, scope, session, now));
        response := TokensIssued(client, user, scope, session, Some(next));
        next := next + 1;
      }
    }

    method HandleRedeem(r: Request, now: int) returns (response: Response)
      requires Valid() && r.Redeem?
      modifies this`next, codes, tokens
      ensures Valid() && Answer(Now(), response) == RedeemStep(cfg, old(Now()), r, now)
    {
      if r.caller.client !in clients || clients[r.caller.client].disabled
         || !SecretAccepted(clients[r.caller.client], r.caller) { return Refused(InvalidClient); }
      if r.code.None? || r.redirectUri == "" { return Refused(InvalidRequest); }
      var record := codes.ConsumeOne(r.code.value);
      if record.None? {
        assert codes.View() == old(codes.View());
        return Refused(InvalidGrant);
      }
      var row := record.value;
      if row.expiresAt < now { return Refused(CodeExpired); }
      if row.client != r.caller.client { return Refused(ClientMismatch); }
      if row.redirectUri != r.redirectUri { return Refused(RedirectMismatch); }
      var error := PkceError(cfg, clients[r.caller.client], row, r.verifier);
      if error.Some? { return Refused(error.value); }
      response := IssueTokens(r.caller.client, row.user, row.scope, row.session, now);
    }

    /** Tear down every refresh token of a client and user. */
    method InvalidateRefreshFamily(client: string, user: string)
      requires Valid()
      modifies tokens
      ensures Valid() && tokens.View() == WithoutFamily(old(tokens.View()), client, user)
    {
      var _ := tokens.DeleteMany((_, row: Refresh) => row.client == client && row.user == user);
    }

    method HandleRotate(r: Request, now: int) returns (response: Response)
      requires Valid() && r.Rotate?
      modifies this`next, tokens
      ensures Valid() && Answer(Now(), response) == RotateStep(cfg, old(Now()), r, now)
    {
      if r.caller.client !in clients || clients[r.caller.client].disabled
         || !SecretAccepted(clients[r.caller.client], r.caller) { return Refused(InvalidClient); }
      if r.token.None? { return Refused(InvalidRequest); }
      var found := tokens.FindOne(r.token.value);
      if found.None? { return Refused(InvalidGrant); }
      var row := found.value;
      if row.client != r.caller.client { return Refused(ClientMismatch); }
      if IsRevoked(row) {
        InvalidateRefreshFamily(r.caller.client, row.user);
        return Refused(InvalidGrant);
      }
      if row.expiresAt < now { return Refused(TokenExpired); }
      if r.narrowed.Some? && !Within(r.narrowed.value, row.scope) { return Refused(InvalidScope); }
      var _ := tokens.Update(r.token.value, (row: Refresh) => row.(revoked := Some(now)));
      response := IssueTokens(r.caller.client, row.user, r.narrowed.GetOr(row.scope), row.session, now);
    }

    method HandleRevoke(r: Request) returns (response: Response)
      requires Valid() && r.Revoke?
      modifies tokens
      ensures Valid() && Answer(Now(), response) == RevokeStep(old(Now()), r)
    {
      if r.caller.client !in clients || !SecretAccepted(clients[r.caller.client], r.caller) { return Refused(InvalidClient); }
      if r.hintContradicts { return Refused(UnsupportedTokenType); }
      var _ := tokens.DeleteMany((k, row: Refresh) => k == r.presented && row.client == r.caller.client);
      response := Done;
    }

    method HandleClientCredentials(r: Request, now: int) returns (response: Response)
      requires Valid() && r.ClientCredentials?
      modifies this`next, tokens
      ensures Valid() && Answer(Now(), response) == ClientCredentialsStep(cfg, old(Now()), r, now)
    {
      if r.caller.client !in clients || clients[r.caller.client].disabled
         || !SecretAccepted(clients[r.caller.client], r.caller) { return Refused(InvalidClient); }
      if clients[r.caller.client].isPublic { return Refused(InvalidClient); }
      if exists s :: s in r.words && s in ["openid", "profile", "email", OFFLINE_ACCESS] { return Refused(InvalidScope); }
      response := IssueTokens(r.caller.client, "client:" + r.caller.client, r.words, None, now);
    }

    method Handle(r: Request, now: int) returns (response: Response)
      requires Valid()
      modifies this, codes, tokens
      ensures Valid() && Answer(Now(), response) == Step(cfg, old(Now()), r, now)
    {
      match r {
        case Authorize(_, _, _, _, _, _) => response := HandleAuthorize(r, now);
        case Redeem(_, _, _, _) => response := HandleRedeem(r, now);
        case Rotate(_, _, _) => response := HandleRotate(r, now);
        case ClientCredentials(_, _) => response := HandleClientCredentials(r, now);
        case Revoke(_, _, _) => response := HandleRevoke(r);
        case Configure(configured) => clients := configured; response := Done;
      }
    }
  }
}
