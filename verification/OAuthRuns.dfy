/**
Runs of the provider: what holds in every state that any sequence of requests can reach.

A history is kept beside the tables. No step reads it: it records the row and the allowed
scope of every code ever issued, the codes that were consumed, and for every refresh token
the code its lineage started from and the token it replaced.
*/
module OAuthRuns {
  import opened Options
  import opened OAuthProvider

  /** A code as it was issued, with the scope that client and server allowed at the time. */
  datatype Grant = Grant(row: Code, allowed: seq<string>)

  datatype Origin = Origin(root: nat, parent: Option<nat>, issued: Refresh)

  datatype World = World(tables: Tables, grants: map<nat, Grant>, spent: set<nat>, origins: map<nat, Origin>)

  datatype Call = Call(request: Request, now: int)

  function NewGrant(cfg: Config, w: World, call: Call): Grant
    requires call.request.Authorize? && call.request.session.Some? && call.request.client in w.tables.clients
  {
    Grant(NewCode(cfg, call.request, call.now), w.tables.clients[call.request.client].allowedScopes + cfg.supportedScopes)
  }

  function WithGrant(cfg: Config, w: World, call: Call, a: Answer): map<nat, Grant> {
    if a.response.CodeIssued? && call.request.Authorize? && call.request.session.Some? && call.request.client in w.tables.clients
    then w.grants[a.response.code := NewGrant(cfg, w, call)]
    else w.grants
  }

  /** The lineage a new refresh token joins. */
  function OriginOf(w: World, r: Request, issued: Refresh): Origin {
    if r.Redeem? && r.code.Some? then Origin(r.code.value, None, issued)
    else if r.Rotate? && r.token.Some? && r.token.value in w.origins
    then Origin(w.origins[r.token.value].root, r.token, issued)
    else Origin(0, None, issued)
  }

  function WithOrigin(w: World, r: Request, a: Answer): map<nat, Origin> {
    if a.response.TokensIssued? && a.response.refresh.Some? && a.response.refresh.value in a.tables.tokens
    then w.origins[a.response.refresh.value := OriginOf(w, r, a.tables.tokens[a.response.refresh.value])]
    else w.origins
  }

  function Advance(cfg: Config, w: World, call: Call): World {
    var a := Step(cfg, w.tables, call.request, call.now);
    World(a.tables,
          WithGrant(cfg, w, call, a),
          w.spent + (w.tables.codes.Keys - a.tables.codes.Keys),
          WithOrigin(w, call.request, a))
  }

  function Run(cfg: Config, w: World, calls: seq<Call>): World {
    if calls == [] then w else Advance(cfg, Run(cfg, w, calls[..|calls| - 1]), calls[|calls| - 1])
  }

  const EMPTY := World(Tables(map[], map[], map[], 0), map[], {}, map[])

  /** The clock reads a positive number of seconds since the epoch. */
  ghost predicate Clocked(calls: seq<Call>) {
    forall i :: 0 <= i < |calls| ==> calls[i].now > 0
  }

  // ----- the invariant -----

  ghost predicate Live(w: World, t: nat) {
    t in w.tables.tokens && !IsRevoked(w.tables.tokens[t])
  }

  ghost predicate Numbered(w: World) {
    && (forall c :: c in w.tables.codes ==> c < w.tables.next)
    && (forall c :: c in w.grants ==> c < w.tables.next)
    && (forall c :: c in w.spent ==> c < w.tables.next)
    && (forall t :: t in w.origins ==> t < w.tables.next)
    && (forall t :: t in w.tables.tokens ==> t < w.tables.next)
  }

  /** A stored code is one that was granted and not consumed; its method is S256 or none. */
  ghost predicate CodeSound(w: World, c: nat)
    requires c in w.tables.codes
  {
    && c in w.grants && w.grants[c].row == w.tables.codes[c] && c !in w.spent
    && (w.tables.codes[c].challengeMethod in {None, Some(S256)})
    && Within(w.tables.codes[c].scope, w.grants[c].allowed)
  }

  ghost predicate GrantSound(w: World, c: nat)
    requires c in w.grants
  {
    Within(w.grants[c].row.scope, w.grants[c].allowed)
  }

  /** A stored token is the one that was issued, but for its revocation mark. */
  ghost predicate TokenSound(w: World, t: nat)
    requires t in w.tables.tokens
  {
    t in w.origins && w.tables.tokens[t].(revoked := None) == w.origins[t].issued
  }

  predicate SameParty(a: Refresh, b: Refresh) {
    a.client == b.client && a.user == b.user && a.session == b.session
  }

  /** Client, user and session are those of the code, and the scope never widens along the lineage. */
  ghost predicate OriginSound(w: World, t: nat)
    requires t in w.origins
  {
    var o := w.origins[t];
    && o.root in w.grants && o.root in w.spent
    && o.issued.client == w.grants[o.root].row.client
    && o.issued.user == w.grants[o.root].row.user
    && o.issued.session == w.grants[o.root].row.session
    && Within(o.issued.scope, w.grants[o.root].row.scope)
    && (o.parent.Some? ==> ParentSound(w, t, o.parent.value))
  }

  ghost predicate ParentSound(w: World, t: nat, p: nat)
    requires t in w.origins
  {
    && p < t && p in w.origins
    && w.origins[p].root == w.origins[t].root
    && SameParty(w.origins[p].issued, w.origins[t].issued)
    && Within(w.origins[t].issued.scope, w.origins[p].issued.scope)
    && !Live(w, p)
  }

  /** A code roots at most one lineage. */
  ghost predicate OneRoot(w: World) {
    forall a, b | a in w.origins && b in w.origins && w.origins[a].parent.None? && w.origins[b].parent.None?
      :: w.origins[a].root == w.origins[b].root ==> a == b
  }

  /** A token is replaced at most once, so a lineage is a chain. */
  ghost predicate OneChild(w: World) {
    forall a, b | a in w.origins && b in w.origins && w.origins[a].parent.Some?
      :: w.origins[a].parent == w.origins[b].parent ==> a == b
  }

  /** A lineage has at most one token that is stored and not revoked. */
  ghost predicate OneLive(w: World) {
    forall a, b | a in w.origins && b in w.origins && Live(w, a) && Live(w, b)
      :: w.origins[a].root == w.origins[b].root ==> a == b
  }

  ghost predicate Rows(w: World) {
    && (forall c :: c in w.tables.codes ==> CodeSound(w, c))
    && (forall c :: c in w.grants ==> GrantSound(w, c))
    && (forall t :: t in w.tables.tokens ==> TokenSound(w, t))
    && (forall t :: t in w.origins ==> OriginSound(w, t))
  }

  ghost predicate Inv(w: World) {
    Numbered(w) && Rows(w) && OneRoot(w) && OneChild(w) && OneLive(w)
  }

  // ----- every step keeps it -----

  ghost predicate RowsOnlyGo(w: World, v: World) {
    && (forall c | c in v.tables.codes :: c in w.tables.codes && v.tables.codes[c] == w.tables.codes[c] && c !in v.spent)
    && (forall t | t in v.tables.tokens :: t in w.tables.tokens)
    && (forall t | t in v.tables.tokens :: v.tables.tokens[t].(revoked := None) == w.tables.tokens[t].(revoked := None))
    && (forall t | Live(v, t) :: Live(w, t))
  }

  /** Steps that issue nothing: rows only disappear or are revoked. */
  ghost predicate Shrinks(w: World, v: World) {
    && v.grants == w.grants && v.origins == w.origins
    && w.tables.next == v.tables.next
    && w.spent <= v.spent && (forall c | c in v.spent :: c < v.tables.next)
    && RowsOnlyGo(w, v)
  }

  lemma {:induction false} ShrinkKeeps(w: World, v: World)
    requires Inv(w) && Shrinks(w, v)
    ensures Inv(v)
  {
    forall c | c in v.tables.codes ensures CodeSound(v, c) { assert CodeSound(w, c); }
    forall c | c in v.grants ensures GrantSound(v, c) { assert GrantSound(w, c); }
    forall t | t in v.tables.tokens ensures TokenSound(v, t) { assert TokenSound(w, t); }
    forall t | t in v.origins ensures OriginSound(v, t) { assert OriginSound(w, t); }
  }

  /** The new token's entry continues a lineage of `w`, or starts one whose code has none. */
  ghost predicate Fits(w: World, o: Origin) {
    && o.issued.revoked.None?
    && o.root in w.grants && o.root in w.spent
    && o.issued.client == w.grants[o.root].row.client
    && o.issued.user == w.grants[o.root].row.user
    && o.issued.session == w.grants[o.root].row.session
    && Within(o.issued.scope, w.grants[o.root].row.scope)
    && (forall t | t in w.origins && w.origins[t].root == o.root :: !Live(w, t))
    && (o.parent.None? ==> forall t | t in w.origins :: w.origins[t].root != o.root)
    && (o.parent.Some? ==> Continues(w, o, o.parent.value))
  }

  ghost predicate Continues(w: World, o: Origin, p: nat) {
    && p in w.origins && w.origins[p].root == o.root
    && SameParty(w.origins[p].issued, o.issued)
    && Within(o.issued.scope, w.origins[p].issued.scope)
    && (forall t | t in w.origins :: w.origins[t].parent != Some(p))
  }

  /** The world after the token numbered `next` was issued. */
  function Issued(w: World, o: Origin): World {
    World(w.tables.(tokens := w.tables.tokens[w.tables.next := o.issued], next := w.tables.next + 1),
          w.grants, w.spent, w.origins[w.tables.next := o])
  }

  lemma {:induction false} IssueKeepsRows(w: World, o: Origin)
    requires Inv(w) && Fits(w, o)
    ensures Numbered(Issued(w, o)) && Rows(Issued(w, o))
  {
    var v := Issued(w, o);
    forall c | c in v.tables.codes ensures CodeSound(v, c) { assert CodeSound(w, c); }
    forall c | c in v.grants ensures GrantSound(v, c) { assert GrantSound(w, c); }
    forall t | t in v.tables.tokens ensures TokenSound(v, t) { if t != w.tables.next { assert TokenSound(w, t); } }
    forall t | t in v.origins ensures OriginSound(v, t) {
      if t != w.tables.next {
        assert OriginSound(w, t);
      } else if o.parent.Some? {
        assert ParentSound(v, t, o.parent.value);
      }
    }
  }

  lemma {:induction false} IssueKeepsChains(w: World, o: Origin)
    requires Inv(w) && Fits(w, o)
    ensures OneRoot(Issued(w, o)) && OneChild(Issued(w, o))
  {
  }

  lemma {:induction false} IssueKeepsOneLive(w: World, o: Origin)
    requires Inv(w) && Fits(w, o)
    ensures OneLive(Issued(w, o))
  {
    var v := Issued(w, o);
    forall t | t in w.origins && Live(v, t) ensures Live(w, t) {}
  }

  lemma {:induction false} IssueKeeps(w: World, o: Origin)
    requires Inv(w) && Fits(w, o)
    ensures Inv(Issued(w, o))
  {
    IssueKeepsRows(w, o);
    IssueKeepsChains(w, o);
    IssueKeepsOneLive(w, o);
  }

  /** The world after the code numbered `next` was issued. */
  function Granted(w: World, g: Grant): World {
    w.(tables := w.tables.(codes := w.tables.codes[w.tables.next := g.row], next := w.tables.next + 1),
       grants := w.grants[w.tables.next := g])
  }

  lemma {:induction false} AuthorizeShape(cfg: Config, w: World, call: Call)
    requires call.request.Authorize?
    ensures var v, r := Advance(cfg, w, call), call.request;
            if AuthorizeError(cfg, w.tables, r).Some? then v == w
            else v == Granted(w, NewGrant(cfg, w, call))
  {
    var v := Advance(cfg, w, call);
    assert w.tables.codes.Keys - v.tables.codes.Keys == {};
    assert w.spent + {} == w.spent;
  }

  lemma {:induction false} GrantKeepsRows(w: World, g: Grant)
    requires Inv(w) && g.row.challengeMethod in {None, Some(S256)} && Within(g.row.scope, g.allowed)
    ensures Rows(Granted(w, g))
  {
    var v := Granted(w, g);
    forall c | c in v.tables.codes ensures CodeSound(v, c) { if c != w.tables.next { assert CodeSound(w, c); } }
    forall c | c in v.grants ensures GrantSound(v, c) { if c != w.tables.next { assert GrantSound(w, c); } }
    forall t | t in v.tables.tokens ensures TokenSound(v, t) { assert TokenSound(w, t); }
    forall t | t in v.origins ensures OriginSound(v, t) { assert OriginSound(w, t); }
  }

  lemma {:induction false} GrantKeepsChains(w: World, g: Grant)
    requires Numbered(w) && OneRoot(w) && OneChild(w) && OneLive(w)
    ensures Numbered(Granted(w, g)) && OneRoot(Granted(w, g)) && OneChild(Granted(w, g)) && OneLive(Granted(w, g))
  {
    forall t: nat ensures Live(Granted(w, g), t) <==> Live(w, t) {}
  }

  lemma {:induction false} GrantKeeps(w: World, g: Grant)
    requires Inv(w) && g.row.challengeMethod in {None, Some(S256)} && Within(g.row.scope, g.allowed)
    ensures Inv(Granted(w, g))
  {
    GrantKeepsRows(w, g);
    GrantKeepsChains(w, g);
  }

  lemma {:induction false} AuthorizeKeeps(cfg: Config, w: World, call: Call)
    requires Inv(w) && call.request.Authorize?
    ensures Inv(Advance(cfg, w, call))
  {
    AuthorizeShape(cfg, w, call);
    if AuthorizeError(cfg, w.tables, call.request).None? {
      GrantKeeps(w, NewGrant(cfg, w, call));
    }
  }

  /** The world after code `c` was consumed and nothing issued. */
  function Consumed(w: World, c: nat): World {
    w.(tables := w.tables.(codes := w.tables.codes - {c}), spent := w.spent + {c})
  }

  /** A redemption that gets as far as the stored row. */
  predicate Presents(w: World, r: Request) {
    r.Redeem? && Authenticated(w.tables, r.caller) && r.code.Some? && r.redirectUri != "" && r.code.value in w.tables.codes
  }

  function RootOrigin(cfg: Config, w: World, call: Call): Origin
    requires Presents(w, call.request)
  {
    var row := w.tables.codes[call.request.code.value];
    Origin(call.request.code.value, None,
           NewRefresh(cfg, call.request.caller.client, row.user, row.scope, row.session, call.now))
  }

  lemma {:induction false} RedeemShape(cfg: Config, w: World, call: Call)
    requires call.request.Redeem?
    ensures var v, r := Advance(cfg, w, call), call.request;
            if !Presents(w, r) then v == w
            else
              || v == Consumed(w, r.code.value)
              || (RedeemError(cfg, w.tables, r, w.tables.codes[r.code.value], call.now).None?
                  && v == Issued(Consumed(w, r.code.value), RootOrigin(cfg, w, call)))
  {
    if Presents(w, call.request) {
      var c := call.request.code.value;
      assert w.tables.codes.Keys - Consumed(w, c).tables.codes.Keys == {c};
    }
  }

  lemma {:induction false} ConsumeKeeps(w: World, c: nat)
    requires Inv(w) && c in w.tables.codes
    ensures Inv(Consumed(w, c))
  {
    forall d | d in w.tables.codes ensures d !in w.spent { assert CodeSound(w, d); }
    ShrinkKeeps(w, Consumed(w, c));
  }

  lemma {:induction false} RootFits(cfg: Config, w: World, call: Call)
    requires Inv(w) && Presents(w, call.request)
    requires RedeemError(cfg, w.tables, call.request, w.tables.codes[call.request.code.value], call.now).None?
    ensures Fits(Consumed(w, call.request.code.value), RootOrigin(cfg, w, call))
  {
    var c := call.request.code.value;
    assert CodeSound(w, c);
    forall t | t in w.origins ensures w.origins[t].root != c { assert OriginSound(w, t); }
  }

  lemma {:induction false} RedeemKeeps(cfg: Config, w: World, call: Call)
    requires Inv(w) && call.request.Redeem?
    ensures Inv(Advance(cfg, w, call))
  {
    RedeemShape(cfg, w, call);
    if Presents(w, call.request) {
      var c := call.request.code.value;
      ConsumeKeeps(w, c);
      if Advance(cfg, w, call) != Consumed(w, c) {
        RootFits(cfg, w, call);
        IssueKeeps(Consumed(w, c), RootOrigin(cfg, w, call));
      }
    }
  }

  /** The world after token `p` was marked revoked and nothing issued. */
  function Marked(w: World, p: nat, now: int): World
    requires p in w.tables.tokens
  {
    w.(tables := w.tables.(tokens := w.tables.tokens[p := w.tables.tokens[p].(revoked := Some(now))]))
  }

  /** A refresh request that rotates the token it presents. */
  predicate Rotates(w: World, call: Call) {
    var r := call.request;
    && r.Rotate? && Authenticated(w.tables, r.caller)
    && r.token.Some? && r.token.value in w.tables.tokens
    && w.tables.tokens[r.token.value].client == r.caller.client
    && !IsRevoked(w.tables.tokens[r.token.value])
    && w.tables.tokens[r.token.value].expiresAt >= call.now
    && (r.narrowed.Some? ==> Within(r.narrowed.value, w.tables.tokens[r.token.value].scope))
  }

  function ChildOrigin(cfg: Config, w: World, call: Call): Origin
    requires Rotates(w, call) && call.request.token.value in w.origins
  {
    var p := call.request.token.value;
    var row := w.tables.tokens[p];
    Origin(w.origins[p].root, Some(p),
           NewRefresh(cfg, call.request.caller.client, row.user, call.request.narrowed.GetOr(row.scope), row.session, call.now))
  }

  lemma {:induction false} RotateShape(cfg: Config, w: World, call: Call)
    requires call.request.Rotate? && forall t | t in w.tables.tokens :: t in w.origins
    ensures var v, r := Advance(cfg, w, call), call.request;
            if Rotates(w, call) then
              || v == Marked(w, r.token.value, call.now)
              || v == Issued(Marked(w, r.token.value, call.now), ChildOrigin(cfg, w, call))
            else
              || v == w
              || (r.token.Some? && r.token.value in w.tables.tokens
                  && v == w.(tables := w.tables.(tokens :=
                         WithoutFamily(w.tables.tokens, r.caller.client, w.tables.tokens[r.token.value].user))))
  {
    assert w.tables.codes.Keys - w.tables.codes.Keys == {};
    assert w.spent + {} == w.spent;
  }

  lemma {:induction false} ChildFits(cfg: Config, w: World, call: Call)
    requires Inv(w) && Rotates(w, call) && call.now > 0 && call.request.token.value in w.origins
    ensures Fits(Marked(w, call.request.token.value, call.now), ChildOrigin(cfg, w, call))
  {
    var p := call.request.token.value;
    var m, o := Marked(w, p, call.now), ChildOrigin(cfg, w, call);
    assert TokenSound(w, p) && OriginSound(w, p);
    assert Live(w, p) && !Live(m, p);
    forall t | t in w.origins ensures w.origins[t].parent != Some(p) { assert OriginSound(w, t); }
    forall t | t in w.origins && w.origins[t].root == o.root ensures !Live(m, t) { assert Live(m, t) ==> Live(w, t); }
    assert Continues(m, o, p);
  }

  lemma {:induction false} MarkKeeps(w: World, p: nat, now: int)
    requires Inv(w) && p in w.tables.tokens && now > 0
    ensures Inv(Marked(w, p, now))
  {
    var m := Marked(w, p, now);
    forall c | c in m.tables.codes ensures c !in m.spent { assert CodeSound(w, c); }
    forall t | Live(m, t) ensures Live(w, t) {}
    ShrinkKeeps(w, m);
  }

  lemma {:induction false} TokensGoKeeps(w: World, tokens: map<nat, Refresh>)
    requires Inv(w)
    requires forall t | t in tokens :: t in w.tables.tokens && tokens[t] == w.tables.tokens[t]
    ensures Inv(w.(tables := w.tables.(tokens := tokens)))
  {
    var v := w.(tables := w.tables.(tokens := tokens));
    forall c | c in v.tables.codes ensures c !in v.spent { assert CodeSound(w, c); }
    ShrinkKeeps(w, v);
  }

  lemma {:induction false} RotateKeeps(cfg: Config, w: World, call: Call)
    requires Inv(w) && call.request.Rotate? && call.now > 0
    ensures Inv(Advance(cfg, w, call))
  {
    forall t | t in w.tables.tokens ensures t in w.origins { assert TokenSound(w, t); }
    RotateShape(cfg, w, call);
    var v, r := Advance(cfg, w, call), call.request;
    if Rotates(w, call) {
      MarkKeeps(w, r.token.value, call.now);
      if v != Marked(w, r.token.value, call.now) {
        ChildFits(cfg, w, call);
        IssueKeeps(Marked(w, r.token.value, call.now), ChildOrigin(cfg, w, call));
      }
    } else if v != w {
      TokensGoKeeps(w, v.tables.tokens);
    }
  }

  lemma {:induction false} OtherShape(cfg: Config, w: World, call: Call)
    requires call.request.ClientCredentials? || call.request.Revoke? || call.request.Configure?
    ensures var v := Advance(cfg, w, call);
            v == w.(tables := v.tables) && v.tables.codes == w.tables.codes && v.tables.next == w.tables.next &&
            forall t | t in v.tables.tokens :: t in w.tables.tokens && v.tables.tokens[t] == w.tables.tokens[t]
  {
    assert w.tables.codes.Keys - w.tables.codes.Keys == {};
    assert w.spent + {} == w.spent;
  }

  lemma {:induction false} OtherKeeps(cfg: Config, w: World, call: Call)
    requires Inv(w) && (call.request.ClientCredentials? || call.request.Revoke? || call.request.Configure?)
    ensures Inv(Advance(cfg, w, call))
  {
    OtherShape(cfg, w, call);
    var v := Advance(cfg, w, call);
    forall c | c in v.tables.codes ensures c !in v.spent { assert CodeSound(w, c); }
    ShrinkKeeps(w, v);
  }

  /** What every step does to the counter and to the record of grants. */
  lemma {:induction false} StepNumbers(cfg: Config, w: World, call: Call)
    ensures var v, response := Advance(cfg, w, call), Step(cfg, w.tables, call.request, call.now).response;
            && w.tables.next <= v.tables.next
            && (!response.CodeIssued? ==> v.grants == w.grants)
            && (response.CodeIssued? ==>
                  (&& call.request.Authorize? && call.request.session.Some? && call.request.client in w.tables.clients
                   && response.code == w.tables.next && v.tables.next == w.tables.next + 1
                   && v.grants == w.grants[w.tables.next := NewGrant(cfg, w, call)]))
  {
    if call.request.Authorize? {
      AuthorizeShape(cfg, w, call);
    }
  }

  lemma {:induction false} StepKeeps(cfg: Config, w: World, call: Call)
    requires Inv(w) && call.now > 0
    ensures Inv(Advance(cfg, w, call))
  {
    match call.request
    case Authorize(_, _, _, _, _, _) => AuthorizeKeeps(cfg, w, call);
    case Redeem(_, _, _, _) => RedeemKeeps(cfg, w, call);
    case Rotate(_, _, _) => RotateKeeps(cfg, w, call);
    case _ => OtherKeeps(cfg, w, call);
  }

  lemma {:induction false} RunKeeps(cfg: Config, w: World, calls: seq<Call>)
    requires Inv(w) && Clocked(calls)
    ensures Inv(Run(cfg, w, calls))
  {
    if calls != [] {
      RunKeeps(cfg, w, calls[..|calls| - 1]);
      StepKeeps(cfg, Run(cfg, w, calls[..|calls| - 1]), calls[|calls| - 1]);
    }
  }
}
