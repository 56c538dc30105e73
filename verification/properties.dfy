/** Properties that relate several handler calls: find-or-create is
    idempotent, the OAuth handshake signs a client in, the callback is the
    login shortcut behind a CSRF gate, and any sequence of requests keeps
    the tenant identities intact. */
module UserProperties {
  import opened Base
  import opened Tenants
  import opened Collaborators
  import opened Sessions
  import opened UserHandlers

  /** The store finds exactly one tenant for an identity that only the row
      under `id` has. */
  lemma FindsOnlyMatch(store: Store, faults: set<StoreOp>, githubId: I64, id: I64)
    requires ByGithubId !in faults
    requires id in store && store[id].githubId == githubId
    requires forall k :: k in store && k != id ==> store[k].githubId != githubId
    ensures FindByGithubId(store, faults, githubId) == Success(Some(store[id]))
  {
  }

  /** Resolving a GitHub identity a second time, whatever login it now
      shows, finds the tenant the first resolution returned: same id, no
      insert, store untouched. On a store that already held several tenants
      for the identity this rests on the lookup's least-id choice; on a store
      with one tenant per identity it does not. */
  lemma ResolveIdempotent(store: Store, faults: set<StoreOp>, user: GitHubUser, appId: I64, freshId: I64,
                           faults': set<StoreOp>, again: GitHubUser, appId': I64, freshId': I64)
    requires Resolve(store, faults, user, appId, freshId).result.Success?
    requires again.id == user.id && ByGithubId !in faults'
    ensures var first := Resolve(store, faults, user, appId, freshId);
            Resolve(first.store, faults', again, appId', freshId')
              == Resolution(first.result, first.store, [FindTenantByGithubId(user.id)])
  {
  }

  /** Two logins in a row for the same GitHub identity, by the same client or
      by another one with its own session `s'`, bind the same tenant, and the
      second one writes nothing to the store. As for `ResolveIdempotent`, a
      store that already held several tenants for the identity relies on the
      lookup's least-id choice. */
  lemma LoginTwiceBindsSameTenant(s: Session, store: Store, faults: set<StoreOp>, gh: GitHubClient,
                                  accessToken: string, appId: I64, freshId: I64,
                                  s': Session, faults': set<StoreOp>, gh': GitHubClient, accessToken': string, appId': I64, freshId': I64)
    requires Login(s, store, faults, gh, accessToken, appId, freshId).reply.Success?
    requires ByGithubId !in faults'
    requires gh'.getUser(accessToken').Success?
    requires gh'.getUser(accessToken').value.id == gh.getUser(accessToken).value.id
    ensures var first := Login(s, store, faults, gh, accessToken, appId, freshId);
            var second := Login(s', first.store, faults', gh', accessToken', appId', freshId');
            && second.reply.Success?
            && second.store == first.store
            && BoundId(second.session) == BoundId(first.session)
            && second.calls == [GetUser(accessToken'), FindTenantByGithubId(gh.getUser(accessToken).value.id)]
  {
  }

  /** Past the CSRF gate the callback is the login shortcut: exchanging the
      code first and then doing exactly what `Login` does with the token. */
  lemma CallbackIsGatedLogin(s: Session, store: Store, faults: set<StoreOp>, gh: GitHubClient,
                             cb: CallbackQuery, appId: I64, freshId: I64, accessToken: string)
    requires StateMatches(s, cb.state)
    requires gh.exchangeCode(cb.code) == Success(accessToken)
    ensures var c := Callback(s, store, faults, gh, cb, appId, freshId);
            var l := Login(s, store, faults, gh, accessToken, appId, freshId);
            && c.reply == l.reply && c.session == l.session && c.store == l.store
            && c.calls == [ExchangeCode(cb.code)] + l.calls
  {
  }

  /** The OAuth round trip: a client that is not signed in asks who it is,
      receives a state token, comes back through the callback with that
      state, and is then signed in to a tenant of its GitHub identity. */
  lemma HandshakeSignsIn(s: Session, store: Store, faults: set<StoreOp>, gh: GitHubClient, token: string,
                         code: string, appId: I64, freshId: I64)
    requires GetInt(s, TenantIdKey).Success? && !SignedIn(s, store)
    requires ById !in faults && ByGithubId !in faults && Inserting !in faults
    requires gh.exchangeCode(code).Success? && gh.getUser(gh.exchangeCode(code).value).Success?
    requires freshId !in store
    ensures var first := User(s, store, faults, gh, token);
            var second := Callback(first.session, first.store, faults, gh, CallbackQuery(code, token), appId, freshId);
            && first.Answered(Unauthorized(Some(gh.authorizeUrl(token))))
            && second.Answered(Found(UserPage))
            && second.calls[0] == ExchangeCode(code)
            && SignedIn(second.session, second.store)
            && second.store[BoundId(second.session).value].githubId == gh.getUser(gh.exchangeCode(code).value).value.id
  {
  }

  /** The callback does not consume the stored state: after a successful
      callback the same state passes the gate again, so a second callback
      carrying it reaches the code exchange. */
  lemma StateSurvivesCallback(s: Session, store: Store, faults: set<StoreOp>, gh: GitHubClient,
                              cb: CallbackQuery, appId: I64, freshId: I64,
                              faults': set<StoreOp>, gh': GitHubClient, code': string, appId': I64, freshId': I64)
    requires StateMatches(s, cb.state)
    requires Callback(s, store, faults, gh, cb, appId, freshId).reply.Success?
    ensures var first := Callback(s, store, faults, gh, cb, appId, freshId);
            var second := Callback(first.session, first.store, faults', gh', CallbackQuery(code', cb.state), appId', freshId');
            second.calls[0] == ExchangeCode(code')
  {
  }

  /** The body of `PUT /user` counts only through its `blockList` and
      `captcha`: two bodies that agree on those have the same outcome. */
  lemma UpdateIgnoresServerFields(s: Session, store: Store, faults: set<StoreOp>, body: Tenant, body': Tenant)
    requires body.blockList == body'.blockList && body.captcha == body'.captcha
    ensures Update(s, store, faults, body) == Update(s, store, faults, body')
  {
  }

  /** One request of any of the five kinds, with everything it draws from
      outside the handler: store faults, GitHub's answers, random values and
      the id the store would assign. */
  datatype Request =
    | WhoAmI(faults: set<StoreOp>, gh: GitHubClient, token: string)
    | OAuthCallback(faults: set<StoreOp>, gh: GitHubClient, cb: CallbackQuery, appId: I64, freshId: I64)
    | TokenLogin(faults: set<StoreOp>, gh: GitHubClient, accessToken: string, appId: I64, freshId: I64)
    | RotateKey(faults: set<StoreOp>, newAppId: I64)
    | EditProfile(faults: set<StoreOp>, body: Tenant)

  function Handle(s: Session, store: Store, req: Request): Outcome
  {
    match req
    case WhoAmI(faults, gh, token) => User(s, store, faults, gh, token)
    case OAuthCallback(faults, gh, cb, appId, freshId) => Callback(s, store, faults, gh, cb, appId, freshId)
    case TokenLogin(faults, gh, accessToken, appId, freshId) => Login(s, store, faults, gh, accessToken, appId, freshId)
    case RotateKey(faults, newAppId) => ResetKey(s, store, faults, newAppId)
    case EditProfile(faults, body) => Update(s, store, faults, body)
  }

  /** One request from client `client`. */
  datatype Step = Step(client: int, req: Request)

  /** The store after serving `steps` one after another, each client with its
      own session. A client not yet in `sessions` starts with an empty one. */
  function Run(sessions: map<int, Session>, store: Store, steps: seq<Step>): Store
    decreases |steps|
  {
    if steps == [] then store
    else
      var client := steps[0].client;
      var s := if client in sessions then sessions[client] else map[];
      var o := Handle(s, store, steps[0].req);
      Run(sessions[client := o.session], o.store, steps[1..])
  }

  /** A tenant keeps its id, GitHub identity and GitHub login for ever. */
  predicate SameIdentity(a: Tenant, b: Tenant)
  {
    a.id == b.id && a.githubId == b.githubId && a.githubLogin == b.githubLogin
  }

  /** What a single request may do to the store: keep every tenant, each
      with its identity; change an app id only by rotation; add no tenant for
      a GitHub identity that already has one. */
  lemma HandleKeepsIdentities(s: Session, store: Store, req: Request)
    ensures var o := Handle(s, store, req);
            && (forall k :: k in store ==> k in o.store && SameIdentity(o.store[k], store[k]))
            && (!req.RotateKey? ==> forall k :: k in store ==> o.store[k].appId == store[k].appId)
            && (UniqueGithubIds(store) ==> UniqueGithubIds(o.store))
            && KnownIdentitiesKept(store, o.store)
  {
  }

  /** Over any interleaving of requests from any number of clients no tenant
      is lost, no id is reassigned, no GitHub identity or login is rewritten,
      every GitHub identity that had a tenant keeps exactly the tenants it
      had, and a store with one tenant per identity keeps that property. */
  lemma {:induction false} RunKeepsIdentities(sessions: map<int, Session>, store: Store, steps: seq<Step>)
    ensures var after := Run(sessions, store, steps);
            && (forall k :: k in store ==> k in after && SameIdentity(after[k], store[k]))
            && (UniqueGithubIds(store) ==> UniqueGithubIds(after))
            && KnownIdentitiesKept(store, after)
    decreases |steps|
  {
    if steps != [] {
      var client := steps[0].client;
      var s := if client in sessions then sessions[client] else map[];
      var o := Handle(s, store, steps[0].req);
      HandleKeepsIdentities(s, store, steps[0].req);
      RunKeepsIdentities(sessions[client := o.session], o.store, steps[1..]);
    }
  }
}
