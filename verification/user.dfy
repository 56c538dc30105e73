/** The handlers of `server/src/user.rs`: the whoami check that starts the
    OAuth handshake, the OAuth callback, the test-only login shortcut, and
    the two authenticated edits of the signed-in tenant. Each handler is a
    function from the request's inputs, the session and the store to an
    `Outcome`: the reply, the session and store afterwards, and the
    external calls made, in order. */
module UserHandlers {
  import opened Base
  import opened Tenants
  import opened Collaborators
  import opened Sessions

  /** Where the callback and the login shortcut redirect. */
  const UserPage: string := "/#/user"

  datatype Response =
    | OkJson(view: UserTenant)                 // 200 with the tenant's JSON view
    | Unauthorized(location: Option<string>)   // 401 with an empty body
    | Found(redirect: string)                  // 302 redirect

  function Status(r: Response): int
  {
    match r
    case OkJson(_) => 200
    case Unauthorized(_) => 401
    case Found(_) => 302
  }

  datatype Outcome = Outcome(reply: Result<Response>, session: Session, store: Store, calls: seq<Call>)
  {
    predicate Answered(r: Response) { reply == Success(r) }
    predicate AnsweredOk() { reply.Success? && reply.value.OkJson? }
  }

  /** The query string of `GET /callback`. */
  datatype CallbackQuery = CallbackQuery(code: string, state: string)

  /** The session is bound to a tenant id the store holds. */
  predicate SignedIn(s: Session, store: Store)
  {
    BoundId(s).Some? && BoundId(s).value in store
  }

  /** `GET /user`. A session bound to a stored tenant gets that tenant's
      view; any other session that decodes gets the CSRF state `token`
      stored under `StateKey` and a 401 pointing at GitHub's authorisation
      URL for it. Nothing is written to the store either way. */
  function User(s: Session, store: Store, faults: set<StoreOp>, gh: GitHubClient, token: string): (o: Outcome)
    ensures o.store == store
    ensures forall c :: c in o.calls ==> c.FindTenantById?
    ensures o.reply.Failure? <==>
              GetInt(s, TenantIdKey).Failure? || (BoundId(s).Some? && ById in faults)
    ensures o.reply.Failure? ==> o.session == s
    ensures GetInt(s, TenantIdKey).Failure? ==> o.reply == Failure(SessionError)
    ensures BoundId(s).Some? && ById in faults ==> o.reply == Failure(StoreError)
    ensures o.AnsweredOk() <==> SignedIn(s, store) && ById !in faults
    ensures o.AnsweredOk() ==> o.reply.value.view == FromTenant(store[BoundId(s).value]) && o.session == s
    ensures o.reply.Success? && !o.AnsweredOk() ==>
              && o.reply.value == Unauthorized(Some(gh.authorizeUrl(token)))
              && o.session == s[StateKey := StrValue(token)]
  {
    match GetInt(s, TenantIdKey)
    case Failure(e) => Outcome(Failure(e), s, store, [])
    case Success(None) => Challenge(s, store, gh, token, [])
    case Success(Some(id)) =>
      match FindById(store, faults, id)
      case Failure(e) => Outcome(Failure(e), s, store, [FindTenantById(id)])
      case Success(None) => Challenge(s, store, gh, token, [FindTenantById(id)])
      case Success(Some(t)) => Outcome(Success(OkJson(FromTenant(t))), s, store, [FindTenantById(id)])
  }

  /** The unauthenticated branch of `User`: store the state, answer 401. */
  function Challenge(s: Session, store: Store, gh: GitHubClient, token: string, calls: seq<Call>): Outcome
  {
    Outcome(Success(Unauthorized(Some(gh.authorizeUrl(token)))), s[StateKey := StrValue(token)], store, calls)
  }

  /** The outcome of finding or creating the tenant for a GitHub identity. */
  datatype Resolution = Resolution(result: Result<I64>, store: Store, calls: seq<Call>)

  /** Find-or-create, shared by the callback and the login shortcut: the
      tenant registered for `user.id` if there is one, otherwise a new tenant
      with app id `appId`, inserted under the id `freshId` the store assigns.
      The login name plays no part in finding the tenant. */
  function Resolve(store: Store, faults: set<StoreOp>, user: GitHubUser, appId: I64, freshId: I64): (r: Resolution)
    ensures 1 <= |r.calls| <= 2 && r.calls[0] == FindTenantByGithubId(user.id)
    ensures |r.calls| == 2 ==> r.calls[1] == InsertTenant(NewTenant(freshId, appId, user.login, user.id))
    ensures r.result.Success? ==> r.result.value in r.store && r.store[r.result.value].githubId == user.id
    ensures r.result.Failure? ==> r.store == store
    ensures forall k :: k in store ==> k in r.store && r.store[k] == store[k]
    ensures r.store.Keys <= store.Keys + {freshId}
    ensures ByGithubId !in faults && HasTenant(store, user.id) ==>
              && r.result.Success? && r.store == store && r.calls == [FindTenantByGithubId(user.id)]
    ensures ByGithubId !in faults && Inserting !in faults && !HasTenant(store, user.id) && freshId !in store ==>
              && r.result == Success(freshId)
              && r.store.Keys == store.Keys + {freshId}
              && r.store[freshId] == NewTenant(freshId, appId, user.login, user.id)
    ensures ByGithubId in faults ==> r.result == Failure(StoreError) && r.calls == [FindTenantByGithubId(user.id)]
    ensures ByGithubId !in faults && !HasTenant(store, user.id) ==>
              r.calls == [FindTenantByGithubId(user.id), InsertTenant(NewTenant(freshId, appId, user.login, user.id))]
    ensures ByGithubId !in faults && !HasTenant(store, user.id) && (Inserting in faults || freshId in store) ==>
              r.result == Failure(StoreError)
    ensures UniqueGithubIds(store) ==> UniqueGithubIds(r.store)
    ensures KnownIdentitiesKept(store, r.store)
  {
    var lookup := [FindTenantByGithubId(user.id)];
    match FindByGithubId(store, faults, user.id)
    case Failure(e) => Resolution(Failure(e), store, lookup)
    case Success(Some(t)) => Resolution(Success(t.id), store, lookup)
    case Success(None) =>
      var row := NewTenant(freshId, appId, user.login, user.id);
      match InsertRow(store, faults, row)
      case Failure(e) => Resolution(Failure(e), store, lookup + [InsertTenant(row)])
      case Success(store') => Resolution(Success(row.id), store', lookup + [InsertTenant(row)])
  }

  /** Binds the session to the resolved tenant and redirects to the user page;
      a failed resolution leaves the session alone. */
  function Bind(s: Session, r: Resolution, before: seq<Call>): Outcome
  {
    match r.result
    case Failure(e) => Outcome(Failure(e), s, r.store, before + r.calls)
    case Success(id) => Outcome(Success(Found(UserPage)), s[TenantIdKey := IntValue(id)], r.store, before + r.calls)
  }

  /** `POST /login?access_token=`, the test-only shortcut: the profile behind
      `accessToken`, find-or-create, bind. No CSRF state is consulted. */
  function Login(s: Session, store: Store, faults: set<StoreOp>, gh: GitHubClient,
                 accessToken: string, appId: I64, freshId: I64): (o: Outcome)
    ensures |o.calls| >= 1 && o.calls[0] == GetUser(accessToken)
    ensures forall i :: 1 <= i < |o.calls| ==> o.calls[i].IsStoreCall()
    ensures o.reply.Success? ==> o.reply.value == Found(UserPage)
    ensures o.reply.Failure? ==> o.session == s && o.store == store
    ensures o.reply.Success? ==>
              && gh.getUser(accessToken).Success?
              && SignedIn(o.session, o.store)
              && o.store[BoundId(o.session).value].githubId == gh.getUser(accessToken).value.id
              && o.session == s[TenantIdKey := IntValue(BoundId(o.session).value)]
    ensures forall k :: k in store ==> k in o.store && o.store[k] == store[k]
    ensures gh.getUser(accessToken).Failure? ==>
              o.reply == Failure(gh.getUser(accessToken).error) && o.calls == [GetUser(accessToken)]
    ensures gh.getUser(accessToken).Success? ==>
              var r := Resolve(store, faults, gh.getUser(accessToken).value, appId, freshId);
              o.reply.Failure? == r.result.Failure? && (r.result.Failure? ==> o.reply.error == r.result.error)
    ensures gh.getUser(accessToken).Success? ==>
              var r := Resolve(store, faults, gh.getUser(accessToken).value, appId, freshId);
              && o.store == r.store
              && o.calls == [GetUser(accessToken)] + r.calls
              && (r.result.Success? ==> o.session == s[TenantIdKey := IntValue(r.result.value)])
    ensures UniqueGithubIds(store) ==> UniqueGithubIds(o.store)
    ensures KnownIdentitiesKept(store, o.store)
  {
    match gh.getUser(accessToken)
    case Failure(e) => Outcome(Failure(e), s, store, [GetUser(accessToken)])
    case Success(u) => Bind(s, Resolve(store, faults, u, appId, freshId), [GetUser(accessToken)])
  }

  /** `GET /callback?code=&state=`. A stored state equal to the echoed one
      lets the handshake go on: code exchange, profile fetch, find-or-create,
      bind. Any other stored state (none, or a different one) makes no call at
      all and changes nothing. Both branches redirect to the same page, and
      neither clears the stored state. */
  function Callback(s: Session, store: Store, faults: set<StoreOp>, gh: GitHubClient,
                    cb: CallbackQuery, appId: I64, freshId: I64): (o: Outcome)
    ensures StateMatches(s, cb.state) <==> |o.calls| >= 1 && o.calls[0] == ExchangeCode(cb.code)
    ensures !StateMatches(s, cb.state) ==> o.calls == [] && o.session == s && o.store == store
    ensures !StateMatches(s, cb.state) && GetStr(s, StateKey).Success? ==> o.Answered(Found(UserPage))
    ensures |o.calls| >= 2 ==> o.calls[1].GetUser?
    ensures forall i :: 2 <= i < |o.calls| ==> o.calls[i].IsStoreCall()
    ensures o.reply.Success? ==> o.reply.value == Found(UserPage)
    ensures o.reply.Failure? ==> o.session == s && o.store == store
    ensures GetStr(o.session, StateKey) == GetStr(s, StateKey)
    ensures o.reply.Success? && StateMatches(s, cb.state) ==>
              && gh.exchangeCode(cb.code).Success?
              && gh.getUser(gh.exchangeCode(cb.code).value).Success?
              && SignedIn(o.session, o.store)
              && o.store[BoundId(o.session).value].githubId == gh.getUser(gh.exchangeCode(cb.code).value).value.id
              && o.session == s[TenantIdKey := IntValue(BoundId(o.session).value)]
    ensures forall k :: k in store ==> k in o.store && o.store[k] == store[k]
    ensures GetStr(s, StateKey).Failure? ==> o.reply == Failure(SessionError)
    ensures StateMatches(s, cb.state) && gh.exchangeCode(cb.code).Failure? ==>
              o.reply == Failure(gh.exchangeCode(cb.code).error) && o.calls == [ExchangeCode(cb.code)]
    ensures StateMatches(s, cb.state) && gh.exchangeCode(cb.code).Success?
            && gh.getUser(gh.exchangeCode(cb.code).value).Failure? ==>
              && o.reply == Failure(gh.getUser(gh.exchangeCode(cb.code).value).error)
              && o.calls == [ExchangeCode(cb.code), GetUser(gh.exchangeCode(cb.code).value)]
    ensures StateMatches(s, cb.state) && gh.exchangeCode(cb.code).Success?
            && gh.getUser(gh.exchangeCode(cb.code).value).Success? ==>
              var r := Resolve(store, faults, gh.getUser(gh.exchangeCode(cb.code).value).value, appId, freshId);
              o.reply.Failure? == r.result.Failure? && (r.result.Failure? ==> o.reply.error == r.result.error)
    ensures StateMatches(s, cb.state) && gh.exchangeCode(cb.code).Success?
            && gh.getUser(gh.exchangeCode(cb.code).value).Success? ==>
              var accessToken := gh.exchangeCode(cb.code).value;
              var r := Resolve(store, faults, gh.getUser(accessToken).value, appId, freshId);
              && o.store == r.store
              && o.calls == [ExchangeCode(cb.code), GetUser(accessToken)] + r.calls
              && (r.result.Success? ==> o.session == s[TenantIdKey := IntValue(r.result.value)])
    ensures UniqueGithubIds(store) ==> UniqueGithubIds(o.store)
    ensures KnownIdentitiesKept(store, o.store)
  {
    match GetStr(s, StateKey)
    case Failure(e) => Outcome(Failure(e), s, store, [])
    case Success(stored) =>
      if stored == Some(cb.state) then
        var exchange := [ExchangeCode(cb.code)];
        match gh.exchangeCode(cb.code)
        case Failure(e) => Outcome(Failure(e), s, store, exchange)
        case Success(accessToken) =>
          var fetch := exchange + [GetUser(accessToken)];
          match gh.getUser(accessToken)
          case Failure(e) => Outcome(Failure(e), s, store, fetch)
          case Success(u) =>
            Bind(s, Resolve(store, faults, u, appId, freshId), fetch)
      else
        Outcome(Success(Found(UserPage)), s, store, [])
  }

  /** The shared shape of the two authenticated edits: a session bound to a
      stored tenant gets that row rewritten by `edit` and answers with the
      new row; any other session that decodes gets a bare 401. The session
      is never written. */
  function Edit(s: Session, store: Store, faults: set<StoreOp>, edit: Tenant -> Tenant): (o: Outcome)
    requires forall t: Tenant :: edit(t).id == t.id
    ensures o.session == s
    ensures o.AnsweredOk() <==> SignedIn(s, store) && ById !in faults && Updating !in faults
    ensures GetInt(s, TenantIdKey).Failure? ==> o.reply == Failure(SessionError)
    ensures BoundId(s).Some? && ById in faults ==> o.reply == Failure(StoreError)
    ensures SignedIn(s, store) && ById !in faults && Updating in faults ==> o.reply == Failure(StoreError)
    ensures o.AnsweredOk() ==>
              var id := BoundId(s).value;
              o.store == store[id := edit(store[id])] && o.reply.value.view == FromTenant(edit(store[id]))
    ensures !o.AnsweredOk() ==> o.store == store
    ensures o.Answered(Unauthorized(None)) <==>
              GetInt(s, TenantIdKey).Success? && !SignedIn(s, store) && (BoundId(s).Some? ==> ById !in faults)
  {
    match GetInt(s, TenantIdKey)
    case Failure(e) => Outcome(Failure(e), s, store, [])
    case Success(None) => Outcome(Success(Unauthorized(None)), s, store, [])
    case Success(Some(id)) =>
      match FindById(store, faults, id)
      case Failure(e) => Outcome(Failure(e), s, store, [FindTenantById(id)])
      case Success(None) => Outcome(Success(Unauthorized(None)), s, store, [FindTenantById(id)])
      case Success(Some(t)) =>
        var edited := edit(t);
        var calls := [FindTenantById(id), UpdateTenant(edited)];
        match UpdateRow(store, faults, edited)
        case Failure(e) => Outcome(Failure(e), s, store, calls)
        case Success(store') => Outcome(Success(OkJson(FromTenant(edited))), s, store', calls)
  }

  /** `POST /user/reset_key`: gives the signed-in tenant the new app id
      `newAppId`; no other field and no other tenant changes. */
  function ResetKey(s: Session, store: Store, faults: set<StoreOp>, newAppId: I64): (o: Outcome)
    ensures o.session == s
    ensures o.AnsweredOk() <==> SignedIn(s, store) && ById !in faults && Updating !in faults
    ensures GetInt(s, TenantIdKey).Failure? ==> o.reply == Failure(SessionError)
    ensures BoundId(s).Some? && ById in faults ==> o.reply == Failure(StoreError)
    ensures SignedIn(s, store) && ById !in faults && Updating in faults ==> o.reply == Failure(StoreError)
    ensures o.AnsweredOk() ==>
              var id := BoundId(s).value;
              && o.store.Keys == store.Keys
              && (forall k :: k in store && k != id ==> o.store[k] == store[k])
              && SameExceptAppId(o.store[id], store[id])
              && o.store[id].appId == newAppId
              && o.reply.value.view == FromTenant(o.store[id])
    ensures !o.AnsweredOk() ==> o.store == store
    ensures o.Answered(Unauthorized(None)) <==>
              GetInt(s, TenantIdKey).Success? && !SignedIn(s, store) && (BoundId(s).Some? ==> ById !in faults)
    ensures UniqueGithubIds(store) ==> UniqueGithubIds(o.store)
    ensures forall g :: IdsFor(o.store, g) == IdsFor(store, g)
  {
    Edit(s, store, faults, (t: Tenant) => t.(appId := newAppId))
  }

  /** `PUT /user` with a whole tenant as body: only the body's `blockList`
      and `captcha` are taken; every other field of the signed-in tenant
      keeps its stored value whatever the body says. */
  function Update(s: Session, store: Store, faults: set<StoreOp>, body: Tenant): (o: Outcome)
    ensures o.session == s
    ensures o.AnsweredOk() <==> SignedIn(s, store) && ById !in faults && Updating !in faults
    ensures GetInt(s, TenantIdKey).Failure? ==> o.reply == Failure(SessionError)
    ensures BoundId(s).Some? && ById in faults ==> o.reply == Failure(StoreError)
    ensures SignedIn(s, store) && ById !in faults && Updating in faults ==> o.reply == Failure(StoreError)
    ensures o.AnsweredOk() ==>
              var id := BoundId(s).value;
              && o.store.Keys == store.Keys
              && (forall k :: k in store && k != id ==> o.store[k] == store[k])
              && SameServerFields(o.store[id], store[id])
              && o.store[id].blockList == body.blockList
              && o.store[id].captcha == body.captcha
              && o.reply.value.view == FromTenant(o.store[id])
    ensures !o.AnsweredOk() ==> o.store == store
    ensures o.Answered(Unauthorized(None)) <==>
              GetInt(s, TenantIdKey).Success? && !SignedIn(s, store) && (BoundId(s).Some? ==> ById !in faults)
    ensures UniqueGithubIds(store) ==> UniqueGithubIds(o.store)
    ensures forall g :: IdsFor(o.store, g) == IdsFor(store, g)
  {
    Edit(s, store, faults, (t: Tenant) => t.(blockList := body.blockList, captcha := body.captcha))
  }
}
