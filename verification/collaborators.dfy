/** The two collaborators the handlers call out to, reduced to their
    interfaces: the GitHub OAuth client and the tenant store. Neither one's
    implementation is part of this model. GitHub's answers are functions
    fixed for the request; the store is a `Store` value plus the set of
    store operations that fail during the request. */
module Collaborators {
  import opened Base
  import opened Tenants
  import opened Sets

  /** The profile GitHub returns for an access token. */
  datatype GitHubUser = GitHubUser(login: string, id: I64)

  /** What the GitHub client answers: the authorisation URL carrying a CSRF
      state, the access token a code exchanges for, the profile behind an
      access token. */
  datatype GitHubClient = GitHubClient(
    authorizeUrl: string -> string,
    exchangeCode: string -> Result<string>,
    getUser: string -> Result<GitHubUser>)

  /** An external call a handler makes, recorded in the order it is made. */
  datatype Call =
    | ExchangeCode(code: string)
    | GetUser(accessToken: string)
    | FindTenantById(id: I64)
    | FindTenantByGithubId(githubId: I64)
    | InsertTenant(tenant: Tenant)
    | UpdateTenant(tenant: Tenant)
  {
    predicate IsStoreCall() {
      FindTenantById? || FindTenantByGithubId? || InsertTenant? || UpdateTenant?
    }
  }

  /** The kinds of store operation; a request's `faults` names those that fail. */
  datatype StoreOp = ById | ByGithubId | Inserting | Updating

  /** Looks a tenant up by primary key. */
  function FindById(store: Store, faults: set<StoreOp>, id: I64): (r: Result<Option<Tenant>>)
    ensures r.Failure? <==> ById in faults
    ensures r.Success? ==> (r.value.Some? <==> id in store)
    ensures r.Success? && r.value.Some? ==> r.value.value == store[id] && r.value.value.id == id
  {
    if ById in faults then Failure(StoreError)
    else if id in store then Success(Some(store[id]))
    else Success(None)
  }

  /** The ids of the tenants registered for GitHub identity `githubId`. */
  function IdsFor(store: Store, githubId: I64): (ids: set<I64>)
    ensures forall k :: k in ids <==> k in store && store[k].githubId == githubId
  {
    set k | k in store && store[k].githubId == githubId
  }

  /** Some tenant is registered for GitHub identity `githubId`. */
  predicate HasTenant(store: Store, githubId: I64)
  {
    IdsFor(store, githubId) != {}
  }

  /** A store change that adds no tenant for an identity that already had one:
      every known identity keeps exactly the tenants it had. */
  predicate KnownIdentitiesKept(before: Store, after: Store)
  {
    forall g :: HasTenant(before, g) ==> IdsFor(after, g) == IdsFor(before, g)
  }

  /** Looks a tenant up by GitHub identity. The store does not say which row
      answers when several share the identity; the model answers with the
      least id, and under `UniqueGithubIds` there is at most one row. */
  function FindByGithubId(store: Store, faults: set<StoreOp>, githubId: I64): (r: Result<Option<Tenant>>)
    ensures r.Failure? <==> ByGithubId in faults
    ensures r.Success? ==> (r.value.None? <==> forall k :: k in store ==> store[k].githubId != githubId)
    ensures r.Success? && r.value.Some? ==>
              var t := r.value.value;
              && t.id in store && store[t.id] == t && t.githubId == githubId
              && forall k :: k in store && store[k].githubId == githubId ==> t.id <= k
  {
    if ByGithubId in faults then Failure(StoreError)
    else
      var ids := IdsFor(store, githubId);
      if ids == {} then Success(None)
      else
        LeastExists(ids);
        var least :| least in ids && forall j :: j in ids ==> least <= j;
        Success(Some(store[least]))
  }

  /** Inserts the row `t`, whose id is the one the store assigned it. An id
      already in use is a primary-key violation. */
  function InsertRow(store: Store, faults: set<StoreOp>, t: Tenant): (r: Result<Store>)
    ensures r.Success? <==> Inserting !in faults && t.id !in store
    ensures r.Success? ==> r.value.Keys == store.Keys + {t.id} && r.value[t.id] == t
    ensures r.Success? ==> forall k :: k in store ==> r.value[k] == store[k]
  {
    if Inserting in faults || t.id in store then Failure(StoreError)
    else Success(store[t.id := t])
  }

  /** Overwrites the row with primary key `t.id`. */
  function UpdateRow(store: Store, faults: set<StoreOp>, t: Tenant): (r: Result<Store>)
    ensures r.Success? <==> Updating !in faults && t.id in store
    ensures r.Success? ==> r.value.Keys == store.Keys && r.value[t.id] == t
    ensures r.Success? ==> forall k :: k in store && k != t.id ==> r.value[k] == store[k]
  {
    if Updating in faults || t.id !in store then Failure(StoreError)
    else Success(store[t.id := t])
  }
}
