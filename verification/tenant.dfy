/** The `tenants` table: one row per GitHub identity, keyed by an internal id. */
module Tenants {
  import opened Base

  /** One row of the `tenants` table, column for column. */
  datatype Tenant = Tenant(
    id: I64,
    appId: I64,
    githubLogin: string,
    githubId: I64,
    blockList: string,
    captcha: bool)

  /** The JSON view a handler answers with. The projection itself is not
      part of this model; it is taken to carry the whole tenant. */
  datatype UserTenant = FromTenant(tenant: Tenant)

  /** The editable fields a freshly registered tenant starts with. */
  const DefaultBlockList: string := ""
  const DefaultCaptcha: bool := false

  /** The row that inserting `Tenant::new(appId, login, githubId)` produces
      once the store has assigned it the id `id`. */
  function NewTenant(id: I64, appId: I64, login: string, githubId: I64): Tenant
  {
    Tenant(id, appId, login, githubId, DefaultBlockList, DefaultCaptcha)
  }

  /** Every row sits under its own primary key. */
  predicate Keyed(m: map<I64, Tenant>)
  {
    forall k :: k in m ==> m[k].id == k
  }

  /** The tenant store: the `tenants` table as a map from primary key to row. */
  type Store = m: map<I64, Tenant> | Keyed(m) witness map[]

  /** One tenant per GitHub identity: the invariant the resolver is meant to keep. */
  ghost predicate UniqueGithubIds(store: Store)
  {
    forall j, k :: j in store && k in store && store[j].githubId == store[k].githubId ==> j == k
  }

  /** `a` and `b` are the same row apart from `appId`. */
  predicate SameExceptAppId(a: Tenant, b: Tenant)
  {
    a.id == b.id && a.githubLogin == b.githubLogin && a.githubId == b.githubId
    && a.blockList == b.blockList && a.captcha == b.captcha
  }

  /** `a` and `b` agree on every field a tenant may not edit itself. */
  predicate SameServerFields(a: Tenant, b: Tenant)
  {
    a.id == b.id && a.appId == b.appId && a.githubLogin == b.githubLogin && a.githubId == b.githubId
  }
}
