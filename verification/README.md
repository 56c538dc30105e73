# Tenant sign-in and tenant lifecycle of pipe, modelled in Dafny

This project models the user handlers of the pipe server (`server/src/user.rs`):
the GitHub OAuth handshake that signs an operator in, the find-or-create step
that maps a GitHub identity to a tenant, the test-only token login, and the two
authenticated edits of the signed-in tenant (rotating its app id, and editing its
block list and captcha flag).

Every handler is a pure function. It takes the session, the tenant store and
everything the request draws from outside, and returns an `Outcome`: the reply,
the session and store afterwards, and the external calls made, in order.

- **Session** (`session.dfy`): a map from key to a value stored as an `i64` or as a
  string, under the two keys `tenant_id` and `state`. Reading a key at the wrong
  type fails the request, as the `?` on `session.get` does.
- **Tenant store** (`tenant.dfy`, `collaborators.dfy`): the `tenants` table as a
  map from primary key to row, with the six columns of `server/src/schema.rs`.
  Which store operations fail during a request is an input (`faults`). Inserting
  a row whose id is already taken fails, as a primary-key violation would.
- **GitHub client** (`collaborators.dfy`): the authorisation URL, the code
  exchange and the profile fetch are functions supplied with the request.
- **Random values and fresh ids**: the CSRF token, the new app id and the id the
  store assigns on insert are parameters.
- **Handlers** (`user.dfy`): `User` (`GET /user`), `Callback` (`GET /callback`),
  `Login` (`POST /login`), `ResetKey` (`POST /user/reset_key`) and `Update`
  (`PUT /user`). `Callback` and `Login` share one find-or-create, `Resolve`.
  `ResetKey` and `Update` share `Edit`, the lookup-rewrite-store shape.
- **Properties** (`properties.dfy`, `scenarios.dfy`): idempotence of
  find-or-create, the full handshake, the callback as a CSRF-gated login, the
  stored state surviving a callback, and the preservation of tenant identities
  over any interleaving of requests from any number of clients. A few worked examples on concrete inputs are
  proved as well.

Two behaviours of the callback are worth stating:

- It never removes the stored CSRF state (`server/src/user.rs:93-119`). The state
  is therefore not single-use: after a successful callback the same state passes
  the check again (`StateSurvivesCallback`).
- A callback whose state does not match redirects to `/#/user`, the same page as
  a successful one (`server/src/user.rs:121-127`). It leaves an existing
  `tenant_id` binding in place rather than signing the client out.

## Model

| member | source | states |
|---|---|---|
| Sessions.GetInt | server/src/user.rs:28 | an absent key reads as none, an `i64` value reads as that value, and a string value fails the request with a session error |
| Sessions.GetStr | server/src/user.rs:93 | an absent key reads as none, a string value reads as that string, and an `i64` value fails the request with a session error |
| Sessions.KeysIndependent | server/src/user.rs:17-18 | storing the CSRF state leaves the tenant binding as it was, and binding a tenant leaves the stored state as it was |
| Collaborators.FindById | server/src/user.rs:29 | the lookup fails exactly when that store operation fails; otherwise it finds a tenant exactly when the id is in the store, and that tenant carries the id |
| Collaborators.FindByGithubId | server/src/user.rs:100 | the lookup finds nothing exactly when no tenant has the GitHub id; otherwise the tenant it finds is stored, has that GitHub id and has the least such id |
| Collaborators.InsertRow | server/src/user.rs:108-109 | an insert succeeds exactly when it is not failing and the id is free; it then adds that one row and leaves every other row as it was |
| Collaborators.UpdateRow | server/src/user.rs:146 | an update succeeds exactly when it is not failing and the row exists; it then replaces that row only |
| UserHandlers.User | server/src/user.rs:20-41 | never writes the store and makes no GitHub call. A session bound to a stored tenant is answered with that tenant's view and is left unchanged. Any other decodable session is answered with 401 and the authorisation URL for the token, and has the token stored under `state`. A `tenant_id` that does not decode fails with a session error, and a failed lookup fails with a store error; both leave the session unchanged |
| UserHandlers.Resolve | server/src/user.rs:100-111 | always looks up by GitHub id first. An existing tenant for the identity is returned with no insert and no store change. Otherwise exactly one new tenant with the given app id, login and GitHub id is added under the fresh id, after exactly one insert call. A failing lookup ends the resolution with a store error, with no further call. A failing insert on the create path also fails with a store error. Failures change nothing. A success names a stored tenant of that GitHub identity. Existing rows never change, no identity that already has a tenant gains another, and one tenant per identity is preserved |
| UserHandlers.Login | server/src/user.rs:60-82 | fetches the profile first, and then makes exactly the store calls of find-or-create for that profile. A failed profile fetch fails the request with that error and makes no further call. After a successful fetch, the store afterwards is find-or-create's store: unchanged when the identity has a tenant, otherwise with exactly the one new row. The session is bound to the id find-or-create returns. The request fails exactly when find-or-create fails, and with the same error. A success redirects to `/#/user` and changes only `tenant_id`. Failures change neither the session nor the store |
| UserHandlers.Callback | server/src/user.rs:84-129 | the code exchange happens if and only if the stored state equals the echoed one. Otherwise no call is made and nothing changes. A stored state that does not decode fails with a session error. After a match, a failed exchange or profile fetch fails with that error and makes no further call. Otherwise the calls, the store afterwards and the `tenant_id` binding are those of find-or-create for the fetched profile, and the request fails exactly when find-or-create fails. Every redirect goes to `/#/user`, and the stored state is never cleared |
| UserHandlers.Edit | server/src/user.rs:136-152 | the session is never written. A 200 is given exactly when the session is bound to a stored tenant and neither store operation fails; only then is that one row rewritten. A bare 401 is given exactly when the session decodes but is not bound to a stored tenant. A `tenant_id` that does not decode fails with a session error, and a failed lookup or update fails with a store error |
| UserHandlers.ResetKey | server/src/user.rs:131-153 | on success only the bound tenant's `app_id` changes, to the new value, and the reply is the new row. Its id, login, GitHub id, block list and captcha flag are kept, no other tenant changes, and every GitHub identity keeps the same tenants. A session that decodes but is not bound to a stored tenant gets 401. A `tenant_id` that does not decode fails with a session error, and a failed lookup or update fails with a store error. Every reply other than 200 leaves the store unchanged |
| UserHandlers.Update | server/src/user.rs:155-181 | on success the bound tenant takes `block_list` and `captcha` from the body and keeps its stored id, app id, login and GitHub id. No other tenant changes, and every GitHub identity keeps the same tenants. A session that decodes but is not bound to a stored tenant gets 401. A `tenant_id` that does not decode fails with a session error, and a failed lookup or update fails with a store error. Every reply other than 200 leaves the store unchanged |
| UserProperties.FindsOnlyMatch | server/src/user.rs:100-104 | when exactly one tenant has a GitHub id, the lookup by that GitHub id returns that tenant |
| UserProperties.ResolveIdempotent | server/src/user.rs:70-78 | a second resolution of the same GitHub id returns the first one's tenant id, makes no insert and leaves the store unchanged, even if the login has changed |
| UserProperties.LoginTwiceBindsSameTenant | server/src/user.rs:68-78 | two logins in a row for one GitHub identity, from the same client or from another session, bind the same tenant. The second makes no insert and no store change. Where the store already held several tenants for the identity, this relies on the lookup's least-id choice |
| UserProperties.CallbackIsGatedLogin | server/src/user.rs:93-112 | past a matching state, the callback has the same reply, session and store as a login with the exchanged token, and its calls are that login's calls preceded by the exchange |
| UserProperties.HandshakeSignsIn | server/src/user.rs:35-118 | a client that is not signed in gets a 401 with a state token. Its callback carrying that state reaches the exchange, redirects to `/#/user` and leaves the client bound to a tenant of its GitHub identity |
| UserProperties.StateSurvivesCallback | server/src/user.rs:93-119 | after a successful callback, a second callback with the same state passes the gate and reaches the code exchange |
| UserProperties.UpdateIgnoresServerFields | server/src/user.rs:166-173 | two request bodies that agree on block list and captcha flag give identical outcomes, whatever ids, app id or login they carry |
| UserProperties.HandleKeepsIdentities | server/src/user.rs:138-173 | no request loses a tenant or changes its id, GitHub id or login. Only key rotation changes an app id. No GitHub identity that has a tenant gains another, and one tenant per GitHub identity is preserved |
| UserProperties.RunKeepsIdentities | server/src/user.rs:100-111 | over any interleaving of requests from any number of clients, each with its own session, every tenant survives with its id, GitHub id and login. Every GitHub identity that had a tenant ends with exactly the tenants it had, and a store with one tenant per GitHub identity keeps that property |
| UserScenarios.FirstTimeCallbackRegisters | server/src/user.rs:105-110 | a first callback for alice/42 inserts one tenant with the default block list and captcha flag under the assigned id, and binds the session to it |
| UserScenarios.ReturningCallbackFindsTenant | server/src/user.rs:101-104 | a callback for alice/42, already stored as tenant 7, binds tenant 7 with no insert |
| UserScenarios.ForgedCallbackMakesNoCall | server/src/user.rs:121-127 | a callback echoing `x` to a session holding `y` redirects to `/#/user` with no call and no change |
| UserScenarios.ResetKeyWithoutSession | server/src/user.rs:152 | key rotation with an empty session answers 401 and leaves the store unchanged |

## Left out

- Concurrency: two first-time callbacks for the same GitHub identity can both miss in the lookup and both insert. Requests here run one after another, so that race is not modelled.
- The GitHub client (`authorize_url`, `exchange_code`, `get_user`) and the HTTP client are not part of this model. Their answers are functions supplied with the request.
- The store's implementation (`Pool`) is not part of this model. The store is a map, with failing operations given per request. When several rows share a GitHub id, the store does not say which one the lookup returns, so the model takes the least id. Under the one-tenant-per-identity invariant that every handler preserves, at most one row matches.
- `new_csrf_token` (16 random bytes in base58) and the `thread_rng` app ids: randomness is outside the model, so the token and app ids are parameters.
- `UserTenant::from` is not part of this model. The JSON view is a wrapper around the whole tenant.
- `Tenant::new` is not part of this model. A new tenant's block list is taken to be empty and its captcha flag false (`DefaultBlockList`, `DefaultCaptcha`).
- `session.set` is treated as infallible, since serialising an `i64` or a string cannot fail. Cookie transport and signing are outside the model.
- Query and JSON extraction failures answer before the handler runs, so they are not modelled. The same goes for routing, `HttpResponse` building and the request-id logging.
- `UpdateRow` fails when the row to update is absent. That is an assumption about `Pool::update_tenant`, which is not part of this model: an SQL UPDATE that matches no row usually succeeds. No handler reaches this case, because each one updates a row it has just found.
- `server/src/schema.rs` is used only as the column list of `Tenant`. The `wechat_works` table has no logic here.
- `web/src/User.tsx` is the browser client and has no server logic.
