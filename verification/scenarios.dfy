/** Concrete runs of the handlers on small inputs: a first-time and a
    returning GitHub user, a forged callback, and a key rotation without a
    session. */
module UserScenarios {
  import opened Base
  import opened Tenants
  import opened Collaborators
  import opened Sessions
  import opened UserHandlers
  import UserProperties

  /** A GitHub client that exchanges any code for the token "t" and answers
      every token with the profile alice/42. */
  function Alice(): GitHubClient
  {
    GitHubClient(
      (state: string) => "https://github.com/login/oauth/authorize?state=" + state,
      (code: string) => Success("t"),
      (token: string) => Success(GitHubUser("alice", 42)))
  }

  /** First sight of alice/42: a new tenant under the id the store assigns,
      and the session bound to it. */
  lemma FirstTimeCallbackRegisters(appId: I64)
    ensures var s := map[StateKey := StrValue("y")];
            var o := Callback(s, map[], {}, Alice(), CallbackQuery("abc", "y"), appId, 1);
            && o.Answered(Found(UserPage))
            && o.store == map[1 := Tenant(1, appId, "alice", 42, DefaultBlockList, DefaultCaptcha)]
            && BoundId(o.session) == Some(1)
            && o.calls == [ExchangeCode("abc"), GetUser("t"), FindTenantByGithubId(42),
                           InsertTenant(NewTenant(1, appId, "alice", 42))]
  {
  }

  /** alice/42 again, already registered as tenant 7: the same tenant, no
      insert, store unchanged. */
  lemma ReturningCallbackFindsTenant(appId: I64, freshId: I64)
    ensures var t := Tenant(7, 99, "alice", 42, "spam", true);
            var s := map[StateKey := StrValue("y")];
            var o := Callback(s, map[7 := t], {}, Alice(), CallbackQuery("abc", "y"), appId, freshId);
            && o.Answered(Found(UserPage))
            && o.store == map[7 := t]
            && BoundId(o.session) == Some(7)
            && o.calls == [ExchangeCode("abc"), GetUser("t"), FindTenantByGithubId(42)]
  {
    var t := Tenant(7, 99, "alice", 42, "spam", true);
    UserProperties.FindsOnlyMatch(map[7 := t], {}, 42, 7);
  }

  /** A callback echoing state "x" to a session holding "y": the same
      redirect, no call to GitHub or the store, nothing changed. */
  lemma ForgedCallbackMakesNoCall(store: Store, appId: I64, freshId: I64)
    ensures var s := map[StateKey := StrValue("y")];
            var o := Callback(s, store, {}, Alice(), CallbackQuery("abc", "x"), appId, freshId);
            && o.Answered(Found(UserPage)) && o.calls == [] && o.session == s && o.store == store
  {
  }

  /** Key rotation on an empty session: 401 and no store change. */
  lemma ResetKeyWithoutSession(store: Store, newAppId: I64)
    ensures var o := ResetKey(map[], store, {}, newAppId);
            && o.Answered(Unauthorized(None)) && Status(o.reply.value) == 401 && o.store == store
  {
  }
}
