/** The per-client session: a map from key to a value serialised at the
    type it was stored with. Reading a key at the wrong type fails, which is
    the `?` on every `session.get` in the handlers. */
module Sessions {
  import opened Base

  datatype Value = IntValue(i: I64) | StrValue(s: string)

  type Session = map<string, Value>

  /** The key under which the signed-in tenant's id is kept. */
  const TenantIdKey: string := "tenant_id"
  /** The key under which the pending CSRF state is kept. */
  const StateKey: string := "state"

  /** `session.get::<i64>(key)`. */
  function GetInt(s: Session, key: string): (r: Result<Option<I64>>)
    ensures r == Success(None) <==> key !in s
    ensures forall v: I64 :: r == Success(Some(v)) <==> key in s && s[key] == IntValue(v)
    ensures r.Failure? ==> r.error == SessionError
  {
    if key !in s then Success(None)
    else match s[key]
      case IntValue(v) => Success(Some(v))
      case StrValue(_) => Failure(SessionError)
  }

  /** `session.get::<String>(key)`. */
  function GetStr(s: Session, key: string): (r: Result<Option<string>>)
    ensures r == Success(None) <==> key !in s
    ensures forall v :: r == Success(Some(v)) <==> key in s && s[key] == StrValue(v)
    ensures r.Failure? ==> r.error == SessionError
  {
    if key !in s then Success(None)
    else match s[key]
      case StrValue(v) => Success(Some(v))
      case IntValue(_) => Failure(SessionError)
  }

  /** The tenant id the session is bound to, if any decodes. */
  function BoundId(s: Session): Option<I64>
  {
    match GetInt(s, TenantIdKey)
    case Success(Some(id)) => Some(id)
    case _ => None
  }

  /** The stored CSRF state equals `state`: the callback's gate. */
  predicate StateMatches(s: Session, state: string)
  {
    GetStr(s, StateKey) == Success(Some(state))
  }

  /** Writing one key leaves what every other key reads unchanged. */
  lemma SetKeepsOtherKeys(s: Session, key: string, v: Value, other: string)
    requires other != key
    ensures GetInt(s[key := v], other) == GetInt(s, other)
    ensures GetStr(s[key := v], other) == GetStr(s, other)
  {
  }

  /** Storing the CSRF state does not disturb the tenant binding, and
      binding a tenant does not disturb the stored state. */
  lemma KeysIndependent(s: Session, state: string, id: I64)
    ensures BoundId(s[StateKey := StrValue(state)]) == BoundId(s)
    ensures GetStr(s[TenantIdKey := IntValue(id)], StateKey) == GetStr(s, StateKey)
  {
    SetKeepsOtherKeys(s, StateKey, StrValue(state), TenantIdKey);
    SetKeepsOtherKeys(s, TenantIdKey, IntValue(id), StateKey);
  }
}
