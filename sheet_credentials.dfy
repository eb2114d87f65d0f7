/**
 * Authorization to the spreadsheet: the cached OAuth credential from
 * token.pickle is used as it is while valid, refreshed in place when it has
 * expired and carries a refresh token, and otherwise replaced by one from the
 * interactive authorization flow; whatever was refreshed or obtained is
 * written back to the cache.
 */
module SheetCredentials {
  import opened Wrappers

  /** The loaded credential, through the attributes the script reads. */
  datatype Credential = Credential(valid: bool, expired: bool, refreshToken: Option<string>)

  /** `creds.refresh_token` is truthy: present and not the empty string. */
  predicate HasRefreshToken(c: Credential) {
    c.refreshToken.Some? && c.refreshToken.value != ""
  }

  /** An invalid credential that can be brought back without the operator. */
  predicate Refreshable(c: Credential) {
    !c.valid && c.expired && HasRefreshToken(c)
  }

  datatype Action = UseCached | Refresh | RunFlow

  /** Which path the script takes and whether it then writes token.pickle. */
  datatype Decision = Decision(action: Action, save: bool)

  function Decide(cached: Option<Credential>): (d: Decision)
    ensures d.action == UseCached <==> cached.Some? && cached.value.valid
    ensures d.action == Refresh <==> cached.Some? && Refreshable(cached.value)
    ensures d.action == RunFlow <==>
      cached.None? || (!cached.value.valid && !Refreshable(cached.value))
    ensures d.save <==> cached.None? || !cached.value.valid
  {
    if cached.None? || !cached.value.valid then
      if cached.Some? && cached.value.expired && HasRefreshToken(cached.value) then Decision(Refresh, true)
      else Decision(RunFlow, true)
    else Decision(UseCached, false)
  }

  /**
   * How authorization ended: with the credential in use and what was written
   * to the cache, or with the refresh or the flow raising.
   */
  datatype Authorization =
    | Authorized(creds: Credential, saved: Option<Credential>, action: Action)
    | AuthFailed(action: Action)

  /**
   * The branch after loading the cache. `refreshed` is the credential as
   * `creds.refresh(...)` leaves it and `granted` the one the interactive flow
   * returns; None where that call raises.
   */
  function Resolve(cached: Option<Credential>, refreshed: Option<Credential>,
                   granted: Option<Credential>): (a: Authorization)
    ensures a.action == Decide(cached).action
    ensures a.Authorized? ==> (a.saved.Some? <==> Decide(cached).save)
    ensures a.Authorized? && a.action == UseCached ==> a.creds == cached.value
    ensures a.Authorized? && a.action == Refresh ==> Some(a.creds) == refreshed
    ensures a.Authorized? && a.action == RunFlow ==> Some(a.creds) == granted
    ensures a.AuthFailed? <==>
      (a.action == Refresh && refreshed.None?) || (a.action == RunFlow && granted.None?)
  {
    var d := Decide(cached);
    var obtained := match d.action
      case UseCached => cached
      case Refresh => refreshed
      case RunFlow => granted;
    match obtained
    case None => AuthFailed(d.action)
    case Some(c) => Authorized(c, if d.save then Some(c) else None, d.action)
  }

  /** token.pickle after the branch: what was saved, or what was there before. */
  function CacheAfter(cached: Option<Credential>, a: Authorization): Option<Credential> {
    if a.Authorized? && a.saved.Some? then a.saved else cached
  }

  /** After a successful authorization the cache holds exactly the credential in use. */
  lemma {:induction false} CacheHoldsCredentialInUse(
    cached: Option<Credential>, refreshed: Option<Credential>, granted: Option<Credential>)
    requires Resolve(cached, refreshed, granted).Authorized?
    ensures CacheAfter(cached, Resolve(cached, refreshed, granted))
         == Some(Resolve(cached, refreshed, granted).creds)
  {
    var a := Resolve(cached, refreshed, granted);
    if a.action == UseCached {
      assert !Decide(cached).save;
    }
  }

  /**
   * A run that ends with a valid credential leaves a cache that the next run
   * uses as it is: no refresh, no flow, no write, whatever those would return.
   */
  lemma {:induction false} NextRunUsesCache(
    cached: Option<Credential>, refreshed: Option<Credential>, granted: Option<Credential>,
    refreshed2: Option<Credential>, granted2: Option<Credential>)
    requires Resolve(cached, refreshed, granted).Authorized?
    requires Resolve(cached, refreshed, granted).creds.valid
    ensures var a := Resolve(cached, refreshed, granted);
      Resolve(CacheAfter(cached, a), refreshed2, granted2) == Authorized(a.creds, None, UseCached)
  {
    CacheHoldsCredentialInUse(cached, refreshed, granted);
  }
}
