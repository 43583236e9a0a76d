/**
 * The login service: the orchestrator `getUser`, the redirect that stores the
 * anti-forgery state, the state check on the callback, the account resolver as
 * a method on the service's table, and the `authUser` verdict.
 *
 * The service object holds the session's stored state value, the user table
 * and the access token of the current request.
 */
module LoginService {
  import opened Wrappers
  import opened UserStore
  import opened Provider
  import opened AccountResolver

  /** PHP's `empty()` on a request parameter: missing, "" and "0" are all empty. */
  predicate PhpEmpty(v: Option<string>)
  {
    v.None? || v.value == "" || v.value == "0"
  }

  /** The request as the service sees it: the login status and the three parameters it reads. */
  datatype Request = Request(
    status: string,            // loginData['status']
    provider: Option<string>,  // GET/POST 'oauth-provider'
    state: Option<string>,     // GET 'state'
    code: Option<string>)      // GET 'code', handed to the token exchange

  /**
   * Only the GitLab provider initialises a resource server, and only the redirect
   * and the accepted callback use it; a mismatching callback never does.
   */
  predicate ProviderSelected(req: Request, stored: Option<string>)
  {
    Classify(req, stored) == IssueRedirect || Classify(req, stored) == ProcessCallback ==>
      req.provider == Some("gitlab")
  }

  /**
   * Everything outside the service that one call of `getUser` depends on: the
   * provider's authorization URL and state value, the outcomes of the two network
   * calls, the hooks, the pid/enable clauses, the clock and whether store writes succeed.
   */
  datatype Env = Env(
    authorizationUrl: string,
    issuedState: string,
    exchange: Exchange,
    owner: OwnerFetch,
    hooks: Hooks,
    visible: Record -> bool,
    now: int,
    writeOk: bool)

  /** Return values of `getUser`: `null`, a terminal 303 redirect, `false`, or a user record. */
  datatype LoginResult =
    | Abstain
    | Redirect(url: string, status: int)
    | Rejected
    | Authenticated(record: Record)

  const SeeOther: int := 303

  /** The callback check: the returned state is non-empty and identical to the stored one. */
  function IsOAuthRedirectRequest(state: Option<string>, stored: Option<string>): (ok: bool)
    ensures ok ==> stored.Some? && state == stored && !PhpEmpty(stored)
    ensures stored.None? ==> !ok
    ensures !PhpEmpty(state) && state == stored ==> ok
  {
    !PhpEmpty(state) && stored.Some? && state.value == stored.value
  }

  /** The branch `getUser` takes, decided from the request and the stored state alone. */
  datatype Step = NotOAuth | IssueRedirect | StateMismatch | ProcessCallback

  function Classify(req: Request, stored: Option<string>): (step: Step)
    ensures step == NotOAuth <==> req.status != "login" || PhpEmpty(req.provider)
    ensures step == IssueRedirect <==> req.status == "login" && !PhpEmpty(req.provider) && PhpEmpty(req.state)
    ensures step == ProcessCallback ==> stored.Some? && req.state == stored && !PhpEmpty(stored)
    ensures step == StateMismatch <==>
              req.status == "login" && !PhpEmpty(req.provider) && !PhpEmpty(req.state) &&
              (stored.None? || req.state != stored)
  {
    if req.status != "login" || PhpEmpty(req.provider) then NotOAuth
    else if PhpEmpty(req.state) then IssueRedirect
    else if IsOAuthRedirectRequest(req.state, stored) then ProcessCallback
    else StateMismatch
  }

  /** The service's state: the session's `oauth2state`, the table and `currentAccessToken`. */
  datatype ServiceState = ServiceState(session: Option<string>, store: Store, token: Option<AccessToken>)

  /** One call of `getUser`: the state afterwards and the value returned. */
  function GetUserSpec(s: ServiceState, req: Request, env: Env): (r: (ServiceState, LoginResult))
    requires ProviderSelected(req, s.session)
    ensures ValidStore(s.store) ==> ValidStore(r.0.store)
    ensures Classify(req, s.session) != ProcessCallback ==> r.0.store == s.store && r.0.token == s.token
    ensures Classify(req, s.session) == ProcessCallback ==> r.0.session == s.session
    ensures r.1.Redirect? <==> Classify(req, s.session) == IssueRedirect
    ensures r.1.Authenticated? ==> Classify(req, s.session) == ProcessCallback && r.0.token.Some?
  {
    match Classify(req, s.session)
    case NotOAuth => (s, Abstain)
    case IssueRedirect => (s.(session := Some(env.issuedState)), Redirect(env.authorizationUrl, SeeOther))
    case StateMismatch => (s.(session := None), Abstain)
    case ProcessCallback =>
      match env.exchange
      case ExchangeThrew => (s, Rejected)
      case NotAToken => (s.(token := None), Abstain)
      case Granted(tok) =>
        match env.owner
        case OwnerThrew => (s.(token := Some(tok)), Rejected)
        case Fetched(p) =>
          var r := Resolve(s.store, p, env.hooks, env.visible, env.now, env.writeOk);
          var s' := ServiceState(s.session, r.0, Some(tok));
          match r.1
          case Resolved(Some(rec)) => (s', Authenticated(rec))
          case _ => (s', Rejected)
  }

  /** The result of `authUser`: a status code, or the exception of the owner fetch. */
  datatype AuthOutcome = Code(status: int) | Threw

  const AuthSucceeded: int := 200
  const AuthContinue: int := 100

  /**
   * `authUser`: 200 when the record is OAuth-linked, a token is held and the owner
   * it belongs to is active; 100 otherwise. The owner is fetched only for a linked
   * record, and a failing fetch propagates.
   */
  function AuthUser(userRecord: Record, token: Option<AccessToken>, owner: OwnerFetch): (v: AuthOutcome)
    ensures v == Code(AuthSucceeded) <==>
              userRecord.oauthIdentifier != "" && token.Some? && owner.Fetched? && owner.profile.isActive
    ensures v == Threw <==> userRecord.oauthIdentifier != "" && owner.OwnerThrew?
    ensures v == Code(AuthSucceeded) || v == Code(AuthContinue) || v == Threw
  {
    if userRecord.oauthIdentifier == "" then Code(AuthContinue)
    else match owner
      case OwnerThrew => Threw
      case Fetched(p) => if token.Some? && p.isActive then Code(AuthSucceeded) else Code(AuthContinue)
  }

  /** A request that is not an OAuth login, or names no provider, changes nothing and returns `null`. */
  lemma NotOAuthAbstains(s: ServiceState, req: Request, env: Env)
    requires req.status != "login" || PhpEmpty(req.provider)
    ensures GetUserSpec(s, req, env) == (s, Abstain)
  {
  }

  /**
   * Without a `state` parameter the provider's state is stored and a 303 redirect
   * is issued; nothing else changes and neither network call nor the table matters.
   */
  lemma RedirectStoresState(s: ServiceState, req: Request, env: Env, e: Exchange, o: OwnerFetch, w: bool)
    requires ProviderSelected(req, s.session) && Classify(req, s.session) == IssueRedirect
    ensures GetUserSpec(s, req, env) ==
            (s.(session := Some(env.issuedState)), Redirect(env.authorizationUrl, SeeOther))
    ensures GetUserSpec(s, req, env) == GetUserSpec(s, req, env.(exchange := e, owner := o, writeOk := w))
  {
  }

  /**
   * A callback whose state is not the stored one clears the stored state and
   * returns `null`; the table and the token are untouched and the outcome does not
   * depend on the token exchange, the profile fetch or the store.
   */
  lemma MismatchClearsState(s: ServiceState, req: Request, env: Env, e: Exchange, o: OwnerFetch, w: bool)
    requires ProviderSelected(req, s.session) && req.status == "login" && !PhpEmpty(req.provider)
    requires !PhpEmpty(req.state) && !IsOAuthRedirectRequest(req.state, s.session)
    ensures GetUserSpec(s, req, env) == (s.(session := None), Abstain)
    ensures GetUserSpec(s, req, env) == GetUserSpec(s, req, env.(exchange := e, owner := o, writeOk := w))
  {
  }

  /** With no stored state no callback is ever processed: the table and the token stay as they were. */
  lemma NoStoredStateNoCallback(s: ServiceState, req: Request, env: Env)
    requires ProviderSelected(req, s.session) && s.session.None?
    ensures var (s', result) := GetUserSpec(s, req, env);
            s'.store == s.store && s'.token == s.token && (result.Abstain? || result.Redirect?)
  {
  }

  /** A failing token exchange returns `false` with nothing changed, whatever the profile fetch would give. */
  lemma ExchangeFailureRejects(s: ServiceState, req: Request, env: Env, o: OwnerFetch)
    requires ProviderSelected(req, s.session) && Classify(req, s.session) == ProcessCallback
    requires env.exchange == ExchangeThrew
    ensures GetUserSpec(s, req, env) == (s, Rejected)
    ensures GetUserSpec(s, req, env.(owner := o)) == (s, Rejected)
  {
  }

  /**
   * An exchange whose result is not an access token skips the profile fetch and
   * returns `null`; the held token becomes no token and the table is untouched.
   */
  lemma NotATokenAbstains(s: ServiceState, req: Request, env: Env)
    requires ProviderSelected(req, s.session) && Classify(req, s.session) == ProcessCallback
    requires env.exchange == NotAToken
    ensures GetUserSpec(s, req, env) == (s.(token := None), Abstain)
  {
  }

  /** A failing profile fetch returns `false`; only the token has been recorded. */
  lemma ProfileFailureRejects(s: ServiceState, req: Request, env: Env, tok: AccessToken)
    requires ProviderSelected(req, s.session) && Classify(req, s.session) == ProcessCallback
    requires env.exchange == Granted(tok) && env.owner == OwnerThrew
    ensures GetUserSpec(s, req, env) == (s.(token := Some(tok)), Rejected)
  {
  }

  /**
   * An accepted callback with a token and a profile leaves the table as the resolver
   * leaves it and returns the record exactly when the resolver produced one;
   * otherwise `false`.
   */
  lemma CallbackResolves(s: ServiceState, req: Request, env: Env, tok: AccessToken, p: Profile, rec: Record)
    requires ProviderSelected(req, s.session) && Classify(req, s.session) == ProcessCallback
    requires env.exchange == Granted(tok) && env.owner == Fetched(p)
    ensures var (s', result) := GetUserSpec(s, req, env);
            var (t, res) := Resolve(s.store, p, env.hooks, env.visible, env.now, env.writeOk);
            && s' == ServiceState(s.session, t, Some(tok))
            && (result == Authenticated(rec) <==> res == Resolved(Some(rec)))
            && (result.Rejected? <==> !res.Resolved? || res.record.None?)
  {
  }

  /** The table changes only through an accepted callback whose exchange, fetch and write succeed. */
  lemma StoreChangesOnlyOnCallback(s: ServiceState, req: Request, env: Env)
    requires ProviderSelected(req, s.session)
    requires GetUserSpec(s, req, env).0.store != s.store
    ensures Classify(req, s.session) == ProcessCallback
    ensures env.exchange.Granted? && env.owner.Fetched? && env.writeOk
  {
  }

  /**
   * After a redirect, a callback carrying the issued state is accepted, provided the
   * issued value is not one PHP treats as empty.
   */
  lemma RedirectThenCallback(s: ServiceState, first: Request, second: Request, env: Env)
    requires ProviderSelected(first, s.session) && Classify(first, s.session) == IssueRedirect
    requires !PhpEmpty(Some(env.issuedState))
    requires second.status == "login" && !PhpEmpty(second.provider) && second.state == Some(env.issuedState)
    ensures Classify(second, GetUserSpec(s, first, env).0.session) == ProcessCallback
  {
  }

  /**
   * The stored state survives an accepted callback, so the same callback is accepted
   * again: the state is not single-use.
   */
  lemma AcceptedStateIsKept(s: ServiceState, req: Request, env: Env)
    requires ProviderSelected(req, s.session) && Classify(req, s.session) == ProcessCallback
    ensures GetUserSpec(s, req, env).0.session == s.session
    ensures Classify(req, GetUserSpec(s, req, env).0.session) == ProcessCallback
  {
  }

  /**
   * A record returned by `getUser` comes with a held token, so `authUser` on it gives
   * 200 exactly when it is OAuth-linked and the re-fetched owner is active.
   */
  lemma LoginThenAuth(s: ServiceState, req: Request, env: Env, owner: OwnerFetch)
    requires ProviderSelected(req, s.session) && GetUserSpec(s, req, env).1.Authenticated?
    ensures var (s', result) := GetUserSpec(s, req, env);
            AuthUser(result.record, s'.token, owner) == Code(AuthSucceeded) <==>
              result.record.oauthIdentifier != "" && owner.Fetched? && owner.profile.isActive
  {
  }

  class OAuth2LoginService {
    var session: Option<string>
    var store: Store
    var currentAccessToken: Option<AccessToken>

    ghost predicate Valid()
      reads this
    {
      ValidStore(store)
    }

    function State(): ServiceState
      reads this
    {
      ServiceState(session, store, currentAccessToken)
    }

    constructor (stored: Option<string>, table: Store)
      requires ValidStore(table)
      ensures Valid() && session == stored && store == table && currentAccessToken == None
    {
      session := stored;
      store := table;
      currentAccessToken := None;
    }

    /** `sendOAuthRedirect`: store the provider's state value and redirect with 303. */
    method SendOAuthRedirect(authorizationUrl: string, issuedState: string) returns (result: LoginResult)
      modifies this`session
      ensures session == Some(issuedState)
      ensures result == Redirect(authorizationUrl, SeeOther)
    {
      session := Some(issuedState);
      result := Redirect(authorizationUrl, SeeOther);
    }

    /** `findOrCreateUserByResourceOwner` on the service's table. */
    method FindOrCreateUserByResourceOwner(p: Profile, hooks: Hooks, visible: Record -> bool, now: int, writeOk: bool)
      returns (res: Resolution)
      requires Valid()
      modifies this`store
      ensures Valid()
      ensures (store, res) == Resolve(old(store), p, hooks, visible, now, writeOk)
    {
      var found := SelectFirst(store.rows, visible, ByIdentifier(p.identifier));
      if found.None? {
        found := SelectFirst(store.rows, visible, ByUsernameOrEmail(p.username, p.email));
      }
      var record: Record;
      if found.None? {
        record := Blank.(crdate := now, tstamp := now, admin := AdminFlag(p.shouldBeAdmin),
                         disable := 0, starttime := 0, endtime := 0,
                         oauthIdentifier := p.identifier, password := "invalid");
        if p.expiresAt.Some? {
          record := record.(endtime := p.expiresAt.value);
        }
        record := hooks.updateUserRecord(p, record);
        if !writeOk {
          return Raised;
        }
        store := Insert(store, record);
        res := Resolved(FetchUserRecord(store.rows, visible, p.username));
      } else {
        var details := hooks.loadUserDetails(p);
        record := found.value.(admin := AdminFlag(details.shouldBeAdmin), disable := 0,
                               starttime := 0, endtime := 0, oauthIdentifier := details.identifier);
        if details.expiresAt.Some? {
          record := record.(endtime := details.expiresAt.value);
        }
        record := hooks.updateUserRecord(details, record);
        if !writeOk {
          return Raised;
        }
        store := store.(rows := UpdateByUid(store.rows, record));
        res := Resolved(Some(record));
      }
    }

    /** `getUser`: abstain, redirect, reject, or return the resolved record. */
    method GetUser(req: Request, env: Env) returns (result: LoginResult)
      requires Valid() && ProviderSelected(req, session)
      modifies this
      ensures Valid()
      ensures (State(), result) == GetUserSpec(old(State()), req, env)
    {
      if req.status != "login" {
        return Abstain;
      }
      if PhpEmpty(req.provider) {
        return Abstain;
      }
      if PhpEmpty(req.state) {
        result := SendOAuthRedirect(env.authorizationUrl, env.issuedState);
        return;
      } else if IsOAuthRedirectRequest(req.state, session) {
        match env.exchange {
          case ExchangeThrew =>
            return Rejected;
          case NotAToken =>
            currentAccessToken := None;
          case Granted(tok) =>
            currentAccessToken := Some(tok);
            match env.owner {
              case OwnerThrew =>
                return Rejected;
              case Fetched(p) =>
                var res := FindOrCreateUserByResourceOwner(p, env.hooks, env.visible, env.now, env.writeOk);
                if res.Resolved? && res.record.Some? {
                  return Authenticated(res.record.value);
                }
                return Rejected;
            }
        }
      } else {
        session := None;
      }
      return Abstain;
    }
  }
}
