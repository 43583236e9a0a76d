# OAuth2 login service: a Dafny model

This project models the TYPO3 authentication service `OAuth2LoginService` of the
`oauth2` extension. The service logs a visitor in through an external OAuth2
provider (GitLab) in four steps:

- It redirects the visitor to the provider and stores an anti-forgery `state` value in the session.
- On the callback it accepts the returned `state` only if it is non-empty and identical to the stored value.
- It exchanges the authorization code for an access token and fetches the provider's profile of the user (the resource owner).
- It finds or creates the matching row of the user table and returns it to the TYPO3 authentication chain. That chain later asks `authUser` for a verdict (200 or 100).

The model has five modules:

- `Wrappers`: `Option`. It stands for PHP's `null`, an unset key, or a value.
- `UserStore` (`user_store.dfy`): the user table. It has rows in natural order, an auto-increment `uid` and a `deleted` column. Its operations are the three queries (by `oauth_identifier`, by username-or-email, and the parent pipeline's refetch by username), the insert and the update keyed by `uid`. The TYPO3 `check_pid_clause` and `enable_clause` SQL fragments become a `visible` predicate that every query takes as a parameter.
- `Provider` (`provider.dfy`): the profile the resource server derives from the resource owner (identifier, username, e-mail, admin eligibility, optional expiry, activity). It also holds the outcomes of the two network calls, and the `updateUserRecord` and `loadUserDetails` hooks as uninterpreted functions.
- `AccountResolver` (`account_resolver.dfy`): `findOrCreateUserByResourceOwner` as a pure function `Resolve` of the table before the call. Lemmas cover lookup precedence, the create path, the update path, key preservation and convergence of repeated logins.
- `LoginService` (`login_service.dfy`): the class `OAuth2LoginService`. Its three fields are the session's `oauth2state`, the user table and `currentAccessToken`. Its methods `GetUser`, `SendOAuthRedirect` and `FindOrCreateUserByResourceOwner` change those fields step by step. `GetUser` is proved equal to the specification function `GetUserSpec`, and `FindOrCreateUserByResourceOwner` to `Resolve`. `SendOAuthRedirect` states its new session value and result directly. The same module holds the pure state check `IsOAuthRedirectRequest`, the branch decision `Classify` and the verdict `AuthUser`, plus lemmas about the orchestrator.

Things the service gets from outside are parameters of `GetUser`, bundled in `Env`:

- the provider's authorization URL and state value;
- the outcome of the token exchange and of the profile fetch;
- the hooks;
- the visibility clauses;
- the clock (`now`, in place of `time()`);
- whether the store's write succeeds.

PHP's `empty()` on a request parameter is `PhpEmpty`. It treats a missing value, `""` and `"0"` as empty, as PHP does.

Properties of the code worth knowing:

- The stored state is not single-use. The code clears it only on a mismatch (`Classes/Services/OAuth2LoginService.php`, line 115), so an accepted callback can be replayed (`AcceptedStateIsKept`).
- A repeated login resolves to the same key when the hooks keep the identifier, the key and the row's visibility (`ReloginKeepsUid`, `FirstLoginThenRelogin`). These conditions are sufficient, not necessary: the username-or-email lookup can also find the same row again.
- The code does not keep `oauth_identifier` unique. Both lookups see only rows that pass the pid and enable clauses (same file, lines 180-181 and 207-208). An account that carries the identifier but is hidden, for example because it is disabled or its `endtime` has passed, is not matched, and the `disable = 0` refresh never reaches it. A second row then carries the identifier. When no visible row matches the username or e-mail, that is a freshly inserted row (`HiddenAccountGetsSecondRow`, `DisabledAccountGetsSecondRow`). Otherwise it is the visible row that matches them, which is rewritten with the identifier.
- The username-or-email lookup compares with `=` (lines 192-205). A profile with an empty e-mail or username therefore matches the first visible account whose column is empty. That account is then linked to the profile's identifier and returned for login (`EmptyEmailMatchesAccount`).

## Model

| member | source | states |
|---|---|---|
| `UserStore.FirstIndex` | Classes/Services/OAuth2LoginService.php:169-184 | the first row in natural order that is not deleted, passes the visibility clauses and meets the condition; none exactly when no row qualifies |
| `UserStore.SelectFirst` | Classes/Services/OAuth2LoginService.php:186-211 | `fetch()` returns the first row in natural order that the query selects, and nothing exactly when no row is selected |
| `UserStore.FetchUserRecord` | Classes/Services/OAuth2LoginService.php:239-242 | the refetch returns the first visible, non-deleted row with the given username, and nothing exactly when there is none |
| `UserStore.Insert` | Classes/Services/OAuth2LoginService.php:233-237 | exactly one row is appended, after an untouched prefix, under the next auto-increment key and holding the given record; keys stay unique and the new key is unused |
| `UserStore.UpdateByUid` | Classes/Services/OAuth2LoginService.php:266-283 | every row whose `uid` is the record's is written with it: named columns take the record's values, other columns the record carries are overwritten, those it leaves out keep their stored values; every other row is kept; the row count and all keys are unchanged |
| `UserStore.Written` | Classes/Services/OAuth2LoginService.php:279-283 | the `SET` loop writes exactly the columns present in the merged record: the named columns and the record's other entries take its values, and stored entries it leaves out are kept |
| `UserStore.UpdateKeepsValid` | Classes/Services/OAuth2LoginService.php:266-283 | the update keyed by `uid` keeps primary keys unique and below the counter |
| `UserStore.UpdateReplacesOneRow` | Classes/Services/OAuth2LoginService.php:266-283 | with unique keys, the update writes exactly the one row carrying the key |
| `AccountResolver.Match` | Classes/Services/OAuth2LoginService.php:165-212 | the match is a non-deleted, visible row of the table matching identifier, username or e-mail; when any selectable row carries the identifier the match is the first such row (the username-or-email lookup is not used); otherwise it is the first row matching username or e-mail; no match exactly when neither query selects a row |
| `AccountResolver.NewRecord` | Classes/Services/OAuth2LoginService.php:215-229 | the record built for a first login has `crdate = tstamp = now`, the admin flag as 0/1, `disable = starttime = 0`, `endtime` = expiry or 0, the provider identifier and password `invalid` |
| `AccountResolver.Refreshed` | Classes/Services/OAuth2LoginService.php:247-261 | on a returning login admin, disable, starttime, endtime and oauth_identifier are overwritten and uid, username, e-mail, password, timestamps, deleted flag and all other columns keep their old values |
| `AccountResolver.Resolve` | Classes/Services/OAuth2LoginService.php:157-287 | the resolver keeps primary keys unique and below the counter; a failing write leaves the table unchanged and raises; with no match exactly one row is appended after the unchanged rows; with a match the row count and counter are kept and a record is returned (detailed by `CreatePath`, `UpdatePath`, `UpdateKeepsUid`, `ReloginKeepsUid`) |
| `AccountResolver.CreatePath` | Classes/Services/OAuth2LoginService.php:214-242 | with no match, exactly one row is inserted after the unchanged rows, holding `updateUserRecord` applied to the built record, under the next key; the result is the refetch by username |
| `AccountResolver.FirstLoginReturnsInserted` | Classes/Services/OAuth2LoginService.php:239-242 | after a first login the refetch returns the inserted row exactly when that row is visible, not deleted and carries the username |
| `AccountResolver.UpdatePath` | Classes/Services/OAuth2LoginService.php:243-284 | with a match, nothing is inserted, the counter is unchanged, the row keyed by the merged record's uid is written with every column of the merged record (columns it leaves out keep their values), other rows are kept, and the merged record is returned |
| `AccountResolver.UpdateKeepsUid` | Classes/Services/OAuth2LoginService.php:264-283 | when the hook keeps the key, exactly the matched row is written in place and the returned record has the matched row's uid |
| `AccountResolver.NoEarlierIdentifier` | Classes/Services/OAuth2LoginService.php:169-186 | no selectable row before the matched row carries the profile's identifier |
| `AccountResolver.IdentifierFindsRow` | Classes/Services/OAuth2LoginService.php:169-186 | the first row carrying the identifier is the match |
| `AccountResolver.ReloginKeepsUid` | Classes/Services/OAuth2LoginService.php:157-284 | when the hooks keep identifier, key and visibility, two consecutive logins of a known user resolve to the same uid |
| `AccountResolver.FirstLoginThenRelogin` | Classes/Services/OAuth2LoginService.php:157-284 | a first login followed by a second resolves the second to the inserted row's key without a further insert |
| `AccountResolver.HiddenAccountGetsSecondRow` | Classes/Services/OAuth2LoginService.php:169-237 | when no visible row matches at all, an account carrying the identifier but hidden by the pid/enable clauses is left unchanged and a second row with the same identifier is inserted beside it |
| `AccountResolver.DisabledAccountGetsSecondRow` | Classes/Services/OAuth2LoginService.php:169-237 | a concrete case: a disabled linked account under an enable clause requiring `disable = 0` stays disabled and a second enabled row with its identifier is inserted under key 2 |
| `AccountResolver.DroppedColumnKept` | Classes/Services/OAuth2LoginService.php:264-283 | a concrete case: a column the hook drops from the merged record keeps its stored value in the table, while the returned record lacks it |
| `AccountResolver.EmptyEmailMatchesAccount` | Classes/Services/OAuth2LoginService.php:187-211 | a concrete case: a profile with an empty e-mail matches an existing account with an empty e-mail, links it to the profile's identifier and returns it, with no insert |
| `LoginService.IsOAuthRedirectRequest` | Classes/Services/OAuth2LoginService.php:146-150 | accepted exactly when the returned state is non-empty and identical to the stored value; never accepted with no stored value |
| `LoginService.Classify` | Classes/Services/OAuth2LoginService.php:76-116 | the branch `getUser` takes: abstain when the status is not `login` or no provider is named, redirect when `state` is empty, process only a state identical to the stored one, mismatch otherwise |
| `LoginService.AuthUser` | Classes/Services/OAuth2LoginService.php:289-302 | 200 exactly when the record's identifier is non-empty, a token is held and the fetched owner is active; the fetch raises only for a linked record; otherwise 100, never another code |
| `LoginService.GetUserSpec` | Classes/Services/OAuth2LoginService.php:74-119 | every call keeps primary keys unique; branches other than an accepted callback leave table and token unchanged; an accepted callback leaves the stored state in place; a redirect is returned exactly on the redirect branch; a returned record comes with a held token (detailed by the lemmas below) |
| `LoginService.NotOAuthAbstains` | Classes/Services/OAuth2LoginService.php:76-83 | a non-login request or one naming no provider returns `null` and changes neither session, table nor token |
| `LoginService.RedirectStoresState` | Classes/Services/OAuth2LoginService.php:86-88 | with an empty `state` the provider's state is stored and a 303 redirect to the authorization URL is returned; the result does not depend on exchange, fetch or store |
| `LoginService.MismatchClearsState` | Classes/Services/OAuth2LoginService.php:114-118 | a rejected state clears the stored state and returns `null`; table and token unchanged; no dependence on exchange, fetch or store |
| `LoginService.NoStoredStateNoCallback` | Classes/Services/OAuth2LoginService.php:146-150 | with no stored state no callback is processed: the table and the token are unchanged and the result is `null` or a redirect |
| `LoginService.ExchangeFailureRejects` | Classes/Services/OAuth2LoginService.php:90-97 | a throwing token exchange returns `false` with nothing changed, whatever the profile fetch would give |
| `LoginService.NotATokenAbstains` | Classes/Services/OAuth2LoginService.php:99-118 | an exchange whose result is not an access token skips the profile fetch and returns `null`; the held token is cleared and the table and session are untouched |
| `LoginService.ProfileFailureRejects` | Classes/Services/OAuth2LoginService.php:99-111 | a throwing profile fetch returns `false`; only the token has been recorded |
| `LoginService.CallbackResolves` | Classes/Services/OAuth2LoginService.php:99-111 | an accepted callback leaves the table as the resolver left it, returns the record exactly when the resolver produced one, and `false` otherwise |
| `LoginService.StoreChangesOnlyOnCallback` | Classes/Services/OAuth2LoginService.php:74-119 | the table changes only through an accepted callback whose exchange, fetch and write all succeed |
| `LoginService.RedirectThenCallback` | Classes/Services/OAuth2LoginService.php:139-150 | after a redirect, a callback carrying the issued (non-empty) state is accepted |
| `LoginService.AcceptedStateIsKept` | Classes/Services/OAuth2LoginService.php:89-113 | an accepted callback leaves the stored state in place, so the same callback is accepted again |
| `LoginService.LoginThenAuth` | Classes/Services/OAuth2LoginService.php:289-302 | a record returned by `getUser` comes with a held token, so `authUser` gives 200 exactly when it is OAuth-linked and the re-fetched owner is active |
| `LoginService.OAuth2LoginService.SendOAuthRedirect` | Classes/Services/OAuth2LoginService.php:139-144 | the session holds the provider's state value and the result is a 303 redirect to the authorization URL |
| `LoginService.OAuth2LoginService.FindOrCreateUserByResourceOwner` | Classes/Services/OAuth2LoginService.php:157-287 | the table after the call and the result are those of `Resolve` on the table before it; keys stay unique |
| `LoginService.OAuth2LoginService.GetUser` | Classes/Services/OAuth2LoginService.php:74-119 | session, table, token and result after the call are those of `GetUserSpec` on the state before it; keys stay unique |

## Left out

- Configuration loading and session setup in `initAuth`: the global extension configuration and `session_start` are framework I/O. The session value is a field of the service object.
- Provider selection: only `gitlab` initialises a resource server. On the redirect branch and the accepted-callback branch, any other non-empty provider name would make PHP call a method on `null`. `ProviderSelected` requires `gitlab` on those two branches only. A mismatching callback never touches the resource server and is modelled for every provider name.
- `HttpUtility::redirect` and `exit`: the redirect is the terminal result `Redirect(url, 303)`.
- SQL construction: the `QueryBuilder`, named parameters and the pid and enable clauses are not modelled. The clauses are the `visible` parameter.
- The UPDATE statement is modelled without the deleted restriction, because query restrictions act on SELECT statements. So a deleted row sharing the key would be overwritten too.
- Token exchange, profile fetch and authorization URL/state: these are given outcomes and values. The `code` parameter is read but not interpreted.
- The resource server's getters and hooks are abstract: `getOAuthIdentifier`, `getUsernameFromUser`, `getEmailFromUser`, `userShouldBeAdmin`, `userExpiresAt`, `userIsActive`, `updateUserRecord`, `loadUserDetails`. `loadUserDetails` is a function from profile to profile and is applied only on the update path, as in the code.
- Exceptions raised by the hooks or getters are not modelled. Only the network calls and store writes (`writeOk`) can fail, and a failing write changes nothing.
- `UserStore.UpdateByUid`: a row is a typed record whose `others` holds the columns the service never names. A hook can leave entries out of `others`, and those keep their stored values, as in the `SET` loop. The named columns, however, can never be left out of the `SET`, because the typed record always carries them.
- The insert takes its `uid` from the auto-increment counter. Any `uid` in the built record is ignored.
- `UserStore.Selects`, `UserStore.FirstIndex`: the `=` comparisons on `oauth_identifier`, `username` and `email` are exact string equality. The database's collation, which under case-insensitive collations ignores case and trailing spaces, is not modelled.
- `UserStore.Selects`, `UserStore.FirstIndex`: the SELECTs have no ORDER BY. The model assumes the store returns rows in one fixed order, the same for every query and every login. The first-match results, and `ReloginKeepsUid` and `IdentifierFindsRow` once duplicate identifiers exist, rest on that order.
- `fetchUserRecord` of the parent pipeline is modelled as "first visible, non-deleted row with that username".
- `time()` is called twice in the code and could cross a second boundary. The model uses one `now`.
- `DateTime->format('U')` is modelled as an integer number of seconds.
- `authUser` with no held token: the owner fetch is called with `null`. Its outcome is the given `owner` value; when that fetch raises, the model returns `Threw`.
- `authUser` is stated over the token the service holds. It is a pure function, not a method of the class.
- Concurrent first logins that could create two rows for one identity are a concurrency concern and are not modelled.
- Clearing the stored state after a successful callback is not modelled, because the code does not do it.
