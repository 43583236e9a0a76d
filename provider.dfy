/**
 * What the OAuth2 provider and the resource server contribute: the fetched
 * profile (resource owner), the outcomes of the two network calls, and the
 * provider-specific hooks the service calls without knowing their rules.
 */
module Provider {
  import opened Wrappers
  import opened UserStore

  /**
   * The resource server's view of a resource owner: `getOAuthIdentifier`,
   * `getUsernameFromUser`, `getEmailFromUser`, `userShouldBeAdmin`,
   * `userExpiresAt` (seconds since the epoch) and `userIsActive`.
   */
  datatype Profile = Profile(
    identifier: string,
    username: string,
    email: string,
    shouldBeAdmin: bool,
    expiresAt: Option<int>,
    isActive: bool)

  datatype AccessToken = AccessToken(value: string)

  /** Outcome of `getAccessToken('authorization_code', ...)`. */
  datatype Exchange =
    | Granted(token: AccessToken)
    | NotAToken       // returned something that is not an AccessToken
    | ExchangeThrew

  /** Outcome of `getResourceOwner(token)`. */
  datatype OwnerFetch = Fetched(profile: Profile) | OwnerThrew

  /**
   * Provider-specific hooks: `updateUserRecord` maps provider data into the row,
   * `loadUserDetails` loads further details the other getters then see.
   */
  datatype Hooks = Hooks(
    updateUserRecord: (Profile, Record) -> Record,
    loadUserDetails: Profile -> Profile)
}
