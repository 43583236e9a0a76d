/**
 * The account resolver (`findOrCreateUserByResourceOwner`) as a function of the
 * table before the call: the two-stage lookup, the record built for a first
 * login, the fields refreshed on a returning login, and the resulting table.
 */
module AccountResolver {
  import opened Wrappers
  import opened UserStore
  import opened Provider

  /** PHP's `(int)` cast of a boolean. */
  function AdminFlag(b: bool): int
  {
    if b then 1 else 0
  }

  /** The `endtime` column: the expiry when the provider gives one, otherwise 0 (no end). */
  function EndTime(p: Profile): int
  {
    if p.expiresAt.Some? then p.expiresAt.value else 0
  }

  /**
   * The two-stage lookup: by `oauth_identifier` first; by username or e-mail only
   * when no selectable row carries the identifier.
   */
  function Match(rows: seq<Record>, visible: Record -> bool, p: Profile): (m: Option<Record>)
    ensures m.Some? ==> m.value in rows && !m.value.deleted && visible(m.value)
    ensures m.Some? ==> || m.value.oauthIdentifier == p.identifier
                        || m.value.username == p.username
                        || m.value.email == p.email
    ensures (exists i :: 0 <= i < |rows| && Selects(visible, ByIdentifier(p.identifier), rows[i])) ==>
              m.Some? && m.value.oauthIdentifier == p.identifier &&
              m == SelectFirst(rows, visible, ByIdentifier(p.identifier))
    ensures (forall i :: 0 <= i < |rows| ==> !Selects(visible, ByIdentifier(p.identifier), rows[i])) ==>
              m == SelectFirst(rows, visible, ByUsernameOrEmail(p.username, p.email))
    ensures m.None? <==> forall i :: 0 <= i < |rows| ==>
              !Selects(visible, ByIdentifier(p.identifier), rows[i]) &&
              !Selects(visible, ByUsernameOrEmail(p.username, p.email), rows[i])
  {
    var byId := SelectFirst(rows, visible, ByIdentifier(p.identifier));
    if byId.Some? then byId
    else SelectFirst(rows, visible, ByUsernameOrEmail(p.username, p.email))
  }

  /**
   * The record a first login builds before `updateUserRecord` sees it; columns the
   * code does not set keep the table defaults.
   */
  function NewRecord(p: Profile, now: int): (r: Record)
    ensures r.crdate == now && r.tstamp == now
    ensures r.admin == AdminFlag(p.shouldBeAdmin) && r.disable == 0 && r.starttime == 0
    ensures r.endtime == EndTime(p) && r.oauthIdentifier == p.identifier && r.password == "invalid"
  {
    Blank.(crdate := now, tstamp := now, admin := AdminFlag(p.shouldBeAdmin), disable := 0,
           starttime := 0, endtime := EndTime(p), oauthIdentifier := p.identifier,
           password := "invalid")
  }

  /**
   * The matched row after `array_merge` with the refreshed columns: admin, disable,
   * starttime, endtime and oauth_identifier are overwritten, every other column kept.
   */
  function Refreshed(m: Record, p: Profile): (r: Record)
    ensures r.admin == AdminFlag(p.shouldBeAdmin) && r.disable == 0 && r.starttime == 0
    ensures r.endtime == EndTime(p) && r.oauthIdentifier == p.identifier
    ensures r.uid == m.uid && r.username == m.username && r.email == m.email
    ensures r.password == m.password && r.crdate == m.crdate && r.tstamp == m.tstamp
    ensures r.deleted == m.deleted && r.others == m.others
  {
    m.(admin := AdminFlag(p.shouldBeAdmin), disable := 0, starttime := 0,
       endtime := EndTime(p), oauthIdentifier := p.identifier)
  }

  /** What the resolver hands back: a record or `null`, or an exception from a store write. */
  datatype Resolution = Resolved(record: Option<Record>) | Raised

  /**
   * The table after the call and the resolver's result. `writeOk` says whether the
   * store's insert or update succeeds; a failing write leaves the table as it was.
   */
  function Resolve(s: Store, p: Profile, hooks: Hooks, visible: Record -> bool, now: int, writeOk: bool)
    : (r: (Store, Resolution))
    ensures ValidStore(s) ==> ValidStore(r.0)
    ensures !writeOk ==> r == (s, Raised)
    ensures writeOk && Match(s.rows, visible, p).None? ==>
              |r.0.rows| == |s.rows| + 1 && r.0.rows[..|s.rows|] == s.rows && r.1.Resolved?
    ensures writeOk && Match(s.rows, visible, p).Some? ==>
              |r.0.rows| == |s.rows| && r.0.nextUid == s.nextUid && r.1.Resolved? && r.1.record.Some?
  {
    match Match(s.rows, visible, p)
    case None =>
      var rec := hooks.updateUserRecord(p, NewRecord(p, now));
      if !writeOk then (s, Raised)
      else
        var t := Insert(s, rec);
        (t, Resolved(FetchUserRecord(t.rows, visible, p.username)))
    case Some(m) =>
      var q := hooks.loadUserDetails(p);
      var rec := hooks.updateUserRecord(q, Refreshed(m, q));
      if !writeOk then (s, Raised)
      else (Store(UpdateByUid(s.rows, rec), s.nextUid), Resolved(Some(rec)))
  }

  /**
   * First login: exactly one row is inserted, under the next key, holding what
   * `updateUserRecord` made of the freshly built record; the result is the
   * store's refetch by username.
   */
  lemma CreatePath(s: Store, p: Profile, hooks: Hooks, visible: Record -> bool, now: int)
    requires forall i :: 0 <= i < |s.rows| ==>
               !Selects(visible, ByIdentifier(p.identifier), s.rows[i]) &&
               !Selects(visible, ByUsernameOrEmail(p.username, p.email), s.rows[i])
    ensures var (t, res) := Resolve(s, p, hooks, visible, now, true);
            && |t.rows| == |s.rows| + 1
            && t.rows[..|s.rows|] == s.rows
            && t.nextUid == s.nextUid + 1
            && t.rows[|s.rows|] == hooks.updateUserRecord(p, NewRecord(p, now)).(uid := s.nextUid)
            && res == Resolved(FetchUserRecord(t.rows, visible, p.username))
  {
  }

  /**
   * The refetch after a first login returns the inserted row exactly when the
   * hook left it selectable under the username, since no earlier row can then
   * carry that username.
   */
  lemma FirstLoginReturnsInserted(s: Store, p: Profile, hooks: Hooks, visible: Record -> bool, now: int)
    requires forall i :: 0 <= i < |s.rows| ==>
               !Selects(visible, ByIdentifier(p.identifier), s.rows[i]) &&
               !Selects(visible, ByUsernameOrEmail(p.username, p.email), s.rows[i])
    ensures var (t, res) := Resolve(s, p, hooks, visible, now, true);
            var inserted := t.rows[|s.rows|];
            res == Resolved(Some(inserted)) <==> Selects(visible, ByUsername(p.username), inserted)
  {
  }

  /**
   * Returning login: no row is inserted, the key counter is unchanged, the hook sees
   * the matched row with only the five refreshed columns changed, and the row with
   * the merged record's key is written with every column of it.
   */
  lemma UpdatePath(s: Store, p: Profile, hooks: Hooks, visible: Record -> bool, now: int, m: Record)
    requires Match(s.rows, visible, p) == Some(m)
    ensures var q := hooks.loadUserDetails(p);
            var rec := hooks.updateUserRecord(q, Refreshed(m, q));
            var (t, res) := Resolve(s, p, hooks, visible, now, true);
            && |t.rows| == |s.rows|
            && t.nextUid == s.nextUid
            && (forall i :: 0 <= i < |s.rows| ==> t.rows[i] == if s.rows[i].uid == rec.uid then Written(s.rows[i], rec) else s.rows[i])
            && res == Resolved(Some(rec))
  {
  }

  /**
   * When `updateUserRecord` keeps the primary key, a returning login writes
   * exactly the matched row, in place, and returns a record under the same key.
   */
  lemma UpdateKeepsUid(s: Store, p: Profile, hooks: Hooks, visible: Record -> bool, now: int, k: nat)
    requires ValidStore(s)
    requires k < |s.rows| && Match(s.rows, visible, p) == Some(s.rows[k])
    requires var q := hooks.loadUserDetails(p);
             hooks.updateUserRecord(q, Refreshed(s.rows[k], q)).uid == s.rows[k].uid
    ensures var q := hooks.loadUserDetails(p);
            var rec := hooks.updateUserRecord(q, Refreshed(s.rows[k], q));
            var (t, res) := Resolve(s, p, hooks, visible, now, true);
            && t.rows == s.rows[k := Written(s.rows[k], rec)]
            && res.Resolved? && res.record.Some? && res.record.value.uid == s.rows[k].uid
  {
  }

  /** No row before position k in the table carries the profile's identifier when the match sits at k. */
  lemma NoEarlierIdentifier(s: Store, visible: Record -> bool, p: Profile, k: nat, j: nat)
    requires ValidStore(s)
    requires k < |s.rows| && Match(s.rows, visible, p) == Some(s.rows[k]) && j < k
    ensures !Selects(visible, ByIdentifier(p.identifier), s.rows[j])
  {
  }

  /** The identifier lookup on a table finds row k when row k is the first row carrying the identifier. */
  lemma IdentifierFindsRow(rows: seq<Record>, visible: Record -> bool, p: Profile, k: nat)
    requires k < |rows| && Selects(visible, ByIdentifier(p.identifier), rows[k])
    requires forall j :: 0 <= j < k ==> !Selects(visible, ByIdentifier(p.identifier), rows[j])
    ensures Match(rows, visible, p) == Some(rows[k])
  {
  }

  /**
   * A returning login converges: when the hooks keep the identifier, the key and the
   * row selectable, logging in again with the same profile resolves to the same key.
   */
  lemma ReloginKeepsUid(s: Store, p: Profile, hooks: Hooks, visible: Record -> bool,
                          now: int, later: int, k: nat)
    requires ValidStore(s)
    requires k < |s.rows| && Match(s.rows, visible, p) == Some(s.rows[k])
    requires hooks.loadUserDetails(p).identifier == p.identifier
    requires var q := hooks.loadUserDetails(p);
             var rec := hooks.updateUserRecord(q, Refreshed(s.rows[k], q));
             var stored := Written(s.rows[k], rec);
             && rec.uid == s.rows[k].uid
             && Selects(visible, ByIdentifier(p.identifier), stored)
             && hooks.updateUserRecord(q, Refreshed(stored, q)).uid == rec.uid
    ensures var (t, first) := Resolve(s, p, hooks, visible, now, true);
            var (_, second) := Resolve(t, p, hooks, visible, later, true);
            && first.Resolved? && first.record.Some?
            && second.Resolved? && second.record.Some?
            && first.record.value.uid == second.record.value.uid == s.rows[k].uid
  {
    var q := hooks.loadUserDetails(p);
    var rec := hooks.updateUserRecord(q, Refreshed(s.rows[k], q));
    UpdateKeepsUid(s, p, hooks, visible, now, k);
    var t := Resolve(s, p, hooks, visible, now, true).0;
    assert t.rows == s.rows[k := Written(s.rows[k], rec)];
    forall j | 0 <= j < k ensures !Selects(visible, ByIdentifier(p.identifier), t.rows[j]) {
      NoEarlierIdentifier(s, visible, p, k, j);
    }
    IdentifierFindsRow(t.rows, visible, p, k);
  }

  /**
   * A first login followed by a second one with the same profile resolves to the
   * inserted row, when the hooks keep it selectable by identifier and keep its key.
   */
  lemma FirstLoginThenRelogin(s: Store, p: Profile, hooks: Hooks, visible: Record -> bool,
                          now: int, later: int)
    requires Match(s.rows, visible, p).None?
    requires var t := Resolve(s, p, hooks, visible, now, true).0;
             var q := hooks.loadUserDetails(p);
             && Selects(visible, ByIdentifier(p.identifier), t.rows[|s.rows|])
             && hooks.updateUserRecord(q, Refreshed(t.rows[|s.rows|], q)).uid == s.nextUid
    ensures var (t, _) := Resolve(s, p, hooks, visible, now, true);
            var (u, second) := Resolve(t, p, hooks, visible, later, true);
            && second.Resolved? && second.record.Some? && second.record.value.uid == s.nextUid
            && |u.rows| == |t.rows| == |s.rows| + 1
  {
  }

  /**
   * The lookups see only visible, non-deleted rows, so an account that carries the
   * identifier but is hidden by the pid or enable clauses is not matched: a first-login
   * row is inserted beside it and the table then holds two rows with that identifier.
   */
  lemma HiddenAccountGetsSecondRow(s: Store, p: Profile, hooks: Hooks, visible: Record -> bool, now: int, k: nat)
    requires k < |s.rows| && s.rows[k].oauthIdentifier == p.identifier
    requires Match(s.rows, visible, p).None?
    requires hooks.updateUserRecord(p, NewRecord(p, now)).oauthIdentifier == p.identifier
    ensures var t := Resolve(s, p, hooks, visible, now, true).0;
            && k < |s.rows| < |t.rows|
            && t.rows[k] == s.rows[k]
            && t.rows[k].oauthIdentifier == p.identifier
            && t.rows[|s.rows|].oauthIdentifier == p.identifier
  {
  }

  /**
   * An instance: a disabled account (hidden by an enable clause that requires
   * `disable == 0`) is not re-enabled; a second row with its identifier is inserted.
   */
  lemma DisabledAccountGetsSecondRow()
    ensures var linked := Blank.(uid := 1, username := "u", oauthIdentifier := "gitlab|7", disable := 1);
            var p := Profile("gitlab|7", "u", "u@example.org", false, None, true);
            var hooks := Hooks((q: Profile, r: Record) => r, (q: Profile) => q);
            var t := Resolve(Store([linked], 2), p, hooks, (r: Record) => r.disable == 0, 0, true).0;
            && |t.rows| == 2
            && t.rows[0] == linked
            && t.rows[1].uid == 2 && t.rows[1].oauthIdentifier == "gitlab|7" && t.rows[1].disable == 0
  {
  }

  /**
   * An instance: a column that `updateUserRecord` leaves out of the merged record is
   * not in the `SET`, so the stored row keeps its value.
   */
  lemma DroppedColumnKept()
    ensures var linked := Blank.(uid := 1, username := "u", oauthIdentifier := "gitlab|7", others := map["lang" := "de"]);
            var p := Profile("gitlab|7", "u", "u@example.org", false, None, true);
            var hooks := Hooks((q: Profile, r: Record) => r.(others := map[]), (q: Profile) => q);
            var (t, res) := Resolve(Store([linked], 2), p, hooks, (r: Record) => true, 0, true);
            && |t.rows| == 1
            && "lang" in t.rows[0].others && t.rows[0].others["lang"] == "de"
            && res.Resolved? && res.record.Some? && "lang" !in res.record.value.others
  {
  }

  /**
   * An instance: the username-or-email lookup compares with `=`, so a profile with an
   * empty e-mail matches the first visible account whose e-mail is empty; that account
   * is then linked to the profile's identifier and returned, and nothing is inserted.
   */
  lemma EmptyEmailMatchesAccount()
    ensures var account := Blank.(uid := 1, username := "admin", admin := 1);
            var p := Profile("gitlab|9", "newcomer", "", false, None, true);
            var hooks := Hooks((q: Profile, r: Record) => r, (q: Profile) => q);
            var (t, res) := Resolve(Store([account], 2), p, hooks, (r: Record) => true, 0, true);
            && |t.rows| == 1
            && t.rows[0].uid == 1 && t.rows[0].oauthIdentifier == "gitlab|9" && t.rows[0].username == "admin"
            && res.Resolved? && res.record.Some? && res.record.value.uid == 1
  {
  }
}
