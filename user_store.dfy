/**
 * The persisted user table that the login service reads and writes: rows in the
 * store's natural order, an auto-increment primary key, the two lookups the
 * resolver issues, the insert, the update keyed by `uid`, and the parent
 * pipeline's refetch of a record by username.
 *
 * The TYPO3 `check_pid_clause` and `enable_clause` SQL fragments are foreign to
 * the service; they are the `visible` predicate, a parameter of every query.
 * The `DeletedRestriction` is the explicit `deleted` column.
 */
module UserStore {
  import opened Wrappers

  /** One row of the user table. `others` holds every column the service never names. */
  datatype Record = Record(
    uid: int,
    username: string,
    email: string,
    password: string,
    oauthIdentifier: string,
    admin: int,
    disable: int,
    starttime: int,
    endtime: int,
    crdate: int,
    tstamp: int,
    deleted: bool,
    others: map<string, string>)

  /** The values a column takes when an insert does not set it (the table defaults). */
  const Blank: Record := Record(0, "", "", "", "", 0, 0, 0, 0, 0, 0, false, map[])

  /** The table: its rows in natural order and the next auto-increment key. */
  datatype Store = Store(rows: seq<Record>, nextUid: int)

  /** Primary keys are unique and all below the auto-increment counter. */
  predicate ValidStore(s: Store)
  {
    && (forall i :: 0 <= i < |s.rows| ==> s.rows[i].uid < s.nextUid)
    && (forall i, j :: 0 <= i < j < |s.rows| ==> s.rows[i].uid != s.rows[j].uid)
  }

  /** The WHERE conditions of the three queries against the table. */
  datatype Query =
    | ByIdentifier(identifier: string)
    | ByUsernameOrEmail(username: string, email: string)
    | ByUsername(name: string)

  /** A row is selected when it is not deleted, passes the pid and enable clauses and meets the condition. */
  predicate Selects(visible: Record -> bool, q: Query, r: Record)
  {
    && !r.deleted
    && visible(r)
    && match q
       case ByIdentifier(id) => r.oauthIdentifier == id
       case ByUsernameOrEmail(u, e) => r.username == u || r.email == e
       case ByUsername(u) => r.username == u
  }

  /** Position of the first row, in natural order, that the query selects. */
  function FirstIndex(rows: seq<Record>, visible: Record -> bool, q: Query): (k: Option<nat>)
    ensures k.Some? ==> k.value < |rows| && Selects(visible, q, rows[k.value])
    ensures k.Some? ==> forall j :: 0 <= j < k.value ==> !Selects(visible, q, rows[j])
    ensures k.None? ==> forall j :: 0 <= j < |rows| ==> !Selects(visible, q, rows[j])
  {
    if rows == [] then None
    else if Selects(visible, q, rows[0]) then Some(0)
    else
      match FirstIndex(rows[1..], visible, q)
      case None => None
      case Some(k) => Some(k + 1)
  }

  /** `SELECT * ... ->fetch()`: the first selected row, or nothing. */
  function SelectFirst(rows: seq<Record>, visible: Record -> bool, q: Query): (r: Option<Record>)
    ensures r.Some? ==> r.value in rows && Selects(visible, q, r.value)
    ensures r.None? <==> forall j :: 0 <= j < |rows| ==> !Selects(visible, q, rows[j])
    ensures r.Some? ==> exists k :: 0 <= k < |rows| && rows[k] == r.value &&
                          forall j :: 0 <= j < k ==> !Selects(visible, q, rows[j])
  {
    match FirstIndex(rows, visible, q)
    case None => None
    case Some(k) => Some(rows[k])
  }

  /** The parent pipeline's `fetchUserRecord`: first visible, non-deleted row with that username. */
  function FetchUserRecord(rows: seq<Record>, visible: Record -> bool, username: string): (r: Option<Record>)
    ensures r.Some? ==> r.value in rows && r.value.username == username && !r.value.deleted && visible(r.value)
    ensures r.None? <==> forall j :: 0 <= j < |rows| ==> !Selects(visible, ByUsername(username), rows[j])
    ensures r.Some? ==> exists k :: 0 <= k < |rows| && rows[k] == r.value &&
                          forall j :: 0 <= j < k ==> !Selects(visible, ByUsername(username), rows[j])
  {
    SelectFirst(rows, visible, ByUsername(username))
  }

  /** INSERT: the row is appended under the next auto-increment key; earlier rows are untouched. */
  function Insert(s: Store, rec: Record): (t: Store)
    ensures |t.rows| == |s.rows| + 1 && t.rows[..|s.rows|] == s.rows
    ensures t.rows[|s.rows|].uid == s.nextUid && t.rows[|s.rows|].(uid := rec.uid) == rec
    ensures ValidStore(s) ==> ValidStore(t) && forall j :: 0 <= j < |s.rows| ==> s.rows[j].uid != t.rows[|s.rows|].uid
  {
    Store(s.rows + [rec.(uid := s.nextUid)], s.nextUid + 1)
  }

  /**
   * A stored row after `SET` of every column present in rec: the named columns take
   * rec's values; among the other columns, those rec carries are overwritten and
   * those it leaves out keep their stored values.
   */
  function Written(stored: Record, rec: Record): (w: Record)
    ensures w.(others := rec.others) == rec
    ensures w.others.Keys == stored.others.Keys + rec.others.Keys
    ensures forall c :: c in rec.others ==> w.others[c] == rec.others[c]
    ensures forall c :: c in stored.others && c !in rec.others ==> w.others[c] == stored.others[c]
  {
    rec.(others := stored.others + rec.others)
  }

  /**
   * UPDATE ... SET <every column of rec> WHERE uid = rec.uid: every row with that key
   * is written with rec, every other row is kept, and no key changes.
   */
  function UpdateByUid(rows: seq<Record>, rec: Record): (r: seq<Record>)
    ensures |r| == |rows|
    ensures forall i :: 0 <= i < |rows| ==> r[i] == if rows[i].uid == rec.uid then Written(rows[i], rec) else rows[i]
    ensures forall i :: 0 <= i < |rows| ==> r[i].uid == rows[i].uid
  {
    if rows == [] then []
    else [if rows[0].uid == rec.uid then Written(rows[0], rec) else rows[0]] + UpdateByUid(rows[1..], rec)
  }

  /** An update keyed by `uid` keeps the table valid and never adds or removes a row. */
  lemma UpdateKeepsValid(s: Store, rec: Record)
    requires ValidStore(s)
    ensures ValidStore(Store(UpdateByUid(s.rows, rec), s.nextUid))
  {
  }

  /**
   * When keys are unique and row k carries rec's key, the update writes exactly row k.
   */
  lemma UpdateReplacesOneRow(rows: seq<Record>, rec: Record, k: nat)
    requires k < |rows| && rows[k].uid == rec.uid
    requires forall i, j :: 0 <= i < j < |rows| ==> rows[i].uid != rows[j].uid
    ensures UpdateByUid(rows, rec) == rows[k := Written(rows[k], rec)]
  {
  }
}
