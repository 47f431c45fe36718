/** The persistence layer: the users table with partial update, the
    per-repository cursor store with upsert, and the sent-notifications
    ledger with insert-or-ignore. Each SQL table is a map keyed by its
    primary key, held by the repository object that writes it; the clock
    reading stored in timestamp columns is a parameter `now`. */
module Repositories {
  import opened Wrappers
  import opened Text
  import opened Models

  // ------------------------------------------------------ CSV columns

  /** No surrounding whitespace. */
  predicate Trimmed(s: string) {
    s == [] || (!IsSpace(s[0]) && !IsSpace(s[|s| - 1]))
  }

  /** `[s.strip() for s in items if s and s.strip()]`: the non-blank items,
      stripped. */
  function Kept(items: seq<string>): (r: seq<string>)
    ensures |r| <= |items|
    ensures forall w :: w in r ==> w != "" && Trimmed(w)
  {
    if items == [] then []
    else if Strip(items[0]) != "" then [Strip(items[0])] + Kept(items[1..])
    else Kept(items[1..])
  }

  /** Every non-blank item survives, stripped. */
  lemma KeptComplete(items: seq<string>, k: int)
    requires 0 <= k < |items| && Strip(items[k]) != ""
    ensures Strip(items[k]) in Kept(items)
  {
    KeptKeeps(items, items[k], k);
  }

  /** The same, for the item `x` at position `k`. */
  lemma {:induction false} KeptKeeps(items: seq<string>, x: string, k: int)
    requires 0 <= k < |items| && items[k] == x && Strip(x) != ""
    ensures Strip(x) in Kept(items)
    decreases |items|
  {
    if k == 0 {
      KeptKeepsHead(items);
    } else {
      KeptKeeps(items[1..], x, k - 1);
      KeptKeepsTail(items, Strip(x));
    }
  }

  /** A non-blank first item survives, stripped. */
  lemma KeptKeepsHead(items: seq<string>)
    requires items != [] && Strip(items[0]) != ""
    ensures Strip(items[0]) in Kept(items)
  {
    assert Kept(items) == [Strip(items[0])] + Kept(items[1..]);
  }

  /** What survives of the tail survives of the whole list. */
  lemma KeptKeepsTail(items: seq<string>, x: string)
    requires items != [] && x in Kept(items[1..])
    ensures x in Kept(items)
  {
    var rest := Kept(items[1..]);
    if Strip(items[0]) != "" {
      assert Kept(items) == [Strip(items[0])] + rest;
    }
  }

  lemma TrimmedFixed(s: string)
    requires Trimmed(s)
    ensures Strip(s) == s
  {
    LStripNoLead(s);
    RStripNoTrail(s);
  }

  /** `_list_to_csv` */
  function ListToCsv(items: seq<string>): (r: string)
    ensures Kept(items) == [] ==> r == ""
    ensures (forall k :: 0 <= k < |items| ==> ',' !in items[k]) && Kept(items) != [] ==>
              SplitOn(r, ',') == Kept(items)
  {
    var ks := Kept(items);
    if ks != [] && forall k :: 0 <= k < |items| ==> ',' !in items[k] then
      KeptKeepsOut(items, ',');
      SplitOnJoin(ks, ',');
      Join(ks, ",")
    else
      Join(ks, ",")
  }

  /** `_csv_to_list`; a NULL column reads as the empty text. */
  function CsvToList(s: Option<string>): (r: seq<string>)
    ensures forall w :: w in r ==> w != "" && Trimmed(w)
  {
    var text := if s.Some? then s.value else "";
    Kept(SplitOn(text, ','))
  }

  /** A NULL or empty column reads as the empty list. */
  lemma CsvToListOfNothing()
    ensures CsvToList(None) == [] && CsvToList(Some("")) == []
  {
    assert SplitOn("", ',') == [""];
  }

  /** Stripping keeps a character-free text free of that character. */
  lemma StripKeepsOut(s: string, c: char)
    requires c !in s
    ensures c !in Strip(s)
  {
    var l := LStrip(s);
    SliceKeepsOut(s, |s| - |l|, |s|, c);
    var r := RStrip(l);
    assert r == l[..|r|];
    SliceKeepsOut(l, 0, |r|, c);
  }

  /** A slice of a text without `c` is without `c`. */
  lemma SliceKeepsOut(s: string, i: int, j: int, c: char)
    requires 0 <= i <= j <= |s| && c !in s
    ensures c !in s[i..j]
  {
    forall k | 0 <= k < j - i ensures s[i..j][k] != c {
      assert s[i..j][k] == s[i + k];
    }
  }

  lemma {:induction false} KeptKeepsOut(items: seq<string>, c: char)
    requires forall k :: 0 <= k < |items| ==> c !in items[k]
    ensures forall k :: 0 <= k < |Kept(items)| ==> c !in Kept(items)[k]
    decreases |items|
  {
    if items != [] {
      forall k | 0 <= k < |items| - 1 ensures c !in items[1..][k] {
        assert items[1..][k] == items[k + 1];
      }
      KeptKeepsOut(items[1..], c);
      StripKeepsOut(items[0], c);
      var rest := Kept(items[1..]);
      if Strip(items[0]) != "" {
        assert Kept(items) == [Strip(items[0])] + rest;
      }
    }
  }

  lemma {:induction false} KeptIdempotent(items: seq<string>)
    ensures Kept(Kept(items)) == Kept(items)
    decreases |items|
  {
    if items != [] {
      KeptIdempotent(items[1..]);
      if Strip(items[0]) != "" {
        var r := Kept(items);
        TrimmedFixed(r[0]);
        assert r[1..] == Kept(items[1..]);
      }
    }
  }

  /** Writing a list of comma-free items and reading it back gives the items
      stripped, with the empty and blank ones dropped. */
  lemma CsvRoundTrip(items: seq<string>)
    requires forall k :: 0 <= k < |items| ==> ',' !in items[k]
    ensures CsvToList(Some(ListToCsv(items))) == Kept(items)
  {
    var ks := Kept(items);
    if ks == [] {
      assert SplitOn("", ',') == [""];
      assert Strip("") == "";
    } else {
      KeptKeepsOut(items, ',');
      SplitOnJoin(ks, ',');
      KeptIdempotent(items);
    }
  }

  // ------------------------------------------------------- users table

  /** A row of `users`; flag columns are SQLite integers. */
  datatype UserRow = UserRow(
    id: string,
    email: Option<string>,
    phone: Option<string>,
    is_verified: int,
    notify_email: int,
    notify_sms: int,
    subscribe_new_grad: int,
    subscribe_internship: int,
    receive_all: int,
    tech_keywords: string,
    role_keywords: string,
    location_keywords: string,
    created_at: string,
    updated_at: string)

  /** What `get_user` returns: `is_verified` is the stored integer. */
  datatype UserRecord = UserRecord(
    id: string,
    email: Option<string>,
    phone: Option<string>,
    is_verified: int,
    created_at: string,
    updated_at: string,
    prefs: UserPreferences)

  /** Python's `int(b)` for a bool. */
  function Flag(b: bool): (i: int)
    ensures (i != 0) == b && 0 <= i <= 1
  {
    if b then 1 else 0
  }

  /** The row `create_user` inserts; `notify_*` take their column default. */
  function NewRow(id: string, email: Option<string>, phone: Option<string>, isVerified: bool,
                  prefs: UserPreferences, now: string): UserRow {
    UserRow(id, email, phone, Flag(isVerified), 0, 0,
      Flag(prefs.subscribe_new_grad), Flag(prefs.subscribe_internship), Flag(prefs.receive_all),
      ListToCsv(prefs.tech_keywords), ListToCsv(prefs.role_keywords), ListToCsv(prefs.location_keywords),
      now, now)
  }

  /** The preferences a row stores, read back. */
  function RowPrefs(row: UserRow): UserPreferences {
    UserPreferences(
      row.subscribe_new_grad != 0, row.subscribe_internship != 0, row.receive_all != 0,
      CsvToList(Some(row.tech_keywords)), CsvToList(Some(row.role_keywords)),
      CsvToList(Some(row.location_keywords)))
  }

  /** The row after `update_user`: each argument that is not None
      overwrites its columns, and `updated_at` is always set. */
  function Updated(row: UserRow, email: Option<string>, phone: Option<string>, isVerified: Option<bool>,
                   prefs: Option<UserPreferences>, now: string): UserRow {
    var r1 := if email.Some? then row.(email := email) else row;
    var r2 := if phone.Some? then r1.(phone := phone) else r1;
    var r3 := if isVerified.Some? then r2.(is_verified := Flag(isVerified.value)) else r2;
    var r4 := if prefs.Some? then PrefsWritten(r3, prefs.value) else r3;
    r4.(updated_at := now)
  }

  /** The six preference columns set from a preference record. */
  function PrefsWritten(row: UserRow, p: UserPreferences): UserRow {
    row.(subscribe_new_grad := Flag(p.subscribe_new_grad),
         subscribe_internship := Flag(p.subscribe_internship),
         receive_all := Flag(p.receive_all),
         tech_keywords := ListToCsv(p.tech_keywords),
         role_keywords := ListToCsv(p.role_keywords),
         location_keywords := ListToCsv(p.location_keywords))
  }

  /** A partial update: an argument passed as None leaves its column as it
      was, preferences replace all six preference columns, `updated_at` is
      always refreshed, and id, `created_at` and the notify flags never move. */
  lemma UpdatedRow(row: UserRow, email: Option<string>, phone: Option<string>, isVerified: Option<bool>,
                   prefs: Option<UserPreferences>, now: string)
    ensures var r := Updated(row, email, phone, isVerified, prefs, now);
      && r.id == row.id && r.created_at == row.created_at && r.updated_at == now
      && r.notify_email == row.notify_email && r.notify_sms == row.notify_sms
      && r.email == (if email.Some? then email else row.email)
      && r.phone == (if phone.Some? then phone else row.phone)
      && (r.is_verified != 0) == (if isVerified.Some? then isVerified.value else row.is_verified != 0)
      && (prefs.None? ==> RowPrefs(r) == RowPrefs(row))
      && (prefs.Some? ==>
            && (r.subscribe_new_grad != 0) == prefs.value.subscribe_new_grad
            && (r.subscribe_internship != 0) == prefs.value.subscribe_internship
            && (r.receive_all != 0) == prefs.value.receive_all
            && r.tech_keywords == ListToCsv(prefs.value.tech_keywords)
            && r.role_keywords == ListToCsv(prefs.value.role_keywords)
            && r.location_keywords == ListToCsv(prefs.value.location_keywords))
  {
  }

  /** Preferences written by an update read back as the given ones, up to
      the CSV encoding: stripped, with blank keywords dropped. */
  lemma UpdatedPrefsReadBack(row: UserRow, email: Option<string>, phone: Option<string>, isVerified: Option<bool>,
                             p: UserPreferences, now: string)
    requires forall k :: 0 <= k < |p.tech_keywords| ==> ',' !in p.tech_keywords[k]
    requires forall k :: 0 <= k < |p.role_keywords| ==> ',' !in p.role_keywords[k]
    requires forall k :: 0 <= k < |p.location_keywords| ==> ',' !in p.location_keywords[k]
    ensures RowPrefs(Updated(row, email, phone, isVerified, Some(p), now))
         == p.(tech_keywords := Kept(p.tech_keywords), role_keywords := Kept(p.role_keywords),
               location_keywords := Kept(p.location_keywords))
  {
    CsvRoundTrip(p.tech_keywords);
    CsvRoundTrip(p.role_keywords);
    CsvRoundTrip(p.location_keywords);
  }

  /** Identifiers and rows agree: the primary key of `users`. */
  ghost predicate KeyedRows(users: map<string, UserRow>) {
    forall id :: id in users ==> users[id].id == id
  }

  datatype DbError = DuplicateKey(id: string)

  class UserRepository {
    var users: map<string, UserRow>

    ghost predicate Valid()
      reads this
    {
      KeyedRows(users)
    }

    constructor ()
      ensures users == map[] && Valid()
    {
      users := map[];
    }

    /** `create_user`: a second row with the same id violates the key. */
    method CreateUser(userId: string, email: Option<string>, phone: Option<string>, isVerified: bool,
                      prefs: UserPreferences, now: string) returns (r: Result<(), DbError>)
      requires Valid()
      modifies this
      ensures Valid()
      ensures old(userId in users) ==> r == Err(DuplicateKey(userId)) && users == old(users)
      ensures old(userId !in users) ==> r.Ok? && users == old(users)[userId := NewRow(userId, email, phone, isVerified, prefs, now)]
    {
      if userId in users {
        return Err(DuplicateKey(userId));
      }
      users := users[userId := NewRow(userId, email, phone, isVerified, prefs, now)];
      r := Ok(());
    }

    /** `get_user` */
    function GetUser(userId: string): (r: Option<UserRecord>)
      reads this
      ensures userId !in users <==> r.None?
      ensures r.Some? ==> var row := users[userId];
        && r.value.id == row.id && r.value.email == row.email && r.value.phone == row.phone
        && r.value.is_verified == row.is_verified
        && r.value.created_at == row.created_at && r.value.updated_at == row.updated_at
        && r.value.prefs == RowPrefs(row)
      ensures r.Some? && Valid() ==> r.value.id == userId
    {
      if userId !in users then None
      else
        var row := users[userId];
        Some(UserRecord(row.id, row.email, row.phone, row.is_verified, row.created_at, row.updated_at, RowPrefs(row)))
    }

    /** A user as `create_user` stored it reads back with its own id,
        contact fields and flag, both timestamps equal to the creation
        time, and the preferences up to the CSV encoding. */
    lemma CreatedReadsBack(userId: string, email: Option<string>, phone: Option<string>, isVerified: bool,
                           prefs: UserPreferences, now: string)
      requires userId in users && users[userId] == NewRow(userId, email, phone, isVerified, prefs, now)
      requires forall k :: 0 <= k < |prefs.tech_keywords| ==> ',' !in prefs.tech_keywords[k]
      requires forall k :: 0 <= k < |prefs.role_keywords| ==> ',' !in prefs.role_keywords[k]
      requires forall k :: 0 <= k < |prefs.location_keywords| ==> ',' !in prefs.location_keywords[k]
      ensures GetUser(userId)
           == Some(UserRecord(userId, email, phone, Flag(isVerified), now, now,
                              prefs.(tech_keywords := Kept(prefs.tech_keywords),
                                     role_keywords := Kept(prefs.role_keywords),
                                     location_keywords := Kept(prefs.location_keywords))))
    {
      CsvRoundTrip(prefs.tech_keywords);
      CsvRoundTrip(prefs.role_keywords);
      CsvRoundTrip(prefs.location_keywords);
    }

    /** `update_user`: the row is rewritten column by column from the
        arguments that are not None; an unknown id matches no row. */
    method UpdateUser(userId: string, email: Option<string>, phone: Option<string>, isVerified: Option<bool>,
                      prefs: Option<UserPreferences>, now: string)
      requires Valid()
      modifies this
      ensures Valid()
      ensures userId !in old(users) ==> users == old(users)
      ensures userId in old(users) ==>
        users == old(users)[userId := Updated(old(users)[userId], email, phone, isVerified, prefs, now)]
    {
      if userId in users {
        var row := users[userId];
        if email.Some? {
          row := row.(email := email);
        }
        if phone.Some? {
          row := row.(phone := phone);
        }
        if isVerified.Some? {
          row := row.(is_verified := Flag(isVerified.value));
        }
        if prefs.Some? {
          var p := prefs.value;
          row := row.(subscribe_new_grad := Flag(p.subscribe_new_grad),
                      subscribe_internship := Flag(p.subscribe_internship),
                      receive_all := Flag(p.receive_all),
                      tech_keywords := ListToCsv(p.tech_keywords),
                      role_keywords := ListToCsv(p.role_keywords),
                      location_keywords := ListToCsv(p.location_keywords));
        }
        row := row.(updated_at := now);
        users := users[userId := row];
      }
    }
  }

  // ------------------------------------------------- repository cursors

  datatype RepoState = RepoState(last_sha: string, updated_at: string)

  /** `upsert_last_sha` on the table: insert, or overwrite on conflict. */
  function Upserted(rows: map<string, RepoState>, repo: string, sha: string, now: string): (r: map<string, RepoState>)
    ensures repo in r && r[repo].last_sha == sha
    ensures forall other :: other != repo ==> (other in r <==> other in rows)
    ensures forall other :: other != repo && other in rows ==> r[other] == rows[other]
  {
    rows[repo := RepoState(sha, now)]
  }

  /** The last write wins. */
  lemma UpsertLastWins(rows: map<string, RepoState>, repo: string, s1: string, t1: string, s2: string, t2: string)
    ensures Upserted(Upserted(rows, repo, s1, t1), repo, s2, t2) == Upserted(rows, repo, s2, t2)
  {
  }

  class RepoStateRepository {
    var rows: map<string, RepoState>

    constructor ()
      ensures rows == map[]
    {
      rows := map[];
    }

    /** `get_last_sha` */
    function GetLastSha(repo: string): (r: Option<string>)
      reads this
      ensures repo !in rows <==> r.None?
      ensures r.Some? ==> r.value == rows[repo].last_sha
    {
      if repo in rows then Some(rows[repo].last_sha) else None
    }

    /** `upsert_last_sha` */
    method UpsertLastSha(repo: string, sha: string, now: string)
      modifies this
      ensures rows == Upserted(old(rows), repo, sha, now)
      ensures GetLastSha(repo) == Some(sha)
    {
      rows := rows[repo := RepoState(sha, now)];
    }
  }

  // ---------------------------------------------------- the sent ledger

  /** `INSERT OR IGNORE` on the (user, job) key: the first `sent_at` stays. */
  function Marked(sent: map<(string, string), string>, userId: string, jobId: string, now: string)
    : (r: map<(string, string), string>)
    ensures r.Keys == sent.Keys + {(userId, jobId)}
    ensures forall key :: key in sent ==> key in r && r[key] == sent[key]
  {
    if (userId, jobId) in sent then sent else sent[(userId, jobId) := now]
  }

  /** Marking a pair twice is marking it once. */
  lemma MarkIdempotent(sent: map<(string, string), string>, userId: string, jobId: string, t1: string, t2: string)
    ensures Marked(Marked(sent, userId, jobId, t1), userId, jobId, t2) == Marked(sent, userId, jobId, t1)
  {
  }

  /** Marking one pair leaves every other pair as sent or unsent as before. */
  lemma MarkOthersUnchanged(sent: map<(string, string), string>, userId: string, jobId: string, now: string,
                            u: string, j: string)
    requires (u, j) != (userId, jobId)
    ensures (u, j) in Marked(sent, userId, jobId, now) <==> (u, j) in sent
  {
  }

  class SentNotificationsRepository {
    var sent: map<(string, string), string>

    constructor ()
      ensures sent == map[]
    {
      sent := map[];
    }

    /** `was_sent` */
    function WasSent(userId: string, jobId: string): (b: bool)
      reads this
      ensures b <==> (userId, jobId) in sent.Keys
    {
      (userId, jobId) in sent
    }

    /** `mark_sent` */
    method MarkSent(userId: string, jobId: string, now: string)
      modifies this
      ensures sent == Marked(old(sent), userId, jobId, now)
      ensures WasSent(userId, jobId)
    {
      if (userId, jobId) !in sent {
        sent := sent[(userId, jobId) := now];
      }
    }
  }
}
