/** Hydrating rows of the users table into the contacts the notifier and
    the matcher work with. */
module Users {
  import opened Wrappers
  import opened Text
  import opened Models
  import opened Repositories

  /** `[x for x in (column or "").split(",") if x]`: the comma-separated
      entries that are not empty, kept as written (they are not stripped).
      The keyword columns are NOT NULL, so the `or ""` never applies. */
  function Keywords(column: string): (ks: seq<string>)
    ensures forall k :: 0 <= k < |ks| ==> ks[k] != "" && ',' !in ks[k]
  {
    NonEmpty(SplitOn(column, ','))
  }

  /** An empty keyword column hydrates to no keywords. */
  lemma KeywordsOfEmptyColumn()
    ensures Keywords("") == []
  {
    assert SplitOn("", ',') == [""];
  }

  /** One row as a contact: integer flags read as "non-zero". */
  function Hydrated(row: UserRow): UserContact {
    UserContact(row.id, row.email, row.phone,
      row.is_verified != 0, row.notify_email != 0, row.notify_sms != 0,
      UserPreferences(row.subscribe_new_grad != 0, row.subscribe_internship != 0, row.receive_all != 0,
        Keywords(row.tech_keywords), Keywords(row.role_keywords), Keywords(row.location_keywords)))
  }

  /** `hydrate_users`: one contact per row, in the rows' order. */
  method HydrateUsers(rows: seq<UserRow>) returns (out: seq<UserContact>)
    ensures |out| == |rows|
    ensures forall k :: 0 <= k < |rows| ==> out[k] == Hydrated(rows[k])
  {
    out := [];
    for i := 0 to |rows|
      invariant |out| == i
      invariant forall k :: 0 <= k < i ==> out[k] == Hydrated(rows[k])
    {
      var r := rows[i];
      var prefs := UserPreferences(
        r.subscribe_new_grad != 0, r.subscribe_internship != 0, r.receive_all != 0,
        Keywords(r.tech_keywords), Keywords(r.role_keywords), Keywords(r.location_keywords));
      out := out + [UserContact(r.id, r.email, r.phone,
                                r.is_verified != 0, r.notify_email != 0, r.notify_sms != 0, prefs)];
    }
  }

  // ------------------------------------------------------------ properties

  /** A keyword list written by the repository reads back as the list the
      repository keeps: stripped, with blank entries dropped. */
  lemma KeywordsOfCsv(items: seq<string>)
    requires forall k :: 0 <= k < |items| ==> ',' !in items[k]
    ensures Keywords(ListToCsv(items)) == Kept(items)
  {
    var ks := Kept(items);
    var csv := ListToCsv(items);
    if ks == [] {
      assert SplitOn("", ',') == [""];
    } else {
      assert SplitOn(csv, ',') == ks;
      assert forall k :: 0 <= k < |ks| ==> ks[k] != "" by {
        forall k | 0 <= k < |ks| ensures ks[k] != "" {
          assert ks[k] in ks;
        }
      }
      NonEmptyFixed(ks);
    }
  }

  /** Hydration agrees with `get_user` on the preferences whenever the
      stored keyword entries carry no surrounding whitespace. */
  lemma HydratedMatchesRowPrefs(row: UserRow)
    requires forall k :: 0 <= k < |SplitOn(row.tech_keywords, ',')| ==> Trimmed(SplitOn(row.tech_keywords, ',')[k])
    requires forall k :: 0 <= k < |SplitOn(row.role_keywords, ',')| ==> Trimmed(SplitOn(row.role_keywords, ',')[k])
    requires forall k :: 0 <= k < |SplitOn(row.location_keywords, ',')| ==> Trimmed(SplitOn(row.location_keywords, ',')[k])
    ensures Hydrated(row).prefs == RowPrefs(row)
  {
    KeptOfTrimmed(SplitOn(row.tech_keywords, ','));
    KeptOfTrimmed(SplitOn(row.role_keywords, ','));
    KeptOfTrimmed(SplitOn(row.location_keywords, ','));
  }

  /** On entries with no surrounding whitespace, the repository's
      strip-and-drop is the hydrator's drop-the-empty. */
  lemma {:induction false} KeptOfTrimmed(xs: seq<string>)
    requires forall k :: 0 <= k < |xs| ==> Trimmed(xs[k])
    ensures Kept(xs) == NonEmpty(xs)
  {
    if xs != [] {
      TrimmedFixed(xs[0]);
      KeptOfTrimmed(xs[1..]);
    }
  }

  /** A user inserted by `create_user` hydrates to the contact it was
      created from, with both notification channels off and the keyword
      lists as the repository keeps them. */
  lemma HydrateNewRow(id: string, email: Option<string>, phone: Option<string>, isVerified: bool,
                      prefs: UserPreferences, now: string)
    requires forall k :: 0 <= k < |prefs.tech_keywords| ==> ',' !in prefs.tech_keywords[k]
    requires forall k :: 0 <= k < |prefs.role_keywords| ==> ',' !in prefs.role_keywords[k]
    requires forall k :: 0 <= k < |prefs.location_keywords| ==> ',' !in prefs.location_keywords[k]
    ensures Hydrated(NewRow(id, email, phone, isVerified, prefs, now))
         == UserContact(id, email, phone, isVerified, false, false,
              prefs.(tech_keywords := Kept(prefs.tech_keywords), role_keywords := Kept(prefs.role_keywords),
                     location_keywords := Kept(prefs.location_keywords)))
  {
    KeywordsOfCsv(prefs.tech_keywords);
    KeywordsOfCsv(prefs.role_keywords);
    KeywordsOfCsv(prefs.location_keywords);
  }
}
