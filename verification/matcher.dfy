/** The matching engine: does a posting satisfy a subscriber's preferences?
    Text is normalised (lower-cased, whitespace runs collapsed) and keywords
    are matched by substring containment. */
module Matcher {
  import opened Wrappers
  import opened Text
  import opened Models

  /** `_norm`: lower-case, split on whitespace runs, re-join with one space. */
  function Norm(s: string): (r: string)
    ensures IsLowered(r)
    ensures r == [] || (!IsSpace(r[0]) && !IsSpace(r[|r| - 1]))
    ensures forall i :: 0 <= i < |r| && IsSpace(r[i]) ==> r[i] == ' ' && 0 < i < |r| - 1 && !IsSpace(r[i + 1])
    ensures Words(r) == Words(Lower(s))
  {
    LowerIsLowered(s);
    var ws := Words(Lower(s));
    JoinLowered(ws);
    JoinEnds(ws);
    JoinSingleSpaces(ws);
    WordsOfJoin(ws);
    Join(ws, " ")
  }

  /** Between the words of a space-joined list there is exactly one
      space, and nowhere else is there whitespace. */
  lemma {:induction false} JoinSingleSpaces(ws: seq<string>)
    requires forall k :: 0 <= k < |ws| ==> ws[k] != [] && NoSpace(ws[k])
    ensures var r := Join(ws, " ");
      forall i :: 0 <= i < |r| && IsSpace(r[i]) ==> r[i] == ' ' && 0 < i < |r| - 1 && !IsSpace(r[i + 1])
  {
    if |ws| > 1 {
      var tail := ws[1..];
      forall k | 0 <= k < |tail| ensures tail[k] != [] && NoSpace(tail[k]) {
        assert tail[k] == ws[k + 1];
      }
      JoinSingleSpaces(tail);
      JoinEnds(tail);
      var rest := Join(tail, " ");
      assert tail[0] <= rest;
      var r := Join(ws, " ");
      assert r == ws[0] + " " + rest;
      forall i | 0 <= i < |r| && IsSpace(r[i])
        ensures r[i] == ' ' && 0 < i < |r| - 1 && !IsSpace(r[i + 1])
      {
        if i == |ws[0]| {
          assert r[i + 1] == rest[0];
        } else if i > |ws[0]| {
          assert r[i] == rest[i - |ws[0]| - 1];
          assert i + 1 < |r| ==> r[i + 1] == rest[i + 1 - |ws[0]| - 1];
        }
      }
    }
  }

  lemma {:induction false} JoinEnds(ws: seq<string>)
    requires forall k :: 0 <= k < |ws| ==> ws[k] != [] && NoSpace(ws[k])
    ensures var r := Join(ws, " "); r == [] || (!IsSpace(r[0]) && !IsSpace(r[|r| - 1]))
  {
    if |ws| > 1 {
      JoinEnds(ws[1..]);
      var rest := Join(ws[1..], " ");
      assert (ws[0] + " " + rest)[|ws[0]| + 1 + |rest| - 1] == rest[|rest| - 1];
    }
  }

  /** Normalising twice is normalising once. */
  lemma NormIdempotent(s: string)
    ensures Norm(Norm(s)) == Norm(s)
  {
    var ws := Words(Lower(s));
    var n := Norm(s);
    assert n == Join(ws, " ");
    LoweredFixed(n);
    WordsOfJoin(ws);
  }

  /** Normalisation ignores letter case. */
  lemma NormIgnoresCase(a: string, b: string)
    requires Lower(a) == Lower(b)
    ensures Norm(a) == Norm(b)
  {
  }

  /** Lower-casing first changes nothing: `_norm` lower-cases itself. */
  lemma NormOfLower(s: string)
    ensures Norm(Lower(s)) == Norm(s)
  {
    LowerIsLowered(s);
    LoweredFixed(Lower(s));
  }

  /** `kw and kw in text` over a list, for an already normalised text: the
      first keyword that is non-empty and whose normal form occurs in it. */
  function KeywordHit(keywords: seq<string>, ntext: string): (b: bool)
    ensures b <==> exists k :: 0 <= k < |keywords| && keywords[k] != "" && Contains(ntext, Norm(keywords[k]))
  {
    if keywords == [] then false
    else if keywords[0] != "" && Contains(ntext, Norm(keywords[0])) then true
    else
      var b := KeywordHit(keywords[1..], ntext);
      assert forall k :: 1 <= k < |keywords| ==> keywords[k] == keywords[1..][k - 1];
      b
  }

  /** `_any_keyword_in_text` */
  function AnyKeywordInText(keywords: seq<string>, text: string): (b: bool)
    ensures b <==> exists k :: 0 <= k < |keywords| && keywords[k] != "" && Contains(Norm(text), Norm(keywords[k]))
  {
    KeywordHit(keywords, Norm(text))
  }

  /** `[_norm(l) for l in xs]` */
  function NormAll(xs: seq<string>): (r: seq<string>)
    ensures |r| == |xs|
    ensures forall i :: 0 <= i < |xs| ==> r[i] == Norm(xs[i])
  {
    if xs == [] then [] else [Norm(xs[0])] + NormAll(xs[1..])
  }

  /** `[_norm(k) for k in xs if k]` */
  function NormNonEmpty(xs: seq<string>): seq<string> {
    NormAll(NonEmpty(xs))
  }

  /** The normalised keyword list is empty exactly when every keyword is. */
  lemma NormNonEmptyIsEmpty(xs: seq<string>)
    ensures NormNonEmpty(xs) == [] <==> NoLocationGate(xs)
  {
    if NonEmpty(xs) != [] {
      assert NonEmpty(xs)[0] in xs;
    }
  }

  /** The location and a non-empty keyword, both normalised, contain each other. */
  predicate LocationHit(jobLocations: seq<string>, locationKeywords: seq<string>, i: int, j: int) {
    && 0 <= i < |jobLocations| && 0 <= j < |locationKeywords|
    && locationKeywords[j] != ""
    && Contains(Norm(jobLocations[i]), Norm(locationKeywords[j]))
  }

  lemma AnyPairSound(jobLocations: seq<string>, locationKeywords: seq<string>)
    requires AnyPair(NormAll(jobLocations), NormNonEmpty(locationKeywords))
    ensures exists i, j :: LocationHit(jobLocations, locationKeywords, i, j)
  {
    var locs := NormAll(jobLocations);
    var kept := NonEmpty(locationKeywords);
    var kws := NormAll(kept);
    var i, j' :| 0 <= i < |locs| && 0 <= j' < |kws| && Contains(locs[i], kws[j']);
    assert kept[j'] in locationKeywords;
    var j :| 0 <= j < |locationKeywords| && locationKeywords[j] == kept[j'];
    assert LocationHit(jobLocations, locationKeywords, i, j);
  }

  lemma AnyPairComplete(jobLocations: seq<string>, locationKeywords: seq<string>, i: int, j: int)
    requires LocationHit(jobLocations, locationKeywords, i, j)
    ensures AnyPair(NormAll(jobLocations), NormNonEmpty(locationKeywords))
  {
    var locs := NormAll(jobLocations);
    var kept := NonEmpty(locationKeywords);
    var kws := NormAll(kept);
    assert locationKeywords[j] in kept;
    var j' :| 0 <= j' < |kept| && kept[j'] == locationKeywords[j];
    assert Contains(locs[i], kws[j']);
  }

  /** The nested search over normalised lists finds exactly the pairs of a
      location and a non-empty keyword that contain each other. */
  lemma AnyPairOfNormalised(jobLocations: seq<string>, locationKeywords: seq<string>)
    ensures AnyPair(NormAll(jobLocations), NormNonEmpty(locationKeywords)) <==>
      exists i, j :: LocationHit(jobLocations, locationKeywords, i, j)
  {
    if AnyPair(NormAll(jobLocations), NormNonEmpty(locationKeywords)) {
      AnyPairSound(jobLocations, locationKeywords);
    }
    if exists i, j :: LocationHit(jobLocations, locationKeywords, i, j) {
      var i, j :| LocationHit(jobLocations, locationKeywords, i, j);
      AnyPairComplete(jobLocations, locationKeywords, i, j);
    }
  }

  /** Some keyword occurs in one location. */
  function InLocation(loc: string, kws: seq<string>): (b: bool)
    ensures b <==> exists j :: 0 <= j < |kws| && Contains(loc, kws[j])
  {
    if kws == [] then false
    else if Contains(loc, kws[0]) then true
    else
      var b := InLocation(loc, kws[1..]);
      assert forall j :: 1 <= j < |kws| ==> kws[j] == kws[1..][j - 1];
      b
  }

  /** `for loc in locs: for kw in kws: if kw in loc: return True` */
  function AnyPair(locs: seq<string>, kws: seq<string>): (b: bool)
    ensures b <==> exists i, j :: 0 <= i < |locs| && 0 <= j < |kws| && Contains(locs[i], kws[j])
  {
    if locs == [] then false
    else if InLocation(locs[0], kws) then true
    else
      var b := AnyPair(locs[1..], kws);
      assert forall i :: 1 <= i < |locs| ==> locs[i] == locs[1..][i - 1];
      b
  }

  /** The location gate has nothing to check: every keyword is empty. */
  predicate NoLocationGate(locationKeywords: seq<string>) {
    forall j :: 0 <= j < |locationKeywords| ==> locationKeywords[j] == ""
  }

  /** `_locations_match` */
  function LocationsMatch(jobLocations: seq<string>, locationKeywords: seq<string>): (b: bool)
    ensures b <==> NoLocationGate(locationKeywords)
                   || exists i, j :: LocationHit(jobLocations, locationKeywords, i, j)
  {
    var locs := NormAll(jobLocations);
    var kws := NormNonEmpty(locationKeywords);
    NormNonEmptyIsEmpty(locationKeywords);
    AnyPairOfNormalised(jobLocations, locationKeywords);
    if kws == [] then true
    else if locs == [] then false
    else AnyPair(locs, kws)
  }

  /** The searchable text: title, company and description, lower-cased. */
  function Blob(job: JobListing): string {
    var desc := if job.description.Some? then job.description.value else "";
    Lower(job.title + " " + job.company_name + " " + desc)
  }

  /** Some non-empty keyword of the list, normalised, occurs in the
      normalised blob of the posting. */
  ghost predicate KeywordInBlob(keywords: seq<string>, job: JobListing) {
    exists k :: 0 <= k < |keywords| && keywords[k] != "" && Contains(Norm(Blob(job)), Norm(keywords[k]))
  }

  /** `MatchingEngine.matches`: receive_all, then the location gate, then
      role keywords, then tech keywords, then "no content constraints". */
  function Matches(job: JobListing, prefs: UserPreferences): (b: bool)
    ensures b <==> Wanted(job, prefs)
  {
    if prefs.receive_all then true
    else if !LocationsMatch(job.locations, prefs.location_keywords) then false
    else
      var blob := Blob(job);
      if AnyKeywordInText(prefs.role_keywords, blob) then true
      else if AnyKeywordInText(prefs.tech_keywords, blob) then true
      else if prefs.role_keywords == [] && prefs.tech_keywords == [] then true
      else false
  }

  /** The decision `matches` makes, in terms of the location gate and
      keyword hits: receive_all, or the gate passes and a role keyword
      hits, a tech keyword hits, or there are no keywords at all. */
  ghost predicate Wanted(job: JobListing, prefs: UserPreferences) {
    || prefs.receive_all
    || (&& GatePasses(job, prefs)
        && (|| KeywordInBlob(prefs.role_keywords, job)
            || KeywordInBlob(prefs.tech_keywords, job)
            || (prefs.role_keywords == [] && prefs.tech_keywords == [])))
  }

  /** The location gate passes for this posting and these preferences. */
  ghost predicate GatePasses(job: JobListing, prefs: UserPreferences) {
    || NoLocationGate(prefs.location_keywords)
    || exists i, j :: LocationHit(job.locations, prefs.location_keywords, i, j)
  }

  /** receive_all matches every posting, whatever its locations or text. */
  lemma ReceiveAllMatches(job: JobListing, prefs: UserPreferences)
    requires prefs.receive_all
    ensures Matches(job, prefs)
  {
  }

  /** A failed location gate rejects the posting even when a role or tech
      keyword occurs in its text. */
  lemma LocationGateBlocks(job: JobListing, prefs: UserPreferences)
    requires !prefs.receive_all
    requires exists j :: 0 <= j < |prefs.location_keywords| && prefs.location_keywords[j] != ""
    requires forall i, j :: !LocationHit(job.locations, prefs.location_keywords, i, j)
    ensures !Matches(job, prefs)
  {
  }

  /** Location keywords against a posting with no locations: no match. */
  lemma NoLocationsFailGate(job: JobListing, prefs: UserPreferences)
    requires !prefs.receive_all
    requires exists j :: 0 <= j < |prefs.location_keywords| && prefs.location_keywords[j] != ""
    requires job.locations == []
    ensures !Matches(job, prefs)
  {
  }

  /** Past the gate, a role or tech keyword in the text is a match. */
  lemma KeywordHitMatches(job: JobListing, prefs: UserPreferences)
    requires GatePasses(job, prefs)
    requires KeywordInBlob(prefs.role_keywords, job) || KeywordInBlob(prefs.tech_keywords, job)
    ensures Matches(job, prefs)
  {
  }

  /** Past the gate with no role or tech keywords at all: a match. */
  lemma NoContentConstraintsMatch(job: JobListing, prefs: UserPreferences)
    requires GatePasses(job, prefs)
    requires prefs.role_keywords == [] && prefs.tech_keywords == []
    ensures Matches(job, prefs)
  {
  }

  /** Past the gate, with role or tech keywords given and none found: no match. */
  lemma NoKeywordHitNoMatch(job: JobListing, prefs: UserPreferences)
    requires !prefs.receive_all
    requires prefs.role_keywords != [] || prefs.tech_keywords != []
    requires !KeywordInBlob(prefs.role_keywords, job) && !KeywordInBlob(prefs.tech_keywords, job)
    ensures !Matches(job, prefs)
  {
  }

  /** Empty keywords are skipped and never match by themselves. */
  lemma EmptyKeywordsNeverHit(keywords: seq<string>, text: string)
    requires forall k :: 0 <= k < |keywords| ==> keywords[k] == ""
    ensures !AnyKeywordInText(keywords, text)
  {
  }

  /** A keyword made only of whitespace is not skipped: it normalises to ""
      and so occurs in every text. */
  lemma {:induction false} BlankKeywordHitsAnyText(kw: string, text: string)
    requires kw != [] && forall i :: 0 <= i < |kw| ==> IsSpace(kw[i])
    ensures AnyKeywordInText([kw], text)
  {
    BlankHasNoWords(Lower(kw));
    ContainsEmpty(Norm(text));
    assert [kw][0] == kw;
  }

  lemma {:induction false} BlankHasNoWords(s: string)
    requires forall i :: 0 <= i < |s| ==> IsSpace(s[i])
    ensures Words(s) == []
  {
    if s != [] {
      BlankHasNoWords(s[1..]);
    }
  }
}
