/** The feed poller: lists the commits of a watched branch newer than a
    stored cursor, fetches each commit's patch of the listings file and
    hands it to the diff parser. The HTTP layer is a pair of function
    parameters from a request to a response; only their status and decoded
    body are modelled. */
module Poller {
  import opened Wrappers
  import opened Text
  import opened Models
  import Parser

  /** A GET request: its URL, its `Authorization` header and its query. */
  datatype Request = Request(url: string, authorization: string, params: seq<(string, string)>)

  /** A response: its status code and its decoded JSON body. */
  datatype Response<T> = Response(status: int, body: T)

  /** One entry of a commit's `files` list; `patch` is absent for binary
      or very large changes. */
  datatype CommitFile = CommitFile(filename: string, patch: Option<string>)

  datatype PollError =
    | HttpError(status: int)                   // raise_for_status
    | BadFragment(error: Parser.ParseError)    // the diff parser's failure

  /** `GithubPoller(owner, repo, token, branch="dev")` */
  datatype GithubPoller = GithubPoller(owner: string, repo: string, token: string, branch: string)

  const DefaultBranch := "dev"
  const ApiRoot := "https://api.github.com/repos/"

  function NewPoller(owner: string, repo: string, token: string): (p: GithubPoller)
    ensures p.branch == DefaultBranch && p.owner == owner && p.repo == repo && p.token == token
  {
    GithubPoller(owner, repo, token, DefaultBranch)
  }

  /** The commit list of the watched branch, one page of at most 100. */
  function CommitsRequest(p: GithubPoller): (r: Request)
    ensures StartsWith(r.url, ApiRoot) && EndsWith(r.url, "/commits")
    ensures r.params == [("sha", p.branch), ("per_page", "100")]
  {
    var url := ApiRoot + p.owner + "/" + p.repo + "/commits";
    assert url[|url| - |"/commits"|..] == "/commits";
    Request(url, "token " + p.token, [("sha", p.branch), ("per_page", "100")])
  }

  /** One commit with its changed files. */
  function CommitRequest(p: GithubPoller, sha: string): (r: Request)
    ensures StartsWith(r.url, ApiRoot) && EndsWith(r.url, sha)
    ensures r.params == []
  {
    var url := ApiRoot + p.owner + "/" + p.repo + "/commits/" + sha;
    assert url[|url| - |sha|..] == sha;
    Request(url, "token " + p.token, [])
  }

  /** `raise_for_status`: client and server errors raise. */
  predicate IsHttpError(status: int) {
    400 <= status < 600
  }

  // ---------------------------------------------------- new commits

  /** The commits listed before the first occurrence of the cursor. */
  function CommitsBefore(shas: seq<string>, since: string): (r: seq<string>)
    ensures r <= shas
    ensures since !in r
    ensures |r| < |shas| ==> shas[|r|] == since
  {
    if shas == [] || shas[0] == since then []
    else [shas[0]] + CommitsBefore(shas[1..], since)
  }

  /** A cursor the listing does not contain yields the whole listing. */
  lemma CursorNotListed(shas: seq<string>, since: string)
    requires since !in shas
    ensures CommitsBefore(shas, since) == shas
  {
  }

  /** A cursor at the head of the listing yields nothing new. */
  lemma CursorAtHead(shas: seq<string>, since: string)
    requires shas != [] && shas[0] == since
    ensures CommitsBefore(shas, since) == []
  {
  }

  /** `get_new_commits` */
  method GetNewCommits(p: GithubPoller, since: string, listCommits: Request -> Response<seq<string>>)
    returns (r: Result<seq<string>, PollError>)
    ensures var resp := listCommits(CommitsRequest(p));
      r == if IsHttpError(resp.status) then Err(HttpError(resp.status)) else Ok(CommitsBefore(resp.body, since))
  {
    var resp := listCommits(CommitsRequest(p));
    if IsHttpError(resp.status) {
      return Err(HttpError(resp.status));
    }
    var commits := resp.body;
    var newShas: seq<string> := [];
    var i := 0;
    while i < |commits|
      invariant 0 <= i <= |commits|
      invariant newShas == commits[..i]
      invariant since !in newShas
    {
      if commits[i] == since {
        break;
      }
      newShas := newShas + [commits[i]];
      i := i + 1;
    }
    PrefixBeforeCursor(commits, since, i);
    r := Ok(newShas);
  }

  /** The prefix that stops at the cursor, or runs to the end without it,
      is the one `CommitsBefore` describes. */
  lemma {:induction false} PrefixBeforeCursor(shas: seq<string>, since: string, i: nat)
    requires i <= |shas| && since !in shas[..i]
    requires i < |shas| ==> shas[i] == since
    ensures CommitsBefore(shas, since) == shas[..i]
  {
    if i > 0 {
      assert shas[0] in shas[..i];
      PrefixBeforeCursor(shas[1..], since, i - 1);
      assert shas[1..][..i - 1] == shas[..i][1..];
      assert shas[..i] == [shas[0]] + shas[..i][1..];
    }
  }

  // ----------------------------------------------------- commit diff

  predicate IsListingsPatch(f: CommitFile) {
    EndsWith(f.filename, "listings.json") && f.patch.Some?
  }

  /** No file before position k carries a listings patch. */
  predicate FirstListingsPatch(files: seq<CommitFile>, k: int) {
    forall m :: 0 <= m < k && m < |files| ==> !IsListingsPatch(files[m])
  }

  /** The patch of the first changed file named `*listings.json` that has one. */
  function ListingsPatch(files: seq<CommitFile>): (r: Option<string>)
    ensures r.None? <==> forall k :: 0 <= k < |files| ==> !IsListingsPatch(files[k])
    ensures r.Some? ==> exists k :: 0 <= k < |files| && IsListingsPatch(files[k]) && files[k].patch == r && FirstListingsPatch(files, k)
  {
    if files == [] then None
    else if IsListingsPatch(files[0]) then
      assert FirstListingsPatch(files, 0);
      files[0].patch
    else
      var r := ListingsPatch(files[1..]);
      assert forall k :: 1 <= k < |files| ==> files[k] == files[1..][k - 1];
      if r.Some? then
        var k :| 0 <= k < |files[1..]| && IsListingsPatch(files[1..][k]) && files[1..][k].patch == r
          && FirstListingsPatch(files[1..], k);
        assert IsListingsPatch(files[k + 1]) && files[k + 1].patch == r;
        assert FirstListingsPatch(files, k + 1) by {
          forall m | 0 <= m < k + 1 ensures !IsListingsPatch(files[m]) {
            if m > 0 { assert files[m] == files[1..][m - 1]; }
          }
        }
        r
      else r
  }

  /** The diff lines of one commit: its listings patch split into lines,
      or nothing when no listings file carries a patch. */
  function DiffLines(files: seq<CommitFile>): seq<string> {
    match ListingsPatch(files)
    case None => []
    case Some(patch) => SplitLines(patch)
  }

  /** `get_commit_diff` */
  method GetCommitDiff(p: GithubPoller, sha: string, getCommit: Request -> Response<seq<CommitFile>>)
    returns (r: Result<seq<string>, PollError>)
    ensures var resp := getCommit(CommitRequest(p, sha));
      r == if IsHttpError(resp.status) then Err(HttpError(resp.status)) else Ok(DiffLines(resp.body))
  {
    var resp := getCommit(CommitRequest(p, sha));
    if IsHttpError(resp.status) {
      return Err(HttpError(resp.status));
    }
    var files := resp.body;
    for i := 0 to |files|
      invariant ListingsPatch(files) == ListingsPatch(files[i..])
    {
      assert files[i..][0] == files[i] && files[i..][1..] == files[i + 1..];
      var file := files[i];
      if EndsWith(file.filename, "listings.json") && file.patch.Some? {
        return Ok(SplitLines(file.patch.value));
      }
    }
    assert files[|files|..] == [];
    r := Ok([]);
  }

  // --------------------------------------------------- new listings

  /** The diff lines of one commit as the poller sees them. */
  function CommitDiff(p: GithubPoller, sha: string, getCommit: Request -> Response<seq<CommitFile>>): Result<seq<string>, PollError> {
    var resp := getCommit(CommitRequest(p, sha));
    if IsHttpError(resp.status) then Err(HttpError(resp.status)) else Ok(DiffLines(resp.body))
  }

  /** The postings of one commit, or the first failure fetching or parsing it. */
  function CommitListings(p: GithubPoller, sha: string, getCommit: Request -> Response<seq<CommitFile>>,
                          decode: string -> Option<JobListing>): Result<seq<JobListing>, PollError> {
    match CommitDiff(p, sha, getCommit)
    case Err(e) => Err(e)
    case Ok(diff) =>
      match Parser.Parse(diff, decode)
      case Err(e) => Err(BadFragment(e))
      case Ok(jobs) => Ok(jobs)
  }

  /** `xs` followed by a successful result; a failure stays a failure. */
  function Prepend(xs: seq<JobListing>, r: Result<seq<JobListing>, PollError>): Result<seq<JobListing>, PollError> {
    match r
    case Err(e) => Err(e)
    case Ok(ys) => Ok(xs + ys)
  }

  lemma PrependNothing(r: Result<seq<JobListing>, PollError>)
    ensures Prepend([], r) == r
  {
    if r.Ok? {
      assert [] + r.value == r.value;
    }
  }

  lemma PrependTwice(xs: seq<JobListing>, ys: seq<JobListing>, r: Result<seq<JobListing>, PollError>)
    ensures Prepend(xs, Prepend(ys, r)) == Prepend(xs + ys, r)
  {
    if r.Ok? {
      assert xs + (ys + r.value) == (xs + ys) + r.value;
    }
  }

  /** The postings of the commits in listing order; the first failure wins. */
  function Listings(p: GithubPoller, shas: seq<string>, getCommit: Request -> Response<seq<CommitFile>>,
                    decode: string -> Option<JobListing>): Result<seq<JobListing>, PollError>
    decreases |shas|
  {
    if shas == [] then Ok([])
    else
      match CommitListings(p, shas[0], getCommit, decode)
      case Err(e) => Err(e)
      case Ok(jobs) => Prepend(jobs, Listings(p, shas[1..], getCommit, decode))
  }

  /** Taking the first commit off the run. */
  lemma ListingsFirst(p: GithubPoller, shas: seq<string>, getCommit: Request -> Response<seq<CommitFile>>,
                      decode: string -> Option<JobListing>, first: Result<seq<JobListing>, PollError>)
    requires shas != [] && CommitListings(p, shas[0], getCommit, decode) == first
    ensures Listings(p, shas, getCommit, decode) ==
      match first
      case Err(e) => Err(e)
      case Ok(jobs) => Prepend(jobs, Listings(p, shas[1..], getCommit, decode))
  {
  }

  /** The postings of two runs of commits are those of the first run
      followed by those of the second. */
  lemma {:induction false} ListingsConcat(p: GithubPoller, a: seq<string>, b: seq<string>,
                                          getCommit: Request -> Response<seq<CommitFile>>, decode: string -> Option<JobListing>)
    ensures Listings(p, a + b, getCommit, decode) ==
      match Listings(p, a, getCommit, decode)
      case Err(e) => Err(e)
      case Ok(xs) => Prepend(xs, Listings(p, b, getCommit, decode))
    decreases |a|
  {
    if a == [] {
      assert a + b == b;
      PrependNothing(Listings(p, b, getCommit, decode));
    } else {
      assert (a + b)[0] == a[0] && (a + b)[1..] == a[1..] + b;
      ListingsConcat(p, a[1..], b, getCommit, decode);
      match CommitListings(p, a[0], getCommit, decode)
      case Err(_) =>
      case Ok(jobs) =>
        match Listings(p, a[1..], getCommit, decode)
        case Err(_) =>
        case Ok(xs) => PrependTwice(jobs, xs, Listings(p, b, getCommit, decode));
    }
  }

  /** The cursor after a poll: the newest new commit, or the old cursor. */
  function LatestSha(newShas: seq<string>, since: string): (latest: string)
    ensures newShas == [] ==> latest == since
    ensures newShas != [] ==> latest == newShas[0] && latest in newShas
  {
    if newShas != [] then newShas[0] else since
  }

  /** The whole poll: the new postings and the new cursor. */
  function Poll(p: GithubPoller, since: string, listCommits: Request -> Response<seq<string>>,
                getCommit: Request -> Response<seq<CommitFile>>, decode: string -> Option<JobListing>)
    : Result<(seq<JobListing>, string), PollError>
  {
    var resp := listCommits(CommitsRequest(p));
    if IsHttpError(resp.status) then Err(HttpError(resp.status))
    else
      var newShas := CommitsBefore(resp.body, since);
      match Listings(p, newShas, getCommit, decode)
      case Err(e) => Err(e)
      case Ok(jobs) => Ok((jobs, LatestSha(newShas, since)))
  }

  /** When the listing contains the cursor, the new cursor is a listed
      commit that comes before the old one, or the old cursor itself. */
  lemma CursorMovesForward(p: GithubPoller, since: string, listCommits: Request -> Response<seq<string>>,
                           getCommit: Request -> Response<seq<CommitFile>>, decode: string -> Option<JobListing>)
    requires Poll(p, since, listCommits, getCommit, decode).Ok?
    ensures var shas := listCommits(CommitsRequest(p)).body;
      var latest := Poll(p, since, listCommits, getCommit, decode).value.1;
      latest == since || (shas != [] && latest == shas[0] && shas[0] != since)
  {
  }

  /** With nothing new, a poll yields no postings and keeps the cursor. */
  lemma NothingNew(p: GithubPoller, since: string, listCommits: Request -> Response<seq<string>>,
                   getCommit: Request -> Response<seq<CommitFile>>, decode: string -> Option<JobListing>)
    requires !IsHttpError(listCommits(CommitsRequest(p)).status)
    requires CommitsBefore(listCommits(CommitsRequest(p)).body, since) == []
    ensures Poll(p, since, listCommits, getCommit, decode) == Ok(([], since))
  {
  }

  /** `fetch_new_listings` */
  method FetchNewListings(p: GithubPoller, since: string, listCommits: Request -> Response<seq<string>>,
                          getCommit: Request -> Response<seq<CommitFile>>, decode: string -> Option<JobListing>)
    returns (r: Result<(seq<JobListing>, string), PollError>)
    ensures r == Poll(p, since, listCommits, getCommit, decode)
  {
    var commits := GetNewCommits(p, since, listCommits);
    if commits.Err? {
      return Err(commits.error);
    }
    var newShas := commits.value;
    var allJobs: seq<JobListing> := [];
    PrependNothing(Listings(p, newShas, getCommit, decode));
    for i := 0 to |newShas|
      invariant Listings(p, newShas, getCommit, decode) == Prepend(allJobs, Listings(p, newShas[i..], getCommit, decode))
    {
      assert newShas[i..][0] == newShas[i] && newShas[i..][1..] == newShas[i + 1..];
      var diff := GetCommitDiff(p, newShas[i], getCommit);
      if diff.Err? {
        ListingsFirst(p, newShas[i..], getCommit, decode, Err(diff.error));
        return Err(diff.error);
      }
      var jobs := Parser.ParseAddedListings(diff.value, decode);
      if jobs.Err? {
        ListingsFirst(p, newShas[i..], getCommit, decode, Err(BadFragment(jobs.error)));
        return Err(BadFragment(jobs.error));
      }
      ListingsFirst(p, newShas[i..], getCommit, decode, Ok(jobs.value));
      PrependTwice(allJobs, jobs.value, Listings(p, newShas[i + 1..], getCommit, decode));
      allJobs := allJobs + jobs.value;
    }
    assert newShas[|newShas|..] == [];
    assert allJobs + [] == allJobs;
    var latest := if |newShas| > 0 then newShas[0] else since;
    r := Ok((allJobs, latest));
  }
}
