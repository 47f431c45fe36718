/** The two URL helpers of the job scraper: rewriting an application link
    to its description page, and naming the job board a URL belongs to. */
module Scraper {
  import opened Wrappers
  import opened Text

  // ------------------------------------------------------- normalize_url

  /** The four endings `re.sub(ending + "/?$", "", s)` removes: the ending
      with or without a slash, at the very end or just before a final "\n"
      (where Python's `$` also matches). */
  predicate Plain(s: string, ending: string) {
    && !EndsWith(s, ending) && !EndsWith(s, ending + "/")
    && !EndsWith(s, ending + "\n") && !EndsWith(s, ending + "/\n")
  }

  /** Removes `ending`, or `ending + "/"`, from the end of `s`. */
  function DropEnding(s: string, ending: string): (r: string)
    ensures |r| <= |s| && StartsWith(s, r)
  {
    if EndsWith(s, ending + "/") then s[..|s| - |ending| - 1]
    else if EndsWith(s, ending) then s[..|s| - |ending|]
    else s
  }

  /** `re.sub(ending + "/?$", "", s)` for a literal `ending`: at most one
      place can match, at the end of `s` or in front of its final "\n",
      and that "\n" stays. */
  function SubAtEnd(s: string, ending: string): (r: string)
    ensures |r| <= |s|
  {
    if |s| > 0 && s[|s| - 1] == '\n' then DropEnding(s[..|s| - 1], ending) + "\n"
    else DropEnding(s, ending)
  }

  /** `normalize_url`: first the application ending, then the apply one. */
  function NormalizeUrl(url: string): (r: string)
    ensures |r| <= |url|
  {
    SubAtEnd(SubAtEnd(url, "/application"), "/apply")
  }

  // properties of normalize_url

  /** A final "\n" on both sides does not change whether one ends the other. */
  lemma EndsWithNewline(b: string, e: string)
    ensures EndsWith(b + "\n", e + "\n") <==> EndsWith(b, e)
  {
    var s := b + "\n";
    if |e| <= |b| {
      var t := b[|b| - |e|..];
      assert s[|s| - |e + "\n"|..] == t + "\n";
      assert (t + "\n")[..|e|] == t && (e + "\n")[..|e|] == e;
    }
  }

  /** What ending with e says about the k-th character of e. */
  lemma EndsWithAt(s: string, e: string, k: int)
    requires 0 <= k < |e|
    ensures EndsWith(s, e) ==> s[|s| - |e| + k] == e[k]
  {
    if EndsWith(s, e) {
      assert s[|s| - |e|..][k] == s[|s| - |e| + k];
    }
  }

  /** A string without the ending is left as it is. */
  lemma SubAtEndPlain(s: string, ending: string)
    requires Plain(s, ending)
    ensures SubAtEnd(s, ending) == s
  {
    if |s| > 0 && s[|s| - 1] == '\n' {
      var b := s[..|s| - 1];
      assert s == b + "\n";
      EndsWithNewline(b, ending + "/");
      assert ending + "/" + "\n" == ending + "/\n";
      EndsWithNewline(b, ending);
    }
  }

  /** The ending is removed, with or without its slash, and a final "\n"
      survives. The ending must not itself end in "/" or "\n", which holds
      for both endings the scraper uses. */
  lemma SubAtEndRemoves(base: string, ending: string, slash: string, nl: string)
    requires |ending| > 0 && ending[|ending| - 1] != '/' && ending[|ending| - 1] != '\n'
    requires slash == "" || slash == "/"
    requires nl == "" || nl == "\n"
    ensures SubAtEnd(base + ending + slash + nl, ending) == base + nl
  {
    var core := base + ending + slash;
    DropEndingRemoves(base, ending, slash);
    if nl == "\n" {
      assert (core + nl)[..|core + nl| - 1] == core;
    } else {
      assert core + nl == core;
    }
  }

  /** Without a final "\n", the ending and its slash are cut off. */
  lemma DropEndingRemoves(base: string, ending: string, slash: string)
    requires |ending| > 0 && ending[|ending| - 1] != '/' && ending[|ending| - 1] != '\n'
    requires slash == "" || slash == "/"
    ensures var core := base + ending + slash;
      core[|core| - 1] != '\n' && DropEnding(core, ending) == base
  {
    var core := base + ending + slash;
    ConcatEnds(base, ending + slash);
    assert core == base + (ending + slash);
    if slash == "/" {
      assert EndsWith(core, ending + "/");
      assert core[..|core| - |ending| - 1] == base;
    } else {
      assert core == base + ending;
      assert core[|core| - 1] == ending[|ending| - 1];
      assert !EndsWith(core, ending + "/");
      assert core[..|core| - |ending|] == base;
    }
  }

  /** A URL ending in neither "/application" nor "/apply" (with or without
      a slash, before a final "\n" or not) comes back unchanged. */
  lemma NormalizePlain(url: string)
    requires Plain(url, "/application") && Plain(url, "/apply")
    ensures NormalizeUrl(url) == url
  {
    SubAtEndPlain(url, "/application");
    SubAtEndPlain(url, "/apply");
  }

  /** An application link loses its ending; what remains is then checked
      for an apply ending, which it does not have here. */
  lemma NormalizeApplication(base: string, slash: string)
    requires slash == "" || slash == "/"
    requires Plain(base, "/apply")
    ensures NormalizeUrl(base + "/application" + slash) == base
  {
    var url := base + "/application" + slash;
    SubAtEndRemoves(base, "/application", slash, "");
    assert url + "" == url;
    assert SubAtEnd(url, "/application") == base;
    SubAtEndPlain(base, "/apply");
  }

  /** An apply link loses its ending, whatever precedes it. */
  lemma NormalizeApply(base: string, slash: string)
    requires slash == "" || slash == "/"
    ensures NormalizeUrl(base + "/apply" + slash) == base
  {
    var url := base + "/apply" + slash;
    ConcatEnds(base + "/apply", slash);
    ConcatEnds(base, "/apply");
    if slash == "" {
      assert url == base + "/apply";
      assert url[|url| - 1] == 'y';
    } else {
      assert url[|url| - 2] == 'y' && url[|url| - 1] == '/';
    }
    EndsWithAt(url, "/application", 11);
    EndsWithAt(url, "/application/", 11);
    EndsWithAt(url, "/application\n", 12);
    EndsWithAt(url, "/application/\n", 13);
    SubAtEndPlain(url, "/application");
    SubAtEndRemoves(base, "/apply", slash, "");
    assert url + "" == url;
  }

  /** normalize_url is not idempotent: an application link that ends in
      "/apply" loses only that, and a second call then removes
      "/application" too. */
  lemma NormalizeNotIdempotent(base: string)
    requires Plain(base, "/apply")
    ensures NormalizeUrl(base + "/application/apply") == base + "/application"
    ensures NormalizeUrl(base + "/application") == base
    ensures NormalizeUrl(NormalizeUrl(base + "/application/apply")) != NormalizeUrl(base + "/application/apply")
  {
    assert base + "/application/apply" == (base + "/application") + "/apply" + "";
    NormalizeApply(base + "/application", "");
    NormalizeApplication(base, "");
    assert base + "/application" + "" == base + "/application";
    assert |base| < |base + "/application"|;
  }

  // ------------------------------------------------------- detect_source

  /** Every label detect_source can give, in the order its tests are tried. */
  const Labels: seq<string> := ["greenhouse", "ashby", "lever", "icims", "workday", "tesla", "bytedance", "generic"]

  /** The ASCII part of the regex class `\w` (letters, digits, `_`);
      the non-ASCII word characters of a str pattern are not modelled. */
  predicate WordChar(c: char) {
    'a' <= c <= 'z' || 'A' <= c <= 'Z' || '0' <= c <= '9' || c == '_'
  }

  /** The ASCII part of the regex class `\d`; the non-ASCII decimal
      digits of a str pattern are not modelled. */
  predicate Digit(c: char) {
    '0' <= c <= '9'
  }

  /** The regex `\bwd\d+\.` matches `host[i..j + 1]`: "wd" at a word
      boundary, digits up to `j`, a dot at `j`. */
  predicate WdMatch(host: string, i: int, j: int) {
    && 0 <= i && i + 2 < j < |host|
    && host[i] == 'w' && host[i + 1] == 'd'
    && (i == 0 || !WordChar(host[i - 1]))
    && (forall k :: i + 2 <= k < j ==> Digit(host[k]))
    && host[j] == '.'
  }

  /** Number of digits at the front of s. */
  function LeadingDigits(s: string): (n: nat)
    ensures n <= |s|
    ensures forall k :: 0 <= k < n ==> Digit(s[k])
    ensures n < |s| ==> !Digit(s[n])
  {
    if s == [] || !Digit(s[0]) then 0 else 1 + LeadingDigits(s[1..])
  }

  /** The attempt at start i: "wd" at a word boundary, then the greedy
      `\d+` takes the whole run of digits, which must be followed by the dot. */
  predicate WdHere(host: string, i: nat)
    requires i + 2 < |host|
  {
    var n := LeadingDigits(host[i + 2..]);
    host[i] == 'w' && host[i + 1] == 'd' && (i == 0 || !WordChar(host[i - 1]))
    && n > 0 && i + 2 + n < |host| && host[i + 2 + n] == '.'
  }

  /** `re.search(r"\bwd\d+\.", host)` from position i onwards: try each
      start in turn. */
  function SearchWd(host: string, i: nat): (found: bool)
    decreases |host| - i
  {
    if i + 2 >= |host| then false
    else if WdHere(host, i) then true
    else SearchWd(host, i + 1)
  }

  /** The attempt at i succeeds exactly when the pattern matches from i. */
  lemma WdHereMatches(host: string, i: nat)
    requires i + 2 < |host|
    ensures WdHere(host, i) <==> exists j :: WdMatch(host, i, j)
  {
    var n := LeadingDigits(host[i + 2..]);
    if WdHere(host, i) {
      assert WdMatch(host, i, i + 2 + n);
    } else {
      forall j | i + 2 < j < |host| ensures !WdMatch(host, i, j) {
        // The digits before the dot are exactly the leading run.
        if j - (i + 2) < n {
          assert host[i + 2..][j - (i + 2)] == host[j];
        } else if j - (i + 2) > n {
          assert host[i + 2..][n] == host[i + 2 + n];
        }
      }
    }
  }

  /** The scan finds a match exactly when one exists at or after i. */
  lemma {:induction false} SearchWdFinds(host: string, i: nat)
    ensures SearchWd(host, i) <==> exists p, j :: i <= p && WdMatch(host, p, j)
    decreases |host| - i
  {
    if i + 2 >= |host| {
      assert forall p, j :: i <= p && WdMatch(host, p, j) ==> false;
    } else {
      SearchWdFinds(host, i + 1);
      WdHereMatches(host, i);
    }
  }

  /** `re.search(r"\bwd\d+\.", host)` succeeds. */
  predicate HasWdToken(host: string) {
    SearchWd(host, 0)
  }

  /** The pattern test that stands for each board. */
  predicate Matches(host: string, board: string) {
    match board
    case "greenhouse" => Contains(host, "greenhouse.io")
    case "ashby" => Contains(host, "ashbyhq.com")
    case "lever" => Contains(host, "lever.co")
    case "icims" => Contains(host, "icims.com")
    case "workday" => Contains(host, "workday") || Contains(host, "myworkdayjobs.com") || HasWdToken(host)
    case "tesla" => Contains(host, "tesla.com")
    case "bytedance" => Contains(host, "bytedance.com") || Contains(host, "lifeattiktok.com")
    case "generic" => true
    case _ => false
  }

  /** The chain of tests on the lower-cased host. */
  function Classify(host: string): (board: string)
    ensures board in Labels && Matches(host, board)
    ensures forall k :: 0 <= k < |Labels| && Labels[k] == board ==>
              forall m :: 0 <= m < k ==> !Matches(host, Labels[m])
  {
    if Contains(host, "greenhouse.io") then "greenhouse"
    else if Contains(host, "ashbyhq.com") then "ashby"
    else if Contains(host, "lever.co") then "lever"
    else if Contains(host, "icims.com") then "icims"
    else if Contains(host, "workday") || Contains(host, "myworkdayjobs.com") || SearchWd(host, 0) then "workday"
    else if Contains(host, "tesla.com") then "tesla"
    else if Contains(host, "bytedance.com") || Contains(host, "lifeattiktok.com") then "bytedance"
    else "generic"
  }

  /** `url.split("/")[2].lower()`; None where the index is out of range
      (the IndexError that escapes detect_source). */
  function Host(url: string): (h: Option<string>)
    ensures h.None? <==> |SplitOn(url, '/')| < 3
    ensures h.Some? ==> h.value == Lower(SplitOn(url, '/')[2])
  {
    var parts := SplitOn(url, '/');
    if |parts| < 3 then None else Some(Lower(parts[2]))
  }

  /** `detect_source`; None stands for the IndexError on a URL with fewer
      than two slashes. */
  function DetectSource(url: string): (r: Option<string>)
    ensures r.None? <==> |SplitOn(url, '/')| < 3
    ensures r.Some? ==> r.value in Labels
  {
    match Host(url)
    case None => None
    case Some(h) => Some(Classify(h))
  }

  // properties of detect_source

  /** In `scheme://host/path` the host is the third "/"-segment. */
  lemma {:induction false} ThirdSegment(scheme: string, host: string, path: string)
    requires '/' !in scheme && '/' !in host
    requires path == "" || path[0] == '/'
    ensures var parts := SplitOn(scheme + "//" + host + path, '/');
      |parts| >= 3 && parts[2] == host
  {
    var s1 := "//" + host + path;
    AfterSlashes(host, path);
    SplitOnPrefix(scheme, s1, '/');
    assert scheme + "//" + host + path == scheme + s1;
  }

  /** `//host/path` splits as "", "", host, then the path's segments. */
  lemma AfterSlashes(host: string, path: string)
    requires '/' !in host
    requires path == "" || path[0] == '/'
    ensures var parts := SplitOn("//" + host + path, '/');
      |parts| >= 3 && parts[2] == host
  {
    HostThenPath(host, path);
    var s2 := "/" + (host + path);
    SplitOnSeparator(host + path, '/');
    SplitOnSeparator(s2, '/');
    assert "//" + host + path == "/" + s2;
  }

  /** The first "/"-segment of `host/path` is the host. */
  lemma HostThenPath(host: string, path: string)
    requires '/' !in host
    requires path == "" || path[0] == '/'
    ensures SplitOn(host + path, '/')[0] == host
  {
    var rest := SplitOn(path, '/');
    if path != "" {
      assert path == "/" + path[1..];
      SplitOnSeparator(path[1..], '/');
    }
    assert rest[0] == "";
    SplitOnPrefix(host, path, '/');
    assert host + rest[0] == host;
  }

  /** A leading separator opens an empty first segment. */
  lemma SplitOnSeparator(t: string, sep: char)
    ensures SplitOn([sep] + t, sep) == [""] + SplitOn(t, sep)
  {
    assert ([sep] + t)[1..] == t;
  }

  /** The label of `scheme://host/path` depends on the lower-cased host
      alone. */
  lemma DetectSourceOfUrl(scheme: string, host: string, path: string)
    requires '/' !in scheme && '/' !in host
    requires path == "" || path[0] == '/'
    ensures DetectSource(scheme + "//" + host + path) == Some(Classify(Lower(host)))
  {
    ThirdSegment(scheme, host, path);
  }

  /** "myworkdayjobs.com" is already caught by the "workday" test. */
  lemma MyWorkdayRedundant(host: string)
    requires Contains(host, "myworkdayjobs.com")
    ensures Contains(host, "workday")
  {
    var i :| 0 <= i <= |host| && OccursAt(host, "myworkdayjobs.com", i);
    assert host[i + 2..i + 9] == host[i..i + 17][2..9];
    assert OccursAt(host, "workday", i + 2);
  }
}
