/** One poll of one feed repository: fetch the listings added since the
    stored cursor, give every verified, subscribed user the matching
    listings that were never sent to them, in one summary per user, mark
    each listing in the sent ledger before sending, and move the cursor. */
module Orchestrator {
  import opened Wrappers
  import opened Models
  import Text
  import Matcher
  import Repositories
  import Service
  import Poller

  const NewGradRepo := "SimplifyJobs/New-Grad-Positions"
  const InternshipRepo := "SimplifyJobs/Summer2026-Internships"

  /** The sent ledger: `(user_id, job_id) -> sent_at`. */
  type Ledger = map<(string, string), string>

  /** `_user_subscribed_to_repo`: an unknown repository has no subscribers. */
  function Subscribed(prefs: UserPreferences, repoName: string): (b: bool)
    ensures b <==> || (repoName == NewGradRepo && prefs.subscribe_new_grad)
                   || (repoName == InternshipRepo && prefs.subscribe_internship)
  {
    if repoName == NewGradRepo then prefs.subscribe_new_grad
    else if repoName == InternshipRepo then prefs.subscribe_internship
    else false
  }

  /** A user the poll looks at: verified and subscribed to the repository. */
  predicate Considered(user: UserContact, repoName: string) {
    user.is_verified && Subscribed(user.prefs, repoName)
  }

  /** `[j for j in jobs if MatchingEngine.matches(j, prefs)]` */
  function Candidates(jobs: seq<JobListing>, prefs: UserPreferences): (cs: seq<JobListing>)
    ensures |cs| <= |jobs|
    ensures forall k :: 0 <= k < |cs| ==> cs[k] in jobs && Matcher.Matches(cs[k], prefs)
    ensures forall k :: 0 <= k < |jobs| && Matcher.Matches(jobs[k], prefs) ==> jobs[k] in cs
  {
    if jobs == [] then []
    else
      var rest := Candidates(jobs[1..], prefs);
      assert forall k :: 1 <= k < |jobs| ==> jobs[k] == jobs[1..][k - 1];
      if Matcher.Matches(jobs[0], prefs) then [jobs[0]] + rest else rest
  }

  /** Filtering keeps order and multiplicity: the candidates of two runs
      of listings, one after the other, are the candidates of each. */
  lemma {:induction false} CandidatesConcat(a: seq<JobListing>, b: seq<JobListing>, prefs: UserPreferences)
    ensures Candidates(a + b, prefs) == Candidates(a, prefs) + Candidates(b, prefs)
    decreases |a|
  {
    if a == [] {
      assert a + b == b;
    } else {
      assert (a + b)[0] == a[0] && (a + b)[1..] == a[1..] + b;
      CandidatesConcat(a[1..], b, prefs);
    }
  }

  /** One listing in the middle of the run is a candidate, in its place,
      exactly when it matches. */
  lemma CandidatesAround(a: seq<JobListing>, j: JobListing, b: seq<JobListing>, prefs: UserPreferences)
    ensures Candidates(a + [j] + b, prefs)
         == Candidates(a, prefs) + (if Matcher.Matches(j, prefs) then [j] else []) + Candidates(b, prefs)
  {
    var one := if Matcher.Matches(j, prefs) then [j] else [];
    assert Candidates([j], prefs) == one by {
      assert [j][1..] == [];
    }
    CandidatesConcat(a, [j], prefs);
    CandidatesConcat(a + [j], b, prefs);
  }

  /** The dedupe loop: a candidate already in the ledger for this user is
      skipped; any other is marked, then joins the batch. The result is
      the ledger after marking and the batch. */
  function Dedupe(sent: Ledger, userId: string, cands: seq<JobListing>, now: string): (Ledger, seq<JobListing>)
    decreases |cands|
  {
    if cands == [] then (sent, [])
    else if (userId, cands[0].id) in sent then Dedupe(sent, userId, cands[1..], now)
    else
      var rest := Dedupe(Repositories.Marked(sent, userId, cands[0].id, now), userId, cands[1..], now);
      (rest.0, [cands[0]] + rest.1)
  }

  /** One summary handed to the notifier. */
  datatype Batch = Batch(user: UserContact, jobs: seq<JobListing>)

  /** What the run knows about the poll it is in. */
  datatype Setting = Setting(repoName: string, repoLabel: string, jobs: seq<JobListing>, now: string)

  /** The state the loop over users carries: the ledger, the summaries so
      far, and the two counters. */
  datatype Round = Round(sent: Ledger, batches: seq<Batch>, notified: nat, jobsSent: nat)

  /** The listings one pass of the loop picks for a user, and the ledger
      after it: nothing for a user passed over, otherwise the dedupe of
      the user's candidates. */
  function Pick(sent: Ledger, user: UserContact, s: Setting): (Ledger, seq<JobListing>) {
    if !Considered(user, s.repoName) then (sent, [])
    else Dedupe(sent, user.id, Candidates(s.jobs, user.prefs), s.now)
  }

  /** One pass of the loop over users: an empty pick is skipped, any other
      becomes a summary and moves both counters. */
  function Visit(r: Round, user: UserContact, s: Setting): Round {
    var p := Pick(r.sent, user, s);
    if p.1 == [] then r.(sent := p.0)
    else Round(p.0, r.batches + [Batch(user, p.1)], r.notified + 1, r.jobsSent + |p.1|)
  }

  /** The loop over users, in order. */
  function Dispatch(r: Round, users: seq<UserContact>, s: Setting): Round
    decreases |users|
  {
    if users == [] then r else Dispatch(Visit(r, users[0], s), users[1..], s)
  }

  /** The messages the notifier hands to its sender for a run of batches. */
  function Messages(batches: seq<Batch>, repoLabel: string,
                    edit: UserContact -> string, unsub: UserContact -> string): seq<Service.Message>
    decreases |batches|
  {
    if batches == [] then []
    else
      var b := batches[|batches| - 1];
      Messages(batches[..|batches| - 1], repoLabel, edit, unsub)
        + Service.SummaryMessages(b.user, b.jobs, repoLabel, edit(b.user), unsub(b.user))
  }

  /** The dictionary `run_poll_for_repo` returns. */
  datatype Stats = Stats(repo_name: string, last_sha_before: string, last_sha_after: string,
                         jobs_considered: nat, users_notified: nat, jobs_sent_total: nat)

  /** Everything a poll writes: the ledger, the sender's log, the cursors. */
  datatype World = World(sent: Ledger, outbox: seq<Service.Message>, cursors: map<string, Repositories.RepoState>)

  /** `get_last_sha(repo) or ""` */
  function LastSha(cursors: map<string, Repositories.RepoState>, repoName: string): string {
    if repoName in cursors then cursors[repoName].last_sha else ""
  }

  type Fetch = string -> Result<(seq<JobListing>, string), Poller.PollError>

  /** The whole poll. A failing fetch ends it before anything is written. */
  function RunPoll(w: World, repoName: string, repoLabel: string, fetch: Fetch, users: seq<UserContact>,
                   now: string, edit: UserContact -> string, unsub: UserContact -> string)
    : (Result<Stats, Poller.PollError>, World)
  {
    var last := LastSha(w.cursors, repoName);
    var fetched := fetch(last);
    if fetched.Err? then (Err(fetched.error), w)
    else
      var jobs := fetched.value.0;
      var latest := fetched.value.1;
      var d := Dispatch(Round(w.sent, [], 0, 0), users, Setting(repoName, repoLabel, jobs, now));
      var cursors := if latest != "" && latest != last then Repositories.Upserted(w.cursors, repoName, latest, now)
                     else w.cursors;
      (Ok(Stats(repoName, last, if latest != "" then latest else last, |jobs|, d.notified, d.jobsSent)),
       World(d.sent, w.outbox + Messages(d.batches, repoLabel, edit, unsub), cursors))
  }

  // ------------------------------------------------------------ the loops

  /** The dedupe loop of `run_poll_for_repo` on the ledger object. */
  method MarkNew(ledger: Repositories.SentNotificationsRepository, userId: string, cands: seq<JobListing>,
                 now: string) returns (picked: seq<JobListing>)
    modifies ledger
    ensures (ledger.sent, picked) == Dedupe(old(ledger.sent), userId, cands, now)
  {
    picked := [];
    assert cands[0..] == cands;
    assert [] + Dedupe(old(ledger.sent), userId, cands, now).1 == Dedupe(old(ledger.sent), userId, cands, now).1;
    for k := 0 to |cands|
      invariant var d := Dedupe(ledger.sent, userId, cands[k..], now);
        Dedupe(old(ledger.sent), userId, cands, now) == (d.0, picked + d.1)
    {
      var j := cands[k];
      assert cands[k..][0] == j && cands[k..][1..] == cands[k + 1..];
      ghost var rest := Dedupe(ledger.sent, userId, cands[k + 1..], now);
      if !ledger.WasSent(userId, j.id) {
        ledger.MarkSent(userId, j.id, now);
        ghost var after := Dedupe(ledger.sent, userId, cands[k + 1..], now);
        assert picked + ([j] + after.1) == (picked + [j]) + after.1;
        picked := picked + [j];
      }
    }
    assert cands[|cands|..] == [];
    assert picked + [] == picked;
  }

  /** `run_poll_for_repo`. `fetch` is the poller's `fetch_new_listings`
      and `now` the clock reading the writes are stamped with. */
  method RunPollForRepo(repoName: string, repoLabel: string, fetch: Fetch, users: seq<UserContact>,
                        ledger: Repositories.SentNotificationsRepository,
                        cursors: Repositories.RepoStateRepository,
                        notifier: Service.NotificationService, now: string)
    returns (r: Result<Stats, Poller.PollError>)
    modifies ledger, cursors, notifier.sender
    ensures (r, World(ledger.sent, notifier.sender.sent, cursors.rows))
         == RunPoll(World(old(ledger.sent), old(notifier.sender.sent), old(cursors.rows)),
                    repoName, repoLabel, fetch, users, now, notifier.editLinkBuilder, notifier.unsubscribeLinkBuilder)
  {
    var stored := cursors.GetLastSha(repoName);
    var lastSha := if stored.Some? then stored.value else "";
    var fetched := fetch(lastSha);
    if fetched.Err? {
      return Err(fetched.error);
    }
    var jobs := fetched.value.0;
    var latestSha := fetched.value.1;

    var usersNotified: nat := 0;
    var jobsSentTotal: nat := 0;
    var jobsConsidered := |jobs|;
    var s := Setting(repoName, repoLabel, jobs, now);
    ghost var batches: seq<Batch> := [];

    for i := 0 to |users|
      invariant cursors.rows == old(cursors.rows)
      invariant Dispatch(Round(old(ledger.sent), [], 0, 0), users, s)
             == Dispatch(Round(ledger.sent, batches, usersNotified, jobsSentTotal), users[i..], s)
      invariant notifier.sender.sent == old(notifier.sender.sent)
                + Messages(batches, repoLabel, notifier.editLinkBuilder, notifier.unsubscribeLinkBuilder)
    {
      Stepped(Round(ledger.sent, batches, usersNotified, jobsSentTotal), users, i, s);
      batches, usersNotified, jobsSentTotal :=
        VisitUser(users[i], s, ledger, notifier, old(notifier.sender.sent), batches, usersNotified, jobsSentTotal);
    }
    assert users[|users|..] == [];

    if latestSha != "" && latestSha != lastSha {
      cursors.UpsertLastSha(repoName, latestSha, now);
    }
    r := Ok(Stats(repoName, lastSha, if latestSha != "" then latestSha else lastSha,
                  jobsConsidered, usersNotified, jobsSentTotal));
  }

  /** One pass of the loop over users: pick the user's new listings and,
      when there are any, send the summary and count it. `base` is the
      sender's log before the loop, `batches` the summaries sent since. */
  method VisitUser(user: UserContact, s: Setting,
                   ledger: Repositories.SentNotificationsRepository, notifier: Service.NotificationService,
                   ghost base: seq<Service.Message>, ghost batches: seq<Batch>, notified: nat, jobsSent: nat)
    returns (ghost batches': seq<Batch>, notified': nat, jobsSent': nat)
    requires notifier.sender.sent
          == base + Messages(batches, s.repoLabel, notifier.editLinkBuilder, notifier.unsubscribeLinkBuilder)
    modifies ledger, notifier.sender
    ensures Round(ledger.sent, batches', notified', jobsSent')
         == Visit(Round(old(ledger.sent), batches, notified, jobsSent), user, s)
    ensures notifier.sender.sent
         == base + Messages(batches', s.repoLabel, notifier.editLinkBuilder, notifier.unsubscribeLinkBuilder)
  {
    ghost var before := Round(ledger.sent, batches, notified, jobsSent);
    var newMatches := PickNew(user, s, ledger);
    VisitOfPick(before, user, s, ledger.sent, newMatches);
    batches', notified', jobsSent' :=
      SendNew(user, newMatches, s.repoLabel, ledger, notifier, base, batches, notified, jobsSent);
  }

  /** The end of one pass: no summary for an empty pick, otherwise send
      it and move both counters. */
  method SendNew(user: UserContact, newMatches: seq<JobListing>, repoLabel: string,
                 ledger: Repositories.SentNotificationsRepository, notifier: Service.NotificationService,
                 ghost base: seq<Service.Message>, ghost batches: seq<Batch>, notified: nat, jobsSent: nat)
    returns (ghost batches': seq<Batch>, notified': nat, jobsSent': nat)
    requires forall k :: 0 <= k < |newMatches| ==> (user.id, newMatches[k].id) in ledger.sent
    requires notifier.sender.sent
          == base + Messages(batches, repoLabel, notifier.editLinkBuilder, notifier.unsubscribeLinkBuilder)
    modifies notifier.sender
    ensures (batches', notified', jobsSent')
         == if newMatches == [] then (batches, notified, jobsSent)
            else (batches + [Batch(user, newMatches)], notified + 1, jobsSent + |newMatches|)
    ensures notifier.sender.sent
         == base + Messages(batches', repoLabel, notifier.editLinkBuilder, notifier.unsubscribeLinkBuilder)
  {
    batches', notified', jobsSent' := batches, notified, jobsSent;
    if newMatches != [] {
      batches' := SendBatch(Batch(user, newMatches), repoLabel, notifier, ledger, base, batches);
      notified' := notified + 1;
      jobsSent' := jobsSent + |newMatches|;
    }
  }

  /** The guards and the dedupe of one pass of the loop over users. */
  method PickNew(user: UserContact, s: Setting, ledger: Repositories.SentNotificationsRepository)
    returns (newMatches: seq<JobListing>)
    modifies ledger
    ensures (ledger.sent, newMatches) == Pick(old(ledger.sent), user, s)
    ensures forall k :: 0 <= k < |newMatches| ==> (user.id, newMatches[k].id) in ledger.sent
  {
    if !user.is_verified {
      return [];
    }
    if !Subscribed(user.prefs, s.repoName) {
      return [];
    }
    var candidates := Candidates(s.jobs, user.prefs);
    DedupeFresh(ledger.sent, user.id, candidates, s.now);
    newMatches := MarkNew(ledger, user.id, candidates, s.now);
  }

  /** `send_summary` for one batch, and its place in the sender's log.
      Every listing of the batch must already be marked sent to the user. */
  method SendBatch(b: Batch, repoLabel: string, notifier: Service.NotificationService,
                   ledger: Repositories.SentNotificationsRepository,
                   ghost base: seq<Service.Message>, ghost batches: seq<Batch>)
    returns (ghost batches': seq<Batch>)
    requires forall k :: 0 <= k < |b.jobs| ==> (b.user.id, b.jobs[k].id) in ledger.sent
    requires notifier.sender.sent
          == base + Messages(batches, repoLabel, notifier.editLinkBuilder, notifier.unsubscribeLinkBuilder)
    modifies notifier.sender
    ensures batches' == batches + [b]
    ensures notifier.sender.sent
         == base + Messages(batches', repoLabel, notifier.editLinkBuilder, notifier.unsubscribeLinkBuilder)
  {
    ghost var earlier := Messages(batches, repoLabel, notifier.editLinkBuilder, notifier.unsubscribeLinkBuilder);
    notifier.SendSummary(b.user, b.jobs, repoLabel);
    ghost var summary := Service.SummaryMessages(b.user, b.jobs, repoLabel,
                           notifier.editLinkBuilder(b.user), notifier.unsubscribeLinkBuilder(b.user));
    MessagesAppend(batches, b, repoLabel, notifier.editLinkBuilder, notifier.unsubscribeLinkBuilder);
    Text.AppendAssociates(base, earlier, summary);
    batches' := batches + [b];
  }

  // -------------------------------------------------------- loop helpers

  lemma Stepped(r: Round, users: seq<UserContact>, i: int, s: Setting)
    requires 0 <= i < |users|
    ensures Dispatch(r, users[i..], s) == Dispatch(Visit(r, users[i], s), users[i + 1..], s)
  {
    assert users[i..][0] == users[i] && users[i..][1..] == users[i + 1..];
  }

  /** A visit in terms of what the pick left. */
  lemma VisitOfPick(r: Round, user: UserContact, s: Setting, sent: Ledger, picked: seq<JobListing>)
    requires Pick(r.sent, user, s) == (sent, picked)
    ensures Visit(r, user, s) == if picked == [] then r.(sent := sent)
      else Round(sent, r.batches + [Batch(user, picked)], r.notified + 1, r.jobsSent + |picked|)
  {
  }

  lemma MessagesAppend(batches: seq<Batch>, b: Batch, repoLabel: string,
                       edit: UserContact -> string, unsub: UserContact -> string)
    ensures Messages(batches + [b], repoLabel, edit, unsub)
         == Messages(batches, repoLabel, edit, unsub)
            + Service.SummaryMessages(b.user, b.jobs, repoLabel, edit(b.user), unsub(b.user))
  {
    assert (batches + [b])[..|batches|] == batches;
  }

  // ------------------------------------------------------------ properties

  /** Every listing id in a batch is different. */
  predicate DistinctIds(js: seq<JobListing>) {
    forall k, l :: 0 <= k < l < |js| ==> js[k].id != js[l].id
  }

  /** Every candidate is in the ledger for this user. */
  predicate AllMarked(sent: Ledger, userId: string, cands: seq<JobListing>) {
    forall k :: 0 <= k < |cands| ==> (userId, cands[k].id) in sent
  }

  /** The ledger only grows, and a `sent_at` once written never changes. */
  predicate Grows(before: Ledger, after: Ledger) {
    forall key :: key in before ==> key in after && after[key] == before[key]
  }

  /** Dedupe only adds rows, one per listing in the batch. */
  lemma {:induction false} DedupeLedger(sent: Ledger, userId: string, cands: seq<JobListing>, now: string)
    ensures var d := Dedupe(sent, userId, cands, now);
      Grows(sent, d.0) && |d.0.Keys| == |sent.Keys| + |d.1|
    decreases |cands|
  {
    if cands != [] {
      var pair := (userId, cands[0].id);
      if pair in sent {
        DedupeLedger(sent, userId, cands[1..], now);
      } else {
        var m := Repositories.Marked(sent, userId, cands[0].id, now);
        assert |m.Keys| == |sent.Keys| + 1 by {
          assert m.Keys == sent.Keys + {pair};
        }
        DedupeLedger(m, userId, cands[1..], now);
      }
    }
  }

  /** The batch holds candidates never sent to this user before, each once,
      and each is in the ledger afterwards. */
  lemma DedupeFresh(sent: Ledger, userId: string, cands: seq<JobListing>, now: string)
    ensures var d := Dedupe(sent, userId, cands, now);
      && DistinctIds(d.1)
      && (forall k :: 0 <= k < |d.1| ==> d.1[k] in cands)
      && (forall k :: 0 <= k < |d.1| ==> (userId, d.1[k].id) !in sent && (userId, d.1[k].id) in d.0)
  {
    DedupeFromCands(sent, userId, cands, now);
    DedupeNew(sent, userId, cands, now);
    DedupeDistinct(sent, userId, cands, now);
  }

  /** Every listing in the batch is one of the candidates. */
  lemma {:induction false} DedupeFromCands(sent: Ledger, userId: string, cands: seq<JobListing>, now: string)
    ensures forall j :: j in Dedupe(sent, userId, cands, now).1 ==> j in cands
    decreases |cands|
  {
    if cands != [] {
      var m := if (userId, cands[0].id) in sent then sent else Repositories.Marked(sent, userId, cands[0].id, now);
      DedupeFromCands(m, userId, cands[1..], now);
      var d := Dedupe(m, userId, cands[1..], now);
      assert cands == [cands[0]] + cands[1..];
    }
  }

  /** Every listing in the batch was absent from the ledger before and is
      present after. */
  lemma {:induction false} DedupeNew(sent: Ledger, userId: string, cands: seq<JobListing>, now: string)
    ensures forall j :: j in Dedupe(sent, userId, cands, now).1 ==>
              (userId, j.id) !in sent && (userId, j.id) in Dedupe(sent, userId, cands, now).0
    decreases |cands|
  {
    if cands != [] {
      var pair := (userId, cands[0].id);
      if pair in sent {
        DedupeNew(sent, userId, cands[1..], now);
      } else {
        var m := Repositories.Marked(sent, userId, cands[0].id, now);
        DedupeNew(m, userId, cands[1..], now);
        DedupeLedger(m, userId, cands[1..], now);
        var d := Dedupe(m, userId, cands[1..], now);
        assert Dedupe(sent, userId, cands, now) == (d.0, [cands[0]] + d.1);
        assert pair in m;
      }
    }
  }

  /** No listing id appears twice in the batch. */
  lemma {:induction false} DedupeDistinct(sent: Ledger, userId: string, cands: seq<JobListing>, now: string)
    ensures DistinctIds(Dedupe(sent, userId, cands, now).1)
    decreases |cands|
  {
    if cands != [] {
      var pair := (userId, cands[0].id);
      if pair in sent {
        DedupeDistinct(sent, userId, cands[1..], now);
      } else {
        var m := Repositories.Marked(sent, userId, cands[0].id, now);
        DedupeDistinct(m, userId, cands[1..], now);
        DedupeNew(m, userId, cands[1..], now);
        var d := Dedupe(m, userId, cands[1..], now);
        assert pair in m;
        forall k | 0 <= k < |d.1| ensures d.1[k].id != cands[0].id {
          assert d.1[k] in d.1;
        }
        DistinctCons(cands[0], d.1);
      }
    }
  }

  lemma DistinctCons(c: JobListing, rest: seq<JobListing>)
    requires DistinctIds(rest)
    requires forall k :: 0 <= k < |rest| ==> rest[k].id != c.id
    ensures DistinctIds([c] + rest)
  {
    var all := [c] + rest;
    assert forall k :: 1 <= k < |all| ==> all[k] == rest[k - 1];
  }

  /** Afterwards every candidate is in the ledger for this user. */
  lemma {:induction false} DedupeCovers(sent: Ledger, userId: string, cands: seq<JobListing>, now: string)
    ensures AllMarked(Dedupe(sent, userId, cands, now).0, userId, cands)
    decreases |cands|
  {
    if cands != [] {
      var pair := (userId, cands[0].id);
      var rest := cands[1..];
      if pair in sent {
        DedupeCovers(sent, userId, rest, now);
        DedupeLedger(sent, userId, rest, now);
      } else {
        var m := Repositories.Marked(sent, userId, cands[0].id, now);
        DedupeCovers(m, userId, rest, now);
        DedupeLedger(m, userId, rest, now);
      }
      var after := Dedupe(sent, userId, cands, now).0;
      assert forall k :: 1 <= k < |cands| ==> cands[k] == rest[k - 1];
    }
  }

  /** When every candidate is already in the ledger, dedupe sends nothing
      and writes nothing. */
  lemma {:induction false} DedupeAllMarked(sent: Ledger, userId: string, cands: seq<JobListing>, now: string)
    requires AllMarked(sent, userId, cands)
    ensures Dedupe(sent, userId, cands, now) == (sent, [])
    decreases |cands|
  {
    if cands != [] {
      assert (userId, cands[0].id) in sent;
      DedupeAllMarked(sent, userId, cands[1..], now);
    }
  }

  /** A user who is not verified, or not subscribed to the repository, is
      passed over: nothing is marked and nothing is sent. */
  lemma PassedOver(r: Round, user: UserContact, s: Setting)
    requires !user.is_verified || !Subscribed(user.prefs, s.repoName)
    ensures Visit(r, user, s) == r
  {
  }

  /** A batch the poll hands to the notifier. */
  predicate GoodBatch(before: Ledger, after: Ledger, b: Batch, s: Setting) {
    && Considered(b.user, s.repoName)
    && b.jobs != []
    && DistinctIds(b.jobs)
    && (forall k :: 0 <= k < |b.jobs| ==> b.jobs[k] in Candidates(s.jobs, b.user.prefs))
    && (forall k :: 0 <= k < |b.jobs| ==> (b.user.id, b.jobs[k].id) !in before)
    && (forall k :: 0 <= k < |b.jobs| ==> (b.user.id, b.jobs[k].id) in after)
  }

  /** One visit: the ledger grows by exactly the listings it sends, at
      most one batch is added, and any batch added is a good one. */
  lemma VisitFacts(r: Round, user: UserContact, s: Setting)
    ensures var v := Visit(r, user, s);
      && Grows(r.sent, v.sent)
      && |v.sent.Keys| + r.jobsSent == |r.sent.Keys| + v.jobsSent
      && |r.batches| <= |v.batches| <= |r.batches| + 1
      && v.notified - r.notified == |v.batches| - |r.batches|
      && v.batches[..|r.batches|] == r.batches
      && (forall k :: |r.batches| <= k < |v.batches| ==> v.batches[k].user == user && GoodBatch(r.sent, v.sent, v.batches[k], s))
      && (Considered(user, s.repoName) ==> AllMarked(v.sent, user.id, Candidates(s.jobs, user.prefs)))
  {
    if Considered(user, s.repoName) {
      var cs := Candidates(s.jobs, user.prefs);
      DedupeLedger(r.sent, user.id, cs, s.now);
      DedupeFresh(r.sent, user.id, cs, s.now);
      DedupeCovers(r.sent, user.id, cs, s.now);
    }
  }

  lemma GrowsTrans(a: Ledger, b: Ledger, c: Ledger)
    requires Grows(a, b) && Grows(b, c)
    ensures Grows(a, c)
  {
  }

  /** Over the whole loop: the ledger only grows, and by exactly
      `jobs_sent_total` rows; one good batch per notified user, at most
      one per user visited; every considered user's candidates end up in
      the ledger. */
  lemma {:induction false} DispatchFacts(r: Round, users: seq<UserContact>, s: Setting)
    ensures var d := Dispatch(r, users, s);
      && Grows(r.sent, d.sent)
      && |d.sent.Keys| + r.jobsSent == |r.sent.Keys| + d.jobsSent
      && |r.batches| <= |d.batches| <= |r.batches| + |users|
      && d.notified - r.notified == |d.batches| - |r.batches|
      && d.batches[..|r.batches|] == r.batches
      && (forall k :: |r.batches| <= k < |d.batches| ==> GoodBatch(r.sent, d.sent, d.batches[k], s))
    decreases |users|
  {
    if users != [] {
      var v := Visit(r, users[0], s);
      VisitFacts(r, users[0], s);
      DispatchFacts(v, users[1..], s);
      var d := Dispatch(v, users[1..], s);
      GrowsTrans(r.sent, v.sent, d.sent);
      assert d.batches[..|r.batches|] == r.batches by {
        assert d.batches[..|v.batches|][..|r.batches|] == d.batches[..|r.batches|];
      }
      forall k | |r.batches| <= k < |d.batches|
        ensures GoodBatch(r.sent, d.sent, d.batches[k], s)
      {
        if k < |v.batches| {
          assert d.batches[k] == v.batches[k] by {
            assert d.batches[..|v.batches|][k] == d.batches[k];
          }
          GoodBatchWiden(r.sent, r.sent, v.sent, d.sent, d.batches[k], s);
        } else {
          GoodBatchWiden(r.sent, v.sent, d.sent, d.sent, d.batches[k], s);
        }
      }
    }
  }

  lemma GoodBatchWiden(before: Ledger, before2: Ledger, after: Ledger, after2: Ledger, b: Batch, s: Setting)
    requires GoodBatch(before2, after, b, s)
    requires Grows(before, before2) && Grows(after, after2)
    ensures GoodBatch(before, after2, b, s)
  {
  }

  /** Every considered user's candidates are all in the ledger after the loop. */
  lemma {:induction false} DispatchCovers(r: Round, users: seq<UserContact>, s: Setting, i: int)
    requires 0 <= i < |users| && Considered(users[i], s.repoName)
    ensures AllMarked(Dispatch(r, users, s).sent, users[i].id, Candidates(s.jobs, users[i].prefs))
    decreases |users|
  {
    var v := Visit(r, users[0], s);
    if i == 0 {
      var cs := Candidates(s.jobs, users[0].prefs);
      var d := Dispatch(v, users[1..], s);
      assert AllMarked(v.sent, users[0].id, cs) by {
        VisitFacts(r, users[0], s);
      }
      assert Grows(v.sent, d.sent) by {
        DispatchFacts(v, users[1..], s);
      }
      AllMarkedGrows(v.sent, d.sent, users[0].id, cs);
    } else {
      assert users[1..][i - 1] == users[i];
      DispatchCovers(v, users[1..], s, i - 1);
    }
  }

  lemma AllMarkedGrows(a: Ledger, b: Ledger, userId: string, cands: seq<JobListing>)
    requires Grows(a, b) && AllMarked(a, userId, cands)
    ensures AllMarked(b, userId, cands)
  {
  }

  /** With every considered user's candidates already in the ledger, the
      loop sends nothing, counts nothing and writes nothing. */
  lemma {:induction false} DispatchAllMarked(r: Round, users: seq<UserContact>, s: Setting)
    requires forall i :: 0 <= i < |users| && Considered(users[i], s.repoName) ==>
               AllMarked(r.sent, users[i].id, Candidates(s.jobs, users[i].prefs))
    ensures Dispatch(r, users, s) == r
    decreases |users|
  {
    if users != [] {
      if Considered(users[0], s.repoName) {
        DedupeAllMarked(r.sent, users[0].id, Candidates(s.jobs, users[0].prefs), s.now);
      }
      assert Visit(r, users[0], s) == r;
      DispatchAllMarked(r, users[1..], s);
    }
  }

  /** Running the loop a second time over the same listings sends nothing:
      the dedupe makes a repeated poll idempotent. */
  lemma DispatchIdempotent(r: Round, users: seq<UserContact>, s: Setting)
    ensures var d := Dispatch(r, users, s);
      Dispatch(d, users, s) == d
  {
    var d := Dispatch(r, users, s);
    forall i | 0 <= i < |users| && Considered(users[i], s.repoName)
      ensures AllMarked(d.sent, users[i].id, Candidates(s.jobs, users[i].prefs))
    {
      DispatchCovers(r, users, s, i);
    }
    DispatchAllMarked(d, users, s);
  }

  /** A failing fetch leaves the ledger, the sender and the cursors alone. */
  lemma FailedFetchWritesNothing(w: World, repoName: string, repoLabel: string, fetch: Fetch,
                                 users: seq<UserContact>, now: string,
                                 edit: UserContact -> string, unsub: UserContact -> string)
    requires fetch(LastSha(w.cursors, repoName)).Err?
    ensures RunPoll(w, repoName, repoLabel, fetch, users, now, edit, unsub).1 == w
  {
  }

  /** After a successful poll the stored cursor is the reported
      `last_sha_after`, the ledger has grown by exactly `jobs_sent_total`
      rows, and no more users were notified than were visited. */
  lemma PollStats(w: World, repoName: string, repoLabel: string, fetch: Fetch, users: seq<UserContact>,
                  now: string, edit: UserContact -> string, unsub: UserContact -> string)
    requires fetch(LastSha(w.cursors, repoName)).Ok?
    ensures var (res, w2) := RunPoll(w, repoName, repoLabel, fetch, users, now, edit, unsub);
      && res.Ok?
      && res.value.last_sha_before == LastSha(w.cursors, repoName)
      && LastSha(w2.cursors, repoName) == res.value.last_sha_after
      && Grows(w.sent, w2.sent)
      && |w2.sent.Keys| == |w.sent.Keys| + res.value.jobs_sent_total
      && res.value.users_notified <= |users|
      && res.value.users_notified <= res.value.jobs_sent_total
  {
    var last := LastSha(w.cursors, repoName);
    var jobs := fetch(last).value.0;
    var s := Setting(repoName, repoLabel, jobs, now);
    var r0 := Round(w.sent, [], 0, 0);
    DispatchFacts(r0, users, s);
    var d := Dispatch(r0, users, s);
    NotifiedBound(r0, users, s);
  }

  /** The stored cursor moves only when the fetch reported a new, non-empty
      head commit, and then to that commit; no other repository's row changes. */
  lemma PollCursors(w: World, repoName: string, repoLabel: string, fetch: Fetch, users: seq<UserContact>,
                    now: string, edit: UserContact -> string, unsub: UserContact -> string)
    requires fetch(LastSha(w.cursors, repoName)).Ok?
    ensures var last := LastSha(w.cursors, repoName);
      var latest := fetch(last).value.1;
      var w2 := RunPoll(w, repoName, repoLabel, fetch, users, now, edit, unsub).1;
      && (latest == "" || latest == last ==> w2.cursors == w.cursors)
      && (latest != "" && latest != last ==>
            repoName in w2.cursors && w2.cursors[repoName] == Repositories.RepoState(latest, now))
      && (forall other :: other != repoName ==> (other in w2.cursors <==> other in w.cursors))
      && (forall other :: other != repoName && other in w.cursors ==> w2.cursors[other] == w.cursors[other])
  {
  }

  /** Distinct users have distinct ids. */
  predicate DistinctUserIds(users: seq<UserContact>) {
    forall i, j :: 0 <= i < j < |users| ==> users[i].id != users[j].id
  }

  /** A successful poll appends to the sender's log exactly the summaries
      of the loop's batches, one per notified user, in the order of
      `users`; each goes to one of `users`, and when the ids in `users` are
      distinct no user gets two. */
  lemma PollSummaries(w: World, repoName: string, repoLabel: string, fetch: Fetch, users: seq<UserContact>,
                      now: string, edit: UserContact -> string, unsub: UserContact -> string)
    requires fetch(LastSha(w.cursors, repoName)).Ok?
    ensures var (res, w2) := RunPoll(w, repoName, repoLabel, fetch, users, now, edit, unsub);
      var s := Setting(repoName, repoLabel, fetch(LastSha(w.cursors, repoName)).value.0, now);
      var bs := Dispatch(Round(w.sent, [], 0, 0), users, s).batches;
      && res.Ok?
      && w2.outbox == w.outbox + Messages(bs, repoLabel, edit, unsub)
      && |bs| == res.value.users_notified
      && (forall k :: 0 <= k < |bs| ==> bs[k].user in users && GoodBatch(w.sent, w2.sent, bs[k], s))
      && (DistinctUserIds(users) ==> forall k, l :: 0 <= k < l < |bs| ==> bs[k].user.id != bs[l].user.id)
  {
    var s := Setting(repoName, repoLabel, fetch(LastSha(w.cursors, repoName)).value.0, now);
    var r0 := Round(w.sent, [], 0, 0);
    DispatchFacts(r0, users, s);
    DispatchUsers(r0, users, s);
    if DistinctUserIds(users) {
      DispatchOnePerUser(r0, users, s);
    }
  }

  /** The batches a visit adds: none or one, for the visited user. */
  lemma VisitBatches(r: Round, user: UserContact, s: Setting)
    ensures var v := Visit(r, user, s);
      && |r.batches| <= |v.batches| <= |r.batches| + 1
      && v.batches[..|r.batches|] == r.batches
      && (forall k :: |r.batches| <= k < |v.batches| ==> v.batches[k].user == user)
  {
  }

  /** Every batch of the loop goes to one of the users it visits. */
  lemma {:induction false} DispatchUsers(r: Round, users: seq<UserContact>, s: Setting)
    ensures var d := Dispatch(r, users, s);
      && |r.batches| <= |d.batches|
      && d.batches[..|r.batches|] == r.batches
      && (forall k :: |r.batches| <= k < |d.batches| ==> d.batches[k].user in users)
    decreases |users|
  {
    if users != [] {
      var v := Visit(r, users[0], s);
      VisitBatches(r, users[0], s);
      DispatchUsers(v, users[1..], s);
      var d := Dispatch(v, users[1..], s);
      assert d.batches[..|r.batches|] == r.batches by {
        assert d.batches[..|v.batches|][..|r.batches|] == d.batches[..|r.batches|];
      }
      forall k | |r.batches| <= k < |d.batches| ensures d.batches[k].user in users {
        if k < |v.batches| {
          assert d.batches[k] == v.batches[k] by {
            assert d.batches[..|v.batches|][k] == d.batches[k];
          }
        } else {
          assert d.batches[k].user in users[1..];
        }
      }
    }
  }

  /** When the users' ids are distinct, no two batches of the loop share
      a user id: each user gets one summary at most. */
  lemma {:induction false} DispatchOnePerUser(r: Round, users: seq<UserContact>, s: Setting)
    requires DistinctUserIds(users)
    ensures var d := Dispatch(r, users, s);
      forall k, l :: |r.batches| <= k < l < |d.batches| ==> d.batches[k].user.id != d.batches[l].user.id
    decreases |users|
  {
    if users != [] {
      var v := Visit(r, users[0], s);
      var tail := users[1..];
      assert DistinctUserIds(tail) by {
        forall i, j | 0 <= i < j < |tail| ensures tail[i].id != tail[j].id {
          assert tail[i] == users[i + 1] && tail[j] == users[j + 1];
        }
      }
      VisitBatches(r, users[0], s);
      DispatchUsers(v, tail, s);
      DispatchOnePerUser(v, tail, s);
      var d := Dispatch(v, tail, s);
      forall k, l | |r.batches| <= k < l < |d.batches|
        ensures d.batches[k].user.id != d.batches[l].user.id
      {
        if k < |v.batches| {
          assert d.batches[k] == v.batches[k] by {
            assert d.batches[..|v.batches|][k] == d.batches[k];
          }
          var u := d.batches[l].user;
          assert u in tail;
          var j :| 0 <= j < |tail| && tail[j] == u;
          assert users[j + 1] == u;
        }
      }
    }
  }

  /** Each notified user was sent at least one listing. */
  lemma {:induction false} NotifiedBound(r: Round, users: seq<UserContact>, s: Setting)
    requires r.notified <= r.jobsSent
    ensures Dispatch(r, users, s).notified <= Dispatch(r, users, s).jobsSent
    decreases |users|
  {
    if users != [] {
      NotifiedBound(Visit(r, users[0], s), users[1..], s);
    }
  }

  /** Polling again after a poll that fetched the same listings sends
      nothing more and adds no ledger rows. */
  lemma RepeatedPollSendsNothing(w: World, repoName: string, repoLabel: string, fetch: Fetch,
                                 users: seq<UserContact>, now: string,
                                 edit: UserContact -> string, unsub: UserContact -> string)
    requires fetch(LastSha(w.cursors, repoName)).Ok?
    requires var w1 := RunPoll(w, repoName, repoLabel, fetch, users, now, edit, unsub).1;
      && fetch(LastSha(w1.cursors, repoName)).Ok?
      && fetch(LastSha(w1.cursors, repoName)).value.0 == fetch(LastSha(w.cursors, repoName)).value.0
    ensures var w1 := RunPoll(w, repoName, repoLabel, fetch, users, now, edit, unsub).1;
      var (res2, w2) := RunPoll(w1, repoName, repoLabel, fetch, users, now, edit, unsub);
      && res2.Ok? && res2.value.users_notified == 0 && res2.value.jobs_sent_total == 0
      && w2.sent == w1.sent && w2.outbox == w1.outbox
  {
    var jobs := fetch(LastSha(w.cursors, repoName)).value.0;
    var s := Setting(repoName, repoLabel, jobs, now);
    var d := Dispatch(Round(w.sent, [], 0, 0), users, s);
    assert Dispatch(Round(d.sent, [], 0, 0), users, s) == Round(d.sent, [], 0, 0) by {
      forall i | 0 <= i < |users| && Considered(users[i], s.repoName)
        ensures AllMarked(d.sent, users[i].id, Candidates(s.jobs, users[i].prefs))
      {
        DispatchCovers(Round(w.sent, [], 0, 0), users, s, i);
      }
      DispatchAllMarked(Round(d.sent, [], 0, 0), users, s);
    }
  }
}
