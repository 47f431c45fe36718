# swe-repo-notify — a verified model of the notification pipeline

swe-repo-notify watches two GitHub repositories that publish internship and
new-grad job postings as a JSON file. Each poll of a feed repository does five things:

1. It lists the commits newer than a stored cursor.
2. It parses the added JSON objects out of each commit's diff of `listings.json`.
3. It matches every posting against every verified, subscribed user's preferences.
4. It removes the (user, posting) pairs already in the sent ledger, marking each new pair before sending.
5. It hands every user one summary (at most one email and one SMS), then moves the cursor.

A leased run-lock table guards against two concurrent polls.

The Dafny project models that pipeline, one module per source file:

| module | file | models |
|---|---|---|
| `Wrappers` | wrappers.dfy | `Option` and `Result` |
| `Text` | text.dfy | the Python string operations the code relies on (`strip`, `lower`, `split`, `splitlines`, `join`, `in`) |
| `Models` | models.dfy | `JobListing`, `UserPreferences`, `UserContact` |
| `Matcher` | matcher.dfy | `matcher.py` |
| `Parser` | parser.dfy | `parser.py` |
| `Poller` | poller.dfy | `poller.py` |
| `Repositories` | repositories.dfy | `repositories.py`, with each SQL table as a map field of a class |
| `Lock` | lock.dfy | `lock.py` |
| `Service` | service.dfy | `service.py` |
| `Users` | users.dfy | `users.py` |
| `Orchestrator` | orchestrator.dfy | `orchestrator.py` |
| `Scraper` | scraper.dfy | `normalize_url` and `detect_source` of `scraper.py` |

Code that works step by step is written as imperative Dafny. This covers the diff scanner, the commit loops, the user loop, the
dedupe loop, the lock's retry loop and the body builders. Each such method is proved
equal to a specification function. The properties the code promises are
lemmas about those functions. Code that only computes is modelled as functions and lemmas: the matcher, the CSV
helpers, the URL helpers and the subject. The sent ledger, the cursor
table, the user table, the lock table and the sender are classes whose
methods update a `map` or `seq` field.

Where the project's documentation and the code disagree, the model follows the
code:

- The documentation says the diff parser counts braces and silently skips fragments it cannot decode. The code
  opens an object only on a line whose content is exactly `{`, closes it
  on the first `}` or `},` line, and lets a decoding failure escape. The
  model returns `Err(UndecodableFragment(..))` and stops there.
- The documentation describes retries and says an HTTP failure of one commit is skipped. The code calls
  `raise_for_status()` with no handling. In the model, any status from 400 to 599 aborts the fetch
  with `Err(HttpError(status))`, and a failed fetch aborts the poll before anything is written.

## Model

| member | source | states |
|---|---|---|
| Matcher.Norm | github_poller/matcher.py:5-6 | the normalised text is lower-case, neither starts nor ends with whitespace, has only single plain spaces each followed by a non-space, and splits into the same words as the lower-cased input |
| Matcher.JoinSingleSpaces | github_poller/matcher.py:6 | joining non-empty, space-free words with one space leaves exactly one space between words and no other whitespace |
| Matcher.NormIdempotent | github_poller/matcher.py:5-6 | normalising twice gives the same result as normalising once |
| Matcher.NormIgnoresCase | github_poller/matcher.py:5-6 | two texts that agree after lower-casing normalise to the same text, so keyword case never matters |
| Matcher.NormOfLower | github_poller/matcher.py:5-6 | lower-casing before normalising changes nothing |
| Matcher.JoinEnds | github_poller/matcher.py:6 | joining non-empty whitespace-free words with single spaces yields text with no leading or trailing whitespace |
| Matcher.KeywordHit | github_poller/matcher.py:11-14 | true exactly when some non-empty keyword, normalised, occurs in the text |
| Matcher.AnyKeywordInText | github_poller/matcher.py:9-14 | true exactly when some non-empty keyword, normalised, is a substring of the normalised text |
| Matcher.EmptyKeywordsNeverHit | github_poller/matcher.py:12 | a list of empty keywords never reports a hit |
| Matcher.BlankKeywordHitsAnyText | github_poller/matcher.py:12 | a keyword made only of whitespace is non-empty, normalises to "" and therefore hits every text |
| Matcher.BlankHasNoWords | github_poller/matcher.py:6 | a whitespace-only text splits into no words |
| Matcher.NormAll | github_poller/matcher.py:21 | the normalised locations, element by element, in order |
| Matcher.NormNonEmptyIsEmpty | github_poller/matcher.py:22-24 | the normalised location keywords are empty exactly when every location keyword is empty, which is when there is no gate |
| Matcher.InLocation | github_poller/matcher.py:28-30 | true exactly when some keyword occurs in the location |
| Matcher.AnyPair | github_poller/matcher.py:27-31 | true exactly when some keyword occurs in some location |
| Matcher.AnyPairSound | github_poller/matcher.py:27-31 | a pair found on the normalised lists is a real location hit |
| Matcher.AnyPairComplete | github_poller/matcher.py:27-31 | every real location hit is found by the pair search |
| Matcher.AnyPairOfNormalised | github_poller/matcher.py:21-31 | the pair search succeeds exactly when some location contains some non-empty location keyword, both normalised |
| Matcher.LocationsMatch | github_poller/matcher.py:17-31 | the gate passes exactly when all location keywords are empty or some location contains one of them; an empty location list fails a real gate |
| Matcher.Matches | github_poller/matcher.py:37-63 | `matches` holds exactly when receive_all is set, or the gate passes and a role keyword hits, a tech keyword hits, or both keyword lists are empty |
| Matcher.ReceiveAllMatches | github_poller/matcher.py:39-40 | receive_all matches every posting |
| Matcher.LocationGateBlocks | github_poller/matcher.py:43-44 | with a non-empty location keyword and no location hit, nothing matches, whatever the role and tech keywords |
| Matcher.NoLocationsFailGate | github_poller/matcher.py:25-26 | a posting with no locations fails a real location gate |
| Matcher.KeywordHitMatches | github_poller/matcher.py:47-56 | once the gate passes, a role or tech keyword hit in the title/company/description blob matches |
| Matcher.NoContentConstraintsMatch | github_poller/matcher.py:60-61 | once the gate passes, empty role and tech lists match |
| Matcher.NoKeywordHitNoMatch | github_poller/matcher.py:63 | with a keyword list given and no keyword hit, the posting does not match |
| Parser.ParseAddedListings | github_poller/parser.py:10-47 | the loop's result is the scanner specification `Parse`: the decoded postings in diff order, or the first decoding failure |
| Parser.ScanLine | github_poller/parser.py:16-45 | one loop iteration is one `Step` of the scanner, and a recording buffer always starts with "{" |
| Parser.CaptureLine | github_poller/parser.py:26-45 | a scanned line while recording is appended, and a closing line decodes the buffer |
| Parser.CloseCapture | github_poller/parser.py:30-45 | a closing line ends the capture: the cleaned fragment is decoded and appended, or the failure escapes, and recording stops |
| Parser.CleanFragment | github_poller/parser.py:32-41 | the in-place edits of the last two lines yield the specification's cleaned fragment |
| Parser.CleanLinesShape | github_poller/parser.py:34-41 | the clean-up keeps the line count and every line but the last two; those two lose exactly their trailing commas |
| Parser.FragmentOfPlainLines | github_poller/parser.py:32-41 | when no buffered line holds a line boundary, joining and re-splitting gives back the buffer, so only the comma clean-up changes it |
| Parser.UnscannedLineIsSkipped | github_poller/parser.py:16 | a line that is neither added nor context-while-recording changes nothing |
| Parser.RemovedLineIgnored | github_poller/parser.py:16 | inserting a `-` line anywhere in a diff leaves the result unchanged |
| Parser.CaptureStarts | github_poller/parser.py:16-24 | while idle, only an added line whose content is exactly `{` starts a capture, with buffer ["{"] |
| Parser.StepRecording | github_poller/parser.py:26-27 | while recording, a non-closing added or context line is appended to the buffer, and any other line is ignored |
| Parser.CaptureEnds | github_poller/parser.py:30-45 | while recording, a `}` or `},` line decodes the cleaned buffer and emits the posting, or fails with that fragment |
| Parser.Stepped | github_poller/parser.py:15 | the scan continues from the state one line leaves |
| Parser.Halted | github_poller/parser.py:43-44 | a decoding failure ends the scan with that failure |
| Parser.ScanConcat | github_poller/parser.py:15 | scanning two runs of lines is scanning the first, then the second from where it stopped |
| Parser.ScanKeepsJobs | github_poller/parser.py:12-44 | postings found earlier are never read, only appended to |
| Parser.IdleBufferUnread | github_poller/parser.py:21-22 | while idle, a stale buffer has no effect on the result |
| Parser.ParseConcat | github_poller/parser.py:15-47 | after a run that ends idle, the postings of the rest follow those of the run, in order |
| Parser.FailureIsFinal | github_poller/parser.py:43-44 | once a prefix fails, nothing after it changes the result |
| Parser.RecordsThroughOpenLines | github_poller/parser.py:26-30 | a line that closes nothing is recorded whatever the buffer |
| Parser.RecordThrough | github_poller/parser.py:26-27 | recording through a run of non-closing lines appends their contents |
| Parser.OpenRunLines | github_poller/parser.py:30 | an open run holds no closing line |
| Parser.OpenRunRecords | github_poller/parser.py:26-30 | every line of an open run is recorded |
| Parser.RecordThroughBody | github_poller/parser.py:26-27 | recording through an open run appends exactly the captured contents of its lines |
| Parser.UnclosedObjectDropped | github_poller/parser.py:15-47 | an object still open when the diff ends produces no posting |
| Parser.ScanObject | github_poller/parser.py:16-45 | an opening line, an open body and a closing line scan to the decoding of "{", the body and the close |
| Parser.ScanLast | github_poller/parser.py:15 | scanning one line is one step |
| Parser.Closed | github_poller/parser.py:43-45 | a closing step yields exactly its posting or its failure |
| Parser.ParseObject | github_poller/parser.py:16-45 | a whole diff object parses to the outcome of its closing line on the gathered buffer |
| Parser.OneObject | github_poller/parser.py:10-47 | a diff made of one object yields exactly that object's decoding, or the failure on its cleaned fragment |
| Poller.NewPoller | github_poller/poller.py:9-13 | the branch defaults to "dev" and the owner, repository and token are kept |
| Poller.CommitsRequest | github_poller/poller.py:16-18 | the commit listing asks the repository's `/commits` for the branch, one page of 100 |
| Poller.CommitRequest | github_poller/poller.py:30-31 | a commit is fetched by its SHA with no query |
| Poller.CommitsBefore | github_poller/poller.py:22-26 | the result is a prefix of the page without the cursor, and it stops exactly at the cursor when the cursor is listed |
| Poller.CursorNotListed | github_poller/poller.py:23-26 | a cursor not on the page makes the whole page new |
| Poller.CursorAtHead | github_poller/poller.py:24-25 | a cursor at the head of the page means nothing is new |
| Poller.PrefixBeforeCursor | github_poller/poller.py:22-26 | the new commits are exactly the page before the first occurrence of the cursor |
| Poller.GetNewCommits | github_poller/poller.py:15-27 | an HTTP error status aborts; otherwise the loop returns the commits before the cursor |
| Poller.ListingsPatch | github_poller/poller.py:34-36 | absent exactly when no file ends in `listings.json` with a patch; otherwise the patch of the first such file |
| Poller.GetCommitDiff | github_poller/poller.py:29-38 | an HTTP error status aborts; otherwise the lines of the first listings patch, or no lines |
| Poller.PrependNothing | github_poller/poller.py:49-51 | extending by nothing changes nothing |
| Poller.PrependTwice | github_poller/poller.py:49-51 | extending twice is extending once by the concatenation |
| Poller.ListingsFirst | github_poller/poller.py:48-51 | the first commit's postings come first, or its failure ends the fetch |
| Poller.ListingsConcat | github_poller/poller.py:48-51 | the postings of two runs of commits are those of the first followed by those of the second |
| Poller.LatestSha | github_poller/poller.py:53 | the new cursor is the newest new commit, or the old cursor when there is none |
| Poller.CursorMovesForward | github_poller/poller.py:53 | the reported cursor is either the old cursor or the head of the page, which differs from it |
| Poller.NothingNew | github_poller/poller.py:40-54 | with no new commits the fetch yields no postings and keeps the cursor |
| Poller.FetchNewListings | github_poller/poller.py:40-54 | the loop's result is the specification `Poll`: postings of each new commit in order, and the latest cursor |
| Repositories.Kept | persistence/repositories.py:14 | the kept entries are at most as many as the items, and none is empty or has surrounding whitespace |
| Repositories.KeptComplete | persistence/repositories.py:14 | every item that is not blank appears, stripped, among the kept entries |
| Repositories.KeptKeeps | persistence/repositories.py:14 | an item at any position that is not blank is kept, stripped |
| Repositories.KeptKeepsHead | persistence/repositories.py:14 | a first item that is not blank is kept |
| Repositories.KeptKeepsTail | persistence/repositories.py:14 | an entry kept from the tail stays kept |
| Repositories.KeptIdempotent | persistence/repositories.py:14 | keeping a kept list changes nothing |
| Repositories.KeptKeepsOut | persistence/repositories.py:14 | stripping and filtering introduce no character that no item held |
| Repositories.CsvToList | persistence/repositories.py:17-19 | no entry read back is empty or padded with whitespace |
| Repositories.CsvToListOfNothing | persistence/repositories.py:18 | a NULL or empty column reads back as no entries |
| Repositories.ListToCsv | persistence/repositories.py:13-14 | an item list with no non-blank item is stored as the empty text; for comma-free items with some non-blank one, the stored text splits on commas into exactly the stripped non-blank items, in order |
| Repositories.CsvRoundTrip | persistence/repositories.py:13-19 | for items without commas, writing then reading gives the items stripped, with blank ones dropped |
| Repositories.Flag | persistence/repositories.py:40-42 | the stored integer is 0 or 1 and is non-zero exactly when the flag is set |
| Repositories.UserRepository.constructor | persistence/db.py:5-20 | the users table starts empty, keyed by id |
| Repositories.UserRepository.CreateUser | persistence/repositories.py:27-46 | a fresh id inserts the new row with both notify flags off; an existing id is a duplicate-key error that writes nothing |
| Repositories.UserRepository.GetUser | persistence/repositories.py:48-71 | absent ids give None; otherwise id, email, phone, is_verified, created_at, updated_at and the preferences read back from the row, and the id is the one asked for |
| Repositories.UserRepository.CreatedReadsBack | persistence/repositories.py:27-71 | a user stored by create_user reads back with its id, contact fields and flag, both timestamps the creation time, and its keyword lists as the repository keeps them |
| Repositories.UserRepository.UpdateUser | persistence/repositories.py:72-109 | an absent id changes nothing; otherwise only that row changes, to the partial update |
| Repositories.UpdatedRow | persistence/repositories.py:76-108 | arguments passed as None leave their columns alone; preferences replace all six preference columns; `updated_at` is always refreshed; id, `created_at` and the notify flags never move |
| Repositories.UpdatedPrefsReadBack | persistence/repositories.py:88-108 | preferences written by an update read back as given, with keyword lists as the CSV helpers keep them |
| Repositories.Upserted | persistence/repositories.py:124-132 | the repository's cursor is the new SHA and every other repository's row is unchanged |
| Repositories.UpsertLastWins | persistence/repositories.py:124-132 | of two upserts of one repository, the last wins |
| Repositories.RepoStateRepository.constructor | persistence/db.py:22-26 | the cursor table starts empty, keyed by repository name |
| Repositories.RepoStateRepository.GetLastSha | persistence/repositories.py:117-122 | None exactly for a repository with no row, else its stored SHA |
| Repositories.RepoStateRepository.UpsertLastSha | persistence/repositories.py:124-132 | the table becomes the upsert, and the SHA then reads back |
| Repositories.Marked | persistence/repositories.py:147-151 | the ledger gains exactly the pair, and every existing `sent_at` is kept |
| Repositories.MarkIdempotent | persistence/repositories.py:147-151 | marking a pair again is a no-op |
| Repositories.MarkOthersUnchanged | persistence/repositories.py:147-151 | marking a pair does not change whether any other pair was sent |
| Repositories.SentNotificationsRepository.constructor | persistence/db.py:28-33 | the ledger starts empty, keyed by (user, posting) |
| Repositories.SentNotificationsRepository.WasSent | persistence/repositories.py:140-145 | true exactly when the pair is in the ledger |
| Repositories.SentNotificationsRepository.MarkSent | persistence/repositories.py:147-151 | the ledger becomes the insert-or-ignore, and the pair then reads as sent |
| Lock.Attempt | persistence/lock.py:34-57 | an attempt acquires exactly when the name is free or its lease expired strictly before now; it then writes (owner, now + ttl), and otherwise writes nothing |
| Lock.Released | persistence/lock.py:62-66 | the lease is deleted exactly when it still carries the caller's owner; otherwise the table is unchanged |
| Lock.AcquireOutcome | persistence/lock.py:30-58 | acquiring leaves the caller holding the lease from one of its attempts, or leaves the table as it was |
| Lock.LiveLeaseExcludes | persistence/lock.py:44-58 | a lease live through every attempt keeps every other owner out and leaves the table unchanged |
| Lock.FirstAttemptTakes | persistence/lock.py:33-57 | a free name or an expired lease is taken on the first attempt in the window |
| Lock.AcquireAfterRelease | persistence/lock.py:33-66 | after the holder releases, another owner acquires at once |
| Lock.StolenLeaseSurvives | persistence/lock.py:62-66 | a lease stolen by another owner survives the first owner's release |
| Lock.OtherNamesUntouched | persistence/lock.py:38-66 | acquiring and releasing one name leave the leases of every other name alone |
| Lock.LockTable.constructor | persistence/lock.py:5-11 | the lock table starts empty, at most one lease per name |
| Lock.LockTable.AcquireLock | persistence/lock.py:30-58 | the retry loop's outcome and table are those of the specification `Acquire` |
| Lock.LockTable.ReleaseLock | persistence/lock.py:59-69 | an acquired lock is released if still owned; a lock never acquired leaves the table untouched |
| Service.Outbox.constructor | notification/service.py:9-11 | the sender starts with nothing sent |
| Service.Outbox.SendEmail | notification/service.py:10 | one email is appended to the sender's log |
| Service.Outbox.SendSms | notification/service.py:11 | one SMS is appended to the sender's log |
| Service.DefaultUnsubscribeLink | notification/service.py:21-24 | the link is `/request-edit-link` under APP_BASE_URL, or under `http://localhost:8000` when that is unset |
| Service.NotificationService.constructor | notification/service.py:15-24 | the builders are kept, and a missing unsubscribe builder gives every user the default link |
| Service.NotificationService.SendSummary | notification/service.py:26-48 | the sender's log grows by exactly the summary's messages: none unless the guards pass, else the deliveries of the rendered digest |
| Service.NotificationService.Deliver | notification/service.py:43-48 | an email when wanted, then an SMS when wanted, appended in that order |
| Service.RenderText | notification/service.py:54-69 | the loop builds the text body: header, one bullet per posting, footer, joined by newlines |
| Service.RenderHtml | notification/service.py:71-88 | the loop builds the list items and the stripped template |
| Service.JobLines | notification/service.py:61-64 | one bullet per posting |
| Service.HtmlItems | notification/service.py:75-79 | one list item per posting |
| Service.SubjectSingular | notification/service.py:50-52 | one posting gives "[label] 1 new match for you" |
| Service.SubjectPlural | notification/service.py:50-52 | any other count ends in "new matches for you" and never in "new match for you" |
| Service.TextLinesShape | notification/service.py:58-69 | n + 5 lines: the header, one bullet per posting in order, a blank line, the edit link, the unsubscribe link and the STOP line |
| Service.JobLineNamesListing | notification/service.py:63-64 | each bullet contains its posting's title, company and URL, lists the locations when there are some, and ends with the arrow and the URL |
| Service.JobLineKeepsPieces | notification/service.py:64 | whatever one field of a bullet contains, the bullet contains |
| Service.JobLineEndsWithUrl | notification/service.py:64 | each bullet ends with the arrow and the posting's URL |
| Service.TextBodySplitsIntoLines | notification/service.py:58-69 | when no field holds a line break, the text body splits back into exactly its lines |
| Service.HeaderSingle | notification/service.py:59 | the header is one line |
| Service.FooterSingle | notification/service.py:65-68 | each footer entry is one line |
| Service.JobLineSingle | notification/service.py:63-64 | a bullet of single-line fields is one line |
| Service.CoreDelimited | notification/service.py:80-87 | the filled template starts with "<div>" and ends with "</div>" |
| Service.HtmlBodyIsCore | notification/service.py:80-88 | `strip()` removes only the template's margins, so the HTML body is the filled `<div>` fragment |
| Service.DeliveriesChannels | notification/service.py:44-48 | at most one email and one SMS; an email exactly when email is wanted and an address is present; an SMS exactly when SMS is wanted and a number is present; the SMS carries the email's text |
| Service.SummaryChannels | notification/service.py:29-48 | an unverified user, an empty batch or no channel switched on sends nothing; otherwise the digest's deliveries |
| Users.Keywords | notification/users.py:12-20 | the keyword list has no empty entry and no comma |
| Users.KeywordsOfEmptyColumn | notification/users.py:12-20 | an empty keyword column gives no keywords |
| Users.HydrateUsers | notification/users.py:5-32 | one contact per row, same length and order; flags true exactly when non-zero; id, email and phone copied |
| Users.KeywordsOfCsv | notification/users.py:12-20 | a keyword column written by the repository hydrates to the list the repository keeps |
| Users.KeptOfTrimmed | notification/users.py:12-20 | on entries with no surrounding whitespace, stripping and dropping blanks is dropping empties |
| Users.HydratedMatchesRowPrefs | notification/users.py:6-21 | when stored entries carry no padding, hydration agrees with `get_user` on the preferences |
| Users.HydrateNewRow | notification/users.py:5-32 | a created user hydrates to the contact it was created from, with both channels off |
| Orchestrator.Subscribed | notification/orchestrator.py:11-17 | a user is subscribed exactly to the new-grad repository when its flag is set and to the internship repository when its flag is set; any other repository has no subscribers |
| Orchestrator.Candidates | notification/orchestrator.py:49 | the candidates are exactly the polled postings that match the user's preferences |
| Orchestrator.CandidatesConcat | notification/orchestrator.py:49 | the filter keeps order and multiplicity: the candidates of two runs of postings are the candidates of each, concatenated |
| Orchestrator.CandidatesAround | notification/orchestrator.py:49 | a posting inside a run is kept in its place exactly when it matches |
| Orchestrator.MarkNew | notification/orchestrator.py:52-56 | the dedupe loop's ledger and batch are the specification `Dedupe` |
| Orchestrator.PickNew | notification/orchestrator.py:43-56 | an unverified or unsubscribed user picks nothing; others get the dedupe of their candidates, every one of them already marked in the ledger |
| Orchestrator.SendNew | notification/orchestrator.py:58-63 | an empty pick sends nothing and counts nothing; otherwise exactly one summary of the pick is sent, whose postings must already be in the ledger, users_notified grows by one and jobs_sent_total by the pick's size |
| Orchestrator.SendBatch | notification/orchestrator.py:54-61 | a summary may be sent only when each of its postings is already marked in the ledger for the user; its messages follow those of the earlier batches in the sender's log |
| Orchestrator.VisitUser | notification/orchestrator.py:42-63 | one pass is one `Visit`: an empty pick is skipped, otherwise one summary is sent and both counters move |
| Orchestrator.RunPollForRepo | notification/orchestrator.py:20-76 | the ledger, the sender's log, the cursor table and the result are those of the specification `RunPoll` |
| Orchestrator.Stepped | notification/orchestrator.py:42 | the loop continues from the round one user leaves |
| Orchestrator.VisitOfPick | notification/orchestrator.py:58-63 | a visit in terms of its pick |
| Orchestrator.MessagesAppend | notification/orchestrator.py:61 | one more batch adds exactly its summary's messages at the end |
| Orchestrator.DedupeLedger | notification/orchestrator.py:53-56 | dedupe only adds ledger rows, exactly one per posting in the batch |
| Orchestrator.DedupeFresh | notification/orchestrator.py:53-56 | the batch holds distinct candidates, none in the ledger before, each in it afterwards |
| Orchestrator.DedupeFromCands | notification/orchestrator.py:53-56 | every posting in the batch is a candidate |
| Orchestrator.DedupeNew | notification/orchestrator.py:54-55 | every posting in the batch was absent from the ledger and is in it afterwards |
| Orchestrator.DedupeDistinct | notification/orchestrator.py:53-56 | no posting id repeats within a batch |
| Orchestrator.DistinctCons | notification/orchestrator.py:56 | adding a posting with a new id keeps the ids distinct |
| Orchestrator.DedupeCovers | notification/orchestrator.py:53-56 | afterwards every candidate is in the ledger for the user |
| Orchestrator.DedupeAllMarked | notification/orchestrator.py:53-56 | with every candidate already marked, dedupe writes and picks nothing |
| Orchestrator.PassedOver | notification/orchestrator.py:43-46 | an unverified or unsubscribed user causes no ledger write, no batch and no count |
| Orchestrator.VisitFacts | notification/orchestrator.py:42-63 | one visit grows the ledger by exactly the postings it sends, adds at most one batch, which is a good one for that user, and marks all the user's candidates |
| Orchestrator.GrowsTrans | persistence/repositories.py:147-151 | ledger growth composes |
| Orchestrator.DispatchFacts | notification/orchestrator.py:42-63 | over the loop the ledger only grows and by exactly jobs_sent_total rows; at most as many batches as users visited; users_notified counts the batches; every batch is non-empty, distinct, matched, never sent before and in the ledger afterwards |
| Orchestrator.GoodBatchWiden | notification/orchestrator.py:42-63 | a good batch stays good as the ledger grows around it |
| Orchestrator.DispatchCovers | notification/orchestrator.py:42-56 | after the loop every considered user's candidates are all in the ledger |
| Orchestrator.AllMarkedGrows | persistence/repositories.py:147-151 | marks survive ledger growth |
| Orchestrator.DispatchAllMarked | notification/orchestrator.py:42-63 | with everything already marked, the loop changes nothing |
| Orchestrator.DispatchIdempotent | notification/orchestrator.py:42-63 | a second run of the loop over the same postings writes and sends nothing |
| Orchestrator.FailedFetchWritesNothing | notification/orchestrator.py:35 | a failing fetch leaves the ledger, the sender and the cursors alone |
| Orchestrator.PollStats | notification/orchestrator.py:34-76 | the reported cursors are the stored one before and the stored one after; the ledger grows by exactly jobs_sent_total; users_notified is at most the number of users and at most jobs_sent_total |
| Orchestrator.PollCursors | notification/orchestrator.py:66-67 | the cursor table is unchanged when the fetch reports no head commit or the stored one; otherwise the repository's row becomes the new commit stamped now; other repositories' rows never change |
| Orchestrator.PollSummaries | notification/orchestrator.py:29-63 | the sender's log grows by exactly the summaries of the loop's batches, one per notified user; every batch goes to one of the users and is good; with distinct user ids no user gets two summaries |
| Orchestrator.VisitBatches | notification/orchestrator.py:58-61 | one visit adds no batch or one batch, for the visited user, after the earlier ones |
| Orchestrator.DispatchUsers | notification/orchestrator.py:42-61 | every batch of the loop goes to one of the users it visits, after the earlier batches |
| Orchestrator.DispatchOnePerUser | notification/orchestrator.py:42-61 | when the users' ids are distinct, no two batches of the loop share a user id |
| Orchestrator.NotifiedBound | notification/orchestrator.py:58-63 | every notified user was sent at least one posting |
| Orchestrator.RepeatedPollSendsNothing | notification/orchestrator.py:20-76 | polling again over the same postings notifies no one and writes nothing to the ledger or the sender |
| Scraper.DropEnding | job_scraper/scraper.py:29-30 | removing an ending yields a prefix of the URL |
| Scraper.SubAtEnd | job_scraper/scraper.py:29-30 | a substitution anchored at the end never lengthens the URL |
| Scraper.NormalizeUrl | job_scraper/scraper.py:27-31 | normalising never lengthens the URL |
| Scraper.SubAtEndPlain | job_scraper/scraper.py:29-30 | a URL without the ending, with or without the slash or final newline, is left unchanged |
| Scraper.SubAtEndRemoves | job_scraper/scraper.py:29-30 | the ending, an optional slash and an optional final newline are replaced by that newline |
| Scraper.DropEndingRemoves | job_scraper/scraper.py:29-30 | the ending and an optional slash are removed |
| Scraper.EndsWithNewline | job_scraper/scraper.py:29-30 | `$` also matches before a final newline |
| Scraper.EndsWithAt | job_scraper/scraper.py:29-30 | a suffix fixes the characters at the end |
| Scraper.NormalizePlain | job_scraper/scraper.py:27-31 | a URL ending in neither `/application` nor `/apply` is returned unchanged |
| Scraper.NormalizeApplication | job_scraper/scraper.py:29 | a trailing `/application` or `/application/` is removed |
| Scraper.NormalizeApply | job_scraper/scraper.py:30 | a trailing `/apply` or `/apply/` is removed |
| Scraper.NormalizeNotIdempotent | job_scraper/scraper.py:29-30 | `/application/apply` becomes `/application`, which a second pass removes, so normalisation is not idempotent |
| Scraper.LeadingDigits | job_scraper/scraper.py:41-42 | the length of the run of digits at the front |
| Scraper.WdHereMatches | job_scraper/scraper.py:41-42 | the test at one position succeeds exactly when `\bwd\d+\.` matches there |
| Scraper.SearchWdFinds | job_scraper/scraper.py:41-42 | the search succeeds exactly when `\bwd\d+\.` matches somewhere in the host |
| Scraper.Classify | job_scraper/scraper.py:36-46 | the label is one of the eight, its pattern matches the host, and no earlier label's pattern does |
| Scraper.Host | job_scraper/scraper.py:35 | the host is the third `/`-separated segment, lower-cased, and is missing exactly when there are fewer than three |
| Scraper.DetectSource | job_scraper/scraper.py:34-46 | a URL with a third segment gets one of the eight labels; fewer segments raise |
| Scraper.ThirdSegment | job_scraper/scraper.py:35 | in `scheme://host/path` the third segment is the host |
| Scraper.AfterSlashes | job_scraper/scraper.py:35 | after the two slashes the third segment is the host |
| Scraper.HostThenPath | job_scraper/scraper.py:35 | the host is the first segment of `host/path` |
| Scraper.SplitOnSeparator | job_scraper/scraper.py:35 | a leading separator contributes one empty segment |
| Scraper.DetectSourceOfUrl | job_scraper/scraper.py:34-46 | a URL is classified by its lower-cased host |
| Scraper.MyWorkdayRedundant | job_scraper/scraper.py:41 | the `myworkdayjobs.com` test is subsumed by the `workday` test |

## Left out

- I/O: HTTP is modelled as function parameters from a request to a status and a decoded body. Only one page of 100 commits is modelled, as in the code. Timeouts, headers other than the token, and JSON transport are not modelled.
- `json.loads` and `JobListing(**data)` are one abstract parameter `decode`. Its failure stands for any exception they raise, and RFC 8259 parsing is not modelled.
- Clocks: `_now_iso()` and `time.time()` are parameters. Timestamps are a `now` string, and lock times are integer ticks. Float expiry times and `time.sleep` are not modelled.
- Lock.LockTable.AcquireLock: the retry loop is bounded by the finite sequence of clock readings handed in. Each attempt reads the clock once for the loop test and once for `now`. Cross-process interleaving is not modelled: the lock table is a sequential map, and the lock is not wired into the orchestrator, as in the code.
- Service.NotificationService.constructor: `APP_BASE_URL` is read once, at construction, as a parameter. The code reads it each time the default unsubscribe link is built.
- The SQL text, commits, connections, `init_db` and the row factory are not modelled. Tables are maps keyed by their primary keys.
- `create_user` and `update_user` take no `notify_*` parameters, so a created user always has both channels off. Callers in the API pass them anyway, and that wiring is not part of this model.
- `list_verified_users` is called by the runner but defined nowhere. The runner, `bin/poll_once.py` and the API are not part of this model.
- The orchestrator is modelled as written, without the `scraper` argument that its callers pass. The poller is a `fetch` function parameter.
- Orchestrator.RunPollForRepo: the sender never fails. In the code, a send exception (Resend or Twilio raising inside `send_summary`) aborts the poll after that user's pairs were marked and before the cursor moves. The remaining users are not visited, and that user never receives those postings, because the next poll's dedupe skips the marked pairs. That failure path is not modelled.
- Text.Lower: case mapping covers ASCII A–Z only; Unicode case mapping is not modelled.
- Scraper.WdHereMatches: `\w` and `\d` in `detect_source`'s pattern are modelled by their ASCII part only. In a Python 3 str pattern they are Unicode classes, and Unicode word characters and digits are not modelled.
- Users.Keywords: hydration does not strip entries, unlike the repository's `_csv_to_list`. The model keeps that difference (Users.HydratedMatchesRowPrefs states when the two agree). The keyword columns are NOT NULL, so `or ""` is the identity.
- `JobListing` gets an optional `description`, which the matcher reads and common/models.py does not declare.
- The scraper's fetching, HTML extraction, caching and async client are not modelled, nor is job_scraper/enrich.py (its point is concurrency). Only `normalize_url` and `detect_source` are.
- Scraper.DetectSource: a URL with fewer than three `/`-separated segments raises `IndexError` in the code. The model returns `None`.
- The HTML body is modelled as the exact template text. No HTML escaping is done by the code, and none is modelled.
