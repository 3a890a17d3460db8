# wa-gateway: a verified model of the gateway's state machines

wa-gateway exposes WhatsApp sessions over HTTP. This project models the parts of its `internal/gateway`
package that hold state across calls, goroutines and restarts, and proves what they promise for every
input, every interleaving and every run. `dafny verify dfyconfig.toml` checks all of it.

How the program is represented:

- SQL tables are maps with their primary keys; each SQL statement is the map update it denotes. Tables
  survive a crash, memory does not. Where the code logs a failed write and goes on, the write carries an
  `ok` flag and both outcomes are covered.
- Goroutines that release a mutex between two steps become labelled transition systems: `Step` is partial,
  a run is a sequence of actions, and the theorems quantify over all runs. The loops and methods of the
  program are written as Dafny methods proved against those steps or against a specification function.
- WhatsApp, HTTP, PostgreSQL, the clock, random ids and the library's address parser are parameters of the
  steps. Time is an integer in the unit the code compares (seconds in the tables, nanoseconds in the cooldown).

The modules:

- **Bulk sender** (`BulkTables`, `BulkSteps`, `BulkJobs`, `BulkResume`, `BulkOutcomes`, `BulkRecipients`, `BulkLaw`,
  `BulkTheorems`, `BulkProgress`, `BulkRecovery`, `BulkCounts`, `BulkAgreement`, `BulkPage`, `BulkRunner`, `BulkList`,
  `Template`). A job lives in
  memory and in two tables; a runner sends, writes the row, then updates memory; recovery selects the unfinished jobs and later
  reads the rows of each; quit, crash and restart may land anywhere. A per-recipient tally that no crash erases
  counts sends, refusals, lost outcomes, failed writes and written outcomes.
- **API keys** (`RateLimiter`, `ApiKeyUsage`, `ApiKeyReloads`, `ApiKeyWindows`, `ApiKeyChanges`, `ApiKeyStore`). The fixed-window
  limiter over whole request histories, and usage counts and windows in a store where requests, a two-phase
  flush and any number of reloads, which copy keys one at a time and swap the cache later, interleave.
- **Session registry** (`SessionRegistry`, `SessionManager`). Create, Remove and restartPairing as interleaved
  steps on a map and a table, with an account of who holds each row.
- **Receipts** (`Receipts`, `MessageStore`). Upgrade-only writes of the aggregate status and of the receipts
  kept per participant.
- **Groups** (`Participants`, `GroupBatches`, `GroupCall`, `GroupCooldown`). Resolving and merging numbers,
  paced batches, applying replies, listing in input order from an unordered map; the creation cooldown and
  its second computation in the status report.
- **Webhook** (`Webhook`), **placeholders** (`Rebind`), **phone numbers** (`Phone`).

Seven promises turned out not to hold as stated. Each is kept as the code has it, with a failing input and the
exact condition:

- Recovery reads the tables in a goroutine, and the API opens without waiting for it. A job submitted before
  recovery selects can be sent by two runners (`SubmitBeforeSelectIsUnsafe`). `ReadSafeExactly` says when reading a
  job's rows is safe, and `SelectionDecides` that jobs submitted after the selection never matter.
- A failed write of a recipient's row is logged and forgotten: the job ends completed with that row still pending,
  and recovery does not select it (`FailedWriteForgets`). In every run, a completed job's row is pending if and only
  if a write of it failed and none succeeded (`PendingRows`); while row writes succeed, a completed job has no pending
  row and every pending row is resumed, wherever crashes land (`CompletedMeansSettled`).
- A request granted between a reload's copy of a key and the swap of the cache vanishes from the usage count
  (`GrantDuringReloadIsLost`), and a flush in between counts usage twice (`FlushDuringReloadCountsTwice`). A swap
  keeps the count if and only if as much was collected as was granted since the copy (`SwapExactly`,
  `OneReloadExactly`).
- For the same reason a reload can put an earlier limiter window back: with a limit of one, two reloads under way
  let three requests through at once (`ReloadsBreakTheBound`). A swap keeps the window if and only if no request was
  granted since the copy (`SwapKeepsWindowExactly`); the interval bound holds for runs of such swaps
  (`StoreIntervalBound`).
- The list of participants can hide an entry when the library parses an address to a user part "raw:" followed by
  another mention (`RawUserExample`, `RawUserHidesEntry`). `ListedExactly` says which entries are listed.
- The second reported as `groupCreateAllowedAt` is rounded down, so a retry at that second may be refused
  (`ReportedSecondTooEarly`); it is accepted if and only if the threshold is a whole second
  (`ReportedSecondExactly`).
- A `?` directly before a digit, or a `$` already followed by one, reads back as another parameter number
  (`FusedExample`, `MeaningKeptExactly`). The repository's own queries contain neither.

## Model

| member | source | states |
|---|---|---|
| BulkTheorems.AtMostOnce | internal/gateway/bulk.go:485-535 | Over any run of submits, sends, row writes, quits, crashes and recoveries that reads this job's rows safely: attempts = lost outcomes + recorded outcomes + open window, so a recipient is sent to at most once more than outcomes were lost, and a settled row is recorded once and is not being sent |
| BulkTheorems.GentleRunsNeverRepeat | internal/gateway/bulk.go:586-641 | Shutdown, restart and recovery without a crash in a send-to-write window and without a failed row write never send anything twice |
| BulkTheorems.NothingLost | internal/gateway/bulk.go:485-535 | In such runs no outcome is ever lost |
| BulkTheorems.SettledRowsAreFinal | internal/gateway/bulk.go:181-188 | A row once sent or failed keeps exactly that content through every later step of every later lifetime |
| BulkTheorems.StopIsPrompt | internal/gateway/bulk.go:488-496 | After a stop, until the process ends, a runner makes at most the one attempt it had already decided on, and later runners make none |
| BulkTheorems.IdleRunner | internal/gateway/bulk.go:488-535 | Between items a runner goes on exactly when there is another one and no stop, and finishes exactly otherwise, completed when nothing is left and interrupted when something is |
| BulkResume.NoneForgotten | internal/gateway/bulk.go:227-300 | In every run, wherever crashes land: a pending row no write of which failed has its job in the set recovery selects, with that recipient on its list |
| BulkResume.PendingRows | internal/gateway/bulk.go:227-300 | In every run: a row is pending if and only if no outcome was recorded for it, it is resumed if and only if it is pending and its job is not completed, and in a completed job it is pending if and only if a write of it failed and none succeeded |
| BulkResume.NextLifetimeLists | internal/gateway/bulk.go:586-613 | After a crash anywhere, selecting and reading that job in the next lifetime puts the recipient on its recovery list |
| BulkResume.CompletedMeansSettled | internal/gateway/bulk.go:485-569 | While row writes succeed, wherever crashes land: a completed job has no pending row and every pending row is resumed |
| BulkResume.FailedWriteForgets | internal/gateway/bulk.go:181-188 | For every job of one recipient: when the write of its row fails, the job ends completed with a pending row that recovery does not select |
| BulkResume.RunRemembers | internal/gateway/bulk.go:485-641 | In every run whatsoever: every list of recipients still to send, a runner's or recovery's, has every pending row without a failed write on it, and a completed job has no such row |
| BulkOutcomes.RowsTellOutcomes | internal/gateway/bulk.go:498-513 | In every run: a row is sent, with a message id, if and only if the write last recorded for it came after an attempt accepted with that id; failed, with the reason, if and only if that attempt was refused or failed; pending if and only if nothing was recorded |
| BulkOutcomes.SentCountsAccepted | internal/gateway/bulk.go:304-342 | In every run, the sent counter of a job read from the tables is the number of its recipients whose recorded send was accepted |
| BulkRecipients.AttemptsCarryOwnText | internal/gateway/bulk.go:440-503 | In every run, through crashes and recoveries, whoever is attempted is sent the text submitted for them at the address submitted for them |
| BulkRecipients.RowsKeepRecipients | internal/gateway/bulk.go:154-178 | In every run a persisted job has one row for each submitted recipient, in order, with that address and text |
| BulkProgress.PendingMoves | internal/gateway/bulk.go:181-188 | In every run, recording an outcome in a pending row removes exactly one pending row; no other step changes their number |
| BulkProgress.PendingShrinks | internal/gateway/bulk.go:181-188 | While the job's rows are read safely, every recorded outcome removes exactly one pending row |
| BulkProgress.SettledStays | internal/gateway/bulk.go:181-188 | In every run, even when two runners write the same row, a settled row never becomes pending again |
| BulkProgress.ProductiveLifetimesBounded | internal/gateway/bulk.go:586-641 | In every run whatsoever, the process lifetimes that record anything for a job, together with its rows still pending, are at most as many as its recipients |
| BulkLaw.RunKeeps | internal/gateway/bulk.go:485-641 | For each job whose rows a run reads safely: one runner at most has work on it, items on any list have no recorded outcome, and the tally law holds, in every reachable state, whatever happens to other jobs |
| BulkLaw.ScanOk | internal/gateway/bulk.go:257-298 | What recovery gathers from a job's rows names, in row order, only recipients without a recorded outcome |
| BulkTables.PendingListed | internal/gateway/bulk.go:273-292 | Every pending row of a selected job becomes an item of its recovery list |
| BulkTables.CountsPartition | internal/gateway/bulk.go:304-342 | Sent, failed and pending counts of a job read from its rows add up to its rows |
| BulkRecovery.ReadSafeExactly | internal/gateway/bulk.go:257-298 | Reading a selected job's rows keeps its at-most-once bound for the rest of the lifetime if and only if no runner of this lifetime still has work on it, or the service is stopping |
| BulkRecovery.UnsafeReadRepeats | internal/gateway/bulk.go:586-641 | From every state where the read is unsafe there is a continuation that exceeds the bound |
| BulkRecovery.SelectionDecides | internal/gateway/bulk.go:229-255 | When no runner has work on a job that recovery selects, every later read of the lifetime is safe for every job, whatever is submitted in between |
| BulkRecovery.SubmitBeforeSelectIsUnsafe | internal/gateway/bulk.go:573-579 | Any job submitted before recovery selects leads to such a state |
| BulkAgreement.RunAgrees | internal/gateway/bulk.go:485-641 | When the updates of a job's own runners succeed and recovery does not read its rows beside a runner of it, its memory and tables agree in every reachable state up to the open windows, whatever happens to other jobs |
| BulkCounts.SnapshotCounts | internal/gateway/bulk.go:90-94 | In every run whatsoever, failed writes, crashes and unsafe recoveries included, each job answered from memory or from the tables has sent and failed equal to the counts of its results, and sent + failed + pending = total |
| BulkCounts.RunCounts | internal/gateway/bulk.go:485-641 | In every run every runner and every recovery entry counts its own results and has only pending recipients still to do |
| BulkAgreement.MemoryBehindByOne | internal/gateway/bulk.go:513-525 | While a persisted job runs, its rows equal memory except at the item just written, where the row already has the outcome and memory is still pending |
| BulkAgreement.WriteAhead | internal/gateway/bulk.go:513-525 | Writing the row puts the table ahead of memory by exactly that item |
| BulkAgreement.SettleLevels | internal/gateway/bulk.go:513-525 | The locked update brings memory level with the row again, counters included |
| BulkAgreement.TablesReadAsMemory | internal/gateway/bulk.go:304-342 | Outside the write and finish windows, loading the job from the tables gives the in-memory snapshot |
| BulkAgreement.EvictionUnobservableExactly | internal/gateway/bulk.go:719-726 | Dropping a finished job from memory changes what a job lookup answers if and only if finish's table write has not landed yet |
| BulkRunner.BulkRunner.Run | internal/gateway/bulk.go:485-535 | The runner's loop does to table and job exactly what its labelled steps do, completing the list or stopping at the item where quit is seen; sent goes up by the accepted sends, and each attempted recipient has the result its own attempt met |
| BulkRunner.BulkRunner.Attend | internal/gateway/bulk.go:498-525 | One item: its result, and its row if the write succeeds, is sent with the message id if and only if the send was accepted, otherwise failed with the reason; one counter goes up and nothing else changes |
| BulkRunner.BulkRunner.Finish | internal/gateway/bulk.go:559-569 | Status and finish time change only from running, and if the write succeeds the job row gets status, counters and finish time, nothing else |
| BulkRunner.BulkRunner.LoadOne | internal/gateway/bulk.go:257-298 | The scan of a job's rows yields its results, both counters and the pending items in order |
| BulkRunner.BulkRunner.LoadAll | internal/gateway/bulk.go:227-300 | Undisturbed, recovery gathers one entry for every job that is running or interrupted, and for no other |
| BulkRunner.BulkRunner.MarkRunning | internal/gateway/bulk.go:202-211 | Exactly the running jobs become interrupted, with the time, if the write succeeds |
| BulkRunner.BulkRunner.ResumeOne | internal/gateway/bulk.go:598-640 | An entry without pending recipients is completed, one whose session is not ready is interrupted, any other runs again with its results and pending recipients; its row says so if the write succeeds |
| BulkRunner.BulkRunner.ResumeAll | internal/gateway/bulk.go:586-641 | Every selected job has its turn, up to where a stop is seen; the others keep their rows, and memory gains exactly the jobs that run again |
| BulkRunner.TurnSteps | internal/gateway/bulk.go:598-624 | The recovery steps of the transition system that finish or skip an entry write the same row as ResumeOne |
| BulkRunner.StartSteps | internal/gateway/bulk.go:626-640 | The steps that start an entry write the same row, register the job and leave an idle runner with the pending recipients |
| BulkRunner.BulkRunner.Cleanup | internal/gateway/bulk.go:719-726 | Exactly the jobs finished more than an hour ago leave memory, in whatever order the map is visited |
| BulkRunner.BulkRunner.Submit | internal/gateway/bulk.go:398-480 | Accepted exactly when the session exists, there are recipients and each has a number and a text; then job, items and, if saved, rows have one pending recipient each, in order, with own text before rendered template before shared text; otherwise nothing changes |
| BulkRunner.BulkRunner.ResolveTexts | internal/gateway/bulk.go:407-434 | The first unusable recipient is reported with its index, else every recipient gets its own text, else the rendered template, else the shared text |
| BulkList.List | internal/gateway/bulk.go:682-715 | Every job of memory or page is listed once, in memory's version when there is one, newest first, nothing else |
| BulkList.MergePage | internal/gateway/bulk.go:695-705 | The page loop keeps the page's jobs, preferring memory, and remembers exactly their ids |
| BulkPage.ListedExactly | internal/gateway/bulk.go:345-366 | A job listed from the table shows what the lookup shows, without results, except that its counters miss the outcomes recorded since its job row was last written; they agree if and only if there are none, and always for a completed job |
| Template.RenderIsOnePass | internal/gateway/bulk.go:18-33 | For any leftmost split of the template, rendering is one piece per segment in order: a character itself, a known key exactly its value, an unknown key its own text; inserted values are never expanded again |
| Template.SplitUnique | internal/gateway/bulk.go:18-33 | There is only one leftmost non-overlapping split |
| Template.SplitIsLeftmost | internal/gateway/bulk.go:18-33 | The scanner finds it: every hole is a placeholder and none begins at a literal |
| Template.SplitPrint | internal/gateway/bulk.go:18-33 | Printing the segments' sources gives the template back |
| Template.MatchComplete | internal/gateway/bulk.go:18 | Every placeholder at the start of a text is matched with its own length and key |
| Template.MatchSound | internal/gateway/bulk.go:18 | Whatever is matched is a placeholder of the pattern |
| Template.MatchUnique | internal/gateway/bulk.go:18 | At one position at most one placeholder begins |
| Template.RematchFindsKey | internal/gateway/bulk.go:26-31 | Matching a placeholder's own text again finds the same key |
| Template.UnknownKeysStay | internal/gateway/bulk.go:26-31 | A template whose placeholders all have unknown keys renders to itself |
| RateLimiter.IntervalBound | internal/gateway/apikey.go:464-490 | Any half-open interval of k window lengths holds at most (k+1) times the limit of allowed requests |
| RateLimiter.WindowCounts | internal/gateway/apikey.go:464-490 | The window counts exactly the requests allowed since it began and never exceeds the limit |
| RateLimiter.DeniedExactly | internal/gateway/apikey.go:476-485 | A request is denied if and only if the limit was used up in its window; remaining is what is left; the reset lies in the future |
| RateLimiter.ResetAtIsExact | internal/gateway/apikey.go:468-484 | Until the reset reported with any answer the window stays, and the first request at or after it is allowed; after a denial nothing before it is |
| ApiKeyReloads.UsageBalances | internal/gateway/apikey.go:529-558 | Over any interleaving of requests, two-phase flush, reloads and key changes: stored + in flight + unflushed - granted shifts by the net traffic since each swap's copy and by entries whose write failed, and by nothing else |
| ApiKeyReloads.UsageConserved | internal/gateway/apikey.go:170-216 | When every swap comes after as much was collected as granted since its copy and writes succeed, nothing granted is lost or counted twice |
| ApiKeyReloads.AtomicReloadsConserve | internal/gateway/apikey.go:170-216 | In particular while every reload copies the key and swaps as if in one step and writes succeed, whatever else interleaves |
| ApiKeyReloads.NetIsDistance | internal/gateway/apikey.go:195-206 | In every run the cache is ahead of what a reload copied by exactly the granted less the collected requests since the copy, adjusted by other swaps |
| ApiKeyReloads.SwapExactly | internal/gateway/apikey.go:195-214 | After any run, a swap shifts a key's account by exactly that traffic, so it keeps the account if and only if the traffic is zero |
| ApiKeyReloads.OneReloadExactly | internal/gateway/apikey.go:195-214 | A reload with no other swap in between adds the usage collected and takes away the requests granted between its copy and its swap |
| ApiKeyReloads.GrantDuringReloadIsLost | internal/gateway/apikey.go:190-216 | From an empty installation: a request granted between copy and swap is counted nowhere |
| ApiKeyReloads.FlushDuringReloadCountsTwice | internal/gateway/apikey.go:190-216 | From an empty installation: a flush between copy and swap makes one request count as two |
| ApiKeyReloads.CreateStarts | internal/gateway/apikey.go:263-310 | A key created with an unused id and hash starts with a level account, whatever reloads and flushes are under way |
| ApiKeyWindows.SwapKeepsWindowExactly | internal/gateway/apikey.go:195-214 | After swaps that kept the window, the next one keeps it if and only if no request was granted since its copy; otherwise it puts an earlier window back |
| ApiKeyWindows.ReloadsBreakTheBound | internal/gateway/apikey.go:195-214 | From an empty installation, with a limit of one: two reloads under way let three requests through in one window length |
| ApiKeyWindows.CreateStartsFresh | internal/gateway/apikey.go:263-310 | A created key starts without a window in the cache and in every copy, whatever is under way |
| ApiKeyWindows.WindowFollows | internal/gateway/apikey.go:447-490 | While no swap comes after a grant since its copy, a key's window and grants in the store are those of the limiter over its request times |
| ApiKeyWindows.StoreIntervalBound | internal/gateway/apikey.go:447-490 | The interval bound for a key of the running store, over such runs |
| ApiKeyStore.ApiKeyStore.Authenticate | internal/gateway/apikey.go:447-491 | Invalid if and only if not cached, disabled if and only if not enabled, expired if and only if enabled and past its expiry, limited if and only if otherwise valid with the limit used up in the current window, granted otherwise; usage and last use move if and only if granted, with the exact window, remaining and reset |
| ApiKeyStore.GrantsExactly | internal/gateway/apikey.go:447-491 | A request is granted if and only if its key is cached, enabled, not expired, and unlimited or with room in its window |
| ApiKeyStore.GrantedExactly | internal/gateway/apikey.go:447-491 | Over any interleaving with flushes, reloads and changes, the requests granted to a key are exactly those |
| ApiKeyStore.NothingGrantedMeanwhile | internal/gateway/apikey.go:457-462 | No request is granted while every request finds the key disabled or expired |
| ApiKeyChanges.ReloadInstalls | internal/gateway/apikey.go:170-216 | A reload, with anything interleaved, installs exactly the keys of the table as it was when the reload began |
| ApiKeyChanges.ChangeTakesEffect | internal/gateway/apikey.go:339-389 | After a change and a reload that began after it, requests meet the new settings, so a disabled key is not granted anything |
| ApiKeyChanges.DeletionRevokes | internal/gateway/apikey.go:392-402 | After a deletion and such a reload the key is unknown and is not granted anything |
| ApiKeyChanges.RotationTakesEffect | internal/gateway/apikey.go:313-336 | After a rotation and such a reload the old secret is unknown and the new one has the key's settings |
| ApiKeyChanges.CreationTakesEffect | internal/gateway/apikey.go:263-310 | After a creation and such a reload the key is known, without usage |
| ApiKeyChanges.RunUnique | internal/gateway/apikey.go:142-168 | In every run no two keys of the table have the same hash |
| ApiKeyStore.ApiKeyStore.Flush | internal/gateway/apikey.go:529-558 | Every key's unflushed count and last use reach its row, except where the UPDATE fails and the count is lost; other columns and rows stay, and what is displayed for a key does not change |
| ApiKeyStore.ApiKeyStore.CollectUpdates | internal/gateway/apikey.go:530-548 | The locked half takes exactly the nonzero counts and clears them |
| ApiKeyStore.ApiKeyStore.WriteUpdates | internal/gateway/apikey.go:550-557 | The unlocked half adds each listed count to its own row once, unless that UPDATE fails |
| ApiKeyStore.ApiKeyStore.Reload | internal/gateway/apikey.go:170-216 | Undisturbed, the cache becomes the table's keys, each with the window, unflushed usage and last use of its hash, or none |
| ApiKeyStore.ApiKeyStore.Get | internal/gateway/apikey.go:404-418 | A key by id with stored plus unflushed usage, or none |
| SessionRegistry.RegisteredHasRow | internal/gateway/manager.go:250-277 | In every interleaving a registered session has its table row |
| SessionRegistry.OneCallInTheMiddle | internal/gateway/manager.go:250-328 | At most one call is between its table and its map change for a name, and then the name has a row and no registered session |
| SessionRegistry.InsertsNeedDelete | internal/gateway/manager.go:262-270 | Two creations cannot both pass the insert for a name without a removal's delete in between |
| SessionRegistry.ReplacedAtMostOnce | internal/gateway/manager.go:409-420 | However often a session object reports being logged out it is replaced at most once and never registered again |
| SessionRegistry.RowStays | internal/gateway/manager.go:306-328 | A row disappears only through a removal's delete |
| SessionRegistry.InsertOwns | internal/gateway/manager.go:262-264 | An accepted insert makes a row without a device, owned by the caller |
| SessionRegistry.OwnerStays | internal/gateway/manager.go:250-430 | A row keeps its owner until it is deleted, through every other call and restart |
| SessionRegistry.RunKeeps | internal/gateway/manager.go:250-430 | Rows, map, starting list and calls in progress account for each other in every reachable state |
| SessionManager.Manager.Create | internal/gateway/manager.go:250-277 | Succeeds exactly for a nonempty name that is in neither map nor table, adding the object and a row owned by the caller, and then is the three interleaved steps in a row; otherwise nothing changes |
| SessionManager.Manager.Remove | internal/gateway/manager.go:306-328 | Finds exactly the registered names; the row stays when its delete fails |
| SessionManager.Manager.RestartPairing | internal/gateway/manager.go:409-430 | Replaces the object exactly when it is still the registered one, resets the row's jid unless that write fails, and keeps all rows |
| Receipts.FoldIsMaximum | internal/gateway/store.go:187-209 | After any receipts the row's rank is the maximum of all of them, stamped by the first that reached it |
| Receipts.MaxRankIsGreatest | internal/gateway/store.go:169-185 | That maximum is the greatest rank among the start and the receipts |
| Receipts.OrderIndependent | internal/gateway/store.go:187-209 | The final rank does not depend on the order of the receipts |
| Receipts.RowIsFold | internal/gateway/session.go:544-570 | In the whole store an outgoing row is the fold of its own receipts, whatever else happens |
| Receipts.AggregateMatchesParticipants | internal/gateway/archive.go:165-184 | For a row saved before its first receipt, while no aggregate write for it fails, the aggregate is at least every participant's rank; with no receipt skipped it is the greatest of them (or sent) |
| Receipts.SavedLateExactly | internal/gateway/store.go:128-149 | At any moment in the life of a store, a row saved as sent starts dominating its participants if and only if no receipt for it was kept before |
| Receipts.SaveReceiptsAt | internal/gateway/archive.go:165-184 | One receipt event touches exactly that participant's receipts with an upsert that succeeds: a new row, or an upgrade of kind and time when the rank is higher, else the old row |
| Receipts.ReceiptsMove | internal/gateway/webhook.go:134-152 | A delivered, read or played receipt gives exactly that status, and its time, to every outgoing row and participant's receipt it reaches that is behind in the order sent, delivered, read, played; receipts of our own devices and other types change nothing |
| Receipts.ChatSwitch | internal/gateway/storefilter.go:55-72 | A chat opted in is admitted whatever the lists say, one opted out only as storage and lists say, and other chats as before |
| Receipts.ReceiptIsFold | internal/gateway/archive.go:165-184 | In the whole store a participant's receipt, kind and time, is the fold of the receipts kept for it, and exists as soon as one was kept |
| Receipts.ReceiptIsMaximum | internal/gateway/archive.go:165-184 | Over any events it has the greatest rank kept for it, stamped by the first kept receipt that reached it |
| Receipts.ReadersStay | internal/gateway/archive.go:165-184 | Whoever reached a rank for a message stays there: read counts never fall |
| Receipts.SecondSaveUnobservable | internal/gateway/store.go:128-149 | A second save of a message, however much later and with whatever content, leaves no trace in the rest of the run |
| Receipts.RunKeepsPositive | internal/gateway/archive.go:169-172 | No run keeps a receipt below delivered |
| MessageStore.MessageStore.HandleReceipt | internal/gateway/session.go:544-570 | A receipt event leaves "delivered", "read" or "played" exactly as `ReceiptsMove` says, with its failing writes: aggregate while storage is active, participant receipt when the chat is admitted |
| MessageStore.MessageStore.AdvanceStatus | internal/gateway/store.go:187-209 | Only outgoing rows named in the session move, never back |
| MessageStore.MessageStore.RecordReceipts | internal/gateway/archive.go:165-184 | The upsert loop is the table function, and nothing below delivered is kept |
| MessageStore.MessageStore.Save | internal/gateway/store.go:128-149 | Saves once by primary key, only while storage is active |
| MessageStore.MessageStore.StatusByIds | internal/gateway/store.go:229-278 | One answer per requested id in request order, found exactly when an outgoing row answers |
| Receipts.CountNeverFalls | internal/gateway/archive.go:165-184 | The number of participants a message was delivered to, was read by or was played by never falls |
| MessageStore.MessageStore.ReceiptsFor | internal/gateway/archive.go:187-214 | Exactly the named messages with a receipt are answered, each with all its stored receipts, one per participant, by time |
| Participants.ListedExactly | internal/gateway/group.go:767-793 | For every parser: an entry is listed if and only if its phone is not also a raw name of the table, or its own key is the raw name of a mention |
| Participants.ResolvedUnambiguous | internal/gateway/group.go:639-668 | For every parser: no two entries carry the same phone, so the order of a scan never matters |
| Participants.ListedDistinct | internal/gateway/group.go:770-791 | Nobody is listed twice |
| Participants.ListedExactlyOnce | internal/gateway/group.go:767-793 | When no user part equals a mention's raw name, the list is every participant in order of first mention |
| Participants.StatusList | internal/gateway/group.go:767-793 | On every table that the resolution leads to, the listing loop gives the reference list in whatever order the map is scanned |
| Participants.FindByPhone | internal/gateway/group.go:779-784 | The scan finds an entry with that phone exactly when there is one |
| Participants.ResolveParticipants | internal/gateway/group.go:639-668 | The resolving loop returns the participants and the status table of the resolution, or the error for nothing at all |
| Participants.ResolvedEntries | internal/gateway/group.go:644-662 | Every entry is a mention's: pending with its account, or failed without one |
| Participants.MentionsResolved | internal/gateway/group.go:644-662 | Every nonblank mention has its entry |
| Participants.ResolvedAccounts | internal/gateway/group.go:649-663 | Every account to add has an entry and is on the account server |
| Participants.NobodyNamed | internal/gateway/group.go:664-666 | Nobody is named if and only if every mention is blank |
| Participants.ResolvedPending | internal/gateway/group.go:639-668 | For every parser: the participants are distinct, exactly the entries whose phone resolves are pending, and those are participants |
| Participants.FormsMerge | internal/gateway/group.go:648-662 | Local, international and plus forms of a number become one participant however often and in whatever order they are given |
| Participants.RawUserHidesEntry | internal/gateway/group.go:654-661 | For every number, and every address the library parses to "raw:" and that number, the number's own entry is not listed |
| Participants.RawUserExample | internal/gateway/group.go:776-784 | A concrete number, address and library answer where that happens |
| GroupBatches.BatchesConcatenate | internal/gateway/group.go:671-698 | Paced calls are the participants in order, in full batches of five and a shorter last one, all of them unless the loop ends early |
| GroupBatches.StopsHaveCauses | internal/gateway/group.go:680-696 | No call follows a rate limit; a stop means the last call was rate limited or the caller had gone before the next one |
| GroupBatches.OnlyLeftoverPending | internal/gateway/group.go:671-707 | Whatever the server answers, nobody is pending afterwards except participants left over when the caller had gone, and nothing settled is reopened |
| GroupBatches.OwnReplyDecides | internal/gateway/group.go:671-745 | With replies that name only their own batch, each participant called for ends as the last outcome about it in the reply to its own call says, or failed with the limit or the refusal, of the entry it had before the run |
| GroupBatches.UncalledDecides | internal/gateway/group.go:680-696 | Those never called for fail with the limit after a rate limit, and as cancelled when the caller had gone, up to the leftover |
| GroupBatches.LastOutcomeDecides | internal/gateway/group.go:712-745 | After a reply each entry is what the last outcome about it says (0 added, 403 invited with code, 409 exists, else failed with its code), an outcome being about the entry of its user and else of its phone number; unnamed, added when it was pending in the batch, else unchanged |
| GroupBatches.LeftoverUntouched | internal/gateway/group.go:680-685 | Then the leftover keeps exactly its entries, so it is exactly what stays pending |
| GroupBatches.CreationConcatenates | internal/gateway/group.go:151-181 | The creation's batch and the paced batches are together exactly the resolved participants, at most five at a time |
| GroupBatches.CreationDecides | internal/gateway/group.go:151-179 | After a creation the members of its own batch are what the creation's results say of them |
| GroupBatches.CreationSettlesAll | internal/gateway/group.go:151-185 | For every parser, nobody is pending after a creation unless the caller had gone and left that participant over |
| GroupBatches.CreationListed | internal/gateway/group.go:151-185 | For every parser, the answer names nobody twice and exactly the entries of `ListedExactly`, and without a clash every participant in order of first mention |
| GroupBatches.AddingSettlesAll | internal/gateway/group.go:197-216 | The same people and nobody pending but the leftover after adding to a group that exists |
| GroupCall.Statuses.AddParticipantsPaced | internal/gateway/group.go:671-698 | The paced loop makes exactly the calls and the table of the specification |
| GroupCall.Statuses.MarkPending | internal/gateway/group.go:700-707 | Only pending entries of the batch become failed with the reason |
| GroupCall.Statuses.ApplyParticipantResults | internal/gateway/group.go:712-745 | The loops leave every entry as the last outcome about it says, by user or else by phone number, then unnamed batch members as added |
| GroupCall.CreateGroup | internal/gateway/group.go:136-194 | The whole creation: which error comes when, the calls made, and the answer whatever the scan order |
| GroupCall.AddParticipants | internal/gateway/group.go:197-216 | The whole addition: its error, the calls made, and the answer whatever the scan order |
| GroupCooldown.Spacing | internal/gateway/group.go:44-61 | Over any run of attempts, pairings and restarts: accepted creations are pairwise at least the cooldown apart when restarts find the last creation persisted, and at least the quiet period after the pairing when they find the last pairing persisted, each whether or not the other is on; exactly without a restart and within one second altogether with any number of them |
| GroupCooldown.RunKeepsQuiet | internal/gateway/manager.go:205-225 | What the session remembers of its pairing after such a run is behind what happened by less than a second |
| GroupCooldown.RunKeepsCooldown | internal/gateway/manager.go:205-225 | What it remembers of its last creation is behind by less than a second |
| GroupCooldown.ReportAgrees | internal/gateway/session.go:136-147 | A creation is refused if and only if the threshold of the status report is later than now |
| GroupCooldown.ReportedSecondExactly | internal/gateway/session.go:136-147 | A retry at the reported second is accepted if and only if the threshold is a whole number of seconds; one second later it always is |
| GroupCooldown.ReportedSecondTooEarly | internal/gateway/session.go:145-147 | A concrete creation time whose reported second is refused |
| GroupCooldown.Session.CheckGroupCooldown | internal/gateway/group.go:44-61 | Quiet period first, then cooldown, else the creation is stamped; the remaining time reported is exact |
| Webhook.QueueLaw | internal/gateway/webhook.go:35-83 | Over any run bodies are taken in the order they were accepted, and each accepted body is queued, held by one worker, delivered, given up or abandoned; queue and workers stay within their configured sizes |
| Webhook.PostLaw | internal/gateway/webhook.go:226-252 | Over any run a body is posted at most the configured attempts per copy, at least once per copy that left, and exactly the attempts per copy when all were given up |
| Webhook.StopLeavesQueue | internal/gateway/webhook.go:64-83 | Once the workers have left, queued bodies stay undelivered whatever comes after |
| Webhook.AcceptedExactly | internal/gateway/webhook.go:213-218 | A body is accepted if and only if the queue has room, else dropped without a trace |
| Webhook.WorkersMove | internal/gateway/webhook.go:73-83 | Which step is possible for a worker, exactly: an idle one takes the oldest body, a posting one finishes, a waiting one goes on or gives up on a stop |
| Webhook.Deliver | internal/gateway/webhook.go:226-252 | Posting stops at the first success, the last attempt or an interrupted wait, waits double the configured backoff, or one second when none is configured, and the worker's steps are a run of the queue |
| Webhook.PostLimit | internal/gateway/webhook.go:227-230 | The attempts are max(1, retries + 1), except that the largest integer wraps to one |
| Webhook.WaitExactly | internal/gateway/webhook.go:241 | A wait is backoff times two to the attempt minus one if and only if that fits in 63 bits; otherwise it is shorter |
| Webhook.TotalWaitExactly | internal/gateway/webhook.go:236-247 | The time waited before attempt k, negative waits ending at once, is backoff * (2^(k-1) - 1) if and only if the last of them fits in 63 bits; otherwise it is less |
| Webhook.WaitingEnds | internal/gateway/webhook.go:236-247 | However many retries are configured, the total wait before any attempt from the 65th on is the one before the 65th |
| Rebind.Rebind | internal/gateway/db.go:13-30 | The index loop computes the rewriting, early return included |
| Rebind.MeaningKeptExactly | internal/gateway/db.go:13-30 | The database reads the query's own meaning if and only if no placeholder and no dollar sign is directly followed by a digit |
| Rebind.PlaceholdersInOrder | internal/gateway/db.go:13-30 | Then reading gives the query back and the k-th placeholder is bound to argument k |
| Rebind.FusedExample | internal/gateway/db.go:20-28 | A concrete query whose placeholder reads back as parameter 15 |
| Rebind.ReadIsFused | internal/gateway/db.go:20-28 | What the database reads for every query, digits after a placeholder becoming part of its number |
| Rebind.DecimalRead | internal/gateway/db.go:24 | Reading a printed number gives the number |
| Phone.NormalizePhone | internal/gateway/session.go:690-725 | The digit loop and the checks after it compute the normal form, or the error of the first check that fails |
| Phone.TrimExactly | internal/gateway/session.go:691 | Trimming takes away all white space at both ends and nothing else |
| Phone.AddressesGoToLibrary | internal/gateway/session.go:736-742 | Addresses of groups, accounts, newsletters and privacy aliases are what the library makes of them |
| Phone.OthersAreNumbers | internal/gateway/session.go:744-752 | Anything else, without a legacy suffix, is an account if and only if its number is well-formed |
| Phone.DependsOnPlusAndDigits | internal/gateway/session.go:690-725 | Success and number depend only on the leading plus and the digits |
| Phone.NormalForm | internal/gateway/session.go:716-724 | A result is all digits, at least seven long, without a leading zero |
| Phone.Idempotent | internal/gateway/session.go:690-725 | Normalising again under any country code changes nothing |
| Phone.LocalFormAgrees | internal/gateway/session.go:711-714 | 0 + d and country code + d are the same number, or the same error |
| Phone.PlusFormAgrees | internal/gateway/session.go:696-714 | + country code + d and country code + d are the same number, or the same error |
| Phone.ParsedNumberIsStable | internal/gateway/session.go:730-753 | The user part of a parsed number parses to the same recipient under any country code |

## Left out

- BulkTheorems.AtMostOnce: assumes that recovery reads the job's rows safely in the sense of `ReadSafeExactly`; that condition is not enforced by the code.
- BulkAgreement.RunAgrees: assumes of the job that its runners' updates succeed, that recovery reads its rows when it has no runner, and that jobs are marked interrupted when it is not on its way; a failed update makes its memory and table differ for good.
- BulkPage.ListedExactly: is about runs of `RunAgrees`; that the page holds the newest 200 jobs is left to the query.
- BulkAgreement.EvictionUnobservableExactly: is about jobs whose insert succeeded, in runs of `RunAgrees`; a job that was never persisted disappears with its eviction.
- BulkList.List: job ids of the page are distinct because they are the table's primary key, and the order among equal start times is one the library may choose.
- BulkRunner.BulkRunner.Submit: the new id is a parameter that differs from all ids in memory, since ids are random.
- BulkRunner.BulkRunner.LoadOne: the row count equals the job's total, which the insert transaction establishes.
- Template.RenderIsOnePass: keys and white space are the pattern's character classes over characters, not over UTF-8 bytes.
- RateLimiter.IntervalBound: is about keys with a positive limit; a limit of zero or less means unlimited and is a branch of Authenticate.
- RateLimiter.ResetAtIsExact: promises only the first request at or after the reset; later ones compete for the new window.
- ApiKeyReloads.UsageBalances: is about a key that is neither rotated nor deleted; rotation forgets window and unflushed usage because the cache is looked up by the new hash.
- ApiKeyWindows.StoreIntervalBound: is about runs without a swap after a grant since its copy, and a key whose limit and window length stay; `ReloadsBreakTheBound` shows that other swaps can break the bound.
- ApiKeyStore.ApiKeyStore.Get: is exact between flushes and reloads; a reload inside a flush may show a count early or late.
- Participants.ListedExactlyOnce: the order of first mention assumes that no user part equals "raw:" followed by a mention; without that assumption `ListedExactly` and `ListedDistinct` hold.
- GroupBatches.OwnReplyDecides: assumes replies that name only their own batch; one that names a participant of another batch changes that entry as well; `OnlyLeftoverPending` covers such replies.
- GroupCooldown.Spacing: a restart that does not find the last creation or pairing persisted ends the promise of that half; hours are not so many that their nanoseconds overflow 64 bits, and restartPairing, which starts a new session object without either time, is not one of the events.
- Webhook.Deliver: with the attempt limit at the largest 64-bit integer the loop counter itself would wrap after that many posts; the model stops there.
- Receipts.AggregateMatchesParticipants: no message is purged, and after a failed aggregate write for the row nothing is promised.
- Phone.NormalForm: the configured country code consists of digits, and for the agreement of forms does not start with 0.
- SessionRegistry.RunKeeps: the devices, connections and pairing codes of a session are not part of the registry.
- Delay and jitter columns, waiting for a session to be ready before resuming, and the pauses between sends and batches: only their order matters here.
- BulkRunner.BulkRunner.LoadAll: the order of the selected jobs, oldest first, is left out; in the transition system their rows may be read in any order, and a read error drops all of them.
- Loading a database page or the rows of one job is one atomic read; read errors of lookups and listings, which only end the request, are left out.
- ApiKeyReloads.NetIsDistance: a reload copies the four fields of a key in one step; the program looks the key up under the lock and reads the fields after releasing it.
- Job, key and session objects that the program shares by pointer are values in the transition systems and objects only in the classes.
- Jobs marked as cancelled: the status is declared but never assigned.
- MessageStore.MessageStore.ReceiptsFor: the query's answer is a parameter that lists the matching rows once each in time order, since ties are the database's choice.
- Reading single messages, message queries, retention, media and the access log: straightforward reads and deletes.
- Participants.ResolveParticipants: error texts are symbols; which text a failed number carries is not modelled.
- Archived chats are pairs of session and chat; the program joins the two with a bar into one key.
- The archive set is changed in memory together with its table; deleteSession, which removes rows only, is not modelled.
- Disconnecting sessions before quit can turn pending recipients into failed ones; the model has that as a refused or failed attempt, not as an ordering.
- Building webhook payloads, the HTTP post and its timeout, the topic and invite link of a group, name checks and participant limits.
- The README of wa-gateway speaks of batches of 20 with 1.5 s between them; the constants in the code are 5 and 8 s, and the model follows the code.
- HTTP handlers, scopes, secrets, hashing, configuration, schema creation and the command-line client.
