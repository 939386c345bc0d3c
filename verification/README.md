# Lanqin Mail: proofs about its stateful cores

The mail server keeps state across many steps: delivery jobs under leases, quota windows over
event logs that are pruned, a cache of directory signatures, UID counters shared by half a dozen
operations. This project models those cores in Dafny and proves what they keep under retries,
crashes, interleavings and pruning. `dafny verify dfyconfig.toml` checks all of it.

Each core is a small independent model. What the source changes in place is a class whose methods
are proved against specification functions; the main results are lemmas about those functions,
over every run, every interleaving or every input.

| files | what they model |
|---|---|
| `LocalDelivery`, `LocalDeliveryLeases`, `LocalDeliveryWorker` | the lease protocol of local delivery jobs, every statement one step; when a job can be claimed, and that it always can be again |
| `AliasSearch`, `RecipientTargets`, `RecipientDirectory` | recipient and alias resolution, a depth-limited search with a shared visited set; who gets a message, told from the directory and the text of the addresses |
| `RollingWindow`, `SmtpRate` | sending limits over an event log that a background job prunes |
| `MailboxQuota` | mailbox creation under a row lock, its transaction split into steps |
| `MaildirSync`, `MaildirSyncer`, `MaildirFlags` | incremental Maildir sync while files change, and one run of it in place; flags in file names |
| `ExternalSync`, `UidPaging`, `Decimal` | import from a remote IMAP folder; reading and paging remote UIDs |
| `RebindPostgres`, `RebindVerbatim`, `RebindIdempotence`, `RebindTwice` | the scanner that rewrites SQL placeholders; what it does to each thing in a query; rewriting what was rewritten |
| `ImapAllocator`, `ImapInterleaved`, `ImapModSeqs` | UIDs and mod-sequences of a folder; draws and changes interleaved statement by statement |
| `LoginLimiter`, `LoginRuns` | lockout after failed sign-ins |
| `DomainCollection`, `CollectionOutcomes`, `CollectionSteps` | the guards around collecting mailboxes; what each handler answers and writes; checks, writes and transfers interleaved |
| `LineWriter` | folding base64 text while it is streamed |
| `QuotaLattice` | limits from permission groups |
| `Threading`, `MessagePaging` | thread assignment; keyset pages of message lists |
| `Common`, `Text` | definitions and string operations shared by several parts |

## What the proofs found

- The alias search is complete wherever no path of 22 distinct addresses starts at a recipient,
  however many addresses are reachable; at the end of every chain of 22 a mailbox gets nothing.
- Normalising an address is not idempotent: it drops one final dot of a domain, and then what that
  uncovers the next time. NormalizeStableIff says exactly when it is.
- A send reads the clock before it waits for the lock, so a cleanup can slip in between and prune
  what the send should have counted. With a cleanup `d` ahead the daily limit holds in windows of 24
  hours less `d`, and in no longer ones.
- A mailbox creation reads the clock twice. With `skew` between the readings the daily limit holds in
  windows of 24 hours less `skew`, and in no longer ones.
- The row lock of mailbox creation does not cover transfers: one that lands between count and
  commit takes the new owner above the limit exactly when the creation was to use up the last place.
- A second copy of a message is accepted without a row and its directory's signature cached: in the
  catch-all always (maildir_sync.go:471-476), in a mailbox folder when it cannot be removed, which is
  only logged (maildir_write.go:368-370). When the other copy goes, only a full scan imports it.
- The same holds of a file that outlives its row: deleting a user takes message rows along through
  cascades and touches no file (admin_handlers.go:373, app.go:329, app.go:447), and a message whose
  file cannot be removed loses its row all the same (mail_handlers.go:2118-2120, 2750-2752). In a
  directory that is skipped, these two kinds of files are all that is missed.
- `moveMessageMaildir` overwrites the message's folder (maildir_write.go:210) before it compares it
  with the target (maildir_write.go:253), so a move by rename never bumps the folder it leaves.
- A flag change keeps mod-sequences in order only if the folder the caller names is still the
  message's own (or has counted no further).
- Drawing a UID outside a transaction is a read, a write and a use. A UID is handed out twice exactly
  when a write comes after the counter has moved on since its read; two draws that read before either
  writes are enough. The unique index on (folder, UID) keeps two rows from holding it at once, not
  one after the other.
- A flag change outside a transaction is a read, a write and a use of the mod-sequence as well. A
  client that asks for the highest mod-sequence while a worker stands between the last two, or holds
  an outdated reading, can miss that change for good; otherwise it misses none below the top. The
  handlers that write the mod-sequence twice set the flag with the second write
  (mail_handlers.go:1974-1979), so their first write does not help.
- The placeholder rewriter is idempotent on queries without a dollar sign and without `??`. With `??`
  it still is exactly when a `|` or `&` follows each such mark, or the mark stands where dollar signs
  before it, written for placeholders or the query's own, open a dollar body (`?a?a??`); which ones
  do is told from the query's tokens. A dollar sign inside a text can end such a body too early.
- A message marked unread outside the inbox is written without a flag separator when it has no
  other flags, and such a name reads back as read.
- The guard that keeps collection targets with enabled owners is a statement of its own
  (admin_handlers.go:204-209), and accepting a transfer takes no lock (router_auth.go:67): a target
  accepted between that check and the write (admin_handlers.go:262) ends up with a disabled owner.
  It goes wrong exactly then, or when the receiver was disabled after signing in.
- README.md:175 of the repository says the mailbox limit counts deleted mailboxes; the code counts
  the mailboxes currently owned (app.go:1855-1858), and so does the model.

## Assumptions

- Times are integers. The stored text form compares differently where trailing zeros were dropped.
- Ids and lease tokens are fresh and never empty, as `newID` makes them.
- One SQL statement outside a transaction, or one transaction, is one step, except where a model
  splits it (mailbox creation, local delivery, UID draws, mod-sequences, guarded handlers). Database errors, the
  network, the file system and other programs appear as parameters, as steps that may come at any
  time, or as methods of which callers know only the contract.
- Text is ASCII. Ids compare by an integer rank where only their order matters.
- A change of a directory's entries gives it a signature it never had before.
- The database's foreign keys refuse to delete a mailbox, and so a user or domain with it, while a
  collection rule names it. A user cannot be deleted and made again under the same id.
- A remote server hands out growing UIDs and never reuses one; UIDVALIDITY stays fixed.
- Counters are 64-bit numbers and remote UIDs 32-bit ones, with wrap-around written out or proved absent.

## Model

| member | source | states |
|---|---|---|
| LocalDelivery.OneMessagePerJob | apps/api/internal/app/local_delivery.go:252-335 | Under every interleaving of any number of workers, crashes, takeovers and lost commit acknowledgements, a job inserts at most one message row, its message id is set exactly when that row was inserted, and one (source, target) pair names one row |
| LocalDelivery.ControlsAtMostOnce | apps/api/internal/app/local_delivery.go:342-348 | In every run inbound controls are applied at most once per job, and only to jobs that are delivered |
| LocalDelivery.RowsInEveryRun | apps/api/internal/app/local_delivery.go:219-250 | In every run: claimable rows hold their payload and terminal rows never do; a delivered row has its message and that message's file; a row fails only from its eighth claim on; claims number at most 8 plus those superseded without an outcome |
| LocalDelivery.SupersededIsPowerless | apps/api/internal/app/local_delivery.go:256-338 | Once a worker's token is no longer on its row it never is again, in any continuation of the run; every step the worker takes under it, however much later, changes no row, inserts no message and triggers no controls |
| LocalDelivery.RunIsLater | apps/api/internal/app/local_delivery.go:219-350 | From any reachable state on, inserted messages and recorded message ids never change, terminal rows are frozen until purged, purged rows never return |
| LocalDelivery.NextKeeps | apps/api/internal/app/local_delivery.go:219-350 | Every step keeps the invariant: tokens unique, attempts accounted for, workers' knowledge consistent with the rows |
| LocalDeliveryLeases.AlwaysDueFromSomeTime | apps/api/internal/app/local_delivery.go:220-229 | In every reachable state each job neither delivered nor failed has a time from which a claim by any idle worker succeeds, and before which it changes no row: a crashed worker's job is always taken over |
| LocalDeliveryLeases.ClaimLeases | apps/api/internal/app/local_delivery.go:220-223 | A claim at t keeps everyone else off until exactly t plus 300 seconds: as long as the claimer does nothing more but crash, whatever all others do, earlier claims fail and the first from then on succeeds |
| LocalDeliveryLeases.ClaimOutcome | apps/api/internal/app/local_delivery.go:220-223 | A claim counts one attempt more and keeps what earlier claims achieved: payload, message id, source and target |
| LocalDeliveryLeases.SupersededGivesUp | apps/api/internal/app/local_delivery.go:234-348 | A superseded worker fails, or stops, at the next statement that looks at its row |
| LocalDeliveryLeases.TransactionRenews | apps/api/internal/app/local_delivery.go:289-293 | The delivery transaction under a valid token counts those 300 seconds again |
| LocalDeliveryLeases.FailureDefers | apps/api/internal/app/local_delivery.go:234-249 | A recorded failure of fewer than eight claims keeps everyone off until exactly the retry delay after the reading of its claim |
| LocalDeliveryLeases.FailureOutcome | apps/api/internal/app/local_delivery.go:234-249 | What it records: the kind of error, the free lease, queued again or from the eighth claim on failed |
| LocalDeliveryLeases.RetryDelays | apps/api/internal/app/local_delivery.go:247 | The delays are 60, 120, 240, 480, 960, 1920 and then always 3840 seconds |
| LocalDeliveryLeases.NewJobIsDue | apps/api/internal/app/local_delivery.go:152-160 | A new job holds its payload and is due at once |
| LocalDeliveryLeases.CanStillBeDelivered | apps/api/internal/app/local_delivery.go:219-350 | From every reachable state each job neither delivered nor failed can still be delivered, by any idle worker from some time on, with its message, its file and the inbound controls applied |
| LocalDeliveryLeases.FinishOutcome | apps/api/internal/app/local_delivery.go:341-348 | What finishing leaves: delivered, no payload, no error, no lease, the message recorded before |
| LocalDeliveryLeases.RowGoesIff | apps/api/internal/app/local_delivery.go:212-214 | A row goes in exactly one case: a purge meets it delivered or failed with a time stamp before the cutoff |
| LocalDeliveryLeases.FinishedIsKept | apps/api/internal/app/local_delivery.go:212-214 | So a delivered or failed row stays unchanged through every run whose purges have no later cutoff than its time stamp |
| LocalDeliveryWorker.ProcessIsARun | apps/api/internal/app/local_delivery.go:219-350 | An undisturbed call has exactly the effect of the step machine taking its steps in a row |
| LocalDeliveryWorker.ProcessOutcome | apps/api/internal/app/local_delivery.go:227-249 | One call delivers exactly when every stage succeeds, fails the job exactly when it does not and this was the eighth claim or later, otherwise queues it with a growing delay; a recorded message is never inserted again |
| LocalDeliveryWorker.EnqueueAllCovers | apps/api/internal/app/local_delivery.go:146-165 | Enqueuing a message leaves every existing job as it was, gives each target a job of that source, and adds nothing else: the new rows are queued jobs with that payload for targets that had none |
| LocalDeliveryWorker.EnqueueAgainIsIdle | apps/api/internal/app/local_delivery.go:152-160 | Handing a message in again after it was enqueued, for any of its targets, adds no job and changes none |
| LocalDeliveryWorker.JobTable.EnqueueTargets | apps/api/internal/app/local_delivery.go:146-165 | The enqueuing loop does what the specification of the transaction says |
| LocalDeliveryWorker.JobTable.EnqueueJob | apps/api/internal/app/local_delivery.go:153-156 | Insert under the unique key (source, target) |
| LocalDeliveryWorker.JobTable.ClaimJob | apps/api/internal/app/local_delivery.go:220-229 | The claiming update: exactly when queued and due or its lease has run out, under a fresh token |
| LocalDeliveryWorker.JobTable.InsertMessageOnce | apps/api/internal/app/local_delivery.go:292-334 | The delivery transaction: with a valid token extends the lease and inserts the message only if no id is recorded |
| LocalDeliveryWorker.JobTable.FinishJob | apps/api/internal/app/local_delivery.go:341-348 | Marks the job delivered only under a valid token, and says whether it did |
| LocalDeliveryWorker.JobTable.RecordFailure | apps/api/internal/app/local_delivery.go:234-249 | Records a failed claim only under a valid token: queued again, or failed from the eighth attempt on |
| LocalDeliveryWorker.JobTable.PurgeTerminal | apps/api/internal/app/local_delivery.go:212-214 | Drops exactly the terminal rows older than the cutoff |
| LocalDeliveryWorker.JobTable.ProcessLocalDelivery | apps/api/internal/app/local_delivery.go:219-350 | The whole call in place equals its specification for every answer of the outside world |
| AliasSearch.TargetsAreCalledFor | apps/api/internal/app/local_delivery.go:48-121 | Every target is a mailbox or collection reachable from some recipient, or that recipient's own collection; unknown addresses come without duplicates |
| AliasSearch.TargetsAreComplete | apps/api/internal/app/local_delivery.go:48-121 | When no path of 22 distinct addresses starts at a recipient, the targets are exactly those called for, however many addresses are reachable |
| AliasSearch.UnknownAreKept | apps/api/internal/app/local_delivery.go:93-118 | Under the same condition, for all recipients: an address is kept for the catch-all exactly when it is reachable, local and wanted by nothing else, or is the form of a recipient whose search started from another form and found nothing new |
| AliasSearch.UnknownAreComplete | apps/api/internal/app/local_delivery.go:93-118 | When the recipients' normal forms are stable only the first of these occurs |
| RecipientTargets.NormalizeStableIff | apps/api/internal/app/util.go:268-275 | Normalising an address twice changes nothing exactly when it has no at sign or its normal form ends in neither a dot nor a space |
| RecipientTargets.CatchAllIsComplete | apps/api/internal/app/local_delivery.go:93-118 | So for recipients whose normal form ends in neither, what is kept is exactly what they lead to and nothing else wants |
| AliasSearch.SearchSeesAll | apps/api/internal/app/local_delivery.go:52-103 | Under that condition the depth-first search visits exactly the reachable addresses, despite the shared visited set and the depth limit |
| AliasSearch.ResolveAccounts | apps/api/internal/app/local_delivery.go:52-103 | Whatever a search adds is accounted for by an address it newly visited, and all of those are reachable |
| AliasSearch.ResolveExpands | apps/api/internal/app/local_delivery.go:52-58 | The addresses on the current path are distinct and seen, so the depth limit only cuts off addresses already seen when no longer path exists |
| AliasSearch.LongPathIff | apps/api/internal/app/local_delivery.go:52-58 | What that condition says: there is no sequence of that many distinct addresses, each an alias destination of the one before |
| AliasSearch.FewReachableHaveNoLongPath | apps/api/internal/app/local_delivery.go:52-58 | It holds whenever at most 21 distinct addresses are reachable |
| AliasSearch.FlatAliasHasNoLongPath | apps/api/internal/app/local_delivery.go:52-58 | It holds for an alias of any number of destinations that have no aliases of their own |
| AliasSearch.LongChainLosesItsMailbox | apps/api/internal/app/local_delivery.go:53-58 | In every chain of 22 distinct addresses the mailbox at the end is called for and gets nothing |
| AliasSearch.TwentyTwoIsTooMany | apps/api/internal/app/local_delivery.go:53-58 | A concrete such directory |
| AliasSearch.TargetSearch.ResolveAddress | apps/api/internal/app/local_delivery.go:52-103 | The closure that mutates targets, unknown and seen computes the recursive search |
| AliasSearch.TargetSearch.FindTargets | apps/api/internal/app/local_delivery.go:104-120 | The loop over recipients computes the specified targets and unknown addresses |
| RecipientTargets.TagsDoNotMatter | apps/api/internal/app/local_delivery.go:21-44 | Dropping a plus tag never changes which domain's collection applies |
| RecipientDirectory.MailboxIsServed | apps/api/internal/app/local_delivery.go:59-68 | A recipient that is a mailbox's address, in any case, with spaces around it and with or without any plus tag, gets the message into that mailbox, whatever the aliases and the other recipients are |
| RecipientDirectory.OnlyTheseAreServed | apps/api/internal/app/local_delivery.go:48-121 | Nobody else does: each target is the mailbox of an address that some recipient leads to, taken without its tag, or a domain's collection |
| RecipientDirectory.AllTheseAreServed | apps/api/internal/app/local_delivery.go:48-121 | And all of those do, where no path of 22 distinct addresses starts at a recipient |
| RecipientDirectory.CollectionIsServed | apps/api/internal/app/local_delivery.go:104-116 | A domain's collection gets a copy of every message to an address of the domain, known or not, tagged or not |
| RecipientDirectory.WithoutTagIff | apps/api/internal/app/local_delivery.go:21-31 | Dropping the tag gives exactly the one address that this one is, with or without a tag before its last at sign |
| RecipientDirectory.MailboxIff | apps/api/internal/app/local_delivery.go:59-65 | An address has the mailbox stored under its form without a tag, and no other |
| RecipientDirectory.AliasIff | apps/api/internal/app/local_delivery.go:69-76 | The alias of the address as it stands goes first, then the one of its form without a tag |
| RecipientDirectory.CollectionIff | apps/api/internal/app/local_delivery.go:33-44 | A collection is found by exactly what stands behind the last at sign |
| RecipientDirectory.KeepsUnknownIff | apps/api/internal/app/mail_handlers.go:1946-1954 | An unknown address is kept when the catch-all is on and its normal form has one at sign, before an active domain |
| RecipientDirectory.LocalPartChars | apps/api/internal/app/util.go:259-266 | A local part keeps small letters, digits and five signs, told by their codes |
| Text.SpaceGoes | apps/api/internal/app/util.go:224-228 | Trimming takes the white space at both ends and nothing else |
| Text.AsciiClasses | apps/api/internal/app/util.go:224-228 | Which characters are white space, and that lowering changes the 26 capitals only, told by their codes |
| Text.SplitIs | apps/api/internal/app/local_delivery.go:81 | Splitting at a separator cuts at each and loses nothing: joined with it the parts are the text again |
| SmtpRate.LimitsHoldInEveryWindow | apps/api/internal/app/mail_handlers.go:1209-1251 | In every run whose cleanups read a clock at most d later than a send that follows them, whatever the order of the sends' readings: the recipients of the messages that went out in any 24 hours less d, at least one each, stay within the daily limit, the messages in any 60 seconds (or 24 hours less d, if shorter) within the minute limit |
| SmtpRate.HoldsIff | apps/api/internal/app/mail_handlers.go:1209-1251 | No longer windows hold in all those runs: for each d and each length, exactly when the length is at most that |
| SmtpRate.LateSendOverfills | apps/api/internal/app/mail_handlers.go:1862-1872 | The run that breaks the next longer window: a send that read its clock d before the cleanup and was counted after it |
| SmtpRate.LogCounts | apps/api/internal/app/mail_handlers.go:1862-1872 | In every run, from the latest cleanup's cutoff on, the stored log counts exactly as the record of all admitted messages does |
| SmtpRate.PruningChangesNoDecision | apps/api/internal/app/mail_handlers.go:1862-1872 | In every run a send gets the verdict that the record of all messages admitted so far would give, unless a cleanup before it has read a later clock than it did |
| SmtpRate.LogIsPrunedHistory | apps/api/internal/app/mail_handlers.go:1209-1251 | In runs where no cleanup is ahead of a later send, the log is the history without any cleanup, cut off at the latest one, and the messages admitted are those of that history |
| SmtpRate.CleanupHarmlessIff | apps/api/internal/app/mail_handlers.go:1862-1872 | A cleanup can be ignored by a send, whatever the log, exactly when its clock reading is not later than the send's |
| SmtpRate.RefusalsAreJustified | apps/api/internal/app/mail_handlers.go:1228-1246 | With no later readings in the log, a refused message, counted with its recipients, really would have overfilled its window |
| SmtpRate.RefusedIff | apps/api/internal/app/mail_handlers.go:1209-1251 | In every run, for a send that no earlier reading is ahead of: refused for the day exactly when its recipients and those of what the user sent in the last 24 hours exceed the daily limit, otherwise for the minute exactly when the last 60 seconds saw as many messages as allowed |
| SmtpRate.CommandIsOneRecipient | apps/api/internal/app/mail_handlers.go:1081-1116 | IMAP and POP3 commands are decided like messages with one recipient |
| SmtpRate.EventTable.RecordSmtpRate | apps/api/internal/app/mail_handlers.go:1209-1251 | Decides and records as specified; administrators and users without limits are not metered |
| SmtpRate.EventTable.CleanupStaleEvents | apps/api/internal/app/mail_handlers.go:1862-1872 | Keeps exactly the events of the last 24 hours |
| RollingWindow.EveryWindowFits | apps/api/internal/app/mail_handlers.go:1228-1246 | If each event fitted the window ending with it when it was added, every window fits |
| RollingWindow.PruneUnseen | apps/api/internal/app/mail_handlers.go:1862-1872 | Pruning below a window's start does not change what the window counts |
| MailboxQuota.RunIsSerial | apps/api/internal/app/app.go:1760-1811 | With lock, count, insert and commit as separate steps of any number of workers, every run whose transfers each leave room ends in the rows of a serial run in commit order |
| MailboxQuota.CommitsAreAdmitted | apps/api/internal/app/app.go:1839-1882 | In those runs a creation about to commit would be admitted by the serial run at that moment |
| MailboxQuota.TransferKeepsIff | apps/api/internal/app/dialect_sql.go:71-88 | A transfer keeps every count valid exactly when it leaves room: it changes nothing, or no creation of the receiver that has counted already has a limit that one more mailbox would reach |
| MailboxQuota.RunKeepsIff | apps/api/internal/app/dialect_sql.go:71-88 | A run keeps lock, fresh ids and counts valid throughout exactly when each of its transfers leaves room |
| MailboxQuota.RunStaysLocked | apps/api/internal/app/dialect_sql.go:71-88 | The lock, the fresh ids and the daily counts stay valid in every run, transfers or not |
| MailboxQuota.LimitsHoldInEveryRun | apps/api/internal/app/app.go:1839-1922 | In every run, a user with fixed limits creates at most the daily limit in any 24 hours less the time between a creation's two clock readings; and a user to whom nobody hands mailboxes never owns more than the limit, whoever else is handed some |
| MailboxQuota.DailyHoldsIff | apps/api/internal/app/app.go:1787-1869 | When a creation's two clock readings (the time stamp, and the one the window is counted back from) are at most skew apart, the daily limit holds in windows of 24 hours less skew in every run, and in no longer ones: two creations pass a limit of one a day |
| MailboxQuota.CountersMatchInEveryRun | apps/api/internal/app/app.go:1917-1922 | The lifetime counter is the number of creations, whatever was deleted or handed over since |
| MailboxQuota.AnswerIff | apps/api/internal/app/app.go:1839-1910 | With no later creations on record: admitted exactly when the user is there and both limits have room for one more, told from the creations of the last 24 hours and the mailboxes owned now; the day's limit is named first |
| MailboxQuota.OneAtATime | apps/api/internal/app/dialect_sql.go:71-88 | In every state of a run at most one creation for a user is under way, of those with a limit or past their count |
| MailboxQuota.TransferBreaksTheLimitIff | apps/api/internal/app/dialect_sql.go:71-88 | A transfer to the user between count and commit takes the user above the limit exactly when the creation was to use up the last place: only user rows are locked |
| MailboxQuota.TransferCanBreakTheLimit | apps/api/internal/app/dialect_sql.go:71-88 | A concrete state in which that happens |
| MailboxQuota.MailboxTables.ConsumeMailboxQuota | apps/api/internal/app/app.go:1839-1910 | The guarded increment, and which guard failed, as specified |
| MailboxQuota.MailboxTables.CreateMailbox | apps/api/internal/app/app.go:1760-1811 | An undisturbed creation is the serial creation |
| MaildirSyncer.ScanStaysCovering | apps/api/internal/app/maildir_sync.go:178-255 | If the signature read before a listing shows again after it, the listing covered everything, however files changed meanwhile |
| MaildirSync.CacheStaysSound | apps/api/internal/app/maildir_sync.go:139-168 | In a directory that still shows its cached signature every file was handled without error as it is now, and has a row, was accepted as a copy or lost its row since, whatever others do to files and rows |
| MaildirSync.SkippedIsMissedIff | apps/api/internal/app/maildir_sync.go:439-479 | In a skipped directory a scan would give a row to exactly the files that are there without one, because they were accepted as copies (a second catch-all copy, or a folder copy that could not be removed) or their row was dropped, and that are no copies now: no row has their message, or one has whose file is gone |
| MaildirSync.DroppingOrphans | apps/api/internal/app/maildir_sync.go:244-255 | However many rows go while their files stay: the cache stays sound, the same directories are skipped, and a file that lost its row is missed exactly when it is no copy of what is left |
| MaildirSync.DroppedRowsAreMissed | apps/api/internal/app/admin_handlers.go:373 | When all rows of a message go at once, as by the cascades from a deleted user (app.go:329, 447), its files in skipped directories are missed by every run but a full scan, which would import them |
| MaildirSync.DeletedRowIsMissed | apps/api/internal/app/mail_handlers.go:2118-2120 | The plainest run: one file is imported, its directory remembered, the row deleted while the file stays because its removal failed; the file is skipped although a scan would import it |
| MaildirSync.LosingTheTwinOrphans | apps/api/internal/app/maildir_sync.go:683-693 | Whenever the one other copy goes from another directory, file and row, the accepted copy becomes such a file while its own directory is still skipped |
| MaildirSync.FailedRemovalIsCached | apps/api/internal/app/maildir_write.go:368-370 | Two copies in one mailbox folder: the scan imports one, fails to remove the other, and may remember both directories, because the failure is only logged |
| MaildirSync.FailedRemovalIsMissed | apps/api/internal/app/maildir_sync.go:645-647 | From that state the imported copy goes; the other one is skipped by every run but a full scan, which would import it |
| MaildirSync.IncrementalAgreesIff | apps/api/internal/app/maildir_sync.go:139-168 | From any state with a sound cache, a full scan and one that leaves skipped directories out, over the same files in the same order, end in the same rows if and only if no file left out is orphaned (accepted as a copy or its row dropped, and no copy now) when its turn comes |
| MaildirSync.NewFileOutcome | apps/api/internal/app/maildir_sync.go:531-693 | A new file in a mailbox folder takes over a row exactly when the file of some row with its message is gone; otherwise it is removed, or left behind when that fails, exactly when a row of the same folder has its message, and else stored: a copy in another folder is a message of its own |
| MaildirSync.NewCatchAllOutcome | apps/api/internal/app/maildir_sync.go:471-479 | A new file in the catch-all is stored exactly when no row has its message for its recipient, and never touched |
| MaildirSync.NothingIsLost | apps/api/internal/app/maildir_sync.go:507-693 | Over any scan: every message it held a readable file of in a mailbox folder has a row in that folder afterwards, whose file is there, whatever was removed, relinked or left behind |
| MaildirSyncer.RunsAgreeIff | apps/api/internal/app/maildir_sync.go:123-168 | The same of two undisturbed runs from one state, a full scan and one that leaves skipped directories out: their rows are the same if and only if no file left out is orphaned when its turn comes |
| MaildirSyncer.ForgettingIsSound | apps/api/internal/app/maildir_sync.go:695-765 | Deleting a row whose file is gone keeps the cache sound |
| MaildirSyncer.Syncer.ScanDirectory | apps/api/internal/app/maildir_sync.go:178-241 | A scan during which files change keeps its covering property; undisturbed it handles every file it lists |
| MaildirSyncer.Syncer.HandleFile | apps/api/internal/app/maildir_sync.go:439-553 | One file: known by its path, relinked to a row whose file is gone, accepted without a row (catch-all), removed or, when that fails, left in place without a row (folder) as a copy, or stored |
| MaildirSyncer.Syncer.CollectPending | apps/api/internal/app/maildir_sync.go:139-168 | Skipped directories hold nothing to import, at the moment they are skipped, but files once accepted as copies without a row or whose row was dropped since; a full scan skips none; undisturbed, exactly the targets not skipped are pending |
| MaildirSyncer.Syncer.ScanAndRemember | apps/api/internal/app/maildir_sync.go:178-255 | The signature is remembered only after a clean scan framed by the same signature; the cache stays sound |
| MaildirSyncer.Syncer.ScanAll | apps/api/internal/app/maildir_sync.go:170-255 | The second pass keeps the cache sound and touches only scanned directories' entries |
| MaildirSyncer.Syncer.SyncOnce | apps/api/internal/app/maildir_sync.go:123-270 | Whatever others do to files and rows, the cache stays sound and skipping misses nothing but files once accepted as copies or whose row was dropped; undisturbed, exactly the targets not skipped are scanned, and without failures (of removals too, if they are only logged) the rows are those after their files one after the other, each listed once |
| MaildirSyncer.Syncer.CleanupMissing | apps/api/internal/app/maildir_sync.go:695-765 | Deletes only rows not seen, not recent, and whose file was missing when looked for; the cache stays sound even if files come back |
| ExternalSync.FolderSync.SyncFolder | apps/api/internal/app/external_imap.go:1306-1397 | With mail arriving, being expunged and other runs at work: the watermark never decreases and never passes a remote message without a record, nothing is imported twice, at most 100 messages pass per run; an undisturbed run leaves the remote folder as it was and advances the watermark over exactly the messages it counted, and over the next hundred when nothing fails |
| ExternalSync.FolderSync.ImportBatches | apps/api/internal/app/external_imap.go:1326-1388 | Imported plus skipped equals messages passed; a first failing fetch stores nothing |
| ExternalSync.FolderSync.ImportBatch | apps/api/internal/app/external_imap.go:1341-1384 | Stops at the first failure; everything up to the last UID passed has a record |
| ExternalSync.FolderSync.FetchNew | apps/api/internal/app/external_imap.go:1998-2036 | What of the next UIDs is still there when fetched: nothing in between is left out |
| ExternalSync.FolderSync.InsertOnce | apps/api/internal/app/external_imap.go:1455-1479 | Record and message together, or neither when the record exists |
| ExternalSync.RunsFinish | apps/api/internal/app/external_imap.go:1306-1397 | As many failure-free steps of the watermark as there are hundreds of messages leave nothing above it |
| ExternalSync.FolderSync.SyncRepeatedly | apps/api/internal/app/external_imap.go:1306-1397 | SyncFolder run that many times over a folder at rest: afterwards every remote message has a local record |
| ExternalSync.NothingLeftMeansAll | apps/api/internal/app/external_imap.go:1306-1397 | A watermark that has passed everything leaves no remote message without a record |
| ExternalSync.PassedNext | apps/api/internal/app/external_imap.go:1341-1384 | Passing the next fetched message passes over no remote message |
| UidPaging.BoundedSearchUids | apps/api/internal/app/external_imap.go:2048-2089 | Equals flatten-then-take in either direction over sorted disjoint ranges; its 32-bit arithmetic never wraps; nothing for dynamic sets or non-positive limits |
| UidPaging.AppendAscending | apps/api/internal/app/external_imap.go:2054-2075 | One range upwards, up to the limit, up to the last 32-bit UID |
| UidPaging.AppendDescending | apps/api/internal/app/external_imap.go:2054-2075 | One range downwards, up to the limit |
| UidPaging.FetchSummaries | apps/api/internal/app/external_imap.go:1907-1977 | One page shows exactly what the folder shows between the next cursor's bound and its own, newest first; the next cursor names a lower bound |
| UidPaging.CursorRoundTrip | apps/api/internal/app/external_imap.go:1920-1923 | Every cursor written reads back as the bound it stands for |
| UidPaging.CursorContinues | apps/api/internal/app/external_imap.go:1918-1930 | A page starts where the cursor of the one before says, with or without its prefix, and with a blank cursor at the newest UID there can be |
| UidPaging.OddCursors | apps/api/internal/app/external_imap.go:1918-1930 | A cursor that is no number starts at the newest UID there can be, one that is too large at the largest UID |
| UidPaging.PageSizes | apps/api/internal/app/external_imap.go:1912-1914 | Pages of 20, 30 and 50 can be asked for, anything else gets 30 |
| UidPaging.EdgeIsOldest | apps/api/internal/app/external_imap.go:2048-2089 | The ascending edge is the oldest UIDs: in order, as many as asked for, and none left out below them |
| UidPaging.ListingDescends | apps/api/internal/app/external_imap.go:1968-1976 | Following the cursors lists nothing twice and strictly descends, even when the folder changes in between |
| UidPaging.ListingIsComplete | apps/api/internal/app/external_imap.go:1918-1976 | Every message shown throughout is listed once the listing has passed it |
| UidPaging.ListingEnds | apps/api/internal/app/external_imap.go:1968-1976 | Following the cursors ends, after at most as many pages as the first bound |
| UidPaging.WholeListing | apps/api/internal/app/external_imap.go:1907-1977 | Over a folder at rest the pages list exactly the matching messages, each once |
| UidPaging.FlattenIsAscending | apps/api/internal/app/external_imap.go:2046-2089 | Sorted disjoint ranges flatten to an increasing list |
| Decimal.ParseFormat | apps/api/internal/app/external_imap.go:1921-1974 | Numbers written in decimal read back |
| RebindPostgres.Rebind | apps/api/internal/app/database.go:242-351 | The scanning loop refines the recursive token specification |
| RebindPostgres.CopyToken | apps/api/internal/app/database.go:247-348 | One turn of the loop copies, collapses or numbers exactly one token |
| RebindPostgres.SkipQuoted | apps/api/internal/app/database.go:250-267 | Finds the end of a quoted text, with backslash escapes and doubled quotes |
| RebindPostgres.SkipIdentifier | apps/api/internal/app/database.go:269-284 | Finds the end of a quoted identifier |
| RebindPostgres.SkipBlock | apps/api/internal/app/database.go:297-315 | Finds the end of nested block comments |
| RebindPostgres.DollarDelimiter | apps/api/internal/app/database.go:353-368 | Recognises exactly the opening delimiters of dollar-quoted bodies |
| RebindPostgres.TokensSpellTheQuery | apps/api/internal/app/database.go:242-351 | The tokens spell out the query: nothing is lost or moved |
| RebindPostgres.PlaceholdersAreNumbered | apps/api/internal/app/database.go:326-343 | The output is the tokens with placeholder number n written $n, in order and without gaps, doubled marks halved, all else byte for byte |
| RebindPostgres.CommentsNest | apps/api/internal/app/database.go:297-315 | Inner comments are closed before the outer ones go on: depths add up |
| RebindPostgres.QuotedValueIsKept | apps/api/internal/app/database.go:250-267 | A value quoted with its quotes doubled and backslashes escaped is one token, whatever it contains |
| RebindPostgres.BodyEndsAtFirst | apps/api/internal/app/database.go:317-324 | A dollar-quoted body ends with the first repetition of its delimiter |
| RebindPostgres.BodyWithoutEnd | apps/api/internal/app/database.go:321-323 | Without one it takes the rest of the query |
| RebindVerbatim.MarkIsNumbered | apps/api/internal/app/database.go:341-344 | A mark that neither a mark nor an operator follows is replaced by its number |
| RebindVerbatim.OperatorIsKept | apps/api/internal/app/database.go:336-340 | The mark of an operator is kept |
| RebindVerbatim.DoubledIsHalved | apps/api/internal/app/database.go:331-335 | Two marks become one |
| RebindVerbatim.OtherIsKept | apps/api/internal/app/database.go:293-347 | Any other character, and one that opens nothing, stands for itself |
| RebindVerbatim.QuotedIsKept | apps/api/internal/app/database.go:249-267 | A quoted text is kept, marks in it included, up to its own closing quote, and rewriting goes on behind it |
| RebindVerbatim.IdentifierIsKept | apps/api/internal/app/database.go:268-282 | The same of a quoted identifier with its quotes doubled |
| RebindVerbatim.LineCommentIsKept | apps/api/internal/app/database.go:283-292 | The same of a line comment up to the end of its line |
| RebindVerbatim.BlockCommentIsKept | apps/api/internal/app/database.go:295-313 | The same of a block comment up to its closing mark |
| RebindVerbatim.BodyIsKept | apps/api/internal/app/database.go:316-326 | The same of a dollar-quoted body up to the first repetition of its delimiter |
| RebindVerbatim.UnclosedIsKept | apps/api/internal/app/database.go:320-326 | A body that is not closed takes the rest |
| RebindVerbatim.DelimiterIs | apps/api/internal/app/database.go:353-368 | Two dollar signs with letters, digits or underscores between them open a body |
| RebindVerbatim.TagChars | apps/api/internal/app/database.go:361-364 | Those characters, told by their codes |
| RebindIdempotence.UnchangedIff | apps/api/internal/app/database.go:242-351 | Rewriting keeps a text exactly when none of its tokens is a placeholder or a doubled mark |
| RebindTwice.RebindTwiceIff | apps/api/internal/app/database.go:242-351 | For every query without a dollar sign inside a text, identifier, comment or body, told from its tokens: rewriting the rewritten query changes nothing exactly when each doubled mark that a pipe or ampersand token does not directly follow stands inside a body that dollar signs before it, written for placeholders or the query's own, open |
| RebindTwice.RebindTwiceUnopened | apps/api/internal/app/database.go:242-351 | For every query, its own dollar bodies and dollar signs inside texts and comments included, in which tag characters alone never lead from a placeholder or lone dollar sign to the next dollar sign: rewriting twice changes nothing exactly when a pipe or ampersand token directly follows every doubled mark |
| RebindTwice.LabelShows | apps/api/internal/app/database.go:353-368 | A dollar sign written, with or without a number, opens a dollar-quoted body exactly when nothing but letters, digits and underscores stands between it and the next one; they and the number are the body's tag |
| RebindTwice.BodyEndsThere | apps/api/internal/app/database.go:317-324 | Such a body ends at the dollar sign after the first later one with the same tag, or takes the rest |
| RebindTwice.RebindTwiceNoneBare | apps/api/internal/app/database.go:326-343 | Where dollar signs stand alone, a pipe or ampersand directly after every doubled mark is enough, whatever bodies open |
| RebindTwice.RebindTwice | apps/api/internal/app/database.go:242-351 | In particular for every query with neither a dollar sign nor two adjacent marks |
| RebindTwice.StableIff | apps/api/internal/app/database.go:317-343 | The induction behind it, over the tokens of the query: scanning finds them again up to where a dollar sign opens a body, and goes on where the tokens say that the body ends |
| RebindIdempotence.FirstAgrees | apps/api/internal/app/database.go:242-351 | A token depends on what follows it only through the next character |
| RebindTwice.DoubledMarkIsLost | apps/api/internal/app/database.go:331-335 | The query of two marks is not stable: the single mark written is a placeholder next time |
| RebindTwice.DoubledMarkStays | apps/api/internal/app/database.go:331-340 | Two marks before a pipe are stable |
| RebindTwice.HiddenMarkStays | apps/api/internal/app/database.go:317-343 | A query whose last two marks no operator follows, and that is stable all the same: its two numbers open a body that hides the mark |
| RebindTwice.DollarSignCanBreakIt | apps/api/internal/app/database.go:317-343 | With a dollar sign inside a text it can fail: a number completes a delimiter whose body ends inside that text |
| ImapAllocator.RunKeeps | apps/api/internal/app/imap_metadata.go:134-277 | After every run of whole inserts, moves, rewrites, reconciliations, flag changes, removals, folder creations and deletions and backfills, each draw being one step: UIDs in a folder are distinct, below uid_next and never given twice, mod-sequences at most the folder's highest, counters within 64 bits |
| ImapAllocator.RunAdvances | apps/api/internal/app/imap_metadata.go:181-236 | Between any two moments of such a run the two counters of a folder only grow |
| ImapAllocator.RunKeepsHistory | apps/api/internal/app/imap_metadata.go:181-206 | The history of UIDs handed out only grows |
| ImapAllocator.DrawnIsNew | apps/api/internal/app/imap_metadata.go:181-206 | A UID just drawn was never drawn before in its folder |
| ImapAllocator.FirstMessageGetsOne | apps/api/internal/app/app.go:440-441 | The first message of a new folder gets UID 1 and mod-sequence 2 |
| ImapAllocator.PlacedAtTheTop | apps/api/internal/app/imap_metadata.go:181-206 | At the largest mod-sequence a message arrives with mod-sequence 1 while the folder stays at the top |
| ImapAllocator.DrawNeedsRoom | apps/api/internal/app/imap_metadata.go:186-205 | Drawing keeps the invariant exactly as long as the UID counter does not overflow |
| ImapAllocator.BumpKeeps | apps/api/internal/app/imap_metadata.go:212-236 | A bump keeps the invariant, adds one below the top and stops short of the largest 64-bit value |
| ImapAllocator.InsertKeeps | apps/api/internal/app/mail_handlers.go:2489-2496 | A stored message takes a UID its folder never used, and every other message stays as it was |
| ImapAllocator.InsertOutcome | apps/api/internal/app/imap_metadata.go:181-206 | A stored message arrives anew in its folder, all other messages and folders untouched; without a folder it has no UID, with an unknown one it is refused |
| ImapAllocator.MoveMaildirKeeps | apps/api/internal/app/maildir_write.go:185-264 | Every path of a move keeps the invariant |
| ImapAllocator.RewriteKeeps | apps/api/internal/app/maildir_write.go:81-183 | So does every path of writing a message's file |
| ImapAllocator.ReconcileKeeps | apps/api/internal/app/maildir_sync.go:583-681 | So does meeting a message's file again during a scan |
| ImapAllocator.MoveMaildirIs | apps/api/internal/app/maildir_write.go:185-264 | What each path amounts to: a move with or without a bump of the source, a bump alone, or nothing |
| ImapAllocator.SourceSeesMoveIff | apps/api/internal/app/maildir_write.go:185-264 | The folder a message leaves shows the move exactly when there is no Maildir root, or the file is not in place, and its counter has room: never when the file is renamed, the folder being overwritten before it is compared |
| ImapAllocator.RenameIsSilent | apps/api/internal/app/maildir_write.go:210-257 | A rename that works moves the message and leaves its old folder's counters as they were |
| ImapAllocator.MovedIsNew | apps/api/internal/app/maildir_write.go:185-264 | A moved message arrives under a UID never issued in its new folder and with a mod-sequence above all that folder showed; the folder it leaves shows the move if it is bumped; all other messages and folders stay |
| ImapAllocator.MetElsewhere | apps/api/internal/app/maildir_sync.go:588-602 | A file met in another folder than its message's, or a row given a new path: the message ends in the file's folder under a UID never issued there and the top mod-sequence, the folder it left shows it, all others stay |
| ImapAllocator.MetInPlace | apps/api/internal/app/maildir_sync.go:603-612 | Met at its own place a message keeps its UID, and its mod-sequence tops the folder exactly when the flags differ; otherwise nothing changes |
| ImapAllocator.RewriteOutcome | apps/api/internal/app/maildir_write.go:89-181 | Writing a file that works: with a folder to move to, or without a UID, the message arrives there anew and the folder left shows it; otherwise it keeps place and UID and tops its folder |
| ImapAllocator.RewriteFails | apps/api/internal/app/maildir_write.go:82-150 | Where the file cannot be written no message changes, and only the folder it was to leave shows something, exactly when it was to leave one |
| ImapAllocator.TouchShows | apps/api/internal/app/imap_metadata.go:257-277 | A flag change keeps the message's place and UID and lifts its mod-sequence alone above all its folder showed |
| ImapAllocator.TouchKeepsIff | apps/api/internal/app/imap_metadata.go:257-277 | A flag change keeps the invariant exactly when the folder named is the message's own, or does not matter, or has counted no further than the message's own |
| ImapAllocator.RemoveKeeps | apps/api/internal/app/maildir_sync.go:748-762 | Removing a message keeps the invariant, spends no UID and shows in its folder |
| ImapAllocator.DeleteFolderKeeps | apps/api/internal/app/mail_handlers.go:340-381 | Deleting a folder moves every message to the inbox under new UIDs, leaves none behind, and bumps the inbox once more |
| ImapAllocator.DeleteFolderOutcome | apps/api/internal/app/mail_handlers.go:340-381 | Exactly the messages of the deleted folder go to the inbox, under new UIDs, and all others stay as they are |
| ImapAllocator.BackfillKeeps | apps/api/internal/app/imap_metadata.go:134-163 | The backfill gives every unnumbered message of the folder a UID |
| ImapAllocator.BackfillOutcome | apps/api/internal/app/imap_metadata.go:134-163 | Exactly the messages of the folder without a UID get one, all others stay as they are |
| ImapAllocator.LiftCovers | apps/api/internal/app/imap_metadata.go:164-170 | Whatever the counters were before, lifted they are above every UID and mod-sequence found in the folder |
| ImapAllocator.LiftIsIdle | apps/api/internal/app/imap_metadata.go:164-170 | The backfill's final lift changes nothing in a sound folder |
| ImapAllocator.LateWriteGoesBack | apps/api/internal/app/imap_metadata.go:181-206 | Outside a transaction the write takes uid_next back exactly when two others drew since the read; highest_modseq never goes back |
| ImapInterleaved.RunHandsOutOnceIff | apps/api/internal/app/imap_metadata.go:181-206 | In every run in which the read, the write and the use of a draw are separate steps, with other draws and whole operations in between: no UID of a folder is handed out twice exactly when no write comes after the counter has moved on; then all the rest holds too |
| ImapInterleaved.NextKeepsIff | apps/api/internal/app/imap_metadata.go:181-206 | A step of that machine keeps the invariant, and hands out no UID twice, exactly when it is not such a late write |
| ImapInterleaved.TwoReadersShareAUid | apps/api/internal/app/imap_metadata.go:186-205 | Two draws that read before either writes hand out the same UID |
| ImapInterleaved.DrawInARow | apps/api/internal/app/imap_metadata.go:181-206 | The three statements of a draw with nothing between them are the draw as one operation |
| ImapInterleaved.PutOutcome | apps/api/internal/app/imap_metadata.go:181-206 | Using a drawn UID stores the message unless the folder has gone or one of its messages has that UID by now |
| ImapModSeqs.RunGivesOnceIff | apps/api/internal/app/imap_metadata.go:212-236 | In every run in which reading highest_modseq, raising it and changing the message are separate steps of any number of workers: no mod-sequence is given twice exactly when each worker raises the counter while it still shows what it read, and a mere change finds it below the top |
| ImapModSeqs.TwoReadersShareAModSeq | apps/api/internal/app/imap_metadata.go:221-234 | Two changes, or two draws, that read before either raises get the same mod-sequence |
| ImapModSeqs.ChangeInARow | apps/api/internal/app/imap_metadata.go:212-277 | The statements of a change with nothing between them raise the counter by one and change the message under that value |
| ImapModSeqs.LookIsSafeIff | apps/api/internal/app/imap_metadata.go:238-255 | A client that remembers the highest mod-sequence misses no later change, in any continuation, exactly when at that moment no worker is between raising the counter and the write that changes its message (the last one, where the mod-sequence is written twice), none holds an outdated reading, and the counter is below the top |
| ImapModSeqs.MarkedIsBehind | apps/api/internal/app/mail_handlers.go:1974-1979 | Where the mod-sequence is put on the message ahead of the flag, that first write does not make a look safe |
| ImapInterleaved.OpSteady | apps/api/internal/app/imap_metadata.go:134-277 | Every UID a counter passes in a whole operation has been handed out, and messages only take UIDs never handed out before |
| ImapAllocator.MailStore.NextMetadata | apps/api/internal/app/imap_metadata.go:181-206 | Draws a UID and a mod-sequence as specified; refuses a missing folder |
| ImapAllocator.MailStore.BumpFolderModSeq | apps/api/internal/app/imap_metadata.go:212-236 | Bumps as specified; zero for a missing folder |
| ImapAllocator.MailStore.InsertMessage | apps/api/internal/app/mail_handlers.go:2489-2496 | Stores as specified |
| ImapAllocator.MailStore.MoveMessageMaildir | apps/api/internal/app/maildir_write.go:185-264 | The branches in the source's order: no root, no mailbox, file not in place, rename with the folder overwritten first |
| ImapAllocator.MailStore.WriteRawMessageToMaildirFolder | apps/api/internal/app/maildir_write.go:81-183 | The branches of writing a message's file, as specified |
| ImapAllocator.MailStore.SyncExistingMessageState | apps/api/internal/app/maildir_sync.go:583-681 | Same folder: only flags; another folder: bump, then a new UID there |
| ImapAllocator.MailStore.UpdateMessageModSeq | apps/api/internal/app/imap_metadata.go:257-277 | Changes the mod-sequence as specified |
| ImapAllocator.MailStore.DeleteMailFolder | apps/api/internal/app/mail_handlers.go:340-381 | The loop over the folder's messages, the deletion and the last bump, as specified |
| ImapAllocator.MailStore.BackfillFolderUids | apps/api/internal/app/imap_metadata.go:134-171 | Numbering loop, maxima and lift together amount to numbering the unnumbered messages |
| LoginRuns.AddressBound | apps/api/internal/app/login_rate_limit.go:77-150 | In every run of uninterleaved attempts by a clock that does not go back, an address records at most 38 failures in any half-open quarter hour |
| LoginLimiter.SpanHoldsAtMost | apps/api/internal/app/login_rate_limit.go:123-150 | For every limit from 2 on, any half-open span of 15 minutes holds at most twice the limit less two admitted failures |
| LoginLimiter.FailuresInAnySpan | apps/api/internal/app/login_rate_limit.go:123-150 | The same for the failures between two given ones |
| LoginLimiter.BoundIsMet | apps/api/internal/app/login_rate_limit.go:123-150 | The bound is met: for every limit there is an admitted sequence with exactly that many |
| LoginLimiter.RowShape | apps/api/internal/app/login_rate_limit.go:135-150 | The row counts the failures since its window began and is locked exactly from the limit on |
| LoginLimiter.LockHolds | apps/api/internal/app/login_rate_limit.go:77-95 | After a failure that reaches the limit, the next one admitted is a whole lock later |
| LoginRuns.CleanupChangesNoDecision | apps/api/internal/app/login_rate_limit.go:112-116 | Dropping rows a day old never changes whether an attempt is refused nor the waiting time it is told |
| LoginRuns.AddressRow | apps/api/internal/app/login_rate_limit.go:97-150 | An address's row is the one its own failures make, none of them recorded while it was locked |
| LoginRuns.RefusedIff | apps/api/internal/app/login_rate_limit.go:77-150 | In every such run an attempt is refused exactly when its account, if one is checked, has five failures since its window began, from whatever addresses, or its address has twenty, on whatever accounts, and the last of them is less than 900 seconds old |
| LoginRuns.FiveFailuresRefuse | apps/api/internal/app/login_rate_limit.go:34-50 | In particular five failures of an account within 900 seconds, since it last signed in, refuse it for 900 more from any address, and fewer never do on the account's own behalf |
| LoginRuns.AccountRow | apps/api/internal/app/login_rate_limit.go:97-160 | An account's row is the one its own failures since its last success make |
| LoginRuns.RecordedIsFresh | apps/api/internal/app/login_rate_limit.go:112-116 | After a failure the table holds only rows of the last day, and all of those |
| LoginRuns.LimitTable.CheckLoginRateLimit | apps/api/internal/app/login_rate_limit.go:77-95 | The longest remaining lock among the subjects |
| LoginRuns.LimitTable.RecordLoginFailure | apps/api/internal/app/login_rate_limit.go:97-121 | Counts against every subject, drops old rows, and looks again |
| LoginRuns.LimitTable.ClearLoginAccountFailures | apps/api/internal/app/login_rate_limit.go:152-160 | Drops the account's row only |
| CollectionSteps.RunStaysGoodIff | apps/api/internal/app/domain_collection.go:125-233 | With each handler's check and write as two steps under its lock, and sign-ins, transfers, additions and alias deletions outside it: throughout a run each target is an active mailbox of an active domain and an enabled owner without a forwarding alias, and the audit trail is linked and ends at the rule in force, exactly when no write disables a user to whom a target has passed since the check and no target is handed to a user disabled since signing in |
| CollectionSteps.NextKeepsIff | apps/api/internal/app/domain_collection.go:125-233 | The same for each step |
| CollectionSteps.TransferBetweenBreaks | apps/api/internal/app/admin_handlers.go:204-262 | The run that breaks it, from every good state with a target and another enabled user who owns none: sign in, check, accept (which takes no lock, router_auth.go:67), write |
| DomainCollection.WriteKeepsIff | apps/api/internal/app/admin_handlers.go:169-1081 | However much falls between check and write, the write of every handler keeps the invariant, except exactly when it disables a user to whom a target has passed since the check; deletions are caught by the database's references |
| CollectionSteps.HandledKeepsIff | apps/api/internal/app/admin_handlers.go:169-1081 | A handler leaves the invariant intact exactly when it did not come too late, and only updating a user can |
| DomainCollection.UserGuardIsExact | apps/api/internal/app/admin_handlers.go:204-213 | Disabling a user without the guard breaks the invariant exactly when the guard objects |
| DomainCollection.DomainGuardIsExact | apps/api/internal/app/admin_handlers.go:444-449 | The same for disabling a domain |
| DomainCollection.AliasGuardIsExact | apps/api/internal/app/domain_collection.go:221-233 | The same for storing an alias |
| DomainCollection.TransferKeepsIff | apps/api/internal/app/mailbox_push.go:127-139 | A transfer keeps the invariant exactly when it changes nothing, the new owner is enabled when it takes effect, or the mailbox is nobody's target |
| DomainCollection.RuleKeeps | apps/api/internal/app/domain_collection.go:125-202 | Setting a rule keeps the invariant, the source domain being active only when it is set |
| DomainCollection.RuleKeepsAudit | apps/api/internal/app/domain_collection.go:191-194 | After setting a rule the audit trail is still linked, each row changes something, and it ends at the rule in force |
| DomainCollection.RuleOutcome | apps/api/internal/app/domain_collection.go:125-202 | A rule can be set exactly when its domain is active and its target can collect; then it is in force, other rules are untouched, and the trail grows only if it changed |
| CollectionOutcomes.TargetsRefuseIff | apps/api/internal/app/admin_handlers.go:169-1081 | Each handler refuses for the sake of a collection exactly when it gets that far and its write, were there no rules, would remove a collecting mailbox, change it or keep it from collecting |
| CollectionOutcomes.LetThroughIff | apps/api/internal/app/admin_handlers.go:169-1081 | Each handler goes on to write exactly when what it names is there, its other checks pass and no collecting mailbox would be touched |
| CollectionOutcomes.WriteOutcome | apps/api/internal/app/admin_handlers.go:169-1081 | What is let through changes what was asked for, takes along what belongs to it (mailboxes of a user or domain, aliases and rule of a domain), and leaves all else as it was |
| CollectionOutcomes.TransferOutcome | apps/api/internal/app/mailbox_push.go:127-139 | An accepted transfer changes the owner alone, and only of an active mailbox that still belongs to who offered it |
| CollectionOutcomes.AdditionOutcome | apps/api/internal/app/admin_handlers.go:92-1081 | New users, domains and mailboxes start in service where their id is free and what they need is there; nothing else changes |
| CollectionSteps.LookThenPut | apps/api/internal/app/domain_collection.go:125-233 | A handler that nothing disturbs writes exactly what it checked |
| CollectionSteps.RuleTakesEffect | apps/api/internal/app/domain_collection.go:125-202 | A rule that can be set is in force at once, and off when switched off |
| CollectionSteps.OthersWait | apps/api/internal/app/domain_collection.go:125-233 | While a handler is between check and write no other one starts |
| CollectionSteps.AcceptingWereEnabled | apps/api/internal/app/router_auth.go:67 | Whoever may accept a mailbox was enabled when signing in |
| CollectionSteps.Directory.CollectionTargetInUse | apps/api/internal/app/domain_collection.go:205-219 | Says whether some rule's target belongs to the mailbox, user or domain |
| CollectionSteps.Directory.HandleUpdateUser | apps/api/internal/app/admin_handlers.go:169-234 | Checks in the source's order, then stores; the invariant holds afterwards exactly when it did not come too late |
| CollectionSteps.Directory.HandleDeleteUser | apps/api/internal/app/admin_handlers.go:348-384 | Refused while a target, else deleted with all mailboxes; keeps the invariant whatever falls in between |
| CollectionSteps.Directory.HandleUpdateDomain | apps/api/internal/app/open_api_handlers.go:86-121 | Refused when it would disable a target's domain; keeps the invariant |
| CollectionSteps.Directory.HandleDeleteDomain | apps/api/internal/app/open_api_handlers.go:123-150 | Refused while it holds targets or mailboxes; keeps the invariant |
| CollectionSteps.Directory.HandleUpdateMailbox | apps/api/internal/app/admin_handlers.go:600-674 | Refused when it would disable or hand over a target; keeps the invariant |
| CollectionSteps.Directory.HandleDeleteMailbox | apps/api/internal/app/open_api_handlers.go:342-390 | Refused while a target; keeps the invariant |
| CollectionSteps.Directory.HandleCreateAlias | apps/api/internal/app/admin_handlers.go:977-1019 | Refused when it would forward a target; keeps the invariant |
| CollectionSteps.Directory.HandleUpdateAlias | apps/api/internal/app/admin_handlers.go:1021-1066 | Refused when it would forward a target; keeps the invariant |
| CollectionSteps.Directory.HandleSetDomainCollection | apps/api/internal/app/domain_collection.go:125-202 | Checks, replaces the rule and audits the change as specified; keeps the invariant |
| CollectionSteps.Directory.ResolveMailboxPush | apps/api/internal/app/mailbox_push.go:127-139 | Changes the owner of an active mailbox still owned by the sender; keeps the invariant exactly when the receiver is enabled or the mailbox collects for nobody |
| LineWriter.WriteAll | apps/api/internal/app/mime.go:137-186 | However the text is cut into writes the output is the same; it fails exactly when the sink is too small, and then holds a beginning of that output |
| LineWriter.Base64LineWriter.Write | apps/api/internal/app/mime.go:155-178 | Continues the folded output, or leaves a beginning of it when the sink fails |
| LineWriter.Base64LineWriter.Close | apps/api/internal/app/mime.go:180-186 | Ends the last line |
| LineWriter.FoldedIsLines | apps/api/internal/app/mime.go:155-186 | The output is the lines, each ended by CRLF |
| LineWriter.LinesCover | apps/api/internal/app/mime.go:155-186 | Every line but the last has exactly 76 characters, and the lines joined are the input |
| LineWriter.FoldingIsUndone | apps/api/internal/app/mime.go:155-186 | Dropping the line breaks gives the input back |
| QuotaLattice.MergeIsLeastUpperBound | apps/api/internal/app/permissions.go:214-234 | With 0 as top, merging is the least upper bound of the order that granting tests |
| QuotaLattice.MinimalIsLeast | apps/api/internal/app/permissions.go:236-254 | The fold may start from the minimal limits |
| QuotaLattice.OrderIsPartial | apps/api/internal/app/permissions.go:256-280 | That order is reflexive, antisymmetric and transitive |
| QuotaLattice.MergeAllByMembers | apps/api/internal/app/permissions.go:998-1021 | The merged limits do not depend on order or repetition of the groups |
| QuotaLattice.GrantMergedIffEach | apps/api/internal/app/permissions.go:256-280 | An actor may grant merged limits exactly when it may grant each set on its own |
| QuotaLattice.QueryAgreesWithList | apps/api/internal/app/permissions.go:695-748 | The query-based limits of a user equal those computed from the list of the user's groups, in any order of rows |
| QuotaLattice.AuthorizationLimits | apps/api/internal/app/permissions.go:708-748 | The loop over rows: merged groups, the regular group's limits, or the defaults |
| QuotaLattice.LimitsForGroupIds | apps/api/internal/app/permissions.go:998-1021 | Cleans the list; then either all groups exist and are assignable and their limits are merged, or the first at fault is named and what is wrong with it |
| QuotaLattice.ListedAreUsable | apps/api/internal/app/permissions.go:531-533 | In terms of the list as sent: limits come back exactly when every id on it that is not blank names an existing group, and neither the super administrators' nor the regular one; otherwise the answer names one at fault and why |
| QuotaLattice.SuperAdminRowIsIgnored | apps/api/internal/app/permissions.go:708-748 | A row of the super administrators' group adds nothing to the limits of a user |
| QuotaLattice.EffectiveLimitsForUserGroups | apps/api/internal/app/permissions.go:850-863 | Merged limits of the cleaned list; the regular group's or default limits for an empty one |
| QuotaLattice.CleanIdList | apps/api/internal/app/settings_handlers.go:546-558 | Trims, drops blanks and repetitions, keeping order |
| QuotaLattice.CleanedOnce | apps/api/internal/app/settings_handlers.go:546-558 | The cleaned list has no blanks, no repetitions and only trimmed items |
| QuotaLattice.CleanedTwice | apps/api/internal/app/settings_handlers.go:546-558 | Cleaning a cleaned list changes nothing |
| QuotaLattice.CleanedMember | apps/api/internal/app/settings_handlers.go:546-558 | The cleaned list has exactly the trimmed items that are not blank |
| Threading.SameThread | apps/api/internal/app/threading.go:40-60 | If every message of a conversation names the root first, or is the root, and none names an outside message, all get the root's id as thread, in any order of arrival and whatever was deleted in between |
| Threading.DifferentThreads | apps/api/internal/app/threading.go:40-60 | Conversations with different roots stay apart |
| Threading.NormalizeTwice | apps/api/internal/app/threading.go:11-22 | Normalising an id twice changes nothing |
| Threading.NormalizedIsPlain | apps/api/internal/app/threading.go:11-22 | A normalised id is empty or plain: lower case, with @, without space, brackets, commas |
| Threading.BracketsGo | apps/api/internal/app/threading.go:11-22 | An id with an at sign and no white space, bracket or comma reads as its lower-case form, with or without brackets around it |
| Threading.RefusedIds | apps/api/internal/app/threading.go:11-22 | A line break or comma anywhere, or no at sign, and it is no id |
| Threading.HeaderNamesIds | apps/api/internal/app/threading.go:24-34 | A header written from ids in brackets, with commas, semicolons or nothing before the spaces between them, names exactly those ids: in order, in lower case and each once |
| Threading.IdsAreValidAndDistinct | apps/api/internal/app/threading.go:24-34 | The ids of a header are valid, normalised and each there once |
| Threading.MessageIdList | apps/api/internal/app/threading.go:24-34 | The loop with its seen map computes that list |
| Threading.ResolveThreadId | apps/api/internal/app/threading.go:40-60 | The first known thread among the ids, else the first id, else the message's own id |
| Threading.BlankIff | apps/api/internal/app/threading.go:51 | A stored thread counts as none exactly when it is nothing but white space |
| MessagePaging.ListMessages | apps/api/internal/app/mail_handlers.go:588-624 | One page holds everything between the cursor and the next cursor, newest first; a next cursor is given exactly when something is left |
| MessagePaging.BelowIsTotal | apps/api/internal/app/mail_handlers.go:588-624 | The order of the listing is total: by time of arrival, then by id, so no message shares its place with another |
| MessagePaging.ListingDescends | apps/api/internal/app/mail_handlers.go:588-624 | Following cursors lists nothing twice, in descending (received_at, id) order, even if messages come and go between pages |
| MessagePaging.ListingIsComplete | apps/api/internal/app/mail_handlers.go:588-624 | Every message that exists throughout is listed |
| MessagePaging.WholeListing | apps/api/internal/app/mail_handlers.go:588-624 | Over a table at rest the pages list exactly its messages, in as few pages as fit |
| MaildirFlags.RoundTripIff | apps/api/internal/app/maildir_write.go:603-629 | Flags written into a name read back exactly when a flag is set, or the name has other flags, or its bare stem reads as new |
| MaildirFlags.UnreadOutsideInboxComesBackRead | apps/api/internal/app/maildir_sync.go:767-782 | So a message marked unread outside the inbox, without other flags, comes back read |
| MaildirFlags.WrittenIsRead | apps/api/internal/app/maildir_write.go:603-629 | Whenever any flag is written, the flags read back are those written, even if the other flags hold a separator |
| MaildirFlags.PreservedMembers | apps/api/internal/app/maildir_write.go:631-640 | Every other flag is kept; S and F are dropped |
| MaildirFlags.PreservedStays | apps/api/internal/app/maildir_write.go:631-640 | Other flags that are there once each are kept in their order |
| MaildirFlags.FlaggedName | apps/api/internal/app/maildir_write.go:612-628 | A name with ordinary flags keeps its stem and its other flags, and the read and starred flags come last |
| MaildirFlags.BareName | apps/api/internal/app/maildir_write.go:612-628 | A name without a separator gets one with the first flag and not before |
| MaildirFlags.LastWriteCounts | apps/api/internal/app/maildir_write.go:603-629 | Writing flags over flags is writing the last ones |
| MaildirFlags.PathAfter | apps/api/internal/app/maildir_write.go:603-611 | What is read or starred, and nothing else, is in cur afterwards; what leaves cur goes to new; all else of the path stays |
| MaildirFlags.ReadNames | apps/api/internal/app/maildir_sync.go:767-784 | What an ordinary name says: the flags behind its separator, the one written here or the one written on Windows, or else read exactly outside the inbox |
| MaildirFlags.PreserveMaildirFlags | apps/api/internal/app/maildir_write.go:631-640 | The loop computes that |

## Left out

- AliasSearch.UnknownAreComplete: asks that the recipients' normal forms are stable; UnknownAreKept covers all recipients and NormalizeStableIff says which are stable.
- AliasSearch.TargetsAreComplete: no path of 22 distinct addresses may start at a recipient, because the depth limit makes it false of such paths (LongChainLosesItsMailbox); a longer path can be harmless when shorter ones lead to the same addresses first.
- MailboxQuota.LimitsHoldInEveryRun: limits fixed for the user, and the owned-mailbox half without transfers to the user, because transfers are not counted; `mailbox_creation_events` pruning after 30 days (session.go:125-128) is not modelled, being far behind the window.
- SmtpRate.RefusedIff: for a send that no earlier reading is ahead of, because the log counts later readings too; the limits themselves hold without that.
- MailboxQuota.AnswerIff: with no later creations on record, for the same reason.
- RecipientDirectory.MailboxIsServed: the mailbox's domain has no at sign and ends in neither a dot nor a space, as the server stores domains; NormalizeStableIff covers the rest.
- MailboxQuota.RunIsSerial: every transfer leaves room (RunKeepsIff says what that decides); after one that does not, a creation may commit that the serial run would refuse.
- SmtpRate.LogIsPrunedHistory: no cleanup ahead of a later send; LogCounts says what holds in every run.
- MaildirSyncer.Syncer.SyncOnce: what a scan does with a known file's flags is not part of it (ImapAllocator has it), nor are rows without a path, with one outside the Maildir or whose folder is not that of their file's directory, and the backfill of stored messages to the Maildir.
- ExternalSync.FolderSync.SyncFolder: the move of messages to a renamed local folder, Maildir writing and inbound controls after an import are not modelled; a change of UIDVALIDITY, which the source does not react to, is excluded.
- ImapAllocator.RunKeeps: each operation is one step; ImapInterleaved splits the draws and ImapModSeqs all that raises the mod-sequence. Runs stop before the UID counter reaches the 64-bit bound (DrawNeedsRoom).
- ImapAllocator.RunAdvances: the same; outside transactions the UID counter can go back (LateWriteGoesBack).
- ImapModSeqs.LookIsSafeIff: one folder, which is there throughout; a removal, whose row goes before the counter is raised, appears only as a raise without a change.
- LoginRuns.AddressBound: attempts are not interleaved, because check and record are separate statements; the account scope has no such bound, being cleared by every success.
- DomainCollection.WriteKeepsIff: addresses are taken in normal form, and handlers are apart from one another under their lock, which a single process holds.
- RebindTwice.RebindTwiceIff: where a dollar sign stands inside a text, identifier, comment or body and a sign opens another body, the exact condition is open in terms of the query's tokens, because that body can end inside a token (DollarSignCanBreakIt); RebindTwiceUnopened covers those in which no sign opens one, and UnchangedIff all texts, in terms of what was written.
- MaildirFlags.FlaggedName: flags without a colon; with one a separator can form inside them, and WrittenIsRead still says how they are read back.
- UidPaging.BoundedSearchUids: ranges as a server sends them, each in order, all disjoint and increasing.
- Threading.ResolveThreadId: the mailbox is given as its rows; a blank mailbox id, for which the source answers nothing, is not represented.
- Message list cursors as text (base64 of JSON) and the older numeric offsets: library encodings, and an offset has no such guarantee.
- The worker loops that pick due jobs and the tickers that start them: any choice of jobs is covered by the step machines.
- HTTP decoding, sessions, JSON, routing and the web interface: plumbing.
- SMTP, IMAP, TLS, DNS and OAuth conversations: success or failure of a call is a parameter.
- Hashing, encryption, MIME parsing and charsets: library behaviour.
- Schema migrations and SQL dialects: only the tables' meaning and the row lock are modelled.
- The send queue, webhooks, rules, shares and templates: they would add easier members.
