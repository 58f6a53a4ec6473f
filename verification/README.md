# Castlet: verified models of its concurrency protocols and encoders

Castlet hosts podcasts from one SQLite database and a content-addressed blob store. This
project models the parts of it where a mistake would be hard to see in a test, and proves
what they are for:

- **Blob lifecycle** (`UnixTime`, `BlobTables`, `BlobStore`, `BlobProtocol`, `BlobSafety`,
  `BlobTightness`, `BlobHandlers`): uploads, episode deletes and failed-create rollbacks on
  shared keys. No interleaving loses the bytes of a committed episode, and the timing bounds
  under which that holds are exact.
- **Transcription queue** (`JobTables`, `JobStore`, `JobProtocol`, `JobSafety`, `JobHistory`,
  `JobStranding`, `JobWorkers`, `Backoff`): a leased, fenced job queue coupled to the episodes'
  transcript status, for any number of workers however late or lost.
- **Accounts and sessions** (`Accounts`, `AccountStore`, `OidcProtocol`, `OidcSafety`,
  `OidcCallbacks`, `Base64`, `Decimal`, `Session`, `Revocation`): racing sign-in callbacks,
  the signed cookie, and logging out everywhere.
- **Orders and encodings** (`EpisodeOrder`, `EpisodeTable`, `Collections`, `Sorting`, `Percent`,
  `CanonicalQuery`, `Labels`): manual episode order, the SigV4 canonical query and the metrics
  label renderer, the last two with decoders that invert them.
- **Bounded state** (`LoginLimiter`, `LoginLimiterObject`, `LoginThrottle`, `Staging`,
  `CappedBuffer`): the evicting login limiter, the multipart staging loop, the capped buffer.

How it is laid out. A store transaction is one atomic step: SQLite runs with a single writer.
Each transaction is a function on table values, and a class performs it in place and is proved
equal to that function. A protocol is a relation `Step` over whole states; a `Run` is a
sequence of steps, any handler or worker may move next, and any may stop for good at any
point. The handlers and the worker are written once more as the code runs them from top to
bottom (`BlobHandlers`, `JobWorkers`, `OidcCallbacks`), each call proved to be one step of the
protocol. `dafny verify dfyconfig.toml` checks everything.

What the blob protocol assumes of its environment, each a visible guard in `BlobProtocol`:
the clock never goes back and a stamp is read before its transaction commits; reserving and
CreateEpisode commit within the protect deadline or not at all; a physical delete begins
within `handoff` of its stamp, and takes effect within its timeout and before the call
returns, or never; a key determines its bytes.

What came out differently from the repository's comments:

- `store/store.go` says that BlobDeleteTimeout < BlobDeleteLeaseTTL and
  UploadProtectWindow < BlobReservationTTL suffice. Stamps are cut to whole seconds, so each
  side needs one second more, and a delete counts from its stamp rather than from the start
  of the physical delete. `BlobSafetyExactlyWhenSound` is an if-and-only-if, and the shipped
  constants leave 269 seconds of room.
- The lease of a delete is released when the call to the blob store returns, also when it
  returns on its timeout. A request that still takes effect after that can take the bytes of
  an upload that reserved in between, whatever the timing (`EffectAfterReturnLosesBytes`);
  safety rests on the blob store to have given up by then.
- Failing a job and marking its episode failed are two transactions. A worker lost between
  them leaves the episode pending or processing, and every later request to transcribe it is
  a conflict (`StrandedIsStuck`, `StrandingHappens`). Nothing else can get an episode stuck:
  it can be brought out of work if and only if no mark was lost that way
  (`CanSettleExactlyWhenNoMarkLost`). The coupling is therefore stated with failed jobs whose
  mark is unwritten.
- A cookie is refused from the whole second its deadline falls in, up to a second early
  (`OnTimeExactlyWhenWholeSecond`).
- Nothing on the sign-in path rejects an empty subject; with one, the account still looks
  unlinked. If the provider later sends a subject for the same verified address, the account
  is bound to that, and the earlier session's identity is no longer the account's
  (`BindsExactlyWhenSubject`).
- `renderLabels` promises one series per label set; with two values for one key the order of
  the arguments shows (`OneSeriesExactlyWhenOneValuePerKey`).

## Model

| member | source | states |
|---|---|---|
| UnixTime.StaleMeansOld | store/sqlite/sqlite_crud.go:442-454 | a row falls under a truncated staleness cutoff only when more than its lifetime less one second has passed since its stamp |
| UnixTime.CeilDeadlineNotEarly | store/sqlite/sqlite.go:202-213 | a deadline stored rounded up never looks due before its true instant |
| UnixTime.FloorDeadlineAlmostOnTime | store/sqlite/sqlite.go:200 | a deadline stored rounded down looks due less than one second early |
| BlobTables.CountBlobRefs | store/sqlite/sqlite_crud.go:466-474 | the count is zero exactly when no episode, no non-empty cover key and no fresh reservation uses the key |
| BlobTables.OrphanIsLeased | store/sqlite/sqlite_crud.go:442-510 | in plain terms: the delete lease is handed out exactly when the key is not empty and no episode, cover, reservation within its lifetime or lease within its lifetime has it |
| BlobStorage.BlobStore.ReserveBlob | store/sqlite/sqlite_crud.go:516-547 | refused exactly under an active delete lease, writing nothing; otherwise adds one row under a new token |
| BlobStorage.BlobStore.ReleaseBlob | store/sqlite/sqlite_crud.go:552-558 | removes exactly the row of the token, if any |
| BlobStorage.BlobStore.CountActiveLeases | store/sqlite/sqlite_crud.go:484-489 | positive exactly when a lease of the key is newer than the cutoff |
| BlobStorage.BlobStore.AcquireDeleteLease | store/sqlite/sqlite_crud.go:483-510 | single winner: nothing under an active lease, else stale rows of the key are replaced by one new row |
| BlobStorage.BlobStore.ReleaseDeleteLease | store/sqlite/sqlite_crud.go:564-570 | removes exactly the lease of the token, if any |
| BlobStorage.BlobStore.BlobOrphaned | store/sqlite/sqlite_crud.go:580-608 | takes the delete lease exactly when nothing references a non-empty key and nobody holds it |
| BlobStorage.BlobStore.DeleteEpisode | store/sqlite/sqlite_crud.go:387-435 | not found changes nothing; else drops the row and decides the orphan with the row already gone |
| BlobSafety.LiveReservationCounts | store/sqlite/sqlite_crud.go:442-444 | while an upload may still commit, every orphan check counts its reservation |
| BlobSafety.LiveLeaseBlocks | store/sqlite/sqlite_crud.go:452-454 | while a delete may still take effect, its lease turns away every reserve and every other delete of the key |
| BlobSafety.StepKeepsInv | server/handlers_admin.go:505-849 | every step of every handler keeps the protocol invariant |
| BlobSafety.BlobsNeverLost | server/handlers_admin.go:512-585 | in every state of every run each committed episode with media has its bytes |
| BlobSafety.UploadDeleteExclusion | store/sqlite/sqlite_crud.go:374-386 | an upload between reservation and episode never shares its key with a delete in flight |
| BlobSafety.SingleDeleteOwner | store/sqlite/sqlite_crud.go:476-510 | in every reachable state a key has at most one lease row, whatever the timing, and under sound bounds at most one live physical delete |
| BlobSafety.ReleaseDropsOwnRowOnly | store/sqlite/schema.sql:61-96 | under any timing a release never removes the row another handler still claims, stale leases replaced or not |
| BlobTightness.LateDeleteLosesBytes | store/store.go:59-90 | without the full second of slack on the lease side a run loses a committed episode's bytes |
| BlobTightness.LateCreateLosesBytes | store/store.go:60-90 | without the full second of slack on the reservation side a run loses a committed episode's bytes |
| BlobTightness.EffectAfterReturnLosesBytes | server/handlers_admin.go:835-849 | under every timing, a delete that takes effect after its call returned, though within its timeout, can take the bytes of an upload that got in between |
| BlobTightness.BlobSafetyExactlyWhenSound | store/store.go:55-90 | no run loses bytes if and only if both bounds leave a full second, the delete counted from its stamp |
| BlobTightness.ShippedConstantsAreSafe | store/store.go:68-90 | the shipped constants are safe exactly while a delete begins within 269 seconds of its stamp |
| BlobHandlers.Site.DeleteLeasedBlob | server/handlers_admin.go:835-849 | from its lease to its release it follows the protocol; the lease goes whatever the delete does, and a delete past its timeout does nothing |
| BlobHandlers.Site.EpisodeDelete | server/handlers_admin.go:794-818 | an unknown id changes nothing; else the row is gone, its bytes go exactly when nothing else uses them and the delete works in time, no lease is left over, and no other episode loses bytes |
| BlobHandlers.Site.ReserveMediaKey | server/handlers_admin.go:857-877 | reserves exactly when one of the attempts 20 ms apart for half a second finds no lease, at once when the first does; otherwise no change |
| BlobHandlers.Site.DeleteOrphanBlob | server/handlers_admin.go:897-909 | the rollback deletes the bytes exactly when nothing uses them and the delete works in time, and leaves no lease |
| BlobHandlers.Site.EpisodeCreate | server/handlers_admin.go:512-585 | unavailable exactly when no reserve gets through; otherwise created exactly when the bytes are stored and the row commits within the window, rows and bytes being stated for every outcome; the own reservation is gone at the end, and nobody loses bytes |
| JobStorage.JobStore.EnqueueTranscriptionJob | store/sqlite/sqlite_jobs.go:52-97 | job and pending mark together or neither: not found, conflict for pending, processing or a taken id |
| JobStorage.JobStore.ClaimJob | store/sqlite/sqlite_jobs.go:130-196 | none exactly when nothing is due; else the first due job by run_after and created_at goes to processing under the next token until the first whole second at or after the end of the lease, and nothing else changes |
| JobStorage.JobStore.SetJobStatus | store/sqlite/sqlite_jobs.go:219-243 | stale unless the token is current and the job is processing; else moves that one row |
| JobStorage.JobStore.SettleEpisodeTranscript | store/sqlite/sqlite_crud.go:755-796 | fenced, with failed jobs admitted for the transcript-less failed mark only; sets the status, stores a transcript it brings and leaves the stored one alone otherwise |
| JobStorage.JobStore.SettleAndCompleteJob | store/sqlite/sqlite_crud.go:812-849 | completes the job, clears its error, sets the status and stores a transcript it brings as one, or nothing |
| JobStorage.JobStore.CountPendingJobs | store/sqlite/sqlite_jobs.go:252-261 | the number of due jobs |
| JobStorage.HandOutNext | store/sqlite/sqlite_jobs.go:150-171 | claiming the oldest due job extends a drain in queue order and never makes a claimed job due again |
| JobStorage.Drain | store/sqlite/sqlite_jobs.go:109-261 | claiming until none is left at one instant yields exactly the counted backlog, each job once, in queue order |
| JobSafety.StepKeepsInv | worker/worker.go:251-481 | every step of every worker keeps the invariant, reclaims and lost workers included |
| JobSafety.JobEpisodeCoupling | store/sqlite/sqlite_jobs.go:40-51 | in every reachable state an episode is pending or processing exactly when one job owes it an outcome, and never two |
| JobHistory.StaleAttemptChangesNothing | store/sqlite/sqlite_crud.go:743-754 | an attempt whose claim is gone changes no table, whatever it tries |
| JobHistory.TerminalIsFinal | store/sqlite/sqlite_jobs.go:210-218 | over any run attempts never decrease and a done or failed row never changes |
| JobHistory.SettledAtMostOnce | store/sqlite/sqlite_jobs.go:210-243 | of all settlements one claim of one job attempts, at most one takes effect |
| JobHistory.SettledEpisodeFrozen | store/sqlite/sqlite_crud.go:740-754 | once none, done or failed, status and transcript stay until a new enqueue or the episode's deletion |
| JobHistory.TranscriptKept | store/sqlite/sqlite_crud.go:783-790 | over every run a transcript changes only by a result delivered under a current claim or by deleting the episode |
| JobHistory.NewEpisodeIsBlank | server/handlers_admin.go:566 | until it is first enqueued a new episode has neither transcript status nor transcript |
| JobHistory.DroppedIsGone | store/sqlite/schema.sql:55 | whoever still works on it, a deleted episode and its transcript never come back |
| JobHistory.CommittedResultStays | store/sqlite/sqlite_crud.go:798-849 | after a committed result the job stays done and the episode stays done with that very transcript |
| JobStranding.StrandedExactlyWhenMarkLost | worker/worker.go:340-358 | over every run, a failed job is left with no one to mark its episode exactly when the worker that failed it was lost before the mark and the episode has not been deleted since |
| JobStranding.StrandedIsStuck | store/sqlite/sqlite_jobs.go:59-87 | from then on the episode, while it exists, stays pending or processing and every enqueue for it is a conflict |
| JobStranding.StrandingHappens | worker/worker.go:344-356 | under every attempt limit a run on a forward clock, each retry put off by the default backoff, ends with a stranded episode |
| JobStranding.CanSettleExactlyWhenNotStranded | worker/worker.go:251-358 | in every reachable state and however late, an episode can still be brought out of work, with no claim before that instant, if and only if no job strands it |
| JobStranding.UnstrandedSettlesAt | store/sqlite/sqlite_jobs.go:122-181 | at every instant from the run_after of the job that owes it on, an episode that is not stranded can be settled with claims at that instant alone |
| JobStranding.CanSettleExactlyWhenNoMarkLost | worker/worker.go:340-358 | in every reachable state and however late, that is so if and only if no worker was lost between failing the episode's job and marking it |
| JobHistory.HandedOutAtMostMaxAttempts | queue/dbqueue/dbqueue.go:141-165 | the token counts the claims, and a job is handed out to run exactly as often, capped by the limit |
| JobHistory.AttemptsBounded | store/sqlite/sqlite_jobs.go:163-181 | a job that is never claimed again once past the limit never gets beyond one past it |
| JobHistory.DeadLettersMakePoisonLast | queue/dbqueue/dbqueue.go:149-163 | a committed dead letter makes the claim past the limit the job's last |
| JobHistory.EveryJobSettles | queue/dbqueue/dbqueue.go:149-163 | if a claim past the limit is dead-lettered before the job is claimed again, every job is claimed at most limit + 1 times and its row changes at most 3 * limit + 4 times, each change lowering a measure |
| JobHistory.ClaimsALeaseApart | store/sqlite/sqlite_jobs.go:163-181 | claims of one job with no reschedule between are a full lease apart, below the second too |
| JobHistory.DueExactlyAfterLease | store/sqlite/sqlite_jobs.go:163-181 | a claimed job that nobody touches again is due exactly from the first whole second at or after the end of its lease |
| JobHistory.DueExactlyAtRetry | queue/dbqueue/dbqueue.go:199-206 | a rescheduled job that nobody touches is due exactly when its retry second has come |
| JobHistory.RetryAlmostOnTime | queue/dbqueue/dbqueue.go:199-206 | the first claim after a reschedule is less than one second early |
| Backoff.BackoffIsCappedDoubling | queue/dbqueue/dbqueue.go:84-102 | for every attempt count two to its power minutes capped at one hour, monotone, at least a minute, no overflow |
| JobWorkers.Worker.Dequeue | queue/dbqueue/dbqueue.go:141-165 | nothing exactly when nothing is due; a claim past the limit comes back dead-lettered |
| JobWorkers.Worker.Ack | queue/dbqueue/dbqueue.go:167-178 | a current claim ends done and changes nothing else, a lost one is no error and changes nothing |
| JobWorkers.Worker.Nack | queue/dbqueue/dbqueue.go:180-207 | dead exactly at the limit under a current claim, else pending again after the backoff |
| JobWorkers.Worker.Fail | worker/worker.go:340-358 | at the limit job and episode both end failed, below it only the job goes back |
| JobWorkers.Worker.Transcribe | worker/worker.go:405-466 | nothing to settle exactly for a missing episode; else marked processing and the transcriber's answer passed on |
| JobWorkers.Worker.SettleAndComplete | worker/worker.go:377-391 | under a current claim the result is committed whole; not committed means nothing written |
| JobWorkers.Worker.ProcessOne | worker/worker.go:251-322 | one job undisturbed, the first due: exactly the outcome the answer, the episode and the attempt limit call for, all other jobs, episodes and transcripts as they were, the coupling kept |
| Accounts.CreateEvolves | store/sqlite/sqlite.go:139-155 | a successful insert keeps all unique indexes and leaves every account as it was or later |
| Accounts.LinkEvolves | store/sqlite/sqlite_crud.go:79-105 | a successful link keeps the indexes and never changes a non-empty identity |
| Accounts.BumpEvolves | store/sqlite/sqlite_crud.go:49-58 | a bump strictly raises one epoch and touches nothing else that is kept |
| Accounts.SameMailboxMeaning | store/sqlite/schema.sql:20 | two addresses are one mailbox exactly when they agree letter for letter but for the case of ASCII letters |
| Accounts.SignUpRefusedOnlyOverMailbox | store/sqlite/sqlite.go:141-155 | an account without an identity is refused only over its id or its mailbox |
| AccountStorage.AccountStore.CreateUser | store/sqlite/sqlite_crud.go:19-31 | conflict exactly for a taken id, mailbox or identity, then nothing written; new epoch zero |
| AccountStorage.AccountStore.UserByOIDCSubject | store/sqlite/sqlite_crud.go:72-77 | finds the account of a non-empty identity, not found exactly when there is none |
| AccountStorage.AccountStore.UserByEmail | store/sqlite/sqlite_crud.go:64-70 | finds by mailbox ignoring case, not found exactly when there is none |
| AccountStorage.AccountStore.LinkOIDCIdentity | store/sqlite/sqlite_crud.go:87-105 | writes only an unlinked or identically linked account, conflict otherwise |
| AccountStorage.AccountStore.BumpSessionEpoch | store/sqlite/sqlite_crud.go:51-58 | raises the epoch by one, not found for an unknown id |
| OidcProtocol.EmailDomainAllowedMeaning | server/handlers_oidc.go:208-219 | allowed exactly when there is no list or the part after the last at sign is on it |
| OidcProtocol.GateMeaning | server/handlers_oidc.go:114-127 | with an allowlist exactly the verified, usable addresses of a listed domain pass |
| OidcSafety.StepKeepsInv | server/handlers_oidc.go:98-206 | every step of every racing callback keeps the invariant and lets accounts only evolve |
| OidcSafety.LinksAreForever | store/sqlite/sqlite.go:141-144 | over every run a non-empty identity stays with its account and with no other |
| OidcSafety.SessionsMatchIdentity | server/handlers_oidc.go:84-92 | every session belongs, then and ever after, to the one account linked to the presented identity, past the allowlist |
| OidcSafety.SessionsAreAllowed | server/handlers_oidc.go:114-127 | with an allowlist every session ever issued is for a verified address of a listed domain |
| OidcSafety.SameIdentityLinksTwice | store/sqlite/sqlite_crud.go:79-105 | two callbacks of one identity racing for one unlinked account both end up linked to it |
| OidcSafety.LinkingNeedsVerifiedMailbox | server/handlers_oidc.go:141-193 | an account gets an identity only from a callback presenting it with a verified address of that mailbox |
| OidcSafety.EmptySubjectIsRebound | server/handlers_oidc.go:157-168 | an account signed in with an empty subject goes to whichever identity with the same verified address comes next, of the same issuer or another |
| OidcSafety.BindsExactlyWhenSubject | server/handlers_oidc.go:95-206 | sessions stay bound to the presented identity if and only if its subject is not empty |
| OidcCallbacks.Callbacks.ResolveOIDCUser | server/handlers_oidc.go:98-206 | undisturbed, succeeds exactly for those who may sign in, resolves to the linked, the mailbox's or a new account, of which only issuer and subject change or all fields are given, and a refusal writes nothing |
| Base64Url.RoundTrip | internal/session/session.go:115-118 | decoding an encoding gives the bytes back |
| Base64Url.GroupSpelling | internal/session/session.go:115-118 | three bytes are four digits of one 24-bit number in base 64 |
| Base64Url.EndSpelling | internal/session/session.go:115-118 | one or two last bytes are filled up with zero bits, without padding |
| Decimal.RoundTrip | internal/session/session.go:115-116 | parsing a formatted 64-bit integer gives it back |
| Decimal.Notation | internal/session/session.go:115-116 | decimal digits, the last one counting ones, a minus sign in front |
| Session.PayloadInjective | internal/session/session.go:112-116 | equal signed parts mean equal user, epoch and expiry |
| Session.VerifySigned | internal/session/session.go:114-158 | a signed cookie verifies to what was signed until its deadline's whole second, and to nothing from then on |
| Session.OnTimeExactlyWhenWholeSecond | internal/session/session.go:142-144 | a cookie is valid precisely until its deadline if and only if the deadline is a whole second |
| Session.Layout | internal/session/session.go:112-119 | user id, expiry second, epoch and the tag of these three, each in base64url, between dots |
| Session.VerifyMeaning | internal/session/session.go:121-158 | accepted exactly when there are four parts, the last is the tag of the first three, the expiry is still to come, and the rest reads as this user and epoch |
| Session.SignedIsAuthentic | internal/session/session.go:114-133 | what was signed passes the MAC check with exactly its payload, so the unforgeability hypothesis is met |
| Session.AcceptedWasSigned | internal/session/session.go:121-158 | under an unforgeable MAC whatever is accepted says exactly what one signed cookie says and is unexpired |
| Revocation.LogoutRevokesForever | server/handlers_auth.go:161-215 | after a logout any accepted cookie of the user carries an epoch read after it |
| Revocation.IssuedIsAccepted | server/middleware.go:19-30 | an issued cookie is accepted until it expires or its user logs out after the epoch was read |
| Revocation.AcceptedUntilLogout | server/middleware.go:19-30 | without a logout a cookie that verifies stays accepted |
| EpisodeOrder.ReorderGivesTheList | store/sqlite/sqlite_crud.go:317-372 | after a renumbering the channel lists exactly the given ids at positions 0 to n - 1 |
| EpisodeOrder.OtherChannelsUntouched | store/sqlite/sqlite_crud.go:360-367 | the possible listings of every other channel are what they were |
| EpisodeOrder.DownThenUpRestores | server/handlers_admin.go:664-713 | moving an episode down and then up brings back the listed order |
| EpisodeTables.EpisodeTable.ReorderEpisodes | store/sqlite/sqlite_crud.go:327-372 | accepted exactly for a list of all the channel's ids, each once; then index is position, only rows that move are stamped, and no other field or row changes; a refusal changes nothing |
| EpisodeTables.EpisodeTable.IsExactPermutation | store/sqlite/sqlite_crud.go:341-356 | the length, membership and duplicate checks together decide exactly the permutations |
| EpisodeTables.EpisodeTable.ListEpisodes | store/sqlite/sqlite_crud.go:640-679 | exactly the wanted episodes once, in the query's order, cut to the limit so that nothing left out belongs before what is returned |
| EpisodeOrder.ChannelSelectionIsListing | store/sqlite/sqlite_crud.go:646-663 | for one channel without further filters that is every episode of the channel |
| EpisodeTables.EpisodeTable.MoveEpisode | server/handlers_admin.go:664-713 | down changes places with the next row of the list, up with the one before, every other row keeps its index; nothing at an edge or for an unknown id |
| Sorting.SortedUnique | blob/s3/s3.go:388-393 | an order that separates the elements leaves sorting only one result |
| ByteStrings.LeqIsLexicographic | blob/s3/s3.go:388-393 | the comparison is the lexicographic order of bytes |
| CanonicalQueries.CanonicalIsUnique | blob/s3/s3.go:371-399 | the strings of two maps are equal if and only if every pair occurs equally often in both, in whatever order |
| CanonicalQueries.CanonicalDecodes | blob/s3/s3.go:371-399 | decoding gives back exactly the multiset of pairs, in the order of their encoded bytes |
| CanonicalQueries.CanonicalIsSorted | blob/s3/s3.go:388-393 | earlier pairs come first in the lexicographic byte order of the encoded names, then of the encoded values |
| CanonicalQueries.Spelling | blob/s3/s3.go:394-398 | name, equals sign, value, and an ampersand between pairs |
| CanonicalQueries.CanonicalQuery | blob/s3/s3.go:376-399 | the code's loops and sort produce a canonical string |
| CanonicalQueries.UriEncode | blob/s3/s3.go:412-425 | the byte loop computes the percent-encoding |
| Percent.RoundTrip | blob/s3/s3.go:410-425 | percent-decoding inverts the encoding |
| Percent.ByteSpelling | blob/s3/s3.go:412-425 | letters, digits, hyphen, dot, underscore and tilde stand for themselves, any other byte is a percent sign and two upper-case hex digits |
| Percent.EscapesAreUpperCase | blob/s3/s3.go:421 | every percent sign is followed by two upper-case hex digits |
| Percent.EncodeAlphabet | blob/s3/s3.go:416-421 | only unreserved characters and the percent sign appear |
| CanonicalQueries.UriEncodePath | blob/s3/s3.go:402-408 | each segment is encoded and the slashes stay |
| CanonicalQueries.PathRoundTrip | blob/s3/s3.go:401-408 | the encoded path has the same segments, each decoding to the original |
| Labels.ValueRoundTrip | internal/metrics/metrics.go:249-257 | reading an escaped, quoted value gives it back and finds its end |
| Labels.RoundTrip | internal/metrics/metrics.go:232-246 | reading a rendered label list gives it back |
| Labels.Spelling | internal/metrics/metrics.go:234-246 | braces around, each label as key, equals sign and quoted escaped value, commas between |
| Labels.EscapeSpelling | internal/metrics/metrics.go:249-257 | backslash, quote and newline become two bytes, every other byte stays |
| Labels.SameSeriesExactlyWhenSameLabels | internal/metrics/metrics.go:221-247 | two renderings are equal if and only if the label multisets are |
| Labels.OneSeriesExactlyWhenOneValuePerKey | internal/metrics/metrics.go:221-233 | whatever the sort does with equal keys, all argument orders of a label list give one string if and only if no key has two values |
| Labels.InsertionOrderSorts | internal/metrics/metrics.go:233 | sorting by insertion is such a sort by key |
| Labels.EscapeLabelValue | internal/metrics/metrics.go:251-257 | the fast path and the replacer agree on the escaped value |
| Labels.RenderLabels | internal/metrics/metrics.go:224-247 | pairing, arranging by key and writing yield the string of the argument list, a rendering of its pairs with an odd last key dropped |
| LoginLimiters.CapAlwaysHolds | server/ratelimit.go:25-29 | after any failures and resets the map is within its cap |
| LoginLimiters.EvictionIsInvisible | server/ratelimit.go:102-122 | outside floods the limiter and one that never evicts have the same live windows |
| LoginLimiters.BlockedAsIfNeverEvicted | server/ratelimit.go:62-76 | outside floods blocked answers exactly as if nothing was ever evicted |
| LoginLimiterObject.LoginLimiter.Blocked | server/ratelimit.go:64-76 | throttled exactly in a live window at the limit, for what is left of it |
| LoginLimiterObject.LoginLimiter.Fail | server/ratelimit.go:81-93 | one more in the key's live window, or the first of a new one when there is none or the sweep forgave it; other keys go only when swept |
| LoginLimiterObject.LoginLimiter.Reset | server/ratelimit.go:96-100 | forgets exactly this key |
| LoginLimiterObject.LoginLimiter.SweepLocked | server/ratelimit.go:106-122 | at most once per window unless full, drops exactly the expired, and everything if still full |
| LoginThrottle.ConcurrentFailuresBounded | server/ratelimit.go:62-93 | an address with at most c attempts between check and fail at once records at most 2 * (limit - 1 + c) - 1 failures in any interval of window length, others interleaving freely |
| LoginThrottle.AtMostTwiceMaxLessOne | server/ratelimit.go:62-93 | one attempt of the address at a time: at most twice the limit less one |
| Staging.ReadAllIsFine | server/handlers_admin.go:134-199 | reading part by part accepts exactly the uploads that are fine as a whole |
| Staging.FileSizeIsFree | server/handlers_admin.go:148-171 | the size of the media file counts toward none of the limits on texts |
| Staging.FieldsAreLastValues | server/handlers_admin.go:194-198 | a known field keeps the last text part of its name |
| Staging.OnlyKnownTextsKept | server/handlers_admin.go:195-198 | nothing but known fields that were sent is kept |
| Staging.ReadText | server/handlers_admin.go:176-192 | accepts exactly within cap and remaining budget, and reads at most one byte past it |
| Staging.UploadDir.StageParts | server/handlers_admin.go:119-200 | at most 100 parts handled, at most 256 KiB and one byte of text read, at most one file created |
| Staging.UploadDir.StageMultipartUpload | server/handlers_admin.go:119-206 | accepted exactly when acceptable; every rejection leaves no file; acceptance keeps the fields and the media |
| CappedBuffers.CappedBuffer.Write | transcribe/command/command.go:169-181 | after any writes the buffer is the longest prefix of the output within the limit, overflow exactly when that is not all |

## Left out

- Leaked blobs: the code does not promise their absence, so only safety is proved.
- EpisodeOrder.DownThenUpRestores, EpisodeTable.MoveEpisode: listing and renumbering run without another request in between. The code refuses a list whose set of ids went stale, but another reorder in that gap is overwritten.
- BlobHandlers, JobWorkers and OidcCallbacks describe undisturbed requests; interleavings are the protocols' business. Panics and store errors there are the protocols' Stop, Vanish and Reject steps.
- BlobHandlers.Site.EpisodeCreate ends with the episode; the enqueue after it belongs to the job protocol.
- LoginThrottle.ConcurrentFailuresBounded, LoginThrottle.AtMostTwiceMaxLessOne: on a forward clock, without floods and with no reset of the address itself.
- JobHistory.EveryJobSettles: that a dead-letter write commits before the job is claimed again is a hypothesis about the environment; the code cannot ensure it, because a worker may be lost right after its claim.
- Uniqueness indexes, foreign keys and autoincrement are conditions of the transactions; SQL text, driver errors, migrations and the deferred rollbacks are not modelled.
- Job timestamps other than run_after and created_at, EnqueueJob, UpdateEpisode, SetEpisodeTranscriptStatus and UpdateUser, which no modelled handler uses.
- Reading cover art keys is kept as a counted reference; how they are set is one unconstrained step.
- The keyed hash is a parameter and unforgeability a hypothesis; token verification, email.Canonical and password checks are parameters or come before the model starts.
- Letter case beyond ASCII, in domains and e-mail addresses.
- Sorting.SortSlice and Labels.KeySort sort sequence values; the original sorts its slices in place by an algorithm of the library.
- Staging: content hash, MIME detection and the request size limit, which shows only as a part that breaks off.
- JobTimeoutPolicy, S3 networking, subprocess control, HTTP routing, cookies as headers, feeds, configuration and health probes.
