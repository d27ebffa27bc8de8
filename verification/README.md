# Verification model of aimem

aimem carries an AI coding agent's memory and shared documents between
machines. This project models its hard core in Dafny and proves what it
promises:

- **Three-way merge** (`Subsequence`, `EditScript`, `Merge3`, `MergeTouch`,
  `MergeLaws`, `TextLines`, `MergeProgram`). The alignment table, the walk, the
  cluster loops and the switch are programs with a two-dimensional array and
  cursors, proved against a recursive specification. The main results are minimality
  of the script, the structure theorem, that a conflict is always genuine and needs
  edits that meet, and the algebra of merging.
- **Shared documents** (`DocProtocol`, `DocSync`, `DocSafety`, `DocConvergence`,
  `DocMarkers`, `DocClient`, `DocBindings`). Any number of machines, each with a
  file and a sidecar, against one document with compare-and-swap. `DocSync` is the
  step system over every interleaving; `DocClient` is one machine's commands and
  loops as a class that updates files, previews, sidecar and requests.
- **Enrollment** (`EnrollmentLedger`, `EnrollmentRuns`, `EnrollmentAnswers`,
  `EnrollmentStore`, `EnrollClient`, `EnrollSafety`, `EnrollStarts`, `EnrollFlow`,
  `EnrollRerun`, `EnrollRetry`, `EnrollProgram`). The hub's transactions on tables
  updated in place, and the client's command with crashes, lost messages, reruns and
  overlapping runs. `EnrollFlow` is one run to its end as a function of what it
  meets, and `EnrollProgram` is proved to end exactly there.
- **Identity proofs and access** (`IdentityLedger`, `IdentityRuns`,
  `IdentityAnswers`, `IdentityStore`, `AccessRules`). Peers, credentials, receipts
  and redemptions, and write authority computed by the hub's query and by the CLI's
  maps.
- **Spool and hub routing** (`Spool`, `SpoolRace`, `SpoolProgram`, `HubRouting`,
  `HubSpools`, `HubProgram`). Claim by rename, replay, sweep and per-hub spools, by
  several processes that may die at any step. `HubSpools` proves that each hub's
  spool refines the local one's protocol, and so loses nothing.
- **Handoff compaction** (`HandoffText`, `Handoff`, `HandoffLaws`, `HandoffExact`,
  `HandoffProgram`, `HandoffKeeps`), the **sliding-window limiter** (`Limiter`), the
  **curation budget** (`Budget`) and the **refile rotation** (`Refile`). `Lists` and
  `Options` hold what several modules share.

A pattern recurs: a pure transaction or step function says what one operation
does to the state, lemmas prove what every run keeps, and a class method written
as the source writes it is proved to do exactly that step. The programs that take
part in a protocol (`SpoolProgram`, `HubProgram`, `EnrollProgram`) carry a ghost
copy of the protocol's world and may only change shared state by a step of it, so
the theorems over every run hold of them.

`dafny verify dfyconfig.toml` checks everything (Dafny 4.11).

## Where the code does not do what it says

Each of these is proved as a run or input that shows it and, for all inputs, as
the exact condition under which the code keeps its word.

- `internal/adapter/docs.go:318-320` calls reconciling "loss-free by
  construction". A conflicted `docs merge` records the hash of the marked file
  (`cmd/aimem/docs.go:284-288`), so a later revision fast-forwards over text the
  hub never had: `ConflictedMergeLosesText`, `LosesExactly`.
- An unforced `docs pull` promises never to clobber unpublished local work
  (`cmd/aimem/docs.go:203-204`). For the same reason it does, even with the
  revision the file was merged with: `PullLosesText`, `LosesExactly`.
- Conflict markers "must never reach the hub on their own"
  (`cmd/aimem/docs.go:287`). They stay when the merge has recorded its file; after
  a stop before that they can be published by the next syncs, and after a second,
  clean merge as well: `SavedMarkersStay`, `MarkersReleasedExactly`,
  `SecondMergeReleases`.
- `PublishDocs` refuses a second file bound to one document name
  (`internal/adapter/docs.go:129-139`); `ReconcileDocsIn` has no such check. A
  sync can then publish the first file over a revision only the second one
  received: `SharedNameLosesUpdate`, `StalePutExactly`, `DistinctNamesNeverStale`.
- A run of `enroll redeem` that found its stored credential accepted removes the
  pending file later, unconditionally (`cmd/aimem/enroll_redeem.go:180-182`). If
  the credential is revoked in between and another run has redeemed, the keys to
  recover with are gone: `LeavingRunLosesKey`, `RecoverableExactly`,
  `OneIdentityExactly`.
- "Run the same command again" does not always recover an enrollment: an entry
  that still holds a refused credential after the delivery was recorded is taken
  for the delivered one (`cmd/aimem/enroll_redeem.go:229-235`) for ever:
  `StuckForever`, `StuckIsReachable`, `RerunEnrollsExactly`.
- `MergeText` returns an unedited-side or equal-side merge byte for byte exactly
  when that side is empty or newline-terminated: `MergeTextUnedited`,
  `MergeTextEqualSides`.
- `internal/adapter/hub.go:344-346` says a record bound to an unconfigured hub is
  never dropped. With no hub configured at all `ResolveHub` returns no name
  (`internal/adapter/hub.go:287-290`) and the record is not spooled:
  `UnconfiguredWaitsExactly`.
- Sweeping a claim is safe as one step; in its three file operations it can lose a
  record, because claim names are reused by every replay of a process:
  `SplitSweepLosesRecord`, `NothingIsLostUnlessLate`, `RemovalLosesExactly`.
- Retiring a peer deletes rows that the receipt rate counts:
  `AtMostTenPerMinute`, `RetirementForgivesRate`, `EleventhDrawnExactly`.
- The dedup embedding spend is recorded but not projected:
  `GateIsSafeWithoutEmbedder`, `GateIsSafeExactly`.
- The archive step of `handoff compact` tests for the moved text as a suffix of
  characters, not of lines (`cmd/aimem/handoff.go:123`), so history can be
  dropped: `SuffixIsNotArchived`, `CompactKeepsAllTexts`. A summary that contains
  the marker line makes the next compaction move lines again:
  `MarkerSummaryPasses`, `AgainMovesNothingExactly`.

## Model

| member | source | states |
|---|---|---|
| `EditScript.Diff` | internal/diff3/diff3.go:29-70 | the table-and-walk program returns a script that is minimal: well formed, rebuilds the other text, and keeps at least as many lines as any common subsequence |
| `EditScript.FillTable` | internal/diff3/diff3.go:33-46 | every cell of the two-dimensional table is the longest-common-subsequence recurrence of the two suffixes |
| `EditScript.FillRow` | internal/diff3/diff3.go:36-45 | one row, filled from the right, extends the filled part of the table by that row and keeps the sentinel column |
| `EditScript.ScriptIsMinimal` | internal/diff3/diff3.go:29-70 | minimality against every common subsequence, and the kept lines are themselves a common subsequence |
| `EditScript.ScriptWellFormed` | internal/diff3/diff3.go:47-69 | hunks are non-empty, ordered and separated by at least one kept line |
| `EditScript.ScriptAligns` | internal/diff3/diff3.go:47-69 | from every position: the script rebuilds the rest of the other text and keeps exactly the table entry's number of lines |
| `EditScript.RegionKeepsTable` | internal/diff3/diff3.go:56-67 | walking a mismatch region along the larger neighbour never lowers the table entry |
| `EditScript.KeptIsCommon` | internal/diff3/diff3.go:86-95 | for any well-formed script, the untouched lines are a common subsequence of the base range and of the applied text |
| `EditScript.ScriptOfSelf` | internal/diff3/diff3.go:47-69 | a text has the empty script against itself |
| `Subsequence.TableBounds` | internal/diff3/diff3.go:33-46 | no common subsequence of the two suffixes is longer than the table entry |
| `Merge3.ClusterConfluent` | internal/diff3/diff3.go:121-137 | absorbing overlapping hunks in either order gives the same cluster: the growth loop is confluent |
| `Merge3.ClusterAbsorbs` | internal/diff3/diff3.go:121-137 | a finished cluster contains its hunks, and the hunks after it start beyond it |
| `Merge3.RoundAbsorbs` | internal/diff3/diff3.go:110-137 | one round makes progress, stays in range and leaves well-formed scripts beyond the cluster |
| `Merge3.ChunksPartition` | internal/diff3/diff3.go:105-168 | from every state of the outer loop, the base, local and hub parts of the remaining chunks concatenate to exactly what remains of each version |
| `Merge3.RestoredRangeIsKept` | internal/diff3/diff3.go:29-70 | hunks of a minimal script that restore a base range keep all of it, which only minimality gives |
| `Merge3.EditIsGenuine` | internal/diff3/diff3.go:142-163 | a cluster that holds a hunk of a side changes that side: its text there differs from the base |
| `Merge3.ChunksSound` | internal/diff3/diff3.go:142-163 | every chunk's kind says exactly who changed it; in a conflict all three texts differ pairwise |
| `Merge3.MergeStructure` | internal/diff3/diff3.go:105-168 | the diff3 structure theorem for all inputs: three partitions and sound kinds |
| `MergeTouch.SharedExactly` | internal/diff3/diff3.go:111-137 | both sides share a changed region of the merge exactly when some local and some hub edit have a base line in common, start at the same point with one of them an insertion, or one is an insertion strictly inside the other |
| `MergeTouch.ApartNeverConflict` | internal/diff3/diff3.go:139-163 | edits of which no two are so placed merge without conflict |
| `MergeTouch.DisjointRangesNeverConflict` | internal/diff3/diff3.go:77-82 | edits of disjoint non-empty base ranges, adjacent ones included, never conflict |
| `MergeTouch.AdjoiningLinesMerge` | internal/diff3/diff3.go:77-82 | one side changes a line and the other the next one: both edits stand, without conflict |
| `MergeTouch.SwappedLines` | internal/diff3/diff3.go:56-67 | two lines swapped by one side: which of the two equally long alignments the walk takes |
| `MergeProgram.ApplyWithin` | internal/diff3/diff3.go:86-95 | the loop computes the base range with the hunks applied |
| `MergeProgram.Grow` | internal/diff3/diff3.go:121-137 | the nested absorb loops end with the order-independent cluster |
| `MergeProgram.Emit` | internal/diff3/diff3.go:142-163 | the switch appends the chunk that the two sides classify as, and reports a conflict exactly for a conflict chunk |
| `MergeProgram.EmitCluster` | internal/diff3/diff3.go:111-164 | one round appends its chunks and leaves the rest of the merge unchanged |
| `MergeProgram.MergeScripts` | internal/diff3/diff3.go:105-168 | the outer loop emits all chunks of two scripts and counts the conflicts |
| `MergeProgram.Merge` | internal/diff3/diff3.go:105-168 | the program refuses above the size limit and otherwise answers the text and conflict count of the chunks |
| `MergeProgram.RefusedExactly` | internal/diff3/diff3.go:105-108 | a merge is refused exactly when one of the three texts has more than 4000 lines |
| `MergeProgram.ConflictReads` | internal/diff3/diff3.go:154-180 | a conflict block, line by line: each marker, its label, and which side stands where |
| `MergeProgram.MergeText` | internal/diff3/diff3.go:171-180 | splitting, merging and joining texts, with the labels in the marker lines |
| `MergeLaws.MergeIsSymmetric` | internal/diff3/diff3.go:105-168 | swapping the sides keeps the conflict count and, without conflict, the lines |
| `MergeLaws.MergeFollows` | internal/diff3/diff3.go:105-168 | a merge whose chunks all follow one view reads as that view |
| `MergeLaws.MergeUneditedLocal` | internal/diff3/diff3.go:105-168 | with local equal to the base the merge is the hub text, without conflict |
| `MergeLaws.MergeUneditedHub` | internal/diff3/diff3.go:105-168 | with the hub equal to the base the merge is the local text, without conflict |
| `MergeLaws.MergeEqualSides` | internal/diff3/diff3.go:105-168 | merging two equal sides gives that side, without conflict |
| `MergeLaws.MergeWithoutBase` | internal/diff3/diff3.go:105-168 | without a base, two different non-empty texts become one conflict block that shows both |
| `TextLines.LinesRoundTrip` | internal/diff3/diff3.go:171-187 | joining and splitting lines without newlines gives the lines back |
| `TextLines.TextRoundTrip` | internal/diff3/diff3.go:171-187 | splitting and joining a text gives it back exactly when it is empty or newline-terminated, else with the newline added |
| `TextLines.SameLines` | internal/diff3/diff3.go:182-187 | two texts split alike exactly when they are equal once each has the final newline it may lack |
| `MergeProgram.MergeTextUnedited` | internal/diff3/diff3.go:171-187 | a side merged with the unedited base is returned, byte for byte exactly when it is newline-terminated or empty |
| `MergeProgram.MergeTextEqualSides` | internal/diff3/diff3.go:171-187 | two equal sides are returned, with the same exact condition |
| `MergeProgram.MergeTextSymmetric` | internal/diff3/diff3.go:171-187 | swapping the sides keeps refusal and conflict count and, without conflict, the text |
| `MergeProgram.MergeTextWithoutBase` | internal/diff3/diff3.go:171-187 | the text of the one conflict block that a merge without base leaves |
| `DocSync.StepKeepsConsistent` | internal/adapter/docs.go:116-188 | every command on every machine keeps "sidecar hash = body of the sidecar revision" for machines without an unresolved conflicted merge, and the log only grows |
| `DocSync.RunIsConsistent` | internal/adapter/docs.go:332-424 | the invariant over every interleaving of any number of machines, with lost requests, lost replies and stops between the file and the sidecar write |
| `DocSafety.AcceptedTextHasIncorporatedHead` | internal/adapter/docs.go:262-268 | over every run, an accepted unforced publish of revision r+1 comes from a file that has incorporated revision r |
| `DocSafety.NoTextLost` | internal/adapter/docs.go:370-424 | over every run, an automatic step or an unforced pull on an unmarked file discards no text the hub never had: it stays, was a revision, or went into the merge now in the file |
| `DocSafety.MergedTextKeepsEdits` | cmd/aimem/docs.go:246-262 | against the merge base, the merged text holds every edit of either side, as it stands or inside a conflict block |
| `DocSafety.MergeWorksFromRecorded` | internal/adapter/docs.go:380-387 | in every reachable state the merge answers for the edits since the text the sidecar recorded, when the hub still returns it, and since the empty text otherwise |
| `DocSafety.DivergedReconcileExactly` | internal/adapter/docs.go:380-420 | a reconcile of an edited file with a newer revision: a clean merge is written on the hub text as base, a conflicted one leaves the file and a preview; every edit since the recorded text stands in what was merged |
| `DocSafety.DivergedMergeExactly` | cmd/aimem/docs.go:253-291 | a named merge of an edited file: the merged text is written, the preview goes, and the sidecar records the hub text when clean and the written file when not |
| `DocSafety.FastForwardExactly` | internal/adapter/docs.go:370-378 | an unedited file takes a newer revision as it is; nothing else is reconciled without a merge |
| `DocSafety.SendsExactly` | internal/adapter/docs.go:145-182 | which files a publish and a push send, when the hub takes them, and what the sidecar then says |
| `DocSafety.PullsExactly` | cmd/aimem/docs.go:183-215 | an unforced pull writes exactly when there is no unpublished text that differs |
| `DocSafety.NothingToMergeExactly` | cmd/aimem/docs.go:246-253 | when a named merge changes nothing, and when it only records that the texts agree |
| `DocSafety.LosesExactly` | cmd/aimem/docs.go:200-215 | in every reachable state and for every command: text the hub never had is lost exactly by a reconcile to a newer revision or an unforced pull, when a conflicted merge recorded the sidecar, the marked file is untouched and no revision holds it |
| `DocConvergence.ConflictedMergeLosesText` | cmd/aimem/docs.go:284-291 | a reachable run that does lose text: the conflicted merge records the marked file, and a later revision fast-forwards over it |
| `DocConvergence.PullLosesText` | cmd/aimem/docs.go:200-213 | a reachable run in which an unforced pull loses text, even of the revision the file was merged with |
| `DocMarkers.SavedMarkersStay` | cmd/aimem/docs.go:284-291 | what a conflicted merge left and recorded is never published by the machine's own syncs, whatever the others do, before someone edits, pushes or merges |
| `DocMarkers.MarkersReleasedExactly` | cmd/aimem/docs.go:284-291 | with another machine and a live head, what a conflicted merge left is released to the hub by some run of the machine's own syncs exactly when the sidecar does not record the marked file and the file is within the merge limit |
| `DocMarkers.SecondMergeReleases` | cmd/aimem/docs.go:274-283 | a second merge before the markers are resolved can come out clean, and the next automatic publish then sends them |
| `DocConvergence.FirstMergeConflicts` | cmd/aimem/docs.go:253-291 | what a first conflicted merge writes and records |
| `DocConvergence.SyncSettles` | cmd/aimem/docs.go:87-104 | one undisturbed sync leaves the file at the head of the log, and changes no revision when the file was published |
| `DocConvergence.RoundSettles` | cmd/aimem/docs.go:87-104 | after a clean round every machine that took part has published its text |
| `DocConvergence.QuietRound` | cmd/aimem/docs.go:87-104 | a round of published machines changes no revision and brings each to the head |
| `DocConvergence.TwoRoundsConverge` | cmd/aimem/docs.go:87-104 | two rounds converge: every file equals the hub body and the second round changes no revision |
| `DocClient.Client.constructor` | internal/adapter/docs.go:43-79 | a machine that has synced nothing |
| `DocClient.Client.Record` | internal/adapter/docs.go:441-445 | replaces one document's revision and hash in the sidecar and nothing else |
| `DocClient.Client.ReconcileDocsIn` | internal/adapter/docs.go:332-424 | the loop over the bound files, with one sidecar write at the end, does the protocol's reconcile for each path in order |
| `DocClient.Client.ReconcileFile` | internal/adapter/docs.go:349-420 | one turn of the loop is the protocol's step on that path, in every skip, fast-forward, merge and preview branch |
| `DocClient.Client.MergeDiverged` | internal/adapter/docs.go:380-420 | a diverged file is merged with the synced revision as base: rewritten when clean, a preview when not |
| `DocClient.Client.PublishDocs` | internal/adapter/docs.go:116-188 | the publish loop: results, PUTs and sidecar, with the later binding of a name refused |
| `DocClient.Client.PublishFile` | internal/adapter/docs.go:145-182 | one turn: skipped, refused, unchanged, failed or recorded |
| `DocClient.Client.Push` | cmd/aimem/docs.go:154-181 | a named push PUTs the file on the sidecar revision and records the answer |
| `DocClient.Client.Pull` | cmd/aimem/docs.go:183-215 | a named pull is the protocol's pull: it refuses over unpublished text that differs |
| `DocClient.Client.Merge` | cmd/aimem/docs.go:217-291 | a named merge is the protocol's merge, in all its early returns |
| `DocClient.Client.MergeInto` | cmd/aimem/docs.go:246-291 | the merge itself: the file written, the preview removed, and the hash recorded, of the hub body when clean and of the marked file when not |
| `DocBindings.PassIsOneStepEach` | internal/adapter/docs.go:332-424 | with distinct document names, a pass takes each document through exactly the step its own fetch calls for |
| `DocBindings.PublishSendsPuts` | internal/adapter/docs.go:116-188 | no PUT of a publish depends on another, and a publish touches no file |
| `DocBindings.PublishIsLocal` | internal/adapter/docs.go:162-182 | one binding's publish is the protocol's publish on its document and leaves every other document alone |
| `DocBindings.FirstBindingWins` | internal/adapter/docs.go:129-141 | the PUTs that name a document are exactly the one its first binding calls for |
| `DocBindings.SidecarMovesExactly` | internal/adapter/docs.go:346-424 | a reconcile pass moves a document's sidecar exactly when some binding of that name, first or not, would be written on its own |
| `DocBindings.WritesExactly` | internal/adapter/docs.go:349-420 | which branch guards let a turn of the loop write |
| `DocBindings.FirstWriterWrites` | internal/adapter/docs.go:346-424 | of the bindings of one name a pass writes at most the first whose guards let it, and the sidecar is then at the text that one fetched |
| `DocBindings.StalePutExactly` | internal/adapter/docs.go:346-424 | a sync publishes a file it did not write on a newer revision exactly when the first binding of the name passes the checks, the first binding whose guards let the pass write it is another one, and the hub text that one fetches differs from the file |
| `DocBindings.DistinctNamesNeverStale` | internal/adapter/docs.go:129-141 | with distinct names it never does |
| `DocBindings.SharedNameLosesUpdate` | cmd/aimem/docs.go:87-104 | two files of one name: a concrete sync whose PUT the hub accepts over text that file never saw |
| `DocBindings.SharedNameExists` | internal/ident/groups.go:282-285 | two different paths with one document name |
| `EnrollmentStore.Store.constructor` | internal/access/enrollment_redeem.go:129-143 | an empty ledger of one hub |
| `EnrollmentStore.Store.IssueEnrollment` | internal/access/enrollments.go:109-142 | tables and answer of issuing, with a repeat answered before its input is validated |
| `EnrollmentStore.Store.RevokeEnrollment` | internal/access/enrollments.go:149-180 | tables and answer of revoking, with the state computed at the time |
| `EnrollmentStore.Store.RedeemEnrollment` | internal/access/enrollment_redeem.go:93-119 | tables and answer of redeeming; a refusal only audits |
| `EnrollmentStore.Store.Transact` | internal/access/enrollment_redeem.go:129-207 | the transaction: an answer with its tables, or a refusal with no change |
| `EnrollmentStore.Store.ReplayRedemption` | internal/access/enrollment_redeem.go:211-240 | the stored delivery for the identical request, or the exact refusal |
| `EnrollmentRuns.RunIsSound` | internal/access/enrollment_redeem.go:129-207 | over every run: sound tables, true answers, and redemptions written once |
| `EnrollmentRuns.LedgerPromises` | internal/access/enrollment_redeem.go:129-240 | over every run no bundle is both redeemed and revoked, each redeemed bundle has its own user and token, and all successful answers for it agree, exactly one not a replay |
| `EnrollmentRuns.RedemptionIsFinal` | internal/access/enrollment_redeem.go:178-186 | what a redemption recorded is never changed by any later run |
| `EnrollmentRuns.RefusalOnlyAudits` | internal/access/enrollment_redeem.go:105-119 | a refusal or a replay changes the audit alone; a first success changes one bundle |
| `EnrollmentRuns.SpentCodeIsInvalid` | internal/access/enrollment_redeem.go:211-217 | past the retention every request on a spent code gets the refusal an unknown code gets |
| `EnrollmentRuns.RedeemAnswersExactly` | internal/access/enrollment_redeem.go:145-165 | when a request is answered by a first redemption, and when by a replay: both directions |
| `EnrollmentAnswers.IssueAnswersExactly` | internal/access/enrollments.go:88-142 | each answer of issuing, by the row and the input: a repeat is judged by its input whatever the time, a new bundle by form, purpose, life and name |
| `EnrollmentAnswers.IssuedCanBeRedeemed` | internal/access/enrollments.go:109-142 | what was issued can be redeemed, and not by a second key |
| `EnrollmentAnswers.RepeatIsClassified` | internal/access/enrollments.go:112-124 | in every later state a repeat is answered the same way and changes nothing |
| `EnrollmentAnswers.RevokeAnswersExactly` | internal/access/enrollments.go:149-180 | each answer of revoking and the exact row and audit entry it leaves |
| `EnrollmentAnswers.RevokedCodeIsDead` | internal/access/enrollments.go:149-180 | once a revocation was answered, at every later time of every run the bundle reads revoked and every request on its code is refused and mints nothing |
| `EnrollmentAnswers.ExpiredCodeIsRefused` | internal/access/enrollment_redeem.go:160-163 | an expired unredeemed code is refused |
| `EnrollmentAnswers.RedeemAnswersBy` | internal/access/enrollment_redeem.go:129-240 | which of the five answers a request gets, by its row, the clock and the token tables |
| `EnrollmentAnswers.RefusalAuditsExactly` | internal/access/enrollment_redeem.go:105-119 | a request is refused exactly when one of eight things is wrong with it, the audit says which, and the caller learns only whether its key conflicts |
| `EnrollmentAnswers.MintsExactly` | internal/access/enrollment_redeem.go:167-207 | the user, the token with its life, and the delivery that only the key of the request opens |
| `EnrollmentAnswers.RevokedTokenNeverReplays` | internal/access/enrollment_redeem.go:225-232 | once a minted token is revoked no later request on its code succeeds |
| `EnrollSafety.EnrollmentIsRecoverable` | cmd/aimem/enroll_redeem.go:151-312 | from a start whose entry holds nothing to keep, under crashes, losses, reruns and overlapping runs: once the hub has redeemed with key k, the pending file holds k or the hub entry holds the minted token |
| `EnrollSafety.OneIdentity` | cmd/aimem/enroll_redeem.go:151-312 | from such a start, every run that finishes reports the one identity the bundle minted, and its bearer is in the hub entry |
| `EnrollStarts.RecoverableExactly` | cmd/aimem/enroll_redeem.go:180-182 | of all starts with a code that can be redeemed, every run stays recoverable exactly from those whose entry is empty or holds a credential the hub will not accept again |
| `EnrollStarts.OneIdentityExactly` | cmd/aimem/enroll_redeem.go:205-217 | and exactly from those does every finishing run report the minted identity |
| `EnrollStarts.LeavingRunLosesKey` | cmd/aimem/enroll_redeem.go:180-182 | the losing run: told "already enrolled" before its credential was revoked, it removes the pending file with which another run has redeemed since |
| `EnrollSafety.StepKeepsInv` | cmd/aimem/enroll_redeem.go:151-312 | the invariant behind recovery and one identity, step by step, for the starts they hold from |
| `EnrollSafety.HandleKeeps` | internal/access/enrollment_redeem.go:129-207 | what the hub's handling of a request does to the bundle's redemption |
| `EnrollFlow.GoSteps` | cmd/aimem/enroll_redeem.go:151-312 | a run as a function of what it meets moves by the steps of the protocol alone |
| `EnrollFlow.ExchangeIs` | cmd/aimem/enroll_redeem.go:414-447 | what one exchange changes, whichever message is lost |
| `EnrollFlow.AskIsTruthful` | cmd/aimem/enroll_redeem.go:483-505 | what a run learns of a bearer is true of the hub's tables |
| `EnrollRerun.RerunEnrollsExactly` | cmd/aimem/enroll_redeem.go:197-241 | in every reachable state, while the hub would replay, an undisturbed rerun ends enrolled exactly unless a refused credential sits in the entry after the delivery was recorded, or the pending file is gone and the code expired, or it has another label before the credential is stored |
| `EnrollRerun.FirstRunEnrollsExactly` | cmd/aimem/enroll_redeem.go:197-312 | an undisturbed first run with a good code ends enrolled exactly when the entry is empty or the hub refuses its credential |
| `EnrollRerun.StuckForever` | cmd/aimem/enroll_redeem.go:229-240 | in the first of those states no later run, whatever it is answered, ever ends enrolled |
| `EnrollRerun.StuckIsReachable` | cmd/aimem/enroll_redeem.go:263-268 | and a first run that stops right after recording the delivery leaves it, from every start with a refused credential |
| `EnrollRerun.NothingFinishesTooLate` | cmd/aimem/enroll_redeem.go:200-204 | with the pending file gone, no run that looks after the code has expired ever ends enrolled, whatever others do |
| `EnrollRetry.RerunRetriesExactly` | cmd/aimem/enroll_redeem.go:404-470 | with fewer than five exchanges lost before an answered one, a rerun ends enrolled exactly when an undisturbed one does, whatever the expiry of the code |
| `EnrollRetry.FirstRunRetriesExactly` | cmd/aimem/enroll_redeem.go:404-470 | and so does a first run whose attempts are all before the expiry, also when the lost message was the answer to a redemption |
| `EnrollRetry.NothingSentAfterExpiry` | cmd/aimem/enroll_redeem.go:412-419 | after its first attempt a first run sends nothing at or past the expiry |
| `EnrollRetry.FirstRunIgnoresLateAttempts` | cmd/aimem/enroll_redeem.go:412-419 | a whole first run is decided by its first attempt and those before the expiry |
| `EnrollRetry.RunIgnoresSixthAttempt` | cmd/aimem/enroll_redeem.go:404-470 | and every run by its first five |
| `EnrollRetry.OutageSpendsNothing` | cmd/aimem/enroll_redeem.go:205-217 | a stored credential that cannot be checked stops the run with nothing drawn, sent or written |
| `EnrollRetry.AcceptedSpendsNothing` | cmd/aimem/enroll_redeem.go:205-217 | one the hub accepts ends the run with its identity, and the code is kept |
| `EnrollRetry.OpensExactly` | cmd/aimem/enroll_redeem.go:251-262 | a delivery is taken exactly from an answer sealed to the key in which every name is right |
| `EnrollRetry.OtherIdentityStops` | cmd/aimem/enroll_redeem.go:229-240 | a credential that answers for someone else stops the run |
| `EnrollRetry.EndsByConfirmation` | cmd/aimem/enroll_redeem.go:205-312 | a run comes to removing its pending file exactly by a check the hub answered with the right identity |
| `EnrollProgram.Command.constructor` | cmd/aimem/enroll_redeem.go:151-170 | a run at its start, on the files as they are; its goal is where the run leads |
| `EnrollProgram.Command.WhoAmI` | cmd/aimem/enroll_redeem.go:483-505 | the identity check: the active user-scoped token of the bearer, a refusal when there is none, neither when the hub cannot be asked or the token is not user-scoped |
| `EnrollProgram.Command.Prepare` | cmd/aimem/enroll_redeem.go:172-241 | the start of a run takes it, on course, either to its end or to sending with the key the pending file holds |
| `EnrollProgram.Command.CheckStored` | cmd/aimem/enroll_redeem.go:205-217 | a stored credential ends the run, on course; it goes on to spend the code only where the protocol does |
| `EnrollProgram.Command.CreateKeys` | cmd/aimem/enroll_redeem.go:530-588 | new keys are in the pending file before the second look at the entry, which ends the run or lets it send, on course |
| `EnrollProgram.Command.VerifyDelivered` | cmd/aimem/enroll_redeem.go:229-240 | a recorded delivery with a stored bearer ends the run where the protocol ends it |
| `EnrollProgram.Command.EnrollSend` | cmd/aimem/enroll_redeem.go:404-470 | at most five attempts with one key, none of a first redemption past the expiry, each the protocol's exchange; it ends with an answer or gives up, on course |
| `EnrollProgram.Command.SendOnce` | cmd/aimem/enroll_redeem.go:414-447 | one exchange, its request or answer perhaps lost, is the protocol's, tables and answer included |
| `EnrollProgram.Command.Keep` | cmd/aimem/enroll_redeem.go:263-312 | the identity is recorded before the bearer is stored, and a stop leaves both where a rerun finds them |
| `EnrollProgram.Command.HandleAnswer` | cmd/aimem/enroll_redeem.go:251-312 | a conflict, a refusal or an opened delivery is followed to the run's end, on course |
| `EnrollProgram.Command.EnrollRedeem` | cmd/aimem/enroll_redeem.go:151-312 | the whole command on its files and the hub's store ends exactly where the protocol's run ends, and reports an identity exactly when that run finishes; undisturbed and within the retention, exactly under the condition of RerunEnrollsExactly; and it keeps the recovery invariant |
| `IdentityStore.Store.NoOtherActivePeer` | internal/access/identity_proofs.go:192-201 | whether another peer is enabled |
| `IdentityStore.Store.RegisterIdentityPeer` | internal/access/identity_proofs.go:164-189 | a peer is added exactly when its form is right, the hub matches, no other is enabled and the name is free |
| `IdentityStore.Store.SetIdentityPeerDisabled` | internal/access/identity_proofs.go:205-222 | disabling always, enabling only as the one enabled peer |
| `IdentityStore.Store.RetireIdentityPeer` | internal/access/identity_proofs.go:239-290 | a disabled peer goes with every row keyed by it, and the counts are of those rows |
| `IdentityStore.Store.IssuePeerCredential` | internal/access/identity_proofs.go:293-332 | a credential is minted exactly below the limit of active ones |
| `IdentityStore.Store.PruneLedger` | internal/access/identity_proofs.go:455-463 | redemptions and receipts older than the retention are deleted, no others |
| `IdentityStore.Store.UserTokenState` | internal/access/identity_proofs.go:442-453 | whether a token is live, and whether it is an installation credential |
| `IdentityStore.Store.IssueProofReceipt` | internal/access/identity_proofs.go:470-536 | tables and answer of issuing a receipt, the rate limit judged before pruning |
| `IdentityStore.Store.RedeemReceipt` | internal/access/identity_proofs.go:546-655 | tables and answer of redeeming a receipt, in every refusal and replay branch |
| `IdentityRuns.SingleEffect` | internal/access/identity_proofs.go:546-655 | over every run with any clock: each receipt redeemed at most once, at most one live per binding, every stored redemption with its receipt stored as redeemed, no two sharing one, at most one peer enabled |
| `IdentityRuns.RunIsSound` | internal/access/identity_proofs.go:455-655 | the invariant behind it, kept by every operation |
| `IdentityRuns.PruneKeepsBacked` | internal/access/identity_proofs.go:455-463 | pruning removes a redemption no later than its receipt |
| `IdentityRuns.RetainedKeyReplays` | internal/access/identity_proofs.go:589-608 | a retained request key replays its record or conflicts, and changes nothing stored under it |
| `IdentityAnswers.RedeemAnswersBy` | internal/access/identity_proofs.go:546-655 | when a request with a new key is accepted, and which refusal each failing condition gets, in terms of the tables and the clock |
| `IdentityAnswers.RepeatAnswersBy` | internal/access/identity_proofs.go:589-608 | when a retained key replays, conflicts, or is refused for its token |
| `IdentityAnswers.AcceptedRecords` | internal/access/identity_proofs.go:640-655 | what an accepted redemption records, and that its receipt is spent |
| `IdentityAnswers.AcceptedIsNew` | internal/access/identity_proofs.go:546-655 | an accepted receipt is refused to every other key |
| `IdentityAnswers.PruneKeepsExactly` | internal/access/identity_proofs.go:455-463 | a row stays exactly while it is no older than fifteen minutes |
| `IdentityAnswers.RefusalOnlyPrunes` | internal/access/identity_proofs.go:546-655 | a refusal changes nothing but what pruning removes |
| `IdentityAnswers.IssueAnswersBy` | internal/access/identity_proofs.go:470-516 | which answer a receipt request gets, the rate limit included |
| `IdentityAnswers.IssuedExactly` | internal/access/identity_proofs.go:517-536 | the receipt that is issued, and that it supersedes the live one of its binding |
| `IdentityAnswers.IssuedIsRedeemed` | internal/access/identity_proofs.go:470-655 | an issued receipt is accepted within its minute, by its peer alone, while its token stays live |
| `IdentityAnswers.PeersChangeExactly` | internal/access/identity_proofs.go:164-222 | which peers are there and enabled after registering or switching one |
| `IdentityAnswers.RetireRemovesExactly` | internal/access/identity_proofs.go:239-290 | which rows a retirement removes |
| `IdentityAnswers.CredentialsExactly` | internal/access/identity_proofs.go:293-332 | when a credential is minted and what it says |
| `IdentityAnswers.RevokesExactly` | internal/access/identity_proofs.go:336-350 | a revocation touches exactly the one credential of the peer |
| `IdentityAnswers.RevokedCredentialIsRefused` | internal/access/identity_proofs.go:336-350 | over every run a revoked credential redeems nothing and changes nothing again |
| `IdentityRuns.CredentialsStayBounded` | internal/access/identity_proofs.go:308-324 | under a forward clock no peer ever has more than two active credentials for one operation |
| `IdentityRuns.AtMostTenPerMinute` | internal/access/identity_proofs.go:509-516 | a token draws at most ten receipts in any minute of a stretch, pruning included, unless a retirement deletes one it drew within the last minute |
| `IdentityRuns.RetirementForgivesRate` | internal/access/identity_proofs.go:239-290 | in any ledger a token at its limit may draw again at once after a retirement exactly when that deleted a receipt it drew within the last minute |
| `IdentityRuns.EleventhDrawnExactly` | internal/access/identity_proofs.go:239-290 | and exactly then is an eleventh receipt of one minute drawn |
| `Spool.NothingSpooledIsLost` | internal/adapter/spool.go:240-299 | in every reachable state, whichever processes died where, a spooled record is in the spool, in a claim, accepted or rejected |
| `Spool.NothingSubmittedIsLost` | internal/adapter/spool.go:141-191 | the same from the submission on: a record the service did not reject is never lost, and one it took stays in the journal |
| `Spool.OnlyUnreachableWaits` | internal/adapter/spool.go:141-191 | over every run exactly the records submitted while the service was unreachable are spooled, and nothing else ever waits |
| `Spool.StepKeepsInv` | internal/adapter/spool.go:240-299 | the invariant behind it for every step but the removal of a claim |
| `Spool.FinishKeepsInv` | internal/adapter/spool.go:278-299 | removing a drained claim loses nothing: its records have all moved on |
| `Spool.RemovalKeepsInv` | internal/adapter/spool.go:248-299 | removing any claim whose records are all safe without it and without older ones keeps the invariant |
| `Spool.JournalStoresOnce` | internal/adapter/spool.go:240-247 | however often records are posted the journal holds one per key and only grows |
| `Spool.RedeliveryChangesNothing` | internal/adapter/spool.go:240-247 | once every record on its way has been accepted, no further sweep or replay changes the journal |
| `SpoolRace.SplitSweepLosesRecord` | internal/adapter/spool.go:248-267 | a reachable run that loses a record when reading, appending and removing a swept claim are separate steps, because claim names are reused |
| `SpoolRace.NothingIsLostUnlessLate` | internal/adapter/spool.go:248-267 | over every run of those separate steps, nothing spooled is lost unless a removal hits a younger claim than the one that was read |
| `SpoolRace.RemovalLosesExactly` | internal/adapter/spool.go:248-267 | after such a run the next removal loses exactly the records that only the removed claim holds, and none when it is not late |
| `SpoolProgram.Process.SweepOrphanedClaims` | internal/adapter/spool.go:248-267 | the sweep returns every listed claim to the spool in listing order and leaves none |
| `SpoolProgram.Process.ReplaySpool` | internal/adapter/spool.go:269-299 | one replay: stored records in order, unreachable ones spooled again in order, invalid ones dropped, no claim left, the two counts; and it takes only the protocol's steps |
| `SpoolProgram.Process.Drain` | internal/adapter/spool.go:283-298 | the loop over a claim's records |
| `SpoolProgram.EachRecordHasOneFate` | internal/adapter/spool.go:283-298 | every record of a replay is stored, dropped or spooled again, exactly one of them |
| `HubRouting.DefaultIsConfigured` | internal/adapter/hub.go:122-162 | the default is a configured hub or none, a single hub is its own default, and no entry lacks a URL |
| `HubRouting.OneSpoolPerHub` | internal/adapter/hub.go:314-319 | two hubs never share a spool file |
| `HubRouting.SweepStaysWithItsHub` | internal/adapter/spool.go:248-249 | what a sweep collects by its file-name pattern are that hub's own claims |
| `HubRouting.HubsStayPartitioned` | internal/adapter/hub.go:332-376 | over every run a record is POSTed to hub n only if submitted bound to n, or unbound while n was the default; n's spool holds only such records |
| `HubRouting.UnconfiguredNeverLeaks` | internal/adapter/hub.go:291-305 | a record bound to an unconfigured or quarantined name reaches no hub and sits in no other spool |
| `HubRouting.SubmitEntitlesOnlyTarget` | internal/adapter/spool.go:63-77 | a submission entitles exactly the hub its project names, quarantine or the default; SubmitLocal reaches no hub |
| `HubRouting.SubmitIsKeptExactly` | internal/adapter/hub.go:332-376 | a submitted record is delivered or spooled at once exactly when a hub name resolves and that hub, if configured, has a checkpoint token |
| `HubRouting.SubmitGoesExactly` | internal/adapter/hub.go:332-376 | where a submitted record goes: posted, spooled, or neither, by the binding and the configuration |
| `HubRouting.ConfigExactly` | internal/adapter/hub.go:122-162 | which hubs a file configures and which is the default, the flat form included |
| `HubSpools.HubSpoolsLoseNothing` | internal/adapter/hub.go:449-488 | in every reachable state, whatever was configured when and whichever processes died where, every record ever put in a hub's spool is there, in one of its claims, or was answered by that hub for good |
| `HubSpools.RunFollows` | internal/adapter/hub.go:449-488 | refinement: seen from one hub, every run over all hubs is a run of the local spool's protocol |
| `HubSpools.ProcessFollows` | internal/adapter/hub.go:449-488 | each step of a flush is the protocol's step on its hub's spool |
| `HubSpools.OtherHubStays` | internal/adapter/hub.go:314-319 | and leaves every other hub's spool, claims and flushes alone |
| `HubProgram.Process.SubmitToHub` | internal/adapter/hub.go:332-376 | routing, POST or spooling of one record, and when the flush follows |
| `HubProgram.Process.FlushHubSpool` | internal/adapter/hub.go:449-488 | one flush: exactly the records left waiting, in order, no claim of the hub left, every other file and claim untouched; it takes only the protocol's steps |
| `HubProgram.Process.FlushClaim` | internal/adapter/hub.go:459-482 | the loop with its attempt and failure counters |
| `HubProgram.FlushSplits` | internal/adapter/hub.go:459-482 | what is left and what is delivered are both in spool order, together all records, at most one hundred delivered |
| `HubProgram.FlushLosesNone` | internal/adapter/hub.go:459-482 | every record of a flush is left or delivered |
| `HubProgram.ThreeFailuresStop` | internal/adapter/hub.go:463-480 | from the first of three failures in a row on, every record waits again in its old order |
| `HubProgram.FlushTriesExactly` | internal/adapter/hub.go:459-482 | which records a flush posts: the oldest, up to the limit and up to the first three failures in a row, and of those exactly the answered ones are gone |
| `HubProgram.HealthyHubDrains` | internal/adapter/hub.go:463-482 | a hub that answers drains exactly the oldest records up to the limit |
| `HubProgram.UnconfiguredWaitsExactly` | internal/adapter/hub.go:286-305 | a record bound to an unconfigured hub waits for it exactly when some hub is configured |
| `AccessRules.RunIsSound` | internal/access/store.go:457-604 | what the user, member, grant, issue and revoke operations keep |
| `AccessRules.AccessView.constructor` | cmd/aimem/access_view.go:100-118 | the maps hold exactly what the snapshot's lists say |
| `AccessRules.AccessView.GrantedUsers` | cmd/aimem/access_view.go:140-161 | exactly the enabled users a grant of the project reaches |
| `AccessRules.AccessView.WriteTokens` | cmd/aimem/access_view.go:194-208 | lists exactly the live tokens of granted users whose scope writes the project, each once |
| `AccessRules.ViewAgreesWithHub` | cmd/aimem/access_view.go:194-208 | in every reachable state what WriteTokens lists is exactly what the hub's rule lets write |
| `AccessRules.SecondsAgree` | internal/access/store.go:665-678 | comparing the expiry with whole seconds and with the exact time answers alike |
| `AccessRules.GrantsAgree` | internal/access/store.go:539-545 | the query over grants and members and the maps reach the same users |
| `AccessRules.IssueExactly` | internal/access/store.go:553-594 | who is issued a token of which scope, until when, and which scope an omitted one means |
| `AccessRules.LastWordHolds` | internal/access/store.go:457-522 | after any run a user, membership or grant is as the last operation on it left it |
| `AccessRules.TokenKeepsItself` | internal/access/store.go:553-604 | a token keeps its user, scope, project and expiry, and is revoked exactly once revoked |
| `AccessRules.NeverWritesAgain` | internal/access/store.go:665-678 | a revoked, expired or read-only token writes nowhere, a token of one project nowhere else, whatever is granted |
| `AccessRules.NewTokenWritesExactly` | internal/access/store.go:553-594 | what a new token may write |
| `Limiter.SlidingWindow.constructor` | internal/enrollment/limiter.go:30-33 | an empty limiter |
| `Limiter.SlidingWindow.Recent` | internal/enrollment/limiter.go:41-46 | the in-place filter keeps exactly the events in the window, in order |
| `Limiter.SlidingWindow.Allow` | internal/enrollment/limiter.go:36-63 | for a forward clock it answers as an unbounded log of every allowed event would, records exactly the allowed ones, and no window ever holds more than the limit |
| `Limiter.SlidingWindow.SweepAt` | internal/enrollment/limiter.go:54-61 | the sweep forgets exactly the keys with nothing in the window, and no later answer changes |
| `Limiter.AllowKeepsBounded` | internal/enrollment/limiter.go:47-53 | an allowed event keeps every window, past or future, within the limit |
| `Limiter.AllowedExactly` | internal/enrollment/limiter.go:47-53 | an event is allowed exactly when fewer than the limit of those allowed before are in its window, by count of log entries |
| `Limiter.BoundedExactly` | internal/enrollment/limiter.go:36-63 | what bounded means: no window of that length holds more than the limit of log entries |
| `Budget.StartMonotone` | internal/curate/budget.go:89-110 | calendar windows only move forward, with months and leap years counted |
| `Budget.DayAndWeekStart` | internal/curate/budget.go:89-110 | a day starts at midnight, a week at midnight of its Monday |
| `Budget.MonthlyStart` | internal/curate/budget.go:89-110 | a month starts at midnight of the first of the month that holds now |
| `Budget.YearStarts` | internal/curate/budget.go:89-110 | years start where the Gregorian rule puts them |
| `Budget.UsageExactly` | internal/curate/budget.go:139-190 | a record counts exactly when it is of this host and not before the window |
| `Budget.WindowUsage` | internal/curate/budget.go:139-190 | the loop sums this host's records since the window start |
| `Budget.CheckBudget` | internal/curate/budget.go:192-231 | admits exactly when the projected run fits every capped window |
| `Budget.AdmitsExactly` | internal/curate/budget.go:192-231 | the three caps of each window, written out with the window start and the epoch |
| `Budget.NoCapIsEverExceeded` | internal/curate/curate.go:205-218 | from an empty history no window ever holds more than any cap, written out |
| `Budget.BudgetsAreNeverOverrun` | internal/curate/curate.go:205-218 | after any sequence of gated runs within their projections no capped window is ever over its cap, also across a boundary |
| `Budget.GateIsSafeExactly` | internal/curate/curate.go:205-218 | the gate is safe for a run, whatever the budget and history, exactly when its recorded spend with embeddings is within the projection of its caps |
| `Budget.GateIsSafeWithoutEmbedder` | internal/curate/curate.go:397-414 | under any run caps, the gate is safe for all completions within the projection exactly when the dedup may embed nothing |
| `Refile.NextBatch` | internal/curate/refile.go:154-175 | the rotated, sliced batch and the advanced cursor |
| `Refile.BatchIsEarliest` | internal/curate/refile.go:154-175 | a fact is in the batch exactly when fewer than the batch size precede it from the cursor |
| `Refile.MissingARunShortensTheWait` | internal/curate/refile.go:154-175 | a fact that misses a run waits at least a batch less in the next, whatever has left the pool |
| `Refile.NobodyStarves` | internal/curate/refile.go:246-252 | a fact that stays in the pool is considered within the first runs whose batches could hold the whole pool |
| `Handoff.PlanCompact` | cmd/aimem/handoff.go:162-219 | the plan: with a marker everything below it moves; within the limits nothing; else head, closing section and the rest |
| `Handoff.FillHead` | cmd/aimem/handoff.go:195-199 | the greedy fill of the head |
| `Handoff.FillFits` | cmd/aimem/handoff.go:195-199 | the fill is within both budgets and maximal |
| `Handoff.CutBoundary` | cmd/aimem/handoff.go:225-237 | the cut is before the last heading, else the last blank line, of the head's second half, else where the budget ends |
| `Handoff.SetMoved` | cmd/aimem/handoff.go:241-254 | the moved text and its line range, without the blank lines at either end |
| `Handoff.FirstPickUp` | cmd/aimem/handoff.go:307-314 | the first closing line of the window, never the first line of the file |
| `HandoffExact.PlansExactly` | cmd/aimem/handoff.go:162-189 | the first marker line decides, whatever the limits; without one a file within both limits stays |
| `HandoffExact.CutsExactly` | cmd/aimem/handoff.go:190-237 | a file over a limit: how much head fits, where it is cut, where the closing section starts, what moves and what the current state reads |
| `HandoffExact.InsertsExactly` | cmd/aimem/handoff.go:287-303 | before which line the summary goes |
| `HandoffExact.SummaryIsShort` | cmd/aimem/handoff.go:344-359 | a summary has at most twelve lines and a kilobyte, none blank or a fence, in the order of the answer |
| `HandoffLaws.NoLineIsLost` | cmd/aimem/handoff.go:162-219 | kept and moved text together hold every non-blank line of the file, in order |
| `HandoffLaws.StaysWithinLimits` | cmd/aimem/handoff.go:190-218 | without a marker the current state and the marker line are within both limits less the reserve, when the closing section leaves room |
| `HandoffLaws.CompactAgainMovesNothing` | cmd/aimem/handoff.go:176-182 | compacting the written file again moves nothing, whatever the limits, exactly when no inserted line is the marker line |
| `HandoffProgram.ClipSummary` | cmd/aimem/handoff.go:344-359 | the clipping loop over the backend's text |
| `HandoffProgram.ClipIsMaximal` | cmd/aimem/handoff.go:344-359 | the kept summary lines are a prefix within both bounds that no further line fits |
| `HandoffProgram.SummaryFits` | cmd/aimem/handoff.go:91-109 | a summary clipped to the room left never takes the written file over a limit, also above a marker |
| `HandoffProgram.InsertBeforePickUp` | cmd/aimem/handoff.go:287-303 | the block goes before the closing section, or at the end |
| `HandoffProgram.Workspace.Compact` | cmd/aimem/handoff.go:59-141 | the command's two writes, the archive first: archive and file after a full run, and after one stopped in between |
| `HandoffProgram.Workspace.StopAndRerun` | cmd/aimem/handoff.go:117-138 | a run stopped between the writes and run again leaves what one undisturbed run leaves |
| `HandoffKeeps.WrittenWithinExactly` | cmd/aimem/handoff.go:91-112 | the written file, summary and marker line included, is within both limits exactly when the planned current state with its marker line is |
| `HandoffKeeps.WrittenStaysWithin` | cmd/aimem/handoff.go:190-218 | and so it always is when there was no marker and the closing section leaves room |
| `HandoffKeeps.CompactKeepsAllTexts` | cmd/aimem/handoff.go:111-141 | across both files: the old handoff's texts are, in order, those kept, its marker and those moved; the new handoff is those kept with the summary and the marker; the archive ends with those moved exactly unless it already ended with their characters inside a line |
| `HandoffKeeps.AppendedTexts` | cmd/aimem/handoff.go:123-134 | an appended block follows all texts of the archive and its heading |
| `HandoffKeeps.ArchiveEndsWithMoved` | cmd/aimem/handoff.go:123-134 | the condition on the archive alone, both ways |
| `HandoffKeeps.AgainMovesNothingExactly` | cmd/aimem/handoff.go:176-182 | a plan for the compacted file, whatever its limits, moves nothing exactly when no line of the summary block is the marker line |
| `HandoffKeeps.CompactTwice` | cmd/aimem/handoff.go:59-141 | the command run twice: the second run moves nothing exactly then, and so leaves both files as the first left them |
| `HandoffKeeps.BlockMarkers` | cmd/aimem/handoff.go:344-359 | the block has a marker line exactly when a summary line is one |
| `HandoffKeeps.MarkerSummaryPasses` | cmd/aimem/handoff.go:344-359 | and a backend answer of just that line gets through |
| `HandoffProgram.RerunArchivesOnce` | cmd/aimem/handoff.go:117-134 | the rerun never archives the block twice |
| `HandoffProgram.BlockIsArchivedExactly` | cmd/aimem/handoff.go:119-134 | the moved block stands in the archive as lines of its own exactly unless the archive already ended with its text in the middle of a line |
| `HandoffProgram.SuffixIsNotArchived` | cmd/aimem/handoff.go:123-124 | a history line that ends the archive's last line is dropped |

## Left out

- Cryptography and hashing: a digest is modelled by what it digests, so equal
  digests mean equal inputs; fresh random values are unique; a sealed delivery
  (base mode, section 5.1.1 of RFC 9180) opens only with the key and associated
  data it was sealed with.
- HTTP, TLS, SQLite, JSON, flags, prompts and printed text: replaced by maps,
  sets, and replies that succeed, refuse, or are lost before or after they act.
  Audit text is modelled only in the enrollment ledger.
- The hub's document store: only the compare-and-swap contract its callers rely on
  is modelled, accepting a write exactly when the base revision is current; which
  old revisions it retains is left open.
- Forced actions: `--force` on push and pull, and `Force` in curation.
- A user's edit between one command's read and its write of the same file, and two
  commands of one machine interleaved on one sidecar file.
- DocClient.Client.ReconcileDocsIn: the hub's answers are inputs for each bound
  path, so other machines may act between two fetches, but a stop inside the loop
  appears only in `DocSync`, as a step that does not save the sidecar.
- Enrollment: only redeem runs of one bundle write the hub entry; creating and
  writing the pending file under its lock is one step. The recovery of an empty
  pending file by its age and the file-permission checks are not modelled.
- EnrollProgram.Command.EnrollRedeem: one run, undisturbed by other runs between
  its steps; overlapping runs are in `EnrollSafety`. One clock reading serves all
  of a run's identity checks. Retryable refusals count as lost answers.
- SpoolProgram.Process.ReplaySpool: one process, undisturbed; other processes are in
  `Spool`. Records are not lines of bytes, so blank lines and a claim without a
  final newline do not occur.
- Spool: a claim is read and swept in one step each, except in `SpoolRace`, here and
  for the hubs' spools; a failed read, a full disk and the reuse of process numbers
  are not modelled.
- HubProgram.Process.FlushHubSpool: one process, undisturbed; other processes, and
  deaths in the middle of a flush, are in `HubRouting` and `HubSpools`. A 4xx answer
  other than 401 and 403 counts as delivered, as the source drops the record then.
- IdentityStore.Store.RetireIdentityPeer: the team profiles and grants that it also
  deletes are not modelled.
- IdentityStore.Store.RegisterIdentityPeer: the checks of the service ID, the
  endpoint and the TLS trust are one verdict, given as an input.
- AccessRules.AccessView.WriteTokens: the order by label and the `all` variant are not
  modelled; groups and users are never deleted, as in the source.
- Budget.WindowUsage: USD usage and prices (floating point) are not modelled, nor
  the merge of several projects' histories for a global budget.
- Budget.CheckBudget: no USD caps, hence no refusal of an unpriced run.
- Refile: which facts are candidates, the proposal itself and the filtering of its
  answer are not modelled; a run that fails moves no cursor and is not a run here.
- Handoff: the test for a closing section's first line is a parameter; characters
  stand for bytes, so white space in several bytes is not recognised.
- HandoffProgram.ClipSummary: the repair of invalid UTF-8 in the backend's text is
  not modelled.
- Deduplication of facts, `RefileCandidates`, sync cursors, event ordering, schema
  migrations, operator commands, transcript adapters and introspection checks: mostly
  branch-by-branch validation, or storage this model does not contain.
