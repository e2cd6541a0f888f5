# The sensor's protocols, proved

The sensor (`agent/`) keeps a handful of promises that must survive crashes, restarts,
retries and races: an interrupted update never leaves a host without a working package,
an old signed bundle is never installed again, a client key and its certificate change
together, results are not deleted before they are delivered, and one sensor stays one
sensor. This project models the code behind those promises and proves them for every
input, every interleaving and every history.

| module | what it models |
|---|---|
| `Versions`, `Releases` | dpkg ordering (section 5.6.12 of the Debian Policy Manual), the prerelease rewrite, the version policy |
| `InstallDir`, `InstallerSafety`, `InstallerService`, `InstallerCode` | the journaled symlink swap of `agent/update.py`: the directory as a state machine, what every history keeps, pruning against the running service, and the installer's methods, each disk change a step of the machine |
| `ClientCert` | the certificate store of `agent/mtls.py` and the context in use in `agent/worker.py` |
| `Retention`, `RetentionHistory` | one sweep of `agent/run_retention.py`, and ledger and runs over the life of a sensor, sweeps cut short included |
| `TokenBuckets`, `Upload` | the upload shaper, the multipart stream and the retry loop of `agent/worker.py` |
| `Identity` | the agent id kept in a file |
| `ResultKey`, `Encoding` | the race for the result-signing key, the signed message, the job subject |

Failure model: a process dies between atomic steps; a rename is all or nothing; clocks do
not go backwards. A state machine has one step per change another process or a later start
could observe. Where the source updates an object step by step, a class does the same, and
each of its methods is tied to steps of the machine, so the theorems about histories cover
every state the methods pass through.

## What the proofs found

- Failed attempts do pile up, against the docstring of `recover` (agent/update.py:622-624).
  A recovery can remove a release the journal does not name exactly when there is a release
  to put back (`RecoveryRemovesIff`). An attempt killed between the rename of its staging
  directory and its next journal has none to put back, on a plain and on an adopted host, and n
  such attempts leave n releases (`KilledAttemptLeavesRelease`, `AttemptsPileUp`); an attempt
  on a plain directory killed after its journal keeps its release too
  (`PlainAttemptLeavesRelease`). The next update that is kept prunes them.
- Pruning can remove the tree the service runs. It never does over histories that keep two
  rules (`PruningIsSafe`): an install begins with the service on the live tree or stopped, and
  a rollback without a restart hook ends with the service off the release taken out. Each rule
  is exact: its step is safe, whatever disciplined history follows, if and only if the rule
  holds there (`BeginDecides`, `HookDecides`). `main` does not see to the first: the service
  strays when a restart hook fails after a rollback, since the journal is gone by then and the
  next `main` finds nothing to recover (`FailedHookStrays`, reachable from every fresh host by
  `StrayIsReachable`); when the restart a recovery asked for did not happen
  (`RecoveryStrays`, agent/update.py:1217-1231); and, without systemd, when an update is kept
  that nobody restarted it for (`KeptUpdateStrays`). An install over a stray service then
  removes its tree, kept or rolled back (`InstallOverStrayService`). A service started by hand
  on a release under trial loses it to a rollback without a hook (`HooklessRollbackRemoves`).
  When one pass of `main` keeps the service's tree whole is in the contract of `Update`.
- A certificate can be presented past its end. `ssl_context` raises for a pair that cannot be
  read, and for a mounted pair that does not load; the old context then stays in use while the
  object already believes it presents nothing, so nothing asks for its replacement at its end
  (`OutlivesItsEnd`, `PassesOverMismatch`). Over any passes none of which finds such a pair,
  with refusals and rotations of the files in between, it never is (`Passes`).
- Staging a key while another enrolment's certificate is still staged breaks the pair, so
  the repair at start is needed before any install. `StageKeyNeedsRepair`.
- A 429 does spend one of the retries left for 5xx answers and network errors, whatever
  the comment at agent/worker.py:732-734 says. `EveryAnswerSpendsARetry`. With
  `Retry-After: 0` for ever the loop does not end. `ZeroDelaysNeverEnd`.
- A newline in a field lets two uploads sign the same message. `NewlinesConfuse`.
- Each other-tenant refusal can cost one more registered id, and beyond the first no id is
  registered without one. `OneIdPerTenant`, `RefusalsCostIds`.

## Model

| member | source | states |
|---|---|---|
| `Versions.LexTransitive` | agent/update.py:300-327 | lexicographic comparison of zero-padded keys is transitive, and strict when either step is |
| `Versions.LexAntisymmetric` | agent/update.py:300-327 | swapping the keys flips the sign |
| `Versions.OrderOfCharacters` | agent/update.py:288-297 | tilde sorts below the end of a text, the end below letters, letters below all else, each in code order |
| `Versions.NumberDecides` | agent/update.py:312-326 | where both texts are at a number, the numbers decide, then what follows them |
| `Versions.TextDecides` | agent/update.py:305-311 | where either text is at a non-digit, the character orders decide, then what follows |
| `Versions.Verrevcmp` | agent/update.py:300-327 | the character loop terminates on every pair of strings and returns the lexicographic comparison of their canonical keys |
| `Versions.CompareRound` | agent/update.py:303-326 | one round of the outer loop gives the verdict of the keys, or advances and leaves their comparison unchanged |
| `Versions.CompareText` | agent/update.py:305-311 | the non-digit loop stops at the verdict of the keys, or with both texts at a number and the comparison unchanged |
| `Versions.CompareNumbers` | agent/update.py:312-326 | zero skipping, first difference and longer-run rule together give the sign of the numeric difference, and both indices stand behind the numbers |
| `Versions.CommonDigits` | agent/update.py:316-326 | of two numbers without leading zeros, the one with digits left is larger; with equally many the first difference has the sign of the difference |
| `Releases.CompareVersionsByLoop` | agent/update.py:272-337 | splitting, epoch, upstream and revision compared in that order by the loop is the comparison of the parsed parts, with the same refusals |
| `Releases.SplitReadsBack` | agent/update.py:272-285 | a version written as [epoch:]upstream[-revision] splits into exactly those parts, a missing epoch being 0 and the last dash starting the revision; only a number before the first colon is an epoch |
| `Releases.SplitRefuses` | agent/update.py:272-285 | blank text, an epoch with nothing behind it and an empty upstream are refused, each for its reason |
| `Releases.OnlyAsciiParses` | agent/update.py:330-337 | a version with a character beyond ASCII is refused before it is split |
| `Releases.StripsBlanks` | agent/update.py:273 | white space around a version is taken off, and nothing else |
| `Releases.PartsDecideInOrder` | agent/update.py:330-337 | the smaller epoch decides whatever follows; with equal epochs unequal upstreams decide; with equal upstreams the revisions do |
| `Releases.UpstreamsDecide` | agent/update.py:330-337 | what two bare upstreams compare as, if unequal, is the answer whatever revisions follow |
| `Releases.VersionsPreorder` | agent/update.py:330-337 | on parsable versions the comparison is reflexive, sign-antisymmetric, transitive, and strict when a step is |
| `Releases.NewerIsStrictOrder` | agent/update.py:347-357 | being a newer release is irreflexive, asymmetric and transitive, for all strings |
| `Releases.TildeBelow` | agent/update.py:300-327 | appending a tilde and anything sorts below the text itself |
| `Releases.KeyOfConcat` | agent/update.py:300-327 | text that starts with a non-digit appended to a part appends its key |
| `Releases.SplitAppend` | agent/update.py:272-285 | a tilde suffix on a parsable version that ends in a digit changes its last part only |
| `Releases.TildeOfTag` | agent/update.py:343-357 | base-stageN is rewritten to base~stageN, for each stage and number |
| `Releases.OnlyTagsAreRewritten` | agent/update.py:343-357 | whatever the prerelease rewrite changes is a base that ends in a digit, a stage and a number |
| `Releases.PrereleaseOrder` | agent/update.py:343-357 | alpha below beta below rc below the base; within a stage the numbers compare numerically |
| `Releases.PrereleaseMeetsItsFloor` | agent/update.py:347-357 | judged as a floor is, a prerelease of a required release is above it |
| `Releases.FloorsHold` | agent/update.py:379-391 | an installed bundle can be ordered against every floor that is not blank, and is not below one |
| `Releases.MetFloorsInstall` | agent/update.py:360-391 | what is newer and not below any floor is installed |
| `InstallDir.FreshName` | agent/update.py:733-755 | every version a manifest may carry gives a name the release pattern accepts |
| `InstallDir.LegacyName` | agent/update.py:708-731 | whatever version the adopted tree states, its name is one the release pattern accepts |
| `InstallDir.NamesDiffer` | agent/update.py:708-755 | a staged release never takes the name of a staging directory, of an adopted tree, or of a release with another token |
| `InstallDir.ReleaseNameIsSafe` | agent/update.py:131-131 | no release name holds a slash or is a dot name, and each is 10 to 80 characters long |
| `InstallDir.OnlyWholeReleasesGoBack` | agent/update.py:569-660 | on any directory, recover links back only a whole tree under a release name |
| `InstallDir.TamperedIsRefused` | agent/update.py:569-660 | on any directory, a journal or a link that names no release path, or a journal whose release is not whole, is refused |
| `InstallerSafety.PolicyMeansNewer` | agent/update.py:360-391 | the policy installs exactly what is strictly newer than the live version and not below a floor, and says nothing-to-do exactly for equal versions |
| `InstallerSafety.StepKeepsInv` | agent/update.py:613-844 | every atomic step of recover, install, commit, removal and crash keeps the invariant of directory, journal and history |
| `InstallerSafety.CrashSafety` | agent/update.py:569-660 | in every reachable state `agent` is a plain tree, a link to a whole release, or missing with the journal naming a whole tree; recover meets none of its errors |
| `InstallerSafety.RecoverDecides` | agent/update.py:613-660 | what recover does from every reachable journal: leave the plain tree, or put back the tree last kept, and when it asks for a restart |
| `InstallerSafety.CommitDecides` | agent/update.py:815-831 | in every reachable state commit keeps the pending release exactly when the journal names one and `agent` is on it, and refuses any other journal |
| `InstallerSafety.RecoverFinishes` | agent/update.py:613-660 | from every reachable idle state recover has a run that ends without a journal and with the tree last kept live |
| `InstallerSafety.NoVerdictNoKeep` | agent/update.py:757-831 | in every reachable state without a journal the live tree is the one kept last |
| `InstallerSafety.OnlyVerdictsKeep` | agent/update.py:785-831 | only a passed health check or a commit adds to what is kept, and it adds the tree then live |
| `InstallerSafety.ExactRollback` | agent/update.py:613-672 | after an install without a verdict and any number of interrupted recoveries, the journal gone, live is exactly the tree that was live before |
| `InstallerSafety.RestartStillAsked` | agent/update.py:613-660 | recovery of a swapped-in release asks for the restart from every state it may be interrupted in, until its last step clears the journal |
| `InstallerSafety.DoomedIsSpare` | agent/update.py:833-844 | nothing a removal may touch is live or named by the journal |
| `InstallerSafety.NoDowngrade` | agent/update.py:347-391 | over every history each kept release is strictly newer than every one kept before it |
| `InstallerSafety.ReplayRefused` | agent/update.py:1217-1271 | a bundle no newer than anything ever kept on this host is not staged, whatever the floors |
| `InstallerService.StepKeepsService` | agent/update.py:785-844 | where an install begins with the service on the live tree, and an undo without a hook with the service off the release taken out, every step keeps the service on a whole tree that the updater's position accounts for |
| `InstallerService.PruningIsSafe` | agent/update.py:833-844 | over every history that keeps that discipline no removal touches the live tree, a tree the journal names, or the tree the service runs |
| `InstallerService.BeginDecides` | agent/update.py:757-813 | the first rule is exact: on an adopted host beginning an install is safe for every disciplined continuation if and only if the service is on the live tree or stopped |
| `InstallerService.HookDecides` | agent/update.py:789-806 | the second rule is exact: ending a rollback without a hook is safe for every disciplined continuation if and only if the service is off the release taken out |
| `InstallerService.HooklessRollbackRemoves` | agent/update.py:785-806 | from every swap, a service started on the new release loses its tree to a rollback without a hook |
| `InstallerService.FailedHookStrays` | agent/update.py:789-810 | from every swap a disciplined history ends quiet with the service on the release taken out, when the restart after the rollback fails |
| `InstallerService.KeptUpdateStrays` | agent/update.py:785-813 | from every swap a kept update that did not restart the service leaves it on the previous release |
| `InstallerService.RecoveryStrays` | agent/update.py:1217-1231 | a recovery that took out the release the service runs, without the restart it asks for, leaves the service off the live tree with no journal |
| `InstallerService.StrayIsReachable` | agent/update.py:757-813 | from every fresh host a disciplined history leads to a service off the live tree with nothing pending |
| `InstallerService.PruneLeavesTwo` | agent/update.py:833-844 | a prune that removed all it may leaves at most two releases |
| `InstallerService.RecoveryRemovesIff` | agent/update.py:613-660 | a whole release the journal does not name can be removed by recoveries, however interrupted, if and only if there is a release to put back |
| `InstallerService.KilledAttemptLeavesRelease` | agent/update.py:757-780 | an attempt killed after its rename and before the next journal leaves the directory as it was plus one whole release, and nothing to recover |
| `InstallerService.AttemptsPileUp` | agent/update.py:613-660 | any number n of such attempts leaves n releases more, and still nothing to recover |
| `InstallerService.InstallOverStrayService` | agent/update.py:757-844 | an install over a stray service, kept or rolled back with a failing hook, removes the tree it runs, with no other step out of discipline |
| `InstallerService.UndoDooms` | agent/update.py:789-806 | wherever the service is: a rollback without a hook dooms its tree unless it is the one put back, with a failed hook unless it is one of the two swapped, after a restart never |
| `InstallerService.PlainAttemptLeavesRelease` | agent/update.py:635-641 | an attempt on a plain directory that dies after its journal and before its move, once recovered, leaves the directory as it was plus one whole release |
| `InstallerCode.Installer.Prune` | agent/update.py:833-844 | what remains is what is kept, is no release or staging directory, or could not be removed; at most two releases if removals succeed |
| `InstallerCode.Installer.Recover` | agent/update.py:613-660 | from every state a history can leave it ends with no journal and the tree last kept live, prunes exactly when there is a release to put back, and answers whether a restart is due |
| `InstallerCode.Installer.CommitPending` | agent/update.py:815-831 | exactly where the journal names a release that `agent` is on, it answers that release, keeps its tree and leaves at most two releases; without a journal it answers none; else it refuses, changing nothing |
| `InstallerCode.Installer.TryOut` | agent/update.py:757-831 | a pending install and its verdict: committed, the answer is the installed release and the signed tree is kept; aborted, the tree kept before is live again and the restart asked for |
| `InstallerCode.LargerNumbersInstall` | agent/update.py:360-391 | a fresh host with a plain version number takes any bundle with a larger one |
| `InstallerCode.Installer.AdoptLive` | agent/update.py:708-731 | the live tree is unchanged, linked under a release name, and every other release is as before |
| `InstallerCode.Installer.Stage` | agent/update.py:733-755 | a new whole release exactly when the unpacked tree is the signed one; otherwise the directory is as before |
| `InstallerCode.Installer.Undo` | agent/update.py:789-810 | the previous release is live, the journal gone, nothing recorded as kept, and at most two releases remain if removals succeed |
| `InstallerCode.Installer.InstallBundle` | agent/update.py:757-813 | recovers first; refused or rolled back leaves exactly the tree last kept; judged well is kept; pending is live with the old tree named in the journal; at most two releases remain after a verdict if removals succeed |
| `InstallerCode.Installer.Update` | agent/update.py:1217-1271 | recovery, restart, policy and install in that order, from any state: only a strictly newer bundle is attempted, unless one goes live the tree last kept is live without a journal, and the service's tree stays whole unless it was off the live tree with no restart asked for, or the restart asked for is left to be done by hand |
| `InstallerCode.Installer.Offer` | agent/update.py:1235-1271 | the policy decides on the signed version against the live one, and only what it admits is installed |
| `ClientCert.StepOfStore` | agent/mtls.py:325-389 | staging the certificate is the one step of install or repair that changes what the files stand for; a discard takes certificate, key and metadata in that order |
| `ClientCert.PairReplacesAsOne` | agent/mtls.py:325-389 | over every sequence of repairs, installs and discards cut short anywhere the files stand wholly for the initial pair, wholly for the latest enrolment, or for what a discard left, and are exactly that after whatever completes |
| `ClientCert.NeverMismatchedAgain` | agent/mtls.py:202-244 | once no mismatched pair is there none ever is again, nothing is discarded, and the files stand for the initial set or an enrolment of the history |
| `ClientCert.DropLeavesNoPair` | agent/mtls.py:386-389 | from its first step on a discard has left no pair |
| `ClientCert.RepairCompletes` | agent/mtls.py:374-384 | a repair that is not interrupted always ends with what the files stood for installed |
| `ClientCert.StageKeyNeedsRepair` | agent/mtls.py:325-363 | staging a key keeps the pair invariant exactly when no other enrolment's certificate is staged |
| `ClientCert.ClientCertificate.InstallPair` | agent/mtls.py:325-372 | passes through exactly the machine's states, ends with the new pair in place and nothing staged, and clears the retry delay |
| `ClientCert.ClientCertificate.FinishInterruptedInstall` | agent/mtls.py:374-384 | completes the staged enrolment or drops the leftovers, through the machine's states |
| `ClientCert.ClientCertificate.Discard` | agent/mtls.py:386-389 | passes through exactly the machine's states, and from its first step on there is no pair to present |
| `ClientCert.ClientCertificate.SslContext` | agent/mtls.py:202-244 | passes through exactly the states of a repair and then of a discard; raises exactly for a pair it would present that cannot be read, or that is somebody else's and does not load; otherwise presents a matching pair that does not run out within the margin exactly when there is one, and drops a pair of its own that does not load |
| `ClientCert.AgentClient.Reload` | agent/worker.py:609-616 | the context in use changes exactly when a new one was built; a reload that raises keeps it while the object believes nothing is presented |
| `ClientCert.AgentClient.Maintain` | agent/worker.py:2018-2043 | each pass is a turn of the timing model: a reload exactly when the files differ from those loaded or the certificate runs out, raising exactly when the pair is blocked; with a lasting, unforced pair an attempt exactly when enrolling, past the delay and at or past the recorded renewal time, or with none recorded; a pass past the delay that asks for nothing has a usable certificate, an answered one ends with the new pair |
| `ClientCert.AgentClient.Enrol` | agent/worker.py:618-654 | an answered enrolment ends with the new pair in use; one refused, or whose reload raises, keeps the context in use and sets the retry delay |
| `ClientCert.AgentClient.Passes` | agent/worker.py:2018-2043 | over any number of passes, with refusals and any rotation of mounted files in between: if none finds a pair that cannot be read or is somebody else's and mismatched, the certificate in use is short of its known end for a margin after the last look; and every attempt starts at least the retry delay after the last failed one |
| `ClientCert.AgentClient.PassesOverMismatch` | agent/worker.py:2018-2043 | over a mounted pair that does not load, any number of passes a minute apart keep presenting the old certificate |
| `ClientCert.ClientCertificate.AfterRefusal` | agent/worker.py:510-527 | the next poll enrols exactly when the retry delay is over, after at most the poll interval and five seconds, else the wait is the retry delay; an enrolment is due once the wait is over |
| `ClientCert.EnrolmentIsPaced` | agent/mtls.py:287-321 | over every sequence of passes an attempt starts at least the retry delay after the last failed one |
| `ClientCert.NeverPresentedPastItsEnd` | agent/mtls.py:195-277 | over every history of the timing model with passes at most the margin apart, the certificate the context in use presents is short of its known end, unless the last reload asked for raised |
| `ClientCert.OutlivesItsEnd` | agent/mtls.py:202-277 | that condition is needed: from every state, passes a minute apart whose reloads raise take the certificate in use past its known end |
| `Retention.Sweep` | agent/run_retention.py:167-232 | removed and surviving runs partition the listing; the first pass takes exactly the due runs; the size pass takes the oldest removable ones, only while over budget, and ends within it or with none removable |
| `Retention.RemoveDue` | agent/run_retention.py:194-210 | the first pass splits the listing into the due runs whose removal works and the rest |
| `Retention.RemoveOverBudget` | agent/run_retention.py:212-221 | removes only while over budget, never a run that may not go, and stops within budget or at the end |
| `Retention.ByMtime` | agent/run_retention.py:212-214 | the order of the size pass: sorted by modification and a permutation |
| `Retention.ProtectedRunsStay` | agent/run_retention.py:167-221 | no sweep removes an active run, the run `latest_run.json` names or, without it, the only newest run, or a run owed for less than 3600 s; in a shared store only ledger runs go |
| `Retention.YoungRunsStay` | agent/run_retention.py:194-221 | in a store within its budget a run no older than the retention, or any run without one, is removed only when the ledger calls it delivered |
| `Retention.DueRunsGo` | agent/run_retention.py:194-210 | a run no rule holds back that is delivered, or older than a retention that is set, goes in the first pass unless its removal fails |
| `Retention.OverTheLimitAllAreHeld` | agent/run_retention.py:212-231 | where a store stays over its limit each run left is active, the baseline, owed, another's in a shared store, or its removal failed |
| `Retention.RemovedWereTried` | agent/run_retention.py:194-221 | what a sweep removes was due, or removable in a store over its budget |
| `Retention.OnlyRemovableAreTried` | agent/run_retention.py:194-221 | what a removal may be tried on is not protected, and delivered if young in a store within its budget |
| `RetentionHistory.EventKeepsInv` | agent/run_retention.py:124-165 | through every event, sweeps cut short at any point included: delivered in the ledger implies an upload that returned, and no debt of a run on disk is forgotten |
| `RetentionHistory.RetentionSafety` | agent/run_retention.py:124-232 | after any history of jobs, uploads, restarts and sweeps, complete or killed at any point, with removals that fail part-way, a run is lost or damaged only by its own new scan or by a sweep, and then is neither active nor the baseline nor owed for less than an hour, and if young and within budget its upload returned |
| `RetentionHistory.EveryMomentIsACut` | agent/run_retention.py:284-304 | every moment between two removals of a sweep, its ledger entry dropped or not yet, is a cut the histories contain |
| `RetentionHistory.LedgerFollowsRuns` | agent/run_retention.py:336-351 | after a sweep the ledger speaks only of survivors and active runs, and says of them what it said before |
| `RetentionHistory.RunRetention.SweepNow` | agent/run_retention.py:155-232 | a sweep is one event of the history, and the ledger ends within survivors plus active |
| `RetentionHistory.RunRetention.SendArchive` | agent/worker.py:1351-1458 | a cancelled scan is marked owed before its upload, an archive delivered only after the upload returned |
| `RetentionHistory.RunRetention.ExecuteJob` | agent/worker.py:1351-1458 | a whole job is a history of the machine, holds its run out of every sweep, and leaves it marked by how its upload ended |
| `TokenBuckets.TakenIsBounded` | agent/worker.py:279-298 | no more is taken than the bucket held plus the rate times the time passed |
| `TokenBuckets.WindowBound` | agent/worker.py:279-298 | over any window of any history at most one bucketful plus rate times the window is taken |
| `TokenBuckets.TokenBucket.constructor` | agent/worker.py:261-274 | a bucket of kbps * 1024 bytes per second, one second's worth full, or none |
| `TokenBuckets.TokenBucket.Consume` | agent/worker.py:279-298 | takes exactly what was asked, also beyond the bucket's size, in at most count / rate + 2 rounds and sleeping no longer than the rate takes for it; does nothing when disabled |
| `Upload.ReadRefines` | agent/worker.py:342-369 | a read hands out the next bytes of prefix, archive and suffix, and nothing only at the end; the handle stays in step with the offset |
| `Upload.ReadFits` | agent/worker.py:356-369 | no read hands out more than was asked for, nor more than a chunk |
| `Upload.StreamRefines` | agent/worker.py:301-369 | for every sequence of non-zero reads, closes and resets, the bytes since the last reset are a prefix of the content, and all of it exactly when the next read is empty |
| `Upload.AnnouncedLength` | agent/worker.py:330-331 | the announced length is the length sent exactly when the archive did not shrink |
| `Upload.ThrottledBody.ReadSome` | agent/worker.py:356-369 | a paced read extends what was sent by its chunk and never changes the content |
| `Upload.ThrottledBody.Rewind` | agent/worker.py:333-340 | after a reset the same content is sent again from its beginning |
| `Upload.ThrottledBody.Drain` | agent/worker.py:342-369 | reading until nothing comes yields the whole content |
| `Upload.Send` | agent/worker.py:736-745 | an attempt sends from the beginning, whatever was sent before, all of the content or a prefix of it |
| `Upload.RetryBudget` | agent/worker.py:732-826 | for all answers at most the rate-limit wait is slept on 429s and 0.5 * (2^max_retries - 1) on the rest, with at most max_retries of the latter retries |
| `Upload.AnswerDecides` | agent/worker.py:757-826 | after n answers a 429 waits what it asks, else 0.5 * 2^min(n, 6), while that fits its budget; a 5xx or network error waits 0.5 * 2^n while n < max_retries; any other answer is the last |
| `Upload.BackoffsAddUp` | agent/worker.py:775-778 | the bound on the second budget is reached: n refused attempts sleep 0.5 * (2^n - 1) |
| `Upload.EveryAnswerSpendsARetry` | agent/worker.py:732-826 | after n answers of any kind a 5xx or network error is retried exactly when n < max_retries |
| `Upload.ZeroDelaysNeverEnd` | agent/worker.py:766-774 | after any number of 429s with a zero delay the loop still goes on |
| `Upload.Request` | agent/worker.py:709-826 | every attempt sends the same content from its beginning; every answer but the last is a 429, a 5xx or a network error, so nothing is sent again after an answer of another kind; with a positive lower bound on the delays asked for the loop ends, within both budgets and a computed number of attempts |
| `Identity.StepKeepsInv` | agent/worker.py:1966-2010 | every exchange, registration, expiry, crash and start keeps memory and file in agreement and the count of registered ids within refusals plus one |
| `Identity.RegistersTheSavedId` | agent/worker.py:2052-2081 | after any history a registration is sent under the id then in the file |
| `Identity.OneIdPerTenant` | agent/worker.py:1966-2081 | over any history at most one id more than other-tenant refusals is registered, so without one always the same |
| `Identity.RefusalsCostIds` | agent/worker.py:1972-1989 | the bound is reached for every n: with n refusals any n + 1 ids are registered in turn |
| `Identity.DifferentIdsCount` | agent/worker.py:1966-2081 | registrations under ids that all differ are as many identities, so n + 1 of them for n refusals |
| `Identity.NamelessExchange` | agent/worker.py:1990-2010 | an exchange that names no agent lets a registration go out under no id |
| `Identity.RunLoop.SaveAgentId` | agent/worker.py:1783-1806 | a save that fails before its rename leaves the old id, one that fails after it the new one |
| `Identity.RunLoop.AskForToken` | agent/worker.py:1966-2010 | the exchange as the machine has it: the id is saved before the token is taken, a failed save leaves the refresh due, and one granted for the saved id clears it |
| `Identity.RunLoop.SendRegistration` | agent/worker.py:2052-2081 | the registration goes out under the loop's id, counts only when answered, and the answer is the id from then on |
| `Identity.RunLoop.Turn` | agent/worker.py:2123-2137 | one turn registers nothing past a failed exchange, and only under the id in the file |
| `ResultKey.StepKeepsInv` | agent/result_signing.py:92-127 | every step of any process keeps: a key in hand is the one in the file, at most one retry, no stray temporary file; and a file once there never changes |
| `ResultKey.ReadYieldsTheKey` | agent/result_signing.py:97-103 | a read of a file that holds a key yields that key, of one that holds none an error, and without a file a key is generated |
| `ResultKey.OneKeyForAll` | agent/result_signing.py:92-127 | for every interleaving of any number of processes all that return hold the same key, the one in the file; no call retries more than once, and none that ended leaves a temporary file |
| `ResultKey.KeyFile.LoadOrCreate` | agent/result_signing.py:92-127 | with others acting between any two steps and any step raising: a key is returned only when it is the one in the file, a file there never changes, at most one retry, and where nothing raises only a file that is no key gives an error |
| `Encoding.PiecesOfJoin` | agent/result_signing.py:48-58 | splitting undoes joining exactly when no line holds the separator |
| `Encoding.MessageRoundTrip` | agent/result_signing.py:39-58 | the signed message reads back to the upload, a missing run id as the empty one, exactly when no field holds a newline |
| `Encoding.MessagesTellApart` | agent/result_signing.py:39-58 | an upload signs the message of a newline-free one exactly when agent, job, exit, attempt and digest are equal and the run is too, none being the empty one |
| `Encoding.NewlinesConfuse` | agent/result_signing.py:39-58 | a family of pairs of uploads that differ in agent and job and sign the same message, all with a newline in a field |
| `Encoding.TokensTellApart` | agent/worker.py:126-134 | the subject token is injective on non-empty values whose hashes do not collide |
| `Encoding.PlainNamesAreVerbatim` | agent/worker.py:126-148 | tenants and groups that are tokens and do not look hashed stand in the subject as they are, an unnamed tenant as default |
| `Encoding.SubjectsTellApart` | agent/worker.py:126-148 | two jobs share a subject exactly when tenant (an unnamed one is the default) and group (an empty one is none) are the same |

## Assumptions

- A release path `releases/<name>/agent` is represented by its name; a package tree by its
  version and the identity of its bytes, so a tree that passed the signed digest is the
  signed one. Random tokens and staging directory names do not repeat existing names.
  `update_lock` admits one updater at a time.
- A key, certificate or metadata file is represented by the enrolment it came from; a key
  and a certificate load together when they came from the same one, and the modification
  stamp of a file tells two enrolments apart. The process that installs is the one whose
  `ssl_context` repaired at start.
- Time, token counts and delays are real numbers, not floating point.
- One worker process uses a run store's ledger at a time; its writes succeed.
- Versions are free of newlines (the prerelease pattern does not match across them), and
  floors are stripped of ASCII white space only.
- An exchange that presents an id answers for that id, and a registration answers the id it
  was sent under; ids are ones the API issues (printable, without spaces).
- The removal of a temporary key file, whose errors are suppressed, succeeds.
- Hashes do not collide on the values compared; UTF-8 encoding is injective and is left out
  of the message.

## Left out

- The failed-release record (`_remember_failed`, `failed_before`): it only spares `--auto` a retry and nothing else reads it.
- Manifest signatures, archive digests, extraction and the import check: a staged tree either is the signed one or is refused.
- systemd, the health check's own polling, argument parsing, exit codes and logging of `agent/update.py`.
- InstallBundle: I/O errors between its steps are steps of the machine (`AdoptFail`, `Fail`, `StageFail`) and covered by the history theorems, not branches of the method.
- An unreadable journal or a release directory replaced by a symlink from outside.
- SslContext: a certificate file replaced by someone else while it is being read.
- InstallPair: I/O errors that do not kill the process; a failed move there relies on discarding the pair and enrolling again.
- Cryptography, X.509 and TLS themselves.
- Sweep: measuring directories and the state directory lookup are inputs; the files a removal also drops from the scanner's state are not modelled.
- Request: headers, and a body given as bytes, which is sent whole each time; classification of refusals (disabled, upgrade required, certificate refused) is the one answer `OtherError`.
- ReadSome: a read of size zero, which the upload never asks for.
- `OCTO_AGENT_ID` and the legacy shared token, which do not use the id file for a registration; refusal to start on an unusable id file.
- LoadOrCreate: writing the temporary file is one step, since no other process sees it.
- `jobs_consumer_name`: its separator is also a legal token character, so it is not injective.
- NATS, HTTP and thread plumbing, egress and observability, and the server side (`api/`).
