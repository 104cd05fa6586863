# deploy-bot: verification model

A model of deploy-bot and machine-checked proofs about it. deploy-bot turns a request in Slack,
or an image pushed to ECR, into a pull request on a gitops repository, has it approved, merges it
and records how it ended. Around this it delivers events to many workers through Redis streams,
discovers apps in repositories, caches image tags, purges history and warns about conflicts.

`dafny verify dfyconfig.toml` checks everything. Every module has one subject:

- `Lifecycle` states what each handler does to locks, pending rows, pull requests and history, as
  one step of a state machine; what GitHub, Slack and the identity lookups answer is part of the
  step. `Clients`, `Bot` and `Sweeper` are the handlers call by call, each proved to make exactly
  its step. `MergeAttempts` and `LifecycleEffects` say what the steps do, told from the state and
  the replies alone. `SingleFlight` holds the invariant of all runs; `LifecycleResults`,
  `LifecycleOutcomes`, `LifecycleAudit` and `LockLifetime` hold what follows from it.
- `EventQueue`, `EventQueueProofs`, `EventQueueOnce`, `EventQueueOrder` and `EventQueueProgress`:
  consumer groups, workers, crashes, reclaiming and acks, one store call or handler invocation per
  step; what is handled how often, in which order, and that nothing gets stuck. `ThreadSlot`: the
  claim protocol for Slack threads.
- `TagRewrite`, `MetaJson`, `PullRequest`, `Sanitize`: the rewrite of the kustomization file, the
  metadata hidden in the body of a pull request, branch names.
- `RepoConfig`, `RepoNaming`, `RepoParse`, `Discovery`: from a repository's config file to the
  registered apps.
- `Buffer`, `EcrCache`, `Retention`, `ConflictTracker`: helpers that keep state over whole runs.
- `Strings`, `Wrappers`: string operations of Go's library, option and result types.

## What holds, and under which assumptions

*Single flight.* README.md:46 of deploy-bot promises that only one deploy of an app is in flight.
The code keeps this promise as long as no lock lapses before its deploy ends; the model proves it
for every such run, proves that passing time keeps the invariant exactly when no lock lapses, and
that a lapsed lock always admits a second deploy. By default it does lapse: locks are taken for 5
minutes, deploys wait for 2 hours (internal/config/config.go:1007-1029). `ReleaseLock` does not look
at the holder, so the damage spreads: ending one of the two deploys takes the other's lock. Single
flight holds without the hypothesis exactly for a lock TTL of zero or less, which the configuration
accepts.

Further assumptions: a handler runs as one step, at one time of one clock; calls to the store and
`ClosePR` succeed; a merge that reports an error did not merge; Slack users have an ID; pull requests
are not reopened, and nobody but the bot puts its labels on one; there is one gitops repository; no
auto-deploy is cut off between two attempts to merge, for then its clean-up fails and its lock stays
until it lapses (the model shows that an image push keeps the invariant exactly when this does not
happen). Labelling, posting to Slack, merging and rebasing may fail at any time.

*Delivery.* README.md:73 of deploy-bot speaks of exactly-once processing. The code delivers at
least once: an entry that is acked was handled or cannot be decoded, and a second handling needs a
claim of an entry that was idle for a minute. The model states exactly which claims let an entry be
handled twice, proves that runs without them handle it at most once, and gives a run with one. From
every state any one worker can go on so that any given entry is served.
Streams are assumed to stay below the length at which Redis trims them, and a consumer group that is
lost is assumed not to be created anew, which would deliver every entry again. The buffer in front
assumes that an enqueue that reports an error has not appended the event.

*Threads.* Store calls succeed, and the slot does not lapse, nor its owner die, between the claim
and the replacement of the placeholder. `getThreadTS` can return the placeholder itself; the model
gives such a run and states exactly when it does.

*Branch names.* `BranchName` is meant to make any tag safe for a git branch name
(internal/sanitize/sanitize.go:25-27). A tag such as `v1.lock` is accepted and left as it is, and git
refuses a name that ends in `.lock` (git-check-ref-format(1)); the model states exactly which
accepted tags this concerns.

*Names.* Apps are told apart by `app-environment`. With a hyphen in the environment two apps can share
that name, and then only the first is registered; without one the name determines the app.

*Metadata.* The round trip of the metadata holds for any reason text but needs names without `<`.
What is read otherwise is stated for flat objects of strings with exact key names, which is what the
bot prints, with a counterexample to the unconditional claim.

*Tag cache.* The registry only gains tags, and answers truthfully when it answers.

## Model

| member | source | states |
|---|---|---|
| SingleFlight.StepKeepsInv | internal/bot/actions.go:129-743 | every admissible step of every handler keeps the invariant: rows hold their own locks under distinct keys, each lock has a row, each open labelled pull request has a row, history entries are settled and at most one per pull request |
| SingleFlight.RunKeepsInv | internal/sweeper/sweeper.go:132-386 | so does every admissible run of steps |
| SingleFlight.SingleFlightOnEveryRun | README.md:46-46 | at every point of every run in which no lock lapses early, the lock of an environment and app is held exactly when there is exactly one pending row for it |
| SingleFlight.TickKeepsInvIff | internal/store/store.go:578-590 | passing time keeps the invariant if and only if no lock of a pending deploy lapses |
| SingleFlight.ReconcileIsIdle | internal/sweeper/sweeper.go:158-209 | in such a run ReconcileFromGitHub changes nothing |
| SingleFlight.AutoDeployKeepsInv | internal/bot/ecr.go:116-214 | an auto-deploy that is not cut off comes and goes within one step: locks and rows are as before and its pull request is not open any more |
| SingleFlight.PushKeepsInvIff | internal/bot/ecr.go:28-214 | an image push keeps the invariant exactly when its auto-deploy, if there is one, is not cut off between two attempts to merge; else its lock belongs to no deploy |
| SingleFlight.ApproveKeepsInv | internal/bot/actions.go:129-318 | all exits of an approval keep the invariant |
| SingleFlight.ExpireAllKeepsInv | internal/sweeper/sweeper.go:315-376 | so does the expiry of any rows in any order |
| SingleFlight.RecoverAllKeepsInv | internal/sweeper/sweeper.go:276-301 | so does the recovery of stuck rows, for any replies to the merges |
| LifecycleResults.LockKeyIsInjective | internal/store/store.go:570-572 | two deploys share a lock only if they are of the same environment and app, for environment names without slashes |
| LifecycleResults.StepEvolves | internal/bot/actions.go:397-743 | a step changes nothing but state and message handle of the rows that stay, adds at most the row of its own request, only extends history and never alters a printed body |
| LifecycleResults.RunKeepsHistory | internal/store/store.go:437-460 | history is append-only over runs |
| LifecycleResults.EndedStaysEnded | internal/bot/actions.go:304-311 | once a pull request has an ending it keeps exactly that one over every further run, is not open and has no row; an approved ending names the SHA that the merge call answered |
| LifecycleResults.EveryReleaseIsOwn | internal/store/store.go:602-604 | a lock that a step takes away is the one that a deploy ended by this step had taken itself |
| LifecycleResults.NoLapseIff | internal/config/config.go:1020-1029 | when time passes no lock lapses exactly if every pending deploy is within the TTL of its lock |
| LifecycleResults.LapsedLockAdmitsSecond | internal/store/store.go:578-590 | whenever the lock of a pending deploy has lapsed, a second deploy of the same app is let in beside it |
| LifecycleResults.LapseTakesOthersLock | internal/store/store.go:602-604 | and it does not end there: when the first of the two is rejected, the lock that goes is the one that the second took and still needs, and a third deploy is let in |
| LifecycleResults.WaitingLosesLock | internal/store/store.go:578-590 | a deploy that is undecided for as long as its lock was taken for is pending without a lock |
| LifecycleResults.DefaultLockLapses | internal/config/config.go:1007-1029 | with the default durations this happens to every deploy that is undecided for 5 minutes, while it stays pending for 2 hours |
| MergeAttempts.AttemptsAre | internal/bot/merge.go:27-68 | told from the replies alone: the attempts end merged under a SHA, as a no-op, cut off or with an error exactly as a table over the replies says. A no-op needs a conflict and a rebase that changes nothing, a failed branch lookup or rebase leaves the conflict, and the second merge counts only after a conflict that was rebased |
| MergeAttempts.RepliesDecide | internal/bot/actions.go:156-318 | for any replies an approval falls under one of the four endings |
| LifecycleOutcomes.ApproveEndsIff | internal/bot/actions.go:129-318 | an approval of a live deploy by a member is merged with one approved entry under a SHA, closed as a no-op, retained or left in the merging state exactly when the replies say so, each ending with its whole effect; any other approval does nothing |
| LifecycleOutcomes.ApproveTrichotomy | internal/bot/actions.go:156-318 | without those, it ends merged, as a no-op or retained |
| LifecycleOutcomes.OutcomesExclude | internal/bot/actions.go:156-318 | no two of these outcomes can hold together |
| LifecycleEffects.SweepExpiresExactly | internal/sweeper/sweeper.go:305-376 | a sweep ends exactly the deploys in the pending state that are due: row and lock go, the pull request is closed, one expired entry each in the order of expiry; every other row, lock and pull request is as it was |
| LifecycleEffects.RecoveryIsExact | internal/sweeper/sweeper.go:276-301 | recovery ends exactly the listed rows in the merging state whose open pull request GitHub merges: row and lock go, the pull request is merged under the answered SHA; everything else is as it was and no entry is written |
| LifecycleEffects.RecoveryLeavesPending | internal/sweeper/sweeper.go:283-286 | a deploy in the pending state keeps its row, its lock and its pull request, whatever GitHub answers |
| LifecycleEffects.RejectIsExact | internal/bot/actions.go:657-743 | a rejection ends the deploy with one rejected entry exactly for a live row and a member, else it does nothing |
| LifecycleEffects.CancelIsExact | internal/bot/cancel.go:28-113 | a cancellation ends the deploy exactly for its requester, or for anyone when an ECR push asked for it and that is allowed |
| LifecycleEffects.RequestIsExact | internal/bot/actions.go:397-650 | a request that is accepted, finds the app free and gets its pull request leaves its lock with TTL, its pending row with expiry and handle, and its labelled pull request; any other leaves nothing |
| LifecycleEffects.PushIsExact | internal/bot/ecr.go:28-303 | a push that waits for approval leaves the same, for a requester that is nobody, under the fixed holder |
| LifecycleEffects.AutoDeployIsExact | internal/bot/ecr.go:28-381 | an auto-deploy ends as the replies to its merge attempts say: merged with one entry, closed, or cut off with its lock kept |
| LifecycleEffects.ReconcileIsExact | internal/sweeper/sweeper.go:158-209 | each listed pull request without a row whose body can be read gets the row that the body and the creation time tell, with a minute of grace when it is overdue; nothing else changes but its label |
| LifecycleEffects.TickIsExact | internal/store/store.go:578-590 | time drops exactly the locks that lapse |
| LifecycleOutcomes.RunKeepsFaithful | internal/github/pr.go:107-123 | over every run each row can be told from the body of its pull request |
| LifecycleOutcomes.ReconcileRestoresLostRows | internal/sweeper/sweeper.go:158-209 | rows that are lost while their pull requests are open and labelled come back with the same app, environment, tag, requester and request time, hence under the same lock; the invariant is restored and nothing else is inserted |
| LifecycleAudit.StepRecords | internal/store/types.go:53-66 | a step appends to history only entries of deploys that were pending, with all that identifies them, or the one entry of its own auto-deploy, completed at the time of the step |
| LifecycleAudit.RunKeepsHistoryFaithful | internal/bot/ecr.go:180-200 | over every run each history entry, auto-deploys included, names the app, environment, tag and requester that the body of its pull request tells |
| LockLifetime.UnlimitedStep | internal/store/store.go:578-590 | as long as locks are taken without a TTL, none of them ever lapses, whatever steps are made |
| LockLifetime.UnlimitedLocksGiveSingleFlight | internal/config/config.go:1020-1029 | so with a lock TTL of zero single flight holds on every run without any hypothesis on time |
| LockLifetime.SingleFlightIffUnlimited | internal/config/config.go:1020-1029 | for any one TTL, single flight holds on all runs of requests that take locks for it, however much time passes, if and only if the TTL is zero or less |
| EventQueueProofs.StepKeepsInv | internal/queue/queue.go:215-332 | every step of every worker, including crashes and failed acks, keeps the invariant of delivery |
| EventQueueProofs.NothingIsLost | internal/queue/queue.go:298-312 | at every point of every run each entry is in exactly one of three places: undelivered, pending with one owner, or acked; an acked entry was handled or cannot be decoded |
| EventQueueProofs.SecondHandlingFollowsClaim | internal/queue/queue.go:314-332 | an entry is handled a second time only after a claim of it, at least the minimal idle time after it was given to someone |
| EventQueueProofs.UsersComeFirst | internal/queue/queue.go:215-247 | each read of the ECR stream directly follows, for this worker, a read of the user stream that yielded nothing, and each read of the ArgoCD stream directly follows such an ECR read |
| EventQueueOrder.NextMoveFollows | internal/queue/queue.go:189-332 | conversely no background stream is skipped: after an empty read of the user stream the next read, claim or crash of the worker is an ECR read or a crash, after an ECR read with ArgoCD enabled an ArgoCD read or a crash, and so on for every read and claim |
| EventQueueOrder.FirstMoveBegins | internal/queue/queue.go:215-247 | the first one reads or claims from the user stream |
| EventQueueOrder.OnlyActiveStreams | internal/queue/queue.go:189-332 | only active streams are ever read or claimed from, ten entries at most at a time |
| EventQueueOrder.AckedIsHandledIff | internal/queue/queue.go:88-133 | over every run an acked entry was handled exactly if it is of one of the five kinds with data that fits its kind; any other one is dropped |
| EventQueueProgress.ServeUndelivered | internal/queue/queue.go:215-312 | from any state of the invariant any worker can go on alone, by full reads and without time passing, so that an undelivered entry of an active stream is delivered and acked |
| EventQueueProgress.EveryEntryCanBeServed | internal/queue/queue.go:215-332 | at every point of every run any one worker can go on alone, whatever became of the others, so that any entry of an active stream is acked, and handled if it can be decoded: no entry is ever out of reach |
| EventQueueOnce.ClaimLeadsToSecondIff | internal/queue/queue.go:298-332 | a claim lets an entry be handled a second time, without any further read or claim of it, if and only if it was handled already or a live worker still has it to handle |
| EventQueueOnce.SafeClaimsHandleOnce | README.md:73-73 | in a run in which no claim of an entry is of that kind, the entry is handled at most once |
| EventQueueOnce.HeldCanBeHandled | internal/queue/queue.go:255-312 | whatever a worker was given it can go on to handle, without reading or claiming again |
| EventQueueProofs.ExactlyOnceFails | README.md:73-73 | the exactly-once claim is false: from the empty streams a run in which a slow worker and the one that reclaims from it both handle the same event |
| EventQueueProofs.StartIsSound | internal/queue/queue.go:281-289 | a worker never runs more ECR goroutines than its limit, and no message is in its hands twice |
| EventQueueProofs.GiftKeepsSpacing | internal/queue/queue.go:314-332 | two gifts of the same entry are the minimal idle time apart and the later one is a claim |
| ThreadSlot.OneParentPerLife | internal/bot/thread.go:58-99 | for any interleaving at most one call is between claiming the slot and replacing or deleting the placeholder, the slot reads the placeholder exactly then, and no two parent messages are posted in one life of the slot |
| ThreadSlot.ResultsArePosted | internal/bot/thread.go:20-100 | a call returns nothing, or the timestamp of a parent message that was posted; only its first lookup can return the placeholder |
| ThreadSlot.PostsMeetThreshold | internal/bot/thread.go:20-57 | a parent is posted only by a call that found threading on and, for a threshold above 1, counted enough deploys; with threading off nothing is ever returned |
| ThreadSlot.PollsGiveUp | internal/bot/thread.go:65-80 | a call that did not get the slot gives up at the fifth look in vain; the timestamp of the parent ends its wait at once |
| ThreadSlot.AloneItPosts | internal/bot/thread.go:29-99 | a call that is alone and meets the threshold posts the parent, leaves it in the slot and returns it |
| ThreadSlot.PlaceholderLeaks | internal/bot/thread.go:30-37 | a run of two calls in which the second one returns the placeholder |
| ThreadSlot.PlaceholderLeaksIff | internal/bot/thread.go:30-37 | it does so exactly when another call is posting at that moment |
| Buffer.Buffer.Add | internal/buffer/buffer.go:45-60 | accepts an event exactly when the channel is not full, at its end; accepted events in order stay stream, then the event being retried, then channel |
| Buffer.Buffer.DrainOne | internal/buffer/buffer.go:78-96 | the event reaches the stream after the failed attempts, or is still in hand when the context is cancelled; the k-th wait is min(2^k, 30) seconds; events that come in meanwhile are queued |
| Buffer.Buffer.Run | internal/buffer/buffer.go:67-76 | over any turns, with any arrivals and outages, nothing accepted is lost, doubled or reordered |
| Buffer.QuietTurnsDrain | internal/buffer/buffer.go:67-96 | once events stop coming in, everything queued reaches the stream in order, however many attempts each takes |
| Buffer.RoomTakesAll | internal/buffer/buffer.go:45-60 | nothing that comes in while an event is retried is refused as long as there is room for all of it |
| Buffer.NextWait | internal/buffer/buffer.go:88-93 | doubling up to the limit yields the waits min(2^k, 30) one after the other |
| Buffer.WaitIsBounded | internal/buffer/buffer.go:14-17 | waits never shrink, stay between 1 and 30 seconds and reach 30 at the sixth |
| TagRewrite.ScannerFindsMatches | internal/github/pr.go:335-341 | the scanner reports a match exactly when the expression newTag:\s*\S+ matches some stretch of the text |
| TagRewrite.WeaveOriginal | internal/github/pr.go:335-343 | a file is its values woven into the pieces of text around them |
| TagRewrite.WeaveReplaced | internal/github/pr.go:338-343 | the rewrite puts the tag for every value and leaves every piece as it is |
| TagRewrite.RewriteKeepsShape | internal/github/pr.go:338-343 | scanning the result finds the same pieces again, with the new tag as every value: the rewrite neither creates nor destroys a match |
| TagRewrite.LastWriteWins | internal/github/pr.go:338-343 | writing a and then b is writing b, errors included |
| TagRewrite.NoChangeIffCurrent | internal/github/pr.go:93-103 | the file stays as it is exactly when every value already is the tag |
| PullRequest.SafeTagIsWord | internal/sanitize/sanitize.go:13-23 | a safe tag has no blank, no "$" and no "<", which is what the rewrite and the metadata need |
| PullRequest.BranchIsClean | internal/github/pr.go:83-83 | for clean names of environment and app the deploy branch is these and the sanitised tag, one clean component after its prefix, whatever the tag |
| PullRequest.DeployIsNoChangeIffCurrent | internal/github/pr.go:79-103 | CreateDeployPR reports no change exactly when the tag is safe and every value in the file is the tag |
| PullRequest.DeployIsExact | internal/github/pr.go:79-133 | what CreateDeployPR commits is the file with the tag for every value and all text outside the values kept; each of its errors has its exact condition |
| PullRequest.RebaseIsExact | internal/github/pr.go:198-231 | a rebase commits the same for the tag, and reports a missing file before a missing branch |
| PullRequest.BodySpellsOut | internal/github/pr.go:107-123 | the body shows environment, app, tag, requester and reason, and ends with the metadata |
| PullRequest.LandedDeployIsNoChange | internal/github/pr.go:198-219 | once the content of a deploy has landed, asking again and rebasing both report no change |
| PullRequest.LastDeployWins | internal/github/pr.go:93-103 | deploying over a landed deploy commits the same file as if it had never landed |
| MetaJson.ParseOfPrinted | internal/github/label.go:16-37 | reading printed metadata gives it back, for any strings |
| MetaJson.PrintSpellsOut | internal/github/label.go:16-37 | the object that is printed, name by name in the order of the struct |
| MetaJson.FieldsAreHtmlSafe | internal/github/pr.go:107-123 | nothing printed is a control character, has a meaning in HTML or is a line separator |
| MetaJson.PrintedIsInert | internal/github/pr.go:107-123 | printed metadata can neither close an HTML comment nor break a line |
| PullRequest.ParseOfBody | internal/github/label.go:23-37 | exactly what is read from a printed body: the metadata written, unless app, environment or requester hold a metadata comment themselves; the reason never matters |
| PullRequest.RoundTrip | internal/github/pr.go:107-123 | the metadata comes back for any reason text when app, environment and requester have no "<" |
| PullRequest.RoundTripNeedsPlainNames | internal/github/pr.go:107-123 | without that it fails, for an app whose name is an empty metadata comment |
| PullRequest.InjectedAppWins | internal/github/label.go:23-37 | a metadata comment in the app line is the one that is read |
| Sanitize.MarkdownHasNoAngle | internal/sanitize/sanitize.go:79-95 | sanitised free text has no angle bracket, cut at the limit or not |
| Sanitize.BranchName | internal/sanitize/sanitize.go:28-54 | the loop terminates, and replacing "--" until none is left collapses each maximal run of hyphens |
| Sanitize.HalvingKeepsCollapse | internal/sanitize/sanitize.go:43-45 | one pass of the replacement does not change what the runs collapse to |
| Sanitize.BranchNameIsClean | internal/sanitize/sanitize.go:28-54 | the result is not empty, has no "--", no "..", no listed character and no hyphen or dot at either end |
| Sanitize.FixpointIffClean | internal/sanitize/sanitize.go:28-54 | exactly such names are left as they are, so applying it twice is applying it once |
| Sanitize.SafeTagKeepsHead | internal/sanitize/sanitize.go:13-54 | a safe tag never falls back to "invalid": its first character survives |
| Sanitize.LongestTag | internal/sanitize/sanitize.go:13-23 | 256 characters are accepted, 257 are not |
| Sanitize.FallsBackIff | internal/sanitize/sanitize.go:46-53 | the result is "invalid" exactly when each character of the tag is listed, a hyphen or a dot |
| Sanitize.ReplacePointwise | internal/sanitize/sanitize.go:30-43 | where no two dots meet, each listed character becomes a hyphen and every other one stays |
| Sanitize.ReplaceSplits | internal/sanitize/sanitize.go:30-43 | text is replaced independently on both sides of any place that is not between two dots |
| Sanitize.SafeTagNamesRef | internal/sanitize/sanitize.go:25-54 | for a safe tag git accepts the branch component unless the last word of the tag is "lock" after an odd number of dots, and only then does it refuse |
| Sanitize.LockIsNotReplaced | internal/sanitize/sanitize.go:25-54 | the promise that every tag is made safe for a branch name is false: the tag v1.lock is accepted, left as it is, and is not a name that git accepts |
| Sanitize.EscapedReadsBack | internal/sanitize/sanitize.go:79-95 | text that fits and brings no backslash and no ampersand is shown as it was written |
| Sanitize.MarkdownIsGuarded | internal/sanitize/sanitize.go:79-95 | every character of the result that mentions or links has a backslash before it, cut at the limit or not |
| RepoConfig.ValidateWithOpts | internal/repoconfig/repoconfig.go:121-221 | the loop reports, in strictly increasing index order, the one error of each entry that is not valid and nothing else; validity is stated without the loop |
| RepoConfig.CheckLooksAtFields | internal/repoconfig/repoconfig.go:136-203 | an entry passes its own checks exactly when no field fails, and stands for what its fields name or leave to be derived; otherwise the field reported is the first that fails, under the app name known by then |
| RepoConfig.ValidEntries | internal/repoconfig/repoconfig.go:244-259 | the exact complement of the reported indices, increasing; nothing when an error concerns the whole file |
| RepoConfig.ComplementIsValid | internal/repoconfig/repoconfig.go:244-259 | which are exactly the valid entries |
| RepoConfig.ValidCount | cmd/deploy-bot-config/main.go:286-286 | entries minus errors is the number of valid entries |
| RepoConfig.ValidEntriesAreUnique | internal/repoconfig/repoconfig.go:182-217 | no two valid entries have the same trimmed app and environment, or the same effective kustomize path |
| RepoConfig.KeyTellsTarget | internal/repoconfig/repoconfig.go:200-200 | for environments without a zero byte the key tells app and environment apart |
| RepoConfig.ApplyDefaults | internal/repoconfig/repoconfig.go:226-240 | in place, every entry becomes its defaulted form |
| RepoConfig.RevalidationIsStable | internal/reposcanner/validate.go:25-47 | under enforced naming with trimmed derived values, the same entries are valid after the defaults as before |
| RepoConfig.DefaultsKeepCheck | internal/repoconfig/repoconfig.go:132-167 | a single entry keeps its verdict and its target, or is refused for the same field |
| RepoConfig.DefaultsSpellOutTarget | internal/repoconfig/repoconfig.go:226-240 | after the defaults a valid entry spells out the target that validation reserved for it |
| Strings.TrimSpaceCutsBlanks | internal/repoconfig/repoconfig.go:135-137 | trimming a field cuts blanks only, and all of them on both sides |
| RepoNaming.RepositoriesNeverCollide | internal/config/config.go:121-129 | with the default template two repositories never derive the same path, whatever the environments |
| RepoNaming.DefaultPathSpelledOut | internal/config/config.go:121-129 | for an environment without braces the path is environment, repository name and file name |
| RepoNaming.DefaultPathShape | internal/config/config.go:121-129 | such a path ends with a slash, the repository name and the file name |
| RepoNaming.DefaultPathIsTrimmed | internal/config/config.go:121-129 | and has no blanks around it when its parts have none |
| RepoParse.ParseRepoConfig | internal/reposcanner/validate.go:13-72 | the discovered apps are the defaulted entries at exactly the valid indices, in order, and the reported errors are those of the undefaulted entries |
| RepoParse.ValidEntryIsDiscoveredAs | internal/reposcanner/validate.go:25-66 | a valid entry becomes an app with its own fields, the default pattern where it names none, and the derived name and path only under enforced naming where it leaves them out |
| RepoParse.RepoNameFollowsSlash | internal/reposcanner/validate.go:19-23 | the repository name is all that follows the last slash |
| RepoParse.EnforcedNamingDerivesTrimmed | internal/reposcanner/validate.go:25-36 | enforced naming meets the hypothesis of stability when the repository name has no blanks around it |
| RepoParse.EnforcedReposNeverCollide | internal/reposcanner/validate.go:25-72 | valid entries of two repositories under enforced naming never target the same file |
| Discovery.CheckPaths | internal/config/config.go:890-895 | the path check on loading fails exactly when two apps of the operator share a non-empty path, and names such a path |
| Discovery.DetectConflicts | internal/reposcanner/scanner.go:296-356 | every excluded app has an entry that clashes with the operator or an earlier entry; what is kept clashes with neither |
| Discovery.Filter | internal/reposcanner/scanner.go:202-208 | exactly the entries of the apps that are not excluded, in order |
| Discovery.KeptIsFromKept | internal/reposcanner/scanner.go:202-208 | an app survives the filter exactly when one of its entries was kept |
| Discovery.MergeApps | internal/config/config.go:982-1000 | the operator list as it is, then the first entry of each new name |
| Discovery.FullNameTellsApp | internal/config/config.go:636-638 | for environments without hyphens the full name determines app and environment |
| Discovery.FullNamesClash | internal/config/config.go:636-638 | with hyphens it does not: app a-b in c and app a in b-c have one name |
| Discovery.SecondIsDropped | internal/config/config.go:982-1000 | and of two such apps only the first is registered |
| Discovery.AppByName | internal/config/config.go:1069-1076 | the first entry of that name, or none exactly if there is none |
| Discovery.RegistrationIsUnique | internal/config/config.go:982-1000 | in whatever order entries arrive: the operator list is an untouched prefix, added names are new and distinct, no added app has a name or path of the operator, and no two apps share a path |
| Discovery.UntroubledIsRegistered | internal/reposcanner/scanner.go:296-356 | an app none of whose entries clashes with anything is always registered, in every order |
| Discovery.OperatorWins | internal/config/config.go:1069-1076 | a name that the operator defines always resolves to the operator entry |
| EcrCache.ImagesToRepoTags | internal/ecr/cache.go:279-292 | all tags of the images with a push time, newest first |
| EcrCache.FilterRepoTags | internal/ecr/cache.go:352-369 | the matching tags in order, names parallel to times, and on a newest-first listing the newest push is that of the head |
| EcrCache.FilterKeepsOrder | internal/ecr/cache.go:350-369 | filtering keeps a listing newest first |
| EcrCache.LoadIsComplete | internal/ecr/cache.go:352-369 | what is loaded has every matching tag of the listing and no other |
| EcrCache.PopulatedOffers | internal/ecr/cache.go:137-218 | after populating an app offers exactly the matching tags of the shared copy of its repository or, without one, of the images fetched with a push time |
| EcrCache.RefreshIsComplete | internal/ecr/cache.go:295-324 | a refresh that replaces the list leaves exactly the matching tags of the registry with a push time; otherwise none of them is newer than the list |
| EcrCache.RefreshIsCurrent | internal/ecr/cache.go:295-324 | a refresh keeps the list in agreement with the registry, never takes the newest push back and leaves it at the newest matching push of the registry |
| EcrCache.Cache.Populate | internal/ecr/cache.go:137-218 | the loop over repositories and their apps loads every app from the shared copy of its repository or else from the fetched images, and shares what was fetched |
| EcrCache.Cache.Refresh | internal/ecr/cache.go:295-324 | replaces the list only by one with a later push or when it is empty, and shares the listing; an unanswered fetch changes nothing |
| EcrCache.Cache.AddApps | internal/ecr/cache.go:106-121 | known apps keep their lists, new ones start empty, and it fails exactly at a new app whose pattern does not compile |
| EcrCache.Cache.ValidateTag | internal/ecr/cache.go:430-462 | true exactly for a matching tag that the registry has, cached or looked up, when the registry can be reached |
| EcrCache.CacheAgreesOnEveryRun | internal/ecr/cache.go:137-324 | over every run against a registry that only gains tags, with other replicas sharing listings at any time, every list is newest first, filtered, parallel to its times, within the registry and headed by the newest push |
| EcrCache.NewestNeverDrops | internal/ecr/cache.go:303-309 | the newest push of an app never goes back while it is refreshed |
| EcrCache.CopyGivesSameList | internal/ecr/cache.go:162-175 | loading the shared copy of a fetch gives the same list as the fetch |
| Retention.PostgresConfig.Validate | internal/config/config.go:368-408 | the reported fields are exactly those that fail, each once; the cached retention is never below 390 days |
| Retention.PostgresConfig.HistoryRetentionDuration | internal/config/config.go:448-453 | validated or never validated, the retention is at least 390 days |
| Retention.Retainer.DeleteBatched | internal/store/postgres/retention.go:120-145 | whichever rows each batch picks, it terminates, leaves exactly the rows at or after the cutoff and returns the eligible count; on an error it returns what the complete batches deleted and has touched no other row |
| Retention.Retainer.PreflightCount | internal/store/postgres/retention.go:97-118 | the groups by event type add up to the number of eligible rows |
| Retention.Retainer.RunOnce | internal/store/postgres/retention.go:55-88 | the number reported is the number eligible, and kept rows survive a failed purge |
| Retention.Purge | internal/store/postgres/retention.go:55-145 | from configuration to table: no row younger than 390 days is ever deleted and no row is changed; a purge that is not cut short deletes exactly the rows older than the configured retention, or than two years where that is missing, invalid or too short |
| Retention.YoungRowsSurvive | internal/config/config.go:335-347 | any purge that keeps what lies after the cutoff keeps rows younger than 390 days |
| ConflictTracker.ConflictTracker.EmitWarnings | internal/reposcanner/conflict.go:56-122 | the message lists exactly the conflicts not warned about, once each, unless there is no channel or the cooldown is running; resolved conflicts are forgotten |
| ConflictTracker.PostsAreSpaced | internal/reposcanner/conflict.go:84-87 | over any calls on a clock that does not go back, two messages are a cooldown apart |
| ConflictTracker.RepostNeedsResolution | internal/reposcanner/conflict.go:64-69 | a conflict is posted a second time only if a call in between saw it resolved |
| ConflictTracker.UnpostedMeansCooldown | internal/reposcanner/conflict.go:56-122 | a call without a channel does nothing; one with a channel posts exactly what was not warned about unless a message is younger than the cooldown; then the warned conflicts are among those it saw, and the others are held back by the cooldown and by nothing else |
| Bot.Bot.HandleDeploySubmit | internal/bot/actions.go:397-650 | the calls of the handler make exactly one RequestDeploy step, refused unless approver, tag and app check out; every failure after the lock is taken releases it |
| Bot.Bot.HandleMentionDeploy | internal/bot/mention.go:258-417 | the same step as the slash command, where the author has to be a member and the approver is optional |
| Bot.Bot.PlaceRequest | internal/bot/ecr.go:218-303 | row, labels and message handle of a deploy that waits for approval, and nothing else |
| Bot.Bot.HandleECRPush | internal/bot/ecr.go:28-112 | the calls make exactly one ECRPush step: discarded when locked, lock under the fixed holder, then auto-deploy or approval request |
| Bot.Bot.HandleECRAutoDeploy | internal/bot/ecr.go:116-214 | merged with an approved entry, or closed, or left alone when the context is cancelled; no row is written in any case |
| Bot.Bot.NotifyECRAutoDeployFailed | internal/bot/ecr.go:337-381 | closes the pull request and releases the lock; under a cancelled context nothing happens |
| Bot.Bot.MergeWithRetry | internal/bot/merge.go:27-68 | the pair it returns stands for exactly the ending that the replies tell; two merges are asked for only after a conflict that was rebased without a cut, and a rebase only after a conflict and a branch lookup that worked |
| Bot.Bot.HandleApprove | internal/bot/actions.go:129-318 | the calls of all exits make exactly one Approve step, with at most three merges and one rebase |
| Bot.Bot.CloseNoOpPR | internal/bot/actions.go:337-366 | pull request closed, lock and row gone, no history entry, no merge |
| Bot.Bot.HandleRejectSubmit | internal/bot/actions.go:657-743 | for a live row and a member: pull request closed, lock and row gone, one rejected entry; otherwise nothing |
| Bot.Bot.DoCancelDeploy | internal/bot/cancel.go:28-113 | the requester, or anyone for an ECR deploy where that is allowed, ends the deploy with one cancelled entry; otherwise nothing |
| Sweeper.Sweeper.RunOnce | internal/sweeper/sweeper.go:305-386 | the loop over the expired rows and the reconciliation after it are the Sweep step |
| Sweeper.Sweeper.RecoverStuck | internal/sweeper/sweeper.go:276-301 | the loop over the listed rows is the Recovery step; `LifecycleEffects.RecoveryIsExact` says which rows that ends |
| Sweeper.Sweeper.ListOpenPRs | internal/sweeper/sweeper.go:138-152 | the two label listings are merged without duplicates; a failed listing is skipped |
| Sweeper.Sweeper.ReconcileFromGitHub | internal/sweeper/sweeper.go:132-225 | row by row the loop equals one simultaneous reconciliation of everything that is listed |
| Sweeper.OneMoreOrphan | internal/sweeper/sweeper.go:159-209 | reconciling one pull request after the others is the same as reconciling all at once |
| Clients.Store.AcquireLock | internal/store/store.go:578-590 | the lock is taken exactly when the key is free; the holder, the time and the lapse (none for a TTL of 0) are recorded; a taken key is left as it is |
| Clients.Store.IsLocked | internal/store/store.go:593-599 | true exactly when the key of this environment and app exists |
| Clients.Store.ReleaseLock | internal/store/store.go:602-604 | the key is gone, whoever held it; no other key changes |
| Clients.Store.UpdateState | internal/store/store.go:274-288 | only the state of an existing row changes; a missing row is reported and nothing changes |
| Clients.Store.SetSlackHandle | internal/store/store.go:255-269 | only the message handle of an existing row changes; a missing row is no error |
| Clients.Store.Set | internal/store/store.go:158-207 | the row is stored under its pull request number, replacing an earlier one; all other rows stay |
| Clients.Store.Get | internal/store/store.go:214-230 | the row, or none without an error |
| Clients.Store.Delete | internal/store/store.go:234-245 | the row is gone, all others stay; no error if it was gone |
| Clients.Store.PushHistory | internal/store/store.go:437-460 | history only grows, at its end |
| Clients.Client.CreateDeployPR | internal/github/pr.go:79-143 | an unsafe tag, an unchanged file or a failed call creates nothing; otherwise one open, unlabelled pull request with the printed body |
| Clients.Client.MergePR | internal/github/pr.go:151-186 | merges an open pull request under the SHA that is answered; in every other case it reports an error and changes nothing |
| Clients.Client.ClosePR | internal/github/pr.go:242-275 | an open pull request is closed; a closed, merged or missing one is left alone without an error |

## Left out

- Slack messages and modals, command parsing, HTTP webhooks, the REST and GraphQL clients, AWS signing, audit log, metrics and logging: input, output and formatting.
- Identity, team and tag checks inside the handlers: each is a boolean answer.
- The interleaving of the goroutines inside one handler, and of two handlers: a handler is one step, and calls that run in parallel are made in the order in which they are listed.
- The branches, commits and file contents behind a pull request in the lifecycle: `PullRequest` models what is committed, the lifecycle only what a rebase answers.
- ReconstructHistory and the health checks that follow a merge.
- Clients.Store.Set: does not model the defaults for a missing expiry, request time or state, which no caller leaves out.
- GetByEnvApp, GetHistory, FindHistoryBySHA and the other read-only queries; the answers of GetExpired and GetAll are arguments that have to be answers of those queries.
- Clients.Client.MergePR: the reading of GitHub's status codes and messages into the kinds of merge error is an argument.
- TagRewrite.LastWriteWins: does not model the expansion of `$` in the replacement, because CreateDeployPR refuses tags with a `$` before it rewrites; approvals reach the rebase only with tags that were accepted.
- PullRequest.ParseOfBody: the reader knows flat objects of strings with exact key names, which is all that the bot prints. A metadata comment that someone else wrote, with other kinds of values or other letter case in its keys, is read differently by Go.
- Clients.Client.CreateDeployPR: whether the file is unchanged is an answer; `PullRequest` proves when that is so.
- Discovery.CheckPaths: does not model the other reasons for which Load refuses a configuration, such as a missing environment, a pattern that does not compile or an incomplete health check.
- The line breaks that GitHub may change in a stored body.
- Sanitize.MarkdownHasNoAngle: a character cut in the middle at the byte limit is taken as U+FFFD.
- The regular expression compiler is an argument of validation, and tag patterns are predicates.
- Revalidation outside enforced naming, where the default tag pattern changes which entries are valid.
- Listing repositories, fetching files, rate limits, commit statuses and the ConfigMap writer of the scanner.
- The API version check of a repository's config file, which comes before what is modelled.
- Liveness of event delivery under a scheduler: the model proves that every entry can be served from every state, not that the timing of reads and claims brings it about.
- EventQueueProgress.EveryEntryCanBeServed: the worker's store calls succeed, and a claim is taken to answer with the entry itself or with nothing.
- EventQueueProofs.NothingIsLost: a claim may answer with any entries that were idle for long enough, not only with the oldest.
- EcrCache.ImagesToRepoTags: the order of tags pushed at the same time is fixed in the model and not in the code.
- EcrCache.Cache.Populate: the JSON form of the shared copy and the concurrency of fetches are not modelled; the groups are taken one after the other.
- Reading the clock: the current time is an argument, and a retry waits without measuring.
