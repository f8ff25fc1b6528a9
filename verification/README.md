# A verified model of stash-box

stash-box is a community database of scenes, performers, studios and tags. This project models, in Dafny, the parts of its
server where correctness depends on more than one function: the protocols that run concurrently, the database statements that
merge and move rows, the edits that are made against one version of a record and applied to another, and the search for
clusters of fingerprints. `dafny verify dfyconfig.toml` checks all of it.

## How it is laid out

Where the source changes state step by step, there are two layers. A *protocol* or *table* layer defines each atomic step as a
function of the state, with invariants over every run and the theorems that follow. A *class* layer has the source's own fields
and loops, and each of its methods is proved to take exactly the step of that name. Values that the source computes without
state are functions, and loops that build a result are methods.

| module | what it models |
|---|---|
| `LoaderProtocol`, `Loader` | the batching dataloader: callers, timers, fetches and thunks, in every interleaving |
| `LogProtocol`, `LogBroadcaster` | the throttled log broadcaster, its subscribers and channels |
| `AuthProtocol`, `AuthCache` | the authentication cache with tombstones, down to single map operations |
| `MemberMerge`, `Redirects` | merging join rows, and the redirects that merges leave behind |
| `Fingerprints`, `FingerprintCounts` | moving submissions, deleting users, and counting submissions in two ways |
| `PhashClosure`, `Components` | the search around a scene, and clusters by union-find |
| `Arguments`, `EditFields`, `EditRecords`, `Edits` | null against absent arguments, the edit of one field, of a whole record, and of scenes, tags and performers |
| `SetDiffs` | list diffs and the merged views that apply them |
| `HashCodec` | fingerprint hashes as hex strings |
| `FuzzyDates` | fuzzy dates and ages over an explicit Gregorian calendar |
| `Wrappers` | `Option`, `Result` and the outcome of a run |

## How steps and values are abstracted

- A loader step is one section under the mutex, or one of the actions outside it: the start of a fetch, its answer,
  `close(done)`, and the return of a thunk. A timer may wake at any time, so nothing depends on how long `wait` is. `fetch` is
  an environment: it must answer pointwise (data by position, and no error, one for all, or one per key), and
  `PanicsIffErrorsTooShort` says exactly which answers would make a thunk panic. Values are immutable. `heap` and `tasks` are
  the batches and goroutines that the Go runtime holds; `LoadAll` runs against any schedule of the other goroutines.
- The log's time is a nanosecond count that never goes back; `time.AfterFunc` fires at its due time or later.
- A step of the auth protocol is one operation on one map with the clock reading that forms its argument. History counters per id
  count the writes of the database row and its invalidations; the invalidation follows its write.
- The plain fields of a record are a map from field names to the values that are present, for the record, for an edit and for its
  input; a `Scene`, `Tag` or `Performer` holds only fields of its own. A value of an enum field is a constant or some other text.
- Tables are sets of rows. A statement is one step and the statements of one service call run in one transaction.
- Ids are integers, strings are sequences of bytes, UUID text is not modelled. `int64` is a bounded newtype and the conversions to
  `uint64` are written out; hashes in the cluster search are their 64 bits.
- Rows come back from a query, and keys from a map, in any order.

## What came out

Most of what the code intends holds on all inputs. Where it does not, the model keeps the code's behaviour and proves exactly when
the intended property holds:

- **A stop before the append.** `SubscribeToLog` starts the goroutine that waits for `stop` before it appends the channel. A stop in
  between closes a channel that is then appended, and the next broadcast panics (`NeverPanicsIff`, `EarlyStopPanics`).
- **A fill that races an invalidation.** `CacheSet` loads the tombstone and stores the entry in two operations, and an invalidation
  between them can leave a stale entry (`RacingFillServesStale`), but need not (`RaceCanPass`). `NeverServesStaleIff` says exactly
  from which states the tombstones protect an id: those without a stale entry and without an endangered fill, one that read
  before the latest invalidation and is past the comparison or has time left to outwait the tombstone.
- **Merging a tag.** `mergeInto` for tags checks that the source is not deleted, but not the target and not that they differ.
  Redirects stay path-compressed exactly when the two differ and the target was not itself merged away
  (`TagMergeCompressedIff`, `MergeIntoMergedTag`). For performers both ends are checked and only equality is left (`PerformerMergeKeepsForestIff`).
- **Moving fingerprints.** A submission whose user has reported the same fingerprint on the target is pruned in favour of the report
  and lost, although its user is reported as moved (`ReportSwallowsSubmission`); and with source and target equal, which nothing
  checks, every submission is. Nobody's submission is lost exactly outside these two cases (`SubmissionsSurviveIff`). The users
  reported for a hash are those of the last listed fingerprint with that hash, whatever the algorithm (`MoveAllReports`).
- **Deleting a user.** A row is kept for the sentinel only if nobody else has a row for the same fingerprint and scene, be it a report.
  So a pair can be left with reports alone (`OnlyReportLeft`); `SubmittedSurvivesIff` says when every submission is still there.
- **Validation of a modifying edit.** A text or number that was cleared in the meantime passes, and so does a value given where there
  was none; the patch then overwrites it (`SceneValidationOverwrites`). `ValidatedUndoIff` says when nothing is lost.
- **A null name.** A tag or performer edit with a null name is not empty and yet leaves the name as it is (`EditTag`, `EditPerformer`).
- **Production dates** are not validated, release dates are (`Edits.Scene.SceneEditFromDiff`).
- **Performers of a scene.** A request that spells no credited name as the empty string, where the stored row has none, keeps the stored
  spelling (`AppearancesRebuiltIff`, `RespelledRequest`).
- **Body modifications** are compared by location, so of several requested at one place all but one can be lost
  (`BodyModsRebuiltIff`, `SecondAtAPlaceIsLost`).
- **Ages** compare day numbers of years of different length. From 1 March on a birthday in a leap year is counted a day late in
  ordinary years, and the other way round a day early (`AgeRightIff`, `BirthdayCountedLate`).
- **Long hashes.** A request's hash of more than sixteen characters is read as zero, where the stored form would be refused or
  read in full (`ParsersAgreeIff`).

## Model

| member | source | states |
|---|---|---|
| `LoaderProtocol.StepKeeps` | internal/dataloader/sceneloader_gen.go:74-225 | every step of every goroutine keeps the invariant: one `end` per batch, distinct and bounded keys, positions that index their keys, pointwise data behind a closed `done`, a coherent cache |
| `LoaderProtocol.RunKeeps` | internal/dataloader/sceneloader_gen.go:74-225 | so does every interleaving of any length |
| `LoaderProtocol.AtMostOnce` | internal/dataloader/sceneloader_gen.go:195-225 | a batch is fetched and closed at most once, closed only after its fetch, and a timer that wakes on a batch not yet closing finds it still current, so `l.batch = nil` drops no other batch |
| `LoaderProtocol.KeysIndexThunks` | internal/dataloader/sceneloader_gen.go:82-103 | keys of a batch are distinct and at most `maxBatch`, it closes exactly when it holds that many and there is a limit, every thunk's position holds its own key, and a running fetch works on the batch's own keys |
| `LoaderProtocol.DetachedIsFrozen` | internal/dataloader/sceneloader_gen.go:195-225 | over any later run a detached batch keeps its keys and a closed one its results, which makes the reads without the mutex safe |
| `LoaderProtocol.LoaderRefinesLookup` | internal/dataloader/sceneloader_gen.go:89-112 | a thunk returns no error exactly when the fetch gave none for its position, and then the lookup of its own key; one with an error leaves the cache alone, and the cache maps keys to their lookups or primed values |
| `LoaderProtocol.LoadedIsCached` | internal/dataloader/sceneloader_gen.go:105-109 | after a thunk that returned no error the cache holds its key's lookup and is otherwise unchanged, and the next load of the key is answered from it: no batch, no key, no timer |
| `LoaderProtocol.PrimedIsHeld` | internal/dataloader/sceneloader_gen.go:153-164 | a primed key holds its earlier value, or else the given one, and nothing else changes |
| `LoaderProtocol.ClearedIsGone` | internal/dataloader/sceneloader_gen.go:167-171 | a cleared key is not in the cache, and nothing else changes |
| `LoaderProtocol.LoadStartsBatch` | internal/dataloader/sceneloader_gen.go:82-87 | with no batch open, a key that is not cached starts one of its own and leaves the others alone |
| `LoaderProtocol.LoadJoinsBatch` | internal/dataloader/sceneloader_gen.go:182-193 | with one open it joins that batch, unless it is in it already |
| `LoaderProtocol.PanicsIffErrorsTooShort` | internal/dataloader/sceneloader_gen.go:97-103 | some position panics exactly when the error slice is neither nil nor single and shorter than the keys |
| `LoaderProtocol.WaitingBatchHasWork` | internal/dataloader/sceneloader_gen.go:195-225 | a batch that is not done always has an enabled timer, fetch or close step |
| `LoaderProtocol.WorkDecreases` | internal/dataloader/sceneloader_gen.go:206-225 | every such step strictly lowers a measure over sleeping timers, fetches and open batches |
| `LoaderProtocol.WorkIsBounded` | internal/dataloader/sceneloader_gen.go:206-225 | so a run of such steps is no longer than the measure |
| `LoaderProtocol.EveryThunkReturns` | internal/dataloader/sceneloader_gen.go:89-90 | and when none is left, every issued thunk's batch is done |
| `Loader.DataLoader.Find` | internal/dataloader/sceneloader_gen.go:183-187 | the loop finds the first position of the key, or the length |
| `Loader.DataLoader.KeyIndex` | internal/dataloader/sceneloader_gen.go:182-204 | takes exactly the enqueue step: position or append, timer for the first key, detach and `end` at the limit |
| `Loader.DataLoader.LoadThunk` | internal/dataloader/sceneloader_gen.go:74-113 | takes exactly the load step, keeps the invariant, and hands out the cached value or the batch and position |
| `Loader.DataLoader.TimerWakes` | internal/dataloader/sceneloader_gen.go:206-220 | takes exactly the timer step: nothing on a closing batch, otherwise detach and `end` |
| `Loader.DataLoader.BeginFetch` | internal/dataloader/sceneloader_gen.go:222-223 | reads the batch's keys without the mutex and starts its one fetch |
| `Loader.DataLoader.CloseDone` | internal/dataloader/sceneloader_gen.go:224 | closes a `done` that was open |
| `Loader.DataLoader.CallThunk` | internal/dataloader/sceneloader_gen.go:89-112 | the body of a thunk returns the key's lookup unless it returns an error; without one the cache is the old one with that value, with one it is the old one |
| `Loader.DataLoader.Prime` | internal/dataloader/sceneloader_gen.go:153-164 | stores only where there is no entry, and says whether it did |
| `Loader.PrimePointer` | internal/dataloader/sceneloader_gen.go:153-164 | the pointer-valued loader panics on a nil pointer exactly when there is no entry, and otherwise primes |
| `Loader.DataLoader.Clear` | internal/dataloader/sceneloader_gen.go:167-171 | removes that entry only |
| `Loader.DataLoader.LoadAllThunk` | internal/dataloader/sceneloader_gen.go:135-148 | one promised answer per key, in order, whatever other goroutines do in between |
| `Loader.DataLoader.LoadAll` | internal/dataloader/sceneloader_gen.go:117-130 | for every key list, with repeats, and every schedule: the answer at i is the lookup of keys[i], a primed value for it, or an error |
| `Loader.PrimeStrings` | internal/dataloader/stringsloader_gen.go:152-164 | the slice-valued loader stores the contents of the caller's slice, not the slice |
| `LogProtocol.StepKeeps` | pkg/logger/logger.go:89-177 | every section under the mutex keeps the throttle, history, channel and delivery invariants |
| `LogProtocol.EachItemOnce` | pkg/logger/logger.go:137-177 | the broadcast batches and then the buffer are the items in lock order, each once; items still with their goroutine make up the rest; the cache holds the newest thirty |
| `LogProtocol.WaitingIffTimerIffBuffer` | pkg/logger/logger.go:158-175 | between sections `waiting` holds exactly when one timer is pending, due within a second, and exactly when the buffer is not empty |
| `LogProtocol.ItemIsThrottled` | pkg/logger/logger.go:153-177 | an item joins the waiting buffer, or is sent at once if the last broadcast is a second old, or else waits for a timer due when it is |
| `LogProtocol.AtMostOncePerSecond` | pkg/logger/logger.go:158-172 | broadcasts are never empty, and n broadcasts apart are n seconds apart |
| `LogProtocol.SubscriberSeesAll` | pkg/logger/logger.go:140-146 | from joining to its stop, or until now, a channel was given the batches of some broadcasts in strictly increasing order, and missed exactly the others; if none, it has them all; what it still holds is the end of what it was given |
| `LogProtocol.BroadcastPuts` | pkg/logger/logger.go:140-146 | a broadcast appends its batch to the queue of every subscriber that holds fewer than a hundred, counts a miss for the full ones, and leaves other channels alone |
| `LogProtocol.NeverFullSeesAll` | pkg/logger/logger.go:140-146 | over every run, a channel that never held a hundred unreceived batches was given every batch broadcast since it joined |
| `LogProtocol.FewBroadcastsAllSeen` | pkg/logger/logger.go:111-146 | so was, in every reachable state, one that was offered at most a hundred, whether it received any or not |
| `LogProtocol.SubscribersOpenIff` | pkg/logger/logger.go:111-135 | subscribers are distinct, and all open exactly when none was stopped while it was joining |
| `LogProtocol.StoppedWhileJoiningPanics` | pkg/logger/logger.go:114-121 | from a state with such a channel some continuation without further early stops panics |
| `LogProtocol.NeverPanicsIff` | pkg/logger/logger.go:111-151 | orderly continuations of a reachable state never panic exactly when it holds no such channel |
| `LogProtocol.EarlyStopPanics` | pkg/logger/logger.go:111-124 | from the start, a channel made and stopped before it is appended leads to a panic |
| `LogProtocol.OrderlyRunNeverPanics` | pkg/logger/logger.go:111-151 | if stops fire only after `SubscribeToLog` has returned, no run sends on or closes a closed channel |
| `LogProtocol.WithoutClosesGap` | pkg/logger/logger.go:128-132 | removing a subscriber drops that one and keeps the order of the rest |
| `LogBroadcaster.Broadcaster.AddLogItem` | pkg/logger/logger.go:89-98 | takes exactly the add step and keeps the invariant |
| `LogBroadcaster.Broadcaster.SendToAll` | pkg/logger/logger.go:140-146 | every subscriber's channel gets the buffer at the end of its queue unless it is full, and no other channel changes |
| `LogBroadcaster.Broadcaster.BroadcastLogItem` | pkg/logger/logger.go:153-177 | takes exactly the broadcast step: send, arm the timer, or leave it to the pending one |
| `LogBroadcaster.Broadcaster.TimerFired` | pkg/logger/logger.go:165-169 | takes exactly the timer step |
| `LogBroadcaster.Broadcaster.AppendSubscription` | pkg/logger/logger.go:119-121 | takes exactly the join step, growing the slice when it is full |
| `LogBroadcaster.Broadcaster.RemoveInPlace` | pkg/logger/logger.go:128-132 | the removal inside the range loop, with its stale tail, removes that subscriber alone |
| `LogBroadcaster.ShiftedDiffers` | pkg/logger/logger.go:128-132 | after the removal the loop, which revisits shifted and stale elements, does not meet the channel again |
| `LogBroadcaster.Broadcaster.UnsubscribeFromLog` | pkg/logger/logger.go:126-135 | takes exactly the stop step on a channel that was open |
| `AuthProtocol.StepKeeps` | internal/auth/cache.go:34-68 | every single map operation, in time or not, keeps what entries and fills in flight say about their rows, and that a fresh fill sees the current tombstone |
| `AuthProtocol.StepStaysSafe` | internal/auth/cache.go:48-68 | an operation in time, other than an invalidation inside a CacheSet of the id, keeps the id free of stale entries and endangered fills |
| `AuthProtocol.EndangeredIsServed` | internal/auth/cache.go:48-63 | an endangered fill has a continuation, in time and without such an invalidation, after which its stale row is in the cache |
| `AuthProtocol.NeverServesStaleIff` | internal/auth/cache.go:34-68 | from any state that some run reaches, all continuations of that kind keep the id fresh exactly when nothing stale is cached and no fill in flight is endangered |
| `AuthProtocol.NoReadBeforeInvalidateIsServed` | internal/auth/cache.go:48-68 | from the start, with fills in time and no invalidation inside a CacheSet of the id, an entry was read after the last invalidation, and so with every write before it |
| `AuthProtocol.RacingFillServesStale` | internal/auth/cache.go:52-62 | a run in time in which an invalidation inside a CacheSet leaves a stale entry |
| `AuthProtocol.RaceCanPass` | internal/auth/cache.go:52-68 | another one after which the id is safe again |
| `AuthProtocol.HitIsRecent` | internal/auth/cache.go:34-46 | under any interleaving every hit that was returned had been stored at most the cache's lifetime before the check of its expiry, from a row of that id |
| `AuthProtocol.CheckHits` | internal/auth/cache.go:40-45 | a check in time ends the call with a hit on the entry that was loaded and changes no table |
| `AuthProtocol.CheckMisses` | internal/auth/cache.go:40-43 | a later one ends it without a hit, and with the entry deleted |
| `AuthProtocol.GetIff` | internal/auth/cache.go:34-46 | a look-up hits exactly when there is an entry that has not expired, changes nothing then, and otherwise leaves no entry of the id |
| `AuthProtocol.SetThenGet` | internal/auth/cache.go:34-63 | after a CacheSet that no tombstone turned away the look-up hits up to the lifetime later and never after; one that was turned away changes nothing |
| `AuthProtocol.InvalidateThenGet` | internal/auth/cache.go:48-68 | after an invalidation there is no hit, and a CacheSet is turned away exactly during the tombstone's life |
| `AuthProtocol.OtherIdsUntouched` | internal/auth/cache.go:34-68 | no call touches what the tables hold for another id |
| `AuthProtocol.CallAdds` | internal/auth/cache.go:34-68 | an uninterrupted call is the sequence of its operations, so the facts about operations hold for calls |
| `AuthProtocol.UninterruptedCallsNeverServeStale` | internal/auth/cache.go:34-68 | with each call atomic nothing read before an invalidation is cached after it |
| `AuthProtocol.StaleServedIff` | internal/auth/cache.go:48-68 | a row filled in after an invalidation is served exactly when the tombstone had expired; never when the fill took less than its life |
| `AuthCache.Cache.CacheGet` | internal/auth/cache.go:34-46 | a hit exactly for an entry whose expiry has not passed, which stays; otherwise the id has no entry afterwards and other ids keep theirs |
| `AuthCache.Cache.CacheSet` | internal/auth/cache.go:48-63 | nothing for no user or under a live tombstone, otherwise tombstone out and entry in |
| `AuthCache.Cache.CacheInvalidate` | internal/auth/cache.go:65-68 | tombstone in, entry out |
| `AuthCache.Cache.GetUserAndRoles` | internal/api/server.go:50-68 | no user and bad ids without the cache, hits from it, a failed read without filling it, and otherwise what was read, filled in |
| `MemberMerge.MergeRows` | internal/queries/performer.sql.go:1003-1039 | row by row: what a reassign and delete leaves |
| `MemberMerge.MergeKeepsUnique` | internal/queries/performer.sql.go:1003-1008 | the merge keeps the table's key |
| `MemberMerge.MergeUnitesOwners` | internal/queries/tag.sql.go:482-487 | the target has its own and the source's owners, the source none, others what they had |
| `MemberMerge.MergeUnitesIff` | internal/queries/performer.sql.go:275-277 | the target ends with both sets of owners exactly when source and target differ or there were none |
| `MemberMerge.MergeAllRows` | internal/queries/performer.sql.go:1003-1039 | for a list of sources: key kept, sources empty, and which of several rows for one owner survives |
| `MemberMerge.FirstSourceWins` | internal/service/edit/performer.go:488-509 | of an owner the target lacked, the only row that arrives is the one of the earliest source with that owner |
| `MemberMerge.TargetKeepsItsRow` | internal/queries/performer.sql.go:1003-1008 | of an owner the target had, its row stays and no other arrives |
| `MemberMerge.MergeAllUnitesOwners` | internal/queries/performer.sql.go:1020-1029 | the target's owners are the union over all sources |
| `MemberMerge.OrderOfSourcesIrrelevant` | internal/queries/performer.sql.go:244-253 | in whatever order and with whatever repeats the sources come |
| `MemberMerge.JoinTable.ReassignRows` | internal/queries/performer.sql.go:1003-1008 | the update moves exactly the rows whose owner is not with the target yet |
| `MemberMerge.JoinTable.MergeSources` | internal/service/edit/performer.go:488-509 | source after source, reassign and delete give the merged table |
| `Redirects.MergeKeepsForest` | internal/queries/tag.sql.go:533-535 | merging a live source into another, unmerged target keeps redirects compressed and equal to the roots of the merge history |
| `Redirects.TagMergeIff` | internal/service/edit/tag.go:292-327 | a tag merge succeeds exactly from a live source without a redirect to an existing target, deleted or not; a missing and a deleted source are told apart |
| `Redirects.PerformerMergeIff` | internal/service/edit/performer.go:527-556 | a performer merge succeeds exactly from such a source to a live target |
| `Redirects.TagMergeCompressedIff` | internal/service/edit/tag.go:292-327 | a tag merge leaves redirects compressed exactly when source and target differ and the target was not merged away |
| `Redirects.MergeIntoMergedTag` | internal/service/edit/tag.go:292-327 | after creating three tags and one merge, a merge into the merged tag is accepted and the lookup of its source finds nothing |
| `Redirects.PerformerMergeKeepsForestIff` | internal/service/edit/performer.go:527-556 | a performer merge succeeds exactly between live performers, and is right exactly when they differ |
| `Redirects.RunKeepsForest` | internal/queries/performer.sql.go:1231-1243 | every sequence of creations, destructions and merges into targets that were not merged away, destroyed or not, keeps it |
| `Redirects.LookupFindsRoot` | internal/queries/tag.sql.go:258-265 | the lookup with one redirect finds the root of the merge history if it is live, and otherwise nothing |
| `Redirects.RedirectsStayCompressed` | internal/queries/performer.sql.go:672-679 | after any run no id is source and target, a source has one redirect, to its root, and every lookup finds that root |
| `Redirects.EntityTables.UpdateRedirects` | internal/queries/tag.sql.go:533-545 | every redirect to the one id leads to the other, the rest stay |
| `Redirects.EntityTables.MergeTagInto` | internal/service/edit/tag.go:292-327 | the statements in order take exactly the merge step, or fail and change nothing |
| `Redirects.EntityTables.MergePerformerInto` | internal/service/edit/performer.go:278-292 | likewise, with both ends checked |
| `Fingerprints.MoveRows` | internal/queries/fingerprint.sql.go:499-507 | row by row: what prune and move leave |
| `Fingerprints.MoveConserves` | internal/queries/fingerprint.sql.go:542-558 | onto another scene: keys unique, nothing left on the source, other rows untouched, exactly one new row per submitter without a row on the target, and the table shorter by the pruned rows |
| `Fingerprints.SubmitterArrivesIff` | internal/queries/fingerprint.sql.go:549-557 | a submitter of the source is one of the target afterwards exactly when that user has not reported the fingerprint there |
| `Fingerprints.TargetSubmitters` | internal/queries/fingerprint.sql.go:542-558 | so the target's submitters are its own and the source's without its reporters, who stay the same |
| `Fingerprints.ReportedAreSubmitters` | internal/service/scene/service.go:744-751 | the users returned are exactly those who had submitted, not reported, the fingerprint on the source |
| `Fingerprints.SubmissionsSurviveIff` | internal/service/scene/service.go:699-742 | every submitter of the source is one of the target afterwards exactly when there was none, or the scenes differ and none of them had reported the fingerprint on the target |
| `Fingerprints.ReportSwallowsSubmission` | internal/service/scene/service.go:744-751 | a legal table in which the only submission is lost to its user's report while the user is reported as moved |
| `Fingerprints.MoveAllReports` | internal/service/scene/service.go:718-752 | a list is moved exactly when each fingerprint is still on the source at its turn; only those move, and per hash the last one's users are reported |
| `Fingerprints.MoveAllSubmitters` | internal/service/scene/service.go:718-752 | each listed fingerprint ends with the target's submitters and the source's without the target's reporters, others with what they had |
| `Fingerprints.SubmissionTable.Prune` | internal/queries/fingerprint.sql.go:542-558 | deletes and returns reports and rows that would collide |
| `Fingerprints.SubmissionTable.MoveSubmissions` | internal/queries/fingerprint.sql.go:499-507 | moves the rest and returns their users |
| `Fingerprints.SubmissionTable.MoveFingerprintSubmissions` | internal/service/scene/service.go:697-761 | the loop equals the list's move, and an error leaves the table as it was |
| `Fingerprints.DeleteUserKeepsFingerprints` | internal/queries/fingerprint.sql.go:599-609 | with another sentinel: keys unique, other users untouched, nothing of the user left, and every fingerprint of every scene that had a row still has one |
| `Fingerprints.FingerprintsSurviveIff` | internal/service/user/service.go:311-325 | no pair loses its last row exactly when the sentinel is someone else or the user shares every row |
| `Fingerprints.SubmittedSurvivesIff` | internal/service/user/service.go:311-325 | every pair with a submission still has one exactly when each of the user's is kept for the sentinel or somebody else submitted the same |
| `Fingerprints.OnlyReportLeft` | internal/queries/fingerprint.sql.go:603-608 | a table in which deleting a user leaves only another user's report |
| `Fingerprints.SubmissionTable.Delete` | internal/service/user/service.go:300-335 | reassign, then drop the user's rows |
| `FingerprintCounts.GroupsAddUp` | internal/queries/fingerprint.sql.go:409-420 | counts per duration add up to the count over the durations |
| `FingerprintCounts.NetIsDifference` | internal/queries/fingerprint.sql.go:210-212 | the sum of votes is submissions less reports |
| `FingerprintCounts.GroupedCountsAreDirectCounts` | internal/queries/fingerprint.sql.go:401-421 | the two-level query's sums equal the one-level query's counts; durations strictly increase and their counts are aligned and add up |
| `PhashClosure.PopcountCounts` | internal/service/fingerprint/cluster.go:341 | the population count is the number of positions that are set |
| `PhashClosure.NearIffFewDiffer` | internal/service/fingerprint/cluster.go:334-347 | two hashes are near exactly when they differ in at most the distance many of their 64 bits |
| `PhashClosure.EmptyFrontierIsClosure` | internal/service/fingerprint/cluster.go:175-278 | a search that has run dry without a cap has found exactly what chains of near hashes and shared scenes reach |
| `PhashClosure.Probe` | internal/service/fingerprint/cluster.go:176-198 | the batches of at most 64 give the neighbours of the whole frontier |
| `PhashClosure.Admit` | internal/service/fingerprint/cluster.go:240-251 | new ids join with their hashes until the cap, the frontier gets one hash each, and the cap is hit only with an id left over |
| `PhashClosure.Round` | internal/service/fingerprint/cluster.go:175-278 | a round finds only what is reachable, exactly its frontier's neighbours and their scenes' hashes unless a cap is hit, and says which cap was |
| `PhashClosure.OnTheTrack` | internal/service/fingerprint/cluster.go:200-278 | looking only at the frontier finds the same as looking at all members again |
| `PhashClosure.ExpandClosure` | internal/service/fingerprint/cluster.go:158-284 | only reachable hashes, the seeds among them, at most 500 unless the seeds are more; truncated exactly when ten rounds bring too many scenes, too many members or do not settle; otherwise everything reachable |
| `Components.LabelsDecide` | internal/service/fingerprint/cluster.go:363-377 | labels equal along edges and only between joined nodes decide who is joined |
| `Components.MergedLabelsJoin` | internal/service/fingerprint/cluster.go:363-368 | uniting two classes is right once the edge between them is there |
| `Components.UnionFind.Find` | internal/service/fingerprint/cluster.go:356-362 | finds the root and compresses the path without changing any node's root |
| `Components.UnionFind.Union` | internal/service/fingerprint/cluster.go:363-368 | gives the first node's class the second one's root and keeps every other |
| `Components.ComputeEdges` | internal/service/fingerprint/cluster.go:334-347 | exactly the pairs within distance, the earlier member first |
| `Components.ConnectedComponents` | internal/service/fingerprint/cluster.go:351-389 | sorted groups, each a whole component with every node as often as given, together all nodes, no two joined |
| `Components.KeepSeeded` | internal/service/fingerprint/cluster.go:107-120 | keeps exactly the groups that hold a seed, none of them twice |
| `Components.JoinedIffSimilar` | internal/service/fingerprint/cluster.go:331-347 | nodes are joined by edges exactly when a chain of near members connects them |
| `Components.SeedClusters` | internal/service/fingerprint/cluster.go:75-120 | members are together exactly when such a chain connects them, and kept exactly when one starts at a seed |
| `Components.ClusterScenes` | internal/service/fingerprint/cluster.go:37-120 | clusters share no member, and of the members that the search found, truncated or not, they are exactly the classes of chains of near hashes from one of the scene's; truncated exactly over the caps, and otherwise they are the classes of such chains through the whole table |
| `Arguments.Selected` | pkg/utils/arguments.go:20-29 | the loop finds a value exactly when a chain of selections leads to it |
| `Arguments.IsNull` | pkg/utils/arguments.go:32-35 | true exactly when the place exists and holds null |
| `Arguments.ChildHolds` | pkg/utils/arguments.go:37-45 | a child query finds what its own selector finds in what the query finds |
| `Arguments.FieldHolds` | pkg/utils/arguments.go:48-57 | a field is there exactly when the query names an object that has it |
| `Arguments.IndexHolds` | pkg/utils/arguments.go:60-75 | an element is there exactly when the query names a list that is long enough |
| `Arguments.NullHasNoFields` | pkg/utils/arguments.go:48-57 | null for a whole object does not make its fields null |
| `EditFields.Diff` | internal/models/translate.go:21-45 | the least edit between two values: both when they differ, otherwise nothing |
| `EditFields.DiffNullUuid` | internal/models/translate.go:47-57 | likewise, whatever the id behind an invalid one |
| `EditFields.DiffEnum` | internal/models/translate.go:59-74 | likewise, with unknown constants counted as no value |
| `EditFields.FieldPatchIff` | internal/models/assign/assign.go:14-63 | a field ends as asked exactly when it stays as it was, or is a known value other than the known one before and no cleared name |
| `EditFields.FieldValidatedIff` | internal/models/validator/validator.go:37-89 | a field that passes validation is still what it was exactly when it is present as it was, with a known value |
| `EditRecords.AskedFields` | internal/models/extension_edit_details.go:177-215 | in what a request asks for, a given value wins, null clears, and what is left out stays |
| `EditRecords.EditFieldsIff` | internal/models/translate.go:21-74 | an edit holds, of each field that differs, the values before and after, where an unknown enum value is none; of other fields nothing |
| `EditRecords.PatchedFields` | internal/models/assign/assign.go:14-63 | a field becomes the value after, or nothing if there was one before and it is not the name, or else stays |
| `EditRecords.AllSettableIff` | internal/models/assign/assign.go:14-63 | a request can be met exactly when each field stays, or is given a value that is no unknown enum value, or is one other than the name that is cleared of such a value |
| `EditRecords.ExpectedIff` | internal/models/validator/validator.go:37-89 | a record is as an edit expects exactly when each old value is there, or, but for name, studio and category, nothing known is |
| `EditRecords.TitleNulls` | internal/models/extension_edit_details.go:186-191 | title and details are null in a request exactly when the arguments of those names are |
| `EditRecords.DatesNulls` | internal/models/extension_edit_details.go:192-197 | likewise `date` and `production_date` |
| `EditRecords.StudioNulls` | internal/models/extension_edit_details.go:198-203 | likewise `studio_id` and `duration` |
| `EditRecords.CodeNulls` | internal/models/extension_edit_details.go:204-209 | likewise `director` and `code` |
| `EditRecords.TagNulls` | internal/models/extension_edit_details.go:14-22 | likewise `name`, `description` and `category_id` |
| `EditRecords.PerformerNulls` | internal/models/extension_edit_details.go:61-72 | likewise disambiguation, gender, birth and death date |
| `EditRecords.LooksNulls` | internal/models/extension_edit_details.go:73-84 | likewise ethnicity, country, eye and hair colour |
| `EditRecords.MeasurementNulls` | internal/models/extension_edit_details.go:85-101 | likewise the measurements |
| `EditRecords.CareerNulls` | internal/models/extension_edit_details.go:102-110 | likewise breast type and career years |
| `EditRecords.PatchIff` | internal/models/model_performer.go:75-93 | the patch gives the record asked for exactly when every field can be set to it |
| `EditRecords.InversePatchIff` | internal/models/model_scene.go:57-66 | the diff with before and after swapped is the diff back, and restores the original exactly when every field can be set back |
| `EditRecords.NoChangeIff` | internal/service/edit/scene.go:78-80 | before and after of an edit are equal exactly when both are empty, and exactly when no field changes its known value |
| `EditRecords.AskedTwice` | internal/models/extension_edit_details.go:186-209 | asking again for what is there asks for no change |
| `EditRecords.PatchIsThreeWay` | internal/models/assign/assign.go:14-63 | on a record that changed since, each field becomes the value asked for if the edit changes it, and otherwise stays |
| `EditRecords.EditsChain` | internal/models/model_scene.go:57-66 | edits made one on top of the other give the last record, as their combined edit does |
| `EditRecords.UndoIff` | internal/models/model_scene.go:57-66 | the inverse edit restores any record exactly when no touched field had moved |
| `EditRecords.ValidatedUndoIff` | internal/models/model_performer.go:95-145 | a validated edit can be undone exactly when in its fields there is a known value now if and only if there was one |
| `EditRecords.EditsCommuteIff` | internal/models/model_scene.go:57-66 | two edits can be applied to all records in either order exactly when they agree on every field both have an effect on |
| `EditRecords.NamedPatch` | internal/models/model_tag.go:28-32 | a patch keeps a name that was asked to be null and sets everything else |
| `Edits.DiffField` | internal/models/extension_edit_details.go:186-188 | the gate and the diff together are the least edit to the given value, to null when given as null, to the original when left out |
| `Edits.Scene.SceneEditFromDiff` | internal/models/extension_edit_details.go:177-215 | fails exactly for a date that is not acceptable; otherwise the least edit from the scene to the fields asked for |
| `Edits.Scene.CopyFromSceneEdit` | internal/models/model_scene.go:57-66 | every field is patched by its own pair of values, and no other |
| `Edits.Scene.ValidateModifyEdit` | internal/models/model_scene.go:68-91 | passes exactly when each old value is still there, or absent now in a field other than the studio |
| `Edits.ScenePatchAndInverse` | internal/models/model_scene.go:57-66 | every edit of a scene can be applied and inverted, and is empty exactly for no change |
| `Edits.EditScene` | internal/service/edit/scene.go:68-84 | diff, then copy: the scene has exactly the fields asked for, and diffing the same input again is empty |
| `Edits.SceneValidationOverwrites` | internal/models/validator/validator.go:45-53 | a validated edit that overwrites a title given in the meantime |
| `Edits.Tag.TagEditFromDiff` | internal/models/extension_edit_details.go:8-28 | the least edit from the tag to the fields asked for |
| `Edits.Tag.CopyFromTagEdit` | internal/models/model_tag.go:28-32 | every field is patched by its own pair of values, the name only replaced |
| `Edits.Tag.ValidateModifyEdit` | internal/models/model_tag.go:34-42 | passes exactly when each old value is still there, or the description is absent now |
| `Edits.EditTag` | internal/models/extension_edit_details.go:8-28 | diff, then copy: the fields asked for, but a name asked to be null stays; diffing again is empty exactly when it was not |
| `Edits.Performer.PerformerEditFromDiff` | internal/models/extension_edit_details.go:45-116 | fails exactly for birth or death dates that are not acceptable; otherwise the least edit to the fields asked for |
| `Edits.Performer.CopyFromPerformerEdit` | internal/models/model_performer.go:75-93 | every one of the seventeen fields is patched by its own pair of values |
| `Edits.Performer.ValidateModifyEdit` | internal/models/model_performer.go:95-145 | passes exactly when each old value is still there, or in a field other than the name nothing is there or an unknown enum value |
| `Edits.EditPerformer` | internal/models/extension_edit_details.go:45-116 | diff, then copy: exactly the fields asked for if and only if each of them can be set; then diffing again is empty |
| `Edits.PerformerSettable` | internal/models/translate.go:59-74 | among known enum values that is every request that does not clear the name |
| `SetDiffs.Includes` | pkg/utils/slice_compare.go:4-11 | membership |
| `SetDiffs.SliceCompare` | pkg/utils/slice_compare.go:13-27 | added and missing are exactly the one-sided elements, each once, in order of first occurrence |
| `SetDiffs.OnlyInDetermined` | pkg/utils/slice_compare.go:13-27 | that determines both lists |
| `SetDiffs.MergeRebuilds` | internal/queries/edit.sql.go:1116-1144 | on the list it was made against, the merged view is the list asked for, and the inverse goes back |
| `SetDiffs.MergeIsThreeWay` | internal/queries/edit.sql.go:481-495 | on any other list the edit decides about its own changes and nothing else, so later additions stay |
| `SetDiffs.MergesCommuteIff` | internal/queries/edit.sql.go:1133-1139 | two edits merge alike in both orders exactly when neither removes what the other adds |
| `SetDiffs.SameIffAlike` | internal/service/edit/scene.go:157-189 | two appearances are the same exactly when their performers are equal and their credits equal, or both absent or empty |
| `SetDiffs.AppearanceCompare` | internal/service/edit/scene.go:156-232 | added: requested ones without a stored row of the same performer and credit, no credit and an empty one being the same; missing: stored ones without such a request, one of each kind and every one when no performer is stored twice |
| `SetDiffs.AppearancesThreeWay` | internal/queries/edit.sql.go:958-990 | on any current list: requested ones new to the snapshot come in, stored ones without an alike request go, everything else stays |
| `SetDiffs.AppearancesRebuilt` | internal/queries/edit.sql.go:958-990 | on the snapshot the merged view has every requested appearance up to the spelling of no name, and nothing else |
| `SetDiffs.AppearancesRebuiltIff` | internal/service/edit/scene.go:157-189 | it is exactly the request unless a requested row and a stored one of the same performer have one no credit and the other an empty one |
| `SetDiffs.RespelledRequest` | internal/service/edit/scene.go:157-189 | one request that does |
| `SetDiffs.LastAtIsLast` | internal/service/edit/performer.go:294-337 | the one compared with at a place is the one after which no other is at that place |
| `SetDiffs.FirstChangedIsFirst` | internal/service/edit/performer.go:294-337 | before the one that is taken as changed, all at its place were the last of the other list |
| `SetDiffs.BodyModCompare` | internal/service/edit/performer.go:294-337 | per place, the first one that is not the last of the other list |
| `SetDiffs.BodyModsThreeWay` | internal/queries/edit.sql.go:574-603 | on any current list: per place the first requested one that was not stored comes in, the stored one goes unless requested last, everything else stays |
| `SetDiffs.BodyModsRebuiltIff` | internal/queries/edit.sql.go:574-603 | on the snapshot the merged view never invents, and is the request exactly when every place is settled, as with one modification a place |
| `HashCodec.HexIsCanonical` | internal/models/scalars.go:44-52 | printing any value gives sixteen lower-case hex digits, whose value is the hash, plus 2^64 if it is negative |
| `HashCodec.RoundTrip` | internal/models/scalars.go:49-92 | both parsers return the value that was printed, with quotes or without |
| `HashCodec.HexIsInjective` | internal/models/scalars.go:44-47 | different values print differently |
| `HashCodec.HexOrder` | internal/models/scalars.go:44-47 | strings are in the order of the values within each sign, and those of the negative ones come last |
| `HashCodec.DigitsAre` | internal/models/scalars.go:54-63 | the digits that are read are 0 to 9 and a to f in both cases, with these values |
| `HashCodec.TrimsOuterQuotes` | internal/models/scalars.go:56 | trimming removes all quotes on either side and nothing else |
| `HashCodec.DropsEveryQuote` | internal/models/scalars.go:82 | replacing removes every quote, wherever it is, and nothing else |
| `HashCodec.JsonReadIff` | internal/models/scalars.go:54-63 | stored JSON is read exactly when it is hex of some length below 2^64, and as the number's two's complement |
| `HashCodec.RequestIgnoresQuotes` | internal/models/scalars.go:77-92 | a request is read as if its quotes were not there: as zero beyond sixteen characters, and otherwise like stored JSON |
| `HashCodec.HashVar.UnmarshalJSON` | internal/models/scalars.go:54-63 | stores what the trimmed string says, or nothing and an error |
| `HashCodec.PrintAfterParse` | internal/models/scalars.go:77-92 | printing what was read gives the same digits, lower-case and padded |
| `HashCodec.PrintIsStable` | internal/models/scalars.go:54-92 | reading that again, by either parser, gives the same value |
| `HashCodec.ParsersAgreeIff` | internal/models/scalars.go:54-92 | on strings without quotes the parsers agree exactly up to sixteen characters or when the longer string writes zero |
| `HashCodec.RequestFailsIff` | internal/models/scalars.go:77-92 | a request's hash is refused exactly when it is empty, or short and not hex |
| `FuzzyDates.ValidateFuzzyString` | internal/models/translate.go:76-101 | accepts exactly the years, months and days that are prefixes of some day |
| `FuzzyDates.AcceptedResolvesToEarliest` | internal/api/utils.go:16-40 | what is accepted resolves to the earliest day with that prefix; parsing gives that day and accepts nothing else |
| `FuzzyDates.AcceptedDayIff` | internal/models/translate.go:95-98 | a whole day is accepted exactly when the Gregorian calendar, by its month lengths and leap years, has it |
| `FuzzyDates.TwoIsDecimal` | pkg/utils/date.go:20-24 | two digits are the tens and the units |
| `FuzzyDates.AccuracyIsWhatIsKnown` | internal/api/utils.go:21-37 | day accuracy means one possible day, year accuracy means different possible months |
| `FuzzyDates.ReadThenWritten` | pkg/utils/date.go:20-24 | reading a day and writing it gives the string back |
| `FuzzyDates.WrittenThenRead` | pkg/utils/date.go:20-24 | and the other way round |
| `FuzzyDates.YearDayCounts` | internal/api/resolver_model_performer.go:64-66 | day numbers count by one through every year |
| `FuzzyDates.AgeIsOffBy` | internal/api/resolver_model_performer.go:60-66 | the computed age is the completed years, plus one on certain eves and less one on certain birthdays |
| `FuzzyDates.AgeRightIff` | internal/api/resolver_model_performer.go:60-66 | it is right exactly on the other days, and always between years of the same length |
| `FuzzyDates.BirthdayCountedLate` | internal/api/resolver_model_performer.go:64-66 | born on 1 March 2000, still 22 on 1 March 2023 |
| `FuzzyDates.BirthdayCountedEarly` | internal/api/resolver_model_performer.go:64-66 | born on 1 March 2001, already 23 on 29 February 2024 |
| `FuzzyDates.Age` | internal/api/resolver_model_performer.go:42-69 | an age exactly for an acceptable birth date: the completed years, up to that error, from the earliest day it can mean to the earliest the death date can mean if it is readable, and to today otherwise |

## Left out

- Voting and closing of edits (`internal/service/edit/service.go`): one decision over counts, without state that later steps rely on.
- `AmendEdit`, edit status setters and cancelling a user's edits: single assignments.
- The other nineteen generated loaders, and the scene and studio copies of the redirect queries: the same code.
- Aliases of resolvers that sort a loaded slice in place: loader values are immutable here.
- `LoaderProtocol.Prime`: does not model the lazy creation of the cache map, nor the mutex that a panic leaves locked.
- How long timers sleep, and fairness of the scheduler: progress is stated as enabled work and a falling measure.
- Setting and clearing credited names when a performer is merged (`SetScenePerformerAlias`, `ClearScenePerformerAlias`), and the joins a
  soft delete removes: they change columns and tables that no modelled property mentions.
- The checks that a submitted merge names different, existing entities, made before the edit is voted on: the modelled calls are the
  ones made when it is applied.
- The trigger that removes orphaned fingerprints: it does not touch submissions.
- The most frequent duration (`mode()`), created and updated times and the per-user flags of the fingerprint queries.
- `Fingerprints.MoveAllReports`: stated for two different scenes; what a move onto the same scene loses is in `SubmissionsSurviveIff`.
- `MemberMerge.MergeAllRows`: stated for a target that is not among the sources, which is refused when a merge is submitted.
- OSHASH links, the submissions shown per cluster member, and the order in which clusters are listed.
- `Components.ClusterScenes`: does not model failures of the queries.
- `Edits.Scene.ValidateModifyEdit`: does not model which field the error names, only whether there is one; likewise for tags and
  performers.
- `EditFields.DiffEnum`: does not list the constants of the enums; a value is one of them or it is not.
- `SetDiffs.MergeRebuilds`: does not model the join that hides deleted tags and performers, nor ordering by name.
- `SetDiffs.BodyModCompare`: does not model stored rows without a location.
- `Edits.Scene.SceneEditFromDiff`: does not model drafts, nor the text of JSON in which the edit is stored.
- `HashCodec.HashVar.UnmarshalJSON`: does not model the text of errors.
- `FuzzyDates.Age`: does not model time zones; today is a parameter.
- HTTP, GraphQL wiring, sessions, images, search ranking, configuration and migrations, except for the keys the migrations declare.
