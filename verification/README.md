# Open Playlist Engine: verified model

This Dafny project models the self-contained algorithms of Open Playlist Engine and proves what they
promise: grouping provider copies into unified playlists, merging their tracks, keeping the graph of
sync rules free of feedback loops, diffing playlist snapshots, leasing imported playlists to worker
jobs, rate limiting, guarding XML uploads, allocating export filenames and reading chunked HTTP bodies.

`dafny verify dfyconfig.toml` checks everything.

## How it is built

| file | models |
|---|---|
| `Text.dfy`, `Sorting.dfy`, `Counters.dfy` | decimal numerals, string order, stable sorting, filters and counters shared by the rest |
| `Tracks.dfy`, `TrackMerge.dfy` | match keys of tracks; first-fit merging of the tracks of one unified playlist |
| `Alignment.dfy` | whether the copies of one unified playlist hold the same songs in the same order |
| `Partitions.dfy`, `Grouping.dfy` | union-find parents and the partition they stand for; the link phase and the overlap phase |
| `Greedy.dfy` | the exact rule by which the overlap phase chooses among claimants |
| `UnifiedPlaylists.dfy`, `PlaylistGrouper.dfy` | the unified playlists and their theorems; the run that computes them by updating its dictionaries |
| `Reachability.dfy`, `SyncGraph.dfy`, `SyncHandlers.dfy` | the worklist search; sync rules and pending migrations as a state machine; the handlers |
| `Snapshots.dfy` | occurrence-numbered tokens, the diff, mapping carry-over |
| `ImportLease.dfy` | the lease on an imported playlist |
| `RateLimit.dfy` | token buckets over real arithmetic |
| `XmlGuard.dfy` | the chunked scan for forbidden XML declarations |
| `Filenames.dfy` | safe filenames and their case-insensitive allocation |
| `ChunkedBody.dfy` | the chunked-body reader (section 7.1 of RFC 9112) |

Code that updates objects, dictionaries or a stream is a class or a method with loops, proved against a
specification function; the theorems are about those functions and about runs of steps.

## How the source is read

- A playlist's member key and a rule id are natural numbers: their rank in Python's string order. The
  code only compares them for equality and order. Track keys and snapshot tokens stay strings.
- `normalize_text` is not modelled: playlists carry their normalized name, tracks their normalized
  signature and song text, and snapshot tracks their identity. `TrackMerge.KeyIsClean` uses of this only
  that upper-cased ISRCs hold no ASCII lower-case letter and normalized text and digests hold no colon.
- It is assumed that a sync handler is one atomic step. Creating a rule, requesting a continuous migration and
  resuming take the per-user graph lock between their check and their commit, but that lock does nothing on a
  database other than PostgreSQL; pausing, deleting and the worker's status updates take no graph lock, and
  only change or remove edges already there, or a job's status.
- Schedule, provider and drift checks outside the graph are two booleans. A rule's run state and review state,
  and a job's unresolved items, are flags that other code sets.
- A job's items are one flag `unresolved`; both the rule handler and the promotion look for items in
  need of review or failed.
- Clocks are parameters. A worker may start or finish a job whatever its status was, as the two status
  helpers do; theorems say where they need jobs that ended to stay ended.
- `docs/UNIFIED_PLAYLISTS.md` says cross-provider copies with one normalized name and a common identifiable song
  are grouped. The code also wants equal kinds, and refuses to join groups that share an account. Neither
  restriction is in the documentation: `UnifiedPlaylists.DocumentedGroupingFails` and
  `UnifiedPlaylists.KindsStayApart` give playlists that stay apart because of one or the other, and
  `UnifiedPlaylists.DocumentedGroupingExactly` says exactly when every documented pair is grouped. There a pair
  is copies in two different accounts, as the documentation's next rule excepts copies in the same account;
  reading "cross-provider" as two different providers, `UnifiedPlaylists.CrossProviderGrouping` shows the same
  condition to suffice, and to be exact where no provider's accounts hold copies of each other.
- `docs/UNIFIED_PLAYLISTS.md` calls a unified playlist aligned when every copy has the same songs in the same
  order. The code compares each copy with the first one only, by a test that is neither transitive nor true of
  every track and itself. `Alignment.VerdictDependsOnOrder` gives copies it calls aligned or drifted depending on
  which comes first, `Alignment.IdenticalCopiesDrift` identical copies it calls drifted, and
  `Alignment.VerdictExactly` says exactly when each verdict is the documented one. Songs are the same there if
  they match or agree in ISRC, normalized texts and fallback digest; titles that all normalize to nothing are not
  told apart, by the code or the model. Equal signatures are taken to mean equal song texts, as normalized text
  holds no `|`.
- `docs/SYNCHRONIZATION.md` says an inverse rule is rejected; the code rejects every rule whose target account
  already reaches its source account, which `SyncGraph.RuleVerdictExact` states.
- "Failed jobs are not restarted" is not enforced by the code. `SyncGraph.RestartCanLoop` gives a run in
  which a restart closes a cycle and costs a job its rule, `SyncGraph.RunsKeepAll` says exactly which runs stay
  free of cycles, and `SyncGraph.RunsKeepRules` needs no such assumption.
- A blocking `acquire` on a key that neither `ensure_configured` nor `try_consume` has given a bucket is admitted at any cost (`RateLimit.UnmeteredRun`), so the
  window bound is not met by every run; `RateLimit.BoundExactly` says exactly when it is. A negative cost, which
  a blocking call accepts, gives tokens back and counts as negative in the total.
- Cleanup fails the jobs of expired queued imports but not those of failed ones, so it can leave a live job
  without its import (`ImportLease.CleanupCanStrand`); `ImportLease.LeftLiveExactly` says exactly when.

## Model

| member | source | states |
|---|---|---|
| `PlaylistGrouper.Grouper.Find` | backend/app/core/unified_playlists.py:132-136 | follows parents to the component's root and points the key at it; no key's component changes; parents strictly decrease, so it ends |
| `Partitions.RepresentsRoot` | backend/app/core/unified_playlists.py:132-136 | the component name the contracts speak of is the root that following parents reaches |
| `Partitions.CompressKeeps` | backend/app/core/unified_playlists.py:132-136 | path compression changes no component |
| `Partitions.LinkMerges` | backend/app/core/unified_playlists.py:157-162 | hanging a root under a smaller one merges exactly those two components and keeps every root the least key of its component |
| `PlaylistGrouper.Grouper.AccountsUnder` | backend/app/core/unified_playlists.py:144-153 | collects exactly the accounts of a root's component although `find` rewrites parents meanwhile |
| `PlaylistGrouper.Grouper.Union` | backend/app/core/unified_playlists.py:138-162 | merges, refuses on a shared account, or leaves alone, and moves the rule ids of the vanishing root |
| `PlaylistGrouper.Grouper.LinkAll` | backend/app/core/unified_playlists.py:164-169 | computes the link phase; every root holds exactly the rule ids of its component; source weights count loaded links |
| `Grouping.LinkComponents` | backend/app/core/unified_playlists.py:164-167 | after the link phase two playlists share a component exactly when a chain of loaded links joins them |
| `Grouping.LinkPhaseOrderFree` | backend/app/core/unified_playlists.py:164-169 | the order of the links does not change the partition |
| `PlaylistGrouper.Grouper.MatchAll` | backend/app/core/unified_playlists.py:171-182 | computes the overlap phase over all pairs in key order and keeps the rule ids exact |
| `Grouping.UniteKeepsAccounts` | backend/app/core/unified_playlists.py:143-155 | a guarded union never brings two playlists of one account together |
| `Grouping.SettledMonotone` | backend/app/core/unified_playlists.py:143-155 | components only gain accounts, so a pair merged or kept apart by a shared account stays so |
| `UnifiedPlaylists.SameAccountNeedsLinks` | backend/app/core/unified_playlists.py:138-182 | two playlists of one account end in one unified playlist exactly when links alone chain them together |
| `UnifiedPlaylists.GroupsAreJustified` | backend/app/core/unified_playlists.py:164-182 | nothing is grouped without a chain of loaded links and matching pairs |
| `UnifiedPlaylists.GreedyMaximal` | backend/app/core/unified_playlists.py:171-182 | a matching pair is grouped, or its two groups share an account |
| `Greedy.GroupsFollowRule` | backend/app/core/unified_playlists.py:171-182 | which claimant wins: in key order, a matching pair is grouped exactly unless links and the pairs grouped before it chain it to one account twice; groups are what links and grouped pairs connect |
| `Greedy.RuleUnique` | backend/app/core/unified_playlists.py:171-182 | only one partition follows that rule |
| `Greedy.ApartOnlyIfBlockedBefore` | backend/app/core/unified_playlists.py:171-182 | a matching pair ends apart only if links and matching pairs before it in key order chain it to one account twice |
| `Greedy.FirstClaimantWins` | backend/app/core/unified_playlists.py:171-182 | of two playlists of one account that match a third, the one with the smaller key joins it |
| `UnifiedPlaylists.DocumentedGroupingExactly` | backend/app/core/unified_playlists.py:171-182 | copies in two accounts with one name and a common song are all grouped if and only if links and matches chain no two playlists of one account that links alone do not chain, and do chain the documented pairs of two kinds |
| `UnifiedPlaylists.MatchesTogetherExactly` | backend/app/core/unified_playlists.py:171-182 | every matching pair is grouped if and only if no two playlists of one account are chained by links and matches without being chained by links |
| `UnifiedPlaylists.CrossProviderGrouping` | backend/app/core/unified_playlists.py:171-182 | for pairs of two providers the same condition suffices, and is exact where no provider's accounts hold copies of each other |
| `UnifiedPlaylists.CrossProviderNeeds` | backend/app/core/unified_playlists.py:171-182 | what grouping all pairs of two providers needs in general |
| `UnifiedPlaylists.DocumentedGroupingFails` | backend/app/core/unified_playlists.py:143-155 | two copies of one song under one name in one account, with a third elsewhere: the documented rule fails |
| `UnifiedPlaylists.KindsStayApart` | backend/app/core/unified_playlists.py:174-175 | two copies of one song and name but different kinds: the documented rule fails although no account repeats |
| `UnifiedPlaylists.DuplicateStaysApart` | backend/app/core/unified_playlists.py:143-155 | two unlinked playlists of one account cannot both join a third; if both match it, the documented rule fails |
| `UnifiedPlaylists.LinkedTogether` | backend/app/core/unified_playlists.py:164-167 | a loaded link's ends are in one component at the end |
| `UnifiedPlaylists.LinkInExactlyOneGroup` | backend/app/core/unified_playlists.py:214-221 | a loaded link is listed by exactly one unified playlist |
| `UnifiedPlaylists.MemberOfExactlyOneGroup` | backend/app/core/unified_playlists.py:184-186 | a loaded playlist is a member of exactly one unified playlist |
| `PlaylistGrouper.WithinIds` | backend/app/core/unified_playlists.py:206-213 | the rule ids collected at the root are those of the listed links, so the final union adds nothing |
| `PlaylistGrouper.Grouper.Components` | backend/app/core/unified_playlists.py:184-186 | lists each component once, members in catalog order |
| `PlaylistGrouper.Grouper.PickCanonical` | backend/app/core/unified_playlists.py:191-198 | the member with most links, then most tracks, then least key |
| `UnifiedPlaylists.MemberOrderLists` | backend/app/core/unified_playlists.py:199-205 | members are the group, each once, canonical first and the rest in key order |
| `UnifiedPlaylists.GroupShowsItsMembers` | backend/app/core/unified_playlists.py:190-248 | each unified playlist shows first its canonical member (most links from it, then most tracks, then smallest key), then the others by key; exactly the rule ids and links inside it, by rule id |
| `UnifiedPlaylists.ByKeyLast` | backend/app/core/unified_playlists.py:128-128 | the catalog holds for each key the last playlist of that key with an id |
| `UnifiedPlaylists.InputOrderFree` | backend/app/core/unified_playlists.py:164-221 | with distinct member keys and rule ids, permuting playlists or links changes no group, canonical member, member order, link list or row |
| `PlaylistGrouper.Load` | backend/app/core/unified_playlists.py:128-129 | later playlists replace earlier ones of the same key, those without id are skipped, and keys come in the order they are first seen |
| `PlaylistGrouper.BuildUnifiedPlaylists` | backend/app/core/unified_playlists.py:120-259 | the whole run returns the specified unified playlists |
| `Tracks.Preferred` | backend/app/core/unified_playlists.py:383-388 | the least key of the best kind present, or none |
| `TrackMerge.FirstMatch` | backend/app/core/unified_playlists.py:306-314 | the first cluster this member has not used and that matches; none only if no such cluster exists |
| `TrackMerge.BuildClusters` | backend/app/core/unified_playlists.py:297-333 | the clustering loops compute the specified clusters |
| `TrackMerge.MatchHasWitness` | backend/app/core/unified_playlists.py:372-376 | a track that matches a cluster matches one of its copies pairwise |
| `TrackMerge.MergeConserves` | backend/app/core/unified_playlists.py:297-333 | rows hold every track copy exactly once; no row has two copies of one member or two ISRCs; every later copy matches an earlier one of its row |
| `TrackMerge.MergeFirstFit` | backend/app/core/unified_playlists.py:297-333 | first fit: every earlier row already held a copy of the same member, or its earlier members' copies name another recording or do not match |
| `TrackMerge.MergedShows` | backend/app/core/unified_playlists.py:335-349 | a row shows the track of its first source, and goes by its ISRC, else its least signature, else its digest, numbered from the second row of that key on |
| `TrackMerge.InOrderExactly` | backend/app/core/unified_playlists.py:301-304 | tracks are merged in order of position, those without one last |
| `TrackMerge.RowsPerIsrc` | backend/app/core/unified_playlists.py:297-333 | when all tracks carry ISRCs, an ISRC gets exactly as many rows as the member with most copies needs |
| `TrackMerge.KeyIsClean` | backend/app/core/unified_playlists.py:383-402 | no key of a normalized track contains the occurrence marker |
| `TrackMerge.OutputKeysDistinct` | backend/app/core/unified_playlists.py:335-342 | the keys of the rows are pairwise distinct |
| `TrackMerge.MergeTracks` | backend/app/core/unified_playlists.py:297-361 | merging and key numbering by counter give the specified rows |
| `UnifiedPlaylists.RowsOfGroup` | backend/app/core/unified_playlists.py:250-250 | in every unified playlist the rows conserve copies, are first fit, show their first source and have distinct keys |
| `Alignment.AlignmentOf` | backend/app/core/unified_playlists.py:276-294 | aligned exactly when several copies each match the first position by position |
| `Alignment.MatchMeans` | backend/app/core/unified_playlists.py:364-369 | two tracks match by ISRC when both have one, otherwise by song text alone |
| `Alignment.AllMatchExactly` | backend/app/core/unified_playlists.py:276-294 | all copies match pairwise exactly when equally long and each position has one ISRC at most, and one song text if a copy there lacks an ISRC |
| `Alignment.SameSongsMatch` | backend/app/core/unified_playlists.py:276-294 | copies with the same songs in the same order pass the comparison exactly when the first one's tracks are all identifiable |
| `Alignment.VerdictExactly` | backend/app/core/unified_playlists.py:276-294 | copies with the same songs in the same order are called aligned exactly when the first one's tracks are all identifiable; copies called aligned have them exactly when every position is uniform |
| `Alignment.AlignedInEveryOrder` | backend/app/core/unified_playlists.py:276-294 | the verdict is aligned whichever copy comes first exactly when all copies have the same songs in the same order and every track is identifiable |
| `Alignment.VerdictDependsOnOrder` | backend/app/core/unified_playlists.py:276-294 | copies that are aligned or drifted depending on which comes first |
| `Alignment.IdenticalCopiesDrift` | backend/app/core/unified_playlists.py:276-294 | two identical copies of a track without ISRC, title or artist left by normalization are called drifted |
| `Reachability.Search` | backend/app/api/syncs.py:743-765 | the worklist search ends and finds the goal exactly when a path from a start leads to it |
| `Reachability.AddEdge` | backend/app/api/syncs.py:743-754 | a new edge keeps a graph acyclic exactly when its head did not reach its tail |
| `SyncHandlers.SyncStore.PendingContinuousSyncs` | backend/app/db/sync_graph.py:48-69 | returns exactly the reservations of open jobs: unfinished continuous ones, and finished ones whose setup was not tried yet |
| `SyncHandlers.SyncStore.EnsureNoFeedbackLoop` | backend/app/api/syncs.py:707-779 | decides as specified; its playlist search never rejects |
| `SyncHandlers.SyncStore.EnsureNoContinuousSyncFeedback` | backend/app/api/migrations.py:1259-1340 | decides as specified; its playlist search never rejects |
| `SyncGraph.RuleVerdictExact` | backend/app/api/syncs.py:720-754 | the check passes exactly when the target account does not reach the source account |
| `SyncGraph.RequestVerdictExact` | backend/app/api/migrations.py:1289-1322 | a request is clear exactly when no open job goes the same way and the target account does not reach the source account |
| `SyncGraph.ReservesExactly` | backend/app/db/sync_graph.py:42-59 | which status and intent reserve an edge |
| `SyncGraph.PromotionSettles` | backend/app/jobs/continuous_sync.py:22-82 | trying a finished job's setup settles its intent whatever the outcome, and it then adds no edge |
| `SyncGraph.ExpirySettles` | backend/app/jobs/history_cleanup.py:86-104 | giving up a finished job's review ends its reservation |
| `SyncGraph.RefusedSetupFreesWayBack` | backend/app/db/sync_graph.py:57-58 | after a refused setup the request the other way is clear |
| `SyncGraph.RequestStores` | backend/app/api/migrations.py:1147-1218 | a request stores a pending job for just what was selected exactly when every check passes, and otherwise nothing |
| `SyncGraph.CreateExactly` | backend/app/api/syncs.py:122-343 | a rule is created exactly from a complete migration with free endpoints and no loop, and stored enabled, idle and scheduled on its endpoints |
| `SyncGraph.MutualIsLoop` | backend/app/api/syncs.py:721-730 | the mutual-pending test rejects nothing the account search would pass |
| `SyncGraph.PlaylistPathProjects` | backend/app/api/syncs.py:767-779 | a playlist path gives an account path, so the second search never rejects |
| `SyncGraph.DistinctEndpoints` | backend/app/api/syncs.py:684-704 | once the account search passes, the endpoints differ |
| `SyncHandlers.SyncStore.CreateMigration` | backend/app/api/migrations.py:1147-1218 | a job is stored exactly when its selection is well formed, the check passes if it is continuous, the preflight passes with its warnings acknowledged, and an import it reads from could be queued; check and storing are one step |
| `SyncHandlers.SyncStore.MarkJobStarted` | backend/app/db/migration_history.py:81-85 | sets a job running whatever its status was |
| `SyncHandlers.SyncStore.MarkJobDone` | backend/app/db/migration_history.py:88-98 | sets a job done whatever its status was |
| `SyncHandlers.SyncStore.MarkJobFailed` | backend/app/db/migration_history.py:88-98 | sets a job failed whatever its status was |
| `SyncHandlers.SyncStore.ExpireContinuousSyncReview` | backend/app/jobs/history_cleanup.py:86-104 | gives up an open intent and its reservation, and touches no other |
| `SyncHandlers.SyncStore.CreateSyncRule` | backend/app/api/syncs.py:122-343 | the checks in order, the existing rule or the refusal, and the stored rule |
| `SyncHandlers.SyncStore.EnsureContinuousSync` | backend/app/jobs/continuous_sync.py:22-82 | promotes, records the outcome in the intent, and returns the active rule's id |
| `SyncHandlers.SyncStore.PauseSync` | backend/app/api/syncs.py:372-385 | the paused state, review first |
| `SyncHandlers.SyncStore.ResumeSync` | backend/app/api/syncs.py:389-420 | resumes exactly when idle, reviewed, loop-free without itself, and mirrorable |
| `SyncHandlers.SyncStore.DeleteSync` | backend/app/api/syncs.py:450-461 | deletes the rule unless a run is active |
| `SyncGraph.StepKeepsRules` | backend/app/api/syncs.py:122-461 | every step, restarts included, keeps stored rules free of account cycles and endpoint pairs unique |
| `SyncGraph.StepKeepsAll` | backend/app/api/migrations.py:1189-1218 | rules and reservations together stay acyclic under every step that revives no ended job |
| `SyncGraph.ReviveExact` | backend/app/db/migration_history.py:81-98 | reviving a job keeps the graph acyclic exactly when its target does not reach its source |
| `SyncGraph.RevivedWasTerminal` | backend/app/db/migration_history.py:81-98 | only a done or failed job can be revived |
| `SyncGraph.RestartCanLoop` | backend/app/db/migration_history.py:81-85 | between any two accounts a restarted job can close a cycle; its promotion is then refused and no rule is stored |
| `SyncGraph.RunsKeepRules` | backend/app/api/syncs.py:743-765 | over every run the stored rules have no account cycle and no repeated endpoint pair |
| `SyncGraph.RunsKeepStatus` | backend/app/api/syncs.py:372-420 | over every run a rule is enabled, scheduled and idle, or none of these |
| `SyncGraph.RunsKeepAll` | backend/app/api/migrations.py:1301-1322 | a run keeps rules with reservations free of account cycles throughout exactly when each job revived in it had no path from its target to its source by then |
| `SyncGraph.NoRestartsHarmless` | backend/app/db/migration_history.py:81-98 | a run that never starts or finishes an ended job revives none |
| `SyncGraph.PromotionNeverLoops` | backend/app/jobs/continuous_sync.py:45-59 | after a run whose revivals were harmless a promotion is never refused as a loop, though its own edge is in the searched graph |
| `SyncGraph.PromotionSucceeds` | backend/app/jobs/continuous_sync.py:53-82 | with the outside checks passing it ends with an active rule on the job's endpoints |
| `SyncGraph.ResumeNeverLoops` | backend/app/api/syncs.py:401-411 | after such a run a resume is never refused as a loop |
| `SyncGraph.PauseResume` | backend/app/api/syncs.py:372-420 | pausing and resuming an idle rule gives the state back |
| `SyncGraph.CreateDelete` | backend/app/api/syncs.py:286-461 | deleting a rule just created gives the stored rules back |
| `SyncGraph.PlaylistsAcyclic` | backend/app/api/syncs.py:767-779 | no account cycle means no playlist cycle |
| `Snapshots.TokenInjective` | backend/app/core/sync.py:46-46 | a token determines its identity and occurrence, by its last `#` |
| `Snapshots.BuildPlaylistSnapshot` | backend/app/core/sync.py:36-58 | the entries show exactly the migratable tracks in input order, numbered, each with its index and position; the others are counted |
| `Snapshots.BuiltExactly` | backend/app/core/sync.py:36-58 | a built snapshot holds exactly the migratable tracks, each once and in order |
| `Snapshots.BuiltNumbered` | backend/app/core/sync.py:41-46 | every built entry is numbered by how often its identity came before |
| `Snapshots.NumberedDistinct` | backend/app/core/sync.py:41-46 | tokens of a built snapshot are pairwise distinct |
| `Snapshots.TokensOfNumbered` | backend/app/core/sync.py:91-95 | the tokens are the identities counted off from zero |
| `Snapshots.SharedIsIntersection` | backend/app/core/sync.py:91-95 | shared tokens are exactly those in both snapshots |
| `Snapshots.DiffExists` | backend/app/core/sync.py:96-105 | both filtered orders list the shared tokens once, so the strict zip never raises, and one lone reorder is impossible |
| `Snapshots.AddedBag` | backend/app/core/sync.py:78-85 | the added identities are current minus previous, as bags |
| `Snapshots.DiffConserves` | backend/app/core/sync.py:72-110 | previous minus removed plus added is current, with the reported counts |
| `Snapshots.DiffExactly` | backend/app/core/sync.py:72-110 | a diff reports the positions of current entries the previous snapshot lacks, the number of previous ones the current one lacks, the number of places where the common entries differ, and the sum |
| `Snapshots.UnchangedExactly` | backend/app/core/sync.py:30-32 | no change is reported exactly when the identity sequences are equal |
| `Snapshots.DiffSwaps` | backend/app/core/sync.py:72-110 | swapping arguments swaps added and removed counts and keeps the reordered count |
| `Snapshots.DiffSnapshots` | backend/app/core/sync.py:72-110 | the counters and loops compute the specified diff, or stop where the zip would raise |
| `Snapshots.CarryTargetMappings` | backend/app/core/sync.py:113-124 | carries exactly the mapped tokens present in both snapshots |
| `Snapshots.UnmappedAreAdded` | backend/app/core/sync.py:113-124 | when all previous tokens are mapped, tokens left unmapped are exactly the added entries' |
| `Snapshots.CarryThroughIsSubmap` | backend/app/core/sync.py:113-124 | carrying through an intermediate snapshot keeps no more than carrying directly |
| `ImportLease.ImportStore.CreateImport` | backend/app/imports/service.py:106-138 | a ready record with its retention |
| `ImportLease.ImportStore.LoadPreviewImport` | backend/app/imports/service.py:236-254 | succeeds exactly for the owner's ready, unexpired import and then changes nothing; deletes it only when expired |
| `ImportLease.ImportStore.DiscardImport` | backend/app/imports/service.py:257-289 | deletes exactly a ready import of the owner |
| `ImportLease.ImportStore.QueueImport` | backend/app/imports/service.py:292-334 | the conditional update and its three refusals |
| `ImportLease.ImportStore.LoadImportForJob` | backend/app/imports/service.py:337-382 | renews the lease exactly for the assigned job of an unexpired queued or failed import |
| `ImportLease.ImportStore.MarkImportFailed` | backend/app/imports/service.py:385-404 | starts the failure grace of the assigned job's import |
| `ImportLease.ImportStore.DeleteImportForJob` | backend/app/imports/service.py:407-421 | deletes only the assigned job's import |
| `ImportLease.ImportStore.CleanupExpiredImports` | backend/app/imports/service.py:424-461 | deletes all expired imports, fails their live jobs, counts them |
| `ImportLease.JobIdIsFinal` | backend/app/imports/service.py:292-461 | from a successful queueing on, over every interleaving, the job id never changes and the import never comes back |
| `ImportLease.OnlyQueueingBinds` | backend/app/imports/service.py:236-334 | an import without a job gets one only by a successful queueing |
| `ImportLease.PreviewExactly` | backend/app/imports/service.py:236-254 | a preview takes an import away exactly when it was the owner's, ready and expired, and touches nothing else |
| `ImportLease.OthersUntouched` | backend/app/imports/service.py:106-421 | a step on one import changes no other import and no job |
| `ImportLease.NoDiscardAfterQueue` | backend/app/imports/service.py:257-334 | after a successful queueing no discard and no second queueing succeeds, however many steps later |
| `ImportLease.ClaimOutlivesJob` | backend/app/imports/service.py:337-461 | a claim holds through the job timeout under every interleaving, unless that job fails or deletes it |
| `ImportLease.QueuedWaits` | backend/app/imports/service.py:292-382 | until the queued retention ends exactly the assigned job can claim |
| `ImportLease.RetentionMustExceedTimeout` | backend/app/settings.py:192-199 | the settings inequality is exactly what surviving a cleanup at the timeout needs |
| `ImportLease.FailureGrace` | backend/app/imports/service.py:385-404 | over every interleaving its own job leaves it alone in, a failed import can be claimed again exactly until its grace ends |
| `ImportLease.CleanupExact` | backend/app/imports/service.py:424-461 | exactly the expired imports go, and exactly the live jobs of expired queued imports fail |
| `ImportLease.LeftLiveExactly` | backend/app/imports/service.py:437-453 | a removed import leaves its job live exactly when it had failed, the job was live, and no expired queued import holds that job |
| `ImportLease.CleanupCanStrand` | backend/app/imports/service.py:437-453 | a run after which cleanup leaves a running job without its import |
| `RateLimit.RateLimiter.TryToConsume` | backend/app/core/rate_limit.py:38-66 | the validated, possibly reconfigured draw with its retry delay |
| `RateLimit.RateLimiter.AcquireOnce` | backend/app/core/rate_limit.py:72-89 | one locked turn of the blocking loop |
| `RateLimit.RateLimiter.AcquireUndisturbed` | backend/app/core/rate_limit.py:72-89 | with no other call in between the blocking loop makes the specified turns and stops at the first one not refused |
| `RateLimit.WaitEndsExactly` | backend/app/core/rate_limit.py:74-89 | undisturbed, a blocking call is through after one sleep if its cost fits the capacity, and waits on after any number of sleeps if not |
| `RateLimit.OversizedNeverAdmitted` | backend/app/core/rate_limit.py:47-89 | in no run does a bucket admit a cost over its capacity |
| `RateLimit.RateLimiter.EnsureConfigured` | backend/app/core/rate_limit.py:34-36 | configures a full bucket only for a new key |
| `RateLimit.WindowBound` | backend/app/core/rate_limit.py:34-89 | the cost admitted for a key, bucket or no bucket, is at most its capacity plus its refill, if blocking calls come only once it has a bucket |
| `RateLimit.WindowOfRun` | backend/app/core/rate_limit.py:34-89 | the bound in every window of a run of a limiter that started empty |
| `RateLimit.AdmittedExactly` | backend/app/core/rate_limit.py:47-89 | after a full bucket, a draw is admitted exactly when it keeps the bound in every window ending with it |
| `RateLimit.TokensExactly` | backend/app/core/rate_limit.py:47-89 | the tokens at any time are the least of the capacity and the room of every window ending then |
| `RateLimit.StartsFull` | backend/app/core/rate_limit.py:34-54 | a new or reconfigured key starts with a full bucket; ensuring a known key changes nothing |
| `RateLimit.BoundExactly` | backend/app/core/rate_limit.py:34-89 | the bound holds for whatever blocking calls ask exactly when those come only once the key has a bucket |
| `RateLimit.UnmeteredRun` | backend/app/core/rate_limit.py:74-78 | one blocking call on a key without a bucket is admitted at any cost |
| `RateLimit.MeteredIsCharged` | backend/app/core/rate_limit.py:47-89 | where blocking calls are metered, all that is admitted was drawn from the bucket |
| `RateLimit.KnownExactly` | backend/app/core/rate_limit.py:34-89 | a key has a bucket exactly from the first `ensure_configured` or valid `try_consume` on |
| `RateLimit.WindowBoundTight` | backend/app/core/rate_limit.py:47-66 | the bound is reached |
| `RateLimit.RetryIsLeastWait` | backend/app/core/rate_limit.py:59-66 | the retry delay is exactly the least wait, when the cost fits the capacity |
| `XmlGuard.OverlapSuffices` | backend/app/imports/parsers.py:920-929 | a pattern at most one longer than the overlap is found across any boundary, and nothing else is |
| `XmlGuard.RejectUnsafeXml` | backend/app/imports/parsers.py:917-930 | rejects exactly the inputs whose upper-cased bytes hold a pattern, for every split into reads |
| `Filenames.SafeFilenameIsSafe` | backend/app/exports/serializers.py:80-88 | the base is letters, digits and single inner dashes, at most 96 long, never a reserved name |
| `Filenames.BaseIsWords` | backend/app/exports/serializers.py:211-215 | the base is the letters and digits in order, with one dash wherever something else stood between two of them |
| `Filenames.SafeFilenameExactly` | backend/app/exports/serializers.py:80-88 | the name, or the fallback, or "playlist", clear of reserved names, is cut to 96 characters, 95 where a dash would end it |
| `Filenames.CandidatesDiffer` | backend/app/exports/serializers.py:99-105 | suffixed candidates with different sequence numbers differ ignoring case |
| `Filenames.CandidateExactly` | backend/app/exports/serializers.py:99-105 | the plain name first, then the name with the number appended, cut so that both fit |
| `Filenames.PlainCanCollide` | backend/app/exports/serializers.py:99-105 | the plain name can equal its own suffixed candidate, so the retry bound is one more than the used names |
| `Filenames.TakenFits` | backend/app/exports/serializers.py:101-105 | taken candidates cannot outnumber the used names, which bounds the retries |
| `Filenames.FilenameAllocator.Allocate` | backend/app/exports/serializers.py:95-107 | returns the first candidate free ignoring case within the bound, or refuses the extension |
| `Filenames.AllocateAll` | backend/app/exports/service.py:255-267 | all names of one export are pairwise distinct ignoring case, each a candidate of its request |
| `ChunkedBody.RoundTrip` | backend/app/imports/http.py:250-279 | any encoding of a body within the limit decodes to that body and leaves what follows unread |
| `ChunkedBody.StopsBeforeCrossing` | backend/app/imports/http.py:271-276 | every chunk list whose body exceeds the limit fails at the one chunk that crosses it, with none of its bytes read |
| `ChunkedBody.NeverOverLimit` | backend/app/imports/http.py:250-279 | for any stream neither the body nor the bytes held at a failure exceed the limit |
| `ChunkedBody.StandardHeader` | backend/app/imports/http.py:257-261 | every header of the standard gives its hexadecimal size: leading zeros, either case, blanks, extensions |
| `ChunkedBody.PlainRoundTrip` | backend/app/imports/http.py:250-279 | every cut of a body into parts decodes with this program's size parser |
| `ChunkedBody.DecodesOnlyMessages` | backend/app/imports/http.py:250-279 | whatever decodes to a body is a whole chunked message carrying it, within the line and trailer limits |
| `ChunkedBody.ChunkSizeOnly` | backend/app/imports/http.py:257-261 | only size lines are accepted, with the value of their integer |
| `ChunkedBody.HexAccepts` | backend/app/imports/http.py:257-261 | every hexadecimal integer Python reads is accepted with its signed value |
| `ChunkedBody.ReadChunkedBody` | backend/app/imports/http.py:250-279 | the reading loop computes the specified decoding and leaves the stream where it says |

## Left out

- Display order: the final sort of unified playlists, of a row's sources and of carried mappings, and the hashed ids.
- Provider, account and playlist text of the published views, labels, status counts and warnings.
- PlaylistGrouper.BuildUnifiedPlaylists: dictionaries are maps, so the order in which unified playlists are created is not captured; the result holds no alignment verdict (`Alignment.AlignmentOf` takes a group's members in catalog order), final ordering, published view or hashed id.
- SyncHandlers.SyncStore.CreateMigration: the preflight's reading of accounts, snapshots and credentials is one boolean, its warnings another; the same check made before the lock as a quick refusal is not repeated; whether an import could be queued is a boolean, the queueing itself `ImportLease.ImportStore.QueueImport`.
- SyncHandlers.SyncStore.CreateSyncRule: schedule, provider, snapshot-drift and mirror checks are two booleans, so their order among themselves and their messages are not captured; neither are checkpoints.
- SyncHandlers.SyncStore.ResumeSync: timestamps of the next run are a flag `scheduled`; the last error it clears is not modelled.
- Deleting accounts or jobs, which only removes edges.
- The locking itself: the advisory lock is taken to make a handler's check and insertion one step.
- RateLimit.RateLimiter.AcquireUndisturbed: it stops after a given number of sleeps, where the service goes on without end; with other calls in between, the blocking loop is only its turns, at whatever later clock readings.
- RateLimit.WindowBound: runs contain no `clear`, which drops buckets, and no `configure` of a key that has one, which refills it; bucket records are values in the map, not objects updated in place; floating-point rounding is not modelled.
- XmlGuard.RejectUnsafeXml: resetting the file position is not modelled.
- Filenames.CandidateExactly: sequence numbers of 94 digits and more, whose suffix leaves no room for the name.
- Filenames.SafeFilenameIsSafe: Unicode decomposition happens before; names enter as their ASCII remainder.
- ChunkedBody.ReadChunkedBody: connections, headers, redirects, content lengths and the resolver; where a failing line leaves the stream is fixed to the end of that line.
- Snapshot fingerprints, track payloads and provider URIs of entries; identities enter already derived.
- The import parsers' counters and duplicate marking, and all file formats: long but shallow.
- Database sessions, HTTP routing, queueing, provider adapters, credentials and the frontend.
