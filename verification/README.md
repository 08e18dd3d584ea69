# Verified model of darak's state machines

darak is a file server that runs as several replicas over shared state, acts on files through
one helper process per user, and signs people in by binding directory identities to accounts.
Most of what can go wrong in it lies in a few small hand-written state machines. This project
models them in Dafny, in the form the code has, and proves what the code and its comments
promise. Where the code does not keep a promise, the model keeps the code, shows an input for
which the promise fails, and says exactly when it holds.

`dafny verify dfyconfig.toml` checks everything.

## Modules

| file | what it models |
|---|---|
| Common.dfy | options, results, the byte order of names |
| StateFile.dfy | the guard around a JSON file that several replicas share: one call at a time as a class, and all replicas together as a machine whose steps are stat, read, lock, mutate and rename, crash and clock |
| Share.dfy | the share-link store run under that guard |
| Volume.dfy | an abstract filesystem: names bound to inodes, synced data, and which names a power loss may undo |
| Vfs.dfy | the write protocol and the trash as a machine of interleaved users, failing or crashing at any step |
| FileLayer.dfy | the same operations as methods with their retry loops, where every request may be refused, answered, or carried out with the answer lost |
| HelperPool.dfy | the pool of helper processes, with acquire split into its two critical sections |
| HelperClient.dfy | matching replies to requests over one helper's socket, with a helper that may send anything |
| Identity.dfy | the identity store with its two hand-kept indexes, the order in which a sign-in is resolved, and its single calls |
| SignIn.dfy | sign-ins and operators interleaved call by call on several replicas, over the guard and its file |
| Wire.dfy | the binary codec between server and helper, as functions and as the in-place cursor and buffer |
| Listing.dfy | paged directory listings across that codec, over a directory that changes between pages |
| Fuzzy.dfy, FuzzyTs.dfy | the filename matcher on the server, its twin in the browser, and the search's rule for short queries |
| Walk.dfy | the bounded breadth-first walk |
| Search.dfy | a search: the walk, the matcher and what is sent |
| Activity.dfy | the per-day activity log and its early-stopping query |
| Provision.dfy | the two rate limits on provisioning calls |

A class's methods are proved equal to a specification function, or to a promise stated outright;
the lemmas are about that function, and the machines use the same functions for their steps.
Entries, channels and inodes that the code reaches by pointer are numbers in a table here.

## Where the code and its comments differ

- A lookup of a share link ignores a failed reload (internal/share/share.go:152-155). So "a revoked link never
  resolves" holds for every lookup whose stat and read succeed, and otherwise fails exactly while the replica's
  contents are from before the revoke and the link has not lapsed: `Share.RevokedLinkNeverResolves`,
  `Share.RevokedLinkResolvesIffMemoryIsOlder`, `Share.FailedStatResolvesRevokedLink`.
- The pool's cap bounds its entries, not the helpers that run. An entry replaced while busy leaves the pool and
  keeps running, and since a release looks its user up rather than its entry, it is never stopped if a newer
  entry exists. As a bound on processes the cap holds in every run that neither replaces a busy entry nor closes a
  pool with one, and only these two steps add to what runs beside the pool: `HelperPool.RunningIsPoolPlusRest`,
  `HelperPool.CapHoldsUnlessBusyIsReplaced`, `HelperPool.DrainingGrowsIff`, `HelperPool.LeakedGrowsIff`,
  `HelperPool.CapIsNotOnProcesses`.
- The groups a helper is started with are those of the lookup that reached the second critical section last, which
  need not be the newest one: `HelperPool.OlderLookupReplacesNewerHelper`.
- A cancelled call stays registered "in order to close any descriptor" of its late reply
  (internal/helperpool/client.go:176-180). Being registered is why the reader does not close it: it is put in a
  channel nobody reads, and no step of the client closes it. (The file object it is wrapped in at line 201 has a
  finalizer, which belongs to the Go runtime and is not part of this model.) The reader closes a descriptor
  exactly when the id is not registered: `HelperClient.CancelledCallLosesItsDescriptor`,
  `HelperClient.WhereDescriptorsEnd`, `HelperClient.ADescriptorCanBeLost`.
- "It outranks every scattered one" (internal/fuzzy/fuzzy.go:128-130) holds for a needle of n units exactly as long as
  the contiguous hit's name is not longer by 8610 - 650 n units or more: at equal length up to 13 units, among names of at
  most 255 units up to 12: `Fuzzy.OutranksIffWithinAllowance`, `Fuzzy.ThirteenAtEqualLength`.
- Two writes that both pin the old version before either renames lose the version written first, and a move onto a path
  between one write's link and its rename loses the version moved: `Vfs.OverlapLosesMiddleVersion`,
  `Vfs.MoveOntoTargetLosesVersion`. Conservation is therefore stated for runs in which no other write to a path, and no
  move onto it, lands in between; old-or-new is not.
- The trash is never synced. After a successful overwrite a power loss can take the replaced version, which may have
  been safe before: `Vfs.OverwriteEndangersTheOldVersion`, with the exact condition in `Vfs.SurvivesIffAnchored`.
- An error from a file operation does not mean that nothing happened: a request whose answer is lost, a cancelled one
  for instance, is carried out all the same. `FileLayer.FS.Write` says exactly when an error comes with the target
  replaced and exactly when the temp file stays.
- The two limits on provisioning are on clock readings, and the reading is taken before the lock is
  (internal/provision/provision.go:176-177). A call that waits for the lock can be processed after a later reading,
  and nothing in the code prevents that. With waits up to w the limits hold for an hour less w and for ten minutes less
  w, and the full limits hold for w = 0 only, however steady the clock: `Provision.LimitsHold`,
  `Provision.HourlyLimitIffNobodyWaits`, `Provision.ApartIffNobodyWaits`.
- A line of the activity log that was cut short takes the next acknowledged event with it: `Activity.Store.Record`.
- Trust on first use holds on what replicas have loaded, not on what is in the file. A lookup ignores a failed reload
  (internal/identity/identity.go:236-237), so after an account was forgotten and approved for another pair, a replica
  whose stat fails still lets the former pair in: exactly while its contents are from before the Forget and bind it.
  Among calls whose reload did not fail an account has one pair from one Forget to the next:
  `SignIn.OnePairSinceTheLastForget`, `SignIn.FormerPairIsLetInIffMemoryIsOlder`,
  `SignIn.FailedStatLetsTheFormerPairIn`.
- A sign-in is decided by one call on the store and may finish minutes later, and it does not notice a Forget in between.
  The addresses it still records then join the record of whoever the account was approved for: `SignIn.DecisionStays`,
  `SignIn.ForgetAndApproveRebinds`, `Identity.LateAddressJoinsTheOtherRecord`.
- A refused identity file leaves the records before the bad one rather than the old store, and possibly addresses of an
  account that has no record: `Identity.RefusedLoadKeepsThePrefix`.
- An empty subject, were one to arrive, would sign in without being bound: `SignIn.EmptySubjectIsNeverBound`.

## What is assumed

- Shared files: committed versions have distinct stamps, none of them the zero stamp; marshal and rename do not
  fail after a mutation; nobody deletes or corrupts the file. `StateFile.FailedReplaceLeavesMemoryAhead` and
  `SignIn.FailedSaveBindsInMemoryOnly` show what the second of these excludes.
- Random tokens and temp-file suffixes are never drawn twice, and users do not name files like temp files.
- Conservation of versions leaves out emptying the trash, writing into it, and a power loss while some name is not
  on disk yet.
- Issuers hold no NUL and subjects are not empty where a theorem says so.
- A directory lists no name twice, and file names have at most 255 bytes.
- The provisioning clock does not go backwards; readings processed out of order are not excluded but bounded by the wait.
- Request ids do not wrap: a connection carries fewer than 2^64 calls.

## Model

| member | source | states |
|---|---|---|
| StateFile.Guard.Fresh | internal/statefile/statefile.go:67-97 | one call is one stat, at most one read and a load: the new stamp, flag and memory for every outcome of the stat and the read; an error leaves all three alone |
| StateFile.FreshLoadsOnlyWhatChanged | internal/statefile/statefile.go:67-97 | exactly when a Fresh succeeds, that it reads nothing while a loaded file's stamp is unchanged, records the stamp seen before the read with what was read, and leaves everything as it was on an error |
| StateFile.Guard.Write | internal/statefile/statefile.go:125-163 | exactly which outcome goes with which failure of lock, reload, mutation and rename; the file is replaced exactly when the reloaded contents were changed and could be written, and then the stamp of the new file is recorded; a refused or empty mutation leaves the reloaded contents and stamp; a file that could not be replaced leaves the memory ahead of it |
| StateFile.StepsAreFresh | internal/statefile/statefile.go:67-97 | a reader's separate stat and read steps, with other replicas running in between, have the effect of one Fresh |
| StateFile.StepsAreWrite | internal/statefile/statefile.go:125-163 | a writer's steps under the lock have the effect of one Write that replaced the file |
| StateFile.StepsAreDeclined | internal/statefile/statefile.go:125-163 | and when the mutation is refused or changes nothing they leave file and history alone, give the lock back and have the effect of that Write |
| StateFile.StepKeepsInv | internal/statefile/statefile.go:67-163 | no step of any replica (stat, read, lock, mutate and rename, failures, crash, clock) breaks the invariant: a stamp is never newer than the memory it stands for, one lock holder, a history that is a fold |
| StateFile.RunKeepsInv | internal/statefile/statefile.go:67-163 | the invariant over every run of any number of replicas |
| StateFile.VersionsAreTheFold | internal/statefile/statefile.go:137-156 | no lost update: in every interleaving the file's versions are the fold of the committed mutations in lock order, each run on the version committed just before it, less what had lapsed by then |
| StateFile.FoldIsExactWithoutExpiry | internal/identity/identity.go:245-261 | for stores whose records never lapse, such as identities, the fold is exact |
| StateFile.VersionsOnlyGrow | internal/statefile/statefile.go:147-156 | only a rename adds a version; refused, unchanged and failed writes leave the file alone |
| StateFile.ContentsNeverGoBack | internal/statefile/statefile.go:85-96 | a running replica never returns to contents older than those it held |
| StateFile.ReadsAreFresh | internal/statefile/statefile.go:71-96 | an error-free Fresh ends at least as new as the last commit before its stat, although it takes no lock |
| StateFile.RemovedKeyIsNeverReadAgain | internal/statefile/statefile.go:62-97 | a key a commit removed is live in no later error-free read on any replica |
| StateFile.CommittedKeyIsAlwaysFound | internal/statefile/statefile.go:137-156 | a committed record is found by every later error-free read until it lapses or a commit drops it |
| StateFile.FailedReplaceLeavesMemoryAhead | internal/statefile/statefile.go:143-156 | the excluded failure: after mutate, a failed marshal or rename leaves contents no version had, and the next Fresh keeps them |
| Share.Store.Create | internal/share/share.go:195-235 | the empty owner or path is refused untouched; otherwise the link is committed with its lifetime clamped, a success means the file holds it, and one that could not be written is an error although this replica then has it in memory |
| Share.Store.Resolve | internal/share/share.go:238-263 | answers from the reloaded memory: not found exactly when the token is unknown or has lapsed, refused exactly when its password is another, otherwise the link |
| Share.Store.Revoke | internal/share/share.go:285-296 | succeeds exactly when lock, reload and rename do and the reloaded store has the token under that owner, and then neither file nor memory has it; not-found exactly when the reload worked and it was not there; any other failure is the store's |
| Share.Store.SweepLinks | internal/share/share.go:319-331 | drops exactly the lapsed links and reports a change exactly when there was one |
| Share.SweepMeans | internal/share/share.go:319-331 | the mutation it commits is written exactly if a link has lapsed and keeps exactly those that have not |
| Share.OpsNeverRevive | internal/share/share.go:195-331 | no share operation brings back a token it did not draw |
| Share.OpsRetain | internal/share/share.go:195-331 | no share operation but its owner's Revoke, or a Sweep after it lapsed, drops a link |
| Share.RevokedLinkNeverResolves | internal/share/share.go:285-296 | once Revoke has committed on one replica, no later Resolve on any replica whose reload did not fail yields the token |
| Share.CreatedLinkIsFoundEverywhere | internal/share/share.go:195-234 | a created link is found by every later error-free Resolve on every replica until it lapses or is revoked |
| Share.RevokedLinkResolvesIffMemoryIsOlder | internal/share/share.go:152-155 | exactly when a revoked link still resolves: after the revoke, in any run whatever locks, stats and reads fail and replicas crash, a replica's lookup yields it if and only if its contents are of a version from before the revoke in which the link has not lapsed |
| Share.FailedStatResolvesRevokedLink | internal/share/share.go:152-155 | a concrete run of two replicas in which a revoked link resolves because the stat failed |
| Vfs.TrashStaysInDomain | internal/vfs/vfs.go:296-310 | a domain's trash entry lies in that domain, is recognised as trash and is not taken for a temp file |
| Vfs.DomainsAreFolders | internal/vfs/vfs.go:296-310 | which paths are in a domain, and that two are in the same one exactly when they share home or team folder |
| Vfs.StepKeepsInv | internal/vfs/vfs.go:365-435 | no step of any write, removal, move, sweep or power loss breaks the invariant: writers keep private temp files and inodes, and every visible name is bound to complete, synced data |
| Vfs.RunKeepsInv | internal/vfs/vfs.go:365-435 | the invariant over every run of any number of interleaved users |
| Vfs.OldOrNewNeverAbsent | internal/vfs/vfs.go:358-435 | old or new, never absent: in any interleaving a target nobody removes or moves keeps existing and holds its original contents or the whole source of one write to it; only across a power loss must it have been durable |
| Vfs.FinishedWriteIsDurable | internal/vfs/vfs.go:428-434 | a Write whose directory sync succeeded cannot be undone by a power loss |
| Vfs.SealedStays | internal/vfs/vfs.go:402-412 | published data is never changed in place by any later step |
| Vfs.TrashEntriesAreNeverReplaced | internal/vfs/vfs.go:437-476 | no step but emptying the trash, moving out of it or writing into it changes a trash entry, and a power loss only one that is not on disk yet |
| Vfs.QuietStepLosesNothing | internal/vfs/vfs.go:414-476 | with no other write to a path, and no move onto it, between one write's link and its rename, each step keeps every published version named, a power loss included when all names are on disk |
| Vfs.EveryVersionStaysReachable | internal/vfs/vfs.go:437-581 | conservation over runs without such an overlap of a write with another write or a move, power losses included when all names are on disk: every version ever published at a path is still at that path or in its domain's trash |
| Vfs.SurvivesIffAnchored | internal/vfs/vfs.go:428-434 | a version survives every possible power loss if and only if one of its names can fall back to nothing else |
| Vfs.OverwriteEndangersTheOldVersion | internal/vfs/vfs.go:414-435 | a successful Write syncs the target's directory and never the trash: afterwards a power loss can take the replaced version's last name, even if nothing could before |
| Vfs.OverlapLosesMiddleVersion | internal/vfs/vfs.go:414-425 | why the hypothesis is needed: of two writes that both linked before either renamed, the second destroys the first one's version |
| Vfs.MoveOntoTargetLosesVersion | internal/vfs/vfs.go:254-277 | and from every state in which a write has found nothing to pin, a move of a version's only name onto its target loses that version to the rename |
| Vfs.ReplaceUnnamesIffOnlyName | internal/vfs/vfs.go:419-425 | a rename leaves the version it replaces without a name exactly when the target was its only name |
| Vfs.TwoWritersReachOverlap | internal/vfs/vfs.go:365-435 | that state is reached by two ordinary calls |
| FileLayer.FS.LinkToTrash | internal/vfs/vfs.go:442-476 | for every fate of every request: the volume gains the one trash name, new to it, or is unchanged; success exactly when the version could be pinned; an error with the link made exactly when that answer was lost; EEXIST exactly when every retry found its name taken |
| FileLayer.FS.MoveToTrash | internal/vfs/vfs.go:549-581 | the same promise for the rename that removal makes, which never replaces a trash entry |
| FileLayer.FS.FillTemp | internal/vfs/vfs.go:381-412 | on success the temp file holds the whole source, synced; otherwise it stays exactly when the answer to its creation was lost or the clean-up was refused; other inodes untouched |
| FileLayer.FS.Publish | internal/vfs/vfs.go:419-434 | the target is replaced exactly when the rename was carried out; then an error means a failed directory sync or a lost answer |
| FileLayer.FS.PinAndPublish | internal/vfs/vfs.go:414-434 | the target is replaced exactly when its version could be pinned and the rename was carried out |
| FileLayer.FS.Write | internal/vfs/vfs.go:365-435 | for every fate of every request: exactly when the target becomes the whole source and when it is untouched; an error with the target replaced exactly when the directory sync failed or the rename's answer was lost; the replaced version in the trash; every other name left alone; exactly when the temp file stays |
| FileLayer.FS.Remove | internal/vfs/vfs.go:511-536 | outside the trash the removed version gets a trash name in its domain, inside it the name is gone for good; exactly when a removal succeeds, when it is carried out, and that it is reported as an error although carried out exactly when its answer was lost |
| FileLayer.FS.Move | internal/vfs/vfs.go:254-277 | moves the version exactly within one permission domain to a free name unless refused, reports it exactly when the answer arrives, and touches no third name |
| HelperPool.CheckoutKeeps | internal/helperpool/pool.go:176-180 | a checkout keeps map and list in step, counts equal to outstanding checkouts and the stopped list honest, and moves no entry in or out of the pool |
| HelperPool.RetireKeeps | internal/helperpool/pool.go:198-204 | the entry retired, and it alone, leaves map and list, and what has been stopped is still exactly what is idle, out of the pool and not leaked |
| HelperPool.Pool.Release | internal/helperpool/pool.go:182-194 | gives one checkout back; the last one refreshes the idle time, or stops the helper when its user has no entry left |
| HelperPool.Pool.FindIdle | internal/helperpool/pool.go:223-230 | the idle entry nearest the old end of the list, if there is one |
| HelperPool.Pool.ReapLocked | internal/helperpool/pool.go:241-250 | retires exactly the lapsed idle entries, walking the list from its old end |
| HelperPool.Pool.MakeRoom | internal/helperpool/pool.go:207-220 | reaps, then evicts least recently used idle entries until there is room |
| HelperPool.Pool.Acquire | internal/helperpool/pool.go:120-174 | the second critical section against its specification, for any outcome of the unlocked resolve |
| HelperPool.Pool.StartHelper | internal/helperpool/pool.go:150-174 | room, spawn and registration, or an error with nothing registered |
| HelperPool.Pool.Close | internal/helperpool/pool.go:261-271 | retires every entry from the old end of the list, stopping the idle ones, and refuses from then on |
| HelperPool.EvictKeeps | internal/helperpool/pool.go:207-233 | only idle entries are evicted, and room is refused only when every entry of a full pool is busy |
| HelperPool.MakeRoomKeeps | internal/helperpool/pool.go:207-220 | after making room the pool is below its cap, and no busy entry left it |
| HelperPool.AcquireKeeps | internal/helperpool/pool.go:120-174 | from any state, however stale the first section's verdict: the entry granted is live, counted, the user's own and started with the groups just resolved; busy entries of others stay |
| HelperPool.ReleaseKeeps | internal/helperpool/pool.go:182-194 | a release keeps the counts, the index and the stopped list consistent |
| HelperPool.CloseKeeps | internal/helperpool/pool.go:261-271 | closing empties the pool and stops no helper that still serves |
| HelperPool.StepKeepsInv | internal/helperpool/pool.go:120-272 | every critical section keeps: map and list hold the same entries once, entries within the cap, counts equal outstanding checkouts, groups match, stopped helpers idle and out of the pool |
| HelperPool.RunKeepsInv | internal/helperpool/pool.go:120-272 | that invariant over every interleaving of acquires, releases, reaps and close |
| HelperPool.StoppedForGood | internal/helperpool/pool.go:182-205 | a stopped helper is stopped once, is in use by nobody, and no later acquire hands it out |
| HelperPool.RunningIsPoolPlusRest | internal/helperpool/pool.go:207-221 | processes running are the pool's entries, those draining and those leaked; the cap bounds the first kind only |
| HelperPool.DrainingGrowsIff | internal/helperpool/pool.go:150-160 | a step sets a helper draining exactly when it replaces a busy entry after a change of groups or closes a pool that has a busy one |
| HelperPool.LeakedGrowsIff | internal/helperpool/pool.go:182-196 | a helper is leaked exactly by the last release of a draining one whose user has a newer helper |
| HelperPool.CapHoldsUnlessBusyIsReplaced | internal/helperpool/pool.go:120-272 | over every run without those two kinds of step the documented cap is on processes: nothing drains or leaks, and at most maxHelpers helpers run |
| HelperPool.OlderLookupReplacesNewerHelper | internal/helperpool/pool.go:124-174 | of two lookups of one user the older can reach the second section last: it replaces the helper started with newer groups, and until credsTTL has passed its own groups are handed out again without a lookup |
| HelperPool.CapIsNotOnProcesses | internal/helperpool/pool.go:150-196 | a concrete run with a cap of one that has two helpers running and one never stopped |
| HelperPool.LastRequestStopsIffNotReplaced | internal/helperpool/pool.go:182-196 | a retired entry's helper is stopped at its last release exactly when its user has no newer entry |
| HelperPool.ListIsByLastUse | internal/helperpool/pool.go:176-180 | over every run the list is in the order of last use, last use being the last acquire that was granted the entry |
| HelperPool.EvictedIsLeastRecentlyUsed | internal/helperpool/pool.go:207-233 | an entry another user's acquire takes out of the pool before its idle time is up was last used before every idle entry that stays |
| HelperPool.IdleSinceTheLastRelease | internal/helperpool/pool.go:182-194 | over every run an idle entry's idle time counts from the last time it was given back |
| HelperPool.ReapTakesTheLongIdle | internal/helperpool/pool.go:235-250 | a reap takes exactly the entries idle and last given back more than idleTimeout ago |
| HelperPool.RoomIffNotAllBusy | internal/helperpool/pool.go:207-221 | there is room exactly if the pool is not full or somebody in it is idle |
| HelperPool.AcquireSucceedsIff | internal/helperpool/pool.go:120-174 | exactly when an acquire succeeds and which error it gives otherwise |
| HelperPool.LookupIsGoodForTTL | internal/helperpool/pool.go:124-156 | what a lookup found is kept with the entry granted, which was started with its groups, and is asked for again exactly once credsTTL has passed |
| HelperClient.Client.Join | internal/helperpool/client.go:146-157 | registration: refused once closed, otherwise the id gets an open empty channel |
| HelperClient.Client.Forget | internal/helperpool/client.go:159-164 | a failed write takes the id out of the table and nothing else |
| HelperClient.Client.Claim | internal/helperpool/client.go:102-105 | the reader takes the reply's id out of the table and gets its channel, if any |
| HelperClient.Client.Shutdown | internal/helperpool/client.go:119-131 | closes each registered channel once, empties the table, and does nothing the second time |
| HelperClient.ParseRights | internal/helperpool/client.go:185-208 | of messages that parse as a whole, keeps the first descriptor and closes every other one; of anything else it returns nothing and closes nothing |
| HelperClient.StepKeepsInv | internal/helperpool/client.go:68-183 | every step of calls and reader keeps: registered calls have open empty channels, replies sit only where they are addressed, nobody waits for nothing, descriptors are in one place each |
| HelperClient.RunKeepsInv | internal/helperpool/client.go:68-183 | that invariant over every run, whatever frames the helper sends |
| HelperClient.NoSendBlocksNoCloseRepeats | internal/helperpool/client.go:106-132 | the reader's send finds its channel open with room; shutdown closes no channel twice |
| HelperClient.ReturnsOnceItsOwnReply | internal/helperpool/client.go:167-182 | what a call returns never changes, and a reply it returns carries its own id |
| HelperClient.NoChannelIsSentToTwice | internal/helperpool/client.go:102-115 | whatever ids the helper repeats, no two sends of a run go to one channel |
| HelperClient.NobodyIsLeftWaiting | internal/helperpool/client.go:119-132 | once the reader stopped the table is empty, every call at its select can return, and later calls are refused |
| HelperClient.ReplyReachesItsCall | internal/helperpool/client.go:66-117 | from every state a well-formed reply to a registered waiting call ends with the call owning reply and descriptor, and the reader reading on |
| HelperClient.ReaderStopsIff | internal/helperpool/client.go:66-117 | the reader stops exactly when reading fails or at a frame that does not decode or whose flag and descriptor disagree, and closes that descriptor |
| HelperClient.WhereDescriptorsEnd | internal/helperpool/client.go:68-117 | when all calls have returned, a received descriptor was closed or belongs to its call, unless it was sent to a call that had given up or failed to write: then, and only then, it is lost |
| HelperClient.LostForGood | internal/helperpool/client.go:176-180 | no later step of the client, shutdown included, closes a lost descriptor, and no call collects it |
| HelperClient.CancelledCallLosesItsDescriptor | internal/helperpool/client.go:106-115 | a well-formed reply's descriptor is closed by the reader exactly when its id is not registered; a cancelled call's is sent and lost |
| HelperClient.ADescriptorCanBeLost | internal/helperpool/client.go:176-180 | a concrete run: one call cancelled while its reply was on the way |
| Identity.Store.Load | internal/identity/identity.go:173-216 | the store and the error of reading a list, including what a refused list leaves behind |
| Identity.Store.LoadRecord | internal/identity/identity.go:182-214 | one record is refused for a bad name, a bad, repeated or taken address or a taken subject, and indexed otherwise |
| Identity.Store.Pin | internal/identity/identity.go:346-369 | the new maps and the result for every case, a refusal changing nothing |
| Identity.Store.AttachEmail | internal/identity/identity.go:378-400 | the new maps and the result for every case, a refusal changing nothing |
| Identity.Store.CleanAll | internal/identity/identity.go:412-419 | every address normalised, or the first bad one refused |
| Identity.Store.Approve | internal/identity/identity.go:408-463 | the new maps and the result for every case: nothing is edited before every refusal has been ruled out |
| Identity.Store.Forget | internal/identity/identity.go:471-486 | the record and exactly its index entries disappear |
| Identity.Store.DetachEmail | internal/identity/identity.go:489-513 | the address leaves the record and the index, or nothing changes |
| Identity.Store.ResolveIdentity | internal/server/sso.go:286-470 | the resolution order of a sign-in nobody interrupts, on a store that is current: pinned subject, then a trusted address, then provisioning, each route binding the subject before it answers |
| Identity.ReturnedIff | internal/server/sso.go:286-465 | exactly why an account is returned: its subject is bound to it; or it owns the first owned address and can be pinned; or the first trusted address that names an existing account names it; or provisioning created it; each only if none before applies |
| Identity.ErrorIff | internal/server/sso.go:286-465 | exactly when a sign-in is an error rather than a refusal, and that nothing is changed unless somebody is let in |
| Identity.AttachAllMeans | internal/server/sso.go:293-315 | somebody recognised by subject brings every usable address nobody had into the account, and no other address moves |
| Identity.LocalPartIsBeforeTheAt | internal/server/sso.go:842-852 | the name an address derives is what stands before its first @ |
| Identity.SubjectKeyIsInjective | internal/identity/identity.go:123-123 | joining with NUL keeps pairs apart when issuers hold no NUL |
| Identity.StepKeepsIndexed | internal/identity/identity.go:346-513 | every operation keeps the two indexes exactly those of the records, with no address or subject shared |
| Identity.LoadGivesExactIndexes | internal/identity/identity.go:173-216 | a successful load leaves exact indexes whatever was there before |
| Identity.LoadInvertsSave | internal/identity/identity.go:173-234 | loading what was saved restores the same store |
| Identity.RefusedLoadKeepsThePrefix | internal/identity/identity.go:173-216 | for every refused list: exactly the records before the bad one and their subjects remain, with the bad one's addresses up to the one that stopped it; the indexes stay exact if and only if there is no such stray address |
| Identity.LoadedHoldsTheRecords | internal/identity/identity.go:173-216 | a successful load leaves exactly the listed records, addresses folded |
| Identity.RecordLoadsIff | internal/identity/identity.go:182-214 | exactly which record a load accepts |
| Identity.BySubjectIsThePin | internal/identity/identity.go:289-298 | the lookup answers for exactly the pinned pairs |
| Identity.PinStays | internal/identity/identity.go:346-513 | only Forget changes the pair an account is pinned to |
| Identity.GrantsOnlyThePinnedPair | internal/identity/identity.go:346-470 | no Pin or Approve grants a pinned account to another pair |
| Identity.PinMeans | internal/identity/identity.go:346-369 | exactly when a pin is accepted; then the account has the pair, and nothing else has changed |
| Identity.AttachMeans | internal/identity/identity.go:378-400 | exactly when an address is attached; then the account has it beside those it had, and nothing else has changed |
| Identity.DetachMeans | internal/identity/identity.go:489-513 | exactly when an address is detached; then nobody has it, and nothing else has changed |
| Identity.ForgetMeans | internal/identity/identity.go:471-486 | exactly when an account is forgotten; then its addresses and subject answer for nobody, and nothing else has changed |
| Identity.ApprovedIff | internal/identity/identity.go:409-450 | exactly when an approval is accepted |
| Identity.ApproveAdopts | internal/identity/identity.go:450-470 | every address approved becomes the account's beside those it had, and no other address or record changes |
| Identity.ApproveBindsThePair | internal/identity/identity.go:440-470 | an approval binds the pair given, and keeps who approved the account first |
| Identity.NormalizeMeans | internal/identity/identity.go:131-131 | a folded address is the given one less the space around it, in lower case |
| Identity.SortedAscends | internal/identity/identity.go:378-400 | a record's addresses are kept in order |
| Identity.UndisturbedIsResolved | internal/server/sso.go:286-465 | taken call by call, each on the store as it is by then, the calls of a sign-in nobody interrupts come to exactly that |
| Identity.SecondOfARaceIsRefused | internal/server/sso.go:318-335 | of two people past the address lookup for one account, the one whose pin comes second is refused and the store is unchanged |
| Identity.LateAddressJoinsTheOtherRecord | internal/server/sso.go:293-315 | after a Forget and an approval for somebody else, the addresses a decided sign-in still attaches join that other person's record and answer for it |
| Identity.EmptySubjectBindsNothing | internal/identity/identity.go:346-470 | a write for a pair without a subject binds nothing and changes no account's pair; a pin is an error |
| SignIn.BookIsDetermined | internal/identity/identity.go:173-216 | the records of a good file determine both indexes, so every replica rebuilds the same ones |
| SignIn.LoadingGivesTheBook | internal/identity/identity.go:173-216 | reading the records of a good file in any order gives that book |
| SignIn.StepKeepsOk | internal/server/sso.go:286-465 | no step of a replica's guard, an operator or a sign-in, with any reload failing, breaks the invariant: each version is an operation's result on the one before, each replica holds some version, each decided sign-in was decided on a version binding its account to its pair |
| SignIn.RunKeepsOk | internal/server/sso.go:286-465 | that invariant over every run of any number of replicas, operators and sign-ins |
| SignIn.LetInMeansBound | internal/server/sso.go:286-465 | whatever interleaves and whatever reloads fail: the version a sign-in was decided on binds the account to its issuer and subject, and so does every later one until somebody forgets the account; unless the deciding call's reload failed that version is no older than the call |
| SignIn.DecidedByOneCall | internal/server/sso.go:286-465 | what that history records: one call of the sign-in itself decided it, on what its replica held, and the call began at the version noted |
| SignIn.OnlyTheBoundPairSignsIn | internal/server/sso.go:286-465 | once a version binds an account to a pair, no other pair is let in on it or later, nor by a call that began after it and reloaded, until somebody forgets the account |
| SignIn.OneAccountOnePair | internal/server/sso.go:318-343 | trust on first use in the order of versions: two sign-ins let in as one account carry one issuer and subject unless it was forgotten between the versions they were decided on |
| SignIn.OnePairSinceTheLastForget | internal/server/sso.go:318-343 | and by the clock: all sign-ins let in as an account by calls that began after its last Forget and reloaded carry one issuer and subject |
| SignIn.FormerPairIsLetInIffMemoryIsOlder | internal/identity/identity.go:236-298 | exactly when a forgotten pair is still let in, whatever locks, stats and reads failed: if and only if its replica's contents are of a version from before the Forget that binds it |
| SignIn.FailedStatLetsTheFormerPairIn | internal/identity/identity.go:236-298 | a run of two replicas in which, after a Forget and an approval for another pair, both pairs are let in because one stat failed |
| SignIn.FailedSaveBindsInMemoryOnly | internal/identity/identity.go:243-249 | the excluded failure: from every state, a pin whose file could not be replaced stays in its replica's memory, so the next lookup there finds a pair bound that no version of the file binds |
| SignIn.DecisionStays | internal/server/sso.go:286-316 | a decided sign-in is let in whatever is committed meanwhile |
| SignIn.ForgetAndApproveRebinds | internal/identity/identity.go:472-490 | forgetting an account and approving it for another pair leaves it bound to that pair only |
| SignIn.EmptySubjectIsNeverBound | internal/server/sso.go:286-465 | in any interleaving a sign-in with an empty subject is let in only by an approval, which binds nothing and leaves every account's pair as it was |
| Wire.RequestRoundTrip | internal/wire/codec.go:61-84 | every request that encodes decodes to itself |
| Wire.RequestIsCanonical | internal/wire/codec.go:253-276 | every accepted frame is the encoding of the request it decodes to |
| Wire.ResponseRoundTrip | internal/wire/codec.go:88-145 | every response that encodes decodes to itself with honest flags and no unannounced value |
| Wire.ResponseIsCanonical | internal/wire/codec.go:282-337 | every accepted frame is the encoding of the response it decodes to, which is already in that normal form |
| Wire.FramesAreDistinguished | internal/wire/codec.go:312-325 | no two frames decode to the same message |
| Wire.FlagsAreHonest | internal/wire/codec.go:95-109 | HasStat holds exactly when a stat follows, HasEntries is only added, and flags change exactly when they were dishonest |
| Wire.RequestEncodesIff | internal/wire/codec.go:61-84 | a request can be sent exactly if its operation is known and its fields and 27 bytes more fit in a frame |
| Wire.ResponseEncodesIff | internal/wire/codec.go:88-145 | a response can be sent exactly if its flags are known and what they announce fits in a frame |
| Wire.RequestLayout | internal/wire/codec.go:61-84 | where id, operation, flags, mode and path are in a request's frame |
| Wire.StatLayout | internal/wire/codec.go:48-58 | where the eight fields of a stat are, negative ones in two's complement |
| Wire.ListingReads | internal/wire/codec.go:298-306 | the count guard refuses no listing that was written |
| Wire.EntriesWereWritten | internal/wire/codec.go:307-327 | entries read in a row are entries written in a row |
| Wire.DecodeEncodedNumber | internal/wire/codec.go:170-200 | big-endian numbers in range survive |
| Wire.EncodeDecodedNumber | internal/wire/codec.go:170-200 | every byte string is the encoding of its number |
| Wire.FirstByteWeighsMost | internal/wire/codec.go:170-200 | the most significant byte comes first |
| Wire.Cursor.constructor | internal/wire/codec.go:152-155 | a cursor starts at the whole frame without an error |
| Wire.Cursor.Next | internal/wire/codec.go:157-168 | takes n bytes, or latches ErrShort and stays: never past the end, never after an error |
| Wire.Cursor.NextNum | internal/wire/codec.go:170-200 | a big-endian number, or zero once the cursor has failed |
| Wire.Cursor.NextStr | internal/wire/codec.go:202-209 | a length-prefixed string |
| Wire.Cursor.NextBytes | internal/wire/codec.go:211-224 | a length-prefixed value whose length is checked against what is left |
| Wire.Cursor.NextStat | internal/wire/codec.go:226-240 | the eight stat fields, or nothing once the cursor has failed |
| Wire.Cursor.NextEntry | internal/wire/codec.go:307-327 | one entry; a presence byte other than 0 and 1 refuses the frame |
| Wire.Cursor.NextEntries | internal/wire/codec.go:307-327 | the entry loop equals reading the entries one after another |
| Wire.LeftOverBytesAreRefused | internal/wire/codec.go:242-250 | no accepted frame is a proper prefix of another: an accepted frame with anything left over is refused as trailing or too large, request and response alike |
| Wire.UnmarshalRequest | internal/wire/codec.go:253-276 | for every frame the request or the error the decoder's order of checks gives |
| Wire.UnmarshalResponse | internal/wire/codec.go:282-337 | for every frame the response or the error the decoder's order of checks gives |
| Wire.MarshalRequest | internal/wire/codec.go:61-84 | for every request the frame the decoder inverts, or the right error |
| Wire.MarshalResponse | internal/wire/codec.go:88-145 | for every response the frame the decoder inverts, or the right error |
| Wire.AppendStr | internal/wire/codec.go:32-38 | a string longer than 65535 bytes is refused |
| Wire.AppendBytes | internal/wire/codec.go:40-46 | a value longer than 32 bits can say is refused |
| Wire.AppendStat | internal/wire/codec.go:48-58 | 48 bytes that NextStat reads back |
| Listing.ReadPage | internal/helper/ops.go:230-277 | the page is the longest affordable run of names after the cursor |
| Listing.BudgetCoversEncoding | internal/helper/ops.go:213-277 | the running budget is at least the encoder's true length for every mix of present and missing stats |
| Listing.PageEncodes | internal/helper/ops.go:249-277 | every page encodes within MaxFrame and comes back unchanged from the round trip, so no guard of the decoder refuses it |
| Listing.PickIsAPrefix | internal/helper/ops.go:251-277 | a page says "more" exactly when it left something out |
| Listing.PickIsLongest | internal/helper/ops.go:251-277 | a page stays within its budget and stops only where the next entry would not |
| Listing.PageIsFull | internal/helper/ops.go:247-277 | a page that says more has no room in its frame for the next entry with the stat asked for |
| Listing.PageMakesProgress | internal/vfs/vfs.go:167-171 | with names a filesystem can hold, a page that says "more" is not empty |
| Listing.PageIsCollected | internal/vfs/vfs.go:149-176 | one more page of a directory others are changing keeps what is collected in order and complete up to the cursor |
| Listing.RankFollowsTheOrder | internal/vfs/vfs.go:149-176 | every page moves the cursor up a finite order, so the loop ends |
| Listing.Ask | internal/vfs/vfs.go:154-163 | the request with its cursor and flag is encoded and decoded, the helper's page is encoded and decoded, and what comes out is the page asked for; exactly a path or cursor too long to send is refused |
| Listing.ReadDir | internal/vfs/vfs.go:149-176 | strictly increasing names; every name present throughout exactly once; only entries some page really listed; an unchanging directory exactly; always ends, never for lack of progress, and in error only for a failed page or a path too long to send |
| Fuzzy.Index | internal/fuzzy/fuzzy.go:102-119 | the first occurrence, or -1 exactly when there is none |
| Fuzzy.ScoreOf | internal/fuzzy/fuzzy.go:71-99 | the points of the positions one by one, in tenths, less a tenth a unit of length |
| Fuzzy.UnitsCompare | internal/fuzzy/fuzzy.go:71-99 | what one more unit is worth: ten, thirty more if adjacent, twenty-five more at the start of a word, less up to twenty for what is skipped |
| Fuzzy.Forward | internal/fuzzy/fuzzy.go:148-162 | finds an embedding exactly when there is one, and puts every unit no later than any embedding does |
| Fuzzy.Backward | internal/fuzzy/fuzzy.go:164-183 | the pointwise greatest embedding with the least possible end; the fallback is unreachable |
| Fuzzy.Find | internal/fuzzy/fuzzy.go:123-183 | the whole promise of a match: first contiguous hit, else the tightest embedding, else none |
| Fuzzy.ContiguousHitsCompare | internal/fuzzy/fuzzy.go:128-146 | what a contiguous hit is worth next to another: 200 more at the start of a word, two less a unit further in up to the hundredth, a tenth less a unit of length |
| Fuzzy.AnswersAgree | internal/fuzzy/fuzzy.go:123-183 | that promise leaves no freedom: positions and score are determined |
| Fuzzy.MatchesIffSubsequence | internal/fuzzy/fuzzy.go:148-162 | a name matches exactly when the needle is a subsequence of it |
| Fuzzy.AdjacentIffOccurs | internal/fuzzy/fuzzy.go:128-146 | positions are adjacent exactly when the needle occurs in one piece |
| Fuzzy.PointsAreBounded | internal/fuzzy/fuzzy.go:71-99 | each unit after the first is worth at most 65, and an embedding with a gap loses at least 31 of that |
| Fuzzy.ContiguousOutranksScattered | internal/fuzzy/fuzzy.go:128-146 | a contiguous hit of an n-unit needle scores above every scattered one in a name that is shorter by less than 8610 - 650 n units |
| Fuzzy.OutranksIffWithinAllowance | internal/fuzzy/fuzzy.go:128-146 | exact for every n above one and every difference of lengths: it does so for all such names if and only if the difference is below that |
| Fuzzy.ThirteenAtEqualLength | internal/fuzzy/fuzzy.go:128-146 | at equal length that is exactly up to 13 units, and among all names of at most 255 units exactly up to 12 |
| Fuzzy.ContiguousCanBeOutranked | internal/fuzzy/fuzzy.go:128-146 | for every needle length and every larger difference, a contiguous hit and a scattered one that scores at least as much |
| Fuzzy.ComposedSyllableShowsItsLead | internal/fuzzy/fuzzy.go:195-212 | the syllable composed of a lead, a vowel and a final shows exactly that lead |
| Fuzzy.LeadsAreDistinct | internal/fuzzy/fuzzy.go:189-193 | the nineteen lead consonants are in order and distinct |
| Fuzzy.LeadConsonants | internal/fuzzy/fuzzy.go:202-211 | unit by unit, with the length kept |
| Fuzzy.Score | internal/fuzzy/fuzzy.go:270-281 | the better of the answers for the name and, where tried, its lead consonants |
| Fuzzy.ScoresAgree | internal/fuzzy/fuzzy.go:270-281 | that decision is determined too |
| Fuzzy.SecondPassIsForNothing | internal/fuzzy/fuzzy.go:213-263 | for a query without a consonant the pass over lead consonants never changes the result, match, score and positions, so skipping it is exact |
| Fuzzy.Contiguous | internal/server/search.go:185-192 | true exactly for adjacent positions |
| Fuzzy.AdjacentIffInOnePiece | internal/server/search.go:93-142 | up to 13 units, keeping only adjacent positions keeps exactly the names that hold the query in one piece, in the name or its lead consonants |
| Fuzzy.Hit | internal/server/search.go:135-142 | a query of one or two units keeps a name exactly when it holds the query in one piece |
| FuzzyTs.TsScoreOf | web/src/lib/fuzzy.ts:49-70 | the same score as in Go |
| FuzzyTs.FuzzyMatch | web/src/lib/fuzzy.ts:81-128 | the same promise as in Go |
| FuzzyTs.Embedding | web/src/lib/fuzzy.ts:98-127 | the two passes: an embedding exactly when there is one, and then the tightest |
| FuzzyTs.TsLeadConsonants | web/src/lib/fuzzy.ts:148-156 | iterating characters instead of units gives the same result, surrogate pairs included |
| FuzzyTs.ScoreFolded | web/src/lib/fuzzy.ts:229-237 | the same decision as in Go |
| FuzzyTs.BothScore | web/src/lib/fuzzy.ts:229-237 | server and browser return the same score and positions for every name and query |
| Walk.VisitDir | internal/vfs/walk.go:98-127 | one directory: what visit was called with, what is queued, and the reason it stopped |
| Walk.WalkLevel | internal/vfs/walk.go:76-128 | one level, a beginning of the breadth-first order whatever happens; it ends early only at the cap, at the first check or directory that fails, or where visit said no |
| Walk.Walk | internal/vfs/walk.go:58-138 | at most the cap; always a beginning of the breadth-first order; complete when it ends without a reason to the contrary; and each reason exact: the cap is reached with something left, the first failed check comes before the directory not read, that directory is the broken one, visit said no to the last entry alone |
| Walk.OrderIsDirByDir | internal/vfs/walk.go:66-137 | the order is what is in the directories one after another, so "before the n-th directory" is a place in it |
| Walk.OrderHolds | internal/vfs/walk.go:44-56 | the order holds exactly what can be reached through readable directories past nothing hidden |
| Walk.FinishedWalkIsComplete | internal/vfs/walk.go:129-136 | a walk that ends without error, truncation or stop examined every reachable entry at any depth |
| Walk.OrderIsByDepth | internal/vfs/walk.go:49-52 | entries come in non-decreasing depth |
| Walk.NothingTwice | internal/vfs/walk.go:66-137 | no entry is examined and no directory read twice |
| Search.ScoredIffHolds | internal/server/search.go:134-139 | for longer queries the matcher answers exactly for names that hold the query as a subsequence, in themselves or their lead consonants |
| Search.Matching | internal/server/search.go:134-160 | visit sends exactly the hits, in the order of the walk |
| Search.Search | internal/server/search.go:119-181 | a search that reports neither truncation nor an error and was not hung up on has sent exactly the reachable entries whose names hold the query, each once; none sends anything else or more than the limit, and each says "truncated" only for a reason |
| Activity.Store.Record | internal/activity/store.go:62-84 | an acknowledged event is readable in the file of its own UTC day exactly when that file ended in a newline before; no line that ever got its newline changes, and nothing inside the window is lost |
| Activity.Store.Roll | internal/activity/store.go:87-103 | switches to the day's file, pruning only on a switch and never the file switched to |
| Activity.Store.Prune | internal/activity/store.go:110-125 | removes exactly the removable files of days before the window |
| Activity.Store.Days | internal/activity/store.go:153-161 | every day file once, newest first |
| Activity.Store.Ask | internal/activity/store.go:143-186 | the early-stopping query answers what reading every file in any order, filtering, sorting and taking the limit would |
| Activity.AnswerMeans | internal/activity/store.go:143-186 | an answer holds recorded events that meet every filter set, newest first and at most the limit, and every such event unless the limit is reached by events no older |
| Activity.NewestFirstIsStable | internal/activity/activity.go:122-124 | newest first, events of one moment in recorded order |
| Activity.StableSortIsUnique | internal/activity/activity.go:122-124 | only one list is both |
| Activity.EnoughIsEnough | internal/activity/store.go:178-180 | once the newest days give enough, the rest cannot change the answer |
| Activity.BeforeSinceIsNothing | internal/activity/store.go:167-172 | days before the one the bound falls in cannot change the answer |
| Activity.ReadingOrderDoesNotMatter | internal/activity/store.go:143-186 | the answer does not depend on the order files are read in |
| Provision.Provisioner.Forget | internal/provision/provision.go:187-194 | filtering the slice over its own array keeps exactly the times inside the hour, in order |
| Provision.Provisioner.Prune | internal/provision/provision.go:207-211 | drops exactly the identities that may call again |
| Provision.Provisioner.Reserve | internal/provision/provision.go:175-214 | the new map and slice and the refusal for every case |
| Provision.GrantKeepsHourlyLimit | internal/provision/provision.go:187-197 | granting with fewer than sixty in the hour before its reading leaves every hour, less the skew of the readings, within sixty |
| Provision.PrunedMapIsSmall | internal/provision/provision.go:204-212 | what pruning leaves is bounded by the hourly limit |
| Provision.CallKeepsInv | internal/provision/provision.go:175-214 | any call, granted or refused, whose reading is no more than the skew older than the newest processed, keeps the limits and what the memory must remember for them |
| Provision.LimitsHold | internal/provision/provision.go:112-126 | over every run in which nobody waits longer than w for the lock: at most sixty grants in any hour less w, ten minutes less w between grants to one identity despite pruning, at most 4096 identities remembered for w up to fifty minutes |
| Provision.GrantedIffAllowed | internal/provision/provision.go:175-214 | exactly who is let through in the order of readings: refused as attempted if granted less than ten minutes ago, as too many if sixty were granted in the hour, otherwise granted, whatever has been pruned |
| Provision.SkewedRunKeepsInv | internal/provision/provision.go:175-214 | the same for any lock order, in terms of how much older than a processed reading a later one may be; with none older, the full limits |
| Provision.HourlyLimitIffNobodyWaits | internal/provision/provision.go:175-197 | sixty in an hour holds in every run with waits up to w exactly when w is zero: any wait at all lets a run grant sixty-one |
| Provision.ApartIffNobodyWaits | internal/provision/provision.go:175-212 | likewise ten minutes between two grants to one identity |

## Left out

- Identity.Store.ResolveIdentity: this method is a sign-in nobody interrupts on a current store; interleaved ones over replicas are SignIn's.
- SignIn.StepKeepsOk: a write that the store refuses before taking its lock is refused under it, and a lookup of an empty subject or address reloads first.
- Identity.Store.CleanAll: trims and lowercases ASCII only, and counts an address's characters where the code counts bytes.
- Activity.Store.Record: one replica writes; a file that another replica prunes or writes to while it is open here is not modelled, nor is a line longer than the reader's buffer.
- Activity.Store.Days: day numbers stand for the dates in the file names, which order alike for the years 0000 to 9999.
- FileLayer.FS.Write: a request whose answer is lost takes effect before the call returns; the helper may also carry it out later.
- FileLayer.FS.LinkToTrash: likewise for a lost request that is carried out after the call has returned.
- FileLayer.FS.MoveToTrash: likewise for a lost request that is carried out after the call has returned.
- FileLayer.FS.FillTemp: likewise for a lost request that is carried out after the call has returned.
- FileLayer.FS.Publish: likewise for a lost request that is carried out after the call has returned.
- FileLayer.FS.Remove: directories and what is in them are not modelled, so removing one is moving a single name; lost requests as above.
- FileLayer.FS.Move: the destination's own existence checks are the kernel's; path cleaning is not modelled; lost requests as above.
- Fuzzy.ScoreOf: scores are exact tenths; the rounding of floating-point addition is not modelled.
- FuzzyTs.FuzzyMatch: the host's own string search is taken to return a first occurrence.
- Walk.Walk: what reading a directory gives is a function of its path, which is enough because no directory is read twice; the depth limit is not negative.
- Provision.Provisioner.Reserve: the slice's backing array has its final capacity from the start.
- Unicode normalisation and case folding, JSON, times as text, password hashing and random numbers: values are taken as already decoded, folded or drawn.
- HTTP handlers, streaming of search results, cookies, OIDC verification, the control-plane client, the provisioning call itself and the interface's components.
- Kernel permission checks, ACLs, sockets and process spawning: a system call is one atomic step with an outcome.
- The request queue, enrolment tracking, the tailer of smbd's log, quota and session code: small members beside those above.
