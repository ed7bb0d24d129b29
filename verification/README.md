# The service layer, verified

A Dafny model of the caching and resource layer of the service: the design cache as a protocol between threads, the
bounded stores beside it, the collection algorithms over projects, archives and listings, the framings whose hashes
stand for what they frame, and the layering of configuration. Files are names with stamps and contents; hashes tell the
contents at hand apart, encodings are pairs of inverse functions, and readers, rules and formats are parameters.

`dafny verify dfyconfig.toml` checks everything.

## The parts

- **The design cache.** `Recency` says what least-recently-used stamps mean: a list. `Recorders` notes what a read opened
  and what it looked like. `DesignCache` is the table under the lock and the class that changes it. `CacheProtocol` gives
  each caller the steps of `getPersisted` and `peek`, one lock section, channel or store operation or look at a file at a
  time, with builds that call the cache in turn and any thread free to move next, to be cancelled, or to edit a file.
  `CacheSafety`, `CacheSteps` and `CacheTheorems` carry the invariant through every run to the main result: what memory
  serves is what a fresh read would give, unless a fingerprint was torn. `CacheTears` gives the runs that tear one.
  `CacheProgress` bounds the retries and rules out deadlock, and `CacheReturns` has every call return. `CacheRaces` says
  when a key is built twice. `KeptResults` memoises rule results on top and agrees with running every rule.
- **Bounded stores.** `Uploads` is the content store with its manifests and hosts, and the exchange that converges
  because one pass stamps what is already there. `Snapshots` is the snapshot registry and the operations over it, and
  `SnapshotRuns` what questions, edits and ingests under way may do to each other.
- **Collections.** `Propose` claims and groups a folder's files pass by pass, over the reachability of `Closures`.
  `ZipFs` enters archives lazily and agrees with expanding them beforehand. `Paging` and `ReviewPages` follow tokens
  over lists that change meanwhile; `ReviewStore` is the store of reviews, and `ReviewRuns` its pages while it changes.
  `OrderTables` sorts tables by several columns, over the stable sorting of `Sorting`.
- **Names and framings.** `Paths` and `ArtifactUri` are paths, URIs and the join to a host folder. `Framing` is the
  identity of an overlay, the digest of a configuration, and the records of the persistent tier.
- **Layering.** `Sources` chooses the artifacts a ref reads. `DesignMask` prunes a message to a mask. `Extends` resolves
  inherited configuration and says when layering associates.

Where a natural statement is false of the code, the model keeps the code, gives an input or a run that breaks the
statement, and proves when it does hold:

- what memory and the store vouch for is fresh: `CacheTears` breaks it, and it holds in runs that tear no fingerprint;
- one build per key: `CacheRaces.TwoBuildsAreReached`, and `CacheRaces.OneBuildPerKey` up to an eviction of an unready
  entry, after which `CacheRaces.EvictedIsBuiltAgain`;
- two answers under one snapshot read one content: `SnapshotRuns.AnswersDoDiffer` and `SnapshotRuns.LaterAnswerAgrees`;
- an ingest replaces no definition: `Snapshots.RacingIngestsReplace` and `SnapshotRuns.OnlyARaceReplaces`;
- a host answered is the manifest's: `Uploads.SeparatorsCollide` and `Uploads.HostIsTheManifests`;
- a trim is determined: `Uploads.TiedBlobsMayEitherGo` and `Uploads.TrimIsUndetermined`;
- kept results answer as running does: `KeptResults.RepeatedRuleAnswersTwice` and `KeptResults.NarrowingIsExact`;
- a written URI reads back: `ArtifactUri.SpacedPathIsLost` and `ArtifactUri.ParseInvertsText`;
- one digest, one configuration: `Framing.NamedRootReadsAsATree` and `Framing.DigestIsTheConfig`;
- every file of a design names its netlist: `Sources.SharedBoardMovesTheNetlist` and `Sources.SpellingNamesTheNetlist`;
- numbers are ordered: `OrderTables.NumbersOrderWithoutNaN`;
- layering associates, and inherits what the parent resolves to: `Extends.AssociatesIffDistinct` and
  `Extends.InheritsWhatTheParentResolves`.

Two places where the code and what is written about it differ, and the model follows the code. A kept run of a
design-wide rule answers under a scope that would not run the rule (`KeptResults.KeptDesignWideRuleStillAnswers`).
Library modules and pages sent by value are said to accumulate with a project's library
(`protos/agni/v1/webapi/config.proto:112-121`), but layering configs does not carry them over (`Extends.LayeredReads`).

## Model

| member | source | states |
|---|---|---|
| CacheTheorems.MemoryServesFresh | service/designcache.go:152-280 | In every run that tears no fingerprint, of any number of threads, edits, cancellations and evictions, a value served from memory equals a fresh build over the files as they stood at one moment: the thread was then looking at the entry of that very key, nested or not, and has been checking it or leaving with it ever since |
| CacheTheorems.UntornIsSparing | readers/formats/fingerprint.go:32-84 | A run tears no fingerprint when no edit changes what a name holds between the two looks a fingerprint takes at it; such a run, from a store of sound records, is one of a system whose edits all spare those moments, where the invariant says what fingerprints vouch for |
| CacheTheorems.NothingKeptIsUntorn | service/designcache.go:289-331 | Where no key is kept across processes every run is such a run |
| CacheTears.TornCheckServesStale | readers/formats/fingerprint.go:68-84 | The condition is needed: an edit between the content compared and the stamp taken leaves an entry whose recorder reads as unchanged, and memory then serves a value that no fresh read gives at any moment of the call |
| CacheTears.TornPrintStoresStale | readers/formats/fingerprint.go:32-62 | And an edit between the stamp compared and the content read stores a record that the files match and whose value no fresh read of them gives |
| CacheTheorems.RunKeepsInv | service/designcache.go:152-280 | Every reachable state of the protocol meets the invariant: the table is well formed and within its limit, recorders only hold stamps taken in their entry's life, and in runs that tear no fingerprint every recorder settles its value |
| CacheTheorems.StepKeepsInv | service/designcache.go:191-279 | One step of any thread, one file edit or one cancellation keeps that invariant |
| CacheTheorems.BuiltIsFreshUntilEdited | service/designcache.go:242-278 | The builder's own answer, built or restored and handed over unchecked, is fresh for as long as none of the files noted for it is edited, in every run that tears no fingerprint |
| CacheTheorems.RestoredIsFresh | service/designcache.go:289-312 | In such a run, a stored record whose contents match the files gives what a fresh build would |
| CacheTheorems.StoreStaysSound | service/designcache.go:316-331 | In such a run every record in the store is sound at every moment: any contents it matches build to its value |
| CacheTheorems.OneBuilderPerEntry | service/designcache.go:226-232 | An entry not yet ready has exactly one thread building it, at exactly one place of that thread's stack |
| CacheTheorems.MappedEntriesAreUsable | service/designcache.go:260-276 | An entry in the map is filed under its own key, within the limit, and once ready has no error and a recorder with something in it, since a build with nothing to keep leaves the map before it is closed |
| CacheTheorems.OnlyTheSeenEntryIsDropped | service/designcache.go:209-214 | An entry leaves the map only by a caller that saw that very entry stale or failed, by its own builder, or by eviction for being older than max others |
| CacheTheorems.EvalIgnoresStamps | service/designcache.go:97-112 | What a build gives depends on contents only, so it does not change with what stamps mean in another process |
| CacheTheorems.StoreOutlivesProcess | service/designcache.go:97-112 | A store left by such a run is one a fresh process with the same builds may start from |
| CacheTheorems.SinceIsHistory | service/designcache.go:203-207 | What a check compares against is how the files stood at a moment when the thread was looking at the entry of that very key, and the thread has been checking it or leaving with it at every step since |
| CacheProgress.RetriesAreCharged | service/designcache.go:191-225 | Since its call began a thread has retried at most once, plus twice for each file edit and once for each build that was cancelled or noted no file |
| CacheProgress.NoDeadlock | service/designcache.go:198-202 | While any call is in progress some thread can take a step of its own: a wait always leads to a builder of a lower level that is not blocked |
| CacheProgress.RunKeepsLogs | service/designcache.go:191-225 | The counts behind the retry bound agree with the shared state throughout every run |
| CacheProgress.CallBegan | service/designcache.go:190-193 | A thread still looking for a value has been doing so since one step, at which its counts were taken |
| CacheReturns.EveryCallReturns | service/designcache.go:152-280 | In any run that from some step on has no new call, no edit and no cancellation, whatever went before and however the threads are scheduled, every call is over in the end |
| CacheReturns.CallsComeToAnEnd | service/designcache.go:191-280 | From no sound state does a sequence of steps of calls in progress go on for ever |
| CacheReturns.ActAdvances | service/designcache.go:191-280 | Every step of a call leaves less to do: at some level of nesting and nothing above it, or else in the retries the map allows, or else in the steps of its phase |
| CacheProgress.WaitersBuilder | service/designcache.go:198-202 | A blocked thread's builder is active, and if blocked in turn waits for a key of a strictly lower level |
| CacheRaces.OneBuildPerKey | service/designcache.go:226-232 | While no entry of a key has been evicted unready, the key has at most one build, apart from one that has its result and is about to close |
| CacheRaces.EvictedIsBuiltAgain | service/designcache.go:386-397 | And such an eviction is all it takes: the next idle thread that asks for the key is a second builder of it beside the first |
| CacheRaces.TwoBuildsAreReached | service/designcache.go:386-397 | From any fresh process, whatever its limit, one call more than the limit on distinct keys and one on the first key again lead to two builds of that key |
| CacheRaces.TwoMayBuildOneKey | service/designcache.go:386-397 | From any reachable state whose map is full and whose oldest entry is still being built, four steps of two idle threads lead to two unready entries of one key with two builders |
| CacheRaces.FullMapLosesTheOldest | service/designcache.go:386-397 | A miss on a full map evicts the least recently used entry whether or not it is ready |
| CacheSteps.ServedFrame | service/designcache.go:203-207 | Merging a served entry's recorder into the build beneath keeps that build's recorder true and makes it cover what the answer depended on |
| CacheSteps.BuiltFrame | service/designcache.go:276-278 | Merging a finished build's recorder into the build beneath does the same, whatever became of the finished build |
| CacheSteps.SavedRecord | readers/formats/fingerprint.go:32-62 | A fingerprint taken name by name, each stamp compared and its content then read, is a sound record once all names are done: any contents matching it build to its value |
| CacheSteps.RestoredRecord | readers/formats/fingerprint.go:68-84 | A sound record compared name by name, each content compared and its stamp then taken, leaves a recorder that settles the restored value |
| CacheSafety.SoundAfterUse | service/designcache.go:185-190 | A build that consulted another cached value inherits what that value depended on |
| CacheSafety.CheckedMergeCovers | readers/formats/touched.go:64-81 | The first stamp kept on merging cannot hide a change: if the merged recorder is intact now, both parts agree with it |
| DesignCache.Cache.constructor | service/designcache.go:93-95 | An empty cache of the given limit |
| DesignCache.Cache.Ask | service/designcache.go:185-232 | The pass through the lock: bypassed for an empty key or a limit of zero or less; an entry there is stamped youngest and joined; otherwise a new unready entry is put in, and the map is the youngest max of what it then held, the new one among them |
| DesignCache.Cache.EvictOver | service/designcache.go:386-397 | The eviction loop ends with exactly the entries that fewer than max others were used after |
| DesignCache.Cache.EvictOne | service/designcache.go:388-395 | One turn drops the entry with the smallest stamp, found by a walk of the map in any order, without changing what survives |
| DesignCache.Cache.Look | service/designcache.go:152-165 | peek's pass through the lock: an entry there is stamped youngest; nothing else changes |
| DesignCache.Cache.Remove | service/designcache.go:209-214 | An identity-guarded delete: the key is dropped only if it still maps to the entry seen |
| DesignCache.Cache.Close | service/designcache.go:276-278 | Closing an entry fills in its result and recorder and changes nothing else |
| DesignCache.InsertKeepsTheYoungest | service/designcache.go:226-232 | On the recency list, a miss appends its key and keeps the youngest max, itself always included |
| DesignCache.BumpMovesToYoungEnd | service/designcache.go:194-197 | On the recency list, a hit moves its key to the young end |
| DesignCache.EvictLosesTheOldest | service/designcache.go:386-397 | Dropping the oldest of too many leaves the same survivors |
| Recency.StampMovesToYoungEnd | service/designcache.go:194-197 | Stamping with the next tick moves a key to the young end of the list and keeps stamps distinct |
| Recency.EvictingDropsTheHead | service/designcache.go:386-397 | The key with the smallest stamp is the head of the list, and dropping it leaves the tail |
| Recency.DescribedListIsUnique | service/designcache.go:388-394 | Distinct stamps determine the list, so the order a map is walked in does not show |
| Recency.OldestKey | service/designcache.go:388-394 | The scan for the smallest stamp finds it, in whatever order the map is walked |
| Recency.SurvivorsAreTheYoungest | service/designcache.go:386-397 | The keys with fewer than max keys used after them are the youngest max of the list |
| Recency.KeepersAfterNew | service/snapshot.go:181-197 | Storing something new and trimming keeps the limit and what was stored, and below the limit loses nothing |
| Recency.TrimmingDescribes | service/snapshot.go:181-197 | Trimming the stamps trims the list to its youngest |
| Recency.OldestGoes | service/upload.go:199-208 | One turn of an eviction loop leaves the same survivors, for whatever is held under the keys |
| Uploads.RetryConverges | service/upload.go:112-208 | Ingest, missing hashes, sending those, ingest again: with no other client in between, and no two of the contents held or sent sharing a hash, the second ingest succeeds if and only if the manifest's distinct contents fit the limit together, and then gives each file the client's own content |
| Uploads.HostIsTheManifests | service/upload.go:148-221 | In every state reached by sends and ingests in any order, where the manifests asked for are told apart by their keys, an ingest that answers a host, kept or new, answers one whose paths are exactly the manifest's and whose content under each hashes to its line |
| Uploads.LifeKeepsServing | service/upload.go:148-210 | Every kept host was built for a manifest that was asked for, under that manifest's key |
| Uploads.IngestBumpsTheNeeded | service/upload.go:176-194 | An ingest that answers missing hashes leaves every needed blob newer than every other |
| Uploads.NeededSurvivesTrim | service/upload.go:112-143 | A trim never evicts a needed blob while the needed ones fit together |
| Uploads.PutsKeepTheNeeded | service/upload.go:235-249 | Over any number of sends nothing needed that was held or sent is lost |
| Uploads.PutKeepsSound | service/upload.go:112-143 | Storing keeps the store sound: one key set for contents and order, bytes the sum of the stored sizes, within the limit, each content under its own hash |
| Uploads.IngestKeepsSound | service/upload.go:148-210 | Ingesting keeps it sound, with at most 16 hosts, distinct stamps, none past the tick |
| Uploads.HeldTogetherFits | service/upload.go:112-143 | Contents that are all held at once fit the limit |
| Uploads.TrimIsDetermined | service/upload.go:127-141 | With distinct stamps a trim's survivors do not depend on the order the map is walked in |
| Uploads.TrimIsUndetermined | service/upload.go:127-141 | A trim has more than one outcome if and only if some blob fits beside all that was used after it, and not together with all that carries its own stamp |
| Uploads.TiedBlobsMayEitherGo | service/upload.go:183-191 | So of three blobs where two fit, either of two that one ingest marked may go |
| Uploads.KeyIdentifiesManifest | service/upload.go:213-221 | Where no field holds a separator, two manifests have one key text if and only if they name one mount and the same lines, in any order |
| Uploads.SeparatorsCollide | service/upload.go:148-221 | The condition is needed: a manifest of one file whose hash field spells out a second line passes the check, and is answered with the host kept for the two files, which does not serve it |
| Uploads.LineNamesOneFile | service/upload.go:213-221 | A line reads back as its path and hash |
| Uploads.FaultlessIsClean | service/upload.go:148-171 | A manifest not refused names each file once, by a clean path inside a good mount, with a prefixed hash |
| Uploads.CompactedIsAscending | service/upload.go:223-231 | A sorted list without its repeats is strictly ascending and has the same members |
| Uploads.Compact | service/upload.go:223-231 | The in-place filter leaves exactly that list in front |
| Uploads.UploadStore.constructor | service/upload.go:97-108 | An empty store, with the default limit when none is set |
| Uploads.UploadStore.Put | service/upload.go:112-143 | Content over the limit changes nothing; content held is only stamped; new content is stored and the least recently used others evicted until it fits |
| Uploads.UploadStore.TrimBlobs | service/upload.go:127-141 | The eviction loop always finds a victim, never the new blob, and keeps the byte count exact |
| Uploads.UploadStore.UploadBlobs | service/upload.go:235-249 | Contents are stored in turn and their hashes answered in order; the first over the limit ends the call, keeping what came before |
| Uploads.UploadStore.PutAll | service/upload.go:235-249 | The loop itself, through every intermediate state |
| Uploads.UploadStore.Ingest | service/upload.go:148-210 | A faulty manifest changes nothing; a kept host is stamped and answered; otherwise held contents are stamped, and either a host with every file's content is built and kept or exactly the missing hashes are named, each once and ascending; a host answered serves the manifest where all asked for are told apart |
| Uploads.UploadStore.Gather | service/upload.go:181-194 | The pass over the files stamps what is held, gathers it by path, and lists what is not |
| Uploads.UploadStore.KeepHost | service/upload.go:196-208 | A new host is kept and exactly the least recently used past 16 are let go |
| KeptResults.ModelResults.constructor | service/keptresults.go:24-41 | A model with nothing kept yet |
| KeptResults.ModelResults.RunKept | service/keptresults.go:55-111 | Unbudgeted and unscoped, the answer is RunAll over the same rules whatever was kept, and whatever other requests keep while its rules run; a scoped or interrupted request keeps nothing; what a budget may have cut short is never kept; nothing kept changes |
| KeptResults.ModelResults.RunScoped | service/keptresults.go:115-160 | A scoped request changes nothing and answers as a scoped run of every rule, where each kept rule narrows faithfully |
| KeptResults.ModelResults.RunWhole | service/keptresults.go:55-111 | The same for a whole-design request on a model that keeps results |
| KeptResults.ModelResults.Look | service/keptresults.go:63-73 | The first pass under the lock splits the request into what is kept and what is missing |
| KeptResults.ModelResults.Keep | service/keptresults.go:94-107 | The second pass keeps each rule's run unless a budget may have cut it short, and completes the answer |
| KeptResults.JoinedIsRunAll | service/keptresults.go:164-177 | Laying each rule's own run out in order of name is the sorted run over all of them, for distinct names |
| KeptResults.ShareIsRunAlone | service/keptresults.go:79-93 | For distinct names, a rule's share of a run is its run alone, whatever ran beside it |
| KeptResults.KeptAnswerIsRunAll | service/keptresults.go:55-111 | Answers from a true store, completed by runs of the rest, are RunAll |
| KeptResults.StoredStaysTrue | service/keptresults.go:94-107 | Keeping a request's runs keeps the store true, whatever else was kept since the first pass |
| KeptResults.CutIsNotStored | service/keptresults.go:179-191 | Nothing inconclusive under a budget is kept, and nothing kept before is lost or changed |
| KeptResults.ScopedAnswerIsScopedRun | service/keptresults.go:115-160 | A scoped answer equals the scoped run of every rule, whatever is kept |
| KeptResults.NarrowingIsExact | service/keptresults.go:115-160 | For a rule that states what it considered, narrowing its kept run is its scoped run if and only if its findings travel with their verdicts |
| KeptResults.KeptDesignWideRuleStillAnswers | service/keptresults.go:115-160 | A design-wide rule is not run under a scope, but a kept run of it still contributes the findings that name no scoped subject |
| KeptResults.RepeatedRuleIsKeptTwice | service/keptresults.go:79-106 | Distinct names are needed: a rule listed twice is kept with everything twice over |
| KeptResults.RepeatedRuleAnswersTwice | service/keptresults.go:55-111 | The next request for that rule is then answered as running it answers if and only if the rule says nothing |
| KeptResults.ResultsNameTheRules | core/check/check.go:385-459 | Every finding and verdict of a run names one of the rules run |
| Grouping.SortedIsInTurn | service/keptresults.go:164-177 | A list sorted by rule is its items rule by rule |
| Grouping.WhereSort | service/keptresults.go:164-177 | Picking items out of a stably sorted list is sorting the picked ones |
| Propose.Proposer.Propose | service/propose.go:79-104 | Every input file ends in a design, in support or unread, and unread is exactly what no pass claimed; a file is listed more than once only where the two known passes repeat it; declared folders own everything under them; every netlist gets a design; designs come in order of folder |
| Propose.Proposer.constructor | service/propose.go:79-90 | The files in order, nothing claimed |
| Propose.Proposer.Add | service/propose.go:610-624 | Adding a design claims its files and records them sorted |
| Propose.Proposer.Support | service/propose.go:230-233 | A support file is claimed once |
| Propose.Proposer.Declared | service/propose.go:140-165 | Each folder holding a descriptor is a design and owns every file under it |
| Propose.Proposer.Projects | service/propose.go:179-206 | Project descriptors and the free files they name become support, and nothing else does |
| Propose.Proposer.Reads | service/propose.go:341-354 | A netlist's design reads exactly the netlist, first, its free views, every sheet its free schematic reaches, free or not, and its free project file |
| Propose.Proposer.PickEntry | service/propose.go:355-369 | A group's entry is the first netlist named just what the group shares, else the first with a view beside it, else the first |
| Propose.Proposer.GroupDesign | service/propose.go:370-399 | One design of a group: the entry's views as companions, every other netlist a revision with its own views, and exactly the files any of them reads, each once; all the netlists are claimed |
| Propose.Proposer.Groups | service/propose.go:317-327 | Free netlists fall in groups by folder and first word, each in exactly one |
| Propose.Proposer.Edif | service/propose.go:314-406 | Every free netlist gets a design, and no schematic export is left |
| Propose.Proposer.NoteKicad | service/propose.go:393-398 | The first design of a folder with a KiCad view is where its libraries go |
| Propose.Proposer.KicadDesign | service/propose.go:289-312 | The design lists exactly its project file, its entry, and for a sheet the free sheets it reaches and its free board; a project file with no sheet of its name is listed twice |
| Propose.Proposer.FreeSheets | service/propose.go:292-297 | Exactly the free files a sheet reaches |
| Propose.Proposer.RootSheets | service/propose.go:270-281 | The free sheets, and exactly what some other free sheet reaches |
| Propose.Proposer.Kicad | service/propose.go:259-287 | No project file is left, and a sheet is left only if another sheet reaches it |
| Propose.Proposer.OdbJobs | service/propose.go:411-433 | Every job still there takes every free file under its folder, and nothing outside it |
| Propose.Proposer.OdbJob | service/propose.go:415-431 | One job's design lists exactly the free files under the job |
| Propose.Proposer.BlockClosures | service/propose.go:481-489 | For each candidate exactly what it reaches by the blocks placed among free files, and all that any candidate reaches beyond itself |
| Propose.Proposer.BlockDesigns | service/propose.go:471-501 | Each new design's entry is a free file that places blocks and that no other such file reaches, and its files are reached from it; such a file left over is one another reaches |
| Propose.PlacedMeansElsewhere | service/propose.go:481-489 | The marks the closures leave say exactly which candidates another one reaches |
| Propose.Proposer.Loose | service/propose.go:506-517 | Every readable file left becomes a design of just itself, boards and plain archives excepted |
| Propose.Proposer.Libraries | service/propose.go:555-589 | A library is left only when no folder above it has a KiCad design |
| Propose.Proposer.Leftovers | service/propose.go:591-607 | Unread is exactly the never-claimed files |
| Propose.KicadRepeats | service/propose.go:289-312 | What a KiCad design may list twice, and nothing else |
| Propose.DesignListed | service/propose.go:610-624 | Adding a design keeps the count of each file's listings within what may repeat |
| Propose.ListedSorts | service/propose.go:92-103 | Sorting the designs changes no listing |
| Propose.PathNamesAreSane | service/propose.go:135-137 | Go's path functions give the view names the passes rely on |
| Closures.Closure | service/propose.go:240-257 | The growing worklist lists exactly the files reached along references among those present, root first, each once, and terminates on cycles |
| Closures.Follow | service/propose.go:243-255 | One turn of the worklist follows everything one member names |
| ZipFs.WalkIsExpandedLookup | fshost/zipfs.go:38-64 | Walking a path, entering archives lazily, ends at what a plain lookup finds in the tree expanded beforehand, at any nesting depth |
| ZipFs.ListedAsExpanded | fshost/zipfs.go:173-189 | A listing reports as directories exactly the entries that are directories in the expanded tree |
| ZipFs.WalkOneMore | fshost/zipfs.go:44-61 | One element more, from wherever the walk stands |
| ZipFs.ZipFS.constructor | fshost/zipfs.go:24-36 | An archive file system with nothing open yet |
| ZipFs.ZipFS.Resolve | fshost/zipfs.go:38-64 | Whatever the cache holds, resolving ends where a walk that reads every archive afresh does; a path that is not valid is refused |
| ZipFs.ZipFS.Archive | fshost/zipfs.go:68-83 | Opening an archive through the cache gives what reading it again would, and keeps the cache true |
| ZipFs.ZipFS.WalkDown | fshost/zipfs.go:44-61 | The walk loop reaches the spot of the whole path, keeping the cache true |
| ZipFs.ZipFS.AsDirs | fshost/zipfs.go:173-189 | Each archive in a listing is shown as a directory and everything else as it was |
| ZipFs.ZipDirFile.constructor | fshost/zipfs.go:191-202 | A directory not read yet |
| ZipFs.ZipDirFile.ReadDir | fshost/zipfs.go:203-225 | A page takes the next entries in order, at most n when n is positive and all otherwise; the end is reported only to a bounded read with nothing left |
| ZipFs.ZipDirFile.ReadAll | fshost/zipfs.go:203-225 | Reading pages of any size to the end gives the directory whole |
| Paging.Paginate | service/project.go:402-422 | A page of a project or design listing starts at the first name not before the token |
| Paging.ListSnapshots | service/snapshot.go:295-331 | A page of a snapshot listing starts after the token |
| Paging.SearchNames | service/project.go:411-413 | The binary search finds the first name ahead of the token |
| Paging.PageIsARange | service/project.go:402-422 | A page holds exactly the names between its token and the next one |
| Paging.PagesMissNothing | service/project.go:402-422 | Following tokens to the end while names come and go gives strictly ascending names, each there at some call, and every name there throughout |
| Paging.UnchangedListIsWhole | service/project.go:402-422 | An unchanged list is reproduced whole |
| Paging.PagesSoFar | service/snapshot.go:315-329 | At every point of the following, what was given and what is still ahead account for every name there throughout |
| ReviewRuns.StorePagesGiveSurvivors | service/reviewstore.go:111-224 | Over any run of a store that creates and deletes reviews between the pages, as long as no page is refused its token, the pages list reviews of the first listing in its order, newest first, none twice, and every match of it that is still held at the last page |
| ReviewRuns.RunEvolves | service/reviewstore.go:111-173 | Between any two moments of a run a listing gains new reviews at its head and loses exactly those deleted from the store |
| ReviewPages.PagesGiveSurvivors | service/reviewstore.go:183-224 | Following tokens over a listing that evolves so, but never loses the run a token names, gives runs of the first listing in its order, none twice, and every surviving match |
| ReviewPages.TokenLeadsSomewhere | service/reviewstore.go:205-222 | On an unchanged store a token never leads to an empty page |
| ReviewPages.LeftEvolves | service/reviewstore.go:190-202 | What is left after a token shrinks by exactly what was deleted |
| ReviewPages.TokenContinues | service/reviewstore.go:190-222 | The page after a token goes on where the last one ended |
| ReviewStore.SplitInvertsName | service/reviewstore.go:53-80 | Splitting a built name gives back its parts if and only if the id is valid and the parent is none or a project |
| ReviewStore.IdReadsBack | service/reviewstore.go:116-119 | An id reads back as its ordinal and may stand in a name, so no two ordinals share one |
| ReviewStore.SlicesDelete | service/reviewstore.go:233-241 | The in-place filter leaves the list without the id, in order |
| ReviewStore.PageReviews | service/reviewstore.go:183-224 | A page holds the first matches after the token, loaded, and a token exactly when more remain; an unknown token is refused |
| ReviewStore.TakePage | service/reviewstore.go:199-222 | The loop that fills a page stops at the first match past a full page |
| ReviewStore.TakeOne | service/reviewstore.go:206-220 | One run is passed over, taken onto the page, or found once the page is full |
| ReviewStore.NewestIsOrdered | service/reviewstore.go:142-157 | A listing is in order of minting, newest first, and holds exactly the project's runs |
| ReviewStore.CreateEvolves | service/reviewstore.go:111-126 | Creating puts the run at the head of each listing it belongs to and leaves the rest |
| ReviewStore.DeleteEvolves | service/reviewstore.go:159-173 | Deleting takes the run out of each listing and leaves the rest |
| ReviewStore.EvolvesOn | service/reviewstore.go:111-173 | Any number of such steps between two calls is again one evolution |
| ReviewStore.MemReviewStore.constructor | service/reviewstore.go:107-109 | An empty store |
| ReviewStore.MemReviewStore.Create | service/reviewstore.go:111-126 | A run is kept under the next id, in all three of the store's parts |
| ReviewStore.MemReviewStore.Get | service/reviewstore.go:128-140 | The run of the name's id; the parent spelled is not compared |
| ReviewStore.MemReviewStore.List | service/reviewstore.go:142-157 | The page of the project's runs, newest first |
| ReviewStore.MemReviewStore.NewestFirst | service/reviewstore.go:146-154 | The backward loop gives the project's ids newest first |
| ReviewStore.MemReviewStore.Delete | service/reviewstore.go:159-173 | The run leaves all three parts, which keep one key set; an unknown run is refused and nothing changes |
| Snapshots.StoredKeepsTheYoungest | service/snapshot.go:181-197 | Storing moves a name to the young end and keeps the youngest max |
| Snapshots.AskedMovesToYoungEnd | service/snapshot.go:170-179 | Asking moves a name to the young end |
| Snapshots.StoredHolds | service/snapshot.go:181-197 | Storing keeps the limit, what was stored, and everything that fits |
| SnapshotRuns.ChangedIsRefused | service/snapshot.go:202-217 | In every run of questions, edits, ingests, updates and deletions, once a file noted for a snapshot has changed no later question is answered under it until it is read again |
| SnapshotRuns.LaterAnswerAgrees | service/snapshot.go:202-217 | A question reads a noted file as an earlier one about the same snapshot did if and only if the file was noted no later than that reading and is not edited while the later question is at it |
| SnapshotRuns.AnswersInTurnAgree | service/snapshot.go:202-217 | So where the earlier reading was noted first, the two agree exactly when the file is not edited while the later question is at it |
| SnapshotRuns.AnswersDoDiffer | service/snapshot.go:202-217 | The condition is needed: from any fresh host a run leads to two questions answered under one snapshot that read a file differently, with no edit of it during the later one |
| SnapshotRuns.RunKeepsInv | service/snapshot.go:202-217 | No recorder, and no question under way, ever holds a stamp from the future, and every held snapshot has its recorder |
| SnapshotRuns.OnlyARaceReplaces | service/snapshot.go:255-283 | In every run, an ingest its check let through replaces another's definition only if some other ingest or update stored one under the name between that check and the store |
| Snapshots.StoreKeepsDefinitions | service/snapshot.go:263-281 | A store at any moment replaces no definition if and only if the name is then not held with another one |
| Snapshots.CheckedStoreKeepsDefinitions | service/snapshot.go:255-283 | With no store in between, an ingest its check let through replaces none |
| Snapshots.RacingIngestsReplace | service/snapshot.go:263-281 | Two ingests of a new id may both pass their checks, and the second then replaces the first's definition |
| Snapshots.Update | service/snapshot.go:345-368 | A mask takes exactly the fields it names, in any order and however often; an unknown path refuses the update |
| Snapshots.SetFieldMerges | service/snapshot.go:345-368 | One path adds one field to what was taken |
| Snapshots.SnapshotRegistry.constructor | service/snapshot.go:157-168 | An empty registry, holding 256 when no limit is set |
| Snapshots.SnapshotRegistry.Get | service/snapshot.go:170-179 | A held snapshot is answered and stamped |
| Snapshots.SnapshotRegistry.Put | service/snapshot.go:181-197 | The new entry is stored with a recorder of its own and exactly the least recently used past the limit go |
| Snapshots.SnapshotRegistry.TrimToMax | service/snapshot.go:186-196 | The eviction loop keeps exactly those that fewer than max others were used after |
| Snapshots.SnapshotRegistry.Ingest | service/snapshot.go:255-283 | Refused ids and conflicting definitions store nothing; an equal definition answers with what is held; otherwise what was loaded is stored with the recorder loading left, unless it could not be loaded |
| Snapshots.SnapshotRegistry.UpdateSnapshot | service/snapshot.go:335-375 | The merged definition is stored with the recorder loading it left; any refusal leaves what is held |
| Snapshots.SnapshotRegistry.Snapshot | service/snapshot.go:202-217 | A snapshot is answered if and only if it is held and every file noted for it stamps as it did when first noted |
| Recorders.StampAgain | readers/formats/touched.go:85-106 | Taking every noted stamp again, up to the first that differs, tells whether any has; nothing noted counts as changed |
| Recorders.TakeAll | readers/formats/touched.go:64-81 | Taking another recorder in keeps every stamp already noted and adds the rest |
| Snapshots.SnapshotRegistry.DeleteSnapshot | service/snapshot.go:378-388 | Exactly that snapshot goes; one not held is refused |
| ArtifactUri.ParseInvertsText | artifact/uri.go:54-92 | Parsing a written URI gives it back if and only if its mount is a name, its path contained, and its path has no space around it |
| ArtifactUri.SpacedPathIsLost | artifact/uri.go:154-170 | Trimming before cleaning lets "./ a" in as a path that does not come back |
| ArtifactUri.CleanPathIsAWalk | artifact/uri.go:154-170 | Cleaning a path is walking it from the mount root: refused when absolute or when some step leaves the root |
| ArtifactUri.NewIsContained | artifact/uri.go:54-66 | No URI made has a path that climbs, is absolute, or carries another separator |
| ArtifactUri.ParsedIsContained | artifact/uri.go:74-84 | Nor has any URI parsed |
| ArtifactUri.BelowIsContained | artifact/uri.go:148-150 | Nor any joined from one |
| ArtifactUri.BelowIsAWalk | artifact/uri.go:148-150 | Joining elements is walking them from the mount root: refused when they open with a slash at the root or when the walk leaves it |
| ArtifactUri.ResolvedIsContained | artifact/uri.go:106-125 | Nor any resolved against one, which also stays on the mount unless the reference is a whole URI |
| ArtifactUri.ResolveIsAWalk | artifact/uri.go:106-125 | A relative reference names what walking it from the page's directory reaches, read as any client's path is, and is an error when the walk leaves the mount, unlike section 5.2.4 of RFC 3986 |
| ArtifactUri.RootedReferenceMayNotClimb | artifact/uri.go:112-121 | A reference from the root that climbs is an error |
| ArtifactUri.DirDropsTheLast | artifact/uri.go:128-137 | The directory of a path holds all its elements but the last |
| ArtifactUri.SafeResolveStaysInside | mounts/mounts.go:126-136 | The join accepts a relative path exactly when it ends inside the root, and answers a place inside it |
| ArtifactUri.ContainedPassesTheJoin | mounts/mounts.go:126-136 | Every path of a URI passes the join and lands at its own elements under the root |
| ArtifactUri.FindMount | mounts/mounts.go:139-146 | The first mount of the name |
| ArtifactUri.ResolveOnHost | mounts/mounts.go:152-164 | A URI is refused only for an unknown mount; otherwise it lands inside the first mount of its name |
| Paths.CleanIsWalk | artifact/uri.go:154-170 | Go's lexical cleaning, in terms of the walk |
| Paths.SplitJoin | artifact/uri.go:140-150 | Elements joined and split are the same elements |
| Framing.IdentityIsTheInputs | service/overlayidentity.go:87-105 | Two overlays have one identity if and only if they were composed of the same labels and data in the same order, unless their two streams collide |
| Framing.PartStreamIsDetermined | service/overlayidentity.go:93-103 | The bytes hashed determine the parts |
| Framing.FieldIsDetermined | fshost/config.go:373-378 | A length-led field ends where it says, whatever follows |
| Framing.OverlayID.constructor | service/overlayidentity.go:24-35 | No parts yet |
| Framing.OverlayID.Add | service/overlayidentity.go:37-42 | A part is appended |
| Framing.OverlayID.AddProto | service/overlayidentity.go:46-60 | No message counts as an empty one, and one that cannot be encoded as unknown |
| Framing.OverlayID.AddDigest | service/overlayidentity.go:64-73 | Config without a digest is unknown |
| Framing.OverlayID.Unidentifiable | service/overlayidentity.go:75-80 | An unknown part is appended |
| Framing.OverlayID.Value | service/overlayidentity.go:87-105 | The identity is refused exactly when some part is unknown, and otherwise is the hash of the framed parts |
| Framing.DigestIsTheConfig | fshost/config.go:292-303 | Two configurations have one digest if and only if they have the same trees and names in the same order, where no name is the literal root, unless two of their contents or the two streams collide |
| Framing.SumsExist | fshost/config.go:319-339 | Sums of 32 bytes that tell the contents at hand apart do exist, for any fewer than 2 to the 64th of them |
| Framing.StreamIsDetermined | fshost/config.go:292-378 | The stream itself determines the trees and the names, where no two of the contents share a sum |
| Framing.NamedRootReadsAsATree | fshost/config.go:292-303 | The condition is needed: the name root before an empty one reads as an empty directory |
| Framing.DigestConfig | fshost/config.go:292-303 | The running hash is that of the roots' files in order of path and then the names, whatever order a root is walked in |
| Framing.LeavesIn | fshost/config.go:319-339 | The files of a root come in order of their paths |
| Framing.PartsInvertRecord | service/designcache.go:290-331 | Taking a record apart undoes putting it together |
| Framing.Parts | service/designcache.go:298-302 | On arbitrary bytes, what is taken out lies within them, end to end |
| Framing.VarintReadsBack | service/designcache.go:298-301 | A length of up to 64 bits reads back, and ends where it was written |
| Framing.SavedLayerRestores | service/designcache.go:316-378 | A saved layer, present or absent, is what is restored |
| Sources.ResolvingAgainAgrees | service/project.go:158-189 | Where revisions share no file, whatever a ref resolved to, each tier's artifact resolves to itself for that tier |
| Sources.EverySpellingIsOneNetlist | service/project.go:158-189 | There the folder, the entry and every companion name one netlist |
| Sources.ResolvingAgainIsExact | service/project.go:158-189 | Whatever is shared, a tier's artifact resolves to itself for its tier if and only if it supplies that tier where it resolves: as the netlist's entry, or as a companion that has the tier or an entry none of whose companions has it |
| Sources.SpellingNamesTheNetlist | service/project.go:213-224 | A file of a design names the whole design's netlist if and only if it is in no revision, or the first revision it is in has the design's own entry |
| Sources.SharedBoardMovesTheNetlist | service/project.go:213-224 | So a board a design shares with its revision resolves against the revision, and to another netlist |
| Sources.TiersOf | service/project.go:117-137 | Each tier is the named companion if it has it, else the first companion that does, else the entry |
| Sources.SourcesFor | service/project.go:117-137 | The loop over the companions computes those tiers |
| OrderTables.RowsAreOrdered | service/tabulate.go:657-759 | Rows with no NaN among the cells compared end sorted, stably, and as one stable sort for each key from the last to the first leaves them |
| OrderTables.EmptyCellsAreLast | service/tabulate.go:698-715 | Empty cells of the first key come last in either direction |
| OrderTables.NumbersOrderWithoutNaN | service/tabulate.go:736-759 | Comparing numeric cells is transitive if and only if no NaN ties with two numbers it fails to tell apart |
| OrderTables.SortTwiceIsLex | service/tabulate.go:657-727 | Sorting by one order and then stably by another is sorting by both |
| OrderTables.SortIsKeyByKey | service/tabulate.go:657-727 | The multi-key sort is the stable sorts by each key |
| OrderTables.RowIsWeak | service/tabulate.go:736-759 | The comparison of rows is a strict weak order without NaN |
| OrderTables.LessRows | service/tabulate.go:698-715 | The comparison loop answers the first column that tells the rows apart |
| OrderTables.FindCols | service/tabulate.go:680-694 | The keys a table has, in their order, and which names were found |
| OrderTables.OrderTables | service/tabulate.go:657-727 | An entry that names nothing leaves every table alone; otherwise every table keeps its own rows, in the order of the keys where no NaN is compared, and a column no table has is reported afterwards |
| OrderTables.SortEach | service/tabulate.go:673-716 | Each table is sorted in place by the keys it has: its rows rearranged, and in the order of the keys where no NaN is compared |
| Sorting.StableSortIsUnique | service/tabulate.go:657-727 | A sorted stable rearrangement is unique, so any stable sort answers it |
| DesignMask.MaskKeepsExactly | service/designmask.go:18-100 | For every checked mask, a leaf of a message of its type is shown unaltered exactly when some path covers it that no other path goes on from, through messages, lists and maps; a mask of no paths shows everything |
| DesignMask.ParseMask | service/designmask.go:18-38 | The tree of the paths given, or a refusal exactly when some path does not check |
| DesignMask.InsertBuilds | service/designmask.go:27-35 | Adding paths one by one builds the tree of them all |
| DesignMask.OrderDoesNotMatter | service/designmask.go:27-35 | The order of the paths and their repeats do not matter |
| DesignMask.LongerPathNarrows | service/designmask.go:27-35 | A path that another one goes on from adds nothing to the tree of any paths that other is among |
| DesignMask.TreeKeepsTheCovered | service/designmask.go:18-38 | The tree keeps a field exactly when some path covers it that no other path goes on from |
| DesignMask.PrefixFreeIsCoveredByAny | service/designmask.go:18-38 | Where no path is a prefix of another, that is being covered by any path |
| DesignMask.LeafIsNotAbove | service/designmask.go:42-64 | A path that checks never goes on below a plain value |
| DesignMask.PruneTwiceIsOnce | service/designmask.go:68-100 | Pruning twice is pruning once |
| DesignMask.PruneAddsNothing | service/designmask.go:68-100 | A leaf shown after pruning was there before |
| DesignMask.PruneShows | service/designmask.go:68-100 | After pruning a leaf is shown exactly when the tree keeps the fields passed through |
| Extends.ResolveExtends | service/extends.go:27-75 | The verdict is the one of the chain followed as far as it goes: the config as it is when nothing is extended, the chain layered root-first, or the first of too deep, cycle, no store, store error, no such project |
| Extends.ResolvesIffItEnds | service/extends.go:38-61 | A project the store answers by its name resolves if and only if its chain ends within four parents, and one refused as a cycle never ends |
| Extends.ResolutionIsUnique | service/extends.go:38-61 | There is one verdict |
| Extends.InheritsWhatTheParentResolves | service/extends.go:62-75 | Resolving a project is layering it over what its parent resolves to, if and only if the parent itself inherits or declares no checklist name twice |
| Extends.LayeredReads | service/overlay.go:427-464 | Every field of a layered chain: nearest convention and intent, every file list root-first, each checklist name once in the order first seen and as last declared; nothing sent by value |
| Extends.Compose | service/extends.go:62-73 | The root-first loop and the pass over the conventions give the layered chain |
| Extends.PassConventions | service/extends.go:66-72 | The separate pass agrees with the fold |
| Extends.MergeConfig | service/overlay.go:427-445 | One config over another, either of which may be absent |
| Extends.MergeChecklists | service/overlay.go:450-464 | Each checklist replaces the first of its name in place, or is appended |
| Extends.MergeAssociates | service/overlay.go:427-464 | Layering is associative where the middle config declares no checklist name twice |
| Extends.AssociatesIffDistinct | service/overlay.go:450-464 | Layering checklists around a list is associative for all others if and only if no name is in it twice |
| Extends.LayeringIsLastByFirst | service/overlay.go:450-464 | Layered over nothing, each name is there once, in the order it first came, as it was last declared |
| Extends.LayeredOverNothingIsItself | service/overlay.go:450-464 | A list layered over nothing is itself if and only if no name is in it twice |

## Left out

- CacheTheorems.RestoredIsFresh: contents are compared as they are, where the source compares their CRC-64 sums, and a
  file read outside the loader's file system, which cannot be fingerprinted, is a step that skips the save.
- DesignCache.Cache.Ask: hit and miss counters, timing, the collection after a load, and the copies handed to callers
  are left out; a build that starts builds of its own in parallel is modelled as one that runs them in turn.
- CacheTheorems.MemoryServesFresh: a build that goes on after a nested build failed is not modelled; the failure is the
  build's.
- Uploads.UploadStore.Put: sizes are unbounded, so a byte count past 63 bits is not modelled; the declared total of a
  manifest does wrap at 64 bits, as in the source.
- KeptResults.ModelResults.RunKept: how a rule is evaluated and gated is a parameter.
- Propose.Proposer.Propose: reading references out of files, the notes, the descriptors written as text, design ids and
  extended projects are left out; what a file refers to and how names fold are parameters.
- ZipFs.ZipFS.Resolve: the base tree does not change, and the overlay merged into listings, Open and Stat is left out.
- ReviewStore.MemReviewStore.Create: creation times, the copies of stored runs, and the store over a file system are
  left out.
- Snapshots.SnapshotRegistry.Ingest: what loading a snapshot reads is a parameter, as the recorder it leaves; output
  fields other than the definition, and the tiers a stale answer names, are left out. The method runs its check, load and
  store in turn; SnapshotRuns takes them apart.
- SnapshotRuns.AnswersInTurnAgree: a value the design cache serves counts as read when the cache checks it.
- Framing.OverlayID.Value: a nil receiver is not modelled. Framing.DigestConfig leaves out errors of reading.
- OrderTables.RowsAreOrdered: the natural order of text is a parameter assumed to be a weak order; with NaN among the
  cells compared only the rows are fixed, and not their order.
- DesignMask.MaskKeepsExactly: messages are values, so clearing fields in place and sharing between messages are not
  captured.
- Extends.ResolveExtends: the words of its errors are left out, but not which error comes first or the names it lists.
- ArtifactUri.ResolveOnHost: Windows paths, symbolic links and the reading of mount specifications are left out.
- Rendering, tables other than their ordering, wire conversions, the composing of overlays from requests, commands,
  readers, the query engine, and file and network access.
