# SPLime: verified models of five components

This project models the parts of the SPLime framework that carry the hardest
guarantees, and proves them for all inputs and all runs.  `dafny verify
dfyconfig.toml` checks everything.

**Native result rewriting** (`NativeGraph`, `NativeDiscovery`, `NativeConvert`,
`NativeResults`, `ArtifactNames`).  A result is a graph of objects, possibly cyclic
and shared.  Objects are identities, the heap maps them to nodes, and leaf
replacements are an oracle.  The three phases are methods over that heap:
discovery by worklist, the reverse closure of what must change, and the memoised
rebuild.  `Meaning` says independently of all three what a source object stands
for; the main theorem is that the rebuilt object shows exactly that, to any depth.
Python's recursion limit is the parameter `depth`.  The rebuild ends exactly if no
tuples and sets need each other in a cycle, and the depth that then suffices is given
in the number of affected objects.

**Embedded cache** (`CacheLocks`, `CacheSafety`, `CacheProgress`, `CacheScripts`,
`CacheCalls`, `CacheContents`, `CacheEffects`, `CacheEviction`, `CacheWorkers`,
`CacheFamilies`, `CacheDeadlock`).  A step relation over
any number of threads and processes: thread lock, then file lock, ordered acquisition,
evictions that only try, timeouts and other exceptions at any point.  Directories have
versions that are never reused.  The calls of the backend are lists of operations, and
what they leave in the cache is told from their runs.
User code may call again while its own run is going on, may catch what such a call
raises and go on, and may do so in a worker process for which its caller waits; a
worker belongs to one execution of its caller.  **Environment trees**
(`EnvironmentInventory`, `EnvironmentTree`, `EnvironmentVerify`, `EnvironmentExact`,
`EnvironmentBuild`) validate, write and check an inventory on file systems that may
ignore case, and do all three to build an environment; `PathWalk` says where a path
leads.  **Component closure** (`ComponentClosure`, `ComponentTrust`, `ComponentWitness`)
verifies a bundle and everything embedded in it.  **Run receipts** (`RunReceipts`,
`ReceiptDelivery`, `ReceiptFlush`) are a step relation over callers and drain threads,
and the shutdown flush over real time.

**Pipeline graphs** (`PipelineLayers`, `PipelineModel`, `PipelineLinks`,
`PipelineLayout`).  The model of a decomposition is built in place, its layers are
found by relaxation, and its boxes and edges are placed.

**Adapters and results on the client** (`RuntimeAdapters`, `ResultSplice`).  Arguments
are copied and nulled, staged files are named, and decoded outputs are put into
copies of nested dictionaries.

**References and releases** (`PublicRef`, `RefGrammar`, `ChecksumInventory`,
`ReleaseEvidence`, `ReleaseMeaning`, `ConsoleArchive`, `ConsoleArtifact`,
`ConsoleMeaning`).  The reference parser and printer against their grammar, the
evidence chain of a release, its checksum inventory, and the Console builder
against the separate checks of its output.

`Common`, `Decimal`, `Text` and `UniqueNames` are shared vocabulary.

Some properties turned out to need a condition, which the model states exactly:

- An environment inventory with a file at `.` passes validation but can never be
  written (`EnvironmentTree.RootFileIsAccepted`, `EnvironmentTree.WriteEnvironmentTree`).
- Parsing and formatting of references are inverse only for versions with no more
  digits than the interpreter converts (`PublicRef.FormatsWithinLimit`).
- Eviction is safe because its lock has the name of the directory: with any other
  prefix a locked and verified environment is removed (`CacheCalls.OtherPrefixEvicts`).
- A call and its workers, alone in the cache, never reach a state with work left where
  nobody can go on, if and only if no call inside a worker shares its bundle or an
  environment with an execution that waits for that worker (`CacheDeadlock.NeverStuckExactly`);
  a worker that calls the release that its caller runs is the witness
  (`CacheDeadlock.SameReleaseGetsStuck`).  Other families in the same cache are excluded
  from this statement: two can block each other without any such call
  (`CacheDeadlock.CrossedReleasesGetStuck`).  Where workers make no calls, nobody
  deadlocks in any company (`CacheDeadlock.IdleWorkersNeverDeadlock`).
- Accepted receipts are sent unless the drain thread could not be started, or was ended
  by an exception that its loop does not catch: then the emitter never sends anything
  more (`RunReceipts.NeverAbandoned`).
- A pipeline link runs to the node that is declared under the id of its target exactly
  if no earlier link has a source that is no node and whose label, with the number of
  that link, happens to be that id (`PipelineLinks.DeclaredTarget`; witness
  `PipelineLinks.ShadowedTarget`).
- Output paths lie apart exactly if no port has the outer name of another for its
  own (`ResultSplice.OutputsLieApart`).
- A built or published manifest also proves the source stage, so the built step can
  be repeated on it; built evidence survives exactly if the artifacts have the hashes
  of those before (`ReleaseEvidence.RunChangesBuilt`, `ReleaseEvidence.RepeatedBuildOverwrites`).
- The checksum inventory follows a released asset that is a link, although it means
  to refuse links; it refuses only those it meets in the Console
  (`ChecksumInventory.LinkedAssetIsFollowed`).
- The Console archive check compares member names as written, so an accepted archive
  holds exactly the staged files if and only if all file members of one path agree
  (`ConsoleArchive.AcceptedIsExact`, `ConsoleArchive.EarlierMemberIsNotNoticed`).

## Model

| member | source | states |
|---|---|---|
| NativeDiscovery.Discovery.Visit | src/spl/execution_results.py:278-327 | visiting an object changes no object, adds edges only at it, and binds a wrapper to what it stands for: its result entry, or a new dict of its unreserved entries |
| NativeDiscovery.Discovery.Discover | src/spl/execution_results.py:273-330 | discovery ends, has seen exactly the objects reachable from the root, cyclic or not, and its parent sets invert exactly the edges followed |
| NativeDiscovery.CloseAffected | src/spl/execution_results.py:332-338 | the closure loop computes exactly the discovered objects from which some replacement can be reached |
| NativeGraph.ResolvesToUnique | src/spl/execution_results.py:344-351 | a wrapper chain ends in one object at most |
| NativeGraph.ClosedWrappersNeverResolve | src/spl/execution_results.py:344-348 | a chain that comes back to one of its own aliases ends nowhere |
| NativeGraph.CircularExactly | src/spl/execution_results.py:342-351 | an object stands for nothing exactly if its alias chain consists of wrappers only and comes back to one of them |
| NativeGraph.NestsExactly | src/spl/execution_results.py:364-378 | the recursion through tuples and sets is bounded exactly if every cycle of resolved children passes through a dict or list, and then by the number of affected objects |
| NativeConvert.Converter.ResolveAliases | src/spl/execution_results.py:342-351 | the alias loop ends: cyclic exactly if the item's chain has no end, otherwise at a memoised object or at one that is no wrapper, with all aliases leading to it |
| NativeConvert.Converter.Convert | src/spl/execution_results.py:341-378 | every finished call keeps the rebuild invariant (images complete, one new object per rebuilt container, memo entries final), writes no discovered object, reports a cyclic wrapper only where a chain has no end, and never runs out of depth below a sufficient bound |
| NativeConvert.Converter.Settle | src/spl/execution_results.py:352-355 | a chain that ends in a memoised object or a leaf replacement gets that image for all its aliases |
| NativeConvert.Converter.ConvertMutable | src/spl/execution_results.py:356-363 | a dict or list is memoised before its children, so cycles through it close, and ends up with the images of its children in order |
| NativeConvert.Converter.FillAll | src/spl/execution_results.py:358-363 | filling an open container appends the images of all its children in order and writes no other object that was there |
| NativeConvert.Converter.FillNext | src/spl/execution_results.py:360-363 | converting one more child extends only the open container, whatever that child reaches |
| NativeConvert.Converter.ConvertImmutable | src/spl/execution_results.py:364-378 | a tuple or set is built after its children, or is the one that a dict or list below it built meanwhile |
| NativeConvert.ImageOfResolved | src/spl/execution_results.py:342-378 | a memoised object has the image of the object it resolves to |
| NativeConvert.ChainAfterwards | src/spl/execution_results.py:364-377 | aliases that were memoised while children were converted already have the right image |
| NativeConvert.DepthBelowMutable | src/spl/execution_results.py:356-363 | the recursion measure drops below a dict or list: one unmemoised dict or list fewer |
| NativeConvert.ShallowBelow | src/spl/execution_results.py:364-365 | the recursion measure drops below a tuple or set: one level of nesting fewer |
| NativeResults.ChaseIsResolve | src/spl/execution_results.py:306-313 | discovery resolves a wrapper to exactly the place where its chain in the source ends |
| NativeResults.ImageMeans | src/spl/execution_results.py:265-380 | the image of every source object shows its meaning to any depth: wrappers resolved, leaf replacements substituted, kinds, keys and child order kept |
| NativeResults.SharingPreserved | src/spl/execution_results.py:339-378 | two references become one object exactly if they resolve to one object, tuples closed through a dict or list included |
| NativeResults.IdentityPreserved | src/spl/execution_results.py:332-339 | an object is returned itself exactly if no replacement is reachable from it; otherwise its image is new |
| NativeResults.OnlyNeededObjects | src/spl/execution_results.py:309-380 | no source object is written, and each new object is one rebuilt container or one dict of unreserved entries |
| NativeResults.EverythingConverted | src/spl/execution_results.py:341-380 | once the root has an image, so has every reachable object |
| NativeResults.DepthSuffices | src/spl/execution_results.py:341-378 | without a cycle of tuples a depth of n * (n + 1) + n + 1 for n affected objects suffices for the whole rebuild |
| NativeResults.SoundHasNoCycle | src/spl/execution_results.py:341-378 | if every reachable object can be converted, every cycle passes through a dict or list |
| NativeResults.NormalizeNative | src/spl/execution_results.py:265-380 | end to end: the result shows the meaning of the root; success implies that every reachable wrapper resolves and every cycle passes through a dict or list; if every cycle does, then at a sufficient depth, given in the size of the graph, the cyclic-wrapper error is raised exactly if some reachable chain consists of wrappers only and repeats, and nothing else fails |
| ArtifactNames.Reservations.ReserveArtifactName | src/spl/execution_results.py:465-472 | the loop ends with the first name of the numbering that is free, and reserves it; it fails only at a name on the way that is not valid |
| ArtifactNames.KeepsExtension | src/spl/execution_results.py:159-163 | numbered names keep the stem and the extension of the wanted one |
| UniqueNames.FirstFree | src/spl/pipeline_widget.py:728-735 | the numbering loop ends at the first name that is not in use, after at most two more tries than names in use |
| CacheSafety.StepKeepsInv | src/spl/embedded.py:442-514 | every step, exceptions and timeouts included, keeps: each lock has one owner, verified environments are there unchanged under a lock that is held, run ids stay unknown until taken |
| CacheSafety.WritesUnderLock | src/spl/embedded.py:2162-2241 | a step changes only the directory its operation is about, and only while its thread owns the file lock of that directory |
| CacheSafety.SoleOwner | src/spl/embedded.py:442-482 | no two threads own one file lock |
| CacheSafety.OtherStepProtects | src/spl/embedded.py:2387-2414 | no build, rebuild or eviction by another thread touches an environment that a thread has verified |
| CacheSafety.VerifiedStaysUntouched | src/spl/embedded.py:2043-2085 | in every interleaving, from the moment a thread verifies an environment until it gives it back, every state has that very directory |
| CacheSafety.UnwindsOrderly | src/spl/embedded.py:476-482 | what is held above the place where an exception is caught is given back in reverse order, and what then follows keeps to the discipline |
| CacheSafety.RecoversOrderly | src/spl/embedded.py:1762-1798 | whoever catches the exception of a call, user code inside a run included, goes on orderly and takes no lock that it would not have taken |
| CacheProgress.OwnerIsFurther | src/spl/embedded.py:2058-2059 | the owner of a lock that a thread waits for has work left, and waits, if at all, further up the lock order |
| CacheProgress.RunLocksAreFree | src/spl/embedded.py:2428-2431 | nobody ever waits for the lock of a run: no other thread knows its name |
| CacheProgress.NoDeadlock | src/spl/embedded.py:442-514 | as long as some thread has work left, some thread can take a step without any timeout |
| CacheProgress.FinishedFreesAll | src/spl/embedded.py:442-482 | when all work is done every lock is free |
| CacheScripts.SortedDigestsAreSorted | src/spl/embedded.py:2055-2058 | environment digests are acquired in ascending order, each once, and all of them |
| CacheScripts.ScriptsRun | src/spl/embedded.py:1641-1798 | any list of calls, isolated or in process, with any calls by user code inside runs, acquires in order and gives everything back |
| CacheCalls.ScriptsTake | src/spl/embedded.py:1762-1765 | a program takes exactly the artifact locks of its own run ids, each in its turn |
| CacheCalls.ScriptsBacked | src/spl/embedded.py:2060-2078 | in every call each execution comes after all the environments it needs were ensured and before any is given back |
| CacheCalls.StartHasInv | src/spl/embedded.py:1641-1798 | programs with fresh run ids start in a state that satisfies the invariant, whatever the cache holds |
| CacheCalls.CallsKeepInv | src/spl/embedded.py:1641-1798 | every state of every interleaving of any calls satisfies the invariant, also when user code catches what an inner call raises and goes on |
| CacheCalls.ExecutesOnVerified | src/spl/embedded.py:1699-1712 | whenever a call is about to execute, each environment it needs is in the cache exactly as this call verified it, under a file lock that it owns |
| CacheCalls.CallsNeverDeadlock | src/spl/embedded.py:1641-1798 | no interleaving of any calls reaches a state in which work is left but nobody can go on |
| CacheCalls.OtherPrefixEvicts | src/spl/embedded.py:2410-2414 | a sweep of environments under any other lock prefix removes one that is verified and locked |
| CacheContents.BuildsFromWheels | src/spl/embedded.py:2162-2205 | whenever any call, at any depth and in any interleaving, is about to verify or build an environment, every wheel of the runtime that asks for it is in the cache |
| CacheContents.ExecutesInDirectory | src/spl/embedded.py:1762-1765 | whenever code is about to be executed, the directory of its run is there, under a lock that the call holds |
| CacheContents.HeldStaysThere | src/spl/embedded.py:1667-1735 | a bundle or run directory that is there under a lock that a thread holds, or a wheel, stays there in every interleaving as long as the lock is held |
| CacheEffects.AloneCallLeaves | src/spl/embedded.py:1641-1735 | for an isolated or in-process call alone in any cache, without exceptions: the bundle that it fetched, its wheels, environments and run directory are there when its code is executed and when it ends, after its own cleanups; an in-process call leaves its bundle unless its own user code installs another |
| CacheEffects.AloneCallReads | src/spl/embedded.py:1720-1745 | alone, a call in the caller's process that fetches its bundle finds it there when it reads it, whatever its code will call |
| CacheEviction.CleanupCleans | src/spl/embedded.py:2387-2414 | a cleanup alone does nothing up to the maximum; above it, it removes entries until exactly the maximum is left or all that are left are preserved or in use, and it removes nothing preserved, in use or of another kind |
| CacheWorkers.CrewKeepsInv | src/spl/embedded.py:1667-1735 | worker processes, each for one execution of its caller, that call the cache while their callers wait keep all of the above, in any interleaving |
| CacheWorkers.SomebodyMoves | src/spl/embedded.py:1667-1735 | in a state in which no worker waits for a lock somebody can go on, whatever else runs |
| CacheWorkers.NeedNeverEnds | src/spl/embedded.py:442-514 | a worker that is yet to take a lock of somebody who waits for it never takes it by progress alone, whatever others do |
| CacheWorkers.AloneMoves | src/spl/embedded.py:1667-1735 | in a state of one call and its workers, alone, in which no worker needs a lock of those who wait for it, one of them can go on |
| CacheFamilies.ScriptsAreMarked | src/spl/embedded.py:1667-1735 | in the script of any nested calls, each execution is that of one of the calls, under exactly the bundle and environment locks of that call |
| CacheFamilies.InsideIsDone | src/spl/embedded.py:1641-1798 | a call at any depth is executed in the script and takes every bundle and environment lock that it uses |
| CacheDeadlock.NeedIsClash | src/spl/embedded.py:1667-1699 | if in a state of any run, exceptions included, a worker needs a lock of somebody who waits for it, then one of its calls shares a bundle or an environment with that execution |
| CacheDeadlock.ClashNeverFinishes | src/spl/embedded.py:1667-1736 | a worker with such a call, and everybody who waits for it, has work left in every state of every run without exceptions, whatever else runs |
| CacheDeadlock.NoClashNeverStuck | src/spl/embedded.py:1641-1798 | without such a call, one family alone is never stuck, whatever exceptions there were |
| CacheDeadlock.ClashGetsStuck | src/spl/embedded.py:1641-1798 | with such a call, some run of one family alone from its start, without exceptions, ends where nobody can go on |
| CacheDeadlock.NeverStuckExactly | src/spl/embedded.py:1641-1798 | one family alone is never stuck in any interleaving if and only if no call of a worker shares a bundle or an environment with an execution that waits for it |
| CacheDeadlock.SameReleaseGetsStuck | src/spl/embedded.py:1667-1699 | a worker that calls the release that its caller runs: from the start, such a run gets stuck |
| CacheDeadlock.IdleWorkersNeverDeadlock | src/spl/embedded.py:1667-1735 | with workers that make no calls, no interleaving of any calls reaches a deadlock |
| CacheDeadlock.CrossedReleasesGetStuck | src/spl/embedded.py:1667-1699 | two callers whose workers each call the release of the other get stuck, although no worker shares anything with those who wait for it |
| EnvironmentInventory.ValidateExpectedFiles | src/spl/embedded.py:1363-1393 | accepted exactly if sizes are bounded, paths stay inside, and no two files, directories, or file and directory meet even when case is ignored; returns exactly the directories above the files |
| EnvironmentInventory.SafeMeansApart | src/spl/embedded.py:1363-1393 | an inventory is accepted exactly if it is within the limits, the parts of every path, followed one by one from the root, lead to the place that the path spells, and no two places of the tree meet even when case is ignored |
| PathWalk.LeadsItself | src/spl/embedded.py:1374-1376 | followed part by part, a path leads to the place that it spells if and only if it is relative and no part stays or goes up |
| EnvironmentTree.WriteEnvironmentTree | src/spl/embedded.py:1478-1509 | writing succeeds exactly if the directory is empty and writable, the inventory is safe and has no file at the root; then the tree is exactly the inventory with read-only directories, on any file system that keeps apart what casefold does |
| EnvironmentTree.MakeDirectories | src/spl/embedded.py:1490-1491 | from the shallowest on, every directory finds its parent and no entry in its place |
| EnvironmentTree.WriteFiles | src/spl/embedded.py:1492-1506 | every file finds its directory and no entry in its place, except a file at the root |
| EnvironmentTree.RootFileIsAccepted | src/spl/embedded.py:1375-1386 | the validation accepts a file at the root itself |
| EnvironmentVerify.Visit | src/spl/embedded.py:1543-1588 | the walk accepts exactly the trees whose entries are all as expected and in which no directory has two names that fold to one, and has then collected all files and directories |
| EnvironmentExact.CollectedIsBelow | src/spl/embedded.py:1543-1588 | the walk collects exactly the paths at which the directory has something |
| EnvironmentExact.ExactIsAccepted | src/spl/embedded.py:1522-1592 | a directory that is the inventory, path by path, passes every check of the walk |
| EnvironmentExact.AcceptedIsExact | src/spl/embedded.py:1522-1592 | a directory that passes has at every path the bytes and modes of the inventory, and nothing else |
| EnvironmentExact.VerifyEnvironmentInventory | src/spl/embedded.py:1522-1592 | on a read-only directory the answer is yes exactly if the directory is the inventory; an unsafe inventory is an error |
| EnvironmentBuild.ExactShows | src/spl/embedded.py:1478-1509 | a directory is the inventory, path by path, if and only if it shows what the writer writes from that inventory |
| EnvironmentBuild.SomeTreeIsExact | src/spl/embedded.py:1522-1592 | for each safe inventory without a root file there is a directory that the check accepts |
| EnvironmentBuild.BuildEnvironment | src/spl/embedded.py:2205-2236 | writing an inventory into a new directory and checking what is then there succeeds exactly if the inventory is safe, has no root file and the environment is healthy; the check itself never fails on what was just written |
| ComponentClosure.ValidatedArchiveMembers | src/spl/embedded.py:836-888 | accepted exactly if the inventory is safe and the archive is it, member for member |
| ComponentClosure.ArchiveIsInventory | src/spl/embedded.py:847-887 | an accepted archive has each declared member once with the declared size and hash, and no other; the last comparison of the two sets can never fail |
| ComponentClosure.VerifyPublicBundle | src/spl/embedded.py:571-689 | accepted exactly if, wherever one gets by going down through components, the release there is sound under the same origin's keys, at a depth of no more than 32; the mutual recursion ends |
| ComponentClosure.VerifyComponentClosure | src/spl/embedded.py:692-822 | accepted exactly if there is one root, paths are distinct, every component is embedded, declared and run as signed, and each embedded release is closed one level down |
| ComponentClosure.ClosedUnfolds | src/spl/embedded.py:692-822 | a release is closed exactly if it is sound and its children are closed one level down |
| ComponentClosure.EveryComponentIsSound | src/spl/embedded.py:571-822 | in an accepted bundle every component at every level exists and is sound for the same origin; what that means is told by the rows of `ComponentTrust` below |
| ComponentTrust.AcceptedIsSigned | src/spl/embedded.py:571-689 | in an accepted bundle every release, at any depth, carries a signature that verifies under a key trusted for the one origin, over the hashes of exactly its canonical manifest and its bytes; the key id is the hash of that key |
| ComponentTrust.UnsignedIsRefused | src/spl/embedded.py:615-637 | a bundle in which some release, at any depth, is not signed by the trusted key that it names is refused |
| ComponentTrust.ForgedIsRefused | src/spl/embedded.py:633-637 | changing only the value of a signature so that it does not verify has the bundle refused |
| ComponentTrust.AcceptedIsListed | src/spl/embedded.py:836-898 | in an accepted bundle the archive of every release, at any depth, is what its manifest lists, with sizes and hashes; members are plain files whose paths lead into the archive, under names that differ even if case is ignored |
| ComponentTrust.ComponentIsDeclared | src/spl/embedded.py:692-822 | in an accepted bundle every component but the root leads to the release of the declared type, id, version id, version and hashes, whose bytes and envelope its parent holds, and of whose members the parent runs exact copies |
| ComponentTrust.OneRoot | src/spl/embedded.py:692-730 | in an accepted bundle every release has exactly one root entry and no two entries of one path |
| ComponentWitness.NestedIsAccepted | src/spl/embedded.py:692-822 | a bundle with an embedded component is accepted and its component is reached: the conditions above can all be met |
| ComponentClosure.StripTwice | src/spl/embedded.py:291-302 | normalising an origin twice is normalising it once, so nested releases are checked under the same keys |
| RunReceipts.RunKeepsInv | src/spl/embedded.py:305-388 | the lock, count, order and membership invariants hold in every state of every run |
| RunReceipts.FreeMeansExact | src/spl/embedded.py:332-338 | while nobody holds its condition lock, an emitter's counter is queued plus in flight, and it is in the global set exactly if that is positive |
| RunReceipts.SentInOrder | src/spl/embedded.py:366-379 | accepted receipts are sent in order, each once, by a single drain thread; which are accepted is told by the rows of `ReceiptDelivery` below |
| RunReceipts.NeverAbandoned | src/spl/embedded.py:354-388 | an accepted receipt always has a drain thread that goes on or a thread that is about to start it, unless the start raised or an exception that is not caught ended the loop; then the emitter sends nothing more in any later state |
| RunReceipts.FlushedMeansSent | src/spl/embedded.py:340-352 | when a flush returns true every accepted receipt was sent and the emitter has left the global set |
| ReceiptDelivery.NoneIsLost | src/spl/embedded.py:318-338 | in every state of every run the receipts that an emitter has accepted, those that are still to be decided and those dropped at a full queue are together exactly those that were emitted |
| ReceiptDelivery.EmitIsDecided | src/spl/embedded.py:326-338 | every emit that has gone on was decided in one step: its receipt was appended to those accepted exactly if the queue then held fewer than 64, and dropped otherwise |
| ReceiptDelivery.EachIsSentOnce | src/spl/embedded.py:318-388 | if the queue was never full, the receipts sent, being sent, queued and still to be queued are in every state exactly those that were emitted, each as often as it was |
| ReceiptDelivery.CanSendAll | src/spl/embedded.py:354-388 | from any state of any run without a failure the emitter can come to rest with everything sent that was accepted |
| ReceiptDelivery.EveryFlushCanSucceed | src/spl/embedded.py:340-352 | as long as nothing has failed, a flush that is about to begin can still return true, after everything accepted was sent |
| ReceiptDelivery.SomeReceiptIsDelivered | src/spl/embedded.py:318-388 | there is a run in which a receipt is emitted, accepted, sent and flushed |
| ReceiptFlush.FlushPass | src/spl/embedded.py:391-406 | one pass over n emitters offers each at least an n-th of the budget, an equal share of what is left, and never waits longer than the budget in all |
| ReceiptFlush.FlushPending | src/spl/embedded.py:391-406 | all passes together wait no longer than one budget, each shares fairly what the ones before it left, and passes end exactly when nobody is active or the budget is spent |
| PipelineLayers.AssignLayers | src/spl/pipeline_widget.py:399-413 | if links join only nodes, the relaxation reaches its fixed point within as many rounds as nodes exactly if there is no cycle, whatever the link order; each layer is then the length of the longest walk that ends there |
| PipelineLayers.RelaxRound | src/spl/pipeline_widget.py:404-413 | one pass raises every target above its source's old layer, and changes nothing only at the fixed point |
| PipelineLayers.WalksAreShort | src/spl/pipeline_widget.py:403-413 | on an acyclic graph no walk visits a node twice |
| PipelineLayers.FixedIsLongest | src/spl/pipeline_widget.py:399-413 | at the fixed point every layer is the length of the longest walk |
| PipelineModel.UniqueId | src/spl/pipeline_widget.py:728-735 | the id is the first of the base and its numbered variants that is not in use, and is in use from then on |
| PipelineModel.MergePorts | src/spl/pipeline_widget.py:515-523 | declared ports come first in their order, then every linked name that is missing, once |
| PipelineModel.Builder.ResolveSource | src/spl/pipeline_widget.py:604-639 | a link's source is the node filed last under its id, or a new external one that is filed under the label of the source and the number of the link |
| PipelineModel.Builder.AddLink | src/spl/pipeline_widget.py:343-374 | the new link has a new id and joins the node filed last under the id of its target, or a new one if there is none, with the node of its source, at ports that they have |
| PipelineModel.CreateGraphModel | src/spl/pipeline_widget.py:262-393 | for any decomposition: ids are unique, there is exactly one node for each declared item, unknown target and unresolved source, with all its declared and linked ports, the k-th link joins exactly the nodes and ports that the rows of `PipelineLinks` name, and heights fit the final ports |
| PipelineLinks.FiledMeans | src/spl/pipeline_widget.py:337-371 | an id has a node before the k-th link exactly if it is declared, is the target of an earlier link, or is the label and number of an earlier source that is no node |
| PipelineLinks.DeclaredTarget | src/spl/pipeline_widget.py:344-346 | a link whose target is declared runs to the node declared last under that id, if and only if no earlier source that is no node took that id |
| PipelineLinks.DeclaredSource | src/spl/pipeline_widget.py:604-616 | the same for a link whose source is declared |
| PipelineLinks.ShadowedTarget | src/spl/pipeline_widget.py:617-639 | a declared target that is not found: the first of two links runs to it, the second to the external node of the first one's source |
| PipelineLinks.NewTargetMeans | src/spl/pipeline_widget.py:344-346 | a target gets a node exactly if it is neither declared nor brought by an earlier link |
| PipelineLinks.OwnSourceMeans | src/spl/pipeline_widget.py:604-639 | a source gets a node of its own exactly if it names none, or one that is neither declared nor brought by then |
| PipelineLinks.TargetIsShared | src/spl/pipeline_widget.py:344-346 | links with one target id run to one node, declared or not, unless a source took the id in between |
| PipelineLinks.NodeCount | src/spl/pipeline_widget.py:337-371 | there is one node for each declared item, one for each target that is new, and one for each source that is no node, and no more |
| PipelineLinks.ItemsMean | src/spl/pipeline_widget.py:262-336 | the declared items are the nodes in their order, and then the functions whose names no node and no earlier function has |
| PipelineLayout.PortIndex | src/spl/pipeline_widget.py:715-720 | the row of the first visible port with the name, or the first row |
| PipelineLayout.PortRowsFit | src/spl/pipeline_widget.py:706-720 | every port row lies inside its node's box |
| PipelineLayout.PortRowsDiffer | src/spl/pipeline_widget.py:711-720 | different visible ports have different rows |
| PipelineLayout.PositionedSeparate | src/spl/pipeline_widget.py:421-431 | no two boxes overlap: they are a layer gap or a row gap apart |
| PipelineLayout.PlaceColumn | src/spl/pipeline_widget.py:422-428 | the nodes of a layer are stacked in order, inside a stage that is no larger than needed |
| PipelineLayout.PlaceNodes | src/spl/pipeline_widget.py:415-431 | every node is where its layer and the nodes above it put it, inside the stage |
| PipelineLayout.RoutedFits | src/spl/pipeline_widget.py:436-446 | both ends of an edge touch their boxes at the rows of their ports; an edge to a later layer bends in the gap between the columns |
| PipelineLayout.LayoutPipelineGraph | src/spl/pipeline_widget.py:396-446 | the layout as a whole: positions, separation, stage, layers and paths |
| PipelineLayout.RenderPipelineGraph | src/spl/pipeline_widget.py:196-213 | from any decomposition: the nodes and links of `CreateGraphModel`, in separate boxes on the stage, with a path for every link between the nodes and ports that it names; all links point forward along longest walks exactly if the declared links have no cycle |
| RuntimeAdapters.ValidateGroupedInputSpecs | src/spl/_runtime_port_adapters_client.py:495-510 | accepted exactly if ports that read one argument chose adapters of one identity |
| RuntimeAdapters.SameIdentitySameAdapter | src/spl/_runtime_port_adapters_client.py:513-583 | choices with one identity resolve to one adapter for any value |
| RuntimeAdapters.PlacesDiffer | src/spl/_runtime_port_adapters_client.py:698-716 | different arguments are at different places of the call |
| RuntimeAdapters.ReplaceArgument | src/spl/_runtime_port_adapters_client.py:719-732 | exactly the named or positional argument is nulled in place; keyword arguments are made if there are none |
| RuntimeAdapters.UniqueInputName | src/spl/_runtime_port_adapters_client.py:871-881 | the staged name is new in the request: the first free one of its numbering |
| RuntimeAdapters.StagedNamesAreShort | src/spl/_runtime_port_adapters_client.py:871-881 | staged names have at most 255 characters as long as fewer than 999999990 are in use |
| RuntimeAdapters.PrepareInputs | src/spl/_runtime_port_adapters_client.py:218-333 | succeeds exactly if ports that read one argument made the same choice and every port has a value that is given, accepted and can travel; then each port is bound to the place and adapter of its value, each value that travels as a file is the next staged input, with exactly the bytes of a given file or else those that its adapter saves, under the first free name for its port, given name and hash, and new copies of the call differ from it exactly where values travel as files |
| RuntimeAdapters.PreparesMeans | src/spl/_runtime_port_adapters_client.py:218-333 | preparing is refused exactly for ports that choose differently for one argument, or for a port whose value is missing, not accepted, not storable as JSON, no file for the file adapter, or not saved by its adapter |
| RuntimeAdapters.AdapterIsChosen | src/spl/_runtime_port_adapters_client.py:513-583 | the adapter of a value is the one that the caller chose for the port, if it is known, or else the value's own: a file's, JSON, or its default |
| RuntimeAdapters.ArgumentIsSupplied | src/spl/_runtime_port_adapters_client.py:698-716 | the value of a port is the named argument, or else the one at its position, or else its default |
| RuntimeAdapters.SameIdentityIsSameChoice | src/spl/_runtime_port_adapters_client.py:513-542 | two choices have one identity exactly if they are the same, or name one built-in adapter |
| RuntimeAdapters.FanOutTravelsTogether | src/spl/_runtime_port_adapters_client.py:495-510 | ports that read one argument have the same adapter, transport and location |
| RuntimeAdapters.InlineValuesSurvive | src/spl/_runtime_port_adapters_client.py:248-315 | the value of a port that travels inline is read from the prepared copies just as from the caller's arguments |
| ResultSplice.Store.ReplaceResultPath | src/spl/_client.py:159-180 | succeeds exactly if the path is well formed and there; then it leads to the value, everything not below it looks as before, and no dictionary that existed is changed |
| ResultSplice.CopiesLook | src/spl/_client.py:168-179 | the chain of copies looks like the original but for the replaced path |
| ResultSplice.SpliceOutputs | src/spl/_client.py:1139-1143 | putting in outputs one after the other gives the result in which the last output on the way decides, and works exactly if each finds its place in its turn |
| ResultSplice.SpliceInAnyOrder | src/spl/_client.py:1139-1143 | outputs whose paths lie apart give one result, and succeed or fail alike, in any order |
| ResultSplice.PlacedAtFirst | src/spl/_client.py:159-180 | outputs whose paths lie apart find their places exactly if all places are there at first |
| ResultSplice.LastPutWins | src/spl/_client.py:159-180 | a value put where one was put just before leaves nothing of the first |
| ResultSplice.OutputsLieApart | src/spl/_runtime_port_adapters_client.py:781-790 | output paths lie apart exactly if no two ports agree and none has the outer name of another for its own |
| ResultSplice.OutputsAreFound | src/spl/_runtime_port_adapters_client.py:781-790 | the output of a function with one output is the whole result; any other that lies apart is found under its own name, and in a pipeline that is under its outer name, if that differs and no output was selected |
| PublicRef.FormatThenParse | src/spl/public.py:74-86 | formatting a valid reference whose version fits the digit limit gives its text, and parsing the text gives back the reference |
| PublicRef.ParseThenFormat | src/spl/public.py:41-71 | whatever is parsed is a valid reference, and formatting it gives back the exact text |
| PublicRef.FormatsWithinLimit | src/spl/public.py:74-86 | a valid reference can be formatted exactly if its version has few enough digits |
| PublicRef.OneTextPerReference | src/spl/public.py:41-86 | no two texts stand for one reference, and no two references have one text |
| PublicRef.LongVersionIsRefused | src/spl/public.py:62-66 | with a digit limit some valid references cannot be written down, without one they can |
| RefGrammar.ParsedExactly | src/spl/public.py:41-71 | a text is parsed exactly if it is written as the grammar says, with each part matched by its regular expression; the reference then has exactly the written parts and the number of the written version |
| RefGrammar.HandleMeans | src/spl/public.py:9 | a handle is accepted exactly if the regular expression, as it is written, matches all of it |
| RefGrammar.NameMeans | src/spl/public.py:94-99 | a name is accepted exactly if the regular expression matches all of it and it has another character than the dot |
| RefGrammar.VersionMeans | src/spl/public.py:62-66 | a version text is accepted exactly if the regular expression matches all of it |
| Decimal.ValuePrints | src/spl/public.py:64-66 | numerals without leading zeros are read and written back unchanged |
| Text.JoinSplit | src/spl/public.py:53-55 | joining the pieces of a split text gives back the text |
| ChecksumInventory.RebuildInventory | tools/release_chain.py:823-886 | rebuilt exactly if it is declared once, the other assets lead to files, no link lies in the Console, and the inventory leads to no covered file; one line per covered file in order with the hash of its bytes, and no other file is written |
| ChecksumInventory.OrderIsUnique | tools/release_chain.py:874-877 | there is one way to write a set of paths in order |
| ChecksumInventory.ListingOrderDoesNotMatter | tools/release_chain.py:864-877 | the inventory does not depend on the order in which directories are traversed |
| ChecksumInventory.LinesAgreeAfterwards | tools/release_chain.py:823-886 | after the rebuild every released asset leads to a file, and the line of that path has the hash of its bytes |
| ChecksumInventory.RebuildKeepsFiles | tools/release_chain.py:878-886 | the rebuild changes where no path leads, and no bytes but those of the inventory |
| ChecksumInventory.LinkedAssetIsFollowed | tools/release_chain.py:852-863 | an asset that is a link is followed and shares the line of its target; the same link in the Console is refused |
| ReleaseEvidence.MaterializeSource | tools/release_chain.py:278-340 | succeeds exactly if all references resolve, the epoch is positive and the checks accept; only commits, epoch and evidence state differ from the declaration |
| ReleaseEvidence.SourceProjects | tools/release_chain.py:66-95 | source evidence projects to its declaration exactly if the declaration holds no evidence itself |
| ReleaseEvidence.MaterializeBuilt | tools/release_chain.py:366-438 | succeeds exactly if its inputs are accepted source evidence and existing files that match; binds exactly component, Python and Console bytes |
| ReleaseEvidence.BuiltKeepsSource | tools/release_chain.py:402-438 | the built step keeps commits, epoch and the declaration projection |
| ReleaseEvidence.PublishPython | tools/release_chain.py:486-519 | accepted exactly if every declared artifact is published once, at its own address, with the bytes that were built |
| ReleaseEvidence.MaterializePublished | tools/release_chain.py:441-598 | succeeds exactly if evidence and publication fit, the inventory can be made and the last checks accept; binds exactly the publication, and the inventory stays written if only the last checks fail |
| ReleaseEvidence.PublicationSucceeds | tools/release_chain.py:441-598 | of the last checks only these can fail: the declared contract, platforms and addresses, artifact contents, and an inventory that overwrites a built artifact with bytes of another hash |
| ReleaseEvidence.PublishedKeepsBuilt | tools/release_chain.py:480-598 | the published step keeps commits, epoch and built hashes, and the projection exactly if both platforms are declared |
| ReleaseEvidence.InventoryAgrees | tools/release_chain.py:823-886 | the inventory has the manifest's hash of every released file at the path where it leads, which ends in the asset's name, and no line for itself |
| ReleaseEvidence.AcceptedIsRun | tools/release_chain.py:278-598 | whatever sequence of source, built and published steps the code accepts is a run of the state machine, whose guards alone suffice for the rows below |
| ReleaseEvidence.RunKeepsDeclaration | tools/release_chain.py:66-598 | over any sequence of source, built and published steps, repeated in any order that the guards allow, every manifest projects to the declaration, and its stage tells which steps it went through |
| ReleaseEvidence.RunKeepsSource | tools/release_chain.py:278-340 | every manifest of such a run has the commits and the epoch of its last source step |
| ReleaseEvidence.RunKeepsBuilt | tools/release_chain.py:402-438 | every built or published manifest has the paths and hashes of the artifacts that its last built step saw |
| ReleaseEvidence.RunChangesBuilt | tools/release_chain.py:366-598 | publishing keeps built evidence, building again keeps it exactly if the artifacts are the same as for the built step before, and only a source step drops it |
| ReleaseEvidence.BuiltStepMayRepeat | tools/release_chain.py:1373-1390 | a manifest with built evidence that the built step accepts goes back to the built stage; its hashes survive exactly if every artifact is where it was, with bytes of the same hash as before |
| ReleaseEvidence.RepeatedBuildOverwrites | tools/release_chain.py:366-438 | the built step does accept a published manifest whose artifacts have changed, and overwrites its hashes |
| ReleaseMeaning.RealIsWay | tools/release_chain.py:1331-1341 | a path leads to the end of the one way along links that passes no path twice, and nowhere if there is none |
| ReleaseMeaning.ProjectsMeans | tools/release_chain.py:66-95 | evidence projects to a declaration exactly if it says the same but for evidence and the declaration holds none |
| ReleaseMeaning.SourceMeans | tools/release_chain.py:278-340 | source evidence is accepted exactly for a declaration without evidence whose references all resolve, at a positive epoch; it is the declaration with those commits, the epoch and its state, no more |
| ReleaseMeaning.BuiltMeans | tools/release_chain.py:366-438 | built evidence is accepted exactly if pinned evidence of a source stage says what the declaration does and all four components, the Python artifacts under their names and the Console lead to files; each then has the hash of the bytes that its path leads to, and nothing else changes |
| ReleaseMeaning.HashesMeans | tools/release_chain.py:639-700 | the check of built evidence means that each recorded hash is that of the bytes that the recorded path leads to now, and that Python artifacts lead to files of their names |
| ReleaseMeaning.ListableMeans | tools/release_chain.py:823-886 | an inventory can be made exactly if it is declared once and leads to no covered file, the other assets lead to files, and no listed path is a link |
| ReleaseMeaning.InventoryMeans | tools/release_chain.py:864-886 | the inventory has one line for each file of a released asset or of the Console, in order, with the hash of its bytes, and is the only file written |
| ReleaseMeaning.PublishableMeans | tools/release_chain.py:441-560 | a publication goes ahead exactly if built evidence is true of the files and the supplies fit: for each artifact once its built hash at an address of its own that ends in its name, for each asset a path to the same file, for each public artifact a hash, and two different platform digests |
| ReleaseMeaning.PublishedMeans | tools/release_chain.py:441-598 | published evidence is accepted exactly if the publication goes ahead, addresses and platforms are declared and the built bytes are still there once the inventory is written; it is then the built evidence with exactly the supplied addresses, hashes and digests and the hashes of the released files |
| ConsoleArchive.ValidateConsoleArchive | tools/release_chain.py:984-1032 | accepted exactly if all members lie below the root under different names and, read in order, leave exactly the staged files |
| ConsoleArchive.AcceptedHoldsStage | tools/release_chain.py:1005-1032 | in an accepted archive the last file member of every staged path has the staged hash |
| ConsoleArchive.AcceptedIsExact | tools/release_chain.py:1005-1032 | an accepted archive holds only staged files with the staged hashes exactly if any two file members of one path have one hash |
| ConsoleArchive.EarlierMemberIsNotNoticed | tools/release_chain.py:1011-1028 | an earlier member whose name is another spelling of a path may hold anything |
| ConsoleArchive.WriteDeterministicArchive | tools/build_console_artifact.py:245-296 | written exactly if every path is safe and every file's name fits the header of a member; folders and files in order of their names, with the staged bytes |
| ConsoleArchive.WrittenIsAccepted | tools/build_console_artifact.py:245-296 | whatever the writer writes of a tree of files, the separate validator accepts, with one file member per path |
| ConsoleArchive.ArchiveIsDeterministic | tools/build_console_artifact.py:253-296 | the archive does not depend on the order in which the stage was listed |
| ConsoleArtifact.DeployableBlobs | tools/build_console_artifact.py:184-221 | exactly the reviewed files are taken, and anything else in a public directory is refused |
| ConsoleArtifact.StaticIntegrity | tools/build_console_artifact.py:224-242 | the graph has exactly one address per staged file, with the hash of its bytes |
| ConsoleArtifact.GraphAgrees | tools/release_chain.py:704-725 | every address of the graph leads back to its file and hash, also after the graph itself is staged |
| ConsoleArtifact.GraphIsAccepted | tools/release_chain.py:614-637 | the graph covers the whole bootstrap and carries its own fingerprint |
| ConsoleArtifact.BuildConsoleArtifact | tools/build_console_artifact.py:90-181 | from a clean source of regular files into an empty output, fails exactly if a public directory holds something else, a required file or directory is missing, or a name is too long for the archive; otherwise the separate release checks accept its graph, its staged bytes and its archive (refusals of other blob modes, of an unclean source and of existing outputs that differ are left out) |
| ConsoleMeaning.ReviewedMeans | tools/build_console_artifact.py:184-195 | a path is deployed exactly if it is one of ten files at the top, or of a name that ends, in either case of letters, in a suffix that its top directory holds |
| ConsoleMeaning.BuildableMeans | tools/build_console_artifact.py:90-181 | a build succeeds exactly if public directories hold reviewed files only, all ten files and fourteen directories are there, and every name fits a member header whole or split at a slash |
| ConsoleMeaning.StageHolds | tools/build_console_artifact.py:184-221 | the stage holds exactly the reviewed files of the commit, with its bytes, and the two files that are made |
| ConsoleMeaning.AcceptedGraphMeans | tools/release_chain.py:614-725 | a graph is accepted exactly if it is of this release and all its addresses, followed part by part from the stage, lead to staged files with the recorded hashes and, under schema 3, it has the four files to start with, its style sheets and its own fingerprint |
| ConsoleMeaning.ChangeIsNoticed | tools/release_chain.py:704-725 | the graph of a stage is accepted with another one only if every file that it covers is there with bytes of the same hash |
| ConsoleMeaning.MembersMean | tools/release_chain.py:1005-1020 | the members of an archive are accepted exactly if their names differ and lead, part by part and never up, below the root, and none is special |
| ConsoleMeaning.WrittenMeans | tools/build_console_artifact.py:245-296 | a written archive has exactly one member for each directory above a staged file, in order, and then one for each staged file, in order and with its bytes |

## Left out

- Transport, TLS, Git calls, subprocess control and real file-system races: effects outside the modelled files.
- SHA-256, Ed25519, ZIP, TAR, gzip, JSON and YAML: hashes, signatures and encodings are given functions, archives are lists of named byte strings.
- Adapter resolution and output bindings inside native rewriting: whether an object is a leaf is an oracle per object, so the first path on which an object is met is not modelled.
- Set deduplication, set iteration order and the list that replaces a set with unhashable members: sets correspond by converted members.
- NativeConvert.Converter.Convert: Python's recursion limit is the parameter `depth`, and interpreter frames of other code are not counted.
- The legacy JSON normaliser in `normalize`, artifact copying and adapter saves: they would add easy members only.
- CacheLocks: waits that end by timeout are exceptions at any point.
- CacheWorkers: a worker that is stopped unwinds like any thread before its caller goes on.
- CacheDeadlock.NeverStuckExactly: one family alone, with at most one worker for each execution; several families are decided only where workers make no calls.
- CacheScripts.ScriptsRun: cache keys are numbers, which have the order of hexadecimal digests of one length.
- `_environment_use_locks` and the cache metadata of resolved releases: the same locks in the same order, or no locks.
- Projection of wheels into an environment, environment health checks and markers: they decide what the inventory is, which is an input here.
- EnvironmentTree.WriteEnvironmentTree: a directory is written by one process; durability (`fsync`) is not modelled.
- EnvironmentBuild.BuildEnvironment: the tree on disk is read as it was written; the rename into place, after which the same checks are repeated, is not modelled.
- ComponentClosure.VerifyPublicBundle: error codes do not distinguish all checks, and extraction of members to a target directory is not modelled.
- RunReceipts: rejected payload shapes, the guard of the global set (each use of it is one step) and the transport.
- ReceiptFlush.FlushPending: only waits take time, and a wait never takes longer than it was offered.
- Colours, labels, HTML, CSS, JavaScript and scalar formatting of the pipeline widget; the choice of a node's function row (`_matching_function`) is made before the model.
- Slugs of node ids are any function of the text.
- Output decoders, semantic advisories and descriptors of runtime adapters: one given check per port and value.
- Thin request builders of the clients, record labels, progress printing and API comparison tools.
- ChecksumInventory: files are a map from paths to files and links; a path with dots or through a linked directory is a link of its own.
- Compatibility matrix, public version sources, wheel identities and deployment receipts of a release: one given check per manifest.
- ConsoleMeaning.AcceptedGraphMeans: an address that starts at the root of the machine is refused; the code accepts one that happens to spell the absolute path of the stage.
- CacheEffects.AloneCallLeaves: in company, other threads may remove a directory once its lock is free, so the end of a call is told for a call alone; what holds in company is told by `CacheContents`.
- ConsoleArtifact.BuildConsoleArtifact: blob modes other than regular files, an unclean source, differing existing outputs, the build identity document, staging directories on disk and their publication are not modelled.
- Platform branches for Windows and macOS.
