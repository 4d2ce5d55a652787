# webpack: cleaning, chunk graphs, deep values, caches and lazy compilation

This project models four parts of the repository and proves what they do on every input and in every run.

**Cleaning the output directory.** `CleanJobs` is the job system of the clean plugin as a state machine:
a queue, at most ten jobs in flight, shared counters for directories, and a disk. A file system call
takes effect at one moment and reports back at a later one, and any other job may move in between; a
directory may be listed in any order. `CleanRunner` has the same steps as methods of an object that
updates its fields. The invariant (`CleanInvariant`) is kept by every step (`CleanPrimitives`,
`CleanSteps`, `CleanEvents`), a weight falls with every step (`CleanWeight`), `CleanRuns` draws the
conclusions for whole schedules, `CleanFailure` says when a schedule can fail, and `CleanRules` spells out
the numbers, names and error codes that the jobs turn on. `CleanDiff` and
`CleanOutcome` say which paths a full and an incremental clean start from and which files they leave,
`CleanPlugin` follows the plugin over a run of builds, `CleanExamples` has two small disks on which more
depends than one might think, and `AssetPath` covers the normalising of asset names, on characters and on
segments.

**Chunks and chunk groups.** `ChunkGraph` has both classes with their mutable sets and lists, the removal
of a group from a possibly cyclic graph, the list surgery (`ChunkLists`) and the worklist queries, each
proved equal to a set defined by paths (`Reachability`).

**Deep values.** `JsHeap` is a heap of arrays and plain objects. On it stand the deep clone of cyclic
graphs (`CloneDeep`), the in-place merge (`DeepMerge`, specified in `JsTree`) and the partial match
(`DeepMatch`, specified in `PartialMatch`). `Matching` is the theory of first-fit assignment behind the
match of arrays, and `MatchOrder` says which sources it finds wherever they are contained. `Caches` has
the cache classes and the memoization, `CacheSpec` what they hold as values, and `SortBy` the comparator
of several criteria.

**Lazy compilation.** `LazyKeys` is the state machine of the reference counts with their delayed release,
`LazyClient` the same as an object with a connection.

Properties of the code that turn out not to hold in general are stated with the exact condition under which
they hold. A cleaning can fail if and only if a root is missing behind a file and not kept
(`FailsIffHazard`), which in a full clean means an asset directory behind a file (`FullCleanFailsIff`);
`FileInTheWayFails` and `FileInTheWayGoes` show one input with both outcomes, and `AssetRemovedIff` which
assets are lost. Cleaning incrementally leaves the same files as cleaning in full if and only if no later
build clears the way to a file that the first clean had to leave (`FreshRunEqualsFullIff`,
`EveryRunEqualsFullIff`, `HiddenDiffers`). A name keeps its location under normalising if and only if no "."
in it is matched (`NormalizedKeepsLocationIff`, `DotSegmentMoves`). The partial match finds a source
wherever it is contained if and only if its arrays are in order (`DecidesIffWellOrdered`, `GreedyMisses`).
Deleting a key from a Stack brings back a shadowed binding if it was set twice (`RemovedIffBoundOnce`). A
deep clone is an isomorphic copy if and only if the arrays in it have no holes and no other properties
(`CloneIsomorphicIff`, `HoleIsFilled`, `NameIsLost`), and the shortcut for merging an object into itself is
right if and only if no hole would be merged (`ShortcutRightIff`, `HoleIsMerged`). Counts, keys and
connection are right throughout a run if and only if no two timers of one call fire (`RightThroughoutIff`,
`DisposedTwice`), which a caller makes sure of by calling no disposer twice, and not otherwise
(`DisposedOnceIff`). A chunk group that is its own child can stay behind as a child of others when it is
removed (`NobodyPointsBackIff`).

The comment on the parameter of `getDiffToFs` says that asset names must not start with a dot; the code
does not enforce it, and the model follows the code: the dot test applies to entries met while descending
and never to the paths a clean starts from.

## Model

| member | source | states |
|---|---|---|
| CleanRuns.EverySchedule | webpack-main/lib/CleanPlugin.js:130-252 | every schedule of the jobs is finite, never gets stuck before the end, and ends with exactly the specified paths announced and, in a real run, gone; or with ENOTDIR, but only if some root is missing behind a file and not kept |
| CleanFailure.FailsIffHazard | webpack-main/lib/CleanPlugin.js:149-170 | some schedule of a cleaning whose roots on disk are unrelated ends with an error, if and only if one of its roots is missing behind a file and not kept |
| CleanFailure.CanStillFail | webpack-main/lib/CleanPlugin.js:168-170 | as long as such a root has not been looked up and its file is there, the rest of the schedule can be chosen so that the cleaning fails, whatever has happened before |
| CleanRuns.OnlyDoomedGo | webpack-main/lib/CleanPlugin.js:212-247 | in every state of every run, failed ones included, only specified paths are announced and only announced paths are gone |
| CleanRuns.AfterTheEnd | webpack-main/lib/util/processAsyncTree.js:32-57 | once the callback has been called, with the first error or without, it is not called again, no job is started and no removal announced |
| CleanRuns.DoomedUnfolds | webpack-main/lib/CleanPlugin.js:161-211 | the specified set as a recursion over the tree: a path goes exactly when the descent reaches it, it is not kept, and everything in it goes |
| CleanRuns.SchedulesAgree | webpack-main/lib/CleanPlugin.js:145-251 | any two complete schedules of one cleaning that succeed end with the same disk and the same announcements; without such a root all succeed |
| CleanRuns.DryRunPredicts | webpack-main/lib/CleanPlugin.js:212-247 | a dry run that succeeds changes nothing and announces exactly the paths that a successful real run takes off the disk, whatever the two schedules |
| CleanRuns.CountersCount | webpack-main/lib/CleanPlugin.js:157-207 | in every reachable state a counter is the number of entries not reported as removed, an rmdir call finds its directory empty, and no removal is announced twice |
| CleanRuns.WorkingCanStep | webpack-main/lib/util/processAsyncTree.js:32-57 | no schedule deadlocks: an unfinished task has a call in flight or a scheduled pass over the queue |
| CleanRuns.IdleMeansCleaned | webpack-main/lib/util/processAsyncTree.js:45-57 | when queue and flights are empty, every doomed path is announced and gone and every other path is as it was |
| CleanRuns.StepKeeps | webpack-main/lib/CleanPlugin.js:148-249 | each event of the job system keeps the invariant on jobs, counters, log and disk |
| CleanEvents.DeliverKeeps | webpack-main/lib/CleanPlugin.js:168-211 | the answer to a stat, a listing or a removal keeps the invariant, for every order of the entries |
| CleanEvents.BeginKeeps | webpack-main/lib/util/processAsyncTree.js:45-51 | taking a job off the queue and starting its processor keeps the invariant, in dry and real runs |
| CleanSteps.HandleParentKeeps | webpack-main/lib/CleanPlugin.js:157-159 | settling one entry keeps the invariant: the rmdir job is pushed exactly when the last entry is settled |
| CleanSteps.ExpandKeeps | webpack-main/lib/CleanPlugin.js:178-208 | descending into a directory keeps the invariant: the new counter stands for all entries, those that start with a dot included |
| CleanWeight.DeliverWeight | webpack-main/lib/CleanPlugin.js:161-247 | delivering an answer makes the weight that bounds every schedule fall |
| CleanRules.TenAtMost | webpack-main/lib/CleanPlugin.js:145-147 | at no point of any schedule are more than ten calls under way, and while jobs wait without a pass over the queue being scheduled, there are ten |
| CleanRules.LastOnesFirst | webpack-main/lib/util/processAsyncTree.js:45-51 | a pass over waiting checks takes the last ones, as many as there is room for |
| CleanRules.CheckedOrDot | webpack-main/lib/CleanPlugin.js:193-206 | each entry of a listing is either checked, with the token of its directory, or starts with a dot and is reported |
| CleanRules.OnlyOtherErrorsFail | webpack-main/lib/CleanPlugin.js:149-156 | ENOENT is reported, settles the entry and is no failure; any other error ends the task with it, and nothing but an error does |
| CleanRules.KeptIsReported | webpack-main/lib/CleanPlugin.js:163-167 | a kept entry is reported, no call is made for it and its directory is not told |
| CleanRunner.JobRunner.ApplyDiff | webpack-main/lib/CleanPlugin.js:130-252 | the imperative run ends, whichever event comes next: in the specified outcome, or in a failure that needs a root missing behind a file, with only specified paths gone |
| CleanRunner.JobRunner.DeliverOne | webpack-main/lib/CleanPlugin.js:161-247 | the callbacks of one call change the fields to exactly the next state of the machine |
| CleanRunner.JobRunner.ProcessQueue | webpack-main/lib/util/processAsyncTree.js:45-57 | takes jobs off the end of the queue while fewer than ten are running, and finishes when nothing is left |
| CleanRunner.JobRunner.SettleParent | webpack-main/lib/CleanPlugin.js:157-159 | decrements the shared counter and pushes the directory's job when it reaches zero |
| CleanRunner.JobRunner.ProcessorCallbackError | webpack-main/lib/util/processAsyncTree.js:32-43 | the status becomes that of the first error and stays so; `CleanRuns.AfterTheEnd` says what that ends |
| CleanDiff.AssetDirectories | webpack-main/lib/CleanPlugin.js:52-60 | the growing set of directories ends as all proper prefixes of the assets |
| CleanDiff.GetDiffToFs | webpack-main/lib/CleanPlugin.js:51-91 | the diff is exactly the paths that stand in an asset directory and are neither asset nor asset directory, and the asset directories that answer ENOTDIR |
| CleanDiff.GetDiffToOldAssets | webpack-main/lib/CleanPlugin.js:98-104 | the old assets that are not assets any more |
| CleanOutcome.FullHazards | webpack-main/lib/CleanPlugin.js:66-83 | the roots on disk of a full clean are unrelated, and those that can make it fail are exactly the unkept asset directories behind a file |
| CleanOutcome.FullCleanFailsIff | webpack-main/lib/CleanPlugin.js:51-91 | some schedule of a full clean ends with an error, if and only if some asset directory is behind a file and not kept |
| CleanOutcome.AssetRemovedIff | webpack-main/lib/CleanPlugin.js:69-72 | a complete real run of a full clean that succeeds has removed an asset, if and only if it was a file, another asset needs it as a directory, and it is not kept; one that fails has removed no other asset, and needs an unkept asset directory behind a file |
| CleanExamples.FileInTheWayFails | webpack-main/lib/CleanPlugin.js:69-72 | assets a and a/b/c where a is a file: a complete run that ends with ENOTDIR and leaves a |
| CleanExamples.FileInTheWayGoes | webpack-main/lib/CleanPlugin.js:149-153 | the same cleaning, in another order, succeeds without a |
| CleanOutcome.AssetsStay | webpack-main/lib/CleanPlugin.js:51-91 | at no point of any schedule of a full clean, failed ones included, is any other asset announced or missing |
| CleanOutcome.FullCleanRemoves | webpack-main/lib/CleanPlugin.js:130-252 | a file is removed by a full clean if and only if no asset covers it and nothing is kept and nothing is a dot entry between its diff root and it |
| CleanOutcome.FullCleanLeaves | webpack-main/lib/CleanPlugin.js:130-252 | after every complete real run that succeeds the files left are exactly the assets and what keep or a dot entry protects; when no unkept asset directory is behind a file, all succeed |
| CleanOutcome.NoAssetsNoDiff | webpack-main/lib/CleanPlugin.js:52-60 | without assets nothing is stale, so nothing is cleaned |
| CleanOutcome.IncrementalRefinesFull | webpack-main/lib/CleanPlugin.js:98-104 | when the unkept files are the old assets, the diff to the old assets removes the same files as the diff to the disk |
| CleanPlugin.FirstCleanIff | webpack-main/lib/CleanPlugin.js:364-368 | after a first, full clean the unkept files on disk are the assets, if and only if no unkept file but the assets was protected by a dot entry or by keep on the way down from its root |
| CleanPlugin.FreshRunEqualsFullIff | webpack-main/lib/CleanPlugin.js:302-368 | from a fresh plugin on, for any run of builds: looking at the disk only once leaves the same files as looking at it before every build, if and only if no later build clears the way to an unkept file that the first clean had to leave; otherwise it leaves just those files more |
| CleanPlugin.EveryRunEqualsFullIff | webpack-main/lib/CleanPlugin.js:302-368 | for a first build alone: the two ways leave the same files whatever builds follow, if and only if even a build of all names would not clear the way to a file that the first clean left |
| CleanPlugin.RunBuilds | webpack-main/lib/CleanPlugin.js:312-369 | the builds of a fresh plugin, emit after emit, none of which can fail, leave exactly the disk of that run, whatever is kept or hidden |
| CleanPlugin.RunsDifferBy | webpack-main/lib/CleanPlugin.js:302-368 | the same from any two linked disks on: the runs differ by exactly the hidden files that some build clears |
| CleanExamples.HiddenDiffers | webpack-main/lib/CleanPlugin.js:193-200 | they do differ: with old/.x on disk, the builds m, then m and old/y, leave old/.x in one way and not in the other |
| CleanPlugin.IncrementalRunEqualsFull | webpack-main/lib/CleanPlugin.js:302-368 | a run of builds that goes on from disks where the unkept files are the assets of the last build leaves the same files either way |
| CleanPlugin.StepKeepsLink | webpack-main/lib/CleanPlugin.js:354-368 | after each build the unkept files on disk are the assets of that build and the hidden files, of which looking at the disk loses those that the build clears |
| CleanPlugin.Plugin.Emit | webpack-main/lib/CleanPlugin.js:341-369 | one build: a file that the keep hook protects, or the option where the hook says nothing, is still there; success leaves the specified disk, stale files going whatever the option says where the hook says no; the next build, on whatever disk, diffs against these assets; after an error, which needs a root missing behind a file, only specified paths are gone and the next build looks at the disk |
| AssetPath.Normalize | webpack-main/lib/CleanPlugin.js:328-336 | the loop ends, in the fixpoint of the replacement, without a backslash; names that differ only in which way their slashes lean come to the same |
| AssetPath.SlashesOnly | webpack-main/lib/CleanPlugin.js:329 | the first step turns every backslash into a slash and changes nothing else |
| AssetPath.MatchesIff | webpack-main/lib/CleanPlugin.js:332-335 | what a "/../" takes along is the segment before it, unless that is empty or starts with two dots |
| AssetPath.StartsWith | webpack-main/lib/CleanPlugin.js:326-337 | the tests on a name are on what it starts with: a slash, two backslashes, or a letter, colon and backslash; and "../" at the end |
| AssetPath.PassShrinks | webpack-main/lib/CleanPlugin.js:332-335 | a replacement that changes a name makes it shorter |
| AssetPath.AvailSegments | webpack-main/lib/CleanPlugin.js:332-335 | the global replacement on characters is one left-to-right cancelling pass on segments |
| AssetPath.CancelStaysPut | webpack-main/lib/CleanPlugin.js:332-335 | a cancelled pair of segments leads back to where it started if and only if the first is not "." |
| AssetPath.NormalizedIsScan | webpack-main/lib/CleanPlugin.js:328-336 | for every name, repeating the replacement comes to one scan of its segments with a stack |
| AssetPath.NormalizedKeepsLocationIff | webpack-main/lib/CleanPlugin.js:328-336 | a name denotes the same location after normalising, if and only if no "." in it is matched by a later ".." that something follows |
| AssetPath.NormalizedIsResolved | webpack-main/lib/CleanPlugin.js:328-336 | a plain name is normalised to the resolved path of its directory and its last segment, that is to its own resolved path unless it ends in ".." |
| AssetPath.NormalizedUpsLeadIff | webpack-main/lib/CleanPlugin.js:328-336 | in a normalised plain name every ".." stands in front, if and only if the name does not end in ".." or its directory is the output directory or one straight above it |
| AssetPath.SkippedIff | webpack-main/lib/CleanPlugin.js:337 | any name is skipped, if and only if some ".." in it that something follows has no segment left before it to take off |
| AssetPath.SkippedLiesOutside | webpack-main/lib/CleanPlugin.js:337 | what is skipped lies outside the output directory, as it is normalised |
| AssetPath.SkippedIsOutside | webpack-main/lib/CleanPlugin.js:337 | a plain name is skipped, if and only if it lies outside the output directory and is not normalised to ".." itself |
| AssetPath.DotSegmentMoves | webpack-main/lib/CleanPlugin.js:332-335 | "./../a" outside the output directory becomes the asset "a" inside it |
| AssetPath.CollectAssets | webpack-main/lib/CleanPlugin.js:325-339 | the current assets are the normalised names that are neither absolute nor outside; none has a backslash or starts with "../" |
| AssetPath.DirnameIsParentIff | webpack-main/lib/CleanPlugin.js:55 | the replacement that cuts off the last segment gives the parent path, if and only if the name does not have its only slash in front |
| AssetPath.JoinIsAppend | webpack-main/lib/CleanPlugin.js:77 | joining directory and entry is appending a segment, the output path itself being the empty name |
| ChunkGraph.ChunkGroup.Remove | webpack-main/lib/ChunkGroup.js:421-455 | the removed group's parents and children are joined, links among the others stay symmetric, no chunk and no parent set points at it, and no child set does if and only if the group is not its own parent or is the first of its parents |
| Reachability.NobodyPointsBackIff | webpack-main/lib/ChunkGroup.js:423-438 | joining predecessors one by one leaves nobody pointing at the removed node, if and only if it has no self-loop or is handled first |
| Reachability.JoinedPointsBack | webpack-main/lib/ChunkGroup.js:423-438 | with a self-loop, exactly the predecessors handled before the node itself get it back as a successor |
| Reachability.JoinedIsContract | webpack-main/lib/ChunkGroup.js:423-438 | apart from that, the loop over the parents comes to the contracted graph in every order |
| ChunkGraph.RemoveKeepsReach | webpack-main/lib/ChunkGroup.js:421-455 | who reaches whom among the other groups is unchanged, cycles included |
| Reachability.ContractKeepsReach | webpack-main/lib/ChunkGroup.js:421-449 | contracting a node, with or without a self-loop, keeps reachability between all other nodes, in both directions |
| Reachability.ContractBothWays | webpack-main/lib/ChunkGroup.js:553-569 | contracting the child sets and the parent sets of a symmetric graph gives a symmetric graph |
| ChunkGraph.ChunkGroup.CheckConstraints | webpack-main/lib/ChunkGroup.js:553-569 | accepts if and only if every child and every parent points back |
| ChunkGraph.ChunkGroup.RemoveChild | webpack-main/lib/ChunkGroup.js:284-292 | the mutually recursive calls end, with the link gone at both ends |
| ChunkGraph.ChunkGroup.RemoveParent | webpack-main/lib/ChunkGroup.js:333-339 | the same from the child's side |
| ChunkGraph.ChunkGroup.UnshiftChunk | webpack-main/lib/ChunkGroup.js:164-174 | the chunk comes first, all others keep their order, no duplicate |
| ChunkGraph.ChunkGroup.InsertChunk | webpack-main/lib/ChunkGroup.js:182-196 | puts the chunk directly before the other, moved there if it was later and left alone if it was earlier; without the other nothing changes |
| ChunkGraph.ChunkGroup.PushChunk | webpack-main/lib/ChunkGroup.js:203-210 | appended unless present |
| ChunkGraph.ChunkGroup.ReplaceChunk | webpack-main/lib/ChunkGroup.js:217-233 | the list with the old chunk substituted by the new one, first occurrences kept |
| ChunkGraph.ChunkGroup.RemoveChunk | webpack-main/lib/ChunkGroup.js:239-246 | the list without the chunk, order kept |
| ChunkLists.ReplaceEarlier | webpack-main/lib/ChunkGroup.js:225-227 | when the new chunk stands earlier, cutting the old one out is substituting and keeping first occurrences |
| ChunkLists.ReplaceLater | webpack-main/lib/ChunkGroup.js:228-231 | when the new chunk stands later, overwriting the old one and cutting the later one is the same |
| ChunkLists.SpliceInWithout | webpack-main/lib/ChunkGroup.js:188-193 | an insertion leaves the other elements as they were |
| ChunkGraph.Chunk.Split | webpack-main/lib/Chunk.js:528-532 | the new chunk joins every group, put directly before this one unless it was there at or before it already, the others keeping their order; groups and chunks still name each other |
| ChunkGraph.Chunk.GetAllReferencedChunks | webpack-main/lib/Chunk.js:615-629 | exactly the chunks of all groups reachable from the chunk's groups |
| ChunkGraph.Chunk.GetAllInitialChunks | webpack-main/lib/Chunk.js:600-610 | exactly the chunks at the end of paths that go from group to child over entrypoints of the initial load only |
| ChunkGraph.Chunk.GetAllAsyncChunks | webpack-main/lib/Chunk.js:563-595 | exactly the chunks, outside those common to all groups of the chunk, of groups at the end of a path with a group after its start that is no entrypoint |
| ChunkGraph.Chunk.HasAsyncChunks | webpack-main/lib/Chunk.js:653-678 | true if and only if some group below the chunk's groups has a chunk not common to them all |
| ChunkGraph.AsyncIsReferenced | webpack-main/lib/Chunk.js:563-678 | asynchronous chunks are referenced chunks, and if there are any, hasAsyncChunks says so |
| ChunkGraph.Intersect | webpack-main/lib/util/SetHelpers.js:14-37 | the elements common to all sets, none for no sets |
| Reachability.LeavingIsReached | webpack-main/lib/Chunk.js:571-592 | whatever a path reaches after leaving the entrypoints, the two worklists together reach |
| Reachability.ReachedIsLeaving | webpack-main/lib/Chunk.js:571-592 | and nothing else |
| CloneDeep.DeepClone | Static Dev Tools and Files/lodash.js:195-239 | ends on every finite graph, cycles included, with the original untouched and a new graph in which every object that cloning comes to has one copy: an object's with its keys in order, an array's with an element for every index below its length, holes and other properties gone, but for the index and input of a regular expression's result |
| CloneDeep.Cloner.Clone | Static Dev Tools and Files/lodash.js:195-239 | one recursive call: everything newly remembered is completely copied like that, and only what is reached from the value is remembered |
| CloneDeep.Cloner.CopyExtra | Static Dev Tools and Files/lodash.js:756-767 | takes over index and input, as they are, if the array looks like the result of a regular expression |
| CloneDeep.IndexAndInput | Static Dev Tools and Files/lodash.js:756-767 | the clone of an array has an own index, if and only if the array has a first element that is a string and an own index; then index and input are what they were, and no other name is a property of the clone |
| CloneDeep.CompleteClone | Static Dev Tools and Files/lodash.js:195-239 | when the recursion is over, exactly what is reached by what cloning looks at has been copied |
| CloneDeep.CloneIsomorphicIff | Static Dev Tools and Files/lodash.js:195-239 | the clone is an isomorphic copy of everything reached from the value, if and only if each array reached has the elements below its length and nothing else, or index and input that are primitives if it looks like a regular expression's result |
| CloneDeep.HoleIsFilled | Static Dev Tools and Files/lodash.js:231-236 | [ , 7] is cloned to an array with an own element undefined |
| CloneDeep.NameIsLost | Static Dev Tools and Files/lodash.js:231-236 | an array with a property name is cloned to one without |
| CloneDeep.CloneReads | Static Dev Tools and Files/lodash.js:195-239 | for every graph and access path, what the path reads in the clone: the image of the value, undefined for a hole, nothing for another property of an array; an object read there is never one of the original, unless the path goes through an index or input taken over |
| CloneDeep.CloneReadsAlike | Static Dev Tools and Files/lodash.js:195-239 | when the arrays reached are like that, every access path reads in the clone the image of what it reads in the original, and an object read there is never one of the original |
| CloneDeep.SharingKept | Static Dev Tools and Files/lodash.js:220 | for every graph, two access paths that are copied meet in one object of the clone if and only if they do in the original |
| DeepMerge.MergeInto | Static Dev Tools and Files/lodash.js:454-500 | the destination becomes the recursive deep merge of its value and what the source reads as, holes of source arrays being undefined; the source reads as before, the two share no object, no other object is touched, and arrays grow no longer than their elements need; merging an object into itself does nothing |
| DeepMerge.ShortcutRightIff | Static Dev Tools and Files/lodash.js:455 | merging an object into itself in full would change nothing, so the shortcut is right, if and only if no array merged has a hole |
| DeepMerge.HoleIsMerged | Static Dev Tools and Files/lodash.js:138-162 | {a: [ , 7]} merged into {a: []} gives a an own element undefined |
| DeepMerge.Merger.Merge | Static Dev Tools and Files/lodash.js:454-500 | one recursive call over the keys that the source walk lists, with the Stack as it was before |
| DeepMerge.Merger.MergeKey | Static Dev Tools and Files/lodash.js:459-496 | one property: the destination's own value, a copy of an array-like one or a fresh container is merged into and assigned |
| DeepMerge.Merger.Base | Static Dev Tools and Files/lodash.js:470-485 | which container a source object is merged into |
| DeepMerge.Merger.AssignMergeValue | Static Dev Tools and Files/lodash.js:160-162 | assigns unless the property has that value, or the value is undefined and the property is there |
| MergeHeap.FillIs | Static Dev Tools and Files/lodash.js:138-157 | the walk over a source misses nothing it holds, and adds only the holes of arrays, as undefined |
| MergeHeap.KeysInOrder | Static Dev Tools and Files/lodash.js:138-157 | the walk over an array keeps the order of its keys, indexes first |
| MergeHeap.DenseReads | Static Dev Tools and Files/lodash.js:138-157 | a source without holes reads as the value it is |
| MergeHeap.FieldStep | Static Dev Tools and Files/lodash.js:160-162 | writing a tree to a property of a tree gives the changed tree, still without sharing |
| MergeHeap.NotBelowItself | Static Dev Tools and Files/lodash.js:461-464 | an object of a finite source never contains itself, so its Stack entry is never met |
| JsTree.DeepMergeLookup | Static Dev Tools and Files/lodash.js:454-500 | property by property: the merge of both values where the source reads a value under the key that says something, else the destination's value |
| JsTree.MergeValueLookup | Static Dev Tools and Files/lodash.js:459-496 | the merge of any two values: which properties the result starts from, by the kinds of both, which are left alone, and that nothing but "__proto__" is skipped for its name |
| JsTree.MergeTwice | Static Dev Tools and Files/lodash.js:454-500 | merging the same source again changes nothing |
| DeepMerge.ReadsTidy | Static Dev Tools and Files/lodash.js:138-157 | the walk over a source lists no key twice, at any depth, which is all that these laws of the merge need |
| JsTree.MergeSelf | Static Dev Tools and Files/lodash.js:455 | merging a value into an equal one changes nothing |
| DeepMatch.Matches | Static Dev Tools and Files/lodash.js:438-445 | the matcher of a source, with its two shortcuts, decides the whole match |
| DeepMatch.IsMatch | Static Dev Tools and Files/lodash.js:388-407 | both passes over the keys together: every property is there and matches, null and undefined match only the empty source |
| DeepMatch.Matcher.IsEqual | Static Dev Tools and Files/lodash.js:294-384 | the deep comparison on the heap is the match of the two values, whatever objects they share, an array being its elements below its length with undefined for holes |
| DeepMatch.Matcher.EqualArrays | Static Dev Tools and Files/lodash.js:654-687 | true if and only if giving each source element the first free target element that it matches succeeds |
| DeepMatch.Matcher.EqualObjects | Static Dev Tools and Files/lodash.js:325-377 | true if and only if all keys are there and all values match; line 350 starts a partial match with the comparison of constructors skipped |
| DeepMatch.NotBoth | Static Dev Tools and Files/lodash.js:342 | two compared finite values are never both on the Stack, so it never decides |
| PartialMatch.PartEmbeds | Static Dev Tools and Files/lodash.js:294-384 | soundness: a match comes with an injective choice of target elements for every array and an inclusion of keys for every object |
| MatchOrder.DecidesIffWellOrdered | Static Dev Tools and Files/lodash.js:294-384 | exactness: a source is matched in every target that contains it, if and only if each of its arrays, at any depth, is in order: of two elements that one value can contain, the later matches the earlier |
| MatchOrder.CompatibleIff | Static Dev Tools and Files/lodash.js:294-384 | a test on two values alone says whether one value can contain both |
| MatchOrder.ArrayDecidedIffInOrder | Static Dev Tools and Files/lodash.js:654-687 | one level of it: with decided elements, an array is matched in every target that contains it, if and only if it is in order |
| MatchOrder.ElementsDecide | Static Dev Tools and Files/lodash.js:654-687 | an array that is matched in every target that contains it has only such elements |
| PartialMatch.ArrayDecidedIffOrdered | Static Dev Tools and Files/lodash.js:654-687 | for elements that are matched wherever they are contained, the same in terms of all targets |
| MatchOrder.FlatIsInOrder | Static Dev Tools and Files/lodash.js:654-687 | arrays of primitives are in order |
| PartialMatch.FlatArrayCounts | Static Dev Tools and Files/lodash.js:654-687 | an array of primitives matches if and only if the target holds each of its elements at least as often |
| PartialMatch.GreedyMisses | Static Dev Tools and Files/lodash.js:671-681 | [{}, {a: 1}] is contained in [{a: 1}, {b: 2}] and not matched |
| PartialMatch.EmptyMatches | Static Dev Tools and Files/lodash.js:359-373 | the empty object matches exactly the objects that are no arrays |
| PartialMatch.LengthMatches | Static Dev Tools and Files/lodash.js:388-407 | a source with "length" asks for the length of an array or a string, one with an index for a character of the string |
| PartialMatch.PrimitivesMatchEmpty | Static Dev Tools and Files/lodash.js:388-407 | null, undefined, booleans and numbers match the empty source only; of an array, any property but the length is its own |
| PartialMatch.MatchIsPart | Static Dev Tools and Files/lodash.js:388-407 | the whole match of objects is the deep match |
| PartialMatch.PartReflexive | Static Dev Tools and Files/lodash.js:295 | every value matches itself, so the shortcut for identical values is right |
| PartialMatch.EmbedsTransitive | Static Dev Tools and Files/lodash.js:294-384 | containment is transitive |
| Matching.ExactIffOrdered | Static Dev Tools and Files/lodash.js:671-681 | first fit finds an assignment whenever there is one, for all target lists, if and only if the items are ordered |
| Caches.Hash.Set | Static Dev Tools and Files/lodash.js:1249-1256 | binds the property, undefined being stored as the mark, and counts new properties |
| Caches.ListCache.IndexOf | Static Dev Tools and Files/lodash.js:167-170 | the last position of the key, or -1 |
| Caches.ListCache.Delete | Static Dev Tools and Files/lodash.js:1260-1267 | takes out the last pair of the key |
| Caches.MapCache.Set | Static Dev Tools and Files/lodash.js:1297-1301 | the three buckets together stay one finite map, with the key bound and the size counted |
| Caches.MapCache.Get | Static Dev Tools and Files/lodash.js:1291-1293 | the value of that map, undefined when unbound |
| Caches.MapCache.Delete | Static Dev Tools and Files/lodash.js:1288-1290 | the map without the key; true if and only if it was bound |
| CacheSpec.OwnProperty | Static Dev Tools and Files/lodash.js:732-742 | keys of one bucket never share a property name, so the buckets keep different keys apart |
| CacheSpec.PropertyNames | Static Dev Tools and Files/lodash.js:1237-1256 | a string names itself as a property; null, true and false have their own names |
| Caches.Stack.Set | Static Dev Tools and Files/lodash.js:1322-1331 | pushes without looking below 199 pairs, else turns the list into a map first |
| CacheSpec.SwitchesAt199 | Static Dev Tools and Files/lodash.js:1322-1331 | the list takes 199 pairs, and the next set makes a map of it |
| Caches.Stack.Delete | Static Dev Tools and Files/lodash.js:1312-1315 | removes the binding that a lookup would find |
| CacheSpec.PutLookup | Static Dev Tools and Files/lodash.js:1322-1331 | a set is what the next lookup of its key finds and no other lookup notices it, the switch to the map included |
| CacheSpec.LastWriteWins | Static Dev Tools and Files/lodash.js:1322-1331 | after any sequence of sets a lookup finds the last value set for its key |
| CacheSpec.RunRefines | Static Dev Tools and Files/lodash.js:1309-1331 | if no key is set while bound, lookups, size and deletions are those of one finite map over every sequence of operations |
| CacheSpec.RemovedIffBoundOnce | Static Dev Tools and Files/lodash.js:1260-1267 | a deleted key is gone if and only if it was bound at most once |
| CacheSpec.RebindingBreaksSize | Static Dev Tools and Files/lodash.js:1326-1327 | in the list, the size stays that of the map if and only if the key set was unbound |
| CacheSpec.BigPutFound | Static Dev Tools and Files/lodash.js:1237-1256 | in a map a set is found again if and only if it does not bind a hashed key to the mark for undefined |
| Caches.KeptIsStorable | Static Dev Tools and Files/lodash.js:1237-1256 | what a cache cannot give back is the string that marks undefined, under a string other than "__proto__", a number, a boolean or null |
| Caches.Memoized.Call | Static Dev Tools and Files/lodash.js:904-916 | a call gives the function's value, if and only if it is not answered from the cache with the mark for undefined under a hashed key, which comes back as undefined; the cache has this one entry more, all others kept unless it was full, and at most 500 when capped |
| Caches.Memoized.Resolve | Static Dev Tools and Files/lodash.js:1417-1422 | a full cache is emptied before the lookup |
| SortBy.CompareAscending | Static Dev Tools and Files/lodash.js:522-554 | the flags together order integers by size before symbols before null before undefined, symbols being tied |
| SortBy.Ascending | Static Dev Tools and Files/lodash.js:522-554 | m comes before n exactly when m < n; integers before symbols before null before undefined, and only equal criteria and symbols are level |
| SortBy.Compare | Static Dev Tools and Files/lodash.js:515-566 | negative if and only if the first entry comes before the second, positive if and only if after |
| SortBy.BeforeIsStrictTotal | Static Dev Tools and Files/lodash.js:515-566 | the comparator is a strict total order on entries of different positions |
| SortBy.TiedIff | Static Dev Tools and Files/lodash.js:522-554 | criteria are tied if and only if they agree up to which symbol stands where |
| SortBy.OneSortedOrder | Static Dev Tools and Files/lodash.js:64-68 | entries have one sorted order, so every correct sort gives the same result |
| SortBy.SortedPositions | Static Dev Tools and Files/lodash.js:501-568 | in it an item precedes another if and only if its criteria are less, or tied and it came first in the input |
| SortBy.OneResult | Static Dev Tools and Files/lodash.js:501-568 | whatever correct sort the engine has, there is one result |
| SortBy.OrderBy | Static Dev Tools and Files/lodash.js:501-568 | with any correct sort, the items in the order of the comparator: by the first criterion that tells two of them apart, and as in the input when none does |
| SortBy.OrderedArranges | Static Dev Tools and Files/lodash.js:501-568 | what the comparator accepts is the items in some order of their positions, ahead by criteria or else by position |
| SortBy.IntegersAscend | Static Dev Tools and Files/lodash.js:501-568 | with one criterion that is always an integer, the integers never decrease in the result |
| LazyKeys.RightThroughoutIff | webpack-main/hot/lazy-compilation-web.js:11-74 | for every interleaving: all along, every count is the number of keepAlives none of whose release timers has fired, a key is present if and only if there are any, and the only open connection is on exactly the present keys; if and only if no two release timers of one call have fired |
| LazyKeys.EveryInterleaving | webpack-main/hot/lazy-compilation-web.js:11-74 | so it is at the end of every such interleaving |
| LazyKeys.DisposedOnceIff | webpack-main/hot/lazy-compilation-web.js:61-72 | in terms of the calls alone: a run is right all along and stays so whichever of its timers fire next, if and only if no disposer is called twice in it |
| LazyKeys.DisposedOnceIsRight | webpack-main/hot/lazy-compilation-web.js:61-72 | a caller that calls each disposer at most once is safe in every interleaving |
| LazyKeys.RunRegistered | webpack-main/hot/lazy-compilation-web.js:48-62 | with an error handler for each call, registered are exactly the handlers of calls not disposed of |
| LazyKeys.FireGoodIff | webpack-main/hot/lazy-compilation-web.js:63-72 | a release timer leaves everything right if and only if fewer timers than keepAlives of its key have fired before |
| LazyKeys.FiringAgainIsWrong | webpack-main/hot/lazy-compilation-web.js:63-72 | the second release timer of a call takes a count that is not its own, or leaves NaN |
| LazyKeys.DisposedTwice | webpack-main/hot/lazy-compilation-web.js:61-72 | a disposer called twice removes a key, and its connection, that another module still keeps alive |
| LazyKeys.Reconnected | webpack-main/hot/lazy-compilation-web.js:15-42 | a reconnect closes the old connection and opens one on exactly the present keys, or none |
| LazyKeys.KeepConnectsIff | webpack-main/hot/lazy-compilation-web.js:48-54 | a keepAlive opens a connection exactly when its key has no count yet, and then on the keys there are now |
| LazyKeys.FireConnectsIff | webpack-main/hot/lazy-compilation-web.js:63-72 | a release timer touches the connection exactly when it takes the last count of its key; a disposer never does |
| LazyClient.Client.KeepAlive | webpack-main/hot/lazy-compilation-web.js:44-60 | changes counts, handlers and connection to the next state of the machine |
| LazyClient.Client.Disposer | webpack-main/hot/lazy-compilation-web.js:61-63 | so does a disposer, which starts the release timer |
| LazyClient.Client.Timeout | webpack-main/hot/lazy-compilation-web.js:63-72 | so does a firing timer |
| LazyClient.Client.UpdateEventSource | webpack-main/hot/lazy-compilation-web.js:15-42 | closes the old connection before it opens a new one |

## Left out

Cleaning:

- Real file system calls and their other error codes; output file systems without lstat, unlink, rmdir or readdir; changes made by other processes while a task runs.
- The hooks, the validation of options, the keep option as a string or a regular expression, the logger's levels: keep is a pure predicate of the path.
- The limit of ten concurrent listings while the diff is taken: the listings only read.
- CleanPlugin.FreshRunEqualsFullIff: keep predicates that keep a directory and not all in it, asset names with dot entries, and names of which one is a directory of another or that a file on disk stands in the way of.
- CleanPlugin.IncrementalRunEqualsFull: says nothing of empty directories, which do differ between the two ways of cleaning.
- AssetPath.SkippedIsOutside: says nothing of names with "." or empty segments, or with longer segments that begin with ".."; for them see `AssetPath.SkippedIff` and `AssetPath.SkippedLiesOutside`.
- CleanOutcome.FullCleanFailsIff: says that some schedule fails, not which ones do; that depends on the order of the diff and on the timing.
- CleanPlugin.Plugin.Emit: an incremental build on a disk where an old asset has become a directory with another old asset in it.

Chunks:

- The deprecated methods that delegate to the chunk graph, hashing, comparators, origins, indices, blocks, runtimes and id hints.
- The order of the sets: `SortableSet` is a set, and the queries' results are sets.
- The minimum search in `intersect` matters for cost only; the model keeps it.

Deep values:

- Typed arrays, buffers, maps, sets, dates, regular expressions, symbols as keys, prototypes and inherited properties ("constructor", "toString" and the like read through the prototype, an own "__proto__" in a source to match), customizers, functions as values, NaN.
- An array with holes or with other properties than elements that is itself the source or the target given to the match; below that they are covered. The "length" of an array as a property to merge into, array-like lengths that no array can have.
- The iteration order of a merged object's keys when integer keys are added late.
- DeepMerge.MergeInto: cyclic sources, and destinations in which an object occurs twice.
- DeepMatch.Matcher.IsEqual: cyclic values; on finite ones the Stack never decides, so its answer is not in the method.
- The Stack is a map in the clone and the merge, which never set a key while it is bound; `CacheSpec.RunRefines` is why that is right. In the match it may be set twice, and there only its keys matter.
- Caches in an environment without native Map, symbols as keys, number keys as anything but integers in decimal.
- Memoization by a resolver other than the capping one.
- Sorting: strings, booleans, objects and NaN as criteria, descending orders (never given), the engine's sort itself: any sort that orders by the comparator will do.

Lazy compilation:

- The address of the server, the messages, the order in which handlers are called, the console.
