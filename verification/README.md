# rlab in Dafny

A model of the parts of rlab that keep results safe and reproducible, with proofs about them. Paths
and line numbers refer to the rlab repository.

- **The artifact store and its collector** (`FileSystem`, `Lab`, `Ingest`, `Routes`, `Materialize`,
  `Relink`, `Catalog`, `Gc`, `Glob`, `Retention`, `Lifecycle`, `Prune`, `Safety`, `System`, `Completion`,
  `Outputs`):
  a file system of paths, inodes and directories with the objects, the manifest and alias files and the run
  outputs on it, the append-only index, runs with their status and lines. The mutable project is
  `Lab.Project`; each operation is a method on it, proved equal to a function on the state (`Lab.World`),
  and the theorems are about those functions. `System` puts them together as a state machine and proves
  what holds in every state of every run. `Separation` and `Witness` show the inputs and the runs at which
  a promise fails.
- **Planning** (`Matrix`, `Planner`, `StudyPlan`): grids, seeds, variants and cases as mixed-radix
  numbers, job ids, layered parameters.
- **Config documents** (`Documents`, `Merging`, `Loading`): JSON trees, dotted paths, overrides, merge,
  diff, inheritance.
- **Matchers and CSV** (`Glob`, `Query`, `EditDistance`, `Csv`).
- **Statistics** (`Stats`): bootstrap and description over the reals.

`Wrappers`, `Order` and `Text` hold options and results, sorting, and splitting of text; `Digests` holds an
example of what is assumed of digests.

Digests come from a parameter `Lab.Hash`; `Lab.Lawful` says that they are hex texts of more than two
characters and that no two contents share one, and `Digests.LawfulHashExists` shows an encoding that meets
this (no text of a fixed length could, as there are more contents than such texts). How a version text
reads as JSON, directory order, modification times, the resume pointer, the process id and file sizes are
parameters or arbitrary choices.

## Where the code and what it promises part

- Artifact kinds are only checked for blanks, while manifests and aliases are written below the root of
  the store. Kind `objects` puts them among the objects: an alias can replace a tree manifest, after which
  sweeps fail or take live blobs (`Separation.AliasReplacesTree`, `Separation.ReplacedTreeLosesBlobs`), and
  a sweep takes manifests (`Separation.SweepTakesManifest`). The state machine therefore asks every
  promotion to be separate, a test on its texts that `Catalog.SeparateRequestExactlyWhen` proves exact;
  `Witness.PromotionReplacesOwnTree` shows a run that a promotion without this test breaks.
- Different references can share a manifest file, and an alias can overwrite another artifact's manifest:
  a '/' in a name, a doubled '/' or '..' in a version, the kind `.` (`Catalog.SlashInNameDisagrees`,
  `Catalog.TwoSlashesDisagree`, `Catalog.ClimbingVersionDisagrees`, `Catalog.DotKindDisagrees`; a run that
  ends so is `Witness.TwoVersionsOneManifest`). The comment
  at gc.rs:266-269 takes for granted that the latest row matches the manifest on disk;
  `Catalog.PromotionsAgreeExactlyWhen` has the exact condition.
- Completion gives a run's directories back the bytes of the first time they were saved. Relinking takes each
  directory's first line (storage.rs:203-214), although storage.rs:187-190 speaks of collapsing copies: when a
  run saves `outputs/latest`, overwrites a file in it and saves it again, and retention leaves the directory
  alone, the old bytes replace the final ones (`Witness.FirstBytesReturn`, `Witness.CompletionReturnsFirstBytes`;
  exactly when the bytes are kept is `Outputs.CompletionKeepsOutputsExactlyWhen`, for relinking by itself
  `Relink.RunKeepsBytesExactlyWhen`).
- Relinking removes a file that has the temporary name of another one
  (`Relink.RelinkKeepsBytesExactlyWhenHarmless`).
- A file name with a backslash, or a directory named `.rlab-materialized`, is not given back by
  materializing (`Materialize.IngestThenMaterialize`). Relinking a directory exactly as it was staged can put
  the bytes of `x\y` into `x/y` (`Relink.BackslashOverwrites`, exactly when is `Relink.FreshRelinkExactlyWhen`).
- Two changed checkpoints promoted under one explicit version resolve to the later one
  (`Completion.OneVersionTwoCheckpoints`; exactly when is `Completion.SemanticLinesResolve`).
- A checkpoint promoted without a version is promoted again under its new digest when completion strips
  it. The row under the old digest stays, so the stripped files' blobs are kept for ever, although
  lifecycle.rs:161-163 says that they are swept (`Completion.BlankVersionKeepsBlob`; exactly which blobs
  stay is `Completion.StrippedBlobsGo`).
- Pruning a run drops what only that run's lines named: gc.rs:110-116 and gc.rs:225-228 speak of no loss,
  which holds for what is the latest under a reference (`System.PruneThenSweep`). A blank artifact kind
  counts as promoted, so a run that promoted nothing is pruned with its checkpoint
  (`Witness.PrunedCheckpoint`).
- Pruning and collecting look for `run.lock` (gc.rs:140, gc.rs:288), a running session holds `.rlab.lock`
  (lock.rs:8): a session's lock protects nothing, and a running run can be pruned
  (`System.OlderRunIsPruned`, `Witness.PrunedCheckpoint`). `locked` in the model is `run.lock`.
- Nothing in the code keeps a sweep from running between another run's staging and its completion; the
  state machine has that guard, `System.SweepBeforeCompletion` says exactly what happens without it, and
  `Witness.StagedWorkIsLost` is a run in which work is lost.
- The group size in pruning is compared after truncation to 32 bits (`Prune.KeepsNewest`).
- The edit distance from an empty text counts bytes (`EditDistance.EmptyLeftCountsBytes`); a line feed in
  a cell breaks the CSV round trip, other special characters do not (`Csv.FileRoundTrip`).

## Model

| member | source | states |
|---|---|---|
| System.CollectorIsSafe | crates/rlab-core/src/artifact/gc.rs:263-382 | in every state of every run of the system (13 kinds of step; promotions keep away from the store's own directories, and a sweep waits while a run that could still complete has staged what nothing else needs) each object named by a latest index row or a completed unlocked run exists with every blob its tree lists, the collector can read all of them, every object path holds the content it is named after, and every materialized directory is complete |
| System.StepKeepsInv | crates/rlab-core/src/run/lifecycle.rs:138-159 | every enabled step keeps the reachability invariant |
| System.StartHasInv | crates/rlab-core/src/artifact/store.rs:43-47 | the empty project satisfies the invariant |
| System.StatesHaveInv | crates/rlab-core/src/artifact/gc.rs:263-382 | so does every later state, by induction over the run |
| Safety.InvIsSafe | crates/rlab-core/src/artifact/gc.rs:263-314 | the invariant implies safety and that reachability can be computed without an error |
| Safety.StageKeepsInv | crates/rlab-core/src/run/lifecycle.rs:327-348 | staging a separate event keeps the invariant, also when it fails half way, and the staged line names live objects |
| Safety.PromoteKeepsInv | crates/rlab-core/src/artifact/store.rs:49-76 | a separate promotion with its manifest and alias files on the disk keeps the invariant, also when it fails at any point |
| Safety.RestageRunKeepsInv | crates/rlab-core/src/run/lifecycle.rs:353-381 | re-staging keeps the invariant whether or not every changed line could be staged; that its promotions are separate follows from the invariant |
| Safety.RetentionKeepsInv | crates/rlab-core/src/run/storage.rs:42-83 | stripping resume-only files keeps the invariant |
| Safety.UserWriteKeepsInv | crates/rlab-core/src/artifact/store.rs:194-212 | writing to files that belong to neither the store nor a finished run keeps the invariant |
| System.RelinkKeepsInv | crates/rlab-core/src/run/storage.rs:191-217 | relinking a finished run's outputs keeps the invariant although run files now share inodes with blobs |
| System.SweepKeepsInv | crates/rlab-core/src/artifact/gc.rs:53-65 | a sweep keeps the invariant when all that runs which may still complete have staged is needed by other roots as well |
| System.PruneRunsKeepsInv | crates/rlab-core/src/artifact/gc.rs:149-164 | removing any set of run directories keeps the invariant |
| System.MaterializeKeepsInv | crates/rlab-core/src/artifact/store.rs:264-294 | materializing keeps the invariant at whichever return it leaves |
| System.EvictKeepsInv | crates/rlab-core/src/artifact/gc.rs:205-221 | evicting a materialized tree keeps the invariant |
| System.EvictAllKeepsInv | crates/rlab-core/src/artifact/gc.rs:205-221 | so does evicting any set of entries |
| System.SurvivesSweep | crates/rlab-core/src/artifact/gc.rs:323-382 | a live object is still live after a sweep exactly when it and all blobs it lists were reachable |
| System.SweepBeforeCompletion | crates/rlab-core/src/artifact/gc.rs:287-296 | without the guard, a run that completes after a sweep is sound exactly when all its staged objects were already reachable from other roots |
| System.UnguardedSweepLosesWork | crates/rlab-core/src/artifact/gc.rs:287-296 | with no root at all, a sweep between staging and completion always breaks safety, so the guard is needed |
| System.PruneThenSweep | crates/rlab-core/src/artifact/gc.rs:110-116 | pruning runs and sweeping keeps everything that is the latest under its reference; an object only a pruned run named survives exactly when another root needs it |
| System.OlderRunIsPruned | crates/rlab-core/src/artifact/gc.rs:117-167 | of an experiment with two prunable runs, keeping one removes the older, whatever the status of the two |
| System.PrunedCheckpointIsLost | crates/rlab-core/src/artifact/gc.rs:110-116 | what only a pruned run needed is gone after the next sweep |
| Witness.PrunedCheckpoint | crates/rlab-core/src/artifact/gc.rs:229-248 | a run of the system that gets there: two runs stage one plain file each under a blank artifact kind, nothing is promoted, the newer completes; whatever pruning to one run per experiment removes, it removes the older, finished or running, and a sweep then takes its checkpoint |
| Witness.StagedWorkIsLost | crates/rlab-core/src/artifact/gc.rs:287-296 | for every way to digest and every file: four steps from the empty project to a state in which a sweep takes what a running run has staged |
| System.PlainReferencesResolve | crates/rlab-core/src/artifact/store.rs:101-114 | when all names in the index are plain, each of its references is described by its latest row through the manifest file on the disk, and that row's objects exist |
| System.ReferencesResolveExactlyWhen | crates/rlab-core/src/artifact/gc.rs:266-269 | in every invariant state the index is the row list of a history of promotions, and all its references are described by their latest rows exactly when that history overwrote no still-latest manifest |
| System.AliasResolves | crates/rlab-core/src/artifact/store.rs:357-393 | a plain promotion with an alias is found under the alias, when no version of that text has a manifest and the version survives trimming |
| System.ObjectsNeverChange | crates/rlab-core/src/artifact/store.rs:194-262 | in any two states of a run a blob or tree path that is in use holds the same content |
| System.SharedInodeWrite | crates/rlab-core/src/artifact/store.rs:301-317 | a write through a file that is hard-linked to a blob leaves the blob honest exactly when the content is the same |
| Gc.SweepIsExact | crates/rlab-core/src/artifact/gc.rs:351-382 | after a sweep the files below objects/ are exactly the reachable ones that were there, all other files and inodes are untouched, and no directory below objects/ is without a file |
| Gc.SecondSweepRemovesNothing | crates/rlab-core/src/artifact/gc.rs:53-65 | sweeping twice is sweeping once |
| Gc.SweepUnreachableObjects | crates/rlab-core/src/artifact/gc.rs:53-65 | succeeds exactly under the condition of ReachableObjects; leaves below objects/ exactly the files that a latest row or a line of a completed run without a lock names or lists, and of the rest what SweepIsExact describes; an error removes nothing, and a dry run changes nothing but counts the same files and bytes |
| Gc.ReachableObjects | crates/rlab-core/src/artifact/gc.rs:263-314 | succeeds exactly when every tree that a latest row or a line of a completed run without a lock names can be read and those lines parse, and returns exactly what these rows and lines name and the blobs that the trees among that list; a failed, stale or locked run counts for nothing |
| Gc.ReadableExactlyWhen | crates/rlab-core/src/artifact/gc.rs:263-314 | that condition, in terms of the rows, statuses and lines, is the one under which reachability can be computed |
| Gc.ReachedExactlyWhen | crates/rlab-core/src/artifact/gc.rs:287-349 | and what is reached is what those rows and lines name or list |
| Gc.SweptExactlyWhen | crates/rlab-core/src/artifact/gc.rs:53-65 | so on any disk a sweep that can be made leaves below objects/ exactly what was there and is named or listed by a latest row or a completed run without a lock |
| Completion.SweepLeavesReachable | crates/rlab-core/src/artifact/gc.rs:287-296 | in every invariant state a sweep can be made, and what is below objects/ afterwards is exactly what a latest row or a line of a completed unlocked run names or lists: what only other runs name is gone |
| Witness.FailedRunIsSwept | crates/rlab-core/src/artifact/gc.rs:287-296 | a run of the system: stage a file, fail, sweep; the blob that was there is gone, and would be kept had the run completed |
| System.CompletedWasRunning | crates/rlab-core/src/run/state.rs:48-61 | in every run of the system, what is completed was running in an earlier state |
| System.NeededObjects | crates/rlab-core/src/artifact/gc.rs:323-349 | a live tree is read as itself and exactly the blobs it lists, any other live object as itself alone, and all of that exists below objects/ |
| Gc.ReachLines | crates/rlab-core/src/artifact/gc.rs:297-310 | the lines of one run contribute the objects they name; a malformed line is an error |
| Gc.RemoveUnreachableFiles | crates/rlab-core/src/artifact/gc.rs:351-382 | removes exactly the unreachable files and the directories that are left without files |
| Gc.RemoveEmptyDirs | crates/rlab-core/src/artifact/gc.rs:405-432 | visiting children first removes exactly the directories with no file anywhere below |
| Completion.CompletionRestages | crates/rlab-core/src/run/lifecycle.rs:138-166 | after strip, re-stage and sweep the run's lines are a function of the old lines and the stripped disk: each line of a changed directory records digest, object and reference of the tree of the remaining files, all other lines are unchanged; those trees are stored and those directories unchanged since |
| Completion.SemanticLinesResolve | crates/rlab-core/src/run/lifecycle.rs:327-381 | a re-staged promoted line's reference, an explicit version or the new digest, is described by the tree of the last line with that reference, hence by its own exactly when both directories were left with files of the same tree; decided by the old lines and the stripped disk, for any history that leaves no still-latest manifest overwritten |
| Completion.PlainLinesOverwriteNothing | crates/rlab-core/src/artifact/store.rs:347-351 | which is so for plain names |
| Completion.ReclaimAddsFilings | crates/rlab-core/src/run/lifecycle.rs:353-381 | the catalog's files after completion are those of the old history followed by one whole promotion per promoted changed line, in order |
| Completion.ReclaimSucceedsExactlyWhen | crates/rlab-core/src/run/lifecycle.rs:138-149 | once all is re-staged the sweep cannot fail: strip, re-stage and sweep succeed exactly when each changed line in turn can be staged |
| Completion.RestageableRunIsReclaimed | crates/rlab-core/src/run/lifecycle.rs:353-381 | and they do succeed when each changed line promotes nothing, or under an explicit version that is in the index and without an alias, while no file but objects stands in the store's directories |
| Completion.OneVersionTwoCheckpoints | crates/rlab-core/src/run/lifecycle.rs:353-381 | two stripped checkpoints under one explicit version and with different files left: the first one's reference resolves to another tree than its line records |
| Completion.StrippedBlobsGo | crates/rlab-core/src/run/lifecycle.rs:161-163 | a stripped file's blob is still in the store after completion exactly when one of these needs it: a latest row whose reference the run does not promote again, another completed run, a line that is not re-staged, or a file with the same content left in a re-staged directory |
| Completion.BlankVersionKeepsBlob | crates/rlab-core/src/artifact/store.rs:49-57 | a directory promoted without a version: the row under its old digest stays the latest of its reference, so the blobs of its stripped files are never reclaimed |
| Completion.SweptIsReached | crates/rlab-core/src/artifact/gc.rs:53-65 | after a sweep any object is there exactly when some root was or listed it before, and the same roots need it still |
| Completion.RestageRewrites | crates/rlab-core/src/run/lifecycle.rs:353-381 | the re-staging loop rewrites exactly the changed lines, adds exactly the rows of the promoted ones in order, stores every named tree, and touches nothing but objects and catalog files |
| Completion.StagesDirectory | crates/rlab-core/src/run/lifecycle.rs:327-348 | staging a directory returns the line of the tree of its files, adds one row exactly if it is promoted, and leaves the tree in the store |
| Completion.LatestPromoted | crates/rlab-core/src/run/lifecycle.rs:353-381 | a reference that re-staged lines are promoted under has the row of the last of them |
| Completion.LatestUnpromoted | crates/rlab-core/src/run/lifecycle.rs:353-381 | every other reference keeps its row |
| Completion.FinalizeStorage | crates/rlab-core/src/run/lifecycle.rs:138-159 | strip, re-stage, sweep, relink, prune and evict in this order; a failing step stops the later ones; what is pruned and evicted is what pruning and the cap promise |
| Completion.CompleteRun | crates/rlab-core/src/run/lifecycle.rs:117-136 | completes exactly from a status that allows it, no storage error can fail the run, what it prunes and evicts is what pruning and the cap promise, and while no other run holds staged work the invariant holds afterwards |
| Completion.CompletionKeepsInv | crates/rlab-core/src/run/lifecycle.rs:117-159 | a completion with all that follows keeps the invariant, wherever it stops and whatever it prunes and evicts, while no other run holds staged work |
| Retention.RetentionIsExact | crates/rlab-core/src/run/storage.rs:42-83 | exactly the matching direct files of output directories go, except in the one spared directory, and none when retention is off; every other name keeps inode and content |
| Retention.SecondRetentionIsEmpty | crates/rlab-core/src/run/storage.rs:42-83 | a second retention pass finds nothing to strip |
| Retention.OnlySparedRemains | crates/rlab-core/src/run/storage.rs:86-98 | after a pass only the spared directory holds resume-only files |
| Retention.ResumeFileGoesExactlyWhen | crates/rlab-core/src/run/storage.rs:42-125 | a file goes exactly when there are patterns, it matches one directly in an output directory, and nothing is kept or, keeping the last, the run would resume from another directory: not the one its resume pointer leads to if that has a resume-only file, else not the one modified last, of several at one time the last by path |
| Retention.OneDirectoryStays | crates/rlab-core/src/run/storage.rs:112-125 | keeping the last, while any output directory can be resumed from there is exactly one afterwards, and it keeps all its files |
| Retention.ApplyOutputRetention | crates/rlab-core/src/run/storage.rs:42-83 | the strip loop removes exactly the files that ResumeFileGoesExactlyWhen names, counts them, and reports the changed directories in order |
| Retention.FindResumeStateDirs | crates/rlab-core/src/run/storage.rs:86-98 | the sorted output directories with a matching direct file |
| Retention.ResolveResumeDir | crates/rlab-core/src/run/storage.rs:112-125 | the pointed-to directory if it is listed, else one that none is newer than and none after it as new |
| Retention.StripResumeOnlyFiles | crates/rlab-core/src/run/storage.rs:139-155 | removes exactly the matching direct files and returns how many |
| Lifecycle.StageArtifact | crates/rlab-core/src/run/lifecycle.rs:327-348 | checks path and name, ingests, promotes a semantic artifact, and returns the event with digest, storage kind, object path and reference; each error leaves the world as far as it got |
| Lifecycle.StagedSaysWhere | crates/rlab-core/src/run/lifecycle.rs:327-348 | a staged event exists, has a name, is changed in digest, storage, object and reference only, and says where it is stored: a file at the blob path of its content's digest, a directory at the tree path |
| Lifecycle.StagedSaysReference | crates/rlab-core/src/run/lifecycle.rs:464-490 | an event with an artifact kind is staged only with an artifact name and adds one row under these two and its artifact version, else its version, else the digest, with its alias unless blank; any other event adds none; a file's row has the object of the event |
| Lifecycle.SaveArtifactReference | crates/rlab-core/src/run/lifecycle.rs:111-115 | appends the staged line to the run; when staging fails no run changes |
| Lifecycle.RestageRunCheckpoints | crates/rlab-core/src/run/lifecycle.rs:353-381 | rewrites the run's lines only when every changed line could be staged; then each line of a changed path is replaced by one of the same path and artifact kind and all others stay, and an error leaves all runs as they were |
| Lifecycle.Transition | crates/rlab-core/src/run/lifecycle.rs:191-207 | changes the status exactly when allowed, else nothing |
| Prune.PruneRunsKeepPerExperiment | crates/rlab-core/src/artifact/gc.rs:117-167 | of each experiment's prunable runs exactly the newest by creation text stay, with the group size compared as a 32-bit number; nothing else is removed, and every removed run has no lock, a name, and a line with both an artifact kind and an object path |
| Prune.GroupExactlyWhen | crates/rlab-core/src/artifact/gc.rs:140-148 | the runs grouped under a name are those of that name without a lock that have such a line |
| System.SavingMakesPrunable | crates/rlab-core/src/artifact/gc.rs:225-248 | a successful save makes an unlocked run with a name prunable exactly when the event has an artifact kind or the run could be pruned before |
| Prune.PruneGroup | crates/rlab-core/src/artifact/gc.rs:149-164 | one group keeps its newest runs |
| Prune.EnforceMaterializedCap | crates/rlab-core/src/artifact/gc.rs:173-223 | evicts oldest first and no more than needed until the cache fits; zero is no cap; only an entry that is a file makes it fail |
| Prune.EvictionMeetsCap | crates/rlab-core/src/artifact/gc.rs:205-221 | the cache measured after evicting is within the cap |
| Prune.RunHasPromotedArtifact | crates/rlab-core/src/artifact/gc.rs:229-248 | some line is an event that has both an artifact kind and an object path |
| Ingest.IngestDirectoryStores | crates/rlab-core/src/artifact/store.rs:214-262 | a directory is stored as the tree of its files with every blob present; the store only grows |
| Safety.IngestDirectorySucceeds | crates/rlab-core/src/artifact/store.rs:214-262 | storing a directory cannot fail while no file but objects stands in the store's directories |
| Ingest.IngestFileStores | crates/rlab-core/src/artifact/store.rs:194-212 | a file's content ends up at the blob path of its digest |
| Ingest.TreeIgnoresWalkOrder | crates/rlab-core/src/artifact/store.rs:241-243 | the tree digest depends on the file map only, not on the walk order |
| Ingest.StorePath | crates/rlab-core/src/artifact/store.rs:78-90 | files become blobs, directories become trees, anything else is an error; the state after is the one IngestFileStores and IngestDirectoryStores describe |
| Ingest.StoreDirectory | crates/rlab-core/src/artifact/store.rs:214-262 | the copy loop over the walk, the sort and the tree file together store the tree of the directory's files (IngestDirectoryStores), stopping at the first error |
| Ingest.StoreFile | crates/rlab-core/src/artifact/store.rs:194-212 | the content is copied to the path of its digest unless something is there already |
| System.IngestedComesBack | crates/rlab-core/src/artifact/store.rs:214-294 | in every invariant state, cached or not: ingesting a directory and materializing its tree gives back every path, content and mode exactly when no path has a backslash and none lies below a directory with the marker's name |
| Materialize.IngestThenMaterialize | crates/rlab-core/src/artifact/store.rs:214-294 | the same for a tree that is not in the cache yet, from the store's own invariant alone |
| Materialize.MaterializeCompletes | crates/rlab-core/src/artifact/store.rs:264-294 | a successful materialization holds exactly what the tree asks for, keeps the store and all named directories complete |
| Materialize.Materialize | crates/rlab-core/src/artifact/store.rs:264-294 | the staged copy and the final rename give what MaterializeCompletes describes, and after every single step each directory named by a digest is complete |
| Materialize.CachedTreeIsTheSame | crates/rlab-core/src/artifact/store.rs:267-269 | an already materialized tree is returned unchanged and is the ingested directory |
| Relink.PassKeepsBytesExactlyWhen | crates/rlab-core/src/artifact/store.rs:301-317 | relinking any directories to any trees, wherever the pass stops: every path on the disk keeps its bytes exactly when, for the entries done so far, no other file has a temporary name that is used and each file has the content of the last entry for it; entries with one place, of one directory or of nested ones, included |
| Relink.RelinkKeepsBytesExactlyWhenHarmless | crates/rlab-core/src/artifact/store.rs:301-317 | the same for one directory and any tree; while no two entries have one place, exactly when no entry's file has diverged from its blob and no temporary name is in use |
| Relink.HarmlessRelink | crates/rlab-core/src/artifact/store.rs:301-317 | when no entry's file has diverged and no temporary name is in use, colliding places included: every path keeps its bytes even if the loop stops, files of no entry keep their inodes, and after the whole loop every existing entry's file is its blob |
| Relink.FreshRelinkExactlyWhen | crates/rlab-core/src/artifact/store.rs:296-317 | a directory relinked as it was staged keeps the bytes of every path exactly when no other file has a temporary name that is used and each file has the digest of the last entry for it |
| Relink.CleanIsAsListed | crates/rlab-core/src/artifact/store.rs:446-450 | the second condition holds when no file name has a backslash |
| Relink.BackslashOverwrites | crates/rlab-core/src/artifact/store.rs:446-450 | and it does fail: of the files x/y and x\y with different contents, both listed as x/y, relinking as staged leaves the second one's bytes in the first |
| Relink.FreshRelinkShares | crates/rlab-core/src/artifact/store.rs:296-317 | when a directory as it was staged keeps its bytes, a file ends up on its blob's inode exactly when its name has no backslash or it was there before |
| Relink.RelinkedTwice | crates/rlab-core/src/artifact/store.rs:297-300 | a pass over entries that are all linked replaces nothing |
| Relink.PassTwice | crates/rlab-core/src/artifact/store.rs:296-300 | relinking is idempotent: a second pass leaves the disk as the first did, also where several entries take turns at one place, while no temporary name is in use |
| Relink.RunKeepsBytesExactlyWhen | crates/rlab-core/src/run/storage.rs:187-217 | relinking a run keeps the bytes of every path exactly when the links of its directories to the trees of their first lines are harmless in that sense; while no two of them have one place, exactly when no entry that the tree of a directory's first line lists hurts |
| Relink.UnhurtRunKeepsBytes | crates/rlab-core/src/run/storage.rs:187-217 | when no entry that the tree of any directory's first line lists hurts, nested directories included, every path keeps its bytes wherever relinking stops |
| Relink.RunTakesFirstTrees | crates/rlab-core/src/run/storage.rs:203-214 | otherwise, with the temporary names free, each file that is linked ends up with the content of the last link to it, whatever the run last wrote: a directory goes back to the first line's tree |
| Relink.RelinkDirectory | crates/rlab-core/src/artifact/store.rs:301-317 | the loop replaces each entry's file by a hard link unless it is missing or already linked, and counts the replaced ones |
| Relink.RelinkRunOutputs | crates/rlab-core/src/run/storage.rs:191-217 | each directory below the run's outputs is relinked once, to the tree its first line names; on success every path keeps its bytes exactly when those links are harmless |
| Outputs.CompletionKeepsOutputsExactlyWhen | crates/rlab-core/src/run/lifecycle.rs:138-159 | a completing run whose storage steps go through, whatever is pruned of other runs and evicted: every file that retention leaves in its outputs keeps its bytes exactly when no other file has a temporary name that is used and each file has the digest that the last link to it lists, a changed directory being linked to the files it has and any other, the spared one included, to the tree it was first saved as; all told from the lines and the stripped disk before anything is re-staged; and with the names free that digest is what each linked file ends up with |
| Outputs.UnhurtCompletionKeepsOutputs | crates/rlab-core/src/run/lifecycle.rs:138-159 | when all linked files have their listed digests and free temporary names, the outputs are kept also if relinking stops half way, an error the completion ignores |
| Outputs.SavedOnceIsKept | crates/rlab-core/src/run/storage.rs:187-190 | a run whose directories still are what their first lines recorded, unless retention changed them, with plain file names, ends with the bytes it wrote |
| Witness.FirstBytesReturn | crates/rlab-core/src/run/storage.rs:203-214 | eight steps of the system from the empty project: a run saves a directory, overwrites its file, saves it again, completes and is relinked; the finished run's file has the first bytes and its last line the second digest |
| Witness.CompletionReturnsFirstBytes | crates/rlab-core/src/run/lifecycle.rs:138-159 | the same through a whole completion, with retention off, keeping all, or sparing that directory as the one to resume from |
| Catalog.IndexAgreesExactlyWhen | crates/rlab-core/src/artifact/store.rs:341-364 | on a disk with the files of a history of promotions, every reference is described by its latest index row exactly when no still-latest row's manifest path was written again, as a path and not as a text |
| Catalog.PromotionsAgreeExactlyWhen | crates/rlab-core/src/artifact/gc.rs:266-269 | the same for the disk and the index after any sequence of promotions, failed ones included, from a store without artifacts |
| Catalog.PromoteFiles | crates/rlab-core/src/artifact/store.rs:49-76 | any promotion leaves on the disk exactly the files of its filing: none, the manifest, or manifest and alias, and the directories on the way to it |
| Catalog.PlainPromotionSucceeds | crates/rlab-core/src/artifact/store.rs:49-76 | a plain promotion whose source could be stored succeeds exactly when no directory stands where its two files go and no file where their directories go |
| Catalog.PlainNamesAgree | crates/rlab-core/src/artifact/store.rs:347-351 | they agree for every history in which kind and name are one part each, the name has no '@', the version no '/', and the alias neither starts at the root nor climbs |
| Catalog.SlashInNameDisagrees | crates/rlab-core/src/artifact/store.rs:357-364 | a '/' in a name lets the alias of a shorter name replace its manifest |
| Catalog.TwoSlashesDisagree | crates/rlab-core/src/artifact/store.rs:347-351 | versions that differ by a doubled '/' share one manifest file |
| Witness.TwoVersionsOneManifest | crates/rlab-core/src/artifact/store.rs:347-351 | a run of the system that gets there: one file promoted under a/b and a//b; the index has both, its first reference is not described by its row |
| Catalog.ClimbingVersionDisagrees | crates/rlab-core/src/artifact/store.rs:347-351 | a version with '..' meets another version's manifest |
| Catalog.DotKindDisagrees | crates/rlab-core/src/artifact/store.rs:395-400 | kind '.' makes a name into another kind, and an alias into its manifest |
| Catalog.SeparateRequestExactlyWhen | crates/rlab-core/src/artifact/store.rs:347-400 | the test on the texts of a request holds exactly when every place its two files go to or through is below the artifact root and outside objects, materialized and index.jsonl |
| Routes.Deposited | crates/rlab-core/src/fs/atomic.rs:9-16 | writing a file at the end of a joined path makes the directories walked through, gives the name a fresh inode that is found again, and touches no other name |
| Routes.DepositFile | crates/rlab-core/src/fs/atomic.rs:9-16 | making the parents part by part and the final rename do that, with an error for a file in the way, a directory at the end, or no file name |
| Separation.AliasReplacesTree | crates/rlab-core/src/artifact/store.rs:357-364 | kind objects, name trees and a tree's file name as alias: the alias file replaces the tree manifest, and what needed the tree is no longer safe |
| Separation.ReplacedTreeLosesBlobs | crates/rlab-core/src/artifact/gc.rs:333-347 | then every sweep fails if the version's text is no JSON; if it is JSON without entries, the next sweep takes the blobs that only this tree listed |
| Witness.PromotionReplacesOwnTree | crates/rlab-core/src/artifact/store.rs:439-444 | five steps from the empty project and a promotion that nothing refuses, of a finished run's own tree: the state is not safe any more, sweeps fail or take the run's blob |
| Separation.SweepTakesManifest | crates/rlab-core/src/artifact/gc.rs:351-382 | kind objects and another name: the next sweep takes the manifest, and the reference in the index is described no more |
| Catalog.SortingKeepsLatest | crates/rlab-core/src/artifact/store.rs:175-183 | the stable sort of list leaves the same latest row of each reference |
| Catalog.PromotedIsDescribed | crates/rlab-core/src/artifact/store.rs:49-76 | a fresh promotion is described by itself exactly when its alias goes to another path |
| Catalog.ReferenceReadsBack | crates/rlab-core/src/artifact/manifest.rs:95-148 | a formatted reference parses back to itself exactly when its parts avoid the separators |
| Catalog.SuffixReadsBack | crates/rlab-core/src/artifact/manifest.rs:95-148 | a formatted reference with a suffix below the artifact parses back to both |
| Catalog.NoVersionIsFirst | crates/rlab-core/src/artifact/manifest.rs:106-106 | a reference without a version is to version 1 |
| Catalog.PromoteArtifact | crates/rlab-core/src/artifact/store.rs:49-76 | ingests, then writes manifest file, index row and alias file in this order, stopping at the first error; a blank kind or name changes nothing |
| Catalog.List | crates/rlab-core/src/artifact/store.rs:150-184 | exactly the rows with the kind, name and alias that are given, each as often as it is there, in the order of kind, name and version, rows of one reference as they were |
| Catalog.LatestRows | crates/rlab-core/src/artifact/gc.rs:270-278 | inserting the listed rows in turn gives the latest row of each reference |
| Glob.GlobMatch | crates/rlab-core/src/run/storage.rs:165-185 | the filled table decides whether some split of the value fits the pattern byte by byte |
| Glob.FileNameMatchesAny | crates/rlab-core/src/run/storage.rs:157-162 | whether any pattern matches declaratively |
| Glob.StarThenLiteral | crates/rlab-core/src/run/storage.rs:165-185 | a star and a literal ending match exactly the values that end so |
| Glob.LiteralMatchesItself | crates/rlab-core/src/run/storage.rs:165-185 | a pattern without wildcards matches itself and nothing else |
| Glob.QuestionTakesOne | crates/rlab-core/src/run/storage.rs:165-185 | a question mark takes exactly one byte |
| Query.QueryRunRecords | crates/rlab-core/src/run/query.rs:46-75 | exactly the records whose target matches the pattern and whose seed is the one asked for, each once, in id order |
| Query.AskedExactlyWhen | crates/rlab-core/src/run/query.rs:293-303 | with a plain target and a seed: the run's target is that text, and its manifest's seed is that number or, if the manifest has none, its parameters' seed is |
| Query.TargetIsKindAndName | crates/rlab-core/src/run/query.rs:263-291 | kind:name of the target, or operation:name of runs without one; a text is taken as it is |
| Matrix.ExpandAxes | crates/rlab-core/src/experiments/matrix.rs:125-147 | fails exactly when an axis is empty or has a blank name or the product does not fit the machine word, and else gives the grid, which is not empty; the check inside the loop never fails |
| Matrix.EveryChoiceOnce | crates/rlab-core/src/experiments/matrix.rs:125-147 | each choice of one value number per axis is exactly one row, the last key fastest |
| Matrix.GridRowsAreRows | crates/rlab-core/src/experiments/matrix.rs:125-147 | row number x holds the values with the mixed-radix digits of x, over exactly the axes |
| Matrix.EncodeThenDecode | crates/rlab-core/src/experiments/matrix.rs:132-143 | mixed-radix numbering is onto: digits come back from their number |
| Matrix.DecodeThenEncode | crates/rlab-core/src/experiments/matrix.rs:132-143 | and one to one: numbers come back from their digits |
| Matrix.DigitsInOrder | crates/rlab-core/src/experiments/matrix.rs:125-147 | of two rows the earlier has, on the first axis in key order where they differ, the value listed earlier |
| Matrix.GridSize | crates/rlab-core/src/experiments/matrix.rs:189-197 | the product of the axis lengths, or an error exactly when it does not fit |
| Planner.PlanExperiment | crates/rlab-core/src/experiments/planner.rs:12-36 | plans exactly when the axes are valid and the job count fits; job i is row i / K with seed i % K |
| Planner.JobRunsRow | crates/rlab-core/src/experiments/planner.rs:38-76 | job r * K + k runs row r with the row's values over the experiment's own parameters and seed k of K, or no seed when there are none, and its id reads as its number |
| Planner.PaddedIdReads | crates/rlab-core/src/experiments/planner.rs:55-65 | a padded id is the number in four digits, or in more without a leading zero |
| Planner.PaddedIdsDiffer | crates/rlab-core/src/experiments/planner.rs:55-65 | zero-padded ids of different numbers differ, beyond 9999 too |
| StudyPlan.PlanStudy | crates/rlab-core/src/study/registry.rs:51-106 | what JobShowsLastLayer and JobSaysWhatItIsFor are about: plans exactly when there are cases and each can be planned; each case's jobs start at the sum of the counts before it and every job is numbered by its place |
| StudyPlan.AppendStudyJobs | crates/rlab-core/src/study/registry.rs:418-488 | plans a case exactly when the grids and the count fit and every parameter layer applies; its jobs are the ones whose parameters JobShowsLastLayer gives layer by layer |
| StudyPlan.JobShowsLastLayer | crates/rlab-core/src/study/registry.rs:448-487 | a parameter of a planned job shows the last layer that sets it and nothing related to it: a runtime override over the qualification's own parameters, in a qualification plan, over the variant over the study row over the experiment row over the base |
| StudyPlan.OverridesShowInEveryJob | crates/rlab-core/src/study/registry.rs:456-477 | every job of either plan shows every runtime override unrelated to the others, and every qualification job every qualification parameter unrelated to the others and to the overrides |
| StudyPlan.JobSaysWhatItIsFor | crates/rlab-core/src/study/registry.rs:448-487 | a job carries its experiment, condition and variant with that variant's parameters, and the seed number k of the study's, else of the experiment's, else none; a qualification job the qualification's seed |
| StudyPlan.JobHasPlace | crates/rlab-core/src/study/registry.rs:448-487 | every job of a plan is the one of some case, rows, variant and seed |
| StudyPlan.VariantRowsAreVariants | crates/rlab-core/src/study/registry.rs:509-519 | the variants, each once and with its own parameters, or one row of none |
| StudyPlan.ReadyExactlyWhen | crates/rlab-core/src/study/registry.rs:388-416 | a case is ready exactly when its experiment is found, it can be planned, and no qualification parameter is an axis of the experiment or the study or set by a variant |
| StudyPlan.JobAtPlace | crates/rlab-core/src/study/registry.rs:448-487 | job ((e*S+s)*V+v)*K+k of a case is experiment row e, study row s, variant v, seed k in cell (e*S+s)*V+v |
| StudyPlan.CellIsUnique | crates/rlab-core/src/study/registry.rs:448-487 | different rows and variants have different cells |
| StudyPlan.JobIdsAreDistinct | crates/rlab-core/src/study/registry.rs:599-618 | all ids of a plan are distinct |
| StudyPlan.PlannedJobCount | crates/rlab-core/src/study/registry.rs:490-507 | the product of the four counts, or an error exactly when it does not fit the machine word |
| StudyPlan.FullImpliesQualification | crates/rlab-core/src/study/registry.rs:448-507 | whatever can be planned in full can be planned for qualification |
| StudyPlan.QualificationPlace | crates/rlab-core/src/study/registry.rs:456-469 | a qualification plan has one job per cell in cell order |
| StudyPlan.QualificationMirrorsFull | crates/rlab-core/src/study/registry.rs:456-484 | in the two plans of one study: full job cell * K + k of a case and qualification job cell of the case have the same experiment, condition, variant and cell and, without qualification parameters, the same parameters |
| StudyPlan.LayersTakePrecedence | crates/rlab-core/src/study/registry.rs:534-546 | condition over study over experiment over defaults |
| Documents.Document.Set | crates/rlab-core/src/config/documents/overrides.rs:5-44 | sets one dotted path or fails and changes nothing |
| Documents.SettableExactlyWhen | crates/rlab-core/src/config/documents/overrides.rs:5-44 | a path can be set exactly when no part is empty and all above it are mappings |
| Documents.SetReadsBack | crates/rlab-core/src/config/documents/overrides.rs:36-44 | the path reads back the value |
| Documents.SetSparesOthers | crates/rlab-core/src/config/documents/overrides.rs:5-34 | no path that is neither above nor below changes |
| Documents.SetAbove | crates/rlab-core/src/config/documents/overrides.rs:28-34 | mappings above stay mappings and gain at most the one key |
| Documents.Document.ApplyDotted | crates/rlab-core/src/config/documents/load.rs:60-76 | overrides in key order, up to the first failure |
| Documents.ExplicitNeedsDots | crates/rlab-core/src/config/documents/load.rs:60-76 | overrides that must be dotted apply only when every key has a dot |
| Documents.DottedOverridesShow | crates/rlab-core/src/config/documents/load.rs:60-76 | when all apply, each reads back unless another one's path is above or below it |
| Documents.Document.ApplyDeclared | crates/rlab-core/src/study/registry.rs:559-574 | dotted keys one by one, plain keys at the end |
| Documents.DeclaredPlainKeyWins | crates/rlab-core/src/study/registry.rs:559-574 | a declared plain key wins at the top level |
| Documents.DeclaredOverridesShow | crates/rlab-core/src/study/registry.rs:559-574 | every declared override, dotted or plain, reads back unless another one's path is above or below it |
| Documents.Document.ApplyRuntime | crates/rlab-core/src/study/registry.rs:576-590 | never fails; a dotted key that cannot be set becomes a literal one |
| Documents.RuntimeOverridesShow | crates/rlab-core/src/study/registry.rs:576-590 | every runtime override is visible in the end unless related to another key |
| Merging.MergeDocuments | crates/rlab-core/src/config/documents/merge.rs:3-19 | the loop computes the recursive merge |
| Merging.MergeAbsorbs | crates/rlab-core/src/config/documents/merge.rs:3-19 | merging the same override again changes nothing |
| Merging.OverrideLeafWins | crates/rlab-core/src/config/documents/merge.rs:3-19 | an override's leaf or list wins at its path |
| Merging.UnreachedBaseSurvives | crates/rlab-core/src/config/documents/merge.rs:3-19 | what the override does not reach stays as in the base |
| Merging.MappingsJoin | crates/rlab-core/src/config/documents/merge.rs:3-19 | where both have a mapping the result has the keys of both |
| Merging.DiffDocuments | crates/rlab-core/src/config/documents/diff.rs:19-41 | the loop computes the recursive diff |
| Merging.DiffIsNullExactlyWhenEqual | crates/rlab-core/src/config/documents/diff.rs:11-50 | the diff is null exactly for equal documents |
| Merging.DiffPinpoints | crates/rlab-core/src/config/documents/diff.rs:19-50 | below a mapping that both have, the diff has an entry for exactly the keys that differ |
| Merging.DiffReadsBack | crates/rlab-core/src/config/documents/diff.rs:19-50 | where two documents differ and not both have a mapping, the diff has the left value, or null, under before and the right one under after |
| Loading.Loader.Load | crates/rlab-core/src/config/documents/load.rs:78-94 | the recursive load with its stack, restored on every return |
| Loading.LoadsExactlyChains | crates/rlab-core/src/config/documents/load.rs:78-137 | loading succeeds exactly when the parent chain is present, well formed and acyclic; the result is the left fold of merge from root ancestor to leaf without a top-level extends |
| Loading.HasParentExactlyWhen | crates/rlab-core/src/config/documents/load.rs:95-164 | a link of the chain is a document with a plain file name that parses to a mapping and has no extends, at the end, or the next name there; its body is that mapping without the key |
| Loading.ResolveDocument | crates/rlab-core/src/config/documents/load.rs:13-30 | loads, then applies the dotted overrides |
| EditDistance.Distance | crates/rlab-cli/src/commands/explain.rs:91-104 | the two-row loop computes the recurrence; for an empty left text it counts the right one's bytes |
| EditDistance.SomeScriptCostsLev | crates/rlab-cli/src/commands/explain.rs:91-104 | some insert/delete/replace script costs exactly the distance |
| EditDistance.NoScriptCostsLess | crates/rlab-cli/src/commands/explain.rs:91-104 | no script costs less |
| EditDistance.ComputedIsShortest | crates/rlab-cli/src/commands/explain.rs:91-104 | the computed number is the shortest script's cost exactly when the left text is not empty or the right one is ASCII |
| EditDistance.EmptyLeftCountsBytes | crates/rlab-cli/src/commands/explain.rs:92-103 | an empty left text and one accented letter: two instead of one |
| EditDistance.LevIsSymmetric | crates/rlab-cli/src/commands/explain.rs:91-104 | the distance is symmetric |
| EditDistance.TriangleInequality | crates/rlab-cli/src/commands/explain.rs:91-104 | the distance obeys the triangle inequality, by composing scripts |
| EditDistance.LevIsZero | crates/rlab-cli/src/commands/explain.rs:91-104 | zero exactly for equal texts |
| EditDistance.NearestRef | crates/rlab-cli/src/commands/explain.rs:78-89 | the first record of the kind at least distance if that is at most two or at most a third of the name's bytes, else nothing |
| Csv.TableRoundTrip | crates/rlab-cli/src/ui/views.rs:664-689 | a written table reads back exactly when no row is empty and no cell has a line feed |
| Csv.FileRoundTrip | crates/rlab-py/src/py_run.rs:1497-1527 | a written file gives back header and cells exactly when there is a column and no name or cell has a line feed |
| Csv.CellReadsBack | crates/rlab-py/src/py_run.rs:1497-1537 | read back, the cell of a row and column shows the field's text, number or truth value, nothing for null or no field, and a list or mapping as JSON |
| Csv.QuotedExactlyWhen | crates/rlab-py/src/py_run.rs:1539-1548 | a cell is written as it is exactly when it has no comma, quote, line feed or carriage return, and else between quotes with its quotes doubled |
| Csv.LineReads | crates/rlab-cli/src/ui/views.rs:668-689 | a written line parses back to its cells, line feeds included |
| Csv.WriteCsv | crates/rlab-py/src/py_run.rs:1497-1527 | header line, then one line per row; missing columns and rows that are no mapping give empty cells |
| Csv.ParseCsvLine | crates/rlab-cli/src/ui/views.rs:668-689 | the loop computes the recursive reader |
| Stats.PairedBootstrap | crates/rlab-core/src/compare/metrics.rs:38-80 | fails exactly on unequal or empty data, no samples or a confidence outside [0, 1); estimate i is the mean of the differences at the indices x[i*n+1] % n to x[i*n+n] % n of the generator's states, x[0] the seed and each next one a 64-bit multiply and add; the bounds are the estimates at the floors of the two tails, in sorted order |
| Stats.EstimatesAreMeans | crates/rlab-core/src/compare/metrics.rs:62-70 | the same for any sequence of such states |
| Stats.SeedDecidesInterval | crates/rlab-core/src/compare/metrics.rs:134-140 | three differences and one sample: with seed 0 the middle one is drawn three times, with seed 4 each once, and the intervals differ |
| Stats.IntervalIsSound | crates/rlab-core/src/compare/metrics.rs:54-79 | lower <= upper, and the interval and delta lie between the least and the greatest difference |
| Stats.HigherConfidenceContains | crates/rlab-core/src/compare/metrics.rs:73-76 | with the same seed and samples a higher confidence gives a containing interval |
| Stats.DeterministicRng.Index | crates/rlab-core/src/compare/metrics.rs:134-140 | advances the 64-bit state and returns an index in range |
| Stats.DescribeArray | crates/rlab-core/src/stats/descriptive.rs:16-51 | min and max are the least and greatest element, the mean the mean, the variance the mean of the squares less the square of the mean; fails exactly on no data |
| Stats.VarianceIsMeanSquare | crates/rlab-core/src/stats/descriptive.rs:16-51 | the mean squared distance from the mean is the mean of the squares less the square of the mean |
| Stats.DescriptionIsSound | crates/rlab-core/src/stats/descriptive.rs:16-51 | min <= mean <= max and 0 <= variance <= (max - mean) * (mean - min) |

## Left out

- Real file-system behaviour: permissions, clonefile and FICLONE (a copy is a copy of content and mode), canonicalization, races inside one call, a partial `remove_dir_all`.
- Sweeps concurrent with another run's staging: excluded by a guard; the exact consequence is proved instead.
- Writes into the outputs of a finished run: excluded by a guard, because such a file may share its inode with a blob (`System.SharedInodeWrite`).
- The fixed length of digests; a digest is any hex text of more than two characters.
- SHA-256, serde, YAML and TOML: a file is plain bytes, a tree manifest, an artifact manifest or an alias text, a line of `artifacts.jsonl` is an event or malformed, blank lines are not kept.
- The index is a field and not a file: what happens to a promotion that goes to or through `artifacts/index.jsonl` is not modelled (`Catalog.MissesIndex` names those requests, and no separate request is one).
- A version text that is itself the JSON of a manifest or of a complete tree manifest; the collector's reading of a version text as JSON is modelled, the strict readers take such a file as malformed.
- The temporary file that a failed rename leaves beside its target.
- Artifact roots elsewhere: absolute kinds, names and aliases are resolved with the project at the root of the file system.
- `created_at` of a manifest is a counter; `created_at` of a run is a text and compared as one.
- `size_bytes` and `executable` of tree entries, and byte and directory totals of the pruning summaries.
- `gc_artifacts` with its removal of all materialized children, `prune_runs` by age (any set of unlocked runs may go in one step of the state machine), `export`, `resolve_path` with a suffix, `optimize_storage` as a whole and the dry-run count of directories.
- Relinking replaces a file's mode by its blob's; the claims are about bytes.
- Results, metrics, reports and notes written around completion.
- Reading of study, condition, variant and qualification metadata: the plan starts from decoded values; the default qualification seed is part of that reading.
- The effect size of a comparison (a square root), rounding, infinities and NaN.
- Documents.Document.Set: walks with the mappings above kept in a list and rebuilds them, where the code holds one mutable reference; aliasing of that reference is not modelled.
- Materialize.Materialize: the history holds the state after each copy and each mode change; a copy of one file is one step.
- Query.QueryRunRecords: reading the records from disk and `numeric_metrics` are not part of this model.
- Prune.EnforceMaterializedCap: totals are unbounded numbers, so the 64-bit sum cannot overflow.
- Job execution, search, journal, governance, user interface and command line.
