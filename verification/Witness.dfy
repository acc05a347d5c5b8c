/** Runs of the system, step by step from the empty project, that end where a promise does not hold: a sweep
    between staging and completion, and pruning a run whose checkpoint no artifact names. */
module Witness {
  import opened Wrappers
  import opened Order
  import opened Text
  import opened FileSystem
  import opened Lab
  import opened Ingest
  import opened Routes
  import opened Materialize
  import opened Relink
  import opened Catalog
  import opened Gc
  import opened Retention
  import opened Lifecycle
  import opened Prune
  import opened Safety
  import opened System
  import opened Separation
  import opened Completion
  import opened Outputs
  import opened Digests

  // ---------------------------------------------------------------- runs with one staged file

  function OutputFile(id: string): Path { RUNS + [id, "outputs", "checkpoint"] }

  /** An artifact event with a blank artifact kind: nothing is promoted, yet the kind is there. */
  function FileEvent(id: string): Event {
    Event(Some(OutputFile(id)), "checkpoint", Some(""), None, None, None, None, None, None, None, None)
  }

  function StagedLine(h: Hash, id: string, data: Data): Line {
    var sha := h.file(data.content);
    Entry(StagedEvent(FileEvent(id), Stored(sha, FileStorage, BlobPath(sha)), None))
  }

  /** The files of the runs that there are, and objects. */
  ghost predicate Tidy(w: World) {
    && (forall p :: p in w.disk.names ==> |p| >= 4 && (p[0] == "runs" || |p| >= 5))
    && (forall q :: (q in w.disk.names || q in w.disk.dirs) && |q| >= 2 && q[0] == "runs" ==> q[1] in w.runs)
  }

  predicate HasFile(d: Disk, p: Path, data: Data) {
    p in d.names && d.names[p] in d.inodes && d.At(p) == data
  }

  ghost predicate Ends(h: Hash, states: seq<World>, steps: seq<Step>, w: World) {
    Behaviour(h, states, steps) && states[|states| - 1] == w
  }

  /** One more enabled step. */
  lemma Takes(h: Hash, states: seq<World>, steps: seq<Step>, w: World, s: Step)
    returns (states': seq<World>, steps': seq<Step>)
    requires Ends(h, states, steps, w) && Enabled(w, s)
    ensures Ends(h, states', steps', Apply(w, s)) && |steps'| == |steps| + 1
  {
    hide Enabled, Apply;
    states', steps' := states + [Apply(w, s)], steps + [s];
  }

  function WithRun(w: World, id: string, run: Run): World { w.(runs := w.runs[id := run]) }

  lemma FileIsWritable(w: World, id: string)
    requires Tidy(w) && id !in w.runs
    ensures w.disk.CanWrite(OutputFile(id)) && OutputFile(id) !in w.disk.names
    ensures !(ARTIFACTS <= OutputFile(id)) && OutputFile(id)[..3] == OutputsDir(id) && OutputFile(id)[1] == id
  {
    var p := OutputFile(id);
    assert p == ["runs", id, "outputs", "checkpoint"];
    assert |p[0]| != |ARTIFACTS[0]|;
    forall k | 0 <= k < |p| ensures p[..k] !in w.disk.names {
      assert |p[..k]| < 4;
    }
  }

  /** A running run writes a file and stages it. */
  lemma StagingOneFile(w: World, id: string, data: Data)
    requires StoreOk(w.hash, w.disk) && Tidy(w)
    requires HasFile(w.disk, OutputFile(id), data)
    ensures var (w', r) := StageInto(w, FileEvent(id));
      && r.Ok? && Entry(r.value) == StagedLine(w.hash, id, data)
      && w' == w.(disk := w'.disk) && Tidy(w')
  {
    hide BlobPath, StoreOk, Tidy, Write, Ancestors, OutputFile;
    var h, d := w.hash, w.disk;
    var sha := h.file(data.content);
    HexLength(h, d, data.content);
    BlobFits(w, sha);
    assert !IsBlank("checkpoint") by { assert !IsWhitespace("checkpoint"[0]); }
    assert SemanticRequest(FileEvent(id), OutputFile(id)) == Ok(None);
    BlobIsTidy(w, sha, data);
  }

  lemma BlobIsTidy(w: World, sha: string, data: Data)
    requires Tidy(w)
    ensures Tidy(w.(disk := Write(w.disk, BlobPath(sha), data)))
  {
    hide BlobPath;
    ObjectShape(sha);
    forall q | q in Ancestors(BlobPath(sha)) ensures q != [] ==> q[0] == "artifacts" {
      AncestorMember(q, BlobPath(sha));
    }
  }

  lemma ObjectShape(sha: string)
    ensures |BlobPath(sha)| == 5 && BlobPath(sha)[0] == "artifacts"
  {
  }

  lemma HexLength(h: Hash, d: Disk, c: Content)
    requires StoreOk(h, d)
    ensures |h.file(c)| > 2
  {
    assert IsDigest(h.file(c));
  }

  lemma BlobFits(w: World, sha: string)
    requires StoreOk(w.hash, w.disk) && Tidy(w)
    ensures w.disk.Exists(BlobPath(sha)) || w.disk.CanWrite(BlobPath(sha))
  {
    var p := BlobPath(sha);
    forall k | 0 <= k < |p| ensures p[..k] !in w.disk.names {
      assert k > 0 ==> p[..k][0] == "artifacts";
    }
  }

  lemma Starts(h: Hash, states: seq<World>, steps: seq<Step>, w: World, id: string, identity: Option<(string, string)>)
    returns (states': seq<World>, steps': seq<Step>, w': World)
    requires Ends(h, states, steps, w) && id !in w.runs
    ensures Ends(h, states', steps', w') && |steps'| == |steps| + 2
    ensures w' == WithRun(w, id, Run(Running, false, [], identity))
    ensures w'.disk == w.disk && w'.index == w.index
  {
    hide Ends, Save, Promote, Restage, Sweep, Write, RemoveRuns, RemoveAll, Unlink;
    var w1 := WithRun(w, id, Run(Created, false, [], identity));
    states', steps' := Takes(h, states, steps, w, CreateRun(id, false, identity));
    states', steps' := Takes(h, states', steps', w1, ChangeStatus(id, Running));
    w' := WithRun(w1, id, Run(Running, false, [], identity));
  }

  lemma Writes(h: Hash, states: seq<World>, steps: seq<Step>, w: World, p: Path, data: Data)
    returns (states': seq<World>, steps': seq<Step>)
    requires Ends(h, states, steps, w) && Writable(w, p) && w.disk.CanWrite(p)
    ensures Ends(h, states', steps', w.(disk := Write(w.disk, p, data))) && |steps'| == |steps| + 1
  {
    hide Ends, Save, Promote, Restage, Sweep, Write, RemoveRuns, RemoveAll, Unlink, Writable;
    states', steps' := Takes(h, states, steps, w, UserWrite(p, data));
  }

  lemma Saves(h: Hash, states: seq<World>, steps: seq<Step>, w: World, id: string, e: Event)
    returns (states': seq<World>, steps': seq<Step>)
    requires Ends(h, states, steps, w) && id in w.runs && w.runs[id].status.Running? && SeparateEvent(e)
    ensures Ends(h, states', steps', Save(w, id, e)) && |steps'| == |steps| + 1
  {
    hide Ends, Save, Promote, Restage, Sweep, Write, RemoveRuns, RemoveAll, Unlink, SeparateEvent;
    states', steps' := Takes(h, states, steps, w, SaveArtifact(id, e));
  }

  lemma Completes(h: Hash, states: seq<World>, steps: seq<Step>, w: World, id: string)
    returns (states': seq<World>, steps': seq<Step>)
    requires Ends(h, states, steps, w) && id in w.runs && w.runs[id].status.Running?
    ensures Ends(h, states', steps', Complete(w, id)) && |steps'| == |steps| + 1
  {
    hide Ends, Save, Promote, Restage, Sweep, Write, RemoveRuns, RemoveAll, Unlink;
    states', steps' := Takes(h, states, steps, w, ChangeStatus(id, Completed));
  }

  /** Create a run, start it and write one file. */
  lemma WritesOneFile(h: Hash, states: seq<World>, steps: seq<Step>, w: World, id: string, created: string, data: Data)
    returns (states': seq<World>, steps': seq<Step>, w': World)
    requires Ends(h, states, steps, w) && Tidy(w) && id !in w.runs
    ensures Ends(h, states', steps', w') && |steps'| == |steps| + 3 && Tidy(w')
    ensures HasFile(w'.disk, OutputFile(id), data) && w'.index == w.index
    ensures w'.runs == w.runs[id := Run(Running, false, [], Some(("experiment", created)))]
  {
    hide Tidy, Ends, OutputFile, HasFile, Write;
    var p := OutputFile(id);
    FileIsWritable(w, id);
    var w2: World;
    states', steps', w2 := Starts(h, states, steps, w, id, Some(("experiment", created)));
    states', steps' := Writes(h, states', steps', w2, p, data);
    w' := w2.(disk := Write(w2.disk, p, data));
    WrittenIsTidy(w, w', id, data);
  }

  /** And stage it. */
  lemma StagesOneFile(h: Hash, states: seq<World>, steps: seq<Step>, w: World, id: string, created: string, data: Data)
    returns (states': seq<World>, steps': seq<Step>, w': World)
    requires Lawful(h) && Ends(h, states, steps, w) && Tidy(w) && id !in w.runs
    ensures Ends(h, states', steps', w') && |steps'| == |steps| + 4 && Tidy(w')
    ensures w'.index == w.index
    ensures w'.runs == w.runs[id := Run(Running, false, [StagedLine(h, id, data)], Some(("experiment", created)))]
  {
    hide Inv, Tidy, StageInto, Lawful, StoreOk, Ends, StagedLine, SeparateEvent, OutputFile, HasFile, FileEvent;
    var w3: World;
    states', steps', w3 := WritesOneFile(h, states, steps, w, id, created, data);
    EndHasInv(h, states', steps', w3);
    StoreOf(w3);
    StagingOneFile(w3, id, data);
    PlainIsSeparate(id);
    states', steps' := Saves(h, states', steps', w3, id, FileEvent(id));
    w' := Save(w3, id, FileEvent(id));
    assert [] + [StagedLine(h, id, data)] == [StagedLine(h, id, data)];
    StagedIsTidy(StageInto(w3, FileEvent(id)).0, w', id);
  }

  lemma EndHasInv(h: Hash, states: seq<World>, steps: seq<Step>, w: World)
    requires Lawful(h) && Ends(h, states, steps, w)
    ensures Inv(w) && w.hash == h
  {
    hide Inv, Lawful, Behaviour;
    EndIsState(h, states, steps);
    StatesHaveInv(h, states, steps, |states| - 1);
    SameHash(h, states, steps, |states| - 1);
  }

  lemma EndIsState(h: Hash, states: seq<World>, steps: seq<Step>)
    requires Behaviour(h, states, steps)
    ensures |states| > 0
  {
    hide Enabled, Apply;
  }

  lemma PlainIsSeparate(id: string)
    ensures SeparateEvent(FileEvent(id))
  {
    hide SeparateRequest;
  }

  lemma WrittenIsTidy(w: World, w3: World, id: string, data: Data)
    requires Tidy(w) && OutputFile(id) !in w.disk.names && w3.disk == Write(w.disk, OutputFile(id), data)
    requires w3.runs.Keys == w.runs.Keys + {id}
    ensures Tidy(w3) && HasFile(w3.disk, OutputFile(id), data)
  {
    var p := OutputFile(id);
    assert p == ["runs", id, "outputs", "checkpoint"];
    forall q | q in Ancestors(p) && |q| >= 2 ensures q[1] == id {
      AncestorMember(q, p);
    }
  }

  lemma StagedIsTidy(w: World, w': World, id: string)
    requires Tidy(w) && w'.disk == w.disk && w'.runs.Keys == w.runs.Keys
    ensures Tidy(w')
  {
  }

  lemma StartIsTidy(h: Hash, json: string -> Option<seq<TreeEntry>>)
    ensures Tidy(Start(h, json)) && Ends(h, [Start(h, json)], [], Start(h, json))
  {
  }

  // ---------------------------------------------------------------- a sweep between staging and completion

  /** For any lawful digests and any file: four steps, and then a sweep takes what the run has staged. */
  lemma StagedWorkIsLost(h: Hash, json: string -> Option<seq<TreeEntry>>, data: Data)
    returns (states: seq<World>, steps: seq<Step>, w: World)
    requires Lawful(h)
    ensures Ends(h, states, steps, w) && |steps| == 4
    ensures "run" in w.runs && w.runs["run"].status.Running? && !w.runs["run"].locked
    ensures BlobPath(h.file(data.content)) in LinePaths(w.runs["run"].lines)
    ensures !Safe(Complete(Sweep(w), "run"))
  {
    hide Inv, Tidy, Lawful, Behaviour, Sweep, Safe;
    StartIsTidy(h, json);
    states, steps, w := StagesOneFile(h, [Start(h, json)], [], Start(h, json), "run", "", data);
    EndHasInv(h, states, steps, w);
    var lines := w.runs["run"].lines;
    assert lines[0].event.objectPath == Some(BlobPath(h.file(data.content)));
    UnguardedSweepLosesWork(w, "run", BlobPath(h.file(data.content)));
  }

  /** With digests that exist. */
  lemma StagedWorkIsLostSomewhere() returns (states: seq<World>, steps: seq<Step>, w: World)
    ensures Ends(SAMPLE, states, steps, w) && "run" in w.runs && !Safe(Complete(Sweep(w), "run"))
  {
    hide Ends, Sweep, Safe, Lawful;
    LawfulHashExists();
    states, steps, w := StagedWorkIsLost(SAMPLE, text => None, Data(Raw([1]), FILE_MODE));
  }

  // ---------------------------------------------------------------- what a failed run has staged

  lemma FailsAndSweeps(h: Hash, states: seq<World>, steps: seq<Step>, w: World, id: string)
    returns (states': seq<World>, steps': seq<Step>, w': World)
    requires Ends(h, states, steps, w) && w.runs.Keys == {id} && w.runs[id].status.Running?
    ensures w' == WithRun(w, id, w.runs[id].(status := Failed))
    ensures Ends(h, states', steps', Sweep(w')) && |steps'| == |steps| + 2
  {
    hide Ends, Save, Promote, Restage, Sweep, Write, RemoveRuns, RemoveAll, Unlink, Protected;
    w' := WithRun(w, id, w.runs[id].(status := Failed));
    states', steps' := Takes(h, states, steps, w, ChangeStatus(id, Failed));
    states', steps' := Takes(h, states', steps', w', SweepObjects);
  }

  lemma CompletedNeeds(w: World, id: string, p: Path)
    requires id in w.runs && w.runs[id].status == Completed && !w.runs[id].locked && p in LinePaths(w.runs[id].lines)
    ensures IsReachable(w, p)
  {
    hide ListsBlob;
    var lines := w.runs[id].lines;
    var i :| 0 <= i < |lines| && lines[i].Entry? && lines[i].event.objectPath == Some(p);
    assert w.runs[id].lines[i].event.objectPath == Some(p);
    assert CompletedRunNames(w.runs, p);
    assert StartsAt(w, p);
  }

  lemma NothingIsReachable(w: World, p: Path)
    requires w.index == [] && forall id :: id in w.runs ==> w.runs[id].status != Completed
    ensures !IsReachable(w, p)
  {
    hide ListsBlob;
  }

  lemma StagedIsNamed(h: Hash, id: string, data: Data)
    ensures LinePaths([StagedLine(h, id, data)]) == {BlobPath(h.file(data.content))}
  {
    hide BlobPath;
    var line := StagedLine(h, id, data);
    assert [line][0].event.objectPath == Some(BlobPath(h.file(data.content)));
    forall p | p in LinePaths([line]) ensures p == BlobPath(h.file(data.content)) {
      var i :| 0 <= i < |[line]| && [line][i].Entry? && [line][i].event.objectPath == Some(p);
      assert [line][i] == line;
    }
  }

  /** Four steps stage a file, two more fail the run and sweep: the blob that was there is gone. The same run, had it
      completed, keeps it. */
  lemma FailedRunIsSwept(h: Hash, json: string -> Option<seq<TreeEntry>>, data: Data)
    returns (states: seq<World>, steps: seq<Step>, w: World, kept: World)
    requires Lawful(h)
    ensures Ends(h, states, steps, Sweep(w)) && |steps| == 6
    ensures w.runs.Keys == kept.runs.Keys == {"run"}
    ensures w.runs["run"].status == Failed && !w.runs["run"].locked
    ensures kept == w.(runs := w.runs["run" := w.runs["run"].(status := Completed)])
    ensures BlobPath(h.file(data.content)) in LinePaths(w.runs["run"].lines)
    ensures BlobPath(h.file(data.content)) in w.disk.names
    ensures BlobPath(h.file(data.content)) !in Sweep(w).disk.names
    ensures BlobPath(h.file(data.content)) in Sweep(kept).disk.names
  {
    hide Inv, Tidy, Lawful, Ends, Sweep, StagedLine, BlobPath, LinePaths;
    StartIsTidy(h, json);
    var w1: World;
    states, steps, w1 := StagesOneFile(h, [Start(h, json)], [], Start(h, json), "run", "", data);
    EndHasInv(h, states, steps, w1);
    StagedIsNamed(h, "run", data);
    StatusDecides(w1, "run", BlobPath(h.file(data.content)));
    states, steps, w := FailsAndSweeps(h, states, steps, w1, "run");
    kept := Complete(w1, "run");
  }

  /** Without index rows, what the only run has staged outlives the next sweep when it completes, but not when it
      fails. */
  lemma StatusDecides(w: World, id: string, p: Path)
    requires Inv(w) && w.index == [] && w.runs.Keys == {id}
    requires w.runs[id].status.Running? && !w.runs[id].locked && p in LinePaths(w.runs[id].lines)
    ensures p in w.disk.names && p in Sweep(Complete(w, id)).disk.names
    ensures p !in Sweep(WithRun(w, id, w.runs[id].(status := Failed))).disk.names
  {
    hide Inv, Sweep, LinePaths, CanCollect, IsReachable, IsObject;
    LinePathIsLive(w, id, p);
    ObjectIsBelow(p);
    var failed := WithRun(w, id, w.runs[id].(status := Failed));
    ChangeStatusKeepsInv(w, id, Completed);
    ChangeStatusKeepsInv(w, id, Failed);
    SweepLeavesReachable(Complete(w, id), p);
    SweepLeavesReachable(failed, p);
    CompletedNeeds(Complete(w, id), id, p);
    NothingIsReachable(failed, p);
  }

  // ---------------------------------------------------------------- pruning

  lemma EarlierText()
    ensures !StrLe("2", "1")
  {
  }

  /** The two runs: of one experiment, each with one plain checkpoint under a blank artifact kind. */
  ghost predicate TwoRuns(h: Hash, runs: map<string, Run>, status: Status, a: Data, b: Data) {
    runs == map["old" := Run(status, false, [StagedLine(h, "old", a)], Some(("experiment", "1"))),
                "new" := Run(Completed, false, [StagedLine(h, "new", b)], Some(("experiment", "2")))]
  }

  lemma TwoRunsGroup(h: Hash, runs: map<string, Run>, status: Status, a: Data, b: Data)
    requires TwoRuns(h, runs, status, a, b)
    ensures Group(runs, "experiment") == {"old", "new"}
  {
    forall id | id in runs ensures Prunable(runs[id]) {
      assert runs[id].lines[0].Entry?;
    }
  }

  lemma OtherRunNeeds(h: Hash, d: Disk, runs: map<string, Run>, status: Status, a: Data, b: Data)
    requires TwoRuns(h, runs, status, a, b) && Lawful(h) && a.content != b.content
    ensures BlobPath(h.file(a.content)) !in Reached(d, IndexRoots([]) + RunRoots(runs - {"old"}))
  {
    hide Lawful, IsDigest, BlobPath;
    var blob := BlobPath(h.file(b.content));
    BlobReachesItself(h, d, b.content);
    assert h.file(a.content) != h.file(b.content) by { DifferentDigests(h, a.content, b.content); }
    LayoutIsSeparate(h.file(a.content), h.file(b.content));
    forall root | root in IndexRoots([]) + RunRoots(runs - {"old"}) ensures root == blob {
      assert Latest([]) == map[];
      assert root in RunRoots(runs - {"old"});
      var id :| id in runs - {"old"} && runs[id].IsRoot() && root in LinePaths(runs[id].lines);
      assert id == "new";
    }
  }

  lemma DifferentDigests(h: Hash, a: Content, b: Content)
    requires Lawful(h) && a != b
    ensures h.file(a) != h.file(b)
  {
    hide IsDigest;
  }

  lemma BlobReachesItself(h: Hash, d: Disk, c: Content)
    requires Lawful(h)
    ensures InsertObject(d, BlobPath(h.file(c))) == Ok({BlobPath(h.file(c))})
  {
    assert IsDigest(h.file(c));
    ObjectShapes(h.file(c));
    InsertPlain(d, BlobPath(h.file(c)));
  }

  /** Two runs of one experiment stage a checkpoint each, promote nothing, and the newer one completes: keeping one
      run per experiment removes the older one, finished or still running, and the next sweep its checkpoint. */
  lemma PrunedCheckpoint(h: Hash, json: string -> Option<seq<TreeEntry>>, a: Data, b: Data, finished: bool)
    returns (states: seq<World>, steps: seq<Step>, w: World)
    requires Lawful(h) && a.content != b.content
    ensures Ends(h, states, steps, w) && w.index == []
    ensures TwoRuns(h, w.runs, if finished then Completed else Running, a, b)
    ensures BlobPath(h.file(a.content)) in w.disk.names
    ensures forall gone :: PrunedOutside(w.runs, {}, gone, 1) ==>
              "old" in gone && BlobPath(h.file(a.content)) !in Sweep(RemoveRuns(w, gone)).disk.names
  {
    hide Inv, Tidy, Lawful, Ends, Sweep, StagedLine, PrunedOutside, RemoveRuns, TwoRuns, Reached, IndexRoots, RunRoots;
    states, steps, w := BothStaged(h, json, a, b, finished);
    EndHasInv(h, states, steps, w);
    var status := if finished then Completed else Running;
    TwoRunsGroup(h, w.runs, status, a, b);
    OtherRunNeeds(h, w.disk, w.runs, status, a, b);
    LayoutIsSeparate(h.file(a.content), "");
    CreatedTexts(h, w.runs, status, a, b);
    StagedIsThere(h, w, status, a, b);
    forall gone | PrunedOutside(w.runs, {}, gone, 1)
      ensures "old" in gone && BlobPath(h.file(a.content)) !in Sweep(RemoveRuns(w, gone)).disk.names
    {
      OlderRunIsPruned(w.runs, "experiment", "old", "new", gone);
      PrunedCheckpointIsLost(w, "old", gone, BlobPath(h.file(a.content)));
    }
  }

  lemma CreatedTexts(h: Hash, runs: map<string, Run>, status: Status, a: Data, b: Data)
    requires TwoRuns(h, runs, status, a, b)
    ensures "old" in runs && "new" in runs && runs["old"].identity.Some? && runs["new"].identity.Some?
    ensures !StrLe(runs["new"].identity.value.1, runs["old"].identity.value.1)
  {
    EarlierText();
  }

  lemma StagedIsThere(h: Hash, w: World, status: Status, a: Data, b: Data)
    requires Inv(w) && TwoRuns(h, w.runs, status, a, b) && (status.Completed? || status.Running?)
    ensures BlobPath(h.file(a.content)) in w.disk.names
  {
    hide Inv, BlobPath, IsObject;
    var run := w.runs["old"];
    assert run.lines[0].event.objectPath == Some(BlobPath(h.file(a.content)));
    LinePathIsLive(w, "old", BlobPath(h.file(a.content)));
  }

  lemma BothStaged(h: Hash, json: string -> Option<seq<TreeEntry>>, a: Data, b: Data, finished: bool)
    returns (states: seq<World>, steps: seq<Step>, w: World)
    requires Lawful(h)
    ensures Ends(h, states, steps, w) && w.index == []
    ensures TwoRuns(h, w.runs, if finished then Completed else Running, a, b)
  {
    hide Tidy, Lawful, Ends, StagedLine, Behaviour;
    StartIsTidy(h, json);
    states, steps, w := StagesOneFile(h, [Start(h, json)], [], Start(h, json), "old", "1", a);
    if finished {
      states, steps, w := Finishes(h, states, steps, w, "old");
    }
    states, steps, w := StagesOneFile(h, states, steps, w, "new", "2", b);
    states, steps, w := Finishes(h, states, steps, w, "new");
  }

  lemma Finishes(h: Hash, states: seq<World>, steps: seq<Step>, w: World, id: string)
    returns (states': seq<World>, steps': seq<Step>, w': World)
    requires Ends(h, states, steps, w) && Tidy(w) && id in w.runs && w.runs[id].status.Running?
    ensures Ends(h, states', steps', w') && Tidy(w')
    ensures w'.index == w.index && w'.runs == w.runs[id := w.runs[id].(status := Completed)]
  {
    hide Tidy, Ends;
    states', steps' := Completes(h, states, steps, w, id);
    w' := Complete(w, id);
    StagedIsTidy(w, w', id);
  }

  // ---------------------------------------------------------------- a directory that is saved twice

  const LATEST: Path := ["runs", "run", "outputs", "latest"]
  const WEIGHTS: Path := ["runs", "run", "outputs", "latest", "weights"]

  /** An artifact event that promotes nothing. */
  const LATEST_EVENT := Event(Some(LATEST), "latest", None, None, None, None, None, None, None, None, None)

  /** The tree of the directory while the file has this data. */
  function LatestTree(h: Hash, data: Data): seq<TreeEntry> { [EntryOf(h, ["weights"], data)] }

  function LatestLine(h: Hash, data: Data): Line {
    var sha := h.tree(LatestTree(h, data));
    Entry(StagedEvent(LATEST_EVENT, Stored(sha, DirectoryStorage, TreePath(sha)), None))
  }

  /** The directory with its one file, and objects. */
  ghost predicate OnlyLatest(d: Disk) {
    && (forall p :: p in d.names ==> p == WEIGHTS || IsObject(p))
    && (forall q :: q in d.dirs ==> q <= LATEST || (q != [] && q[0] == "artifacts"))
    && LATEST in d.dirs && WEIGHTS in d.names
  }

  /** The tree of the directory with this data is stored. */
  ghost predicate HasTree(h: Hash, d: Disk, data: Data) {
    TreePath(h.tree(LatestTree(h, data))) in d.names && BlobPath(h.file(data.content)) in d.names
  }

  lemma OnlyWeights(d: Disk, rel: Path)
    requires OnlyLatest(d)
    ensures LATEST + rel in d.names ==> rel == ["weights"]
  {
    var p := LATEST + rel;
    assert p[0] == "runs" && |"runs"| != |"artifacts"|;
    assert p == WEIGHTS ==> rel == p[4..] == WEIGHTS[4..];
    if IsObject(p) { ObjectRoot(p); }
  }

  lemma ObjectRoot(p: Path)
    requires IsObject(p)
    ensures p != [] && p[0] == "artifacts"
  {
    ObjectIsBelow(p);
    assert p[0] == OBJECTS[0];
  }

  lemma LatestRel(d: Disk)
    requires d.WellFormed() && OnlyLatest(d)
    ensures RelFiles(d, LATEST) == {["weights"]} && Files(d, LATEST) == map[["weights"] := d.At(WEIGHTS)]
  {
    hide OnlyLatest, RelFiles, Files;
    OnlyLatestHas(d);
    assert LATEST + ["weights"] == WEIGHTS;
    forall rel ensures rel in RelFiles(d, LATEST) <==> rel == ["weights"] {
      RelFilesMember(d, LATEST, rel);
      OnlyWeights(d, rel);
    }
    FilesKeys(d, LATEST);
    FilesMember(d, LATEST, ["weights"]);
    assert Files(d, LATEST).Keys == {["weights"]};
  }

  lemma LatestFiles(h: Hash, d: Disk)
    requires StoreOk(h, d) && OnlyLatest(d)
    ensures Walk(d, LATEST) == [["weights"]] && Files(d, LATEST) == map[["weights"] := d.At(WEIGHTS)]
    ensures TreeOf(h, Files(d, LATEST)) == LatestTree(h, d.At(WEIGHTS))
  {
    hide OnlyLatest, RelFiles, Files, StoreOk, SortEntries, EntryOf;
    ShapeOf(h, d);
    LatestRel(d);
    PathLeIsTotal();
    OneAscending(["weights"]);
    assert Files(d, LATEST).Keys == {["weights"]};
    assert EntriesOf(h, Files(d, LATEST), [["weights"]]) == LatestTree(h, d.At(WEIGHTS));
    OneSorted(LatestTree(h, d.At(WEIGHTS))[0]);
  }

  lemma OneAscending(x: Path)
    requires IsTotalOrder(PathLe)
    ensures Ascending({x}, PathLe) == [x]
  {
    hide PathLe;
    var r := Ascending({x}, PathLe);
    assert r[0] in r;
  }

  lemma OneSorted(e: TreeEntry)
    ensures SortEntries([e]) == [e]
  {
    assert [e][1..] == [];
  }

  lemma OnlyLatestIsClear(d: Disk)
    requires OnlyLatest(d)
    ensures StoreClear(d)
  {
    hide IsObject;
    assert WEIGHTS[0] == "runs" && |WEIGHTS[0]| != |OBJECTS[0]|;
  }

  lemma GrowsKeepsLatest(d: Disk, d': Disk)
    requires OnlyLatest(d) && Grows(d, d') && StoreClear(d')
    ensures OnlyLatest(d')
  {
    hide IsObject;
    forall q | q in d'.dirs && q !in d.dirs ensures q <= LATEST || (q != [] && q[0] == "artifacts") {
      assert q != [] ==> q[0] == OBJECTS[0];
    }
  }

  /** Staging the directory succeeds. */
  lemma LatestIsIngested(h: Hash, d: Disk)
    requires StoreOk(h, d) && OnlyLatest(d)
    ensures var (d', r) := IngestDirectory(h, d, LATEST); r.Ok? && OnlyLatest(d')
  {
    hide IngestDirectory, StoreOk, OnlyLatest, StoreClear, Grows;
    OnlyLatestIsClear(d);
    IngestDirectorySucceeds(h, d, LATEST);
    IngestDirectoryStores(h, d, LATEST);
    GrowsKeepsLatest(d, IngestDirectory(h, d, LATEST).0);
  }

  lemma OnlyLatestHas(d: Disk)
    requires OnlyLatest(d)
    ensures LATEST in d.dirs && WEIGHTS in d.names
  {
    hide IsObject;
  }

  lemma LatestIsStored(h: Hash, d: Disk)
    requires StoreOk(h, d) && OnlyLatest(d)
    ensures var (d', r) := IngestPath(h, d, LATEST);
      var sha := h.tree(LatestTree(h, d.At(WEIGHTS)));
      && r == Ok(Stored(sha, DirectoryStorage, TreePath(sha)))
      && OnlyLatest(d') && (Layout(d) ==> Layout(d'))
      && HasTree(h, d', d.At(WEIGHTS)) && d'.At(WEIGHTS) == d.At(WEIGHTS)
      && forall p :: p in d.names ==> p in d'.names
  {
    hide BlobPath, TreePath, StoreOk, OnlyLatest, Layout, IngestDirectory, Files, TreeOf, EntryOf;
    if Layout(d) { LatestKeepsLayout(h, d); }
    var (d', r) := IngestDirectory(h, d, LATEST);
    LatestIsIngested(h, d);
    LatestFiles(h, d);
    IngestDirectoryStores(h, d, LATEST);
    OnlyLatestHas(d);
    ShapeOf(h, d);
    DirIsNoFile(d, LATEST);
    TreeListsWeights(h, d', d.At(WEIGHTS));
  }

  lemma TreeListsWeights(h: Hash, d: Disk, data: Data)
    requires BlobsLive(d, LatestTree(h, data))
    ensures BlobPath(h.file(data.content)) in d.names
  {
    hide BlobPath;
    assert LatestTree(h, data)[0].sha256 == h.file(data.content);
  }

  /** A running run stages the directory. */
  lemma StagingLatest(w: World)
    requires StoreOk(w.hash, w.disk) && OnlyLatest(w.disk)
    ensures var (w', r) := StageInto(w, LATEST_EVENT);
      && r.Ok? && Entry(r.value) == LatestLine(w.hash, w.disk.At(WEIGHTS))
      && w' == w.(disk := w'.disk) && OnlyLatest(w'.disk) && (Layout(w.disk) ==> Layout(w'.disk))
      && HasTree(w.hash, w'.disk, w.disk.At(WEIGHTS))
      && w'.disk.At(WEIGHTS) == w.disk.At(WEIGHTS)
      && forall p :: p in w.disk.names ==> p in w'.disk.names
  {
    hide StoreOk, OnlyLatest, Layout, IngestPath, HasTree, LatestTree, TreePath;
    LatestIsStored(w.hash, w.disk);
    OnlyLatestHas(w.disk);
    assert !IsBlank("latest") by { assert !IsWhitespace("latest"[0]); }
    assert SemanticRequest(LATEST_EVENT, LATEST) == Ok(None);
  }

  function RunningWith(lines: seq<Line>): map<string, Run> { map["run" := Run(Running, false, lines, None)] }

  /** The one run, running, has the directory and these lines. */
  /** Directly below the objects there are only the two directories of the store. */
  ghost predicate Layout(d: Disk) {
    forall q :: q in d.dirs && OBJECTS < q && |q| == 3 ==> q == BLOBS || q == TREES
  }

  lemma ObjectKeepsLayout(d: Disk, sha: string, p: Path, data: Data)
    requires Layout(d) && (p == BlobPath(sha) || p == TreePath(sha))
    ensures Layout(Write(d, p, data))
  {
    forall q | q in Ancestors(p) && OBJECTS < q && |q| == 3 ensures q == BLOBS || q == TREES {
      AncestorMember(q, p);
      assert q == p[..3];
    }
  }

  lemma LatestKeepsLayout(h: Hash, d: Disk)
    requires StoreOk(h, d) && OnlyLatest(d) && Layout(d)
    ensures Layout(IngestDirectory(h, d, LATEST).0)
  {
    hide OnlyLatest, StoreOk, Layout, RelFiles, SortEntries, EntryPath, BlobPath, TreePath, FileSystem.Disk.CanWrite;
    LatestFiles(h, d);
    var (d1, r1) := IngestFile(h, d, LATEST + ["weights"]);
    ObjectKeepsLayout(d, h.file(d.At(LATEST + ["weights"]).content),
                      BlobPath(h.file(d.At(LATEST + ["weights"]).content)), d.At(LATEST + ["weights"]));
    assert [["weights"]][1..] == [];
    var (d2, r2) := IngestFrom(h, d, LATEST, [], [["weights"]]);
    assert d2 == d1;
    if r2.Ok? {
      var sorted := SortEntries(r2.value);
      ObjectKeepsLayout(d1, h.tree(sorted), TreePath(h.tree(sorted)), Data(TreeDoc(sorted), FILE_MODE));
    }
  }

  ghost predicate RunsLatest(w: World, data: Data, lines: seq<Line>) {
    && OnlyLatest(w.disk) && Layout(w.disk) && HasFile(w.disk, WEIGHTS, data)
    && w.runs == RunningWith(lines) && w.index == []
  }

  lemma WritesLatest(h: Hash, states: seq<World>, steps: seq<Step>, w: World, lines: seq<Line>, data: Data)
    returns (states': seq<World>, steps': seq<Step>, w': World)
    requires Ends(h, states, steps, w) && w.runs == RunningWith(lines) && w.index == [] && w.disk.CanWrite(WEIGHTS)
    requires (OnlyLatest(w.disk) && Layout(w.disk)) || w.disk == Disk(map[], map[], {[]}, 0)
    ensures Ends(h, states', steps', w') && |steps'| == |steps| + 1 && RunsLatest(w', data, lines)
    ensures forall p :: p in w.disk.names ==> p in w'.disk.names
  {
    hide Ends, IsObject;
    assert Writable(w, WEIGHTS) by { assert WEIGHTS[0] != ARTIFACTS[0] && WEIGHTS[1] == "run"; }
    states', steps' := Writes(h, states, steps, w, WEIGHTS, data);
    w' := w.(disk := Write(w.disk, WEIGHTS, data));
    assert LATEST == WEIGHTS[..4] && LATEST in Ancestors(WEIGHTS);
    forall q | q in Ancestors(WEIGHTS) ensures q <= LATEST { AncestorMember(q, WEIGHTS); }
  }

  lemma SavesLatest(h: Hash, states: seq<World>, steps: seq<Step>, w: World, data: Data, lines: seq<Line>)
    returns (states': seq<World>, steps': seq<Step>, w': World)
    requires Lawful(h) && Ends(h, states, steps, w) && RunsLatest(w, data, lines)
    ensures Ends(h, states', steps', w') && |steps'| == |steps| + 1
    ensures RunsLatest(w', data, lines + [LatestLine(h, data)]) && HasTree(h, w'.disk, data)
    ensures forall p :: p in w.disk.names ==> p in w'.disk.names
  {
    hide Inv, StageInto, Lawful, StoreOk, Ends, LatestLine, SeparateEvent, OnlyLatest, Layout, HasTree;
    EndHasInv(h, states, steps, w);
    StoreOf(w);
    StagingLatest(w);
    assert SeparateEvent(LATEST_EVENT) by { LatestIsSeparate(); }
    states', steps' := Saves(h, states, steps, w, "run", LATEST_EVENT);
    w' := Save(w, "run", LATEST_EVENT);
    EndHasInv(h, states', steps', w');
    StoreOf(w');
    ShapeOf(h, w'.disk);
    OnlyLatestHas(w'.disk);
  }

  lemma LatestIsSeparate()
    ensures SeparateEvent(LATEST_EVENT)
  {
    hide SeparateRequest;
  }

  /** The directory was saved with data `a`, the file overwritten with `b`, and the directory saved again. */
  ghost predicate SavedTwice(h: Hash, w: World, status: Status, a: Data, b: Data) {
    && OnlyLatest(w.disk) && HasFile(w.disk, WEIGHTS, b) && HasTree(h, w.disk, a)
    && w.runs == map["run" := Run(status, false, [LatestLine(h, a), LatestLine(h, b)], None)]
  }

  lemma LatestIsSaved(h: Hash, json: string -> Option<seq<TreeEntry>>, a: Data)
    returns (states: seq<World>, steps: seq<Step>, w: World)
    requires Lawful(h)
    ensures Ends(h, states, steps, w) && |steps| == 4
    ensures RunsLatest(w, a, [LatestLine(h, a)]) && HasTree(h, w.disk, a)
  {
    hide Lawful, Ends, OnlyLatest, Layout, LatestLine, HasTree;
    assert Ends(h, [Start(h, json)], [], Start(h, json)) by { StartIsTidy(h, json); }
    states, steps, w := Starts(h, [Start(h, json)], [], Start(h, json), "run", None);
    assert w.runs == RunningWith([]);
    states, steps, w := WritesLatest(h, states, steps, w, [], a);
    states, steps, w := SavesLatest(h, states, steps, w, a, []);
    assert [] + [LatestLine(h, a)] == [LatestLine(h, a)];
  }

  lemma LatestIsSavedTwice(h: Hash, json: string -> Option<seq<TreeEntry>>, a: Data, b: Data)
    returns (states: seq<World>, steps: seq<Step>, w: World)
    requires Lawful(h)
    ensures Ends(h, states, steps, w) && |steps| == 6 && SavedTwice(h, w, Running, a, b)
  {
    hide Lawful, Ends, OnlyLatest, Layout, LatestLine, StoreOk, LatestTree;
    var first := [LatestLine(h, a)];
    states, steps, w := LatestIsSaved(h, json, a);
    EndHasInv(h, states, steps, w);
    StoreOf(w);
    ShapeOf(h, w.disk);
    states, steps, w := WritesLatest(h, states, steps, w, first, b);
    states, steps, w := SavesLatest(h, states, steps, w, b, first);
    assert first + [LatestLine(h, b)] == [LatestLine(h, a), LatestLine(h, b)];
  }

  /** What relinking does then: the directory goes back to the tree of its first line. */
  lemma RelinkedLatest(h: Hash, d: Disk, a: Data, b: Data)
    requires StoreOk(h, d) && OnlyLatest(d) && HasTree(h, d, a)
    ensures var (d', r) := RelinkLines(d, OutputsDir("run"), {}, 0, [LatestLine(h, a), LatestLine(h, b)]);
      r.Ok? && d'.At(WEIGHTS).content == a.content
  {
    hide OnlyLatest, StoreOk, BlobPath, TreePath, EntryPath, EnsureChild, RelinkFrom, RelinkAll, TmpPath, RelinkFrame,
         TakesObjects, FileSystem.Disk.At;
    var outputs, lines := OutputsDir("run"), [LatestLine(h, a), LatestLine(h, b)];
    var e := LatestTree(h, a)[0];
    var links := [Link(LATEST, e)];
    OnlyLatestHas(d);
    OutputsApart("run");
    assert outputs <= LATEST by { assert outputs == LATEST[..3]; }
    FirstTreeReads(h, d, a);
    WeightsPlace();
    TmpIsFree(d);
    RelinksToFirst(h, d, a, b);
    LinesAreLinks(h, d, outputs, {}, 0, lines);
    RunLinksBelow(d, outputs, {}, lines);
    FreeNamesSucceed(h, d, outputs, links);
    assert LinksOf(LATEST, LatestTree(h, a)) == links;
    EntriesAreLinks(d, LATEST, 0, LatestTree(h, a));
    RelinkAllKeepsStore(h, d, outputs, links);
    FrameSameShape(d, RelinkAll(d, links).0, outputs);
    FirstLineSucceeds(h, d, a, b);
    assert IsLastAt(d, links, 0);
    RunTakesFirstTrees(h, d, outputs, lines, 0);
    BlobIsNamed(h, d, a.content, e.sha256);
  }

  lemma FirstTreeReads(h: Hash, d: Disk, a: Data)
    requires StoreOk(h, d) && HasTree(h, d, a)
    ensures TreeEntries(d, h.tree(LatestTree(h, a))) == Some(LatestTree(h, a))
  {
    hide TreePath, BlobPath, EntryOf;
  }

  lemma WeightsPlace()
    ensures EnsureChild(LATEST, EntryPath(["weights"])) == Ok(WEIGHTS)
  {
    hide EnsureChild, EntryPath;
    assert ValidName("weights") && '\\' !in "weights";
    assert forall n :: n in ["weights"] ==> n == "weights";
    EntryPathReads(LATEST, ["weights"]);
    assert LATEST + ["weights"] == WEIGHTS;
  }

  lemma TmpIsFree(d: Disk)
    requires OnlyLatest(d)
    ensures !d.Exists(TmpPath(WEIGHTS))
  {
    var tmp := TmpPath(WEIGHTS);
    assert tmp == LATEST + [Stem("weights") + RELINK_EXTENSION];
    assert |tmp[4]| > |WEIGHTS[4]|;
    assert tmp[0] == "runs" && |"runs"| != |"artifacts"|;
    if IsObject(tmp) { ObjectRoot(tmp); }
  }

  lemma RelinksToFirst(h: Hash, d: Disk, a: Data, b: Data)
    requires LATEST in d.dirs && TreeEntries(d, h.tree(LatestTree(h, a))) == Some(LatestTree(h, a))
    ensures RunLinks(d, OutputsDir("run"), {}, [LatestLine(h, a), LatestLine(h, b)])
         == [Link(LATEST, LatestTree(h, a)[0])]
  {
    hide TreeEntries, TreePath, EntryOf;
    var outputs, lines := OutputsDir("run"), [LatestLine(h, a), LatestLine(h, b)];
    assert outputs == LATEST[..3];
    assert lines[1..] == [LatestLine(h, b)] && lines[1..][1..] == [];
    assert RunLinks(d, outputs, {LATEST}, lines[1..]) == [];
    assert {} + {LATEST} == {LATEST};
    assert LinksOf(LATEST, LatestTree(h, a)) == [Link(LATEST, LatestTree(h, a)[0])];
  }

  lemma FirstLineSucceeds(h: Hash, d: Disk, a: Data, b: Data)
    requires LATEST in d.dirs && TreeEntries(d, h.tree(LatestTree(h, a))) == Some(LatestTree(h, a))
    requires RelinkFrom(d, LATEST, 0, LatestTree(h, a)).1.Ok?
    requires RelinkFrom(d, LATEST, 0, LatestTree(h, a)).0.dirs == d.dirs
    ensures RelinkLines(d, OutputsDir("run"), {}, 0, [LatestLine(h, a), LatestLine(h, b)]).1.Ok?
  {
    hide TreePath, LatestTree, RelinkFrom;
    var outputs, lines := OutputsDir("run"), [LatestLine(h, a), LatestLine(h, b)];
    assert outputs == LATEST[..3];
    assert lines[1..] == [LatestLine(h, b)] && lines[1..][1..] == [];
    var (d1, r) := RelinkDir(d, LATEST, h.tree(LatestTree(h, a)));
    assert d1.dirs == d.dirs && r.Ok?;
    assert {} + {LATEST} == {LATEST};
    assert RelinkLines(d1, outputs, {LATEST}, 0 + r.value, lines[1..]).1.Ok?;
  }

  lemma AllResumeDirsAreLatest(d: Disk, globs: seq<string>)
    requires OnlyLatest(d)
    ensures forall q :: q in ResumeDirs(d, globs, OutputsDir("run")) ==> q == LATEST
  {
    hide ResumeOnlyFiles;
    assert OutputsDir("run")[0] != "artifacts" by { assert |"runs"| != |"artifacts"|; }
    forall q | q in ResumeDirs(d, globs, OutputsDir("run")) ensures q == LATEST {
      assert q[0] == Parent(q)[0];
      assert q <= LATEST && |q| == 4;
    }
  }

  /** Retention that is off, keeps everything, or keeps the directory a run would resume from leaves it alone. */
  lemma LatestIsUnchanged(d: Disk, policy: Policy, clues: Clues)
    requires OnlyLatest(d) && (policy.globs == [] || policy.keep != KeepNone)
    ensures ChangedDirs(d, OutputsDir("run"), policy, clues) == []
    ensures Retain(d, OutputsDir("run"), policy, clues) == d
  {
    hide OnlyLatest, ResumeDirs;
    AllResumeDirsAreLatest(d, policy.globs);
    if policy.globs != [] && policy.keep == KeepLast {
      OnlyOneIsSpared(d, OutputsDir("run"), policy, clues, LATEST);
    }
    StripNothing(d, policy.globs);
  }

  /** Eight steps from the empty project: a run saves a directory, overwrites its file, saves the directory again,
      completes and is relinked. The finished run's file has the bytes of the first time, its last line the digest of
      the second. */
  lemma FirstBytesReturn(h: Hash, json: string -> Option<seq<TreeEntry>>, a: Data, b: Data)
    returns (states: seq<World>, steps: seq<Step>, w: World)
    requires Lawful(h)
    ensures Ends(h, states, steps, w) && |steps| == 8
    ensures "run" in w.runs && w.runs["run"].status.Completed?
    ensures w.runs["run"].lines == [LatestLine(h, a), LatestLine(h, b)]
    ensures w.disk.At(WEIGHTS).content == a.content
  {
    hide Lawful, Ends, OnlyLatest, LatestLine, RelinkLines, StoreOk, HasTree, Inv;
    states, steps, w := LatestIsSavedTwice(h, json, a, b);
    states, steps := Completes(h, states, steps, w, "run");
    w := Complete(w, "run");
    EndHasInv(h, states, steps, w);
    StoreOf(w);
    RelinkedLatest(h, w.disk, a, b);
    states, steps := Relinks(h, states, steps, w, "run");
    w := w.(disk := RelinkLines(w.disk, OutputsDir("run"), {}, 0, w.runs["run"].lines).0);
  }

  lemma Relinks(h: Hash, states: seq<World>, steps: seq<Step>, w: World, id: string)
    returns (states': seq<World>, steps': seq<Step>)
    requires Ends(h, states, steps, w) && id in w.runs && w.runs[id].status.Completed?
    ensures Ends(h, states', steps', w.(disk := RelinkLines(w.disk, OutputsDir(id), {}, 0, w.runs[id].lines).0))
    ensures |steps'| == |steps| + 1
  {
    hide Ends, Save, Promote, Restage, Sweep, Write, RemoveRuns, RemoveAll, Unlink, RelinkLines;
    states', steps' := Takes(h, states, steps, w, RelinkRun(id));
  }

  /** The same in one completion: after six steps the run has the second bytes; whatever it completes with, as long as
      retention spares the directory and pruning the run, it is left with the first. */
  lemma CompletionReturnsFirstBytes(h: Hash, json: string -> Option<seq<TreeEntry>>, a: Data, b: Data, policy: Policy,
                                    clues: Clues, pruned: set<string>, evicted: set<Path>)
    returns (states: seq<World>, steps: seq<Step>, w: World)
    requires Lawful(h) && (policy.globs == [] || policy.keep != KeepNone)
    requires "run" !in pruned && CacheEntries(evicted)
    ensures Ends(h, states, steps, w) && |steps| == 6
    ensures SavedTwice(h, w, Running, a, b) && w.disk.At(WEIGHTS) == b
    ensures var (w3, swept) := Reclaim(Complete(w, "run"), "run", policy, clues);
      && swept && "run" in w3.runs && Bounded(w3, "run", pruned, evicted).disk.At(WEIGHTS).content == a.content
  {
    hide Lawful, Ends, OnlyLatest, LatestLine, RelinkLines, StoreOk, HasTree, Inv, Bounded, Retain, ChangedDirs;
    states, steps, w := LatestIsSavedTwice(h, json, a, b);
    EndHasInv(h, states, steps, w);
    StoreOf(w);
    LatestIsUnchanged(w.disk, policy, clues);
    NothingReclaimed(Complete(w, "run"), "run", policy, clues);
    RelinkedLatest(h, w.disk, a, b);
    BoundsSpareOutputs(Complete(w, "run"), "run", pruned, evicted);
    assert OutputsDir("run") == WEIGHTS[..3];
    SameFileBelow(RelinkLines(w.disk, OutputsDir("run"), {}, 0, [LatestLine(h, a), LatestLine(h, b)]).0,
                  Bounded(Complete(w, "run"), "run", pruned, evicted).disk, OutputsDir("run"), WEIGHTS);
  }

  // ---------------------------------------------------------------- promotions into the store's own directories

  /** After the run has saved the directory and completed: the request that names its own tree as an alias. */
  function OwnTreeRequest(h: Hash, a: Data, version: string): Request {
    Request(LATEST, "objects", "trees", version, Some(h.tree(LatestTree(h, a)) + ".json"))
  }

  lemma TwoWaypoints(at: Path, a: string, b: string)
    requires a != ".." && b != ".."
    ensures Waypoints(at, [a, b]) == [at, at + [a], at + [a] + [b]]
  {
    assert [a, b][1..] == [b] && [b][1..] == [];
    assert Waypoints(at + [a] + [b], []) == [at + [a] + [b]];
    assert Waypoints(at + [a], [b]) == [at + [a]] + [at + [a] + [b]];
  }

  lemma ThreeWaypoints(at: Path, a: string, b: string, c: string)
    requires a != ".." && b != ".." && c != ".."
    ensures Waypoints(at, [a, b, c]) == [at, at + [a], at + [a] + [b], at + [a] + [b] + [c]]
  {
    assert [a, b, c][1..] == [b, c];
    TwoWaypoints(at + [a], b, c);
  }

  lemma DigestFileName(sha: string)
    requires IsDigest(sha)
    ensures ValidName(sha + ".json") && '/' !in sha + ".json"
  {
    DigestHasNoSlash(sha);
    assert |sha + ".json"| > 2;
  }

  /** The request is plain, and goes nowhere near the index file. */
  lemma OwnTreeIsPlain(h: Hash, a: Data, version: string)
    requires Lawful(h) && '/' !in version && !IsBlank(version)
    ensures var req := OwnTreeRequest(h, a, version);
      PlainRequest(req) && ValidName(req.alias.value) && MissesIndex(req) && !IsBlank(req.kind) && !IsBlank(req.name)
  {
    hide Components, Split, LatestTree, IsDigest, Waypoints, ManifestName;
    var req := OwnTreeRequest(h, a, version);
    var r := Reference("objects", "trees", version);
    assert IsDigest(h.tree(LatestTree(h, a)));
    DigestFileName(h.tree(LatestTree(h, a)));
    SimpleText(req.alias.value);
    assert PlainName(r);
    PlainRoutes(r, req.alias.value);
    assert ManifestName(r) != ".." && "objects" != "index.jsonl" by { assert |"objects"| != |"index.jsonl"|; }
    TwoWaypoints(ARTIFACTS, "objects", ManifestName(r));
    ThreeWaypoints(ARTIFACTS, "objects", "trees", req.alias.value);
    assert !IsBlank("objects") by { assert !IsWhitespace("objects"[0]); }
    assert !IsBlank("trees") by { assert !IsWhitespace("trees"[0]); }
    assert INDEX[1] != "objects" by { assert |"objects"| != |"index.jsonl"|; }
  }

  lemma OwnTreeIsPromoted(w: World, a: Data, version: string)
    requires StoreOk(w.hash, w.disk) && OnlyLatest(w.disk) && Layout(w.disk) && w.disk.At(WEIGHTS) == a
    requires '/' !in version && !IsBlank(version)
    ensures Promote(w, OwnTreeRequest(w.hash, a, version)).1.Ok?
  {
    hide IngestPath, IsBlank, OnlyLatest, Layout, PlainRequest, MissesIndex, StoreOk, LatestTree, TreePath, BlobPath,
         ManifestPath, AliasPath, Promote;
    var h, req := w.hash, OwnTreeRequest(w.hash, a, version);
    var sha := h.tree(LatestTree(h, a));
    HashOf(h, w.disk);
    OwnTreeIsPlain(h, a, version);
    LatestIsStored(h, w.disk);
    IngestPathStores(h, w.disk, LATEST);
    ShapeOf(h, w.disk);
    var (d, stored) := IngestPath(h, w.disk, LATEST);
    assert IsDigest(sha) by { DirDigestIsDigest(h, LatestTree(h, a)); }
    DigestHasNoSlash(sha);
    PlainPromotionSucceeds(w, req);
    var m := RowFor(w, req, stored.value);
    assert m.reference == Reference("objects", "trees", version);
    AliasMeetsTree(version, sha);
    ObjectsManifestPath("trees", version);
    OnlyLatestIsClear(d);
    ObjectCanBeWritten(h, d, sha);
    assert |"trees" + "@" + version + ".json"| > 5;
    BesideTheObjects(h, d, "trees" + "@" + version + ".json");
    assert LinkPath(m) == Some(TreePath(sha));
  }

  lemma DirDigestIsDigest(h: Hash, es: seq<TreeEntry>)
    requires Lawful(h)
    ensures IsDigest(h.tree(es))
  {
    hide IsDigest;
  }

  lemma BesideTheObjects(h: Hash, d: Disk, name: string)
    requires OnlyLatest(d) && Layout(d) && name != "blobs" && name != "trees"
    ensures d.CanWrite(OBJECTS + [name])
  {
    var p := OBJECTS + [name];
    assert p[0] == "artifacts" && |"runs"| != |"artifacts"| && p[2] == name;
    forall q | q < p ensures q !in d.names {
      assert |q| <= 2;
      if IsObject(q) { ObjectIsDeeper(q); }
      assert q == WEIGHTS ==> |q| == 5;
    }
    CanWriteIntro(d, p);
  }

  /** Five steps from the empty project, then a promotion that nothing in the code refuses: the finished run's tree is
      gone; every sweep fails if the version's text is no JSON, and takes the run's blob if it is JSON without
      entries. */
  lemma PromotionReplacesOwnTree(h: Hash, json: string -> Option<seq<TreeEntry>>, a: Data, version: string)
    returns (states: seq<World>, steps: seq<Step>, w: World)
    requires Lawful(h) && '/' !in version && !IsBlank(version)
    ensures Ends(h, states, steps, w) && |steps| == 5
    ensures var (w', r) := Promote(w, OwnTreeRequest(h, a, version));
      && r.Ok? && Safe(w) && !Safe(w') && BlobPath(h.file(a.content)) in w.disk.names
      && (w.json(version) == None ==> !Readable(w') && Sweep(w') == w')
      && (w.json(version) == Some([]) ==> BlobPath(h.file(a.content)) !in Sweep(w').disk.names)
  {
    hide Lawful, Ends, OnlyLatest, Layout, LatestLine, Inv, StoreOk, HasTree, Safe, Promote, Sweep, Readable, Roots,
         NoOtherNeeds, OwnTreeRequest, IsBlank, LatestTree, IsDigest;
    states, steps, w := LatestIsSaved(h, json, a);
    states, steps := Completes(h, states, steps, w, "run");
    w := Complete(w, "run");
    EndHasInv(h, states, steps, w);
    StoreOf(w);
    InvIsSafe(w);
    DirDigestIsDigest(h, LatestTree(h, a));
    OwnTreeIsPromoted(w, a, version);
    OwnTreeIsRoot(h, w, a);
    OwnTreeNeeds(h, w, a, version);
  }

  lemma OwnTreeIsRoot(h: Hash, w: World, a: Data)
    requires "run" in w.runs && w.runs["run"].IsRoot() && w.runs["run"].lines == [LatestLine(h, a)]
    ensures TreePath(h.tree(LatestTree(h, a))) in Roots(w)
  {
    hide LatestTree, TreePath, Latest;
    assert w.runs["run"].lines[0].event.objectPath == Some(TreePath(h.tree(LatestTree(h, a))));
    LineIsRoot(w, "run", 0);
  }

  lemma OwnTreeNeeds(h: Hash, w: World, a: Data, version: string)
    requires Inv(w) && w.hash == h && OnlyLatest(w.disk) && HasTree(h, w.disk, a) && w.disk.At(WEIGHTS) == a
    requires w.index == [] && w.runs == map["run" := Run(Completed, false, [LatestLine(h, a)], None)]
    requires TreePath(h.tree(LatestTree(h, a))) in Roots(w) && IsDigest(h.tree(LatestTree(h, a)))
    requires Promote(w, OwnTreeRequest(h, a, version)).1.Ok? && '/' !in version && !IsBlank(version)
    ensures var w' := Promote(w, OwnTreeRequest(h, a, version)).0;
      && !Safe(w') && BlobPath(h.file(a.content)) in w.disk.names
      && (w.json(version) == None ==> !Readable(w') && Sweep(w') == w')
      && (w.json(version) == Some([]) ==> BlobPath(h.file(a.content)) !in Sweep(w').disk.names)
  {
    hide OnlyLatest, LatestLine, Inv, Safe, Promote, Sweep, Readable, Roots, NoOtherNeeds, IsBlank, LatestTree,
         IsDigest, TreePath, BlobPath;
    var sha := h.tree(LatestTree(h, a));
    AliasReplacesTree(w, LATEST, version, sha);
    ReplacedTreeLosesBlobs(w, LATEST, version, sha);
    LayoutIsSeparate(h.file(a.content), sha);
    OnlyTreeIsNeeded(h, w, a, version);
  }

  lemma OnlyTreeIsNeeded(h: Hash, w: World, a: Data, version: string)
    requires Inv(w) && w.hash == h && OnlyLatest(w.disk) && w.disk.At(WEIGHTS) == a
    requires w.index == [] && w.runs == map["run" := Run(Completed, false, [LatestLine(h, a)], None)]
    requires Promote(w, OwnTreeRequest(h, a, version)).1.Ok?
    ensures var w' := Promote(w, OwnTreeRequest(h, a, version)).0;
      NoOtherNeeds(w', TreePath(h.tree(LatestTree(h, a))), BlobPath(h.file(a.content)))
  {
    hide OnlyLatest, LatestLine, Inv, StoreOk, Promote, Roots, IsBlank, LatestTree, TreePath, BlobPath, Files, TreeOf,
         InsertObject;
    var req := OwnTreeRequest(h, a, version);
    StoreOf(w);
    OnlyLatestHas(w.disk);
    LatestFiles(h, w.disk);
    LatestIsApart();
    PromoteDirectory(w, req);
    PromoteKeepsRuns(w, req);
    var (w', r) := Promote(w, req);
    assert w.index + [r.value] == [r.value];
    OnlyRoot(h, w', r.value, a);
  }

  lemma LatestIsApart()
    ensures Apart(LATEST, ARTIFACTS)
  {
    assert |LATEST[0]| != |ARTIFACTS[0]|;
  }

  lemma OnlyRoot(h: Hash, w: World, m: Manifest, a: Data)
    requires w.index == [m] && m.objectPath == TreePath(h.tree(LatestTree(h, a)))
    requires w.runs == map["run" := Run(Completed, false, [LatestLine(h, a)], None)]
    ensures forall p :: p in Roots(w) ==> p == TreePath(h.tree(LatestTree(h, a)))
  {
    hide TreePath, LatestTree;
    LatestAdds([], m);
    assert [] + [m] == [m];
    assert Latest([]) == map[];
  }

  // ---------------------------------------------------------------- two versions, one manifest

  function SlashedRequest(version: string): Request { Request(WEIGHTS, "model", "m", version, None) }

  const ONE_SLASH := "a" + "/" + "b"
  const TWO_SLASHES := "a" + "/" + ("/" + "b")

  lemma SlashedIsNotBlank(version: string)
    requires version == ONE_SLASH || version == TWO_SLASHES
    ensures !IsBlank(version) && !IsBlank("model") && !IsBlank("m")
  {
    assert !IsWhitespace(version[0]) && !IsWhitespace("model"[0]) && !IsWhitespace("m"[0]);
  }

  lemma SlashedRoute(version: string)
    requires version == ONE_SLASH || version == TWO_SLASHES
    ensures ManifestRoute(Reference("model", "m", version)) == Route(ARTIFACTS, ["model", "m@a", "b.json"], true)
    ensures !IsBlank(version) && !IsBlank("model") && !IsBlank("m")
  {
    hide Components, LastPiece, Split, IsBlank;
    var r := Reference("model", "m", version);
    var y := if version == ONE_SLASH then "b" else "/" + "b";
    SlashedIsNotBlank(version);
    SimpleText("model");
    SimpleText("m@a");
    SimpleText("b.json");
    ManifestNameSlash(r, "a", y);
    assert r.name + "@" + "a" == "m@a";
    PartsJoin("", "b.json");
    NoParts();
    assert "" + "/" + "b.json" == "/" + "b" + ".json" && "b" + ".json" == "b.json";
    ManifestNameEnds(r);
  }

  lemma SlashedIsSeparate(version: string)
    requires version == ONE_SLASH || version == TWO_SLASHES
    ensures SeparateRequest(SlashedRequest(version))
  {
    hide ManifestRoute;
    SlashedRoute(version);
    var parts := ["model", "m@a", "b.json"];
    assert parts[1..] == ["m@a", "b.json"] && parts[1..][1..] == ["b.json"] && parts[1..][1..][1..] == [];
    assert |"model"| != |"objects"| && |"model"| != |"materialized"| && |"model"| != |"index.jsonl"|;
  }

  const SLASHED_FILE: Path := ["artifacts", "model", "m@a", "b.json"]

  lemma SlashedEnd(version: string)
    requires version == ONE_SLASH || version == TWO_SLASHES
    ensures End(ManifestRoute(Reference("model", "m", version))) == SLASHED_FILE
  {
    hide ManifestRoute;
    SlashedRoute(version);
    var parts := ["model", "m@a", "b.json"];
    assert parts[1..] == ["m@a", "b.json"] && parts[1..][1..] == ["b.json"] && parts[1..][1..][1..] == [];
  }

  /** The one file, and at most its blob. */
  ghost predicate OnlyWeightsAnd(d: Disk, blob: Path) {
    && WEIGHTS in d.names && (forall p :: p in d.names ==> p == WEIGHTS || p == blob)
    && (forall q :: q in d.dirs ==> q <= WEIGHTS || q <= blob)
  }

  lemma WeightsAreStored(h: Hash, d: Disk)
    requires StoreOk(h, d)
    requires var blob := BlobPath(h.file(d.At(WEIGHTS).content)); OnlyWeightsAnd(d, blob) && blob !in d.dirs
    ensures var (d', r) := IngestPath(h, d, WEIGHTS);
      var blob := BlobPath(h.file(d.At(WEIGHTS).content));
      && r.Ok? && blob in d'.names && OnlyWeightsAnd(d', blob) && '/' !in r.value.sha256
      && StoreOk(h, d') && d'.At(WEIGHTS) == d.At(WEIGHTS)
  {
    hide BlobPath, Honest;
    var sha := h.file(d.At(WEIGHTS).content);
    assert IsDigest(sha);
    DigestHasNoSlash(sha);
    IngestFileStores(h, d, WEIGHTS);
    var blob := BlobPath(sha);
    LayoutIsSeparate(sha, "");
    assert blob[0] == OBJECTS[0] && WEIGHTS[0] == "runs" && |"runs"| != |"artifacts"|;
    forall q | q < blob ensures q !in d.names {
      assert q != WEIGHTS by {
        if q != [] { assert q[0] == blob[0]; }
      }
    }
    CanWriteIntro(d, blob);
    forall q | q in Ancestors(blob) ensures q <= blob { AncestorMember(q, blob); }
  }

  lemma RoomForSlashed(h: Hash, d: Disk)
    requires OnlyWeightsAnd(d, BlobPath(h.file(d.At(WEIGHTS).content)))
    ensures d.CanWrite(SLASHED_FILE)
  {
    var blob := BlobPath(h.file(d.At(WEIGHTS).content));
    assert blob[1] == "objects" && SLASHED_FILE[1] == "model" && |"model"| != |"objects"|;
    assert WEIGHTS[0] == "runs" && |"runs"| != |"artifacts"|;
    assert blob != SLASHED_FILE && |blob| == |WEIGHTS| == 5;
    forall q | q < SLASHED_FILE ensures q !in d.names {
      assert |q| < 4;
    }
    CanWriteIntro(d, SLASHED_FILE);
  }

  /** The first promotion of the file. */
  lemma FirstSlashed(w: World)
    requires StoreOk(w.hash, w.disk)
    requires var blob := BlobPath(w.hash.file(w.disk.At(WEIGHTS).content));
      OnlyWeightsAnd(w.disk, blob) && blob !in w.disk.dirs
    ensures var (w', r) := Promote(w, SlashedRequest(ONE_SLASH));
      && r.Ok? && w'.disk.WellFormed() && w'.hash == w.hash
      && Found(w'.disk, ManifestRoute(Reference("model", "m", ONE_SLASH)))
      && WEIGHTS in w'.disk.names && w'.disk.At(WEIGHTS) == w.disk.At(WEIGHTS)
      && BlobPath(w.hash.file(w.disk.At(WEIGHTS).content)) in w'.disk.names
  {
    hide IngestPath, Deposit, IsBlank, BlobPath, StoreOk, ManifestRoute, Found, FileSystem.Disk.WellFormed,
         FileSystem.Disk.CanWrite;
    var (d, stored) := IngestPath(w.hash, w.disk, WEIGHTS);
    WeightsAreStored(w.hash, w.disk);
    ShapeOf(w.hash, d);
    SlashedRoute(ONE_SLASH);
    SlashedEnd(ONE_SLASH);
    RoomForSlashed(w.hash, d);
    var m := RowFor(w, SlashedRequest(ONE_SLASH), stored.value);
    assert m.reference == Reference("model", "m", ONE_SLASH) && m.alias == None;
    assert ".." !in ["model", "m@a", "b.json"];
    DepositDown(d, ManifestRoute(m.reference), ManifestData(m));
    Deposited(d, ManifestRoute(m.reference), ManifestData(m));
    ObjectShape(w.hash.file(w.disk.At(WEIGHTS).content));
    assert |WEIGHTS| == |BlobPath(w.hash.file(w.disk.At(WEIGHTS).content))| == 5 && |SLASHED_FILE| == 4;
    SameInodes(d, Deposit(d, ManifestRoute(m.reference), ManifestData(m)).0, WEIGHTS);
  }

  lemma SameInodes(d: Disk, d': Disk, p: Path)
    requires d.WellFormed() && p in d.names && p in d'.names && d'.names[p] == d.names[p]
    requires forall i :: i in d.inodes ==> i in d'.inodes && d'.inodes[i] == d.inodes[i]
    ensures d'.At(p) == d.At(p)
  {
  }

  /** And the second: its blob is there, and so is its manifest file. */
  lemma SecondSlashed(w: World)
    requires Lawful(w.hash) && w.disk.WellFormed() && WEIGHTS in w.disk.names
    requires Found(w.disk, ManifestRoute(Reference("model", "m", ONE_SLASH)))
    requires BlobPath(w.hash.file(w.disk.At(WEIGHTS).content)) in w.disk.names
    ensures Promote(w, SlashedRequest(TWO_SLASHES)).1.Ok?
  {
    hide Deposit, IsBlank, BlobPath, ManifestRoute, Lawful, FileSystem.Disk.WellFormed, Passable;
    var sha := w.hash.file(w.disk.At(WEIGHTS).content);
    assert IsDigest(sha) by { FileDigest(w.hash, w.disk.At(WEIGHTS).content); }
    assert w.disk.names[WEIGHTS] in w.disk.inodes by { NamesHaveInodes(w.disk, WEIGHTS); }
    assert IngestPath(w.hash, w.disk, WEIGHTS) == (w.disk, Ok(Stored(sha, FileStorage, BlobPath(sha))));
    SlashedRoute(ONE_SLASH);
    SlashedRoute(TWO_SLASHES);
    var m := RowFor(w, SlashedRequest(TWO_SLASHES), Stored(sha, FileStorage, BlobPath(sha)));
    DepositAgain(w.disk, ManifestRoute(Reference("model", "m", TWO_SLASHES)), ManifestData(m));
  }

  lemma FileDigest(h: Hash, c: Content)
    requires Lawful(h)
    ensures IsDigest(h.file(c))
  {
    hide IsDigest;
  }

  lemma NamesHaveInodes(d: Disk, p: Path)
    requires d.WellFormed() && p in d.names
    ensures d.names[p] in d.inodes
  {
  }

  /** Five steps of the system: a run writes a file, and the file is promoted under two versions that differ by one '/'
      only. The index has both, the first is not described by its row any more. */
  lemma TwoVersionsOneManifest(h: Hash, json: string -> Option<seq<TreeEntry>>, a: Data)
    returns (states: seq<World>, steps: seq<Step>, w: World)
    requires Lawful(h)
    ensures Ends(h, states, steps, w) && |steps| == 5
    ensures |w.index| == 2 && !Agrees(w.disk, w.index)
  {
    hide Lawful, Ends, StoreOk, Promote, SeparateRequest, IsBlank, Agrees, MissesIndex, FileSystem.Disk.WellFormed, Inv,
         OnlyWeightsAnd, BlobPath, SlashedRequest, PromoteAll;
    var w0: World;
    states, steps, w0 := WritesWeights(h, json, a);
    EndHasInv(h, states, steps, w0);
    StoreOf(w0);
    ShapeOf(h, w0.disk);
    SlashedIsSeparate(ONE_SLASH);
    SlashedIsSeparate(TWO_SLASHES);
    FirstSlashed(w0);
    var first, second := SlashedRequest(ONE_SLASH), SlashedRequest(TWO_SLASHES);
    var w1 := Promote(w0, first).0;
    SecondSlashed(w1);
    SeparateMissesIndex(first);
    SeparateMissesIndex(second);
    BothSlashed(w0);
    states, steps := Promotes(h, states, steps, w0, first);
    states, steps := Promotes(h, states, steps, w1, second);
    w := Promote(w1, second).0;
  }

  lemma BothSlashed(w: World)
    requires BothPromoted(w, SlashedRequest(ONE_SLASH), SlashedRequest(TWO_SLASHES))
    ensures var w' := Promote(Promote(w, SlashedRequest(ONE_SLASH)).0, SlashedRequest(TWO_SLASHES)).0;
      !Agrees(w'.disk, w'.index) && |w'.index| == 2
  {
    hide Promote, IsBlank, Agrees, PromoteAll, BothPromoted, Catalogued;
    var first, second := SlashedRequest(ONE_SLASH), SlashedRequest(TWO_SLASHES);
    SlashedRoute(ONE_SLASH);
    SlashedRoute(TWO_SLASHES);
    TwoSlashesDisagree(w, first, second, "a", "b");
    TwoPromoted(w, first, second);
    TwoFiled(w, first, second);
  }

  lemma WritesWeights(h: Hash, json: string -> Option<seq<TreeEntry>>, a: Data)
    returns (states: seq<World>, steps: seq<Step>, w: World)
    requires Lawful(h)
    ensures Ends(h, states, steps, w) && |steps| == 3 && w.index == []
    ensures var blob := BlobPath(h.file(w.disk.At(WEIGHTS).content));
      OnlyWeightsAnd(w.disk, blob) && blob !in w.disk.dirs
  {
    hide Lawful, Ends, BlobPath, OnlyWeightsAnd, Ancestors, Write;
    assert Ends(h, [Start(h, json)], [], Start(h, json)) by { StartIsTidy(h, json); }
    states, steps, w := Starts(h, [Start(h, json)], [], Start(h, json), "run", None);
    var d := w.disk;
    assert Writable(w, WEIGHTS) by { assert WEIGHTS[0] != ARTIFACTS[0] && WEIGHTS[1] == "run"; }
    states, steps := Writes(h, states, steps, w, WEIGHTS, a);
    w := w.(disk := Write(d, WEIGHTS, a));
    WrittenWeights(a, BlobPath(h.file(w.disk.At(WEIGHTS).content)));
    ObjectShape(h.file(w.disk.At(WEIGHTS).content));
  }

  lemma WrittenWeights(a: Data, blob: Path)
    ensures var d := Write(Disk(map[], map[], {[]}, 0), WEIGHTS, a);
      OnlyWeightsAnd(d, blob) && forall q :: q in d.dirs ==> |q| < 5
  {
    forall q | q in Ancestors(WEIGHTS) ensures q <= WEIGHTS && |q| < 5 { AncestorMember(q, WEIGHTS); }
  }

  lemma Promotes(h: Hash, states: seq<World>, steps: seq<Step>, w: World, req: Request)
    returns (states': seq<World>, steps': seq<Step>)
    requires Ends(h, states, steps, w) && SeparateRequest(req)
    ensures Ends(h, states', steps', Promote(w, req).0) && |steps'| == |steps| + 1
  {
    hide Ends, Save, Promote, Restage, Sweep, Write, RemoveRuns, RemoveAll, Unlink, SeparateRequest;
    states', steps' := Takes(h, states, steps, w, PromoteSource(req));
  }
}
