/** `RunSession`: staging artifacts into a run, completing it, and re-staging the checkpoints that
    retention changed. */
module Lifecycle {
  import opened Wrappers
  import opened Text
  import opened FileSystem
  import opened Lab
  import opened Ingest
  import opened Routes
  import opened Catalog

  function OptionalText(value: Option<string>): Option<string> {
    if value.Some? && !IsBlank(value.value) then value else None
  }

  /** `semantic_promote_request` */
  function SemanticRequest(e: Event, source: Path): Result<Option<Request>> {
    var kind := OptionalText(e.artifactKind);
    if kind.None? then Ok(None)
    else
      var name := OptionalText(e.artifactName);
      if name.None? then Err(Artifact)
      else
        var version := if OptionalText(e.artifactVersion).Some? then e.artifactVersion.value
                       else if OptionalText(e.version).Some? then e.version.value else "";
        Ok(Some(Request(source, kind.value, name.value, version, OptionalText(e.alias))))
  }

  /** If the event is promoted, its files stay away from the store. */
  predicate SeparateEvent(e: Event) {
    var request := SemanticRequest(e, []);
    request.Ok? && request.value.Some? ==> SeparateRequest(request.value.value)
  }

  lemma AnySourceSeparates(e: Event, source: Path)
    requires SemanticRequest(e, source).Ok? && SemanticRequest(e, source).value.Some?
    ensures SeparateEvent(e) <==> SeparateRequest(SemanticRequest(e, source).value.value)
  {
    hide IsBlank, SeparateRequest;
    var request := SemanticRequest(e, source).value.value;
    assert SemanticRequest(e, []) == Ok(Some(request.(source := [])));
    SourceIsIrrelevant(request, []);
  }

  lemma SourceIsIrrelevant(req: Request, source: Path)
    ensures SeparateRequest(req.(source := source)) <==> SeparateRequest(req)
  {
    hide IsBlank, IsSeparate;
  }

  function StagedEvent(e: Event, stored: Stored, reference: Option<Reference>): Event {
    e.(sha256 := Some(stored.sha256), storage := Some(stored.storage), objectPath := Some(stored.objectPath),
       reference := if reference.Some? then reference else e.reference)
  }

  lemma StagedIsSeparate(e: Event, stored: Stored, reference: Option<Reference>)
    ensures SeparateEvent(StagedEvent(e, stored, reference)) <==> SeparateEvent(e)
  {
    hide IsBlank, SeparateRequest;
  }

  /** `stage_artifact_into` */
  function StageInto(w: World, e: Event): (World, Result<Event>) {
    if e.path.None? || !w.disk.Exists(e.path.value) || IsBlank(e.name) then (w, Err(Artifact))
    else
      var source := e.path.value;
      var (d, stored) := IngestPath(w.hash, w.disk, source);
      var w1 := w.(disk := d);
      if stored.Err? then (w1, Err(stored.error))
      else
        var semantic := SemanticRequest(e, source);
        if semantic.Err? then (w1, Err(semantic.error))
        else if semantic.value.None? then (w1, Ok(StagedEvent(e, stored.value, None)))
        else
          var (w2, m) := Promote(w1, semantic.value.value);
          if m.Err? then (w2, Err(m.error))
          else (w2, Ok(StagedEvent(e, stored.value, Some(m.value.reference))))
  }

  function SetLines(w: World, id: string, lines: seq<Line>): World
    requires id in w.runs
  {
    w.(runs := w.runs[id := w.runs[id].(lines := lines)])
  }

  /** `save_artifact_reference` */
  function Save(w: World, id: string, e: Event): World
    requires id in w.runs
  {
    var (w1, r) := StageInto(w, e);
    if r.Ok? && id in w1.runs then SetLines(w1, id, w1.runs[id].lines + [Entry(r.value)]) else w1
  }

  predicate IsChanged(line: Line, changed: set<Path>) {
    line.Entry? && line.event.path.Some? && line.event.path.value in changed
  }

  /** The re-staging loop with `done` already rewritten and `rest` still to read. */
  function RestageFrom(w: World, done: seq<Line>, rest: seq<Line>, changed: set<Path>): (World, Result<seq<Line>>)
    decreases |rest|
  {
    if rest == [] then (w, Ok(done))
    else if rest[0].Malformed? then (w, Err(Serialization))
    else if !IsChanged(rest[0], changed) then RestageFrom(w, done + [rest[0]], rest[1..], changed)
    else
      var (w1, r) := StageInto(w, rest[0].event);
      if r.Err? then (w1, Err(r.error)) else RestageFrom(w1, done + [Entry(r.value)], rest[1..], changed)
  }

  /** `restage_run_checkpoints`: the lines are rewritten only when every changed entry was staged. */
  function Restage(w: World, id: string, changed: set<Path>): (World, Result<()>)
    requires id in w.runs
  {
    var (w1, r) := RestageFrom(w, [], w.runs[id].lines, changed);
    if r.Err? then (w1, Err(r.error))
    else (if id in w1.runs then SetLines(w1, id, r.value) else w1, Ok(()))
  }

  lemma PromoteKeepsRuns(w: World, req: Request)
    ensures Promote(w, req).0.runs == w.runs && Promote(w, req).0.hash == w.hash
  {
    hide IngestPath, IsBlank, Deposit, RowFor;
  }

  lemma StageKeepsRuns(w: World, e: Event)
    ensures StageInto(w, e).0.runs == w.runs && StageInto(w, e).0.hash == w.hash
  {
    hide IngestPath, IsBlank, SemanticRequest, Promote;
    if e.path.Some? {
      var (d, stored) := IngestPath(w.hash, w.disk, e.path.value);
      var semantic := SemanticRequest(e, e.path.value);
      if semantic.Ok? && semantic.value.Some? {
        PromoteKeepsRuns(w.(disk := d), semantic.value.value);
      }
    }
  }

  lemma {:induction false} RestageFromKeepsRuns(w: World, done: seq<Line>, rest: seq<Line>, changed: set<Path>)
    ensures RestageFrom(w, done, rest, changed).0.runs == w.runs
    ensures RestageFrom(w, done, rest, changed).0.hash == w.hash
    decreases |rest|
  {
    hide StageInto;
    if rest != [] && rest[0].Entry? {
      if IsChanged(rest[0], changed) {
        StageKeepsRuns(w, rest[0].event);
        var (w1, r) := StageInto(w, rest[0].event);
        if r.Ok? {
          RestageFromKeepsRuns(w1, done + [Entry(r.value)], rest[1..], changed);
        }
      } else {
        RestageFromKeepsRuns(w, done + [rest[0]], rest[1..], changed);
      }
    }
  }

  /** Line by line, the events of changed paths are replaced and all other lines stay. */
  ghost predicate OthersStay(before: seq<Line>, after: seq<Line>, changed: set<Path>) {
    && |after| == |before|
    && forall i :: 0 <= i < |before| ==>
         && before[i].Entry? && after[i].Entry?
         && (before[i].event.path.None? || before[i].event.path.value !in changed ==> after[i] == before[i])
         && after[i].event.path == before[i].event.path && after[i].event.artifactKind == before[i].event.artifactKind
  }

  lemma {:induction false} RestagedOthersStay(w: World, done: seq<Line>, rest: seq<Line>, changed: set<Path>)
    requires RestageFrom(w, done, rest, changed).1.Ok?
    ensures var lines := RestageFrom(w, done, rest, changed).1.value;
      |lines| == |done| + |rest| && lines[..|done|] == done && OthersStay(rest, lines[|done|..], changed)
    decreases |rest|
  {
    hide StageInto;
    if rest != [] {
      var (w1, r) := if IsChanged(rest[0], changed) then StageInto(w, rest[0].event) else (w, Ok(rest[0].event));
      if IsChanged(rest[0], changed) { StagedKeepsKey(w, rest[0].event); }
      var more := done + [Entry(r.value)];
      RestagedOthersStay(w1, more, rest[1..], changed);
      var lines := RestageFrom(w, done, rest, changed).1.value;
      assert lines[..|done|] == lines[..|more|][..|done|];
      assert lines[|done|] == lines[..|more|][|done|];
      assert lines[|done|..] == [lines[|done|]] + lines[|more|..];
    }
  }

  lemma StagedKeepsKey(w: World, e: Event)
    requires StageInto(w, e).1.Ok?
    ensures StageInto(w, e).1.value.path == e.path && StageInto(w, e).1.value.artifactKind == e.artifactKind
    ensures StageInto(w, e).1.value.objectPath.Some?
  {
    hide IngestPath, Promote, SemanticRequest;
  }

  // ---------------------------------------------------------------- what a staged event says

  predicate Filled(text: Option<string>) { text.Some? && !IsBlank(text.value) }

  /** The version an event is promoted under: its artifact version, else its version, else the digest. */
  function VersionFor(e: Event, sha: string): string {
    if Filled(e.artifactVersion) then e.artifactVersion.value
    else if Filled(e.version) then e.version.value
    else sha
  }

  /** A staged event says where its file or directory is stored, and is otherwise the event that was given; a file is
      stored under the digest of its content. */
  lemma StagedSaysWhere(w: World, e: Event)
    requires StageInto(w, e).1.Ok?
    ensures e.path.Some? && w.disk.Exists(e.path.value) && !IsBlank(e.name)
    ensures var staged := StageInto(w, e).1.value;
      && staged.sha256.Some?
      && staged == e.(sha256 := staged.sha256, storage := staged.storage, objectPath := staged.objectPath,
                      reference := staged.reference)
      && (if w.disk.IsFile(e.path.value) then
            && staged.storage == Some(FileStorage) && staged.objectPath == Some(BlobPath(staged.sha256.value))
            && staged.sha256.value == w.hash.file(w.disk.At(e.path.value).content)
          else
            staged.storage == Some(DirectoryStorage) && staged.objectPath == Some(TreePath(staged.sha256.value)))
  {
    hide IngestDirectory, Promote, SemanticRequest, IsBlank, BlobPath, TreePath;
  }

  /** An event with an artifact kind and a name is promoted under them and its version, with its alias; any other event
      is not promoted, and one with a kind but no name is not staged. A file is promoted as the object it is stored
      as. */
  lemma StagedSaysReference(w: World, e: Event)
    requires w.disk.WellFormed() && StageInto(w, e).1.Ok?
    ensures Filled(e.artifactKind) ==> Filled(e.artifactName)
    ensures var (w', staged) := (StageInto(w, e).0, StageInto(w, e).1.value);
      if !Filled(e.artifactKind) then w'.index == w.index && staged.reference == e.reference
      else
        && |w'.index| == |w.index| + 1 && w'.index[..|w.index|] == w.index
        && var row := w'.index[|w.index|];
           && row.reference == Reference(e.artifactKind.value, e.artifactName.value, VersionFor(e, row.sha256))
           && staged.reference == Some(row.reference)
           && row.alias == (if Filled(e.alias) then e.alias else None)
           && Some(row.sourcePath) == e.path && row.createdAt == w.clock
           && (w.disk.IsFile(row.sourcePath) ==>
                 staged == e.(sha256 := Some(row.sha256), storage := Some(row.storage),
                              objectPath := Some(row.objectPath), reference := Some(row.reference)))
  {
    hide Deposit, IngestPath, IsBlank, ManifestRoute, AliasRoute, FileSystem.Disk.WellFormed;
    if e.path.Some? && Filled(e.artifactKind) && Filled(e.artifactName) {
      if w.disk.IsFile(e.path.value) {
        FileIngestedTwice(w.hash, w.disk, e.path.value);
      }
      BlankText();
      var d := IngestPath(w.hash, w.disk, e.path.value).0;
      PromotedRow(w.(disk := d), SemanticRequest(e, e.path.value).value.value);
    }
  }

  lemma PromotedRow(w: World, req: Request)
    requires Promote(w, req).1.Ok?
    ensures var (w', m) := (Promote(w, req).0, Promote(w, req).1.value);
      && w'.index == w.index + [m] && IngestPath(w.hash, w.disk, req.source).1.Ok?
      && m == RowFor(w, req, IngestPath(w.hash, w.disk, req.source).1.value)
  {
    hide Deposit, IngestPath, IsBlank, ManifestRoute, AliasRoute, RowFor;
  }

  lemma BlankText()
    ensures IsBlank("")
  {
  }

  /** Storing a file again finds the same object. */
  lemma FileIngestedTwice(h: Hash, d: Disk, source: Path)
    requires d.WellFormed() && d.IsFile(source)
    ensures var (d1, stored) := IngestPath(h, d, source);
      stored.Ok? ==> IngestPath(h, d1, source) == (d1, stored)
  {
    hide BlobPath;
  }

  // ---------------------------------------------------------------- the operations

  method StageArtifact(lab: Project, e: Event) returns (r: Result<Event>)
    modifies lab
    ensures lab.View() == StageInto(old(lab.View()), e).0
    ensures r == StageInto(old(lab.View()), e).1
  {
    hide IngestPath, IsBlank;
    if e.path.None? || !(e.path.value in lab.names || e.path.value in lab.dirs) || IsBlank(e.name) {
      return Err(Artifact);
    }
    var source := e.path.value;
    var stored := StorePath(lab, source);
    if stored.Err? {
      return Err(stored.error);
    }
    var semantic := SemanticRequest(e, source);
    if semantic.Err? {
      return Err(semantic.error);
    }
    if semantic.value.None? {
      return Ok(StagedEvent(e, stored.value, None));
    }
    var m := PromoteArtifact(lab, semantic.value.value);
    if m.Err? {
      return Err(m.error);
    }
    r := Ok(StagedEvent(e, stored.value, Some(m.value.reference)));
  }

  method SaveArtifactReference(lab: Project, id: string, e: Event) returns (r: Result<Event>)
    requires id in lab.runs
    modifies lab
    ensures lab.View() == Save(old(lab.View()), id, e)
    ensures r == StageInto(old(lab.View()), e).1
    ensures r.Err? ==> lab.runs == old(lab.runs)
    ensures r.Ok? ==>
      lab.runs == old(lab.runs)[id := old(lab.runs)[id].(lines := old(lab.runs)[id].lines + [Entry(r.value)])]
  {
    hide StageInto;
    StageKeepsRuns(lab.View(), e);
    r := StageArtifact(lab, e);
    if r.Ok? {
      var run := lab.runs[id];
      lab.runs := lab.runs[id := run.(lines := run.lines + [Entry(r.value)])];
    }
  }

  method RestageRunCheckpoints(lab: Project, id: string, changed: set<Path>) returns (r: Result<()>)
    requires id in lab.runs
    modifies lab
    ensures lab.View() == Restage(old(lab.View()), id, changed).0
    ensures r == Restage(old(lab.View()), id, changed).1
    ensures r.Err? ==> lab.runs == old(lab.runs)
    ensures r.Ok? ==>
      && id in lab.runs && lab.runs == old(lab.runs)[id := old(lab.runs)[id].(lines := lab.runs[id].lines)]
      && OthersStay(old(lab.runs)[id].lines, lab.runs[id].lines, changed)
  {
    hide StageInto;
    if RestageFrom(lab.View(), [], lab.runs[id].lines, changed).1.Ok? {
      RestagedOthersStay(lab.View(), [], lab.runs[id].lines, changed);
    }
    var content := lab.runs[id].lines;
    var lines: seq<Line> := [];
    RestageFromKeepsRuns(lab.View(), [], content, changed);
    var i := 0;
    while i < |content|
      invariant 0 <= i <= |content|
      invariant RestageFrom(lab.View(), lines, content[i..], changed)
             == RestageFrom(old(lab.View()), [], content, changed)
    {
      var line := content[i];
      assert content[i..][1..] == content[i + 1..];
      if line.Malformed? {
        return Err(Serialization);
      }
      if line.event.path.Some? && line.event.path.value in changed {
        var staged := StageArtifact(lab, line.event);
        if staged.Err? {
          return Err(staged.error);
        }
        lines := lines + [Entry(staged.value)];
      } else {
        lines := lines + [line];
      }
      i := i + 1;
    }
    lab.runs := lab.runs[id := lab.runs[id].(lines := lines)];
    r := Ok(());
  }

  /** `transition`: an illegal change of status is refused and changes nothing. */
  method Transition(lab: Project, id: string, next: Status) returns (r: Result<()>)
    requires id in lab.runs
    modifies lab
    ensures r.Ok? <==> old(lab.runs)[id].status.CanBecome(next)
    ensures lab.View() == if r.Ok? then
        old(lab.View()).(runs := old(lab.runs)[id := old(lab.runs)[id].(status := next)]) else old(lab.View())
  {
    if !lab.runs[id].status.CanBecome(next) {
      return Err(Validation);
    }
    lab.runs := lab.runs[id := lab.runs[id].(status := next)];
    r := Ok(());
  }
}
