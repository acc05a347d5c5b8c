/** Completing a run: strip resume-only files, re-stage what changed, sweep what nothing needs any more,
    then relink, prune and bound the caches. */
module Completion {
  import opened Wrappers
  import opened Order
  import opened Text
  import opened FileSystem
  import opened Lab
  import opened Ingest
  import opened Routes
  import opened Materialize
  import opened Relink
  import opened Catalog
  import opened Gc
  import opened Glob
  import opened Retention
  import opened Lifecycle
  import opened Prune
  import opened Safety
  import opened System

  // ---------------------------------------------------------------- the steps whose order matters

  function AsSet(paths: seq<Path>): set<Path> { set q | q in paths }

  /** Strip, re-stage and sweep; the flag says whether all of it succeeded. */
  ghost function Reclaim(w: World, id: string, policy: Policy, clues: Clues): (World, bool)
    requires id in w.runs
  {
    var changed := ChangedDirs(w.disk, OutputsDir(id), policy, clues);
    var w1 := w.(disk := Retain(w.disk, OutputsDir(id), policy, clues));
    if changed == [] then (w1, true)
    else
      var (w2, r) := Restage(w1, id, AsSet(changed));
      if r.Err? || !Readable(w2) then (w2, false) else (Sweep(w2), true)
  }

  // ---------------------------------------------------------------- what re-staging records

  /** The digest of the tree of the files in `dir`. */
  function DirDigest(h: Hash, d: Disk, dir: Path): string {
    h.tree(TreeOf(h, Files(d, dir)))
  }

  /** What a staged directory is promoted as. */
  function RequestOf(e: Event): Option<Request> {
    if e.path.None? then None
    else
      var request := SemanticRequest(e, e.path.value);
      if request.Ok? then request.value else None
  }

  /** The reference under which the directory `dir` is promoted: an explicit version, else its digest. */
  function StagedReference(h: Hash, d: Disk, dir: Path, e: Event): Option<Reference> {
    var request := RequestOf(e);
    if request.None? then None
    else
      var version := if IsBlank(request.value.version) then DirDigest(h, d, dir) else request.value.version;
      Some(Reference(request.value.kind, request.value.name, version))
  }

  function StagedDirectory(h: Hash, d: Disk, dir: Path): Stored {
    Stored(DirDigest(h, d, dir), DirectoryStorage, TreePath(DirDigest(h, d, dir)))
  }

  /** The line after staging its directory as it is on disk `d`. */
  function NewLine(h: Hash, d: Disk, changed: set<Path>, line: Line): Line {
    if !IsChanged(line, changed) then line
    else
      var dir := line.event.path.value;
      Entry(StagedEvent(line.event, StagedDirectory(h, d, dir), StagedReference(h, d, dir, line.event)))
  }

  function NewLines(h: Hash, d: Disk, changed: set<Path>, lines: seq<Line>): (out: seq<Line>)
    ensures |out| == |lines| && forall i :: 0 <= i < |lines| ==> out[i] == NewLine(h, d, changed, lines[i])
  {
    seq(|lines|, i requires 0 <= i < |lines| => NewLine(h, d, changed, lines[i]))
  }

  /** A changed line that is promoted as well. */
  predicate Semantic(line: Line, changed: set<Path>) {
    IsChanged(line, changed) && RequestOf(line.event).Some?
  }

  /** The reference of a changed line that is promoted. */
  function LineReference(h: Hash, d: Disk, changed: set<Path>, line: Line): Option<Reference> {
    if Semantic(line, changed) then StagedReference(h, d, line.event.path.value, line.event) else None
  }

  /** The row a changed line adds to the index. */
  function RowsOf(h: Hash, d: Disk, changed: set<Path>, line: Line, clock: nat): seq<Manifest> {
    if !Semantic(line, changed) then []
    else
      var dir := line.event.path.value;
      [Manifest(StagedReference(h, d, dir, line.event).value, DirDigest(h, d, dir), DirectoryStorage,
                TreePath(DirDigest(h, d, dir)), dir, RequestOf(line.event).value.alias, clock)]
  }

  function NewRows(h: Hash, d: Disk, changed: set<Path>, lines: seq<Line>, clock: nat): seq<Manifest> {
    if lines == [] then []
    else
      var rows := RowsOf(h, d, changed, lines[0], clock);
      rows + NewRows(h, d, changed, lines[1..], clock + |rows|)
  }

  /** The tree of `dir` is in the store. */
  ghost predicate TreeStored(h: Hash, d: Disk, dir: Path) {
    var p := TreePath(DirDigest(h, d, dir));
    p in d.names && d.At(p).content == TreeDoc(TreeOf(h, Files(d, dir)))
  }

  // ---------------------------------------------------------------- staging one directory

  /** Directories of run outputs, and nothing of the store. */
  ghost predicate ChangedAreOutputs(d: Disk, changed: set<Path>) {
    forall q :: q in changed ==> q in d.dirs && Apart(q, ARTIFACTS)
  }

  lemma ApartFromStore(dir: Path)
    requires Apart(dir, ARTIFACTS)
    ensures Apart(dir, OBJECTS)
    ensures forall rel: Path :: !(ARTIFACTS <= dir + rel)
  {
    forall rel: Path ensures !(ARTIFACTS <= dir + rel) {
      if ARTIFACTS <= dir + rel {
        PrefixesCompare(dir, ARTIFACTS, dir + rel);
      }
    }
    assert OBJECTS[..1] == ARTIFACTS;
    if dir <= OBJECTS {
      PrefixesCompare(dir, ARTIFACTS, OBJECTS);
    }
    assert OBJECTS <= dir ==> ARTIFACTS <= dir;
  }

  /** Outside the store a directory keeps its files while objects and catalog files are added. */
  lemma ExtendsKeepsFiles(d: Disk, d': Disk, dir: Path)
    requires d.WellFormed() && d'.WellFormed() && Extends(d, d') && Apart(dir, ARTIFACTS)
    ensures Files(d', dir) == Files(d, dir)
  {
    hide RelFiles, Files;
    ApartFromStore(dir);
    assert OBJECTS[..1] == ARTIFACTS;
    forall rel ensures (rel in Files(d', dir) <==> rel in Files(d, dir))
                    && (rel in Files(d, dir) ==> Files(d', dir)[rel] == Files(d, dir)[rel]) {
      FilesMember(d, dir, rel);
      FilesMember(d', dir, rel);
      assert !(ARTIFACTS <= dir + rel);
      CatalogIsApartFrom(dir + rel);
      assert OBJECTS <= dir + rel ==> ARTIFACTS <= dir + rel;
    }
  }

  lemma SameStaging(h: Hash, d: Disk, d': Disk, dir: Path, e: Event)
    requires Files(d', dir) == Files(d, dir)
    ensures DirDigest(h, d', dir) == DirDigest(h, d, dir)
    ensures StagedReference(h, d', dir, e) == StagedReference(h, d, dir, e)
  {
  }

  lemma DirIsNoFile(d: Disk, dir: Path)
    requires d.WellFormed() && dir in d.dirs
    ensures dir !in d.names
  {
    if dir in d.names { FileIsNoDir(d, dir); }
  }

  lemma DirectoryIsStored(h: Hash, d: Disk, dir: Path)
    requires StoreOk(h, d) && dir in d.dirs && Apart(dir, ARTIFACTS)
    ensures var (d', r) := IngestPath(h, d, dir);
      && StoreOk(h, d') && Grows(d, d') && Files(d', dir) == Files(d, dir)
      && (r.Ok? ==> r.value == StagedDirectory(h, d, dir) && TreeStored(h, d', dir))
  {
    hide TreeOf, Files, Honest, FileSystem.Disk.WellFormed, Lawful, BlobsLive, Grows, Extends;
    DirIsNoFile(d, dir);
    IngestDirectoryStores(h, d, dir);
    var d' := IngestPath(h, d, dir).0;
    ShapesOf(h, d, d');
    GrowsExtends(d, d');
    ExtendsKeepsFiles(d, d', dir);
  }

  lemma TreeStaysStored(h: Hash, d: Disk, d': Disk, dir: Path)
    requires TreeStored(h, d, dir) && ObjectsStay(d, d') && Files(d', dir) == Files(d, dir)
    ensures TreeStored(h, d', dir)
  {
    hide TreeOf, Files;
    LayoutIsSeparate(DirDigest(h, d, dir), "");
  }

  lemma PromoteDirectory(w: World, req: Request)
    requires StoreOk(w.hash, w.disk) && req.source in w.disk.dirs && Apart(req.source, ARTIFACTS)
    requires Promote(w, req).1.Ok?
    ensures var (w', r) := Promote(w, req);
      var digest := DirDigest(w.hash, w.disk, req.source);
      var m := Manifest(Reference(req.kind, req.name, if IsBlank(req.version) then digest else req.version),
                        digest, DirectoryStorage, TreePath(digest), req.source, req.alias, w.clock);
      r.value == m && w'.index == w.index + [m] && w'.clock == w.clock + 1
  {
    hide IngestPath, IsBlank, Deposit, ManifestRoute, AliasRoute, StoreOk, DirDigest, TreeStored, Grows, LinkAlias,
         Files, TreePath;
    DirectoryIsStored(w.hash, w.disk, req.source);
    var (d, stored) := IngestPath(w.hash, w.disk, req.source);
    assert stored == Ok(StagedDirectory(w.hash, w.disk, req.source));
    var m := RowFor(w, req, stored.value);
    var d1 := Deposit(d, ManifestRoute(m.reference), ManifestData(m)).0;
    LinkKeepsIndex(w.(disk := d1, index := w.index + [m], clock := w.clock + 1), m);
  }

  /** Staging a directory: what it returns, what it adds to the index, and the tree it leaves in the store. */
  lemma StagesDirectory(w: World, e: Event, dir: Path)
    requires Inv(w) && SeparateEvent(e) && e.path == Some(dir) && dir in w.disk.dirs && Apart(dir, ARTIFACTS)
    requires StageInto(w, e).1.Ok?
    ensures var (w', r) := StageInto(w, e);
      var rows := RowsOf(w.hash, w.disk, {dir}, Entry(e), w.clock);
      && Inv(w') && w'.hash == w.hash && w'.runs == w.runs && ObjectsStay(w.disk, w'.disk) && Extends(w.disk, w'.disk)
      && Entry(r.value) == NewLine(w.hash, w.disk, {dir}, Entry(e))
      && w'.index == w.index + rows && w'.clock == w.clock + |rows|
      && TreeStored(w.hash, w'.disk, dir) && Files(w'.disk, dir) == Files(w.disk, dir)
  {
    hide Inv, IngestPath, IsBlank, StoreOk, Promote, SemanticRequest, Grows, ObjectsStay, Extends, SeparateEvent,
         SeparateRequest, LineOk, TreeStored, Files, TreeOf, FileSystem.Disk.WellFormed, TreePath;
    StoreOf(w);
    StageKeepsInv(w, e);
    StageSparesObjects(w, e);
    StageKeepsRuns(w, e);
    var (w', r) := StageInto(w, e);
    StoreOf(w');
    ShapesOf(w.hash, w.disk, w'.disk);
    ExtendsKeepsFiles(w.disk, w'.disk, dir);
    DirectoryIsStored(w.hash, w.disk, dir);
    var (d, stored) := IngestPath(w.hash, w.disk, dir);
    var semantic := SemanticRequest(e, dir);
    if semantic.value.Some? {
      var w1 := w.(disk := d);
      var request := semantic.value.value;
      RequestSource(e, dir);
      GrowsKeepsInv(w, d);
      GrowsKeepsDirs(w.disk, d);
      PromoteDirectory(w1, request);
      AnySourceSeparates(e, dir);
      PromoteSparesObjects(w1, request);
      TreeStaysStored(w.hash, d, w'.disk, dir);
    } else {
      assert w.index + [] == w.index;
    }
  }

  lemma RequestSource(e: Event, source: Path)
    ensures var r := SemanticRequest(e, source); r.Ok? && r.value.Some? ==> r.value.value.source == source
  {
  }

  lemma GrowsKeepsDirs(d: Disk, d': Disk)
    requires Grows(d, d')
    ensures d.dirs <= d'.dirs
  {
  }

  // ---------------------------------------------------------------- the re-staging loop

  lemma SameNewLines(h: Hash, d: Disk, d': Disk, changed: set<Path>, lines: seq<Line>)
    requires forall q :: q in changed ==> Files(d', q) == Files(d, q)
    ensures NewLines(h, d', changed, lines) == NewLines(h, d, changed, lines)
  {
    hide Files, TreeOf, StagedReference, DirDigest;
    forall i | 0 <= i < |lines| ensures NewLine(h, d', changed, lines[i]) == NewLine(h, d, changed, lines[i]) {
      if IsChanged(lines[i], changed) {
        SameStaging(h, d, d', lines[i].event.path.value, lines[i].event);
      }
    }
  }

  lemma {:induction false} SameNewRows(h: Hash, d: Disk, d': Disk, changed: set<Path>, lines: seq<Line>, clock: nat)
    requires forall q :: q in changed ==> Files(d', q) == Files(d, q)
    ensures NewRows(h, d', changed, lines, clock) == NewRows(h, d, changed, lines, clock)
  {
    hide Files, TreeOf, StagedReference, DirDigest, RequestOf;
    if lines != [] {
      if IsChanged(lines[0], changed) {
        SameStaging(h, d, d', lines[0].event.path.value, lines[0].event);
      }
      SameNewRows(h, d, d', changed, lines[1..], clock + |RowsOf(h, d, changed, lines[0], clock)|);
    }
  }

  /** Only whether its own directory changed matters to a line. */
  lemma OneChanged(h: Hash, d: Disk, changed: set<Path>, e: Event, dir: Path, clock: nat)
    requires e.path == Some(dir) && dir in changed
    ensures NewLine(h, d, {dir}, Entry(e)) == NewLine(h, d, changed, Entry(e))
    ensures RowsOf(h, d, {dir}, Entry(e), clock) == RowsOf(h, d, changed, Entry(e), clock)
  {
    hide RequestOf, StagedReference, DirDigest;
  }

  /** The trees of all changed directories that `lines` name are stored. */
  ghost predicate TreesStored(h: Hash, d: Disk, changed: set<Path>, lines: seq<Line>) {
    forall i :: 0 <= i < |lines| && IsChanged(lines[i], changed) ==> TreeStored(h, d, lines[i].event.path.value)
  }

  /** Re-staging rewrites exactly the changed lines, each to the tree of the files its directory has now; it adds
      exactly the rows of the promoted ones, in order, and leaves every named tree in the store. */
  lemma {:induction false} RestageRewrites(w: World, done: seq<Line>, rest: seq<Line>, changed: set<Path>)
    requires Inv(w) && LinesSeparate(rest) && ChangedAreOutputs(w.disk, changed)
    requires RestageFrom(w, done, rest, changed).1.Ok?
    ensures var (w', r) := RestageFrom(w, done, rest, changed);
      && Inv(w') && w'.hash == w.hash && ObjectsStay(w.disk, w'.disk) && Extends(w.disk, w'.disk)
      && r.value == done + NewLines(w.hash, w.disk, changed, rest)
      && w'.index == w.index + NewRows(w.hash, w.disk, changed, rest, w.clock)
      && TreesStored(w.hash, w'.disk, changed, rest)
    decreases |rest|
  {
    hide Inv, StageInto, ObjectsStay, Extends, Apart, TreeStored, SeparateEvent, NewLine, RowsOf, Files, TreeOf,
         FileSystem.Disk.WellFormed;
    var (w', r) := RestageFrom(w, done, rest, changed);
    var h := w.hash;
    if rest == [] {
      ObjectsStaySame(w.disk);
      ExtendsSame(w.disk);
      assert done + NewLines(h, w.disk, changed, rest) == done;
      assert w.index + [] == w.index;
    } else {
      var line, tail := rest[0], rest[1..];
      SeparateTail(rest);
      if IsChanged(line, changed) {
        var dir := line.event.path.value;
        var (w1, staged) := StageInto(w, line.event);
        StagesDirectory(w, line.event, dir);
        OneChanged(h, w.disk, changed, line.event, dir, w.clock);
        StillOutputs(w.disk, w1.disk, changed);
        RestageRewrites(w1, done + [Entry(staged.value)], tail, changed);
        ObjectsStayChains(w.disk, w1.disk, w'.disk);
        ExtendsChains(w.disk, w1.disk, w'.disk);
        SameOutputs(w, w1, changed);
        SameNewLines(h, w.disk, w1.disk, changed, tail);
        SameNewRows(h, w.disk, w1.disk, changed, tail, w1.clock);
        KeptTree(w1, w', dir);
        NewLinesStep(h, w.disk, changed, rest, done);
        RowsJoin(w.index, RowsOf(h, w.disk, changed, line, w.clock), NewRows(h, w.disk, changed, tail, w1.clock));
        StoredStep(h, w'.disk, changed, rest);
      } else {
        RestageRewrites(w, done + [line], tail, changed);
        NewLinesStep(h, w.disk, changed, rest, done);
        UnchangedLine(h, w.disk, changed, line, w.clock);
        assert [] + NewRows(h, w.disk, changed, tail, w.clock) == NewRows(h, w.disk, changed, tail, w.clock);
        StoredStep(h, w'.disk, changed, rest);
      }
    }
  }

  lemma UnchangedLine(h: Hash, d: Disk, changed: set<Path>, line: Line, clock: nat)
    requires !IsChanged(line, changed)
    ensures NewLine(h, d, changed, line) == line && RowsOf(h, d, changed, line, clock) == []
  {
  }

  lemma SeparateTail(lines: seq<Line>)
    requires LinesSeparate(lines) && lines != []
    ensures LinesSeparate(lines[1..]) && (lines[0].Entry? ==> SeparateEvent(lines[0].event))
  {
    hide SeparateEvent;
  }

  lemma StillOutputs(d: Disk, d': Disk, changed: set<Path>)
    requires ChangedAreOutputs(d, changed) && Extends(d, d')
    ensures ChangedAreOutputs(d', changed)
  {
  }

  lemma SameOutputs(w: World, w': World, changed: set<Path>)
    requires Inv(w) && Inv(w') && Extends(w.disk, w'.disk) && ChangedAreOutputs(w.disk, changed) && w'.hash == w.hash
    ensures forall q :: q in changed ==> Files(w'.disk, q) == Files(w.disk, q)
  {
    hide Inv, Extends, Files, FileSystem.Disk.WellFormed;
    StoreOf(w);
    StoreOf(w');
    ShapesOf(w.hash, w.disk, w'.disk);
    forall q | q in changed ensures Files(w'.disk, q) == Files(w.disk, q) {
      ExtendsKeepsFiles(w.disk, w'.disk, q);
    }
  }

  lemma KeptTree(w: World, w': World, dir: Path)
    requires Inv(w) && Inv(w') && Extends(w.disk, w'.disk) && ObjectsStay(w.disk, w'.disk) && w'.hash == w.hash
    requires Apart(dir, ARTIFACTS) && TreeStored(w.hash, w.disk, dir)
    ensures TreeStored(w.hash, w'.disk, dir)
  {
    hide Inv, Extends, ObjectsStay, Files, TreeOf, TreeStored, FileSystem.Disk.WellFormed;
    StoreOf(w);
    StoreOf(w');
    ShapesOf(w.hash, w.disk, w'.disk);
    ExtendsKeepsFiles(w.disk, w'.disk, dir);
    TreeStaysStored(w.hash, w.disk, w'.disk, dir);
  }

  lemma NewLinesStep(h: Hash, d: Disk, changed: set<Path>, rest: seq<Line>, done: seq<Line>)
    requires rest != []
    ensures done + [NewLine(h, d, changed, rest[0])] + NewLines(h, d, changed, rest[1..])
         == done + NewLines(h, d, changed, rest)
  {
    hide NewLine;
    var all := NewLines(h, d, changed, rest);
    assert all == [all[0]] + NewLines(h, d, changed, rest[1..]);
  }

  lemma RowsJoin(index: seq<Manifest>, a: seq<Manifest>, b: seq<Manifest>)
    ensures index + a + b == index + (a + b)
  {
  }

  lemma StoredStep(h: Hash, d: Disk, changed: set<Path>, rest: seq<Line>)
    requires rest != [] && TreesStored(h, d, changed, rest[1..])
    requires IsChanged(rest[0], changed) ==> TreeStored(h, d, rest[0].event.path.value)
    ensures TreesStored(h, d, changed, rest)
  {
    hide TreeStored;
    forall i | 0 <= i < |rest| && IsChanged(rest[i], changed) ensures TreeStored(h, d, rest[i].event.path.value) {
      if i > 0 {
        assert rest[i] == rest[1..][i - 1];
      }
    }
  }

  // ---------------------------------------------------------------- which rows are the latest afterwards

  ghost predicate SameRow(a: seq<Manifest>, b: seq<Manifest>, k: Reference) {
    (k in Latest(a) <==> k in Latest(b)) && (k in Latest(a) ==> Latest(a)[k] == Latest(b)[k])
  }

  /** Line `j` is the last of the promoted ones with this reference. */
  ghost predicate IsLastOf(h: Hash, d: Disk, changed: set<Path>, lines: seq<Line>, k: Reference, j: nat) {
    && j < |lines| && LineReference(h, d, changed, lines[j]) == Some(k)
    && forall l :: j < l < |lines| ==> LineReference(h, d, changed, lines[l]) != Some(k)
  }

  ghost predicate IsPromoted(h: Hash, d: Disk, changed: set<Path>, lines: seq<Line>, k: Reference) {
    exists i :: 0 <= i < |lines| && LineReference(h, d, changed, lines[i]) == Some(k)
  }

  lemma LastExists(h: Hash, d: Disk, changed: set<Path>, lines: seq<Line>, k: Reference) returns (j: nat)
    requires IsPromoted(h, d, changed, lines, k)
    ensures IsLastOf(h, d, changed, lines, k, j)
  {
    hide LineReference;
    var i :| 0 <= i < |lines| && LineReference(h, d, changed, lines[i]) == Some(k);
    j := |lines| - 1;
    while LineReference(h, d, changed, lines[j]) != Some(k)
      invariant i <= j < |lines|
      invariant forall l :: j < l < |lines| ==> LineReference(h, d, changed, lines[l]) != Some(k)
      decreases j
    {
      j := j - 1;
    }
  }

  function LineDir(line: Line): Path {
    if line.Entry? && line.event.path.Some? then line.event.path.value else []
  }

  /** The row of a re-staged directory. */
  predicate RowOfDir(m: Manifest, h: Hash, d: Disk, dir: Path) {
    m.sha256 == DirDigest(h, d, dir) && m.objectPath == TreePath(DirDigest(h, d, dir))
  }

  lemma RowsOfLine(h: Hash, d: Disk, changed: set<Path>, line: Line, clock: nat, index: seq<Manifest>)
    ensures var rows := RowsOf(h, d, changed, line, clock);
      && (LineReference(h, d, changed, line).None? ==> rows == [])
      && (LineReference(h, d, changed, line).Some? ==>
            |rows| == 1 && Some(rows[0].reference) == LineReference(h, d, changed, line)
            && RowOfDir(rows[0], h, d, LineDir(line)))
  {
    hide DirDigest, RequestOf;
  }

  lemma LatestOfOne(index: seq<Manifest>, m: Manifest)
    ensures m.reference in Latest(index + [m]) && Latest(index + [m])[m.reference] == m
    ensures forall k :: k != m.reference ==> SameRow(index + [m], index, k)
  {
    LatestAdds(index, m);
  }

  lemma TailLines(h: Hash, d: Disk, changed: set<Path>, lines: seq<Line>, k: Reference)
    requires lines != []
    ensures IsPromoted(h, d, changed, lines, k) <==>
            LineReference(h, d, changed, lines[0]) == Some(k) || IsPromoted(h, d, changed, lines[1..], k)
    ensures forall j: nat :: 0 < j < |lines| ==>
              (IsLastOf(h, d, changed, lines, k, j) <==> IsLastOf(h, d, changed, lines[1..], k, j - 1))
    ensures IsLastOf(h, d, changed, lines, k, 0) ==> !IsPromoted(h, d, changed, lines[1..], k)
  {
    hide LineReference;
    var tail := lines[1..];
    assert forall l :: 0 <= l < |tail| ==> tail[l] == lines[l + 1];
    assert forall l :: 0 < l < |lines| ==> lines[l] == tail[l - 1];
    forall j: nat | 0 < j < |lines|
      ensures IsLastOf(h, d, changed, lines, k, j) <==> IsLastOf(h, d, changed, tail, k, j - 1)
    {
      if IsLastOf(h, d, changed, tail, k, j - 1) {
        forall l | j < l < |lines| ensures LineReference(h, d, changed, lines[l]) != Some(k) {
          assert LineReference(h, d, changed, tail[l - 1]) != Some(k);
        }
      }
      if IsLastOf(h, d, changed, lines, k, j) {
        forall l | j - 1 < l < |tail| ensures LineReference(h, d, changed, tail[l]) != Some(k) {
          assert LineReference(h, d, changed, lines[l + 1]) != Some(k);
        }
      }
    }
  }

  /** A reference that no line is promoted under keeps its row. */
  lemma {:induction false} LatestUnpromoted(h: Hash, d: Disk, changed: set<Path>, lines: seq<Line>, clock: nat,
                                            index: seq<Manifest>, k: Reference)
    requires !IsPromoted(h, d, changed, lines, k)
    ensures SameRow(index + NewRows(h, d, changed, lines, clock), index, k)
    decreases |lines|
  {
    hide LineReference, RowsOf, RowOfDir, Latest, IsPromoted, IsLastOf;
    if lines == [] {
      assert index + [] == index;
    } else {
      var rows := RowsOf(h, d, changed, lines[0], clock);
      TailLines(h, d, changed, lines, k);
      RowsOfLine(h, d, changed, lines[0], clock, index);
      RowsJoin(index, rows, NewRows(h, d, changed, lines[1..], clock + |rows|));
      LatestUnpromoted(h, d, changed, lines[1..], clock + |rows|, index + rows, k);
      if rows == [] {
        assert index + rows == index;
      } else {
        var m := rows[0];
        assert rows == [m] && m.reference != k;
        LatestOfOne(index, m);
        assert SameRow(index + [m], index, k);
      }
    }
  }

  /** A reference that lines are promoted under has the row of the last of them. */
  lemma {:induction false} LatestPromoted(h: Hash, d: Disk, changed: set<Path>, lines: seq<Line>, clock: nat,
                                          index: seq<Manifest>, k: Reference, j: nat)
    requires IsLastOf(h, d, changed, lines, k, j)
    ensures var after := index + NewRows(h, d, changed, lines, clock);
      k in Latest(after) && RowOfDir(Latest(after)[k], h, d, LineDir(lines[j]))
    decreases |lines|
  {
    hide LineReference, RowsOf, RowOfDir, Latest, IsPromoted;
    var rows := RowsOf(h, d, changed, lines[0], clock);
    var rest := NewRows(h, d, changed, lines[1..], clock + |rows|);
    TailLines(h, d, changed, lines, k);
    RowsOfLine(h, d, changed, lines[0], clock, index);
    RowsJoin(index, rows, rest);
    if j == 0 {
      assert rows == [rows[0]];
      LatestOfOne(index, rows[0]);
      LatestUnpromoted(h, d, changed, lines[1..], clock + |rows|, index + rows, k);
    } else {
      LatestPromoted(h, d, changed, lines[1..], clock + |rows|, index + rows, k, j - 1);
    }
  }

  // ---------------------------------------------------------------- the pipeline

  lemma ChangedAreApart(w: World, id: string, policy: Policy, clues: Clues)
    ensures ChangedAreOutputs(Retain(w.disk, OutputsDir(id), policy, clues),
                              AsSet(ChangedDirs(w.disk, OutputsDir(id), policy, clues)))
  {
    hide ChangedDirs, Stripped;
    LayoutApart();
    forall q | q in ChangedDirs(w.disk, OutputsDir(id), policy, clues) ensures q in w.disk.dirs && Apart(q, ARTIFACTS) {
      ChangedIsOutput(w.disk, OutputsDir(id), policy, clues, q);
      assert RUNS <= q;
      ApartBelow(RUNS, ARTIFACTS, q);
    }
  }

  /** The states of the pipeline: stripped, re-staged, swept. */
  lemma ReclaimStates(w: World, id: string, policy: Policy, clues: Clues) returns (w1: World, w2: World)
    requires Inv(w) && id in w.runs && Reclaim(w, id, policy, clues).1
    requires ChangedDirs(w.disk, OutputsDir(id), policy, clues) != []
    ensures w1 == w.(disk := Retain(w.disk, OutputsDir(id), policy, clues))
    ensures var changed := AsSet(ChangedDirs(w.disk, OutputsDir(id), policy, clues));
      && Restage(w1, id, changed).1.Ok? && w2 == Restage(w1, id, changed).0
      && Inv(w1) && Inv(w2) && Reclaim(w, id, policy, clues).0 == Sweep(w2)
  {
    hide Inv, RestageFrom, Retain, ChangedDirs, Sweep, Readable;
    var changed := AsSet(ChangedDirs(w.disk, OutputsDir(id), policy, clues));
    w1 := w.(disk := Retain(w.disk, OutputsDir(id), policy, clues));
    RetentionKeepsInv(w, id, policy, clues);
    RestageRunKeepsInv(w1, id, changed);
    w2 := Restage(w1, id, changed).0;
  }

  /** A successful re-staging is the loop over the lines, followed by one rewrite of them. */
  lemma RestageShape(w: World, id: string, changed: set<Path>)
    requires id in w.runs && Restage(w, id, changed).1.Ok?
    ensures var (w', r) := RestageFrom(w, [], w.runs[id].lines, changed);
      var w2 := Restage(w, id, changed).0;
      r.Ok? && w2 == w'.(runs := w.runs[id := w.runs[id].(lines := r.value)]) && w2.hash == w.hash
  {
    hide RestageFrom;
    RestageFromKeepsRuns(w, [], w.runs[id].lines, changed);
  }

  /** Everything the first two stages of the pipeline leave, said from the stripped disk. */
  ghost predicate RestagedAs(w: World, id: string, policy: Policy, clues: Clues, w2: World)
    requires id in w.runs
  {
    var d1 := Retain(w.disk, OutputsDir(id), policy, clues);
    var changed := AsSet(ChangedDirs(w.disk, OutputsDir(id), policy, clues));
    && w2.hash == w.hash
    && w2.runs == w.runs[id := w.runs[id].(lines := NewLines(w.hash, d1, changed, w.runs[id].lines))]
    && w2.index == w.index + NewRows(w.hash, d1, changed, w.runs[id].lines, w.clock)
    && TreesStored(w.hash, w2.disk, changed, w.runs[id].lines)
    && (forall q :: q in changed ==> Files(w2.disk, q) == Files(d1, q) && Apart(q, OBJECTS))
    && ObjectsStay(w.disk, w2.disk)
  }

  lemma RestagedWorld(w: World, id: string, policy: Policy, clues: Clues) returns (w2: World)
    requires Inv(w) && id in w.runs && Reclaim(w, id, policy, clues).1
    requires ChangedDirs(w.disk, OutputsDir(id), policy, clues) != []
    ensures Inv(w2) && RestagedAs(w, id, policy, clues, w2) && Reclaim(w, id, policy, clues).0 == Sweep(w2)
  {
    hide Inv, RestageFrom, Retain, ChangedDirs, Sweep, Readable, ObjectsStay, Extends, NewLine, RowsOf, TreeStored,
         Files,
         Restage, Reclaim, LinesSeparate;
    var w1: World;
    w1, w2 := ReclaimStates(w, id, policy, clues);
    var lines := w.runs[id].lines;
    var changed := AsSet(ChangedDirs(w.disk, OutputsDir(id), policy, clues));
    ChangedAreApart(w, id, policy, clues);
    LinesOfRunSeparate(w1, id);
    RestageShape(w1, id, changed);
    RestageRewrites(w1, [], lines, changed);
    var w' := RestageFrom(w1, [], lines, changed).0;
    assert [] + NewLines(w.hash, w1.disk, changed, lines) == NewLines(w.hash, w1.disk, changed, lines);
    SameOutputs(w1, w', changed);
    forall q | q in changed ensures Apart(q, OBJECTS) { ApartFromStore(q); }
    RetentionSparesObjects(w, id, policy, clues);
    ObjectsStayChains(w.disk, w1.disk, w'.disk);
  }

  lemma RetentionSparesObjects(w: World, id: string, policy: Policy, clues: Clues)
    ensures ObjectsStay(w.disk, Retain(w.disk, OutputsDir(id), policy, clues))
  {
    hide ChangedDirs, MatchesAny;
    forall p | p in Stripped(w.disk, policy.globs, ChangedDirs(w.disk, OutputsDir(id), policy, clues))
      ensures !(OBJECTS <= p)
    {
      ChangedIsOutput(w.disk, OutputsDir(id), policy, clues, Parent(p));
      assert OutputsDir(id) <= p && p[0] == OutputsDir(id)[0];
    }
  }

  lemma TreeSurvivesSweep(w: World, id: string, i: nat, dir: Path)
    requires Inv(w) && id in w.runs && w.runs[id].IsRoot() && i < |w.runs[id].lines| && Apart(dir, OBJECTS)
    requires w.runs[id].lines[i].Entry?
    requires w.runs[id].lines[i].event.objectPath == Some(TreePath(DirDigest(w.hash, w.disk, dir)))
    requires TreeStored(w.hash, w.disk, dir)
    ensures TreeStored(w.hash, Sweep(w).disk, dir) && Files(Sweep(w).disk, dir) == Files(w.disk, dir)
  {
    hide Inv, Sweep, Files, TreePath, LineOk, FileSystem.Disk.WellFormed, TreeOf;
    var line := w.runs[id].lines[i];
    InvIsSafe(w);
    StoreOf(w);
    SweepIsExact(w);
    SweptElsewhere(w);
    FilesElsewhere(w.disk, Sweep(w).disk, OBJECTS, dir);
    RunLineSurvives(w, id, i);
    LineIsLive(Sweep(w).disk, line);
    assert Sweep(w).disk.At(line.event.objectPath.value) == w.disk.At(line.event.objectPath.value);
  }

  lemma LineIsLive(d: Disk, line: Line)
    requires LineOk(d, line) && line.event.objectPath.Some?
    ensures line.event.objectPath.value in d.names
  {
  }

  lemma NewLineOf(h: Hash, d: Disk, changed: set<Path>, line: Line)
    requires IsChanged(line, changed)
    ensures var e := NewLine(h, d, changed, line).event;
      && NewLine(h, d, changed, line).Entry?
      && e.path == line.event.path
      && e.sha256 == Some(DirDigest(h, d, line.event.path.value))
      && e.objectPath == Some(TreePath(DirDigest(h, d, line.event.path.value)))
      && (LineReference(h, d, changed, line).Some? ==> e.reference == LineReference(h, d, changed, line))
  {
    hide DirDigest, RequestOf, TreePath;
  }

  /** After strip, re-stage and sweep: a line whose directory lost files names the tree of exactly the files that
      remain there, which is in the store and still what the directory holds; every other line is as it was. */
  lemma CompletionRestages(w: World, id: string, policy: Policy, clues: Clues)
    requires Inv(w) && id in w.runs && w.runs[id].IsRoot() && Reclaim(w, id, policy, clues).1
    ensures var w3 := Reclaim(w, id, policy, clues).0;
      var d1 := Retain(w.disk, OutputsDir(id), policy, clues);
      var changed := AsSet(ChangedDirs(w.disk, OutputsDir(id), policy, clues));
      && id in w3.runs && w3.runs[id].lines == NewLines(w.hash, d1, changed, w.runs[id].lines)
      && TreesStored(w.hash, w3.disk, changed, w.runs[id].lines)
      && forall i :: 0 <= i < |w.runs[id].lines| && IsChanged(w.runs[id].lines[i], changed) ==>
           Files(w3.disk, w.runs[id].lines[i].event.path.value) == Files(d1, w.runs[id].lines[i].event.path.value)
  {
    hide Inv, Retain, ChangedDirs, Sweep, Reclaim, NewLine, Files, TreeOf, ObjectsStay, TreeStored, DirDigest, TreePath;
    var lines := w.runs[id].lines;
    var d1 := Retain(w.disk, OutputsDir(id), policy, clues);
    var changed := AsSet(ChangedDirs(w.disk, OutputsDir(id), policy, clues));
    if ChangedDirs(w.disk, OutputsDir(id), policy, clues) == [] {
      NothingReclaimed(w, id, policy, clues);
      assert forall i :: 0 <= i < |lines| ==> !IsChanged(lines[i], changed);
      forall i | 0 <= i < |lines| ensures NewLines(w.hash, d1, changed, lines)[i] == lines[i] {
        UnchangedLine(w.hash, d1, changed, lines[i], 0);
      }
    } else {
      var w2 := RestagedWorld(w, id, policy, clues);
      SweepKeepsRecords(w2);
      forall i | 0 <= i < |lines| && IsChanged(lines[i], changed)
        ensures TreeStored(w.hash, Sweep(w2).disk, lines[i].event.path.value)
             && Files(Sweep(w2).disk, lines[i].event.path.value) == Files(d1, lines[i].event.path.value)
      {
        var dir := lines[i].event.path.value;
        NewLineOf(w.hash, d1, changed, lines[i]);
        SameStaging(w.hash, d1, w2.disk, dir, lines[i].event);
        TreeSurvivesSweep(w2, id, i, dir);
      }
    }
  }

  lemma NothingReclaimed(w: World, id: string, policy: Policy, clues: Clues)
    requires id in w.runs && ChangedDirs(w.disk, OutputsDir(id), policy, clues) == []
    ensures Reclaim(w, id, policy, clues) == (w.(disk := Retain(w.disk, OutputsDir(id), policy, clues)), true)
    ensures AsSet(ChangedDirs(w.disk, OutputsDir(id), policy, clues)) == {}
  {
    hide ChangedDirs, Retain;
  }

  // ---------------------------------------------------------------- the catalog files of re-staged lines

  /** Rows of promotions that went all the way. */
  function Linked(rows: seq<Manifest>): (filings: seq<Filing>)
    ensures |filings| == |rows| && forall i :: 0 <= i < |rows| ==> filings[i] == Filing(rows[i], true)
  {
    seq(|rows|, i requires 0 <= i < |rows| => Filing(rows[i], true))
  }

  lemma LinkedJoin(filings: seq<Filing>, a: seq<Manifest>, b: seq<Manifest>)
    ensures filings + Linked(a) + Linked(b) == filings + Linked(a + b)
    ensures filings + Linked([]) == filings
  {
    assert Linked(a) + Linked(b) == Linked(a + b);
  }

  lemma GrowsKeepsFilings(w: World, d': Disk, filings: seq<Filing>)
    requires FiledAs(w, filings) && w.disk.WellFormed() && d'.WellFormed() && Grows(w.disk, d')
    ensures FiledAs(w.(disk := d'), filings)
  {
    hide FiledAs, FileSystem.Disk.WellFormed, Grows, CatalogStays, Elsewhere;
    GrowsSpares(w.disk, d');
    StoreIsOffCatalog("", "", "");
    ElsewhereKeepsCatalog(w.disk, d', OBJECTS);
    FilesStay(w, w.(disk := d'), filings);
  }

  /** Promoting adds its own files to those of the history. */
  lemma PromoteAddsFilings(w: World, req: Request, filings: seq<Filing>)
    requires Inv(w) && SeparateRequest(req) && FiledAs(w, filings) && Promote(w, req).1.Ok?
    ensures FiledAs(Promote(w, req).0, filings + Linked([Promote(w, req).1.value]))
  {
    hide Inv, Sound, IndexOk, StoreOk, Promote, FiledBy, Extends, ObjectsStay, SeparateRequest, SeparateRow, Catalogued,
         FileSystem.Disk.WellFormed;
    PromoteOutcome(w, req);
    StoreOf(w);
    ShapeOf(w.hash, w.disk);
    PromoteFiles(w, req, filings);
    var m := Promote(w, req).1.value;
    assert Linked([m]) == [Filing(m, true)];
    FilesJoin(filings, FiledBy(w, req));
  }

  lemma StageAddsFilings(w: World, e: Event, dir: Path, filings: seq<Filing>)
    requires Inv(w) && SeparateEvent(e) && e.path == Some(dir) && dir in w.disk.dirs && Apart(dir, ARTIFACTS)
    requires StageInto(w, e).1.Ok? && FiledAs(w, filings)
    ensures FiledAs(StageInto(w, e).0, filings + Linked(RowsOf(w.hash, w.disk, {dir}, Entry(e), w.clock)))
  {
    hide Inv, IngestPath, IsBlank, StoreOk, Promote, SemanticRequest, Grows, FiledAs, SeparateEvent, SeparateRequest,
         LineOk, Files, TreeOf, FileSystem.Disk.WellFormed, TreePath, Lawful;
    StoreOf(w);
    DirectoryIsStored(w.hash, w.disk, dir);
    var (d, stored) := IngestPath(w.hash, w.disk, dir);
    ShapeOf(w.hash, w.disk);
    ShapeOf(w.hash, d);
    GrowsKeepsFilings(w, d, filings);
    var semantic := SemanticRequest(e, dir);
    if semantic.value.Some? {
      var w1 := w.(disk := d);
      var request := semantic.value.value;
      RequestSource(e, dir);
      GrowsKeepsInv(w, d);
      GrowsKeepsDirs(w.disk, d);
      PromoteDirectory(w1, request);
      AnySourceSeparates(e, dir);
      PromoteAddsFilings(w1, request, filings);
    } else {
      LinkedJoin(filings, [], []);
    }
  }

  /** Re-staging adds the files of the promoted lines, in order. */
  lemma {:induction false} RestageAddsFilings(w: World, done: seq<Line>, rest: seq<Line>, changed: set<Path>,
                                              filings: seq<Filing>)
    requires Inv(w) && LinesSeparate(rest) && ChangedAreOutputs(w.disk, changed) && FiledAs(w, filings)
    requires RestageFrom(w, done, rest, changed).1.Ok?
    ensures FiledAs(RestageFrom(w, done, rest, changed).0,
                    filings + Linked(NewRows(w.hash, w.disk, changed, rest, w.clock)))
    decreases |rest|
  {
    hide Inv, StageInto, ObjectsStay, Extends, Apart, TreeStored, SeparateEvent, NewLine, RowsOf, Files, TreeOf,
         FiledAs, FileSystem.Disk.WellFormed;
    LinkedJoin(filings, [], []);
    if rest != [] {
      var line, tail := rest[0], rest[1..];
      SeparateTail(rest);
      if IsChanged(line, changed) {
        var dir := line.event.path.value;
        var (w1, staged) := StageInto(w, line.event);
        var rows := RowsOf(w.hash, w.disk, changed, line, w.clock);
        StagesDirectory(w, line.event, dir);
        OneChanged(w.hash, w.disk, changed, line.event, dir, w.clock);
        StageAddsFilings(w, line.event, dir, filings);
        StillOutputs(w.disk, w1.disk, changed);
        RestageAddsFilings(w1, done + [Entry(staged.value)], tail, changed, filings + Linked(rows));
        SameOutputs(w, w1, changed);
        SameNewRows(w.hash, w.disk, w1.disk, changed, tail, w1.clock);
        LinkedJoin(filings, rows, NewRows(w.hash, w.disk, changed, tail, w1.clock));
      } else {
        RestageAddsFilings(w, done + [line], tail, changed, filings);
        UnchangedLine(w.hash, w.disk, changed, line, w.clock);
        assert [] + NewRows(w.hash, w.disk, changed, tail, w.clock) == NewRows(w.hash, w.disk, changed, tail, w.clock);
      }
    }
  }

  lemma SameCatalogFiles(w: World, w': World, filings: seq<Filing>)
    requires FiledAs(w, filings) && w'.index == w.index && w'.disk == w.disk
    ensures FiledAs(w', filings)
  {
    hide Catalogued, AllSeparate;
  }

  lemma SweepKeepsFilings(w: World, filings: seq<Filing>)
    requires Inv(w) && FiledAs(w, filings)
    ensures FiledAs(Sweep(w), filings)
  {
    hide Inv, Sweep, Readable, FileSystem.Disk.WellFormed, CatalogStays, Elsewhere, FiledAs;
    InvIsSafe(w);
    StoreOf(w);
    ShapeOf(w.hash, w.disk);
    SweepIsExact(w);
    SweepKeepsRecords(w);
    SweptElsewhere(w);
    StoreIsOffCatalog("", "", "");
    ElsewhereKeepsCatalog(w.disk, Sweep(w).disk, OBJECTS);
    FilesStay(w, Sweep(w), filings);
  }

  lemma RetainKeepsFilings(w: World, id: string, policy: Policy, clues: Clues, filings: seq<Filing>)
    requires Inv(w) && id in w.runs && FiledAs(w, filings)
    ensures FiledAs(w.(disk := Retain(w.disk, OutputsDir(id), policy, clues)), filings)
  {
    hide Inv, Retain, ChangedDirs, FileSystem.Disk.WellFormed, CatalogStays, FiledAs;
    RetentionKeepsInv(w, id, policy, clues);
    var w1 := w.(disk := Retain(w.disk, OutputsDir(id), policy, clues));
    StoreOf(w1);
    ShapeOf(w.hash, w1.disk);
    RetentionSparesCatalog(w.disk, id, policy, clues);
    FilesStay(w, w1, filings);
  }

  lemma OutputsOutside(id: string, p: Path)
    requires OutputsDir(id) <= p
    ensures !(ARTIFACTS <= p) && !(OBJECTS <= p) && !(p <= OBJECTS) && !InCatalog(p)
  {
    assert p[0] == OutputsDir(id)[0] == "runs";
    assert |p[0]| != |ARTIFACTS[0]|;
    CatalogIsApartFrom(p);
  }

  lemma RetentionSparesCatalog(d: Disk, id: string, policy: Policy, clues: Clues)
    ensures CatalogStays(d, Retain(d, OutputsDir(id), policy, clues))
  {
    hide ChangedDirs, MatchesAny;
    forall p | p in Stripped(d, policy.globs, ChangedDirs(d, OutputsDir(id), policy, clues)) ensures !InCatalog(p) {
      ChangedIsOutput(d, OutputsDir(id), policy, clues, Parent(p));
      OutputsOutside(id, p);
    }
  }

  /** The history of a completed run's catalog: what was there, then the re-staged lines. */
  ghost function FilingsAfter(w: World, id: string, policy: Policy, clues: Clues, filings: seq<Filing>): seq<Filing>
    requires id in w.runs
  {
    filings + Linked(NewRows(w.hash, Retain(w.disk, OutputsDir(id), policy, clues),
                             AsSet(ChangedDirs(w.disk, OutputsDir(id), policy, clues)), w.runs[id].lines, w.clock))
  }

  lemma ReclaimAddsFilings(w: World, id: string, policy: Policy, clues: Clues, filings: seq<Filing>)
    requires Inv(w) && id in w.runs && Reclaim(w, id, policy, clues).1 && FiledAs(w, filings)
    requires ChangedDirs(w.disk, OutputsDir(id), policy, clues) != []
    ensures FiledAs(Reclaim(w, id, policy, clues).0, FilingsAfter(w, id, policy, clues, filings))
  {
    hide Inv, RestageFrom, Retain, ChangedDirs, Sweep, Readable, ObjectsStay, Extends, NewLine, RowsOf, TreeStored,
         Files, Restage, Reclaim, LinesSeparate, FiledAs, Linked, ChangedAreOutputs;
    var changed := AsSet(ChangedDirs(w.disk, OutputsDir(id), policy, clues));
    var w1, w2 := ReclaimStates(w, id, policy, clues);
    RetainKeepsFilings(w, id, policy, clues, filings);
    ChangedAreApart(w, id, policy, clues);
    LinesOfRunSeparate(w1, id);
    RestageShape(w1, id, changed);
    RestageAddsFilings(w1, [], w.runs[id].lines, changed, filings);
    var w' := RestageFrom(w1, [], w.runs[id].lines, changed).0;
    SameCatalogFiles(w', w2, FilingsAfter(w, id, policy, clues, filings));
    SweepKeepsFilings(w2, FilingsAfter(w, id, policy, clues, filings));
  }

  // ---------------------------------------------------------------- when strip, re-stage and sweep succeed

  /** Once everything is re-staged the sweep cannot fail: the whole succeeds exactly when each changed line in turn
      could be staged. */
  lemma ReclaimSucceedsExactlyWhen(w: World, id: string, policy: Policy, clues: Clues)
    requires Inv(w) && id in w.runs
    ensures var w1 := w.(disk := Retain(w.disk, OutputsDir(id), policy, clues));
      var changed := AsSet(ChangedDirs(w.disk, OutputsDir(id), policy, clues));
      Reclaim(w, id, policy, clues).1 <==> RestageFrom(w1, [], w.runs[id].lines, changed).1.Ok? || changed == {}
  {
    hide Inv, RestageFrom, Retain, ChangedDirs, Sweep, Readable;
    var w1 := w.(disk := Retain(w.disk, OutputsDir(id), policy, clues));
    var changed := ChangedDirs(w.disk, OutputsDir(id), policy, clues);
    assert changed != [] ==> changed[0] in AsSet(changed);
    RetentionKeepsInv(w, id, policy, clues);
    RestageRunKeepsInv(w1, id, AsSet(changed));
    InvIsSafe(Restage(w1, id, AsSet(changed)).0);
  }

  /** Promoted under an explicit version that is in the index, without an alias. */
  predicate PromotedBefore(index: seq<Manifest>, e: Event) {
    var req := RequestOf(e);
    && req.Some? && !IsBlank(req.value.version) && req.value.alias.None?
    && Reference(req.value.kind, req.value.name, req.value.version) in Latest(index)
  }

  /** The event has a name, and promotes nothing or what was promoted before. */
  predicate Restageable(index: seq<Manifest>, line: Line) {
    line.Entry? && !IsBlank(line.event.name)
    && (OptionalText(line.event.artifactKind).None? || PromotedBefore(index, line.event))
  }

  lemma StillRestageable(index: seq<Manifest>, rows: seq<Manifest>, line: Line)
    requires Restageable(index, line)
    ensures Restageable(index + rows, line)
  {
    hide IsBlank, RequestOf, Latest;
    if PromotedBefore(index, line.event) {
      var req := RequestOf(line.event).value;
      var k := Reference(req.kind, req.name, req.version);
      LatestRow(index, k);
      var i :| 0 <= i < |index| && index[i].reference == k;
      assert (index + rows)[i] == index[i];
      LatestRow(index + rows, k);
    }
  }

  /** A reference of the index, free of others' files or not, has a manifest file that can be written again. */
  lemma ManifestAgain(w: World, k: Reference, data: Data)
    requires CatalogOk(w) && w.disk.WellFormed() && k in Latest(w.index)
    ensures Deposit(w.disk, ManifestRoute(k), data).1.Ok?
  {
    hide Catalogued, AllSeparate, Deposit, ManifestRoute, EndsInName, Passable, FileSystem.Disk.WellFormed, SheetsOf,
         Latest;
    var filings: seq<Filing> :| FiledAs(w, filings);
    LatestRow(w.index, k);
    var i :| 0 <= i < |w.index| && w.index[i].reference == k;
    assert Rows(filings)[i].reference == k;
    ManifestStays(filings, i);
    ManifestNameEnds(k);
    CataloguedAt(w.disk, filings, i);
    DepositAgain(w.disk, ManifestRoute(k), data);
  }

  lemma CataloguedAt(d: Disk, filings: seq<Filing>, i: nat)
    requires Catalogued(d, filings) && i < |filings| && ManifestPath(filings[i].row.reference) in SheetsOf(filings)
    ensures ManifestWay(d, filings[i].row.reference) && ManifestPath(filings[i].row.reference) in d.names
  {
    hide SheetsOf, ManifestPath, ManifestWay;
    assert Rows(filings)[i] == filings[i].row;
  }

  lemma RepromotionSucceeds(w: World, req: Request)
    requires Inv(w) && SeparateRequest(req) && IngestPath(w.hash, w.disk, req.source).1.Ok?
    requires !IsBlank(req.kind) && !IsBlank(req.name) && !IsBlank(req.version) && req.alias.None?
    requires Reference(req.kind, req.name, req.version) in Latest(w.index)
    ensures Promote(w, req).1.Ok?
  {
    hide Inv, IngestPath, IsBlank, Deposit, ManifestRoute, StoreOk, CatalogOk, Grows, SeparateRequest,
         FileSystem.Disk.WellFormed;
    StoreOf(w);
    IngestPathStores(w.hash, w.disk, req.source);
    var (d, stored) := IngestPath(w.hash, w.disk, req.source);
    GrowsKeepsInv(w, d);
    ShapeOf(w.hash, d);
    CatalogOf(w.(disk := d));
    var m := RowFor(w, req, stored.value);
    ManifestAgain(w.(disk := d), m.reference, ManifestData(m));
  }

  /** A catalog file is no file of the store. */
  lemma PromoteKeepsClear(w: World, req: Request)
    requires Inv(w) && SeparateRequest(req) && req.alias.None? && !IsBlank(req.kind) && !IsBlank(req.name)
    requires IngestPath(w.hash, w.disk, req.source).1.Ok? && StoreClear(IngestPath(w.hash, w.disk, req.source).0)
    ensures StoreClear(Promote(w, req).0.disk)
  {
    hide Inv, IngestPath, IsBlank, Deposit, ManifestRoute, StoreOk, Grows, SeparateRequest, IsSeparate, RowFor,
         IsObject, FileSystem.Disk.WellFormed;
    StoreOf(w);
    IngestPathStores(w.hash, w.disk, req.source);
    var (d, stored) := IngestPath(w.hash, w.disk, req.source);
    ShapeOf(w.hash, d);
    StoredHexes(w, req.source);
    DigestHasNoSlash(stored.value.sha256);
    RowIsSeparate(w, req, stored.value);
    var m := RowFor(w, req, stored.value);
    assert m.alias.None? by { RowAlias(w, req, stored.value); }
    Deposited(d, ManifestRoute(m.reference), ManifestData(m));
    ManifestNameEnds(m.reference);
    SeparateEnd(ManifestRoute(m.reference));
    OffTheStore(End(ManifestRoute(m.reference)));
  }

  lemma RowAlias(w: World, req: Request, stored: Stored)
    ensures RowFor(w, req, stored).alias == req.alias
  {
    hide IsBlank;
  }

  lemma OffTheStore(p: Path)
    requires InCatalog(p) && |p| > 1
    ensures !(OBJECTS <= p) && !(p <= OBJECTS)
  {
    CatalogIsApart(p);
  }

  /** Such lines are always re-staged, while no other file stands in the store's directories. */
  lemma {:induction false} RestageSucceeds(w: World, done: seq<Line>, rest: seq<Line>, changed: set<Path>)
    requires Inv(w) && LinesSeparate(rest) && ChangedAreOutputs(w.disk, changed) && StoreClear(w.disk)
    requires forall i :: 0 <= i < |rest| ==>
               rest[i].Entry? && (IsChanged(rest[i], changed) ==> Restageable(w.index, rest[i]))
    ensures RestageFrom(w, done, rest, changed).1.Ok?
    decreases |rest|
  {
    hide Inv, ObjectsStay, Extends, Apart, TreeStored, SeparateEvent, NewLine, RowsOf, Files, TreeOf, IsBlank,
         IngestDirectory, StoreClear, StageInto, StoreOk, Restageable;
    if rest != [] {
      var line := rest[0];
      SeparateTail(rest);
      assert forall i :: 0 <= i < |rest| - 1 ==> rest[1..][i] == rest[i + 1];
      if IsChanged(line, changed) {
        var dir := line.event.path.value;
        LineRestages(w, line.event, dir);
        StagesDirectory(w, line.event, dir);
        var (w1, staged) := StageInto(w, line.event);
        StillOutputs(w.disk, w1.disk, changed);
        forall i | 0 <= i < |rest[1..]| && IsChanged(rest[1..][i], changed)
          ensures Restageable(w1.index, rest[1..][i])
        {
          StillRestageable(w.index, RowsOf(w.hash, w.disk, {dir}, line, w.clock), rest[i + 1]);
        }
        RestageSucceeds(w1, done + [Entry(staged.value)], rest[1..], changed);
      } else {
        RestageSucceeds(w, done + [line], rest[1..], changed);
      }
    }
  }

  lemma LineRestages(w: World, e: Event, dir: Path)
    requires Inv(w) && Restageable(w.index, Entry(e)) && SeparateEvent(e) && StoreClear(w.disk)
    requires e.path == Some(dir) && dir in w.disk.dirs
    ensures StageInto(w, e).1.Ok? && StoreClear(StageInto(w, e).0.disk)
  {
    hide Inv, IsBlank, IngestDirectory, StoreClear, StoreOk, Promote, Latest, SemanticRequest, SeparateEvent, Grows,
         SeparateRequest;
    StoreOf(w);
    ShapeOf(w.hash, w.disk);
    DirIsNoFile(w.disk, dir);
    IngestDirectorySucceeds(w.hash, w.disk, dir);
    NothingToPromote(e, dir);
    if PromotedBefore(w.index, e) {
      IngestPathStores(w.hash, w.disk, dir);
      var d := IngestPath(w.hash, w.disk, dir).0;
      GrowsKeepsInv(w, d);
      var w1, req := w.(disk := d), RequestOf(e).value;
      RequestTexts(e, dir);
      AnySourceSeparates(e, dir);
      IngestDirectorySucceeds(w.hash, d, dir);
      GrowsKeepsDirs(w.disk, d);
      ShapeOf(w.hash, d);
      DirIsNoFile(d, dir);
      RepromotionSucceeds(w1, req);
      PromoteKeepsClear(w1, req);
    }
  }

  lemma NothingToPromote(e: Event, source: Path)
    ensures OptionalText(e.artifactKind).None? ==> SemanticRequest(e, source) == Ok(None)
  {
    hide IsBlank;
  }

  lemma RequestTexts(e: Event, dir: Path)
    requires e.path == Some(dir) && RequestOf(e).Some?
    ensures SemanticRequest(e, dir) == Ok(Some(RequestOf(e).value)) && RequestOf(e).value.source == dir
    ensures !IsBlank(RequestOf(e).value.kind) && !IsBlank(RequestOf(e).value.name)
  {
    hide IsBlank;
  }

  /** So a completed run whose changed lines promoted nothing, or under explicit versions only, is always reclaimed. */
  lemma RestageableRunIsReclaimed(w: World, id: string, policy: Policy, clues: Clues)
    requires Inv(w) && id in w.runs && w.runs[id].IsRoot() && StoreClear(w.disk)
    requires var changed := AsSet(ChangedDirs(w.disk, OutputsDir(id), policy, clues));
      forall i :: 0 <= i < |w.runs[id].lines| && IsChanged(w.runs[id].lines[i], changed) ==>
        Restageable(w.index, w.runs[id].lines[i])
    ensures Reclaim(w, id, policy, clues).1
  {
    hide Inv, RestageFrom, Retain, ChangedDirs, Reclaim, StoreClear, Restageable, LineOk, ChangedAreOutputs;
    var w1 := w.(disk := Retain(w.disk, OutputsDir(id), policy, clues));
    ReclaimSucceedsExactlyWhen(w, id, policy, clues);
    RetentionKeepsInv(w, id, policy, clues);
    ChangedAreApart(w, id, policy, clues);
    LinesOfRunSeparate(w1, id);
    RootLinesOk(w, id);
    forall i | 0 <= i < |w.runs[id].lines| ensures w.runs[id].lines[i].Entry? {
      LineIsEntry(w.disk, w.runs[id].lines[i]);
    }
    RetentionKeepsClear(w.disk, id, policy, clues);
    RestageSucceeds(w1, [], w.runs[id].lines, AsSet(ChangedDirs(w.disk, OutputsDir(id), policy, clues)));
  }

  lemma RootLinesOk(w: World, id: string)
    requires Inv(w) && id in w.runs && w.runs[id].IsRoot()
    ensures AllLinesOk(w.disk, w.runs[id].lines)
  {
    hide StoreOk, IndexOk, Isolated, CatalogOk, RunsSeparate, NamedTreesComplete, Unshared, LineOk;
  }

  lemma LineIsEntry(d: Disk, line: Line)
    requires LineOk(d, line)
    ensures line.Entry?
  {
    hide Live, IsObject;
  }

  lemma RetentionKeepsClear(d: Disk, id: string, policy: Policy, clues: Clues)
    requires StoreClear(d)
    ensures StoreClear(Retain(d, OutputsDir(id), policy, clues))
  {
    hide ChangedDirs, IsObject, Stripped;
  }

  // ---------------------------------------------------------------- what the references of re-staged lines resolve to

  /** All promoted lines have plain requests. */
  ghost predicate PlainLines(lines: seq<Line>, changed: set<Path>) {
    forall i :: 0 <= i < |lines| && Semantic(lines[i], changed) ==> PlainRequest(RequestOf(lines[i].event).value)
  }

  lemma {:induction false} NewRowsArePlain(h: Hash, d: Disk, changed: set<Path>, lines: seq<Line>, clock: nat)
    requires Lawful(h) && PlainLines(lines, changed)
    ensures PlainRows(NewRows(h, d, changed, lines, clock))
  {
    hide Lawful, PlainName, PlainAlias, Semantic, RowsOf, PlainRequest, RequestOf;
    if lines != [] {
      var rows := RowsOf(h, d, changed, lines[0], clock);
      assert forall i :: 0 <= i < |lines| - 1 ==> lines[1..][i] == lines[i + 1];
      NewRowsArePlain(h, d, changed, lines[1..], clock + |rows|);
      NewRowIsPlain(h, d, changed, lines[0], clock);
      PlainRowsJoin(rows, NewRows(h, d, changed, lines[1..], clock + |rows|));
    }
  }

  lemma NewRowIsPlain(h: Hash, d: Disk, changed: set<Path>, line: Line, clock: nat)
    requires Lawful(h) && (Semantic(line, changed) ==> PlainRequest(RequestOf(line.event).value))
    ensures PlainRows(RowsOf(h, d, changed, line, clock))
  {
    hide IsBlank, PlainAlias, Lawful, IsDigest, DirDigest, RequestOf;
    if Semantic(line, changed) {
      DirDigestIsHex(h, d, line.event.path.value);
      DigestHasNoSlash(DirDigest(h, d, line.event.path.value));
    }
  }

  lemma DirDigestIsHex(h: Hash, d: Disk, dir: Path)
    requires Lawful(h)
    ensures IsDigest(DirDigest(h, d, dir))
  {
    hide IsDigest;
  }

  lemma PlainRowsJoin(a: seq<Manifest>, b: seq<Manifest>)
    requires PlainRows(a) && PlainRows(b)
    ensures PlainRows(a + b)
  {
    hide PlainName, PlainAlias;
  }

  /** A re-staged line that was promoted as well records its reference and the tree of the files that remain in its
      directory. That reference then describes the tree of the last line promoted under it, so it describes the
      line's own tree exactly when both directories were left with files of the same tree. All of this can be
      read off the lines and the stripped disk before anything is staged. */
  lemma SemanticLinesResolve(w: World, id: string, policy: Policy, clues: Clues, filings: seq<Filing>, i: nat, j: nat)
    requires Inv(w) && id in w.runs && w.runs[id].IsRoot() && Reclaim(w, id, policy, clues).1 && i < |w.runs[id].lines|
    requires var d1 := Retain(w.disk, OutputsDir(id), policy, clues);
      var changed := AsSet(ChangedDirs(w.disk, OutputsDir(id), policy, clues));
      var lines := w.runs[id].lines;
      && LineReference(w.hash, d1, changed, lines[i]).Some?
      && IsLastOf(w.hash, d1, changed, lines, LineReference(w.hash, d1, changed, lines[i]).value, j)
      && FiledAs(w, filings) && NoneOverwritten(FilingsAfter(w, id, policy, clues, filings))
    ensures var w3 := Reclaim(w, id, policy, clues).0;
      var d1 := Retain(w.disk, OutputsDir(id), policy, clues);
      var changed := AsSet(ChangedDirs(w.disk, OutputsDir(id), policy, clues));
      var lines := w.runs[id].lines;
      var k := LineReference(w.hash, d1, changed, lines[i]).value;
      var found := Describe(w3.disk, k.kind, k.name, k.version);
      && id in w3.runs && |w3.runs[id].lines| == |lines| && w3.runs[id].lines[i].Entry?
      && w3.runs[id].lines[i].event.reference == Some(k)
      && w3.runs[id].lines[i].event.sha256 == Some(DirDigest(w.hash, d1, LineDir(lines[i])))
      && found.Ok? && RowOfDir(found.value, w.hash, d1, LineDir(lines[j])) && Live(w3.disk, found.value.objectPath)
      && (w3.runs[id].lines[i].event.sha256 == Some(found.value.sha256) <==>
          TreeOf(w.hash, Files(d1, LineDir(lines[i]))) == TreeOf(w.hash, Files(d1, LineDir(lines[j]))))
  {
    hide Inv, Retain, ChangedDirs, Sweep, Reclaim, Latest, Semantic, TreePath, Files, TreeOf, NewRows, NewLine,
         Describe,
         IsLastOf, Live, ObjectsStay, TreesStored, LineReference, CatalogOk, IndexOk, FiledAs, FilingsAfter,
         NoneOverwritten;
    var lines := w.runs[id].lines;
    var d1 := Retain(w.disk, OutputsDir(id), policy, clues);
    var changed := AsSet(ChangedDirs(w.disk, OutputsDir(id), policy, clues));
    var k := LineReference(w.hash, d1, changed, lines[i]).value;
    ReferenceIsChanged(w.hash, d1, changed, lines[i]);
    assert ChangedDirs(w.disk, OutputsDir(id), policy, clues) != [];
    var w2 := RestagedWorld(w, id, policy, clues);
    SweepKeepsRecords(w2);
    NewLineOf(w.hash, d1, changed, lines[i]);
    var rows := NewRows(w.hash, d1, changed, lines, w.clock);
    LatestPromoted(w.hash, d1, changed, lines, w.clock, w.index, k, j);
    StoreOf(w);
    HashOf(w.hash, w.disk);
    IndexSurvives(w2);
    ReclaimAddsFilings(w, id, policy, clues, filings);
    AgreedRow(Sweep(w2), FilingsAfter(w, id, policy, clues, filings), k);
    LastIsChanged(w.hash, d1, changed, lines, k, j);
    SameDigest(w.hash, d1, LineDir(lines[i]), LineDir(lines[j]));
  }

  lemma AgreedRow(w: World, filings: seq<Filing>, k: Reference)
    requires FiledAs(w, filings) && NoneOverwritten(filings) && IndexOk(w) && k in Latest(w.index)
    ensures Describe(w.disk, k.kind, k.name, k.version) == Ok(Latest(w.index)[k])
    ensures Live(w.disk, Latest(w.index)[k].objectPath)
  {
    hide Live, IsObject, Latest, Catalogued, AllSeparate, Describe, NoneOverwritten;
    IndexAgreesExactlyWhen(w.disk, filings);
  }

  /** So it is with plain names: then nothing is overwritten. */
  lemma PlainLinesOverwriteNothing(w: World, id: string, policy: Policy, clues: Clues, filings: seq<Filing>)
    requires Inv(w) && id in w.runs && FiledAs(w, filings) && PlainRows(w.index)
    requires PlainLines(w.runs[id].lines, AsSet(ChangedDirs(w.disk, OutputsDir(id), policy, clues)))
    ensures NoneOverwritten(FilingsAfter(w, id, policy, clues, filings))
  {
    hide Inv, Retain, ChangedDirs, PlainName, PlainAlias, PlainLines, NewRows, NoneOverwritten, Catalogued, AllSeparate;
    StoreOf(w);
    HashOf(w.hash, w.disk);
    var rows := NewRows(w.hash, Retain(w.disk, OutputsDir(id), policy, clues),
                        AsSet(ChangedDirs(w.disk, OutputsDir(id), policy, clues)), w.runs[id].lines, w.clock);
    NewRowsArePlain(w.hash, Retain(w.disk, OutputsDir(id), policy, clues),
                    AsSet(ChangedDirs(w.disk, OutputsDir(id), policy, clues)), w.runs[id].lines, w.clock);
    var after := filings + Linked(rows);
    forall i | 0 <= i < |after| ensures PlainName(after[i].row.reference) && PlainAlias(after[i].row.alias) {
      if i < |filings| {
        assert w.index[i] == filings[i].row;
      } else {
        assert after[i] == Filing(rows[i - |filings|], true);
      }
    }
    PlainOverwritesNothing(after);
  }

  lemma ReferenceIsChanged(h: Hash, d: Disk, changed: set<Path>, line: Line)
    requires LineReference(h, d, changed, line).Some?
    ensures IsChanged(line, changed) && LineDir(line) in changed
  {
    hide RequestOf;
  }

  lemma HashOf(h: Hash, d: Disk)
    requires StoreOk(h, d)
    ensures Lawful(h)
  {
  }

  lemma SameDigest(h: Hash, d: Disk, a: Path, b: Path)
    requires Lawful(h)
    ensures DirDigest(h, d, a) == DirDigest(h, d, b) <==> TreeOf(h, Files(d, a)) == TreeOf(h, Files(d, b))
  {
    hide TreeOf, Files;
  }

  predicate OneExplicitVersion(a: Request, b: Request) {
    a.kind == b.kind && a.name == b.name && a.version == b.version && !IsBlank(a.version)
  }

  /** Two stripped checkpoints that were promoted under one explicit version and are left with different files:
      the first one's recorded reference resolves to the second one's tree. */
  lemma OneVersionTwoCheckpoints(w: World, id: string, policy: Policy, clues: Clues, filings: seq<Filing>, i: nat,
                                 j: nat)
    requires Inv(w) && id in w.runs && w.runs[id].IsRoot() && Reclaim(w, id, policy, clues).1
    requires i < j < |w.runs[id].lines|
    requires var d1 := Retain(w.disk, OutputsDir(id), policy, clues);
      var changed := AsSet(ChangedDirs(w.disk, OutputsDir(id), policy, clues));
      var lines := w.runs[id].lines;
      && Semantic(lines[i], changed) && Semantic(lines[j], changed)
      && (forall l :: j < l < |lines| ==> !Semantic(lines[l], changed))
      && OneExplicitVersion(RequestOf(lines[i].event).value, RequestOf(lines[j].event).value)
      && TreeOf(w.hash, Files(d1, LineDir(lines[i]))) != TreeOf(w.hash, Files(d1, LineDir(lines[j])))
      && FiledAs(w, filings) && NoneOverwritten(FilingsAfter(w, id, policy, clues, filings))
    ensures var w3 := Reclaim(w, id, policy, clues).0;
      var a := RequestOf(w.runs[id].lines[i].event).value;
      var found := Describe(w3.disk, a.kind, a.name, a.version);
      && id in w3.runs && i < |w3.runs[id].lines| && w3.runs[id].lines[i].Entry?
      && w3.runs[id].lines[i].event.reference == Some(Reference(a.kind, a.name, a.version))
      && found.Ok? && w3.runs[id].lines[i].event.sha256 != Some(found.value.sha256)
  {
    hide Inv, Retain, ChangedDirs, Reclaim, Semantic, TreePath, Files, TreeOf, Describe, PlainRows, PlainLines, Live,
         IsBlank,
         RequestOf;
    var lines := w.runs[id].lines;
    var d1 := Retain(w.disk, OutputsDir(id), policy, clues);
    var changed := AsSet(ChangedDirs(w.disk, OutputsDir(id), policy, clues));
    ReferenceWithVersion(w.hash, d1, changed, lines[i]);
    ReferenceWithVersion(w.hash, d1, changed, lines[j]);
    assert IsLastOf(w.hash, d1, changed, lines, LineReference(w.hash, d1, changed, lines[i]).value, j);
    SemanticLinesResolve(w, id, policy, clues, filings, i, j);
  }

  lemma ReferenceWithVersion(h: Hash, d: Disk, changed: set<Path>, line: Line)
    requires Semantic(line, changed) && !IsBlank(RequestOf(line.event).value.version)
    ensures var a := RequestOf(line.event).value;
      LineReference(h, d, changed, line) == Some(Reference(a.kind, a.name, a.version))
  {
    hide IsBlank;
  }

  // ---------------------------------------------------------------- which blobs completion keeps

  /** Some root is, or lists, the object at `p`. */
  ghost predicate Needed(w: World, p: Path) {
    exists root :: root in Roots(w) && Reaches(w.disk, root, p)
  }

  /** The object at `root` is `p`, or is a tree that lists it. */
  ghost predicate Reaches(d: Disk, root: Path, p: Path) {
    InsertObject(d, root).Ok? && p in InsertObject(d, root).value
  }

  lemma RootIsLive(w: World, p: Path)
    requires Inv(w) && p in Roots(w)
    ensures IsObject(p) && Live(w.disk, p)
  {
    hide Live, IsObject, CatalogOk, RunsSeparate, StoreOk, Isolated, NamedTreesComplete, Unshared, LinePaths, Latest;
    if p in RunRoots(w.runs) {
      var id :| id in w.runs && w.runs[id].IsRoot() && p in LinePaths(w.runs[id].lines);
      LinePathIsLive(w, id, p);
    } else {
      var m :| m in Latest(w.index).Values && m.objectPath == p;
      var k :| k in Latest(w.index) && Latest(w.index)[k] == m;
      LatestRow(w.index, k);
    }
  }

  /** After a successful sweep an object is there exactly when some root needs it. */
  lemma SweptIsReached(w: World, p: Path)
    requires Inv(w) && OBJECTS <= p
    ensures p in Sweep(w).disk.names <==> Needed(w, p)
    ensures Needed(Sweep(w), p) <==> Needed(w, p)
  {
    hide Inv, Sweep, Roots, InsertObject, Live, IsObject, FileSystem.Disk.WellFormed, Honest;
    InvIsSafe(w);
    StoreOf(w);
    SweepIsExact(w);
    SweepKeepsRecords(w);
    SameRoots(w, Sweep(w));
    forall root | root in Roots(w)
      ensures InsertObject(Sweep(w).disk, root) == InsertObject(w.disk, root)
           && InsertObject(w.disk, root).Ok? && forall q :: q in InsertObject(w.disk, root).value ==> q in w.disk.names
    {
      ReachedKeepsReading(w, root);
      RootIsLive(w, root);
      NeededObjects(w.hash, w.disk, root);
    }
  }

  /** In an invariant state a collection can be made, and what it leaves below the object root is exactly what the
      latest rows and the lines of completed runs without a lock name, and the blobs of the trees among that. */
  lemma SweepLeavesReachable(w: World, p: Path)
    requires Inv(w) && OBJECTS <= p
    ensures CanCollect(w) && (p in Sweep(w).disk.names <==> IsReachable(w, p))
  {
    hide Inv, Sweep, Roots, InsertObject, CanCollect, StartsAt, ListsBlob, TreeCanBeRead;
    InvIsSafe(w);
    ReadableExactlyWhen(w);
    SweptIsReached(w, p);
    if Needed(w, p) {
      var root :| root in Roots(w) && Reaches(w.disk, root, p);
      RootsAre(w, root);
      ReadsAre(w.disk, root);
    }
    if IsReachable(w, p) {
      var root :| StartsAt(w, root) && (p == root || ListsBlob(w.disk, root, p));
      RootsAre(w, root);
      ReadsAre(w.disk, root);
      assert Readable(w);
      assert root in Roots(w) && Reaches(w.disk, root, p);
    }
  }

  /** The blob of some content is listed by the tree of a directory exactly when a file there has it. */
  lemma TreeListsContent(h: Hash, files: map<Path, Data>, c: Content)
    requires Lawful(h)
    ensures BlobPath(h.file(c)) in ListedBlobs(TreeOf(h, files)) <==>
            exists rel :: rel in files && files[rel].content == c
  {
    hide TreeOf, IsDigest;
    TreeIsExact(h, files);
    var es := TreeOf(h, files);
    if BlobPath(h.file(c)) in ListedBlobs(es) {
      var i :| 0 <= i < |es| && BlobPath(es[i].sha256) == BlobPath(h.file(c));
      LayoutIsSeparate(es[i].sha256, h.file(c));
      assert IsEntry(h, files, es[i]);
      var rel :| rel in files && es[i] == EntryOf(h, rel, files[rel]);
      assert files[rel].content == c;
    }
    if rel :| rel in files && files[rel].content == c {
      var e := EntryOf(h, rel, files[rel]);
      assert e in es;
      var i :| 0 <= i < |es| && es[i] == e;
      assert BlobPath(es[i].sha256) in ListedBlobs(es);
    }
  }

  lemma TreeIsExact(h: Hash, files: map<Path, Data>)
    ensures Describes(h, files, TreeOf(h, files))
    ensures forall rel :: rel in files ==> EntryOf(h, rel, files[rel]) in TreeOf(h, files)
  {
    TreeDescribes(h, files);
    PathLeIsTotal();
  }

  /** A stored directory tree lists a content's blob exactly when a file of the directory has that content. */
  lemma StoredTreeLists(h: Hash, d: Disk, dir: Path, c: Content)
    requires StoreOk(h, d) && TreeStored(h, d, dir) && Live(d, TreePath(DirDigest(h, d, dir)))
    ensures Reaches(d, TreePath(DirDigest(h, d, dir)), BlobPath(h.file(c))) <==>
            exists rel :: rel in Files(d, dir) && Files(d, dir)[rel].content == c
  {
    hide Live, TreeOf, Files, Honest, FileSystem.Disk.WellFormed, InsertObject, IsObject, BlobPath, TreePath,
         IsTreeFile,
         ListedBlobs, Lawful;
    var sha := DirDigest(h, d, dir);
    HashOf(h, d);
    DirDigestIsHex(h, d, dir);
    ObjectShapes(sha);
    NeededObjects(h, d, TreePath(sha));
    TreeListsContent(h, Files(d, dir), c);
    LayoutIsSeparate(h.file(c), sha);
  }

  /** Some file with the content remains in a changed directory. */
  ghost predicate Remains(d: Disk, changed: set<Path>, lines: seq<Line>, c: Content) {
    exists i, rel {:trigger lines[i], Files(d, LineDir(lines[i]))[rel]} ::
      0 <= i < |lines| && IsChanged(lines[i], changed)
      && rel in Files(d, LineDir(lines[i])) && Files(d, LineDir(lines[i]))[rel].content == c
  }

  /** A line that is not re-staged needs the object. */
  ghost predicate KeptLineLists(d: Disk, changed: set<Path>, lines: seq<Line>, p: Path) {
    exists i :: 0 <= i < |lines| && !IsChanged(lines[i], changed) && lines[i].Entry? && lines[i].event.objectPath.Some?
             && Reaches(d, lines[i].event.objectPath.value, p)
  }

  /** A latest row whose reference is not promoted again needs the object. */
  ghost predicate KeptRowLists(w: World, d1: Disk, changed: set<Path>, lines: seq<Line>, p: Path) {
    exists k :: k in Latest(w.index) && !IsPromoted(w.hash, d1, changed, lines, k)
             && Reaches(w.disk, Latest(w.index)[k].objectPath, p)
  }

  /** Another completed run needs the object. */
  ghost predicate OtherRunLists(w: World, id: string, p: Path) {
    exists x, q :: x in w.runs && x != id && w.runs[x].IsRoot()
                && q in LinePaths(w.runs[x].lines) && Reaches(w.disk, q, p)
  }

  /** What keeps the blob of `c` in the store when run `id` completes, said from the lines, the index and the stripped
      disk: a latest row whose reference the run does not promote again, another completed run, a line of this run
      that is not re-staged, or a file with the same content that remains in a re-staged directory. */
  ghost predicate StillNeeded(w: World, id: string, policy: Policy, clues: Clues, c: Content)
    requires id in w.runs
  {
    var d1 := Retain(w.disk, OutputsDir(id), policy, clues);
    var changed := AsSet(ChangedDirs(w.disk, OutputsDir(id), policy, clues));
    var lines := w.runs[id].lines;
    var blob := BlobPath(w.hash.file(c));
    || KeptRowLists(w, d1, changed, lines, blob)
    || OtherRunLists(w, id, blob)
    || KeptLineLists(w.disk, changed, lines, blob)
    || Remains(d1, changed, lines, c)
  }

  /** Whatever a live object lists it still lists while the objects stay. */
  lemma SameNeeds(w: World, w': World, root: Path, p: Path)
    requires Inv(w) && Inv(w') && w'.hash == w.hash && ObjectsStay(w.disk, w'.disk)
    requires IsObject(root) && Live(w.disk, root)
    ensures Reaches(w'.disk, root, p) <==> Reaches(w.disk, root, p)
  {
    hide Inv, ObjectsStay, IsObject, InsertObject, ListedBlobs, BlobsLive, FullDigests;
    StoreOf(w);
    StoreOf(w');
    LiveStays(w.disk, w'.disk, root);
    NeededObjects(w.hash, w.disk, root);
    NeededObjects(w.hash, w'.disk, root);
    ObjectIsBelow(root);
    ContentStays(w.disk, w'.disk, root);
  }

  lemma ContentStays(d: Disk, d': Disk, p: Path)
    requires ObjectsStay(d, d') && OBJECTS <= p && p in d.names
    ensures d'.At(p).content == d.At(p).content
  {
  }

  lemma RowIsLive(w: World, k: Reference)
    requires Inv(w) && k in Latest(w.index)
    ensures var p := Latest(w.index)[k].objectPath; IsObject(p) && Live(w.disk, p) && p in Roots(w)
  {
    hide CatalogOk, RunsSeparate, StoreOk, Isolated, NamedTreesComplete, Unshared, RunsOk, Latest, Live, IsObject;
    LatestRow(w.index, k);
    assert Latest(w.index)[k] in Latest(w.index).Values;
  }

  lemma LineIsRoot(w: World, id: string, i: nat)
    requires id in w.runs && w.runs[id].IsRoot() && i < |w.runs[id].lines|
    requires w.runs[id].lines[i].Entry? && w.runs[id].lines[i].event.objectPath.Some?
    ensures w.runs[id].lines[i].event.objectPath.value in LinePaths(w.runs[id].lines)
    ensures w.runs[id].lines[i].event.objectPath.value in Roots(w)
  {
    hide Latest;
    RunLinesAreRoots(w.runs, id);
  }

  /** What a changed line of the re-staged run needs. */
  lemma NewLineLists(w: World, id: string, policy: Policy, clues: Clues, w2: World, i: nat, c: Content)
    requires Inv(w2) && id in w.runs && w.runs[id].IsRoot() && RestagedAs(w, id, policy, clues, w2)
    requires i < |w.runs[id].lines|
    requires IsChanged(w.runs[id].lines[i], AsSet(ChangedDirs(w.disk, OutputsDir(id), policy, clues)))
    ensures var d1 := Retain(w.disk, OutputsDir(id), policy, clues);
      var dir := LineDir(w.runs[id].lines[i]);
      var p := TreePath(DirDigest(w.hash, d1, dir));
      && id in w2.runs && i < |w2.runs[id].lines| && w2.runs[id].lines[i].Entry?
      && w2.runs[id].lines[i].event.objectPath == Some(p) && p in Roots(w2)
      && (Reaches(w2.disk, p, BlobPath(w.hash.file(c))) <==>
          exists rel :: rel in Files(d1, dir) && Files(d1, dir)[rel].content == c)
  {
    hide Inv, Retain, ChangedDirs, NewLine, NewRows, Files, TreeOf, ObjectsStay, TreePath, BlobPath, Reaches, Live,
         IsObject,
         LineOk, LinePaths, Roots, RequestOf, TreeStored;
    var d1 := Retain(w.disk, OutputsDir(id), policy, clues);
    var changed := AsSet(ChangedDirs(w.disk, OutputsDir(id), policy, clues));
    var line := w.runs[id].lines[i];
    var dir := LineDir(line);
    NewLineOf(w.hash, d1, changed, line);
    assert w2.runs[id].lines[i] == NewLine(w.hash, d1, changed, line);
    SameStaging(w.hash, d1, w2.disk, dir, line.event);
    LineIsRoot(w2, id, i);
    RootIsLive(w2, TreePath(DirDigest(w.hash, d1, dir)));
    StoreOf(w2);
    StoredTreeLists(w.hash, w2.disk, dir, c);
  }

  lemma KeptIsNeeded(w: World, id: string, policy: Policy, clues: Clues, w2: World, c: Content)
    requires Inv(w) && Inv(w2) && id in w.runs && w.runs[id].IsRoot() && RestagedAs(w, id, policy, clues, w2)
    requires StillNeeded(w, id, policy, clues, c)
    ensures Needed(w2, BlobPath(w.hash.file(c)))
  {
    hide Inv, Retain, ChangedDirs, NewLine, NewRows, Files, TreeOf, ObjectsStay, TreePath, BlobPath, Reaches, Live,
         IsObject,
         LinePaths, Roots, RequestOf, Latest, IsPromoted, TreesStored, LineReference;
    var d1 := Retain(w.disk, OutputsDir(id), policy, clues);
    var changed := AsSet(ChangedDirs(w.disk, OutputsDir(id), policy, clues));
    var lines := w.runs[id].lines;
    var blob := BlobPath(w.hash.file(c));
    if KeptRowLists(w, d1, changed, lines, blob) {
      var k :| k in Latest(w.index) && !IsPromoted(w.hash, d1, changed, lines, k)
        && Reaches(w.disk, Latest(w.index)[k].objectPath, blob);
      LatestUnpromoted(w.hash, d1, changed, lines, w.clock, w.index, k);
      RowIsLive(w, k);
      RowIsLive(w2, k);
      SameNeeds(w, w2, Latest(w.index)[k].objectPath, blob);
    }
    if OtherRunLists(w, id, blob) {
      var x, q :| x in w.runs && x != id && w.runs[x].IsRoot()
        && q in LinePaths(w.runs[x].lines) && Reaches(w.disk, q, blob);
      LinePathIsLive(w, x, q);
      SameNeeds(w, w2, q, blob);
      RunLinesAreRoots(w2.runs, x);
      RootMember(w2, q);
    }
    if KeptLineLists(w.disk, changed, lines, blob) {
      var i :| 0 <= i < |lines| && !IsChanged(lines[i], changed) && lines[i].Entry? && lines[i].event.objectPath.Some?
        && Reaches(w.disk, lines[i].event.objectPath.value, blob);
      UnchangedLine(w.hash, d1, changed, lines[i], 0);
      assert w2.runs[id].lines[i] == lines[i];
      LineIsRoot(w, id, i);
      LineIsRoot(w2, id, i);
      RootIsLive(w, lines[i].event.objectPath.value);
      SameNeeds(w, w2, lines[i].event.objectPath.value, blob);
    }
    if Remains(d1, changed, lines, c) {
      var i, rel :| 0 <= i < |lines| && IsChanged(lines[i], changed)
        && rel in Files(d1, LineDir(lines[i])) && Files(d1, LineDir(lines[i]))[rel].content == c;
      NewLineLists(w, id, policy, clues, w2, i, c);
    }
  }

  lemma NeededIsKept(w: World, id: string, policy: Policy, clues: Clues, w2: World, c: Content)
    requires Inv(w) && Inv(w2) && id in w.runs && w.runs[id].IsRoot() && RestagedAs(w, id, policy, clues, w2)
    requires Needed(w2, BlobPath(w.hash.file(c)))
    ensures StillNeeded(w, id, policy, clues, c)
  {
    hide Inv, Retain, ChangedDirs, NewLine, NewRows, Files, TreeOf, ObjectsStay, TreePath, BlobPath, Reaches, Live,
         IsObject,
         LinePaths, RequestOf, Latest, TreesStored, LineReference, IsLastOf, IsPromoted;
    var d1 := Retain(w.disk, OutputsDir(id), policy, clues);
    var changed := AsSet(ChangedDirs(w.disk, OutputsDir(id), policy, clues));
    var lines := w.runs[id].lines;
    var blob := BlobPath(w.hash.file(c));
    var root :| root in Roots(w2) && Reaches(w2.disk, root, blob);
    if root in RunRoots(w2.runs) {
      var x :| x in w2.runs && w2.runs[x].IsRoot() && root in LinePaths(w2.runs[x].lines);
      if x == id {
        var i := LineOf(w2.runs[id].lines, root);
        NeedOfLine(w, id, policy, clues, w2, i, c);
      } else {
        LinePathIsLive(w, x, root);
        SameNeeds(w, w2, root, blob);
      }
    } else {
      var k := RowWith(w2.index, root);
      if IsPromoted(w.hash, d1, changed, lines, k) {
        var j := LastExists(w.hash, d1, changed, lines, k);
        LatestPromoted(w.hash, d1, changed, lines, w.clock, w.index, k, j);
        LastIsChanged(w.hash, d1, changed, lines, k, j);
        NewLineLists(w, id, policy, clues, w2, j, c);
      } else {
        LatestUnpromoted(w.hash, d1, changed, lines, w.clock, w.index, k);
        RowIsLive(w, k);
        SameNeeds(w, w2, root, blob);
      }
    }
  }

  lemma LastIsChanged(h: Hash, d: Disk, changed: set<Path>, lines: seq<Line>, k: Reference, j: nat)
    requires IsLastOf(h, d, changed, lines, k, j)
    ensures j < |lines| && IsChanged(lines[j], changed)
  {
    ReferenceIsChanged(h, d, changed, lines[j]);
  }

  lemma LineOf(lines: seq<Line>, p: Path) returns (i: nat)
    requires p in LinePaths(lines)
    ensures i < |lines| && lines[i].Entry? && lines[i].event.objectPath == Some(p)
  {
    i :| 0 <= i < |lines| && lines[i].Entry? && lines[i].event.objectPath.Some? && lines[i].event.objectPath.value == p;
  }

  lemma RowWith(index: seq<Manifest>, p: Path) returns (k: Reference)
    requires p in IndexRoots(index)
    ensures k in Latest(index) && Latest(index)[k].objectPath == p
  {
    hide Latest;
    var m :| m in Latest(index).Values && m.objectPath == p;
    k :| k in Latest(index) && Latest(index)[k] == m;
  }

  /** A line of the run itself: re-staged, or as it was. */
  lemma NeedOfLine(w: World, id: string, policy: Policy, clues: Clues, w2: World, i: nat, c: Content)
    requires Inv(w) && Inv(w2) && id in w.runs && w.runs[id].IsRoot() && RestagedAs(w, id, policy, clues, w2)
    requires i < |w2.runs[id].lines| && w2.runs[id].lines[i].Entry? && w2.runs[id].lines[i].event.objectPath.Some?
    requires Reaches(w2.disk, w2.runs[id].lines[i].event.objectPath.value, BlobPath(w.hash.file(c)))
    ensures var d1 := Retain(w.disk, OutputsDir(id), policy, clues);
      var changed := AsSet(ChangedDirs(w.disk, OutputsDir(id), policy, clues));
      var lines := w.runs[id].lines;
      KeptLineLists(w.disk, changed, lines, BlobPath(w.hash.file(c))) || Remains(d1, changed, lines, c)
  {
    hide Inv, Retain, ChangedDirs, NewLine, NewRows, Files, TreeOf, ObjectsStay, TreePath, BlobPath, Reaches, Live,
         IsObject,
         LinePaths, Roots, RequestOf, Latest, TreesStored;
    var d1 := Retain(w.disk, OutputsDir(id), policy, clues);
    var changed := AsSet(ChangedDirs(w.disk, OutputsDir(id), policy, clues));
    var line := w.runs[id].lines[i];
    assert w2.runs[id].lines[i] == NewLine(w.hash, d1, changed, line);
    if IsChanged(line, changed) {
      NewLineLists(w, id, policy, clues, w2, i, c);
    } else {
      UnchangedLine(w.hash, d1, changed, line, 0);
      LineIsRoot(w, id, i);
      RootIsLive(w, line.event.objectPath.value);
      SameNeeds(w, w2, line.event.objectPath.value, BlobPath(w.hash.file(c)));
    }
  }

  /** The blob of a stripped file goes with completion exactly when nothing keeps it. */
  lemma StrippedBlobsGo(w: World, id: string, policy: Policy, clues: Clues, p: Path)
    requires Inv(w) && id in w.runs && w.runs[id].IsRoot() && Reclaim(w, id, policy, clues).1
    requires p in w.disk.names && p !in Retain(w.disk, OutputsDir(id), policy, clues).names
    ensures var content := w.disk.At(p).content;
      BlobPath(w.hash.file(content)) in Reclaim(w, id, policy, clues).0.disk.names <==>
      StillNeeded(w, id, policy, clues, content)
  {
    hide Inv, Sweep, Reclaim, Needed, StillNeeded, RestagedAs, ChangedDirs, Stripped;
    var content := w.disk.At(p).content;
    StrippedMeansChanged(w.disk, OutputsDir(id), policy, clues, p);
    var w2 := RestagedWorld(w, id, policy, clues);
    LayoutIsSeparate(w.hash.file(content), "");
    SweptIsReached(w2, BlobPath(w.hash.file(content)));
    if StillNeeded(w, id, policy, clues, content) {
      KeptIsNeeded(w, id, policy, clues, w2, content);
    }
    if Needed(w2, BlobPath(w.hash.file(content))) {
      NeededIsKept(w, id, policy, clues, w2, content);
    }
  }

  lemma StrippedMeansChanged(d: Disk, outputs: Path, policy: Policy, clues: Clues, p: Path)
    requires p in d.names && p !in Retain(d, outputs, policy, clues).names
    ensures ChangedDirs(d, outputs, policy, clues) != [] && Parent(p) in ChangedDirs(d, outputs, policy, clues)
  {
    hide ChangedDirs, MatchesAny;
  }

  /** A run stages one more artifact and completes. */
  ghost function SavedRun(w: World, id: string, e: Event): (w': World)
    requires id in w.runs
    ensures id in w'.runs
  {
    StageKeepsRuns(w, e);
    Complete(Save(w, id, e), id)
  }

  lemma SavedShape(w: World, id: string, e: Event)
    requires id in w.runs && StageInto(w, e).1.Ok?
    ensures var w', ws := SavedRun(w, id, e), StageInto(w, e).0;
      w'.hash == w.hash && w'.disk == ws.disk && w'.index == ws.index
      && w'.runs[id].status == Completed && w'.runs[id].locked == w.runs[id].locked
  {
    hide StageInto;
    StageKeepsRuns(w, e);
  }

  lemma SavedKeepsInv(w: World, id: string, e: Event)
    requires Inv(w) && id in w.runs && w.runs[id].status.Running? && SeparateEvent(e)
    ensures Inv(SavedRun(w, id, e))
  {
    hide Inv, StageInto, SeparateEvent;
    StageKeepsRuns(w, e);
    SaveKeepsInv(w, id, e);
    ChangeStatusKeepsInv(Save(w, id, e), id, Completed);
  }

  /** No line promotes under exactly this version text. */
  ghost predicate NoExplicitVersion(lines: seq<Line>, changed: set<Path>, version: string) {
    forall i :: 0 <= i < |lines| && Semantic(lines[i], changed) ==>
      IsBlank(RequestOf(lines[i].event).value.version) || RequestOf(lines[i].event).value.version != version
  }

  /** A directory promoted without a version, that is under its digest: when completion strips it, it is promoted
      under the new digest, the row under the old one stays the latest of its reference, and the stripped
      file's blob stays in the store. */
  lemma BlankVersionKeepsBlob(w: World, id: string, e: Event, dir: Path, policy: Policy, clues: Clues, p: Path)
    requires Inv(w) && id in w.runs && w.runs[id].status.Running? && !w.runs[id].locked
    requires SeparateEvent(e) && e.path == Some(dir) && dir in w.disk.dirs && Apart(dir, ARTIFACTS)
    requires StageInto(w, e).1.Ok? && RequestOf(e).Some? && IsBlank(RequestOf(e).value.version)
    requires Reclaim(SavedRun(w, id, e), id, policy, clues).1
    requires p in w.disk.names && dir < p && p !in Retain(SavedRun(w, id, e).disk, OutputsDir(id), policy, clues).names
    requires NoExplicitVersion(SavedRun(w, id, e).runs[id].lines,
                               AsSet(ChangedDirs(SavedRun(w, id, e).disk, OutputsDir(id), policy, clues)),
                               DirDigest(w.hash, w.disk, dir))
    ensures BlobPath(w.hash.file(w.disk.At(p).content)) in Reclaim(SavedRun(w, id, e), id, policy, clues).0.disk.names
  {
    hide Inv, StageInto, Reclaim, Retain, ChangedDirs, SavedRun, Files, TreeOf, Reaches, StillNeeded, NoExplicitVersion,
         SeparateEvent, RequestOf, ObjectsStay, Extends, TreeStored, Live, IsObject, FileSystem.Disk.WellFormed,
         NewLine,
         TreePath, BlobPath, Latest;
    var w' := SavedRun(w, id, e);
    SavedShape(w, id, e);
    SavedKeepsInv(w, id, e);
    StagesDirectory(w, e, dir);
    StoreOf(w);
    StoreOf(w');
    ShapesOf(w.hash, w.disk, w'.disk);
    HashOf(w.hash, w.disk);
    SameStaging(w.hash, w.disk, w'.disk, dir, e);
    var k := Reference(RequestOf(e).value.kind, RequestOf(e).value.name, DirDigest(w.hash, w.disk, dir));
    assert RowsOf(w.hash, w.disk, {dir}, Entry(e), w.clock)[0].reference == k;
    LatestOfOne(w.index, RowsOf(w.hash, w.disk, {dir}, Entry(e), w.clock)[0]);
    assert Latest(w'.index)[k].objectPath == TreePath(DirDigest(w.hash, w.disk, dir));
    RowIsLive(w', k);
    FileBelow(w, w'.disk, dir, p);
    var c := w.disk.At(p).content;
    StoredTreeLists(w.hash, w'.disk, dir, c);
    OldRowKeeps(w', id, policy, clues, k, dir, c);
    StrippedBlobsGo(w', id, policy, clues, p);
  }

  lemma FileBelow(w: World, d': Disk, dir: Path, p: Path)
    requires StoreOk(w.hash, w.disk) && Extends(w.disk, d') && d'.WellFormed()
    requires p in w.disk.names && dir < p && Apart(dir, ARTIFACTS)
    ensures p in d'.names && d'.At(p) == w.disk.At(p)
    ensures p[|dir|..] in Files(d', dir) && Files(d', dir)[p[|dir|..]].content == w.disk.At(p).content
  {
    hide Files, Honest, Lawful;
    ApartFromStore(dir);
    var rel := p[|dir|..];
    assert p == dir + rel;
    assert !(ARTIFACTS <= dir + rel);
    CatalogIsApartFrom(p);
    FilesMember(d', dir, rel);
  }

  /** The row under a digest that no line writes out keeps a blob of its tree. */
  lemma OldRowKeeps(w: World, id: string, policy: Policy, clues: Clues, k: Reference, dir: Path, c: Content)
    requires Inv(w) && id in w.runs && k in Latest(w.index) && k.version == DirDigest(w.hash, w.disk, dir)
    requires Reaches(w.disk, Latest(w.index)[k].objectPath, BlobPath(w.hash.file(c)))
    requires exists rel :: rel in Files(w.disk, dir) && Files(w.disk, dir)[rel].content == c
    requires NoExplicitVersion(w.runs[id].lines, AsSet(ChangedDirs(w.disk, OutputsDir(id), policy, clues)), k.version)
    ensures StillNeeded(w, id, policy, clues, c)
  {
    hide Inv, Retain, ChangedDirs, Files, TreeOf, Reaches, RequestOf, Latest, BlobPath, DirDigest;
    var d1 := Retain(w.disk, OutputsDir(id), policy, clues);
    var changed := AsSet(ChangedDirs(w.disk, OutputsDir(id), policy, clues));
    var lines := w.runs[id].lines;
    if IsPromoted(w.hash, d1, changed, lines, k) {
      var i :| 0 <= i < |lines| && LineReference(w.hash, d1, changed, lines[i]) == Some(k);
      assert Semantic(lines[i], changed);
      StoreOf(w);
      HashOf(w.hash, w.disk);
      assert DirDigest(w.hash, d1, LineDir(lines[i])) == DirDigest(w.hash, w.disk, dir);
      SameTreeSameContents(w.hash, w.disk, d1, dir, LineDir(lines[i]), c);
      assert Remains(d1, changed, lines, c);
    } else {
      assert KeptRowLists(w, d1, changed, lines, BlobPath(w.hash.file(c)));
    }
  }

  lemma SameTreeSameContents(h: Hash, d: Disk, d': Disk, dir: Path, other: Path, c: Content)
    requires Lawful(h) && DirDigest(h, d', other) == DirDigest(h, d, dir)
    requires exists rel :: rel in Files(d, dir) && Files(d, dir)[rel].content == c
    ensures exists rel :: rel in Files(d', other) && Files(d', other)[rel].content == c
  {
    hide TreeOf, Files, BlobPath, ListedBlobs, IsDigest;
    TreeListsContent(h, Files(d, dir), c);
    TreeListsContent(h, Files(d', other), c);
  }

  // ---------------------------------------------------------------- the operations

  /** Relinked, then without the pruned runs and the evicted cache entries. */
  ghost function Bounded(w: World, id: string, pruned: set<string>, evicted: set<Path>): World
    requires id in w.runs
  {
    var linked := w.(disk := RelinkLines(w.disk, OutputsDir(id), {}, 0, w.runs[id].lines).0);
    var kept := RemoveRuns(linked, pruned);
    kept.(disk := Evict(kept.disk, evicted))
  }

  /** What pruning chose among `runs`, and the cache's limit on the disk that was left. */
  ghost predicate BoundsKept(runs: map<string, Run>, d: Disk, keep: nat, maxGb: nat, modified: Path -> int,
                             sizeOf: Content -> nat, pruned: set<string>, evicted: set<Path>, done: bool)
  {
    && (keep == 0 ==> pruned == {})
    && (keep != 0 ==> PrunedOutside(runs, {}, pruned, keep))
    && (maxGb == 0 ==> evicted == {})
    && (forall q :: q in evicted ==> IsEntryPath(d, q))
    && (done && maxGb != 0 ==> CapKept(d, evicted, maxGb * GIGABYTE, modified, sizeOf))
  }

  lemma ReclaimKeepsStore(w: World, id: string, policy: Policy, clues: Clues)
    requires Inv(w) && id in w.runs
    ensures var w3 := Reclaim(w, id, policy, clues).0; StoreOk(w3.hash, w3.disk) && id in w3.runs
  {
    hide Inv, StoreOk, RestageFrom, Retain, ChangedDirs, Sweep, Readable;
    var changed := AsSet(ChangedDirs(w.disk, OutputsDir(id), policy, clues));
    var w1 := w.(disk := Retain(w.disk, OutputsDir(id), policy, clues));
    RetentionKeepsInv(w, id, policy, clues);
    StoreOf(w1);
    var w2 := Restage(w1, id, changed).0;
    RestageRunKeepsInv(w1, id, changed);
    RestageFromKeepsRuns(w1, [], w1.runs[id].lines, changed);
    StoreOf(w2);
    SweepKeepsRecords(w2);
    SweepKeepsStore(w2);
  }

  lemma SweepKeepsStore(w: World)
    requires StoreOk(w.hash, w.disk)
    ensures StoreOk(w.hash, Sweep(w).disk)
  {
    hide Honest, Readable, Reached, Roots, SweepFiles, FileSystem.Disk.WellFormed;
    if Readable(w) {
      SweepIsExact(w);
      SweptElsewhere(w);
      FewerFilesKeepStore(w.hash, w.disk, Sweep(w).disk);
    }
  }

  // ---------------------------------------------------------------- a whole completion keeps the invariant

  /** Every other run that may still complete has staged nothing. */
  ghost predicate OthersIdle(w: World, id: string) {
    forall x :: x in w.runs && x != id && w.runs[x].IsPending() ==> w.runs[x].lines == []
  }

  lemma IdleIsProtected(w: World, id: string)
    requires OthersIdle(w, id) && id in w.runs && !w.runs[id].IsPending()
    ensures PendingProtected(w)
  {
    hide InsertObject, Reached, Roots;
    assert LinePaths([]) == {};
  }

  lemma RestageKeepsOthers(w: World, id: string, changed: set<Path>)
    requires id in w.runs
    ensures var w' := Restage(w, id, changed).0;
      id in w'.runs && w'.runs[id].status == w.runs[id].status && w'.runs[id].locked == w.runs[id].locked
      && (OthersIdle(w, id) ==> OthersIdle(w', id))
  {
    hide RestageFrom;
    RestageFromKeepsRuns(w, [], w.runs[id].lines, changed);
  }

  lemma ReclaimKeepsInv(w: World, id: string, policy: Policy, clues: Clues)
    requires Inv(w) && id in w.runs && w.runs[id].status.Completed? && OthersIdle(w, id)
    ensures var w3 := Reclaim(w, id, policy, clues).0;
      Inv(w3) && id in w3.runs && w3.runs[id].status.Completed? && OthersIdle(w3, id)
  {
    hide Inv, Restage, Retain, ChangedDirs, Sweep, Readable, OthersIdle, PendingProtected;
    var changed := AsSet(ChangedDirs(w.disk, OutputsDir(id), policy, clues));
    var w1 := w.(disk := Retain(w.disk, OutputsDir(id), policy, clues));
    RetentionKeepsInv(w, id, policy, clues);
    IdleSame(w, w1, id);
    RestageRunKeepsInv(w1, id, changed);
    RestageKeepsOthers(w1, id, changed);
    var w2 := Restage(w1, id, changed).0;
    IdleIsProtected(w2, id);
    SweepKeepsInv(w2);
    SweepKeepsRecords(w2);
    IdleSame(w2, Sweep(w2), id);
  }

  lemma IdleSame(w: World, w': World, id: string)
    requires w'.runs == w.runs
    ensures OthersIdle(w', id) <==> OthersIdle(w, id)
  {
  }

  lemma BoundedKeepsInv(w: World, id: string, pruned: set<string>, evicted: set<Path>)
    requires Inv(w) && id in w.runs && w.runs[id].status.Completed?
    requires forall q :: q in evicted ==> IsEntryPath(Bounded(w, id, pruned, {}).disk, q)
    ensures Inv(Bounded(w, id, pruned, evicted))
  {
    hide Inv, RelinkLines, RemoveRuns, Evict;
    var linked := w.(disk := RelinkLines(w.disk, OutputsDir(id), {}, 0, w.runs[id].lines).0);
    RelinkKeepsInv(w, id);
    PruneRunsKeepsInv(linked, pruned);
    EvictAllKeepsInv(RemoveRuns(linked, pruned), evicted);
  }

  /** While no other run holds staged work, a completion with all that follows it keeps the invariant, wherever
      it stops and whatever it prunes and evicts. */
  lemma CompletionKeepsInv(w: World, id: string, policy: Policy, clues: Clues, pruned: set<string>, evicted: set<Path>)
    requires Inv(w) && id in w.runs && w.runs[id].status.CanBecome(Completed) && OthersIdle(w, id)
    ensures var w3 := Reclaim(Complete(w, id), id, policy, clues).0;
      && Inv(w3) && id in w3.runs
      && ((forall q :: q in evicted ==> IsEntryPath(Bounded(w3, id, pruned, {}).disk, q)) ==>
            Inv(Bounded(w3, id, pruned, evicted)))
  {
    hide Inv, Reclaim, Bounded, IsEntryPath;
    ChangeStatusKeepsInv(w, id, Completed);
    ReclaimKeepsInv(Complete(w, id), id, policy, clues);
    var w3 := Reclaim(Complete(w, id), id, policy, clues).0;
    if forall q :: q in evicted ==> IsEntryPath(Bounded(w3, id, pruned, {}).disk, q) {
      BoundedKeepsInv(w3, id, pruned, evicted);
    }
  }

  /** The last three steps: link outputs to blobs, prune old runs, bound the cache. */
  method BoundStorage(lab: Project, id: string, keep: nat, maxGb: nat, modified: Path -> int, sizeOf: Content -> nat)
    returns (r: Result<()>, pruned: set<string>, evicted: set<Path>)
    requires StoreOk(lab.hash, lab.OnDisk()) && id in lab.runs && keep < U32 && maxGb < U32
    modifies lab
    ensures lab.View() == Bounded(old(lab.View()), id, pruned, evicted)
    ensures BoundsKept(old(lab.runs), Bounded(old(lab.View()), id, pruned, {}).disk, keep, maxGb, modified, sizeOf,
                       pruned, evicted, r.Ok?)
  {
    hide Honest, Lawful, RelinkLines, RemoveRuns, Evict, CapKept, PrunedOutside, IsEntryPath,
         FileSystem.Disk.WellFormed;
    OutputsApart(id);
    RelinkLinesKeepStore(lab.hash, lab.OnDisk(), OutputsDir(id), lab.runs[id].lines);
    var linked := RelinkRunOutputs(lab, id);
    ghost var w := lab.View();
    pruned := PruneRunsKeepPerExperiment(lab, keep, false);
    RemoveRunsKeepsShape(w, pruned);
    EvictNothing(lab.OnDisk());
    r, evicted := EnforceMaterializedCap(lab, maxGb, false, modified, sizeOf);
  }

  /** `run_finalize_storage`: a failing step stops everything after it. */
  method FinalizeStorage(lab: Project, id: string, policy: Policy, keep: nat, maxGb: nat, clues: Clues,
                         sizeOf: Content -> nat)
    returns (r: Result<()>, pruned: set<string>, evicted: set<Path>)
    requires Inv(lab.View()) && id in lab.runs && keep < U32 && maxGb < U32
    modifies lab
    ensures var (w3, swept) := Reclaim(old(lab.View()), id, policy, clues);
      if !swept then r.Err? && lab.View() == w3
      else
        && id in w3.runs && lab.View() == Bounded(w3, id, pruned, evicted)
        && BoundsKept(w3.runs, Bounded(w3, id, pruned, {}).disk, keep, maxGb, clues.modified, sizeOf,
                      pruned, evicted, r.Ok?)
  {
    hide Inv, StoreOk, Restage, Retain, ChangedDirs, Sweep, Readable, Bounded, BoundsKept, CanCollect, IsReachable,
         IsResumeOnly, ResumesFrom;
    pruned, evicted := {}, {};
    StoreOf(lab.View());
    ShapesOf(lab.hash, lab.OnDisk(), lab.OnDisk());
    ReclaimKeepsStore(lab.View(), id, policy, clues);
    var changed, removed := ApplyOutputRetention(lab, OutputsDir(id), policy, clues);
    if changed != [] {
      RestageShapes(old(lab.View()), id, policy, clues);
      var restaged := RestageRunCheckpoints(lab, id, AsSet(changed));
      if restaged.Err? {
        return Err(restaged.error), pruned, evicted;
      }
      ghost var w2 := lab.View();
      var swept := SweepUnreachableObjects(lab, false, sizeOf);
      if swept.Err? {
        SweepFails(w2);
        return Err(swept.error), pruned, evicted;
      }
    }
    r, pruned, evicted := BoundStorage(lab, id, keep, maxGb, clues.modified, sizeOf);
  }

  lemma SweepFails(w: World)
    ensures !Readable(w) ==> Sweep(w) == w
  {
  }

  lemma RestageShapes(w: World, id: string, policy: Policy, clues: Clues)
    requires Inv(w) && id in w.runs
    ensures var w1 := w.(disk := Retain(w.disk, OutputsDir(id), policy, clues));
      Restage(w1, id, AsSet(ChangedDirs(w.disk, OutputsDir(id), policy, clues))).0.disk.WellFormed()
  {
    hide Inv, StoreOk, Restage, Retain, ChangedDirs;
    var changed := AsSet(ChangedDirs(w.disk, OutputsDir(id), policy, clues));
    var w1 := w.(disk := Retain(w.disk, OutputsDir(id), policy, clues));
    RetentionKeepsInv(w, id, policy, clues);
    RestageRunKeepsInv(w1, id, changed);
    var w2 := Restage(w1, id, changed).0;
    StoreOf(w2);
    ShapesOf(w2.hash, w2.disk, w2.disk);
  }

  /** `RunSession::complete`: trouble with storage never fails a run. The ghost results say what was pruned and
      evicted and whether all of the storage steps succeeded. */
  method CompleteRun(lab: Project, id: string, policy: Policy, keep: nat, maxGb: nat, clues: Clues,
                     sizeOf: Content -> nat)
    returns (r: Result<()>, ghost pruned: set<string>, ghost evicted: set<Path>, ghost tidy: bool)
    requires Inv(lab.View()) && id in lab.runs && keep < U32 && maxGb < U32
    modifies lab
    ensures r.Ok? <==> old(lab.runs)[id].status.CanBecome(Completed)
    ensures r.Err? ==> lab.View() == old(lab.View())
    ensures r.Ok? ==>
      var (w3, swept) := Reclaim(Complete(old(lab.View()), id), id, policy, clues);
      && id in w3.runs && (tidy ==> swept)
      && if !swept then lab.View() == w3
         else
           && lab.View() == Bounded(w3, id, pruned, evicted)
           && BoundsKept(w3.runs, Bounded(w3, id, pruned, {}).disk, keep, maxGb, clues.modified, sizeOf,
                         pruned, evicted, tidy)
    ensures r.Ok? && OthersIdle(old(lab.View()), id) ==> Inv(lab.View())
  {
    hide Inv, Reclaim, Bounded, StoreOk, OthersIdle, CapKept, PrunedOutside, IsEntryPath;
    ghost var w := lab.View();
    pruned, evicted, tidy := {}, {}, false;
    r := Transition(lab, id, Completed);
    if r.Ok? {
      ChangeStatusKeepsInv(w, id, Completed);
      ReclaimKeepsStore(lab.View(), id, policy, clues);
      var finalized, gone, dropped := FinalizeStorage(lab, id, policy, keep, maxGb, clues, sizeOf);
      pruned, evicted, tidy := gone, dropped, finalized.Ok?;
      if OthersIdle(w, id) {
        CompletionKeepsInv(w, id, policy, clues, pruned, evicted);
      }
    }
  }
}
