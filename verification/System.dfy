/** The system as a state machine, and garbage-collection safety over all its runs. */
module System {
  import opened Wrappers
  import opened Order
  import opened Text
  import opened FileSystem
  import opened Lab
  import opened Ingest
  import opened Routes
  import opened Materialize
  import opened Relink
  import opened Catalog
  import opened Gc
  import opened Retention
  import opened Lifecycle
  import opened Prune
  import opened Safety

  // ---------------------------------------------------------------- the steps

  datatype Step =
    | CreateRun(id: string, locked: bool, identity: Option<(string, string)>)
    | UserWrite(p: Path, data: Data)
    | UserRemove(p: Path)
    | SaveArtifact(id: string, e: Event)
    | PromoteSource(req: Request)
    | ChangeStatus(id: string, next: Status)
    | ApplyRetention(id: string, policy: Policy, clues: Clues)
    | RestageRun(id: string, changed: set<Path>)
    | RelinkRun(id: string)
    | SweepObjects
    | PruneRuns(ids: set<string>)
    | MaterializeArtifact(sha: string, pid: string)
    | EvictMaterialized(name: string)

  /** Everything the lines of run `id` need is reachable from today's roots. */
  ghost predicate Protected(w: World, id: string)
    requires id in w.runs
  {
    forall p :: p in LinePaths(w.runs[id].lines) ==>
      InsertObject(w.disk, p).Ok? && InsertObject(w.disk, p).value <= Reached(w.disk, Roots(w))
  }

  /** What the runs that may still complete have staged is needed by today's roots as well. */
  ghost predicate PendingProtected(w: World) {
    forall id :: id in w.runs && w.runs[id].IsPending() ==> Protected(w, id)
  }

  ghost predicate Enabled(w: World, s: Step) {
    match s
    case CreateRun(id, _, _) => id !in w.runs
    case UserWrite(p, _) => Writable(w, p) && w.disk.CanWrite(p)
    case UserRemove(p) => Writable(w, p)
    case SaveArtifact(id, e) => id in w.runs && w.runs[id].status.Running? && SeparateEvent(e)
    case PromoteSource(req) => SeparateRequest(req)
    case ChangeStatus(id, next) => id in w.runs && w.runs[id].status.CanBecome(next)
    case ApplyRetention(id, _, _) => id in w.runs && w.runs[id].status.Completed?
    case RestageRun(id, _) => id in w.runs && w.runs[id].status.Completed?
    case RelinkRun(id) => id in w.runs && w.runs[id].status.Completed?
    case SweepObjects => PendingProtected(w)
    case PruneRuns(ids) => forall id :: id in ids && id in w.runs ==> !w.runs[id].locked
    case MaterializeArtifact(sha, _) => TreePath(sha) in w.disk.names
    case EvictMaterialized(_) => true
  }

  ghost function Apply(w: World, s: Step): World
    requires Enabled(w, s)
  {
    match s
    case CreateRun(id, locked, identity) => w.(runs := w.runs[id := Run(Created, locked, [], identity)])
    case UserWrite(p, data) => w.(disk := Write(w.disk, p, data))
    case UserRemove(p) => w.(disk := Unlink(w.disk, {p}))
    case SaveArtifact(id, e) => Save(w, id, e)
    case PromoteSource(req) => Promote(w, req).0
    case ChangeStatus(id, next) => w.(runs := w.runs[id := w.runs[id].(status := next)])
    case ApplyRetention(id, policy, clues) => w.(disk := Retain(w.disk, OutputsDir(id), policy, clues))
    case RestageRun(id, changed) => Restage(w, id, changed).0
    case RelinkRun(id) => w.(disk := RelinkLines(w.disk, OutputsDir(id), {}, 0, w.runs[id].lines).0)
    case SweepObjects => Sweep(w)
    case PruneRuns(ids) => RemoveRuns(w, ids)
    case MaterializeArtifact(sha, pid) => w.(disk := MaterializeTree(w.disk, sha, TreePath(sha), pid).0)
    case EvictMaterialized(name) => w.(disk := RemoveAll(w.disk, MATERIALIZED + [name]))
  }

  // ---------------------------------------------------------------- relinking

  lemma RelinkKeepsInv(w: World, id: string)
    requires Inv(w) && id in w.runs && w.runs[id].status.Completed?
    ensures Inv(w.(disk := RelinkLines(w.disk, OutputsDir(id), {}, 0, w.runs[id].lines).0))
  {
    hide Honest, FileSystem.Disk.WellFormed, NamedTreesComplete, RelinkLines, IndexOk, RunsOk, Isolated, Unshared,
         CatalogOk,
         RunsSeparate, TakesObjects, RelinkFrame, CatalogStays, ObjectsStay, Elsewhere;
    var d := w.disk;
    var outputs := OutputsDir(id);
    var d' := RelinkLines(d, outputs, {}, 0, w.runs[id].lines).0;
    var w' := w.(disk := d');
    OutputsApart(id);
    OutputsOffCatalog(id);
    RelinkLinesKeepStore(w.hash, d, outputs, w.runs[id].lines);
    RelinkSparesObjects(d, d', outputs);
    IndexStays(w, w');
    RunsStay(w, w');
    RelinkIsolates(w, w', id);
    ElsewhereKeepsNamedTrees(w.hash, d, d', outputs);
    ElsewhereKeepsCatalog(d, d', outputs);
    CatalogOkStays(w, w');
  }

  lemma OutputsApart(id: string)
    ensures Apart(OutputsDir(id), OBJECTS) && Apart(OutputsDir(id), MATERIALIZED)
  {
    assert OutputsDir(id)[0] == "runs";
  }

  lemma RelinkSparesObjects(d: Disk, d': Disk, outputs: Path)
    requires RelinkFrame(d, d', outputs)
    ensures ObjectsStay(d, d') && Elsewhere(d, d', outputs)
  {
  }

  lemma RelinkIsolates(w: World, w': World, id: string)
    requires id in w.runs && !w.runs[id].status.Pending()
    requires RelinkFrame(w.disk, w'.disk, OutputsDir(id)) && TakesObjects(w.disk, w'.disk) && w'.runs == w.runs
    requires Isolated(w) && Unshared(w.disk)
    ensures Isolated(w') && Unshared(w'.disk)
  {
    LayoutApart();
    OutputsApart(id);
    var d, d' := w.disk, w'.disk;
    forall q | OutputsDir(id) <= q ensures Frozen(w, q) {
      assert q[..3] == OutputsDir(id) && q[1] == id;
    }
    forall p, q | p in d'.names && q in d'.names && OBJECTS <= p && Free(w', q) ensures d'.names[p] != d'.names[q] {
      assert Free(w, q);
    }
    forall p, q | p in d'.names && q in d'.names && ARTIFACTS <= p && !(OBJECTS <= p) && p != q
      ensures d'.names[p] != d'.names[q]
    {
      assert !(OutputsDir(id) <= p) by { assert p[0] == ARTIFACTS[0] && OutputsDir(id)[0] == RUNS[0]; }
      if d'.names[q] != d.names[q] {
        var x :| x in d.names && OBJECTS <= x && d.names[x] == d'.names[q];
        assert x != p;
      }
    }
  }

  // ---------------------------------------------------------------- sweeping

  function ListedBlobs(entries: seq<TreeEntry>): set<Path> {
    set i | 0 <= i < |entries| :: BlobPath(entries[i].sha256)
  }

  lemma InsertTree(d: Disk, p: Path)
    requires IsObject(p) && IsTreeFile(p) && Live(d, p) && d.WellFormed()
    ensures InsertObject(d, p) == Ok({p} + ListedBlobs(d.At(p).content.entries))
  {
    hide IsObject, FileSystem.Disk.WellFormed;
    TreeFileBelow(p);
    assert d.names[p] in d.inodes by { NameHasInode(d, p); }
    var es := d.At(p).content.entries;
    forall i | 0 <= i < |es|
      ensures p[..|p| - 2] + ["blobs", es[i].sha256[..2], es[i].sha256] == BlobPath(es[i].sha256)
    {
    }
    var a, b := InsertObject(d, p).value, {p} + ListedBlobs(es);
    forall q | q in b ensures q in a {
      if q != p {
        var i :| 0 <= i < |es| && q == BlobPath(es[i].sha256);
        assert q == p[..|p| - 2] + ["blobs", es[i].sha256[..2], es[i].sha256];
      }
    }
    assert a == b;
  }

  lemma NameHasInode(d: Disk, p: Path)
    requires d.WellFormed() && p in d.names
    ensures d.names[p] in d.inodes
  {
  }

  lemma TreeFileBelow(p: Path)
    requires IsObject(p) && IsTreeFile(p)
    ensures p[..|p| - 2] == OBJECTS
  {
    var x :| IsDigest(x) && (p == BlobPath(x) || p == TreePath(x));
    ObjectShapes(x);
  }

  /** What an object needs: itself and, for a tree, the blobs it lists. */
  lemma NeededObjects(h: Hash, d: Disk, p: Path)
    requires StoreOk(h, d) && IsObject(p) && Live(d, p)
    ensures InsertObject(d, p) == Ok(if IsTreeFile(p) then {p} + ListedBlobs(d.At(p).content.entries) else {p})
    ensures forall q :: q in InsertObject(d, p).value ==> q in d.names && OBJECTS <= q
  {
    hide Honest, IsObject, FileSystem.Disk.WellFormed, InsertObject;
    ObjectIsBelow(p);
    if IsTreeFile(p) {
      InsertTree(d, p);
      var es := d.At(p).content.entries;
      forall i | 0 <= i < |es| ensures OBJECTS <= BlobPath(es[i].sha256) && BlobPath(es[i].sha256) in d.names {
        LayoutIsSeparate(es[i].sha256, "");
      }
    } else {
      InsertPlain(d, p);
    }
  }

  lemma InsertPlain(d: Disk, p: Path)
    requires !IsTreeFile(p)
    ensures InsertObject(d, p) == Ok({p})
  {
  }

  /** A live object survives a sweep exactly when all it needs was reachable. */
  lemma SurvivesSweep(w: World, p: Path)
    requires Inv(w) && IsObject(p) && Live(w.disk, p)
    ensures Live(Sweep(w).disk, p) <==> InsertObject(w.disk, p).value <= Reached(w.disk, Roots(w))
  {
    hide Inv, Honest, IsObject, Reached, Roots, InsertObject, Sweep, Readable, FileSystem.Disk.WellFormed;
    StoreOf(w);
    InvIsSafe(w);
    SweepIsExact(w);
    NeededObjects(w.hash, w.disk, p);
    var d, d' := w.disk, Sweep(w).disk;
    var need := InsertObject(d, p).value;
    assert (forall q :: q in need ==> q in d'.names) <==> need <= Reached(d, Roots(w));
    if p in d'.names {
      assert d'.At(p) == d.At(p);
    }
  }

  lemma RootSurvives(w: World, p: Path)
    requires Inv(w) && IsObject(p) && Live(w.disk, p) && p in Roots(w)
    ensures Live(Sweep(w).disk, p)
  {
    hide Inv, Live, IsObject, Roots, InsertObject, Sweep;
    StoreOf(w);
    NeededObjects(w.hash, w.disk, p);
    SurvivesSweep(w, p);
  }

  lemma SweptElsewhere(w: World)
    requires w.disk.WellFormed() && Readable(w)
    ensures Elsewhere(w.disk, Sweep(w).disk, OBJECTS) && Sweep(w).disk.dirs <= w.disk.dirs
  {
    hide Reached, Roots, Readable, FileSystem.Disk.WellFormed;
    SweepIsExact(w);
  }

  lemma IndexSurvives(w: World)
    requires Inv(w)
    ensures IndexOk(Sweep(w))
  {
    hide Live, IsObject, Sweep, CatalogOk, RunsSeparate, StoreOk, Isolated, NamedTreesComplete, Unshared, RunsOk;
    SweepKeepsRecords(w);
    forall k | k in Latest(w.index) ensures Live(Sweep(w).disk, Latest(w.index)[k].objectPath) {
      LatestRow(w.index, k);
      assert Latest(w.index)[k] in Latest(w.index).Values;
      RootSurvives(w, Latest(w.index)[k].objectPath);
    }
  }

  lemma SweepKeepsRecords(w: World)
    ensures var w' := Sweep(w);
      w'.hash == w.hash && w'.json == w.json && w'.index == w.index && w'.runs == w.runs
  {
  }

  lemma RunLineSurvives(w: World, id: string, i: nat)
    requires Inv(w) && id in w.runs && w.runs[id].IsRoot() && i < |w.runs[id].lines|
    ensures LineOk(Sweep(w).disk, w.runs[id].lines[i])
  {
    hide Live, IsObject, Sweep, CatalogOk, RunsSeparate, StoreOk, Isolated, NamedTreesComplete, Unshared, IndexOk;
    var line := w.runs[id].lines[i];
    assert LineOk(w.disk, line);
    if line.event.objectPath.Some? {
      assert line.event.objectPath.value in LinePaths(w.runs[id].lines);
      RunLinesAreRoots(w.runs, id);
      RootSurvives(w, line.event.objectPath.value);
    }
  }

  lemma PendingLineSurvives(w: World, id: string, i: nat)
    requires Inv(w) && id in w.runs && w.runs[id].IsPending() && Protected(w, id) && i < |w.runs[id].lines|
    ensures LineOk(Sweep(w).disk, w.runs[id].lines[i])
  {
    hide Live, IsObject, Sweep, CatalogOk, RunsSeparate, StoreOk, Isolated, NamedTreesComplete, Unshared, IndexOk,
         InsertObject, Reached, Roots;
    var line := w.runs[id].lines[i];
    assert LineOk(w.disk, line);
    if line.event.objectPath.Some? {
      assert line.event.objectPath.value in LinePaths(w.runs[id].lines);
      SurvivesSweep(w, line.event.objectPath.value);
    }
  }

  lemma SweepKeepsRoots(w: World)
    requires Inv(w) && PendingProtected(w)
    ensures IndexOk(Sweep(w)) && RunsOk(Sweep(w))
  {
    hide Inv, LineOk, Sweep, IndexOk, Protected;
    IndexSurvives(w);
    SweepKeepsRecords(w);
    forall id, i | id in w.runs && (w.runs[id].IsRoot() || w.runs[id].IsPending()) && 0 <= i < |w.runs[id].lines|
      ensures LineOk(Sweep(w).disk, w.runs[id].lines[i])
    {
      if w.runs[id].IsRoot() {
        RunLineSurvives(w, id, i);
      } else {
        PendingLineSurvives(w, id, i);
      }
    }
  }

  lemma SweepKeepsCatalog(w: World)
    requires Inv(w)
    ensures CatalogOk(Sweep(w))
  {
    hide Inv, Sweep, Readable, FileSystem.Disk.WellFormed, CatalogStays, Elsewhere, CatalogOk;
    InvIsSafe(w);
    StoreOf(w);
    ShapesOf(w.hash, w.disk, w.disk);
    SweepIsExact(w);
    SweepKeepsRecords(w);
    SweptElsewhere(w);
    StoreIsOffCatalog("", "", "");
    ElsewhereKeepsCatalog(w.disk, Sweep(w).disk, OBJECTS);
    CatalogOf(w);
    CatalogOkStays(w, Sweep(w));
  }

  lemma SweepKeepsInv(w: World)
    requires Inv(w) && PendingProtected(w)
    ensures Inv(Sweep(w))
  {
    hide Honest, Reached, Roots, Readable, FileSystem.Disk.WellFormed, Sweep, NamedTreesComplete, CatalogOk,
         RunsSeparate,
         IndexOk, RunsOk, Isolated, Unshared, PendingProtected, Elsewhere;
    InvIsSafe(w);
    SweepIsExact(w);
    SweepKeepsRecords(w);
    SweptElsewhere(w);
    LayoutApart();
    SweepKeepsRoots(w);
    FewerFilesKeepStore(w.hash, w.disk, Sweep(w).disk);
    ElsewhereKeepsNamedTrees(w.hash, w.disk, Sweep(w).disk, OBJECTS);
    FewerFilesIsolate(w, Sweep(w));
    SweepKeepsCatalog(w);
  }

  // ---------------------------------------------------------------- pruning runs, evicting materialized trees

  lemma PruneRunsKeepsInv(w: World, ids: set<string>)
    requires Inv(w)
    ensures Inv(RemoveRuns(w, ids))
  {
    hide Honest, FileSystem.Disk.WellFormed, NamedTreesComplete, CatalogOk, LinesSeparate, Live, LineOk, Isolated,
         Unshared;
    var w' := RemoveRuns(w, ids);
    var w1 := w.(disk := w'.disk);
    assert w.disk.WellFormed();
    RemoveRunsKeepsShape(w, ids);
    forall p | ARTIFACTS <= p ensures !InRuns(ids, p) {
      assert p[0] == ARTIFACTS[0];
    }
    FewerFilesKeepInv(w, w'.disk);
    forall q | q in w'.disk.names && Free(w', q) ensures Free(w, q) {
      assert |q| >= 3 ==> OutputsDir(q[1])[0] == "runs" && q[0] == q[..3][0];
    }
    FewerFilesIsolate(w, w');
    IndexSame(w1, w');
    CatalogSame(w1, w');
  }

  lemma EvictKeepsInv(w: World, name: string)
    requires Inv(w)
    ensures Inv(w.(disk := RemoveAll(w.disk, MATERIALIZED + [name])))
  {
    hide Honest, FileSystem.Disk.WellFormed, NamedTreesComplete, CatalogOk, RunsSeparate, IndexOk, RunsOk, Isolated,
         Unshared,
         CatalogStays, Elsewhere;
    var root := MATERIALIZED + [name];
    var d' := RemoveAll(w.disk, root);
    var w' := w.(disk := d');
    assert root[1] == MATERIALIZED[1] && |OBJECTS[1]| != |MATERIALIZED[1]|;
    RemoveAllElsewhere(w.disk, root);
    ElsewhereKeepsStore(w.hash, w.disk, d', root);
    ElsewhereSpares(w.disk, d', root);
    IndexStays(w, w');
    RunsStay(w, w');
    FewerFilesIsolate(w, w');
    EvictKeepsTrees(w.hash, w.disk, name);
    StoreIsOffCatalog("", "", name);
    ElsewhereKeepsCatalog(w.disk, d', root);
    CatalogOkStays(w, w');
  }

  /** Evicting any entries of the cache keeps the invariant. */
  lemma {:induction false} EvictAllKeepsInv(w: World, gone: set<Path>)
    requires Inv(w) && forall q :: q in gone ==> q != [] && Parent(q) == MATERIALIZED
    ensures Inv(w.(disk := Evict(w.disk, gone)))
    decreases |gone|
  {
    hide Inv, Evict, RemoveAll;
    if gone == {} {
      EvictNothing(w.disk);
    } else {
      var q :| q in gone;
      var rest := gone - {q};
      EvictAllKeepsInv(w, rest);
      EvictOne(w.disk, rest, q);
      assert rest + {q} == gone;
      assert q == MATERIALIZED + [q[2]];
      EvictKeepsInv(w.(disk := Evict(w.disk, rest)), q[2]);
    }
  }

  lemma ElsewhereSpares(d: Disk, d': Disk, root: Path)
    requires d.WellFormed() && d'.WellFormed() && Elsewhere(d, d', root) && Apart(root, OBJECTS)
    ensures ObjectsStay(d, d')
  {
    hide Elsewhere, FileSystem.Disk.WellFormed;
    forall p | OBJECTS <= p && p in d.names ensures p in d'.names && d'.At(p).content == d.At(p).content {
      ObjectElsewhere(d, d', root, p);
    }
  }

  lemma EvictKeepsTrees(h: Hash, d: Disk, name: string)
    requires d.WellFormed() && NamedTreesComplete(h, d)
    ensures NamedTreesComplete(h, RemoveAll(d, MATERIALIZED + [name]))
  {
    hide FileSystem.Disk.WellFormed;
    var root := MATERIALIZED + [name];
    var d' := RemoveAll(d, root);
    RemoveAllElsewhere(d, root);
    forall x | IsDigest(x) && Target(x) in d'.dirs ensures CompleteTree(h, d', x) {
      assert Target(x) != root;
      assert Target(x)[2] == x && root[2] == name;
      FilesElsewhere(d, d', root, Target(x));
      assert CompleteTree(h, d, x);
    }
  }

  // ---------------------------------------------------------------- materializing

  /** Whatever a staging directory of its own holds, the invariant is as before. */
  lemma StagingKeepsInv(w: World, d': Disk, sha: string, pid: string)
    requires Inv(w) && IsDigest(sha) && d'.WellFormed()
    requires Elsewhere(w.disk, d', Staging(sha, pid)) && Private(d', Staging(sha, pid))
    ensures Inv(w.(disk := d'))
  {
    hide Honest, FileSystem.Disk.WellFormed, NamedTreesComplete, CatalogOk, RunsSeparate, IndexOk, RunsOk, Isolated,
         Unshared,
         Private, CatalogStays, Elsewhere;
    var tmp := Staging(sha, pid);
    var w' := w.(disk := d');
    StagingIsNoTarget(sha, pid, sha);
    StoreIsOffCatalog(sha, pid, "");
    ElsewhereKeepsCatalog(w.disk, d', tmp);
    CatalogOkStays(w, w');
    ElsewhereKeepsStore(w.hash, w.disk, d', tmp);
    ElsewhereSpares(w.disk, d', tmp);
    IndexStays(w, w');
    RunsStay(w, w');
    StagingKeepsNamedTrees(w.hash, w.disk, d', sha, pid);
    StagingIsolates(w, w', tmp);
  }

  lemma StagingIsolates(w: World, w': World, tmp: Path)
    requires Isolated(w) && Unshared(w.disk) && w'.runs == w.runs
    requires Elsewhere(w.disk, w'.disk, tmp) && Private(w'.disk, tmp) && Apart(tmp, OBJECTS)
    ensures Isolated(w') && Unshared(w'.disk)
  {
    hide Frozen;
    forall p, q | p in w'.disk.names && q in w'.disk.names && OBJECTS <= p && Free(w', q)
      ensures w'.disk.names[p] != w'.disk.names[q]
    {
      SameFree(w, w', q);
    }
  }

  /** The inode under a new name is the one its old name had. */
  function Origin(src: Path, dst: Path, p: Path): Path {
    if dst <= p then src + p[|dst|..] else p
  }

  lemma OriginIsFresh(src: Path, dst: Path, p: Path, q: Path)
    requires Apart(src, dst) && p != q && (dst <= p || !(src <= p)) && (dst <= q || !(src <= q))
    ensures Origin(src, dst, p) != Origin(src, dst, q)
  {
    if dst <= p && dst <= q {
      assert p == dst + p[|dst|..] && q == dst + q[|dst|..];
      assert (src + p[|dst|..])[|src|..] == p[|dst|..] && (src + q[|dst|..])[|src|..] == q[|dst|..];
    }
  }

  lemma RenameIsolates(w: World, sha: string, pid: string)
    requires IsDigest(sha) && w.disk.WellFormed() && !w.disk.Exists(Target(sha))
    requires Isolated(w) && Unshared(w.disk)
    ensures var w' := w.(disk := RenameTree(w.disk, Staging(sha, pid), Target(sha)));
      Isolated(w') && Unshared(w'.disk)
  {
    hide FileSystem.Disk.WellFormed, RenameTree, Frozen;
    var src, dst := Staging(sha, pid), Target(sha);
    var d, d' := w.disk, RenameTree(w.disk, src, dst);
    var w' := w.(disk := d');
    StagingIsNoTarget(sha, pid, sha);
    forall p | p in d'.names
      ensures Origin(src, dst, p) in d.names && d'.names[p] == d.names[Origin(src, dst, p)]
           && (dst <= p || !(src <= p))
           && (OBJECTS <= p ==> Origin(src, dst, p) == p)
           && (ARTIFACTS <= p && !(OBJECTS <= p) ==>
                 ARTIFACTS <= Origin(src, dst, p) && !(OBJECTS <= Origin(src, dst, p)))
    {
      RenameAt(d, src, dst, p);
      if dst <= p {
        PrefixesCompare(dst, OBJECTS, p);
        PrefixesCompare(src, OBJECTS, src + p[|dst|..]);
        assert src <= src + p[|dst|..] && src[0] == ARTIFACTS[0];
      }
    }
    forall p, q | p in d'.names && q in d'.names && OBJECTS <= p && Free(w', q) ensures d'.names[p] != d'.names[q] {
      SameFree(w, w', q);
      if dst <= q {
        PlacedIsFree(w, src + q[|dst|..]);
      }
      assert Free(w, Origin(src, dst, q));
    }
    forall p, q | p in d'.names && q in d'.names && ARTIFACTS <= p && !(OBJECTS <= p) && p != q
      ensures d'.names[p] != d'.names[q]
    {
      OriginIsFresh(src, dst, p, q);
    }
  }

  lemma PlacedIsFree(w: World, p: Path)
    requires MATERIALIZED <= p
    ensures Free(w, p)
  {
    LayoutApart();
    PrefixesCompare(MATERIALIZED, OBJECTS, p);
    assert p[0] == "artifacts";
    assert |p| >= 3 ==> p[..3][0] == p[0];
  }

  lemma RenameKeepsCatalog(d: Disk, sha: string, pid: string)
    requires d.WellFormed() && IsDigest(sha) && !d.Exists(Target(sha))
    ensures CatalogStays(d, RenameTree(d, Staging(sha, pid), Target(sha)))
  {
    hide RenameTree, FileSystem.Disk.WellFormed, InCatalog;
    var src, dst := Staging(sha, pid), Target(sha);
    StagingIsNoTarget(sha, pid, sha);
    var d' := RenameTree(d, src, dst);
    RenameSameInodes(d, src, dst);
    forall p | InCatalog(p)
      ensures (p in d.names ==> p in d'.names && d'.At(p) == d.At(p)) && (p in d.dirs ==> p in d'.dirs)
    {
      assert MATERIALIZED <= src && MATERIALIZED <= dst;
      CatalogIsApart(p);
      RenameAt(d, src, dst, p);
    }
  }

  lemma RenameSameInodes(d: Disk, src: Path, dst: Path)
    ensures RenameTree(d, src, dst).inodes == d.inodes
  {
  }

  lemma RenameKeepsInv(w: World, sha: string, pid: string)
    requires Inv(w) && IsDigest(sha) && !w.disk.Exists(Target(sha))
    requires var d' := RenameTree(w.disk, Staging(sha, pid), Target(sha));
      StoreOk(w.hash, d') && NamedTreesComplete(w.hash, d')
    ensures Inv(w.(disk := RenameTree(w.disk, Staging(sha, pid), Target(sha))))
  {
    hide Honest, FileSystem.Disk.WellFormed, RenameTree, NamedTreesComplete, CatalogOk, RunsSeparate, IndexOk, RunsOk,
         Isolated,
         Unshared, CatalogStays;
    var src, dst := Staging(sha, pid), Target(sha);
    var d' := RenameTree(w.disk, src, dst);
    var w' := w.(disk := d');
    StagingIsNoTarget(sha, pid, sha);
    forall p | OBJECTS <= p && p in w.disk.names ensures p in d'.names && d'.At(p).content == w.disk.At(p).content {
      RenamedElsewhere(w.disk, src, dst, OBJECTS, p);
    }
    IndexStays(w, w');
    RunsStay(w, w');
    RenameIsolates(w, sha, pid);
    RenameKeepsCatalog(w.disk, sha, pid);
    CatalogOkStays(w, w');
  }

  lemma StageOutcome(w: World, sha: string, pid: string, entries: seq<TreeEntry>)
    requires Inv(w) && IsDigest(sha) && Staged(w.disk, Staging(sha, pid))
    requires Stage(w.disk, sha, Staging(sha, pid), entries).1.Ok? ==>
      var d' := Stage(w.disk, sha, Staging(sha, pid), entries).0; StoreOk(w.hash, d') && NamedTreesComplete(w.hash, d')
    ensures Inv(w.(disk := Stage(w.disk, sha, Staging(sha, pid), entries).0))
  {
    hide Inv, Honest, FileSystem.Disk.WellFormed, NamedTreesComplete, CopyFrom, Elsewhere, Files, RenameTree,
         RemoveAll, Replace;
    var tmp := Staging(sha, pid);
    var (d1, r) := CopyFrom(w.disk, tmp, entries);
    CopyElsewhere(w.disk, tmp, entries);
    StagingKeepsInv(w, d1, sha, pid);
    if r.Ok? && tmp + [MARKER] !in d1.dirs {
      MarkerPlaced(d1, sha, tmp);
      var d2 := Replace(d1, tmp + [MARKER], Data(TextContent(sha), FILE_MODE));
      var w2 := w.(disk := d2);
      ElsewhereChains(w.disk, d1, d2, tmp);
      StagingKeepsInv(w, d2, sha, pid);
      if d2.Exists(Target(sha)) {
        RemoveAllElsewhere(d2, tmp);
        NothingIsPrivate(d2, tmp);
        StagingKeepsInv(w2, RemoveAll(d2, tmp), sha, pid);
      } else {
        RenameKeepsInv(w2, sha, pid);
      }
    }
  }

  lemma NothingIsPrivate(d: Disk, tmp: Path)
    ensures Private(RemoveAll(d, tmp), tmp)
  {
  }

  lemma ClearedKeepsInv(w: World, sha: string, pid: string)
    requires Inv(w) && IsDigest(sha) && Staging(sha, pid) !in w.disk.names
    ensures Inv(w.(disk := Cleared(w.disk, Staging(sha, pid))))
  {
    hide Inv, Elsewhere;
    var tmp := Staging(sha, pid);
    StoreOf(w);
    if tmp in w.disk.dirs {
      RemoveAllElsewhere(w.disk, tmp);
      NothingIsPrivate(w.disk, tmp);
      StagingKeepsInv(w, Cleared(w.disk, tmp), sha, pid);
    }
  }

  lemma TreesOf(w: World)
    requires Inv(w)
    ensures NamedTreesComplete(w.hash, w.disk)
  {
  }

  lemma MaterializeKeepsInv(w: World, sha: string, pid: string)
    requires Inv(w) && TreePath(sha) in w.disk.names
    ensures Inv(w.(disk := MaterializeTree(w.disk, sha, TreePath(sha), pid).0))
  {
    hide Inv, Honest, FileSystem.Disk.WellFormed, NamedTreesComplete, Stage, Elsewhere, Files, Cleared, MakeDir, Holds;
    var tmp := Staging(sha, pid);
    StoreOf(w);
    TreesOf(w);
    MaterializeCompletes(w.hash, w.disk, sha, pid);
    if Target(sha) + [MARKER] !in w.disk.names && tmp !in w.disk.names {
      ClearedKeepsInv(w, sha, pid);
      var d1 := Cleared(w.disk, tmp);
      if forall k :: 0 <= k <= |tmp| ==> tmp[..k] !in d1.names {
        PrepareIsEmpty(w.disk, tmp);
        var d2 := MakeDir(d1, tmp);
        StagingKeepsInv(w, d2, sha, pid);
        if TreePath(sha) in d2.names && d2.names[TreePath(sha)] in d2.inodes && d2.At(TreePath(sha)).content.TreeDoc? {
          StageOutcome(w.(disk := d2), sha, pid, d2.At(TreePath(sha)).content.entries);
        }
      }
    }
  }

  // ---------------------------------------------------------------- every run

  lemma StepKeepsInv(w: World, s: Step)
    requires Inv(w) && Enabled(w, s)
    ensures Inv(Apply(w, s))
  {
    hide Inv, Sweep, Write, Promote, Save, Restage, RelinkLines, RemoveRuns, MaterializeTree, RemoveAll, Retain, Frozen;
    match s
    case CreateRun(id, locked, identity) => CreateRunKeepsInv(w, id, locked, identity);
    case UserWrite(p, data) => UserWriteKeepsInv(w, p, data);
    case UserRemove(p) => UnlinkKeepsInv(w, {p});
    case SaveArtifact(id, e) => SaveKeepsInv(w, id, e);
    case PromoteSource(req) => PromoteKeepsInv(w, req);
    case ChangeStatus(id, next) => ChangeStatusKeepsInv(w, id, next);
    case ApplyRetention(id, policy, clues) => RetentionKeepsInv(w, id, policy, clues);
    case RestageRun(id, changed) => RestageRunKeepsInv(w, id, changed);
    case RelinkRun(id) => RelinkKeepsInv(w, id);
    case SweepObjects => SweepKeepsInv(w);
    case PruneRuns(ids) => PruneRunsKeepsInv(w, ids);
    case MaterializeArtifact(sha, pid) => MaterializeKeepsInv(w, sha, pid);
    case EvictMaterialized(name) => EvictKeepsInv(w, name);
  }

  function Start(h: Hash, json: string -> Option<seq<TreeEntry>>): World {
    World(h, json, Disk(map[], map[], {[]}, 0), [], map[], 0)
  }

  lemma StartHasInv(h: Hash, json: string -> Option<seq<TreeEntry>>)
    requires Lawful(h)
    ensures Inv(Start(h, json))
  {
    hide Lawful, Catalogued;
    var w := Start(h, json);
    assert Honest(h, w.disk);
    NothingFiled(w.disk);
    assert FiledAs(w, []);
  }

  /** A run of the system: from the empty project, each state by an enabled step from the one before. */
  ghost predicate Behaviour(h: Hash, states: seq<World>, steps: seq<Step>) {
    && |states| == |steps| + 1 && states[0] == Start(h, states[0].json)
    && forall i :: 0 <= i < |steps| ==> Enabled(states[i], steps[i]) && states[i + 1] == Apply(states[i], steps[i])
  }

  lemma {:induction false} StatesHaveInv(h: Hash, states: seq<World>, steps: seq<Step>, n: nat)
    requires Lawful(h) && Behaviour(h, states, steps) && n < |states|
    ensures Inv(states[n])
  {
    hide Inv, Enabled, Apply, Lawful;
    if n == 0 {
      StartHasInv(h, states[0].json);
    } else {
      StatesHaveInv(h, states, steps, n - 1);
      StepKeepsInv(states[n - 1], steps[n - 1]);
    }
  }

  /** In every state of every run: the objects of the latest index rows and of the completed unlocked
      runs exist, with every blob their trees list; the collector can read them all; every object
      path holds the content its name digests; and every materialized directory is complete. */
  lemma CollectorIsSafe(h: Hash, states: seq<World>, steps: seq<Step>, n: nat)
    requires Lawful(h) && Behaviour(h, states, steps) && n < |states|
    ensures Safe(states[n]) && Readable(states[n])
    ensures StoreOk(states[n].hash, states[n].disk) && NamedTreesComplete(states[n].hash, states[n].disk)
  {
    hide Behaviour, Safe, Readable, StoreOk, NamedTreesComplete, Lawful, Inv;
    StatesHaveInv(h, states, steps, n);
    InvIsSafe(states[n]);
    StoreOf(states[n]);
    TreesOf(states[n]);
  }

  /** A run becomes completed only by a change of status, out of running. */
  lemma CompletedJustNow(w: World, s: Step, id: string)
    requires Enabled(w, s) && id in Apply(w, s).runs && Apply(w, s).runs[id].status.Completed?
    ensures id in w.runs && (w.runs[id].status.Completed? || w.runs[id].status.Running?)
  {
    hide StageInto, Promote, RestageFrom, RelinkLines, MaterializeTree, RemoveAll, Retain, Write, Unlink, SeparateEvent,
         SeparateRequest, PendingProtected, Writable, SweepFiles, Reached, Readable;
    match s
    case SaveArtifact(x, e) => StageKeepsRuns(w, e);
    case PromoteSource(req) => PromoteKeepsRuns(w, req);
    case RestageRun(x, changed) => RestageFromKeepsRuns(w, [], w.runs[x].lines, changed);
    case _ =>
  }

  /** In every run of the system: what is completed was running before, in a state where it could be saved into. */
  lemma {:induction false} CompletedWasRunning(h: Hash, states: seq<World>, steps: seq<Step>, n: nat, id: string)
    returns (m: nat)
    requires Behaviour(h, states, steps) && n < |states|
    requires id in states[n].runs && states[n].runs[id].status.Completed?
    ensures m < n && id in states[m].runs && states[m].runs[id].status.Running?
  {
    hide Enabled, Apply;
    assert n > 0;
    CompletedJustNow(states[n - 1], steps[n - 1], id);
    if states[n - 1].runs[id].status.Running? {
      m := n - 1;
    } else {
      m := CompletedWasRunning(h, states, steps, n - 1, id);
    }
  }

  /** Objects never change: whenever a blob path is in use, in any two states of a run, it holds the
      same content, and so does a tree path. */
  lemma ObjectsNeverChange(h: Hash, states: seq<World>, steps: seq<Step>, m: nat, n: nat, sha: string)
    requires Lawful(h) && Behaviour(h, states, steps) && m < |states| && n < |states|
    ensures BlobPath(sha) in states[m].disk.names && BlobPath(sha) in states[n].disk.names ==>
              states[m].disk.At(BlobPath(sha)).content == states[n].disk.At(BlobPath(sha)).content
    ensures TreePath(sha) in states[m].disk.names && TreePath(sha) in states[n].disk.names ==>
              states[m].disk.At(TreePath(sha)).content == states[n].disk.At(TreePath(sha)).content
  {
    hide Behaviour, NamedTreesComplete, Safe, Readable, BlobPath, TreePath, Lawful, FileSystem.Disk.WellFormed;
    CollectorIsSafe(h, states, steps, m);
    CollectorIsSafe(h, states, steps, n);
    SameHash(h, states, steps, m);
    SameHash(h, states, steps, n);
    SameDigestSameContent(h, states[m].disk, states[n].disk, sha);
  }

  lemma SameDigestSameContent(h: Hash, d: Disk, d': Disk, sha: string)
    requires StoreOk(h, d) && StoreOk(h, d')
    ensures BlobPath(sha) in d.names && BlobPath(sha) in d'.names ==>
              d.At(BlobPath(sha)).content == d'.At(BlobPath(sha)).content
    ensures TreePath(sha) in d.names && TreePath(sha) in d'.names ==>
              d.At(TreePath(sha)).content == d'.At(TreePath(sha)).content
  {
    hide FileSystem.Disk.WellFormed, BlobPath, TreePath;
  }

  lemma {:induction false} SameHash(h: Hash, states: seq<World>, steps: seq<Step>, n: nat)
    requires Behaviour(h, states, steps) && n < |states|
    ensures states[n].hash == h
  {
    hide Enabled;
    if n > 0 {
      SameHash(h, states, steps, n - 1);
      StepKeepsHash(states[n - 1], steps[n - 1]);
    }
  }

  lemma StepKeepsHash(w: World, s: Step)
    requires Enabled(w, s)
    ensures Apply(w, s).hash == w.hash
  {
    hide StageInto, RestageFrom, Promote, Sweep, RelinkLines, Retain, MaterializeTree, Write, RemoveAll;
    match s
    case SaveArtifact(id, e) => StageKeepsRuns(w, e);
    case PromoteSource(req) => PromoteKeepsRuns(w, req);
    case RestageRun(id, changed) => RestageFromKeepsRuns(w, [], w.runs[id].lines, changed);
    case SweepObjects => SweepKeepsRecords(w);
    case _ =>
  }

  // ---------------------------------------------------------------- why a sweep must wait

  ghost function Complete(w: World, id: string): World
    requires id in w.runs
  {
    w.(runs := w.runs[id := w.runs[id].(status := Completed)])
  }

  lemma LinePathIsLive(w: World, id: string, p: Path)
    requires Inv(w) && id in w.runs && (w.runs[id].IsRoot() || w.runs[id].IsPending())
    requires p in LinePaths(w.runs[id].lines)
    ensures IsObject(p) && Live(w.disk, p)
  {
    hide Live, IsObject, CatalogOk, RunsSeparate, StoreOk, Isolated, NamedTreesComplete, Unshared, IndexOk;
    var lines := w.runs[id].lines;
    var i :| 0 <= i < |lines| && lines[i].Entry? && lines[i].event.objectPath == Some(p);
    assert LineOk(w.disk, lines[i]);
  }

  /** Without the guard: a run that completes after a sweep is sound exactly when its staged objects
      were already reachable from other roots. */
  lemma SweepBeforeCompletion(w: World, id: string)
    requires Inv(w) && id in w.runs && w.runs[id].status.Running? && !w.runs[id].locked
    ensures Safe(Complete(Sweep(w), id)) <==> Protected(w, id)
  {
    hide Inv, Live, IsObject, Sweep, LinePaths, InsertObject, Reached, Roots, IndexOk;
    SweepKeepsRecords(w);
    IndexSurvives(w);
    StoreOf(w);
    var w1 := Sweep(w);
    var w2 := Complete(w1, id);
    forall p | p in LinePaths(w.runs[id].lines)
      ensures InsertObject(w.disk, p).Ok?
           && (Live(w1.disk, p) <==> InsertObject(w.disk, p).value <= Reached(w.disk, Roots(w)))
    {
      LinePathIsLive(w, id, p);
      NeededObjects(w.hash, w.disk, p);
      SurvivesSweep(w, p);
    }
    forall x, p | x in w.runs && w.runs[x].IsRoot() && p in LinePaths(w.runs[x].lines) ensures Live(w1.disk, p) {
      LinePathIsLive(w, x, p);
      RunLinesAreRoots(w.runs, x);
      RootMember(w, p);
      RootSurvives(w, p);
    }
    IndexLive(w1);
    assert w2.runs[id].IsRoot() && w2.runs[id].lines == w.runs[id].lines;
    assert forall x :: x in w2.runs && x != id ==> w2.runs[x] == w.runs[x];
  }

  lemma RootMember(w: World, p: Path)
    requires p in RunRoots(w.runs)
    ensures p in Roots(w)
  {
  }

  lemma IndexLive(w: World)
    requires IndexOk(w)
    ensures forall k :: k in Latest(w.index) ==> Live(w.disk, Latest(w.index)[k].objectPath)
  {
  }

  /** The guard is needed: with no root at all, what a running run has staged does not outlive a sweep. */
  lemma UnguardedSweepLosesWork(w: World, id: string, p: Path)
    requires Inv(w) && id in w.runs && w.runs[id].status.Running? && !w.runs[id].locked
    requires Roots(w) == {} && p in LinePaths(w.runs[id].lines)
    ensures !Safe(Complete(Sweep(w), id))
  {
    hide Inv, Safe, Sweep, LinePaths, Roots, Live, IsObject;
    SweepBeforeCompletion(w, id);
    LinePathIsLive(w, id, p);
    StoreOf(w);
    NeededObjects(w.hash, w.disk, p);
    assert p in InsertObject(w.disk, p).value;
    assert Reached(w.disk, {}) == {};
  }

  /** Why a finished run's outputs are not written to: through a file that shares a blob's inode, any
      other content leaves the blob with bytes its name does not digest. */
  lemma SharedInodeWrite(h: Hash, d: Disk, p: Path, sha: string, data: Data)
    requires StoreOk(h, d) && p in d.names && BlobPath(sha) in d.names && d.names[p] == d.names[BlobPath(sha)]
    ensures h.file(Write(d, p, data).At(BlobPath(sha)).content) == sha <==> data.content == d.At(p).content
  {
    assert d.At(p) == d.At(BlobPath(sha));
    assert h.file(d.At(BlobPath(sha)).content) == sha;
    assert Write(d, p, data).At(BlobPath(sha)) == data;
  }

  // ---------------------------------------------------------------- consequences

  /** No plain file stands where the cache, the tree or its staging directory goes. */
  ghost predicate CacheIsClear(d: Disk, sha: string, pid: string) {
    && MATERIALIZED !in d.names && Target(sha) !in d.names && Staging(sha, pid) !in d.names
  }

  /** A stored tree that is already in the cache comes back exactly when its files are faithful. */
  lemma CachedComesBack(h: Hash, d: Disk, files: map<Path, Data>, sha: string, pid: string)
    requires StoreOk(h, d) && NamedTreesComplete(h, d) && sha == h.tree(TreeOf(h, files)) && Target(sha) in d.dirs
    requires PrefixFree(files) && forall rel :: rel in files ==> ValidRel(rel)
    ensures GivesBack(MaterializeTree(d, sha, TreePath(sha), pid), files) <==> Faithful(files)
  {
    hide TreeOf, Files, FileSystem.Disk.WellFormed, Honest, UnpackOnto;
    assert CompleteTree(h, d, sha);
    var got := Files(d, Target(sha));
    var entries, tmp :| h.tree(entries) == sha
      && Holds(h, got - {[MARKER]}, UnpackOnto(tmp, map[], entries) - {[MARKER]});
    assert entries == TreeOf(h, files);
    if rel :| rel in files && HasBackslash(rel) {
      TreeDescribes(h, files);
      UnpackIsClean(h, files, tmp, map[], entries);
      CleanMapsDiffer(h, files, rel, UnpackOnto(tmp, map[], entries), got);
    } else {
      CachedTreeIsTheSame(h, d, files, sha, pid);
      NothingBelowMarker(d, sha, files);
    }
  }

  lemma NothingBelowMarker(d: Disk, sha: string, files: map<Path, Data>)
    requires d.WellFormed() && Target(sha) + [MARKER] in d.names
    requires Files(d, Target(sha)) - {[MARKER]} == files - {[MARKER]}
    ensures forall rel :: rel in files ==> !([MARKER] < rel)
  {
    hide Files, FileSystem.Disk.WellFormed;
    forall rel | [MARKER] < rel ensures rel !in files {
      assert rel in files ==> rel in (files - {[MARKER]}).Keys;
      if rel in Files(d, Target(sha)) {
        FilesMember(d, Target(sha), rel);
        assert Target(sha) + [MARKER] < Target(sha) + rel;
        ParentsAreDirs(d, Target(sha) + [MARKER], Target(sha) + rel);
        FileIsNoDir(d, Target(sha) + [MARKER]);
      }
    }
  }

  lemma TreeIsStored(h: Hash, d: Disk, files: map<Path, Data>, sha: string, pid: string)
    requires StoreOk(h, d) && sha == h.tree(TreeOf(h, files)) && TreePath(sha) in d.names
    requires d.At(TreePath(sha)).content == TreeDoc(TreeOf(h, files)) && BlobsLive(d, TreeOf(h, files))
    requires CacheIsClear(d, sha, pid) && Target(sha) !in d.dirs
    ensures ReadyToMaterialize(h, d, files, sha, pid)
  {
    hide TreeOf, Honest, BlobsLive, FileSystem.Disk.WellFormed;
    LayoutIsSeparate(sha, sha);
    var tmp := Staging(sha, pid);
    assert ARTIFACTS < TreePath(sha);
    ParentsAreDirs(d, ARTIFACTS, TreePath(sha));
    ParentsAreDirs(d, [], TreePath(sha));
    DirsAreNoFiles(d, ARTIFACTS);
    DirsAreNoFiles(d, []);
    forall k | 0 <= k <= 3 ensures tmp[..k] !in d.names {
      assert tmp[..0] == [] && tmp[..1] == ARTIFACTS && tmp[..2] == MATERIALIZED && tmp[..3] == tmp;
      assert k == 0 || k == 1 || k == 2 || k == 3;
    }
  }

  lemma DirsAreNoFiles(d: Disk, q: Path)
    requires d.WellFormed() && q in d.dirs
    ensures q !in d.names
  {
    assert q in d.names ==> d.CanWrite(q);
  }

  /** In every state with the invariant, whether the tree is in the cache already or not: ingesting a
      directory and materializing its tree gives back every path, content and mode exactly when no path
      holds a backslash and none lies below a directory with the marker's name. */
  lemma IngestedComesBack(w: World, dir: Path, pid: string)
    requires Inv(w) && ValidNames(w.disk) && IngestDirectory(w.hash, w.disk, dir).1.Ok?
    requires CacheIsClear(IngestDirectory(w.hash, w.disk, dir).0, IngestDirectory(w.hash, w.disk, dir).1.value, pid)
    ensures var (d1, r1) := IngestDirectory(w.hash, w.disk, dir);
      GivesBack(MaterializeTree(d1, r1.value, TreePath(r1.value), pid), Files(w.disk, dir)) <==>
      Faithful(Files(w.disk, dir))
  {
    hide Inv, IngestDirectory, MaterializeTree, TreeOf, Files, Honest, FileSystem.Disk.WellFormed, NamedTreesComplete,
         BlobsLive, Grows;
    var (d1, r1) := IngestDirectory(w.hash, w.disk, dir);
    var files := Files(w.disk, dir);
    StoreOf(w);
    IngestDirectoryStores(w.hash, w.disk, dir);
    GrowsKeepsInv(w, d1);
    TreesOf(w.(disk := d1));
    DirectoryFiles(w.disk, dir);
    if Target(r1.value) in d1.dirs {
      CachedComesBack(w.hash, d1, files, r1.value, pid);
    } else {
      TreeIsStored(w.hash, d1, files, r1.value, pid);
      FaithfulDecides(w.hash, d1, files, r1.value, pid);
    }
  }

  /** In every state with the invariant: the index is the row list of some history of promotions, and each of its
      references is described by its latest row exactly when that history overwrote no still-latest manifest. */
  lemma ReferencesResolveExactlyWhen(w: World) returns (filings: seq<Filing>)
    requires Inv(w)
    ensures FiledAs(w, filings)
    ensures Agrees(w.disk, w.index) <==> NoneOverwritten(filings)
  {
    hide StoreOk, RunsOk, IndexOk, Isolated, NamedTreesComplete, Unshared, RunsSeparate, Catalogued, AllSeparate,
         Agrees,
         NoneOverwritten;
    filings :| FiledAs(w, filings);
    IndexAgreesExactlyWhen(w.disk, filings);
  }

  ghost predicate PlainRows(index: seq<Manifest>) {
    forall i :: 0 <= i < |index| ==> PlainName(index[i].reference) && PlainAlias(index[i].alias)
  }

  /** With plain names, every reference in the index resolves through its manifest file to its latest row, whose
      objects exist; the two parts of the invariant that this needs hold after any sweep. */
  lemma PlainReferencesResolve(w: World, k: Reference)
    requires CatalogOk(w) && IndexOk(w) && k in Latest(w.index) && PlainRows(w.index)
    ensures var m := Describe(w.disk, k.kind, k.name, k.version);
      m == Ok(Latest(w.index)[k]) && Live(w.disk, m.value.objectPath)
  {
    hide Live, IsObject, Latest, Catalogued, AllSeparate, PlainName, PlainAlias, Describe;
    var filings: seq<Filing> :| FiledAs(w, filings);
    forall i | 0 <= i < |filings| ensures PlainName(filings[i].row.reference) && PlainAlias(filings[i].row.alias) {
      assert w.index[i] == filings[i].row;
    }
    PlainNamesAgree(w.disk, filings);
  }

  lemma SeparateMissesIndex(req: Request)
    requires SeparateRequest(req)
    ensures MissesIndex(req)
  {
    hide IsSeparate, Joined, ManifestRoute, AliasRoute, Waypoints, IsBlank;
    var r := Reference(req.kind, req.name, StandIn(req.version));
    assert !InCatalog(INDEX);
    RoutesStart(r, if req.alias.Some? then req.alias.value else "");
    SeparateExactlyWhen(ManifestRoute(r));
    if req.alias.Some? {
      SeparateExactlyWhen(AliasRoute(r, req.alias.value));
    }
  }

  /** A plain promotion with an alias is found under the alias too, unless the alias text is already the version
      of another artifact with that name, or the version would not survive trimming. */
  lemma AliasResolves(w: World, req: Request, alias: string)
    requires Inv(w) && SeparateRequest(req) && PlainRequest(req) && req.alias == Some(alias) && ValidName(alias)
    requires Promote(w, req).1.Ok?
    requires var version := Promote(w, req).1.value.reference.version;
      Trim(version) == version && !IsBlank(version) && alias != version
    requires ManifestPath(Reference(req.kind, req.name, alias)) !in w.disk.names
    ensures var (w', r) := Promote(w, req); Describe(w'.disk, req.kind, req.name, alias) == r
  {
    hide Inv, Promote, SeparateRequest, IsBlank, Trim, StoreOk, IngestPath, FileSystem.Disk.WellFormed, MissesIndex,
         ManifestPath, AliasPath, Grows, RowFor;
    var (w', r) := Promote(w, req);
    var m := r.value;
    StoreOf(w);
    ShapesOf(w.hash, w.disk, w.disk);
    SeparateMissesIndex(req);
    PromoteTouches(w, req);
    PromotedIsDescribed(w, req);
    IngestPathStores(w.hash, w.disk, req.source);
    var d := IngestPath(w.hash, w.disk, req.source).0;
    StoredHexes(w, req.source);
    PlainRow(w, req, IngestPath(w.hash, w.disk, req.source).1.value);
    var other := Reference(req.kind, req.name, alias);
    PlainFilesDiffer(m.reference, other, alias);
    PlainFilesDiffer(m.reference, m.reference, alias);
    OtherManifestInCatalog(req, alias);
    NotIngested(w.disk, d, ManifestPath(other));
    AliasIsRead(w'.disk, m.reference, alias);
  }

  lemma PlainRow(w: World, req: Request, stored: Stored)
    requires PlainRequest(req) && IsDigest(stored.sha256)
    ensures var m := RowFor(w, req, stored);
      && PlainName(m.reference) && m.reference.kind == req.kind && m.reference.name == req.name && m.alias == req.alias
  {
    hide IsBlank, IsDigest, PlainAlias;
    DigestHasNoSlash(stored.sha256);
  }

  lemma OtherManifestInCatalog(req: Request, alias: string)
    requires SeparateRequest(req) && PlainRequest(req) && ValidName(alias)
    ensures InCatalog(ManifestPath(Reference(req.kind, req.name, alias)))
    ensures PlainName(Reference(req.kind, req.name, alias)) && PlainAlias(Some(alias))
  {
    hide IsSeparate, IsBlank, ManifestRoute, AliasRoute;
    AnyVersionSeparates(req.kind, req.name, alias, StandIn(req.version));
    RouteEndsInCatalog(ManifestRoute(Reference(req.kind, req.name, alias)));
    SimpleText(alias);
  }

  lemma NotIngested(d: Disk, d': Disk, p: Path)
    requires Grows(d, d') && InCatalog(p) && p !in d.names
    ensures p !in d'.names
  {
    CatalogIsApart(p);
  }

  /** Pruning runs and then sweeping loses nothing that is the latest under its reference; what only
      a pruned run named survives exactly when another root needs it. */
  lemma PruneThenSweep(w: World, ids: set<string>, p: Path)
    requires Inv(w) && IsObject(p) && Live(w.disk, p)
    ensures var w1 := RemoveRuns(w, ids);
      && IndexOk(Sweep(w1))
      && (Live(Sweep(w1).disk, p) <==>
          InsertObject(w1.disk, p).Ok? && InsertObject(w1.disk, p).value <= Reached(w1.disk, Roots(w1)))
  {
    hide Inv, Live, IsObject, IndexOk, InsertObject, Reached, Roots, Sweep, RemoveRuns, StoreOk;
    var w1 := RemoveRuns(w, ids);
    PruneRunsKeepsInv(w, ids);
    IndexSurvives(w1);
    RunsHoldNoObjects(w, ids);
    LiveStays(w.disk, w1.disk, p);
    StoreOf(w1);
    NeededObjects(w1.hash, w1.disk, p);
    SurvivesSweep(w1, p);
  }

  lemma RunsHoldNoObjects(w: World, ids: set<string>)
    ensures ObjectsStay(w.disk, RemoveRuns(w, ids).disk)
  {
    forall p | OBJECTS <= p ensures !InRuns(ids, p) {
      assert p[0] == OBJECTS[0];
    }
  }

  /** Of an experiment with two prunable runs and room for one the older goes, whatever its status. */
  lemma OlderRunIsPruned(runs: map<string, Run>, name: string, id: string, other: string, gone: set<string>)
    requires id != other && Group(runs, name) == {id, other} && PrunedOutside(runs, {}, gone, 1)
    requires !StrLe(runs[other].identity.value.1, runs[id].identity.value.1)
    ensures id in gone && other !in gone
  {
    hide StrLe, Group;
    var group := Group(runs, name);
    assert KeepsNewest(runs, group, gone, 1);
    OneOfTwo(id, other, gone);
  }

  /** After a successful save, an unlocked run with a name can be pruned exactly when the event has an artifact kind,
      or the run could be pruned before. */
  lemma SavingMakesPrunable(w: World, id: string, e: Event)
    requires id in w.runs && !w.runs[id].locked && w.runs[id].identity.Some? && StageInto(w, e).1.Ok?
    ensures id in Save(w, id, e).runs
    ensures Prunable(Save(w, id, e).runs[id]) <==> e.artifactKind.Some? || Prunable(w.runs[id])
  {
    hide StageInto;
    StageKeepsRuns(w, e);
    StagedKeepsKey(w, e);
    var lines, line := w.runs[id].lines, Entry(StageInto(w, e).1.value);
    var after := Save(w, id, e).runs[id].lines;
    assert after == lines + [line];
    assert after[|lines|] == line;
    assert forall i :: 0 <= i < |lines| ==> after[i] == lines[i];
  }

  lemma OneOfTwo(a: string, b: string, gone: set<string>)
    requires a != b
    ensures |{a, b}| == 2 && (|{a, b} - gone| == 1 <==> (a in gone <==> b !in gone))
    ensures b in gone ==> b in {a, b} * gone
  {
    var left := {a, b} - gone;
    if a in gone {
      assert left == if b in gone then {} else {b};
    } else {
      assert left == if b in gone then {a} else {a, b};
    }
  }

  /** What only a pruned run needed is gone after the next sweep. */
  lemma PrunedCheckpointIsLost(w: World, id: string, gone: set<string>, p: Path)
    requires Inv(w) && id in gone && OBJECTS <= p
    requires p !in Reached(w.disk, IndexRoots(w.index) + RunRoots(w.runs - {id}))
    ensures p !in Sweep(RemoveRuns(w, gone)).disk.names
  {
    hide Inv, Sweep, InsertObject, IndexRoots, Live, IsObject, FileSystem.Disk.WellFormed, LinePaths;
    var w1 := RemoveRuns(w, gone);
    PruneRunsKeepsInv(w, gone);
    InvIsSafe(w1);
    StoreOf(w);
    StoreOf(w1);
    ShapesOf(w.hash, w.disk, w1.disk);
    SweepIsExact(w1);
    RunsHoldNoObjects(w, gone);
    if p in Sweep(w1).disk.names {
      var root :| root in Roots(w1) && InsertObject(w1.disk, root).Ok? && p in InsertObject(w1.disk, root).value;
      RemainingRoot(w, id, gone, root);
      SameAfterPruning(w, gone, root);
    }
  }

  lemma RemainingRoot(w: World, id: string, gone: set<string>, root: Path)
    requires id in gone && root in Roots(RemoveRuns(w, gone))
    ensures root in IndexRoots(w.index) + RunRoots(w.runs - {id})
  {
    hide IndexRoots, LinePaths;
    if root in RunRoots(w.runs - gone) {
      var x :| x in w.runs - gone && (w.runs - gone)[x].IsRoot() && root in LinePaths((w.runs - gone)[x].lines);
      assert x in w.runs - {id} && (w.runs - {id})[x] == w.runs[x];
    }
  }

  lemma SameAfterPruning(w: World, gone: set<string>, root: Path)
    requires Inv(w) && root in Roots(RemoveRuns(w, gone))
    ensures InsertObject(RemoveRuns(w, gone).disk, root) == InsertObject(w.disk, root)
  {
    hide Inv, InsertObject, Live, IsObject, IndexOk, RunsOk, ListedBlobs, LinePaths, Latest, BlobsLive, FullDigests;
    var w1 := RemoveRuns(w, gone);
    PruneRunsKeepsInv(w, gone);
    StoreOf(w);
    StoreOf(w1);
    RunsHoldNoObjects(w, gone);
    RootWasLive(w, gone, root);
    LiveStays(w.disk, w1.disk, root);
    NeededObjects(w.hash, w.disk, root);
    NeededObjects(w.hash, w1.disk, root);
    ObjectIsBelow(root);
    SameContentOf(w.disk, w1.disk, root);
  }

  lemma SameContentOf(d: Disk, d': Disk, p: Path)
    requires ObjectsStay(d, d') && OBJECTS <= p && Live(d, p)
    ensures d'.At(p).content == d.At(p).content
  {
  }

  lemma RootWasLive(w: World, gone: set<string>, root: Path)
    requires Inv(w) && root in Roots(RemoveRuns(w, gone))
    ensures IsObject(root) && Live(w.disk, root)
  {
    hide Live, IsObject, CatalogOk, RunsSeparate, StoreOk, Isolated, NamedTreesComplete, Unshared, LinePaths, Latest;
    if root in RunRoots(w.runs - gone) {
      var id :| id in w.runs - gone && (w.runs - gone)[id].IsRoot() && root in LinePaths((w.runs - gone)[id].lines);
      LinePathIsLive(w, id, root);
    } else {
      var m :| m in Latest(w.index).Values && m.objectPath == root;
      var k :| k in Latest(w.index) && Latest(w.index)[k] == m;
      LatestRow(w.index, k);
    }
  }
}
