/** Garbage collection of the object store: what is reachable, and the sweep that removes the rest
    together with the directories it empties. */
module Gc {
  import opened Wrappers
  import opened FileSystem
  import opened Lab
  import opened Catalog

  datatype Summary = Summary(removedFiles: nat, removedDirs: nat, removedBytes: nat)

  // ---------------------------------------------------------------- reachability

  /** `insert_object_path`: the object itself and, for a file in a `trees` directory, the blobs it lists. */
  function InsertObject(d: Disk, p: Path): Result<set<Path>> {
    if |p| < 2 || p[|p| - 2] != "trees" then Ok({p})
    else if p !in d.names || d.names[p] !in d.inodes then Err(Io)
    else
      var read := EntriesRead(d.At(p).content);
      if read.None? then Err(Serialization)
      else
        var entries := read.value;
        Ok({p} + set i | 0 <= i < |entries| && |entries[i].sha256| >= 2
             :: p[..|p| - 2] + ["blobs", entries[i].sha256[..2], entries[i].sha256])
  }

  /** The entries a file has when its text is read as JSON; a manifest has none. */
  function EntriesRead(c: Content): Option<seq<TreeEntry>> {
    match c
    case Raw(_) => None
    case TreeDoc(entries) => Some(entries)
    case ManifestDoc(_) => Some([])
    case AliasDoc(_, reading) => reading
  }

  function Reached(d: Disk, roots: set<Path>): set<Path> {
    set p, q | p in roots && InsertObject(d, p).Ok? && q in InsertObject(d, p).value :: q
  }

  ghost predicate AllReadable(d: Disk, roots: set<Path>) {
    forall p :: p in roots ==> InsertObject(d, p).Ok?
  }

  predicate WellFormedLines(lines: seq<Line>) {
    forall i :: 0 <= i < |lines| ==> lines[i].Entry?
  }

  /** `reachable_objects` succeeds: every root run's lines parse and every tree can be read. */
  ghost predicate Readable(w: World) {
    && AllReadable(w.disk, Roots(w))
    && forall id :: id in w.runs && w.runs[id].IsRoot() ==> WellFormedLines(w.runs[id].lines)
  }

  lemma ReachedAdds(d: Disk, roots: set<Path>, p: Path)
    requires InsertObject(d, p).Ok?
    ensures Reached(d, roots + {p}) == Reached(d, roots) + InsertObject(d, p).value
  {
    hide InsertObject;
    var a, b := Reached(d, roots + {p}), Reached(d, roots) + InsertObject(d, p).value;
    forall q ensures q in a <==> q in b {
      if q in a {
        var r :| r in roots + {p} && InsertObject(d, r).Ok? && q in InsertObject(d, r).value;
      }
    }
  }

  method ReachIndexRoots(lab: Project) returns (r: Result<set<Path>>)
    ensures r.Ok? <==> AllReadable(lab.OnDisk(), IndexRoots(lab.index))
    ensures r.Ok? ==> r.value == Reached(lab.OnDisk(), IndexRoots(lab.index))
  {
    hide InsertObject;
    var latest := LatestRows(lab);
    var reachable: set<Path> := {};
    var rest := latest.Values;
    ghost var done: set<Path> := {};
    while rest != {}
      invariant rest <= latest.Values
      invariant done == set m | m in latest.Values - rest :: m.objectPath
      invariant AllReadable(lab.OnDisk(), done) && reachable == Reached(lab.OnDisk(), done)
    {
      var m :| m in rest;
      var more := ReadObject(lab, m.objectPath);
      assert m.objectPath in IndexRoots(lab.index);
      if more.Err? {
        return more;
      }
      ReachedAdds(lab.OnDisk(), done, m.objectPath);
      reachable := reachable + more.value;
      done := done + {m.objectPath};
      rest := rest - {m};
    }
    assert done == IndexRoots(lab.index);
    r := Ok(reachable);
  }

  method ReadObject(lab: Project, p: Path) returns (r: Result<set<Path>>)
    ensures r == InsertObject(lab.OnDisk(), p)
  {
    if |p| < 2 || p[|p| - 2] != "trees" {
      return Ok({p});
    }
    if p !in lab.names || lab.names[p] !in lab.inodes {
      return Err(Io);
    }
    var read := EntriesRead(lab.inodes[lab.names[p]].content);
    if read.None? {
      return Err(Serialization);
    }
    var entries := read.value;
    r := Ok({p} + set i | 0 <= i < |entries| && |entries[i].sha256| >= 2
              :: p[..|p| - 2] + ["blobs", entries[i].sha256[..2], entries[i].sha256]);
  }

  method ReachLines(lab: Project, lines: seq<Line>) returns (r: Result<set<Path>>)
    ensures r.Ok? <==> WellFormedLines(lines) && AllReadable(lab.OnDisk(), LinePaths(lines))
    ensures r.Ok? ==> r.value == Reached(lab.OnDisk(), LinePaths(lines))
  {
    hide InsertObject;
    var reachable: set<Path> := {};
    var i := 0;
    while i < |lines|
      invariant 0 <= i <= |lines|
      invariant WellFormedLines(lines[..i]) && AllReadable(lab.OnDisk(), LinePaths(lines[..i]))
      invariant reachable == Reached(lab.OnDisk(), LinePaths(lines[..i]))
    {
      var line := lines[i];
      if line.Malformed? {
        return Err(Serialization);
      }
      LinePathsStep(lines, i);
      if line.event.objectPath.Some? {
        var p := line.event.objectPath.value;
        var more := ReadObject(lab, p);
        assert p in LinePaths(lines);
        if more.Err? {
          return more;
        }
        ReachedAdds(lab.OnDisk(), LinePaths(lines[..i]), p);
        reachable := reachable + more.value;
      }
      i := i + 1;
    }
    assert lines[..i] == lines;
    r := Ok(reachable);
  }

  lemma LinePathsStep(lines: seq<Line>, i: nat)
    requires i < |lines| && lines[i].Entry?
    ensures LinePaths(lines[..i + 1]) == LinePaths(lines[..i])
              + if lines[i].event.objectPath.Some? then {lines[i].event.objectPath.value} else {}
  {
    var a, b := lines[..i + 1], lines[..i];
    forall p ensures p in LinePaths(a) <==>
        p in LinePaths(b) || (lines[i].event.objectPath.Some? && p == lines[i].event.objectPath.value) {
      if p in LinePaths(b) {
        var j :| 0 <= j < |b| && b[j].Entry? && b[j].event.objectPath.Some? && b[j].event.objectPath.value == p;
        assert a[j] == b[j];
      }
      if p in LinePaths(a) {
        var j :| 0 <= j < |a| && a[j].Entry? && a[j].event.objectPath.Some? && a[j].event.objectPath.value == p;
        assert j < i ==> b[j] == a[j];
      }
      assert a[i] == lines[i];
    }
  }

  lemma ReachedUnion(d: Disk, a: set<Path>, b: set<Path>)
    ensures Reached(d, a + b) == Reached(d, a) + Reached(d, b)
  {
    hide InsertObject;
    forall q ensures q in Reached(d, a + b) <==> q in Reached(d, a) + Reached(d, b) {
      if q in Reached(d, a + b) {
        var p :| p in a + b && InsertObject(d, p).Ok? && q in InsertObject(d, p).value;
      }
    }
  }

  ghost function Visited(runs: map<string, Run>, rest: set<string>): map<string, Run> {
    map id | id in runs && id !in rest :: runs[id]
  }

  lemma NoRunVisited(runs: map<string, Run>)
    ensures RunRoots(Visited(runs, runs.Keys)) == {}
  {
  }

  lemma VisitRun(runs: map<string, Run>, rest: set<string>, id: string)
    requires id in rest && id in runs
    ensures RunRoots(Visited(runs, rest - {id}))
         == RunRoots(Visited(runs, rest)) + if runs[id].IsRoot() then LinePaths(runs[id].lines) else {}
  {
    hide LinePaths;
    var a, b := Visited(runs, rest - {id}), Visited(runs, rest);
    forall p ensures p in RunRoots(a) <==>
        p in RunRoots(b) || (runs[id].IsRoot() && p in LinePaths(runs[id].lines)) {
      if p in RunRoots(a) {
        var x :| x in a && a[x].IsRoot() && p in LinePaths(a[x].lines);
        assert x != id ==> x in b && b[x] == a[x];
      }
      if p in RunRoots(b) {
        var x :| x in b && b[x].IsRoot() && p in LinePaths(b[x].lines);
        assert x in a && a[x] == b[x];
      }
      if runs[id].IsRoot() && p in LinePaths(runs[id].lines) {
        assert id in a && a[id] == runs[id];
      }
    }
  }

  lemma RunLinesAreRoots(runs: map<string, Run>, id: string)
    requires id in runs && runs[id].IsRoot()
    ensures LinePaths(runs[id].lines) <= RunRoots(runs)
  {
    hide LinePaths;
    forall p | p in LinePaths(runs[id].lines) ensures p in RunRoots(runs) {
      assert runs[id].IsRoot();
    }
  }

  // ---------------------------------------------------------------- what is read and reached, said outright

  /** The last index row of its reference has its object at `p`. */
  ghost predicate LatestRowNames(index: seq<Manifest>, p: Path) {
    exists i :: 0 <= i < |index| && index[i].objectPath == p
             && forall j :: i < j < |index| ==> index[j].reference != index[i].reference
  }

  /** A line of a completed run without a lock names `p`. */
  ghost predicate CompletedRunNames(runs: map<string, Run>, p: Path) {
    exists id, i :: id in runs && runs[id].status == Completed && !runs[id].locked
                 && 0 <= i < |runs[id].lines| && runs[id].lines[i].Entry?
                 && runs[id].lines[i].event.objectPath == Some(p)
  }

  /** A file in a `trees` directory is there and reads as JSON. */
  ghost predicate TreeCanBeRead(d: Disk, p: Path) {
    |p| >= 2 && p[|p| - 2] == "trees" ==>
      && p in d.names && d.names[p] in d.inodes
      && (d.At(p).content.TreeDoc? || d.At(p).content.ManifestDoc?
          || (d.At(p).content.AliasDoc? && d.At(p).content.reading.Some?))
  }

  /** The file at `root` is a tree, or an alias that reads as one, with an entry whose blob is at `p`. */
  ghost predicate ListsBlob(d: Disk, root: Path, p: Path) {
    && |root| >= 2 && root[|root| - 2] == "trees"
    && exists entries: seq<TreeEntry>, i ::
         && (d.At(root).content == TreeDoc(entries)
             || (d.At(root).content.AliasDoc? && d.At(root).content.reading == Some(entries)))
         && 0 <= i < |entries| && |entries[i].sha256| >= 2
         && p == root[..|root| - 2] + ["blobs", entries[i].sha256[..2], entries[i].sha256]
  }

  /** What a collection starts from: the objects of the latest rows, and of the lines of completed runs without a
      lock. */
  ghost predicate StartsAt(w: World, p: Path) {
    LatestRowNames(w.index, p) || CompletedRunNames(w.runs, p)
  }

  ghost predicate CanCollect(w: World) {
    && (forall p :: StartsAt(w, p) ==> TreeCanBeRead(w.disk, p))
    && (forall id, i | id in w.runs && w.runs[id].status == Completed && !w.runs[id].locked
          && 0 <= i < |w.runs[id].lines| :: w.runs[id].lines[i].Entry?)
  }

  ghost predicate IsReachable(w: World, p: Path) {
    exists root :: StartsAt(w, root) && (p == root || ListsBlob(w.disk, root, p))
  }

  lemma IndexRootsAreLatestRows(index: seq<Manifest>, p: Path)
    ensures p in IndexRoots(index) <==> LatestRowNames(index, p)
  {
    if p in IndexRoots(index) {
      var m :| m in Latest(index).Values && m.objectPath == p;
      var k :| k in Latest(index) && Latest(index)[k] == m;
      LatestRow(index, k);
      var i :| 0 <= i < |index| && index[i] == m && index[i].reference == k
        && forall j :: i < j < |index| ==> index[j].reference != k;
      assert index[i].objectPath == p;
    }
    if LatestRowNames(index, p) {
      var i :| 0 <= i < |index| && index[i].objectPath == p
        && forall j :: i < j < |index| ==> index[j].reference != index[i].reference;
      LatestRow(index, index[i].reference);
      assert Latest(index)[index[i].reference] in Latest(index).Values;
    }
  }

  lemma RunRootsAreCompletedRuns(runs: map<string, Run>, p: Path)
    ensures p in RunRoots(runs) <==> CompletedRunNames(runs, p)
  {
    if p in RunRoots(runs) {
      var id :| id in runs && runs[id].IsRoot() && p in LinePaths(runs[id].lines);
      var i :| 0 <= i < |runs[id].lines| && runs[id].lines[i].Entry?
        && runs[id].lines[i].event.objectPath == Some(p);
      assert runs[id].status == Completed;
    }
    if CompletedRunNames(runs, p) {
      var id, i :| id in runs && runs[id].status == Completed && !runs[id].locked
        && 0 <= i < |runs[id].lines| && runs[id].lines[i].Entry? && runs[id].lines[i].event.objectPath == Some(p);
      assert runs[id].IsRoot() && p in LinePaths(runs[id].lines);
    }
  }

  lemma RootsAre(w: World, p: Path)
    ensures p in Roots(w) <==> StartsAt(w, p)
  {
    hide IndexRoots, RunRoots, LatestRowNames, CompletedRunNames;
    IndexRootsAreLatestRows(w.index, p);
    RunRootsAreCompletedRuns(w.runs, p);
  }

  lemma ReadsAre(d: Disk, p: Path)
    ensures InsertObject(d, p).Ok? <==> TreeCanBeRead(d, p)
    ensures InsertObject(d, p).Ok? ==>
      forall q :: q in InsertObject(d, p).value <==> q == p || ListsBlob(d, p, q)
  {
    if InsertObject(d, p).Ok? {
      forall q ensures q in InsertObject(d, p).value <==> q == p || ListsBlob(d, p, q) {
      }
    }
  }

  /** The objects can be collected exactly when the trees that the latest rows and the lines of completed runs
      without a lock name can be read, and those lines parse. */
  lemma ReadableExactlyWhen(w: World)
    ensures Readable(w) <==> CanCollect(w)
  {
    hide Roots, InsertObject, StartsAt, TreeCanBeRead;
    forall p ensures p in Roots(w) <==> StartsAt(w, p) {
      RootsAre(w, p);
    }
    forall p ensures InsertObject(w.disk, p).Ok? <==> TreeCanBeRead(w.disk, p) {
      ReadsAre(w.disk, p);
    }
    forall id | id in w.runs
      ensures w.runs[id].IsRoot() <==> (w.runs[id].status == Completed && !w.runs[id].locked)
    {
    }
  }

  /** Reached is what the latest rows and the lines of completed runs without a lock name, and the blobs that trees
      among it list. */
  lemma ReachedExactlyWhen(w: World, p: Path)
    requires Readable(w)
    ensures p in Reached(w.disk, Roots(w)) <==> IsReachable(w, p)
  {
    hide Roots, InsertObject, StartsAt, ListsBlob, TreeCanBeRead;
    if p in Reached(w.disk, Roots(w)) {
      var root :| root in Roots(w) && InsertObject(w.disk, root).Ok? && p in InsertObject(w.disk, root).value;
      RootsAre(w, root);
      ReadsAre(w.disk, root);
    }
    if IsReachable(w, p) {
      var root :| StartsAt(w, root) && (p == root || ListsBlob(w.disk, root, p));
      RootsAre(w, root);
      ReadsAre(w.disk, root);
      assert root in Roots(w) && InsertObject(w.disk, root).Ok? && p in InsertObject(w.disk, root).value;
    }
  }

  /** A sweep leaves below the object root what is reachable, and only that. */
  lemma SweptExactlyWhen(w: World, p: Path)
    requires w.disk.WellFormed() && CanCollect(w) && OBJECTS <= p
    ensures p in Sweep(w).disk.names <==> p in w.disk.names && IsReachable(w, p)
  {
    hide Roots, Reached, Readable, CanCollect, IsReachable, Sweep, FileSystem.Disk.WellFormed;
    ReadableExactlyWhen(w);
    ReachedExactlyWhen(w, p);
    SweepIsExact(w);
  }

  method ReachableObjects(lab: Project) returns (r: Result<set<Path>>)
    ensures r.Ok? <==> Readable(lab.View())
    ensures r.Ok? <==> CanCollect(lab.View())
    ensures r.Ok? ==> r.value == Reached(lab.OnDisk(), Roots(lab.View()))
    ensures r.Ok? ==> forall p :: p in r.value <==> IsReachable(lab.View(), p)
  {
    hide InsertObject, Reached, IndexRoots, RunRoots, LinePaths, CanCollect, IsReachable;
    ReadableExactlyWhen(lab.View());
    var fromIndex := ReachIndexRoots(lab);
    if fromIndex.Err? {
      return fromIndex;
    }
    var reachable := fromIndex.value;
    var rest := lab.runs.Keys;
    ghost var done: set<Path> := {};
    NoRunVisited(lab.runs);
    assert IndexRoots(lab.index) + done == IndexRoots(lab.index);
    while rest != {}
      invariant rest <= lab.runs.Keys
      invariant done == RunRoots(Visited(lab.runs, rest))
      invariant forall id :: id in lab.runs && id !in rest && lab.runs[id].IsRoot() ==>
                  WellFormedLines(lab.runs[id].lines)
      invariant AllReadable(lab.OnDisk(), done)
      invariant reachable == Reached(lab.OnDisk(), IndexRoots(lab.index) + done)
    {
      var id :| id in rest;
      var run := lab.runs[id];
      ghost var before := done;
      VisitRun(lab.runs, rest, id);
      rest := rest - {id};
      if !run.locked && run.status.Completed? {
        var more := ReachLines(lab, run.lines);
        RunLinesAreRoots(lab.runs, id);
        if more.Err? {
          return more;
        }
        done := done + LinePaths(run.lines);
        ReachedUnion(lab.OnDisk(), IndexRoots(lab.index) + before, LinePaths(run.lines));
        assert IndexRoots(lab.index) + before + LinePaths(run.lines) == IndexRoots(lab.index) + done;
        reachable := reachable + more.value;
      }
    }
    assert Visited(lab.runs, rest) == lab.runs;
    forall p ensures p in reachable <==> IsReachable(lab.View(), p) {
      ReachedExactlyWhen(lab.View(), p);
    }
    r := Ok(reachable);
  }

  // ---------------------------------------------------------------- what the sweep leaves

  predicate HasFileBelow(d: Disk, q: Path) {
    exists p :: p in d.names && q < p
  }

  function Unreachable(d: Disk, root: Path, reachable: set<Path>): set<Path> {
    set p | p in d.names && root <= p && p !in reachable
  }

  function PruneDirs(d: Disk, root: Path): Disk {
    d.(dirs := set q | q in d.dirs && (!(root < q) || HasFileBelow(d, q)))
  }

  function SweepFiles(d: Disk, root: Path, reachable: set<Path>): Disk {
    PruneDirs(Unlink(d, Unreachable(d, root, reachable)), root)
  }

  /** `sweep_unreachable_objects`, not a dry run: on an error nothing is removed. */
  ghost function Sweep(w: World): World {
    if Readable(w) then w.(disk := SweepFiles(w.disk, OBJECTS, Reached(w.disk, Roots(w)))) else w
  }

  ghost function TotalSize(d: Disk, ps: set<Path>, sizeOf: Content -> nat): nat {
    if ps == {} then 0
    else
      var p :| p in ps;
      sizeOf(d.At(p).content) + TotalSize(d, ps - {p}, sizeOf)
  }

  lemma NothingHasNoSize(d: Disk, sizeOf: Content -> nat)
    ensures TotalSize(d, {}, sizeOf) == 0
  {
  }

  lemma {:induction false} TotalSizeSplits(d: Disk, ps: set<Path>, sizeOf: Content -> nat, p: Path)
    requires p in ps
    ensures TotalSize(d, ps, sizeOf) == sizeOf(d.At(p).content) + TotalSize(d, ps - {p}, sizeOf)
    decreases |ps|
  {
    var first :| first in ps
      && TotalSize(d, ps, sizeOf) == sizeOf(d.At(first).content) + TotalSize(d, ps - {first}, sizeOf);
    if first != p {
      TotalSizeSplits(d, ps - {first}, sizeOf, p);
      TotalSizeSplits(d, ps - {p}, sizeOf, first);
      assert ps - {first} - {p} == ps - {p} - {first};
    }
  }

  // ---------------------------------------------------------------- the sweep, step by step

  lemma {:induction false} DeepestExists(qs: set<Path>)
    requires qs != {}
    ensures exists q :: q in qs && forall r :: r in qs ==> |r| <= |q|
  {
    var q :| q in qs;
    var rest := qs - {q};
    if rest == {} {
      assert qs == {q};
    } else {
      DeepestExists(rest);
      var m :| m in rest && forall r :: r in rest ==> |r| <= |m|;
      var longest := if |q| <= |m| then m else q;
      forall r | r in qs ensures |r| <= |longest| {
        assert r == q || r in rest;
      }
      assert longest in qs;
    }
  }

  /** Nothing in `rest` lies below anything listed, and nothing listed lies below an earlier one. */
  ghost predicate ContentsSoFar(d: Disk, root: Path, dirs: seq<Path>, rest: set<Path>) {
    && (forall q :: q in dirs || q in rest <==> q in d.dirs && root < q)
    && (forall q :: q in dirs ==> q !in rest)
    && (forall i, j :: 0 <= i < j < |dirs| ==> !(dirs[i] < dirs[j]) && dirs[i] != dirs[j])
    && (forall i, q :: 0 <= i < |dirs| && q in rest ==> !(dirs[i] < q))
  }

  lemma ListDeepest(d: Disk, root: Path, dirs: seq<Path>, rest: set<Path>, q: Path)
    requires ContentsSoFar(d, root, dirs, rest) && q in rest && forall r :: r in rest ==> !(q < r)
    ensures ContentsSoFar(d, root, dirs + [q], rest - {q})
  {
    var more := dirs + [q];
    forall x ensures x in more || x in rest - {q} <==> x in d.dirs && root < x {
      assert x in more <==> x in dirs || x == q;
    }
  }

  /** `WalkDir::contents_first`, directories below `root` only: children come before parents. */
  method ContentsFirst(lab: Project, root: Path) returns (dirs: seq<Path>)
    ensures ContentsFirstOrder(lab.OnDisk(), root, dirs)
  {
    hide ContentsSoFar;
    dirs := [];
    var rest := set q | q in lab.dirs && root < q;
    NothingListedYet(lab.OnDisk(), root, rest);
    while rest != {}
      invariant ContentsSoFar(lab.OnDisk(), root, dirs, rest)
      decreases |rest|
    {
      DeepestExists(rest);
      assert exists q :: q in rest && forall r :: r in rest ==> !(q < r);
      var q :| q in rest && forall r :: r in rest ==> !(q < r);
      ListDeepest(lab.OnDisk(), root, dirs, rest, q);
      dirs := dirs + [q];
      rest := rest - {q};
    }
    AllListed(lab.OnDisk(), root, dirs);
  }

  lemma NothingListedYet(d: Disk, root: Path, rest: set<Path>)
    requires forall q :: q in rest <==> q in d.dirs && root < q
    ensures ContentsSoFar(d, root, [], rest)
  {
  }

  lemma AllListed(d: Disk, root: Path, dirs: seq<Path>)
    requires ContentsSoFar(d, root, dirs, {})
    ensures ContentsFirstOrder(d, root, dirs)
  {
  }

  predicate HasChild(d: Disk, q: Path) {
    (exists p :: p in d.names && |p| == |q| + 1 && q < p) || (exists p :: p in d.dirs && |p| == |q| + 1 && q < p)
  }

  /** The directories after the first `n` of `order` have been visited. */
  ghost predicate Visiting(before: Disk, now: Disk, root: Path, order: seq<Path>, n: nat)
    requires n <= |order|
  {
    && now.names == before.names && now.inodes == before.inodes && now.next == before.next
    && now.dirs <= before.dirs
    && (forall q :: q in before.dirs && !(root < q) ==> q in now.dirs)
    && (forall i :: 0 <= i < n ==> (order[i] in now.dirs <==> HasFileBelow(before, order[i])))
    && (forall i :: n <= i < |order| ==> order[i] in now.dirs)
  }

  /** Visiting children first, a directory is empty exactly when no file lies below it. */
  lemma EmptyMeansNoFile(before: Disk, now: Disk, root: Path, order: seq<Path>, n: nat)
    requires before.WellFormed() && n < |order| && Visiting(before, now, root, order, n)
    requires ContentsFirstOrder(before, root, order)
    ensures HasChild(now, order[n]) <==> HasFileBelow(before, order[n])
  {
    var x := order[n];
    assert x in order;
    if HasFileBelow(before, x) {
      var p :| p in before.names && x < p;
      var c := p[..|x| + 1];
      assert x < c && |c| == |x| + 1;
      if c != p {
        assert c < p;
        ParentsAreDirs(before, c, p);
        ChildWasVisited(before, order, n, root, c);
        assert HasFileBelow(before, c);
      }
    }
    if c :| c in now.dirs && |c| == |x| + 1 && x < c {
      ChildWasVisited(before, order, n, root, c);
      var p :| p in before.names && c < p;
      assert x < p;
    }
  }

  lemma ChildWasVisited(before: Disk, order: seq<Path>, n: nat, root: Path, c: Path)
    requires n < |order| && c in before.dirs && order[n] < c
    requires ContentsFirstOrder(before, root, order)
    ensures exists j :: 0 <= j < n && order[j] == c
  {
    assert order[n] in order;
    assert root < c;
    var j :| 0 <= j < |order| && order[j] == c;
  }

  ghost predicate ContentsFirstOrder(d: Disk, root: Path, order: seq<Path>) {
    && (forall q :: q in order <==> q in d.dirs && root < q)
    && (forall i, j :: 0 <= i < j < |order| ==> !(order[i] < order[j]) && order[i] != order[j])
  }

  lemma VisitOne(before: Disk, now: Disk, root: Path, order: seq<Path>, n: nat)
    requires before.WellFormed() && n < |order| && Visiting(before, now, root, order, n)
    requires ContentsFirstOrder(before, root, order)
    ensures var next := if HasChild(now, order[n]) then now else now.(dirs := now.dirs - {order[n]});
      Visiting(before, next, root, order, n + 1)
    ensures order[n] in now.dirs
  {
    hide FileSystem.Disk.WellFormed, HasChild, HasFileBelow;
    EmptyMeansNoFile(before, now, root, order, n);
    assert order[n] in order;
  }

  lemma VisitedAll(before: Disk, now: Disk, root: Path, order: seq<Path>)
    requires Visiting(before, now, root, order, |order|) && ContentsFirstOrder(before, root, order)
    ensures now == PruneDirs(before, root)
  {
    hide HasFileBelow;
    forall q ensures q in now.dirs <==> q in PruneDirs(before, root).dirs {
      if q in before.dirs && root < q {
        var j :| 0 <= j < |order| && order[j] == q;
      }
    }
  }

  method RemoveEmptyDirs(lab: Project, root: Path, dryRun: bool, summary: Summary) returns (s: Summary)
    requires lab.OnDisk().WellFormed()
    modifies lab
    ensures lab.View() == old(lab.View()).(disk := if dryRun then old(lab.OnDisk())
                                                   else PruneDirs(old(lab.OnDisk()), root))
    ensures s.removedFiles == summary.removedFiles && s.removedBytes == summary.removedBytes
    ensures !dryRun ==> s.removedDirs == summary.removedDirs + |old(lab.dirs)| - |lab.dirs|
  {
    hide FileSystem.Disk.WellFormed, HasFileBelow, PruneDirs;
    var order := ContentsFirst(lab, root);
    ghost var before := lab.OnDisk();
    var count := 0;
    var i := 0;
    while i < |order|
      invariant 0 <= i <= |order| && 0 <= count
      invariant lab.View() == old(lab.View()).(disk := before.(dirs := lab.dirs))
      invariant dryRun ==> lab.dirs == before.dirs
      invariant !dryRun ==> Visiting(before, lab.OnDisk(), root, order, i) && count + |lab.dirs| == |before.dirs|
    {
      var dir := order[i];
      ghost var now := lab.OnDisk();
      if !dryRun {
        VisitOne(before, now, root, order, i);
      }
      if !((exists p :: p in lab.names && |p| == |dir| + 1 && dir < p)
           || (exists p :: p in lab.dirs && |p| == |dir| + 1 && dir < p)) {
        assert !HasChild(now, dir);
        if !dryRun {
          lab.dirs := lab.dirs - {dir};
        }
        count := count + 1;
      }
      i := i + 1;
    }
    if !dryRun {
      VisitedAll(before, lab.OnDisk(), root, order);
    }
    s := summary.(removedDirs := summary.removedDirs + count);
  }

  /** The names when the files in `rest` are still to be removed. */
  ghost function Unremoved(names: map<Path, nat>, doomed: set<Path>, rest: set<Path>): map<Path, nat> {
    names - (doomed - rest)
  }

  lemma NothingRemoved(names: map<Path, nat>, doomed: set<Path>)
    ensures Unremoved(names, doomed, doomed) == names && Unremoved(names, doomed, {}) == names - doomed
  {
    assert doomed - doomed == {} && doomed - {} == doomed;
  }

  lemma RemoveStep(names: map<Path, nat>, doomed: set<Path>, rest: set<Path>, p: Path)
    requires p in rest && rest <= doomed
    ensures Unremoved(names, doomed, rest - {p}) == Unremoved(names, doomed, rest) - {p}
    ensures forall q :: q in rest && q in names ==>
              q in Unremoved(names, doomed, rest) && Unremoved(names, doomed, rest)[q] == names[q]
  {
    assert doomed - (rest - {p}) == (doomed - rest) + {p};
  }

  method RemoveFiles(lab: Project, doomed: set<Path>, dryRun: bool, sizeOf: Content -> nat) returns (s: Summary)
    requires doomed <= lab.names.Keys
    modifies lab
    ensures lab.View() == old(lab.View()).(disk := if dryRun then old(lab.OnDisk())
                                                   else Unlink(old(lab.OnDisk()), doomed))
    ensures s == Summary(|doomed|, 0, TotalSize(old(lab.OnDisk()), doomed, sizeOf))
  {
    hide TotalSize, Unremoved;
    ghost var before := lab.OnDisk();
    var count, bytes := 0, 0;
    var files := doomed;
    NothingRemoved(before.names, doomed);
    while files != {}
      invariant files <= doomed
      invariant lab.names == if dryRun then before.names else Unremoved(before.names, doomed, files)
      invariant lab.View() == old(lab.View()).(disk := before.(names := lab.names))
      invariant 0 <= count && count + |files| == |doomed|
      invariant 0 <= bytes && bytes + TotalSize(before, files, sizeOf) == TotalSize(before, doomed, sizeOf)
      decreases |files|
    {
      var p :| p in files;
      RemoveStep(before.names, doomed, files, p);
      var size := SizeOnDisk(lab, p, sizeOf);
      TotalSizeSplits(before, files, sizeOf, p);
      if !dryRun {
        lab.names := lab.names - {p};
      }
      count, bytes := count + 1, bytes + size;
      files := files - {p};
    }
    NothingHasNoSize(before, sizeOf);
    s := Summary(count, 0, bytes);
  }

  method SizeOnDisk(lab: Project, p: Path, sizeOf: Content -> nat) returns (size: nat)
    ensures size == sizeOf(lab.OnDisk().At(p).content)
  {
    var data := if p in lab.names && lab.names[p] in lab.inodes then lab.inodes[lab.names[p]] else Data(Raw([]), 0);
    size := sizeOf(data.content);
  }

  method RemoveUnreachableFiles(lab: Project, root: Path, reachable: set<Path>, dryRun: bool, sizeOf: Content -> nat)
    returns (s: Summary)
    requires lab.OnDisk().WellFormed()
    modifies lab
    ensures lab.View() == old(lab.View()).(disk := if dryRun then old(lab.OnDisk())
                                                   else SweepFiles(old(lab.OnDisk()), root, reachable))
    ensures s.removedFiles == |Unreachable(old(lab.OnDisk()), root, reachable)|
    ensures s.removedBytes == TotalSize(old(lab.OnDisk()), Unreachable(old(lab.OnDisk()), root, reachable), sizeOf)
    ensures !dryRun ==> s.removedDirs == |old(lab.dirs)| - |lab.dirs|
  {
    hide HasFileBelow, FileSystem.Disk.WellFormed;
    var files := set p | p in lab.names && root <= p && p !in reachable;
    ghost var before := lab.OnDisk();
    assert files == Unreachable(before, root, reachable);
    s := RemoveFiles(lab, files, dryRun, sizeOf);
    UnlinkKeepsShape(before, files);
    s := RemoveEmptyDirs(lab, root, dryRun, s);
  }

  /** An error leaves everything in place; a dry run counts the same files and bytes. */
  method SweepUnreachableObjects(lab: Project, dryRun: bool, sizeOf: Content -> nat) returns (r: Result<Summary>)
    requires lab.OnDisk().WellFormed()
    modifies lab
    ensures lab.View() == if dryRun then old(lab.View()) else Sweep(old(lab.View()))
    ensures r.Ok? <==> Readable(old(lab.View()))
    ensures r.Ok? <==> CanCollect(old(lab.View()))
    ensures r.Ok? && !dryRun ==> forall p :: OBJECTS <= p ==>
              (p in lab.names <==> p in old(lab.names) && IsReachable(old(lab.View()), p))
    ensures r.Ok? ==>
      var gone := Unreachable(old(lab.OnDisk()), OBJECTS, Reached(old(lab.OnDisk()), Roots(old(lab.View()))));
      r.value.removedFiles == |gone| && r.value.removedBytes == TotalSize(old(lab.OnDisk()), gone, sizeOf)
  {
    hide Readable, Reached, Roots, CanCollect, IsReachable, FileSystem.Disk.WellFormed;
    ReadableExactlyWhen(lab.View());
    if CanCollect(lab.View()) {
      forall p | OBJECTS <= p
        ensures p in Sweep(lab.View()).disk.names <==> p in lab.names && IsReachable(lab.View(), p)
      {
        SweptExactlyWhen(lab.View(), p);
      }
    }
    var reachable := ReachableObjects(lab);
    if reachable.Err? {
      return Err(reachable.error);
    }
    var s := RemoveUnreachableFiles(lab, OBJECTS, reachable.value, dryRun, sizeOf);
    r := Ok(s);
  }

  // ---------------------------------------------------------------- exactness

  lemma PruneKeepsShape(d: Disk, root: Path)
    requires d.WellFormed()
    ensures PruneDirs(d, root).WellFormed()
  {
    var d' := PruneDirs(d, root);
    forall p | p in d'.names ensures d'.CanWrite(p) && Parent(p) in d'.dirs {
      assert d.CanWrite(p);
      assert Parent(p) < p;
    }
    forall q | q in d'.dirs && q != [] ensures Parent(q) in d'.dirs {
      assert Parent(q) < q;
      if root < Parent(q) {
        var p :| p in d.names && q < p;
        assert Parent(q) < p;
      }
    }
  }

  /** After a sweep the files under `objects/` are exactly the reachable ones that were there, every
      other file is untouched, and no directory below `objects/` is left without a file. */
  lemma SweepIsExact(w: World)
    requires w.disk.WellFormed() && Readable(w)
    ensures var d, d' := w.disk, Sweep(w).disk;
      && d'.WellFormed() && d'.inodes == d.inodes
      && (forall p :: p in d'.names <==> p in d.names && (OBJECTS <= p ==> p in Reached(d, Roots(w))))
      && (forall p :: p in d'.names ==> d'.names[p] == d.names[p])
      && (forall q :: q in d'.dirs && OBJECTS < q ==> exists p :: p in d'.names && q < p)
      && (forall q :: q in d.dirs && !(OBJECTS < q) ==> q in d'.dirs)
  {
    hide Reached, Roots, Readable;
    var gone := Unreachable(w.disk, OBJECTS, Reached(w.disk, Roots(w)));
    UnlinkKeepsShape(w.disk, gone);
    PruneKeepsShape(Unlink(w.disk, gone), OBJECTS);
    forall q | q in Sweep(w).disk.dirs && OBJECTS < q ensures exists p :: p in Sweep(w).disk.names && q < p {
      assert HasFileBelow(Unlink(w.disk, gone), q);
    }
  }

  lemma ReachedKeepsReading(w: World, p: Path)
    requires w.disk.WellFormed() && Readable(w) && p in Roots(w)
    ensures InsertObject(Sweep(w).disk, p) == InsertObject(w.disk, p)
  {
    SweepIsExact(w);
    assert p in Reached(w.disk, Roots(w)) by {
      hide Roots;
      assert InsertObject(w.disk, p).Ok? && p in InsertObject(w.disk, p).value;
    }
  }

  /** What was reachable before a sweep is what is reachable after it, so a second sweep removes nothing. */
  lemma SecondSweepRemovesNothing(w: World)
    requires w.disk.WellFormed()
    ensures Sweep(Sweep(w)) == Sweep(w)
  {
    hide Roots;
    if Readable(w) {
      SweepIsExact(w);
      var w' := Sweep(w);
      SameRoots(w, w');
      forall p | p in Roots(w) ensures InsertObject(w'.disk, p) == InsertObject(w.disk, p) {
        ReachedKeepsReading(w, p);
      }
      SameReached(w.disk, w'.disk, Roots(w));
      assert Unreachable(w'.disk, OBJECTS, Reached(w'.disk, Roots(w'))) == {};
      assert Unlink(w'.disk, {}) == w'.disk;
      forall q | q in w'.disk.dirs ensures !(OBJECTS < q) || HasFileBelow(w'.disk, q) {
      }
    }
  }

  lemma SameRoots(w: World, w': World)
    requires w'.index == w.index && w'.runs == w.runs
    ensures Roots(w') == Roots(w)
  {
  }

  lemma SameReached(d: Disk, d': Disk, roots: set<Path>)
    requires forall p :: p in roots ==> InsertObject(d', p) == InsertObject(d, p)
    ensures Reached(d', roots) == Reached(d, roots)
  {
    hide InsertObject;
  }
}
