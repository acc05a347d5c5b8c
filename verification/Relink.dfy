/** `ArtifactStore::relink_dir_to_blobs` and `relink_run_outputs`: a completed run's files become
    hard links to the blobs with the same content. */
module Relink {
  import opened Wrappers
  import opened Order
  import opened Text
  import opened FileSystem
  import opened Lab
  import opened Ingest
  import opened Materialize

  const RELINK_EXTENSION := ".rlab-relink-tmp"

  /** The last dot of a file name, or its length when there is none. */
  function LastDot(name: string): (i: nat)
    ensures i <= |name|
  {
    if name == "" then 0
    else
      var j := LastDot(name[1..]);
      if j < |name| - 1 || name[0] != '.' then j + 1 else 0
  }

  /** `Path::file_stem`: a leading dot starts no extension. */
  function Stem(name: string): string {
    if LastDot(name) == 0 then name else name[..LastDot(name)]
  }

  /** `target.with_extension("rlab-relink-tmp")` */
  function TmpPath(target: Path): Path {
    if target == [] then [] else Parent(target) + [Stem(target[|target| - 1]) + RELINK_EXTENSION]
  }

  /** Hard-link `blob` under `tmp` and rename that over `target`. */
  function LinkOver(d: Disk, blob: Path, tmp: Path, target: Path): Disk
    requires blob in d.names
  {
    var named := d.names[tmp := d.names[blob]][target := d.names[blob]];
    d.(names := if tmp == target then named else named - {tmp})
  }

  /** One entry; the flag says whether the file was replaced. */
  function RelinkOne(d: Disk, dir: Path, e: TreeEntry): (Disk, Result<bool>) {
    var blob := BlobPath(e.sha256);
    var place := EnsureChild(dir, e.path);
    if |e.sha256| <= 2 then (d, Err(Artifact))
    else if place.Err? then (d, Err(place.error))
    else
      var target := place.value;
      if blob !in d.names || target !in d.names || d.names[blob] == d.names[target] then (d, Ok(false))
      else
        var tmp := TmpPath(target);
        var d1 := Unlink(d, {tmp});
        if tmp in d1.dirs || blob !in d1.names then (d1, Err(Io))
        else (LinkOver(d1, blob, tmp, target), Ok(true))
  }

  /** The loop over the entries still to relink. */
  function RelinkFrom(d: Disk, dir: Path, count: nat, entries: seq<TreeEntry>): (Disk, Result<nat>)
    decreases |entries|
  {
    if entries == [] then (d, Ok(count))
    else
      var (d1, r) := RelinkOne(d, dir, entries[0]);
      if r.Err? then (d1, Err(r.error))
      else RelinkFrom(d1, dir, if r.value then count + 1 else count, entries[1..])
  }

  function RelinkDir(d: Disk, dir: Path, sha: string): (Disk, Result<nat>) {
    var tree := TreePath(sha);
    if tree !in d.names || d.names[tree] !in d.inodes then (d, Err(Io))
    else if !d.At(tree).content.TreeDoc? then (d, Err(Serialization))
    else RelinkFrom(d, dir, 0, d.At(tree).content.entries)
  }

  /** The loop over the lines of a run's `artifacts.jsonl` still to read. */
  function RelinkLines(d: Disk, outputs: Path, seen: set<Path>, count: nat, lines: seq<Line>): (Disk, Result<nat>)
    decreases |lines|
  {
    if lines == [] then (d, Ok(count))
    else if lines[0].Malformed? then (d, Err(Serialization))
    else
      var e := lines[0].event;
      if e.storage != Some(DirectoryStorage) || e.path.None? || e.sha256.None?
         || !(outputs <= e.path.value) || e.path.value !in d.dirs || e.path.value in seen
      then RelinkLines(d, outputs, seen, count, lines[1..])
      else
        var (d1, r) := RelinkDir(d, e.path.value, e.sha256.value);
        if r.Err? then (d1, r)
        else RelinkLines(d1, outputs, seen + {e.path.value}, count + r.value, lines[1..])
  }

  // ---------------------------------------------------------------- one entry

  function Place(dir: Path, e: TreeEntry): Path {
    var place := EnsureChild(dir, e.path);
    if place.Ok? then place.value else []
  }

  /** The entry's file and its blob both exist. */
  predicate Meets(d: Disk, dir: Path, e: TreeEntry) {
    EnsureChild(dir, e.path).Ok? && BlobPath(e.sha256) in d.names && Place(dir, e) in d.names
  }

  /** They exist and are two inodes. */
  predicate Linkable(d: Disk, dir: Path, e: TreeEntry) {
    Meets(d, dir, e) && d.names[BlobPath(e.sha256)] != d.names[Place(dir, e)]
  }

  /** No other file has the temporary name. */
  predicate TmpFree(d: Disk, dir: Path, e: TreeEntry) {
    TmpPath(Place(dir, e)) == Place(dir, e) || TmpPath(Place(dir, e)) !in d.names
  }

  /** Relinking this entry would lose bytes: its file no longer matches the tree, or another file
      already has the temporary name. */
  predicate Hurts(d: Disk, dir: Path, e: TreeEntry) {
    Linkable(d, dir, e) &&
    (d.At(Place(dir, e)).content != d.At(BlobPath(e.sha256)).content || !TmpFree(d, dir, e))
  }

  ghost predicate SameBytes(d: Disk, d': Disk) {
    && d'.names.Keys == d.names.Keys
    && forall p :: p in d.names ==> d'.At(p).content == d.At(p).content
  }

  /** The directory's files are its own: none of its paths is an object's. */
  lemma PlaceIsNoBlob(dir: Path, e: TreeEntry, sha: string)
    requires Apart(dir, OBJECTS) && EnsureChild(dir, e.path).Ok?
    ensures Place(dir, e) != BlobPath(sha) && Place(dir, e) != TreePath(sha)
    ensures TmpPath(Place(dir, e)) != BlobPath(sha) || Place(dir, e) == dir
    ensures TmpPath(Place(dir, e)) != TreePath(sha) || Place(dir, e) == dir
  {
    LayoutIsSeparate(sha, sha);
    var p := Place(dir, e);
    PrefixesCompare(dir, OBJECTS, p);
    if p != dir && p != [] {
      assert dir <= Parent(p);
      assert dir <= TmpPath(p);
      PrefixesCompare(dir, OBJECTS, TmpPath(p));
    }
  }

  lemma PlaceIsBelow(d: Disk, dir: Path, e: TreeEntry)
    requires d.WellFormed() && dir in d.dirs && EnsureChild(dir, e.path).Ok? && Place(dir, e) in d.names
    ensures dir < Place(dir, e) && dir <= TmpPath(Place(dir, e))
  {
    var target := Place(dir, e);
    FileIsNoDir(d, target);
    assert dir <= target && dir != target;
    assert dir <= Parent(target);
    assert Parent(target) <= TmpPath(target);
  }

  /** What one entry does to the names, for a directory `dir` apart from the objects. */
  lemma RelinkOneEffect(d: Disk, dir: Path, e: TreeEntry)
    requires d.WellFormed() && Apart(dir, OBJECTS) && dir in d.dirs
    ensures var (d', r) := RelinkOne(d, dir, e);
      && d'.inodes == d.inodes && d'.dirs == d.dirs && d'.next == d.next
      && d'.names.Keys <= d.names.Keys
      && (forall p :: p in d'.names && p != Place(dir, e) ==> d'.names[p] == d.names[p])
      && (r.Ok? ==> (r.value <==> Linkable(d, dir, e)))
      && (r.Ok? && !Linkable(d, dir, e) ==> d' == d)
      && (r.Ok? && Linkable(d, dir, e) ==>
            && Place(dir, e) in d'.names
            && d'.names[Place(dir, e)] == d.names[BlobPath(e.sha256)]
            && d'.names.Keys == d.names.Keys
                 - (if TmpPath(Place(dir, e)) == Place(dir, e) then {} else {TmpPath(Place(dir, e))}))
  {
    hide EnsureChild, TmpPath, FileSystem.Disk.WellFormed, BlobPath;
    var (d', r) := RelinkOne(d, dir, e);
    if r.Ok? && r.value {
      PlaceIsNoBlob(dir, e, e.sha256);
    }
  }

  /** Objects keep their names and inodes whatever happens. */
  lemma RelinkOneSparesObjects(d: Disk, dir: Path, e: TreeEntry, p: Path)
    requires d.WellFormed() && Apart(dir, OBJECTS) && dir in d.dirs && OBJECTS <= p && p in d.names
    ensures p in RelinkOne(d, dir, e).0.names && RelinkOne(d, dir, e).0.names[p] == d.names[p]
  {
    if Linkable(d, dir, e) {
      var target := Place(dir, e);
      PlaceIsBelow(d, dir, e);
      PrefixesCompare(dir, OBJECTS, target);
      PrefixesCompare(dir, OBJECTS, TmpPath(target));
    }
  }

  lemma FewerNamesKeepShape(d: Disk, d': Disk)
    requires d.WellFormed() && d'.names.Keys <= d.names.Keys && d'.dirs == d.dirs && d'.next == d.next
    requires d'.inodes == d.inodes && forall p :: p in d'.names ==> d'.names[p] in d.inodes
    ensures d'.WellFormed()
  {
    forall p | p in d'.names ensures d'.CanWrite(p) && Parent(p) in d'.dirs {
      assert d.CanWrite(p);
      assert p in d.names;
    }
  }

  lemma RelinkOneKeepsStore(h: Hash, d: Disk, dir: Path, e: TreeEntry)
    requires StoreOk(h, d) && Apart(dir, OBJECTS) && dir in d.dirs
    ensures StoreOk(h, RelinkOne(d, dir, e).0) && dir in RelinkOne(d, dir, e).0.dirs
  {
    var d' := RelinkOne(d, dir, e).0;
    RelinkOneEffect(d, dir, e);
    FewerNamesKeepShape(d, d');
    forall x ensures BlobPath(x) in d'.names ==> d'.At(BlobPath(x)) == d.At(BlobPath(x)) {
      LayoutIsSeparate(x, x);
      if BlobPath(x) in d.names { RelinkOneSparesObjects(d, dir, e, BlobPath(x)); }
    }
    forall x ensures TreePath(x) in d'.names ==> d'.At(TreePath(x)) == d.At(TreePath(x)) {
      LayoutIsSeparate(x, x);
      if TreePath(x) in d.names { RelinkOneSparesObjects(d, dir, e, TreePath(x)); }
    }
  }

  // ---------------------------------------------------------------- a pass over many entries

  /** An entry of the tree that a directory is relinked to. */
  datatype Link = Link(dir: Path, entry: TreeEntry)

  function BlobOf(l: Link): Path { BlobPath(l.entry.sha256) }

  function PlaceOf(l: Link): Path { Place(l.dir, l.entry) }

  function LinksOf(dir: Path, entries: seq<TreeEntry>): (links: seq<Link>)
    ensures |links| == |entries| && forall i :: 0 <= i < |entries| ==> links[i] == Link(dir, entries[i])
  {
    seq(|entries|, i requires 0 <= i < |entries| => Link(dir, entries[i]))
  }

  /** All links in turn, up to the first that fails; the flag says whether none does. */
  function RelinkAll(d: Disk, links: seq<Link>): (Disk, bool) {
    if links == [] then (d, true)
    else
      var l := links[|links| - 1];
      var (d1, ok) := RelinkAll(d, links[..|links| - 1]);
      if !ok then (d1, false)
      else
        var (d2, r) := RelinkOne(d1, l.dir, l.entry);
        (d2, r.Ok?)
  }

  /** How many links are done before the pass stops. */
  function Done(d: Disk, links: seq<Link>): (n: nat)
    ensures n <= |links|
  {
    if links == [] || RelinkAll(d, links).1 then |links| else Done(d, links[..|links| - 1])
  }

  /** The directories exist below `root`, away from the objects. */
  ghost predicate Below(d: Disk, root: Path, links: seq<Link>) {
    Apart(root, OBJECTS) && forall i :: 0 <= i < |links| ==> root <= links[i].dir && links[i].dir in d.dirs
  }

  /** What relinking may change: only files below `outputs`, never an object, an inode or a directory. */
  ghost predicate RelinkFrame(d: Disk, d': Disk, outputs: Path) {
    && d'.inodes == d.inodes && d'.dirs == d.dirs && d'.next == d.next
    && d'.names.Keys <= d.names.Keys
    && (forall p :: p in d.names && !(outputs <= p) ==> p in d'.names && d'.names[p] == d.names[p])
    && (forall p :: OBJECTS <= p && p in d.names ==> p in d'.names && d'.names[p] == d.names[p])
  }

  ghost predicate ObjectInode(d: Disk, i: nat) {
    exists x :: x in d.names && OBJECTS <= x && d.names[x] == i
  }

  /** Every name keeps its inode or takes an object's. */
  ghost predicate TakesObjects(d: Disk, d': Disk) {
    && d'.names.Keys <= d.names.Keys
    && (forall p :: OBJECTS <= p && p in d.names ==> p in d'.names && d'.names[p] == d.names[p])
    && forall p :: p in d'.names ==> d'.names[p] == d.names[p] || ObjectInode(d, d'.names[p])
  }

  lemma TakesObjectsChains(d0: Disk, d1: Disk, d2: Disk)
    requires TakesObjects(d0, d1) && TakesObjects(d1, d2)
    ensures TakesObjects(d0, d2)
  {
    forall i | ObjectInode(d1, i) ensures ObjectInode(d0, i) {
      var x :| x in d1.names && OBJECTS <= x && d1.names[x] == i;
      assert x in d0.names && d0.names[x] == i;
    }
  }

  lemma RelinkOneStaysBelow(d: Disk, dir: Path, e: TreeEntry, p: Path)
    requires d.WellFormed() && dir in d.dirs && !(dir <= p)
    ensures p in RelinkOne(d, dir, e).0.names <==> p in d.names
    ensures p in d.names ==> RelinkOne(d, dir, e).0.names[p] == d.names[p]
  {
    if Linkable(d, dir, e) {
      var target := Place(dir, e);
      PlaceIsBelow(d, dir, e);
    }
  }

  lemma RelinkOneTakesObjects(h: Hash, d: Disk, dir: Path, e: TreeEntry)
    requires StoreOk(h, d) && Apart(dir, OBJECTS) && dir in d.dirs
    ensures TakesObjects(d, RelinkOne(d, dir, e).0)
  {
    var d' := RelinkOne(d, dir, e).0;
    RelinkOneEffect(d, dir, e);
    forall p | OBJECTS <= p && p in d.names ensures p in d'.names && d'.names[p] == d.names[p] {
      RelinkOneSparesObjects(d, dir, e, p);
    }
    LayoutIsSeparate(e.sha256, e.sha256);
    if BlobPath(e.sha256) in d.names {
      assert ObjectInode(d, d.names[BlobPath(e.sha256)]);
    }
  }

  lemma TakesNothing(d: Disk)
    ensures TakesObjects(d, d)
  {
  }

  lemma ApartBelow(a: Path, b: Path, p: Path)
    requires Apart(a, b) && a <= p
    ensures Apart(p, b)
  {
    PrefixesCompare(a, b, p);
  }

  lemma RelinkOneFrame(h: Hash, d: Disk, root: Path, l: Link)
    requires StoreOk(h, d) && Below(d, root, [l])
    ensures var d' := RelinkOne(d, l.dir, l.entry).0;
      StoreOk(h, d') && RelinkFrame(d, d', root) && TakesObjects(d, d')
  {
    hide RelinkOne, Honest, FileSystem.Disk.WellFormed, TakesObjects;
    assert [l][0] == l;
    ApartBelow(root, OBJECTS, l.dir);
    RelinkOneEffect(d, l.dir, l.entry);
    RelinkOneKeepsStore(h, d, l.dir, l.entry);
    RelinkOneTakesObjects(h, d, l.dir, l.entry);
    forall p | p in d.names && (OBJECTS <= p || !(root <= p))
      ensures p in RelinkOne(d, l.dir, l.entry).0.names && RelinkOne(d, l.dir, l.entry).0.names[p] == d.names[p]
    {
      if OBJECTS <= p {
        RelinkOneSparesObjects(d, l.dir, l.entry, p);
      } else {
        RelinkOneStaysBelow(d, l.dir, l.entry, p);
      }
    }
  }

  lemma FrameChains(d0: Disk, d1: Disk, d2: Disk, root: Path)
    requires RelinkFrame(d0, d1, root) && RelinkFrame(d1, d2, root)
    ensures RelinkFrame(d0, d2, root)
  {
  }

  lemma FrameOfNothing(d: Disk, root: Path)
    ensures RelinkFrame(d, d, root)
  {
  }

  /** A pass keeps the store, every inode, every object and all that lies elsewhere; a name keeps its inode or
      takes an object's. */
  lemma {:induction false} RelinkAllKeepsStore(h: Hash, d: Disk, root: Path, links: seq<Link>)
    requires StoreOk(h, d) && Below(d, root, links)
    ensures var d' := RelinkAll(d, links).0;
      StoreOk(h, d') && RelinkFrame(d, d', root) && TakesObjects(d, d')
  {
    hide RelinkOne, StoreOk, TakesObjects, RelinkFrame;
    FrameOfNothing(d, root);
    TakesNothing(d);
    if links != [] {
      var n := |links| - 1;
      RelinkAllKeepsStore(h, d, root, links[..n]);
      var (d1, ok) := RelinkAll(d, links[..n]);
      if ok {
        assert d1.dirs == d.dirs by { FrameSameShape(d, d1, root); }
        RelinkOneFrame(h, d1, root, links[n]);
        var d2 := RelinkOne(d1, links[n].dir, links[n].entry).0;
        FrameChains(d, d1, d2, root);
        TakesObjectsChains(d, d1, d2);
      }
    }
  }

  lemma FrameSameShape(d: Disk, d': Disk, root: Path)
    requires RelinkFrame(d, d', root)
    ensures d'.dirs == d.dirs && d'.inodes == d.inodes && d'.names.Keys <= d.names.Keys
    ensures forall p :: OBJECTS <= p && p in d.names ==> p in d'.names && d'.names[p] == d.names[p]
  {
  }

  lemma {:induction false} RelinkTwoParts(d: Disk, a: seq<Link>, b: seq<Link>)
    ensures RelinkAll(d, a + b) == if RelinkAll(d, a).1 then RelinkAll(RelinkAll(d, a).0, b) else RelinkAll(d, a)
    decreases |b|
  {
    hide RelinkOne;
    if b == [] {
      assert a + b == a;
    } else {
      var n := |b| - 1;
      assert (a + b)[..|a + b| - 1] == a + b[..n];
      RelinkTwoParts(d, a, b[..n]);
    }
  }

  /** The loop over a directory's entries is such a pass. */
  lemma {:induction false} EntriesAreLinks(d: Disk, dir: Path, count: nat, entries: seq<TreeEntry>)
    ensures RelinkFrom(d, dir, count, entries).0 == RelinkAll(d, LinksOf(dir, entries)).0
    ensures RelinkFrom(d, dir, count, entries).1.Ok? <==> RelinkAll(d, LinksOf(dir, entries)).1
    decreases |entries|
  {
    hide RelinkOne;
    if entries != [] {
      var first, rest := Link(dir, entries[0]), LinksOf(dir, entries[1..]);
      assert LinksOf(dir, entries) == [first] + rest;
      RelinkTwoParts(d, [first], rest);
      assert RelinkAll(d, [first][..0]) == (d, true);
      var (d1, r) := RelinkOne(d, dir, entries[0]);
      assert RelinkAll(d, [first]) == (d1, r.Ok?);
      if r.Ok? {
        EntriesAreLinks(d1, dir, if r.value then count + 1 else count, entries[1..]);
      }
    }
  }

  lemma FailureChangesNothing(h: Hash, d: Disk, dir: Path, e: TreeEntry)
    requires StoreOk(h, d) && Apart(dir, OBJECTS) && dir in d.dirs
    requires RelinkOne(d, dir, e).1.Err?
    ensures RelinkOne(d, dir, e).0 == d
  {
    hide EnsureChild, TmpPath;
    if EnsureChild(dir, e.path).Ok? {
      var tmp := TmpPath(Place(dir, e));
      if Linkable(d, dir, e) {
        PlaceIsNoBlob(dir, e, e.sha256);
        PlaceIsBelow(d, dir, e);
        if tmp in d.names { FileIsNoDir(d, tmp); }
        assert d.names - {tmp} == d.names;
      }
    }
  }

  /** What a stopped pass leaves is what the links before the failing one leave. */
  lemma {:induction false} StoppedPass(h: Hash, d: Disk, root: Path, links: seq<Link>)
    requires StoreOk(h, d) && Below(d, root, links)
    ensures var n := Done(d, links);
      RelinkAll(d, links[..n]) == (RelinkAll(d, links).0, true) && (RelinkAll(d, links).1 <==> n == |links|)
  {
    hide RelinkOne, StoreOk, RelinkFrame, TakesObjects;
    assert links[..|links|] == links;
    if links != [] && !RelinkAll(d, links).1 {
      var n := |links| - 1;
      var front, l := links[..n], links[n];
      StoppedPass(h, d, root, front);
      assert front[..Done(d, front)] == links[..Done(d, front)];
      RelinkAllKeepsStore(h, d, root, front);
      var (d1, ok) := RelinkAll(d, front);
      if ok {
        FrameSameShape(d, d1, root);
        ApartBelow(root, OBJECTS, l.dir);
        FailureChangesNothing(h, d1, l.dir, l.entry);
      }
    }
  }

  // ---------------------------------------------------------------- what a pass does to the bytes

  /** Wherever a file will be replaced, the temporary name is free. */
  ghost predicate Quiet(d: Disk, links: seq<Link>) {
    forall i :: 0 <= i < |links| && Linkable(d, links[i].dir, links[i].entry) ==>
      TmpFree(d, links[i].dir, links[i].entry)
  }

  /** No later link whose blob exists has the same place. */
  ghost predicate IsLastAt(d: Disk, links: seq<Link>, i: int) {
    && 0 <= i < |links| && Meets(d, links[i].dir, links[i].entry)
    && forall j :: i < j < |links| && Meets(d, links[j].dir, links[j].entry) ==>
         PlaceOf(links[j]) != PlaceOf(links[i])
  }

  /** No temporary name is in use, and each place has the content of the last link to it. */
  ghost predicate Harmless(d: Disk, links: seq<Link>) {
    && Quiet(d, links)
    && forall i :: IsLastAt(d, links, i) ==>
         d.At(PlaceOf(links[i])).content == d.At(BlobOf(links[i])).content
  }

  /** The path whose inode `p` ends up with. */
  ghost function LandsOn(d: Disk, links: seq<Link>, p: Path): Path {
    if links == [] then p
    else
      var l := links[|links| - 1];
      if Meets(d, l.dir, l.entry) && PlaceOf(l) == p then BlobOf(l)
      else LandsOn(d, links[..|links| - 1], p)
  }

  /** That is the blob of the last link to `p`, or `p` itself. */
  lemma {:induction false} LandsOnLast(d: Disk, links: seq<Link>, p: Path)
    ensures (exists i :: IsLastAt(d, links, i) && PlaceOf(links[i]) == p && LandsOn(d, links, p) == BlobOf(links[i]))
         || (LandsOn(d, links, p) == p
             && forall i :: 0 <= i < |links| && Meets(d, links[i].dir, links[i].entry) ==> PlaceOf(links[i]) != p)
  {
    hide Meets, Place, BlobPath;
    if links != [] {
      var n := |links| - 1;
      var front, l := links[..n], links[n];
      if Meets(d, l.dir, l.entry) && PlaceOf(l) == p {
        assert IsLastAt(d, links, n);
      } else {
        LandsOnLast(d, front, p);
        if i :| IsLastAt(d, front, i) && PlaceOf(front[i]) == p && LandsOn(d, front, p) == BlobOf(front[i]) {
          assert front[i] == links[i];
          forall j | i < j < |links| && Meets(d, links[j].dir, links[j].entry)
            ensures PlaceOf(links[j]) != PlaceOf(links[i])
          {
            assert j < n ==> front[j] == links[j];
          }
          assert IsLastAt(d, links, i);
        } else {
          forall i | 0 <= i < |links| && Meets(d, links[i].dir, links[i].entry) ensures PlaceOf(links[i]) != p {
            assert i < n ==> front[i] == links[i];
          }
        }
      }
    }
  }

  ghost predicate IsLinkTo(d: Disk, links: seq<Link>, i: int, p: Path) {
    0 <= i < |links| && Meets(d, links[i].dir, links[i].entry) && PlaceOf(links[i]) == p
  }

  lemma LandsOnMembers(d: Disk, links: seq<Link>, p: Path)
    requires p in d.names
    ensures LandsOn(d, links, p) in d.names
    ensures LandsOn(d, links, p) == p
         || exists i :: IsLinkTo(d, links, i, p) && LandsOn(d, links, p) == BlobOf(links[i])
  {
    LandsOnLast(d, links, p);
    if i :| IsLastAt(d, links, i) && PlaceOf(links[i]) == p && LandsOn(d, links, p) == BlobOf(links[i]) {
      assert IsLinkTo(d, links, i, p);
    }
  }

  /** Each name has the inode of the path it lands on. */
  ghost predicate Landed(d: Disk, links: seq<Link>, d': Disk) {
    && d'.inodes == d.inodes && d'.names.Keys == d.names.Keys && d'.dirs == d.dirs
    && forall p {:trigger LandsOn(d, links, p)} :: p in d.names ==>
         LandsOn(d, links, p) in d.names && d'.names[p] == d.names[LandsOn(d, links, p)]
  }

  lemma LandedAt(d: Disk, links: seq<Link>, d': Disk, p: Path)
    requires Landed(d, links, d') && p in d.names
    ensures p in d'.names && LandsOn(d, links, p) in d.names && d'.names[p] == d.names[LandsOn(d, links, p)]
    ensures d'.At(p) == d.At(LandsOn(d, links, p))
  {
    hide LandsOn;
  }

  /** So it is while no temporary name is in the way. */
  lemma {:induction false} PassLands(h: Hash, d: Disk, root: Path, links: seq<Link>)
    requires StoreOk(h, d) && Below(d, root, links) && Quiet(d, links) && RelinkAll(d, links).1
    ensures Landed(d, links, RelinkAll(d, links).0)
  {
    hide RelinkOne, StoreOk, RelinkFrame, TakesObjects, Linkable, Meets, TmpFree, Place, BlobPath, Landed;
    if links == [] {
      LandsAtHome(d);
    } else {
      var n := |links| - 1;
      var front, l := links[..n], links[n];
      QuietPrefix(d, links, n);
      PassLands(h, d, root, front);
      RelinkAllKeepsStore(h, d, root, front);
      var d1 := RelinkAll(d, front).0;
      FrameSameShape(d, d1, root);
      ApartBelow(root, OBJECTS, l.dir);
      LinkStep(h, d, d1, root, links);
    }
  }

  lemma LandsAtHome(d: Disk)
    ensures Landed(d, [], d)
  {
  }

  lemma QuietPrefix(d: Disk, links: seq<Link>, n: nat)
    requires Quiet(d, links) && n <= |links|
    ensures Quiet(d, links[..n])
  {
    hide Linkable, TmpFree;
    forall i | 0 <= i < n && Linkable(d, links[..n][i].dir, links[..n][i].entry)
      ensures TmpFree(d, links[..n][i].dir, links[..n][i].entry)
    {
      assert links[..n][i] == links[i];
    }
  }

  /** Whoever replaces the file at the last link's place finds, on disk `d` already, a link to that place with
      another inode. */
  lemma ReplacedMeansLinkable(h: Hash, d: Disk, d1: Disk, links: seq<Link>) returns (i: nat)
    requires links != [] && StoreOk(h, d)
    requires var front, l := links[..|links| - 1], links[|links| - 1];
      && Apart(l.dir, OBJECTS) && Meets(d, l.dir, l.entry) && Linkable(d1, l.dir, l.entry)
      && d1.names[BlobOf(l)] == d.names[BlobOf(l)]
      && LandsOn(d, front, PlaceOf(l)) in d.names
      && d1.names[PlaceOf(l)] == d.names[LandsOn(d, front, PlaceOf(l))]
    ensures i < |links| && Linkable(d, links[i].dir, links[i].entry) && PlaceOf(links[i]) == PlaceOf(links[|links| - 1])
  {
    hide Place, BlobPath, StoreOk;
    var n := |links| - 1;
    var front, l := links[..n], links[n];
    i := n;
    if !Linkable(d, l.dir, l.entry) {
      LandsOnMembers(d, front, PlaceOf(l));
      i :| IsLinkTo(d, front, i, PlaceOf(l)) && LandsOn(d, front, PlaceOf(l)) == BlobOf(front[i]);
      assert front[i] == links[i];
    }
  }

  lemma LinkStep(h: Hash, d: Disk, d1: Disk, root: Path, links: seq<Link>)
    requires links != [] && StoreOk(h, d) && StoreOk(h, d1) && Below(d, root, links) && Quiet(d, links)
    requires Landed(d, links[..|links| - 1], d1)
    requires forall p :: OBJECTS <= p && p in d.names ==> p in d1.names && d1.names[p] == d.names[p]
    requires var l := links[|links| - 1]; RelinkOne(d1, l.dir, l.entry).1.Ok?
    ensures var l := links[|links| - 1]; Landed(d, links, RelinkOne(d1, l.dir, l.entry).0)
  {
    hide RelinkOne, StoreOk, TmpPath, Place, BlobPath, Landed, LandsOn, Meets, Quiet, Below;
    var front, l := links[..|links| - 1], links[|links| - 1];
    assert Apart(l.dir, OBJECTS) && l.dir in d1.dirs by { LinkIsBelow(d, d1, root, links); }
    MeetsIsThere(d1, l);
    LayoutIsSeparate(l.entry.sha256, "");
    ShapeOf(h, d1);
    RelinkOneEffect(d1, l.dir, l.entry);
    SameMeets(d, front, d1, l);
    if Linkable(d1, l.dir, l.entry) {
      LandedAt(d, front, d1, PlaceOf(l));
      var i := ReplacedMeansLinkable(h, d, d1, links);
      assert TmpFree(d, links[i].dir, links[i].entry) by { QuietAt(d, links, i); }
      assert TmpFree(d1, l.dir, l.entry);
    }
    LandedNext(d, links, d1, RelinkOne(d1, l.dir, l.entry).0);
  }

  lemma LinkIsBelow(d: Disk, d1: Disk, root: Path, links: seq<Link>)
    requires Below(d, root, links) && links != [] && Landed(d, links[..|links| - 1], d1)
    ensures Apart(links[|links| - 1].dir, OBJECTS) && links[|links| - 1].dir in d1.dirs
  {
    hide LandsOn;
    ApartBelow(root, OBJECTS, links[|links| - 1].dir);
  }

  lemma QuietAt(d: Disk, links: seq<Link>, i: nat)
    requires Quiet(d, links) && i < |links| && Linkable(d, links[i].dir, links[i].entry)
    ensures TmpFree(d, links[i].dir, links[i].entry)
  {
  }

  lemma SameMeets(d: Disk, links: seq<Link>, d1: Disk, l: Link)
    requires Landed(d, links, d1)
    ensures Meets(d1, l.dir, l.entry) <==> Meets(d, l.dir, l.entry)
    ensures d1.inodes == d.inodes && d1.names.Keys == d.names.Keys && d1.dirs == d.dirs
  {
    hide LandsOn, Place, BlobPath, EnsureChild;
  }

  /** The last link moves its own place and nothing else. */
  lemma LandedNext(d: Disk, links: seq<Link>, d1: Disk, d2: Disk)
    requires links != [] && Landed(d, links[..|links| - 1], d1)
    requires var l := links[|links| - 1];
      && d2.inodes == d1.inodes && d2.names.Keys == d1.names.Keys && d2.dirs == d1.dirs
      && (forall p :: p in d1.names && p != PlaceOf(l) ==> d2.names[p] == d1.names[p])
      && (if Meets(d, l.dir, l.entry) then d2.names[PlaceOf(l)] == d.names[BlobOf(l)]
          else PlaceOf(l) in d1.names ==> d2.names[PlaceOf(l)] == d1.names[PlaceOf(l)])
    ensures Landed(d, links, d2)
  {
    hide Place, BlobPath, Meets, Landed;
    var front, l := links[..|links| - 1], links[|links| - 1];
    SameMeets(d, front, d1, l);
    MeetsIsThere(d, l);
    forall p | p in d.names
      ensures LandsOn(d, links, p) in d.names && d2.names[p] == d.names[LandsOn(d, links, p)]
    {
      LandedAt(d, front, d1, p);
    }
    LandedFrom(d, links, d2);
  }

  lemma MeetsIsThere(d: Disk, l: Link)
    ensures Meets(d, l.dir, l.entry) ==> PlaceOf(l) in d.names && BlobOf(l) in d.names
  {
    hide Place, BlobPath, EnsureChild;
  }

  lemma LandedFrom(d: Disk, links: seq<Link>, d': Disk)
    requires d'.inodes == d.inodes && d'.names.Keys == d.names.Keys && d'.dirs == d.dirs
    requires forall p {:trigger LandsOn(d, links, p)} :: p in d.names ==>
               LandsOn(d, links, p) in d.names && d'.names[p] == d.names[LandsOn(d, links, p)]
    ensures Landed(d, links, d')
  {
  }

  lemma ShapeOf(h: Hash, d: Disk)
    requires StoreOk(h, d)
    ensures d.WellFormed()
  {
  }

  /** With quiet temporary names: bytes are kept exactly when every place has the content of the last link to it. */
  lemma QuietPassKeepsBytes(h: Hash, d: Disk, root: Path, links: seq<Link>)
    requires StoreOk(h, d) && Below(d, root, links) && Quiet(d, links) && RelinkAll(d, links).1
    ensures SameBytes(d, RelinkAll(d, links).0) <==> Harmless(d, links)
    ensures forall i :: IsLastAt(d, links, i) ==>
              RelinkAll(d, links).0.At(PlaceOf(links[i])).content == d.At(BlobOf(links[i])).content
  {
    hide RelinkAll, StoreOk, Place, BlobPath, Quiet, Landed, LandsOn, FileSystem.Disk.At;
    PassLands(h, d, root, links);
    var d' := RelinkAll(d, links).0;
    forall i | IsLastAt(d, links, i)
      ensures PlaceOf(links[i]) in d.names && d'.At(PlaceOf(links[i])) == d.At(BlobOf(links[i]))
    {
      LastLands(d, links, i);
      MeetsIsThere(d, links[i]);
      LandedAt(d, links, d', PlaceOf(links[i]));
    }
    if Harmless(d, links) {
      forall p | p in d.names ensures p in d'.names && d'.At(p).content == d.At(p).content {
        LandsOnLast(d, links, p);
        LandedAt(d, links, d', p);
      }
      assert d'.names.Keys == d.names.Keys by { LandedKeys(d, links, d'); }
    }
  }

  lemma LandedKeys(d: Disk, links: seq<Link>, d': Disk)
    requires Landed(d, links, d')
    ensures d'.inodes == d.inodes && d'.names.Keys == d.names.Keys && d'.dirs == d.dirs
  {
    hide LandsOn;
  }

  lemma LastLands(d: Disk, links: seq<Link>, i: int)
    requires IsLastAt(d, links, i)
    ensures LandsOn(d, links, PlaceOf(links[i])) == BlobOf(links[i])
  {
    hide Meets, Place, BlobPath;
    var p := PlaceOf(links[i]);
    LandsOnLast(d, links, p);
    if k :| IsLastAt(d, links, k) && PlaceOf(links[k]) == p && LandsOn(d, links, p) == BlobOf(links[k]) {
      assert i == k;
    }
  }

  /** A temporary name in use: the file that has it is gone for good. */
  lemma LoudPassLosesName(h: Hash, d: Disk, root: Path, links: seq<Link>, k: nat)
    requires StoreOk(h, d) && Below(d, root, links) && RelinkAll(d, links).1
    requires k < |links| && Linkable(d, links[k].dir, links[k].entry) && !TmpFree(d, links[k].dir, links[k].entry)
    requires Quiet(d, links[..k])
    ensures !SameBytes(d, RelinkAll(d, links).0)
  {
    hide RelinkOne, StoreOk, RelinkFrame, TakesObjects, TmpPath, Place, BlobPath, Landed, LandsOn, Quiet, Below;
    var l, upto, rest := links[k], links[..k + 1], links[k + 1..];
    assert links == upto + rest && upto[..k] == links[..k] && upto[k] == l;
    BelowParts(d, root, links, k + 1);
    RelinkTwoParts(d, upto, rest);
    LoudLinkRemoves(h, d, root, upto);
    var d2 := RelinkAll(d, upto).0;
    RelinkAllKeepsStore(h, d, root, upto);
    FrameSameShape(d, d2, root);
    BelowStays(d, d2, root, rest);
    RelinkAllKeepsStore(h, d2, root, rest);
    FrameSameShape(d2, RelinkAll(d2, rest).0, root);
  }

  lemma BelowParts(d: Disk, root: Path, links: seq<Link>, n: nat)
    requires Below(d, root, links) && n <= |links|
    ensures Below(d, root, links[..n]) && Below(d, root, links[n..])
  {
  }

  lemma BelowStays(d: Disk, d': Disk, root: Path, links: seq<Link>)
    requires Below(d, root, links) && d'.dirs == d.dirs
    ensures Below(d', root, links)
  {
  }

  lemma LoudLinkRemoves(h: Hash, d: Disk, root: Path, links: seq<Link>)
    requires StoreOk(h, d) && Below(d, root, links) && RelinkAll(d, links).1 && links != []
    requires Quiet(d, links[..|links| - 1])
    requires var l := links[|links| - 1]; Linkable(d, l.dir, l.entry) && !TmpFree(d, l.dir, l.entry)
    ensures var tmp := TmpPath(PlaceOf(links[|links| - 1])); tmp in d.names && tmp !in RelinkAll(d, links).0.names
  {
    hide RelinkOne, StoreOk, RelinkFrame, TakesObjects, TmpPath, Place, BlobPath, Landed, LandsOn, Quiet, Below, Meets,
         Linkable;
    var front := links[..|links| - 1];
    BelowParts(d, root, links, |links| - 1);
    PassLands(h, d, root, front);
    RelinkAllKeepsStore(h, d, root, front);
    FrameSameShape(d, RelinkAll(d, front).0, root);
    LoudStep(h, d, RelinkAll(d, front).0, root, links);
  }

  lemma LoudStep(h: Hash, d: Disk, d1: Disk, root: Path, links: seq<Link>)
    requires links != [] && StoreOk(h, d) && StoreOk(h, d1) && Below(d, root, links)
    requires Landed(d, links[..|links| - 1], d1) && Quiet(d, links[..|links| - 1])
    requires forall p :: OBJECTS <= p && p in d.names ==> p in d1.names && d1.names[p] == d.names[p]
    requires var l := links[|links| - 1];
      Linkable(d, l.dir, l.entry) && !TmpFree(d, l.dir, l.entry) && RelinkOne(d1, l.dir, l.entry).1.Ok?
    ensures var l := links[|links| - 1];
      TmpPath(PlaceOf(l)) in d.names && TmpPath(PlaceOf(l)) !in RelinkOne(d1, l.dir, l.entry).0.names
  {
    hide RelinkOne, StoreOk, TmpPath, Place, BlobPath, Landed, LandsOn, Meets, Quiet, Below;
    var front, l := links[..|links| - 1], links[|links| - 1];
    assert Apart(l.dir, OBJECTS) && l.dir in d1.dirs by { LinkIsBelow(d, d1, root, links); }
    MeetsIsThere(d, l);
    LayoutIsSeparate(l.entry.sha256, "");
    ShapeOf(h, d1);
    RelinkOneEffect(d1, l.dir, l.entry);
    SameMeets(d, front, d1, l);
    LandedAt(d, front, d1, PlaceOf(l));
    EarlierLink(d, d1, front, l);
  }

  /** A file that has its blob's inode only after some links was replaced by one of them, which needs the name free. */
  lemma EarlierLink(d: Disk, d1: Disk, front: seq<Link>, l: Link)
    requires Quiet(d, front) && Linkable(d, l.dir, l.entry) && !TmpFree(d, l.dir, l.entry)
    requires d1.names.Keys == d.names.Keys && d1.names[BlobOf(l)] == d.names[BlobOf(l)]
    requires LandsOn(d, front, PlaceOf(l)) in d.names && d1.names[PlaceOf(l)] == d.names[LandsOn(d, front, PlaceOf(l))]
    ensures Linkable(d1, l.dir, l.entry)
  {
    hide Place, BlobPath, TmpPath, LandsOn, Quiet;
    LandsOnMembers(d, front, PlaceOf(l));
    if LandsOn(d, front, PlaceOf(l)) != PlaceOf(l) {
      var i :| IsLinkTo(d, front, i, PlaceOf(l)) && LandsOn(d, front, PlaceOf(l)) == BlobOf(front[i]);
      assert !TmpFree(d, front[i].dir, front[i].entry);
      if Linkable(d, front[i].dir, front[i].entry) { QuietAt(d, front, i); }
    }
  }

  lemma FirstLoud(d: Disk, links: seq<Link>) returns (k: nat)
    requires !Quiet(d, links)
    ensures k < |links| && Linkable(d, links[k].dir, links[k].entry) && !TmpFree(d, links[k].dir, links[k].entry)
    ensures Quiet(d, links[..k])
  {
    hide Linkable, TmpFree;
    k := 0;
    while !(Linkable(d, links[k].dir, links[k].entry) && !TmpFree(d, links[k].dir, links[k].entry))
      invariant k < |links|
      invariant exists i :: k <= i < |links| && Linkable(d, links[i].dir, links[i].entry)
                         && !TmpFree(d, links[i].dir, links[i].entry)
      invariant Quiet(d, links[..k])
      decreases |links| - k
    {
      assert forall i :: 0 <= i < k ==> links[..k + 1][i] == links[..k][i];
      k := k + 1;
    }
  }

  /** Whatever directories are relinked to whatever trees, and wherever the pass stops: every path on the disk keeps
      its bytes exactly when the links that were done are harmless. */
  lemma PassKeepsBytesExactlyWhen(h: Hash, d: Disk, root: Path, links: seq<Link>)
    requires StoreOk(h, d) && Below(d, root, links)
    ensures SameBytes(d, RelinkAll(d, links).0) <==> Harmless(d, links[..Done(d, links)])
  {
    hide RelinkAll, StoreOk, Quiet, Linkable, TmpFree;
    StoppedPass(h, d, root, links);
    var done := links[..Done(d, links)];
    assert forall i :: 0 <= i < |done| ==> done[i] == links[i];
    if Quiet(d, done) {
      QuietPassKeepsBytes(h, d, root, done);
    } else {
      var k := FirstLoud(d, done);
      LoudPassLosesName(h, d, root, done, k);
    }
  }

  /** Links of which none hurts are harmless, however many of them are done. */
  lemma UnhurtIsHarmless(d: Disk, links: seq<Link>, n: nat)
    requires forall i :: 0 <= i < |links| ==> !Hurts(d, links[i].dir, links[i].entry)
    requires n <= |links|
    ensures Harmless(d, links[..n])
  {
    forall i | 0 <= i < n ensures links[..n][i] == links[i] && !Hurts(d, links[..n][i].dir, links[..n][i].entry) {
    }
  }

  ghost predicate DistinctPlaces(links: seq<Link>) {
    forall i, j :: 0 <= i < j < |links| ==> PlaceOf(links[i]) != PlaceOf(links[j])
  }

  /** With one link to each place, harmless links are those of which none hurts. */
  lemma HarmlessWhenDistinct(d: Disk, links: seq<Link>)
    requires DistinctPlaces(links)
    ensures Harmless(d, links) <==> forall i :: 0 <= i < |links| ==> !Hurts(d, links[i].dir, links[i].entry)
  {
    hide Place, BlobPath, TmpFree;
    if Harmless(d, links) {
      forall i | 0 <= i < |links| ensures !Hurts(d, links[i].dir, links[i].entry) {
        if Meets(d, links[i].dir, links[i].entry) {
          assert IsLastAt(d, links, i);
        }
      }
    }
    if forall i :: 0 <= i < |links| ==> !Hurts(d, links[i].dir, links[i].entry) {
      UnhurtIsHarmless(d, links, |links|);
      assert links[..|links|] == links;
    }
  }

  /** Honest blobs with one content are one blob. */
  lemma SameContentSameBlob(h: Hash, d: Disk, a: string, b: string)
    requires StoreOk(h, d) && BlobPath(a) in d.names && BlobPath(b) in d.names
    requires d.At(BlobPath(a)).content == d.At(BlobPath(b)).content
    ensures a == b
  {
  }

  lemma QuietPart(d: Disk, links: seq<Link>)
    requires Harmless(d, links)
    ensures Quiet(d, links)
  {
    hide Quiet;
  }

  /** When no link hurts, every path keeps its bytes, wherever the pass stops, and a path that is no link's place
      keeps its inode. */
  lemma HarmlessPass(h: Hash, d: Disk, root: Path, links: seq<Link>)
    requires StoreOk(h, d) && Below(d, root, links)
    requires forall i :: 0 <= i < |links| ==> !Hurts(d, links[i].dir, links[i].entry)
    ensures var d' := RelinkAll(d, links).0;
      && SameBytes(d, d')
      && forall p :: p in d.names && (forall i :: 0 <= i < |links| ==> PlaceOf(links[i]) != p) ==>
           d'.names[p] == d.names[p]
  {
    hide RelinkAll, StoreOk, Place, BlobPath, Meets, IsLastAt, Landed, LandsOn, Hurts, Below, Harmless;
    var done := links[..Done(d, links)];
    assert forall i :: 0 <= i < |done| ==> done[i] == links[i];
    PassKeepsBytesExactlyWhen(h, d, root, links);
    UnhurtIsHarmless(d, links, Done(d, links));
    UnhurtLands(h, d, root, links);
    forall p | p in d.names && (forall i :: 0 <= i < |links| ==> PlaceOf(links[i]) != p)
      ensures RelinkAll(d, links).0.names[p] == d.names[p]
    {
      LandedAt(d, done, RelinkAll(d, links).0, p);
      LandsOnMembers(d, done, p);
    }
  }

  lemma UnhurtLands(h: Hash, d: Disk, root: Path, links: seq<Link>)
    requires StoreOk(h, d) && Below(d, root, links)
    requires forall i :: 0 <= i < |links| ==> !Hurts(d, links[i].dir, links[i].entry)
    ensures Landed(d, links[..Done(d, links)], RelinkAll(d, links).0)
  {
    hide RelinkAll, StoreOk, Landed, Hurts, Below, Harmless;
    StoppedPass(h, d, root, links);
    UnhurtIsHarmless(d, links, Done(d, links));
    BelowParts(d, root, links, Done(d, links));
    QuietPart(d, links[..Done(d, links)]);
    PassLands(h, d, root, links[..Done(d, links)]);
  }

  /** And after a whole pass every link's file is its blob. */
  lemma HarmlessPassLinks(h: Hash, d: Disk, root: Path, links: seq<Link>)
    requires StoreOk(h, d) && Below(d, root, links) && RelinkAll(d, links).1
    requires forall i :: 0 <= i < |links| ==> !Hurts(d, links[i].dir, links[i].entry)
    ensures var d' := RelinkAll(d, links).0;
      forall i :: 0 <= i < |links| ==> !Linkable(d', links[i].dir, links[i].entry)
  {
    hide RelinkAll, StoreOk, Landed, Hurts, Below, Linkable, RelinkFrame, TakesObjects, BlobPath;
    StoppedPass(h, d, root, links);
    assert links[..|links|] == links;
    UnhurtLands(h, d, root, links);
    RelinkAllKeepsStore(h, d, root, links);
    var d' := RelinkAll(d, links).0;
    FrameSameShape(d, d', root);
    forall i | 0 <= i < |links| ensures !Linkable(d', links[i].dir, links[i].entry) {
      LayoutIsSeparate(links[i].entry.sha256, "");
      LinkedInTheEnd(h, d, d', links, i);
    }
  }

  lemma UnhurtMatches(d: Disk, l: Link)
    requires Meets(d, l.dir, l.entry) && !Hurts(d, l.dir, l.entry)
    ensures d.At(PlaceOf(l)).content == d.At(BlobOf(l)).content
  {
    hide TmpFree, Place, BlobPath;
  }

  lemma LinkedInTheEnd(h: Hash, d: Disk, d': Disk, links: seq<Link>, i: nat)
    requires StoreOk(h, d) && i < |links|
    requires forall k :: 0 <= k < |links| ==> !Hurts(d, links[k].dir, links[k].entry)
    requires Landed(d, links, d')
    requires BlobOf(links[i]) in d.names ==>
               BlobOf(links[i]) in d'.names && d'.names[BlobOf(links[i])] == d.names[BlobOf(links[i])]
    ensures !Linkable(d', links[i].dir, links[i].entry)
  {
    hide StoreOk, Place, BlobPath, TmpFree, Landed, LandsOn, FileSystem.Disk.At;
    var p := PlaceOf(links[i]);
    SameMeets(d, links, d', links[i]);
    if Meets(d, links[i].dir, links[i].entry) {
      MeetsIsThere(d, links[i]);
      LandedAt(d, links, d', p);
      LandsOnLast(d, links, p);
      var k :| IsLastAt(d, links, k) && PlaceOf(links[k]) == p && LandsOn(d, links, p) == BlobOf(links[k]);
      UnhurtMatches(d, links[k]);
      UnhurtMatches(d, links[i]);
      assert d.At(BlobOf(links[k])).content == d.At(p).content == d.At(BlobOf(links[i])).content;
      SameContentSameBlob(h, d, links[k].entry.sha256, links[i].entry.sha256);
    }
  }

  lemma {:induction false} SameLanding(d: Disk, d': Disk, links: seq<Link>, p: Path)
    requires d'.names.Keys == d.names.Keys
    ensures LandsOn(d', links, p) == LandsOn(d, links, p)
  {
    hide EnsureChild, Place, BlobPath;
    if links != [] {
      SameLanding(d, d', links[..|links| - 1], p);
    }
  }

  /** Where a quiet pass has been, a second one is quiet as well. */
  lemma StaysQuiet(d: Disk, d': Disk, links: seq<Link>)
    requires Quiet(d, links) && Landed(d, links, d')
    requires forall i :: 0 <= i < |links| && BlobOf(links[i]) in d.names ==>
               BlobOf(links[i]) in d'.names && d'.names[BlobOf(links[i])] == d.names[BlobOf(links[i])]
    ensures Quiet(d', links)
  {
    hide Place, BlobPath, TmpPath, Landed, LandsOn, Quiet;
    LandedKeys(d, links, d');
    forall i | 0 <= i < |links| && Linkable(d', links[i].dir, links[i].entry)
      ensures TmpFree(d', links[i].dir, links[i].entry)
    {
      var p := PlaceOf(links[i]);
      SameMeets(d, links, d', links[i]);
      MeetsIsThere(d, links[i]);
      LandedAt(d, links, d', p);
      LandsOnMembers(d, links, p);
      if Linkable(d, links[i].dir, links[i].entry) {
        QuietAt(d, links, i);
      } else {
        var k :| IsLinkTo(d, links, k, p) && LandsOn(d, links, p) == BlobOf(links[k]);
        QuietAt(d, links, k);
      }
    }
    QuietFrom(d', links);
  }

  lemma QuietFrom(d: Disk, links: seq<Link>)
    requires forall i :: 0 <= i < |links| && Linkable(d, links[i].dir, links[i].entry) ==>
               TmpFree(d, links[i].dir, links[i].entry)
    ensures Quiet(d, links)
  {
  }

  /** A quiet pass is idempotent: a second one leaves the disk as it is, also where entries take turns at a place. */
  lemma PassTwice(h: Hash, d: Disk, root: Path, links: seq<Link>)
    requires StoreOk(h, d) && Below(d, root, links) && Quiet(d, links) && RelinkAll(d, links).1
    requires RelinkAll(RelinkAll(d, links).0, links).1
    ensures RelinkAll(RelinkAll(d, links).0, links).0 == RelinkAll(d, links).0
  {
    hide RelinkAll, StoreOk, Landed, LandsOn, Quiet, Below, TakesObjects, BlobPath;
    var d' := RelinkAll(d, links).0;
    var d'' := RelinkAll(d', links).0;
    PassLands(h, d, root, links);
    LandedKeys(d, links, d');
    RelinkAllKeepsStore(h, d, root, links);
    forall x ensures OBJECTS < BlobPath(x) { LayoutIsSeparate(x, ""); }
    StaysQuiet(d, d', links);
    BelowStays(d, d', root, links);
    PassLands(h, d', root, links);
    LandedKeys(d', links, d'');
    RelinkAllKeepsStore(h, d', root, links);
    forall p | p in d'.names ensures d''.names[p] == d'.names[p] {
      LandedAt(d, links, d', p);
      LandedAt(d', links, d'', p);
      SameLanding(d, d', links, p);
      LandsOnMembers(d, links, p);
    }
    assert d''.names == d'.names;
  }

  // ---------------------------------------------------------------- one directory

  lemma EntriesAreBelow(d: Disk, dir: Path, entries: seq<TreeEntry>)
    requires Apart(dir, OBJECTS) && dir in d.dirs
    ensures Below(d, dir, LinksOf(dir, entries))
  {
  }

  /** Relinking a directory to the entries of any tree keeps the bytes of every path exactly when no other file has
      a temporary name that is used, and each file has the content of the last entry for its place; when no two
      entries have one place, exactly when no entry hurts. */
  lemma RelinkKeepsBytesExactlyWhenHarmless(h: Hash, d: Disk, dir: Path, entries: seq<TreeEntry>)
    requires StoreOk(h, d) && Apart(dir, OBJECTS) && dir in d.dirs
    requires RelinkFrom(d, dir, 0, entries).1.Ok?
    ensures SameBytes(d, RelinkFrom(d, dir, 0, entries).0) <==> Harmless(d, LinksOf(dir, entries))
    ensures DistinctPlaces(LinksOf(dir, entries)) ==>
              (SameBytes(d, RelinkFrom(d, dir, 0, entries).0) <==>
               forall i :: 0 <= i < |entries| ==> !Hurts(d, dir, entries[i]))
  {
    hide RelinkAll, RelinkFrom, StoreOk, Harmless, Hurts, DistinctPlaces, Place;
    var links := LinksOf(dir, entries);
    EntriesAreLinks(d, dir, 0, entries);
    EntriesAreBelow(d, dir, entries);
    StoppedPass(h, d, dir, links);
    assert links[..|links|] == links;
    PassKeepsBytesExactlyWhen(h, d, dir, links);
    if DistinctPlaces(links) {
      HarmlessWhenDistinct(d, links);
    }
  }

  /** Without a harmful entry every path keeps its bytes, also when the pass stops, and files of no entry keep their
      inodes; after a whole pass every entry's file is its blob. */
  lemma HarmlessRelink(h: Hash, d: Disk, dir: Path, count: nat, entries: seq<TreeEntry>)
    requires StoreOk(h, d) && Apart(dir, OBJECTS) && dir in d.dirs
    requires forall i :: 0 <= i < |entries| ==> !Hurts(d, dir, entries[i])
    ensures var (d', r) := RelinkFrom(d, dir, count, entries);
      && SameBytes(d, d')
      && (forall p :: p in d.names && (forall i :: 0 <= i < |entries| ==> Place(dir, entries[i]) != p) ==>
            d'.names[p] == d.names[p])
      && (r.Ok? ==> forall i :: 0 <= i < |entries| ==> !Linkable(d', dir, entries[i]))
  {
    hide RelinkAll, RelinkFrom, StoreOk, Hurts, Place, Linkable, SameBytes;
    var links := LinksOf(dir, entries);
    EntriesAreLinks(d, dir, count, entries);
    EntriesAreBelow(d, dir, entries);
    HarmlessPass(h, d, dir, links);
    if RelinkAll(d, links).1 {
      HarmlessPassLinks(h, d, dir, links);
      forall i | 0 <= i < |entries| ensures !Linkable(RelinkAll(d, links).0, dir, entries[i]) {
        assert links[i] == Link(dir, entries[i]);
      }
    }
  }

  /** A second pass over entries that are linked replaces nothing. */
  lemma {:induction false} RelinkedTwice(d: Disk, dir: Path, count: nat, entries: seq<TreeEntry>)
    requires forall i :: 0 <= i < |entries| ==> !Linkable(d, dir, entries[i])
    ensures RelinkFrom(d, dir, count, entries).0 == d
    ensures RelinkFrom(d, dir, count, entries).1.Ok? ==> RelinkFrom(d, dir, count, entries).1.value == count
    decreases |entries|
  {
    if entries != [] {
      assert !Linkable(d, dir, entries[0]);
      forall i | 0 <= i < |entries[1..]| ensures !Linkable(d, dir, entries[1..][i]) {
        assert entries[1..][i] == entries[i + 1];
      }
      RelinkedTwice(d, dir, count, entries[1..]);
    }
  }

  // ---------------------------------------------------------------- a directory as it was staged

  predicate Stands(d: Disk, l: Link) {
    EnsureChild(l.dir, l.entry.path).Ok? && PlaceOf(l) in d.names
  }

  /** No later link is to the same file. */
  ghost predicate IsLastStanding(d: Disk, links: seq<Link>, i: int) {
    && 0 <= i < |links| && Stands(d, links[i])
    && forall j :: i < j < |links| && Stands(d, links[j]) ==> PlaceOf(links[j]) != PlaceOf(links[i])
  }

  /** Each file has the digest that the last link to it lists. */
  ghost predicate AsListed(h: Hash, d: Disk, links: seq<Link>) {
    forall i :: IsLastStanding(d, links, i) ==> h.file(d.At(PlaceOf(links[i])).content) == links[i].entry.sha256
  }

  ghost predicate BlobsThere(d: Disk, links: seq<Link>) {
    forall i :: 0 <= i < |links| ==> BlobOf(links[i]) in d.names
  }

  /** With all blobs in the store, what is harmless can be told from the digests. */
  lemma HarmlessByDigests(h: Hash, d: Disk, links: seq<Link>)
    requires StoreOk(h, d) && BlobsThere(d, links)
    ensures Harmless(d, links) <==> Quiet(d, links) && AsListed(h, d, links)
  {
    hide Place, BlobPath, TmpFree, Quiet, StoreOk;
    forall i ensures IsLastAt(d, links, i) <==> IsLastStanding(d, links, i) {
    }
    forall i | IsLastAt(d, links, i)
      ensures d.At(PlaceOf(links[i])).content == d.At(BlobOf(links[i])).content <==>
              h.file(d.At(PlaceOf(links[i])).content) == links[i].entry.sha256
    {
      BlobIsNamed(h, d, d.At(PlaceOf(links[i])).content, links[i].entry.sha256);
    }
  }

  lemma BlobIsNamed(h: Hash, d: Disk, c: Content, sha: string)
    requires StoreOk(h, d) && BlobPath(sha) in d.names
    ensures c == d.At(BlobPath(sha)).content <==> h.file(c) == sha
  {
  }

  /** A directory relinked as it was staged: every path keeps its bytes exactly when no other file has a temporary
      name that is used, and each file has the digest of the last entry for it. */
  lemma FreshRelinkExactlyWhen(h: Hash, d: Disk, dir: Path)
    requires StoreOk(h, d) && Apart(dir, OBJECTS) && dir in d.dirs && BlobsLive(d, TreeOf(h, Files(d, dir)))
    requires RelinkFrom(d, dir, 0, TreeOf(h, Files(d, dir))).1.Ok?
    ensures var es := TreeOf(h, Files(d, dir));
      SameBytes(d, RelinkFrom(d, dir, 0, es).0) <==> Quiet(d, LinksOf(dir, es)) && AsListed(h, d, LinksOf(dir, es))
  {
    hide RelinkFrom, TreeOf, Files, StoreOk, Quiet, AsListed, Harmless, SameBytes;
    var es := TreeOf(h, Files(d, dir));
    RelinkKeepsBytesExactlyWhenHarmless(h, d, dir, es);
    HarmlessByDigests(h, d, LinksOf(dir, es));
  }

  /** The second condition can only fail for a backslash in a file name. */
  lemma CleanIsAsListed(h: Hash, d: Disk, dir: Path)
    requires StoreOk(h, d) && CleanNames(Files(d, dir))
    ensures AsListed(h, d, LinksOf(dir, TreeOf(h, Files(d, dir))))
  {
    hide TreeOf, Files, Stands, StoreOk, CleanNames, Place;
    var links := LinksOf(dir, TreeOf(h, Files(d, dir)));
    forall i | IsLastStanding(d, links, i) ensures h.file(d.At(PlaceOf(links[i])).content) == links[i].entry.sha256 {
      CleanEntryIsListed(h, d, dir, i);
    }
  }

  lemma CleanEntryIsListed(h: Hash, d: Disk, dir: Path, i: nat)
    requires StoreOk(h, d) && CleanNames(Files(d, dir))
    requires var links := LinksOf(dir, TreeOf(h, Files(d, dir))); i < |links| && Stands(d, links[i])
    ensures var l := LinksOf(dir, TreeOf(h, Files(d, dir)))[i]; h.file(d.At(PlaceOf(l)).content) == l.entry.sha256
  {
    hide TreeOf, Files, EnsureChild, EntryPath, StoreOk;
    var files := Files(d, dir);
    TreeDescribes(h, files);
    var e := TreeOf(h, files)[i];
    assert IsEntry(h, files, e);
    var rel :| rel in files && e == EntryOf(h, rel, files[rel]);
    EntryPathReads(dir, rel);
    FileIsThere(h, d, dir, rel);
  }

  /** And it does fail: of the files `x/y` and `x\y`, both listed as `x/y`, the first gets the second one's bytes. */
  lemma BackslashOverwrites(h: Hash, d: Disk, dir: Path, x: string, y: string)
    requires StoreOk(h, d) && Apart(dir, OBJECTS) && dir in d.dirs && BlobsLive(d, TreeOf(h, Files(d, dir)))
    requires ValidName(x) && ValidName(y) && '\\' !in x && '\\' !in y
    requires Files(d, dir).Keys == {[x, y], [x + "\\" + y]}
    requires Files(d, dir)[[x, y]].content != Files(d, dir)[[x + "\\" + y]].content
    requires !d.Exists(TmpPath(dir + [x, y]))
    ensures var (d', r) := RelinkFrom(d, dir, 0, TreeOf(h, Files(d, dir)));
      && r.Ok? && dir + [x, y] in d'.names && !SameBytes(d, d')
      && d'.At(dir + [x, y]).content == Files(d, dir)[[x + "\\" + y]].content
  {
    hide RelinkFrom, TreeOf, Files, StoreOk, EnsureChild, EntryPath, TmpPath, FileSystem.Disk.At, BlobPath;
    var files := Files(d, dir);
    var a, b := [x, y], [x + "\\" + y];
    var es := TreeOf(h, files);
    TwoEntries(h, files, x, y);
    HasNoBackslash(x, y);
    EntryPathReads(dir, a);
    FileIsThere(h, d, dir, a);
    var links := LinksOf(dir, es);
    assert links == [Link(dir, es[0]), Link(dir, es[1])];
    EntriesAreLinks(d, dir, 0, es);
    EntriesAreBelow(d, dir, es);
    assert BlobPath(es[0].sha256) in d.names && BlobPath(es[1].sha256) in d.names;
    FreeNamesSucceed(h, d, dir, links);
    assert IsLastAt(d, links, 1);
    QuietPassKeepsBytes(h, d, dir, links);
    PassLands(h, d, dir, links);
    LandedKeys(d, links, RelinkAll(d, links).0);
    BlobIsNamed(h, d, files[b].content, es[1].sha256);
  }

  lemma HasNoBackslash(x: string, y: string)
    requires ValidName(x) && ValidName(y) && '\\' !in x && '\\' !in y
    ensures ValidRel([x, y]) && !HasBackslash([x, y])
  {
  }

  lemma FileIsThere(h: Hash, d: Disk, dir: Path, rel: Path)
    requires StoreOk(h, d) && rel in Files(d, dir)
    ensures dir + rel in d.names && d.At(dir + rel) == Files(d, dir)[rel]
  {
    FilesMember(d, dir, rel);
  }

  /** Nothing at any temporary name, and blobs and places fine: the pass goes through and is quiet. */
  lemma {:induction false} FreeNamesSucceed(h: Hash, d: Disk, root: Path, links: seq<Link>)
    requires StoreOk(h, d) && Below(d, root, links)
    requires forall i :: 0 <= i < |links| ==>
               EnsureChild(links[i].dir, links[i].entry.path).Ok? && BlobOf(links[i]) in d.names
               && !d.Exists(TmpPath(PlaceOf(links[i])))
    ensures Quiet(d, links) && RelinkAll(d, links).1
  {
    hide EnsureChild, StoreOk, BlobPath, TmpPath, RelinkOne, RelinkFrame, TakesObjects;
    if links != [] {
      var n := |links| - 1;
      var front, l := links[..n], links[n];
      BelowParts(d, root, links, n);
      FreeNamesSucceed(h, d, root, front);
      RelinkAllKeepsStore(h, d, root, front);
      var d1 := RelinkAll(d, front).0;
      FrameSameShape(d, d1, root);
      LayoutIsSeparate(l.entry.sha256, "");
      FreeNameSucceeds(h, d1, l.dir, l.entry);
    }
  }

  lemma FreeNameSucceeds(h: Hash, d: Disk, dir: Path, e: TreeEntry)
    requires StoreOk(h, d) && EnsureChild(dir, e.path).Ok? && BlobPath(e.sha256) in d.names
    requires !d.Exists(TmpPath(Place(dir, e)))
    ensures RelinkOne(d, dir, e).1.Ok?
  {
    hide EnsureChild, TmpPath;
    assert IsDigest(h.file(d.At(BlobPath(e.sha256)).content));
  }

  lemma TwoEntries(h: Hash, files: map<Path, Data>, x: string, y: string)
    requires files.Keys == {[x, y], [x + "\\" + y]}
    ensures var a, b := [x, y], [x + "\\" + y];
      TreeOf(h, files) == [EntryOf(h, a, files[a]), EntryOf(h, b, files[b])] && EntryPath(a) == EntryPath(b)
  {
    hide EntryPath, EntryLe, PathLe, StableSort;
    var a, b := [x, y], [x + "\\" + y];
    SameEntryPath(x, y);
    PathLeIsTotal();
    assert |x| < |b[0]|;
    TwoAscending(files.Keys, a, b);
    var es := EntriesOf(h, files, [a, b]);
    assert es == [EntryOf(h, a, files[a]), EntryOf(h, b, files[b])];
    TwoSorted(es[0], es[1]);
  }

  lemma SameEntryPath(x: string, y: string)
    ensures EntryPath([x, y]) == EntryPath([x + "\\" + y])
    ensures PathLe([x, y], [x + "\\" + y])
  {
    var a, b := [x, y], [x + "\\" + y];
    assert a[1..] == [y] && Join([y], '/') == y;
    assert Join(a, '/') == x + ['/'] + y;
    assert Join(b, '/') == b[0];
    assert EntryPath(a) == EntryPath(b);
    assert x + ("\\" + y) == b[0];
    PrefixIsLe(x, "\\" + y);
    assert |x| < |b[0]|;
  }

  /** Entries with one path keep their order. */
  lemma TwoSorted(e: TreeEntry, f: TreeEntry)
    requires e.path == f.path
    ensures SortEntries([e, f]) == [e, f]
  {
    StrLeCompares(e.path, f.path);
    assert [e, f][1..] == [f] && [f][1..] == [];
    assert StableSort([f], EntryLe) == [f];
  }

  lemma {:induction false} PrefixIsLe(s: string, rest: string)
    ensures StrLe(s, s + rest)
  {
    if s != "" {
      assert (s + rest)[1..] == s[1..] + rest;
      PrefixIsLe(s[1..], rest);
    }
  }

  lemma TwoAscending(s: set<Path>, a: Path, b: Path)
    requires a != b && s == {a, b} && PathLe(a, b) && IsTotalOrder(PathLe)
    ensures Ascending(s, PathLe) == [a, b]
  {
    hide PathLe;
    var r := Ascending(s, PathLe);
    assert |s| == 2;
    assert r[0] in r && r[1] in r;
    assert PathLe(r[0], r[1]);
  }

  /** After a harmless pass a file that some link is to is its blob, any other file is where it was. */
  lemma HarmlessPassShares(h: Hash, d: Disk, root: Path, links: seq<Link>, p: Path)
    requires StoreOk(h, d) && Below(d, root, links) && RelinkAll(d, links).1 && Harmless(d, links) && p in d.names
    ensures var d' := RelinkAll(d, links).0;
      var blob := BlobPath(h.file(d.At(p).content));
      && p in d'.names && (blob in d.names ==> blob in d'.names && d'.names[blob] == d.names[blob])
      && if exists i :: IsLinkTo(d, links, i, p) then blob in d'.names && d'.names[p] == d'.names[blob]
         else d'.names[p] == d.names[p]
  {
    hide RelinkAll, StoreOk, BlobPath, Landed, LandsOn, RelinkFrame, TakesObjects, FileSystem.Disk.At, Place, Quiet;
    var d' := RelinkAll(d, links).0;
    var blob := BlobPath(h.file(d.At(p).content));
    QuietPart(d, links);
    PassLands(h, d, root, links);
    LandedAt(d, links, d', p);
    RelinkAllKeepsStore(h, d, root, links);
    FrameSameShape(d, d', root);
    LayoutIsSeparate(h.file(d.At(p).content), "");
    LandsOnLast(d, links, p);
    assert forall i :: IsLastAt(d, links, i) && PlaceOf(links[i]) == p ==> IsLinkTo(d, links, i, p);
    if k :| IsLinkTo(d, links, k, p) {
      var i :| IsLastAt(d, links, i) && PlaceOf(links[i]) == p && LandsOn(d, links, p) == BlobOf(links[i]);
      MeetsIsThere(d, links[i]);
      BlobIsNamed(h, d, d.At(p).content, links[i].entry.sha256);
    }
  }

  /** When a directory as it was staged is relinked without harm, a file ends up on its blob's inode exactly when its
      name has no backslash or it was there before. */
  lemma FreshRelinkShares(h: Hash, d: Disk, dir: Path, rel: Path)
    requires StoreOk(h, d) && ValidNames(d) && Apart(dir, OBJECTS) && dir in d.dirs
    requires BlobsLive(d, TreeOf(h, Files(d, dir)))
    requires RelinkFrom(d, dir, 0, TreeOf(h, Files(d, dir))).1.Ok? && rel in Files(d, dir)
    requires SameBytes(d, RelinkFrom(d, dir, 0, TreeOf(h, Files(d, dir))).0)
    ensures var d' := RelinkFrom(d, dir, 0, TreeOf(h, Files(d, dir))).0;
      var blob := BlobPath(h.file(Files(d, dir)[rel].content));
      && dir + rel in d'.names && blob in d'.names
      && (d'.names[dir + rel] == d'.names[blob] <==> !HasBackslash(rel) || d.names[dir + rel] == d.names[blob])
  {
    hide Files, EnsureChild, RelinkFrom, RelinkAll, TreeOf, TmpPath, StoreOk, EntryPath, BlobPath, Harmless,
         FileSystem.Disk.At, Place, ValidNames, HasBackslash, SameBytes;
    var files := Files(d, dir);
    var es := TreeOf(h, files);
    var links := LinksOf(dir, es);
    TreeDescribes(h, files);
    FileIsThere(h, d, dir, rel);
    var e := EntryOf(h, rel, files[rel]);
    var k :| 0 <= k < |es| && es[k] == e;
    assert BlobPath(e.sha256) in d.names;
    RelinkKeepsBytesExactlyWhenHarmless(h, d, dir, es);
    EntriesAreLinks(d, dir, 0, es);
    EntriesAreBelow(d, dir, es);
    HarmlessPassShares(h, d, dir, links, dir + rel);
    if HasBackslash(rel) {
      forall i ensures !IsLinkTo(d, links, i, dir + rel) {
        if 0 <= i < |links| && Meets(d, dir, es[i]) {
          assert IsEntry(h, files, es[i]);
          EntryPlaceIsClean(h, files, dir, es[i], rel);
        }
      }
    } else {
      ShapeOf(h, d);
      DirectoryFiles(d, dir);
      EntryPathReads(dir, rel);
      PlaceReads(dir, e);
      assert IsLinkTo(d, links, k, dir + rel);
    }
  }

  lemma PlaceReads(dir: Path, e: TreeEntry)
    ensures EnsureChild(dir, e.path).Ok? ==> Place(dir, e) == EnsureChild(dir, e.path).value
  {
    hide EnsureChild;
  }

  lemma PlaceParts(dir: Path, e: TreeEntry)
    requires EnsureChild(dir, e.path).Ok?
    ensures Place(dir, e) == Components(e.path) || Place(dir, e) == dir + Components(e.path)
  {
    hide Components, EnsureChild;
    ChildParts(dir, e.path);
  }

  lemma EntryPlaceIsClean(h: Hash, files: map<Path, Data>, dir: Path, e: TreeEntry, rel: Path)
    requires IsEntry(h, files, e) && EnsureChild(dir, e.path).Ok? && HasBackslash(rel)
    ensures Place(dir, e) != dir + rel
  {
    hide Components, Place, EnsureChild, EntryPath;
    var x :| x in files && e == EntryOf(h, x, files[x]);
    var comps := Components(e.path);
    var i :| 0 <= i < |rel| && '\\' in rel[i];
    PlaceParts(dir, e);
    if Place(dir, e) == dir + rel {
      assert (dir + rel)[|dir| + i] == rel[i];
      var k := if comps == dir + rel then |dir| + i else i;
      assert dir + comps == dir + rel ==> comps == (dir + comps)[|dir|..] == (dir + rel)[|dir|..] == rel;
      assert comps[k] == rel[i];
      EntryPathIsClean(dir, x);
    }
  }

  // ---------------------------------------------------------------- a whole run

  /** The line names an existing directory below `outputs` and a tree. */
  predicate NamesDir(d: Disk, outputs: Path, line: Line) {
    && line.Entry? && line.event.storage == Some(DirectoryStorage)
    && line.event.path.Some? && line.event.sha256.Some?
    && outputs <= line.event.path.value && line.event.path.value in d.dirs
  }

  /** The entries of a tree file, if it can be read. */
  function TreeEntries(d: Disk, sha: string): Option<seq<TreeEntry>> {
    var tree := TreePath(sha);
    if tree in d.names && d.names[tree] in d.inodes && d.At(tree).content.TreeDoc?
    then Some(d.At(tree).content.entries) else None
  }

  /** What the lines link: each directory to the tree of its first line. A malformed line or an unreadable tree ends
      it. */
  function RunLinks(d: Disk, outputs: Path, seen: set<Path>, lines: seq<Line>): seq<Link>
    decreases |lines|
  {
    if lines == [] || lines[0].Malformed? then []
    else if !NamesDir(d, outputs, lines[0]) || lines[0].event.path.value in seen
    then RunLinks(d, outputs, seen, lines[1..])
    else
      var dir, entries := lines[0].event.path.value, TreeEntries(d, lines[0].event.sha256.value);
      if entries.None? then []
      else LinksOf(dir, entries.value) + RunLinks(d, outputs, seen + {dir}, lines[1..])
  }

  /** No malformed line, and the tree of each directory's first line can be read. */
  predicate AllReadable(d: Disk, outputs: Path, seen: set<Path>, lines: seq<Line>)
    decreases |lines|
  {
    lines == [] ||
    (lines[0].Entry? &&
     if !NamesDir(d, outputs, lines[0]) || lines[0].event.path.value in seen
     then AllReadable(d, outputs, seen, lines[1..])
     else TreeEntries(d, lines[0].event.sha256.value).Some?
          && AllReadable(d, outputs, seen + {lines[0].event.path.value}, lines[1..]))
  }

  lemma {:induction false} RunLinksBelow(d: Disk, outputs: Path, seen: set<Path>, lines: seq<Line>)
    requires Apart(outputs, OBJECTS)
    ensures Below(d, outputs, RunLinks(d, outputs, seen, lines))
    decreases |lines|
  {
    hide TreeEntries;
    if lines != [] && lines[0].Entry? {
      RunLinksBelow(d, outputs, seen, lines[1..]);
      if NamesDir(d, outputs, lines[0]) {
        RunLinksBelow(d, outputs, seen + {lines[0].event.path.value}, lines[1..]);
      }
    }
  }

  lemma {:induction false} RunLinksStay(d: Disk, d': Disk, outputs: Path, seen: set<Path>, lines: seq<Line>)
    requires d'.dirs == d.dirs && forall sha :: TreeEntries(d', sha) == TreeEntries(d, sha)
    ensures RunLinks(d', outputs, seen, lines) == RunLinks(d, outputs, seen, lines)
    ensures AllReadable(d', outputs, seen, lines) <==> AllReadable(d, outputs, seen, lines)
    decreases |lines|
  {
    hide TreeEntries;
    if lines != [] && lines[0].Entry? {
      RunLinksStay(d, d', outputs, seen, lines[1..]);
      if NamesDir(d, outputs, lines[0]) {
        RunLinksStay(d, d', outputs, seen + {lines[0].event.path.value}, lines[1..]);
      }
    }
  }

  lemma SameTreeEntries(d: Disk, d': Disk, root: Path)
    requires RelinkFrame(d, d', root)
    ensures d'.dirs == d.dirs && forall sha :: TreeEntries(d', sha) == TreeEntries(d, sha)
  {
    hide TreePath;
    forall sha ensures TreeEntries(d', sha) == TreeEntries(d, sha) { LayoutIsSeparate(sha, ""); }
  }

  /** The loop over the lines is a pass over those links. */
  lemma {:induction false} LinesAreLinks(h: Hash, d: Disk, outputs: Path, seen: set<Path>, count: nat, lines: seq<Line>)
    requires StoreOk(h, d) && Apart(outputs, OBJECTS)
    ensures var links := RunLinks(d, outputs, seen, lines);
      && RelinkLines(d, outputs, seen, count, lines).0 == RelinkAll(d, links).0
      && (RelinkLines(d, outputs, seen, count, lines).1.Ok? ==>
            RelinkAll(d, links).1 && AllReadable(d, outputs, seen, lines))
    decreases |lines|
  {
    hide RelinkFrom, RelinkAll, StoreOk, TreePath, RelinkFrame, TakesObjects;
    assert RelinkAll(d, []) == (d, true) by { NoLinks(d); }
    if lines != [] && lines[0].Entry? {
      var rest := lines[1..];
      if !NamesDir(d, outputs, lines[0]) || lines[0].event.path.value in seen {
        LinesAreLinks(h, d, outputs, seen, count, rest);
      } else if TreeEntries(d, lines[0].event.sha256.value).Some? {
        var dir, sha := lines[0].event.path.value, lines[0].event.sha256.value;
        var entries := TreeEntries(d, sha).value;
        var first, later := LinksOf(dir, entries), RunLinks(d, outputs, seen + {dir}, rest);
        var (d1, r) := RelinkDir(d, dir, sha);
        EntriesAreLinks(d, dir, 0, entries);
        RelinkTwoParts(d, first, later);
        RunLinksBelow(d, outputs, seen, lines);
        FirstPartBelow(d, outputs, first, later);
        RelinkAllKeepsStore(h, d, outputs, first);
        SameTreeEntries(d, d1, outputs);
        RunLinksStay(d, d1, outputs, seen + {dir}, rest);
        if r.Ok? {
          LinesAreLinks(h, d1, outputs, seen + {dir}, count + r.value, rest);
        }
      }
    }
  }

  lemma NoLinks(d: Disk)
    ensures RelinkAll(d, []) == (d, true)
  {
  }

  lemma FirstPartBelow(d: Disk, root: Path, a: seq<Link>, b: seq<Link>)
    requires Below(d, root, a + b)
    ensures Below(d, root, a)
  {
    assert forall i :: 0 <= i < |a| ==> (a + b)[i] == a[i];
  }

  /** Relinking a run keeps the store, every object and all that lies outside the run's outputs, and gives away no
      inode but an object's. */
  lemma RelinkLinesKeepStore(h: Hash, d: Disk, outputs: Path, lines: seq<Line>)
    requires StoreOk(h, d) && Apart(outputs, OBJECTS)
    ensures var d' := RelinkLines(d, outputs, {}, 0, lines).0;
      StoreOk(h, d') && RelinkFrame(d, d', outputs) && TakesObjects(d, d')
  {
    hide RelinkLines, RelinkAll, StoreOk, RelinkFrame, TakesObjects, RunLinks;
    LinesAreLinks(h, d, outputs, {}, 0, lines);
    RunLinksBelow(d, outputs, {}, lines);
    RelinkAllKeepsStore(h, d, outputs, RunLinks(d, outputs, {}, lines));
  }

  /** With no temporary name in the way, a place ends up with the content of the last link to it, whatever the run
      last wrote there: a directory goes back to the tree of its first line. */
  lemma RunTakesFirstTrees(h: Hash, d: Disk, outputs: Path, lines: seq<Line>, i: int)
    requires StoreOk(h, d) && Apart(outputs, OBJECTS) && RelinkLines(d, outputs, {}, 0, lines).1.Ok?
    requires Quiet(d, RunLinks(d, outputs, {}, lines)) && IsLastAt(d, RunLinks(d, outputs, {}, lines), i)
    ensures var l := RunLinks(d, outputs, {}, lines)[i];
      RelinkLines(d, outputs, {}, 0, lines).0.At(PlaceOf(l)).content == d.At(BlobOf(l)).content
  {
    hide RelinkLines, RelinkAll, StoreOk, Harmless, RunLinks, Quiet, IsLastAt;
    LinesAreLinks(h, d, outputs, {}, 0, lines);
    RunLinksBelow(d, outputs, {}, lines);
    QuietPassKeepsBytes(h, d, outputs, RunLinks(d, outputs, {}, lines));
  }

  /** The first line that names its directory. */
  ghost predicate IsFirstLine(d: Disk, outputs: Path, lines: seq<Line>, i: int) {
    && 0 <= i < |lines| && NamesDir(d, outputs, lines[i])
    && forall j :: 0 <= j < i && NamesDir(d, outputs, lines[j]) ==>
         lines[j].event.path.value != lines[i].event.path.value
  }

  /** The tree of the directory's first line lists the entry. */
  ghost predicate FirstLineLists(d: Disk, outputs: Path, lines: seq<Line>, i: int, l: Link) {
    && IsFirstLine(d, outputs, lines, i) && l.dir == lines[i].event.path.value
    && TreeEntries(d, lines[i].event.sha256.value).Some?
    && l.entry in TreeEntries(d, lines[i].event.sha256.value).value
  }

  lemma {:induction false} RunLinksList(d: Disk, outputs: Path, seen: set<Path>, lines: seq<Line>, l: Link)
    requires l in RunLinks(d, outputs, seen, lines)
    ensures l.dir !in seen && exists i :: FirstLineLists(d, outputs, lines, i, l)
    decreases |lines|
  {
    hide TreeEntries;
    var rest := lines[1..];
    var newer := if NamesDir(d, outputs, lines[0]) then seen + {lines[0].event.path.value} else seen;
    if NamesDir(d, outputs, lines[0]) && lines[0].event.path.value !in seen
       && TreeEntries(d, lines[0].event.sha256.value).Some?
       && l in LinksOf(lines[0].event.path.value, TreeEntries(d, lines[0].event.sha256.value).value)
    {
      assert FirstLineLists(d, outputs, lines, 0, l);
    } else {
      assert NamesDir(d, outputs, lines[0]) && lines[0].event.path.value in seen ==> newer == seen;
      assert l in RunLinks(d, outputs, newer, rest);
      RunLinksList(d, outputs, newer, rest, l);
      var i :| FirstLineLists(d, outputs, rest, i, l);
      forall j | 0 <= j < i + 1 && NamesDir(d, outputs, lines[j])
        ensures lines[j].event.path.value != lines[i + 1].event.path.value
      {
        assert j > 0 ==> lines[j] == rest[j - 1];
      }
      assert FirstLineLists(d, outputs, lines, i + 1, l);
    }
  }

  lemma {:induction false} RunLinksListAll(d: Disk, outputs: Path, seen: set<Path>, lines: seq<Line>, i: int, l: Link)
    requires AllReadable(d, outputs, seen, lines) && FirstLineLists(d, outputs, lines, i, l) && l.dir !in seen
    ensures l in RunLinks(d, outputs, seen, lines)
    decreases |lines|
  {
    hide TreeEntries;
    var rest := lines[1..];
    if i == 0 {
      var es := TreeEntries(d, lines[0].event.sha256.value).value;
      var k :| 0 <= k < |es| && es[k] == l.entry;
      assert LinksOf(l.dir, es)[k] == l;
    } else {
      assert lines[i] == rest[i - 1];
      forall j | 0 <= j < i - 1 && NamesDir(d, outputs, rest[j])
        ensures rest[j].event.path.value != rest[i - 1].event.path.value
      {
        assert rest[j] == lines[j + 1];
      }
      assert FirstLineLists(d, outputs, rest, i - 1, l);
      if NamesDir(d, outputs, lines[0]) {
        if lines[0].event.path.value !in seen {
          RunLinksListAll(d, outputs, seen + {lines[0].event.path.value}, rest, i - 1, l);
        } else {
          RunLinksListAll(d, outputs, seen, rest, i - 1, l);
        }
      } else {
        RunLinksListAll(d, outputs, seen, rest, i - 1, l);
      }
    }
  }

  /** Relinking a run keeps the bytes of every path exactly when the links of its directories to the trees of their
      first lines are harmless; while no two of them have one place, exactly when no entry that the tree of a
      directory's first line lists hurts. */
  lemma RunKeepsBytesExactlyWhen(h: Hash, d: Disk, outputs: Path, lines: seq<Line>)
    requires StoreOk(h, d) && Apart(outputs, OBJECTS) && RelinkLines(d, outputs, {}, 0, lines).1.Ok?
    ensures SameBytes(d, RelinkLines(d, outputs, {}, 0, lines).0) <==> Harmless(d, RunLinks(d, outputs, {}, lines))
    ensures DistinctPlaces(RunLinks(d, outputs, {}, lines)) ==>
              (SameBytes(d, RelinkLines(d, outputs, {}, 0, lines).0) <==>
               forall i, l :: FirstLineLists(d, outputs, lines, i, l) ==> !Hurts(d, l.dir, l.entry))
  {
    hide RelinkLines, RelinkAll, StoreOk, Harmless, RunLinks, SameBytes, Hurts, FirstLineLists, DistinctPlaces,
         AllReadable;
    var links := RunLinks(d, outputs, {}, lines);
    LinesAreLinks(h, d, outputs, {}, 0, lines);
    RunLinksBelow(d, outputs, {}, lines);
    StoppedPass(h, d, outputs, links);
    assert links[..|links|] == links;
    PassKeepsBytesExactlyWhen(h, d, outputs, links);
    if DistinctPlaces(links) {
      HarmlessWhenDistinct(d, links);
      forall k | 0 <= k < |links| ensures exists i :: FirstLineLists(d, outputs, lines, i, links[k]) {
        RunLinksList(d, outputs, {}, lines, links[k]);
      }
      forall i, l | FirstLineLists(d, outputs, lines, i, l) ensures l in links {
        RunLinksListAll(d, outputs, {}, lines, i, l);
      }
    }
  }

  /** When no entry of the tree of any directory's first line hurts, relinking the run keeps the bytes of every path,
      wherever it stops. */
  lemma UnhurtRunKeepsBytes(h: Hash, d: Disk, outputs: Path, lines: seq<Line>)
    requires StoreOk(h, d) && Apart(outputs, OBJECTS)
    requires forall i, l :: FirstLineLists(d, outputs, lines, i, l) ==> !Hurts(d, l.dir, l.entry)
    ensures SameBytes(d, RelinkLines(d, outputs, {}, 0, lines).0)
  {
    hide RelinkLines, RelinkAll, StoreOk, RunLinks, SameBytes, Hurts, FirstLineLists;
    var links := RunLinks(d, outputs, {}, lines);
    forall k | 0 <= k < |links| ensures !Hurts(d, links[k].dir, links[k].entry) {
      RunLinksList(d, outputs, {}, lines, links[k]);
    }
    LinesAreLinks(h, d, outputs, {}, 0, lines);
    RunLinksBelow(d, outputs, {}, lines);
    HarmlessPass(h, d, outputs, links);
  }

  // ---------------------------------------------------------------- the operations

  method RelinkDirectory(lab: Project, dir: Path, sha: string) returns (r: Result<nat>)
    modifies lab
    ensures lab.View() == old(lab.View()).(disk := RelinkDir(old(lab.OnDisk()), dir, sha).0)
    ensures r == RelinkDir(old(lab.OnDisk()), dir, sha).1
  {
    hide EnsureChild, BlobPath, TmpPath;
    var tree := TreePath(sha);
    if tree !in lab.names || lab.names[tree] !in lab.inodes {
      return Err(Io);
    }
    if !lab.inodes[lab.names[tree]].content.TreeDoc? {
      return Err(Serialization);
    }
    var entries := lab.inodes[lab.names[tree]].content.entries;
    var relinked := 0;
    var i := 0;
    while i < |entries|
      invariant 0 <= i <= |entries| && 0 <= relinked
      invariant lab.View() == old(lab.View()).(disk := lab.OnDisk())
      invariant RelinkFrom(lab.OnDisk(), dir, relinked, entries[i..]) == RelinkFrom(old(lab.OnDisk()), dir, 0, entries)
    {
      var one := RelinkEntry(lab, dir, entries[i]);
      if one.Err? {
        return Err(one.error);
      }
      if one.value {
        relinked := relinked + 1;
      }
      assert entries[i..][1..] == entries[i + 1..];
      i := i + 1;
    }
    r := Ok(relinked);
  }

  method RelinkEntry(lab: Project, dir: Path, e: TreeEntry) returns (r: Result<bool>)
    modifies lab
    ensures lab.View() == old(lab.View()).(disk := RelinkOne(old(lab.OnDisk()), dir, e).0)
    ensures r == RelinkOne(old(lab.OnDisk()), dir, e).1
  {
    if |e.sha256| <= 2 {
      return Err(Artifact);
    }
    var blob := BlobPath(e.sha256);
    var place := EnsureChild(dir, e.path);
    if place.Err? {
      return Err(place.error);
    }
    var target := place.value;
    if blob !in lab.names || target !in lab.names || lab.names[blob] == lab.names[target] {
      return Ok(false);
    }
    var tmp := TmpPath(target);
    lab.UnlinkFile(tmp);
    if tmp in lab.dirs || blob !in lab.names {
      return Err(Io);
    }
    var inode := lab.names[blob];
    lab.names := lab.names[tmp := inode];
    lab.names := lab.names[target := inode];
    if tmp != target {
      lab.names := lab.names - {tmp};
    }
    r := Ok(true);
  }

  method RelinkRunOutputs(lab: Project, id: string) returns (r: Result<nat>)
    requires id in lab.runs
    modifies lab
    ensures var (d, count) := RelinkLines(old(lab.OnDisk()), OutputsDir(id), {}, 0, old(lab.runs)[id].lines);
      lab.View() == old(lab.View()).(disk := d) && r == count
    ensures StoreOk(lab.hash, old(lab.OnDisk())) && r.Ok? ==>
      var links := RunLinks(old(lab.OnDisk()), OutputsDir(id), {}, old(lab.runs)[id].lines);
      SameBytes(old(lab.OnDisk()), lab.OnDisk()) <==> Harmless(old(lab.OnDisk()), links)
  {
    hide RelinkDir, StoreOk, SameBytes, Harmless, RunLinks;
    ghost var before := lab.OnDisk();
    var lines := lab.runs[id].lines;
    var outputs := OutputsDir(id);
    var relinked := 0;
    var seen: set<Path> := {};
    var i := 0;
    while i < |lines|
      invariant 0 <= i <= |lines| && 0 <= relinked
      invariant lab.View() == old(lab.View()).(disk := lab.OnDisk())
      invariant RelinkLines(lab.OnDisk(), outputs, seen, relinked, lines[i..])
             == RelinkLines(old(lab.OnDisk()), outputs, {}, 0, lines)
    {
      assert lines[i..][1..] == lines[i + 1..];
      if lines[i].Malformed? {
        return Err(Serialization);
      }
      var e := lines[i].event;
      if e.storage == Some(DirectoryStorage) && e.path.Some? && e.sha256.Some?
         && outputs <= e.path.value && e.path.value in lab.dirs && e.path.value !in seen
      {
        seen := seen + {e.path.value};
        var one := RelinkDirectory(lab, e.path.value, e.sha256.value);
        if one.Err? {
          return one;
        }
        relinked := relinked + one.value;
      }
      i := i + 1;
    }
    r := Ok(relinked);
    if StoreOk(lab.hash, before) {
      assert Apart(outputs, OBJECTS) by { assert outputs[0] == "runs"; }
      RunKeepsBytesExactlyWhen(lab.hash, before, outputs, lines);
    }
  }
}
