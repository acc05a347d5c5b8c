/** `ArtifactStore::materialize_tree`: a stored tree becomes a directory named by its digest,
    staged under a temporary name and renamed only when complete. */
module Materialize {
  import opened Wrappers
  import opened Order
  import opened FileSystem
  import opened Lab
  import opened Ingest

  const MARKER := ".rlab-materialized"

  function Target(sha: string): Path { MATERIALIZED + [sha] }

  function Staging(sha: string, pid: string): Path { MATERIALIZED + [sha + ".tmp-" + pid] }

  function TextContent(s: string): Content {
    Raw(seq(|s|, i requires 0 <= i < |s| => (s[i] as int % 256) as Byte))
  }

  /** One entry: copy its blob to its place, then set the recorded mode. */
  function CopyOne(d: Disk, tmp: Path, e: TreeEntry): (Disk, Result<()>) {
    var place := EnsureChild(tmp, e.path);
    if place.Err? then (d, Err(place.error))
    else if !d.CanWrite(place.value) then (d, Err(Io))
    else if |e.sha256| <= 2 then (d, Err(Artifact))
    else if BlobPath(e.sha256) !in d.names || d.names[BlobPath(e.sha256)] !in d.inodes then (d, Err(Io))
    else
      var data := d.At(BlobPath(e.sha256));
      (Write(Write(d, place.value, data), place.value, data.(mode := e.mode)), Ok(()))
  }

  /** The copy loop over the entries still to place. */
  function CopyFrom(d: Disk, tmp: Path, entries: seq<TreeEntry>): (Disk, Result<()>)
    decreases |entries|
  {
    if entries == [] then (d, Ok(()))
    else
      var (d1, r) := CopyOne(d, tmp, entries[0]);
      if r.Err? then (d1, r) else CopyFrom(d1, tmp, entries[1..])
  }

  /** Everything after the marker check, from the emptied staging directory on. */
  function Stage(d: Disk, sha: string, tmp: Path, entries: seq<TreeEntry>): (Disk, Result<Path>) {
    var (d1, r) := CopyFrom(d, tmp, entries);
    if r.Err? then (d1, Err(r.error))
    else if tmp + [MARKER] in d1.dirs then (d1, Err(Io))
    else
      var d2 := Replace(d1, tmp + [MARKER], Data(TextContent(sha), FILE_MODE));
      if d2.Exists(Target(sha)) then (RemoveAll(d2, tmp), Ok(Target(sha)))
      else (RenameTree(d2, tmp, Target(sha)), Ok(Target(sha)))
  }

  /** `tmp` without what an earlier attempt left there. */
  function Cleared(d: Disk, tmp: Path): Disk {
    if tmp in d.dirs then RemoveAll(d, tmp) else d
  }

  function MaterializeTree(d: Disk, sha: string, treeFile: Path, pid: string): (Disk, Result<Path>) {
    var tmp := Staging(sha, pid);
    if Target(sha) + [MARKER] in d.names then (d, Ok(Target(sha)))
    else if tmp in d.names then (d, Err(Io))
    else
      var d1 := Cleared(d, tmp);
      if exists k :: 0 <= k <= |tmp| && tmp[..k] in d1.names then (d1, Err(Io))
      else
        var d2 := MakeDir(d1, tmp);
        if treeFile !in d2.names || d2.names[treeFile] !in d2.inodes then (d2, Err(Io))
        else if !d2.At(treeFile).content.TreeDoc? then (d2, Err(Serialization))
        else Stage(d2, sha, tmp, d2.At(treeFile).content.entries)
  }

  // ---------------------------------------------------------------- nothing outside the staging directory moves

  /** Paths that are not below `root`, and directories not above it, are as before. */
  ghost predicate Elsewhere(d: Disk, d': Disk, root: Path) {
    && (forall p :: !(root <= p) && (p in d.names || p in d'.names) ==>
          p in d.names && p in d'.names && d'.names[p] == d.names[p] && d'.At(p) == d.At(p))
    && (forall q :: !(root <= q) && !(q < root) ==> (q in d.dirs <==> q in d'.dirs))
  }

  /** A file below `root` shares its inode with no other path. */
  ghost predicate Private(d: Disk, root: Path) {
    forall p, q :: p in d.names && q in d.names && root <= p && p != q ==> d.names[p] != d.names[q]
  }

  ghost predicate Staged(d: Disk, tmp: Path) {
    d.WellFormed() && Private(d, tmp) && tmp in d.dirs
  }

  lemma WriteElsewhere(d: Disk, root: Path, p: Path, data: Data)
    requires Staged(d, root) && d.CanWrite(p) && root < p
    ensures Staged(Write(d, p, data), root) && Elsewhere(d, Write(d, p, data), root)
    ensures Write(d, p, data).CanWrite(p) && p in Write(d, p, data).names
  {
    WriteKeepsShape(d, p, data);
    forall q | !(root <= q) && !(q < root) ensures q in d.dirs <==> q in Write(d, p, data).dirs {
      AncestorMember(q, p);
      PrefixesCompare(root, q, p);
    }
    assert p in Write(d, p, data).names;
  }

  lemma ReplaceIsWrite(d: Disk, root: Path, p: Path, data: Data)
    requires Staged(d, root) && d.CanWrite(p) && root < p
    ensures Staged(Unlink(d, {p}), root) && Unlink(d, {p}).CanWrite(p)
    ensures Replace(d, p, data) == Write(Unlink(d, {p}), p, data)
  {
    var bare := Unlink(d, {p});
    UnlinkKeepsShape(d, {p});
    forall q | q < p ensures q !in bare.names { CanWriteElim(d, p, q); }
    CanWriteIntro(bare, p);
    assert Replace(d, p, data).names == Write(bare, p, data).names;
  }

  lemma ReplaceElsewhere(d: Disk, root: Path, p: Path, data: Data)
    requires Staged(d, root) && d.CanWrite(p) && root < p
    ensures Staged(Replace(d, p, data), root) && Elsewhere(d, Replace(d, p, data), root)
  {
    ReplaceIsWrite(d, root, p, data);
    var bare := Unlink(d, {p});
    WriteElsewhere(bare, root, p, data);
    assert Elsewhere(d, bare, root);
    ElsewhereChains(d, bare, Replace(d, p, data), root);
  }

  lemma ElsewhereChains(d0: Disk, d1: Disk, d2: Disk, root: Path)
    requires Elsewhere(d0, d1, root) && Elsewhere(d1, d2, root)
    ensures Elsewhere(d0, d2, root)
  {
  }

  lemma CopyOneElsewhere(d: Disk, tmp: Path, e: TreeEntry)
    requires Staged(d, tmp)
    ensures var d' := CopyOne(d, tmp, e).0; Staged(d', tmp) && Elsewhere(d, d', tmp)
  {
    if CopyOne(d, tmp, e).1.Ok? {
      var p := EnsureChild(tmp, e.path).value;
      var data := d.At(BlobPath(e.sha256));
      assert tmp <= p && tmp != p;
      WriteElsewhere(d, tmp, p, data);
      WriteElsewhere(Write(d, p, data), tmp, p, data.(mode := e.mode));
      ElsewhereChains(d, Write(d, p, data), CopyOne(d, tmp, e).0, tmp);
    }
  }

  lemma {:induction false} CopyElsewhere(d: Disk, tmp: Path, entries: seq<TreeEntry>)
    requires Staged(d, tmp)
    ensures var d' := CopyFrom(d, tmp, entries).0; Staged(d', tmp) && Elsewhere(d, d', tmp)
    decreases |entries|
  {
    if entries != [] {
      CopyOneElsewhere(d, tmp, entries[0]);
      var (d1, r) := CopyOne(d, tmp, entries[0]);
      if r.Ok? {
        CopyElsewhere(d1, tmp, entries[1..]);
        ElsewhereChains(d, d1, CopyFrom(d1, tmp, entries[1..]).0, tmp);
      }
    }
  }

  ghost predicate Apart(a: Path, b: Path) { !(a <= b) && !(b <= a) }

  lemma ObjectElsewhere(d: Disk, d': Disk, root: Path, p: Path)
    requires d.WellFormed() && d'.WellFormed() && Elsewhere(d, d', root)
    requires Apart(root, OBJECTS) && OBJECTS <= p
    ensures p in d.names <==> p in d'.names
    ensures p in d.names ==> d.names[p] == d'.names[p] && d.At(p) == d'.At(p)
    ensures p in d.dirs <==> p in d'.dirs
  {
    PrefixesCompare(OBJECTS, root, p);
  }

  lemma ElsewhereKeepsStore(h: Hash, d: Disk, d': Disk, root: Path)
    requires StoreOk(h, d) && d'.WellFormed() && Elsewhere(d, d', root) && Apart(root, OBJECTS)
    ensures StoreOk(h, d')
  {
    forall x ensures (BlobPath(x) in d.names <==> BlobPath(x) in d'.names)
                  && (BlobPath(x) in d.names ==> d.At(BlobPath(x)) == d'.At(BlobPath(x)))
                  && BlobPath(x) !in d'.dirs {
      LayoutIsSeparate(x, x);
      ObjectElsewhere(d, d', root, BlobPath(x));
    }
    forall x ensures (TreePath(x) in d.names <==> TreePath(x) in d'.names)
                  && (TreePath(x) in d.names ==> d.At(TreePath(x)) == d'.At(TreePath(x)))
                  && TreePath(x) !in d'.dirs {
      LayoutIsSeparate(x, x);
      ObjectElsewhere(d, d', root, TreePath(x));
    }
  }

  // ---------------------------------------------------------------- what a staged tree contains

  /** The (digest, mode) wanted at each relative path; a later entry for one path wins. */
  function UnpackOnto(tmp: Path, want: map<Path, (string, nat)>, entries: seq<TreeEntry>): map<Path, (string, nat)>
    decreases |entries|
  {
    if entries == [] then want
    else
      var e := entries[0];
      var place := EnsureChild(tmp, e.path);
      UnpackOnto(tmp, if place.Ok? then want[place.value[|tmp|..] := (e.sha256, e.mode)] else want, entries[1..])
  }

  ghost predicate Holds(h: Hash, files: map<Path, Data>, want: map<Path, (string, nat)>) {
    && files.Keys == want.Keys
    && forall rel :: rel in files ==> (h.file(files[rel].content), files[rel].mode) == want[rel]
  }

  lemma FilesAfterWrite(d: Disk, tmp: Path, p: Path, data: Data)
    requires Staged(d, tmp) && d.CanWrite(p) && tmp < p
    ensures Write(d, p, data).WellFormed()
    ensures Files(Write(d, p, data), tmp) == Files(d, tmp)[p[|tmp|..] := data]
  {
    hide Files, RelFiles;
    WriteElsewhere(d, tmp, p, data);
    var d' := Write(d, p, data);
    var rel := p[|tmp|..];
    assert tmp + rel == p;
    forall x ensures (x in Files(d', tmp) <==> x in Files(d, tmp) || x == rel)
                  && (x in Files(d', tmp) ==> Files(d', tmp)[x] == Files(d, tmp)[rel := data][x]) {
      FilesMember(d, tmp, x);
      FilesMember(d', tmp, x);
      assert tmp + x == p ==> x == p[|tmp|..];
    }
  }

  lemma FilesAfterCopyOne(d: Disk, tmp: Path, e: TreeEntry)
    requires Staged(d, tmp) && CopyOne(d, tmp, e).1.Ok?
    ensures var d' := CopyOne(d, tmp, e).0;
      && d'.WellFormed()
      && EnsureChild(tmp, e.path).Ok? && tmp <= EnsureChild(tmp, e.path).value
      && BlobPath(e.sha256) in d.names
      && Files(d', tmp) == Files(d, tmp)[EnsureChild(tmp, e.path).value[|tmp|..] :=
                                           d.At(BlobPath(e.sha256)).(mode := e.mode)]
  {
    hide Files, RelFiles;
    var p := EnsureChild(tmp, e.path).value;
    var data := d.At(BlobPath(e.sha256));
    assert tmp <= p && tmp != p;
    WriteElsewhere(d, tmp, p, data);
    FilesAfterWrite(d, tmp, p, data);
    FilesAfterWrite(Write(d, p, data), tmp, p, data.(mode := e.mode));
  }

  lemma CopyOneHolds(h: Hash, d: Disk, tmp: Path, e: TreeEntry, want: map<Path, (string, nat)>)
    requires StoreOk(h, d) && Staged(d, tmp) && Apart(tmp, OBJECTS)
    requires Holds(h, Files(d, tmp), want) && CopyOne(d, tmp, e).1.Ok?
    ensures var d' := CopyOne(d, tmp, e).0;
      && StoreOk(h, d') && Staged(d', tmp)
      && Holds(h, Files(d', tmp), UnpackOnto(tmp, want, [e]))
  {
    hide Files, RelFiles, Elsewhere, CopyOne, FileSystem.Disk.WellFormed, Staged, Lawful;
    var d' := CopyOne(d, tmp, e).0;
    CopyOneElsewhere(d, tmp, e);
    ElsewhereKeepsStore(h, d, d', tmp);
    FilesAfterCopyOne(d, tmp, e);
    var rel := EnsureChild(tmp, e.path).value[|tmp|..];
    assert UnpackOnto(tmp, want, [e]) == UnpackOnto(tmp, want[rel := (e.sha256, e.mode)], []);
  }

  lemma {:induction false} UnpackStep(tmp: Path, want: map<Path, (string, nat)>, entries: seq<TreeEntry>)
    requires entries != []
    ensures UnpackOnto(tmp, want, entries) == UnpackOnto(tmp, UnpackOnto(tmp, want, [entries[0]]), entries[1..])
  {
  }

  lemma {:induction false} CopyHolds(h: Hash, d: Disk, tmp: Path, entries: seq<TreeEntry>, want: map<Path, (string,
                                     nat)>)
    requires StoreOk(h, d) && Staged(d, tmp) && Apart(tmp, OBJECTS)
    requires Holds(h, Files(d, tmp), want) && CopyFrom(d, tmp, entries).1.Ok?
    ensures var d' := CopyFrom(d, tmp, entries).0;
      && StoreOk(h, d') && Staged(d', tmp)
      && Holds(h, Files(d', tmp), UnpackOnto(tmp, want, entries))
    decreases |entries|
  {
    hide Files, RelFiles, Honest, FileSystem.Disk.WellFormed, Staged, CopyOne;
    if entries != [] {
      CopyOneHolds(h, d, tmp, entries[0], want);
      UnpackStep(tmp, want, entries);
      CopyHolds(h, CopyOne(d, tmp, entries[0]).0, tmp, entries[1..], UnpackOnto(tmp, want, [entries[0]]));
    }
  }

  // ---------------------------------------------------------------- directories named by a digest are complete

  /** Apart from the marker, the files are those of a tree whose digest is `sha`. */
  ghost predicate IsTree(h: Hash, files: map<Path, Data>, sha: string) {
    exists entries, tmp ::
      h.tree(entries) == sha && Holds(h, files - {[MARKER]}, UnpackOnto(tmp, map[], entries) - {[MARKER]})
  }

  ghost predicate CompleteTree(h: Hash, d: Disk, sha: string) {
    Target(sha) + [MARKER] in d.names && IsTree(h, Files(d, Target(sha)), sha)
  }

  ghost predicate NamedTreesComplete(h: Hash, d: Disk) {
    forall sha {:trigger Target(sha)} :: IsDigest(sha) && Target(sha) in d.dirs ==> CompleteTree(h, d, sha)
  }

  lemma FilesElsewhere(d: Disk, d': Disk, root: Path, dir: Path)
    requires d.WellFormed() && d'.WellFormed() && Elsewhere(d, d', root) && Apart(root, dir)
    ensures Files(d', dir) == Files(d, dir)
  {
    hide Files, RelFiles;
    forall rel ensures (rel in Files(d', dir) <==> rel in Files(d, dir))
                    && (rel in Files(d, dir) ==> Files(d', dir)[rel] == Files(d, dir)[rel]) {
      FilesMember(d, dir, rel);
      FilesMember(d', dir, rel);
      PrefixesCompare(dir, root, dir + rel);
    }
  }

  lemma StagingIsNoTarget(sha: string, pid: string, other: string)
    requires IsDigest(other)
    ensures Apart(Staging(sha, pid), Target(other)) && Apart(Staging(sha, pid), OBJECTS)
    ensures Apart(Target(other), OBJECTS)
  {
    var name := Staging(sha, pid)[2];
    assert name[|sha|] == '.';
    assert Target(other)[2] == other;
    assert |sha| < |other| ==> IsHexDigit(other[|sha|]);
    assert |Staging(sha, pid)[1]| > |OBJECTS[1]|;
    assert |Target(other)[1]| > |OBJECTS[1]|;
  }

  /** While only the staging directory changes, every named directory stays complete. */
  lemma StagingKeepsNamedTrees(h: Hash, d: Disk, d': Disk, sha: string, pid: string)
    requires IsDigest(sha) && d.WellFormed() && d'.WellFormed()
    requires Elsewhere(d, d', Staging(sha, pid)) && NamedTreesComplete(h, d)
    ensures NamedTreesComplete(h, d')
  {
    forall x | IsDigest(x) && Target(x) in d'.dirs ensures CompleteTree(h, d', x) {
      StagingIsNoTarget(sha, pid, x);
      FilesElsewhere(d, d', Staging(sha, pid), Target(x));
      assert !(Staging(sha, pid) <= Target(x) + [MARKER]) by {
        PrefixesCompare(Target(x), Staging(sha, pid), Target(x) + [MARKER]);
      }
      assert CompleteTree(h, d, x);
    }
  }

  lemma EmptyAround(d: Disk, root: Path, p: Path)
    requires d.WellFormed() && root !in d.dirs && root !in d.names && root <= p
    ensures p !in d.names && p !in d.dirs
  {
    if p in d.names || p in d.dirs {
      if root != p {
        ParentsAreDirs(d, root, p);
      }
    }
  }

  lemma RenameAt(d: Disk, src: Path, dst: Path, p: Path)
    requires d.WellFormed() && Apart(src, dst) && dst !in d.dirs && dst !in d.names
    ensures var d' := RenameTree(d, src, dst);
      && (p in d'.names <==> if dst <= p then src + p[|dst|..] in d.names else p in d.names && !(src <= p))
      && (p in d'.names ==> d'.names[p] == d.names[if dst <= p then src + p[|dst|..] else p])
      && (p in d'.dirs <==> if dst <= p then src + p[|dst|..] in d.dirs else p in d.dirs && !(src <= p))
  {
    if dst <= p {
      EmptyAround(d, dst, p);
      var from := src + p[|dst|..];
      assert from[|src|..] == p[|dst|..];
      assert dst + from[|src|..] == p;
      if from in d.names {
        assert src <= from;
        assert p in (set x | x in d.names && src <= x :: dst + x[|src|..]);
      }
      var movedDirs := set x | x in d.dirs && src <= x :: dst + x[|src|..];
      if from in d.dirs {
        assert src <= from;
        assert p in movedDirs;
      }
      if p in movedDirs {
        var x :| x in d.dirs && src <= x && dst + x[|src|..] == p;
        assert p[|dst|..] == x[|src|..];
        assert x == from;
      }
    }
  }

  lemma RenamedName(d: Disk, src: Path, dst: Path, p: Path)
    requires d.WellFormed() && Apart(src, dst) && dst !in d.dirs && dst !in d.names
    requires src != [] && dst != [] && Parent(src) == Parent(dst) && src in d.dirs
    requires p in RenameTree(d, src, dst).names
    ensures var d' := RenameTree(d, src, dst); d'.CanWrite(p) && d'.names[p] in d.inodes && Parent(p) in d'.dirs
  {
    hide RenameTree;
    var d' := RenameTree(d, src, dst);
    RenameAt(d, src, dst, p);
    var from := if dst <= p then src + p[|dst|..] else p;
    assert d.CanWrite(from);
    forall q | q < p ensures q !in d'.names {
      RenameAt(d, src, dst, q);
      if dst <= q {
        assert src + q[|dst|..] < src + p[|dst|..];
        CanWriteElim(d, from, src + q[|dst|..]);
      } else if !(dst <= p) {
        CanWriteElim(d, p, q);
      } else if q in d.names {
        assert q <= Parent(dst) by { PrefixesCompare(q, dst, p); }
        CanWriteElim(d, from, q);
      }
    }
    CanWriteIntro(d', p);
    RenameParent(d, src, dst, p);
  }

  lemma RenameKeepsShape(d: Disk, src: Path, dst: Path)
    requires d.WellFormed() && Apart(src, dst) && dst !in d.dirs && dst !in d.names
    requires src != [] && dst != [] && Parent(src) == Parent(dst) && src in d.dirs
    ensures RenameTree(d, src, dst).WellFormed()
  {
    hide FileSystem.Disk.CanWrite;
    var d' := RenameTree(d, src, dst);
    forall q | q in d'.dirs && q != [] ensures Parent(q) in d'.dirs { RenameParent(d, src, dst, q); }
    forall p | p in d'.names ensures d'.CanWrite(p) && d'.names[p] in d'.inodes && Parent(p) in d'.dirs {
      RenamedName(d, src, dst, p);
    }
  }

  lemma RenameParent(d: Disk, src: Path, dst: Path, p: Path)
    requires d.WellFormed() && Apart(src, dst) && dst !in d.dirs && dst !in d.names
    requires src != [] && dst != [] && Parent(src) == Parent(dst) && src in d.dirs
    requires p != [] && (p in RenameTree(d, src, dst).names || p in RenameTree(d, src, dst).dirs)
    ensures Parent(p) in RenameTree(d, src, dst).dirs
  {
    RenameAt(d, src, dst, p);
    RenameAt(d, src, dst, Parent(p));
    if dst < p {
      assert dst <= Parent(p);
      assert Parent(src + p[|dst|..]) == src + Parent(p)[|dst|..];
      assert d.Exists(src + p[|dst|..]);
    } else if p == dst {
      assert !(src <= Parent(dst)) && !(dst <= Parent(dst));
    } else {
      assert Parent(p) in d.dirs;
      assert src <= Parent(p) ==> src <= p;
      assert dst <= Parent(p) ==> dst <= p;
    }
  }

  lemma FilesAfterUnlink(d: Disk, tmp: Path, rel: Path)
    requires d.WellFormed()
    ensures Unlink(d, {tmp + rel}).WellFormed()
    ensures Files(Unlink(d, {tmp + rel}), tmp) == Files(d, tmp) - {rel}
  {
    hide Files, RelFiles;
    UnlinkKeepsShape(d, {tmp + rel});
    var bare := Unlink(d, {tmp + rel});
    forall x ensures (x in Files(bare, tmp) <==> x in Files(d, tmp) && x != rel)
                  && (x in Files(bare, tmp) ==> Files(bare, tmp)[x] == Files(d, tmp)[x]) {
      FilesMember(d, tmp, x);
      FilesMember(bare, tmp, x);
      assert (tmp + x)[|tmp|..] == x && (tmp + rel)[|tmp|..] == rel;
    }
  }

  lemma FilesAfterReplace(d: Disk, tmp: Path, rel: Path, data: Data)
    requires Staged(d, tmp) && d.CanWrite(tmp + rel) && rel != []
    ensures Replace(d, tmp + rel, data).WellFormed()
    ensures Files(Replace(d, tmp + rel, data), tmp) == Files(d, tmp)[rel := data]
  {
    var p := tmp + rel;
    assert p[|tmp|..] == rel;
    ReplaceIsWrite(d, tmp, p, data);
    FilesAfterUnlink(d, tmp, rel);
    FilesAfterWrite(Unlink(d, {p}), tmp, p, data);
    UpdateForgets(Files(d, tmp), rel, data);
  }

  lemma UpdateForgets<K, V>(m: map<K, V>, k: K, v: V)
    ensures (m - {k})[k := v] == m[k := v]
    ensures m[k := v] - {k} == m - {k}
  {
  }

  lemma FilesAfterRename(d: Disk, src: Path, dst: Path)
    requires d.WellFormed() && Apart(src, dst) && dst !in d.dirs && dst !in d.names
    requires src != [] && dst != [] && Parent(src) == Parent(dst) && src in d.dirs
    ensures RenameTree(d, src, dst).WellFormed()
    ensures Files(RenameTree(d, src, dst), dst) == Files(d, src)
  {
    hide Files, RelFiles;
    RenameKeepsShape(d, src, dst);
    var d' := RenameTree(d, src, dst);
    forall rel ensures (rel in Files(d', dst) <==> rel in Files(d, src))
                    && (rel in Files(d, src) ==> Files(d', dst)[rel] == Files(d, src)[rel]) {
      FilesMember(d', dst, rel);
      FilesMember(d, src, rel);
      RenameAt(d, src, dst, dst + rel);
      assert (dst + rel)[|dst|..] == rel;
    }
  }

  lemma RenamedElsewhere(d: Disk, src: Path, dst: Path, dir: Path, p: Path)
    requires d.WellFormed() && Apart(src, dst) && dst !in d.dirs && dst !in d.names
    requires RenameTree(d, src, dst).WellFormed() && Apart(dir, src) && Apart(dir, dst) && dir <= p
    ensures p in RenameTree(d, src, dst).names <==> p in d.names
    ensures p in d.names ==> RenameTree(d, src, dst).At(p) == d.At(p)
    ensures p in RenameTree(d, src, dst).dirs <==> p in d.dirs
  {
    RenameAt(d, src, dst, p);
    PrefixesCompare(dir, src, p);
    PrefixesCompare(dir, dst, p);
  }

  lemma FilesNotRenamed(d: Disk, src: Path, dst: Path, dir: Path)
    requires d.WellFormed() && Apart(src, dst) && dst !in d.dirs && dst !in d.names
    requires RenameTree(d, src, dst).WellFormed() && Apart(dir, src) && Apart(dir, dst)
    ensures Files(RenameTree(d, src, dst), dir) == Files(d, dir)
  {
    hide Files, RelFiles;
    var d' := RenameTree(d, src, dst);
    forall rel ensures (rel in Files(d', dir) <==> rel in Files(d, dir))
                    && (rel in Files(d, dir) ==> Files(d', dir)[rel] == Files(d, dir)[rel]) {
      FilesMember(d', dir, rel);
      FilesMember(d, dir, rel);
      RenamedElsewhere(d, src, dst, dir, dir + rel);
    }
  }

  lemma MarkerPlaced(d: Disk, sha: string, tmp: Path)
    requires Staged(d, tmp) && tmp + [MARKER] !in d.dirs
    ensures var d' := Replace(d, tmp + [MARKER], Data(TextContent(sha), FILE_MODE));
      Staged(d', tmp) && Elsewhere(d, d', tmp) && tmp + [MARKER] in d'.names
      && Files(d', tmp) - {[MARKER]} == Files(d, tmp) - {[MARKER]}
  {
    hide Files, RelFiles;
    var data := Data(TextContent(sha), FILE_MODE);
    MarkerFits(d, tmp);
    ReplaceElsewhere(d, tmp, tmp + [MARKER], data);
    FilesAfterReplace(d, tmp, [MARKER], data);
    UpdateForgets(Files(d, tmp), [MARKER], data);
  }

  lemma MarkerCompletes(h: Hash, d: Disk, sha: string, pid: string, entries: seq<TreeEntry>)
    requires IsDigest(sha) && h.tree(entries) == sha
    requires StoreOk(h, d) && Staged(d, Staging(sha, pid)) && Files(d, Staging(sha, pid)) == map[]
    requires CopyFrom(d, Staging(sha, pid), entries).1.Ok?
    requires Staging(sha, pid) + [MARKER] !in CopyFrom(d, Staging(sha, pid), entries).0.dirs
    ensures var tmp := Staging(sha, pid);
      var d' := Replace(CopyFrom(d, tmp, entries).0, tmp + [MARKER], Data(TextContent(sha), FILE_MODE));
      && Staged(d', tmp) && Elsewhere(d, d', tmp) && tmp + [MARKER] in d'.names
      && Holds(h, Files(d', tmp) - {[MARKER]}, UnpackOnto(tmp, map[], entries) - {[MARKER]})
  {
    hide Files, RelFiles, Honest, FileSystem.Disk.WellFormed, Staged, Elsewhere, UnpackOnto;
    var tmp := Staging(sha, pid);
    StagingIsNoTarget(sha, pid, sha);
    CopyElsewhere(d, tmp, entries);
    CopyHolds(h, d, tmp, entries, map[]);
    var d1 := CopyFrom(d, tmp, entries).0;
    MarkerPlaced(d1, sha, tmp);
    ElsewhereChains(d, d1, Replace(d1, tmp + [MARKER], Data(TextContent(sha), FILE_MODE)), tmp);
  }

  /** A finished staging directory, moved to the name of its digest. */
  lemma StageCompletes(h: Hash, d: Disk, sha: string, pid: string, entries: seq<TreeEntry>)
    requires IsDigest(sha) && h.tree(entries) == sha
    requires StoreOk(h, d) && Staged(d, Staging(sha, pid)) && NamedTreesComplete(h, d)
    requires Files(d, Staging(sha, pid)) == map[]
    requires Stage(d, sha, Staging(sha, pid), entries).1.Ok?
    ensures var (d', r) := Stage(d, sha, Staging(sha, pid), entries);
      && StoreOk(h, d') && NamedTreesComplete(h, d') && r.value == Target(sha)
      && (!d.Exists(Target(sha)) ==>
            Holds(h, Files(d', Target(sha)) - {[MARKER]},
                  UnpackOnto(Staging(sha, pid), map[], entries) - {[MARKER]}))
  {
    hide Files, RelFiles, Honest, FileSystem.Disk.WellFormed, NamedTreesComplete, CopyFrom, Holds, RenameTree,
         RemoveAll, Replace;
    var tmp := Staging(sha, pid);
    var target := Target(sha);
    StagingIsNoTarget(sha, pid, sha);
    MarkerCompletes(h, d, sha, pid, entries);
    var d2 := Replace(CopyFrom(d, tmp, entries).0, tmp + [MARKER], Data(TextContent(sha), FILE_MODE));
    ElsewhereKeepsStore(h, d, d2, tmp);
    StagingKeepsNamedTrees(h, d, d2, sha, pid);
    assert d2.Exists(target) <==> d.Exists(target);
    if d2.Exists(target) {
      RemoveAllElsewhere(d2, tmp);
      ElsewhereKeepsStore(h, d2, RemoveAll(d2, tmp), tmp);
      StagingKeepsNamedTrees(h, d2, RemoveAll(d2, tmp), sha, pid);
    } else {
      assert Parent(tmp) == MATERIALIZED == Parent(target);
      FilesAfterRename(d2, tmp, target);
      RenameKeepsTrees(h, d2, sha, pid);
    }
  }

  lemma MarkerFits(d: Disk, tmp: Path)
    requires Staged(d, tmp) && tmp + [MARKER] !in d.dirs
    ensures d.CanWrite(tmp + [MARKER])
  {
    var p := tmp + [MARKER];
    forall q | q < p ensures q !in d.names {
      assert q <= tmp by { PrefixesCompare(q, tmp, p); }
      AncestorIsDir(d, q, tmp);
      if q in d.names {
        FileIsNoDir(d, q);
      }
    }
    CanWriteIntro(d, p);
  }

  lemma RemoveAllElsewhere(d: Disk, root: Path)
    requires d.WellFormed()
    ensures RemoveAll(d, root).WellFormed() && Elsewhere(d, RemoveAll(d, root), root)
  {
    RemoveAllKeepsShape(d, root);
  }

  lemma RenameKeepsStore(h: Hash, d: Disk, src: Path, dst: Path)
    requires StoreOk(h, d) && Apart(src, dst) && !d.Exists(dst) && RenameTree(d, src, dst).WellFormed()
    requires Apart(OBJECTS, src) && Apart(OBJECTS, dst)
    ensures StoreOk(h, RenameTree(d, src, dst))
  {
    var d' := RenameTree(d, src, dst);
    forall x ensures (BlobPath(x) in d'.names <==> BlobPath(x) in d.names)
                  && (BlobPath(x) in d.names ==> d'.At(BlobPath(x)) == d.At(BlobPath(x)))
                  && BlobPath(x) !in d'.dirs {
      LayoutIsSeparate(x, x);
      RenamedElsewhere(d, src, dst, OBJECTS, BlobPath(x));
    }
    forall x ensures (TreePath(x) in d'.names <==> TreePath(x) in d.names)
                  && (TreePath(x) in d.names ==> d'.At(TreePath(x)) == d.At(TreePath(x)))
                  && TreePath(x) !in d'.dirs {
      LayoutIsSeparate(x, x);
      RenamedElsewhere(d, src, dst, OBJECTS, TreePath(x));
    }
  }

  lemma RenameKeepsTrees(h: Hash, d: Disk, sha: string, pid: string)
    requires IsDigest(sha) && StoreOk(h, d) && NamedTreesComplete(h, d)
    requires Staging(sha, pid) in d.dirs && !d.Exists(Target(sha)) && Staging(sha, pid) + [MARKER] in d.names
    requires IsTree(h, Files(d, Staging(sha, pid)), sha)
    ensures StoreOk(h, RenameTree(d, Staging(sha, pid), Target(sha)))
    ensures NamedTreesComplete(h, RenameTree(d, Staging(sha, pid), Target(sha)))
  {
    var tmp, target := Staging(sha, pid), Target(sha);
    var d' := RenameTree(d, tmp, target);
    StagingIsNoTarget(sha, pid, sha);
    assert Parent(tmp) == MATERIALIZED == Parent(target);
    FilesAfterRename(d, tmp, target);
    RenameKeepsStore(h, d, tmp, target);
    forall x | IsDigest(x) && Target(x) in d'.dirs ensures CompleteTree(h, d', x) {
      if x == sha {
        RenameAt(d, tmp, target, target + [MARKER]);
        assert (target + [MARKER])[|target|..] == [MARKER];
      } else {
        StagingIsNoTarget(sha, pid, x);
        assert Apart(Target(x), target) by { assert Target(x)[2] == x && target[2] == sha; }
        FilesNotRenamed(d, tmp, target, Target(x));
        RenamedElsewhere(d, tmp, target, Target(x), Target(x));
        RenamedElsewhere(d, tmp, target, Target(x), Target(x) + [MARKER]);
        assert CompleteTree(h, d, x);
      }
    }
  }

  lemma RootIsClear(d: Disk, tmp: Path)
    requires d.WellFormed() && tmp !in d.names
    ensures Cleared(d, tmp).WellFormed() && Elsewhere(d, Cleared(d, tmp), tmp)
    ensures forall p :: p in Cleared(d, tmp).names ==> !(tmp <= p)
  {
    if tmp in d.dirs {
      RemoveAllElsewhere(d, tmp);
    } else {
      forall p | p in d.names ensures !(tmp <= p) {
        if tmp <= p { EmptyAround(d, tmp, p); }
      }
    }
  }

  lemma PrepareIsEmpty(d: Disk, tmp: Path)
    requires d.WellFormed() && tmp !in d.names
    requires forall k :: 0 <= k <= |tmp| ==> tmp[..k] !in Cleared(d, tmp).names
    ensures var d' := MakeDir(Cleared(d, tmp), tmp); Staged(d', tmp) && Elsewhere(d, d', tmp) && Files(d', tmp) == map[]
    ensures PartOf(MakeDir(Cleared(d, tmp), tmp), tmp, map[])
  {
    RootIsClear(d, tmp);
    var d1 := Cleared(d, tmp);
    forall q | q <= tmp ensures q !in d1.names {
      assert q == tmp[..|q|];
    }
    MakeDirKeepsShape(d1, tmp);
    var d' := MakeDir(d1, tmp);
    forall q ensures q in d'.dirs <==> q in d1.dirs || q <= tmp {
      AncestorMember(q, tmp);
      assert q <= tmp <==> q < tmp || q == tmp;
    }
    forall rel ensures rel !in Files(d', tmp) {
      FilesMember(d', tmp, rel);
    }
    forall q | q in d'.dirs ensures !(tmp < q) {
      if tmp < q && tmp !in d.dirs {
        EmptyAround(d, tmp, q);
      }
    }
  }

  /** Materializing keeps the store and completes the named directory it returns. */
  lemma MaterializeCompletes(h: Hash, d: Disk, sha: string, pid: string)
    requires StoreOk(h, d) && NamedTreesComplete(h, d) && TreePath(sha) in d.names
    ensures IsDigest(sha)
    ensures var (d', r) := MaterializeTree(d, sha, TreePath(sha), pid);
      && (r.Ok? ==> StoreOk(h, d') && NamedTreesComplete(h, d') && r.value == Target(sha))
      && (r.Ok? && !d.Exists(Target(sha)) ==>
            Holds(h, Files(d', Target(sha)) - {[MARKER]},
                  UnpackOnto(Staging(sha, pid), map[], d.At(TreePath(sha)).content.entries) - {[MARKER]}))
  {
    var tmp := Staging(sha, pid);
    StagingIsNoTarget(sha, pid, sha);
    if Target(sha) + [MARKER] in d.names {
      ParentsAreDirs(d, Target(sha), Target(sha) + [MARKER]);
    } else if MaterializeTree(d, sha, TreePath(sha), pid).1.Ok? {
      PrepareIsEmpty(d, tmp);
      var d2 := MakeDir(Cleared(d, tmp), tmp);
      LayoutIsSeparate(sha, sha);
      ElsewhereKeepsStore(h, d, d2, tmp);
      StagingKeepsNamedTrees(h, d, d2, sha, pid);
      ObjectElsewhere(d, d2, tmp, TreePath(sha));
      StageCompletes(h, d2, sha, pid, d2.At(TreePath(sha)).content.entries);
      assert d2.Exists(Target(sha)) <==> d.Exists(Target(sha));
    }
  }

  // ---------------------------------------------------------------- ingest, then materialize

  /** Files whose names the store can give back: no backslash, and nothing below a directory
      with the marker's name. */
  ghost predicate Faithful(files: map<Path, Data>) {
    forall rel :: rel in files ==> !HasBackslash(rel) && !([MARKER] < rel)
  }

  function Ideal(h: Hash, files: map<Path, Data>): map<Path, (string, nat)> {
    map rel | rel in files :: (h.file(files[rel].content), files[rel].mode)
  }

  lemma HoldsIdeal(h: Hash, files: map<Path, Data>, other: map<Path, Data>)
    requires Lawful(h) && Holds(h, other - {[MARKER]}, Ideal(h, files) - {[MARKER]})
    ensures other - {[MARKER]} == files - {[MARKER]}
  {
    var a, b := other - {[MARKER]}, files - {[MARKER]};
    forall rel ensures rel in a <==> rel in b {
      assert rel in a.Keys <==> rel in (Ideal(h, files) - {[MARKER]}).Keys;
    }
    forall rel | rel in a ensures a[rel] == b[rel] {
      assert h.file(a[rel].content) == h.file(b[rel].content);
    }
  }

  /** Each entry is that of some file with a clean name. */
  ghost predicate Describes(h: Hash, files: map<Path, Data>, entries: seq<TreeEntry>) {
    forall i :: 0 <= i < |entries| ==> IsEntry(h, files, entries[i])
  }

  ghost predicate IsEntry(h: Hash, files: map<Path, Data>, e: TreeEntry) {
    exists rel :: rel in files && e == EntryOf(h, rel, files[rel])
  }

  ghost predicate CleanNames(files: map<Path, Data>) {
    forall rel :: rel in files ==> ValidRel(rel) && !HasBackslash(rel)
  }

  lemma {:induction false} UnpackIsIdeal(h: Hash, files: map<Path, Data>, tmp: Path,
                                         want: map<Path, (string, nat)>, entries: seq<TreeEntry>)
    requires CleanNames(files) && Describes(h, files, entries)
    requires want.Keys <= files.Keys && forall rel :: rel in want ==> want[rel] == Ideal(h, files)[rel]
    ensures var got := UnpackOnto(tmp, want, entries);
      && got.Keys <= files.Keys
      && (forall rel :: rel in got ==> got[rel] == Ideal(h, files)[rel])
      && (forall rel :: rel in want || (rel in files && EntryOf(h, rel, files[rel]) in entries) ==> rel in got)
    decreases |entries|
  {
    hide EntryPath, EnsureChild, HasBackslash, ValidRel;
    if entries != [] {
      assert IsEntry(h, files, entries[0]);
      var rel :| rel in files && entries[0] == EntryOf(h, rel, files[rel]);
      EntryPathReads(tmp, rel);
      assert (tmp + rel)[|tmp|..] == rel;
      var want' := want[rel := (entries[0].sha256, entries[0].mode)];
      assert want'.Keys <= files.Keys;
      UnpackIsIdeal(h, files, tmp, want', entries[1..]);
      forall x | x in files && EntryOf(h, x, files[x]) in entries
        ensures x in want' || EntryOf(h, x, files[x]) in entries[1..]
      {
        if EntryOf(h, x, files[x]) == entries[0] {
          EntryPathReads(tmp, x);
          assert (tmp + x)[|tmp|..] == x;
        }
      }
    }
  }

  lemma WalkDescribes(h: Hash, files: map<Path, Data>, walk: seq<Path>)
    requires forall rel :: rel in walk <==> rel in files
    ensures Describes(h, files, EntriesOf(h, files, walk))
    ensures forall rel :: rel in files ==> EntryOf(h, rel, files[rel]) in EntriesOf(h, files, walk)
  {
    var raw := EntriesOf(h, files, walk);
    forall i | 0 <= i < |raw| ensures IsEntry(h, files, raw[i]) {
      assert walk[i] in walk;
    }
    forall rel | rel in files ensures EntryOf(h, rel, files[rel]) in raw {
      var j :| 0 <= j < |walk| && walk[j] == rel;
      assert raw[j] in raw;
    }
  }

  lemma TreeDescribes(h: Hash, files: map<Path, Data>)
    ensures Describes(h, files, TreeOf(h, files))
    ensures forall rel :: rel in files ==> EntryOf(h, rel, files[rel]) in TreeOf(h, files)
  {
    PathLeIsTotal();
    EntryLeIsPreorder();
    var walk := Ascending(files.Keys, PathLe);
    WalkDescribes(h, files, walk);
    var raw := EntriesOf(h, files, walk);
    StableSortSorts(raw, EntryLe);
    var es := TreeOf(h, files);
    forall i | 0 <= i < |es| ensures IsEntry(h, files, es[i]) {
      assert es[i] in es && es[i] in raw;
      var j :| 0 <= j < |raw| && raw[j] == es[i];
      assert IsEntry(h, files, raw[j]);
    }
  }

  lemma UnpackedTree(h: Hash, files: map<Path, Data>, tmp: Path)
    requires CleanNames(files)
    ensures UnpackOnto(tmp, map[], TreeOf(h, files)) == Ideal(h, files)
  {
    hide TreeOf;
    TreeDescribes(h, files);
    UnpackIsIdeal(h, files, tmp, map[], TreeOf(h, files));
  }

  /** Entry paths never name a file with a backslash. */
  lemma {:induction false} UnpackIsClean(h: Hash, files: map<Path, Data>, tmp: Path,
                                         want: map<Path, (string, nat)>, entries: seq<TreeEntry>)
    requires Describes(h, files, entries) && forall rel :: rel in want ==> !HasBackslash(rel)
    ensures forall rel :: rel in UnpackOnto(tmp, want, entries) ==> !HasBackslash(rel)
    decreases |entries|
  {
    hide EnsureChild, Components, EntryPath;
    if entries != [] {
      var e := entries[0];
      assert IsEntry(h, files, e);
      var rel :| rel in files && e == EntryOf(h, rel, files[rel]);
      var place := EnsureChild(tmp, e.path);
      if place.Ok? {
        ChildParts(tmp, e.path);
        EntryPathIsClean(tmp, rel);
        var comps := Components(e.path);
        var key := place.value[|tmp|..];
        assert key == comps || key == comps[|tmp|..];
        forall i | 0 <= i < |key| ensures '\\' !in key[i] {
          assert key[i] in comps;
        }
        UnpackIsClean(h, files, tmp, want[key := (e.sha256, e.mode)], entries[1..]);
      } else {
        UnpackIsClean(h, files, tmp, want, entries[1..]);
      }
    }
  }

  // ---------------------------------------------------------------- when the copy loop succeeds

  ghost predicate PrefixFree(files: map<Path, Data>) {
    forall a, b :: a in files && b in files ==> !(a < b)
  }

  /** What lies below the staging directory so far belongs to `files`. */
  ghost predicate PartOf(d: Disk, tmp: Path, files: map<Path, Data>) {
    && (forall p :: p in d.names && tmp <= p ==> p[|tmp|..] in files)
    && (forall q :: q in d.dirs && tmp < q ==> exists rel :: rel in files && q < tmp + rel)
  }

  lemma PlaceIsFree(d: Disk, tmp: Path, files: map<Path, Data>, rel: Path)
    requires Staged(d, tmp) && PartOf(d, tmp, files) && PrefixFree(files) && rel in files && rel != []
    ensures d.CanWrite(tmp + rel)
  {
    var p := tmp + rel;
    assert p[|tmp|..] == rel;
    forall x | x in files ensures !(p < tmp + x) && !(tmp + x < p) {
      assert (tmp + x)[|tmp|..] == x;
      assert p < tmp + x ==> rel < x;
      assert tmp + x < p ==> x < rel;
    }
    forall q | q < p ensures q !in d.names {
      PrefixesCompare(tmp, q, p);
      if q <= tmp {
        AncestorIsDir(d, q, tmp);
        assert q in d.names ==> d.CanWrite(q);
      } else {
        assert q == tmp + q[|tmp|..];
      }
    }
    CanWriteIntro(d, p);
  }

  lemma WrittenIsPart(d: Disk, tmp: Path, files: map<Path, Data>, rel: Path, data: Data)
    requires PartOf(d, tmp, files) && rel in files && rel != []
    ensures PartOf(Write(d, tmp + rel, data), tmp, files)
  {
    var p := tmp + rel;
    assert p[|tmp|..] == rel;
    var d' := Write(d, p, data);
    forall q | q in d'.dirs && tmp < q ensures exists x :: x in files && q < tmp + x {
      AncestorMember(q, p);
    }
  }

  lemma DigestIsLong(h: Hash, c: Content)
    requires Lawful(h)
    ensures |h.file(c)| > 2
  {
    assert IsDigest(h.file(c));
  }

  lemma CopyOneSucceeds(h: Hash, d: Disk, tmp: Path, files: map<Path, Data>, rel: Path)
    requires Lawful(h) && Staged(d, tmp) && PartOf(d, tmp, files)
    requires CleanNames(files) && PrefixFree(files) && rel in files
    requires BlobPath(h.file(files[rel].content)) in d.names && Apart(tmp, OBJECTS)
    ensures var (d', r) := CopyOne(d, tmp, EntryOf(h, rel, files[rel])); r.Ok? && PartOf(d', tmp, files)
  {
    hide Lawful, EnsureChild, EntryPath, PartOf, PrefixFree, Write, FileSystem.Disk.CanWrite;
    EntryPathReads(tmp, rel);
    PlaceIsFree(d, tmp, files, rel);
    DigestIsLong(h, files[rel].content);
    var data := d.At(BlobPath(h.file(files[rel].content)));
    WrittenIsPart(d, tmp, files, rel, data);
    WrittenIsPart(Write(d, tmp + rel, data), tmp, files, rel, data.(mode := files[rel].mode));
  }

  lemma {:induction false} CopySucceeds(h: Hash, d: Disk, tmp: Path, files: map<Path, Data>, entries: seq<TreeEntry>)
    requires StoreOk(h, d) && Staged(d, tmp) && PartOf(d, tmp, files) && Apart(tmp, OBJECTS)
    requires CleanNames(files) && PrefixFree(files) && Describes(h, files, entries) && BlobsLive(d, entries)
    ensures CopyFrom(d, tmp, entries).1.Ok? && PartOf(CopyFrom(d, tmp, entries).0, tmp, files)
    decreases |entries|
  {
    hide Files, RelFiles, Honest, CopyOne, FileSystem.Disk.WellFormed, Staged, PartOf, PrefixFree, CleanNames,
         Elsewhere, EntryPath;
    if entries != [] {
      assert IsEntry(h, files, entries[0]);
      var rel :| rel in files && entries[0] == EntryOf(h, rel, files[rel]);
      CopyOneSucceeds(h, d, tmp, files, rel);
      CopyOneElsewhere(d, tmp, entries[0]);
      var d' := CopyOne(d, tmp, entries[0]).0;
      ElsewhereKeepsStore(h, d, d', tmp);
      forall i | 0 <= i < |entries[1..]| ensures BlobPath(entries[1..][i].sha256) in d'.names {
        LayoutIsSeparate(entries[1..][i].sha256, "");
        ObjectElsewhere(d, d', tmp, BlobPath(entries[1..][i].sha256));
      }
      CopySucceeds(h, d', tmp, files, entries[1..]);
    }
  }

  ghost predicate ValidNames(d: Disk) {
    forall p, i :: p in d.names && 0 <= i < |p| ==> ValidName(p[i])
  }

  lemma DirectoryFiles(d: Disk, dir: Path)
    requires d.WellFormed() && ValidNames(d)
    ensures PrefixFree(Files(d, dir))
    ensures forall rel :: rel in Files(d, dir) ==> ValidRel(rel)
  {
    var files := Files(d, dir);
    forall a, b | a in files && b in files ensures !(a < b) {
      FilesMember(d, dir, a);
      FilesMember(d, dir, b);
      FileIsNoDir(d, dir + a);
      if a < b {
        assert dir + a < dir + b;
        ParentsAreDirs(d, dir + a, dir + b);
      }
    }
    forall rel | rel in files ensures ValidRel(rel) {
      FilesMember(d, dir, rel);
      forall n | n in rel ensures ValidName(n) {
        var i :| 0 <= i < |rel| && rel[i] == n;
        assert (dir + rel)[|dir| + i] == n;
      }
    }
  }

  /** The disk on which a freshly ingested tree is about to be materialized. */
  ghost predicate ReadyToMaterialize(h: Hash, d: Disk, files: map<Path, Data>, sha: string, pid: string) {
    && StoreOk(h, d)
    && sha == h.tree(TreeOf(h, files))
    && TreePath(sha) in d.names && d.At(TreePath(sha)).content == TreeDoc(TreeOf(h, files))
    && BlobsLive(d, TreeOf(h, files))
    && !d.Exists(Target(sha))
    && (forall k :: 0 <= k <= 3 ==> Staging(sha, pid)[..k] !in d.names)
  }

  lemma ReadyIsStaged(h: Hash, d: Disk, files: map<Path, Data>, sha: string, pid: string)
    requires ReadyToMaterialize(h, d, files, sha, pid)
    ensures var tmp := Staging(sha, pid);
      var d2 := MakeDir(Cleared(d, tmp), tmp);
      && Staged(d2, tmp) && Elsewhere(d, d2, tmp) && PartOf(d2, tmp, files) && Files(d2, tmp) == map[]
      && StoreOk(h, d2) && BlobsLive(d2, TreeOf(h, files)) && Apart(tmp, OBJECTS)
      && MaterializeTree(d, sha, TreePath(sha), pid) == Stage(d2, sha, tmp, TreeOf(h, files))
      && !d2.Exists(Target(sha)) && IsDigest(sha)
  {
    var tmp := Staging(sha, pid);
    StagingIsNoTarget(sha, pid, sha);
    assert tmp[..3] == tmp;
    RootIsClear(d, tmp);
    PrepareIsEmpty(d, tmp);
    var d2 := MakeDir(Cleared(d, tmp), tmp);
    ElsewhereKeepsStore(h, d, d2, tmp);
    LayoutIsSeparate(sha, sha);
    ObjectElsewhere(d, d2, tmp, TreePath(sha));
    var es := TreeOf(h, files);
    forall i | 0 <= i < |es| ensures BlobPath(es[i].sha256) in d2.names {
      LayoutIsSeparate(es[i].sha256, "");
      ObjectElsewhere(d, d2, tmp, BlobPath(es[i].sha256));
    }
    if Target(sha) + [MARKER] in d.names {
      EmptyAround(d, Target(sha), Target(sha) + [MARKER]);
    }
  }

  lemma FaithfulComesBack(h: Hash, d: Disk, files: map<Path, Data>, sha: string, pid: string)
    requires ReadyToMaterialize(h, d, files, sha, pid) && NamedTreesComplete(h, d)
    requires CleanNames(files) && PrefixFree(files) && Faithful(files)
    ensures GivesBack(MaterializeTree(d, sha, TreePath(sha), pid), files)
  {
    hide Files, RelFiles, Honest, FileSystem.Disk.WellFormed, Staged, Elsewhere, TreeOf, CopyOne;
    var tmp := Staging(sha, pid);
    var d2 := MakeDir(Cleared(d, tmp), tmp);
    ReadyIsStaged(h, d, files, sha, pid);
    TreeDescribes(h, files);
    CopySucceeds(h, d2, tmp, files, TreeOf(h, files));
    var d3 := CopyFrom(d2, tmp, TreeOf(h, files)).0;
    forall rel | rel in files ensures !(tmp + [MARKER] < tmp + rel) {
      assert (tmp + rel)[|tmp|..] == rel && (tmp + [MARKER])[|tmp|..] == [MARKER];
      assert tmp + [MARKER] < tmp + rel ==> [MARKER] < rel;
    }
    assert tmp + [MARKER] !in d3.dirs;
    MaterializeCompletes(h, d, sha, pid);
    UnpackedTree(h, files, tmp);
    HoldsIdeal(h, files, Files(MaterializeTree(d, sha, TreePath(sha), pid).0, Target(sha)));
  }

  lemma CleanMapsDiffer(h: Hash, files: map<Path, Data>, lost: Path, want: map<Path, (string, nat)>, got: map<Path,
                        Data>)
    requires lost in files && HasBackslash(lost)
    requires forall rel :: rel in want ==> !HasBackslash(rel)
    requires Holds(h, got - {[MARKER]}, want - {[MARKER]})
    ensures got - {[MARKER]} != files - {[MARKER]}
  {
    assert !HasBackslash([MARKER]);
    assert lost in files - {[MARKER]};
    assert lost !in (want - {[MARKER]}).Keys;
    assert lost !in (got - {[MARKER]}).Keys;
  }

  lemma BackslashIsLost(h: Hash, d: Disk, files: map<Path, Data>, sha: string, pid: string, lost: Path)
    requires ReadyToMaterialize(h, d, files, sha, pid) && NamedTreesComplete(h, d)
    requires lost in files && HasBackslash(lost)
    ensures !GivesBack(MaterializeTree(d, sha, TreePath(sha), pid), files)
  {
    MaterializeCompletes(h, d, sha, pid);
    var (d', r) := MaterializeTree(d, sha, TreePath(sha), pid);
    if r.Ok? {
      TreeDescribes(h, files);
      UnpackIsClean(h, files, Staging(sha, pid), map[], TreeOf(h, files));
      CleanMapsDiffer(h, files, lost, UnpackOnto(Staging(sha, pid), map[], TreeOf(h, files)), Files(d', Target(sha)));
    }
  }

  lemma MarkerDirectoryAppears(h: Hash, d: Disk, tmp: Path, files: map<Path, Data>, below: Path)
    requires StoreOk(h, d) && Staged(d, tmp) && PartOf(d, tmp, files) && Apart(tmp, OBJECTS)
    requires Files(d, tmp) == map[] && BlobsLive(d, TreeOf(h, files))
    requires CleanNames(files) && PrefixFree(files) && below in files && [MARKER] < below
    ensures CopyFrom(d, tmp, TreeOf(h, files)).1.Ok?
    ensures tmp + [MARKER] in CopyFrom(d, tmp, TreeOf(h, files)).0.dirs
  {
    hide Files, RelFiles, Honest, FileSystem.Disk.WellFormed, Staged, TreeOf, CopyFrom, PartOf, CleanNames,
         PrefixFree, Describes, BlobsLive, UnpackOnto, Lawful;
    TreeDescribes(h, files);
    CopySucceeds(h, d, tmp, files, TreeOf(h, files));
    CopyHolds(h, d, tmp, TreeOf(h, files), map[]);
    UnpackedTree(h, files, tmp);
    PlacedBelowMarker(CopyFrom(d, tmp, TreeOf(h, files)).0, tmp, below, Ideal(h, files), h);
  }

  lemma PlacedBelowMarker(d: Disk, tmp: Path, below: Path, want: map<Path, (string, nat)>, h: Hash)
    requires d.WellFormed() && Holds(h, Files(d, tmp), want) && below in want && [MARKER] < below
    ensures tmp + [MARKER] in d.dirs
  {
    assert below in Files(d, tmp).Keys;
    FilesMember(d, tmp, below);
    assert tmp + [MARKER] < tmp + below;
    ParentsAreDirs(d, tmp + [MARKER], tmp + below);
  }

  lemma MarkerDirectoryFails(h: Hash, d: Disk, files: map<Path, Data>, sha: string, pid: string, below: Path)
    requires ReadyToMaterialize(h, d, files, sha, pid)
    requires CleanNames(files) && PrefixFree(files) && below in files && [MARKER] < below
    ensures MaterializeTree(d, sha, TreePath(sha), pid).1.Err?
  {
    var tmp := Staging(sha, pid);
    ReadyIsStaged(h, d, files, sha, pid);
    MarkerDirectoryAppears(h, MakeDir(Cleared(d, tmp), tmp), tmp, files, below);
  }

  ghost predicate GivesBack(outcome: (Disk, Result<Path>), files: map<Path, Data>) {
    outcome.1.Ok? && Files(outcome.0, outcome.1.value) - {[MARKER]} == files - {[MARKER]}
  }

  /** Ingesting a directory and materializing its tree gives back every file's path, content and
      mode (the marker apart) exactly when no path holds a backslash and none lies below a
      directory that has the marker's name. */
  lemma IngestThenMaterialize(h: Hash, d: Disk, dir: Path, pid: string)
    requires StoreOk(h, d) && NamedTreesComplete(h, d) && ValidNames(d)
    requires IngestDirectory(h, d, dir).1.Ok?
    requires var (d1, r1) := IngestDirectory(h, d, dir);
      && NamedTreesComplete(h, d1) && !d1.Exists(Target(r1.value))
      && forall k :: 0 <= k <= 3 ==> Staging(r1.value, pid)[..k] !in d1.names
    ensures var (d1, r1) := IngestDirectory(h, d, dir);
      GivesBack(MaterializeTree(d1, r1.value, TreePath(r1.value), pid), Files(d, dir)) <==> Faithful(Files(d, dir))
  {
    var (d1, r1) := IngestDirectory(h, d, dir);
    IngestDirectoryStores(h, d, dir);
    DirectoryFiles(d, dir);
    FaithfulDecides(h, d1, Files(d, dir), r1.value, pid);
  }

  lemma FaithfulDecides(h: Hash, d: Disk, files: map<Path, Data>, sha: string, pid: string)
    requires ReadyToMaterialize(h, d, files, sha, pid) && NamedTreesComplete(h, d)
    requires PrefixFree(files) && forall rel :: rel in files ==> ValidRel(rel)
    ensures GivesBack(MaterializeTree(d, sha, TreePath(sha), pid), files) <==> Faithful(files)
  {
    hide Files, RelFiles, TreeOf, MaterializeTree;
    if rel :| rel in files && HasBackslash(rel) {
      BackslashIsLost(h, d, files, sha, pid, rel);
    } else if rel :| rel in files && [MARKER] < rel {
      MarkerDirectoryFails(h, d, files, sha, pid, rel);
    } else {
      FaithfulComesBack(h, d, files, sha, pid);
    }
  }

  /** A tree that is already materialized is returned as it stands, and is the same directory. */
  lemma CachedTreeIsTheSame(h: Hash, d: Disk, files: map<Path, Data>, sha: string, pid: string)
    requires StoreOk(h, d) && NamedTreesComplete(h, d)
    requires sha == h.tree(TreeOf(h, files)) && Target(sha) + [MARKER] in d.names
    requires CleanNames(files)
    ensures var (d', r) := MaterializeTree(d, sha, TreePath(sha), pid);
      d' == d && r == Ok(Target(sha)) && Files(d', r.value) - {[MARKER]} == files - {[MARKER]}
  {
    ParentsAreDirs(d, Target(sha), Target(sha) + [MARKER]);
    assert CompleteTree(h, d, sha);
    var entries, tmp :| h.tree(entries) == sha
      && Holds(h, Files(d, Target(sha)) - {[MARKER]}, UnpackOnto(tmp, map[], entries) - {[MARKER]});
    UnpackedTree(h, files, tmp);
    HoldsIdeal(h, files, Files(d, Target(sha)));
  }

  // ---------------------------------------------------------------- the operation, step by step

  method CopyEntry(lab: Project, tmp: Path, e: TreeEntry) returns (r: Result<()>, ghost between: Disk)
    requires Staged(lab.OnDisk(), tmp)
    modifies lab
    ensures lab.View() == old(lab.View()).(disk := CopyOne(old(lab.OnDisk()), tmp, e).0)
    ensures r == CopyOne(old(lab.OnDisk()), tmp, e).1
    ensures Staged(between, tmp) && Elsewhere(old(lab.OnDisk()), between, tmp)
  {
    between := lab.OnDisk();
    var place := EnsureChild(tmp, e.path);
    if place.Err? {
      return Err(place.error), between;
    }
    var p := place.value;
    if !(p != [] && p !in lab.dirs && forall k :: 0 <= k < |p| ==> p[..k] !in lab.names) {
      return Err(Io), between;
    }
    if |e.sha256| <= 2 {
      return Err(Artifact), between;
    }
    var blob := BlobPath(e.sha256);
    if blob !in lab.names || lab.names[blob] !in lab.inodes {
      return Err(Io), between;
    }
    var data := lab.inodes[lab.names[blob]];
    assert tmp <= p && tmp != p;
    WriteElsewhere(lab.OnDisk(), tmp, p, data);
    lab.WriteFile(p, data);
    between := lab.OnDisk();
    lab.WriteFile(p, data.(mode := e.mode));
    r := Ok(());
  }

  method CopyEntries(lab: Project, tmp: Path, entries: seq<TreeEntry>)
    returns (r: Result<()>, ghost history: seq<Disk>)
    requires Staged(lab.OnDisk(), tmp)
    modifies lab
    ensures lab.View() == old(lab.View()).(disk := CopyFrom(old(lab.OnDisk()), tmp, entries).0)
    ensures r == CopyFrom(old(lab.OnDisk()), tmp, entries).1
    ensures forall i :: 0 <= i < |history| ==> Staged(history[i], tmp) && Elsewhere(old(lab.OnDisk()), history[i], tmp)
    ensures history != [] && history[|history| - 1] == lab.OnDisk()
  {
    hide FileSystem.Disk.WellFormed, CopyOne, Write;
    ghost var start := lab.OnDisk();
    history := [start];
    var i := 0;
    while i < |entries|
      invariant 0 <= i <= |entries|
      invariant lab.View() == old(lab.View()).(disk := lab.OnDisk())
      invariant CopyFrom(lab.OnDisk(), tmp, entries[i..]) == CopyFrom(start, tmp, entries)
      invariant forall j :: 0 <= j < |history| ==> Staged(history[j], tmp) && Elsewhere(start, history[j], tmp)
      invariant history != [] && history[|history| - 1] == lab.OnDisk()
    {
      ghost var before := lab.OnDisk();
      assert Staged(before, tmp) && Elsewhere(start, before, tmp);
      CopyOneElsewhere(before, tmp, entries[i]);
      ghost var between: Disk;
      r, between := CopyEntry(lab, tmp, entries[i]);
      ElsewhereChains(start, before, between, tmp);
      ElsewhereChains(start, before, lab.OnDisk(), tmp);
      history := history + [between, lab.OnDisk()];
      if r.Err? {
        return;
      }
      assert entries[i..][1..] == entries[i + 1..];
      i := i + 1;
    }
    r := Ok(());
  }

  ghost predicate AllComplete(h: Hash, history: seq<Disk>) {
    forall i :: 0 <= i < |history| ==> NamedTreesComplete(h, history[i])
  }

  lemma StagingHistory(h: Hash, start: Disk, history: seq<Disk>, sha: string, pid: string)
    requires IsDigest(sha) && start.WellFormed() && NamedTreesComplete(h, start)
    requires forall i :: 0 <= i < |history| ==>
               history[i].WellFormed() && Elsewhere(start, history[i], Staging(sha, pid))
    ensures AllComplete(h, history)
  {
    forall i | 0 <= i < |history| ensures NamedTreesComplete(h, history[i]) {
      StagingKeepsNamedTrees(h, start, history[i], sha, pid);
    }
  }

  lemma HistoriesJoin(h: Hash, early: seq<Disk>, late: seq<Disk>)
    requires AllComplete(h, early) && AllComplete(h, late)
    ensures AllComplete(h, early + late)
  {
    hide NamedTreesComplete;
  }

  lemma OneComplete(h: Hash, d: Disk)
    requires NamedTreesComplete(h, d)
    ensures AllComplete(h, [d])
  {
    hide NamedTreesComplete;
  }

  /** Stopping after any step leaves every directory named by a digest complete: `history` holds
      the disk after each step. */
  method Materialize(lab: Project, sha: string, pid: string) returns (r: Result<Path>, ghost history: seq<Disk>)
    requires StoreOk(lab.hash, lab.OnDisk()) && NamedTreesComplete(lab.hash, lab.OnDisk())
    requires TreePath(sha) in lab.OnDisk().names
    modifies lab
    ensures lab.View() == old(lab.View()).(disk := MaterializeTree(old(lab.OnDisk()), sha, TreePath(sha), pid).0)
    ensures r == MaterializeTree(old(lab.OnDisk()), sha, TreePath(sha), pid).1
    ensures history != [] && history[|history| - 1] == lab.OnDisk()
    ensures AllComplete(lab.hash, history)
  {
    hide Files, RelFiles, Honest, NamedTreesComplete, Stage, CopyOne, Elsewhere, Staged, PartOf, Apart, Lawful, Holds,
         UnpackOnto, FileSystem.Disk.WellFormed, RemoveAll, MakeDir, AllComplete, TreePath, Target, Staging, IsDigest;
    ghost var start := lab.OnDisk();
    history := [start];
    OneComplete(lab.hash, start);
    var target := Target(sha);
    var tmp := Staging(sha, pid);
    MaterializeCompletes(lab.hash, start, sha, pid);
    if target + [MARKER] in lab.names {
      return Ok(target), history;
    }
    if tmp in lab.names {
      return Err(Io), history;
    }
    RootIsClear(start, tmp);
    if tmp in lab.dirs {
      lab.RemoveTree(tmp);
    }
    StagingKeepsNamedTrees(lab.hash, start, lab.OnDisk(), sha, pid);
    OneComplete(lab.hash, lab.OnDisk());
    HistoriesJoin(lab.hash, history, [lab.OnDisk()]);
    history := history + [lab.OnDisk()];
    if exists k :: 0 <= k <= |tmp| && tmp[..k] in lab.names {
      return Err(Io), history;
    }
    PrepareIsEmpty(start, tmp);
    lab.MakeDirectory(tmp);
    StagingKeepsNamedTrees(lab.hash, start, lab.OnDisk(), sha, pid);
    OneComplete(lab.hash, lab.OnDisk());
    HistoriesJoin(lab.hash, history, [lab.OnDisk()]);
    history := history + [lab.OnDisk()];
    var path := TreePath(sha);
    if path !in lab.names || lab.names[path] !in lab.inodes {
      return Err(Io), history;
    }
    if !lab.inodes[lab.names[path]].content.TreeDoc? {
      return Err(Serialization), history;
    }
    ghost var late: seq<Disk>;
    r, late := FillAndPublish(lab, sha, pid, lab.inodes[lab.names[path]].content.entries, start);
    HistoriesJoin(lab.hash, history, late);
    history := history + late;
  }

  method FillAndPublish(lab: Project, sha: string, pid: string, entries: seq<TreeEntry>, ghost start: Disk)
    returns (r: Result<Path>, ghost history: seq<Disk>)
    requires IsDigest(sha) && start.WellFormed() && NamedTreesComplete(lab.hash, start)
    requires Staged(lab.OnDisk(), Staging(sha, pid)) && Elsewhere(start, lab.OnDisk(), Staging(sha, pid))
    requires Stage(lab.OnDisk(), sha, Staging(sha, pid), entries).1.Ok? ==>
               NamedTreesComplete(lab.hash, Stage(lab.OnDisk(), sha, Staging(sha, pid), entries).0)
    modifies lab
    ensures lab.View() == old(lab.View()).(disk := Stage(old(lab.OnDisk()), sha, Staging(sha, pid), entries).0)
    ensures r == Stage(old(lab.OnDisk()), sha, Staging(sha, pid), entries).1
    ensures history != [] && history[|history| - 1] == lab.OnDisk() && AllComplete(lab.hash, history)
  {
    hide Files, RelFiles, Honest, CopyOne, CopyFrom, NamedTreesComplete, Elsewhere, RenameTree, RemoveAll, Replace,
         FileSystem.Disk.WellFormed;
    var tmp, target := Staging(sha, pid), Target(sha);
    ghost var before := lab.OnDisk();
    var copied: Result<()>;
    copied, history := CopyEntries(lab, tmp, entries);
    forall i | 0 <= i < |history| ensures history[i].WellFormed() && Elsewhere(start, history[i], tmp) {
      ElsewhereChains(start, before, history[i], tmp);
    }
    StagingHistory(lab.hash, start, history, sha, pid);
    if copied.Err? {
      return Err(copied.error), history;
    }
    if tmp + [MARKER] in lab.dirs {
      return Err(Io), history;
    }
    ghost var filled := lab.OnDisk();
    MarkerPlaced(filled, sha, tmp);
    lab.ReplaceFile(tmp + [MARKER], Data(TextContent(sha), FILE_MODE));
    ElsewhereChains(start, filled, lab.OnDisk(), tmp);
    StagingKeepsNamedTrees(lab.hash, start, lab.OnDisk(), sha, pid);
    history := history + [lab.OnDisk()];
    if target in lab.names || target in lab.dirs {
      lab.RemoveTree(tmp);
    } else {
      lab.RenameDirectory(tmp, target);
    }
    history := history + [lab.OnDisk()];
    r := Ok(target);
  }
}
