/** The file system as the store sees it: path -> inode, inode -> (content, mode), and
    the directories. Hard links are two paths with one inode. */
module FileSystem {
  import opened Wrappers
  import opened Order
  import opened Text

  /** Absolute path, by components. `a < b` says that `b` lies strictly below `a`. */
  type Path = seq<string>
  newtype Byte = x: int | 0 <= x < 256

  datatype TreeEntry = TreeEntry(path: string, sha256: string, mode: nat)

  datatype Storage = FileStorage | DirectoryStorage

  datatype Reference = Reference(kind: string, name: string, version: string)

  datatype Manifest = Manifest(
    reference: Reference, sha256: string, storage: Storage, objectPath: Path,
    sourcePath: Path, alias: Option<string>, createdAt: nat)

  /** A file's content: plain bytes, the JSON text of a tree or of an artifact manifest, or the text of
      an alias, a version, with the entries it has when it is read as JSON, if that is what it is. */
  datatype Content =
    | Raw(bytes: seq<Byte>)
    | TreeDoc(entries: seq<TreeEntry>)
    | ManifestDoc(manifest: Manifest)
    | AliasDoc(version: string, reading: Option<seq<TreeEntry>>)

  datatype Data = Data(content: Content, mode: nat)

  function Parent(p: Path): Path {
    if p == [] then [] else p[..|p| - 1]
  }

  datatype Disk = Disk(names: map<Path, nat>, inodes: map<nat, Data>, dirs: set<Path>, next: nat) {

    predicate IsFile(p: Path) { p in names }
    predicate Exists(p: Path) { p in names || p in dirs }

    /** Creating `p` works when `p` is no directory and no file stands in for one of its parents. */
    predicate CanWrite(p: Path) {
      p != [] && p !in dirs && forall k :: 0 <= k < |p| ==> p[..k] !in names
    }

    ghost predicate WellFormed() {
      && (forall p {:trigger names[p]} :: p in names ==> names[p] in inodes)
      && (forall i :: i in inodes ==> i < next)
      && (forall p {:trigger CanWrite(p)} :: p in names ==> CanWrite(p))
      && (forall p {:trigger Parent(p)} :: p in names ==> Parent(p) in dirs)
      && (forall q {:trigger Parent(q)} :: q in dirs && q != [] ==> Parent(q) in dirs)
    }

    /** The data seen through `p`; meaningful when `p` is a file. */
    function At(p: Path): Data {
      if p in names && names[p] in inodes then inodes[names[p]] else Data(Raw([]), 0)
    }
  }

  function Ancestors(p: Path): set<Path> {
    set k | 0 <= k < |p| :: p[..k]
  }

  /** Create `p` with its parents, or truncate and overwrite its inode in place. */
  function Write(d: Disk, p: Path, data: Data): Disk {
    if p in d.names then
      d.(inodes := d.inodes[d.names[p] := data])
    else
      Disk(d.names[p := d.next], d.inodes[d.next := data], d.dirs + Ancestors(p), d.next + 1)
  }

  function Unlink(d: Disk, ps: set<Path>): Disk {
    d.(names := d.names - ps)
  }

  function MakeDir(d: Disk, p: Path): Disk {
    d.(dirs := d.dirs + Ancestors(p) + {p})
  }

  /** `remove_dir_all` */
  function RemoveAll(d: Disk, root: Path): Disk {
    d.(names := map p | p in d.names && !(root <= p) :: d.names[p],
       dirs := set q | q in d.dirs && !(root <= q))
  }

  /** Rename a temporary file over `p`: the name gets a fresh inode. */
  function Replace(d: Disk, p: Path, data: Data): Disk {
    Disk(d.names[p := d.next], d.inodes[d.next := data], d.dirs + Ancestors(p), d.next + 1)
  }

  /** Rename the directory `src` to `dst`. */
  function RenameTree(d: Disk, src: Path, dst: Path): Disk {
    var moved := set p | p in d.names && src <= p :: dst + p[|src|..];
    var movedDirs := set q | q in d.dirs && src <= q :: dst + q[|src|..];
    d.(names := (map p | p in d.names && !(src <= p) :: d.names[p])
              + (map p | p in moved && src + p[|dst|..] in d.names :: d.names[src + p[|dst|..]]),
       dirs := (set q | q in d.dirs && !(src <= q)) + movedDirs)
  }

  // ---------------------------------------------------------------- relative paths

  predicate ValidName(n: string) {
    n != "" && n != "." && n != ".." && '/' !in n
  }

  predicate ValidRel(rel: Path) {
    rel != [] && forall n :: n in rel ==> ValidName(n)
  }

  predicate HasBackslash(rel: Path) {
    exists i :: 0 <= i < |rel| && '\\' in rel[i]
  }

  function ReplaceBackslash(s: string): (r: string)
    ensures |r| == |s| && forall i :: 0 <= i < |s| ==> r[i] == if s[i] == '\\' then '/' else s[i]
  {
    if s == "" then "" else [if s[0] == '\\' then '/' else s[0]] + ReplaceBackslash(s[1..])
  }

  /** `relative_to_string` */
  function EntryPath(rel: Path): string {
    ReplaceBackslash(Join(rel, '/'))
  }

  /** `Path::components` of a text: empty and `.` pieces vanish. */
  function Components(text: string): Path {
    Filter(Split(text, '/'), n => n != "" && n != ".")
  }

  /** `ensure_child_path` */
  function EnsureChild(root: Path, text: string): Result<Path> {
    var comps := Components(text);
    if ".." in comps then Err(Validation)
    else
      var joined := if text != "" && text[0] == '/' then comps else root + comps;
      if root <= joined then Ok(joined) else Err(Validation)
  }

  lemma ChildParts(root: Path, text: string)
    requires EnsureChild(root, text).Ok?
    ensures var p := EnsureChild(root, text).value;
      root <= p && (p == Components(text) || p == root + Components(text))
  {
    hide Components;
  }

  lemma {:induction false} FilterAll(xs: Path, keep: string -> bool)
    requires forall x :: x in xs ==> keep(x)
    ensures Filter(xs, keep) == xs
  {
    if xs != [] {
      FilterAll(xs[1..], keep);
      assert xs == [xs[0]] + xs[1..];
    }
  }

  /** A file name without backslashes survives the trip through the manifest's path text. */
  lemma EntryPathReads(root: Path, rel: Path)
    requires ValidRel(rel) && !HasBackslash(rel)
    ensures EnsureChild(root, EntryPath(rel)) == Ok(root + rel)
  {
    var text := Join(rel, '/');
    JoinIsClean(rel, '/', '\\');
    assert EntryPath(rel) == text;
    SplitOfJoin(rel, '/');
    FilterAll(rel, n => n != "" && n != ".");
    assert rel[0] in rel;
    assert text[0] == rel[0][0];
    assert rel[0][0] in rel[0];
  }

  /** Entry paths contain no backslash, so neither does a path made from one. */
  lemma EntryPathIsClean(root: Path, rel: Path)
    requires EnsureChild(root, EntryPath(rel)).Ok?
    ensures forall k :: 0 <= k < |Components(EntryPath(rel))| ==> '\\' !in Components(EntryPath(rel))[k]
  {
    var text := EntryPath(rel);
    SplitPieces(text, '/');
    forall k | 0 <= k < |Components(text)| ensures '\\' !in Components(text)[k] {
      FilterMember(Split(text, '/'), n => n != "" && n != ".", Components(text)[k]);
    }
  }

  // ---------------------------------------------------------------- well-formed disks

  lemma {:induction false} AncestorIsDir(d: Disk, q: Path, p: Path)
    requires d.WellFormed()
    requires q <= p && p in d.dirs
    ensures q in d.dirs
    decreases |p|
  {
    if q != p {
      assert q <= Parent(p);
      AncestorIsDir(d, q, Parent(p));
    }
  }

  lemma ParentsAreDirs(d: Disk, q: Path, p: Path)
    requires d.WellFormed() && q < p && d.Exists(p)
    ensures q in d.dirs
  {
    assert q <= Parent(p);
    AncestorIsDir(d, q, Parent(p));
  }

  lemma FileIsNoDir(d: Disk, p: Path)
    requires d.WellFormed() && p in d.names
    ensures p !in d.dirs && p != []
  {
    assert d.CanWrite(p);
  }

  lemma AncestorMember(q: Path, p: Path)
    ensures q in Ancestors(p) <==> q < p
  {
    if q < p {
      assert q == p[..|q|];
    }
  }

  /** A file can stand at `p` when no directory does and no proper prefix is a file. */
  lemma CanWriteIntro(d: Disk, p: Path)
    requires p != [] && p !in d.dirs && forall q :: q < p ==> q !in d.names
    ensures d.CanWrite(p)
  {
    forall k | 0 <= k < |p| ensures p[..k] !in d.names {
      assert p[..k] < p;
    }
  }

  lemma CanWriteElim(d: Disk, p: Path, q: Path)
    requires d.CanWrite(p) && q < p
    ensures q !in d.names
  {
    assert q == p[..|q|];
  }

  lemma WriteKeepsShape(d: Disk, p: Path, data: Data)
    requires d.WellFormed() && d.CanWrite(p)
    ensures Write(d, p, data).WellFormed()
  {
    var d' := Write(d, p, data);
    if p in d.names {
      forall r | r in d'.names ensures d'.CanWrite(r) {
        assert d.CanWrite(r);
      }
    } else {
      forall q | q in d'.dirs && q != [] ensures Parent(q) in d'.dirs {
        AncestorMember(q, p);
        AncestorMember(Parent(q), p);
      }
      AncestorMember(Parent(p), p);
      forall r | r in d'.names ensures d'.CanWrite(r) {
        if r in d.names {
          assert d.CanWrite(r);
          CanWriteIfPrefix(d, p, r);
        }
        AncestorMember(r, p);
        assert r !in d'.dirs;
        forall q | q < r ensures q !in d'.names {
          if q in d.names {
            if r in d.names { CanWriteElim(d, r, q); } else { CanWriteElim(d, p, q); }
          } else if q == p {
            ParentsAreDirs(d, p, r);
          }
        }
        CanWriteIntro(d', r);
      }
      forall r | r in d'.names ensures Parent(r) in d'.dirs {
        assert r in d.names ==> Parent(r) in d.dirs;
      }
    }
  }

  lemma CanWriteIfPrefix(d: Disk, p: Path, r: Path)
    requires d.CanWrite(p) && r in d.names
    ensures !(r < p)
  {
    if r < p {
      CanWriteElim(d, p, r);
    }
  }

  lemma UnlinkKeepsShape(d: Disk, ps: set<Path>)
    requires d.WellFormed()
    ensures Unlink(d, ps).WellFormed()
  {
    var d' := Unlink(d, ps);
    forall p | p in d'.names ensures d'.CanWrite(p) {
      assert d.CanWrite(p);
    }
  }

  lemma RemoveAllKeepsShape(d: Disk, root: Path)
    requires d.WellFormed()
    ensures RemoveAll(d, root).WellFormed()
  {
    var d' := RemoveAll(d, root);
    forall p | p in d'.names ensures d'.CanWrite(p) && Parent(p) in d'.dirs {
      assert d.CanWrite(p);
      assert root <= Parent(p) ==> root <= p;
    }
    forall q | q in d'.dirs && q != [] ensures Parent(q) in d'.dirs {
      assert root <= Parent(q) ==> root <= q;
    }
  }

  lemma MakeDirKeepsShape(d: Disk, p: Path)
    requires d.WellFormed() && forall q :: q <= p ==> q !in d.names
    ensures MakeDir(d, p).WellFormed()
  {
    var d' := MakeDir(d, p);
    forall q | q in d'.dirs && q != [] ensures Parent(q) in d'.dirs {
      AncestorMember(q, p);
      AncestorMember(Parent(q), p);
    }
    forall r | r in d'.names ensures d'.CanWrite(r) {
      assert d.CanWrite(r);
      AncestorMember(r, p);
    }
  }

  lemma PrefixesCompare(a: Path, b: Path, p: Path)
    requires a <= p
    ensures b <= p ==> a <= b || b <= a
  {
    if b <= p {
      assert a == p[..|a|] && b == p[..|b|];
      assert |a| <= |b| ==> a == p[..|b|][..|a|];
      assert |b| <= |a| ==> b == p[..|a|][..|b|];
    }
  }
}
