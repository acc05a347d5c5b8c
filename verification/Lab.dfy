/** The project state below `.rlab`: the disk with the object store, the manifest and alias files and the
    run outputs, the append-only index, and the runs with their status and `artifacts.jsonl`. */
module Lab {
  import opened Wrappers
  import opened FileSystem

  // ---------------------------------------------------------------- digests and layout

  predicate IsHexDigit(c: char) { '0' <= c <= '9' || 'a' <= c <= 'f' }

  /** A digest is a hex text, long enough to be cut into the two parts of a blob path. */
  predicate IsDigest(s: string) {
    |s| > 2 && forall i :: 0 <= i < |s| ==> IsHexDigit(s[i])
  }

  /** The digest, in hex, of a file's content and of a tree's serialized entries. */
  datatype Hash = Hash(file: Content -> string, tree: seq<TreeEntry> -> string)

  /** Digests are hex texts and no two contents collide. */
  ghost predicate Lawful(h: Hash) {
    && (forall c :: IsDigest(h.file(c)))
    && (forall es :: IsDigest(h.tree(es)))
    && (forall c1, c2 :: h.file(c1) == h.file(c2) ==> c1 == c2)
    && (forall e1, e2 :: h.tree(e1) == h.tree(e2) ==> e1 == e2)
  }

  const ARTIFACTS: Path := ["artifacts"]
  const OBJECTS: Path := ["artifacts", "objects"]
  const BLOBS: Path := ["artifacts", "objects", "blobs"]
  const TREES: Path := ["artifacts", "objects", "trees"]
  const MATERIALIZED: Path := ["artifacts", "materialized"]
  const RUNS: Path := ["runs"]
  const FILE_MODE: nat := 33188

  function BlobPath(sha: string): Path {
    BLOBS + [if |sha| >= 2 then sha[..2] else sha, sha]
  }

  function TreePath(sha: string): Path {
    TREES + [sha + ".json"]
  }

  function RunDir(id: string): Path { RUNS + [id] }

  function OutputsDir(id: string): Path { RUNS + [id, "outputs"] }

  // ---------------------------------------------------------------- events, runs

  datatype Stored = Stored(sha256: string, storage: Storage, objectPath: Path)

  /** One JSON object of `artifacts.jsonl`; other keys are carried along unread. */
  datatype Event = Event(
    path: Option<Path>, name: string,
    artifactKind: Option<string>, artifactName: Option<string>,
    artifactVersion: Option<string>, version: Option<string>, alias: Option<string>,
    sha256: Option<string>, storage: Option<Storage>, objectPath: Option<Path>,
    reference: Option<Reference>)

  datatype Line = Entry(event: Event) | Malformed

  datatype Status = Created | Planned | Running | Completed | Failed | Cancelled | Stale | Reproduced {
    /** `RunStatus::can_transition_to` */
    predicate CanBecome(to: Status) {
      || (Created? && (to.Planned? || to.Running?))
      || (Planned? && to.Running?)
      || (Running? && (to.Completed? || to.Failed? || to.Cancelled?))
      || (Completed? && (to.Stale? || to.Reproduced?))
      || (Failed? && to.Stale?)
    }

    /** The run may still complete. */
    predicate Pending() { Created? || Planned? || Running? }
  }

  /** `locked` is the `run.lock` marker; `identity` is (name, created_at) of `run.json`. */
  datatype Run = Run(status: Status, locked: bool, lines: seq<Line>, identity: Option<(string, string)>) {
    predicate IsRoot() { status.Completed? && !locked }
    predicate IsPending() { status.Pending() && !locked }
  }

  /** `json` says how a text reads as JSON: not at all, or with these entries. */
  datatype World = World(
    hash: Hash, json: string -> Option<seq<TreeEntry>>, disk: Disk, index: seq<Manifest>,
    runs: map<string, Run>, clock: nat)

  // ---------------------------------------------------------------- what the collector starts from

  /** The latest index row of each reference. */
  function Latest(index: seq<Manifest>): map<Reference, Manifest> {
    if index == [] then map[]
    else
      var last := index[|index| - 1];
      Latest(index[..|index| - 1])[last.reference := last]
  }

  function LinePaths(lines: seq<Line>): set<Path> {
    set i | 0 <= i < |lines| && lines[i].Entry? && lines[i].event.objectPath.Some?
      :: lines[i].event.objectPath.value
  }

  function IndexRoots(index: seq<Manifest>): set<Path> {
    set m | m in Latest(index).Values :: m.objectPath
  }

  function RunRoots(runs: map<string, Run>): set<Path> {
    set id, p | id in runs && runs[id].IsRoot() && p in LinePaths(runs[id].lines) :: p
  }

  function Roots(w: World): set<Path> {
    IndexRoots(w.index) + RunRoots(w.runs)
  }

  lemma {:induction false} LatestRow(index: seq<Manifest>, k: Reference)
    ensures k in Latest(index) <==> exists i :: 0 <= i < |index| && index[i].reference == k
    ensures k in Latest(index) ==>
      exists i :: 0 <= i < |index| && index[i] == Latest(index)[k] && index[i].reference == k
        && forall j :: i < j < |index| ==> index[j].reference != k
  {
    if index != [] {
      var n := |index| - 1;
      LatestRow(index[..n], k);
      if index[n].reference == k {
        assert index[n] == Latest(index)[k];
      } else if k in Latest(index) {
        var i :| 0 <= i < n && index[..n][i] == Latest(index[..n])[k] && index[..n][i].reference == k
          && forall j :: i < j < n ==> index[..n][j].reference != k;
        assert index[i] == Latest(index)[k];
        forall j | i < j < |index| ensures index[j].reference != k {
          if j < n {
            assert index[..n][j] == index[j];
          }
        }
      }
    }
  }

  // ---------------------------------------------------------------- the mutable project

  class Project {
    const hash: Hash
    const json: string -> Option<seq<TreeEntry>>
    var names: map<Path, nat>
    var inodes: map<nat, Data>
    var dirs: set<Path>
    var next: nat
    var index: seq<Manifest>
    var runs: map<string, Run>
    var clock: nat

    ghost function OnDisk(): Disk
      reads this
    {
      Disk(names, inodes, dirs, next)
    }

    ghost function View(): World
      reads this
    {
      World(hash, json, OnDisk(), index, runs, clock)
    }

    constructor (hash: Hash, json: string -> Option<seq<TreeEntry>>)
      ensures View() == World(hash, json, Disk(map[], map[], {[]}, 0), [], map[], 0)
    {
      this.hash, this.json := hash, json;
      names, inodes, dirs, next := map[], map[], {[]}, 0;
      index, runs, clock := [], map[], 0;
    }

    method WriteFile(p: Path, data: Data)
      modifies this
      ensures View() == old(View()).(disk := Write(old(OnDisk()), p, data))
    {
      if p in names {
        inodes := inodes[names[p] := data];
      } else {
        names := names[p := next];
        inodes := inodes[next := data];
        dirs := dirs + Ancestors(p);
        next := next + 1;
      }
    }

    method ReplaceFile(p: Path, data: Data)
      modifies this
      ensures View() == old(View()).(disk := Replace(old(OnDisk()), p, data))
    {
      names := names[p := next];
      inodes := inodes[next := data];
      dirs := dirs + Ancestors(p);
      next := next + 1;
    }

    method RenameDirectory(src: Path, dst: Path)
      modifies this
      ensures View() == old(View()).(disk := RenameTree(old(OnDisk()), src, dst))
    {
      var moved := set p | p in names && src <= p :: dst + p[|src|..];
      var movedDirs := set q | q in dirs && src <= q :: dst + q[|src|..];
      names := (map p | p in names && !(src <= p) :: names[p])
             + (map p | p in moved && src + p[|dst|..] in names :: names[src + p[|dst|..]]);
      dirs := (set q | q in dirs && !(src <= q)) + movedDirs;
    }

    method UnlinkFile(p: Path)
      modifies this
      ensures View() == old(View()).(disk := Unlink(old(OnDisk()), {p}))
    {
      names := names - {p};
    }

    method MakeDirectory(p: Path)
      modifies this
      ensures View() == old(View()).(disk := MakeDir(old(OnDisk()), p))
    {
      dirs := dirs + Ancestors(p) + {p};
    }

    method RemoveTree(root: Path)
      modifies this
      ensures View() == old(View()).(disk := RemoveAll(old(OnDisk()), root))
    {
      names := map p | p in names && !(root <= p) :: names[p];
      dirs := set q | q in dirs && !(root <= q);
    }
  }
}
