/** The cached folder tree as a map from paths to folders, and what it means for it to agree with the camera. */
module FsTree {
  import opened Prelude
  import opened Lru
  import opened Paths

  class FolderNode {
    const name: Name
    ghost const path: Path
    var filesDirty: bool
    var foldersDirty: bool
    var folders: seq<FolderNode>
    var files: seq<FileNode>

    /** A new folder has been listed neither for files nor for folders. */
    constructor (name: Name, ghost path: Path)
      ensures this.name == name && this.path == path
      ensures filesDirty && foldersDirty && folders == [] && files == []
    {
      this.name, this.path := name, path;
      filesDirty, foldersDirty, folders, files := true, true, [], [];
    }
  }

  // ------------------------------------------------------------------
  // The camera
  // ------------------------------------------------------------------

  /** What the camera lists in one folder. */
  datatype CamDir = CamDir(folders: seq<Name>, files: seq<Name>)

  /** The camera: its folders, and the data it delivers for each file and kind. */
  datatype Device = Device(dirs: map<Path, CamDir>, data: map<(Path, Name, Kind), seq<Byte>>)

  predicate LegalDir(d: CamDir) {
    && Distinct(d.folders) && Distinct(d.files)
    && (forall n :: n in d.folders ==> LegalName(n))
  }

  function Parent(p: Path): Path
    requires p != []
  {
    p[..|p| - 1]
  }

  function Leaf(p: Path): Name
    requires p != []
  {
    p[|p| - 1]
  }

  /** A folder of the camera has legal, distinct names, has its subfolders, and hangs under its parent. */
  predicate LegalAt(c: Device, p: Path)
    requires p in c.dirs
  {
    && LegalDir(c.dirs[p])
    && (forall n :: n in c.dirs[p].folders ==> p + [n] in c.dirs)
    && (p != [] ==> Parent(p) in c.dirs && Leaf(p) in c.dirs[Parent(p)].folders)
  }

  /** The camera's folders form a tree. */
  predicate LegalDevice(c: Device) {
    [] in c.dirs && forall p {:trigger LegalAt(c, p)} :: p in c.dirs ==> LegalAt(c, p)
  }

  // ------------------------------------------------------------------
  // Snapshots of the tree
  // ------------------------------------------------------------------

  /** One folder as it stands, with the node that represents it. */
  datatype Dir = Dir(node: FolderNode, filesDirty: bool, foldersDirty: bool,
                     folders: seq<FolderNode>, files: seq<FileNode>)

  type Tree = map<Path, Dir>

  function FolderNames(s: seq<FolderNode>): (names: seq<Name>)
    ensures |names| == |s|
  {
    seq(|s|, i requires 0 <= i < |s| => s[i].name)
  }

  function FileNames(s: seq<FileNode>): (names: seq<Name>)
    ensures |names| == |s|
  {
    seq(|s|, i requires 0 <= i < |s| => s[i].name)
  }

  /** What one folder shows by itself: no name twice, and its nodes know where they belong. */
  ghost predicate Local(d: Dir, p: Path) {
    && d.node.path == p
    && Distinct(FolderNames(d.folders)) && Distinct(FileNames(d.files))
    && (forall f :: f in d.folders ==> f.path == p + [f.name])
    && (forall n :: n in d.files ==> n.home == p)
  }

  /** A folder's subfolders are in the tree, and it hangs under its parent. */
  ghost predicate Linked(t: Tree, p: Path)
    requires p in t
  {
    && (forall f :: f in t[p].folders ==> f.path in t && t[f.path].node == f)
    && (p != [] ==> Parent(p) in t && t[p].node in t[Parent(p)].folders)
  }

  ghost predicate WellKept(t: Tree, p: Path)
    requires p in t
  {
    Local(t[p], p) && Linked(t, p)
  }

  /** The snapshot is a tree: every folder hangs under its parent, no folder or file occurs twice. */
  ghost predicate WellFormed(t: Tree) {
    [] in t && forall p {:trigger WellKept(t, p)} :: p in t ==> WellKept(t, p)
  }

  /** The file nodes of the tree. */
  ghost function Live(t: Tree): set<FileNode> {
    set p, n | p in t && n in t[p].files :: n
  }

  predicate IsPrefix(p: Path, q: Path) {
    |p| <= |q| && q[..|p|] == p
  }

  /** q lies strictly below p. */
  predicate Below(q: Path, p: Path) {
    |p| < |q| && IsPrefix(p, q)
  }

  lemma LiveAt(t: Tree, n: FileNode)
    requires WellFormed(t)
    ensures n in Live(t) <==> n.home in t && n in t[n.home].files
  {
    if n in Live(t) {
      var p :| p in t && n in t[p].files;
      assert WellKept(t, p);
    }
  }

  lemma InLive(t: Tree, p: Path, i: nat)
    requires p in t && i < |t[p].files|
    ensures t[p].files[i] in Live(t)
  {
    assert t[p].files[i] in t[p].files;
  }

  lemma AllInLive(t: Tree, p: Path)
    requires p in t
    ensures forall n :: n in t[p].files ==> n in Live(t)
  {
  }

  // ------------------------------------------------------------------
  // Steps on snapshots
  // ------------------------------------------------------------------

  /** Adding an empty subfolder in front. */
  function WithFolder(t: Tree, p: Path, f: FolderNode): Tree
    requires p in t
  {
    t[p := t[p].(folders := [f] + t[p].folders)][p + [f.name] := Dir(f, true, true, [], [])]
  }

  /** A folder has a node exactly if its parent lists its name. */
  lemma ChildIff(t: Tree, p: Path, name: Name)
    requires WellFormed(t) && p in t
    ensures p + [name] in t <==> name in FolderNames(t[p].folders)
    ensures forall f :: f in t[p].folders && f.name == name ==> p + [name] in t && t[p + [name]].node == f
  {
    var q := p + [name];
    assert WellKept(t, p);
    if q in t {
      assert WellKept(t, q) && Parent(q) == p;
      var g := t[q].node;
      assert WellKept(t, p) && g.path == q == p + [g.name];
      assert q[|q| - 1] == g.name;
      var i :| 0 <= i < |t[p].folders| && t[p].folders[i] == g;
      assert FolderNames(t[p].folders)[i] == name;
    }
    if name in FolderNames(t[p].folders) {
      var i :| 0 <= i < |t[p].folders| && FolderNames(t[p].folders)[i] == name;
      assert t[p].folders[i].path == q;
    }
  }

  lemma LiveSame(t: Tree, u: Tree)
    requires forall r :: r in t ==> r in u && u[r].files == t[r].files
    requires forall r :: r in u && r !in t ==> u[r].files == []
    ensures Live(u) == Live(t)
  {
    forall n
      ensures n in Live(u) <==> n in Live(t)
    {
      if n in Live(t) {
        var r :| r in t && n in t[r].files;
        assert r in u && n in u[r].files;
      }
      if n in Live(u) {
        var r :| r in u && n in u[r].files;
        assert r in t && n in t[r].files;
      }
    }
  }

  lemma WithFolderKeeps(t: Tree, p: Path, f: FolderNode)
    requires WellFormed(t) && p in t && f.path == p + [f.name] && f.name !in FolderNames(t[p].folders)
    ensures p + [f.name] !in t
    ensures WellFormed(WithFolder(t, p, f))
    ensures Live(WithFolder(t, p, f)) == Live(t)
  {
    hide WellKept;
    var u := WithFolder(t, p, f);
    ChildIff(t, p, f.name);
    forall r | r in u
      ensures WellKept(u, r)
    {
      WithFolderKeepsOne(t, p, f, r);
    }
    LiveSame(t, u);
  }

  lemma LocalWithFolder(d: Dir, p: Path, f: FolderNode)
    requires Local(d, p) && f.path == p + [f.name] && f.name !in FolderNames(d.folders)
    ensures Local(d.(folders := [f] + d.folders), p)
  {
    assert FolderNames([f] + d.folders) == [f.name] + FolderNames(d.folders);
  }

  lemma LinkedWithFolder(t: Tree, p: Path, f: FolderNode, r: Path)
    requires p in t && f.path == p + [f.name] && p + [f.name] !in t && r in t && Linked(t, r)
    ensures Linked(WithFolder(t, p, f), r)
  {
  }

  lemma LocalNew(f: FolderNode, q: Path)
    requires f.path == q
    ensures Local(Dir(f, true, true, [], []), q)
  {
    assert FolderNames([]) == [] && FileNames([]) == [];
  }

  lemma WithFolderKeepsOne(t: Tree, p: Path, f: FolderNode, r: Path)
    requires WellFormed(t) && p in t && f.path == p + [f.name] && p + [f.name] !in t
    requires f.name !in FolderNames(t[p].folders) && r in WithFolder(t, p, f)
    ensures WellKept(WithFolder(t, p, f), r)
  {
    hide Local;
    var q := p + [f.name];
    if r == q {
      assert Parent(r) == p;
      LocalNew(f, q);
    } else {
      assert WellKept(t, r);
      LinkedWithFolder(t, p, f, r);
      if r == p {
        LocalWithFolder(t[p], p, f);
      }
    }
  }

  /** Replacing the list of files of one folder. */
  function WithFiles(t: Tree, p: Path, files: seq<FileNode>): Tree
    requires p in t
  {
    t[p := t[p].(files := files)]
  }

  lemma WithFilesKeeps(t: Tree, p: Path, files: seq<FileNode>)
    requires WellFormed(t) && p in t
    requires Distinct(FileNames(files)) && forall n :: n in files ==> n.home == p
    ensures WellFormed(WithFiles(t, p, files))
    ensures forall n :: n in Live(WithFiles(t, p, files)) <==> (n in Live(t) && n.home != p) || n in files
  {
    var u := WithFiles(t, p, files);
    forall r | r in u
      ensures WellKept(u, r)
    {
      assert WellKept(t, r);
    }
    forall n
      ensures n in Live(u) <==> (n in Live(t) && n.home != p) || n in files
    {
      LiveAt(t, n);
      LiveAt(u, n);
    }
  }

  /** Removing all files of a folder. */
  lemma NoFilesKeeps(t: Tree, p: Path)
    requires WellFormed(t) && p in t
    ensures WellFormed(WithFiles(t, p, []))
    ensures Live(WithFiles(t, p, [])) == Live(t) - (set n | n in t[p].files)
  {
    assert FileNames([]) == [];
    WithFilesKeeps(t, p, []);
    forall n
      ensures n in Live(WithFiles(t, p, [])) <==> n in Live(t) - (set n | n in t[p].files)
    {
      LiveAt(t, n);
      assert WellKept(t, p);
    }
  }

  /** Removing one file of a folder. */
  lemma WithoutFileKeeps(t: Tree, p: Path, i: nat)
    requires WellFormed(t) && p in t && i < |t[p].files|
    ensures var files := t[p].files[..i] + t[p].files[i + 1..];
            && WellFormed(WithFiles(t, p, files))
            && Live(WithFiles(t, p, files)) == Live(t) - {t[p].files[i]}
            && (forall x :: x in FileNames(files) <==> x in FileNames(t[p].files) && x != t[p].files[i].name)
  {
    assert WellKept(t, p);
    var all, names := t[p].files, FileNames(t[p].files);
    var files := all[..i] + all[i + 1..];
    assert FileNames(files) == names[..i] + names[i + 1..];
    assert forall k :: 0 <= k < |names| ==> names[k] == all[k].name;
    WithFilesKeeps(t, p, files);
    forall n
      ensures n in Live(WithFiles(t, p, files)) <==> n in Live(t) - {all[i]}
    {
      LiveAt(t, n);
    }
  }

  /** Adding one file at the end. */
  lemma WithFileKeeps(t: Tree, p: Path, n: FileNode)
    requires WellFormed(t) && p in t && n.home == p && n.name !in FileNames(t[p].files)
    ensures WellFormed(WithFiles(t, p, t[p].files + [n]))
    ensures Live(WithFiles(t, p, t[p].files + [n])) == Live(t) + {n}
  {
    var files := t[p].files;
    assert WellKept(t, p);
    assert FileNames(files + [n]) == FileNames(files) + [n.name];
    WithFilesKeeps(t, p, files + [n]);
    forall m
      ensures m in Live(WithFiles(t, p, files + [n])) <==> m in Live(t) + {n}
    {
      LiveAt(t, m);
    }
  }

  /** Changing the flags of one folder. */
  function WithFlags(t: Tree, p: Path, filesDirty: bool, foldersDirty: bool): Tree
    requires p in t
  {
    t[p := t[p].(filesDirty := filesDirty, foldersDirty := foldersDirty)]
  }

  lemma WithFlagsKeeps(t: Tree, p: Path, filesDirty: bool, foldersDirty: bool)
    requires WellFormed(t) && p in t
    ensures WellFormed(WithFlags(t, p, filesDirty, foldersDirty))
    ensures Live(WithFlags(t, p, filesDirty, foldersDirty)) == Live(t)
  {
    var u := WithFlags(t, p, filesDirty, foldersDirty);
    forall r | r in u
      ensures WellKept(u, r)
    {
      assert WellKept(t, r);
    }
    LiveSame(t, u);
  }

  // ------------------------------------------------------------------
  // Removing folders
  // ------------------------------------------------------------------

  lemma {:induction false} AncestorsIn(t: Tree, r: Path, k: nat)
    requires WellFormed(t) && r in t && k <= |r|
    ensures r[..k] in t
    decreases |r|
  {
    if k < |r| {
      assert WellKept(t, r);
      AncestorsIn(t, Parent(r), k);
      assert Parent(r)[..k] == r[..k];
    } else {
      assert r[..k] == r;
    }
  }

  /** On the way from q down to r the tree passes through a subfolder of q. */
  lemma ChildOnTheWay(t: Tree, q: Path, r: Path)
    requires WellFormed(t) && r in t && Below(r, q)
    ensures q in t && r[..|q| + 1] in t && t[r[..|q| + 1]].node in t[q].folders
  {
    var c := r[..|q| + 1];
    AncestorsIn(t, r, |q| + 1);
    assert Parent(c) == q;
    assert WellKept(t, c);
  }

  lemma NothingBelow(t: Tree, q: Path, r: Path)
    requires WellFormed(t) && q in t && t[q].folders == [] && r in t
    ensures !Below(r, q)
  {
    if Below(r, q) {
      ChildOnTheWay(t, q, r);
    }
  }

  /** Removing the i-th subfolder of p, which has no subfolders itself. */
  function WithoutFolder(t: Tree, p: Path, i: nat): Tree
    requires p in t && i < |t[p].folders|
  {
    var d, f := t[p], t[p].folders[i];
    t[p := d.(folders := d.folders[..i] + d.folders[i + 1..])] - {p + [f.name]}
  }

  lemma LocalWithoutFolder(d: Dir, p: Path, i: nat)
    requires Local(d, p) && i < |d.folders|
    ensures Local(d.(folders := d.folders[..i] + d.folders[i + 1..]), p)
    ensures forall f :: f in d.folders[..i] + d.folders[i + 1..] <==> f in d.folders && f != d.folders[i]
    ensures forall x :: x in FolderNames(d.folders[..i] + d.folders[i + 1..]) <==>
              x in FolderNames(d.folders) && x != d.folders[i].name
  {
    var rest, names := d.folders[..i] + d.folders[i + 1..], FolderNames(d.folders);
    assert FolderNames(rest) == names[..i] + names[i + 1..];
    assert names[i] == d.folders[i].name;
    assert forall k :: 0 <= k < |names| ==> names[k] == d.folders[k].name;
  }

  lemma ChildrenWithoutFolder(t: Tree, p: Path, i: nat, r: Path)
    requires p in t && i < |t[p].folders| && r in WithoutFolder(t, p, i)
    requires Local(t[p], p) && Local(t[r], r) && Linked(t, r)
    ensures var u := WithoutFolder(t, p, i); forall g :: g in u[r].folders ==> g.path in u && u[g.path].node == g
  {
    hide Linked;
    var u, f := WithoutFolder(t, p, i), t[p].folders[i];
    LocalWithoutFolder(t[p], p, i);
    forall g | g in u[r].folders
      ensures g.path in u && u[g.path].node == g
    {
      assert g in t[r].folders && g.path == r + [g.name];
      ChildLinked(t, r, g);
      if g.path == p + [f.name] {
        assert Parent(g.path) == r && Parent(p + [f.name]) == p;
        assert f in t[r].folders;
        ChildLinked(t, r, f);
      }
    }
  }

  lemma ChildLinked(t: Tree, r: Path, g: FolderNode)
    requires r in t && Linked(t, r) && Local(t[r], r) && g in t[r].folders
    ensures g.path == r + [g.name] && g.path in t && t[g.path].node == g
  {
  }

  lemma LinkedWithoutFolder(t: Tree, p: Path, i: nat, r: Path)
    requires WellFormed(t) && p in t && i < |t[p].folders| && p + [t[p].folders[i].name] in t
    requires t[p + [t[p].folders[i].name]].folders == []
    requires r in WithoutFolder(t, p, i)
    ensures Linked(WithoutFolder(t, p, i), r)
  {
    var u, f := WithoutFolder(t, p, i), t[p].folders[i];
    var q := p + [f.name];
    assert WellKept(t, p) && WellKept(t, r);
    ChildrenWithoutFolder(t, p, i, r);
    if r != [] {
      NothingBelow(t, q, r);
      assert Parent(r) != q;
      LocalWithoutFolder(t[p], p, i);
      if Parent(r) == p && t[r].node == f {
        assert f.path == q && t[r].node.path == r;
      }
    }
  }

  lemma WithoutFolderKeeps(t: Tree, p: Path, i: nat)
    requires WellFormed(t) && p in t && i < |t[p].folders|
    requires p + [t[p].folders[i].name] in t ==> t[p + [t[p].folders[i].name]].folders == []
    ensures p + [t[p].folders[i].name] in t
    ensures WellFormed(WithoutFolder(t, p, i))
    ensures forall n :: n in Live(WithoutFolder(t, p, i)) <==> n in Live(t) && n.home != p + [t[p].folders[i].name]
  {
    var u, f := WithoutFolder(t, p, i), t[p].folders[i];
    var q := p + [f.name];
    assert WellKept(t, p) && f.path == q;
    forall r | r in u
      ensures WellKept(u, r)
    {
      hide Linked;
      assert WellKept(t, r);
      LinkedWithoutFolder(t, p, i, r);
      LocalWithoutFolder(t[p], p, i);
    }
    forall n
      ensures n in Live(u) <==> n in Live(t) && n.home != q
    {
      LiveAt(t, n);
      LiveAt(u, n);
    }
  }

  /** A subfolder is in the tree under its name. */
  lemma ChildNode(t: Tree, p: Path, i: nat)
    requires WellFormed(t) && p in t && i < |t[p].folders|
    ensures var q := p + [t[p].folders[i].name]; q != p && q in t && t[q].node == t[p].folders[i]
  {
    assert WellKept(t, p);
    assert t[p].folders[i] in t[p].folders;
  }

  /** Emptying a subfolder and removing it is removing it. */
  lemma EmptiedAndRemoved(t: Tree, p: Path, i: nat)
    requires WellFormed(t) && p in t && i < |t[p].folders|
    requires p + [t[p].folders[i].name] in t && t[p + [t[p].folders[i].name]].folders == []
    ensures var q := p + [t[p].folders[i].name]; var u := WithFiles(t, q, []);
      && u[p] == t[p] && WithoutFolder(u, p, i) == WithoutFolder(t, p, i)
      && WellFormed(WithoutFolder(t, p, i))
      && Live(WithoutFolder(t, p, i)) == Live(u) == Live(t) - (set n | n in t[q].files)
  {
    var q := p + [t[p].folders[i].name];
    var u := WithFiles(t, q, []);
    assert q != p;
    assert WithoutFolder(u, p, i) == WithoutFolder(t, p, i);
    WithoutFolderKeeps(t, p, i);
    NoFilesKeeps(t, q);
    forall n
      ensures n in Live(WithoutFolder(t, p, i)) <==> n in Live(u)
    {
      LiveAt(t, n);
      LiveAt(u, n);
    }
  }

  /** Everything strictly below p removed. */
  function Pruned(t: Tree, p: Path): Tree
    requires p in t
  {
    map q | q in t && !Below(q, p) :: if q == p then t[p].(folders := []) else t[q]
  }

  lemma PrunedAt(t: Tree, p: Path)
    requires p in t
    ensures p in Pruned(t, p) && Pruned(t, p)[p] == t[p].(folders := [])
  {
  }

  lemma PrunedLeaf(t: Tree, p: Path)
    requires WellFormed(t) && p in t && t[p].folders == []
    ensures Pruned(t, p) == t
  {
    forall q | q in t
      ensures !Below(q, p)
    {
      NothingBelow(t, p, q);
    }
  }

  /** Pruning a subfolder and then removing it is a step towards pruning the folder. */
  lemma PrunedStep(t: Tree, p: Path, i: nat)
    requires p in t && i < |t[p].folders| && p + [t[p].folders[i].name] in t
    ensures var c := p + [t[p].folders[i].name];
            && p in Pruned(t, c) && Pruned(t, c)[p] == t[p]
            && Pruned(WithoutFolder(Pruned(t, c), p, i), p) == Pruned(t, p)
  {
    var c := p + [t[p].folders[i].name];
    BelowChild(p, t[p].folders[i].name);
    var u := WithoutFolder(Pruned(t, c), p, i);
    forall q
      ensures q in u && !Below(q, p) <==> q in t && !Below(q, p)
      ensures q in t && !Below(q, p) && q != p ==> u[q] == t[q]
    {
    }
  }

  lemma BelowChild(p: Path, n: Name)
    ensures Below(p + [n], p) && !Below(p, p + [n]) && !Below(p, p)
    ensures forall q :: Below(q, p + [n]) ==> Below(q, p)
  {
    forall q | Below(q, p + [n])
      ensures Below(q, p)
    {
      assert q[..|p|] == q[..|p| + 1][..|p|] == p;
    }
  }

  ghost function BelowSet(t: Tree, p: Path): set<Path> {
    set q | q in t && Below(q, p)
  }

  lemma BelowShrinks(t: Tree, p: Path, i: nat)
    requires p in t && i < |t[p].folders| && p + [t[p].folders[i].name] in t
    ensures var q := p + [t[p].folders[i].name];
      && p in Pruned(t, q) && Pruned(t, q)[p] == t[p]
      && BelowSet(t, q) < BelowSet(t, p)
      && BelowSet(WithoutFolder(Pruned(t, q), p, i), p) < BelowSet(t, p)
  {
    var q := p + [t[p].folders[i].name];
    BelowChild(p, t[p].folders[i].name);
    assert q in BelowSet(t, p) && q !in BelowSet(t, q) && q !in BelowSet(WithoutFolder(Pruned(t, q), p, i), p);
  }
}
