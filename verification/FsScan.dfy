/** Searching the cached folders for a file, and the path string that the search builds. */
module FsScan {
  import opened Prelude
  import opened Lru
  import opened Paths
  import opened FsTree
  import opened FsAgree
  import opened Filesystem
  import opened FsFiles

  // ------------------------------------------------------------------
  // The path string
  // ------------------------------------------------------------------

  /** The name a folder has in the path string; that of the root is a slash. */
  function NameOf(p: Path): Name {
    if p == [] then "/" else Leaf(p)
  }

  /** The string built for q by a search that began at p: the names on the way, with slashes between them. */
  function PathString(p: Path, q: Path): string
    requires IsPrefix(p, q)
    decreases |q| - |p|
  {
    if |q| == |p| then NameOf(p) else NameOf(p) + "/" + PathString(q[..|p| + 1], q)
  }

  /** What the last character adds to the components. */
  lemma CompsOfLast(s: string)
    requires s != ""
    ensures var rest, c := s[..|s| - 1], s[|s| - 1];
      && (c == '/' ==> Comps(s) == Comps(rest))
      && (c != '/' && (rest == "" || rest[|rest| - 1] == '/') ==> Comps(s) == Comps(rest) + [[c]])
      && (c != '/' && rest != "" && rest[|rest| - 1] != '/' ==>
        Comps(rest) != [] && Comps(s) == Comps(rest)[..|Comps(rest)| - 1] + [Comps(rest)[|Comps(rest)| - 1] + [c]])
  {
  }

  lemma Extended(a: Path, y: Path, c: char)
    ensures (a + y) + [[c]] == a + (y + [[c]])
    ensures y != [] ==> var x := a + y;
      x[..|x| - 1] + [x[|x| - 1] + [c]] == a + (y[..|y| - 1] + [y[|y| - 1] + [c]])
  {
  }

  /** Components of two strings with a slash between them. */
  lemma {:induction false} CompsOfBoth(a: string, s: string)
    ensures Comps(a + "/" + s) == Comps(a) + Comps(s)
    decreases |s|
  {
    hide Comps;
    var u := a + "/" + s;
    CompsOfLast(u);
    if s == "" {
      assert u[..|u| - 1] == a && u[|u| - 1] == '/';
      CompsOfNothing();
    } else {
      var front, c := s[..|s| - 1], s[|s| - 1];
      CompsOfBoth(a, front);
      assert u[..|u| - 1] == a + "/" + front;
      CompsOfLast(s);
      Extended(Comps(a), Comps(front), c);
    }
  }

  lemma CompsOfName(n: Name)
    requires LegalName(n)
    ensures Comps(n) == [n]
  {
    CompsOfRun(n, 0, |n|);
    assert n[..|n|] == n && n[0..|n|] == n && n[..0] == "";
  }

  lemma {:induction false} CompsOfPathString(p: Path, q: Path)
    requires IsPrefix(p, q) && AllLegal(q)
    ensures Comps(PathString(p, q)) == if p == [] then q else q[|p| - 1..]
    ensures PathString([], q) != "" && PathString([], q)[0] == '/'
    decreases |q| - |p|
  {
    hide Comps;
    if p == [] {
      RootComps();
    } else {
      assert q[..|p|] == p && Leaf(p) == q[|p| - 1];
      CompsOfName(Leaf(p));
    }
    if |q| > |p| {
      var next := q[..|p| + 1];
      CompsOfPathString(next, q);
      CompsOfBoth(NameOf(p), PathString(next, q));
    } else {
      assert q[..|p|] == q;
    }
  }

  lemma RootComps()
    ensures Comps("/") == []
  {
    assert "/"[..0] == "";
  }

  // ------------------------------------------------------------------
  // The search
  // ------------------------------------------------------------------

  ghost predicate Holds(t: Tree, q: Path, n: Name) {
    q in t && n in FileNames(t[q].files)
  }

  /** At index k the paths part, and the first goes to an earlier subfolder; or the first ends there. */
  ghost predicate PartAt(t: Tree, a: Path, b: Path, k: nat) {
    && k <= |a| && k < |b| && a[..k] == b[..k] && a[..k] in t
    && (k == |a| || exists i, j :: 0 <= i < j < |t[a[..k]].folders| && t[a[..k]].folders[i].name == a[k]
                                   && t[a[..k]].folders[j].name == b[k])
  }

  /** One folder comes before another when the tree is searched depth first. */
  ghost predicate Before(t: Tree, a: Path, b: Path) {
    exists k :: PartAt(t, a, b, k)
  }

  /** The first folder at or below p that holds the file. */
  ghost predicate First(t: Tree, p: Path, q: Path, n: Name) {
    && IsPrefix(p, q) && Holds(t, q, n)
    && forall r :: IsPrefix(p, r) && Holds(t, r, n) && r != q ==> Before(t, q, r)
  }

  ghost predicate Nowhere(t: Tree, p: Path, n: Name) {
    forall r :: IsPrefix(p, r) ==> !Holds(t, r, n)
  }

  /** Neither the folder nor its first subfolders hold the file. */
  ghost predicate NotAmong(t: Tree, p: Path, n: Name, i: nat) {
    && p in t && i <= |t[p].folders| && !Holds(t, p, n)
    && forall k :: 0 <= k < i ==> Nowhere(t, p + [t[p].folders[k].name], n)
  }

  lemma NotAmongMore(t: Tree, p: Path, n: Name, i: nat)
    requires NotAmong(t, p, n, i) && i < |t[p].folders| && Nowhere(t, p + [t[p].folders[i].name], n)
    ensures NotAmong(t, p, n, i + 1)
  {
  }

  lemma NotAmongStarts(t: Tree, p: Path, n: Name)
    requires p in t && n !in FileNames(t[p].files)
    ensures NotAmong(t, p, n, 0)
  {
  }

  /** Below p every folder is at or below one of its subfolders. */
  lemma WhichChild(t: Tree, p: Path, r: Path) returns (j: nat)
    requires WellFormed(t) && r in t && IsPrefix(p, r) && r != p
    ensures p in t && j < |t[p].folders| && IsPrefix(p + [t[p].folders[j].name], r) && |p| < |r|
    ensures r[|p|] == t[p].folders[j].name
  {
    assert r[..|r|] == r;
    ChildOnTheWay(t, p, r);
    var c := r[..|p| + 1];
    assert WellKept(t, c) && WellKept(t, p);
    j :| 0 <= j < |t[p].folders| && t[p].folders[j] == t[c].node;
    assert c[|p|] == r[|p|] && c == p + [t[p].folders[j].name];
  }

  lemma NotAnywhere(t: Tree, p: Path, n: Name)
    requires WellFormed(t) && p in t && NotAmong(t, p, n, |t[p].folders|)
    ensures Nowhere(t, p, n)
  {
    forall r | IsPrefix(p, r)
      ensures !Holds(t, r, n)
    {
      if r in t && r != p {
        var _ := WhichChild(t, p, r);
      }
    }
  }

  lemma FoundHere(t: Tree, p: Path, n: Name)
    requires p in t && n in FileNames(t[p].files)
    ensures First(t, p, p, n)
  {
    assert p[..|p|] == p;
    forall r | IsPrefix(p, r) && Holds(t, r, n) && r != p
      ensures Before(t, p, r)
    {
      assert r[..|r|] == r;
      assert PartAt(t, p, r, |p|);
    }
  }

  /** The first in the first subfolder that has any is the first. */
  lemma FoundBelow(t: Tree, p: Path, n: Name, i: nat, q: Path)
    requires WellFormed(t) && NotAmong(t, p, n, i) && i < |t[p].folders| && First(t, p + [t[p].folders[i].name], q, n)
    ensures First(t, p, q, n) && |p| < |q|
    ensures PathString(p, q) == NameOf(p) + "/" + PathString(p + [t[p].folders[i].name], q)
  {
    var c := p + [t[p].folders[i].name];
    assert q[..|p|] == q[..|c|][..|p|] && q[..|c|] == c && q[|p|] == c[|p|];
    forall r | IsPrefix(p, r) && Holds(t, r, n) && r != q
      ensures Before(t, q, r)
    {
      var j := WhichChild(t, p, r);
      if j == i {
        assert IsPrefix(c, r);
      } else {
        assert j > i;
        assert q[..|p|] == r[..|p|] == p;
        assert PartAt(t, q, r, |p|);
      }
    }
  }

  lemma NameHere(fs: Filesystem, p: Path)
    requires fs.Intact() && fs.root.name == "/" && p in fs.dirs
    ensures fs.dirs[p].name == NameOf(p)
  {
    var t := fs.Snap();
    assert WellKept(t, p);
    if p != [] {
      assert WellKept(t, Parent(p));
      var f := t[p].node;
      assert f.path == Parent(p) + [f.name] == p;
      assert p[|p| - 1] == f.name;
    }
  }

  /**
   * Searches a folder and then its subfolders in order. The string returned spells the path of the first
   * folder that holds the file.
   */
  method FolderScan(fs: Filesystem, folder: FolderNode, filename: Name, ghost p: Path)
    returns (r: Option<string>, ghost q: Path)
    requires fs.Intact() && fs.root.name == "/" && p in fs.dirs && fs.dirs[p] == folder
    ensures fs.Intact() && fs.Now() == old(fs.Now()) && fs.dirs == old(fs.dirs)
    ensures r.None? ==> Nowhere(fs.Now().tree, p, filename)
    ensures r.Some? ==> First(fs.Now().tree, p, q, filename) && r.value == PathString(p, q)
    decreases BelowSet(fs.Now().tree, p)
  {
    hide *;
    ghost var s0, dirs := fs.Now(), fs.dirs;
    q := p;
    fs.Here(p);
    fs.Whole();
    NameHere(fs, p);
    var x := fs.FindFile(folder, filename);
    if x < |folder.files| {
      FoundHere(s0.tree, p, filename);
      PathStringHere(p);
      return Some(folder.name), p;
    }
    NotAmongStarts(s0.tree, p, filename);
    var i := 0;
    while i < |folder.folders|
      invariant i <= |folder.folders| && fs.Intact() && fs.Now() == s0 && fs.dirs == dirs
      invariant NotAmong(s0.tree, p, filename, i)
    {
      fs.Here(p);
      fs.Child(p, i);
      fs.Here(p + [folder.folders[i].name]);
      BelowShrinks(s0.tree, p, i);
      ghost var c := p + [folder.folders[i].name];
      var below, found := FolderScan(fs, folder.folders[i], filename, c);
      fs.Here(p);
      if below.Some? {
        FoundBelow(s0.tree, p, filename, i, found);
        return Some(folder.name + "/" + below.value), found;
      }
      NotAmongMore(s0.tree, p, filename, i);
      i := i + 1;
    }
    fs.Here(p);
    NotAnywhere(s0.tree, p, filename);
    return None, p;
  }

  lemma PathStringHere(p: Path)
    ensures IsPrefix(p, p) && PathString(p, p) == NameOf(p)
  {
    assert p[..|p|] == p;
  }

  /** The string that a search from the root returns spells the path found, and everything on the way is listed. */
  lemma FoundIsSettled(s: State, q: Path, n: Name)
    requires Coherent(s, map[], map[]) && LegalDevice(s.device) && First(s.tree, [], q, n)
    ensures Comps(PathString([], q)) == q && q in s.tree && Absolute(PathString([], q)) && Settled(s.tree, q)
  {
    hide Settled;
    assert FolderAgrees(s.tree[q], s.device, map[], q) && RootedAt(s.tree, q);
    LegalPath(s.device, q);
    CompsOfPathString([], q);
  }

  /**
   * Searches all cached folders for a file and looks up the string found. The lookup leads to the very folder
   * that the search found, and changes nothing.
   */
  method FindAndLookUp(fs: Filesystem, filename: Name)
    returns (found: Option<string>, folder: FolderNode?, ghost q: Path)
    requires Agreeing(fs) && fs.root.name == "/"
    modifies fs`dirs, fs`repr, fs.lru, fs.repr
    ensures Agreeing(fs) && fs.Now() == old(fs.Now()) && fs.dirs == old(fs.dirs)
    ensures found.None? <==> Nowhere(fs.Now().tree, [], filename)
    ensures found.Some? ==>
      && First(fs.Now().tree, [], q, filename) && Absolute(found.value) && Comps(found.value) == q
      && q in old(fs.dirs) && folder == old(fs.dirs[q])
  {
    hide *;
    SoundMeans(fs);
    fs.AtRoot();
    folder := null;
    found, q := FolderScan(fs, fs.root, filename, []);
    SoundMeans(fs);
    if found.Some? {
      FoundIsSettled(fs.Now(), q, filename);
      FirstHolds(fs.Now().tree, q, filename);
      fs.Here(q);
      folder := fs.LookupFolder(found.value, map[], map[]);
      SoundMeans(fs);
    }
  }

  lemma FirstHolds(t: Tree, q: Path, n: Name)
    ensures First(t, [], q, n) ==> !Nowhere(t, [], n)
  {
  }

  lemma {:induction false} LegalPath(c: Device, p: Path)
    requires LegalDevice(c) && p in c.dirs
    ensures AllLegal(p)
    decreases |p|
  {
    assert LegalAt(c, p);
    if p != [] {
      LegalPath(c, Parent(p));
      assert LegalAt(c, Parent(p)) && Leaf(p) in c.dirs[Parent(p)].folders;
      forall k | 0 <= k < |p|
        ensures LegalName(p[k])
      {
        assert k < |p| - 1 ==> Parent(p)[k] == p[k];
      }
    }
  }
}
