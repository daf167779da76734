/** What the operations that change the camera do to a state that agrees with it. */
module FsSteps {
  import opened Prelude
  import opened Lru
  import opened Paths
  import opened FsTree
  import opened FsAgree
  import opened FsCamera

  /** The tree is the camera's, and so is the cached data. */
  ghost predicate Good(s: State) {
    Coherent(s, map[], map[]) && Faithful(s)
  }

  /** A state as an intact filesystem has it. */
  ghost predicate Proper(s: State) {
    WellFormed(s.tree) && InTree(s) && AllCached(s)
  }

  lemma GoodMeans(s: State)
    ensures Good(s) <==> Coherent(s, map[], map[]) && Faithful(s)
  {
  }

  lemma ProperMeans(s: State)
    ensures Proper(s) <==> WellFormed(s.tree) && InTree(s) && AllCached(s)
  {
  }

  lemma NothingStale(p: Path)
    ensures Fresh(map[], p)
  {
  }

  lemma SameListed(a: State)
    ensures forall known :: Listed(a, a, known) && Unfed(a, a, known)
    ensures Additive(a, a)
  {
    NothingLost(a.items, Live(a.tree));
  }

  /** Listing on demand feeds nothing and keeps faithful data faithful. */
  lemma ListedKeeps(a: State, b: State, known: set<object>)
    requires Listed(a, b, known) && Proper(b)
    ensures Unfed(a, b, known) && (Faithful(a) ==> Faithful(b))
  {
    if Faithful(a) {
      ListedFaithful(a, b, known);
    }
  }

  lemma DeviceSpares(a: State, c: Device)
    ensures Additive(a, a.(device := c))
  {
  }

  /** No file of a clean folder was lost but those of one folder. */
  ghost predicate SparesOutside(a: State, b: State, p: Path) {
    forall n :: n in CleanFiles(a.tree) && n.home != p ==> n in CleanFiles(b.tree)
  }

  /** No file of a clean folder was lost but the one of a name. */
  ghost predicate SparesBut(a: State, b: State, p: Path, name: Name) {
    forall n :: n in CleanFiles(a.tree) && !(n.home == p && n.name == name) ==> n in CleanFiles(b.tree)
  }

  lemma AdditiveThenBut(a: State, b: State, c: State, p: Path, name: Name)
    requires Additive(a, b) && (SparesBut(b, c, p, name) || Additive(b, c))
    ensures SparesBut(a, c, p, name)
  {
  }

  lemma OutsideThenBut(a: State, b: State, c: State, p: Path, name: Name)
    requires SparesOutside(a, b, p) && SparesBut(b, c, p, name)
    ensures SparesOutside(a, c, p)
  {
  }

  lemma OutsideTwice(a: State, b: State, c: State, p: Path)
    requires (SparesOutside(a, b, p) || Additive(a, b)) && (SparesOutside(b, c, p) || Additive(b, c))
    ensures SparesOutside(a, c, p)
  {
  }

  lemma OthersSpared(a: State, b: State, p: Path)
    requires WellFormed(a.tree) && forall q {:trigger SparedAt(a.tree, b.tree, q)} ::
      q in a.tree && q != p && a.tree[q].files != [] ==> SparedAt(a.tree, b.tree, q)
    ensures SparesOutside(a, b, p)
  {
    forall n | n in CleanFiles(a.tree) && n.home != p
      ensures n in CleanFiles(b.tree)
    {
      var q :| q in a.tree && !a.tree[q].filesDirty && n in a.tree[q].files;
      assert WellKept(a.tree, q) && SparedAt(a.tree, b.tree, q);
    }
  }

  /** The state after the i-th file of a folder is deleted, on the camera and in the tree. */
  ghost function FileGone(a: State, p: Path, i: nat): State
    requires p in a.tree && p in a.device.dirs && i < |a.tree[p].files|
  {
    var files, name := a.tree[p].files, a.tree[p].files[i].name;
    Lost(a.(device := Refilled(a.device, p, Without(a.device.dirs[p].files, name))),
         WithFiles(a.tree, p, files[..i] + files[i + 1..]))
  }

  lemma FileGoneIs(a: State, p: Path, i: nat)
    requires p in a.tree && p in a.device.dirs && i < |a.tree[p].files|
    ensures var d := a.tree[p]; var c := Refilled(a.device, p, Without(a.device.dirs[p].files, d.files[i].name));
      FileGone(a, p, i) == Lost(a.(device := c), WithFiles(a.tree, p, d.files[..i] + d.files[i + 1..]))
    ensures forall known :: Unfed(a, FileGone(a, p, i), known)
  {
    hide Minus, Live;
  }

  lemma FileDeleted(a: State, p: Path, i: nat)
    requires Proper(a) && Coherent(a, map[], map[]) && p in a.tree && p in a.device.dirs
    requires i < |a.tree[p].files| && Shown(a.tree, p)
    ensures Coherent(FileGone(a, p, i), map[], map[]) && Shown(FileGone(a, p, i).tree, p)
    ensures Faithful(a) ==> Faithful(FileGone(a, p, i))
    ensures SparesBut(a, FileGone(a, p, i), p, a.tree[p].files[i].name)
  {
    hide Minus, Live, WellFormed, FoldersAgree, FilesAgree, Rooted, Faithful, SparesBut;
    FileDeletedSpares(a, p, i);
    FileDeletedAgrees(a, FileGone(a, p, i), p, i);
    if Faithful(a) {
      FileDeletedFaithful(a, FileGone(a, p, i), p, i);
    }
    SettledAbove(a.tree, FileGone(a, p, i).tree, p);
  }

  lemma FileDeletedSpares(a: State, p: Path, i: nat)
    requires Proper(a) && p in a.tree && p in a.device.dirs && i < |a.tree[p].files|
    ensures SparesBut(a, FileGone(a, p, i), p, a.tree[p].files[i].name)
  {
    hide Minus, Live, WellFormed;
    var b, gone := FileGone(a, p, i), a.tree[p].files[i];
    forall n | n in CleanFiles(a.tree) && !(n.home == p && n.name == gone.name)
      ensures n in CleanFiles(b.tree)
    {
      var q :| q in a.tree && !a.tree[q].filesDirty && n in a.tree[q].files;
      if q == p {
        LiveHome(a.tree, p, n);
        assert n in b.tree[p].files;
      } else {
        assert b.tree[q] == a.tree[q];
      }
    }
  }

  lemma FileDeletedAgrees(a: State, b: State, p: Path, i: nat)
    requires Proper(a) && Coherent(a, map[], map[]) && p in a.tree && p in a.device.dirs
    requires i < |a.tree[p].files| && Shown(a.tree, p)
    requires b == FileGone(a, p, i)
    ensures Coherent(b, map[], map[])
  {
    hide Minus, Live, WellFormed;
    WithoutFileKeeps(a.tree, p, i);
    RootedGrows(a.tree, b.tree);
    forall q | q in b.tree
      ensures FolderAgrees(b.tree[q], b.device, map[], q) && FileAgrees(b.tree[q], b.device, map[], q)
    {
      assert FolderAgrees(a.tree[q], a.device, map[], q) && FileAgrees(a.tree[q], a.device, map[], q);
    }
  }

  lemma FileDeletedFaithful(a: State, b: State, p: Path, i: nat)
    requires Proper(a) && Good(a) && p in a.tree && p in a.device.dirs && i < |a.tree[p].files|
    requires Shown(a.tree, p) && b == FileGone(a, p, i)
    ensures Faithful(b)
  {
    hide Minus, Live, WellFormed, DataAgrees, FoldersAgree, Rooted;
    WithoutFileKeeps(a.tree, p, i);
    forall n | n in b.caches
      ensures DataAgrees(b, n)
    {
      assert DataAgrees(a, n) && FileAgrees(a.tree[p], a.device, map[], p);
      OneOfTheName(a.tree, b.tree, p, i, n);
      DataSurvives(a, b, n);
    }
  }

  /** Data of a file stays as long as the camera keeps it. */
  lemma DataSurvives(a: State, b: State, n: FileNode)
    requires n in a.caches && n in b.caches && b.caches[n] == a.caches[n] && DataAgrees(a, n)
    requires n.home in b.tree && !b.tree[n.home].filesDirty ==> n.home in a.tree && !a.tree[n.home].filesDirty
    requires forall k {:trigger (n.home, n.name, k)} :: (n.home, n.name, k) in a.device.data ==>
               && (n.home, n.name, k) in b.device.data
               && b.device.data[(n.home, n.name, k)] == a.device.data[(n.home, n.name, k)]
    ensures DataAgrees(b, n)
  {
  }

  /** No other file of the folder has the name of the one removed. */
  lemma OneOfTheName(t: Tree, u: Tree, p: Path, i: nat, n: FileNode)
    requires WellFormed(t) && p in t && i < |t[p].files| && WellFormed(u)
    requires u == WithFiles(t, p, t[p].files[..i] + t[p].files[i + 1..]) && n in Live(u)
    ensures n.home == p ==> n.name in FileNames(t[p].files) && n.name != t[p].files[i].name
  {
    LiveAt(u, n);
    assert WellKept(t, p);
    if n.home == p {
      var k :| 0 <= k < |u[p].files| && u[p].files[k] == n;
      assert FileNames(t[p].files)[if k < i then k else k + 1] == n.name;
      assert FileNames(t[p].files)[i] == t[p].files[i].name;
    }
  }

  // ------------------------------------------------------------------
  // Deleting all files of a folder
  // ------------------------------------------------------------------

  /** The camera has lost files of one folder, except those left, with their data, and nothing else. */
  ghost predicate FilesTaken(c: Device, d: Device, p: Path, left: seq<Name>) {
    && p in c.dirs && d.dirs == c.dirs[p := c.dirs[p].(files := left)]
    && (forall k :: k in d.data ==> k in c.data && d.data[k] == c.data[k])
    && (forall k :: k in c.data && (k.0 != p || k.1 in left) ==> k in d.data)
  }

  lemma NoneTaken(c: Device, p: Path)
    requires p in c.dirs
    ensures FilesTaken(c, c, p, c.dirs[p].files)
  {
  }

  lemma SomeTaken(c: Device, d: Device, p: Path, left: seq<Name>, fewer: seq<Name>)
    requires FilesTaken(c, d, p, left) && forall x :: x in fewer ==> x in left
    ensures p in d.dirs && d.dirs[p].files == left && FilesTaken(c, Refilled(d, p, fewer), p, fewer)
  {
  }

  lemma IsFileMeans(c: Device, p: Path, n: Name)
    ensures IsFile(c, p, n) <==> p in c.dirs && n in c.dirs[p].files
  {
  }

  /** The listing loses its last name, and the camera the file of that name. */
  lemma LastTaken(names: seq<Name>, x: nat, left: seq<Name>)
    requires x < |names| && Distinct(names) && SameNames(names[..x + 1], left)
    ensures names[x] in left && SameNames(names[..x], Without(left, names[x]))
  {
    assert names[..x + 1] == names[..x] + [names[x]];
  }

  lemma NoNames(left: seq<Name>)
    requires SameNames([], left)
    ensures left == []
  {
    HasFirst(left);
  }

  lemma HasFirst(s: seq<Name>)
    ensures s == [] || exists x :: x in s
  {
    assert s == [] || s[0] in s;
  }

  lemma DistinctListing(s: State, p: Path, names: seq<Name>)
    requires WellFormed(s.tree) && ShowsFiles(s, p, names, map[])
    ensures Distinct(names) && p in s.device.dirs && SameNames(names, s.device.dirs[p].files)
  {
    assert WellKept(s.tree, p);
  }

  /** A folder marked dirty, with any of its files taken off the camera, still agrees. */
  lemma DirtyAgrees(a: State, p: Path, left: seq<Name>)
    requires Coherent(a, map[], map[]) && p in a.tree && p in a.device.dirs
    ensures var b :=
      a.(tree := WithFlags(a.tree, p, true, a.tree[p].foldersDirty), device := Refilled(a.device, p, left));
      Coherent(b, map[], map[]) && (Faithful(a) ==> Faithful(b)) && (WellFormed(a.tree) ==> SparesOutside(a, b, p))
  {
    hide SparesOutside, CleanFiles;
    var b := a.(tree := WithFlags(a.tree, p, true, a.tree[p].foldersDirty), device := Refilled(a.device, p, left));
    if WellFormed(a.tree) {
      OthersSpared(a, b, p);
    }
    RootedGrows(a.tree, b.tree);
    forall q | q in b.tree
      ensures FolderAgrees(b.tree[q], b.device, map[], q) && FileAgrees(b.tree[q], b.device, map[], q)
    {
      assert FolderAgrees(a.tree[q], a.device, map[], q) && FileAgrees(a.tree[q], a.device, map[], q);
    }
    if Faithful(a) {
      forall n | n in b.caches
        ensures DataAgrees(b, n)
      {
        assert DataAgrees(a, n);
      }
    }
  }

  lemma RefilledAt(c: Device, p: Path, left: seq<Name>)
    requires p in c.dirs
    ensures p in Refilled(c, p, left).dirs && Refilled(c, p, left).dirs[p].files == left
  {
  }

  lemma SameFlags(s: State, p: Path)
    requires p in s.tree
    ensures s.(tree := WithFlags(s.tree, p, s.tree[p].filesDirty, s.tree[p].foldersDirty)) == s
  {
  }

  /** Emptying the folder then makes it clean again. */
  ghost function Emptied(a: State, p: Path): State
    requires p in a.tree
  {
    var b := Lost(a, WithFiles(a.tree, p, []));
    b.(tree := WithFlags(b.tree, p, false, a.tree[p].foldersDirty))
  }

  lemma EmptiedIs(a: State, p: Path)
    requires p in a.tree
    ensures var b := Lost(a, WithFiles(a.tree, p, []));
      && p in b.tree && b.tree[p].foldersDirty == a.tree[p].foldersDirty
      && Emptied(a, p) == b.(tree := WithFlags(b.tree, p, false, a.tree[p].foldersDirty))
    ensures Proper(a) ==> SparesOutside(a, Emptied(a, p), p) && forall known :: Unfed(a, Emptied(a, p), known)
  {
    hide Minus, Live, WellFormed, SparesOutside, CleanFiles;
    if Proper(a) {
      OthersSpared(a, Emptied(a, p), p);
      var b := Lost(a, WithFiles(a.tree, p, []));
      NoFilesKeeps(a.tree, p);
      WithFlagsKeeps(b.tree, p, false, a.tree[p].foldersDirty);
    }
  }

  lemma FlagsUnfed(a: State, p: Path, filesDirty: bool, foldersDirty: bool, c: Device)
    requires Proper(a) && p in a.tree
    ensures forall known :: Unfed(a, a.(tree := WithFlags(a.tree, p, filesDirty, foldersDirty), device := c), known)
    ensures Settled(a.tree, p) ==> Settled(WithFlags(a.tree, p, filesDirty, foldersDirty), p)
  {
    hide Minus, Live, WellFormed;
    WithFlagsKeeps(a.tree, p, filesDirty, foldersDirty);
    NothingLost(a.items, Live(a.tree));
    if Settled(a.tree, p) {
      SettledAbove(a.tree, WithFlags(a.tree, p, filesDirty, foldersDirty), p);
    }
  }

  lemma EmptiedAgrees(a: State, p: Path)
    requires Proper(a) && Coherent(a, map[], map[]) && p in a.tree && p in a.device.dirs
    requires a.device.dirs[p].files == []
    ensures Coherent(Emptied(a, p), map[], map[]) && (Settled(a.tree, p) ==> Shown(Emptied(a, p).tree, p))
  {
    hide WellFormed, Minus;
    var b := Emptied(a, p);
    RootedGrows(a.tree, b.tree);
    assert FileNames(b.tree[p].files) == [];
    forall q | q in b.tree
      ensures FolderAgrees(b.tree[q], b.device, map[], q) && FileAgrees(b.tree[q], b.device, map[], q)
    {
      assert FolderAgrees(a.tree[q], a.device, map[], q) && FileAgrees(a.tree[q], a.device, map[], q);
    }
    if Settled(a.tree, p) {
      SettledAbove(a.tree, b.tree, p);
    }
  }

  /** Emptying a folder of which the camera lists files makes the names disagree. */
  lemma EmptiedAgreesOnlyIfEmpty(a: State, p: Path)
    requires p in a.tree && p in a.device.dirs && a.device.dirs[p].files != []
    ensures !Coherent(Emptied(a, p), map[], map[])
  {
    var b := Emptied(a, p);
    assert FileNames(b.tree[p].files) == [];
    assert a.device.dirs[p].files[0] in a.device.dirs[p].files;
    assert !FileAgrees(b.tree[p], b.device, map[], p);
  }

  lemma EmptiedFaithful(a: State, p: Path)
    requires Proper(a) && p in a.tree
    ensures Faithful(a) ==> Faithful(Emptied(a, p))
  {
    hide Minus;
    var b := Emptied(a, p);
    NoFilesKeeps(a.tree, p);
    if Faithful(a) {
      forall n | n in b.caches
        ensures DataAgrees(b, n)
      {
        assert DataAgrees(a, n);
        LiveAt(a.tree, n);
      }
    }
  }

  // ------------------------------------------------------------------
  // Making and removing folders
  // ------------------------------------------------------------------

  /** A folder the camera does not have is not in the tree. */
  lemma NotCached(s: State, p: Path, n: Name)
    requires WellFormed(s.tree) && LegalDevice(s.device) && Coherent(s, map[], map[]) && p in s.tree
    requires p in s.device.dirs
    requires n !in s.device.dirs[p].folders
    ensures n !in FolderNames(s.tree[p].folders)
  {
    ChildIff(s.tree, p, n);
    var q := p + [n];
    assert Parent(q) == p && Leaf(q) == n;
    assert q in s.tree ==> FolderAgrees(s.tree[q], s.device, map[], q);
    assert q in s.device.dirs ==> LegalAt(s.device, q);
  }

  /** A folder made on the camera and hung into the tree. */
  lemma DirMade(a: State, p: Path, f: FolderNode)
    requires Coherent(a, map[], map[]) && p in a.tree && p in a.device.dirs
    requires p + [f.name] !in a.tree && p + [f.name] !in a.device.dirs
    requires Live(WithFolder(a.tree, p, f)) == Live(a.tree)
    ensures var b := a.(device := WithDir(a.device, p, f.name), tree := WithFolder(a.tree, p, f));
      && Coherent(b, map[], map[]) && (Faithful(a) ==> Faithful(b)) && Additive(a, b)
      && forall known :: Unfed(a, b, known)
  {
    hide Live, CleanFiles;
    var b := a.(device := WithDir(a.device, p, f.name), tree := WithFolder(a.tree, p, f));
    SparesAll(a, b);
    RootedGrows(a.tree, b.tree);
    NamesWith(f, a.tree[p].folders);
    forall q | q in b.tree
      ensures FolderAgrees(b.tree[q], b.device, map[], q) && FileAgrees(b.tree[q], b.device, map[], q)
    {
      if q in a.tree {
        assert FolderAgrees(a.tree[q], a.device, map[], q) && FileAgrees(a.tree[q], a.device, map[], q);
      }
    }
    if Faithful(a) {
      forall n | n in b.caches
        ensures DataAgrees(b, n)
      {
        assert DataAgrees(a, n);
      }
    }
    NothingLost(a.items, Live(a.tree));
  }

  /** The state after the i-th, empty-looking subfolder is removed, on the camera and from the tree. */
  ghost function DirGone(a: State, p: Path, i: nat): State
    requires p in a.tree && p in a.device.dirs && i < |a.tree[p].folders|
  {
    Lost(a.(device := WithoutDir(a.device, p, a.tree[p].folders[i].name)), WithoutFolder(a.tree, p, i))
  }

  lemma DirGoneIs(a: State, p: Path, i: nat)
    requires p in a.tree && p in a.device.dirs && i < |a.tree[p].folders|
    ensures DirGone(a, p, i)
      == Lost(a.(device := WithoutDir(a.device, p, a.tree[p].folders[i].name)), WithoutFolder(a.tree, p, i))
    ensures forall known :: Unfed(a, DirGone(a, p, i), known)
  {
    hide Minus, Live, WithoutFolder;
  }

  lemma DirRemoved(a: State, p: Path, i: nat)
    requires Proper(a) && Coherent(a, map[], map[]) && p in a.tree && p in a.device.dirs && i < |a.tree[p].folders|
    requires p + [a.tree[p].folders[i].name] in a.tree && a.tree[p + [a.tree[p].folders[i].name]].folders == []
    ensures Coherent(DirGone(a, p, i), map[], map[]) && (Faithful(a) ==> Faithful(DirGone(a, p, i)))
    ensures a.tree[p + [a.tree[p].folders[i].name]].files == [] ==> Additive(a, DirGone(a, p, i))
  {
    hide Minus, Live, FoldersAgree, FilesAgree, Rooted, Faithful, WithoutFolder, Additive;
    if a.tree[p + [a.tree[p].folders[i].name]].files == [] {
      EmptyDirSpares(a, p, i);
    }
    DirRemovedAgrees(a, p, i);
    if Faithful(a) {
      DirRemovedFaithful(a, p, i);
    }
  }

  lemma EmptyDirSpares(a: State, p: Path, i: nat)
    requires p in a.tree && p in a.device.dirs && i < |a.tree[p].folders|
    requires p + [a.tree[p].folders[i].name] in a.tree && a.tree[p + [a.tree[p].folders[i].name]].files == []
    ensures Additive(a, DirGone(a, p, i))
  {
    hide Minus, Live, CleanFiles;
    Spares(a, DirGone(a, p, i));
  }

  /** Nothing of the tree is left at or below a removed folder. */
  lemma OutsideGone(a: State, p: Path, i: nat, r: Path)
    requires Proper(a) && p in a.tree && p in a.device.dirs && i < |a.tree[p].folders|
    requires p + [a.tree[p].folders[i].name] in a.tree && a.tree[p + [a.tree[p].folders[i].name]].folders == []
    requires r in DirGone(a, p, i).tree
    ensures r in a.tree && !IsPrefix(p + [a.tree[p].folders[i].name], r)
  {
    var q := p + [a.tree[p].folders[i].name];
    NothingBelow(a.tree, q, r);
    assert |r| == |q| ==> r[..|q|] == r;
  }

  lemma DirRemovedAgrees(a: State, p: Path, i: nat)
    requires Proper(a) && Coherent(a, map[], map[]) && p in a.tree && p in a.device.dirs && i < |a.tree[p].folders|
    requires p + [a.tree[p].folders[i].name] in a.tree && a.tree[p + [a.tree[p].folders[i].name]].folders == []
    ensures Coherent(DirGone(a, p, i), map[], map[])
  {
    hide Minus, Live, WellFormed, IsPrefix;
    var b := DirGone(a, p, i);
    assert WellKept(a.tree, p) by { hide *; KeptAt(a.tree, p); }
    LocalWithoutFolder(a.tree[p], p, i);
    WithoutFolderKeeps(a.tree, p, i);
    RootedShrinks(a.tree, b.tree);
    forall q | q in b.tree
      ensures FolderAgrees(b.tree[q], b.device, map[], q) && FileAgrees(b.tree[q], b.device, map[], q)
    {
      OutsideGone(a, p, i, q);
      assert FolderAgrees(a.tree[q], a.device, map[], q) && FileAgrees(a.tree[q], a.device, map[], q);
    }
  }

  lemma KeptAt(t: Tree, p: Path)
    requires WellFormed(t) && p in t
    ensures WellKept(t, p)
  {
  }

  lemma DirRemovedFaithful(a: State, p: Path, i: nat)
    requires Proper(a) && Faithful(a) && p in a.tree && p in a.device.dirs && i < |a.tree[p].folders|
    requires p + [a.tree[p].folders[i].name] in a.tree && a.tree[p + [a.tree[p].folders[i].name]].folders == []
    ensures Faithful(DirGone(a, p, i))
  {
    hide Minus, Live, WellFormed, IsPrefix;
    var b := DirGone(a, p, i);
    forall n | n in b.caches
      ensures DataAgrees(b, n)
    {
      assert DataAgrees(a, n);
      if n.home in b.tree {
        OutsideGone(a, p, i, n.home);
      }
    }
  }

  // ------------------------------------------------------------------
  // Storing files
  // ------------------------------------------------------------------

  ghost predicate Within(cached: Cache, content: Cache) {
    forall k :: k in cached ==> k in content && content[k] == cached[k]
  }

  /** Whether storing a file leaves cached data behind that the camera no longer has. */
  ghost predicate LeavesStale(s: State, p: Path, n: Name, content: Cache) {
    && Shown(s.tree, p)
    && exists m :: m in s.tree[p].files && m.name == n && m in s.caches && !Within(s.caches[m], content)
  }

  /** A file of the tree overwritten on the camera: the names still agree, and the data if none is left stale. */
  lemma Overwritten(a: State, p: Path, n: Name, content: Cache)
    requires Proper(a) && Coherent(a, map[], map[]) && p in a.tree && p in a.device.dirs && Settled(a.tree, p)
    requires n in FileNames(a.tree[p].files)
    ensures var b := a.(device := Stored(a.device, p, n, content));
      Coherent(b, map[], map[]) && (Faithful(a) ==> (Faithful(b) <==> !LeavesStale(a, p, n, content)))
  {
    hide WellFormed, InTree, LeavesStale, Rooted, Settled, Within;
    var b := a.(device := Stored(a.device, p, n, content));
    forall q | q in b.tree
      ensures FolderAgrees(b.tree[q], b.device, map[], q) && FileAgrees(b.tree[q], b.device, map[], q)
    {
      assert FolderAgrees(a.tree[q], a.device, map[], q) && FileAgrees(a.tree[q], a.device, map[], q);
    }
    if Faithful(a) {
      OverwrittenFaithful(a, p, n, content);
    }
  }

  lemma OverwrittenFaithful(a: State, p: Path, n: Name, content: Cache)
    requires Proper(a) && Faithful(a) && p in a.tree && p in a.device.dirs && Settled(a.tree, p)
    ensures Faithful(a.(device := Stored(a.device, p, n, content))) <==> !LeavesStale(a, p, n, content)
  {
    hide InTree, Settled, Within, WellFormed, Live, DataAgrees;
    var b := a.(device := Stored(a.device, p, n, content));
    forall m | m in a.caches
      ensures DataAgrees(b, m)
        <==> (m.home == p && m.name == n && !a.tree[p].filesDirty ==> Within(a.caches[m], content))
    {
      assert DataAgrees(a, m);
      OverwrittenAt(a, p, n, content, m);
    }
    if LeavesStale(a, p, n, content) {
      var m :| m in a.tree[p].files && m.name == n && m in a.caches && !Within(a.caches[m], content);
      LiveHome(a.tree, p, m);
      assert !DataAgrees(b, m);
    } else {
      forall m | m in b.caches
        ensures DataAgrees(b, m)
      {
        LiveHere(a, m);
      }
    }
  }

  lemma LiveHome(t: Tree, p: Path, m: FileNode)
    requires WellFormed(t) && p in t && m in t[p].files
    ensures m.home == p
  {
    assert WellKept(t, p);
  }

  lemma LiveHere(a: State, m: FileNode)
    requires Proper(a) && m in a.caches
    ensures m.home in a.tree && m in a.tree[m.home].files
  {
    LiveAt(a.tree, m);
  }

  lemma OverwrittenAt(a: State, p: Path, n: Name, content: Cache, m: FileNode)
    requires p in a.device.dirs && p in a.tree && m in a.caches && DataAgrees(a, m)
    ensures var b := a.(device := Stored(a.device, p, n, content));
      DataAgrees(b, m) <==> (m.home == p && m.name == n && !a.tree[p].filesDirty ==> Within(a.caches[m], content))
  {
    var b := a.(device := Stored(a.device, p, n, content));
    if m.home == p && m.name == n && !a.tree[p].filesDirty {
      forall k | k in a.caches[m]
        ensures (p, n, k) in b.device.data <==> k in content
        ensures k in content ==> b.device.data[(p, n, k)] == content[k]
      {
      }
    }
  }

  /** Whether the bytes are what the camera delivers as the normal data of a file. */
  predicate IsNormal(data: seq<Byte>, content: Cache) {
    Normal in content && content[Normal] == data
  }

  /** A new file stored on the camera and added to the tree with the bytes that were handed in. */
  lemma StoredNew(a: State, p: Path, m: FileNode, data: seq<Byte>, content: Cache)
    requires Proper(a) && Coherent(a, map[], map[]) && p in a.tree && p in a.device.dirs && Settled(a.tree, p)
    requires m.name !in FileNames(a.tree[p].files) && m.home == p && m !in a.caches
    ensures var b := Gained(a.(device := Stored(a.device, p, m.name, content)), p, m, map[Normal := data]);
      && Coherent(b, map[], map[]) && Additive(a, b)
      && (Faithful(a) ==> (Faithful(b) <==> a.tree[p].filesDirty || IsNormal(data, content)))
  {
    hide WellFormed, InTree, Live, CleanFiles;
    Spares(a, Gained(a.(device := Stored(a.device, p, m.name, content)), p, m, map[Normal := data]));
    var b := Gained(a.(device := Stored(a.device, p, m.name, content)), p, m, map[Normal := data]);
    RootedGrows(a.tree, b.tree);
    assert FileNames(a.tree[p].files + [m]) == FileNames(a.tree[p].files) + [m.name];
    forall q | q in b.tree
      ensures FolderAgrees(b.tree[q], b.device, map[], q) && FileAgrees(b.tree[q], b.device, map[], q)
    {
      assert FolderAgrees(a.tree[q], a.device, map[], q) && FileAgrees(a.tree[q], a.device, map[], q);
    }
    if Faithful(a) {
      StoredNewFaithful(a, p, m, data, content);
    }
  }

  lemma StoredNewFaithful(a: State, p: Path, m: FileNode, data: seq<Byte>, content: Cache)
    requires Proper(a) && Faithful(a) && p in a.tree && p in a.device.dirs
    requires m.name !in FileNames(a.tree[p].files) && m.home == p && m !in a.caches
    ensures Faithful(Gained(a.(device := Stored(a.device, p, m.name, content)), p, m, map[Normal := data]))
       <==> a.tree[p].filesDirty || IsNormal(data, content)
  {
    hide WellFormed, InTree, Live;
    var b := Gained(a.(device := Stored(a.device, p, m.name, content)), p, m, map[Normal := data]);
    forall n | n in b.caches && n != m
      ensures DataAgrees(b, n)
    {
      assert DataAgrees(a, n);
      LiveHere(a, n);
      NamedHere(a.tree, n);
    }
    StoredAt(b, p, m, data, content);
  }

  lemma StoredAt(b: State, p: Path, m: FileNode, data: seq<Byte>, content: Cache)
    requires m in b.caches && b.caches[m] == map[Normal := data] && m.home == p && p in b.tree
    requires (p, m.name, Normal) in b.device.data <==> Normal in content
    requires Normal in content ==> b.device.data[(p, m.name, Normal)] == content[Normal]
    ensures DataAgrees(b, m) <==> b.tree[p].filesDirty || IsNormal(data, content)
  {
    assert Normal in b.caches[m];
  }

  lemma NamedHere(t: Tree, n: FileNode)
    requires n.home in t && n in t[n.home].files
    ensures n.name in FileNames(t[n.home].files)
  {
    var i :| 0 <= i < |t[n.home].files| && t[n.home].files[i] == n;
    assert FileNames(t[n.home].files)[i] == n.name;
  }

  /** A step that took in new bytes by storing them keeps the list. */
  lemma DeviceUnfed(a: State, c: Device)
    ensures forall known :: Unfed(a, a.(device := c), known)
  {
    hide Minus, Live;
    NothingLost(a.items, Live(a.tree));
  }

  // ------------------------------------------------------------------
  // Files that appear on the camera
  // ------------------------------------------------------------------

  /** The camera after a capture stored a file, perhaps in a new folder. */
  function Shot(c: Device, p: Path, n: Name, content: Cache): Device
    requires p in c.dirs || (p != [] && Parent(p) in c.dirs)
  {
    if p in c.dirs then Stored(c, p, n, content)
    else
      NewDir(c, p);
      Stored(WithDir(c, Parent(p), Leaf(p)), p, n, content)
  }

  lemma NewDir(c: Device, p: Path)
    requires p != [] && Parent(p) in c.dirs
    ensures Parent(p) + [Leaf(p)] == p && p in WithDir(c, Parent(p), Leaf(p)).dirs
  {
  }

  /** A capture: the file is new, and at most its folder is new with it. */
  predicate Capture(c: Device, p: Path, n: Name) {
    if p in c.dirs then n !in c.dirs[p].files
    else p != [] && Parent(p) in c.dirs && LegalName(Leaf(p))
  }

  /** The file that appeared is all that the tree does not know yet. */
  ghost predicate Awaiting(s: State, p: Path, n: Name, sf: Stale, sd: Stale) {
    && Coherent(s, sf, sd) && LegalDevice(s.device) && IsFile(s.device, p, n)
    && (forall q :: q in sf ==> q == p)
    && (p in sf ==> SameNames(sf[p] + [n], s.device.dirs[p].files))
    && (forall q :: q in sd ==> p != [] && q == Parent(p))
    && (p != [] && Parent(p) in sd && Parent(p) in s.device.dirs ==>
          SameNames(sd[Parent(p)] + [Leaf(p)], s.device.dirs[Parent(p)].folders))
  }

  function StaleFiles(c: Device, p: Path): Stale {
    if p in c.dirs then map[p := c.dirs[p].files] else map[]
  }

  function StaleFolders(c: Device, p: Path): Stale {
    if p !in c.dirs && p != [] && Parent(p) in c.dirs then map[Parent(p) := c.dirs[Parent(p)].folders] else map[]
  }

  lemma ShotLegal(c: Device, p: Path, n: Name, content: Cache)
    requires LegalDevice(c) && Capture(c, p, n)
    ensures LegalDevice(Shot(c, p, n, content)) && IsFile(Shot(c, p, n, content), p, n)
  {
    if p in c.dirs {
      StoredLegal(c, p, n, content);
    } else {
      var q, l := Parent(p), Leaf(p);
      NewDir(c, p);
      assert LegalAt(c, q);
      WithDirLegal(c, q, l);
      StoredLegal(WithDir(c, q, l), p, n, content);
    }
  }

  lemma ShotAwaits(a: State, p: Path, n: Name, content: Cache)
    requires Proper(a) && Coherent(a, map[], map[]) && LegalDevice(a.device) && Capture(a.device, p, n)
    ensures var b := a.(device := Shot(a.device, p, n, content));
      Awaiting(b, p, n, StaleFiles(a.device, p), StaleFolders(a.device, p)) && (Faithful(a) ==> Faithful(b))
  {
    hide WellFormed, InTree, Live, LegalDevice, DataAgrees, FolderAgrees, FileAgrees, Rooted;
    var c := a.device;
    var b := a.(device := Shot(c, p, n, content));
    ShotLegal(c, p, n, content);
    if p !in c.dirs {
      NewDir(c, p);
    }
    forall q | q in b.tree
      ensures FolderAgrees(b.tree[q], b.device, StaleFolders(c, p), q)
      ensures FileAgrees(b.tree[q], b.device, StaleFiles(c, p), q)
    {
      assert FolderAgrees(a.tree[q], c, map[], q) && FileAgrees(a.tree[q], c, map[], q);
      ShotAgrees(a.tree[q], c, q, p, n, content);
    }
    if Faithful(a) {
      ShotFaithful(a, p, n, content);
    }
  }

  lemma ShotDirs(c: Device, p: Path, n: Name, content: Cache)
    requires Capture(c, p, n)
    ensures var d := Shot(c, p, n, content);
      forall q :: q in c.dirs ==>
        && q in d.dirs
        && d.dirs[q] == (if q == p then c.dirs[q].(files := c.dirs[q].files + [n])
                         else if p !in c.dirs && q == Parent(p) then
                           c.dirs[q].(folders := c.dirs[q].folders + [Leaf(p)])
                         else c.dirs[q])
  {
    if p !in c.dirs {
      NewDir(c, p);
    }
  }

  lemma ShotAgrees(d: Dir, c: Device, q: Path, p: Path, n: Name, content: Cache)
    requires Capture(c, p, n) && FolderAgrees(d, c, map[], q) && FileAgrees(d, c, map[], q)
    ensures FolderAgrees(d, Shot(c, p, n, content), StaleFolders(c, p), q)
    ensures FileAgrees(d, Shot(c, p, n, content), StaleFiles(c, p), q)
  {
    hide Shot;
    ShotDirs(c, p, n, content);
  }

  /** The folder whose cached listing a capture outgrows, if that was listed. */
  ghost predicate Outgrows(a: State, p: Path)
    requires p in a.device.dirs || p != []
  {
    if p in a.device.dirs then p in a.tree && !a.tree[p].filesDirty
    else Parent(p) in a.tree && !a.tree[Parent(p)].foldersDirty
  }

  /** Until the driver announces the file the tree disagrees exactly if the listing that lacks it is cached. */
  lemma ShotAgreesExact(a: State, p: Path, n: Name, content: Cache)
    requires Coherent(a, map[], map[]) && LegalDevice(a.device) && Capture(a.device, p, n)
    ensures Coherent(a.(device := Shot(a.device, p, n, content)), map[], map[]) <==> !Outgrows(a, p)
  {
    hide LegalDevice, LegalDir, Shot, Rooted;
    var c, b := a.device, a.(device := Shot(a.device, p, n, content));
    ShotDirs(c, p, n, content);
    if !Outgrows(a, p) {
      forall q | q in b.tree
        ensures FolderAgrees(b.tree[q], b.device, map[], q) && FileAgrees(b.tree[q], b.device, map[], q)
      {
        assert FolderAgrees(a.tree[q], c, map[], q) && FileAgrees(a.tree[q], c, map[], q);
      }
    } else if p in c.dirs {
      assert FileAgrees(a.tree[p], c, map[], p);
      assert n in c.dirs[p].files + [n] && n !in FileNames(a.tree[p].files);
      assert !FileAgrees(b.tree[p], b.device, map[], p);
    } else {
      var q, l := Parent(p), Leaf(p);
      NotListed(c, p);
      assert FolderAgrees(a.tree[q], c, map[], q);
      assert l in c.dirs[q].folders + [l] && l !in FolderNames(a.tree[q].folders);
      assert !FolderAgrees(b.tree[q], b.device, map[], q);
    }
  }

  lemma NotListed(c: Device, p: Path)
    requires LegalDevice(c) && p !in c.dirs && p != [] && Parent(p) in c.dirs
    ensures Leaf(p) !in c.dirs[Parent(p)].folders
  {
    assert LegalAt(c, Parent(p)) && Parent(p) + [Leaf(p)] == p;
  }

  lemma ShotFaithful(a: State, p: Path, n: Name, content: Cache)
    requires Proper(a) && Good(a) && Capture(a.device, p, n)
    ensures Faithful(a.(device := Shot(a.device, p, n, content)))
  {
    hide WellFormed, InTree, Live, FolderAgrees, Rooted;
    var c := a.device;
    var b := a.(device := Shot(c, p, n, content));
    forall m | m in b.caches
      ensures DataAgrees(b, m)
    {
      assert DataAgrees(a, m);
      LiveHere(a, m);
      NamedHere(a.tree, m);
      assert FileAgrees(a.tree[m.home], c, map[], m.home);
    }
  }

  /** Looking for the folder of the file does not tell more than was known. */
  lemma StillAwaiting(a: State, b: State, p: Path, n: Name, sf: Stale, sd: Stale, known: set<object>)
    requires Awaiting(a, p, n, sf, sd) && Listed(a, b, known) && Coherent(b, sf, sd) && Proper(b)
    ensures Awaiting(b, p, n, sf, sd) && (Faithful(a) ==> Faithful(b))
  {
    hide LegalDevice, IsFile, Listed, Coherent;
    ListedMeans(a, b, known);
    ListedKeeps(a, b, known);
  }

  lemma ListedMeans(a: State, b: State, known: set<object>)
    requires Listed(a, b, known)
    ensures b.device == a.device && Unfed(a, b, known)
  {
  }

  /** If the folder is in the tree, then its parent is not stale. */
  lemma FolderIsKnown(s: State, p: Path, n: Name, sf: Stale, sd: Stale)
    requires Awaiting(s, p, n, sf, sd) && WellFormed(s.tree) && p in s.tree
    ensures Awaiting(s, p, n, sf, map[])
  {
    hide LegalDevice, FileAgrees, Rooted, WellFormed;
    forall q | q in s.tree
      ensures FolderAgrees(s.tree[q], s.device, map[], q)
    {
      assert FolderAgrees(s.tree[q], s.device, sd, q);
      if q in sd {
        ChildIff(s.tree, q, Leaf(p));
        assert q + [Leaf(p)] == p;
      }
    }
  }

  /** If it is not, then it is all that its listed parent is missing. */
  lemma FolderIsMissing(s: State, p: Path, n: Name, sf: Stale, sd: Stale)
    requires Awaiting(s, p, n, sf, sd) && WellFormed(s.tree) && p !in s.tree && Stuck(s.tree, p)
    ensures p != [] && Settled(s.tree, p) && Parent(p) in s.tree && Parent(p) + [Leaf(p)] == p
    ensures Leaf(p) !in FolderNames(s.tree[Parent(p)].folders) && p in s.device.dirs
  {
    hide FileAgrees, FilesAgree, Rooted, WellFormed;
    var k: nat :| k < |p| && StuckAt(s.tree, p, k);
    assert p[..k + 1] == p[..k] + [p[k]];
    SettledAt(s.tree, p[..k + 1], k);
    assert p[..k + 1][..k] == p[..k];
    ChildIff(s.tree, p[..k], p[k]);
    if k < |p| - 1 {
      MissingOnCamera(s.tree, s.device, sd, p, k);
    }
    assert p[..k + 1] == p;
  }

  lemma LeafListed(c: Device, p: Path)
    requires LegalDevice(c) && p in c.dirs && p != []
    ensures Parent(p) in c.dirs && Leaf(p) in c.dirs[Parent(p)].folders
  {
    assert LegalAt(c, p);
  }

  lemma FolderHungAgrees(a: State, p: Path, n: Name, sf: Stale, sd: Stale, f: FolderNode)
    requires Awaiting(a, p, n, sf, sd) && p !in a.tree && p != [] && Parent(p) in a.tree
    requires f.name == Leaf(p) && Parent(p) + [Leaf(p)] == p
    ensures Awaiting(a.(tree := WithFolder(a.tree, Parent(p), f)), p, n, sf, map[])
  {
    hide LegalDevice;
    var b := a.(tree := WithFolder(a.tree, Parent(p), f));
    RootedGrows(a.tree, b.tree);
    NamesWith(f, a.tree[Parent(p)].folders);
    LeafListed(a.device, p);
    forall q | q in b.tree
      ensures FolderAgrees(b.tree[q], b.device, map[], q) && FileAgrees(b.tree[q], b.device, sf, q)
    {
      if q in a.tree {
        assert FolderAgrees(a.tree[q], a.device, sd, q) && FileAgrees(a.tree[q], a.device, sf, q);
      }
    }
  }

  /** Once it is hung there, only the file itself is missing. */
  lemma FolderHung(a: State, p: Path, n: Name, sf: Stale, sd: Stale, f: FolderNode)
    requires Awaiting(a, p, n, sf, sd) && p !in a.tree && p != [] && Parent(p) in a.tree && Settled(a.tree, p)
    requires f.name == Leaf(p) && Leaf(p) !in FolderNames(a.tree[Parent(p)].folders) && Parent(p) + [Leaf(p)] == p
    requires Live(WithFolder(a.tree, Parent(p), f)) == Live(a.tree)
    ensures var b := a.(tree := WithFolder(a.tree, Parent(p), f));
      && Awaiting(b, p, n, sf, map[]) && Settled(b.tree, p) && (forall known :: Unfed(a, b, known))
      && (Faithful(a) ==> Faithful(b)) && Additive(a, b)
  {
    hide Awaiting, Live, CleanFiles;
    var b := a.(tree := WithFolder(a.tree, Parent(p), f));
    FolderHungAgrees(a, p, n, sf, sd, f);
    SparesAll(a, b);
    if Faithful(a) {
      forall m | m in b.caches
        ensures DataAgrees(b, m)
      {
        assert DataAgrees(a, m);
      }
    }
    forall k | 0 <= k < |p|
      ensures p[..k] in b.tree && !b.tree[p[..k]].foldersDirty
    {
      assert p[..k] in a.tree;
    }
    NothingLost(a.items, Live(a.tree));
  }

  /** Adding the file to its listed folder, unless it is there, makes the tree agree. */
  lemma FileNoted(a: State, b: State, p: Path, n: Name, sf: Stale, m: FileNode?)
    requires Awaiting(a, p, n, sf, map[]) && Proper(a) && Shown(a.tree, p)
    requires if n in FileNames(a.tree[p].files) then b == a
             else m != null && m.name == n && m.home == p && m !in a.caches && b == Gained(a, p, m, map[])
    ensures Coherent(b, map[], map[]) && p in b.tree && n in FileNames(b.tree[p].files)
    ensures (Faithful(a) ==> Faithful(b)) && Additive(a, b)
  {
    hide LegalDevice, WellFormed, Live, InTree, CleanFiles;
    RootedGrows(a.tree, b.tree);
    Spares(a, b);
    assert m != null ==> FileNames(a.tree[p].files + [m]) == FileNames(a.tree[p].files) + [m.name];
    forall q | q in b.tree
      ensures FolderAgrees(b.tree[q], b.device, map[], q) && FileAgrees(b.tree[q], b.device, map[], q)
    {
      assert FolderAgrees(a.tree[q], a.device, map[], q) && FileAgrees(a.tree[q], a.device, sf, q);
    }
    if Faithful(a) {
      forall x | x in b.caches
        ensures DataAgrees(b, x)
      {
        assert x in a.caches ==> DataAgrees(a, x);
      }
    }
  }

  lemma GainedUnfed(a: State, p: Path, m: FileNode, known: set<object>)
    requires Proper(a) && p in a.tree && m.home == p && m.name !in FileNames(a.tree[p].files)
    requires m !in a.caches && m !in known
    ensures Unfed(a, Gained(a, p, m, map[]), known)
  {
    hide Minus, Live;
    WithFileKeeps(a.tree, p, m);
    NothingLost(a.items, Live(a.tree));
    MinusNone(a.items, Live(a.tree) - Live(Gained(a, p, m, map[]).tree));
  }

  /** The list only lost what the tree lost, and the data of the nodes still listed stayed. */
  ghost predicate ListKept(a: State, b: State) {
    && b.size == a.size
    && b.items == Minus(a.items, Live(a.tree) - Live(b.tree))
    && forall n :: n in b.items ==> n in a.caches && n in b.caches && b.caches[n] == a.caches[n]
  }

  lemma UnfedKeepsList(a: State, b: State, known: set<object>)
    requires Unfed(a, b, known) && Proper(a) && Proper(b) && forall n :: n in Live(a.tree) ==> n in known
    ensures ListKept(a, b)
  {
    MinusMembers(a.items, Live(a.tree) - Live(b.tree));
  }

  /** A new file with data does not enter the list. */
  lemma GainedKeepsList(s: State, a: State, c: Device, p: Path, m: FileNode, cache: Cache)
    requires ListKept(s, a) && Proper(s) && Proper(a) && p in a.tree && m.home == p
    requires m.name !in FileNames(a.tree[p].files)
    requires m !in Live(s.tree) && m !in a.caches
    ensures ListKept(s, Gained(a.(device := c), p, m, cache))
  {
    hide Minus;
    var b := Gained(a.(device := c), p, m, cache);
    WithFileKeeps(a.tree, p, m);
    MinusSame(s.items, Live(s.tree) - Live(a.tree), Live(s.tree) - Live(b.tree));
  }

  /** What the camera does not have cannot be stale. */
  lemma NewIsNotStale(s: State, p: Path, n: Name, content: Cache)
    requires Proper(s) && Coherent(s, map[], map[]) && !IsFile(s.device, p, n)
    ensures !LeavesStale(s, p, n, content)
  {
    if Shown(s.tree, p) {
      assert FileAgrees(s.tree[p], s.device, map[], p);
      forall m | m in s.tree[p].files
        ensures m.name != n
      {
        LiveHome(s.tree, p, m);
        NamedHere(s.tree, m);
      }
    }
  }
}
