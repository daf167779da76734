/** Where the promises of the virtual filesystem end: concrete runs. */
module FsLimits {
  import opened Prelude
  import opened Lru
  import opened Paths
  import opened FsTree
  import opened FsAgree
  import opened FsCamera
  import opened FsSteps
  import opened FsCacheSpec
  import opened Filesystem
  import opened FsFiles
  import opened FsFolders
  import opened FsCache
  import opened FsMoments
  import opened FsRun

  /** A camera with one folder and one file in it. */
  function Sample(): Device {
    Device(map[[] := CamDir(["d"], ["a"]), ["d"] := CamDir([], ["x"])], map[([], "a", Normal) := [1]])
  }

  lemma SampleLegal()
    ensures LegalDevice(Sample()) && IsFile(Sample(), [], "a") && IsFile(Sample(), ["d"], "x")
    ensures CamerasOwn(Sample(), [], "a", Normal, [1])
  {
    hide LegalAt;
    var c := Sample();
    assert IsFile(c, [], "a") && IsFile(c, ["d"], "x") && CamerasOwn(c, [], "a", Normal, [1]) by { hide LegalDevice; }
    RootLegal();
    FolderLegal();
  }

  lemma RootLegal()
    ensures LegalAt(Sample(), [])
  {
    assert [] + ["d"] == ["d"];
  }

  lemma FolderLegal()
    ensures LegalAt(Sample(), ["d"])
  {
    assert Parent(["d"]) == [] && Leaf(["d"]) == "d";
  }

  /** Storing a file over one whose old bytes are cached leaves the old bytes in the cache, and they are returned. */
  method OverwriteLeavesStale() returns (got: Fetched, stored: Fetched)
    ensures got == Got([1]) && stored == Got([2])
  {
    hide *;
    SampleLegal();
    IsFileMeans(Sample(), [], "a");
    RootPath();
    var fs := Start(Sample(), 2);
    ReadyMeans(fs, []);
    SoundMeans(fs);
    var first := fs.CreateFile([1]);
    var second := fs.CreateFile([2]);
    SoundMeans(fs);
    var _, found, n := SetFileNoop(fs, "/", "a", Normal, first);
    ghost var s := fs.Now();
    StaleWitness(found, s, n, fs.picturesToKeep);
    SoundMeans(fs);
    var content: Cache := map[Normal := [2]];
    StoresMeans(fs.device, "/", true);
    var r := PutFile(fs, "/", "a", Normal, second, content, true);
    SoundMeans(fs);
    OneCached(fs.Now(), n, [1]);
    stored := Direct(fs.device, [], "a", Normal);
    DirectStored(Sample(), [], "a", content);
    var fromCache;
    ghost var s2 := fs.Now();
    got, fromCache := GetFile(fs, "/", "a", Normal);
    assert fs.Now() == s2 && CachedAs(s2, Comps("/"), "a", Normal, [1]);
  }

  lemma DirectStored(c: Device, p: Path, n: Name, content: Cache)
    requires p in c.dirs && Normal in content
    ensures Direct(Stored(c, p, n, content), p, n, Normal) == Got(content[Normal])
  {
  }

  lemma OneCached(s: State, n: FileNode, data: seq<Byte>)
    requires Proper(s) && n in s.caches && n.home == [] && n.name == "a"
    requires Normal in s.caches[n] && s.caches[n][Normal] == data
    ensures forall d :: CachedAs(s, [], "a", Normal, d) <==> d == data
  {
    forall d {
      CachedAsMeans(s, n, Normal, d);
    }
  }

  lemma RootPath()
    ensures Absolute("/") && Comps("/") == []
  {
    assert "/"[..0] == "";
  }

  lemma StaleWitness(found: State, s: State, n: FileNode?, keep: nat)
    requires n != null && n in found.caches && s == Fed(found, n, Normal, [1], keep) && Proper(found)
    requires Shown(found.tree, []) && n.home == [] && n.name == "a"
    ensures LeavesStale(s, [], "a", map[Normal := [2]]) && CachedFile(s, [], "a") && Shown(s.tree, [])
    ensures n in s.caches && Normal in s.caches[n] && s.caches[n][Normal] == [1]
  {
    TrimmedKeys(found, keep);
    LiveHere(found, n);
    NamedHere(found.tree, n);
    assert s.caches[n][Normal] == [1];
    assert !Within(s.caches[n], map[Normal := [2]]);
  }

  /** A driver that fails to list the files of the root: it is left empty and passes as listed. */
  method FailedListingDisagrees() returns (fs: Filesystem, asked: bool)
    ensures fs.Intact() && !Agreeing(fs) && asked && IsFile(fs.device, [], "a")
  {
    hide *;
    SampleLegal();
    IsFileMeans(Sample(), [], "a");
    RootPath();
    fs := Start(Sample(), 2);
    ReadyMeans(fs, []);
    NotShownYet(fs.Now().tree, fs.root);
    var found;
    found, asked := ListFilesFailing(fs, "/");
    HasFiles(Sample(), [], "a");
  }

  lemma NotShownYet(t: Tree, root: FolderNode)
    requires t == map[[] := Dir(root, true, true, [], [])]
    ensures !Shown(t, [])
  {
  }

  lemma HasFiles(c: Device, p: Path, n: Name)
    requires IsFile(c, p, n)
    ensures p in c.dirs && c.dirs[p].files != []
  {
  }

  /**
   * Deleting a file whose data is cached leaves its bytes in the size kept with the list, and starting over does
   * not correct that, because it leaves the size of an empty list alone.
   */
  method DeletionLeavesSize() returns (fs: Filesystem, r: Outcome)
    ensures fs.Intact() && r == Done && fs.Now().items == [] && fs.Now().caches == map[] && fs.Now().size == 1
  {
    hide *;
    SampleLegal();
    IsFileMeans(Sample(), [], "a");
    RootPath();
    fs := Start(Sample(), 2);
    ReadyMeans(fs, []);
    SoundMeans(fs);
    ghost var s := fs.Now();
    StartsEmpty(s);
    var file := fs.CreateFile([1]);
    SoundMeans(fs);
    ghost var known := fs.repr;
    var _, found, n := SetFileNoop(fs, "/", "a", Normal, file);
    SoundMeans(fs);
    ghost var s1, known1 := fs.Now(), fs.repr;
    FirstFed(s, found, n, known);
    r := DeleteFile(fs, "/", "a", {});
    SoundMeans(fs);
    ghost var s2 := fs.Now();
    UnfedKeepsList(s1, s2, known1);
    DeletedOnCamera(Sample(), [], "a");
    OnlyOneGone(s1, s2, n);
    Reset(fs);
    SoundMeans(fs);
  }

  lemma StartsEmpty(s: State)
    requires InFeedOrder(s.items, []) && Sized(s)
    ensures s.items == [] && s.size == 0
  {
  }

  /** The first file fed is the only one listed, and its bytes are the size. */
  lemma FirstFed(s: State, found: State, n: FileNode?, known: set<object>)
    requires s.items == [] && s.size == 0 && Listed(s, found, known) && n != null && n in found.caches
    ensures Fed(found, n, Normal, [1], 2).items == [n] && Fed(found, n, Normal, [1], 2).size == 1
  {
    assert found.items == [] && Trimmed(found, 2) == found;
    assert Minus([], {n}) == [];
  }

  lemma OnlyOneGone(a: State, b: State, n: FileNode)
    requires ListKept(a, b) && a.items == [n] && a.size == 1 && n.home == [] && n.name == "a" && Proper(a) && Proper(b)
    requires Coherent(b, map[], map[]) && Shown(b.tree, []) && !IsFile(b.device, [], "a")
    ensures b.items == [] && b.size == 1
  {
    NoSuchNode(b, [], "a");
    LiveInClean(b.tree, [], n);
    assert a.items[0] == n && n in Live(a.tree);
    MinusAll(a.items, Live(a.tree) - Live(b.tree));
  }

  /** A file that the camera captured and its driver did not announce is not found in a listed folder. */
  method UnannouncedIsMissing() returns (fs: Filesystem, r: Looked)
    ensures fs.Intact() && !Agreeing(fs) && IsFile(fs.device, [], "b") && r == NoFile
  {
    hide *;
    SampleLegal();
    RootPath();
    SampleCapture();
    ghost var content: Cache := map[Normal := [3]];
    ghost var sf, sd := StaleFiles(Sample(), []), StaleFolders(Sample(), []);
    fs := Start(Sample(), 2);
    ReadyMeans(fs, []);
    NothingStale([]);
    SoundMeans(fs);
    var _, _ := ListFiles(fs, "/", map[], map[]);
    ghost var s := fs.Now();
    SoundMeans(fs);
    fs.AtRoot();
    fs.Here([]);
    RootIsListed(s);
    ShotLegal(Sample(), [], "b", content);
    ShotAwaits(s, [], "b", content);
    ShotAgreesExact(s, [], "b", content);
    fs.SetDevice(Shot(Sample(), [], "b", map[Normal := [3]]));
    ghost var s1 := fs.Now();
    SoundMeans(fs);
    AwaitingMeans(s1, [], "b", sf, sd);
    r := LookupFile(fs, "/", "b", sf, sd);
    SoundMeans(fs);
    fs.Here([]);
    NotAmongListed(fs, r, s1);
  }

  lemma SampleCapture()
    ensures Capture(Sample(), [], "b") && [] in Sample().dirs && "b" !in Sample().dirs[[]].files
  {
  }

  /** Once its files are listed, the root shows those of the camera. */
  lemma RootIsListed(s: State)
    requires Shown(s.tree, []) && Coherent(s, map[], map[]) && s.device == Sample()
    ensures Outgrows(s, []) && [] in s.tree && "b" !in FileNames(s.tree[[]].files)
  {
    assert FileAgrees(s.tree[[]], s.device, map[], []);
  }

  lemma NotAmongListed(fs: Filesystem, r: Looked, s: State)
    requires fs.Now() == s && [] in fs.dirs && [] in s.tree && "b" !in FileNames(s.tree[[]].files) && !r.NoDirectory?
    requires r.Found? ==> IsAt(fs, r, [], "b")
    ensures r == NoFile
  {
    var files := s.tree[[]].files;
    forall i | 0 <= i < |files|
      ensures files[i].name != "b"
    {
      assert FileNames(files)[i] == files[i].name;
    }
  }

  /** A folder that was never seen passes as empty: removing it loses its files. */
  method RemoveLosesFiles() returns (before: Device, r: Outcome, after: Device)
    ensures IsFile(before, ["d"], "x") && r == Done && ["d"] !in after.dirs
  {
    hide *;
    SampleLegal();
    IsFileMeans(Sample(), [], "a");
    RootPath();
    SampleFolder();
    before := Sample();
    var fs := Start(before, 2);
    ReadyMeans(fs, []);
    UnseenIsEmpty(fs.Now().tree, [], "d");
    r := RemoveDir(fs, "/", "d", true);
    after := fs.device;
    FolderGone(before, [], "d");
  }

  /** So does a folder that was seen when its parent was listed, but was not listed itself. */
  method RemoveLosesUnlisted() returns (before: Device, names: seq<Name>, r: Outcome, after: Device)
    ensures IsFile(before, ["d"], "x") && "d" in names && r == Done && ["d"] !in after.dirs
  {
    hide *;
    SampleLegal();
    IsFileMeans(Sample(), [], "a");
    RootPath();
    SampleFolder();
    before := Sample();
    var fs := Start(before, 2);
    ReadyMeans(fs, []);
    SoundMeans(fs);
    NothingStale([]);
    SettledRoot(fs.Now().tree);
    fs.AtRoot();
    fs.Here([]);
    var found;
    found, names := fs.ListFolders("/", map[], map[]);
    SoundMeans(fs);
    fs.Here([]);
    NotStale(names, before.dirs[[]].folders, []);
    VirginIsEmpty(fs.Now().tree, [], "d");
    r := RemoveDir(fs, "/", "d", true);
    after := fs.device;
    FolderGone(before, [], "d");
  }

  lemma VirginIsEmpty(t: Tree, p: Path, name: Name)
    requires WellFormed(t) && ChildrenVirgin(t, p)
    ensures EmptyCheck(t, p, name) == Done
  {
    hide WellFormed, Settled;
    if Looks(t, p, name) {
      ChildIff(t, p, name);
      var i :| 0 <= i < |t[p].folders| && FolderNames(t[p].folders)[i] == name;
      VirginChild(t, p, i);
    }
  }

  lemma SampleFolder()
    ensures [] in Sample().dirs && "d" in Sample().dirs[[]].folders && [] + ["d"] == ["d"]
  {
  }

  lemma UnseenIsEmpty(t: Tree, p: Path, name: Name)
    requires p + [name] !in t
    ensures EmptyCheck(t, p, name) == Done
  {
  }

  lemma FolderGone(c: Device, p: Path, name: Name)
    requires p in c.dirs
    ensures p + [name] !in WithoutDir(c, p, name).dirs
  {
    var q := p + [name];
    assert q[..|q|] == q;
  }

  /** A camera with two folders and three files in its root. */
  function Ordered(): Device {
    Device(map[[] := CamDir(["a", "b"], ["x", "y", "z"]), ["a"] := CamDir([], []), ["b"] := CamDir([], [])], map[])
  }

  lemma OrderedLegal()
    ensures LegalDevice(Ordered()) && [] in Ordered().dirs
    ensures Ordered().dirs[[]] == CamDir(["a", "b"], ["x", "y", "z"])
  {
    hide LegalAt;
    OrderedRoot();
    OrderedFolders();
  }

  lemma OrderedRoot()
    ensures LegalAt(Ordered(), [])
  {
    assert [] + ["a"] == ["a"] && [] + ["b"] == ["b"];
  }

  lemma OrderedFolders()
    ensures LegalAt(Ordered(), ["a"]) && LegalAt(Ordered(), ["b"])
  {
    assert Parent(["a"]) == [] && Leaf(["a"]) == "a" && Parent(["b"]) == [] && Leaf(["b"]) == "b";
  }

  lemma TwoTurned(names: seq<Name>, list: seq<Name>)
    requires |names| == |list| == 2 && forall i :: 0 <= i < |names| ==> names[i] == list[|names| - 1 - i]
    ensures names == [list[1], list[0]]
  {
  }

  lemma OrderedCleared(d: Device, r: Outcome)
    requires Cleared(Ordered(), d, [], ["x", "y", "z"], {"y"}, r)
    ensures r == Refused && [] in d.dirs
    ensures forall n :: n in d.dirs[[]].files <==> n == "x" || n == "y"
  {
    assert "y" in Ordered().dirs[[]].files;
    var names, left := ["x", "y", "z"], d.dirs[[]].files;
    var k :| StoppedAt(names, k, {"y"}, left);
    assert names[1] == "y" && k == 1 && names[..2] == ["x", "y"];
  }

  lemma ListingAtStart(s: State, root: FolderNode)
    requires s.tree == map[[] := Dir(root, true, true, [], [])] && s.device == Ordered()
    ensures ListingOf(s, []) == ["x", "y", "z"]
  {
  }

  /** Folders are listed the last one first, and files are deleted the last one first until one is refused. */
  method LastFirst() returns (folders: seq<Name>, r: Outcome, left: seq<Name>)
    ensures folders == ["b", "a"] && r == Refused
    ensures forall n :: n in left <==> n == "x" || n == "y"
  {
    hide *;
    OrderedLegal();
    RootPath();
    var fs := Start(Ordered(), 2);
    ReadyMeans(fs, []);
    SoundMeans(fs);
    ListingAtStart(fs.Now(), fs.root);
    r := DeleteAll(fs, "/", Unsupported, {"y"});
    OrderedCleared(fs.device, r);
    left := fs.device.dirs[[]].files;
    folders := OrderedFoldersTurned();
  }

  method OrderedFoldersTurned() returns (names: seq<Name>)
    ensures names == ["b", "a"]
  {
    hide *;
    OrderedLegal();
    RootPath();
    var fs := Start(Ordered(), 2);
    ReadyMeans(fs, []);
    SoundMeans(fs);
    NothingStale([]);
    fs.Here([]);
    var found;
    found, names := fs.ListFolders("/", map[], map[]);
    TwoTurned(names, ["a", "b"]);
  }
}
