/** Making and removing folders, storing files, noting captured files, and starting over. */
module FsFolders {
  import opened Prelude
  import opened Lru
  import opened References
  import opened Paths
  import opened FsTree
  import opened FsAgree
  import opened FsCamera
  import opened FsSteps
  import opened Filesystem
  import opened FsFiles

  /** Makes a folder on the camera, which may refuse, and hangs it into the tree. */
  method MakeDir(fs: Filesystem, foldername: string, name: Name, accepts: bool) returns (r: Outcome)
    requires Agreeing(fs)
    modifies fs, fs.lru, fs.repr
    ensures Agreeing(fs) && fs.repr >= old(fs.repr) && fresh(fs.repr - old(fs.repr))
    ensures old(Faithful(fs.Now())) ==> Faithful(fs.Now())
    ensures Unfed(old(fs.Now()), fs.Now(), old(fs.repr)) && Additive(old(fs.Now()), fs.Now())
    ensures var c, p := old(fs.device), Comps(foldername);
      && r == (if !Absolute(foldername) then PathNotAbsolute else if p !in c.dirs then DirectoryNotFound
               else if !accepts || !LegalName(name) || name in c.dirs[p].folders then Refused else Done)
      && fs.device == (if r == Done then WithDir(c, p, name) else c)
  {
    hide *;
    if !Absolute(foldername) {
      SameListed(fs.Now());
      return PathNotAbsolute;
    }
    ghost var s0, p, known, c := fs.Now(), Comps(foldername), fs.repr, fs.device;
    SoundMeans(fs);
    NothingStale(p);
    var f := fs.LookupFolder(foldername, map[], map[]);
    ghost var s1 := fs.Now();
    SoundMeans(fs);
    LazilyListed(s0, s1, known);
    ListedKeeps(s0, s1, known);
    if f == null {
      return DirectoryNotFound;
    }
    fs.KnownFolder(f, p, map[], map[]);
    // The driver makes legal, new names only.
    if !accepts || !LegalName(name) || name in fs.device.dirs[Comps(foldername)].folders {
      return Refused;
    }
    ProperMeans(s1);
    NotCached(s1, p, name);
    WithDirLegal(c, p, name);
    fs.SetDevice(WithDir(fs.device, Comps(foldername), name));
    fs.Here(p);
    var g := fs.AppendFolderOne(f, name, p);
    DirMade(s1, p, g);
    SoundMeans(fs);
    UnfedTwice(s0, s1, fs.Now(), known);
    AdditiveTwice(s0, s1, fs.Now());
    return Done;
  }

  /** Whether the check for emptiness looks at the subfolder: the folder was listed before. */
  ghost predicate Looks(t: Tree, p: Path, name: Name) {
    Settled(t, p) && p in t && !t[p].foldersDirty && p + [name] in t
  }

  /** What a folder looks like before it is removed: only a folder whose parent was listed can look non-empty. */
  ghost function EmptyCheck(t: Tree, p: Path, name: Name): Outcome {
    if Looks(t, p, name) then
      if t[p + [name]].folders != [] then DirectoryExists
      else if t[p + [name]].files != [] then FileExists
      else Done
    else Done
  }

  lemma EmptyCheckAfter(t: Tree, u: Tree, v: Tree, p: Path, i: nat)
    requires p in u && p in v && i < |v[p].folders| && p + [v[p].folders[i].name] in v
    requires Settled(t, p) ==> u == t
    requires !Settled(t, p) ==> Virgin(u, p)
    requires if u[p].foldersDirty then ChildrenVirgin(v, p) else v == u
    ensures var name := v[p].folders[i].name;
      EmptyCheck(t, p, name) == (if v[p + [name]].folders != [] then DirectoryExists
                                 else if v[p + [name]].files != [] then FileExists else Done)
  {
    if u[p].foldersDirty {
      VirginChild(v, p, i);
    }
  }

  /** Whether a folder passes the check that has something in it: the cached part of it is empty, the rest is not. */
  ghost predicate PassesUnseen(t: Tree, q: Path, d: CamDir)
    requires q in t
  {
    && t[q].folders == [] && t[q].files == []
    && ((t[q].foldersDirty && d.folders != []) || (t[q].filesDirty && d.files != []))
  }

  /**
   * The check lets a folder with contents pass exactly if it does not look at it, because its parent was not
   * listed, or if all it has cached of it is empty and what is not empty was never listed.
   */
  lemma EmptyCheckExact(s: State, p: Path, name: Name)
    requires Proper(s) && LegalDevice(s.device) && Coherent(s, map[], map[])
    requires p in s.device.dirs && name in s.device.dirs[p].folders
    ensures p + [name] in s.device.dirs
    ensures var q := p + [name]; var d := s.device.dirs[q];
      EmptyCheck(s.tree, p, name) == Done && (d.folders != [] || d.files != []) <==>
        if Looks(s.tree, p, name) then PassesUnseen(s.tree, q, d) else d.folders != [] || d.files != []
  {
    hide Settled, Rooted, Proper;
    var q := p + [name];
    assert LegalAt(s.device, p);
    if q in s.tree {
      assert FolderAgrees(s.tree[q], s.device, map[], q) && FileAgrees(s.tree[q], s.device, map[], q);
      SameEmpty(FolderNames(s.tree[q].folders), s.device.dirs[q].folders);
      SameEmpty(FileNames(s.tree[q].files), s.device.dirs[q].files);
    }
  }

  lemma SameEmpty(cached: seq<Name>, listed: seq<Name>)
    ensures SameNames(cached, listed) ==> (|cached| == 0 <==> |listed| == 0)
  {
    HasFirst(cached);
    HasFirst(listed);
  }

  /**
   * Removes a folder from the camera, which may refuse, and from the tree. That the folder is empty is only
   * checked on what is cached of it.
   */
  method RemoveDir(fs: Filesystem, foldername: string, name: Name, accepts: bool) returns (r: Outcome)
    requires Agreeing(fs)
    modifies fs, fs.lru, fs.repr
    ensures Agreeing(fs) && fs.repr >= old(fs.repr) && fresh(fs.repr - old(fs.repr))
    ensures old(Faithful(fs.Now())) ==> Faithful(fs.Now())
    ensures Unfed(old(fs.Now()), fs.Now(), old(fs.repr)) && Additive(old(fs.Now()), fs.Now())
    ensures var c, p := old(fs.device), Comps(foldername);
      && r == (if !Absolute(foldername) then PathNotAbsolute
               else if p !in c.dirs || name !in c.dirs[p].folders then DirectoryNotFound
               else var check := old(EmptyCheck(fs.Now().tree, p, name));
                 if check == Done && !accepts then Refused else check)
      && fs.device == (if r == Done then WithoutDir(c, p, name) else c)
  {
    hide *;
    if !Absolute(foldername) {
      SameListed(fs.Now());
      return PathNotAbsolute;
    }
    ghost var s0, p, known, c := fs.Now(), Comps(foldername), fs.repr, fs.device;
    SoundMeans(fs);
    NothingStale(p);
    fs.Here(p);
    var f := fs.LookupFolder(foldername, map[], map[]);
    ghost var s1 := fs.Now();
    SoundMeans(fs);
    LazilyListed(s0, s1, known);
    ListedKeeps(s0, s1, known);
    if f == null {
      return DirectoryNotFound;
    }
    fs.Here(p);
    ghost var more := fs.repr;
    fs.MakeListed(foldername, f, p, map[], map[]);
    ghost var s2 := fs.Now();
    SoundMeans(fs);
    LazilyListed(s1, s2, more);
    ListedKeeps(s1, s2, more);
    UnfedFewer(s1, s2, more, known);
    UnfedTwice(s0, s1, s2, known);
    AdditiveTwice(s0, s1, s2);
    fs.KnownFolder(f, p, map[], map[]);
    NotStale(FolderNames(f.folders), c.dirs[p].folders, p);
    var i := fs.FindFolder(f, name);
    SoundMeans(fs);
    if i == |f.folders| {
      return DirectoryNotFound;
    }
    fs.Child(p, i);
    fs.Here(p);
    fs.Here(p + [name]);
    EmptyCheckAfter(s0.tree, s1.tree, s2.tree, p, i);
    if f.folders[i].folders != [] {
      return DirectoryExists;
    }
    if f.folders[i].files != [] {
      return FileExists;
    }
    if !accepts {
      return Refused;
    }
    WithoutDirLegal(c, p, name);
    fs.SetDevice(WithoutDir(fs.device, Comps(foldername), name));
    fs.DeleteFolder(f, i, p);
    DirGoneIs(s2, p, i);
    DirRemoved(s2, p, i);
    SoundMeans(fs);
    UnfedTwice(s0, s2, fs.Now(), known);
    AdditiveTwice(s0, s2, fs.Now());
    return Done;
  }

  lemma NotStale(cached: seq<Name>, listed: seq<Name>, p: Path)
    ensures Current(cached, listed, map[], p) <==> SameNames(cached, listed)
    ensures SameNames(cached, listed) ==> forall x :: x in cached <==> x in listed
  {
  }

  // ------------------------------------------------------------------
  // Storing files
  // ------------------------------------------------------------------

  ghost predicate CachedFile(s: State, p: Path, n: Name) {
    Settled(s.tree, p) && p in s.tree && n in FileNames(s.tree[p].files)
  }

  /** The last file of a folder, and what is cached for it. */
  ghost predicate LastFile(s: State, p: Path, n: Name, cache: Cache) {
    && p in s.tree && s.tree[p].files != []
    && var m := s.tree[p].files[|s.tree[p].files| - 1]; m.name == n && m in s.caches && s.caches[m] == cache
  }

  lemma GainedLast(s: State, p: Path, m: FileNode, cache: Cache)
    requires p in s.tree
    ensures LastFile(Gained(s, p, m, cache), p, m.name, cache)
  {
  }

  /** What was cached for a folder before it was looked up tells whether it is found to have a file. */
  lemma CachedFileBefore(s: State, u: State, p: Path, n: Name, data: seq<Byte>, content: Cache)
    requires p in u.tree && Settled(u.tree, p)
    requires if Settled(s.tree, p) then u == s else Virgin(u.tree, p)
    ensures CachedFile(s, p, n) <==> n in FileNames(u.tree[p].files)
    ensures n in FileNames(u.tree[p].files) ==>
      u == s && (Spoils(s, p, n, data, content) <==> LeavesStale(u, p, n, content))
    ensures n !in FileNames(u.tree[p].files) ==>
      (Spoils(s, p, n, data, content) <==> !u.tree[p].filesDirty && !IsNormal(data, content))
  {
  }

  /** Whether the camera stores what it is given. */
  predicate Stores(c: Device, foldername: string, accepts: bool) {
    Absolute(foldername) && Comps(foldername) in c.dirs && accepts
  }

  /**
   * Whether data that the camera does not have is cached once a file was stored: old data of an overwritten
   * file, or, for a new one, bytes that the camera does not deliver as its normal data.
   */
  ghost predicate Spoils(s: State, p: Path, n: Name, data: seq<Byte>, content: Cache) {
    && Shown(s.tree, p)
    && if n in FileNames(s.tree[p].files) then LeavesStale(s, p, n, content) else !IsNormal(data, content)
  }

  /** A file under a new name, stored with the bytes that the camera then delivers, spoils nothing. */
  lemma NewIsNotSpoiled(s: State, p: Path, n: Name, data: seq<Byte>, content: Cache)
    requires Proper(s) && Coherent(s, map[], map[]) && !IsFile(s.device, p, n) && IsNormal(data, content)
    ensures !Spoils(s, p, n, data, content)
  {
    NewIsNotStale(s, p, n, content);
  }

  /**
   * Stores a file on the camera, which may refuse, and adds it to the tree with the bytes handed in as its
   * normal data, whatever kind they are. The camera then delivers `content`. A file of that name in the tree
   * keeps what is cached for it.
   */
  method PutFile(fs: Filesystem, foldername: string, filename: Name, kind: Kind, file: Shared, content: Cache,
                 accepts: bool)
    returns (r: Outcome)
    requires Agreeing(fs) && file in fs.ledger.holders
    modifies fs, fs.lru, fs.repr
    ensures Agreeing(fs) && fs.repr >= old(fs.repr) && fresh(fs.repr - old(fs.repr))
    ensures var c, p := old(fs.device), Comps(foldername);
      && r == (if !Absolute(foldername) then PathNotAbsolute else if p !in c.dirs then DirectoryNotFound
               else if !accepts then Refused
               else if old(CachedFile(fs.Now(), p, filename)) && kind == Normal then FileExists else Done)
      && fs.device == (if Stores(c, foldername, accepts) then Stored(c, p, filename, content) else c)
    ensures Stores(old(fs.device), foldername, accepts) ==>
      if old(CachedFile(fs.Now(), Comps(foldername), filename)) then fs.Now() == old(fs.Now()).(device := fs.device)
      else LastFile(fs.Now(), Comps(foldername), filename, map[Normal := file.data])
    ensures ListKept(old(fs.Now()), fs.Now()) && Additive(old(fs.Now()), fs.Now())
    ensures old(Faithful(fs.Now())) ==>
      (Faithful(fs.Now()) <==> !(Stores(old(fs.device), foldername, accepts)
                                 && old(Spoils(fs.Now(), Comps(foldername), filename, file.data, content))))
  {
    hide *;
    ghost var s0, p, known, c := fs.Now(), Comps(foldername), fs.repr, fs.device;
    SoundMeans(fs);
    StoresMeans(c, foldername, accepts);
    if !Absolute(foldername) {
      SameListed(s0);
      UnfedKeepsList(s0, s0, known);
      return PathNotAbsolute;
    }
    NothingStale(p);
    var f := fs.LookupFolder(foldername, map[], map[]);
    ghost var s1 := fs.Now();
    SoundMeans(fs);
    LazilyListed(s0, s1, known);
    ListedKeeps(s0, s1, known);
    UnfedKeepsList(s0, s1, known);
    if f == null {
      return DirectoryNotFound;
    }
    if !accepts {
      return Refused;
    }
    fs.KnownFolder(f, p, map[], map[]);
    fs.Here(p);
    CachedFileBefore(s0, s1, p, filename, file.data, content);
    ghost var n;
    r, n := StoreIn(fs, f, foldername, filename, kind, file, content);
    SoundMeans(fs);
    AdditiveTwice(s0, s1, fs.Now());
    if n == null {
      DeviceUnfed(s1, fs.device);
      UnfedTwice(s0, s1, fs.Now(), known);
      UnfedKeepsList(s0, fs.Now(), known);
    } else {
      GainedLast(s1.(device := fs.device), p, n, map[Normal := file.data]);
      GainedKeepsList(s0, s1, fs.device, p, n, map[Normal := file.data]);
    }
  }

  /** Stores a file in a folder that was looked up. */
  method StoreIn(fs: Filesystem, f: FolderNode, foldername: string, filename: Name, kind: Kind, file: Shared,
                 content: Cache)
    returns (r: Outcome, ghost n: FileNode?)
    requires Agreeing(fs) && file in fs.ledger.holders
    requires Comps(foldername) in fs.dirs && fs.dirs[Comps(foldername)] == f
    requires Settled(fs.Now().tree, Comps(foldername))
    modifies fs, fs.lru, fs.repr
    ensures Agreeing(fs) && fs.repr >= old(fs.repr) && fresh(fs.repr - old(fs.repr))
    ensures var a, p := old(fs.Now()), Comps(foldername);
      && p in a.tree && p in a.device.dirs && fs.device == Stored(a.device, p, filename, content)
      && (n == null <==> filename in FileNames(a.tree[p].files))
      && r == (if n == null && kind == Normal then FileExists else Done)
      && (if n == null then fs.Now() == a.(device := fs.device)
          else n !in old(fs.repr) && n.name == filename && n.home == p && n !in a.caches
               && fs.Now() == Gained(a.(device := fs.device), p, n, map[Normal := file.data]))
      && Additive(a, fs.Now())
      && (Faithful(a) ==>
        (Faithful(fs.Now()) <==> if n == null then !LeavesStale(a, p, filename, content)
                                 else a.tree[p].filesDirty || IsNormal(file.data, content)))
  {
    hide *;
    ghost var s1, p := fs.Now(), Comps(foldername);
    SoundMeans(fs);
    fs.KnownFolder(f, p, map[], map[]);
    fs.Here(p);
    StoredLegal(fs.device, p, filename, content);
    fs.SetDevice(Stored(fs.device, Comps(foldername), filename, content));
    fs.Here(p);
    SoundMeans(fs);
    var i := fs.FindFile(f, filename);
    if i < |f.files| {
      Overwritten(s1, p, filename, content);
      DeviceSpares(s1, fs.device);
      SoundMeans(fs);
      return if kind == Normal then FileExists else Done, null;
    }
    n := fs.AddFile(f, filename, file, p);
    NotLiveYet(s1, n);
    StoredNew(s1, p, n, file.data, content);
    SoundMeans(fs);
    return Done, n;
  }

  lemma NotLiveYet(s: State, n: FileNode)
    ensures AllCached(s) ==> (n in s.caches <==> n in Live(s.tree))
  {
  }

  lemma StoresMeans(c: Device, foldername: string, accepts: bool)
    ensures Stores(c, foldername, accepts) <==> Absolute(foldername) && Comps(foldername) in c.dirs && accepts
  {
  }

  // ------------------------------------------------------------------
  // Starting over
  // ------------------------------------------------------------------

  /** Forgets everything: only the unlisted root is left, so nothing can disagree with the camera. */
  method Reset(fs: Filesystem)
    requires fs.Intact()
    modifies fs`dirs, fs.lru, fs.repr
    ensures Sound(fs) && fs.repr == old(fs.repr) && fs.device == old(fs.device)
    ensures fs.Now().tree == map[[] := Dir(fs.root, true, true, [], [])]
    ensures fs.Now().items == [] && fs.Now().caches == map[]
    ensures fs.Now().size == if old(fs.Now().items) == [] then old(fs.Now().size) else 0
    ensures forall f :: f in fs.ledger.files ==>
      f.refCount == fs.ledger.holders[f] && (f.freed <==> f !in fs.ledger.holders)
  {
    hide *;
    fs.ClearList();
    ghost var s0 := fs.Now();
    fs.AtRoot();
    fs.RecurseDeleteFolder(fs.root, []);
    fs.DeleteAllFiles(fs.root, []);
    fs.AtRoot();
    fs.SetFlags(fs.root, true, true, []);
    fs.AtRoot();
    OnlyRoot(s0, fs.Now(), fs.root);
    SoundMeans(fs);
    RootIsGood(fs.Now(), fs.root);
    GoodMeans(fs.Now());
    NothingHeld(fs);
  }

  /** With nothing cached every file object counts those who hold it besides the cache. */
  lemma NothingHeld(fs: Filesystem)
    requires fs.Intact() && fs.Now().caches == map[]
    ensures forall f :: f in fs.ledger.files ==>
      f.refCount == fs.ledger.holders[f] && (f.freed <==> f !in fs.ledger.holders)
  {
    fs.Balances();
    var live := Live(fs.Snap());
    assert fs.Now().caches.Keys == live;
    forall f | f in fs.ledger.files
      ensures InSlots(Slots(live), f) == 0
    {
      InNoSlot(Slots(live), f);
    }
  }

  lemma OnlyRoot(a: State, b: State, root: FolderNode)
    requires [] in a.tree && a.tree[[]].node == root && a.items == []
    requires var e := Lost(a, Pruned(a.tree, [])); [] in e.tree && var s := Lost(e, WithFiles(e.tree, [], []));
             [] in s.tree && b == s.(tree := WithFlags(s.tree, [], true, true))
    ensures b.tree == map[[] := Dir(root, true, true, [], [])] && b.items == [] && b.size == a.size
    ensures b.caches == map[] && b.device == a.device
  {
    var u := Pruned(a.tree, []);
    forall q | q in u
      ensures q == []
    {
    }
    assert b.tree == map[[] := Dir(root, true, true, [], [])];
  }

  lemma RootIsGood(s: State, root: FolderNode)
    requires s.tree == map[[] := Dir(root, true, true, [], [])] && s.caches == map[] && [] in s.device.dirs
    ensures Good(s)
  {
  }

  // ------------------------------------------------------------------
  // Files that appear on the camera
  // ------------------------------------------------------------------

  /** The components of a path up to k are cached, and the next one is not. */
  ghost predicate MissingAt(t: Tree, all: Path, k: nat) {
    k < |all| && all[..k] in t && all[..k + 1] !in t
  }

  /**
   * Walks down the cached folders along a path and creates the first folder that is missing there. If more are
   * missing, the rest of the path is dropped.
   */
  method AppendToFolder(fs: Filesystem, folder: FolderNode, foldername: string, cur: nat, ghost p: Path)
    returns (f: FolderNode, ghost k: nat)
    requires fs.Intact() && p in fs.dirs && fs.dirs[p] == folder
    requires cur <= |foldername|
    requires cur == 0 || cur == |foldername| || foldername[cur] == '/' || foldername[cur - 1] == '/'
    requires Comps(foldername[..cur]) == p
    requires |p| <= |Comps(foldername)| && Comps(foldername)[..|p|] == p
    modifies fs`dirs, fs`repr, fs.repr
    ensures fs.Intact() && fs.device == old(fs.device)
    ensures var all, t := Comps(foldername), old(fs.Now().tree);
      if k == |all| then
        all in old(fs.dirs) && f == old(fs.dirs[all]) && fs.Now() == old(fs.Now()) && fs.dirs == old(fs.dirs)
        && fs.repr == old(fs.repr)
      else
        && MissingAt(t, all, k) && k < |all| && all[..k] in t && f.name == all[k]
        && fresh(f) && fs.repr == old(fs.repr) + {f} && all[..k + 1] in fs.dirs && fs.dirs[all[..k + 1]] == f
        && fs.Now() == old(fs.Now()).(tree := WithFolder(t, all[..k], f))
        && Live(fs.Now().tree) == old(Live(fs.Now().tree))
    decreases |foldername| - cur
  {
    hide *;
    ghost var all := Comps(foldername);
    var (start, e) := Ahead(foldername, cur);
    if start == |foldername| {
      assert all[..|all|] == all;
      return folder, |all|;
    }
    fs.Walk(folder, p, all);
    fs.Here(p);
    fs.Here(all[..|p| + 1]);
    var i := fs.FindFolder(folder, foldername[start..e]);
    if i < |folder.folders| {
      fs.Child(p, i);
      f, k := AppendToFolder(fs, folder.folders[i], foldername, e, all[..|p| + 1]);
    } else {
      k := |p|;
      IsMissingAt(fs.Now().tree, all, k);
      f := fs.AppendFolderOne(folder, foldername[start..e], p);
    }
  }

  lemma IsMissingAt(t: Tree, all: Path, k: nat)
    ensures MissingAt(t, all, k) <==> k < |all| && all[..k] in t && all[..k + 1] !in t
  {
  }

  /** If the parent of a folder is cached, only the folder itself can be missing. */
  lemma OnlyLeafIsMissing(t: Tree, p: Path, k: nat)
    requires WellFormed(t) && p != [] && Parent(p) in t && MissingAt(t, p, k)
    ensures k == |p| - 1 && p[..k] == Parent(p) && p[k] == Leaf(p) && p[..k + 1] == p
  {
    assert p[..|p|] == p;
    assert k + 1 < |p| ==> Parent(p)[..k + 1] == p[..k + 1];
    AncestorsIn(t, Parent(p), if k + 1 < |p| then k + 1 else 0);
  }

  /** Notes a file that appeared in a folder of the tree. */
  method NoteFile(fs: Filesystem, f: FolderNode, foldername: string, filename: Name, ghost sf: Stale)
    requires fs.Intact() && Awaiting(fs.Now(), Comps(foldername), filename, sf, map[])
    requires Absolute(foldername) && Settled(fs.Now().tree, Comps(foldername))
    requires Comps(foldername) in fs.dirs && fs.dirs[Comps(foldername)] == f
    modifies fs`dirs, fs`repr, fs.lru, fs.repr
    ensures Agreeing(fs) && fs.repr >= old(fs.repr) && fresh(fs.repr - old(fs.repr)) && fs.device == old(fs.device)
    ensures old(Faithful(fs.Now())) ==> Faithful(fs.Now())
    ensures Unfed(old(fs.Now()), fs.Now(), old(fs.repr)) && Additive(old(fs.Now()), fs.Now())
    ensures var p := Comps(foldername); p in fs.Now().tree && filename in FileNames(fs.Now().tree[p].files)
  {
    hide *;
    ghost var s2, p, known := fs.Now(), Comps(foldername), fs.repr;
    SoundMeans(fs);
    AwaitingMeans(s2, p, filename, sf, map[]);
    fs.Here(p);
    if f.filesDirty {
      var _, _ := ListFiles(fs, foldername, sf, map[]);
    } else {
      AdditiveSame(s2);
      ShownMeans(s2.tree, p);
      LazilySame(s2);
      LazilyListed(s2, s2, known);
    }
    ghost var s3 := fs.Now();
    SoundMeans(fs);
    StillAwaiting(s2, s3, p, filename, sf, map[], known);
    ListedMeans(s2, s3, known);
    ShownMeans(s3.tree, p);
    fs.KnownFolder(f, p, sf, map[]);
    var added, m := fs.InternalAppend(f, filename, p);
    SoundMeans(fs);
    FileNoted(s3, fs.Now(), p, filename, sf, m);
    AdditiveTwice(s2, s3, fs.Now());
    if added {
      GainedUnfed(s3, p, m, known);
      UnfedTwice(s2, s3, fs.Now(), known);
    }
  }

  /** Notes a file that appeared on the camera, in a folder that may be new with it. */
  method Append(fs: Filesystem, foldername: string, filename: Name, ghost sf: Stale, ghost sd: Stale)
    requires fs.Intact() && Awaiting(fs.Now(), Comps(foldername), filename, sf, sd)
    requires Absolute(foldername)
    modifies fs`dirs, fs`repr, fs.lru, fs.repr
    ensures Agreeing(fs) && fs.repr >= old(fs.repr) && fresh(fs.repr - old(fs.repr)) && fs.device == old(fs.device)
    ensures old(Faithful(fs.Now())) ==> Faithful(fs.Now())
    ensures Unfed(old(fs.Now()), fs.Now(), old(fs.repr)) && Additive(old(fs.Now()), fs.Now())
    ensures var p := Comps(foldername); p in fs.Now().tree && filename in FileNames(fs.Now().tree[p].files)
  {
    hide *;
    ghost var s0, p, known := fs.Now(), Comps(foldername), fs.repr;
    SoundMeans(fs);
    AwaitingMeans(s0, p, filename, sf, sd);
    var f: FolderNode? := fs.LookupFolder(foldername, sf, sd);
    ghost var s1 := fs.Now();
    SoundMeans(fs);
    ProperMeans(s1);
    LazilyListed(s0, s1, known);
    ListedMeans(s0, s1, known);
    StillAwaiting(s0, s1, p, filename, sf, sd, known);
    fs.Here(p);
    if f == null {
      FolderIsMissing(s1, p, filename, sf, sd);
      fs.AtRoot();
      fs.Here(Parent(p));
      RootPrefix(foldername);
      ghost var k;
      f, k := AppendToFolder(fs, fs.root, foldername, 0, []);
      OnlyLeafIsMissing(s1.tree, p, k);
      FolderHung(s1, p, filename, sf, sd, f);
    } else {
      FolderIsKnown(s1, p, filename, sf, sd);
      SameListed(s1);
    }
    ghost var s2, r2 := fs.Now(), fs.repr;
    SoundMeans(fs);
    UnfedTwice(s0, s1, s2, known);
    AdditiveTwice(s0, s1, s2);
    NoteFile(fs, f, foldername, filename, sf);
    SoundMeans(fs);
    UnfedFewer(s2, fs.Now(), r2, known);
    UnfedTwice(s0, s2, fs.Now(), known);
    AdditiveTwice(s0, s2, fs.Now());
  }

  lemma AwaitingMeans(s: State, p: Path, n: Name, sf: Stale, sd: Stale)
    requires Awaiting(s, p, n, sf, sd)
    ensures Coherent(s, sf, sd) && p in s.device.dirs
  {
  }

  lemma RootPrefix(s: string)
    ensures Comps(s[..0]) == [] && Comps(s)[..0] == []
  {
  }

  /** The camera captures a picture, and the driver notes the new file. */
  method CaptureFile(fs: Filesystem, foldername: string, filename: Name, content: Cache)
    requires Agreeing(fs) && Absolute(foldername)
    requires Capture(fs.device, Comps(foldername), filename)
    modifies fs, fs.lru, fs.repr
    ensures Agreeing(fs) && fs.repr >= old(fs.repr) && fresh(fs.repr - old(fs.repr))
    ensures old(Faithful(fs.Now())) ==> Faithful(fs.Now())
    ensures fs.device == Shot(old(fs.device), Comps(foldername), filename, content)
    ensures Unfed(old(fs.Now()), fs.Now(), old(fs.repr)) && Additive(old(fs.Now()), fs.Now())
    ensures var p := Comps(foldername); p in fs.Now().tree && filename in FileNames(fs.Now().tree[p].files)
  {
    hide *;
    ghost var s0, c, p, known := fs.Now(), fs.device, Comps(foldername), fs.repr;
    SoundMeans(fs);
    ShotAwaits(s0, p, filename, content);
    ShotLegal(c, p, filename, content);
    CaptureMeans(c, p, filename);
    fs.SetDevice(Shot(fs.device, Comps(foldername), filename, content));
    DeviceUnfed(s0, fs.device);
    DeviceSpares(s0, fs.device);
    ghost var s1 := fs.Now();
    SoundMeans(fs);
    Append(fs, foldername, filename, StaleFiles(c, p), StaleFolders(c, p));
    SoundMeans(fs);
    UnfedTwice(s0, s1, fs.Now(), known);
    AdditiveTwice(s0, s1, fs.Now());
  }

  lemma CaptureMeans(c: Device, p: Path, n: Name)
    requires Capture(c, p, n)
    ensures p in c.dirs || (p != [] && Parent(p) in c.dirs)
  {
  }
}
