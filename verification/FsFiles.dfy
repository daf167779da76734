/** Listing and finding files, and the operations that change the files and folders of the camera. */
module FsFiles {
  import opened Lru
  import opened Paths
  import opened FsTree
  import opened FsAgree
  import opened FsCamera
  import opened FsSteps
  import opened Filesystem

  /** Empties a folder and fills it with the files the camera lists, in the camera's order. */
  method Relist(fs: Filesystem, f: FolderNode, list: seq<Name>, ghost p: Path, ghost sf: Stale, ghost sd: Stale)
    requires fs.Intact() && Coherent(fs.Now(), sf, sd) && p in fs.dirs && fs.dirs[p] == f && Settled(fs.Now().tree, p)
    requires p in fs.device.dirs && list == fs.device.dirs[p].files && f.filesDirty
    modifies fs`repr, fs.lru, fs.repr
    ensures fs.Intact() && Coherent(fs.Now(), sf, sd) && fs.repr >= old(fs.repr) && fresh(fs.repr - old(fs.repr))
    ensures fs.device == old(fs.device) && fs.dirs == old(fs.dirs) && Settled(fs.Now().tree, p)
    ensures Listed(old(fs.Now()), fs.Now(), old(fs.repr)) && Additive(old(fs.Now()), fs.Now())
    ensures p in fs.Now().tree && !fs.Now().tree[p].filesDirty && FileNames(fs.Now().tree[p].files) == list
  {
    hide *;
    ghost var s0, known, cam, dirs := fs.Now(), fs.repr, fs.device, fs.dirs;
    fs.KnownFolder(f, p, sf, sd);
    fs.Whole();
    fs.Here(p);
    fs.DeleteAllFiles(f, p);
    ghost var s1 := fs.Now();
    FillingStarts(s0, s1, p, known);
    fs.Here(p);
    fs.SetFlags(f, false, f.foldersDirty, p);
    assert list[..0] == [];
    var y := 0;
    while y < |list|
      invariant y <= |list| && fs.Intact() && fs.repr >= known && fresh(fs.repr - known)
      invariant fs.device == cam && fs.dirs == dirs
      invariant Filling(s0, fs.Now(), p, known, list[..y])
    {
      ghost var s2 := fs.Now();
      NotListedYet(list, y);
      FillingSoFar(s0, s2, p, known, list[..y]);
      fs.Here(p);
      var _, n := fs.InternalAppend(f, list[y], p);
      FillingGoesOn(s0, s2, p, known, list[..y], n);
      assert list[..y + 1] == list[..y] + [list[y]];
      y := y + 1;
    }
    assert list[..y] == list;
    fs.Whole();
    FillingEnds(s0, fs.Now(), p, known, list, sf, sd);
  }

  lemma NotListedYet(list: seq<Name>, y: nat)
    requires y < |list| && Distinct(list)
    ensures list[y] !in list[..y]
  {
  }

  /** The names a listing of a folder's files would give, in their order: those cached, or the camera's. */
  ghost function ListingOf(s: State, p: Path): seq<Name> {
    if Shown(s.tree, p) then FileNames(s.tree[p].files)
    else if p in s.device.dirs then s.device.dirs[p].files
    else []
  }

  /** Looking a folder up does not change how its files will be listed. */
  lemma ListingKept(a: State, b: State, p: Path)
    requires b.device == a.device && Settled(b.tree, p) && (b == a || Virgin(b.tree, p))
    requires Settled(a.tree, p) ==> b == a
    ensures ListingOf(b, p) == ListingOf(a, p)
  {
    hide FileNames;
  }

  lemma ListingFresh(s: State, p: Path)
    requires p in s.tree && p in s.device.dirs && Settled(s.tree, p)
    ensures ListingOf(s, p) == if s.tree[p].filesDirty then s.device.dirs[p].files else FileNames(s.tree[p].files)
  {
    hide FileNames;
  }

  /** A marked folder is listed as the camera lists it. */
  lemma ListingOfMarked(a: State, p: Path, left: seq<Name>)
    requires p in a.tree && p in a.device.dirs
    ensures var b :=
      a.(tree := WithFlags(a.tree, p, true, a.tree[p].foldersDirty), device := Refilled(a.device, p, left));
      ListingOf(b, p) == left
  {
    hide FileNames;
  }

  /** Lists the files of a folder, asking the camera if it was not listed yet. */
  method ListFiles(fs: Filesystem, foldername: string, ghost sf: Stale, ghost sd: Stale)
    returns (found: bool, names: seq<Name>)
    requires fs.Intact() && Coherent(fs.Now(), sf, sd)
    modifies fs`dirs, fs`repr, fs.lru, fs.repr
    ensures fs.Intact() && Coherent(fs.Now(), sf, sd) && fs.repr >= old(fs.repr) && fresh(fs.repr - old(fs.repr))
    ensures fs.device == old(fs.device) && Listed(old(fs.Now()), fs.Now(), old(fs.repr))
    ensures Additive(old(fs.Now()), fs.Now())
    ensures found <==> Absolute(foldername) && Comps(foldername) in fs.dirs
    ensures Absolute(foldername) && Fresh(sd, Comps(foldername)) ==> (found <==> Comps(foldername) in fs.device.dirs)
    ensures found ==> Shown(fs.Now().tree, Comps(foldername)) && Distinct(names)
    ensures found ==> ShowsFiles(fs.Now(), Comps(foldername), names, sf)
    ensures found ==> names == ListingOf(old(fs.Now()), Comps(foldername))
    ensures old(Settled(fs.Now().tree, Comps(foldername))) ==> fs.dirs == old(fs.dirs)
    ensures old(Shown(fs.Now().tree, Comps(foldername))) ==> fs.Now() == old(fs.Now())
  {
    hide *;
    if !Absolute(foldername) {
      SameListed(fs.Now());
      return false, [];
    }
    ghost var s0, p := fs.Now(), Comps(foldername);
    fs.Whole();
    ShownMeans(s0.tree, p);
    var f := fs.LookupFolder(foldername, sf, sd);
    ghost var s1, r1 := fs.Now(), fs.repr;
    LazilyListed(s0, s1, old(fs.repr));
    if f == null {
      return false, [];
    }
    fs.KnownFolder(f, p, sf, sd);
    ListingKept(s0, s1, p);
    ListingFresh(s1, p);
    fs.Whole();
    if f.filesDirty {
      Relist(fs, f, fs.device.dirs[Comps(foldername)].files, p, sf, sd);
      AdditiveTwice(s0, s1, fs.Now());
      fs.Whole();
      ListedFewer(s1, fs.Now(), r1, old(fs.repr));
      LazilyThenListed(s0, s1, fs.Now(), old(fs.repr));
      fs.Here(p);
    }
    fs.KnownFiles(f, p, sf, sd);
    fs.Here(p);
    ShownMeans(fs.Now().tree, p);
    return true, FileNames(f.files);
  }

  /**
   * Lists the files of a folder with a driver that fails to list it. The folder is left empty and marked clean,
   * so the tree agrees with the camera only if the camera has no files there.
   */
  method ListFilesFailing(fs: Filesystem, foldername: string) returns (found: bool, asked: bool)
    requires Agreeing(fs) && Absolute(foldername)
    modifies fs`dirs, fs`repr, fs.lru, fs.repr
    ensures fs.Intact() && fs.repr >= old(fs.repr) && fresh(fs.repr - old(fs.repr)) && fs.device == old(fs.device)
    ensures found <==> Comps(foldername) in fs.device.dirs
    ensures asked <==> found && !old(Shown(fs.Now().tree, Comps(foldername)))
    ensures Agreeing(fs) <==> !(asked && fs.device.dirs[Comps(foldername)].files != [])
    ensures old(Faithful(fs.Now())) ==> Faithful(fs.Now())
  {
    hide *;
    ghost var s0, p, known := fs.Now(), Comps(foldername), fs.repr;
    SoundMeans(fs);
    NothingStale(p);
    ShownMeans(s0.tree, p);
    fs.Here(p);
    var f := fs.LookupFolder(foldername, map[], map[]);
    ghost var s1 := fs.Now();
    SoundMeans(fs);
    LazilyListed(s0, s1, known);
    ListedKeeps(s0, s1, known);
    if f == null {
      return false, false;
    }
    fs.KnownFolder(f, p, map[], map[]);
    VirginMeans(s1.tree, p);
    if !f.filesDirty {
      return true, false;
    }
    EmptiedIs(s1, p);
    fs.DeleteAllFiles(f, p);
    fs.Here(p);
    fs.SetFlags(f, false, f.foldersDirty, p);
    SoundMeans(fs);
    EmptiedFaithful(s1, p);
    if fs.device.dirs[Comps(foldername)].files == [] {
      EmptiedAgrees(s1, p);
    } else {
      EmptiedAgreesOnlyIfEmpty(s1, p);
    }
    return true, true;
  }

  lemma VirginMeans(t: Tree, p: Path)
    ensures Virgin(t, p) ==> p in t && t[p].filesDirty && t[p].foldersDirty && t[p].files == [] && t[p].folders == []
  {
  }

  datatype Looked = Found(folder: FolderNode, index: nat) | NoDirectory | NoFile

  /** Finds a file in a folder, listing whatever was not listed yet. */
  method LookupFile(fs: Filesystem, foldername: string, filename: Name, ghost sf: Stale, ghost sd: Stale)
    returns (r: Looked)
    requires fs.Intact() && Coherent(fs.Now(), sf, sd) && Absolute(foldername)
    modifies fs`dirs, fs`repr, fs.lru, fs.repr
    ensures fs.Intact() && Coherent(fs.Now(), sf, sd) && fs.repr >= old(fs.repr) && fresh(fs.repr - old(fs.repr))
    ensures fs.device == old(fs.device) && Listed(old(fs.Now()), fs.Now(), old(fs.repr))
    ensures Additive(old(fs.Now()), fs.Now())
    ensures r.NoDirectory? <==> Comps(foldername) !in fs.dirs
    ensures Fresh(sd, Comps(foldername)) ==> (r.NoDirectory? <==> Comps(foldername) !in fs.device.dirs)
    ensures Fresh(sd, Comps(foldername)) && Comps(foldername) !in sf ==>
              (r.Found? <==> IsFile(fs.device, Comps(foldername), filename))
    ensures r.Found? ==> IsAt(fs, r, Comps(foldername), filename)
    ensures !r.NoDirectory? ==> Shown(fs.Now().tree, Comps(foldername))
    ensures old(Settled(fs.Now().tree, Comps(foldername))) ==> fs.dirs == old(fs.dirs)
    ensures old(Shown(fs.Now().tree, Comps(foldername))) ==> fs.Now() == old(fs.Now())
  {
    hide *;
    ghost var s0, p := fs.Now(), Comps(foldername);
    fs.Whole();
    ShownMeans(s0.tree, p);
    var f := fs.LookupFolder(foldername, sf, sd);
    ghost var s1, r1 := fs.Now(), fs.repr;
    LazilyListed(s0, s1, old(fs.repr));
    NotThere(fs.device, p, filename);
    if f == null {
      return NoDirectory;
    }
    fs.KnownFolder(f, p, sf, sd);
    fs.Whole();
    if f.filesDirty {
      var _, _ := ListFiles(fs, foldername, sf, sd);
      AdditiveTwice(s0, s1, fs.Now());
      fs.Whole();
      ListedFewer(s1, fs.Now(), r1, old(fs.repr));
      LazilyThenListed(s0, s1, fs.Now(), old(fs.repr));
    }
    ShownMeans(fs.Now().tree, p);
    fs.Here(p);
    var i := fs.FindFile(f, filename);
    Lookup(fs, f, i, p, filename, sf, sd);
    if i < |f.files| {
      r := Found(f, i);
    } else {
      r := NoFile;
    }
  }

  lemma NotThere(c: Device, p: Path, n: Name)
    ensures p !in c.dirs ==> !IsFile(c, p, n)
  {
  }

  /** What looking through the files of a listed folder says about the camera. */
  lemma Lookup(fs: Filesystem, f: FolderNode, i: nat, p: Path, filename: Name, sf: Stale, sd: Stale)
    requires fs.Intact() && Coherent(fs.Now(), sf, sd) && p in fs.dirs && fs.dirs[p] == f
    requires Settled(fs.Now().tree, p) && !f.filesDirty
    requires i <= |f.files| && (i < |f.files| ==> f.files[i].name == filename)
    requires i == |f.files| <==> filename !in FileNames(f.files)
    ensures Shown(fs.Now().tree, p)
    ensures i < |f.files| ==> IsAt(fs, Found(f, i), p, filename)
    ensures p !in sf ==> (i < |f.files| <==> IsFile(fs.device, p, filename))
  {
    assert FileAgrees(fs.Snap()[p], fs.device, sf, p);
  }

  ghost predicate IsAt(fs: Filesystem, r: Looked, p: Path, filename: Name)
    requires r.Found?
    reads fs, fs.dirs.Values
  {
    p in fs.dirs && fs.dirs[p] == r.folder && r.index < |r.folder.files| && r.folder.files[r.index].name == filename
  }

  // ------------------------------------------------------------------
  // Deleting files
  // ------------------------------------------------------------------

  /** The filesystem is intact, and its tree agrees with the camera. */
  ghost predicate Agreeing(fs: Filesystem)
    reads fs, fs.dirs.Values, fs.lru, fs.lru.items, Live(fs.Snap()), fs.ledger, fs.ledger.files
  {
    fs.Intact() && Coherent(fs.Now(), map[], map[])
  }

  /** Besides, all cached data is the camera's own. */
  ghost predicate Sound(fs: Filesystem)
    reads fs, fs.dirs.Values, fs.lru, fs.lru.items, Live(fs.Snap()), fs.ledger, fs.ledger.files
  {
    Agreeing(fs) && Faithful(fs.Now())
  }

  lemma SoundMeans(fs: Filesystem)
    ensures Agreeing(fs) <==> fs.Intact() && Coherent(fs.Now(), map[], map[])
    ensures Sound(fs) <==> Agreeing(fs) && Faithful(fs.Now())
    ensures fs.Intact() ==> Proper(fs.Now()) && InTree(fs.Now()) && AllCached(fs.Now())
    ensures fs.Intact() ==> LegalDevice(fs.device) && fs.Now().device == fs.device
    ensures fs.Intact() ==> Distinct(fs.Now().items) && forall n :: n in Live(fs.Now().tree) ==> n in fs.repr
    ensures fs.Intact() ==> fs.ledger !in fs.repr && forall f :: f in fs.ledger.files ==> f in fs.repr
  {
    if fs.Intact() {
      fs.Whole();
    }
  }

  lemma AtMeans(fs: Filesystem, r: Looked, p: Path, filename: Name)
    requires r.Found? && IsAt(fs, r, p, filename) && Agreeing(fs)
    ensures p in fs.dirs && fs.dirs[p] == r.folder && r.index < |r.folder.files|
    ensures p in fs.Now().tree && p in fs.device.dirs && fs.Now().device == fs.device
    ensures fs.Now().tree[p].files == r.folder.files && r.folder.files[r.index].name == filename
    ensures LegalDir(fs.device.dirs[p]) && Distinct(fs.device.dirs[p].files)
  {
    fs.KnownFolder(r.folder, p, map[], map[]);
  }

  datatype Outcome = Done | PathNotAbsolute | DirectoryNotFound | FileNotFound | DirectoryExists | FileExists | Refused

  /** Deletes a file on the camera, which may refuse, and then from the tree. */
  method DeleteFile(fs: Filesystem, foldername: string, filename: Name, refused: set<Name>) returns (r: Outcome)
    requires Agreeing(fs)
    modifies fs, fs.lru, fs.repr
    ensures Agreeing(fs) && fs.repr >= old(fs.repr) && fresh(fs.repr - old(fs.repr))
    ensures old(Faithful(fs.Now())) ==> Faithful(fs.Now())
    ensures Unfed(old(fs.Now()), fs.Now(), old(fs.repr))
    ensures var c, p := old(fs.device), Comps(foldername);
      && r == (if !Absolute(foldername) then PathNotAbsolute else if p !in c.dirs then DirectoryNotFound
               else if !IsFile(c, p, filename) then FileNotFound
               else if filename in refused then Refused else Done)
      && fs.device == (if r == Done then Refilled(c, p, Without(c.dirs[p].files, filename)) else c)
    ensures Absolute(foldername) && Comps(foldername) in fs.device.dirs ==> Shown(fs.Now().tree, Comps(foldername))
    ensures old(Settled(fs.Now().tree, Comps(foldername))) ==> fs.dirs == old(fs.dirs)
    ensures SparesBut(old(fs.Now()), fs.Now(), Comps(foldername), filename)
    ensures r != Done ==> Additive(old(fs.Now()), fs.Now())
  {
    hide *;
    ghost var s0, p, known := fs.Now(), Comps(foldername), fs.repr;
    if !Absolute(foldername) {
      SameListed(s0);
      AdditiveThenBut(s0, s0, s0, p, filename);
      return PathNotAbsolute;
    }
    SoundMeans(fs);
    NothingStale(p);
    var l := LookupFile(fs, foldername, filename, map[], map[]);
    ghost var s1 := fs.Now();
    SoundMeans(fs);
    ListedKeeps(s0, s1, known);
    NotThere(fs.device, p, filename);
    AdditiveSame(s1);
    AdditiveThenBut(s0, s1, s1, p, filename);
    match l {
      case NoDirectory => return DirectoryNotFound;
      case NoFile => return FileNotFound;
      case Found(f, i) =>
        if filename in refused {
          return Refused;
        }
        AtMeans(fs, l, p, filename);
        RefilledLegal(fs.device, p, Without(fs.device.dirs[p].files, filename));
        var left := Without(fs.device.dirs[Comps(foldername)].files, filename);
        fs.SetDevice(Refilled(fs.device, Comps(foldername), left));
        fs.DeleteFile(f, i, p);
        FileGoneIs(s1, p, i);
        FileDeleted(s1, p, i);
        SoundMeans(fs);
        UnfedTwice(s0, s1, fs.Now(), known);
        AdditiveThenBut(s0, s1, fs.Now(), p, filename);
        return Done;
    }
  }

  /** Deletes the last of the listed files that are left. */
  method DeleteNext(fs: Filesystem, foldername: string, names: seq<Name>, x: nat, refused: set<Name>,
                    ghost c: Device, ghost left: seq<Name>)
    returns (r: Outcome)
    requires Agreeing(fs) && Absolute(foldername) && Shown(fs.Now().tree, Comps(foldername))
    requires FilesTaken(c, fs.device, Comps(foldername), left)
    requires x < |names| && Distinct(names) && SameNames(names[..x + 1], left)
    modifies fs, fs.lru, fs.repr
    ensures Agreeing(fs) && fs.repr >= old(fs.repr) && fresh(fs.repr - old(fs.repr))
    ensures old(Faithful(fs.Now())) ==> Faithful(fs.Now())
    ensures Unfed(old(fs.Now()), fs.Now(), old(fs.repr))
    ensures Shown(fs.Now().tree, Comps(foldername)) && fs.dirs == old(fs.dirs)
    ensures names[x] in left && r == if names[x] in refused then Refused else Done
    ensures r == Refused ==> fs.device == old(fs.device)
    ensures SparesBut(old(fs.Now()), fs.Now(), Comps(foldername), names[x])
    ensures r == Done ==> FilesTaken(c, fs.device, Comps(foldername), Without(left, names[x]))
                          && SameNames(names[..x], Without(left, names[x]))
  {
    hide *;
    ghost var d, p := fs.device, Comps(foldername);
    LastTaken(names, x, left);
    SomeTaken(c, d, p, left, Without(left, names[x]));
    IsFileMeans(d, p, names[x]);
    ShownMeans(fs.Now().tree, p);
    r := DeleteFile(fs, foldername, names[x], refused);
  }

  /** Deletes the files of a folder one by one, the last one listed first, until the camera refuses one. */
  method DeleteOneByOne(fs: Filesystem, foldername: string, refused: set<Name>) returns (r: Outcome)
    requires Agreeing(fs) && Absolute(foldername)
    modifies fs, fs.lru, fs.repr
    ensures Agreeing(fs) && fs.repr >= old(fs.repr) && fresh(fs.repr - old(fs.repr))
    ensures old(Faithful(fs.Now())) ==> Faithful(fs.Now())
    ensures Unfed(old(fs.Now()), fs.Now(), old(fs.repr))
    ensures var p := Comps(foldername); Cleared(old(fs.device), fs.device, p, ListingOf(old(fs.Now()), p), refused, r)
    ensures !r.DirectoryNotFound? ==> Shown(fs.Now().tree, Comps(foldername))
    ensures old(Settled(fs.Now().tree, Comps(foldername))) ==> fs.dirs == old(fs.dirs)
    ensures SparesOutside(old(fs.Now()), fs.Now(), Comps(foldername))
  {
    hide *;
    ghost var s0, p, known, c, dirs := fs.Now(), Comps(foldername), fs.repr, fs.device, fs.dirs;
    ghost var settled := Settled(fs.Now().tree, p);
    SoundMeans(fs);
    NothingStale(p);
    var found, names := ListFiles(fs, foldername, map[], map[]);
    ghost var s1 := fs.Now();
    SoundMeans(fs);
    ListedKeeps(s0, s1, known);
    AdditiveSame(s1);
    OutsideTwice(s0, s1, s1, p);
    if !found {
      ClearedMeans(c, c, p, ListingOf(s0, p), [], refused, DirectoryNotFound);
      return DirectoryNotFound;
    }
    DistinctListing(s1, p, names);
    NoneTaken(c, p);
    ghost var left := c.dirs[p].files;
    ShownMeans(fs.Now().tree, p);
    assert names[..|names|] == names;
    for x := |names| downto 0
      invariant Agreeing(fs) && fs.repr >= known && fresh(fs.repr - known) && Shown(fs.Now().tree, p)
      invariant Faithful(s0) ==> Faithful(fs.Now())
      invariant Unfed(s0, fs.Now(), known) && (settled ==> fs.dirs == dirs)
      invariant SparesOutside(s0, fs.Now(), p)
      invariant FilesTaken(c, fs.device, p, left) && SameNames(names[..x], left)
      invariant forall n :: n in left ==> n in c.dirs[p].files
      invariant forall n :: n in c.dirs[p].files && n !in left ==> n !in refused
      invariant forall j :: x <= j < |names| ==> names[j] !in refused
    {
      ghost var s2, more := fs.Now(), fs.repr;
      SoundMeans(fs);
      r := DeleteNext(fs, foldername, names, x, refused, c, left);
      SoundMeans(fs);
      UnfedFewer(s2, fs.Now(), more, known);
      UnfedTwice(s0, s2, fs.Now(), known);
      OutsideThenBut(s0, s2, fs.Now(), p, names[x]);
      if r != Done {
        IsStopped(names, x, refused, left);
        ClearedMeans(c, fs.device, p, names, left, refused, Refused);
        return Refused;
      }
      left := Without(left, names[x]);
    }
    assert names[..0] == [];
    NoNames(left);
    ClearedMeans(c, fs.device, p, names, left, refused, Done);
    return Done;
  }

  /**
   * Deleting names from the last one on stopped at a refused one: the files that are left are those up to the last
   * refused one.
   */
  ghost predicate StoppedAt(names: seq<Name>, k: int, refused: set<Name>, left: seq<Name>) {
    && 0 <= k < |names| && names[k] in refused
    && (forall j :: k < j < |names| ==> names[j] !in refused)
    && SameNames(names[..k + 1], left)
  }

  ghost predicate Stopped(names: seq<Name>, refused: set<Name>, left: seq<Name>) {
    exists k :: StoppedAt(names, k, refused, left)
  }

  lemma IsStopped(names: seq<Name>, x: nat, refused: set<Name>, left: seq<Name>)
    requires x < |names| && names[x] in refused && SameNames(names[..x + 1], left)
    requires forall j :: x + 1 <= j < |names| ==> names[j] !in refused
    ensures Stopped(names, refused, left)
  {
    assert StoppedAt(names, x, refused, left);
  }

  /**
   * How far a folder was cleared whose files are listed as `names`: completely, unless the camera refused to delete
   * one of its files; then it still has those up to the last refused one, and no others.
   */
  ghost predicate Cleared(c: Device, d: Device, p: Path, names: seq<Name>, refused: set<Name>, r: Outcome) {
    if p !in c.dirs then r == DirectoryNotFound && d == c
    else
      && p in d.dirs && FilesTaken(c, d, p, d.dirs[p].files)
      && (forall n :: n in d.dirs[p].files ==> n in c.dirs[p].files)
      && r == (if exists n :: n in c.dirs[p].files && n in refused then Refused else Done)
      && (r == Done ==> d.dirs[p].files == [])
      && (r == Refused ==> Stopped(names, refused, d.dirs[p].files))
      && (forall n :: n in c.dirs[p].files && n in refused ==> n in d.dirs[p].files)
  }

  lemma ClearedMeans(c: Device, d: Device, p: Path, names: seq<Name>, left: seq<Name>, refused: set<Name>, r: Outcome)
    requires if p !in c.dirs then r == DirectoryNotFound && d == c
      else
        && FilesTaken(c, d, p, left) && (forall n :: n in left ==> n in c.dirs[p].files)
        && r == (if exists n :: n in left && n in refused then Refused else Done)
        && (r == Done ==> left == [])
        && (r == Refused ==> Stopped(names, refused, left))
        && (forall n :: n in c.dirs[p].files && n !in left ==> n !in refused)
    ensures Cleared(c, d, p, names, refused, r)
  {
    hide Stopped;
  }

  /** How the driver's call for deleting a whole folder ends: a failure may have deleted some of the files. */
  datatype DriverClear = Unsupported | Succeeds | Fails(left: seq<Name>)

  /**
   * Has the driver delete all files of a folder by one call. Until the deletion is known to be complete, nobody
   * knows which files are left, and the folder is marked.
   */
  method ClearMarked(fs: Filesystem, foldername: string, f: FolderNode, driver: DriverClear, refused: set<Name>)
    returns (r: Outcome)
    requires Agreeing(fs) && Absolute(foldername) && !driver.Unsupported?
    requires Comps(foldername) in fs.dirs && fs.dirs[Comps(foldername)] == f
    requires Settled(fs.Now().tree, Comps(foldername)) && Comps(foldername) in fs.device.dirs
    requires driver.Fails? ==>
      Distinct(driver.left) && forall n :: n in driver.left ==> n in fs.device.dirs[Comps(foldername)].files
    modifies fs, fs.lru, fs.repr
    ensures Agreeing(fs) && fs.repr >= old(fs.repr) && fresh(fs.repr - old(fs.repr))
    ensures old(Faithful(fs.Now())) ==> Faithful(fs.Now())
    ensures Unfed(old(fs.Now()), fs.Now(), old(fs.repr))
    ensures var c, p := old(fs.device), Comps(foldername);
      if driver.Succeeds? then r == Done && fs.device == Refilled(c, p, [])
      else
        && Cleared(Refilled(c, p, driver.left), fs.device, p, driver.left, refused, r)
        && !r.DirectoryNotFound? && !r.PathNotAbsolute?
    ensures Shown(fs.Now().tree, Comps(foldername))
    ensures SparesOutside(old(fs.Now()), fs.Now(), Comps(foldername))
  {
    hide *;
    ghost var s1, p, known, c := fs.Now(), Comps(foldername), fs.repr, fs.device;
    SoundMeans(fs);
    fs.KnownFolder(f, p, map[], map[]);
    fs.SetFlags(f, true, f.foldersDirty, p);
    var left := if driver.Succeeds? then [] else driver.left;
    NoneLeft();
    RefilledLegal(fs.device, p, left);
    fs.SetDevice(Refilled(fs.device, Comps(foldername), left));
    ghost var s2, more := fs.Now(), fs.repr;
    ProperMeans(s1);
    FlagsUnfed(s1, p, true, s1.tree[p].foldersDirty, fs.device);
    DirtyAgrees(s1, p, left);
    SoundMeans(fs);
    RefilledAt(c, p, left);
    fs.Here(p);
    ListingOfMarked(s1, p, left);
    if driver.Fails? {
      r := DeleteOneByOne(fs, foldername, refused);
      ClearedDone(Refilled(c, p, left), fs.device, p, left, refused, r);
      ShownMeans(fs.Now().tree, p);
      fs.Here(p);
      if r == Done {
        SameFlags(fs.Now(), p);
        SoundMeans(fs);
        fs.SetFlags(f, false, f.foldersDirty, p);
      }
    } else {
      EmptiedIs(s2, p);
      EmptiedAgrees(s2, p);
      EmptiedFaithful(s2, p);
      fs.DeleteAllFiles(f, p);
      fs.Here(p);
      fs.SetFlags(f, false, f.foldersDirty, p);
      r := Done;
    }
    SoundMeans(fs);
    UnfedFewer(s2, fs.Now(), more, known);
    UnfedTwice(s1, s2, fs.Now(), known);
    OutsideTwice(s1, s2, fs.Now(), p);
  }

  lemma NoneLeft()
    ensures Distinct<Name>([])
  {
  }

  /** Deletes all files of a folder: by one call of the driver, or one by one if that is not possible. */
  method DeleteAll(fs: Filesystem, foldername: string, driver: DriverClear, refused: set<Name>) returns (r: Outcome)
    requires Agreeing(fs)
    requires driver.Fails? && Comps(foldername) in fs.device.dirs ==>
               Distinct(driver.left) && forall n :: n in driver.left ==> n in fs.device.dirs[Comps(foldername)].files
    modifies fs, fs.lru, fs.repr
    ensures Agreeing(fs) && fs.repr >= old(fs.repr) && fresh(fs.repr - old(fs.repr))
    ensures old(Faithful(fs.Now())) ==> Faithful(fs.Now())
    ensures Unfed(old(fs.Now()), fs.Now(), old(fs.repr))
    ensures !Absolute(foldername) ==> r == PathNotAbsolute && fs.device == old(fs.device)
    ensures Absolute(foldername) && Comps(foldername) !in old(fs.device).dirs ==>
      r == DirectoryNotFound && fs.device == old(fs.device)
    ensures var c, p := old(fs.device), Comps(foldername); Absolute(foldername) && p in c.dirs ==>
      match driver
      case Unsupported => Cleared(c, fs.device, p, ListingOf(old(fs.Now()), p), refused, r)
      case Succeeds => r == Done && fs.device == Refilled(c, p, [])
      case Fails(left) => Cleared(Refilled(c, p, left), fs.device, p, left, refused, r)
    ensures Absolute(foldername) && Comps(foldername) in old(fs.device).dirs ==>
      Shown(fs.Now().tree, Comps(foldername)) && SparesOutside(old(fs.Now()), fs.Now(), Comps(foldername))
    ensures r == PathNotAbsolute || r == DirectoryNotFound ==> Additive(old(fs.Now()), fs.Now())
  {
    hide *;
    if !Absolute(foldername) {
      SameListed(fs.Now());
      return PathNotAbsolute;
    }
    ghost var s0, p, known, c := fs.Now(), Comps(foldername), fs.repr, fs.device;
    SoundMeans(fs);
    NothingStale(p);
    var f := fs.LookupFolder(foldername, map[], map[]);
    ghost var s1 := fs.Now();
    SoundMeans(fs);
    LazilyListed(s0, s1, known);
    ListedKeeps(s0, s1, known);
    if f == null {
      return DirectoryNotFound;
    }
    fs.KnownFolder(f, p, map[], map[]);
    ListingKept(s0, s1, p);
    ghost var more := fs.repr;
    if driver.Unsupported? {
      r := DeleteOneByOne(fs, foldername, refused);
      ClearedDone(c, fs.device, p, ListingOf(s1, p), refused, r);
    } else {
      r := ClearMarked(fs, foldername, f, driver, refused);
    }
    SoundMeans(fs);
    UnfedFewer(s1, fs.Now(), more, known);
    UnfedTwice(s0, s1, fs.Now(), known);
    OutsideTwice(s0, s1, fs.Now(), p);
  }

  lemma ClearedDone(c: Device, d: Device, p: Path, names: seq<Name>, refused: set<Name>, r: Outcome)
    requires Cleared(c, d, p, names, refused, r) && p in c.dirs
    ensures !r.DirectoryNotFound? && !r.PathNotAbsolute?
  {
  }
}
