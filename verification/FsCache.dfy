/** Feeding the cache and reading from it. */
module FsCache {
  import opened Prelude
  import opened Lru
  import opened References
  import opened Paths
  import opened FsTree
  import opened FsAgree
  import opened FsCamera
  import opened FsSteps
  import opened FsCacheSpec
  import opened Filesystem
  import opened FsFiles

  // ------------------------------------------------------------------
  // Steps on the list
  // ------------------------------------------------------------------

  /** Counts the listed nodes that hold significant data. */
  method CountHeavy(fs: Filesystem) returns (count: nat)
    requires fs.Intact()
    ensures fs.Intact() && fs.Now() == old(fs.Now()) && fs.dirs == old(fs.dirs) && fs.repr == old(fs.repr)
    ensures count == HeavyCount(fs.Now().items, fs.Now().caches)
  {
    hide *;
    fs.Opened();
    count := fs.lru.Count();
    CountIsAll(fs);
  }

  lemma CountIsAll(fs: Filesystem)
    requires fs.Intact()
    ensures fs.lru.HeavyCount(|fs.lru.items|) == HeavyCount(fs.Now().items, fs.Now().caches)
  {
    hide Filesystem.Intact, Live;
    fs.Opened();
    CountIsCount(fs.lru, fs.Now().caches, |fs.lru.items|);
    assert fs.lru.items[|fs.lru.items|..] == [];
  }

  lemma {:induction false} CountIsCount(list: List, caches: map<FileNode, Cache>, n: nat)
    requires n <= |list.items|
    requires forall i :: 0 <= i < |list.items| ==>
      list.items[i] in caches && caches[list.items[i]] == list.items[i].Data()
    ensures list.HeavyCount(n) + HeavyCount(list.items[n..], caches) == HeavyCount(list.items, caches)
  {
    if n == 0 {
      assert list.items[0..] == list.items;
    } else {
      CountIsCount(list, caches, n - 1);
      var rest := list.items[n - 1..];
      assert rest[0] == list.items[n - 1] && rest[1..] == list.items[n..];
    }
  }

  /** Evicts the least recently fed files until no more than `keep` listed ones hold significant data. */
  method Prune(fs: Filesystem, keep: nat)
    requires fs.Intact()
    modifies fs.lru, fs.repr
    ensures fs.Intact() && fs.dirs == old(fs.dirs) && fs.repr == old(fs.repr) && fs.device == old(fs.device)
    ensures fs.Now() == Trimmed(old(fs.Now()), keep)
  {
    hide *;
    ghost var s0, dirs, repr, cam := fs.Now(), fs.dirs, fs.repr, fs.device;
    var x := CountHeavy(fs);
    while x > keep
      invariant fs.Intact() && fs.dirs == dirs && fs.repr == repr && fs.device == cam
      invariant x == HeavyCount(fs.Now().items, fs.Now().caches)
      invariant Trimmed(fs.Now(), keep) == Trimmed(s0, keep)
      decreases |fs.Now().items|
    {
      TrimmedStep(fs.Now(), keep);
      fs.NowItems();
      fs.EvictFirst();
      x := CountHeavy(fs);
    }
    TrimmedDone(fs.Now(), keep);
  }

  lemma TrimmedStep(s: State, keep: nat)
    requires HeavyCount(s.items, s.caches) > keep
    ensures s.items != [] && Trimmed(Evicted(s), keep) == Trimmed(s, keep) && |Evicted(s).items| < |s.items|
  {
  }

  lemma TrimmedDone(s: State, keep: nat)
    requires HeavyCount(s.items, s.caches) <= keep
    ensures Trimmed(s, keep) == s
  {
  }

  /** Makes room in the cache and puts a file at the end of the list. */
  method LruUpdate(fs: Filesystem, foldername: string, filename: Name, k: Kind, bytes: nat, ghost n: FileNode)
    requires fs.Intact() && Coherent(fs.Now(), map[], map[]) && Absolute(foldername) && Heavy(k)
    requires Shown(fs.Now().tree, Comps(foldername)) && IsFile(fs.device, Comps(foldername), filename)
    requires n in Live(fs.Now().tree) && n.home == Comps(foldername) && n.name == filename
    modifies fs`dirs, fs`repr, fs.lru, fs.repr
    ensures fs.Intact() && fs.dirs == old(fs.dirs) && fs.repr >= old(fs.repr) && fresh(fs.repr - old(fs.repr))
    ensures fs.device == old(fs.device)
    ensures fs.Now() == Moved(Trimmed(old(fs.Now()), fs.picturesToKeep), n, k, bytes)
  {
    hide *;
    ghost var s0, p := fs.Now(), Comps(foldername);
    Prune(fs, fs.picturesToKeep);
    TrimmedKeys(s0, fs.picturesToKeep);
    SameTree(s0, fs.Now(), fs.picturesToKeep);
    ShownMeans(s0.tree, p);
    NothingStale(p);
    var l := LookupFile(fs, foldername, filename, map[], map[]);
    OneNode(fs, l, p, filename, n);
    fs.MoveToEnd(l.folder.files[l.index], k, bytes);
  }

  lemma SameTree(a: State, b: State, keep: nat)
    requires b == Trimmed(a, keep) && Coherent(a, map[], map[])
    ensures b.tree == a.tree && Coherent(b, map[], map[])
  {
    TrimmedKeys(a, keep);
  }

  /** The file found is the only one of its name. */
  lemma OneNode(fs: Filesystem, r: Looked, p: Path, filename: Name, n: FileNode)
    requires fs.Intact() && r.Found? && IsAt(fs, r, p, filename)
    requires n in Live(fs.Now().tree) && n.home == p && n.name == filename
    ensures r.index < |r.folder.files| && r.folder.files[r.index] == n
  {
    var t := fs.Snap();
    LiveAt(t, n);
    assert WellKept(t, p);
    var i :| 0 <= i < |t[p].files| && t[p].files[i] == n;
    assert FileNames(t[p].files)[i] == filename && FileNames(t[p].files)[r.index] == filename;
  }

  /** Makes room for the data of a file that was found, and caches it. */
  method FeedNode(fs: Filesystem, foldername: string, filename: Name, k: Kind, file: Shared, node: FileNode)
    requires Agreeing(fs) && file in fs.ledger.holders && Absolute(foldername)
    requires Shown(fs.Now().tree, Comps(foldername)) && IsFile(fs.device, Comps(foldername), filename)
    requires node in Live(fs.Now().tree) && node.home == Comps(foldername) && node.name == filename
    modifies fs`dirs, fs`repr, fs.lru, fs.repr
    ensures fs.Intact() && fs.repr >= old(fs.repr) && fresh(fs.repr - old(fs.repr)) && fs.device == old(fs.device)
    ensures node in old(fs.Now().caches)
    ensures fs.Now() == Fed(old(fs.Now()), node, k, file.data, fs.picturesToKeep)
  {
    hide *;
    ghost var found := fs.Now();
    SoundMeans(fs);
    InCaches(found, node);
    Alive(fs, file);
    if Heavy(k) {
      LruUpdate(fs, foldername, filename, k, |file.Read()|, node);
    }
    var intact := fs.CheckList();
    assert intact;
    SoundMeans(fs);
    FedIs(found, node, k, file.data, fs.picturesToKeep);
    fs.CacheData(node, k, file);
  }

  lemma InCaches(s: State, n: FileNode)
    requires AllCached(s) && n in Live(s.tree)
    ensures n in s.caches
  {
  }

  /**
   * Gives the filesystem a file object with the data of a file. Besides its result it returns the state in which
   * the file was found, and the node of the file.
   */
  method SetFileNoop(fs: Filesystem, foldername: string, filename: Name, k: Kind, file: Shared)
    returns (r: Outcome, ghost found: State, ghost n: FileNode?)
    requires Agreeing(fs) && file in fs.ledger.holders
    modifies fs`dirs, fs`repr, fs.lru, fs.repr
    ensures Agreeing(fs) && fs.repr >= old(fs.repr) && fresh(fs.repr - old(fs.repr))
    ensures fs.device == old(fs.device) && Listed(old(fs.Now()), found, old(fs.repr)) && Proper(found)
    ensures Additive(old(fs.Now()), found) && Distinct(found.items)
    ensures var c, p := fs.device, Comps(foldername);
      r == (if !Absolute(foldername) then PathNotAbsolute else if p !in c.dirs then DirectoryNotFound
            else if !IsFile(c, p, filename) then FileNotFound else Done)
    ensures if r == Done
      then n != null && n in found.caches && n.home == Comps(foldername) && n.name == filename
           && Shown(found.tree, Comps(foldername))
           && fs.Now() == Fed(found, n, k, file.data, fs.picturesToKeep)
      else fs.Now() == found
    ensures old(Faithful(fs.Now())) ==>
      (Faithful(fs.Now()) <==> (r == Done ==> CamerasOwn(fs.device, Comps(foldername), filename, k, file.data)))
  {
    hide *;
    ghost var s0, p, known := fs.Now(), Comps(foldername), fs.repr;
    n := null;
    SoundMeans(fs);
    if !Absolute(foldername) {
      SameListed(s0);
      return PathNotAbsolute, s0, null;
    }
    NothingStale(p);
    var l := LookupFile(fs, foldername, filename, map[], map[]);
    found := fs.Now();
    SoundMeans(fs);
    ListedKeeps(s0, found, known);
    NotThere(fs.device, p, filename);
    match l {
      case NoDirectory => return DirectoryNotFound, found, null;
      case NoFile => return FileNotFound, found, null;
      case Found(f, i) =>
        AtNode(fs, l, p, filename);
        var node := f.files[i];
        FeedNode(fs, foldername, filename, k, file, node);
        SoundMeans(fs);
        FedFaithful(found, node, k, file.data, fs.picturesToKeep);
        return Done, found, node;
    }
  }

  /** A file that somebody holds was not freed. */
  lemma Alive(fs: Filesystem, file: Shared)
    requires fs.Intact() && file in fs.ledger.holders
    ensures !file.freed && file in fs.ledger.files
  {
    fs.ledger.OwnIsAlive(Slots(Live(fs.Snap())), file);
  }

  lemma FedIs(s: State, n: FileNode, k: Kind, data: seq<Byte>, keep: nat)
    requires n in s.caches
    ensures Moved(Trimmed(s, keep), n, k, |data|).tree == s.tree
    ensures n in Trimmed(s, keep).caches && n in Moved(Trimmed(s, keep), n, k, |data|).caches
    ensures Fed(s, n, k, data, keep)
      == Cached(if Heavy(k) then Moved(Trimmed(s, keep), n, k, |data|) else s, n, k, data)
  {
    TrimmedKeys(s, keep);
  }

  /** The node of a file that was found. */
  lemma AtNode(fs: Filesystem, r: Looked, p: Path, filename: Name)
    requires r.Found? && IsAt(fs, r, p, filename) && fs.Intact() && Shown(fs.Now().tree, p)
    ensures r.index < |r.folder.files|
    ensures var n := r.folder.files[r.index];
      && n in Live(fs.Now().tree) && n in fs.Now().caches && n.home == p && n.name == filename && n in fs.repr
      && p in fs.Now().tree && !fs.Now().tree[p].filesDirty
  {
    var t := fs.Snap();
    assert WellKept(t, p) && t[p].files == r.folder.files;
    assert r.folder.files[r.index] in t[p].files;
  }

  // ------------------------------------------------------------------
  // Reading
  // ------------------------------------------------------------------

  datatype Fetched = Got(data: seq<Byte>) | Failed(why: Outcome)

  /** What asking the camera directly for data of a file gives. */
  function Direct(c: Device, p: Path, n: Name, k: Kind): Fetched {
    if p !in c.dirs then Failed(DirectoryNotFound)
    else if !IsFile(c, p, n) then Failed(FileNotFound)
    else if (p, n, k) in c.data then Got(c.data[(p, n, k)])
    else Failed(Refused)
  }

  /** What is cached for a file. */
  ghost predicate CachedAs(s: State, p: Path, n: Name, k: Kind, data: seq<Byte>) {
    && p in s.tree
    && exists m :: m in s.tree[p].files && m.name == n && m in s.caches && k in s.caches[m] && s.caches[m][k] == data
  }

  /** A file has one node, so at most one thing is cached for it. */
  lemma CachedAsMeans(s: State, n: FileNode, k: Kind, data: seq<Byte>)
    requires Proper(s) && n in s.caches
    ensures CachedAs(s, n.home, n.name, k, data) <==> k in s.caches[n] && s.caches[n][k] == data
  {
    var t := s.tree;
    LiveAt(t, n);
    assert WellKept(t, n.home);
    forall m | m in t[n.home].files && m.name == n.name
      ensures m == n
    {
      var i :| 0 <= i < |t[n.home].files| && t[n.home].files[i] == m;
      var j :| 0 <= j < |t[n.home].files| && t[n.home].files[j] == n;
      assert FileNames(t[n.home].files)[i] == FileNames(t[n.home].files)[j];
    }
  }

  /**
   * Gets data of a file from the cache or, if it is not cached, from the camera. As long as the cache is
   * faithful the data does not tell which.
   */
  method GetFile(fs: Filesystem, foldername: string, filename: Name, k: Kind) returns (r: Fetched, fromCache: bool)
    requires Agreeing(fs)
    modifies fs`dirs, fs`repr, fs.lru, fs.repr
    ensures Agreeing(fs) && fs.repr >= old(fs.repr) && fresh(fs.repr - old(fs.repr))
    ensures fs.device == old(fs.device) && Additive(old(fs.Now()), fs.Now())
    ensures Listed(old(fs.Now()), fs.Now(), old(fs.repr)) && (old(Faithful(fs.Now())) ==> Faithful(fs.Now()))
    ensures !fromCache || old(Faithful(fs.Now())) ==>
      r == if Absolute(foldername) then Direct(fs.device, Comps(foldername), filename, k) else Failed(PathNotAbsolute)
    ensures r.Got? ==> (fromCache <==> exists data :: CachedAs(fs.Now(), Comps(foldername), filename, k, data))
    ensures fromCache ==> r.Got? && CachedAs(fs.Now(), Comps(foldername), filename, k, r.data)
    ensures old(Shown(fs.Now().tree, Comps(foldername))) ==> fs.Now() == old(fs.Now())
  {
    hide *;
    ghost var s0, p, known := fs.Now(), Comps(foldername), fs.repr;
    SoundMeans(fs);
    if !Absolute(foldername) {
      SameListed(s0);
      return Failed(PathNotAbsolute), false;
    }
    NothingStale(p);
    var l := LookupFile(fs, foldername, filename, map[], map[]);
    SoundMeans(fs);
    ListedKeeps(s0, fs.Now(), known);
    NotThere(fs.device, p, filename);
    DirectMeans(fs.device, p, filename, k);
    match l {
      case NoDirectory => return Failed(DirectoryNotFound), false;
      case NoFile => return Failed(FileNotFound), false;
      case Found(f, i) =>
        AtNode(fs, l, p, filename);
        var file := f.files[i];
        NodeData(fs, file, k);
        forall data {
          CachedAsMeans(fs.Now(), file, k, data);
        }
        if k in file.held {
          assert CachedAs(fs.Now(), p, filename, k, file.held[k].data);
          return Got(file.held[k].Read()), true;
        }
        // The driver delivers what the camera has.
        if (Comps(foldername), filename, k) in fs.device.data {
          return Got(fs.device.data[(Comps(foldername), filename, k)]), false;
        }
        return Failed(Refused), false;
    }
  }

  lemma DirectMeans(c: Device, p: Path, n: Name, k: Kind)
    ensures p !in c.dirs ==> Direct(c, p, n, k) == Failed(DirectoryNotFound) && !IsFile(c, p, n)
    ensures p in c.dirs && !IsFile(c, p, n) ==> Direct(c, p, n, k) == Failed(FileNotFound)
    ensures IsFile(c, p, n) ==>
              Direct(c, p, n, k) == (if (p, n, k) in c.data then Got(c.data[(p, n, k)]) else Failed(Refused))
  {
  }

  /** What a file holds is alive, and in a listed folder it is the camera's data as long as the cache is faithful. */
  lemma NodeData(fs: Filesystem, n: FileNode, k: Kind)
    requires fs.Intact() && n in Live(fs.Now().tree)
    requires n.home in fs.Now().tree && !fs.Now().tree[n.home].filesDirty
    ensures n in fs.Now().caches && (k in fs.Now().caches[n] <==> k in n.held)
    ensures k in n.held ==> !n.held[k].freed && fs.Now().caches[n][k] == n.held[k].data
    ensures Faithful(fs.Now()) && k in n.held ==>
      (n.home, n.name, k) in fs.device.data && fs.device.data[(n.home, n.name, k)] == n.held[k].data
  {
    hide Filesystem.Shaped, Filesystem.Threaded, Live, LegalDevice;
    assert Faithful(fs.Now()) ==> DataAgrees(fs.Now(), n);
    if k in n.held {
      SlotHere(Live(fs.Snap()), n, k);
      fs.ledger.HeldIsAlive(Slots(Live(fs.Snap())), (n, k));
    }
  }
}
