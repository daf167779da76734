/** When the cached folder tree agrees with the camera, and how each step keeps it so. */
module FsAgree {
  import opened Prelude
  import opened Lru
  import opened Paths
  import opened FsTree

  ghost predicate SameNames(cached: seq<Name>, listed: seq<Name>) {
    forall x :: x in cached <==> x in listed
  }

  lemma NoFolderNames()
    ensures forall l: seq<Name> :: SameNames(FolderNames([]), l[..0])
  {
  }

  lemma NamesWith(f: FolderNode, s: seq<FolderNode>)
    ensures FolderNames([f] + s) == [f.name] + FolderNames(s)
  {
  }

  /** The names of a listing in the opposite order: each folder is hung in front of those hung before it. */
  predicate BackToFront(names: seq<Name>, list: seq<Name>) {
    |names| == |list| && forall i :: 0 <= i < |names| ==> names[i] == list[|list| - 1 - i]
  }

  lemma BackToFrontAt(names: seq<Name>, list: seq<Name>)
    requires BackToFront(names, list)
    ensures |names| == |list| && forall i :: 0 <= i < |names| ==> names[i] == list[|names| - 1 - i]
  {
  }

  lemma NothingHung()
    ensures forall l: seq<Name> :: BackToFront(FolderNames([]), l[..0])
  {
  }

  lemma HungInFront(names: seq<Name>, list: seq<Name>, y: nat)
    requires y < |list| && BackToFront(names, list[..y])
    ensures BackToFront([list[y]] + names, list[..y + 1])
  {
  }

  /** The next name of a listing is not among the earlier ones. */
  lemma NextName(cached: seq<Name>, list: seq<Name>, y: nat)
    requires y < |list| && Distinct(list) && SameNames(cached, list[..y])
    ensures list[y] !in cached && list[y] in list
    ensures SameNames([list[y]] + cached, list[..y + 1])
    ensures SameNames(cached + [list[y]], list[..y + 1])
  {
  }

  /** Listings that the camera has outgrown, for folders whose cached names may still be those. */
  type Stale = map<Path, seq<Name>>

  /** The names cached for a folder are the camera's, or an outgrown listing of it. */
  ghost predicate Current(cached: seq<Name>, listed: seq<Name>, stale: Stale, p: Path) {
    SameNames(cached, listed) || (p in stale && SameNames(cached, stale[p]))
  }

  lemma SameIsCurrent(cached: seq<Name>, listed: seq<Name>, stale: Stale, p: Path)
    requires SameNames(cached, listed)
    ensures Current(cached, listed, stale, p)
  {
  }

  /** A clean folder caches exactly the camera's subfolders; every cached folder exists. */
  ghost predicate FolderAgrees(d: Dir, c: Device, stale: Stale, p: Path) {
    && p in c.dirs
    && (!d.foldersDirty ==> Current(FolderNames(d.folders), c.dirs[p].folders, stale, p))
  }

  ghost predicate FoldersAgree(t: Tree, c: Device, stale: Stale) {
    forall p {:trigger FolderAgrees(t[p], c, stale, p)} :: p in t ==> FolderAgrees(t[p], c, stale, p)
  }

  /** A clean folder caches exactly the camera's files. */
  ghost predicate FileAgrees(d: Dir, c: Device, stale: Stale, p: Path) {
    !d.filesDirty ==> p in c.dirs && Current(FileNames(d.files), c.dirs[p].files, stale, p)
  }

  ghost predicate FilesAgree(t: Tree, c: Device, stale: Stale) {
    forall p {:trigger FileAgrees(t[p], c, stale, p)} :: p in t ==> FileAgrees(t[p], c, stale, p)
  }

  /** No surviving folder has its files touched; new folders have none and are dirty. */
  ghost predicate FileKept(t: Tree, u: Tree, p: Path)
    requires p in u
  {
    || (p in t && u[p].node == t[p].node && u[p].files == t[p].files && u[p].filesDirty == t[p].filesDirty)
    || (u[p].files == [] && u[p].filesDirty)
  }

  ghost predicate FilesKept(t: Tree, u: Tree) {
    forall p {:trigger FileKept(t, u, p)} :: p in u ==> FileKept(t, u, p)
  }

  lemma FilesKeptTwice(t: Tree, u: Tree, v: Tree)
    requires FilesKept(t, u) && FilesKept(u, v)
    ensures FilesKept(t, v)
  {
    forall p | p in v
      ensures FileKept(t, v, p)
    {
      assert FileKept(u, v, p);
      assert p in u ==> FileKept(t, u, p);
    }
  }

  lemma FilesKeptAgree(t: Tree, u: Tree, c: Device, stale: Stale)
    requires FilesKept(t, u) && FilesAgree(t, c, stale)
    ensures FilesAgree(u, c, stale)
  {
    forall p | p in u
      ensures FileAgrees(u[p], c, stale, p)
    {
      assert FileKept(t, u, p);
      assert p in t ==> FileAgrees(t[p], c, stale, p);
    }
  }

  lemma FilesKeptSame(t: Tree)
    ensures FilesKept(t, t)
  {
  }

  /** Hanging a folder the camera has under a folder whose listing is open. */
  lemma WithFolderAgrees(t: Tree, p: Path, f: FolderNode, c: Device, stale: Stale)
    requires FoldersAgree(t, c, stale) && p in t && p + [f.name] in c.dirs
    requires t[p].foldersDirty
    ensures FoldersAgree(WithFolder(t, p, f), c, stale) && FilesKept(t, WithFolder(t, p, f))
  {
    var u := WithFolder(t, p, f);
    forall q | q in u
      ensures FolderAgrees(u[q], c, stale, q) && FileKept(t, u, q)
    {
      assert q in t ==> FolderAgrees(t[q], c, stale, q);
    }
  }

  lemma PrunedAgrees(t: Tree, p: Path, c: Device, stale: Stale)
    requires FoldersAgree(t, c, stale) && p in t && t[p].foldersDirty
    ensures FoldersAgree(Pruned(t, p), c, stale) && FilesKept(t, Pruned(t, p))
  {
    var u := Pruned(t, p);
    forall q | q in u
      ensures FolderAgrees(u[q], c, stale, q) && FileKept(t, u, q)
    {
      assert FolderAgrees(t[q], c, stale, q);
    }
  }

  /** Marking a folder clean once its listing is complete. */
  lemma ListedAgrees(t: Tree, p: Path, c: Device, stale: Stale)
    requires FoldersAgree(t, c, stale) && p in t && p in c.dirs
    requires Current(FolderNames(t[p].folders), c.dirs[p].folders, stale, p)
    ensures var u := WithFlags(t, p, t[p].filesDirty, false); FoldersAgree(u, c, stale) && FilesKept(t, u)
  {
    var u := WithFlags(t, p, t[p].filesDirty, false);
    forall q | q in u
      ensures FolderAgrees(u[q], c, stale, q) && FileKept(t, u, q)
    {
      assert FolderAgrees(t[q], c, stale, q);
    }
  }

  // ------------------------------------------------------------------
  // Looking up
  // ------------------------------------------------------------------

  /** A folder as it is when first hung into the tree. */
  ghost predicate Virgin(t: Tree, p: Path) {
    p in t && t[p] == Dir(t[p].node, true, true, [], [])
  }

  ghost predicate ChildrenVirgin(t: Tree, p: Path) {
    p in t && forall g :: g in t[p].folders ==> Virgin(t, p + [g.name])
  }

  lemma NoChildren(t: Tree, p: Path)
    requires p in t && t[p].folders == []
    ensures ChildrenVirgin(t, p)
  {
  }

  lemma VirginChild(t: Tree, p: Path, i: nat)
    requires ChildrenVirgin(t, p) && i < |t[p].folders|
    ensures Virgin(t, p + [t[p].folders[i].name])
  {
    assert t[p].folders[i] in t[p].folders;
  }

  lemma VirginIsDirty(t: Tree, p: Path)
    requires Virgin(t, p)
    ensures t[p].foldersDirty
  {
  }

  /** Every folder on the way to p has been listed. */
  ghost predicate Settled(t: Tree, p: Path) {
    forall k {:trigger p[..k]} :: 0 <= k < |p| ==> p[..k] in t && !t[p[..k]].foldersDirty
  }

  lemma SettledRoot(t: Tree)
    ensures Settled(t, [])
  {
  }

  lemma SettledStep(t: Tree, p: Path, n: Name)
    requires Settled(t, p) && p in t && !t[p].foldersDirty
    ensures Settled(t, p + [n])
  {
    forall k | 0 <= k < |p| + 1
      ensures (p + [n])[..k] in t && !t[(p + [n])[..k]].foldersDirty
    {
      if k == |p| {
        assert (p + [n])[..k] == p;
      } else {
        assert (p + [n])[..k] == p[..k];
      }
    }
  }

  /** On the way to a path there is a component that its listed folder does not have. */
  ghost predicate StuckAt(t: Tree, all: Path, k: nat)
    requires k < |all|
  {
    Settled(t, all[..k + 1]) && all[..k + 1] !in t
  }

  ghost predicate Stuck(t: Tree, all: Path) {
    exists k: nat :: k < |all| && StuckAt(t, all, k)
  }

  lemma IsStuck(t: Tree, all: Path, k: nat)
    requires k < |all| && Settled(t, all[..k + 1]) && all[..k + 1] !in t
    ensures Stuck(t, all)
  {
    assert StuckAt(t, all, k);
  }

  /** What happens below a folder does not unsettle it. */
  lemma SettledAbove(t: Tree, u: Tree, p: Path)
    requires Settled(t, p)
    requires forall q :: q in t && |q| < |p| ==> q in u && u[q] == t[q]
    ensures Settled(u, p)
  {
    forall k | 0 <= k < |p|
      ensures p[..k] in u && !u[p[..k]].foldersDirty
    {
      assert p[..k] in t;
    }
  }

  lemma SettledAt(t: Tree, p: Path, k: nat)
    requires Settled(t, p) && k < |p|
    ensures p[..k] in t && !t[p[..k]].foldersDirty
  {
  }

  lemma FreshAt(stale: Stale, p: Path, k: nat)
    requires Fresh(stale, p) && k < |p|
    ensures p[..k] !in stale
  {
  }

  /** No folder on the way to p is stale. */
  ghost predicate Fresh(stale: Stale, p: Path) {
    forall k {:trigger p[..k]} :: 0 <= k < |p| ==> p[..k] !in stale
  }

  /** One more component of a path string. */
  lemma NextComponent(s: string, cur: nat, e: nat)
    requires cur < e <= |s| && (cur == 0 || s[cur - 1] == '/') && (e == |s| || s[e] == '/')
    requires forall k :: cur <= k < e ==> s[k] != '/'
    ensures var done, all, c := Comps(s[..cur]), Comps(s), s[cur..e];
      && Comps(s[..e]) == done + [c] && |done| < |all| && all[..|done|] == done && all[|done|] == c
      && all[..|done| + 1] == done + [c]
      && (e == |s| ==> all == done + [c])
  {
    hide Comps;
    var done, all, c := Comps(s[..cur]), Comps(s), s[cur..e];
    CompsOfRun(s, cur, e);
    CompsOfPrefix(s, e);
    assert all[..|done|] == all[..|done| + 1][..|done|];
    assert e == |s| ==> s[..e] == s;
  }

  /** Where the next component of a path string begins and ends, from the end of the one before. */
  function Ahead(s: string, cur: nat): (r: (nat, nat))
    requires cur <= |s| && (cur == 0 || cur == |s| || s[cur] == '/' || s[cur - 1] == '/')
    ensures cur <= r.0 <= |s| && (r.0 == |s| ==> Comps(s) == Comps(s[..cur]))
    ensures r.0 < |s| ==> r.0 < r.1 <= |s| && (r.1 < |s| ==> s[r.1] == '/')
    ensures r.0 < |s| ==> var done, all, c := Comps(s[..cur]), Comps(s), s[r.0..r.1];
      && Comps(s[..r.0]) == done && Comps(s[..r.1]) == done + [c]
      && |done| < |all| && all[..|done|] == done && all[|done|] == c && all[..|done| + 1] == done + [c]
      && (r.1 == |s| ==> all == done + [c])
    ensures r.0 < |s| && Absolute(s) ==> Absolute(s[..r.0])
  {
    var start := SkipSlashes(s, cur);
    CompsOfSlashes(s, cur, start);
    assert s[..|s|] == s;
    if start == |s| then (start, start)
    else
      var e := NextSlash(s, start);
      NextComponent(s, start, e);
      (start, e)
  }

  lemma {:induction false} CameraAncestors(c: Device, p: Path, k: nat)
    requires LegalDevice(c) && p in c.dirs && k <= |p|
    ensures p[..k] in c.dirs
    ensures k < |p| ==> p[k] in c.dirs[p[..k]].folders
    decreases |p|
  {
    assert LegalAt(c, p);
    if k == |p| {
      assert p[..k] == p;
    } else if k == |p| - 1 {
      assert p[..k] == Parent(p);
    } else {
      CameraAncestors(c, Parent(p), k);
      assert Parent(p)[..k] == p[..k];
    }
  }

  /** A name that a settled, fresh folder does not cache leads to no folder of the camera. */
  lemma MissingOnCamera(t: Tree, c: Device, stale: Stale, p: Path, k: nat)
    requires WellFormed(t) && LegalDevice(c) && FoldersAgree(t, c, stale)
    requires k < |p| && p[..k] in t && !t[p[..k]].foldersDirty && p[..k] !in stale
    requires p[k] !in FolderNames(t[p[..k]].folders)
    ensures p !in c.dirs
  {
    assert FolderAgrees(t[p[..k]], c, stale, p[..k]);
    if p in c.dirs {
      CameraAncestors(c, p, k);
    }
  }

  /** It leads to no folder of the tree either. */
  lemma MissingInTree(t: Tree, p: Path, k: nat)
    requires WellFormed(t) && k < |p| && p[..k] in t && p[k] !in FolderNames(t[p[..k]].folders)
    ensures p !in t
  {
    ChildIff(t, p[..k], p[k]);
    assert p[..k + 1] == p[..k] + [p[k]];
    if p in t {
      AncestorsIn(t, p, k + 1);
    }
  }

  // ------------------------------------------------------------------
  // Listing on demand
  // ------------------------------------------------------------------

  type Cache = map<Kind, seq<Byte>>

  /** The tree, the list threaded through it, the data cached for its files, and the camera. */
  datatype State = State(tree: Tree, items: seq<FileNode>, size: int, caches: map<FileNode, Cache>, device: Device)

  /** A folder that has been listed for files, and everything on the way to it for folders. */
  ghost predicate Shown(t: Tree, p: Path) {
    Settled(t, p) && p in t && !t[p].filesDirty
  }

  lemma ShownMeans(t: Tree, p: Path)
    ensures Shown(t, p) <==> Settled(t, p) && p in t && !t[p].filesDirty
  {
  }

  /** The names are those cached for a listed folder: the camera's, if the folder is not stale. */
  ghost predicate ShowsFiles(s: State, p: Path, names: seq<Name>, sf: Stale) {
    && Shown(s.tree, p) && names == FileNames(s.tree[p].files)
    && p in s.device.dirs && Current(names, s.device.dirs[p].files, sf, p)
  }

  /** A state that has lost the files that are not in a smaller tree, from the list too. */
  ghost function Lost(s: State, u: Tree): State {
    State(u, Minus(s.items, Live(s.tree) - Live(u)), s.size,
          map n | n in s.caches && n in Live(u) :: s.caches[n], s.device)
  }

  /** A state that has gained a file at the end of a folder. */
  ghost function Gained(s: State, p: Path, n: FileNode, cache: Cache): State
    requires p in s.tree
  {
    s.(tree := WithFiles(s.tree, p, s.tree[p].files + [n]), caches := s.caches[n := cache])
  }

  lemma LostTree(s: State, u: Tree)
    ensures Lost(s, u).tree == u && Lost(s, u).device == s.device && Lost(s, u).size == s.size
    ensures Lost(s, u).items == Minus(s.items, Live(s.tree) - Live(u)) && CachesKept(s, Lost(s, u))
  {
  }

  ghost predicate AllCached(s: State) {
    s.caches.Keys == Live(s.tree)
  }

  lemma LostNothing(s: State)
    requires AllCached(s)
    ensures Lost(s, s.tree) == s
  {
    NothingLost(s.items, Live(s.tree));
  }

  lemma LostTwice(s: State, u: Tree, v: Tree)
    requires InTree(s) && Live(v) <= Live(u) <= Live(s.tree)
    ensures Lost(Lost(s, u), v) == Lost(s, v)
  {
    hide Minus, Live;
    MinusChain(s.items, Live(s.tree), Live(u), Live(v));
  }

  /** Emptying a subfolder and removing it loses what removing it loses. */
  lemma EmptiedThenRemoved(s: State, p: Path, i: nat)
    requires WellFormed(s.tree) && InTree(s) && p in s.tree && i < |s.tree[p].folders|
    requires p + [s.tree[p].folders[i].name] in s.tree
    requires s.tree[p + [s.tree[p].folders[i].name]].folders == []
    ensures var q := p + [s.tree[p].folders[i].name]; var b := Lost(s, WithFiles(s.tree, q, []));
      && p in b.tree && q in b.tree && b.tree[p] == s.tree[p] && b.tree[q] == s.tree[q].(files := [])
      && Lost(b, WithoutFolder(b.tree, p, i)) == Lost(s, WithoutFolder(s.tree, p, i))
  {
    hide WithoutFolder, Minus, Live;
    var q := p + [s.tree[p].folders[i].name];
    var u := WithFiles(s.tree, q, []);
    ChildNode(s.tree, p, i);
    EmptiedAndRemoved(s.tree, p, i);
    LostTwice(s, u, WithoutFolder(u, p, i));
  }

  lemma WithoutFolderLoses(t: Tree, p: Path, i: nat)
    requires WellFormed(t) && p in t && i < |t[p].folders|
    requires p + [t[p].folders[i].name] in t ==> t[p + [t[p].folders[i].name]].folders == []
    ensures Live(WithoutFolder(t, p, i)) <= Live(t) && p in WithoutFolder(t, p, i)
  {
    ChildNode(t, p, i);
    EmptiedAndRemoved(t, p, i);
  }

  /** Only folders unlisted so far were affected: no file node is new, and the list lost what the tree lost. */
  ghost predicate Lazily(a: State, b: State) {
    && b.device == a.device && b.size == a.size
    && FilesKept(a.tree, b.tree)
    && Live(b.tree) <= Live(a.tree)
    && b.items == Minus(a.items, Live(a.tree) - Live(b.tree))
    && CachesKept(a, b)
    && HungBackwards(a.tree, b.tree, b.device)
  }

  /** A folder that was listed holds what it held, or the camera's folders, the last one listed first. */
  ghost predicate HungAt(t: Tree, u: Tree, c: Device, q: Path)
    requires q in u
  {
    || (q in t && !t[q].foldersDirty && u[q].folders == t[q].folders)
    || (q in c.dirs && BackToFront(FolderNames(u[q].folders), c.dirs[q].folders))
  }

  ghost predicate HungBackwards(t: Tree, u: Tree, c: Device) {
    forall q {:trigger HungAt(t, u, c, q)} :: q in u && !u[q].foldersDirty ==> HungAt(t, u, c, q)
  }

  lemma HungTwice(t: Tree, u: Tree, v: Tree, c: Device)
    requires HungBackwards(t, u, c) && HungBackwards(u, v, c)
    ensures HungBackwards(t, v, c)
  {
    forall q | q in v && !v[q].foldersDirty
      ensures HungAt(t, v, c, q)
    {
      assert HungAt(u, v, c, q);
      assert q in u && !u[q].foldersDirty ==> HungAt(t, u, c, q);
    }
  }

  /** Steps that list no folder, or one that holds the camera's folders in this order. */
  lemma HungOne(t: Tree, u: Tree, c: Device, p: Path)
    requires forall q :: q in u && q != p && !u[q].foldersDirty ==>
      q in t && !t[q].foldersDirty && u[q].folders == t[q].folders
    requires p in u && !u[p].foldersDirty ==> HungAt(t, u, c, p)
    ensures HungBackwards(t, u, c)
  {
  }

  ghost predicate CachesKept(a: State, b: State) {
    forall n :: n in b.caches ==> n in a.caches && b.caches[n] == a.caches[n]
  }

  /** A folder that holds files can be reached through listed folders only. */
  ghost predicate RootedAt(t: Tree, p: Path)
    requires p in t
  {
    t[p].files != [] ==> Settled(t, p)
  }

  ghost predicate Rooted(t: Tree) {
    forall p {:trigger RootedAt(t, p)} :: p in t ==> RootedAt(t, p)
  }

  /** Steps that keep every folder and leave listed folders listed. */
  lemma RootedGrows(t: Tree, u: Tree)
    requires Rooted(t) && forall q :: q in t ==> q in u && (u[q].foldersDirty ==> t[q].foldersDirty)
    requires forall q :: q in u && u[q].files != [] ==> (q in t && t[q].files != []) || Settled(t, q)
    ensures Rooted(u)
  {
    forall p | p in u
      ensures RootedAt(u, p)
    {
      assert p in t ==> RootedAt(t, p);
    }
  }

  /** Steps that remove folders together with everything below them. */
  lemma RootedShrinks(t: Tree, u: Tree)
    requires Rooted(t) && WellFormed(u)
    requires forall q :: q in u ==> q in t && u[q].foldersDirty == t[q].foldersDirty && u[q].files == t[q].files
    ensures Rooted(u)
  {
    hide WellFormed;
    forall p | p in u
      ensures RootedAt(u, p)
    {
      assert RootedAt(t, p);
      forall k | 0 <= k < |p|
        ensures p[..k] in u
      {
        AncestorsIn(u, p, k);
      }
    }
  }

  /** The tree agrees with the camera, except perhaps about the stale folders. */
  ghost predicate Coherent(s: State, sf: Stale, sd: Stale) {
    FoldersAgree(s.tree, s.device, sd) && FilesAgree(s.tree, s.device, sf) && Rooted(s.tree)
  }

  lemma LazilySame(a: State)
    ensures Lazily(a, a)
  {
    FilesKeptSame(a.tree);
    NothingLost(a.items, Live(a.tree));
  }

  /** Every listed node is a file of the tree. */
  ghost predicate InTree(a: State) {
    forall k :: 0 <= k < |a.items| ==> a.items[k] in Live(a.tree)
  }

  lemma LazilyTwice(a: State, b: State, c: State)
    requires Lazily(a, b) && Lazily(b, c) && InTree(a)
    ensures Lazily(a, c)
  {
    hide Minus, FilesKept, Live, HungBackwards;
    FilesKeptTwice(a.tree, b.tree, c.tree);
    HungTwice(a.tree, b.tree, c.tree, c.device);
    MinusChain(a.items, Live(a.tree), Live(b.tree), Live(c.tree));
  }

  lemma RootedPruned(t: Tree, p: Path)
    requires Rooted(t) && p in t
    ensures Rooted(Pruned(t, p))
  {
    var u := Pruned(t, p);
    forall q | q in u
      ensures RootedAt(u, q)
    {
      assert RootedAt(t, q);
      forall k | 0 <= k < |q|
        ensures q[..k] in t ==> q[..k] in u
      {
        assert |p| <= k ==> q[..|p|] == q[..k][..|p|];
      }
    }
  }

  /** Pruning below a folder whose listing is open, with the list following. */
  lemma PrunedLazily(a: State, b: State, p: Path, sf: Stale, sd: Stale)
    requires Coherent(a, sf, sd) && p in a.tree && a.tree[p].foldersDirty && Settled(a.tree, p)
    requires b == Lost(a, Pruned(a.tree, p)) && Live(b.tree) <= Live(a.tree)
    ensures Coherent(b, sf, sd) && Lazily(a, b) && Additive(a, b) && Settled(b.tree, p)
    ensures p in b.tree && b.tree[p] == a.tree[p].(folders := [])
  {
    hide CleanFiles, HungBackwards;
    HungOne(a.tree, b.tree, b.device, p);
    SparesPruned(a, b, p);
    PrunedAgrees(a.tree, p, a.device, sd);
    FilesKeptAgree(a.tree, b.tree, a.device, sf);
    SettledAbove(a.tree, b.tree, p);
    RootedPruned(a.tree, p);
  }

  lemma HungWithFolder(t: Tree, p: Path, f: FolderNode, c: Device)
    requires p in t && t[p].foldersDirty
    ensures HungBackwards(t, WithFolder(t, p, f), c)
  {
    hide HungBackwards;
    HungOne(t, WithFolder(t, p, f), c, p);
  }

  lemma WithFolderLazily(a: State, b: State, p: Path, f: FolderNode, sf: Stale, sd: Stale)
    requires Coherent(a, sf, sd) && p in a.tree && a.tree[p].foldersDirty && Settled(a.tree, p)
    requires p + [f.name] in a.device.dirs && p + [f.name] !in a.tree
    requires b.tree == WithFolder(a.tree, p, f) && Live(b.tree) == Live(a.tree)
    requires b == a.(tree := b.tree)
    ensures Coherent(b, sf, sd) && Lazily(a, b) && Additive(a, b) && Settled(b.tree, p)
    ensures p in b.tree && b.tree[p] == a.tree[p].(folders := [f] + a.tree[p].folders)
    ensures ChildrenVirgin(a.tree, p) ==> ChildrenVirgin(b.tree, p)
  {
    hide CleanFiles, HungBackwards;
    HungWithFolder(a.tree, p, f, a.device);
    SparesAll(a, b);
    WithFolderAgrees(a.tree, p, f, a.device, sd);
    FilesKeptAgree(a.tree, b.tree, a.device, sf);
    SettledAbove(a.tree, b.tree, p);
    RootedGrows(a.tree, b.tree);
    NothingLost(a.items, Live(a.tree));
    assert b.items == a.items;
  }

  lemma ListedLazily(a: State, b: State, p: Path, sf: Stale, sd: Stale)
    requires Coherent(a, sf, sd) && p in a.tree && p in a.device.dirs && Settled(a.tree, p)
    requires Current(FolderNames(a.tree[p].folders), a.device.dirs[p].folders, sd, p)
    requires a.tree[p].foldersDirty ==> BackToFront(FolderNames(a.tree[p].folders), a.device.dirs[p].folders)
    requires b == a.(tree := WithFlags(a.tree, p, a.tree[p].filesDirty, false)) && Live(b.tree) == Live(a.tree)
    ensures Coherent(b, sf, sd) && Lazily(a, b) && Additive(a, b) && Settled(b.tree, p)
    ensures p in b.tree && b.tree[p] == a.tree[p].(foldersDirty := false)
    ensures ChildrenVirgin(a.tree, p) ==> ChildrenVirgin(b.tree, p)
  {
    hide CleanFiles, HungBackwards;
    HungOne(a.tree, b.tree, b.device, p);
    SparesAll(a, b);
    ListedAgrees(a.tree, p, a.device, sd);
    FilesKeptAgree(a.tree, b.tree, a.device, sf);
    SettledAbove(a.tree, b.tree, p);
    RootedGrows(a.tree, b.tree);
    NothingLost(a.items, Live(a.tree));
  }

  // ------------------------------------------------------------------
  // What listing on demand spares
  // ------------------------------------------------------------------

  /** The files of the folders that are marked clean. */
  ghost function CleanFiles(t: Tree): set<FileNode> {
    set p, n | p in t && !t[p].filesDirty && n in t[p].files :: n
  }

  /** No file of a clean folder was lost, and its folder is still clean. */
  ghost predicate Additive(a: State, b: State) {
    CleanFiles(a.tree) <= CleanFiles(b.tree)
  }

  lemma AdditiveTwice(a: State, b: State, c: State)
    requires Additive(a, b) && Additive(b, c)
    ensures Additive(a, c)
  {
  }

  lemma AdditiveSame(a: State)
    ensures Additive(a, a)
  {
  }

  /** The files of a folder: a clean folder keeps them and stays clean. */
  ghost predicate SparedAt(t: Tree, u: Tree, p: Path)
    requires p in t
  {
    t[p].filesDirty || (p in u && !u[p].filesDirty && forall n :: n in t[p].files ==> n in u[p].files)
  }

  lemma Spares(a: State, b: State)
    requires forall p {:trigger SparedAt(a.tree, b.tree, p)} :: p in a.tree && a.tree[p].files != [] ==>
      SparedAt(a.tree, b.tree, p)
    ensures Additive(a, b)
  {
    forall n | n in CleanFiles(a.tree)
      ensures n in CleanFiles(b.tree)
    {
      var p :| p in a.tree && !a.tree[p].filesDirty && n in a.tree[p].files;
      assert SparedAt(a.tree, b.tree, p);
    }
  }

  /** Steps that keep every folder with its files and its mark. */
  lemma SparesAll(a: State, b: State)
    requires forall p :: p in a.tree ==>
      p in b.tree && b.tree[p].filesDirty == a.tree[p].filesDirty && b.tree[p].files == a.tree[p].files
    ensures Additive(a, b)
  {
    Spares(a, b);
  }

  /** A folder with files is never below one that was not listed. */
  lemma SparesPruned(a: State, b: State, p: Path)
    requires Rooted(a.tree) && p in a.tree && a.tree[p].foldersDirty && b.tree == Pruned(a.tree, p)
    ensures Additive(a, b)
  {
    forall q | q in a.tree && a.tree[q].files != []
      ensures SparedAt(a.tree, b.tree, q)
    {
      assert RootedAt(a.tree, q);
      assert |p| < |q| ==> q[..|p|] in a.tree && !a.tree[q[..|p|]].foldersDirty;
    }
    Spares(a, b);
  }
}
