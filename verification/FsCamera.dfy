/** What the driver's callbacks do to the camera, and that its folders stay a tree. */
module FsCamera {
  import opened Lru
  import opened Paths
  import opened FsTree
  import opened FsAgree

  /** A listing without one name. */
  function Without(s: seq<Name>, n: Name): (r: seq<Name>)
    ensures forall x :: x in r <==> x in s && x != n
    ensures Distinct(s) ==> Distinct(r)
  {
    if s == [] then [] else
      var rest := Without(s[1..], n);
      DistinctHead(s);
      if s[0] == n then rest else [s[0]] + rest
  }

  lemma DistinctHead(s: seq<Name>)
    requires s != []
    ensures Distinct(s) ==> Distinct(s[1..]) && s[0] !in s[1..]
  {
  }

  predicate IsFile(c: Device, p: Path, n: Name) {
    p in c.dirs && n in c.dirs[p].files
  }

  /** A folder of the camera with other files in it; the data of the files that are gone is gone. */
  function Refilled(c: Device, p: Path, files: seq<Name>): Device
    requires p in c.dirs
  {
    Device(c.dirs[p := c.dirs[p].(files := files)], map k | k in c.data && (k.0 == p ==> k.1 in files) :: c.data[k])
  }

  /** A file stored on the camera, new or in place of an old one of that name, with the data it now delivers. */
  function Stored(c: Device, p: Path, n: Name, content: Cache): Device
    requires p in c.dirs
  {
    var files := if n in c.dirs[p].files then c.dirs[p].files else c.dirs[p].files + [n];
    Device(c.dirs[p := c.dirs[p].(files := files)],
           map k | k in c.data.Keys + (set x | x in content :: (p, n, x))
             && (k.0 == p && k.1 == n ==> k.2 in content) ::
             if k.0 == p && k.1 == n then content[k.2] else c.data[k])
  }

  /** A new, empty folder on the camera. */
  function WithDir(c: Device, p: Path, n: Name): Device
    requires p in c.dirs
  {
    c.(dirs := c.dirs[p := c.dirs[p].(folders := c.dirs[p].folders + [n])][p + [n] := CamDir([], [])])
  }

  /** A folder taken off the camera with everything in it. */
  function WithoutDir(c: Device, p: Path, n: Name): Device
    requires p in c.dirs
  {
    var q := p + [n];
    Device(map r | r in c.dirs && !IsPrefix(q, r) ::
             if r == p then c.dirs[p].(folders := Without(c.dirs[p].folders, n)) else c.dirs[r],
           map k | k in c.data && !IsPrefix(q, k.0) :: c.data[k])
  }

  lemma RefilledLegal(c: Device, p: Path, files: seq<Name>)
    requires LegalDevice(c) && p in c.dirs && Distinct(files)
    ensures LegalDevice(Refilled(c, p, files))
  {
    forall q | q in c.dirs
      ensures LegalAt(Refilled(c, p, files), q)
    {
      assert LegalAt(c, q);
    }
  }

  lemma StoredLegal(c: Device, p: Path, n: Name, content: Cache)
    requires LegalDevice(c) && p in c.dirs
    ensures LegalDevice(Stored(c, p, n, content))
  {
    forall q | q in c.dirs
      ensures LegalAt(Stored(c, p, n, content), q)
    {
      assert LegalAt(c, q);
    }
  }

  lemma WithDirLegal(c: Device, p: Path, n: Name)
    requires LegalDevice(c) && p in c.dirs && LegalName(n) && n !in c.dirs[p].folders
    ensures LegalDevice(WithDir(c, p, n)) && p + [n] !in c.dirs
  {
    var d, q := WithDir(c, p, n), p + [n];
    assert Parent(q) == p && Leaf(q) == n;
    assert q in c.dirs ==> LegalAt(c, q);
    forall r | r in d.dirs
      ensures LegalAt(d, r)
    {
      assert r in c.dirs ==> LegalAt(c, r);
    }
  }

  lemma PrefixOfParent(q: Path, r: Path)
    requires r != []
    ensures IsPrefix(q, r) <==> q == r || IsPrefix(q, Parent(r))
  {
    if |q| < |r| {
      assert Parent(r)[..|q|] == r[..|q|];
    } else if |q| == |r| {
      assert r[..|q|] == r;
    }
  }

  lemma WithoutDirLegal(c: Device, p: Path, n: Name)
    requires LegalDevice(c) && p in c.dirs && n in c.dirs[p].folders
    ensures LegalDevice(WithoutDir(c, p, n)) && p in WithoutDir(c, p, n).dirs
  {
    var d, q := WithoutDir(c, p, n), p + [n];
    assert Parent(q) == p && Leaf(q) == n;
    forall r | r in d.dirs
      ensures LegalAt(d, r)
    {
      WithoutDirLegalAt(c, p, n, r);
    }
  }

  lemma WithoutDirLegalAt(c: Device, p: Path, n: Name, r: Path)
    requires LegalDevice(c) && p in c.dirs && n in c.dirs[p].folders && r in WithoutDir(c, p, n).dirs
    ensures LegalAt(WithoutDir(c, p, n), r)
  {
    var d, q := WithoutDir(c, p, n), p + [n];
    assert LegalAt(c, r);
    forall x | x in d.dirs[r].folders
      ensures r + [x] in d.dirs
    {
      PrefixOfParent(q, r + [x]);
      assert Parent(r + [x]) == r;
      assert Leaf(r + [x]) == x;
    }
    if r != [] {
      PrefixOfParent(q, r);
      assert Leaf(r) == n && Parent(r) == p ==> r == q;
    }
  }

  // ------------------------------------------------------------------
  // The cached data
  // ------------------------------------------------------------------

  /** The data cached for a file of a clean folder is the camera's own. */
  ghost predicate DataAgrees(s: State, n: FileNode)
    requires n in s.caches
  {
    n.home in s.tree && !s.tree[n.home].filesDirty ==>
      forall k :: k in s.caches[n] ==>
        (n.home, n.name, k) in s.device.data && s.device.data[(n.home, n.name, k)] == s.caches[n][k]
  }

  ghost predicate Faithful(s: State) {
    forall n {:trigger DataAgrees(s, n)} :: n in s.caches ==> DataAgrees(s, n)
  }

  // ------------------------------------------------------------------
  // Listing files on demand
  // ------------------------------------------------------------------

  /** A folder kept its files, or its files are new and nothing is cached for them. */
  ghost predicate FileListed(a: State, b: State, p: Path)
    requires p in b.tree
  {
    FileKept(a.tree, b.tree, p) || forall n :: n in b.tree[p].files ==> n in b.caches && b.caches[n] == map[]
  }

  /**
   * Nothing was fed to the cache: the list lost what the tree lost, cached data stayed, and a file that is
   * new (none of the known objects) has no data.
   */
  ghost predicate Unfed(a: State, b: State, known: set<object>) {
    && b.size == a.size
    && b.items == Minus(a.items, Live(a.tree) - Live(b.tree))
    && (forall n :: n in b.caches ==>
          (n in a.caches && b.caches[n] == a.caches[n]) || (b.caches[n] == map[] && n !in known))
  }

  lemma UnfedFewer(a: State, b: State, known: set<object>, fewer: set<object>)
    requires Unfed(a, b, known) && fewer <= known
    ensures Unfed(a, b, fewer)
  {
    hide Minus, Live;
  }

  lemma UnfedTwice(a: State, b: State, c: State, known: set<object>)
    requires Unfed(a, b, known) && Unfed(b, c, known) && InTree(a) && AllCached(a) && AllCached(b) && AllCached(c)
    requires forall n :: n in Live(a.tree) ==> n in known
    ensures Unfed(a, c, known)
  {
    hide Minus, Live;
    MinusChain(a.items, Live(a.tree), Live(b.tree), Live(c.tree));
  }

  /** Only listing on demand took place. */
  ghost predicate Listed(a: State, b: State, known: set<object>) {
    && b.device == a.device && Unfed(a, b, known)
    && forall p {:trigger FileListed(a, b, p)} :: p in b.tree ==> FileListed(a, b, p)
  }

  lemma LazilyListed(a: State, b: State, known: set<object>)
    requires Lazily(a, b)
    ensures Listed(a, b, known)
  {
    forall p | p in b.tree
      ensures FileListed(a, b, p)
    {
      assert FileKept(a.tree, b.tree, p);
    }
  }

  lemma ListedFewer(a: State, b: State, known: set<object>, fewer: set<object>)
    requires Listed(a, b, known) && fewer <= known
    ensures Listed(a, b, fewer)
  {
    hide Minus, FileListed, Live;
  }

  lemma LazilyThenListed(a: State, b: State, c: State, known: set<object>)
    requires Lazily(a, b) && Listed(b, c, known) && InTree(a) && AllCached(a) && AllCached(b) && AllCached(c)
    requires forall n :: n in Live(a.tree) ==> n in known
    ensures Listed(a, c, known)
  {
    hide Minus, FileKept, Live;
    UnfedTwice(a, b, c, known);
    forall p | p in c.tree
      ensures FileListed(a, c, p)
    {
      assert FileListed(b, c, p);
      KeptThenKept(a.tree, b.tree, c.tree, p);
    }
  }

  lemma KeptThenKept(t: Tree, u: Tree, v: Tree, p: Path)
    requires FilesKept(t, u) && p in v
    ensures FileKept(u, v, p) ==> FileKept(t, v, p)
  {
    assert p in u ==> FileKept(t, u, p);
  }

  lemma ListedFaithful(a: State, b: State, known: set<object>)
    requires Listed(a, b, known) && Faithful(a) && WellFormed(b.tree) && AllCached(b)
    ensures Faithful(b)
  {
    forall n | n in b.caches
      ensures DataAgrees(b, n)
    {
      LiveAt(b.tree, n);
      assert FileListed(a, b, n.home);
      if n in a.caches {
        assert DataAgrees(a, n);
      }
    }
  }

  /** A folder with its flags and files as listed. */
  function Filled(t: Tree, p: Path, files: seq<FileNode>): Tree
    requires p in t
  {
    t[p := t[p].(files := files, filesDirty := false)]
  }

  /** Emptying a folder, marking it clean, and adding new files is listing it. */
  lemma FilledListed(a: State, b: State, p: Path, known: set<object>)
    requires WellFormed(a.tree) && InTree(a) && AllCached(a) && p in a.tree && p in b.tree
    requires b.tree == Filled(a.tree, p, b.tree[p].files) && AllCached(b) && WellFormed(b.tree)
    requires b.items == Lost(a, WithFiles(a.tree, p, [])).items && b.size == a.size && b.device == a.device
    requires forall n :: n in Live(a.tree) ==> n in known
    requires forall n :: n in b.tree[p].files ==> n in b.caches && b.caches[n] == map[] && n !in known
    requires forall n :: n in b.caches && n !in b.tree[p].files ==> n in a.caches && b.caches[n] == a.caches[n]
    ensures Listed(a, b, known)
  {
    forall q | q in b.tree
      ensures FileListed(a, b, q)
    {
    }
    NoFilesKeeps(a.tree, p);
    WellKeptFiles(a.tree, b.tree, p);
    MinusSame(a.items, Live(a.tree) - Live(WithFiles(a.tree, p, [])), Live(a.tree) - Live(b.tree));
  }

  lemma WellKeptFiles(t: Tree, u: Tree, p: Path)
    requires WellFormed(t) && WellFormed(u) && p in t && p in u && u == Filled(t, p, u[p].files)
    ensures forall n :: n in Live(t) && n !in Live(u) ==> n in t[p].files
    ensures forall n :: n in Live(t) && n in t[p].files && n !in u[p].files ==> n !in Live(u)
  {
    forall n | n in Live(t)
      ensures n !in Live(u) ==> n in t[p].files
      ensures n in t[p].files && n !in u[p].files ==> n !in Live(u)
    {
      LiveAt(t, n);
      LiveAt(u, n);
      assert WellKept(t, p);
    }
  }

  /** The agreement of one folder's files can change without the rest. */
  lemma FilledAgrees(a: State, b: State, p: Path, sf: Stale, sd: Stale)
    requires Coherent(a, sf, sd) && p in a.tree && p in b.tree && p in a.device.dirs && b.device == a.device
    requires Settled(a.tree, p) && b.tree == Filled(a.tree, p, b.tree[p].files)
    requires Current(FileNames(b.tree[p].files), a.device.dirs[p].files, sf, p)
    ensures Coherent(b, sf, sd)
  {
    forall q | q in b.tree
      ensures FolderAgrees(b.tree[q], b.device, sd, q) && FileAgrees(b.tree[q], b.device, sf, q)
    {
      assert FolderAgrees(a.tree[q], a.device, sd, q) && FileAgrees(a.tree[q], a.device, sf, q);
    }
    RootedGrows(a.tree, b.tree);
  }

  /** A folder is being listed: its old files are gone and those with these names are new. */
  ghost predicate Filling(a: State, b: State, p: Path, known: set<object>, names: seq<Name>) {
    && p in a.tree && p in b.tree && b.tree == Filled(a.tree, p, b.tree[p].files)
    && b.items == Lost(a, WithFiles(a.tree, p, [])).items && b.size == a.size && b.device == a.device
    && FileNames(b.tree[p].files) == names
    && (forall n :: n in b.tree[p].files ==> n in b.caches && b.caches[n] == map[] && n !in known)
    && (forall n :: n in b.caches && n !in b.tree[p].files ==> n in a.caches && b.caches[n] == a.caches[n])
  }

  lemma FillingStarts(a: State, b: State, p: Path, known: set<object>)
    requires p in a.tree && b == Lost(a, WithFiles(a.tree, p, []))
    ensures p in b.tree && b.tree[p].foldersDirty == a.tree[p].foldersDirty
    ensures Filling(a, b.(tree := WithFlags(b.tree, p, false, a.tree[p].foldersDirty)), p, known, [])
  {
    hide Minus, Live;
  }

  lemma FillingSoFar(a: State, b: State, p: Path, known: set<object>, names: seq<Name>)
    requires Filling(a, b, p, known, names)
    ensures p in b.tree && FileNames(b.tree[p].files) == names
  {
  }

  lemma FillingGoesOn(a: State, b: State, p: Path, known: set<object>, names: seq<Name>, n: FileNode)
    requires Filling(a, b, p, known, names) && n !in known
    ensures p in b.tree && Filling(a, Gained(b, p, n, map[]), p, known, names + [n.name])
  {
    hide Minus, Live;
    assert FileNames(b.tree[p].files + [n]) == FileNames(b.tree[p].files) + [n.name];
  }

  lemma FillingEnds(a: State, b: State, p: Path, known: set<object>, names: seq<Name>, sf: Stale, sd: Stale)
    requires Filling(a, b, p, known, names)
    requires WellFormed(a.tree) && InTree(a) && AllCached(a) && AllCached(b) && WellFormed(b.tree)
    requires forall n :: n in Live(a.tree) ==> n in known
    requires Coherent(a, sf, sd) && Settled(a.tree, p) && p in a.device.dirs && names == a.device.dirs[p].files
    ensures Listed(a, b, known) && Coherent(b, sf, sd) && Settled(b.tree, p)
    ensures p in b.tree && !b.tree[p].filesDirty && FileNames(b.tree[p].files) == names
    ensures a.tree[p].filesDirty ==> Additive(a, b)
  {
    if a.tree[p].filesDirty {
      Spares(a, b);
    }
    FilledListed(a, b, p, known);
    FilledAgrees(a, b, p, sf, sd);
    SettledAbove(a.tree, b.tree, p);
  }
}
