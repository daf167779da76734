/** The virtual filesystem: a folder tree filled on demand, and the list of files whose data it caches. */
module Filesystem {
  import opened Prelude
  import opened Lru
  import opened References
  import opened Paths
  import opened FsTree
  import opened FsAgree
  import opened FsCacheSpec

  class Filesystem {
    const root: FolderNode
    const lru: List
    /** How many pictures to keep in memory. */
    const picturesToKeep: nat
    /** The camera, as its driver reaches it. */
    var device: Device
    ghost var dirs: map<Path, FolderNode>
    ghost var repr: set<object>
    /** Who holds the files whose data is cached. */
    ghost const ledger: Ledger

    /** The folder tree as it stands. */
    ghost function Snap(): Tree
      reads this`dirs, dirs.Values
    {
      map p | p in dirs :: Dir(dirs[p], dirs[p].filesDirty, dirs[p].foldersDirty, dirs[p].folders, dirs[p].files)
    }

    /** The whole state as a value. */
    ghost function Now(): State
      reads this`dirs, this`device, dirs.Values, lru`items, lru`size, Live(Snap())`held
    {
      State(Snap(), lru.items, lru.size, map n | n in Live(Snap()) :: n.Data(), device)
    }

    /** Every object of the tree belongs to this filesystem. */
    ghost predicate Owned()
      reads this`dirs, this`repr, dirs.Values
    {
      (forall p :: p in dirs ==> dirs[p] in repr) && (forall n :: n in Live(Snap()) ==> n in repr)
    }

    /** The tree is a tree. */
    ghost predicate Shaped()
      reads this`dirs, this`repr, dirs.Values
    {
      Owned() && WellFormed(Snap()) && Snap()[[]].node == root
    }

    /** The list is intact, its nodes are files of the tree, and all other files are unlinked. */
    ghost predicate Threaded()
      reads this`dirs, dirs.Values, lru`items, lru`first, lru`last, lru.items, Live(Snap())
    {
      && lru.Valid()
      && lru.KnowsAll(Live(Snap()))
      && (forall k :: 0 <= k < |lru.items| ==> lru.items[k] in Live(Snap()))
    }

    /** Every file counts its holders and the slots of the files of the tree, and no others. */
    ghost predicate Booked()
      reads this`dirs, this`repr, dirs.Values, Live(Snap())`held, ledger, ledger.files
    {
      && ledger.Balanced(Slots(Live(Snap())))
      && (forall f :: f in ledger.files ==> f in repr) && ledger !in repr
    }

    // ----------------------------------------------------------------
    // Writing one folder
    // ----------------------------------------------------------------

    constructor (device: Device, picturesToKeep: nat)
      requires LegalDevice(device)
      ensures this.device == device && this.picturesToKeep == picturesToKeep
      ensures Intact() && fresh(repr) && fresh(lru) && fresh(ledger) && ledger.holders == multiset{}
      ensures Snap() == map[[] := Dir(root, true, true, [], [])] && lru.items == [] && lru.size == 0
      ensures root.name == "/"
    {
      this.device, this.picturesToKeep := device, picturesToKeep;
      root := new FolderNode("/", []);
      lru := new List();
      ledger := new Ledger();
      new;
      dirs := map[[] := root];
      repr := {root};
      hide *;
      IsNew();
    }

    /** One unlisted folder and nothing else is a filesystem. */
    lemma IsNew()
      requires dirs == map[[] := root] && repr == {root} && LegalDevice(device)
      requires root.path == [] && root.filesDirty && root.foldersDirty && root.folders == [] && root.files == []
      requires lru.Valid() && lru.items == [] && ledger.holders == multiset{} && ledger.files == {}
      ensures Intact() && Snap() == map[[] := Dir(root, true, true, [], [])]
    {
      hide List.Valid, LegalDevice;
      assert Snap() == map[[] := Dir(root, true, true, [], [])];
      LocalNew(root, []);
      assert WellKept(Snap(), []);
      assert Live(Snap()) == {} && Slots({}) == map[];
    }

    ghost predicate Intact()
      reads this, dirs.Values, lru, lru.items, Live(Snap()), ledger, ledger.files
    {
      Shaped() && Threaded() && Booked() && LegalDevice(device)
    }

    /** The file list of one folder is replaced. */
    method SetFiles(folder: FolderNode, files: seq<FileNode>, ghost p: Path)
      requires WellFormed(Snap()) && p in dirs && dirs[p] == folder
      modifies folder`files
      ensures Snap() == WithFiles(old(Snap()), p, files)
    {
      ghost var t := Snap();
      folder.files := files;
      forall q | q in dirs
        ensures Snap()[q] == WithFiles(t, p, files)[q]
      {
        assert WellKept(t, q) && WellKept(t, p);
      }
    }

    /** The flags of one folder are replaced. */
    method SetFlags(folder: FolderNode, filesDirty: bool, foldersDirty: bool, ghost p: Path)
      requires Intact() && p in dirs && dirs[p] == folder
      modifies folder`filesDirty, folder`foldersDirty
      ensures Intact() && p in old(Now().tree)
      ensures Now() == old(Now()).(tree := WithFlags(old(Now().tree), p, filesDirty, foldersDirty))
      ensures Live(Now().tree) == old(Live(Now().tree))
    {
      hide *;
      ghost var t := Snap();
      Opened();
      Here(p);
      WithFlagsKeeps(t, p, filesDirty, foldersDirty);
      PutFlags(folder, filesDirty, foldersDirty, p);
      Replanted(WithFlags(t, p, filesDirty, foldersDirty));
      Closed(WithFlags(t, p, filesDirty, foldersDirty));
    }

    method PutFlags(folder: FolderNode, filesDirty: bool, foldersDirty: bool, ghost p: Path)
      requires WellFormed(Snap()) && p in dirs && dirs[p] == folder
      modifies folder`filesDirty, folder`foldersDirty
      ensures p in old(Snap()) && Snap() == WithFlags(old(Snap()), p, filesDirty, foldersDirty)
    {
      ghost var t := Snap();
      folder.filesDirty, folder.foldersDirty := filesDirty, foldersDirty;
      forall q | q in dirs
        ensures Snap()[q] == WithFlags(t, p, filesDirty, foldersDirty)[q]
      {
        assert WellKept(t, q) && WellKept(t, p);
      }
    }

    /** What a step that touched folders only has done to the state. */
    twostate lemma Replanted(new u: Tree)
      requires Snap() == u && Live(u) == old(Live(Snap()))
      requires lru.size == old(lru.size) && lru.items == old(lru.items)
      requires forall n :: n in Live(u) ==> n.held == old(n.held)
      ensures Now() == old(Now()).(tree := u, device := device)
      ensures device == old(device) ==> Now() == old(Now()).(tree := u)
    {
      hide Live;
    }

    /** What a step that touched the list only has done to the state. */
    twostate lemma Relisted(u: Tree)
      requires Snap() == u == old(Snap()) && device == old(device)
      requires forall n :: n in Live(u) ==> n.held == old(n.held)
      ensures Now() == old(Now()).(items := lru.items, size := lru.size)
      ensures Now().items == lru.items && old(Now().items) == old(lru.items) && old(Now().size) == old(lru.size)
    {
      hide Live;
    }

    /** Hangs a new, unlisted folder under `folder`, in front of its other subfolders. */
    method AppendFolderOne(folder: FolderNode, name: Name, ghost p: Path) returns (f: FolderNode)
      requires Intact() && p in dirs && dirs[p] == folder && name !in FolderNames(folder.folders)
      modifies this`dirs, this`repr, folder`folders
      ensures Intact() && fresh(f) && f.name == name && f.path == p + [name]
      ensures p in old(Now().tree) && Now() == old(Now()).(tree := WithFolder(old(Now().tree), p, f))
      ensures Live(Now().tree) == old(Live(Now().tree)) && p + [name] !in old(Now().tree)
      ensures p in dirs && dirs[p] == folder && device == old(device)
      ensures p + [name] in dirs && dirs[p + [name]] == f
      ensures repr == old(repr) + {f}
    {
      hide *;
      ghost var t := Snap();
      Opened();
      Here(p);
      f := new FolderNode(name, p + [name]);
      WithFolderKeeps(t, p, f);
      Here(p + [name]);
      HangFolder(folder, f, p);
      repr := repr + {f};
      Replanted(WithFolder(t, p, f));
      Grown(WithFolder(t, p, f));
    }

    method HangFolder(folder: FolderNode, f: FolderNode, ghost p: Path)
      requires WellFormed(Snap()) && p in dirs && dirs[p] == folder
      requires f.path == p + [f.name] && f.path !in dirs && f !in dirs.Values
      requires f.filesDirty && f.foldersDirty && f.folders == [] && f.files == []
      modifies this`dirs, folder`folders
      ensures Snap() == WithFolder(old(Snap()), p, f) && dirs == old(dirs)[f.path := f]
    {
      hide Linked;
      ghost var t := Snap();
      folder.folders := [f] + folder.folders;
      dirs := dirs[f.path := f];
      forall q | q in dirs
        ensures Snap()[q] == WithFolder(t, p, f)[q]
      {
        assert q in t ==> WellKept(t, q);
        assert WellKept(t, p);
      }
      assert Snap() == WithFolder(t, p, f);
    }

    /** The position of a subfolder, or the number of subfolders if there is none of that name. */
    method FindFolder(folder: FolderNode, name: Name) returns (i: nat)
      ensures i <= |folder.folders|
      ensures i < |folder.folders| ==> folder.folders[i].name == name
      ensures i == |folder.folders| <==> name !in FolderNames(folder.folders)
      ensures Untouched()
    {
      i := 0;
      while i < |folder.folders|
        invariant i <= |folder.folders| && name !in FolderNames(folder.folders)[..i]
        invariant Untouched()
      {
        if folder.folders[i].name == name {
          assert FolderNames(folder.folders)[i] == name;
          return;
        }
        i := i + 1;
      }
      assert FolderNames(folder.folders)[..i] == FolderNames(folder.folders);
    }

    /** Nothing of the filesystem has changed. */
    twostate predicate Untouched()
      reads this, dirs.Values, lru, lru.items, Live(Snap()), ledger, ledger.files
    {
      && Now() == old(Now()) && dirs == old(dirs) && repr == old(repr)
      && Intact() == old(Intact())
    }

    /** The position of a file in a folder, or the number of files if there is none of that name. */
    method FindFile(folder: FolderNode, filename: Name) returns (i: nat)
      ensures i <= |folder.files|
      ensures i < |folder.files| ==> folder.files[i].name == filename
      ensures i == |folder.files| <==> filename !in FileNames(folder.files)
      ensures Untouched()
    {
      i := 0;
      while i < |folder.files|
        invariant Untouched()
        invariant i <= |folder.files| && filename !in FileNames(folder.files)[..i]
      {
        if folder.files[i].name == filename {
          assert FileNames(folder.files)[i] == filename;
          return;
        }
        i := i + 1;
      }
      assert FileNames(folder.files)[..i] == FileNames(folder.files);
    }

    /** What an intact filesystem consists of. */
    lemma Opened()
      requires Intact()
      ensures WellFormed(Snap()) && Now().tree == Snap() && LegalDevice(device) && [] in dirs && dirs[[]] == root
      ensures forall n :: n in Live(Snap()) ==> n in repr
      ensures lru.Valid() && lru.KnowsAll(Live(Snap())) && InTree(Now())
      ensures forall f :: f in dirs.Values ==> f in repr
      ensures forall k :: 0 <= k < |lru.items| ==> lru.items[k] in Live(Snap()) && lru.items[k] in repr
      ensures ledger.Balanced(Slots(Live(Snap()))) && ledger !in repr
      ensures forall f :: f in ledger.files ==> f in repr
    {
    }

    /** What makes a filesystem intact again. */
    twostate lemma Closed(u: Tree)
      requires old(Intact()) && WellFormed(u) && Snap() == u
      requires lru.Valid() && lru.KnowsAll(Live(u))
      requires repr >= old(repr) && dirs.Values <= old(dirs.Values) && LegalDevice(device)
      requires Live(u) <= old(Live(Snap())) && [] in dirs && dirs[[]] == root
      requires forall k :: 0 <= k < |lru.items| ==> lru.items[k] in Live(u)
      requires ledger.Balanced(Slots(Live(u))) && ledger !in repr && forall f :: f in ledger.files ==> f in repr
      ensures Intact()
    {
      hide WellFormed, Live, List.Valid, List.KnowsAll, Slots, Ledger.Balanced;
      forall p | p in dirs
        ensures dirs[p] in repr
      {
        assert dirs[p] in old(dirs.Values);
      }
    }

    twostate lemma Grown(new u: Tree)
      requires old(Intact()) && WellFormed(u) && Snap() == u
      requires lru.Valid() && lru.KnowsAll(Live(u)) && lru.items == old(lru.items)
      requires LegalDevice(device) && [] in dirs && dirs[[]] == root
      requires old(Live(Snap())) <= Live(u)
      requires forall p :: p in dirs ==> dirs[p] in repr
      requires forall n :: n in Live(u) ==> n in repr
      requires ledger.Balanced(Slots(Live(u))) && ledger !in repr && forall f :: f in ledger.files ==> f in repr
      requires repr >= old(repr)
      ensures Intact()
    {
      hide WellFormed, Live, List.Valid, List.KnowsAll, Slots, Ledger.Balanced;
    }

    /** Creates a file at the end of a folder, with nothing cached for it. */
    method AddNode(folder: FolderNode, filename: Name, ghost p: Path) returns (node: FileNode)
      requires Intact() && p in dirs && dirs[p] == folder && filename !in FileNames(folder.files)
      modifies this`repr, folder`files
      ensures Intact() && dirs == old(dirs) && device == old(device) && repr == old(repr) + {node}
      ensures fresh(node) && node.name == filename && node.home == p && node.held == map[]
      ensures p in old(Now().tree) && Now() == Gained(old(Now()), p, node, map[]) && node in Live(Now().tree)
    {
      hide *;
      ghost var t := Snap();
      Opened();
      Here(p);
      node := new FileNode(filename, p);
      WithFileKeeps(t, p, node);
      SetFiles(folder, folder.files + [node], p);
      lru.KnowsOneMore(Live(t), node);
      EmptyNodes(Live(t) + {node}, Live(t));
      repr := repr + {node};
      Gains(p, node);
      Grown(WithFiles(t, p, t[p].files + [node]));
    }

    /** What a step that added a file has done to the state. */
    twostate lemma Gains(p: Path, new n: FileNode)
      requires p in old(Snap()) && Snap() == WithFiles(old(Snap()), p, old(Snap())[p].files + [n]) && n.held == map[]
      requires Live(Snap()) == old(Live(Snap())) + {n} && device == old(device) && n !in old(Live(Snap()))
      requires lru.size == old(lru.size) && lru.items == old(lru.items)
      requires forall m :: m in old(Live(Snap())) ==> m.held == old(m.held)
      ensures p in old(Now().tree) && Now() == Gained(old(Now()), p, n, map[]) && n in Live(Now().tree)
    {
      hide Live;
    }

    /** Creates a file at the end of a folder and caches a file object as its normal data. */
    method AddFile(folder: FolderNode, filename: Name, file: Shared, ghost p: Path) returns (ghost n: FileNode)
      requires Intact() && p in dirs && dirs[p] == folder && filename !in FileNames(folder.files)
      requires file in ledger.holders
      modifies this`repr, folder`files, ledger.files
      ensures Intact() && dirs == old(dirs) && device == old(device) && repr == old(repr) + {n}
      ensures fresh(n) && n.name == filename && n.home == p
      ensures p in old(Now().tree) && Now() == Gained(old(Now()), p, n, map[Normal := file.data])
    {
      hide *;
      ghost var s0 := Now();
      var node := AddNode(folder, filename, p);
      Keep(node, Normal, file);
      GainedCached(s0, p, node, Normal, file.data);
      n := node;
    }

    lemma GainedCached(s: State, p: Path, n: FileNode, k: Kind, data: seq<Byte>)
      requires p in s.tree
      ensures n in Gained(s, p, n, map[]).caches
      ensures Cached(Gained(s, p, n, map[]), n, k, data) == Gained(s, p, n, map[k := data])
    {
    }

    /** Takes a reference to a file for a slot that holds none. */
    method Keep(n: FileNode, k: Kind, file: Shared)
      requires Intact() && n in Live(Now().tree) && k !in n.held && file in ledger.holders
      modifies n`held, ledger.files
      ensures Intact() && n in old(Now().caches) && Now() == Cached(old(Now()), n, k, file.data)
    {
      hide *;
      ghost var t, live := Snap(), Live(Snap());
      Opened();
      Here([]);
      ledger.OwnIsAlive(Slots(live), file);
      n.held := n.held[k := file];
      SlotTaken(live, n, k, file);
      Ref(file, ledger, old(Slots(live)), (n, k));
      Closed(t);
      HasCached(t, n, k, file);
    }

    /** Adds a file to a folder, unless a file of that name is there. */
    method InternalAppend(folder: FolderNode, filename: Name, ghost p: Path)
      returns (added: bool, ghost node: FileNode?)
      requires Intact() && p in dirs && dirs[p] == folder
      modifies this`repr, folder`files
      ensures Intact() && dirs == old(dirs) && repr >= old(repr) && fresh(repr - old(repr)) && device == old(device)
      ensures p in old(Now().tree)
      ensures added == (filename !in FileNames(old(Now().tree)[p].files))
      ensures !added ==> Now() == old(Now())
      ensures added ==> node != null && fresh(node) && node.name == filename && node.home == p
      ensures added ==> Now() == Gained(old(Now()), p, node, map[])
    {
      hide *;
      Here(p);
      var i := FindFile(folder, filename);
      if i < |folder.files| {
        return false, null;
      }
      node := AddNode(folder, filename, p);
      added := true;
    }

    // ----------------------------------------------------------------
    // Deleting
    // ----------------------------------------------------------------

    /** The camera changes. */
    method SetDevice(c: Device)
      requires Intact() && LegalDevice(c)
      modifies this`device
      ensures Intact() && device == c && Now() == old(Now()).(device := c)
    {
      hide *;
      ghost var t := Snap();
      Opened();
      Here([]);
      device := c;
      Replanted(t);
      Closed(t);
    }

    /** What a step that removed files has done to the state. */
    twostate lemma Loses(u: Tree)
      requires Snap() == u && Live(u) <= old(Live(Snap())) && device == old(device) && lru.size == old(lru.size)
      requires lru.items == Minus(old(lru.items), old(Live(Snap())) - Live(u))
      requires forall n :: n in Live(u) ==> n.held == old(n.held)
      ensures Now() == Lost(old(Now()), u)
    {
      hide Live, Minus;
    }

    /** Takes files off the list and gives up what is cached for them. */
    method Discard(gone: seq<FileNode>, ghost live: set<FileNode>)
      requires lru.Valid() && lru.KnowsAll(live) && ledger.Balanced(Slots(live))
      requires (forall n :: n in gone ==> n in live) && forall k :: 0 <= k < |lru.items| ==> lru.items[k] in live
      modifies lru, lru.items`lruPrev, lru.items`lruNext, gone`held, ledger.files
      ensures lru.size == old(lru.size) && lru.items == Minus(old(lru.items), set n | n in gone)
      ensures var left := live - set n | n in gone;
        && lru.Valid() && lru.KnowsAll(left) && ledger.Balanced(Slots(left))
        && forall k :: 0 <= k < |lru.items| ==> lru.items[k] in left
    {
      hide *;
      ghost var was, freed := lru.items, set n | n in gone;
      lru.RemoveAll(gone, ledger, live);
      StillMembers(was, freed);
      lru.KnowsFewer(live, live - freed);
      EmptyNodes(live, live - freed);
    }

    /** Frees files of a folder, of which others are left. */
    method FreeFiles(folder: FolderNode, gone: seq<FileNode>, left: seq<FileNode>, ghost p: Path)
      requires Intact() && p in dirs && dirs[p] == folder && forall n :: n in gone ==> n in Live(Now().tree)
      requires p in Now().tree && WellFormed(WithFiles(Now().tree, p, left))
      requires Live(WithFiles(Now().tree, p, left)) == Live(Now().tree) - set n | n in gone
      modifies lru, repr
      ensures Intact() && dirs == old(dirs) && repr == old(repr) && device == old(device) && p in old(Now().tree)
      ensures Now() == Lost(old(Now()), WithFiles(old(Now().tree), p, left))
    {
      hide *;
      ghost var t, live := Snap(), Live(Snap());
      Opened();
      Here(p);
      InSet(gone, live);
      Discard(gone, live);
      SetFiles(folder, left, p);
      Loses(WithFiles(t, p, left));
      Closed(WithFiles(t, p, left));
    }

    lemma InSet(gone: seq<FileNode>, live: set<FileNode>)
      requires forall n :: n in gone ==> n in live
      ensures live - (live - set n | n in gone) == set n | n in gone
    {
    }

    /** Frees all files of a folder, taking them off the list first. */
    method DeleteAllFiles(folder: FolderNode, ghost p: Path)
      requires Intact() && p in dirs && dirs[p] == folder
      modifies lru, repr
      ensures Intact() && dirs == old(dirs) && repr == old(repr) && device == old(device) && p in old(Now().tree)
      ensures Now() == Lost(old(Now()), WithFiles(old(Now().tree), p, []))
    {
      hide *;
      Whole();
      Here(p);
      AllInLive(Now().tree, p);
      NoFilesKeeps(Now().tree, p);
      FreeFiles(folder, folder.files, [], p);
    }

    /** Frees one file of a folder, taking it off the list first. */
    method DeleteFile(folder: FolderNode, i: nat, ghost p: Path)
      requires Intact() && p in dirs && dirs[p] == folder && i < |folder.files|
      modifies lru, repr
      ensures Intact() && dirs == old(dirs) && repr == old(repr) && device == old(device) && p in old(Now().tree)
      ensures Now() == Lost(old(Now()), WithFiles(old(Now().tree), p, old(folder.files[..i] + folder.files[i + 1..])))
    {
      hide *;
      Whole();
      Here(p);
      InLive(Now().tree, p, i);
      WithoutFileKeeps(Now().tree, p, i);
      assert (set n | n in [folder.files[i]]) == {folder.files[i]};
      FreeFiles(folder, [folder.files[i]], folder.files[..i] + folder.files[i + 1..], p);
    }

    /** Takes the i-th subfolder, which is empty, off its folder. */
    method UnhangFolder(folder: FolderNode, i: nat, ghost p: Path)
      requires Intact() && p in dirs && dirs[p] == folder && i < |folder.folders|
      requires folder.folders[i].folders == [] && folder.folders[i].files == []
      modifies this`dirs, repr
      ensures Intact() && p in dirs && dirs[p] == folder && repr == old(repr) && device == old(device)
      ensures p in old(Now().tree) && i < |old(Now().tree)[p].folders|
      ensures Now() == Lost(old(Now()), WithoutFolder(old(Now().tree), p, i))
    {
      hide *;
      ghost var t, q, live := Snap(), p + [folder.folders[i].name], Live(Snap());
      Opened();
      Here(p);
      Child(p, i);
      Here(q);
      EmptiedAndRemoved(t, p, i);
      NothingLost(lru.items, live);
      Unhang(folder, i, p);
      assert (set n | n in t[q].files) == {};
      assert Live(WithoutFolder(t, p, i)) == live;
      Loses(WithoutFolder(t, p, i));
      Closed(WithoutFolder(t, p, i));
    }

    method Unhang(folder: FolderNode, i: nat, ghost p: Path)
      requires WellFormed(Snap()) && p in dirs && dirs[p] == folder && i < |folder.folders|
      modifies this`dirs, folder`folders
      ensures Snap() == WithoutFolder(old(Snap()), p, i)
      ensures dirs == old(dirs) - {p + [old(folder.folders[i].name)]} && p in dirs
    {
      hide Linked;
      ghost var t, q := Snap(), p + [folder.folders[i].name];
      folder.folders := folder.folders[..i] + folder.folders[i + 1..];
      dirs := dirs - {q};
      forall r | r in dirs
        ensures Snap()[r] == WithoutFolder(t, p, i)[r]
      {
        assert WellKept(t, r) && WellKept(t, p);
      }
      assert Snap() == WithoutFolder(t, p, i);
    }

    /** Frees the i-th subfolder of a folder, which has no subfolders of its own. */
    method DeleteFolder(folder: FolderNode, i: nat, ghost p: Path)
      requires Intact() && p in dirs && dirs[p] == folder && i < |folder.folders|
      requires folder.folders[i].folders == []
      modifies this`dirs, lru, repr
      ensures Intact() && p in dirs && dirs[p] == folder && repr == old(repr) && device == old(device)
      ensures p in old(Now().tree) && i < |old(Now().tree)[p].folders|
      ensures Now() == Lost(old(Now()), WithoutFolder(old(Now().tree), p, i))
    {
      hide *;
      var child := folder.folders[i];
      ghost var s0, q := Now(), p + [child.name];
      Here(p);
      Child(p, i);
      Here(q);
      DeleteAllFiles(child, q);
      EmptiedThenRemoved(s0, p, i);
      Here(p);
      Here(q);
      UnhangFolder(folder, i, p);
    }

    /** A subfolder, seen in the state. */
    lemma Child(p: Path, i: nat)
      requires Intact() && p in dirs && i < |dirs[p].folders|
      ensures var q := p + [dirs[p].folders[i].name]; q != p && q in dirs && dirs[q] == dirs[p].folders[i]
      ensures WellFormed(Now().tree) && InTree(Now())
    {
      ChildNode(Snap(), p, i);
    }

    /** Frees everything below a folder. */
    method RecurseDeleteFolder(folder: FolderNode, ghost p: Path)
      requires Intact() && p in dirs && dirs[p] == folder
      modifies this`dirs, lru, repr
      ensures Intact() && p in dirs && dirs[p] == folder && repr == old(repr) && device == old(device)
      ensures p in old(Now().tree)
      ensures Now() == Lost(old(Now()), Pruned(old(Now().tree), p)) && Live(Now().tree) <= old(Live(Now().tree))
      decreases BelowSet(Now().tree, p), 1
    {
      hide *;
      ghost var s0, cam := Now(), device;
      Here(p);
      Whole();
      LostNothing(s0);
      ghost var below := BelowSet(s0.tree, p);
      while |folder.folders| > 0
        invariant Intact() && p in dirs && dirs[p] == folder && repr == old(repr) && device == cam
        invariant Live(Now().tree) <= Live(s0.tree) && Now() == Lost(s0, Now().tree)
        invariant p in Now().tree && Pruned(Now().tree, p) == Pruned(s0.tree, p)
        invariant BelowSet(Now().tree, p) <= below
        decreases BelowSet(Now().tree, p)
      {
        ghost var s1 := Now();
        DropFirst(folder, p);
        LostTwice(s0, s1.tree, Now().tree);
        Here(p);
      }
      Here(p);
      Whole();
      PrunedLeaf(Now().tree, p);
    }

    /** Frees the first subfolder of a folder with everything below it. */
    method DropFirst(folder: FolderNode, ghost p: Path)
      requires Intact() && p in dirs && dirs[p] == folder && |folder.folders| > 0
      modifies this`dirs, lru, repr
      ensures Intact() && p in dirs && dirs[p] == folder && repr == old(repr) && device == old(device)
      ensures p in old(Now().tree)
      ensures Now() == Lost(old(Now()), Now().tree) && Live(Now().tree) <= old(Live(Now().tree))
      ensures p in Now().tree && Pruned(Now().tree, p) == Pruned(old(Now().tree), p)
      ensures BelowSet(Now().tree, p) < old(BelowSet(Now().tree, p))
      decreases BelowSet(Now().tree, p), 0
    {
      hide *;
      var child := folder.folders[0];
      ghost var s0, q := Now(), p + [child.name];
      Here(p);
      Child(p, 0);
      Here(q);
      BelowShrinks(s0.tree, p, 0);
      PrunedStep(s0.tree, p, 0);
      PrunedAt(s0.tree, q);
      RecurseDeleteFolder(child, q);
      ghost var s1 := Now();
      LostTree(s0, Pruned(s0.tree, q));
      Here(p);
      Here(q);
      Child(p, 0);
      DeleteFolder(folder, 0, p);
      WithoutFolderLoses(s1.tree, p, 0);
      LostTree(s1, WithoutFolder(s1.tree, p, 0));
      LostTwice(s0, s1.tree, Now().tree);
      Here(p);
    }

    lemma AtRoot()
      requires Intact()
      ensures [] in dirs && dirs[[]] == root && [] in Now().tree && Now().tree[[]].node == root
      ensures [] in device.dirs && Now().device == device && root in repr
    {
    }

    /** Takes every node off the list. */
    method ClearList()
      requires Intact()
      modifies lru, repr
      ensures Intact() && dirs == old(dirs) && repr == old(repr) && device == old(device)
      ensures Now() == old(Now()).(items := [], size := if old(Now().items) == [] then old(Now().size) else 0)
    {
      hide *;
      ghost var t := Snap();
      Opened();
      Here([]);
      var _ := lru.Clear();
      lru.KnowsCleared(Live(t));
      Closed(t);
      Relisted(t);
    }

    // ----------------------------------------------------------------
    // The list of cached data
    // ----------------------------------------------------------------

    /** Drops the significant data of the first listed node and takes it off the list. */
    method EvictFirst()
      requires Intact() && lru.items != []
      modifies lru, repr
      ensures Intact() && dirs == old(dirs) && repr == old(repr) && device == old(device)
      ensures old(Now().items) != [] && Now() == Evicted(old(Now()))
    {
      hide *;
      ghost var t, live, was := Snap(), Live(Snap()), lru.items;
      Opened();
      Here([]);
      lru.FreeFirst(ledger, live);
      lru.KnowsAfterFree(live);
      StillIn(was, live);
      Closed(t);
      HasEvicted(t, was[0]);
    }

    lemma StillIn(s: seq<FileNode>, live: set<FileNode>)
      requires s != [] && forall k :: 0 <= k < |s| ==> s[k] in live
      ensures forall k :: 0 <= k < |s[1..]| ==> s[1..][k] in live
    {
    }

    twostate lemma HasEvicted(new t: Tree, n: FileNode)
      requires Snap() == t == old(Snap()) && device == old(device)
      requires old(lru.items) != [] && old(lru.items)[0] == n && lru.items == old(lru.items)[1..]
      requires n in Live(t) && n.Data() == Light(old(n.Data())) && lru.size == old(lru.size) - HeavySize(old(n.Data()))
      requires forall m :: m in Live(t) && m != n ==> m.held == old(m.held)
      ensures old(Now().items) != [] && Now() == Evicted(old(Now()))
    {
      hide Live, HeavySize, Light;
    }

    /** The check of the list finds nothing wrong. */
    method CheckList() returns (intact: bool)
      requires Intact()
      ensures intact && Intact() && Now() == old(Now()) && dirs == old(dirs) && repr == old(repr)
    {
      intact := lru.Check();
    }

    lemma NowItems()
      ensures Now().items == lru.items && Now().size == lru.size
    {
    }

    /** Puts a file at the end of the list and adds the size of its new data, instead of that of the old. */
    method MoveToEnd(n: FileNode, k: Kind, bytes: nat)
      requires Intact() && n in Live(Now().tree) && Heavy(k)
      modifies lru, repr
      ensures Intact() && dirs == old(dirs) && repr == old(repr) && device == old(device)
      ensures Now() == Moved(old(Now()), n, k, bytes)
    {
      hide *;
      ghost var t, live, was := Snap(), Live(Snap()), lru.items;
      Opened();
      Here([]);
      lru.KnownOne(live, n);
      lru.ListedIffBackLink(n);
      Sizes(n, k);
      if n.lruPrev != null && k in n.held {
        SlotHere(live, n, k);
        ledger.HeldIsAlive(Slots(live), (n, k));
        lru.size := lru.size - |n.held[k].Read()|;
      }
      lru.MoveToBack(n, live);
      MinusMembers(was, {n});
      StillMembers(was, {n});
      lru.size := lru.size + bytes;
      assert forall i :: 0 <= i < |lru.items| ==> lru.items[i] in live;
      Closed(t);
      HasMoved(t, n, k, bytes);
    }

    lemma Sizes(n: FileNode, k: Kind)
      ensures SizeOf(n.Data(), k) == if k in n.held then |n.held[k].data| else 0
    {
    }

    twostate lemma HasMoved(new t: Tree, n: FileNode, new k: Kind, new bytes: nat)
      requires Snap() == t == old(Snap()) && device == old(device) && n in Live(t)
      requires lru.items == Minus(old(lru.items), {n}) + [n]
      requires lru.size == old(lru.size) - (if n in old(lru.items) then SizeOf(old(n.Data()), k) else 0) + bytes
      requires forall m :: m in Live(t) ==> m.held == old(m.held)
      ensures Now() == Moved(old(Now()), n, k, bytes)
    {
      hide Live, Minus;
    }

    /** Caches data of one kind for a file, in place of what was cached. */
    method CacheData(n: FileNode, k: Kind, file: Shared)
      requires Intact() && n in Live(Now().tree) && file in ledger.holders
      modifies n`held, ledger.files
      ensures Intact() && n in old(Now().caches) && Now() == Cached(old(Now()), n, k, file.data)
    {
      hide *;
      ghost var t, s0 := Snap(), Now();
      Opened();
      Here([]);
      var _ := n.Drop(k, ledger, Live(t));
      Closed(t);
      HasDropped(t, n, k);
      Keep(n, k, file);
      DroppedThenCached(s0, n, k, file.data);
    }

    twostate lemma HasDropped(new t: Tree, n: FileNode, new k: Kind)
      requires Snap() == t == old(Snap()) && device == old(device) && n in Live(t)
      requires lru.items == old(lru.items) && lru.size == old(lru.size) && n.held == old(n.held) - {k}
      requires forall m :: m in Live(t) && m != n ==> m.held == old(m.held)
      ensures n in Live(Now().tree) && k !in n.held
      ensures n in old(Now().caches)
      ensures Now() == old(Now()).(caches := old(Now().caches)[n := old(Now().caches)[n] - {k}])
    {
      hide Live;
      assert Bytes(n.held) == old(n.Data()) - {k};
    }

    lemma DroppedThenCached(s: State, n: FileNode, k: Kind, data: seq<Byte>)
      requires n in s.caches
      ensures var u := s.(caches := s.caches[n := s.caches[n] - {k}]);
        n in u.caches && Cached(u, n, k, data) == Cached(s, n, k, data)
    {
      assert (s.caches[n] - {k})[k := data] == s.caches[n][k := data];
    }

    twostate lemma HasCached(new t: Tree, n: FileNode, new k: Kind, new file: Shared)
      requires Snap() == t == old(Snap()) && device == old(device) && n in Live(t)
      requires lru.items == old(lru.items) && lru.size == old(lru.size) && n.held == old(n.held)[k := file]
      requires forall m :: m in Live(t) && m != n ==> m.held == old(m.held)
      ensures n in old(Now().caches) && Now() == Cached(old(Now()), n, k, file.data)
    {
      hide Live;
      assert Bytes(n.held) == old(n.Data())[k := file.data];
    }

    // ----------------------------------------------------------------
    // File objects outside the cache
    // ----------------------------------------------------------------

    /** Makes a file object, which its maker holds. */
    method CreateFile(data: seq<Byte>) returns (f: Shared)
      requires Intact()
      modifies this`repr, ledger
      ensures Intact() && Now() == old(Now()) && fresh(f) && f.data == data && repr == old(repr) + {f}
      ensures ledger.holders == old(ledger.holders) + multiset{f}
    {
      hide *;
      ghost var t := Snap();
      Opened();
      Here([]);
      f := Create(data, ledger, Slots(Live(t)));
      repr := repr + {f};
      Replanted(t);
      Closed(t);
    }

    /** Holds a file object once more. */
    method HoldFile(f: Shared)
      requires Intact() && f in ledger.holders
      modifies ledger`holders, f
      ensures Intact() && Now() == old(Now()) && ledger.holders == old(ledger.holders) + multiset{f}
    {
      hide *;
      ghost var t := Snap();
      Opened();
      Here([]);
      Hold(f, ledger, Slots(Live(t)));
      Replanted(t);
      Closed(t);
    }

    /** Lets a file object go. It is freed if nobody holds it any more and it is not cached for any file. */
    method LetGoFile(f: Shared)
      requires Intact() && f in ledger.holders
      modifies ledger`holders, f
      ensures Intact() && Now() == old(Now()) && ledger.holders == old(ledger.holders) - multiset{f}
      ensures f.freed <==> f !in ledger.holders && forall n, k :: n in Live(Snap()) && k in n.held ==> n.held[k] != f
    {
      hide *;
      ghost var t := Snap();
      Opened();
      Here([]);
      LetGo(f, ledger, Slots(Live(t)));
      Replanted(t);
      Closed(t);
      SlotsOf(Live(t), f);
    }

    lemma SlotsOf(nodes: set<FileNode>, f: Shared)
      ensures var slots := Slots(nodes);
        (forall s :: s in slots ==> slots[s] != f) <==> forall n, k :: n in nodes && k in n.held ==> n.held[k] != f
    {
      var slots := Slots(nodes);
      forall n, k | n in nodes && k in n.held
        ensures (n, k) in slots && slots[(n, k)] == n.held[k]
      {
      }
    }

    /** Every file counts its holders and the slots of the tree's files that it is in, and is freed at 0. */
    ghost predicate Conserved()
      reads this`dirs, dirs.Values, Live(Snap())`held, ledger, ledger.files
    {
      forall f :: f in ledger.files ==>
        && f.refCount == ledger.holders[f] + InSlots(Slots(Live(Snap())), f)
        && (f.freed <==> f.refCount == 0)
    }

    /** The books balance, and no slot holds a freed file. */
    lemma Balances()
      requires Intact()
      ensures Conserved()
      ensures forall n, k :: n in Live(Snap()) && k in n.held ==> n.held[k] in ledger.files && !n.held[k].freed
    {
      hide InSlots;
      var slots := Slots(Live(Snap()));
      forall f | f in ledger.files
        ensures f.refCount == ledger.holders[f] + InSlots(slots, f) && (f.freed <==> f.refCount == 0)
      {
        assert ledger.Counted(f, slots);
      }
      forall n, k | n in Live(Snap()) && k in n.held
        ensures n.held[k] in ledger.files && !n.held[k].freed
      {
        SlotHere(Live(Snap()), n, k);
        ledger.HeldIsAlive(slots, (n, k));
      }
    }

    // ----------------------------------------------------------------
    // Looking up and listing folders
    // ----------------------------------------------------------------

    /**
     * Finds a folder, listing every folder on the way that was not listed yet. Termination: what is
     * listed on the way is a shorter path.
     */
    method LookupFolder(foldername: string, ghost sf: Stale, ghost sd: Stale) returns (r: FolderNode?)
      requires Intact() && Coherent(Now(), sf, sd) && Absolute(foldername)
      modifies this`dirs, this`repr, lru, repr
      ensures Intact() && Coherent(Now(), sf, sd) && repr >= old(repr) && fresh(repr - old(repr))
      ensures Lazily(old(Now()), Now()) && device == old(device) && Additive(old(Now()), Now())
      ensures r != null ==> Comps(foldername) in dirs && dirs[Comps(foldername)] == r
      ensures r != null ==> Settled(Now().tree, Comps(foldername))
      ensures r == null ==> Comps(foldername) !in dirs && Stuck(Now().tree, Comps(foldername))
      ensures Fresh(sd, Comps(foldername)) ==> (r != null <==> Comps(foldername) in device.dirs)
      ensures old(Settled(Now().tree, Comps(foldername))) ==> Now() == old(Now()) && dirs == old(dirs)
      ensures r != null ==> old(Settled(Now().tree, Comps(foldername))) || Virgin(Now().tree, Comps(foldername))
      decreases |foldername|, 0
    {
      hide *;
      var folder: FolderNode? := root;
      var cur := 0;
      ghost var s0, all, done: Path, cam := Now(), Comps(foldername), [], device;
      ghost var settled, touched := Settled(Now().tree, all), false;
      Start(foldername, sf, sd);
      AdditiveSame(s0);
      while folder != null
        invariant folder != null ==> cur <= |foldername| && (cur == 0 || cur == |foldername| || foldername[cur] == '/')
        invariant folder != null ==> Comps(foldername[..cur]) == done
        invariant Intact() && Coherent(Now(), sf, sd) && repr >= old(repr) && fresh(repr - old(repr))
        invariant Lazily(s0, Now()) && device == cam && Additive(s0, Now())
        invariant folder != null ==>
          done in dirs && done in device.dirs && dirs[done] == folder && Settled(Now().tree, done)
        invariant settled ==> !touched
        invariant folder != null ==> if touched then Virgin(Now().tree, done) else Now() == s0 && dirs == old(dirs)
        invariant !touched ==> Now() == s0 && dirs == old(dirs)
        invariant folder == null ==> all !in dirs && Stuck(Now().tree, all) && (Fresh(sd, all) ==> all !in device.dirs)
        decreases |foldername| - cur, folder != null
      {
        var (start, e) := Ahead(foldername, cur);
        if start == |foldername| {
          return folder;
        }
        if settled {
          SettledHere(done, all);
        }
        if touched {
          VirginIsDirty(Now().tree, done);
          Here(done);
        }
        ghost var s1 := Now();
        touched := touched || folder.foldersDirty;
        MakeListed(foldername[..start], folder, done, sf, sd);
        LazilyTwice(s0, s1, Now());
        AdditiveTwice(s0, s1, Now());
        var i := FindFolder(folder, foldername[start..e]);
        Descend(folder, done, all, sf, sd);
        if i == |folder.folders| {
          IsStuck(Now().tree, all, |done|);
          folder := null;
        } else {
          if touched {
            Here(done);
            VirginChild(Now().tree, done, i);
          }
          if e == |foldername| {
            return folder.folders[i];
          }
          folder := folder.folders[i];
          done := done + [foldername[start..e]];
          cur := e;
        }
      }
      return null;
    }

    /** Lists a folder that was not listed yet. */
    method MakeListed(foldername: string, folder: FolderNode, ghost p: Path, ghost sf: Stale, ghost sd: Stale)
      requires Intact() && Coherent(Now(), sf, sd) && Absolute(foldername) && Comps(foldername) == p
      requires p in dirs && dirs[p] == folder && Settled(Now().tree, p)
      modifies this`dirs, this`repr, lru, repr
      ensures Intact() && Coherent(Now(), sf, sd) && repr >= old(repr) && fresh(repr - old(repr))
      ensures Lazily(old(Now()), Now()) && device == old(device) && Additive(old(Now()), Now())
      ensures p in dirs && dirs[p] == folder && Settled(Now().tree, p) && !folder.foldersDirty
      ensures if old(folder.foldersDirty) then ChildrenVirgin(Now().tree, p)
        else Now() == old(Now()) && dirs == old(dirs)
      decreases |foldername|, 2
    {
      hide *;
      if folder.foldersDirty {
        var _, _ := ListFolders(foldername, sf, sd);
      } else {
        LazilySame(Now());
        AdditiveSame(Now());
      }
    }

    lemma Start(foldername: string, sf: Stale, sd: Stale)
      requires Intact() && Coherent(Now(), sf, sd)
      ensures [] in dirs && [] in device.dirs && dirs[[]] == root && Settled(Now().tree, [])
      ensures Comps(foldername[..0]) == []
      ensures Lazily(Now(), Now()) && InTree(Now())
    {
      LazilySame(Now());
      SettledRoot(Snap());
      assert Snap()[[]].node == root;
    }

    lemma SettledHere(p: Path, all: Path)
      requires p in dirs && Settled(Now().tree, all) && |p| < |all| && all[..|p|] == p
      ensures !dirs[p].foldersDirty
    {
      SettledAt(Snap(), all, |p|);
    }

    /** Whether the next component of a path is cached, from the folder that the path has led to so far. */
    lemma Walk(folder: FolderNode, p: Path, all: Path)
      requires Intact() && p in dirs && dirs[p] == folder && |p| < |all| && all[..|p|] == p
      ensures folder in repr && all[..|p| + 1] == p + [all[|p|]]
      ensures all[|p|] in FolderNames(folder.folders) <==> all[..|p| + 1] in dirs
      ensures forall i :: 0 <= i < |folder.folders| && folder.folders[i].name == all[|p|] ==>
        all[..|p| + 1] in dirs && dirs[all[..|p| + 1]] == folder.folders[i]
    {
      var t, n := Snap(), all[|p|];
      ChildIff(t, p, n);
      assert t[p].folders == folder.folders;
      assert all[..|p| + 1] == p + [n];
      forall i | 0 <= i < |folder.folders| && folder.folders[i].name == n
        ensures p + [n] in dirs && dirs[p + [n]] == folder.folders[i]
      {
        assert folder.folders[i] in t[p].folders;
        assert t[p + [n]].node == dirs[p + [n]];
      }
    }

    /** What the next component of a path leads to, once the folder reached so far is listed. */
    lemma Descend(folder: FolderNode, p: Path, all: Path, sf: Stale, sd: Stale)
      requires Intact() && Coherent(Now(), sf, sd) && p in dirs && dirs[p] == folder && !folder.foldersDirty
      requires Settled(Now().tree, p) && |p| < |all| && all[..|p|] == p
      ensures Settled(Now().tree, p + [all[|p|]])
      ensures forall i :: 0 <= i < |folder.folders| && folder.folders[i].name == all[|p|] ==>
        p + [all[|p|]] in dirs && dirs[p + [all[|p|]]] == folder.folders[i]
      ensures p + [all[|p|]] in dirs ==> p + [all[|p|]] in device.dirs
      ensures all[|p|] !in FolderNames(folder.folders) ==>
        all !in dirs && p + [all[|p|]] !in Now().tree && (Fresh(sd, all) ==> all !in device.dirs)
    {
      var t, n := Snap(), all[|p|];
      assert t[p].folders == folder.folders && t[p].foldersDirty == folder.foldersDirty;
      SettledStep(t, p, n);
      ChildIff(t, p, n);
      assert p + [n] in t ==> FolderAgrees(t[p + [n]], device, sd, p + [n]);
      forall i | 0 <= i < |folder.folders| && folder.folders[i].name == n
        ensures p + [n] in dirs && dirs[p + [n]] == folder.folders[i]
      {
        assert folder.folders[i] in t[p].folders;
        assert t[p + [n]].node == dirs[p + [n]];
      }
      if n !in FolderNames(folder.folders) {
        MissingInTree(t, all, |p|);
        if Fresh(sd, all) {
          FreshAt(sd, all, |p|);
          MissingOnCamera(t, device, sd, all, |p|);
        }
      }
    }

    /**
     * Lists the subfolders of a folder. If the folder was not listed yet, everything cached below it is
     * freed and the camera's folders are hung there instead, unlisted and the last one first.
     */
    method ListFolders(foldername: string, ghost sf: Stale, ghost sd: Stale)
      returns (found: bool, names: seq<Name>)
      requires Intact() && Coherent(Now(), sf, sd)
      modifies this`dirs, this`repr, lru, repr
      ensures Intact() && Coherent(Now(), sf, sd) && repr >= old(repr) && fresh(repr - old(repr))
      ensures Lazily(old(Now()), Now()) && device == old(device) && Additive(old(Now()), Now())
      ensures found <==> Absolute(foldername) && Comps(foldername) in dirs
      ensures Absolute(foldername) && Fresh(sd, Comps(foldername)) ==> (found <==> Comps(foldername) in device.dirs)
      ensures found ==> var f := dirs[Comps(foldername)];
        && Settled(Now().tree, Comps(foldername)) && !f.foldersDirty && names == FolderNames(f.folders)
      ensures found ==> Comps(foldername) in device.dirs
      ensures found ==>
        var p := Comps(foldername);
        var list := device.dirs[p].folders;
        if old(Settled(Now().tree, p) && p in dirs && !dirs[p].foldersDirty) then
          names == old(FolderNames(dirs[p].folders))
        else
          |names| == |list| && forall i :: 0 <= i < |names| ==> names[i] == list[|names| - 1 - i]
      ensures found ==> Current(names, device.dirs[Comps(foldername)].folders, sd, Comps(foldername)) && Distinct(names)
      ensures Absolute(foldername) && old(Settled(Now().tree, Comps(foldername)) && Comps(foldername) in dirs) ==>
        && found && dirs[Comps(foldername)] == old(dirs[Comps(foldername)])
        && (old(dirs[Comps(foldername)].foldersDirty) ==> ChildrenVirgin(Now().tree, Comps(foldername)))
      decreases |foldername|, 1
    {
      hide *;
      if !Absolute(foldername) {
        LazilySame(Now());
        AdditiveSame(Now());
        return false, [];
      }
      ghost var was := Now();
      Whole();
      Here(Comps(foldername));
      var f := LookupFolder(foldername, sf, sd);
      if f == null {
        return false, [];
      }
      ghost var p, s0 := Comps(foldername), Now();
      KnownFolder(f, p, sf, sd);
      LazilySame(s0);
      AdditiveSame(s0);
      if !old(Settled(Now().tree, p)) {
        VirginIsDirty(s0.tree, p);
      }
      if f.foldersDirty {
        Rehang(foldername, f, device.dirs[Comps(foldername)].folders, p, sf, sd);
        SameIsCurrent(FolderNames(f.folders), device.dirs[p].folders, sd, p);
        BackToFrontAt(FolderNames(f.folders), device.dirs[p].folders);
        Here(p);
      }
      ghost var s2 := Now();
      names := FolderNames(f.folders);
      NoNameTwice(p);
      SetFlags(f, f.filesDirty, false, p);
      ListedLazily(s2, Now(), p, sf, sd);
      AdditiveTwice(s0, s2, Now());
      AdditiveTwice(was, s0, Now());
      LazilyTwice(s0, s2, Now());
      LazilyTwice(was, s0, Now());
      Here(p);
      return true, names;
    }

    /** Replaces everything cached below a folder by the folders that the camera lists. */
    method Rehang(foldername: string, folder: FolderNode, list: seq<Name>,
                  ghost p: Path, ghost sf: Stale, ghost sd: Stale)
      requires Intact() && Coherent(Now(), sf, sd) && Absolute(foldername) && Comps(foldername) == p
      requires p in dirs && dirs[p] == folder && Settled(Now().tree, p) && folder.foldersDirty
      requires p in device.dirs && list == device.dirs[p].folders
      modifies this`dirs, this`repr, lru, repr
      ensures Intact() && Coherent(Now(), sf, sd) && repr >= old(repr) && fresh(repr - old(repr))
      ensures Lazily(old(Now()), Now()) && device == old(device)
      ensures Additive(old(Now()), Now())
      ensures p in dirs && dirs[p] == folder && Settled(Now().tree, p)
      ensures folder.foldersDirty && SameNames(FolderNames(folder.folders), list)
      ensures BackToFront(FolderNames(folder.folders), list)
      ensures ChildrenVirgin(Now().tree, p)
      decreases |foldername|, 1, 1
    {
      hide *;
      ghost var s0 := Now();
      Whole();
      DeleteAllFolders(foldername, folder, p, sf, sd);
      KnownFolder(folder, p, sf, sd);
      ghost var s1 := Now();
      AppendFolders(folder, list, p, sf, sd);
      LazilyTwice(s0, s1, Now());
      AdditiveTwice(s0, s1, Now());
    }

    lemma Whole()
      requires Intact()
      ensures InTree(Now()) && AllCached(Now()) && WellFormed(Now().tree)
      ensures forall n :: n in Live(Now().tree) ==> n in repr
      ensures Distinct(Now().items)
    {
    }

    lemma NoNameTwice(p: Path)
      requires Intact() && p in dirs
      ensures Distinct(FolderNames(dirs[p].folders)) && Distinct(FileNames(dirs[p].files))
    {
      assert WellKept(Snap(), p);
    }

    lemma KnownFolder(f: FolderNode, p: Path, sf: Stale, sd: Stale)
      requires Intact() && Coherent(Now(), sf, sd) && p in dirs && dirs[p] == f
      ensures p in device.dirs
      ensures !f.foldersDirty ==> Current(FolderNames(f.folders), device.dirs[p].folders, sd, p)
      ensures p in Now().tree && Now().tree[p] == Dir(f, f.filesDirty, f.foldersDirty, f.folders, f.files)
      ensures LegalDir(device.dirs[p]) && forall n :: n in device.dirs[p].folders ==> p + [n] in device.dirs
      ensures InTree(Now()) && f in repr && Now().device == device
    {
      assert FolderAgrees(Snap()[p], device, sd, p) && LegalAt(device, p);
    }

    lemma KnownFiles(f: FolderNode, p: Path, sf: Stale, sd: Stale)
      requires Intact() && Coherent(Now(), sf, sd) && p in dirs && dirs[p] == f && !f.filesDirty
      requires Settled(Now().tree, p)
      ensures ShowsFiles(Now(), p, FileNames(f.files), sf) && Distinct(FileNames(f.files))
    {
      assert FileAgrees(Snap()[p], device, sf, p) && WellKept(Snap(), p);
    }

    /** Frees all folders cached below a folder that is about to be listed. */
    method DeleteAllFolders(foldername: string, folder: FolderNode, ghost p: Path, ghost sf: Stale, ghost sd: Stale)
      requires Intact() && Coherent(Now(), sf, sd) && Absolute(foldername) && Comps(foldername) == p
      requires p in dirs && dirs[p] == folder && Settled(Now().tree, p) && folder.foldersDirty
      modifies this`dirs, this`repr, lru, repr
      ensures Intact() && Coherent(Now(), sf, sd) && repr >= old(repr) && fresh(repr - old(repr))
      ensures Lazily(old(Now()), Now()) && device == old(device)
      ensures Additive(old(Now()), Now())
      ensures p in dirs && dirs[p] == folder && Settled(Now().tree, p)
      ensures folder.folders == [] && folder.foldersDirty
      decreases |foldername|, 1, 0
    {
      hide *;
      Here(p);
      var again := LookupFolder(foldername, sf, sd);
      KnownFolder(folder, p, sf, sd);
      ghost var s0 := Now();
      Whole();
      RecurseDeleteFolder(folder, p);
      PrunedLazily(s0, Now(), p, sf, sd);
      Here(p);
    }

    /** A folder of the tree, seen in the state. */
    lemma Here(p: Path)
      ensures p in dirs <==> p in Now().tree
      ensures p in dirs ==> var f := dirs[p]; Now().tree[p] == Dir(f, f.filesDirty, f.foldersDirty, f.folders, f.files)
      ensures Now().device == device
    {
    }

    /** Hangs the folders that the camera lists. */
    method AppendFolders(folder: FolderNode, list: seq<Name>, ghost p: Path, ghost sf: Stale, ghost sd: Stale)
      requires Intact() && Coherent(Now(), sf, sd) && p in dirs && dirs[p] == folder && Settled(Now().tree, p)
      requires folder.folders == [] && folder.foldersDirty && p in device.dirs && list == device.dirs[p].folders
      modifies this`dirs, this`repr, folder`folders
      ensures Intact() && Coherent(Now(), sf, sd) && repr >= old(repr) && fresh(repr - old(repr))
      ensures Lazily(old(Now()), Now()) && device == old(device)
      ensures Additive(old(Now()), Now())
      ensures p in dirs && dirs[p] == folder && Settled(Now().tree, p)
      ensures folder.foldersDirty && SameNames(FolderNames(folder.folders), list)
      ensures BackToFront(FolderNames(folder.folders), list)
      ensures ChildrenVirgin(Now().tree, p)
    {
      hide *;
      KnownFolder(folder, p, sf, sd);
      LazilySame(Now());
      NoChildren(Now().tree, p);
      AdditiveSame(Now());
      ghost var s0, cam := Now(), device;
      NoFolderNames();
      NothingHung();
      var y := 0;
      while y < |list|
        invariant y <= |list| && p in dirs && dirs[p] == folder && folder.foldersDirty && device == cam
        invariant Intact() && Coherent(Now(), sf, sd) && repr >= old(repr) && fresh(repr - old(repr))
        invariant Lazily(s0, Now()) && Settled(Now().tree, p)
        invariant SameNames(FolderNames(folder.folders), list[..y]) && ChildrenVirgin(Now().tree, p)
        invariant BackToFront(FolderNames(folder.folders), list[..y])
        invariant Additive(s0, Now())
      {
        ghost var s1 := Now();
        NextName(FolderNames(folder.folders), list, y);
        HungInFront(FolderNames(folder.folders), list, y);
        KnownFolder(folder, p, sf, sd);
        var f := AppendFolderOne(folder, list[y], p);
        WithFolderLazily(s1, Now(), p, f, sf, sd);
        AdditiveTwice(s0, s1, Now());
        LazilyTwice(s0, s1, Now());
        Here(p);
        NamesWith(f, s1.tree[p].folders);
        y := y + 1;
      }
      assert list[..y] == list;
    }
  }
}
