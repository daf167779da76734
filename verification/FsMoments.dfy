/** The operations of the virtual filesystem, and what each of them does to a moment of a run. */
module FsMoments {
  import opened Prelude
  import opened Lru
  import opened References
  import opened Paths
  import opened FsTree
  import opened FsAgree
  import opened FsCamera
  import opened FsSteps
  import opened FsCacheSpec
  import opened Filesystem
  import opened FsFiles
  import opened FsFolders
  import opened FsCache

  /** A file object that the caller holds, some number of times. */
  datatype Hand = Hand(file: Shared, count: nat)

  /** File objects are named by the order in which the run made them. */
  datatype Op =
    | ListFoldersOf(folder: string)
    | ListFilesOf(folder: string)
    | Get(folder: string, file: Name, kind: Kind)
    | Delete(folder: string, file: Name, refused: set<Name>)
    | Clear(folder: string, driver: DriverClear, refused: set<Name>)
    | Make(folder: string, name: Name, accepts: bool)
    | Remove(folder: string, name: Name, accepts: bool)
    | Take(folder: string, file: Name, content: Cache)
    | Put(folder: string, file: Name, kind: Kind, hand: nat, content: Cache, accepts: bool)
    | Feed(folder: string, file: Name, kind: Kind, hand: nat)
    | StartOver(camera: Device)
    | Create(data: seq<Byte>)
    | HoldAgain(hand: nat)
    | LetGo(hand: nat)

  predicate Holds(hands: seq<Hand>, hand: nat) {
    hand < |hands| && hands[hand].count > 0
  }

  /**
   * What the camera, its driver and the callers keep to: a failing deletion leaves some of the files, a capture
   * stores a new file, a file object handed in is held by the one who hands it in, and a camera that has
   * changed in other ways still has a tree of folders.
   */
  predicate Allowed(c: Device, hands: seq<Hand>, op: Op) {
    match op
    case Clear(f, driver, _) => driver.Fails? && Comps(f) in c.dirs ==> SomeOf(driver.left, c.dirs[Comps(f)].files)
    case Take(f, n, _) => Absolute(f) && Capture(c, Comps(f), n)
    case Put(_, _, _, h, _, _) => Holds(hands, h)
    case Feed(_, _, _, h) => Holds(hands, h)
    case StartOver(camera) => LegalDevice(camera)
    case HoldAgain(h) => Holds(hands, h)
    case LetGo(h) => Holds(hands, h)
    case _ => true
  }

  predicate SomeOf(left: seq<Name>, files: seq<Name>) {
    Distinct(left) && forall n :: n in left ==> n in files
  }

  lemma AllowedMeans(c: Device, hands: seq<Hand>, op: Op)
    requires Allowed(c, hands, op)
    ensures op.Clear? && op.driver.Fails? && Comps(op.folder) in c.dirs ==>
              Distinct(op.driver.left) && forall n :: n in op.driver.left ==> n in c.dirs[Comps(op.folder)].files
    ensures op.Take? ==> Absolute(op.folder) && Capture(c, Comps(op.folder), op.file)
    ensures op.Put? || op.Feed? || op.HoldAgain? || op.LetGo? ==> op.hand < |hands| && hands[op.hand].count > 0
    ensures op.StartOver? ==> LegalDevice(op.camera)
  {
  }

  /** The number of listed files that hold significant data is bounded. */
  ghost predicate Bounded(s: State, keep: nat) {
    HeavyCount(s.items, s.caches) <= keep + 1
  }

  /** The caller holds what it believes to hold, and knows its file objects apart. */
  ghost predicate Holding(hands: seq<Hand>, holders: multiset<Shared>) {
    && (forall i :: 0 <= i < |hands| ==> hands[i].count <= holders[hands[i].file])
    && (forall i, j :: 0 <= i < j < |hands| ==> hands[i].file != hands[j].file)
  }

  /** What every operation keeps. */
  ghost predicate Ready(fs: Filesystem, hands: seq<Hand>)
    reads fs, fs.dirs.Values, fs.lru, fs.lru.items, Live(fs.Snap()), fs.ledger, fs.ledger.files
  {
    Agreeing(fs) && Bounded(fs.Now(), fs.picturesToKeep) && Holding(hands, fs.ledger.holders)
  }

  /** A moment of a run: the state, what the caller holds, and what anybody holds. */
  datatype Moment = Moment(state: State, hands: seq<Hand>, holders: multiset<Shared>)

  ghost function At(fs: Filesystem, hands: seq<Hand>): Moment
    reads fs, fs.dirs.Values, fs.lru, fs.lru.items, Live(fs.Snap()), fs.ledger
  {
    Moment(fs.Now(), hands, fs.ledger.holders)
  }

  datatype Answer = Nothing | Answer(what: Fetched)

  // ------------------------------------------------------------------
  // What one operation does
  // ------------------------------------------------------------------

  /** Operations that cache nothing but what the camera has. */
  ghost predicate Honest(a: Moment, op: Op) {
    match op
    case Put(f, n, _, h, content, accepts) =>
      h < |a.hands| && Stores(a.state.device, f, accepts) ==>
        !Spoils(a.state, Comps(f), n, a.hands[h].file.data, content)
    case Feed(f, n, k, h) =>
      h < |a.hands| && Absolute(f) && IsFile(a.state.device, Comps(f), n) ==>
        CamerasOwn(a.state.device, Comps(f), n, k, a.hands[h].file.data)
    case _ => true
  }

  /** Honest operations, and only these, keep the cached data the camera's. */
  ghost predicate KeepsFaith(a: Moment, op: Op, b: Moment) {
    Faithful(a.state) ==> (Faithful(b.state) <==> Honest(a, op))
  }

  /** What asking the camera would give. */
  function Asked(c: Device, folder: string, file: Name, kind: Kind): Fetched {
    if Absolute(folder) then Direct(c, Comps(folder), file, kind) else Failed(PathNotAbsolute)
  }

  /** As long as the cache is faithful, getting data is asking the camera for it. */
  ghost predicate AnswersWell(a: Moment, op: Op, answer: Answer) {
    op.Get? && Faithful(a.state) ==> answer == Answer(Asked(a.state.device, op.folder, op.file, op.kind))
  }

  /** Whether an operation gives a file of the tree a significant amount of data. */
  predicate FeedsHeavy(c: Device, op: Op) {
    op.Feed? && Heavy(op.kind) && Absolute(op.folder) && IsFile(c, Comps(op.folder), op.file)
  }

  /** The list loses nodes and keeps the others in order; a file fed comes last. */
  ghost predicate KeepsOrder(a: Moment, op: Op, fed: FileNode?, b: Moment) {
    && (fed != null <==> FeedsHeavy(a.state.device, op))
    && (fed != null ==> fed.home == Comps(op.folder) && fed.name == op.file)
    && Reordered(a.state.items, fed, b.state.items)
  }

  ghost predicate Reordered(before: seq<FileNode>, fed: FileNode?, after: seq<FileNode>) {
    var tail: seq<FileNode> := if fed == null then [] else [fed];
    && |tail| <= |after|
    && var front := after[..|after| - |tail|];
      && after == front + tail && fed !in front
      && front == Minus(before, set n | n in before && n !in front)
  }

  /**
   * Whether an operation leaves the size kept with the list exact: a file fed is listed already or holds no other
   * significant data, and no listed file that holds any is deleted.
   */
  ghost predicate Measured(a: Moment, op: Op, b: Moment) {
    match op
    case Feed(f, n, k, _) =>
      FeedsHeavy(a.state.device, op) ==>
        forall m :: m in CleanFiles(a.state.tree) && m.home == Comps(f) && m.name == n && m in a.state.caches ==>
          FedWhole(a.state, m, k)
    case Delete(f, n, refused) =>
      Absolute(f) && n !in refused ==>
        forall m :: m in a.state.items && m.home == Comps(f) && m.name == n ==> Weightless(a.state, m)
    case Clear(_, _, _) =>
      forall m :: m in a.state.items && m !in Live(b.state.tree) ==> Weightless(a.state, m)
    case _ => true
  }

  ghost predicate Weightless(s: State, m: FileNode) {
    m in s.caches ==> HeavySize(s.caches[m]) == 0
  }

  /** Listed files stay in clean folders, and an exact size stays exact exactly if the operation is measured. */
  ghost predicate KeepsSize(a: Moment, op: Op, b: Moment) {
    Anchored(a.state) ==> Anchored(b.state) && (Sized(a.state) ==> (Sized(b.state) <==> Measured(a, op, b)))
  }

  /** Only the caller's own making, holding and letting go changes who holds what outside the cache. */
  ghost predicate KeepsBooks(a: Moment, op: Op, b: Moment) {
    match op
    case Create(data) =>
      && |b.hands| == |a.hands| + 1 && b.hands[..|a.hands|] == a.hands && b.hands[|a.hands|].count == 1
      && b.hands[|a.hands|].file.data == data && b.holders == a.holders + multiset{b.hands[|a.hands|].file}
    case HoldAgain(h) =>
      && h < |a.hands| && b.hands == a.hands[h := Hand(a.hands[h].file, a.hands[h].count + 1)]
      && b.holders == a.holders + multiset{a.hands[h].file}
    case LetGo(h) =>
      && h < |a.hands| && a.hands[h].count > 0 && b.hands == a.hands[h := Hand(a.hands[h].file, a.hands[h].count - 1)]
      && b.holders == a.holders - multiset{a.hands[h].file}
    case _ => b.hands == a.hands && b.holders == a.holders
  }

  /** One moment follows another by an operation. */
  ghost predicate Follows(a: Moment, op: Op, answer: Answer, fed: FileNode?, b: Moment) {
    && KeepsFaith(a, op, b) && AnswersWell(a, op, answer) && KeepsOrder(a, op, fed, b)
    && KeepsSize(a, op, b) && KeepsBooks(a, op, b)
  }

  lemma {:induction false} LosesInOrder(before: seq<FileNode>, gone: set<FileNode>)
    ensures Reordered(before, null, Minus(before, gone))
  {
    hide Minus;
    var after := Minus(before, gone);
    assert after[..|after|] == after && after + [] == after;
    MinusMembers(before, gone);
    MinusSame(before, gone, set n | n in before && n !in after);
  }

  lemma {:induction false} MinusAll(s: seq<FileNode>, gone: set<FileNode>)
    requires forall n :: n in s ==> n in gone
    ensures Minus(s, gone) == []
  {
    if s != [] {
      MinusAll(s[1..], gone);
    }
  }

  lemma {:induction false} EndIsMinus(s: seq<FileNode>, j: nat)
    requires j <= |s| && Distinct(s)
    ensures s[j..] == Minus(s, set x | x in s[..j])
    decreases j
  {
    if j == 0 {
      MinusNone(s, set x | x in s[..0]);
    } else {
      var rest := s[1..];
      assert Distinct(rest) && rest[j - 1..] == s[j..];
      EndIsMinus(rest, j - 1);
      var first := rest[..j - 1];
      assert s[..j] == [s[0]] + first && s[0] !in rest;
      MinusSame(rest, (set x | x in first), (set x | x in s[..j]));
    }
  }

  /** Listing on demand and then feeding a file. */
  lemma FedInOrder(before: seq<FileNode>, gone: set<FileNode>, j: nat, n: FileNode, after: seq<FileNode>)
    requires j <= |Minus(before, gone)| && Distinct(Minus(before, gone))
    requires after == Minus(Minus(before, gone)[j..], {n}) + [n]
    ensures Reordered(before, n, after)
  {
    hide Minus;
    var found := Minus(before, gone);
    var first := set x | x in found[..j];
    EndIsMinus(found, j);
    MinusMinus(before, gone, first);
    MinusMinus(before, gone + first, {n});
    var front := Minus(before, gone + first + {n});
    assert after[..|after| - 1] == front;
    MinusMembers(before, gone + first + {n});
    MinusSame(before, gone + first + {n}, set x | x in before && x !in front);
  }

  lemma KeptBounded(a: State, b: State, keep: nat)
    requires ListKept(a, b) && Bounded(a, keep)
    ensures Bounded(b, keep)
  {
    KeptBound(a, b);
  }

  /** After an operation that lists folders or files on demand. */
  lemma AfterLooking(a: Moment, op: Op, answer: Answer, b: Moment, known: set<object>, keep: nat)
    requires op.ListFoldersOf? || op.ListFilesOf? || op.Get?
    requires Listed(a.state, b.state, known) && Additive(a.state, b.state) && Proper(a.state) && Proper(b.state)
    requires forall n :: n in Live(a.state.tree) ==> n in known
    requires Bounded(a.state, keep) && AnswersWell(a, op, answer) && b.hands == a.hands && b.holders == a.holders
    ensures Follows(a, op, answer, null, b) && Bounded(b.state, keep)
  {
    hide Listed, Additive, Proper, Bounded, Reordered, AnswersWell, Anchored, Sized, Faithful;
    ListedKeeps(a.state, b.state, known);
    UnfedKeepsList(a.state, b.state, known);
    AfterSparing(a.state, b.state, keep);
  }

  lemma AfterSparing(a: State, b: State, keep: nat)
    requires ListKept(a, b) && Additive(a, b)
    ensures Anchored(a) ==> Anchored(b) && (Sized(a) <==> Sized(b))
    ensures Reordered(a.items, null, b.items) && (Bounded(a, keep) ==> Bounded(b, keep))
  {
    hide Additive, Bounded, Reordered, Anchored, Sized;
    if Bounded(a, keep) {
      KeptBounded(a, b, keep);
    }
    LosesInOrder(a.items, Live(a.tree) - Live(b.tree));
    if Anchored(a) {
      SparedSized(a, b);
    }
  }

  /** After an operation that changes folders of the camera, or adds a file, and takes in no data. */
  lemma AfterChange(a: Moment, op: Op, b: Moment, known: set<object>, keep: nat)
    requires op.Make? || op.Remove? || op.Take?
    requires Unfed(a.state, b.state, known) && Additive(a.state, b.state) && Proper(a.state) && Proper(b.state)
    requires forall n :: n in Live(a.state.tree) ==> n in known
    requires Faithful(a.state) ==> Faithful(b.state)
    requires Bounded(a.state, keep) && b.hands == a.hands && b.holders == a.holders
    ensures Follows(a, op, Nothing, null, b) && Bounded(b.state, keep)
  {
    hide Unfed, Additive, Proper, Bounded, Reordered, Anchored, Sized, Faithful;
    UnfedKeepsList(a.state, b.state, known);
    AfterSparing(a.state, b.state, keep);
  }

  /** A file that the camera does not have has no node in a clean folder of an agreeing tree. */
  lemma NoSuchNode(s: State, p: Path, name: Name)
    requires Proper(s) && Coherent(s, map[], map[]) && !IsFile(s.device, p, name)
    ensures forall n :: n in CleanFiles(s.tree) ==> !(n.home == p && n.name == name)
  {
    hide Rooted, FolderAgrees;
    forall n | n in CleanFiles(s.tree) && n.home == p
      ensures n.name != name
    {
      var q :| q in s.tree && !s.tree[q].filesDirty && n in s.tree[q].files;
      LiveHome(s.tree, q, n);
      NamedHere(s.tree, n);
      assert FileAgrees(s.tree[p], s.device, map[], p);
    }
  }

  /** After a deletion: unless it was refused, the file has no node any more, and all others have theirs. */
  lemma AfterDelete(a: Moment, op: Op, b: Moment, r: Outcome, known: set<object>, keep: nat)
    requires op.Delete? && Unfed(a.state, b.state, known) && Proper(a.state) && Proper(b.state)
    requires forall n :: n in Live(a.state.tree) ==> n in known
    requires Coherent(a.state, map[], map[]) && Coherent(b.state, map[], map[])
    requires Faithful(a.state) ==> Faithful(b.state)
    requires SparesBut(a.state, b.state, Comps(op.folder), op.file)
    requires r != Done ==> Additive(a.state, b.state)
    requires r == Done ==> Shown(b.state.tree, Comps(op.folder)) && !IsFile(b.state.device, Comps(op.folder), op.file)
    requires r == Done <==>
      Absolute(op.folder) && IsFile(a.state.device, Comps(op.folder), op.file) && op.file !in op.refused
    requires Bounded(a.state, keep) && b.hands == a.hands && b.holders == a.holders
    ensures Follows(a, op, Nothing, null, b) && Bounded(b.state, keep)
  {
    hide Unfed, Additive, Proper, Coherent, Bounded, Reordered, Anchored, Sized, Faithful, SparesBut, Shown, Measured;
    UnfedKeepsList(a.state, b.state, known);
    KeptBounded(a.state, b.state, keep);
    LosesInOrder(a.state.items, Live(a.state.tree) - Live(b.state.tree));
    if Anchored(a.state) {
      if r == Done {
        DeletedSized(a, op, b);
      } else {
        SparedSized(a.state, b.state);
        RefusedMeasured(a, op, b);
      }
    }
  }

  lemma RefusedMeasured(a: Moment, op: Op, b: Moment)
    requires op.Delete? && Proper(a.state) && Coherent(a.state, map[], map[]) && Anchored(a.state)
    requires !(Absolute(op.folder) && IsFile(a.state.device, Comps(op.folder), op.file) && op.file !in op.refused)
    ensures Measured(a, op, b)
  {
    hide Proper, Coherent, IsFile;
    if !IsFile(a.state.device, Comps(op.folder), op.file) {
      NoSuchNode(a.state, Comps(op.folder), op.file);
    }
  }

  lemma DeletedSized(a: Moment, op: Op, b: Moment)
    requires op.Delete? && ListKept(a.state, b.state) && Proper(a.state) && Proper(b.state) && Anchored(a.state)
    requires SparesBut(a.state, b.state, Comps(op.folder), op.file)
    requires Coherent(b.state, map[], map[]) && Shown(b.state.tree, Comps(op.folder))
    requires !IsFile(b.state.device, Comps(op.folder), op.file) && Absolute(op.folder) && op.file !in op.refused
    ensures Anchored(b.state) && (Sized(a.state) ==> (Sized(b.state) <==> Measured(a, op, b)))
  {
    hide Coherent, Sized, Minus, WellFormed, IsFile, Settled;
    var p := Comps(op.folder);
    NoSuchNode(b.state, p, op.file);
    MinusMembers(a.state.items, Live(a.state.tree) - Live(b.state.tree));
    forall n | n in a.state.items
      ensures n.home == p && n.name == op.file ==> n !in Live(b.state.tree)
      ensures !(n.home == p && n.name == op.file) ==> n in CleanFiles(b.state.tree) && n in Live(b.state.tree)
    {
      LiveInClean(b.state.tree, p, n);
    }
    if Sized(a.state) {
      RemovalSized(a.state, b.state);
    }
  }

  /** The live files of a clean folder. */
  lemma LiveInClean(t: Tree, p: Path, n: FileNode)
    requires WellFormed(t) && p in t && !t[p].filesDirty
    ensures n in Live(t) && n.home == p ==> n in CleanFiles(t)
  {
    LiveAt(t, n);
  }

  /** After all files of a folder were to be deleted. */
  lemma AfterClear(a: Moment, op: Op, b: Moment, known: set<object>, keep: nat)
    requires op.Clear? && Unfed(a.state, b.state, known) && Proper(a.state) && Proper(b.state)
    requires forall n :: n in Live(a.state.tree) ==> n in known
    requires Faithful(a.state) ==> Faithful(b.state)
    requires Additive(a.state, b.state)
          || (SparesOutside(a.state, b.state, Comps(op.folder)) && Shown(b.state.tree, Comps(op.folder)))
    requires Bounded(a.state, keep) && b.hands == a.hands && b.holders == a.holders
    ensures Follows(a, op, Nothing, null, b) && Bounded(b.state, keep)
  {
    hide Unfed, Proper, Bounded, Reordered, Sized, Faithful, Settled, HeavySize, Additive, Anchored, SparesOutside;
    UnfedKeepsList(a.state, b.state, known);
    KeptBounded(a.state, b.state, keep);
    LosesInOrder(a.state.items, Live(a.state.tree) - Live(b.state.tree));
    if Anchored(a.state) {
      ClearedAnchored(a.state, b.state, Comps(op.folder));
      if Sized(a.state) {
        RemovalSized(a.state, b.state);
        AllLive(a.state);
      }
    }
  }

  lemma AllLive(s: State)
    requires Proper(s)
    ensures forall n :: n in s.items ==> n in Live(s.tree)
  {
  }

  lemma ClearedAnchored(a: State, b: State, p: Path)
    requires ListKept(a, b) && Proper(b) && Anchored(a)
    requires Additive(a, b) || (SparesOutside(a, b, p) && Shown(b.tree, p))
    ensures Anchored(b)
  {
    hide Minus, WellFormed, Settled;
    MinusMembers(a.items, Live(a.tree) - Live(b.tree));
    forall n | n in b.items
      ensures n in CleanFiles(b.tree)
    {
      assert n in a.items;
      if !Additive(a, b) {
        LiveInClean(b.tree, p, n);
      }
    }
  }

  lemma AfterPut(a: Moment, op: Op, b: Moment, keep: nat)
    requires op.Put? && op.hand < |a.hands| && ListKept(a.state, b.state) && Additive(a.state, b.state)
    requires Faithful(a.state) ==>
      (Faithful(b.state) <==> !(Stores(a.state.device, op.folder, op.accepts)
                                && Spoils(a.state, Comps(op.folder), op.file, a.hands[op.hand].file.data, op.content)))
    requires Bounded(a.state, keep) && b.hands == a.hands && b.holders == a.holders
    ensures Follows(a, op, Nothing, null, b) && Bounded(b.state, keep)
  {
    hide Bounded, Reordered, Anchored, Sized, Faithful, Stores, Spoils, Additive, ListKept;
    AfterSparing(a.state, b.state, keep);
  }

  lemma AfterFeed(a: Moment, op: Op, found: State, n: FileNode?, fed: FileNode?, b: Moment,
                  known: set<object>, keep: nat)
    requires op.Feed? && op.hand < |a.hands|
    requires Listed(a.state, found, known) && Additive(a.state, found) && Proper(a.state) && Proper(found)
    requires Distinct(found.items) && forall n :: n in Live(a.state.tree) ==> n in known
    requires n != null <==> Absolute(op.folder) && IsFile(a.state.device, Comps(op.folder), op.file)
    requires if n == null then b.state == found
             else && n in found.caches && n.home == Comps(op.folder) && n.name == op.file
                  && Shown(found.tree, Comps(op.folder))
                  && b.state == Fed(found, n, op.kind, a.hands[op.hand].file.data, keep)
    requires Faithful(a.state) ==>
      (Faithful(b.state) <==>
         (n != null ==> CamerasOwn(a.state.device, Comps(op.folder), op.file, op.kind, a.hands[op.hand].file.data)))
    requires fed == if Heavy(op.kind) then n else null
    requires Bounded(a.state, keep) && b.hands == a.hands && b.holders == a.holders
    ensures Follows(a, op, Nothing, fed, b) && Bounded(b.state, keep)
  {
    hide Listed, Additive, Proper, Reordered, Sized, Anchored, Faithful, Fed, HeavyCount, IsFile, CamerasOwn, Minus,
      Distinct, Measured, Shown;
    var data := a.hands[op.hand].file.data;
    ListedMeans(a.state, found, known);
    UnfedKeepsList(a.state, found, known);
    KeptBound(a.state, found);
    if n != null {
      FedBound(found, n, op.kind, data, keep);
    }
    if Anchored(a.state) {
      SparedSized(a.state, found);
      if n == null {
        NotFedMeasured(a, op, b);
      } else {
        FedAnchored(found, n, op.kind, data, keep);
        FedMeasured(a, op, found, n, b, known);
        if Sized(found) {
          FedSized(found, n, op.kind, data, keep);
        }
      }
    }
    AfterFeedOrder(a.state, found, n, op.kind, data, b.state, keep);
  }

  lemma NotFedMeasured(a: Moment, op: Op, b: Moment)
    requires op.Feed? && !(Absolute(op.folder) && IsFile(a.state.device, Comps(op.folder), op.file))
    ensures Measured(a, op, b)
  {
  }

  lemma FedAnchored(found: State, n: FileNode, k: Kind, data: seq<Byte>, keep: nat)
    requires Proper(found) && n in found.caches && Shown(found.tree, n.home) && Anchored(found)
    ensures Anchored(Fed(found, n, k, data, keep))
  {
    hide Minus, Trimmed, WellFormed, Settled, CleanFiles;
    TrimmedKeys(found, keep);
    TrimmedIsSuffix(found, keep);
    LiveInClean(found.tree, n.home, n);
    FromTheEnd(found.items, Trimmed(found, keep).items, n);
  }

  /** What moving a node to the end of what is left of a list holds. */
  lemma FromTheEnd(items: seq<FileNode>, rest: seq<FileNode>, n: FileNode)
    requires |rest| <= |items| && rest == items[|items| - |rest|..]
    ensures forall m :: m in Minus(rest, {n}) + [n] ==> m == n || m in items
  {
    MinusMembers(rest, {n});
    forall m | m in rest
      ensures m in items
    {
    }
  }

  /** Whether feeding is measured can be told before the file is looked up. */
  lemma FedMeasured(a: Moment, op: Op, found: State, n: FileNode, b: Moment, known: set<object>)
    requires op.Feed? && Listed(a.state, found, known) && Additive(a.state, found) && Proper(a.state) && Proper(found)
    requires forall m :: m in Live(a.state.tree) ==> m in known
    requires n in found.caches && n.home == Comps(op.folder) && n.name == op.file && Shown(found.tree, n.home)
    requires Absolute(op.folder) && IsFile(a.state.device, n.home, n.name) && found.items == a.state.items
    ensures Measured(a, op, b) <==> FedWhole(found, n, op.kind)
  {
    hide Minus, HeavySize, SizeOf, Settled, WellFormed, IsFile;
    LiveInClean(found.tree, n.home, n);
    forall m | m in CleanFiles(a.state.tree) && m.home == n.home && m.name == n.name
      ensures m == n && m in a.state.caches && found.caches[n] == a.state.caches[n]
    {
      SameNode(found, m, n);
      CleanIsLive(a.state.tree);
    }
    if n !in CleanFiles(a.state.tree) {
      NewNode(a.state, found, n, known);
      NoData(op.kind);
    }
  }

  lemma CleanIsLive(t: Tree)
    ensures CleanFiles(t) <= Live(t)
  {
  }

  lemma NoData(k: Kind)
    ensures HeavySize(map[]) == 0 && SizeOf(map[], k) == 0
  {
  }

  /** A folder has one node of a name. */
  lemma SameNode(s: State, m: FileNode, n: FileNode)
    requires Proper(s) && m in Live(s.tree) && n in Live(s.tree) && m.home == n.home && m.name == n.name
    ensures m == n
  {
    LiveAt(s.tree, m);
    LiveAt(s.tree, n);
    assert WellKept(s.tree, n.home);
    var i :| 0 <= i < |s.tree[n.home].files| && s.tree[n.home].files[i] == m;
    var j :| 0 <= j < |s.tree[n.home].files| && s.tree[n.home].files[j] == n;
    assert FileNames(s.tree[n.home].files)[i] == FileNames(s.tree[n.home].files)[j];
  }

  /** A file of a folder that is listed now and was not before has no data. */
  lemma NewNode(a: State, b: State, n: FileNode, known: set<object>)
    requires Listed(a, b, known) && Proper(b) && n in b.caches && n in CleanFiles(b.tree) && n !in CleanFiles(a.tree)
    ensures b.caches[n] == map[]
  {
    hide Minus, Live;
    var p :| p in b.tree && !b.tree[p].filesDirty && n in b.tree[p].files;
    assert FileListed(a, b, p);
  }

  lemma AfterFeedOrder(a: State, found: State, n: FileNode?, k: Kind, data: seq<Byte>, b: State, keep: nat)
    requires ListKept(a, found) && Distinct(found.items)
    requires if n == null then b == found else n in found.caches && b == Fed(found, n, k, data, keep)
    ensures Reordered(a.items, if Heavy(k) then n else null, b.items)
  {
    hide Minus, Trimmed, Distinct, Reordered;
    var gone := Live(a.tree) - Live(found.tree);
    if n != null && Heavy(k) {
      TrimmedIsSuffix(found, keep);
      FedInOrder(a.items, gone, |found.items| - |Trimmed(found, keep).items|, n, b.items);
    } else {
      LosesInOrder(a.items, gone);
    }
  }

  lemma AfterReset(a: Moment, op: Op, s: State, b: Moment, root: FolderNode, keep: nat)
    requires op.StartOver? && s == a.state.(device := s.device) && Faithful(b.state)
    requires b.state.tree == map[[] := Dir(root, true, true, [], [])] && b.state.items == [] && b.state.caches == map[]
    requires b.state.size == if s.items == [] then s.size else 0
    requires b.hands == a.hands && b.holders == a.holders
    ensures Follows(a, op, Nothing, null, b) && Bounded(b.state, keep)
  {
    hide Faithful, Reordered;
    var all := set n | n in a.state.items;
    MinusAll(a.state.items, all);
    LosesInOrder(a.state.items, all);
  }

  lemma AfterReferences(a: Moment, op: Op, b: Moment)
    requires (op.Create? || op.HoldAgain? || op.LetGo?) && b.state == a.state && KeepsBooks(a, op, b)
    ensures Follows(a, op, Nothing, null, b)
  {
    hide Faithful, Reordered, Anchored, Sized, KeepsBooks;
    MinusNone(a.state.items, {});
    LosesInOrder(a.state.items, {});
  }
}
