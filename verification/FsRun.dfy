/** Whole runs of the virtual filesystem. */
module FsRun {
  import opened Lru
  import opened References
  import opened Paths
  import opened FsTree
  import opened FsAgree
  import opened FsCamera
  import opened FsSteps
  import opened FsCacheSpec
  import opened Filesystem
  import opened FsFiles
  import opened FsFolders
  import opened FsCache
  import opened FsMoments

  // ------------------------------------------------------------------
  // Steps
  // ------------------------------------------------------------------

  method Look(fs: Filesystem, op: Op, hands: seq<Hand>) returns (answer: Answer)
    requires Ready(fs, hands) && (op.ListFoldersOf? || op.ListFilesOf? || op.Get?)
    modifies fs`dirs, fs`repr, fs.lru, fs.repr
    ensures Ready(fs, hands) && fs.repr >= old(fs.repr) && fresh(fs.repr - old(fs.repr))
    ensures Follows(old(At(fs, hands)), op, answer, null, At(fs, hands))
  {
    hide *;
    ghost var a, known := At(fs, hands), fs.repr;
    ReadyMeans(fs, hands);
    SoundMeans(fs);
    answer := Nothing;
    match op {
      case ListFoldersOf(f) =>
        var _, _ := fs.ListFolders(f, map[], map[]);
        LazilyListed(a.state, fs.Now(), known);
      case ListFilesOf(f) =>
        var _, _ := ListFiles(fs, f, map[], map[]);
      case Get(f, n, k) =>
        var r, _ := GetFile(fs, f, n, k);
        answer := Answer(r);
    }
    SoundMeans(fs);
    WellAnswered(a, op, answer);
    ReadyMeans(fs, hands);
    AfterLooking(a, op, answer, At(fs, hands), known, fs.picturesToKeep);
  }

  lemma ReadyMeans(fs: Filesystem, hands: seq<Hand>)
    ensures Ready(fs, hands) <==>
      Agreeing(fs) && Bounded(fs.Now(), fs.picturesToKeep) && Holding(hands, fs.ledger.holders)
    ensures At(fs, hands) == Moment(fs.Now(), hands, fs.ledger.holders)
  {
  }

  lemma WellAnswered(a: Moment, op: Op, answer: Answer)
    requires op.Get? && Faithful(a.state) ==>
      answer == Answer(if Absolute(op.folder) then Direct(a.state.device, Comps(op.folder), op.file, op.kind)
                       else Failed(PathNotAbsolute))
    ensures AnswersWell(a, op, answer)
  {
  }

  method Change(fs: Filesystem, op: Op, hands: seq<Hand>)
    requires Ready(fs, hands) && Allowed(fs.device, hands, op) && (op.Make? || op.Remove? || op.Take?)
    modifies fs, fs.lru, fs.repr
    ensures Ready(fs, hands) && fs.repr >= old(fs.repr) && fresh(fs.repr - old(fs.repr))
    ensures Follows(old(At(fs, hands)), op, Nothing, null, At(fs, hands))
  {
    hide *;
    ghost var a, known := At(fs, hands), fs.repr;
    ReadyMeans(fs, hands);
    SoundMeans(fs);
    AllowedMeans(fs.device, hands, op);
    match op {
      case Make(f, n, accepts) => var _ := MakeDir(fs, f, n, accepts);
      case Remove(f, n, accepts) => var _ := RemoveDir(fs, f, n, accepts);
      case Take(f, n, content) => CaptureFile(fs, f, n, content);
    }
    SoundMeans(fs);
    ReadyMeans(fs, hands);
    AfterChange(a, op, At(fs, hands), known, fs.picturesToKeep);
  }

  method DropOne(fs: Filesystem, op: Op, hands: seq<Hand>)
    requires Ready(fs, hands) && op.Delete?
    modifies fs, fs.lru, fs.repr
    ensures Ready(fs, hands) && fs.repr >= old(fs.repr) && fresh(fs.repr - old(fs.repr))
    ensures Follows(old(At(fs, hands)), op, Nothing, null, At(fs, hands))
  {
    hide *;
    ghost var a, known := At(fs, hands), fs.repr;
    ReadyMeans(fs, hands);
    SoundMeans(fs);
    var r := DeleteFile(fs, op.folder, op.file, op.refused);
    SoundMeans(fs);
    ReadyMeans(fs, hands);
    DeletedOnCamera(a.state.device, Comps(op.folder), op.file);
    AfterDelete(a, op, At(fs, hands), r, known, fs.picturesToKeep);
  }

  lemma DeletedOnCamera(c: Device, p: Path, n: Name)
    ensures IsFile(c, p, n) ==> p in c.dirs
    ensures p in c.dirs ==> var d := Refilled(c, p, Without(c.dirs[p].files, n)); !IsFile(d, p, n) && p in d.dirs
  {
  }

  method DropAll(fs: Filesystem, op: Op, hands: seq<Hand>)
    requires Ready(fs, hands) && Allowed(fs.device, hands, op) && op.Clear?
    modifies fs, fs.lru, fs.repr
    ensures Ready(fs, hands) && fs.repr >= old(fs.repr) && fresh(fs.repr - old(fs.repr))
    ensures Follows(old(At(fs, hands)), op, Nothing, null, At(fs, hands))
  {
    hide *;
    ghost var a, known := At(fs, hands), fs.repr;
    ReadyMeans(fs, hands);
    SoundMeans(fs);
    AllowedMeans(fs.device, hands, op);
    var r := DeleteAll(fs, op.folder, op.driver, op.refused);
    SoundMeans(fs);
    ReadyMeans(fs, hands);
    AfterClear(a, op, At(fs, hands), known, fs.picturesToKeep);
  }

  method Store(fs: Filesystem, op: Op, hands: seq<Hand>)
    requires Ready(fs, hands) && Allowed(fs.device, hands, op) && op.Put?
    modifies fs, fs.lru, fs.repr
    ensures Ready(fs, hands) && fs.repr >= old(fs.repr) && fresh(fs.repr - old(fs.repr))
    ensures Follows(old(At(fs, hands)), op, Nothing, null, At(fs, hands))
  {
    hide *;
    ghost var a := At(fs, hands);
    ReadyMeans(fs, hands);
    SoundMeans(fs);
    AllowedMeans(fs.device, hands, op);
    InHand(hands, fs.ledger.holders, op.hand);
    var _ := PutFile(fs, op.folder, op.file, op.kind, hands[op.hand].file, op.content, op.accepts);
    SoundMeans(fs);
    ReadyMeans(fs, hands);
    AfterPut(a, op, At(fs, hands), fs.picturesToKeep);
  }

  lemma InHand(hands: seq<Hand>, holders: multiset<Shared>, h: nat)
    requires Holding(hands, holders) && h < |hands| && hands[h].count > 0
    ensures hands[h].file in holders
  {
  }

  method FeedCache(fs: Filesystem, op: Op, hands: seq<Hand>) returns (ghost fed: FileNode?)
    requires Ready(fs, hands) && Allowed(fs.device, hands, op) && op.Feed?
    modifies fs`dirs, fs`repr, fs.lru, fs.repr
    ensures Ready(fs, hands) && fs.repr >= old(fs.repr) && fresh(fs.repr - old(fs.repr))
    ensures Follows(old(At(fs, hands)), op, Nothing, fed, At(fs, hands))
  {
    hide *;
    ghost var a, known := At(fs, hands), fs.repr;
    ReadyMeans(fs, hands);
    SoundMeans(fs);
    AllowedMeans(fs.device, hands, op);
    InHand(hands, fs.ledger.holders, op.hand);
    var r, found, n := SetFileNoop(fs, op.folder, op.file, op.kind, hands[op.hand].file);
    SoundMeans(fs);
    ReadyMeans(fs, hands);
    IsFileMeans(fs.device, Comps(op.folder), op.file);
    ghost var node := if r == Done then n else null;
    fed := if Heavy(op.kind) then node else null;
    AfterFeed(a, op, found, node, fed, At(fs, hands), known, fs.picturesToKeep);
  }

  method Begin(fs: Filesystem, op: Op, hands: seq<Hand>)
    requires Ready(fs, hands) && Allowed(fs.device, hands, op) && op.StartOver?
    modifies fs, fs.lru, fs.repr
    ensures Ready(fs, hands) && fs.repr == old(fs.repr)
    ensures Follows(old(At(fs, hands)), op, Nothing, null, At(fs, hands))
  {
    hide *;
    ghost var a := At(fs, hands);
    ReadyMeans(fs, hands);
    SoundMeans(fs);
    AllowedMeans(fs.device, hands, op);
    fs.SetDevice(op.camera);
    ghost var s := fs.Now();
    Reset(fs);
    SoundMeans(fs);
    ReadyMeans(fs, hands);
    AfterReset(a, op, s, At(fs, hands), fs.root, fs.picturesToKeep);
  }

  method Refer(fs: Filesystem, op: Op, hands: seq<Hand>) returns (after: seq<Hand>)
    requires Ready(fs, hands) && Allowed(fs.device, hands, op) && (op.Create? || op.HoldAgain? || op.LetGo?)
    modifies fs`repr, fs.repr, fs.ledger
    ensures Ready(fs, after) && fs.repr >= old(fs.repr) && fresh(fs.repr - old(fs.repr))
    ensures Follows(old(At(fs, hands)), op, Nothing, null, At(fs, after))
  {
    hide *;
    ghost var a := At(fs, hands);
    ReadyMeans(fs, hands);
    SoundMeans(fs);
    AllowedMeans(fs.device, hands, op);
    match op {
      case Create(data) =>
        var f := fs.CreateFile(data);
        after := hands + [Hand(f, 1)];
        HandMore(a, op, f, fs.ledger.holders);
      case HoldAgain(h) =>
        InHand(hands, fs.ledger.holders, h);
        OwnFile(fs, hands[h].file);
        fs.HoldFile(hands[h].file);
        after := hands[h := Hand(hands[h].file, hands[h].count + 1)];
        HandAgain(a, op, h, fs.ledger.holders);
      case LetGo(h) =>
        InHand(hands, fs.ledger.holders, h);
        OwnFile(fs, hands[h].file);
        fs.LetGoFile(hands[h].file);
        after := hands[h := Hand(hands[h].file, hands[h].count - 1)];
        HandLess(a, op, h, fs.ledger.holders);
    }
    SoundMeans(fs);
    ReadyMeans(fs, hands);
    ReadyMeans(fs, after);
    AfterReferences(a, op, At(fs, after));
  }

  lemma OwnFile(fs: Filesystem, f: Shared)
    requires fs.Intact() && f in fs.ledger.holders
    ensures f in fs.repr
  {
  }

  lemma HandMore(a: Moment, op: Op, f: Shared, holders: multiset<Shared>)
    requires Holding(a.hands, a.holders) && op.Create? && f.data == op.data
    requires holders == a.holders + multiset{f} && forall i :: 0 <= i < |a.hands| ==> a.hands[i].file != f
    ensures Holding(a.hands + [Hand(f, 1)], holders)
    ensures KeepsBooks(a, op, Moment(a.state, a.hands + [Hand(f, 1)], holders))
  {
    assert (a.hands + [Hand(f, 1)])[..|a.hands|] == a.hands;
  }

  lemma HandAgain(a: Moment, op: Op, h: nat, holders: multiset<Shared>)
    requires Holding(a.hands, a.holders) && op == HoldAgain(h) && h < |a.hands|
    requires holders == a.holders + multiset{a.hands[h].file}
    ensures var after := a.hands[h := Hand(a.hands[h].file, a.hands[h].count + 1)];
      Holding(after, holders) && KeepsBooks(a, op, Moment(a.state, after, holders))
  {
  }

  lemma HandLess(a: Moment, op: Op, h: nat, holders: multiset<Shared>)
    requires Holding(a.hands, a.holders) && op == LetGo(h) && h < |a.hands| && a.hands[h].count > 0
    requires holders == a.holders - multiset{a.hands[h].file}
    ensures var after := a.hands[h := Hand(a.hands[h].file, a.hands[h].count - 1)];
      Holding(after, holders) && KeepsBooks(a, op, Moment(a.state, after, holders))
  {
  }

  /** One operation, whatever it is. */
  method Step(fs: Filesystem, op: Op, hands: seq<Hand>) returns (after: seq<Hand>, answer: Answer, ghost fed: FileNode?)
    requires Ready(fs, hands) && Allowed(fs.device, hands, op)
    modifies fs, fs.lru, fs.repr, fs.ledger
    ensures Ready(fs, after) && fs.repr >= old(fs.repr) && fresh(fs.repr - old(fs.repr))
    ensures Follows(old(At(fs, hands)), op, answer, fed, At(fs, after))
  {
    hide *;
    after, answer, fed := hands, Nothing, null;
    if op.ListFoldersOf? || op.ListFilesOf? || op.Get? {
      answer := Look(fs, op, hands);
    } else if op.Put? {
      Store(fs, op, hands);
    } else if op.Feed? {
      fed := FeedCache(fs, op, hands);
    } else if op.StartOver? {
      Begin(fs, op, hands);
    } else if op.Create? || op.HoldAgain? || op.LetGo? {
      after := Refer(fs, op, hands);
    } else if op.Delete? {
      DropOne(fs, op, hands);
    } else if op.Clear? {
      DropAll(fs, op, hands);
    } else {
      Change(fs, op, hands);
    }
  }

  // ------------------------------------------------------------------
  // Runs
  // ------------------------------------------------------------------

  /** The moments of a run follow each other. */
  ghost predicate Traced(trace: seq<Moment>, ops: seq<Op>, answers: seq<Answer>, fed: seq<FileNode?>) {
    && |trace| == |answers| + 1 && |fed| == |answers| <= |ops|
    && forall i {:trigger trace[i]} :: 0 <= i < |answers| ==>
      Follows(trace[i], ops[i], answers[i], fed[i], trace[i + 1])
  }

  lemma TracedMore(trace: seq<Moment>, ops: seq<Op>, answers: seq<Answer>, fed: seq<FileNode?>,
                   answer: Answer, n: FileNode?, b: Moment)
    requires Traced(trace, ops, answers, fed) && |answers| < |ops|
    requires Follows(trace[|answers|], ops[|answers|], answer, n, b)
    ensures Traced(trace + [b], ops, answers + [answer], fed + [n])
  {
    hide Follows;
  }

  /**
   * A run: operations as long as they are allowed. Whatever the run, the tree agrees with the camera, the list
   * is intact and bounded, and the reference counts balance.
   */
  method Run(fs: Filesystem, ops: seq<Op>, start: seq<Hand>)
    returns (hands: seq<Hand>, answers: seq<Answer>, intact: bool, ghost trace: seq<Moment>, ghost fed: seq<FileNode?>)
    requires Ready(fs, start)
    modifies fs, fs.lru, fs.repr, fs.ledger
    ensures Ready(fs, hands) && intact && fs.Conserved()
    ensures Traced(trace, ops, answers, fed) && trace[0] == old(At(fs, start)) && trace[|answers|] == At(fs, hands)
    ensures |answers| < |ops| ==> !Allowed(fs.device, hands, ops[|answers|])
  {
    hide *;
    hands, answers, trace, fed := start, [], [At(fs, start)], [];
    TracedFirst(trace, ops);
    while |answers| < |ops| && Allowed(fs.device, hands, ops[|answers|])
      invariant |answers| <= |ops| && Ready(fs, hands)
      invariant fs.repr >= old(fs.repr) && fresh(fs.repr - old(fs.repr))
      invariant |trace| == |answers| + 1 && Traced(trace, ops, answers, fed)
      invariant trace[0] == old(At(fs, start)) && trace[|answers|] == At(fs, hands)
    {
      var answer;
      ghost var n;
      hands, answer, n := Step(fs, ops[|answers|], hands);
      TracedMore(trace, ops, answers, fed, answer, n, At(fs, hands));
      answers, trace, fed := answers + [answer], trace + [At(fs, hands)], fed + [n];
    }
    ReadyMeans(fs, hands);
    SoundMeans(fs);
    intact := fs.CheckList();
    SoundMeans(fs);
    ReadyMeans(fs, hands);
    fs.Balances();
  }

  lemma TracedFirst(trace: seq<Moment>, ops: seq<Op>)
    requires |trace| == 1
    ensures Traced(trace, ops, [], [])
  {
  }

  /**
   * The cache is transparent over a run whose operations were honest so far: every byte cached is the camera's,
   * and whatever is got from it, or past it, is what the camera would have delivered at that moment.
   */
  lemma {:induction false} Transparent(trace: seq<Moment>, ops: seq<Op>, answers: seq<Answer>,
                                       fed: seq<FileNode?>, i: nat)
    requires Traced(trace, ops, answers, fed) && i <= |answers| && Faithful(trace[0].state)
    requires forall j :: 0 <= j < i ==> Honest(trace[j], ops[j])
    ensures Faithful(trace[i].state)
    ensures i < |answers| && ops[i].Get? ==>
      answers[i] == Answer(Asked(trace[i].state.device, ops[i].folder, ops[i].file, ops[i].kind))
    decreases i
  {
    hide Faithful, Honest, Asked, KeepsOrder, KeepsSize, KeepsBooks;
    if i > 0 {
      Transparent(trace, ops, answers, fed, i - 1);
      assert Follows(trace[i - 1], ops[i - 1], answers[i - 1], fed[i - 1], trace[i]);
    }
    assert i < |answers| ==> Follows(trace[i], ops[i], answers[i], fed[i], trace[i + 1]);
  }

  /**
   * Over a run whose operations are measured the size kept with the list stays exact; the first that is not
   * makes it wrong.
   */
  lemma {:induction false} StaysExact(trace: seq<Moment>, ops: seq<Op>, answers: seq<Answer>,
                                      fed: seq<FileNode?>, i: nat)
    requires Traced(trace, ops, answers, fed) && i <= |answers|
    requires Anchored(trace[0].state) && Sized(trace[0].state)
    requires forall j :: 0 <= j < i ==> Measured(trace[j], ops[j], trace[j + 1])
    ensures Anchored(trace[i].state) && Sized(trace[i].state)
    ensures i < |answers| ==> (Sized(trace[i + 1].state) <==> Measured(trace[i], ops[i], trace[i + 1]))
    decreases i
  {
    hide Anchored, Sized, Measured, KeepsFaith, AnswersWell, KeepsOrder, KeepsBooks;
    if i > 0 {
      StaysExact(trace, ops, answers, fed, i - 1);
    }
    assert i < |answers| ==> Follows(trace[i], ops[i], answers[i], fed[i], trace[i + 1]);
  }

  /** When a file was last fed, or -1. */
  ghost function LastFed(fed: seq<FileNode?>, n: FileNode): (i: int)
    ensures -1 <= i < |fed|
  {
    if fed == [] then -1 else if fed[|fed| - 1] == n then |fed| - 1 else LastFed(fed[..|fed| - 1], n)
  }

  /** The list is in the order in which its files were last fed. */
  ghost predicate InFeedOrder(items: seq<FileNode>, fed: seq<FileNode?>) {
    && (forall i :: 0 <= i < |items| ==> LastFed(fed, items[i]) >= 0)
    && (forall i, j :: 0 <= i < j < |items| ==> LastFed(fed, items[i]) < LastFed(fed, items[j]))
  }

  lemma {:induction false} FewerInFeedOrder(items: seq<FileNode>, gone: set<FileNode>, fed: seq<FileNode?>)
    requires InFeedOrder(items, fed)
    ensures InFeedOrder(Minus(items, gone), fed)
  {
    hide LastFed, InFeedOrder;
    if items == [] {
      assert Minus(items, gone) == items;
    } else {
      TailInFeedOrder(items, fed);
      FewerInFeedOrder(items[1..], gone, fed);
      var rest := Minus(items[1..], gone);
      StillMembers(items[1..], gone);
      if items[0] in gone {
        assert [] + rest == rest;
      } else {
        HeadInFeedOrder(items, rest, fed);
      }
    }
  }

  lemma TailInFeedOrder(items: seq<FileNode>, fed: seq<FileNode?>)
    requires InFeedOrder(items, fed) && items != []
    ensures InFeedOrder(items[1..], fed)
  {
    hide LastFed;
  }

  lemma HeadInFeedOrder(items: seq<FileNode>, rest: seq<FileNode>, fed: seq<FileNode?>)
    requires InFeedOrder(items, fed) && items != [] && InFeedOrder(rest, fed)
    requires forall k :: 0 <= k < |rest| ==> rest[k] in items[1..]
    ensures InFeedOrder([items[0]] + rest, fed)
  {
    hide LastFed;
    var all := [items[0]] + rest;
    forall j | 0 < j < |all|
      ensures LastFed(fed, all[0]) < LastFed(fed, all[j])
    {
      assert all[j] == rest[j - 1] && rest[j - 1] in items[1..];
    }
  }

  lemma OneMoreFed(before: seq<FileNode>, n: FileNode?, after: seq<FileNode>, fed: seq<FileNode?>)
    requires InFeedOrder(before, fed) && Reordered(before, n, after)
    ensures InFeedOrder(after, fed + [n])
  {
    hide Minus, InFeedOrder, LastFed;
    var front := if n == null then after else after[..|after| - 1];
    assert n == null ==> after[..|after| - 0] == after;
    FewerInFeedOrder(before, (set m | m in before && m !in front), fed);
    if n == null {
      assert front + [] == front;
    }
    StillInFeedOrder(front, n, fed);
  }

  lemma StillInFeedOrder(front: seq<FileNode>, n: FileNode?, fed: seq<FileNode?>)
    requires InFeedOrder(front, fed) && n !in front
    ensures InFeedOrder(if n == null then front else front + [n], fed + [n])
  {
    var more := fed + [n];
    assert more[..|more| - 1] == fed;
    forall k | 0 <= k < |front|
      ensures LastFed(more, front[k]) == LastFed(fed, front[k])
    {
    }
  }

  /** Over a whole run the list stays in the order of feeding: the file fed least recently comes first. */
  lemma {:induction false} StaysInFeedOrder(trace: seq<Moment>, ops: seq<Op>, answers: seq<Answer>, fed: seq<FileNode?>,
                                            earlier: seq<FileNode?>, i: nat)
    requires Traced(trace, ops, answers, fed) && i <= |answers| && InFeedOrder(trace[0].state.items, earlier)
    ensures InFeedOrder(trace[i].state.items, earlier + fed[..i])
    decreases i
  {
    hide InFeedOrder, Reordered, KeepsFaith, AnswersWell, KeepsSize, KeepsBooks;
    if i == 0 {
      assert earlier + fed[..0] == earlier;
    } else {
      StaysInFeedOrder(trace, ops, answers, fed, earlier, i - 1);
      assert Follows(trace[i - 1], ops[i - 1], answers[i - 1], fed[i - 1], trace[i]);
      OneMoreFed(trace[i - 1].state.items, fed[i - 1], trace[i].state.items, earlier + fed[..i - 1]);
      assert (earlier + fed[..i - 1]) + [fed[i - 1]] == earlier + fed[..i];
    }
  }

  /** A new filesystem is sound, and everything holds of it that the runs keep. */
  method Start(camera: Device, picturesToKeep: nat) returns (fs: Filesystem)
    requires LegalDevice(camera)
    ensures fresh(fs) && fresh(fs.lru) && fresh(fs.repr) && fresh(fs.ledger) && fs.ledger.holders == multiset{}
    ensures Ready(fs, []) && Faithful(fs.Now()) && Anchored(fs.Now()) && Sized(fs.Now())
    ensures fs.picturesToKeep == picturesToKeep
    ensures InFeedOrder(fs.Now().items, [])
    ensures fs.device == camera && fs.Now().tree == map[[] := Dir(fs.root, true, true, [], [])]
    ensures fs.root.name == "/"
  {
    hide *;
    fs := new Filesystem(camera, picturesToKeep);
    fs.Opened();
    fs.NowItems();
    fs.Here([]);
    fs.AtRoot();
    SoundMeans(fs);
    NewState(fs.Now(), fs.root, picturesToKeep);
    NewHands(fs.ledger.holders);
    ReadyMeans(fs, []);
  }

  lemma NewState(s: State, root: FolderNode, keep: nat)
    ensures s.tree == map[[] := Dir(root, true, true, [], [])] && [] in s.device.dirs && AllCached(s) ==>
      Coherent(s, map[], map[]) && Faithful(s) && (s.items == [] ==> Bounded(s, keep) && InFeedOrder(s.items, []))
      && (s.items == [] && s.size == 0 ==> Anchored(s) && Sized(s))
  {
    hide Settled;
  }

  lemma NewHands(holders: multiset<Shared>)
    ensures Holding([], holders)
  {
  }
}
