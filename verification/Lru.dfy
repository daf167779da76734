/**
 * The list of files whose data is cached, threaded through the file nodes of the folder tree. The
 * first node's back link points at itself, so a node is listed exactly if its back link is set.
 */
module Lru {
  import opened Prelude
  import opened References

  type Name = string
  type Path = seq<Name>

  /** The kinds of data a camera keeps about one file. */
  datatype Kind = Preview | Normal | Raw | Audio | Exif | Metadata

  /** The kinds that count as a significant amount of data. */
  predicate Heavy(k: Kind) {
    k == Normal || k == Raw || k == Audio
  }

  /** The bytes of files held. */
  ghost function Bytes(held: map<Kind, Shared>): map<Kind, seq<Byte>> {
    map k | k in held :: held[k].data
  }

  /** A place for a kind of data of a file. */
  type Slot = (FileNode, Kind)

  class FileNode {
    const name: Name
    ghost const home: Path
    var lruPrev: FileNode?
    var lruNext: FileNode?
    var held: map<Kind, Shared>

    constructor (name: Name, ghost home: Path)
      ensures this.name == name && this.home == home && held == map[]
      ensures lruPrev == null && lruNext == null
    {
      this.name, this.home, held := name, home, map[];
      lruPrev, lruNext := null, null;
    }

    /** What is cached for the file. */
    ghost function Data(): map<Kind, seq<Byte>>
      reads this`held
    {
      Bytes(held)
    }

    function HasHeavy(): bool
      reads this`held
    {
      Normal in held || Raw in held || Audio in held
    }

    /** Drops one kind of data; returns its size. */
    method Drop(k: Kind, ghost ledger: Ledger, ghost nodes: set<FileNode>) returns (freed: nat)
      requires this in nodes && ledger.Balanced(Slots(nodes))
      modifies this`held, ledger.files
      ensures ledger.Balanced(Slots(nodes)) && held == old(held) - {k} && freed == SizeOf(old(Data()), k)
    {
      hide Slots, Ledger.Balanced;
      freed := 0;
      SizeOfBytes(held, k);
      if k in held {
        ghost var slots := Slots(nodes);
        SlotHere(nodes, this, k);
        ledger.HeldIsAlive(slots, (this, k));
        freed := |held[k].Read()|;
        Unref(held[k], ledger, slots, (this, k));
        held := held - {k};
        SlotGone(nodes, this, k);
      } else {
        assert held == held - {k};
      }
    }

    /** Drops the significant data; returns its size. */
    method DropHeavy(ghost ledger: Ledger, ghost nodes: set<FileNode>) returns (freed: nat)
      requires this in nodes && ledger.Balanced(Slots(nodes))
      modifies this`held, ledger.files
      ensures ledger.Balanced(Slots(nodes)) && Data() == Light(old(Data())) && freed == HeavySize(old(Data()))
    {
      hide Slots, Ledger.Balanced;
      ghost var was := held;
      var normal := Drop(Normal, ledger, nodes);
      var raw := Drop(Raw, ledger, nodes);
      var audio := Drop(Audio, ledger, nodes);
      DropThree(was);
      freed := normal + raw + audio;
    }

    /** Gives up every file held. */
    method DropAll(ghost ledger: Ledger, ghost nodes: set<FileNode>)
      requires this in nodes && ledger.Balanced(Slots(nodes))
      modifies this`held, ledger.files
      ensures ledger.Balanced(Slots(nodes)) && held == map[]
    {
      hide *;
      ghost var was := held;
      var _ := Drop(Preview, ledger, nodes);
      var _ := Drop(Normal, ledger, nodes);
      var _ := Drop(Raw, ledger, nodes);
      var _ := Drop(Audio, ledger, nodes);
      var _ := Drop(Exif, ledger, nodes);
      var _ := Drop(Metadata, ledger, nodes);
      DropSix(was);
    }
  }

  /** The slots of some file nodes that hold a file. */
  ghost function Slots(nodes: set<FileNode>): map<Slot, Shared>
    reads nodes`held
  {
    map n, k | n in nodes && k in n.held :: (n, k) := n.held[k]
  }

  lemma SlotHere(nodes: set<FileNode>, n: FileNode, k: Kind)
    requires n in nodes && k in n.held
    ensures (n, k) in Slots(nodes) && Slots(nodes)[(n, k)] == n.held[k]
  {
  }

  /** What a step that emptied one slot has done to all of them. */
  twostate lemma SlotGone(nodes: set<FileNode>, new n: FileNode, new k: Kind)
    requires n in nodes && k in old(n.held) && n.held == old(n.held) - {k}
    requires forall m :: m in nodes && m != n ==> m.held == old(m.held)
    ensures Slots(nodes) == old(Slots(nodes)) - {(n, k)}
  {
    var before, after := old(Slots(nodes)), Slots(nodes);
    forall s
      ensures s in after <==> s in before && s != (n, k)
      ensures s in after ==> after[s] == before[s]
    {
    }
  }

  /** What a step that filled one slot has done to all of them. */
  twostate lemma SlotTaken(nodes: set<FileNode>, new n: FileNode, new k: Kind, new f: Shared)
    requires n in nodes && k !in old(n.held) && n.held == old(n.held)[k := f]
    requires forall m :: m in nodes && m != n ==> m.held == old(m.held)
    ensures (n, k) !in old(Slots(nodes)) && Slots(nodes) == old(Slots(nodes))[(n, k) := f]
  {
    var before, after := old(Slots(nodes)), Slots(nodes);
    forall s | s in before
      ensures s in after && after[s] == before[s]
    {
      SlotHere(nodes, s.0, s.1);
    }
    forall s | s in after
      ensures s in before || s == (n, k)
    {
      assert s.0 in nodes && s.1 in s.0.held;
    }
    SlotHere(nodes, n, k);
  }

  lemma SizeOfBytes(held: map<Kind, Shared>, k: Kind)
    ensures SizeOf(Bytes(held), k) == if k in held then |held[k].data| else 0
  {
  }

  /** Nodes that hold nothing do not count. */
  lemma EmptyNodes(nodes: set<FileNode>, fewer: set<FileNode>)
    requires fewer <= nodes && forall n :: n in nodes && n !in fewer ==> n.held == map[]
    ensures Slots(fewer) == Slots(nodes)
  {
  }

  lemma DropThree(held: map<Kind, Shared>)
    ensures Bytes(held - {Normal} - {Raw} - {Audio}) == Light(Bytes(held))
    ensures SizeOf(Bytes(held - {Normal}), Raw) == SizeOf(Bytes(held), Raw)
    ensures SizeOf(Bytes(held - {Normal} - {Raw}), Audio) == SizeOf(Bytes(held), Audio)
  {
  }

  lemma DropSix(held: map<Kind, Shared>)
    ensures held - {Preview} - {Normal} - {Raw} - {Audio} - {Exif} - {Metadata} == map[]
  {
    forall k | k in held
      ensures k !in held - {Preview} - {Normal} - {Raw} - {Audio} - {Exif} - {Metadata}
    {
      match k {
        case Preview =>
        case Normal =>
        case Raw =>
        case Audio =>
        case Exif =>
        case Metadata =>
      }
    }
  }

  function SizeOf(cache: map<Kind, seq<Byte>>, k: Kind): nat {
    if k in cache then |cache[k]| else 0
  }

  /** Bytes of significant data in a cache. */
  function HeavySize(cache: map<Kind, seq<Byte>>): nat {
    SizeOf(cache, Normal) + SizeOf(cache, Raw) + SizeOf(cache, Audio)
  }

  /** A cache after eviction: previews, EXIF blocks and metadata stay. */
  function Light(cache: map<Kind, seq<Byte>>): map<Kind, seq<Byte>> {
    map k | k in cache && !Heavy(k) :: cache[k]
  }

  predicate Distinct<T(==)>(s: seq<T>) {
    forall i, j :: 0 <= i < j < |s| ==> s[i] != s[j]
  }

  /** A list of nodes with some of them taken out, in the same order. */
  ghost function Minus(s: seq<FileNode>, gone: set<FileNode>): (r: seq<FileNode>) {
    if s == [] then [] else (if s[0] in gone then [] else [s[0]]) + Minus(s[1..], gone)
  }

  lemma MinusNone(s: seq<FileNode>, gone: set<FileNode>)
    requires forall n :: n in s ==> n !in gone
    ensures Minus(s, gone) == s
  {
  }

  lemma {:induction false} MinusAt(s: seq<FileNode>, i: nat)
    requires i < |s| && Distinct(s)
    ensures Minus(s, {s[i]}) == s[..i] + s[i + 1..]
  {
    if i == 0 {
      MinusNone(s[1..], {s[0]});
    } else {
      MinusAt(s[1..], i - 1);
    }
  }

  lemma RestIsDistinct(s: seq<FileNode>, i: nat)
    requires i < |s| && Distinct(s)
    ensures Distinct(s[..i] + s[i + 1..]) && s[i] !in s[..i] + s[i + 1..]
  {
  }

  lemma {:induction false} MinusMembers(s: seq<FileNode>, gone: set<FileNode>)
    ensures forall x :: x in Minus(s, gone) <==> x in s && x !in gone
    ensures Distinct(s) ==> Distinct(Minus(s, gone))
  {
    if s != [] {
      MinusMembers(s[1..], gone);
      if Distinct(s) {
        assert Distinct(s[1..]);
        assert s[0] !in s[1..];
      }
    }
  }

  lemma {:induction false} MinusMinus(s: seq<FileNode>, a: set<FileNode>, b: set<FileNode>)
    ensures Minus(Minus(s, a), b) == Minus(s, a + b)
  {
    if s != [] {
      MinusMinus(s[1..], a, b);
      var head, rest := if s[0] in a then [] else [s[0]], Minus(s[1..], a);
      assert Minus(s, a) == head + rest;
      if head == [] {
        assert head + rest == rest;
      } else {
        assert (head + rest)[1..] == rest;
      }
      assert [] + Minus(s[1..], a + b) == Minus(s[1..], a + b);
    }
  }

  /** Taking out what one step lost and then what the next lost is taking out what both lost. */
  lemma MinusChain(s: seq<FileNode>, a: set<FileNode>, b: set<FileNode>, c: set<FileNode>)
    requires forall n :: n in s ==> n in a
    requires a * c <= b
    ensures Minus(Minus(s, a - b), b - c) == Minus(s, a - c)
  {
    MinusMinus(s, a - b, b - c);
    MinusSame(s, (a - b) + (b - c), a - c);
  }

  lemma NothingLost(s: seq<FileNode>, a: set<FileNode>)
    ensures Minus(s, a - a) == s
  {
    MinusNone(s, a - a);
  }

  lemma StillMembers(s: seq<FileNode>, gone: set<FileNode>)
    ensures var r := Minus(s, gone); forall k :: 0 <= k < |r| ==> r[k] in s && r[k] !in gone
  {
    MinusMembers(s, gone);
  }

  /** Only the members taken out matter. */
  lemma {:induction false} MinusSame(s: seq<FileNode>, a: set<FileNode>, b: set<FileNode>)
    requires forall n :: n in s ==> (n in a <==> n in b)
    ensures Minus(s, a) == Minus(s, b)
  {
    if s != [] {
      MinusSame(s[1..], a, b);
    }
  }

  class List {
    var first: FileNode?
    var last: FileNode?
    var size: int
    ghost var items: seq<FileNode>

    /** Links of the i-th listed node. */
    ghost predicate LinkedAt(i: nat)
      requires i < |items|
      reads this`items, this`first, this`last, items`lruPrev, items`lruNext
    {
      && items[i].lruPrev == (if i == 0 then items[0] else items[i - 1])
      && items[i].lruNext == (if i == |items| - 1 then null else items[i + 1])
    }

    /** The list is what its links say: no node twice, ends correct, every link correct. */
    ghost predicate Valid()
      reads this`items, this`first, this`last, items`lruPrev, items`lruNext
    {
      && Distinct(items)
      && first == (if items == [] then null else items[0])
      && last == (if items == [] then null else items[|items| - 1])
      && forall i :: 0 <= i < |items| ==> LinkedAt(i)
    }

    /** A node is either listed, or outside with both links unset. */
    ghost predicate Knows(n: FileNode)
      reads this`items, n`lruPrev, n`lruNext
    {
      n in items || (n.lruPrev == null && n.lruNext == null)
    }

    constructor ()
      ensures Valid() && items == [] && size == 0
    {
      first, last, size, items := null, null, 0, [];
    }

    /** Listed exactly if the back link is set. */
    lemma ListedIffBackLink(n: FileNode)
      requires Valid() && Knows(n)
      ensures n in items <==> n.lruPrev != null
    {
      if n in items {
        var i :| 0 <= i < |items| && items[i] == n;
        assert LinkedAt(i);
      }
    }

    /** Joins the neighbours of the i-th node. */
    method Bypass(item: FileNode, ghost i: nat)
      requires Valid() && i < |items| && items[i] == item
      modifies this`first, this`last, items`lruPrev, items`lruNext
      ensures item.lruPrev == null && item.lruNext == null
      ensures first == (if |items| == 1 then null else if i == 0 then items[1] else items[0])
      ensures last == (if |items| == 1 then null else if i == |items| - 1 then items[i - 1] else items[|items| - 1])
      ensures forall j {:trigger items[j]} :: 0 <= j < |items| && j != i ==>
        && items[j].lruPrev == (if j == i + 1 then if i == 0 then items[1] else items[i - 1] else old(items[j].lruPrev))
        && items[j].lruNext
          == (if j == i - 1 then if i == |items| - 1 then null else items[i + 1] else old(items[j].lruNext))
    {
      assert LinkedAt(i);
      assert i > 0 ==> LinkedAt(i - 1);
      assert i + 1 < |items| ==> LinkedAt(i + 1);
      item.lruPrev.lruNext := item.lruNext;
      if item.lruNext != null {
        item.lruNext.lruPrev := item.lruPrev;
      }
      if last == item {
        if first == item {
          last := null;
          first := null;
        } else {
          last := item.lruPrev;
        }
      } else if first == item {
        first := item.lruNext;
        first.lruPrev := first;
      }
      item.lruPrev := null;
      item.lruNext := null;
    }

    /** Unlinks one node; a node outside the list is refused. */
    method RemoveOne(item: FileNode) returns (ok: bool)
      requires Valid() && Knows(item)
      modifies this`first, this`last, this`items, items`lruPrev, items`lruNext
      ensures Valid() && Knows(item)
      ensures ok == (item in old(items)) && items == Minus(old(items), {item})
      ensures item.lruPrev == null
    {
      hide Minus, Distinct;
      ListedIffBackLink(item);
      if item.lruPrev == null {
        MinusNone(items, {item});
        return false;
      }
      ghost var i :| 0 <= i < |items| && items[i] == item;
      ghost var was := items;
      MinusAt(items, i);
      RestIsDistinct(items, i);
      Bypass(item, i);
      items := was[..i] + was[i + 1..];
      forall j | 0 <= j < |items|
        ensures LinkedAt(j)
      {
        assert old(LinkedAt(if j < i then j else j + 1));
      }
      ok := true;
    }

    /** Puts a node outside the list at its end. */
    method PushBack(item: FileNode)
      requires Valid() && Knows(item) && item !in items
      modifies this`first, this`last, this`items, items`lruNext, item`lruPrev, item`lruNext
      ensures Valid() && items == old(items) + [item]
    {
      if first == null {
        first := item;
        last := item;
        item.lruPrev := item;
      } else {
        assert LinkedAt(|items| - 1);
        item.lruNext := null;
        item.lruPrev := last;
        last.lruNext := item;
        last := item;
      }
      items := items + [item];
      forall j | 0 <= j < |items|
        ensures LinkedAt(j)
      {
        assert j < |old(items)| ==> old(LinkedAt(j));
      }
    }

    /** Nodes of the list that hold significant data. */
    ghost function HeavyCount(n: nat): (count: nat)
      requires n <= |items|
      reads this`items, items`held
      ensures count <= n
    {
      if n == 0 then 0 else HeavyCount(n - 1) + (if items[n - 1].HasHeavy() then 1 else 0)
    }

    /** Walks the list and counts the nodes that hold significant data. */
    method Count() returns (count: nat)
      requires Valid()
      ensures count == HeavyCount(|items|)
    {
      count := 0;
      var ptr := first;
      ghost var n := 0;
      while ptr != null
        invariant n <= |items| && ptr == (if n == |items| then null else items[n])
        invariant count == HeavyCount(n)
        decreases |items| - n
      {
        assert LinkedAt(n);
        if ptr.HasHeavy() {
          count := count + 1;
        }
        ptr := ptr.lruNext;
        n := n + 1;
      }
    }

    /** Walks the list and compares every back link with the node it came from. */
    method Check() returns (intact: bool)
      requires Valid()
      ensures intact
    {
      if first == null {
        return true;
      }
      var ptr: FileNode?, prev := first, first;
      ghost var n := 0;
      while ptr != null
        invariant n <= |items| && ptr == (if n == |items| then null else items[n])
        invariant prev == (if n == 0 then items[0] else items[n - 1])
        decreases |items| - n
      {
        assert LinkedAt(n);
        if ptr.lruPrev != prev {
          return false;
        }
        prev := ptr;
        ptr := ptr.lruNext;
        n := n + 1;
      }
      return true;
    }

    /** Unlinks every node; reports corruption only for a list that is not intact. */
    method Clear() returns (intact: bool)
      requires Valid()
      modifies this, items`lruPrev, items`lruNext
      ensures intact && Valid() && items == []
      ensures size == if old(items) == [] then old(size) else 0
      ensures forall n :: n in old(items) ==> n.lruPrev == null && n.lruNext == null
    {
      if first == null {
        return true;
      }
      var ptr: FileNode?, prev := first, first;
      ghost var n, all := 0, items;
      while ptr != null
        invariant items == all && n <= |all| && ptr == (if n == |all| then null else all[n])
        invariant prev == (if n == 0 then all[0] else all[n - 1])
        invariant forall k :: 0 <= k < n ==> all[k].lruPrev == null && all[k].lruNext == null
        invariant forall k :: n <= k < |all| ==> LinkedAt(k)
        decreases |all| - n
      {
        assert LinkedAt(n);
        if ptr.lruPrev != prev {
          return false;
        }
        prev := ptr;
        ptr := ptr.lruNext;
        label L:
        prev.lruPrev := null;
        prev.lruNext := null;
        forall k | n < k < |all|
          ensures LinkedAt(k)
        {
          assert old@L(LinkedAt(k)) && all[k] != all[n];
        }
        n := n + 1;
      }
      first := null;
      last := null;
      size := 0;
      items := [];
      return true;
    }

    /** Unlinks the first node and drops its significant data. */
    method FreeFirst(ghost ledger: Ledger, ghost nodes: set<FileNode>)
      requires Valid() && items != []
      requires items[0] in nodes && ledger.Balanced(Slots(nodes))
      modifies this, items`lruPrev, items`lruNext, {items[0]}`held, ledger.files
      ensures Valid() && items == old(items)[1..] && ledger.Balanced(Slots(nodes))
      ensures var n := old(items)[0];
              && n.lruPrev == null && n.lruNext == null && n.Data() == Light(old(n.Data()))
              && size == old(size) - HeavySize(old(n.Data()))
    {
      hide Slots, Ledger.Balanced, Light, HeavySize, FileNode.Data, Distinct;
      FirstIsFirst();
      var ptr := first;
      first := ptr.lruNext;
      if first != null {
        first.lruPrev := first;
      } else {
        last := null;
      }
      var freed := ptr.DropHeavy(ledger, nodes);
      size := size - freed;
      ptr.lruNext := null;
      ptr.lruPrev := null;
      items := items[1..];
      forall j | 0 <= j < |items|
        ensures LinkedAt(j)
      {
        assert old(LinkedAt(j + 1));
      }
    }

    lemma FirstIsFirst()
      requires Valid() && items != []
      ensures LinkedAt(0) && (|items| > 1 ==> LinkedAt(1)) && Distinct(items[1..]) && items[0] !in items[1..]
    {
    }

    /** Every node of a set is either listed or unlinked. */
    ghost predicate KnowsAll(nodes: set<FileNode>)
      reads this`items, nodes`lruPrev, nodes`lruNext
    {
      forall n :: n in nodes ==> Knows(n)
    }

    lemma KnowsFewer(nodes: set<FileNode>, fewer: set<FileNode>)
      requires KnowsAll(nodes) && fewer <= nodes
      ensures KnowsAll(fewer)
    {
    }

    /** Once the list is cleared every node it knew is unlinked. */
    twostate lemma KnowsCleared(nodes: set<FileNode>)
      requires old(KnowsAll(nodes)) && items == []
      requires forall k :: 0 <= k < |old(items)| ==> old(items)[k].lruPrev == null && old(items)[k].lruNext == null
      requires forall n :: n in nodes && n !in old(items) ==> n.lruPrev == old(n.lruPrev) && n.lruNext == old(n.lruNext)
      ensures KnowsAll(nodes)
    {
      forall n | n in nodes
        ensures Knows(n)
      {
        assert old(Knows(n));
      }
    }

    /** A step that unlinked the first node and kept the other nodes outside the list as they were. */
    twostate lemma KnowsAfterFree(nodes: set<FileNode>)
      requires old(KnowsAll(nodes)) && old(items) != [] && items == old(items)[1..]
      requires old(items)[0].lruPrev == null && old(items)[0].lruNext == null
      requires forall n :: n in nodes && n !in old(items) ==> n.lruPrev == old(n.lruPrev) && n.lruNext == old(n.lruNext)
      ensures KnowsAll(nodes)
    {
      forall n | n in nodes
        ensures Knows(n)
      {
        assert old(Knows(n));
        assert old(items) == [old(items)[0]] + items;
      }
    }

    /** A step that linked one more node. */
    twostate lemma KnowsAfterPush(nodes: set<FileNode>, new item: FileNode)
      requires old(KnowsAll(nodes)) && items == old(items) + [item]
      requires forall n :: n in nodes && n !in items ==> n.lruPrev == old(n.lruPrev) && n.lruNext == old(n.lruNext)
      ensures KnowsAll(nodes)
    {
      forall n | n in nodes
        ensures Knows(n)
      {
        assert old(Knows(n));
      }
    }

    lemma KnownOne(nodes: set<FileNode>, n: FileNode)
      requires KnowsAll(nodes) && n in nodes
      ensures Knows(n)
    {
    }

    lemma KnowsOneMore(nodes: set<FileNode>, n: FileNode)
      requires KnowsAll(nodes) && n.lruPrev == null && n.lruNext == null
      ensures KnowsAll(nodes + {n})
    {
    }

    /** Unlinks one node among many; no other node is affected. */
    method RemoveAmong(item: FileNode, ghost nodes: set<FileNode>)
      requires Valid() && item in nodes && KnowsAll(nodes)
      modifies this`first, this`last, this`items, items`lruPrev, items`lruNext
      ensures Valid() && KnowsAll(nodes)
      ensures items == Minus(old(items), {item})
    {
      hide Minus, LinkedAt;
      ghost var was := items;
      MinusMembers(was, {item});
      var _ := RemoveOne(item);
      forall n | n in nodes
        ensures Knows(n)
      {
        assert old(Knows(n));
      }
    }

    /** Puts one node among many at the end of the list, whether it was listed before or not. */
    method MoveToBack(item: FileNode, ghost nodes: set<FileNode>)
      requires Valid() && item in nodes && KnowsAll(nodes)
      modifies this`first, this`last, this`items, items`lruPrev, items`lruNext, item`lruPrev, item`lruNext
      ensures Valid() && KnowsAll(nodes)
      ensures items == Minus(old(items), {item}) + [item]
    {
      hide Minus, LinkedAt, Valid, KnowsAll, Distinct;
      ghost var was := items;
      KnownOne(nodes, item);
      ListedIffBackLink(item);
      if item.lruPrev != null {
        RemoveAmong(item, nodes);
      } else {
        MinusNone(was, {item});
      }
      StillMembers(was, {item});
      MinusMembers(was, {item});
      assert forall i :: 0 <= i < |items| ==> items[i] in was;
      label Unlinked:
      KnownOne(nodes, item);
      PushBack(item);
      KnowsAfterPush@Unlinked(nodes, item);
    }

    /** Unlinks several nodes, one after the other, and gives up the files that they hold. */
    method RemoveAll(gone: seq<FileNode>, ghost ledger: Ledger, ghost nodes: set<FileNode>)
      requires Valid() && KnowsAll(nodes) && forall n :: n in gone ==> n in nodes
      requires ledger.Balanced(Slots(nodes))
      modifies this`first, this`last, this`items, items`lruPrev, items`lruNext, gone`held, ledger.files
      ensures Valid() && KnowsAll(nodes) && ledger.Balanced(Slots(nodes))
      ensures items == Minus(old(items), set n | n in gone)
      ensures forall n :: n in gone ==> n.held == map[]
    {
      hide Valid, KnowsAll, Minus, Slots, Ledger.Balanced;
      ghost var was, done: set<FileNode> := items, {};
      var i := 0;
      MinusNone(was, {});
      while i < |gone|
        invariant i <= |gone| && Valid() && KnowsAll(nodes)
        invariant forall n :: n in done <==> n in gone[..i]
        invariant items == Minus(was, done)
        invariant ledger.Balanced(Slots(nodes)) && forall n :: n in gone[..i] ==> n.held == map[]
      {
        MinusMembers(was, done);
        assert forall k :: 0 <= k < |items| ==> items[k] in was;
        MinusMinus(was, done, {gone[i]});
        RemoveAmong(gone[i], nodes);
        gone[i].DropAll(ledger, nodes);
        done := done + {gone[i]};
        i := i + 1;
      }
      assert gone[..i] == gone;
      assert done == set n | n in gone;
    }
  }
}
