/** What feeding the cache does to the state: eviction, order, bound, and the count of cached bytes. */
module FsCacheSpec {
  import opened Prelude
  import opened Lru
  import opened FsTree
  import opened FsAgree
  import opened FsCamera
  import opened FsSteps

  predicate HoldsHeavy(cache: Cache) {
    Normal in cache || Raw in cache || Audio in cache
  }

  /** How many of the listed nodes hold significant data. */
  ghost function HeavyCount(items: seq<FileNode>, caches: map<FileNode, Cache>): (count: nat)
    ensures count <= |items|
  {
    if items == [] then 0
    else (if items[0] in caches && HoldsHeavy(caches[items[0]]) then 1 else 0) + HeavyCount(items[1..], caches)
  }

  /** The first listed node has lost its significant data and its place in the list. */
  ghost function Evicted(s: State): State
    requires s.items != []
  {
    var n := s.items[0];
    if n !in s.caches then s.(items := s.items[1..])
    else s.(items := s.items[1..], caches := s.caches[n := Light(s.caches[n])], size := s.size - HeavySize(s.caches[n]))
  }

  /** Nodes are evicted until no more than a number of them hold significant data. */
  ghost function Trimmed(s: State, keep: nat): State
    decreases |s.items|
  {
    if HeavyCount(s.items, s.caches) > keep then Trimmed(Evicted(s), keep) else s
  }

  /** A node gets a place at the end of the list, and the size follows the data that replaces its own. */
  ghost function Moved(s: State, n: FileNode, k: Kind, bytes: nat): State {
    s.(items := Minus(s.items, {n}) + [n],
       size := s.size - (if n in s.items && n in s.caches then SizeOf(s.caches[n], k) else 0) + bytes)
  }

  /** Data of one kind is cached for a file. */
  ghost function Cached(s: State, n: FileNode, k: Kind, data: seq<Byte>): State
    requires n in s.caches
  {
    s.(caches := s.caches[n := s.caches[n][k := data]])
  }

  /** The whole effect of giving the filesystem the data of a file. */
  ghost function Fed(s: State, n: FileNode, k: Kind, data: seq<Byte>, keep: nat): State
    requires n in s.caches
  {
    TrimmedKeys(s, keep);
    Cached(if Heavy(k) then Moved(Trimmed(s, keep), n, k, |data|) else s, n, k, data)
  }

  lemma {:induction false} TrimmedKeys(s: State, keep: nat)
    ensures Trimmed(s, keep).caches.Keys == s.caches.Keys
    ensures Trimmed(s, keep).tree == s.tree && Trimmed(s, keep).device == s.device
    decreases |s.items|
  {
    if HeavyCount(s.items, s.caches) > keep {
      TrimmedKeys(Evicted(s), keep);
    }
  }

  // ------------------------------------------------------------------
  // Order and bound
  // ------------------------------------------------------------------

  /** What is left is the end of the list; nothing was taken unless there were too many. */
  lemma {:induction false} TrimmedIsSuffix(s: State, keep: nat)
    ensures var u := Trimmed(s, keep); var j := |s.items| - |u.items|;
      0 <= j && u.items == s.items[j..] && (j > 0 ==> HeavyCount(s.items, s.caches) > keep)
    decreases |s.items|
  {
    if HeavyCount(s.items, s.caches) > keep {
      TrimmedIsSuffix(Evicted(s), keep);
      var j := |s.items| - |Trimmed(s, keep).items|;
      assert s.items[1..][j - 1..] == s.items[j..];
    }
  }

  /** Nodes that keep their place keep their data; the others lose significant data only. */
  lemma {:induction false} TrimmedKeepsData(s: State, keep: nat, n: FileNode)
    requires n in s.caches
    ensures var u := Trimmed(s, keep);
      && n in u.caches && Light(u.caches[n]) == Light(s.caches[n]) && Within(u.caches[n], s.caches[n])
      && (n in u.items || n !in s.items ==> Distinct(s.items) ==> u.caches[n] == s.caches[n])
    decreases |s.items|
  {
    hide Light;
    if HeavyCount(s.items, s.caches) > keep {
      var e := Evicted(s);
      LightTwice(s.caches[n]);
      TrimmedKeepsData(e, keep, n);
      EvictedAt(s, n);
      TrimmedIsSuffix(e, keep);
    }
  }

  lemma EvictedAt(s: State, n: FileNode)
    requires n in s.caches && s.items != []
    ensures var e := Evicted(s);
      && n in e.caches && Light(e.caches[n]) == Light(s.caches[n]) && Within(e.caches[n], s.caches[n])
      && (n in e.items || n !in s.items ==> Distinct(s.items) ==> e.caches[n] == s.caches[n])
      && (Distinct(s.items) ==> Distinct(e.items)) && (n in e.items ==> n in s.items)
  {
    LightTwice(s.caches[n]);
  }

  lemma LightTwice(cache: Cache)
    ensures Light(Light(cache)) == Light(cache) && !HoldsHeavy(Light(cache)) && HeavySize(Light(cache)) == 0
    ensures forall k :: k in cache && !Heavy(k) ==> k in Light(cache) && Light(cache)[k] == cache[k]
  {
  }

  lemma {:induction false} HeavySame(items: seq<FileNode>, a: map<FileNode, Cache>, b: map<FileNode, Cache>)
    requires forall n :: n in items ==> (n in a && HoldsHeavy(a[n]) <==> n in b && HoldsHeavy(b[n]))
    ensures HeavyCount(items, a) == HeavyCount(items, b)
  {
    if items != [] {
      assert items[0] in items;
      HeavySame(items[1..], a, b);
    }
  }

  lemma {:induction false} HeavyOfMinus(items: seq<FileNode>, gone: set<FileNode>, caches: map<FileNode, Cache>)
    ensures HeavyCount(Minus(items, gone), caches) <= HeavyCount(items, caches)
  {
    if items != [] {
      HeavyOfMinus(items[1..], gone, caches);
      if items[0] in gone {
        assert Minus(items, gone) == Minus(items[1..], gone);
      } else {
        assert Minus(items, gone)[1..] == Minus(items[1..], gone);
      }
    }
  }

  lemma {:induction false} HeavyOfAppended(items: seq<FileNode>, n: FileNode, caches: map<FileNode, Cache>)
    ensures HeavyCount(items + [n], caches) <= HeavyCount(items, caches) + 1
  {
    if items == [] {
      assert items + [n] == [n];
    } else {
      assert (items + [n])[1..] == items[1..] + [n];
      HeavyOfAppended(items[1..], n, caches);
    }
  }

  /** One eviction takes at most one from the count. */
  lemma EvictedCount(s: State)
    requires s.items != [] && Distinct(s.items)
    ensures HeavyCount(s.items, s.caches) - 1 <= HeavyCount(Evicted(s).items, Evicted(s).caches)
  {
    HeavySame(s.items[1..], s.caches, Evicted(s).caches);
  }

  /** No more is evicted than is necessary. */
  lemma {:induction false} TrimmedIsExact(s: State, keep: nat)
    requires Distinct(s.items)
    ensures var u := Trimmed(s, keep);
      HeavyCount(u.items, u.caches) ==
        if HeavyCount(s.items, s.caches) > keep then keep else HeavyCount(s.items, s.caches)
    decreases |s.items|
  {
    if HeavyCount(s.items, s.caches) > keep {
      EvictedCount(s);
      TrimmedIsExact(Evicted(s), keep);
    }
  }

  /** After feeding, at most one more than the permitted number of listed nodes hold significant data. */
  lemma FedBound(s: State, n: FileNode, k: Kind, data: seq<Byte>, keep: nat)
    requires n in s.caches && Distinct(s.items)
    requires HeavyCount(s.items, s.caches) <= keep + 1
    ensures var u := Fed(s, n, k, data, keep); HeavyCount(u.items, u.caches) <= keep + 1
  {
    TrimmedKeys(s, keep);
    var u := Fed(s, n, k, data, keep);
    if Heavy(k) {
      var t := Trimmed(s, keep);
      TrimmedIsExact(s, keep);
      var rest := Minus(t.items, {n});
      MinusMembers(t.items, {n});
      HeavyOfMinus(t.items, {n}, t.caches);
      HeavySame(rest, t.caches, u.caches);
      HeavyOfAppended(rest, n, u.caches);
    } else {
      HeavySame(s.items, s.caches, u.caches);
    }
  }

  /** The file fed is last; before it the list is in the order in which files were fed. */
  lemma FedOrder(s: State, n: FileNode, k: Kind, data: seq<Byte>, keep: nat)
    requires n in s.caches && Heavy(k) && Distinct(s.items)
    ensures var u := Fed(s, n, k, data, keep);
      exists j :: 0 <= j <= |s.items| && u.items == Minus(s.items[j..], {n}) + [n]
               && forall m :: m in s.items[j..] && m in s.caches && m != n ==>
                 m in u.caches && u.caches[m] == s.caches[m]
  {
    hide Minus;
    TrimmedKeys(s, keep);
    TrimmedIsSuffix(s, keep);
    var t, u := Trimmed(s, keep), Fed(s, n, k, data, keep);
    forall m | m in t.items && m in s.caches && m != n
      ensures m in u.caches && u.caches[m] == s.caches[m]
    {
      TrimmedKeepsData(s, keep, m);
    }
    assert t.items == s.items[|s.items| - |t.items|..];
  }

  /** Previews, EXIF blocks and metadata are never evicted. */
  lemma FedKeepsLight(s: State, n: FileNode, k: Kind, data: seq<Byte>, keep: nat, m: FileNode, x: Kind)
    requires n in s.caches && m in s.caches && x in s.caches[m] && !Heavy(x) && (m, x) != (n, k)
    ensures var u := Fed(s, n, k, data, keep); m in u.caches && x in u.caches[m] && u.caches[m][x] == s.caches[m][x]
  {
    hide Trimmed, Minus;
    TrimmedKeys(s, keep);
    TrimmedKeepsData(s, keep, m);
    var t := Trimmed(s, keep);
    assert x in Light(s.caches[m]) && x in Light(t.caches[m]);
  }

  // ------------------------------------------------------------------
  // The count of cached bytes
  // ------------------------------------------------------------------

  /** Bytes of significant data that the listed nodes hold. */
  ghost function ListedBytes(items: seq<FileNode>, caches: map<FileNode, Cache>): nat {
    if items == [] then 0
    else (if items[0] in caches then HeavySize(caches[items[0]]) else 0) + ListedBytes(items[1..], caches)
  }

  /** The size kept with the list is the number of bytes the listed nodes hold. */
  ghost predicate Sized(s: State) {
    s.size == ListedBytes(s.items, s.caches)
  }

  lemma {:induction false} BytesSame(items: seq<FileNode>, a: map<FileNode, Cache>, b: map<FileNode, Cache>)
    requires forall n :: n in items ==> (n in a <==> n in b) && (n in a ==> HeavySize(a[n]) == HeavySize(b[n]))
    ensures ListedBytes(items, a) == ListedBytes(items, b)
  {
    if items != [] {
      assert items[0] in items;
      BytesSame(items[1..], a, b);
    }
  }

  lemma {:induction false} BytesOfAppended(items: seq<FileNode>, n: FileNode, caches: map<FileNode, Cache>)
    requires n in caches
    ensures ListedBytes(items + [n], caches) == ListedBytes(items, caches) + HeavySize(caches[n])
  {
    if items == [] {
      assert items + [n] == [n];
    } else {
      assert (items + [n])[1..] == items[1..] + [n];
      BytesOfAppended(items[1..], n, caches);
    }
  }

  lemma {:induction false} BytesOfRest(items: seq<FileNode>, n: FileNode, caches: map<FileNode, Cache>)
    requires Distinct(items) && n in caches
    ensures ListedBytes(Minus(items, {n}), caches)
         == ListedBytes(items, caches) - (if n in items then HeavySize(caches[n]) else 0)
  {
    if items != [] {
      assert Distinct(items[1..]);
      BytesOfRest(items[1..], n, caches);
      if items[0] == n {
        assert n !in items[1..];
        assert Minus(items, {n}) == Minus(items[1..], {n});
      } else {
        assert Minus(items, {n})[1..] == Minus(items[1..], {n});
      }
    }
  }

  lemma EvictedSized(s: State)
    requires s.items != [] && Distinct(s.items)
    ensures Sized(s) <==> Sized(Evicted(s))
    ensures Distinct(Evicted(s).items)
  {
    BytesSame(s.items[1..], s.caches, Evicted(s).caches);
  }

  lemma {:induction false} TrimmedSized(s: State, keep: nat)
    requires Distinct(s.items)
    ensures Sized(s) <==> Sized(Trimmed(s, keep))
    ensures Distinct(Trimmed(s, keep).items)
    decreases |s.items|
  {
    if HeavyCount(s.items, s.caches) > keep {
      EvictedSized(s);
      TrimmedSized(Evicted(s), keep);
    }
  }

  lemma SizeReplaced(cache: Cache, k: Kind, data: seq<Byte>)
    ensures HeavySize(cache[k := data]) == HeavySize(cache) + (if Heavy(k) then |data| - SizeOf(cache, k) else 0)
    ensures SizeOf(cache, k) <= HeavySize(cache) || !Heavy(k)
  {
  }

  /** Whether feeding a file adds all that the list comes to hold: it counts the data of the kind fed only. */
  ghost predicate FedWhole(s: State, n: FileNode, k: Kind)
    requires n in s.caches
  {
    Heavy(k) && n !in s.items ==> HeavySize(s.caches[n]) == SizeOf(s.caches[n], k)
  }

  /**
   * Feeding keeps the size exact, except for a file that is not listed yet and already holds significant data
   * of another kind.
   */
  lemma FedSized(s: State, n: FileNode, k: Kind, data: seq<Byte>, keep: nat)
    requires n in s.caches && Distinct(s.items) && Sized(s)
    ensures Sized(Fed(s, n, k, data, keep)) <==> FedWhole(s, n, k)
  {
    hide Trimmed, Minus, ListedBytes, HeavySize;
    TrimmedKeys(s, keep);
    if Heavy(k) {
      TrimmedSized(s, keep);
      TrimmedNode(s, keep, n);
      SizeReplaced(Trimmed(s, keep).caches[n], k, data);
      MovedSized(Trimmed(s, keep), n, k, data);
    } else {
      SizeReplaced(s.caches[n], k, data);
      BytesSame(s.items, s.caches, Cached(s, n, k, data).caches);
    }
  }

  /** A node that was not listed keeps its data; one that loses its place has no significant data left. */
  lemma {:induction false} TrimmedNode(s: State, keep: nat, n: FileNode)
    requires n in s.caches && Distinct(s.items)
    ensures var u := Trimmed(s, keep);
      && n in u.caches
      && (n !in s.items ==> n !in u.items && u.caches[n] == s.caches[n])
      && (n in s.items && n !in u.items ==> HeavySize(u.caches[n]) == 0)
    decreases |s.items|
  {
    hide HeavySize, Light;
    if HeavyCount(s.items, s.caches) > keep {
      var e := Evicted(s);
      LightTwice(s.caches[n]);
      if n == s.items[0] {
        assert n !in e.items;
        TrimmedNode(e, keep, n);
      } else {
        assert n in s.items <==> n in e.items;
        TrimmedNode(e, keep, n);
      }
    }
  }

  lemma MovedSized(t: State, n: FileNode, k: Kind, data: seq<Byte>)
    requires n in t.caches && Distinct(t.items) && Sized(t) && Heavy(k)
    ensures Sized(Cached(Moved(t, n, k, |data|), n, k, data)) <==>
      (n !in t.items ==> HeavySize(t.caches[n]) == SizeOf(t.caches[n], k))
  {
    hide Minus, ListedBytes, HeavySize;
    var rest, u := Minus(t.items, {n}), Cached(Moved(t, n, k, |data|), n, k, data);
    SizeReplaced(t.caches[n], k, data);
    MinusMembers(t.items, {n});
    BytesOfRest(t.items, n, t.caches);
    BytesSame(rest, t.caches, u.caches);
    BytesOfAppended(rest, n, u.caches);
  }

  // ------------------------------------------------------------------
  // Faithfulness
  // ------------------------------------------------------------------

  /** Whether data is the camera's own. */
  predicate CamerasOwn(c: Device, p: Path, n: Name, k: Kind, data: seq<Byte>) {
    (p, n, k) in c.data && c.data[(p, n, k)] == data
  }

  /** Feeding keeps the cache faithful exactly if the camera's own data is fed. */
  lemma FedFaithful(s: State, n: FileNode, k: Kind, data: seq<Byte>, keep: nat)
    requires Coherent(s, map[], map[]) && n in s.caches && n.home in s.tree && !s.tree[n.home].filesDirty
    ensures var u := Fed(s, n, k, data, keep);
      && u.tree == s.tree && u.device == s.device && Coherent(u, map[], map[])
      && (Faithful(s) ==> (Faithful(u) <==> CamerasOwn(s.device, n.home, n.name, k, data)))
  {
    hide Trimmed, Minus, Light, FoldersAgree, FilesAgree, Rooted;
    TrimmedKeys(s, keep);
    var t := if Heavy(k) then Moved(Trimmed(s, keep), n, k, |data|) else s;
    var u := Fed(s, n, k, data, keep);
    assert u == Cached(t, n, k, data);
    if Faithful(s) {
      forall m | m in u.caches
        ensures m != n ==> DataAgrees(u, m)
        ensures m == n ==> (DataAgrees(u, m) <==> CamerasOwn(s.device, n.home, n.name, k, data))
      {
        assert DataAgrees(s, m);
        TrimmedKeepsData(s, keep, m);
        assert Within(t.caches[m], s.caches[m]);
      }
      assert Faithful(u) ==> DataAgrees(u, n);
    }
  }

  // ------------------------------------------------------------------
  // Steps that do not feed
  // ------------------------------------------------------------------

  lemma {:induction false} HeavyFewer(items: seq<FileNode>, a: map<FileNode, Cache>, b: map<FileNode, Cache>)
    requires forall n :: n in items && n in b && HoldsHeavy(b[n]) ==> n in a && HoldsHeavy(a[n])
    ensures HeavyCount(items, b) <= HeavyCount(items, a)
  {
    if items != [] {
      assert items[0] in items;
      HeavyFewer(items[1..], a, b);
    }
  }

  /** Nothing but feeding makes more listed files hold significant data. */
  lemma KeptBound(a: State, b: State)
    requires ListKept(a, b)
    ensures HeavyCount(b.items, b.caches) <= HeavyCount(a.items, a.caches)
  {
    HeavyOfMinus(a.items, Live(a.tree) - Live(b.tree), a.caches);
    HeavyFewer(b.items, a.caches, b.caches);
  }

  /** Every listed file is in a clean folder. */
  ghost predicate Anchored(s: State) {
    forall n :: n in s.items ==> n in CleanFiles(s.tree)
  }

  /** Steps that spare the files of clean folders take nothing off the list and leave the size exact. */
  lemma SparedSized(a: State, b: State)
    requires ListKept(a, b) && Additive(a, b) && Anchored(a)
    ensures Anchored(b) && b.items == a.items && (Sized(a) <==> Sized(b))
  {
    hide Minus, ListedBytes;
    forall n | n in a.items
      ensures n in Live(b.tree)
    {
      assert n in CleanFiles(b.tree);
    }
    MinusNone(a.items, Live(a.tree) - Live(b.tree));
    BytesSame(a.items, a.caches, b.caches);
  }

  lemma {:induction false} BytesLost(items: seq<FileNode>, gone: set<FileNode>, caches: map<FileNode, Cache>)
    ensures ListedBytes(Minus(items, gone), caches) <= ListedBytes(items, caches)
    ensures ListedBytes(Minus(items, gone), caches) == ListedBytes(items, caches) <==>
              forall n :: n in items && n in gone && n in caches ==> HeavySize(caches[n]) == 0
  {
    if items != [] {
      BytesLost(items[1..], gone, caches);
      assert items == [items[0]] + items[1..];
      if items[0] in gone {
        assert Minus(items, gone) == Minus(items[1..], gone);
      } else {
        assert Minus(items, gone)[1..] == Minus(items[1..], gone);
      }
    }
  }

  /** Removing files leaves the count exact only if none of the listed ones held significant data. */
  lemma RemovalSized(a: State, b: State)
    requires ListKept(a, b) && Sized(a)
    ensures Sized(b) <==>
              forall n :: n in a.items && n in Live(a.tree) && n !in Live(b.tree) && n in a.caches ==>
                HeavySize(a.caches[n]) == 0
  {
    hide Minus, ListedBytes, HeavySize;
    BytesLost(a.items, Live(a.tree) - Live(b.tree), a.caches);
    BytesSame(b.items, a.caches, b.caches);
  }
}
