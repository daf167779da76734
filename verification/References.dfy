/** File objects: their bytes, and the references that keep them alive. */
module References {
  import opened Prelude

  /** A file object as those who hold it see it. */
  class Shared {
    const data: seq<Byte>
    var refCount: int
    ghost var freed: bool

    constructor (data: seq<Byte>)
      ensures this.data == data && refCount == 1 && !freed
    {
      this.data, refCount, freed := data, 1, false;
    }

    /** The bytes, of a file that was not freed. */
    function Read(): (bytes: seq<Byte>)
      requires !freed
      reads this`freed
      ensures bytes == data
    {
      data
    }

    method AddRef()
      requires !freed
      modifies this
      ensures refCount == old(refCount) + 1 && !freed
    {
      refCount := refCount + 1;
    }

    /** Gives up a reference; the last one frees the file. */
    method Release()
      requires !freed
      modifies this
      ensures refCount == old(refCount) - 1 && (freed <==> refCount == 0)
    {
      refCount := refCount - 1;
      if refCount == 0 {
        freed := true;
      }
    }
  }

  /** In how many slots a file is. */
  ghost function InSlots<S>(slots: map<S, Shared>, f: Shared): nat {
    |set s | s in slots && slots[s] == f|
  }

  lemma SlotFilled<S>(slots: map<S, Shared>, slot: S, f: Shared, g: Shared)
    requires slot !in slots
    ensures InSlots(slots[slot := f], g) == InSlots(slots, g) + if g == f then 1 else 0
  {
    var more := slots[slot := f];
    var before, after := set s | s in slots && slots[s] == g, set s | s in more && more[s] == g;
    assert after == if g == f then before + {slot} else before;
  }

  lemma SlotEmptied<S>(slots: map<S, Shared>, slot: S, g: Shared)
    requires slot in slots
    ensures InSlots(slots - {slot}, g) == InSlots(slots, g) - if g == slots[slot] then 1 else 0
    ensures slots[slot] == g ==> InSlots(slots, g) > 0
  {
    var fewer := slots - {slot};
    var before, after := set s | s in slots && slots[s] == g, set s | s in fewer && fewer[s] == g;
    assert before == if g == slots[slot] then after + {slot} else after;
  }

  lemma InNoSlot<S>(slots: map<S, Shared>, f: Shared)
    requires forall s :: s in slots ==> slots[s] != f
    ensures InSlots(slots, f) == 0
  {
    assert (set s | s in slots && slots[s] == f) == {};
  }

  /** The books: all files there are, and who holds them besides the slots of the filesystem. */
  class Ledger {
    ghost var holders: multiset<Shared>
    ghost var files: set<Shared>

    /** A file counts those who hold it and the slots it is in, and is freed when there are none. */
    ghost predicate Counted<S>(f: Shared, slots: map<S, Shared>)
      reads this`holders, f
    {
      f.refCount == holders[f] + InSlots(slots, f) && (f.freed <==> f.refCount == 0)
    }

    ghost predicate Balanced<S>(slots: map<S, Shared>)
      reads this, files
    {
      && (forall f :: f in files ==> Counted(f, slots))
      && (forall f :: f in holders ==> f in files)
      && (forall s :: s in slots ==> slots[s] in files)
    }

    ghost constructor ()
      ensures holders == multiset{} && files == {}
    {
      holders, files := multiset{}, {};
    }

    /** A file that somebody or some slot holds is not freed. */
    lemma HeldIsAlive<S>(slots: map<S, Shared>, slot: S)
      requires Balanced(slots) && slot in slots
      ensures slots[slot] in files && !slots[slot].freed
    {
      SlotEmptied(slots, slot, slots[slot]);
      assert Counted(slots[slot], slots);
    }

    /** A file is freed exactly when nobody and no slot holds it. */
    lemma FreedIffUnheld<S>(slots: map<S, Shared>, f: Shared)
      requires Balanced(slots) && f in files
      ensures f.freed <==> f !in holders && forall s :: s in slots ==> slots[s] != f
    {
      assert Counted(f, slots);
      if s :| s in slots && slots[s] == f {
        SlotEmptied(slots, s, f);
      } else {
        InNoSlot(slots, f);
      }
    }

    lemma OwnIsAlive<S>(slots: map<S, Shared>, f: Shared)
      requires Balanced(slots) && f in holders
      ensures f in files && !f.freed
    {
      assert Counted(f, slots);
    }
  }

  /** Gives up the reference of a slot. */
  method Unref<S>(f: Shared, ghost ledger: Ledger, ghost slots: map<S, Shared>, ghost slot: S)
    requires ledger.Balanced(slots) && slot in slots && slots[slot] == f
    modifies f
    ensures ledger.Balanced(slots - {slot})
  {
    hide InSlots;
    ledger.HeldIsAlive(slots, slot);
    forall g | g in ledger.files
      ensures old(ledger.Counted(g, slots))
      ensures InSlots(slots - {slot}, g) == InSlots(slots, g) - if g == f then 1 else 0
    {
      SlotEmptied(slots, slot, g);
    }
    f.Release();
  }

  /** Takes a reference for a slot. */
  method Ref<S>(f: Shared, ghost ledger: Ledger, ghost slots: map<S, Shared>, ghost slot: S)
    requires ledger.Balanced(slots) && slot !in slots && f in ledger.holders
    modifies f
    ensures ledger.Balanced(slots[slot := f])
  {
    hide InSlots;
    ledger.OwnIsAlive(slots, f);
    forall g | g in ledger.files
      ensures old(ledger.Counted(g, slots))
      ensures InSlots(slots[slot := f], g) == InSlots(slots, g) + if g == f then 1 else 0
    {
      SlotFilled(slots, slot, f, g);
    }
    f.AddRef();
  }

  lemma OneMore(h: multiset<Shared>, f: Shared)
    ensures forall g {:trigger (h + multiset{f})[g]} :: (h + multiset{f})[g] == h[g] + if g == f then 1 else 0
  {
  }

  lemma OneLess(h: multiset<Shared>, f: Shared)
    requires f in h
    ensures forall g {:trigger (h - multiset{f})[g]} :: (h - multiset{f})[g] == h[g] - if g == f then 1 else 0
  {
  }

  /** Makes a file, which its maker holds. */
  method Create<S>(data: seq<Byte>, ghost ledger: Ledger, ghost slots: map<S, Shared>) returns (f: Shared)
    requires ledger.Balanced(slots)
    modifies ledger
    ensures fresh(f) && f.data == data && ledger.Balanced(slots)
    ensures ledger.files == old(ledger.files) + {f} && ledger.holders == old(ledger.holders) + multiset{f}
  {
    hide InSlots;
    f := new Shared(data);
    InNoSlot(slots, f);
    OneMore(ledger.holders, f);
    assert f !in ledger.holders;
    ledger.holders := ledger.holders + multiset{f};
    ledger.files := ledger.files + {f};
    forall g | g in ledger.files
      ensures ledger.Counted(g, slots)
    {
      assert g != f ==> old(ledger.Counted(g, slots));
    }
  }

  /** Holds a file once more. */
  method Hold<S>(f: Shared, ghost ledger: Ledger, ghost slots: map<S, Shared>)
    requires ledger.Balanced(slots) && f in ledger.holders
    modifies ledger`holders, f
    ensures ledger.Balanced(slots) && ledger.holders == old(ledger.holders) + multiset{f}
  {
    hide InSlots;
    ledger.OwnIsAlive(slots, f);
    OneMore(ledger.holders, f);
    f.AddRef();
    ledger.holders := ledger.holders + multiset{f};
    forall g | g in ledger.files
      ensures ledger.Counted(g, slots)
    {
      assert old(ledger.Counted(g, slots));
    }
  }

  /** Lets a file go, which frees it if nobody and no slot holds it any more. */
  method LetGo<S>(f: Shared, ghost ledger: Ledger, ghost slots: map<S, Shared>)
    requires ledger.Balanced(slots) && f in ledger.holders
    modifies ledger`holders, f
    ensures ledger.Balanced(slots) && ledger.holders == old(ledger.holders) - multiset{f}
    ensures f.freed <==> f !in ledger.holders && forall s :: s in slots ==> slots[s] != f
  {
    hide InSlots;
    ledger.OwnIsAlive(slots, f);
    OneLess(ledger.holders, f);
    f.Release();
    ledger.holders := ledger.holders - multiset{f};
    forall g | g in ledger.files
      ensures ledger.Counted(g, slots)
    {
      assert old(ledger.Counted(g, slots));
    }
    assert ledger.Balanced(slots);
    ledger.FreedIffUnheld(slots, f);
  }
}
