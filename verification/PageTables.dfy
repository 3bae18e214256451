// Two-level page tables (vm.c) over a set of physical pages, as values.
//
// Frames are physical page numbers.  A page directory and its page tables
// hold 1024 entries each; virtual page v is entry v % 1024 of the table named
// by entry v / 1024 of the directory.
module PageTables {
  import opened Blocks

  type Frame = nat

  const NPDENTRIES: nat := 1024

  // Pages below KERNBASE.
  const UPAGES: nat := 0x80000

  // perm holds the flag bits other than PTE_P.
  datatype Entry = Entry(frame: Frame, perm: nat)

  datatype Page = Junk | Bytes(data: seq<byte>) | Table(entries: seq<Option<Entry>>)

  datatype Mem = Mem(pages: map<Frame, Page>, free: set<Frame>)

  // What a frame of an address space is for.
  datatype Role = Dir | Tab(i: nat) | Leaf(v: nat)

  function Dx(v: nat): nat { v / 1024 }

  function Tx(v: nat): nat { v % 1024 }

  lemma SameSlot(v: nat, w: nat)
    ensures Tx(v) < 1024 && v == Dx(v) * 1024 + Tx(v)
    ensures Dx(v) == Dx(w) && Tx(v) == Tx(w) ==> v == w
  {
  }

  // Entry j of the table in frame f.
  function Ent(m: Mem, f: Frame, j: nat): Option<Entry> {
    if f in m.pages && m.pages[f].Table? && j < |m.pages[f].entries| then m.pages[f].entries[j] else None
  }

  function PteOf(m: Mem, pde: Option<Entry>, j: nat): Option<Entry> {
    if pde.Some? then Ent(m, pde.value.frame, j) else None
  }

  // The mapping of virtual page v under directory d.
  function Pte(m: Mem, d: Frame, v: nat): Option<Entry> { PteOf(m, Ent(m, d, Dx(v)), Tx(v)) }

  predicate IsTable(m: Mem, f: Frame) {
    f in m.pages && m.pages[f].Table? && |m.pages[f].entries| == NPDENTRIES
  }

  // The frames of address space d are exactly those of use, each with one role.
  ghost predicate Roles(m: Mem, d: Frame, use: map<Frame, Role>) {
    && d in use && use[d] == Dir
    && (forall f | f in use && use[f] == Dir :: f == d)
    && (forall f | f in use && use[f].Tab? :: Ent(m, d, use[f].i).Some? && Ent(m, d, use[f].i).value.frame == f)
    && (forall f | f in use && use[f].Leaf? ::
          use[f].v < UPAGES && Pte(m, d, use[f].v).Some? && Pte(m, d, use[f].v).value.frame == f)
  }

  ghost predicate Kinds(m: Mem, use: map<Frame, Role>) {
    && (forall f | f in use :: if use[f].Leaf? then f in m.pages && m.pages[f].Bytes? else IsTable(m, f))
  }

  ghost predicate Named(m: Mem, d: Frame, use: map<Frame, Role>) {
    && (forall i: nat | Ent(m, d, i).Some? ::
        Ent(m, d, i).value.frame in use && use[Ent(m, d, i).value.frame] == Tab(i))
    && (forall v: nat | v < UPAGES && Pte(m, d, v).Some? ::
        Pte(m, d, v).value.frame in use && use[Pte(m, d, v).value.frame] == Leaf(v))
  }

  ghost predicate Ok(m: Mem, d: Frame, use: map<Frame, Role>) {
    && m.free <= m.pages.Keys && m.free !! use.Keys
    && Roles(m, d, use) && Kinds(m, use) && Named(m, d, use)
  }

  // --- writing one entry ---

  function SetEnt(m: Mem, f: Frame, j: nat, e: Option<Entry>): Mem
    requires IsTable(m, f) && j < NPDENTRIES
  {
    m.(pages := m.pages[f := Table(m.pages[f].entries[j := e])])
  }

  lemma EntSet(m: Mem, f: Frame, j: nat, e: Option<Entry>)
    requires IsTable(m, f) && j < NPDENTRIES
    ensures forall g, k {:trigger Ent(SetEnt(m, f, j, e), g, k)} ::
              Ent(SetEnt(m, f, j, e), g, k) == if g == f && k == j then e else Ent(m, g, k)
    ensures forall g {:trigger IsTable(SetEnt(m, f, j, e), g)} :: IsTable(SetEnt(m, f, j, e), g) == IsTable(m, g)
  {
  }

  // An empty page table in frame t, named by entry i of d.
  function NewTable(m: Mem, d: Frame, i: nat, t: Frame, perm: nat): Mem
    requires IsTable(m, d) && i < NPDENTRIES && t != d
  {
    var m1 := m.(pages := m.pages[t := Table(seq(NPDENTRIES, _ => None))], free := m.free - {t});
    SetEnt(m1, d, i, Some(Entry(t, perm)))
  }

  lemma NewTableAt(m: Mem, d: Frame, i: nat, t: Frame, perm: nat)
    requires IsTable(m, d) && i < NPDENTRIES && t != d
    ensures forall g, k {:trigger Ent(NewTable(m, d, i, t, perm), g, k)} ::
              Ent(NewTable(m, d, i, t, perm), g, k) ==
              if g == d && k == i then Some(Entry(t, perm)) else if g == t then None else Ent(m, g, k)
    ensures forall g {:trigger IsTable(NewTable(m, d, i, t, perm), g)} ::
              IsTable(NewTable(m, d, i, t, perm), g) == (g == t || IsTable(m, g))
  {
    var m1 := m.(pages := m.pages[t := Table(seq(NPDENTRIES, _ => None))], free := m.free - {t});
    EntSet(m1, d, i, Some(Entry(t, perm)));
  }

  // A new table changes no mapping.
  lemma NewTableMaps(m: Mem, d: Frame, use: map<Frame, Role>, i: nat, t: Frame, perm: nat)
    requires Ok(m, d, use) && i < NPDENTRIES && t in m.free && Ent(m, d, i) == None
    ensures t != d && IsTable(m, d)
    ensures forall v {:trigger Pte(NewTable(m, d, i, t, perm), d, v)} ::
            Pte(NewTable(m, d, i, t, perm), d, v) == Pte(m, d, v)
  {
    hide Ent, NewTable, IsTable;
    NewTableAt(m, d, i, t, perm);
    forall v ensures Pte(NewTable(m, d, i, t, perm), d, v) == Pte(m, d, v) {
      if Ent(m, d, Dx(v)).Some? { assert Ent(m, d, Dx(v)).value.frame in use; }
    }
  }

  lemma NewTableKeeps(m: Mem, d: Frame, use: map<Frame, Role>, i: nat, t: Frame, perm: nat)
    requires Ok(m, d, use) && i < NPDENTRIES && t in m.free && Ent(m, d, i) == None
    ensures t != d && IsTable(m, d) && Ok(NewTable(m, d, i, t, perm), d, use[t := Tab(i)])
  {
    hide Ent, Pte;
    NewTableMaps(m, d, use, i, t, perm);
    NewTableAt(m, d, i, t, perm);
    var m', use' := NewTable(m, d, i, t, perm), use[t := Tab(i)];
    assert Named(m', d, use');
    assert Roles(m', d, use');
    assert Kinds(m', use');
  }

  // --- mapping and unmapping one page ---

  lemma MapMaps(m: Mem, d: Frame, use: map<Frame, Role>, v: nat, e: Option<Entry>)
    requires Ok(m, d, use) && Ent(m, d, Dx(v)).Some?
    ensures var t := Ent(m, d, Dx(v)).value.frame;
      && IsTable(m, t) && t != d && Tx(v) < NPDENTRIES
      && forall w {:trigger Pte(SetEnt(m, t, Tx(v), e), d, w)} ::
           Pte(SetEnt(m, t, Tx(v), e), d, w) == if w == v then e else Pte(m, d, w)
  {
    hide Ent, Dx, Tx, SetEnt;
    var t := Ent(m, d, Dx(v)).value.frame;
    assert t in use && use[t] == Tab(Dx(v));
    SameSlot(v, v);
    EntSet(m, t, Tx(v), e);
    forall w ensures Pte(SetEnt(m, t, Tx(v), e), d, w) == if w == v then e else Pte(m, d, w) {
      SameSlot(v, w);
      if Ent(m, d, Dx(w)).Some? { assert use[Ent(m, d, Dx(w)).value.frame] == Tab(Dx(w)); }
    }
  }

  // Virtual page v is given frame f: a frame of d's own when v is a user page.
  lemma MapKeeps(m: Mem, d: Frame, use: map<Frame, Role>, v: nat, f: Frame, perm: nat)
    requires Ok(m, d, use) && Ent(m, d, Dx(v)).Some? && Pte(m, d, v) == None
    requires v < UPAGES ==> f in m.pages && m.pages[f].Bytes? && f !in use && f !in m.free
    ensures var t := Ent(m, d, Dx(v)).value.frame;
      && IsTable(m, t) && Tx(v) < NPDENTRIES
      && Ok(SetEnt(m, t, Tx(v), Some(Entry(f, perm))), d, if v < UPAGES then use[f := Leaf(v)] else use)
  {
    hide Ent, Pte, Dx, Tx;
    var t := Ent(m, d, Dx(v)).value.frame;
    MapMaps(m, d, use, v, Some(Entry(f, perm)));
    EntSet(m, t, Tx(v), Some(Entry(f, perm)));
    var m', use' := SetEnt(m, t, Tx(v), Some(Entry(f, perm))), if v < UPAGES then use[f := Leaf(v)] else use;
    assert Named(m', d, use');
    assert Roles(m', d, use');
    assert Kinds(m', use');
  }

  // --- unmapping, page by page ---

  // One turn of deallocuvm: the frame of v goes back to the free list.
  function Drop(m: Mem, d: Frame, v: nat): Mem {
    var pde, pte := Ent(m, d, Dx(v)), Pte(m, d, v);
    if pde.Some? && pte.Some? && IsTable(m, pde.value.frame) && Tx(v) < NPDENTRIES then
      var m1 := SetEnt(m, pde.value.frame, Tx(v), None);
      Mem(m1.pages[pte.value.frame := Junk], m1.free + {pte.value.frame})
    else m
  }

  function DropRange(m: Mem, d: Frame, lo: nat, hi: nat): Mem
    decreases hi - lo
  {
    if lo >= hi then m else DropRange(Drop(m, d, lo), d, lo + 1, hi)
  }

  // Freeing a page that is not a table changes no entry.
  lemma EntFreed(m: Mem, f: Frame, m': Mem)
    requires f in m.pages && !m.pages[f].Table? && m'.pages == m.pages[f := Junk]
    ensures forall g, k {:trigger Ent(m', g, k)} :: Ent(m', g, k) == Ent(m, g, k)
    ensures forall g {:trigger IsTable(m', g)} :: IsTable(m', g) == IsTable(m, g)
  {
  }

  lemma DropMaps(m: Mem, d: Frame, use: map<Frame, Role>, v: nat)
    requires Ok(m, d, use) && v < UPAGES && Pte(m, d, v).Some?
    ensures var f, t, m' := Pte(m, d, v).value.frame, Ent(m, d, Dx(v)).value.frame, Drop(m, d, v);
      && f in use && use[f] == Leaf(v)
      && m'.free == m.free + {f} && m'.pages.Keys == m.pages.Keys && m'.pages[f] == Junk
      && (forall g | g in m.pages && g != f && g != t :: m'.pages[g] == m.pages[g])
      && t in use && use[t] == Tab(Dx(v))
      && (forall g {:trigger IsTable(m', g)} :: IsTable(m', g) == IsTable(m, g))
      && (forall i {:trigger Ent(m', d, i)} :: Ent(m', d, i) == Ent(m, d, i))
      && (forall w {:trigger Pte(m', d, w)} :: Pte(m', d, w) == if w == v then None else Pte(m, d, w))
  {
    hide Ent, Dx, Tx;
    var f, t := Pte(m, d, v).value.frame, Ent(m, d, Dx(v)).value.frame;
    MapMaps(m, d, use, v, None);
    EntSet(m, t, Tx(v), None);
    EntFreed(SetEnt(m, t, Tx(v), None), f, Drop(m, d, v));
    forall w ensures Pte(Drop(m, d, v), d, w) == Pte(SetEnt(m, t, Tx(v), None), d, w) {}
  }

  lemma DropKeeps(m: Mem, d: Frame, use: map<Frame, Role>, v: nat)
    requires Ok(m, d, use) && v < UPAGES && Pte(m, d, v).Some?
    ensures Ok(Drop(m, d, v), d, use - {Pte(m, d, v).value.frame})
  {
    hide Ent, Pte, Dx, Tx, Drop, IsTable;
    DropMaps(m, d, use, v);
    var f, m' := Pte(m, d, v).value.frame, Drop(m, d, v);
    assert Named(m', d, use - {f});
    assert Roles(m', d, use - {f});
    DropKinds(m, d, use, v);
  }

  lemma DropKinds(m: Mem, d: Frame, use: map<Frame, Role>, v: nat)
    requires Ok(m, d, use) && v < UPAGES && Pte(m, d, v).Some?
    ensures Kinds(Drop(m, d, v), use - {Pte(m, d, v).value.frame})
  {
    hide Ent, Pte, Dx, Tx, Drop, IsTable;
    DropMaps(m, d, use, v);
  }

  // The frames left when the user pages from lo to hi are gone.
  ghost function Without(use: map<Frame, Role>, lo: nat, hi: nat): map<Frame, Role> {
    map f | f in use && !(use[f].Leaf? && lo <= use[f].v < hi) :: use[f]
  }

  // Deallocating a range unmaps exactly that range and frees exactly its frames.
  lemma {:induction false} DropRangeKeeps(m: Mem, d: Frame, use: map<Frame, Role>, lo: nat, hi: nat)
    requires Ok(m, d, use) && hi <= UPAGES
    ensures var m', use' := DropRange(m, d, lo, hi), Without(use, lo, hi);
      && Ok(m', d, use')
      && m'.pages.Keys == m.pages.Keys && m'.free == m.free + (use.Keys - use'.Keys)
      && (forall w: nat {:trigger Pte(m', d, w)} :: Pte(m', d, w) == if lo <= w < hi then None else Pte(m, d, w))
      && (forall g | g in m.pages && (g !in use || (use[g].Leaf? && g in use')) :: m'.pages[g] == m.pages[g])
    decreases hi - lo
  {
    hide Ent, Pte, Dx, Tx, Drop, Roles, Kinds, Named;
    if lo >= hi {
      assert Without(use, lo, hi) == use;
    } else if Pte(m, d, lo) == None {
      NothingToDrop(m, d, use, lo);
      DropRangeKeeps(m, d, use, lo + 1, hi);
      assert Without(use, lo, hi) == Without(use, lo + 1, hi);
    } else {
      var f := Pte(m, d, lo).value.frame;
      DropMaps(m, d, use, lo);
      DropKeeps(m, d, use, lo);
      OnlyLeaf(m, d, use, lo);
      DropRangeKeeps(Drop(m, d, lo), d, use - {f}, lo + 1, hi);
      assert Without(use - {f}, lo + 1, hi) == Without(use, lo, hi);
    }
  }

  lemma NothingToDrop(m: Mem, d: Frame, use: map<Frame, Role>, v: nat)
    requires Roles(m, d, use) && Pte(m, d, v) == None
    ensures Drop(m, d, v) == m && forall f | f in use :: use[f] != Leaf(v)
  {
    hide Ent, Dx, Tx;
  }

  lemma OnlyLeaf(m: Mem, d: Frame, use: map<Frame, Role>, v: nat)
    requires Roles(m, d, use) && Pte(m, d, v).Some?
    ensures forall f | f in use && use[f] == Leaf(v) :: f == Pte(m, d, v).value.frame
  {
    hide Ent, Dx, Tx;
  }

  // Where there is no page table, skipping to the next directory entry does
  // what going page by page would.
  lemma {:induction false} SkipTable(m: Mem, d: Frame, v: nat, w: nat, hi: nat)
    requires Ent(m, d, Dx(v)) == None && v <= w <= (Dx(v) + 1) * 1024
    ensures if w <= hi then DropRange(m, d, v, hi) == DropRange(m, d, w, hi) else DropRange(m, d, v, hi) == m
    decreases w - v
  {
    if v < w {
      assert Drop(m, d, v) == m;
      if v + 1 < w {
        assert Dx(v + 1) == Dx(v);
        SkipTable(m, d, v + 1, w, hi);
      }
    }
  }

  // Address space d does not see changes to other frames.
  lemma OthersKeep(m: Mem, m': Mem, d: Frame, use: map<Frame, Role>)
    requires Ok(m, d, use) && m'.pages.Keys == m.pages.Keys && m'.free <= m'.pages.Keys && m'.free !! use.Keys
    requires forall f | f in use :: f in m.pages && m'.pages[f] == m.pages[f]
    ensures Ok(m', d, use) && forall v {:trigger Pte(m', d, v)} :: Pte(m', d, v) == Pte(m, d, v)
  {
    hide Dx, Tx;
    forall i ensures Ent(m', d, i) == Ent(m, d, i) {}
    forall v ensures Pte(m', d, v) == Pte(m, d, v) {
      if Ent(m, d, Dx(v)).Some? { assert Ent(m, d, Dx(v)).value.frame in use; }
    }
    assert Roles(m', d, use);
    assert Named(m', d, use);
  }
}
