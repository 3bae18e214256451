// Address spaces (vm.c): page tables changed in place over the free pages of
// kalloc.c, with kalloc failing at any call.
module Vm {
  import opened Blocks
  import opened PageTables

  const KERNBASE: nat := 0x8000_0000
  const VPAGES: nat := 0x10_0000
  const PTE_W: nat := 2
  const PTE_U: nat := 4

  // PGROUNDUP as a page number: pages a with a * PGSIZE < sz are those below it.
  function Up(sz: nat): nat { (sz + PGSIZE - 1) / PGSIZE }

  function ZeroPage(): Page { Bytes(seq(PGSIZE, _ => 0)) }

  // A stretch of the kernel's mappings, in pages.
  datatype Kmap = Kmap(virt: nat, n: nat, phys: nat, perm: nat)

  predicate Covers(k: Kmap, v: nat) { k.virt <= v < k.virt + k.n }

  ghost predicate Fits(ks: seq<Kmap>) {
    && (forall i | 0 <= i < |ks| :: ks[i].n > 0 && UPAGES <= ks[i].virt && ks[i].virt + ks[i].n <= VPAGES)
    && (forall i, j | 0 <= i < j < |ks| :: ks[i].virt + ks[i].n <= ks[j].virt || ks[j].virt + ks[j].n <= ks[i].virt)
  }

  // The kernel's map, given the page where its data begins.
  function KernelMap(data: nat): seq<Kmap>
    requires 0x80100 < data < 0x8E000
  {
    [Kmap(0x80000, 0x100, 0, PTE_W),
     Kmap(0x80100, data - 0x80100, 0x100, 0),
     Kmap(data, 0x8E000 - data, data - 0x80000, PTE_W),
     Kmap(0xFE000, 0x2000, 0xFE000, PTE_W)]
  }

  lemma KernelMapFits(data: nat)
    requires 0x80100 < data < 0x8E000
    ensures Fits(KernelMap(data))
  {
  }

  // --- what operations keep ---

  // From m to m', address space d gains the frames extra and loses none; the
  // pages it has do not change, nor does anything outside it and the free list.
  ghost predicate Grown(m: Mem, use: map<Frame, Role>, m': Mem, use': map<Frame, Role>, d: Frame, extra: set<Frame>) {
    && Ok(m', d, use') && m'.pages.Keys == m.pages.Keys
    && m'.free + use'.Keys == m.free + use.Keys + extra
    && (forall f | f in m.pages && f !in m.free && f !in use :: m'.pages[f] == m.pages[f])
    && (forall f | f in use :: f in use' && use'[f] == use[f])
    && (forall f | f in use && f in m.pages && use[f].Leaf? :: m'.pages[f] == m.pages[f])
  }

  // From m to m', frames move only between d and the free list, and the user
  // pages of d below lo keep their frames and contents.
  ghost predicate Change(m: Mem, use: map<Frame, Role>, m': Mem, use': map<Frame, Role>, d: Frame, lo: nat) {
    && Ok(m', d, use') && m'.pages.Keys == m.pages.Keys
    && m'.free + use'.Keys == m.free + use.Keys
    && (forall f | f in m.pages && f !in m.free && f !in use :: m'.pages[f] == m.pages[f])
    && (forall f | f in use && f in m.pages && use[f].Leaf? && use[f].v < lo ::
          f in use' && use'[f] == use[f] && m'.pages[f] == m.pages[f])
  }

  // The entry maps a page of zeros, writable by the user.
  predicate Fresh(m: Mem, e: Option<Entry>) {
    e.Some? && e.value.perm == PTE_W + PTE_U && e.value.frame in m.pages && m.pages[e.value.frame] == ZeroPage()
  }

  lemma OkFrames(m: Mem, d: Frame, use: map<Frame, Role>)
    requires Ok(m, d, use)
    ensures m.free <= m.pages.Keys && use.Keys <= m.pages.Keys && m.free !! use.Keys && d in use && IsTable(m, d)
    ensures forall f | f in use && use[f].Leaf? :: m.pages[f].Bytes?
  {
  }

  lemma IsNewTable(m: Mem, m': Mem, d: Frame, i: nat, t: Frame, perm: nat)
    requires IsTable(m, d) && i < NPDENTRIES && t != d && m'.free == m.free - {t}
    requires m'.pages == m.pages[t := Table(seq(NPDENTRIES, _ => None))]
                         [d := Table(m.pages[d].entries[i := Some(Entry(t, perm))])]
    ensures m' == NewTable(m, d, i, t, perm)
    ensures forall g | g in m.pages && g != t && g != d :: m'.pages[g] == m.pages[g]
    ensures Ent(m', d, i) == Some(Entry(t, perm))
  {
  }

  // One entry written: what changes and what does not.
  lemma MapGrows(m: Mem, d: Frame, use: map<Frame, Role>, v: nat, f: Frame, perm: nat, m': Mem)
    requires Ok(m, d, use) && Ent(m, d, Dx(v)).Some? && Pte(m, d, v) == None
    requires v < UPAGES ==> f in m.pages && m.pages[f].Bytes? && f !in use && f !in m.free
    requires var t := Ent(m, d, Dx(v)).value.frame;
      IsTable(m, t) && Tx(v) < NPDENTRIES && m' == SetEnt(m, t, Tx(v), Some(Entry(f, perm)))
    ensures Grown(m, use, m', if v < UPAGES then use[f := Leaf(v)] else use, d, if v < UPAGES then {f} else {})
    ensures forall w {:trigger Pte(m', d, w)} :: Pte(m', d, w) == if w == v then Some(Entry(f, perm)) else Pte(m, d, w)
    ensures v < UPAGES ==> m'.pages[f] == m.pages[f]
  {
    hide Roles, Kinds, Pte;
    MapMaps(m, d, use, v, Some(Entry(f, perm)));
    MapKeeps(m, d, use, v, f, perm);
    var t := Ent(m, d, Dx(v)).value.frame;
    assert t in use && use[t] == Tab(Dx(v));
    hide Ok;
  }

  // Dropping a range of user pages, as a change.
  lemma DropChanges(m: Mem, d: Frame, use: map<Frame, Role>, lo: nat, hi: nat)
    requires Ok(m, d, use) && hi <= UPAGES
    ensures Change(m, use, DropRange(m, d, lo, hi), Without(use, lo, hi), d, lo)
    ensures forall w: nat {:trigger Pte(DropRange(m, d, lo, hi), d, w)} ::
              Pte(DropRange(m, d, lo, hi), d, w) == if lo <= w < hi then None else Pte(m, d, w)
  {
    hide Roles, Kinds, Named, Pte, DropRange;
    DropRangeKeeps(m, d, use, lo, hi);
  }

  lemma ChangeThen(m: Mem, u: map<Frame, Role>, m1: Mem, u1: map<Frame, Role>, m2: Mem, u2: map<Frame, Role>,
          d: Frame, lo: nat)
    requires m.free <= m.pages.Keys && u.Keys <= m.pages.Keys
    requires Change(m, u, m1, u1, d, lo) && Change(m1, u1, m2, u2, d, lo)
    ensures Change(m, u, m2, u2, d, lo)
  {
    hide Ok;
    forall f | f in m.pages && f !in m.free && f !in u ensures m2.pages[f] == m.pages[f] {
      assert f !in m1.free && f !in u1 by { assert f !in m1.free + u1.Keys; }
    }
  }

  // A frame in flight is not taken by a walk.
  lemma WalkedApart(m: Mem, use: map<Frame, Role>, m1: Mem, u1: map<Frame, Role>, d: Frame, f: Frame)
    requires Grown(m, use, m1, u1, d, {})
    ensures f in m.pages && f !in use && f !in m.free ==> f !in u1 && f !in m1.free && m1.pages[f] == m.pages[f]
  {
    hide Ok;
    if f !in use && f !in m.free { assert f !in m1.free + u1.Keys; }
  }

  lemma IsSet(m: Mem, m': Mem, f: Frame, j: nat, e: Option<Entry>)
    requires IsTable(m, f) && j < NPDENTRIES && m'.free == m.free
    requires m'.pages == m.pages[f := Table(m.pages[f].entries[j := e])]
    ensures m' == SetEnt(m, f, j, e)
  {
  }

  lemma IsDrop(m: Mem, m': Mem, d: Frame, v: nat)
    requires Ent(m, d, Dx(v)).Some? && Pte(m, d, v).Some? && IsTable(m, Ent(m, d, Dx(v)).value.frame)
             && Tx(v) < NPDENTRIES
    requires var t, f := Ent(m, d, Dx(v)).value.frame, Pte(m, d, v).value.frame;
      t != f && m'.free == m.free + {f} && m'.pages == m.pages[f := Junk][t := Table(m.pages[t].entries[Tx(v) := None])]
    ensures m' == Drop(m, d, v)
  {
  }

  lemma GrownNone(m: Mem, d: Frame, use: map<Frame, Role>)
    requires Ok(m, d, use)
    ensures Grown(m, use, m, use, d, {})
  {
  }

  lemma GrownMore(m: Mem, u: map<Frame, Role>, m1: Mem, u1: map<Frame, Role>, m2: Mem, u2: map<Frame, Role>, d: Frame,
          x: set<Frame>)
    requires m.free <= m.pages.Keys && u.Keys <= m.pages.Keys
    requires Grown(m, u, m1, u1, d, {}) && Grown(m1, u1, m2, u2, d, x)
    ensures Grown(m, u, m2, u2, d, x)
  {
    hide Ok;
    forall f | f in m.pages && f !in m.free && f !in u ensures m2.pages[f] == m.pages[f] {
      assert f !in m1.free && f !in u1 by { assert f !in m1.free + u1.Keys; }
    }
  }

  // --- freevm ---

  ghost function TabsBelow(use: map<Frame, Role>, i: nat): set<Frame> {
    set f | f in use && use[f].Tab? && use[f].i < i
  }

  lemma TabsNone(use: map<Frame, Role>)
    ensures TabsBelow(use, 0) == {}
  {
  }

  lemma NoLeaves(use: map<Frame, Role>)
    ensures var u := Without(use, 0, UPAGES); forall f | f in u && u[f].Leaf? :: u[f].v >= UPAGES
    ensures Without(use, 0, UPAGES).Keys <= use.Keys
  {
  }

  // Entry i of the directory names a table that has not been freed yet.
  lemma TabTurn(m: Mem, d: Frame, use: map<Frame, Role>, i: nat)
    requires Ok(m, d, use) && i < NPDENTRIES && IsTable(m, d)
    ensures var e := m.pages[d].entries[i];
      if e.Some? then
        && e.value.frame in use && e.value.frame in m.pages && e.value.frame !in m.free && e.value.frame != d
        && e.value.frame !in TabsBelow(use, i) && TabsBelow(use, i + 1) == TabsBelow(use, i) + {e.value.frame}
      else TabsBelow(use, i + 1) == TabsBelow(use, i)
  {
    hide Pte;
    assert m.pages[d].entries[i] == Ent(m, d, i);
  }

  lemma TabsAll(m: Mem, d: Frame, use: map<Frame, Role>)
    requires Ok(m, d, use) && forall f | f in use && use[f].Leaf? :: use[f].v >= UPAGES
    ensures d !in TabsBelow(use, NPDENTRIES) && TabsBelow(use, NPDENTRIES) + {d} == use.Keys
  {
    hide Pte;
    forall f | f in use && f != d ensures f in TabsBelow(use, NPDENTRIES) {}
  }

  lemma AllBack(m: Mem, use: map<Frame, Role>, m1: Mem, u1: map<Frame, Role>, d: Frame)
    requires Change(m, use, m1, u1, d, 0) && m.free !! use.Keys && u1.Keys <= use.Keys
    ensures m1.free + u1.Keys == m.free + use.Keys
    ensures forall f | f in m.pages && f !in use && f !in m.free :: m1.pages[f] == m.pages[f]
  {
    hide Ok;
  }

  // --- setupkvm ---

  lemma EmptyDir(m: Mem, d: Frame)
    requires m.free <= m.pages.Keys && d !in m.free && d in m.pages && m.pages[d] == Table(seq(NPDENTRIES, _ => None))
    ensures Ok(m, d, map[d := Dir]) && forall v {:trigger Pte(m, d, v)} :: Pte(m, d, v) == None
  {
    assert forall i {:trigger Ent(m, d, i)} :: Ent(m, d, i) == None;
  }

  // Under d the stretches ks are mapped and nothing else is.
  ghost predicate KernelMapped(m: Mem, d: Frame, ks: seq<Kmap>) {
    && (forall v: nat {:trigger Pte(m, d, v)} | (forall j | 0 <= j < |ks| :: !Covers(ks[j], v)) :: Pte(m, d, v) == None)
    && (forall j, v: nat {:trigger Covers(ks[j], v)} | 0 <= j < |ks| && Covers(ks[j], v) ::
          Pte(m, d, v) == Some(Entry(ks[j].phys + (v - ks[j].virt), ks[j].perm)))
  }

  lemma KernelNone(m: Mem, d: Frame)
    requires forall v {:trigger Pte(m, d, v)} :: Pte(m, d, v) == None
    ensures KernelMapped(m, d, [])
  {
  }

  lemma KernelNext(m: Mem, d: Frame, ks: seq<Kmap>, k: nat)
    requires k < |ks| && Fits(ks) && KernelMapped(m, d, ks[..k])
    ensures ks[k].n > 0 && UPAGES <= ks[k].virt && ks[k].virt + ks[k].n <= VPAGES
    ensures forall w | ks[k].virt <= w < ks[k].virt + ks[k].n :: Pte(m, d, w) == None
  {
    hide Pte;
  }

  lemma KernelMore(m: Mem, m': Mem, d: Frame, ks: seq<Kmap>, k: nat)
    requires k < |ks| && Fits(ks) && KernelMapped(m, d, ks[..k])
    requires forall w: nat | w < ks[k].virt || w >= ks[k].virt + ks[k].n :: Pte(m', d, w) == Pte(m, d, w)
    requires forall w | ks[k].virt <= w < ks[k].virt + ks[k].n ::
             Pte(m', d, w) == Some(Entry(ks[k].phys + (w - ks[k].virt), ks[k].perm))
    ensures KernelMapped(m', d, ks[..k + 1])
  {
    hide Pte;
    var a, b := ks[..k], ks[..k + 1];
    forall v: nat | forall j | 0 <= j < |b| :: !Covers(b[j], v) ensures Pte(m', d, v) == None {
      assert !Covers(b[k], v);
      forall j | 0 <= j < k ensures !Covers(a[j], v) { assert !Covers(b[j], v); }
    }
    forall j, v: nat | 0 <= j < |b| && Covers(b[j], v)
      ensures Pte(m', d, v) == Some(Entry(b[j].phys + (v - b[j].virt), b[j].perm))
    {
      if j < k { assert Covers(a[j], v); }
    }
  }

  // The kernel's mappings leave the user part empty.
  lemma UserEmpty(m: Mem, d: Frame, ks: seq<Kmap>)
    requires Fits(ks) && KernelMapped(m, d, ks)
    ensures forall v: nat | v < UPAGES :: Pte(m, d, v) == None
  {
    hide Pte;
  }

  // With the kernel's own map: memory up to PHYSTOP stands at KERNBASE, writable
  // but for the kernel's text, and the devices stand at their own addresses.
  lemma KernelPart(m: Mem, d: Frame, data: nat, v: nat)
    requires 0x80100 < data < 0x8E000 && KernelMapped(m, d, KernelMap(data)) && v < VPAGES
    ensures Pte(m, d, v) ==
              if 0x80100 <= v < data then Some(Entry(v - 0x80000, 0))
              else if 0x80000 <= v < 0x8E000 then Some(Entry(v - 0x80000, PTE_W))
              else if 0xFE000 <= v then Some(Entry(v, PTE_W))
              else None
  {
    hide Pte;
    var ks := KernelMap(data);
    KernelMapFits(data);
    assert Covers(ks[0], v) || Covers(ks[1], v) || Covers(ks[2], v) || Covers(ks[3], v) ||
           forall i | 0 <= i < |ks| :: !Covers(ks[i], v);
  }

  lemma GrownOk(m: Mem, u: map<Frame, Role>, m': Mem, u': map<Frame, Role>, d: Frame)
    requires Grown(m, u, m', u', d, {})
    ensures Ok(m', d, u') && m'.pages.Keys == m.pages.Keys
  {
  }

  lemma GrownFrom(m: Mem, d: Frame, m1: Mem, u1: map<Frame, Role>, m3: Mem, u3: map<Frame, Role>)
    requires d in m.free && m1.free == m.free - {d} && m1.pages.Keys == m.pages.Keys && u1 == map[d := Dir]
    requires forall f | f in m.pages && f != d :: m1.pages[f] == m.pages[f]
    requires Grown(m1, u1, m3, u3, d, {})
    ensures m3.free + u3.Keys == m.free && m3.pages.Keys == m.pages.Keys
    ensures forall f | f in m.pages && f !in m.free :: m3.pages[f] == m.pages[f]
  {
    hide Ok;
  }

  lemma Restored(m: Mem, d: Frame, m1: Mem, u1: map<Frame, Role>, m3: Mem, u3: map<Frame, Role>, m4: Mem)
    requires d in m.free && m1.free == m.free - {d} && m1.pages.Keys == m.pages.Keys && u1 == map[d := Dir]
    requires forall f | f in m.pages && f != d :: m1.pages[f] == m.pages[f]
    requires Grown(m1, u1, m3, u3, d, {})
    requires m4.free == m3.free + u3.Keys && m4.pages.Keys == m3.pages.Keys
    requires forall f | f in m3.pages && f !in u3 && f !in m3.free :: m4.pages[f] == m3.pages[f]
    ensures m4.free == m.free && m4.pages.Keys == m.pages.Keys
    ensures forall f | f in m.pages && f !in m.free :: m4.pages[f] == m.pages[f]
  {
    hide Ok;
    forall f | f in m.pages && f !in m.free ensures m4.pages[f] == m.pages[f] {
      assert f !in m3.free + u3.Keys;
    }
  }

  // --- allocuvm ---

  // From m to m' the user pages from lo to hi are mapped to new zeroed pages,
  // and no other mapping changes.
  ghost predicate Grew(m: Mem, m': Mem, d: Frame, lo: nat, hi: nat) {
    && (forall w: nat {:trigger Pte(m', d, w)} | w < lo || w >= hi :: Pte(m', d, w) == Pte(m, d, w))
    && (forall w: nat {:trigger Pte(m', d, w)} | lo <= w < hi :: Fresh(m', Pte(m', d, w)))
  }

  lemma ChangeNone(m: Mem, d: Frame, use: map<Frame, Role>, lo: nat)
    requires Ok(m, d, use)
    ensures Change(m, use, m, use, d, lo)
  {
  }

  lemma GrewNone(m: Mem, d: Frame, lo: nat)
    ensures Grew(m, m, d, lo, lo)
  {
  }

  lemma GrewUpTo(m: Mem, m': Mem, d: Frame, lo: nat, a: nat)
    requires Grew(m, m', d, lo, a) && lo <= a < UPAGES
    requires forall w | lo <= w < UPAGES :: Pte(m, d, w) == None
    ensures Pte(m', d, a) == None
  {
  }

  lemma GrewWhole(m: Mem, m': Mem, d: Frame, lo: nat, a: nat, newsz: nat)
    requires Grew(m, m', d, lo, a) && (a <= Up(newsz) || a == lo) && a * PGSIZE >= newsz
    ensures Grew(m, m', d, lo, Up(newsz))
    ensures newsz == 0 ==> forall w: nat :: Pte(m', d, w) == Pte(m, d, w)
  {
    assert Up(newsz) <= a;
  }

  // A frame off the free list, with new contents, is not yet part of d.
  lemma TakeFrame(m: Mem, m': Mem, d: Frame, use: map<Frame, Role>, f: Frame)
    requires Ok(m, d, use) && f in m.free && m'.free == m.free - {f}
    requires m'.pages.Keys == m.pages.Keys && forall g | g in m.pages && g != f :: m'.pages[g] == m.pages[g]
    ensures Ok(m', d, use) && f !in use && forall v {:trigger Pte(m', d, v)} :: Pte(m', d, v) == Pte(m, d, v)
  {
    OkFrames(m, d, use);
    OthersKeep(m, m', d, use);
  }

  // Unmapping everything from lo undoes what the loop has done so far.
  lemma GiveUp(m0: Mem, u0: map<Frame, Role>, m: Mem, u: map<Frame, Role>, d: Frame, lo: nat, a: nat, hi: nat)
    requires Ok(m0, d, u0) && Ok(m, d, u) && Change(m0, u0, m, u, d, lo) && Grew(m0, m, d, lo, a) && a <= hi <= UPAGES
    requires forall w | lo <= w < UPAGES :: Pte(m0, d, w) == None
    ensures var m', u' := DropRange(m, d, lo, hi), Without(u, lo, hi);
      Change(m0, u0, m', u', d, lo) && forall w: nat {:trigger Pte(m', d, w)} :: Pte(m', d, w) == Pte(m0, d, w)
  {
    hide Ok, Pte, DropRange, Without, Change, Fresh;
    OkFrames(m0, d, u0);
    DropChanges(m, d, u, lo, hi);
    ChangeThen(m0, u0, m, u, DropRange(m, d, lo, hi), Without(u, lo, hi), d, lo);
  }

  // The same with frame f in flight, and f freed after.
  lemma GiveUpTaken(m0: Mem, u0: map<Frame, Role>, m: Mem, m2: Mem, u: map<Frame, Role>, d: Frame, lo: nat, a: nat,
          hi: nat, f: Frame)
    requires Ok(m0, d, u0) && Ok(m, d, u) && Ok(m2, d, u) && f in m.free && m2.free == m.free - {f} && hi <= UPAGES
    ensures var m', u' := DropRange(m2, d, lo, hi), Without(u, lo, hi);
      Ok(m', d, u') && f !in m'.free && f !in u' && m'.pages.Keys == m2.pages.Keys
  {
    hide Roles, Kinds, Named, Pte, DropRange, Without;
    DropChanges(m2, d, u, lo, hi);
    var m', u' := DropRange(m2, d, lo, hi), Without(u, lo, hi);
    assert f !in m'.free + u'.Keys;
  }

  lemma GaveBack(m0: Mem, u0: map<Frame, Role>, m: Mem, m2: Mem, u: map<Frame, Role>, m5: Mem, d: Frame, lo: nat,
          a: nat, hi: nat, f: Frame)
    requires Ok(m0, d, u0) && Ok(m, d, u) && Ok(m2, d, u) && f in m.free && m2.free == m.free - {f} && a <= hi <= UPAGES
    requires m2.pages.Keys == m.pages.Keys && forall g | g in m.pages && g != f :: m2.pages[g] == m.pages[g]
    requires forall v {:trigger Pte(m2, d, v)} :: Pte(m2, d, v) == Pte(m, d, v)
    requires Change(m0, u0, m, u, d, lo) && Grew(m0, m, d, lo, a)
    requires forall w | lo <= w < UPAGES :: Pte(m0, d, w) == None
    requires f in m.pages && m5 == Mem(DropRange(m2, d, lo, hi).pages[f := Junk], DropRange(m2, d, lo, hi).free + {f})
    ensures Change(m0, u0, m5, Without(u, lo, hi), d, lo)
    ensures forall w: nat {:trigger Pte(m5, d, w)} :: Pte(m5, d, w) == Pte(m0, d, w)
  {
    hide Ok, Pte, DropRange, Without, Fresh;
    var m', u' := DropRange(m2, d, lo, hi), Without(u, lo, hi);
    OkFrames(m0, d, u0);
    OkFrames(m, d, u);
    DropChanges(m2, d, u, lo, hi);
    GiveUpTaken(m0, u0, m, m2, u, d, lo, a, hi, f);
    OkFrames(m', d, u');
    OthersKeep(m', m5, d, u');
    assert Change(m, u, m5, u', d, lo) by {
      assert m5.free + u'.Keys == m.free + u.Keys;
    }
    ChangeThen(m0, u0, m, u, m5, u', d, lo);
  }

  lemma AllocTurn(m0: Mem, u0: map<Frame, Role>, m: Mem, m2: Mem, u: map<Frame, Role>, m3: Mem, u3: map<Frame, Role>,
          d: Frame, lo: nat, a: nat, f: Frame)
    requires Ok(m0, d, u0) && Ok(m, d, u) && f in m.free && m2 == Mem(m.pages[f := ZeroPage()], m.free - {f})
             && lo <= a < UPAGES
    requires Change(m0, u0, m, u, d, lo) && Grew(m0, m, d, lo, a) && Grown(m2, u, m3, u3, d, {f})
    requires forall v {:trigger Pte(m2, d, v)} :: Pte(m2, d, v) == Pte(m, d, v)
    requires forall w {:trigger Pte(m3, d, w)} ::
             Pte(m3, d, w) == if w == a then Some(Entry(f, PTE_W + PTE_U)) else Pte(m2, d, w)
    requires f in m3.pages && m3.pages[f] == ZeroPage()
    ensures Ok(m3, d, u3) && Change(m0, u0, m3, u3, d, lo) && Grew(m0, m3, d, lo, a + 1)
  {
    hide Ok, Pte, ZeroPage, Grew, Change, Grown;
    OkFrames(m0, d, u0);
    TookFrame(m, m2, u, m3, u3, d, lo, f);
    ChangeThen(m0, u0, m, u, m3, u3, d, lo);
    StillFresh(m0, m, m2, u, m3, u3, d, lo, a, f);
  }

  lemma TookFrame(m: Mem, m2: Mem, u: map<Frame, Role>, m3: Mem, u3: map<Frame, Role>, d: Frame, lo: nat, f: Frame)
    requires Ok(m, d, u) && f in m.free && m2 == Mem(m.pages[f := ZeroPage()], m.free - {f})
             && Grown(m2, u, m3, u3, d, {f})
    ensures Ok(m3, d, u3) && Change(m, u, m3, u3, d, lo)
  {
    hide Ok, Pte, ZeroPage;
    OkFrames(m, d, u);
    assert m.pages.Keys == m2.pages.Keys;
  }

  lemma StillFresh(m0: Mem, m: Mem, m2: Mem, u: map<Frame, Role>, m3: Mem, u3: map<Frame, Role>, d: Frame, lo: nat,
          a: nat, f: Frame)
    requires Ok(m, d, u) && f in m.free && m2 == Mem(m.pages[f := ZeroPage()], m.free - {f}) && lo <= a < UPAGES
    requires Grew(m0, m, d, lo, a) && Grown(m2, u, m3, u3, d, {f})
    requires forall v {:trigger Pte(m2, d, v)} :: Pte(m2, d, v) == Pte(m, d, v)
    requires forall w {:trigger Pte(m3, d, w)} ::
             Pte(m3, d, w) == if w == a then Some(Entry(f, PTE_W + PTE_U)) else Pte(m2, d, w)
    requires f in m3.pages && m3.pages[f] == ZeroPage()
    ensures Grew(m0, m3, d, lo, a + 1)
  {
    hide Ok, Pte, ZeroPage;
    OkFrames(m, d, u);
    forall w: nat | lo <= w < a ensures Fresh(m3, Pte(m3, d, w)) {
      assert Fresh(m, Pte(m, d, w));
      UserLeaf(m, d, u, w);
    }
  }

  lemma UserLeaf(m: Mem, d: Frame, use: map<Frame, Role>, v: nat)
    requires Ok(m, d, use) && v < UPAGES && Pte(m, d, v).Some?
    ensures Pte(m, d, v).value.frame in use && use[Pte(m, d, v).value.frame] == Leaf(v)
  {
  }

  // --- copyuvm ---

  // Page w of c has the permissions and contents of page w of d, in m.
  predicate Copied(m: Mem, d: Frame, m': Mem, c: Frame, w: nat) {
    var e, e' := Pte(m, d, w), Pte(m', c, w);
    && e.Some? && e'.Some? && e'.value.perm == e.value.perm
    && e.value.frame in m.pages && e'.value.frame in m'.pages
    && m'.pages[e'.value.frame] == m.pages[e.value.frame]
  }

  // Address space c, made of frames that were free in m, copies the first n
  // pages of d and has no other user page; nothing else has changed.
  ghost predicate Copying(m: Mem, d: Frame, m': Mem, c: Frame, usec: map<Frame, Role>, n: nat) {
    && Ok(m', c, usec) && m'.pages.Keys == m.pages.Keys && m'.free + usec.Keys == m.free
    && (forall f | f in m.pages && f !in m.free :: m'.pages[f] == m.pages[f])
    && (forall w: nat | w < n :: Copied(m, d, m', c, w))
    && (forall w: nat | n <= w < UPAGES :: Pte(m', c, w) == None)
  }

  lemma CopyNone(m: Mem, d: Frame, m': Mem, c: Frame, usec: map<Frame, Role>)
    requires Ok(m', c, usec) && m'.pages.Keys == m.pages.Keys && m'.free + usec.Keys == m.free
    requires forall f | f in m.pages && f !in m.free :: m'.pages[f] == m.pages[f]
    requires forall v: nat | v < UPAGES :: Pte(m', c, v) == None
    ensures Copying(m, d, m', c, usec, 0)
  {
    hide Ok, Pte;
  }

  lemma ParentKeeps(m: Mem, d: Frame, use: map<Frame, Role>, m': Mem, c: Frame, usec: map<Frame, Role>, n: nat)
    requires Ok(m, d, use) && Copying(m, d, m', c, usec, n)
    ensures Ok(m', d, use) && forall v {:trigger Pte(m', d, v)} :: Pte(m', d, v) == Pte(m, d, v)
  {
    hide Roles, Kinds, Named, Pte, Copied;
    OkFrames(m, d, use);
    OkFrames(m', c, usec);
    OthersKeep(m, m', d, use);
  }

  lemma HasTable(m: Mem, d: Frame, use: map<Frame, Role>, v: nat)
    requires Ok(m, d, use) && Pte(m, d, v).Some?
    ensures Ent(m, d, Dx(v)).Some? && IsTable(m, Ent(m, d, Dx(v)).value.frame) && Tx(v) < NPDENTRIES
    ensures m.pages[Ent(m, d, Dx(v)).value.frame].entries[Tx(v)] == Pte(m, d, v)
  {
  }

  lemma CopyPage(m: Mem, d: Frame, use: map<Frame, Role>, m1: Mem, c: Frame, usec: map<Frame, Role>, n: nat)
    requires Ok(m, d, use) && Copying(m, d, m1, c, usec, n) && n < UPAGES && Pte(m, d, n).Some?
    ensures var f := Pte(m, d, n).value.frame;
      Pte(m1, c, n) == None && f in m.pages && f in m1.pages && m1.pages[f] == m.pages[f] && m.pages[f].Bytes?
        && f !in m1.free
  {
    hide Roles, Kinds, Named, Pte, Copied;
    OkFrames(m, d, use);
    UserLeaf(m, d, use, n);
  }

  // Page n copied into frame f and mapped.
  lemma CopyTurn(m: Mem, d: Frame, m1: Mem, m2: Mem, c: Frame, u1: map<Frame, Role>, n: nat, f: Frame, m3: Mem,
          u3: map<Frame, Role>)
    requires Copying(m, d, m1, c, u1, n) && Ok(m1, c, u1) && f in m1.free && n < UPAGES && Pte(m, d, n).Some?
    requires Pte(m, d, n).value.frame in m.pages
             && m2 == Mem(m1.pages[f := m.pages[Pte(m, d, n).value.frame]], m1.free - {f})
    requires Grown(m2, u1, m3, u3, c, {f}) && f in m3.pages && m3.pages[f] == m2.pages[f]
    requires forall v {:trigger Pte(m2, c, v)} :: Pte(m2, c, v) == Pte(m1, c, v)
    requires forall w {:trigger Pte(m3, c, w)} ::
               Pte(m3, c, w) == if w == n then Some(Entry(f, Pte(m, d, n).value.perm)) else Pte(m2, c, w)
    ensures Copying(m, d, m3, c, u3, n + 1) && Ok(m3, c, u3)
  {
    hide Ok, Pte;
    OkFrames(m1, c, u1);
    assert m2.pages.Keys == m1.pages.Keys;
    forall w: nat | w < n ensures Copied(m, d, m3, c, w) {
      assert Copied(m, d, m1, c, w);
      UserLeaf(m1, c, u1, w);
    }
  }

  lemma CopyPutBack(m: Mem, d: Frame, m1: Mem, m3: Mem, c: Frame, u1: map<Frame, Role>, n: nat, f: Frame)
    requires Copying(m, d, m1, c, u1, n) && Ok(m1, c, u1) && f in m1.free && m3 == Mem(m1.pages[f := Junk], m1.free)
             && n <= UPAGES
    ensures Copying(m, d, m3, c, u1, n) && Ok(m3, c, u1)
  {
    hide Ok, Pte;
    OkFrames(m1, c, u1);
    OthersKeep(m1, m3, c, u1);
    forall w: nat | w < n ensures Copied(m, d, m3, c, w) {
      assert Copied(m, d, m1, c, w);
      UserLeaf(m1, c, u1, w);
    }
  }

  lemma CopyRest(m: Mem, d: Frame, m': Mem, c: Frame, usec: map<Frame, Role>, n: nat)
    requires Copying(m, d, m', c, usec, n)
    ensures m'.pages.Keys == m.pages.Keys && forall f | f in m.pages && f !in m.free :: m'.pages[f] == m.pages[f]
  {
  }

  // Parent and child share no frame, and the parent's pages are as they were.
  lemma CopyDisjoint(m: Mem, d: Frame, use: map<Frame, Role>, m': Mem, c: Frame, usec: map<Frame, Role>, n: nat)
    requires Ok(m, d, use) && Copying(m, d, m', c, usec, n)
    ensures use.Keys !! usec.Keys && Ok(m', d, use)
    ensures forall f | f in use :: f in m.pages && f in m'.pages && m'.pages[f] == m.pages[f]
  {
    hide Roles, Kinds, Named, Pte, Copied;
    OkFrames(m, d, use);
    ParentKeeps(m, d, use, m', c, usec, n);
    assert forall f | f in usec :: f in m'.free + usec.Keys;
  }

  lemma CopyUndone(m: Mem, d: Frame, m1: Mem, c: Frame, u1: map<Frame, Role>, n: nat, m': Mem)
    requires Copying(m, d, m1, c, u1, n) && m'.free == m1.free + u1.Keys && m'.pages.Keys == m1.pages.Keys
    requires forall f | f in m1.pages && f !in u1 && f !in m1.free :: m'.pages[f] == m1.pages[f]
    ensures m'.free == m.free && m'.pages.Keys == m.pages.Keys
    ensures forall f | f in m.pages && f !in m.free :: m'.pages[f] == m.pages[f]
  {
    hide Ok, Pte, Copied;
  }

  class Vm {
    var pages: map<Frame, Page>
    var free: set<Frame>

    ghost function M(): Mem
      reads this
    {
      Mem(pages, free)
    }

    // A machine with these frames, all of them free.
    constructor (frames: set<Frame>)
      ensures free == frames && pages == map f | f in frames :: Junk
    {
      pages, free := map f | f in frames :: Junk, frames;
    }

    // A free page, or none: other CPUs may have taken the last one.
    method Kalloc() returns (f: Option<Frame>)
      modifies this`free
      ensures f == None ==> free == old(free)
      ensures f.Some? ==> f.value in old(free) && free == old(free) - {f.value}
    {
      if free == {} { return None; }
      if * { return None; }
      var g :| g in free;
      free := free - {g};
      return Some(g);
    }

    // The page is filled with junk; freeing a free page is an error.
    method Kfree(f: Frame)
      requires f in pages && f !in free
      modifies this
      ensures pages == old(pages)[f := Junk] && free == old(free) + {f}
    {
      pages := pages[f := Junk];
      free := free + {f};
    }

    // The page table for v, made if need be and alloc says so.
    method Walk(d: Frame, v: nat, alloc: bool, ghost use: map<Frame, Role>)
      returns (t: Option<Frame>, ghost use': map<Frame, Role>)
      requires Ok(M(), d, use) && v < VPAGES
      modifies this
      ensures Grown(old(M()), use, M(), use', d, {})
      ensures forall w {:trigger Pte(M(), d, w)} :: Pte(M(), d, w) == Pte(old(M()), d, w)
      ensures t.Some? ==> Ent(M(), d, Dx(v)).Some? && Ent(M(), d, Dx(v)).value.frame == t.value
      ensures t == None || !alloc ==> M() == old(M()) && use' == use
      ensures !alloc ==> (t == None <==> Ent(M(), d, Dx(v)) == None)
    {
      hide Roles, Kinds, Named, Pte, NewTable;
      ghost var m := M();
      OkFrames(m, d, use);
      assert Dx(v) < NPDENTRIES;
      var pde := pages[d].entries[Dx(v)];
      use' := use;
      if pde.Some? { return Some(pde.value.frame), use; }
      if !alloc { return None, use; }
      var k := Kalloc();
      if k == None { return None, use; }
      NewTableMaps(m, d, use, Dx(v), k.value, PTE_W + PTE_U);
      NewTableKeeps(m, d, use, Dx(v), k.value, PTE_W + PTE_U);
      pages := pages[k.value := Table(seq(NPDENTRIES, _ => None))];
      pages := pages[d := Table(pages[d].entries[Dx(v) := Some(Entry(k.value, PTE_W + PTE_U))])];
      IsNewTable(m, M(), d, Dx(v), k.value, PTE_W + PTE_U);
      use' := use[k.value := Tab(Dx(v))];
      return k, use';
    }

    // One turn of mappages.
    method MapPage(d: Frame, v: nat, f: Frame, perm: nat, ghost use: map<Frame, Role>)
      returns (ok: bool, ghost use': map<Frame, Role>)
      requires Ok(M(), d, use) && v < VPAGES && Pte(M(), d, v) == None
      requires v < UPAGES ==> f in pages && pages[f].Bytes? && f !in use && f !in free
      modifies this
      ensures !ok ==> M() == old(M()) && use' == use
      ensures ok ==> Grown(old(M()), use, M(), use', d, if v < UPAGES then {f} else {})
      ensures ok ==> forall w {:trigger Pte(M(), d, w)} ::
                       Pte(M(), d, w) == if w == v then Some(Entry(f, perm)) else Pte(old(M()), d, w)
      ensures ok && v < UPAGES ==> f in pages && pages[f] == old(pages)[f]
    {
      hide Roles, Kinds, Named, Pte, SetEnt;
      var t;
      ghost var m := M();
      t, use' := Walk(d, v, true, use);
      if t == None { return false, use; }
      ghost var m1, u1 := M(), use';
      OkFrames(m, d, use);
      WalkedApart(m, use, m1, u1, d, f);
      MapMaps(m1, d, u1, v, Some(Entry(f, perm)));
      pages := pages[t.value := Table(pages[t.value].entries[Tx(v) := Some(Entry(f, perm))])];
      IsSet(m1, M(), t.value, Tx(v), Some(Entry(f, perm)));
      use' := if v < UPAGES then u1[f := Leaf(v)] else u1;
      MapGrows(m1, d, u1, v, f, perm, M());
      GrownMore(m, use, m1, u1, M(), use', d, if v < UPAGES then {f} else {});
      return true, use';
    }

    // Map the n pages from v to the frames from pa.  On failure some of the
    // first have been mapped.
    method Mappages(d: Frame, v: nat, n: nat, pa: Frame, perm: nat, ghost use: map<Frame, Role>)
      returns (ok: bool, ghost use': map<Frame, Role>)
      requires Ok(M(), d, use) && n > 0 && UPAGES <= v && v + n <= VPAGES
      requires forall w | v <= w < v + n :: Pte(M(), d, w) == None
      modifies this
      ensures Grown(old(M()), use, M(), use', d, {})
      ensures forall w: nat | w < v || w >= v + n :: Pte(M(), d, w) == Pte(old(M()), d, w)
      ensures ok ==> forall w | v <= w < v + n :: Pte(M(), d, w) == Some(Entry(pa + (w - v), perm))
    {
      hide Ok, Pte;
      ghost var m := M();
      OkFrames(m, d, use);
      use' := use;
      GrownNone(m, d, use);
      var a := v;
      while true
        invariant v <= a < v + n && Ok(M(), d, use') && Grown(m, use, M(), use', d, {})
        invariant forall w: nat | w < v || w >= a :: Pte(M(), d, w) == Pte(m, d, w)
        invariant forall w | v <= w < a :: Pte(M(), d, w) == Some(Entry(pa + (w - v), perm))
        decreases v + n - a
      {
        ghost var m1, u1 := M(), use';
        ok, use' := MapPage(d, a, pa + (a - v), perm, use');
        if !ok { return false, use'; }
        GrownMore(m, use, m1, u1, M(), use', d, {});
        if a == v + n - 1 { return true, use'; }
        a := a + 1;
      }
    }

    // Unmap and free the user pages between the sizes newsz and oldsz.
    method Deallocuvm(d: Frame, oldsz: nat, newsz: nat, ghost use: map<Frame, Role>) returns (sz: nat)
      requires Ok(M(), d, use) && oldsz <= KERNBASE
      modifies this
      ensures M() == DropRange(old(M()), d, Up(newsz), Up(oldsz))
      ensures sz == if newsz < oldsz then newsz else oldsz
    {
      hide Ok, Pte, Ent, IsTable, Drop;
      ghost var m := M();
      if newsz >= oldsz { return oldsz; }
      ghost var u := use;
      var a := Up(newsz);
      while a * PGSIZE < oldsz
        invariant Ok(M(), d, u) && a <= Up(oldsz) + 1024
        invariant DropRange(m, d, Up(newsz), Up(oldsz)) == DropRange(M(), d, a, Up(oldsz))
        decreases Up(oldsz) + 1024 - a
      {
        ghost var m1 := M();
        var t, _ := Walk(d, a, false, u);
        if t == None {
          SkipTable(m1, d, a, (Dx(a) + 1) * 1024, Up(oldsz));
          a := (Dx(a) + 1) * 1024;
        } else {
          u := DropOne(d, a, t.value, u);
          a := a + 1;
        }
      }
      return newsz;
    }

    // The else branch of deallocuvm's loop.
    method DropOne(d: Frame, a: nat, t: Frame, ghost use: map<Frame, Role>) returns (ghost use': map<Frame, Role>)
      requires Ok(M(), d, use) && a < UPAGES && Ent(M(), d, Dx(a)).Some? && Ent(M(), d, Dx(a)).value.frame == t
      modifies this
      ensures M() == Drop(old(M()), d, a) && Ok(M(), d, use')
    {
      hide Roles, Kinds, Named, SetEnt;
      ghost var m := M();
      MapMaps(m, d, use, a, None);
      var pte := pages[t].entries[Tx(a)];
      use' := use;
      if pte.Some? {
        DropMaps(m, d, use, a);
        DropKeeps(m, d, use, a);
        OkFrames(m, d, use);
        Kfree(pte.value.frame);
        pages := pages[t := Table(pages[t].entries[Tx(a) := None])];
        IsDrop(m, M(), d, a);
        use' := use - {pte.value.frame};
      }
    }

    // Free an address space: every frame it has goes back, each once.
    method Freevm(d: Frame, ghost use: map<Frame, Role>)
      requires Ok(M(), d, use)
      modifies this
      ensures free == old(free) + use.Keys && pages.Keys == old(pages).Keys
      ensures forall f | f in old(pages) && f !in use && f !in old(free) :: pages[f] == old(pages)[f]
    {
      hide Roles, Kinds, Named, Pte, DropRange, Without;
      ghost var m := M();
      DropChanges(m, d, use, 0, UPAGES);
      OkFrames(m, d, use);
      var _ := Deallocuvm(d, KERNBASE, 0, use);
      ghost var m1, u1 := M(), Without(use, 0, UPAGES);
      NoLeaves(use);
      OkFrames(m1, d, u1);
      var i := 0;
      TabsNone(u1);
      while i < NPDENTRIES
        invariant 0 <= i <= NPDENTRIES && pages.Keys == m.pages.Keys && pages[d] == m1.pages[d]
        invariant free == m1.free + TabsBelow(u1, i)
        invariant forall f | f in m.pages && f !in u1 :: pages[f] == m1.pages[f]
      {
        TabTurn(m1, d, u1, i);
        if pages[d].entries[i].Some? {
          Kfree(pages[d].entries[i].value.frame);
        }
        i := i + 1;
      }
      TabsAll(m1, d, u1);
      Kfree(d);
      AllBack(m, use, m1, u1, d);
    }

    // A page directory with only the kernel's mappings.
    method Setupkvm(ks: seq<Kmap>) returns (d: Option<Frame>, ghost use: map<Frame, Role>)
      requires Fits(ks) && free <= pages.Keys
      modifies this
      ensures pages.Keys == old(pages).Keys
      ensures forall f | f in old(pages) && f !in old(free) :: pages[f] == old(pages)[f]
      ensures d == None ==> free == old(free)
      ensures d.Some? ==> Ok(M(), d.value, use) && free + use.Keys == old(free)
      ensures d.Some? ==> KernelMapped(M(), d.value, ks)
    {
      hide Ok, Pte, KernelMapped, Fits, Grown;
      ghost var m := M();
      d := Kalloc();
      use := map[];
      if d == None { return; }
      pages := pages[d.value := Table(seq(NPDENTRIES, _ => None))];
      use := map[d.value := Dir];
      ghost var m1, u1 := M(), use;
      EmptyDir(m1, d.value);
      GrownNone(m1, d.value, u1);
      KernelNone(m1, d.value);
      OkFrames(m1, d.value, u1);
      var k := 0;
      while k < |ks|
        invariant 0 <= k <= |ks| && Grown(m1, u1, M(), use, d.value, {}) && Ok(M(), d.value, use)
        invariant KernelMapped(M(), d.value, ks[..k])
      {
        ghost var m2, u2 := M(), use;
        KernelNext(m2, d.value, ks, k);
        var ok;
        ok, use := Mappages(d.value, ks[k].virt, ks[k].n, ks[k].phys, ks[k].perm, use);
        GrownOk(m2, u2, M(), use, d.value);
        GrownMore(m1, u1, m2, u2, M(), use, d.value, {});
        if !ok {
          ghost var m3 := M();
          Freevm(d.value, use);
          Restored(m, d.value, m1, u1, m3, use, M());
          return None, use;
        }
        KernelMore(m2, M(), d.value, ks, k);
        k := k + 1;
      }
      assert ks[..k] == ks;
      GrownFrom(m, d.value, m1, u1, M(), use);
    }

    // Grow the user part of d from oldsz to newsz bytes; 0 means no memory.
    method Allocuvm(d: Frame, oldsz: nat, newsz: nat, ghost use: map<Frame, Role>)
      returns (sz: nat, ghost use': map<Frame, Role>)
      requires Ok(M(), d, use) && oldsz <= KERNBASE
      requires forall w | Up(oldsz) <= w < UPAGES :: Pte(M(), d, w) == None
      modifies this
      ensures Change(old(M()), use, M(), use', d, Up(oldsz))
      ensures newsz >= KERNBASE ==> sz == 0
      ensures newsz < KERNBASE && newsz < oldsz ==> sz == oldsz
      ensures oldsz <= newsz < KERNBASE ==> sz == 0 || sz == newsz
      ensures sz == 0 || newsz < oldsz ==> forall w: nat :: Pte(M(), d, w) == Pte(old(M()), d, w)
      ensures sz != 0 && oldsz <= newsz ==> Grew(old(M()), M(), d, Up(oldsz), Up(newsz))
    {
      hide Ok, Pte, Change, Grown, Grew, Without, DropRange;
      ghost var m := M();
      ChangeNone(m, d, use, Up(oldsz));
      use' := use;
      if newsz >= KERNBASE { return 0, use; }
      if newsz < oldsz { return oldsz, use; }
      var a := Up(oldsz);
      GrewNone(m, d, a);
      while a * PGSIZE < newsz
        invariant Up(oldsz) <= a && (a <= Up(newsz) || a == Up(oldsz)) && Ok(M(), d, use')
        invariant Change(m, use, M(), use', d, Up(oldsz)) && Grew(m, M(), d, Up(oldsz), a)
        decreases Up(newsz) + 1 - a
      {
        ghost var m1, u1 := M(), use';
        OkFrames(m1, d, u1);
        var k := Kalloc();
        if k == None {
          var _ := Deallocuvm(d, newsz, oldsz, u1);
          use' := Without(u1, Up(oldsz), Up(newsz));
          GiveUp(m, use, m1, u1, d, Up(oldsz), a, Up(newsz));
          return 0, use';
        }
        pages := pages[k.value := ZeroPage()];
        ghost var m2 := M();
        TakeFrame(m1, m2, d, u1, k.value);
        GrewUpTo(m, m1, d, Up(oldsz), a);
        var ok;
        ok, use' := MapPage(d, a, k.value, PTE_W + PTE_U, u1);
        if !ok {
          var _ := Deallocuvm(d, newsz, oldsz, u1);
          GiveUpTaken(m, use, m1, m2, u1, d, Up(oldsz), a, Up(newsz), k.value);
          Kfree(k.value);
          use' := Without(u1, Up(oldsz), Up(newsz));
          GaveBack(m, use, m1, m2, u1, M(), d, Up(oldsz), a, Up(newsz), k.value);
          return 0, use';
        }
        AllocTurn(m, use, m1, m2, u1, M(), use', d, Up(oldsz), a, k.value);
        a := a + 1;
      }
      GrewWhole(m, M(), d, Up(oldsz), a, newsz);
      return newsz, use';
    }

    // A copy of the first sz bytes of address space d, or none.
    method Copyuvm(d: Frame, sz: nat, ks: seq<Kmap>, ghost use: map<Frame, Role>)
      returns (c: Option<Frame>, ghost usec: map<Frame, Role>)
      requires Ok(M(), d, use) && sz <= KERNBASE && Fits(ks)
      requires forall w: nat | w < Up(sz) :: Pte(M(), d, w).Some?
      modifies this
      ensures pages.Keys == old(pages).Keys
      ensures forall f | f in old(pages) && f !in old(free) :: pages[f] == old(pages)[f]
      ensures c == None ==> free == old(free)
      ensures c.Some? ==> Copying(old(M()), d, M(), c.value, usec, Up(sz))
    {
      hide Ok, Pte, KernelMapped, Grown, Copying;
      ghost var m := M();
      OkFrames(m, d, use);
      c, usec := Setupkvm(ks);
      if c == None { return; }
      UserEmpty(M(), c.value, ks);
      CopyNone(m, d, M(), c.value, usec);
      var i := 0;
      while i * PGSIZE < sz
        invariant 0 <= i <= Up(sz) && Ok(M(), c.value, usec) && Copying(m, d, M(), c.value, usec, i)
        decreases Up(sz) - i
      {
        var ok;
        ok, usec := CopyOne(d, c.value, i, m, use, usec);
        if !ok {
          ghost var m3 := M();
          Freevm(c.value, usec);
          CopyUndone(m, d, m3, c.value, usec, i, M());
          return None, usec;
        }
        i := i + 1;
      }
      CopyRest(m, d, M(), c.value, usec, i);
    }

    // One turn of copyuvm; on failure the page it took is back on the free list.
    method CopyOne(d: Frame, c: Frame, i: nat, ghost m: Mem, ghost use: map<Frame, Role>, ghost u1: map<Frame, Role>)
      returns (ok: bool, ghost usec: map<Frame, Role>)
      requires Ok(m, d, use) && Ok(M(), c, u1) && Copying(m, d, M(), c, u1, i) && i < UPAGES && Pte(m, d, i).Some?
      modifies this
      ensures Ok(M(), c, usec) && Copying(m, d, M(), c, usec, if ok then i + 1 else i)
    {
      hide Ok, Pte, Grown, Copying;
      ghost var m1 := M();
      OkFrames(m1, c, u1);
      ParentKeeps(m, d, use, m1, c, u1, i);
      CopyPage(m, d, use, m1, c, u1, i);
      var t, _ := Walk(d, i, false, use);
      HasTable(m1, d, use, i);
      var pte := pages[t.value].entries[Tx(i)].value;
      var k := Kalloc();
      if k == None { return false, u1; }
      pages := pages[k.value := pages[pte.frame]];
      ghost var m2 := M();
      TakeFrame(m1, m2, c, u1, k.value);
      ok, usec := MapPage(c, i, k.value, pte.perm, u1);
      if !ok {
        Kfree(k.value);
        CopyPutBack(m, d, m1, M(), c, u1, i, k.value);
        return false, u1;
      }
      CopyTurn(m, d, m1, m2, c, u1, i, k.value, M(), usec);
    }
  }
}
