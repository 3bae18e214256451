// The user-level allocator (umalloc.c): malloc, free and morecore over one
// ring of free blocks.
module Umalloc {
  import opened Blocks
  import opened HeapRing

  // --- sizes in 32-bit arithmetic ---

  // Units to hold nbytes and a header, computed as the source does.
  function Nunits(nbytes: nat): (n: nat)
    ensures n >= 1
  {
    (nbytes + 7) % TWO_TO_THE_32 / 8 + 1
  }

  // Units morecore asks for.
  function Ask(nu: nat): nat { if nu < 4096 then 4096 else nu }

  // A 32-bit value read as an int.
  function AsInt(x: nat): int {
    var w := x % TWO_TO_THE_32;
    if w < TWO_TO_THE_32 / 2 then w else w - TWO_TO_THE_32
  }

  // The byte count that sbrk is called with.
  function SbrkCount(nbytes: nat): int { AsInt(Ask(Nunits(nbytes)) * 8) }

  // The count is the one meant.
  predicate Askable(nbytes: nat) { SbrkCount(nbytes) == Ask(Nunits(nbytes)) * 8 }

  // The block is large enough exactly when the rounding does not wrap, and then
  // less than a unit too large; otherwise it is a header alone.
  lemma Enough(nbytes: nat)
    requires nbytes < TWO_TO_THE_32
    ensures (Nunits(nbytes) - 1) * 8 >= nbytes <==> nbytes <= TWO_TO_THE_32 - 8
    ensures if nbytes <= TWO_TO_THE_32 - 8 then (Nunits(nbytes) - 1) * 8 < nbytes + 8 else Nunits(nbytes) == 1
  {
    if nbytes <= TWO_TO_THE_32 - 8 {
      assert (nbytes + 7) % TWO_TO_THE_32 == nbytes + 7;
    } else {
      assert (nbytes + 7) % TWO_TO_THE_32 == nbytes + 7 - TWO_TO_THE_32;
    }
  }

  // Which requests ask sbrk to shrink the process, which ask it for nothing,
  // and which ask it for what they need.
  lemma SbrkCountExactly(nbytes: nat)
    requires nbytes < TWO_TO_THE_32
    ensures SbrkCount(nbytes) < 0 <==> TWO_TO_THE_32 / 2 - 16 < nbytes <= TWO_TO_THE_32 - 16
    ensures SbrkCount(nbytes) == 0 <==> TWO_TO_THE_32 - 16 < nbytes <= TWO_TO_THE_32 - 8
    ensures Askable(nbytes) <==> nbytes <= TWO_TO_THE_32 / 2 - 16 || nbytes > TWO_TO_THE_32 - 8
    ensures nbytes <= TWO_TO_THE_32 / 2 - 16 ==>
              var n := SbrkCount(nbytes);
              n % 8 == 0 && n >= 4096 * 8 && n >= nbytes + 8 && (n > 4096 * 8 ==> n < nbytes + 16)
    ensures nbytes > TWO_TO_THE_32 - 8 ==> SbrkCount(nbytes) == 4096 * 8
  {
    if nbytes <= TWO_TO_THE_32 - 8 {
      assert (nbytes + 7) % TWO_TO_THE_32 == nbytes + 7;
    } else {
      assert (nbytes + 7) % TWO_TO_THE_32 == nbytes + 7 - TWO_TO_THE_32;
    }
  }

  // What malloc comes back with.  BadAsk is where it calls sbrk with a count
  // that is not positive, and goes on to write a header past the break.
  datatype Outcome = Block(p: nat) | NoCore | BadAsk

  // --- one call of free on values ---

  // The memory free leaves, having stopped at p.
  function FreeMem(mem: Memory, p: nat, bp: nat): Memory {
    var n := Ptr(mem, p);
    var mem1 := if bp + Sz(mem, bp) == n then mem[bp := Header(Ptr(mem, n), Sz(mem, bp) + Sz(mem, n))]
                else mem[bp := Header(n, Sz(mem, bp))];
    if p + Sz(mem1, p) == bp then mem1[p := Header(Ptr(mem1, bp), Sz(mem1, p) + Sz(mem1, bp))]
    else mem1[p := Header(bp, Sz(mem1, p))]
  }

  ghost function FreeSet(mem: Memory, free: set<nat>, p: nat, bp: nat): set<nat> {
    var n := Ptr(mem, p);
    var free1 := if bp + Sz(mem, bp) == n then free - {n} else free;
    if p + Sz(mem, p) == bp then free1 else free1 + {bp}
  }

  // Ok looks only at the headers of blocks.
  lemma OkSame(base: nat, mem: Memory, mem': Memory, free: set<nat>, live: map<nat, nat>, core: set<nat>)
    requires Ok(base, mem, free, live, core)
    requires forall a {:trigger Ptr(mem', a)} | a in free :: Ptr(mem', a) == Ptr(mem, a)
    requires forall a {:trigger Sz(mem', a)} | a in free || a in live :: Sz(mem', a) == Sz(mem, a)
    ensures Ok(base, mem', free, live, core)
  {
    hide Ptr, Sz;
    assert Ring(base, mem', free);
    forall u ensures InFree(mem', free, u) <==> InFree(mem, free, u) {
      if InFree(mem, free, u) {
        var a :| a in free && In(a, Sz(mem, a), u);
        assert In(a, Sz(mem', a), u);
      }
      if InFree(mem', free, u) {
        var a :| a in free && In(a, Sz(mem', a), u);
        assert In(a, Sz(mem, a), u);
      }
    }
  }

  // What free writes.
  lemma FreeWrites(mem: Memory, p: nat, bp: nat)
    requires p != bp
    ensures var n, mem' := Ptr(mem, p), FreeMem(mem, p, bp);
      var top := bp + Sz(mem, bp) == n;
      var m := if top then Sz(mem, bp) + Sz(mem, n) else Sz(mem, bp);
      var next := if top then Ptr(mem, n) else n;
      && (if p + Sz(mem, p) == bp then Ptr(mem', p) == next && Sz(mem', p) == Sz(mem, p) + m
          else Ptr(mem', p) == bp && Sz(mem', p) == Sz(mem, p) && Ptr(mem', bp) == next && Sz(mem', bp) == m)
      && (forall a {:trigger Ptr(mem', a)} {:trigger Sz(mem', a)} | a != p && a != bp ::
            Ptr(mem', a) == Ptr(mem, a) && Sz(mem', a) == Sz(mem, a))
  {
  }

  lemma LiveBlock(base: nat, mem: Memory, free: set<nat>, live: map<nat, nat>, bp: nat)
    requires Lives(base, mem, free, live) && bp in live
    ensures Sz(mem, bp) == live[bp] && bp !in free && base < bp
  {
  }

  // Free gives the block back: the ring stays whole and nothing is lost.
  lemma FreeKeeps(base: nat, mem: Memory, free: set<nat>, live: map<nat, nat>, core: set<nat>, p: nat, bp: nat)
    requires Ok(base, mem, free, live, core) && Gap(mem, free, p, bp) && bp in live
    ensures var mem', free' := FreeMem(mem, p, bp), FreeSet(mem, free, p, bp);
      && Ok(base, mem', free', live - {bp}, core) && p in free'
      && (if p + Sz(mem, p) == bp then Sz(mem', p) >= live[bp] else bp in free' && Sz(mem', bp) >= live[bp])
  {
    hide Cover, Ring, Sizes, Lives, FreeMem, Ptr, Sz, WithPtr, WithSize;
    var n := Ptr(mem, p);
    var mem' := FreeMem(mem, p, bp);
    FreeWrites(mem, p, bp);
    LiveBlock(base, mem, free, live, bp);
    GapNext(base, mem, free, p, bp);
    if bp + live[bp] == n {
      AbsorbNext(base, mem, free, live, core, p, bp);
      var m := live[bp] + Sz(mem, n);
      SizeWritten(mem, bp, m);
      PtrWritten(WithSize(mem, bp, m), p, Ptr(mem, n));
      FreeLinks(base, WithPtr(WithSize(mem, bp, m), p, Ptr(mem, n)), free - {n}, live[bp := m], core, p, bp, mem');
      assert live[bp := m] - {bp} == live - {bp};
    } else {
      FreeLinks(base, mem, free, live, core, p, bp, mem');
    }
  }

  // The second half, when bp does not touch the block above.
  lemma FreeLinks(base: nat, mem: Memory, free: set<nat>, live: map<nat, nat>, core: set<nat>, p: nat, bp: nat,
          mem': Memory)
    requires Ok(base, mem, free, live, core) && Gap(mem, free, p, bp) && bp in live && bp + live[bp] != Ptr(mem, p)
    requires if p + Sz(mem, p) == bp then Ptr(mem', p) == Ptr(mem, p) && Sz(mem', p) == Sz(mem, p) + live[bp]
             else
               && Ptr(mem', p) == bp && Sz(mem', p) == Sz(mem, p)
               && Ptr(mem', bp) == Ptr(mem, p) && Sz(mem', bp) == live[bp]
    requires forall a {:trigger Ptr(mem', a)} {:trigger Sz(mem', a)} | a != p && a != bp ::
             Ptr(mem', a) == Ptr(mem, a) && Sz(mem', a) == Sz(mem, a)
    ensures Ok(base, mem', if p + Sz(mem, p) == bp then free else free + {bp}, live - {bp}, core)
  {
    hide Cover, Ring, Sizes, Ptr, Sz, WithPtr, WithSize;
    if p + Sz(mem, p) == bp {
      MergePrev(base, mem, free, live, core, p, bp);
      SizeWritten(mem, p, Sz(mem, p) + live[bp]);
      OkSame(base, WithSize(mem, p, Sz(mem, p) + live[bp]), mem', free, live - {bp}, core);
    } else {
      LinkIn(base, mem, free, live, core, p, bp);
      PtrWritten(mem, bp, Ptr(mem, p));
      PtrWritten(WithPtr(mem, bp, Ptr(mem, p)), p, bp);
      OkSame(base, WithPtr(WithPtr(mem, bp, Ptr(mem, p)), p, bp), mem', free + {bp}, live - {bp}, core);
    }
  }

  // --- going round the ring ---

  // The free headers met on the way from f to p, p not included.
  ghost function Before(free: set<nat>, f: nat, p: nat): set<nat> {
    set x | x in free && (if f <= p then f <= x < p else x >= f || x < p)
  }

  lemma GoesOn(base: nat, mem: Memory, free: set<nat>, f: nat, p: nat)
    requires Ring(base, mem, free) && f in free && p in free
    ensures Ptr(mem, p) in free && p !in Before(free, f, p)
    ensures Ptr(mem, p) != f ==> Before(free, f, Ptr(mem, p)) == Before(free, f, p) + {p}
    ensures Ptr(mem, p) == f ==> Before(free, f, p) + {p} == free
  {
    hide Ptr;
    var q := Ptr(mem, p);
    assert forall x | x in free && p < x :: q <= x;
    assert forall x | x in free && q <= p :: base <= x <= p;
  }

  // The last free header below bp.
  lemma LastBelow(free: set<nat>, b: nat, bp: nat) returns (g: nat)
    requires b in free && b < bp
    ensures g in free && g < bp && forall x | x in free && x < bp :: x <= g
    decreases bp - b
  {
    g := b;
    if x :| x in free && b < x < bp { g := LastBelow(free, x, bp); }
  }

  // The tests of free's loop find the gap.
  lemma GapTest(base: nat, mem: Memory, free: set<nat>, p: nat, bp: nat)
    requires Ring(base, mem, free) && p in free && base < bp && bp !in free
    ensures Gap(mem, free, p, bp)
       <==> (p < bp < Ptr(mem, p) || (p >= Ptr(mem, p) && (bp > p || bp < Ptr(mem, p))))
  {
    hide Ptr;
    assert forall x | x in free && p < x :: Ptr(mem, p) <= x;
  }

  // The n units at bp are the end of the first block that fits, going round
  // from the header after f; the next search starts from its predecessor f'.
  ghost predicate FirstFit(mem: Memory, free: set<nat>, f: nat, f': nat, bp: nat, n: nat) {
    exists p :: && p in free && Sz(mem, p) >= n && bp + n == p + Sz(mem, p)
                && f' in free && Ptr(mem, f') == p
                && forall x | x in Before(free, Ptr(mem, f), p) :: Sz(mem, x) < n
  }

  class Heap {
    const base: nat
    var mem: Memory
    var freep: nat             // 0 before the first malloc
    ghost var free: set<nat>
    ghost var live: map<nat, nat>
    ghost var core: set<nat>   // every unit sbrk has granted

    ghost predicate Valid()
      reads this
    {
      && 0 < base
      && (if freep == 0 then free == {} && live == map[] && core == {}
          else freep in free && Ok(base, mem, free, live, core))
    }

    constructor (base: nat)
      requires base > 0
      ensures Valid() && live == map[] && core == {} && this.base == base
    {
      this.base := base;
      mem := map[];
      freep := 0;
      free, live, core := {}, map[], {};
    }

    // The loop of free.
    method Search(bp: nat) returns (p: nat)
      requires freep in free && Ring(base, mem, free) && base < bp && bp !in free
      ensures Gap(mem, free, p, bp)
    {
      hide Ring, Ptr, Before, Gap;
      BaseIn(base, mem, free);
      ghost var g := LastBelow(free, base, bp);
      GapAt(mem, free, g, bp);
      p := freep;
      ArcEmpty(free, freep);
      while !(bp > p && bp < Ptr(mem, p))
        invariant p in free && g !in Before(free, freep, p)
        decreases free - Before(free, freep, p)
      {
        GapTest(base, mem, free, p, bp);
        if p >= Ptr(mem, p) && (bp > p || bp < Ptr(mem, p)) {
          break;
        }
        GoesOn(base, mem, free, freep, p);
        assert g != p;
        p := Ptr(mem, p);
      }
      GapTest(base, mem, free, p, bp);
    }

    // Free the allocation whose header is at bp.
    method Free(bp: nat)
      requires Valid() && bp in live
      modifies this
      ensures Valid() && freep != 0
      ensures live == old(live) - {bp} && core == old(core)
      ensures exists g :: g in free && Sz(mem, g) >= old(live)[bp]
    {
      hide Ring, Sizes, Lives, Cover, Ptr, Sz, FreeMem;
      LiveBlock(base, mem, free, live, bp);
      BaseIn(base, mem, free);
      var p := Search(bp);
      FreeKeeps(base, mem, free, live, core, p, bp);
      PlaceFreed(p, bp);
      free := FreeSet(old(mem), free, p, bp);
      live := live - {bp};
      freep := p;
    }

    // The relinking at the end of free.
    method PlaceFreed(p: nat, bp: nat)
      modifies this`mem
      ensures mem == FreeMem(old(mem), p, bp)
    {
      var n := Ptr(mem, p);
      if bp + Sz(mem, bp) == n {
        mem := mem[bp := Header(Ptr(mem, n), Sz(mem, bp) + Sz(mem, n))];
      } else {
        mem := WithPtr(mem, bp, n);
      }
      if p + Sz(mem, p) == bp {
        mem := mem[p := Header(Ptr(mem, bp), Sz(mem, p) + Sz(mem, bp))];
      } else {
        mem := WithPtr(mem, p, bp);
      }
    }

    // Ask for core for nu units; grant is what sbrk answers.
    method Morecore(nu: nat, grant: Option<nat>) returns (got: bool)
      requires Valid() && freep != 0
      requires grant.Some? ==> base < grant.value && Units(grant.value, Ask(nu)) !! core
      modifies this
      ensures Valid() && freep != 0 && live == old(live) && got == grant.Some?
      ensures !got ==> mem == old(mem) && free == old(free) && freep == old(freep) && core == old(core)
      ensures got ==> core == old(core) + Units(grant.value, Ask(nu)) && exists g :: g in free && Sz(mem, g) >= nu
    {
      hide Ring, Sizes, Lives, Cover, Ptr, Sz, WithSize;
      if grant == None { return false; }
      var hp, n := grant.value, Ask(nu);
      NewCore(base, mem, free, live, core, hp, n);
      mem := WithSize(mem, hp, n);
      live := live[hp := n];
      core := core + Units(hp, n);
      Free(hp);
      assert live == old(live);
      return true;
    }

    method Malloc(nbytes: nat, grant: Option<nat>) returns (r: Outcome, asked: bool)
      requires Valid() && nbytes < TWO_TO_THE_32
      requires Askable(nbytes) && grant.Some? ==>
                 base < grant.value && Units(grant.value, Ask(Nunits(nbytes))) !! core
      modifies this
      ensures Valid()
      ensures asked <==> forall a | a in old(free) :: Sz(old(mem), a) < Nunits(nbytes)
      ensures r == BadAsk <==> asked && !Askable(nbytes)
      ensures r == NoCore <==> asked && Askable(nbytes) && grant == None
      ensures !r.Block? ==> live == old(live)
      ensures r.Block? ==> r.p > 0 && r.p - 1 !in old(live) && live == old(live)[r.p - 1 := Nunits(nbytes)]
      ensures core == old(core) + if asked && r.Block? then Units(grant.value, Ask(Nunits(nbytes))) else {}
      ensures r.Block? && !asked ==> FirstFit(old(mem), old(free), old(freep), freep, r.p - 1, Nunits(nbytes))
    {
      hide Ring, Sizes, Lives, Cover, Ptr, Sz, Before, Units, Nunits, Askable, Ask;
      var n := Nunits(nbytes);
      Start();
      asked := false;
      var prevp := freep;
      var p := Ptr(mem, prevp);
      RingNext(base, mem, free, prevp);
      ArcEmpty(free, p);
      while true
        invariant Ok(base, mem, free, live, core) && freep in free && freep != 0 && live == old(live)
        invariant prevp in free && p == Ptr(mem, prevp) && p in free
        invariant forall x | x in Before(free, Ptr(mem, freep), p) :: Sz(mem, x) < n
        invariant !asked ==>
                    core == old(core) && forall a | a in old(free) :: a in free && Sz(mem, a) == Sz(old(mem), a)
        invariant !asked ==> if old(freep) == 0 then forall a | a in free :: Sz(mem, a) == 0
                             else mem == old(mem) && free == old(free) && freep == old(freep)
        invariant asked ==> Askable(nbytes) && grant.Some? && core == old(core) + Units(grant.value, Ask(n))
        invariant asked ==> forall a | a in old(free) :: Sz(old(mem), a) < n
        invariant asked ==> exists g :: g in free && Sz(mem, g) >= n
        decreases !asked, free - Before(free, Ptr(mem, freep), p)
      {
        BaseIn(base, mem, free);
        if Sz(mem, p) >= n {
          var bp := Carve(prevp, p, n);
          freep := prevp;
          return Block(bp + 1), asked;
        }
        RingNext(base, mem, free, freep);
        GoesOn(base, mem, free, Ptr(mem, freep), p);
        OnePredecessor(base, mem, free, p, freep);
        if p == freep {
          assert forall a | a in free :: Sz(mem, a) < n;
          assert !asked;
          asked := true;
          if !Askable(nbytes) { return BadAsk, true; }
          var got := Morecore(n, grant);
          if !got { return NoCore, true; }
          p := freep;
          RingNext(base, mem, free, freep);
          ArcEmpty(free, Ptr(mem, freep));
        }
        prevp := p;
        p := Ptr(mem, p);
        RingNext(base, mem, free, p);
      }
    }

    // The first malloc makes base the whole ring.
    method Start()
      requires Valid()
      modifies this
      ensures Valid() && freep != 0 && live == old(live) && core == old(core)
      ensures forall a | a in old(free) :: a in free && Sz(mem, a) == Sz(old(mem), a)
      ensures if old(freep) == 0 then forall a | a in free :: Sz(mem, a) == 0
              else mem == old(mem) && free == old(free) && freep == old(freep)
    {
      if freep == 0 {
        mem := mem[base := Header(base, 0)];
        freep := base;
        free := {base};
      }
    }

    // Take n units from free block p, the successor of prevp.
    method Carve(prevp: nat, p: nat, n: nat) returns (bp: nat)
      requires Ok(base, mem, free, live, core) && prevp in free && p == Ptr(mem, prevp) && 0 < n <= Sz(mem, p)
      modifies this`mem, this`free, this`live
      ensures Ok(base, mem, free, live, core) && prevp in free
      ensures bp !in old(live) && live == old(live)[bp := n] && bp + n == p + Sz(old(mem), p)
    {
      hide Ring, Lives, Cover, Ptr, Sz, WithSize, WithPtr;
      CarveFrom(base, mem, free, live, prevp);
      if Sz(mem, p) == n {
        TakeWhole(base, mem, free, live, core, prevp);
        mem := WithPtr(mem, prevp, Ptr(mem, p));
        free := free - {p};
        bp := p;
      } else {
        TakeTail(base, mem, free, live, core, p, n);
        TailFresh(base, mem, free, live, p, n);
        bp := p + Sz(mem, p) - n;
        mem := WithSize(WithSize(mem, p, Sz(mem, p) - n), bp, n);
      }
      live := live[bp := n];
    }
  }

  lemma CarveFrom(base: nat, mem: Memory, free: set<nat>, live: map<nat, nat>, prevp: nat)
    requires Ring(base, mem, free) && Sizes(base, mem, free) && Lives(base, mem, free, live) && prevp in free
    ensures var p := Ptr(mem, prevp); p in free && p !in live && (Sz(mem, p) > 0 ==> p != base && p != prevp)
  {
    hide Sz, Ptr;
  }

  lemma OnePredecessor(base: nat, mem: Memory, free: set<nat>, p: nat, q: nat)
    requires Ring(base, mem, free) && p in free && q in free
    ensures Ptr(mem, p) == Ptr(mem, q) ==> p == q
  {
    hide Ptr;
  }

  lemma RingNext(base: nat, mem: Memory, free: set<nat>, p: nat)
    requires Ring(base, mem, free) && p in free
    ensures Ptr(mem, p) in free
  {
  }

  lemma BaseIn(base: nat, mem: Memory, free: set<nat>)
    requires Ring(base, mem, free)
    ensures base in free && forall a | a in free :: base <= a
  {
  }

  lemma GapAt(mem: Memory, free: set<nat>, g: nat, bp: nat)
    requires g in free && g < bp && bp !in free && forall x | x in free && x < bp :: x <= g
    ensures Gap(mem, free, g, bp)
  {
  }

  lemma ArcEmpty(free: set<nat>, f: nat)
    ensures Before(free, f, f) == {}
  {
  }
}
