// The free list of umalloc.c as a value: headers in memory, the set of free
// blocks, and the live allocations.  Addresses and sizes count units of
// sizeof(Header), 8 bytes.
module HeapRing {
  datatype Header = Header(ptr: nat, size: nat)

  type Memory = map<nat, Header>

  // Unit u lies in the block of the given size at a.
  predicate In(a: nat, size: nat, u: nat) { a <= u < a + size }

  predicate Apart(a: nat, m: nat, b: nat, n: nat) { a + m <= b || b + n <= a }

  function Sz(mem: Memory, a: nat): nat { if a in mem then mem[a].size else 0 }

  function Ptr(mem: Memory, a: nat): nat { if a in mem then mem[a].ptr else 0 }

  function WithSize(mem: Memory, a: nat, n: nat): Memory { mem[a := Header(Ptr(mem, a), n)] }

  function WithPtr(mem: Memory, a: nat, p: nat): Memory { mem[a := Header(p, Sz(mem, a))] }

  lemma SizeWritten(mem: Memory, a: nat, n: nat)
    ensures forall b {:trigger Sz(WithSize(mem, a, n), b)} ::
            Sz(WithSize(mem, a, n), b) == if b == a then n else Sz(mem, b)
    ensures forall b {:trigger Ptr(WithSize(mem, a, n), b)} :: Ptr(WithSize(mem, a, n), b) == Ptr(mem, b)
  {
  }

  lemma PtrWritten(mem: Memory, a: nat, p: nat)
    ensures forall b {:trigger Sz(WithPtr(mem, a, p), b)} :: Sz(WithPtr(mem, a, p), b) == Sz(mem, b)
    ensures forall b {:trigger Ptr(WithPtr(mem, a, p), b)} ::
            Ptr(WithPtr(mem, a, p), b) == if b == a then p else Ptr(mem, b)
  {
  }

  // The free headers form one ring in address order: each points to the next
  // one up, and the last points back to base, the lowest.
  ghost predicate Ring(base: nat, mem: Memory, free: set<nat>) {
    && base in free
    && (forall a | a in free :: base <= a)
    && (forall a {:trigger Ptr(mem, a)} | a in free ::
        Ptr(mem, a) in free && (Ptr(mem, a) <= a ==> Ptr(mem, a) == base))
    && (forall a, b {:trigger Ptr(mem, a), b in free} | a in free && b in free && a < b :: a < Ptr(mem, a) <= b)
  }

  // Free blocks do not overlap or even touch; only base is empty.
  ghost predicate Sizes(base: nat, mem: Memory, free: set<nat>) {
    && Sz(mem, base) == 0
    && (forall a | a in free && a != base :: Sz(mem, a) > 0)
    && (forall a, b | a in free && b in free && a < b :: a + Sz(mem, a) < b)
  }

  ghost predicate Lives(base: nat, mem: Memory, free: set<nat>, live: map<nat, nat>) {
    && (forall a | a in live :: base < a && a !in free && Sz(mem, a) == live[a] > 0)
    && (forall a, b | a in live && b in live && a != b :: Apart(a, live[a], b, live[b]))
    && (forall a, b | a in live && b in free :: Apart(a, live[a], b, Sz(mem, b)))
  }

  ghost predicate InFree(mem: Memory, free: set<nat>, u: nat) { exists a :: a in free && In(a, Sz(mem, a), u) }

  ghost predicate InLive(live: map<nat, nat>, u: nat) { exists a :: a in live && In(a, live[a], u) }

  ghost predicate Cover(mem: Memory, free: set<nat>, live: map<nat, nat>, core: set<nat>) {
    forall u :: u in core <==> InFree(mem, free, u) || InLive(live, u)
  }

  ghost predicate Ok(base: nat, mem: Memory, free: set<nat>, live: map<nat, nat>, core: set<nat>) {
    Ring(base, mem, free) && Sizes(base, mem, free) && Lives(base, mem, free, live) && Cover(mem, free, live, core)
  }

  // Each unit obtained from sbrk is in one block, free or live, and in no other.
  lemma OneBlock(base: nat, mem: Memory, free: set<nat>, live: map<nat, nat>, core: set<nat>, u: nat)
    requires Ok(base, mem, free, live, core) && u in core
    ensures InFree(mem, free, u) != InLive(live, u)
    ensures forall a, b | a in free && b in free && In(a, Sz(mem, a), u) && In(b, Sz(mem, b), u) :: a == b
    ensures forall a, b | a in live && b in live && In(a, live[a], u) && In(b, live[b], u) :: a == b
  {
  }

  // --- free ---

  // bp goes between p and its successor.
  ghost predicate Gap(mem: Memory, free: set<nat>, p: nat, bp: nat) {
    p in free && p < bp && forall b | b in free :: b <= p || bp < b
  }

  // The successor n of p leaves the ring.
  lemma Unlink(base: nat, mem: Memory, free: set<nat>, p: nat, mem': Memory)
    requires Ring(base, mem, free) && p in free && Ptr(mem, p) != base
    requires Ptr(mem', p) == Ptr(mem, Ptr(mem, p))
    requires forall a {:trigger Ptr(mem', a)} | a in free && a != p && a != Ptr(mem, p) :: Ptr(mem', a) == Ptr(mem, a)
    ensures p != Ptr(mem, p) && Ring(base, mem', free - {Ptr(mem, p)})
  {
    hide Ptr;
    var n := Ptr(mem, p);
    assert n in free && p < n;
  }

  // bp enters the ring after p.
  lemma Relink(base: nat, mem: Memory, free: set<nat>, p: nat, bp: nat, mem': Memory)
    requires Ring(base, mem, free) && Gap(mem, free, p, bp)
    requires Ptr(mem', p) == bp && Ptr(mem', bp) == Ptr(mem, p)
    requires forall a {:trigger Ptr(mem', a)} | a in free && a != p :: Ptr(mem', a) == Ptr(mem, a)
    ensures Ring(base, mem', free + {bp})
  {
    hide Ptr;
  }

  // What lies above p is above bp too, or p is the last and its successor is base.
  lemma GapNext(base: nat, mem: Memory, free: set<nat>, p: nat, bp: nat)
    requires Ring(base, mem, free) && Gap(mem, free, p, bp)
    ensures Ptr(mem, p) in free && (bp < Ptr(mem, p) || (Ptr(mem, p) == base && forall b | b in free :: b <= p))
    ensures forall b | b in free && p < b :: Ptr(mem, p) <= b
  {
  }

  // bp takes in its neighbour above.
  lemma AbsorbNext(base: nat, mem: Memory, free: set<nat>, live: map<nat, nat>, core: set<nat>, p: nat, bp: nat)
    requires Ok(base, mem, free, live, core) && Gap(mem, free, p, bp) && bp in live
    requires bp + live[bp] == Ptr(mem, p)
    ensures var n := Ptr(mem, p);
      var mem' := WithPtr(WithSize(mem, bp, live[bp] + Sz(mem, n)), p, Ptr(mem, n));
      && Ok(base, mem', free - {n}, live[bp := live[bp] + Sz(mem, n)], core)
      && Gap(mem', free - {n}, p, bp)
      && bp + live[bp] + Sz(mem, n) != Ptr(mem', p)
  {
    hide Ring, Cover, Sizes, Lives, Ptr, Sz, WithPtr, WithSize;
    var n := Ptr(mem, p);
    GapNext(base, mem, free, p, bp);
    LiveAbove(base, mem, free, live, bp);
    SizeWritten(mem, bp, live[bp] + Sz(mem, n));
    PtrWritten(WithSize(mem, bp, live[bp] + Sz(mem, n)), p, Ptr(mem, n));
    var mem' := WithPtr(WithSize(mem, bp, live[bp] + Sz(mem, n)), p, Ptr(mem, n));
    Unlink(base, mem, free, p, mem');
    WithoutSizes(base, mem, free, n, mem');
    AbsorbLives(base, mem, free, live, n, bp, mem');
    AbsorbCover(mem, free, live, core, n, bp, mem');
    NotTouching(base, mem, free, n);
  }

  lemma LiveAbove(base: nat, mem: Memory, free: set<nat>, live: map<nat, nat>, bp: nat)
    requires Ring(base, mem, free) && Lives(base, mem, free, live) && bp in live
    ensures base < bp && bp !in free && live[bp] > 0 && base in free
  {
  }

  // Dropping a block from the free ones keeps the others apart.
  lemma WithoutSizes(base: nat, mem: Memory, free: set<nat>, n: nat, mem': Memory)
    requires Sizes(base, mem, free) && n != base && base in free
    requires forall a | a in free && a != n :: Sz(mem', a) == Sz(mem, a)
    ensures Sizes(base, mem', free - {n})
  {
    hide Sz;
  }

  lemma AbsorbLives(base: nat, mem: Memory, free: set<nat>, live: map<nat, nat>, n: nat, bp: nat, mem': Memory)
    requires Sizes(base, mem, free) && Lives(base, mem, free, live)
    requires bp in live && n in free && bp + live[bp] == n && Sz(mem', bp) == live[bp] + Sz(mem, n)
    requires forall a | a != bp :: Sz(mem', a) == Sz(mem, a)
    ensures Lives(base, mem', free - {n}, live[bp := live[bp] + Sz(mem, n)])
  {
    hide Sz;
  }

  // No free block touches its successor.
  lemma NotTouching(base: nat, mem: Memory, free: set<nat>, n: nat)
    requires Ring(base, mem, free) && Sizes(base, mem, free) && n in free && n != base
    ensures n + Sz(mem, n) != Ptr(mem, n)
  {
    hide Sz, Ptr;
  }

  lemma AbsorbCover(mem: Memory, free: set<nat>, live: map<nat, nat>, core: set<nat>, n: nat, bp: nat, mem': Memory)
    requires Cover(mem, free, live, core) && bp in live && n in free && bp + live[bp] == n
    requires forall a | a in free && a != n :: Sz(mem', a) == Sz(mem, a)
    ensures Cover(mem', free - {n}, live[bp := live[bp] + Sz(mem, n)], core)
  {
    var free', live' := free - {n}, live[bp := live[bp] + Sz(mem, n)];
    forall u | InFree(mem', free', u) ensures u in core {
      var a :| a in free' && In(a, Sz(mem', a), u);
      assert In(a, Sz(mem, a), u);
    }
    forall u | InLive(live', u) ensures u in core {
      var a :| a in live' && In(a, live'[a], u);
      assert In(a, live[a], u) || (a == bp && In(n, Sz(mem, n), u));
    }
    forall u | InFree(mem, free, u) ensures InFree(mem', free', u) || InLive(live', u) {
      var a :| a in free && In(a, Sz(mem, a), u);
      assert if a == n then In(bp, live'[bp], u) else In(a, Sz(mem', a), u);
    }
    forall u | InLive(live, u) ensures InLive(live', u) {
      var a :| a in live && In(a, live[a], u);
      assert In(a, live'[a], u);
    }
  }

  // bp becomes part of its neighbour below.
  lemma MergePrev(base: nat, mem: Memory, free: set<nat>, live: map<nat, nat>, core: set<nat>, p: nat, bp: nat)
    requires Ok(base, mem, free, live, core) && Gap(mem, free, p, bp) && bp in live
    requires bp + live[bp] != Ptr(mem, p) && p + Sz(mem, p) == bp
    ensures Ok(base, WithSize(mem, p, Sz(mem, p) + live[bp]), free, live - {bp}, core)
  {
    hide Cover, Ptr, Sz, WithSize;
    GapNext(base, mem, free, p, bp);
    SizeWritten(mem, p, Sz(mem, p) + live[bp]);
    var mem' := WithSize(mem, p, Sz(mem, p) + live[bp]);
    assert Ring(base, mem', free);
    assert Sizes(base, mem', free);
    assert Lives(base, mem', free, live - {bp});
    MergeCover(mem, free, live, core, p, bp, mem');
  }

  lemma MergeCover(mem: Memory, free: set<nat>, live: map<nat, nat>, core: set<nat>, p: nat, bp: nat, mem': Memory)
    requires Cover(mem, free, live, core) && bp in live && p in free && p + Sz(mem, p) == bp
    requires mem' == WithSize(mem, p, Sz(mem, p) + live[bp])
    ensures Cover(mem', free, live - {bp}, core)
  {
    var live' := live - {bp};
    forall u | InFree(mem', free, u) ensures u in core {
      var a :| a in free && In(a, Sz(mem', a), u);
      assert In(a, Sz(mem, a), u) || (a == p && In(bp, live[bp], u));
    }
    forall u | InLive(live', u) ensures u in core {
      var a :| a in live' && In(a, live'[a], u);
      assert In(a, live[a], u);
    }
    forall u | InFree(mem, free, u) ensures InFree(mem', free, u) {
      var a :| a in free && In(a, Sz(mem, a), u);
      assert In(a, Sz(mem', a), u);
    }
    forall u | InLive(live, u) ensures InFree(mem', free, u) || InLive(live', u) {
      var a :| a in live && In(a, live[a], u);
      assert if a == bp then In(p, Sz(mem', p), u) else In(a, live'[a], u);
    }
  }

  // bp becomes a free block of its own.
  lemma LinkIn(base: nat, mem: Memory, free: set<nat>, live: map<nat, nat>, core: set<nat>, p: nat, bp: nat)
    requires Ok(base, mem, free, live, core) && Gap(mem, free, p, bp) && bp in live
    requires bp + live[bp] != Ptr(mem, p) && p + Sz(mem, p) != bp
    ensures Ok(base, WithPtr(WithPtr(mem, bp, Ptr(mem, p)), p, bp), free + {bp}, live - {bp}, core)
  {
    hide Cover, Ring, Ptr, Sz, WithPtr;
    GapNext(base, mem, free, p, bp);
    PtrWritten(mem, bp, Ptr(mem, p));
    PtrWritten(WithPtr(mem, bp, Ptr(mem, p)), p, bp);
    var mem' := WithPtr(WithPtr(mem, bp, Ptr(mem, p)), p, bp);
    Relink(base, mem, free, p, bp, mem');
    assert Sizes(base, mem', free + {bp});
    assert Lives(base, mem', free + {bp}, live - {bp});
    LinkCover(mem, free, live, core, bp, mem');
  }

  lemma LinkCover(mem: Memory, free: set<nat>, live: map<nat, nat>, core: set<nat>, bp: nat, mem': Memory)
    requires Cover(mem, free, live, core) && bp in live && bp !in free
    requires forall a :: Sz(mem', a) == Sz(mem, a)
    requires Sz(mem, bp) == live[bp]
    ensures Cover(mem', free + {bp}, live - {bp}, core)
  {
    var free', live' := free + {bp}, live - {bp};
    forall u | InFree(mem', free', u) ensures u in core {
      var a :| a in free' && In(a, Sz(mem', a), u);
      assert if a == bp then In(bp, live[bp], u) else In(a, Sz(mem, a), u);
    }
    forall u | InLive(live', u) ensures u in core {
      var a :| a in live' && In(a, live'[a], u);
      assert In(a, live[a], u);
    }
    forall u | InFree(mem, free, u) ensures InFree(mem', free', u) {
      var a :| a in free && In(a, Sz(mem, a), u);
      assert In(a, Sz(mem', a), u);
    }
    forall u | InLive(live, u) ensures InFree(mem', free', u) || InLive(live', u) {
      var a :| a in live && In(a, live[a], u);
      assert if a == bp then In(bp, Sz(mem', bp), u) else In(a, live'[a], u);
    }
  }

  // --- malloc ---

  // The whole of free block p, successor of prevp, becomes live.
  lemma TakeWhole(base: nat, mem: Memory, free: set<nat>, live: map<nat, nat>, core: set<nat>, prevp: nat)
    requires Ok(base, mem, free, live, core) && prevp in free && Ptr(mem, prevp) != base
    ensures var p := Ptr(mem, prevp);
      Ok(base, WithPtr(mem, prevp, Ptr(mem, p)), free - {p}, live[p := Sz(mem, p)], core)
  {
    hide Cover, Ring, Sizes, Lives, Ptr, Sz, WithPtr;
    var p := Ptr(mem, prevp);
    PtrWritten(mem, prevp, Ptr(mem, p));
    var mem' := WithPtr(mem, prevp, Ptr(mem, p));
    Unlink(base, mem, free, prevp, mem');
    InRing(base, mem, free, prevp);
    WithoutSizes(base, mem, free, p, mem');
    TakeLives(base, mem, free, live, p, mem');
    TakeCover(mem, free, live, core, p, mem');
  }

  lemma TakeLives(base: nat, mem: Memory, free: set<nat>, live: map<nat, nat>, p: nat, mem': Memory)
    requires Sizes(base, mem, free) && Lives(base, mem, free, live) && p in free && base < p
    requires forall a :: Sz(mem', a) == Sz(mem, a)
    ensures p !in live && Lives(base, mem', free - {p}, live[p := Sz(mem, p)])
  {
    hide Sz;
  }

  lemma InRing(base: nat, mem: Memory, free: set<nat>, p: nat)
    requires Ring(base, mem, free) && p in free
    ensures base in free && Ptr(mem, p) in free && base <= Ptr(mem, p) && base <= p
  {
  }

  lemma TakeCover(mem: Memory, free: set<nat>, live: map<nat, nat>, core: set<nat>, p: nat, mem': Memory)
    requires Cover(mem, free, live, core) && p in free && p !in live
    requires forall a :: Sz(mem', a) == Sz(mem, a)
    ensures Cover(mem', free - {p}, live[p := Sz(mem, p)], core)
  {
    var free', live' := free - {p}, live[p := Sz(mem, p)];
    forall u | InFree(mem', free', u) ensures u in core {
      var a :| a in free' && In(a, Sz(mem', a), u);
      assert In(a, Sz(mem, a), u);
    }
    forall u | InLive(live', u) ensures u in core {
      var a :| a in live' && In(a, live'[a], u);
      assert if a == p then In(p, Sz(mem, p), u) else In(a, live[a], u);
    }
    forall u | InFree(mem, free, u) ensures InFree(mem', free', u) || InLive(live', u) {
      var a :| a in free && In(a, Sz(mem, a), u);
      assert if a == p then In(p, live'[p], u) else In(a, Sz(mem', a), u);
    }
    forall u | InLive(live, u) ensures InLive(live', u) {
      var a :| a in live && In(a, live[a], u);
      assert In(a, live'[a], u);
    }
  }

  // The last n units of free block p become live.
  lemma TakeTail(base: nat, mem: Memory, free: set<nat>, live: map<nat, nat>, core: set<nat>, p: nat, n: nat)
    requires Ok(base, mem, free, live, core) && p in free && 0 < n < Sz(mem, p)
    ensures var q := p + Sz(mem, p) - n;
      Ok(base, WithSize(WithSize(mem, p, Sz(mem, p) - n), q, n), free, live[q := n], core)
  {
    hide Cover, Ptr, Sz, WithSize;
    SizeWritten(mem, p, Sz(mem, p) - n);
    SizeWritten(WithSize(mem, p, Sz(mem, p) - n), p + Sz(mem, p) - n, n);
    var q := p + Sz(mem, p) - n;
    var mem' := WithSize(WithSize(mem, p, Sz(mem, p) - n), q, n);
    TailFresh(base, mem, free, live, p, n);
    assert Ring(base, mem', free) by { hide Sizes, Lives; }
    assert Sizes(base, mem', free) by { hide Ring, Lives; }
    TailLives(base, mem, free, live, p, n, mem');
    TailCover(mem, free, live, core, p, n, mem');
  }

  lemma TailFresh(base: nat, mem: Memory, free: set<nat>, live: map<nat, nat>, p: nat, n: nat)
    requires Ring(base, mem, free) && Sizes(base, mem, free) && Lives(base, mem, free, live)
    requires p in free && 0 < n < Sz(mem, p)
    ensures var q := p + Sz(mem, p) - n; base < q && q !in free && q !in live
  {
    hide Ptr, Sz;
  }

  lemma TailLives(base: nat, mem: Memory, free: set<nat>, live: map<nat, nat>, p: nat, n: nat, mem': Memory)
    requires Ring(base, mem, free) && Sizes(base, mem, free) && Lives(base, mem, free, live)
    requires p in free && 0 < n < Sz(mem, p)
    requires forall b {:trigger Sz(mem', b)} ::
               Sz(mem', b) == if b == p + Sz(mem, p) - n then n else if b == p then Sz(mem, p) - n else Sz(mem, b)
    ensures Lives(base, mem', free, live[p + Sz(mem, p) - n := n])
  {
    hide Ptr, Sz;
    TailFresh(base, mem, free, live, p, n);
    hide Ring;
  }

  lemma TailCover(mem: Memory, free: set<nat>, live: map<nat, nat>, core: set<nat>, p: nat, n: nat, mem': Memory)
    requires Cover(mem, free, live, core) && p in free && 0 < n < Sz(mem, p) && p + Sz(mem, p) - n !in live
    requires Sz(mem', p) == Sz(mem, p) - n && forall a | a in free && a != p :: Sz(mem', a) == Sz(mem, a)
    ensures Cover(mem', free, live[p + Sz(mem, p) - n := n], core)
  {
    var q := p + Sz(mem, p) - n;
    var live' := live[q := n];
    forall u | InFree(mem', free, u) ensures u in core {
      var a :| a in free && In(a, Sz(mem', a), u);
      assert In(a, Sz(mem, a), u);
    }
    forall u | InLive(live', u) ensures u in core {
      var a :| a in live' && In(a, live'[a], u);
      assert if a == q then In(p, Sz(mem, p), u) else In(a, live[a], u);
    }
    forall u | InFree(mem, free, u) ensures InFree(mem', free, u) || InLive(live', u) {
      var a :| a in free && In(a, Sz(mem, a), u);
      assert In(a, Sz(mem', a), u) || (a == p && In(q, live'[q], u));
    }
    forall u | InLive(live, u) ensures InLive(live', u) {
      var a :| a in live && In(a, live[a], u);
      assert In(a, live'[a], u);
    }
  }

  // --- morecore ---

  ghost function Units(a: nat, n: nat): set<nat> { set u {:trigger In(a, n, u)} | a <= u < a + n && In(a, n, u) }

  // A chunk from sbrk is live until free is called on it.
  lemma NewCore(base: nat, mem: Memory, free: set<nat>, live: map<nat, nat>, core: set<nat>, a: nat, n: nat)
    requires Ok(base, mem, free, live, core) && base < a && n > 0 && Units(a, n) !! core
    ensures Ok(base, WithSize(mem, a, n), free, live[a := n], core + Units(a, n)) && a !in live
  {
    hide Cover, Ring, Sizes, Lives, Ptr, Sz, WithSize, Units;
    SizeWritten(mem, a, n);
    var mem' := WithSize(mem, a, n);
    OldBlocks(base, mem, free, live, core, a, n);
    SameRing(base, mem, free, mem');
    SameSizes(base, mem, free, mem');
    NewLives(base, mem, free, live, a, n, mem');
    NewCover(mem, free, live, core, a, n, mem');
  }

  lemma SameRing(base: nat, mem: Memory, free: set<nat>, mem': Memory)
    requires Ring(base, mem, free) && forall a {:trigger Ptr(mem', a)} :: Ptr(mem', a) == Ptr(mem, a)
    ensures base in free && Ring(base, mem', free)
  {
    hide Ptr;
  }

  lemma SameSizes(base: nat, mem: Memory, free: set<nat>, mem': Memory)
    requires Sizes(base, mem, free) && base in free && forall a | a in free :: Sz(mem', a) == Sz(mem, a)
    ensures Sizes(base, mem', free)
  {
    hide Sz;
  }

  lemma NewLives(base: nat, mem: Memory, free: set<nat>, live: map<nat, nat>, a: nat, n: nat, mem': Memory)
    requires Lives(base, mem, free, live) && base < a && n > 0 && a !in free && a !in live
    requires forall b | b in free :: Apart(a, n, b, Sz(mem, b))
    requires forall b | b in live :: Apart(a, n, b, live[b])
    requires Sz(mem', a) == n && forall b | b != a :: Sz(mem', b) == Sz(mem, b)
    ensures Lives(base, mem', free, live[a := n])
  {
    hide Sz;
  }

  lemma OldBlocks(base: nat, mem: Memory, free: set<nat>, live: map<nat, nat>, core: set<nat>, a: nat, n: nat)
    requires Ok(base, mem, free, live, core) && base < a && n > 0 && Units(a, n) !! core
    ensures a !in free && a !in live
    ensures forall b | b in free :: Apart(a, n, b, Sz(mem, b))
    ensures forall b | b in live :: Apart(a, n, b, live[b])
  {
    forall b, u | b in free && In(b, Sz(mem, b), u) ensures u in core { assert InFree(mem, free, u); }
    forall b, u | b in live && In(b, live[b], u) ensures u in core { assert InLive(live, u); }
    forall b | b in free ensures Apart(a, n, b, Sz(mem, b)) && b != a {
      var u := if a < b then b else a;
      assert In(b, Sz(mem, b), u) ==> u in core;
      assert a <= u < a + n ==> u in Units(a, n);
    }
    forall b | b in live ensures Apart(a, n, b, live[b]) && b != a {
      var u := if a < b then b else a;
      assert In(b, live[b], u) ==> u in core;
      assert a <= u < a + n ==> u in Units(a, n);
    }
  }

  lemma NewCover(mem: Memory, free: set<nat>, live: map<nat, nat>, core: set<nat>, a: nat, n: nat, mem': Memory)
    requires Cover(mem, free, live, core) && a !in live
    requires forall b | b in free :: Sz(mem', b) == Sz(mem, b)
    ensures Cover(mem', free, live[a := n], core + Units(a, n))
  {
    var live' := live[a := n];
    forall u | InFree(mem', free, u) ensures u in core {
      var b :| b in free && In(b, Sz(mem', b), u);
      assert In(b, Sz(mem, b), u);
    }
    forall u | InLive(live', u) ensures u in core + Units(a, n) {
      var b :| b in live' && In(b, live'[b], u);
      assert if b == a then u in Units(a, n) else In(b, live[b], u);
    }
    forall u | InFree(mem, free, u) ensures InFree(mem', free, u) {
      var b :| b in free && In(b, Sz(mem, b), u);
      assert In(b, Sz(mem', b), u);
    }
    forall u | InLive(live, u) ensures InLive(live', u) {
      var b :| b in live && In(b, live[b], u);
      assert In(b, live'[b], u);
    }
    forall u | u in Units(a, n) ensures InLive(live', u) { assert In(a, live'[a], u); }
  }
}
