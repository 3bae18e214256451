// The physical page allocator (kalloc.c): a list of free pages threaded through
// the pages themselves.
module Kalloc {
  import opened Blocks

  function RoundUp(a: nat): nat { (a + PGSIZE - 1) / PGSIZE * PGSIZE }

  // Following next from head meets the pages of list in order and ends at 0.
  ghost predicate Chain(head: nat, next: map<nat, nat>, list: seq<nat>)
    decreases |list|
  {
    if list == [] then head == 0
    else head == list[0] != 0 && head in next && Chain(next[head], next, list[1..])
  }

  // Writing the link of a page not on the list leaves the list alone.
  lemma {:induction false} ChainKept(head: nat, next: map<nat, nat>, list: seq<nat>, v: nat, w: nat)
    requires Chain(head, next, list) && v !in list
    ensures Chain(head, next[v := w], list)
    decreases |list|
  {
    if list != [] { ChainKept(next[head], next, list[1..], v, w); }
  }

  lemma {:induction false} ChainAt(head: nat, next: map<nat, nat>, list: seq<nat>, k: nat)
    requires Chain(head, next, list) && k < |list|
    ensures list[k] != 0 && list[k] in next && (k + 1 < |list| ==> next[list[k]] == list[k + 1])
    decreases |list|
  {
    if k > 0 { ChainAt(next[head], next, list[1..], k - 1); }
  }

  // Linking list[k] to the head again makes a loop: no walk from it ends.
  lemma {:induction false} NeverEnds(head: nat, next: map<nat, nat>, list: seq<nat>, k: nat, j: nat, l: seq<nat>)
    requires Chain(head, next, list) && Distinct(list) && j <= k < |list|
    ensures !Chain(list[j], next[list[k] := head], l)
    decreases |l|
  {
    ChainAt(head, next, list, j);
    if l != [] { NeverEnds(head, next, list, k, if j == k then 0 else j + 1, l[1..]); }
  }

  // The whole pages within [lo, hi).
  ghost predicate Within(v: nat, lo: nat, hi: nat) { v % PGSIZE == 0 && lo <= v && v + PGSIZE <= hi }

  lemma RoundUpIsFirst(a: nat)
    ensures RoundUp(a) % PGSIZE == 0 && a <= RoundUp(a) && forall v: nat | v % PGSIZE == 0 && a <= v :: RoundUp(a) <= v
  {
    forall v: nat | v % PGSIZE == 0 && a <= v ensures RoundUp(a) <= v {
      assert v == v / PGSIZE * PGSIZE;
      assert (a + PGSIZE - 1) / PGSIZE <= v / PGSIZE;
    }
  }

  class Kmem {
    const end: nat        // first address after the kernel
    const top: nat        // the kernel's address of PHYSTOP
    var freelist: nat
    var next: map<nat, nat>
    ghost var list: seq<nat>

    ghost predicate Valid()
      reads this
    {
      && 0 < end && Chain(freelist, next, list) && Distinct(list)
      && forall v | v in list :: Page(v)
    }

    // kmem before kinit1.
    constructor (end: nat, top: nat)
      requires 0 < end
      ensures Valid() && this.end == end && this.top == top && list == []
    {
      this.end, this.top, freelist, next, list := end, top, 0, map[], [];
    }

    // What kfree accepts without a panic.
    predicate Page(v: nat) { v % PGSIZE == 0 && end <= v < top }

    // kfree; false is the panic.  A page that is on the list already is linked
    // again, and the list no longer ends.
    method Kfree(v: nat) returns (ok: bool)
      requires Valid()
      modifies this
      ensures ok == Page(v)
      ensures !ok ==> freelist == old(freelist) && next == old(next) && list == old(list)
      ensures v !in old(list) ==> Valid()
      ensures ok && v !in old(list) ==> list == [v] + old(list)
      ensures ok && v in old(list) ==> forall l :: !Chain(freelist, next, l)
    {
      if v % PGSIZE != 0 || v < end || v >= top { return false; }
      if v in list {
        var k :| 0 <= k < |list| && list[k] == v;
        ghost var linked := next[v := freelist];
        forall l ensures !Chain(v, linked, l) { NeverEnds(freelist, next, list, k, k, l); }
      } else {
        ChainKept(freelist, next, list, v, freelist);
      }
      next := next[v := freelist];
      freelist := v;
      list := [v] + list;
      assert list[1..] == old(list);
      ok := true;
    }

    method Kalloc() returns (r: nat)
      requires Valid()
      modifies this
      ensures Valid()
      ensures r == 0 <==> old(list) == []
      ensures if r == 0 then list == [] else old(list) == [r] + list && r !in list && Page(r)
    {
      r := freelist;
      if r != 0 {
        assert list[0] in list;
        freelist := next[r];
        list := list[1..];
      }
    }

    // Every whole page of the range goes on the list, once, above the rest;
    // false is kfree's panic, which a page outside the memory causes.
    method Freerange(vstart: nat, vend: nat) returns (ok: bool)
      requires Valid() && forall v | v in list :: !Within(v, vstart, vend)
      modifies this
      ensures Valid()
      ensures ok <==> forall v: nat | Within(v, vstart, vend) :: Page(v)
      ensures ok ==> forall v: nat :: v in list <==> v in old(list) || Within(v, vstart, vend)
      ensures |list| >= |old(list)| && list[|list| - |old(list)|..] == old(list)
    {
      RoundUpIsFirst(vstart);
      var p := RoundUp(vstart);
      while p + PGSIZE <= vend
        invariant Valid() && p % PGSIZE == 0 && vstart <= p
        invariant forall v: nat | Within(v, vstart, vend) && v < p :: Page(v)
        invariant forall v: nat :: v in list <==> v in old(list) || (Within(v, vstart, vend) && v < p)
        invariant |list| >= |old(list)| && list[|list| - |old(list)|..] == old(list)
        decreases vend - p
      {
        assert Within(p, vstart, vend);
        ok := Kfree(p);
        if !ok { return; }
        NextPage(p);
        p := p + PGSIZE;
      }
      ok := true;
    }
  }

  lemma NextPage(p: nat)
    requires p % PGSIZE == 0
    ensures (p + PGSIZE) % PGSIZE == 0
    ensures forall v: nat | v % PGSIZE == 0 && v < p + PGSIZE :: v <= p
  {
  }
}
