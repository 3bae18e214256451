// The circular doubly linked list that bio.c threads through bcache.buf:
// prev/next pointers are indices, and index h is the list head.
module Ring {
  import opened Blocks

  // Starting at the head and following next visits exactly `order`, in that
  // order, and comes back to the head; prev is the same walk backwards.
  ghost predicate IsRing(h: nat, next: seq<nat>, prev: seq<nat>, order: seq<nat>) {
    && |next| == |prev| == h + 1
    && (forall i | 0 <= i < |order| :: order[i] < h)
    && Distinct(order)
    && next[h] == NodeAt(h, order, 0)
    && prev[h] == NodeAt(h, order, |order| - 1)
    && (forall i {:trigger next[order[i]]} | 0 <= i < |order| :: next[order[i]] == NodeAt(h, order, i + 1))
    && (forall i {:trigger prev[order[i]]} | 0 <= i < |order| :: prev[order[i]] == NodeAt(h, order, i - 1))
  }

  // The node at position i of the walk; off either end it is the head.
  ghost function NodeAt(h: nat, order: seq<nat>, i: int): nat {
    if 0 <= i < |order| then order[i] else h
  }

  // IsRing, stated position by position with the head at both ends.
  lemma FromWalks(h: nat, next: seq<nat>, prev: seq<nat>, order: seq<nat>)
    requires |next| == |prev| == h + 1 && Distinct(order)
    requires forall i | 0 <= i < |order| :: order[i] < h
    requires forall i {:trigger next[NodeAt(h, order, i)]} | -1 <= i < |order| ::
             next[NodeAt(h, order, i)] == NodeAt(h, order, i + 1)
    requires forall i {:trigger prev[NodeAt(h, order, i)]} | 0 <= i <= |order| ::
             prev[NodeAt(h, order, i)] == NodeAt(h, order, i - 1)
    ensures IsRing(h, next, prev, order)
  {
    assert NodeAt(h, order, -1) == h == NodeAt(h, order, |order|);
    forall i | 0 <= i < |order|
      ensures next[order[i]] == NodeAt(h, order, i + 1) && prev[order[i]] == NodeAt(h, order, i - 1)
    {
      assert NodeAt(h, order, i) == order[i];
    }
  }

  // b->next = head.next; b->prev = &head; head.next->prev = b; head.next = b;
  function PushNext(h: nat, next: seq<nat>, b: nat): (r: seq<nat>)
    requires b < h < |next|
  {
    next[b := next[h]][h := b]
  }

  function PushPrev(h: nat, next: seq<nat>, prev: seq<nat>, b: nat): (r: seq<nat>)
    requires b < h < |next| && |next| == |prev| && next[h] <= h
  {
    prev[b := h][next[h] := b]
  }

  // b->next->prev = b->prev; b->prev->next = b->next;
  function DropNext(next: seq<nat>, prev: seq<nat>, b: nat): (r: seq<nat>)
    requires b < |next| == |prev| && prev[b] < |next|
  {
    next[prev[b] := next[b]]
  }

  function DropPrev(next: seq<nat>, prev: seq<nat>, b: nat): (r: seq<nat>)
    requires b < |next| == |prev| && next[b] < |next|
  {
    prev[next[b] := prev[b]]
  }

  ghost function Without(order: seq<nat>, k: nat): seq<nat>
    requires k < |order|
  {
    order[..k] + order[k + 1..]
  }

  // Linking a node that is not on the ring puts it first.
  lemma PushFront(h: nat, next: seq<nat>, prev: seq<nat>, order: seq<nat>, b: nat)
    requires IsRing(h, next, prev, order) && b < h && b !in order
    ensures IsRing(h, PushNext(h, next, b), PushPrev(h, next, prev, b), [b] + order)
  {
    var o, next', prev' := [b] + order, PushNext(h, next, b), PushPrev(h, next, prev, b);
    forall i {:trigger next'[NodeAt(h, o, i)]} | -1 <= i < |o|
      ensures next'[NodeAt(h, o, i)] == NodeAt(h, o, i + 1)
    {
      assert i > 0 ==> NodeAt(h, o, i) == order[i - 1] && next[order[i - 1]] == NodeAt(h, order, i);
    }
    forall i {:trigger prev'[NodeAt(h, o, i)]} | 0 <= i <= |o|
      ensures prev'[NodeAt(h, o, i)] == NodeAt(h, o, i - 1)
    {
      PushPrevWalk(h, next, prev, order, b, i);
    }
    FromWalks(h, next', prev', o);
  }

  lemma PushPrevWalk(h: nat, next: seq<nat>, prev: seq<nat>, order: seq<nat>, b: nat, i: nat)
    requires IsRing(h, next, prev, order) && b < h && b !in order && i <= |order| + 1
    ensures var o := [b] + order;
            PushPrev(h, next, prev, b)[NodeAt(h, o, i)] == NodeAt(h, o, i - 1)
  {
    if i > 0 {
      assert NodeAt(h, [b] + order, i) == NodeAt(h, order, i - 1);
      if i <= |order| {
        assert prev[order[i - 1]] == NodeAt(h, order, i - 2);
      }
      if 1 < i <= |order| { assert order[i - 1] != order[0]; }
    }
  }

  // Unlinking the node at position k removes it and nothing else.
  lemma Drop(h: nat, next: seq<nat>, prev: seq<nat>, order: seq<nat>, k: nat)
    requires IsRing(h, next, prev, order) && k < |order|
    ensures next[order[k]] <= h && prev[order[k]] <= h
    ensures IsRing(h, DropNext(next, prev, order[k]), DropPrev(next, prev, order[k]), Without(order, k))
  {
    WithoutDistinct(order, k);
    var o := Without(order, k);
    DropNextWalk(h, next, prev, order, k, -1);
    DropPrevWalk(h, next, prev, order, k, |o|);
    var next', prev' := DropNext(next, prev, order[k]), DropPrev(next, prev, order[k]);
    forall i {:trigger next'[NodeAt(h, o, i)]} | -1 <= i < |o|
      ensures next'[NodeAt(h, o, i)] == NodeAt(h, o, i + 1)
    {
      DropNextWalk(h, next, prev, order, k, i);
    }
    forall i {:trigger prev'[NodeAt(h, o, i)]} | 0 <= i <= |o|
      ensures prev'[NodeAt(h, o, i)] == NodeAt(h, o, i - 1)
    {
      DropPrevWalk(h, next, prev, order, k, i);
    }
    FromWalks(h, next', prev', o);
  }

  lemma WithoutDistinct(order: seq<nat>, k: nat)
    requires Distinct(order) && k < |order|
    ensures Distinct(Without(order, k))
    ensures forall b :: b in Without(order, k) <==> b in order && b != order[k]
  {
    var o := Without(order, k);
    assert forall i | 0 <= i < |o| :: o[i] == if i < k then order[i] else order[i + 1];
    forall c | c in order && c != order[k] ensures c in o {
      var i :| 0 <= i < |order| && order[i] == c;
      assert o[if i < k then i else i - 1] == c;
    }
  }

  lemma DropNextWalk(h: nat, next: seq<nat>, prev: seq<nat>, order: seq<nat>, k: nat, i: int)
    requires IsRing(h, next, prev, order) && k < |order| && -1 <= i < |order| - 1
    ensures prev[order[k]] == NodeAt(h, order, k - 1)
    ensures var o := Without(order, k);
            DropNext(next, prev, order[k])[NodeAt(h, o, i)] == NodeAt(h, o, i + 1)
  {
    var o, j := Without(order, k), if i < k then i else i + 1;
    assert NodeAt(h, o, i) == NodeAt(h, order, j);
    assert j >= 0 ==> next[order[j]] == NodeAt(h, order, j + 1);
    assert NodeAt(h, o, i + 1) == NodeAt(h, order, if i + 1 < k then i + 1 else i + 2);
    if j == k - 1 {
    } else if j >= 0 && k > 0 {
      assert order[j] != order[k - 1];
    }
  }

  lemma DropPrevWalk(h: nat, next: seq<nat>, prev: seq<nat>, order: seq<nat>, k: nat, i: int)
    requires IsRing(h, next, prev, order) && k < |order| && 0 <= i <= |order| - 1
    ensures next[order[k]] == NodeAt(h, order, k + 1)
    ensures var o := Without(order, k);
            DropPrev(next, prev, order[k])[NodeAt(h, o, i)] == NodeAt(h, o, i - 1)
  {
    var o, j := Without(order, k), if i < k then i else i + 1;
    assert NodeAt(h, o, i) == NodeAt(h, order, j);
    assert j < |order| ==> prev[order[j]] == NodeAt(h, order, j - 1);
    assert NodeAt(h, o, i - 1) == NodeAt(h, order, if i - 1 < k then i - 1 else i);
    if j == k + 1 {
    } else if j < |order| && k + 1 < |order| {
      assert order[j] != order[k + 1];
    }
  }

  // brelse's four assignments move a node to the front.
  lemma MoveFirst(h: nat, next: seq<nat>, prev: seq<nat>, order: seq<nat>, k: nat)
    requires IsRing(h, next, prev, order) && k < |order|
    ensures next[order[k]] <= h && prev[order[k]] <= h
    ensures var b, n, p := order[k], DropNext(next, prev, order[k]), DropPrev(next, prev, order[k]);
            && n[h] <= h
            && IsRing(h, PushNext(h, n, b), PushPrev(h, n, p, b), [b] + Without(order, k))
    ensures forall c :: c in order ==> c in [order[k]] + Without(order, k)
  {
    Drop(h, next, prev, order, k);
    WithoutDistinct(order, k);
    PushFront(h, DropNext(next, prev, order[k]), DropPrev(next, prev, order[k]), Without(order, k), order[k]);
  }
}
