// The buffer cache (bio.c) over the in-memory disk of memide.c.
//
// Each method below is one stretch of code that runs under bcache.lock or
// while holding a buffer's sleep lock, so every interleaving of cache users is
// a sequence of these calls, and whatever all of them keep holds in every run.
module Bio {
  import opened Blocks
  import opened Ring

  const ROOTDEV: nat := 1

  // struct buf; flags is split into B_VALID and B_DIRTY.
  datatype Buf = Buf(dev: nat, blockno: nat, valid: bool, dirty: bool, locked: bool, refcnt: nat, data: Block)

  predicate Holds(b: Buf, dev: nat, blockno: nat) { b.dev == dev && b.blockno == blockno }

  predicate Reusable(b: Buf) { b.refcnt == 0 && !b.dirty }

  // Block numbers pinned in the cache by B_DIRTY.
  ghost function DirtyBlocks(bufs: seq<Buf>): set<nat> {
    set i | 0 <= i < |bufs| && bufs[i].dirty :: bufs[i].blockno
  }

  // No two buffers cache the same block of a real device.
  ghost predicate UniqueKeys(bufs: seq<Buf>) {
    forall i, j | 0 <= i < j < |bufs| && bufs[i].dev != 0 :: !Holds(bufs[j], bufs[i].dev, bufs[i].blockno)
  }

  // Only a referenced buffer is locked; only data read or written through
  // iderw, hence on disk 1 and in range, is valid; a pinned buffer is valid.
  ghost predicate WellFormed(b: Buf, disksize: nat) {
    && (b.locked ==> b.refcnt > 0)
    && (b.dirty ==> b.valid)
    && (b.valid ==> b.dev == ROOTDEV && b.blockno < disksize)
  }

  // A buffer nobody is editing agrees with the plain block map.
  ghost predicate Agrees(b: Buf, plain: seq<Block>) {
    b.valid && b.blockno < |plain| ==> b.data == plain[b.blockno]
  }

  // The order list runs from the most to the least recently released buffer.
  ghost predicate ByRelease(order: seq<nat>, stamp: seq<int>) {
    && (forall i | 0 <= i < |order| :: order[i] < |stamp|)
    && forall i, j | 0 <= i < j < |order| :: stamp[order[i]] > stamp[order[j]]
  }

  // Of the buffers that can be recycled, i is the least recently released.
  ghost predicate Oldest(bufs: seq<Buf>, stamp: seq<int>, i: nat) {
    && i < |stamp| == |bufs|
    && forall j | 0 <= j < |bufs| && Reusable(bufs[j]) && j != i :: stamp[i] < stamp[j]
  }

  // Buffer i has just been released, after every other.
  ghost predicate Newest(was: seq<int>, stamp: seq<int>, i: nat) {
    && i < |stamp| == |was|
    && forall j | 0 <= j < |stamp| && j != i :: stamp[j] == was[j] && stamp[j] < stamp[i]
  }

  // Each of the n buffers is on the ring once, in order of release.
  ghost predicate InOrder(n: nat, next: seq<nat>, prev: seq<nat>, order: seq<nat>, stamp: seq<int>, clock: int) {
    && IsRing(n, next, prev, order)
    && (forall b | 0 <= b < n :: b in order)
    && |stamp| == n
    && ByRelease(order, stamp)
    && (forall b | 0 <= b < n :: stamp[b] < clock)
  }

  // What bread promises: the block, locked, as an uncached machine would hold it.
  ghost predicate LockedBlock(b: Buf, n: nat, plain: seq<Block>) {
    b.locked && b.valid && Holds(b, ROOTDEV, n) && n < |plain| && b.data == plain[n] && b.refcnt > 0
  }

  ghost predicate Transparent(bufs: seq<Buf>, editing: set<nat>, plain: seq<Block>, disk: seq<Block>) {
    && |plain| == |disk|
    && (forall i | 0 <= i < |bufs| :: WellFormed(bufs[i], |disk|))
    && (forall i | 0 <= i < |bufs| && i !in editing :: Agrees(bufs[i], plain))
    && (forall i | i in editing :: i < |bufs| && bufs[i].locked && bufs[i].valid)
    && (forall n | 0 <= n < |disk| && n !in DirtyBlocks(bufs) :: plain[n] == disk[n])
  }

  class Bcache {
    var bufs: seq<Buf>
    var next: seq<nat>
    var prev: seq<nat>
    var disk: seq<Block>

    ghost var order: seq<nat>     // the ring from head.next round to head.prev
    ghost var stamp: seq<int>     // when each buffer was last fully released
    ghost var clock: int
    ghost var plain: seq<Block>   // what a machine with no cache would hold
    ghost var editing: set<nat>   // locked buffers changed since the last log_write or bwrite
    ghost var trace: seq<seq<Block>>  // the disk after each block write

    ghost predicate Linked()
      reads this
    {
      InOrder(|bufs|, next, prev, order, stamp, clock)
    }

    ghost predicate Valid()
      reads this
    {
      && Linked()
      && UniqueKeys(bufs)
      && Transparent(bufs, editing, plain, disk)
    }

    // The boot state: bcache in zeroed memory, then binit.
    constructor (nbuf: nat, image: seq<Block>)
      ensures Valid()
      ensures disk == plain == image && |bufs| == nbuf && editing == {} && trace == []
      ensures forall i | 0 <= i < nbuf :: bufs[i].dev == 0 && !bufs[i].locked && Reusable(bufs[i])
    {
      bufs := seq(nbuf, _ => Buf(0, 0, false, false, false, 0, ZeroBlock()));
      next, prev := seq(nbuf + 1, _ => nbuf), seq(nbuf + 1, _ => nbuf);
      order, stamp, clock := [], seq(nbuf, i => i), nbuf;
      disk, plain, editing, trace := image, image, {}, [];
      new;
      Binit();
    }

    // binit
    method Binit()
      requires |next| == |prev| == |bufs| + 1 && |stamp| == |bufs| <= clock
      requires forall i | 0 <= i < |stamp| :: stamp[i] == i
      modifies this`next, this`prev, this`order
      ensures Linked()
    {
      hide IsRing, ByRelease;
      var h := |bufs|;
      next, prev, order := next[h := h], prev[h := h], [];
      EmptyRing(h, next, prev, stamp);
      var b := 0;
      while b < h
        invariant 0 <= b <= h
        invariant IsRing(h, next, prev, order)
        invariant forall i :: i in order <==> 0 <= i < b
        invariant ByRelease(order, stamp)
      {
        RingHead(h, next, prev, order);
        PushFront(h, next, prev, order, b);
        PushNewest(order, stamp, b);
        next, prev, order := PushNext(h, next, b), PushPrev(h, next, prev, b), [b] + order;
        b := b + 1;
      }
    }

    // The scan of bget from head.next for a cached copy.
    method FindCached(dev: nat, blockno: nat) returns (r: Option<nat>)
      requires Valid()
      ensures r.Some? ==> r.value < |bufs| && Holds(bufs[r.value], dev, blockno)
      ensures r.None? ==> forall i | 0 <= i < |bufs| :: !Holds(bufs[i], dev, blockno)
    {
      var b := next[|bufs|];
      ghost var k := 0;
      while b != |bufs|
        invariant 0 <= k <= |order| && b == NodeAt(|bufs|, order, k)
        invariant forall i | 0 <= i < k :: !Holds(bufs[order[i]], dev, blockno)
        decreases |order| - k
      {
        if Holds(bufs[b], dev, blockno) {
          return Some(b);
        }
        assert next[order[k]] == NodeAt(|bufs|, order, k + 1);
        b, k := next[b], k + 1;
      }
      forall i | 0 <= i < |bufs| ensures !Holds(bufs[i], dev, blockno) {
        assert i in order;
        var j :| 0 <= j < |order| && order[j] == i;
      }
      r := None;
    }

    // The scan of bget from head.prev for a buffer to recycle: the one released
    // longest ago among the clean, unreferenced buffers.
    method FindVictim() returns (r: Option<nat>)
      requires Valid()
      ensures r.Some? ==> r.value < |bufs| && Reusable(bufs[r.value])
      ensures r.Some? ==> Oldest(bufs, stamp, r.value)
      ensures r.None? ==> forall i | 0 <= i < |bufs| :: !Reusable(bufs[i])
    {
      var b := prev[|bufs|];
      ghost var k := |order| - 1;
      while b != |bufs|
        invariant -1 <= k < |order| && b == NodeAt(|bufs|, order, k)
        invariant forall i | k < i < |order| :: !Reusable(bufs[order[i]])
        decreases k
      {
        if Reusable(bufs[b]) {
          forall i | 0 <= i < |bufs| && Reusable(bufs[i]) && i != b ensures stamp[b] < stamp[i] {
            assert i in order;
            var j :| 0 <= j < |order| && order[j] == i;
          }
          return Some(b);
        }
        assert prev[order[k]] == NodeAt(|bufs|, order, k - 1);
        b, k := prev[b], k - 1;
      }
      forall i | 0 <= i < |bufs| ensures !Reusable(bufs[i]) {
        assert i in order;
        var j :| 0 <= j < |order| && order[j] == i;
      }
      r := None;
    }

    // bget up to the release of bcache.lock; None is the "no buffers" panic.
    method Bget(dev: nat, blockno: nat) returns (r: Option<nat>)
      requires Valid() && dev != 0
      modifies this`bufs
      ensures Valid()
      ensures r.None? <==> forall i | 0 <= i < |bufs| :: !Holds(old(bufs)[i], dev, blockno) && !Reusable(old(bufs)[i])
      ensures r.None? ==> bufs == old(bufs)
      ensures |bufs| == |old(bufs)| && DirtyBlocks(bufs) == old(DirtyBlocks(bufs))
      ensures r.Some? ==>
                var i := r.value;
                && i < |bufs|
                && bufs == old(bufs)[i := if Holds(old(bufs)[i], dev, blockno)
                                          then old(bufs)[i].(refcnt := old(bufs)[i].refcnt + 1)
                                          else old(bufs)[i].(dev := dev, blockno := blockno, valid := false,
                                                             dirty := false, refcnt := 1)]
                && (!Holds(old(bufs)[i], dev, blockno) ==>
                      && (forall j | 0 <= j < |bufs| :: !Holds(old(bufs)[j], dev, blockno))
                      && Reusable(old(bufs)[i]) && Oldest(old(bufs), stamp, i))
    {
      hide InOrder, DirtyBlocks;
      r := FindCached(dev, blockno);
      if r.Some? {
        var i := r.value;
        var b := bufs[i].(refcnt := bufs[i].refcnt + 1);
        KeepKey(bufs, i, b);
        bufs := bufs[i := b];
      } else {
        r := FindVictim();
        if r.Some? {
          var i := r.value;
          var b := bufs[i].(dev := dev, blockno := blockno, valid := false, dirty := false, refcnt := 1);
          NewKey(bufs, i, b);
          assert i !in editing;
          bufs := bufs[i := b];
        }
      }
    }

    // acquiresleep on a buffer the caller holds a reference to; runs once the
    // lock is free.
    method Lock(i: nat)
      requires Valid() && i < |bufs| && bufs[i].refcnt > 0 && !bufs[i].locked
      modifies this`bufs
      ensures Valid() && bufs == old(bufs)[i := old(bufs)[i].(locked := true)]
      ensures DirtyBlocks(bufs) == old(DirtyBlocks(bufs))
    {
      hide InOrder, UniqueKeys, DirtyBlocks;
      var b := bufs[i].(locked := true);
      KeepKey(bufs, i, b);
      bufs := bufs[i := b];
    }

    // iderw of memide.c; false is one of its panics.
    method Iderw(i: nat) returns (ok: bool)
      requires i < |bufs| && bufs[i].locked
      modifies this`bufs, this`disk, this`trace
      ensures ok <==>
                && !(old(bufs)[i].valid && !old(bufs)[i].dirty)
                && old(bufs)[i].dev == ROOTDEV && old(bufs)[i].blockno < |old(disk)|
      ensures !ok || !old(bufs)[i].dirty ==> disk == old(disk) && trace == old(trace)
      ensures !ok ==> bufs == old(bufs)
      ensures ok && old(bufs)[i].dirty ==>
                && disk == old(disk)[old(bufs)[i].blockno := old(bufs)[i].data]
                && trace == old(trace) + [disk]
                && bufs == old(bufs)[i := old(bufs)[i].(dirty := false, valid := true)]
      ensures ok && !old(bufs)[i].dirty ==>
                bufs == old(bufs)[i := old(bufs)[i].(valid := true, data := disk[old(bufs)[i].blockno])]
    {
      var b := bufs[i];
      if (b.valid && !b.dirty) || b.dev != ROOTDEV || b.blockno >= |disk| {
        return false;
      }
      if b.dirty {
        b := b.(dirty := false);
        disk := disk[b.blockno := b.data];
        trace := trace + [disk];
      } else {
        b := b.(data := disk[b.blockno]);
      }
      bufs := bufs[i := b.(valid := true)];
      ok := true;
    }

    // The rest of bread once the buffer is locked: read the block if need be.
    // The caller then sees what an uncached machine would.
    method Fill(i: nat) returns (ok: bool)
      requires Valid() && i < |bufs| && bufs[i].locked && i !in editing
      modifies this`bufs, this`disk, this`trace
      ensures ok <==> old(bufs)[i].valid || (old(bufs)[i].dev == ROOTDEV && old(bufs)[i].blockno < |disk|)
      ensures Valid() && disk == old(disk) && trace == old(trace) && |bufs| == |old(bufs)|
      ensures DirtyBlocks(bufs) == old(DirtyBlocks(bufs))
      ensures ok ==>
                && bufs[i].blockno < |plain|
                && bufs == old(bufs)[i := old(bufs)[i].(valid := true, data := plain[bufs[i].blockno])]
      ensures !ok ==> bufs == old(bufs)
    {
      hide InOrder;
      ok := true;
      if !bufs[i].valid {
        // an unread buffer is not what pins its block, so the disk is up to date
        ok := Iderw(i);
        if ok { KeepKey(old(bufs), i, bufs[i]); }
      }
    }

    // The holder changes the data of a buffer it got from bread.
    method Edit(i: nat, data: Block)
      requires Valid() && i < |bufs| && bufs[i].locked && bufs[i].valid
      modifies this`bufs, this`editing
      ensures Valid() && bufs == old(bufs)[i := old(bufs)[i].(data := data)] && editing == old(editing) + {i}
      ensures DirtyBlocks(bufs) == old(DirtyBlocks(bufs))
    {
      hide InOrder, UniqueKeys, DirtyBlocks;
      var b := bufs[i].(data := data);
      KeepKey(bufs, i, b);
      bufs, editing := bufs[i := b], editing + {i};
    }

    // What log_write does to the buffer: publish the change and pin it.
    method Pin(i: nat)
      requires Valid() && i < |bufs| && bufs[i].locked && bufs[i].valid
      modifies this`bufs, this`editing, this`plain
      ensures Valid() && bufs == old(bufs)[i := old(bufs)[i].(dirty := true)] && editing == old(editing) - {i}
      ensures plain == old(plain)[bufs[i].blockno := bufs[i].data]
      ensures DirtyBlocks(bufs) == old(DirtyBlocks(bufs)) + {bufs[i].blockno}
    {
      hide InOrder, UniqueKeys, DirtyBlocks;
      var b := bufs[i].(dirty := true);
      assert WellFormed(bufs[i], |disk|);
      SetDirty(bufs, i, b);
      OthersAgree(bufs, i, plain, b.data);
      bufs, editing, plain := bufs[i := b], editing - {i}, plain[b.blockno := b.data];
    }

    // bwrite; false is a panic of iderw.
    method Bwrite(i: nat) returns (ok: bool)
      requires Valid() && i < |bufs| && bufs[i].locked
      modifies this`bufs, this`editing, this`plain, this`disk, this`trace
      ensures ok <==> old(bufs)[i].dev == ROOTDEV && old(bufs)[i].blockno < |old(disk)|
      ensures ok ==>
                var b := old(bufs)[i];
                && Valid()
                && bufs == old(bufs)[i := b.(dirty := false, valid := true)] && editing == old(editing) - {i}
                && plain == old(plain)[b.blockno := b.data] && disk == old(disk)[b.blockno := b.data]
                && trace == old(trace) + [disk]
                && DirtyBlocks(bufs) == old(DirtyBlocks(bufs)) - {b.blockno}
    {
      hide InOrder, UniqueKeys, DirtyBlocks, Transparent;
      SameSize(bufs, editing, plain, disk);
      bufs := bufs[i := bufs[i].(dirty := true)];
      ok := Iderw(i);
      if ok {
        var b := bufs[i];
        WriteThrough(old(bufs), i, editing, plain, old(disk));
        assert bufs == old(bufs)[i := old(bufs)[i].(dirty := false, valid := true)];
        editing, plain := editing - {i}, plain[b.blockno := b.data];
      }
    }

    // releasesleep, the first half of brelse.  The holder has published its edits.
    method Unlock(i: nat)
      requires Valid() && i < |bufs| && bufs[i].locked && i !in editing
      modifies this`bufs
      ensures Valid() && bufs == old(bufs)[i := old(bufs)[i].(locked := false)]
      ensures DirtyBlocks(bufs) == old(DirtyBlocks(bufs))
    {
      hide InOrder, UniqueKeys, DirtyBlocks;
      var b := bufs[i].(locked := false);
      KeepKey(bufs, i, b);
      bufs := bufs[i := b];
    }

    // The second half of brelse, under bcache.lock.  The caller gives up a
    // reference of its own, which is not the one that goes with the lock.
    method Unref(i: nat)
      requires Valid() && i < |bufs| && bufs[i].refcnt > if bufs[i].locked then 1 else 0
      modifies this`bufs, this`next, this`prev, this`order, this`stamp, this`clock
      ensures Valid() && bufs == old(bufs)[i := old(bufs)[i].(refcnt := old(bufs)[i].refcnt - 1)]
      ensures DirtyBlocks(bufs) == old(DirtyBlocks(bufs))
      ensures bufs[i].refcnt > 0 ==> order == old(order) && stamp == old(stamp)
      ensures bufs[i].refcnt == 0 ==> |order| > 0 && order[0] == i && Newest(old(stamp), stamp, i)
    {
      hide UniqueKeys, DirtyBlocks;
      var b := bufs[i].(refcnt := bufs[i].refcnt - 1);
      KeepKey(bufs, i, b);
      bufs := bufs[i := b];
      if b.refcnt == 0 {
        MoveToFront(i);
      }
    }

    method MoveToFront(i: nat)
      requires Linked() && i < |bufs|
      modifies this`next, this`prev, this`order, this`stamp, this`clock
      ensures Linked() && |order| > 0 && order[0] == i && Newest(old(stamp), stamp, i)
    {
      hide InOrder, ByRelease, Distinct;
      ghost var k := PlaceOf(|bufs|, next, prev, order, stamp, clock, i);
      Released(|bufs|, next, prev, order, stamp, clock, k);
      var n, p := DropNext(next, prev, i), DropPrev(next, prev, i);
      next, prev := PushNext(|bufs|, n, i), PushPrev(|bufs|, n, p, i);
      order, stamp, clock := [i] + Without(order, k), stamp[i := clock], clock + 1;
    }

    // bread when no one else has the block locked; None is a panic.
    method Bread(blockno: nat) returns (r: Option<nat>)
      requires Valid() && blockno < |disk|
      requires forall i | 0 <= i < |bufs| && Holds(bufs[i], ROOTDEV, blockno) :: !bufs[i].locked
      modifies this`bufs, this`disk, this`trace
      ensures Valid() && disk == old(disk) && trace == old(trace) && DirtyBlocks(bufs) == old(DirtyBlocks(bufs))
      ensures r.None? <==> forall i | 0 <= i < |bufs| ::
              !Holds(old(bufs)[i], ROOTDEV, blockno) && !Reusable(old(bufs)[i])
      ensures |bufs| == |old(bufs)|
      ensures r.Some? ==>
                var i := r.value;
                && i < |bufs| && i !in editing
                && bufs == old(bufs)[i := bufs[i]]
                && (Holds(old(bufs)[i], ROOTDEV, blockno) || Reusable(old(bufs)[i]))
                && LockedBlock(bufs[i], blockno, plain)
                && !old(bufs)[i].locked && bufs[i].dirty == old(bufs)[i].dirty
                && bufs[i].refcnt == 1 + (if Holds(old(bufs)[i], ROOTDEV, blockno) then old(bufs)[i].refcnt else 0)
                && (!Holds(old(bufs)[i], ROOTDEV, blockno) ==> Oldest(old(bufs), stamp, i))
    {
      hide InOrder, UniqueKeys, DirtyBlocks;
      r := Bget(ROOTDEV, blockno);
      if r.Some? {
        assert WellFormed(old(bufs)[r.value], |disk|);
        Lock(r.value);
        var ok := Fill(r.value);
      }
    }

    method Brelse(i: nat)
      requires Valid() && i < |bufs| && bufs[i].locked && i !in editing
      modifies this`bufs, this`next, this`prev, this`order, this`stamp, this`clock
      ensures Valid() && bufs == old(bufs)[i := old(bufs)[i].(locked := false, refcnt := old(bufs)[i].refcnt - 1)]
      ensures DirtyBlocks(bufs) == old(DirtyBlocks(bufs))
      ensures bufs[i].refcnt > 0 ==> order == old(order) && stamp == old(stamp)
      ensures bufs[i].refcnt == 0 ==> |order| > 0 && order[0] == i && Newest(old(stamp), stamp, i)
    {
      hide InOrder, UniqueKeys, DirtyBlocks, Newest;
      assert WellFormed(bufs[i], |disk|);
      Unlock(i);
      Unref(i);
    }
  }

  // A block survives the read of another right after its release, as long as
  // some other buffer could be recycled instead.
  method ReleaseThenRead(bc: Bcache, i: nat, n: nat) returns (r: Option<nat>)
    requires bc.Valid() && i < |bc.bufs| && bc.bufs[i].locked && bc.bufs[i].refcnt == 1 && i !in bc.editing
    requires n < |bc.disk| && forall j | 0 <= j < |bc.bufs| :: !Holds(bc.bufs[j], ROOTDEV, n)
    requires exists j | 0 <= j < |bc.bufs| && j != i :: Reusable(bc.bufs[j])
    modifies bc
    ensures bc.Valid() && r.Some? && r.value < |bc.bufs| && LockedBlock(bc.bufs[r.value], n, bc.plain)
    ensures r.value != i && |bc.bufs| == |old(bc.bufs)|
    ensures bc.bufs[i] == old(bc.bufs)[i].(locked := false, refcnt := 0)
  {
    hide Bcache.Valid, DirtyBlocks;
    var j :| 0 <= j < |bc.bufs| && j != i && Reusable(bc.bufs[j]);
    bc.Brelse(i);
    assert Reusable(bc.bufs[j]);
    r := bc.Bread(n);
  }

  lemma PlaceOf(h: nat, next: seq<nat>, prev: seq<nat>, order: seq<nat>, stamp: seq<int>, clock: int, i: nat)
    returns (k: nat)
    requires InOrder(h, next, prev, order, stamp, clock) && i < h
    ensures k < |order| && order[k] == i && |next| == |prev| == h + 1
    ensures |stamp| == h && forall j | 0 <= j < h :: stamp[j] < clock
  {
    assert i in order;
    k :| 0 <= k < |order| && order[k] == i;
  }

  lemma EmptyRing(h: nat, next: seq<nat>, prev: seq<nat>, stamp: seq<int>)
    requires |next| == |prev| == h + 1 && next[h] == prev[h] == h
    ensures IsRing(h, next, prev, []) && ByRelease([], stamp)
  {
  }

  lemma RingHead(h: nat, next: seq<nat>, prev: seq<nat>, order: seq<nat>)
    requires IsRing(h, next, prev, order)
    ensures |next| == |prev| == h + 1 && next[h] <= h
  {
  }

  lemma PushNewest(order: seq<nat>, stamp: seq<int>, b: nat)
    requires ByRelease(order, stamp) && b < |stamp|
    requires forall i | i in order :: i < |stamp| && stamp[i] < stamp[b]
    ensures ByRelease([b] + order, stamp)
  {
    var o := [b] + order;
    forall i, j | 0 <= i < j < |o| ensures stamp[o[i]] > stamp[o[j]] {
      assert o[j] == order[j - 1] && order[j - 1] in order;
      assert i > 0 ==> o[i] == order[i - 1];
    }
  }

  // Moving the node at position k to the front with a fresh stamp keeps the
  // list ordered by release time.
  lemma RestampNewest(order: seq<nat>, stamp: seq<int>, k: nat, now: int)
    requires ByRelease(order, stamp) && Distinct(order) && k < |order|
    requires forall b | 0 <= b < |stamp| :: stamp[b] < now
    ensures ByRelease([order[k]] + Without(order, k), stamp[order[k] := now])
  {
    var o, s := Without(order, k), stamp[order[k] := now];
    assert forall i | 0 <= i < |o| :: o[i] == if i < k then order[i] else order[i + 1];
    assert ByRelease(o, s);
    PushNewest(o, s, order[k]);
  }

  // The list after brelse moved the buffer at position k to the front.
  lemma Released(h: nat, next: seq<nat>, prev: seq<nat>, order: seq<nat>, stamp: seq<int>, clock: int, k: nat)
    requires InOrder(h, next, prev, order, stamp, clock) && k < |order|
    ensures next[order[k]] <= h && prev[order[k]] <= h
    ensures var b, n, p := order[k], DropNext(next, prev, order[k]), DropPrev(next, prev, order[k]);
            && n[h] <= h
            && InOrder(h, PushNext(h, n, b), PushPrev(h, n, p, b), [b] + Without(order, k), stamp[b := clock],
               clock + 1)
  {
    MoveFirst(h, next, prev, order, k);
    RestampNewest(order, stamp, k, clock);
  }

  // With unique keys, only buffer i can hold its block.
  lemma OthersAgree(bufs: seq<Buf>, i: nat, plain: seq<Block>, data: Block)
    requires i < |bufs| && UniqueKeys(bufs) && bufs[i].dev == ROOTDEV && bufs[i].blockno < |plain|
    ensures forall j | 0 <= j < |bufs| && j != i && bufs[j].dev == ROOTDEV ::
              bufs[j].blockno != bufs[i].blockno
              && (Agrees(bufs[j], plain) ==> Agrees(bufs[j], plain[bufs[i].blockno := data]))
  {
    forall j | 0 <= j < |bufs| && j != i && bufs[j].dev == ROOTDEV ensures bufs[j].blockno != bufs[i].blockno {
      assert !(Holds(bufs[if i < j then j else i], ROOTDEV, bufs[if i < j then i else j].blockno));
    }
  }

  lemma SetDirty(bufs: seq<Buf>, i: nat, b: Buf)
    requires i < |bufs| && b.dev == bufs[i].dev && b.blockno == bufs[i].blockno && b.dirty
    ensures UniqueKeys(bufs) ==> UniqueKeys(bufs[i := b])
    ensures DirtyBlocks(bufs[i := b]) == DirtyBlocks(bufs) + {b.blockno}
  {
    var c := bufs[i := b];
    assert c[i].dirty;
    forall n ensures n in DirtyBlocks(c) <==> n in DirtyBlocks(bufs) || n == b.blockno {
      if n in DirtyBlocks(bufs) {
        var j :| 0 <= j < |bufs| && bufs[j].dirty && bufs[j].blockno == n;
        assert c[j].dirty && c[j].blockno == n;
      }
    }
  }

  lemma ClearDirty(bufs: seq<Buf>, i: nat, b: Buf)
    requires i < |bufs| && b.dev == bufs[i].dev == ROOTDEV && b.blockno == bufs[i].blockno && !b.dirty
    requires UniqueKeys(bufs) && forall j | 0 <= j < |bufs| && bufs[j].dirty :: bufs[j].dev == ROOTDEV
    ensures UniqueKeys(bufs[i := b])
    ensures DirtyBlocks(bufs[i := b]) == DirtyBlocks(bufs) - {b.blockno}
  {
    var c := bufs[i := b];
    forall n ensures n in DirtyBlocks(c) <==> n in DirtyBlocks(bufs) && n != b.blockno {
      if n in DirtyBlocks(bufs) && n != b.blockno {
        var j :| 0 <= j < |bufs| && bufs[j].dirty && bufs[j].blockno == n;
        assert c[j].dirty && c[j].blockno == n;
      }
      if n in DirtyBlocks(c) {
        var j :| 0 <= j < |c| && c[j].dirty && c[j].blockno == n;
        assert Holds(bufs[j], ROOTDEV, n) && j != i;
        assert i < j ==> !Holds(bufs[j], bufs[i].dev, bufs[i].blockno);
      }
    }
  }

  // Writing a buffer to disk and to the plain map together keeps them in step.
  lemma WriteThrough(bufs: seq<Buf>, i: nat, editing: set<nat>, plain: seq<Block>, disk: seq<Block>)
    requires UniqueKeys(bufs) && Transparent(bufs, editing, plain, disk)
    requires i < |bufs| && bufs[i].locked && bufs[i].dev == ROOTDEV && bufs[i].blockno < |disk|
    ensures var b, c := bufs[i], bufs[i := bufs[i].(dirty := false, valid := true)];
            && UniqueKeys(c)
            && DirtyBlocks(c) == DirtyBlocks(bufs) - {b.blockno}
            && Transparent(c, editing - {i}, plain[b.blockno := b.data], disk[b.blockno := b.data])
  {
    var b := bufs[i].(dirty := false, valid := true);
    ClearDirty(bufs, i, b);
    OthersAgree(bufs, i, plain, b.data);
  }

  lemma SameSize(bufs: seq<Buf>, editing: set<nat>, plain: seq<Block>, disk: seq<Block>)
    requires Transparent(bufs, editing, plain, disk)
    ensures |plain| == |disk|
  {
  }

  // Changing a buffer but not its block or its pin leaves keys and pins alone.
  lemma KeepKey(bufs: seq<Buf>, i: nat, b: Buf)
    requires i < |bufs| && b.dev == bufs[i].dev && b.blockno == bufs[i].blockno && b.dirty == bufs[i].dirty
    ensures UniqueKeys(bufs) ==> UniqueKeys(bufs[i := b])
    ensures DirtyBlocks(bufs[i := b]) == DirtyBlocks(bufs)
  {
    var c := bufs[i := b];
    forall n ensures n in DirtyBlocks(c) <==> n in DirtyBlocks(bufs) {
      if n in DirtyBlocks(bufs) {
        var j :| 0 <= j < |bufs| && bufs[j].dirty && bufs[j].blockno == n;
        assert c[j].dirty;
      }
    }
  }

  // Giving a clean buffer to a block that no buffer holds keeps keys unique.
  lemma NewKey(bufs: seq<Buf>, i: nat, b: Buf)
    requires i < |bufs| && !bufs[i].dirty && !b.dirty
    requires forall j | 0 <= j < |bufs| :: !Holds(bufs[j], b.dev, b.blockno)
    ensures UniqueKeys(bufs) ==> UniqueKeys(bufs[i := b])
    ensures DirtyBlocks(bufs[i := b]) == DirtyBlocks(bufs)
  {
    var c := bufs[i := b];
    forall n ensures n in DirtyBlocks(c) <==> n in DirtyBlocks(bufs) {
      if n in DirtyBlocks(bufs) {
        var j :| 0 <= j < |bufs| && bufs[j].dirty && bufs[j].blockno == n;
        assert c[j].dirty;
      }
    }
  }
}
