// log.c over the buffer cache: commit and recovery, block write by block write.
module Log {
  import opened Blocks
  import opened Ring
  import opened Bio
  import opened LogDisk
  import opened LogProtocol

  ghost function Elems(s: seq<nat>): set<nat> { set n | n in s }

  // Absorption lists a block at most once.
  lemma AbsorbOnce(lh: seq<nat>, b: nat)
    requires Distinct(lh)
    ensures Distinct(Absorb(lh, b)) && Elems(Absorb(lh, b)) == Elems(lh) + {b}
  {
  }

  ghost predicate NoneHeld(bufs: seq<Buf>) { forall i | 0 <= i < |bufs| :: bufs[i].refcnt == 0 }

  // Nobody has block n locked.
  ghost predicate Unlocked(bufs: seq<Buf>, n: nat) {
    forall i | 0 <= i < |bufs| && Holds(bufs[i], ROOTDEV, n) :: !bufs[i].locked
  }

  // A buffer can be recycled; two can.
  ghost predicate Spare(bufs: seq<Buf>) { exists i :: 0 <= i < |bufs| && Reusable(bufs[i]) }

  ghost predicate TwoSpare(bufs: seq<Buf>) {
    exists i, j :: 0 <= i < j < |bufs| && Reusable(bufs[i]) && Reusable(bufs[j])
  }

  ghost predicate AllPinned(bufs: seq<Buf>) { forall i | 0 <= i < |bufs| :: bufs[i].dirty }

  // Buffers that others have locked are the same, no other is locked, and what
  // could be recycled still can.
  ghost predicate Undisturbed(was: seq<Buf>, bufs: seq<Buf>) {
    && |bufs| == |was|
    && forall i | 0 <= i < |was| ::
         && (was[i].locked ==> bufs[i] == was[i]) && (bufs[i].locked ==> was[i].locked)
         && (Reusable(was[i]) ==> Reusable(bufs[i]))
  }

  // The trace t followed by the first k disk images of a commit, of
  // install_trans, and of a recovery.
  ghost function CommitTrace(t: seq<Disk>, l: Layout, d: Disk, src: Disk, bl: seq<nat>, k: nat): seq<Disk>
    requires Room(l, |d|, bl) && |src| == |d|
  {
    if k == 0 then t else CommitTrace(t, l, d, src, bl, k - 1) + [CommitImage(l, d, src, bl, k)]
  }

  lemma CommitTraceNext(t: seq<Disk>, l: Layout, d: Disk, src: Disk, bl: seq<nat>, k: nat)
    requires Room(l, |d|, bl) && |src| == |d|
    ensures CommitTrace(t, l, d, src, bl, k + 1)
            == CommitTrace(t, l, d, src, bl, k) + [CommitImage(l, d, src, bl, k + 1)]
  {
  }

  ghost function InstallTrace(t: seq<Disk>, l: Layout, d: Disk, bl: seq<nat>, k: nat): seq<Disk>
    requires Room(l, |d|, bl) && k <= |bl|
  {
    if k == 0 then t else InstallTrace(t, l, d, bl, k - 1) + [Installed(l, d, bl, k)]
  }

  ghost function RecoverTrace(t: seq<Disk>, l: Layout, d: Disk, k: nat): seq<Disk>
    requires WellLogged(l, d)
  {
    if k == 0 then t else RecoverTrace(t, l, d, k - 1) + [RecoverImage(l, d, k)]
  }

  lemma {:induction false} CommitTraceAt(t: seq<Disk>, l: Layout, d: Disk, src: Disk, bl: seq<nat>, k: nat)
    requires Room(l, |d|, bl) && |src| == |d|
    ensures var u := CommitTrace(t, l, d, src, bl, k);
            |u| == |t| + k && t <= u && forall i | |t| <= i < |u| :: u[i] == CommitImage(l, d, src, bl, i - |t| + 1)
  {
    if k > 0 { CommitTraceAt(t, l, d, src, bl, k - 1); }
  }

  lemma {:induction false} RecoverTraceAt(t: seq<Disk>, l: Layout, d: Disk, k: nat)
    requires WellLogged(l, d)
    ensures var u := RecoverTrace(t, l, d, k);
            |u| == |t| + k && t <= u && forall i | |t| <= i < |u| :: u[i] == RecoverImage(l, d, i - |t| + 1)
  {
    if k > 0 { RecoverTraceAt(t, l, d, k - 1); }
  }

  // e stands for the file system whose home blocks are those of d.
  ghost predicate StandsFor(l: Layout, e: Disk, home: Disk) { WellLogged(l, e) && View(l, e) == home }

  // Every image of a commit's trace stands for the old or the new file system.
  lemma CommitTraceViews(t: seq<Disk>, l: Layout, d: Disk, src: Disk, bl: seq<nat>, k: nat)
    requires WellLogged(l, d) && Listed(d[l.start]) == [] && Room(l, |d|, bl) && Covers(l, d, src, bl)
    ensures var u := CommitTrace(t, l, d, src, bl, k);
            forall i | |t| <= i < |u| :: StandsFor(l, u[i], if i - |t| < |bl| then Home(l, d) else Home(l, src))
  {
    hide CommitImage, CommitTrace, Room, Home, Listed, View;
    var u := CommitTrace(t, l, d, src, bl, k);
    CommitTraceAt(t, l, d, src, bl, k);
    forall i | |t| <= i < |u| ensures StandsFor(l, u[i], if i - |t| < |bl| then Home(l, d) else Home(l, src)) {
      CommitAtomic(l, d, src, bl, i - |t| + 1);
    }
  }

  // No image of a recovery's trace changes the file system.
  lemma RecoverTraceViews(t: seq<Disk>, l: Layout, d: Disk, k: nat)
    requires WellLogged(l, d)
    ensures var u := RecoverTrace(t, l, d, k);
            forall i | |t| <= i < |u| :: StandsFor(l, u[i], View(l, d))
  {
    hide RecoverImage, RecoverTrace;
    var u := RecoverTrace(t, l, d, k);
    RecoverTraceAt(t, l, d, k);
    forall i | |t| <= i < |u| ensures StandsFor(l, u[i], View(l, d)) {
      RecoverKeepsView(l, d, i - |t| + 1);
    }
  }

  lemma HeadImage(l: Layout, d: Disk, src: Disk, bl: seq<nat>, k: nat)
    requires Room(l, |d|, bl) && |src| == |d| && k <= |bl|
    ensures CommitImage(l, d, src, bl, |bl| + 1) == Headed(l, Logged(l, d, src, bl, |bl|), bl)
    ensures CommitImage(l, d, src, bl, |bl| + 1 + k) == Installed(l, CommitImage(l, d, src, bl, |bl| + 1), bl, k)
  {
    hide Room, Logged, Headed;
  }

  // Installing from the committed header continues the commit.
  lemma {:induction false} CommitThenInstall(t: seq<Disk>, l: Layout, d: Disk, src: Disk, bl: seq<nat>, k: nat)
    requires Room(l, |d|, bl) && |src| == |d| && k <= |bl|
    ensures InstallTrace(CommitTrace(t, l, d, src, bl, |bl| + 1), l, CommitImage(l, d, src, bl, |bl| + 1), bl, k)
         == CommitTrace(t, l, d, src, bl, |bl| + 1 + k)
  {
    if k > 0 { CommitThenInstall(t, l, d, src, bl, k - 1); }
  }

  lemma {:induction false} InstallIsRecover(t: seq<Disk>, l: Layout, d: Disk, k: nat)
    requires WellLogged(l, d) && k <= |Listed(d[l.start])|
    ensures InstallTrace(t, l, d, Listed(d[l.start]), k) == RecoverTrace(t, l, d, k)
  {
    if k > 0 { InstallIsRecover(t, l, d, k - 1); }
  }

  lemma HeadThere(l: Layout, d: Disk)
    requires WellLogged(l, d)
    ensures l.start < |d| && Word(d[l.start], 0) <= LOGSIZE && Room(l, |d|, Listed(d[l.start]))
  {
  }

  lemma RoomForNone(l: Layout, d: Disk, bl: seq<nat>)
    requires Room(l, |d|, bl)
    ensures Room(l, |d|, [])
  {
  }

  lemma RecoverBegins(t: seq<Disk>, l: Layout, d: Disk)
    requires WellLogged(l, d)
    ensures RecoverTrace(t, l, d, 0) == t
  {
  }

  // The header write that ends a recovery.
  lemma RecoverEnds(t: seq<Disk>, l: Layout, d: Disk)
    requires WellLogged(l, d)
    ensures var bl := Listed(d[l.start]);
            && Recovered(l, d) == Headed(l, Installed(l, d, bl, |bl|), [])
            && RecoverTrace(t, l, d, |bl| + 1) == RecoverTrace(t, l, d, |bl|) + [Recovered(l, d)]
  {
  }

  // With no buffer in use, one can be recycled exactly if fewer blocks are
  // pinned than there are buffers.
  lemma SpareExactly(bc: Bcache)
    requires bc.Valid() && NoneHeld(bc.bufs)
    ensures Spare(bc.bufs) <==> |DirtyBlocks(bc.bufs)| < |bc.bufs|
    ensures !Spare(bc.bufs) ==> AllPinned(bc.bufs)
  {
    var dirty := DirtyBlocks(bc.bufs);
    if |dirty| < |bc.bufs| {
      forall i | 0 <= i < |bc.bufs| && bc.bufs[i].dirty
        ensures bc.bufs[i].dev == ROOTDEV && bc.bufs[i].blockno in dirty
      {
        assert WellFormed(bc.bufs[i], |bc.disk|);
      }
      CleanBuffer(bc.bufs, dirty);
      var i :| 0 <= i < |bc.bufs| && !bc.bufs[i].dirty;
      assert Reusable(bc.bufs[i]);
    } else {
      forall i | 0 <= i < |bc.bufs| ensures bc.bufs[i].dirty {
        if !bc.bufs[i].dirty { FewerPinned(bc.bufs, i); }
      }
    }
    forall i | 0 <= i < |bc.bufs| && !bc.bufs[i].dirty ensures Reusable(bc.bufs[i]) {}
  }

  lemma {:induction false} CleanBuffer(bufs: seq<Buf>, pinned: set<nat>)
    requires UniqueKeys(bufs) && |pinned| < |bufs|
    requires forall i | 0 <= i < |bufs| && bufs[i].dirty :: bufs[i].dev == ROOTDEV && bufs[i].blockno in pinned
    ensures exists i :: 0 <= i < |bufs| && !bufs[i].dirty
  {
    if bufs[0].dirty {
      var rest := bufs[1..];
      var p := pinned - {bufs[0].blockno};
      assert |p| == |pinned| - 1;
      forall i | 0 <= i < |rest| && rest[i].dirty ensures rest[i].blockno in p {
        assert !Holds(bufs[i + 1], bufs[0].dev, bufs[0].blockno);
      }
      CleanBuffer(rest, p);
      var i :| 0 <= i < |rest| && !rest[i].dirty;
      assert !bufs[i + 1].dirty;
    }
  }

  lemma {:induction false} FewPinned(bufs: seq<Buf>)
    ensures |DirtyBlocks(bufs)| <= |bufs|
  {
    if bufs != [] {
      var n := |bufs| - 1;
      var rest := bufs[..n];
      FewPinned(rest);
      PinnedNext(bufs, n);
    }
  }

  lemma PinnedNext(bufs: seq<Buf>, n: nat)
    requires |bufs| == n + 1
    ensures DirtyBlocks(bufs) == DirtyBlocks(bufs[..n]) + if bufs[n].dirty then {bufs[n].blockno} else {}
  {
    var rest := bufs[..n];
    forall b | b in DirtyBlocks(bufs) ensures b in DirtyBlocks(rest) || (bufs[n].dirty && b == bufs[n].blockno) {
      var i :| 0 <= i < |bufs| && bufs[i].dirty && bufs[i].blockno == b;
      if i < n { assert rest[i] == bufs[i]; }
    }
    forall b | b in DirtyBlocks(rest) ensures b in DirtyBlocks(bufs) {
      var i :| 0 <= i < |rest| && rest[i].dirty && rest[i].blockno == b;
      assert bufs[i] == rest[i];
    }
  }

  lemma {:induction false} FewerPinned(bufs: seq<Buf>, i: nat)
    requires i < |bufs| && !bufs[i].dirty
    ensures |DirtyBlocks(bufs)| < |bufs|
    decreases |bufs|
  {
    var n := |bufs| - 1;
    PinnedNext(bufs, n);
    if i == n { FewPinned(bufs[..n]); } else { FewerPinned(bufs[..n], i); }
  }

  // bread of a log block and of a home block, memmove between them, bwrite of
  // the target, brelse of both: the loop body of write_log and install_trans.
  method Copy(bc: Bcache, logno: nat, home: nat, toLog: bool) returns (ok: bool)
    requires bc.Valid() && bc.editing == {} && Unlocked(bc.bufs, logno) && Unlocked(bc.bufs, home)
    requires logno < |bc.disk| && home < |bc.disk| && logno != home
    modifies bc
    ensures (old(home in DirtyBlocks(bc.bufs)) && Spare(old(bc.bufs))) || TwoSpare(old(bc.bufs)) ==> ok
    ensures AllPinned(old(bc.bufs)) && old(logno !in DirtyBlocks(bc.bufs)) ==> !ok
    ensures !ok ==> bc.disk == old(bc.disk) && bc.trace == old(bc.trace)
    ensures ok ==>
              var from, to := if toLog then home else logno, if toLog then logno else home;
              && bc.Valid() && bc.editing == {} && Undisturbed(old(bc.bufs), bc.bufs)
              && bc.disk == old(bc.disk)[to := old(bc.plain)[from]]
              && bc.plain == old(bc.plain)[to := old(bc.plain)[from]]
              && bc.trace == old(bc.trace) + [bc.disk]
              && DirtyBlocks(bc.bufs) == old(DirtyBlocks(bc.bufs)) - {to}
  {
    hide Bcache.Valid, DirtyBlocks, Spare, TwoSpare, AllPinned, Unlocked;
    var both := ReadBoth(bc, logno, home);
    if both.None? { return false; }
    var (lb, hb) := both.value;
    if toLog { CopyBack(bc, hb, lb); } else { CopyBack(bc, lb, hb); }
    ok := true;
  }

  // What bread did to buffer b to get it for the caller.
  ghost predicate Got(was: Buf, b: Buf) {
    !was.locked && b.dirty == was.dirty && b.refcnt == was.refcnt + 1
  }

  // bread of a block that nobody has locked.
  method Get(bc: Bcache, n: nat) returns (r: Option<nat>)
    requires bc.Valid() && bc.editing == {} && Unlocked(bc.bufs, n) && n < |bc.disk|
    modifies bc`bufs, bc`disk, bc`trace
    ensures Spare(old(bc.bufs)) ==> r.Some?
    ensures bc.Valid() && bc.disk == old(bc.disk) && bc.trace == old(bc.trace)
    ensures |bc.bufs| == |old(bc.bufs)| && DirtyBlocks(bc.bufs) == old(DirtyBlocks(bc.bufs))
    ensures r.Some? ==>
              && r.value < |bc.bufs| && LockedBlock(bc.bufs[r.value], n, bc.plain)
              && bc.bufs == old(bc.bufs)[r.value := bc.bufs[r.value]] && Got(old(bc.bufs)[r.value], bc.bufs[r.value])
  {
    hide Bcache.Valid, DirtyBlocks;
    r := bc.Bread(n);
  }

  // The two breads.
  method ReadBoth(bc: Bcache, logno: nat, home: nat) returns (r: Option<(nat, nat)>)
    requires bc.Valid() && bc.editing == {} && Unlocked(bc.bufs, logno) && Unlocked(bc.bufs, home)
    requires logno < |bc.disk| && home < |bc.disk| && logno != home
    modifies bc`bufs, bc`disk, bc`trace
    ensures (old(home in DirtyBlocks(bc.bufs)) && Spare(old(bc.bufs))) || TwoSpare(old(bc.bufs)) ==> r.Some?
    ensures AllPinned(old(bc.bufs)) && old(logno !in DirtyBlocks(bc.bufs)) ==> r.None?
    ensures bc.Valid() && bc.disk == old(bc.disk) && bc.trace == old(bc.trace)
    ensures |bc.bufs| == |old(bc.bufs)| && DirtyBlocks(bc.bufs) == old(DirtyBlocks(bc.bufs))
    ensures r.Some? ==>
              var (lb, hb) := r.value;
              && lb < |bc.bufs| && hb < |bc.bufs| && lb != hb
              && LockedBlock(bc.bufs[lb], logno, bc.plain) && LockedBlock(bc.bufs[hb], home, bc.plain)
              && bc.bufs == old(bc.bufs)[lb := bc.bufs[lb]][hb := bc.bufs[hb]]
              && Got(old(bc.bufs)[lb], bc.bufs[lb]) && Got(old(bc.bufs)[hb], bc.bufs[hb])
  {
    hide Bcache.Valid, DirtyBlocks;
    ghost var dirty := DirtyBlocks(bc.bufs);
    NotPinned(bc, logno);
    PinnedHeld(bc, home);
    var lb := bc.Bread(logno);
    if lb.None? { return None; }
    if i, j :| 0 <= i < j < |bc.bufs| && Reusable(old(bc.bufs)[i]) && Reusable(old(bc.bufs)[j]) {
      assert Reusable(bc.bufs[if i == lb.value then j else i]);
    }
    PinnedHeld(bc, home);
    var hb := bc.Bread(home);
    if hb.None? { return None; }
    r := Some((lb.value, hb.value));
  }

  // A pinned block is in the cache; one that is not pinned is not, if all are.
  lemma PinnedHeld(bc: Bcache, n: nat)
    requires bc.Valid()
    ensures n in DirtyBlocks(bc.bufs) ==> exists i :: 0 <= i < |bc.bufs| && Holds(bc.bufs[i], ROOTDEV, n)
  {
    if n in DirtyBlocks(bc.bufs) {
      var i :| 0 <= i < |bc.bufs| && bc.bufs[i].dirty && bc.bufs[i].blockno == n;
      assert WellFormed(bc.bufs[i], |bc.disk|);
      assert Holds(bc.bufs[i], ROOTDEV, n);
    }
  }

  lemma NotPinned(bc: Bcache, n: nat)
    requires bc.Valid()
    ensures AllPinned(bc.bufs) && n !in DirtyBlocks(bc.bufs) ==>
              forall i | 0 <= i < |bc.bufs| :: !Holds(bc.bufs[i], ROOTDEV, n) && !Reusable(bc.bufs[i])
  {
  }

  // Change a locked buffer and bwrite it.
  method Put(bc: Bcache, i: nat, data: Block)
    requires bc.Valid() && bc.editing == {} && i < |bc.bufs|
    requires LockedBlock(bc.bufs[i], bc.bufs[i].blockno, bc.plain)
    modifies bc`bufs, bc`editing, bc`plain, bc`disk, bc`trace
    ensures var n := old(bc.bufs)[i].blockno;
            && n < |old(bc.disk)| && n < |old(bc.plain)|
            && bc.disk == old(bc.disk)[n := data] && bc.plain == old(bc.plain)[n := data]
            && bc.trace == old(bc.trace) + [bc.disk]
            && DirtyBlocks(bc.bufs) == old(DirtyBlocks(bc.bufs)) - {n}
    ensures bc.Valid() && bc.editing == {}
    ensures bc.bufs == old(bc.bufs)[i := old(bc.bufs)[i].(data := data, dirty := false)]
  {
    bc.Edit(i, data);
    var ok := bc.Bwrite(i);
  }

  // The same, and brelse.
  method PutRelease(bc: Bcache, i: nat, data: Block)
    requires bc.Valid() && bc.editing == {} && i < |bc.bufs|
    requires LockedBlock(bc.bufs[i], bc.bufs[i].blockno, bc.plain)
    modifies bc
    ensures var n := old(bc.bufs)[i].blockno;
            && n < |old(bc.disk)| && n < |old(bc.plain)|
            && bc.disk == old(bc.disk)[n := data] && bc.plain == old(bc.plain)[n := data]
            && bc.trace == old(bc.trace) + [bc.disk]
            && DirtyBlocks(bc.bufs) == old(DirtyBlocks(bc.bufs)) - {n}
    ensures bc.Valid() && bc.editing == {}
    ensures bc.bufs == old(bc.bufs)[i := old(bc.bufs)[i].(data := data, dirty := false, locked := false,
                                                          refcnt := old(bc.bufs)[i].refcnt - 1)]
  {
    hide Bcache.Valid, DirtyBlocks;
    Put(bc, i, data);
    bc.Brelse(i);
  }

  // memmove, bwrite, and the two brelses.
  method CopyBack(bc: Bcache, from: nat, to: nat)
    requires bc.Valid() && bc.editing == {} && from < |bc.bufs| && to < |bc.bufs| && from != to
    requires LockedBlock(bc.bufs[from], bc.bufs[from].blockno, bc.plain)
    requires LockedBlock(bc.bufs[to], bc.bufs[to].blockno, bc.plain)
    modifies bc
    ensures bc.Valid() && bc.editing == {} && |bc.bufs| == |old(bc.bufs)|
    ensures forall i | 0 <= i < |bc.bufs| ::
              if i == from || i == to then
                && bc.bufs[i].refcnt == old(bc.bufs)[i].refcnt - 1 && !bc.bufs[i].locked
                && (bc.bufs[i].dirty ==> old(bc.bufs)[i].dirty)
              else bc.bufs[i] == old(bc.bufs)[i]
    ensures var n, data := old(bc.bufs)[to].blockno, old(bc.bufs)[from].data;
            && n < |old(bc.disk)| && bc.disk == old(bc.disk)[n := data] && bc.plain == old(bc.plain)[n := data]
            && bc.trace == old(bc.trace) + [bc.disk]
            && DirtyBlocks(bc.bufs) == old(DirtyBlocks(bc.bufs)) - {n}
  {
    hide Bcache.Valid, DirtyBlocks;
    Put(bc, to, bc.bufs[from].data);
    bc.Brelse(from);
    bc.Brelse(to);
  }

  // The loop of write_head that fills in the header block.
  method FillHeader(h0: Block, bl: seq<nat>) returns (h: Block)
    requires |bl| <= LOGSIZE && AreWords(bl)
    ensures h == Header(h0, bl)
  {
    h := SetWord(h0, 0, |bl|);
    var i := 0;
    while i < |bl|
      invariant 0 <= i <= |bl| && h == SetWords(SetWord(h0, 0, |bl|), 1, bl, i)
    {
      h := SetWord(h, i + 1, bl[i]);
      i := i + 1;
    }
  }

  // The loop of read_head that copies the header out.
  method CopyHeader(h: Block) returns (bl: seq<nat>)
    requires Word(h, 0) <= LOGSIZE
    ensures bl == Listed(h)
  {
    bl := [];
    var i := 0;
    while i < Word(h, 0)
      invariant 0 <= i <= Word(h, 0) && bl == Listed(h)[..i]
    {
      bl := bl + [Word(h, i + 1)];
      i := i + 1;
    }
  }

  class Log {
    const l: Layout
    const bc: Bcache
    var lh: seq<nat>        // log.lh: n is |lh|
    var outstanding: int
    var committing: bool

    // initlog before recovery
    constructor (l: Layout, bc: Bcache)
      ensures this.l == l && this.bc == bc && lh == [] && outstanding == 0 && !committing
    {
      this.l, this.bc := l, bc;
      lh, outstanding, committing := [], 0, false;
    }

    // Nobody is changing a buffer or has locked one that a commit uses, lh fits
    // the log, and no log block is pinned.  Readers may have other buffers.
    ghost predicate Ready()
      reads this, bc
    {
      && bc.Valid() && bc.editing == {} && Quiet(bc.bufs, lh)
        && Room(l, |bc.disk|, lh)
        && forall n | n in DirtyBlocks(bc.bufs) :: !InLog(l, n)
    }

    ghost predicate Quiet(bufs: seq<Buf>, bl: seq<nat>) {
      forall n | InLog(l, n) || n in bl :: Unlocked(bufs, n)
    }

    // The pinned blocks are exactly those of the open transaction.
    ghost predicate Pinned()
      reads this, bc
    {
      Distinct(lh) && DirtyBlocks(bc.bufs) == Elems(lh)
    }

    // Where write_log is after k blocks, when it started from disk d with the
    // kernel seeing src.
    ghost predicate Logging(d: Disk, src: Disk, k: nat)
      reads this, bc
    {
      && Ready() && Pinned() && |src| == |d| == |bc.disk| && k <= |lh| && Room(l, |d|, lh)
        && bc.disk == Logged(l, d, src, lh, k)
        && forall n | 0 <= n < |d| && !InLog(l, n) :: bc.plain[n] == src[n]
    }

    // One turn of the loop of write_log.
    method LogOne(tail: nat, ghost d: Disk, ghost src: Disk) returns (ok: bool)
      requires Logging(d, src, tail) && tail < |lh|
      modifies bc
      ensures Spare(old(bc.bufs)) ==> ok
      ensures AllPinned(old(bc.bufs)) ==> !ok
      ensures !ok ==> bc.trace == old(bc.trace)
      ensures ok ==> Logging(d, src, tail + 1) && bc.trace == old(bc.trace) + [CommitImage(l, d, src, lh, tail + 1)]
      ensures ok && Spare(old(bc.bufs)) ==> Spare(bc.bufs)
    {
      assert !InLog(l, lh[tail]) && bc.plain[lh[tail]] == src[lh[tail]] && lh[tail] in Elems(lh);
      hide Bcache.Valid, DirtyBlocks, Elems, Distinct, Undisturbed, Unlocked;
      ghost var was := bc.bufs;
      ok := Copy(bc, l.start + tail + 1, lh[tail], true);
      if ok { StillQuiet(was, bc.bufs, lh); }
    }

    lemma StillQuiet(was: seq<Buf>, bufs: seq<Buf>, bl: seq<nat>)
      requires Quiet(was, bl) && Undisturbed(was, bufs)
      ensures Quiet(bufs, bl) && (Spare(was) ==> Spare(bufs)) && (TwoSpare(was) ==> TwoSpare(bufs))
    {
      forall n | InLog(l, n) || n in bl ensures Unlocked(bufs, n) { assert Unlocked(was, n); }
    }

    // write_log; done says how many blocks were written before a panic, if any.
    method WriteLog() returns (ok: bool, ghost done: nat)
      requires Logging(bc.disk, bc.plain, 0)
      modifies bc
      ensures Spare(old(bc.bufs)) ==> ok
      ensures AllPinned(old(bc.bufs)) && lh != [] ==> !ok && done == 0
      ensures done <= |lh| && bc.trace == CommitTrace(old(bc.trace), l, old(bc.disk), old(bc.plain), lh, done)
      ensures ok ==> done == |lh| && Logging(old(bc.disk), old(bc.plain), |lh|)
      ensures ok && Spare(old(bc.bufs)) ==> Spare(bc.bufs)
    {
      hide Bcache.Valid, DirtyBlocks, Spare, AllPinned, Pinned;
      ghost var d, src, t := bc.disk, bc.plain, bc.trace;
      var tail := 0;
      while tail < |lh|
        invariant 0 <= tail <= |lh| && Logging(d, src, tail)
        invariant Spare(old(bc.bufs)) ==> Spare(bc.bufs)
        invariant tail == 0 ==> bc.bufs == old(bc.bufs)
        invariant tail > 0 ==> !AllPinned(old(bc.bufs))
        invariant bc.trace == CommitTrace(t, l, d, src, lh, tail)
      {
        done := tail;
        ok := LogOne(tail, d, src);
        if !ok { return; }
        CommitTraceNext(t, l, d, src, lh, tail);
        tail := tail + 1;
      }
      ok, done := true, |lh|;
    }

    // write_head
    method WriteHead() returns (ok: bool)
      requires Ready()
      modifies bc
      ensures Spare(old(bc.bufs)) ==> ok
      ensures !ok ==> bc.trace == old(bc.trace)
      ensures ok ==>
                && Ready() && Undisturbed(old(bc.bufs), bc.bufs) && DirtyBlocks(bc.bufs) == old(DirtyBlocks(bc.bufs))
                && bc.disk == Headed(l, old(bc.disk), lh) && bc.trace == old(bc.trace) + [bc.disk]
    {
      hide Bcache.Valid, DirtyBlocks, Unlocked, Spare;
      HeadSeen();
      ghost var was := bc.bufs;
      var b := Get(bc, l.start);
      if b.None? { return false; }
      var h := FillHeader(bc.bufs[b.value].data, lh);
      PutRelease(bc, b.value, h);
      StillQuiet(was, bc.bufs, lh);
      ok := true;
    }

    // Where install_trans is after k blocks, when it started from disk d.
    ghost predicate Installing(d: Disk, k: nat)
      reads this, bc
    {
      && Ready() && |d| == |bc.disk| && k <= |lh| && Room(l, |d|, lh)
        && bc.disk == Installed(l, d, lh, k)
        && DirtyBlocks(bc.bufs) !! Elems(lh[..k])
    }

    // There are two buffers to spare, or one and the remaining home blocks are
    // pinned.
    ghost predicate CanInstall(k: nat)
      reads this, bc
    {
      || (Spare(bc.bufs) && Distinct(lh) && forall j | k <= j < |lh| :: lh[j] in DirtyBlocks(bc.bufs))
        || TwoSpare(bc.bufs)
    }

    // One turn of the loop of install_trans.
    method InstallOne(tail: nat, ghost d: Disk) returns (ok: bool)
      requires Installing(d, tail) && tail < |lh|
      modifies bc
      ensures old(CanInstall(tail)) ==> ok
      ensures !ok ==> bc.trace == old(bc.trace)
      ensures ok ==> Installing(d, tail + 1) && bc.trace == old(bc.trace) + [Installed(l, d, lh, tail + 1)]
      ensures ok ==> DirtyBlocks(bc.bufs) == old(DirtyBlocks(bc.bufs)) - {lh[tail]}
      ensures ok ==> Undisturbed(old(bc.bufs), bc.bufs)
      ensures ok && old(CanInstall(tail)) ==> CanInstall(tail + 1)
    {
      hide Undisturbed, Unlocked, Spare, TwoSpare;
      ghost var was := bc.bufs;
      InstalledLog(l, d, lh, tail, l.start + tail + 1);
      ok := Copy(bc, l.start + tail + 1, lh[tail], false);
      assert lh[..tail + 1] == lh[..tail] + [lh[tail]];
      if ok { StillQuiet(was, bc.bufs, lh); }
    }

    // install_trans
    method InstallTrans() returns (ok: bool, ghost done: nat)
      requires Installing(bc.disk, 0)
      modifies bc
      ensures old(CanInstall(0)) ==> ok
      ensures done <= |lh| && bc.trace == InstallTrace(old(bc.trace), l, old(bc.disk), lh, done)
      ensures ok ==> done == |lh| && Installing(old(bc.disk), |lh|)
      ensures ok ==> DirtyBlocks(bc.bufs) <= old(DirtyBlocks(bc.bufs))
      ensures ok && old(CanInstall(0)) ==> CanInstall(|lh|)
    {
      hide Bcache.Valid, DirtyBlocks, CanInstall;
      ghost var d, t := bc.disk, bc.trace;
      var tail := 0;
      while tail < |lh|
        invariant 0 <= tail <= |lh| && Installing(d, tail)
        invariant DirtyBlocks(bc.bufs) <= old(DirtyBlocks(bc.bufs))
        invariant old(CanInstall(0)) ==> CanInstall(tail)
        invariant bc.trace == InstallTrace(t, l, d, lh, tail)
      {
        done := tail;
        ok := InstallOne(tail, d);
        if !ok { return; }
        tail := tail + 1;
      }
      ok, done := true, |lh|;
    }

    // The on-disk log is empty.
    ghost predicate Empty()
      reads bc
    {
      WellLogged(l, bc.disk) && Listed(bc.disk[l.start]) == []
    }

    // commit.  Whatever happens, each disk image on the way stands for the
    // file system before the transaction or the one after it; if nothing
    // panics the disk ends up holding the new one and the log is empty.  It
    // goes through if a buffer can be recycled.  If every buffer is pinned it
    // panics before its first write.
    method Commit() returns (ok: bool, ghost done: nat)
      requires Ready() && Pinned() && Empty()
      modifies this`lh, bc
      ensures Spare(old(bc.bufs)) || old(lh) == [] ==> ok
      ensures AllPinned(old(bc.bufs)) && old(lh) != [] ==> !ok && done == 0
      ensures NoneHeld(old(bc.bufs)) ==> (ok <==> old(lh) == [] || |old(DirtyBlocks(bc.bufs))| < |old(bc.bufs)|)
      ensures done <= 2 * |old(lh)| + 2
      ensures bc.trace == CommitTrace(old(bc.trace), l, old(bc.disk), old(bc.plain), old(lh), done)
      ensures forall i | |old(bc.trace)| <= i < |bc.trace| ::
                var fs := if i - |old(bc.trace)| < |old(lh)| then old(bc.disk) else old(bc.plain);
                StandsFor(l, bc.trace[i], Home(l, fs))
      ensures ok ==> Ready() && Pinned() && Empty() && lh == []
      ensures ok ==> bc.plain == bc.disk && Home(l, bc.disk) == Home(l, old(bc.plain))
    {
      hide Bcache.Valid, Spare, AllPinned, NoneHeld, DirtyBlocks, CommitImage, Home, Pinned, Logging, StandsFor,
        Covers, Quiet;
      ghost var d, src, bl := bc.disk, bc.plain, lh;
      CommitReady();
      if NoneHeld(bc.bufs) { SpareExactly(bc); }
      done := 0;
      if |lh| > 0 {
        ok, done := WriteLog();
        if ok { ok, done := Finish(old(bc.trace), d, src); }
        CommitAtomic(l, d, src, bl, 2 * |bl| + 2);
      } else {
        ok := true;
      }
      if ok { AllClean(); }
      CommitTraceViews(old(bc.trace), l, d, src, bl, done);
    }

    // lh covers everything the disk does not have yet.
    lemma CommitReady()
      requires Ready() && Pinned()
      ensures Logging(bc.disk, bc.plain, 0) && Covers(l, bc.disk, bc.plain, lh)
      ensures lh == [] ==> DirtyBlocks(bc.bufs) == {}
    {
    }

    lemma AllClean()
      requires bc.Valid() && DirtyBlocks(bc.bufs) == {} && lh == []
      ensures bc.plain == bc.disk && Pinned()
    {
    }

    // commit from the first write_head on; t is the trace before the commit.
    method Finish(ghost t: seq<Disk>, ghost d: Disk, ghost src: Disk) returns (ok: bool, ghost done: nat)
      requires Logging(d, src, |lh|) && bc.trace == CommitTrace(t, l, d, src, lh, |lh|)
      modifies this`lh, bc
      ensures Spare(old(bc.bufs)) ==> ok
      ensures done <= 2 * |old(lh)| + 2 && bc.trace == CommitTrace(t, l, d, src, old(lh), done)
      ensures ok ==> Ready() && lh == [] && bc.disk == CommitImage(l, d, src, old(lh), 2 * |old(lh)| + 2)
      ensures ok ==> DirtyBlocks(bc.bufs) == {}
    {
      hide Bcache.Valid, DirtyBlocks, Spare, Undisturbed, Unlocked, CommitTrace;
      ghost var bl, n := lh, |lh|;
      ok, done := HeadAndInstall(t, d, src);
      if !ok { return; }
      lh := [];
      ok := WriteHead();
      if ok {
        CommitTraceNext(t, l, d, src, bl, 2 * n + 1);
        done := 2 * n + 2;
      }
    }

    // The header write that commits, and install_trans.
    method HeadAndInstall(ghost t: seq<Disk>, ghost d: Disk, ghost src: Disk) returns (ok: bool, ghost done: nat)
      requires Logging(d, src, |lh|) && bc.trace == CommitTrace(t, l, d, src, lh, |lh|)
      modifies bc
      ensures Spare(old(bc.bufs)) ==> ok
      ensures done <= 2 * |lh| + 1 && bc.trace == CommitTrace(t, l, d, src, lh, done)
      ensures ok ==> done == 2 * |lh| + 1 && Ready() && bc.disk == CommitImage(l, d, src, lh, 2 * |lh| + 1)
      ensures ok ==> DirtyBlocks(bc.bufs) == {}
      ensures ok && Spare(old(bc.bufs)) ==> Spare(bc.bufs)
    {
      hide Bcache.Valid, DirtyBlocks, Spare, Undisturbed, Unlocked, CommitTrace, CommitImage, InstallTrace, Room, Quiet;
      hide Distinct, Elems, Installing, CanInstall;
      ghost var was := bc.bufs;
      done := |lh|;
      ok := WriteHead();
      if !ok { return; }
      StillQuiet(was, bc.bufs, lh);
      CommitTraceNext(t, l, d, src, lh, |lh|);
      HeadImage(l, d, src, lh, 0);
      StartInstall();
      ghost var k, head := 0, bc.disk;
      ok, k := InstallTrans();
      CommitThenInstall(t, l, d, src, lh, k);
      done := |lh| + 1 + k;
      if ok {
        HeadImage(l, d, src, lh, k);
        EndInstall(head);
      }
    }

    lemma StartInstall()
      requires Ready() && Pinned()
      ensures Installing(bc.disk, 0) && (Spare(bc.bufs) ==> CanInstall(0))
    {
      hide Bcache.Valid, Spare, TwoSpare, DirtyBlocks, Unlocked;
      assert lh[..0] == [];
    }

    lemma EndInstall(d: Disk)
      requires Installing(d, |lh|) && DirtyBlocks(bc.bufs) <= Elems(lh)
      ensures Ready() && bc.disk == Installed(l, d, lh, |lh|) && DirtyBlocks(bc.bufs) == {}
      ensures CanInstall(|lh|) ==> Spare(bc.bufs)
    {
      hide Bcache.Valid, Spare, TwoSpare, DirtyBlocks, Unlocked;
      assert lh[..|lh|] == lh;
      TwoIsOne(bc.bufs);
    }

    // read_head
    method ReadHead() returns (ok: bool)
      requires Ready() && WellLogged(l, bc.disk) && forall i | 0 <= i < |bc.bufs| :: !bc.bufs[i].locked
      modifies this`lh, bc
      ensures Spare(old(bc.bufs)) ==> ok
      ensures bc.trace == old(bc.trace) && bc.disk == old(bc.disk)
      ensures ok ==> Ready() && lh == Listed(bc.disk[l.start]) && DirtyBlocks(bc.bufs) == old(DirtyBlocks(bc.bufs))
      ensures ok ==> Undisturbed(old(bc.bufs), bc.bufs)
    {
      hide Bcache.Valid, DirtyBlocks, Unlocked, Undisturbed, Spare, Room, Listed;
      HeadSeen();
      var b := Get(bc, l.start);
      if b.None? { return false; }
      ghost var got := bc.bufs;
      lh := CopyHeader(bc.bufs[b.value].data);
      bc.Brelse(b.value);
      PutBack(old(bc.bufs), got, bc.bufs, b.value, lh);
      ok := true;
    }

    // The header block is as the disk has it, and no one is using it.
    lemma HeadSeen()
      requires Ready()
      ensures Unlocked(bc.bufs, l.start) && l.start < |bc.plain| == |bc.disk|
      ensures bc.plain[l.start] == bc.disk[l.start]
    {
    }

    // A buffer taken and released again is as free as it was.
    lemma PutBack(was: seq<Buf>, got: seq<Buf>, bufs: seq<Buf>, b: nat, bl: seq<nat>)
      requires forall i | 0 <= i < |was| :: !was[i].locked
      requires b < |was| == |got| && got == was[b := got[b]] && Got(was[b], got[b])
      requires bufs == got[b := got[b].(locked := false, refcnt := got[b].refcnt - 1)]
      ensures Undisturbed(was, bufs) && Quiet(bufs, bl)
    {
    }

    // recover_from_log at boot, with a clean cache of at least two buffers.
    // Every disk image on the way stands for the same file system, and at the
    // end that is what the home blocks hold.
    method Recover() returns (ok: bool, ghost done: nat)
      requires Ready() && WellLogged(l, bc.disk) && DirtyBlocks(bc.bufs) == {} && NoneHeld(bc.bufs)
      modifies this`lh, bc
      ensures |old(bc.bufs)| >= 2 ==> ok
      ensures bc.trace == RecoverTrace(old(bc.trace), l, old(bc.disk), done)
      ensures forall i | |old(bc.trace)| <= i < |bc.trace| :: StandsFor(l, bc.trace[i], View(l, old(bc.disk)))
      ensures ok ==> Ready() && Pinned() && Empty() && lh == []
      ensures ok ==> bc.plain == bc.disk == Recovered(l, old(bc.disk)) && Home(l, bc.disk) == View(l, old(bc.disk))
    {
      hide Bcache.Valid, RecoverTrace, StandsFor, WellLogged, Recovered;
      ghost var d, t := bc.disk, bc.trace;
      ok, done := Replay();
      if ok {
        AllClean();
        RecoverKeepsView(l, d, done);
      }
      RecoverTraceViews(t, l, d, done);
    }

    method Replay() returns (ok: bool, ghost done: nat)
      requires Ready() && WellLogged(l, bc.disk) && DirtyBlocks(bc.bufs) == {} && NoneHeld(bc.bufs)
      modifies this`lh, bc
      ensures |old(bc.bufs)| >= 2 ==> ok
      ensures bc.trace == RecoverTrace(old(bc.trace), l, old(bc.disk), done)
      ensures ok ==> Ready() && lh == [] && DirtyBlocks(bc.bufs) == {}
      ensures ok ==> done == |Listed(old(bc.disk)[l.start])| + 1 && bc.disk == Recovered(l, old(bc.disk))
    {
      hide DirtyBlocks, Spare, TwoSpare, Undisturbed, Unlocked, Bcache.Valid, Installing, CanInstall, Room, Elems;
      hide InstallTrace, RecoverTrace, Recovered, WellLogged;
      ghost var d, t, was := bc.disk, bc.trace, bc.bufs;
      IdleCache(bc);
      TwoIsOne(bc.bufs);
      HeadThere(l, d);
      done := 0;
      RecoverBegins(t, l, d);
      ok := ReadHead();
      if !ok { return; }
      StillQuiet(was, bc.bufs, []);
      StartReplay();
      ok, done := InstallTrans();
      InstallIsRecover(t, l, d, done);
      if !ok { return; }
      EndInstall(d);
      RecoverEnds(t, l, d);
      lh := [];
      RoomForNone(l, bc.disk, Listed(d[l.start]));
      ok := WriteHead();
      if ok { done := done + 1; }
    }

    lemma StartReplay()
      requires Ready() && DirtyBlocks(bc.bufs) == {}
      ensures Installing(bc.disk, 0) && (TwoSpare(bc.bufs) ==> CanInstall(0))
    {
      hide Bcache.Valid, Spare, TwoSpare, DirtyBlocks, Unlocked;
      assert lh[..0] == [];
    }

    // log_write of a locked buffer the caller has changed; false is a panic.
    // The change becomes what the kernel sees, the block is pinned, and lh
    // lists it once.
    method LogWrite(i: nat) returns (ok: bool)
      requires bc.Valid() && Pinned() && i < |bc.bufs| && bc.bufs[i].locked && bc.bufs[i].valid
      modifies this`lh, bc
      ensures ok <==> |old(lh)| < LOGSIZE && |old(lh)| < l.size - 1 && outstanding >= 1
      ensures !ok ==> lh == old(lh) && bc.bufs == old(bc.bufs) && bc.plain == old(bc.plain)
      ensures bc.Valid() && Pinned() && bc.disk == old(bc.disk) && bc.trace == old(bc.trace)
      ensures ok ==>
                && lh == (if old(bc.bufs)[i].blockno in old(lh) then old(lh) else old(lh) + [old(bc.bufs)[i].blockno])
                && bc.plain == old(bc.plain)[old(bc.bufs)[i].blockno := old(bc.bufs)[i].data]
                && bc.bufs == old(bc.bufs)[i := old(bc.bufs)[i].(dirty := true)]
                && bc.editing == old(bc.editing) - {i}
    {
      hide Bcache.Valid, DirtyBlocks, Elems, Distinct;
      if |lh| >= LOGSIZE || |lh| >= l.size - 1 || outstanding < 1 { return false; }
      var b := bc.bufs[i].blockno;
      var k := 0;
      while k < |lh| && lh[k] != b
        invariant 0 <= k <= |lh| && b !in lh[..k]
      {
        k := k + 1;
      }
      AbsorbOnce(lh, b);
      assert k < |lh| ==> lh[k := b] == lh && b in lh;
      if k == |lh| {
        lh := lh + [b];
      } else {
        lh := lh[k := b];
      }
      bc.Pin(i);
      ok := true;
    }

    // One pass of begin_op's loop; false means sleep and look again.
    method TryBegin() returns (admitted: bool)
      modifies this`outstanding
      ensures admitted <==> !committing && |lh| + (old(outstanding) + 1) * MAXOPBLOCKS <= LOGSIZE
      ensures outstanding == old(outstanding) + if admitted then 1 else 0
    {
      if committing || |lh| + (outstanding + 1) * MAXOPBLOCKS > LOGSIZE { return false; }
      outstanding := outstanding + 1;
      admitted := true;
    }

    // end_op; false is the "log.committing" panic or one inside commit.
    method EndOp() returns (ok: bool)
      requires outstanding > 0
      requires outstanding == 1 ==> Ready() && Pinned() && Empty()
      modifies this`outstanding, this`committing, this`lh, bc
      ensures outstanding == old(outstanding) - 1
      ensures old(committing) ==> !ok
      ensures old(committing) || outstanding > 0 ==> lh == old(lh) && unchanged(bc)
      ensures !old(committing) && outstanding > 0 ==> ok && !committing
      ensures !old(committing) && outstanding == 0 ==>
                forall i | |old(bc.trace)| <= i < |bc.trace| ::
                  var fs := if i - |old(bc.trace)| < |old(lh)| then old(bc.disk) else old(bc.plain);
                  StandsFor(l, bc.trace[i], Home(l, fs))
      ensures !old(committing) && outstanding == 0 ==>
                && (Spare(old(bc.bufs)) || old(lh) == [] ==> ok)
                && (AllPinned(old(bc.bufs)) && old(lh) != [] ==> !ok)
                && (ok ==> !committing && Ready() && Pinned() && Empty() && lh == [])
                && (ok ==> bc.disk == bc.plain && Home(l, bc.plain) == Home(l, old(bc.plain)))
    {
      hide Bcache.Valid, DirtyBlocks, Spare, AllPinned, WellLogged, Home, StandsFor;
      outstanding := outstanding - 1;
      if committing { return false; }
      ok := true;
      if outstanding == 0 {
        committing := true;
        ghost var done;
        ok, done := Commit();
        committing := false;
      }
    }
  }

  lemma TwoIsOne(bufs: seq<Buf>)
    ensures TwoSpare(bufs) ==> Spare(bufs)
  {
  }

  lemma DirtyIn(bufs: seq<Buf>)
    ensures forall i | 0 <= i < |bufs| && bufs[i].dirty :: bufs[i].blockno in DirtyBlocks(bufs)
  {
  }

  // At boot every buffer is free for use.
  lemma IdleCache(bc: Bcache)
    requires bc.Valid() && DirtyBlocks(bc.bufs) == {} && NoneHeld(bc.bufs)
    ensures forall i | 0 <= i < |bc.bufs| :: !bc.bufs[i].locked && Reusable(bc.bufs[i])
    ensures |bc.bufs| >= 2 ==> TwoSpare(bc.bufs)
  {
    DirtyIn(bc.bufs);
    forall i | 0 <= i < |bc.bufs| ensures !bc.bufs[i].locked && Reusable(bc.bufs[i]) {
      assert WellFormed(bc.bufs[i], |bc.disk|);
    }
    if |bc.bufs| >= 2 { assert Reusable(bc.bufs[0]) && Reusable(bc.bufs[1]); }
  }

  // --- a commit that panics ---

  const NBUF: nat := MAXOPBLOCKS * 3

  lemma {:induction false} ElemsCount(bl: seq<nat>)
    requires Distinct(bl)
    ensures |Elems(bl)| == |bl|
  {
    if bl != [] {
      var n := |bl| - 1;
      ElemsCount(bl[..n]);
      assert Elems(bl) == Elems(bl[..n]) + {bl[n]};
    }
  }

  // k blocks are listed and pinned, from the first home block after the log on.
  ghost predicate Listing(log: Log, image: Disk, k: nat)
    reads log, log.bc
  {
    && log.bc.Valid() && log.bc.editing == {} && NoneHeld(log.bc.bufs) && |log.bc.bufs| == NBUF && log.bc.disk == image
    && log.Pinned() && |log.lh| == k && forall i | 0 <= i < k :: log.lh[i] == log.l.start + log.l.size + i
  }

  // Three operations that use up their reservations pin LOGSIZE blocks.  NBUF
  // is no larger, so the commit by the last of them finds no buffer.
  method FullCachePanics(l: Layout, image: Disk) returns (ok: bool)
    requires WellLogged(l, image) && Listed(image[l.start]) == []
    requires l.size > LOGSIZE && l.start + l.size + LOGSIZE <= |image| <= TWO_TO_THE_32
    ensures !ok
  {
    hide Listing, WellLogged, AllPinned, Bcache.Valid, DirtyBlocks, Elems, Distinct, Room, Unlocked, StandsFor, Home;
    var log := ThreeBegin(l, image);
    var k := 0;
    while k < LOGSIZE
      invariant 0 <= k <= LOGSIZE && log.outstanding == 3 && !log.committing && Listing(log, image, k)
    {
      LogNext(log, image, k);
      k := k + 1;
    }
    LastEnd(log, image);
    var _ := log.EndOp();
    var _ := log.EndOp();
    ok := log.EndOp();
  }

  // A fresh cache and log with three operations begun.
  method ThreeBegin(l: Layout, image: Disk) returns (log: Log)
    requires WellLogged(l, image)
    ensures fresh(log) && fresh(log.bc) && log.l == l && log.outstanding == 3 && !log.committing
    ensures Listing(log, image, 0)
  {
    hide Bcache.Valid, WellLogged;
    var bc := new Bcache(NBUF, image);
    log := new Log(l, bc);
    var _ := log.TryBegin();
    var _ := log.TryBegin();
    var _ := log.TryBegin();
  }

  // bread, a change, log_write and brelse of the next block.
  method LogNext(log: Log, image: Disk, k: nat)
    requires Listing(log, image, k) && k < LOGSIZE && log.outstanding == 3 && !log.committing
    requires log.l.size > LOGSIZE && log.l.start + log.l.size + LOGSIZE <= |image| <= TWO_TO_THE_32
    modifies log`lh, log.bc
    ensures Listing(log, image, k + 1)
  {
    hide Bcache.Valid, DirtyBlocks, Spare, Elems, Distinct, Unlocked;
    var bc, b := log.bc, log.l.start + log.l.size + k;
    HasSpare(log, image, k);
    assert b !in log.lh;
    var r := Get(bc, b);
    bc.Edit(r.value, ZeroBlock());
    var _ := log.LogWrite(r.value);
    bc.Brelse(r.value);
  }

  lemma HasSpare(log: Log, image: Disk, k: nat)
    requires Listing(log, image, k) && k < NBUF
    ensures Spare(log.bc.bufs) && forall n :: Unlocked(log.bc.bufs, n)
  {
    ElemsCount(log.lh);
    SpareExactly(log.bc);
    forall i | 0 <= i < |log.bc.bufs| ensures !log.bc.bufs[i].locked {
      assert WellFormed(log.bc.bufs[i], |log.bc.disk|);
    }
  }

  lemma LastEnd(log: Log, image: Disk)
    requires Listing(log, image, LOGSIZE) && WellLogged(log.l, image) && Listed(image[log.l.start]) == []
    requires log.l.size > LOGSIZE && log.l.start + log.l.size + LOGSIZE <= |image| <= TWO_TO_THE_32
    ensures log.Ready() && log.Pinned() && log.Empty() && AllPinned(log.bc.bufs) && |log.lh| == LOGSIZE
  {
    ElemsCount(log.lh);
    SpareExactly(log.bc);
    forall i | 0 <= i < |log.bc.bufs| ensures !log.bc.bufs[i].locked {
      assert WellFormed(log.bc.bufs[i], |log.bc.disk|);
    }
  }
}
