// The on-disk redo log of log.c, as functions on disk images.  A disk image
// changes one block at a time; a crash leaves the image of some moment.
module LogDisk {
  import opened Blocks

  const MAXOPBLOCKS: nat := 10
  const LOGSIZE: nat := MAXOPBLOCKS * 3

  // log.start and log.size: the header block, then the logged blocks.
  datatype Layout = Layout(start: nat, size: nat)

  predicate InLog(l: Layout, b: nat) { l.start <= b < l.start + l.size }

  // A transaction that the log region of a disk with n blocks has room for.
  predicate Room(l: Layout, n: nat, bl: seq<nat>) {
    && 0 < l.size && l.start + l.size <= n
    && |bl| <= LOGSIZE && |bl| < l.size
    && forall i | 0 <= i < |bl| :: bl[i] < n && !InLog(l, bl[i]) && bl[i] < TWO_TO_THE_32
  }

  // read_head: the block numbers listed in a header block.
  function Listed(h: Block): (bl: seq<nat>)
    requires Word(h, 0) <= LOGSIZE
    ensures |bl| == Word(h, 0)
  {
    seq(Word(h, 0), i requires 0 <= i < LOGSIZE => Word(h, i + 1))
  }

  predicate WellLogged(l: Layout, d: Disk) {
    && l.start < |d|
    && Word(d[l.start], 0) <= LOGSIZE
    && Room(l, |d|, Listed(d[l.start]))
  }

  // write_head: n, then the first n entries; later words keep old values.
  function Header(h: Block, bl: seq<nat>): (r: Block)
    requires |bl| <= LOGSIZE && AreWords(bl)
  {
    SetWords(SetWord(h, 0, |bl|), 1, bl, |bl|)
  }

  // read_head reads back what write_head wrote, whatever the block held before.
  lemma HeaderRoundTrip(h: Block, bl: seq<nat>)
    requires |bl| <= LOGSIZE && AreWords(bl)
    ensures Word(Header(h, bl), 0) == |bl| && Listed(Header(h, bl)) == bl
  {
    WordOfSetWords(SetWord(h, 0, |bl|), 1, bl, |bl|, 0);
    WordOfSetWord(h, 0, |bl|, 0);
    forall i | 0 <= i < |bl| ensures Listed(Header(h, bl))[i] == bl[i] {
      WordOfSetWords(SetWord(h, 0, |bl|), 1, bl, |bl|, i + 1);
    }
  }

  // write_log after k blocks: src[bl[0]], ..., src[bl[k-1]] are in the log.
  function Logged(l: Layout, d: Disk, src: Disk, bl: seq<nat>, k: nat): (r: Disk)
    requires Room(l, |d|, bl) && |src| == |d| && k <= |bl|
    ensures |r| == |d|
  {
    if k == 0 then d else Logged(l, d, src, bl, k - 1)[l.start + k := src[bl[k - 1]]]
  }

  // install_trans after k blocks.
  function Installed(l: Layout, d: Disk, bl: seq<nat>, k: nat): (r: Disk)
    requires Room(l, |d|, bl) && k <= |bl|
    ensures |r| == |d|
  {
    if k == 0 then d else Installed(l, d, bl, k - 1)[bl[k - 1] := d[l.start + k]]
  }

  function Headed(l: Layout, d: Disk, bl: seq<nat>): (r: Disk)
    requires Room(l, |d|, bl)
  {
    d[l.start := Header(d[l.start], bl)]
  }

  // recover_from_log run to its end.
  function Recovered(l: Layout, d: Disk): (r: Disk)
    requires WellLogged(l, d)
  {
    var bl := Listed(d[l.start]);
    Headed(l, Installed(l, d, bl, |bl|), [])
  }

  // Everything above the log sees the blocks outside the log region.
  function Home(l: Layout, d: Disk): (r: Disk) {
    seq(|d|, i requires 0 <= i < |d| => if InLog(l, i) then ZeroBlock() else d[i])
  }

  // The file system that the image stands for: what recovery makes of it.
  ghost function View(l: Layout, d: Disk): (r: Disk)
    requires WellLogged(l, d)
  {
    Home(l, Recovered(l, d))
  }

  lemma {:induction false} LoggedAt(l: Layout, d: Disk, src: Disk, bl: seq<nat>, k: nat, b: nat)
    requires Room(l, |d|, bl) && |src| == |d| && k <= |bl| && b < |d|
    ensures Logged(l, d, src, bl, k)[b] == if l.start < b <= l.start + k then src[bl[b - l.start - 1]] else d[b]
  {
    if k > 0 { LoggedAt(l, d, src, bl, k - 1, b); }
  }

  // A block outside bl[..k], such as any log block, is not touched.
  lemma {:induction false} InstalledOutside(l: Layout, d: Disk, bl: seq<nat>, k: nat, b: nat)
    requires Room(l, |d|, bl) && k <= |bl| && b < |d| && b !in bl[..k]
    ensures Installed(l, d, bl, k)[b] == d[b]
  {
    if k > 0 {
      assert bl[..k] == bl[..k - 1] + [bl[k - 1]];
      InstalledOutside(l, d, bl, k - 1, b);
    }
  }

  lemma InstalledLog(l: Layout, d: Disk, bl: seq<nat>, k: nat, b: nat)
    requires Room(l, |d|, bl) && k <= |bl| && InLog(l, b)
    ensures Installed(l, d, bl, k)[b] == d[b]
  {
    InstalledOutside(l, d, bl, k, b);
  }

  // Installing depends only on the log and on the blocks it does not list.
  lemma {:induction false} InstalledAgree(l: Layout, d: Disk, e: Disk, bl: seq<nat>, k: nat, b: nat)
    requires Room(l, |d|, bl) && |d| == |e| && k <= |bl| && b < |d|
    requires forall c | 0 <= c < |d| && InLog(l, c) :: d[c] == e[c]
    requires d[b] == e[b] || b in bl[..k]
    ensures Installed(l, d, bl, k)[b] == Installed(l, e, bl, k)[b]
  {
    if k > 0 && b != bl[k - 1] {
      assert bl[..k] == bl[..k - 1] + [bl[k - 1]];
      InstalledAgree(l, d, e, bl, k - 1, b);
    }
  }

  // Redo is idempotent: installing again from a half-installed image gives
  // the same result as installing once.
  lemma Reinstall(l: Layout, d: Disk, bl: seq<nat>, k: nat)
    requires Room(l, |d|, bl) && k <= |bl|
    ensures Installed(l, Installed(l, d, bl, k), bl, |bl|) == Installed(l, d, bl, |bl|)
  {
    var e := Installed(l, d, bl, k);
    forall c | 0 <= c < |d| && InLog(l, c) ensures d[c] == e[c] { InstalledLog(l, d, bl, k, c); }
    forall b | 0 <= b < |d| ensures Installed(l, e, bl, |bl|)[b] == Installed(l, d, bl, |bl|)[b] {
      if b !in bl[..k] { InstalledOutside(l, d, bl, k, b); }
      if b in bl[..k] { assert b in bl[..|bl|]; }
      InstalledAgree(l, d, e, bl, |bl|, b);
    }
  }

  // The images recovery goes through: k blocks installed, then the header cleared.
  function RecoverImage(l: Layout, d: Disk, k: nat): (r: Disk)
    requires WellLogged(l, d)
  {
    var bl := Listed(d[l.start]);
    if k <= |bl| then Installed(l, d, bl, k) else Recovered(l, d)
  }

  // The images a commit of bl goes through, after k block writes: the log is
  // filled, the header written, the blocks installed, the header cleared.
  function CommitImage(l: Layout, d: Disk, src: Disk, bl: seq<nat>, k: nat): (r: Disk)
    requires Room(l, |d|, bl) && |src| == |d|
    ensures |r| == |d|
  {
    var n := |bl|;
    if k <= n then Logged(l, d, src, bl, k)
    else
      var h := Headed(l, Logged(l, d, src, bl, n), bl);
      if k <= 2 * n + 1 then Installed(l, h, bl, k - n - 1)
      else Headed(l, Installed(l, h, bl, n), [])
  }

  lemma HeadedListed(l: Layout, d: Disk, bl: seq<nat>)
    requires Room(l, |d|, bl)
    ensures WellLogged(l, Headed(l, d, bl)) && Listed(Headed(l, d, bl)[l.start]) == bl
  {
    HeaderRoundTrip(d[l.start], bl);
  }

  // With an empty log the image stands for its own home blocks.
  lemma EmptyView(l: Layout, d: Disk)
    requires WellLogged(l, d) && Listed(d[l.start]) == []
    ensures View(l, d) == Home(l, d)
  {
  }

  // No block write of recovery changes the file system the image stands for,
  // and a finished recovery leaves exactly that at home under an empty log.
  lemma RecoverKeepsView(l: Layout, d: Disk, k: nat)
    requires WellLogged(l, d)
    ensures WellLogged(l, RecoverImage(l, d, k)) && View(l, RecoverImage(l, d, k)) == View(l, d)
    ensures k > |Listed(d[l.start])| ==>
              && Listed(RecoverImage(l, d, k)[l.start]) == []
              && Home(l, RecoverImage(l, d, k)) == View(l, d)
  {
    var bl := Listed(d[l.start]);
    if k <= |bl| {
      InstalledLog(l, d, bl, k, l.start);
      Reinstall(l, d, bl, k);
      InstalledLog(l, d, bl, |bl|, l.start);
    } else {
      var e := Installed(l, d, bl, |bl|);
      HeadedListed(l, e, []);
      EmptyView(l, Headed(l, e, []));
    }
  }

  // Crash and restart any number of times, the i-th recovery getting ks[i]
  // block writes done before the machine goes down again.
  function AfterCrashes(l: Layout, d: Disk, ks: seq<nat>): (r: Disk)
    requires WellLogged(l, d)
    ensures WellLogged(l, r)
    decreases |ks|
  {
    if ks == [] then d else
      RecoverKeepsView(l, d, ks[0]);
      AfterCrashes(l, RecoverImage(l, d, ks[0]), ks[1..])
  }

  lemma {:induction false} CrashesKeepView(l: Layout, d: Disk, ks: seq<nat>)
    requires WellLogged(l, d)
    ensures View(l, AfterCrashes(l, d, ks)) == View(l, d)
    decreases |ks|
  {
    RecoverKeepsView(l, d, if ks == [] then 0 else ks[0]);
    if ks != [] {
      CrashesKeepView(l, RecoverImage(l, d, ks[0]), ks[1..]);
    }
  }

  // bl covers a change from d to src if it lists every home block they differ on.
  ghost predicate Covers(l: Layout, d: Disk, src: Disk, bl: seq<nat>) {
    |src| == |d| && forall b | 0 <= b < |d| && !InLog(l, b) && b !in bl :: src[b] == d[b]
  }

  // A block that is in the log and listed is installed with its new contents.
  lemma {:induction false} InstalledNew(l: Layout, d: Disk, src: Disk, bl: seq<nat>, k: nat, b: nat)
    requires Room(l, |d|, bl) && |src| == |d| && k <= |bl| && b < |d| && b in bl[..k]
    requires forall i | 0 <= i < |bl| :: d[l.start + i + 1] == src[bl[i]]
    ensures Installed(l, d, bl, k)[b] == src[b]
  {
    assert bl[..k] == bl[..k - 1] + [bl[k - 1]];
    if b != bl[k - 1] { InstalledNew(l, d, src, bl, k - 1, b); }
  }

  lemma CommittedAt(l: Layout, d: Disk, src: Disk, bl: seq<nat>, b: nat)
    requires Room(l, |d|, bl) && Covers(l, d, src, bl) && b < |d| && !InLog(l, b)
    ensures Installed(l, Headed(l, Logged(l, d, src, bl, |bl|), bl), bl, |bl|)[b] == src[b]
  {
    var n := |bl|;
    var h := Headed(l, Logged(l, d, src, bl, n), bl);
    forall i | 0 <= i < n ensures h[l.start + i + 1] == src[bl[i]] { LoggedAt(l, d, src, bl, n, l.start + i + 1); }
    if b in bl {
      assert b in bl[..n];
      InstalledNew(l, h, src, bl, n, b);
    } else {
      LoggedAt(l, d, src, bl, n, b);
      InstalledOutside(l, h, bl, n, b);
    }
  }

  // The commit point: with the log filled, writing the header changes the
  // file system the image stands for from the old one to the new one.
  lemma CommitPoint(l: Layout, d: Disk, src: Disk, bl: seq<nat>)
    requires Room(l, |d|, bl) && Covers(l, d, src, bl)
    ensures WellLogged(l, CommitImage(l, d, src, bl, |bl| + 1))
    ensures Listed(CommitImage(l, d, src, bl, |bl| + 1)[l.start]) == bl
    ensures View(l, CommitImage(l, d, src, bl, |bl| + 1)) == Home(l, src)
  {
    HeadedListed(l, Logged(l, d, src, bl, |bl|), bl);
    var r := Recovered(l, CommitImage(l, d, src, bl, |bl| + 1));
    forall b | 0 <= b < |d| ensures Home(l, r)[b] == Home(l, src)[b] {
      if !InLog(l, b) { CommittedAt(l, d, src, bl, b); }
    }
  }

  // Filling the log is invisible while the header on disk says it is empty.
  lemma FillInvisible(l: Layout, d: Disk, src: Disk, bl: seq<nat>, k: nat)
    requires WellLogged(l, d) && Listed(d[l.start]) == [] && Room(l, |d|, bl) && |src| == |d| && k <= |bl|
    ensures WellLogged(l, Logged(l, d, src, bl, k)) && Listed(Logged(l, d, src, bl, k)[l.start]) == []
    ensures Home(l, Logged(l, d, src, bl, k)) == Home(l, d)
  {
    LoggedAt(l, d, src, bl, k, l.start);
    forall b | 0 <= b < |d| ensures Home(l, Logged(l, d, src, bl, k))[b] == Home(l, d)[b] {
      LoggedAt(l, d, src, bl, k, b);
    }
  }

  // Every image of a commit stands for the old file system up to the header
  // write and for the new one from it on, and the last one has an empty log.
  lemma CommitAtomic(l: Layout, d: Disk, src: Disk, bl: seq<nat>, k: nat)
    requires WellLogged(l, d) && Listed(d[l.start]) == [] && Room(l, |d|, bl) && Covers(l, d, src, bl)
    ensures WellLogged(l, CommitImage(l, d, src, bl, k))
    ensures View(l, CommitImage(l, d, src, bl, k)) == if k <= |bl| then Home(l, d) else Home(l, src)
    ensures k > 2 * |bl| + 1 ==>
              && Listed(CommitImage(l, d, src, bl, k)[l.start]) == []
              && Home(l, CommitImage(l, d, src, bl, k)) == Home(l, src)
  {
    if k <= |bl| {
      FillInvisible(l, d, src, bl, k);
    } else {
      CommitPoint(l, d, src, bl);
      var h := CommitImage(l, d, src, bl, |bl| + 1);
      RecoverKeepsView(l, h, k - |bl| - 1);
    }
  }

  // Crash atomicity: stop a commit after any number of block writes, restart
  // with any number of crashes inside recovery, and the first recovery that
  // completes leaves all of the old home blocks or all of the new ones.
  lemma CrashAtomicity(l: Layout, d: Disk, src: Disk, bl: seq<nat>, k: nat, ks: seq<nat>)
    requires WellLogged(l, d) && Listed(d[l.start]) == [] && Room(l, |d|, bl) && Covers(l, d, src, bl)
    ensures WellLogged(l, CommitImage(l, d, src, bl, k))
    ensures var r := Recovered(l, AfterCrashes(l, CommitImage(l, d, src, bl, k), ks));
            && Home(l, r) == (if k <= |bl| then Home(l, d) else Home(l, src))
            && Word(r[l.start], 0) == 0
  {
    CommitAtomic(l, d, src, bl, k);
    var c := CommitImage(l, d, src, bl, k);
    CrashesKeepView(l, c, ks);
    var e := AfterCrashes(l, c, ks);
    RecoverKeepsView(l, e, |Listed(e[l.start])| + 1);
  }
}
