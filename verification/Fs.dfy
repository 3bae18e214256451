// fs.c: block allocation, block mapping, and reading and writing files.
//
// The disk here is the plain block map that the buffer cache and the log show
// to the file system; `logged` collects the blocks given to log_write.
module Fs {
  import opened Blocks
  import opened FsDisk
  import opened FsBlocks
  import opened FsBytes
  import opened FsTrunc

  // n, -1, or a panic
  datatype WriteResult = Wrote(n: nat) | Refused | Panicked

  // From disk d to disk e every block that changed was given to log_write, and
  // the blocks newly given to it, which log became log', are blocks of the inode
  // table, the bitmap or the data area.
  ghost predicate Logs(sb: Super, d: Disk, log: set<nat>, e: Disk, log': set<nat>) {
    && |e| == |d| && log <= log'
    && (forall b | 0 <= b < |d| && b !in log' :: e[b] == d[b])
    && forall b | b in log' && b !in log :: sb.inodestart <= b < sb.size
  }

  lemma LogsNone(sb: Super, d: Disk, log: set<nat>)
    ensures Logs(sb, d, log, d, log)
  {
  }

  lemma LogsThen(sb: Super, d: Disk, log: set<nat>, e: Disk, log': set<nat>, f: Disk, log'': set<nat>)
    requires Logs(sb, d, log, e, log') && Logs(sb, e, log', f, log'')
    ensures Logs(sb, d, log, f, log'')
  {
  }

  // One block changed and logged.
  lemma LogsOne(sb: Super, d: Disk, log: set<nat>, b: nat, data: Block)
    requires sb.inodestart <= b < sb.size == |d|
    ensures Logs(sb, d, log, d[b := data], log + {b})
  {
  }

  lemma TableSame(sb: Super, d: Disk)
    ensures TableKept(sb, d, d)
  {
  }

  lemma TableTrans(sb: Super, d: Disk, e: Disk, f: Disk)
    requires TableKept(sb, d, e) && TableKept(sb, e, f)
    ensures TableKept(sb, d, f)
  {
  }

  // A file that reaches the indirect blocks has an indirect block exactly if it
  // goes beyond the direct ones.
  // The block of a byte of the file is one of its blocks.
  lemma InFile(off: nat, size: nat)
    requires off < size
    ensures off / BSIZE < Ceil(size) && (size <= MAXFILE * BSIZE ==> off / BSIZE < MAXFILE)
  {
    CeilMono(off + 1, size);
  }

  lemma ReadOk(sb: Super, v: Volume, i: nat)
    requires Sound(sb, v.d, v.inodes, v.owner) && i < |v.inodes| && |v.inodes[i].addrs| == NDIRECT + 1
    requires NoHoles(v.d, v.inodes[i])
    ensures Ok(sb, v, i, Ceil(v.inodes[i].size), Ceil(v.inodes[i].size) > NDIRECT)
    ensures v.inodes[i].size <= MAXFILE * BSIZE && |Contents(v.d, v.inodes[i])| == v.inodes[i].size
  {
    hide Tracked, Exact, InUse, Has;
  }

  lemma RootNeeded(sb: Super, v: Volume, i: nat, nb: nat)
    requires Ok(sb, v, i, nb, nb > NDIRECT)
    ensures |v.inodes[i].addrs| == NDIRECT + 1 && (v.inodes[i].addrs[NDIRECT] != 0 <==> nb > NDIRECT)
  {
    hide Tracked, Exact, InUse, AddrOf;
  }

  lemma HasRoot(v: Volume, i: nat, nb: nat)
    requires i < |v.inodes| && |v.inodes[i].addrs| == NDIRECT + 1 && Has(v.d, v.inodes[i], nb, true)
    ensures v.inodes[i].addrs[NDIRECT] != 0 && AddrOf(v.d, v.inodes[i], Indirect) == v.inodes[i].addrs[NDIRECT]
  {
  }

  lemma HasAddr(v: Volume, i: nat, nb: nat, ind: bool, bn: nat)
    requires i < |v.inodes| && |v.inodes[i].addrs| == NDIRECT + 1 && Has(v.d, v.inodes[i], nb, ind) && bn < MAXFILE
    ensures AddrOf(v.d, v.inodes[i], Data(bn)) != 0 <==> bn < nb
  {
    hide AddrOf;
  }

  lemma BitmapBlock(sb: Super, d: Disk, b: nat)
    requires Laid(sb, d) && b < sb.size
    ensures sb.inodestart <= BBLOCK(sb, b) < sb.datastart
  {
  }

  lemma DataBlock(sb: Super, v: Volume, i: nat, nb: nat, ind: bool, bn: nat)
    requires Ok(sb, v, i, nb, ind) && AddrOf(v.d, v.inodes[i], Data(bn)) != 0
    ensures sb.inodestart <= AddrOf(v.d, v.inodes[i], Data(bn)) < sb.size == |v.d|
  {
    hide AddrOf, Tracked, Exact, InUse, GoodInodes;
    OwnedAddr(sb, v, i, Data(bn));
  }

  lemma InodeBlock(sb: Super, d: Disk, i: nat)
    requires Laid(sb, d) && i < sb.ninodes
    ensures sb.inodestart <= IBLOCK(sb, i) < sb.datastart <= sb.size
  {
  }

  // The free blocks cover a file's growth from offset off to offset end.
  ghost predicate Enough(sb: Super, d: Disk, size: nat, off: nat, end: nat) {
    Free(sb, d) + Claimed(Reach(size, off)) >= Claimed(Reach(size, end))
  }

  // From disk d to disk e, a file of the given size has grown from offset off to
  // offset end: what it took is no longer free.  Only a lack of blocks stops it.
  ghost predicate Stocked(sb: Super, d: Disk, e: Disk, size: nat, off: nat, end: nat, ok: bool) {
    && (ok <==> Enough(sb, d, size, off, end))
    && (ok ==> Free(sb, e) + Claimed(Reach(size, end)) == Free(sb, d) + Claimed(Reach(size, off)))
  }

  // Growth in two steps; if the second fails, so does any growth beyond it.
  lemma StockedThen(sb: Super, d: Disk, e: Disk, f: Disk, size: nat, off0: nat, off: nat, off': nat, end: nat, ok: bool)
    requires Stocked(sb, d, e, size, off0, off, true) && Stocked(sb, e, f, size, off, off', ok) && off <= off' <= end
    ensures Stocked(sb, d, f, size, off0, off', ok)
    ensures !ok ==> Stocked(sb, d, f, size, off0, end, false)
  {
    hide Free;
    CeilMono(off, off');
    CeilMono(off', end);
  }

  // The same for the next chunk of filewrite, when the file may be longer by the
  // chunks before it.
  lemma StockedChunk(sb: Super, d: Disk, e: Disk, f: Disk, size: nat, size': nat, off0: nat, off: nat, n: nat,
          end: nat, ok: bool)
    requires Stocked(sb, d, e, size, off0, off, true) && Stocked(sb, e, f, size', off, off + n, ok) && off + n <= end
    requires size' == Max(size, off)
    ensures Stocked(sb, d, f, size, off0, off + n, ok)
    ensures !ok ==> !Enough(sb, d, size, off0, end)
  {
    hide Free;
    CeilMono(size, size');
    CeilMono(off, off + n);
    CeilMono(off, size');
    StockedThen(sb, d, e, f, size, off0, off, off + n, end, ok);
  }

  function ChunksIn(room: nat): nat { room / CHUNK }

  // How many of n bytes at offset off filewrite gets to before a chunk would
  // make the file too large.
  function Taken(off: nat, n: nat): nat {
    if off + n <= MAXFILE * BSIZE then n
    else if off > MAXFILE * BSIZE then 0
    else CHUNK * ChunksIn(MAXFILE * BSIZE - off)
  }

  // The next chunk, after q whole ones: it is taken, or it is the first not to be.
  lemma TakenStep(off: nat, n: nat, q: nat, k: nat, n1: nat)
    requires k == CHUNK * q && k < n && k <= Taken(off, n) && n1 == (if n - k > CHUNK then CHUNK else n - k)
    ensures off + k + n1 <= MAXFILE * BSIZE ==> k + n1 <= Taken(off, n) && (k + n1 == n || k + n1 == CHUNK * (q + 1))
    ensures off + k + n1 > MAXFILE * BSIZE ==> k == Taken(off, n)
  {
    hide *;
    if off + n <= MAXFILE * BSIZE {
      TakenAll(off, n, q, n1);
    } else if off <= MAXFILE * BSIZE {
      TakenPart(off, n, MAXFILE * BSIZE - off, q, n1);
    } else {
      TakenNone(off, n);
    }
  }

  lemma TakenAll(off: nat, n: nat, q: nat, n1: nat)
    requires off + n <= MAXFILE * BSIZE && CHUNK * q < n
    requires n1 == (if n - CHUNK * q > CHUNK then CHUNK else n - CHUNK * q)
    ensures Taken(off, n) == n && CHUNK * q + n1 <= n
    ensures CHUNK * q + n1 == n || CHUNK * q + n1 == CHUNK * (q + 1)
  {
    hide ChunksIn;
  }

  lemma TakenPart(off: nat, n: nat, room: nat, q: nat, n1: nat)
    requires off + room == MAXFILE * BSIZE && room < n && CHUNK * q < n && CHUNK * q <= Taken(off, n)
    requires n1 == (if n - CHUNK * q > CHUNK then CHUNK else n - CHUNK * q)
    ensures CHUNK * q + n1 <= room ==> CHUNK * q + n1 == CHUNK * (q + 1) <= Taken(off, n)
    ensures CHUNK * q + n1 > room ==> CHUNK * q == Taken(off, n)
  {
    hide *;
    TakenSome(off, n, room);
    WholeChunks(room);
    Multiples(q, ChunksIn(room));
    Counts(n, room, CHUNK * q, CHUNK * ChunksIn(room), n1);
  }

  // Multiples of CHUNK are equal or at least CHUNK apart.
  lemma Multiples(q: nat, c: nat)
    requires CHUNK * q <= CHUNK * c
    ensures CHUNK * (q + 1) == CHUNK * q + CHUNK
    ensures CHUNK * q + CHUNK <= CHUNK * c || CHUNK * q == CHUNK * c
  {
    if q < c {
      var r := c - q - 1;
      assert CHUNK * c == CHUNK * q + CHUNK + CHUNK * r;
    } else {
      var r := q - c;
      assert CHUNK * q == CHUNK * c + CHUNK * r;
    }
  }

  // The chunk of n1 bytes at x, when the whole chunks in the room end at y.
  lemma Counts(n: nat, room: nat, x: nat, y: nat, n1: nat)
    requires y <= room < y + CHUNK && room < n && x < n && (x + CHUNK <= y || x == y)
    requires n1 == (if n - x > CHUNK then CHUNK else n - x)
    ensures x + n1 <= room ==> x + n1 == x + CHUNK <= y
    ensures x + n1 > room ==> x == y
  {
  }

  lemma TakenSome(off: nat, n: nat, room: nat)
    requires off + room == MAXFILE * BSIZE && room < n
    ensures Taken(off, n) == CHUNK * ChunksIn(room)
  {
    hide ChunksIn;
  }

  lemma TakenNone(off: nat, n: nat)
    requires off > MAXFILE * BSIZE
    ensures Taken(off, n) == 0
  {
    hide ChunksIn;
  }

  lemma WholeChunks(room: nat)
    ensures CHUNK * ChunksIn(room) <= room < CHUNK * ChunksIn(room) + CHUNK
  {
  }

  lemma WriteStarts(sb: Super, v: Volume, i: nat, off: nat, n: nat)
    requires Whole(sb, v) && i < |v.inodes|
    ensures Stocked(sb, v.d, v.d, v.inodes[i].size, off, off, true)
    ensures off <= v.inodes[i].size ==> off <= MAXFILE * BSIZE
    ensures off + n <= MAXFILE * BSIZE || n == 0 ==> Taken(off, n) == n
  {
    assert NoHoles(v.d, v.inodes[i]);
  }

  lemma EnoughSo(sb: Super, d: Disk, e: Disk, size: nat, off: nat, end: nat)
    requires Stocked(sb, d, e, size, off, end, true)
    ensures Enough(sb, d, size, off, end)
  {
    hide Free;
  }

  // How much of n bytes the first m chunks are.
  function Until(n: nat, m: nat): (k: nat)
    ensures k <= n
  {
    if CHUNK * m < n then CHUNK * m else n
  }

  lemma UntilStep(n: nat, q: nat, n1: nat)
    requires Until(n, q) < n && n1 == (if n - Until(n, q) > CHUNK then CHUNK else n - Until(n, q))
    ensures Until(n, q) == CHUNK * q && Until(n, q + 1) == Until(n, q) + n1
  {
  }

  // What filewrite did with its chunks: each transaction kept to its budget and
  // logged what it changed, and after m of them the first m chunks are written.
  ghost predicate Chunked(sb: Super, v: Volume, vols: seq<Volume>, txs: seq<set<nat>>, i: nat, off: nat,
          src: seq<byte>)
  {
    && |vols| == |txs| + 1 && vols[0] == v && WithinBudget(txs)
    && (forall m | 0 <= m < |txs| :: Logs(sb, vols[m].d, {}, vols[m + 1].d, txs[m]))
    && forall m | 0 < m <= |txs| :: WriteEffect(sb, v, vols[m], i, off, src[..Until(|src|, m)])
  }

  lemma ChunkedNone(sb: Super, v: Volume, i: nat, off: nat, src: seq<byte>)
    ensures Until(|src|, 0) == 0 && Chunked(sb, v, [v], [], i, off, src)
  {
  }

  lemma ChunkedNext(sb: Super, v: Volume, vols: seq<Volume>, txs: seq<set<nat>>, i: nat, off: nat, src: seq<byte>,
          tx: set<nat>, w: Volume)
    requires Chunked(sb, v, vols, txs, i, off, src) && |tx| <= MAXOPBLOCKS
    requires Logs(sb, vols[|txs|].d, {}, w.d, tx) && WriteEffect(sb, v, w, i, off, src[..Until(|src|, |txs| + 1)])
    ensures Chunked(sb, v, vols + [w], txs + [tx], i, off, src) && (vols + [w])[|txs + [tx]|] == w
  {
    hide Logs, WriteEffect, Until;
  }

  lemma BitOfBlock(sb: Super, d: Disk, b: nat, bi: nat)
    requires Laid(sb, d) && b % BPB == 0 && bi < BPB && b + bi < sb.size
    ensures BBLOCK(sb, b) < |d| && Used(sb, d, b + bi) == Bit(d[BBLOCK(sb, b)][bi / 8], bi % 8)
  {
    assert (b + bi) % BPB == bi && (b + bi) / BPB == b / BPB;
  }

  ghost predicate WithinBudget(txs: seq<set<nat>>) { forall k | 0 <= k < |txs| :: |txs[k]| <= MAXOPBLOCKS }

  class FileSys {
    const sb: Super
    var d: Disk
    var inodes: seq<Inode>    // the in-memory inodes, by number
    ghost var owner: map<nat, Owner>
    ghost var logged: set<nat>

    constructor (sb: Super, image: Disk, inodes: seq<Inode>, ghost owner: map<nat, Owner>)
      ensures this.sb == sb && d == image && this.inodes == inodes && this.owner == owner && logged == {}
    {
      this.sb, this.d, this.inodes, this.owner, this.logged := sb, image, inodes, owner, {};
    }

    // The scan of balloc: the first block whose bit is clear.
    method FindFree() returns (r: Option<nat>)
      requires Laid(sb, d)
      ensures r.None? ==> forall b | 0 <= b < sb.size :: Used(sb, d, b)
      ensures r.Some? ==> r.value < sb.size && !Used(sb, d, r.value) && forall c | 0 <= c < r.value :: Used(sb, d, c)
    {
      hide Used;
      var b := 0;
      while b < sb.size
        invariant b % BPB == 0
        invariant forall c | 0 <= c < b && c < sb.size :: Used(sb, d, c)
      {
        r := FindInBlock(b);
        if r.Some? { return; }
        b := b + BPB;
      }
      r := None;
    }

    // The inner loop: the bits of one bitmap block.
    method FindInBlock(b: nat) returns (r: Option<nat>)
      requires Laid(sb, d) && b % BPB == 0 && b < sb.size
      ensures r.None? ==> forall c | b <= c < b + BPB && c < sb.size :: Used(sb, d, c)
      ensures r.Some? ==>
                && b <= r.value < sb.size && !Used(sb, d, r.value)
                && forall c | b <= c < r.value :: Used(sb, d, c)
    {
      hide Used;
      BitOfBlock(sb, d, b, 0);
      var bi := 0;
      while bi < BPB && b + bi < sb.size
        invariant 0 <= bi <= BPB
        invariant forall c | b <= c < b + bi && c < sb.size :: Used(sb, d, c)
      {
        BitOfBlock(sb, d, b, bi);
        if !Bit(d[BBLOCK(sb, b)][bi / 8], bi % 8) {
          return Some(b + bi);
        }
        bi := bi + 1;
      }
      r := None;
    }

    // balloc; None is the "out of blocks" panic.
    method Balloc() returns (r: Option<nat>)
      requires Laid(sb, d) && forall b | 0 <= b < sb.datastart :: Used(sb, d, b)
      modifies this`d, this`logged
      ensures r.None? <==> forall b | 0 <= b < sb.size :: Used(sb, old(d), b)
      ensures |d| == |old(d)| && (r.None? ==> d == old(d) && logged == old(logged))
      ensures r.Some? ==>
                var b := r.value;
                && sb.datastart <= b < sb.size && !Used(sb, old(d), b)
                && (forall c | 0 <= c < b :: Used(sb, old(d), c))
                && d == Mark(sb, old(d), b, true)[b := ZeroBlock()]
                && logged == old(logged) + {BBLOCK(sb, b), b} && Logs(sb, old(d), old(logged), d, logged)
    {
      hide Used;
      r := FindFree();
      if r.Some? {
        var b := r.value;
        BitmapBlock(sb, d, b);
        d := d[BBLOCK(sb, b) := Marked(d[BBLOCK(sb, b)], b, true)];
        d := d[b := ZeroBlock()];
        logged := logged + {BBLOCK(sb, b), b};
      }
    }

    ghost function V(): Volume
      reads this
    {
      Volume(d, inodes, owner)
    }

    // Store block b's number in pointer x of inode i.
    method Record(i: nat, x: Ref, b: nat)
      requires LinkPossible(V(), i, x, b) && |d| == sb.size
      requires x.Data? && x.bn >= NDIRECT ==> sb.inodestart <= inodes[i].addrs[NDIRECT] < sb.size
      modifies this`d, this`inodes, this`owner, this`logged
      ensures V() == Link(old(V()), i, x, b)
      ensures logged <= old(logged) + Root(inodes[i]) && Logs(sb, old(d), old(logged), d, logged)
    {
      if x == Indirect {
        inodes := inodes[i := inodes[i].(addrs := inodes[i].addrs[NDIRECT := b])];
      } else if x.bn < NDIRECT {
        inodes := inodes[i := inodes[i].(addrs := inodes[i].addrs[x.bn := b])];
      } else {
        var a := inodes[i].addrs[NDIRECT];
        d := d[a := SetWord(d[a], x.bn - NDIRECT, b)];
        logged := logged + {a};
      }
      owner := owner[b := Owner(i, x)];
    }

    // Allocate a block and record it in the next pointer of inode i.
    method Extend(i: nat, x: Ref, ghost nb: nat, ghost ind: bool) returns (r: Option<nat>)
      requires Ok(sb, V(), i, nb, ind) && NextRef(x, nb, ind)
      modifies this`d, this`inodes, this`owner, this`logged
      ensures r.None? <==> Free(sb, old(d)) == 0
      ensures r.Some? ==>
                && Free(sb, d) + 1 == Free(sb, old(d))
                && Ok(sb, V(), i, if x.Data? then nb + 1 else nb, ind || x.Indirect?) && Grew(old(V()), V(), i, nb)
                && 0 < r.value < |d| && AddrOf(d, inodes[i], x) == r.value && d[r.value] == ZeroBlock()
                && logged <= old(logged) + {BBLOCK(sb, r.value), r.value} + Root(inodes[i])
                && TableKept(sb, old(d), d) && Logs(sb, old(d), old(logged), d, logged)
    {
      hide Used, Has, Tracked, Exact, Grew, Mark, AddrOf, Link, TableKept, Free, Logs;
      NoneFree(sb, d);
      r := Balloc();
      if r.None? { return; }
      ExtendOk(sb, old(V()), i, x, r.value, nb, ind);
      assert V() == Alloc(sb, old(V()), r.value);
      ghost var e, log := d, logged;
      Record(i, x, r.value);
      LogsThen(sb, old(d), old(logged), e, log, d, logged);
    }

    // bmap; None is a panic.  The file has its first nb blocks, and block bn is
    // one of them or the next one.  maps are the bitmap blocks written.
    method Bmap(i: nat, bn: nat, ghost nb: nat) returns (r: Option<nat>, ghost maps: set<nat>)
      requires Ok(sb, V(), i, nb, nb > NDIRECT) && bn <= nb && bn < MAXFILE
      modifies this`d, this`inodes, this`owner, this`logged
      ensures bn < nb ==> r.Some? && V() == old(V()) && logged == old(logged) && maps == {}
      ensures r.None? <==> bn == nb && Free(sb, old(d)) + Claimed(nb) < Claimed(nb + 1)
      ensures r.Some? ==>
                && Ok(sb, V(), i, if bn < nb then nb else nb + 1, bn >= NDIRECT || nb > NDIRECT)
                && Free(sb, d) + Claimed(if bn < nb then nb else nb + 1) == Free(sb, old(d)) + Claimed(nb)
                && Grew(old(V()), V(), i, nb)
                && 0 < r.value < |d| && AddrOf(d, inodes[i], Data(bn)) == r.value
                && (bn == nb ==> d[r.value] == ZeroBlock())
                && logged <= old(logged) + maps + {r.value} + Root(inodes[i])
                && TableKept(sb, old(d), d) && Logs(sb, old(d), old(logged), d, logged)
                && |maps| <= (if bn < nb then 0 else 1) + (if bn == nb == NDIRECT then 1 else 0)
    {
      hide Free, Logs;
      LogsNone(sb, d, logged);
      maps := {};
      OwnedAddr(sb, V(), i, Data(bn));
      OwnedAddr(sb, V(), i, Indirect);
      if bn < NDIRECT {
        if inodes[i].addrs[bn] != 0 { return Some(inodes[i].addrs[bn]), {}; }
        r := Extend(i, Data(bn), nb, nb > NDIRECT);
        if r.Some? { maps := {BBLOCK(sb, r.value)}; }
      } else {
        r, maps := BmapIndirect(i, bn, nb);
      }
    }

    method BmapIndirect(i: nat, bn: nat, ghost nb: nat) returns (r: Option<nat>, ghost maps: set<nat>)
      requires Ok(sb, V(), i, nb, nb > NDIRECT) && NDIRECT <= bn <= nb && bn < MAXFILE
      modifies this`d, this`inodes, this`owner, this`logged
      ensures bn < nb ==> r.Some? && V() == old(V()) && logged == old(logged) && maps == {}
      ensures r.None? <==> bn == nb && Free(sb, old(d)) + Claimed(nb) < Claimed(nb + 1)
      ensures r.Some? ==>
                && Ok(sb, V(), i, if bn < nb then nb else nb + 1, true)
                && Free(sb, d) + Claimed(if bn < nb then nb else nb + 1) == Free(sb, old(d)) + Claimed(nb)
                && Grew(old(V()), V(), i, nb)
                && 0 < r.value < |d| && AddrOf(d, inodes[i], Data(bn)) == r.value
                && (bn == nb ==> d[r.value] == ZeroBlock())
                && logged <= old(logged) + maps + {r.value} + Root(inodes[i])
                && TableKept(sb, old(d), d) && Logs(sb, old(d), old(logged), d, logged)
                && |maps| <= (if bn < nb then 0 else 1) + (if bn == nb == NDIRECT then 1 else 0)
    {
      hide Grew, Free, Logs, Ok, TableKept, AddrOf;
      RootNeeded(sb, V(), i, nb);
      var ok;
      ok, maps := MakeRoot(i, nb);
      if !ok { return None, maps; }
      ghost var v, log := V(), logged;
      ghost var more;
      r, more := Pointed(i, bn, nb);
      maps := maps + more;
      if r.Some? {
        LogsThen(sb, old(d), old(logged), v.d, log, d, logged);
        GrewTrans(old(V()), v, V(), i, nb, nb);
        GrewRoot(v, V(), i, nb);
        TableTrans(sb, old(d), v.d, d);
      }
    }

    // The second half: the data block that the indirect block points to.
    method Pointed(i: nat, bn: nat, ghost nb: nat) returns (r: Option<nat>, ghost maps: set<nat>)
      requires Ok(sb, V(), i, nb, true) && NDIRECT <= bn <= nb && bn < MAXFILE
      modifies this`d, this`inodes, this`owner, this`logged
      ensures bn < nb ==> r.Some? && V() == old(V()) && logged == old(logged)
      ensures r.None? <==> bn == nb && Free(sb, old(d)) == 0
      ensures r.Some? ==>
                && Ok(sb, V(), i, if bn < nb then nb else nb + 1, true) && Grew(old(V()), V(), i, nb)
                && Free(sb, d) + (if bn < nb then 0 else 1) == Free(sb, old(d))
                && 0 < r.value < |d| && AddrOf(d, inodes[i], Data(bn)) == r.value
                && (bn == nb ==> d[r.value] == ZeroBlock())
                && logged <= old(logged) + maps + {r.value} + Root(inodes[i])
                && TableKept(sb, old(d), d) && Logs(sb, old(d), old(logged), d, logged)
      ensures |maps| <= if bn < nb then 0 else 1
    {
      hide Used, Grew, Tracked, Exact, Free, Logs, TableKept, Has;
      LogsNone(sb, d, logged);
      TableSame(sb, d);
      GrewNone(V(), i, nb);
      maps := {};
      HasRoot(V(), i, nb);
      OwnedAddr(sb, V(), i, Indirect);
      OwnedAddr(sb, V(), i, Data(bn));
      HasAddr(V(), i, nb, true, bn);
      var addr := Word(d[inodes[i].addrs[NDIRECT]], bn - NDIRECT);
      if addr != 0 { return Some(addr), maps; }
      r := Extend(i, Data(bn), nb, true);
      if r.Some? { maps := {BBLOCK(sb, r.value)}; }
    }

    // The first half of the indirect case: the indirect block, made if need be.
    method MakeRoot(i: nat, ghost nb: nat) returns (ok: bool, ghost maps: set<nat>)
      requires Ok(sb, V(), i, nb, nb > NDIRECT) && NDIRECT <= nb
      modifies this`d, this`inodes, this`owner, this`logged
      ensures nb > NDIRECT ==> ok && V() == old(V()) && logged == old(logged) && maps == {}
      ensures nb == NDIRECT ==> (ok <==> Free(sb, old(d)) > 0) && (ok ==> Free(sb, d) + 1 == Free(sb, old(d)))
      ensures ok ==>
                && Ok(sb, V(), i, nb, true) && Grew(old(V()), V(), i, nb) && inodes[i].addrs[NDIRECT] != 0
                && logged <= old(logged) + maps + Root(inodes[i]) && |maps| <= 1
                && TableKept(sb, old(d), d) && Logs(sb, old(d), old(logged), d, logged)
    {
      hide Used, Grew, Tracked, Exact, Free, Logs, TableKept;
      LogsNone(sb, d, logged);
      TableSame(sb, d);
      GrewNone(V(), i, nb);
      ok, maps := true, {};
      if inodes[i].addrs[NDIRECT] == 0 {
        var r := Extend(i, Indirect, nb, false);
        ok := r.Some?;
        if ok { maps := {BBLOCK(sb, r.value)}; }
      }
    }

    // One turn of the loop of writei: m bytes of src at offset off.  False is a panic.
    method WriteTurn(i: nat, src: seq<byte>, off0: nat, off: nat, m: nat, ghost v0: Volume)
      returns (ok: bool, ghost a: nat, ghost maps: set<nat>)
      requires Writing(sb, v0, V(), i, off0, src, off) && 0 < m <= BSIZE - off % BSIZE && off + m <= off0 + |src|
      requires off + m <= MAXFILE * BSIZE
      modifies this`d, this`inodes, this`owner, this`logged
      ensures Stocked(sb, old(d), d, v0.inodes[i].size, off, off + m, ok)
      ensures ok ==>
                && Writing(sb, v0, V(), i, off0, src, off + m)
                && i < |inodes| == |old(inodes)| && |inodes[i].addrs| == |old(inodes)[i].addrs| == NDIRECT + 1
                && logged <= old(logged) + maps + {a} + Root(inodes[i])
                && Root(old(inodes)[i]) <= Root(inodes[i]) && Logs(sb, old(d), old(logged), d, logged)
                && var size := v0.inodes[i].size;
                   |maps| <= Reach(size, off + m) - Reach(size, off)
                             + (if off / BSIZE == Reach(size, off) == NDIRECT then 1 else 0)
    {
      hide Ok, ByteAt, Splice, Grew, Writing, AddrOf, Free, Logs, Kept, TableKept;
      ghost var v := V();
      WritingOk(sb, v0, v, i, off0, src, off);
      ghost var size := v0.inodes[i].size;
      ReachStep(size, off, m);
      var r;
      r, maps := Bmap(i, off / BSIZE, Reach(size, off));
      ok, a := r.Some?, 0;
      if ok {
        ghost var u := V();
        WritingStep(sb, v0, v, u, i, off0, src, off, m);
        GrewRoot(v, u, i, Reach(size, off));
        DataWrite(sb, u, i, Reach(size, off + m), Reach(size, off + m) > NDIRECT, off / BSIZE,
          Splice(d[r.value], off % BSIZE, src[off - off0..off - off0 + m]));
        ghost var e, log := d, logged;
        d := d[r.value := Splice(d[r.value], off % BSIZE, src[off - off0..off - off0 + m])];
        logged, a := logged + {r.value}, r.value;
        DataBlock(sb, u, i, Reach(size, off + m), Reach(size, off + m) > NDIRECT, off / BSIZE);
        LogsOne(sb, e, log, a, d[a]);
        LogsThen(sb, old(d), old(logged), e, log, d, logged);
      }
    }

    // iupdate
    method Iupdate(i: nat)
      requires Laid(sb, d) && i < sb.ninodes == |inodes| && GoodInode(inodes[i])
      modifies this`d, this`logged
      ensures d == Updated(sb, old(d), i, inodes[i]) && logged == old(logged) + {IBLOCK(sb, i)}
      ensures Logs(sb, old(d), old(logged), d, logged)
    {
      InodeBlock(sb, d, i);
      d := d[IBLOCK(sb, i) := SetWords(d[IBLOCK(sb, i)], 16 * (i % IPB), InodeWords(inodes[i]), 16)];
      logged := logged + {IBLOCK(sb, i)};
    }

    // The same, keeping a tally t of the blocks logged since l0.
    method CountedTurn(i: nat, src: seq<byte>, off0: nat, off: nat, m: nat, ghost v0: Volume, ghost l0: set<nat>,
            ghost t: Tally)
      returns (ok: bool, ghost t': Tally)
      requires WriteState(v0, l0, i, off0, src, off, t)
      requires 0 < m <= BSIZE - off % BSIZE && off + m <= off0 + |src| && off + m <= MAXFILE * BSIZE
      requires off == off0 || off % BSIZE == 0
      modifies this`d, this`inodes, this`owner, this`logged
      ensures Stocked(sb, old(d), d, v0.inodes[i].size, off, off + m, ok)
      ensures ok ==> WriteState(v0, l0, i, off0, src, off + m, t')
    {
      hide Writing, AddrOf, Turns, Bitmaps, Reach, Ceil, Within, Root, Stocked, Logs;
      t' := t;
      ghost var size := v0.inodes[i].size;
      SpentStep(size, off0, off, m);
      ghost var a, maps, l, root := 0, {}, logged, Root(inodes[i]);
      ghost var e := d;
      ok, a, maps := WriteTurn(i, src, off0, off, m, v0);
      if ok {
        LogsThen(sb, v0.d, l0, e, l, d, logged);
        WithinStep(l, l0, t, root, Turns(off0, off), Bitmaps(size, off), logged, a, maps, Root(inodes[i]));
        t' := Tally(t.datas + {a}, t.maps + maps);
        WithinMore(logged, l0, t', Root(inodes[i]), Turns(off0, off) + 1, Bitmaps(size, off) + |maps|,
          Turns(off0, off + m), Bitmaps(size, off + m));
      }
    }

    ghost predicate WriteState(v0: Volume, l0: set<nat>, i: nat, off0: nat, src: seq<byte>, off: nat, t: Tally)
      reads this
    {
      && Writing(sb, v0, V(), i, off0, src, off)
      && off0 <= off && i < |v0.inodes| && i < |inodes| && |inodes[i].addrs| == NDIRECT + 1
      && Within(logged, l0, t, Root(inodes[i]), Turns(off0, off), Bitmaps(v0.inodes[i].size, off))
      && Logs(sb, v0.d, l0, d, logged)
    }

    // The loop of writei.  False is a panic.
    method WriteLoop(i: nat, src: seq<byte>, off0: nat) returns (ok: bool)
      requires i < |inodes| && |inodes[i].addrs| == NDIRECT + 1 && off0 <= inodes[i].size
      requires Writing(sb, V(), V(), i, off0, src, off0) && off0 + |src| <= MAXFILE * BSIZE
      modifies this`d, this`inodes, this`owner, this`logged
      ensures Stocked(sb, old(d), d, old(inodes)[i].size, off0, off0 + |src|, ok)
      ensures ok ==> Writing(sb, old(V()), V(), i, off0, src, off0 + |src|)
      ensures ok ==> |logged - old(logged)| <= Spent(old(inodes)[i].size, off0, off0 + |src|)
      ensures ok ==> Logs(sb, old(d), old(logged), d, logged)
    {
      hide Writing, AddrOf, Turns, Bitmaps, Reach, Ceil, Within, Root, Free, Claimed, Logs;
      LogsNone(sb, d, logged);
      ghost var v0, l0, t, end := V(), logged, Tally({}, {}), off0 + |src|;
      SpentStart(inodes[i].size, off0, l0, Root(inodes[i]));
      var off := off0;
      while off < off0 + |src|
        invariant off0 <= off <= off0 + |src|
        invariant WriteState(v0, l0, i, off0, src, off, t)
        invariant off == off0 || off == off0 + |src| || off % BSIZE == 0
        invariant Stocked(sb, v0.d, d, v0.inodes[i].size, off0, off, true)
      {
        var m := if off0 + |src| - off < BSIZE - off % BSIZE then off0 + |src| - off else BSIZE - off % BSIZE;
        ghost var e := d;
        ok, t := CountedTurn(i, src, off0, off, m, v0, l0, t);
        StockedThen(sb, v0.d, e, d, v0.inodes[i].size, off0, off, off + m, end, ok);
        if !ok { return; }
        off := off + m;
      }
      ok := true;
      SpentEnd(logged, l0, t, inodes[i], v0.inodes[i].size, off0, off);
    }

    // writei, for a file.  A write that is not refused overwrites exactly its
    // bytes and leaves everything else alone.
    method Writei(i: nat, src: seq<byte>, off: nat) returns (r: WriteResult)
      requires Whole(sb, V()) && i < |inodes| && off < TWO_TO_THE_32 && |src| < TWO_TO_THE_32
      modifies this`d, this`inodes, this`owner, this`logged
      ensures r.Refused? <==> off > old(inodes)[i].size || off + |src| >= TWO_TO_THE_32 || off + |src| > MAXFILE * BSIZE
      ensures r.Refused? ==> V() == old(V()) && logged == old(logged)
      ensures !r.Refused? ==> Stocked(sb, old(d), d, old(inodes)[i].size, off, off + |src|, r.Wrote?)
      ensures r.Wrote? ==> r.n == |src| && WriteEffect(sb, old(V()), V(), i, off, src)
      ensures r.Wrote? && |src| <= CHUNK ==> |logged - old(logged)| <= MAXOPBLOCKS
      ensures r.Wrote? ==> Logs(sb, old(d), old(logged), d, logged)
    {
      if off > inodes[i].size || (off + |src|) % TWO_TO_THE_32 < off { return Refused; }
      if off + |src| > MAXFILE * BSIZE { return Refused; }
      r := WriteBody(i, src, off);
    }

    // writei past its checks.
    method WriteBody(i: nat, src: seq<byte>, off: nat) returns (r: WriteResult)
      requires Whole(sb, V()) && i < |inodes| && off <= inodes[i].size && off + |src| <= MAXFILE * BSIZE
      modifies this`d, this`inodes, this`owner, this`logged
      ensures !r.Refused? && Stocked(sb, old(d), d, old(inodes)[i].size, off, off + |src|, r.Wrote?)
      ensures r.Wrote? ==> r.n == |src| && WriteEffect(sb, old(V()), V(), i, off, src)
      ensures r.Wrote? && |src| <= CHUNK ==> |logged - old(logged)| <= MAXOPBLOCKS
      ensures r.Wrote? ==> Logs(sb, old(d), old(logged), d, logged)
    {
      hide Writing, WriteEffect, Whole, Spent, Ceil, Free, Finish, Logs;
      ghost var v0 := V();
      WritingStart(sb, v0, i, off, src);
      var ok := WriteLoop(i, src, off);
      if !ok { return Panicked; }
      if |src| <= CHUNK { ChunkBudget(v0.inodes[i].size, off, |src|); }
      WriteDone(sb, v0, V(), i, off, src);
      ghost var e, log := d, logged;
      SetSize(i, |src|, off, v0);
      LogsThen(sb, old(d), old(logged), e, log, d, logged);
      r := Wrote(|src|);
    }

    // The end of writei: set and store the size if the file has grown.
    method SetSize(i: nat, n: nat, off: nat, ghost v0: Volume)
      requires i < |v0.inodes| && i < |inodes| == sb.ninodes && GoodInode(inodes[i]) && Laid(sb, d)
      requires v0.inodes[i].size == inodes[i].size && off <= inodes[i].size && off + n < TWO_TO_THE_32
      modifies this`d, this`inodes, this`logged
      ensures V() == Finish(sb, v0.inodes[i].size, old(V()), i, off + n) && Free(sb, d) == Free(sb, old(d))
      ensures var ip := old(inodes)[i];
              if off + n > ip.size then inodes == old(inodes)[i := ip.(size := off + n)]
              else inodes == old(inodes) && d == old(d)
      ensures Logs(sb, old(d), old(logged), d, logged) && forall l :: |logged - l| <= |old(logged) - l| + 1
    {
      LogsNone(sb, d, logged);
      if n > 0 && off + n > inodes[i].size {
        inodes := inodes[i := inodes[i].(size := off + n)];
        Iupdate(i);
        FreeSame(sb, old(d), d);
        forall l ensures |logged - l| <= |old(logged) - l| + 1 { OneMore(old(logged), l, IBLOCK(sb, i)); }
      }
    }

    // readi, for a file; None is -1.  It returns the slice asked for, cut off at
    // the end of the file, and for all its calls of bmap allocates nothing.
    method Readi(i: nat, off: nat, n: nat) returns (r: Option<seq<byte>>)
      requires Whole(sb, V()) && i < |inodes| && off < TWO_TO_THE_32 && n < TWO_TO_THE_32
      modifies this`d, this`inodes, this`owner, this`logged
      ensures V() == old(V()) && logged == old(logged)
      ensures r.None? <==> off > inodes[i].size || off + n >= TWO_TO_THE_32
      ensures r.Some? ==>
                && |inodes[i].addrs| == NDIRECT + 1
                && var c := Contents(d, inodes[i]);
                   r.value == if off + n > |c| then c[off..] else c[off..off + n]
    {
      var size := inodes[i].size;
      assert NoHoles(d, inodes[i]);
      if off > size || (off + n) % TWO_TO_THE_32 < off { return None; }
      var end := if off + n > size then size else off + n;
      hide Sound, Has, Whole, ByteAt;
      var dst := ReadLoop(i, off, end);
      r := Some(dst);
    }

    method ReadLoop(i: nat, off0: nat, end: nat) returns (dst: seq<byte>)
      requires Sound(sb, d, inodes, owner) && i < |inodes| && NoHoles(d, inodes[i]) && off0 <= end <= inodes[i].size
      modifies this`d, this`inodes, this`owner, this`logged
      ensures V() == old(V()) && logged == old(logged) && dst == Contents(d, inodes[i])[off0..end]
    {
      hide Sound, NoHoles, Ok, Contents, AddrOf, Grew, Free, Logs, TableKept, Ceil;
      ghost var v := V();
      SoundLaid(sb, v);
      ReadOk(sb, v, i);
      var off := off0;
      dst := [];
      while off < end
        invariant off0 <= off <= end && V() == v == old(V()) && logged == old(logged)
        invariant dst == Contents(v.d, v.inodes[i])[off0..off]
      {
        var m := if end - off < BSIZE - off % BSIZE then end - off else BSIZE - off % BSIZE;
        InFile(off, v.inodes[i].size);
        var b;
        ghost var maps;
        b, maps := Bmap(i, off / BSIZE, Ceil(v.inodes[i].size));
        BlockSlice(v.d, v.inodes[i], off0, off, m);
        dst := dst + d[b.value][off % BSIZE..off % BSIZE + m];
        off := off + m;
      }
    }

    // bfree; false is the "freeing free block" panic.
    method Bfree(b: nat) returns (ok: bool)
      requires Laid(sb, d) && b < sb.size
      modifies this`d, this`logged
      ensures ok == Used(sb, old(d), b)
      ensures d == (if ok then Mark(sb, old(d), b, false) else old(d))
      ensures Logs(sb, old(d), old(logged), d, logged) && (!ok ==> logged == old(logged))
    {
      BitmapBlock(sb, d, b);
      var bi := b % BPB;
      if !Bit(d[BBLOCK(sb, b)][bi / 8], bi % 8) { return false; }
      d := d[BBLOCK(sb, b) := Marked(d[BBLOCK(sb, b)], b, false)];
      logged := logged + {BBLOCK(sb, b)};
      ok := true;
    }

    // itrunc; it never hits bfree's panic.
    method Itrunc(i: nat) returns (ok: bool)
      requires Whole(sb, V()) && i < |inodes|
      modifies this`d, this`inodes, this`owner, this`logged
      ensures ok && TruncEffect(sb, old(V()), V(), i) && Logs(sb, old(d), old(logged), d, logged)
    {
      ghost var v := V();
      ok := FreeBlocks(i, v);
      if !ok { return; }
      TruncDone(sb, v, d, i);
      hide Whole, Freed, TruncEffect, AllAddrs, Updated, Logs;
      inodes := inodes[i := Emptied(inodes[i])];
      ghost var e, log := d, logged;
      Iupdate(i);
      LogsThen(sb, v.d, old(logged), e, log, d, logged);
      owner := Disowned(owner, i);
      assert V() == Truncated(sb, v, e, i);
    }

    // The bfree calls of itrunc, in order.
    method FreeBlocks(i: nat, ghost v: Volume) returns (ok: bool)
      requires Sound(sb, d, inodes, owner) && i < |inodes| && v == V()
      modifies this`d, this`logged
      ensures ok && Freed(sb, v.d, d, AllAddrs(v.d, v.inodes[i])) && Logs(sb, old(d), old(logged), d, logged)
    {
      hide Logs;
      ok := FreeDirect(i, v);
      if !ok { return; }
      ghost var e, log := d, logged;
      OwnedAddr(sb, v, i, Indirect);
      var root := inodes[i].addrs[NDIRECT];
      if root == 0 {
        NoIndirect(v.d, v.inodes[i], MAXFILE);
      } else {
        ok := FreeIndirect(i, v);
        if !ok { return; }
        LogsThen(sb, old(d), old(logged), e, log, d, logged);
        e, log := d, logged;
        NotYet(sb, v, i, MAXFILE, Indirect);
        ok := FreeOne(root, v.d, DataAddrs(v.d, v.inodes[i], MAXFILE));
        LogsThen(sb, old(d), old(logged), e, log, d, logged);
      }
    }

    // bfree of a block that was in use and has not been freed yet.
    method FreeOne(a: nat, ghost d0: Disk, ghost f: set<nat>) returns (ok: bool)
      requires Laid(sb, d0) && Freed(sb, d0, d, f) && a < sb.size && Used(sb, d0, a) && a !in f
      modifies this`d, this`logged
      ensures ok && Freed(sb, d0, d, f + {a}) && Logs(sb, old(d), old(logged), d, logged)
    {
      FreedStep(sb, d0, d, f, a);
      ok := Bfree(a);
    }

    method FreeDirect(i: nat, ghost v: Volume) returns (ok: bool)
      requires Sound(sb, d, inodes, owner) && i < |inodes| && v == V()
      modifies this`d, this`logged
      ensures ok && Freed(sb, v.d, d, DataAddrs(v.d, v.inodes[i], NDIRECT)) && Logs(sb, old(d), old(logged), d, logged)
    {
      hide Used, Logs;
      LogsNone(sb, d, logged);
      var bn := 0;
      while bn < NDIRECT
        invariant 0 <= bn <= NDIRECT && Logs(sb, old(d), old(logged), d, logged)
        invariant Freed(sb, v.d, d, DataAddrs(v.d, v.inodes[i], bn))
      {
        OwnedAddr(sb, v, i, Data(bn));
        var a := inodes[i].addrs[bn];
        if a != 0 {
          NotYet(sb, v, i, bn, Data(bn));
          ghost var e, log := d, logged;
          ok := FreeOne(a, v.d, DataAddrs(v.d, v.inodes[i], bn));
          LogsThen(sb, old(d), old(logged), e, log, d, logged);
          if !ok { return; }
        }
        bn := bn + 1;
      }
      ok := true;
    }

    method FreeIndirect(i: nat, ghost v: Volume) returns (ok: bool)
      requires Sound(sb, v.d, v.inodes, v.owner) && i < |inodes| && inodes == v.inodes && inodes[i].addrs[NDIRECT] != 0
      requires Freed(sb, v.d, d, DataAddrs(v.d, v.inodes[i], NDIRECT))
      modifies this`d, this`logged
      ensures ok && Freed(sb, v.d, d, DataAddrs(v.d, v.inodes[i], MAXFILE)) && Logs(sb, old(d), old(logged), d, logged)
    {
      hide Used, Tracked, Exact, InUse, Freed, DataAddrs, Logs;
      LogsNone(sb, d, logged);
      OwnedAddr(sb, v, i, Indirect);
      var root, j := inodes[i].addrs[NDIRECT], 0;
      while j < NINDIRECT
        invariant 0 <= j <= NINDIRECT && Logs(sb, old(d), old(logged), d, logged)
        invariant Freed(sb, v.d, d, DataAddrs(v.d, v.inodes[i], NDIRECT + j))
      {
        FreedKept(sb, v.d, d, DataAddrs(v.d, v.inodes[i], NDIRECT + j));
        DataAddrsNext(v.d, v.inodes[i], NDIRECT + j);
        OwnedAddr(sb, v, i, Data(NDIRECT + j));
        var a := Word(d[root], j);
        assert a == AddrOf(v.d, v.inodes[i], Data(NDIRECT + j));
        if a != 0 {
          NotYet(sb, v, i, NDIRECT + j, Data(NDIRECT + j));
          ghost var e, log := d, logged;
          ok := FreeOne(a, v.d, DataAddrs(v.d, v.inodes[i], NDIRECT + j));
          LogsThen(sb, old(d), old(logged), e, log, d, logged);
          if !ok { return; }
        }
        j := j + 1;
      }
      ok := true;
    }

    // filewrite for an inode file, from file offset off: one transaction per
    // chunk.  txs are the sets of blocks the transactions logged, and vols is the
    // file system before the first and after each of them.
    method FileWrite(i: nat, src: seq<byte>, off: nat)
      returns (r: WriteResult, off': nat, ghost txs: seq<set<nat>>, ghost vols: seq<Volume>)
      requires Whole(sb, V()) && i < |inodes| && off < TWO_TO_THE_32 && |src| < TWO_TO_THE_32
      modifies this`d, this`inodes, this`owner, this`logged
      ensures Chunked(sb, old(V()), vols, txs, i, off, src) && (!r.Panicked? ==> vols[|txs|] == V())
      ensures r.Panicked? <==>
                && off <= old(inodes)[i].size
                && !Enough(sb, old(d), old(inodes)[i].size, off, off + Taken(off, |src|))
      ensures !r.Panicked? ==>
                (r.Refused? <==> |src| > 0 && (off > old(inodes)[i].size || off + |src| > MAXFILE * BSIZE))
      ensures r.Wrote? ==> r.n == |src| && off' == off + |src|
      ensures r.Wrote? && |src| > 0 ==> WriteEffect(sb, old(V()), V(), i, off, src)
      ensures r.Refused? ==>
                && off <= off' < off + |src|
                && (off' > off ==> WriteEffect(sb, old(V()), V(), i, off, src[..off' - off]))
      ensures !r.Panicked? && off' == off ==> V() == old(V())
    {
      hide WriteEffect, Whole, Enough, Taken, Logs, Chunked, Progress, Until;
      ghost var v, size := V(), inodes[i].size;
      Begins(i, src, off);
      ChunkedNone(sb, v, i, off, src);
      var k := 0;
      off', txs, vols := off, [], [v];
      while k < |src|
        invariant 0 <= k <= |src| && off' == off + k && k == Until(|src|, |txs|)
        invariant Progress(v, i, src, off, k)
        invariant |vols| == |txs| + 1 && Chunked(sb, v, vols, txs, i, off, src) && vols[|txs|] == V()
      {
        var n1 := if |src| - k > CHUNK then CHUNK else |src| - k;
        UntilStep(|src|, |txs|, n1);
        Ends(v, i, src, off, k);
        var w := WriteChunk(i, src, off, k, n1, |txs|, v);
        if w == Panicked { return Panicked, off', txs, vols; }
        if w == Refused { return Refused, off', txs, vols; }
        Ends(v, i, src, off, k + n1);
        ChunkedNext(sb, v, vols, txs, i, off, src, logged, V());
        txs, vols := txs + [logged], vols + [V()];
        k, off' := k + n1, off' + n1;
      }
      assert src[..k] == src;
      Ends(v, i, src, off, k);
      r := Wrote(|src|);
    }

    // filewrite has written the first k bytes to the file that v had.
    ghost predicate Progress(v: Volume, i: nat, src: seq<byte>, off: nat, k: nat)
      reads this
    {
      && k <= |src| && Whole(sb, V()) && i < |inodes| && i < |v.inodes|
      && (k == 0 ==> V() == v)
      && (k > 0 ==>
            && WriteEffect(sb, v, V(), i, off, src[..k]) && off <= v.inodes[i].size
            && off + k <= MAXFILE * BSIZE && inodes[i].size == Max(v.inodes[i].size, off + k))
      && k <= Taken(off, |src|) && Stocked(sb, v.d, d, v.inodes[i].size, off, off + k, true)
    }

    lemma Begins(i: nat, src: seq<byte>, off: nat)
      requires Whole(sb, V()) && i < |inodes|
      ensures Progress(V(), i, src, off, 0)
    {
      hide Whole, Stocked;
      WriteStarts(sb, V(), i, off, |src|);
    }

    lemma Ends(v: Volume, i: nat, src: seq<byte>, off: nat, k: nat)
      requires Progress(v, i, src, off, k)
      ensures k <= |src| && i < |v.inodes| && (k == 0 ==> V() == v) && Enough(sb, v.d, v.inodes[i].size, off, off + k)
      ensures k > 0 ==> WriteEffect(sb, v, V(), i, off, src[..k])
      ensures k > 0 ==> off <= v.inodes[i].size && off + k <= MAXFILE * BSIZE
      ensures off + |src| <= MAXFILE * BSIZE || |src| == 0 ==> Taken(off, |src|) == |src|
    {
      hide Whole, WriteEffect, Enough;
    }

    // One turn of the loop: a transaction for the n1 bytes after the first k.
    method WriteChunk(i: nat, src: seq<byte>, off: nat, k: nat, n1: nat, ghost q: nat, ghost v: Volume)
      returns (w: WriteResult)
      requires Progress(v, i, src, off, k) && off < TWO_TO_THE_32 && |src| < TWO_TO_THE_32
      requires k == CHUNK * q < |src| && n1 == (if |src| - k > CHUNK then CHUNK else |src| - k)
      modifies this`d, this`inodes, this`owner, this`logged
      ensures w.Panicked? ==>
                off <= v.inodes[i].size && !Enough(sb, v.d, v.inodes[i].size, off, off + Taken(off, |src|))
      ensures w.Refused? ==>
                && V() == old(V())
                && (off > v.inodes[i].size || (k == Taken(off, |src|) && off + k + n1 > MAXFILE * BSIZE))
      ensures w.Wrote? ==> Progress(v, i, src, off, k + n1)
      ensures w.Wrote? ==> |logged| <= MAXOPBLOCKS && Logs(sb, old(d), {}, d, logged)
    {
      hide WriteEffect, Whole, Stocked, Enough, Taken, Logs;
      ghost var u, size := V(), v.inodes[i].size;
      logged := {};
      TakenStep(off, |src|, q, k, n1);
      w := Writei(i, src[k..k + n1], off + k);
      if w != Refused {
        StockedChunk(sb, v.d, u.d, d, size, u.inodes[i].size, off, off + k, n1, off + Taken(off, |src|), w.Wrote?);
      }
      if w.Wrote? {
        EffectSize(sb, u, V(), i, off + k, src[k..k + n1]);
        if k > 0 { EffectThen(sb, v, u, V(), i, off, src[..k], src[k..k + n1]); }
        assert src[..k + n1] == src[..k] + src[k..k + n1];
        assert logged - {} == logged;
      }
    }
  }
}
