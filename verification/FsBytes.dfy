// Files as byte arrays: what readi and writei of fs.c see through the block map.
module FsBytes {
  import opened Blocks
  import opened FsDisk
  import opened FsBlocks
  import LogDisk

  const MAXOPBLOCKS: nat := LogDisk.MAXOPBLOCKS

  function Ceil(n: nat): nat { (n + BSIZE - 1) / BSIZE }

  function Max(a: int, b: int): int { if a > b then a else b }

  // Byte j of the file, wherever its block is.
  function ByteAt(d: Disk, ip: Inode, j: nat): byte
    requires |ip.addrs| == NDIRECT + 1
  {
    var a := AddrOf(d, ip, Data(j / BSIZE));
    if 0 < a < |d| then d[a][j % BSIZE] else 0
  }

  ghost function Contents(d: Disk, ip: Inode): (c: seq<byte>)
    requires |ip.addrs| == NDIRECT + 1
    ensures |c| == ip.size && forall j | 0 <= j < ip.size :: c[j] == ByteAt(d, ip, j)
  {
    seq(ip.size, j requires 0 <= j < ip.size => ByteAt(d, ip, j))
  }

  // memmove(b + at, data, |data|)
  function Splice(b: Block, at: nat, data: seq<byte>): (r: Block)
    requires at + |data| <= BSIZE
  {
    b[..at] + data + b[at + |data|..]
  }

  // Only inode i's own blocks and pointers may differ.
  ghost predicate Kept(v: Volume, w: Volume, i: nat) {
    && |w.inodes| == |v.inodes| && |w.d| == |v.d| && i < |v.inodes|
    && |w.inodes[i].addrs| == |v.inodes[i].addrs| == NDIRECT + 1
    && w.inodes == v.inodes[i := v.inodes[i].(addrs := w.inodes[i].addrs)]
    && (forall a | a in v.owner :: a in w.owner && w.owner[a] == v.owner[a])
    && (forall a | a in v.owner && a < |v.d| && v.owner[a].i != i :: w.d[a] == v.d[a])
  }

  // Growing a file does not change the bytes it has.
  lemma GrewBytes(sb: Super, v: Volume, w: Volume, i: nat, nb: nat, ind: bool, j: nat)
    requires Ok(sb, v, i, nb, ind) && Grew(v, w, i, nb) && j / BSIZE < nb
    ensures ByteAt(w.d, w.inodes[i], j) == ByteAt(v.d, v.inodes[i], j)
  {
    OwnedAddr(sb, v, i, Data(j / BSIZE));
  }

  // Writing one data block of file i.
  lemma DataWrite(sb: Super, v: Volume, i: nat, nb: nat, ind: bool, bn: nat, blk: Block)
    requires Ok(sb, v, i, nb, ind) && bn < nb
    ensures var a := AddrOf(v.d, v.inodes[i], Data(bn));
            && 0 < a < |v.d|
            && var w := v.(d := v.d[a := blk]);
            && Ok(sb, w, i, nb, ind) && Kept(v, w, i) && TableKept(sb, v.d, w.d) && Free(sb, w.d) == Free(sb, v.d)
            && AddrOf(w.d, w.inodes[i], Data(bn)) == a
            && forall j {:trigger ByteAt(w.d, w.inodes[i], j)} | 0 <= j < nb * BSIZE ::
                 ByteAt(w.d, w.inodes[i], j) == if j / BSIZE == bn then blk[j % BSIZE] else ByteAt(v.d, v.inodes[i], j)
  {
    hide AddrOf, ByteAt, Tracked, Exact, Used, Free;
    OwnedAddr(sb, v, i, Data(bn));
    var a := AddrOf(v.d, v.inodes[i], Data(bn));
    var w := v.(d := v.d[a := blk]);
    UsedSame(sb, v.d, w.d);
    FreeSame(sb, v.d, w.d);
    StillSound(sb, v.d, w.d, v.inodes, v.owner);
    SameAddrs(v.d, w.d, v.inodes, v.owner, i, Data(bn));
    forall j {:trigger ByteAt(w.d, w.inodes[i], j)} | 0 <= j < nb * BSIZE
      ensures ByteAt(w.d, w.inodes[i], j) == if j / BSIZE == bn then blk[j % BSIZE] else ByteAt(v.d, v.inodes[i], j)
    {
      DataWriteByte(sb, v, i, nb, bn, blk, j);
    }
  }

  lemma DataWriteByte(sb: Super, v: Volume, i: nat, nb: nat, bn: nat, blk: Block, j: nat)
    requires Sound(sb, v.d, v.inodes, v.owner) && i < |v.inodes|
    requires 0 < AddrOf(v.d, v.inodes[i], Data(bn)) < |v.d|
    ensures var e := v.d[AddrOf(v.d, v.inodes[i], Data(bn)) := blk];
            ByteAt(e, v.inodes[i], j) == if j / BSIZE == bn then blk[j % BSIZE] else ByteAt(v.d, v.inodes[i], j)
  {
    hide AddrOf, Tracked, Exact, InUse;
    var e := v.d[AddrOf(v.d, v.inodes[i], Data(bn)) := blk];
    OwnedAddr(sb, v, i, Data(bn));
    OwnedAddr(sb, v, i, Data(j / BSIZE));
    SameAddrs(v.d, e, v.inodes, v.owner, i, Data(j / BSIZE));
  }

  // The other files: same inode, same bytes.
  lemma KeptFiles(sb: Super, v: Volume, w: Volume, i: nat, k: nat)
    requires Sound(sb, v.d, v.inodes, v.owner) && Kept(v, w, i) && k < |v.inodes| && k != i
    ensures w.inodes[k] == v.inodes[k] && Contents(w.d, w.inodes[k]) == Contents(v.d, v.inodes[k])
  {
    OwnedAddr(sb, v, k, Indirect);
    forall j | 0 <= j < v.inodes[k].size ensures ByteAt(w.d, w.inodes[k], j) == ByteAt(v.d, v.inodes[k], j) {
      OwnedAddr(sb, v, k, Data(j / BSIZE));
      assert AddrOf(w.d, w.inodes[k], Data(j / BSIZE)) == AddrOf(v.d, v.inodes[k], Data(j / BSIZE));
    }
  }

  lemma GrewKept(v: Volume, w: Volume, i: nat, nb: nat)
    requires Grew(v, w, i, nb)
    ensures Kept(v, w, i)
  {
  }

  lemma KeptTrans(u: Volume, v: Volume, w: Volume, i: nat)
    requires Kept(u, v, i) && Kept(v, w, i)
    ensures Kept(u, w, i)
  {
  }

  // How many blocks file i has once bytes up to off have been written.
  function Reach(size: nat, off: nat): nat { Max(Ceil(size), Ceil(off)) }

  // The bytes of file i after src[..off - off0] went in at off0.
  ghost predicate BytesDone(v0: Volume, v: Volume, i: nat, off0: nat, src: seq<byte>, off: nat)
    requires i < |v0.inodes| && |v0.inodes[i].addrs| == NDIRECT + 1
    requires i < |v.inodes| && |v.inodes[i].addrs| == NDIRECT + 1
  {
    off0 <= off <= off0 + |src|
    && forall j {:trigger ByteAt(v.d, v.inodes[i], j)} | 0 <= j < Max(v0.inodes[i].size, off) ::
         ByteAt(v.d, v.inodes[i], j) == if off0 <= j < off then src[j - off0] else ByteAt(v0.d, v0.inodes[i], j)
  }

  // Where the loop of writei is at offset off.
  ghost predicate Writing(sb: Super, v0: Volume, v: Volume, i: nat, off0: nat, src: seq<byte>, off: nat) {
    && Kept(v0, v, i) && TableKept(sb, v0.d, v.d)
    && i < |v0.inodes| && off0 <= off && off0 <= v0.inodes[i].size
    && Ok(sb, v, i, Reach(v0.inodes[i].size, off), Reach(v0.inodes[i].size, off) > NDIRECT)
    && (Ceil(off) <= Ceil(v0.inodes[i].size) ==> v.inodes == v0.inodes)
    && BytesDone(v0, v, i, off0, src, off)
  }

  lemma WritingOk(sb: Super, v0: Volume, v: Volume, i: nat, off0: nat, src: seq<byte>, off: nat)
    requires Writing(sb, v0, v, i, off0, src, off)
    ensures i < |v0.inodes| && i < |v.inodes| && |v.inodes[i].addrs| == NDIRECT + 1 && off0 <= off
    ensures Ok(sb, v, i, Reach(v0.inodes[i].size, off), Reach(v0.inodes[i].size, off) > NDIRECT)
  {
    hide Tracked, Exact, InUse, AddrOf, BytesDone, Kept;
  }

  // The block number of off, and what one turn of the loop adds.
  lemma ReachStep(size: nat, off: nat, m: nat)
    requires 0 < m <= BSIZE - off % BSIZE
    ensures Ceil(off + m) == off / BSIZE + 1
    ensures Reach(size, off + m) == Max(Reach(size, off), off / BSIZE + 1)
    ensures off / BSIZE <= Ceil(off)
  {
  }

  // One turn: bmap gave u, in which block off / BSIZE exists, and m bytes go in.
  lemma WritingStep(sb: Super, v0: Volume, v: Volume, u: Volume, i: nat, off0: nat, src: seq<byte>, off: nat, m: nat)
    requires Writing(sb, v0, v, i, off0, src, off) && 0 < m <= BSIZE - off % BSIZE && off + m <= off0 + |src|
    requires Grew(v, u, i, Reach(v0.inodes[i].size, off)) && TableKept(sb, v.d, u.d)
    requires Ok(sb, u, i, Reach(v0.inodes[i].size, off + m), Reach(v0.inodes[i].size, off + m) > NDIRECT)
    requires off / BSIZE < Reach(v0.inodes[i].size, off) ==> u == v
    ensures var a := AddrOf(u.d, u.inodes[i], Data(off / BSIZE));
            && 0 < a < |u.d|
            && Writing(sb, v0, u.(d := u.d[a := Splice(u.d[a], off % BSIZE, src[off - off0..off - off0 + m])]), i,
               off0, src, off + m)
  {
    hide Tracked, Exact, InUse, Has, ByteAt, AddrOf, Splice, BytesDone;
    var size, bn := v0.inodes[i].size, off / BSIZE;
    var nb, nb' := Reach(size, off), Reach(size, off + m);
    ReachStep(size, off, m);
    OwnedAddr(sb, u, i, Data(bn));
    var a := AddrOf(u.d, u.inodes[i], Data(bn));
    var blk := Splice(u.d[a], off % BSIZE, src[off - off0..off - off0 + m]);
    DataWrite(sb, u, i, nb', nb' > NDIRECT, bn, blk);
    var w := u.(d := u.d[a := blk]);
    GrewKept(v, u, i, nb);
    KeptTrans(v0, v, u, i);
    KeptTrans(v0, u, w, i);
    WritingBytes(sb, v0, v, u, w, i, off0, src, off, m, blk);
  }

  lemma WritingBytes(sb: Super, v0: Volume, v: Volume, u: Volume, w: Volume, i: nat, off0: nat, src: seq<byte>,
          off: nat, m: nat, blk: Block)
    requires Writing(sb, v0, v, i, off0, src, off) && 0 < m <= BSIZE - off % BSIZE && off + m <= off0 + |src|
    requires Grew(v, u, i, Reach(v0.inodes[i].size, off))
    requires i < |w.inodes| && |w.inodes[i].addrs| == NDIRECT + 1
    requires var a := AddrOf(u.d, u.inodes[i], Data(off / BSIZE));
             0 < a < |u.d| && blk == Splice(u.d[a], off % BSIZE, src[off - off0..off - off0 + m])
    requires forall j {:trigger ByteAt(w.d, w.inodes[i], j)} | 0 <= j < Reach(v0.inodes[i].size, off + m) * BSIZE ::
               ByteAt(w.d, w.inodes[i], j) ==
                 if j / BSIZE == off / BSIZE then blk[j % BSIZE] else ByteAt(u.d, u.inodes[i], j)
    ensures BytesDone(v0, w, i, off0, src, off + m)
  {
    var size, bn := v0.inodes[i].size, off / BSIZE;
    forall j | 0 <= j < Max(size, off + m)
      ensures ByteAt(w.d, w.inodes[i], j) ==
              if off0 <= j < off + m then src[j - off0] else ByteAt(v0.d, v0.inodes[i], j)
    {
      WritingByte(sb, v0, v, u, i, off0, src, off, m, blk, j);
      ReachStep(size, off, m);
      assert j / BSIZE < Reach(size, off + m);
    }
  }

  // Byte j after the turn: new, or as it was.
  lemma WritingByte(sb: Super, v0: Volume, v: Volume, u: Volume, i: nat, off0: nat, src: seq<byte>, off: nat, m: nat,
          blk: Block, j: nat)
    requires Writing(sb, v0, v, i, off0, src, off) && 0 < m <= BSIZE - off % BSIZE && off + m <= off0 + |src|
    requires Grew(v, u, i, Reach(v0.inodes[i].size, off))
    requires var a := AddrOf(u.d, u.inodes[i], Data(off / BSIZE));
             0 < a < |u.d| && blk == Splice(u.d[a], off % BSIZE, src[off - off0..off - off0 + m])
    requires j < Max(v0.inodes[i].size, off + m)
    ensures (if j / BSIZE == off / BSIZE then blk[j % BSIZE] else ByteAt(u.d, u.inodes[i], j))
         == if off0 <= j < off + m then src[j - off0] else ByteAt(v0.d, v0.inodes[i], j)
  {
    hide Tracked, Exact, InUse, Has, AddrOf, Kept, Sound;
    var nb := Reach(v0.inodes[i].size, off);
    if off <= j < off + m {
    } else {
      assert j / BSIZE < nb;
      GrewBytes(sb, v, u, i, nb, nb > NDIRECT, j);
      assert j / BSIZE == off / BSIZE ==> blk[j % BSIZE] == ByteAt(u.d, u.inodes[i], j);
    }
  }

  // Turns of the loop between two offsets, bitmap blocks written, and in all
  // the blocks that the loop logs: data, bitmap, and the indirect block.
  function Turns(off0: nat, off: nat): int { if off <= off0 then 0 else Ceil(off) - off0 / BSIZE }

  function Bitmaps(size: nat, off: nat): int {
    Reach(size, off) - Ceil(size) + if Ceil(size) <= NDIRECT < Reach(size, off) then 1 else 0
  }

  function Spent(size: nat, off0: nat, off: nat): int { Turns(off0, off) + Bitmaps(size, off) + 1 }

  lemma SpentStart(size: nat, off0: nat, l0: set<nat>, root: set<nat>)
    requires off0 <= size
    ensures Within(l0, l0, Tally({}, {}), root, Turns(off0, off0), Bitmaps(size, off0))
  {
  }

  lemma CeilMono(a: nat, b: nat)
    requires a <= b
    ensures Ceil(a) <= Ceil(b)
  {
  }

  lemma SpentStep(size: nat, off0: nat, off: nat, m: nat)
    requires off0 <= off && 0 < m <= BSIZE - off % BSIZE && (off == off0 || off % BSIZE == 0)
    ensures Turns(off0, off + m) >= Turns(off0, off) + 1
    ensures Bitmaps(size, off + m) >= Bitmaps(size, off) + Reach(size, off + m) - Reach(size, off)
              + if off / BSIZE == Reach(size, off) == NDIRECT then 1 else 0
  {
    ReachStep(size, off, m);
  }

  // The blocks logged since l0: at most nd data blocks and nm bitmap blocks,
  // and the indirect block.
  datatype Tally = Tally(datas: set<nat>, maps: set<nat>)

  ghost predicate Within(l: set<nat>, l0: set<nat>, t: Tally, root: set<nat>, nd: int, nm: int) {
    l <= l0 + t.datas + t.maps + root && |t.datas| <= nd && |t.maps| <= nm
  }

  lemma WithinStep(l: set<nat>, l0: set<nat>, t: Tally, root: set<nat>, nd: int, nm: int, l': set<nat>, a: nat,
          maps: set<nat>, root': set<nat>)
    requires Within(l, l0, t, root, nd, nm) && l' <= l + maps + {a} + root' && root <= root'
    ensures Within(l', l0, Tally(t.datas + {a}, t.maps + maps), root', nd + 1, nm + |maps|)
  {
  }

  lemma WithinMore(l: set<nat>, l0: set<nat>, t: Tally, root: set<nat>, nd: int, nm: int, nd': int, nm': int)
    requires Within(l, l0, t, root, nd, nm) && nd <= nd' && nm <= nm'
    ensures Within(l, l0, t, root, nd', nm')
  {
  }

  lemma SpentEnd(l: set<nat>, l0: set<nat>, t: Tally, ip: Inode, size: nat, off0: nat, off: nat)
    requires |ip.addrs| == NDIRECT + 1 && Within(l, l0, t, Root(ip), Turns(off0, off), Bitmaps(size, off))
    ensures |l - l0| <= Spent(size, off0, off)
  {
    CardBound(l - l0, t.datas, t.maps, Root(ip));
  }

  // filewrite's chunk: ((MAXOPBLOCKS-1-1-2) / 2) * 512 bytes.
  const CHUNK: nat := (MAXOPBLOCKS - 1 - 1 - 2) / 2 * 512

  // However a chunk lies, it costs at most MAXOPBLOCKS with the inode block,
  // even if each allocation is in a bitmap block of its own: four blocks are
  // touched only if the first is already there.
  lemma ChunkBudget(size: nat, off0: nat, n: nat)
    requires off0 <= size && n <= CHUNK
    ensures Spent(size, off0, off0 + n) + 1 <= MAXOPBLOCKS
  {
    var q, r := off0 / BSIZE, off0 % BSIZE;
    assert off0 == BSIZE * q + r;
    assert Ceil(off0) == q + if r == 0 then 0 else 1;
    CeilMono(off0, size);
    if n > 0 {
      assert Ceil(off0 + n) <= q + if r == 0 then 3 else 4;
    }
  }

  lemma CardBound(s: set<nat>, a: set<nat>, b: set<nat>, c: set<nat>)
    requires s <= a + b + c
    ensures |s| <= |a| + |b| + |c|
  {
    SubsetCard(s, a + b + c);
    assert |a + b + c| <= |a + b| + |c| && |a + b| <= |a| + |b|;
  }

  lemma {:induction false} SubsetCard(s: set<nat>, t: set<nat>)
    requires s <= t
    ensures |s| <= |t|
  {
    if s != {} {
      var x :| x in s;
      SubsetCard(s - {x}, t - {x});
    }
  }

  // A file has exactly the blocks its size needs.
  ghost predicate NoHoles(d: Disk, ip: Inode)
    requires |ip.addrs| == NDIRECT + 1
  {
    ip.size <= MAXFILE * BSIZE && Maps(d, ip, Ceil(ip.size))
  }

  // The file system between operations: blocks owned once, no holes, and the
  // inode table on disk agreeing with the inodes in memory.
  ghost predicate Whole(sb: Super, v: Volume) {
    && Sound(sb, v.d, v.inodes, v.owner)
    && (forall k | 0 <= k < |v.inodes| :: NoHoles(v.d, v.inodes[k]))
    && forall k | 0 <= k < |v.inodes| :: DiskInode(sb, v.d, k) == v.inodes[k]
  }

  // A disk of zeros with the first k blocks marked in use.
  function Formatted(sb: Super, k: nat): (d: Disk)
    requires Laid(sb, seq(sb.size, _ => ZeroBlock())) && k <= sb.size
    ensures Laid(sb, d)
  {
    if k == 0 then seq(sb.size, _ => ZeroBlock()) else Mark(sb, Formatted(sb, k - 1), k - 1, true)
  }

  lemma {:induction false} FormattedAt(sb: Super, k: nat, c: nat)
    requires Laid(sb, seq(sb.size, _ => ZeroBlock())) && k <= sb.size && c < sb.size
    ensures c < k ==> Used(sb, Formatted(sb, k), c)
    ensures c < sb.bmapstart ==> Formatted(sb, k)[c] == ZeroBlock()
  {
    hide Used, Mark;
    if k > 0 {
      FormattedAt(sb, k - 1, c);
      UsedOfMark(sb, Formatted(sb, k - 1), k - 1, true, c);
    }
  }

  function NoInode(): Inode { Inode(0, 0, 0, 0, 0, seq(NDIRECT + 1, _ => 0)) }

  // A new file system, with its metadata blocks marked and no files, is whole.
  lemma FormattedIsWhole(sb: Super)
    requires Laid(sb, seq(sb.size, _ => ZeroBlock()))
    ensures Whole(sb, Volume(Formatted(sb, sb.datastart), seq(sb.ninodes, _ => NoInode()), map[]))
  {
    var d, inodes := Formatted(sb, sb.datastart), seq(sb.ninodes, _ => NoInode());
    forall b | 0 <= b < sb.datastart ensures Used(sb, d, b) { FormattedAt(sb, sb.datastart, b); }
    forall k | 0 <= k < sb.ninodes ensures DiskInode(sb, d, k) == NoInode() {
      FormattedAt(sb, sb.datastart, IBLOCK(sb, k));
      ZeroInode(16 * (k % IPB));
    }
    hide Used, Formatted, DiskInode;
  }

  lemma ZeroInode(at: nat)
    requires at + 16 <= BSIZE / 4
    ensures WordsInode(GetWords(ZeroBlock(), at, 16)) == NoInode()
  {
    var ws := GetWords(ZeroBlock(), at, 16);
    forall j | 0 <= j < 16 ensures ws[j] == 0 { GetWordsAt(ZeroBlock(), at, 16, j); }
    assert ws[3..] == NoInode().addrs;
  }

  // iupdate of inode i with a new size but the same pointers.
  function Resize(sb: Super, v: Volume, i: nat, size: nat): (w: Volume)
    requires Laid(sb, v.d) && i < sb.ninodes && i < |v.inodes| && GoodInode(v.inodes[i]) && size < TWO_TO_THE_32
  {
    var ip := v.inodes[i].(size := size);
    Volume(Updated(sb, v.d, i, ip), v.inodes[i := ip], v.owner)
  }

  lemma ResizeKeeps(sb: Super, v: Volume, i: nat, size: nat)
    requires Sound(sb, v.d, v.inodes, v.owner) && i < |v.inodes| && size < TWO_TO_THE_32
    ensures var w := Resize(sb, v, i, size);
            && Sound(sb, w.d, w.inodes, w.owner)
            && (forall k, x | 0 <= k < |v.inodes| :: AddrOf(w.d, w.inodes[k], x) == AddrOf(v.d, v.inodes[k], x))
            && (forall a | a in v.owner :: w.d[a] == v.d[a])
  {
    hide Used, AddrOf, Tracked, Exact, Resize;
    var w := Resize(sb, v, i, size);
    ResizeBlocks(sb, v, i, size);
    UsedSame(sb, v.d, w.d);
    forall k, x | 0 <= k < |v.inodes| ensures AddrOf(w.d, w.inodes[k], x) == AddrOf(v.d, v.inodes[k], x) {
      SameAddrs(v.d, w.d, v.inodes, v.owner, k, x);
      AddrsOnly(w.d, v.inodes[k], w.inodes[k], x);
    }
    SamePointers(v, w);
  }

  // Of the disk only the inode table changes, and of the inodes only a size.
  lemma ResizeBlocks(sb: Super, v: Volume, i: nat, size: nat)
    requires Laid(sb, v.d) && GoodInodes(sb, v.inodes) && i < |v.inodes| && size < TWO_TO_THE_32
    ensures var w := Resize(sb, v, i, size);
            && |w.d| == |v.d| && (forall c | sb.bmapstart <= c < |v.d| :: w.d[c] == v.d[c])
            && w.owner == v.owner && GoodInodes(sb, w.inodes)
            && forall k | 0 <= k < |v.inodes| :: w.inodes[k].addrs == v.inodes[k].addrs
  {
  }

  lemma AddrsOnly(d: Disk, ip: Inode, jp: Inode, x: Ref)
    requires |ip.addrs| == NDIRECT + 1 && jp.addrs == ip.addrs
    ensures AddrOf(d, jp, x) == AddrOf(d, ip, x)
  {
  }

  lemma SamePointers(v: Volume, w: Volume)
    requires Tracked(v.d, v.inodes, v.owner) && Exact(v.d, v.inodes, v.owner)
    requires |w.inodes| == |v.inodes| && w.owner == v.owner
    requires forall k | 0 <= k < |v.inodes| :: |w.inodes[k].addrs| == NDIRECT + 1
    requires forall k, x | 0 <= k < |v.inodes| :: AddrOf(w.d, w.inodes[k], x) == AddrOf(v.d, v.inodes[k], x)
    ensures Tracked(w.d, w.inodes, w.owner) && Exact(w.d, w.inodes, w.owner)
  {
    hide AddrOf;
  }

  // The byte array c with src written over it at off, growing it if need be.
  function Overwrite(c: seq<byte>, off: nat, src: seq<byte>): (r: seq<byte>)
    requires off <= |c|
  {
    c[..off] + src + if off + |src| < |c| then c[off + |src|..] else []
  }

  // The end of writei: a longer file gets its new size, and iupdate.
  function Finish(sb: Super, size: nat, v: Volume, i: nat, end: nat): (w: Volume)
    requires Laid(sb, v.d) && i < sb.ninodes && i < |v.inodes| && GoodInode(v.inodes[i]) && end < TWO_TO_THE_32
  {
    if end > size then Resize(sb, v, i, end) else v
  }

  ghost predicate Written(sb: Super, v0: Volume, v: Volume, i: nat, off0: nat, src: seq<byte>) {
    && Whole(sb, v0) && Writing(sb, v0, v, i, off0, src, off0 + |src|) && off0 + |src| <= MAXFILE * BSIZE
  }

  lemma WrittenFacts(sb: Super, v0: Volume, v: Volume, i: nat, off0: nat, src: seq<byte>)
    requires Written(sb, v0, v, i, off0, src)
    ensures Sound(sb, v0.d, v0.inodes, v0.owner) && Sound(sb, v.d, v.inodes, v.owner) && Laid(sb, v.d)
    ensures Kept(v0, v, i) && TableKept(sb, v0.d, v.d)
    ensures i < |v0.inodes| == |v.inodes| == sb.ninodes && GoodInode(v.inodes[i]) && GoodInode(v0.inodes[i])
    ensures v.inodes[i].size == v0.inodes[i].size && off0 <= v0.inodes[i].size
    ensures off0 + |src| <= MAXFILE * BSIZE && BytesDone(v0, v, i, off0, src, off0 + |src|)
    ensures var nb := Reach(v0.inodes[i].size, off0 + |src|); Has(v.d, v.inodes[i], nb, nb > NDIRECT)
    ensures Ceil(off0 + |src|) <= Ceil(v0.inodes[i].size) ==> v.inodes == v0.inodes
  {
    hide AddrOf, Tracked, Exact, InUse, Has, BytesDone, TableKept;
  }

  // The written file is the old one overwritten.
  lemma OverwriteBytes(d0: Disk, ip0: Inode, d: Disk, ip: Inode, off0: nat, src: seq<byte>)
    requires |ip0.addrs| == |ip.addrs| == NDIRECT + 1 && off0 <= ip0.size && ip.size == Max(ip0.size, off0 + |src|)
    requires forall j {:trigger ByteAt(d, ip, j)} | 0 <= j < ip.size ::
               ByteAt(d, ip, j) == if off0 <= j < off0 + |src| then src[j - off0] else ByteAt(d0, ip0, j)
    ensures Contents(d, ip) == Overwrite(Contents(d0, ip0), off0, src)
  {
    hide ByteAt;
  }

  lemma FinishBytes(sb: Super, v0: Volume, v: Volume, i: nat, off0: nat, src: seq<byte>)
    requires Sound(sb, v.d, v.inodes, v.owner) && i < |v0.inodes| && i < |v.inodes|
    requires |v0.inodes[i].addrs| == NDIRECT + 1 && v.inodes[i].size == v0.inodes[i].size && off0 <= v0.inodes[i].size
    requires off0 + |src| <= MAXFILE * BSIZE && BytesDone(v0, v, i, off0, src, off0 + |src|)
    ensures var w := Finish(sb, v0.inodes[i].size, v, i, off0 + |src|);
            && |w.inodes[i].addrs| == NDIRECT + 1
            && Contents(w.d, w.inodes[i]) == Overwrite(Contents(v0.d, v0.inodes[i]), off0, src)
  {
    hide Tracked, Exact, InUse, Updated, AddrOf, ByteAt, Contents, Overwrite;
    var size, end := v0.inodes[i].size, off0 + |src|;
    var w := Finish(sb, size, v, i, end);
    forall j {:trigger ByteAt(w.d, w.inodes[i], j)} | 0 <= j < Max(size, end)
      ensures ByteAt(w.d, w.inodes[i], j) == ByteAt(v.d, v.inodes[i], j)
    {
      if end > size { ResizeByte(sb, v, i, end, i, j); }
    }
    OverwriteBytes(v0.d, v0.inodes[i], w.d, w.inodes[i], off0, src);
  }

  lemma ResizeByte(sb: Super, v: Volume, i: nat, size: nat, k: nat, j: nat)
    requires Sound(sb, v.d, v.inodes, v.owner) && i < |v.inodes| && size < TWO_TO_THE_32 && k < |v.inodes|
    ensures var w := Resize(sb, v, i, size);
            |w.inodes[k].addrs| == NDIRECT + 1 && ByteAt(w.d, w.inodes[k], j) == ByteAt(v.d, v.inodes[k], j)
  {
    hide AddrOf, Exact, InUse, Updated;
    ResizeKeeps(sb, v, i, size);
    OwnedAddr(sb, v, k, Data(j / BSIZE));
  }

  lemma KeptAddrs(sb: Super, v: Volume, w: Volume, i: nat, k: nat, x: Ref)
    requires Sound(sb, v.d, v.inodes, v.owner) && Kept(v, w, i) && k < |v.inodes| && k != i
    ensures w.inodes[k] == v.inodes[k] && AddrOf(w.d, w.inodes[k], x) == AddrOf(v.d, v.inodes[k], x)
  {
    OwnedAddr(sb, v, k, Indirect);
  }

  // No holes afterwards, in the written file and in any other.
  lemma FinishNoHoles(sb: Super, size: nat, v: Volume, i: nat, end: nat)
    requires Sound(sb, v.d, v.inodes, v.owner) && i < |v.inodes| && v.inodes[i].size == size
    requires Has(v.d, v.inodes[i], Reach(size, end), Reach(size, end) > NDIRECT) && size <= MAXFILE * BSIZE
             && end <= MAXFILE * BSIZE
    ensures var w := Finish(sb, size, v, i, end);
            |w.inodes[i].addrs| == NDIRECT + 1 && NoHoles(w.d, w.inodes[i])
  {
    ReachCeil(size, end);
    if end > size {
      ResizeKeeps(sb, v, i, end);
      var w := Resize(sb, v, i, end);
      FromAddrs(v.d, v.inodes[i], w.d, w.inodes[i], Reach(size, end), Reach(size, end) > NDIRECT);
    }
  }

  lemma FinishOther(sb: Super, v0: Volume, v: Volume, i: nat, end: nat, k: nat)
    requires Sound(sb, v0.d, v0.inodes, v0.owner) && Sound(sb, v.d, v.inodes, v.owner) && Kept(v0, v, i)
    requires k < |v0.inodes| && k != i && NoHoles(v0.d, v0.inodes[k]) && end < TWO_TO_THE_32
    ensures var w := Finish(sb, v0.inodes[i].size, v, i, end);
            && |w.inodes| == |v0.inodes| && w.inodes[k] == v0.inodes[k]
            && NoHoles(w.d, w.inodes[k]) && Contents(w.d, w.inodes[k]) == Contents(v0.d, v0.inodes[k])
  {
    var size, nb := v0.inodes[i].size, Ceil(v0.inodes[k].size);
    var w := Finish(sb, size, v, i, end);
    KeptFiles(sb, v0, v, i, k);
    forall x ensures AddrOf(v.d, v.inodes[k], x) == AddrOf(v0.d, v0.inodes[k], x) { KeptAddrs(sb, v0, v, i, k, x); }
    hide Tracked, Exact, InUse, Updated, AddrOf, Contents, Has, Kept;
    FromAddrs(v0.d, v0.inodes[k], v.d, v.inodes[k], nb, nb > NDIRECT);
    if end > size {
      ResizeFile(sb, v, i, end, k);
      ResizeKeeps(sb, v, i, end);
      FromAddrs(v.d, v.inodes[k], w.d, w.inodes[k], nb, nb > NDIRECT);
    }
  }

  lemma ReachCeil(a: nat, b: nat)
    ensures Reach(a, b) == Ceil(Max(a, b))
  {
  }

  // Has reads nothing but pointers.
  lemma FromAddrs(d: Disk, ip: Inode, e: Disk, iq: Inode, nb: nat, ind: bool)
    requires |ip.addrs| == |iq.addrs| == NDIRECT + 1 && Has(d, ip, nb, ind)
    requires forall x :: AddrOf(e, iq, x) == AddrOf(d, ip, x)
    ensures Has(e, iq, nb, ind)
  {
    assert AddrOf(d, ip, Indirect) == ip.addrs[NDIRECT] && AddrOf(e, iq, Indirect) == iq.addrs[NDIRECT];
  }

  // The inode table on disk agrees with memory when writei returns.
  lemma FinishSynced(sb: Super, v0: Volume, v: Volume, i: nat, end: nat, k: nat)
    requires Laid(sb, v0.d) && Laid(sb, v.d) && TableKept(sb, v0.d, v.d)
             && i < sb.ninodes == |v.inodes| == |v0.inodes| && k < sb.ninodes
    requires GoodInode(v.inodes[i]) && end < TWO_TO_THE_32
    requires v.inodes == v0.inodes[i := v.inodes[i]] && DiskInode(sb, v0.d, k) == v0.inodes[k]
    requires Ceil(end) <= Ceil(v0.inodes[i].size) ==> v.inodes == v0.inodes
    ensures var w := Finish(sb, v0.inodes[i].size, v, i, end);
            Laid(sb, w.d) && DiskInode(sb, w.d, k) == w.inodes[k]
  {
    var size := v0.inodes[i].size;
    assert v.d[IBLOCK(sb, k)] == v0.d[IBLOCK(sb, k)];
    if end > size {
      InodeRoundTrip(sb, v.d, i, v.inodes[i].(size := end), k);
    } else {
      CeilMono(end, size);
    }
  }

  // Every other file has the same inode and the same contents.
  ghost predicate OthersSame(v: Volume, w: Volume, i: nat) {
    && |w.inodes| == |v.inodes|
    && forall k | 0 <= k < |v.inodes| && k != i ::
         && w.inodes[k] == v.inodes[k] && |v.inodes[k].addrs| == NDIRECT + 1
         && Contents(w.d, w.inodes[k]) == Contents(v.d, v.inodes[k])
  }

  // writei in full.
  lemma WriteDone(sb: Super, v0: Volume, v: Volume, i: nat, off0: nat, src: seq<byte>)
    requires Written(sb, v0, v, i, off0, src)
    ensures i < |v0.inodes| == |v.inodes| == sb.ninodes && GoodInode(v.inodes[i]) && Laid(sb, v.d)
            && v.inodes[i].size == v0.inodes[i].size
    ensures WriteEffect(sb, v0, Finish(sb, v0.inodes[i].size, v, i, off0 + |src|), i, off0, src)
  {
    hide *;
    WrittenFacts(sb, v0, v, i, off0, src);
    WrittenBefore(sb, v0, v, i, off0, src);
    FinishWrite(sb, v0, v, i, off0, src);
  }

  lemma WrittenBefore(sb: Super, v0: Volume, v: Volume, i: nat, off0: nat, src: seq<byte>)
    requires Written(sb, v0, v, i, off0, src)
    ensures Sound(sb, v0.d, v0.inodes, v0.owner) && i < |v0.inodes| && v0.inodes[i].size <= MAXFILE * BSIZE
    ensures forall k | 0 <= k < |v0.inodes| :: NoHoles(v0.d, v0.inodes[k]) && DiskInode(sb, v0.d, k) == v0.inodes[k]
  {
    assert NoHoles(v0.d, v0.inodes[i]);
    hide Sound, Has, DiskInode, Writing;
  }

  lemma FinishWrite(sb: Super, v0: Volume, v: Volume, i: nat, off0: nat, src: seq<byte>)
    requires Sound(sb, v0.d, v0.inodes, v0.owner) && Sound(sb, v.d, v.inodes, v.owner)
    requires Kept(v0, v, i) && TableKept(sb, v0.d, v.d) && i < |v0.inodes| == |v.inodes|
    requires v.inodes[i].size == v0.inodes[i].size && off0 <= v0.inodes[i].size
    requires v0.inodes[i].size <= MAXFILE * BSIZE && off0 + |src| <= MAXFILE * BSIZE
    requires BytesDone(v0, v, i, off0, src, off0 + |src|)
    requires var nb := Reach(v0.inodes[i].size, off0 + |src|); Has(v.d, v.inodes[i], nb, nb > NDIRECT)
    requires Ceil(off0 + |src|) <= Ceil(v0.inodes[i].size) ==> v.inodes == v0.inodes
    requires forall k | 0 <= k < |v0.inodes| :: NoHoles(v0.d, v0.inodes[k]) && DiskInode(sb, v0.d, k) == v0.inodes[k]
    ensures WriteEffect(sb, v0, Finish(sb, v0.inodes[i].size, v, i, off0 + |src|), i, off0, src)
  {
    hide Tracked, Exact, InUse, BytesDone, Has, NoHoles, DiskInode, OthersSame, Contents, Overwrite, Updated, Reach,
      Kept, TableKept, Whole;
    var size, end := v0.inodes[i].size, off0 + |src|;
    FinishBytes(sb, v0, v, i, off0, src);
    FinishNoHoles(sb, size, v, i, end);
    if end > size { ResizeKeeps(sb, v, i, end); }
    FinishAll(sb, v0, v, i, end);
    FinishGrown(sb, v0, v, i, end);
  }

  lemma FinishGrown(sb: Super, v0: Volume, v: Volume, i: nat, end: nat)
    requires Kept(v0, v, i) && Laid(sb, v.d) && i < sb.ninodes && i < |v0.inodes| && GoodInode(v.inodes[i])
    requires end < TWO_TO_THE_32 && v.inodes[i].size == v0.inodes[i].size
    ensures Grown(v0.inodes[i], Finish(sb, v0.inodes[i].size, v, i, end).inodes[i], end)
  {
    hide Updated, AddrOf;
  }

  ghost predicate WriteEffect(sb: Super, v: Volume, w: Volume, i: nat, off: nat, src: seq<byte>) {
    && Whole(sb, w) && OthersSame(v, w, i)
    && i < |v.inodes| && |v.inodes[i].addrs| == NDIRECT + 1 && off <= v.inodes[i].size
    && Contents(w.d, w.inodes[i]) == Overwrite(Contents(v.d, v.inodes[i]), off, src)
    && Grown(v.inodes[i], w.inodes[i], off + |src|)
  }

  // Of an inode written up to offset end only the size and the pointers may
  // change: its type, device numbers and link count stay.
  predicate Grown(ip: Inode, iq: Inode, end: nat) {
    iq == ip.(size := if end > ip.size then end else ip.size, addrs := iq.addrs)
  }

  lemma FinishAll(sb: Super, v0: Volume, v: Volume, i: nat, end: nat)
    requires Sound(sb, v0.d, v0.inodes, v0.owner) && Sound(sb, v.d, v.inodes, v.owner) && Kept(v0, v, i)
             && TableKept(sb, v0.d, v.d)
    requires forall k | 0 <= k < |v0.inodes| :: NoHoles(v0.d, v0.inodes[k]) && DiskInode(sb, v0.d, k) == v0.inodes[k]
    requires end < TWO_TO_THE_32 && (Ceil(end) <= Ceil(v0.inodes[i].size) ==> v.inodes == v0.inodes)
    requires var w := Finish(sb, v0.inodes[i].size, v, i, end);
             Sound(sb, w.d, w.inodes, w.owner) && NoHoles(w.d, w.inodes[i])
    ensures Whole(sb, Finish(sb, v0.inodes[i].size, v, i, end))
            && OthersSame(v0, Finish(sb, v0.inodes[i].size, v, i, end), i)
  {
    hide Tracked, Exact, InUse, Updated, AddrOf, Contents, Has, TableKept, NoHoles, DiskInode;
    var w := Finish(sb, v0.inodes[i].size, v, i, end);
    forall k | 0 <= k < |v0.inodes| ensures DiskInode(sb, w.d, k) == w.inodes[k] { FinishSynced(sb, v0, v, i, end, k); }
    forall k | 0 <= k < |v0.inodes| && k != i
      ensures w.inodes[k] == v0.inodes[k] && NoHoles(w.d, w.inodes[k])
              && Contents(w.d, w.inodes[k]) == Contents(v0.d, v0.inodes[k])
    {
      FinishOther(sb, v0, v, i, end, k);
    }
  }

  lemma ResizeFile(sb: Super, v: Volume, i: nat, size: nat, k: nat)
    requires Sound(sb, v.d, v.inodes, v.owner) && i < |v.inodes| && size < TWO_TO_THE_32 && k < |v.inodes| && k != i
    ensures var w := Resize(sb, v, i, size);
            && w.inodes[k] == v.inodes[k] && |w.inodes[k].addrs| == NDIRECT + 1
            && Contents(w.d, w.inodes[k]) == Contents(v.d, v.inodes[k])
  {
    var w := Resize(sb, v, i, size);
    forall j | 0 <= j < v.inodes[k].size ensures ByteAt(w.d, w.inodes[k], j) == ByteAt(v.d, v.inodes[k], j) {
      ResizeByte(sb, v, i, size, k, j);
    }
  }

  lemma WritingStart(sb: Super, v: Volume, i: nat, off: nat, src: seq<byte>)
    requires Whole(sb, v) && i < |v.inodes| && off <= v.inodes[i].size
    ensures Writing(sb, v, v, i, off, src, off) && |v.inodes[i].addrs| == NDIRECT + 1
  {
    hide AddrOf, ByteAt, Tracked, Exact, InUse, DiskInode;
    CeilMono(off, v.inodes[i].size);
    assert NoHoles(v.d, v.inodes[i]);
  }

  lemma OneMore(l: set<nat>, l0: set<nat>, b: nat)
    ensures |l + {b} - l0| <= |l - l0| + 1
  {
    CardBound(l + {b} - l0, l - l0, {b}, {});
  }

  // A piece of one block is a piece of the file.
  lemma BlockSlice(d: Disk, ip: Inode, off0: nat, off: nat, m: nat)
    requires |ip.addrs| == NDIRECT + 1 && off0 <= off && 0 < m <= BSIZE - off % BSIZE && off + m <= ip.size
    requires 0 < AddrOf(d, ip, Data(off / BSIZE)) < |d|
    ensures var blk := d[AddrOf(d, ip, Data(off / BSIZE))];
            Contents(d, ip)[off0..off] + blk[off % BSIZE..off % BSIZE + m] == Contents(d, ip)[off0..off + m]
  {
    var c, blk := Contents(d, ip), d[AddrOf(d, ip, Data(off / BSIZE))];
    forall k | off <= k < off + m ensures c[k] == blk[k - off + off % BSIZE] {
      assert k / BSIZE == off / BSIZE && k % BSIZE == k - off + off % BSIZE;
      assert c[k] == ByteAt(d, ip, k);
    }
    assert c[off..off + m] == blk[off % BSIZE..off % BSIZE + m];
    assert c[off0..off + m] == c[off0..off] + c[off..off + m];
  }

  lemma EffectSize(sb: Super, v: Volume, w: Volume, i: nat, off: nat, src: seq<byte>)
    requires WriteEffect(sb, v, w, i, off, src)
    ensures Whole(sb, w) && i < |w.inodes| && off <= v.inodes[i].size
    ensures w.inodes[i].size == Max(v.inodes[i].size, off + |src|)
  {
    assert |Contents(w.d, w.inodes[i])| == w.inodes[i].size;
    hide Sound, NoHoles, DiskInode, OthersSame;
  }

  // Two writes, the second where the first ended, are one write.
  lemma EffectThen(sb: Super, u: Volume, v: Volume, w: Volume, i: nat, off: nat, a: seq<byte>, b: seq<byte>)
    requires WriteEffect(sb, u, v, i, off, a) && WriteEffect(sb, v, w, i, off + |a|, b)
    ensures WriteEffect(sb, u, w, i, off, a + b)
  {
    hide Whole, Overwrite, Contents, OthersSame;
    EffectSize(sb, u, v, i, off, a);
    OverwriteThen(Contents(u.d, u.inodes[i]), off, a, b);
    OthersTrans(u, v, w, i);
  }

  lemma OverwriteThen(c: seq<byte>, off: nat, a: seq<byte>, b: seq<byte>)
    requires off <= |c|
    ensures Overwrite(Overwrite(c, off, a), off + |a|, b) == Overwrite(c, off, a + b)
  {
    var d, e := Overwrite(c, off, a), Overwrite(c, off, a + b);
    var f := Overwrite(d, off + |a|, b);
    assert |f| == |e|;
    forall k | 0 <= k < |e| ensures f[k] == e[k] {
    }
  }

  lemma OthersTrans(u: Volume, v: Volume, w: Volume, i: nat)
    requires OthersSame(u, v, i) && OthersSame(v, w, i)
    ensures OthersSame(u, w, i)
  {
    hide Contents;
  }
}
