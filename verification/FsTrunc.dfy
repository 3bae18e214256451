// Giving back a file's blocks (itrunc of fs.c).
module FsTrunc {
  import opened Blocks
  import opened FsDisk
  import opened FsBlocks
  import opened FsBytes

  // The blocks that the first k data pointers of ip hold.
  ghost function DataAddrs(d: Disk, ip: Inode, k: nat): set<nat>
    requires |ip.addrs| == NDIRECT + 1
  {
    if k == 0 then {} else
      var a := AddrOf(d, ip, Data(k - 1));
      DataAddrs(d, ip, k - 1) + if a == 0 then {} else {a}
  }

  ghost function AllAddrs(d: Disk, ip: Inode): set<nat>
    requires |ip.addrs| == NDIRECT + 1
  {
    DataAddrs(d, ip, MAXFILE) + Root(ip)
  }

  // The blocks of f, and no others, have gone from in use to free; nothing
  // outside the bitmap has changed.
  ghost predicate Freed(sb: Super, d: Disk, e: Disk, f: set<nat>)
    requires Laid(sb, d)
  {
    && |e| == |d|
    && (forall c | 0 <= c < |d| && (c < sb.bmapstart || c >= sb.datastart) :: e[c] == d[c])
    && forall b | 0 <= b < sb.size :: Used(sb, e, b) == (Used(sb, d, b) && b !in f)
  }

  lemma FreedStep(sb: Super, d: Disk, e: Disk, f: set<nat>, b: nat)
    requires Laid(sb, d) && Freed(sb, d, e, f) && b < sb.size
    ensures Laid(sb, e) && Freed(sb, d, Mark(sb, e, b, false), f + {b})
  {
    forall c | 0 <= c < sb.size
      ensures Used(sb, Mark(sb, e, b, false), c) == (Used(sb, d, c) && c !in f + {b})
      ensures c < sb.bmapstart || c >= sb.datastart ==> Mark(sb, e, b, false)[c] == d[c]
    {
      UsedOfMark(sb, e, b, false, c);
    }
    hide Used, Mark;
  }

  // A data pointer's block is not among those of earlier pointers, nor is the
  // indirect block.
  lemma {:induction false} NotYet(sb: Super, v: Volume, i: nat, k: nat, x: Ref)
    requires Sound(sb, v.d, v.inodes, v.owner) && i < |v.inodes| && (x.Data? ==> x.bn >= k)
    requires AddrOf(v.d, v.inodes[i], x) != 0
    ensures AddrOf(v.d, v.inodes[i], x) !in DataAddrs(v.d, v.inodes[i], k)
  {
    if k > 0 {
      NotYet(sb, v, i, k - 1, x);
      OwnedAddr(sb, v, i, x);
      OwnedAddr(sb, v, i, Data(k - 1));
      hide AddrOf, Tracked, Exact, InUse;
    }
  }

  lemma {:induction false} InDataAddrs(d: Disk, ip: Inode, k: nat, bn: nat)
    requires |ip.addrs| == NDIRECT + 1 && bn < k && AddrOf(d, ip, Data(bn)) != 0
    ensures AddrOf(d, ip, Data(bn)) in DataAddrs(d, ip, k)
  {
    if bn < k - 1 { InDataAddrs(d, ip, k - 1, bn); }
  }

  // Without an indirect block there are only direct blocks.
  lemma {:induction false} NoIndirect(d: Disk, ip: Inode, k: nat)
    requires |ip.addrs| == NDIRECT + 1 && ip.addrs[NDIRECT] == 0 && k >= NDIRECT
    ensures DataAddrs(d, ip, k) == DataAddrs(d, ip, NDIRECT)
  {
    if k > NDIRECT { NoIndirect(d, ip, k - 1); }
  }

  lemma {:induction false} DataAddrsOwned(sb: Super, v: Volume, i: nat, k: nat, a: nat)
    requires Sound(sb, v.d, v.inodes, v.owner) && i < |v.inodes| && a in DataAddrs(v.d, v.inodes[i], k)
    ensures a in v.owner && v.owner[a].i == i
  {
    OwnedAddr(sb, v, i, Data(k - 1));
    if a in DataAddrs(v.d, v.inodes[i], k - 1) { DataAddrsOwned(sb, v, i, k - 1, a); }
  }

  // The blocks of inode i are exactly the blocks owned by it.
  lemma AllAddrsOwned(sb: Super, v: Volume, i: nat, a: nat)
    requires Sound(sb, v.d, v.inodes, v.owner) && i < |v.inodes|
    ensures a in AllAddrs(v.d, v.inodes[i]) <==> a in v.owner && v.owner[a].i == i
  {
    var ip := v.inodes[i];
    OwnedAddr(sb, v, i, Indirect);
    if a in DataAddrs(v.d, ip, MAXFILE) { DataAddrsOwned(sb, v, i, MAXFILE, a); }
    if a in v.owner && v.owner[a].i == i {
      var x := v.owner[a].x;
      assert AddrOf(v.d, ip, x) == a && a != 0;
      if x.Data? {
        assert x.bn < MAXFILE;
        InDataAddrs(v.d, ip, MAXFILE, x.bn);
      }
    }
  }

  lemma DataAddrsNext(d: Disk, ip: Inode, n: nat)
    requires |ip.addrs| == NDIRECT + 1
    ensures var a, f := AddrOf(d, ip, Data(n)), DataAddrs(d, ip, n);
            DataAddrs(d, ip, n + 1) == if a == 0 then f else f + {a}
  {
  }

  // Inode i with nothing in it, and its blocks given up.
  function Emptied(ip: Inode): (r: Inode) { ip.(size := 0, addrs := seq(NDIRECT + 1, _ => 0)) }

  ghost function Disowned(owner: map<nat, Owner>, i: nat): map<nat, Owner> {
    map a | a in owner && owner[a].i != i :: owner[a]
  }

  ghost function Truncated(sb: Super, v: Volume, e: Disk, i: nat): (w: Volume)
    requires Laid(sb, e) && i < sb.ninodes && i < |v.inodes| && GoodInode(v.inodes[i])
  {
    var ip := Emptied(v.inodes[i]);
    Volume(Updated(sb, e, i, ip), v.inodes[i := ip], Disowned(v.owner, i))
  }

  // The pointers of the other inodes are as they were, and inode i has none.
  lemma TruncAddrs(sb: Super, v: Volume, e: Disk, i: nat, k: nat, x: Ref)
    requires Sound(sb, v.d, v.inodes, v.owner) && i < |v.inodes| && k < |v.inodes|
    requires |e| == |v.d| && forall c | sb.datastart <= c < sb.size :: e[c] == v.d[c]
    ensures var w := Truncated(sb, v, e, i);
            |w.inodes[k].addrs| == NDIRECT + 1
              && AddrOf(w.d, w.inodes[k], x) == if k == i then 0 else AddrOf(v.d, v.inodes[k], x)
  {
    OwnedAddr(sb, v, k, Indirect);
  }

  lemma DisownTracked(d: Disk, inodes: seq<Inode>, e: Disk, inodes': seq<Inode>, owner: map<nat, Owner>, i: nat)
    requires Tracked(d, inodes, owner) && Exact(d, inodes, owner) && |inodes| == |inodes'|
    requires forall k | 0 <= k < |inodes'| :: |inodes'[k].addrs| == NDIRECT + 1
    requires forall k, x | 0 <= k < |inodes| ::
             AddrOf(e, inodes'[k], x) == if k == i then 0 else AddrOf(d, inodes[k], x)
    ensures Tracked(e, inodes', Disowned(owner, i)) && Exact(e, inodes', Disowned(owner, i))
  {
    hide AddrOf;
  }

  lemma TruncSound(sb: Super, v: Volume, e: Disk, i: nat)
    requires Sound(sb, v.d, v.inodes, v.owner) && i < |v.inodes| && Freed(sb, v.d, e, AllAddrs(v.d, v.inodes[i]))
    ensures Laid(sb, e)
    ensures var w := Truncated(sb, v, e, i);
            && Sound(sb, w.d, w.inodes, w.owner)
            && forall b | 0 <= b < sb.size ::
               Used(sb, w.d, b) == (Used(sb, v.d, b) && !(b in v.owner && v.owner[b].i == i))
  {
    TruncUsed(sb, v, e, i);
    TruncTracked(sb, v, e, i);
    hide Used, AddrOf, Updated, AllAddrs, Tracked, Exact, Freed;
  }

  lemma TruncTracked(sb: Super, v: Volume, e: Disk, i: nat)
    requires Sound(sb, v.d, v.inodes, v.owner) && i < |v.inodes|
    requires |e| == |v.d| && forall c | sb.datastart <= c < sb.size :: e[c] == v.d[c]
    ensures var w := Truncated(sb, v, e, i);
            Tracked(w.d, w.inodes, w.owner) && Exact(w.d, w.inodes, w.owner) && GoodInodes(sb, w.inodes)
  {
    hide Tracked, Exact, InUse, AddrOf, Updated;
    var w := Truncated(sb, v, e, i);
    forall k, x | 0 <= k < |v.inodes|
      ensures |w.inodes[k].addrs| == NDIRECT + 1
              && AddrOf(w.d, w.inodes[k], x) == if k == i then 0 else AddrOf(v.d, v.inodes[k], x)
    {
      TruncAddrs(sb, v, e, i, k, x);
    }
    DisownTracked(v.d, v.inodes, w.d, w.inodes, v.owner, i);
  }

  lemma TruncUsed(sb: Super, v: Volume, e: Disk, i: nat)
    requires Sound(sb, v.d, v.inodes, v.owner) && i < |v.inodes| && Freed(sb, v.d, e, AllAddrs(v.d, v.inodes[i]))
    ensures Laid(sb, e)
    ensures var w := Truncated(sb, v, e, i);
            && Laid(sb, w.d)
            && forall b | 0 <= b < sb.size ::
               Used(sb, w.d, b) == (Used(sb, v.d, b) && !(b in v.owner && v.owner[b].i == i))
  {
    var w := Truncated(sb, v, e, i);
    UsedSame(sb, e, w.d);
    forall b | 0 <= b < sb.size ensures Used(sb, w.d, b) == (Used(sb, v.d, b) && !(b in v.owner && v.owner[b].i == i)) {
      AllAddrsOwned(sb, v, i, b);
    }
  }

  // The other files keep their blocks and their bytes.
  lemma TruncOther(sb: Super, v: Volume, e: Disk, i: nat, k: nat)
    requires Sound(sb, v.d, v.inodes, v.owner) && i < |v.inodes| && k < |v.inodes| && k != i
    requires |e| == |v.d| && forall c | sb.datastart <= c < sb.size :: e[c] == v.d[c]
    ensures var w := Truncated(sb, v, e, i);
            && w.inodes[k] == v.inodes[k] && |w.inodes[k].addrs| == NDIRECT + 1
            && Contents(w.d, w.inodes[k]) == Contents(v.d, v.inodes[k])
            && (NoHoles(v.d, v.inodes[k]) ==> NoHoles(w.d, w.inodes[k]))
  {
    var w := Truncated(sb, v, e, i);
    forall x ensures AddrOf(w.d, w.inodes[k], x) == AddrOf(v.d, v.inodes[k], x) { TruncAddrs(sb, v, e, i, k, x); }
    forall j | 0 <= j < v.inodes[k].size ensures ByteAt(w.d, w.inodes[k], j) == ByteAt(v.d, v.inodes[k], j) {
      OwnedAddr(sb, v, k, Data(j / BSIZE));
    }
    var nb := Ceil(v.inodes[k].size);
    if Has(v.d, v.inodes[k], nb, nb > NDIRECT) { FromAddrs(v.d, v.inodes[k], w.d, w.inodes[k], nb, nb > NDIRECT); }
    hide AddrOf, ByteAt, Tracked, Exact, InUse, Has, Updated;
  }

  lemma TruncSelf(sb: Super, v: Volume, e: Disk, i: nat)
    requires Sound(sb, v.d, v.inodes, v.owner) && i < |v.inodes|
    requires |e| == |v.d| && forall c | sb.datastart <= c < sb.size :: e[c] == v.d[c]
    ensures var w := Truncated(sb, v, e, i);
            |w.inodes[i].addrs| == NDIRECT + 1 && NoHoles(w.d, w.inodes[i]) && Contents(w.d, w.inodes[i]) == []
  {
    hide Tracked, Exact, InUse, Updated;
  }

  lemma TruncSynced(sb: Super, v: Volume, e: Disk, i: nat, k: nat)
    requires Laid(sb, v.d) && Laid(sb, e) && TableKept(sb, v.d, e) && i < sb.ninodes == |v.inodes| && k < sb.ninodes
    requires GoodInode(v.inodes[i]) && DiskInode(sb, v.d, k) == v.inodes[k]
    ensures var w := Truncated(sb, v, e, i);
            Laid(sb, w.d) && DiskInode(sb, w.d, k) == w.inodes[k]
  {
    hide Updated;
    assert e[IBLOCK(sb, k)] == v.d[IBLOCK(sb, k)];
    InodeRoundTrip(sb, e, i, Emptied(v.inodes[i]), k);
  }

  // itrunc in full: the file is empty, exactly its blocks are free again, and
  // every other file is as it was.
  ghost predicate TruncEffect(sb: Super, v: Volume, w: Volume, i: nat) {
    && Whole(sb, w) && OthersSame(v, w, i) && Laid(sb, v.d)
    && i < |v.inodes| && w.inodes[i] == v.inodes[i].(size := 0, addrs := seq(NDIRECT + 1, _ => 0))
    && Contents(w.d, w.inodes[i]) == []
    && w.owner == Disowned(v.owner, i)
    && forall b | 0 <= b < sb.size :: Used(sb, w.d, b) == (Used(sb, v.d, b) && !(b in v.owner && v.owner[b].i == i))
  }

  lemma TruncDone(sb: Super, v: Volume, e: Disk, i: nat)
    requires Whole(sb, v) && i < |v.inodes| && Freed(sb, v.d, e, AllAddrs(v.d, v.inodes[i]))
    ensures Laid(sb, e) && TruncEffect(sb, v, Truncated(sb, v, e, i), i)
  {
    hide Sound, Updated, NoHoles, DiskInode, Contents, Used, Freed, AllAddrs, Emptied, Disowned, OthersSame, TableKept;
    SoundLaid(sb, v);
    FreedKept(sb, v.d, e, AllAddrs(v.d, v.inodes[i]));
    TruncSound(sb, v, e, i);
    TruncSelf(sb, v, e, i);
    TruncFiles(sb, v, e, i);
    TruncInode(sb, v, e, i);
  }

  lemma SoundLaid(sb: Super, v: Volume)
    requires Sound(sb, v.d, v.inodes, v.owner)
    ensures Laid(sb, v.d) && |v.inodes| == sb.ninodes && forall k | 0 <= k < |v.inodes| :: GoodInode(v.inodes[k])
  {
    hide Tracked, Exact, InUse;
  }

  lemma FreedKept(sb: Super, d: Disk, e: Disk, f: set<nat>)
    requires Laid(sb, d) && Freed(sb, d, e, f)
    ensures Laid(sb, e) && TableKept(sb, d, e) && forall c | sb.datastart <= c < sb.size :: e[c] == d[c]
  {
    hide Used;
  }

  lemma TruncInode(sb: Super, v: Volume, e: Disk, i: nat)
    requires Laid(sb, e) && i < sb.ninodes && i < |v.inodes| && GoodInode(v.inodes[i])
    ensures var w := Truncated(sb, v, e, i);
            && |w.inodes| == |v.inodes| && w.owner == Disowned(v.owner, i)
            && w.inodes[i] == v.inodes[i].(size := 0, addrs := seq(NDIRECT + 1, _ => 0))
  {
    hide Updated, Disowned;
  }

  lemma TruncFiles(sb: Super, v: Volume, e: Disk, i: nat)
    requires Sound(sb, v.d, v.inodes, v.owner) && i < |v.inodes| && Laid(sb, e) && TableKept(sb, v.d, e)
    requires forall c | sb.datastart <= c < sb.size :: e[c] == v.d[c]
    requires forall k | 0 <= k < |v.inodes| :: NoHoles(v.d, v.inodes[k])
    requires forall k | 0 <= k < |v.inodes| :: DiskInode(sb, v.d, k) == v.inodes[k]
    ensures var w := Truncated(sb, v, e, i);
            && Laid(sb, w.d) && OthersSame(v, w, i)
            && (forall k | 0 <= k < |w.inodes| && k != i ::
                |w.inodes[k].addrs| == NDIRECT + 1 && NoHoles(w.d, w.inodes[k]))
            && forall k | 0 <= k < |w.inodes| :: DiskInode(sb, w.d, k) == w.inodes[k]
  {
    hide Tracked, Exact, InUse, Updated, NoHoles, DiskInode, Contents, TableKept, Emptied;
    var w := Truncated(sb, v, e, i);
    TruncSynced(sb, v, e, i, i);
    forall k | 0 <= k < |v.inodes| ensures Laid(sb, w.d) && DiskInode(sb, w.d, k) == w.inodes[k] {
      TruncSynced(sb, v, e, i, k);
    }
    forall k | 0 <= k < |v.inodes| && k != i
      ensures w.inodes[k] == v.inodes[k] && |w.inodes[k].addrs| == NDIRECT + 1
      ensures Contents(w.d, w.inodes[k]) == Contents(v.d, v.inodes[k]) && NoHoles(w.d, w.inodes[k])
    {
      TruncOther(sb, v, e, i, k);
    }
  }
}
