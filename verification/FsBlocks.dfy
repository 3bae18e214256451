// Which file owns which disk block (fs.c), and how balloc and the stores of
// bmap change that.
module FsBlocks {
  import opened Blocks
  import opened FsDisk

  // What a file's block pointer stands for.
  datatype Ref = Data(bn: nat) | Indirect

  // Who points at a block: inode number and pointer.
  datatype Owner = Owner(i: nat, x: Ref)

  // The block that pointer x of ip holds; 0 is none.
  function AddrOf(d: Disk, ip: Inode, x: Ref): nat
    requires |ip.addrs| == NDIRECT + 1
  {
    match x
    case Indirect => ip.addrs[NDIRECT]
    case Data(bn) =>
      if bn < NDIRECT then ip.addrs[bn]
      else if bn < MAXFILE && 0 < ip.addrs[NDIRECT] < |d| then Word(d[ip.addrs[NDIRECT]], bn - NDIRECT)
      else 0
  }

  ghost predicate GoodInodes(sb: Super, inodes: seq<Inode>) {
    |inodes| == sb.ninodes && forall i | 0 <= i < |inodes| :: GoodInode(inodes[i])
  }

  // Every block pointed at is in owner, under the one pointer that holds it:
  // no block is referenced twice.
  ghost predicate Tracked(d: Disk, inodes: seq<Inode>, owner: map<nat, Owner>) {
    && (forall i | 0 <= i < |inodes| :: |inodes[i].addrs| == NDIRECT + 1)
    && forall i, x | 0 <= i < |inodes| && AddrOf(d, inodes[i], x) != 0 ::
         AddrOf(d, inodes[i], x) in owner && owner[AddrOf(d, inodes[i], x)] == Owner(i, x)
  }

  // owner lists nothing else.
  ghost predicate Exact(d: Disk, inodes: seq<Inode>, owner: map<nat, Owner>) {
    && (forall i | 0 <= i < |inodes| :: |inodes[i].addrs| == NDIRECT + 1)
    && forall a | a in owner :: owner[a].i < |inodes| && AddrOf(d, inodes[owner[a].i], owner[a].x) == a
  }

  // Referenced blocks are data blocks marked in use, and so is all metadata.
  ghost predicate InUse(sb: Super, d: Disk, owner: map<nat, Owner>)
    requires Laid(sb, d)
  {
    && (forall a | a in owner :: sb.datastart <= a < sb.size && Used(sb, d, a))
    && forall b | 0 <= b < sb.datastart :: Used(sb, d, b)
  }

  ghost predicate Sound(sb: Super, d: Disk, inodes: seq<Inode>, owner: map<nat, Owner>) {
    Laid(sb, d) && GoodInodes(sb, inodes) && Tracked(d, inodes, owner) && Exact(d, inodes, owner) && InUse(sb, d, owner)
  }

  // ip has exactly its first nb blocks, and an indirect block if ind.
  ghost predicate Has(d: Disk, ip: Inode, nb: nat, ind: bool)
    requires |ip.addrs| == NDIRECT + 1
  {
    && nb <= MAXFILE
    && (forall bn | 0 <= bn < MAXFILE :: AddrOf(d, ip, Data(bn)) != 0 <==> bn < nb)
    && (ip.addrs[NDIRECT] != 0 <==> ind)
  }

  // No holes: the first nb blocks, and an indirect block exactly if they need one.
  ghost predicate Maps(d: Disk, ip: Inode, nb: nat)
    requires |ip.addrs| == NDIRECT + 1
  {
    Has(d, ip, nb, nb > NDIRECT)
  }

  // Two images with the same owned blocks have the same pointers.
  lemma SameAddrs(d: Disk, e: Disk, inodes: seq<Inode>, owner: map<nat, Owner>, i: nat, x: Ref)
    requires Tracked(d, inodes, owner) && |d| == |e| && i < |inodes|
    requires forall a | a in owner && owner[a].x.Indirect? && a < |d| :: e[a] == d[a]
    ensures AddrOf(e, inodes[i], x) == AddrOf(d, inodes[i], x)
  {
    assert AddrOf(d, inodes[i], Indirect) == inodes[i].addrs[NDIRECT];
  }

  // Changes that spare every indirect block and every metadata block keep all
  // pointers and all ownership.
  lemma StillSound(sb: Super, d: Disk, e: Disk, inodes: seq<Inode>, owner: map<nat, Owner>)
    requires Sound(sb, d, inodes, owner) && |d| == |e|
    requires forall a | a in owner && owner[a].x.Indirect? :: e[a] == d[a]
    requires forall b | 0 <= b < sb.size && Used(sb, d, b) :: Used(sb, e, b)
    ensures Sound(sb, e, inodes, owner)
    ensures forall i, nb, ind | 0 <= i < |inodes| && Has(d, inodes[i], nb, ind) :: Has(e, inodes[i], nb, ind)
  {
    hide Used;
    forall i, x | 0 <= i < |inodes| ensures AddrOf(e, inodes[i], x) == AddrOf(d, inodes[i], x) {
      SameAddrs(d, e, inodes, owner, i, x);
    }
  }

  // balloc's two writes: the new block is in use and zero, no other block has
  // changed hands, and no owned block has changed.
  lemma AllocSound(sb: Super, d: Disk, inodes: seq<Inode>, owner: map<nat, Owner>, b: nat)
    requires Sound(sb, d, inodes, owner) && sb.datastart <= b < sb.size && !Used(sb, d, b)
    ensures var e := Mark(sb, d, b, true)[b := ZeroBlock()];
            && Sound(sb, e, inodes, owner) && b !in owner && Used(sb, e, b)
            && (forall a | a in owner :: e[a] == d[a])
            && forall i, nb, ind | 0 <= i < |inodes| && Has(d, inodes[i], nb, ind) :: Has(e, inodes[i], nb, ind)
  {
    var m := Mark(sb, d, b, true);
    var e := m[b := ZeroBlock()];
    forall c | 0 <= c < sb.size ensures Used(sb, e, c) == (c == b || Used(sb, d, c)) {
      UsedOfMark(sb, d, b, true, c);
    }
    forall a | a in owner ensures e[a] == d[a] { UsedOfMark(sb, d, b, true, a); }
    StillSound(sb, d, e, inodes, owner);
  }

  // Pointer x of inode i, which held nothing, now holds b; no other changes.
  ghost predicate Linked(d: Disk, inodes: seq<Inode>, e: Disk, inodes': seq<Inode>, i: nat, x: Ref, b: nat) {
    && |inodes| == |inodes'|
    && (forall k | 0 <= k < |inodes| :: |inodes[k].addrs| == |inodes'[k].addrs| == NDIRECT + 1)
    && forall k, y | 0 <= k < |inodes| ::
         AddrOf(e, inodes'[k], y) == if k == i && y == x then b else AddrOf(d, inodes[k], y)
  }

  lemma LinkTracked(d: Disk, inodes: seq<Inode>, e: Disk, inodes': seq<Inode>, owner: map<nat, Owner>, i: nat, x: Ref,
          b: nat)
    requires Tracked(d, inodes, owner) && Exact(d, inodes, owner) && i < |inodes|
    requires Linked(d, inodes, e, inodes', i, x, b) && AddrOf(d, inodes[i], x) == 0
    requires b !in owner && b != 0 && 0 !in owner
    ensures Tracked(e, inodes', owner[b := Owner(i, x)]) && Exact(e, inodes', owner[b := Owner(i, x)])
  {
  }

  lemma DirectLinked(d: Disk, inodes: seq<Inode>, i: nat, bn: nat, b: nat)
    requires (forall k | 0 <= k < |inodes| :: |inodes[k].addrs| == NDIRECT + 1) && i < |inodes| && bn < NDIRECT
    ensures Linked(d, inodes, d, inodes[i := inodes[i].(addrs := inodes[i].addrs[bn := b])], i, Data(bn), b)
  {
  }

  // A fresh indirect block is zero, so it brings no data blocks with it.
  lemma RootLinked(d: Disk, inodes: seq<Inode>, i: nat, b: nat)
    requires (forall k | 0 <= k < |inodes| :: |inodes[k].addrs| == NDIRECT + 1) && i < |inodes|
    requires inodes[i].addrs[NDIRECT] == 0 && 0 < b < |d| && d[b] == ZeroBlock()
    ensures Linked(d, inodes, d, inodes[i := inodes[i].(addrs := inodes[i].addrs[NDIRECT := b])], i, Indirect, b)
  {
  }

  lemma EntryLinked(d: Disk, inodes: seq<Inode>, owner: map<nat, Owner>, i: nat, bn: nat, b: nat)
    requires Tracked(d, inodes, owner) && i < |inodes| && NDIRECT <= bn < MAXFILE && b < TWO_TO_THE_32
    requires 0 < inodes[i].addrs[NDIRECT] < |d|
    ensures var ind := inodes[i].addrs[NDIRECT];
            Linked(d, inodes, d[ind := SetWord(d[ind], bn - NDIRECT, b)], inodes, i, Data(bn), b)
  {
    var ind := inodes[i].addrs[NDIRECT];
    var e := d[ind := SetWord(d[ind], bn - NDIRECT, b)];
    forall k, y | 0 <= k < |inodes|
      ensures AddrOf(e, inodes[k], y) == if k == i && y == Data(bn) then b else AddrOf(d, inodes[k], y)
    {
      assert AddrOf(d, inodes[k], Indirect) == inodes[k].addrs[NDIRECT];
      assert AddrOf(d, inodes[i], Indirect) == ind;
      if y.Data? && NDIRECT <= y.bn < MAXFILE {
        WordOfSetWord(d[ind], bn - NDIRECT, b, y.bn - NDIRECT);
      }
    }
  }

  // The disk, the in-memory inodes, and who owns which block.
  datatype Volume = Volume(d: Disk, inodes: seq<Inode>, owner: map<nat, Owner>)

  // Everything in order, and inode i has the blocks that Has says.
  ghost predicate Ok(sb: Super, v: Volume, i: nat, nb: nat, ind: bool) {
    Sound(sb, v.d, v.inodes, v.owner) && i < |v.inodes| && Has(v.d, v.inodes[i], nb, ind)
  }

  // The superblock, the log and the inode table are the same.
  ghost predicate TableKept(sb: Super, d: Disk, e: Disk) {
    |d| == |e| && forall c | 0 <= c < sb.bmapstart && c < |d| :: e[c] == d[c]
  }

  // From v to w, inode i may have gained blocks after its first nb; everything
  // else about inodes, ownership and owned blocks is the same, except that
  // inode i's indirect block may have changed.
  ghost predicate Grew(v: Volume, w: Volume, i: nat, nb: nat) {
    && |w.inodes| == |v.inodes| && |w.d| == |v.d| && i < |v.inodes|
    && |w.inodes[i].addrs| == |v.inodes[i].addrs| == NDIRECT + 1
    && w.inodes == v.inodes[i := v.inodes[i].(addrs := w.inodes[i].addrs)]
    && (v.inodes[i].addrs[NDIRECT] != 0 ==> w.inodes[i].addrs[NDIRECT] == v.inodes[i].addrs[NDIRECT])
    && (forall a | a in v.owner :: a in w.owner && w.owner[a] == v.owner[a])
    && (forall a | a in v.owner && a < |v.d| && v.owner[a] != Owner(i, Indirect) :: w.d[a] == v.d[a])
    && forall bn | 0 <= bn < nb :: AddrOf(w.d, w.inodes[i], Data(bn)) == AddrOf(v.d, v.inodes[i], Data(bn))
  }

  lemma GrewTrans(u: Volume, v: Volume, w: Volume, i: nat, nb: nat, nb': nat)
    requires Grew(u, v, i, nb) && Grew(v, w, i, nb') && nb <= nb'
    ensures Grew(u, w, i, nb)
  {
  }

  lemma GrewNone(v: Volume, i: nat, nb: nat)
    requires i < |v.inodes| && |v.inodes[i].addrs| == NDIRECT + 1
    ensures Grew(v, v, i, nb)
  {
  }

  lemma GrewRoot(v: Volume, w: Volume, i: nat, nb: nat)
    requires Grew(v, w, i, nb)
    ensures |w.inodes| == |v.inodes| && |w.inodes[i].addrs| == |v.inodes[i].addrs| == NDIRECT + 1
    ensures v.inodes[i].addrs[NDIRECT] != 0 ==> w.inodes[i].addrs[NDIRECT] == v.inodes[i].addrs[NDIRECT]
  {
  }

  // The stores by which bmap records block b in pointer x of inode i.
  function Link(v: Volume, i: nat, x: Ref, b: nat): (w: Volume)
    requires i < |v.inodes| && |v.inodes[i].addrs| == NDIRECT + 1 && b < TWO_TO_THE_32
    requires x.Data? ==> x.bn < MAXFILE && (x.bn >= NDIRECT ==> v.inodes[i].addrs[NDIRECT] < |v.d|)
  {
    var ip := v.inodes[i];
    var owner := v.owner[b := Owner(i, x)];
    match x
    case Indirect => Volume(v.d, v.inodes[i := ip.(addrs := ip.addrs[NDIRECT := b])], owner)
    case Data(bn) =>
      if bn < NDIRECT then Volume(v.d, v.inodes[i := ip.(addrs := ip.addrs[bn := b])], owner)
      else
        var ind := ip.addrs[NDIRECT];
        Volume(v.d[ind := SetWord(v.d[ind], bn - NDIRECT, b)], v.inodes, owner)
  }

  // Recording a fresh zeroed block at the end of the file keeps everything in order.
  lemma LinkOk(sb: Super, v: Volume, i: nat, x: Ref, b: nat, nb: nat, ind: bool)
    requires Ok(sb, v, i, nb, ind) && Fresh(sb, v, b) && NextRef(x, nb, ind)
    ensures x == Data(nb) && nb >= NDIRECT ==>
              var a := v.inodes[i].addrs[NDIRECT];
              a in v.owner && v.owner[a] == Owner(i, Indirect) && sb.datastart <= a < sb.size
    ensures var w := Link(v, i, x, b);
            && Ok(sb, w, i, if x.Data? then nb + 1 else nb, ind || x.Indirect?)
            && Grew(v, w, i, nb) && AddrOf(w.d, w.inodes[i], x) == b && w.d[b] == ZeroBlock()
  {
    LinkPre(sb, v, i, x, b, nb, ind);
    LinkSound(sb, v, i, x, b, nb, ind);
    LinkGrew(sb, v, i, x, b, nb, ind);
  }

  ghost predicate Fresh(sb: Super, v: Volume, b: nat)
    requires Laid(sb, v.d)
  {
    b !in v.owner && sb.datastart <= b < sb.size && Used(sb, v.d, b) && v.d[b] == ZeroBlock()
  }

  // The pointer that comes next.
  ghost predicate NextRef(x: Ref, nb: nat, ind: bool) {
    (x == Indirect && !ind) || (x == Data(nb) && nb < MAXFILE && (nb >= NDIRECT ==> ind))
  }

  lemma LinkPre(sb: Super, v: Volume, i: nat, x: Ref, b: nat, nb: nat, ind: bool)
    requires Ok(sb, v, i, nb, ind) && Fresh(sb, v, b) && NextRef(x, nb, ind)
    ensures AddrOf(v.d, v.inodes[i], x) == 0
    ensures x == Data(nb) && nb >= NDIRECT ==>
              var a := v.inodes[i].addrs[NDIRECT];
              a in v.owner && v.owner[a] == Owner(i, Indirect) && sb.datastart <= a < sb.size
    ensures Linked(v.d, v.inodes, Link(v, i, x, b).d, Link(v, i, x, b).inodes, i, x, b)
  {
    assert AddrOf(v.d, v.inodes[i], Indirect) == v.inodes[i].addrs[NDIRECT];
    LinkLinked(v, i, x, b);
  }

  lemma LinkSound(sb: Super, v: Volume, i: nat, x: Ref, b: nat, nb: nat, ind: bool)
    requires Ok(sb, v, i, nb, ind) && Fresh(sb, v, b) && NextRef(x, nb, ind)
    requires x.Data? && x.bn >= NDIRECT ==> sb.datastart <= v.inodes[i].addrs[NDIRECT] < sb.size
    requires Linked(v.d, v.inodes, Link(v, i, x, b).d, Link(v, i, x, b).inodes, i, x, b)
             && AddrOf(v.d, v.inodes[i], x) == 0
    ensures Ok(sb, Link(v, i, x, b), i, if x.Data? then nb + 1 else nb, ind || x.Indirect?)
  {
    hide AddrOf, Tracked, Exact, Linked;
    var w := Link(v, i, x, b);
    UsedSame(sb, v.d, w.d);
    LinkedSound(sb, v, w, i, x, b);
    LinkedHas(v, w, i, x, b, nb, ind);
  }

  lemma LinkedSound(sb: Super, v: Volume, w: Volume, i: nat, x: Ref, b: nat)
    requires Sound(sb, v.d, v.inodes, v.owner) && i < |v.inodes| && Fresh(sb, v, b) && AddrOf(v.d, v.inodes[i], x) == 0
    requires Linked(v.d, v.inodes, w.d, w.inodes, i, x, b) && GoodInodes(sb, w.inodes)
    requires |w.d| == |v.d| && w.owner == v.owner[b := Owner(i, x)]
    requires forall c | 0 <= c < sb.size :: Used(sb, w.d, c) == Used(sb, v.d, c)
    ensures Sound(sb, w.d, w.inodes, w.owner)
  {
    hide Used, AddrOf, Tracked, Exact, GoodInodes, Linked;
    LinkTracked(v.d, v.inodes, w.d, w.inodes, v.owner, i, x, b);
  }

  lemma LinkedHas(v: Volume, w: Volume, i: nat, x: Ref, b: nat, nb: nat, ind: bool)
    requires i < |v.inodes| && b > 0 && NextRef(x, nb, ind) && Linked(v.d, v.inodes, w.d, w.inodes, i, x, b)
    requires Has(v.d, v.inodes[i], nb, ind)
    ensures Has(w.d, w.inodes[i], if x.Data? then nb + 1 else nb, ind || x.Indirect?)
  {
    assert AddrOf(v.d, v.inodes[i], Indirect) == v.inodes[i].addrs[NDIRECT];
    assert AddrOf(w.d, w.inodes[i], Indirect) == w.inodes[i].addrs[NDIRECT];
    hide AddrOf;
  }

  lemma LinkGrew(sb: Super, v: Volume, i: nat, x: Ref, b: nat, nb: nat, ind: bool)
    requires Ok(sb, v, i, nb, ind) && Fresh(sb, v, b) && NextRef(x, nb, ind)
    requires x == Data(nb) && nb >= NDIRECT ==>
               var a := v.inodes[i].addrs[NDIRECT];
               a in v.owner && v.owner[a] == Owner(i, Indirect) && sb.datastart <= a < sb.size
    requires Linked(v.d, v.inodes, Link(v, i, x, b).d, Link(v, i, x, b).inodes, i, x, b)
    ensures Grew(v, Link(v, i, x, b), i, nb) && Link(v, i, x, b).d[b] == ZeroBlock()
  {
    hide Used, AddrOf, Tracked, Exact;
  }

  lemma LinkLinked(v: Volume, i: nat, x: Ref, b: nat)
    requires Tracked(v.d, v.inodes, v.owner) && i < |v.inodes| && 0 < b < |v.d| && b < TWO_TO_THE_32
             && v.d[b] == ZeroBlock()
    requires x.Data? ==> x.bn < MAXFILE && (x.bn >= NDIRECT ==> 0 < v.inodes[i].addrs[NDIRECT] < |v.d|)
    requires x.Indirect? ==> v.inodes[i].addrs[NDIRECT] == 0
    ensures Linked(v.d, v.inodes, Link(v, i, x, b).d, Link(v, i, x, b).inodes, i, x, b)
  {
    match x
    case Indirect => RootLinked(v.d, v.inodes, i, b);
    case Data(bn) =>
      if bn < NDIRECT { DirectLinked(v.d, v.inodes, i, bn, b); } else { EntryLinked(v.d, v.inodes, v.owner, i, bn, b); }
  }

  // The bitmap is all that Used reads.
  lemma UsedSame(sb: Super, d: Disk, e: Disk)
    requires Laid(sb, d) && |e| == |d| && forall c | sb.bmapstart <= c < sb.datastart :: e[c] == d[c]
    ensures forall b | 0 <= b < sb.size :: Used(sb, e, b) == Used(sb, d, b)
  {
  }

  // --- how many blocks are free ---

  ghost function Unmarked(sb: Super, d: Disk): set<nat>
    requires Laid(sb, d)
  {
    set b | 0 <= b < sb.size && !Used(sb, d, b)
  }

  ghost function Free(sb: Super, d: Disk): nat { if Laid(sb, d) then |Unmarked(sb, d)| else 0 }

  // The blocks of a file with nb data blocks, counting the indirect block.
  function Claimed(nb: nat): nat { nb + if nb > NDIRECT then 1 else 0 }

  lemma NoneFree(sb: Super, d: Disk)
    requires Laid(sb, d)
    ensures Free(sb, d) == 0 <==> forall b | 0 <= b < sb.size :: Used(sb, d, b)
  {
    hide Used;
    assert forall b | 0 <= b < sb.size :: Used(sb, d, b) <==> b !in Unmarked(sb, d);
  }

  lemma FreeSame(sb: Super, d: Disk, e: Disk)
    requires Laid(sb, d) && |e| == |d| && forall c | sb.bmapstart <= c < sb.datastart :: e[c] == d[c]
    ensures Free(sb, e) == Free(sb, d)
  {
    hide Used;
    UsedSame(sb, d, e);
    assert Unmarked(sb, e) == Unmarked(sb, d);
  }

  // balloc takes one.
  lemma FreeAlloc(sb: Super, v: Volume, b: nat)
    requires Laid(sb, v.d) && sb.datastart <= b < sb.size && !Used(sb, v.d, b)
    ensures Free(sb, Alloc(sb, v, b).d) + 1 == Free(sb, v.d)
  {
    hide Used;
    var m := Mark(sb, v.d, b, true);
    forall c | 0 <= c < sb.size ensures Used(sb, m, c) == (c == b || Used(sb, v.d, c)) {
      UsedOfMark(sb, v.d, b, true, c);
    }
    assert Unmarked(sb, v.d) == Unmarked(sb, m) + {b};
    FreeSame(sb, m, m[b := ZeroBlock()]);
  }

  // balloc alone: nothing owned has changed, and b is fresh.
  lemma AllocOk(sb: Super, v: Volume, i: nat, nb: nat, ind: bool, b: nat)
    requires Ok(sb, v, i, nb, ind) && sb.datastart <= b < sb.size && !Used(sb, v.d, b)
    ensures var w := v.(d := Mark(sb, v.d, b, true)[b := ZeroBlock()]);
            Ok(sb, w, i, nb, ind) && Fresh(sb, w, b) && Grew(v, w, i, nb) && TableKept(sb, v.d, w.d)
  {
    AllocSound(sb, v.d, v.inodes, v.owner, b);
    var w := v.(d := Mark(sb, v.d, b, true)[b := ZeroBlock()]);
    forall bn | 0 <= bn < nb ensures AddrOf(w.d, w.inodes[i], Data(bn)) == AddrOf(v.d, v.inodes[i], Data(bn)) {
      SameAddrs(v.d, w.d, v.inodes, v.owner, i, Data(bn));
    }
    hide Used, AddrOf, Tracked, Exact, Mark;
  }

  function Alloc(sb: Super, v: Volume, b: nat): (w: Volume)
    requires Laid(sb, v.d) && b < sb.size
  {
    v.(d := Mark(sb, v.d, b, true)[b := ZeroBlock()])
  }

  ghost predicate LinkPossible(v: Volume, i: nat, x: Ref, b: nat) {
    && i < |v.inodes| && |v.inodes[i].addrs| == NDIRECT + 1 && b < TWO_TO_THE_32
    && (x.Data? ==> x.bn < MAXFILE && (x.bn >= NDIRECT ==> 0 < v.inodes[i].addrs[NDIRECT] < |v.d|))
  }

  // The indirect block of ip, if it has one.
  function Root(ip: Inode): set<nat>
    requires |ip.addrs| == NDIRECT + 1
  {
    if ip.addrs[NDIRECT] == 0 then {} else {ip.addrs[NDIRECT]}
  }

  lemma LinkTable(sb: Super, v: Volume, i: nat, x: Ref, b: nat, nb: nat, ind: bool)
    requires LinkPossible(v, i, x, b) && Laid(sb, v.d)
    requires x.Data? && x.bn >= NDIRECT ==> sb.datastart <= v.inodes[i].addrs[NDIRECT]
    ensures TableKept(sb, v.d, Link(v, i, x, b).d) && Free(sb, Link(v, i, x, b).d) == Free(sb, v.d)
  {
    FreeSame(sb, v.d, Link(v, i, x, b).d);
  }

  // balloc and the store of the new block's number.
  lemma ExtendOk(sb: Super, v: Volume, i: nat, x: Ref, b: nat, nb: nat, ind: bool)
    requires Ok(sb, v, i, nb, ind) && NextRef(x, nb, ind) && sb.datastart <= b < sb.size && !Used(sb, v.d, b)
    ensures LinkPossible(Alloc(sb, v, b), i, x, b)
    ensures var w := Link(Alloc(sb, v, b), i, x, b);
            && Ok(sb, w, i, if x.Data? then nb + 1 else nb, ind || x.Indirect?) && Grew(v, w, i, nb)
            && AddrOf(w.d, w.inodes[i], x) == b && b < |w.d| && w.d[b] == ZeroBlock() && TableKept(sb, v.d, w.d)
            && Free(sb, w.d) + 1 == Free(sb, v.d)
    ensures x == Data(nb) && nb >= NDIRECT ==> sb.datastart <= v.inodes[i].addrs[NDIRECT] < sb.size
  {
    FreeAlloc(sb, v, b);
    AllocOk(sb, v, i, nb, ind, b);
    LinkOk(sb, Alloc(sb, v, b), i, x, b, nb, ind);
    GrewTrans(v, Alloc(sb, v, b), Link(Alloc(sb, v, b), i, x, b), i, nb, nb);
    LinkTable(sb, Alloc(sb, v, b), i, x, b, nb, ind);
    hide Used, Has, Sound, Grew, Mark, AddrOf, Link, Free;
  }

  // A pointer in use holds an owned data block.
  lemma OwnedAddr(sb: Super, v: Volume, i: nat, x: Ref)
    requires Sound(sb, v.d, v.inodes, v.owner) && i < |v.inodes|
    ensures AddrOf(v.d, v.inodes[i], x) != 0 ==>
              var a := AddrOf(v.d, v.inodes[i], x);
              sb.datastart <= a < sb.size && a in v.owner && v.owner[a] == Owner(i, x) && Used(sb, v.d, a)
  {
  }
}
