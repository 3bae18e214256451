// The on-disk structures of fs.c: the free bitmap and the inode table, read and
// written byte by byte and word by word in a plain block map.
module FsDisk {
  import opened Blocks

  const BPB: nat := 4096      // bitmap bits per block
  const IPB: nat := 8         // inodes per block
  const NDIRECT: nat := 12
  const NINDIRECT: nat := 128
  const MAXFILE: nat := 140   // NDIRECT + NINDIRECT

  // struct superblock, with the first block after the bitmap.
  datatype Super = Super(size: nat, ninodes: nat, inodestart: nat, bmapstart: nat, datastart: nat)

  function BBLOCK(sb: Super, b: nat): nat { b / BPB + sb.bmapstart }

  function IBLOCK(sb: Super, i: nat): nat { i / IPB + sb.inodestart }

  // The regions are laid out in order and do not overlap.
  predicate Laid(sb: Super, d: Disk) {
    && |d| == sb.size < TWO_TO_THE_32
    && 0 < sb.inodestart
    && sb.inodestart + sb.ninodes / IPB + 1 <= sb.bmapstart
    && sb.bmapstart + sb.size / BPB + 1 <= sb.datastart
    && sb.datastart <= sb.size
  }

  // Bit k of x: (x & (1 << k)) != 0
  predicate Bit(x: nat, k: nat) {
    if k == 0 then x % 2 == 1 else Bit(x / 2, k - 1)
  }

  // x with bit k replaced: x | (1 << k), or x & ~(1 << k)
  function SetBit(x: nat, k: nat, v: bool): (r: nat) {
    if k == 0 then x - x % 2 + (if v then 1 else 0) else 2 * SetBit(x / 2, k - 1, v) + x % 2
  }

  function Pow2(n: nat): nat { if n == 0 then 1 else 2 * Pow2(n - 1) }

  // A byte stays a byte.
  lemma {:induction false} SetBitRange(x: nat, k: nat, v: bool, n: nat)
    requires k < n && x < Pow2(n)
    ensures SetBit(x, k, v) < Pow2(n)
  {
    var p, h := Pow2(n - 1), x / 2;
    assert Pow2(n) == 2 * p && x == 2 * h + x % 2 && h < p;
    if k > 0 {
      SetBitRange(h, k - 1, v, n - 1);
      assert SetBit(x, k, v) == 2 * SetBit(h, k - 1, v) + x % 2;
    }
  }

  // Replacing one bit leaves the others.
  lemma {:induction false} BitOfSetBit(x: nat, k: nat, v: bool, j: nat)
    ensures Bit(SetBit(x, k, v), j) == if j == k then v else Bit(x, j)
    decreases k
  {
    if k > 0 && j > 0 {
      BitOfSetBit(x / 2, k - 1, v, j - 1);
      assert SetBit(x, k, v) / 2 == SetBit(x / 2, k - 1, v);
    }
  }

  // data[bi/8] with the bit of bi replaced
  function SetByteBit(x: byte, k: nat, v: bool): (r: byte)
    requires k < 8
  {
    assert Pow2(8) == 256;
    SetBitRange(x, k, v, 8);
    SetBit(x, k, v)
  }

  // Block b is marked in use in the free bitmap.
  predicate Used(sb: Super, d: Disk, b: nat)
    requires Laid(sb, d) && b < sb.size
  {
    var bi := b % BPB;
    Bit(d[BBLOCK(sb, b)][bi / 8], bi % 8)
  }

  // The bitmap block of b with b's bit replaced.
  function Marked(m: Block, b: nat, v: bool): (r: Block) {
    var bi := b % BPB;
    m[bi / 8 := SetByteBit(m[bi / 8], bi % 8, v)]
  }

  function Mark(sb: Super, d: Disk, b: nat, v: bool): (r: Disk)
    requires Laid(sb, d) && b < sb.size
  {
    d[BBLOCK(sb, b) := Marked(d[BBLOCK(sb, b)], b, v)]
  }

  // The bitmap is a set of block numbers: marking b changes b's membership and
  // no other, and no block outside the bitmap.
  lemma UsedOfMark(sb: Super, d: Disk, b: nat, v: bool, c: nat)
    requires Laid(sb, d) && b < sb.size && c < sb.size
    ensures Laid(sb, Mark(sb, d, b, v))
    ensures Used(sb, Mark(sb, d, b, v), c) == if c == b then v else Used(sb, d, c)
    ensures c < sb.bmapstart || c >= sb.datastart ==> Mark(sb, d, b, v)[c] == d[c]
  {
    var bi, ci := b % BPB, c % BPB;
    var x := d[BBLOCK(sb, b)][bi / 8];
    BitOfSetBit(x, bi % 8, v, ci % 8);
    if BBLOCK(sb, c) == BBLOCK(sb, b) && ci / 8 == bi / 8 && ci % 8 == bi % 8 { assert c == b; }
  }

  // struct dinode and the copied part of struct inode.
  datatype Inode = Inode(typ: nat, major: nat, minor: nat, nlink: nat, size: nat, addrs: seq<nat>)

  predicate GoodInode(ip: Inode) {
    && ip.typ < 0x1_0000 && ip.major < 0x1_0000 && ip.minor < 0x1_0000 && ip.nlink < 0x1_0000
    && ip.size < TWO_TO_THE_32 && |ip.addrs| == NDIRECT + 1 && AreWords(ip.addrs)
  }

  // The 64 bytes of a dinode as words: four shorts, the size, the addresses.
  function InodeWords(ip: Inode): (ws: seq<nat>)
    requires GoodInode(ip)
    ensures |ws| == 16 && AreWords(ws)
  {
    [ip.typ + 0x1_0000 * ip.major, ip.minor + 0x1_0000 * ip.nlink, ip.size] + ip.addrs
  }

  function WordsInode(ws: seq<nat>): (ip: Inode)
    requires |ws| == 16
  {
    Inode(ws[0] % 0x1_0000, ws[0] / 0x1_0000, ws[1] % 0x1_0000, ws[1] / 0x1_0000, ws[2], ws[3..])
  }

  // ilock's copy of inode i from its inode block, and iupdate's copy back.
  function DiskInode(sb: Super, d: Disk, i: nat): (ip: Inode)
    requires Laid(sb, d) && i < sb.ninodes
  {
    WordsInode(GetWords(d[IBLOCK(sb, i)], 16 * (i % IPB), 16))
  }

  function Updated(sb: Super, d: Disk, i: nat, ip: Inode): (r: Disk)
    requires Laid(sb, d) && i < sb.ninodes && GoodInode(ip)
  {
    d[IBLOCK(sb, i) := SetWords(d[IBLOCK(sb, i)], 16 * (i % IPB), InodeWords(ip), 16)]
  }

  lemma WordsRoundTrip(ip: Inode)
    requires GoodInode(ip)
    ensures WordsInode(InodeWords(ip)) == ip
  {
  }

  // iupdate stores the inode so that ilock reads it back, and leaves every
  // other inode alone.
  lemma InodeRoundTrip(sb: Super, d: Disk, i: nat, ip: Inode, k: nat)
    requires Laid(sb, d) && i < sb.ninodes && GoodInode(ip) && k < sb.ninodes
    ensures Laid(sb, Updated(sb, d, i, ip))
    ensures DiskInode(sb, Updated(sb, d, i, ip), k) == if k == i then ip else DiskInode(sb, d, k)
  {
    hide InodeWords, WordsInode, GetWords, SetWords;
    GetSetWords(d[IBLOCK(sb, i)], 16 * (i % IPB), InodeWords(ip), 16 * (k % IPB), 16);
    WordsRoundTrip(ip);
  }
}
