// Disk blocks (fs.h, buf.h): BSIZE bytes, which the kernel also reads and
// writes as little-endian 32-bit words through a pointer cast.  With them, the
// sizes and small definitions that several parts of the kernel share.
module Blocks {
  const BSIZE: nat := 512
  const WORDS: nat := 128
  const TWO_TO_THE_32: nat := 0x1_0000_0000
  const PGSIZE: nat := 4096

  type byte = x: int | 0 <= x < 256
  type Block = b: seq<byte> | |b| == BSIZE witness seq(BSIZE, _ => 0)

  type Disk = seq<Block>

  datatype Option<+T> = None | Some(value: T)

  ghost predicate Distinct(s: seq<nat>) {
    forall i, j | 0 <= i < j < |s| :: s[i] != s[j]
  }

  function ZeroBlock(): Block { seq(BSIZE, _ => 0) }

  // ((uint*)data)[i]
  function Word(b: Block, i: nat): (w: nat)
    requires i < WORDS
    ensures w < TWO_TO_THE_32
  {
    b[4 * i] as int + 0x100 * (b[4 * i + 1] as int)
    + 0x1_0000 * (b[4 * i + 2] as int) + 0x100_0000 * (b[4 * i + 3] as int)
  }

  // ((uint*)data)[i] = v
  function SetWord(b: Block, i: nat, v: nat): (r: Block)
    requires i < WORDS && v < TWO_TO_THE_32
  {
    b[4 * i := v % 0x100][4 * i + 1 := v / 0x100 % 0x100]
    [4 * i + 2 := v / 0x1_0000 % 0x100][4 * i + 3 := v / 0x100_0000]
  }

  // A stored word reads back, and every other word of the block is untouched.
  lemma WordOfSetWord(b: Block, i: nat, v: nat, j: nat)
    requires i < WORDS && v < TWO_TO_THE_32 && j < WORDS
    ensures Word(SetWord(b, i, v), j) == if i == j then v else Word(b, j)
  {
    var r := SetWord(b, i, v);
    Digits(v);
    assert r[4 * i] == v % 0x100 && r[4 * i + 1] == v / 0x100 % 0x100;
    assert r[4 * i + 2] == v / 0x1_0000 % 0x100 && r[4 * i + 3] == v / 0x100_0000;
    assert i != j ==> forall k :: 4 * j <= k < 4 * j + 4 ==> r[k] == b[k];
    hide SetWord;
  }

  lemma Digits(v: nat)
    ensures v == v % 0x100 + 0x100 * (v / 0x100 % 0x100)
                 + 0x1_0000 * (v / 0x1_0000 % 0x100) + 0x100_0000 * (v / 0x100_0000)
  {
    assert v / 0x1_0000 == v / 0x100 / 0x100 && v / 0x100_0000 == v / 0x1_0000 / 0x100;
  }

  predicate AreWords(ws: seq<nat>) { forall i | 0 <= i < |ws| :: ws[i] < TWO_TO_THE_32 }

  // Store the first k words of ws from word `at` on.
  function SetWords(b: Block, at: nat, ws: seq<nat>, k: nat): (r: Block)
    requires k <= |ws| && at + |ws| <= WORDS && AreWords(ws)
  {
    if k == 0 then b else SetWord(SetWords(b, at, ws, k - 1), at + k - 1, ws[k - 1])
  }

  lemma {:induction false} WordOfSetWords(b: Block, at: nat, ws: seq<nat>, k: nat, j: nat)
    requires k <= |ws| && at + |ws| <= WORDS && AreWords(ws) && j < WORDS
    ensures Word(SetWords(b, at, ws, k), j) == if at <= j < at + k then ws[j - at] else Word(b, j)
  {
    if k > 0 {
      WordOfSetWord(SetWords(b, at, ws, k - 1), at + k - 1, ws[k - 1], j);
      WordOfSetWords(b, at, ws, k - 1, j);
    }
  }

  // n words from word `at` on.
  function GetWords(b: Block, at: nat, n: nat): (ws: seq<nat>)
    requires at + n <= WORDS
    ensures |ws| == n
  {
    if n == 0 then [] else GetWords(b, at, n - 1) + [Word(b, at + n - 1)]
  }

  lemma {:induction false} GetWordsAt(b: Block, at: nat, n: nat, j: nat)
    requires at + n <= WORDS && j < n
    ensures GetWords(b, at, n)[j] == Word(b, at + j)
  {
    if j < n - 1 { GetWordsAt(b, at, n - 1, j); }
  }

  // Words read back as stored, or are untouched if the ranges are disjoint.
  lemma GetSetWords(b: Block, at: nat, ws: seq<nat>, from: nat, n: nat)
    requires at + |ws| <= WORDS && from + n <= WORDS && AreWords(ws)
    ensures from == at && n == |ws| ==> GetWords(SetWords(b, at, ws, |ws|), from, n) == ws
    ensures from + n <= at || at + |ws| <= from ==> GetWords(SetWords(b, at, ws, |ws|), from, n) == GetWords(b, from, n)
  {
    hide Word, SetWords, GetWords;
    forall j | 0 <= j < n
      ensures GetWords(b, from, n)[j] == Word(b, from + j)
      ensures GetWords(SetWords(b, at, ws, |ws|), from, n)[j]
           == if at <= from + j < at + |ws| then ws[from + j - at] else Word(b, from + j)
    {
      GetWordsAt(b, from, n, j);
      GetWordsAt(SetWords(b, at, ws, |ws|), from, n, j);
      WordOfSetWords(b, at, ws, |ws|, from + j);
    }
  }
}
