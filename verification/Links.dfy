// Directories and link counts: dirlookup and dirlink of fs.c, create, sys_link
// and sys_unlink of sysfile.c, and iput.
module Links {
  import opened Blocks

  const DIRSIZ: nat := 14
  const ROOTINO: nat := 1

  // struct dirent; a slot with inum 0 is free.
  datatype Dirent = Dirent(inum: nat, name: string)

  datatype Kind = Unused | Dir | File

  // What link counting reads of an inode: its type, nlink, in-memory
  // references, and, for a directory, its entries.
  datatype Node = Node(kind: Kind, nlink: int, ref: nat, entries: seq<Dirent>)

  // strncpy(de.name, name, DIRSIZ); names agree under namecmp if these do.
  function Trunc(name: string): string { if |name| > DIRSIZ then name[..DIRSIZ] else name }

  // strncmp of the two strings is zero.
  predicate SameName(a: string, b: string, n: nat) {
    n == 0 || (a == [] && b == []) || (a != [] && b != [] && a[0] == b[0] && SameName(a[1..], b[1..], n - 1))
  }

  lemma {:induction false} SamePrefix(a: string, b: string, n: nat)
    ensures SameName(a, b, n) <==> (if |a| > n then a[..n] else a) == (if |b| > n then b[..n] else b)
  {
    if n > 0 && a != [] && b != [] {
      SamePrefix(a[1..], b[1..], n - 1);
      var a', b' := if |a| > n then a[..n] else a, if |b| > n then b[..n] else b;
      assert a' == [a[0]] + a'[1..] && b' == [b[0]] + b'[1..];
      assert a'[1..] == if |a[1..]| > n - 1 then a[1..][..n - 1] else a[1..];
      assert b'[1..] == if |b[1..]| > n - 1 then b[1..][..n - 1] else b[1..];
    }
  }

  // namecmp of a name with what dirlink stored of another.
  lemma NamesAgree(name: string, other: string)
    ensures Trunc(name) == Trunc(other) <==> SameName(name, Trunc(other), DIRSIZ)
    ensures Trunc(name) == Trunc(other) <==> SameName(name, other, DIRSIZ)
  {
    SamePrefix(name, other, DIRSIZ);
    SamePrefix(name, Trunc(other), DIRSIZ);
  }

  predicate Live(e: Dirent) { e.inum != 0 }

  predicate Absent(es: seq<Dirent>, name: string) {
    forall k | 0 <= k < |es| && Live(es[k]) :: es[k].name != name
  }

  // Entries after "." and ".." that name t.
  ghost function Names(es: seq<Dirent>, t: nat): nat {
    if |es| <= 2 then 0 else Names(es[..|es| - 1], t) + if es[|es| - 1].inum == t then 1 else 0
  }

  // Entries after "." and ".." that name a directory.
  ghost function Subdirs(nodes: seq<Node>, es: seq<Dirent>): nat {
    if |es| <= 2 then 0 else
      Subdirs(nodes, es[..|es| - 1]) + if IsDir(nodes, es[|es| - 1].inum) then 1 else 0
  }

  predicate IsDir(nodes: seq<Node>, t: nat) { 0 < t < |nodes| && nodes[t].kind == Dir }

  // Entries that name t in the first n inodes.
  ghost function Named(nodes: seq<Node>, n: nat, t: nat): nat
    requires n <= |nodes|
  {
    if n == 0 then 0 else Named(nodes, n - 1, t) + Names(nodes[n - 1].entries, t)
  }

  // What nlink should be: names, subdirectories, and one extra for the root.
  ghost function Count(nodes: seq<Node>, t: nat): int
    requires t < |nodes|
  {
    Named(nodes, |nodes|, t) + Subdirs(nodes, nodes[t].entries) + if t == ROOTINO then 1 else 0
  }

  // --- how the counts change ---

  lemma {:induction false} NamesSet(es: seq<Dirent>, k: nat, e: Dirent, t: nat)
    requires 2 <= k < |es|
    ensures Names(es[k := e], t) == Names(es, t) - (if es[k].inum == t then 1 else 0) + (if e.inum == t then 1 else 0)
  {
    var n := |es| - 1;
    if k == n {
      assert es[k := e][..n] == es[..n];
    } else {
      assert es[k := e][..n] == es[..n][k := e];
      NamesSet(es[..n], k, e, t);
    }
  }

  lemma NamesAdd(es: seq<Dirent>, e: Dirent, t: nat)
    requires |es| >= 2
    ensures Names(es + [e], t) == Names(es, t) + if e.inum == t then 1 else 0
  {
    assert (es + [e])[..|es|] == es;
  }

  lemma {:induction false} SubdirsSet(nodes: seq<Node>, es: seq<Dirent>, k: nat, e: Dirent)
    requires 2 <= k < |es|
    ensures Subdirs(nodes, es[k := e])
         == Subdirs(nodes, es) - (if IsDir(nodes, es[k].inum) then 1 else 0) + (if IsDir(nodes, e.inum) then 1 else 0)
  {
    var n := |es| - 1;
    if k == n {
      assert es[k := e][..n] == es[..n];
    } else {
      assert es[k := e][..n] == es[..n][k := e];
      SubdirsSet(nodes, es[..n], k, e);
    }
  }

  lemma SubdirsAdd(nodes: seq<Node>, es: seq<Dirent>, e: Dirent)
    requires |es| >= 2
    ensures Subdirs(nodes, es + [e]) == Subdirs(nodes, es) + if IsDir(nodes, e.inum) then 1 else 0
  {
    assert (es + [e])[..|es|] == es;
  }

  // Subdirs only asks which of the named inodes are directories.
  lemma {:induction false} SubdirsSame(nodes: seq<Node>, nodes': seq<Node>, es: seq<Dirent>)
    requires forall k | 2 <= k < |es| :: IsDir(nodes, es[k].inum) == IsDir(nodes', es[k].inum)
    ensures Subdirs(nodes', es) == Subdirs(nodes, es)
  {
    if |es| > 2 { SubdirsSame(nodes, nodes', es[..|es| - 1]); }
  }

  lemma {:induction false} NamedSet(nodes: seq<Node>, d: nat, x: Node, n: nat, t: nat)
    requires d < |nodes| && n <= |nodes|
    ensures Named(nodes[d := x], n, t)
         == Named(nodes, n, t) + if d < n then Names(x.entries, t) - Names(nodes[d].entries, t) else 0
  {
    if n > 0 { NamedSet(nodes, d, x, n - 1, t); }
  }

  // An entry is counted.
  lemma {:induction false} NamesOne(es: seq<Dirent>, k: nat, t: nat)
    requires 2 <= k < |es| && es[k].inum == t
    ensures Names(es, t) > 0
  {
    if k < |es| - 1 { NamesOne(es[..|es| - 1], k, t); }
  }

  lemma {:induction false} NamedOne(nodes: seq<Node>, n: nat, d: nat, k: nat, t: nat)
    requires d < n <= |nodes| && 2 <= k < |nodes[d].entries| && nodes[d].entries[k].inum == t
    ensures Named(nodes, n, t) > 0
  {
    if d == n - 1 { NamesOne(nodes[d].entries, k, t); } else { NamedOne(nodes, n - 1, d, k, t); }
  }

  lemma {:induction false} NamesNone(es: seq<Dirent>, t: nat)
    requires forall k | 2 <= k < |es| :: es[k].inum != t
    ensures Names(es, t) == 0
  {
    if |es| > 2 { NamesNone(es[..|es| - 1], t); }
  }

  // --- the invariant ---

  ghost predicate GoodDir(es: seq<Dirent>, d: nat) {
    && |es| >= 2 && es[0] == Dirent(d, ".") && es[1].name == ".." && Live(es[1])
    && Unique(es) && forall k | 2 <= k < |es| :: es[k].inum != d
  }

  // At most one live entry per name.
  ghost predicate Unique(es: seq<Dirent>) {
    forall j, k | 0 <= j < k < |es| && Live(es[j]) && Live(es[k]) :: es[j].name != es[k].name
  }

  ghost predicate Shape(nodes: seq<Node>) {
    && |nodes| > ROOTINO && nodes[0].kind == Unused && nodes[ROOTINO].kind == Dir
    && forall d | 0 <= d < |nodes| ::
         && (nodes[d].kind == Dir ==> GoodDir(nodes[d].entries, d))
         && (nodes[d].kind != Dir ==> nodes[d].entries == [])
  }

  // Live names lead to allocated inodes.
  ghost predicate Targets(nodes: seq<Node>) {
    forall d, k | 0 <= d < |nodes| && 2 <= k < |nodes[d].entries| && Live(nodes[d].entries[k]) ::
      nodes[d].entries[k].inum < |nodes| && nodes[nodes[d].entries[k].inum].kind != Unused
  }

  // pend[t] links to t are between nlink++ and dirlink in sys_link.
  ghost predicate Counted(nodes: seq<Node>, pend: seq<nat>) {
    && |pend| == |nodes|
    && forall t | 0 <= t < |nodes| ::
         if nodes[t].kind == Unused then nodes[t].nlink == pend[t] == 0
         else nodes[t].nlink == Count(nodes, t) + pend[t] && (nodes[t].kind == Dir ==> pend[t] == 0)
  }

  ghost predicate Linked(nodes: seq<Node>, d: nat)
    requires d < |nodes|
  {
    d == ROOTINO || Named(nodes, |nodes|, d) > 0
  }

  ghost predicate Bare(es: seq<Dirent>) { forall k | 2 <= k < |es| :: !Live(es[k]) }

  // A directory that nothing names any more is empty.
  ghost predicate UnlinkedBare(nodes: seq<Node>) {
    forall d | 0 <= d < |nodes| && !Linked(nodes, d) :: Bare(nodes[d].entries)
  }

  ghost predicate Inv(nodes: seq<Node>, pend: seq<nat>) {
    Shape(nodes) && Targets(nodes) && Counted(nodes, pend) && UnlinkedBare(nodes)
  }

  // A new file system: n inodes, of which only the root directory is in use.
  function RootOnly(n: nat): seq<Node>
    requires n > ROOTINO
  {
    seq(n, t =>
      if t == ROOTINO then Node(Dir, 1, 0, [Dirent(ROOTINO, "."), Dirent(ROOTINO, "..")]) else Node(Unused, 0, 0, []))
  }

  lemma RootOnlyHolds(n: nat)
    requires n > ROOTINO
    ensures Inv(RootOnly(n), seq(n, _ => 0))
  {
    var nodes := RootOnly(n);
    NamedNone(nodes, n, ROOTINO);
    assert Count(nodes, ROOTINO) == 1;
  }

  lemma {:induction false} NamedNone(nodes: seq<Node>, n: nat, t: nat)
    requires n <= |nodes| && forall d | 0 <= d < n :: |nodes[d].entries| <= 2
    ensures Named(nodes, n, t) == 0
  {
    if n > 0 { NamedNone(nodes, n - 1, t); }
  }

  // --- the changes that the operations are made of ---

  // ialloc with a fresh directory's "." and "..", before any name leads to it.
  function Birth(nodes: seq<Node>, t: nat, kind: Kind, parent: nat): (r: seq<Node>)
    requires t < |nodes|
  {
    nodes[t := Node(kind, 0, 1, if kind == Dir then [Dirent(t, "."), Dirent(parent, "..")] else [])]
  }

  // Replacing inode t, which nothing names, by one whose entries after the dots
  // are no entries either, changes no count but t's own.
  ghost predicate Swapped(nodes: seq<Node>, r: seq<Node>, t: nat) {
    && |r| == |nodes| && t < |nodes| && r == nodes[t := r[t]]
    && Named(nodes, |nodes|, t) == 0
    && (forall d, k | 0 <= d < |nodes| && 2 <= k < |nodes[d].entries| :: nodes[d].entries[k].inum != t)
    && Bare(nodes[t].entries) && |r[t].entries| <= 2
  }

  lemma SwapCounts(nodes: seq<Node>, r: seq<Node>, t: nat, u: nat)
    requires Swapped(nodes, r, t) && 0 < u < |nodes|
    ensures Named(r, |r|, u) == Named(nodes, |nodes|, u)
    ensures Subdirs(r, r[u].entries) == if u == t then 0 else Subdirs(nodes, nodes[u].entries)
  {
    NamedSet(nodes, t, r[t], |nodes|, u);
    NamesNone(nodes[t].entries, u);
    if u != t { SubdirsSame(nodes, r, nodes[u].entries); }
  }

  lemma SwapKeeps(nodes: seq<Node>, pend: seq<nat>, r: seq<Node>, t: nat)
    requires Inv(nodes, pend) && Swapped(nodes, r, t) && 0 < t && t != ROOTINO && pend[t] == 0
    requires r[t].nlink == 0 && (r[t].kind == Dir ==> GoodDir(r[t].entries, t))
             && (r[t].kind != Dir ==> r[t].entries == [])
    ensures Inv(r, pend)
    ensures forall d | 0 < d < |nodes| && Linked(nodes, d) :: Linked(r, d)
  {
    forall u | 0 < u < |nodes|
      ensures Named(r, |r|, u) == Named(nodes, |nodes|, u)
      ensures Subdirs(r, r[u].entries) == if u == t then 0 else Subdirs(nodes, nodes[u].entries)
    {
      SwapCounts(nodes, r, t, u);
    }
    SwapCounted(nodes, pend, r, t);
    SwapBare(nodes, r, t);
    SwapShape(nodes, r, t);
    hide Named, Subdirs, Counted, UnlinkedBare, Shape, Targets, Bare, Swapped;
  }

  lemma SwapShape(nodes: seq<Node>, r: seq<Node>, t: nat)
    requires Shape(nodes) && Targets(nodes) && Swapped(nodes, r, t) && 0 < t && t != ROOTINO
    requires (r[t].kind == Dir ==> GoodDir(r[t].entries, t)) && (r[t].kind != Dir ==> r[t].entries == [])
    ensures Shape(r) && Targets(r)
  {
    hide GoodDir, Named, Bare;
  }

  lemma SwapCounted(nodes: seq<Node>, pend: seq<nat>, r: seq<Node>, t: nat)
    requires Counted(nodes, pend) && Shape(nodes) && |r| == |nodes| && 0 < t < |nodes| && r == nodes[t := r[t]]
             && t != ROOTINO
    requires r[t].nlink == 0 && pend[t] == 0 && Named(nodes, |nodes|, t) == 0
    requires forall u | 0 < u < |nodes| ::
               && Named(r, |r|, u) == Named(nodes, |nodes|, u)
               && Subdirs(r, r[u].entries) == if u == t then 0 else Subdirs(nodes, nodes[u].entries)
    ensures Counted(r, pend)
  {
    hide Named, Subdirs, GoodDir;
  }

  lemma SwapBare(nodes: seq<Node>, r: seq<Node>, t: nat)
    requires UnlinkedBare(nodes) && Shape(nodes) && |r| == |nodes| && 0 < t < |nodes| && r == nodes[t := r[t]]
             && |r[t].entries| <= 2
    requires forall u | 0 < u < |nodes| :: Named(r, |r|, u) == Named(nodes, |nodes|, u)
    ensures UnlinkedBare(r)
  {
    hide Named, GoodDir;
  }

  lemma BirthKeeps(nodes: seq<Node>, pend: seq<nat>, t: nat, kind: Kind, parent: nat)
    requires Inv(nodes, pend) && 0 < t < |nodes| && nodes[t].kind == Unused && kind != Unused && parent != 0
    ensures Inv(Birth(nodes, t, kind, parent), pend)
    ensures forall d | 0 < d < |nodes| && Linked(nodes, d) :: Linked(Birth(nodes, t, kind, parent), d)
  {
    NoName(nodes, pend, t);
    SwapKeeps(nodes, pend, Birth(nodes, t, kind, parent), t);
  }

  // iput's freeing of an inode without links.
  function Freed(nodes: seq<Node>, t: nat): (r: seq<Node>)
    requires t < |nodes|
  {
    nodes[t := Node(Unused, 0, 0, [])]
  }

  // nlink == 0 means that no live entry names the inode, so freeing is safe.
  lemma FreeKeeps(nodes: seq<Node>, pend: seq<nat>, t: nat)
    requires Inv(nodes, pend) && 0 < t < |nodes| && nodes[t].kind != Unused && nodes[t].nlink == 0
    ensures forall d, k | 0 <= d < |nodes| && 2 <= k < |nodes[d].entries| :: nodes[d].entries[k].inum != t
    ensures Inv(Freed(nodes, t), pend)
  {
    assert Named(nodes, |nodes|, t) == 0 && t != ROOTINO && pend[t] == 0;
    forall d, k | 0 <= d < |nodes| && 2 <= k < |nodes[d].entries| ensures nodes[d].entries[k].inum != t {
      if nodes[d].entries[k].inum == t { NamedOne(nodes, |nodes|, d, k, t); }
    }
    assert Bare(nodes[t].entries);
    SwapKeeps(nodes, pend, Freed(nodes, t), t);
  }

  // No live entry names an unallocated inode.
  lemma NoName(nodes: seq<Node>, pend: seq<nat>, t: nat)
    requires Inv(nodes, pend) && 0 < t < |nodes| && nodes[t].kind == Unused
    ensures Named(nodes, |nodes|, t) == 0
    ensures forall d, k | 0 <= d < |nodes| && 2 <= k < |nodes[d].entries| :: nodes[d].entries[k].inum != t
  {
    NoNameUpTo(nodes, |nodes|, t);
  }

  lemma {:induction false} NoNameUpTo(nodes: seq<Node>, n: nat, t: nat)
    requires n <= |nodes| && t > 0
    requires forall d, k | 0 <= d < n && 2 <= k < |nodes[d].entries| :: nodes[d].entries[k].inum != t
    ensures Named(nodes, n, t) == 0
  {
    if n > 0 {
      NoNameUpTo(nodes, n - 1, t);
      NamesNone(nodes[n - 1].entries, t);
    }
  }

  function Put(es: seq<Dirent>, k: nat, e: Dirent): (r: seq<Dirent>)
    requires k <= |es|
  {
    if k < |es| then es[k := e] else es + [e]
  }

  lemma PutNames(es: seq<Dirent>, k: nat, e: Dirent, t: nat)
    requires 2 <= k <= |es| && (k < |es| ==> !Live(es[k])) && t > 0
    ensures Names(Put(es, k, e), t) == Names(es, t) + if e.inum == t then 1 else 0
  {
    if k < |es| { NamesSet(es, k, e, t); } else { NamesAdd(es, e, t); }
  }

  lemma PutSubdirs(nodes: seq<Node>, es: seq<Dirent>, k: nat, e: Dirent)
    requires 2 <= k <= |es| && (k < |es| ==> !Live(es[k]))
    ensures Subdirs(nodes, Put(es, k, e)) == Subdirs(nodes, es) + if IsDir(nodes, e.inum) then 1 else 0
  {
    if k < |es| { SubdirsSet(nodes, es, k, e); } else { SubdirsAdd(nodes, es, e); }
  }

  function Bump(n: Node, delta: int): (r: Node) { n.(nlink := n.nlink + delta) }

  // A new name for inode t: an entry in directory d, a link for t, and one for
  // d's ".." if t is a directory.
  function AddName(nodes: seq<Node>, d: nat, k: nat, t: nat, name: string): (r: seq<Node>)
    requires d < |nodes| && t < |nodes| && k <= |nodes[d].entries|
  {
    var nd := Bump(nodes[d].(entries := Put(nodes[d].entries, k, Dirent(t, name))), if IsDir(nodes, t) then 1 else 0);
    nodes[d := nd][t := Bump(nodes[t], 1)]
  }

  // Taking a name away again.
  function RemoveName(nodes: seq<Node>, d: nat, k: nat, t: nat): (r: seq<Node>)
    requires d < |nodes| && t < |nodes| && k < |nodes[d].entries|
  {
    var nd := Bump(nodes[d].(entries := nodes[d].entries[k := Dirent(0, "")]), if IsDir(nodes, t) then -1 else 0);
    nodes[d := nd][t := Bump(nodes[t], -1)]
  }

  // The counts of a changed table, when only directory d's entries changed:
  // one name for t more (delta == 1) or fewer (delta == -1).
  ghost predicate Recount(nodes: seq<Node>, r: seq<Node>, d: nat, t: nat, delta: int)
    requires |r| == |nodes|
  {
    && (forall u | 0 < u < |nodes| :: Named(r, |r|, u) == Named(nodes, |nodes|, u) + if u == t then delta else 0)
    && (forall u | 0 <= u < |nodes| ::
          Subdirs(r, r[u].entries) == Subdirs(nodes, nodes[u].entries) + if u == d && IsDir(nodes, t) then delta else 0)
  }

  lemma AddRecount(nodes: seq<Node>, d: nat, k: nat, t: nat, name: string)
    requires d < |nodes| && 0 < t < |nodes| && d != t && 2 <= k <= |nodes[d].entries|
    requires k < |nodes[d].entries| ==> !Live(nodes[d].entries[k])
    ensures Recount(nodes, AddName(nodes, d, k, t, name), d, t, 1)
  {
    var r, e := AddName(nodes, d, k, t, name), Dirent(t, name);
    var mid := nodes[d := r[d]];
    assert r == mid[t := r[t]];
    forall u | 0 < u < |nodes| ensures Named(r, |r|, u) == Named(nodes, |nodes|, u) + if u == t then 1 else 0 {
      NamedSet(nodes, d, r[d], |nodes|, u);
      NamedSet(mid, t, r[t], |nodes|, u);
      PutNames(nodes[d].entries, k, e, u);
    }
    forall u | 0 <= u < |nodes|
      ensures Subdirs(r, r[u].entries) == Subdirs(nodes, nodes[u].entries) + if u == d && IsDir(nodes, t) then 1 else 0
    {
      SubdirsSame(nodes, r, r[u].entries);
      if u == d { PutSubdirs(nodes, nodes[d].entries, k, e); }
    }
  }

  lemma RemoveRecount(nodes: seq<Node>, d: nat, k: nat, t: nat)
    requires d < |nodes| && 0 < t < |nodes| && d != t && 2 <= k < |nodes[d].entries| && nodes[d].entries[k].inum == t
    ensures Recount(nodes, RemoveName(nodes, d, k, t), d, t, -1)
  {
    var r, e := RemoveName(nodes, d, k, t), Dirent(0, "");
    var mid := nodes[d := r[d]];
    assert r == mid[t := r[t]];
    forall u | 0 < u < |nodes| ensures Named(r, |r|, u) == Named(nodes, |nodes|, u) + if u == t then -1 else 0 {
      NamedSet(nodes, d, r[d], |nodes|, u);
      NamedSet(mid, t, r[t], |nodes|, u);
      NamesSet(nodes[d].entries, k, e, u);
    }
    forall u | 0 <= u < |nodes|
      ensures Subdirs(r, r[u].entries) == Subdirs(nodes, nodes[u].entries) + if u == d && IsDir(nodes, t) then -1 else 0
    {
      SubdirsSame(nodes, r, r[u].entries);
      if u == d { SubdirsSet(nodes, nodes[d].entries, k, e); }
    }
  }

  // The counters follow the counts.
  lemma StillCounted(nodes: seq<Node>, pend: seq<nat>, r: seq<Node>, d: nat, t: nat, delta: int)
    requires Counted(nodes, pend) && |r| == |nodes| > 0 && nodes[0].kind == Unused && Recount(nodes, r, d, t, delta)
    requires d < |nodes| && t < |nodes| && d != t && nodes[d].kind != Unused && nodes[t].kind != Unused
    requires forall u | 0 <= u < |nodes| ::
               && r[u].kind == nodes[u].kind
               && r[u].nlink == nodes[u].nlink + (if u == t then delta else 0)
                                + (if u == d && IsDir(nodes, t) then delta else 0)
    ensures Counted(r, pend)
  {
    hide Named, Subdirs;
  }

  lemma AddShape(nodes: seq<Node>, d: nat, k: nat, t: nat, name: string)
    requires Shape(nodes) && Targets(nodes) && d < |nodes| && nodes[d].kind == Dir
    requires 0 < t < |nodes| && t != d && nodes[t].kind != Unused
    requires 2 <= k <= |nodes[d].entries| && (k < |nodes[d].entries| ==> !Live(nodes[d].entries[k]))
    requires Absent(nodes[d].entries, name)
    ensures Shape(AddName(nodes, d, k, t, name)) && Targets(AddName(nodes, d, k, t, name))
  {
    hide GoodDir;
    PutGood(nodes[d].entries, d, k, t, name);
  }

  lemma PutGood(es: seq<Dirent>, d: nat, k: nat, t: nat, name: string)
    requires GoodDir(es, d) && t != d && 2 <= k <= |es| && (k < |es| ==> !Live(es[k]))
    requires Absent(es, name)
    ensures GoodDir(Put(es, k, Dirent(t, name)), d)
  {
    var es' := Put(es, k, Dirent(t, name));
    assert forall j | 0 <= j < |es'| :: es'[j] == if j == k then Dirent(t, name) else es[j];
    hide Put;
  }

  lemma AddBare(nodes: seq<Node>, d: nat, k: nat, t: nat, name: string)
    requires UnlinkedBare(nodes) && |nodes| > ROOTINO && nodes[0].entries == [] && d < |nodes| && Linked(nodes, d)
             && d > 0
    requires 0 < t < |nodes| && t != d && k <= |nodes[d].entries|
             && Recount(nodes, AddName(nodes, d, k, t, name), d, t, 1)
    ensures UnlinkedBare(AddName(nodes, d, k, t, name))
  {
    hide Named, Subdirs, Put;
  }

  lemma AddKeeps(nodes: seq<Node>, pend: seq<nat>, d: nat, k: nat, t: nat, name: string)
    requires Inv(nodes, pend) && 0 < d < |nodes| && nodes[d].kind == Dir && Linked(nodes, d)
    requires 0 < t < |nodes| && t != d && nodes[t].kind != Unused
    requires 2 <= k <= |nodes[d].entries| && (k < |nodes[d].entries| ==> !Live(nodes[d].entries[k]))
    requires Absent(nodes[d].entries, name)
    ensures Inv(AddName(nodes, d, k, t, name), pend)
  {
    AddRecount(nodes, d, k, t, name);
    AddShape(nodes, d, k, t, name);
    AddBare(nodes, d, k, t, name);
    StillCounted(nodes, pend, AddName(nodes, d, k, t, name), d, t, 1);
    hide AddName, Targets, Counted, UnlinkedBare, Shape;
  }

  lemma RemoveShape(nodes: seq<Node>, d: nat, k: nat, t: nat)
    requires Shape(nodes) && Targets(nodes) && d < |nodes| && nodes[d].kind == Dir
    requires 2 <= k < |nodes[d].entries| && nodes[d].entries[k].inum == t && 0 < t < |nodes| && t != d
    ensures Shape(RemoveName(nodes, d, k, t)) && Targets(RemoveName(nodes, d, k, t))
  {
    var es, es' := nodes[d].entries, nodes[d].entries[k := Dirent(0, "")];
    assert GoodDir(es, d);
    assert GoodDir(es', d);
    hide GoodDir;
  }

  lemma RemoveBare(nodes: seq<Node>, d: nat, k: nat, t: nat)
    requires UnlinkedBare(nodes) && |nodes| > ROOTINO && nodes[0].entries == [] && 0 < d < |nodes|
             && 2 <= k < |nodes[d].entries|
    requires 0 < t < |nodes| && t != d && Recount(nodes, RemoveName(nodes, d, k, t), d, t, -1) && Bare(nodes[t].entries)
    ensures UnlinkedBare(RemoveName(nodes, d, k, t))
  {
    hide Named, Subdirs;
  }

  lemma RemoveKeeps(nodes: seq<Node>, pend: seq<nat>, d: nat, k: nat, t: nat)
    requires Inv(nodes, pend) && 0 < d < |nodes| && nodes[d].kind == Dir
    requires 2 <= k < |nodes[d].entries| && nodes[d].entries[k].inum == t && 0 < t < |nodes|
    requires nodes[t].kind == Dir ==> Bare(nodes[t].entries)
    ensures t != d && Inv(RemoveName(nodes, d, k, t), pend)
  {
    assert GoodDir(nodes[d].entries, d) && nodes[t].kind != Unused;
    RemoveRecount(nodes, d, k, t);
    RemoveShape(nodes, d, k, t);
    RemoveBare(nodes, d, k, t);
    StillCounted(nodes, pend, RemoveName(nodes, d, k, t), d, t, -1);
    hide RemoveName, Targets, Counted, UnlinkedBare, Shape;
  }

  // A directory's own link count says whether it is still in the tree.
  lemma LinkedByCount(nodes: seq<Node>, pend: seq<nat>, d: nat)
    requires Inv(nodes, pend) && d < |nodes| && nodes[d].kind == Dir
    ensures Linked(nodes, d) <==> nodes[d].nlink > 0
  {
    if !Linked(nodes, d) { BareSubdirs(nodes, nodes[d].entries); }
  }

  lemma {:induction false} BareSubdirs(nodes: seq<Node>, es: seq<Dirent>)
    requires Bare(es)
    ensures Subdirs(nodes, es) == 0
  {
    if |es| > 2 { BareSubdirs(nodes, es[..|es| - 1]); }
  }

  // A name added in a directory d that is itself unlinked, which its last user
  // can still reach.  If the name is a file's, that user's iput frees d and the
  // name with it, and the file keeps a link that no name accounts for.  If it is
  // a directory's, d has a link again but no name, and iput never frees it.
  lemma UnlinkedAddLeaks(nodes: seq<Node>, pend: seq<nat>, d: nat, k: nat, t: nat, name: string)
    requires Inv(nodes, pend) && d < |nodes| && nodes[d].kind == Dir && nodes[d].nlink == 0
    requires 0 < t < |nodes| && t != d && nodes[t].kind != Unused
    requires 2 <= k <= |nodes[d].entries| && (k < |nodes[d].entries| ==> !Live(nodes[d].entries[k]))
    ensures var u := AddName(nodes, d, k, t, name);
            && d != ROOTINO && Named(u, |u|, d) == 0 && !Inv(u, pend)
            && (nodes[t].kind == Dir ==> u[d].nlink == 1)
            && (nodes[t].kind == File ==>
                  && u[d].nlink == 0
                  && u[t].nlink == Named(Freed(u, d), |u|, t) + pend[t] + 1)
  {
    InvBounds(nodes, pend);
    LinkedByCount(nodes, pend, d);
    AddRecount(nodes, d, k, t, name);
    var u := AddName(nodes, d, k, t, name);
    assert u[d].entries[k] == Dirent(t, name) && !Bare(u[d].entries);
    if nodes[t].kind == File { FreedNames(nodes, pend, d, k, t, name); }
    hide Put, Names;
  }

  lemma FreedNames(nodes: seq<Node>, pend: seq<nat>, d: nat, k: nat, t: nat, name: string)
    requires Inv(nodes, pend) && d < |nodes| && Bare(nodes[d].entries)
    requires 0 < t < |nodes| && t != d && nodes[t].kind == File
    requires 2 <= k <= |nodes[d].entries| && (k < |nodes[d].entries| ==> !Live(nodes[d].entries[k]))
    requires Recount(nodes, AddName(nodes, d, k, t, name), d, t, 1)
    ensures nodes[t].nlink == Named(Freed(AddName(nodes, d, k, t, name), d), |nodes|, t) + pend[t]
  {
    var u := AddName(nodes, d, k, t, name);
    NamesNone(nodes[d].entries, t);
    PutNames(nodes[d].entries, k, Dirent(t, name), t);
    NamedSet(u, d, Freed(u, d)[d], |u|, t);
    hide Put, Names, Named;
  }

  ghost predicate Filled(nodes: seq<Node>, t: nat) { IsDir(nodes, t) && !Bare(nodes[t].entries) }

  // The name leads to a file.
  predicate NamesFile(nodes: seq<Node>, d: nat, name: string)
    requires d < |nodes|
  {
    exists k | 0 <= k < |nodes[d].entries| && Live(nodes[d].entries[k]) && nodes[d].entries[k].name == name ::
      IsFile(nodes, nodes[d].entries[k].inum)
  }

  predicate IsFile(nodes: seq<Node>, t: nat) { t < |nodes| && nodes[t].kind == File }

  lemma NamesWhat(nodes: seq<Node>, pend: seq<nat>, d: nat, k: nat)
    requires Inv(nodes, pend) && d < |nodes| && nodes[d].kind == Dir
    requires k < |nodes[d].entries| && Live(nodes[d].entries[k])
    ensures NamesFile(nodes, d, nodes[d].entries[k].name) <==> IsFile(nodes, nodes[d].entries[k].inum)
  {
    hide Targets, Counted, UnlinkedBare;
    assert GoodDir(nodes[d].entries, d);
  }

  predicate HasUnused(nodes: seq<Node>) { exists t | 0 < t < |nodes| :: nodes[t].kind == Unused }

  lemma CreateOutcome(nodes: seq<Node>, pend: seq<nat>, d: nat, k: nat, t: nat, kind: Kind, name: string)
    requires Inv(nodes, pend) && d < |nodes| && nodes[d].kind == Dir && Absent(nodes[d].entries, name)
    requires 0 < t < |nodes| && nodes[t].kind == Unused && kind != Unused
    requires 2 <= k <= |nodes[d].entries| && (k < |nodes[d].entries| ==> !Live(nodes[d].entries[k]))
    ensures Inv(AddName(Birth(nodes, t, kind, d), d, k, t, name), pend) <==> nodes[d].nlink != 0
  {
    hide Inv;
    InvBounds(nodes, pend);
    LinkedByCount(nodes, pend, d);
    BirthKeeps(nodes, pend, t, kind, d);
    if nodes[d].nlink == 0 {
      UnlinkedAddLeaks(Birth(nodes, t, kind, d), pend, d, k, t, name);
    } else {
      assert nodes[d].nlink >= 0 by { CountNat(nodes, pend, d); }
      AddKeeps(Birth(nodes, t, kind, d), pend, d, k, t, name);
    }
  }

  // What create leaves: the new inode t with one link and one reference, its
  // name in the first free slot k of d, and a link more for d if t is a
  // directory.
  predicate Made(was: seq<Node>, now: seq<Node>, d: nat, k: nat, t: nat, kind: Kind, name: string) {
    && |now| == |was| && d < |was| && t < |was| && d != t
    && var es := was[d].entries;
       && 2 <= k <= |es| && (k < |es| ==> !Live(es[k])) && (forall j | 0 <= j < k :: Live(es[j]))
       && now[t] == Node(kind, 1, 1, if kind == Dir then [Dirent(t, "."), Dirent(d, "..")] else [])
       && now[d] == was[d].(entries := if k < |es| then es[k := Dirent(t, name)] else es + [Dirent(t, name)],
                            nlink := was[d].nlink + if kind == Dir then 1 else 0)
       && (forall u | 0 <= u < |was| && u != d && u != t :: now[u] == was[u])
  }

  // What unlink leaves: slot k of d free, a link less for d if t is a
  // directory, and a link less for t, which is freed if that was its last link
  // and nothing refers to it.
  predicate Unmade(was: seq<Node>, now: seq<Node>, d: nat, k: nat, t: nat) {
    && |now| == |was| && d < |was| && t < |was| && d != t && k < |was[d].entries|
    && now[d] == was[d].(entries := was[d].entries[k := Dirent(0, "")],
                         nlink := was[d].nlink - if was[t].kind == Dir then 1 else 0)
    && now[t] == (if was[t].nlink == 1 && was[t].ref == 0 then Node(Unused, 0, 0, [])
                  else was[t].(nlink := was[t].nlink - 1))
    && (forall u | 0 <= u < |was| && u != d && u != t :: now[u] == was[u])
  }

  lemma UnnamedIs(was: seq<Node>, now: seq<Node>, d: nat, k: nat, t: nat)
    requires |now| == |was| && d < |was| && 0 < t < |was| && d != t && k < |was[d].entries|
    requires now[d] == was[d].(entries := was[d].entries[k := Dirent(0, "")],
                               nlink := was[d].nlink - if was[t].kind == Dir then 1 else 0)
    requires now[t] == was[t].(nlink := was[t].nlink - 1)
    requires forall u | 0 <= u < |was| && u != d && u != t :: now[u] == was[u]
    ensures now == RemoveName(was, d, k, t)
  {
    assert |RemoveName(was, d, k, t)| == |was|;
  }

  lemma FreedIs(nodes: seq<Node>, t: nat)
    requires t < |nodes|
    ensures Freed(nodes, t) == nodes[t := Node(Unused, 0, 0, [])]
  {
  }

  // Made is a birth followed by a new name.
  lemma MadeIs(was: seq<Node>, now: seq<Node>, d: nat, k: nat, t: nat, kind: Kind, name: string)
    requires Made(was, now, d, k, t, kind, name) && t > 0
    ensures now == AddName(Birth(was, t, kind, d), d, k, t, name)
  {
    assert |Birth(was, t, kind, d)| == |was|;
  }

  lemma Dots()
    ensures Trunc(".") == "." && Trunc("..") == ".." && "." != ".."
  {
  }

  lemma LinkOutcome(nodes: seq<Node>, pend: seq<nat>, d: nat, k: nat, t: nat, name: string)
    requires Inv(nodes, pend) && d < |nodes| && nodes[d].kind == Dir && Absent(nodes[d].entries, name)
    requires 0 < t < |nodes| && nodes[t].kind == File
    requires 2 <= k <= |nodes[d].entries| && (k < |nodes[d].entries| ==> !Live(nodes[d].entries[k]))
    ensures Inv(AddName(nodes, d, k, t, name), pend) <==> nodes[d].nlink != 0
  {
    hide Inv;
    InvBounds(nodes, pend);
    LinkedByCount(nodes, pend, d);
    if nodes[d].nlink == 0 {
      UnlinkedAddLeaks(nodes, pend, d, k, t, name);
    } else {
      assert nodes[d].nlink >= 0 by { CountNat(nodes, pend, d); }
      AddKeeps(nodes, pend, d, k, t, name);
    }
  }

  lemma CountNat(nodes: seq<Node>, pend: seq<nat>, t: nat)
    requires Inv(nodes, pend) && t < |nodes|
    ensures nodes[t].nlink >= 0 && |pend| == |nodes|
  {
  }

  datatype Outcome = Ok(inum: nat) | Error | Panic

  class Tree {
    var nodes: seq<Node>
    ghost var pend: seq<nat>

    ghost predicate Valid()
      reads this
    {
      Inv(nodes, pend)
    }

    constructor (nodes: seq<Node>, ghost pend: seq<nat>)
      requires Inv(nodes, pend)
      ensures Valid() && this.nodes == nodes && this.pend == pend
    {
      this.nodes, this.pend := nodes, pend;
    }

    // dirlookup: the slot of the entry for name.
    method DirLookup(d: nat, name: string) returns (r: Option<nat>)
      requires d < |nodes| && nodes[d].kind == Dir
      ensures r.Some? ==>
                && r.value < |nodes[d].entries| && Live(nodes[d].entries[r.value])
                && nodes[d].entries[r.value].name == Trunc(name) && Absent(nodes[d].entries[..r.value], Trunc(name))
      ensures r.None? ==> Absent(nodes[d].entries, Trunc(name))
    {
      var k := 0;
      while k < |nodes[d].entries|
        invariant 0 <= k <= |nodes[d].entries|
        invariant forall j | 0 <= j < k && Live(nodes[d].entries[j]) :: nodes[d].entries[j].name != Trunc(name)
      {
        var de := nodes[d].entries[k];
        if de.inum != 0 && Trunc(name) == de.name { return Some(k); }
        k := k + 1;
      }
      r := None;
    }

    // dirlink: false if the name is taken, else a new entry in the first free slot.
    method DirLink(d: nat, name: string, t: nat) returns (ok: bool, ghost slot: nat)
      requires d < |nodes| && nodes[d].kind == Dir
      modifies this`nodes
      ensures ok <==> Absent(old(nodes)[d].entries, Trunc(name))
      ensures !ok ==> nodes == old(nodes)
      ensures ok ==>
                var es := old(nodes)[d].entries;
                && slot <= |es| && (slot < |es| ==> !Live(es[slot])) && (forall k | 0 <= k < slot :: Live(es[k]))
                && nodes == old(nodes)[d := old(nodes)[d].(entries :=
                     if slot < |es| then es[slot := Dirent(t, Trunc(name))] else es + [Dirent(t, Trunc(name))])]
    {
      var found := DirLookup(d, name);
      if found.Some? { return false, 0; }
      var off := 0;
      while off < |nodes[d].entries| && nodes[d].entries[off].inum != 0
        invariant 0 <= off <= |nodes[d].entries|
        invariant forall k | 0 <= k < off :: Live(nodes[d].entries[k])
      {
        off := off + 1;
      }
      nodes := nodes[d := nodes[d].(entries := Put(nodes[d].entries, off, Dirent(t, Trunc(name))))];
      ok, slot := true, off;
    }

    // ialloc's scan for a free inode.
    method FindUnused() returns (r: Option<nat>)
      ensures r.Some? ==>
                && 0 < r.value < |nodes| && nodes[r.value].kind == Unused
                && (forall u | 0 < u < r.value :: nodes[u].kind != Unused)
      ensures r.None? ==> !HasUnused(nodes)
    {
      var t := 1;
      while t < |nodes|
        invariant t >= 1 && forall u | 0 < u < t && u < |nodes| :: nodes[u].kind != Unused
      {
        if nodes[t].kind == Unused { return Some(t); }
        t := t + 1;
      }
      r := None;
    }

    // isdirempty
    method IsDirEmpty(d: nat) returns (empty: bool)
      requires d < |nodes|
      ensures empty == Bare(nodes[d].entries)
    {
      var k := 2;
      while k < |nodes[d].entries|
        invariant k >= 2 && forall j | 2 <= j < k && j < |nodes[d].entries| :: !Live(nodes[d].entries[j])
      {
        if nodes[d].entries[k].inum != 0 { return false; }
        k := k + 1;
      }
      empty := true;
    }

    // create of name in directory d.  Either the name leads to a file already,
    // or a new inode gets this name, one link, and, if it is a directory, its
    // dots and its parent's extra link.  Only a new name in a directory without
    // links spoils the counts.
    method Create(d: nat, name: string, kind: Kind) returns (r: Outcome, ghost slot: nat)
      requires Valid() && d < |nodes| && nodes[d].kind == Dir && kind != Unused
      modifies this`nodes
      ensures r == Panic <==> Absent(old(nodes)[d].entries, Trunc(name)) && !HasUnused(old(nodes))
      ensures r == Error || r == Panic ==> nodes == old(nodes)
      ensures r == Error <==>
                !Absent(old(nodes)[d].entries, Trunc(name)) && !(kind == File && NamesFile(old(nodes), d, Trunc(name)))
      ensures r.Ok? ==>
                && 0 < r.inum < |nodes| == |old(nodes)| && nodes[r.inum].kind == kind
                && if Absent(old(nodes)[d].entries, Trunc(name)) then
                     && r.inum != d && old(nodes)[r.inum].kind == Unused
                     && (forall u | 0 < u < r.inum :: old(nodes)[u].kind != Unused)
                     && Made(old(nodes), nodes, d, slot, r.inum, kind, Trunc(name))
                   else
                     && kind == File && Dirent(r.inum, Trunc(name)) in old(nodes)[d].entries
                     && nodes == old(nodes)[r.inum := old(nodes)[r.inum].(ref := old(nodes)[r.inum].ref + 1)]
      ensures Valid() <==> !(r.Ok? && Absent(old(nodes)[d].entries, Trunc(name)) && old(nodes)[d].nlink == 0)
    {
      hide Inv;
      InvBounds(nodes, pend);
      slot := 0;
      var found := DirLookup(d, name);
      if found.Some? {
        var ip := nodes[d].entries[found.value].inum;
        NamesWhat(nodes, pend, d, found.value);
        if kind == File && ip < |nodes| && nodes[ip].kind == File {
          assert ip > 0;
          TuneKeeps(nodes, pend, ip, nodes[ip].(ref := nodes[ip].ref + 1), pend[ip]);
          assert pend[ip := pend[ip]] == pend;
          nodes := nodes[ip := nodes[ip].(ref := nodes[ip].ref + 1)];
          return Ok(ip), 0;
        }
        return Error, 0;
      }
      var t := FindUnused();
      if t.None? { return Panic, 0; }
      slot := Grow(d, name, kind, t.value);
      MadeIs(old(nodes), nodes, d, slot, t.value, kind, Trunc(name));
      CreateOutcome(old(nodes), pend, d, slot, t.value, kind, Trunc(name));
      r := Ok(t.value);
    }

    // The rest of create, in the order of the source.
    method Grow(d: nat, name: string, kind: Kind, t: nat) returns (ghost slot: nat)
      requires d < |nodes| && t < |nodes| && d != t && nodes[d].kind == Dir && nodes[t].kind == Unused && kind != Unused
      requires |nodes[d].entries| >= 2 && Live(nodes[d].entries[0]) && Live(nodes[d].entries[1]) && t != 0
      requires Absent(nodes[d].entries, Trunc(name))
      modifies this`nodes
      ensures 2 <= slot <= |old(nodes)[d].entries|
              && (slot < |old(nodes)[d].entries| ==> !Live(old(nodes)[d].entries[slot]))
      ensures Made(old(nodes), nodes, d, slot, t, kind, Trunc(name))
    {
      hide Trunc, AddName, Birth, Put;
      nodes := nodes[t := Node(kind, 1, 1, [])];
      if kind == Dir {
        nodes := nodes[d := Bump(nodes[d], 1)];
        AddDots(d, t);
      }
      var ok;
      ok, slot := DirLink(d, name, t);
      assert slot != 0 && slot != 1;
    }

    // The entries "." and ".." of the new directory t.
    method AddDots(d: nat, t: nat)
      requires t < |nodes| && nodes[t].kind == Dir && nodes[t].entries == [] && t != 0
      modifies this`nodes
      ensures nodes == old(nodes)[t := old(nodes)[t].(entries := [Dirent(t, "."), Dirent(d, "..")])]
    {
      hide Trunc;
      Dots();
      var ok;
      ghost var k;
      ok, k := DirLink(t, ".", t);
      assert k == 0 && nodes[t].entries == [Dirent(t, ".")];
      ok, k := DirLink(t, "..", d);
      assert k == 1 && nodes[t].entries == [Dirent(t, "."), Dirent(d, "..")];
    }

    // sys_link up to the unlocking of the old inode; false for a directory.
    method LinkBegin(t: nat) returns (ok: bool)
      requires Valid() && 0 < t < |nodes| && nodes[t].kind != Unused
      modifies this`nodes, this`pend
      ensures Valid() && ok == (old(nodes)[t].kind != Dir)
      ensures !ok ==> nodes == old(nodes) && pend == old(pend)
      ensures ok ==>
                && nodes == old(nodes)[t := old(nodes)[t].(nlink := old(nodes)[t].nlink + 1)]
                && pend == old(pend)[t := old(pend)[t] + 1]
    {
      hide Inv;
      InvBounds(nodes, pend);
      if nodes[t].kind == Dir { return false; }
      TuneKeeps(nodes, pend, t, Bump(nodes[t], 1), pend[t] + 1);
      nodes, pend := nodes[t := Bump(nodes[t], 1)], pend[t := pend[t] + 1];
      ok := true;
    }

    // The rest of sys_link: the new entry in the parent directory, or the link
    // taken back if there is no parent or the name is taken.
    method LinkEnd(t: nat, parent: Option<nat>, name: string) returns (ok: bool, ghost slot: nat)
      requires Valid() && 0 < t < |nodes| && nodes[t].kind == File && pend[t] > 0
      requires parent.Some? ==> parent.value < |nodes| && nodes[parent.value].kind == Dir
      modifies this`nodes, this`pend
      ensures pend == old(pend)[t := old(pend)[t] - 1]
      ensures !ok ==> nodes == old(nodes)[t := old(nodes)[t].(nlink := old(nodes)[t].nlink - 1)]
      ensures ok <==> parent.Some? && Absent(old(nodes)[parent.value].entries, Trunc(name))
      ensures ok ==>
                var d := parent.value;
                var es := old(nodes)[d].entries;
                && slot <= |es| && (slot < |es| ==> !Live(es[slot])) && (forall k | 0 <= k < slot :: Live(es[k]))
                && nodes == old(nodes)[d := old(nodes)[d].(entries :=
                     if slot < |es| then es[slot := Dirent(t, Trunc(name))] else es + [Dirent(t, Trunc(name))])]
      ensures Valid() <==> !(ok && old(nodes)[parent.value].nlink == 0)
    {
      hide Inv;
      InvBounds(nodes, pend);
      TuneKeeps(nodes, pend, t, Bump(nodes[t], -1), pend[t] - 1);
      ghost var undone := nodes[t := Bump(nodes[t], -1)];
      slot, ok := 0, false;
      if parent.Some? {
        var d := parent.value;
        ok, slot := DirLink(d, name, t);
        if ok {
          LinkOutcome(undone, pend[t := pend[t] - 1], d, slot, t, Trunc(name));
          assert nodes == AddName(undone, d, slot, t, Trunc(name));
        }
      }
      if !ok { nodes := nodes[t := Bump(nodes[t], -1)]; }
      pend := pend[t := pend[t] - 1];
    }

    // sys_unlink of name in directory d.  Panic is "nlink < 1", which cannot happen.
    method Unlink(d: nat, name: string) returns (r: Outcome, ghost slot: nat)
      requires Valid() && d < |nodes| && nodes[d].kind == Dir
      modifies this`nodes
      ensures r != Panic && Valid()
      ensures r == Error ==> nodes == old(nodes)
      ensures r == Error <==>
                || Trunc(name) == "." || Trunc(name) == ".." || Absent(old(nodes)[d].entries, Trunc(name))
                || exists e | e in old(nodes)[d].entries && e.name == Trunc(name) :: Filled(old(nodes), e.inum)
      ensures r.Ok? ==>
                && Unmade(old(nodes), nodes, d, slot, r.inum)
                && slot >= 2 && old(nodes)[d].entries[slot] == Dirent(r.inum, Trunc(name)) && r.inum > 0
    {
      hide Inv;
      InvBounds(nodes, pend);
      slot := 0;
      if Trunc(name) == "." || Trunc(name) == ".." { return Error, 0; }
      var found := DirLookup(d, name);
      if found.None? { return Error, 0; }
      var off := found.value;
      slot := off;
      var t := nodes[d].entries[off].inum;
      UnlinkTarget(nodes, pend, d, off);
      OnlyEntry(nodes, pend, d, off);
      if nodes[t].nlink < 1 { return Panic, off; }
      if nodes[t].kind == Dir {
        var empty := IsDirEmpty(t);
        if !empty { return Error, off; }
      }
      Shrink(d, off, t);
      r := Ok(t);
    }

    // The stores of sys_unlink, in the order of the source.
    method Shrink(d: nat, off: nat, t: nat)
      requires Valid() && 0 < d < |nodes| && nodes[d].kind == Dir && 2 <= off < |nodes[d].entries|
      requires nodes[d].entries[off].inum == t && 0 < t < |nodes| && t != d && nodes[t].kind != Unused
      requires nodes[t].kind == Dir ==> Bare(nodes[t].entries)
      modifies this`nodes
      ensures Valid() && Unmade(old(nodes), nodes, d, off, t)
    {
      hide Inv, Bare, RemoveName, Freed;
      RemoveKeeps(nodes, pend, d, off, t);
      var was := nodes[t].kind;
      nodes := nodes[d := nodes[d].(entries := nodes[d].entries[off := Dirent(0, "")])];
      if was == Dir { nodes := nodes[d := Bump(nodes[d], -1)]; }
      nodes := nodes[t := Bump(nodes[t], -1)];
      UnnamedIs(old(nodes), nodes, d, off, t);
      // iget's reference, and iput
      if nodes[t].nlink == 0 && nodes[t].ref == 0 {
        FreeKeeps(nodes, pend, t);
        FreedIs(nodes, t);
        nodes := nodes[t := Node(Unused, 0, 0, [])];
      }
    }

    // iput of a held reference: the last one to an inode without links frees it.
    method Iput(t: nat)
      requires 0 < t < |nodes| && nodes[t].kind != Unused && nodes[t].ref > 0
      modifies this`nodes
      ensures old(Valid()) ==> Valid()
      ensures nodes == if old(nodes)[t].nlink == 0 && old(nodes)[t].ref == 1
                       then old(nodes)[t := Node(Unused, 0, 0, [])]
                       else old(nodes)[t := old(nodes)[t].(ref := old(nodes)[t].ref - 1)]
      ensures old(Valid()) && nodes[t].kind == Unused ==>
                forall d, k | 0 <= d < |old(nodes)| && 2 <= k < |old(nodes)[d].entries| ::
                  old(nodes)[d].entries[k].inum != t
    {
      hide Inv;
      if nodes[t].nlink == 0 && nodes[t].ref == 1 {
        if Valid() { FreeKeeps(nodes, pend, t); }
        nodes := Freed(nodes, t);
      } else {
        if Valid() { UnrefKeeps(nodes, pend, t); }
        nodes := nodes[t := nodes[t].(ref := nodes[t].ref - 1)];
      }
    }
  }

  // A run to an unlinked directory that is still in use: mkdir, chdir, unlink.
  method UnlinkedInUse(n: nat) returns (tree: Tree, d: nat)
    requires n > 3
    ensures fresh(tree) && tree.Valid() && |tree.nodes| == n && tree.pend == seq(n, _ => 0) && HasUnused(tree.nodes)
    ensures d < n && tree.nodes[d] == Node(Dir, 0, 1, [Dirent(d, "."), Dirent(ROOTINO, "..")])
  {
    hide Inv, Named;
    RootOnlyHolds(n);
    tree := new Tree(RootOnly(n), seq(n, _ => 0));
    assert tree.nodes[2].kind == Unused;
    var made, slot := tree.Create(ROOTINO, "a", Dir);
    d := made.inum;
    var root := tree.nodes[ROOTINO].entries;
    assert root == [Dirent(ROOTINO, "."), Dirent(ROOTINO, ".."), Dirent(d, "a")];
    assert tree.nodes[d] == Node(Dir, 1, 1, [Dirent(d, "."), Dirent(ROOTINO, "..")]);
    assert tree.nodes[2].kind == Unused || tree.nodes[3].kind == Unused;
    assert root[2] in root && Live(root[2]);
    var gone, slot' := tree.Unlink(ROOTINO, "a");
    assert tree.nodes[2].kind == Unused || tree.nodes[3].kind == Unused;
  }

  // A run that loses an inode: in such a directory the process creates a file,
  // leaves the directory and closes the file.  The file then has a link, no
  // name and no reference.
  method FileLost(n: nat) returns (nodes: seq<Node>, f: nat)
    requires n > 3
    ensures f < |nodes| == n && nodes[f] == Node(File, 1, 0, []) && Named(nodes, n, f) == 0
  {
    hide Inv, Named, AddName, Birth, HasUnused;
    var tree, d := UnlinkedInUse(n);
    ghost var before, pend := tree.nodes, tree.pend;
    assert Absent(before[d].entries, Trunc("b"));
    var file, slot := tree.Create(d, "b", File);
    f := file.inum;
    MadeIs(before, tree.nodes, d, slot, f, File, "b");
    LostFile(before, pend, d, f, slot, "b");
    tree.Iput(d);
    tree.Iput(f);
    nodes := tree.nodes;
  }

  lemma LostFile(nodes: seq<Node>, pend: seq<nat>, d: nat, f: nat, k: nat, name: string)
    requires Inv(nodes, pend) && d < |nodes| && nodes[d].kind == Dir && nodes[d].nlink == 0
    requires 0 < f < |nodes| && nodes[f].kind == Unused
    requires 2 <= k <= |nodes[d].entries| && (k < |nodes[d].entries| ==> !Live(nodes[d].entries[k]))
    ensures 0 < d != f
    ensures var u := AddName(Birth(nodes, f, File, d), d, k, f, name);
            && |u| == |nodes| && u[d].kind == Dir && u[d].nlink == 0 && u[d].ref == nodes[d].ref
            && u[f] == Node(File, 1, 1, [])
            && var r := Freed(u, d);
               |r| == |u| && r[f] == u[f] && Named(r[f := Node(File, 1, 0, [])], |r|, f) == 0
  {
    hide *;
    UsedDir(nodes, pend, d);
    BirthNodes(nodes, d, f);
    var b := Birth(nodes, f, File, d);
    AddedNodes(b, d, k, f, name);
    var u := AddName(b, d, k, f, name);
    FreedNodes(u, d, f);
    LostNames(nodes, pend, d, f, k, name);
    SameNames(Freed(u, d), f, Node(File, 1, 0, []));
  }

  lemma UsedDir(nodes: seq<Node>, pend: seq<nat>, d: nat)
    requires Inv(nodes, pend) && d < |nodes| && nodes[d].kind == Dir
    ensures d > 0
  {
    hide Targets, Counted, UnlinkedBare;
  }

  // No name leads to the file once the directory is freed.
  lemma LostNames(nodes: seq<Node>, pend: seq<nat>, d: nat, f: nat, k: nat, name: string)
    requires Inv(nodes, pend) && d < |nodes| && nodes[d].kind == Dir && nodes[d].nlink == 0
    requires 0 < f < |nodes| && nodes[f].kind == Unused
    requires 2 <= k <= |nodes[d].entries| && (k < |nodes[d].entries| ==> !Live(nodes[d].entries[k]))
    ensures var u := AddName(Birth(nodes, f, File, d), d, k, f, name);
            |u| == |nodes| && Named(Freed(u, d), |u|, f) == 0
  {
    hide *;
    UsedDir(nodes, pend, d);
    PendNone(nodes, pend, f);
    BirthNodes(nodes, d, f);
    var b := Birth(nodes, f, File, d);
    AddedNodes(b, d, k, f, name);
    assert Inv(b, pend) by { BirthKeeps(nodes, pend, f, File, d); }
    UnlinkedAddLeaks(b, pend, d, k, f, name);
  }

  lemma BirthNodes(nodes: seq<Node>, d: nat, f: nat)
    requires d < |nodes| && f < |nodes| && f != d
    ensures var b := Birth(nodes, f, File, d);
            |b| == |nodes| && b[d] == nodes[d] && b[f] == Node(File, 0, 1, [])
  {
  }

  lemma AddedNodes(nodes: seq<Node>, d: nat, k: nat, f: nat, name: string)
    requires d < |nodes| && f < |nodes| && f != d && k <= |nodes[d].entries| && nodes[f].kind == File
    ensures var u := AddName(nodes, d, k, f, name);
            && |u| == |nodes| && u[f] == nodes[f].(nlink := nodes[f].nlink + 1)
            && u[d].kind == nodes[d].kind && u[d].nlink == nodes[d].nlink && u[d].ref == nodes[d].ref
  {
    hide Put;
  }

  lemma FreedNodes(nodes: seq<Node>, d: nat, f: nat)
    requires d < |nodes| && f < |nodes| && f != d
    ensures |Freed(nodes, d)| == |nodes| && Freed(nodes, d)[f] == nodes[f]
  {
  }

  lemma SameNames(nodes: seq<Node>, f: nat, x: Node)
    requires f < |nodes| && x.entries == nodes[f].entries
    ensures Named(nodes[f := x], |nodes|, f) == Named(nodes, |nodes|, f)
  {
    NamedSet(nodes, f, x, |nodes|, f);
  }

  lemma PendNone(nodes: seq<Node>, pend: seq<nat>, t: nat)
    requires Inv(nodes, pend) && t < |nodes| && nodes[t].kind == Unused
    ensures |pend| == |nodes| && pend[t] == 0
  {
    hide Shape, Targets, UnlinkedBare, Count;
  }

  lemma InvBounds(nodes: seq<Node>, pend: seq<nat>)
    requires Inv(nodes, pend)
    ensures |pend| == |nodes| > ROOTINO && nodes[0].kind == Unused
    ensures forall d | 0 <= d < |nodes| && nodes[d].kind == Dir ::
              |nodes[d].entries| >= 2 && Live(nodes[d].entries[0]) && Live(nodes[d].entries[1]) && d > 0 && pend[d] == 0
  {
    hide Targets, UnlinkedBare, Count;
  }

  // The entry that unlink finds is not a dot, and its inode has a link.
  lemma UnlinkTarget(nodes: seq<Node>, pend: seq<nat>, d: nat, k: nat)
    requires Inv(nodes, pend) && d < |nodes| && nodes[d].kind == Dir && k < |nodes[d].entries|
             && Live(nodes[d].entries[k])
    requires nodes[d].entries[k].name != "." && nodes[d].entries[k].name != ".."
    ensures 2 <= k && d > 0
    ensures var t := nodes[d].entries[k].inum;
            0 < t < |nodes| && t != d && nodes[t].kind != Unused && nodes[t].nlink > 0
  {
    assert GoodDir(nodes[d].entries, d);
    NamedOne(nodes, |nodes|, d, k, nodes[d].entries[k].inum);
  }

  // Whether the name leads to a directory that is not empty depends on that
  // entry alone.
  lemma OnlyEntry(nodes: seq<Node>, pend: seq<nat>, d: nat, k: nat)
    requires Inv(nodes, pend) && d < |nodes| && nodes[d].kind == Dir && k < |nodes[d].entries|
             && Live(nodes[d].entries[k])
    ensures var es := nodes[d].entries;
            (exists e | e in es && e.name == es[k].name :: Filled(nodes, e.inum)) <==> Filled(nodes, es[k].inum)
  {
    hide Bare, Targets, Counted, UnlinkedBare;
    var es := nodes[d].entries;
    assert GoodDir(es, d) && es[k] in es;
    forall e | e in es && e.name == es[k].name && Filled(nodes, e.inum) ensures e == es[k] {}
  }

  lemma UnrefKeeps(nodes: seq<Node>, pend: seq<nat>, t: nat)
    requires Inv(nodes, pend) && 0 < t < |nodes| && nodes[t].kind != Unused && nodes[t].ref > 0
    ensures Inv(nodes[t := nodes[t].(ref := nodes[t].ref - 1)], pend)
  {
    hide Inv;
    InvBounds(nodes, pend);
    TuneKeeps(nodes, pend, t, nodes[t].(ref := nodes[t].ref - 1), pend[t]);
    assert pend[t := pend[t]] == pend;
  }

  // References, and links in the making, come and go without touching names.
  lemma TuneKeeps(nodes: seq<Node>, pend: seq<nat>, t: nat, n: Node, p: nat)
    requires Inv(nodes, pend) && 0 < t < |nodes| && n.kind == nodes[t].kind && n.entries == nodes[t].entries
    requires n.kind != Unused && n.nlink - p == nodes[t].nlink - pend[t] && (n.kind == Dir ==> p == 0)
    ensures Inv(nodes[t := n], pend[t := p])
  {
    hide Named, Subdirs, Names, GoodDir;
    var r := nodes[t := n];
    forall u | 0 < u < |nodes|
      ensures Named(r, |r|, u) == Named(nodes, |nodes|, u)
              && Subdirs(r, r[u].entries) == Subdirs(nodes, nodes[u].entries)
    {
      NamedSet(nodes, t, n, |nodes|, u);
      SubdirsSame(nodes, r, nodes[u].entries);
    }
  }
}
