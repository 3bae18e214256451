// Crashes during filewrite (file.c): its chunks run through the log of log.c.
//
// The blocks each chunk logs, in any order, become log_writes of one operation
// of the protocol.  Whenever the machine stops, recovery finds the file system
// as it was after some whole number of chunks.
module FsCrash {
  import opened Blocks
  import opened LogDisk
  import opened LogProtocol
  import Fs
  import FsBlocks
  import FsBytes
  import FsDisk

  // --- runs one step at a time ---

  // The run goes through and never overruns the log.
  ghost predicate Fine(l: Layout, s0: State, steps: seq<Step>) {
    Exec(l, s0, steps).Next? && NoOverrun(l, s0, steps)
  }

  lemma {:induction false} NoOverrunMore(l: Layout, s: State, a: seq<Step>, step: Step)
    requires NoOverrun(l, s, a) && Exec(l, s, a).Next?
    requires Do(l, Exec(l, s, a).s, step).Next? ==> |Do(l, Exec(l, s, a).s, step).s.lh| < l.size
    ensures NoOverrun(l, s, a + [step])
    decreases |a|
  {
    hide Do;
    if a == [] {
      assert (a + [step])[1..] == [];
    } else {
      assert (a + [step])[0] == a[0] && (a + [step])[1..] == a[1..] + [step];
      NoOverrunMore(l, Do(l, s, a[0]).s, a[1..], step);
    }
  }

  lemma FineThen(l: Layout, s0: State, a: seq<Step>, step: Step)
    requires Fine(l, s0, a) && Do(l, Exec(l, s0, a).s, step).Next?
    requires |Do(l, Exec(l, s0, a).s, step).s.lh| < l.size
    ensures Fine(l, s0, a + [step]) && Exec(l, s0, a + [step]) == Do(l, Exec(l, s0, a).s, step)
  {
    hide Do, NoOverrun;
    NoOverrunMore(l, s0, a, step);
    ExecAppend(l, s0, a, [step]);
    assert [step][1..] == [];
  }

  lemma {:induction false} FinePrefix(l: Layout, s: State, steps: seq<Step>, j: nat)
    requires Fine(l, s, steps) && j <= |steps|
    ensures Fine(l, s, steps[..j])
    decreases j
  {
    hide Do;
    if j > 0 {
      assert steps[..j][0] == steps[0] && steps[..j][1..] == steps[1..][..j - 1];
      FinePrefix(l, Do(l, s, steps[0]).s, steps[1..], j - 1);
    }
  }

  // --- what a run leaves alone ---

  // Operations that have ended log nothing more.
  ghost predicate Later(s: State, s': State) {
    && s.ended <= s'.ended && s.history <= s'.history
    && forall i | |s.history| <= i < |s'.history| :: s'.history[i].op !in s.ended
  }

  lemma StepLater(l: Layout, s: State, step: Step)
    requires Roster(s) && Do(l, s, step).Next?
    ensures Later(s, Do(l, s, step).s)
  {
    hide CommitImage, Room, Admits, TooBig, IsHome;
  }

  lemma {:induction false} RunLater(l: Layout, s: State, steps: seq<Step>)
    requires Disciplined(s) && Exec(l, s, steps).Next?
    ensures Later(s, Exec(l, s, steps).s)
    decreases |steps|
  {
    hide Do, Roster, Budget, WholeOps;
    if steps != [] {
      StepLater(l, s, steps[0]);
      StepDisciplined(l, s, steps[0]);
      RunLater(l, Do(l, s, steps[0]).s, steps[1..]);
    }
  }

  // --- one chunk ---

  function At(d: Disk, b: nat): Block { if b < |d| then d[b] else ZeroBlock() }

  // The log_writes of operation n for the first k blocks of bs, with the
  // contents that e has for them.
  function Evs(n: OpId, bs: seq<nat>, e: Disk, k: nat): seq<Event>
    requires k <= |bs|
  {
    if k == 0 then [] else Evs(n, bs, e, k - 1) + [Event(n, bs[k - 1], At(e, bs[k - 1]))]
  }

  lemma {:induction false} EvsOps(n: OpId, bs: seq<nat>, e: Disk, k: nat)
    requires k <= |bs|
    ensures |Evs(n, bs, e, k)| == k && forall i | 0 <= i < k :: Evs(n, bs, e, k)[i].op == n
  {
    if k > 0 { EvsOps(n, bs, e, k - 1); }
  }

  // They give exactly these blocks their new contents.
  lemma {:induction false} EvsApply(d: Disk, n: OpId, bs: seq<nat>, e: Disk, k: nat, b: nat)
    requires k <= |bs| && |e| == |d| && b < |d| && forall i | 0 <= i < |bs| :: bs[i] < |e|
    ensures Apply(d, Evs(n, bs, e, k))[b] == if b in bs[..k] then e[b] else d[b]
  {
    hide Apply;
    if k == 0 {
      NoEvents(d);
    } else {
      EvsApply(d, n, bs, e, k - 1, b);
      ApplyMore(d, Evs(n, bs, e, k - 1), Event(n, bs[k - 1], e[bs[k - 1]]));
      assert bs[..k] == bs[..k - 1] + [bs[k - 1]];
    }
  }

  lemma NoEvents(d: Disk)
    ensures Apply(d, []) == d
  {
  }

  lemma EvsChange(d: Disk, n: OpId, bs: seq<nat>, e: Disk)
    requires |e| == |d| && (forall i | 0 <= i < |bs| :: bs[i] < |e|)
    requires forall b | 0 <= b < |d| && b !in bs :: e[b] == d[b]
    ensures Apply(d, Evs(n, bs, e, |bs|)) == e
  {
    hide Apply, Evs;
    assert bs[..|bs|] == bs;
    forall b | 0 <= b < |d| ensures Apply(d, Evs(n, bs, e, |bs|))[b] == e[b] { EvsApply(d, n, bs, e, |bs|, b); }
  }

  function Pairs(n: OpId, bs: seq<nat>, e: Disk, k: nat): seq<Step>
    requires k <= |bs|
  {
    if k == 0 then [] else Pairs(n, bs, e, k - 1) + [Test(n)] + [Write(n, bs[k - 1], At(e, bs[k - 1]))]
  }

  // begin_op, the log_writes, end_op, and the commit that it runs.
  function Chunk(n: OpId, bs: seq<nat>, e: Disk): seq<Step>
  {
    [Begin(n)] + Pairs(n, bs, e, |bs|) + [End(n)] + BlockWrites(if bs == [] then 0 else 2 * |bs| + 2) + [Done]
  }

  // Between two chunks, before operation n: the kernel sees disk d.
  ghost predicate Idle(s: State, n: nat, d: Disk, h: seq<Event>) {
    && s.lh == [] && s.outstanding == 0 && !s.committing && s.active == map[]
    && s.cache == d && |s.disk| == |d| && s.history == h && forall t | t in s.ended :: t < n
  }

  // The blocks that an operation may log on this layout.
  ghost predicate Loggable(l: Layout, bs: seq<nat>, d: Disk) {
    && Distinct(bs) && |bs| <= MAXOPBLOCKS < l.size && l.start + l.size <= |d|
    && forall i | 0 <= i < |bs| :: bs[i] < |d| && !InLog(l, bs[i]) && bs[i] < TWO_TO_THE_32
  }

  // Operation n has logged the first k blocks.
  ghost function Mid(s: State, n: OpId, bs: seq<nat>, e: Disk, k: nat): State
    requires k <= |bs|
  {
    s.(outstanding := 1, active := map[n := Op(k, false)], lh := bs[..k],
       cache := Apply(s.cache, Evs(n, bs, e, k)), history := s.history + Evs(n, bs, e, k))
  }

  lemma TestDo(l: Layout, s: State, n: OpId, bs: seq<nat>, e: Disk, k: nat)
    requires Loggable(l, bs, e) && k < |bs|
    ensures var m := Mid(s, n, bs, e, k); Do(l, m, Test(n)) == Next(m.(active := map[n := Op(k, true)]))
  {
    hide Apply, Evs;
    assert map[n := Op(k, false)][n := Op(k, true)] == map[n := Op(k, true)];
  }

  lemma WriteDo(l: Layout, s: State, n: OpId, bs: seq<nat>, e: Disk, k: nat)
    requires Loggable(l, bs, e) && |s.disk| == |s.cache| == |e| && k < |bs|
    ensures var m, b := Mid(s, n, bs, e, k).(active := map[n := Op(k, true)]), bs[k];
            Do(l, m, Write(n, b, At(e, b))) == Next(Mid(s, n, bs, e, k + 1))
  {
    hide Apply, Evs, At;
    var b := bs[k];
    var ev := Event(n, b, At(e, b));
    EvsNext(n, bs, e, k);
    ApplyMore(s.cache, Evs(n, bs, e, k), ev);
    assert b !in bs[..k] && bs[..k + 1] == bs[..k] + [b];
    assert map[n := Op(k, true)][n := Op(k + 1, false)] == map[n := Op(k + 1, false)];
    assert s.history + Evs(n, bs, e, k) + [ev] == s.history + (Evs(n, bs, e, k) + [ev]);
  }

  lemma EvsNext(n: OpId, bs: seq<nat>, e: Disk, k: nat)
    requires k < |bs|
    ensures Evs(n, bs, e, k + 1) == Evs(n, bs, e, k) + [Event(n, bs[k], At(e, bs[k]))]
  {
  }

  lemma {:induction false} PairsRun(l: Layout, s0: State, a: seq<Step>, s: State, n: OpId, bs: seq<nat>, e: Disk,
          k: nat)
    requires Loggable(l, bs, e) && |s.disk| == |s.cache| == |e| && k <= |bs|
    requires Fine(l, s0, a) && Exec(l, s0, a) == Next(Mid(s, n, bs, e, 0))
    ensures Fine(l, s0, a + Pairs(n, bs, e, k)) && Exec(l, s0, a + Pairs(n, bs, e, k)) == Next(Mid(s, n, bs, e, k))
  {
    hide Fine, Do, Exec, Loggable, Evs, Apply;
    if k == 0 {
      assert a + [] == a;
    } else {
      PairsRun(l, s0, a, s, n, bs, e, k - 1);
      TestDo(l, s, n, bs, e, k - 1);
      WriteDo(l, s, n, bs, e, k - 1);
      Sizes(l, bs, e);
      var p, w := a + Pairs(n, bs, e, k - 1), Write(n, bs[k - 1], At(e, bs[k - 1]));
      FineThen(l, s0, p, Test(n));
      FineThen(l, s0, p + [Test(n)], w);
      assert p + [Test(n)] + [w] == a + Pairs(n, bs, e, k);
    }
  }

  lemma Sizes(l: Layout, bs: seq<nat>, d: Disk)
    requires Loggable(l, bs, d)
    ensures |bs| < l.size && |bs| <= MAXOPBLOCKS
  {
  }

  lemma BeginDo(l: Layout, s: State, n: OpId, bs: seq<nat>, e: Disk, d: Disk, h: seq<Event>)
    requires Idle(s, n, d, h)
    ensures Do(l, s, Begin(n)) == Next(Mid(s, n, bs, e, 0))
  {
    hide Apply;
    NoEvents(s.cache);
    assert s.history + [] == s.history;
  }

  // The commit of a chunk after j block writes.
  ghost predicate Closing(c: State, n: nat, bs: seq<nat>, d: Disk, h: seq<Event>, j: nat) {
    && c.lh == bs && c.outstanding == 0 && c.committing && c.active == map[] && c.writes == j
    && c.cache == d && |c.disk| == |c.base| == |d| && c.history == h && forall t | t in c.ended :: t <= n
  }

  lemma EndDo(l: Layout, s: State, n: OpId, bs: seq<nat>, e: Disk, d: Disk, h: seq<Event>)
    requires Idle(s, n, d, h)
    ensures var r, evs := Do(l, Mid(s, n, bs, e, |bs|), End(n)), Evs(n, bs, e, |bs|);
            r.Next? && Closing(r.s, n, bs, Apply(d, evs), h + evs, 0)
  {
    hide Apply, Evs, Do;
    assert bs[..|bs|] == bs;
    LastEnds(l, Mid(s, n, bs, e, |bs|), n, Op(|bs|, false));
  }

  // end_op of the only operation.
  lemma LastEnds(l: Layout, m: State, n: OpId, op: Op)
    requires m.active == map[n := op] && m.outstanding == 1 && !m.committing
    ensures Do(l, m, End(n)) == Next(m.(outstanding := 0, active := map[], ended := m.ended + {n}, committing := true,
                                        writes := 0, base := m.disk))
  {
    assert m.active - {n} == map[];
  }

  lemma BlockDo(l: Layout, c: State, n: nat, bs: seq<nat>, d: Disk, h: seq<Event>, j: nat)
    requires Closing(c, n, bs, d, h, j) && Room(l, |d|, bs) && bs != [] && j < 2 * |bs| + 2
    ensures var r := Do(l, c, BlockWrite); r.Next? && Closing(r.s, n, bs, d, h, j + 1)
  {
    hide CommitImage, Room;
  }

  lemma DoneDo(l: Layout, c: State, n: nat, bs: seq<nat>, d: Disk, h: seq<Event>, j: nat)
    requires Closing(c, n, bs, d, h, j) && (bs == [] || j == 2 * |bs| + 2)
    ensures var r := Do(l, c, Done); r.Next? && Idle(r.s, n + 1, d, h)
  {
  }

  lemma {:induction false} BlocksRun(l: Layout, s0: State, a: seq<Step>, n: nat, bs: seq<nat>, d: Disk, h: seq<Event>,
          j: nat)
    requires Loggable(l, bs, d) && bs != [] && j <= 2 * |bs| + 2
    requires Fine(l, s0, a) && Closing(Exec(l, s0, a).s, n, bs, d, h, 0)
    ensures Fine(l, s0, a + BlockWrites(j)) && Closing(Exec(l, s0, a + BlockWrites(j)).s, n, bs, d, h, j)
  {
    hide NoOverrun, Do, Exec, Loggable, Closing;
    if j == 0 {
      assert a + [] == a;
    } else {
      BlocksRun(l, s0, a, n, bs, d, h, j - 1);
      var p := a + BlockWrites(j - 1);
      RoomFor(l, bs, d);
      BlockDo(l, Exec(l, s0, p).s, n, bs, d, h, j - 1);
      ListIs(Do(l, Exec(l, s0, p).s, BlockWrite).s, n, bs, d, h, j);
      FineThen(l, s0, p, BlockWrite);
      assert p + [BlockWrite] == a + BlockWrites(j);
    }
  }

  lemma RoomFor(l: Layout, bs: seq<nat>, d: Disk)
    requires Loggable(l, bs, d)
    ensures Room(l, |d|, bs) && |bs| < l.size
  {
  }

  lemma InRange(l: Layout, bs: seq<nat>, d: Disk)
    requires Loggable(l, bs, d)
    ensures forall i | 0 <= i < |bs| :: bs[i] < |d|
  {
  }

  lemma ListIs(c: State, n: nat, bs: seq<nat>, d: Disk, h: seq<Event>, j: nat)
    requires Closing(c, n, bs, d, h, j)
    ensures c.lh == bs
  {
  }

  // A chunk goes through, and turns what the kernel sees from d into e.
  lemma ChunkRun(l: Layout, s0: State, a: seq<Step>, n: OpId, bs: seq<nat>, d: Disk, e: Disk, h: seq<Event>)
    requires Fine(l, s0, a) && Idle(Exec(l, s0, a).s, n, d, h) && Loggable(l, bs, e)
    requires |e| == |d| && forall b | 0 <= b < |d| && b !in bs :: e[b] == d[b]
    ensures Fine(l, s0, a + Chunk(n, bs, e))
    ensures Idle(Exec(l, s0, a + Chunk(n, bs, e)).s, n + 1, e, h + Evs(n, bs, e, |bs|))
  {
    hide NoOverrun, Do, Exec, Evs, Apply, Closing, BlockWrites, Pairs, Mid, Chunk, Loggable;
    var s, k := Exec(l, s0, a).s, |bs|;
    RoomFor(l, bs, e);
    BeginDo(l, s, n, bs, e, d, h);
    MidList(s, n, bs, e);
    FineThen(l, s0, a, Begin(n));
    var a1 := a + [Begin(n)];
    PairsRun(l, s0, a1, s, n, bs, e, k);
    var a2 := a1 + Pairs(n, bs, e, k);
    InRange(l, bs, e);
    EvsChange(d, n, bs, e);
    EndDo(l, s, n, bs, e, d, h);
    ListIs(Do(l, Mid(s, n, bs, e, k), End(n)).s, n, bs, e, h + Evs(n, bs, e, k), 0);
    FineThen(l, s0, a2, End(n));
    CommitRun(l, s0, a2 + [End(n)], n, bs, e, h + Evs(n, bs, e, k));
    ChunkParts(a, n, bs, e);
  }

  lemma ChunkParts(a: seq<Step>, n: OpId, bs: seq<nat>, e: Disk)
    ensures a + Chunk(n, bs, e)
            == a + [Begin(n)] + Pairs(n, bs, e, |bs|) + [End(n)]
               + BlockWrites(if bs == [] then 0 else 2 * |bs| + 2) + [Done]
  {
    hide BlockWrites, Pairs;
  }

  lemma MidList(s: State, n: OpId, bs: seq<nat>, e: Disk)
    ensures |Mid(s, n, bs, e, 0).lh| == 0
  {
  }

  lemma CommitRun(l: Layout, s0: State, a: seq<Step>, n: nat, bs: seq<nat>, e: Disk, h: seq<Event>)
    requires Fine(l, s0, a) && Closing(Exec(l, s0, a).s, n, bs, e, h, 0) && Loggable(l, bs, e)
    ensures var steps := a + BlockWrites(if bs == [] then 0 else 2 * |bs| + 2) + [Done];
            Fine(l, s0, steps) && Idle(Exec(l, s0, steps).s, n + 1, e, h)
  {
    hide NoOverrun, Do, Exec, Closing, Loggable;
    var j := if bs == [] then 0 else 2 * |bs| + 2;
    var p := a + BlockWrites(j);
    if bs == [] { assert p == a; } else { BlocksRun(l, s0, a, n, bs, e, h, j); }
    RoomFor(l, bs, e);
    DoneDo(l, Exec(l, s0, p).s, n, bs, e, h, j);
    FineThen(l, s0, p, Done);
  }

  // --- all chunks ---

  // Disk ds[m] becomes ds[m + 1] by changing blocks of bss[m].
  ghost predicate Plan(l: Layout, ds: seq<Disk>, bss: seq<seq<nat>>) {
    && |ds| == |bss| + 1
    && forall m {:trigger bss[m]} | 0 <= m < |bss| ::
         && Loggable(l, bss[m], ds[m + 1]) && |ds[m + 1]| == |ds[m]|
         && forall b | 0 <= b < |ds[m]| && b !in bss[m] :: ds[m + 1][b] == ds[m][b]
  }

  function Chunks(ds: seq<Disk>, bss: seq<seq<nat>>, n: nat): seq<Step>
    requires n <= |bss| < |ds|
  {
    if n == 0 then [] else Chunks(ds, bss, n - 1) + Chunk(n - 1, bss[n - 1], ds[n])
  }

  function AllEvs(ds: seq<Disk>, bss: seq<seq<nat>>, n: nat): seq<Event>
    requires n <= |bss| < |ds|
  {
    if n == 0 then [] else AllEvs(ds, bss, n - 1) + Evs(n - 1, bss[n - 1], ds[n], |bss[n - 1]|)
  }

  lemma StartIdle(l: Layout, s0: State)
    requires Init(l, s0)
    ensures Fine(l, s0, []) && Idle(Exec(l, s0, []).s, 0, s0.disk, [])
  {
  }

  lemma {:induction false} ChunksRun(l: Layout, s0: State, ds: seq<Disk>, bss: seq<seq<nat>>, n: nat)
    requires Init(l, s0) && Plan(l, ds, bss) && s0.disk == ds[0] && n <= |bss|
    ensures Fine(l, s0, Chunks(ds, bss, n)) && Idle(Exec(l, s0, Chunks(ds, bss, n)).s, n, ds[n], AllEvs(ds, bss, n))
  {
    hide Do, Chunk, Evs, Loggable, NoOverrun, Exec, Idle, WellLogged, Fine;
    if n == 0 {
      StartIdle(l, s0);
    } else {
      ChunksRun(l, s0, ds, bss, n - 1);
      ChunkRun(l, s0, Chunks(ds, bss, n - 1), n - 1, bss[n - 1], ds[n - 1], ds[n], AllEvs(ds, bss, n - 1));
    }
  }

  lemma {:induction false} ApplyAppend(d: Disk, a: seq<Event>, b: seq<Event>)
    ensures Apply(d, a + b) == Apply(Apply(d, a), b)
    decreases |b|
  {
    if b == [] {
      assert a + b == a;
    } else {
      var n := |b| - 1;
      ApplyAppend(d, a, b[..n]);
      assert (a + b)[..|a + b| - 1] == a + b[..n];
    }
  }

  lemma {:induction false} AllApply(l: Layout, ds: seq<Disk>, bss: seq<seq<nat>>, n: nat)
    requires Plan(l, ds, bss) && n <= |bss|
    ensures Apply(ds[0], AllEvs(ds, bss, n)) == ds[n]
  {
    hide Apply, Evs, InLog;
    if n == 0 {
      NoEvents(ds[0]);
    } else {
      AllApply(l, ds, bss, n - 1);
      ApplyAppend(ds[0], AllEvs(ds, bss, n - 1), Evs(n - 1, bss[n - 1], ds[n], |bss[n - 1]|));
      EvsChange(ds[n - 1], n - 1, bss[n - 1], ds[n]);
    }
  }

  function OpAt(h: seq<Event>, i: nat): nat { if i < |h| then h[i].op else 0 }

  // The events from g on are one operation's, and the cut k after g separates
  // no operation's.
  lemma CutIsEnd(h: seq<Event>, g: nat, k: nat)
    requires g < k <= |h| && forall j | g <= j < |h| :: h[j].op == OpAt(h, g)
    requires forall i, j | 0 <= i < k <= j < |h| :: h[i].op != h[j].op
    ensures k == |h|
  {
    var x, y := OpAt(h, g), OpAt(h, k);
  }

  // A cut that separates no operation's log_writes falls between two chunks.
  lemma {:induction false} CutBetween(ds: seq<Disk>, bss: seq<seq<nat>>, n: nat, k: nat) returns (m: nat)
    requires n <= |bss| < |ds| && k <= |AllEvs(ds, bss, n)|
    requires var h := AllEvs(ds, bss, n); forall i, j | 0 <= i < k <= j < |h| :: h[i].op != h[j].op
    ensures m <= n && AllEvs(ds, bss, n)[..k] == AllEvs(ds, bss, m)
  {
    hide Evs;
    var h := AllEvs(ds, bss, n);
    if n == 0 { return 0; }
    var g, e := AllEvs(ds, bss, n - 1), Evs(n - 1, bss[n - 1], ds[n], |bss[n - 1]|);
    EvsOps(n - 1, bss[n - 1], ds[n], |bss[n - 1]|);
    if k <= |g| {
      assert forall i | 0 <= i < |g| :: g[i] == h[i];
      m := CutBetween(ds, bss, n - 1, k);
      assert h[..k] == g[..k];
    } else {
      forall j | |g| <= j < |h| ensures h[j].op == n - 1 { assert h[j] == e[j - |g|]; }
      CutIsEnd(h, |g|, k);
      assert h[..|h|] == h;
      m := n;
    }
  }

  // What is durable at any point is the log_writes of some number of chunks.
  lemma CutAt(l: Layout, s0: State, ds: seq<Disk>, bss: seq<seq<nat>>, j: nat) returns (m: nat)
    requires Init(l, s0) && Plan(l, ds, bss) && s0.disk == ds[0] && j <= |Chunks(ds, bss, |bss|)|
    ensures m <= |bss| && Exec(l, s0, Chunks(ds, bss, |bss|)[..j]).Next?
    ensures var s := Exec(l, s0, Chunks(ds, bss, |bss|)[..j]).s;
            s.durable <= |s.history| && s.history[..s.durable] == AllEvs(ds, bss, m)
  {
    hide Do, Exec, NoOverrun, Loggable, Chunks, AllEvs, Roster, Budget, WholeOps, OnDisk;
    var steps := Chunks(ds, bss, |bss|);
    ChunksRun(l, s0, ds, bss, |bss|);
    FinePrefix(l, s0, steps, j);
    InitHolds(l, s0);
    RunDisciplined(l, s0, steps[..j]);
    var s := Exec(l, s0, steps[..j]).s;
    assert steps == steps[..j] + steps[j..];
    ExecAppend(l, s0, steps[..j], steps[j..]);
    RunLater(l, s, steps[j..]);
    Separated(s, Exec(l, s0, steps).s);
    var h := AllEvs(ds, bss, |bss|);
    m := CutBetween(ds, bss, |bss|, s.durable);
    assert h[..s.durable] == s.history[..s.durable];
  }

  // No operation has log_writes both in the durable part and after it.
  lemma Separated(s: State, s': State)
    requires Disciplined(s) && Later(s, s')
    ensures s.durable <= |s.history| <= |s'.history|
    ensures forall i, j | 0 <= i < s.durable <= j < |s'.history| :: s'.history[i].op != s'.history[j].op
  {
    hide Budget;
    forall i, j | 0 <= i < s.durable <= j < |s'.history| ensures s'.history[i].op != s'.history[j].op {
      assert s'.history[i] == s.history[i];
      if j < |s.history| { assert s'.history[j] == s.history[j]; }
    }
  }

  lemma AllDone(l: Layout, s0: State, ds: seq<Disk>, bss: seq<seq<nat>>, ks: seq<nat>)
    requires Init(l, s0) && Plan(l, ds, bss) && s0.disk == ds[0]
    ensures var r := Exec(l, s0, Chunks(ds, bss, |bss|));
            && r.Next? && WellLogged(l, r.s.disk)
            && Home(l, Recovered(l, AfterCrashes(l, r.s.disk, ks))) == Home(l, ds[|bss|])
  {
    hide Do, Exec, NoOverrun, Loggable, Chunks, AllEvs, Recovered, AfterCrashes, Home, WellLogged;
    ChunksRun(l, s0, ds, bss, |bss|);
    EndedIsDurable(l, s0, Chunks(ds, bss, |bss|), ks);
  }

  // Stop the machine after any number of steps and recover, with any number of
  // further crashes: what is there is the disk after a whole number of chunks,
  // and after all of them once the last commit is done.
  lemma WholeChunks(l: Layout, s0: State, ds: seq<Disk>, bss: seq<seq<nat>>, j: nat, ks: seq<nat>)
    requires Init(l, s0) && Plan(l, ds, bss) && s0.disk == ds[0] && j <= |Chunks(ds, bss, |bss|)|
    ensures var r := Exec(l, s0, Chunks(ds, bss, |bss|)[..j]);
            && r.Next? && WellLogged(l, r.s.disk)
            && exists m ::
                 && 0 <= m < |ds| && (j == |Chunks(ds, bss, |bss|)| ==> m == |bss|)
                 && Home(l, Recovered(l, AfterCrashes(l, r.s.disk, ks))) == Home(l, ds[m])
  {
    hide Do, Exec, NoOverrun, Loggable, Chunks, AllEvs, Apply, Recovered, AfterCrashes, Home, WellLogged;
    var steps := Chunks(ds, bss, |bss|);
    ChunksRun(l, s0, ds, bss, |bss|);
    FinePrefix(l, s0, steps, j);
    WholeOperations(l, s0, steps[..j], ks);
    if j == |steps| {
      assert steps[..j] == steps;
      AllDone(l, s0, ds, bss, ks);
    } else {
      var m := CutAt(l, s0, ds, bss, j);
      var s := Exec(l, s0, steps[..j]).s;
      AllApply(l, ds, bss, m);
      assert Home(l, Recovered(l, AfterCrashes(l, s.disk, ks))) == Home(l, ds[m]);
    }
  }

  // --- filewrite ---

  // The order in which the chunks call log_write for the first time on each block.
  ghost predicate Orders(bss: seq<seq<nat>>, txs: seq<set<nat>>) {
    |bss| == |txs| && forall m | 0 <= m < |bss| :: Distinct(bss[m]) && forall b :: b in bss[m] <==> b in txs[m]
  }

  lemma {:induction false} DistinctCount(bs: seq<nat>, tx: set<nat>)
    requires Distinct(bs) && forall b :: b in bs <==> b in tx
    ensures |bs| == |tx|
  {
    if bs != [] {
      var n := |bs| - 1;
      DistinctCount(bs[..n], tx - {bs[n]});
    }
  }

  function Disks(vols: seq<FsBlocks.Volume>): seq<Disk> { seq(|vols|, m requires 0 <= m < |vols| => vols[m].d) }

  // The log lies before the inode table, and has room for one operation.
  predicate LaidOut(l: Layout, sb: FsDisk.Super) {
    l.start + l.size <= sb.inodestart <= sb.size < TWO_TO_THE_32 && MAXOPBLOCKS < l.size
  }

  lemma {:induction false} SameLengths(sb: FsDisk.Super, v: FsBlocks.Volume, vols: seq<FsBlocks.Volume>,
          txs: seq<set<nat>>, i: nat, off: nat, src: seq<byte>, m: nat)
    requires Fs.Chunked(sb, v, vols, txs, i, off, src) && m <= |txs|
    ensures |vols[m].d| == |v.d|
  {
    hide FsBytes.WriteEffect;
    if m > 0 {
      SameLengths(sb, v, vols, txs, i, off, src, m - 1);
      assert Fs.Logs(sb, vols[m - 1].d, {}, vols[m].d, txs[m - 1]);
    }
  }

  lemma ChunkedPlan(l: Layout, sb: FsDisk.Super, v: FsBlocks.Volume, vols: seq<FsBlocks.Volume>, txs: seq<set<nat>>,
          i: nat, off: nat, src: seq<byte>, bss: seq<seq<nat>>)
    requires Fs.Chunked(sb, v, vols, txs, i, off, src) && Orders(bss, txs) && LaidOut(l, sb) && |v.d| == sb.size
    ensures Plan(l, Disks(vols), bss)
  {
    hide FsBytes.WriteEffect;
    var ds := Disks(vols);
    forall m {:trigger bss[m]} | 0 <= m < |bss|
      ensures Loggable(l, bss[m], ds[m + 1]) && |ds[m + 1]| == |ds[m]|
      ensures forall b | 0 <= b < |ds[m]| && b !in bss[m] :: ds[m + 1][b] == ds[m][b]
    {
      SameLengths(sb, v, vols, txs, i, off, src, m + 1);
      assert Fs.Logs(sb, vols[m].d, {}, vols[m + 1].d, txs[m]);
      DistinctCount(bss[m], txs[m]);
      assert |txs[m]| <= MAXOPBLOCKS;
      forall k | 0 <= k < |bss[m]| ensures bss[m][k] in txs[m] {}
    }
  }

  // Stop the machine anywhere in filewrite and recover, through any number of
  // further crashes.  The file system found is the one after some number m of
  // chunks: the file has exactly the bytes of those, and every invariant of the
  // file system holds.
  lemma FileWriteCrash(l: Layout, s0: State, sb: FsDisk.Super, v: FsBlocks.Volume, vols: seq<FsBlocks.Volume>,
          txs: seq<set<nat>>, i: nat, off: nat, src: seq<byte>, bss: seq<seq<nat>>, j: nat, ks: seq<nat>)
    requires Fs.Chunked(sb, v, vols, txs, i, off, src) && FsBytes.Whole(sb, v) && Orders(bss, txs)
    requires LaidOut(l, sb) && Init(l, s0) && s0.disk == v.d && j <= |Chunks(Disks(vols), bss, |bss|)|
    ensures var r := Exec(l, s0, Chunks(Disks(vols), bss, |bss|)[..j]);
            && r.Next? && WellLogged(l, r.s.disk)
            && exists m ::
                 && 0 <= m < |vols| && (j == |Chunks(Disks(vols), bss, |bss|)| ==> m == |txs|)
                 && Home(l, Recovered(l, AfterCrashes(l, r.s.disk, ks))) == Home(l, vols[m].d)
                 && (if m == 0 then vols[m] == v
                     else FsBytes.WriteEffect(sb, v, vols[m], i, off, src[..Fs.Until(|src|, m)]))
  {
    hide Chunks, Exec, Recovered, AfterCrashes, Home, WellLogged, FsBytes.WriteEffect, FsBlocks.Tracked, FsBlocks.Exact;
    ChunkedPlan(l, sb, v, vols, txs, i, off, src, bss);
    WholeChunks(l, s0, Disks(vols), bss, j, ks);
    var d := Exec(l, s0, Chunks(Disks(vols), bss, |bss|)[..j]).s.disk;
    var m: nat :|
      && m < |vols| && (j == |Chunks(Disks(vols), bss, |bss|)| ==> m == |bss|)
      && Home(l, Recovered(l, AfterCrashes(l, d, ks))) == Home(l, Disks(vols)[m]);
    assert Disks(vols)[m] == vols[m].d;
  }
}
