// begin_op, log_write and end_op under any interleaving (log.c), with the
// commit that the last end_op runs taken one block write at a time.
//
// A step is one stretch of code under log.lock, one of log_write's tests made
// before taking the lock, or one bwrite of the committing thread.
module LogProtocol {
  import opened Blocks
  import opened LogDisk

  type OpId = nat

  // An operation between begin_op and end_op: how many new blocks it has put
  // in the log, and whether it is between log_write's tests and its update.
  datatype Op = Op(spent: nat, tested: bool)

  // One log_write: op published data as the contents of block b.
  datatype Event = Event(op: OpId, b: nat, data: Block)

  datatype State = State(
    lh: seq<nat>, outstanding: int, committing: bool,
    disk: Disk,             // what a crash leaves
    cache: Disk,            // what the kernel sees
    active: map<OpId, Op>,
    // The rest is only there to state what happened.
    writes: nat,            // block writes done by the running commit
    base: Disk,             // the disk when that commit began
    history: seq<Event>,    // every log_write so far
    durable: nat,           // how much of it the disk stands for
    ended: set<OpId>, closed: set<OpId>)  // operations that have ended: so far, at the last commit

  datatype Step =
    | Begin(t: OpId)
    | Test(t: OpId)
    | Write(t: OpId, b: nat, data: Block)
    | End(t: OpId)
    | BlockWrite
    | Done

  // Blocked: the step waits, or the operation would exceed its budget.
  datatype Outcome = Next(s: State) | Panic | Blocked

  function Admits(lh: seq<nat>, outstanding: int, committing: bool): bool {
    !committing && |lh| + (outstanding + 1) * MAXOPBLOCKS <= LOGSIZE
  }

  function Absorb(lh: seq<nat>, b: nat): (r: seq<nat>) { if b in lh then lh else lh + [b] }

  predicate TooBig(l: Layout, lh: seq<nat>) { |lh| >= LOGSIZE || |lh| >= l.size - 1 }

  predicate IsHome(l: Layout, d: Disk, b: nat) { b < |d| && !InLog(l, b) && b < TWO_TO_THE_32 }

  function Do(l: Layout, s: State, step: Step): Outcome {
    match step
    case Begin(t) =>
      if t in s.active || t in s.ended || !Admits(s.lh, s.outstanding, s.committing) then Blocked
      else Next(s.(outstanding := s.outstanding + 1, active := s.active[t := Op(0, false)]))
    case Test(t) =>
      if t !in s.active then Blocked
      else if TooBig(l, s.lh) || s.outstanding < 1 then Panic
      else Next(s.(active := s.active[t := s.active[t].(tested := true)]))
    case Write(t, b, data) =>
      if t !in s.active || !s.active[t].tested || !IsHome(l, s.disk, b) || |s.cache| <= b then Blocked
      else if b !in s.lh && s.active[t].spent >= MAXOPBLOCKS then Blocked
      else
        var op := Op(s.active[t].spent + (if b in s.lh then 0 else 1), false);
        Next(s.(lh := Absorb(s.lh, b), cache := s.cache[b := data], active := s.active[t := op],
                history := s.history + [Event(t, b, data)]))
    case End(t) =>
      if t !in s.active then Blocked
      else if s.committing then Panic
      else
        var s' := s.(outstanding := s.outstanding - 1, active := s.active - {t}, ended := s.ended + {t});
        Next(if s'.outstanding == 0 then s'.(committing := true, writes := 0, base := s.disk) else s')
    case BlockWrite =>
      if !s.committing || s.lh == [] || s.writes >= 2 * |s.lh| + 2 || |s.cache| != |s.base| then Blocked
      else if !Room(l, |s.base|, s.lh) then SpillWrite(l, s)
      else
        var s' := s.(disk := CommitImage(l, s.base, s.cache, s.lh, s.writes + 1), writes := s.writes + 1);
        Next(if s.writes == |s.lh| then s'.(durable := |s.history|, closed := s.ended) else s')
    case Done =>
      if !s.committing || (s.lh != [] && s.writes < 2 * |s.lh| + 2) then Blocked
      else Next(s.(committing := false, lh := [], writes := 0, durable := |s.history|, closed := s.ended))
  }

  // write_log of a list that the log has no room for.  Past the end of the log
  // it writes home blocks, through their buffers.  Where it goes from there is
  // not modelled.
  function SpillWrite(l: Layout, s: State): Outcome {
    var to := l.start + s.writes + 1;
    if s.writes >= |s.lh| || to >= |s.disk| || to >= |s.cache| || s.lh[s.writes] >= |s.cache| then Blocked
    else
      var data := s.cache[s.lh[s.writes]];
      Next(s.(disk := s.disk[to := data], cache := if InLog(l, to) then s.cache else s.cache[to := data],
              writes := s.writes + 1))
  }

  function Exec(l: Layout, s: State, steps: seq<Step>): Outcome
    decreases |steps|
  {
    if steps == [] then Next(s) else
      var r := Do(l, s, steps[0]);
      if r.Next? then Exec(l, r.s, steps[1..]) else r
  }

  // The disk that results from doing the given log_writes in order.
  function Apply(d: Disk, h: seq<Event>): (r: Disk)
    ensures |r| == |d|
  {
    if h == [] then d else
      var r := Apply(d, h[..|h| - 1]);
      var e := h[|h| - 1];
      if e.b < |d| then r[e.b := e.data] else r
  }

  // Log space promised to the running operations and not used yet.
  ghost function Unspent(active: map<OpId, Op>): nat
    decreases |active|
  {
    if active == map[] then 0 else
      var t :| t in active;
      Left(active[t]) + Unspent(active - {t})
  }

  function Left(op: Op): nat { if op.spent < MAXOPBLOCKS then MAXOPBLOCKS - op.spent else 0 }

  lemma {:induction false} UnspentOf(active: map<OpId, Op>, t: OpId)
    requires t in active
    ensures Unspent(active) == Left(active[t]) + Unspent(active - {t})
    decreases |active|
  {
    var u :| u in active && Unspent(active) == Left(active[u]) + Unspent(active - {u});
    if u != t {
      UnspentOf(active - {u}, t);
      UnspentOf(active - {t}, u);
      assert active - {u} - {t} == active - {t} - {u};
    }
  }

  lemma UnspentUpdate(active: map<OpId, Op>, t: OpId, op: Op)
    ensures Unspent(active[t := op]) == Unspent(active - {t}) + Left(op)
  {
    UnspentOf(active[t := op], t);
    assert active[t := op] - {t} == active - {t};
  }

  lemma {:induction false} UnspentBound(active: map<OpId, Op>)
    ensures Unspent(active) <= |active| * MAXOPBLOCKS
    decreases |active|
  {
    if active != map[] {
      var t :| t in active;
      UnspentOf(active, t);
      UnspentBound(active - {t});
      assert |active - {t}| == |active| - 1;
    }
  }

  // After initlog: an empty log and no operation.
  ghost predicate Init(l: Layout, s: State) {
    && WellLogged(l, s.disk) && Listed(s.disk[l.start]) == []
    && s == State([], 0, false, s.disk, s.disk, map[], 0, s.disk, [], 0, {}, {})
  }

  // Who is running and who is done.
  ghost predicate Roster(s: State) {
    && s.outstanding == |s.active|
    && (s.committing ==> s.active == map[])
    && s.active.Keys !! s.ended && s.closed <= s.ended
    && (forall t | t in s.active :: s.active[t].spent <= MAXOPBLOCKS)
  }

  // The reservation that begin_op makes: what is in the log plus what the
  // running operations may still add fits.
  ghost predicate Budget(s: State) { |s.lh| + Unspent(s.active) <= LOGSIZE }

  // The durable part of the history has all the log_writes of each operation
  // it has any of, and these operations have ended.
  ghost predicate WholeOps(s: State) {
    && s.durable <= |s.history|
    && (s.active == map[] && !s.committing ==> s.durable == |s.history|)
    && (forall i | 0 <= i < |s.history| :: s.history[i].op in s.active || s.history[i].op in s.ended)
    && (forall i | 0 <= i < s.durable :: s.history[i].op in s.closed)
    && (forall i | s.durable <= i < |s.history| :: s.history[i].op !in s.closed)
  }

  // The disk between commits, or the disk that the running commit began with:
  // an empty log, the durable history at home, and lh listing the rest.
  ghost predicate Settled(l: Layout, d: Disk, durable: Disk, cache: Disk, lh: seq<nat>) {
    && WellLogged(l, d) && Listed(d[l.start]) == []
    && Home(l, d) == Home(l, durable)
    && Room(l, |d|, lh) && Covers(l, d, cache, lh)
  }

  ghost function Durable(init: Disk, s: State): Disk
    requires s.durable <= |s.history|
  {
    Apply(init, s.history[..s.durable])
  }

  ghost predicate OnDisk(l: Layout, init: Disk, s: State) {
    && |s.disk| == |init| && s.cache == Apply(init, s.history)
    && if !s.committing then s.durable <= |s.history| && Settled(l, s.disk, Durable(init, s), s.cache, s.lh) else
         && |s.base| == |init| && s.durable <= |s.history|
         && Settled(l, s.base, if s.writes <= |s.lh| then Durable(init, s) else s.base, s.cache, s.lh)
         && (s.writes > |s.lh| ==> s.durable == |s.history|)
         && s.disk == CommitImage(l, s.base, s.cache, s.lh, s.writes)
         && (s.lh == [] ==> s.writes == 0)
  }

  // What holds whatever the size of the log.
  ghost predicate Disciplined(s: State) { Roster(s) && Budget(s) && WholeOps(s) }

  ghost predicate Inv(l: Layout, init: Disk, s: State) { Disciplined(s) && OnDisk(l, init, s) }

  // --- what every step keeps ---

  lemma StepBudget(l: Layout, s: State, step: Step)
    requires Roster(s) && Budget(s) && Do(l, s, step).Next?
    ensures Roster(Do(l, s, step).s) && Budget(Do(l, s, step).s)
  {
    hide CommitImage, Room, Unspent, Admits, IsHome;
    match step
    case Begin(t) => BeginBudget(l, s, t);
    case Test(t) => WriteBudget(l, s, step);
    case Write(t, b, data) => WriteBudget(l, s, step);
    case End(t) => EndBudget(l, s, t);
    case BlockWrite =>
    case Done =>
  }

  lemma EndBudget(l: Layout, s: State, t: OpId)
    requires Roster(s) && Budget(s) && Do(l, s, End(t)).Next?
    ensures Roster(Do(l, s, End(t)).s) && Budget(Do(l, s, End(t)).s)
  {
    hide Unspent;
    UnspentOf(s.active, t);
    assert |s.active - {t}| == |s.active| - 1;
  }

  lemma BeginBudget(l: Layout, s: State, t: OpId)
    requires Roster(s) && Budget(s) && Do(l, s, Begin(t)).Next?
    ensures Roster(Do(l, s, Begin(t)).s) && Budget(Do(l, s, Begin(t)).s)
  {
    hide Unspent;
    UnspentUpdate(s.active, t, Op(0, false));
    assert s.active - {t} == s.active;
    UnspentBound(s.active);
  }

  lemma WriteBudget(l: Layout, s: State, step: Step)
    requires Roster(s) && Budget(s) && Do(l, s, step).Next? && (step.Test? || step.Write?)
    ensures Roster(Do(l, s, step).s) && Budget(Do(l, s, step).s)
  {
    hide Unspent, IsHome, TooBig;
    var s' := Do(l, s, step).s;
    UnspentOf(s.active, step.t);
    UnspentUpdate(s.active, step.t, s'.active[step.t]);
    assert s'.active.Keys == s.active.Keys;
    assert |s'.active| == |s'.active.Keys| == |s.active.Keys|;
  }

  lemma StepWhole(l: Layout, s: State, step: Step)
    requires Roster(s) && WholeOps(s) && Do(l, s, step).Next?
    ensures WholeOps(Do(l, s, step).s)
  {
    hide CommitImage, Room, Admits, IsHome, TooBig, SpillWrite, WholeOps;
    if step.End? {
      EndWhole(l, s, step);
    } else if step.Write? {
      WriteWhole(l, s, step);
    } else {
      QuietWhole(l, s, step);
    }
  }

  lemma EndWhole(l: Layout, s: State, step: Step)
    requires Roster(s) && WholeOps(s) && step.End? && Do(l, s, step).Next?
    ensures WholeOps(Do(l, s, step).s)
  {
    assert |s.active - {step.t}| == |s.active| - 1;
  }

  lemma QuietWhole(l: Layout, s: State, step: Step)
    requires Roster(s) && WholeOps(s) && !step.End? && !step.Write? && Do(l, s, step).Next?
    ensures WholeOps(Do(l, s, step).s)
  {
    hide CommitImage, Room, Admits, IsHome, TooBig;
  }

  lemma WriteWhole(l: Layout, s: State, step: Step)
    requires Roster(s) && WholeOps(s) && step.Write? && Do(l, s, step).Next?
    ensures WholeOps(Do(l, s, step).s)
  {
    hide IsHome, TooBig;
    assert Do(l, s, step).s.active.Keys == s.active.Keys;
  }

  lemma StepDisciplined(l: Layout, s: State, step: Step)
    requires Disciplined(s) && Do(l, s, step).Next?
    ensures Disciplined(Do(l, s, step).s)
  {
    hide Roster, Budget, WholeOps, Do;
    StepBudget(l, s, step);
    StepWhole(l, s, step);
  }

  // Every step that leaves the list short enough for the log keeps the rest.
  lemma StepKeeps(l: Layout, init: Disk, s: State, step: Step)
    requires Inv(l, init, s) && Do(l, s, step).Next? && |Do(l, s, step).s.lh| < l.size
    ensures Inv(l, init, Do(l, s, step).s)
  {
    StepDisciplined(l, s, step);
    hide Disciplined, OnDisk, Do;
    match step
    case Begin(t) => QuietKeeps(l, init, s, step);
    case Test(t) => QuietKeeps(l, init, s, step);
    case Write(t, b, data) => WriteKeeps(l, init, s, t, b, data);
    case End(t) => QuietKeeps(l, init, s, step);
    case BlockWrite => BlockWriteKeeps(l, init, s);
    case Done => DoneKeeps(l, init, s);
  }

  // Begin, Test and End change neither the disk nor the list.
  lemma QuietKeeps(l: Layout, init: Disk, s: State, step: Step)
    requires Inv(l, init, s) && Do(l, s, step).Next? && (step.Begin? || step.Test? || step.End?)
    ensures OnDisk(l, init, Do(l, s, step).s)
  {
    hide WellLogged, Covers, Home, Room, Apply, Unspent;
  }

  lemma WriteKeeps(l: Layout, init: Disk, s: State, t: OpId, b: nat, data: Block)
    requires Inv(l, init, s) && Do(l, s, Write(t, b, data)).Next? && |Do(l, s, Write(t, b, data)).s.lh| < l.size
    requires Budget(Do(l, s, Write(t, b, data)).s)
    ensures OnDisk(l, init, Do(l, s, Write(t, b, data)).s)
  {
    hide Settled, Apply, Unspent, CommitImage, Room, WholeOps, Absorb;
    var s' := Do(l, s, Write(t, b, data)).s;
    assert !s.committing;
    WriteSettled(l, s.disk, Durable(init, s), s.cache, s.lh, b, data);
    ApplyMore(init, s.history, Event(t, b, data));
    assert s'.history[..s.durable] == s.history[..s.durable];
  }

  lemma WriteSettled(l: Layout, d: Disk, durable: Disk, cache: Disk, lh: seq<nat>, b: nat, data: Block)
    requires Settled(l, d, durable, cache, lh) && IsHome(l, d, b) && b < |cache|
    requires |Absorb(lh, b)| <= LOGSIZE && |Absorb(lh, b)| < l.size
    ensures Settled(l, d, durable, cache[b := data], Absorb(lh, b))
  {
    hide WellLogged, Home, Listed;
  }

  lemma ApplyMore(d: Disk, h: seq<Event>, e: Event)
    requires e.b < |d|
    ensures Apply(d, h + [e]) == Apply(d, h)[e.b := e.data]
  {
    assert (h + [e])[..|h|] == h;
  }

  lemma BlockWriteKeeps(l: Layout, init: Disk, s: State)
    requires Inv(l, init, s) && Do(l, s, BlockWrite).Next?
    ensures OnDisk(l, init, Do(l, s, BlockWrite).s)
  {
    hide CommitImage, WellLogged, Covers, Home, Room, Apply, Unspent;
  }

  lemma DoneKeeps(l: Layout, init: Disk, s: State)
    requires Inv(l, init, s) && Do(l, s, Done).Next?
    ensures OnDisk(l, init, Do(l, s, Done).s)
  {
    hide CommitImage, WellLogged, Covers, Home, Room, Apply, Unspent;
    DoneSettles(l, s);
    assert s.history[..|s.history|] == s.history;
  }

  // A finished commit, or the commit of nothing, leaves the disk settled with
  // everything the kernel sees on it.
  lemma DoneSettles(l: Layout, s: State)
    requires |s.cache| == |s.base| && Settled(l, s.base, s.base, s.cache, s.lh)
    requires s.disk == CommitImage(l, s.base, s.cache, s.lh, s.writes)
    requires if s.lh == [] then s.writes == 0 else s.writes >= 2 * |s.lh| + 2
    ensures Settled(l, s.disk, s.cache, s.cache, [])
  {
    if s.lh == [] {
      assert Home(l, s.disk) == Home(l, s.cache);
    } else {
      CommitAtomic(l, s.base, s.cache, s.lh, s.writes);
    }
    forall b | 0 <= b < |s.disk| && !InLog(l, b) ensures s.cache[b] == s.disk[b] {
      assert Home(l, s.disk)[b] == Home(l, s.cache)[b];
    }
  }

  lemma InitHolds(l: Layout, s: State)
    requires Init(l, s)
    ensures Inv(l, s.disk, s)
  {
  }

  // --- what every run keeps ---

  lemma {:induction false} RunDisciplined(l: Layout, s: State, steps: seq<Step>)
    requires Disciplined(s) && Exec(l, s, steps).Next?
    ensures Disciplined(Exec(l, s, steps).s)
    decreases |steps|
  {
    hide Disciplined, Do;
    if steps != [] {
      StepDisciplined(l, s, steps[0]);
      RunDisciplined(l, Do(l, s, steps[0]).s, steps[1..]);
    }
  }

  // The list has room in the log in every state of the run.
  ghost predicate NoOverrun(l: Layout, s: State, steps: seq<Step>)
    decreases |steps|
  {
    |s.lh| < l.size
    && (steps != [] && Do(l, s, steps[0]).Next? ==> NoOverrun(l, Do(l, s, steps[0]).s, steps[1..]))
  }

  lemma {:induction false} RunKeeps(l: Layout, init: Disk, s: State, steps: seq<Step>)
    requires Inv(l, init, s) && Exec(l, s, steps).Next? && NoOverrun(l, s, steps)
    ensures Inv(l, init, Exec(l, s, steps).s)
    decreases |steps|
  {
    hide Inv, Do;
    if steps != [] {
      StepKeeps(l, init, s, steps[0]);
      RunKeeps(l, init, Do(l, s, steps[0]).s, steps[1..]);
    }
  }

  // With more log blocks than LOGSIZE no run overruns the log.
  lemma {:induction false} BigLogHolds(l: Layout, s: State, steps: seq<Step>)
    requires Disciplined(s) && l.size > LOGSIZE
    ensures NoOverrun(l, s, steps)
    decreases |steps|
  {
    if steps != [] && Do(l, s, steps[0]).Next? {
      StepDisciplined(l, s, steps[0]);
      BigLogHolds(l, Do(l, s, steps[0]).s, steps[1..]);
    }
  }

  // Group commit is atomic per operation.  Crash in any state of any run that
  // does not overrun the log and recover through any further crashes: the home
  // blocks are the effect of a prefix of the log_writes, which for each
  // operation has all or none of its log_writes, and only of operations that
  // have ended.
  lemma WholeOperations(l: Layout, s0: State, steps: seq<Step>, ks: seq<nat>)
    requires Init(l, s0) && Exec(l, s0, steps).Next? && NoOverrun(l, s0, steps)
    ensures var s := Exec(l, s0, steps).s;
            && WellLogged(l, s.disk) && s.durable <= |s.history|
            && Home(l, Recovered(l, AfterCrashes(l, s.disk, ks))) == Home(l, Apply(s0.disk, s.history[..s.durable]))
            && (forall i, j | 0 <= i < s.durable <= j < |s.history| :: s.history[i].op != s.history[j].op)
            && (forall i | 0 <= i < s.durable :: s.history[i].op in s.ended && s.history[i].op !in s.active)
  {
    InitHolds(l, s0);
    RunKeeps(l, s0.disk, s0, steps);
    var s := Exec(l, s0, steps).s;
    StandsForDurable(l, s0.disk, s);
    CrashesKeepView(l, s.disk, ks);
  }

  lemma StandsForDurable(l: Layout, init: Disk, s: State)
    requires Inv(l, init, s)
    ensures WellLogged(l, s.disk) && View(l, s.disk) == Home(l, Durable(init, s))
  {
    if s.committing {
      CommitAtomic(l, s.base, s.cache, s.lh, s.writes);
      assert s.history[..|s.history|] == s.history;
    } else {
      EmptyView(l, s.disk);
    }
  }

  // Once the last running operation's end_op has returned, all is durable.
  lemma EndedIsDurable(l: Layout, s0: State, steps: seq<Step>, ks: seq<nat>)
    requires Init(l, s0) && Exec(l, s0, steps).Next? && NoOverrun(l, s0, steps)
    requires Exec(l, s0, steps).s.active == map[] && !Exec(l, s0, steps).s.committing
    ensures var s := Exec(l, s0, steps).s;
            WellLogged(l, s.disk) && Home(l, Recovered(l, AfterCrashes(l, s.disk, ks))) == Home(l, s.cache)
  {
    WholeOperations(l, s0, steps, ks);
    InitHolds(l, s0);
    RunKeeps(l, s0.disk, s0, steps);
    var s := Exec(l, s0, steps).s;
    assert s.history[..|s.history|] == s.history;
  }

  // With a big enough log both hold of every run.
  lemma BigLogIsSafe(l: Layout, s0: State, steps: seq<Step>, ks: seq<nat>)
    requires Init(l, s0) && l.size > LOGSIZE && Exec(l, s0, steps).Next?
    ensures var s := Exec(l, s0, steps).s;
            && WellLogged(l, s.disk) && s.durable <= |s.history|
            && Home(l, Recovered(l, AfterCrashes(l, s.disk, ks))) == Home(l, Apply(s0.disk, s.history[..s.durable]))
            && (forall i, j | 0 <= i < s.durable <= j < |s.history| :: s.history[i].op != s.history[j].op)
            && (forall i | 0 <= i < s.durable :: s.history[i].op in s.ended && s.history[i].op !in s.active)
            && (s.active == map[] && !s.committing ==>
                  Home(l, Recovered(l, AfterCrashes(l, s.disk, ks))) == Home(l, s.cache))
  {
    InitHolds(l, s0);
    BigLogHolds(l, s0, steps);
    WholeOperations(l, s0, steps, ks);
    var s := Exec(l, s0, steps).s;
    if s.active == map[] && !s.committing { EndedIsDurable(l, s0, steps, ks); }
  }

  // On every layout, in every run: no operation runs during a commit, end_op
  // never panics, what is in the log plus what is promised fits LOGSIZE, and
  // log_write panics exactly when the log or the list is full.
  lemma PanicsExactly(l: Layout, s0: State, steps: seq<Step>, step: Step)
    requires Init(l, s0) && Exec(l, s0, steps).Next?
    ensures var s := Exec(l, s0, steps).s;
            && (s.committing ==> s.active == map[] && s.outstanding == 0)
            && |s.lh| + Unspent(s.active) <= LOGSIZE
            && (Do(l, s, step).Panic? <==>
                step.Test? && step.t in s.active && (|s.lh| == LOGSIZE || |s.lh| >= l.size - 1))
  {
    hide Do, Exec, Roster, Budget, WholeOps, OnDisk;
    InitHolds(l, s0);
    RunDisciplined(l, s0, steps);
    PanicsHere(l, Exec(l, s0, steps).s, step);
  }

  lemma PanicsHere(l: Layout, s: State, step: Step)
    requires Roster(s) && Budget(s)
    ensures s.committing ==> s.active == map[] && s.outstanding == 0
    ensures |s.lh| + Unspent(s.active) <= LOGSIZE
    ensures Do(l, s, step).Panic? <==> step.Test? && step.t in s.active && (|s.lh| == LOGSIZE || |s.lh| >= l.size - 1)
  {
    hide Unspent, CommitImage, Room;
    if step.Test? && step.t in s.active { assert |s.active| > 0; }
  }

  // --- when each step can be taken, and what it does, in every run ---

  ghost predicate SameLengths(s: State) { |s.cache| == |s.disk| == |s.base| }

  lemma {:induction false} RunLengths(l: Layout, s: State, steps: seq<Step>)
    requires SameLengths(s) && Exec(l, s, steps).Next?
    ensures SameLengths(Exec(l, s, steps).s)
    decreases |steps|
  {
    if steps != [] { RunLengths(l, Do(l, s, steps[0]).s, steps[1..]); }
  }

  // begin_op goes ahead exactly if there is no commit and the log has room for
  // another whole reservation.
  lemma BeginsExactly(l: Layout, s0: State, steps: seq<Step>, t: OpId)
    requires Init(l, s0) && Exec(l, s0, steps).Next?
    requires var s := Exec(l, s0, steps).s; t !in s.active && t !in s.ended
    ensures var s, r := Exec(l, s0, steps).s, Do(l, Exec(l, s0, steps).s, Begin(t));
            && (r.Next? <==> !s.committing && |s.lh| + (|s.active| + 1) * MAXOPBLOCKS <= LOGSIZE)
            && (r.Next? ==> r.s == s.(outstanding := s.outstanding + 1, active := s.active[t := Op(0, false)]))
  {
    hide Exec, Budget, WholeOps;
    InitHolds(l, s0);
    RunDisciplined(l, s0, steps);
  }

  // log_write past its tests: it takes any block outside the log that is listed
  // already or for which the operation has budget left, shows the new contents
  // to the kernel alone, and lists the block once.
  lemma WritesExactly(l: Layout, s0: State, steps: seq<Step>, t: OpId, b: nat, data: Block)
    requires Init(l, s0) && Exec(l, s0, steps).Next?
    requires var s := Exec(l, s0, steps).s; t in s.active && s.active[t].tested
    ensures var s, r := Exec(l, s0, steps).s, Do(l, Exec(l, s0, steps).s, Write(t, b, data));
            && (r.Next? <==>
                  && b < |s.disk| && b < TWO_TO_THE_32 && !(l.start <= b < l.start + l.size)
                  && (b in s.lh || s.active[t].spent < MAXOPBLOCKS))
            && (r.Next? ==>
                  && b < |s.cache| && r.s.cache == s.cache[b := data] && r.s.disk == s.disk
                  && r.s.lh == (if b in s.lh then s.lh else s.lh + [b])
                  && r.s.history == s.history + [Event(t, b, data)]
                  && r.s.committing == s.committing && r.s.outstanding == s.outstanding && r.s.ended == s.ended
                  && r.s.active == s.active[t := Op(s.active[t].spent + (if b in s.lh then 0 else 1), false)])
  {
    hide Exec;
    RunLengths(l, s0, steps);
  }

  // end_op always goes ahead, and starts a commit exactly if it is the last.
  lemma EndsExactly(l: Layout, s0: State, steps: seq<Step>, t: OpId)
    requires Init(l, s0) && Exec(l, s0, steps).Next? && t in Exec(l, s0, steps).s.active
    ensures var s, r := Exec(l, s0, steps).s, Do(l, Exec(l, s0, steps).s, End(t));
            && r.Next? && (r.s.committing <==> s.active.Keys == {t})
            && r.s.active == s.active - {t} && r.s.ended == s.ended + {t} && r.s.outstanding == s.outstanding - 1
            && r.s.lh == s.lh && r.s.cache == s.cache && r.s.disk == s.disk && r.s.history == s.history
  {
    hide Exec, Budget, WholeOps;
    InitHolds(l, s0);
    RunDisciplined(l, s0, steps);
    LastOne(Exec(l, s0, steps).s.active, t);
  }

  lemma LastOne(active: map<OpId, Op>, t: OpId)
    requires t in active
    ensures |active| == 1 <==> active.Keys == {t}
  {
    assert |active.Keys - {t}| == |active| - 1;
    if |active| == 1 { assert active.Keys - {t} == {}; }
  }

  // The commit writes its blocks one by one, and is done exactly when all are
  // written.
  lemma CommitsExactly(l: Layout, s0: State, steps: seq<Step>)
    requires Init(l, s0) && Exec(l, s0, steps).Next? && NoOverrun(l, s0, steps)
    ensures var s := Exec(l, s0, steps).s;
            var w, d := Do(l, s, BlockWrite), Do(l, s, Done);
            && (w.Next? <==> s.committing && s.lh != [] && s.writes < 2 * |s.lh| + 2)
            && (w.Next? ==> w.s.writes == s.writes + 1 && w.s.cache == s.cache && w.s.lh == s.lh && w.s.committing)
            && (d.Next? <==> s.committing && (s.lh == [] || s.writes >= 2 * |s.lh| + 2))
            && (d.Next? ==> d.s.lh == [] && !d.s.committing && d.s.disk == s.disk && d.s.cache == s.cache)
  {
    hide Exec, NoOverrun, CommitImage, WellLogged, Home, Covers;
    InitHolds(l, s0);
    RunKeeps(l, s0.disk, s0, steps);
  }

  // With more log blocks than LOGSIZE: log_write panics only when no running
  // operation has any budget left.
  lemma OnlyFullLogPanics(l: Layout, s0: State, steps: seq<Step>, step: Step)
    requires Init(l, s0) && l.size > LOGSIZE && Exec(l, s0, steps).Next?
    ensures var s := Exec(l, s0, steps).s;
            && (Do(l, s, step).Panic? <==> step.Test? && step.t in s.active && |s.lh| == LOGSIZE)
            && (Do(l, s, step).Panic? ==> forall t | t in s.active :: s.active[t].spent == MAXOPBLOCKS)
  {
    PanicsExactly(l, s0, steps, step);
    InitHolds(l, s0);
    RunDisciplined(l, s0, steps);
    var s := Exec(l, s0, steps).s;
    forall t | t in s.active && |s.lh| == LOGSIZE ensures s.active[t].spent == MAXOPBLOCKS {
      UnspentOf(s.active, t);
    }
  }

  // Three operations taking turns to log k new blocks.
  function Fill(l: Layout, k: nat): seq<Step> {
    if k == 0 then [Begin(0), Begin(1), Begin(2)]
    else Fill(l, k - 1) + [Test((k - 1) % 3), Write((k - 1) % 3, l.start + l.size + k - 1, ZeroBlock())]
  }

  ghost predicate FillSpace(l: Layout, s: State) {
    Init(l, s) && l.start + l.size + LOGSIZE <= |s.disk| <= TWO_TO_THE_32
  }

  // What Fill leads to.
  ghost predicate Filled(l: Layout, s0: State, s: State, k: nat) {
    && |s.lh| == k && (forall i | 0 <= i < k :: s.lh[i] == l.start + l.size + i) && s.outstanding == 3 && !s.committing
    && s.disk == s0.disk && |s.cache| == |s0.disk|
    && s.active.Keys == {0, 1, 2}
    && (forall t | 0 <= t < 3 :: s.active[t].spent == Share(k, t))
    && ZeroedFirst(l, s.history)
  }

  // Only zeros have been logged for the first block after the log.
  ghost predicate ZeroedFirst(l: Layout, h: seq<Event>) {
    forall i | 0 <= i < |h| && h[i].b == l.start + l.size :: h[i].data == ZeroBlock()
  }

  // Blocks logged by operation t out of k.
  function Share(k: nat, t: nat): nat
    requires t < 3
  {
    (k + 2 - t) / 3
  }

  lemma ShareNext(k: nat, t: nat)
    requires t < 3
    ensures Share(k + 1, t) == Share(k, t) + if t == k % 3 then 1 else 0
    ensures k < LOGSIZE && t == k % 3 ==> Share(k, t) < MAXOPBLOCKS
  {
  }

  lemma {:induction false} ExecAppend(l: Layout, s: State, a: seq<Step>, b: seq<Step>)
    requires Exec(l, s, a).Next?
    ensures Exec(l, s, a + b) == Exec(l, Exec(l, s, a).s, b)
    decreases |a|
  {
    if a == [] {
      assert a + b == b;
    } else {
      assert (a + b)[0] == a[0] && (a + b)[1..] == a[1..] + b;
      ExecAppend(l, Do(l, s, a[0]).s, a[1..], b);
    }
  }

  lemma ExecTwo(l: Layout, s: State, a: Step, b: Step)
    requires Do(l, s, a).Next?
    ensures Exec(l, s, [a, b]) == Do(l, Do(l, s, a).s, b)
  {
    assert [a, b][1..] == [b];
    assert [b][1..] == [];
    assert Exec(l, Do(l, s, a).s, [b]) == Do(l, Do(l, s, a).s, b);
  }

  lemma {:induction false} FillRuns(l: Layout, s0: State, k: nat)
    requires FillSpace(l, s0) && k <= LOGSIZE && k < l.size
    ensures Exec(l, s0, Fill(l, k)).Next? && Filled(l, s0, Exec(l, s0, Fill(l, k)).s, k)
  {
    hide Filled, FillSpace, Do, Exec;
    if k == 0 {
      FillStart(l, s0);
    } else {
      FillRuns(l, s0, k - 1);
      var s, t, b := Exec(l, s0, Fill(l, k - 1)).s, (k - 1) % 3, l.start + l.size + k - 1;
      FillTurn(l, s0, s, k - 1);
      ExecTwo(l, s, Test(t), Write(t, b, ZeroBlock()));
      ExecAppend(l, s0, Fill(l, k - 1), [Test(t), Write(t, b, ZeroBlock())]);
    }
  }

  lemma FillStart(l: Layout, s0: State)
    requires FillSpace(l, s0)
    ensures Exec(l, s0, Fill(l, 0)).Next? && Filled(l, s0, Exec(l, s0, Fill(l, 0)).s, 0)
  {
    var s1 := Do(l, s0, Begin(0)).s;
    var s2 := Do(l, s1, Begin(1)).s;
    ExecTwo(l, s1, Begin(1), Begin(2));
    assert [Begin(0), Begin(1), Begin(2)][1..] == [Begin(1), Begin(2)];
  }

  lemma OneTest(l: Layout, s0: State, s: State, k: nat, t: nat)
    requires Filled(l, s0, s, k) && k < LOGSIZE && k < l.size - 1 && t < 3
    ensures Do(l, s, Test(t)).Next? && Filled(l, s0, Do(l, s, Test(t)).s, k)
    ensures var a := Do(l, s, Test(t)).s.active;
            t in a && a[t].tested && forall u | u in s.active && u != t :: u in a && a[u] == s.active[u]
  {
    hide Share, ZeroedFirst;
    assert Do(l, s, Test(t)).s.active.Keys == s.active.Keys;
  }

  lemma FillTurn(l: Layout, s0: State, s: State, k: nat)
    requires FillSpace(l, s0) && Filled(l, s0, s, k) && k < LOGSIZE && k < l.size - 1
    ensures Do(l, s, Test(k % 3)).Next?
    ensures var r := Do(l, Do(l, s, Test(k % 3)).s, Write(k % 3, l.start + l.size + k, ZeroBlock()));
            r.Next? && Filled(l, s0, r.s, k + 1)
  {
    hide Do, Share, Filled, FillSpace;
    Shares(k);
    OneTest(l, s0, s, k, k % 3);
    FillWrite(l, s0, Do(l, s, Test(k % 3)).s, k, k % 3, ZeroBlock());
  }

  lemma FillWrite(l: Layout, s0: State, s: State, k: nat, t: nat, data: Block)
    requires FillSpace(l, s0) && Filled(l, s0, s, k) && k < LOGSIZE && (k == 0 ==> data == ZeroBlock())
    requires t < 3 && t in s.active && s.active[t].tested && Share(k, t) < MAXOPBLOCKS
    requires forall u | 0 <= u < 3 :: Share(k + 1, u) == Share(k, u) + if u == t then 1 else 0
    ensures var r := Do(l, s, Write(t, l.start + l.size + k, data));
            && r.Next? && Filled(l, s0, r.s, k + 1)
            && l.start + l.size + k < |r.s.cache| && r.s.cache[l.start + l.size + k] == data
            && forall u | u in s.active && u != t :: u in r.s.active && r.s.active[u] == s.active[u]
  {
    hide Init, Share;
    var b := l.start + l.size + k;
    assert b !in s.lh;
    var s' := Do(l, s, Write(t, b, data)).s;
    assert s'.lh == s.lh + [b] && s'.active.Keys == s.active.Keys;
  }

  // An operation that has budget left hits the panic.
  ghost predicate PanicsInBudget(l: Layout, s0: State, steps: seq<Step>, t: OpId) {
    && Exec(l, s0, steps).Next?
    && t in Exec(l, s0, steps).s.active && Exec(l, s0, steps).s.active[t].spent < MAXOPBLOCKS
    && Exec(l, s0, steps + [Test(t)]).Panic?
  }

  // That can happen exactly if log.size <= LOGSIZE, as in the layout that
  // mkfs.c makes.
  lemma TightLogPanics(l: Layout, s0: State)
    requires FillSpace(l, s0)
    ensures (exists steps, t :: PanicsInBudget(l, s0, steps, t)) <==> l.size <= LOGSIZE
  {
    if l.size <= LOGSIZE {
      TightLogFills(l, s0);
    } else {
      forall steps, t ensures !PanicsInBudget(l, s0, steps, t) {
        if Exec(l, s0, steps).Next? {
          OnlyFullLogPanics(l, s0, steps, Test(t));
          ExecAppend(l, s0, steps, [Test(t)]);
        }
      }
    }
  }

  lemma TightLogFills(l: Layout, s0: State)
    requires FillSpace(l, s0) && l.size <= LOGSIZE
    ensures exists steps, t :: PanicsInBudget(l, s0, steps, t)
  {
    var k := l.size - 1;
    FillRuns(l, s0, k);
    var s, t := Exec(l, s0, Fill(l, k)).s, k % 3;
    ExecAppend(l, s0, Fill(l, k), [Test(t)]);
    assert Do(l, s, Test(t)).Panic?;
    assert Exec(l, s, [Test(t)]).Panic?;
    assert PanicsInBudget(l, s0, Fill(l, k), t);
  }

  // And with room for LOGSIZE blocks, an operation that has used up its budget
  // panics even when it logs a block that the log would absorb.
  lemma AbsorbedWritePanics(l: Layout, s0: State, t: OpId, b: nat)
    requires FillSpace(l, s0) && l.size > LOGSIZE && t < 3 && l.start + l.size <= b < l.start + l.size + LOGSIZE
    ensures Exec(l, s0, Fill(l, LOGSIZE)).Next? && b in Exec(l, s0, Fill(l, LOGSIZE)).s.lh
    ensures Exec(l, s0, Fill(l, LOGSIZE) + [Test(t)]).Panic?
  {
    FillRuns(l, s0, LOGSIZE);
    var s := Exec(l, s0, Fill(l, LOGSIZE)).s;
    assert s.lh[b - l.start - l.size] == b;
    ExecAppend(l, s0, Fill(l, LOGSIZE), [Test(t)]);
    assert Exec(l, s, [Test(t)]).Panic?;
  }

  // --- two log_writes that race for the last slot ---

  // log_write tests lh.n before taking log.lock.  Two operations that both pass
  // the test at the last slot put one block too many on the list.
  function Race(l: Layout, x: Block): seq<Step>
    requires l.size >= 2
  {
    var k := l.size - 2;
    var b := l.start + l.size + k;
    [Test(k % 3), Test((k + 1) % 3), Write(k % 3, b, ZeroBlock()), Write((k + 1) % 3, b + 1, x)]
  }

  lemma RaceRuns(l: Layout, s0: State, x: Block)
    requires FillSpace(l, s0) && 2 <= l.size <= LOGSIZE
    ensures var r := Exec(l, s0, Fill(l, l.size - 2) + Race(l, x));
            && r.Next? && Filled(l, s0, r.s, l.size)
            && l.start + 2 * l.size - 1 < |r.s.cache| && r.s.cache[l.start + 2 * l.size - 1] == x
  {
    hide Do, Exec, Fill, Filled, FillSpace, Share, ZeroBlock;
    var k := l.size - 2;
    var t, u, b := k % 3, (k + 1) % 3, l.start + l.size + k;
    FillRuns(l, s0, k);
    var s := Exec(l, s0, Fill(l, k)).s;
    BothTest(l, s0, s, k, t, u);
    var s1 := Do(l, s, Test(t)).s;
    var s2 := Do(l, s1, Test(u)).s;
    Shares(k);
    InFilled(l, s0, s2, k, t);
    InFilled(l, s0, s2, k, u);
    FillWrite(l, s0, s2, k, t, ZeroBlock());
    var s3 := Do(l, s2, Write(t, b, ZeroBlock())).s;
    Shares(k + 1);
    FillWrite(l, s0, s3, k + 1, u, x);
    ExecFour(l, s, Race(l, x));
    ExecAppend(l, s0, Fill(l, k), Race(l, x));
  }

  lemma InFilled(l: Layout, s0: State, s: State, k: nat, u: nat)
    requires Filled(l, s0, s, k) && u < 3
    ensures u in s.active
  {
  }

  lemma Shares(k: nat)
    ensures forall u | 0 <= u < 3 :: Share(k + 1, u) == Share(k, u) + if u == k % 3 then 1 else 0
    ensures k < LOGSIZE ==> Share(k, k % 3) < MAXOPBLOCKS
  {
    ShareNext(k, 0);
    ShareNext(k, 1);
    ShareNext(k, 2);
  }

  lemma BothTest(l: Layout, s0: State, s: State, k: nat, t: nat, u: nat)
    requires Filled(l, s0, s, k) && k < LOGSIZE && k < l.size - 1 && t < 3 && u < 3 && t != u
    ensures Do(l, s, Test(t)).Next? && Do(l, Do(l, s, Test(t)).s, Test(u)).Next?
    ensures var s2 := Do(l, Do(l, s, Test(t)).s, Test(u)).s;
            Filled(l, s0, s2, k) && s2.active[t].tested && s2.active[u].tested
  {
    hide Do, Filled;
    OneTest(l, s0, s, k, t);
    OneTest(l, s0, Do(l, s, Test(t)).s, k, u);
    InFilled(l, s0, Do(l, Do(l, s, Test(t)).s, Test(u)).s, k, t);
  }

  lemma ExecFour(l: Layout, s: State, r: seq<Step>)
    requires |r| == 4 && Do(l, s, r[0]).Next? && Do(l, Do(l, s, r[0]).s, r[1]).Next?
    requires Do(l, Do(l, Do(l, s, r[0]).s, r[1]).s, r[2]).Next?
    ensures Exec(l, s, r) == Do(l, Do(l, Do(l, Do(l, s, r[0]).s, r[1]).s, r[2]).s, r[3])
  {
    hide Do;
    var s2 := Do(l, Do(l, s, r[0]).s, r[1]).s;
    assert r == [r[0], r[1]] + [r[2], r[3]];
    ExecTwo(l, s, r[0], r[1]);
    ExecAppend(l, s, [r[0], r[1]], [r[2], r[3]]);
    ExecTwo(l, s2, r[2], r[3]);
  }

  // A run can overrun the log exactly on these layouts.
  lemma OverrunsExactly(l: Layout, s0: State)
    requires FillSpace(l, s0)
    ensures (exists steps :: Exec(l, s0, steps).Next? && |Exec(l, s0, steps).s.lh| >= l.size) <==>
            2 <= l.size <= LOGSIZE
  {
    if 2 <= l.size <= LOGSIZE {
      RaceRuns(l, s0, ZeroBlock());
    } else {
      InitHolds(l, s0);
      forall steps | Exec(l, s0, steps).Next? ensures |Exec(l, s0, steps).s.lh| < l.size {
        if l.size > LOGSIZE { RunDisciplined(l, s0, steps); } else { TinyLog(l, s0, steps); }
      }
    }
  }

  // With no slot at all nothing is ever logged.
  lemma {:induction false} TinyLog(l: Layout, s: State, steps: seq<Step>)
    requires l.size == 1 && s.lh == [] && (forall t | t in s.active :: !s.active[t].tested) && Exec(l, s, steps).Next?
    ensures Exec(l, s, steps).s.lh == []
    decreases |steps|
  {
    if steps != [] { TinyLog(l, Do(l, s, steps[0]).s, steps[1..]); }
  }

  // --- and what comes of it ---

  // write_log goes on past the end of the log, into the first home block.
  lemma {:induction false} Spills(l: Layout, s: State, j: nat)
    requires l.size >= 2 && |s.lh| == l.size && s.committing && s.writes == 0 && |s.cache| == |s.base| == |s.disk|
    requires l.start + l.size < |s.disk| && j <= l.size
    requires forall i | 0 <= i < |s.lh| :: s.lh[i] < |s.disk|
    ensures var r := Exec(l, s, BlockWrites(j));
            && r.Next? && r.s == s.(disk := r.s.disk, cache := r.s.cache, writes := j) && |r.s.disk| == |s.disk|
            && r.s.disk[l.start] == s.disk[l.start] && (j < l.size ==> r.s.cache == s.cache)
            && (j == l.size ==> r.s.disk[l.start + l.size] == s.cache[s.lh[l.size - 1]])
  {
    if j > 0 {
      Spills(l, s, j - 1);
      var r := Exec(l, s, BlockWrites(j - 1)).s;
      ExecAppend(l, s, BlockWrites(j - 1), [BlockWrite]);
      assert Exec(l, r, [BlockWrite]) == Do(l, r, BlockWrite);
    }
  }

  function BlockWrites(j: nat): seq<Step> { if j == 0 then [] else BlockWrites(j - 1) + [BlockWrite] }

  lemma EndAll(l: Layout, s0: State, s: State, k: nat)
    requires Filled(l, s0, s, k)
    ensures var r := Exec(l, s, [End(0), End(1), End(2)]);
            && r.Next? && r.s.committing && r.s.writes == 0 && r.s.base == s.disk == r.s.disk
            && r.s.lh == s.lh && r.s.cache == s.cache && r.s.history == s.history
  {
    var e := [End(0), End(1), End(2)];
    assert e == [End(0)] + [End(1), End(2)];
    var s1 := Do(l, s, End(0)).s;
    assert Exec(l, s, [End(0)]) == Do(l, s, End(0));
    ExecAppend(l, s, [End(0)], [End(1), End(2)]);
    ExecTwo(l, s1, End(1), End(2));
  }

  lemma {:induction false} ApplyAt(d: Disk, h: seq<Event>, b: nat)
    requires b < |d|
    ensures Apply(d, h)[b] == d[b] || exists i :: 0 <= i < |h| && h[i].b == b && Apply(d, h)[b] == h[i].data
  {
    if h != [] {
      var n := |h| - 1;
      ApplyAt(d, h[..n], b);
      if h[n].b != b && Apply(d, h[..n])[b] != d[b] {
        var i :| 0 <= i < n && h[..n][i].b == b && Apply(d, h[..n])[b] == h[..n][i].data;
        assert h[i].b == b;
      }
    }
  }

  // On every layout that can be overrun, a crash can leave the first block
  // after the log with contents x that no log_write gave it, so that what
  // recovery makes of the disk is not the effect of any log_writes at all.
  lemma OverrunCorrupts(l: Layout, s0: State, x: Block)
    requires FillSpace(l, s0) && 2 <= l.size <= LOGSIZE && x != ZeroBlock() && x != s0.disk[l.start + l.size]
    ensures exists steps ::
              && Exec(l, s0, steps).Next?
              && var s := Exec(l, s0, steps).s;
                 && WellLogged(l, s.disk)
                 && forall n | 0 <= n <= |s.history| ::
                      Home(l, Recovered(l, s.disk)) != Home(l, Apply(s0.disk, s.history[..n]))
  {
    hide Do, Exec, Fill, Race, BlockWrites, Filled, FillSpace, Recovered, Home, Apply, WellLogged;
    var a, e, w := Fill(l, l.size - 2) + Race(l, x), [End(0), End(1), End(2)], BlockWrites(l.size);
    RaceRuns(l, s0, x);
    var s1 := Exec(l, s0, a).s;
    EndAll(l, s0, s1, l.size);
    var s2 := Exec(l, s1, e).s;
    FilledFacts(l, s0, s1, l.size);
    Spills(l, s2, l.size);
    ExecAppend(l, s0, a, e);
    ExecAppend(l, s0, a + e, w);
    Unexplained(l, s0, Exec(l, s0, a + e + w).s, x);
  }

  lemma FilledFacts(l: Layout, s0: State, s: State, k: nat)
    requires FillSpace(l, s0) && Filled(l, s0, s, k) && 0 < k <= LOGSIZE
    ensures |s.lh| == k && |s.cache| == |s.disk| == |s0.disk| && l.start + l.size < |s.disk| && s.disk == s0.disk
    ensures s.lh[k - 1] == l.start + l.size + k - 1 && ZeroedFirst(l, s.history)
    ensures forall i | 0 <= i < |s.lh| :: s.lh[i] < |s.disk|
  {
  }

  lemma Unexplained(l: Layout, s0: State, s: State, x: Block)
    requires FillSpace(l, s0) && x != ZeroBlock() && x != s0.disk[l.start + l.size]
    requires |s.disk| == |s0.disk| && s.disk[l.start] == s0.disk[l.start] && s.disk[l.start + l.size] == x
    requires ZeroedFirst(l, s.history)
    ensures WellLogged(l, s.disk)
    ensures forall n | 0 <= n <= |s.history| :: Home(l, Recovered(l, s.disk)) != Home(l, Apply(s0.disk, s.history[..n]))
  {
    var b := l.start + l.size;
    assert Home(l, Recovered(l, s.disk))[b] == x;
    forall n | 0 <= n <= |s.history| ensures Home(l, Apply(s0.disk, s.history[..n]))[b] != x {
      ApplyAt(s0.disk, s.history[..n], b);
      hide Recovered;
    }
  }
}
