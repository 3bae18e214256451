// The critical sections of proc.c as steps, and what every run of them keeps.
module ThreadRuns {
  import opened Blocks
  import opened Threads

  datatype Step =
    | Schedule(c: nat, x: Slot)      // scheduler picks x on an idle CPU
    | Yield(c: nat)
    | SleepOn(c: nat, ch: Chan)      // sleep, other than from wait and kthread_join
    | Wakeup(ch: Chan)
    | Kill(p: nat)
    | Exit(c: nat)                   // exit, not yet killed
    | ExitThread(c: nat)             // exit when killed, or kthread_exit
    | ExitProcess(c: nat)
    | Wait(c: nat)                   // one turn of the loop in wait
    | Fork(c: nat, k: Page)          // fork, up to the end of allocproc
    | Forked(c: nat)                 // the rest of fork
    | Create(c: nat, k: Page)
    | Join(c: nat, j: nat)           // one turn of the loop in kthread_join on thread j
    | Take(k: Page)                  // kalloc and kfree by the rest of the kernel
    | Give(k: Page)

  predicate Busy(s: State, c: nat) { c < |s.cpus| && s.cpus[c].Some? }

  function Me(s: State, c: nat): Slot
    requires Busy(s, c)
  {
    s.cpus[c].value
  }

  function Cur(s: State, c: nat): Thread
    requires Busy(s, c)
  {
    T(s, Me(s, c))
  }

  // --- scans of the tables ---

  // The threads of p before index n that are not dead.
  function LiveCount(s: State, p: nat, n: nat): nat {
    if n == 0 then 0 else LiveCount(s, p, n - 1) + if Live(T(s, Slot(p, n - 1))) then 1 else 0
  }

  function FirstUnused(ps: seq<Proc>, q: nat): (r: Option<nat>)
    ensures r.Some? ==> q <= r.value < |ps| && ps[r.value].state == UnusedP
    decreases |ps| - q
  {
    if q >= |ps| then None
    else if ps[q].state == UnusedP then Some(q)
    else FirstUnused(ps, q + 1)
  }

  function FirstExited(ps: seq<Proc>, p: nat, q: nat): (r: Option<nat>)
    ensures r.Some? ==> q <= r.value < |ps| && ps[r.value].state == ZombieP && ps[r.value].parent == Some(p)
    ensures r == None ==> forall i | q <= i < |ps| && ps[i].parent == Some(p) :: ps[i].state != ZombieP
    decreases |ps| - q
  {
    if q >= |ps| then None
    else if ps[q].parent == Some(p) && ps[q].state == ZombieP then Some(q)
    else FirstExited(ps, p, q + 1)
  }

  predicate HasChild(ps: seq<Proc>, p: nat) {
    exists q | 0 <= q < |ps| :: ps[q].parent == Some(p)
  }

  predicate HasZombie(ps: seq<Proc>, p: nat) {
    exists q | 0 <= q < |ps| :: ps[q].parent == Some(p) && ps[q].state == ZombieP
  }

  // --- what a step does ---

  predicate Enabled(s: State, step: Step) {
    match step
    case Schedule(c, x) =>
      && c < |s.cpus| && s.cpus[c] == None && x in s.threads
      && P(s, x.p).state == UsedP && x.i < P(s, x.p).tnum && T(s, x).state == Runnable
    case Yield(c) => Busy(s, c)
    case SleepOn(c, ch) => Busy(s, c) && Cur(s, c).duty != Waiting && !Cur(s, c).duty.Joining?
    case Wakeup(ch) => true
    case Kill(p) => p < |s.procs|
    case Exit(c) => Busy(s, c) && Cur(s, c).duty == Plain && !Cur(s, c).killed
    case ExitThread(c) => Busy(s, c) && Cur(s, c).duty == Plain
    case ExitProcess(c) => Busy(s, c) && Cur(s, c).duty == Exiting && Me(s, c).p != s.init
    case Wait(c) => Busy(s, c) && (Cur(s, c).duty == Plain || Cur(s, c).duty == Waiting)
    case Fork(c, k) =>
      && Busy(s, c) && Cur(s, c).duty == Plain
      && FirstUnused(s.procs, 0).Some? && k in s.pages && s.pages[k] == Free
    case Forked(c) => Busy(s, c) && Cur(s, c).duty.Forking?
    case Create(c, k) =>
      && Busy(s, c) && Cur(s, c).duty == Plain
      && P(s, Me(s, c).p).tnum < NTHREADS && k in s.pages && s.pages[k] == Free
    case Join(c, j) =>
      && Busy(s, c)
      && ((Cur(s, c).duty == Plain && j < P(s, Me(s, c).p).tnum) || Cur(s, c).duty == Joining(j))
    case Take(k) => k in s.pages && s.pages[k] == Free
    case Give(k) => k in s.pages && s.pages[k] == Elsewhere
  }

  // The current thread of c goes on as t.
  function Stay(s: State, c: nat, d: Duty): State
    requires Busy(s, c)
  {
    Set(s, Me(s, c), Cur(s, c).(duty := d))
  }

  // The current thread of c becomes t and switches to the scheduler.
  function Leave(s: State, c: nat, t: Thread): State
    requires Busy(s, c)
  {
    Set(s, Me(s, c), t).(cpus := s.cpus[c := None])
  }

  function ExitThreadNext(s: State, c: nat): State
    requires Busy(s, c)
  {
    var x := Me(s, c);
    var n := LiveCount(s, x.p, P(s, x.p).tnum);
    if n == 1 then
      Stay(s, c, Exiting)
    else
      var s1 := if n == 2 then Wake(s, OnProc(x.p)) else s;
      var s2 := Wake(s1, OnThread(x));
      Leave(s2, c, T(s2, x).(state := ZombieT))
  }

  function Abandon(s: State, p: nat): State {
    var s1 := if P(s, p).parent.Some? then Wake(s, OnProc(P(s, p).parent.value)) else Wake(s, NoChan);
    var s2 := if HasZombie(s.procs, p) then Wake(s1, OnProc(s.init)) else s1;
    Reparent(s2, p)
  }

  function ExitProcessNext(s: State, c: nat): State
    requires Busy(s, c)
  {
    var x := Me(s, c);
    var s' := Abandon(s, x.p);
    if x in s'.threads && x.p < |s'.procs| && T(s', x).cpu < |s'.cpus| then Zombify(s', x) else s'
  }

  function WaitNext(s: State, c: nat): State
    requires Busy(s, c)
  {
    var x := Me(s, c);
    match FirstExited(s.procs, x.p, 0)
    case Some(q) => Stay(Reap(s, q), c, Plain)
    case None =>
      if !HasChild(s.procs, x.p) || Cur(s, c).killed then Stay(s, c, Plain)
      else Leave(s, c, Cur(s, c).(state := Sleeping, chan := OnProc(x.p), duty := Waiting))
  }

  function JoinNext(s: State, c: nat, j: nat): State
    requires Busy(s, c)
  {
    var x := Me(s, c);
    var y := Slot(x.p, j);
    if T(s, y).state == ZombieT then Stay(s, c, Plain)
    else if T(s, y).state == UnusedT then s
    else Leave(s, c, Cur(s, c).(state := Sleeping, chan := OnThread(y), duty := Joining(j)))
  }

  function Next(s: State, step: Step): State
    requires Enabled(s, step)
  {
    match step
    case Schedule(c, x) => Set(s, x, T(s, x).(state := Running, cpu := c)).(cpus := s.cpus[c := Some(x)])
    case Yield(c) => Leave(s, c, Cur(s, c).(state := Runnable))
    case SleepOn(c, ch) => Leave(s, c, Cur(s, c).(state := Sleeping, chan := ch))
    case Wakeup(ch) => Wake(s, ch)
    case Kill(p) => Interrupt(s, p)
    case Exit(c) => Interrupt(s, Me(s, c).p)
    case ExitThread(c) => ExitThreadNext(s, c)
    case ExitProcess(c) => ExitProcessNext(s, c)
    case Wait(c) => WaitNext(s, c)
    case Fork(c, k) =>
      var np := FirstUnused(s.procs, 0).value;
      Stay(Born(s, np, k), c, Forking(np))
    case Forked(c) =>
      var np := Cur(s, c).duty.np;
      if np < |s.procs| then Deliver(Stay(s, c, Plain), np, Me(s, c).p) else s
    case Create(c, k) => if Me(s, c).p < |s.procs| then Allot(s, Me(s, c).p, k, Runnable) else s
    case Join(c, j) => JoinNext(s, c, j)
    case Take(k) => s.(pages := s.pages[k := Elsewhere])
    case Give(k) => s.(pages := s.pages[k := Free])
  }

  // The step leads from s to s'.
  predicate Took(s: State, step: Step, s': State) { Enabled(s, step) && s' == Next(s, step) }

  // --- each step keeps the invariant ---

  lemma Current(s: State, c: nat)
    requires Inv(s) && Busy(s, c)
    ensures var x := Me(s, c);
      && x in s.threads && x.p < |s.procs| && P(s, x.p).state == UsedP && x.i < P(s, x.p).tnum
      && Cur(s, c).state == Running && Cur(s, c).cpu == c && JoinOk(x, Cur(s, c), P(s, x.p))
      && (Cur(s, c).duty == Exiting ==> forall y: Slot | y.p == x.p && Live(T(s, y)) :: y == x)
  {
    hide Waiters, Family, Births, Stacks, Manned;
    var x := Me(s, c);
    assert SlotOk(x, T(s, x), P(s, x.p));
  }

  lemma LeaveKeeps(s: State, c: nat, t: Thread)
    requires Inv(s) && Busy(s, c) && t.state != Running && MoveOk(s, Me(s, c), t)
    ensures Inv(Leave(s, c, t))
  {
    hide Inv, MoveOk, T;
    Current(s, c);
    MovedKeeps(s, Me(s, c), t, Leave(s, c, t));
  }

  lemma StayKeeps(s: State, c: nat, d: Duty)
    requires Inv(s) && Busy(s, c) && MoveOk(s, Me(s, c), Cur(s, c).(duty := d))
    ensures Inv(Stay(s, c, d))
  {
    hide Inv, MoveOk, T;
    Current(s, c);
    MovedKeeps(s, Me(s, c), Cur(s, c).(duty := d), Stay(s, c, d));
  }

  lemma WakeWakes(s: State, ch: Chan)
    requires Shaped(s)
    ensures Woken(s, Wake(s, ch))
    ensures forall x {:trigger T(Wake(s, ch), x)} ::
              T(Wake(s, ch), x) == if Roused(s, x, ch) then T(s, x).(state := Runnable) else T(s, x)
  {
    assert Wake(s, ch).threads.Keys == s.threads.Keys;
  }

  // After wakeup1 nobody sleeps on the channel.
  lemma WakeWakesAll(s: State, ch: Chan)
    requires Shaped(s) && Slotted(s)
    ensures forall x | T(Wake(s, ch), x).state == Sleeping :: T(Wake(s, ch), x).chan != ch
  {
    WakeWakes(s, ch);
    forall x | T(Wake(s, ch), x).state == Sleeping ensures T(Wake(s, ch), x).chan != ch {
      assert SlotOk(x, T(s, x), P(s, x.p));
    }
  }

  lemma WakeKeeps(s: State, ch: Chan)
    requires Inv(s)
    ensures Inv(Wake(s, ch)) && Woken(s, Wake(s, ch))
    ensures forall x | T(Wake(s, ch), x).state == Sleeping :: T(Wake(s, ch), x).chan != ch
  {
    hide OnCpus, Slotted, Manned, Alone, Waiters, Joiners, Family, Births, Stacks, Shaped, Woken, T, Wake;
    WakeWakes(s, ch);
    WakeWakesAll(s, ch);
    WokenKeeps(s, Wake(s, ch));
  }

  lemma InterruptKeeps(s: State, p: nat)
    requires Inv(s)
    ensures Inv(Interrupt(s, p))
  {
    hide OnCpus, Slotted, Manned, Alone, Waiters, Joiners, Family, Births, Stacks;
    var s' := Interrupt(s, p);
    assert s'.threads.Keys == s.threads.Keys;
    assert Woken(s, s');
    WokenKeeps(s, s');
  }

  lemma ScheduleKeeps(s: State, c: nat, x: Slot)
    requires Inv(s) && Enabled(s, Schedule(c, x))
    ensures Inv(Next(s, Schedule(c, x)))
  {
    hide OnCpus, Slotted, Manned, Waiters, Family, Stacks, Births, Shaped;
    var t' := T(s, x).(state := Running, cpu := c);
    assert JoinOk(x, T(s, x), P(s, x.p));
    MovedKeeps(s, x, t', Next(s, Schedule(c, x)));
  }

  lemma YieldKeeps(s: State, c: nat)
    requires Inv(s) && Busy(s, c)
    ensures Inv(Next(s, Yield(c)))
  {
    hide OnCpus, Slotted, Manned, Alone, Waiters, Joiners, Family, Births, Stacks, Shaped, T, P;
    Current(s, c);
    LeaveKeeps(s, c, Cur(s, c).(state := Runnable));
  }

  lemma SleepOnKeeps(s: State, c: nat, ch: Chan)
    requires Inv(s) && Enabled(s, SleepOn(c, ch))
    ensures Inv(Next(s, SleepOn(c, ch)))
  {
    hide OnCpus, Slotted, Manned, Alone, Waiters, Joiners, Family, Births, Stacks, Shaped, T, P;
    Current(s, c);
    LeaveKeeps(s, c, Cur(s, c).(state := Sleeping, chan := ch));
  }

  lemma JoinKeeps(s: State, c: nat, j: nat)
    requires Inv(s) && Enabled(s, Join(c, j))
    ensures Inv(Next(s, Join(c, j)))
  {
    hide OnCpus, Slotted, Manned, Alone, Waiters, Joiners, Family, Births, Stacks, Shaped, T, P;
    Current(s, c);
    var y := Slot(Me(s, c).p, j);
    if T(s, y).state == ZombieT {
      StayKeeps(s, c, Plain);
    } else if T(s, y).state != UnusedT {
      LeaveKeeps(s, c, Cur(s, c).(state := Sleeping, chan := OnThread(y), duty := Joining(j)));
    }
  }

  // Exit_thread's count is right about there being a last thread.
  lemma {:induction false} CountOthers(s: State, p: nat, n: nat, i: nat)
    requires Live(T(s, Slot(p, i))) && i < n
    ensures LiveCount(s, p, n) >= 1
    ensures LiveCount(s, p, n) == 1 ==> forall j | 0 <= j < n && Live(T(s, Slot(p, j))) :: j == i
    ensures LiveCount(s, p, n) > 1 ==> exists j :: 0 <= j < n && j != i && Live(T(s, Slot(p, j)))
  {
    if i == n - 1 {
      CountNone(s, p, n - 1);
      forall j | 0 <= j < n && Live(T(s, Slot(p, j))) ensures LiveCount(s, p, n) == 1 ==> j == i {
        if j < n - 1 { assert LiveCount(s, p, n - 1) > 0; }
      }
    } else {
      CountOthers(s, p, n - 1, i);
      if LiveCount(s, p, n - 1) == 1 && Live(T(s, Slot(p, n - 1))) {
        assert n - 1 != i;
      }
    }
  }

  lemma {:induction false} CountNone(s: State, p: nat, n: nat)
    ensures LiveCount(s, p, n) > 0 <==> exists j :: 0 <= j < n && Live(T(s, Slot(p, j)))
  {
    if n > 0 {
      CountNone(s, p, n - 1);
      if Live(T(s, Slot(p, n - 1))) { assert 0 <= n - 1 < n; }
    }
  }

  lemma ExitThreadKeeps(s: State, c: nat)
    requires Inv(s) && Enabled(s, ExitThread(c))
    ensures Inv(Next(s, ExitThread(c)))
  {
    hide OnCpus, Slotted, Manned, Alone, Waiters, Joiners, Family, Births, Stacks, Shaped, T, P, Wake;
    Current(s, c);
    var x := Me(s, c);
    var n := LiveCount(s, x.p, P(s, x.p).tnum);
    LiveOthers(s, x);
    if n == 1 {
      StayKeeps(s, c, Exiting);
    } else {
      if n == 2 { WakeKeeps(s, OnProc(x.p)); }
      var s1 := if n == 2 then Wake(s, OnProc(x.p)) else s;
      WakeKeeps(s1, OnThread(x));
      var s2 := Wake(s1, OnThread(x));
      var y: Slot :| y.p == x.p && y != x && Live(T(s, y));
      StillLive(s, s1, y);
      StillLive(s1, s2, y);
      StillCurrent(s, s1, c);
      StillCurrent(s1, s2, c);
      Current(s2, c);
      LeaveKeeps(s2, c, T(s2, x).(state := ZombieT));
    }
  }

  lemma LiveOthers(s: State, x: Slot)
    requires Slotted(s) && Live(T(s, x)) && x.i < P(s, x.p).tnum
    ensures var n := LiveCount(s, x.p, P(s, x.p).tnum);
      && n >= 1
      && (n == 1 ==> forall y: Slot | y.p == x.p && Live(T(s, y)) :: y == x)
      && (n > 1 ==> exists y: Slot :: y.p == x.p && y != x && Live(T(s, y)))
  {
    hide T, P;
    var p, n := x.p, P(s, x.p).tnum;
    assert x == Slot(p, x.i);
    CountOthers(s, p, n, x.i);
    forall y: Slot | y.p == p && Live(T(s, y)) ensures y.i < n && y == Slot(p, y.i) {
      assert SlotOk(y, T(s, y), P(s, y.p));
    }
    if LiveCount(s, p, n) > 1 {
      var j :| 0 <= j < n && j != x.i && Live(T(s, Slot(p, j)));
      assert Slot(p, j) != x;
    }
  }

  lemma StillLive(s: State, s': State, y: Slot)
    requires s' == s || Woken(s, s')
    ensures Live(T(s', y)) == Live(T(s, y))
  {
    assert s' != s ==> Stirred(T(s, y), T(s', y));
  }

  lemma StillCurrent(s: State, s': State, c: nat)
    requires (s' == s || Woken(s, s')) && Busy(s, c) && Cur(s, c).state == Running
    ensures Busy(s', c) && Me(s', c) == Me(s, c) && Cur(s', c).duty == Cur(s, c).duty && Cur(s', c).state == Running
    ensures s'.init == s.init && s'.procs == s.procs
  {
    assert s' != s ==> Stirred(T(s, Me(s, c)), T(s', Me(s, c)));
  }

  lemma Childless(s: State, p: nat)
    requires FirstExited(s.procs, p, 0) == None
    ensures forall q | P(s, q).state == ZombieP :: P(s, q).parent != Some(p)
  {
  }

  lemma WaitKeeps(s: State, c: nat)
    requires Inv(s) && Enabled(s, Wait(c))
    ensures Inv(Next(s, Wait(c)))
  {
    hide OnCpus, Slotted, Manned, Alone, Waiters, Joiners, Family, Births, Stacks, Shaped, T, P, Reap, HasChild;
    Current(s, c);
    var x := Me(s, c);
    var r := FirstExited(s.procs, x.p, 0);
    if r.Some? {
      ReapKeeps(s, c, r.value);
      Current(Reap(s, r.value), c);
      StayKeeps(Reap(s, r.value), c, Plain);
    } else if !HasChild(s.procs, x.p) || Cur(s, c).killed {
      StayKeeps(s, c, Plain);
    } else {
      Childless(s, x.p);
      LeaveKeeps(s, c, Cur(s, c).(state := Sleeping, chan := OnProc(x.p), duty := Waiting));
    }
  }

  lemma ReapKeeps(s: State, c: nat, q: nat)
    requires Inv(s) && Busy(s, c) && q < |s.procs| && s.procs[q].state == ZombieP
    ensures Inv(Reap(s, q)) && Busy(Reap(s, q), c) && Me(Reap(s, q), c) == Me(s, c)
  {
    hide OnCpus, Slotted, Manned, Alone, Waiters, Joiners, Family, Births, Stacks, Shaped, T, Reaping;
    ReapingAt(s, q);
    ReapingKeeps(s, q, Reap(s, q));
  }

  // No thread of an unused slot, or of a process with a plain running thread,
  // is in the way of a new one.
  lemma RoomForBirth(s: State, np: nat)
    requires Inv(s) && np < |s.procs| && s.procs[np].state == UnusedP
    ensures AllotOk(s, Slot(np, 0), Embryo)
    ensures forall y | InFork(T(s, y)) :: T(s, y).duty != Forking(np)
  {
    hide OnCpus, Manned, Alone, Waiters, Joiners, Family, Stacks;
    forall y: Slot | y.p == np ensures T(s, y).state == UnusedT { assert SlotOk(y, T(s, y), P(s, y.p)); }
  }

  lemma RoomForThread(s: State, c: nat)
    requires Inv(s) && Busy(s, c) && Cur(s, c).duty == Plain
    ensures var p := Me(s, c).p; AllotOk(s, Slot(p, P(s, p).tnum), Runnable)
  {
    hide OnCpus, Manned, Waiters, Joiners, Family, Stacks, T, P;
    Current(s, c);
    var x := Me(s, c);
    var z := Slot(x.p, P(s, x.p).tnum);
    assert SlotOk(z, T(s, z), P(s, z.p));
    assert !Unborn(s, x.p);
  }

  lemma ForkKeeps(s: State, c: nat, k: Page)
    requires Inv(s) && Enabled(s, Fork(c, k))
    ensures Inv(Next(s, Fork(c, k)))
  {
    hide OnCpus, Slotted, Manned, Alone, Waiters, Joiners, Family, Births, Stacks, Shaped, T, P, AllotOk, Born;
    Current(s, c);
    var x := Me(s, c);
    var np := FirstUnused(s.procs, 0).value;
    var s1 := Born(s, np, k);
    RoomForBirth(s, np);
    BornAt(s, np, k);
    AllotedKeeps(s, Slot(np, 0), k, Embryo, s1);
    Current(s1, c);
    assert P(s, np).state == UnusedP by { NoProc(s, np); }
    StayKeeps(s1, c, Forking(np));
  }

  lemma NoProc(s: State, p: nat)
    requires p < |s.procs|
    ensures P(s, p) == s.procs[p]
  {
  }

  lemma CreateKeeps(s: State, c: nat, k: Page)
    requires Inv(s) && Enabled(s, Create(c, k))
    ensures Inv(Next(s, Create(c, k)))
  {
    hide OnCpus, Slotted, Manned, Alone, Waiters, Joiners, Family, Births, Stacks, Shaped, T, P, AllotOk, Allot,
      Alloted;
    Current(s, c);
    var p := Me(s, c).p;
    NoProc(s, p);
    RoomForThread(s, c);
    AllotedAt(s, p, k);
    AllotedKeeps(s, Slot(p, P(s, p).tnum), k, Runnable, Allot(s, p, k, Runnable));
  }

  lemma Forker(s: State, c: nat, np: nat)
    requires Busy(s, c) && Cur(s, c).duty == Forking(np)
    requires Inv(s)
    ensures
      && np < |s.procs| && Unborn(s, np) && np != Me(s, c).p
      && (forall y | InFork(T(s, y)) && T(s, y).duty == Forking(np) :: y == Me(s, c))
  {
    hide OnCpus, Slotted, Manned, Alone, Waiters, Joiners, Family, Stacks;
    Current(s, c);
  }

  lemma ForkedKeeps(s: State, c: nat)
    requires Inv(s) && Enabled(s, Forked(c))
    ensures Inv(Next(s, Forked(c)))
  {
    hide OnCpus, Slotted, Manned, Alone, Waiters, Joiners, Family, Births, Stacks, Shaped, T, P, Deliver, Delivered;
    Current(s, c);
    var x := Me(s, c);
    var np := Cur(s, c).duty.np;
    Forker(s, c, np);
    var s1 := Stay(s, c, Plain);
    StayKeeps(s, c, Plain);
    MovedAt(s, x, Cur(s, c).(duty := Plain), s1);
    DeliveredAt(s1, np, x.p);
    DeliveredKeeps(s1, np, x.p, Deliver(s1, np, x.p));
  }

  lemma ExitProcessKeeps(s: State, c: nat)
    requires Inv(s) && Enabled(s, ExitProcess(c))
    ensures Inv(Next(s, ExitProcess(c)))
  {
    hide OnCpus, Slotted, Manned, Alone, Waiters, Joiners, Family, Births, Stacks, Shaped, T, P, Abandon, Zombied;
    Current(s, c);
    var x := Me(s, c);
    AbandonKeeps(s, c);
    var s' := Abandon(s, x.p);
    Current(s', c);
    ZombiedAt(s', x);
    ZombiedKeeps(s', x, Zombify(s', x));
  }

  ghost predicate Orphaned(s: State, c: nat) {
    && Busy(s, c)
    && var x, s' := Me(s, c), Abandon(s, Me(s, c).p);
       Inv(s') && Busy(s', c) && Me(s', c) == x && ZombifyOk(s', x)
  }

  // After the wakeups and the reparenting in exit_process, the process has no
  // children and nobody sleeps in wait for it.
  lemma AbandonKeeps(s: State, c: nat)
    requires Inv(s) && Enabled(s, ExitProcess(c))
    ensures Orphaned(s, c)
  {
    hide OnCpus, Slotted, Manned, Alone, Joiners, Family, Births, Stacks, Shaped, T, P, Wake, Reparent;
    Current(s, c);
    var x := Me(s, c);
    var p := x.p;
    ParentOf(s, x);
    var q := P(s, p).parent.value;
    var s1 := Wake(s, OnProc(q));
    WakeKeeps(s, OnProc(q));
    StillCurrent(s, s1, c);
    SameProcs(s, s1);
    if HasZombie(s.procs, p) { WakeKeeps(s1, OnProc(s.init)); }
    var s2 := if HasZombie(s.procs, p) then Wake(s1, OnProc(s.init)) else s1;
    StillCurrent(s1, s2, c);
    SameProcs(s1, s2);
    StillNobody(s1, s2, OnProc(q));
    if !HasZombie(s.procs, p) { NoZombie(s2, p); }
    assert ReparentOk(s2, p);
    ReparentedAt(s2, p);
    ReparentedKeeps(s2, p, Reparent(s2, p));
  }

  lemma ParentOf(s: State, x: Slot)
    requires Family(s) && Births(s) && P(s, x.p).state == UsedP && x.p != s.init
    requires Live(T(s, x)) && T(s, x).duty == Exiting && x.i < P(s, x.p).tnum
    ensures P(s, x.p).parent.Some? && P(s, x.p).parent != Some(x.p)
  {
    hide T, P;
  }

  lemma StillNobody(s: State, s': State, ch: Chan)
    requires s' == s || Woken(s, s')
    requires forall x | T(s, x).state == Sleeping :: T(s, x).chan != ch
    ensures forall x | T(s', x).state == Sleeping :: T(s', x).chan != ch
  {
    hide T;
    forall x | T(s', x).state == Sleeping ensures T(s', x).chan != ch {
      assert s' != s ==> Stirred(T(s, x), T(s', x));
    }
  }

  lemma NoZombie(s: State, p: nat)
    requires !HasZombie(s.procs, p)
    ensures forall q | P(s, q).state == ZombieP :: P(s, q).parent != Some(p)
  {
  }

  lemma StepKeeps(s: State, step: Step)
    requires Inv(s) && Enabled(s, step)
    ensures Inv(Next(s, step))
  {
    hide Inv;
    match step
    case Schedule(c, x) => ScheduleKeeps(s, c, x);
    case Yield(c) => YieldKeeps(s, c);
    case SleepOn(c, ch) => SleepOnKeeps(s, c, ch);
    case Wakeup(ch) => WakeKeeps(s, ch);
    case Kill(p) => InterruptKeeps(s, p);
    case Exit(c) => InterruptKeeps(s, Me(s, c).p);
    case ExitThread(c) => ExitThreadKeeps(s, c);
    case ExitProcess(c) => ExitProcessKeeps(s, c);
    case Wait(c) => WaitKeeps(s, c);
    case Fork(c, k) => ForkKeeps(s, c, k);
    case Forked(c) => ForkedKeeps(s, c);
    case Create(c, k) => CreateKeeps(s, c, k);
    case Join(c, j) => JoinKeeps(s, c, j);
    case Take(k) => ElsewhenKeeps(s, k, Elsewhere, Next(s, step));
    case Give(k) => ElsewhenKeeps(s, k, Free, Next(s, step));
  }

  // --- whole runs ---

  // After userinit: init has one RUNNABLE thread, and no CPU has begun.
  ghost predicate Init(s: State) {
    && Shaped(s)
    && (forall p | 0 <= p < |s.procs| ::
          if p == s.init then s.procs[p] == Proc(UsedP, None, 1) else s.procs[p] == Proc(UnusedP, None, 0))
    && (forall c | 0 <= c < |s.cpus| :: s.cpus[c] == None)
    && (exists k ::
          && k in s.pages && s.pages[k] == Stack(Slot(s.init, 0))
          && T(s, Slot(s.init, 0)) == Thread(Runnable, NoChan, false, Some(k), 1, Plain, 0)
          && (forall x | x in s.threads && x != Slot(s.init, 0) ::
              s.threads[x] == Thread(UnusedT, NoChan, false, None, 0, Plain, 0))
          && (forall m | m in s.pages && m != k :: !s.pages[m].Stack?))
  }

  // The same, entry by entry; k is the page of init's stack.
  ghost predicate Booted(s: State, k: Page) {
    && P(s, s.init) == Proc(UsedP, None, 1) && (forall p | p != s.init :: P(s, p) == Proc(UnusedP, None, 0))
    && T(s, Slot(s.init, 0)) == Thread(Runnable, NoChan, false, Some(k), 1, Plain, 0)
    && (forall x | x != Slot(s.init, 0) :: T(s, x) == Thread(UnusedT, NoChan, false, None, 0, Plain, 0))
    && (forall c | 0 <= c < |s.cpus| :: s.cpus[c] == None)
    && k in s.pages && s.pages[k] == Stack(Slot(s.init, 0)) && forall m | m in s.pages && m != k :: !s.pages[m].Stack?
  }

  lemma InitHolds(s: State)
    requires Init(s)
    ensures Inv(s)
  {
    var k := InitBooted(s);
    BootedSlots(s, k);
    BootedRest(s, k);
  }

  lemma InitBooted(s: State) returns (k: Page)
    requires Init(s)
    ensures Booted(s, k)
  {
    assert Slot(s.init, 0) in s.threads;
    k := T(s, Slot(s.init, 0)).kstack.value;
  }

  lemma BootedSlots(s: State, k: Page)
    requires Booted(s, k)
    ensures OnCpus(s) && Slotted(s) && Manned(s) && Alone(s) && Waiters(s)
  {
    hide T, P;
    assert Live(T(s, Slot(s.init, 0)));
  }

  lemma BootedRest(s: State, k: Page)
    requires Booted(s, k)
    ensures Joiners(s) && Family(s) && Births(s) && Stacks(s)
  {
    hide T, P;
  }

  ghost predicate Runs(s: State, steps: seq<Step>, s': State)
    decreases |steps|
  {
    if steps == [] then s' == s else Enabled(s, steps[0]) && Runs(Next(s, steps[0]), steps[1..], s')
  }

  lemma {:induction false} RunKeeps(s: State, steps: seq<Step>, s': State)
    requires Inv(s) && Runs(s, steps, s')
    ensures Inv(s')
    decreases |steps|
  {
    hide Inv, Next, Enabled;
    if steps != [] {
      StepKeeps(s, steps[0]);
      RunKeeps(Next(s, steps[0]), steps[1..], s');
    }
  }

  ghost predicate Reachable(s: State) {
    exists s0, steps :: Init(s0) && Runs(s0, steps, s)
  }

  lemma ReachableInv(s: State)
    requires Reachable(s)
    ensures Inv(s)
  {
    hide Init, Runs, Inv;
    var s0, steps :| Init(s0) && Runs(s0, steps, s);
    InitHolds(s0);
    RunKeeps(s0, steps, s);
  }

  // RUNNING threads and busy CPUs correspond one to one.
  lemma RunningOneToOne(s: State)
    requires Reachable(s)
    ensures forall c | Busy(s, c) :: Me(s, c) in s.threads && s.threads[Me(s, c)].state == Running
    ensures forall x | x in s.threads && s.threads[x].state == Running :: exists c :: Busy(s, c) && Me(s, c) == x
    ensures forall c, d | Busy(s, c) && Busy(s, d) && Me(s, c) == Me(s, d) :: c == d
  {
    hide Slotted, Manned, Alone, Waiters, Joiners, Family, Births, Stacks, Shaped, Reachable;
    ReachableInv(s);
    forall x | x in s.threads && s.threads[x].state == Running ensures exists c :: Busy(s, c) && Me(s, c) == x {
      var c := T(s, x).cpu;
      assert Busy(s, c) && Me(s, c) == x;
    }
  }

  // Nobody sleeps in wait while a child is a zombie, whoever the child was
  // born to; and every zombie has a parent in use to wait for it.
  lemma WaitNeverMisses(s: State)
    requires Reachable(s)
    ensures forall x, q | x in s.threads && InWait(s.threads[x]) && 0 <= q < |s.procs| && s.procs[q].state == ZombieP ::
              s.procs[q].parent != Some(x.p)
    ensures forall q | 0 <= q < |s.procs| && s.procs[q].state == ZombieP ::
              s.procs[q].parent.Some? && P(s, s.procs[q].parent.value).state == UsedP
  {
    hide OnCpus, Manned, Alone, Joiners, Births, Stacks, Shaped, Reachable;
    ReachableInv(s);
    forall x, q | x in s.threads && InWait(s.threads[x]) && 0 <= q < |s.procs| && s.procs[q].state == ZombieP
      ensures s.procs[q].parent != Some(x.p)
    {
      assert InWait(T(s, x)) && P(s, q) == s.procs[q];
    }
    forall q | 0 <= q < |s.procs| && s.procs[q].state == ZombieP
      ensures s.procs[q].parent.Some? && P(s, s.procs[q].parent.value).state == UsedP
    {
      assert P(s, q) == s.procs[q];
      assert SlotOk(Slot(q, 0), T(s, Slot(q, 0)), P(s, q));
    }
  }

  // Nobody sleeps in kthread_join on a thread that has exited, and the loop
  // there never finds a target that is not in use.
  lemma JoinNeverMisses(s: State, x: Slot)
    requires Reachable(s) && x in s.threads && Live(s.threads[x]) && s.threads[x].duty.Joining?
    ensures var y := T(s, Slot(x.p, s.threads[x].duty.j));
      y.state != UnusedT && y.tid == s.threads[x].duty.j + 1 && (s.threads[x].state == Sleeping ==> y.state != ZombieT)
  {
    hide OnCpus, Manned, Alone, Waiters, Family, Births, Stacks, Shaped, Reachable;
    ReachableInv(s);
    var y := Slot(x.p, s.threads[x].duty.j);
    assert T(s, x) == s.threads[x];
    assert JoinOk(x, T(s, x), P(s, x.p));
    assert SlotOk(x, T(s, x), P(s, x.p));
    assert SlotOk(y, T(s, y), P(s, y.p));
  }

  // A zombie process has only dead threads; a process in use has a live one,
  // so that exit_thread's count is never zero.
  lemma ZombiesAreDead(s: State)
    requires Reachable(s)
    ensures forall x | x in s.threads && P(s, x.p).state == ZombieP :: !Live(s.threads[x])
    ensures forall p | P(s, p).state == UsedP :: exists x: Slot :: x.p == p && Live(T(s, x))
    ensures forall c | Busy(s, c) :: LiveCount(s, Me(s, c).p, P(s, Me(s, c).p).tnum) >= 1
  {
    hide OnCpus, Alone, Waiters, Joiners, Family, Births, Stacks, Shaped, Reachable, T, P;
    ReachableInv(s);
    forall x | x in s.threads && P(s, x.p).state == ZombieP ensures !Live(s.threads[x]) {
      ThreadAt(s, x);
      assert SlotOk(x, T(s, x), P(s, x.p));
    }
    forall c | Busy(s, c) ensures LiveCount(s, Me(s, c).p, P(s, Me(s, c).p).tnum) >= 1 {
      Current(s, c);
      LiveOthers(s, Me(s, c));
    }
  }

  lemma ThreadAt(s: State, x: Slot)
    requires x in s.threads
    ensures T(s, x) == s.threads[x]
  {
  }

  // The step is wait's, and it reaps process q.
  predicate Reaps(s: State, step: Step, q: nat) {
    && step.Wait? && Enabled(s, step)
    && FirstExited(s.procs, Me(s, step.c).p, 0) == Some(q)
  }

  // Thread x keeps its stack, and stays a zombie if it is one.
  predicate Kept(s: State, s': State, x: Slot) {
    && T(s', x).kstack == T(s, x).kstack
    && (T(s, x).state == ZombieT ==> T(s', x).state == ZombieT)
  }

  lemma SetKeepsOthers(s: State, x: Slot, t: Thread, s': State, y: Slot)
    requires Moved(s, x, t, s') && t.kstack == T(s, x).kstack && T(s, x).state != ZombieT
    ensures Kept(s, s', y)
  {
    MovedAt(s, x, t, s');
  }

  lemma WokenKeepsOthers(s: State, s': State, y: Slot)
    requires s' == s || Woken(s, s')
    ensures Kept(s, s', y)
  {
    if s' != s { assert Stirred(T(s, y), T(s', y)); }
  }

  lemma CurrentMoves(s: State, c: nat, t: Thread, y: Slot)
    requires Inv(s) && Busy(s, c) && t.kstack == Cur(s, c).kstack
    ensures Kept(s, Leave(s, c, t), y) && Kept(s, Set(s, Me(s, c), t), y)
  {
    hide Inv, T, Kept;
    Current(s, c);
    SetKeepsOthers(s, Me(s, c), t, Leave(s, c, t), y);
    SetKeepsOthers(s, Me(s, c), t, Set(s, Me(s, c), t), y);
  }

  lemma ExitThreadKept(s: State, c: nat, x: Slot)
    requires Inv(s) && Enabled(s, ExitThread(c))
    ensures Kept(s, Next(s, ExitThread(c)), x)
  {
    hide Inv, T, Wake, Woken;
    Current(s, c);
    var y := Me(s, c);
    var n := LiveCount(s, y.p, P(s, y.p).tnum);
    if n == 1 {
      CurrentMoves(s, c, Cur(s, c).(duty := Exiting), x);
    } else {
      if n == 2 { WakeKeeps(s, OnProc(y.p)); }
      var s1 := if n == 2 then Wake(s, OnProc(y.p)) else s;
      WakeKeeps(s1, OnThread(y));
      var s2 := Wake(s1, OnThread(y));
      WokenKeepsOthers(s, s1, x);
      WokenKeepsOthers(s1, s2, x);
      StillCurrent(s, s1, c);
      StillCurrent(s1, s2, c);
      CurrentMoves(s2, c, T(s2, y).(state := ZombieT), x);
    }
  }

  predicate Abandoned(s: State, c: nat, x: Slot, p: nat) {
    && Busy(s, c)
    && var q, s' := Me(s, c).p, Abandon(s, Me(s, c).p);
       && Stirred(T(s, x), T(s', x))
       && P(s', p) == (if P(s, p).parent == Some(q) then P(s, p).(parent := Some(s.init)) else P(s, p))
       && s'.init == s.init
  }

  // What the wakeups and the reparenting in exit_process change.
  lemma AbandonAt(s: State, c: nat, x: Slot, p: nat)
    requires Inv(s) && Enabled(s, ExitProcess(c))
    ensures Abandoned(s, c, x, p)
  {
    hide Inv, T, Wake, Reparent;
    var q := Me(s, c).p;
    var ch := if P(s, q).parent.Some? then OnProc(P(s, q).parent.value) else NoChan;
    var s1 := Wake(s, ch);
    WakeKeeps(s, ch);
    if HasZombie(s.procs, q) { WakeKeeps(s1, OnProc(s.init)); }
    var s2 := if HasZombie(s.procs, q) then Wake(s1, OnProc(s.init)) else s1;
    assert Stirred(T(s, x), T(s1, x)) && Stirred(T(s1, x), T(s2, x));
    IsShaped(s2);
    ReparentedAt(s2, q);
  }

  lemma ExitProcessKept(s: State, c: nat, x: Slot)
    requires Inv(s) && Enabled(s, ExitProcess(c))
    ensures Kept(s, Next(s, ExitProcess(c)), x)
  {
    hide Inv, T, P, Abandon;
    AbandonAt(s, c, x, 0);
    AbandonKeeps(s, c);
    var s3 := Abandon(s, Me(s, c).p);
    Current(s, c);
    IsShaped(s3);
    Current(s3, c);
    ZombiedAt(s3, Me(s, c));
  }

  lemma IsShaped(s: State)
    requires Inv(s)
    ensures Shaped(s)
  {
  }

  lemma WaitKept(s: State, c: nat, x: Slot)
    requires Inv(s) && Enabled(s, Wait(c)) && T(s, x).state != UnusedT
    ensures Kept(s, Next(s, Wait(c)), x)
         || (&& Reaps(s, Wait(c), x.p) && T(s, x).state == ZombieT
             && T(Next(s, Wait(c)), x).state == UnusedT && T(Next(s, Wait(c)), x).kstack == None)
  {
    hide OnCpus, Slotted, Manned, Alone, Waiters, Joiners, Family, Births, Stacks, Shaped, T, P, Reap, HasChild;
    Current(s, c);
    var y := Me(s, c);
    var r := FirstExited(s.procs, y.p, 0);
    if r.Some? {
      ReapingAt(s, r.value);
      ReapKeeps(s, c, r.value);
      var s1 := Reap(s, r.value);
      Current(s1, c);
      MovedAt(s1, y, Cur(s1, c).(duty := Plain), Stay(s1, c, Plain));
    } else if !HasChild(s.procs, y.p) || Cur(s, c).killed {
      CurrentMoves(s, c, Cur(s, c).(duty := Plain), x);
    } else {
      CurrentMoves(s, c, Cur(s, c).(state := Sleeping, chan := OnProc(y.p), duty := Waiting), x);
    }
  }

  lemma BirthKept(s: State, step: Step, x: Slot)
    requires Inv(s) && Enabled(s, step) && (step.Fork? || step.Create? || step.Forked?) && T(s, x).state != UnusedT
    ensures Kept(s, Next(s, step), x)
  {
    hide OnCpus, Slotted, Manned, Alone, Waiters, Joiners, Family, Births, Stacks, T, P, Allot, Born, Deliver;
    var c := step.c;
    Current(s, c);
    var p := Me(s, c).p;
    NoProc(s, p);
    if step.Fork? {
      var np := FirstUnused(s.procs, 0).value;
      RoomForBirth(s, np);
      BornAt(s, np, step.k);
      var s1 := Born(s, np, step.k);
      AllotedKeeps(s, Slot(np, 0), step.k, Embryo, s1);
      CurrentMoves(s1, c, Cur(s1, c).(duty := Forking(np)), x);
    } else if step.Create? {
      RoomForThread(s, c);
      AllotedAt(s, p, step.k);
    } else {
      var np := Cur(s, c).duty.np;
      Forker(s, c, np);
      CurrentMoves(s, c, Cur(s, c).(duty := Plain), x);
      StayKeeps(s, c, Plain);
      MovedAt(s, Me(s, c), Cur(s, c).(duty := Plain), Stay(s, c, Plain));
      DeliveredAt(Stay(s, c, Plain), np, p);
    }
  }

  // ZOMBIE_T is left only by wait's reaping, and a thread loses its stack only
  // there, when it is a zombie.
  lemma OnlyReapingTakes(s: State, step: Step, x: Slot)
    requires Inv(s) && Enabled(s, step) && T(s, x).state != UnusedT
    ensures Kept(s, Next(s, step), x)
         || (&& Reaps(s, step, x.p) && T(s, x).state == ZombieT
             && T(Next(s, step), x).state == UnusedT && T(Next(s, step), x).kstack == None)
  {
    hide OnCpus, Slotted, Manned, Alone, Waiters, Joiners, Family, Births, Stacks, Shaped, T, P, Wake;
    match step
    case Schedule(c, y) => SetKeepsOthers(s, y, T(s, y).(state := Running, cpu := c), Next(s, step), x);
    case Yield(c) => CurrentMoves(s, c, Cur(s, c).(state := Runnable), x);
    case SleepOn(c, ch) => CurrentMoves(s, c, Cur(s, c).(state := Sleeping, chan := ch), x);
    case Wakeup(ch) => WakeKeeps(s, ch); WokenKeepsOthers(s, Wake(s, ch), x);
    case Kill(p) => InterruptKept(s, p, x);
    case Exit(c) => InterruptKept(s, Me(s, c).p, x);
    case ExitThread(c) => ExitThreadKept(s, c, x);
    case ExitProcess(c) => ExitProcessKept(s, c, x);
    case Wait(c) => WaitKept(s, c, x);
    case Fork(c, k) => BirthKept(s, step, x);
    case Forked(c) => BirthKept(s, step, x);
    case Create(c, k) => BirthKept(s, step, x);
    case Join(c, j) =>
      CurrentMoves(s, c, Cur(s, c).(duty := Plain), x);
      CurrentMoves(s, c, Cur(s, c).(state := Sleeping, chan := OnThread(Slot(Me(s, c).p, j)), duty := Joining(j)), x);
    case Take(k) => ElsewhenAt(s, k, Elsewhere, Next(s, step));
    case Give(k) => ElsewhenAt(s, k, Free, Next(s, step));
  }

  lemma InterruptKept(s: State, p: nat, x: Slot)
    ensures Kept(s, Interrupt(s, p), x)
  {
  }

  // A kernel stack that stops being a stack was freed by wait's reaping; its
  // owner was a zombie, on no CPU, and owns it no more.
  lemma StackFreedOnce(s: State, step: Step, k: Page)
    requires Inv(s) && Enabled(s, step) && k in s.pages && s.pages[k].Stack?
    ensures var x, s' := s.pages[k].x, Next(s, step);
      && s'.pages.Keys == s.pages.Keys
      && (s'.pages[k] == s.pages[k]
          || (&& s'.pages[k] == Free && Reaps(s, step, x.p) && T(s, x).state == ZombieT && T(s', x).kstack == None
              && forall c | Busy(s, c) :: Me(s, c) != x))
  {
    hide OnCpus, Slotted, Manned, Alone, Waiters, Joiners, Family, Births, Shaped, T, P, Next, Enabled, Reaps;
    var x, s' := s.pages[k].x, Next(s, step);
    assert T(s, x).kstack == Some(k);
    PagesKept(s, step, k);
    OnlyReapingTakes(s, step, x);
    StepKeeps(s, step);
    forall c | Busy(s, c) ensures Cur(s, c).state == Running { Current(s, c); }
  }

  // A stack's page stays what it is or becomes free.
  lemma PagesKept(s: State, step: Step, k: Page)
    requires Enabled(s, step) && k in s.pages && s.pages[k].Stack?
    ensures Next(s, step).pages.Keys == s.pages.Keys
    ensures Next(s, step).pages[k] == s.pages[k] || Next(s, step).pages[k] == Free
  {
    hide T, P, LiveCount, FirstExited, HasChild, HasZombie, Wake;
    forall s1, ch {:trigger Wake(s1, ch)} ensures Wake(s1, ch).pages == s1.pages { WakePages(s1, ch); }
  }

  lemma WakePages(s: State, ch: Chan)
    ensures Wake(s, ch).pages == s.pages
  {
  }

  // --- the thread state machine ---

  // The changes of state a step may make to a thread.
  predicate Legal(step: Step, a: TState, b: TState) {
    || a == b
    || (a == UnusedT && b == Embryo && step.Fork?)
    || (a == UnusedT && b == Runnable && step.Create?)
    || (a == Embryo && b == Runnable && step.Forked?)
    || (a == Runnable && b == Running && step.Schedule?)
    || (a == Running && b == Runnable && step.Yield?)
    || (a == Running && b == Sleeping && (step.SleepOn? || step.Wait? || step.Join?))
    || (a == Sleeping && b == Runnable
        && (step.Wakeup? || step.Kill? || step.Exit? || step.ExitThread? || step.ExitProcess?))
    || (a == Running && b == ZombieT && (step.ExitThread? || step.ExitProcess?))
    || (a == ZombieT && b == UnusedT && step.Wait?)
  }

  function St(s: State, x: Slot): TState { T(s, x).state }

  lemma CurrentGoes(s: State, c: nat, t: Thread, x: Slot)
    requires Inv(s) && Busy(s, c)
    ensures St(Leave(s, c, t), x) == (if x == Me(s, c) then t.state else St(s, x))
    ensures St(Set(s, Me(s, c), t), x) == (if x == Me(s, c) then t.state else St(s, x))
    ensures St(s, Me(s, c)) == Running
  {
    hide Inv, T;
    Current(s, c);
    MovedAt(s, Me(s, c), t, Leave(s, c, t));
    MovedAt(s, Me(s, c), t, Set(s, Me(s, c), t));
  }

  lemma SleepersStir(s: State, s': State, x: Slot)
    requires s' == s || Woken(s, s')
    ensures St(s', x) == St(s, x) || (St(s, x) == Sleeping && St(s', x) == Runnable)
  {
    if s' != s { assert Stirred(T(s, x), T(s', x)); }
  }

  lemma ExitThreadMoves(s: State, c: nat, x: Slot)
    requires Inv(s) && Enabled(s, ExitThread(c))
    ensures Legal(ExitThread(c), St(s, x), St(Next(s, ExitThread(c)), x))
  {
    hide Inv, St, Wake, Woken;
    var y := Me(s, c);
    var n := LiveCount(s, y.p, P(s, y.p).tnum);
    CurrentGoes(s, c, Cur(s, c).(duty := Exiting), x);
    if n != 1 {
      if n == 2 { WakeKeeps(s, OnProc(y.p)); }
      var s1 := if n == 2 then Wake(s, OnProc(y.p)) else s;
      WakeKeeps(s1, OnThread(y));
      var s2 := Wake(s1, OnThread(y));
      SleepersStir(s, s1, x);
      SleepersStir(s1, s2, x);
      Current(s, c);
      StillCurrent(s, s1, c);
      StillCurrent(s1, s2, c);
      CurrentGoes(s2, c, T(s2, y).(state := ZombieT), x);
    } else {
      SameState(s, c);
    }
  }

  lemma SameState(s: State, c: nat)
    requires Busy(s, c)
    ensures Cur(s, c).state == St(s, Me(s, c))
  {
  }

  lemma ExitProcessMoves(s: State, c: nat, x: Slot)
    requires Inv(s) && Enabled(s, ExitProcess(c))
    ensures Legal(ExitProcess(c), St(s, x), St(Next(s, ExitProcess(c)), x))
  {
    hide Inv, T, P, Abandon;
    AbandonAt(s, c, x, 0);
    AbandonKeeps(s, c);
    var s3 := Abandon(s, Me(s, c).p);
    Current(s, c);
    IsShaped(s3);
    Current(s3, c);
    ZombiedAt(s3, Me(s, c));
  }

  lemma WaitMoves(s: State, c: nat, x: Slot)
    requires Inv(s) && Enabled(s, Wait(c))
    ensures Legal(Wait(c), St(s, x), St(Next(s, Wait(c)), x))
  {
    hide OnCpus, Slotted, Manned, Alone, Waiters, Joiners, Family, Births, Stacks, Shaped, T, P, Reap, HasChild;
    Current(s, c);
    var y := Me(s, c);
    var r := FirstExited(s.procs, y.p, 0);
    if r.Some? {
      ReapingAt(s, r.value);
      ReapKeeps(s, c, r.value);
      var s1 := Reap(s, r.value);
      Current(s1, c);
      CurrentGoes(s1, c, Cur(s1, c).(duty := Plain), x);
    } else if !HasChild(s.procs, y.p) || Cur(s, c).killed {
      CurrentGoes(s, c, Cur(s, c).(duty := Plain), x);
    } else {
      CurrentGoes(s, c, Cur(s, c).(state := Sleeping, chan := OnProc(y.p), duty := Waiting), x);
    }
  }

  lemma BirthMoves(s: State, step: Step, x: Slot)
    requires Inv(s) && Enabled(s, step) && (step.Fork? || step.Create? || step.Forked?)
    ensures Legal(step, St(s, x), St(Next(s, step), x))
  {
    hide OnCpus, Slotted, Manned, Alone, Waiters, Joiners, Family, Births, Stacks, T, P, Allot, Born, Deliver;
    var c := step.c;
    Current(s, c);
    var p := Me(s, c).p;
    NoProc(s, p);
    if step.Fork? {
      var np := FirstUnused(s.procs, 0).value;
      RoomForBirth(s, np);
      BornAt(s, np, step.k);
      var s1 := Born(s, np, step.k);
      AllotedKeeps(s, Slot(np, 0), step.k, Embryo, s1);
      CurrentGoes(s1, c, Cur(s1, c).(duty := Forking(np)), x);
    } else if step.Create? {
      RoomForThread(s, c);
      AllotedAt(s, p, step.k);
    } else {
      var np := Cur(s, c).duty.np;
      Forker(s, c, np);
      CurrentGoes(s, c, Cur(s, c).(duty := Plain), x);
      StayKeeps(s, c, Plain);
      MovedAt(s, Me(s, c), Cur(s, c).(duty := Plain), Stay(s, c, Plain));
      DeliveredAt(Stay(s, c, Plain), np, p);
    }
  }

  // Threads change state only along the arrows of Legal, each by its own steps.
  lemma StateMachine(s: State, step: Step, x: Slot)
    requires Inv(s) && Enabled(s, step)
    ensures Legal(step, St(s, x), St(Next(s, step), x))
  {
    hide OnCpus, Slotted, Manned, Alone, Waiters, Joiners, Family, Births, Stacks, Shaped, T, P, Wake;
    match step
    case Schedule(c, y) => MovedAt(s, y, T(s, y).(state := Running, cpu := c), Next(s, step));
    case Yield(c) => CurrentGoes(s, c, Cur(s, c).(state := Runnable), x);
    case SleepOn(c, ch) => CurrentGoes(s, c, Cur(s, c).(state := Sleeping, chan := ch), x);
    case Wakeup(ch) => WakeKeeps(s, ch); SleepersStir(s, Wake(s, ch), x);
    case Kill(p) => InterruptMoves(s, p, x);
    case Exit(c) => InterruptMoves(s, Me(s, c).p, x);
    case ExitThread(c) => ExitThreadMoves(s, c, x);
    case ExitProcess(c) => ExitProcessMoves(s, c, x);
    case Wait(c) => WaitMoves(s, c, x);
    case Fork(c, k) => BirthMoves(s, step, x);
    case Forked(c) => BirthMoves(s, step, x);
    case Create(c, k) => BirthMoves(s, step, x);
    case Join(c, j) =>
      CurrentGoes(s, c, Cur(s, c).(duty := Plain), x);
      CurrentGoes(s, c, Cur(s, c).(state := Sleeping, chan := OnThread(Slot(Me(s, c).p, j)), duty := Joining(j)), x);
    case Take(k) => ElsewhenAt(s, k, Elsewhere, Next(s, step));
    case Give(k) => ElsewhenAt(s, k, Free, Next(s, step));
  }

  lemma InterruptMoves(s: State, p: nat, x: Slot)
    ensures var s' := Interrupt(s, p); St(s', x) == St(s, x) || (St(s, x) == Sleeping && St(s', x) == Runnable)
  {
  }

  // --- parents and kills ---

  function Par(s: State, p: nat): Option<nat> { P(s, p).parent }

  // Who is whose parent changes only when fork hands over the child, when a
  // parent exits and init takes over, and when wait reaps.
  ghost predicate ParentChange(s: State, step: Step, p: nat, a: Option<nat>, b: Option<nat>) {
    || b == a
    || (step.Forked? && Enabled(s, step) && Cur(s, step.c).duty == Forking(p) && a == None
       && b == Some(Me(s, step.c).p))
    || (step.ExitProcess? && Enabled(s, step) && a == Some(Me(s, step.c).p) && b == Some(s.init))
    || (Reaps(s, step, p) && b == None)
  }

  lemma CurrentParents(s: State, c: nat, t: Thread, p: nat)
    requires Busy(s, c)
    ensures Par(Leave(s, c, t), p) == Par(s, p) && Par(Set(s, Me(s, c), t), p) == Par(s, p)
  {
  }

  lemma ExitProcessParents(s: State, c: nat, p: nat)
    requires Inv(s) && Enabled(s, ExitProcess(c))
    ensures ParentChange(s, ExitProcess(c), p, Par(s, p), Par(Next(s, ExitProcess(c)), p))
  {
    hide Inv, T, P, Abandon;
    AbandonAt(s, c, Me(s, c), p);
    AbandonKeeps(s, c);
    var s3 := Abandon(s, Me(s, c).p);
    Current(s, c);
    IsShaped(s3);
    Current(s3, c);
    ZombiedAt(s3, Me(s, c));
  }

  lemma WaitParents(s: State, c: nat, p: nat)
    requires Inv(s) && Enabled(s, Wait(c))
    ensures ParentChange(s, Wait(c), p, Par(s, p), Par(Next(s, Wait(c)), p))
  {
    hide OnCpus, Slotted, Manned, Alone, Waiters, Joiners, Family, Births, Stacks, Shaped, T, P, Reap, HasChild,
      Leave, Set;
    var y := Me(s, c);
    var r := FirstExited(s.procs, y.p, 0);
    if r.Some? {
      ReapingAt(s, r.value);
      ReapKeeps(s, c, r.value);
      var s1 := Reap(s, r.value);
      CurrentParents(s1, c, Cur(s1, c).(duty := Plain), p);
    } else {
      CurrentParents(s, c, Cur(s, c).(duty := Plain), p);
      CurrentParents(s, c, Cur(s, c).(state := Sleeping, chan := OnProc(y.p), duty := Waiting), p);
    }
  }

  lemma NoParentYet(s: State, p: nat)
    requires Family(s) && Unborn(s, p)
    ensures Par(s, p) == None
  {
    hide T, P;
  }

  lemma BirthParents(s: State, step: Step, p: nat)
    requires Inv(s) && Enabled(s, step) && (step.Fork? || step.Create? || step.Forked?)
    ensures ParentChange(s, step, p, Par(s, p), Par(Next(s, step), p))
  {
    hide OnCpus, Slotted, Manned, Alone, Waiters, Joiners, Family, Births, Stacks, T, P, Allot, Born, Deliver;
    var c := step.c;
    Current(s, c);
    var q := Me(s, c).p;
    NoProc(s, q);
    if step.Fork? {
      var np := FirstUnused(s.procs, 0).value;
      RoomForBirth(s, np);
      BornAt(s, np, step.k);
      CurrentParents(Born(s, np, step.k), c, Cur(Born(s, np, step.k), c).(duty := Forking(np)), p);
    } else if step.Create? {
      RoomForThread(s, c);
      AllotedAt(s, q, step.k);
    } else {
      var np := Cur(s, c).duty.np;
      Forker(s, c, np);
      NoParentYet(s, np);
      CurrentParents(s, c, Cur(s, c).(duty := Plain), p);
      StayKeeps(s, c, Plain);
      DeliveredAt(Stay(s, c, Plain), np, q);
    }
  }

  lemma Parentage(s: State, step: Step, p: nat)
    requires Inv(s) && Enabled(s, step)
    ensures ParentChange(s, step, p, Par(s, p), Par(Next(s, step), p))
  {
    hide Inv, T;
    match step
    case Schedule(c, y) => MovedAt(s, y, T(s, y).(state := Running, cpu := c), Next(s, step));
    case Yield(c) => CurrentParents(s, c, Cur(s, c).(state := Runnable), p);
    case SleepOn(c, ch) => CurrentParents(s, c, Cur(s, c).(state := Sleeping, chan := ch), p);
    case Wakeup(ch) =>
    case Kill(q) =>
    case Exit(c) =>
    case ExitThread(c) =>
    case ExitProcess(c) => ExitProcessParents(s, c, p);
    case Wait(c) => WaitParents(s, c, p);
    case Fork(c, k) => BirthParents(s, step, p);
    case Forked(c) => BirthParents(s, step, p);
    case Create(c, k) => BirthParents(s, step, p);
    case Join(c, j) =>
    case Take(k) =>
    case Give(k) =>
  }

  // kill reaches every thread of the process, and none of them stays asleep.
  lemma KillMarks(s: State, p: nat, x: Slot)
    requires Slotted(s) && x.p == p && Live(T(s, x))
    ensures T(Interrupt(s, p), x).killed && T(Interrupt(s, p), x).state != Sleeping
  {
    assert SlotOk(x, T(s, x), P(s, x.p));
  }

  // --- the kernel can boot ---

  function Blank(): Thread { Thread(UnusedT, NoChan, false, None, 0, Plain, 0) }

  // The tables after userinit, with nproc slots, ncpu CPUs and the pages ks free.
  function Boot(nproc: nat, ncpu: nat, stack: Page, ks: seq<Page>): State
    requires nproc > 0
  {
    State(
      seq(nproc, p => if p == 0 then Proc(UsedP, None, 1) else Proc(UnusedP, None, 0)),
      map p, i | 0 <= p < nproc && 0 <= i < NTHREADS ::
        Slot(p, i) := if p == 0 && i == 0 then Thread(Runnable, NoChan, false, Some(stack), 1, Plain, 0) else Blank(),
      seq(ncpu, _ => None),
      map k | k in ks + [stack] :: if k == stack then Stack(Slot(0, 0)) else Free,
      0)
  }

  lemma Boots(nproc: nat, ncpu: nat, stack: Page, ks: seq<Page>)
    requires nproc > 0
    ensures Init(Boot(nproc, ncpu, stack, ks)) && Reachable(Boot(nproc, ncpu, stack, ks))
  {
    var s := Boot(nproc, ncpu, stack, ks);
    forall x ensures x in s.threads <==> x.p < nproc && x.i < NTHREADS {
      if x.p < nproc && x.i < NTHREADS { assert x == Slot(x.p, x.i); }
    }
    assert stack in s.pages && s.pages[stack] == Stack(Slot(s.init, 0));
    assert Slot(0, 0) in s.threads;
    assert Init(s);
    assert Runs(s, [], s);
  }

  // --- more threads than the table has room for ---

  // The thread on CPU c, of process p with n threads so far, may create threads
  // on the pages ks.
  ghost predicate Creator(s: State, c: nat, p: nat, n: nat, ks: seq<Page>) {
    && Inv(s) && Busy(s, c) && Cur(s, c).duty == Plain && Me(s, c).p == p && P(s, p).tnum == n
    && Distinct(ks) && forall i | 0 <= i < |ks| :: ks[i] in s.pages && s.pages[ks[i]] == Free
  }

  function Creates(c: nat, ks: seq<Page>): seq<Step> {
    if ks == [] then [] else [Create(c, ks[0])] + Creates(c, ks[1..])
  }

  lemma CreateOne(s: State, c: nat, p: nat, n: nat, ks: seq<Page>)
    requires Creator(s, c, p, n, ks) && ks != [] && n < NTHREADS
    ensures Enabled(s, Create(c, ks[0])) && Creator(Next(s, Create(c, ks[0])), c, p, n + 1, ks[1..])
  {
    hide Inv, Shaped, T, P, Allot;
    StepKeeps(s, Create(c, ks[0]));
    Current(s, c);
    IsShaped(s);
    NoProc(s, p);
    AllotedAt(s, p, ks[0]);
    SlotTaken(s, c);
  }

  // The next thread of the running one's process is another.
  lemma SlotTaken(s: State, c: nat)
    requires Inv(s) && Busy(s, c)
    ensures Me(s, c) != Slot(Me(s, c).p, P(s, Me(s, c).p).tnum)
  {
    hide Inv;
    Current(s, c);
  }

  lemma {:induction false} CreatesRun(s: State, c: nat, p: nat, n: nat, ks: seq<Page>)
    requires Creator(s, c, p, n, ks) && n + |ks| <= NTHREADS
    ensures exists s' :: Runs(s, Creates(c, ks), s') && Creator(s', c, p, n + |ks|, [])
    decreases |ks|
  {
    hide Creator, Enabled, Next;
    if ks == [] {
      assert Creates(c, ks) == [] && Runs(s, [], s);
      assert Creator(s, c, p, n + |ks|, []);
    } else {
      CreateOne(s, c, p, n, ks);
      var s1 := Next(s, Create(c, ks[0]));
      CreatesRun(s1, c, p, n + 1, ks[1..]);
      var s' :| Runs(s1, Creates(c, ks[1..]), s') && Creator(s', c, p, n + 1 + |ks[1..]|, []);
      var steps := Creates(c, ks);
      assert steps[0] == Create(c, ks[0]) && steps[1..] == Creates(c, ks[1..]);
      assert Runs(s, steps, s');
    }
  }

  lemma FirstRuns(nproc: nat, ncpu: nat, stack: Page, ks: seq<Page>)
    requires nproc > 0 && ncpu > 0 && Distinct(ks) && stack !in ks
    ensures var s, step := Boot(nproc, ncpu, stack, ks), Schedule(0, Slot(0, 0));
      Enabled(s, step) && Creator(Next(s, step), 0, 0, 1, ks)
  {
    hide Inv;
    var s, step := Boot(nproc, ncpu, stack, ks), Schedule(0, Slot(0, 0));
    Boots(nproc, ncpu, stack, ks);
    InitHolds(s);
    assert Slot(0, 0) in s.threads;
    StepKeeps(s, step);
  }

  // In every run the slot for a process's next thread is in the table exactly
  // while t_num is below NTHREADS, which allocthread does not test.
  lemma NextSlot(s: State, p: nat)
    requires Reachable(s) && p < |s.procs|
    ensures Slot(p, P(s, p).tnum) in s.threads <==> P(s, p).tnum < NTHREADS
  {
    hide Reachable, Inv;
    ReachableInv(s);
    IsShaped(s);
  }

  // A process that goes on creating threads gets there: with pages enough, its
  // next kthread_create writes past the table.
  lemma ThreadsOverrun(nproc: nat, ncpu: nat, stack: Page, ks: seq<Page>)
    requires nproc > 0 && ncpu > 0 && |ks| == NTHREADS - 1 && Distinct(ks) && stack !in ks
    ensures exists s ::
              && Reachable(s) && Busy(s, 0) && Cur(s, 0).duty == Plain
              && P(s, Me(s, 0).p).tnum == NTHREADS && Slot(Me(s, 0).p, NTHREADS) !in s.threads
  {
    hide Init, Enabled, Next, Inv, Boot;
    var s0, step := Boot(nproc, ncpu, stack, ks), Schedule(0, Slot(0, 0));
    Boots(nproc, ncpu, stack, ks);
    FirstRuns(nproc, ncpu, stack, ks);
    CreatesRun(Next(s0, step), 0, 0, 1, ks);
    var s :| Runs(Next(s0, step), Creates(0, ks), s) && Creator(s, 0, 0, NTHREADS, []);
    var steps := [step] + Creates(0, ks);
    assert steps[0] == step && steps[1..] == Creates(0, ks);
    assert Runs(s0, steps, s);
    assert Reachable(s);
    IsShaped(s);
  }
}
