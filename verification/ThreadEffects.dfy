// What each critical section of proc.c does to the tables, entry by entry, in
// every state of every run, and when it can be entered.
module ThreadEffects {
  import opened Blocks
  import opened Threads
  import opened ThreadRuns

  // Nothing but thread x and the CPUs has changed.
  ghost predicate Only(s: State, s': State, x: Slot) {
    && s' == s.(threads := s'.threads, cpus := s'.cpus)
    && (forall y {:trigger T(s', y)} | y != x :: T(s', y) == T(s, y))
  }

  predicate SleepsOn(t: Thread, ch: Chan) { t.state == Sleeping && t.chan == ch }

  function Awake(t: Thread): Thread { t.(state := Runnable) }

  lemma OnlyMoved(s: State, x: Slot, t: Thread, s': State)
    requires Moved(s, x, t, s')
    ensures Only(s, s', x) && T(s', x) == t
  {
    hide T, Moved;
    MovedAt(s, x, t, s');
    MovedRest(s, x, t, s');
  }

  lemma MovedRest(s: State, x: Slot, t: Thread, s': State)
    requires Moved(s, x, t, s')
    ensures s' == s.(threads := s'.threads, cpus := s'.cpus)
  {
  }

  // --- scheduler, yield and sleep ---

  lemma ScheduleEffect(s: State, c: nat, x: Slot)
    requires Inv(s)
    ensures Enabled(s, Schedule(c, x)) <==> c < |s.cpus| && s.cpus[c] == None && T(s, x).state == Runnable
    ensures Enabled(s, Schedule(c, x)) ==>
              var s' := Next(s, Schedule(c, x));
              Only(s, s', x) && T(s', x) == T(s, x).(state := Running, cpu := c) && s'.cpus == s.cpus[c := Some(x)]
  {
    hide OnCpus, Manned, Alone, Waiters, Joiners, Family, Births, Stacks, Only;
    assert SlotOk(x, T(s, x), P(s, x.p));
    if Enabled(s, Schedule(c, x)) {
      OnlyMoved(s, x, T(s, x).(state := Running, cpu := c), Next(s, Schedule(c, x)));
    }
  }

  lemma YieldEffect(s: State, c: nat)
    requires Inv(s) && c < |s.cpus| && s.cpus[c].Some?
    ensures Enabled(s, Yield(c))
    ensures var x, s' := s.cpus[c].value, Next(s, Yield(c));
            Only(s, s', x) && T(s', x) == T(s, x).(state := Runnable) && s'.cpus == s.cpus[c := None]
  {
    hide Inv, Only, T;
    Current(s, c);
    OnlyMoved(s, Me(s, c), Cur(s, c).(state := Runnable), Next(s, Yield(c)));
  }

  // sleep puts the caller to sleep on ch.
  lemma SleepEffect(s: State, c: nat, ch: Chan)
    requires Inv(s) && c < |s.cpus| && s.cpus[c].Some?
    ensures var x := s.cpus[c].value;
            Enabled(s, SleepOn(c, ch)) <==> T(s, x).duty != Waiting && !T(s, x).duty.Joining?
    ensures Enabled(s, SleepOn(c, ch)) ==>
              var x, s' := s.cpus[c].value, Next(s, SleepOn(c, ch));
              && Only(s, s', x) && s'.cpus == s.cpus[c := None]
              && T(s', x) == T(s, x).(state := Sleeping, chan := ch)
  {
    hide Inv, Only, T;
    Current(s, c);
    if Enabled(s, SleepOn(c, ch)) {
      OnlyMoved(s, Me(s, c), Cur(s, c).(state := Sleeping, chan := ch), Next(s, SleepOn(c, ch)));
    }
  }

  // --- wakeup and kill ---

  lemma WakeExact(s: State, ch: Chan)
    requires Inv(s)
    ensures Inv(Wake(s, ch)) && Wake(s, ch) == s.(threads := Wake(s, ch).threads)
    ensures forall y {:trigger T(Wake(s, ch), y)} ::
              T(Wake(s, ch), y) == if SleepsOn(T(s, y), ch) then Awake(T(s, y)) else T(s, y)
  {
    hide OnCpus, Manned, Alone, Waiters, Joiners, Family, Births, Stacks, T, Wake;
    WakeKeeps(s, ch);
    WakeWakes(s, ch);
    forall y ensures SleepsOn(T(s, y), ch) <==> Roused(s, y, ch) { assert SlotOk(y, T(s, y), P(s, y.p)); }
  }

  // wakeup makes exactly the threads asleep on the channel RUNNABLE.
  lemma WakeupEffect(s: State, ch: Chan)
    requires Inv(s)
    ensures Enabled(s, Wakeup(ch))
    ensures var s' := Next(s, Wakeup(ch));
            && s' == s.(threads := s'.threads)
            && (forall y {:trigger T(s', y)} ::
                  T(s', y) ==
                    if T(s, y).state == Sleeping && T(s, y).chan == ch then T(s, y).(state := Runnable) else T(s, y))
  {
    hide Inv, T, Wake;
    WakeExact(s, ch);
  }

  // A sleeper is RUNNABLE after a wakeup of its channel.
  lemma SleepThenWakeup(s: State, c: nat, ch: Chan, s1: State, s2: State)
    requires Inv(s) && c < |s.cpus| && s.cpus[c].Some?
    requires Took(s, SleepOn(c, ch), s1) && Took(s1, Wakeup(ch), s2)
    ensures var x := s.cpus[c].value;
            && SleepsOn(T(s1, x), ch) && T(s2, x) == T(s, x).(state := Runnable, chan := ch)
            && s2.cpus == s.cpus[c := None]
  {
    hide Inv, Only, T, Wake, Next, Enabled;
    StepKeeps(s, SleepOn(c, ch));
    SleepEffect(s, c, ch);
    WakeupEffect(s1, ch);
  }

  // Every thread of p is marked and made RUNNABLE if it slept; nothing else
  // changes.
  ghost predicate Marked(s: State, s': State, p: nat) {
    && s' == s.(threads := s'.threads)
    && (forall y {:trigger T(s', y)} ::
          T(s', y) ==
            if y.p == p && y.i < P(s, p).tnum
            then T(s, y).(killed := true, state := if T(s, y).state == Sleeping then Runnable else T(s, y).state)
            else T(s, y))
  }

  lemma InterruptExact(s: State, p: nat)
    requires Shaped(s) && p < |s.procs|
    ensures Marked(s, Interrupt(s, p), p)
  {
    var s' := Interrupt(s, p);
    assert s'.threads.Keys == s.threads.Keys;
    forall y: Slot | y.p == p && y.i < P(s, p).tnum ensures y in s.threads {}
  }

  lemma KillEffect(s: State, p: nat)
    requires Inv(s)
    ensures Enabled(s, Kill(p)) <==> p < |s.procs|
    ensures Enabled(s, Kill(p)) ==> Marked(s, Next(s, Kill(p)), p)
  {
    hide Inv, Interrupt, Marked;
    IsShaped(s);
    if Enabled(s, Kill(p)) { InterruptExact(s, p); }
  }

  lemma ExitEffect(s: State, c: nat)
    requires Inv(s) && c < |s.cpus| && s.cpus[c].Some?
    ensures Enabled(s, Exit(c)) <==> T(s, s.cpus[c].value).duty == Plain && !T(s, s.cpus[c].value).killed
    ensures Enabled(s, Exit(c)) ==> Marked(s, Next(s, Exit(c)), s.cpus[c].value.p)
  {
    hide Inv, Interrupt, Marked, T;
    IsShaped(s);
    Current(s, c);
    if Enabled(s, Exit(c)) { InterruptExact(s, Me(s, c).p); }
  }

  // --- exit_thread ---

  // The live threads of p below index n.
  ghost function LiveBelow(s: State, p: nat, n: nat): set<Slot> {
    set y | y in s.threads && y.p == p && y.i < n && Live(s.threads[y])
  }

  // The other live threads of x's process.
  ghost function Others(s: State, x: Slot): set<Slot> {
    set y | y in s.threads && y.p == x.p && y != x && Live(s.threads[y])
  }

  lemma {:induction false} CountIs(s: State, p: nat, n: nat)
    ensures LiveCount(s, p, n) == |LiveBelow(s, p, n)|
  {
    if n == 0 {
      assert LiveBelow(s, p, n) == {};
    } else {
      hide LiveBelow, T, Live;
      CountIs(s, p, n - 1);
      BelowNext(s, p, n - 1);
    }
  }

  lemma BelowNext(s: State, p: nat, n: nat)
    ensures var y := Slot(p, n);
            && y !in LiveBelow(s, p, n)
            && LiveBelow(s, p, n + 1) == if Live(T(s, y)) then LiveBelow(s, p, n) + {y} else LiveBelow(s, p, n)
  {
    forall x | x in LiveBelow(s, p, n + 1) && x.i == n ensures x == Slot(p, n) {}
  }

  lemma CountsOthers(s: State, x: Slot)
    requires Slotted(s) && x in s.threads && Live(T(s, x))
    ensures LiveCount(s, x.p, P(s, x.p).tnum) == |Others(s, x)| + 1
  {
    var n := P(s, x.p).tnum;
    CountIs(s, x.p, n);
    forall y | y in s.threads && y.p == x.p && Live(s.threads[y]) ensures y.i < n {
      assert SlotOk(y, T(s, y), P(s, y.p));
    }
    assert LiveBelow(s, x.p, n) == Others(s, x) + {x};
  }

  // The last live thread goes on to exit_process.  Any other becomes a zombie
  // and wakes those who join it, and also those asleep on the process if it
  // leaves one thread behind.
  lemma ExitThreadEffect(s: State, c: nat)
    requires Inv(s) && c < |s.cpus| && s.cpus[c].Some?
    ensures Enabled(s, ExitThread(c)) <==> T(s, s.cpus[c].value).duty == Plain
    ensures Enabled(s, ExitThread(c)) ==>
              var x, s' := s.cpus[c].value, Next(s, ExitThread(c));
              if |Others(s, x)| == 0 then
                Only(s, s', x) && T(s', x) == T(s, x).(duty := Exiting) && s'.cpus == s.cpus
              else
                && s' == s.(threads := s'.threads, cpus := s.cpus[c := None])
                && T(s', x) == T(s, x).(state := ZombieT)
                && (forall y {:trigger T(s', y)} | y != x ::
                      T(s', y) ==
                        if T(s, y).state == Sleeping
                           && (T(s, y).chan == OnThread(x) || (T(s, y).chan == OnProc(x.p) && |Others(s, x)| == 1))
                        then T(s, y).(state := Runnable) else T(s, y))
  {
    hide OnCpus, Manned, Alone, Waiters, Joiners, Family, Births, Stacks, T, P, Others, Only, Wake;
    Current(s, c);
    var x := Me(s, c);
    if Enabled(s, ExitThread(c)) {
      var s' := Next(s, ExitThread(c));
      CountsOthers(s, x);
      if |Others(s, x)| == 0 {
        OnlyMoved(s, x, Cur(s, c).(duty := Exiting), s');
      } else {
        ExitThreadWakes(s, c, |Others(s, x)| == 1);
      }
    }
  }

  lemma ExitThreadWakes(s: State, c: nat, last: bool)
    requires Inv(s) && Busy(s, c)
    ensures var x := Me(s, c);
            var s1 := if last then Wake(s, OnProc(x.p)) else s;
            var s2 := Wake(s1, OnThread(x));
            && Busy(s2, c)
            && var s' := Leave(s2, c, T(s2, x).(state := ZombieT));
               && s' == s.(threads := s'.threads, cpus := s.cpus[c := None])
               && T(s', x) == T(s, x).(state := ZombieT)
               && (forall y {:trigger T(s', y)} | y != x ::
                     T(s', y) ==
                       if T(s, y).state == Sleeping
                          && (T(s, y).chan == OnThread(x) || (T(s, y).chan == OnProc(x.p) && last))
                       then T(s, y).(state := Runnable) else T(s, y))
  {
    hide Inv, T, Wake, Only;
    Current(s, c);
    var x := Me(s, c);
    if last { WakeExact(s, OnProc(x.p)); }
    var s1 := if last then Wake(s, OnProc(x.p)) else s;
    WakeExact(s1, OnThread(x));
    var s2 := Wake(s1, OnThread(x));
    assert T(s1, x) == T(s, x) && T(s2, x) == T(s, x);
    Current(s2, c);
    var s' := Leave(s2, c, T(s2, x).(state := ZombieT));
    OnlyMoved(s2, x, T(s2, x).(state := ZombieT), s');
    OnlyParts(s2, s', x);
  }

  lemma OnlyParts(s: State, s': State, x: Slot)
    requires Only(s, s', x)
    ensures s' == s.(threads := s'.threads, cpus := s'.cpus)
    ensures forall y {:trigger T(s', y)} | y != x :: T(s', y) == T(s, y)
  {
  }

  // --- exit_process ---

  ghost predicate ZombieChild(s: State, q: nat, p: nat) {
    q < |s.procs| && s.procs[q].parent == Some(p) && s.procs[q].state == ZombieP
  }

  // The parent is woken, the children pass to init, which is woken if one of
  // them is a zombie, and the process and its last thread become zombies.
  lemma ExitProcessEffect(s: State, c: nat)
    requires Inv(s) && c < |s.cpus| && s.cpus[c].Some?
    ensures Enabled(s, ExitProcess(c)) <==>
              T(s, s.cpus[c].value).duty == Exiting && s.cpus[c].value.p != s.init
    ensures Enabled(s, ExitProcess(c)) ==>
              var x, s' := s.cpus[c].value, Next(s, ExitProcess(c));
              && P(s, x.p).parent.Some? && s'.cpus == s.cpus[c := None] && s'.pages == s.pages && s'.init == s.init
              && T(s', x) == T(s, x).(state := ZombieT, duty := Plain)
              && (forall y {:trigger T(s', y)} | y != x ::
                    T(s', y) ==
                      if T(s, y).state == Sleeping
                         && (T(s, y).chan == OnProc(P(s, x.p).parent.value)
                             || (T(s, y).chan == OnProc(s.init) && exists q :: ZombieChild(s, q, x.p)))
                      then T(s, y).(state := Runnable) else T(s, y))
              && (forall q {:trigger P(s', q)} ::
                    P(s', q) ==
                      if q == x.p then P(s, q).(state := ZombieP)
                      else if P(s, q).parent == Some(x.p) then P(s, q).(parent := Some(s.init))
                      else P(s, q))
  {
    hide Inv, T, P, Abandon, ZombieChild;
    Current(s, c);
    if Enabled(s, ExitProcess(c)) {
      var x := Me(s, c);
      AbandonKeeps(s, c);
      AbandonExact(s, c);
      var s3 := Abandon(s, x.p);
      IsShaped(s3);
      Current(s3, c);
      ZombiedAt(s3, x);
    }
  }

  // After the wakeups and the reparenting, before the process is a zombie.
  ghost predicate AbandonedBy(s: State, x: Slot, s': State) {
    && P(s, x.p).parent.Some? && P(s, x.p).parent != Some(x.p)
    && s'.cpus == s.cpus && s'.pages == s.pages && s'.init == s.init && T(s', x) == T(s, x)
    && (forall y {:trigger T(s', y)} ::
          T(s', y) ==
            if T(s, y).state == Sleeping
               && (T(s, y).chan == OnProc(P(s, x.p).parent.value)
                   || (T(s, y).chan == OnProc(s.init) && exists q :: ZombieChild(s, q, x.p)))
            then T(s, y).(state := Runnable) else T(s, y))
    && (forall q {:trigger P(s', q)} ::
          P(s', q) == if P(s, q).parent == Some(x.p) then P(s, q).(parent := Some(s.init)) else P(s, q))
  }

  ghost predicate Deserted(s: State, c: nat) { Busy(s, c) && AbandonedBy(s, Me(s, c), Abandon(s, Me(s, c).p)) }

  lemma AbandonExact(s: State, c: nat)
    requires Inv(s) && Enabled(s, ExitProcess(c))
    ensures Deserted(s, c)
  {
    hide OnCpus, Slotted, Manned, Alone, Waiters, Joiners, Family, Births, Stacks, Shaped, T, P, Wake, Reparent,
      HasZombie, ZombieChild;
    Current(s, c);
    var x := Me(s, c);
    ParentOf(s, x);
    HasZombieIs(s, x.p);
    var ch := OnProc(P(s, x.p).parent.value);
    WakeExact(s, ch);
    var s1 := Wake(s, ch);
    SameProcs(s, s1);
    if HasZombie(s.procs, x.p) { WakeExact(s1, OnProc(s.init)); }
    var s2 := if HasZombie(s.procs, x.p) then Wake(s1, OnProc(s.init)) else s1;
    SameProcs(s1, s2);
    IsShaped(s2);
    ReparentedAt(s2, x.p);
  }

  lemma HasZombieIs(s: State, p: nat)
    ensures HasZombie(s.procs, p) <==> exists q :: ZombieChild(s, q, p)
  {
    if HasZombie(s.procs, p) {
      var q :| 0 <= q < |s.procs| && s.procs[q].parent == Some(p) && s.procs[q].state == ZombieP;
      assert ZombieChild(s, q, p);
    }
  }

  // --- wait ---

  // wait returns the first zombie child: its slot and the slots of its dead
  // threads become unused, and their stacks free.
  lemma WaitCollects(s: State, c: nat, q: nat)
    requires Inv(s) && c < |s.cpus| && s.cpus[c].Some?
    requires T(s, s.cpus[c].value).duty == Plain || T(s, s.cpus[c].value).duty == Waiting
    requires ZombieChild(s, q, s.cpus[c].value.p) && forall r | 0 <= r < q :: !ZombieChild(s, r, s.cpus[c].value.p)
    ensures Enabled(s, Wait(c))
    ensures var x, s' := s.cpus[c].value, Next(s, Wait(c));
            && s'.cpus == s.cpus && s'.init == s.init && s'.pages.Keys == s.pages.Keys
            && T(s', x) == T(s, x).(duty := Plain)
            && (forall y {:trigger T(s', y)} | y != x ::
                  T(s', y) ==
                    if y.p == q && T(s, y).state == ZombieT
                    then T(s, y).(state := UnusedT, kstack := None, tid := 0, killed := false) else T(s, y))
            && (forall r {:trigger P(s', r)} ::
                  P(s', r) == if r == q then P(s, r).(state := UnusedP, parent := None) else P(s, r))
            && (forall k | k in s.pages ::
                  s'.pages[k] ==
                    if s.pages[k].Stack? && s.pages[k].x.p == q && T(s, s.pages[k].x).state == ZombieT then Free
                    else s.pages[k])
  {
    hide OnCpus, Manned, Alone, Waiters, Joiners, Family, Births, Stacks, Shaped, T, P, Reap, ZombieChild, Reaped,
      Only;
    Current(s, c);
    var x := Me(s, c);
    FirstIs(s, x.p, q, 0);
    ReapingAt(s, q);
    ReapKeeps(s, c, q);
    var s1 := Reap(s, q);
    Current(s1, c);
    var s' := Next(s, Wait(c));
    OnlyMoved(s1, x, Cur(s1, c).(duty := Plain), s');
    OnlyParts(s1, s', x);
    SameProcs(s1, s');
    forall y ensures Reaped(s, q, y) <==> y.p == q && T(s, y).state == ZombieT { ReapedIs(s, q, y); }
  }

  lemma ReapedIs(s: State, q: nat, y: Slot)
    requires Slotted(s)
    ensures Reaped(s, q, y) <==> y.p == q && T(s, y).state == ZombieT
  {
    hide T, P;
    assert SlotOk(y, T(s, y), P(s, y.p));
  }

  lemma {:induction false} FirstIs(s: State, p: nat, q: nat, i: nat)
    requires ZombieChild(s, q, p) && i <= q && forall r | i <= r < q :: !ZombieChild(s, r, p)
    ensures q < |s.procs| && s.procs[q].state == ZombieP && FirstExited(s.procs, p, i) == Some(q)
    decreases q - i
  {
    if i < q {
      assert !ZombieChild(s, i, p);
      FirstIs(s, p, q, i + 1);
    }
  }

  // Without a zombie child wait gives up if there is no child or the caller has
  // been killed, and otherwise sleeps on its own process.
  lemma WaitWaits(s: State, c: nat)
    requires Inv(s) && c < |s.cpus| && s.cpus[c].Some?
    requires forall q :: !ZombieChild(s, q, s.cpus[c].value.p)
    ensures var x := s.cpus[c].value; Enabled(s, Wait(c)) <==> T(s, x).duty == Plain || T(s, x).duty == Waiting
    ensures Enabled(s, Wait(c)) ==>
              var x, s' := s.cpus[c].value, Next(s, Wait(c));
              && Only(s, s', x)
              && if T(s, x).killed || forall q :: P(s, q).parent != Some(x.p) then
                   T(s', x) == T(s, x).(duty := Plain) && s'.cpus == s.cpus
                 else
                   && T(s', x) == T(s, x).(state := Sleeping, chan := OnProc(x.p), duty := Waiting)
                   && s'.cpus == s.cpus[c := None]
  {
    hide Inv, T, Only, HasChild;
    Current(s, c);
    var x := Me(s, c);
    if Enabled(s, Wait(c)) {
      var s' := Next(s, Wait(c));
      ExitedIs(s, x.p);
      HasChildIs(s, x.p);
      if !HasChild(s.procs, x.p) || Cur(s, c).killed {
        OnlyMoved(s, x, Cur(s, c).(duty := Plain), s');
      } else {
        OnlyMoved(s, x, Cur(s, c).(state := Sleeping, chan := OnProc(x.p), duty := Waiting), s');
      }
    }
  }

  lemma ExitedIs(s: State, p: nat)
    ensures FirstExited(s.procs, p, 0).Some? ==> exists q :: ZombieChild(s, q, p)
  {
    var r := FirstExited(s.procs, p, 0);
    if r.Some? { assert ZombieChild(s, r.value, p); }
  }

  lemma HasChildIs(s: State, p: nat)
    ensures HasChild(s.procs, p) <==> !forall q :: P(s, q).parent != Some(p)
  {
    if HasChild(s.procs, p) {
      var q :| 0 <= q < |s.procs| && s.procs[q].parent == Some(p);
      assert P(s, q).parent == Some(p);
    }
  }

  // --- fork and kthread_create ---

  // x is a new thread in state st on stack k, the only one or the last one of
  // its process.
  ghost predicate NewThread(s: State, s': State, x: Slot, k: Page, st: TState) {
    && T(s', x) == T(s, x).(state := st, killed := false, kstack := Some(k), tid := x.i + 1, duty := Plain)
    && (forall q {:trigger P(s', q)} ::
          P(s', q) == if q == x.p then P(s, q).(state := UsedP, tnum := x.i + 1) else P(s, q))
    && s'.pages == s.pages[k := Stack(x)] && s'.cpus == s.cpus && s'.init == s.init
  }

  // fork takes the first unused slot, whose thread 0 is an embryo until the
  // caller comes back to it.
  lemma ForkEffect(s: State, c: nat, k: Page, np: nat)
    requires Inv(s) && c < |s.cpus| && s.cpus[c].Some?
    requires np < |s.procs| && s.procs[np].state == UnusedP && forall p | 0 <= p < np :: s.procs[p].state != UnusedP
    ensures Enabled(s, Fork(c, k)) <==> T(s, s.cpus[c].value).duty == Plain && k in s.pages && s.pages[k] == Free
    ensures Enabled(s, Fork(c, k)) ==>
              var x, n, s' := s.cpus[c].value, Slot(np, 0), Next(s, Fork(c, k));
              && NewThread(s, s', n, k, Embryo)
              && x != n && T(s', x) == T(s, x).(duty := Forking(np))
              && (forall y {:trigger T(s', y)} | y != x && y != n :: T(s', y) == T(s, y))
  {
    hide Inv, T, P, Born, Only;
    FirstUnusedIs(s.procs, np, 0);
    Current(s, c);
    NoProc(s, np);
    var x := Me(s, c);
    if Enabled(s, Fork(c, k)) {
      IsShaped(s);
      BornAt(s, np, k);
      RoomForBirth(s, np);
      var s1, s' := Born(s, np, k), Next(s, Fork(c, k));
      AllotedKeeps(s, Slot(np, 0), k, Embryo, s1);
      Current(s1, c);
      OnlyMoved(s1, x, Cur(s1, c).(duty := Forking(np)), s');
      OnlyParts(s1, s', x);
      SameProcs(s1, s');
    }
  }

  lemma {:induction false} FirstUnusedIs(ps: seq<Proc>, np: nat, i: nat)
    requires i <= np < |ps| && ps[np].state == UnusedP && forall p | i <= p < np :: ps[p].state != UnusedP
    ensures FirstUnused(ps, i) == Some(np)
    decreases np - i
  {
    if i < np { FirstUnusedIs(ps, np, i + 1); }
  }

  // The rest of fork: the child gets its parent, and its thread may run.
  lemma ForkedEffect(s: State, c: nat)
    requires Inv(s) && c < |s.cpus| && s.cpus[c].Some?
    ensures Enabled(s, Forked(c)) <==> T(s, s.cpus[c].value).duty.Forking?
    ensures Enabled(s, Forked(c)) ==>
              var x, s' := s.cpus[c].value, Next(s, Forked(c));
              var n := Slot(T(s, x).duty.np, 0);
              && x != n && T(s, n).state == Embryo
              && T(s', n) == T(s, n).(state := Runnable) && T(s', x) == T(s, x).(duty := Plain)
              && (forall y {:trigger T(s', y)} | y != x && y != n :: T(s', y) == T(s, y))
              && (forall q {:trigger P(s', q)} ::
                    P(s', q) == if q == n.p then P(s, q).(parent := Some(x.p)) else P(s, q))
              && s'.cpus == s.cpus && s'.pages == s.pages && s'.init == s.init
  {
    hide Inv, T, P, Deliver, Only;
    Current(s, c);
    var x := Me(s, c);
    if Enabled(s, Forked(c)) {
      var np := Cur(s, c).duty.np;
      Forker(s, c, np);
      var s1 := Stay(s, c, Plain);
      OnlyMoved(s, x, Cur(s, c).(duty := Plain), s1);
      OnlyParts(s, s1, x);
      SameProcs(s, s1);
      StayKeeps(s, c, Plain);
      IsShaped(s1);
      DeliveredAt(s1, np, x.p);
    }
  }

  lemma CreateEffect(s: State, c: nat, k: Page)
    requires Inv(s) && c < |s.cpus| && s.cpus[c].Some?
    ensures var x := s.cpus[c].value;
            Enabled(s, Create(c, k)) <==>
              T(s, x).duty == Plain && P(s, x.p).tnum < NTHREADS && k in s.pages && s.pages[k] == Free
    ensures Enabled(s, Create(c, k)) ==>
              var x, s' := s.cpus[c].value, Next(s, Create(c, k));
              var n := Slot(x.p, P(s, x.p).tnum);
              NewThread(s, s', n, k, Runnable) && forall y {:trigger T(s', y)} | y != n :: T(s', y) == T(s, y)
  {
    hide Inv, T, P, Allot;
    Current(s, c);
    if Enabled(s, Create(c, k)) {
      var p := Me(s, c).p;
      NoProc(s, p);
      IsShaped(s);
      AllotedAt(s, p, k);
    }
  }

  // --- kthread_join, and kalloc and kfree by others ---

  lemma JoinEffect(s: State, c: nat, j: nat)
    requires Inv(s) && c < |s.cpus| && s.cpus[c].Some?
    ensures var x := s.cpus[c].value;
            Enabled(s, Join(c, j)) <==>
              (T(s, x).duty == Plain && j < P(s, x.p).tnum) || T(s, x).duty == Joining(j)
    ensures Enabled(s, Join(c, j)) ==>
              var x, s' := s.cpus[c].value, Next(s, Join(c, j));
              var y := Slot(x.p, j);
              && Only(s, s', x)
              && if T(s, y).state == ZombieT then T(s', x) == T(s, x).(duty := Plain) && s'.cpus == s.cpus
                 else
                   && T(s', x) == T(s, x).(state := Sleeping, chan := OnThread(y), duty := Joining(j))
                   && s'.cpus == s.cpus[c := None]
  {
    hide OnCpus, Manned, Alone, Waiters, Joiners, Family, Births, Stacks, T, Only;
    Current(s, c);
    var x := Me(s, c);
    var y := Slot(x.p, j);
    if Enabled(s, Join(c, j)) {
      assert SlotOk(y, T(s, y), P(s, y.p));
      var s' := Next(s, Join(c, j));
      if T(s, y).state == ZombieT {
        OnlyMoved(s, x, Cur(s, c).(duty := Plain), s');
      } else {
        OnlyMoved(s, x, Cur(s, c).(state := Sleeping, chan := OnThread(y), duty := Joining(j)), s');
      }
    }
  }

  lemma PageEffect(s: State, k: Page)
    ensures Enabled(s, Take(k)) <==> k in s.pages && s.pages[k] == Free
    ensures Enabled(s, Take(k)) ==> Next(s, Take(k)) == s.(pages := s.pages[k := Elsewhere])
    ensures Enabled(s, Give(k)) <==> k in s.pages && s.pages[k] == Elsewhere
    ensures Enabled(s, Give(k)) ==> Next(s, Give(k)) == s.(pages := s.pages[k := Free])
  {
  }
}
