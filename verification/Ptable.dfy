// The process table, updated in place by the loops of proc.c.  Each method is
// one critical section under ptable.lock and is shown to take one step of the
// protocol.
module Ptable {
  import opened Blocks
  import opened Threads
  import opened ThreadRuns
  import opened ThreadEffects

  datatype WaitResult = Collected(q: nat) | GaveUp | FellAsleep

  // --- wakeups commute with changes that keep every t_num ---

  ghost predicate SameSizes(s: State, s': State) {
    && |s'.procs| == |s.procs|
    && (forall p | 0 <= p < |s.procs| :: s'.procs[p].tnum == s.procs[p].tnum)
  }

  lemma WakeSame(s: State, s': State, ch: Chan)
    requires SameSizes(s, s') && s'.threads == s.threads
    ensures Wake(s', ch).threads == Wake(s, ch).threads
  {
    forall x | x in s.threads ensures Roused(s', x, ch) == Roused(s, x, ch) {}
  }

  lemma WakeTwice(s: State, ch: Chan)
    requires Shaped(s)
    ensures Wake(Wake(s, ch), ch) == Wake(s, ch)
  {
    var s1 := Wake(s, ch);
    forall x | x in s.threads ensures !Roused(s1, x, ch) {}
    assert Wake(s1, ch).threads == s1.threads;
  }

  lemma WakeAgain(s: State, s1: State, s2: State, ch: Chan)
    requires Shaped(s) && (s1 == s || s1 == Wake(s, ch))
    requires SameSizes(s1, s2) && s2.threads == s1.threads && s2.init == s.init
    ensures Shaped(s2) && Wake(s2, ch).threads == Wake(s, ch).threads
  {
    WakeTwice(s, ch);
    WakeSame(s1, s2, ch);
    assert s1.threads.Keys == s.threads.Keys;
  }

  // What wait returns: a zombie child if there is one, otherwise -1 if there
  // are no children or the caller has been killed, otherwise nothing yet.
  predicate WaitReturns(s: State, c: nat, r: WaitResult) {
    && Enabled(s, Wait(c))
    && (r.Collected? <==> HasZombie(s.procs, Me(s, c).p))
    && (r.Collected? ==>
          && r.q < |s.procs| && s.procs[r.q].parent == Some(Me(s, c).p) && s.procs[r.q].state == ZombieP
          && (forall j | 0 <= j < r.q && s.procs[j].parent == Some(Me(s, c).p) :: s.procs[j].state != ZombieP))
    && (r == GaveUp <==> !r.Collected? && (!HasChild(s.procs, Me(s, c).p) || Cur(s, c).killed))
  }

  predicate JoinReturns(s: State, c: nat, j: nat, done: bool) {
    Busy(s, c) && (done <==> T(s, Slot(Me(s, c).p, j)).state == ZombieT)
  }

  // tid names a thread of the caller's process that was not in use.
  predicate FreshTid(s: State, c: nat, tid: nat) {
    Busy(s, c) && 1 <= tid <= NTHREADS && tid == P(s, Me(s, c).p).tnum + 1
      && T(s, Slot(Me(s, c).p, tid - 1)).state == UnusedT
  }

  // exit: a killed thread goes on to exit_thread, any other marks the threads
  // of its process.
  function ExitStep(s: State, c: nat): Step {
    if Busy(s, c) && Cur(s, c).killed then Step.ExitThread(c) else Step.Exit(c)
  }

  lemma StackOf(s: State, x: Slot)
    requires Stacks(s) && x in s.threads && s.threads[x].state != UnusedT
    ensures s.threads[x].kstack.Some? && s.threads[x].kstack.value in s.pages
    ensures forall k | k in s.pages :: s.pages[k] == Stack(x) <==> s.threads[x].kstack == Some(k)
  {
    assert T(s, x) == s.threads[x];
  }

  // The dead threads of q before index i are gone, and their stacks free.
  ghost predicate ReapedTo(s: State, q: nat, i: nat, threads: map<Slot, Thread>, pages: map<Page, Use>) {
    && threads.Keys == s.threads.Keys && pages.Keys == s.pages.Keys
    && (forall x | x in s.threads ::
          threads[x] == if Reaped(s, q, x) && x.i < i
                        then s.threads[x].(state := UnusedT, kstack := None, tid := 0, killed := false)
                        else s.threads[x])
    && (forall k | k in s.pages ::
          pages[k] ==
            if s.pages[k].Stack? && Reaped(s, q, s.pages[k].x) && s.pages[k].x.i < i then Free else s.pages[k])
  }

  lemma ReapBegins(s: State, q: nat)
    ensures ReapedTo(s, q, 0, s.threads, s.pages)
  {
  }

  lemma ReapTurn(s: State, q: nat, i: nat, threads: map<Slot, Thread>, pages: map<Page, Use>)
    requires Shaped(s) && Stacks(s) && q < |s.procs| && i < s.procs[q].tnum && ReapedTo(s, q, i, threads, pages)
    ensures var x := Slot(q, i);
      && x in threads
      && if threads[x].state != ZombieT then ReapedTo(s, q, i + 1, threads, pages) else
           && threads[x].kstack.Some?
           && ReapedTo(s, q, i + 1,
                       threads[x := threads[x].(state := UnusedT, kstack := None, tid := 0, killed := false)],
                       pages[threads[x].kstack.value := Free])
  {
    hide Stacks;
    var x := Slot(q, i);
    assert x in s.threads;
    assert threads[x] == s.threads[x];
    forall y | y in s.threads && Reaped(s, q, y) && y.i < i + 1 ensures y.i < i || y == x {}
    if threads[x].state == ZombieT { StackOf(s, x); }
  }

  lemma ReapEnds(s: State, q: nat, threads: map<Slot, Thread>, pages: map<Page, Use>)
    requires Shaped(s) && Stacks(s) && q < |s.procs| && ReapedTo(s, q, s.procs[q].tnum, threads, pages)
    ensures threads == Reap(s, q).threads && pages == Reap(s, q).pages
  {
    ReapingAt(s, q);
  }

  predicate HasParent(s: State, c: nat) { Busy(s, c) && P(s, Me(s, c).p).parent.Some? }

  lemma ExitParent(s: State, c: nat)
    requires Inv(s) && Enabled(s, Step.ExitProcess(c))
    ensures Shaped(s) && HasParent(s, c)
  {
    hide OnCpus, Slotted, Manned, Alone, Waiters, Joiners, Family, Births, Stacks, Shaped;
    Current(s, c);
    ParentOf(s, Me(s, c));
  }

  lemma NextExit(s: State, c: nat)
    requires Enabled(s, Step.ExitThread(c))
    ensures Busy(s, c) && Next(s, Step.ExitThread(c)) == ExitThreadNext(s, c)
  {
  }

  lemma NextWait(s: State, c: nat)
    requires Enabled(s, Step.Wait(c))
    ensures Busy(s, c) && Next(s, Step.Wait(c)) == WaitNext(s, c)
  {
  }

  // The thread that kthread_join looks at is one of the caller's process.
  lemma JoinTarget(s: State, c: nat, j: nat)
    requires Inv(s) && Enabled(s, Step.Join(c, j))
    ensures Busy(s, c) && Me(s, c) in s.threads && Slot(Me(s, c).p, j) in s.threads
    ensures T(s, Slot(Me(s, c).p, j)).state != UnusedT
  {
    hide OnCpus, Manned, Alone, Waiters, Joiners, Family, Births, Stacks;
    Current(s, c);
    var y := Slot(Me(s, c).p, j);
    assert SlotOk(y, T(s, y), P(s, y.p));
  }

  ghost predicate HasSlot(s: State) { exists p | 0 <= p < |s.procs| :: s.procs[p].state == UnusedP }

  // allocthread without a kernel stack.
  function Stillborn(s: State, p: nat): State {
    var x, n := Slot(p, P(s, p).tnum), P(s, p).tnum + 1;
    if p >= |s.procs| || x !in s.threads then s else
      s.(procs := s.procs[p := s.procs[p].(tnum := n)],
         threads := s.threads[x := s.threads[x].(
           state := UnusedT, killed := false, kstack := None, tid := n, duty := Plain)])
  }

  // The page that kalloc returned, if any, is free.
  predicate IsFree(s: State, k: Option<Page>) { k.Some? ==> k.value in s.pages && s.pages[k.value] == Free }

  datatype Allocation = Made | NoStack | Overrun

  // What kthread_create does and returns, and whether it keeps ptable.lock.
  predicate Created(s: State, s': State, c: nat, k: Option<Page>, r: Allocation, tid: nat, held: bool) {
    && Busy(s, c)
    && (r == Overrun <==> P(s, Me(s, c).p).tnum == NTHREADS)
    && (r != Overrun && k.Some? ==> r == Made && Took(s, Create(c, k.value), s') && FreshTid(s, c, tid) && !held)
    && (r != Overrun && k == None ==> r == NoStack && s' == Stillborn(s, Me(s, c).p) && tid == 0 && held)
  }

  // allocproc's claim on an unused slot.
  function Claim(s: State, p: nat): State {
    if p >= |s.procs| then s else s.(procs := s.procs[p := s.procs[p].(tnum := 0, state := UsedP)])
  }

  // What fork leaves when kalloc fails: the first unused slot in use, with one
  // thread that is not.
  predicate Stranded(s: State, s': State) {
    && FirstUnused(s.procs, 0).Some?
    && var p := FirstUnused(s.procs, 0).value;
       && s' == Stillborn(Claim(s, p), p)
       && P(s', p) == Proc(UsedP, P(s, p).parent, 1) && T(s', Slot(p, 0)).state == UnusedT
  }

  lemma ClaimShaped(s: State, p: nat)
    requires Shaped(s) && p < |s.procs|
    ensures Shaped(Claim(s, p)) && p < |Claim(s, p).procs| && Claim(s, p).procs[p].tnum < NTHREADS
  {
  }

  lemma StrandedBreaks(s: State, p: nat, s': State)
    requires Shaped(s) && FirstUnused(s.procs, 0) == Some(p) && s' == Stillborn(Claim(s, p), p)
    ensures Stranded(s, s') && !Inv(s')
  {
    hide Inv;
    assert Slot(p, 0) in s.threads;
    GapBreaks(s', p, 0);
  }

  // The second half of fork's critical section, on the slot it found.
  lemma ForkStays(s: State, c: nat, p: nat, k: Page)
    requires Inv(s) && Enabled(s, Step.Fork(c, k)) && FirstUnused(s.procs, 0) == Some(p)
    ensures Busy(s, c)
    ensures var b, x := Allot(Claim(s, p), p, k, Embryo), Me(s, c);
      && x in b.threads && b.cpus == s.cpus
      && Next(s, Step.Fork(c, k)) == b.(threads := b.threads[x := b.threads[x].(duty := Forking(p))])
  {
    hide Inv, FirstUnused;
    Current(s, c);
    IsShaped(s);
    BornAt(s, p, k);
    assert Born(s, p, k) == Allot(Claim(s, p), p, k, Embryo);
  }

  lemma StillbornBreaks(s: State, p: nat)
    requires Shaped(s) && P(s, p).state == UsedP && P(s, p).tnum < NTHREADS
    ensures !Inv(Stillborn(s, p))
  {
    hide Inv;
    assert Slot(p, P(s, p).tnum) in s.threads;
    GapBreaks(Stillborn(s, p), p, P(s, p).tnum);
  }

  lemma CreateMade(s: State, c: nat, k: Page)
    requires Inv(s) && Busy(s, c) && Cur(s, c).duty == Plain && P(s, Me(s, c).p).tnum < NTHREADS && IsFree(s, Some(k))
    ensures var p := Me(s, c).p;
      && p < |s.procs| && Took(s, Create(c, k), Allot(s, p, k, Runnable)) && Inv(Allot(s, p, k, Runnable))
      && |Allot(s, p, k, Runnable).procs| == |s.procs| && FreshTid(s, c, Allot(s, p, k, Runnable).procs[p].tnum)
  {
    hide Inv;
    Current(s, c);
    StepKeeps(s, Create(c, k));
    RoomForThread(s, c);
  }

  // A process in use has no unused thread below t_num.
  lemma GapBreaks(s: State, p: nat, i: nat)
    requires P(s, p).state == UsedP && i < P(s, p).tnum && T(s, Slot(p, i)).state == UnusedT
    ensures !Inv(s)
  {
    assert !SlotOk(Slot(p, i), T(s, Slot(p, i)), P(s, p));
  }

  // exit by a thread not yet killed marks its own process and no other.
  ghost predicate ExitMarks(s: State, c: nat, s': State) {
    Busy(s, c) && (Cur(s, c).killed || Marked(s, s', Me(s, c).p))
  }

  // The threads asleep on ch, below t_num of their process, are RUNNABLE, and
  // no other thread has changed.
  ghost predicate WokenOn(s: State, s': State, ch: Chan) {
    && s' == s.(threads := s'.threads) && s'.threads.Keys == s.threads.Keys
    && (forall x | x in s.threads ::
          var t := s.threads[x];
          s'.threads[x] == if x.p < |s.procs| && x.i < s.procs[x.p].tnum && t.state == Sleeping && t.chan == ch
                           then t.(state := Runnable) else t)
  }

  lemma WakeWokenOn(s: State, ch: Chan)
    requires Shaped(s)
    ensures WokenOn(s, Wake(s, ch), ch)
  {
    assert Wake(s, ch).threads.Keys == s.threads.Keys;
  }

  // The sleepers on ch in row p before index i are RUNNABLE.
  ghost predicate RowTo(s: State, was: map<Slot, Thread>, p: nat, i: nat, ch: Chan, threads: map<Slot, Thread>) {
    && threads.Keys == s.threads.Keys == was.Keys
    && (forall x | x in s.threads ::
          threads[x] ==
            if x.p != p then was[x]
            else if x.i < i && Roused(s, x, ch) then s.threads[x].(state := Runnable)
            else s.threads[x])
  }

  lemma RowBegins(s: State, was: map<Slot, Thread>, p: nat, ch: Chan)
    requires was.Keys == s.threads.Keys && forall x | x in s.threads && x.p == p :: was[x] == s.threads[x]
    ensures RowTo(s, was, p, 0, ch, was)
  {
  }

  lemma RowTurn(s: State, was: map<Slot, Thread>, p: nat, i: nat, ch: Chan, threads: map<Slot, Thread>)
    requires Shaped(s) && p < |s.procs| && i < s.procs[p].tnum && RowTo(s, was, p, i, ch, threads)
    ensures var x := Slot(p, i);
      && x in threads
      && if threads[x].state == Sleeping && threads[x].chan == ch
         then RowTo(s, was, p, i + 1, ch, threads[x := threads[x].(state := Runnable)])
         else RowTo(s, was, p, i + 1, ch, threads)
  {
    var x := Slot(p, i);
    assert x in s.threads && threads[x] == s.threads[x];
    assert Roused(s, x, ch) <==> threads[x].state == Sleeping && threads[x].chan == ch;
    hide Roused, Shaped;
    forall y | y in s.threads && y.p == p && y.i < i + 1 ensures y.i < i || y == x {}
  }

  lemma RowEnds(s: State, was: map<Slot, Thread>, p: nat, ch: Chan, threads: map<Slot, Thread>)
    requires Shaped(s) && p < |s.procs| && RowTo(s, was, p, s.procs[p].tnum, ch, threads)
    ensures threads.Keys == s.threads.Keys
    ensures forall x | x in s.threads && x.p != p :: threads[x] == was[x]
    ensures forall x | x in s.threads && x.p == p ::
              threads[x] == if Roused(s, x, ch) then s.threads[x].(state := Runnable) else s.threads[x]
  {
  }

  class Ptable {
    var procs: seq<Proc>
    var threads: map<Slot, Thread>
    var cpus: seq<Option<Slot>>
    var pages: map<Page, Use>
    const init: nat

    ghost function V(): State
      reads this
    {
      State(procs, threads, cpus, pages, init)
    }

    // The tables after userinit.
    constructor (nproc: nat, ncpu: nat, stack: Page, ks: seq<Page>)
      requires nproc > 0
      ensures V() == Boot(nproc, ncpu, stack, ks) && Inv(V())
    {
      var s := Boot(nproc, ncpu, stack, ks);
      procs, threads, cpus, pages, init := s.procs, s.threads, s.cpus, s.pages, s.init;
      new;
      Boots(nproc, ncpu, stack, ks);
      InitHolds(s);
    }

    method Wakeup1(ch: Chan)
      requires Shaped(V())
      modifies this`threads
      ensures V() == Wake(old(V()), ch) && WokenOn(old(V()), V(), ch)
    {
      hide WokenOn;
      ghost var s := V();
      var p := 0;
      while p < |procs|
        invariant 0 <= p <= |procs| && threads.Keys == s.threads.Keys
        invariant forall x | x in s.threads ::
                    threads[x] == if x.p < p && Roused(s, x, ch) then s.threads[x].(state := Runnable) else s.threads[x]
      {
        WakeRow(p, ch, s);
        p := p + 1;
      }
      assert threads == Wake(s, ch).threads;
      WakeWokenOn(s, ch);
    }

    // The inner loop of wakeup1.
    method WakeRow(p: nat, ch: Chan, ghost s: State)
      requires Shaped(s) && p < |procs| && procs == s.procs && threads.Keys == s.threads.Keys
      requires forall x | x in s.threads && x.p == p :: threads[x] == s.threads[x]
      modifies this`threads
      ensures threads.Keys == s.threads.Keys
      ensures forall x | x in s.threads && x.p != p :: threads[x] == old(threads)[x]
      ensures forall x | x in s.threads && x.p == p ::
                threads[x] == if Roused(s, x, ch) then s.threads[x].(state := Runnable) else s.threads[x]
    {
      hide Shaped, Roused, RowTo;
      ghost var was := threads;
      RowBegins(s, was, p, ch);
      var i := 0;
      while i < procs[p].tnum
        invariant 0 <= i <= procs[p].tnum && RowTo(s, was, p, i, ch, threads)
      {
        var x := Slot(p, i);
        RowTurn(s, was, p, i, ch, threads);
        if threads[x].state == Sleeping && threads[x].chan == ch {
          threads := threads[x := threads[x].(state := Runnable)];
        }
        i := i + 1;
      }
      RowEnds(s, was, p, ch, threads);
    }

    // The loop of kill and of exit.
    method InterruptAll(p: nat)
      requires Shaped(V()) && p < |procs|
      modifies this`threads
      ensures V() == Interrupt(old(V()), p) && Marked(old(V()), V(), p)
      ensures forall x | x in threads && x.p != p :: x in old(threads) && threads[x] == old(threads)[x]
    {
      hide Marked;
      ghost var s := V();
      var i := 0;
      while i < procs[p].tnum
        invariant 0 <= i <= procs[p].tnum && threads.Keys == s.threads.Keys
        invariant forall x | x in s.threads ::
                    var t := s.threads[x];
                    threads[x] == if x.p == p && x.i < i
                                  then t.(killed := true, state := if t.state == Sleeping then Runnable else t.state)
                                  else t
      {
        var x := Slot(p, i);
        var t := threads[x].(killed := true);
        if t.state == Sleeping { t := t.(state := Runnable); }
        threads := threads[x := t];
        i := i + 1;
      }
      assert threads == Interrupt(s, p).threads;
      InterruptExact(s, p);
    }

    // The running_t loop of exit_thread.
    method CountLive(p: nat) returns (n: nat)
      requires Shaped(V()) && p < |procs|
      ensures n == LiveCount(V(), p, procs[p].tnum)
    {
      n := 0;
      var i := 0;
      while i < procs[p].tnum
        invariant 0 <= i <= procs[p].tnum && n == LiveCount(V(), p, i)
      {
        if threads[Slot(p, i)].state != ZombieT && threads[Slot(p, i)].state != UnusedT {
          n := n + 1;
        }
        i := i + 1;
      }
    }

    method ExitThread(c: nat)
      requires Enabled(V(), Step.ExitThread(c))
      requires Inv(V())
      modifies this`threads, this`cpus
      ensures Took(old(V()), Step.ExitThread(c), V()) && Inv(V())
    {
      hide Inv, Wake, WokenOn, Shaped, Next, Enabled;
      ghost var s := V();
      IsShaped(s);
      NextExit(s, c);
      StepKeeps(s, Step.ExitThread(c));
      Current(s, c);
      var x := cpus[c].value;
      var n := CountLive(x.p);
      if n == 2 { WakeKeeps(s, OnProc(x.p)); Wakeup1(OnProc(x.p)); }
      if n == 1 {
        threads := threads[x := threads[x].(duty := Exiting)];
      } else {
        ghost var s1 := V();
        IsShaped(s1);
        WakeKeeps(s1, OnThread(x));
        Wakeup1(OnThread(x));
        StillCurrent(s, s1, c);
        StillCurrent(s1, V(), c);
        Current(V(), c);
        threads := threads[x := threads[x].(state := ZombieT)];
        cpus := cpus[c := None];
      }
    }

    // The loop of exit_process that passes children to init.
    method PassChildren(p: nat)
      requires Shaped(V()) && p != init
      modifies this`threads, this`procs
      ensures V() == Reparent(if HasZombie(old(procs), p) then Wake(old(V()), OnProc(init)) else old(V()), p)
    {
      ghost var s := V();
      ghost var w := Wake(s, OnProc(init));
      var q := 0;
      ghost var found := false;
      while q < |procs|
        invariant 0 <= q <= |procs| == |s.procs|
        invariant forall r | 0 <= r < |procs| ::
                    procs[r] ==
                      if r < q && s.procs[r].parent == Some(p) then s.procs[r].(parent := Some(init)) else s.procs[r]
        invariant found <==> exists r | 0 <= r < q :: s.procs[r].parent == Some(p) && s.procs[r].state == ZombieP
        invariant threads == if found then w.threads else s.threads
      {
        if procs[q].parent == Some(p) {
          procs := procs[q := procs[q].(parent := Some(init))];
          if procs[q].state == ZombieP {
            ghost var s1 := if found then w else s;
            WakeAgain(s, s1, V(), OnProc(init));
            Wakeup1(OnProc(init));
            found := true;
          }
        }
        q := q + 1;
      }
      assert procs == Reparent(s, p).procs;
    }

    // exit_process up to the reparenting of the children.
    method LeaveFamily(p: nat)
      requires Shaped(V()) && p < |procs| && p != init && procs[p].parent.Some?
      modifies this`threads, this`procs
      ensures V() == Abandon(old(V()), p)
    {
      hide Wake, WokenOn, Reparent;
      ghost var s := V();
      WakeWakes(s, OnProc(procs[p].parent.value));
      Wakeup1(OnProc(procs[p].parent.value));
      PassChildren(p);
    }

    method ExitProcess(c: nat)
      requires Enabled(V(), Step.ExitProcess(c))
      requires Inv(V())
      modifies this
      ensures Took(old(V()), Step.ExitProcess(c), V()) && Inv(V())
    {
      hide Inv, T, Abandon;
      ghost var s := V();
      StepKeeps(s, Step.ExitProcess(c));
      AbandonKeeps(s, c);
      Current(s, c);
      var x := cpus[c].value;
      ExitParent(s, c);
      LeaveFamily(x.p);
      Current(V(), c);
      IsShaped(V());
      procs := procs[x.p := procs[x.p].(state := ZombieP)];
      threads := threads[x := threads[x].(state := ZombieT, duty := Plain)];
      cpus := cpus[c := None];
    }

    method Kill(p: nat)
      requires p < |procs|
      requires Inv(V())
      modifies this`threads
      ensures Took(old(V()), Step.Kill(p), V()) && Inv(V())
      ensures Marked(old(V()), V(), p)
      ensures forall x | x in threads && x.p != p :: x in old(threads) && threads[x] == old(threads)[x]
    {
      hide OnCpus, Slotted, Manned, Alone, Waiters, Joiners, Family, Births, Stacks, Interrupt, Marked;
      InterruptKeeps(V(), p);
      InterruptAll(p);
    }

    method Exit(c: nat)
      requires Enabled(V(), ExitStep(V(), c))
      requires Inv(V())
      modifies this`threads, this`cpus
      ensures Took(old(V()), ExitStep(old(V()), c), V()) && Inv(V())
      ensures ExitMarks(old(V()), c, V())
    {
      hide OnCpus, Slotted, Manned, Alone, Waiters, Joiners, Family, Births, Stacks, Marked;
      Current(V(), c);
      var x := cpus[c].value;
      if threads[x].killed {
        ExitThread(c);
      } else {
        InterruptKeeps(V(), x.p);
        InterruptAll(x.p);
      }
    }

    // The inner loop of wait: free the dead threads of q.
    method ReapThreads(q: nat)
      requires Shaped(V()) && Stacks(V()) && q < |procs|
      modifies this`threads, this`pages
      ensures threads == Reap(old(V()), q).threads && pages == Reap(old(V()), q).pages
    {
      hide Shaped, Stacks, Reap, ReapedTo;
      ghost var s := V();
      ReapBegins(s, q);
      var i := 0;
      while i < procs[q].tnum
        invariant 0 <= i <= procs[q].tnum && ReapedTo(s, q, i, threads, pages)
      {
        var x := Slot(q, i);
        ReapTurn(s, q, i, threads, pages);
        if threads[x].state == ZombieT {
          pages := pages[threads[x].kstack.value := Free];
          threads := threads[x := threads[x].(state := UnusedT, kstack := None, tid := 0, killed := false)];
        }
        i := i + 1;
      }
      ReapEnds(s, q, threads, pages);
    }

    method Collect(c: nat, q: nat)
      requires Inv(V()) && Busy(V(), c) && q < |procs| && procs[q].state == ZombieP
      modifies this
      ensures V() == Stay(Reap(old(V()), q), c, Plain)
    {
      hide OnCpus, Slotted, Manned, Alone, Waiters, Joiners, Family, Births, Stacks, Shaped;
      ghost var s := V();
      Current(s, c);
      ReapKeeps(s, c, q);
      Current(Reap(s, q), c);
      ReapThreads(q);
      procs := procs[q := procs[q].(state := UnusedP, parent := None)];
      var x := cpus[c].value;
      threads := threads[x := threads[x].(duty := Plain)];
    }

    // One turn of the loop in wait, from having the lock to returning or
    // falling asleep.
    method Wait(c: nat) returns (r: WaitResult)
      requires Enabled(V(), Step.Wait(c))
      requires Inv(V())
      modifies this
      ensures Took(old(V()), Step.Wait(c), V()) && Inv(V())
      ensures WaitReturns(old(V()), c, r)
    {
      hide Inv, Reap, Next, Enabled;
      ghost var s := V();
      NextWait(s, c);
      StepKeeps(s, Step.Wait(c));
      Current(s, c);
      var x := cpus[c].value;
      var havekids := false;
      var q := 0;
      while q < |procs|
        invariant 0 <= q <= |procs| && V() == s
        invariant havekids <==> exists j | 0 <= j < q :: procs[j].parent == Some(x.p)
        invariant forall j | 0 <= j < q && procs[j].parent == Some(x.p) :: procs[j].state != ZombieP
        invariant FirstExited(procs, x.p, 0) == FirstExited(procs, x.p, q)
      {
        if procs[q].parent == Some(x.p) {
          havekids := true;
          if procs[q].state == ZombieP {
            Collect(c, q);
            return Collected(q);
          }
        }
        q := q + 1;
      }
      if !havekids || threads[x].killed {
        threads := threads[x := threads[x].(duty := Plain)];
        return GaveUp;
      }
      threads := threads[x := threads[x].(state := Sleeping, chan := OnProc(x.p), duty := Waiting)];
      cpus := cpus[c := None];
      return FellAsleep;
    }

    // allocproc in fork: the scan, then allocthread with what kalloc returned.
    // None when the table is full, or when there is no page for a stack; then
    // the slot stays in use without a thread.
    method Fork(c: nat, k: Option<Page>) returns (np: Option<nat>)
      requires Busy(V(), c) && Cur(V(), c).duty == Plain && IsFree(V(), k)
      requires Inv(V())
      modifies this
      ensures np.Some? <==> HasSlot(old(V())) && k.Some?
      ensures !HasSlot(old(V())) ==> V() == old(V())
      ensures HasSlot(old(V())) && k == None ==> Stranded(old(V()), V())
      ensures np.Some? ==> Took(old(V()), Step.Fork(c, k.value), V())
      ensures Inv(V()) <==> !(HasSlot(old(V())) && k == None)
    {
      hide Inv, Shaped, Allot, Stillborn, Next;
      ghost var s := V();
      IsShaped(s);
      var slot := FindSlot();
      if slot == None { return None; }
      var p := slot.value;
      ClaimShaped(s, p);
      procs := procs[p := procs[p].(tnum := 0, state := UsedP)];
      var r := AllocThread(p, k, true);
      if r == NoStack {
        StrandedBreaks(s, p, V());
        return None;
      }
      StepKeeps(s, Step.Fork(c, k.value));
      ForkStays(s, c, p, k.value);
      var x := cpus[c].value;
      threads := threads[x := threads[x].(duty := Forking(p))];
      return Some(p);
    }

    // allocproc's scan.
    method FindSlot() returns (r: Option<nat>)
      ensures r == FirstUnused(procs, 0) && (r.Some? <==> HasSlot(V()))
      ensures r.Some? ==>
                && r.value < |procs| && procs[r.value].state == UnusedP
                && (forall j | 0 <= j < r.value :: procs[j].state != UnusedP)
    {
      var p := 0;
      while p < |procs| && procs[p].state != UnusedP
        invariant 0 <= p <= |procs| && FirstUnused(procs, 0) == FirstUnused(procs, p)
        invariant forall j | 0 <= j < p :: procs[j].state != UnusedP
      {
        p := p + 1;
      }
      return if p == |procs| then None else Some(p);
    }

    // allocthread, with what kalloc returned.  The model stops where the source
    // would write past the table.
    method AllocThread(p: nat, k: Option<Page>, first: bool) returns (r: Allocation)
      requires Shaped(V()) && p < |procs|
      modifies this
      ensures r == Overrun <==> old(procs)[p].tnum == NTHREADS
      ensures r == Overrun ==> V() == old(V())
      ensures r == Made ==> k.Some? && V() == Allot(old(V()), p, k.value, if first then Embryo else Runnable)
      ensures r == NoStack ==> k == None && V() == Stillborn(old(V()), p)
      ensures r != Overrun ==>
                var n := old(procs)[p].tnum;
                && procs == old(procs)[p := old(procs)[p].(tnum := n + 1)]
                && threads == old(threads)[Slot(p, n) := old(threads)[Slot(p, n)].(
                     state := if k == None then UnusedT else if first then Embryo else Runnable,
                     killed := false, kstack := k, tid := n + 1, duty := Plain)]
                && pages == (if k == None then old(pages) else old(pages)[k.value := Stack(Slot(p, n))])
                && cpus == old(cpus)
    {
      var x := Slot(p, procs[p].tnum);
      if x.i >= NTHREADS { return Overrun; }
      procs := procs[p := procs[p].(tnum := procs[p].tnum + 1)];
      threads := threads[x := threads[x].(
        state := if first then Embryo else Runnable,
        killed := false, kstack := k, tid := procs[p].tnum, duty := Plain)];
      if k == None {
        threads := threads[x := threads[x].(state := UnusedT)];
        return NoStack;
      }
      pages := pages[k.value := Stack(x)];
      r := Made;
    }

    // kthread_create.  Without a page for a stack it returns 0, with a gap among
    // the threads of its process and, as held says, ptable.lock not released.
    // With NTHREADS threads already it writes past the table.
    method KthreadCreate(c: nat, k: Option<Page>) returns (r: Allocation, tid: nat, held: bool)
      requires Busy(V(), c) && Cur(V(), c).duty == Plain
      requires IsFree(V(), k) && Inv(V())
      modifies this
      ensures Created(old(V()), V(), c, k, r, tid, held)
      ensures r != Overrun ==> (Inv(V()) <==> k.Some?)
    {
      hide Inv, Shaped, Allot, Stillborn, Next, Enabled;
      ghost var s := V();
      IsShaped(s);
      Current(s, c);
      var p := cpus[c].value.p;
      r := AllocThread(p, k, false);
      match r
      case Overrun => return r, 0, true;
      case NoStack =>
        StillbornBreaks(s, p);
        return r, 0, true;
      case Made =>
        CreateMade(s, c, k.value);
        return r, procs[p].tnum, false;
    }

    // kthread_join's search: thread ids are one more than indices.
    method FindTid(p: nat, tid: int) returns (j: Option<nat>)
      requires Inv(V()) && p < |procs| && procs[p].state == UsedP
      ensures if 1 <= tid <= procs[p].tnum then j == Some(tid - 1) else j == None
    {
      hide OnCpus, Manned, Alone, Waiters, Joiners, Family, Births, Stacks;
      j := None;
      var i := 0;
      while i < procs[p].tnum
        invariant 0 <= i <= procs[p].tnum
        invariant j == if 1 <= tid <= i then Some(tid - 1) else None
      {
        assert SlotOk(Slot(p, i), T(V(), Slot(p, i)), P(V(), p));
        if threads[Slot(p, i)].tid == tid { j := Some(i); }
        i := i + 1;
      }
    }

    // One turn of the loop in kthread_join; done says that it returns.
    method Join(c: nat, j: nat) returns (done: bool)
      requires Enabled(V(), Step.Join(c, j))
      requires Inv(V())
      modifies this`threads, this`cpus
      ensures Took(old(V()), Step.Join(c, j), V()) && Inv(V())
      ensures JoinReturns(old(V()), c, j, done)
    {
      hide Inv;
      ghost var s := V();
      StepKeeps(s, Step.Join(c, j));
      JoinTarget(s, c, j);
      var x := cpus[c].value;
      var y := Slot(x.p, j);
      if threads[y].state == ZombieT {
        threads := threads[x := threads[x].(duty := Plain)];
        return true;
      }
      threads := threads[x := threads[x].(state := Sleeping, chan := OnThread(y), duty := Joining(j))];
      cpus := cpus[c := None];
      return false;
    }
  }
}
