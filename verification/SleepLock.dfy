// Sleep locks (sleeplock.c) over sleep and wakeup (proc.c), for any number of
// threads and any interleaving.
//
// A step is what one thread does between two points where another thread can
// get in: taking or giving up lk->lk or ptable.lock, or the code run while a
// spinlock is held up to the next such point.
module SleepLock {
  type Tid = nat

  // Where a thread is.
  datatype Pc =
    | Idle
    | Want        // at acquire(&lk->lk) in acquiresleep, or in sleep on the way back
    | Testing     // holds lk->lk, about to test lk->locked
    | Dozing      // in sleep: holds lk->lk, wants ptable.lock
    | Dozing2     // in sleep: holds both
    | Dozing3     // in sleep: holds ptable.lock only
    | Asleep      // SLEEPING on chan lk
    | Woken       // RUNNABLE, not yet past sched
    | Holding     // between acquiresleep and releasesleep
    | Leaving     // in releasesleep, wants lk->lk
    | Clearing    // holds lk->lk, about to clear lk->locked
    | Cleared     // holds lk->lk, has cleared locked, wants ptable.lock in wakeup
    | Scanning    // holds both, about to scan the table
    | Done        // holds lk->lk, has scanned

  datatype State = State(locked: bool, lk: set<Tid>, ptable: set<Tid>, pc: map<Tid, Pc>)

  // The spinlocks are sets of their owners, at most one thread each.
  datatype Step =
    | Start(t: Tid)     // call acquiresleep
    | TakeLk(t: Tid)    // acquire(&lk->lk)
    | Test(t: Tid)      // while (lk->locked) ...
    | TakePtable(t: Tid)
    | DropLk(t: Tid)
    | FallAsleep(t: Tid)
    | Resume(t: Tid)    // picked by the scheduler; back out of sleep
    | Release(t: Tid)   // call releasesleep
    | Clear(t: Tid)
    | Scan(t: Tid)
    | Kill(t: Tid)      // kill or exit makes a sleeping thread RUNNABLE

  ghost function At(s: State, t: Tid): Pc { if t in s.pc then s.pc[t] else Idle }

  ghost function Wake(pc: map<Tid, Pc>): map<Tid, Pc> {
    map t | t in pc :: if pc[t] == Asleep then Woken else pc[t]
  }

  ghost predicate Enabled(s: State, step: Step) {
    match step
    case Start(t) => At(s, t) == Idle
    case TakeLk(t) => At(s, t) in {Want, Leaving} && s.lk == {}
    case Test(t) => At(s, t) == Testing
    case TakePtable(t) => At(s, t) in {Dozing, Cleared} && s.ptable == {}
    case DropLk(t) => At(s, t) in {Dozing2, Done}
    case FallAsleep(t) => At(s, t) == Dozing3
    case Resume(t) => At(s, t) == Woken && s.ptable == {}
    case Release(t) => At(s, t) == Holding
    case Clear(t) => At(s, t) == Clearing
    case Scan(t) => At(s, t) == Scanning
    case Kill(t) => At(s, t) == Asleep && s.ptable == {}
  }

  ghost function Next(s: State, step: Step): State
    requires Enabled(s, step)
  {
    match step
    case Start(t) => s.(pc := s.pc[t := Want])
    case TakeLk(t) => s.(lk := {t}, pc := s.pc[t := if At(s, t) == Want then Testing else Clearing])
    case Test(t) =>
      if s.locked then s.(pc := s.pc[t := Dozing])
      else s.(locked := true, lk := {}, pc := s.pc[t := Holding])
    case TakePtable(t) => s.(ptable := {t}, pc := s.pc[t := if At(s, t) == Dozing then Dozing2 else Scanning])
    case DropLk(t) => s.(lk := {}, pc := s.pc[t := if At(s, t) == Dozing2 then Dozing3 else Idle])
    case FallAsleep(t) => s.(ptable := {}, pc := s.pc[t := Asleep])
    case Resume(t) => s.(pc := s.pc[t := Want])
    case Release(t) => s.(pc := s.pc[t := Leaving])
    case Clear(t) => s.(locked := false, pc := s.pc[t := Cleared])
    case Scan(t) => s.(ptable := {}, pc := Wake(s.pc)[t := Done])
    case Kill(t) => s.(pc := s.pc[t := Woken])
  }

  // --- the invariant ---

  predicate HoldsLk(pc: Pc) { pc in {Testing, Dozing, Dozing2, Clearing, Cleared, Scanning, Done} }

  predicate HoldsPtable(pc: Pc) { pc in {Dozing2, Dozing3, Scanning} }

  // From a successful acquiresleep to the clearing of locked.
  predicate Owns(pc: Pc) { pc in {Holding, Leaving, Clearing} }

  // Has cleared the lock and not finished its scan.
  predicate Waking(pc: Pc) { pc in {Cleared, Scanning} }

  ghost predicate Spin(s: State) {
    && (forall t, u | t in s.lk && u in s.lk :: t == u)
    && (forall t, u | t in s.ptable && u in s.ptable :: t == u)
    && (forall t :: t in s.lk <==> HoldsLk(At(s, t)))
    && (forall t :: t in s.ptable <==> HoldsPtable(At(s, t)))
  }

  ghost predicate Exclusion(s: State) {
    && (forall t, u | Owns(At(s, t)) && Owns(At(s, u)) :: t == u)
    && (s.locked <==> exists t :: Owns(At(s, t)))
  }

  ghost predicate Awaited(s: State) { s.locked || exists u :: Waking(At(s, u)) }

  // A thread that has found the lock taken, up to and including its sleep,
  // can count on a wakeup.
  ghost predicate NoLostWakeup(s: State) {
    && (forall t | At(s, t) in {Dozing, Dozing2} :: s.locked)
    && (forall t | At(s, t) in {Dozing3, Asleep} :: Awaited(s))
  }

  ghost predicate Inv(s: State) { Spin(s) && Exclusion(s) && NoLostWakeup(s) }

  ghost predicate Init(s: State) { s == State(false, {}, {}, map[]) }

  lemma InitHolds(s: State)
    requires Init(s)
    ensures Inv(s)
  {
  }

  // What a step of thread t does to the other threads.
  lemma Others(s: State, step: Step, u: Tid)
    requires Enabled(s, step) && u != step.t
    ensures At(Next(s, step), u) == if step.Scan? && At(s, u) == Asleep then Woken else At(s, u)
  {
  }

  lemma SpinKeeps(s: State, step: Step)
    requires Spin(s) && Enabled(s, step)
    ensures Spin(Next(s, step))
  {
    var s', t := Next(s, step), step.t;
    forall u ensures u in s'.lk <==> HoldsLk(At(s', u)) { if u != t { Others(s, step, u); } }
    forall u ensures u in s'.ptable <==> HoldsPtable(At(s', u)) { if u != t { Others(s, step, u); } }
  }

  lemma ExclusionKeeps(s: State, step: Step)
    requires Spin(s) && Exclusion(s) && Enabled(s, step)
    ensures Exclusion(Next(s, step))
  {
    var s', t := Next(s, step), step.t;
    forall u | u != t ensures Owns(At(s', u)) == Owns(At(s, u)) { Others(s, step, u); }
    if step.Test? && !s.locked {
      assert Owns(At(s', t));
    } else if step.Clear? {
      assert Owns(At(s, t)) && !Owns(At(s', t));
    } else {
      assert Owns(At(s', t)) == Owns(At(s, t));
    }
  }

  lemma WakeupKeeps(s: State, step: Step)
    requires Spin(s) && Exclusion(s) && NoLostWakeup(s) && Enabled(s, step)
    ensures NoLostWakeup(Next(s, step))
  {
    var s', t := Next(s, step), step.t;
    forall u | At(s', u) in {Dozing, Dozing2} ensures s'.locked {
      if u != t { Others(s, step, u); }
    }
    forall u | At(s', u) in {Dozing3, Asleep} ensures Awaited(s') {
      if u != t { Others(s, step, u); }
      StillAwaited(s, step, u);
    }
  }

  // The lock stays taken until its owner clears it; from then on the owner is
  // waking, until its scan, which leaves no one asleep.
  lemma StillAwaited(s: State, step: Step, u: Tid)
    requires Spin(s) && Exclusion(s) && NoLostWakeup(s) && Enabled(s, step)
    requires At(Next(s, step), u) in {Dozing3, Asleep}
    ensures Awaited(Next(s, step))
  {
    var s', t := Next(s, step), step.t;
    if step.Clear? {
      assert Waking(At(s', t));
    } else if !s'.locked {
      if u != t { Others(s, step, u); }
      var w :| Waking(At(s, w));
      if w != t { Others(s, step, w); }
      assert Waking(At(s', w));
    }
  }

  lemma StepKeeps(s: State, step: Step)
    requires Inv(s) && Enabled(s, step)
    ensures Inv(Next(s, step))
  {
    SpinKeeps(s, step);
    ExclusionKeeps(s, step);
    WakeupKeeps(s, step);
  }

  // A run: each step enabled where it is taken.
  ghost predicate Runs(s: State, steps: seq<Step>, s': State)
    decreases |steps|
  {
    if steps == [] then s' == s else Enabled(s, steps[0]) && Runs(Next(s, steps[0]), steps[1..], s')
  }

  lemma {:induction false} RunKeeps(s: State, steps: seq<Step>, s': State)
    requires Inv(s) && Runs(s, steps, s')
    ensures Inv(s')
    decreases |steps|
  {
    if steps != [] {
      StepKeeps(s, steps[0]);
      RunKeeps(Next(s, steps[0]), steps[1..], s');
    }
  }

  // In every state of every run, at most one thread is between acquiresleep
  // and releasesleep.
  lemma MutualExclusion(s0: State, steps: seq<Step>, s: State, t: Tid, u: Tid)
    requires Init(s0) && Runs(s0, steps, s) && At(s, t) == Holding && At(s, u) == Holding
    ensures t == u && s.locked
  {
    InitHolds(s0);
    RunKeeps(s0, steps, s);
    assert Owns(At(s, t)) && Owns(At(s, u));
  }

  // And a thread asleep on the lock is waiting for a thread that holds it, or
  // for one that has cleared it and has its wakeup scan still to do.
  lemma SleepersAwaited(s0: State, steps: seq<Step>, s: State, t: Tid)
    requires Init(s0) && Runs(s0, steps, s) && At(s, t) == Asleep
    ensures exists u :: u != t && (Owns(At(s, u)) || Waking(At(s, u)))
  {
    InitHolds(s0);
    RunKeeps(s0, steps, s);
    assert Awaited(s);
    var u :| Owns(At(s, u)) || Waking(At(s, u));
  }

  // --- every acquiresleep can still succeed ---

  // s' can be reached by threads that go on with their calls: no call of
  // acquiresleep begins, and no one is killed.
  ghost predicate Reaches(s: State, s': State) {
    exists steps: seq<Step> :: Runs(s, steps, s') && Quiet(steps)
  }

  predicate Quiet(steps: seq<Step>) { forall i | 0 <= i < |steps| :: !steps[i].Start? && !steps[i].Kill? }

  lemma ReachesHere(s: State)
    ensures Reaches(s, s)
  {
    assert Runs(s, [], s) && Quiet([]);
  }

  // One step, and then more.
  lemma GoesOn(s: State, step: Step, s': State)
    requires Enabled(s, step) && !step.Start? && !step.Kill? && Reaches(Next(s, step), s')
    ensures Reaches(s, s')
  {
    var steps: seq<Step> :| Runs(Next(s, step), steps, s') && Quiet(steps);
    assert ([step] + steps)[1..] == steps;
    assert Runs(s, [step] + steps, s') && Quiet([step] + steps);
  }

  // In acquiresleep, or past it and holding the lock.
  predicate Trying(pc: Pc) { pc in {Want, Testing, Dozing, Dozing2, Dozing3, Asleep, Woken, Holding} }

  // t keeps trying unless it is the one that takes the step.
  lemma StillTrying(s: State, step: Step, t: Tid)
    requires Enabled(s, step) && Trying(At(s, t)) && (step.t == t ==> step != Release(t))
    ensures Trying(At(Next(s, step), t))
  {
    if step.t != t { Others(s, step, t); }
  }

  ghost predicate Gets(s: State, t: Tid) { exists s' :: Reaches(s, s') && At(s', t) == Holding }

  lemma GetsAfter(s: State, step: Step, t: Tid)
    requires Enabled(s, step) && !step.Start? && !step.Kill? && Gets(Next(s, step), t)
    ensures Gets(s, t)
  {
    var s' :| Reaches(Next(s, step), s') && At(s', t) == Holding;
    GoesOn(s, step, s');
  }

  // The lock is free, and so are the spinlocks.
  lemma GetsFree(s: State, t: Tid)
    requires Inv(s) && Trying(At(s, t)) && s.lk == {} && s.ptable == {} && !s.locked
    ensures Gets(s, t)
  {
    assert At(s, t) == Want || At(s, t) == Woken by { IdleSpins(s, t); }
    var s1 := if At(s, t) == Woken then Next(s, Resume(t)) else s;
    var s2 := Next(s1, TakeLk(t));
    var s3 := Next(s2, Test(t));
    ReachesHere(s3);
    GetsAfter(s2, Test(t), t);
    GetsAfter(s1, TakeLk(t), t);
    if At(s, t) == Woken { GetsAfter(s, Resume(t), t); }
  }

  // With both spinlocks free every thread is outside of the code they guard.
  lemma IdleSpins(s: State, t: Tid)
    requires Inv(s) && s.lk == {} && s.ptable == {}
    ensures !HoldsLk(At(s, t)) && !HoldsPtable(At(s, t))
    ensures At(s, t) == Asleep ==> s.locked
    ensures At(s, t) in {Holding, Leaving} ==> s.locked
  {
    forall u ensures !HoldsLk(At(s, u)) && !HoldsPtable(At(s, u)) { assert u !in s.lk && u !in s.ptable; }
    if At(s, t) in {Holding, Leaving} { assert Owns(At(s, t)); }
  }

  // The spinlocks are free: whoever has the lock gives it up.
  lemma GetsQuiet(s: State, t: Tid)
    requires Inv(s) && Trying(At(s, t)) && s.lk == {} && s.ptable == {}
    ensures Gets(s, t)
    decreases s.locked, 1
  {
    if At(s, t) == Holding {
      ReachesHere(s);
    } else if !s.locked {
      GetsFree(s, t);
    } else {
      var u :| Owns(At(s, u));
      IdleSpins(s, u);
      if At(s, u) == Holding {
        var s1 := Next(s, Release(u));
        StepKeeps(s, Release(u));
        StillTrying(s, Release(u), t);
        GetsLeft(s1, u, t);
        GetsAfter(s, Release(u), t);
      } else {
        GetsLeft(s, u, t);
      }
    }
  }

  // u is about to give the lock up.
  lemma GetsLeft(s: State, u: Tid, t: Tid)
    requires Inv(s) && Trying(At(s, t)) && s.lk == {} && s.ptable == {} && At(s, u) == Leaving && s.locked
    ensures Gets(s, t)
    decreases s.locked, 0
  {
    hide Inv;
    var s1 := Next(s, TakeLk(u));
    Goes(s, TakeLk(u), t);
    var s2 := Next(s1, Clear(u));
    Goes(s1, Clear(u), t);
    GetsCleared(s2, u, t);
    GetsAfter(s1, Clear(u), t);
    GetsAfter(s, TakeLk(u), t);
  }

  // u has given the lock up and holds lk->lk.
  lemma GetsCleared(s: State, u: Tid, t: Tid)
    requires Inv(s) && Trying(At(s, t)) && s.lk == {u} && s.ptable == {} && At(s, u) == Cleared
    ensures Gets(s, t)
    decreases s.locked, 2
  {
    hide Inv;
    var s1 := Next(s, TakePtable(u));
    Goes(s, TakePtable(u), t);
    var s2 := Next(s1, Scan(u));
    Goes(s1, Scan(u), t);
    var s3 := Next(s2, DropLk(u));
    Goes(s2, DropLk(u), t);
    GetsQuiet(s3, t);
    GetsAfter(s2, DropLk(u), t);
    GetsAfter(s1, Scan(u), t);
    GetsAfter(s, TakePtable(u), t);
  }

  lemma Goes(s: State, step: Step, t: Tid)
    requires Inv(s) && Enabled(s, step) && Trying(At(s, t)) && (step.t == t ==> step != Release(t))
    ensures Inv(Next(s, step)) && Trying(At(Next(s, step), t))
  {
    StepKeeps(s, step);
    StillTrying(s, step, t);
  }

  // ptable.lock is free: whoever has lk->lk lets go of it.
  lemma GetsUnguarded(s: State, t: Tid)
    requires Inv(s) && Trying(At(s, t)) && s.ptable == {}
    ensures Gets(s, t)
  {
    if s.lk == {} {
      GetsQuiet(s, t);
    } else {
      var u :| u in s.lk;
      assert s.lk == {u} && HoldsLk(At(s, u)) && !HoldsPtable(At(s, u));
      match At(s, u) {
        case Testing =>
          Goes(s, Test(u), t);
          var s1 := Next(s, Test(u));
          if s.locked { GetsDozing(s1, u, t); } else { GetsQuiet(s1, t); }
          GetsAfter(s, Test(u), t);
        case Dozing => GetsDozing(s, u, t);
        case Clearing =>
          Goes(s, Clear(u), t);
          GetsCleared(Next(s, Clear(u)), u, t);
          GetsAfter(s, Clear(u), t);
        case Cleared => GetsCleared(s, u, t);
        case Done =>
          Goes(s, DropLk(u), t);
          GetsQuiet(Next(s, DropLk(u)), t);
          GetsAfter(s, DropLk(u), t);
      }
    }
  }

  // u has found the lock taken, and goes to sleep.
  lemma GetsDozing(s: State, u: Tid, t: Tid)
    requires Inv(s) && Trying(At(s, t)) && s.lk == {u} && s.ptable == {} && At(s, u) == Dozing
    ensures Gets(s, t)
  {
    hide Inv;
    var s1 := Next(s, TakePtable(u));
    Goes(s, TakePtable(u), t);
    var s2 := Next(s1, DropLk(u));
    Goes(s1, DropLk(u), t);
    var s3 := Next(s2, FallAsleep(u));
    Goes(s2, FallAsleep(u), t);
    GetsQuiet(s3, t);
    GetsAfter(s2, FallAsleep(u), t);
    GetsAfter(s1, DropLk(u), t);
    GetsAfter(s, TakePtable(u), t);
  }

  // ptable.lock is given up, by a thread on its way to sleep or by one that
  // wakes the others.
  lemma GetsAny(s: State, t: Tid)
    requires Inv(s) && Trying(At(s, t))
    ensures Gets(s, t)
  {
    if s.ptable == {} {
      GetsUnguarded(s, t);
    } else {
      var u :| u in s.ptable;
      assert s.ptable == {u} && HoldsPtable(At(s, u));
      var s1 := if At(s, u) == Dozing2 then Next(s, DropLk(u)) else s;
      if At(s, u) == Dozing2 { Goes(s, DropLk(u), t); }
      var step := if At(s, u) == Scanning then Scan(u) else FallAsleep(u);
      Goes(s1, step, t);
      GetsUnguarded(Next(s1, step), t);
      GetsAfter(s1, step, t);
      if At(s, u) == Dozing2 { GetsAfter(s, DropLk(u), t); }
    }
  }

  // In every state of every run, a thread in acquiresleep, asleep or not, can
  // still come to hold the lock if the threads that are in the middle of their
  // calls go on and the holder releases.
  lemma CanAcquire(s0: State, steps: seq<Step>, s: State, t: Tid)
    requires Init(s0) && Runs(s0, steps, s) && Trying(At(s, t))
    ensures exists s' :: Reaches(s, s') && At(s', t) == Holding
  {
    InitHolds(s0);
    RunKeeps(s0, steps, s);
    GetsAny(s, t);
  }
}
