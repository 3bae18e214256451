// Processes, kernel threads and CPUs (proc.c) as a step protocol.
//
// A step is one stretch of code run with ptable.lock held, up to the point
// where the lock is released or the thread switches off its CPU.  Any number
// of processes and CPUs take steps in any order.  kalloc succeeds, t_num stays
// within NTHREADS, and the error paths that return with the lock held are not
// taken.
module Threads {
  import opened Blocks

  const NTHREADS: nat := 16

  type Page = nat

  // Thread i of process slot p.
  datatype Slot = Slot(p: nat, i: nat)

  datatype TState = UnusedT | Embryo | Sleeping | Runnable | Running | ZombieT

  datatype PState = UnusedP | ZombieP | UsedP

  datatype Chan = NoChan | OnProc(p: nat) | OnThread(x: Slot) | Other(k: int)

  // What a thread is in the middle of when it does not hold ptable.lock: in
  // wait, in kthread_join for thread j, in exit_process before it takes the
  // lock, or in fork between its two critical sections.
  datatype Duty = Plain | Waiting | Joining(j: nat) | Exiting | Forking(np: nat)

  // cpu is the CPU a RUNNING thread is on.
  datatype Thread = Thread(state: TState, chan: Chan, killed: bool, kstack: Option<Page>, tid: nat, duty: Duty,
          cpu: nat)

  datatype Proc = Proc(state: PState, parent: Option<nat>, tnum: nat)

  // What a page handed out by kalloc is used for.
  datatype Use = Free | Stack(x: Slot) | Elsewhere

  datatype State = State(
    procs: seq<Proc>, threads: map<Slot, Thread>, cpus: seq<Option<Slot>>, pages: map<Page, Use>, init: nat)

  predicate Live(t: Thread) { t.state != UnusedT && t.state != ZombieT }

  // Table entries, and what stands for an entry past the end of the table.
  function T(s: State, x: Slot): Thread {
    if x in s.threads then s.threads[x] else Thread(UnusedT, NoChan, false, None, 0, Plain, 0)
  }

  function P(s: State, p: nat): Proc {
    if p < |s.procs| then s.procs[p] else Proc(UnusedP, None, 0)
  }

  // --- the state invariant ---

  ghost predicate Shaped(s: State) {
    && s.init < |s.procs|
    && (forall x :: x in s.threads <==> x.p < |s.procs| && x.i < NTHREADS)
    && (forall p | 0 <= p < |s.procs| :: s.procs[p].tnum <= NTHREADS)
  }

  // RUNNING threads and CPUs with a current thread are the same thing.
  ghost predicate OnCpus(s: State) {
    && (forall c | 0 <= c < |s.cpus| && s.cpus[c].Some? ::
          T(s, s.cpus[c].value).state == Running && T(s, s.cpus[c].value).cpu == c)
    && (forall x | T(s, x).state == Running :: T(s, x).cpu < |s.cpus| && s.cpus[T(s, x).cpu] == Some(x))
  }

  predicate SlotOk(x: Slot, t: Thread, p: Proc) {
    && (x.i >= p.tnum ==> t.state == UnusedT)
    && (p.state == UnusedP ==> t.state == UnusedT)
    && (p.state == ZombieP ==> !Live(t))
    && (p.state == UsedP && x.i < p.tnum ==> t.state != UnusedT)
    && (t.state != UnusedT ==> t.tid == x.i + 1)
  }

  ghost predicate Slotted(s: State) {
    forall x :: SlotOk(x, T(s, x), P(s, x.p))
  }

  // A process in use has a thread that can still bring it down.
  ghost predicate Manned(s: State) {
    forall p | P(s, p).state == UsedP :: exists x: Slot :: x.p == p && Live(T(s, x))
  }

  predicate InExit(t: Thread) { Live(t) && t.duty == Exiting }

  predicate InWait(t: Thread) { t.state == Sleeping && t.duty == Waiting }

  predicate InFork(t: Thread) { Live(t) && t.duty.Forking? }

  // A thread that has decided to take its process down is the last one alive.
  ghost predicate Alone(s: State) {
    forall x, y | InExit(T(s, x)) && Live(T(s, y)) && x.p == y.p :: x == y
  }

  ghost predicate Waiters(s: State) {
    && (forall x | InWait(T(s, x)) :: T(s, x).chan == OnProc(x.p))
    && (forall x, q | InWait(T(s, x)) && P(s, q).state == ZombieP :: P(s, q).parent != Some(x.p))
  }

  predicate JoinOk(x: Slot, t: Thread, p: Proc) {
    && (Live(t) && t.duty.Joining? ==> t.duty.j < p.tnum)
    && (t.state == Sleeping && t.duty.Joining? ==> t.chan == OnThread(Slot(x.p, t.duty.j)))
  }

  ghost predicate Joiners(s: State) {
    && (forall x :: JoinOk(x, T(s, x), P(s, x.p)))
    && (forall x, y | T(s, x).state == Sleeping && T(s, x).duty.Joining? && y == Slot(x.p, T(s, x).duty.j) ::
          T(s, y).state != ZombieT)
  }

  ghost predicate Unborn(s: State, p: nat) { T(s, Slot(p, 0)).state == Embryo }

  // Parents are in use, and every process but init has one once it is born.
  ghost predicate Family(s: State) {
    && P(s, s.init).state == UsedP && !Unborn(s, s.init) && P(s, s.init).parent == None
    && (forall p, q | P(s, p).parent == Some(q) :: P(s, q).state == UsedP && p != q)
    && (forall p | p != s.init :: P(s, p).parent.Some? <==> P(s, p).state != UnusedP && !Unborn(s, p))
  }

  ghost predicate Births(s: State) {
    && (forall x | T(s, x).state == Embryo :: x.i == 0 && P(s, x.p).tnum == 1 && T(s, x).duty == Plain)
    && (forall x, np | InFork(T(s, x)) && T(s, x).duty == Forking(np) :: Unborn(s, np))
    && (forall x, y | InFork(T(s, x)) && InFork(T(s, y)) && T(s, x).duty == T(s, y).duty :: x == y)
  }

  // Each kernel stack belongs to one thread, and each thread in use has one.
  ghost predicate Stacks(s: State) {
    && (forall x :: T(s, x).kstack == None <==> T(s, x).state == UnusedT)
    && (forall x, k | T(s, x).kstack == Some(k) :: k in s.pages && s.pages[k] == Stack(x))
    && (forall x, k | k in s.pages && s.pages[k] == Stack(x) :: T(s, x).kstack == Some(k))
  }

  ghost predicate Inv(s: State) {
    && Shaped(s) && OnCpus(s) && Slotted(s) && Manned(s) && Alone(s) && Waiters(s)
    && Joiners(s) && Family(s) && Births(s) && Stacks(s)
  }

  // --- the pieces steps are made of ---

  predicate Roused(s: State, x: Slot, ch: Chan) {
    x.i < P(s, x.p).tnum && T(s, x).state == Sleeping && T(s, x).chan == ch
  }

  // wakeup1
  function Wake(s: State, ch: Chan): State {
    s.(threads := map x | x in s.threads ::
         if Roused(s, x, ch) then s.threads[x].(state := Runnable) else s.threads[x])
  }

  // The loop that kill and exit share.
  function Interrupt(s: State, p: nat): State {
    s.(threads := map x | x in s.threads ::
         var t := s.threads[x];
         if x.p == p && x.i < P(s, p).tnum
         then t.(killed := true, state := if t.state == Sleeping then Runnable else t.state)
         else t)
  }

  predicate Stirred(t: Thread, t': Thread) {
    && t' == t.(killed := t'.killed, state := t'.state)
    && (t'.state == t.state || (t.state == Sleeping && t'.state == Runnable))
  }

  // Some sleepers made RUNNABLE, and nothing else.
  ghost predicate Woken(s: State, s': State) {
    && s' == s.(threads := s'.threads) && s'.threads.Keys == s.threads.Keys
    && (forall x :: Stirred(T(s, x), T(s', x)))
  }

  lemma SameProcs(s: State, s': State)
    requires s'.procs == s.procs
    ensures forall p {:trigger P(s', p)} :: P(s', p) == P(s, p)
  {
  }

  lemma WokenSlots(s: State, s': State)
    requires Shaped(s) && OnCpus(s) && Slotted(s) && Manned(s) && Woken(s, s')
    ensures Shaped(s') && OnCpus(s') && Slotted(s') && Manned(s')
  {
    hide T;
    SameProcs(s, s');
  }

  lemma WokenDuties(s: State, s': State)
    requires Alone(s) && Waiters(s) && Joiners(s) && Woken(s, s')
    ensures Alone(s') && Waiters(s') && Joiners(s')
  {
    hide T;
    SameProcs(s, s');
  }

  lemma WokenBirths(s: State, s': State)
    requires Family(s) && Births(s) && Woken(s, s')
    ensures Family(s') && Births(s')
  {
    hide T;
    SameProcs(s, s');
  }

  lemma WokenStacks(s: State, s': State)
    requires Stacks(s) && Woken(s, s')
    ensures Stacks(s')
  {
    hide T;
  }

  lemma WokenKeeps(s: State, s': State)
    requires Inv(s) && Woken(s, s')
    ensures Inv(s')
  {
    hide OnCpus, Slotted, Manned, Alone, Waiters, Joiners, Family, Births, Stacks, Woken, Shaped;
    WokenSlots(s, s');
    WokenDuties(s, s');
    WokenBirths(s, s');
    WokenStacks(s, s');
  }

  // Thread x becomes t.
  function Set(s: State, x: Slot, t: Thread): State { s.(threads := s.threads[x := t]) }

  // Live thread x becomes t': switched on or off a CPU, or further along.
  ghost predicate MoveOk(s: State, x: Slot, t': Thread) {
    && x in s.threads && Live(T(s, x)) && T(s, x).state != Embryo
    && t'.state != UnusedT && t'.state != Embryo && t'.kstack == T(s, x).kstack && t'.tid == T(s, x).tid
    && (InExit(t') ==> forall y: Slot | y.p == x.p && Live(T(s, y)) :: y == x)
    && (InWait(t') ==> t'.chan == OnProc(x.p) && forall q | P(s, q).state == ZombieP :: P(s, q).parent != Some(x.p))
    && JoinOk(x, t', P(s, x.p))
    && (t'.state == Sleeping && t'.duty.Joining? ==> T(s, Slot(x.p, t'.duty.j)).state != ZombieT)
    && (InFork(t') ==>
          || t'.duty == T(s, x).duty
          || (Unborn(s, t'.duty.np) && forall y | InFork(T(s, y)) :: T(s, y).duty != t'.duty))
    && (t'.state == ZombieT ==>
          && (forall y | T(s, y).state == Sleeping :: T(s, y).chan != OnThread(x))
          && (exists y: Slot :: y.p == x.p && y != x && Live(T(s, y))))
  }

  ghost predicate Moved(s: State, x: Slot, t': Thread, s': State) {
    && x in s.threads
    && s' == s.(threads := s.threads[x := t'], cpus := s'.cpus)
  }

  lemma MovedAt(s: State, x: Slot, t': Thread, s': State)
    requires Moved(s, x, t', s')
    ensures forall y {:trigger T(s', y)} :: T(s', y) == if y == x then t' else T(s, y)
    ensures forall p {:trigger P(s', p)} :: P(s', p) == P(s, p)
    ensures Shaped(s) ==> Shaped(s')
    ensures s'.init == s.init && s'.pages == s.pages
  {
  }

  lemma MovedSlots(s: State, x: Slot, t': Thread, s': State)
    requires Slotted(s) && Manned(s) && Moved(s, x, t', s') && MoveOk(s, x, t')
    ensures Slotted(s') && Manned(s')
  {
    hide T, P, Moved;
    MovedAt(s, x, t', s');
    assert P(s, x.p).state == UsedP && x.i < P(s, x.p).tnum by { assert SlotOk(x, T(s, x), P(s, x.p)); }
  }

  lemma MovedDuties(s: State, x: Slot, t': Thread, s': State)
    requires Alone(s) && Waiters(s) && Joiners(s) && Moved(s, x, t', s') && MoveOk(s, x, t')
    ensures Alone(s') && Waiters(s') && Joiners(s')
  {
    hide T, P, Moved;
    MovedAt(s, x, t', s');
  }

  lemma MovedBirths(s: State, x: Slot, t': Thread, s': State)
    requires Family(s) && Births(s) && Moved(s, x, t', s') && MoveOk(s, x, t')
    ensures Family(s') && Births(s')
  {
    hide T, P, Moved;
    MovedAt(s, x, t', s');
  }

  lemma MovedStacks(s: State, x: Slot, t': Thread, s': State)
    requires Stacks(s) && Moved(s, x, t', s') && MoveOk(s, x, t')
    ensures Stacks(s')
  {
    hide T, P, Moved;
    MovedAt(s, x, t', s');
  }

  // The CPU's side of a move: x stays on its CPU, leaves it, or is put on one.
  ghost predicate Switch(s: State, x: Slot, t': Thread, cpus': seq<Option<Slot>>) {
    || (T(s, x).state == Running && t'.state == Running && t'.cpu == T(s, x).cpu && cpus' == s.cpus)
    || (T(s, x).state == Running && t'.state != Running
        && T(s, x).cpu < |s.cpus| && cpus' == s.cpus[T(s, x).cpu := None])
    || (T(s, x).state != Running && t'.state == Running
        && t'.cpu < |s.cpus| && s.cpus[t'.cpu] == None && cpus' == s.cpus[t'.cpu := Some(x)])
  }

  lemma MovedCpus(s: State, x: Slot, t': Thread, s': State)
    requires OnCpus(s) && Moved(s, x, t', s') && Switch(s, x, t', s'.cpus)
    ensures OnCpus(s')
  {
    hide T, P, Moved;
    MovedAt(s, x, t', s');
  }

  lemma MovedKeeps(s: State, x: Slot, t': Thread, s': State)
    requires Inv(s) && Moved(s, x, t', s') && MoveOk(s, x, t') && Switch(s, x, t', s'.cpus)
    ensures Inv(s')
  {
    hide OnCpus, Slotted, Manned, Alone, Waiters, Joiners, Family, Births, Stacks, Shaped, Moved, MoveOk, Switch;
    MovedAt(s, x, t', s');
    MovedCpus(s, x, t', s');
    MovedSlots(s, x, t', s');
    MovedDuties(s, x, t', s');
    MovedBirths(s, x, t', s');
    MovedStacks(s, x, t', s');
  }

  // --- allocthread ---

  // A new thread of process p, on kernel stack k.
  function Allot(s: State, p: nat, k: Page, st: TState): State
    requires p < |s.procs|
  {
    var x := Slot(p, s.procs[p].tnum);
    s.(procs := s.procs[p := s.procs[p].(tnum := s.procs[p].tnum + 1)],
       threads := s.threads[x := T(s, x).(
         state := st, killed := false, kstack := Some(k), tid := x.i + 1, duty := Plain)],
       pages := s.pages[k := Stack(x)])
  }

  // allocproc
  function Born(s: State, np: nat, k: Page): State
    requires np < |s.procs|
  {
    Allot(s.(procs := s.procs[np := s.procs[np].(state := UsedP, tnum := 0)]), np, k, Embryo)
  }

  ghost predicate Alloted(s: State, x: Slot, k: Page, st: TState, s': State) {
    && (forall y {:trigger T(s', y)} ::
          T(s', y) ==
            if y == x then T(s, x).(state := st, killed := false, kstack := Some(k), tid := x.i + 1, duty := Plain)
            else T(s, y))
    && (forall q {:trigger P(s', q)} ::
          P(s', q) == if q == x.p then P(s, q).(state := UsedP, tnum := x.i + 1) else P(s, q))
    && s'.cpus == s.cpus && s'.init == s.init && s'.pages == s.pages[k := Stack(x)]
    && k in s.pages && s.pages[k] == Free
  }

  lemma AllotedAt(s: State, p: nat, k: Page)
    requires Shaped(s) && p < |s.procs| && k in s.pages && s.pages[k] == Free && s.procs[p].state == UsedP
    requires s.procs[p].tnum < NTHREADS
    ensures Shaped(Allot(s, p, k, Runnable)) && Alloted(s, Slot(p, P(s, p).tnum), k, Runnable, Allot(s, p, k, Runnable))
  {
    var s' := Allot(s, p, k, Runnable);
    assert Slot(p, s.procs[p].tnum) in s.threads;
    assert s'.threads.Keys == s.threads.Keys;
  }

  lemma BornAt(s: State, np: nat, k: Page)
    requires Shaped(s) && np < |s.procs| && k in s.pages && s.pages[k] == Free
    ensures Shaped(Born(s, np, k)) && Alloted(s, Slot(np, 0), k, Embryo, Born(s, np, k))
  {
    var s' := Born(s, np, k);
    assert Slot(np, 0) in s.threads;
    assert s'.threads.Keys == s.threads.Keys;
  }

  ghost predicate AllotOk(s: State, x: Slot, st: TState) {
    && T(s, x).state == UnusedT
    && (forall y: Slot | y.p == x.p && Live(T(s, y)) :: T(s, y).duty != Exiting && T(s, y).state != Embryo)
    && (|| (st == Runnable && P(s, x.p).state == UsedP && x.i == P(s, x.p).tnum && !Unborn(s, x.p))
        || (st == Embryo && P(s, x.p).state == UnusedP && x.i == 0))
  }

  lemma AllotedSlots(s: State, x: Slot, k: Page, st: TState, s': State)
    requires OnCpus(s) && Slotted(s) && Manned(s) && Alloted(s, x, k, st, s') && AllotOk(s, x, st)
    ensures OnCpus(s') && Slotted(s') && Manned(s')
  {
    hide T, P;
    assert Live(T(s', x));
    forall y ensures SlotOk(y, T(s', y), P(s', y.p)) { assert SlotOk(y, T(s, y), P(s, y.p)); }
  }

  lemma AllotedDuties(s: State, x: Slot, k: Page, st: TState, s': State)
    requires Slotted(s) && Alone(s) && Waiters(s) && Joiners(s) && Alloted(s, x, k, st, s') && AllotOk(s, x, st)
    ensures Alone(s') && Waiters(s') && Joiners(s')
  {
    hide T, P;
    forall y ensures JoinOk(y, T(s', y), P(s', y.p)) {
      assert SlotOk(y, T(s, y), P(s, y.p));
      assert JoinOk(y, T(s, y), P(s, y.p));
    }
  }

  lemma AllotedBirths(s: State, x: Slot, k: Page, st: TState, s': State)
    requires Family(s) && Births(s) && Slotted(s) && Alloted(s, x, k, st, s') && AllotOk(s, x, st)
    ensures Family(s') && Births(s')
  {
    hide T, P;
    forall y: Slot ensures y.p == x.p && y != x ==> T(s', y).state != Embryo { assert SlotOk(y, T(s, y), P(s, y.p)); }
  }

  lemma AllotedStacks(s: State, x: Slot, k: Page, st: TState, s': State)
    requires Stacks(s) && Alloted(s, x, k, st, s') && AllotOk(s, x, st)
    ensures Stacks(s')
  {
    hide T, P;
  }

  lemma AllotedKeeps(s: State, x: Slot, k: Page, st: TState, s': State)
    requires Inv(s) && Shaped(s') && Alloted(s, x, k, st, s') && AllotOk(s, x, st)
    ensures Inv(s')
  {
    hide OnCpus, Slotted, Manned, Alone, Waiters, Joiners, Family, Births, Stacks, Shaped, Alloted, AllotOk;
    AllotedSlots(s, x, k, st, s');
    AllotedDuties(s, x, k, st, s');
    AllotedBirths(s, x, k, st, s');
    AllotedStacks(s, x, k, st, s');
  }

  // --- the end of fork ---

  // np, fully made, becomes a child of q.
  function Deliver(s: State, np: nat, q: nat): State
    requires np < |s.procs|
  {
    var x := Slot(np, 0);
    s.(procs := s.procs[np := s.procs[np].(parent := Some(q))],
       threads := s.threads[x := T(s, x).(state := Runnable)])
  }

  ghost predicate Delivered(s: State, np: nat, q: nat, s': State) {
    && (forall y {:trigger T(s', y)} :: T(s', y) == if y == Slot(np, 0) then T(s, y).(state := Runnable) else T(s, y))
    && (forall r {:trigger P(s', r)} :: P(s', r) == if r == np then P(s, r).(parent := Some(q)) else P(s, r))
    && s'.cpus == s.cpus && s'.init == s.init && s'.pages == s.pages
  }

  lemma DeliveredAt(s: State, np: nat, q: nat)
    requires Shaped(s) && np < |s.procs|
    ensures Shaped(Deliver(s, np, q)) && Delivered(s, np, q, Deliver(s, np, q))
  {
    assert Slot(np, 0) in s.threads;
    assert Deliver(s, np, q).threads.Keys == s.threads.Keys;
  }

  ghost predicate DeliverOk(s: State, np: nat, q: nat) {
    && Unborn(s, np) && P(s, q).state == UsedP && np != q
    && (forall y | InFork(T(s, y)) :: T(s, y).duty != Forking(np))
  }

  lemma DeliveredSlots(s: State, np: nat, q: nat, s': State)
    requires OnCpus(s) && Slotted(s) && Manned(s) && Alone(s)
    requires Births(s) && Delivered(s, np, q, s') && DeliverOk(s, np, q)
    ensures OnCpus(s') && Slotted(s') && Manned(s') && Alone(s')
  {
    hide T, P;
    assert SlotOk(Slot(np, 0), T(s, Slot(np, 0)), P(s, np));
    forall y ensures SlotOk(y, T(s', y), P(s', y.p)) { assert SlotOk(y, T(s, y), P(s, y.p)); }
  }

  lemma DeliveredDuties(s: State, np: nat, q: nat, s': State)
    requires Slotted(s) && Waiters(s) && Joiners(s)
    requires Births(s) && Delivered(s, np, q, s') && DeliverOk(s, np, q)
    ensures Waiters(s') && Joiners(s')
  {
    hide T, P;
    assert SlotOk(Slot(np, 0), T(s, Slot(np, 0)), P(s, np));
    forall y ensures JoinOk(y, T(s', y), P(s', y.p)) { assert JoinOk(y, T(s, y), P(s, y.p)); }
  }

  lemma DeliveredBirths(s: State, np: nat, q: nat, s': State)
    requires Slotted(s) && Family(s) && Births(s) && Delivered(s, np, q, s') && DeliverOk(s, np, q)
    ensures Family(s') && Births(s')
  {
    hide T, P;
    assert SlotOk(Slot(np, 0), T(s, Slot(np, 0)), P(s, np));
  }

  lemma DeliveredStacks(s: State, np: nat, q: nat, s': State)
    requires Stacks(s) && Delivered(s, np, q, s') && DeliverOk(s, np, q)
    ensures Stacks(s')
  {
    hide T, P;
  }

  lemma DeliveredKeeps(s: State, np: nat, q: nat, s': State)
    requires Inv(s) && Shaped(s') && Delivered(s, np, q, s') && DeliverOk(s, np, q)
    ensures Inv(s')
  {
    hide OnCpus, Slotted, Manned, Alone, Waiters, Joiners, Family, Births, Stacks, Shaped, Delivered, DeliverOk;
    DeliveredSlots(s, np, q, s');
    DeliveredDuties(s, np, q, s');
    DeliveredBirths(s, np, q, s');
    DeliveredStacks(s, np, q, s');
  }

  // --- the reaping in wait ---

  predicate Reaped(s: State, q: nat, x: Slot) {
    x.p == q && x.i < P(s, q).tnum && T(s, x).state == ZombieT
  }

  // The stacks of q's dead threads.
  function Freed(s: State, q: nat): set<Page> {
    set x | x in s.threads && Reaped(s, q, x) && s.threads[x].kstack.Some? :: s.threads[x].kstack.value
  }

  function Reap(s: State, q: nat): State
    requires q < |s.procs|
  {
    s.(procs := s.procs[q := s.procs[q].(state := UnusedP, parent := None)],
       threads := map x | x in s.threads ::
         if Reaped(s, q, x) then s.threads[x].(state := UnusedT, kstack := None, tid := 0, killed := false)
         else s.threads[x],
       pages := map k | k in s.pages :: if k in Freed(s, q) then Free else s.pages[k])
  }

  ghost predicate Reaping(s: State, q: nat, s': State) {
    && (forall y {:trigger T(s', y)} ::
          T(s', y) ==
            if Reaped(s, q, y) then T(s, y).(state := UnusedT, kstack := None, tid := 0, killed := false) else T(s, y))
    && (forall r {:trigger P(s', r)} ::
        P(s', r) == if r == q then P(s, r).(state := UnusedP, parent := None) else P(s, r))
    && s'.cpus == s.cpus && s'.init == s.init && s'.pages.Keys == s.pages.Keys
    && (forall k | k in s.pages ::
        s'.pages[k] == if s.pages[k].Stack? && Reaped(s, q, s.pages[k].x) then Free else s.pages[k])
  }

  lemma ReapingAt(s: State, q: nat)
    requires Shaped(s) && Stacks(s) && q < |s.procs|
    ensures Shaped(Reap(s, q)) && Reaping(s, q, Reap(s, q))
  {
    var s' := Reap(s, q);
    assert s'.threads.Keys == s.threads.Keys;
    forall k | k in s.pages ensures k in Freed(s, q) <==> s.pages[k].Stack? && Reaped(s, q, s.pages[k].x) {
      if k in Freed(s, q) {
        var x :| x in s.threads && Reaped(s, q, x) && s.threads[x].kstack == Some(k);
        assert T(s, x).kstack == Some(k);
      } else if s.pages[k].Stack? {
        assert T(s, s.pages[k].x).kstack == Some(k);
      }
    }
  }

  lemma ReapingDuties(s: State, q: nat, s': State)
    requires OnCpus(s) && Slotted(s) && Manned(s) && Alone(s) && Waiters(s) && Joiners(s)
    requires Reaping(s, q, s') && P(s, q).state == ZombieP
    ensures OnCpus(s') && Slotted(s') && Manned(s') && Alone(s') && Waiters(s') && Joiners(s')
  {
    hide T, P;
    forall y ensures SlotOk(y, T(s', y), P(s', y.p)) { assert SlotOk(y, T(s, y), P(s, y.p)); }
    forall y ensures JoinOk(y, T(s', y), P(s', y.p)) { assert JoinOk(y, T(s, y), P(s, y.p)); }
  }

  lemma ReapingFamily(s: State, q: nat, s': State)
    requires Slotted(s) && Family(s) && Reaping(s, q, s') && P(s, q).state == ZombieP
    ensures Family(s')
  {
    hide T, P;
    assert SlotOk(Slot(q, 0), T(s, Slot(q, 0)), P(s, q));
    forall p ensures Unborn(s', p) == Unborn(s, p) {}
  }

  lemma ReapingBirths(s: State, q: nat, s': State)
    requires Slotted(s) && Births(s) && Reaping(s, q, s') && P(s, q).state == ZombieP
    ensures Births(s')
  {
    hide T, P;
    assert SlotOk(Slot(q, 0), T(s, Slot(q, 0)), P(s, q));
    forall p ensures Unborn(s', p) == Unborn(s, p) {}
    forall y ensures InFork(T(s', y)) == InFork(T(s, y)) && T(s', y).duty == T(s, y).duty {}
    forall y ensures T(s', y).state == Embryo <==> T(s, y).state == Embryo {}
  }

  lemma ReapingStacks(s: State, q: nat, s': State)
    requires Slotted(s) && Stacks(s) && Reaping(s, q, s') && P(s, q).state == ZombieP
    ensures Stacks(s')
  {
    hide T, P;
  }

  lemma ReapingKeeps(s: State, q: nat, s': State)
    requires Inv(s) && Shaped(s') && Reaping(s, q, s') && P(s, q).state == ZombieP
    ensures Inv(s')
  {
    hide OnCpus, Slotted, Manned, Alone, Waiters, Joiners, Family, Births, Stacks, Shaped, Reaping, P;
    ReapingDuties(s, q, s');
    ReapingFamily(s, q, s');
    ReapingBirths(s, q, s');
    ReapingStacks(s, q, s');
  }

  // --- exit_process ---

  // Children of p pass to init.
  function Reparent(s: State, p: nat): State {
    s.(procs := seq(|s.procs|, q requires 0 <= q < |s.procs| =>
         if s.procs[q].parent == Some(p) then s.procs[q].(parent := Some(s.init)) else s.procs[q]))
  }

  ghost predicate Reparented(s: State, p: nat, s': State) {
    && (forall y {:trigger T(s', y)} :: T(s', y) == T(s, y))
    && (forall q {:trigger P(s', q)} ::
          P(s', q) == if P(s, q).parent == Some(p) then P(s, q).(parent := Some(s.init)) else P(s, q))
    && s'.cpus == s.cpus && s'.init == s.init && s'.pages == s.pages
  }

  lemma ReparentedAt(s: State, p: nat)
    requires Shaped(s)
    ensures Shaped(Reparent(s, p)) && Reparented(s, p, Reparent(s, p))
  {
  }

  // init is not asleep in wait if it is given a zombie.
  ghost predicate ReparentOk(s: State, p: nat) {
    forall x, q | InWait(T(s, x)) && x.p == s.init && P(s, q).state == ZombieP :: P(s, q).parent != Some(p)
  }

  lemma ReparentedKeeps(s: State, p: nat, s': State)
    requires Inv(s) && Shaped(s') && Reparented(s, p, s') && ReparentOk(s, p)
    ensures Inv(s')
  {
    hide OnCpus, Slotted, Manned, Alone, Waiters, Joiners, Family, Births, Stacks, Shaped, Reparented, ReparentOk;
    ReparentedDuties(s, p, s');
    ReparentedFamily(s, p, s');
    ReparentedBirths(s, p, s');
  }

  lemma ReparentedDuties(s: State, p: nat, s': State)
    requires OnCpus(s) && Slotted(s) && Manned(s) && Alone(s) && Waiters(s) && Joiners(s)
    requires Reparented(s, p, s') && ReparentOk(s, p)
    ensures OnCpus(s') && Slotted(s') && Manned(s') && Alone(s') && Waiters(s') && Joiners(s')
  {
    hide T, P;
    forall y ensures SlotOk(y, T(s', y), P(s', y.p)) { assert SlotOk(y, T(s, y), P(s, y.p)); }
    forall y ensures JoinOk(y, T(s', y), P(s', y.p)) { assert JoinOk(y, T(s, y), P(s, y.p)); }
  }

  lemma ReparentedFamily(s: State, p: nat, s': State)
    requires Family(s) && Reparented(s, p, s')
    ensures Family(s')
  {
    hide T, P;
    forall q ensures Unborn(s', q) == Unborn(s, q) {}
  }

  lemma ReparentedBirths(s: State, p: nat, s': State)
    requires Births(s) && Stacks(s) && Reparented(s, p, s')
    ensures Births(s') && Stacks(s')
  {
    hide T, P;
    forall q ensures Unborn(s', q) == Unborn(s, q) {}
  }

  // The last thread x of its process goes, and the process with it.
  function Zombify(s: State, x: Slot): State
    requires x in s.threads && x.p < |s.procs| && T(s, x).cpu < |s.cpus|
  {
    s.(procs := s.procs[x.p := s.procs[x.p].(state := ZombieP)],
       threads := s.threads[x := s.threads[x].(state := ZombieT, duty := Plain)],
       cpus := s.cpus[T(s, x).cpu := None])
  }

  ghost predicate Zombied(s: State, x: Slot, s': State) {
    && (forall y {:trigger T(s', y)} ::
        T(s', y) == if y == x then T(s, x).(state := ZombieT, duty := Plain) else T(s, y))
    && (forall q {:trigger P(s', q)} :: P(s', q) == if q == x.p then P(s, q).(state := ZombieP) else P(s, q))
    && T(s, x).cpu < |s.cpus| && s'.cpus == s.cpus[T(s, x).cpu := None]
    && s'.init == s.init && s'.pages == s.pages
  }

  lemma ZombiedAt(s: State, x: Slot)
    requires Shaped(s) && x in s.threads && T(s, x).cpu < |s.cpus|
    ensures Shaped(Zombify(s, x)) && Zombied(s, x, Zombify(s, x))
  {
    assert Zombify(s, x).threads.Keys == s.threads.Keys;
  }

  ghost predicate ZombifyOk(s: State, x: Slot) {
    && T(s, x).state == Running && InExit(T(s, x)) && x.p != s.init
    && (forall q :: P(s, q).parent != Some(x.p))
    && (forall y | InWait(T(s, y)) :: P(s, x.p).parent != Some(y.p))
  }

  lemma ZombiedSlots(s: State, x: Slot, s': State)
    requires OnCpus(s) && Slotted(s) && Manned(s) && Alone(s) && Zombied(s, x, s') && ZombifyOk(s, x)
    ensures OnCpus(s') && Slotted(s') && Manned(s') && Alone(s')
  {
    hide T, P;
    forall y ensures SlotOk(y, T(s', y), P(s', y.p)) { assert SlotOk(y, T(s, y), P(s, y.p)); }
  }

  lemma ZombiedDuties(s: State, x: Slot, s': State)
    requires Alone(s) && Waiters(s) && Joiners(s) && Zombied(s, x, s') && ZombifyOk(s, x)
    ensures Waiters(s') && Joiners(s')
  {
    hide T, P;
    forall y ensures JoinOk(y, T(s', y), P(s', y.p)) { assert JoinOk(y, T(s, y), P(s, y.p)); }
  }

  lemma ZombiedBirths(s: State, x: Slot, s': State)
    requires Slotted(s) && Family(s) && Births(s) && Zombied(s, x, s') && ZombifyOk(s, x)
    ensures Family(s') && Births(s')
  {
    hide T, P;
    assert SlotOk(x, T(s, x), P(s, x.p));
  }

  lemma ZombiedStacks(s: State, x: Slot, s': State)
    requires Stacks(s) && Zombied(s, x, s') && ZombifyOk(s, x)
    ensures Stacks(s')
  {
    hide T, P;
  }

  lemma ZombiedKeeps(s: State, x: Slot, s': State)
    requires Inv(s) && Shaped(s') && Zombied(s, x, s') && ZombifyOk(s, x)
    ensures Inv(s')
  {
    hide OnCpus, Slotted, Manned, Alone, Waiters, Joiners, Family, Births, Stacks, Shaped, Zombied, ZombifyOk;
    ZombiedSlots(s, x, s');
    ZombiedDuties(s, x, s');
    ZombiedBirths(s, x, s');
    ZombiedStacks(s, x, s');
  }

  // --- pages changing hands elsewhere ---

  ghost predicate Elsewhen(s: State, k: Page, u: Use, s': State) {
    && k in s.pages && !s.pages[k].Stack? && !u.Stack?
    && s' == s.(pages := s.pages[k := u])
  }

  lemma ElsewhenAt(s: State, k: Page, u: Use, s': State)
    requires Elsewhen(s, k, u, s')
    ensures forall y {:trigger T(s', y)} :: T(s', y) == T(s, y)
    ensures forall p {:trigger P(s', p)} :: P(s', p) == P(s, p)
    ensures Shaped(s) ==> Shaped(s')
  {
  }

  lemma ElsewhenDuties(s: State, k: Page, u: Use, s': State)
    requires OnCpus(s) && Slotted(s) && Manned(s) && Alone(s) && Waiters(s) && Joiners(s) && Elsewhen(s, k, u, s')
    ensures OnCpus(s') && Slotted(s') && Manned(s') && Alone(s') && Waiters(s') && Joiners(s')
  {
    hide T, P;
    ElsewhenAt(s, k, u, s');
    forall y ensures SlotOk(y, T(s', y), P(s', y.p)) { assert SlotOk(y, T(s, y), P(s, y.p)); }
    forall y ensures JoinOk(y, T(s', y), P(s', y.p)) { assert JoinOk(y, T(s, y), P(s, y.p)); }
  }

  lemma ElsewhenBirths(s: State, k: Page, u: Use, s': State)
    requires Family(s) && Births(s) && Elsewhen(s, k, u, s')
    ensures Family(s') && Births(s')
  {
    hide T, P;
    ElsewhenAt(s, k, u, s');
  }

  lemma ElsewhenStacks(s: State, k: Page, u: Use, s': State)
    requires Stacks(s) && Elsewhen(s, k, u, s')
    ensures Stacks(s')
  {
    hide T, P;
    ElsewhenAt(s, k, u, s');
  }

  lemma ElsewhenKeeps(s: State, k: Page, u: Use, s': State)
    requires Inv(s) && Elsewhen(s, k, u, s')
    ensures Inv(s')
  {
    hide OnCpus, Slotted, Manned, Alone, Waiters, Joiners, Family, Births, Stacks, Shaped, Elsewhen;
    ElsewhenAt(s, k, u, s');
    ElsewhenDuties(s, k, u, s');
    ElsewhenBirths(s, k, u, s');
    ElsewhenStacks(s, k, u, s');
  }
}
