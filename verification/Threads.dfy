// Processes, kernel threads and CPUs of Ass2/proc.c.  Every critical section of ptable.lock
// is one step; a step that ends in sched() leaves the CPU to the scheduler.  TEMBRYO and
// PEMBRYO exist only while the lock is held, so no state shows them.

module Threads {
  const NPROC := 64
  const NTHREAD := 16

  datatype ThreadState = TUnused | TSleeping | TRunnable | TRunning | TZombie

  /** What a sleeper waits for: a struct proc, a struct thread, or some other address. */
  datatype Chan = NoChan | OnProc(p: nat) | OnThread(q: nat, t: nat) | Other(n: int)

  /** Where in the kernel the thread is when it next runs. */
  datatype Place =
    | User                                    // outside the loops below
    | Waiting                                 // the loop of wait
    | Joining(slot: nat, id: nat)             // the loop of kthread_join
    | Killing(first: bool, exiting: bool)     // kill_other_threads, for exit or for exec
    | Exiting                                 // safe_exit, before it takes the lock
    | Gone

  datatype Thread = Thread(tid: nat, state: ThreadState, kstack: nat, chan: Chan, killed: bool, pc: Place)

  datatype ProcState = PUnused | PUsed | PZombie

  /** parent is -1 for the null pointer. */
  datatype Proc = Proc(state: ProcState, pid: nat, parent: int)

  datatype Cpu = Idle | On(p: nat, t: nat)

  type Table = seq<seq<Thread>>

  datatype State = State(procs: seq<Proc>, th: Table, cpus: seq<Cpu>, nextpid: nat, nexttid: nat, init: nat)

  predicate Shape(th: Table) {
    |th| == NPROC && forall p :: 0 <= p < NPROC ==> |th[p]| == NTHREAD
  }

  predicate At(p: int, t: int) {
    0 <= p < NPROC && 0 <= t < NTHREAD
  }

  predicate Live(x: Thread) {
    x.state != TUnused
  }

  function Put(th: Table, p: nat, t: nat, x: Thread): (r: Table)
    requires Shape(th) && At(p, t)
    ensures Shape(r)
    ensures forall q, u :: At(q, u) ==> r[q][u] == if q == p && u == t then x else th[q][u]
  {
    th[p := th[p][t := x]]
  }

  // ---------- the loops inside the critical sections, as functions ----------

  function Woken(x: Thread, chan: Chan): Thread {
    if x.state == TSleeping && x.chan == chan then x.(state := TRunnable) else x
  }

  function WakeRow(row: seq<Thread>, chan: Chan): (r: seq<Thread>)
    ensures |r| == |row| && forall t :: 0 <= t < |row| ==> r[t] == Woken(row[t], chan)
  {
    seq(|row|, t requires 0 <= t < |row| => Woken(row[t], chan))
  }

  /** wakeup1 */
  function WakeAll(th: Table, chan: Chan): (r: Table)
    requires Shape(th)
    ensures Shape(r) && forall p, t :: At(p, t) ==> r[p][t] == Woken(th[p][t], chan)
  {
    seq(|th|, p requires 0 <= p < |th| => WakeRow(th[p], chan))
  }

  /** remove_thread; the chan field is left alone. */
  function Removed(x: Thread): Thread {
    Thread(0, TUnused, 0, x.chan, false, Gone)
  }

  function RemoveRow(row: seq<Thread>): (r: seq<Thread>)
    ensures |r| == |row| && forall t :: 0 <= t < |row| ==> r[t] == Removed(row[t])
  {
    seq(|row|, t requires 0 <= t < |row| => Removed(row[t]))
  }

  /** One thread in the scan of kill_other_threads. */
  function Scanned(x: Thread, tid: nat): Thread {
    if x.tid != tid && x.state != TUnused then
      if x.state == TSleeping || x.state == TZombie then Removed(x) else x.(killed := true)
    else x
  }

  predicate Hit(x: Thread, tid: nat) {
    x.tid != tid && x.state != TUnused
  }

  function ScanRow(row: seq<Thread>, tid: nat): (r: seq<Thread>)
    ensures |r| == |row| && forall t :: 0 <= t < |row| ==> r[t] == Scanned(row[t], tid)
  {
    seq(|row|, t requires 0 <= t < |row| => Scanned(row[t], tid))
  }

  predicate Found(row: seq<Thread>, tid: nat) {
    exists t :: 0 <= t < |row| && Hit(row[t], tid)
  }

  /** safe_exit passes the children of p to init. */
  function Adopted(x: Proc, p: nat, init: nat): Proc {
    if x.parent == p then x.(parent := init) else x
  }

  function Reparent(procs: seq<Proc>, p: nat, init: nat): (r: seq<Proc>)
    ensures |r| == |procs| && forall q :: 0 <= q < |procs| ==> r[q] == Adopted(procs[q], p, init)
  {
    seq(|procs|, q requires 0 <= q < |procs| => Adopted(procs[q], p, init))
  }

  predicate ZombieChild(procs: seq<Proc>, p: nat) {
    exists q :: 0 <= q < |procs| && procs[q].parent == p && procs[q].state == PZombie
  }

  predicate HasChild(procs: seq<Proc>, p: nat) {
    exists q :: 0 <= q < |procs| && procs[q].parent == p
  }

  // ---------- steps ----------

  predicate Cur(s: State, c: nat, p: nat, t: nat) {
    c < |s.cpus| && s.cpus[c] == On(p, t) && At(p, t) && Shape(s.th) && |s.procs| == NPROC && s.init < NPROC
  }

  /** The current thread becomes x and keeps the CPU. */
  ghost predicate Stay(s: State, s': State, p: nat, t: nat, x: Thread)
    requires Shape(s.th) && At(p, t)
  {
    s' == s.(th := Put(s.th, p, t, x))
  }

  /** The current thread becomes x and calls sched. */
  ghost predicate Leave(s: State, s': State, c: nat, p: nat, t: nat, x: Thread)
    requires Shape(s.th) && At(p, t) && c < |s.cpus|
  {
    s' == s.(th := Put(s.th, p, t, x), cpus := s.cpus[c := Idle])
  }

  ghost predicate NextSchedule(s: State, s': State, c: nat, p: nat, t: nat) {
    && c < |s.cpus| && s.cpus[c] == Idle && At(p, t) && Shape(s.th) && |s.procs| == NPROC
    && s.procs[p].state == PUsed && s.th[p][t].state == TRunnable
    && s' == s.(th := Put(s.th, p, t, s.th[p][t].(state := TRunning)), cpus := s.cpus[c := On(p, t)])
  }

  /** The scheduler makes a killed sleeper runnable. */
  ghost predicate NextWakeKilled(s: State, s': State, p: nat, t: nat) {
    && At(p, t) && Shape(s.th) && |s.procs| == NPROC && s.procs[p].state == PUsed
    && s.th[p][t].state == TSleeping && s.th[p][t].killed
    && Stay(s, s', p, t, s.th[p][t].(state := TRunnable))
  }

  ghost predicate NextYield(s: State, s': State, c: nat, p: nat, t: nat) {
    && Cur(s, c, p, t) && Leave(s, s', c, p, t, s.th[p][t].(state := TRunnable))
  }

  /** sleep on a channel of some other part of the kernel. */
  ghost predicate NextSleep(s: State, s': State, c: nat, p: nat, t: nat, n: int) {
    && Cur(s, c, p, t) && (s.th[p][t].pc == User || s.th[p][t].pc == Exiting)
    && Leave(s, s', c, p, t, s.th[p][t].(state := TSleeping, chan := Other(n)))
  }

  ghost predicate NextWakeup(s: State, s': State, chan: Chan) {
    Shape(s.th) && s' == s.(th := WakeAll(s.th, chan))
  }

  /** fork into process slot q; k is the page kalloc returned. */
  ghost predicate NextFork(s: State, s': State, c: nat, p: nat, t: nat, q: nat, k: nat) {
    && Cur(s, c, p, t) && s.th[p][t].pc == User && q < NPROC && s.procs[q].state == PUnused
    && k != 0 && (forall r, u :: At(r, u) ==> s.th[r][u].kstack != k)
    && s' == s.(procs := s.procs[q := Proc(PUsed, s.nextpid, p)],
                th := Put(s.th, q, 0, s.th[q][0].(tid := s.nexttid, state := TRunnable, kstack := k, pc := User)),
                nextpid := s.nextpid + 1, nexttid := s.nexttid + 1)
  }

  /** fork without a kernel stack or without memory for the copy. */
  ghost predicate NextForkFail(s: State, s': State, c: nat, p: nat, t: nat, q: nat) {
    && Cur(s, c, p, t) && s.th[p][t].pc == User && q < NPROC && s.procs[q].state == PUnused
    && s' == s.(procs := s.procs[q := s.procs[q].(pid := s.nextpid)],
                th := Put(s.th, q, 0, s.th[q][0].(tid := s.nexttid, state := TUnused, kstack := 0)),
                nextpid := s.nextpid + 1, nexttid := s.nexttid + 1)
  }

  ghost predicate NextCreate(s: State, s': State, c: nat, p: nat, t: nat, u: nat, k: nat) {
    && Cur(s, c, p, t) && s.th[p][t].pc == User && u < NTHREAD && s.th[p][u].state == TUnused
    && k != 0 && (forall r, v :: At(r, v) ==> s.th[r][v].kstack != k)
    && s' == s.(th := Put(s.th, p, u, s.th[p][u].(tid := s.nexttid, state := TRunnable, kstack := k, pc := User)),
                nexttid := s.nexttid + 1)
  }

  ghost predicate NextCreateFail(s: State, s': State, c: nat, p: nat, t: nat, u: nat) {
    && Cur(s, c, p, t) && s.th[p][t].pc == User && u < NTHREAD && s.th[p][u].state == TUnused
    && s' == s.(th := Put(s.th, p, u, s.th[p][u].(tid := s.nexttid, kstack := 0)), nexttid := s.nexttid + 1)
  }

  /** kthread_exit while another thread of the process is alive. */
  ghost predicate NextThreadExit(s: State, s': State, c: nat, p: nat, t: nat, u: nat) {
    && Cur(s, c, p, t) && s.th[p][t].pc == User
    && u < NTHREAD && u != t && s.th[p][u].state != TUnused && s.th[p][u].state != TZombie
    && (var th1 := Put(s.th, p, t, s.th[p][t].(state := TZombie, pc := Gone));
        s' == s.(th := th1[p := WakeRow(th1[p], OnThread(p, t))], cpus := s.cpus[c := Idle]))
  }

  /** exit, kthread_exit of the last thread, or exec, about to call kill_other_threads. */
  ghost predicate NextStartKill(s: State, s': State, c: nat, p: nat, t: nat, exiting: bool) {
    && Cur(s, c, p, t) && s.th[p][t].pc == User && (exiting ==> p != s.init)
    && Stay(s, s', p, t, s.th[p][t].(pc := Killing(true, exiting)))
  }

  /** kill_other_threads by a thread that was itself killed. */
  ghost predicate NextKillSelf(s: State, s': State, c: nat, p: nat, t: nat) {
    && Cur(s, c, p, t) && s.th[p][t].pc.Killing? && s.th[p][t].pc.first && s.th[p][t].killed
    && (var th1 := WakeAll(s.th, OnThread(p, t));
        s' == s.(th := Put(th1, p, t, th1[p][t].(state := TZombie, pc := Gone)), cpus := s.cpus[c := Idle]))
  }

  /** One pass of kill_other_threads. */
  ghost predicate NextKillScan(s: State, s': State, c: nat, p: nat, t: nat) {
    && Cur(s, c, p, t) && s.th[p][t].pc.Killing? && !(s.th[p][t].pc.first && s.th[p][t].killed)
    && (var x := s.th[p][t]; var th1 := s.th[p := ScanRow(s.th[p], x.tid)];
        if Found(s.th[p], x.tid) then
          s' == s.(th := Put(th1, p, t, x.(state := TRunnable, pc := Killing(false, x.pc.exiting))),
            cpus := s.cpus[c := Idle])
        else
          s' == s.(th := Put(th1, p, t, x.(pc := if x.pc.exiting then Exiting else User))))
  }

  ghost predicate NextSafeExit(s: State, s': State, c: nat, p: nat, t: nat) {
    && Cur(s, c, p, t) && s.th[p][t].pc == Exiting && p != s.init && s.procs[p].parent >= 0
    && (var th1 := WakeAll(s.th, OnProc(s.procs[p].parent));
        var th2 := if ZombieChild(s.procs, p) then WakeAll(th1, OnProc(s.init)) else th1;
        var procs1 := Reparent(s.procs, p, s.init);
        s' == s.(procs := procs1[p := procs1[p].(state := PZombie)],
                 th := Put(th2, p, t, th2[p][t].(state := TUnused, pc := Gone)),
                 cpus := s.cpus[c := Idle]))
  }

  ghost predicate NextStartWait(s: State, s': State, c: nat, p: nat, t: nat) {
    && Cur(s, c, p, t) && s.th[p][t].pc == User && Stay(s, s', p, t, s.th[p][t].(pc := Waiting))
  }

  /** wait finds the zombie child q and frees it. */
  ghost predicate NextReap(s: State, s': State, c: nat, p: nat, t: nat, q: nat) {
    && Cur(s, c, p, t) && s.th[p][t].pc == Waiting
    && q < NPROC && s.procs[q].parent == p && s.procs[q].state == PZombie
    && s' == s.(procs := s.procs[q := Proc(PUnused, 0, -1)],
                th := Put(s.th[q := RemoveRow(s.th[q])], p, t, s.th[p][t].(pc := User)))
  }

  /** wait returns -1: no children, or the process was killed. */
  ghost predicate NextWaitFails(s: State, s': State, c: nat, p: nat, t: nat) {
    && Cur(s, c, p, t) && s.th[p][t].pc == Waiting && !ZombieChild(s.procs, p)
    && Stay(s, s', p, t, s.th[p][t].(pc := User))
  }

  ghost predicate NextWaitSleeps(s: State, s': State, c: nat, p: nat, t: nat) {
    && Cur(s, c, p, t) && s.th[p][t].pc == Waiting && HasChild(s.procs, p) && !ZombieChild(s.procs, p)
    && Leave(s, s', c, p, t, s.th[p][t].(state := TSleeping, chan := OnProc(p)))
  }

  /** kthread_join; the id names a slot of the process. */
  ghost predicate NextStartJoin(s: State, s': State, c: nat, p: nat, t: nat, u: nat) {
    && Cur(s, c, p, t) && s.th[p][t].pc == User && u < NTHREAD
    && Stay(s, s', p, t, s.th[p][t].(pc := Joining(u, s.th[p][u].tid)))
  }

  predicate MustWait(x: Thread, id: nat) {
    x.tid == id && x.state != TZombie && x.state != TUnused
  }

  ghost predicate NextJoinSleeps(s: State, s': State, c: nat, p: nat, t: nat, u: nat, id: nat) {
    && Cur(s, c, p, t) && s.th[p][t].pc == Joining(u, id) && u < NTHREAD && MustWait(s.th[p][u], id)
    && Leave(s, s', c, p, t, s.th[p][t].(state := TSleeping, chan := OnThread(p, u)))
  }

  /** The loop ends: a zombie in the slot is removed, whatever its id is by now. */
  ghost predicate NextJoined(s: State, s': State, c: nat, p: nat, t: nat, u: nat, id: nat) {
    && Cur(s, c, p, t) && s.th[p][t].pc == Joining(u, id) && u < NTHREAD && !MustWait(s.th[p][u], id)
    && (var th1 := if s.th[p][u].state == TZombie then Put(s.th, p, u, Removed(s.th[p][u])) else s.th;
        s' == s.(th := Put(th1, p, t, s.th[p][t].(pc := User))))
  }

  // ---------- runs ----------

  datatype Move =
    | Schedule(c: nat, p: nat, t: nat) | WakeKilled(p: nat, t: nat) | Wakeup(chan: Chan)
    | Yield(c: nat, p: nat, t: nat) | Sleep(c: nat, p: nat, t: nat, n: int)
    | Fork(c: nat, p: nat, t: nat, q: nat, k: nat) | ForkFail(c: nat, p: nat, t: nat, q: nat)
    | Create(c: nat, p: nat, t: nat, u: nat, k: nat) | CreateFail(c: nat, p: nat, t: nat, u: nat)
    | ThreadExit(c: nat, p: nat, t: nat, u: nat) | StartKill(c: nat, p: nat, t: nat, exiting: bool)
    | KillSelf(c: nat, p: nat, t: nat) | KillScan(c: nat, p: nat, t: nat) | SafeExit(c: nat, p: nat, t: nat)
    | StartWait(c: nat, p: nat, t: nat) | Reap(c: nat, p: nat, t: nat, q: nat)
    | WaitFails(c: nat, p: nat, t: nat) | WaitSleeps(c: nat, p: nat, t: nat)
    | StartJoin(c: nat, p: nat, t: nat, u: nat)
    | JoinSleeps(c: nat, p: nat, t: nat, u: nat, id: nat) | Joined(c: nat, p: nat, t: nat, u: nat, id: nat)

  ghost predicate Next(s: State, s': State, m: Move) {
    match m
    case Schedule(c, p, t) => NextSchedule(s, s', c, p, t)
    case WakeKilled(p, t) => NextWakeKilled(s, s', p, t)
    case Wakeup(chan) => NextWakeup(s, s', chan)
    case Yield(c, p, t) => NextYield(s, s', c, p, t)
    case Sleep(c, p, t, n) => NextSleep(s, s', c, p, t, n)
    case Fork(c, p, t, q, k) => NextFork(s, s', c, p, t, q, k)
    case ForkFail(c, p, t, q) => NextForkFail(s, s', c, p, t, q)
    case Create(c, p, t, u, k) => NextCreate(s, s', c, p, t, u, k)
    case CreateFail(c, p, t, u) => NextCreateFail(s, s', c, p, t, u)
    case ThreadExit(c, p, t, u) => NextThreadExit(s, s', c, p, t, u)
    case StartKill(c, p, t, exiting) => NextStartKill(s, s', c, p, t, exiting)
    case KillSelf(c, p, t) => NextKillSelf(s, s', c, p, t)
    case KillScan(c, p, t) => NextKillScan(s, s', c, p, t)
    case SafeExit(c, p, t) => NextSafeExit(s, s', c, p, t)
    case StartWait(c, p, t) => NextStartWait(s, s', c, p, t)
    case Reap(c, p, t, q) => NextReap(s, s', c, p, t, q)
    case WaitFails(c, p, t) => NextWaitFails(s, s', c, p, t)
    case WaitSleeps(c, p, t) => NextWaitSleeps(s, s', c, p, t)
    case StartJoin(c, p, t, u) => NextStartJoin(s, s', c, p, t, u)
    case JoinSleeps(c, p, t, u, id) => NextJoinSleeps(s, s', c, p, t, u, id)
    case Joined(c, p, t, u, id) => NextJoined(s, s', c, p, t, u, id)
  }

  /** After userinit: only init, with one runnable thread. */
  ghost predicate Init(s: State) {
    && Shape(s.th) && |s.procs| == NPROC && s.init < NPROC && s.nexttid > 0
    && (forall c :: 0 <= c < |s.cpus| ==> s.cpus[c] == Idle)
    && (forall p :: 0 <= p < NPROC ==>
         s.procs[p].parent == -1 && s.procs[p].pid < s.nextpid &&
         s.procs[p].state == if p == s.init then PUsed else PUnused)
    && (forall p, t :: At(p, t) && !(p == s.init && t == 0) ==>
          s.th[p][t].state == TUnused && s.th[p][t].kstack == 0 && s.th[p][t].tid == 0)
    && s.th[s.init][0].state == TRunnable && s.th[s.init][0].pc == User && s.th[s.init][0].kstack != 0
    && 0 < s.th[s.init][0].tid < s.nexttid
  }

  ghost predicate IsRun(ss: seq<State>, ms: seq<Move>) {
    && |ss| == |ms| + 1 && Init(ss[0])
    && forall i :: 0 <= i < |ms| ==> StepAt(ss, ms, i)
  }

  ghost predicate StepAt(ss: seq<State>, ms: seq<Move>, i: nat)
    requires i < |ms| && |ss| == |ms| + 1
  {
    Next(ss[i], ss[i + 1], ms[i])
  }
}
