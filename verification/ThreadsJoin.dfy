// Whom kthread_join of Ass2/proc.c removes.  Between its sleep and its return the slot it
// found may have been emptied and filled again.

module ThreadsJoin {
  import opened Threads
  import opened ThreadsInv
  import opened ThreadsSteps

  /** kthread_create puts a new thread into slot u of process p. */
  predicate Fills(m: Move, p: nat, u: nat) {
    m.Create? && m.p == p && m.u == u
  }

  /** A step that can take the thread out of slot u of process p. */
  predicate Empties(m: Move, p: nat, u: nat) {
    (m.Joined? && m.p == p && m.u == u) || (m.KillScan? && m.p == p) || (m.SafeExit? && m.p == p && m.t == u)
  }

  /** What a step may do to a slot of a process in use. */
  ghost predicate SlotOk(s: State, s': State, m: Move, p: nat, u: nat)
    requires Shape(s.th) && At(p, u)
  {
    && Shape(s'.th) && s'.nexttid >= s.nexttid
    && (Fills(m, p, u) ==> s'.th[p][u].tid == s.nexttid < s'.nexttid)
    && (!Fills(m, p, u) && Live(s'.th[p][u]) ==> Live(s.th[p][u]) && s'.th[p][u].tid == s.th[p][u].tid)
    && (!Empties(m, p, u) && Live(s.th[p][u]) ==> Live(s'.th[p][u]) && s'.th[p][u].tid == s.th[p][u].tid)
  }

  predicate Plain(m: Move) {
    m.Schedule? || m.WakeKilled? || m.Wakeup? || m.Yield? || m.Sleep? || m.StartKill? ||
    m.StartWait? || m.WaitFails? || m.WaitSleeps? || m.StartJoin? || m.JoinSleeps?
  }

  lemma SlotPlain(s: State, s': State, m: Move, p: nat, u: nat)
    requires Shape(s.th) && CpuOk(s.th, s.cpus) && |s.procs| == NPROC && Next(s, s', m) && At(p, u) && Plain(m)
    ensures SlotOk(s, s', m, p, u)
  {
  }

  lemma SlotBirth(s: State, s': State, m: Move, p: nat, u: nat)
    requires Shape(s.th) && CpuOk(s.th, s.cpus) && |s.procs| == NPROC && Next(s, s', m) && At(p, u) &&
      s.procs[p].state == PUsed
    requires m.Fork? || m.ForkFail? || m.Create? || m.CreateFail?
    ensures SlotOk(s, s', m, p, u)
  {
  }

  lemma SlotDeath(s: State, s': State, m: Move, p: nat, u: nat)
    requires Shape(s.th) && CpuOk(s.th, s.cpus) && |s.procs| == NPROC && Next(s, s', m) && At(p, u) &&
      s.procs[p].state == PUsed
    requires m.ThreadExit? || m.KillSelf? || m.KillScan?
    ensures SlotOk(s, s', m, p, u)
  {
  }

  lemma SlotRemoval(s: State, s': State, m: Move, p: nat, u: nat)
    requires Shape(s.th) && CpuOk(s.th, s.cpus) && |s.procs| == NPROC && Next(s, s', m) && At(p, u) &&
      s.procs[p].state == PUsed
    requires m.SafeExit? || m.Reap? || m.Joined?
    ensures SlotOk(s, s', m, p, u)
  {
  }

  lemma SlotStep(s: State, s': State, m: Move, p: nat, u: nat)
    requires Shape(s.th) && CpuOk(s.th, s.cpus) && |s.procs| == NPROC && Next(s, s', m) && At(p, u) &&
      s.procs[p].state == PUsed
    ensures SlotOk(s, s', m, p, u)
  {
    if Plain(m) {
      SlotPlain(s, s', m, p, u);
    } else if m.Fork? || m.ForkFail? || m.Create? || m.CreateFail? {
      SlotBirth(s, s', m, p, u);
    } else if m.ThreadExit? || m.KillSelf? || m.KillScan? {
      SlotDeath(s, s', m, p, u);
    } else {
      SlotRemoval(s, s', m, p, u);
    }
  }

  // ---------- ids ----------

  /** Every id in the table, of a thread or left behind, has been given out. */
  ghost predicate TidsBelow(s: State) {
    Shape(s.th) && forall p, t :: At(p, t) ==> s.th[p][t].tid < s.nexttid
  }

  lemma TidsStep(s: State, s': State, m: Move)
    requires TidsBelow(s) && |s.procs| == NPROC && Next(s, s', m)
    ensures TidsBelow(s')
  {
    if m.Fork? || m.ForkFail? || m.Create? || m.CreateFail? {
      TidsBirth(s, s', m);
    } else if !Plain(m) {
      TidsOther(s, s', m);
    }
  }

  lemma TidsBirth(s: State, s': State, m: Move)
    requires TidsBelow(s) && |s.procs| == NPROC && Next(s, s', m) &&
      (m.Fork? || m.ForkFail? || m.Create? || m.CreateFail?)
    ensures TidsBelow(s')
  {
  }

  lemma TidsOther(s: State, s': State, m: Move)
    requires TidsBelow(s) && |s.procs| == NPROC && Next(s, s', m)
    requires !Plain(m) && !m.Fork? && !m.ForkFail? && !m.Create? && !m.CreateFail?
    ensures TidsBelow(s')
  {
  }

  lemma TidsAt(ss: seq<State>, ms: seq<Move>, n: nat)
    requires IsRun(ss, ms) && n < |ms| && TidsBelow(ss[n])
    ensures TidsBelow(ss[n + 1])
  {
    assert |ss[n].procs| == NPROC by { InvRun(ss, ms, n); }
    assert StepAt(ss, ms, n);
    TidsStep(ss[n], ss[n + 1], ms[n]);
  }

  lemma {:induction false} TidsRun(ss: seq<State>, ms: seq<Move>, i: nat)
    requires IsRun(ss, ms) && i < |ss|
    ensures TidsBelow(ss[i])
  {
    if i > 0 {
      TidsRun(ss, ms, i - 1);
      TidsAt(ss, ms, i - 1);
    }
  }

  // ---------- a join ----------

  /** Thread t of p calls kthread_join at step i, finds the thread in slot u, whose id is id, and
      is still in it in state j. */
  ghost predicate Joins(ss: seq<State>, ms: seq<Move>, i: nat, j: nat, p: nat, t: nat, u: nat, id: nat) {
    && IsRun(ss, ms) && i < j < |ss| && At(p, t) && At(p, u)
    && ms[i].StartJoin? && ms[i].p == p && ms[i].t == t && ms[i].u == u
    && Shape(ss[i].th) && ss[i].th[p][u].tid == id
    && forall n :: i < n <= j ==> InJoin(ss[n], p, t, u, id)
  }

  ghost predicate InJoin(s: State, p: nat, t: nat, u: nat, id: nat) {
    Shape(s.th) && At(p, t) && s.th[p][t].pc == Joining(u, id) && Live(s.th[p][t])
  }

  ghost predicate Refilled(ms: seq<Move>, i: nat, j: nat, p: nat, u: nat)
    requires j <= |ms|
  {
    exists n :: i < n < j && Fills(ms[n], p, u)
  }

  lemma LiveInUse(s: State, p: nat, t: nat)
    requires Inv(s) && At(p, t) && Live(s.th[p][t])
    ensures s.procs[p].state == PUsed && CpuOk(s.th, s.cpus)
  {
  }

  lemma CallerLive(s: State, s': State, m: Move)
    requires Shape(s.th) && CpuOk(s.th, s.cpus) && Next(s, s', m) && m.StartJoin?
    ensures At(m.p, m.t) && Live(s.th[m.p][m.t])
  {
    assert Cur(s, m.c, m.p, m.t);
  }

  lemma JoinStart(ss: seq<State>, ms: seq<Move>, i: nat)
    requires IsRun(ss, ms) && i < |ms| && ms[i].StartJoin?
    ensures Shape(ss[i].th) && At(ms[i].p, ms[i].t) && Live(ss[i].th[ms[i].p][ms[i].t])
  {
    InvRun(ss, ms, i);
    assert StepAt(ss, ms, i);
    CallerLive(ss[i], ss[i + 1], ms[i]);
  }

  lemma JoinerLive(ss: seq<State>, ms: seq<Move>, i: nat, j: nat, p: nat, t: nat, u: nat, id: nat, n: nat)
    requires Joins(ss, ms, i, j, p, t, u, id) && i <= n < j
    ensures Shape(ss[n].th) && Live(ss[n].th[p][t])
  {
    if n > i {
      assert InJoin(ss[n], p, t, u, id);
    } else {
      JoinStart(ss, ms, i);
    }
  }

  /** The joiner's process is in use. */
  lemma JoinerInUse(ss: seq<State>, ms: seq<Move>, i: nat, j: nat, p: nat, t: nat, u: nat, id: nat, n: nat)
    requires Joins(ss, ms, i, j, p, t, u, id) && i <= n < j
    ensures Shape(ss[n].th) && |ss[n].procs| == NPROC && ss[n].procs[p].state == PUsed && CpuOk(ss[n].th, ss[n].cpus)
  {
    JoinerLive(ss, ms, i, j, p, t, u, id, n);
    InvRun(ss, ms, n);
    LiveInUse(ss[n], p, t);
  }

  /** One step of a run, for a slot of the joiner's process. */
  lemma SlotAt(ss: seq<State>, ms: seq<Move>, i: nat, j: nat, p: nat, t: nat, u: nat, id: nat, n: nat)
    requires Joins(ss, ms, i, j, p, t, u, id) && i <= n < j
    ensures Shape(ss[n].th) && SlotOk(ss[n], ss[n + 1], ms[n], p, u)
  {
    JoinerInUse(ss, ms, i, j, p, t, u, id, n);
    assert StepAt(ss, ms, n);
    SlotStep(ss[n], ss[n + 1], ms[n], p, u);
  }

  /** Without a refill, a thread in the slot is the one that was asked for. */
  lemma {:induction false} NotRefilled(ss: seq<State>, ms: seq<Move>, i: nat, j: nat, p: nat, t: nat, u: nat, id: nat,
      n: nat)
    requires Joins(ss, ms, i, j, p, t, u, id) && i < n <= j && !Refilled(ms, i, n, p, u)
    ensures Live(ss[n].th[p][u]) ==> Live(ss[i].th[p][u]) && ss[n].th[p][u].tid == id
    decreases n
  {
    SlotAt(ss, ms, i, j, p, t, u, id, n - 1);
    if n - 1 > i {
      NotRefilled(ss, ms, i, j, p, t, u, id, n - 1);
      assert !Fills(ms[n - 1], p, u);
    }
  }

  /** After a refill at step m, every thread in the slot has a newer id. */
  lemma {:induction false} NewerSince(ss: seq<State>, ms: seq<Move>, i: nat, j: nat, p: nat, t: nat, u: nat, id: nat,
      m: nat, n: nat)
    requires Joins(ss, ms, i, j, p, t, u, id) && i < m < n <= j && Fills(ms[m], p, u)
    ensures ss[n].nexttid >= ss[m].nexttid && (Live(ss[n].th[p][u]) ==> ss[n].th[p][u].tid >= ss[m].nexttid)
    decreases n
  {
    SlotAt(ss, ms, i, j, p, t, u, id, n - 1);
    if n - 1 > m {
      NewerSince(ss, ms, i, j, p, t, u, id, m, n - 1);
    }
  }

  lemma {:induction false} IdsGrow(ss: seq<State>, ms: seq<Move>, i: nat, j: nat, p: nat, t: nat, u: nat, id: nat,
      n: nat)
    requires Joins(ss, ms, i, j, p, t, u, id) && i <= n <= j
    ensures id < ss[n].nexttid
    decreases n
  {
    if n == i {
      TidsRun(ss, ms, i);
    } else {
      IdsGrow(ss, ms, i, j, p, t, u, id, n - 1);
      SlotAt(ss, ms, i, j, p, t, u, id, n - 1);
    }
  }

  /** The exact condition: the thread a join removes is the one it was asked for if and only if
      no kthread_create has refilled the slot since the call. */
  lemma JoinedIsAsked(ss: seq<State>, ms: seq<Move>, i: nat, j: nat, p: nat, t: nat, u: nat, id: nat)
    requires Joins(ss, ms, i, j, p, t, u, id) && j < |ms| && ss[j].th[p][u].state == TZombie
    ensures ss[j].th[p][u].tid == id <==> !Refilled(ms, i, j, p, u)
  {
    if Refilled(ms, i, j, p, u) {
      var m :| i < m < j && Fills(ms[m], p, u);
      NewerSince(ss, ms, i, j, p, t, u, id, m, j);
      IdsGrow(ss, ms, i, j, p, t, u, id, m);
    } else {
      NotRefilled(ss, ms, i, j, p, t, u, id, j);
    }
  }

  /** No other thread's join of the slot, and no kill_other_threads in the process. */
  predicate Alone(ms: seq<Move>, i: nat, j: nat, p: nat, u: nat)
    requires j <= |ms|
  {
    forall n :: i < n < j ==> !(ms[n].Joined? && ms[n].p == p && ms[n].u == u) && !(ms[n].KillScan? && ms[n].p == p)
  }

  /** Until then the thread stays in its slot. */
  lemma {:induction false} StaysThere(ss: seq<State>, ms: seq<Move>, i: nat, j: nat, p: nat, t: nat, u: nat, id: nat,
      n: nat)
    requires Joins(ss, ms, i, j, p, t, u, id) && i < n <= j && Alone(ms, i, n, p, u) && Live(ss[i].th[p][u])
    ensures Live(ss[n].th[p][u]) && ss[n].th[p][u].tid == id
    decreases n
  {
    SlotAt(ss, ms, i, j, p, t, u, id, n - 1);
    if n - 1 > i {
      StaysThere(ss, ms, i, j, p, t, u, id, n - 1);
      assert InJoin(ss[n - 1], p, t, u, id);
      NotLastExit(ss, ms, n - 1, p, t, u);
    }
  }

  /** Where a thread is in join, no thread of the process is in safe_exit. */
  lemma NotLastExit(ss: seq<State>, ms: seq<Move>, n: nat, p: nat, t: nat, u: nat)
    requires IsRun(ss, ms) && n < |ms| && At(p, t) && Shape(ss[n].th) && Live(ss[n].th[p][t]) &&
      ss[n].th[p][t].pc.Joining?
    ensures !(ms[n].SafeExit? && ms[n].p == p && ms[n].t == u)
  {
    InvRun(ss, ms, n);
    assert StepAt(ss, ms, n);
  }

  /** What a caller can rely on: if it is the only one to join a thread and nobody calls exit or
      exec meanwhile, the join returns only once that very thread has exited, and removes it. */
  lemma JoinedAlone(ss: seq<State>, ms: seq<Move>, i: nat, j: nat, p: nat, t: nat, u: nat, id: nat)
    requires Joins(ss, ms, i, j, p, t, u, id) && j < |ms| && Alone(ms, i, j, p, u) && Live(ss[i].th[p][u])
    requires ms[j].Joined? && ms[j].p == p && ms[j].t == t && ms[j].u == u && ms[j].id == id
    ensures ss[j].th[p][u].tid == id && ss[j].th[p][u].state == TZombie
    ensures Shape(ss[j + 1].th) && ss[j + 1].th[p][u].state == TUnused
  {
    StaysThere(ss, ms, i, j, p, t, u, id, j);
    InvRun(ss, ms, j);
    assert StepAt(ss, ms, j);
  }
}
