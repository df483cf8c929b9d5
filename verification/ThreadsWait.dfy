// Two promises of Ass2/proc.c over whole runs: who sleeps in wait has a child to wake it, and who
// is marked by kill_other_threads stays marked until it is gone.

module ThreadsWait {
  import opened Threads
  import opened ThreadsInv
  import opened ThreadsSteps
  import opened ThreadsJoin

  predicate Birth(m: Move) {
    m.Fork? || m.ForkFail? || m.Create? || m.CreateFail?
  }

  predicate Death(m: Move) {
    m.ThreadExit? || m.KillSelf? || m.KillScan?
  }

  // ---------- wait ----------

  predicate InWait(x: Thread) {
    x.state == TSleeping && x.pc == Waiting
  }

  /** Whoever sleeps in wait has a child. */
  ghost predicate ChildOk(s: State) {
    Shape(s.th) && forall p, t :: At(p, t) && InWait(s.th[p][t]) ==> HasChild(s.procs, p)
  }

  /** A thread asleep in wait fell asleep by this step, or was asleep before it. */
  ghost predicate WaitKept(s: State, s': State, m: Move, p: nat, t: nat)
    requires At(p, t) && Shape(s.th)
  {
    Shape(s'.th) && (InWait(s'.th[p][t]) ==> InWait(s.th[p][t]) || (m.WaitSleeps? && m.p == p))
  }

  lemma WaitPlain(s: State, s': State, m: Move, p: nat, t: nat)
    requires Shape(s.th) && CpuOk(s.th, s.cpus) && Next(s, s', m) && At(p, t) && Plain(m)
    ensures WaitKept(s, s', m, p, t)
  {
  }

  lemma WaitBirth(s: State, s': State, m: Move, p: nat, t: nat)
    requires Shape(s.th) && Next(s, s', m) && At(p, t) && Birth(m)
    ensures WaitKept(s, s', m, p, t)
  {
  }

  lemma WaitDeath(s: State, s': State, m: Move, p: nat, t: nat)
    requires Shape(s.th) && Next(s, s', m) && At(p, t) && Death(m)
    ensures WaitKept(s, s', m, p, t)
  {
  }

  lemma WaitOther(s: State, s': State, m: Move, p: nat, t: nat)
    requires Shape(s.th) && Next(s, s', m) && At(p, t) && !Birth(m) && !Plain(m) && !Death(m)
    ensures WaitKept(s, s', m, p, t)
  {
  }

  lemma FellAsleep(s: State, s': State, m: Move, p: nat, t: nat)
    requires Shape(s.th) && CpuOk(s.th, s.cpus) && Next(s, s', m) && At(p, t)
    ensures WaitKept(s, s', m, p, t)
  {
    if Plain(m) {
      WaitPlain(s, s', m, p, t);
    } else if Birth(m) {
      WaitBirth(s, s', m, p, t);
    } else if Death(m) {
      WaitDeath(s, s', m, p, t);
    } else {
      WaitOther(s, s', m, p, t);
    }
  }

  /** Most steps leave the processes alone. */
  lemma SameProcs(s: State, s': State, m: Move)
    requires Next(s, s', m) && !m.Fork? && !m.ForkFail? && !m.SafeExit? && !m.Reap?
    ensures s'.procs == s.procs
  {
  }

  /** No child is reaped over a sleeper in wait. */
  lemma ReapKeeps(s: State, s': State, m: Move, p: nat, t: nat)
    requires Shape(s.th) && |s.procs| == NPROC && WaitOk(s.procs, s.th)
    requires Next(s, s', m) && m.Reap? && At(p, t) && InWait(s.th[p][t]) && HasChild(s.procs, p)
    ensures HasChild(s'.procs, p)
  {
    var q :| 0 <= q < |s.procs| && s.procs[q].parent == p;
    assert s.procs[q].state != PZombie;
    assert s'.procs[q].parent == p;
  }

  /** A process that exits has no sleeper. */
  lemma ExitKeeps(s: State, s': State, m: Move, p: nat, t: nat)
    requires Shape(s.th) && |s.procs| == NPROC && CpuOk(s.th, s.cpus) && SoleOk(s.th, s.init)
    requires Next(s, s', m) && m.SafeExit? && At(p, t) && InWait(s.th[p][t]) && HasChild(s.procs, p)
    ensures HasChild(s'.procs, p)
  {
    var q :| 0 <= q < |s.procs| && s.procs[q].parent == p;
    assert m.p != p by { assert At(p, m.t); }
    assert s'.procs[q].parent == p;
  }

  lemma ForkKeeps(s: State, s': State, m: Move, p: nat)
    requires FamilyOk(s.procs, s.init) && Next(s, s', m) && (m.Fork? || m.ForkFail?) && HasChild(s.procs, p)
    ensures HasChild(s'.procs, p)
  {
    var q :| 0 <= q < |s.procs| && s.procs[q].parent == p;
    assert s'.procs[q].parent == p;
  }

  /** A child of p stays one while a thread of p sleeps in wait. */
  lemma ChildStays(s: State, s': State, m: Move, p: nat, t: nat)
    requires Inv(s) && Next(s, s', m) && At(p, t) && InWait(s.th[p][t]) && HasChild(s.procs, p)
    ensures HasChild(s'.procs, p)
  {
    if m.Reap? {
      ReapKeeps(s, s', m, p, t);
    } else if m.SafeExit? {
      ExitKeeps(s, s', m, p, t);
    } else if m.Fork? || m.ForkFail? {
      ForkKeeps(s, s', m, p);
    } else {
      SameProcs(s, s', m);
    }
  }

  lemma ChildStep(s: State, s': State, m: Move)
    requires Inv(s) && ChildOk(s) && Next(s, s', m) && Shape(s'.th)
    ensures ChildOk(s')
  {
    forall p, t | At(p, t) && InWait(s'.th[p][t]) ensures HasChild(s'.procs, p) {
      FellAsleep(s, s', m, p, t);
      if InWait(s.th[p][t]) {
        ChildStays(s, s', m, p, t);
      } else {
        SameProcs(s, s', m);
      }
    }
  }

  lemma ChildAt(ss: seq<State>, ms: seq<Move>, n: nat)
    requires IsRun(ss, ms) && n < |ms| && ChildOk(ss[n])
    ensures ChildOk(ss[n + 1])
  {
    assert Shape(ss[n + 1].th) by { InvRun(ss, ms, n + 1); }
    InvRun(ss, ms, n);
    assert StepAt(ss, ms, n);
    ChildStep(ss[n], ss[n + 1], ms[n]);
  }

  lemma {:induction false} ChildRun(ss: seq<State>, ms: seq<Move>, i: nat)
    requires IsRun(ss, ms) && i < |ss|
    ensures ChildOk(ss[i])
  {
    if i > 0 {
      ChildRun(ss, ms, i - 1);
      ChildAt(ss, ms, i - 1);
    }
  }

  /** In every run a thread asleep in wait has a child that has yet to exit, and that will wake it. */
  lemma NoIdleWait(ss: seq<State>, ms: seq<Move>, i: nat, p: nat, t: nat) returns (q: nat)
    requires IsRun(ss, ms) && i < |ss| && At(p, t) && Shape(ss[i].th) && InWait(ss[i].th[p][t])
    ensures q < NPROC && |ss[i].procs| == NPROC && ss[i].procs[q].parent == p && ss[i].procs[q].state == PUsed
  {
    ChildRun(ss, ms, i);
    InvRun(ss, ms, i);
    var r :| 0 <= r < |ss[i].procs| && ss[i].procs[r].parent == p;
    q := r;
  }

  // ---------- kill_other_threads ----------

  /** One scan: sleepers and zombies are gone, the others are marked; it ends exactly when the
      caller is alone. */
  lemma ScanMarks(s: State, s': State, c: nat, p: nat, t: nat, u: nat)
    requires Inv(s) && NextKillScan(s, s', c, p, t) && u < NTHREAD && u != t
    ensures Shape(s'.th) && (Live(s'.th[p][u]) <==> s.th[p][u].state == TRunnable || s.th[p][u].state == TRunning)
    ensures Live(s'.th[p][u]) ==> s'.th[p][u] == s.th[p][u].(killed := true)
    ensures s'.th[p][t].pc.Killing? <==> exists v :: 0 <= v < NTHREAD && v != t && Live(s.th[p][v])
  {
    assert At(p, u) && At(p, t) && s.th[p][t].state == TRunning;
    forall v | 0 <= v < NTHREAD ensures Hit(s.th[p][v], s.th[p][t].tid) <==> v != t && Live(s.th[p][v]) {
      assert At(p, v);
    }
  }

  /** Thread x, if it is still in slot u, is marked. */
  ghost predicate Marked(s: State, p: nat, u: nat, x: nat) {
    Shape(s.th) && At(p, u) && x < s.nexttid && (Live(s.th[p][u]) && s.th[p][u].tid == x ==> s.th[p][u].killed)
  }

  lemma MarkPlain(s: State, s': State, m: Move, p: nat, u: nat, x: nat)
    requires Marked(s, p, u, x) && CpuOk(s.th, s.cpus) && Next(s, s', m) && Plain(m)
    ensures Marked(s', p, u, x)
  {
  }

  lemma MarkBirth(s: State, s': State, m: Move, p: nat, u: nat, x: nat)
    requires Marked(s, p, u, x) && Next(s, s', m) && Birth(m)
    ensures Marked(s', p, u, x)
  {
  }

  lemma MarkDeath(s: State, s': State, m: Move, p: nat, u: nat, x: nat)
    requires Marked(s, p, u, x) && CpuOk(s.th, s.cpus) && Next(s, s', m) && Death(m)
    ensures Marked(s', p, u, x)
  {
  }

  lemma MarkOther(s: State, s': State, m: Move, p: nat, u: nat, x: nat)
    requires Marked(s, p, u, x) && Next(s, s', m) && !Birth(m) && !Plain(m) && !Death(m)
    ensures Marked(s', p, u, x)
  {
  }

  lemma MarkAt(ss: seq<State>, ms: seq<Move>, n: nat, p: nat, u: nat, x: nat)
    requires IsRun(ss, ms) && n < |ms| && Marked(ss[n], p, u, x)
    ensures Marked(ss[n + 1], p, u, x)
  {
    assert CpuOk(ss[n].th, ss[n].cpus) by { InvRun(ss, ms, n); }
    assert StepAt(ss, ms, n);
    if Plain(ms[n]) {
      MarkPlain(ss[n], ss[n + 1], ms[n], p, u, x);
    } else if Birth(ms[n]) {
      MarkBirth(ss[n], ss[n + 1], ms[n], p, u, x);
    } else if Death(ms[n]) {
      MarkDeath(ss[n], ss[n + 1], ms[n], p, u, x);
    } else {
      MarkOther(ss[n], ss[n + 1], ms[n], p, u, x);
    }
  }

  lemma MarkStart(ss: seq<State>, ms: seq<Move>, i: nat, u: nat)
    requires IsRun(ss, ms) && i < |ms| && ms[i].KillScan? && At(ms[i].p, u) && u != ms[i].t
    requires Shape(ss[i].th) && Live(ss[i].th[ms[i].p][u])
    ensures Marked(ss[i + 1], ms[i].p, u, ss[i].th[ms[i].p][u].tid)
  {
    InvRun(ss, ms, i);
    assert StepAt(ss, ms, i);
    ScanMarks(ss[i], ss[i + 1], ms[i].c, ms[i].p, ms[i].t, u);
  }

  /** In every run, from a scan of kill_other_threads at step i on, each other thread of the process
      is marked killed for as long as it is there. */
  lemma {:induction false} KilledUntilGone(ss: seq<State>, ms: seq<Move>, i: nat, n: nat, u: nat)
    requires IsRun(ss, ms) && i < n < |ss| && ms[i].KillScan? && At(ms[i].p, u) && u != ms[i].t
    requires Shape(ss[i].th) && Live(ss[i].th[ms[i].p][u])
    ensures Marked(ss[n], ms[i].p, u, ss[i].th[ms[i].p][u].tid)
    decreases n
  {
    if n == i + 1 {
      MarkStart(ss, ms, i, u);
    } else {
      KilledUntilGone(ss, ms, i, n - 1, u);
      MarkAt(ss, ms, n - 1, ms[i].p, u, ss[i].th[ms[i].p][u].tid);
    }
  }
}
