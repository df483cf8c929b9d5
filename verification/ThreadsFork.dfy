// Process ids and parents over whole runs of Ass2/proc.c: a live process keeps its id to itself,
// and belongs to whoever forked it until that process exits, and then to init.

module ThreadsFork {
  import opened Threads
  import opened ThreadsInv
  import opened ThreadsSteps

  /** Ids given out are below nextpid, and no two processes in use share one. */
  ghost predicate PidsOk(s: State) {
    && |s.procs| == NPROC && (forall p :: 0 <= p < NPROC ==> s.procs[p].pid < s.nextpid)
    && forall p, q :: 0 <= p < q < NPROC && s.procs[p].state != PUnused && s.procs[q].state != PUnused ==>
         s.procs[p].pid != s.procs[q].pid
  }

  /** What a step does to the processes. */
  lemma ProcsStep(s: State, s': State, m: Move)
    requires Next(s, s', m) && |s.procs| == NPROC
    ensures |s'.procs| == NPROC && s'.init == s.init && s'.nextpid >= s.nextpid
    ensures !m.Fork? && !m.ForkFail? && !m.SafeExit? && !m.Reap? ==> s'.procs == s.procs
  {
  }

  lemma PidsStep(s: State, s': State, m: Move)
    requires PidsOk(s) && Next(s, s', m) && (m.SafeExit? ==> m.p < NPROC && s.procs[m.p].state == PUsed)
    ensures PidsOk(s')
  {
    ProcsStep(s, s', m);
    if m.SafeExit? {
      ExitProcs(s, s', m);
    }
  }

  /** exit leaves every id alone, and every state but its own. */
  lemma ExitProcs(s: State, s': State, m: Move)
    requires Next(s, s', m) && m.SafeExit? && |s.procs| == NPROC
    ensures m.p < NPROC && |s'.procs| == NPROC && s'.nextpid == s.nextpid && s'.procs[m.p].state == PZombie
    ensures forall q :: 0 <= q < NPROC ==> s'.procs[q].pid == s.procs[q].pid
    ensures forall q :: 0 <= q < NPROC && q != m.p ==> s'.procs[q].state == s.procs[q].state
    ensures forall q :: 0 <= q < NPROC ==>
      s'.procs[q].parent == if s.procs[q].parent == m.p then s.init else s.procs[q].parent
  {
  }

  /** Only a process in use exits. */
  lemma ExitUsed(ss: seq<State>, ms: seq<Move>, i: nat)
    requires IsRun(ss, ms) && i < |ms| && ms[i].SafeExit?
    ensures ms[i].p < NPROC && |ss[i].procs| == NPROC && ss[i].procs[ms[i].p].state == PUsed
  {
    assert StepAt(ss, ms, i);
    InvRun(ss, ms, i);
    assert ss[i].th[ms[i].p][ms[i].t].state == TRunning;
  }

  /** In every run, processes in use have different ids. */
  lemma {:induction false} PidsRun(ss: seq<State>, ms: seq<Move>, i: nat)
    requires IsRun(ss, ms) && i < |ss|
    ensures PidsOk(ss[i])
  {
    if i > 0 {
      PidsRun(ss, ms, i - 1);
      assert StepAt(ss, ms, i - 1);
      if ms[i - 1].SafeExit? { ExitUsed(ss, ms, i - 1); }
      PidsStep(ss[i - 1], ss[i], ms[i - 1]);
    }
  }

  /** The process with id x, if it is there, is a child of p. */
  ghost predicate ChildIs(s: State, x: nat, p: int) {
    && |s.procs| == NPROC && x < s.nextpid
    && forall q :: 0 <= q < NPROC && s.procs[q].state != PUnused && s.procs[q].pid == x ==> s.procs[q].parent == p
  }

  predicate Exits(m: Move, p: nat) {
    m.SafeExit? && m.p == p
  }

  lemma ChildStep(s: State, s': State, m: Move, x: nat, p: nat)
    requires ChildIs(s, x, p) && Next(s, s', m) && (m.SafeExit? ==> m.p < NPROC && s.procs[m.p].state == PUsed)
    ensures ChildIs(s', x, if Exits(m, p) then s.init else p)
  {
    ProcsStep(s, s', m);
    if m.SafeExit? {
      ExitProcs(s, s', m);
    }
  }

  lemma ForkStarts(s: State, s': State, m: Move)
    requires PidsOk(s) && Next(s, s', m) && m.Fork?
    ensures ChildIs(s', s.nextpid, m.p)
    ensures s'.procs[m.q].pid == s.nextpid && s'.procs[m.q].state == PUsed && s.procs[m.q].state == PUnused
  {
  }

  ghost predicate ExitedBetween(ms: seq<Move>, p: nat, i: nat, n: nat)
    requires n <= |ms|
  {
    exists j :: i <= j < n && Exits(ms[j], p)
  }

  /** In every run, what a process p forks is its child as long as it is there and p does not exit,
      and init's child after that. */
  lemma {:induction false} ForkedIsChild(ss: seq<State>, ms: seq<Move>, i: nat, n: nat)
    requires IsRun(ss, ms) && i < n < |ss| && ms[i].Fork?
    ensures ChildIs(ss[n], ss[i].nextpid, if ExitedBetween(ms, ms[i].p, i, n) then ss[n].init else ms[i].p)
    decreases n
  {
    var p, x := ms[i].p, ss[i].nextpid;
    assert StepAt(ss, ms, n - 1);
    PidsRun(ss, ms, n - 1);
    ProcsStep(ss[n - 1], ss[n], ms[n - 1]);
    if n == i + 1 {
      ForkStarts(ss[i], ss[n], ms[i]);
    } else {
      ForkedIsChild(ss, ms, i, n - 1);
      if ms[n - 1].SafeExit? { ExitUsed(ss, ms, n - 1); }
      if ExitedBetween(ms, p, i, n - 1) {
        ChildStep(ss[n - 1], ss[n], ms[n - 1], x, ss[n - 1].init);
      } else {
        ChildStep(ss[n - 1], ss[n], ms[n - 1], x, p);
      }
    }
  }
}
