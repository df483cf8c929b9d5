// The sleep locks of Ass2/sleeplock.c.  A critical section of lk.lk is one step; sleep gives
// lk.lk up and wakeup happens under it.

module SleepLock {
  /** struct sleeplock, with the threads asleep on it, those woken that have not run yet, and
      those that returned from acquiresleep and have not called releasesleep. */
  datatype Lock = Lock(locked: bool, pid: int, asleep: set<nat>, retry: set<nat>, inside: set<nat>)

  /** One round of the loop in acquiresleep, on entry or after a wakeup; or releasesleep. */
  datatype Step = Acquire(t: nat) | Release(t: nat)

  /** pids[t] is the process of thread t. */
  predicate Enabled(pids: seq<int>, s: Lock, step: Step) {
    step.t < |pids| && step.t !in s.asleep && (step.Release? ==> step.t !in s.retry)
  }

  function After(pids: seq<int>, s: Lock, step: Step): Lock
    requires Enabled(pids, s, step)
  {
    match step
    case Acquire(t) =>
      if s.locked then s.(asleep := s.asleep + {t}, retry := s.retry - {t})
      else s.(locked := true, pid := pids[t], retry := s.retry - {t}, inside := s.inside + {t})
    case Release(t) => Lock(false, 0, {}, s.retry + s.asleep, s.inside - {t})
  }

  /** holdingsleep, which compares processes. */
  predicate Holding(pids: seq<int>, s: Lock, t: nat)
    requires t < |pids|
  {
    s.locked && s.pid == pids[t]
  }

  ghost predicate IsRun(pids: seq<int>, ss: seq<Lock>, steps: seq<Step>) {
    && |ss| == |steps| + 1 && ss[0] == Lock(false, 0, {}, {}, {})
    && forall i :: 0 <= i < |steps| ==> StepAt(pids, ss, steps, i)
  }

  predicate StepAt(pids: seq<int>, ss: seq<Lock>, steps: seq<Step>, i: nat)
    requires i < |steps| && |ss| == |steps| + 1
  {
    Enabled(pids, ss[i], steps[i]) && ss[i + 1] == After(pids, ss[i], steps[i])
  }

  /** One thread at most between acquiresleep and releasesleep. */
  ghost predicate Exclusive(s: Lock) {
    forall t, u :: t in s.inside && u in s.inside ==> t == u
  }

  /** Locked means a thread inside, of the recorded process; a sleeper means locked. */
  ghost predicate Inv(pids: seq<int>, s: Lock) {
    && Exclusive(s) && (s.locked <==> s.inside != {}) && (s.asleep != {} ==> s.locked)
    && forall t :: t in s.inside ==> t < |pids| && s.pid == pids[t]
  }

  /** The exact condition: a step keeps exclusion unless it releases a lock that another
      thread is inside of. */
  lemma InvIff(pids: seq<int>, s: Lock, step: Step)
    requires Inv(pids, s) && Enabled(pids, s, step)
    ensures Inv(pids, After(pids, s, step)) <==> (step.Release? && s.inside != {} ==> step.t in s.inside)
  {
    var s' := After(pids, s, step);
    if step.Release? && s.inside != {} {
      if step.t in s.inside {
        assert s'.inside == {};
      } else {
        assert s'.inside == s.inside;
      }
    }
  }

  ghost predicate HoldersRelease(pids: seq<int>, ss: seq<Lock>, steps: seq<Step>) {
    IsRun(pids, ss, steps) &&
      forall i :: 0 <= i < |steps| && steps[i].Release? && ss[i].inside != {} ==> steps[i].t in ss[i].inside
  }

  /** Exclusion, and no lost wakeup, in every run whose releases are by the thread inside. */
  lemma {:induction false} ExclusionRun(pids: seq<int>, ss: seq<Lock>, steps: seq<Step>, k: nat)
    requires HoldersRelease(pids, ss, steps) && k < |ss|
    ensures Inv(pids, ss[k])
  {
    if k > 0 {
      ExclusionRun(pids, ss, steps, k - 1);
      assert StepAt(pids, ss, steps, k - 1);
      InvIff(pids, ss[k - 1], steps[k - 1]);
    }
  }

  // ---------- the guard of brelse and iunlock ----------

  /** Every release was preceded by a holdingsleep that said yes. */
  ghost predicate Guarded(pids: seq<int>, ss: seq<Lock>, steps: seq<Step>) {
    IsRun(pids, ss, steps) &&
    forall i :: 0 <= i < |steps| && steps[i].Release? ==> steps[i].t < |pids| && Holding(pids, ss[i], steps[i].t)
  }

  predicate OneThreadEach(pids: seq<int>) {
    forall t, u :: 0 <= t < u < |pids| ==> pids[t] != pids[u]
  }

  lemma {:induction false} GuardedInv(pids: seq<int>, ss: seq<Lock>, steps: seq<Step>, k: nat)
    requires OneThreadEach(pids) && Guarded(pids, ss, steps) && k < |ss|
    ensures Inv(pids, ss[k])
  {
    if k > 0 {
      GuardedInv(pids, ss, steps, k - 1);
      assert StepAt(pids, ss, steps, k - 1);
      InvIff(pids, ss[k - 1], steps[k - 1]);
    }
  }

  /** Two threads of a process: one releases the other's lock, and both are inside. */
  lemma SharedPid(pids: seq<int>, t: nat, u: nat) returns (ss: seq<Lock>, steps: seq<Step>)
    requires t < |pids| && u < |pids| && t != u && pids[t] == pids[u]
    ensures Guarded(pids, ss, steps) && ss[|ss| - 1].inside == {t, u}
  {
    steps := [Acquire(t), Release(u), Acquire(u)];
    var s0 := Lock(false, 0, {}, {}, {});
    var s1 := After(pids, s0, steps[0]);
    var s2 := After(pids, s1, steps[1]);
    var s3 := After(pids, s2, steps[2]);
    ss := [s0, s1, s2, s3];
    forall i | 0 <= i < |steps| ensures StepAt(pids, ss, steps, i) {
    }
    assert s1.inside == {t} && s2.inside == {t};
  }

  /** holdingsleep guards the lock in all runs if and only if no process has two threads. */
  lemma GuardIff(pids: seq<int>)
    ensures (forall ss, steps :: Guarded(pids, ss, steps) ==> Exclusive(ss[|ss| - 1])) <==> OneThreadEach(pids)
  {
    if OneThreadEach(pids) {
      forall ss, steps | Guarded(pids, ss, steps) ensures Exclusive(ss[|ss| - 1]) {
        GuardedInv(pids, ss, steps, |ss| - 1);
      }
    } else {
      var t, u :| 0 <= t < u < |pids| && pids[t] == pids[u];
      var ss, steps := SharedPid(pids, t, u);
      assert t in ss[|ss| - 1].inside && u in ss[|ss| - 1].inside;
    }
  }

  /** The code, with the ghost parts of Lock beside the two fields it has. */
  class Sleeplock {
    const pids: seq<int>
    var locked: bool
    var pid: int
    ghost var asleep: set<nat>
    ghost var retry: set<nat>
    ghost var inside: set<nat>

    ghost function St(): Lock
      reads this
    {
      Lock(locked, pid, asleep, retry, inside)
    }

    /** initsleeplock */
    constructor (pids: seq<int>)
      ensures this.pids == pids && St() == Lock(false, 0, {}, {}, {})
    {
      this.pids, locked, pid, asleep, retry, inside := pids, false, 0, {}, {}, {};
    }

    /** acquiresleep up to its return or its next sleep. */
    method AcquireSleep(t: nat) returns (got: bool)
      requires Enabled(pids, St(), Acquire(t))
      modifies this
      ensures St() == After(pids, old(St()), Acquire(t)) && (got <==> !old(locked))
    {
      retry := retry - {t};
      if locked {
        asleep := asleep + {t};
        return false;
      }
      locked := true;
      pid := pids[t];
      inside := inside + {t};
      got := true;
    }

    method ReleaseSleep(t: nat)
      requires Enabled(pids, St(), Release(t))
      modifies this
      ensures St() == After(pids, old(St()), Release(t))
    {
      locked := false;
      pid := 0;
      retry, asleep := retry + asleep, {};
      inside := inside - {t};
    }

    method HoldingSleep(t: nat) returns (r: bool)
      requires t < |pids|
      ensures r == Holding(pids, St(), t)
      ensures Inv(pids, St()) && t in inside ==> r
      ensures Inv(pids, St()) && OneThreadEach(pids) ==> (r <==> t in inside)
    {
      r := locked && pid == pids[t];
    }
  }
}
