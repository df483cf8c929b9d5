// Kernel mutexes with sleep and wakeup (Ass2/proc.c), slot by slot.  A critical section of
// mtable.mlock or ptable.lock is one step.

module KernelMutex {
  import opened Basics

  /** struct kthread_mutex_t: the state word and the holder. */
  datatype Mutex = Mutex(locked: bool, holder: Option<nat>)

  /** What a thread is doing with a mutex between two critical sections. */
  datatype Wait =
    | Free                // nothing
    | Asleep(m: nat)      // TSLEEPING on m, inside kthread_mutex_lock
    | Retry(m: nat)       // woken up, about to repeat the xchg
    | MustWake(m: nat)    // has unlocked m, has not yet called wakeup(m)

  datatype Mutexes = Mutexes(mx: seq<Mutex>, wait: seq<Wait>)

  predicate MayTry(x: Mutexes, t: nat, m: nat) {
    t < |x.wait| && m < |x.mx| && (x.wait[t] == Free || x.wait[t] == Retry(m))
  }

  /** kthread_mutex_lock: xchg finds the mutex unlocked. */
  predicate LockTaken(x: Mutexes, x': Mutexes, t: nat, m: nat) {
    && MayTry(x, t, m) && !x.mx[m].locked
    && x' == Mutexes(x.mx[m := Mutex(true, Some(t))], x.wait[t := Free])
  }

  /** kthread_mutex_lock: xchg finds it locked (by another thread); sleep. */
  predicate LockSleeps(x: Mutexes, x': Mutexes, t: nat, m: nat) {
    && MayTry(x, t, m) && x.mx[m].locked && !LockRefused(x, t, m)
    && x' == x.(mx := x.mx[m := x.mx[m].(locked := true)], wait := x.wait[t := Asleep(m)])
  }

  /** kthread_mutex_lock by the holder returns -1. */
  predicate LockRefused(x: Mutexes, t: nat, m: nat) {
    MayTry(x, t, m) && x.wait[t] == Free && x.mx[m].locked && x.mx[m].holder == Some(t)
  }

  /** kthread_mutex_unlock by the holder, up to the release of mtable.mlock. */
  predicate UnlockDone(x: Mutexes, x': Mutexes, t: nat, m: nat) {
    && t < |x.wait| && m < |x.mx| && x.wait[t] == Free
    && !UnlockRefused(x, t, m)
    && x' == Mutexes(x.mx[m := Mutex(false, None)], x.wait[t := MustWake(m)])
  }

  /** kthread_mutex_unlock returns -1: not locked, or locked by another thread. */
  predicate UnlockRefused(x: Mutexes, t: nat, m: nat)
    requires m < |x.mx|
  {
    !x.mx[m].locked || x.mx[m].holder != Some(t)
  }

  /** The wakeup(m) at the end of kthread_mutex_unlock. */
  predicate WakeAll(x: Mutexes, x': Mutexes, t: nat) {
    && t < |x.wait| && x.wait[t].MustWake?
    && x' == x.(wait := seq(|x.wait|, u requires 0 <= u < |x.wait| =>
         if u == t then Free
         else if x.wait[u] == Asleep(x.wait[t].m) then Retry(x.wait[t].m)
         else x.wait[u]))
  }

  predicate MutexStep(x: Mutexes, x': Mutexes, t: nat, m: nat) {
    LockTaken(x, x', t, m) || LockSleeps(x, x', t, m) || UnlockDone(x, x', t, m) || WakeAll(x, x', t)
  }

  /** Some thread has yet to call wakeup(m). */
  ghost predicate WakePending(x: Mutexes, m: nat) {
    exists u :: 0 <= u < |x.wait| && x.wait[u] == MustWake(m)
  }

  ghost predicate MutexInv(x: Mutexes) {
    && (forall m :: 0 <= m < |x.mx| ==> (x.mx[m].locked <==> x.mx[m].holder.Some?))
    && (forall t :: 0 <= t < |x.wait| && x.wait[t].Asleep? ==>
          x.wait[t].m < |x.mx| && (x.mx[x.wait[t].m].locked || WakePending(x, x.wait[t].m)))
  }

  /** Each step keeps it: MLOCKED means one holder, and no wakeup is lost. */
  lemma MutexInvStep(x: Mutexes, x': Mutexes, t: nat, m: nat)
    requires MutexInv(x) && MutexStep(x, x', t, m)
    ensures MutexInv(x')
  {
    forall u | 0 <= u < |x'.wait| && x'.wait[u].Asleep?
      ensures x'.wait[u].m < |x'.mx| && (x'.mx[x'.wait[u].m].locked || WakePending(x', x'.wait[u].m))
    {
      if LockTaken(x, x', t, m) || LockSleeps(x, x', t, m) {
        if u != t && WakePending(x, x.wait[u].m) {
          var w :| 0 <= w < |x.wait| && x.wait[w] == MustWake(x.wait[u].m);
          assert x'.wait[w] == MustWake(x.wait[u].m);
        }
      } else if UnlockDone(x, x', t, m) {
        assert x'.wait[t] == MustWake(m);
        if x.wait[u].m != m && WakePending(x, x.wait[u].m) {
          var w :| 0 <= w < |x.wait| && x.wait[w] == MustWake(x.wait[u].m);
          assert x'.wait[w] == MustWake(x.wait[u].m);
        }
      } else {
        assert x'.wait[u] == x.wait[u] && x.wait[u].m != x.wait[t].m;
        if WakePending(x, x.wait[u].m) {
          var w :| 0 <= w < |x.wait| && x.wait[w] == MustWake(x.wait[u].m);
          assert x'.wait[w] == MustWake(x.wait[u].m);
        }
      }
    }
  }
}
