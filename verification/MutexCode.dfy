// kthread_mutex_alloc, dealloc, lock and unlock of Ass2/proc.c as they are written: loops
// over the slots of mtable.  Each method is one critical section.

module MutexCode {
  import opened Basics
  import opened KernelMutex
  import opened MutexTable
  import opened MutexLaws

  class Mtable {
    var mid: seq<int>
    var mx: seq<Mutex>                // state and mythread
    var nextmid: int
    var wait: seq<Wait>               // what each thread is doing
    ghost var asked: seq<int>
    ghost var want: seq<int>

    constructor (threads: nat)
      ensures Valid() && Init(St()) && |wait| == threads
    {
      mid, mx := seq(MAX_MUTEXES, i => 0), seq(MAX_MUTEXES, i => Mutex(false, None));
      nextmid, wait := 1, seq(threads, i => Free);
      asked, want := seq(MAX_MUTEXES, i => 0), seq(threads, i => 0);
    }

    ghost function St(): Table
      reads this
    {
      Table(mid, Mutexes(mx, wait), asked, want, nextmid)
    }

    ghost predicate Valid()
      reads this
    {
      Inv(St())
    }

    /** The loop over the table. */
    method FindSlot(id: int) returns (m: nat)
      requires |mid| == MAX_MUTEXES
      ensures m == Find(mid, id)
    {
      m := 0;
      while m < MAX_MUTEXES && mid[m] != id
        invariant m <= MAX_MUTEXES && forall k :: 0 <= k < m ==> mid[k] != id
      {
        m := m + 1;
      }
      FindIs(mid, id, m);
    }

    /** kthread_mutex_alloc */
    method Alloc(t: nat) returns (r: int)
      requires Valid() && Enabled(St(), Step.Alloc(t))
      modifies this`mid, this`mx, this`nextmid
      ensures Valid() && St() == After(old(St()), Step.Alloc(t)) && Some(r) == Result(old(St()), Step.Alloc(t))
      ensures AllocOk(old(St()), St(), r)
    {
      var m := FindSlot(0);
      r := -1;
      if m < MAX_MUTEXES {
        mid := mid[m := nextmid];
        nextmid := nextmid + 1;
        mx := mx[m := mx[m].(holder := None)];
        mx := mx[m := mx[m].(locked := false)];
        r := mid[m];
      }
      assert St() == After(old(St()), Step.Alloc(t));
      AllocLaw(old(St()), t);
    }

    /** kthread_mutex_dealloc */
    method Dealloc(t: nat, id: int) returns (r: int)
      requires Valid() && Enabled(St(), Step.Dealloc(t, id))
      modifies this`mid, this`mx
      ensures Valid() && St() == After(old(St()), Step.Dealloc(t, id)) &&
        Some(r) == Result(old(St()), Step.Dealloc(t, id))
      ensures DeallocOk(old(Held(St())), Held(St()), id, r)
    {
      var m := FindSlot(id);
      r := -1;
      if m < MAX_MUTEXES && !mx[m].locked {
        mid := mid[m := 0];
        mx := mx[m := mx[m].(holder := None)];
        mx := mx[m := mx[m].(locked := false)];
        r := 0;
      }
      assert St() == After(old(St()), Step.Dealloc(t, id));
      DeallocLaw(old(St()), t, id);
    }

    /** One round of the loop in kthread_mutex_lock, on slot m: the xchg, then the holder or
        sleep. */
    method Try(t: nat, m: nat, ghost id: int) returns (taken: bool)
      requires Valid() && t < |wait| && m < MAX_MUTEXES
      modifies this`mx, this`wait, this`asked, this`want
      ensures taken == !old(mx)[m].locked
      ensures St() == if taken then Take(old(St()), t, m, id) else MutexTable.Sleep(old(St()), t, m, id)
    {
      var was := mx[m].locked;
      mx := mx[m := mx[m].(locked := true)];
      if was {
        wait, want := wait[t := Asleep(m)], want[t := id];
        return false;
      }
      mx := mx[m := mx[m].(holder := Some(t))];
      wait, asked := wait[t := Free], asked[m := id];
      taken := true;
    }

    /** kthread_mutex_lock up to its return or its first sleep. */
    method Lock(t: nat, id: int) returns (r: Option<int>)
      requires Valid() && Enabled(St(), Step.Lock(t, id))
      modifies this`mx, this`wait, this`asked, this`want
      ensures Valid() && St() == After(old(St()), Step.Lock(t, id)) && r == Result(old(St()), Step.Lock(t, id))
      ensures LockOk(old(Held(St())), Held(St()), t, id, r)
    {
      LockLaw(St(), t, id);
      var m := FindSlot(id);
      if m == MAX_MUTEXES || (mx[m].locked && mx[m].holder == Some(t)) {
        return Some(-1);
      }
      var taken := Try(t, m, id);
      r := if taken then Some(0) else None;
    }

    /** kthread_mutex_lock after a wakeup. */
    method Again(t: nat) returns (r: Option<int>)
      requires Valid() && Enabled(St(), Step.Again(t))
      modifies this`mx, this`wait, this`asked, this`want
      ensures Valid() && St() == After(old(St()), Step.Again(t)) && r == Result(old(St()), Step.Again(t))
      ensures r == Some(0) <==> mx[old(wait)[t].m].holder == Some(t) && old(mx)[old(wait)[t].m].holder == None
    {
      InvStep(St(), Step.Again(t));
      var taken := Try(t, wait[t].m, want[t]);
      r := if taken then Some(0) else None;
    }

    /** kthread_mutex_unlock up to the release of mtable.mlock. */
    method Unlock(t: nat, id: int) returns (r: Option<int>)
      requires Valid() && Enabled(St(), Step.Unlock(t, id))
      modifies this`mx, this`wait
      ensures Valid() && St() == After(old(St()), Step.Unlock(t, id)) && r == Result(old(St()), Step.Unlock(t, id))
      ensures UnlockOk(old(Held(St())), Held(St()), t, id, r)
    {
      var m := FindSlot(id);
      r := Some(-1);
      if m < MAX_MUTEXES && mx[m].locked && mx[m].holder == Some(t) {
        mx := mx[m := mx[m].(holder := None)];
        mx := mx[m := mx[m].(locked := false)];
        wait := wait[t := MustWake(m)];
        r := None;
      }
      assert St() == After(old(St()), Step.Unlock(t, id));
      UnlockLaw(old(St()), t, id);
    }

    /** The wakeup at the end of kthread_mutex_unlock: a loop over the threads. */
    method Wakeup(t: nat)
      requires Valid() && Enabled(St(), Step.Wakeup(t))
      modifies this`wait
      ensures Valid() && St() == After(old(St()), Step.Wakeup(t))
    {
      InvStep(St(), Step.Wakeup(t));
      var m, u := wait[t].m, 0;
      while u < |wait|
        invariant u <= |wait| == |old(wait)| && St() == old(St()).(ms := old(St()).ms.(wait := wait))
        invariant forall v :: 0 <= v < u ==> wait[v] == if old(wait)[v] == Asleep(m) then Retry(m) else old(wait)[v]
        invariant forall v :: u <= v < |wait| ==> wait[v] == old(wait)[v]
      {
        if wait[u] == Asleep(m) {
          wait := wait[u := Retry(m)];
        }
        u := u + 1;
      }
      wait := wait[t := Free];
      assert wait == Woken(old(wait), t, m);
    }
  }

  lemma {:induction false} FindIs(mid: seq<int>, id: int, m: nat)
    requires m <= |mid| && (m < |mid| ==> mid[m] == id) && forall k :: 0 <= k < m ==> mid[k] != id
    ensures m == Find(mid, id)
  {
  }
}
