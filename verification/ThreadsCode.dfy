// The critical sections of Ass2/proc.c with their loops over the tables.  Each is one step
// of the transition system.

module ThreadsCode {
  import opened Threads
  import opened ThreadsSteps

  class Kernel {
    var procs: seq<Proc>
    var th: Table
    var cpus: seq<Cpu>
    var nextpid: nat
    var nexttid: nat
    const init: nat
    var helper: nat

    /** After userinit: the first process with its one thread, on the stack kalloc gave. */
    constructor (ncpu: nat, kstack: nat)
      requires kstack != 0
      ensures Valid() && Init(S()) && |cpus| == ncpu
    {
      init, helper, nextpid, nexttid := 0, 1, 2, 2;
      procs := seq(NPROC, p => Proc(if p == 0 then PUsed else PUnused, if p == 0 then 1 else 0, -1));
      th := seq(NPROC, p => seq(NTHREAD, t =>
        if p == 0 && t == 0 then Thread(1, TRunnable, kstack, NoChan, false, User)
          else Thread(0, TUnused, 0, NoChan, false, Gone)));
      cpus := seq(ncpu, c => Idle);
    }

    ghost function S(): State
      reads this
    {
      State(procs, th, cpus, nextpid, nexttid, init)
    }

    ghost predicate Valid()
      reads this
    {
      Shape(th) && |procs| == NPROC && init < NPROC && helper < NPROC
    }

    /** wakeup2 */
    method Wakeup2(p: nat, chan: Chan)
      requires Shape(th) && p < NPROC
      modifies this`th
      ensures Shape(th) && th == old(th)[p := WakeRow(old(th)[p], chan)]
    {
      var t := 0;
      while t < NTHREAD
        invariant 0 <= t <= NTHREAD && |th| == NPROC && |th[p]| == NTHREAD
        invariant forall q :: 0 <= q < NPROC && q != p ==> th[q] == old(th)[q]
        invariant forall u :: 0 <= u < NTHREAD ==>
          th[p][u] == if u < t then Woken(old(th)[p][u], chan) else old(th)[p][u]
      {
        if th[p][t].state == TSleeping && th[p][t].chan == chan {
          th := th[p := th[p][t := th[p][t].(state := TRunnable)]];
        }
        t := t + 1;
      }
      assert th[p] == WakeRow(old(th)[p], chan);
    }

    /** wakeup1 */
    method Wakeup1(chan: Chan)
      requires Shape(th)
      modifies this`th
      ensures Shape(th) && th == WakeAll(old(th), chan)
    {
      var p := 0;
      while p < NPROC
        invariant 0 <= p <= NPROC && Shape(th)
        invariant forall q :: 0 <= q < NPROC ==> th[q] == if q < p then WakeRow(old(th)[q], chan) else old(th)[q]
      {
        Wakeup2(p, chan);
        p := p + 1;
      }
    }

    method RemoveThread(p: nat, t: nat)
      requires Shape(th) && At(p, t)
      modifies this`th
      ensures Shape(th) && th == Put(old(th), p, t, Removed(old(th)[p][t]))
    {
      th := th[p := th[p][t := Thread(0, TUnused, 0, th[p][t].chan, false, Gone)]];
    }

    /** The inner loop of kill_other_threads. */
    method KillPass(p: nat, tid: nat) returns (found: bool)
      requires Shape(th) && p < NPROC
      modifies this`th
      ensures Shape(th) && th == old(th)[p := ScanRow(old(th)[p], tid)]
      ensures found <==> Found(old(th)[p], tid)
    {
      found := false;
      var t := 0;
      while t < NTHREAD
        invariant 0 <= t <= NTHREAD && Shape(th)
        invariant forall q :: 0 <= q < NPROC && q != p ==> th[q] == old(th)[q]
        invariant forall u :: 0 <= u < NTHREAD ==>
          th[p][u] == if u < t then Scanned(old(th)[p][u], tid) else old(th)[p][u]
        invariant found <==> exists u :: 0 <= u < t && Hit(old(th)[p][u], tid)
      {
        if th[p][t].tid != tid && th[p][t].state != TUnused {
          found := true;
          assert Hit(old(th)[p][t], tid);
          th := th[p := th[p][t := th[p][t].(killed := true)]];
          if th[p][t].state == TSleeping || th[p][t].state == TZombie {
            RemoveThread(p, t);
          }
        }
        t := t + 1;
      }
      assert th[p] == ScanRow(old(th)[p], tid);
    }

    /** kill_other_threads, from the lock to the next sched or to the end. */
    method KillOtherThreads(c: nat, p: nat, t: nat)
      requires Valid() && Cur(S(), c, p, t) && th[p][t].pc.Killing?
      modifies this`th, this`cpus
      ensures Valid()
      ensures if old(th)[p][t].pc.first && old(th)[p][t].killed then NextKillSelf(old(S()), S(), c, p, t)
              else NextKillScan(old(S()), S(), c, p, t)
    {
      var x := th[p][t];
      if x.pc.first && x.killed {
        Wakeup1(OnThread(p, t));
        th := th[p := th[p][t := th[p][t].(state := TZombie, pc := Gone)]];
        cpus := cpus[c := Idle];
        return;
      }
      var found := KillPass(p, x.tid);
      if found {
        th := th[p := th[p][t := x.(state := TRunnable, pc := Killing(false, x.pc.exiting))]];
        cpus := cpus[c := Idle];
      } else {
        th := th[p := th[p][t := x.(pc := if x.pc.exiting then Exiting else User)]];
      }
    }

    /** safe_exit's loop over the children. */
    method PassChildren(p: nat)
      requires Valid() && p < NPROC && p != init
      modifies this`procs, this`th
      ensures Valid() && procs == Reparent(old(procs), p, init)
      ensures th == if ZombieChild(old(procs), p) then WakeAll(old(th), OnProc(init)) else old(th)
    {
      var q := 0;
      ghost var woke := false;
      while q < NPROC
        invariant 0 <= q <= NPROC && Valid()
        invariant forall r :: 0 <= r < NPROC ==>
          procs[r] == if r < q then Adopted(old(procs)[r], p, init) else old(procs)[r]
        invariant woke <==> exists r :: 0 <= r < q && old(procs)[r].parent == p && old(procs)[r].state == PZombie
        invariant th == if woke then WakeAll(old(th), OnProc(init)) else old(th)
      {
        if procs[q].parent == p {
          procs := procs[q := procs[q].(parent := init)];
          if procs[q].state == PZombie {
            WakeTwice(old(th), OnProc(init));
            Wakeup1(OnProc(init));
            woke := true;
          }
        }
        q := q + 1;
      }
    }

    /** safe_exit, from the lock on. */
    method SafeExit(c: nat, p: nat, t: nat)
      requires Valid() && Cur(S(), c, p, t) && th[p][t].pc == Exiting && p != init && procs[p].parent >= 0
      modifies this`procs, this`th, this`cpus
      ensures Valid() && NextSafeExit(old(S()), S(), c, p, t)
    {
      Wakeup1(OnProc(procs[p].parent));
      PassChildren(p);
      procs := procs[p := procs[p].(state := PZombie)];
      th := th[p := th[p][t := th[p][t].(state := TUnused, pc := Gone)]];
      cpus := cpus[c := Idle];
    }

    /** The scan of wait: the first zombie child, or -1. */
    method FindZombie(p: nat) returns (q: int, havekids: bool)
      requires |procs| == NPROC
      ensures -1 <= q < NPROC
      ensures q >= 0 ==> procs[q].parent == p && procs[q].state == PZombie
      ensures q >= 0 ==> forall r :: 0 <= r < q ==> !(procs[r].parent == p && procs[r].state == PZombie)
      ensures q == -1 ==> !ZombieChild(procs, p)
      ensures q == -1 ==> (havekids <==> exists r :: 0 <= r < NPROC && procs[r].parent == p)
    {
      havekids := false;
      q := 0;
      while q < NPROC
        invariant 0 <= q <= NPROC
        invariant forall r :: 0 <= r < q ==> !(procs[r].parent == p && procs[r].state == PZombie)
        invariant havekids <==> exists r :: 0 <= r < q && procs[r].parent == p
      {
        if procs[q].parent == p {
          havekids := true;
          if procs[q].state == PZombie {
            return;
          }
        }
        q := q + 1;
      }
      q := -1;
    }

    method RemoveAll(q: nat)
      requires Shape(th) && q < NPROC
      modifies this`th
      ensures Shape(th) && th == old(th)[q := RemoveRow(old(th)[q])]
    {
      var t := 0;
      while t < NTHREAD
        invariant 0 <= t <= NTHREAD && Shape(th)
        invariant forall r :: 0 <= r < NPROC && r != q ==> th[r] == old(th)[r]
        invariant forall u :: 0 <= u < NTHREAD ==> th[q][u] == if u < t then Removed(old(th)[q][u]) else old(th)[q][u]
      {
        RemoveThread(q, t);
        t := t + 1;
      }
      assert th[q] == RemoveRow(old(th)[q]);
    }

    /** One round of wait; pid is -1 when it returns -1 and -2 when it sleeps. */
    method Wait(c: nat, p: nat, t: nat, killed: bool) returns (pid: int)
      requires Valid() && Cur(S(), c, p, t) && th[p][t].pc == Waiting
      requires procs[p].state == PUsed
      modifies this`procs, this`th, this`cpus
      ensures Valid()
      ensures pid == -1 <==> !ZombieChild(old(procs), p) && (killed || !HasChild(old(procs), p))
      ensures pid == -1 ==> NextWaitFails(old(S()), S(), c, p, t)
      ensures pid == -2 <==> !ZombieChild(old(procs), p) && !killed && HasChild(old(procs), p)
      ensures pid == -2 ==> NextWaitSleeps(old(S()), S(), c, p, t)
      ensures pid >= -2
      ensures pid >= 0 ==> exists q :: 0 <= q < NPROC && pid == old(procs)[q].pid && NextReap(old(S()), S(), c, p, t, q)
    {
      var q, havekids := FindZombie(p);
      if q >= 0 {
        RemoveAll(q);
        pid := procs[q].pid;
        procs := procs[q := Proc(PUnused, 0, -1)];
        th := th[p := th[p][t := th[p][t].(pc := User)]];
        assert NextReap(old(S()), S(), c, p, t, q);
      } else if !havekids || killed {
        th := th[p := th[p][t := th[p][t].(pc := User)]];
        pid := -1;
      } else {
        th := th[p := th[p][t := th[p][t].(state := TSleeping, chan := OnProc(p))]];
        cpus := cpus[c := Idle];
        pid := -2;
      }
    }

    /** kthread_exit; last means the whole process has to exit instead. */
    method ThreadExit(c: nat, p: nat, t: nat) returns (last: bool)
      requires Valid() && Cur(S(), c, p, t) && th[p][t].pc == User
      modifies this`th, this`cpus
      ensures Valid()
      ensures last ==> S() == old(S())
      ensures last ==> forall u :: 0 <= u < NTHREAD && u != t ==> th[p][u].state == TUnused || th[p][u].state == TZombie
      ensures !last ==> exists u :: 0 <= u < NTHREAD && NextThreadExit(old(S()), S(), c, p, t, u)
    {
      var u := 0;
      while u < NTHREAD && !(u != t && th[p][u].state != TUnused && th[p][u].state != TZombie)
        invariant 0 <= u <= NTHREAD
        invariant forall v :: 0 <= v < u && v != t ==> th[p][v].state == TUnused || th[p][v].state == TZombie
      {
        u := u + 1;
      }
      if u == NTHREAD {
        return true;
      }
      th := th[p := th[p][t := th[p][t].(state := TZombie, pc := Gone)]];
      Wakeup2(p, OnThread(p, t));
      cpus := cpus[c := Idle];
      assert NextThreadExit(old(S()), S(), c, p, t, u);
      last := false;
    }

    /** allocthread's search for a free process, from helper round to the start. */
    method FindUnused() returns (q: int)
      requires Valid()
      ensures -1 <= q < NPROC
      ensures q >= 0 ==> procs[q].state == PUnused
      ensures q == -1 ==> forall r :: 0 <= r < NPROC ==> procs[r].state != PUnused
    {
      q := helper;
      while q < NPROC {
        if procs[q].state == PUnused { return; }
        q := q + 1;
      }
      q := 0;
      while q < NPROC
        invariant 0 <= q <= NPROC && forall r :: 0 <= r < q ==> procs[r].state != PUnused
      {
        if procs[q].state == PUnused { return; }
        q := q + 1;
      }
      q := -1;
    }

    /** fork; k is what kalloc returns, 0 for none, and copied says whether copyuvm succeeds. */
    method Fork(c: nat, p: nat, t: nat, k: nat, copied: bool) returns (pid: int)
      requires Valid() && Cur(S(), c, p, t) && th[p][t].pc == User
      requires k != 0 ==> forall r, u :: At(r, u) ==> th[r][u].kstack != k
      modifies this`procs, this`th, this`nextpid, this`nexttid, this`helper
      ensures Valid()
      ensures pid >= 0 ==> exists q :: 0 <= q < NPROC && pid == procs[q].pid && NextFork(old(S()), S(), c, p, t, q, k)
      ensures pid < 0 ==> S() == old(S()) || exists q :: 0 <= q < NPROC && NextForkFail(old(S()), S(), c, p, t, q)
      ensures pid >= 0 <==> k != 0 && copied && exists r :: 0 <= r < NPROC && old(procs)[r].state == PUnused
    {
      var q := FindUnused();
      if q < 0 {
        return -1;
      }
      helper := if helper == NPROC - 1 then 0 else helper + 1;
      procs := procs[q := procs[q].(pid := nextpid)];
      var x := th[q][0].(tid := nexttid);
      nextpid, nexttid := nextpid + 1, nexttid + 1;
      if k == 0 || !copied {
        th := th[q := th[q][0 := x.(state := TUnused, kstack := 0)]];
        assert NextForkFail(old(S()), S(), c, p, t, q);
        return -1;
      }
      th := th[q := th[q][0 := x.(state := TRunnable, kstack := k, pc := User)]];
      procs := procs[q := procs[q].(state := PUsed, parent := p)];
      pid := procs[q].pid;
      assert NextFork(old(S()), S(), c, p, t, q, k);
    }

    /** kthread_create; k is what kalloc returns, 0 for none. */
    method Create(c: nat, p: nat, t: nat, k: nat) returns (tid: int)
      requires Valid() && Cur(S(), c, p, t) && th[p][t].pc == User
      requires k != 0 ==> forall r, u :: At(r, u) ==> th[r][u].kstack != k
      modifies this`th, this`nexttid
      ensures Valid()
      ensures tid >= 0 ==>
        exists u :: 0 <= u < NTHREAD && tid == th[p][u].tid && NextCreate(old(S()), S(), c, p, t, u, k)
      ensures tid < 0 ==> S() == old(S()) || exists u :: 0 <= u < NTHREAD && NextCreateFail(old(S()), S(), c, p, t, u)
      ensures tid >= 0 <==> k != 0 && exists u :: 0 <= u < NTHREAD && old(th)[p][u].state == TUnused
    {
      var u := 0;
      while u < NTHREAD && th[p][u].state != TUnused
        invariant 0 <= u <= NTHREAD && forall v :: 0 <= v < u ==> th[p][v].state != TUnused
      {
        u := u + 1;
      }
      if u == NTHREAD {
        return -1;
      }
      var x := th[p][u].(tid := nexttid, kstack := k);
      nexttid := nexttid + 1;
      if k == 0 {
        th := th[p := th[p][u := x]];
        assert NextCreateFail(old(S()), S(), c, p, t, u);
        return -1;
      }
      th := th[p := th[p][u := x.(state := TRunnable, pc := User)]];
      tid := x.tid;
      assert NextCreate(old(S()), S(), c, p, t, u, k);
    }

    /** One round of kthread_join's second loop and what follows it; 1 means it sleeps. */
    method Join(c: nat, p: nat, t: nat, u: nat, id: nat) returns (r: int)
      requires Valid() && Cur(S(), c, p, t) && th[p][t].pc == Joining(u, id) && u < NTHREAD &&
        th[p][t].state == TRunning
      modifies this`th, this`cpus
      ensures Valid()
      ensures r == 1 ==> NextJoinSleeps(old(S()), S(), c, p, t, u, id)
      ensures r != 1 ==>
        NextJoined(old(S()), S(), c, p, t, u, id) && r == if old(th)[p][u].state == TZombie then 0 else -1
    {
      if th[p][u].tid == id && th[p][u].state != TZombie && th[p][u].state != TUnused {
        th := th[p := th[p][t := th[p][t].(state := TSleeping, chan := OnThread(p, u))]];
        cpus := cpus[c := Idle];
        return 1;
      }
      r := -1;
      if th[p][u].state == TZombie {
        RemoveThread(p, u);
        r := 0;
      }
      th := th[p := th[p][t := th[p][t].(pc := User)]];
    }
  }

  lemma WakeTwice(th: Table, chan: Chan)
    requires Shape(th)
    ensures WakeAll(WakeAll(th, chan), chan) == WakeAll(th, chan)
  {
    SameTable(WakeAll(WakeAll(th, chan), chan), WakeAll(th, chan));
  }
}
