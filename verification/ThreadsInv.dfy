// What every step of Ass2/proc.c keeps.

module ThreadsInv {
  import opened Threads

  /** A thread is TRUNNING exactly when one CPU runs it. */
  ghost predicate CpuOk(th: Table, cpus: seq<Cpu>)
    requires Shape(th)
  {
    && (forall c :: 0 <= c < |cpus| && cpus[c].On? ==>
         At(cpus[c].p, cpus[c].t) && th[cpus[c].p][cpus[c].t].state == TRunning)
    && (forall c, d :: 0 <= c < |cpus| && 0 <= d < |cpus| && cpus[c].On? && cpus[c] == cpus[d] ==> c == d)
    && (forall p, t :: At(p, t) && th[p][t].state == TRunning ==> On(p, t) in cpus)
  }

  /** Unused and zombie processes have no threads, and no kernel stack is lost: a free slot
      has one only in a zombie, where wait will free it. */
  ghost predicate ProcOk(procs: seq<Proc>, th: Table)
    requires Shape(th) && |procs| == NPROC
  {
    && (forall p, t :: At(p, t) && procs[p].state != PUsed ==> th[p][t].state == TUnused)
    && (forall p, t :: At(p, t) && procs[p].state != PZombie && th[p][t].state == TUnused ==> th[p][t].kstack == 0)
  }

  /** Live threads have a kernel stack, and distinct ids and stacks. */
  ghost predicate IdOk(th: Table, nexttid: nat)
    requires Shape(th)
  {
    && (forall p, t :: At(p, t) && Live(th[p][t]) ==> 0 < th[p][t].tid < nexttid && th[p][t].kstack != 0)
    && (forall p, t, q, u ::
         At(p, t) && At(q, u) && Live(th[p][t]) && Live(th[q][u]) && th[p][t].tid == th[q][u].tid ==> p == q && t == u)
    && (forall p, t, q, u :: At(p, t) && At(q, u) && th[p][t].kstack != 0 && th[p][t].kstack == th[q][u].kstack ==>
         p == q && t == u)
  }

  /** Every process but init has a parent that can still wait for it. */
  ghost predicate FamilyOk(procs: seq<Proc>, init: nat) {
    && |procs| == NPROC && init < NPROC && procs[init].state == PUsed && procs[init].parent == -1
    && (forall p :: 0 <= p < NPROC && procs[p].state == PUnused ==> procs[p].parent == -1)
    && (forall p :: 0 <= p < NPROC && procs[p].state != PUnused && p != init ==>
          0 <= procs[p].parent < NPROC && procs[p].parent != p && procs[procs[p].parent].state == PUsed)
  }

  /** Nobody sleeps in wait over a zombie child. */
  ghost predicate WaitOk(procs: seq<Proc>, th: Table)
    requires Shape(th)
  {
    forall p, t :: At(p, t) && th[p][t].state == TSleeping && th[p][t].pc == Waiting ==>
      th[p][t].chan == OnProc(p) && !ZombieChild(procs, p)
  }

  /** Nobody sleeps in kthread_join on a zombie or a free slot. */
  ghost predicate JoinOk(th: Table)
    requires Shape(th)
  {
    forall p, t :: At(p, t) && th[p][t].state == TSleeping && th[p][t].pc.Joining? ==>
      th[p][t].pc.slot < NTHREAD && th[p][t].chan == OnThread(p, th[p][t].pc.slot)
      && th[p][th[p][t].pc.slot].state != TZombie && th[p][th[p][t].pc.slot].state != TUnused
  }

  /** A process in safe_exit has one thread left, and init never exits. */
  ghost predicate SoleOk(th: Table, init: nat)
    requires Shape(th)
  {
    && (forall p, t :: At(p, t) && Live(th[p][t]) && Ending(th[p][t]) ==> p != init)
    && (forall p, t, u :: At(p, t) && At(p, u) && Live(th[p][t]) && th[p][t].pc == Exiting && u != t ==>
         th[p][u].state == TUnused)
  }

  /** In exit. */
  predicate Ending(x: Thread) {
    x.pc == Exiting || (x.pc.Killing? && x.pc.exiting)
  }

  ghost predicate Inv(s: State) {
    && Shape(s.th) && |s.procs| == NPROC && s.nexttid > 0
    && CpuOk(s.th, s.cpus) && ProcOk(s.procs, s.th) && IdOk(s.th, s.nexttid)
    && FamilyOk(s.procs, s.init) && WaitOk(s.procs, s.th) && JoinOk(s.th) && SoleOk(s.th, s.init)
  }

  lemma InvInit(s: State)
    requires Init(s)
    ensures Inv(s)
  {
  }

  // ---------- CPUs ----------

  ghost predicate SameRunning(th: Table, th': Table)
    requires Shape(th) && Shape(th')
  {
    forall p, t :: At(p, t) ==> (th'[p][t].state == TRunning <==> th[p][t].state == TRunning)
  }

  lemma CpuSame(th: Table, th': Table, cpus: seq<Cpu>)
    requires Shape(th) && Shape(th') && CpuOk(th, cpus) && SameRunning(th, th')
    ensures CpuOk(th', cpus)
  {
  }

  lemma CpuLeave(th: Table, th': Table, cpus: seq<Cpu>, c: nat, p: nat, t: nat)
    requires Shape(th) && Shape(th') && CpuOk(th, cpus) && c < |cpus| && cpus[c] == On(p, t)
    requires th'[p][t].state != TRunning
    requires forall q, u :: At(q, u) && !(q == p && u == t) ==>
      (th'[q][u].state == TRunning <==> th[q][u].state == TRunning)
    ensures CpuOk(th', cpus[c := Idle])
  {
    var cpus' := cpus[c := Idle];
    forall q, u | At(q, u) && th'[q][u].state == TRunning ensures On(q, u) in cpus' {
      assert On(q, u) in cpus;
      var d :| 0 <= d < |cpus| && cpus[d] == On(q, u);
      assert cpus'[d] == On(q, u);
    }
  }

  lemma CpuEnter(th: Table, th': Table, cpus: seq<Cpu>, c: nat, p: nat, t: nat)
    requires Shape(th) && Shape(th') && CpuOk(th, cpus) && c < |cpus| && cpus[c] == Idle && At(p, t)
    requires th[p][t].state != TRunning && th'[p][t].state == TRunning
    requires forall q, u :: At(q, u) && !(q == p && u == t) ==>
      (th'[q][u].state == TRunning <==> th[q][u].state == TRunning)
    ensures CpuOk(th', cpus[c := On(p, t)])
  {
    var cpus' := cpus[c := On(p, t)];
    assert cpus'[c] == On(p, t);
    forall q, u | At(q, u) && th'[q][u].state == TRunning ensures On(q, u) in cpus' {
      if !(q == p && u == t) {
        assert On(q, u) in cpus;
        var d :| 0 <= d < |cpus| && cpus[d] == On(q, u);
        assert cpus'[d] == On(q, u);
      }
    }
  }

  // ---------- one thread changes and stays alive ----------

  /** x may replace live thread y. */
  predicate SameSelf(x: Thread, y: Thread) {
    x.tid == y.tid && x.kstack == y.kstack && Live(x) && Live(y)
  }

  ghost predicate WaitFine(procs: seq<Proc>, p: nat, x: Thread) {
    x.state == TSleeping && x.pc == Waiting ==> x.chan == OnProc(p) && !ZombieChild(procs, p)
  }

  predicate JoinFine(th: Table, p: nat, x: Thread)
    requires Shape(th) && p < NPROC
  {
    x.state == TSleeping && x.pc.Joining? ==>
      x.pc.slot < NTHREAD && x.chan == OnThread(p, x.pc.slot)
      && th[p][x.pc.slot].state != TZombie && th[p][x.pc.slot].state != TUnused
  }

  predicate SoleFine(th: Table, init: nat, p: nat, t: nat, x: Thread)
    requires Shape(th) && At(p, t)
  {
    && (Ending(x) ==> p != init)
    && (x.pc == Exiting ==> forall u :: 0 <= u < NTHREAD && u != t ==> th[p][u].state == TUnused)
  }

  lemma PutProc(procs: seq<Proc>, th: Table, p: nat, t: nat, x: Thread)
    requires Shape(th) && At(p, t) && |procs| == NPROC && ProcOk(procs, th) && SameSelf(x, th[p][t])
    ensures ProcOk(procs, Put(th, p, t, x))
  {
  }

  lemma PutId(th: Table, n: nat, p: nat, t: nat, x: Thread)
    requires Shape(th) && At(p, t) && IdOk(th, n) && SameSelf(x, th[p][t])
    ensures IdOk(Put(th, p, t, x), n)
  {
    var th' := Put(th, p, t, x);
    assert forall q, u :: At(q, u) ==> SubId(th[q][u], th'[q][u]);
    IdSub(th, th', n);
  }

  lemma PutWait(procs: seq<Proc>, th: Table, p: nat, t: nat, x: Thread)
    requires Shape(th) && At(p, t) && WaitOk(procs, th) && WaitFine(procs, p, x)
    ensures WaitOk(procs, Put(th, p, t, x))
  {
  }

  lemma PutJoin(th: Table, p: nat, t: nat, x: Thread)
    requires Shape(th) && At(p, t) && JoinOk(th) && JoinFine(th, p, x) && Live(x) && x.state != TZombie
    ensures JoinOk(Put(th, p, t, x))
  {
  }

  lemma PutSole(th: Table, init: nat, p: nat, t: nat, x: Thread)
    requires Shape(th) && At(p, t) && SoleOk(th, init) && Live(th[p][t]) && SoleFine(th, init, p, t, x)
    ensures SoleOk(Put(th, p, t, x), init)
  {
    var th' := Put(th, p, t, x);
    forall q, u, v | At(q, u) && At(q, v) && Live(th'[q][u]) && th'[q][u].pc == Exiting && v != u
      ensures th'[q][v].state == TUnused
    {
      if !(q == p && u == t) {
        assert th'[q][u] == th[q][u] && Live(th[q][u]);
        assert th[q][v].state == TUnused;
      }
    }
  }

  /** What a thread may become without leaving its CPU or its slot. */
  ghost predicate MayBe(s: State, p: nat, t: nat, x: Thread)
    requires Shape(s.th) && At(p, t)
  {
    && SameSelf(x, s.th[p][t]) && x.state != TZombie
    && WaitFine(s.procs, p, x) && JoinFine(s.th, p, x) && SoleFine(s.th, s.init, p, t, x)
  }

  lemma InvStay(s: State, s': State, p: nat, t: nat, x: Thread)
    requires Inv(s) && At(p, t) && MayBe(s, p, t, x) && Stay(s, s', p, t, x)
    requires x.state == TRunning <==> s.th[p][t].state == TRunning
    ensures Inv(s')
  {
    CpuSame(s.th, s'.th, s.cpus);
    PutProc(s.procs, s.th, p, t, x);
    PutId(s.th, s.nexttid, p, t, x);
    PutWait(s.procs, s.th, p, t, x);
    PutJoin(s.th, p, t, x);
    PutSole(s.th, s.init, p, t, x);
  }

  lemma InvLeave(s: State, s': State, c: nat, p: nat, t: nat, x: Thread)
    requires Inv(s) && Cur(s, c, p, t) && MayBe(s, p, t, x) && Leave(s, s', c, p, t, x) && x.state != TRunning
    ensures Inv(s')
  {
    CpuLeave(s.th, s'.th, s.cpus, c, p, t);
    PutProc(s.procs, s.th, p, t, x);
    PutId(s.th, s.nexttid, p, t, x);
    PutWait(s.procs, s.th, p, t, x);
    PutJoin(s.th, p, t, x);
    PutSole(s.th, s.init, p, t, x);
  }

  // ---------- threads are woken, marked or removed ----------

  predicate SubId(x: Thread, y: Thread) {
    && (Live(y) ==> Live(x) && y.tid == x.tid && y.kstack == x.kstack)
    && (y.kstack != 0 ==> y.kstack == x.kstack)
  }

  lemma IdSub(th: Table, th': Table, n: nat)
    requires Shape(th) && Shape(th') && IdOk(th, n)
    requires forall p, t :: At(p, t) ==> SubId(th[p][t], th'[p][t])
    ensures IdOk(th', n)
  {
    forall p, t, q, u | At(p, t) && At(q, u) && Live(th'[p][t]) && Live(th'[q][u]) && th'[p][t].tid == th'[q][u].tid
      ensures p == q && t == u
    {
      assert SubId(th[p][t], th'[p][t]) && SubId(th[q][u], th'[q][u]);
    }
    forall p, t, q, u | At(p, t) && At(q, u) && th'[p][t].kstack != 0 && th'[p][t].kstack == th'[q][u].kstack
      ensures p == q && t == u
    {
      assert SubId(th[p][t], th'[p][t]) && SubId(th[q][u], th'[q][u]);
    }
  }

  /** Woken, marked killed, or removed while off every CPU. */
  predicate Quieter(x: Thread, y: Thread) {
    || y == x
    || (x.state == TSleeping && y == x.(state := TRunnable))
    || (Live(x) && y == x.(killed := true))
    || (x.state != TRunning && x.state != TRunnable && y == Removed(x))
  }

  ghost predicate AllQuieter(th: Table, th': Table)
    requires Shape(th) && Shape(th')
  {
    forall p, t :: At(p, t) ==> Quieter(th[p][t], th'[p][t])
  }

  lemma QuietKeeps(s: State, s': State)
    requires Inv(s) && Shape(s'.th) && AllQuieter(s.th, s'.th) && s' == s.(th := s'.th) && JoinOk(s'.th)
    ensures Inv(s')
  {
    QuietSame(s.th, s'.th);
    CpuSame(s.th, s'.th, s.cpus);
    IdSub(s.th, s'.th, s.nexttid);
    QuietProc(s.procs, s.th, s'.th);
    QuietWait(s.procs, s.th, s'.th);
    QuietSole(s.th, s'.th, s.init);
  }

  lemma QuietSame(th: Table, th': Table)
    requires Shape(th) && Shape(th') && AllQuieter(th, th')
    ensures SameRunning(th, th') && forall p, t :: At(p, t) ==> SubId(th[p][t], th'[p][t])
  {
    forall p, t | At(p, t)
      ensures SubId(th[p][t], th'[p][t]) && (th'[p][t].state == TRunning <==> th[p][t].state == TRunning)
    {
      assert Quieter(th[p][t], th'[p][t]);
    }
  }

  lemma QuietProc(procs: seq<Proc>, th: Table, th': Table)
    requires Shape(th) && Shape(th') && AllQuieter(th, th') && |procs| == NPROC && ProcOk(procs, th)
    ensures ProcOk(procs, th')
  {
  }

  lemma QuietWait(procs: seq<Proc>, th: Table, th': Table)
    requires Shape(th) && Shape(th') && AllQuieter(th, th') && |procs| == NPROC && WaitOk(procs, th)
    ensures WaitOk(procs, th')
  {
  }

  lemma QuietSole(th: Table, th': Table, init: nat)
    requires Shape(th) && Shape(th') && AllQuieter(th, th') && SoleOk(th, init)
    ensures SoleOk(th', init)
  {
    forall p, t, u | At(p, t) && At(p, u) && Live(th'[p][t]) && th'[p][t].pc == Exiting && u != t
      ensures th'[p][u].state == TUnused
    {
      assert Quieter(th[p][t], th'[p][t]) && Quieter(th[p][u], th'[p][u]);
    }
  }
}
