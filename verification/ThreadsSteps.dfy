// Each step of Ass2/proc.c keeps the invariant; so does every run.

module ThreadsSteps {
  import opened Threads
  import opened ThreadsInv

  // ---------- steps that change one live thread ----------

  /** A state change alone keeps what safe_exit relies on. */
  lemma SoleStays(s: State, p: nat, t: nat, x: Thread)
    requires Inv(s) && At(p, t) && Live(s.th[p][t])
    requires x.pc == Exiting ==> s.th[p][t].pc == Exiting
    requires Ending(x) ==> Ending(s.th[p][t]) || p != s.init
    ensures SoleFine(s.th, s.init, p, t, x)
  {
    assert forall u :: 0 <= u < NTHREAD ==> At(p, u);
  }

  lemma InvSchedule(s: State, s': State, c: nat, p: nat, t: nat)
    requires Inv(s) && NextSchedule(s, s', c, p, t)
    ensures Inv(s')
  {
    var x := s.th[p][t].(state := TRunning);
    CpuEnter(s.th, s'.th, s.cpus, c, p, t);
    SoleStays(s, p, t, x);
    PutProc(s.procs, s.th, p, t, x);
    PutId(s.th, s.nexttid, p, t, x);
    PutWait(s.procs, s.th, p, t, x);
    PutJoin(s.th, p, t, x);
    PutSole(s.th, s.init, p, t, x);
  }

  lemma InvStays(s: State, s': State, m: Move)
    requires Inv(s) && Next(s, s', m)
    requires m.WakeKilled? || m.StartKill? || m.StartWait? || m.WaitFails? || m.StartJoin?
    ensures Inv(s')
  {
    var x := s'.th[m.p][m.t];
    SoleStays(s, m.p, m.t, x);
    InvStay(s, s', m.p, m.t, x);
  }

  lemma InvLeaves(s: State, s': State, m: Move)
    requires Inv(s) && Next(s, s', m) && (m.Yield? || m.Sleep? || m.WaitSleeps? || m.JoinSleeps?)
    ensures Inv(s')
  {
    var x := s'.th[m.p][m.t];
    SoleStays(s, m.p, m.t, x);
    InvLeave(s, s', m.c, m.p, m.t, x);
  }

  // ---------- wakeups ----------

  lemma WakeJoin(th: Table, chan: Chan)
    requires Shape(th) && JoinOk(th)
    ensures JoinOk(WakeAll(th, chan))
  {
    var th': Table := WakeAll(th, chan);
    forall p, t | At(p, t) && th'[p][t].state == TSleeping && th'[p][t].pc.Joining?
      ensures JoinFine(th', p, th'[p][t])
    {
      assert th'[p][t] == th[p][t];
      assert JoinFine(th, p, th[p][t]);
    }
  }

  ghost predicate NoSleeper(th: Table, chan: Chan)
    requires Shape(th)
  {
    forall q, u :: At(q, u) ==> !(th[q][u].state == TSleeping && th[q][u].chan == chan)
  }

  lemma InvWakeup(s: State, s': State, chan: Chan)
    requires Inv(s) && NextWakeup(s, s', chan)
    ensures Inv(s')
    ensures NoSleeper(s'.th, chan)
  {
    WakeJoin(s.th, chan);
    QuietKeeps(s, s');
  }

  // ---------- new threads ----------

  lemma InvFork(s: State, s': State, c: nat, p: nat, t: nat, q: nat, k: nat)
    requires Inv(s) && NextFork(s, s', c, p, t, q, k)
    ensures Inv(s')
  {
    assert s.th[p][t].state == TRunning;
    CpuSame(s.th, s'.th, s.cpus);
    NewId(s.th, s.nexttid, q, 0, k, s'.th[q][0]);
    NewJoin(s.th, q, 0, s'.th[q][0]);
    assert s.procs[p].state == PUsed && q != p;
    forall r | 0 <= r < NPROC && s'.procs[r].state != PUnused && r != s.init
      ensures 0 <= s'.procs[r].parent < NPROC && s'.procs[r].parent != r && s'.procs[s'.procs[r].parent].state == PUsed
    {
    }
    ForkWait(s.procs, s.th, q, s'.procs, s'.th);
    NewSole(s.th, s.init, q, 0, s'.th[q][0]);
  }

  /** A fresh id and a fresh stack in a free slot. */
  lemma NewId(th: Table, n: nat, p: nat, t: nat, k: nat, x: Thread)
    requires Shape(th) && At(p, t) && IdOk(th, n) && n > 0 && x.tid == n && x.kstack == k != 0
    requires forall r, u :: At(r, u) ==> th[r][u].kstack != k
    ensures IdOk(Put(th, p, t, x), n + 1)
  {
  }

  lemma NewJoin(th: Table, p: nat, t: nat, x: Thread)
    requires Shape(th) && At(p, t) && JoinOk(th) && x.state == TRunnable
    ensures JoinOk(Put(th, p, t, x))
  {
  }

  lemma NewSole(th: Table, init: nat, p: nat, t: nat, x: Thread)
    requires Shape(th) && At(p, t) && SoleOk(th, init) && !Ending(x)
    requires forall u :: 0 <= u < NTHREAD && Live(th[p][u]) ==> th[p][u].pc != Exiting
    ensures SoleOk(Put(th, p, t, x), init)
  {
  }

  lemma ForkWait(procs: seq<Proc>, th: Table, q: nat, procs': seq<Proc>, th': Table)
    requires Shape(th) && Shape(th') && |procs| == NPROC && q < NPROC && WaitOk(procs, th)
    requires forall r, u :: At(r, u) && !(r == q && u == 0) ==> th'[r][u] == th[r][u]
    requires th'[q][0].state != TSleeping
    requires |procs'| == NPROC && (forall r :: 0 <= r < NPROC && r != q ==> procs'[r] == procs[r]) &&
      procs'[q].state != PZombie
    ensures WaitOk(procs', th')
  {
    forall p | 0 <= p < NPROC && !ZombieChild(procs, p) ensures !ZombieChild(procs', p) {
      assert forall r :: 0 <= r < NPROC && procs'[r].parent == p && procs'[r].state == PZombie ==>
        procs[r] == procs'[r];
    }
  }

  /** A dead slot stays dead: its id and stack fields may change. */
  lemma DeadPut(th: Table, init: nat, n: nat, p: nat, t: nat, x: Thread)
    requires Shape(th) && At(p, t) && !Live(th[p][t]) && !Live(x) && x.kstack == 0
    requires IdOk(th, n) && JoinOk(th) && SoleOk(th, init)
    ensures IdOk(Put(th, p, t, x), n + 1) && JoinOk(Put(th, p, t, x)) && SoleOk(Put(th, p, t, x), init)
  {
    var th': Table := Put(th, p, t, x);
    assert forall r, u :: At(r, u) ==> SubId(th[r][u], th'[r][u]);
    IdSub(th, th', n);
    DeadJoin(th, p, t, x);
  }

  lemma DeadJoin(th: Table, p: nat, t: nat, x: Thread)
    requires Shape(th) && At(p, t) && !Live(th[p][t]) && !Live(x) && JoinOk(th)
    ensures JoinOk(Put(th, p, t, x))
  {
    var th': Table := Put(th, p, t, x);
    forall r, u | At(r, u) && th'[r][u].state == TSleeping && th'[r][u].pc.Joining?
      ensures JoinFine(th', r, th'[r][u])
    {
      assert th'[r][u] == th[r][u];
      assert JoinFine(th, r, th[r][u]);
    }
  }

  lemma InvForkFail(s: State, s': State, c: nat, p: nat, t: nat, q: nat)
    requires Inv(s) && NextForkFail(s, s', c, p, t, q)
    ensures Inv(s')
  {
    CpuSame(s.th, s'.th, s.cpus);
    DeadPut(s.th, s.init, s.nexttid, q, 0, s'.th[q][0]);
    ForkWait(s.procs, s.th, q, s'.procs, s'.th);
  }

  lemma InvCreate(s: State, s': State, c: nat, p: nat, t: nat, u: nat, k: nat)
    requires Inv(s) && NextCreate(s, s', c, p, t, u, k)
    ensures Inv(s')
  {
    assert s.th[p][t].state == TRunning && s.procs[p].state == PUsed;
    CpuSame(s.th, s'.th, s.cpus);
    NewId(s.th, s.nexttid, p, u, k, s'.th[p][u]);
    NewJoin(s.th, p, u, s'.th[p][u]);
    assert forall v :: 0 <= v < NTHREAD && Live(s.th[p][v]) ==> s.th[p][v].pc != Exiting by {
      forall v | 0 <= v < NTHREAD && Live(s.th[p][v]) && s.th[p][v].pc == Exiting ensures false {
        assert At(p, v) && At(p, t) && v != t;
      }
    }
    NewSole(s.th, s.init, p, u, s'.th[p][u]);
  }

  lemma InvCreateFail(s: State, s': State, c: nat, p: nat, t: nat, u: nat)
    requires Inv(s) && NextCreateFail(s, s', c, p, t, u)
    ensures Inv(s')
  {
    CpuSame(s.th, s'.th, s.cpus);
    DeadPut(s.th, s.init, s.nexttid, p, u, s'.th[p][u]);
  }

  // ---------- threads that end ----------

  /** Nobody sleeps in join on slot t of process p. */
  predicate NoJoiner(th: Table, p: nat, t: nat)
    requires Shape(th) && p < NPROC
  {
    forall u :: 0 <= u < NTHREAD ==> !(th[p][u].state == TSleeping && th[p][u].pc.Joining? && th[p][u].pc.slot == t)
  }

  lemma EndJoin(th: Table, p: nat, t: nat, x: Thread)
    requires Shape(th) && At(p, t) && JoinOk(th) && NoJoiner(th, p, t) && x.state != TSleeping
    ensures JoinOk(Put(th, p, t, x))
  {
    var th': Table := Put(th, p, t, x);
    forall r, u | At(r, u) && th'[r][u].state == TSleeping && th'[r][u].pc.Joining?
      ensures JoinFine(th', r, th'[r][u])
    {
      assert th'[r][u] == th[r][u];
      assert JoinFine(th, r, th[r][u]);
    }
  }

  lemma Zombify(s: State, s': State, c: nat, p: nat, t: nat)
    requires Inv(s) && Cur(s, c, p, t) && NoJoiner(s.th, p, t)
    requires Leave(s, s', c, p, t, s.th[p][t].(state := TZombie, pc := Gone))
    ensures Inv(s')
  {
    var x := s.th[p][t].(state := TZombie, pc := Gone);
    CpuLeave(s.th, s'.th, s.cpus, c, p, t);
    PutProc(s.procs, s.th, p, t, x);
    PutId(s.th, s.nexttid, p, t, x);
    PutWait(s.procs, s.th, p, t, x);
    EndJoin(s.th, p, t, x);
    PutSole(s.th, s.init, p, t, x);
  }

  /** After a wakeup on the thread's own address no joiner of it sleeps. */
  lemma WokenJoiners(th: Table, th': Table, p: nat, t: nat)
    requires Shape(th) && Shape(th') && At(p, t) && JoinOk(th)
    requires forall u :: 0 <= u < NTHREAD ==> th'[p][u] == Woken(th[p][u], OnThread(p, t))
    ensures NoJoiner(th', p, t)
  {
    forall u | 0 <= u < NTHREAD
      ensures !(th'[p][u].state == TSleeping && th'[p][u].pc.Joining? && th'[p][u].pc.slot == t)
    {
      assert At(p, u) && JoinFine(th, p, th[p][u]);
    }
  }

  lemma InvKillSelf(s: State, s': State, c: nat, p: nat, t: nat)
    requires Inv(s) && NextKillSelf(s, s', c, p, t)
    ensures Inv(s')
  {
    var s1 := s.(th := WakeAll(s.th, OnThread(p, t)));
    InvWakeup(s, s1, OnThread(p, t));
    WokenJoiners(s.th, s1.th, p, t);
    Zombify(s1, s', c, p, t);
  }

  lemma SameTable(a: Table, b: Table)
    requires Shape(a) && Shape(b) && forall p, t :: At(p, t) ==> a[p][t] == b[p][t]
    ensures a == b
  {
    forall p | 0 <= p < NPROC ensures a[p] == b[p] {
      assert forall t :: 0 <= t < NTHREAD ==> At(p, t);
    }
  }

  lemma InvThreadExit(s: State, s': State, c: nat, p: nat, t: nat, u: nat)
    requires Inv(s) && NextThreadExit(s, s', c, p, t, u)
    ensures Inv(s')
  {
    assert s.th[p][t].state == TRunning;
    var s1 := s.(th := s.th[p := WakeRow(s.th[p], OnThread(p, t))]);
    assert AllQuieter(s.th, s1.th);
    WakeRowJoin(s.th, p, OnThread(p, t), s1.th);
    QuietKeeps(s, s1);
    WokenJoiners(s.th, s1.th, p, t);
    SameTable(s'.th, Put(s1.th, p, t, s1.th[p][t].(state := TZombie, pc := Gone)));
    Zombify(s1, s', c, p, t);
  }

  lemma WakeRowJoin(th: Table, p: nat, chan: Chan, th': Table)
    requires Shape(th) && JoinOk(th) && p < NPROC && th' == th[p := WakeRow(th[p], chan)]
    ensures JoinOk(th')
  {
    forall q, t | At(q, t) && th'[q][t].state == TSleeping && th'[q][t].pc.Joining?
      ensures JoinFine(th', q, th'[q][t])
    {
      assert th'[q][t] == th[q][t];
      assert JoinFine(th, q, th[q][t]);
    }
  }

  // ---------- kill_other_threads ----------

  /** Ids being distinct, the scan touches every other thread; no thread of the process is
      left asleep, so no joiner sleeps on a slot it frees. */
  lemma ScanQuiet(th: Table, n: nat, p: nat, t: nat, th': Table)
    requires Shape(th) && At(p, t) && IdOk(th, n) && JoinOk(th) && th[p][t].state == TRunning
    requires th' == th[p := ScanRow(th[p], th[p][t].tid)]
    ensures AllQuieter(th, th') && JoinOk(th') && th'[p][t] == th[p][t]
  {
    ScanAwake(th, n, p, t);
    forall q, u | At(q, u) && th'[q][u].state == TSleeping && th'[q][u].pc.Joining?
      ensures JoinFine(th', q, th'[q][u])
    {
      assert q != p;
      assert JoinFine(th, q, th[q][u]);
    }
  }

  lemma ScanAwake(th: Table, n: nat, p: nat, t: nat)
    requires Shape(th) && At(p, t) && IdOk(th, n) && th[p][t].state == TRunning
    ensures forall u :: 0 <= u < NTHREAD ==> ScanRow(th[p], th[p][t].tid)[u].state != TSleeping
  {
    forall u | 0 <= u < NTHREAD ensures ScanRow(th[p], th[p][t].tid)[u].state != TSleeping {
      assert At(p, u);
    }
  }

  lemma ScanNone(th: Table, n: nat, p: nat, t: nat)
    requires Shape(th) && At(p, t) && IdOk(th, n) && Live(th[p][t]) && !Found(th[p], th[p][t].tid)
    ensures forall u :: 0 <= u < NTHREAD && u != t ==> ScanRow(th[p], th[p][t].tid)[u].state == TUnused
  {
    forall u | 0 <= u < NTHREAD && u != t ensures th[p][u].state == TUnused {
      assert At(p, u) && !Hit(th[p][u], th[p][t].tid);
    }
  }

  lemma InvKillScan(s: State, s': State, c: nat, p: nat, t: nat)
    requires Inv(s) && NextKillScan(s, s', c, p, t)
    ensures Inv(s')
  {
    var x := s.th[p][t];
    assert x.state == TRunning;
    var s1 := s.(th := s.th[p := ScanRow(s.th[p], x.tid)]);
    ScanQuiet(s.th, s.nexttid, p, t, s1.th);
    QuietKeeps(s, s1);
    if Found(s.th[p], x.tid) {
      InvLeave(s1, s', c, p, t, x.(state := TRunnable, pc := Killing(false, x.pc.exiting)));
    } else {
      ScanNone(s.th, s.nexttid, p, t);
      InvStay(s1, s', p, t, x.(pc := if x.pc.exiting then Exiting else User));
    }
  }

  // ---------- join, wait and exit ----------

  lemma InvJoined(s: State, s': State, c: nat, p: nat, t: nat, u: nat, id: nat)
    requires Inv(s) && NextJoined(s, s', c, p, t, u, id)
    ensures Inv(s')
  {
    assert s.th[p][t].state == TRunning;
    var s1 := s;
    if s.th[p][u].state == TZombie {
      s1 := s.(th := Put(s.th, p, u, Removed(s.th[p][u])));
      assert NoJoiner(s.th, p, u) by { assert forall v :: 0 <= v < NTHREAD ==> At(p, v); }
      EndJoin(s.th, p, u, Removed(s.th[p][u]));
      QuietKeeps(s, s1);
    }
    InvStay(s1, s', p, t, s.th[p][t].(pc := User));
  }

  lemma InvReap(s: State, s': State, c: nat, p: nat, t: nat, q: nat)
    requires Inv(s) && NextReap(s, s', c, p, t, q)
    ensures Inv(s')
  {
    assert s.th[p][t].state == TRunning && q != p;
    var s1 := s.(th := s.th[q := RemoveRow(s.th[q])]);
    ReapJoin(s.th, q, s1.th);
    QuietKeeps(s, s1);
    var s2 := s1.(procs := s'.procs);
    ReapProcs(s1, s2, q);
    InvStay(s2, s', p, t, s.th[p][t].(pc := User));
  }

  lemma ReapJoin(th: Table, q: nat, th': Table)
    requires Shape(th) && JoinOk(th) && q < NPROC && th' == th[q := RemoveRow(th[q])]
    requires forall t :: 0 <= t < NTHREAD ==> th[q][t].state == TUnused
    ensures Shape(th') && AllQuieter(th, th') && JoinOk(th')
  {
    forall r, u | At(r, u) && th'[r][u].state == TSleeping && th'[r][u].pc.Joining?
      ensures JoinFine(th', r, th'[r][u])
    {
      assert r != q;
      assert JoinFine(th, r, th[r][u]);
    }
  }

  lemma ReapProcs(s: State, s': State, q: nat)
    requires Inv(s) && q < NPROC && s.procs[q].state == PZombie && s' == s.(procs := s.procs[q := Proc(PUnused, 0, -1)])
    requires forall t :: 0 <= t < NTHREAD ==> s.th[q][t].kstack == 0
    ensures Inv(s')
  {
    forall p | 0 <= p < NPROC && !ZombieChild(s.procs, p) ensures !ZombieChild(s'.procs, p) {
      assert forall r :: 0 <= r < NPROC && s'.procs[r].state == PZombie ==> s'.procs[r] == s.procs[r];
    }
  }

  lemma InvSafeExit(s: State, s': State, c: nat, p: nat, t: nat)
    requires Inv(s) && NextSafeExit(s, s', c, p, t)
    ensures Inv(s')
  {
    var parent := OnProc(s.procs[p].parent);
    var s1 := s.(th := WakeAll(s.th, parent));
    InvWakeup(s, s1, parent);
    var s2 := s1;
    if ZombieChild(s.procs, p) {
      s2 := s1.(th := WakeAll(s1.th, OnProc(s.init)));
      InvWakeup(s1, s2, OnProc(s.init));
      StillNone(s1.th, parent, OnProc(s.init));
    }
    ExitFinal(s2, s', c, p, t);
  }

  lemma StillNone(th: Table, chan: Chan, other: Chan)
    requires Shape(th) && NoSleeper(th, chan)
    ensures NoSleeper(WakeAll(th, other), chan)
  {
  }

  /** The parent, and init if it inherits a zombie, have been woken. */
  lemma ExitFinal(s: State, s': State, c: nat, p: nat, t: nat)
    requires Inv(s) && Cur(s, c, p, t) && s.th[p][t].pc == Exiting && p != s.init && s.procs[p].parent >= 0
    requires NoSleeper(s.th, OnProc(s.procs[p].parent)) && (ZombieChild(s.procs, p) ==> NoSleeper(s.th, OnProc(s.init)))
    requires s' == s.(procs := Reparent(s.procs, p, s.init)[p := Reparent(s.procs, p, s.init)[p].(state := PZombie)],
                      th := Put(s.th, p, t, s.th[p][t].(state := TUnused, pc := Gone)),
                      cpus := s.cpus[c := Idle])
    ensures Inv(s')
  {
    assert s.th[p][t].state == TRunning && s.procs[p].state == PUsed;
    var x := s'.th[p][t];
    assert forall u :: 0 <= u < NTHREAD && u != t ==> At(p, u) && s.th[p][u].state == TUnused;
    CpuLeave(s.th, s'.th, s.cpus, c, p, t);
    assert forall q, u :: At(q, u) ==> SubId(s.th[q][u], s'.th[q][u]);
    IdSub(s.th, s'.th, s.nexttid);
    EndJoin(s.th, p, t, x);
    ExitSole(s.th, s.init, p, t, x);
    ExitProc(s.procs, s.init, s.th, p, t, s'.procs, s'.th);
    ExitFamily(s.procs, s.init, p, s'.procs);
    ExitWait(s.procs, s.init, s.th, p, t, s'.procs, s'.th);
  }

  lemma ExitSole(th: Table, init: nat, p: nat, t: nat, x: Thread)
    requires Shape(th) && At(p, t) && SoleOk(th, init) && !Live(x)
    ensures SoleOk(Put(th, p, t, x), init)
  {
  }

  lemma ExitProc(procs: seq<Proc>, init: nat, th: Table, p: nat, t: nat, procs': seq<Proc>, th': Table)
    requires Shape(th) && Shape(th') && At(p, t) && |procs| == NPROC && ProcOk(procs, th)
    requires procs' == Reparent(procs, p, init)[p := Reparent(procs, p, init)[p].(state := PZombie)]
    requires forall q, u :: At(q, u) && !(q == p && u == t) ==> th'[q][u] == th[q][u]
    requires th'[p][t].state == TUnused && forall u :: 0 <= u < NTHREAD && u != t ==> th[p][u].state == TUnused
    ensures ProcOk(procs', th')
  {
  }

  lemma ExitFamily(procs: seq<Proc>, init: nat, p: nat, procs': seq<Proc>)
    requires FamilyOk(procs, init) && p < NPROC && p != init && procs[p].state == PUsed
    requires procs' == Reparent(procs, p, init)[p := Reparent(procs, p, init)[p].(state := PZombie)]
    ensures FamilyOk(procs', init)
  {
  }

  lemma ExitWait(procs: seq<Proc>, init: nat, th: Table, p: nat, t: nat, procs': seq<Proc>, th': Table)
    requires Shape(th) && Shape(th') && At(p, t) && FamilyOk(procs, init) && p != init && procs[p].state == PUsed
    requires WaitOk(procs, th) && NoSleeper(th, OnProc(procs[p].parent))
    requires ZombieChild(procs, p) ==> NoSleeper(th, OnProc(init))
    requires procs' == Reparent(procs, p, init)[p := Reparent(procs, p, init)[p].(state := PZombie)]
    requires forall q, u :: At(q, u) && !(q == p && u == t) ==> th'[q][u] == th[q][u]
    requires th'[p][t].state != TSleeping
    ensures WaitOk(procs', th')
  {
    forall q, u | At(q, u) && th'[q][u].state == TSleeping && th'[q][u].pc == Waiting
      ensures th'[q][u].chan == OnProc(q) && !ZombieChild(procs', q)
    {
      assert th'[q][u] == th[q][u] && th[q][u].chan == OnProc(q) && !ZombieChild(procs, q);
      assert q != procs[p].parent;
      forall r | 0 <= r < NPROC ensures !(procs'[r].parent == q && procs'[r].state == PZombie) {
        if r != p && procs[r].state == PZombie && procs[r].parent == p {
          assert ZombieChild(procs, p);
        }
      }
    }
  }

  // ---------- all steps, all runs ----------

  lemma InvBirth(s: State, s': State, m: Move)
    requires Inv(s) && Next(s, s', m) && (m.Fork? || m.ForkFail? || m.Create? || m.CreateFail?)
    ensures Inv(s')
  {
    match m
    case Fork(c, p, t, q, k) => InvFork(s, s', c, p, t, q, k);
    case ForkFail(c, p, t, q) => InvForkFail(s, s', c, p, t, q);
    case Create(c, p, t, u, k) => InvCreate(s, s', c, p, t, u, k);
    case CreateFail(c, p, t, u) => InvCreateFail(s, s', c, p, t, u);
  }

  lemma InvDeath(s: State, s': State, m: Move)
    requires Inv(s) && Next(s, s', m)
    requires m.ThreadExit? || m.KillSelf? || m.KillScan? || m.SafeExit? || m.Reap? || m.Joined?
    ensures Inv(s')
  {
    match m
    case ThreadExit(c, p, t, u) => InvThreadExit(s, s', c, p, t, u);
    case KillSelf(c, p, t) => InvKillSelf(s, s', c, p, t);
    case KillScan(c, p, t) => InvKillScan(s, s', c, p, t);
    case SafeExit(c, p, t) => InvSafeExit(s, s', c, p, t);
    case Reap(c, p, t, q) => InvReap(s, s', c, p, t, q);
    case Joined(c, p, t, u, id) => InvJoined(s, s', c, p, t, u, id);
  }

  lemma InvNext(s: State, s': State, m: Move)
    requires Inv(s) && Next(s, s', m)
    ensures Inv(s')
  {
    if m.Schedule? {
      InvSchedule(s, s', m.c, m.p, m.t);
    } else if m.Wakeup? {
      InvWakeup(s, s', m.chan);
    } else if m.WakeKilled? || m.StartKill? || m.StartWait? || m.WaitFails? || m.StartJoin? {
      InvStays(s, s', m);
    } else if m.Yield? || m.Sleep? || m.WaitSleeps? || m.JoinSleeps? {
      InvLeaves(s, s', m);
    } else if m.Fork? || m.ForkFail? || m.Create? || m.CreateFail? {
      InvBirth(s, s', m);
    } else {
      InvDeath(s, s', m);
    }
  }

  lemma {:induction false} InvRun(ss: seq<State>, ms: seq<Move>, i: nat)
    requires IsRun(ss, ms) && i < |ss|
    ensures Inv(ss[i])
  {
    if i == 0 {
      InvInit(ss[0]);
    } else {
      InvRun(ss, ms, i - 1);
      assert StepAt(ss, ms, i - 1);
      InvNext(ss[i - 1], ss[i], ms[i - 1]);
    }
  }

  // ---------- what holds in every reachable state ----------

  ghost predicate RunsOn(s: State, c: nat, p: nat, t: nat) {
    c < |s.cpus| && s.cpus[c] == On(p, t)
  }

  /** TRUNNING means exactly one CPU, and a CPU never runs on a freed stack. */
  lemma RunningOnce(ss: seq<State>, ms: seq<Move>, i: nat, p: nat, t: nat)
    requires IsRun(ss, ms) && i < |ss| && At(p, t)
    ensures Shape(ss[i].th) && |ss[i].procs| == NPROC
    ensures ss[i].th[p][t].state == TRunning <==> exists c :: RunsOn(ss[i], c, p, t)
    ensures forall c, d :: RunsOn(ss[i], c, p, t) && RunsOn(ss[i], d, p, t) ==> c == d
    ensures forall c :: RunsOn(ss[i], c, p, t) ==> ss[i].th[p][t].kstack != 0 && ss[i].procs[p].state == PUsed
  {
    InvRun(ss, ms, i);
    var s := ss[i];
    if s.th[p][t].state == TRunning {
      assert On(p, t) in s.cpus;
      var c :| 0 <= c < |s.cpus| && s.cpus[c] == On(p, t);
      assert RunsOn(s, c, p, t);
    }
  }

  lemma DistinctThreads(ss: seq<State>, ms: seq<Move>, i: nat, p: nat, t: nat, q: nat, u: nat)
    requires IsRun(ss, ms) && i < |ss| && At(p, t) && At(q, u) && (p != q || t != u)
    ensures Shape(ss[i].th)
    ensures Live(ss[i].th[p][t]) && Live(ss[i].th[q][u]) ==>
      ss[i].th[p][t].tid != ss[i].th[q][u].tid && ss[i].th[p][t].kstack != ss[i].th[q][u].kstack
  {
    InvRun(ss, ms, i);
  }

  /** Nobody sleeps in wait over a zombie child; every zombie has a parent to wait for it. */
  lemma NoLostExit(ss: seq<State>, ms: seq<Move>, i: nat, q: nat)
    requires IsRun(ss, ms) && i < |ss| && q < NPROC
    ensures Shape(ss[i].th) && |ss[i].procs| == NPROC
    ensures ss[i].procs[q].state == PZombie ==>
      && 0 <= ss[i].procs[q].parent < NPROC && ss[i].procs[ss[i].procs[q].parent].state == PUsed
      && (forall t :: At(q, t) ==> ss[i].th[q][t].state == TUnused)
      && (forall t :: 0 <= t < NTHREAD ==>
            !(ss[i].th[ss[i].procs[q].parent][t].state == TSleeping &&
              ss[i].th[ss[i].procs[q].parent][t].pc == Waiting))
  {
    InvRun(ss, ms, i);
    var s := ss[i];
    if s.procs[q].state == PZombie {
      var p := s.procs[q].parent;
      assert ZombieChild(s.procs, p);
      assert forall t :: 0 <= t < NTHREAD ==> At(p, t);
    }
  }

  lemma NoLostJoin(ss: seq<State>, ms: seq<Move>, i: nat, p: nat, t: nat, u: nat, id: nat)
    requires IsRun(ss, ms) && i < |ss| && At(p, t) && At(p, u)
    ensures Shape(ss[i].th)
    ensures ss[i].th[p][t].state == TSleeping && ss[i].th[p][t].pc == Joining(u, id) ==>
      ss[i].th[p][u].state != TZombie && ss[i].th[p][u].state != TUnused
  {
    InvRun(ss, ms, i);
  }
}
