// A run of Ass2/proc.c in which kthread_join removes a thread it was not asked for.

module ThreadsJoinRun {
  import opened Threads
  import opened ThreadsInv
  import opened ThreadsJoin

  /** Only process p has threads, and these are in its first three slots. */
  ghost predicate Scene(s: State, p: nat, row: seq<Thread>) {
    && Shape(s.th) && |s.procs| == NPROC && p < NPROC && s.init < NPROC && s.procs[p].state == PUsed && |row| == 3
    && (forall u :: 0 <= u < 3 ==> s.th[p][u] == row[u])
    && forall q, u :: At(q, u) && !(q == p && u < 3) ==> s.th[q][u].kstack == 0
  }

  lemma PutScene(s: State, s': State, p: nat, row: seq<Thread>, u: nat, x: Thread)
    requires Scene(s, p, row) && u < 3 && s'.th == Put(s.th, p, u, x) && s'.procs == s.procs && s'.init == s.init
    ensures Scene(s', p, row[u := x])
  {
  }

  ghost predicate OnCpu(s: State, p: nat, row: seq<Thread>, c: nat, t: nat) {
    Scene(s, p, row) && c < |s.cpus| && s.cpus[c] == On(p, t) && t < 3
  }

  lemma DoSchedule(s: State, p: nat, row: seq<Thread>, c: nat, u: nat) returns (s': State, row': seq<Thread>)
    requires Scene(s, p, row) && c < |s.cpus| && s.cpus[c] == Idle && u < 3 && row[u].state == TRunnable
    ensures Next(s, s', Schedule(c, p, u)) && row' == row[u := row[u].(state := TRunning)] && Scene(s', p, row')
    ensures s'.cpus == s.cpus[c := On(p, u)] && s'.nexttid == s.nexttid
  {
    var x := row[u].(state := TRunning);
    s' := s.(th := Put(s.th, p, u, x), cpus := s.cpus[c := On(p, u)]);
    PutScene(s, s', p, row, u, x);
    row' := row[u := x];
  }

  lemma DoCreate(s: State, p: nat, row: seq<Thread>, c: nat, t: nat, u: nat, k: nat)
      returns (s': State, row': seq<Thread>)
    requires OnCpu(s, p, row, c, t) && row[t].pc == User && u < 3 && row[u].state == TUnused
    requires k != 0 && forall v :: 0 <= v < 3 ==> row[v].kstack != k
    ensures Next(s, s', Create(c, p, t, u, k)) && Scene(s', p, row')
    ensures row' == row[u := row[u].(tid := s.nexttid, state := TRunnable, kstack := k, pc := User)]
    ensures s'.cpus == s.cpus && s'.nexttid == s.nexttid + 1
  {
    var x := row[u].(tid := s.nexttid, state := TRunnable, kstack := k, pc := User);
    s' := s.(th := Put(s.th, p, u, x), nexttid := s.nexttid + 1);
    PutScene(s, s', p, row, u, x);
    row' := row[u := x];
  }

  lemma DoStartJoin(s: State, p: nat, row: seq<Thread>, c: nat, t: nat, u: nat) returns (s': State, row': seq<Thread>)
    requires OnCpu(s, p, row, c, t) && row[t].pc == User && u < 3
    ensures Next(s, s', StartJoin(c, p, t, u)) && row' == row[t := row[t].(pc := Joining(u, row[u].tid))] &&
      Scene(s', p, row')
    ensures s'.cpus == s.cpus && s'.nexttid == s.nexttid
  {
    var x := row[t].(pc := Joining(u, row[u].tid));
    s' := s.(th := Put(s.th, p, t, x));
    PutScene(s, s', p, row, t, x);
    row' := row[t := x];
  }

  lemma DoJoinSleeps(s: State, p: nat, row: seq<Thread>, c: nat, t: nat, u: nat, id: nat)
      returns (s': State, row': seq<Thread>)
    requires OnCpu(s, p, row, c, t) && row[t].pc == Joining(u, id) && u < 3 && MustWait(row[u], id)
    ensures Next(s, s', JoinSleeps(c, p, t, u, id)) && Scene(s', p, row')
    ensures row' == row[t := row[t].(state := TSleeping, chan := OnThread(p, u))]
    ensures s'.cpus == s.cpus[c := Idle] && s'.nexttid == s.nexttid
  {
    var x := row[t].(state := TSleeping, chan := OnThread(p, u));
    s' := s.(th := Put(s.th, p, t, x), cpus := s.cpus[c := Idle]);
    PutScene(s, s', p, row, t, x);
    row' := row[t := x];
  }

  /** kthread_exit of the thread in slot 1, with thread 2 asleep in join or on its way. */
  lemma DoExit(s: State, p: nat, row: seq<Thread>, c: nat) returns (s': State, row': seq<Thread>)
    requires OnCpu(s, p, row, c, 1) && row[1].pc == User && row[0].state == TRunning
    ensures Next(s, s', ThreadExit(c, p, 1, 0)) && Scene(s', p, row')
    ensures row' == [row[0], row[1].(state := TZombie, pc := Gone), Woken(row[2], OnThread(p, 1))]
    ensures s'.cpus == s.cpus[c := Idle] && s'.nexttid == s.nexttid
  {
    var th1 := Put(s.th, p, 1, row[1].(state := TZombie, pc := Gone));
    s' := s.(th := th1[p := WakeRow(th1[p], OnThread(p, 1))], cpus := s.cpus[c := Idle]);
    row' := [row[0], row[1].(state := TZombie, pc := Gone), Woken(row[2], OnThread(p, 1))];
    forall q, u | At(q, u) && !(q == p && u < 3) ensures s'.th[q][u].kstack == 0 {
      assert th1[q][u] == s.th[q][u];
    }
  }

  /** A join that finds a zombie in slot 1. */
  lemma DoJoined(s: State, p: nat, row: seq<Thread>, c: nat, t: nat, id: nat) returns (s': State, row': seq<Thread>)
    requires OnCpu(s, p, row, c, t) && t != 1 && row[t].pc == Joining(1, id) && row[1].state == TZombie
    ensures Next(s, s', Joined(c, p, t, 1, id)) && Scene(s', p, row')
    ensures row' == row[1 := Removed(row[1])][t := row[t].(pc := User)]
    ensures s'.cpus == s.cpus && s'.nexttid == s.nexttid
  {
    var s1 := s.(th := Put(s.th, p, 1, Removed(row[1])));
    PutScene(s, s1, p, row, 1, Removed(row[1]));
    s' := s1.(th := Put(s1.th, p, t, row[t].(pc := User)));
    PutScene(s1, s', p, row[1 := Removed(row[1])], t, row[t].(pc := User));
    row' := row[1 := Removed(row[1])][t := row[t].(pc := User)];
  }

  // ---------- a run, step by step ----------

  /** The last state of a run: its threads, its first two CPUs and the next id. */
  ghost predicate Now(ss: seq<State>, ms: seq<Move>, p: nat, row: seq<Thread>, c0: Cpu, c1: Cpu, n: nat) {
    && IsRun(ss, ms) && Scene(ss[|ss| - 1], p, row) && ss[|ss| - 1].nexttid == n
    && |ss[|ss| - 1].cpus| >= 2 && ss[|ss| - 1].cpus[0] == c0 && ss[|ss| - 1].cpus[1] == c1
  }

  /** One step more. */
  ghost predicate Longer(ss: seq<State>, ms: seq<Move>, ss': seq<State>, ms': seq<Move>, m: Move) {
    && |ss'| == |ss| + 1 && |ms'| == |ms| + 1 == |ss| && ms'[|ms|] == m
    && (forall n :: 0 <= n < |ms| ==> ms'[n] == ms[n]) && forall n :: 0 <= n < |ss| ==> ss'[n] == ss[n]
  }

  lemma RunMore(ss: seq<State>, ms: seq<Move>, m: Move, s': State) returns (ss': seq<State>, ms': seq<Move>)
    requires IsRun(ss, ms) && Next(ss[|ss| - 1], s', m)
    ensures IsRun(ss', ms') && Longer(ss, ms, ss', ms', m) && ss'[|ss'| - 1] == s'
  {
    ss', ms' := ss + [s'], ms + [m];
    forall n | 0 <= n < |ms'| ensures StepAt(ss', ms', n) {
      if n < |ms| { assert StepAt(ss, ms, n); }
    }
  }

  lemma RunSchedule(ss: seq<State>, ms: seq<Move>, p: nat, row: seq<Thread>, c0: Cpu, c1: Cpu, n: nat, u: nat)
    returns (ss': seq<State>, ms': seq<Move>, row': seq<Thread>)
    requires Now(ss, ms, p, row, c0, c1, n) && c1 == Idle && u < 3 && row[u].state == TRunnable
    ensures row' == row[u := row[u].(state := TRunning)] && Now(ss', ms', p, row', c0, On(p, u), n)
    ensures Longer(ss, ms, ss', ms', Schedule(1, p, u))
  {
    var s;
    s, row' := DoSchedule(ss[|ss| - 1], p, row, 1, u);
    ss', ms' := RunMore(ss, ms, Schedule(1, p, u), s);
  }

  lemma RunCreate(ss: seq<State>, ms: seq<Move>, p: nat, row: seq<Thread>, c1: Cpu, n: nat, u: nat, k: nat)
    returns (ss': seq<State>, ms': seq<Move>, row': seq<Thread>)
    requires Now(ss, ms, p, row, On(p, 0), c1, n) && row[0].pc == User && u < 3 && row[u].state == TUnused
    requires k != 0 && forall v :: 0 <= v < 3 ==> row[v].kstack != k
    ensures row' == row[u := row[u].(tid := n, state := TRunnable, kstack := k, pc := User)]
    ensures Now(ss', ms', p, row', On(p, 0), c1, n + 1) && Longer(ss, ms, ss', ms', Create(0, p, 0, u, k))
  {
    var s;
    s, row' := DoCreate(ss[|ss| - 1], p, row, 0, 0, u, k);
    ss', ms' := RunMore(ss, ms, Create(0, p, 0, u, k), s);
  }

  lemma RunStartJoin(ss: seq<State>, ms: seq<Move>, p: nat, row: seq<Thread>, c0: Cpu, c1: Cpu, n: nat, c: nat, t: nat)
    returns (ss': seq<State>, ms': seq<Move>, row': seq<Thread>)
    requires Now(ss, ms, p, row, c0, c1, n) && c < 2 && On(p, t) == (if c == 0 then c0 else c1) && t < 3 &&
      row[t].pc == User
    ensures row' == row[t := row[t].(pc := Joining(1, row[1].tid))] && Now(ss', ms', p, row', c0, c1, n)
    ensures Longer(ss, ms, ss', ms', StartJoin(c, p, t, 1))
  {
    var s;
    s, row' := DoStartJoin(ss[|ss| - 1], p, row, c, t, 1);
    ss', ms' := RunMore(ss, ms, StartJoin(c, p, t, 1), s);
  }

  lemma RunJoinSleeps(ss: seq<State>, ms: seq<Move>, p: nat, row: seq<Thread>, c0: Cpu, n: nat, t: nat, id: nat)
    returns (ss': seq<State>, ms': seq<Move>, row': seq<Thread>)
    requires Now(ss, ms, p, row, c0, On(p, t), n) && t < 3 && row[t].pc == Joining(1, id) && MustWait(row[1], id)
    ensures row' == row[t := row[t].(state := TSleeping, chan := OnThread(p, 1))] && Now(ss', ms', p, row', c0, Idle, n)
    ensures Longer(ss, ms, ss', ms', JoinSleeps(1, p, t, 1, id))
  {
    var s;
    s, row' := DoJoinSleeps(ss[|ss| - 1], p, row, 1, t, 1, id);
    ss', ms' := RunMore(ss, ms, JoinSleeps(1, p, t, 1, id), s);
  }

  lemma RunExit(ss: seq<State>, ms: seq<Move>, p: nat, row: seq<Thread>, c0: Cpu, n: nat)
    returns (ss': seq<State>, ms': seq<Move>, row': seq<Thread>)
    requires Now(ss, ms, p, row, c0, On(p, 1), n) && row[1].pc == User && row[0].state == TRunning
    ensures row' == [row[0], row[1].(state := TZombie, pc := Gone), Woken(row[2], OnThread(p, 1))]
    ensures Now(ss', ms', p, row', c0, Idle, n) && Longer(ss, ms, ss', ms', ThreadExit(1, p, 1, 0))
  {
    var s;
    s, row' := DoExit(ss[|ss| - 1], p, row, 1);
    ss', ms' := RunMore(ss, ms, ThreadExit(1, p, 1, 0), s);
  }

  lemma RunJoined(ss: seq<State>, ms: seq<Move>, p: nat, row: seq<Thread>, c0: Cpu, c1: Cpu, n: nat, c: nat, t: nat,
      id: nat)
    returns (ss': seq<State>, ms': seq<Move>, row': seq<Thread>)
    requires Now(ss, ms, p, row, c0, c1, n) && c < 2 && On(p, t) == (if c == 0 then c0 else c1) && t < 3 && t != 1
    requires row[t].pc == Joining(1, id) && row[1].state == TZombie
    ensures row' == row[1 := Removed(row[1])][t := row[t].(pc := User)] && Now(ss', ms', p, row', c0, c1, n)
    ensures Longer(ss, ms, ss', ms', Joined(c, p, t, 1, id))
  {
    var s;
    s, row' := DoJoined(ss[|ss| - 1], p, row, c, t, id);
    ss', ms' := RunMore(ss, ms, Joined(c, p, t, 1, id), s);
  }

  // ---------- the run ----------

  /** Since step 4 thread 2 has been in its join of thread x, in slot 1. */
  ghost predicate StillJoining(ss: seq<State>, ms: seq<Move>, p: nat, x: nat) {
    && |ms| > 4 && |ss| == |ms| + 1 && ms[4] == StartJoin(1, p, 2, 1) && p < NPROC
    && Shape(ss[4].th) && ss[4].th[p][1].tid == x
    && forall n :: 4 < n < |ss| ==> InJoin(ss[n], p, 2, 1, x)
  }

  lemma StillMore(ss: seq<State>, ms: seq<Move>, ss': seq<State>, ms': seq<Move>, m: Move, p: nat, x: nat,
                  row: seq<Thread>, c0: Cpu, c1: Cpu, n: nat)
    requires StillJoining(ss, ms, p, x) && Longer(ss, ms, ss', ms', m) && Now(ss', ms', p, row, c0, c1, n)
    requires row[2].pc == Joining(1, x) && Live(row[2])
    ensures StillJoining(ss', ms', p, x)
  {
    assert InJoin(ss'[|ss'| - 1], p, 2, 1, x);
    forall k | 4 < k < |ss'| ensures InJoin(ss'[k], p, 2, 1, x) {
      if k < |ss| { assert InJoin(ss[k], p, 2, 1, x); }
    }
  }

  lemma Starts(s0: State) returns (ss: seq<State>, ms: seq<Move>, row: seq<Thread>)
    requires Init(s0) && |s0.cpus| >= 2
    ensures |ms| == 1 && |ss| == 2 && ss[0] == s0 && Now(ss, ms, s0.init, row, On(s0.init, 0), Idle, s0.nexttid)
    ensures row[0].state == TRunning && row[0].pc == User && row[1].state == TUnused && row[2].state == TUnused
    ensures row[1].kstack == 0 && row[2].kstack == 0
  {
    var s;
    s, row := DoSchedule(s0, s0.init, s0.th[s0.init][..3], 0, 0);
    ss, ms := RunMore([s0], [], Schedule(0, s0.init, 0), s);
  }

  /** Thread 0 creates threads 1 and 2. */
  lemma CreatesTwo(s0: State) returns (ss: seq<State>, ms: seq<Move>, row: seq<Thread>)
    requires Init(s0) && |s0.cpus| >= 2
    ensures var p, x := s0.init, s0.nexttid;
      && |ms| == 3 && |ss| == 4 && ss[0] == s0 && Now(ss, ms, p, row, On(p, 0), Idle, x + 2)
      && row[0].state == TRunning && row[0].pc == User && row[1].state == TRunnable && row[1].pc == User
      && row[1].tid == x
      && row[2].state == TRunnable && row[2].pc == User
  {
    var p, x := s0.init, s0.nexttid;
    ss, ms, row := Starts(s0);
    var k := row[0].kstack;
    ss, ms, row := RunCreate(ss, ms, p, row, Idle, x, 1, k + 1);
    ss, ms, row := RunCreate(ss, ms, p, row, Idle, x + 1, 2, k + 2);
  }

  /** Thread 2 starts to join thread 1. */
  lemma CallsJoin(s0: State) returns (ss: seq<State>, ms: seq<Move>, row: seq<Thread>)
    requires Init(s0) && |s0.cpus| >= 2
    ensures var p, x := s0.init, s0.nexttid;
      && StillJoining(ss, ms, p, x) && |ms| == 5 && ss[0] == s0 && Now(ss, ms, p, row, On(p, 0), On(p, 2), x + 2)
      && row[0].state == TRunning && row[0].pc == User && row[1].state == TRunnable && row[1].pc == User
      && row[1].tid == x
      && row[2].state == TRunning && row[2].pc == Joining(1, x)
  {
    var p, x := s0.init, s0.nexttid;
    ss, ms, row := CreatesTwo(s0);
    ss, ms, row := RunSchedule(ss, ms, p, row, On(p, 0), Idle, x + 2, 2);
    assert ss[4].th[p][1] == row[1];
    ss, ms, row := RunStartJoin(ss, ms, p, row, On(p, 0), On(p, 2), x + 2, 1, 2);
    assert InJoin(ss[5], p, 2, 1, x);
  }

  /** It sleeps. */
  lemma FallsAsleep(s0: State) returns (ss: seq<State>, ms: seq<Move>, row: seq<Thread>)
    requires Init(s0) && |s0.cpus| >= 2
    ensures var p, x := s0.init, s0.nexttid;
      && StillJoining(ss, ms, p, x) && |ms| == 6 && ss[0] == s0 && Now(ss, ms, p, row, On(p, 0), Idle, x + 2)
      && row[0].state == TRunning && row[0].pc == User && row[1].state == TRunnable && row[1].pc == User
      && row[1].tid == x
      && row[2].state == TSleeping && row[2].pc == Joining(1, x) && row[2].chan == OnThread(p, 1)
  {
    var p, x := s0.init, s0.nexttid;
    var ss1, ms1, row1 := CallsJoin(s0);
    ss, ms, row := RunJoinSleeps(ss1, ms1, p, row1, On(p, 0), x + 2, 2, x);
    StillMore(ss1, ms1, ss, ms, JoinSleeps(1, p, 2, 1, x), p, x, row, On(p, 0), Idle, x + 2);
  }

  /** Thread 1 exits. */
  lemma ThreadGone(s0: State) returns (ss: seq<State>, ms: seq<Move>, row: seq<Thread>)
    requires Init(s0) && |s0.cpus| >= 2
    ensures var p, x := s0.init, s0.nexttid;
      && StillJoining(ss, ms, p, x) && |ms| == 8 && ss[0] == s0 && Now(ss, ms, p, row, On(p, 0), Idle, x + 2)
      && row[0].state == TRunning && row[0].pc == User && row[1].state == TZombie && row[1].tid == x
      && row[2].state == TRunnable && row[2].pc == Joining(1, x)
  {
    var p, x := s0.init, s0.nexttid;
    var ss2, ms2, row2 := FallsAsleep(s0);
    var ss3, ms3, row3 := RunSchedule(ss2, ms2, p, row2, On(p, 0), Idle, x + 2, 1);
    StillMore(ss2, ms2, ss3, ms3, Schedule(1, p, 1), p, x, row3, On(p, 0), On(p, 1), x + 2);
    ss, ms, row := RunExit(ss3, ms3, p, row3, On(p, 0), x + 2);
    StillMore(ss3, ms3, ss, ms, ThreadExit(1, p, 1, 0), p, x, row, On(p, 0), Idle, x + 2);
  }

  /** Thread 0 joins it first, and creates a new thread, which gets the slot. */
  lemma SlotReused(s0: State) returns (ss: seq<State>, ms: seq<Move>, row: seq<Thread>)
    requires Init(s0) && |s0.cpus| >= 2
    ensures var p, x := s0.init, s0.nexttid;
      && StillJoining(ss, ms, p, x) && |ms| == 11 && ss[0] == s0 && Now(ss, ms, p, row, On(p, 0), Idle, x + 3)
      && row[0].state == TRunning && row[1].state == TRunnable && row[1].pc == User && row[1].tid == x + 2
      && row[2].state == TRunnable && row[2].pc == Joining(1, x)
  {
    var p, x := s0.init, s0.nexttid;
    var ss1, ms1, row1 := ThreadGone(s0);
    var ss2, ms2, row2 := RunStartJoin(ss1, ms1, p, row1, On(p, 0), Idle, x + 2, 0, 0);
    StillMore(ss1, ms1, ss2, ms2, StartJoin(0, p, 0, 1), p, x, row2, On(p, 0), Idle, x + 2);
    var ss3, ms3, row3 := RunJoined(ss2, ms2, p, row2, On(p, 0), Idle, x + 2, 0, 0, x);
    StillMore(ss2, ms2, ss3, ms3, Joined(0, p, 0, 1, x), p, x, row3, On(p, 0), Idle, x + 2);
    var k := row3[0].kstack + row3[1].kstack + row3[2].kstack + 1;
    ss, ms, row := RunCreate(ss3, ms3, p, row3, Idle, x + 2, 1, k);
    StillMore(ss3, ms3, ss, ms, Create(0, p, 0, 1, k), p, x, row, On(p, 0), Idle, x + 3);
  }

  /** The new thread exits, and thread 2 runs again. */
  lemma NewOneGone(s0: State) returns (ss: seq<State>, ms: seq<Move>, row: seq<Thread>)
    requires Init(s0) && |s0.cpus| >= 2
    ensures var p, x := s0.init, s0.nexttid;
      && StillJoining(ss, ms, p, x) && |ms| == 14 && ss[0] == s0 && Now(ss, ms, p, row, On(p, 0), On(p, 2), x + 3)
      && row[1].state == TZombie && row[1].tid == x + 2 && row[2].pc == Joining(1, x)
  {
    var p, x := s0.init, s0.nexttid;
    var ss1, ms1, row1 := SlotReused(s0);
    var ss2, ms2, row2 := RunSchedule(ss1, ms1, p, row1, On(p, 0), Idle, x + 3, 1);
    StillMore(ss1, ms1, ss2, ms2, Schedule(1, p, 1), p, x, row2, On(p, 0), On(p, 1), x + 3);
    var ss3, ms3, row3 := RunExit(ss2, ms2, p, row2, On(p, 0), x + 3);
    StillMore(ss2, ms2, ss3, ms3, ThreadExit(1, p, 1, 0), p, x, row3, On(p, 0), Idle, x + 3);
    ss, ms, row := RunSchedule(ss3, ms3, p, row3, On(p, 0), Idle, x + 3, 2);
    StillMore(ss3, ms3, ss, ms, Schedule(1, p, 2), p, x, row, On(p, 0), On(p, 2), x + 3);
  }

  /** From every initial state with two CPUs: thread 2, which joined thread x, removes another one
      and returns 0. */
  lemma JoinsAnother(s0: State) returns (ss: seq<State>, ms: seq<Move>)
    requires Init(s0) && |s0.cpus| >= 2
    ensures var p, x := s0.init, s0.nexttid;
      && Joins(ss, ms, 4, 14, p, 2, 1, x) && ss[0] == s0 && |ms| == 15 && ms[14] == Joined(1, p, 2, 1, x)
      && ss[14].th[p][1].state == TZombie && ss[14].th[p][1].tid == x + 2
      && Shape(ss[15].th) && ss[15].th[p][1].state == TUnused && ss[15].th[p][2].pc == User
  {
    var p, x := s0.init, s0.nexttid;
    var ss1, ms1, row1 := NewOneGone(s0);
    var row;
    ss, ms, row := RunJoined(ss1, ms1, p, row1, On(p, 0), On(p, 2), x + 3, 1, 2, x);
    forall n | 4 < n <= 14 ensures InJoin(ss[n], p, 2, 1, x) {
      assert InJoin(ss1[n], p, 2, 1, x);
    }
  }
}
