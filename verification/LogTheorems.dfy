// What the redo log guarantees over whole runs, with a crash after any step.

module LogTheorems {
  import opened Basics
  import opened Params
  import opened Codec
  import opened LogModel
  import opened LogInvariant
  import opened LogRefinement

  ghost predicate SpecAt(xs: seq<Spec>, steps: seq<Step>, k: nat)
    requires k < |steps| && k + 1 < |xs|
  {
    SpecNext(xs[k], steps[k], xs[k + 1])
  }

  /** A run of the atomic-commit disk. */
  ghost predicate SpecRun(xs: seq<Spec>, steps: seq<Step>) {
    |xs| == |steps| + 1 && forall k :: 0 <= k < |steps| ==> SpecAt(xs, steps, k)
  }

  ghost function AbsRun(g: Geometry, ss: seq<State>): (xs: seq<Spec>)
    requires forall k :: 0 <= k < |ss| ==> GoodDisk(g, ss[k].disk)
    ensures |xs| == |ss| && forall k :: 0 <= k < |ss| ==> xs[k] == Abs(g, ss[k])
  {
    seq(|ss|, k requires 0 <= k < |ss| => Abs(g, ss[k]))
  }

  lemma RunGood(g: Geometry, ss: seq<State>, steps: seq<Step>)
    requires SafeRun(g, ss, steps)
    ensures forall k :: 0 <= k < |ss| ==> GoodDisk(g, ss[k].disk)
  {
    forall k | 0 <= k < |ss| ensures GoodDisk(g, ss[k].disk) {
      InvRun(g, ss, steps, k);
    }
  }

  lemma RefineAt(g: Geometry, ss: seq<State>, steps: seq<Step>, k: nat)
    requires SafeRun(g, ss, steps) && k < |steps|
    ensures Next(g, ss[k], steps[k], ss[k + 1])
    ensures GoodDisk(g, ss[k].disk) && GoodDisk(g, ss[k + 1].disk)
    ensures SpecNext(Abs(g, ss[k]), steps[k], Abs(g, ss[k + 1]))
  {
    assert GoodDisk(g, ss[k + 1].disk) by { InvRun(g, ss, steps, k + 1); }
    InvRun(g, ss, steps, k);
    assert StepAt(g, ss, steps, k);
    Refine(g, ss[k], steps[k], ss[k + 1]);
  }

  /** Every run of the log is, step by step, a run of the atomic-commit disk. */
  lemma RunRefines(g: Geometry, ss: seq<State>, steps: seq<Step>)
    requires SafeRun(g, ss, steps)
    ensures forall k :: 0 <= k < |ss| ==> GoodDisk(g, ss[k].disk)
    ensures SpecRun(AbsRun(g, ss), steps)
  {
    RunGood(g, ss, steps);
    var xs := AbsRun(g, ss);
    forall k | 0 <= k < |steps| ensures SpecAt(xs, steps, k) {
      RefineAt(g, ss, steps, k);
    }
  }

  /** j is the last commit point among the first k steps. */
  predicate LastCommit(steps: seq<Step>, j: int, k: int) {
    0 <= j < k <= |steps| && steps[j].WriteHeadStep? &&
    forall i :: j < i < k ==> !steps[i].WriteHeadStep?
  }

  predicate NoCommit(steps: seq<Step>, i: int, k: int)
    requires 0 <= i <= k <= |steps|
  {
    forall m :: i <= m < k ==> !steps[m].WriteHeadStep?
  }

  /** Without a commit point in between, the durable state does not move. */
  lemma {:induction false} DurableStays(xs: seq<Spec>, steps: seq<Step>, i: nat, k: nat)
    requires SpecRun(xs, steps) && i <= k <= |steps| && NoCommit(steps, i, k)
    ensures xs[k].durable == xs[i].durable
    decreases k
  {
    if i < k {
      DurableStays(xs, steps, i, k - 1);
      assert SpecAt(xs, steps, k - 1);
    }
  }

  predicate NoWrite(steps: seq<Step>, i: int, k: int)
    requires 0 <= i <= k <= |steps|
  {
    forall m :: i <= m < k ==> !steps[m].Modify? && !steps[m].Crash?
  }

  /** Only operations and crashes change what is seen. */
  lemma {:induction false} VolatileStays(xs: seq<Spec>, steps: seq<Step>, i: nat, k: nat)
    requires SpecRun(xs, steps) && i <= k <= |steps| && NoWrite(steps, i, k)
    ensures xs[k].volatile == xs[i].volatile
    decreases k
  {
    if i < k {
      VolatileStays(xs, steps, i, k - 1);
      assert SpecAt(xs, steps, k - 1);
    }
  }

  lemma DurableIsLastCommit(xs: seq<Spec>, steps: seq<Step>, j: nat, k: nat)
    requires SpecRun(xs, steps) && LastCommit(steps, j, k)
    ensures xs[k].durable == xs[j].volatile && xs[j].active == {}
  {
    assert SpecAt(xs, steps, j);
    DurableStays(xs, steps, j + 1, k);
  }

  /** Crash atomicity.  At every point k of every run, what recovery would restore is the
      initial contents, or exactly what was visible at the last commit point j, where no
      operation was open: the effects of whole operations, never a mixture. */
  lemma CrashAtomicity(g: Geometry, ss: seq<State>, steps: seq<Step>, k: nat)
    requires SafeRun(g, ss, steps) && k < |ss|
    ensures forall i :: 0 <= i < |ss| ==> GoodDisk(g, ss[i].disk)
    ensures NoCommit(steps, 0, k) ==> Durable(g, ss[k].disk) == Durable(g, ss[0].disk)
    ensures forall j :: LastCommit(steps, j, k) ==>
      |ss[j].disk| == g.nblocks && Durable(g, ss[k].disk) == Volatile(g, ss[j]) && ActiveOps(ss[j].ops) == {}
  {
    RunRefines(g, ss, steps);
    var xs := AbsRun(g, ss);
    if NoCommit(steps, 0, k) {
      DurableStays(xs, steps, 0, k);
    }
    forall j | LastCommit(steps, j, k)
      ensures Durable(g, ss[k].disk) == Volatile(g, ss[j]) && ActiveOps(ss[j].ops) == {}
    {
      DurableIsLastCommit(xs, steps, j, k);
      RefineAt(g, ss, steps, j);
    }
  }

  lemma BootNoCommit(g: Geometry, ss: seq<State>, steps: seq<Step>, i: nat, j: nat)
    requires SafeRun(g, ss, steps) && i < j < |ss| && steps[i].Crash?
    requires forall m :: i < m < j ==> Booting(ss[m].phase)
    ensures NoCommit(steps, i, j)
  {
    forall m | i <= m < j ensures !steps[m].WriteHeadStep? {
      RefineAt(g, ss, steps, m);
    }
  }

  /** Recovery.  After a crash at step i, and any number of further crashes before the
      system runs again at step j, disk and memory hold what was durable at the crash. */
  lemma RecoveryRestores(g: Geometry, ss: seq<State>, steps: seq<Step>, i: nat, j: nat, b: int)
    requires SafeRun(g, ss, steps) && i < j < |ss|
    requires steps[i].Crash? && ss[j].phase.Running?
    requires forall m :: i < m < j ==> Booting(ss[m].phase)
    requires g.Home(b)
    ensures GoodDisk(g, ss[i].disk) && GoodDisk(g, ss[j].disk)
    ensures View(ss[j], b) == ss[j].disk[b] == DurableAt(g, ss[i].disk, b)
  {
    DurableThroughBoot(g, ss, steps, i, j, b);
    BootEndsAt(g, ss, steps, j - 1, b);
  }

  lemma DurableThroughBoot(g: Geometry, ss: seq<State>, steps: seq<Step>, i: nat, j: nat, b: int)
    requires SafeRun(g, ss, steps) && i < j < |ss| && steps[i].Crash?
    requires forall m :: i < m < j ==> Booting(ss[m].phase)
    requires g.Home(b)
    ensures GoodDisk(g, ss[i].disk) && GoodDisk(g, ss[j].disk)
    ensures DurableAt(g, ss[j].disk, b) == DurableAt(g, ss[i].disk, b)
  {
    RunRefines(g, ss, steps);
    BootNoCommit(g, ss, steps, i, j);
    DurableStays(AbsRun(g, ss), steps, i, j);
    assert Durable(g, ss[j].disk)[b] == Durable(g, ss[i].disk)[b];
  }

  lemma BootEndsAt(g: Geometry, ss: seq<State>, steps: seq<Step>, k: nat, b: int)
    requires SafeRun(g, ss, steps) && k + 1 < |ss|
    requires (Booting(ss[k].phase) || steps[k].Crash?) && ss[k + 1].phase.Running? && g.Home(b)
    ensures GoodDisk(g, ss[k + 1].disk)
    ensures View(ss[k + 1], b) == ss[k + 1].disk[b] == DurableAt(g, ss[k + 1].disk, b)
  {
    InvRun(g, ss, steps, k);
    InvRun(g, ss, steps, k + 1);
    assert StepAt(g, ss, steps, k);
    BootEnds(g, ss[k], steps[k], ss[k + 1], b);
  }

  /** The only way out of booting is the cleared header, with everything on the disk. */
  lemma BootEnds(g: Geometry, s: State, step: Step, s': State, b: int)
    requires Inv(g, s) && Next(g, s, step, s') && (Booting(s.phase) || step.Crash?) && s'.phase.Running?
    requires Inv(g, s') && g.Home(b)
    ensures View(s', b) == s'.disk[b] == DurableAt(g, s'.disk, b)
  {
    assert step.ClearStep?;
    DurableEmptyLog(g, s'.disk, b);
    ClearKeepsIdle(g, s, s');
    UnloggedIsClean(g, s', b);
  }

  lemma ClearKeepsIdle(g: Geometry, s: State, s': State)
    requires NextClear(g, s, s') && AllIdle(s)
    ensures s'.lh == [] && AllIdle(s')
  {
  }

  /** When commit returns, everything the finished operations wrote is durable. */
  lemma CommitReturned(g: Geometry, ss: seq<State>, steps: seq<Step>, k: nat)
    requires SafeRun(g, ss, steps) && k < |steps| && steps[k].DoneStep?
    ensures GoodDisk(g, ss[k].disk)
    ensures ActiveOps(ss[k].ops) == {} && Durable(g, ss[k].disk) == Volatile(g, ss[k])
  {
    RefineAt(g, ss, steps, k);
    InvRun(g, ss, steps, k);
    AllUnpinned(g, ss[k]);
    VolatileIsDurable(g, ss[k]);
  }

  /** Write-ahead, one step: only install_trans writes home blocks. */
  lemma HomeWrites(g: Geometry, s: State, step: Step, s': State, b: int)
    requires |s.disk| == g.nblocks && g.Valid() && |s.lh| < g.size
    requires Next(g, s, step, s') && g.Home(b)
    ensures |s'.disk| == |s.disk|
    ensures s'.disk[b] != s.disk[b] ==> (s.phase.Install? || s.phase.BootInstall?) && b in s.lh
  {
  }

  /** Write-ahead: a home block reaches the disk only while the header on the disk names
      it, and a logged block whose header is not yet written is pinned in the cache. */
  lemma WriteAhead(g: Geometry, s: State, step: Step, s': State, b: int)
    requires Inv(g, s) && Next(g, s, step, s') && g.Home(b)
    ensures |s'.disk| == |s.disk|
    ensures s'.disk[b] != s.disk[b] ==> b in Header(s.disk[g.start])
    ensures b in s.lh && Header(s.disk[g.start]) == [] ==> Pinned(s, b)
  {
    HomeWrites(g, s, step, s', b);
  }

  /** Steps left until the committer, or recovery, is done. */
  function Left(s: State): int {
    match s.phase
    case WriteLog(t) => 2 * |s.lh| - t + 3
    case WriteHead => |s.lh| + 3
    case Install(t) => |s.lh| - t + 2
    case ClearHead => 2
    case CommitDone => 1
    case Boot => LOGSIZE + 2
    case BootInstall(t) => |s.lh| - t + 1
    case BootClear => 1
    case Running => 0
    case Halted => 0
  }

  lemma WriteLogMoves(g: Geometry, s: State) returns (s': State)
    requires g.Valid() && Inv(g, s) && (forall b :: b !in s.lock) && s.phase.WriteLog?
    ensures NextWriteLog(g, s, s') && 0 <= Left(s') < Left(s)
  {
    var t := s.phase.tail;
    var s1 := Load(s, s.lh[t]);
    s' := Put(s1, g.start + 1 + t, View(s1, s.lh[t])).(phase := if t + 1 < |s.lh| then WriteLog(t + 1) else WriteHead);
  }

  lemma WriteHeadMoves(g: Geometry, s: State) returns (s': State)
    requires g.Valid() && Inv(g, s) && s.phase.WriteHead?
    ensures NextWriteHead(g, s, s') && 0 <= Left(s') < Left(s)
  {
    s' := Put(s, g.start, Encode(View(s, g.start), s.lh)).(phase := Install(0));
  }

  lemma CopyMoves(g: Geometry, s: State, next: Phase) returns (s': State)
    requires g.Valid() && Inv(g, s) && (forall b :: b !in s.lock) && (s.phase.Install? || s.phase.BootInstall?)
    ensures CopyHome(g, s, s', s.phase.tail, next) && s'.phase == next && s'.lh == s.lh && s.phase.tail < |s.lh|
  {
    var t := s.phase.tail;
    var s1 := Load(s, g.start + 1 + t);
    s' := Put(s1, s.lh[t], View(s1, g.start + 1 + t)).(phase := next);
  }

  lemma ClearMoves(g: Geometry, s: State) returns (s': State)
    requires g.Valid() && Inv(g, s) && (s.phase.ClearHead? || s.phase.BootClear?)
    ensures NextClear(g, s, s') && 0 <= Left(s') < Left(s)
  {
    s' := Put(s, g.start, Encode(View(s, g.start), [])).(lh := [], phase := if s.phase.ClearHead? then CommitDone
      else Running);
  }

  lemma BootMoves(g: Geometry, s: State) returns (s': State)
    requires g.Valid() && Inv(g, s) && s.phase.Boot?
    ensures NextBootRead(g, s, s') && 0 <= Left(s') < Left(s)
  {
    var lh := Header(View(s, g.start));
    s' := Load(s, g.start).(lh := lh, phase := if |lh| > 0 then BootInstall(0) else BootClear);
  }

  lemma InstallMoves(g: Geometry, s: State) returns (s': State)
    requires g.Valid() && Inv(g, s) && (forall b :: b !in s.lock) && s.phase.Install?
    ensures NextInstall(g, s, s') && 0 <= Left(s') < Left(s)
  {
    s' := CopyMoves(g, s, if s.phase.tail + 1 < |s.lh| then Install(s.phase.tail + 1) else ClearHead);
  }

  /** With no buffer locked a commit always has a next step, and each brings it nearer its
      end: it is never stuck. */
  lemma CommitMoves(g: Geometry, s: State) returns (s': State)
    requires g.Valid() && Inv(g, s) && (forall b :: b !in s.lock)
    requires s.phase.WriteLog? || s.phase.WriteHead? || s.phase.Install? || s.phase.ClearHead? || s.phase.CommitDone?
    ensures NextWriteLog(g, s, s') || NextWriteHead(g, s, s') || NextInstall(g, s, s') || NextClear(g, s, s') ||
      NextDone(s, s')
    ensures 0 <= Left(s') < Left(s)
  {
    if s.phase.WriteLog? {
      s' := WriteLogMoves(g, s);
    } else if s.phase.WriteHead? {
      s' := WriteHeadMoves(g, s);
    } else if s.phase.Install? {
      s' := InstallMoves(g, s);
    } else if s.phase.ClearHead? {
      s' := ClearMoves(g, s);
    } else {
      s' := s.(phase := Running);
    }
  }

  /** The same for recovery. */
  lemma RecoveryMoves(g: Geometry, s: State) returns (s': State)
    requires g.Valid() && Inv(g, s) && (forall b :: b !in s.lock) &&
      (s.phase.Boot? || s.phase.BootInstall? || s.phase.BootClear?)
    ensures NextBootRead(g, s, s') || NextBootInstall(g, s, s') || NextClear(g, s, s')
    ensures 0 <= Left(s') < Left(s)
  {
    if s.phase.Boot? {
      s' := BootMoves(g, s);
    } else if s.phase.BootInstall? {
      s' := CopyMoves(g, s, if s.phase.tail + 1 < |s.lh| then BootInstall(s.phase.tail + 1) else BootClear);
    } else {
      s' := ClearMoves(g, s);
    }
  }

  // ---------- between operations ----------

  /** No operation is open and none is being committed. */
  ghost predicate Between(s: State) {
    s.phase.Running? && AllIdle(s)
  }

  /** The last operation to end commits the log before the next one can begin. */
  lemma EmptyBetween(g: Geometry, s: State, step: Step, s': State)
    requires Inv(g, s) && (Between(s) ==> s.lh == []) && Next(g, s, step, s')
    ensures Between(s') ==> s'.lh == []
  {
    if step.EndOp? {
      NoneOutstanding(s.ops[step.a := Idle]);
    } else if step.BeginOp? || step.LogCheck? || step.LogAppend? {
      assert s'.ops[step.a].Active?;
    }
  }

  lemma {:induction false} EmptyRun(g: Geometry, ss: seq<State>, steps: seq<Step>, k: nat)
    requires SafeRun(g, ss, steps) && k < |ss|
    ensures Between(ss[k]) ==> ss[k].lh == []
  {
    if k > 0 {
      EmptyRun(g, ss, steps, k - 1);
      InvRun(g, ss, steps, k - 1);
      assert StepAt(g, ss, steps, k - 1);
      EmptyBetween(g, ss[k - 1], steps[k - 1], ss[k]);
    }
  }

  lemma AllOnDisk(g: Geometry, s: State)
    requires Inv(g, s) && Between(s) && s.lh == []
    ensures Durable(g, s.disk) == Volatile(g, s)
  {
    forall b | g.Home(b) ensures DurableAt(g, s.disk, b) == View(s, b) {
      DurableEmptyLog(g, s.disk, b);
      assert b in s.cache ==> !s.cache[b].dirty && !OpLocked(s, b);
    }
  }

  /** Between operations everything seen is durable. */
  lemma DurableBetween(g: Geometry, ss: seq<State>, steps: seq<Step>, k: nat)
    requires SafeRun(g, ss, steps) && k < |ss| && Between(ss[k])
    ensures GoodDisk(g, ss[k].disk) && Durable(g, ss[k].disk) == Volatile(g, ss[k]) && ActiveOps(ss[k].ops) == {}
  {
    InvRun(g, ss, steps, k);
    EmptyRun(g, ss, steps, k);
    AllOnDisk(g, ss[k]);
  }
}
