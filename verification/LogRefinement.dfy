// The redo log refines a disk with one atomic commit.

module LogRefinement {
  import opened Basics
  import opened Params
  import opened Codec
  import opened LogModel
  import opened LogInvariant

  /** The specification: what survives a crash, what the system calls see, and who is
      between begin_op and end_op. */
  datatype Spec = Spec(durable: map<int, Block>, volatile: map<int, Block>, active: set<nat>)

  ghost function Abs(g: Geometry, s: State): Spec
    requires GoodDisk(g, s.disk)
  {
    Spec(Durable(g, s.disk),
         if Booting(s.phase) then Durable(g, s.disk) else Volatile(g, s),
         ActiveOps(s.ops))
  }

  ghost function ActiveOps(ops: seq<Op>): set<nat> {
    set a: nat | a < |ops| && ops[a].Active?
  }

  /** The atomic-commit disk: only the header write moves the durable state, it takes all
      writes of whole operations at once, and a crash falls back to it. */
  ghost predicate SpecNext(x: Spec, step: Step, x': Spec) {
    match step
    case BeginOp(a) => a !in x.active && x' == x.(active := x.active + {a})
    case Modify(a, b, v) => a in x.active && b in x.volatile && x' == x.(volatile := x.volatile[b := v])
    case EndOp(a) => a in x.active && x' == x.(active := x.active - {a})
    case WriteHeadStep => x.active == {} && x' == x.(durable := x.volatile)
    case Crash => x' == Spec(x.durable, x.durable, {})
    case _ => x' == x
  }

  /** No operation is left open while the committer works, so end_op never meets
      "log.committing". */
  lemma ActiveOnlyWhileRunning(g: Geometry, s: State, a: nat)
    requires Inv(g, s) && a < |s.ops| && s.ops[a].Active?
    ensures s.phase.Running? || s.phase.Halted?
  {
  }

  lemma DurableEmptyLog(g: Geometry, d: seq<Block>, b: int)
    requires GoodDisk(g, d) && Header(d[g.start]) == [] && g.Home(b)
    ensures DurableAt(g, d, b) == d[b]
  {
  }

  lemma DurableSame(g: Geometry, d: seq<Block>, d': seq<Block>)
    requires GoodDisk(g, d) && GoodDisk(g, d')
    requires forall b :: g.Home(b) ==> DurableAt(g, d, b) == DurableAt(g, d', b)
    ensures Durable(g, d) == Durable(g, d')
  {
  }

  lemma VolatileSame(g: Geometry, s: State, s': State)
    requires |s.disk| == g.nblocks && |s'.disk| == g.nblocks
    requires forall b :: g.Home(b) ==> View(s, b) == View(s', b)
    ensures Volatile(g, s) == Volatile(g, s')
  {
  }

  // ---------- one simulation lemma per kind of step ----------

  lemma RefineModify(g: Geometry, s: State, s': State, a: nat, b: int, v: Block)
    requires Inv(g, s) && GoodDisk(g, s'.disk) && NextModify(s, s', a, b, v)
    ensures SpecNext(Abs(g, s), Modify(a, b, v), Abs(g, s'))
  {
    ActiveOnlyWhileRunning(g, s, a);
    assert Volatile(g, s') == Volatile(g, s)[b := v];
    assert s'.ops == s.ops;
  }

  lemma RefineOps(g: Geometry, s: State, step: Step, s': State)
    requires step.BeginOp? || step.EndOp?
    requires Inv(g, s) && GoodDisk(g, s'.disk) && Next(g, s, step, s')
    ensures SpecNext(Abs(g, s), step, Abs(g, s'))
  {
    VolatileSame(g, s, s');
    if step.BeginOp? {
      assert ActiveOps(s'.ops) == ActiveOps(s.ops) + {step.a};
    } else {
      ActiveOnlyWhileRunning(g, s, step.a);
      assert ActiveOps(s'.ops) == ActiveOps(s.ops) - {step.a};
    }
  }

  lemma RefineCache(g: Geometry, s: State, step: Step, s': State)
    requires step.Bread? || step.Brelse? || step.Evict?
    requires Inv(g, s) && GoodDisk(g, s'.disk) && Next(g, s, step, s')
    ensures Abs(g, s') == Abs(g, s)
  {
    if step.Bread? {
      LoadFrame(g, s, step.b);
    } else if step.Evict? {
      EvictFrame(g, s, s', step.b);
    }
    VolatileSame(g, s, s');
    assert s'.ops == s.ops;
  }

  lemma RefineLogWrite(g: Geometry, s: State, step: Step, s': State)
    requires step.LogCheck? || step.LogAppend?
    requires Inv(g, s) && GoodDisk(g, s'.disk) && Next(g, s, step, s')
    ensures Abs(g, s') == Abs(g, s)
  {
    VolatileSame(g, s, s');
    assert ActiveOps(s'.ops) == ActiveOps(s.ops);
    ActiveOnlyWhileRunning(g, s, step.a);
  }

  lemma RefineWriteLog(g: Geometry, s: State, s': State)
    requires Inv(g, s) && GoodDisk(g, s'.disk) && NextWriteLog(g, s, s')
    ensures Abs(g, s') == Abs(g, s)
  {
    var t := s.phase.tail;
    LoadFrame(g, s, s.lh[t]);
    var s1 := Load(s, s.lh[t]);
    PutFrame(g, s1, g.start + 1 + t, View(s1, s.lh[t]));
    VolatileSame(g, s, s');
    DurableSame(g, s.disk, s'.disk);
    assert s'.ops == s.ops;
  }

  /** With no operation open, a block that is not in the log is as on the disk. */
  lemma UnloggedIsClean(g: Geometry, s: State, b: int)
    requires CacheOk(g, s) && Clean(s) && AllIdle(s) && |s.disk| == g.nblocks
    requires g.Home(b) && b !in s.lh
    ensures View(s, b) == s.disk[b]
  {
  }

  /** What recovery would restore from a freshly written header is what is seen. */
  lemma CommitDurableAt(g: Geometry, s: State, d': seq<Block>, b: int)
    requires GoodDisk(g, d') && |s.disk| == g.nblocks && LhOk(g, s)
    requires CacheOk(g, s) && Clean(s) && AllIdle(s) && Logged(g, s, |s.lh|)
    requires d' == s.disk[g.start := d'[g.start]] && Header(d'[g.start]) == s.lh
    requires g.Home(b)
    ensures DurableAt(g, d', b) == View(s, b)
  {
    var i := IndexOf(s.lh, b);
    if i < |s.lh| {
      assert d'[g.start + 1 + i] == s.disk[g.start + 1 + i];
    } else {
      UnloggedIsClean(g, s, b);
    }
  }

  lemma DurableIsVolatile(g: Geometry, s: State, d: seq<Block>)
    requires GoodDisk(g, d) && |s.disk| == g.nblocks
    requires forall b :: g.Home(b) ==> DurableAt(g, d, b) == View(s, b)
    ensures Durable(g, d) == Volatile(g, s)
  {
  }

  /** Whatever else is in the header block. */
  lemma CommitPoint(g: Geometry, s: State, s': State, h: Block)
    requires Inv(g, s) && GoodDisk(g, s'.disk) && s.phase.WriteHead? && GoodHeader(h) && Header(h) == s.lh
    requires s' == Put(s, g.start, h).(phase := Install(0))
    ensures SpecNext(Abs(g, s), WriteHeadStep, Abs(g, s'))
  {
    PutFrame(g, s, g.start, h);
    VolatileSame(g, s, s');
    forall b | g.Home(b) ensures DurableAt(g, s'.disk, b) == View(s, b) {
      CommitDurableAt(g, s, s'.disk, b);
    }
    DurableIsVolatile(g, s, s'.disk);
    assert ActiveOps(s'.ops) == ActiveOps(s.ops) == {};
  }

  lemma RefineWriteHead(g: Geometry, s: State, s': State)
    requires Inv(g, s) && GoodDisk(g, s'.disk) && NextWriteHead(g, s, s')
    ensures SpecNext(Abs(g, s), WriteHeadStep, Abs(g, s'))
  {
    CommitPoint(g, s, s', Encode(View(s, g.start), s.lh));
  }

  lemma InstallVolatile(g: Geometry, s: State, s': State, t: nat)
    requires |s.disk| == g.nblocks == |s'.disk| && g.Valid() && LhOk(g, s) && t < |s.lh| && Logged(g, s, |s.lh|)
    requires forall b :: 0 <= b < |s.disk| ==>
      View(s', b) == if b == s.lh[t] then s.disk[g.start + 1 + t] else View(s, b)
    ensures Volatile(g, s') == Volatile(g, s)
  {
    VolatileSame(g, s, s');
  }

  lemma InstallInvisible(g: Geometry, s: State, s': State, t: nat, next: Phase)
    requires GoodDisk(g, s.disk) && CacheOk(g, s) && LhOk(g, s) && Clean(s) && OpsOk(s) && AllIdle(s)
    requires CopyHome(g, s, s', t, next) && Header(s.disk[g.start]) == s.lh && Logged(g, s, |s.lh|)
    ensures GoodDisk(g, s'.disk) && Durable(g, s'.disk) == Durable(g, s.disk) && Volatile(g, s') == Volatile(g, s)
  {
    CopyFrame(g, s, s', t, next);
    CopyDurable(g, s, s', t);
    InstallVolatile(g, s, s', t);
  }

  lemma RefineInstall(g: Geometry, s: State, s': State)
    requires Inv(g, s) && GoodDisk(g, s'.disk) && NextInstall(g, s, s')
    ensures Abs(g, s') == Abs(g, s)
  {
    InstallInvisible(g, s, s', s.phase.tail, s'.phase);
    assert s'.ops == s.ops;
  }

  /** Copying a log slot home is invisible to recovery. */
  lemma CopyDurable(g: Geometry, s: State, s': State, t: nat)
    requires GoodDisk(g, s.disk) && GoodDisk(g, s'.disk) && t < |s.lh|
    requires s.lh == Header(s.disk[g.start]) == Header(s'.disk[g.start])
    requires g.Home(s.lh[t]) && s'.disk == s.disk[s.lh[t] := s.disk[g.start + 1 + t]]
    ensures Durable(g, s'.disk) == Durable(g, s.disk)
  {
    DurableSame(g, s.disk, s'.disk);
  }

  /** Once every slot is home, dropping the header loses nothing. */
  lemma ClearDurable(g: Geometry, s: State, s': State)
    requires GoodDisk(g, s.disk) && GoodDisk(g, s'.disk) && LhOk(g, s)
    requires s.lh == Header(s.disk[g.start]) && Header(s'.disk[g.start]) == []
    requires Installed(g, s, |s.lh|)
    requires forall b :: g.Home(b) ==> s'.disk[b] == s.disk[b]
    ensures Durable(g, s'.disk) == Durable(g, s.disk)
  {
    DurableSame(g, s.disk, s'.disk);
  }

  lemma RefineClear(g: Geometry, s: State, s': State)
    requires Inv(g, s) && GoodDisk(g, s'.disk) && NextClear(g, s, s')
    ensures Abs(g, s') == Abs(g, s)
  {
    PutFrame(g, s, g.start, Encode(View(s, g.start), []));
    ClearDurable(g, s, s');
    if s.phase.ClearHead? {
      VolatileSame(g, s, s');
    } else {
      PhaseIrrelevant(g, Put(s, g.start, Encode(View(s, g.start), [])), s'.(lh := s.lh));
      VolatileIsDurable(g, s');
    }
    assert s'.ops == s.ops;
  }

  /** With nothing logged and no operation open, memory and disk agree. */
  lemma VolatileIsDurable(g: Geometry, s: State)
    requires GoodDisk(g, s.disk) && Clean(s) && AllIdle(s) && NothingDirty(s)
    requires Header(s.disk[g.start]) == []
    ensures Volatile(g, s) == Durable(g, s.disk)
  {
    DurableIsVolatile(g, s, s.disk);
  }

  lemma BootCopyAbs(g: Geometry, s: State, s': State, t: nat)
    requires GoodDisk(g, s.disk) && CacheOk(g, s) && LhOk(g, s) && Clean(s) && OpsOk(s) && AllIdle(s)
    requires s.lh == Header(s.disk[g.start]) && Booting(s.phase) && Booting(s'.phase)
    requires CopyHome(g, s, s', t, s'.phase) && GoodDisk(g, s'.disk)
    ensures Abs(g, s') == Abs(g, s)
  {
    CopyFrame(g, s, s', t, s'.phase);
    CopyDurable(g, s, s', t);
    assert s'.ops == s.ops;
  }

  lemma RefineBootInstall(g: Geometry, s: State, s': State)
    requires Inv(g, s) && GoodDisk(g, s'.disk) && NextBootInstall(g, s, s')
    ensures Abs(g, s') == Abs(g, s)
  {
    BootCopyAbs(g, s, s', s.phase.tail);
  }

  lemma RefineBoot(g: Geometry, s: State, step: Step, s': State)
    requires step.BootRead? || step.DoneStep? || step.Crash?
    requires Inv(g, s) && GoodDisk(g, s'.disk) && Next(g, s, step, s')
    ensures SpecNext(Abs(g, s), step, Abs(g, s'))
  {
    if step.DoneStep? {
      VolatileSame(g, s, s');
    }
    if !step.Crash? {
      assert s'.ops == s.ops;
    }
  }

  lemma RefineClient(g: Geometry, s: State, step: Step, s': State)
    requires ClientStep(step)
    requires Inv(g, s) && GoodDisk(g, s'.disk) && Next(g, s, step, s')
    ensures SpecNext(Abs(g, s), step, Abs(g, s'))
  {
    match step
    case BeginOp(_) => RefineOps(g, s, step, s');
    case EndOp(_) => RefineOps(g, s, step, s');
    case Modify(a, b, v) => RefineModify(g, s, s', a, b, v);
    case Bread(_, _) => RefineCache(g, s, step, s');
    case Brelse(_, _) => RefineCache(g, s, step, s');
    case Evict(_) => RefineCache(g, s, step, s');
    case LogCheck(_, _) => RefineLogWrite(g, s, step, s');
    case LogAppend(_, _) => RefineLogWrite(g, s, step, s');
    case _ =>
  }

  lemma RefineCommit(g: Geometry, s: State, step: Step, s': State)
    requires step.WriteLogStep? || step.InstallStep? || step.ClearStep? || step.BootInstallStep?
    requires Inv(g, s) && GoodDisk(g, s'.disk) && Next(g, s, step, s')
    ensures Abs(g, s') == Abs(g, s)
  {
    match step
    case WriteLogStep => RefineWriteLog(g, s, s');
    case InstallStep => RefineInstall(g, s, s');
    case ClearStep => RefineClear(g, s, s');
    case BootInstallStep => RefineBootInstall(g, s, s');
  }

  /** Each step of the log is one step of the atomic-commit disk, or invisible. */
  lemma Refine(g: Geometry, s: State, step: Step, s': State)
    requires Inv(g, s) && GoodDisk(g, s'.disk) && Next(g, s, step, s')
    ensures SpecNext(Abs(g, s), step, Abs(g, s'))
  {
    if ClientStep(step) {
      RefineClient(g, s, step, s');
    } else if step.WriteHeadStep? {
      RefineWriteHead(g, s, s');
    } else if step.BootRead? || step.DoneStep? || step.Crash? {
      RefineBoot(g, s, step, s');
    } else {
      RefineCommit(g, s, step, s');
    }
  }
}
