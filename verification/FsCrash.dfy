// A power failure during filewrite: the file system of Ass2/fs.c on the redo log of Ass2/log.c.

module FsCrash {
  import opened Codec
  import opened LogModel
  import opened LogInvariant
  import opened LogRefinement
  import opened LogTheorems
  import opened FsModel
  import opened FsLemmas
  import opened FsFile
  import opened FsWrite
  import opened FsCode
  import opened FsIo
  import opened FsOps

  // ---------- only the blocks from the inodes on matter ----------

  ghost predicate SameFrom(sb: Super, d: Disk, d': Disk) {
    sb.Valid() && |d| == |d'| == sb.size && forall b :: sb.inodestart <= b < sb.size ==> d'[b] == d[b]
  }

  lemma SlotsFrame(sb: Super, d: Disk, d': Disk, tab: seq<Inode>, j: nat)
    requires FsInv(sb, d, tab) && SameFrom(sb, d, d') && j < |tab|
    ensures Slots(d', tab[j]) == Slots(d, tab[j]) && SameFile(d, d', tab[j])
  {
    PointerIsData(sb, d, tab, j);
  }

  lemma InvFrame(sb: Super, d: Disk, d': Disk, tab: seq<Inode>)
    requires FsInv(sb, d, tab) && SameFrom(sb, d, d')
    ensures FsInv(sb, d', tab)
  {
    UsageFrame(sb, d, d');
    forall j | 0 <= j < |tab| ensures Slots(d', tab[j]) == Slots(d, tab[j]) { SlotsFrame(sb, d, d', tab, j); }
    assert Table(d', tab) == Table(d, tab);
  }

  lemma FileFrame(sb: Super, d: Disk, d': Disk, tab: seq<Inode>, j: nat)
    requires Healthy(sb, d, tab) && SameFrom(sb, d, d') && j < |tab|
    ensures FileOk(d', tab[j]) && Content(d', tab[j]) == Content(d, tab[j]) && InodeAt(sb, d', j) == tab[j]
  {
    SlotsFrame(sb, d, d', tab, j);
    SlotsInRange(sb, d, tab, j);
    SameContent(d, d', tab[j]);
  }

  lemma HealthyFrame(sb: Super, d: Disk, d': Disk, tab: seq<Inode>)
    requires Healthy(sb, d, tab) && SameFrom(sb, d, d')
    ensures Healthy(sb, d', tab) && TableOf(sb, d') == TableOf(sb, d) == tab
  {
    InvFrame(sb, d, d', tab);
    forall j | 0 <= j < |tab|
      ensures FileOk(d', tab[j]) && InodeAt(sb, d', j) == tab[j]
    {
      FileFrame(sb, d, d', tab, j);
    }
    TableIs(sb, d, tab);
    TableIs(sb, d', tab);
  }

  lemma ChunkFrame(sb: Super, d0: Disk, d: Disk, d': Disk, i: nat, off: nat, src: seq<Byte>, j: nat)
    requires AtChunk(sb, d0, d, i, off, src, j) && SameFrom(sb, d, d')
    ensures AtChunk(sb, d0, d', i, off, src, j)
  {
    var tab := TableOf(sb, d);
    HealthyFrame(sb, d, d', tab);
    forall k | 0 <= k < |tab| ensures FileOk(d', tab[k]) && Content(d', tab[k]) == Content(d, tab[k]) {
      FileFrame(sb, d, d', tab, k);
    }
  }

  // ---------- what the log shows between operations ----------

  /** How many operations have ended in the first k steps. */
  function EndCount(steps: seq<Step>, k: nat): nat
    requires k <= |steps|
  {
    if k == 0 then 0 else EndCount(steps, k - 1) + if steps[k - 1].EndOp? then 1 else 0
  }

  ghost predicate Shows(g: Geometry, m: map<int, Block>, d: Disk) {
    |d| == g.nblocks && forall b :: g.Home(b) ==> b in m && m[b] == d[b]
  }

  /** Step m is no crash; if an operation ends, it is the only one open, and the file system
      then sees the next disk of hist. */
  ghost predicate OpAt(xs: seq<Spec>, steps: seq<Step>, g: Geometry, hist: seq<Disk>, m: nat)
    requires m < |steps| < |xs|
  {
    && !steps[m].Crash?
    && (steps[m].EndOp? ==>
          && xs[m].active == {steps[m].a} && EndCount(steps, m) + 1 < |hist|
          && Shows(g, xs[m].volatile, hist[EndCount(steps, m) + 1]))
  }

  /** For k steps the file system goes from disk to disk of hist, an operation at a time. */
  ghost predicate Follows(xs: seq<Spec>, steps: seq<Step>, g: Geometry, hist: seq<Disk>, k: nat) {
    && SpecRun(xs, steps) && k <= |steps| && |hist| > 0
    && xs[0].active == {} && Shows(g, xs[0].volatile, hist[0]) && Shows(g, xs[0].durable, hist[0])
    && forall m :: 0 <= m < k ==> OpAt(xs, steps, g, hist, m)
  }

  /** Whenever no operation is open, the last disk reached is what is seen. */
  lemma {:induction false} BetweenOps(xs: seq<Spec>, steps: seq<Step>, g: Geometry, hist: seq<Disk>, k: nat)
    requires Follows(xs, steps, g, hist, k)
    ensures EndCount(steps, k) < |hist|
    ensures xs[k].active == {} ==> Shows(g, xs[k].volatile, hist[EndCount(steps, k)])
    decreases k
  {
    if k > 0 {
      BetweenOps(xs, steps, g, hist, k - 1);
      assert OpAt(xs, steps, g, hist, k - 1);
      assert SpecAt(xs, steps, k - 1);
    }
  }

  /** What is durable is always one of those disks: no operation is durable by half. */
  lemma {:induction false} DurableIsOne(xs: seq<Spec>, steps: seq<Step>, g: Geometry, hist: seq<Disk>, k: nat)
      returns (q: nat)
    requires Follows(xs, steps, g, hist, k)
    ensures q <= EndCount(steps, k) < |hist| && Shows(g, xs[k].durable, hist[q])
    decreases k
  {
    BetweenOps(xs, steps, g, hist, k);
    q := 0;
    if k > 0 {
      q := DurableIsOne(xs, steps, g, hist, k - 1);
      BetweenOps(xs, steps, g, hist, k - 1);
      assert OpAt(xs, steps, g, hist, k - 1);
      assert SpecAt(xs, steps, k - 1);
      if steps[k - 1].WriteHeadStep? {
        q := EndCount(steps, k - 1);
      }
    }
  }

  // ---------- the file system's calls as steps of the log ----------

  /** The updates among the first k steps. */
  function Updates(steps: seq<Step>, k: nat): seq<Update>
    requires k <= |steps|
  {
    if k == 0 then [] else Updates(steps, k - 1) + if steps[k - 1].Modify? then
      [Update(steps[k - 1].b, steps[k - 1].v)] else []
  }

  /** Step m is no crash; an operation is thread a's; an update is the next of t, and an
      operation ends where t has it. */
  ghost predicate CallAt(steps: seq<Step>, a: nat, t: Trace, m: nat)
    requires m < |steps|
  {
    && !steps[m].Crash?
    && (steps[m].BeginOp? || steps[m].Modify? || steps[m].EndOp? ==> steps[m].a == a)
    && (steps[m].Modify? ==>
          |Updates(steps, m)| < |t.updates| && t.updates[|Updates(steps, m)|] == Update(steps[m].b, steps[m].v))
    && (steps[m].EndOp? ==> EndCount(steps, m) < |t.marks| && t.marks[EndCount(steps, m)] == |Updates(steps, m)|)
  }

  /** For k steps thread a alone makes the calls of t, in their order, as far as it gets. */
  ghost predicate Performs(steps: seq<Step>, a: nat, t: Trace, k: nat) {
    k <= |steps| && forall m :: 0 <= m < k ==> CallAt(steps, a, t, m)
  }

  lemma {:induction false} UpdatesPrefix(steps: seq<Step>, a: nat, t: Trace, k: nat)
    requires Performs(steps, a, t, k)
    ensures |Updates(steps, k)| <= |t.updates| && Updates(steps, k) == t.updates[..|Updates(steps, k)|]
  {
    if k > 0 {
      UpdatesPrefix(steps, a, t, k - 1);
      assert CallAt(steps, a, t, k - 1);
    }
  }

  lemma ReplayMore(d: Disk, us: seq<Update>, u: Update)
    requires 0 <= u.b < |d|
    ensures Replay(d, us + [u]) == Replay(d, us)[u.b := u.v]
  {
    assert (us + [u])[..|us|] == us;
  }

  /** One step moves what is seen as it moves the replayed disk. */
  lemma ShowsStep(g: Geometry, x: Spec, step: Step, x': Spec, d: Disk, us: seq<Update>)
    requires SpecNext(x, step, x') && !step.Crash? && Shows(g, x.volatile, Replay(d, us)) &&
      (step.Modify? ==> g.Home(step.b))
    ensures Shows(g, x'.volatile, Replay(d, us + if step.Modify? then [Update(step.b, step.v)] else []))
  {
    if step.Modify? {
      ReplayMore(d, us, Update(step.b, step.v));
    } else {
      assert us + [] == us;
    }
  }

  ghost predicate HomeOnly(g: Geometry, steps: seq<Step>, k: nat) {
    k <= |steps| && forall m :: 0 <= m < k && steps[m].Modify? ==> g.Home(steps[m].b)
  }

  /** What is seen is the first disk with the updates so far, and only a can have an operation open. */
  lemma {:induction false} SeenSoFar(xs: seq<Spec>, steps: seq<Step>, g: Geometry, d: Disk, a: nat, t: Trace, k: nat)
    requires SpecRun(xs, steps) && xs[0].active == {} && Shows(g, xs[0].volatile, d) && Performs(steps, a, t, k)
    requires HomeOnly(g, steps, k)
    ensures Shows(g, xs[k].volatile, Replay(d, Updates(steps, k))) && xs[k].active <= {a}
    decreases k
  {
    if k > 0 {
      SeenSoFar(xs, steps, g, d, a, t, k - 1);
      assert CallAt(steps, a, t, k - 1);
      assert SpecAt(xs, steps, k - 1);
      ShowsStep(g, xs[k - 1], steps[k - 1], xs[k], d, Updates(steps, k - 1));
    }
  }

  /** The disks of t: the first, then one for each end_op. */
  ghost predicate HistOf(d: Disk, ends: seq<Disk>, hist: seq<Disk>) {
    |hist| == |ends| + 1 && hist[0] == d && forall q :: 0 <= q < |ends| ==> hist[q + 1] == ends[q]
  }

  lemma OpIs(xs: seq<Spec>, steps: seq<Step>, g: Geometry, d: Disk, a: nat, t: Trace, ends: seq<Disk>, d': Disk,
      hist: seq<Disk>, m: nat)
    requires SpecRun(xs, steps) && xs[0].active == {} && Shows(g, xs[0].volatile, d) && m < |steps| &&
      Performs(steps, a, t, m)
    requires CallAt(steps, a, t, m) && TraceOk(d, t, ends, d') && HistOf(d, ends, hist)
    requires HomeOnly(g, steps, m)
    ensures OpAt(xs, steps, g, hist, m)
  {
    SeenSoFar(xs, steps, g, d, a, t, m);
    if steps[m].EndOp? {
      assert SpecAt(xs, steps, m);
      UpdatesPrefix(steps, a, t, m);
      assert LeadsTo(d, t, ends, d', EndCount(steps, m));
    }
  }

  /** So the file system goes along the disks of t, an operation at a time. */
  lemma PerformsFollows(xs: seq<Spec>, steps: seq<Step>, g: Geometry, d: Disk, a: nat, t: Trace, ends: seq<Disk>,
      d': Disk, hist: seq<Disk>, k: nat)
    requires SpecRun(xs, steps) && xs[0].active == {} && Shows(g, xs[0].volatile, d) && xs[0].durable == xs[0].volatile
    requires Performs(steps, a, t, k) && TraceOk(d, t, ends, d') && HistOf(d, ends, hist)
    requires HomeOnly(g, steps, k)
    ensures Follows(xs, steps, g, hist, k)
  {
    forall m | 0 <= m < k ensures OpAt(xs, steps, g, hist, m) {
      assert CallAt(steps, a, t, m);
      OpIs(xs, steps, g, d, a, t, ends, d', hist, m);
    }
  }

  // ---------- the crash ----------

  lemma ModifyHome(g: Geometry, ss: seq<State>, steps: seq<Step>, m: nat)
    requires SafeRun(g, ss, steps) && m < |steps| && steps[m].Modify?
    ensures g.Home(steps[m].b)
  {
    InvRun(g, ss, steps, m);
    assert StepAt(g, ss, steps, m);
  }

  lemma SpecRunFrom(xs: seq<Spec>, steps: seq<Step>, k: nat)
    requires SpecRun(xs, steps) && k <= |steps|
    ensures SpecRun(xs[k..], steps[k..])
  {
    forall m | 0 <= m < |steps| - k ensures SpecAt(xs[k..], steps[k..], m) {
      assert SpecAt(xs, steps, k + m);
    }
  }

  /** Between operations at step k, the memory shows disk d; then thread a makes the calls of t. */
  ghost predicate Calls(g: Geometry, ss: seq<State>, steps: seq<Step>, k: nat, i: nat, a: nat, d: Disk, t: Trace) {
    && SafeRun(g, ss, steps) && k <= i <= |steps| && Between(ss[k]) && |ss[k].disk| == |d| == g.nblocks
    && (forall b :: g.Home(b) ==> View(ss[k], b) == d[b])
    && Performs(steps[k..], a, t, i - k)
  }

  lemma DurableFrom(xs: seq<Spec>, steps: seq<Step>, k: nat, i: nat, g: Geometry, a: nat, d: Disk, t: Trace,
      ends: seq<Disk>, d': Disk, hist: seq<Disk>)
    returns (q: nat)
    requires SpecRun(xs, steps) && k <= i <= |steps| && Performs(steps[k..], a, t, i - k) &&
      HomeOnly(g, steps[k..], i - k)
    requires xs[k].active == {} && Shows(g, xs[k].volatile, d) && xs[k].durable == xs[k].volatile
    requires TraceOk(d, t, ends, d') && HistOf(d, ends, hist)
    ensures q < |hist| && Shows(g, xs[i].durable, hist[q])
  {
    SpecRunFrom(xs, steps, k);
    PerformsFollows(xs[k..], steps[k..], g, d, a, t, ends, d', hist, i - k);
    q := DurableIsOne(xs[k..], steps[k..], g, hist, i - k);
    assert xs[k..][i - k] == xs[i];
  }

  lemma CallsHome(g: Geometry, ss: seq<State>, steps: seq<Step>, k: nat, i: nat)
    requires SafeRun(g, ss, steps) && k <= i <= |steps|
    ensures HomeOnly(g, steps[k..], i - k)
  {
    forall n | 0 <= n < i - k && steps[k..][n].Modify? ensures g.Home(steps[k..][n].b) {
      ModifyHome(g, ss, steps, k + n);
    }
  }

  /** At any moment of those calls, what is durable is one of the disks between operations. */
  lemma DurableInCalls(g: Geometry, ss: seq<State>, steps: seq<Step>, k: nat, i: nat, a: nat, d: Disk, t: Trace,
      ends: seq<Disk>, d': Disk, hist: seq<Disk>)
    returns (q: nat)
    requires Calls(g, ss, steps, k, i, a, d, t) && TraceOk(d, t, ends, d') && HistOf(d, ends, hist)
    ensures q < |hist| && GoodDisk(g, ss[i].disk) && Shows(g, Durable(g, ss[i].disk), hist[q])
  {
    RunRefines(g, ss, steps);
    DurableBetween(g, ss, steps, k);
    CallsHome(g, ss, steps, k, i);
    q := DurableFrom(AbsRun(g, ss), steps, k, i, g, a, d, t, ends, d', hist);
  }

  /** After a crash in the midst of those calls, and recovery, the disk is one of those between
      operations, in all blocks outside the log. */
  lemma RecoversOne(g: Geometry, ss: seq<State>, steps: seq<Step>, k: nat, i: nat, j: nat, a: nat, d: Disk, t: Trace,
      ends: seq<Disk>, d': Disk, hist: seq<Disk>)
    returns (q: nat)
    requires Calls(g, ss, steps, k, i, a, d, t) && TraceOk(d, t, ends, d') && HistOf(d, ends, hist) && i < j < |ss|
    requires steps[i].Crash? && ss[j].phase.Running? && forall m :: i < m < j ==> Booting(ss[m].phase)
    ensures q < |hist| && |hist[q]| == |ss[j].disk| == g.nblocks &&
      forall b :: g.Home(b) ==> ss[j].disk[b] == hist[q][b]
  {
    q := DurableInCalls(g, ss, steps, k, i, a, d, t, ends, d', hist);
    InvRun(g, ss, steps, j);
    forall b | g.Home(b) ensures ss[j].disk[b] == hist[q][b] {
      RecoveryRestores(g, ss, steps, i, j, b);
      assert Durable(g, ss[i].disk)[b] == DurableAt(g, ss[i].disk, b);
    }
  }

  /** A power failure at any moment of filewrite, in any run, and recovery: the disk is sound,
      the file holds the old contents with src written up to the end of some chunk, and every
      other file is as it was.  tr, t and ends are what FileWrite leaves: its trail, its calls
      and the disks of its end_ops. */
  lemma CrashInWrite(g: Geometry, sb: Super, ss: seq<State>, steps: seq<Step>, k: nat, i: nat, j: nat, a: nat,
                     tr: seq<Snap>, t: Trace, ends: seq<Disk>, d': Disk, inum: nat, off: nat, src: seq<Byte>)
    requires Trail(sb, tr, inum, off, src) && Ending(tr, [], ends) && TraceOk(tr[0].d, t, ends, d')
    requires sb.Valid() && sb.size == g.nblocks && g.start + g.size <= sb.inodestart
    requires Calls(g, ss, steps, k, i, a, tr[0].d, t) && i < j < |ss|
    requires steps[i].Crash? && ss[j].phase.Running? && forall m :: i < m < j ==> Booting(ss[m].phase)
    ensures SomeChunk(sb, tr[0].d, ss[j].disk, inum, off, src)
  {
    var hist := seq(|tr|, q requires 0 <= q < |tr| => tr[q].d);
    var q := RecoversOne(g, ss, steps, k, i, j, a, tr[0].d, t, ends, d', hist);
    TrailChunk(sb, tr, inum, off, src, q);
    var n :| ChunkEnd(src, n) && AtChunk(sb, tr[0].d, tr[q].d, inum, off, src, n);
    assert SameFrom(sb, tr[q].d, ss[j].disk) by {
      forall b | sb.inodestart <= b < sb.size ensures ss[j].disk[b] == tr[q].d[b] { assert g.Home(b); }
    }
    ChunkFrame(sb, tr[0].d, tr[q].d, ss[j].disk, inum, off, src, n);
  }
}
