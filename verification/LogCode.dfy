// The code of Ass2/log.c as it is written: loops over a buffer cache and a disk.  A ghost
// trace records the transition system's state after every disk write and every critical
// section, so that the theorems about runs apply to what the loops do.

module LogCode {
  import opened Basics
  import opened Params
  import opened Codec
  import opened LogModel
  import opened LogInvariant
  import opened LogRefinement
  import opened LogTheorems

  /** What the loops need to know about a reachable state. */
  lemma Bounds(g: Geometry, ss: seq<State>, steps: seq<Step>)
    requires SafeRun(g, ss, steps)
    ensures var s := ss[|ss| - 1];
      && |s.disk| == g.nblocks && |s.lh| <= LOGSIZE && Fits32(s.lh)
      && (forall i :: 0 <= i < |s.lh| ==> 0 <= s.lh[i] < g.nblocks)
      && GoodHeader(View(s, g.start)) && |Header(View(s, g.start))| < g.size
  {
    InvRun(g, ss, steps, |ss| - 1);
  }

  lemma HeadBounds(g: Geometry, ss: seq<State>, steps: seq<Step>)
    requires SafeRun(g, ss, steps)
    ensures |ss[|ss| - 1].disk| == g.nblocks && Fits32(ss[|ss| - 1].lh)
  {
    InvRun(g, ss, steps, |ss| - 1);
  }

  /** One more block number in the header buffer. */
  lemma HeadMore(was: Block, block: seq<int>, i: nat)
    requires i < |block| <= LOGSIZE && Fits32(block)
    ensures PutWords(was, 1, block[..i + 1]) == SetWord(PutWords(was, 1, block[..i]), 1 + i, block[i])
  {
    assert block[..i + 1][..i] == block[..i];
  }

  class RedoLog {
    const g: Geometry
    var disk: seq<Block>
    var cache: map<int, Buf>
    var lock: map<int, nat>
    var n: nat                       // log.lh.n
    var block: seq<int>              // log.lh.block[LOGSIZE]
    var outstanding: nat
    var committing: bool
    ghost var ops: seq<Op>
    ghost var phase: Phase
    ghost var trace: seq<State>
    ghost var steps: seq<Step>

    /** A machine switched on, before initlog, with threads kernel threads and an empty log. */
    constructor (g: Geometry, disk: seq<Block>, threads: nat)
      requires g.Valid() && |disk| == g.nblocks && GoodHeader(disk[g.start]) && Header(disk[g.start]) == []
      ensures Valid() && this.g == g && this.disk == disk && phase == Boot && n == 0 && lock == map[] && trace == [St()]
    {
      this.g, this.disk, cache, lock, n := g, disk, map[], map[], 0;
      block, outstanding, committing := seq(LOGSIZE, i => 0), 0, false;
      ops, phase, steps := seq(threads, i => Idle), Boot, [];
      trace := [State(disk, map[], map[], [], seq(threads, i => Idle), Boot)];
    }

    ghost function St(): State
      reads this
      requires n <= |block|
    {
      State(disk, cache, lock, block[..n], ops, phase)
    }

    /** The fields are the last state of a run of the transition system. */
    ghost predicate Valid()
      reads this
    {
      && n <= LOGSIZE == |block| && SafeRun(g, trace, steps) && trace[|trace| - 1] == St()
    }

    /** log.outstanding and log.committing say what they should. */
    ghost predicate Counters()
      reads this
    {
      && outstanding == Outstanding(ops)
      && committing == (phase.WriteLog? || phase.WriteHead? || phase.Install? || phase.ClearHead? || phase.CommitDone?)
    }

    /** No thread has a logged block locked, so that commit's bread does not sleep. */
    ghost predicate LoggedFree()
      reads this
      requires n <= |block|
    {
      forall i :: 0 <= i < n ==> block[i] !in lock
    }

    ghost method Record(step: Step)
      requires n <= |block| && SafeRun(g, trace, steps) && Next(g, trace[|trace| - 1], step, St()) && SlotsFit(g, St())
      modifies this`trace, this`steps
      ensures SafeRun(g, trace, steps) && trace == old(trace) + [St()] && steps == old(steps) + [step]
      ensures St() == old(St())
    {
      RunSnoc(g, trace, steps, step, St());
      trace, steps := trace + [St()], steps + [step];
    }

    method Bread(b: int) returns (v: Block)
      requires 0 <= b < |disk|
      modifies this`cache
      ensures cache == (if b in old(cache) then old(cache) else old(cache)[b := Buf(disk[b], false)])
      ensures v == cache[b].data
    {
      if b !in cache {
        cache := cache[b := Buf(disk[b], false)];
      }
      v := cache[b].data;
    }

    method Bwrite(b: int, v: Block)
      requires 0 <= b < |disk|
      modifies this`disk, this`cache
      ensures disk == old(disk)[b := v] && cache == old(cache)[b := Buf(v, false)]
    {
      disk := disk[b := v];
      cache := cache[b := Buf(v, false)];
    }

    /** The loop of write_head: the first n block numbers into the header buffer. */
    method FillHead(buf: Block) returns (hb: Block)
      requires n <= LOGSIZE == |block| && Fits32(block[..n])
      ensures hb == Encode(buf, block[..n])
    {
      hb := SetWord(buf, 0, n);
      ghost var b0, lh := hb, block[..n];
      var i := 0;
      while i < n
        invariant 0 <= i <= n && hb == PutWords(b0, 1, lh[..i])
      {
        HeadMore(b0, lh, i);
        hb := SetWord(hb, 1 + i, block[i]);
        i := i + 1;
      }
      assert lh[..n] == lh;
    }

    /** write_head: n and the first n block numbers into the header buffer, then bwrite. */
    method WriteHead()
      requires n <= LOGSIZE == |block| && g.start < |disk| && Fits32(block[..n])
      modifies this`disk, this`cache
      ensures var was := old(View(St(), g.start)); var h := Encode(was, block[..n]);
        disk == old(disk)[g.start := h] && cache == old(cache)[g.start := Buf(h, false)]
    {
      var buf := Bread(g.start);
      var hb := FillHead(buf);
      Bwrite(g.start, hb);
    }

    /** read_head: n and the first n block numbers out of the header buffer. */
    method ReadHead()
      requires |block| == LOGSIZE && g.start < |disk| && n == 0
      requires GoodHeader(View(St(), g.start))
      modifies this`cache, this`n, this`block
      ensures |block| == LOGSIZE && n <= LOGSIZE && block[..n] == Header(old(View(St(), g.start)))
      ensures cache == old(Load(St(), g.start)).cache
    {
      var buf := Bread(g.start);
      n := WordAt(buf, 0);
      var i := 0;
      while i < n
        invariant 0 <= i <= n == WordAt(buf, 0) <= LOGSIZE == |block|
        invariant block[..i] == Header(buf)[..i]
        invariant cache == old(Load(St(), g.start)).cache
      {
        block := block[i := WordAt(buf, 1 + i)];
        i := i + 1;
        assert block[..i] == block[..i - 1] + [Header(buf)[i - 1]];
      }
    }

    /** The body of write_log's loop. */
    method CopyToLog(tail: nat)
      requires Valid() && phase == WriteLog(tail) && tail < n && LoggedFree()
      modifies this`disk, this`cache, this`phase, this`trace, this`steps
      ensures Valid() && phase == if tail + 1 < n then WriteLog(tail + 1) else Phase.WriteHead
      ensures steps == old(steps) + [WriteLogStep] && old(trace) <= trace
    {
      Bounds(g, trace, steps);
      ghost var s := St();
      var from := Bread(block[tail]);
      Bwrite(g.start + tail + 1, from);
      phase := if tail + 1 < n then WriteLog(tail + 1) else Phase.WriteHead;
      assert NextWriteLog(g, s, St());
      Record(WriteLogStep);
    }

    /** write_log: the cached copy of every logged block into its slot, one bwrite each. */
    method WriteLogBlocks()
      requires Valid() && phase == WriteLog(0) && n > 0 && LoggedFree()
      modifies this`disk, this`cache, this`phase, this`trace, this`steps
      ensures Valid() && phase == Phase.WriteHead
      ensures steps == old(steps) + seq(n, i => WriteLogStep) && old(trace) <= trace
    {
      var tail := 0;
      while tail < n
        invariant 0 <= tail <= n && Valid()
        invariant phase == if tail < n then WriteLog(tail) else Phase.WriteHead
        invariant steps == old(steps) + seq(tail, i => WriteLogStep) && old(trace) <= trace
      {
        CopyToLog(tail);
        tail := tail + 1;
      }
    }

    /** The body of install_trans's loop. */
    method CopyFromLog(tail: nat, ghost p0: Phase)
      requires Valid() && tail < n && LoggedFree()
      requires (p0.Install? || p0.BootInstall?) && phase == InstallPhase(p0, tail, n)
      modifies this`disk, this`cache, this`phase, this`trace, this`steps
      ensures Valid() && phase == InstallPhase(p0, tail + 1, n)
      ensures steps == old(steps) + [if p0.Install? then InstallStep else BootInstallStep] && old(trace) <= trace
    {
      Bounds(g, trace, steps);
      ghost var s := St();
      var lbuf := Bread(g.start + tail + 1);
      Bwrite(block[tail], lbuf);
      phase := InstallPhase(p0, tail + 1, n);
      assert CopyHome(g, s, St(), tail, phase);
      Record(if p0.Install? then InstallStep else BootInstallStep);
    }

    /** install_trans: every log slot to its home block, one bwrite each. */
    method InstallTrans()
      requires Valid() && n > 0 && LoggedFree()
      requires phase == Install(0) || phase == BootInstall(0)
      modifies this`disk, this`cache, this`phase, this`trace, this`steps
      ensures Valid() && phase == if old(phase).Install? then ClearHead else BootClear
      ensures steps == old(steps) + seq(n, i => if old(phase).Install? then InstallStep else BootInstallStep)
      ensures old(trace) <= trace
    {
      ghost var p0 := phase;
      var tail := 0;
      while tail < n
        invariant 0 <= tail <= n && Valid()
        invariant phase == InstallPhase(p0, tail, n)
        invariant steps == old(steps) + seq(tail, i => if p0.Install? then InstallStep else BootInstallStep)
        invariant old(trace) <= trace
      {
        CopyFromLog(tail, p0);
        tail := tail + 1;
      }
    }

    static ghost function InstallPhase(p0: Phase, t: nat, n: nat): Phase {
      if t < n then (if p0.Install? then Install(t) else BootInstall(t))
      else (if p0.Install? then ClearHead else BootClear)
    }

    /** lh.n = 0; write_head. */
    method Erase()
      requires Valid() && (phase == ClearHead || phase == BootClear)
      modifies this`disk, this`cache, this`phase, this`n, this`trace, this`steps
      ensures Valid() && n == 0 && phase == if old(phase).ClearHead? then CommitDone else Running
      ensures steps == old(steps) + [ClearStep] && old(trace) <= trace
    {
      Bounds(g, trace, steps);
      ghost var s := St();
      n := 0;
      WriteHead();
      phase := if phase.ClearHead? then CommitDone else Running;
      assert NextClear(g, s, St());
      Record(ClearStep);
    }

    /** commit's write_head: the commit point. */
    method WriteCommitRecord()
      requires Valid() && phase == Phase.WriteHead && n > 0 && LoggedFree()
      modifies this`disk, this`cache, this`phase, this`trace, this`steps
      ensures Valid() && phase == Install(0) && steps == old(steps) + [WriteHeadStep] && old(trace) <= trace
    {
      HeadBounds(g, trace, steps);
      ghost var s := St();
      WriteHead();
      phase := Install(0);
      assert NextWriteHead(g, s, St());
      Record(WriteHeadStep);
    }

    /** commit: write_log, write_head, install_trans, erase. */
    method Commit()
      requires Valid() && LoggedFree() && phase == if n > 0 then WriteLog(0) else CommitDone
      modifies this`disk, this`cache, this`phase, this`n, this`trace, this`steps
      ensures Valid() && phase == CommitDone && n == 0
      ensures old(n) == 0 ==> steps == old(steps)
      ensures old(n) > 0 ==> steps == old(steps) + seq(old(n), i => WriteLogStep) + [WriteHeadStep]
                                     + seq(old(n), i => InstallStep) + [ClearStep]
      ensures old(trace) <= trace
    {
      if n > 0 {
        WriteLogBlocks();
        WriteCommitRecord();
        InstallTrans();
        Erase();
      }
    }

    /** One round of begin_op's loop: admitted, or to sleep until a wakeup. */
    method BeginOp(a: nat) returns (admitted: bool)
      requires Valid() && Counters() && a < |ops| && ops[a].Idle? && !Booting(phase) && !phase.Halted?
      modifies this`outstanding, this`ops, this`trace, this`steps
      ensures Valid() && Counters() && old(trace) <= trace
      ensures admitted <==> old(phase).Running? && n + (old(outstanding) + 1) * MAXOPBLOCKS <= LOGSIZE
      ensures admitted ==> NextBeginOp(old(St()), St(), a)
      ensures !admitted ==> St() == old(St()) && outstanding == old(outstanding)
    {
      if committing {
        admitted := false;
      } else if n + (outstanding + 1) * MAXOPBLOCKS > LOGSIZE {
        admitted := false;
      } else {
        CountUpdate(ops, a, Active({}, None));
        ghost var s := St();
        outstanding := outstanding + 1;
        ops := ops[a := Active({}, None)];
        assert NextBeginOp(s, St(), a);
        Record(LogModel.BeginOp(a));
        admitted := true;
      }
    }

    /** log_write's search: the slot of b, or the first free one. */
    method FindSlot(b: int) returns (i: nat)
      requires n <= |block|
      ensures i == IndexOf(block[..n], b)
    {
      i := 0;
      while i < n && block[i] != b
        invariant 0 <= i <= n && b !in block[..i]
      {
        i := i + 1;
      }
    }

    /** log_write under log.lock: absorb or append, and pin the buffer. */
    method Append(a: nat, b: int)
      requires Valid() && !phase.Halted? && n < LOGSIZE && n < g.size - 1 && b in cache
      requires a < |ops| && ops[a].Active? && ops[a].checked == Some(b)
      modifies this`n, this`block, this`cache, this`ops, this`trace, this`steps
      ensures Valid() && old(trace) <= trace
      ensures block[..n] == if b in old(block[..n]) then old(block[..n]) else old(block[..n]) + [b]
      ensures cache == old(cache)[b := old(cache)[b].(dirty := true)]
      ensures ops == old(ops)[a := Active(old(ops)[a].wrote + {b}, None)]
    {
      ghost var s := St();
      var i := FindSlot(b);
      block := block[i := b];
      if i == n {
        n := n + 1;
      }
      cache := cache[b := cache[b].(dirty := true)];
      ops := ops[a := Active(ops[a].wrote + {b}, None)];
      assert block[..n] == if b in s.lh then s.lh else s.lh + [b];
      assert NextLogAppend(s, St(), a, b);
      Record(LogAppend(a, b));
    }

    /** log_write of a locked buffer by operation a; false is the panic. */
    method LogWrite(a: nat, b: int) returns (ok: bool)
      requires Valid() && !phase.Halted?
      requires a < |ops| && ops[a].Active? && ops[a].checked.None?
      requires b in lock && lock[b] == a && |ops[a].wrote + {b}| <= MAXOPBLOCKS
      modifies this`n, this`block, this`cache, this`ops, this`phase, this`trace, this`steps
      ensures Valid() && old(trace) <= trace
      ensures ok <==> old(n) < LOGSIZE && old(n) < g.size - 1
      ensures ok ==> block[..n] == if b in old(block[..n]) then old(block[..n]) else old(block[..n]) + [b]
      ensures ok ==> b in old(cache) && cache == old(cache)[b := old(cache)[b].(dirty := true)]
      ensures ok ==> ops == old(ops)[a := Active(old(ops)[a].wrote + {b}, None)] && phase == old(phase)
    {
      LogWriteBounds(g, trace, steps, b);
      ghost var s := St();
      if n >= LOGSIZE || n >= g.size - 1 {
        phase := Halted;
        assert NextLogCheck(g, s, St(), a, b);
        Record(LogCheck(a, b));
        return false;
      }
      ops := ops[a := ops[a].(checked := Some(b))];
      assert NextLogCheck(g, s, St(), a, b);
      Record(LogCheck(a, b));
      Append(a, b);
      ok := true;
    }

    /** end_op's critical section. */
    method LeaveOp(a: nat)
      requires Valid() && Counters() && !Holds(St(), a)
      requires a < |ops| && ops[a].Active? && ops[a].checked.None? && phase.Running?
      modifies this`outstanding, this`committing, this`ops, this`phase, this`trace, this`steps
      ensures Valid() && Counters() && old(trace) <= trace && steps == old(steps) + [LogModel.EndOp(a)]
      ensures outstanding == old(outstanding) - 1
      ensures phase == if outstanding != 0 then Running else if n > 0 then WriteLog(0) else CommitDone
    {
      CountUpdate(ops, a, Idle);
      ghost var s := St();
      outstanding := outstanding - 1;
      ops := ops[a := Idle];
      if outstanding == 0 {
        committing := true;
        phase := if n > 0 then WriteLog(0) else CommitDone;
      }
      assert NextEndOp(s, St(), a);
      Record(LogModel.EndOp(a));
    }

    /** commit, then committing = 0. */
    method CommitAndReopen()
      requires Valid() && Counters() && LoggedFree() && phase == if n > 0 then WriteLog(0) else CommitDone
      modifies this`committing, this`disk, this`cache, this`phase, this`n, this`trace, this`steps
      ensures Valid() && Counters() && old(trace) <= trace && phase == Running && |old(steps)| < |steps|
      ensures steps[|steps| - 1] == DoneStep && old(steps) <= steps && NoWrite(steps, |old(steps)|, |steps|)
    {
      Commit();
      committing := false;
      ghost var s := St();
      phase := Running;
      assert NextDone(s, St());
      Record(DoneStep);
    }

    /** The commit makes durable what was seen in state s, before the last operation left. */
    method CommitSeen(ghost k: nat, ghost s: State)
      requires Valid() && Counters() && LoggedFree() && phase == if n > 0 then WriteLog(0) else CommitDone
      requires k + 1 == |steps| && steps[k].EndOp? && trace[k] == s && s.phase.Running?
      modifies this`committing, this`disk, this`cache, this`phase, this`n, this`trace, this`steps
      ensures Valid() && Counters() && old(trace) <= trace && phase == Running
      ensures |s.disk| == |disk| == g.nblocks && Volatile(g, St()) == Volatile(g, s)
      ensures GoodDisk(g, disk) && Durable(g, disk) == Volatile(g, s)
    {
      CommitAndReopen();
      assert trace[k] == s && NoWrite(steps, k, |steps|);
      CommittedOp(g, trace, steps, k, s, St());
    }

    /** end_op: the last operation out commits, and what it saw is then durable. */
    method EndOp(a: nat)
      requires Valid() && Counters() && !Holds(St(), a) && (outstanding == 1 ==> LoggedFree())
      requires a < |ops| && ops[a].Active? && ops[a].checked.None? && !phase.Halted?
      modifies this`outstanding, this`committing, this`ops, this`disk, this`cache, this`phase, this`n, this`trace,
        this`steps
      ensures Valid() && Counters() && old(trace) <= trace && phase == Running
      ensures |old(disk)| == |disk| == g.nblocks && Volatile(g, St()) == old(Volatile(g, St()))
      ensures outstanding == old(outstanding) - 1
      ensures outstanding == 0 ==> GoodDisk(g, disk) && Durable(g, disk) == old(Volatile(g, St()))
    {
      EndOpBounds(g, trace, steps, a);
      ghost var k, s := |steps|, St();
      LeaveOp(a);
      assert trace[k] == s;
      if outstanding == 0 {
        CommitSeen(k, s);
      } else {
        VolatileSame(g, s, St());
      }
    }

    /** recover_from_log's read_head. */
    method ReadCommitRecord()
      requires Valid() && phase == Boot && n == 0 && lock == map[]
      modifies this`cache, this`phase, this`n, this`block, this`trace, this`steps
      ensures Valid() && phase == if n > 0 then BootInstall(0) else BootClear
      ensures old(trace) <= trace && steps == old(steps) + [BootRead]
    {
      Bounds(g, trace, steps);
      ghost var s := St();
      ReadHead();
      phase := if n > 0 then BootInstall(0) else BootClear;
      assert NextBootRead(g, s, St());
      Record(BootRead);
    }

    /** recover_from_log up to the erasing of the header. */
    method ReplayLog()
      requires Valid() && phase == Boot && n == 0 && lock == map[]
      modifies this`disk, this`cache, this`phase, this`n, this`block, this`trace, this`steps
      ensures Valid() && phase == BootClear
      ensures old(trace) <= trace && |old(steps)| < |steps| && NoCommit(steps, |old(steps)|, |steps|)
    {
      ReadCommitRecord();
      if n > 0 {
        InstallTrans();
      }
    }

    /** recover_from_log: from whatever a crash left to the durable contents. */
    method RecoverFromLog()
      requires Valid() && phase == Boot && n == 0 && lock == map[]
      modifies this`disk, this`cache, this`phase, this`n, this`block, this`trace, this`steps
      ensures Valid() && phase == Running && n == 0 && old(trace) <= trace
      ensures GoodDisk(g, old(disk)) && |disk| == g.nblocks
      ensures forall b :: g.Home(b) ==> disk[b] == View(St(), b) == DurableAt(g, old(disk), b)
    {
      ghost var k := |steps|;
      ReplayLog();
      Erase();
      RecoveredFrom(g, trace, steps, k);
    }

    /** A power failure now: all but the disk is gone. */
    method PowerFail()
      requires Valid()
      modifies this
      ensures Valid() && phase == Boot && n == 0 && lock == map[] && outstanding == 0 && !committing &&
        disk == old(disk)
    {
      ghost var s := St();
      cache, lock, n, outstanding, committing := map[], map[], 0, 0, false;
      ops, phase := seq(|ops|, i => Idle), Boot;
      assert NextCrash(s, St());
      Record(Crash);
    }

    /** A power failure now, followed by initlog. */
    method CrashAndReboot()
      requires Valid()
      modifies this
      ensures Valid() && phase == Running && n == 0 && lock == map[] && outstanding == 0 && !committing
      ensures GoodDisk(g, old(disk)) && |disk| == g.nblocks
      ensures forall b :: g.Home(b) ==> disk[b] == View(St(), b) == DurableAt(g, old(disk), b)
    {
      PowerFail();
      RecoverFromLog();
    }
  }

  lemma LogWriteBounds(g: Geometry, ss: seq<State>, steps: seq<Step>, b: int)
    requires SafeRun(g, ss, steps) && b in ss[|ss| - 1].lock
    ensures b in ss[|ss| - 1].cache
  {
    InvRun(g, ss, steps, |ss| - 1);
  }

  lemma EndOpBounds(g: Geometry, ss: seq<State>, steps: seq<Step>, a: nat)
    requires SafeRun(g, ss, steps) && !ss[|ss| - 1].phase.Halted?
    requires a < |ss[|ss| - 1].ops| && ss[|ss| - 1].ops[a].Active?
    ensures ss[|ss| - 1].phase.Running? && |ss[|ss| - 1].disk| == g.nblocks
  {
    InvRun(g, ss, steps, |ss| - 1);
  }

  /** From the last end_op to the end of its commit, what was seen becomes durable. */
  lemma CommittedOp(g: Geometry, ss: seq<State>, steps: seq<Step>, k: nat, s: State, s': State)
    requires SafeRun(g, ss, steps) && k < |steps| && NoWrite(steps, k, |steps|)
    requires steps[|steps| - 1].DoneStep? && ss[k] == s && s.phase.Running? && ss[|ss| - 1] == s'
    ensures |s.disk| == |s'.disk| == g.nblocks && GoodDisk(g, s'.disk)
    ensures Volatile(g, s') == Volatile(g, s) && Durable(g, s'.disk) == Volatile(g, s)
  {
    var m := |steps| - 1;
    SeenUnchanged(g, ss, steps, k, m);
    SeenUnchanged(g, ss, steps, k, m + 1);
    CommitReturned(g, ss, steps, m);
    RefineAt(g, ss, steps, m);
  }

  lemma SeenUnchanged(g: Geometry, ss: seq<State>, steps: seq<Step>, i: nat, k: nat)
    requires SafeRun(g, ss, steps) && i <= k < |ss| && NoWrite(steps, i, k)
    ensures |ss[i].disk| == |ss[k].disk| == g.nblocks
    ensures !Booting(ss[i].phase) && !Booting(ss[k].phase) ==> Volatile(g, ss[k]) == Volatile(g, ss[i])
  {
    RunRefines(g, ss, steps);
    VolatileStays(AbsRun(g, ss), steps, i, k);
  }

  lemma DurableSame(g: Geometry, ss: seq<State>, steps: seq<Step>, k: nat)
    requires SafeRun(g, ss, steps) && k < |ss| && NoCommit(steps, k, |steps|)
    ensures GoodDisk(g, ss[k].disk) && GoodDisk(g, ss[|ss| - 1].disk)
    ensures Durable(g, ss[|ss| - 1].disk) == Durable(g, ss[k].disk)
  {
    RunRefines(g, ss, steps);
    DurableStays(AbsRun(g, ss), steps, k, |steps|);
  }

  /** Between read_head and the erased header nothing durable is lost. */
  lemma RecoveredFrom(g: Geometry, ss: seq<State>, steps: seq<Step>, k: nat)
    requires SafeRun(g, ss, steps) && k < |steps|
    requires steps[|steps| - 1].ClearStep? && ss[|ss| - 1].phase.Running?
    requires NoCommit(steps, k, |steps|)
    ensures GoodDisk(g, ss[k].disk) && |ss[|ss| - 1].disk| == g.nblocks
    ensures forall b :: g.Home(b) ==>
      ss[|ss| - 1].disk[b] == View(ss[|ss| - 1], b) == DurableAt(g, ss[k].disk, b)
  {
    var m := |steps| - 1;
    DurableSame(g, ss, steps, k);
    assert StepAt(g, ss, steps, m);
    forall b | g.Home(b)
      ensures ss[m + 1].disk[b] == View(ss[m + 1], b) == DurableAt(g, ss[k].disk, b)
    {
      BootEndsAt(g, ss, steps, m, b);
      assert Durable(g, ss[m + 1].disk)[b] == Durable(g, ss[k].disk)[b];
    }
  }
}
