// The redo log of Ass2/log.c over the buffer cache of Ass2/bio.c, as a transition
// system.  Every bwrite is one atomic disk step and a crash may follow any step.

module LogModel {
  import opened Basics
  import opened Params
  import opened Codec

  /** log.start, log.size and the number of blocks of the device. */
  datatype Geometry = Geometry(start: nat, size: nat, nblocks: nat) {
    predicate Valid() {
      size > 0 && start + size <= nblocks <= WORD_LIMIT
    }

    /** A block outside the log: the ones the file system reads and writes. */
    predicate Home(b: int) {
      0 <= b < nblocks && !(start <= b < start + size)
    }
  }

  /** A cached buffer.  Being in the cache means B_VALID. */
  datatype Buf = Buf(data: Block, dirty: bool)

  /** One file system call: outside begin_op/end_op, or inside with the blocks it has
      passed to log_write and the block whose "too big" test it has just passed. */
  datatype Op = Idle | Active(wrote: set<int>, checked: Option<int>)

  /** Where the single committer, or the recovery at boot, stands. */
  datatype Phase =
    | Running
    | WriteLog(tail: nat)
    | WriteHead
    | Install(tail: nat)
    | ClearHead
    | CommitDone
    | Boot
    | BootInstall(tail: nat)
    | BootClear
    | Halted

  datatype State = State(
    disk: seq<Block>,
    cache: map<int, Buf>,
    lock: map<int, nat>,   // sleep lock of a buffer -> the thread that holds it
    lh: seq<int>,          // log.lh.block[0..log.lh.n]
    ops: seq<Op>,          // one per thread
    phase: Phase)

  datatype Step =
    | BeginOp(a: nat)
    | Bread(a: nat, b: int)
    | Modify(a: nat, b: int, v: Block)
    | LogCheck(a: nat, b: int)
    | LogAppend(a: nat, b: int)
    | Brelse(a: nat, b: int)
    | Evict(b: int)
    | EndOp(a: nat)
    | WriteLogStep
    | WriteHeadStep
    | InstallStep
    | ClearStep
    | DoneStep
    | Crash
    | BootRead
    | BootInstallStep

  /** What bread(b) returns: the cached copy, or the block read from the disk. */
  function View(s: State, b: int): Block
    requires 0 <= b < |s.disk|
  {
    if b in s.cache then s.cache[b].data else s.disk[b]
  }

  /** struct logheader laid over a block: word 0 is n, words 1..n the block numbers. */
  predicate GoodHeader(h: Block) {
    WordAt(h, 0) <= LOGSIZE
  }

  function Header(h: Block): seq<int>
    requires GoodHeader(h)
  {
    seq(WordAt(h, 0), i requires 0 <= i < WordAt(h, 0) => WordAt(h, 1 + i))
  }

  /** write_head overwrites only n and the first n entries of the header buffer. */
  function Encode(was: Block, blocks: seq<int>): (h: Block)
    requires |blocks| <= LOGSIZE && Fits32(blocks)
    ensures GoodHeader(h) && Header(h) == blocks
  {
    PutWords(SetWord(was, 0, |blocks|), 1, blocks)
  }

  function Outstanding(ops: seq<Op>): nat {
    if ops == [] then 0 else (if ops[0].Active? then 1 else 0) + Outstanding(ops[1..])
  }

  predicate Holds(s: State, a: nat) {
    exists b :: b in s.lock && s.lock[b] == a
  }

  predicate Booting(p: Phase) {
    p.Boot? || p.BootInstall? || p.BootClear?
  }

  predicate Unlocked(s: State, b: int) {
    b !in s.lock
  }

  /** bread(b): load the block into the cache unless it is there. */
  function Load(s: State, b: int): State
    requires 0 <= b < |s.disk|
  {
    if b in s.cache then s else s.(cache := s.cache[b := Buf(s.disk[b], false)])
  }

  /** bread(b), overwrite the data with v, bwrite: disk and clean cached copy become v. */
  function Put(s: State, b: int, v: Block): State
    requires 0 <= b < |s.disk|
  {
    s.(disk := s.disk[b := v], cache := s.cache[b := Buf(v, false)])
  }

  // ---------- the steps ----------

  /** begin_op: admitted only while the log has room for one more whole operation. */
  predicate NextBeginOp(s: State, s': State, a: nat) {
    && s.phase.Running? && a < |s.ops| && s.ops[a].Idle?
    && |s.lh| + (Outstanding(s.ops) + 1) * MAXOPBLOCKS <= LOGSIZE
    && s' == s.(ops := s.ops[a := Active({}, None)])
  }

  /** bread by any thread, readers outside operations included. */
  predicate NextBread(g: Geometry, s: State, s': State, a: nat, b: int) {
    && !s.phase.Halted? && !Booting(s.phase)
    && g.Home(b) && b < |s.disk| && Unlocked(s, b)
    && s' == Load(s, b).(lock := s.lock[b := a])
  }

  /** An operation changes the data of a buffer it has locked. */
  predicate NextModify(s: State, s': State, a: nat, b: int, v: Block) {
    && !s.phase.Halted? && a < |s.ops| && s.ops[a].Active?
    && b in s.lock && s.lock[b] == a && b in s.cache
    && s' == s.(cache := s.cache[b := s.cache[b].(data := v)])
  }

  /** log_write up to the acquire: the two tests, without log.lock.  A caller passes
      at most MAXOPBLOCKS different blocks per operation. */
  predicate NextLogCheck(g: Geometry, s: State, s': State, a: nat, b: int) {
    && !s.phase.Halted? && a < |s.ops| && s.ops[a].Active? && s.ops[a].checked.None?
    && b in s.lock && s.lock[b] == a && |s.ops[a].wrote + {b}| <= MAXOPBLOCKS
    && s' == if |s.lh| >= LOGSIZE || |s.lh| >= g.size - 1
             then s.(phase := Halted)                                // "too big a transaction"
             else s.(ops := s.ops[a := s.ops[a].(checked := Some(b))])
  }

  /** log_write under log.lock: absorb or append, and pin the buffer. */
  predicate NextLogAppend(s: State, s': State, a: nat, b: int) {
    && !s.phase.Halted? && a < |s.ops| && s.ops[a].Active? && s.ops[a].checked == Some(b)
    && b in s.cache
    && s' == s.(lh := if b in s.lh then s.lh else s.lh + [b],
                cache := s.cache[b := s.cache[b].(dirty := true)],
                ops := s.ops[a := Active(s.ops[a].wrote + {b}, None)])
  }

  /** brelse: a changed buffer has been passed to log_write first. */
  predicate NextBrelse(s: State, s': State, a: nat, b: int) {
    && !s.phase.Halted? && b in s.lock && s.lock[b] == a && b in s.cache && 0 <= b < |s.disk|
    && (s.cache[b].dirty || s.cache[b].data == s.disk[b])
    && (a < |s.ops| && s.ops[a].Active? ==> s.ops[a].checked != Some(b))
    && s' == s.(lock := s.lock - {b})
  }

  /** bget recycles a buffer: never a locked or a dirty one. */
  predicate NextEvict(s: State, s': State, b: int) {
    && !s.phase.Halted? && b in s.cache && !s.cache[b].dirty && Unlocked(s, b)
    && s' == s.(cache := s.cache - {b})
  }

  /** end_op: the last one out becomes the committer. */
  predicate NextEndOp(s: State, s': State, a: nat) {
    && !s.phase.Halted? && a < |s.ops| && s.ops[a].Active? && s.ops[a].checked.None? && !Holds(s, a)
    && var ops := s.ops[a := Idle];
       s' == if !s.phase.Running? then s.(phase := Halted)           // "log.committing"
             else s.(ops := ops,
                     phase := if Outstanding(ops) != 0 then Running
                              else if |s.lh| > 0 then WriteLog(0) else CommitDone)
  }

  /** One iteration of write_log: cached block lh[t] to log slot t. */
  predicate NextWriteLog(g: Geometry, s: State, s': State) {
    && s.phase.WriteLog? && s.phase.tail < |s.lh|
    && var t := s.phase.tail;
    && Unlocked(s, s.lh[t]) && 0 <= s.lh[t] < |s.disk| && g.start + 1 + t < |s.disk|
    && var s1 := Load(s, s.lh[t]);
    && s' == Put(s1, g.start + 1 + t, View(s1, s.lh[t])).(
             phase := if t + 1 < |s.lh| then WriteLog(t + 1) else WriteHead)
  }

  /** write_head with the logged block numbers: the commit point. */
  predicate NextWriteHead(g: Geometry, s: State, s': State) {
    && s.phase.WriteHead? && g.start < |s.disk|
    && |s.lh| <= LOGSIZE && Fits32(s.lh)
    && s' == Put(s, g.start, Encode(View(s, g.start), s.lh)).(phase := Install(0))
  }

  /** The body of install_trans's loop: log slot t to home block lh[t]. */
  predicate CopyHome(g: Geometry, s: State, s': State, t: nat, next: Phase) {
    && t < |s.lh| && Unlocked(s, s.lh[t]) && 0 <= s.lh[t] < |s.disk| && g.start + 1 + t < |s.disk|
    && var s1 := Load(s, g.start + 1 + t);
    && s' == Put(s1, s.lh[t], View(s1, g.start + 1 + t)).(phase := next)
  }

  predicate NextInstall(g: Geometry, s: State, s': State) {
    && s.phase.Install?
    && CopyHome(g, s, s', s.phase.tail,
                if s.phase.tail + 1 < |s.lh| then Install(s.phase.tail + 1) else ClearHead)
  }

  /** lh.n = 0; write_head: erase the transaction. */
  predicate NextClear(g: Geometry, s: State, s': State) {
    && (s.phase.ClearHead? || s.phase.BootClear?) && g.start < |s.disk|
    && s' == Put(s, g.start, Encode(View(s, g.start), [])).(
             lh := [], phase := if s.phase.ClearHead? then CommitDone else Running)
  }

  /** commit has returned; committing = 0. */
  predicate NextDone(s: State, s': State) {
    s.phase.CommitDone? && s' == s.(phase := Running)
  }

  /** Power loss (or a reset after a panic): everything but the disk is gone. */
  predicate NextCrash(s: State, s': State) {
    s' == State(s.disk, map[], map[], [], seq(|s.ops|, i => Idle), Boot)
  }

  /** read_head at boot. */
  predicate NextBootRead(g: Geometry, s: State, s': State) {
    && s.phase.Boot? && g.start < |s.disk| && GoodHeader(View(s, g.start))
    && var lh := Header(View(s, g.start));
    && s' == Load(s, g.start).(lh := lh, phase := if |lh| > 0 then BootInstall(0) else BootClear)
  }

  predicate NextBootInstall(g: Geometry, s: State, s': State) {
    && s.phase.BootInstall?
    && CopyHome(g, s, s', s.phase.tail,
                if s.phase.tail + 1 < |s.lh| then BootInstall(s.phase.tail + 1) else BootClear)
  }

  predicate Next(g: Geometry, s: State, step: Step, s': State) {
    match step
    case BeginOp(a) => NextBeginOp(s, s', a)
    case Bread(a, b) => NextBread(g, s, s', a, b)
    case Modify(a, b, v) => NextModify(s, s', a, b, v)
    case LogCheck(a, b) => NextLogCheck(g, s, s', a, b)
    case LogAppend(a, b) => NextLogAppend(s, s', a, b)
    case Brelse(a, b) => NextBrelse(s, s', a, b)
    case Evict(b) => NextEvict(s, s', b)
    case EndOp(a) => NextEndOp(s, s', a)
    case WriteLogStep => NextWriteLog(g, s, s')
    case WriteHeadStep => NextWriteHead(g, s, s')
    case InstallStep => NextInstall(g, s, s')
    case ClearStep => NextClear(g, s, s')
    case DoneStep => NextDone(s, s')
    case Crash => NextCrash(s, s')
    case BootRead => NextBootRead(g, s, s')
    case BootInstallStep => NextBootInstall(g, s, s')
  }

  /** A machine switched on with an empty log. */
  predicate Init(g: Geometry, s: State) {
    |s.disk| == g.nblocks && g.start < g.nblocks && GoodHeader(s.disk[g.start]) && Header(s.disk[g.start]) == [] &&
    s.cache == map[] && s.lock == map[] && s.lh == [] && s.phase.Boot? &&
    (forall a :: 0 <= a < |s.ops| ==> s.ops[a].Idle?)
  }

  predicate StepAt(g: Geometry, ss: seq<State>, steps: seq<Step>, i: nat)
    requires i < |steps| && i + 1 < |ss|
  {
    Next(g, ss[i], steps[i], ss[i + 1])
  }

  /** ss[0], steps[0], ss[1], steps[1], ... is a run of the system. */
  ghost predicate IsRun(g: Geometry, ss: seq<State>, steps: seq<Step>) {
    |ss| == |steps| + 1 && Init(g, ss[0]) && forall i :: 0 <= i < |steps| ==> StepAt(g, ss, steps, i)
  }

  /** The logged blocks have their slots inside the log: in a log of more than LOGSIZE blocks
      always, in a shorter one if log_write's test keeps them there. */
  predicate SlotsFit(g: Geometry, s: State) {
    g.size > LOGSIZE || |s.lh| < g.size
  }

  ghost predicate SafeRun(g: Geometry, ss: seq<State>, steps: seq<Step>) {
    g.Valid() && IsRun(g, ss, steps) && forall i :: 0 <= i < |ss| ==> SlotsFit(g, ss[i])
  }

  lemma RunSnoc(g: Geometry, ss: seq<State>, steps: seq<Step>, step: Step, s': State)
    requires IsRun(g, ss, steps) && Next(g, ss[|ss| - 1], step, s')
    ensures IsRun(g, ss + [s'], steps + [step])
  {
    var ss', steps' := ss + [s'], steps + [step];
    forall i | 0 <= i < |steps'| ensures StepAt(g, ss', steps', i) {
      if i < |steps| {
        assert StepAt(g, ss, steps, i);
      }
    }
  }

  // ---------- what a crash would leave behind ----------

  /** Position of b in the header, or |h|. */
  function IndexOf(h: seq<int>, b: int): (i: nat)
    ensures i <= |h|
    ensures i < |h| ==> h[i] == b
    ensures forall j :: 0 <= j < i ==> h[j] != b
  {
    if h == [] || h[0] == b then 0 else 1 + IndexOf(h[1..], b)
  }

  /** The header on the disk is usable for recovery. */
  predicate GoodDisk(g: Geometry, d: seq<Block>) {
    && |d| == g.nblocks && g.Valid()
    && GoodHeader(d[g.start])
    && |Header(d[g.start])| < g.size && Distinct(Header(d[g.start]))
    && forall i :: 0 <= i < |Header(d[g.start])| ==> g.Home(Header(d[g.start])[i])
  }

  predicate Distinct(h: seq<int>) {
    forall i, j :: 0 <= i < j < |h| ==> h[i] != h[j]
  }

  /** Contents of home block b once the log on disk d has been replayed. */
  function DurableAt(g: Geometry, d: seq<Block>, b: int): Block
    requires GoodDisk(g, d) && g.Home(b)
  {
    var h := Header(d[g.start]);
    var i := IndexOf(h, b);
    if i < |h| then d[g.start + 1 + i] else d[b]
  }

  ghost function Durable(g: Geometry, d: seq<Block>): map<int, Block>
    requires GoodDisk(g, d)
  {
    map b | 0 <= b < g.nblocks && g.Home(b) :: DurableAt(g, d, b)
  }

  /** What the file system currently sees in the home blocks. */
  ghost function Volatile(g: Geometry, s: State): map<int, Block>
    requires |s.disk| == g.nblocks
  {
    map b | 0 <= b < g.nblocks && g.Home(b) :: View(s, b)
  }
}
