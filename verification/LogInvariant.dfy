// What every step of the redo log keeps.

module LogInvariant {
  import opened Basics
  import opened Params
  import opened Codec
  import opened LogModel

  /** Log slots an operation may still use. */
  function Rem(op: Op): int {
    if op.Active? then MAXOPBLOCKS - |op.wrote| else 0
  }

  function Budget(ops: seq<Op>): int {
    if ops == [] then 0 else Rem(ops[0]) + Budget(ops[1..])
  }

  lemma {:induction false} CountUpdate(ops: seq<Op>, a: nat, op: Op)
    requires a < |ops|
    ensures Outstanding(ops[a := op]) == Outstanding(ops) - (if ops[a].Active? then 1 else 0) +
      (if op.Active? then 1 else 0)
    ensures Budget(ops[a := op]) == Budget(ops) - Rem(ops[a]) + Rem(op)
  {
    if a == 0 {
      assert ops[a := op][1..] == ops[1..];
    } else {
      CountUpdate(ops[1..], a - 1, op);
      assert ops[a := op][1..] == ops[1..][a - 1 := op];
    }
  }

  lemma {:induction false} BudgetBound(ops: seq<Op>)
    ensures Budget(ops) <= Outstanding(ops) * MAXOPBLOCKS
  {
    if ops != [] { BudgetBound(ops[1..]); }
  }

  lemma {:induction false} NoneOutstanding(ops: seq<Op>)
    ensures Outstanding(ops) == 0 <==> forall i :: 0 <= i < |ops| ==> ops[i].Idle?
  {
    if ops != [] {
      NoneOutstanding(ops[1..]);
      assert forall i :: 1 <= i < |ops| ==> ops[i] == ops[1..][i - 1];
    }
  }

  lemma {:induction false} BudgetAtLeast(ops: seq<Op>, a: nat)
    requires a < |ops| && forall i :: 0 <= i < |ops| ==> Rem(ops[i]) >= 0
    ensures Budget(ops) >= Rem(ops[a])
  {
    if a > 0 {
      BudgetAtLeast(ops[1..], a - 1);
    } else if |ops| > 1 {
      BudgetAtLeast(ops[1..], 0);
    }
  }

  // ---------- the invariant ----------

  /** A buffer whose sleep lock is held by a thread inside an operation. */
  predicate OpLocked(s: State, b: int) {
    b in s.lock && s.lock[b] < |s.ops| && s.ops[s.lock[b]].Active?
  }

  ghost predicate Clean(s: State) {
    forall b :: b in s.cache && !s.cache[b].dirty && !OpLocked(s, b) ==>
      0 <= b < |s.disk| && s.cache[b].data == s.disk[b]
  }

  ghost predicate CacheOk(g: Geometry, s: State) {
    && (forall b :: b in s.cache ==> 0 <= b < g.nblocks)
    && (forall b :: b in s.lock ==> b in s.cache && g.Home(b))
    && (forall b :: b in s.cache && s.cache[b].dirty ==> b in s.lh)
  }

  ghost predicate LhOk(g: Geometry, s: State) {
    && |s.lh| <= LOGSIZE && |s.lh| < g.size
    && Distinct(s.lh)
    && forall i :: 0 <= i < |s.lh| ==> g.Home(s.lh[i])
  }

  predicate Pinned(s: State, b: int) {
    b in s.cache && s.cache[b].dirty
  }

  /** Log slots below t hold the current contents of their blocks. */
  ghost predicate Logged(g: Geometry, s: State, t: nat) {
    forall i :: 0 <= i < t && i < |s.lh| && g.start + 1 + i < |s.disk| && 0 <= s.lh[i] < |s.disk| ==>
      s.disk[g.start + 1 + i] == View(s, s.lh[i])
  }

  /** Blocks below t have been copied home; the others are still pinned dirty. */
  ghost predicate Installed(g: Geometry, s: State, t: nat) {
    forall i :: 0 <= i < t && i < |s.lh| && g.start + 1 + i < |s.disk| && 0 <= s.lh[i] < |s.disk| ==>
      s.disk[s.lh[i]] == s.disk[g.start + 1 + i]
  }

  ghost predicate PinnedFrom(s: State, t: nat) {
    forall i :: t <= i < |s.lh| ==> Pinned(s, s.lh[i])
  }

  ghost predicate UnpinnedBelow(s: State, t: nat) {
    forall i :: 0 <= i < t && i < |s.lh| ==> !Pinned(s, s.lh[i])
  }

  ghost predicate NothingDirty(s: State) {
    forall b :: b in s.cache ==> !s.cache[b].dirty
  }

  ghost predicate AllIdle(s: State) {
    forall a :: 0 <= a < |s.ops| ==> s.ops[a].Idle?
  }

  ghost predicate OpsOk(s: State) {
    forall a :: 0 <= a < |s.ops| && s.ops[a].Active? ==>
      && |s.ops[a].wrote| <= MAXOPBLOCKS
      && (forall b :: b in s.ops[a].wrote ==> b in s.lh)
      && (s.ops[a].checked.Some? ==>
            var b := s.ops[a].checked.value;
            b in s.lock && s.lock[b] == a && |s.ops[a].wrote + {b}| <= MAXOPBLOCKS)
  }

  ghost predicate PhaseOk(g: Geometry, s: State)
    requires GoodDisk(g, s.disk)
  {
    var h := Header(s.disk[g.start]);
    match s.phase
    case Running => h == [] && PinnedFrom(s, 0) && |s.lh| + Budget(s.ops) <= LOGSIZE
    case Halted => h == [] && PinnedFrom(s, 0) && |s.lh| + Budget(s.ops) <= LOGSIZE
    case WriteLog(t) => AllIdle(s) && h == [] && t < |s.lh| && PinnedFrom(s, 0) && Logged(g, s, t)
    case WriteHead => AllIdle(s) && h == [] && PinnedFrom(s, 0) && |s.lh| > 0 && Logged(g, s, |s.lh|)
    case Install(t) => AllIdle(s) && h == s.lh && t < |s.lh| && PinnedFrom(s, t) && Logged(g, s, |s.lh|) &&
      Installed(g, s, t) && UnpinnedBelow(s, t)
    case ClearHead => AllIdle(s) && h == s.lh && Logged(g, s, |s.lh|) && Installed(g, s, |s.lh|) && NothingDirty(s)
    case CommitDone => AllIdle(s) && h == [] && s.lh == []
    case Boot => AllIdle(s) && s.lh == [] && s.cache == map[] && s.lock == map[]
    case BootInstall(t) => AllIdle(s) && s.lh == h && t < |s.lh| && NothingDirty(s) && s.lock == map[] &&
      Installed(g, s, t)
    case BootClear => AllIdle(s) && s.lh == h && NothingDirty(s) && s.lock == map[] && Installed(g, s, |s.lh|)
  }

  ghost predicate Inv(g: Geometry, s: State) {
    && GoodDisk(g, s.disk)
    && CacheOk(g, s) && LhOk(g, s) && Clean(s) && OpsOk(s)
    && PhaseOk(g, s)
  }

  lemma InvInit(g: Geometry, s: State)
    requires g.Valid() && Init(g, s)
    ensures Inv(g, s)
  {
  }

  lemma InvBeginOp(g: Geometry, s: State, s': State, a: nat)
    requires Inv(g, s) && NextBeginOp(s, s', a)
    ensures Inv(g, s')
  {
    CountUpdate(s.ops, a, Active({}, None));
    BudgetBound(s.ops);
  }

  /** A step that leaves disk, log header, operations and cached contents alone. */
  lemma PhaseFrame(g: Geometry, s: State, s': State)
    requires GoodDisk(g, s.disk) && LhOk(g, s) && PhaseOk(g, s) && !Booting(s.phase)
    requires s'.disk == s.disk && s'.lh == s.lh && s'.ops == s.ops && s'.phase == s.phase
    requires forall b :: 0 <= b < |s.disk| ==> View(s', b) == View(s, b)
    requires forall b :: Pinned(s, b) <==> Pinned(s', b)
    ensures PhaseOk(g, s')
  {
    if s.phase.ClearHead? {
      forall b | b in s'.cache ensures !s'.cache[b].dirty {
        assert !Pinned(s, b);
      }
    }
  }

  lemma LockFrame(g: Geometry, s: State, a: nat, b: int)
    requires CacheOk(g, s) && Clean(s) && OpsOk(s) && b in s.cache && g.Home(b) && Unlocked(s, b)
    ensures var s' := s.(lock := s.lock[b := a]); CacheOk(g, s') && Clean(s') && OpsOk(s')
  {
  }

  /** bread changes neither what anyone sees nor what is pinned. */
  lemma LoadFrame(g: Geometry, s: State, b: int)
    requires CacheOk(g, s) && Clean(s) && OpsOk(s)
    requires |s.disk| == g.nblocks && 0 <= b < g.nblocks
    ensures var s' := Load(s, b); CacheOk(g, s') && Clean(s') && OpsOk(s') && b in s'.cache
    ensures forall c :: 0 <= c < |s.disk| ==> View(Load(s, b), c) == View(s, c)
    ensures forall c :: Pinned(Load(s, b), c) <==> Pinned(s, c)
  {
  }

  lemma InvBread(g: Geometry, s: State, s': State, a: nat, b: int)
    requires Inv(g, s) && NextBread(g, s, s', a, b)
    ensures Inv(g, s')
  {
    LoadFrame(g, s, b);
    LockFrame(g, Load(s, b), a, b);
    PhaseFrame(g, s, s');
  }

  lemma InvModify(g: Geometry, s: State, s': State, a: nat, b: int, v: Block)
    requires Inv(g, s) && NextModify(s, s', a, b, v)
    ensures Inv(g, s')
  {
  }

  lemma InvLogCheck(g: Geometry, s: State, s': State, a: nat, b: int)
    requires Inv(g, s) && NextLogCheck(g, s, s', a, b)
    ensures Inv(g, s')
  {
    CountUpdate(s.ops, a, s.ops[a].(checked := Some(b)));
  }

  lemma AppendCache(g: Geometry, s: State, s': State, a: nat, b: int)
    requires CacheOk(g, s) && Clean(s) && OpsOk(s) && NextLogAppend(s, s', a, b)
    ensures CacheOk(g, s') && Clean(s')
  {
  }

  lemma AppendLh(g: Geometry, s: State, s': State, a: nat, b: int)
    requires LhOk(g, s) && OpsOk(s) && CacheOk(g, s) && NextLogAppend(s, s', a, b)
    requires |s'.lh| <= LOGSIZE && |s'.lh| < g.size
    ensures LhOk(g, s')
  {
    assert g.Home(b);
  }

  lemma AppendOps(s: State, s': State, a: nat, b: int)
    requires OpsOk(s) && NextLogAppend(s, s', a, b)
    ensures OpsOk(s') && Rem(s'.ops[a]) >= 0
    ensures |s'.lh| - |s.lh| <= Rem(s.ops[a]) - Rem(s'.ops[a])
  {
    var w := s.ops[a].wrote;
    if b in s.lh {
      assert |w + {b}| == |w| + |{b} - w|;
    } else {
      assert b !in w;
    }
  }

  lemma AppendPhase(g: Geometry, s: State, s': State, a: nat, b: int)
    requires GoodDisk(g, s.disk) && Header(s.disk[g.start]) == [] && s.phase.Running? && OpsOk(s) &&
      NextLogAppend(s, s', a, b)
    requires PinnedFrom(s, 0) && |s.lh| + Budget(s.ops) <= LOGSIZE
    ensures PhaseOk(g, s') && OpsOk(s') && |s'.lh| <= LOGSIZE
  {
    CountUpdate(s.ops, a, Active(s.ops[a].wrote + {b}, None));
    AppendOps(s, s', a, b);
    BudgetAtLeast(s'.ops, a);
    assert PinnedFrom(s', 0);
  }

  lemma InvLogAppend(g: Geometry, s: State, s': State, a: nat, b: int)
    requires Inv(g, s) && NextLogAppend(s, s', a, b) && SlotsFit(g, s')
    ensures Inv(g, s')
  {
    assert s.phase.Running?;
    AppendPhase(g, s, s', a, b);
    AppendCache(g, s, s', a, b);
    AppendLh(g, s, s', a, b);
  }

  lemma InvBrelse(g: Geometry, s: State, s': State, a: nat, b: int)
    requires Inv(g, s) && NextBrelse(s, s', a, b)
    ensures Inv(g, s')
  {
    PhaseFrame(g, s, s');
  }

  lemma EvictFrame(g: Geometry, s: State, s': State, b: int)
    requires CacheOk(g, s) && Clean(s) && OpsOk(s) && |s.disk| == g.nblocks
    requires NextEvict(s, s', b)
    ensures CacheOk(g, s') && Clean(s') && OpsOk(s')
    ensures forall c :: 0 <= c < |s.disk| ==> View(s', c) == View(s, c)
    ensures forall c :: Pinned(s', c) <==> Pinned(s, c)
  {
  }

  lemma InvEvict(g: Geometry, s: State, s': State, b: int)
    requires Inv(g, s) && NextEvict(s, s', b)
    ensures Inv(g, s')
  {
    EvictFrame(g, s, s', b);
    if !Booting(s.phase) {
      PhaseFrame(g, s, s');
    }
  }

  lemma EndFrame(g: Geometry, s: State, s': State, a: nat)
    requires CacheOk(g, s) && Clean(s) && OpsOk(s) && a < |s.ops| && !Holds(s, a)
    requires s' == s.(ops := s.ops[a := Idle], phase := s'.phase)
    ensures CacheOk(g, s') && Clean(s') && OpsOk(s')
  {
  }

  lemma InvEndOp(g: Geometry, s: State, s': State, a: nat)
    requires Inv(g, s) && NextEndOp(s, s', a)
    ensures Inv(g, s')
  {
    CountUpdate(s.ops, a, Idle);
    NoneOutstanding(s.ops[a := Idle]);
    BudgetAtLeast(s.ops, a);
    if s.phase.Running? {
      EndFrame(g, s, s', a);
    }
  }

  /** bwrite of v to block b while no operation is active. */
  lemma PutFrame(g: Geometry, s: State, b: int, v: Block)
    requires CacheOk(g, s) && Clean(s) && OpsOk(s) && AllIdle(s)
    requires |s.disk| == g.nblocks && 0 <= b < g.nblocks
    ensures var s' := Put(s, b, v); CacheOk(g, s') && Clean(s') && OpsOk(s')
    ensures forall c :: 0 <= c < |s.disk| ==> View(Put(s, b, v), c) == if c == b then v else View(s, c)
    ensures forall c :: Pinned(Put(s, b, v), c) <==> Pinned(s, c) && c != b
  {
  }

  /** A disk write outside the header leaves the header good. */
  lemma GoodDiskFrame(g: Geometry, d: seq<Block>, b: int, v: Block)
    requires GoodDisk(g, d) && 0 <= b < |d| && b != g.start
    ensures GoodDisk(g, d[b := v]) && Header(d[b := v][g.start]) == Header(d[g.start])
  {
  }

  lemma LoggedNext(g: Geometry, s: State, s': State, t: nat)
    requires LhOk(g, s) && g.Valid() && |s.disk| == g.nblocks && t < |s.lh| && Logged(g, s, t)
    requires s'.lh == s.lh && s'.disk == s.disk[g.start + 1 + t := View(s, s.lh[t])]
    requires forall c :: 0 <= c < |s.disk| && c != g.start + 1 + t ==> View(s', c) == View(s, c)
    ensures Logged(g, s', t + 1)
  {
  }

  /** Only PhaseOk looks at the phase. */
  lemma PhaseIrrelevant(g: Geometry, s: State, s': State)
    requires |s.disk| == g.nblocks && s' == s.(phase := s'.phase)
    ensures CacheOk(g, s) ==> CacheOk(g, s')
    ensures Clean(s) ==> Clean(s')
    ensures OpsOk(s) ==> OpsOk(s')
    ensures forall c :: 0 <= c < |s.disk| ==> View(s', c) == View(s, c)
    ensures forall c :: Pinned(s', c) <==> Pinned(s, c)
  {
  }

  lemma InvWriteLog(g: Geometry, s: State, s': State)
    requires Inv(g, s) && NextWriteLog(g, s, s')
    ensures Inv(g, s')
  {
    var t := s.phase.tail;
    var slot := g.start + 1 + t;
    LoadFrame(g, s, s.lh[t]);
    var s1 := Load(s, s.lh[t]);
    var v := View(s1, s.lh[t]);
    PutFrame(g, s1, slot, v);
    GoodDiskFrame(g, s.disk, slot, v);
    PhaseIrrelevant(g, Put(s1, slot, v), s');
    LoggedNext(g, s, s', t);
    assert PinnedFrom(s', 0);
  }

  lemma InvWriteHead(g: Geometry, s: State, s': State)
    requires Inv(g, s) && NextWriteHead(g, s, s')
    ensures Inv(g, s')
  {
    var h := Encode(View(s, g.start), s.lh);
    PutFrame(g, s, g.start, h);
    PhaseIrrelevant(g, Put(s, g.start, h), s');
    HeadLogged(g, s, s', h);
  }

  /** Writing the header disturbs neither slots nor home blocks. */
  lemma HeadLogged(g: Geometry, s: State, s': State, h: Block)
    requires LhOk(g, s) && g.Valid() && |s.disk| == g.nblocks && Logged(g, s, |s.lh|)
    requires s'.lh == s.lh && s'.disk == s.disk[g.start := h] && s'.cache == s.cache[g.start := Buf(h, false)]
    ensures Logged(g, s', |s.lh|)
  {
    forall i | 0 <= i < |s.lh| && g.start + 1 + i < |s'.disk| && 0 <= s.lh[i] < |s'.disk|
      ensures s'.disk[g.start + 1 + i] == View(s', s.lh[i])
    {
      assert g.Home(s.lh[i]);
      assert View(s', s.lh[i]) == View(s, s.lh[i]);
    }
  }

  lemma InstalledNext(g: Geometry, s: State, s': State, t: nat)
    requires LhOk(g, s) && g.Valid() && |s.disk| == g.nblocks && t < |s.lh| && Installed(g, s, t)
    requires s'.lh == s.lh && s'.disk == s.disk[s.lh[t] := s.disk[g.start + 1 + t]]
    ensures Installed(g, s', t + 1)
  {
  }

  /** A log block is read as it is on the disk. */
  lemma SlotIs(g: Geometry, s: State, slot: int)
    requires g.Valid() && CacheOk(g, s) && LhOk(g, s) && Clean(s) && AllIdle(s) && |s.disk| == g.nblocks
    requires g.start < slot < g.start + g.size <= g.nblocks
    ensures View(Load(s, slot), slot) == s.disk[slot]
  {
  }

  /** bwrite in a state s1 that looks like s. */
  lemma PutAfter(g: Geometry, s: State, s1: State, s': State, b: int, v: Block)
    requires CacheOk(g, s1) && Clean(s1) && OpsOk(s1) && AllIdle(s1) && |s1.disk| == |s.disk| == g.nblocks &&
      0 <= b < g.nblocks
    requires s' == Put(s1, b, v).(phase := s'.phase)
    requires forall c :: 0 <= c < |s.disk| ==> View(s1, c) == View(s, c)
    requires forall c :: Pinned(s1, c) <==> Pinned(s, c)
    ensures CacheOk(g, s') && Clean(s') && OpsOk(s')
    ensures forall c :: Pinned(s', c) <==> Pinned(s, c) && c != b
    ensures forall c :: 0 <= c < |s.disk| ==> View(s', c) == if c == b then v else View(s, c)
  {
    PutFrame(g, s1, b, v);
    PhaseIrrelevant(g, Put(s1, b, v), s');
  }

  /** Copying slot t home touches neither the header nor any other home block. */
  lemma CopyFrame(g: Geometry, s: State, s': State, t: nat, next: Phase)
    requires GoodDisk(g, s.disk) && CacheOk(g, s) && LhOk(g, s) && Clean(s) && OpsOk(s) && AllIdle(s)
    requires CopyHome(g, s, s', t, next)
    ensures GoodDisk(g, s'.disk) && CacheOk(g, s') && Clean(s') && OpsOk(s')
    ensures s'.disk == s.disk[s.lh[t] := s.disk[g.start + 1 + t]]
    ensures Header(s'.disk[g.start]) == Header(s.disk[g.start])
    ensures forall b :: Pinned(s', b) <==> Pinned(s, b) && b != s.lh[t]
    ensures forall b :: 0 <= b < |s.disk| ==>
      View(s', b) == if b == s.lh[t] then s.disk[g.start + 1 + t] else View(s, b)
  {
    var slot := g.start + 1 + t;
    SlotIs(g, s, slot);
    LoadFrame(g, s, slot);
    PutAfter(g, s, Load(s, slot), s', s.lh[t], s.disk[slot]);
    GoodDiskFrame(g, s.disk, s.lh[t], s.disk[slot]);
  }

  lemma LoggedInstall(g: Geometry, s: State, s': State, t: nat)
    requires LhOk(g, s) && g.Valid() && |s.disk| == g.nblocks && t < |s.lh| && Logged(g, s, |s.lh|)
    requires s'.lh == s.lh && s'.disk == s.disk[s.lh[t] := s.disk[g.start + 1 + t]]
    requires forall b :: 0 <= b < |s.disk| ==>
      View(s', b) == if b == s.lh[t] then s.disk[g.start + 1 + t] else View(s, b)
    ensures Logged(g, s', |s.lh|)
  {
  }

  lemma PinnedInstall(s: State, s': State, t: nat)
    requires Distinct(s.lh) && s'.lh == s.lh && t < |s.lh| && PinnedFrom(s, t) && UnpinnedBelow(s, t)
    requires forall b :: Pinned(s', b) <==> Pinned(s, b) && b != s.lh[t]
    ensures PinnedFrom(s', t + 1) && UnpinnedBelow(s', t + 1)
  {
  }

  lemma AllUnpinned(g: Geometry, s: State)
    requires CacheOk(g, s) && UnpinnedBelow(s, |s.lh|)
    ensures NothingDirty(s)
  {
    forall b | b in s.cache ensures !s.cache[b].dirty {
      if s.cache[b].dirty {
        assert b in s.lh && Pinned(s, b);
      }
    }
  }

  lemma InvInstall(g: Geometry, s: State, s': State)
    requires Inv(g, s) && NextInstall(g, s, s')
    ensures Inv(g, s')
  {
    var t := s.phase.tail;
    CopyFrame(g, s, s', t, s'.phase);
    InstalledNext(g, s, s', t);
    LoggedInstall(g, s, s', t);
    PinnedInstall(s, s', t);
    if t + 1 == |s.lh| {
      AllUnpinned(g, s');
    }
  }

  /** What one copy of recovery leaves, told without the copy. */
  lemma BootCopied(g: Geometry, s: State, s': State, t: nat)
    requires GoodDisk(g, s'.disk) && CacheOk(g, s') && LhOk(g, s) && Clean(s') && OpsOk(s') && AllIdle(s)
    requires s'.lh == s.lh == Header(s'.disk[g.start]) && s'.ops == s.ops && s'.lock == map[] && t < |s.lh|
    requires NothingDirty(s) && (forall b :: Pinned(s', b) ==> Pinned(s, b)) && Installed(g, s', t + 1)
    requires s'.phase == if t + 1 < |s.lh| then BootInstall(t + 1) else BootClear
    ensures Inv(g, s')
  {
    forall b | b in s'.cache ensures !s'.cache[b].dirty {
      assert !Pinned(s, b);
    }
  }

  lemma BootCopy(g: Geometry, s: State, s': State, t: nat)
    requires GoodDisk(g, s.disk) && CacheOk(g, s) && LhOk(g, s) && Clean(s) && OpsOk(s) && AllIdle(s)
    requires s.lh == Header(s.disk[g.start]) && s.lock == map[] && NothingDirty(s) && Installed(g, s, t)
    requires CopyHome(g, s, s', t, if t + 1 < |s.lh| then BootInstall(t + 1) else BootClear)
    ensures Inv(g, s')
  {
    CopyFrame(g, s, s', t, s'.phase);
    InstalledNext(g, s, s', t);
    BootCopied(g, s, s', t);
  }

  lemma InvBootInstall(g: Geometry, s: State, s': State)
    requires Inv(g, s) && NextBootInstall(g, s, s')
    ensures Inv(g, s')
  {
    BootCopy(g, s, s', s.phase.tail);
  }

  lemma {:induction false} BudgetIdle(ops: seq<Op>)
    requires forall i :: 0 <= i < |ops| ==> ops[i].Idle?
    ensures Budget(ops) == 0
  {
    if ops != [] { BudgetIdle(ops[1..]); }
  }

  lemma InvClear(g: Geometry, s: State, s': State)
    requires Inv(g, s) && NextClear(g, s, s')
    ensures Inv(g, s')
  {
    BudgetIdle(s.ops);
    var h := Encode(View(s, g.start), []);
    PutFrame(g, s, g.start, h);
  }

  lemma InvDone(g: Geometry, s: State, s': State)
    requires Inv(g, s) && NextDone(s, s')
    ensures Inv(g, s')
  {
    BudgetIdle(s.ops);
    PhaseIrrelevant(g, s, s');
  }

  lemma InvCrash(g: Geometry, s: State, s': State)
    requires Inv(g, s) && NextCrash(s, s')
    ensures Inv(g, s')
  {
  }

  lemma InvBootRead(g: Geometry, s: State, s': State)
    requires Inv(g, s) && NextBootRead(g, s, s')
    ensures Inv(g, s')
  {
    assert View(s, g.start) == s.disk[g.start];
    assert s'.cache == map[g.start := Buf(s.disk[g.start], false)];
    assert s'.lh == Header(s'.disk[g.start]);
    IdleOps(s');
    assert LhOk(g, s') && CacheOk(g, s') && Clean(s');
  }

  lemma IdleOps(s: State)
    requires AllIdle(s)
    ensures OpsOk(s)
  {
  }

  /** Every step of a system call keeps the invariant. */
  lemma InvClient(g: Geometry, s: State, step: Step, s': State)
    requires Inv(g, s) && Next(g, s, step, s') && ClientStep(step) && SlotsFit(g, s')
    ensures Inv(g, s')
  {
    match step
    case BeginOp(a) => InvBeginOp(g, s, s', a);
    case Bread(a, b) => InvBread(g, s, s', a, b);
    case Modify(a, b, v) => InvModify(g, s, s', a, b, v);
    case LogCheck(a, b) => InvLogCheck(g, s, s', a, b);
    case LogAppend(a, b) => InvLogAppend(g, s, s', a, b);
    case Brelse(a, b) => InvBrelse(g, s, s', a, b);
    case Evict(b) => InvEvict(g, s, s', b);
    case EndOp(a) => InvEndOp(g, s, s', a);
    case _ =>
  }

  predicate ClientStep(step: Step) {
    step.BeginOp? || step.Bread? || step.Modify? || step.LogCheck? || step.LogAppend? ||
    step.Brelse? || step.Evict? || step.EndOp?
  }

  /** Every step keeps the invariant. */
  lemma InvNext(g: Geometry, s: State, step: Step, s': State)
    requires Inv(g, s) && Next(g, s, step, s') && SlotsFit(g, s')
    ensures Inv(g, s')
  {
    if ClientStep(step) {
      InvClient(g, s, step, s');
    } else {
      match step
      case WriteLogStep => InvWriteLog(g, s, s');
      case WriteHeadStep => InvWriteHead(g, s, s');
      case InstallStep => InvInstall(g, s, s');
      case ClearStep => InvClear(g, s, s');
      case BootInstallStep => InvBootInstall(g, s, s');
      case DoneStep => InvDone(g, s, s');
      case Crash => InvCrash(g, s, s');
      case BootRead => InvBootRead(g, s, s');
    }
  }

  /** Every state of every run satisfies the invariant. */
  lemma {:induction false} InvRun(g: Geometry, ss: seq<State>, steps: seq<Step>, k: nat)
    requires SafeRun(g, ss, steps) && k < |ss|
    ensures Inv(g, ss[k])
  {
    if k == 0 {
      InvInit(g, ss[0]);
    } else {
      InvRun(g, ss, steps, k - 1);
      assert StepAt(g, ss, steps, k - 1);
      InvNext(g, ss[k - 1], steps[k - 1], ss[k]);
    }
  }
}
