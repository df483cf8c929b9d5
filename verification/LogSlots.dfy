// When the log slots are really inside the log: exactly when log.size > LOGSIZE, or the log is
// its header alone and nothing can be logged.

module LogSlots {
  import opened Basics
  import opened Params
  import opened Codec
  import opened LogModel
  import opened LogInvariant

  ghost predicate Reachable(g: Geometry, s: State) {
    exists ss, steps :: IsRun(g, ss, steps) && ss[|ss| - 1] == s
  }

  lemma ReachNext(g: Geometry, s: State, step: Step, s': State)
    requires Reachable(g, s) && Next(g, s, step, s')
    ensures Reachable(g, s')
  {
    var ss, steps :| IsRun(g, ss, steps) && ss[|ss| - 1] == s;
    RunSnoc(g, ss, steps, step, s');
    assert (ss + [s'])[|ss + [s']| - 1] == s';
  }

  /** Every logged block has its slot inside the log. */
  ghost predicate SlotsInLog(g: Geometry) {
    forall s :: Reachable(g, s) ==> |s.lh| <= g.size - 1
  }

  /** Log slots and the panic of log_write, when the log has more than LOGSIZE blocks: the
      test fires only on a full log, and then only for a block the operation already wrote,
      which absorption would have accepted. */
  lemma LogCheckPanics(g: Geometry, s: State, s': State, a: nat, b: int)
    requires Inv(g, s) && NextLogCheck(g, s, s', a, b) && g.size > LOGSIZE
    ensures s'.phase.Halted? <==> |s.lh| == LOGSIZE
    ensures s'.phase.Halted? ==> b in s.ops[a].wrote && b in s.lh
  {
    BudgetAtLeast(s.ops, a);
    if b !in s.ops[a].wrote {
      assert |s.ops[a].wrote + {b}| == |s.ops[a].wrote| + 1;
    }
  }

  // ---------- a run that fills the log ----------

  /** The j-th block after the log. */
  function Nth(g: Geometry, j: nat): int {
    g.start + g.size + j
  }

  /** How many of 0..k are a modulo 3. */
  function Share(k: nat, a: nat): int {
    (k + 2 - a) / 3
  }

  lemma ShareNext(k: nat, a: nat)
    requires a < 3
    ensures Share(k + 1, a) == Share(k, a) + if k % 3 == a then 1 else 0
    ensures k <= LOGSIZE ==> Share(k, a) <= MAXOPBLOCKS && (k < LOGSIZE && k % 3 == a ==> Share(k, a) < MAXOPBLOCKS)
  {
  }

  /** k blocks logged by three operations in turn; nothing locked. */
  ghost predicate Filled(g: Geometry, s: State, k: nat) {
    && |s.disk| == g.nblocks && s.phase.Running? && s.lock == map[]
    && |s.lh| == k && (forall i :: 0 <= i < k ==> s.lh[i] == Nth(g, i))
    && |s.ops| == 3 && (k > 0 ==> s.ops[0].Active? && Nth(g, 0) in s.ops[0].wrote)
    && forall a :: 0 <= a < 3 ==>
         && s.ops[a].Active? && s.ops[a].checked.None?
         && |s.ops[a].wrote| == Share(k, a)
         && (forall b :: b in s.ops[a].wrote ==> b in s.lh)
  }

  predicate Roomy(g: Geometry) {
    g.size >= 1 && g.start + g.size + LOGSIZE <= g.nblocks <= WORD_LIMIT
  }

  lemma BootedReachable(g: Geometry) returns (s: State)
    requires Roomy(g)
    ensures Reachable(g, s) && |s.disk| == g.nblocks && s.phase.Running? && s.lock == map[] && s.lh == []
    ensures s.ops == [Idle, Idle, Idle]
  {
    var zero := ZeroBlock();
    ZeroWords(0);
    var s0 := State(seq(g.nblocks, i => zero), map[], map[], [], [Idle, Idle, Idle], Boot);
    assert Header(zero) == [];
    assert IsRun(g, [s0], []) && [s0][|[s0]| - 1] == s0;
    var s1 := Load(s0, g.start).(lh := [], phase := BootClear);
    assert NextBootRead(g, s0, s1);
    ReachNext(g, s0, BootRead, s1);
    s := Put(s1, g.start, Encode(View(s1, g.start), [])).(lh := [], phase := Running);
    assert NextClear(g, s1, s);
    ReachNext(g, s1, ClearStep, s);
  }

  lemma OpenOne(g: Geometry, s: State, a: nat) returns (s': State)
    requires Reachable(g, s) && s.phase.Running? && s.lh == [] && |s.ops| == 3 && a < 3
    requires s.ops[a] == Idle && Outstanding(s.ops) == a
    ensures s' == s.(ops := s.ops[a := Active({}, None)])
    ensures Reachable(g, s') && Outstanding(s'.ops) == a + 1
  {
    CountUpdate(s.ops, a, Active({}, None));
    s' := s.(ops := s.ops[a := Active({}, None)]);
    assert NextBeginOp(s, s', a);
    ReachNext(g, s, BeginOp(a), s');
  }

  lemma EmptyLogReachable(g: Geometry) returns (s: State)
    requires Roomy(g)
    ensures Reachable(g, s) && Filled(g, s, 0)
  {
    s := BootedReachable(g);
    NoneOutstanding(s.ops);
    s := OpenOne(g, s, 0);
    s := OpenOne(g, s, 1);
    s := OpenOne(g, s, 2);
  }

  /** bread of the next block by operation a, which then passes log_write's test. */
  lemma StartWrite(g: Geometry, s: State, a: nat, b: int) returns (s': State)
    requires Reachable(g, s) && |s.disk| == g.nblocks && s.phase.Running?
    requires a < |s.ops| && s.ops[a].Active? && s.ops[a].checked.None? && |s.ops[a].wrote + {b}| <= MAXOPBLOCKS
    requires g.Home(b) && Unlocked(s, b) && |s.lh| < LOGSIZE && |s.lh| < g.size - 1
    ensures Reachable(g, s')
    ensures s' == Load(s, b).(lock := s.lock[b := a], ops := s.ops[a := s.ops[a].(checked := Some(b))])
  {
    var s1 := Load(s, b).(lock := s.lock[b := a]);
    assert NextBread(g, s, s1, a, b);
    ReachNext(g, s, Bread(a, b), s1);
    s' := s1.(ops := s1.ops[a := s1.ops[a].(checked := Some(b))]);
    assert NextLogCheck(g, s1, s', a, b);
    ReachNext(g, s1, LogCheck(a, b), s');
  }

  lemma FinishWrite(g: Geometry, s: State, a: nat, b: int) returns (s': State)
    requires Reachable(g, s) && s.phase.Running? && b in s.cache && b !in s.lh
    requires a < |s.ops| && s.ops[a].Active? && s.ops[a].checked == Some(b)
    ensures Reachable(g, s')
    ensures s' == s.(lh := s.lh + [b], cache := s.cache[b := s.cache[b].(dirty := true)],
                     ops := s.ops[a := Active(s.ops[a].wrote + {b}, None)])
  {
    s' := s.(lh := s.lh + [b], cache := s.cache[b := s.cache[b].(dirty := true)],
             ops := s.ops[a := Active(s.ops[a].wrote + {b}, None)]);
    assert NextLogAppend(s, s', a, b);
    ReachNext(g, s, LogAppend(a, b), s');
  }

  lemma NewBlock(g: Geometry, s: State, k: nat)
    requires Filled(g, s, k)
    ensures forall j: nat :: j >= k ==> Nth(g, j) !in s.lh
    ensures forall a, j: nat :: 0 <= a < 3 && j >= k ==> Nth(g, j) !in s.ops[a].wrote
  {
  }

  /** log_write of a new block, from bread to brelse. */
  lemma WriteOne(g: Geometry, s: State, a: nat, b: int) returns (s': State)
    requires Reachable(g, s) && s.phase.Running? && s.lock == map[] && |s.disk| == g.nblocks
    requires a < |s.ops| && s.ops[a].Active? && s.ops[a].checked.None? && |s.ops[a].wrote + {b}| <= MAXOPBLOCKS
    requires g.Home(b) && b !in s.lh && |s.lh| < LOGSIZE && |s.lh| < g.size - 1
    ensures Reachable(g, s') && s'.disk == s.disk && s'.phase == s.phase && s'.lock.Keys == {} && s'.lh == s.lh + [b]
    ensures s'.ops == s.ops[a := Active(s.ops[a].wrote + {b}, None)]
  {
    var s1 := StartWrite(g, s, a, b);
    var s2 := FinishWrite(g, s1, a, b);
    s' := s2.(lock := s2.lock - {b});
    assert NextBrelse(s2, s', a, b);
    ReachNext(g, s2, Brelse(a, b), s');
  }

  lemma FillOne(g: Geometry, s: State, k: nat) returns (s': State)
    requires Roomy(g) && Reachable(g, s) && Filled(g, s, k) && k < LOGSIZE && k < g.size - 1
    ensures Reachable(g, s') && Filled(g, s', k + 1)
  {
    Fits(g, s, k, k);
    s' := WriteOne(g, s, k % 3, Nth(g, k));
    FilledNext(g, s, s', k);
  }

  lemma FilledNext(g: Geometry, s: State, s': State, k: nat)
    requires Filled(g, s, k) && |s'.disk| == |s.disk| && s'.phase == s.phase && s'.lock.Keys == {}
    requires s'.lh == s.lh + [Nth(g, k)]
    requires s'.ops == s.ops[k % 3 := Active(s.ops[k % 3].wrote + {Nth(g, k)}, None)]
    ensures Filled(g, s', k + 1)
  {
    NewBlock(g, s, k);
    assert s'.lock == map[];
    forall a | 0 <= a < 3 ensures |s'.ops[a].wrote| == Share(k + 1, a) {
      ShareNext(k, a);
    }
  }

  lemma {:induction false} FillLog(g: Geometry, k: nat) returns (s: State)
    requires Roomy(g) && k <= LOGSIZE && k <= g.size - 1
    ensures Reachable(g, s) && Filled(g, s, k)
  {
    if k == 0 {
      s := EmptyLogReachable(g);
    } else {
      var s0 := FillLog(g, k - 1);
      s := FillOne(g, s0, k - 1);
    }
  }

  lemma Fits(g: Geometry, s: State, k: nat, j: nat)
    requires Filled(g, s, k) && k <= j < LOGSIZE
    ensures s.ops[j % 3].Active? && |s.ops[j % 3].wrote + {Nth(g, j)}| <= MAXOPBLOCKS
    ensures Nth(g, j) !in s.lh
  {
    NewBlock(g, s, k);
    var a := j % 3;
    assert |s.ops[a].wrote + {Nth(g, j)}| == |s.ops[a].wrote| + 1;
    assert Share(k, a) <= Share(j, a);
    ShareNext(j, a);
  }

  /** Operation a has passed the test of log_write for b, which stays locked. */
  predicate Passed(s: State, a: nat, b: int) {
    a < |s.ops| && b in s.cache && s.ops[a].Active? && s.ops[a].checked == Some(b)
  }

  lemma PassOne(g: Geometry, s: State, a: nat, b: int) returns (s': State)
    requires Reachable(g, s) && |s.disk| == g.nblocks && s.phase.Running?
    requires a < |s.ops| && s.ops[a].Active? && s.ops[a].checked.None? && |s.ops[a].wrote + {b}| <= MAXOPBLOCKS
    requires g.Home(b) && Unlocked(s, b) && |s.lh| < LOGSIZE && |s.lh| < g.size - 1
    ensures Reachable(g, s') && Passed(s', a, b) && s'.disk == s.disk && s'.phase == s.phase && s'.lh == s.lh
    ensures s'.lock == s.lock[b := a] && |s'.ops| == |s.ops| &&
      forall x :: 0 <= x < |s.ops| && x != a ==> s'.ops[x] == s.ops[x]
    ensures forall c, x :: x != a && Passed(s, x, c) ==> Passed(s', x, c)
  {
    s' := StartWrite(g, s, a, b);
  }

  lemma TwoPassAs(g: Geometry, s: State, a: nat, a': nat, b: int, b': int) returns (s': State)
    requires Reachable(g, s) && |s.disk| == g.nblocks && s.phase.Running? && s.lock == map[] && |s.lh| < LOGSIZE &&
      |s.lh| < g.size - 1
    requires a < |s.ops| && s.ops[a].Active? && s.ops[a].checked.None? && |s.ops[a].wrote + {b}| <= MAXOPBLOCKS &&
      g.Home(b)
    requires a' < |s.ops| && s.ops[a'].Active? && s.ops[a'].checked.None? && |s.ops[a'].wrote + {b'}| <= MAXOPBLOCKS &&
      g.Home(b')
    requires a != a' && b != b'
    ensures Reachable(g, s') && s'.phase.Running? && s'.lh == s.lh && |s'.ops| == |s.ops| && Passed(s', a, b) &&
      Passed(s', a', b')
  {
    var s1 := PassOne(g, s, a, b);
    s' := PassOne(g, s1, a', b');
  }

  /** Two operations pass the test of log_write before either appends. */
  lemma TwoPass(g: Geometry, s: State, k: nat) returns (s': State)
    requires Roomy(g) && Reachable(g, s) && Filled(g, s, k) && k + 2 <= LOGSIZE && k < g.size - 1
    ensures Reachable(g, s') && s'.phase.Running? && s'.lh == s.lh && |s'.ops| == 3
    ensures Passed(s', k % 3, Nth(g, k)) && Passed(s', (k + 1) % 3, Nth(g, k + 1))
  {
    Fits(g, s, k, k);
    Fits(g, s, k, k + 1);
    s' := TwoPassAs(g, s, k % 3, (k + 1) % 3, Nth(g, k), Nth(g, k + 1));
  }

  /** With a log of at most LOGSIZE blocks the last block's slot can lie past its end. */
  lemma SlotOverflow(g: Geometry)
    requires Roomy(g) && 2 <= g.size <= LOGSIZE
    ensures exists s :: Reachable(g, s) && |s.lh| == g.size
  {
    var k := g.size - 2;
    var s := FillLog(g, k);
    var s2 := TwoPass(g, s, k);
    var s3 := FinishWrite(g, s2, k % 3, Nth(g, k));
    var s4 := FinishWrite(g, s3, (k + 1) % 3, Nth(g, k + 1));
    assert Reachable(g, s4) && |s4.lh| == g.size;
  }

  /** In so short a log even the first log_write of a block, within the budget, can panic. */
  lemma FreshWritePanics(g: Geometry)
    requires Roomy(g) && g.size <= LOGSIZE
    ensures exists s, s', a: nat, b :: Reachable(g, s) && NextLogCheck(g, s, s', a, b) && b !in s.lh && s'.phase.Halted?
  {
    var k := g.size - 1;
    var s := FillLog(g, k);
    var a, b := k % 3, Nth(g, k);
    Fits(g, s, k, k);
    var s1 := Load(s, b).(lock := s.lock[b := a]);
    assert NextBread(g, s, s1, a, b);
    ReachNext(g, s, Bread(a, b), s1);
    var s2 := s1.(phase := Halted);
    assert Reachable(g, s1) && NextLogCheck(g, s1, s2, a, b) && b !in s1.lh && s2.phase.Halted?;
  }

  /** No operation within its budget is refused the first log_write of a block, in any run, if
      and only if the log is longer than LOGSIZE. */
  lemma FreshWriteIff(g: Geometry)
    requires Roomy(g)
    ensures (forall s, s', a: nat, b :: Reachable(g, s) && NextLogCheck(g, s, s', a, b) && b !in s.lh ==>
      !s'.phase.Halted?)
            <==> g.size > LOGSIZE
  {
    if g.size > LOGSIZE {
      forall s, s', a: nat, b | Reachable(g, s) && NextLogCheck(g, s, s', a, b) && b !in s.lh
        ensures !s'.phase.Halted?
      {
        var ss, steps :| IsRun(g, ss, steps) && ss[|ss| - 1] == s;
        InvRun(g, ss, steps, |ss| - 1);
        LogCheckPanics(g, s, s', a, b);
      }
    } else {
      FreshWritePanics(g);
    }
  }

  ghost predicate NoneChecked(s: State) {
    forall a :: 0 <= a < |s.ops| && s.ops[a].Active? ==> s.ops[a].checked.None?
  }

  /** In a log of one block every log_write panics. */
  lemma TinyStep(g: Geometry, s: State, step: Step, s': State)
    requires g.size == 1 && Inv(g, s) && NoneChecked(s) && Next(g, s, step, s')
    ensures SlotsFit(g, s') && NoneChecked(s')
  {
  }

  lemma {:induction false} TinyRun(g: Geometry, ss: seq<State>, steps: seq<Step>, k: nat)
    requires g.Valid() && g.size == 1 && IsRun(g, ss, steps) && k < |ss|
    ensures Inv(g, ss[k]) && NoneChecked(ss[k])
  {
    if k == 0 {
      InvInit(g, ss[0]);
    } else {
      TinyRun(g, ss, steps, k - 1);
      assert StepAt(g, ss, steps, k - 1);
      TinyStep(g, ss[k - 1], steps[k - 1], ss[k]);
      InvNext(g, ss[k - 1], steps[k - 1], ss[k]);
    }
  }

  lemma InLog(g: Geometry, s: State)
    requires g.Valid() && (g.size > LOGSIZE || g.size == 1) && Reachable(g, s)
    ensures |s.lh| <= g.size - 1
  {
    var ss, steps :| IsRun(g, ss, steps) && ss[|ss| - 1] == s;
    if g.size == 1 {
      TinyRun(g, ss, steps, |ss| - 1);
    } else {
      InvRun(g, ss, steps, |ss| - 1);
    }
  }

  /** The slots of every run stay inside the log if and only if the log is longer than
      LOGSIZE (mkfs makes it LOGSIZE long), or holds its header alone and logs nothing. */
  lemma SlotsInLogIff(g: Geometry)
    requires Roomy(g)
    ensures SlotsInLog(g) <==> g.size > LOGSIZE || g.size == 1
  {
    if g.size > LOGSIZE || g.size == 1 {
      forall s | Reachable(g, s) ensures |s.lh| <= g.size - 1 {
        InLog(g, s);
      }
    } else {
      SlotOverflow(g);
    }
  }

  /** The panic on an absorbed block does happen: three operations within budget fill the
      log, and the first of them logs its first block again. */
  lemma AbsorbedWritePanics(g: Geometry)
    requires Roomy(g) && g.size > LOGSIZE
    ensures exists s, s', a: nat, b ::
      Reachable(g, s) && NextLogCheck(g, s, s', a, b) && b in s.lh && s'.phase.Halted?
  {
    var s := FillLog(g, LOGSIZE);
    var b := Nth(g, 0);
    var s1 := Load(s, b).(lock := s.lock[b := 0]);
    assert NextBread(g, s, s1, 0, b);
    ReachNext(g, s, Bread(0, b), s1);
    assert s1.ops[0].wrote + {b} == s1.ops[0].wrote;
    var s2 := s1.(phase := Halted);
    assert Reachable(g, s1) && NextLogCheck(g, s1, s2, 0, b) && b in s1.lh && s2.phase.Halted?;
  }
}
