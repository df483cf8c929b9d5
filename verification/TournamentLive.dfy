// That the tree of Ass2/tournament_tree.c lets threads in: who is refused, that all work ends, and
// that from every state it can reach any thread can get inside under any id.

module TournamentLive {
  import opened Basics
  import opened KernelMutex
  import opened TreeShape
  import opened Tournament

  // ---------- who is refused ----------

  /** The test of acquire refuses an id only if another thread owns it. */
  lemma RefusedStep(s: Tree, s': Tree, t: nat, x: nat) returns (u: nat)
    requires Inv(s) && Next(s, s', t, x) && t < |s.pc| && s.pc[t].AcqTest? && |s'.pc| == |s.pc|
    requires s'.pc[t] == AcqLeave(s.pc[t].id, false)
    ensures u < |s.pc| && u != t && HasId(s.pc[u]) && s.pc[u].id == s.pc[t].id
  {
    assert s.taken[s.pc[t].id];
    u :| 0 <= u < |s.pc| && HasId(s.pc[u]) && s.pc[u].id == s.pc[t].id;
  }

  /** How a thread can come to the refusal. */
  lemma BeforeRefusal(s: Tree, s': Tree, u: nat, x: nat, t: nat)
    requires Inv(s) && Next(s, s', u, x) && |s'.pc| == |s.pc| && t < |s.pc|
    requires s'.pc[t].AcqLeave? && !s'.pc[t].ok
    ensures s.pc[t] == s'.pc[t] || (u == t && s.pc[t] == AcqTest(s'.pc[t].id))
  {
  }

  lemma SameThreads(s: Tree, s': Tree, t: nat, x: nat)
    requires Shape(s) && Next(s, s', t, x)
    ensures |s'.pc| == |s.pc| && s'.d == s.d && (forall u :: 0 <= u < |s.pc| && u != t ==> s'.pc[u] == s.pc[u])
  {
  }

  /** In every run a thread that is refused has met, at its test, another one that owned the id. */
  lemma {:induction false} RefusedIsTaken(ss: seq<Tree>, moves: seq<Move>, k: nat, t: nat) returns (j: nat, u: nat)
    requires IsRun(ss, moves) && k < |ss| && t < |ss[k].pc| && ss[k].pc[t].AcqLeave? && !ss[k].pc[t].ok
    ensures j < k && moves[j].t == t && t < |ss[j].pc| && ss[j].pc[t] == AcqTest(ss[k].pc[t].id)
    ensures u < |ss[j].pc| && u != t && HasId(ss[j].pc[u]) && ss[j].pc[u].id == ss[k].pc[t].id
    decreases k
  {
    if k == 0 {
      assert false;
    } else {
      InvRun(ss, moves, k - 1);
      assert StepAt(ss, moves, k - 1);
      SameThreads(ss[k - 1], ss[k], moves[k - 1].t, moves[k - 1].x);
      BeforeRefusal(ss[k - 1], ss[k], moves[k - 1].t, moves[k - 1].x, t);
      if ss[k - 1].pc[t] == ss[k].pc[t] {
        j, u := RefusedIsTaken(ss, moves, k - 1, t);
      } else {
        j := k - 1;
        u := RefusedStep(ss[j], ss[k], t, moves[j].x);
      }
    }
  }

  // ---------- all work ends ----------

  /** The places still ahead of a thread, from the call of acquire to the return of release. */
  function PcRank(d: nat, p: PC): nat {
    match p
    case Out => 0
    case DoneLeave(_) => 1
    case DoneClear(_) => 2
    case DoneEnter(_) => 3
    case Descend(_, k) => 3 + k
    case RelLeave(_, _) => 4 + d
    case RelTest(_) => 5 + d
    case RelEnter(_) => 6 + d
    case Climb(_, k) => 7 + d + (if k <= d then d - k else 0)
    case AcqLeave(_, _) => 8 + 2 * d
    case AcqTest(_) => 9 + 2 * d
    case AcqEnter(_) => 10 + 2 * d
  }

  /** A wakeup to come counts for more than all the threads it can wake. */
  function WaitRank(n: nat, w: Wait): nat {
    if w.Asleep? then 0 else if w.MustWake? then n + 2 else 1
  }

  function PcSum(d: nat, pc: seq<PC>): nat {
    if pc == [] then 0 else PcRank(d, pc[0]) + PcSum(d, pc[1..])
  }

  function WaitSum(n: nat, w: seq<Wait>): nat {
    if w == [] then 0 else WaitRank(n, w[0]) + WaitSum(n, w[1..])
  }

  lemma {:induction false} PcUpdate(d: nat, pc: seq<PC>, t: nat, p: PC)
    requires t < |pc|
    ensures PcSum(d, pc[t := p]) == PcSum(d, pc) - PcRank(d, pc[t]) + PcRank(d, p)
  {
    if t == 0 {
      assert pc[t := p][1..] == pc[1..];
    } else {
      PcUpdate(d, pc[1..], t - 1, p);
      assert pc[t := p][1..] == pc[1..][t - 1 := p];
    }
  }

  lemma {:induction false} WaitUpdate(n: nat, w: seq<Wait>, t: nat, x: Wait)
    requires t < |w|
    ensures WaitSum(n, w[t := x]) == WaitSum(n, w) - WaitRank(n, w[t]) + WaitRank(n, x)
  {
    if t == 0 {
      assert w[t := x][1..] == w[1..];
    } else {
      WaitUpdate(n, w[1..], t - 1, x);
      assert w[t := x][1..] == w[1..][t - 1 := x];
    }
  }

  lemma {:induction false} WaitBound(n: nat, w: seq<Wait>)
    ensures WaitSum(n, w) <= |w| * (n + 2)
  {
    if w != [] { WaitBound(n, w[1..]); }
  }

  /** Each thread is woken at most once. */
  lemma {:induction false} WakeRaises(n: nat, w: seq<Wait>, w': seq<Wait>)
    requires |w'| == |w| && forall u :: 0 <= u < |w| ==> WaitRank(n, w'[u]) <= WaitRank(n, w[u]) + 1
    ensures WaitSum(n, w') <= WaitSum(n, w) + |w|
  {
    if w != [] { WakeRaises(n, w[1..], w'[1..]); }
  }

  lemma WakeSum(x: Mutexes, x': Mutexes, t: nat)
    requires WakeAll(x, x', t)
    ensures WaitSum(|x.wait|, x'.wait) < WaitSum(|x.wait|, x.wait)
  {
    var n, w := |x.wait|, x.wait;
    var w1 := w[t := Free];
    WaitUpdate(n, w, t, Free);
    WakeRaises(n, w1, x'.wait);
  }

  /** What is left to do: places first, then sleeps and wakeups. */
  function Work(s: Tree): nat {
    PcSum(s.d, s.pc) * (|s.pc| * (|s.pc| + 2) + 1) + WaitSum(|s.pc|, s.ms.wait)
  }

  lemma Less(a: nat, a': nat, b: nat, w: nat, w': nat)
    requires a' < a && w' <= b
    ensures a' * (b + 1) + w' < a * (b + 1) + w
  {
    assert (a' + 1) * (b + 1) <= a * (b + 1);
  }

  /** A step of a thread that has a place to leave. */
  lemma PlaceLess(s: Tree, s': Tree, t: nat)
    requires |s.ms.wait| == |s.pc| && |s'.ms.wait| == |s.pc| && s'.d == s.d && t < |s.pc|
    requires |s'.pc| == |s.pc| && s'.pc == s.pc[t := s'.pc[t]] && PcRank(s.d, s'.pc[t]) < PcRank(s.d, s.pc[t])
    ensures Work(s') < Work(s)
  {
    var n := |s.pc|;
    PcUpdate(s.d, s.pc, t, s'.pc[t]);
    WaitBound(n, s'.ms.wait);
    Less(PcSum(s.d, s.pc), PcSum(s.d, s'.pc), n * (n + 2), WaitSum(n, s.ms.wait), WaitSum(n, s'.ms.wait));
  }

  /** t makes a new call of acquire. */
  predicate Starts(s: Tree, s': Tree, t: nat) {
    t < |s.pc| && t < |s'.pc| && s.pc[t] == Out && s'.pc[t] != Out
  }

  lemma LockLess(s: Tree, s': Tree, t: nat, m: nat)
    requires Inv(s) && (NextLock(s, s', t, m) || NextUnlock(s, s', t, m))
    ensures Work(s') < Work(s)
  {
    assert ThreadOk(s.d, s.ms.mx, s.taken, s.ms.wait[t], s.pc[t], t);
    PlaceLess(s, s', t);
  }

  lemma TableLess(s: Tree, s': Tree, t: nat)
    requires Inv(s) && NextTable(s, s', t)
    ensures Work(s') < Work(s)
  {
    PlaceLess(s, s', t);
  }

  lemma SleepLess(s: Tree, s': Tree, t: nat, m: nat)
    requires Inv(s) && (NextSleep(s, s', t, m) || NextWake(s, s', t))
    ensures Work(s') < Work(s)
  {
    if NextWake(s, s', t) {
      WakeSum(s.ms, s'.ms, t);
    } else {
      WaitUpdate(|s.pc|, s.ms.wait, t, Asleep(m));
    }
  }

  /** Every step but a new call of acquire leaves less to do: nobody runs in circles. */
  lemma WorkLess(s: Tree, s': Tree, t: nat, x: nat)
    requires Inv(s) && Next(s, s', t, x) && !Starts(s, s', t)
    ensures Work(s') < Work(s)
  {
    if NextLock(s, s', t, x) || NextUnlock(s, s', t, x) {
      LockLess(s, s', t, x);
    } else if NextTable(s, s', t) {
      TableLess(s, s', t);
    } else if NextSleep(s, s', t, x) || NextWake(s, s', t) {
      SleepLess(s, s', t, x);
    } else {
      PlaceLess(s, s', t);
    }
  }

  /** No call of acquire begins between states i and j. */
  ghost predicate NoneStarts(ss: seq<Tree>, moves: seq<Move>, i: nat, j: nat)
    requires |ss| == |moves| + 1 && j < |ss|
  {
    forall n :: i <= n < j ==> !Starts(ss[n], ss[n + 1], moves[n].t)
  }

  lemma WorkAt(ss: seq<Tree>, moves: seq<Move>, n: nat)
    requires IsRun(ss, moves) && n < |moves| && !Starts(ss[n], ss[n + 1], moves[n].t)
    ensures Work(ss[n + 1]) < Work(ss[n])
  {
    InvRun(ss, moves, n);
    assert StepAt(ss, moves, n);
    WorkLess(ss[n], ss[n + 1], moves[n].t, moves[n].x);
  }

  /** In every run, whatever the scheduler does, as many steps as Work says are the most that can
      follow without a new call of acquire. */
  lemma {:induction false} WorkEnds(ss: seq<Tree>, moves: seq<Move>, i: nat, j: nat)
    requires IsRun(ss, moves) && i <= j < |ss| && NoneStarts(ss, moves, i, j)
    ensures Work(ss[j]) + (j - i) <= Work(ss[i])
    decreases j
  {
    if i < j {
      WorkEnds(ss, moves, i, j - 1);
      WorkAt(ss, moves, j - 1);
    }
  }

  /** It ends with nobody in the tree code: as long as somebody is, one of those in it can step. */
  lemma EndsOutside(ss: seq<Tree>, moves: seq<Move>, k: nat, t: nat) returns (u: nat, x: nat, s': Tree)
    requires IsRun(ss, moves) && k < |ss| && Busy(ss[k], t)
    ensures Shape(ss[k]) && Next(ss[k], s', u, x) && !Starts(ss[k], s', u)
  {
    u := Progress(ss, moves, k, t);
    var s0, x0: nat :| Next(ss[k], s0, u, x0);
    x, s' := x0, s0;
  }

  // ---------- anybody can get inside ----------

  function Last(ss: seq<Tree>): Tree
    requires |ss| > 0
  {
    ss[|ss| - 1]
  }

  /** The run ss' goes on from where ss ends. */
  ghost predicate Extends(ss: seq<Tree>, ss': seq<Tree>, moves': seq<Move>) {
    IsRun(ss', moves') && 0 < |ss| <= |ss'| && forall i :: 0 <= i < |ss| ==> ss'[i] == ss[i]
  }

  lemma RunMore(ss: seq<Tree>, moves: seq<Move>, s': Tree, t: nat, x: nat) returns (ss': seq<Tree>, moves': seq<Move>)
    requires IsRun(ss, moves) && Shape(Last(ss)) && Next(Last(ss), s', t, x)
    ensures Extends(ss, ss', moves') && Last(ss') == s'
  {
    ss', moves' := ss + [s'], moves + [Move(t, x)];
    forall i | 0 <= i < |moves'| ensures StepAt(ss', moves', i) {
      if i < |moves| { assert StepAt(ss, moves, i); }
    }
  }

  lemma ExtendsTrans(ss: seq<Tree>, ss1: seq<Tree>, moves1: seq<Move>, ss2: seq<Tree>, moves2: seq<Move>)
    requires Extends(ss, ss1, moves1) && Extends(ss1, ss2, moves2)
    ensures Extends(ss, ss2, moves2)
  {
  }

  predicate Quiet(s: Tree) {
    forall t :: 0 <= t < |s.pc| ==> !Busy(s, t)
  }

  /** A step of somebody in the tree code. */
  lemma DrainsOne(ss: seq<Tree>, moves: seq<Move>) returns (ss': seq<Tree>, moves': seq<Move>)
    requires IsRun(ss, moves) && !Quiet(Last(ss))
    ensures Extends(ss, ss', moves') && Work(Last(ss')) < Work(Last(ss))
    ensures Last(ss').d == Last(ss).d && |Last(ss').pc| == |Last(ss).pc|
  {
    var s := Last(ss);
    var t :| 0 <= t < |s.pc| && Busy(s, t);
    var u, x, s' := EndsOutside(ss, moves, |ss| - 1, t);
    assert Inv(s) by { InvRun(ss, moves, |ss| - 1); }
    WorkLess(s, s', u, x);
    SameThreads(s, s', u, x);
    ss', moves' := RunMore(ss, moves, s', u, x);
  }

  /** From the end of every run, a continuation after which nobody is in the tree code. */
  lemma {:induction false} Drains(ss: seq<Tree>, moves: seq<Move>) returns (ss': seq<Tree>, moves': seq<Move>)
    requires IsRun(ss, moves)
    ensures Extends(ss, ss', moves') && Quiet(Last(ss'))
    ensures Last(ss').d == Last(ss).d && |Last(ss').pc| == |Last(ss).pc|
    decreases Work(Last(ss))
  {
    ss', moves' := ss, moves;
    if !Quiet(Last(ss)) {
      var ss1, moves1 := DrainsOne(ss, moves);
      ss', moves' := Drains(ss1, moves1);
      ExtendsTrans(ss, ss1, moves1, ss', moves');
    }
  }

  /** Only t is in the tree code, at p, and not asleep. */
  ghost predicate Solo(s: Tree, t: nat, p: PC) {
    Inv(s) && t < |s.pc| && s.pc[t] == p && s.ms.wait[t] == Free &&
    forall u :: 0 <= u < |s.pc| && u != t ==> s.pc[u] == Out && s.ms.wait[u] == Free
  }

  /** What t does not hold, nobody does. */
  lemma FreeForOne(s: Tree, t: nat, p: PC, m: nat)
    requires Solo(s, t, p) && m < |s.ms.mx| && !Accounted(s.d, p, m)
    ensures !s.ms.mx[m].locked
  {
  }

  lemma SoloLock(s: Tree, t: nat, p: PC, m: nat) returns (s': Tree)
    requires Solo(s, t, p) && m < |s.ms.mx| && Target(s.d, p) == Some(m) && !Accounted(s.d, p, m)
    ensures Next(s, s', t, m) && Solo(s', t, AfterLock(p)) && s'.d == s.d && s'.taken == s.taken
  {
    FreeForOne(s, t, p, m);
    var ms' := Mutexes(s.ms.mx[m := Mutex(true, Some(t))], s.ms.wait[t := Free]);
    s' := s.(ms := ms', pc := s.pc[t := AfterLock(p)]);
    assert NextLock(s, s', t, m);
    InvNext(s, s', t, m);
  }

  /** Unlock and wakeup. */
  lemma SoloUnlock(s: Tree, t: nat, p: PC, m: nat) returns (s1: Tree, s2: Tree)
    requires Solo(s, t, p) && m < |s.ms.mx| && Unlocking(s.d, p) == Some(m)
    ensures Next(s, s1, t, m) && Inv(s1) && Next(s1, s2, t, 0) && Solo(s2, t, AfterUnlock(s.d, p)) && s2.d == s.d
  {
    NeverRefused(s, t, m);
    s1 := s.(ms := Mutexes(s.ms.mx[m := Mutex(false, None)], s.ms.wait[t := MustWake(m)]),
             pc := s.pc[t := AfterUnlock(s.d, p)]);
    assert NextUnlock(s, s1, t, m);
    InvNext(s, s1, t, m);
    var w := s1.ms.wait;
    s2 := s1.(ms := s1.ms.(wait := seq(|w|, u requires 0 <= u < |w| =>
      if u == t then Free else if w[u] == Asleep(w[t].m) then Retry(w[t].m) else w[u])));
    assert NextWake(s1, s2, t);
    InvNext(s1, s2, t, 0);
  }

  /** acquire up to its test, in an empty tree. */
  lemma Tests(ss: seq<Tree>, moves: seq<Move>, t: nat, id: nat) returns (ss': seq<Tree>, moves': seq<Move>)
    requires IsRun(ss, moves) && Quiet(Last(ss)) && t < |Last(ss).pc| && id < Pow2(Last(ss).d)
    ensures Extends(ss, ss', moves') && Solo(Last(ss'), t, AcqTest(id)) && Last(ss').d == Last(ss).d
    ensures id < |Last(ss').taken| && !Last(ss').taken[id]
  {
    var s := Last(ss);
    InvRun(ss, moves, |ss| - 1);
    var s1 := s.(pc := s.pc[t := AcqEnter(id)]);
    CallsAlone(s, s1, t, id);
    var ss1, moves1 := RunMore(ss, moves, s1, t, id);
    var s2 := SoloLock(s1, t, AcqEnter(id), Guard(s.d));
    ss', moves' := RunMore(ss1, moves1, s2, t, Guard(s.d));
    ExtendsTrans(ss, ss1, moves1, ss', moves');
  }

  /** From there to its first node. */
  lemma TakesId(ss: seq<Tree>, moves: seq<Move>, t: nat, id: nat) returns (ss': seq<Tree>, moves': seq<Move>)
    requires IsRun(ss, moves) && Solo(Last(ss), t, AcqTest(id)) && id < |Last(ss).taken| && !Last(ss).taken[id]
    ensures Extends(ss, ss', moves') && Solo(Last(ss'), t, Climb(id, 0)) && Last(ss').d == Last(ss).d
  {
    var s := Last(ss);
    var s1 := s.(pc := s.pc[t := AcqLeave(id, true)], taken := s.taken[id := true], locked := s.locked + 1);
    TestsAlone(s, s1, t, id);
    var ss1, moves1 := RunMore(ss, moves, s1, t, 0);
    var s2, s3 := SoloUnlock(s1, t, AcqLeave(id, true), Guard(s.d));
    var ss2, moves2 := RunMore(ss1, moves1, s2, t, Guard(s.d));
    ss', moves' := RunMore(ss2, moves2, s3, t, 0);
    ExtendsTrans(ss, ss1, moves1, ss2, moves2);
    ExtendsTrans(ss, ss2, moves2, ss', moves');
  }

  lemma CallsAlone(s: Tree, s1: Tree, t: nat, id: nat)
    requires Inv(s) && Quiet(s) && t < |s.pc| && id < Pow2(s.d) && s1 == s.(pc := s.pc[t := AcqEnter(id)])
    ensures Next(s, s1, t, id) && Solo(s1, t, AcqEnter(id)) && !s1.taken[id]
    ensures Guard(s.d) < |s1.ms.mx| && Target(s1.d, AcqEnter(id)) == Some(Guard(s.d))
  {
    forall u | 0 <= u < |s.pc| ensures s.pc[u] == Out && s.ms.wait[u] == Free {
      assert !Busy(s, u);
    }
    assert NextCall(s, s1, t, id);
    InvNext(s, s1, t, id);
  }

  lemma TestsAlone(s: Tree, s': Tree, t: nat, id: nat)
    requires Solo(s, t, AcqTest(id)) && id < |s.taken| && !s.taken[id]
    requires s' == s.(pc := s.pc[t := AcqLeave(id, true)], taken := s.taken[id := true], locked := s.locked + 1)
    ensures Next(s, s', t, 0) && Solo(s', t, AcqLeave(id, true))
  {
    assert NextTable(s, s', t);
    InvNext(s, s', t, 0);
  }

  lemma ClimbsOne(s: Tree, t: nat, id: nat, k: nat) returns (s': Tree, m: nat)
    requires Solo(s, t, Climb(id, k)) && k < s.d && id < Pow2(s.d)
    ensures Next(s, s', t, m) && Solo(s', t, Climb(id, k + 1)) && s'.d == s.d
  {
    PathFacts(s.d, id, k + 1);
    m := Ancestor(s.d, id, k + 1);
    s' := SoloLock(s, t, Climb(id, k), m);
  }

  lemma {:induction false} Climbs(ss: seq<Tree>, moves: seq<Move>, t: nat, id: nat, k: nat)
    returns (ss': seq<Tree>, moves': seq<Move>)
    requires IsRun(ss, moves) && Solo(Last(ss), t, Climb(id, k)) && k <= Last(ss).d && id < Pow2(Last(ss).d)
    ensures Extends(ss, ss', moves') && Solo(Last(ss'), t, Climb(id, Last(ss).d)) && Last(ss').d == Last(ss).d
    decreases Last(ss).d - k
  {
    ss', moves' := ss, moves;
    if k < Last(ss).d {
      var s1, m := ClimbsOne(Last(ss), t, id, k);
      var ss1, moves1 := RunMore(ss, moves, s1, t, m);
      ss', moves' := Climbs(ss1, moves1, t, id, k + 1);
      ExtendsTrans(ss, ss1, moves1, ss', moves');
    }
  }

  /** From the end of every run, for every thread and every id in range, a continuation in which
      that thread returns from acquire under that id: no state the tree can reach shuts anyone out. */
  lemma AnyoneCanEnter(ss: seq<Tree>, moves: seq<Move>, t: nat, id: nat) returns (ss': seq<Tree>, moves': seq<Move>)
    requires IsRun(ss, moves) && t < |Last(ss).pc| && id < Pow2(Last(ss).d)
    ensures Extends(ss, ss', moves') && t < |Last(ss').pc|
    ensures Inside(Last(ss'), t) && Last(ss').pc[t].id == id
  {
    var ss1, moves1 := Drains(ss, moves);
    var ss2, moves2 := Tests(ss1, moves1, t, id);
    var ss3, moves3 := TakesId(ss2, moves2, t, id);
    ss', moves' := Climbs(ss3, moves3, t, id, 0);
    ExtendsTrans(ss, ss1, moves1, ss2, moves2);
    ExtendsTrans(ss, ss2, moves2, ss3, moves3);
    ExtendsTrans(ss, ss3, moves3, ss', moves');
  }
}
