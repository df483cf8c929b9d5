// The table of kernel mutexes of Ass2/proc.c: ids, slots, and the threads using them.  A
// critical section of mtable.mlock is one step; so is the wakeup after an unlock.

module MutexTable {
  import opened Basics
  import opened KernelMutex

  const MAX_MUTEXES := 64

  /** mtable with nextmid, and what each thread is doing.  mid[m] is 0 in a free slot.  asked[m]
      is the id with which the holder of slot m called lock, want[t] that of a waiting thread. */
  datatype Table = Table(mid: seq<int>, ms: Mutexes, asked: seq<int>, want: seq<int>, next: int)

  /** Again is the next round of the loop in kthread_mutex_lock, Wakeup the end of
      kthread_mutex_unlock; the others are calls. */
  datatype Step =
    | Alloc(t: nat)
    | Dealloc(t: nat, id: int)
    | Lock(t: nat, id: int)
    | Again(t: nat)
    | Unlock(t: nat, id: int)
    | Wakeup(t: nat)

  /** On slot m, inside kthread_mutex_lock. */
  predicate Waits(w: Wait, m: nat) {
    w == Asleep(m) || w == Retry(m)
  }

  predicate Shape(s: Table) {
    && |s.mid| == |s.ms.mx| == |s.asked| == MAX_MUTEXES && |s.want| == |s.ms.wait|
    && forall t :: 0 <= t < |s.ms.wait| && s.ms.wait[t] != Free ==> s.ms.wait[t].m < MAX_MUTEXES
  }

  /** The slot a loop over the table finds: the first with that id, or none. */
  function Find(mid: seq<int>, id: int): (m: nat)
    ensures m <= |mid| && (m < |mid| ==> mid[m] == id) && forall k :: 0 <= k < m ==> mid[k] != id
  {
    if mid == [] || mid[0] == id then 0 else 1 + Find(mid[1..], id)
  }

  predicate Enabled(s: Table, step: Step) {
    && step.t < |s.ms.wait|
    && match step
       case Again(t) => s.ms.wait[t].Retry?
       case Wakeup(t) => s.ms.wait[t].MustWake?
       case _ => s.ms.wait[step.t] == Free
  }

  function Take(s: Table, t: nat, m: nat, id: int): Table
    requires Shape(s) && t < |s.ms.wait| && m < MAX_MUTEXES
  {
    s.(ms := Mutexes(s.ms.mx[m := Mutex(true, Some(t))], s.ms.wait[t := Free]), asked := s.asked[m := id])
  }

  function Sleep(s: Table, t: nat, m: nat, id: int): Table
    requires Shape(s) && t < |s.ms.wait|
  {
    s.(ms := s.ms.(wait := s.ms.wait[t := Asleep(m)]), want := s.want[t := id])
  }

  /** Who wakes when slot m is woken up. */
  function Woken(wait: seq<Wait>, t: nat, m: nat): seq<Wait> {
    seq(|wait|, u requires 0 <= u < |wait| => if u == t then Free else if wait[u] == Asleep(m) then Retry(m)
      else wait[u])
  }

  function Clear(s: Table, m: nat, id: int): Table
    requires Shape(s) && m < MAX_MUTEXES
  {
    s.(mid := s.mid[m := id], ms := s.ms.(mx := s.ms.mx[m := Mutex(false, None)]))
  }

  function AfterLock(s: Table, t: nat, id: int): Table
    requires Shape(s) && t < |s.ms.wait|
  {
    var m := Find(s.mid, id);
    if m == MAX_MUTEXES || (s.ms.mx[m].locked && s.ms.mx[m].holder == Some(t)) then s
    else if s.ms.mx[m].locked then Sleep(s, t, m, id)
    else Take(s, t, m, id)
  }

  /** Unlock finds a mutex that t holds. */
  predicate Unlocks(s: Table, t: nat, id: int)
    requires Shape(s)
  {
    var m := Find(s.mid, id);
    m < MAX_MUTEXES && s.ms.mx[m].locked && s.ms.mx[m].holder == Some(t)
  }

  /** Dealloc finds an unlocked mutex. */
  predicate Deallocs(s: Table, id: int)
    requires Shape(s)
  {
    var m := Find(s.mid, id);
    m < MAX_MUTEXES && !s.ms.mx[m].locked
  }

  function After(s: Table, step: Step): Table
    requires Shape(s) && Enabled(s, step)
  {
    match step
    case Alloc(t) =>
      var m := Find(s.mid, 0);
      if m < MAX_MUTEXES then Clear(s, m, s.next).(next := s.next + 1) else s
    case Dealloc(t, id) => if Deallocs(s, id) then Clear(s, Find(s.mid, id), 0) else s
    case Lock(t, id) => AfterLock(s, t, id)
    case Again(t) =>
      var m := s.ms.wait[t].m;
      if s.ms.mx[m].locked then Sleep(s, t, m, s.want[t]) else Take(s, t, m, s.want[t])
    case Unlock(t, id) =>
      var m := Find(s.mid, id);
      if Unlocks(s, t, id) then s.(ms := Mutexes(s.ms.mx[m := Mutex(false, None)], s.ms.wait[t := MustWake(m)])) else s
    case Wakeup(t) => s.(ms := s.ms.(wait := Woken(s.ms.wait, t, s.ms.wait[t].m)))
  }

  /** What the call returns in this step, if it returns. */
  function Result(s: Table, step: Step): Option<int>
    requires Shape(s) && Enabled(s, step)
  {
    match step
    case Alloc(t) => Some(if Find(s.mid, 0) < MAX_MUTEXES then s.next else -1)
    case Dealloc(t, id) => Some(if Deallocs(s, id) then 0 else -1)
    case Lock(t, id) =>
      var m := Find(s.mid, id);
      if m == MAX_MUTEXES || (s.ms.mx[m].locked && s.ms.mx[m].holder == Some(t)) then Some(-1)
      else if s.ms.mx[m].locked then None else Some(0)
    case Again(t) => if s.ms.mx[s.ms.wait[t].m].locked then None else Some(0)
    case Unlock(t, id) => if Unlocks(s, t, id) then None else Some(-1)
    case Wakeup(t) => Some(0)
  }

  // ---------- what every run keeps ----------

  predicate Init(s: Table) {
    && Shape(s) && s.next == 1
    && (forall m :: 0 <= m < MAX_MUTEXES ==> s.mid[m] == 0 && s.ms.mx[m] == Mutex(false, None))
    && forall t :: 0 <= t < |s.ms.wait| ==> s.ms.wait[t] == Free
  }

  ghost predicate IsRun(ss: seq<Table>, steps: seq<Step>) {
    |ss| == |steps| + 1 && Init(ss[0]) && forall i :: 0 <= i < |steps| ==> StepAt(ss, steps, i)
  }

  predicate StepAt(ss: seq<Table>, steps: seq<Step>, i: nat)
    requires i < |steps| && |ss| == |steps| + 1
  {
    Shape(ss[i]) && Enabled(ss[i], steps[i]) && ss[i + 1] == After(ss[i], steps[i])
  }

  /** Live ids are positive, already given out, and in one slot each. */
  ghost predicate IdsOk(mid: seq<int>, next: int) {
    && (forall m :: 0 <= m < |mid| ==> 0 <= mid[m] < next)
    && forall m, n :: 0 <= m < n < |mid| && mid[m] != 0 ==> mid[m] != mid[n]
  }

  /** MLOCKED means one holder, and the holder is a thread. */
  ghost predicate HoldersOk(ms: Mutexes) {
    forall m :: 0 <= m < |ms.mx| ==>
      (ms.mx[m].locked <==> ms.mx[m].holder.Some?) && (ms.mx[m].holder.Some? ==> ms.mx[m].holder.value < |ms.wait|)
  }

  ghost predicate Inv(s: Table) {
    Shape(s) && s.next >= 1 && IdsOk(s.mid, s.next) && HoldersOk(s.ms)
  }

  lemma InvStep(s: Table, step: Step)
    requires Inv(s) && Enabled(s, step)
    ensures Inv(After(s, step))
  {
  }

  /** In every run, whatever ids the calls name: ids stay distinct and MLOCKED has a holder. */
  lemma {:induction false} InvRun(ss: seq<Table>, steps: seq<Step>, k: nat)
    requires IsRun(ss, steps) && k < |ss|
    ensures Inv(ss[k])
  {
    if k > 0 {
      InvRun(ss, steps, k - 1);
      assert StepAt(ss, steps, k - 1);
      InvStep(ss[k - 1], steps[k - 1]);
    }
  }

  lemma {:induction false} NextGrows(ss: seq<Table>, steps: seq<Step>, i: nat, j: nat)
    requires IsRun(ss, steps) && i <= j < |ss|
    ensures ss[i].next <= ss[j].next
    decreases j
  {
    if i < j {
      NextGrows(ss, steps, i, j - 1);
      assert StepAt(ss, steps, j - 1);
    }
  }

  /** alloc never gives out an id twice. */
  lemma FreshIds(ss: seq<Table>, steps: seq<Step>, i: nat, j: nat)
    requires IsRun(ss, steps) && i < j < |steps| && steps[i].Alloc? && steps[j].Alloc?
    ensures Shape(ss[i]) && Enabled(ss[i], steps[i]) && Shape(ss[j]) && Enabled(ss[j], steps[j])
    ensures Result(ss[i], steps[i]) == Some(-1) || Result(ss[i], steps[i]) != Result(ss[j], steps[j])
  {
    assert StepAt(ss, steps, i) && StepAt(ss, steps, j);
    NextGrows(ss, steps, i + 1, j);
    InvRun(ss, steps, i);
  }

  /** A lookup of a live id finds its slot and no other. */
  lemma FindLive(s: Table, m: nat)
    requires Inv(s) && m < MAX_MUTEXES && s.mid[m] != 0
    ensures Find(s.mid, s.mid[m]) == m
  {
  }

  /** The slot a step works on. */
  function Slot(s: Table, step: Step): nat
    requires Enabled(s, step)
  {
    match step
    case Again(t) => s.ms.wait[t].m
    case Wakeup(t) => s.ms.wait[t].m
    case Alloc(t) => Find(s.mid, 0)
    case _ => Find(s.mid, step.id)
  }

  /** Between alloc and dealloc the slots behave as the mutexes of KernelMutex: a refused call
      changes nothing, every other step is one of theirs. */
  lemma CoreStep(s: Table, step: Step)
    requires Inv(s) && Enabled(s, step) && !step.Alloc? && !step.Dealloc?
    ensures Result(s, step) == Some(-1) ==> After(s, step) == s
    ensures Result(s, step) != Some(-1) ==> MutexStep(s.ms, After(s, step).ms, step.t, Slot(s, step))
  {
    var x, x', t, m := s.ms, After(s, step).ms, step.t, Slot(s, step);
    if step.Wakeup? {
      assert WakeAll(x, x', t);
    } else if Result(s, step) == None && !step.Unlock? {
      assert x'.mx == x.mx[m := x.mx[m].(locked := true)];
      assert LockSleeps(x, x', t, m);
    }
  }

  // ---------- mutexes used as intended ----------

  /** The caller names no free slot in lock and frees no mutex with a thread inside lock. */
  ghost predicate Disciplined(s: Table, step: Step)
    requires Shape(s)
  {
    && (step.Lock? && step.id == 0 ==> 0 !in s.mid)
    && (step.Dealloc? && Deallocs(s, step.id) ==>
          forall t :: 0 <= t < |s.ms.wait| ==> !Waits(s.ms.wait[t], Find(s.mid, step.id)))
  }

  /** Locks are on live mutexes, under the id the holder asked for. */
  ghost predicate LocksOk(s: Table)
    requires Shape(s)
  {
    forall m :: 0 <= m < MAX_MUTEXES && s.ms.mx[m].locked ==> s.mid[m] != 0 && s.asked[m] == s.mid[m]
  }

  /** So are waiting threads. */
  ghost predicate WaitersOk(s: Table)
    requires Shape(s)
  {
    forall t :: 0 <= t < |s.ms.wait| && (s.ms.wait[t].Asleep? || s.ms.wait[t].Retry?) ==>
      s.want[t] != 0 && s.mid[s.ms.wait[t].m] == s.want[t]
  }

  /** A sleeper's mutex is locked, or its wakeup is still to come. */
  ghost predicate WakesOk(ms: Mutexes) {
    forall t :: 0 <= t < |ms.wait| && ms.wait[t].Asleep? ==>
      ms.wait[t].m < |ms.mx| && (ms.mx[ms.wait[t].m].locked || WakePending(ms, ms.wait[t].m))
  }

  ghost predicate Good(s: Table) {
    Inv(s) && LocksOk(s) && WaitersOk(s) && WakesOk(s.ms)
  }

  /** A wakeup still to come stays so until its thread delivers it. */
  lemma WakesKept(ms: Mutexes, ms': Mutexes, t: nat)
    requires WakesOk(ms) && |ms'.mx| == |ms.mx| && |ms'.wait| == |ms.wait| && t < |ms.wait| && !ms.wait[t].MustWake?
    requires forall u :: 0 <= u < |ms.wait| && u != t ==> ms'.wait[u] == ms.wait[u]
    requires ms'.wait[t].Asleep? ==> ms'.wait[t].m < |ms'.mx| && ms'.mx[ms'.wait[t].m].locked
    requires forall m :: 0 <= m < |ms.mx| && ms.mx[m].locked && !ms'.mx[m].locked ==> ms'.wait[t] == MustWake(m)
    ensures WakesOk(ms')
  {
    forall u | 0 <= u < |ms'.wait| && ms'.wait[u].Asleep?
      ensures ms'.wait[u].m < |ms'.mx| && (ms'.mx[ms'.wait[u].m].locked || WakePending(ms', ms'.wait[u].m))
    {
      if u != t {
        var m := ms.wait[u].m;
        if ms.mx[m].locked {
          if !ms'.mx[m].locked { assert ms'.wait[t] == MustWake(m); }
        } else {
          var v :| 0 <= v < |ms.wait| && ms.wait[v] == MustWake(m);
          assert ms'.wait[v] == MustWake(m);
        }
      }
    }
  }

  lemma WakesDelivered(ms: Mutexes, t: nat)
    requires WakesOk(ms) && t < |ms.wait| && ms.wait[t].MustWake?
    ensures WakesOk(ms.(wait := Woken(ms.wait, t, ms.wait[t].m)))
  {
    var m := ms.wait[t].m;
    var ms' := ms.(wait := Woken(ms.wait, t, m));
    forall u | 0 <= u < |ms'.wait| && ms'.wait[u].Asleep?
      ensures ms'.wait[u].m < |ms'.mx| && (ms'.mx[ms'.wait[u].m].locked || WakePending(ms', ms'.wait[u].m))
    {
      assert ms.wait[u] == ms'.wait[u] && ms.wait[u].m != m;
      if !ms.mx[ms.wait[u].m].locked {
        var v :| 0 <= v < |ms.wait| && ms.wait[v] == MustWake(ms.wait[u].m);
        assert ms'.wait[v] == MustWake(ms.wait[u].m);
      }
    }
  }

  lemma GoodAlloc(s: Table, t: nat)
    requires Good(s) && Enabled(s, Alloc(t))
    ensures Good(After(s, Alloc(t)))
  {
    InvStep(s, Alloc(t));
    var s' := After(s, Alloc(t));
    WakesKept(s.ms, s'.ms, t);
  }

  lemma GoodDealloc(s: Table, t: nat, id: int)
    requires Good(s) && Enabled(s, Dealloc(t, id))
    ensures Good(After(s, Dealloc(t, id))) <==> Disciplined(s, Dealloc(t, id))
  {
    InvStep(s, Dealloc(t, id));
    if Deallocs(s, id) {
      WakesKept(s.ms, Clear(s, Find(s.mid, id), 0).ms, t);
      WaitersCleared(s, Find(s.mid, id));
    }
  }

  /** Emptying a slot is seen by exactly the threads inside lock on it. */
  lemma WaitersCleared(s: Table, m: nat)
    requires Shape(s) && WaitersOk(s) && m < MAX_MUTEXES
    ensures WaitersOk(Clear(s, m, 0)) <==> forall u :: 0 <= u < |s.ms.wait| ==> !Waits(s.ms.wait[u], m)
  {
    var s' := Clear(s, m, 0);
    forall u | 0 <= u < |s.ms.wait| && Waits(s.ms.wait[u], m) ensures !WaitersOk(s') {
      assert s'.mid[s'.ms.wait[u].m] == 0 && s'.want[u] != 0;
    }
  }

  lemma GoodLock(s: Table, t: nat, id: int)
    requires Good(s) && Enabled(s, Lock(t, id))
    ensures Good(After(s, Lock(t, id))) <==> Disciplined(s, Lock(t, id))
  {
    InvStep(s, Lock(t, id));
    var s' := After(s, Lock(t, id));
    WakesKept(s.ms, s'.ms, t);
    if id == 0 && 0 in s.mid {
      var m := Find(s.mid, 0);
      assert m < MAX_MUTEXES && s'.mid[m] == 0 && s'.ms.mx[m].locked;
    }
  }

  lemma GoodOther(s: Table, step: Step)
    requires Good(s) && Enabled(s, step) && (step.Again? || step.Unlock? || step.Wakeup?)
    ensures Good(After(s, step))
  {
    InvStep(s, step);
    var s' := After(s, step);
    if step.Wakeup? {
      WakesDelivered(s.ms, step.t);
    } else {
      WakesKept(s.ms, s'.ms, step.t);
    }
  }

  /** The exact condition: from a good state a step leads to a good state if and only if the
      call keeps the discipline. */
  lemma GoodIff(s: Table, step: Step)
    requires Good(s) && Enabled(s, step)
    ensures Good(After(s, step)) <==> Disciplined(s, step)
  {
    match step
    case Alloc(t) => GoodAlloc(s, t);
    case Dealloc(t, id) => GoodDealloc(s, t, id);
    case Lock(t, id) => GoodLock(s, t, id);
    case _ => GoodOther(s, step);
  }

  ghost predicate DisciplinedRun(ss: seq<Table>, steps: seq<Step>) {
    IsRun(ss, steps) && forall i :: 0 <= i < |steps| ==> Shape(ss[i]) && Disciplined(ss[i], steps[i])
  }

  /** In every disciplined run: a mutex is MLOCKED exactly when it has its one holder, who
      asked for it by its id; and no wakeup is lost. */
  lemma {:induction false} GoodRun(ss: seq<Table>, steps: seq<Step>, k: nat)
    requires DisciplinedRun(ss, steps) && k < |ss|
    ensures Good(ss[k])
  {
    if k > 0 {
      GoodRun(ss, steps, k - 1);
      assert StepAt(ss, steps, k - 1);
      GoodIff(ss[k - 1], steps[k - 1]);
    }
  }

  lemma HeldStep(s: Table, step: Step, m: nat, t: nat)
    requires Good(s) && Enabled(s, step) && m < MAX_MUTEXES && s.ms.mx[m].holder == Some(t)
    requires step != Unlock(t, s.mid[m])
    ensures After(s, step).ms.mx[m] == s.ms.mx[m] && After(s, step).mid[m] == s.mid[m]
  {
    FindLive(s, m);
  }

  /** Only its holder unlocks a mutex: until that call it stays with the holder, under the same id. */
  lemma {:induction false} HeldUntilUnlock(ss: seq<Table>, steps: seq<Step>, i: nat, j: nat, m: nat, t: nat)
    requires DisciplinedRun(ss, steps) && i <= j < |ss| && m < MAX_MUTEXES
    requires m < |ss[i].ms.mx| && m < |ss[i].mid| && ss[i].ms.mx[m].holder == Some(t)
    requires forall k :: i <= k < j ==> steps[k] != Unlock(t, ss[i].mid[m])
    ensures Shape(ss[j]) && ss[j].ms.mx[m] == ss[i].ms.mx[m] && ss[j].mid[m] == ss[i].mid[m]
    decreases j
  {
    GoodRun(ss, steps, j);
    if i < j {
      HeldUntilUnlock(ss, steps, i, j - 1, m, t);
      GoodRun(ss, steps, j - 1);
      assert StepAt(ss, steps, j - 1);
      HeldStep(ss[j - 1], steps[j - 1], m, t);
    }
  }

  // ---------- what happens otherwise ----------

  /** Extending a run by one step. */
  lemma RunMore(ss: seq<Table>, steps: seq<Step>, step: Step) returns (ss': seq<Table>, steps': seq<Step>)
    requires IsRun(ss, steps) && Shape(ss[|ss| - 1]) && Enabled(ss[|ss| - 1], step)
    ensures IsRun(ss', steps') && ss' == ss + [After(ss[|ss| - 1], step)] && steps' == steps + [step]
  {
    ss', steps' := ss + [After(ss[|ss| - 1], step)], steps + [step];
    forall i | 0 <= i < |steps'| ensures StepAt(ss', steps', i) {
      if i < |steps| { assert StepAt(ss, steps, i); }
    }
  }

  /** Mutex 1 has been unlocked; thread 1, who waits for it, has been woken but has not run. */
  lemma Waiting(s: Table) returns (ss: seq<Table>, steps: seq<Step>)
    requires Init(s) && |s.ms.wait| >= 2
    ensures IsRun(ss, steps) && ss[0] == s && |steps| == 5 && Inv(ss[5]) && ss[5].next == 2
    ensures ss[5].mid[0] == 1 && !ss[5].ms.mx[0].locked && |ss[5].ms.wait| >= 2
    ensures ss[5].ms.wait[0] == Free && ss[5].ms.wait[1] == Retry(0) && ss[5].want[1] == 1
  {
    ss, steps := [s], [];
    ss, steps := RunMore(ss, steps, Alloc(0));
    ss, steps := RunMore(ss, steps, Lock(0, 1));
    ss, steps := RunMore(ss, steps, Lock(1, 1));
    ss, steps := RunMore(ss, steps, Unlock(0, 1));
    ss, steps := RunMore(ss, steps, Wakeup(0));
    InvRun(ss, steps, 5);
  }

  /** Freeing a mutex on which thread 1 waits: it comes to hold the next mutex in that slot,
      id 2, though it asked for id 1, and its unlock of id 1 is refused. */
  lemma FreedWhileWaiting(s: Table) returns (ss: seq<Table>, steps: seq<Step>)
    requires Init(s) && |s.ms.wait| >= 2
    ensures IsRun(ss, steps) && ss[0] == s && Inv(ss[|ss| - 1])
    ensures var e := ss[|ss| - 1];
      && e.mid[0] == 2 && e.ms.mx[0] == Mutex(true, Some(1)) && e.asked[0] == 1
      && |e.ms.wait| >= 2 && e.ms.wait[1] == Free && Result(e, Unlock(1, 1)) == Some(-1)
    ensures |steps| == 8 && Shape(ss[5]) && Enabled(ss[5], steps[5]) && steps[5] == Dealloc(0, 1)
    ensures Result(ss[5], steps[5]) == Some(0) && !Disciplined(ss[5], steps[5])
  {
    ss, steps := Waiting(s);
    assert Waits(ss[5].ms.wait[1], 0);
    ss, steps := RunMore(ss, steps, Dealloc(0, 1));
    ss, steps := RunMore(ss, steps, Alloc(0));
    ss, steps := RunMore(ss, steps, Again(1));
    InvRun(ss, steps, 8);
  }

  /** Locking id 0 locks a free slot; alloc then unlocks it and wakes nobody. */
  lemma FreeSlotLocked(s: Table) returns (ss: seq<Table>, steps: seq<Step>)
    requires Init(s) && |s.ms.wait| >= 2
    ensures IsRun(ss, steps) && ss[0] == s && |steps| == 3
    ensures Shape(s) && Enabled(s, steps[0]) && steps[0] == Lock(0, 0) && Result(s, steps[0]) == Some(0) &&
      !Disciplined(s, steps[0])
    ensures !WakesOk(ss[3].ms)
  {
    ss, steps := [s], [];
    assert s.mid[0] == 0;
    ss, steps := RunMore(ss, steps, Lock(0, 0));
    ss, steps := RunMore(ss, steps, Lock(1, 0));
    ss, steps := RunMore(ss, steps, Alloc(0));
    assert ss[3].ms.wait[1] == Asleep(0) && !ss[3].ms.mx[0].locked;
  }
}
