// The tournament-tree lock of Ass2/tournament_tree.c over the kernel mutexes.

module TreeShape {
  function Pow2(n: nat): nat {
    if n == 0 then 1 else 2 * Pow2(n - 1)
  }

  /** The node a participant reaches after k steps of parent = (parent - 1) / 2 from its
      leaf, total_nodes - threads + id. */
  function Ancestor(depth: nat, id: nat, k: nat): int {
    if k == 0 then Pow2(depth) - 1 + id else (Ancestor(depth, id, k - 1) - 1) / 2
  }

  /** After k steps the climber is in the row of Pow2(depth - k) nodes. */
  lemma {:induction false} AncestorRow(depth: nat, id: nat, k: nat)
    requires k <= depth && id < Pow2(depth)
    ensures Pow2(depth - k) - 1 <= Ancestor(depth, id, k) < 2 * Pow2(depth - k) - 1
  {
    if k > 0 {
      AncestorRow(depth, id, k - 1);
      assert Pow2(depth - k + 1) == 2 * Pow2(depth - k);
    }
  }

  lemma {:induction false} Pow2Grows(a: nat, b: nat)
    requires a < b
    ensures 2 * Pow2(a) <= Pow2(b)
  {
    if a + 1 < b { Pow2Grows(a, b - 1); }
  }

  /** A node belongs to one row only. */
  lemma RowOfNode(depth: nat, i: nat, k: nat, j: nat, l: nat)
    requires k <= depth && l <= depth && i < Pow2(depth) && j < Pow2(depth)
    requires Ancestor(depth, i, k) == Ancestor(depth, j, l)
    ensures k == l
  {
    AncestorRow(depth, i, k);
    AncestorRow(depth, j, l);
    if k < l { Pow2Grows(depth - l, depth - k); }
    if l < k { Pow2Grows(depth - k, depth - l); }
  }

  /** The nodes on the way up strictly decrease and end at the root after depth steps. */
  lemma ClimbReachesRoot(depth: nat, id: nat, k: nat)
    requires id < Pow2(depth) && k <= depth
    ensures k < depth ==> Ancestor(depth, id, k + 1) < Ancestor(depth, id, k)
    ensures k == depth ==> Ancestor(depth, id, k) == 0
    ensures 0 <= Ancestor(depth, id, k) < 2 * Pow2(depth) - 1
    ensures k > 0 ==> Ancestor(depth, id, k) < Pow2(depth) - 1
  {
    AncestorRow(depth, id, k);
    if k > 0 { Pow2Grows(depth - k, depth); }
  }

  lemma Pow2Positive(n: nat)
    ensures Pow2(n) >= 1
  {
  }

  /** trnmnt_tree_alloc: the loop that computes total_nodes and threads. */
  method Sizes(depth: nat) returns (nodes: int, threads: int)
    ensures threads == Pow2(depth) && nodes == 2 * threads - 1
  {
    nodes := 1;
    var i := 0;
    while i <= depth
      invariant 0 <= i <= depth + 1 && nodes == Pow2(i)
    {
      nodes := nodes * 2;
      i := i + 1;
    }
    threads := nodes / 2;
    nodes := nodes - 1;
  }

  /** The path of a leaf, from its parent to the root. */
  function Path(depth: nat, id: nat, k: nat): seq<int> {
    if k == 0 then [] else Path(depth, id, k - 1) + [Ancestor(depth, id, k)]
  }

  /** The order in which trnmnt_tree_acquire locks nodes. */
  method LockOrder(depth: nat, id: nat) returns (order: seq<int>)
    ensures order == Path(depth, id, depth)
  {
    var nodes, threads := Sizes(depth);
    var parent := nodes - threads + id;
    order := [];
    for i := 0 to depth
      invariant parent == Ancestor(depth, id, i) && order == Path(depth, id, i)
    {
      parent := (parent - 1) / 2;
      order := order + [parent];
    }
  }

  function Reverse(s: seq<int>): seq<int> {
    if s == [] then [] else [s[|s| - 1]] + Reverse(s[..|s| - 1])
  }

  /** The order in which release_lock, called with the k-th ancestor, unlocks nodes: from
      the root down to it. */
  method UnlockOrder(depth: nat, id: nat, k: nat, parent: int) returns (order: seq<int>)
    requires 1 <= k <= depth && id < Pow2(depth) && parent == Ancestor(depth, id, k)
    ensures Path(depth, id, k - 1) + Reverse(order) == Path(depth, id, depth)
    decreases depth - k
  {
    ClimbReachesRoot(depth, id, k);
    if parent == 0 {
      RootOnlyAtTop(depth, id, k);
      order := [0];
      assert Reverse(order) == [0] + Reverse([]);
    } else {
      var up := UnlockOrder(depth, id, k + 1, (parent - 1) / 2);
      order := up + [parent];
      assert order[..|order| - 1] == up;
      assert Path(depth, id, k - 1) + Reverse(order) == Path(depth, id, k) + Reverse(up);
    }
  }

  lemma RootOnlyAtTop(depth: nat, id: nat, k: nat)
    requires id < Pow2(depth) && k <= depth
    ensures Ancestor(depth, id, k) == 0 <==> k == depth
  {
    AncestorRow(depth, id, k);
    if k < depth { Pow2Grows(0, depth - k); }
  }
}

module Tournament {
  import opened Basics
  import opened KernelMutex
  import opened TreeShape

  /** Where a thread is in the tree code.  Climb(id, k): holds the first k nodes of the
      path from leaf id and locks the next, or has returned from acquire if k == depth.
      Descend(id, k): holds the first k nodes and unlocks the k-th next. */
  datatype PC =
    | Out
    | AcqEnter(id: nat)                 // acquire: locking tree->lock
    | AcqTest(id: nat)                  // acquire: tests taken_ids[id]
    | AcqLeave(id: nat, ok: bool)       // acquire: unlocking tree->lock
    | Climb(id: nat, k: nat)
    | RelEnter(id: nat)                 // release: locking tree->lock
    | RelTest(id: nat)
    | RelLeave(id: nat, ok: bool)
    | Descend(id: nat, k: nat)
    | DoneEnter(id: nat)                // release: locking tree->lock again
    | DoneClear(id: nat)
    | DoneLeave(id: nat)

  /** A tree of depth d with its mutexes, the threads using it, taken_ids, num_of_locked. */
  datatype Tree = Tree(d: nat, ms: Mutexes, pc: seq<PC>, taken: seq<bool>, locked: int)

  /** tree->lock is mutex number total_nodes; nodes are 0 .. total_nodes - 1. */
  function Guard(d: nat): int {
    2 * Pow2(d) - 1
  }

  predicate Shape(s: Tree) {
    && s.d >= 1 && |s.taken| == Pow2(s.d)
    && |s.ms.mx| == Guard(s.d) + 1 && |s.ms.wait| == |s.pc|
    && forall t :: 0 <= t < |s.pc| && s.pc[t] != Out ==> s.pc[t].id < Pow2(s.d)
  }

  // ---------- steps of thread t ----------

  /** The mutex a thread is locking, if it is. */
  function Target(d: nat, p: PC): Option<int> {
    match p
    case AcqEnter(_) => Some(Guard(d))
    case RelEnter(_) => Some(Guard(d))
    case DoneEnter(_) => Some(Guard(d))
    case Climb(id, k) => if k < d then Some(Ancestor(d, id, k + 1)) else None
    case _ => None
  }

  function AfterLock(p: PC): PC {
    match p
    case AcqEnter(id) => AcqTest(id)
    case RelEnter(id) => RelTest(id)
    case DoneEnter(id) => DoneClear(id)
    case Climb(id, k) => Climb(id, k + 1)
    case _ => p
  }

  /** The mutex a thread unlocks next, if it is about to: the guard, or in release_lock's
      order the highest node it still holds. */
  function Unlocking(d: nat, p: PC): Option<int> {
    match p
    case AcqLeave(_, _) => Some(Guard(d))
    case RelLeave(_, _) => Some(Guard(d))
    case DoneLeave(_) => Some(Guard(d))
    case Descend(id, k) => if k > 0 then Some(Ancestor(d, id, k)) else None
    case _ => None
  }

  function AfterUnlock(d: nat, p: PC): PC {
    match p
    case AcqLeave(id, ok) => if ok then Climb(id, 0) else Out
    case RelLeave(id, ok) => if ok then Descend(id, d) else Out
    case DoneLeave(_) => Out
    case Descend(id, k) => if k > 1 then Descend(id, k - 1) else DoneEnter(id)
    case _ => p
  }

  /** A call to acquire with an id in range (others return -1 at once), or to release by
      the thread that acquired. */
  predicate NextCall(s: Tree, s': Tree, t: nat, id: nat)
    requires Shape(s)
  {
    && t < |s.pc| && s.ms.wait[t] == Free
    && ((s.pc[t] == Out && id < Pow2(s.d) && s' == s.(pc := s.pc[t := AcqEnter(id)])) ||
        (s.pc[t] == Climb(id, s.d) && s' == s.(pc := s.pc[t := RelEnter(id)])))
  }

  predicate NextSleep(s: Tree, s': Tree, t: nat, m: nat) {
    && t < |s.pc| && Target(s.d, s.pc[t]) == Some(m)
    && LockSleeps(s.ms, s'.ms, t, m) && s' == s.(ms := s'.ms)
  }

  predicate NextLock(s: Tree, s': Tree, t: nat, m: nat) {
    && t < |s.pc| && Target(s.d, s.pc[t]) == Some(m)
    && LockTaken(s.ms, s'.ms, t, m) && s' == s.(ms := s'.ms, pc := s.pc[t := AfterLock(s.pc[t])])
  }

  predicate NextUnlock(s: Tree, s': Tree, t: nat, m: nat) {
    && t < |s.pc| && Unlocking(s.d, s.pc[t]) == Some(m)
    && UnlockDone(s.ms, s'.ms, t, m) && s' == s.(ms := s'.ms, pc := s.pc[t := AfterUnlock(s.d, s.pc[t])])
  }

  predicate NextWake(s: Tree, s': Tree, t: nat) {
    WakeAll(s.ms, s'.ms, t) && s' == s.(ms := s'.ms)
  }

  /** Tests and updates of taken_ids and num_of_locked under tree->lock. */
  predicate NextTable(s: Tree, s': Tree, t: nat)
    requires Shape(s)
  {
    && t < |s.pc| && s.ms.wait[t] == Free && s.pc[t] != Out
    && var id := s.pc[t].id;
       match s.pc[t]
       case AcqTest(_) =>
         if s.taken[id] then s' == s.(pc := s.pc[t := AcqLeave(id, false)])
         else s' == s.(pc := s.pc[t := AcqLeave(id, true)], taken := s.taken[id := true], locked := s.locked + 1)
       case RelTest(_) => s' == s.(pc := s.pc[t := RelLeave(id, s.taken[id])])
       case DoneClear(_) =>
         s' == s.(pc := s.pc[t := DoneLeave(id)], taken := s.taken[id := false], locked := s.locked - 1)
       case _ => false
  }

  predicate Next(s: Tree, s': Tree, t: nat, x: nat)
    requires Shape(s)
  {
    NextCall(s, s', t, x) || NextSleep(s, s', t, x) || NextLock(s, s', t, x) || NextUnlock(s, s', t, x) ||
    NextWake(s, s', t) || NextTable(s, s', t)
  }

  predicate Init(s: Tree) {
    && Shape(s) && s.locked == 0
    && (forall m :: 0 <= m < |s.ms.mx| ==> s.ms.mx[m] == Mutex(false, None))
    && (forall t :: 0 <= t < |s.pc| ==> s.pc[t] == Out && s.ms.wait[t] == Free)
    && (forall i :: 0 <= i < |s.taken| ==> !s.taken[i])
  }

  // ---------- the invariant ----------

  /** The number of path nodes a thread holds, from its leaf's parent upwards. */
  function Held(d: nat, p: PC): nat {
    match p
    case Climb(_, k) => k
    case RelEnter(_) => d
    case RelTest(_) => d
    case RelLeave(_, _) => d
    case Descend(_, k) => k
    case _ => 0
  }

  predicate InGuard(p: PC) {
    p.AcqTest? || p.AcqLeave? || p.RelTest? || p.RelLeave? || p.DoneClear? || p.DoneLeave?
  }

  /** The thread owns its id: it set taken_ids[id] and has not cleared it. */
  predicate HasId(p: PC) {
    (p.AcqLeave? && p.ok) || p.Climb? || p.RelEnter? || p.RelTest? || p.RelLeave? ||
    p.Descend? || p.DoneEnter? || p.DoneClear?
  }

  predicate PcOk(d: nat, p: PC) {
    && (p != Out ==> p.id < Pow2(d))
    && (p.Climb? ==> p.k <= d)
    && (p.Descend? ==> 1 <= p.k <= d)
    && (p.RelLeave? ==> p.ok)
  }

  predicate Owned(mx: seq<Mutex>, m: int, t: nat) {
    0 <= m < |mx| && mx[m].holder == Some(t)
  }

  ghost predicate HoldsPath(d: nat, mx: seq<Mutex>, p: PC, t: nat) {
    forall j: nat :: 1 <= j <= Held(d, p) && p != Out ==> Owned(mx, Ancestor(d, p.id, j), t)
  }

  ghost predicate ThreadOk(d: nat, mx: seq<Mutex>, taken: seq<bool>, w: Wait, p: PC, t: nat) {
    && PcOk(d, p)
    && (w.Asleep? || w.Retry? ==> Target(d, p) == Some(w.m))
    && HoldsPath(d, mx, p, t)
    && (InGuard(p) ==> Owned(mx, Guard(d), t))
    && (HasId(p) ==> p.id < |taken| && taken[p.id])
  }

  /** A held mutex is the guard of a thread in a guarded section, or on its path. */
  ghost predicate Accounted(d: nat, p: PC, m: int) {
    if m == Guard(d) then InGuard(p) else OnPath(d, p, m)
  }

  /** m is one of the first Held nodes of the thread's path. */
  ghost predicate OnPath(d: nat, p: PC, m: int) {
    exists j: nat :: 1 <= j <= Held(d, p) && p != Out && m == Ancestor(d, p.id, j)
  }

  ghost predicate ThreadsOk(s: Tree) {
    |s.ms.wait| == |s.pc| &&
    forall t :: 0 <= t < |s.pc| ==> ThreadOk(s.d, s.ms.mx, s.taken, s.ms.wait[t], s.pc[t], t)
  }

  ghost predicate HoldersOk(s: Tree) {
    forall m :: 0 <= m < |s.ms.mx| && s.ms.mx[m].holder.Some? ==>
      s.ms.mx[m].holder.value < |s.pc| && Accounted(s.d, s.pc[s.ms.mx[m].holder.value], m)
  }

  /** At most one thread per id, and exactly the taken ids have one. */
  ghost predicate IdsOk(pc: seq<PC>, taken: seq<bool>) {
    && (forall t, u :: 0 <= t < u < |pc| && HasId(pc[t]) && HasId(pc[u]) ==> pc[t].id != pc[u].id)
    && (forall i :: 0 <= i < |taken| && taken[i] ==> exists t :: 0 <= t < |pc| && HasId(pc[t]) && pc[t].id == i)
  }

  function CountTrue(b: seq<bool>): nat {
    if b == [] then 0 else (if b[0] then 1 else 0) + CountTrue(b[1..])
  }

  lemma {:induction false} CountUpdate(b: seq<bool>, i: nat, v: bool)
    requires i < |b|
    ensures CountTrue(b[i := v]) == CountTrue(b) - (if b[i] then 1 else 0) + (if v then 1 else 0)
    ensures b[i] ==> CountTrue(b) > 0
  {
    if i == 0 {
      assert b[i := v][1..] == b[1..];
    } else {
      CountUpdate(b[1..], i - 1, v);
      assert b[i := v][1..] == b[1..][i - 1 := v];
    }
  }

  lemma {:induction false} CountNone(b: seq<bool>)
    ensures CountTrue(b) == 0 <==> forall i :: 0 <= i < |b| ==> !b[i]
  {
    if b != [] {
      CountNone(b[1..]);
      assert forall i :: 1 <= i < |b| ==> b[i] == b[1..][i - 1];
    }
  }

  ghost predicate Inv(s: Tree) {
    && Shape(s) && MutexInv(s.ms) && ThreadsOk(s) && HoldersOk(s) && IdsOk(s.pc, s.taken)
    && s.locked == CountTrue(s.taken)
  }

  lemma InvInit(s: Tree)
    requires Init(s)
    ensures Inv(s)
  {
    Pow2Positive(s.d);
    CountNone(s.taken);
  }

  /** The nodes of a path: in range, below the guard, each in its own row. */
  lemma PathFacts(d: nat, id: nat, k: nat)
    requires id < Pow2(d) && 1 <= k <= d
    ensures 0 <= Ancestor(d, id, k) < Pow2(d) - 1 && Ancestor(d, id, k) < Guard(d)
    ensures forall j: nat, l: nat :: j < Pow2(d) && l <= d && Ancestor(d, j, l) == Ancestor(d, id, k) ==> l == k
  {
    ClimbReachesRoot(d, id, k);
    forall j: nat, l: nat | j < Pow2(d) && l <= d && Ancestor(d, j, l) == Ancestor(d, id, k) ensures l == k {
      RowOfNode(d, j, l, id, k);
    }
  }

  /** A thread that did not move keeps its invariant if its mutexes and its id stay. */
  lemma ThreadFrame(d: nat, mx: seq<Mutex>, mx': seq<Mutex>, taken: seq<bool>, taken': seq<bool>,
                    w: Wait, w': Wait, p: PC, t: nat)
    requires ThreadOk(d, mx, taken, w, p, t)
    requires forall m :: Owned(mx, m, t) ==> Owned(mx', m, t)
    requires HasId(p) ==> |taken'| == |taken| && taken'[p.id]
    requires w'.Asleep? || w'.Retry? ==> (w.Asleep? || w.Retry?) && w.m == w'.m
    ensures ThreadOk(d, mx', taken', w', p, t)
  {
  }

  lemma InvCall(s: Tree, s': Tree, t: nat, id: nat)
    requires Inv(s) && NextCall(s, s', t, id)
    ensures Inv(s')
  {
    forall m | 0 <= m < |s.ms.mx| && s.ms.mx[m].holder == Some(t) ensures Accounted(s.d, s'.pc[t], m) {
      assert Accounted(s.d, s.pc[t], m);
    }
    IdsMoved(s.pc, s.taken, t, s'.pc[t]);
  }

  /** Moving a thread without changing which id it owns. */
  lemma IdsMoved(pc: seq<PC>, taken: seq<bool>, t: nat, p: PC)
    requires t < |pc| && IdsOk(pc, taken)
    requires HasId(p) == HasId(pc[t]) && (HasId(p) ==> p.id == pc[t].id)
    ensures IdsOk(pc[t := p], taken)
  {
    var pc' := pc[t := p];
    forall i | 0 <= i < |taken| && taken[i] ensures exists u :: 0 <= u < |pc'| && HasId(pc'[u]) && pc'[u].id == i {
      var u :| 0 <= u < |pc| && HasId(pc[u]) && pc[u].id == i;
      assert HasId(pc'[u]) && pc'[u].id == i;
    }
  }

  lemma InvWake(s: Tree, s': Tree, t: nat)
    requires Inv(s) && NextWake(s, s', t)
    ensures Inv(s')
  {
    MutexInvStep(s.ms, s'.ms, t, 0);
    forall u | 0 <= u < |s.pc| ensures ThreadOk(s.d, s'.ms.mx, s'.taken, s'.ms.wait[u], s'.pc[u], u) {
      ThreadFrame(s.d, s.ms.mx, s'.ms.mx, s.taken, s'.taken, s.ms.wait[u], s'.ms.wait[u], s.pc[u], u);
    }
  }

  lemma InvSleep(s: Tree, s': Tree, t: nat, m: nat)
    requires Inv(s) && NextSleep(s, s', t, m)
    ensures Inv(s')
  {
    MutexInvStep(s.ms, s'.ms, t, m);
    assert s'.ms.mx == s.ms.mx;
  }

  lemma MoverLock(d: nat, mx: seq<Mutex>, taken: seq<bool>, w: Wait, p: PC, t: nat, m: nat)
    requires ThreadOk(d, mx, taken, w, p, t) && m < |mx| && |mx| == Guard(d) + 1 && d >= 1
    requires Target(d, p) == Some(m) && !mx[m].holder.Some?
    ensures ThreadOk(d, mx[m := Mutex(true, Some(t))], taken, Free, AfterLock(p), t)
    ensures Accounted(d, AfterLock(p), m)
    ensures forall k :: k != m && Accounted(d, p, k) ==> Accounted(d, AfterLock(p), k)
  {
    var mx' := mx[m := Mutex(true, Some(t))];
    assert forall k :: Owned(mx, k, t) ==> Owned(mx', k, t);
    if p.Climb? { PathFacts(d, p.id, p.k + 1); }
  }

  lemma InvLock(s: Tree, s': Tree, t: nat, m: nat)
    requires Inv(s) && NextLock(s, s', t, m)
    ensures Inv(s')
  {
    MutexInvStep(s.ms, s'.ms, t, m);
    MoverLock(s.d, s.ms.mx, s.taken, s.ms.wait[t], s.pc[t], t, m);
    OthersStay(s, s', t);
    IdsMoved(s.pc, s.taken, t, s'.pc[t]);
  }

  /** The threads other than t keep their invariant when t takes or frees a mutex. */
  lemma OthersStay(s: Tree, s': Tree, t: nat)
    requires ThreadsOk(s) && s'.d == s.d && |s'.pc| == |s.pc| && |s'.ms.wait| == |s.ms.wait| && t < |s.pc|
    requires |s'.taken| == |s.taken|
    requires forall u :: 0 <= u < |s.pc| && u != t ==>
      && s'.pc[u] == s.pc[u] && s'.ms.wait[u] == s.ms.wait[u]
      && (HasId(s.pc[u]) ==> s.pc[u].id < |s.taken| && (s.taken[s.pc[u].id] ==> s'.taken[s.pc[u].id]))
    requires forall m, u: nat :: u != t && Owned(s.ms.mx, m, u) ==> Owned(s'.ms.mx, m, u)
    ensures forall u :: 0 <= u < |s.pc| && u != t ==>
      ThreadOk(s'.d, s'.ms.mx, s'.taken, s'.ms.wait[u], s'.pc[u], u)
  {
    forall u | 0 <= u < |s.pc| && u != t ensures ThreadOk(s'.d, s'.ms.mx, s'.taken, s'.ms.wait[u], s'.pc[u], u) {
      ThreadFrame(s.d, s.ms.mx, s'.ms.mx, s.taken, s'.taken, s.ms.wait[u], s'.ms.wait[u], s.pc[u], u);
    }
  }

  lemma MoverUnlock(d: nat, mx: seq<Mutex>, taken: seq<bool>, p: PC, t: nat, m: nat)
    requires ThreadOk(d, mx, taken, Free, p, t) && m < |mx| && |mx| == Guard(d) + 1 && d >= 1
    requires Unlocking(d, p) == Some(m)
    ensures ThreadOk(d, mx[m := Mutex(false, None)], taken, MustWake(m), AfterUnlock(d, p), t)
    ensures forall k :: k != m && Accounted(d, p, k) ==> Accounted(d, AfterUnlock(d, p), k)
  {
    if p.Descend? {
      PathFacts(d, p.id, p.k);
    } else if p.RelLeave? {
      forall j: nat | 1 <= j <= d ensures Ancestor(d, p.id, j) != m { PathFacts(d, p.id, j); }
    }
  }

  lemma InvUnlock(s: Tree, s': Tree, t: nat, m: nat)
    requires Inv(s) && NextUnlock(s, s', t, m)
    ensures Inv(s')
  {
    MutexInvStep(s.ms, s'.ms, t, m);
    MoverUnlock(s.d, s.ms.mx, s.taken, s.pc[t], t, m);
    OthersStay(s, s', t);
    IdsMoved(s.pc, s.taken, t, s'.pc[t]);
  }

  lemma MoverTable(s: Tree, s': Tree, t: nat)
    requires Shape(s) && NextTable(s, s', t)
    requires ThreadOk(s.d, s.ms.mx, s.taken, s.ms.wait[t], s.pc[t], t)
    ensures ThreadOk(s.d, s.ms.mx, s'.taken, s.ms.wait[t], s'.pc[t], t)
    ensures forall k :: Accounted(s.d, s.pc[t], k) ==> Accounted(s.d, s'.pc[t], k)
  {
  }

  lemma InvTable(s: Tree, s': Tree, t: nat)
    requires Inv(s) && NextTable(s, s', t)
    ensures Inv(s')
  {
    ThreadsTable(s, s', t);
    HoldersTable(s, s', t);
    IdsTable(s, s', t);
    CountUpdate(s.taken, s.pc[t].id, s'.taken[s.pc[t].id]);
  }

  lemma ThreadsTable(s: Tree, s': Tree, t: nat)
    requires Shape(s) && ThreadsOk(s) && IdsOk(s.pc, s.taken) && NextTable(s, s', t)
    ensures ThreadsOk(s')
  {
    MoverTable(s, s', t);
    assert forall u :: 0 <= u < |s.pc| && u != t && HasId(s.pc[u]) ==> s'.taken[s.pc[u].id] by {
      assert s.pc[t].DoneClear? ==> HasId(s.pc[t]);
    }
    OthersStay(s, s', t);
  }

  lemma HoldersTable(s: Tree, s': Tree, t: nat)
    requires Shape(s) && ThreadsOk(s) && HoldersOk(s) && NextTable(s, s', t)
    ensures HoldersOk(s')
  {
    MoverTable(s, s', t);
    forall m | 0 <= m < |s'.ms.mx| && s'.ms.mx[m].holder.Some?
      ensures s'.ms.mx[m].holder.value < |s'.pc| && Accounted(s'.d, s'.pc[s'.ms.mx[m].holder.value], m)
    {
      assert Accounted(s.d, s.pc[s.ms.mx[m].holder.value], m);
    }
  }

  lemma IdsTable(s: Tree, s': Tree, t: nat)
    requires Shape(s) && ThreadsOk(s) && IdsOk(s.pc, s.taken) && NextTable(s, s', t)
    ensures IdsOk(s'.pc, s'.taken)
  {
    var p := s.pc[t];
    if p.RelTest? || (p.AcqTest? && s.taken[p.id]) {
      IdsMoved(s.pc, s.taken, t, s'.pc[t]);
    } else {
      forall i | 0 <= i < |s'.taken| && s'.taken[i]
        ensures exists u :: 0 <= u < |s'.pc| && HasId(s'.pc[u]) && s'.pc[u].id == i
      {
        if i == p.id {
          assert HasId(s'.pc[t]);
        } else {
          var u :| 0 <= u < |s.pc| && HasId(s.pc[u]) && s.pc[u].id == i;
          assert u != t && s'.pc[u] == s.pc[u];
        }
      }
    }
  }

  /** Every step keeps the invariant. */
  lemma InvNext(s: Tree, s': Tree, t: nat, x: nat)
    requires Inv(s) && Next(s, s', t, x)
    ensures Inv(s')
  {
    if NextCall(s, s', t, x) { InvCall(s, s', t, x); }
    else if NextSleep(s, s', t, x) { InvSleep(s, s', t, x); }
    else if NextLock(s, s', t, x) { InvLock(s, s', t, x); }
    else if NextUnlock(s, s', t, x) { InvUnlock(s, s', t, x); }
    else if NextWake(s, s', t) { InvWake(s, s', t); }
    else { InvTable(s, s', t); }
  }

  datatype Move = Move(t: nat, x: nat)

  /** A run: each state follows from the one before by a step of some thread. */
  ghost predicate IsRun(ss: seq<Tree>, moves: seq<Move>) {
    |ss| == |moves| + 1 && Init(ss[0]) && forall i :: 0 <= i < |moves| ==> StepAt(ss, moves, i)
  }

  predicate StepAt(ss: seq<Tree>, moves: seq<Move>, i: nat)
    requires i < |moves| && |ss| == |moves| + 1
  {
    Shape(ss[i]) && Next(ss[i], ss[i + 1], moves[i].t, moves[i].x)
  }

  lemma {:induction false} InvRun(ss: seq<Tree>, moves: seq<Move>, k: nat)
    requires IsRun(ss, moves) && k < |ss|
    ensures Inv(ss[k])
  {
    if k == 0 {
      InvInit(ss[0]);
    } else {
      InvRun(ss, moves, k - 1);
      assert StepAt(ss, moves, k - 1);
      InvNext(ss[k - 1], ss[k], moves[k - 1].t, moves[k - 1].x);
    }
  }

  // ---------- what the tree guarantees ----------

  /** Between the return of acquire and the start of release_lock. */
  predicate Inside(s: Tree, t: nat)
    requires t < |s.pc|
  {
    s.pc[t] != Out && Held(s.d, s.pc[t]) == s.d
  }

  /** Mutual exclusion, in every state of every run. */
  lemma MutualExclusion(ss: seq<Tree>, moves: seq<Move>, k: nat, t: nat, u: nat)
    requires IsRun(ss, moves) && k < |ss| && t < |ss[k].pc| && u < |ss[k].pc|
    requires Inside(ss[k], t) && Inside(ss[k], u)
    ensures t == u
  {
    InvRun(ss, moves, k);
    var s := ss[k];
    ClimbReachesRoot(s.d, s.pc[t].id, s.d);
    ClimbReachesRoot(s.d, s.pc[u].id, s.d);
    assert Owned(s.ms.mx, Ancestor(s.d, s.pc[t].id, s.d), t);
    assert Owned(s.ms.mx, Ancestor(s.d, s.pc[u].id, s.d), u);
  }

  /** The tree nodes a thread holds are exactly the first Held nodes of its path. */
  lemma HeldIsPrefix(ss: seq<Tree>, moves: seq<Move>, k: nat, t: nat, m: nat)
    requires IsRun(ss, moves) && k < |ss| && t < |ss[k].pc| && m < Guard(ss[k].d)
    ensures |ss[k].ms.mx| > m && (ss[k].ms.mx[m].holder == Some(t) <==> OnPath(ss[k].d, ss[k].pc[t], m))
  {
    InvRun(ss, moves, k);
    var s := ss[k];
    assert ThreadOk(s.d, s.ms.mx, s.taken, s.ms.wait[t], s.pc[t], t);
    if s.ms.mx[m].holder == Some(t) {
      assert Accounted(s.d, s.pc[t], m);
    }
    if OnPath(s.d, s.pc[t], m) {
      var j: nat :| 1 <= j <= Held(s.d, s.pc[t]) && s.pc[t] != Out && m == Ancestor(s.d, s.pc[t].id, j);
      assert Owned(s.ms.mx, Ancestor(s.d, s.pc[t].id, j), t);
    }
  }

  /** Thread t holds node m, or is locking it. */
  ghost predicate At(s: Tree, t: nat, m: int)
    requires t < |s.pc|
  {
    Owned(s.ms.mx, m, t) || Target(s.d, s.pc[t]) == Some(m)
  }

  /** m is the k-th node on the path of thread t, which holds or is the child before it. */
  predicate Arrived(s: Tree, t: nat, k: nat, m: int) {
    && t < |s.pc| && s.pc[t] != Out && HasId(s.pc[t]) && s.pc[t].id < Pow2(s.d)
    && 1 <= k <= s.d && Ancestor(s.d, s.pc[t].id, k) == m
    && (k > 1 ==> Owned(s.ms.mx, Ancestor(s.d, s.pc[t].id, k - 1), t))
    && (Ancestor(s.d, s.pc[t].id, k - 1) == 2 * m + 1 || Ancestor(s.d, s.pc[t].id, k - 1) == 2 * m + 2)
  }

  /** A thread at node m arrives from one of its two children, which it holds or is. */
  lemma FromChild(s: Tree, t: nat, m: nat) returns (k: nat)
    requires Inv(s) && t < |s.pc| && m < Guard(s.d) && At(s, t, m)
    ensures Arrived(s, t, k, m)
  {
    var p := s.pc[t];
    assert ThreadOk(s.d, s.ms.mx, s.taken, s.ms.wait[t], p, t);
    if Owned(s.ms.mx, m, t) {
      assert Accounted(s.d, p, m);
      k :| 1 <= k <= Held(s.d, p) && p != Out && m == Ancestor(s.d, p.id, k);
    } else {
      k := p.k + 1;
    }
    AncestorRow(s.d, p.id, k - 1);
    Pow2Grows(0, s.d - k + 1);
  }

  /** Two threads at a node that come from the same child are one thread. */
  lemma SameChild(s: Tree, t: nat, u: nat, k: nat, m: int)
    requires Inv(s) && Arrived(s, t, k, m) && Arrived(s, u, k, m)
    requires Ancestor(s.d, s.pc[t].id, k - 1) == Ancestor(s.d, s.pc[u].id, k - 1)
    ensures t == u
  {
    if k == 1 {
      assert s.pc[t].id == s.pc[u].id;
      if t < u || u < t { }
    }
  }

  /** Two threads at a node: each has a child it came from, in the same row. */
  lemma TwoAt(s: Tree, m: nat, t: nat, u: nat) returns (k: nat)
    requires Inv(s) && m < Guard(s.d) && t < |s.pc| && u < |s.pc| && At(s, t, m) && At(s, u, m)
    ensures Arrived(s, t, k, m) && Arrived(s, u, k, m)
  {
    k := FromChild(s, t, m);
    var l := FromChild(s, u, m);
    RowOfNode(s.d, s.pc[t].id, k, s.pc[u].id, l);
  }

  lemma TwoOfThree(s: Tree, m: nat, k: nat, t: nat, u: nat, v: nat)
    requires Inv(s) && Arrived(s, t, k, m) && Arrived(s, u, k, m) && Arrived(s, v, k, m)
    ensures t == u || u == v || t == v
  {
    var ct, cu, cv := Ancestor(s.d, s.pc[t].id, k - 1), Ancestor(s.d, s.pc[u].id, k - 1),
      Ancestor(s.d, s.pc[v].id, k - 1);
    if ct == cu { SameChild(s, t, u, k, m); }
    else if cu == cv { SameChild(s, u, v, k, m); }
    else { SameChild(s, t, v, k, m); }
  }

  /** At most two threads hold or wait at any node, in every state of every run. */
  lemma AtMostTwo(ss: seq<Tree>, moves: seq<Move>, n: nat, m: nat, t: nat, u: nat, v: nat)
    requires IsRun(ss, moves) && n < |ss| && m < Guard(ss[n].d) && t < |ss[n].pc| && u < |ss[n].pc| && v < |ss[n].pc|
    requires At(ss[n], t, m) && At(ss[n], u, m) && At(ss[n], v, m)
    ensures t == u || u == v || t == v
  {
    InvRun(ss, moves, n);
    var k := TwoAt(ss[n], m, t, u);
    var l := TwoAt(ss[n], m, t, v);
    RowOfNode(ss[n].d, ss[n].pc[t].id, k, ss[n].pc[t].id, l);
    TwoOfThree(ss[n], m, k, t, u, v);
  }

  /** No call of the tree code is refused: acquire and release always return 0 once the
      id has been taken. */
  lemma NeverRefused(s: Tree, t: nat, m: nat)
    requires Inv(s) && t < |s.pc| && m < |s.ms.mx|
    ensures Target(s.d, s.pc[t]) == Some(m) ==> !LockRefused(s.ms, t, m)
    ensures Unlocking(s.d, s.pc[t]) == Some(m) ==> !UnlockRefused(s.ms, t, m)
    ensures s.pc[t].RelTest? ==> s.taken[s.pc[t].id]
  {
    var p := s.pc[t];
    assert ThreadOk(s.d, s.ms.mx, s.taken, s.ms.wait[t], p, t);
    if p.Climb? && p.k < s.d {
      PathFacts(s.d, p.id, p.k + 1);
      if Owned(s.ms.mx, m, t) && Target(s.d, p) == Some(m) {
        assert Accounted(s.d, p, m);
      }
    } else if Owned(s.ms.mx, m, t) && Target(s.d, p) == Some(m) {
      assert Accounted(s.d, p, m);
    }
  }

  /** num_of_locked is zero, so that dealloc goes ahead, exactly when no thread owns an id. */
  lemma LockedCount(s: Tree)
    requires Inv(s)
    ensures s.locked == 0 <==> forall t :: 0 <= t < |s.pc| ==> !HasId(s.pc[t])
  {
    CountNone(s.taken);
    forall t | 0 <= t < |s.pc| && HasId(s.pc[t]) ensures s.taken[s.pc[t].id] {
      assert ThreadOk(s.d, s.ms.mx, s.taken, s.ms.wait[t], s.pc[t], t);
    }
  }

  // ---------- progress ----------

  /** How far up the wait chain a thread is: the guard last, the root before it. */
  function Height(s: Tree, t: nat): int
    requires t < |s.pc| == |s.ms.wait|
  {
    if !s.ms.wait[t].Asleep? then 0
    else if s.ms.wait[t].m == Guard(s.d) then 1
    else 2 + s.ms.wait[t].m
  }

  /** A sleeping thread waits for one that has work to do; along the chain of holders the
      nodes strictly decrease, so it ends in a thread that is not asleep. */
  lemma {:induction false} Runner(s: Tree, t: nat) returns (u: nat)
    requires Inv(s) && t < |s.pc| && (s.pc[t] != Out || s.ms.wait[t] != Free)
    ensures u < |s.pc| && !s.ms.wait[u].Asleep? && (s.pc[u] != Out || s.ms.wait[u] != Free)
    decreases Height(s, t)
  {
    u := t;
    if s.ms.wait[t].Asleep? {
      var m := s.ms.wait[t].m;
      assert ThreadOk(s.d, s.ms.mx, s.taken, s.ms.wait[t], s.pc[t], t);
      if WakePending(s.ms, m) {
        u :| 0 <= u < |s.ms.wait| && s.ms.wait[u] == MustWake(m);
      } else {
        var h := s.ms.mx[m].holder.value;
        HolderBelow(s, m, h);
        u := Runner(s, h);
      }
    }
  }

  /** The holder of a mutex is awake, or asleep on one nearer the end of the chain. */
  lemma HolderBelow(s: Tree, m: nat, h: nat)
    requires Inv(s) && m < |s.ms.mx| && s.ms.mx[m].holder == Some(h)
    ensures h < |s.pc| && s.pc[h] != Out
    ensures Height(s, h) < if m == Guard(s.d) then 1 else 2 + m
  {
    var p := s.pc[h];
    assert Accounted(s.d, p, m);
    assert ThreadOk(s.d, s.ms.mx, s.taken, s.ms.wait[h], p, h);
    if m != Guard(s.d) {
      var j: nat :| 1 <= j <= Held(s.d, p) && p != Out && m == Ancestor(s.d, p.id, j);
      if p.Climb? && p.k < s.d {
        Decreasing(s.d, p.id, j, p.k + 1);
      }
    }
  }

  lemma {:induction false} Decreasing(d: nat, id: nat, j: nat, k: nat)
    requires id < Pow2(d) && j < k <= d
    ensures 0 <= Ancestor(d, id, k) < Ancestor(d, id, j)
    decreases k
  {
    ClimbReachesRoot(d, id, k - 1);
    ClimbReachesRoot(d, id, k);
    if j < k - 1 { Decreasing(d, id, j, k - 1); }
  }

  lemma CanLock(s: Tree, t: nat, m: int)
    requires Inv(s) && t < |s.pc| && Target(s.d, s.pc[t]) == Some(m)
    requires s.ms.wait[t] == Free || (m >= 0 && s.ms.wait[t] == Retry(m))
    ensures m >= 0 && exists s' :: Next(s, s', t, m)
  {
    assert ThreadOk(s.d, s.ms.mx, s.taken, s.ms.wait[t], s.pc[t], t);
    if s.pc[t].Climb? { PathFacts(s.d, s.pc[t].id, s.pc[t].k + 1); }
    NeverRefused(s, t, m);
    if s.ms.mx[m].locked {
      var ms' := s.ms.(mx := s.ms.mx[m := s.ms.mx[m].(locked := true)], wait := s.ms.wait[t := Asleep(m)]);
      assert LockSleeps(s.ms, ms', t, m);
      assert Next(s, s.(ms := ms'), t, m);
    } else {
      var ms' := Mutexes(s.ms.mx[m := Mutex(true, Some(t))], s.ms.wait[t := Free]);
      assert LockTaken(s.ms, ms', t, m);
      assert Next(s, s.(ms := ms', pc := s.pc[t := AfterLock(s.pc[t])]), t, m);
    }
  }

  lemma CanUnlock(s: Tree, t: nat, m: int)
    requires Inv(s) && t < |s.pc| && Unlocking(s.d, s.pc[t]) == Some(m) && s.ms.wait[t] == Free
    ensures m >= 0 && exists s' :: Next(s, s', t, m)
  {
    assert ThreadOk(s.d, s.ms.mx, s.taken, s.ms.wait[t], s.pc[t], t);
    if s.pc[t].Descend? { PathFacts(s.d, s.pc[t].id, s.pc[t].k); }
    NeverRefused(s, t, m);
    var ms' := Mutexes(s.ms.mx[m := Mutex(false, None)], s.ms.wait[t := MustWake(m)]);
    assert UnlockDone(s.ms, ms', t, m);
    assert Next(s, s.(ms := ms', pc := s.pc[t := AfterUnlock(s.d, s.pc[t])]), t, m);
  }

  lemma CanTable(s: Tree, t: nat)
    requires Inv(s) && t < |s.pc| && s.ms.wait[t] == Free
    requires s.pc[t].AcqTest? || s.pc[t].RelTest? || s.pc[t].DoneClear?
    ensures exists s' :: Next(s, s', t, 0)
  {
    var id := s.pc[t].id;
    var s' :=
      if s.pc[t].DoneClear? then
        s.(pc := s.pc[t := DoneLeave(id)], taken := s.taken[id := false], locked := s.locked - 1)
      else if s.pc[t].RelTest? then s.(pc := s.pc[t := RelLeave(id, s.taken[id])])
      else if s.taken[id] then s.(pc := s.pc[t := AcqLeave(id, false)])
      else s.(pc := s.pc[t := AcqLeave(id, true)], taken := s.taken[id := true], locked := s.locked + 1);
    assert NextTable(s, s', t);
    assert Next(s, s', t, 0);
  }

  /** A thread that is not asleep can take a step. */
  lemma CanStep(s: Tree, t: nat)
    requires Inv(s) && t < |s.pc| && !s.ms.wait[t].Asleep? && (s.pc[t] != Out || s.ms.wait[t] != Free)
    ensures exists s', x: nat :: Next(s, s', t, x)
  {
    var p := s.pc[t];
    assert ThreadOk(s.d, s.ms.mx, s.taken, s.ms.wait[t], p, t);
    if s.ms.wait[t].MustWake? {
      var w := s.ms.wait;
      var ms' := s.ms.(wait := seq(|w|, u requires 0 <= u < |w| =>
        if u == t then Free else if w[u] == Asleep(w[t].m) then Retry(w[t].m) else w[u]));
      assert WakeAll(s.ms, ms', t);
      assert Next(s, s.(ms := ms'), t, 0);
    } else if Target(s.d, p).Some? {
      CanLock(s, t, Target(s.d, p).value);
    } else if Unlocking(s.d, p).Some? {
      CanUnlock(s, t, Unlocking(s.d, p).value);
    } else if p.Climb? {
      assert NextCall(s, s.(pc := s.pc[t := RelEnter(p.id)]), t, p.id);
      assert Next(s, s.(pc := s.pc[t := RelEnter(p.id)]), t, p.id);
    } else {
      CanTable(s, t);
    }
  }

  /** In the tree code, or still to wake others after its last unlock. */
  predicate Busy(s: Tree, t: nat) {
    t < |s.pc| == |s.ms.wait| && (s.pc[t] != Out || s.ms.wait[t] != Free)
  }

  /** Progress: while any thread is in the tree code, one of those in it is awake and can
      step; new calls of acquire are not needed for that. */
  lemma Progress(ss: seq<Tree>, moves: seq<Move>, k: nat, t: nat) returns (u: nat)
    requires IsRun(ss, moves) && k < |ss| && Busy(ss[k], t)
    ensures Shape(ss[k]) && Busy(ss[k], u) && !ss[k].ms.wait[u].Asleep?
    ensures exists s', x: nat :: Next(ss[k], s', u, x)
  {
    InvRun(ss, moves, k);
    u := Runner(ss[k], t);
    CanStep(ss[k], u);
  }

  // ---------- the loops of acquire and release ----------

  /** The mutexes thread t locked on the way from ss[i] to ss[j]. */
  ghost function LockTrail(ss: seq<Tree>, moves: seq<Move>, t: nat, i: nat, j: nat): seq<int>
    requires |ss| == |moves| + 1 && i <= j < |ss|
  {
    if i == j then []
    else LockTrail(ss, moves, t, i, j - 1) +
         if moves[j - 1].t == t && NextLock(ss[j - 1], ss[j], t, moves[j - 1].x) then [moves[j - 1].x] else []
  }

  /** The mutexes thread t unlocked on the way from ss[i] to ss[j]. */
  ghost function UnlockTrail(ss: seq<Tree>, moves: seq<Move>, t: nat, i: nat, j: nat): seq<int>
    requires |ss| == |moves| + 1 && i <= j < |ss|
  {
    if i == j then [] else UnlockTrail(ss, moves, t, i, j - 1) + Unlocked(ss[j - 1], ss[j], moves[j - 1], t)
  }

  function Unlocked(s: Tree, s': Tree, move: Move, t: nat): seq<int> {
    if move.t == t && NextUnlock(s, s', t, move.x) then [move.x] else []
  }

  lemma ClimbAt(ss: seq<Tree>, moves: seq<Move>, t: nat, n: nat)
    requires IsRun(ss, moves) && n < |moves| && t < |ss[n].pc| && t < |ss[n + 1].pc| && ss[n].pc[t].Climb? &&
      ss[n + 1].pc[t].Climb?
    ensures ss[n + 1].d == ss[n].d
    ensures moves[n].t == t && NextLock(ss[n], ss[n + 1], t, moves[n].x) ==>
      ss[n + 1].pc[t] == Climb(ss[n].pc[t].id, ss[n].pc[t].k + 1) &&
        moves[n].x == Ancestor(ss[n].d, ss[n].pc[t].id, ss[n].pc[t].k + 1)
    ensures !(moves[n].t == t && NextLock(ss[n], ss[n + 1], t, moves[n].x)) ==> ss[n + 1].pc[t] == ss[n].pc[t]
  {
    InvRun(ss, moves, n);
    assert StepAt(ss, moves, n);
    ClimbStep(ss[n], ss[n + 1], moves[n].t, moves[n].x, t);
  }

  /** In every run a climbing thread has locked exactly the nodes LockOrder lists, in that
      order. */
  lemma {:induction false} ClimbOrder(ss: seq<Tree>, moves: seq<Move>, t: nat, i: nat, j: nat, id: nat)
    requires IsRun(ss, moves) && i <= j < |ss| && t < |ss[i].pc| && ss[i].pc[t] == Climb(id, 0)
    requires forall n :: i <= n <= j ==> t < |ss[n].pc| && ss[n].pc[t].Climb?
    ensures ss[j].d == ss[i].d && ss[j].pc[t].id == id
    ensures LockTrail(ss, moves, t, i, j) == Path(ss[i].d, id, ss[j].pc[t].k)
    decreases j
  {
    if i < j {
      ClimbOrder(ss, moves, t, i, j - 1, id);
      ClimbAt(ss, moves, t, j - 1);
    }
  }

  lemma ClimbStep(s: Tree, s': Tree, u: nat, x: nat, t: nat)
    requires Inv(s) && Next(s, s', u, x) && t < |s.pc| && t < |s'.pc| && s.pc[t].Climb? && s'.pc[t].Climb?
    ensures s'.d == s.d
    ensures u == t && NextLock(s, s', t, x) ==>
      s'.pc[t] == Climb(s.pc[t].id, s.pc[t].k + 1) && x == Ancestor(s.d, s.pc[t].id, s.pc[t].k + 1)
    ensures !(u == t && NextLock(s, s', t, x)) ==> s'.pc[t] == s.pc[t]
  {
  }

  /** Thread t has unlocked trail, and still holds the rest of its path. */
  ghost predicate Released(d: nat, id: nat, s: Tree, t: nat, trail: seq<int>) {
    && s.d == d && t < |s.pc| && (s.pc[t].Descend? || s.pc[t].DoneEnter?) && s.pc[t].id == id
    && Path(d, id, Held(d, s.pc[t])) + Reverse(trail) == Path(d, id, d)
  }

  /** In every run a releasing thread has unlocked exactly the nodes UnlockOrder lists, in
      that order: from the root down to what it still holds. */
  lemma {:induction false} ReleaseOrder(ss: seq<Tree>, moves: seq<Move>, t: nat, i: nat, j: nat, id: nat)
    requires IsRun(ss, moves) && i <= j < |ss| && t < |ss[i].pc| && ss[i].pc[t] == Descend(id, ss[i].d)
    requires forall n :: i <= n < j ==> t < |ss[n].pc| && ss[n].pc[t].Descend?
    ensures Released(ss[i].d, id, ss[j], t, UnlockTrail(ss, moves, t, i, j))
    decreases j
  {
    if i < j {
      ReleaseOrder(ss, moves, t, i, j - 1, id);
      ReleaseAt(ss, moves, t, j - 1, ss[i].d, id, UnlockTrail(ss, moves, t, i, j - 1));
    }
  }

  lemma ReleaseAt(ss: seq<Tree>, moves: seq<Move>, t: nat, j: nat, d: nat, id: nat, was: seq<int>)
    requires IsRun(ss, moves) && j < |moves| && Released(d, id, ss[j], t, was) && ss[j].pc[t].Descend?
    ensures Released(d, id, ss[j + 1], t, was + Unlocked(ss[j], ss[j + 1], moves[j], t))
  {
    InvRun(ss, moves, j);
    assert StepAt(ss, moves, j);
    DescendStep(ss[j], ss[j + 1], moves[j].t, moves[j].x, t);
    ReleaseMore(ss[j], ss[j + 1], t, d, id, was, Unlocked(ss[j], ss[j + 1], moves[j], t));
  }

  lemma ReleaseMore(s: Tree, s': Tree, t: nat, d: nat, id: nat, was: seq<int>, gone: seq<int>)
    requires Released(d, id, s, t, was) && s.pc[t].Descend? && s'.d == d && t < |s'.pc| && s.pc[t].k >= 1
    requires if gone == [] then s'.pc[t] == s.pc[t]
             else gone == [Ancestor(d, id, s.pc[t].k)] && s'.pc[t] == if s.pc[t].k > 1 then Descend(id, s.pc[t].k - 1)
               else DoneEnter(id)
    ensures Released(d, id, s', t, was + gone)
  {
    var k, now := s.pc[t].k, was + gone;
    if gone == [] {
      assert now == was;
    } else {
      assert Held(d, s'.pc[t]) == k - 1 && Held(d, s.pc[t]) == k;
      PathReleased(d, id, k, was, now);
    }
  }

  lemma DescendStep(s: Tree, s': Tree, u: nat, x: nat, t: nat)
    requires Inv(s) && Next(s, s', u, x) && t < |s.pc| && s.pc[t].Descend?
    ensures s'.d == s.d && t < |s'.pc| && s.pc[t].k >= 1
    ensures u == t && NextUnlock(s, s', t, x) ==>
      && x == Ancestor(s.d, s.pc[t].id, s.pc[t].k)
      && s'.pc[t] == if s.pc[t].k > 1 then Descend(s.pc[t].id, s.pc[t].k - 1) else DoneEnter(s.pc[t].id)
    ensures !(u == t && NextUnlock(s, s', t, x)) ==> s'.pc[t] == s.pc[t]
  {
  }

  lemma PathReleased(d: nat, id: nat, k: nat, was: seq<int>, now: seq<int>)
    requires k >= 1 && now == was + [Ancestor(d, id, k)]
    ensures Path(d, id, k - 1) + Reverse(now) == Path(d, id, k) + Reverse(was)
  {
    assert now[..|now| - 1] == was;
  }
}
