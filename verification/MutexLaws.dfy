// What the calls on the mutex table of Ass2/proc.c mean to their callers: a map from the live
// ids to who holds them, without slots.

module MutexLaws {
  import opened Basics
  import opened KernelMutex
  import opened MutexTable

  function Ids(mid: seq<int>): set<int> {
    set m | 0 <= m < |mid| && mid[m] != 0 :: mid[m]
  }

  ghost predicate Distinct(mid: seq<int>) {
    forall m, n :: 0 <= m < n < |mid| && mid[m] != 0 ==> mid[m] != mid[n]
  }

  ghost function Holders(mid: seq<int>, mx: seq<Mutex>): map<int, Option<nat>>
    requires |mid| == |mx|
  {
    map id | id in Ids(mid) :: HolderOf(mid, mx, id)
  }

  function HolderOf(mid: seq<int>, mx: seq<Mutex>, id: int): Option<nat>
    requires |mid| == |mx|
  {
    var m := Find(mid, id);
    if m < |mid| then mx[m].holder else None
  }

  /** The live mutexes, each with its holder. */
  ghost function Held(s: Table): map<int, Option<nat>>
    requires Shape(s)
  {
    Holders(s.mid, s.ms.mx)
  }

  lemma HoldersAt(mid: seq<int>, mx: seq<Mutex>, m: nat)
    requires |mid| == |mx| && m < |mid| && Distinct(mid) && mid[m] != 0
    ensures mid[m] in Holders(mid, mx) && Holders(mid, mx)[mid[m]] == mx[m].holder
  {
    assert mid[m] in Ids(mid);
    assert Find(mid, mid[m]) == m;
  }

  lemma SlotOf(mid: seq<int>, mx: seq<Mutex>, id: int) returns (m: nat)
    requires |mid| == |mx| && id in Holders(mid, mx)
    ensures m < |mid| && mid[m] == id != 0
  {
    m :| 0 <= m < |mid| && mid[m] == id;
  }

  /** Another slot than m still counts. */
  lemma StillThere(mid: seq<int>, mx: seq<Mutex>, m: nat, id: int, x: Mutex, i: int)
    requires |mid| == |mx| && m < |mid| && Distinct(mid) && Distinct(mid[m := id])
    requires i in Holders(mid, mx) && i != mid[m]
    ensures i in Holders(mid[m := id], mx[m := x]) && Holders(mid[m := id], mx[m := x])[i] == Holders(mid, mx)[i]
  {
    var n := SlotOf(mid, mx, i);
    HoldersAt(mid, mx, n);
    HoldersAt(mid[m := id], mx[m := x], n);
  }

  /** And it was there before. */
  lemma WasThere(mid: seq<int>, mx: seq<Mutex>, m: nat, id: int, x: Mutex, i: int)
    requires |mid| == |mx| && m < |mid| && Distinct(mid) && Distinct(mid[m := id])
    requires i in Holders(mid[m := id], mx[m := x]) && i != id
    ensures i in Holders(mid, mx) && i != mid[m]
  {
    var n := SlotOf(mid[m := id], mx[m := x], i);
    HoldersAt(mid, mx, n);
  }

  /** The id and holder of slot m change: the old id is gone, the new one is there. */
  lemma SlotChanged(mid: seq<int>, mx: seq<Mutex>, m: nat, id: int, x: Mutex)
    requires |mid| == |mx| && m < |mid| && Distinct(mid) && Distinct(mid[m := id])
    ensures Holders(mid[m := id], mx[m := x]) ==
      if id == 0 then Holders(mid, mx) - {mid[m]} else (Holders(mid, mx) - {mid[m]})[id := x.holder]
  {
    var h, h' := Holders(mid, mx), Holders(mid[m := id], mx[m := x]);
    if id != 0 { HoldersAt(mid[m := id], mx[m := x], m); }
    forall i | i in h' && i != id ensures i in h && i != mid[m] { WasThere(mid, mx, m, id, x, i); }
    forall i | i in h && i != mid[m] ensures i != id && i in h' && h'[i] == h[i] {
      OtherId(mid, mx, m, id, i);
      StillThere(mid, mx, m, id, x, i);
    }
    OneEntry(h, h', mid[m], id, x.holder);
  }

  lemma OneEntry(h: map<int, Option<nat>>, h': map<int, Option<nat>>, o: int, id: int, v: Option<nat>)
    requires if id == 0 then id !in h' else id in h' && h'[id] == v
    requires forall i :: i in h' && i != id ==> i in h && i != o
    requires forall i :: i in h && i != o ==> i != id && i in h' && h'[i] == h[i]
    ensures h' == if id == 0 then h - {o} else (h - {o})[id := v]
  {
    var g := if id == 0 then h - {o} else (h - {o})[id := v];
    assert forall i :: i in h' <==> i in g;
    assert forall i :: i in g ==> h'[i] == g[i];
  }

  lemma OtherId(mid: seq<int>, mx: seq<Mutex>, m: nat, id: int, i: int)
    requires |mid| == |mx| && m < |mid| && Distinct(mid[m := id]) && i in Holders(mid, mx) && i != mid[m]
    ensures i != id
  {
    var n := SlotOf(mid, mx, i);
    assert mid[m := id][n] == i && mid[m := id][m] == id;
  }

  /** An id other than 0 is live exactly when the loop over the table finds it. */
  lemma IdSlot(s: Table, id: int)
    requires Inv(s) && id != 0
    ensures id in Held(s) <==> Find(s.mid, id) < MAX_MUTEXES
    ensures id in Held(s) ==> Held(s)[id] == s.ms.mx[Find(s.mid, id)].holder
  {
    var m := Find(s.mid, id);
    if m < MAX_MUTEXES {
      assert s.mid[m] in Ids(s.mid);
    }
  }

  /** The holder of slot m changes. */
  lemma HolderChanged(s: Table, m: nat, x: Mutex)
    requires Inv(s) && m < MAX_MUTEXES
    ensures Holders(s.mid, s.ms.mx[m := x]) ==
      if s.mid[m] == 0 then Held(s) else Held(s)[s.mid[m] := x.holder]
  {
    assert s.mid == s.mid[m := s.mid[m]];
    SlotChanged(s.mid, s.ms.mx, m, s.mid[m], x);
  }

  /** A mutex that nobody holds is there under a new id. */
  ghost predicate NewMutex(s: Table, s': Table, id: int)
    requires Shape(s) && Shape(s')
  {
    id > 0 && id !in Held(s) && Held(s') == Held(s)[id := None]
  }

  /** alloc fails exactly when every slot is live, and then changes nothing.  Otherwise it
      returns a new positive id, whose mutex nobody holds, and touches no other mutex. */
  ghost predicate AllocOk(s: Table, s': Table, id: int)
    requires Shape(s) && Shape(s')
  {
    if 0 !in s.mid then id == -1 && s' == s else NewMutex(s, s', id)
  }

  lemma AllocLaw(s: Table, t: nat)
    requires Inv(s) && Enabled(s, Alloc(t))
    ensures Inv(After(s, Alloc(t))) && Result(s, Alloc(t)).Some?
    ensures AllocOk(s, After(s, Alloc(t)), Result(s, Alloc(t)).value)
  {
    assert Inv(After(s, Alloc(t))) by { InvStep(s, Alloc(t)); }
    if 0 in s.mid {
      ClearHeld(s, Find(s.mid, 0));
    }
  }

  lemma ClearHeld(s: Table, m: nat)
    requires Inv(s) && m < MAX_MUTEXES && s.mid[m] == 0
    ensures NewMutex(s, Clear(s, m, s.next).(next := s.next + 1), s.next)
  {
    SlotChanged(s.mid, s.ms.mx, m, s.next, Mutex(false, None));
  }

  /** dealloc removes a mutex that nobody holds; of a held or unknown one it is refused.  Given 0,
      the id of the free slots, it does nothing to a live mutex, and neither do lock and unlock. */
  predicate DeallocOk(h: map<int, Option<nat>>, h': map<int, Option<nat>>, id: int, r: int) {
    if id == 0 then h' == h
    else if id in h && h[id] == None then r == 0 && h' == h - {id}
    else r == -1 && h' == h
  }

  lemma DeallocLaw(s: Table, t: nat, id: int)
    requires Inv(s) && Enabled(s, Dealloc(t, id))
    ensures Inv(After(s, Dealloc(t, id))) && Result(s, Dealloc(t, id)).Some?
    ensures DeallocOk(Held(s), Held(After(s, Dealloc(t, id))), id, Result(s, Dealloc(t, id)).value)
  {
    assert Inv(After(s, Dealloc(t, id))) by { InvStep(s, Dealloc(t, id)); }
    if id != 0 { IdSlot(s, id); }
    if Deallocs(s, id) {
      SlotChanged(s.mid, s.ms.mx, Find(s.mid, id), 0, Mutex(false, None));
    }
  }

  /** lock is refused of an unknown mutex and of one's own, returns 0 exactly when nobody holds
      the mutex and then the caller does, and sleeps exactly when another thread holds it. */
  predicate LockOk(h: map<int, Option<nat>>, h': map<int, Option<nat>>, t: nat, id: int, r: Option<int>) {
    if id == 0 then h' == h
    else if id !in h || h[id] == Some(t) then r == Some(-1) && h' == h
    else if h[id] == None then r == Some(0) && h' == h[id := Some(t)]
    else r == None && h' == h
  }

  lemma LockLaw(s: Table, t: nat, id: int)
    requires Inv(s) && Enabled(s, Lock(t, id))
    ensures Inv(After(s, Lock(t, id)))
    ensures LockOk(Held(s), Held(After(s, Lock(t, id))), t, id, Result(s, Lock(t, id)))
    ensures Result(s, Lock(t, id)) == None <==> After(s, Lock(t, id)).ms.wait[t] != Free
  {
    assert Inv(After(s, Lock(t, id))) by { InvStep(s, Lock(t, id)); }
    if id != 0 { IdSlot(s, id); }
    var m := Find(s.mid, id);
    if m < MAX_MUTEXES && !s.ms.mx[m].locked {
      HolderChanged(s, m, Mutex(true, Some(t)));
    }
  }

  /** A woken thread that asked for a mutex still live under that id goes on in the same way. */
  lemma AgainLaw(s: Table, t: nat)
    requires Good(s) && Enabled(s, Again(t))
    ensures Inv(After(s, Again(t))) && s.want[t] in Held(s)
    ensures Result(s, Again(t)) == if Held(s)[s.want[t]] == None then Some(0) else None
    ensures Held(After(s, Again(t))) ==
      if Held(s)[s.want[t]] == None then Held(s)[s.want[t] := Some(t)] else Held(s)
    ensures Result(s, Again(t)) == None <==> After(s, Again(t)).ms.wait[t] != Free
  {
    assert Inv(After(s, Again(t))) by { InvStep(s, Again(t)); }
    var m := s.ms.wait[t].m;
    FindLive(s, m);
    IdSlot(s, s.want[t]);
    HolderChanged(s, m, Mutex(true, Some(t)));
  }

  /** unlock lets go of the caller's own mutex and goes on to its wakeup; of any other it is
      refused. */
  predicate UnlockOk(h: map<int, Option<nat>>, h': map<int, Option<nat>>, t: nat, id: int, r: Option<int>) {
    if id == 0 then h' == h
    else if id in h && h[id] == Some(t) then r == None && h' == h[id := None]
    else r == Some(-1) && h' == h
  }

  lemma UnlockLaw(s: Table, t: nat, id: int)
    requires Inv(s) && Enabled(s, Unlock(t, id))
    ensures Inv(After(s, Unlock(t, id)))
    ensures UnlockOk(Held(s), Held(After(s, Unlock(t, id))), t, id, Result(s, Unlock(t, id)))
  {
    assert Inv(After(s, Unlock(t, id))) by { InvStep(s, Unlock(t, id)); }
    if id != 0 { IdSlot(s, id); }
    if Unlocks(s, t, id) {
      HolderChanged(s, Find(s.mid, id), Mutex(false, None));
    }
  }

  /** The wakeup changes no mutex; it ends the call of its thread, and afterwards nobody sleeps
      on that slot. */
  lemma WakeupLaw(s: Table, t: nat)
    requires Inv(s) && Enabled(s, Wakeup(t))
    ensures Inv(After(s, Wakeup(t))) && Held(After(s, Wakeup(t))) == Held(s)
    ensures After(s, Wakeup(t)).ms.wait[t] == Free
    ensures Asleep(s.ms.wait[t].m) !in After(s, Wakeup(t)).ms.wait
  {
    InvStep(s, Wakeup(t));
  }

  /** The id alloc returns can be locked at once, by anyone. */
  lemma AllocThenLock(s: Table, t: nat, u: nat, id: int)
    requires Inv(s) && Enabled(s, Alloc(t)) && Result(s, Alloc(t)) == Some(id) && id != -1
    requires Enabled(After(s, Alloc(t)), Lock(u, id))
    ensures var s1 := After(s, Alloc(t));
      Inv(s1) && Result(s1, Lock(u, id)) == Some(0) && Held(After(s1, Lock(u, id))) == Held(s)[id := Some(u)]
  {
    AllocLaw(s, t);
    LockNew(s, After(s, Alloc(t)), u, id);
  }

  lemma LockNew(s: Table, s1: Table, u: nat, id: int)
    requires Inv(s) && Inv(s1) && NewMutex(s, s1, id) && Enabled(s1, Lock(u, id))
    ensures Result(s1, Lock(u, id)) == Some(0) && Held(After(s1, Lock(u, id))) == Held(s)[id := Some(u)]
  {
    LockLaw(s1, u, id);
  }

  /** unlock undoes lock: the mutexes are as before, and the next lock by anyone succeeds. */
  lemma LockThenUnlock(s: Table, t: nat, id: int)
    requires Inv(s) && Enabled(s, Lock(t, id)) && id != 0 && Result(s, Lock(t, id)) == Some(0)
    ensures var s1 := After(s, Lock(t, id));
      Inv(s1) && Enabled(s1, Unlock(t, id)) && Result(s1, Unlock(t, id)) == None &&
      Held(After(s1, Unlock(t, id))) == Held(s) && Held(s)[id] == None
  {
    LockLaw(s, t, id);
    UnlockMine(After(s, Lock(t, id)), Held(s), t, id);
  }

  lemma UnlockMine(s: Table, h: map<int, Option<nat>>, t: nat, id: int)
    requires Inv(s) && Enabled(s, Unlock(t, id)) && id != 0
    requires id in h && h[id] == None && Held(s) == h[id := Some(t)]
    ensures Result(s, Unlock(t, id)) == None && Held(After(s, Unlock(t, id))) == h
  {
    UnlockLaw(s, t, id);
    PutBack(h, id, Some(t));
  }

  lemma PutBack(h: map<int, Option<nat>>, id: int, x: Option<nat>)
    requires id in h && h[id] == None
    ensures h[id := x][id := None] == h
  {
  }
}
