// The buffer cache of Ass2/bio.c over the disk of Ass2/memide.c.

/** A circular doubly linked list through prev and next; node n is the head, &bcache.head. */
module BufList {
  /** Position k on the way round: the head, then the list, then the head again. */
  function Stop(order: seq<nat>, n: nat, k: int): nat {
    if 1 <= k <= |order| then order[k - 1] else n
  }

  ghost predicate Linked(next: seq<nat>, prev: seq<nat>, n: nat, order: seq<nat>) {
    && |next| == n + 1 == |prev|
    && (forall k :: 0 <= k < |order| ==> order[k] < n)
    && (forall k, l :: 0 <= k < l < |order| ==> order[k] != order[l])
    && (forall k :: 0 <= k <= |order| ==>
         next[Stop(order, n, k)] == Stop(order, n, k + 1) && prev[Stop(order, n, k + 1)] == Stop(order, n, k))
  }

  function Without(order: seq<nat>, i: nat): seq<nat>
    requires i < |order|
  {
    order[..i] + order[i + 1..]
  }

  /** b->next->prev = b->prev; b->prev->next = b->next */
  lemma Unlink(next: seq<nat>, prev: seq<nat>, n: nat, order: seq<nat>, i: nat, next': seq<nat>, prev': seq<nat>)
    requires Linked(next, prev, n, order) && i < |order|
    requires next[order[i]] <= n && prev[order[i]] <= n
    requires prev' == prev[next[order[i]] := prev[order[i]]] && next' == next[prev[order[i]] := next[order[i]]]
    ensures Linked(next', prev', n, Without(order, i))
  {
    var b, o := order[i], Without(order, i);
    assert Stop(order, n, i + 1) == b;
    assert next[b] == Stop(order, n, i + 2) && prev[b] == Stop(order, n, i);
    forall k | 0 <= k <= |o|
      ensures next'[Stop(o, n, k)] == Stop(o, n, k + 1) && prev'[Stop(o, n, k + 1)] == Stop(o, n, k)
    {
      StopWithout(order, n, i, k);
      StopWithout(order, n, i, k + 1);
      StopsDiffer(order, n, i, if k <= i then k else k + 1);
      StopsDiffer(order, n, i + 2, if k + 1 <= i then k + 1 else k + 2);
    }
  }

  lemma StopWithout(order: seq<nat>, n: nat, i: nat, k: nat)
    requires i < |order| && k <= |order|
    ensures Stop(Without(order, i), n, k) == Stop(order, n, if k <= i then k else k + 1)
  {
  }

  /** Two positions hold one node only if they are the same, or both the head. */
  lemma StopsDiffer(order: seq<nat>, n: nat, k: nat, l: nat)
    requires forall x :: 0 <= x < |order| ==> order[x] < n
    requires forall x, y :: 0 <= x < y < |order| ==> order[x] != order[y]
    requires k <= |order| + 1 && l <= |order| + 1
    ensures Stop(order, n, k) == Stop(order, n, l) ==>
      k == l || ((k == 0 || k == |order| + 1) && (l == 0 || l == |order| + 1))
  {
  }

  /** b->next = head.next; b->prev = &head; head.next->prev = b; head.next = b */
  lemma Insert(next: seq<nat>, prev: seq<nat>, n: nat, order: seq<nat>, b: nat, next': seq<nat>, prev': seq<nat>)
    requires Linked(next, prev, n, order) && b < n && b !in order && next[n] <= n
    requires next' == next[b := next[n]][n := b] && prev' == prev[b := n][next[n] := b]
    ensures Linked(next', prev', n, [b] + order)
  {
    var o := [b] + order;
    assert next[n] == Stop(order, n, 1) by { assert Stop(order, n, 0) == n; }
    forall k | 0 <= k <= |o|
      ensures next'[Stop(o, n, k)] == Stop(o, n, k + 1) && prev'[Stop(o, n, k + 1)] == Stop(o, n, k)
    {
      StopsDiffer(o, n, 2, k + 1);
      StopsDiffer(o, n, 0, k);
      if k >= 1 {
        assert Stop(o, n, k + 1) == Stop(order, n, k);
        if k >= 2 { assert Stop(o, n, k) == Stop(order, n, k - 1); }
      }
    }
  }

  /** All pointers stay inside the list. */
  lemma PointersInRange(next: seq<nat>, prev: seq<nat>, n: nat, order: seq<nat>, k: nat)
    requires Linked(next, prev, n, order) && k <= |order|
    ensures Stop(order, n, k) <= n && next[Stop(order, n, k)] <= n && prev[Stop(order, n, k + 1)] <= n
  {
    assert Stop(order, n, k + 1) <= n && next[Stop(order, n, k)] == Stop(order, n, k + 1);
  }
}

module BufferCache {
  import opened BufList
  import opened Codec

  const NBUF := 30

  /** struct buf without its links. */
  datatype Buf = Buf(dev: nat, blockno: nat, refcnt: nat, valid: bool, dirty: bool, locked: bool, data: Block)

  /** At most one buffer caches a block of a device; device 0 marks unused buffers. */
  ghost predicate Unique(buf: seq<Buf>) {
    forall a, b ::
      (0 <= a < |buf| && 0 <= b < |buf| && buf[a].dev != 0 && buf[a].dev == buf[b].dev &&
       buf[a].blockno == buf[b].blockno) ==> a == b
  }

  /** A valid, clean, unlocked buffer equals its disk block, and view is what readers of the
      disk see through the cache. */
  ghost predicate Faithful(buf: seq<Buf>, disk: seq<Block>, view: seq<Block>) {
    && |view| == |disk|
    && (forall b :: 0 <= b < |buf| && buf[b].dirty ==> buf[b].valid)
    && (forall b :: 0 <= b < |buf| && buf[b].valid ==>
         buf[b].dev == 1 && buf[b].blockno < |disk| && view[buf[b].blockno] == buf[b].data)
    && (forall b :: 0 <= b < |buf| && buf[b].valid && !buf[b].dirty && !buf[b].locked ==>
         disk[buf[b].blockno] == buf[b].data)
    && (forall n :: 0 <= n < |disk| && !Cached(buf, n) ==> view[n] == disk[n])
  }

  ghost predicate Cached(buf: seq<Buf>, n: nat) {
    exists b :: 0 <= b < |buf| && buf[b].dev == 1 && buf[b].blockno == n && buf[b].valid
  }

  /** refcnt counts the threads waiting for the buffer's lock, the one holding it, and those
      that released it and have not yet dropped their reference. */
  ghost predicate Counted(buf: seq<Buf>, waiting: seq<nat>, leaving: seq<nat>) {
    && |waiting| == |buf| == |leaving|
    && forall b :: 0 <= b < |buf| ==> buf[b].refcnt == waiting[b] + leaving[b] + if buf[b].locked then 1 else 0
  }

  /** Nearer the head means released later. */
  ghost predicate Recent(order: seq<nat>, stamp: seq<int>, time: int) {
    && (forall k :: 0 <= k < |order| ==> order[k] < |stamp| && stamp[order[k]] < time)
    && (forall k, l :: 0 <= k < l < |order| ==> stamp[order[k]] > stamp[order[l]])
  }

  predicate Free(b: Buf) {
    b.refcnt == 0 && !b.dirty
  }

  class Cache {
    var buf: seq<Buf>
    var next: seq<nat>
    var prev: seq<nat>
    var disk: seq<Block>
    ghost var order: seq<nat>     // the list, from head.next
    ghost var stamp: seq<int>     // when each refcnt last fell to zero
    ghost var time: int
    ghost var waiting: seq<nat>
    ghost var leaving: seq<nat>
    ghost var view: seq<Block>

    ghost predicate Valid()
      reads this
    {
      && |buf| == NBUF && Linked(next, prev, NBUF, order) && |order| == NBUF
      && (forall b :: 0 <= b < NBUF ==> b in order)
      && |stamp| == NBUF && Recent(order, stamp, time)
      && Unique(buf) && Faithful(buf, disk, view) && Counted(buf, waiting, leaving)
    }

    /** binit */
    constructor (disk: seq<Block>)
      ensures Valid() && this.disk == disk && view == disk
      ensures forall b :: 0 <= b < NBUF ==> buf[b].refcnt == 0 && !buf[b].valid
    {
      this.disk := disk;
      buf := seq(NBUF, i => Buf(0, 0, 0, false, false, false, ZeroBlock()));
      next, prev := seq(NBUF + 1, i => NBUF), seq(NBUF + 1, i => NBUF);
      order, stamp, time := [], seq(NBUF, i => i), NBUF;
      waiting, leaving, view := seq(NBUF, i => 0), seq(NBUF, i => 0), disk;
      new;
      var b := 0;
      while b < NBUF
        invariant 0 <= b <= NBUF && |order| == b && Linked(next, prev, NBUF, order)
        invariant forall k :: 0 <= k < b ==> order[k] == b - 1 - k
        invariant buf == seq(NBUF, i => Buf(0, 0, 0, false, false, false, ZeroBlock())) && this.disk == disk == view
        invariant stamp == seq(NBUF, i => i) && time == NBUF && waiting == seq(NBUF, i => 0) == leaving
      {
        InsertFront(b);
        b := b + 1;
      }
      forall x | 0 <= x < NBUF ensures x in order { assert order[NBUF - 1 - x] == x; }
    }

    /** Link b in at the head. */
    method InsertFront(b: nat)
      requires Linked(next, prev, NBUF, order) && b < NBUF && b !in order
      modifies this`next, this`prev, this`order
      ensures order == [b] + old(order) && Linked(next, prev, NBUF, order)
    {
      PointersInRange(next, prev, NBUF, order, 0);
      ghost var next0, prev0 := next, prev;
      var first := next[NBUF];
      next := next[b := first];
      prev := prev[b := NBUF];
      prev := prev[first := b];
      next := next[NBUF := b];
      Insert(next0, prev0, NBUF, order, b, next, prev);
      order := [b] + order;
    }

    /** The buffer that caches the block, walking head.next and on; NBUF if there is none. */
    method Lookup(dev: nat, blockno: nat) returns (b: nat)
      requires Valid() && dev != 0
      ensures b <= NBUF
      ensures b < NBUF ==> buf[b].dev == dev && buf[b].blockno == blockno
      ensures b == NBUF ==> forall c :: 0 <= c < NBUF ==> !(buf[c].dev == dev && buf[c].blockno == blockno)
    {
      ghost var k := 1;
      b := next[NBUF];
      assert Stop(order, NBUF, 0) == NBUF;
      while b != NBUF
        invariant 1 <= k <= NBUF + 1 && b == Stop(order, NBUF, k)
        invariant forall j :: 0 <= j < k - 1 ==> !(buf[order[j]].dev == dev && buf[order[j]].blockno == blockno)
        decreases NBUF + 1 - k
      {
        if buf[b].dev == dev && buf[b].blockno == blockno {
          return;
        }
        b, k := next[b], k + 1;
      }
      assert k == NBUF + 1;
      forall c | 0 <= c < NBUF ensures !(buf[c].dev == dev && buf[c].blockno == blockno) {
        assert c in order;
      }
    }

    /** The free buffer nearest the end of the list, which was released longest ago. */
    method Oldest() returns (b: nat)
      requires Valid()
      ensures b <= NBUF
      ensures b < NBUF ==> Free(buf[b]) && forall c :: 0 <= c < NBUF && Free(buf[c]) ==> stamp[b] <= stamp[c]
      ensures b == NBUF ==> forall c :: 0 <= c < NBUF ==> !Free(buf[c])
    {
      ghost var k := NBUF;
      b := prev[NBUF];
      assert Stop(order, NBUF, NBUF + 1) == NBUF && Stop(order, NBUF, NBUF) == b;
      while b != NBUF
        invariant 0 <= k <= NBUF && b == Stop(order, NBUF, k)
        invariant forall j :: k <= j < NBUF ==> !Free(buf[order[j]])
        decreases k
      {
        assert b == order[k - 1];
        if Free(buf[b]) {
          forall c | 0 <= c < NBUF && Free(buf[c]) ensures stamp[b] <= stamp[c] {
            assert c in order;
          }
          return;
        }
        assert Stop(order, NBUF, k - 1 + 1) == b;
        b, k := prev[b], k - 1;
      }
      assert k == 0;
      forall c | 0 <= c < NBUF ensures !Free(buf[c]) {
        assert c in order;
      }
    }

    /** bget up to acquiresleep; NBUF is the panic. */
    method Bget(dev: nat, blockno: nat) returns (b: nat)
      requires Valid() && dev != 0
      modifies this`buf, this`waiting
      ensures Valid() && b <= NBUF
      ensures b == NBUF ==>
        buf == old(buf) &&
        forall c :: 0 <= c < NBUF ==> !Free(buf[c]) && !(buf[c].dev == dev && buf[c].blockno == blockno)
      ensures b < NBUF ==> buf[b].dev == dev && buf[b].blockno == blockno && buf[b].refcnt == old(buf)[b].refcnt + 1
      ensures b < NBUF && old(buf)[b].dev == dev && old(buf)[b].blockno == blockno ==>
        buf == old(buf)[b := old(buf)[b].(refcnt := old(buf)[b].refcnt + 1)]
      ensures b < NBUF && !(old(buf)[b].dev == dev && old(buf)[b].blockno == blockno) ==>
        && buf == old(buf)[b := Buf(dev, blockno, 1, false, false, old(buf)[b].locked, old(buf)[b].data)]
        && Free(old(buf)[b]) && forall c :: 0 <= c < NBUF && Free(old(buf)[c]) ==> stamp[b] <= stamp[c]
      ensures b < NBUF ==> waiting == old(waiting)[b := old(waiting)[b] + 1]
    {
      b := Lookup(dev, blockno);
      if b < NBUF {
        buf := buf[b := buf[b].(refcnt := buf[b].refcnt + 1)];
        waiting := waiting[b := waiting[b] + 1];
        SameFaithful(old(buf), buf, disk, view, b);
        return;
      }
      b := Oldest();
      if b < NBUF {
        buf := buf[b := Buf(dev, blockno, 1, false, false, buf[b].locked, buf[b].data)];
        waiting := waiting[b := waiting[b] + 1];
        Recycled(old(buf), buf, disk, view, b);
      }
    }

    /** The end of acquiresleep: a waiter gets the lock. */
    method Acquire(b: nat)
      requires Valid() && b < NBUF && !buf[b].locked && waiting[b] > 0
      modifies this`buf, this`waiting
      ensures Valid() && buf == old(buf)[b := old(buf)[b].(locked := true)] &&
        waiting == old(waiting)[b := old(waiting)[b] - 1]
    {
      buf := buf[b := buf[b].(locked := true)];
      waiting := waiting[b := waiting[b] - 1];
      Rewritten(old(buf), buf, disk, view, b);
    }

    /** iderw of Ass2/memide.c, for the lock holder; false is a panic. */
    method Iderw(b: nat) returns (ok: bool)
      requires Valid() && b < NBUF
      modifies this`buf, this`disk
      ensures ok <==>
        old(buf)[b].locked && (old(buf)[b].dirty || !old(buf)[b].valid) && old(buf)[b].dev == 1 &&
        old(buf)[b].blockno < |old(disk)|
      ensures Valid() && view == old(view)
      ensures !ok ==> buf == old(buf) && disk == old(disk)
      ensures ok ==> buf == old(buf)[b := old(buf)[b].(valid := true, dirty := false, data := buf[b].data)]
      ensures ok && old(buf)[b].dirty ==>
        buf[b].data == old(buf)[b].data && disk == old(disk)[buf[b].blockno := buf[b].data]
      ensures ok && !old(buf)[b].dirty ==> disk == old(disk) && buf[b].data == disk[buf[b].blockno]
    {
      var x := buf[b];
      if !x.locked || (x.valid && !x.dirty) || x.dev != 1 || x.blockno >= |disk| {
        return false;
      }
      if x.dirty {
        disk := disk[x.blockno := x.data];
        buf := buf[b := x.(dirty := false, valid := true)];
        DiskWritten(old(buf), buf, old(disk), disk, view, b);
      } else {
        buf := buf[b := x.(data := disk[x.blockno], valid := true)];
        DiskRead(old(buf), buf, disk, view, b);
      }
      ok := true;
    }

    /** The rest of bread, after bget: readers get what was last written, cached or not. */
    method Bread(b: nat) returns (ok: bool)
      requires Valid() && b < NBUF && buf[b].locked
      modifies this`buf, this`disk
      ensures Valid() && disk == old(disk)
      ensures ok == (buf[b].dev == 1 && buf[b].blockno < |disk|)
      ensures ok ==> buf[b].valid && buf[b].data == view[buf[b].blockno]
      ensures buf == old(buf)[b := old(buf)[b].(valid := buf[b].valid, data := buf[b].data)]
    {
      ok := true;
      if !buf[b].valid {
        ok := Iderw(b);
      }
    }

    /** The lock holder changes the contents in memory. */
    method Modify(b: nat, data: Block)
      requires Valid() && b < NBUF && buf[b].locked && buf[b].valid
      modifies this`buf, this`view
      ensures Valid() && buf == old(buf)[b := old(buf)[b].(data := data)] && view == old(view)[buf[b].blockno := data]
    {
      buf := buf[b := buf[b].(data := data)];
      view := view[buf[b].blockno := data];
      Modified(old(buf), buf, disk, old(view), view, b);
    }

    /** b->flags |= B_DIRTY, in bwrite and log_write. */
    method MarkDirty(b: nat)
      requires Valid() && b < NBUF && buf[b].locked && buf[b].valid
      modifies this`buf
      ensures Valid() && buf == old(buf)[b := old(buf)[b].(dirty := true)]
    {
      buf := buf[b := buf[b].(dirty := true)];
      Marked(old(buf), buf, disk, view, b);
    }

    /** bwrite: the disk holds what the buffer holds. */
    method Bwrite(b: nat) returns (ok: bool)
      requires Valid() && b < NBUF && buf[b].valid
      modifies this`buf, this`disk
      ensures Valid() && ok == old(buf)[b].locked
      ensures ok ==>
        old(buf)[b].blockno < |old(disk)| && disk == old(disk)[old(buf)[b].blockno := old(buf)[b].data] &&
        buf == old(buf)[b := old(buf)[b].(dirty := false)]
    {
      if !buf[b].locked {
        return false;
      }
      MarkDirty(b);
      ok := Iderw(b);
    }

    /** releasesleep in brelse: the holder wrote the buffer, pinned it, or left it alone. */
    method Unlock(b: nat)
      requires Valid() && b < NBUF && buf[b].locked
      requires buf[b].valid && !buf[b].dirty ==> buf[b].data == disk[buf[b].blockno]
      modifies this`buf, this`leaving
      ensures Valid() && buf == old(buf)[b := old(buf)[b].(locked := false)] &&
        leaving == old(leaving)[b := old(leaving)[b] + 1]
    {
      buf := buf[b := buf[b].(locked := false)];
      leaving := leaving[b := leaving[b] + 1];
      Unlocked(old(buf), buf, disk, view, b);
    }

    /** The rest of brelse: the reference is dropped, and the last one moves the buffer to
        the head of the list. */
    method Unref(b: nat)
      requires Valid() && b < NBUF && leaving[b] > 0
      modifies this`buf, this`leaving, this`next, this`prev, this`order, this`stamp, this`time
      ensures Valid() && buf == old(buf)[b := old(buf)[b].(refcnt := old(buf)[b].refcnt - 1)]
      ensures leaving == old(leaving)[b := old(leaving)[b] - 1]
      ensures buf[b].refcnt > 0 ==> order == old(order) && stamp == old(stamp) && time == old(time)
      ensures buf[b].refcnt == 0 ==> order[0] == b && stamp == old(stamp)[b := old(time)] && time == old(time) + 1
    {
      buf := buf[b := buf[b].(refcnt := buf[b].refcnt - 1)];
      leaving := leaving[b := leaving[b] - 1];
      SameFaithful(old(buf), buf, disk, view, b);
      if buf[b].refcnt == 0 {
        MoveToFront(b);
      }
    }

    /** Unlink b, the i-th of the list. */
    method TakeOut(b: nat, ghost i: nat)
      requires Linked(next, prev, NBUF, order) && i < |order| && order[i] == b
      modifies this`next, this`prev, this`order
      ensures order == Without(old(order), i) && Linked(next, prev, NBUF, order)
    {
      PointersInRange(next, prev, NBUF, order, i);
      PointersInRange(next, prev, NBUF, order, i + 1);
      assert Stop(order, NBUF, i + 1) == b;
      ghost var next0, prev0 := next, prev;
      var after, before := next[b], prev[b];
      prev := prev[after := before];
      next := next[before := after];
      Unlink(next0, prev0, NBUF, order, i, next, prev);
      order := Without(order, i);
    }

    method MoveToFront(b: nat)
      requires Linked(next, prev, NBUF, order) && |order| == NBUF && b < NBUF && |stamp| == NBUF &&
        Recent(order, stamp, time)
      requires forall c :: 0 <= c < NBUF ==> c in order
      modifies this`next, this`prev, this`order, this`stamp, this`time
      ensures Linked(next, prev, NBUF, order) && |order| == NBUF && order[0] == b
      ensures forall c :: 0 <= c < NBUF ==> c in order
      ensures stamp == old(stamp)[b := old(time)] && time == old(time) + 1 && Recent(order, stamp, time)
    {
      assert b in order;
      ghost var i :| 0 <= i < NBUF && order[i] == b;
      ghost var o, st, tm := [b] + Without(order, i), stamp[b := time], time + 1;
      MovedOrder(order, i, stamp, time, o, st, tm);
      TakeOut(b, i);
      InsertFront(b);
      assert order == o;
      stamp, time := st, tm;
    }
  }

  /** The released buffer is now the most recent; the others keep their order. */
  lemma MovedOrder(order: seq<nat>, i: nat, stamp: seq<int>, time: int, o: seq<nat>, st: seq<int>, tm: int)
    requires i < |order| && Recent(order, stamp, time) && forall k, l :: 0 <= k < l < |order| ==> order[k] != order[l]
    requires o == [order[i]] + Without(order, i) && st == stamp[order[i] := time] && tm == time + 1
    ensures order[i] !in Without(order, i) && (forall c :: c in order ==> c in o) && Recent(o, st, tm)
  {
    assert forall k :: 1 <= k < |o| ==> o[k] == order[if k <= i then k - 1 else k];
    forall c | c in order ensures c in o {
      var k :| 0 <= k < |order| && order[k] == c;
      if k < i { assert o[k + 1] == c; } else if k > i { assert o[k] == c; } else { assert o[0] == c; }
    }
  }

  lemma Modified(buf: seq<Buf>, buf': seq<Buf>, disk: seq<Block>, view: seq<Block>, view': seq<Block>, b: nat)
    requires Faithful(buf, disk, view) && Unique(buf) && b < |buf| == |buf'| && buf[b].valid && buf[b].locked
    requires buf' == buf[b := buf[b].(data := buf'[b].data)] && view' == view[buf[b].blockno := buf'[b].data]
    ensures Faithful(buf', disk, view')
  {
    assert buf'[b].valid && buf'[b].dev == 1 && Cached(buf', buf[b].blockno);
    forall n | 0 <= n < |disk| && Cached(buf, n) ensures Cached(buf', n) {
      var c :| 0 <= c < |buf| && buf[c].dev == 1 && buf[c].blockno == n && buf[c].valid;
      assert buf'[c].valid && buf'[c].blockno == n;
    }
  }

  lemma Marked(buf: seq<Buf>, buf': seq<Buf>, disk: seq<Block>, view: seq<Block>, b: nat)
    requires Faithful(buf, disk, view) && b < |buf| == |buf'| && buf[b].valid &&
      buf' == buf[b := buf[b].(dirty := true)]
    ensures Faithful(buf', disk, view)
  {
    forall n | 0 <= n < |disk| && Cached(buf, n) ensures Cached(buf', n) {
      var c :| 0 <= c < |buf| && buf[c].dev == 1 && buf[c].blockno == n && buf[c].valid;
      assert buf'[c].valid && buf'[c].blockno == n;
    }
  }

  lemma Unlocked(buf: seq<Buf>, buf': seq<Buf>, disk: seq<Block>, view: seq<Block>, b: nat)
    requires Faithful(buf, disk, view) && b < |buf| == |buf'| && buf' == buf[b := buf[b].(locked := false)]
    requires buf[b].valid && !buf[b].dirty ==> buf[b].data == disk[buf[b].blockno]
    ensures Faithful(buf', disk, view)
  {
    forall n | 0 <= n < |disk| && Cached(buf, n) ensures Cached(buf', n) {
      var c :| 0 <= c < |buf| && buf[c].dev == 1 && buf[c].blockno == n && buf[c].valid;
      assert buf'[c].valid && buf'[c].blockno == n;
    }
  }

  lemma DiskWritten(buf: seq<Buf>, buf': seq<Buf>, disk: seq<Block>, disk': seq<Block>, view: seq<Block>, b: nat)
    requires Faithful(buf, disk, view) && Unique(buf) && b < |buf| == |buf'| && buf[b].dirty && buf[b].blockno < |disk|
    requires buf' == buf[b := buf[b].(dirty := false, valid := true)] && disk' == disk[buf[b].blockno := buf[b].data]
    ensures Faithful(buf', disk', view)
  {
    forall n | 0 <= n < |disk| && Cached(buf, n) ensures Cached(buf', n) {
      var c :| 0 <= c < |buf| && buf[c].dev == 1 && buf[c].blockno == n && buf[c].valid;
      assert buf'[c].valid && buf'[c].blockno == n;
    }
    assert Cached(buf, buf[b].blockno);
  }

  /** A block read in was not cached before, so readers saw the disk. */
  lemma DiskRead(buf: seq<Buf>, buf': seq<Buf>, disk: seq<Block>, view: seq<Block>, b: nat)
    requires Faithful(buf, disk, view) && Unique(buf) && b < |buf| == |buf'| && !buf[b].valid && buf[b].dev == 1 &&
      buf[b].blockno < |disk|
    requires buf' == buf[b := buf[b].(data := disk[buf[b].blockno], valid := true)]
    ensures Faithful(buf', disk, view)
  {
    assert !Cached(buf, buf[b].blockno);
    forall n | 0 <= n < |disk| && Cached(buf, n) ensures Cached(buf', n) {
      var c :| 0 <= c < |buf| && buf[c].dev == 1 && buf[c].blockno == n && buf[c].valid;
      assert buf'[c].valid && buf'[c].blockno == n;
    }
  }

  /** Locking a buffer weakens what is promised about it. */
  lemma Rewritten(buf: seq<Buf>, buf': seq<Buf>, disk: seq<Block>, view: seq<Block>, b: nat)
    requires Faithful(buf, disk, view) && b < |buf| == |buf'| && buf' == buf[b := buf[b].(locked := true)]
    ensures Faithful(buf', disk, view)
  {
    forall n | 0 <= n < |disk| && Cached(buf, n) ensures Cached(buf', n) {
      var c :| 0 <= c < |buf| && buf[c].dev == 1 && buf[c].blockno == n && buf[c].valid;
      assert buf'[c].valid && buf'[c].blockno == n;
    }
  }

  /** Reference counts do not matter for what readers see. */
  lemma SameFaithful(buf: seq<Buf>, buf': seq<Buf>, disk: seq<Block>, view: seq<Block>, b: nat)
    requires Faithful(buf, disk, view) && b < |buf| == |buf'| && buf' == buf[b := buf[b].(refcnt := buf'[b].refcnt)]
    ensures Faithful(buf', disk, view)
  {
    forall n | 0 <= n < |disk| && Cached(buf, n) ensures Cached(buf', n) {
      var c :| 0 <= c < |buf| && buf[c].dev == 1 && buf[c].blockno == n && buf[c].valid;
      assert buf'[c].valid && buf'[c].blockno == n;
    }
  }

  /** Dropping a free buffer loses nothing: its contents are on the disk. */
  lemma Recycled(buf: seq<Buf>, buf': seq<Buf>, disk: seq<Block>, view: seq<Block>, b: nat)
    requires Faithful(buf, disk, view) && b < |buf| == |buf'| && buf' == buf[b := buf'[b]] && !buf'[b].valid &&
      !buf'[b].dirty
    requires !buf[b].dirty && !buf[b].locked
    ensures Faithful(buf', disk, view)
  {
    forall n | 0 <= n < |disk| && !Cached(buf', n) ensures view[n] == disk[n] {
      if Cached(buf, n) {
        var c :| 0 <= c < |buf| && buf[c].dev == 1 && buf[c].blockno == n && buf[c].valid;
        assert !(buf'[c].dev == 1 && buf'[c].blockno == n && buf'[c].valid);
      }
    }
  }
}
