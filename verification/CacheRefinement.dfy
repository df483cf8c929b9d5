// The buffer cache of Ass2/bio.c does what the redo log's model takes bread, brelse, bwrite and
// log_write to do: each operation of the cache is a step of that model, or one it does not see.

module CacheRefinement {
  import opened Basics
  import opened Codec
  import opened LogModel
  import B = BufferCache

  /** Every valid buffer caches a block of device 1, and no other buffer caches it. */
  ghost predicate Sane(buf: seq<B.Buf>) {
    B.Unique(buf) && forall c :: 0 <= c < |buf| && buf[c].valid ==> buf[c].dev == 1
  }

  lemma CacheIsSane(buf: seq<B.Buf>, disk: seq<Block>, view: seq<Block>)
    requires B.Unique(buf) && B.Faithful(buf, disk, view)
    ensures Sane(buf)
  {
  }

  ghost predicate BufferAt(x: B.Buf, s: State) {
    x.blockno in s.cache && s.cache[x.blockno] == Buf(x.data, x.dirty)
  }

  /** The model's cache holds exactly the valid buffers, but for the blocks in own: those the
      committer has locked, whose model step is still to come. */
  ghost predicate Mirrors(buf: seq<B.Buf>, disk: seq<Block>, s: State, own: set<int>) {
    && s.disk == disk
    && (forall c :: 0 <= c < |buf| && buf[c].valid && buf[c].blockno !in own ==> BufferAt(buf[c], s))
    && (forall n :: n in s.cache ==> n >= 0 && B.Cached(buf, n))
  }

  ghost predicate Held(buf: seq<B.Buf>, n: int) {
    exists c :: 0 <= c < |buf| && buf[c].valid && buf[c].locked && buf[c].blockno == n
  }

  /** The model's locks are those of the valid buffers, the committer's apart.  A buffer locked
      but not yet read is still on its way through bread. */
  ghost predicate LocksMatch(buf: seq<B.Buf>, s: State, own: set<int>) {
    forall n :: (Held(buf, n) <==> n in s.lock || n in own) && !(n in s.lock && n in own)
  }

  ghost predicate Refines(buf: seq<B.Buf>, disk: seq<Block>, s: State, own: set<int>) {
    Sane(buf) && Mirrors(buf, disk, s, own) && LocksMatch(buf, s, own)
  }

  // ---------- which blocks are cached and held ----------

  lemma CachedKept(buf: seq<B.Buf>, buf': seq<B.Buf>, n: nat)
    requires B.Cached(buf, n) && |buf'| == |buf|
    requires forall c :: 0 <= c < |buf| && buf[c].valid && buf[c].blockno == n ==>
      buf'[c].valid && buf'[c].blockno == n && buf'[c].dev == buf[c].dev
    ensures B.Cached(buf', n)
  {
    var c :| 0 <= c < |buf| && buf[c].dev == 1 && buf[c].blockno == n && buf[c].valid;
    assert buf'[c].dev == 1 && buf'[c].blockno == n && buf'[c].valid;
  }

  /** Only buffer b can hold its own block. */
  lemma HeldIs(buf: seq<B.Buf>, b: nat)
    requires Sane(buf) && b < |buf| && buf[b].dev == 1
    ensures Held(buf, buf[b].blockno) <==> buf[b].valid && buf[b].locked
  {
    if Held(buf, buf[b].blockno) {
      var c :| 0 <= c < |buf| && buf[c].valid && buf[c].locked && buf[c].blockno == buf[b].blockno;
      assert c == b;
    }
  }

  /** A change of buffer b leaves the other blocks' locks alone. */
  lemma HeldElsewhere(buf: seq<B.Buf>, buf': seq<B.Buf>, b: nat, n: int)
    requires b < |buf| == |buf'| && buf' == buf[b := buf'[b]]
    requires n == buf[b].blockno ==> !(buf[b].valid && buf[b].locked)
    requires n == buf'[b].blockno ==> !(buf'[b].valid && buf'[b].locked)
    ensures Held(buf', n) <==> Held(buf, n)
  {
    if Held(buf, n) {
      var c :| 0 <= c < |buf| && buf[c].valid && buf[c].locked && buf[c].blockno == n;
      assert buf'[c] == buf[c];
    }
    if Held(buf', n) {
      var c :| 0 <= c < |buf'| && buf'[c].valid && buf'[c].locked && buf'[c].blockno == n;
      assert buf'[c] == buf[c];
    }
  }

  // ---------- operations the model does not see ----------

  /** What the model does not see: the count, and the lock of a buffer not yet read. */
  ghost predicate Unseen(x: B.Buf, y: B.Buf) {
    y == x.(refcnt := y.refcnt, locked := y.locked) && (x.valid ==> y.locked == x.locked)
  }

  /** bget of a cached block, acquiresleep for a buffer not yet read, and the end of brelse. */
  lemma Stutters(buf: seq<B.Buf>, buf': seq<B.Buf>, disk: seq<Block>, s: State, own: set<int>, b: nat)
    requires Refines(buf, disk, s, own) && b < |buf| == |buf'| && buf' == buf[b := buf'[b]] && Unseen(buf[b], buf'[b])
    ensures Refines(buf', disk, s, own)
  {
    forall n | n in s.cache ensures B.Cached(buf', n) { CachedKept(buf, buf', n); }
    forall n ensures Held(buf', n) <==> Held(buf, n) {
      if buf[b].valid && buf[b].locked && n == buf[b].blockno {
        assert buf'[b].valid && buf'[b].locked && buf'[b].blockno == n;
      } else {
        HeldElsewhere(buf, buf', b, n);
      }
    }
  }

  // ---------- bget, bread, brelse ----------

  lemma EvictMirror(buf: seq<B.Buf>, buf': seq<B.Buf>, disk: seq<Block>, s: State, own: set<int>, b: nat)
    requires Sane(buf) && Mirrors(buf, disk, s, own) && b < |buf| == |buf'| && buf' == buf[b := buf'[b]] &&
      !buf'[b].valid
    ensures Mirrors(buf', disk, if buf[b].valid then s.(cache := s.cache - {buf[b].blockno}) else s, own)
  {
    var s' := if buf[b].valid then s.(cache := s.cache - {buf[b].blockno}) else s;
    forall m | m in s'.cache ensures B.Cached(buf', m) { CachedKept(buf, buf', m); }
    forall c | 0 <= c < |buf'| && buf'[c].valid && buf'[c].blockno !in own ensures BufferAt(buf'[c], s') {
      assert c != b && BufferAt(buf[c], s);
    }
  }

  /** bget recycles a buffer that is neither referenced, so unlocked, nor dirty. */
  lemma RecycleIsEvict(buf: seq<B.Buf>, buf': seq<B.Buf>, disk: seq<Block>, s: State, own: set<int>, b: nat, dev: nat,
      blockno: nat)
    returns (s': State)
    requires Refines(buf, disk, s, own) && b < |buf| && !buf[b].locked && B.Free(buf[b]) && !s.phase.Halted?
    requires buf' == buf[b := B.Buf(dev, blockno, 1, false, false, false, buf[b].data)] && Sane(buf')
    ensures Refines(buf', disk, s', own)
    ensures if buf[b].valid then NextEvict(s, s', buf[b].blockno) else s' == s
  {
    s' := if buf[b].valid then s.(cache := s.cache - {buf[b].blockno}) else s;
    EvictMirror(buf, buf', disk, s, own, b);
    forall n ensures Held(buf', n) <==> Held(buf, n) { HeldElsewhere(buf, buf', b, n); }
    if buf[b].valid {
      HeldIs(buf, b);
      assert BufferAt(buf[b], s);
    }
  }

  /** Locking or unlocking a valid buffer. */
  lemma LockChange(buf: seq<B.Buf>, buf': seq<B.Buf>, disk: seq<Block>, s: State, own: set<int>, b: nat)
    requires Sane(buf) && Mirrors(buf, disk, s, own) && b < |buf| == |buf'| && buf[b].valid &&
      buf' == buf[b := buf[b].(locked := buf'[b].locked)]
    ensures Sane(buf') && Mirrors(buf', disk, s, own)
    ensures forall n :: Held(buf', n) <==> if n == buf[b].blockno then buf'[b].locked else Held(buf, n)
  {
    forall n | n in s.cache ensures B.Cached(buf', n) { CachedKept(buf, buf', n); }
    HeldIs(buf', b);
    forall n ensures Held(buf', n) <==> if n == buf[b].blockno then buf'[b].locked else Held(buf, n) {
      if n != buf[b].blockno { HeldElsewhere(buf, buf', b, n); }
    }
  }

  /** acquiresleep for a buffer that is valid is the whole of bread. */
  lemma LockIsBread(g: Geometry, buf: seq<B.Buf>, buf': seq<B.Buf>, disk: seq<Block>, s: State, own: set<int>, b: nat,
      a: nat)
    returns (s': State)
    requires Refines(buf, disk, s, own) && b < |buf| && buf[b].valid && !buf[b].locked &&
      buf' == buf[b := buf[b].(locked := true)]
    requires !s.phase.Halted? && !Booting(s.phase) && g.Home(buf[b].blockno) && buf[b].blockno < |disk|
    ensures NextBread(g, s, s', a, buf[b].blockno) && Refines(buf', disk, s', own)
  {
    var n := buf[b].blockno;
    HeldIs(buf, b);
    LockChange(buf, buf', disk, s, own, b);
    assert BufferAt(buf[b], s);
    s' := s.(lock := s.lock[n := a]);
    assert Mirrors(buf', disk, s', own);
  }

  lemma ReadMirror(buf: seq<B.Buf>, buf': seq<B.Buf>, disk: seq<Block>, s: State, own: set<int>, b: nat)
    requires Sane(buf) && Mirrors(buf, disk, s, own) && b < |buf| && !buf[b].valid && buf[b].dev == 1 &&
      buf[b].blockno < |disk|
    requires buf' == buf[b := buf[b].(valid := true, dirty := false, data := disk[buf[b].blockno])]
    ensures buf[b].blockno !in s.cache && Sane(buf') && Mirrors(buf', disk, Load(s, buf[b].blockno), own)
    ensures Mirrors(buf', disk, s, own + {buf[b].blockno})
  {
    var n := buf[b].blockno;
    assert !B.Cached(buf, n);
    assert buf'[b].dev == 1 && buf'[b].blockno == n && buf'[b].valid;
    forall m | m in s.cache ensures B.Cached(buf', m) { CachedKept(buf, buf', m); }
    forall c | 0 <= c < |buf'| && buf'[c].valid && buf'[c].blockno !in own ensures BufferAt(buf'[c], Load(s, n)) {
      if c != b { assert BufferAt(buf[c], s); }
    }
  }

  lemma ReadHolds(buf: seq<B.Buf>, buf': seq<B.Buf>, b: nat, n: int)
    requires Sane(buf) && Sane(buf') && b < |buf| == |buf'| && buf' == buf[b := buf'[b]] && buf'[b].dev == 1
    requires !buf[b].valid && buf'[b].valid && buf'[b].locked && buf'[b].blockno == buf[b].blockno
    ensures Held(buf', n) <==> n == buf[b].blockno || Held(buf, n)
  {
    HeldIs(buf', b);
    if n != buf[b].blockno { HeldElsewhere(buf, buf', b, n); }
  }

  /** iderw under the lock ends the bread of a block that was not cached. */
  lemma ReadIsBread(g: Geometry, buf: seq<B.Buf>, buf': seq<B.Buf>, disk: seq<Block>, s: State, own: set<int>, b: nat,
      a: nat)
    returns (s': State)
    requires Refines(buf, disk, s, own) && b < |buf| && !buf[b].valid && buf[b].locked && buf[b].dev == 1 &&
      buf[b].blockno < |disk|
    requires buf' == buf[b := buf[b].(valid := true, dirty := false, data := disk[buf[b].blockno])]
    requires !s.phase.Halted? && !Booting(s.phase) && g.Home(buf[b].blockno)
    ensures NextBread(g, s, s', a, buf[b].blockno) && Refines(buf', disk, s', own)
  {
    var n := buf[b].blockno;
    HeldIs(buf, b);
    ReadMirror(buf, buf', disk, s, own, b);
    forall m ensures Held(buf', m) <==> m == n || Held(buf, m) { ReadHolds(buf, buf', b, m); }
    s' := Load(s, n).(lock := s.lock[n := a]);
    assert Mirrors(buf', disk, s', own);
  }

  /** releasesleep in brelse, by the thread that has the lock in the model. */
  lemma UnlockIsBrelse(buf: seq<B.Buf>, buf': seq<B.Buf>, disk: seq<Block>, s: State, own: set<int>, b: nat, a: nat)
    returns (s': State)
    requires Refines(buf, disk, s, own) && b < |buf| && buf[b].valid && buf[b].blockno < |disk| &&
      buf' == buf[b := buf[b].(locked := false)]
    requires buf[b].dirty || buf[b].data == disk[buf[b].blockno]
    requires !s.phase.Halted? && buf[b].blockno in s.lock && s.lock[buf[b].blockno] == a
    requires a < |s.ops| && s.ops[a].Active? ==> s.ops[a].checked != Some(buf[b].blockno)
    ensures NextBrelse(s, s', a, buf[b].blockno) && Refines(buf', disk, s', own)
  {
    LockChange(buf, buf', disk, s, own, b);
    assert BufferAt(buf[b], s);
    s' := s.(lock := s.lock - {buf[b].blockno});
    assert Mirrors(buf', disk, s', own);
  }

  // ---------- contents and pins ----------

  lemma WriteMirror(buf: seq<B.Buf>, buf': seq<B.Buf>, disk: seq<Block>, s: State, own: set<int>, b: nat)
    requires Sane(buf) && Mirrors(buf, disk, s, own) && b < |buf| == |buf'| && buf[b].valid
    requires buf' == buf[b := buf[b].(data := buf'[b].data, dirty := buf'[b].dirty)]
    ensures Sane(buf') &&
      Mirrors(buf', disk, s.(cache := s.cache[buf[b].blockno := Buf(buf'[b].data, buf'[b].dirty)]),
      own - {buf[b].blockno})
    ensures buf[b].blockno in own ==> Mirrors(buf', disk, s, own)
    ensures forall n :: Held(buf', n) <==> Held(buf, n)
  {
    var n := buf[b].blockno;
    var s' := s.(cache := s.cache[n := Buf(buf'[b].data, buf'[b].dirty)]);
    assert buf'[b].dev == 1 && buf'[b].blockno == n && buf'[b].valid;
    forall m | m in s.cache ensures B.Cached(buf', m) { CachedKept(buf, buf', m); }
    forall c | 0 <= c < |buf'| && buf'[c].valid && buf'[c].blockno !in own - {n} ensures BufferAt(buf'[c], s') {
      if c != b { assert buf[c].blockno != n && BufferAt(buf[c], s); }
    }
    HeldIs(buf, b);
    HeldIs(buf', b);
    forall m ensures Held(buf', m) <==> Held(buf, m) {
      if m != n { HeldElsewhere(buf, buf', b, m); }
    }
  }

  /** An operation changes a buffer it has locked. */
  lemma ModifyIsModify(buf: seq<B.Buf>, buf': seq<B.Buf>, disk: seq<Block>, s: State, own: set<int>, b: nat, a: nat,
      v: Block)
    returns (s': State)
    requires Refines(buf, disk, s, own) && b < |buf| && buf[b].valid && buf' == buf[b := buf[b].(data := v)]
    requires !s.phase.Halted? && a < |s.ops| && s.ops[a].Active? && buf[b].blockno in s.lock &&
      s.lock[buf[b].blockno] == a
    ensures NextModify(s, s', a, buf[b].blockno, v) && Refines(buf', disk, s', own)
  {
    WriteMirror(buf, buf', disk, s, own, b);
    assert buf[b].blockno !in own && own - {buf[b].blockno} == own;
    assert BufferAt(buf[b], s);
    s' := s.(cache := s.cache[buf[b].blockno := Buf(v, buf[b].dirty)]);
  }

  /** The flag log_write sets pins the buffer in the model. */
  lemma MarkIsAppend(buf: seq<B.Buf>, buf': seq<B.Buf>, disk: seq<Block>, s: State, own: set<int>, b: nat, a: nat)
    returns (s': State)
    requires Refines(buf, disk, s, own) && b < |buf| && buf[b].valid && buf' == buf[b := buf[b].(dirty := true)]
    requires !s.phase.Halted? && a < |s.ops| && s.ops[a].Active? && s.ops[a].checked == Some(buf[b].blockno) &&
      buf[b].blockno in s.lock
    ensures NextLogAppend(s, s', a, buf[b].blockno) && Refines(buf', disk, s', own)
  {
    var n := buf[b].blockno;
    WriteMirror(buf, buf', disk, s, own, b);
    assert n !in own && own - {n} == own;
    assert BufferAt(buf[b], s);
    s' := s.(lh := if n in s.lh then s.lh else s.lh + [n],
             cache := s.cache[n := s.cache[n].(dirty := true)],
             ops := s.ops[a := Active(s.ops[a].wrote + {n}, None)]);
    assert Mirrors(buf', disk, s.(cache := s'.cache), own);
    assert Mirrors(buf', disk, s', own);
  }

  // ---------- the committer and recovery ----------

  /** Its bread of a block, whether cached or not. */
  lemma TakeOwn(buf: seq<B.Buf>, buf': seq<B.Buf>, disk: seq<Block>, s: State, own: set<int>, b: nat)
    requires Refines(buf, disk, s, own) && b < |buf| && buf[b].dev == 1 && buf[b].blockno < |disk| &&
      buf[b].blockno !in s.lock
    requires buf[b].locked == !buf[b].valid
    requires buf' == if buf[b].valid then buf[b := buf[b].(locked := true)]
                     else buf[b := buf[b].(valid := true, dirty := false, data := disk[buf[b].blockno])]
    ensures Refines(buf', disk, s, own + {buf[b].blockno}) && AsSeen(buf'[b], s)
  {
    var n := buf[b].blockno;
    HeldIs(buf, b);
    if buf[b].valid {
      LockChange(buf, buf', disk, s, own, b);
      assert BufferAt(buf[b], s);
    } else {
      ReadMirror(buf, buf', disk, s, own, b);
      forall m ensures Held(buf', m) <==> m == n || Held(buf, m) { ReadHolds(buf, buf', b, m); }
    }
    assert Mirrors(buf', disk, s, own + {n});
  }

  /** x is a block as bread gave it: the cached copy, or a clean one just read. */
  ghost predicate AsSeen(x: B.Buf, s: State) {
    x.valid && x.blockno < |s.disk| && x.data == View(s, x.blockno) &&
      x.dirty == (x.blockno in s.cache && s.cache[x.blockno].dirty)
  }

  /** The bread becomes a step of the model. */
  lemma OwnLoad(buf: seq<B.Buf>, disk: seq<Block>, s: State, own: set<int>, b: nat)
    requires Sane(buf) && Mirrors(buf, disk, s, own) && b < |buf| && AsSeen(buf[b], s) && buf[b].dev == 1
    ensures Mirrors(buf, disk, Load(s, buf[b].blockno), own - {buf[b].blockno})
  {
    var n := buf[b].blockno;
    var s' := Load(s, n);
    assert BufferAt(buf[b], s');
    assert B.Cached(buf, n);
    forall c | 0 <= c < |buf| && buf[c].valid && buf[c].blockno !in own - {n} ensures BufferAt(buf[c], s') {
      if c != b { assert buf[c].blockno != n && BufferAt(buf[c], s); }
    }
  }

  /** So does bwrite. */
  lemma OwnPut(buf: seq<B.Buf>, buf': seq<B.Buf>, disk: seq<Block>, disk': seq<Block>, s: State, own: set<int>, b: nat)
    requires Sane(buf) && Mirrors(buf, disk, s, own) && b < |buf| && buf[b].valid && buf[b].blockno < |disk|
    requires buf' == buf[b := buf[b].(dirty := false)] && disk' == disk[buf[b].blockno := buf[b].data]
    ensures Sane(buf') && Mirrors(buf', disk', Put(s, buf[b].blockno, buf[b].data), own - {buf[b].blockno})
    ensures forall n :: Held(buf', n) <==> Held(buf, n)
  {
    WriteMirror(buf, buf', disk, s, own, b);
  }

  /** memmove from buffer x to buffer y, both locked by the committer, and bwrite of y: the copy
      write_log and install_trans make, in one step of the model. */
  lemma CopyIsPut(buf: seq<B.Buf>, buf': seq<B.Buf>, disk: seq<Block>, disk': seq<Block>, s: State, own: set<int>,
      x: nat, y: nat)
    requires Sane(buf) && Mirrors(buf, disk, s, own) && x < |buf| && y < |buf| && buf[x].blockno != buf[y].blockno
    requires AsSeen(buf[x], s) && buf[x].dev == 1 && buf[y].valid && buf[y].dev == 1 && buf[y].blockno < |disk| &&
      buf[y].blockno in own
    requires buf' == buf[y := buf[y].(data := buf[x].data, dirty := false)] &&
      disk' == disk[buf[y].blockno := buf[x].data]
    ensures var s1 := Load(s, buf[x].blockno);
      Mirrors(buf', disk', Put(s1, buf[y].blockno, View(s1, buf[x].blockno)), own - {buf[x].blockno} - {buf[y].blockno})
    ensures Sane(buf') && forall n :: Held(buf', n) <==> Held(buf, n)
  {
    var buf1 := buf[y := buf[y].(data := buf[x].data)];
    WriteMirror(buf, buf1, disk, s, own, y);
    OwnLoad(buf1, disk, s, own, x);
    OwnPut(buf1, buf', disk, disk', Load(s, buf[x].blockno), own - {buf[x].blockno}, y);
  }

  /** brelse of the committer's buffers. */
  lemma DropOwn(buf: seq<B.Buf>, buf': seq<B.Buf>, disk: seq<Block>, s: State, own: set<int>, done: set<int>, b: nat)
    requires Sane(buf) && Mirrors(buf, disk, s, done) && LocksMatch(buf, s, own) && done <= own
    requires b < |buf| && buf[b].valid && buf[b].blockno in own - done && buf' == buf[b := buf[b].(locked := false)]
    ensures Sane(buf') && Mirrors(buf', disk, s, done) && LocksMatch(buf', s, own - {buf[b].blockno})
  {
    LockChange(buf, buf', disk, s, done, b);
  }

  // ---------- the methods of the cache, step by step ----------

  /** Only the cache, the locks and the disk of s matter. */
  lemma OthersFree(buf: seq<B.Buf>, disk: seq<Block>, s: State, s': State, own: set<int>)
    requires s'.cache == s.cache && s'.lock == s.lock && s'.disk == s.disk
    ensures Mirrors(buf, disk, s, own) ==> Mirrors(buf, disk, s', own)
    ensures LocksMatch(buf, s, own) ==> LocksMatch(buf, s', own)
  {
    if Mirrors(buf, disk, s, own) {
      forall c | 0 <= c < |buf| && buf[c].valid && buf[c].blockno !in own ensures BufferAt(buf[c], s') {
        assert BufferAt(buf[c], s);
      }
    }
  }

  /** bget up to acquiresleep: an eviction, or nothing. */
  method Get(c: B.Cache, dev: nat, blockno: nat, ghost s: State, ghost own: set<int>) returns (b: nat, ghost s': State)
    requires c.Valid() && dev != 0 && Refines(c.buf, c.disk, s, own) && !s.phase.Halted?
    modifies c`buf, c`waiting
    ensures c.Valid() && b <= B.NBUF && Refines(c.buf, c.disk, s', own)
    ensures b < B.NBUF ==> c.buf[b].dev == dev && c.buf[b].blockno == blockno && c.waiting[b] > 0
    ensures s' == s || NextEvict(s, s', old(c.buf)[if b < B.NBUF then b else 0].blockno)
  {
    ghost var buf0 := c.buf;
    b := c.Bget(dev, blockno);
    s' := s;
    if b < B.NBUF {
      if buf0[b].dev == dev && buf0[b].blockno == blockno {
        Stutters(buf0, c.buf, c.disk, s, own, b);
      } else {
        CacheIsSane(c.buf, c.disk, c.view);
        s' := RecycleIsEvict(buf0, c.buf, c.disk, s, own, b, dev, blockno);
      }
    }
  }

  /** The end of acquiresleep in bread by thread a: all of bread if the buffer is valid. */
  method Lock(c: B.Cache, b: nat, ghost g: Geometry, ghost s: State, ghost own: set<int>, ghost a: nat)
      returns (ghost s': State)
    requires c.Valid() && b < B.NBUF && !c.buf[b].locked && c.waiting[b] > 0 && Refines(c.buf, c.disk, s, own)
    requires !s.phase.Halted? && !Booting(s.phase) && g.Home(c.buf[b].blockno)
    modifies c`buf, c`waiting
    ensures c.Valid() && c.buf[b].locked && c.buf[b].valid == old(c.buf)[b].valid && Refines(c.buf, c.disk, s', own)
    ensures if c.buf[b].valid then NextBread(g, s, s', a, c.buf[b].blockno) else s' == s
  {
    ghost var buf0 := c.buf;
    c.Acquire(b);
    s' := s;
    if buf0[b].valid {
      s' := LockIsBread(g, buf0, c.buf, c.disk, s, own, b, a);
    } else {
      Stutters(buf0, c.buf, c.disk, s, own, b);
    }
  }

  /** The rest of bread, for a buffer that is not valid. */
  method Read(c: B.Cache, b: nat, ghost g: Geometry, ghost s: State, ghost own: set<int>, ghost a: nat)
      returns (ok: bool, ghost s': State)
    requires c.Valid() && b < B.NBUF && c.buf[b].locked && !c.buf[b].valid && Refines(c.buf, c.disk, s, own)
    requires !s.phase.Halted? && !Booting(s.phase) && g.Home(c.buf[b].blockno)
    modifies c`buf, c`disk
    ensures c.Valid() && Refines(c.buf, c.disk, s', own) && c.disk == old(c.disk)
    ensures ok == (c.buf[b].dev == 1 && c.buf[b].blockno < |c.disk|)
    ensures if ok then c.buf[b].valid && NextBread(g, s, s', a, c.buf[b].blockno) else s' == s
  {
    ghost var buf0 := c.buf;
    ok := c.Iderw(b);
    s' := s;
    if ok {
      s' := ReadIsBread(g, buf0, c.buf, c.disk, s, own, b, a);
    }
  }

  /** Operation a writes to the buffer. */
  method Change(c: B.Cache, b: nat, v: Block, ghost s: State, ghost own: set<int>, ghost a: nat)
      returns (ghost s': State)
    requires c.Valid() && b < B.NBUF && c.buf[b].locked && c.buf[b].valid && Refines(c.buf, c.disk, s, own)
    requires !s.phase.Halted? && a < |s.ops| && s.ops[a].Active? && c.buf[b].blockno in s.lock &&
      s.lock[c.buf[b].blockno] == a
    modifies c`buf, c`view
    ensures c.Valid() && Refines(c.buf, c.disk, s', own) && NextModify(s, s', a, c.buf[b].blockno, v)
  {
    ghost var buf0 := c.buf;
    c.Modify(b, v);
    s' := ModifyIsModify(buf0, c.buf, c.disk, s, own, b, a, v);
  }

  /** The end of log_write. */
  method Pin(c: B.Cache, b: nat, ghost s: State, ghost own: set<int>, ghost a: nat) returns (ghost s': State)
    requires c.Valid() && b < B.NBUF && c.buf[b].locked && c.buf[b].valid && Refines(c.buf, c.disk, s, own)
    requires !s.phase.Halted? && a < |s.ops| && s.ops[a].Active? && s.ops[a].checked == Some(c.buf[b].blockno) &&
      c.buf[b].blockno in s.lock
    modifies c`buf
    ensures c.Valid() && Refines(c.buf, c.disk, s', own) && NextLogAppend(s, s', a, c.buf[b].blockno)
  {
    ghost var buf0 := c.buf;
    c.MarkDirty(b);
    s' := MarkIsAppend(buf0, c.buf, c.disk, s, own, b, a);
  }

  /** releasesleep in brelse by thread a. */
  method Release(c: B.Cache, b: nat, ghost s: State, ghost own: set<int>, ghost a: nat) returns (ghost s': State)
    requires c.Valid() && b < B.NBUF && c.buf[b].locked && c.buf[b].valid && Refines(c.buf, c.disk, s, own)
    requires c.buf[b].dirty || c.buf[b].data == c.disk[c.buf[b].blockno]
    requires !s.phase.Halted? && c.buf[b].blockno in s.lock && s.lock[c.buf[b].blockno] == a
    requires a < |s.ops| && s.ops[a].Active? ==> s.ops[a].checked != Some(c.buf[b].blockno)
    modifies c`buf, c`leaving
    ensures c.Valid() && Refines(c.buf, c.disk, s', own) && NextBrelse(s, s', a, c.buf[b].blockno)
  {
    ghost var buf0 := c.buf;
    c.Unlock(b);
    s' := UnlockIsBrelse(buf0, c.buf, c.disk, s, own, b, a);
  }

  /** The end of brelse. */
  method Drop(c: B.Cache, b: nat, ghost s: State, ghost own: set<int>)
    requires c.Valid() && b < B.NBUF && c.leaving[b] > 0 && Refines(c.buf, c.disk, s, own)
    modifies c`buf, c`leaving, c`next, c`prev, c`order, c`stamp, c`time
    ensures c.Valid() && Refines(c.buf, c.disk, s, own)
  {
    ghost var buf0 := c.buf;
    c.Unref(b);
    Stutters(buf0, c.buf, c.disk, s, own, b);
  }

  /** s' is s after the committer's copy from block m to block n. */
  ghost predicate Copied(s: State, s': State, m: int, n: int, next: Phase) {
    && 0 <= m < |s.disk| && 0 <= n < |s.disk|
    && s' == Put(Load(s, m), n, View(Load(s, m), m)).(phase := next)
  }

  lemma CopyStep(buf: seq<B.Buf>, buf': seq<B.Buf>, disk: seq<Block>, disk': seq<Block>, s: State, own: set<int>,
      x: nat, y: nat, next: Phase)
    returns (s': State)
    requires Refines(buf, disk, s, own) && x < |buf| && y < |buf| && buf[x].blockno != buf[y].blockno
    requires own == {buf[x].blockno, buf[y].blockno} && AsSeen(buf[x], s) && buf[y].valid && buf[y].blockno < |disk|
    requires buf' == buf[y := buf[y].(data := buf[x].data, dirty := false)] &&
      disk' == disk[buf[y].blockno := buf[x].data]
    ensures Copied(s, s', buf[x].blockno, buf[y].blockno, next) && Mirrors(buf', disk', s', {}) &&
      LocksMatch(buf', s', own)
  {
    var m, n := buf[x].blockno, buf[y].blockno;
    CopyIsPut(buf, buf', disk, disk', s, own, x, y);
    var s2 := Put(Load(s, m), n, View(Load(s, m), m));
    s' := s2.(phase := next);
    assert own - {m} - {n} == {};
    OthersFree(buf', disk', s2, s', {});
  }

  /** memmove and bwrite. */
  method CopyOut(c: B.Cache, x: nat, y: nat)
    requires c.Valid() && x < B.NBUF && y < B.NBUF && x != y && c.buf[y].locked && c.buf[y].valid
    modifies c`buf, c`view, c`disk
    ensures c.Valid() && old(c.buf)[y].blockno < |old(c.disk)|
    ensures c.buf == old(c.buf)[y := old(c.buf)[y].(data := old(c.buf)[x].data, dirty := false)]
    ensures c.disk == old(c.disk)[old(c.buf)[y].blockno := old(c.buf)[x].data]
  {
    c.Modify(y, c.buf[x].data);
    var _ := c.Bwrite(y);
  }

  /** The committer copies buffer x to buffer y, both locked by it, and writes y to the disk: one
      step of write_log, or of install_trans. */
  method Copy(c: B.Cache, x: nat, y: nat, ghost s: State, ghost own: set<int>, ghost next: Phase)
      returns (ghost s': State)
    requires c.Valid() && x < B.NBUF && y < B.NBUF && Refines(c.buf, c.disk, s, own)
    requires own == {c.buf[x].blockno, c.buf[y].blockno} && c.buf[x].blockno != c.buf[y].blockno
    requires AsSeen(c.buf[x], s) && c.buf[y].locked && c.buf[y].valid
    modifies c`buf, c`view, c`disk
    ensures c.Valid() && Mirrors(c.buf, c.disk, s', {}) && LocksMatch(c.buf, s', own)
    ensures Copied(s, s', old(c.buf)[x].blockno, old(c.buf)[y].blockno, next)
  {
    ghost var buf0, disk0 := c.buf, c.disk;
    CopyOut(c, x, y);
    s' := CopyStep(buf0, c.buf, disk0, c.disk, s, own, x, y, next);
  }

  /** With the blocks write_log and install_trans choose, that is their step. */
  lemma CopyIsStep(g: Geometry, s: State, s': State, t: nat, next: Phase)
    requires t < |s.lh| && s.lh[t] !in s.lock
    ensures s.phase == WriteLog(t) && next == (if t + 1 < |s.lh| then WriteLog(t + 1) else WriteHead) ==>
      (NextWriteLog(g, s, s') <==> Copied(s, s', s.lh[t], g.start + 1 + t, next))
    ensures CopyHome(g, s, s', t, next) <==> Copied(s, s', g.start + 1 + t, s.lh[t], next)
  {
  }
}
