// itrunc of Ass2/fs.c: the blocks of a file go back to the free map, each exactly once.

module FsTrunc {
  import opened Codec
  import opened FsModel
  import opened FsLemmas
  import opened FsFile
  import opened FsWrite
  import opened FsCode
  import opened FsIo

  /** The slots still to be freed after nd direct blocks, ne indirect entries, and the
      indirect block itself if p. */
  ghost function Left(s: seq<int>, nd: nat, ne: nat, p: bool): (r: seq<int>)
    requires |s| == SLOTS
    ensures |r| == SLOTS
    ensures forall k :: 0 <= k < SLOTS ==> r[k] == if k < NDIRECT then (if k < nd then 0 else s[k])
                                                   else if k == NDIRECT then (if p then 0 else s[k])
                                                   else if k - NDIRECT - 1 < ne then 0 else s[k]
  {
    seq(SLOTS, k requires 0 <= k < SLOTS =>
      if k < NDIRECT then (if k < nd then 0 else s[k])
      else if k == NDIRECT then (if p then 0 else s[k])
      else if k - NDIRECT - 1 < ne then 0 else s[k])
  }

  /** Outside the free map the disk is as it was. */
  ghost predicate OnlyMap(sb: Super, d: Disk, d': Disk) {
    |d'| == |d| && forall x :: 0 <= x < |d| && !(sb.bmapstart <= x < sb.datastart) ==> d'[x] == d[x]
  }

  /** Inode i's slots are s; the others' are as in ss0; the free map agrees. */
  ghost predicate Midway(sb: Super, ss0: seq<seq<int>>, i: nat, s: seq<int>, d: Disk) {
    && sb.Valid() && |d| == sb.size && i < |ss0|
    && Owned(sb, ss0[i := s], Usage(sb, d))
  }

  /** Only free-map blocks were logged. */
  ghost predicate LoggedMap(sb: Super, dirty: set<int>, dirty': set<int>) {
    forall m :: m in dirty' ==> m in dirty || sb.bmapstart <= m < sb.datastart
  }

  /** bfree of the block in slot k: never a block that is already free. */
  method FreeSlot(fs: FileSys, b: nat, ghost ss0: seq<seq<int>>, ghost i: nat, ghost s: seq<int>, ghost k: nat,
      ghost s': seq<int>)
    requires Midway(fs.sb, ss0, i, s, fs.disk) && |s| == SLOTS && k < SLOTS && s[k] == b != 0 && s' == s[k := 0]
    requires fs.Traced()
    modifies fs`disk, fs`dirty, fs`trace
    ensures fs.Traced()
    ensures Midway(fs.sb, ss0, i, s', fs.disk) && OnlyMap(fs.sb, old(fs.disk), fs.disk)
    ensures LoggedMap(fs.sb, old(fs.dirty), fs.dirty)
  {
    ghost var ss := ss0[i := s];
    assert ss[i][k] == b;
    OwnedFree(fs.sb, ss, Usage(fs.sb, fs.disk), i, k);
    UsageUpdate(fs.sb, fs.disk, b, false);
    MapInRange(fs.sb);
    var ok := fs.Bfree(b);
    assert ok;
    assert ss0[i := s'] == PutSlot(ss, i, k, 0);
  }

  method FreeDirect(fs: FileSys, ip: InodeRef, ghost ss0: seq<seq<int>>, ghost i: nat, ghost s: seq<int>)
    requires |s| == SLOTS && Midway(fs.sb, ss0, i, Left(s, 0, 0, false), fs.disk)
    requires |ip.addrs| == NDIRECT + 1 && forall k :: 0 <= k <= NDIRECT ==> ip.addrs[k] == s[k] && ip.addrs[k] >= 0
    requires fs.Traced()
    modifies fs`disk, fs`dirty, fs`trace, ip`addrs
    ensures fs.Traced()
    ensures Midway(fs.sb, ss0, i, Left(s, NDIRECT, 0, false), fs.disk) && OnlyMap(fs.sb, old(fs.disk), fs.disk)
    ensures LoggedMap(fs.sb, old(fs.dirty), fs.dirty)
    ensures ip.addrs == Zeros(NDIRECT) + [s[NDIRECT]]
  {
    var n := 0;
    while n < NDIRECT
      invariant 0 <= n <= NDIRECT && |ip.addrs| == NDIRECT + 1
      invariant Midway(fs.sb, ss0, i, Left(s, n, 0, false), fs.disk) && OnlyMap(fs.sb, old(fs.disk), fs.disk)
      invariant LoggedMap(fs.sb, old(fs.dirty), fs.dirty) && fs.Traced()
      invariant forall k :: 0 <= k <= NDIRECT ==> ip.addrs[k] == if k < n then 0 else s[k]
    {
      LeftDirect(s, n);
      if ip.addrs[n] != 0 {
        FreeSlot(fs, ip.addrs[n], ss0, i, Left(s, n, 0, false), n, Left(s, n + 1, 0, false));
        ip.addrs := ip.addrs[n := 0];
      }
      n := n + 1;
    }
  }

  lemma LeftDirect(s: seq<int>, n: nat)
    requires |s| == SLOTS && n < NDIRECT
    ensures Left(s, n + 1, 0, false) == Left(s, n, 0, false)[n := 0]
    ensures s[n] == 0 ==> Left(s, n + 1, 0, false) == Left(s, n, 0, false)
  {
  }

  lemma LeftEntry(s: seq<int>, n: nat)
    requires |s| == SLOTS && n < NINDIRECT
    ensures Left(s, NDIRECT, n + 1, false) == Left(s, NDIRECT, n, false)[NDIRECT + 1 + n := 0]
    ensures s[NDIRECT + 1 + n] == 0 ==> Left(s, NDIRECT, n + 1, false) == Left(s, NDIRECT, n, false)
  {
  }

  /** The indirect entries and then the indirect block; the entries stay on disk. */
  method FreeIndirect(fs: FileSys, a: seq<int>, ghost ss0: seq<seq<int>>, ghost i: nat, ghost s: seq<int>)
    requires |s| == SLOTS && Midway(fs.sb, ss0, i, Left(s, NDIRECT, 0, false), fs.disk)
    requires |a| == NINDIRECT && forall k :: 0 <= k < NINDIRECT ==> a[k] == s[NDIRECT + 1 + k] && a[k] >= 0
    requires fs.Traced()
    modifies fs`disk, fs`dirty, fs`trace
    ensures fs.Traced()
    ensures Midway(fs.sb, ss0, i, Left(s, NDIRECT, NINDIRECT, false), fs.disk) && OnlyMap(fs.sb, old(fs.disk), fs.disk)
    ensures LoggedMap(fs.sb, old(fs.dirty), fs.dirty)
  {
    var n := 0;
    while n < NINDIRECT
      invariant 0 <= n <= NINDIRECT
      invariant Midway(fs.sb, ss0, i, Left(s, NDIRECT, n, false), fs.disk) && OnlyMap(fs.sb, old(fs.disk), fs.disk)
      invariant LoggedMap(fs.sb, old(fs.dirty), fs.dirty) && fs.Traced()
    {
      LeftEntry(s, n);
      if a[n] != 0 {
        FreeSlot(fs, a[n], ss0, i, Left(s, NDIRECT, n, false), NDIRECT + 1 + n, Left(s, NDIRECT, n + 1, false));
      }
      n := n + 1;
    }
  }

  /** Only inode i's blocks were freed, and they were. */
  lemma FreedExactly(sb: Super, ss0: seq<seq<int>>, u0: seq<bool>, i: nat, u: seq<bool>, b: nat)
    requires Owned(sb, ss0, u0) && i < |ss0| && Owned(sb, ss0[i := Zeros(SLOTS)], u) && b < sb.size && b != 0
    ensures u[b] <==> u0[b] && b !in ss0[i]
  {
    var ss := ss0[i := Zeros(SLOTS)];
    if sb.datastart <= b {
      if u[b] {
        var j, k :| 0 <= j < |ss| && 0 <= k < |ss[j]| && ss[j][k] == b;
        assert ss0[j][k] == b;
      }
      if u0[b] && b !in ss0[i] {
        var j, k :| 0 <= j < |ss0| && 0 <= k < |ss0[j]| && ss0[j][k] == b;
        assert ss[j][k] == b;
      }
    }
  }

  /** With the slots of inode i empty in memory too, ownership holds again. */
  lemma TruncInv(sb: Super, d0: Disk, t0: seq<Inode>, d: Disk, tab: seq<Inode>, i: nat)
    requires FsInv(sb, d0, t0) && i < |t0| && OnlyMap(sb, d0, d) && Shape(sb, d, tab)
    requires tab == t0[i := tab[i]] && tab[i].addrs == Zeros(NDIRECT + 1)
    requires Midway(sb, Table(d0, t0), i, Zeros(SLOTS), d)
    ensures FsInv(sb, d, tab) && OthersKept(sb, d0, t0, d, tab, i)
    ensures Slots(d, tab[i]) == Zeros(SLOTS)
  {
    var ss := Table(d0, t0)[i := Zeros(SLOTS)];
    forall j | 0 <= j < |t0| && j != i ensures SameFile(d0, d, t0[j]) {
      SlotsInRange(sb, d0, t0, j);
      PointerIsData(sb, d0, t0, j);
    }
    OthersIntro(sb, d0, t0, d, tab, i);
    forall j | 0 <= j < |tab| ensures Table(d, tab)[j] == ss[j] { }
    assert Table(d, tab) == ss;
  }

  lemma TruncUsage(sb: Super, d0: Disk, t0: seq<Inode>, i: nat, d: Disk)
    requires FsInv(sb, d0, t0) && i < |t0| && Midway(sb, Table(d0, t0), i, Zeros(SLOTS), d)
    ensures forall b :: 0 < b < sb.size ==> (Usage(sb, d)[b] <==> Usage(sb, d0)[b] && b !in Slots(d0, t0[i]))
  {
    forall b | 0 < b < sb.size ensures Usage(sb, d)[b] <==> Usage(sb, d0)[b] && b !in Slots(d0, t0[i]) {
      FreedExactly(sb, Table(d0, t0), Usage(sb, d0), i, Usage(sb, d), b);
    }
  }

  lemma NothingLeft(s: seq<int>, a: seq<int>)
    requires |s| == SLOTS && s[NDIRECT] == 0 && a == Zeros(NINDIRECT)
    requires forall k :: 0 <= k < NINDIRECT ==> a[k] == s[NDIRECT + 1 + k]
    ensures Left(s, NDIRECT, 0, false) == Zeros(SLOTS)
  {
    forall k | 0 <= k < SLOTS ensures Left(s, NDIRECT, 0, false)[k] == 0 {
      if k > NDIRECT { assert a[k - NDIRECT - 1] == s[k]; }
    }
  }

  /** What the indirect block names, and that block. */
  method FreePointer(fs: FileSys, ip: InodeRef, ghost ss0: seq<seq<int>>, ghost i: nat, ghost s: seq<int>,
      ghost a: seq<int>)
    requires |s| == SLOTS && Midway(fs.sb, ss0, i, Left(s, NDIRECT, 0, false), fs.disk)
    requires ip.addrs == Zeros(NDIRECT) + [s[NDIRECT]] && 0 <= s[NDIRECT] < |fs.disk|
    requires |a| == NINDIRECT && forall k :: 0 <= k < NINDIRECT ==> a[k] == s[NDIRECT + 1 + k] && a[k] >= 0
    requires a == if s[NDIRECT] == 0 then Zeros(NINDIRECT) else Entries(fs.disk[s[NDIRECT]])
    requires fs.Traced()
    modifies fs`disk, fs`dirty, fs`trace, ip`addrs
    ensures fs.Traced()
    ensures Midway(fs.sb, ss0, i, Zeros(SLOTS), fs.disk) && OnlyMap(fs.sb, old(fs.disk), fs.disk)
    ensures LoggedMap(fs.sb, old(fs.dirty), fs.dirty)
    ensures ip.addrs == Zeros(NDIRECT + 1)
  {
    var p := ip.addrs[NDIRECT];
    AllZero(s[NDIRECT]);
    if p != 0 {
      EntriesAre(s, a, fs.disk[p]);
      FreeIndirect(fs, Entries(fs.disk[p]), ss0, i, s);
      assert Left(s, NDIRECT, NINDIRECT, false)[NDIRECT := 0] == Zeros(SLOTS);
      FreeSlot(fs, p, ss0, i, Left(s, NDIRECT, NINDIRECT, false), NDIRECT, Zeros(SLOTS));
      ip.addrs := ip.addrs[NDIRECT := 0];
    } else {
      NothingLeft(s, a);
    }
  }

  lemma EntriesAre(s: seq<int>, a: seq<int>, b: Block)
    requires |s| == SLOTS && a == Entries(b)
    requires forall k :: 0 <= k < NINDIRECT ==> a[k] == s[NDIRECT + 1 + k] && a[k] >= 0
    ensures forall k :: 0 <= k < NINDIRECT ==> Entries(b)[k] == s[NDIRECT + 1 + k] && Entries(b)[k] >= 0
  {
    forall k | 0 <= k < NINDIRECT ensures Entries(b)[k] == s[NDIRECT + 1 + k] && Entries(b)[k] >= 0 {
      assert a[k] == Entries(b)[k];
    }
  }

  lemma AllZero(p: int)
    ensures (Zeros(NDIRECT) + [p])[NDIRECT := 0] == Zeros(NDIRECT + 1)
    ensures p == 0 ==> Zeros(NDIRECT) + [p] == Zeros(NDIRECT + 1)
  {
  }

  lemma TruncStart(sb: Super, d: Disk, tab: seq<Inode>, i: nat, ss: seq<seq<int>>, s: seq<int>, a: seq<int>)
    requires FsInv(sb, d, tab) && i < |tab| && ss == Table(d, tab) && s == Slots(d, tab[i]) && a == s[NDIRECT + 1..]
    ensures Midway(sb, ss, i, Left(s, 0, 0, false), d)
    ensures forall k :: 0 <= k <= NDIRECT ==> tab[i].addrs[k] == s[k] && tab[i].addrs[k] >= 0
    ensures forall k :: 0 <= k < NINDIRECT ==> a[k] == s[NDIRECT + 1 + k] && a[k] >= 0
    ensures a == if s[NDIRECT] == 0 then Zeros(NINDIRECT) else Entries(d[s[NDIRECT]])
    ensures s[NDIRECT] != 0 ==> sb.Data(s[NDIRECT])
  {
    SlotsInRange(sb, d, tab, i);
    PointerIsData(sb, d, tab, i);
    assert s == Left(s, 0, 0, false) && ss[i := s] == ss;
  }

  /** All three loops of itrunc. */
  method FreeSlots(fs: FileSys, ip: InodeRef, ghost ss: seq<seq<int>>, ghost i: nat, ghost s: seq<int>,
      ghost a: seq<int>)
    requires |s| == SLOTS && Midway(fs.sb, ss, i, Left(s, 0, 0, false), fs.disk)
    requires |ip.addrs| == NDIRECT + 1 && forall k :: 0 <= k <= NDIRECT ==> ip.addrs[k] == s[k] && ip.addrs[k] >= 0
    requires |a| == NINDIRECT && forall k :: 0 <= k < NINDIRECT ==> a[k] == s[NDIRECT + 1 + k] && a[k] >= 0
    requires s[NDIRECT] == 0 || fs.sb.Data(s[NDIRECT])
    requires a == if s[NDIRECT] == 0 then Zeros(NINDIRECT) else Entries(fs.disk[s[NDIRECT]])
    requires fs.Traced()
    modifies fs`disk, fs`dirty, fs`trace, ip`addrs
    ensures fs.Traced()
    ensures Midway(fs.sb, ss, i, Zeros(SLOTS), fs.disk)
    ensures OnlyMap(fs.sb, old(fs.disk), fs.disk) && LoggedMap(fs.sb, old(fs.dirty), fs.dirty)
    ensures ip.addrs == Zeros(NDIRECT + 1)
  {
    FreeDirect(fs, ip, ss, i, s);
    FreePointer(fs, ip, ss, i, s, a);
  }

  /** Inode i owns nothing afterwards. */
  method FreeAll(fs: FileSys, ip: InodeRef)
    requires fs.Valid() && fs.Has(ip)
    requires fs.Traced()
    modifies fs`disk, fs`dirty, fs`trace, fs`tab, ip`addrs
    ensures fs.Traced()
    ensures fs.Valid() && fs.Has(ip) && OthersKept(fs.sb, old(fs.disk), old(fs.tab), fs.disk, fs.tab, ip.inum)
    ensures fs.tab[ip.inum] == old(fs.tab)[ip.inum].(addrs := Zeros(NDIRECT + 1))
    ensures Slots(fs.disk, fs.tab[ip.inum]) == Zeros(SLOTS)
    ensures forall b :: 0 < b < fs.sb.size ==>
      (Usage(fs.sb, fs.disk)[b] <==> Usage(fs.sb, old(fs.disk))[b] && b !in Slots(old(fs.disk), old(fs.tab)[ip.inum]))
    ensures LoggedMap(fs.sb, old(fs.dirty), fs.dirty)
  {
    ghost var i, d0, t0 := ip.inum, fs.disk, fs.tab;
    ghost var ss, s := Table(d0, t0), Slots(d0, t0[i]);
    TruncStart(fs.sb, d0, t0, i, ss, s, s[NDIRECT + 1..]);
    FreeSlots(fs, ip, ss, i, s, s[NDIRECT + 1..]);
    fs.tab := fs.tab[i := ip.D()];
    assert ip.D() == t0[i].(addrs := Zeros(NDIRECT + 1));
    TruncInv(fs.sb, d0, t0, fs.disk, fs.tab, i);
    TruncUsage(fs.sb, d0, t0, i, fs.disk);
  }

  lemma EmptyFile(d: Disk, ino: Inode, d': Disk)
    requires |ino.addrs| == NDIRECT + 1 && 0 <= ino.addrs[NDIRECT] < |d| && |d'| == |d| && SameFile(d, d', ino)
    requires Slots(d, ino) == Zeros(SLOTS)
    ensures FileOk(d', ino.(size := 0)) && Content(d', ino.(size := 0)) == []
  {
    assert Slots(d', ino.(size := 0)) == Zeros(SLOTS);
  }

  /** itrunc: the file is empty, in memory and on disk; its blocks, and no others, are free;
      no other file changes; bfree never panics. */
  method Itrunc(fs: FileSys, ip: InodeRef)
    requires fs.Valid() && fs.Has(ip)
    requires fs.Traced()
    modifies fs`disk, fs`dirty, fs`trace, fs`tab, ip`addrs, ip`size
    ensures fs.Traced()
    ensures fs.Valid() && fs.Has(ip) && FileOk(fs.disk, fs.tab[ip.inum]) && Content(fs.disk, fs.tab[ip.inum]) == []
    ensures OnlyFile(fs.sb, old(fs.disk), old(fs.tab), fs.disk, fs.tab, ip.inum)
    ensures InodeAt(fs.sb, fs.disk, ip.inum) == fs.tab[ip.inum]
    ensures forall b :: 0 < b < fs.sb.size ==>
      (Usage(fs.sb, fs.disk)[b] <==> Usage(fs.sb, old(fs.disk))[b] && b !in Slots(old(fs.disk), old(fs.tab)[ip.inum]))
    ensures Healthy(fs.sb, old(fs.disk), old(fs.tab)) ==>
      Healthy(fs.sb, fs.disk, fs.tab) && OthersSame(old(fs.disk), old(fs.tab), fs.disk, fs.tab, ip.inum)
  {
    ghost var i, d0, t0 := ip.inum, fs.disk, fs.tab;
    FreeAll(fs, ip);
    ghost var d1, t1 := fs.disk, fs.tab;
    OnlyFileOf(fs.sb, d0, t0, d1, t1, i);
    SetSize(fs, ip, 0);
    OnlyFileTrans(fs.sb, d0, t0, d1, t1, fs.disk, fs.tab, i);
    EmptyFile(d1, t1[i], fs.disk);
    if Healthy(fs.sb, d0, t0) {
      HealthyKept(fs.sb, d0, t0, fs.disk, fs.tab, i);
    }
  }
}
