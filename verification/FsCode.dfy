// The block allocator and the block map of Ass2/fs.c, and their calls of the log.  A panic is a
// negative result, after which nothing is promised.

module FsCode {
  import opened Params
  import opened Codec
  import opened FsModel
  import opened FsLemmas
  import opened FsFile
  import opened FsSpace

  /** The in-memory inode, struct inode. */
  class InodeRef {
    const inum: nat
    var meta0: int
    var meta1: int
    var size: int
    var addrs: seq<int>

    constructor (inum: nat, d: Inode)
      ensures this.inum == inum && D() == d
    {
      this.inum, meta0, meta1, size, addrs := inum, d.meta0, d.meta1, d.size, d.addrs;
    }

    ghost function D(): Inode
      reads this
    {
      Inode(meta0, meta1, size, addrs)
    }
  }

  /** Bit bi of the free-map block that starts at bit b is the flag of block b + bi. */
  lemma BitPlace(b: nat, bi: nat)
    requires b % 4096 == 0 && bi < 4096
    ensures (b + bi) / 4096 == b / 4096 && (b + bi) % 4096 == bi && (b + bi) % 8 == bi % 8
  {
    assert b + bi == 4096 * (b / 4096) + bi;
    ModMod(b + bi);
  }

  lemma MarkPlace(sb: Super, b: nat, bi: nat)
    requires sb.Valid() && b % 4096 == 0 && bi < 4096 && b + bi < sb.size
    ensures b / 4096 + sb.bmapstart == BBlock(sb, b + bi) < sb.size
    ensures (b + bi) % 4096 / 8 == bi / 8 && (b + bi) % 8 == bi % 8
  {
    BitPlace(b, bi);
    MapInRange(sb);
  }

  lemma EntryIs(d: Disk, ino: Inode, n: nat, bn: nat)
    requires |ino.addrs| == NDIRECT + 1 && 0 < ino.addrs[NDIRECT] < |d| && n < NINDIRECT && bn == NDIRECT + n
    ensures FileBlock(d, ino, bn) == WordAt(d[ino.addrs[NDIRECT]], n)
  {
    assert Slots(d, ino)[NDIRECT + 1 + n] == Entries(d[ino.addrs[NDIRECT]])[n];
  }

  // ---------- the calls an operation makes on the log ----------

  /** log_write of block b with contents v. */
  datatype Update = Update(b: int, v: Block)

  /** log_writes in their order, and how many of them came before each end_op. */
  datatype Trace = Trace(updates: seq<Update>, marks: seq<nat>)

  function Replay(d: Disk, us: seq<Update>): (r: Disk)
    ensures |r| == |d|
  {
    if us == [] then d
    else
      var r0 := Replay(d, us[..|us| - 1]);
      var u := us[|us| - 1];
      if 0 <= u.b < |d| then r0[u.b := u.v] else r0
  }

  ghost predicate UpdateAt(t: Trace, t': Trace, u: Update, q: nat)
    requires q <= |t.updates|
  {
    && t'.marks == t.marks && |t'.updates| == |t.updates| + 1
    && t'.updates[q] == if q < |t.updates| then t.updates[q] else u
  }

  /** t' is t with one more update, u. */
  ghost predicate Recorded(t: Trace, t': Trace, u: Update) {
    forall q :: 0 <= q <= |t.updates| ==> UpdateAt(t, t', u, q)
  }

  /** From disk d0 the updates lead to the disk of end_op q; those after the last end_op, to d. */
  ghost predicate LeadsTo(d0: Disk, t: Trace, ends: seq<Disk>, d: Disk, q: nat)
    requires q <= |ends| == |t.marks|
  {
    if q == |ends| then d == Replay(d0, t.updates)
    else t.marks[q] <= |t.updates| && ends[q] == Replay(d0, t.updates[..t.marks[q]])
  }

  ghost predicate TraceOk(d0: Disk, t: Trace, ends: seq<Disk>, d: Disk) {
    |t.marks| == |ends| && forall q :: 0 <= q <= |ends| ==> LeadsTo(d0, t, ends, d, q)
  }

  lemma MoreUpdates(d0: Disk, t: Trace, ends: seq<Disk>, d: Disk, u: Update)
    requires TraceOk(d0, t, ends, d) && 0 <= u.b < |d|
    ensures TraceOk(d0, t.(updates := t.updates + [u]), ends, d[u.b := u.v])
  {
    var t', d' := t.(updates := t.updates + [u]), d[u.b := u.v];
    assert t'.updates[..|t.updates|] == t.updates;
    assert LeadsTo(d0, t, ends, d, |ends|);
    forall q | 0 <= q <= |ends| ensures LeadsTo(d0, t', ends, d', q) {
      assert LeadsTo(d0, t, ends, d, q);
      if q < |ends| {
        assert t'.updates[..t.marks[q]] == t.updates[..t.marks[q]];
      }
    }
  }

  lemma MarkEnd(d0: Disk, t: Trace, ends: seq<Disk>, d: Disk)
    requires TraceOk(d0, t, ends, d)
    ensures TraceOk(d0, t.(marks := t.marks + [|t.updates|]), ends + [d], d)
  {
    var t', ends' := t.(marks := t.marks + [|t.updates|]), ends + [d];
    assert t.updates[..|t.updates|] == t.updates;
    forall q | 0 <= q <= |ends'| ensures LeadsTo(d0, t', ends', d, q) {
      assert LeadsTo(d0, t, ends, d, if q <= |ends| then q else |ends|);
    }
  }

  lemma TraceStart(d: Disk)
    ensures TraceOk(d, Trace([], []), [], d)
  {
    assert LeadsTo(d, Trace([], []), [], d, 0);
  }

  /** Inode i had p as its indirect block, or p was allocated for it. */
  ghost predicate TableThere(sb: Super, d: Disk, tab: seq<Inode>, d': Disk, tab': seq<Inode>, i: nat, p: int) {
    && i < |tab| && |tab[i].addrs| == NDIRECT + 1
    && if tab[i].addrs[NDIRECT] != 0 then d' == d && tab' == tab
         else p >= 0 && Grown(sb, d, tab, d', tab', i, NDIRECT, p)
  }

  /** A new indirect block has no entries. */
  lemma OldTable(sb: Super, d: Disk, tab: seq<Inode>, d': Disk, tab': seq<Inode>, i: nat, p: int, n: nat)
    requires TableThere(sb, d, tab, d', tab', i, p) && n < NINDIRECT && 0 < p < |d'|
    requires i < |tab'| && |tab'[i].addrs| == NDIRECT + 1 && tab'[i].addrs[NDIRECT] == p && WordAt(d'[p], n) != 0
    ensures d' == d && tab' == tab
  {
    assert Slots(d', tab'[i])[NDIRECT + 1 + n] == Entries(d'[p])[n];
  }

  lemma ExtendedFrom(sb: Super, d: Disk, tab: seq<Inode>, d1: Disk, tab1: seq<Inode>, d': Disk, tab': seq<Inode>,
                     i: nat, n: nat, p: nat, b: nat)
    requires NDIRECT <= n < MAXFILE && TableThere(sb, d, tab, d1, tab1, i, p) &&
      Grown(sb, d1, tab1, d', tab', i, SlotOf(n), b)
    ensures Extended(sb, d, tab, d', tab', i, n) && FileBlock(d', tab'[i], n) == b
  {
    if tab[i].addrs[NDIRECT] == 0 {
      ExtendedTwo(sb, d, tab, d1, tab1, d', tab', i, n, p, b);
    } else {
      ExtendedOne(sb, d, tab, d', tab', i, n, b);
    }
  }

  /** The blocks bmap of file block bn takes from the free ones. */
  ghost function BmapCost(d: Disk, ino: Inode, bn: nat): nat
    requires |ino.addrs| == NDIRECT + 1 && 0 <= ino.addrs[NDIRECT] < |d| && bn < MAXFILE
  {
    if FileBlock(d, ino, bn) != 0 then 0 else if bn >= NDIRECT && ino.addrs[NDIRECT] == 0 then 2 else 1
  }

  /** In a file without holes: nothing, or one more data block and perhaps the indirect one. */
  lemma MappedCost(d: Disk, ino: Inode, m: nat, bn: nat)
    requires |ino.addrs| == NDIRECT + 1 && 0 <= ino.addrs[NDIRECT] < |d| && bn < MAXFILE
    requires Mapped(Slots(d, ino), m) && bn <= m
    ensures BmapCost(d, ino, bn) == if bn < m then 0 else Blocks(m + 1) - Blocks(m)
  {
    assert Slots(d, ino)[SlotOf(bn)] != 0 <==> bn < m;
    assert Slots(d, ino)[NDIRECT] == ino.addrs[NDIRECT];
  }

  class FileSys {
    const sb: Super
    var disk: Disk             // what bread returns
    var dirty: set<int>        // blocks passed to log_write in the current operation
    ghost var tab: seq<Inode>  // every inode, as its in-memory copy has it
    ghost var start: Disk      // the disk at some moment
    ghost var trace: Trace     // the log_writes and end_ops since then
    ghost var ends: seq<Disk>  // the disk at each of those end_ops

    constructor (sb: Super, disk: Disk, ghost tab: seq<Inode>)
      ensures this.sb == sb && this.disk == disk && this.tab == tab && dirty == {} && ends == [] && Traced()
    {
      this.sb, this.disk, this.tab, dirty, start, ends, trace := sb, disk, tab, {}, disk, [], Trace([], []);
      TraceStart(disk);
    }

    ghost predicate Traced()
      reads this`disk, this`start, this`trace, this`ends
    {
      TraceOk(start, trace, ends, disk)
    }

    /** Forget the calls made so far. */
    ghost method Restart()
      modifies this`start, this`trace, this`ends
      ensures start == disk && ends == [] && Traced()
    {
      start, ends, trace := disk, [], Trace([], []);
      TraceStart(disk);
    }

    ghost predicate Valid()
      reads this
    {
      FsInv(sb, disk, tab)
    }

    ghost predicate Has(ip: InodeRef)
      reads this, ip
    {
      ip.inum < |tab| && tab[ip.inum] == ip.D()
    }

    /** begin_op and end_op: an operation may log MAXOPBLOCKS different blocks. */
    method BeginOp()
      modifies this`dirty
      ensures dirty == {}
    {
      dirty := {};
    }

    method EndOp()
      requires |dirty| <= MAXOPBLOCKS && Traced()
      modifies this`dirty, this`ends, this`trace
      ensures dirty == {} && ends == old(ends) + [disk] && Traced()
      ensures trace == old(trace).(marks := old(trace).marks + [|old(trace).updates|])
    {
      MarkEnd(start, trace, ends, disk);
      dirty, ends, trace := {}, ends + [disk], trace.(marks := trace.marks + [|trace.updates|]);
    }

    method LogWrite(b: nat, blk: Block)
      requires b < |disk|
      requires Traced()
      modifies this`disk, this`dirty, this`trace
      ensures Traced()
      ensures disk == old(disk)[b := blk] && dirty == old(dirty) + {b} && Recorded(old(trace), trace, Update(b, blk))
    {
      MoreUpdates(start, trace, ends, disk, Update(b, blk));
      disk := disk[b := blk];
      dirty := dirty + {b};
      trace := trace.(updates := trace.updates + [Update(b, blk)]);
    }

    /** balloc's inner loop: the first clear bit of the free-map block for bits b, b + 1, ... */
    method ScanMap(b: nat) returns (bi: nat)
      requires sb.Valid() && |disk| == sb.size && b % 4096 == 0 && b < sb.size
      ensures bi <= 4096 && b + bi <= sb.size
      ensures forall c :: b <= c < b + bi ==> Usage(sb, disk)[c]
      ensures bi < 4096 && b + bi < sb.size ==> !Usage(sb, disk)[b + bi]
    {
      MapInRange(sb);
      assert BBlock(sb, b) < |disk|;
      var bp := disk[b / 4096 + sb.bmapstart];
      bi := 0;
      while bi < 4096 && b + bi < sb.size
        invariant bi <= 4096 && b + bi <= sb.size
        invariant forall c :: b <= c < b + bi ==> Usage(sb, disk)[c]
      {
        BitPlace(b, bi);
        assert Usage(sb, disk)[b + bi] == Bit(bp[bi / 8], bi % 8);
        if !Bit(bp[bi / 8], bi % 8) {
          return;
        }
        bi := bi + 1;
      }
    }

    /** balloc has found a clear bit: set it, and zero the block. */
    method Take(b: nat, bi: nat)
      requires sb.Valid() && |disk| == sb.size && b % 4096 == 0 && bi < 4096 && b + bi < sb.size &&
        !Usage(sb, disk)[b + bi]
      requires Traced()
      modifies this`disk, this`dirty, this`trace
      ensures Traced()
      ensures BBlock(sb, b + bi) < |old(disk)| && disk == Alloc(sb, old(disk), b + bi) &&
        dirty == old(dirty) + {BBlock(sb, b + bi), b + bi}
    {
      MarkPlace(sb, b, bi);
      var bp := disk[b / 4096 + sb.bmapstart];
      LogWrite(b / 4096 + sb.bmapstart, bp[bi / 8 := WithBit(bp[bi / 8], bi % 8, true)]);
      LogWrite(b + bi, ZeroBlock());
    }

    /** balloc: the first free block, marked and zeroed; -1 when there is none. */
    method Balloc() returns (r: int)
      requires sb.Valid() && |disk| == sb.size
      requires Traced()
      modifies this`disk, this`dirty, this`trace
      ensures Traced()
      ensures -1 <= r < sb.size
      ensures r == -1 ==>
        disk == old(disk) && dirty == old(dirty) &&
        forall c :: 0 <= c < sb.size ==> Usage(sb, disk)[c]
      ensures r >= 0 ==> !Usage(sb, old(disk))[r] && forall c :: 0 <= c < r ==> Usage(sb, old(disk))[c]
      ensures r >= 0 ==> BBlock(sb, r) < |old(disk)| && disk == Alloc(sb, old(disk), r)
      ensures r >= 0 ==> dirty == old(dirty) + {BBlock(sb, r), r}
    {
      ghost var u := Usage(sb, disk);
      var b := 0;
      while b < sb.size
        invariant b % 4096 == 0 && disk == old(disk) && dirty == old(dirty) && Traced()
        invariant forall c :: 0 <= c < b && c < sb.size ==> u[c]
        decreases sb.size - b
      {
        var bi := ScanMap(b);
        if bi < 4096 && b + bi < sb.size {
          Take(b, bi);
          return b + bi;
        }
        b := b + 4096;
      }
      r := -1;
    }

    /** bfree: clear the block's flag; false is "freeing free block". */
    method Bfree(b: nat) returns (ok: bool)
      requires sb.Valid() && |disk| == sb.size && b < sb.size
      requires Traced()
      modifies this`disk, this`dirty, this`trace
      ensures Traced()
      ensures ok <==> Usage(sb, old(disk))[b]
      ensures ok ==> BBlock(sb, b) < |old(disk)| && disk == WithUsed(sb, old(disk), b, false)
      ensures ok ==> dirty == old(dirty) + {BBlock(sb, b)}
    {
      MapInRange(sb);
      var bp := disk[b / 4096 + sb.bmapstart];
      var bi := b % 4096;
      ModMod(b);
      if !Bit(bp[bi / 8], bi % 8) {
        return false;
      }
      LogWrite(b / 4096 + sb.bmapstart, bp[bi / 8 := WithBit(bp[bi / 8], bi % 8, false)]);
      ok := true;
    }

    /** ip->addrs[k] = balloc(), in an empty slot. */
    method FillAddr(ip: InodeRef, k: nat) returns (b: int)
      requires Valid() && Has(ip) && k <= NDIRECT && ip.addrs[k] == 0
      requires Traced()
      modifies this`disk, this`dirty, this`trace, this`tab, ip`addrs
      ensures Traced()
      ensures b < 0 ==>
        disk == old(disk) && Spare(sb, disk) == 0 && forall c :: 0 <= c < sb.size ==> Usage(sb, disk)[c]
      ensures b >= 0 ==> Valid() && Has(ip) && ip.addrs[k] == b && b < sb.size
      ensures b >= 0 ==> Spare(sb, old(disk)) == Spare(sb, disk) + 1
      ensures b >= 0 ==> Grown(sb, old(disk), old(tab), disk, tab, ip.inum, k, b)
      ensures b >= 0 ==> dirty == old(dirty) + {BBlock(sb, b), b}
    {
      b := Balloc();
      if b >= 0 {
        ip.addrs := ip.addrs[k := b];
        tab := tab[ip.inum := ip.D()];
        GrownAddr(sb, old(disk), old(tab), ip.inum, k, b, disk, tab);
        GrownSpare(sb, old(disk), old(tab), disk, tab, ip.inum, k, b);
      } else {
        FullClear(sb, disk);
      }
    }

    /** a[n] = balloc() in the indirect block, which exists. */
    method FillEntry(ip: InodeRef, n: nat) returns (b: int)
      requires Valid() && Has(ip) && n < NINDIRECT && ip.addrs[NDIRECT] != 0
      requires ip.addrs[NDIRECT] < |disk| && WordAt(disk[ip.addrs[NDIRECT]], n) == 0
      requires Traced()
      modifies this`disk, this`dirty, this`trace
      ensures Traced()
      ensures b < 0 ==>
        disk == old(disk) && Spare(sb, disk) == 0 && forall c :: 0 <= c < sb.size ==> Usage(sb, disk)[c]
      ensures b >= 0 ==> Valid() && Has(ip) && b < sb.size
      ensures b >= 0 ==> Spare(sb, old(disk)) == Spare(sb, disk) + 1
      ensures b >= 0 ==> Grown(sb, old(disk), tab, disk, tab, ip.inum, NDIRECT + 1 + n, b)
      ensures b >= 0 ==> dirty == old(dirty) + {BBlock(sb, b), b, ip.addrs[NDIRECT]}
    {
      b := Balloc();
      if b >= 0 {
        ghost var d1 := disk;
        var p := ip.addrs[NDIRECT];
        LogWrite(p, SetWord(disk[p], n, b));
        GrownEntry(sb, old(disk), tab, ip.inum, n, b, d1, disk);
        GrownSpare(sb, old(disk), tab, disk, tab, ip.inum, NDIRECT + 1 + n, b);
      } else {
        FullClear(sb, disk);
      }
    }

    /** The direct half of bmap. */
    method BmapDirect(ip: InodeRef, bn: nat) returns (addr: int, ghost bm: set<int>)
      requires Valid() && Has(ip) && bn < NDIRECT
      requires Traced()
      modifies this`disk, this`dirty, this`trace, this`tab, ip`addrs
      ensures Traced()
      ensures addr < 0 ==> Full(sb, disk)
      ensures addr < 0 <==> Spare(sb, old(disk)) < BmapCost(old(disk), old(tab)[ip.inum], bn)
      ensures addr >= 0 ==> Valid() && Has(ip) && Extended(sb, old(disk), old(tab), disk, tab, ip.inum, bn)
      ensures addr >= 0 ==> addr == FileBlock(disk, tab[ip.inum], bn)
      ensures old(FileBlock(disk, tab[ip.inum], bn)) != 0 ==>
        addr >= 0 && disk == old(disk) && tab == old(tab) && dirty == old(dirty) && bm == {}
      ensures addr >= 0 ==> dirty <= old(dirty) + bm + {addr} && |bm| <= 1
    {
      bm := {};
      ghost var i, d0, t0 := ip.inum, disk, tab;
      addr := ip.addrs[bn];
      assert FileBlock(d0, t0[i], bn) == t0[i].addrs[bn];
      if addr == 0 {
        addr := FillAddr(ip, bn);
        if addr >= 0 {
          bm := {BBlock(sb, addr)};
          ExtendedOne(sb, d0, t0, disk, tab, i, bn, addr);
        }
      } else {
        ExtendedNone(sb, d0, t0, i, bn);
      }
    }

    /** bmap's indirect block, allocated if there is none. */
    method BmapTable(ip: InodeRef) returns (p: int, ghost bm: set<int>)
      requires Valid() && Has(ip)
      requires Traced()
      modifies this`disk, this`dirty, this`trace, this`tab, ip`addrs
      ensures Traced()
      ensures p < 0 ==>
        old(ip.addrs[NDIRECT]) == 0 && Spare(sb, old(disk)) == 0 && Full(sb, disk)
      ensures p >= 0 ==> Valid() && Has(ip) && 0 < p == ip.addrs[NDIRECT] < |disk|
      ensures p >= 0 ==> Spare(sb, old(disk)) == Spare(sb, disk) + if old(ip.addrs[NDIRECT]) == 0 then 1 else 0
      ensures p >= 0 ==> TableThere(sb, old(disk), old(tab), disk, tab, ip.inum, p)
      ensures old(ip.addrs[NDIRECT]) != 0 ==> dirty == old(dirty) && bm == {}
      ensures old(ip.addrs[NDIRECT]) == 0 && p >= 0 ==>
        bm == {BBlock(sb, p)} && dirty == old(dirty) + {BBlock(sb, p), p}
    {
      bm := {};
      p := ip.addrs[NDIRECT];
      if p == 0 {
        p := FillAddr(ip, NDIRECT);
        if p >= 0 {
          bm := {BBlock(sb, p)};
        }
      }
    }

    /** bmap's entry n of the indirect block p, allocated if there is none. */
    method BmapEntry(ip: InodeRef, n: nat, ghost bn: nat, p: int, ghost d0: Disk, ghost t0: seq<Inode>)
        returns (addr: int, ghost bm: set<int>)
      requires Valid() && Has(ip) && n < NINDIRECT && bn == NDIRECT + n && 0 < p == ip.addrs[NDIRECT] < |disk|
      requires TableThere(sb, d0, t0, disk, tab, ip.inum, p)
      requires Traced()
      modifies this`disk, this`dirty, this`trace
      ensures Traced()
      ensures addr < 0 ==> Full(sb, disk)
      ensures addr < 0 <==> Spare(sb, old(disk)) == 0 && old(WordAt(disk[p], n)) == 0
      ensures addr >= 0 ==>
        Valid() && Has(ip) && Extended(sb, d0, t0, disk, tab, ip.inum, bn) && addr == FileBlock(disk, tab[ip.inum], bn)
      ensures old(WordAt(disk[p], n)) != 0 ==>
        addr >= 0 && disk == old(disk) == d0 && tab == t0 && dirty == old(dirty) && bm == {}
      ensures old(WordAt(disk[p], n)) == 0 && addr >= 0 ==>
        bm == {BBlock(sb, addr)} && dirty == old(dirty) + {BBlock(sb, addr), addr, p}
    {
      ghost var i, d1 := ip.inum, disk;
      bm := {};
      addr := WordAt(disk[p], n);
      EntryIs(disk, tab[i], n, bn);
      if addr == 0 {
        addr := FillEntry(ip, n);
        if addr >= 0 {
          bm := {BBlock(sb, addr)};
          ExtendedFrom(sb, d0, t0, d1, tab, disk, tab, i, bn, p, addr);
        }
      } else {
        OldTable(sb, d0, t0, disk, tab, i, p, n);
        ExtendedNone(sb, d0, t0, i, bn);
      }
    }

    /** The indirect half of bmap: file block NDIRECT + n. */
    method BmapIndirect(ip: InodeRef, n: nat, ghost bn: nat) returns (addr: int, ghost bm: set<int>)
      requires Valid() && Has(ip) && n < NINDIRECT && bn == NDIRECT + n
      requires Traced()
      modifies this`disk, this`dirty, this`trace, this`tab, ip`addrs
      ensures Traced()
      ensures addr < 0 ==> Full(sb, disk)
      ensures addr < 0 <==> Spare(sb, old(disk)) < BmapCost(old(disk), old(tab)[ip.inum], bn)
      ensures addr >= 0 ==> Valid() && Has(ip) && Extended(sb, old(disk), old(tab), disk, tab, ip.inum, bn)
      ensures addr >= 0 ==> addr == FileBlock(disk, tab[ip.inum], bn)
      ensures old(FileBlock(disk, tab[ip.inum], bn)) != 0 ==>
        addr >= 0 && disk == old(disk) && tab == old(tab) && dirty == old(dirty) && bm == {}
      ensures addr >= 0 ==> dirty <= old(dirty) + bm + {addr, ip.addrs[NDIRECT]}
      ensures addr >= 0 ==> |bm| <= (if old(ip.addrs[NDIRECT]) == 0 then 2 else 1)
    {
      ghost var d0, t0 := disk, tab;
      var p;
      p, bm := BmapTable(ip);
      if p < 0 {
        return p, bm;
      }
      EntryIs(disk, tab[ip.inum], n, bn);
      ghost var more;
      addr, more := BmapEntry(ip, n, bn, p, d0, t0);
      bm := bm + more;
    }

    /** bmap: the block of file block bn, allocating it and the indirect block if needed.
        bm collects the free-map blocks written, one for each block allocated. */
    method Bmap(ip: InodeRef, bn: nat) returns (addr: int, ghost bm: set<int>)
      requires Valid() && Has(ip)
      requires Traced()
      modifies this`disk, this`dirty, this`trace, this`tab, ip`addrs
      ensures Traced()
      ensures addr < 0 ==> bn >= MAXFILE || Full(sb, disk)
      ensures addr < 0 <==> bn >= MAXFILE || Spare(sb, old(disk)) < BmapCost(old(disk), old(tab)[ip.inum], bn)
      ensures addr >= 0 ==> Valid() && Has(ip) && Extended(sb, old(disk), old(tab), disk, tab, ip.inum, bn)
      ensures addr >= 0 ==> addr == FileBlock(disk, tab[ip.inum], bn)
      ensures bn < MAXFILE && old(FileBlock(disk, tab[ip.inum], bn)) != 0 ==>
        addr >= 0 && disk == old(disk) && tab == old(tab) && dirty == old(dirty) && bm == {}
      ensures addr >= 0 ==> dirty <= old(dirty) + bm + {addr} + (if bn >= NDIRECT then {ip.addrs[NDIRECT]} else {})
      ensures addr >= 0 ==> |bm| <= (if bn >= NDIRECT && old(ip.addrs[NDIRECT]) == 0 then 2 else 1)
    {
      if bn < NDIRECT {
        addr, bm := BmapDirect(ip, bn);
      } else if bn < MAXFILE {
        addr, bm := BmapIndirect(ip, bn - NDIRECT, bn);
      } else {
        addr, bm := -1, {};
      }
    }
  }
}
