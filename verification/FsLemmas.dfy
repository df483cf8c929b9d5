// Each elementary change of the disk keeps ownership and touches only what it should.

module FsLemmas {
  import opened Codec
  import opened FsModel

  /** The slot tables of all inodes; tab holds the current (in-memory) inodes. */
  ghost function Table(d: Disk, tab: seq<Inode>): (ss: seq<seq<int>>)
    requires forall i :: 0 <= i < |tab| ==> |tab[i].addrs| == NDIRECT + 1 && 0 <= tab[i].addrs[NDIRECT] < |d|
    ensures |ss| == |tab| && forall i :: 0 <= i < |tab| ==> ss[i] == Slots(d, tab[i])
  {
    seq(|tab|, i requires 0 <= i < |tab| => Slots(d, tab[i]))
  }

  ghost predicate Shape(sb: Super, d: Disk, tab: seq<Inode>) {
    && sb.Valid() && |d| == sb.size && |tab| == sb.ninodes
    && forall i :: 0 <= i < |tab| ==> WellFormed(sb, tab[i])
  }

  ghost predicate FsInv(sb: Super, d: Disk, tab: seq<Inode>) {
    Shape(sb, d, tab) && Owned(sb, Table(d, tab), Usage(sb, d))
  }

  /** No slot names a block that is not in use. */
  lemma UnusedUnnamed(sb: Super, d: Disk, tab: seq<Inode>, b: nat, j: nat)
    requires FsInv(sb, d, tab) && b < sb.size && !Usage(sb, d)[b] && j < |tab|
    ensures sb.Data(b)
    ensures b !in Slots(d, tab[j]) && tab[j].addrs[NDIRECT] != b
  {
    var ss := Table(d, tab);
    assert ss[j][NDIRECT] == tab[j].addrs[NDIRECT];
    forall k | 0 <= k < SLOTS ensures Slots(d, tab[j])[k] != b {
      assert ss[j][k] == Slots(d, tab[j])[k];
    }
  }

  /** balloc of block b: marked in the free map and zeroed. */
  function Alloc(sb: Super, d: Disk, b: nat): Disk
    requires b < sb.size <= |d| && BBlock(sb, b) < |d|
  {
    WithUsed(sb, d, b, true)[b := ZeroBlock()]
  }

  lemma AllocFrame(sb: Super, d: Disk, tab: seq<Inode>, b: nat, d': Disk)
    requires FsInv(sb, d, tab) && b < sb.size && !Usage(sb, d)[b]
    requires BBlock(sb, b) < |d| && d' == Alloc(sb, d, b)
    ensures |d'| == sb.size && sb.Data(b) && d'[b] == ZeroBlock()
    ensures Usage(sb, d') == Usage(sb, d)[b := true]
    ensures forall x :: sb.Data(x) && x != b ==> d'[x] == d[x]
    ensures forall x :: 0 <= x < sb.bmapstart ==> d'[x] == d[x]
    ensures Shape(sb, d', tab) && Table(d', tab) == Table(d, tab)
  {
    var d1 := WithUsed(sb, d, b, true);
    UsageUpdate(sb, d, b, true);
    MapInRange(sb);
    assert sb.Data(b) by {
      assert forall c :: 0 <= c < sb.datastart ==> Usage(sb, d)[c];
    }
    UsageFrame(sb, d1, d');
    forall j | 0 <= j < |tab| ensures Slots(d', tab[j]) == Slots(d, tab[j]) {
      UnusedUnnamed(sb, d, tab, b, j);
      PointerIsData(sb, d, tab, j);
    }
  }

  lemma PointerIsData(sb: Super, d: Disk, tab: seq<Inode>, j: nat)
    requires FsInv(sb, d, tab) && j < |tab|
    ensures tab[j].addrs[NDIRECT] != 0 ==> sb.Data(tab[j].addrs[NDIRECT])
    ensures forall k :: 0 <= k < SLOTS && Slots(d, tab[j])[k] != 0 ==> sb.Data(Slots(d, tab[j])[k])
  {
    var ss := Table(d, tab);
    assert ss[j][NDIRECT] == tab[j].addrs[NDIRECT];
    forall k | 0 <= k < SLOTS && Slots(d, tab[j])[k] != 0 ensures sb.Data(Slots(d, tab[j])[k]) {
      assert ss[j][k] == Slots(d, tab[j])[k];
    }
  }

  /** Two names of one block are one slot. */
  lemma SlotsDiffer(sb: Super, d: Disk, tab: seq<Inode>, i: nat, k: nat, j: nat, l: nat)
    requires FsInv(sb, d, tab) && i < |tab| && j < |tab| && k < SLOTS && l < SLOTS
    requires Slots(d, tab[i])[k] != 0 && Slots(d, tab[i])[k] == Slots(d, tab[j])[l]
    ensures i == j && k == l
  {
    var ss := Table(d, tab);
    assert ss[i][k] == ss[j][l];
  }

  /** ip->addrs[k] = balloc(), for a direct block or the indirect block. */
  lemma MapAddr(sb: Super, d: Disk, tab: seq<Inode>, i: nat, k: nat, b: nat, d': Disk, tab': seq<Inode>)
    requires FsInv(sb, d, tab) && b < sb.size && !Usage(sb, d)[b] && BBlock(sb, b) < |d|
    requires i < |tab| && k <= NDIRECT && tab[i].addrs[k] == 0
    requires d' == Alloc(sb, d, b) && tab' == tab[i := tab[i].(addrs := tab[i].addrs[k := b])]
    ensures FsInv(sb, d', tab') && Table(d', tab') == PutSlot(Table(d, tab), i, k, b)
  {
    AllocFrame(sb, d, tab, b, d');
    var ss := Table(d, tab);
    OwnedAlloc(sb, ss, Usage(sb, d), i, k, b);
    UnusedUnnamed(sb, d, tab, b, i);
    PointerIsData(sb, d, tab, i);
    SlotsPut(d, d', tab[i], k, b);
    TablePut(sb, d, tab, d', tab', i, k, b);
  }

  lemma TablePut(sb: Super, d: Disk, tab: seq<Inode>, d': Disk, tab': seq<Inode>, i: nat, k: nat, b: nat)
    requires Shape(sb, d, tab) && Shape(sb, d', tab) && Shape(sb, d', tab') && i < |tab| && k < SLOTS
    requires Table(d', tab) == Table(d, tab)
    requires forall j :: 0 <= j < |tab| && j != i ==> tab'[j] == tab[j]
    requires Slots(d', tab'[i]) == Slots(d, tab[i])[k := b]
    ensures Table(d', tab') == PutSlot(Table(d, tab), i, k, b)
  {
    forall j | 0 <= j < |tab| ensures Table(d', tab')[j] == PutSlot(Table(d, tab), i, k, b)[j] {
      assert Table(d', tab)[j] == Table(d, tab)[j];
    }
  }

  lemma SlotsPut(d: Disk, d': Disk, ino: Inode, k: nat, b: nat)
    requires |ino.addrs| == NDIRECT + 1 && 0 <= ino.addrs[NDIRECT] < |d| && |d'| == |d|
    requires k <= NDIRECT && ino.addrs[k] == 0 && 0 < b < |d| && d'[b] == ZeroBlock()
    requires ino.addrs[NDIRECT] == 0 || d'[ino.addrs[NDIRECT]] == d[ino.addrs[NDIRECT]]
    ensures Slots(d', ino.(addrs := ino.addrs[k := b])) == Slots(d, ino)[k := b]
  {
    ZeroEntries();
  }

  lemma ZeroEntries()
    ensures Entries(ZeroBlock()) == Zeros(NINDIRECT)
  {
    forall x | 0 <= x < NINDIRECT ensures WordAt(ZeroBlock(), x) == 0 { ZeroWords(x); }
  }

  /** a[n] = balloc() in the indirect block. */
  lemma MapEntry(sb: Super, d: Disk, tab: seq<Inode>, i: nat, n: nat, b: nat, d1: Disk, d': Disk)
    requires FsInv(sb, d, tab) && b < sb.size && !Usage(sb, d)[b] && BBlock(sb, b) < |d|
    requires i < |tab| && n < NINDIRECT && tab[i].addrs[NDIRECT] != 0 && WordAt(d[tab[i].addrs[NDIRECT]], n) == 0
    requires d1 == Alloc(sb, d, b)
    requires d' == d1[tab[i].addrs[NDIRECT] := SetWord(d1[tab[i].addrs[NDIRECT]], n, b)]
    ensures FsInv(sb, d', tab) && Table(d', tab) == PutSlot(Table(d, tab), i, NDIRECT + 1 + n, b)
  {
    AllocFrame(sb, d, tab, b, d1);
    PointerIsData(sb, d, tab, i);
    UnusedUnnamed(sb, d, tab, b, i);
    OwnedAlloc(sb, Table(d, tab), Usage(sb, d), i, NDIRECT + 1 + n, b);
    UsageFrame(sb, d1, d');
    EntryPut(d1, d', tab[i], n, b);
    forall j | 0 <= j < |tab| && j != i ensures Slots(d', tab[j]) == Slots(d, tab[j]) {
      if tab[j].addrs[NDIRECT] == tab[i].addrs[NDIRECT] {
        SlotsDiffer(sb, d, tab, i, NDIRECT, j, NDIRECT);
      }
      assert Table(d1, tab)[j] == Table(d, tab)[j];
    }
    assert Table(d1, tab)[i] == Table(d, tab)[i];
    TableEntry(sb, d, tab, d', i, NDIRECT + 1 + n, b);
  }

  lemma EntryPut(d: Disk, d': Disk, ino: Inode, n: nat, b: nat)
    requires |ino.addrs| == NDIRECT + 1 && 0 < ino.addrs[NDIRECT] < |d| && n < NINDIRECT && b < WORD_LIMIT
    requires d' == d[ino.addrs[NDIRECT] := SetWord(d[ino.addrs[NDIRECT]], n, b)]
    ensures Slots(d', ino) == Slots(d, ino)[NDIRECT + 1 + n := b]
  {
    var p := ino.addrs[NDIRECT];
    assert Entries(d'[p]) == Entries(d[p])[n := b];
  }

  lemma TableEntry(sb: Super, d: Disk, tab: seq<Inode>, d': Disk, i: nat, k: nat, b: nat)
    requires Shape(sb, d, tab) && Shape(sb, d', tab) && i < |tab| && k < SLOTS
    requires forall j :: 0 <= j < |tab| && j != i ==> Slots(d', tab[j]) == Slots(d, tab[j])
    requires Slots(d', tab[i]) == Slots(d, tab[i])[k := b]
    ensures Table(d', tab) == PutSlot(Table(d, tab), i, k, b)
  {
  }

  /** Writing a mapped data block of inode i leaves every map alone. */
  lemma WriteData(sb: Super, d: Disk, tab: seq<Inode>, i: nat, n: nat, blk: Block, d': Disk)
    requires FsInv(sb, d, tab) && i < |tab| && n < MAXFILE
    requires 0 < FileBlock(d, tab[i], n) < |d| && d' == d[FileBlock(d, tab[i], n) := blk]
    ensures sb.Data(FileBlock(d, tab[i], n))
    ensures FsInv(sb, d', tab) && Table(d', tab) == Table(d, tab) && Usage(sb, d') == Usage(sb, d)
  {
    var a := FileBlock(d, tab[i], n);
    PointerIsData(sb, d, tab, i);
    UsageFrame(sb, d, d');
    forall j | 0 <= j < |tab| ensures Slots(d', tab[j]) == Slots(d, tab[j]) {
      if tab[j].addrs[NDIRECT] == a {
        SlotsDiffer(sb, d, tab, i, SlotOf(n), j, NDIRECT);
      }
    }
    assert Table(d', tab) == Table(d, tab);
  }
}
