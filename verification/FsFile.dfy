// File contents as bytes, and what growing a file by a block does to all files.

module FsFile {
  import opened Codec
  import opened FsModel
  import opened FsLemmas

  /** Byte p of the file of an inode, mapped or not. */
  function FileByte(d: Disk, ino: Inode, p: nat): Byte
    requires |ino.addrs| == NDIRECT + 1 && 0 <= ino.addrs[NDIRECT] < |d| && p < MAXFILE * BSIZE
  {
    var a := FileBlock(d, ino, p / 512);
    if 0 <= a < |d| then d[a][p % 512] else 0
  }

  /** The contents of a file: its first size bytes. */
  ghost function Content(d: Disk, ino: Inode): (c: seq<Byte>)
    requires |ino.addrs| == NDIRECT + 1 && 0 <= ino.addrs[NDIRECT] < |d| && 0 <= ino.size <= MAXFILE * BSIZE
    ensures |c| == ino.size && forall p :: 0 <= p < ino.size ==> c[p] == FileByte(d, ino, p)
  {
    seq(ino.size, p requires 0 <= p < ino.size => FileByte(d, ino, p))
  }

  /** Inode j's map and data are as before. */
  ghost predicate SameFile(d: Disk, d': Disk, ino: Inode)
    requires |ino.addrs| == NDIRECT + 1 && 0 <= ino.addrs[NDIRECT] < |d| && |d'| == |d|
  {
    && Slots(d', ino) == Slots(d, ino)
    && forall k :: 0 <= k < SLOTS && k != NDIRECT && 0 < Slots(d, ino)[k] < |d| ==>
         d'[Slots(d, ino)[k]] == d[Slots(d, ino)[k]]
  }

  lemma SameContent(d: Disk, d': Disk, ino: Inode)
    requires |ino.addrs| == NDIRECT + 1 && 0 <= ino.addrs[NDIRECT] < |d| && |d'| == |d| &&
      0 <= ino.size <= MAXFILE * BSIZE
    requires SameFile(d, d', ino) && Mapped(Slots(d, ino), Ceil(ino.size))
    requires forall k :: 0 <= k < SLOTS ==> 0 <= Slots(d, ino)[k] < |d|
    ensures Content(d', ino) == Content(d, ino)
  {
    forall p | 0 <= p < ino.size ensures FileByte(d', ino, p) == FileByte(d, ino, p) {
      assert p / 512 < Ceil(ino.size);
      assert Slots(d, ino)[SlotOf(p / 512)] != 0;
    }
  }

  /** Nothing but inode i changed: the other inodes, their maps and data, and everything
      before the free map are as before. */
  ghost predicate OthersKept(sb: Super, d: Disk, tab: seq<Inode>, d': Disk, tab': seq<Inode>, i: nat) {
    && Shape(sb, d, tab) && |d'| == |d| && |tab'| == |tab|
    && (forall j :: 0 <= j < |tab| && j != i ==> tab'[j] == tab[j] && SameFile(d, d', tab[j]))
    && (forall x :: 0 <= x < sb.bmapstart && x < |d| ==> d'[x] == d[x])
  }

  lemma OthersIntro(sb: Super, d: Disk, tab: seq<Inode>, d': Disk, tab': seq<Inode>, i: nat)
    requires Shape(sb, d, tab) && |d'| == |d| && |tab'| == |tab|
    requires forall j :: 0 <= j < |tab| && j != i ==> tab'[j] == tab[j]
    requires forall j :: 0 <= j < |tab| && j != i ==> SameFile(d, d', tab[j])
    requires forall x :: 0 <= x < sb.bmapstart && x < |d| ==> d'[x] == d[x]
    ensures OthersKept(sb, d, tab, d', tab', i)
  {
  }

  lemma OthersTrans(sb: Super, d: Disk, tab: seq<Inode>, d': Disk, tab': seq<Inode>, d'': Disk, tab'': seq<Inode>,
      i: nat)
    requires OthersKept(sb, d, tab, d', tab', i) && OthersKept(sb, d', tab', d'', tab'', i)
    ensures OthersKept(sb, d, tab, d'', tab'', i)
  {
    forall j | 0 <= j < |tab| && j != i ensures tab''[j] == tab[j] && SameFile(d, d'', tab[j]) {
      assert SameFile(d, d', tab[j]) && SameFile(d', d'', tab'[j]);
    }
  }

  /** Inode i got the fresh zeroed block b in slot k; its own data stayed. */
  ghost predicate Grown(sb: Super, d: Disk, tab: seq<Inode>, d': Disk, tab': seq<Inode>, i: nat, k: nat, b: nat) {
    && OthersKept(sb, d, tab, d', tab', i) && i < |tab| && k < SLOTS && 0 < b < |d|
    && WellFormed(sb, tab'[i]) && tab'[i].(addrs := tab[i].addrs) == tab[i]
    && Slots(d, tab[i])[k] == 0 && Slots(d', tab'[i]) == Slots(d, tab[i])[k := b]
    && d'[b] == ZeroBlock()
    && forall l :: 0 <= l < SLOTS && l != NDIRECT && 0 < Slots(d, tab[i])[l] < |d| ==>
         d'[Slots(d, tab[i])[l]] == d[Slots(d, tab[i])[l]]
  }

  /** Every nonzero slot of every inode names a data block. */
  lemma SlotsInRange(sb: Super, d: Disk, tab: seq<Inode>, j: nat)
    requires FsInv(sb, d, tab) && j < |tab|
    ensures forall k :: 0 <= k < SLOTS ==> 0 <= Slots(d, tab[j])[k] < |d|
    ensures forall k :: 0 <= k < SLOTS && Slots(d, tab[j])[k] != 0 ==> sb.Data(Slots(d, tab[j])[k])
  {
    PointerIsData(sb, d, tab, j);
    if tab[j].addrs[NDIRECT] != 0 {
      forall k | 0 <= k < NINDIRECT ensures Entries(d[tab[j].addrs[NDIRECT]])[k] >= 0 { }
    }
  }

  lemma GrownAddr(sb: Super, d: Disk, tab: seq<Inode>, i: nat, k: nat, b: nat, d': Disk, tab': seq<Inode>)
    requires FsInv(sb, d, tab) && b < sb.size && !Usage(sb, d)[b] && BBlock(sb, b) < |d|
    requires i < |tab| && k <= NDIRECT && tab[i].addrs[k] == 0
    requires d' == Alloc(sb, d, b) && tab' == tab[i := tab[i].(addrs := tab[i].addrs[k := b])]
    ensures FsInv(sb, d', tab') && Grown(sb, d, tab, d', tab', i, k, b)
  {
    MapAddr(sb, d, tab, i, k, b, d', tab');
    AllocFrame(sb, d, tab, b, d');
    forall j | 0 <= j < |tab|
      ensures forall l :: 0 <= l < SLOTS && 0 < Slots(d, tab[j])[l] < |d| ==>
        d'[Slots(d, tab[j])[l]] == d[Slots(d, tab[j])[l]]
      ensures Slots(d', tab[j]) == Slots(d, tab[j])
    {
      SlotsInRange(sb, d, tab, j);
      UnusedUnnamed(sb, d, tab, b, j);
      assert Table(d', tab)[j] == Table(d, tab)[j];
    }
    assert Table(d', tab')[i] == PutSlot(Table(d, tab), i, k, b)[i];
  }

  lemma GrownEntry(sb: Super, d: Disk, tab: seq<Inode>, i: nat, n: nat, b: nat, d1: Disk, d': Disk)
    requires FsInv(sb, d, tab) && b < sb.size && !Usage(sb, d)[b] && BBlock(sb, b) < |d|
    requires i < |tab| && n < NINDIRECT && tab[i].addrs[NDIRECT] != 0 && WordAt(d[tab[i].addrs[NDIRECT]], n) == 0
    requires d1 == Alloc(sb, d, b)
    requires d' == d1[tab[i].addrs[NDIRECT] := SetWord(d1[tab[i].addrs[NDIRECT]], n, b)]
    ensures FsInv(sb, d', tab) && Grown(sb, d, tab, d', tab, i, NDIRECT + 1 + n, b)
  {
    MapEntry(sb, d, tab, i, n, b, d1, d');
    AllocFrame(sb, d, tab, b, d1);
    EntryPlaces(sb, d, tab, i, n, b);
    EntryGrown(sb, d, tab, i, n, b, d1, d');
  }

  lemma EntryGrown(sb: Super, d: Disk, tab: seq<Inode>, i: nat, n: nat, b: nat, d1: Disk, d': Disk)
    requires FsInv(sb, d, tab) && Shape(sb, d', tab) && 0 < b < sb.size && !Usage(sb, d)[b]
    requires i < |tab| && n < NINDIRECT && tab[i].addrs[NDIRECT] != 0 && |d1| == |d| && d1[b] == ZeroBlock()
    requires Slots(d, tab[i])[NDIRECT + 1 + n] == 0 && sb.Data(tab[i].addrs[NDIRECT]) && tab[i].addrs[NDIRECT] != b
    requires Table(d', tab) == PutSlot(Table(d, tab), i, NDIRECT + 1 + n, b)
    requires forall x :: sb.Data(x) && x != b ==> d1[x] == d[x]
    requires forall x :: 0 <= x < sb.bmapstart ==> d1[x] == d[x]
    requires forall x :: 0 <= x < |d| && x != tab[i].addrs[NDIRECT] ==> d'[x] == d1[x]
    ensures Grown(sb, d, tab, d', tab, i, NDIRECT + 1 + n, b)
  {
    EntrySlots(sb, d, tab, i, n, b, d', i);
    EntryKeepsData(sb, d, tab, i, b, d1, d', i);
    forall j | 0 <= j < |tab| && j != i ensures SameFile(d, d', tab[j]) {
      EntryOther(sb, d, tab, i, n, b, d1, d', j);
    }
    OthersIntro(sb, d, tab, d', tab, i);
    GrownIntro(sb, d, tab, d', tab, i, NDIRECT + 1 + n, b);
  }

  lemma GrownIntro(sb: Super, d: Disk, tab: seq<Inode>, d': Disk, tab': seq<Inode>, i: nat, k: nat, b: nat)
    requires OthersKept(sb, d, tab, d', tab', i) && i < |tab| && k < SLOTS && 0 < b < |d|
    requires WellFormed(sb, tab'[i]) && tab'[i].(addrs := tab[i].addrs) == tab[i]
    requires Slots(d, tab[i])[k] == 0 && Slots(d', tab'[i]) == Slots(d, tab[i])[k := b]
    requires d'[b] == ZeroBlock()
    requires forall l :: 0 <= l < SLOTS && l != NDIRECT && 0 < Slots(d, tab[i])[l] < |d| ==>
      d'[Slots(d, tab[i])[l]] == d[Slots(d, tab[i])[l]]
    ensures Grown(sb, d, tab, d', tab', i, k, b)
  {
  }

  lemma EntryOther(sb: Super, d: Disk, tab: seq<Inode>, i: nat, n: nat, b: nat, d1: Disk, d': Disk, j: nat)
    requires FsInv(sb, d, tab) && b < sb.size && !Usage(sb, d)[b] && i < |tab| && j < |tab| && |d1| == |d| == |d'|
    requires Shape(sb, d', tab) && n < NINDIRECT && tab[i].addrs[NDIRECT] != 0 && j != i
    requires Table(d', tab) == PutSlot(Table(d, tab), i, NDIRECT + 1 + n, b)
    requires forall x :: sb.Data(x) && x != b ==> d1[x] == d[x]
    requires forall x :: 0 <= x < |d| && x != tab[i].addrs[NDIRECT] ==> d'[x] == d1[x]
    ensures SameFile(d, d', tab[j])
  {
    EntrySlots(sb, d, tab, i, n, b, d', j);
    EntryKeepsData(sb, d, tab, i, b, d1, d', j);
  }

  lemma EntrySlots(sb: Super, d: Disk, tab: seq<Inode>, i: nat, n: nat, b: nat, d': Disk, j: nat)
    requires Shape(sb, d, tab) && Shape(sb, d', tab) && i < |tab| && j < |tab| && n < NINDIRECT
    requires Table(d', tab) == PutSlot(Table(d, tab), i, NDIRECT + 1 + n, b)
    ensures Slots(d', tab[j]) == if j == i then Slots(d, tab[i])[NDIRECT + 1 + n := b] else Slots(d, tab[j])
  {
    assert Table(d', tab)[j] == PutSlot(Table(d, tab), i, NDIRECT + 1 + n, b)[j];
  }

  lemma EntryPlaces(sb: Super, d: Disk, tab: seq<Inode>, i: nat, n: nat, b: nat)
    requires FsInv(sb, d, tab) && b < sb.size && !Usage(sb, d)[b]
    requires i < |tab| && n < NINDIRECT && tab[i].addrs[NDIRECT] != 0 && WordAt(d[tab[i].addrs[NDIRECT]], n) == 0
    ensures Slots(d, tab[i])[NDIRECT + 1 + n] == 0 && sb.Data(tab[i].addrs[NDIRECT]) && tab[i].addrs[NDIRECT] != b
  {
    UnusedUnnamed(sb, d, tab, b, i);
    PointerIsData(sb, d, tab, i);
  }

  lemma EntryKeepsData(sb: Super, d: Disk, tab: seq<Inode>, i: nat, b: nat, d1: Disk, d': Disk, j: nat)
    requires FsInv(sb, d, tab) && b < sb.size && !Usage(sb, d)[b] && i < |tab| && j < |tab| && |d1| == |d| == |d'|
    requires tab[i].addrs[NDIRECT] != 0
    requires forall x :: sb.Data(x) && x != b ==> d1[x] == d[x]
    requires forall x :: 0 <= x < |d| && x != tab[i].addrs[NDIRECT] ==> d'[x] == d1[x]
    ensures forall l :: 0 <= l < SLOTS && l != NDIRECT && 0 < Slots(d, tab[j])[l] < |d| ==>
      d'[Slots(d, tab[j])[l]] == d[Slots(d, tab[j])[l]]
  {
    SlotsInRange(sb, d, tab, j);
    UnusedUnnamed(sb, d, tab, b, j);
    forall l | 0 <= l < SLOTS && l != NDIRECT && 0 < Slots(d, tab[j])[l] < |d|
      ensures d'[Slots(d, tab[j])[l]] == d[Slots(d, tab[j])[l]]
    {
      if Slots(d, tab[j])[l] == tab[i].addrs[NDIRECT] {
        SlotsDiffer(sb, d, tab, j, l, i, NDIRECT);
      }
    }
  }

  /** Overwriting a mapped data block of inode i. */
  lemma Overwrite(sb: Super, d: Disk, tab: seq<Inode>, i: nat, n: nat, blk: Block, d': Disk)
    requires FsInv(sb, d, tab) && i < |tab| && n < MAXFILE
    requires 0 < FileBlock(d, tab[i], n) < |d| && d' == d[FileBlock(d, tab[i], n) := blk]
    ensures FsInv(sb, d', tab) && OthersKept(sb, d, tab, d', tab, i)
    ensures Slots(d', tab[i]) == Slots(d, tab[i])
    ensures forall m :: 0 <= m < MAXFILE && m != n && 0 < FileBlock(d, tab[i], m) < |d| ==>
      d'[FileBlock(d, tab[i], m)] == d[FileBlock(d, tab[i], m)]
  {
    WriteData(sb, d, tab, i, n, blk, d');
    forall j | 0 <= j < |tab| && j != i ensures SameFile(d, d', tab[j]) {
      OverwriteOther(sb, d, tab, i, n, d', j);
    }
    OthersIntro(sb, d, tab, d', tab, i);
    OverwriteSlots(sb, d, tab, i, n, d', i);
  }

  lemma OverwriteOther(sb: Super, d: Disk, tab: seq<Inode>, i: nat, n: nat, d': Disk, j: nat)
    requires FsInv(sb, d, tab) && Shape(sb, d', tab) && i < |tab| && j < |tab| && n < MAXFILE && j != i
    requires Table(d', tab) == Table(d, tab) && FileBlock(d, tab[i], n) != 0
    requires forall x :: 0 <= x < |d| && x != FileBlock(d, tab[i], n) ==> d'[x] == d[x]
    ensures SameFile(d, d', tab[j])
  {
    OverwriteSlots(sb, d, tab, i, n, d', j);
  }

  lemma OverwriteSlots(sb: Super, d: Disk, tab: seq<Inode>, i: nat, n: nat, d': Disk, j: nat)
    requires FsInv(sb, d, tab) && Shape(sb, d', tab) && i < |tab| && j < |tab| && n < MAXFILE
    requires Table(d', tab) == Table(d, tab) && FileBlock(d, tab[i], n) != 0
    requires forall x :: 0 <= x < |d| && x != FileBlock(d, tab[i], n) ==> d'[x] == d[x]
    ensures Slots(d', tab[j]) == Slots(d, tab[j])
    ensures forall l :: 0 <= l < SLOTS && !(j == i && l == SlotOf(n)) && 0 < Slots(d, tab[j])[l] < |d| ==>
      d'[Slots(d, tab[j])[l]] == d[Slots(d, tab[j])[l]]
  {
    assert Table(d', tab)[j] == Table(d, tab)[j];
    forall l | 0 <= l < SLOTS && !(j == i && l == SlotOf(n)) && 0 < Slots(d, tab[j])[l] < |d|
      ensures d'[Slots(d, tab[j])[l]] == d[Slots(d, tab[j])[l]]
    {
      if Slots(d, tab[j])[l] == FileBlock(d, tab[i], n) { SlotsDiffer(sb, d, tab, i, SlotOf(n), j, l); }
    }
  }

  // ---------- one more file block ----------

  /** What bmap(ip, n) does: file block n of inode i is mapped afterwards, zeroed if it was
      not mapped before, and nothing else of any file changed. */
  ghost predicate Extended(sb: Super, d: Disk, tab: seq<Inode>, d': Disk, tab': seq<Inode>, i: nat, n: nat) {
    && OthersKept(sb, d, tab, d', tab', i) && i < |tab| && n < MAXFILE
    && WellFormed(sb, tab'[i]) && tab'[i].(addrs := tab[i].addrs) == tab[i]
    && (forall m :: 0 <= m < MAXFILE && m != n ==> FileBlock(d', tab'[i], m) == FileBlock(d, tab[i], m))
    && (forall m :: 0 <= m < MAXFILE && 0 < FileBlock(d, tab[i], m) < |d| ==>
          d'[FileBlock(d, tab[i], m)] == d[FileBlock(d, tab[i], m)])
    && 0 < FileBlock(d', tab'[i], n) < |d|
    && (FileBlock(d, tab[i], n) != 0 ==> FileBlock(d', tab'[i], n) == FileBlock(d, tab[i], n))
    && (FileBlock(d, tab[i], n) == 0 ==> d'[FileBlock(d', tab'[i], n)] == ZeroBlock())
    && (tab'[i].addrs[NDIRECT] != tab[i].addrs[NDIRECT] ==> tab[i].addrs[NDIRECT] == 0 && n >= NDIRECT)
    && (n >= NDIRECT ==> tab'[i].addrs[NDIRECT] != 0)
  }

  lemma ExtendedNone(sb: Super, d: Disk, tab: seq<Inode>, i: nat, n: nat)
    requires FsInv(sb, d, tab) && i < |tab| && n < MAXFILE && FileBlock(d, tab[i], n) != 0
    ensures Extended(sb, d, tab, d, tab, i, n)
  {
    OthersIntro(sb, d, tab, d, tab, i);
    SlotsInRange(sb, d, tab, i);
  }

  lemma ExtendedOne(sb: Super, d: Disk, tab: seq<Inode>, d': Disk, tab': seq<Inode>, i: nat, n: nat, b: nat)
    requires n < MAXFILE && Grown(sb, d, tab, d', tab', i, SlotOf(n), b)
    requires n >= NDIRECT ==> tab[i].addrs[NDIRECT] != 0
    ensures Extended(sb, d, tab, d', tab', i, n) && FileBlock(d', tab'[i], n) == b
  {
    assert Slots(d', tab'[i])[NDIRECT] == tab'[i].addrs[NDIRECT];
    assert Slots(d, tab[i])[NDIRECT] == tab[i].addrs[NDIRECT];
  }

  lemma ExtendedTwo(sb: Super, d: Disk, tab: seq<Inode>, d1: Disk, tab1: seq<Inode>, d': Disk, tab': seq<Inode>,
                    i: nat, n: nat, p: nat, b: nat)
    requires NDIRECT <= n < MAXFILE && Grown(sb, d, tab, d1, tab1, i, NDIRECT, p)
    requires Grown(sb, d1, tab1, d', tab', i, SlotOf(n), b)
    ensures Extended(sb, d, tab, d', tab', i, n) && FileBlock(d', tab'[i], n) == b
  {
    OthersTrans(sb, d, tab, d1, tab1, d', tab', i);
    assert Slots(d', tab'[i])[NDIRECT] == tab'[i].addrs[NDIRECT];
    assert Slots(d1, tab1[i])[NDIRECT] == tab1[i].addrs[NDIRECT];
    assert Slots(d, tab[i])[NDIRECT] == tab[i].addrs[NDIRECT];
    forall m | 0 <= m < MAXFILE && 0 < FileBlock(d, tab[i], m) < |d|
      ensures d'[FileBlock(d, tab[i], m)] == d[FileBlock(d, tab[i], m)]
    {
      assert Slots(d1, tab1[i])[SlotOf(m)] == Slots(d, tab[i])[SlotOf(m)];
    }
  }

  /** No holes before, no holes after: extending at m maps m + 1 blocks. */
  lemma MappedExtended(sb: Super, d: Disk, tab: seq<Inode>, d': Disk, tab': seq<Inode>, i: nat, n: nat, m: nat)
    requires Extended(sb, d, tab, d', tab', i, n) && Mapped(Slots(d, tab[i]), m) && n <= m
    ensures Mapped(Slots(d', tab'[i]), if n == m then m + 1 else m)
  {
    assert Slots(d', tab'[i])[NDIRECT] == tab'[i].addrs[NDIRECT];
    assert Slots(d, tab[i])[NDIRECT] == tab[i].addrs[NDIRECT];
    forall x | 0 <= x < MAXFILE
      ensures Slots(d', tab'[i])[SlotOf(x)] != 0 <==> x < if n == m then m + 1 else m
    {
      assert FileBlock(d', tab'[i], x) == Slots(d', tab'[i])[SlotOf(x)];
      assert FileBlock(d, tab[i], x) == Slots(d, tab[i])[SlotOf(x)];
    }
  }

  /** The bytes of the file after bmap: as before, zeros in the new block. */
  lemma BytesExtended(sb: Super, d: Disk, tab: seq<Inode>, d': Disk, tab': seq<Inode>, i: nat, n: nat, m: nat, p: nat)
    requires Extended(sb, d, tab, d', tab', i, n) && Mapped(Slots(d, tab[i]), m) && n <= m
    requires FsInv(sb, d, tab) && p < MAXFILE * BSIZE && p / 512 < if n == m then m + 1 else m
    ensures FileByte(d', tab'[i], p) == if p / 512 < m then FileByte(d, tab[i], p) else 0
  {
    SlotsInRange(sb, d, tab, i);
    assert FileBlock(d, tab[i], p / 512) == Slots(d, tab[i])[SlotOf(p / 512)];
  }
}
