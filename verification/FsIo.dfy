// Reading and writing files through the block map: iupdate, readi and writei of Ass2/fs.c.

module FsIo {
  import opened Codec
  import opened FsModel
  import opened FsLemmas
  import opened FsFile
  import opened FsWrite
  import opened FsCode
  import opened FsSpace

  /** Writing a block before the free map changes no map and no data. */
  lemma MetaWrite(sb: Super, d: Disk, tab: seq<Inode>, x: nat, blk: Block, d': Disk)
    requires FsInv(sb, d, tab) && x < sb.bmapstart && d' == d[x := blk]
    ensures FsInv(sb, d', tab) && Usage(sb, d') == Usage(sb, d)
    ensures forall j :: 0 <= j < |tab| ==> SameFile(d, d', tab[j])
  {
    UsageFrame(sb, d, d');
    forall j | 0 <= j < |tab| ensures SameFile(d, d', tab[j]) {
      SlotsInRange(sb, d, tab, j);
      PointerIsData(sb, d, tab, j);
    }
    assert Table(d', tab) == Table(d, tab);
  }

  /** iupdate: the disk inode is the in-memory one afterwards; no other inode, no map and no
      data changes. */
  method Iupdate(fs: FileSys, ip: InodeRef)
    requires fs.Valid() && fs.Has(ip)
    requires fs.Traced()
    modifies fs`disk, fs`dirty, fs`trace
    ensures fs.Traced()
    ensures fs.Valid()
    ensures fs.dirty == old(fs.dirty) + {IBlock(fs.sb, ip.inum)}
    ensures |fs.disk| == old(|fs.disk|) && IBlock(fs.sb, ip.inum) < |fs.disk|
    ensures forall j :: 0 <= j < |fs.tab| ==> IBlock(fs.sb, j) < |fs.disk|
    ensures forall j :: 0 <= j < |fs.tab| ==>
      InodeAt(fs.sb, fs.disk, j) == if j == ip.inum then ip.D() else InodeAt(fs.sb, old(fs.disk), j)
    ensures forall j :: 0 <= j < |fs.tab| ==> SameFile(old(fs.disk), fs.disk, fs.tab[j])
    ensures Usage(fs.sb, fs.disk) == old(Usage(fs.sb, fs.disk))
  {
    InodesInRange(fs.sb);
    var x := ip.inum / 8 + fs.sb.inodestart;
    var di := Inode(ip.meta0, ip.meta1, ip.size, ip.addrs);
    fs.LogWrite(x, InodeBlock(fs.disk[x], ip.inum % 8, di));
    MetaWrite(fs.sb, old(fs.disk), fs.tab, x, fs.disk[x], fs.disk);
    forall j | 0 <= j < |fs.tab|
      ensures InodeAt(fs.sb, fs.disk, j) == if j == ip.inum then di else InodeAt(fs.sb, old(fs.disk), j)
    {
      InodeAfter(fs.sb, old(fs.disk), ip.inum, di, j);
    }
  }

  /** off + n < off in 32-bit arithmetic. */
  lemma Wraps(off: nat, n: nat)
    requires off < WORD_LIMIT && n < WORD_LIMIT
    ensures (off + n) % 0x1_0000_0000 < off <==> off + n >= WORD_LIMIT
  {
    if off + n >= WORD_LIMIT { assert (off + n) % 0x1_0000_0000 == off + n - WORD_LIMIT; }
  }

  lemma MappedByte(d: Disk, ino: Inode, p: nat)
    requires FileOk(d, ino) && p < ino.size
    ensures p / 512 < MAXFILE && FileBlock(d, ino, p / 512) != 0
  {
  }

  lemma ReadPiece(d: Disk, ino: Inode, o: nat, m: nat, a: int, o': nat)
    requires FileOk(d, ino) && o' == o + m <= ino.size && o % 512 + m <= 512 && o / 512 < MAXFILE
    requires a == FileBlock(d, ino, o / 512) && 0 < a < |d|
    ensures d[a][o % 512..o % 512 + m] == Content(d, ino)[o..o']
  {
    var s, t := d[a][o % 512..o % 512 + m], Content(d, ino)[o..o'];
    forall k | 0 <= k < m ensures s[k] == t[k] {
      BlockByte(d, ino, o, k);
    }
  }

  /** Blocks touched by writing from off up to o. */
  function Touched(off: nat, o: nat): int {
    if o == off then 0 else Ceil(o) - off / 512
  }

  /** Blocks added to a file of the given size by writing up to o. */
  function Grew(size: nat, o: nat): int {
    Max(Ceil(size), Ceil(o)) - Ceil(size)
  }

  /** A round never crosses a block, and only the first and last may be partial. */
  lemma RoundSize(off: nat, o: nat, end: nat, m: int, o': int)
    requires off <= o < end && (o > off ==> o % 512 == 0) && m == Min(end - o, 512 - o % 512) && o' == o + m
    ensures m > 0 && o % 512 + m <= 512 && o < o' <= end
    ensures o' < end ==> o' % 512 == 0
    ensures Touched(off, o') == Touched(off, o) + 1
  {
    assert Ceil(o + m) == o / 512 + 1;
    if o > off { assert Ceil(o) == o / 512; }
    if o + m < end { assert o + m == 512 * (o / 512 + 1); }
  }

  /** m = min(n - tot, BSIZE - off%BSIZE): where the next piece ends. */
  method PieceEnd(off: nat, o: nat, end: nat) returns (m: nat, o': nat)
    requires off <= o < end && (o > off ==> o % 512 == 0)
    ensures o' == o + m && o < o' <= end && o % 512 + m <= 512 && (o' < end ==> o' % 512 == 0)
    ensures Touched(off, o') == Touched(off, o) + 1 && Ceil(o') <= Ceil(end)
  {
    m := Min(end - o, 512 - o % 512);
    o' := o + m;
    RoundSize(off, o, end, m, o');
  }

  /** One round of readi: bytes o, ..., o' - 1 from one block. */
  method ReadBlock(fs: FileSys, ip: InodeRef, o: nat, m: nat, ghost o': nat) returns (piece: seq<Byte>)
    requires fs.Valid() && fs.Has(ip) && FileOk(fs.disk, fs.tab[ip.inum])
    requires o' == o + m && o < o' <= ip.size && o % 512 + m <= 512
    requires fs.Traced()
    modifies fs`disk, fs`dirty, fs`trace, fs`tab, ip`addrs
    ensures fs.Traced()
    ensures fs.disk == old(fs.disk) && fs.tab == old(fs.tab) && fs.dirty == old(fs.dirty) && fs.Has(ip)
    ensures piece == Content(fs.disk, fs.tab[ip.inum])[o..o']
  {
    MappedByte(fs.disk, fs.tab[ip.inum], o);
    var a, _ := fs.Bmap(ip, o / 512);
    ReadPiece(fs.disk, fs.tab[ip.inum], o, m, a, o');
    piece := fs.disk[a][o % 512..o % 512 + m];
  }

  lemma SliceMore(c: seq<Byte>, a: nat, b: nat, d: nat)
    requires a <= b <= d <= |c|
    ensures c[a..b] + c[b..d] == c[a..d]
  {
  }

  /** The loop of readi: n bytes that are all inside the file. */
  method ReadBytes(fs: FileSys, ip: InodeRef, off: nat, n: nat) returns (dst: seq<Byte>)
    requires fs.Valid() && fs.Has(ip) && FileOk(fs.disk, fs.tab[ip.inum]) && off + n <= ip.size
    requires fs.Traced()
    modifies fs`disk, fs`dirty, fs`trace, fs`tab, ip`addrs
    ensures fs.Traced()
    ensures fs.disk == old(fs.disk) && fs.tab == old(fs.tab) && fs.dirty == old(fs.dirty) && fs.Has(ip)
    ensures dst == Content(fs.disk, fs.tab[ip.inum])[off..off + n]
  {
    dst := [];
    ghost var c := Content(fs.disk, fs.tab[ip.inum]);
    var o, end := off, off + n;
    while o < end
      invariant off <= o <= end && (off < o < end ==> o % 512 == 0)
      invariant fs.disk == old(fs.disk) && fs.tab == old(fs.tab) && fs.dirty == old(fs.dirty) && fs.Has(ip) &&
        fs.Traced()
      invariant dst == c[off..o]
    {
      var m, o' := PieceEnd(off, o, end);
      var piece := ReadBlock(fs, ip, o, m, o');
      SliceMore(c, off, o, o');
      dst, o := dst + piece, o';
    }
  }

  /** readi: at most the n bytes from off, stopping at the end of the file.  The bmap calls
      allocate nothing, because a file has no holes. */
  method Readi(fs: FileSys, ip: InodeRef, off: nat, n: nat) returns (r: int, dst: seq<Byte>)
    requires fs.Valid() && fs.Has(ip) && FileOk(fs.disk, fs.tab[ip.inum])
    requires off < WORD_LIMIT && n < WORD_LIMIT
    requires fs.Traced()
    modifies fs`disk, fs`dirty, fs`trace, fs`tab, ip`addrs
    ensures fs.Traced()
    ensures fs.disk == old(fs.disk) && fs.tab == old(fs.tab) && fs.dirty == old(fs.dirty) && fs.Has(ip)
    ensures r == -1 <==> off > ip.size || off + n >= WORD_LIMIT
    ensures r != -1 ==> r == Min(n, ip.size - off) && dst == Content(fs.disk, fs.tab[ip.inum])[off..off + r]
  {
    Wraps(off, n);
    if off > ip.size || (off + n) % 0x1_0000_0000 < off {
      return -1, [];
    }
    r := n;
    if off + n > ip.size {
      r := ip.size - off;
    }
    dst := ReadBytes(fs, ip, off, r);
  }

  /** There are enough free blocks for a file of m blocks to have m'. */
  ghost predicate Enough(sb: Super, d: Disk, m: nat, m': nat)
    requires sb.Valid() && |d| == sb.size
  {
    Spare(sb, d) >= Blocks(Max(m, m')) - Blocks(m)
  }

  /** One round of writei: bmap, copy, log_write. */
  method WriteBlock(fs: FileSys, ip: InodeRef, o: nat, piece: seq<Byte>, ghost m: nat)
      returns (a: int, ghost bm: set<int>)
    requires fs.Valid() && fs.Has(ip) && Mapped(Slots(fs.disk, fs.tab[ip.inum]), m) && o / 512 <= m
    requires o % 512 + |piece| <= 512 && o / 512 < MAXFILE
    requires fs.Traced()
    modifies fs`disk, fs`dirty, fs`trace, fs`tab, ip`addrs
    ensures fs.Traced()
    ensures a < 0 ==> Full(fs.sb, fs.disk)
    ensures a < 0 <==> !Enough(fs.sb, old(fs.disk), m, o / 512 + 1)
    ensures a >= 0 ==>
      fs.Valid() && fs.Has(ip) && OthersKept(fs.sb, old(fs.disk), old(fs.tab), fs.disk, fs.tab, ip.inum)
    ensures a >= 0 ==> fs.tab[ip.inum].(addrs := old(fs.tab)[ip.inum].addrs) == old(fs.tab)[ip.inum]
    ensures a >= 0 ==> Mapped(Slots(fs.disk, fs.tab[ip.inum]), Max(m, o / 512 + 1))
    ensures a >= 0 ==> StepBytes(old(fs.disk), old(fs.tab)[ip.inum], fs.disk, fs.tab[ip.inum], o, piece, m)
    ensures a >= 0 && o / 512 < m ==> fs.tab == old(fs.tab)
    ensures a >= 0 ==> PointerKept(old(fs.tab)[ip.inum], fs.tab[ip.inum])
    ensures a >= 0 ==> fs.dirty <= old(fs.dirty) + bm + {a} + Pointer(fs.tab[ip.inum])
    ensures a >= 0 ==> |bm| <= Max(m, o / 512 + 1) - m + NewPointer(old(fs.tab)[ip.inum], fs.tab[ip.inum])
  {
    ghost var d0, t0 := fs.disk, fs.tab;
    MappedCost(fs.disk, fs.tab[ip.inum], m, o / 512);
    a, bm := fs.Bmap(ip, o / 512);
    if a >= 0 {
      ghost var d1 := fs.disk;
      fs.LogWrite(a, Splice(fs.disk[a], o % 512, piece));
      WriteStep(fs.sb, d0, t0, d1, fs.tab, fs.disk, ip.inum, o, m, piece, a);
    }
  }

  /** A round of writei as a step of the whole write: done was written at off before. */
  method WriteRound(fs: FileSys, ip: InodeRef, o: nat, piece: seq<Byte>, ghost d0: Disk, ghost t0: seq<Inode>,
      ghost off: nat, ghost done: seq<Byte>, ghost m: nat, ghost o': nat)
    returns (a: int, ghost bm: set<int>)
    requires fs.Valid() && fs.Has(ip) && Written(fs.sb, d0, t0, fs.disk, fs.tab, ip.inum, off, done)
    requires o == off + |done| && m == Max(Ceil(t0[ip.inum].size), Ceil(o))
    requires |piece| > 0 && o % 512 + |piece| <= 512 && o' == o + |piece| <= MAXFILE * 512
    requires fs.Traced()
    modifies fs`disk, fs`dirty, fs`trace, fs`tab, ip`addrs
    ensures fs.Traced()
    ensures a < 0 ==> Full(fs.sb, fs.disk)
    ensures a < 0 ==> !Enough(fs.sb, old(fs.disk), m, o / 512 + 1)
    ensures a >= 0 ==> fs.Valid() && fs.Has(ip) && Written(fs.sb, d0, t0, fs.disk, fs.tab, ip.inum, off, done + piece)
    ensures a >= 0 ==> PointerKept(old(fs.tab)[ip.inum], fs.tab[ip.inum])
    ensures a >= 0 ==> fs.dirty <= old(fs.dirty) + bm + {a} + Pointer(fs.tab[ip.inum])
    ensures a >= 0 ==> |bm| <= Max(m, o / 512 + 1) - m + NewPointer(old(fs.tab)[ip.inum], fs.tab[ip.inum])
  {
    ghost var i, d1, t1 := ip.inum, fs.disk, fs.tab;
    CeilPiece(t0[i].size, o, |piece|, m);
    a, bm := WriteBlock(fs, ip, o, piece, m);
    if a >= 0 {
      OthersTrans(fs.sb, d0, t0, d1, t1, fs.disk, fs.tab, i);
      WrittenMore(fs.sb, d0, t0, d1, t1, fs.disk, fs.tab, i, off, done, piece, m, o);
    }
  }

  /** Of all inodes and files, only inode i and its file changed. */
  ghost predicate OnlyFile(sb: Super, d: Disk, tab: seq<Inode>, d': Disk, tab': seq<Inode>, i: nat) {
    && Shape(sb, d, tab) && |d'| == |d| && |tab'| == |tab|
    && (forall j :: 0 <= j < |tab| ==> IBlock(sb, j) < |d|)
    && (forall j :: 0 <= j < |tab| && j != i ==> tab'[j] == tab[j] && SameFile(d, d', tab[j]))
    && (forall j :: 0 <= j < |tab| && j != i ==> InodeAt(sb, d', j) == InodeAt(sb, d, j))
  }

  lemma OnlyFileOf(sb: Super, d: Disk, tab: seq<Inode>, d': Disk, tab': seq<Inode>, i: nat)
    requires OthersKept(sb, d, tab, d', tab', i) && i < |tab|
    ensures OnlyFile(sb, d, tab, d', tab', i) && InodeAt(sb, d', i) == InodeAt(sb, d, i)
  {
    InodesInRange(sb);
  }

  /** ip->size = o; iupdate(ip), after o bytes are mapped. */
  method SetSize(fs: FileSys, ip: InodeRef, o: nat)
    requires fs.Valid() && fs.Has(ip) && o <= MAXFILE * 512
    requires fs.Traced()
    modifies fs`disk, fs`dirty, fs`trace, fs`tab, ip`size
    ensures fs.Traced()
    ensures fs.Valid() && fs.Has(ip) && fs.tab == old(fs.tab)[ip.inum := old(fs.tab)[ip.inum].(size := o)]
    ensures OnlyFile(fs.sb, old(fs.disk), old(fs.tab), fs.disk, fs.tab, ip.inum)
    ensures SameFile(old(fs.disk), fs.disk, old(fs.tab)[ip.inum]) && InodeAt(fs.sb, fs.disk, ip.inum) == fs.tab[ip.inum]
    ensures Usage(fs.sb, fs.disk) == old(Usage(fs.sb, fs.disk))
    ensures fs.dirty == old(fs.dirty) + {IBlock(fs.sb, ip.inum)}
  {
    ip.size := o;
    fs.tab := fs.tab[ip.inum := ip.D()];
    SizeKeeps(fs.sb, fs.disk, old(fs.tab), ip.inum, o, fs.tab);
    Iupdate(fs, ip);
  }

  lemma SizeKeeps(sb: Super, d: Disk, tab: seq<Inode>, i: nat, o: nat, tab': seq<Inode>)
    requires FsInv(sb, d, tab) && i < |tab| && o <= MAXFILE * 512 && tab' == tab[i := tab[i].(size := o)]
    ensures FsInv(sb, d, tab') && Slots(d, tab'[i]) == Slots(d, tab[i])
  {
    assert Table(d, tab') == Table(d, tab);
  }

  /** Written bytes are the contents once the size says so. */
  lemma SizedContent(d: Disk, ino: Inode, d': Disk, ino': Inode, c: seq<Byte>)
    requires |ino.addrs| == NDIRECT + 1 && 0 <= ino.addrs[NDIRECT] < |d| && |d'| == |d| && |c| <= MAXFILE * 512
    requires Mapped(Slots(d, ino), Ceil(|c|)) && BytesAre(d, ino, c) && SameFile(d, d', ino)
    requires forall k :: 0 <= k < SLOTS ==> 0 <= Slots(d, ino)[k] < |d|
    requires ino' == ino.(size := |c|)
    ensures FileOk(d', ino') && Content(d', ino') == c
  {
    assert Slots(d', ino') == Slots(d, ino);
    forall p | 0 <= p < |c| ensures FileByte(d', ino', p) == c[p] {
      assert p / 512 < Ceil(|c|);
      assert Slots(d, ino)[SlotOf(p / 512)] != 0;
    }
  }

  lemma CostIs(size: nat, off: nat, n: nat, o: nat)
    requires o == off + n
    ensures Touched(off, o) + Grew(size, o) + 3 <= WriteCost(size, off, n)
  {
  }

  lemma TakeMore(src: seq<Byte>, a: nat, b: nat)
    requires a <= b <= |src|
    ensures src[..a] + src[a..b] == src[..b]
  {
  }

  /** The free blocks that writing a file of size bytes up to byte end takes. */
  function WriteNeed(size: nat, end: nat): nat {
    Blocks(Max(Ceil(size), Ceil(end))) - Blocks(Ceil(size))
  }

  /** What is written so far has taken what it needs and no more. */
  lemma WrittenSpare(sb: Super, d0: Disk, t0: seq<Inode>, d: Disk, tab: seq<Inode>, i: nat, off: nat, src: seq<Byte>)
    requires FsInv(sb, d0, t0) && FsInv(sb, d, tab) && Written(sb, d0, t0, d, tab, i, off, src)
    ensures Spare(sb, d0) == Spare(sb, d) + WriteNeed(t0[i].size, off + |src|)
  {
    MappedFilled(Slots(d0, t0[i]), Ceil(t0[i].size));
    MappedFilled(Slots(d, tab[i]), Max(Ceil(t0[i].size), Ceil(off + |src|)));
    forall j | 0 <= j < |t0| && j != i ensures Filled(Slots(d, tab[j])) == Filled(Slots(d0, t0[j])) {
      assert SameFile(d0, d, t0[j]);
    }
    SpaceKept(sb, d0, t0, d, tab, i);
  }

  /** If the next piece is short of blocks, so is the whole write. */
  lemma RoundShort(sb: Super, d0: Disk, t0: seq<Inode>, d: Disk, tab: seq<Inode>, i: nat, off: nat, done: seq<Byte>,
      o: nat, k: nat, m: nat, m': nat)
    requires FsInv(sb, d0, t0) && FsInv(sb, d, tab) && Written(sb, d0, t0, d, tab, i, off, done)
    requires o == off + |done| && k > 0 && o % 512 + k <= 512 && m == Max(Ceil(t0[i].size), Ceil(o))
    requires !Enough(sb, d, m, o / 512 + 1) && Ceil(o + k) <= m'
    ensures !Enough(sb, d0, Ceil(t0[i].size), m')
  {
    WrittenSpare(sb, d0, t0, d, tab, i, off, done);
    NeedMore(t0[i].size, o, k, m, m');
  }

  lemma NeedMore(size: nat, o: nat, k: nat, m: nat, m': nat)
    requires k > 0 && o % 512 + k <= 512 && m == Max(Ceil(size), Ceil(o)) && Ceil(o + k) <= m'
    ensures WriteNeed(size, o) + Blocks(Max(m, o / 512 + 1)) - Blocks(m) <=
      Blocks(Max(Ceil(size), m')) - Blocks(Ceil(size))
  {
    CeilPiece(size, o, k, m);
  }

  lemma WrittenEnough(sb: Super, d0: Disk, t0: seq<Inode>, d: Disk, tab: seq<Inode>, i: nat, off: nat, src: seq<Byte>)
    requires FsInv(sb, d0, t0) && FsInv(sb, d, tab) && Written(sb, d0, t0, d, tab, i, off, src)
    ensures Enough(sb, d0, Ceil(t0[i].size), Ceil(off + |src|))
  {
    WrittenSpare(sb, d0, t0, d, tab, i, off, src);
  }

  /** A round, with the blocks logged so far accounted for in data and bm. */
  method CountedRound(fs: FileSys, ip: InodeRef, o: nat, piece: seq<Byte>,
                      ghost d0: Disk, ghost t0: seq<Inode>, ghost off: nat, ghost done: seq<Byte>, ghost o': nat,
                      ghost m0: nat, ghost m': nat,
                      ghost dirty0: set<int>, ghost data: set<int>, ghost bm: set<int>)
    returns (ok: bool, ghost data': set<int>, ghost bm': set<int>)
    requires fs.Valid() && fs.Has(ip) && Written(fs.sb, d0, t0, fs.disk, fs.tab, ip.inum, off, done)
    requires o == off + |done| && |piece| > 0 && o % 512 + |piece| <= 512 && o' == o + |piece| <= MAXFILE * 512
    requires FsInv(fs.sb, d0, t0) && m0 == Ceil(t0[ip.inum].size) && Ceil(o') <= m' &&
      Touched(off, o') == Touched(off, o) + 1
    requires Spent(dirty0, fs.dirty, data, bm, t0[ip.inum], fs.tab[ip.inum], Touched(off, o), Grew(t0[ip.inum].size, o))
    requires fs.Traced()
    modifies fs`disk, fs`dirty, fs`trace, fs`tab, ip`addrs
    ensures fs.Traced()
    ensures !ok ==> Full(fs.sb, fs.disk)
    ensures !ok ==> !Enough(fs.sb, d0, m0, m')
    ensures ok ==> fs.Valid() && fs.Has(ip) && Written(fs.sb, d0, t0, fs.disk, fs.tab, ip.inum, off, done + piece)
    ensures ok ==>
      Spent(dirty0, fs.dirty, data', bm', t0[ip.inum], fs.tab[ip.inum], Touched(off, o'), Grew(t0[ip.inum].size, o'))
  {
    ghost var i, dirty1, t1 := ip.inum, fs.dirty, fs.tab;
    ghost var d1, m := fs.disk, Max(Ceil(t0[i].size), Ceil(o));
    var a, b := WriteRound(fs, ip, o, piece, d0, t0, off, done, m, o');
    ok, data', bm' := a >= 0, data + {a}, bm + b;
    if ok {
      CeilPiece(t0[i].size, o, |piece|, m);
      SpentMore(dirty0, dirty1, data, bm, t0[i], t1[i], Touched(off, o), Grew(t0[i].size, o),
                fs.dirty, a, b, fs.tab[i], Grew(t0[i].size, o'));
    } else {
      RoundShort(fs.sb, d0, t0, d1, t1, i, off, done, o, |piece|, m, m');
    }
  }

  /** The loop of writei. */
  method WriteLoop(fs: FileSys, ip: InodeRef, src: seq<Byte>, off: nat, ghost m0: nat, ghost m': nat)
      returns (ok: bool, ghost data: set<int>, ghost bm: set<int>)
    requires fs.Valid() && fs.Has(ip) && FileOk(fs.disk, fs.tab[ip.inum])
    requires off <= ip.size && off + |src| <= MAXFILE * 512
    requires m0 == Ceil(fs.tab[ip.inum].size) && m' == Ceil(off + |src|)
    requires fs.Traced()
    modifies fs`disk, fs`dirty, fs`trace, fs`tab, ip`addrs
    ensures fs.Traced()
    ensures !ok ==> Full(fs.sb, fs.disk)
    ensures !ok ==> !Enough(fs.sb, old(fs.disk), m0, m')
    ensures ok ==> fs.Valid() && fs.Has(ip)
    ensures ok ==> Written(fs.sb, old(fs.disk), old(fs.tab), fs.disk, fs.tab, ip.inum, off, src)
    ensures ok ==>
      Spent(old(fs.dirty), fs.dirty, data, bm, old(fs.tab)[ip.inum], fs.tab[ip.inum], Touched(off, off + |src|),
            Grew(old(fs.tab)[ip.inum].size, off + |src|))
  {
    ghost var i, d0, t0, dirty0 := ip.inum, fs.disk, fs.tab, fs.dirty;
    ghost var done := [];
    data, bm := {}, {};
    WrittenNone(fs.sb, d0, t0, i, off);
    var o, tot, end := off, 0, off + |src|;
    while o < end
      invariant off <= o <= end && (off < o < end ==> o % 512 == 0) && 0 <= tot && o == off + tot && done == src[..tot]
      invariant fs.Valid() && fs.Has(ip) && fs.Traced() && Written(fs.sb, d0, t0, fs.disk, fs.tab, i, off, done)
      invariant Spent(dirty0, fs.dirty, data, bm, t0[i], fs.tab[i], Touched(off, o), Grew(t0[i].size, o))
    {
      var m, o' := PieceEnd(off, o, end);
      var tot' := tot + m;
      var piece := src[tot..tot'];
      TakeMore(src, tot, tot');
      ok, data, bm := CountedRound(fs, ip, o, piece, d0, t0, off, done, o', m0, m', dirty0, data, bm);
      if !ok {
        return;
      }
      done, tot, o := src[..tot'], tot', o';
    }
    assert done == src;
    ok := true;
  }

  /** The same, with the number of blocks logged. */
  method WriteBytes(fs: FileSys, ip: InodeRef, src: seq<Byte>, off: nat) returns (ok: bool)
    requires fs.Valid() && fs.Has(ip) && FileOk(fs.disk, fs.tab[ip.inum])
    requires off <= ip.size && off + |src| <= MAXFILE * 512
    requires fs.Traced()
    modifies fs`disk, fs`dirty, fs`trace, fs`tab, ip`addrs
    ensures fs.Traced()
    ensures !ok ==> Full(fs.sb, fs.disk)
    ensures ok <==> Enough(fs.sb, old(fs.disk), Ceil(old(fs.tab)[ip.inum].size), Ceil(off + |src|))
    ensures ok ==> fs.Valid() && fs.Has(ip)
    ensures ok ==> Written(fs.sb, old(fs.disk), old(fs.tab), fs.disk, fs.tab, ip.inum, off, src)
    ensures ok ==> |fs.dirty| <= old(|fs.dirty|) + WriteCost(old(ip.size), off, |src|) - 1
  {
    ghost var i, d0, t0, dirty0, o := ip.inum, fs.disk, fs.tab, fs.dirty, off + |src|;
    ghost var data, bm;
    ok, data, bm := WriteLoop(fs, ip, src, off, Ceil(t0[i].size), Ceil(o));
    if ok {
      SpentTotal(dirty0, fs.dirty, data, bm, t0[i], fs.tab[i], Touched(off, o), Grew(t0[i].size, o));
      CostIs(t0[i].size, off, |src|, o);
      WrittenEnough(fs.sb, d0, t0, fs.disk, fs.tab, i, off, src);
    }
  }

  /** From a written file to its contents: the size was enough, or was set. */
  lemma WrittenFinal(sb: Super, d0: Disk, t0: seq<Inode>, d: Disk, tab: seq<Inode>, d': Disk, tab': seq<Inode>, i: nat,
      off: nat, src: seq<Byte>)
    requires FsInv(sb, d, tab) && Written(sb, d0, t0, d, tab, i, off, src)
    requires OnlyFile(sb, d, tab, d', tab', i) && SameFile(d, d', tab[i])
    requires tab'[i] == tab[i].(size := Max(tab[i].size, off + |src|))
    ensures FileOk(d', tab'[i]) && Content(d', tab'[i]) == Patch(Content(d0, t0[i]), off, src)
    ensures OnlyFile(sb, d0, t0, d', tab', i)
  {
    SlotsInRange(sb, d, tab, i);
    CeilMax(tab[i].size, off + |src|);
    SizedContent(d, tab[i], d', tab'[i], Patch(Content(d0, t0[i]), off, src));
    OnlyFileOf(sb, d0, t0, d, tab, i);
    OnlyFileTrans(sb, d0, t0, d, tab, d', tab', i);
  }

  lemma CeilMax(a: nat, b: nat)
    ensures Ceil(Max(a, b)) == Max(Ceil(a), Ceil(b))
  {
  }

  lemma OnlyFileTrans(sb: Super, d: Disk, tab: seq<Inode>, d': Disk, tab': seq<Inode>, d'': Disk, tab'': seq<Inode>,
      i: nat)
    requires OnlyFile(sb, d, tab, d', tab', i) && OnlyFile(sb, d', tab', d'', tab'', i)
    ensures OnlyFile(sb, d, tab, d'', tab'', i)
  {
    forall j | 0 <= j < |tab| && j != i ensures tab''[j] == tab[j] && SameFile(d, d'', tab[j]) {
      assert SameFile(d, d', tab[j]) && SameFile(d', d'', tab'[j]);
    }
    forall j | 0 <= j < |tab| && j != i ensures InodeAt(sb, d'', j) == InodeAt(sb, d, j) {
      assert InodeAt(sb, d', j) == InodeAt(sb, d, j);
    }
  }

  lemma OnlyFileRefl(sb: Super, d: Disk, tab: seq<Inode>, i: nat)
    requires Shape(sb, d, tab) && i < |tab|
    ensures OnlyFile(sb, d, tab, d, tab, i)
  {
    OthersIntro(sb, d, tab, d, tab, i);
    OnlyFileOf(sb, d, tab, d, tab, i);
  }

  /** writei's tests on the offset and the length. */
  method Fits(size: int, off: nat, n: nat) returns (ok: bool)
    requires off < WORD_LIMIT && n < WORD_LIMIT
    ensures ok <==> off <= size && off + n <= MAXFILE * 512
  {
    Wraps(off, n);
    if off > size || (off + n) % 0x1_0000_0000 < off {
      return false;
    }
    ok := off + n <= MAXFILE * 512;
  }

  /** writei once its tests are passed: false when there are not enough free blocks. */
  method WriteInside(fs: FileSys, ip: InodeRef, src: seq<Byte>, off: nat) returns (ok: bool)
    requires fs.Valid() && fs.Has(ip) && FileOk(fs.disk, fs.tab[ip.inum])
    requires off <= ip.size && off + |src| <= MAXFILE * 512
    requires fs.Traced()
    modifies fs`disk, fs`dirty, fs`trace, fs`tab, ip`addrs, ip`size
    ensures fs.Traced()
    ensures !ok ==> Full(fs.sb, fs.disk)
    ensures ok <==> Enough(fs.sb, old(fs.disk), Ceil(old(fs.tab)[ip.inum].size), Ceil(off + |src|))
    ensures ok ==> fs.Valid() && fs.Has(ip) && FileOk(fs.disk, fs.tab[ip.inum])
    ensures ok ==> Content(fs.disk, fs.tab[ip.inum]) == Patch(old(Content(fs.disk, fs.tab[ip.inum])), off, src)
    ensures ok ==> OnlyFile(fs.sb, old(fs.disk), old(fs.tab), fs.disk, fs.tab, ip.inum)
    ensures ok && InodeAt(fs.sb, old(fs.disk), ip.inum) == old(fs.tab)[ip.inum] ==>
      InodeAt(fs.sb, fs.disk, ip.inum) == fs.tab[ip.inum]
    ensures ok ==> |fs.dirty| <= old(|fs.dirty|) + WriteCost(old(ip.size), off, |src|)
  {
    ghost var i, d0, t0 := ip.inum, fs.disk, fs.tab;
    ok := WriteBytes(fs, ip, src, off);
    if !ok {
      return;
    }
    var o := off + |src|;
    ghost var d1, t1 := fs.disk, fs.tab;
    OnlyFileOf(fs.sb, d0, t0, d1, t1, i);
    if |src| > 0 && o > ip.size {
      ghost var dirty := fs.dirty;
      SetSize(fs, ip, o);
      UnionSize(dirty, {IBlock(fs.sb, i)});
    } else {
      OnlyFileRefl(fs.sb, d1, t1, i);
    }
    WrittenFinal(fs.sb, d0, t0, d1, t1, fs.disk, fs.tab, i, off, src);
  }

  /** writei: src is at off afterwards, nothing else changed in any file, the disk inode is
      still the in-memory one, and no file has a hole.  -1 exactly when src does not fit, and -2
      exactly when the disk has too few free blocks for it, which panics. */
  method Writei(fs: FileSys, ip: InodeRef, src: seq<Byte>, off: nat) returns (r: int)
    requires fs.Valid() && fs.Has(ip) && FileOk(fs.disk, fs.tab[ip.inum])
    requires off < WORD_LIMIT && |src| < WORD_LIMIT
    requires fs.Traced()
    modifies fs`disk, fs`dirty, fs`trace, fs`tab, ip`addrs, ip`size
    ensures fs.Traced()
    ensures r == |src| || r == -1 || r == -2
    ensures r == -1 <==> off > old(ip.size) || off + |src| > MAXFILE * 512
    ensures r == -1 ==> fs.disk == old(fs.disk) && fs.tab == old(fs.tab) && fs.dirty == old(fs.dirty) && fs.Has(ip)
    ensures r == -2 ==> Full(fs.sb, fs.disk)
    ensures r == -2 <==> r != -1 && !Enough(fs.sb, old(fs.disk), Ceil(old(fs.tab)[ip.inum].size), Ceil(off + |src|))
    ensures r >= 0 ==> fs.Valid() && fs.Has(ip) && FileOk(fs.disk, fs.tab[ip.inum])
    ensures r >= 0 ==> Content(fs.disk, fs.tab[ip.inum]) == Patch(old(Content(fs.disk, fs.tab[ip.inum])), off, src)
    ensures r >= 0 ==> OnlyFile(fs.sb, old(fs.disk), old(fs.tab), fs.disk, fs.tab, ip.inum)
    ensures r >= 0 && InodeAt(fs.sb, old(fs.disk), ip.inum) == old(fs.tab)[ip.inum] ==>
      InodeAt(fs.sb, fs.disk, ip.inum) == fs.tab[ip.inum]
    ensures r >= 0 ==> |fs.dirty| <= old(|fs.dirty|) + WriteCost(old(ip.size), off, |src|)
  {
    var fits := Fits(ip.size, off, |src|);
    if !fits {
      return -1;
    }
    var ok := WriteInside(fs, ip, src, off);
    r := if ok then |src| else -2;
  }

  /** Between operations: ownership holds, no file has a hole, every disk inode is current. */
  ghost predicate Healthy(sb: Super, d: Disk, tab: seq<Inode>) {
    && FsInv(sb, d, tab)
    && (forall j :: 0 <= j < |tab| ==> IBlock(sb, j) < |d|)
    && (forall j :: 0 <= j < |tab| ==> FileOk(d, tab[j]) && InodeAt(sb, d, j) == tab[j])
  }

  /** Every file but i's has the contents it had. */
  ghost predicate OthersSame(d: Disk, tab: seq<Inode>, d': Disk, tab': seq<Inode>, i: nat) {
    && |tab'| == |tab|
    && (forall j :: 0 <= j < |tab| ==> FileOk(d, tab[j]) && FileOk(d', tab'[j]))
    && (forall j :: 0 <= j < |tab| && j != i ==> tab'[j] == tab[j] && Content(d', tab'[j]) == Content(d, tab[j]))
  }

  lemma HealthyKept(sb: Super, d: Disk, tab: seq<Inode>, d': Disk, tab': seq<Inode>, i: nat)
    requires Healthy(sb, d, tab) && FsInv(sb, d', tab') && OnlyFile(sb, d, tab, d', tab', i) && i < |tab|
    requires FileOk(d', tab'[i]) && InodeAt(sb, d', i) == tab'[i]
    ensures Healthy(sb, d', tab') && OthersSame(d, tab, d', tab', i)
  {
    forall j | 0 <= j < |tab| && j != i ensures FileOk(d', tab'[j]) && Content(d', tab'[j]) == Content(d, tab[j]) {
      SlotsInRange(sb, d, tab, j);
      SameContent(d, d', tab[j]);
    }
  }
}
