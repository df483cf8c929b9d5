// What one round of writei does to the bytes of every file.

module FsWrite {
  import opened Codec
  import opened FsModel
  import opened FsLemmas
  import opened FsFile

  function Min(a: int, b: int): int { if a < b then a else b }
  function Max(a: int, b: int): int { if a < b then b else a }

  lemma DivPlus(o: nat, k: nat)
    requires o % 512 + k < 512
    ensures (o + k) / 512 == o / 512 && (o + k) % 512 == o % 512 + k
  {
  }

  /** A byte of a mapped block is a byte of the file. */
  lemma BlockByte(d: Disk, ino: Inode, o: nat, k: nat)
    requires |ino.addrs| == NDIRECT + 1 && 0 <= ino.addrs[NDIRECT] < |d| && o / 512 < MAXFILE && o % 512 + k < 512
    requires 0 < FileBlock(d, ino, o / 512) < |d|
    ensures o + k < MAXFILE * BSIZE && FileByte(d, ino, o + k) == d[FileBlock(d, ino, o / 512)][o % 512 + k]
  {
    DivPlus(o, k);
  }

  /** memmove(bp->data + at, piece, m) */
  function Splice(b: Block, at: nat, piece: seq<Byte>): (r: Block)
    requires at + |piece| <= 512
    ensures forall k :: 0 <= k < 512 ==> r[k] == if at <= k < at + |piece| then piece[k - at] else b[k]
  {
    b[..at] + piece + b[at + |piece|..]
  }

  /** Bytes of inode i's file after its block n was overwritten. */
  lemma OverwrittenByte(d: Disk, d': Disk, ino: Inode, o: nat, piece: seq<Byte>, a: int, p: nat)
    requires |ino.addrs| == NDIRECT + 1 && 0 <= ino.addrs[NDIRECT] < |d| && |d'| == |d|
    requires o / 512 < MAXFILE && o % 512 + |piece| <= 512 && p < MAXFILE * BSIZE
    requires a == FileBlock(d, ino, o / 512) && 0 < a < |d|
    requires Slots(d', ino) == Slots(d, ino) && d'[a] == Splice(d[a], o % 512, piece)
    requires p / 512 != o / 512 && 0 < FileBlock(d, ino, p / 512) < |d| ==>
      d'[FileBlock(d, ino, p / 512)] == d[FileBlock(d, ino, p / 512)]
    requires 0 < FileBlock(d, ino, p / 512) < |d|
    ensures FileByte(d', ino, p) == if o <= p < o + |piece| then piece[p - o] else FileByte(d, ino, p)
  {
    if o <= p < o + |piece| {
      DivPlus(o, p - o);
    }
    if p / 512 == o / 512 {
      SameBlock(o, p);
    }
  }

  lemma SameBlock(o: nat, p: nat)
    requires p / 512 == o / 512
    ensures p - o == p % 512 - o % 512
  {
  }

  /** The first m blocks of the file, and the block of o, after piece was written at o. */
  ghost predicate StepBytes(d: Disk, ino: Inode, d': Disk, ino': Inode, o: nat, piece: seq<Byte>, m: nat) {
    && |ino.addrs| == NDIRECT + 1 && 0 <= ino.addrs[NDIRECT] < |d|
    && |ino'.addrs| == NDIRECT + 1 && 0 <= ino'.addrs[NDIRECT] < |d'|
    && Max(m, o / 512 + 1) <= MAXFILE
    && forall p :: 0 <= p < 512 * Max(m, o / 512 + 1) ==>
         FileByte(d', ino', p) ==
           if o <= p < o + |piece| then piece[p - o] else if p / 512 < m then FileByte(d, ino, p) else 0
  }

  /** File block o / 512 mapped by bmap, then piece copied into it at o % 512. */
  lemma WriteStep(sb: Super, d: Disk, tab: seq<Inode>, d1: Disk, tab1: seq<Inode>, d2: Disk, i: nat, o: nat, m: nat,
                  piece: seq<Byte>, a: int)
    requires FsInv(sb, d, tab) && FsInv(sb, d1, tab1) && Extended(sb, d, tab, d1, tab1, i, o / 512)
    requires Mapped(Slots(d, tab[i]), m) && o / 512 <= m && o % 512 + |piece| <= 512
    requires a == FileBlock(d1, tab1[i], o / 512) && d2 == d1[a := Splice(d1[a], o % 512, piece)]
    ensures FsInv(sb, d2, tab1) && OthersKept(sb, d, tab, d2, tab1, i)
    ensures Mapped(Slots(d2, tab1[i]), Max(m, o / 512 + 1))
    ensures StepBytes(d, tab[i], d2, tab1[i], o, piece, m)
  {
    MappedExtended(sb, d, tab, d1, tab1, i, o / 512, m);
    Overwrite(sb, d1, tab1, i, o / 512, Splice(d1[a], o % 512, piece), d2);
    OthersTrans(sb, d, tab, d1, tab1, d2, tab1, i);
    forall p | 0 <= p < 512 * Max(m, o / 512 + 1)
      ensures FileByte(d2, tab1[i], p) ==
        if o <= p < o + |piece| then piece[p - o] else if p / 512 < m then FileByte(d, tab[i], p) else 0
    {
      StepByte(sb, d, tab, d1, tab1, d2, i, o, m, piece, a, p);
    }
  }

  lemma StepByte(sb: Super, d: Disk, tab: seq<Inode>, d1: Disk, tab1: seq<Inode>, d2: Disk, i: nat, o: nat, m: nat,
                 piece: seq<Byte>, a: int, p: nat)
    requires FsInv(sb, d, tab) && FsInv(sb, d1, tab1) && Extended(sb, d, tab, d1, tab1, i, o / 512)
    requires Mapped(Slots(d, tab[i]), m) && o / 512 <= m && o % 512 + |piece| <= 512
    requires Mapped(Slots(d1, tab1[i]), Max(m, o / 512 + 1)) && |d2| == |d1| && Slots(d2, tab1[i]) == Slots(d1, tab1[i])
    requires a == FileBlock(d1, tab1[i], o / 512) && d2[a] == Splice(d1[a], o % 512, piece)
    requires forall n :: 0 <= n < MAXFILE && n != o / 512 && 0 < FileBlock(d1, tab1[i], n) < |d1| ==>
      d2[FileBlock(d1, tab1[i], n)] == d1[FileBlock(d1, tab1[i], n)]
    requires p < 512 * Max(m, o / 512 + 1)
    ensures p < MAXFILE * BSIZE
    ensures FileByte(d2, tab1[i], p) ==
      if o <= p < o + |piece| then piece[p - o] else if p / 512 < m then FileByte(d, tab[i], p) else 0
  {
    SlotsInRange(sb, d1, tab1, i);
    assert FileBlock(d1, tab1[i], p / 512) == Slots(d1, tab1[i])[SlotOf(p / 512)];
    OverwrittenByte(d1, d2, tab1[i], o, piece, a, p);
    BytesExtended(sb, d, tab, d1, tab1, i, o / 512, m, p);
  }

  // ---------- a whole write ----------

  /** A file without holes, no longer than a file can be. */
  ghost predicate FileOk(d: Disk, ino: Inode) {
    && |ino.addrs| == NDIRECT + 1 && 0 <= ino.addrs[NDIRECT] < |d|
    && 0 <= ino.size <= MAXFILE * 512
    && Mapped(Slots(d, ino), Ceil(ino.size))
  }

  /** c with src at off, longer than c if need be. */
  function Patch(c: seq<Byte>, off: nat, src: seq<Byte>): (r: seq<Byte>)
    requires off <= |c|
    ensures |r| == Max(|c|, off + |src|)
    ensures forall p :: 0 <= p < |r| ==> r[p] == if off <= p < off + |src| then src[p - off] else c[p]
  {
    c[..off] + src + if off + |src| < |c| then c[off + |src|..] else []
  }

  lemma PatchMore(c: seq<Byte>, off: nat, src: seq<Byte>, more: seq<Byte>)
    requires off <= |c|
    ensures Patch(Patch(c, off, src), off + |src|, more) == Patch(c, off, src + more)
  {
  }

  /** src has been written at off and the size of inode i is not yet updated. */
  ghost predicate Written(sb: Super, d0: Disk, t0: seq<Inode>, d: Disk, tab: seq<Inode>, i: nat, off: nat,
      src: seq<Byte>) {
    && OthersKept(sb, d0, t0, d, tab, i) && i < |t0| && FileOk(d0, t0[i]) && off <= t0[i].size
    && off + |src| <= MAXFILE * 512
    && WellFormed(sb, tab[i]) && tab[i].(addrs := t0[i].addrs) == t0[i]
    && Mapped(Slots(d, tab[i]), Max(Ceil(t0[i].size), Ceil(off + |src|)))
    && (Ceil(off + |src|) <= Ceil(t0[i].size) ==> tab == t0)
    && BytesAre(d, tab[i], Patch(Content(d0, t0[i]), off, src))
  }

  ghost predicate BytesAre(d: Disk, ino: Inode, c: seq<Byte>)
    requires |ino.addrs| == NDIRECT + 1 && 0 <= ino.addrs[NDIRECT] < |d| && |c| <= MAXFILE * 512
  {
    forall p :: 0 <= p < |c| ==> FileByte(d, ino, p) == c[p]
  }

  lemma WrittenNone(sb: Super, d: Disk, tab: seq<Inode>, i: nat, off: nat)
    requires FsInv(sb, d, tab) && i < |tab| && FileOk(d, tab[i]) && off <= tab[i].size
    ensures Written(sb, d, tab, d, tab, i, off, [])
  {
    OthersIntro(sb, d, tab, d, tab, i);
  }

  /** How many blocks are mapped after k more bytes within one block. */
  lemma CeilPiece(size: nat, o: nat, k: nat, m: nat)
    requires k > 0 && o % 512 + k <= 512 && m == Max(Ceil(size), Ceil(o))
    ensures o / 512 <= m && Max(m, o / 512 + 1) == Max(Ceil(size), Ceil(o + k)) && Max(size, o) <= 512 * m
    ensures Ceil(o + k) <= Ceil(size) ==> o / 512 < m && Ceil(o) <= Ceil(size)
  {
    assert Ceil(o + k) == o / 512 + 1;
    assert Ceil(o) <= o / 512 + 1 && o / 512 <= Ceil(o);
  }

  lemma WrittenIntro(sb: Super, d0: Disk, t0: seq<Inode>, d: Disk, tab: seq<Inode>, i: nat, off: nat, src: seq<Byte>,
      m: nat)
    requires OthersKept(sb, d0, t0, d, tab, i) && i < |t0| && FileOk(d0, t0[i]) && off <= t0[i].size
    requires off + |src| <= MAXFILE * 512
    requires WellFormed(sb, tab[i]) && tab[i].(addrs := t0[i].addrs) == t0[i]
    requires Mapped(Slots(d, tab[i]), m) && m == Max(Ceil(t0[i].size), Ceil(off + |src|))
    requires Ceil(off + |src|) <= Ceil(t0[i].size) ==> tab == t0
    requires BytesAre(d, tab[i], Patch(Content(d0, t0[i]), off, src))
    ensures Written(sb, d0, t0, d, tab, i, off, src)
  {
  }

  lemma MoreBytes(d: Disk, ino: Inode, d2: Disk, ino2: Inode, c: seq<Byte>, off: nat, src: seq<Byte>, piece: seq<Byte>,
                  m: nat, o: nat)
    requires |ino.addrs| == NDIRECT + 1 && 0 <= ino.addrs[NDIRECT] < |d| && off <= |c| && o == off + |src|
    requires Max(|c|, o) <= 512 * m && m <= MAXFILE && BytesAre(d, ino, Patch(c, off, src))
    requires |piece| > 0 && o % 512 + |piece| <= 512 && o + |piece| <= MAXFILE * 512
    requires StepBytes(d, ino, d2, ino2, o, piece, m)
    ensures BytesAre(d2, ino2, Patch(c, off, src + piece))
  {
    PatchMore(c, off, src, piece);
    PatchedBytes(d, ino, d2, ino2, Patch(c, off, src), o, piece, m);
  }

  lemma WrittenMore(sb: Super, d0: Disk, t0: seq<Inode>, d: Disk, tab: seq<Inode>, d2: Disk, tab1: seq<Inode>,
                    i: nat, off: nat, src: seq<Byte>, piece: seq<Byte>, m: nat, o: nat)
    requires Written(sb, d0, t0, d, tab, i, off, src) && o == off + |src| && m == Max(Ceil(t0[i].size), Ceil(o))
    requires OthersKept(sb, d0, t0, d2, tab1, i) && WellFormed(sb, tab1[i]) && tab1[i].(addrs := tab[i].addrs) == tab[i]
    requires |piece| > 0 && o % 512 + |piece| <= 512 && o + |piece| <= MAXFILE * 512
    requires Mapped(Slots(d2, tab1[i]), Max(m, o / 512 + 1))
    requires o / 512 < m ==> tab1 == tab
    requires StepBytes(d, tab[i], d2, tab1[i], o, piece, m)
    ensures Written(sb, d0, t0, d2, tab1, i, off, src + piece)
  {
    CeilPiece(t0[i].size, o, |piece|, m);
    MoreBytes(d, tab[i], d2, tab1[i], Content(d0, t0[i]), off, src, piece, m, o);
    WrittenIntro(sb, d0, t0, d2, tab1, i, off, src + piece, Max(m, o / 512 + 1));
  }

  lemma PatchedBytes(d: Disk, ino: Inode, d2: Disk, ino2: Inode, c: seq<Byte>, o: nat, piece: seq<Byte>, m: nat)
    requires |ino.addrs| == NDIRECT + 1 && 0 <= ino.addrs[NDIRECT] < |d|
    requires |ino2.addrs| == NDIRECT + 1 && 0 <= ino2.addrs[NDIRECT] < |d2| && m <= MAXFILE
    requires o <= |c| <= 512 * m && BytesAre(d, ino, c)
    requires |piece| > 0 && o % 512 + |piece| <= 512 && o + |piece| <= MAXFILE * 512
    requires StepBytes(d, ino, d2, ino2, o, piece, m)
    ensures BytesAre(d2, ino2, Patch(c, o, piece))
  {
  }

  // ---------- how many blocks a write logs ----------

  ghost function Pointer(ino: Inode): set<int>
    requires |ino.addrs| == NDIRECT + 1
  {
    if ino.addrs[NDIRECT] == 0 then {} else {ino.addrs[NDIRECT]}
  }

  ghost predicate PointerKept(ino: Inode, ino': Inode) {
    && |ino.addrs| == NDIRECT + 1 == |ino'.addrs|
    && (ino'.addrs[NDIRECT] != ino.addrs[NDIRECT] ==> ino.addrs[NDIRECT] == 0)
  }

  function NewPointer(ino: Inode, ino': Inode): nat
    requires |ino.addrs| == NDIRECT + 1 == |ino'.addrs|
  {
    if ino.addrs[NDIRECT] == 0 && ino'.addrs[NDIRECT] != 0 then 1 else 0
  }

  /** Since dirty0, at most rounds data blocks were logged, free-map blocks for at most grew
      data blocks and a new indirect block, and the indirect block. */
  ghost predicate Spent(dirty0: set<int>, dirty: set<int>, data: set<int>, bm: set<int>, ino0: Inode, ino: Inode,
                        rounds: int, grew: int) {
    && PointerKept(ino0, ino)
    && dirty <= dirty0 + data + bm + Pointer(ino)
    && |data| <= rounds && |bm| <= grew + NewPointer(ino0, ino)
  }

  lemma SpentMore(dirty0: set<int>, dirty: set<int>, data: set<int>, bm: set<int>, ino0: Inode, ino: Inode,
                  rounds: int, grew: int, dirty': set<int>, a: int, bm': set<int>, ino': Inode, grew': int)
    requires Spent(dirty0, dirty, data, bm, ino0, ino, rounds, grew) && PointerKept(ino, ino')
    requires dirty' <= dirty + bm' + {a} + Pointer(ino') && |bm'| <= grew' - grew + NewPointer(ino, ino')
    ensures Spent(dirty0, dirty', data + {a}, bm + bm', ino0, ino', rounds + 1, grew')
  {
    UnionSize(bm, bm');
    UnionSize(data, {a});
  }

  lemma UnionSize(a: set<int>, b: set<int>)
    ensures |a + b| <= |a| + |b|
  {
    assert a + b == a + (b - a);
    assert b == (b - a) + (b * a);
  }

  lemma SubsetSize(a: set<int>, b: set<int>)
    requires a <= b
    ensures |a| <= |b|
  {
    assert b == a + (b - a);
  }

  lemma SpentTotal(dirty0: set<int>, dirty: set<int>, data: set<int>, bm: set<int>, ino0: Inode, ino: Inode,
                   rounds: int, grew: int)
    requires Spent(dirty0, dirty, data, bm, ino0, ino, rounds, grew)
    ensures |dirty| <= |dirty0| + rounds + grew + 2
  {
    SubsetSize(dirty, dirty0 + data + bm + Pointer(ino));
    UnionSize(dirty0 + data + bm, Pointer(ino));
    UnionSize(dirty0 + data, bm);
    UnionSize(dirty0, data);
  }

  /** Blocks that writing n bytes at off into a file of the given size may log: one for every
      block touched, one free-map block for every block added, and the indirect block, its
      free-map block and the inode. */
  function WriteCost(size: nat, off: nat, n: nat): int {
    Ceil(off + n) - off / 512 + (Max(Ceil(size), Ceil(off + n)) - Ceil(size)) + 3
  }

  /** filewrite's chunk fits one operation, aligned or not. */
  lemma ChunkFits(size: nat, off: nat, n: nat)
    requires off <= size && n <= 1536
    ensures WriteCost(size, off, n) <= 10
  {
    assert Ceil(off + n) - off / 512 <= 4;
    if off % 512 != 0 {
      assert Ceil(size) >= off / 512 + 1;
    } else {
      assert Ceil(size) >= off / 512;
      assert Ceil(off + n) - off / 512 <= 3;
    }
  }
}
