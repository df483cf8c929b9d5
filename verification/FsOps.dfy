// filewrite of Ass2/file.c: a write of any length, one logged operation per chunk.

module FsOps {
  import opened Params
  import opened Codec
  import opened FsModel
  import opened FsLemmas
  import opened FsFile
  import opened FsWrite
  import opened FsCode
  import opened FsSpace
  import opened FsIo

  lemma OthersSameTrans(d: Disk, tab: seq<Inode>, d': Disk, tab': seq<Inode>, d'': Disk, tab'': seq<Inode>, i: nat)
    requires OthersSame(d, tab, d', tab', i) && OthersSame(d', tab', d'', tab'', i)
    ensures OthersSame(d, tab, d'', tab'', i)
  {
    forall j | 0 <= j < |tab| && j != i ensures tab''[j] == tab[j] && Content(d'', tab''[j]) == Content(d, tab[j]) {
      assert Content(d', tab'[j]) == Content(d, tab[j]);
    }
  }

  /** struct file, for an inode. */
  class OpenFile {
    const ip: InodeRef
    var off: nat
    constructor (ip: InodeRef)
      ensures this.ip == ip && off == 0
    {
      this.ip, off := ip, 0;
    }
  }

  predicate Wrote(c: seq<Byte>, off: nat, piece: seq<Byte>, c': seq<Byte>) {
    off <= |c| && c' == Patch(c, off, piece)
  }

  /** One round of filewrite, a logged operation that fits the log's budget. */
  method WriteChunk(fs: FileSys, f: OpenFile, piece: seq<Byte>, ghost off: nat, ghost was: seq<Byte>)
      returns (r: int, ghost c: seq<Byte>)
    requires Healthy(fs.sb, fs.disk, fs.tab) && fs.Has(f.ip) && Content(fs.disk, fs.tab[f.ip.inum]) == was &&
      f.off == off < WORD_LIMIT && 0 < |piece| <= 1536
    requires fs.Traced()
    modifies fs`disk, fs`dirty, fs`trace, fs`tab, fs`ends, f`off, f.ip`addrs, f.ip`size
    ensures fs.Traced()
    ensures r == |piece| || r == -1 || r == -2
    ensures fs.ends == if r == -2 then old(fs.ends) else old(fs.ends) + [fs.disk]
    ensures r == -1 <==> off > old(f.ip.size) || off + |piece| > MAXFILE * 512
    ensures r == -1 ==> fs.disk == old(fs.disk) && fs.tab == old(fs.tab) && f.off == off && fs.Has(f.ip)
    ensures r == -2 ==> Full(fs.sb, fs.disk)
    ensures r == -2 ==> !Enough(fs.sb, old(fs.disk), Ceil(old(fs.tab)[f.ip.inum].size), Ceil(off + |piece|))
    ensures r >= 0 ==> Enough(fs.sb, old(fs.disk), Ceil(old(fs.tab)[f.ip.inum].size), Ceil(off + |piece|))
    ensures r >= 0 ==> Healthy(fs.sb, fs.disk, fs.tab) && fs.Has(f.ip) && f.off == off + |piece|
    ensures r >= 0 ==> OthersSame(old(fs.disk), old(fs.tab), fs.disk, fs.tab, f.ip.inum)
    ensures r >= 0 ==> Content(fs.disk, fs.tab[f.ip.inum]) == c && Wrote(was, off, piece, c)
  {
    ghost var i, d0, t0 := f.ip.inum, fs.disk, fs.tab;
    fs.BeginOp();
    ChunkFits(Max(f.ip.size, f.off), f.off, |piece|);
    r := Writei(fs, f.ip, piece, f.off);
    c := was;
    if r > 0 {
      c := Content(fs.disk, fs.tab[i]);
      f.off := f.off + r;
      HealthyKept(fs.sb, d0, t0, fs.disk, fs.tab, i);
    }
    if r != -2 {
      fs.EndOp();
    }
  }

  lemma PatchNext(c: seq<Byte>, off: nat, src: seq<Byte>, k: nat, k': nat)
    requires off <= |c| && k <= k' <= |src|
    ensures Patch(Patch(c, off, src[..k]), off + k, src[k..k']) == Patch(c, off, src[..k'])
  {
    PatchMore(c, off, src[..k], src[k..k']);
    TakeMore(src, k, k');
  }

  // ---------- what each operation of a write leaves ----------

  /** All inodes, as the disk has them. */
  ghost function TableOf(sb: Super, d: Disk): (tab: seq<Inode>)
    requires sb.Valid() && |d| == sb.size
    ensures |tab| == sb.ninodes
  {
    InodesInRange(sb);
    seq(sb.ninodes, i requires 0 <= i < sb.ninodes => InodeAt(sb, d, i))
  }

  lemma TableIs(sb: Super, d: Disk, tab: seq<Inode>)
    requires Healthy(sb, d, tab)
    ensures TableOf(sb, d) == tab
  {
  }

  /** The end of the m-th chunk of n bytes. */
  function ChunkPos(n: nat, m: nat): nat {
    if 1536 * m <= n then 1536 * m else n
  }

  /** Where the chunk behind byte k of n ends. */
  function NextChunk(n: nat, k: nat): int {
    k + Min(n - k, 1536)
  }

  /** Where a write of src is split. */
  ghost predicate ChunkEnd(src: seq<Byte>, j: nat) {
    exists m: nat :: j == ChunkPos(|src|, m)
  }

  lemma FirstEnd(src: seq<Byte>)
    ensures ChunkEnd(src, 0)
  {
    assert 0 == ChunkPos(|src|, 0);
  }

  lemma NextEnd(src: seq<Byte>, j: nat, j': nat)
    requires ChunkEnd(src, j) && j < |src| && j' == j + Min(|src| - j, 1536)
    ensures ChunkEnd(src, j')
  {
    var m: nat :| j == ChunkPos(|src|, m);
    assert j' == ChunkPos(|src|, m + 1);
  }

  /** Disk d is d0 after the first j bytes of a write of src to inode i at off: sound, with
      that in the file and every other file as it was. */
  ghost predicate AtChunk(sb: Super, d0: Disk, d: Disk, i: nat, off: nat, src: seq<Byte>, j: nat) {
    && sb.Valid() && |d0| == |d| == sb.size && i < sb.ninodes && j <= |src|
    && Healthy(sb, d0, TableOf(sb, d0)) && Healthy(sb, d, TableOf(sb, d))
    && OthersSame(d0, TableOf(sb, d0), d, TableOf(sb, d), i)
    && var c0 := Content(d0, TableOf(sb, d0)[i]);
       Content(d, TableOf(sb, d)[i]) == if off <= |c0| then Patch(c0, off, src[..j]) else c0
  }

  ghost predicate SomeChunk(sb: Super, d0: Disk, d: Disk, i: nat, off: nat, src: seq<Byte>) {
    exists j :: ChunkEnd(src, j) && AtChunk(sb, d0, d, i, off, src, j)
  }

  lemma ChunkIs(sb: Super, a: Snap, b: Snap, i: nat, off: nat, src: seq<Byte>)
    requires Sound(sb, a, i, src) && Sound(sb, b, i, src) && OthersSame(a.d, a.tab, b.d, b.tab, i) && b.j <= |src|
    requires if off <= |a.c| then b.c == Patch(a.c, off, src[..b.j]) else b.c == a.c
    ensures SomeChunk(sb, a.d, b.d, i, off, src)
  {
    TableIs(sb, a.d, a.tab);
    TableIs(sb, b.d, b.tab);
    assert AtChunk(sb, a.d, b.d, i, off, src, b.j);
  }

  // ---------- the rounds of filewrite ----------

  /** The disk and inodes after some rounds, j bytes on, with c in the file. */
  datatype Snap = Snap(d: Disk, tab: seq<Inode>, j: nat, c: seq<Byte>)

  /** From a to b a chunk more is in the file; nothing if the round failed. */
  ghost predicate RoundOk(a: Snap, b: Snap, off: nat, src: seq<Byte>) {
    if b.j == a.j then b == a else a.j < b.j <= |src| && Wrote(a.c, off + a.j, src[a.j..b.j], b.c)
  }

  ghost predicate RoundAt(tr: seq<Snap>, q: nat, off: nat, src: seq<Byte>)
    requires 0 < q < |tr|
  {
    RoundOk(tr[q - 1], tr[q], off, src)
  }

  /** Against the first, no other file has changed. */
  ghost predicate KeptAt(tr: seq<Snap>, q: nat, i: nat)
    requires q < |tr|
  {
    OthersSame(tr[0].d, tr[0].tab, tr[q].d, tr[q].tab, i)
  }

  ghost predicate Holds(sb: Super, x: Snap, i: nat) {
    Healthy(sb, x.d, x.tab) && i < |x.tab| && Content(x.d, x.tab[i]) == x.c
  }

  ghost predicate Sound(sb: Super, x: Snap, i: nat, src: seq<Byte>) {
    Holds(sb, x, i) && ChunkEnd(src, x.j)
  }

  ghost predicate SoundAt(sb: Super, tr: seq<Snap>, q: nat, i: nat, src: seq<Byte>)
    requires q < |tr|
  {
    Sound(sb, tr[q], i, src)
  }

  ghost predicate Trail(sb: Super, tr: seq<Snap>, i: nat, off: nat, src: seq<Byte>) {
    && |tr| > 0 && tr[0].j == 0
    && (forall q :: 0 < q < |tr| ==> RoundAt(tr, q, off, src))
    && (forall q :: 0 <= q < |tr| ==> KeptAt(tr, q, i))
    && forall q :: 0 <= q < |tr| ==> SoundAt(sb, tr, q, i, src)
  }

  /** The disks of a trail after the first were added to the operations' ends. */
  ghost predicate Ending(tr: seq<Snap>, ends0: seq<Disk>, ends: seq<Disk>) {
    && |tr| > 0 && |ends| == |ends0| + |tr| - 1 && (forall q :: 0 <= q < |ends0| ==> ends[q] == ends0[q])
    && forall q :: |ends0| <= q < |ends| ==> ends[q] == tr[q - |ends0| + 1].d
  }

  lemma EndingMore(tr: seq<Snap>, ends0: seq<Disk>, ends: seq<Disk>, b: Snap, ends': seq<Disk>)
    requires Ending(tr, ends0, ends) && ends' == ends + [b.d]
    ensures Ending(tr + [b], ends0, ends')
  {
  }

  lemma TrailStart(sb: Super, a: Snap, i: nat, off: nat, src: seq<Byte>)
    requires Sound(sb, a, i, src) && a.j == 0
    ensures Trail(sb, [a], i, off, src)
  {
    assert SoundAt(sb, [a], 0, i, src) && KeptAt([a], 0, i);
  }

  lemma KeptMore(tr: seq<Snap>, b: Snap, i: nat)
    requires |tr| > 0 && KeptAt(tr, |tr| - 1, i)
    requires OthersSame(tr[|tr| - 1].d, tr[|tr| - 1].tab, b.d, b.tab, i)
    ensures KeptAt(tr + [b], |tr|, i)
  {
    OthersSameTrans(tr[0].d, tr[0].tab, tr[|tr| - 1].d, tr[|tr| - 1].tab, b.d, b.tab, i);
  }

  lemma RoundsMore(tr: seq<Snap>, b: Snap, off: nat, src: seq<Byte>)
    requires |tr| > 0 && RoundOk(tr[|tr| - 1], b, off, src) && forall q :: 0 < q < |tr| ==> RoundAt(tr, q, off, src)
    ensures forall q :: 0 < q < |tr| + 1 ==> RoundAt(tr + [b], q, off, src)
  {
    forall q | 0 < q < |tr| + 1 ensures RoundAt(tr + [b], q, off, src) {
      if q < |tr| { assert RoundAt(tr, q, off, src); }
    }
  }

  lemma AllKeptMore(tr: seq<Snap>, b: Snap, i: nat)
    requires |tr| > 0 && forall q :: 0 <= q < |tr| ==> KeptAt(tr, q, i)
    requires OthersSame(tr[|tr| - 1].d, tr[|tr| - 1].tab, b.d, b.tab, i)
    ensures forall q :: 0 <= q < |tr| + 1 ==> KeptAt(tr + [b], q, i)
  {
    assert KeptAt(tr, |tr| - 1, i);
    KeptMore(tr, b, i);
    forall q | 0 <= q < |tr| + 1 ensures KeptAt(tr + [b], q, i) {
      if q < |tr| { assert KeptAt(tr, q, i); }
    }
  }

  lemma AllSoundMore(sb: Super, tr: seq<Snap>, b: Snap, i: nat, src: seq<Byte>)
    requires Sound(sb, b, i, src) && forall q :: 0 <= q < |tr| ==> SoundAt(sb, tr, q, i, src)
    ensures forall q :: 0 <= q < |tr| + 1 ==> SoundAt(sb, tr + [b], q, i, src)
  {
    forall q | 0 <= q < |tr| + 1 ensures SoundAt(sb, tr + [b], q, i, src) {
      if q < |tr| { assert SoundAt(sb, tr, q, i, src); }
    }
  }

  lemma TrailMore(sb: Super, tr: seq<Snap>, i: nat, off: nat, src: seq<Byte>, b: Snap)
    requires Trail(sb, tr, i, off, src) && RoundOk(tr[|tr| - 1], b, off, src) && Sound(sb, b, i, src)
    requires OthersSame(tr[|tr| - 1].d, tr[|tr| - 1].tab, b.d, b.tab, i)
    ensures Trail(sb, tr + [b], i, off, src)
  {
    RoundsMore(tr, b, off, src);
    AllKeptMore(tr, b, i);
    AllSoundMore(sb, tr, b, i, src);
  }

  /** b is not what an operation that writes piece at o makes of x. */
  ghost predicate Amiss(sb: Super, x: Snap, b: Snap, i: nat, o: nat, piece: seq<Byte>) {
    !(Wrote(x.c, o, piece, b.c) && Holds(sb, b, i) && OthersSame(x.d, x.tab, b.d, b.tab, i))
  }

  lemma RoundIs(a: Snap, b: Snap, off: nat, src: seq<Byte>, j: nat, j': nat)
    requires a.j == j < j' == b.j <= |src|
    ensures Wrote(a.c, off + j, src[j..j'], b.c) ==> RoundOk(a, b, off, src)
  {
  }

  /** A trail goes on with a round that wrote src[j..j']. */
  lemma TrailWrote(sb: Super, tr: seq<Snap>, i: nat, off: nat, src: seq<Byte>, b: Snap, j: nat, j': nat)
    requires Trail(sb, tr, i, off, src) && tr[|tr| - 1].j == j < |src| && b.j == j' == j + Min(|src| - j, 1536)
    requires !Amiss(sb, tr[|tr| - 1], b, i, off + j, src[j..j'])
    ensures Trail(sb, tr + [b], i, off, src)
  {
    assert SoundAt(sb, tr, |tr| - 1, i, src);
    assert ChunkEnd(src, j') by { NextEnd(src, j, j'); }
    RoundIs(tr[|tr| - 1], b, off, src, j, j');
    TrailMore(sb, tr, i, off, src, b);
  }

  /** And with one that failed. */
  lemma TrailStays(sb: Super, tr: seq<Snap>, i: nat, off: nat, src: seq<Byte>)
    requires Trail(sb, tr, i, off, src)
    ensures Trail(sb, tr + [tr[|tr| - 1]], i, off, src)
  {
    assert SoundAt(sb, tr, |tr| - 1, i, src) && KeptAt(tr, |tr| - 1, i);
    TrailMore(sb, tr, i, off, src, tr[|tr| - 1]);
  }

  /** So the file holds the first bytes of src; none if the write starts behind its end. */
  lemma {:induction false} TrailContent(sb: Super, tr: seq<Snap>, i: nat, off: nat, src: seq<Byte>, q: nat)
    requires Trail(sb, tr, i, off, src) && q < |tr|
    ensures tr[q].j <= |src|
    ensures if off <= |tr[0].c| then tr[q].c == Patch(tr[0].c, off, src[..tr[q].j]) else tr[q] == tr[0]
  {
    var c0 := tr[0].c;
    if q == 0 {
      if off <= |c0| { assert Patch(c0, off, []) == c0; }
    } else {
      TrailContent(sb, tr, i, off, src, q - 1);
      assert RoundAt(tr, q, off, src);
      if tr[q] != tr[q - 1] && off <= |c0| { PatchNext(c0, off, src, tr[q - 1].j, tr[q].j); }
    }
  }

  /** What the write has added to its file is gone from the free blocks, and nothing else. */
  lemma TrailSpace(sb: Super, tr: seq<Snap>, i: nat, off: nat, src: seq<Byte>, q: nat)
    requires Trail(sb, tr, i, off, src) && q < |tr|
    ensures SoundAt(sb, tr, 0, i, src) && SoundAt(sb, tr, q, i, src)
    ensures Spare(sb, tr[0].d) + Blocks(Ceil(tr[0].tab[i].size)) == Spare(sb, tr[q].d) + Blocks(Ceil(tr[q].tab[i].size))
  {
    assert SoundAt(sb, tr, 0, i, src) && SoundAt(sb, tr, q, i, src) && KeptAt(tr, q, i);
    HealthySpace(sb, tr[0].d, tr[0].tab, tr[q].d, tr[q].tab, i);
  }

  /** So the free blocks the rest of the write needs are there exactly if they were at the start. */
  lemma TrailNeed(sb: Super, tr: seq<Snap>, i: nat, off: nat, src: seq<Byte>, q: nat, e: nat)
    requires Trail(sb, tr, i, off, src) && q < |tr| && off <= |tr[0].c| && off + tr[q].j <= e
    ensures SoundAt(sb, tr, 0, i, src) && SoundAt(sb, tr, q, i, src)
    ensures Enough(sb, tr[q].d, Ceil(tr[q].tab[i].size), Ceil(e)) <==>
      Enough(sb, tr[0].d, Ceil(tr[0].tab[i].size), Ceil(e))
  {
    TrailSpace(sb, tr, i, off, src, q);
    TrailSize(sb, tr, i, off, src, q);
    CeilBetween(tr[0].tab[i].size, off + tr[q].j, e);
  }

  lemma TrailSize(sb: Super, tr: seq<Snap>, i: nat, off: nat, src: seq<Byte>, q: nat)
    requires Trail(sb, tr, i, off, src) && q < |tr| && off <= |tr[0].c|
    ensures SoundAt(sb, tr, 0, i, src) && SoundAt(sb, tr, q, i, src)
    ensures tr[q].tab[i].size == Max(tr[0].tab[i].size, off + tr[q].j)
  {
    assert SoundAt(sb, tr, 0, i, src) && SoundAt(sb, tr, q, i, src);
    TrailContent(sb, tr, i, off, src, q);
  }

  /** From x the chunk from o to o', if it fits in the file, fits on the disk. */
  ghost predicate Goes(sb: Super, x: Snap, i: nat, o: nat, o': nat) {
    sb.Valid() && |x.d| == sb.size && i < |x.tab| && o <= x.tab[i].size && o' <= MAXFILE * 512 ==>
      Enough(sb, x.d, Ceil(x.tab[i].size), Ceil(o'))
  }

  /** A write that is stuck lacked the blocks for its next chunk from the start. */
  lemma TrailStuck(sb: Super, tr: seq<Snap>, i: nat, off: nat, src: seq<Byte>, j: nat, j': nat)
    requires Trail(sb, tr, i, off, src) && tr[|tr| - 1].j == j <= j' && !Goes(sb, tr[|tr| - 1], i, off + j, off + j')
    ensures !Goes(sb, tr[0], i, off, off + j')
  {
    assert SoundAt(sb, tr, 0, i, src);
    TrailContent(sb, tr, i, off, src, |tr| - 1);
    TrailNeed(sb, tr, i, off, src, |tr| - 1, off + j');
  }

  /** What it has written there were blocks for. */
  lemma TrailPaid(sb: Super, tr: seq<Snap>, i: nat, off: nat, src: seq<Byte>, q: nat)
    requires Trail(sb, tr, i, off, src) && q < |tr|
    ensures Goes(sb, tr[0], i, off, off + tr[q].j)
  {
    assert SoundAt(sb, tr, 0, i, src);
    if off <= |tr[0].c| {
      TrailSize(sb, tr, i, off, src, q);
      TrailNeed(sb, tr, i, off, src, q, off + tr[q].j);
      CeilBetween(tr[0].tab[i].size, off + tr[q].j, off + tr[q].j);
    }
  }

  lemma CeilBetween(size: nat, o: nat, e: nat)
    requires o <= e
    ensures Max(Ceil(Max(size, o)), Ceil(e)) == Max(Ceil(size), Ceil(e))
  {
  }

  lemma HealthySpace(sb: Super, d: Disk, tab: seq<Inode>, d': Disk, tab': seq<Inode>, i: nat)
    requires Healthy(sb, d, tab) && Healthy(sb, d', tab') && i < |tab| && OthersSame(d, tab, d', tab', i)
    ensures Spare(sb, d) + Blocks(Ceil(tab[i].size)) == Spare(sb, d') + Blocks(Ceil(tab'[i].size))
  {
    forall j | 0 <= j < |tab|
      ensures Filled(Slots(d, tab[j])) == Blocks(Ceil(tab[j].size))
      ensures Filled(Slots(d', tab'[j])) == Blocks(Ceil(tab'[j].size))
    {
      MappedFilled(Slots(d, tab[j]), Ceil(tab[j].size));
      MappedFilled(Slots(d', tab'[j]), Ceil(tab'[j].size));
    }
    SpaceKept(sb, d, tab, d', tab', i);
  }

  lemma TrailChunk(sb: Super, tr: seq<Snap>, i: nat, off: nat, src: seq<Byte>, q: nat)
    requires Trail(sb, tr, i, off, src) && q < |tr|
    ensures SomeChunk(sb, tr[0].d, tr[q].d, i, off, src)
  {
    TrailContent(sb, tr, i, off, src, q);
    assert SoundAt(sb, tr, 0, i, src) && SoundAt(sb, tr, q, i, src) && KeptAt(tr, q, i);
    ChunkIs(sb, tr[0], tr[q], i, off, src);
  }

  /** One round of filewrite, as a step from snapshot x. */
  method WriteRound(fs: FileSys, f: OpenFile, piece: seq<Byte>, ghost o: nat, ghost x: Snap)
      returns (w: int, ghost b: Snap)
    requires fs.Has(f.ip) && f.off == o < WORD_LIMIT && 0 < |piece| <= 1536
    requires x.d == fs.disk && x.tab == fs.tab && Holds(fs.sb, x, f.ip.inum)
    requires fs.Traced()
    modifies fs`disk, fs`dirty, fs`trace, fs`tab, fs`ends, f`off, f.ip`addrs, f.ip`size
    ensures fs.Traced()
    ensures w == |piece| || w == -1 || w == -2
    ensures fs.ends == if w == -2 then old(fs.ends) else old(fs.ends) + [fs.disk]
    ensures w == -2 ==> Full(fs.sb, fs.disk) && !Goes(fs.sb, x, f.ip.inum, o, o + |piece|)
    ensures w == -1 ==> (o > f.ip.size || o + |piece| > MAXFILE * 512) && f.off == o && b == x
    ensures w >= 0 ==> f.off == o + |piece| <= MAXFILE * 512 && b.j == x.j + |piece|
    ensures w != -2 ==> fs.Has(f.ip) && b.d == fs.disk && b.tab == fs.tab
    ensures w >= 0 ==> !Amiss(fs.sb, x, b, f.ip.inum, o, piece)
  {
    ghost var c;
    w, c := WriteChunk(fs, f, piece, o, x.c);
    b := x;
    if w >= 0 {
      b := Snap(fs.disk, fs.tab, x.j + |piece|, c);
    }
  }

  /** The same, with the trail it extends. */
  method NextRound(fs: FileSys, f: OpenFile, src: seq<Byte>, j: nat, j': nat, ghost off: nat, ghost tr: seq<Snap>,
      ghost ends0: seq<Disk>)
    returns (w: int, ghost tr': seq<Snap>)
    requires fs.Has(f.ip) && f.off == off + j < WORD_LIMIT && j < |src| && j' == j + Min(|src| - j, 1536)
    requires fs.sb.Valid() && Trail(fs.sb, tr, f.ip.inum, off, src) && Ending(tr, ends0, fs.ends)
    requires tr[|tr| - 1].d == fs.disk && tr[|tr| - 1].tab == fs.tab && tr[|tr| - 1].j == j
    requires fs.Traced()
    modifies fs`disk, fs`dirty, fs`trace, fs`tab, fs`ends, f`off, f.ip`addrs, f.ip`size
    ensures fs.Traced()
    ensures w == j' - j || w == -1 || w == -2
    ensures Trail(fs.sb, tr', f.ip.inum, off, src) && Ending(tr', ends0, fs.ends) && tr'[0] == tr[0]
    ensures w == -2 ==>
      Full(fs.sb, fs.disk) && tr' == tr && !Goes(fs.sb, tr[|tr| - 1], f.ip.inum, off + j, off + j')
    ensures w == -1 ==> (off + j > f.ip.size || off + j' > MAXFILE * 512) && f.off == off + j && tr'[|tr'| - 1].j == j
    ensures w >= 0 ==> f.off == off + j' <= MAXFILE * 512 && tr'[|tr'| - 1].j == j'
    ensures w != -2 ==> fs.Has(f.ip) && tr'[|tr'| - 1].d == fs.disk && tr'[|tr'| - 1].tab == fs.tab
  {
    ghost var b, e1 := tr[0], fs.ends;
    assert SoundAt(fs.sb, tr, |tr| - 1, f.ip.inum, src);
    w, b := WriteRound(fs, f, src[j..j'], off + j, tr[|tr| - 1]);
    tr' := tr;
    if w != -2 {
      if w >= 0 {
        TrailWrote(fs.sb, tr, f.ip.inum, off, src, b, j, j');
      } else {
        TrailStays(fs.sb, tr, f.ip.inum, off, src);
      }
      EndingMore(tr, ends0, e1, b, fs.ends);
      tr' := tr + [b];
    }
  }

  /** filewrite's loop, with its trail. */
  method WriteChunks(fs: FileSys, f: OpenFile, src: seq<Byte>, ghost a: Snap)
      returns (r: int, j: nat, ghost tr: seq<Snap>)
    requires fs.sb.Valid() && fs.Has(f.ip) && f.off < WORD_LIMIT && Trail(fs.sb, [a], f.ip.inum, f.off, src) &&
      a.d == fs.disk && a.tab == fs.tab && a.j == 0
    requires fs.Traced()
    modifies fs`disk, fs`dirty, fs`trace, fs`tab, fs`ends, f`off, f.ip`addrs, f.ip`size
    ensures fs.Traced()
    ensures j <= |src| && (r == |src| || r == -1 || r == -2) && (r == |src| ==> j == |src|)
    ensures Ending(tr, old(fs.ends), fs.ends) && Trail(fs.sb, tr, f.ip.inum, old(f.off), src) && tr[0] == a
    ensures r == -2 ==> Full(fs.sb, fs.disk)
    ensures r == -2 ==>
      && j < |src| && tr[|tr| - 1].j == j
      && !Goes(fs.sb, tr[|tr| - 1], f.ip.inum, old(f.off) + j, old(f.off) + j + Min(|src| - j, 1536))
    ensures r == -1 ==>
      j < |src| && (old(f.off) + j > f.ip.size || old(f.off) + j + Min(|src| - j, 1536) > MAXFILE * 512)
    ensures r != -2 ==> old(f.off) + j <= MAXFILE * 512 || j == 0
    ensures r != -2 ==>
      fs.Has(f.ip) && f.off == old(f.off) + j && tr[|tr| - 1].d == fs.disk && tr[|tr| - 1].tab == fs.tab &&
      tr[|tr| - 1].j == j
  {
    ghost var i, off, e0 := f.ip.inum, f.off, fs.ends;
    tr := [a];
    j := 0;
    while j < |src|
      invariant 0 <= j <= |src| && f.off == off + j < WORD_LIMIT && fs.Has(f.ip)
      invariant Ending(tr, e0, fs.ends) && Trail(fs.sb, tr, i, off, src) && tr[0] == a && fs.Traced()
      invariant tr[|tr| - 1].d == fs.disk && tr[|tr| - 1].tab == fs.tab && tr[|tr| - 1].j == j
      invariant off + j <= MAXFILE * 512 || j == 0
    {
      var j' := j + Min(|src| - j, 1536);
      var w;
      w, tr := NextRound(fs, f, src, j, j', off, tr, e0);
      if w < 0 {
        return w, j, tr;
      }
      j := j';
    }
    r := |src|;
  }

  /** The same, with what the free blocks at the start had to say. */
  method WriteTrail(fs: FileSys, f: OpenFile, src: seq<Byte>, ghost a: Snap)
      returns (r: int, j: nat, ghost tr: seq<Snap>)
    requires fs.sb.Valid() && fs.Has(f.ip) && f.off < WORD_LIMIT && Trail(fs.sb, [a], f.ip.inum, f.off, src) &&
      a.d == fs.disk && a.tab == fs.tab && a.j == 0
    requires fs.Traced()
    modifies fs`disk, fs`dirty, fs`trace, fs`tab, fs`ends, f`off, f.ip`addrs, f.ip`size
    ensures fs.Traced()
    ensures j <= |src| && (r == |src| || r == -1 || r == -2) && (r == |src| ==> j == |src|)
    ensures Ending(tr, old(fs.ends), fs.ends) && Trail(fs.sb, tr, f.ip.inum, old(f.off), src) && tr[0] == a
    ensures r == -2 ==> Full(fs.sb, fs.disk)
    ensures r == -2 ==> j < |src| && !Goes(fs.sb, a, f.ip.inum, old(f.off), old(f.off) + NextChunk(|src|, j))
    ensures r == -1 ==>
      j < |src| && (old(f.off) + j > f.ip.size || old(f.off) + NextChunk(|src|, j) > MAXFILE * 512)
    ensures r != -2 ==>
      fs.Has(f.ip) && f.off == old(f.off) + j && tr[|tr| - 1].d == fs.disk && tr[|tr| - 1].tab == fs.tab &&
      tr[|tr| - 1].j == j
  {
    ghost var i, off := f.ip.inum, f.off;
    r, j, tr := WriteChunks(fs, f, src, a);
    if r == -2 {
      TrailStuck(fs.sb, tr, i, off, src, j, NextChunk(|src|, j));
    }
  }

  /** filewrite: k bytes of src are in the file and the offset moved by k; all of them, or the
      next chunk does not fit.  -2 when the disk is full.  After each of its operations the
      disk is sound and holds src up to the end of a chunk. */
  method FileWrite(fs: FileSys, f: OpenFile, src: seq<Byte>) returns (r: int, ghost k: nat, ghost tr: seq<Snap>)
    requires Healthy(fs.sb, fs.disk, fs.tab) && fs.Has(f.ip) && f.off < WORD_LIMIT
    modifies fs`disk, fs`dirty, fs`start, fs`trace, fs`tab, fs`ends, f`off, f.ip`addrs, f.ip`size
    ensures k <= |src| && (r == |src| || r == -1 || r == -2) && (r == |src| ==> k == |src|)
    ensures Ending(tr, [], fs.ends) && Trail(fs.sb, tr, f.ip.inum, old(f.off), src)
    ensures fs.Traced() && fs.start == old(fs.disk) == tr[0].d && tr[0].tab == old(fs.tab)
    ensures r == -2 ==> Full(fs.sb, fs.disk)
    ensures r == -2 ==> k < |src| && !Goes(fs.sb, tr[0], f.ip.inum, old(f.off), old(f.off) + NextChunk(|src|, k))
    ensures r == -1 ==>
      k < |src| && (old(f.off) + k > f.ip.size || old(f.off) + NextChunk(|src|, k) > MAXFILE * 512)
    ensures r != -2 ==> fs.Has(f.ip) && f.off == old(f.off) + k && Healthy(fs.sb, fs.disk, fs.tab)
    ensures r != -2 ==>
      Spare(fs.sb, old(fs.disk)) + Blocks(Ceil(old(fs.tab)[f.ip.inum].size)) ==
      Spare(fs.sb, fs.disk) + Blocks(Ceil(fs.tab[f.ip.inum].size))
    ensures r != -2 ==> OthersSame(old(fs.disk), old(fs.tab), fs.disk, fs.tab, f.ip.inum)
    ensures r != -2 && old(f.off) > old(f.ip.size) ==> k == 0 && fs.disk == old(fs.disk) && fs.tab == old(fs.tab)
    ensures r != -2 && old(f.off) <= old(f.ip.size) ==>
      Content(fs.disk, fs.tab[f.ip.inum]) == Patch(old(Content(fs.disk, fs.tab[f.ip.inum])), old(f.off), src[..k])
  {
    ghost var i, off := f.ip.inum, f.off;
    fs.Restart();
    FirstEnd(src);
    ghost var a := Snap(fs.disk, fs.tab, 0, Content(fs.disk, fs.tab[i]));
    TrailStart(fs.sb, a, i, off, src);
    var j;
    r, j, tr := WriteTrail(fs, f, src, a);
    k := j;
    ghost var m := |tr| - 1;
    TrailContent(fs.sb, tr, i, off, src, m);
    TrailSpace(fs.sb, tr, i, off, src, m);
    assert SoundAt(fs.sb, tr, m, i, src) && KeptAt(tr, m, i);
  }
}
