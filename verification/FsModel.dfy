// The on-disk structures of Ass2/fs.c as functions of the disk contents: free map, inode
// table, block map, file contents, and who owns which block.

module FsModel {
  import opened Codec

  const NDIRECT := 12
  const NINDIRECT := WORDS
  const MAXFILE := NDIRECT + NINDIRECT
  const SLOTS := NDIRECT + 1 + NINDIRECT   // direct, the indirect pointer, its entries

  // A free-map block holds 4096 bits (BPB), an inode block 8 inodes of 64 bytes (IPB), and
  // a block 512 bytes (BSIZE); the literals are written out where they divide.

  /** struct superblock, and the first data block. */
  datatype Super = Super(size: nat, ninodes: nat, inodestart: nat, bmapstart: nat, datastart: nat) {
    predicate Valid() {
      && 0 < inodestart
      && inodestart + (ninodes + 7) / 8 <= bmapstart
      && bmapstart + (size + 4095) / 4096 <= datastart <= size < WORD_LIMIT
    }
    predicate Data(b: int) {
      datastart <= b < size
    }
  }

  function BBlock(sb: Super, b: nat): nat { b / 4096 + sb.bmapstart }
  function IBlock(sb: Super, i: nat): nat { i / 8 + sb.inodestart }

  /** struct dinode as the 16 words it occupies: type and major, minor and nlink, size,
      NDIRECT + 1 addresses. */
  datatype Inode = Inode(meta0: int, meta1: int, size: int, addrs: seq<int>)

  type Disk = seq<Block>

  // ---------- free map ----------

  predicate Used(sb: Super, d: Disk, b: nat)
    requires b < sb.size && BBlock(sb, b) < |d|
  {
    Bit(d[BBlock(sb, b)][b % 4096 / 8], b % 8)
  }

  /** The free map as a sequence of flags. */
  ghost function Usage(sb: Super, d: Disk): (u: seq<bool>)
    requires sb.Valid() && |d| == sb.size
    ensures |u| == sb.size && forall b :: 0 <= b < sb.size ==> u[b] == Used(sb, d, b)
  {
    MapInRange(sb);
    seq(sb.size, b requires 0 <= b < sb.size => Used(sb, d, b))
  }

  lemma MapInRange(sb: Super)
    requires sb.Valid()
    ensures forall b :: 0 <= b < sb.size ==> sb.bmapstart <= BBlock(sb, b) < sb.datastart
  {
  }

  /** bp->data[bi/8] |= m, or &= ~m, where bi = b % BPB and m = 1 << (bi % 8). */
  function MapBlock(blk: Block, b: nat, v: bool): (r: Block) {
    blk[b % 4096 / 8 := WithBit(blk[b % 4096 / 8], b % 8, v)]
  }

  /** Rewriting one free-map byte changes one flag. */
  function WithUsed(sb: Super, d: Disk, b: nat, v: bool): (d': Disk)
    requires b < sb.size && BBlock(sb, b) < |d|
  {
    d[BBlock(sb, b) := MapBlock(d[BBlock(sb, b)], b, v)]
  }

  lemma UsedAfter(sb: Super, d: Disk, b: nat, v: bool, c: nat)
    requires b < sb.size && BBlock(sb, b) < |d| && c < sb.size && BBlock(sb, c) < |d|
    ensures Used(sb, WithUsed(sb, d, b, v), c) == if c == b then v else Used(sb, d, c)
  {
    if BBlock(sb, b) == BBlock(sb, c) && b % 4096 / 8 == c % 4096 / 8 && b % 8 == c % 8 {
      SameBit(b, c);
    }
  }

  lemma SameBit(b: nat, c: nat)
    requires b / 4096 == c / 4096 && b % 4096 / 8 == c % 4096 / 8 && b % 8 == c % 8
    ensures b == c
  {
    assert b % 4096 == 8 * (b % 4096 / 8) + b % 4096 % 8;
    assert c % 4096 == 8 * (c % 4096 / 8) + c % 4096 % 8;
    ModMod(b);
    ModMod(c);
  }

  lemma ModMod(b: nat)
    ensures b % 4096 % 8 == b % 8
  {
    assert b == 4096 * (b / 4096) + b % 4096;
    assert b == 8 * (512 * (b / 4096)) + b % 4096;
  }

  lemma UsageUpdate(sb: Super, d: Disk, b: nat, v: bool)
    requires sb.Valid() && |d| == sb.size && b < sb.size
    ensures BBlock(sb, b) < |d|
    ensures Usage(sb, WithUsed(sb, d, b, v)) == Usage(sb, d)[b := v]
  {
    MapInRange(sb);
    forall c | 0 <= c < sb.size ensures Usage(sb, WithUsed(sb, d, b, v))[c] == Usage(sb, d)[b := v][c] {
      UsedAfter(sb, d, b, v, c);
    }
  }

  lemma UsageFrame(sb: Super, d: Disk, d': Disk)
    requires sb.Valid() && |d| == sb.size == |d'|
    requires forall m :: sb.bmapstart <= m < sb.datastart ==> d'[m] == d[m]
    ensures Usage(sb, d') == Usage(sb, d)
  {
    MapInRange(sb);
  }

  // ---------- inodes ----------

  /** The k-th inode of an inode block. */
  function InodeIn(b: Block, k: nat): (ino: Inode)
    requires k < 8
    ensures |ino.addrs| == NDIRECT + 1
  {
    Inode(WordAt(b, 16 * k), WordAt(b, 16 * k + 1), WordAt(b, 16 * k + 2),
          seq(NDIRECT + 1, j requires 0 <= j <= NDIRECT => WordAt(b, 16 * k + 3 + j)))
  }

  function InodeAt(sb: Super, d: Disk, i: nat): (ino: Inode)
    requires IBlock(sb, i) < |d|
    ensures |ino.addrs| == NDIRECT + 1
  {
    InodeIn(d[IBlock(sb, i)], i % 8)
  }

  /** An inode block with its k-th inode rewritten. */
  function InodeBlock(b: Block, k: nat, ino: Inode): Block
    requires k < 8 && |ino.addrs| == NDIRECT + 1 && (forall j :: 0 <= j <= NDIRECT ==> 0 <= ino.addrs[j] < WORD_LIMIT)
    requires 0 <= ino.meta0 < WORD_LIMIT && 0 <= ino.meta1 < WORD_LIMIT && 0 <= ino.size < WORD_LIMIT
  {
    PutWords(b, 16 * k, [ino.meta0, ino.meta1, ino.size] + ino.addrs)
  }

  lemma InodeSame(b: Block, k: nat, ino: Inode)
    requires k < 8 && |ino.addrs| == NDIRECT + 1 && (forall j :: 0 <= j <= NDIRECT ==> 0 <= ino.addrs[j] < WORD_LIMIT)
    requires 0 <= ino.meta0 < WORD_LIMIT && 0 <= ino.meta1 < WORD_LIMIT && 0 <= ino.size < WORD_LIMIT
    ensures InodeIn(InodeBlock(b, k, ino), k) == ino
  {
    var ws := [ino.meta0, ino.meta1, ino.size] + ino.addrs;
    assert forall j :: 0 <= j <= NDIRECT ==> ws[3 + j] == ino.addrs[j];
    assert InodeIn(InodeBlock(b, k, ino), k).addrs == ino.addrs;
  }

  lemma InodeOther(b: Block, k: nat, ino: Inode, l: nat)
    requires k < 8 && |ino.addrs| == NDIRECT + 1 && (forall j :: 0 <= j <= NDIRECT ==> 0 <= ino.addrs[j] < WORD_LIMIT)
    requires 0 <= ino.meta0 < WORD_LIMIT && 0 <= ino.meta1 < WORD_LIMIT && 0 <= ino.size < WORD_LIMIT
    requires l < 8 && l != k
    ensures InodeIn(InodeBlock(b, k, ino), l) == InodeIn(b, l)
  {
    assert InodeIn(InodeBlock(b, k, ino), l).addrs == InodeIn(b, l).addrs;
  }

  lemma InodeWritten(b: Block, k: nat, ino: Inode, l: nat)
    requires k < 8 && |ino.addrs| == NDIRECT + 1 && (forall j :: 0 <= j <= NDIRECT ==> 0 <= ino.addrs[j] < WORD_LIMIT)
    requires 0 <= ino.meta0 < WORD_LIMIT && 0 <= ino.meta1 < WORD_LIMIT && 0 <= ino.size < WORD_LIMIT
    requires l < 8
    ensures InodeIn(InodeBlock(b, k, ino), l) == if l == k then ino else InodeIn(b, l)
  {
    if l == k {
      InodeSame(b, k, ino);
    } else {
      InodeOther(b, k, ino, l);
    }
  }

  /** iupdate: the inode in its slot of its block. */
  function WithInode(sb: Super, d: Disk, i: nat, ino: Inode): Disk
    requires IBlock(sb, i) < |d| && WellFormed(sb, ino) && sb.size < WORD_LIMIT
  {
    d[IBlock(sb, i) := InodeBlock(d[IBlock(sb, i)], i % 8, ino)]
  }

  lemma InodeAfter(sb: Super, d: Disk, i: nat, ino: Inode, j: nat)
    requires IBlock(sb, i) < |d| && IBlock(sb, j) < |d| && WellFormed(sb, ino) && sb.size < WORD_LIMIT
    ensures InodeAt(sb, WithInode(sb, d, i, ino), j) == if i == j then ino else InodeAt(sb, d, j)
  {
    InodeWritten(d[IBlock(sb, i)], i % 8, ino, j % 8);
    assert i == 8 * (i / 8) + i % 8 && j == 8 * (j / 8) + j % 8;
  }

  lemma InodesInRange(sb: Super)
    requires sb.Valid()
    ensures forall i :: 0 <= i < sb.ninodes ==> IBlock(sb, i) < sb.bmapstart
  {
  }

  // ---------- block map ----------

  function Zeros(n: nat): seq<int> { seq(n, i => 0) }

  function Entries(b: Block): (e: seq<int>)
    ensures |e| == NINDIRECT
  {
    seq(NINDIRECT, i requires 0 <= i < NINDIRECT => WordAt(b, i))
  }

  predicate WellFormed(sb: Super, ino: Inode) {
    && |ino.addrs| == NDIRECT + 1 && (forall k :: 0 <= k <= NDIRECT ==> 0 <= ino.addrs[k] < sb.size)
    && 0 <= ino.meta0 < WORD_LIMIT && 0 <= ino.meta1 < WORD_LIMIT && 0 <= ino.size < WORD_LIMIT
  }

  /** All block addresses an inode names: direct, pointer, indirect; 0 where there is none. */
  function Slots(d: Disk, ino: Inode): (s: seq<int>)
    requires |ino.addrs| == NDIRECT + 1 && 0 <= ino.addrs[NDIRECT] < |d|
    ensures |s| == SLOTS
  {
    ino.addrs + (if ino.addrs[NDIRECT] == 0 then Zeros(NINDIRECT) else Entries(d[ino.addrs[NDIRECT]]))
  }

  /** The slot that maps file block n. */
  function SlotOf(n: nat): nat {
    if n < NDIRECT then n else n + 1
  }

  function FileBlock(d: Disk, ino: Inode, n: nat): int
    requires |ino.addrs| == NDIRECT + 1 && 0 <= ino.addrs[NDIRECT] < |d| && n < MAXFILE
  {
    Slots(d, ino)[SlotOf(n)]
  }

  function Ceil(size: nat): nat { (size + 511) / 512 }

  /** No holes: exactly the first m file blocks are mapped, and the indirect block exists
      exactly when it is needed. */
  predicate Mapped(s: seq<int>, m: nat)
    requires |s| == SLOTS
  {
    && m <= MAXFILE
    && (forall n :: 0 <= n < MAXFILE ==> (s[SlotOf(n)] != 0 <==> n < m))
    && (s[NDIRECT] != 0 <==> m > NDIRECT)
  }

  // ---------- ownership ----------

  /** ss[i][k] is slot k of inode i, u the free map: a data block is in use exactly when one
      slot of one inode names it, and everything before the data blocks is in use. */
  ghost predicate Owned(sb: Super, ss: seq<seq<int>>, u: seq<bool>) {
    && |u| == sb.size
    && (forall i :: 0 <= i < |ss| ==> |ss[i]| == SLOTS)
    && (forall b :: 0 <= b < sb.datastart && b < |u| ==> u[b])
    && (forall i, k :: 0 <= i < |ss| && 0 <= k < SLOTS && ss[i][k] != 0 ==> sb.Data(ss[i][k]) && u[ss[i][k]])
    && (forall i, k, j, l :: 0 <= i < |ss| && 0 <= k < SLOTS && 0 <= j < |ss| && 0 <= l < SLOTS ==>
          (ss[i][k] != 0 && ss[i][k] == ss[j][l] ==> i == j && k == l))
    && (forall b :: sb.datastart <= b < |u| && u[b] ==> Named(ss, b))
  }

  ghost predicate Named(ss: seq<seq<int>>, b: int) {
    exists i, k :: 0 <= i < |ss| && 0 <= k < |ss[i]| && ss[i][k] == b
  }

  /** The slot table with one entry rewritten. */
  function PutSlot(ss: seq<seq<int>>, i: nat, k: nat, b: int): (r: seq<seq<int>>)
    requires i < |ss| && k < |ss[i]|
    ensures |r| == |ss| && (forall j :: 0 <= j < |ss| ==> |r[j]| == |ss[j]|)
    ensures forall j, l :: 0 <= j < |ss| && 0 <= l < |ss[j]| ==> r[j][l] == if j == i && l == k then b else ss[j][l]
  {
    ss[i := ss[i][k := b]]
  }

  /** Giving a free block to an empty slot. */
  lemma OwnedAlloc(sb: Super, ss: seq<seq<int>>, u: seq<bool>, i: nat, k: nat, b: int)
    requires Owned(sb, ss, u) && i < |ss| && k < SLOTS && ss[i][k] == 0
    requires sb.Valid() && 0 <= b < sb.size && !u[b]
    ensures sb.Data(b) && b != 0
    ensures Owned(sb, PutSlot(ss, i, k, b), u[b := true])
  {
    var ss', u' := PutSlot(ss, i, k, b), u[b := true];
    assert ss'[i][k] == b;
    forall c | sb.datastart <= c < |u'| && u'[c] ensures Named(ss', c) {
      if c != b {
        var j, l :| 0 <= j < |ss| && 0 <= l < |ss[j]| && ss[j][l] == c;
        assert ss'[j][l] == c;
      }
    }
  }

  /** Freeing the block of a slot and emptying the slot. */
  lemma OwnedFree(sb: Super, ss: seq<seq<int>>, u: seq<bool>, i: nat, k: nat)
    requires Owned(sb, ss, u) && i < |ss| && k < SLOTS && ss[i][k] != 0
    ensures sb.Data(ss[i][k]) && u[ss[i][k]]
    ensures Owned(sb, PutSlot(ss, i, k, 0), u[ss[i][k] := false])
  {
    var b := ss[i][k];
    var ss', u' := PutSlot(ss, i, k, 0), u[b := false];
    forall c | sb.datastart <= c < |u'| && u'[c] ensures Named(ss', c) {
      var j, l :| 0 <= j < |ss| && 0 <= l < |ss[j]| && ss[j][l] == c;
      assert ss'[j][l] == c;
    }
  }
}
