// An empty file system, as Ass2/mkfs.c lays it out before it adds files.

module FsInit {
  import opened Codec
  import opened FsModel
  import opened FsLemmas
  import opened FsFile
  import opened FsWrite
  import opened FsCode
  import opened FsIo

  lemma {:induction false} BitZero(k: nat)
    ensures !Bit(0, k)
  {
    if k > 0 { BitZero(k - 1); }
  }

  /** mkfs's balloc: the free-map block with the first used bits set. */
  method MarkUsed(used: nat) returns (buf: Block)
    requires used < 4096
    ensures forall c :: 0 <= c < 4096 ==> (Bit(buf[c / 8], c % 8) <==> c < used)
  {
    buf := ZeroBlock();
    forall c | 0 <= c < 4096 ensures !Bit(buf[c / 8], c % 8) { BitZero(c % 8); }
    var i := 0;
    while i < used
      invariant i <= used && forall c :: 0 <= c < 4096 ==> (Bit(buf[c / 8], c % 8) <==> c < i)
    {
      ghost var was := buf;
      buf := buf[i / 8 := WithBit(buf[i / 8], i % 8, true)];
      forall c | 0 <= c < 4096 ensures Bit(buf[c / 8], c % 8) <==> c < i + 1 {
        if c / 8 == i / 8 && c % 8 == i % 8 { assert c == i; }
      }
      i := i + 1;
    }
  }

  function ZeroInode(): Inode { Inode(0, 0, 0, Zeros(NDIRECT + 1)) }

  function ZeroTable(n: nat): seq<Inode> { seq(n, i => ZeroInode()) }

  lemma ZeroInodes(k: nat)
    requires k < 8
    ensures InodeIn(ZeroBlock(), k) == ZeroInode()
  {
    var ino := InodeIn(ZeroBlock(), k);
    forall j | 0 <= j <= NDIRECT ensures ino.addrs[j] == 0 { ZeroWords(16 * k + 3 + j); }
    assert ino.addrs == Zeros(NDIRECT + 1);
  }

  /** The disk is the zeroes and the free-map block. */
  ghost predicate Blank(sb: Super, d: Disk) {
    && sb.Valid() && |d| == sb.size && sb.datastart < 4096
    && (forall b :: 0 <= b < sb.size && b != sb.bmapstart ==> d[b] == ZeroBlock())
    && sb.bmapstart < |d| && forall c :: 0 <= c < 4096 ==> (Bit(d[sb.bmapstart][c / 8], c % 8) <==> c < sb.datastart)
  }

  lemma BlankUsage(sb: Super, d: Disk)
    requires Blank(sb, d)
    ensures forall b :: 0 <= b < sb.size ==> (Usage(sb, d)[b] <==> b < sb.datastart)
  {
    MapInRange(sb);
    forall b | 0 <= b < sb.size ensures Used(sb, d, b) <==> b < sb.datastart {
      if b >= 4096 { BitZero(b % 8); }
    }
  }

  lemma BlankOwned(sb: Super, d: Disk)
    requires Blank(sb, d)
    ensures FsInv(sb, d, ZeroTable(sb.ninodes))
  {
    BlankUsage(sb, d);
    var tab := ZeroTable(sb.ninodes);
    assert forall i :: 0 <= i < |tab| ==> Slots(d, tab[i]) == Zeros(SLOTS);
  }

  /** All files are there and empty. */
  lemma BlankHealthy(sb: Super, d: Disk)
    requires Blank(sb, d)
    ensures Healthy(sb, d, ZeroTable(sb.ninodes))
    ensures forall i :: 0 <= i < sb.ninodes ==> Content(d, ZeroTable(sb.ninodes)[i]) == []
  {
    var tab := ZeroTable(sb.ninodes);
    BlankOwned(sb, d);
    InodesInRange(sb);
    forall j | 0 <= j < |tab| ensures FileOk(d, tab[j]) && InodeAt(sb, d, j) == tab[j] {
      ZeroInodes(j % 8);
      assert Slots(d, tab[j]) == Zeros(SLOTS);
    }
  }

  /** mkfs without files. */
  method Mkfs(sb: Super) returns (fs: FileSys)
    requires sb.Valid() && sb.datastart < 4096 && sb.bmapstart < sb.size
    ensures fresh(fs) && fs.sb == sb && Healthy(sb, fs.disk, fs.tab) && |fs.tab| == sb.ninodes
    ensures forall i :: 0 <= i < sb.ninodes ==> Content(fs.disk, fs.tab[i]) == []
  {
    var zeroes: Disk := seq(sb.size, i => ZeroBlock());
    var buf := MarkUsed(sb.datastart);
    var d := zeroes[sb.bmapstart := buf];
    BlankHealthy(sb, d);
    fs := new FileSys(sb, d, ZeroTable(sb.ninodes));
  }
}
