// Free blocks and file blocks add up to the data blocks of the disk, in every state the file
// system keeps.

module FsSpace {
  import opened Params
  import opened Codec
  import opened FsModel
  import opened FsLemmas
  import opened FsFile

  /** Nonzero slots. */
  ghost function Filled(s: seq<int>): nat {
    if s == [] then 0 else Filled(s[..|s| - 1]) + if s[|s| - 1] != 0 then 1 else 0
  }

  ghost function AllFilled(ss: seq<seq<int>>): nat {
    if ss == [] then 0 else AllFilled(ss[..|ss| - 1]) + Filled(ss[|ss| - 1])
  }

  /** The free blocks of the disk. */
  ghost function Spare(sb: Super, d: Disk): nat
    requires sb.Valid() && |d| == sb.size
  {
    |ClearFlags(Usage(sb, d))|
  }

  ghost predicate Full(sb: Super, d: Disk)
    requires sb.Valid()
  {
    |d| == sb.size && forall c :: 0 <= c < sb.size ==> Usage(sb, d)[c]
  }

  /** The blocks of a file of m data blocks. */
  function Blocks(m: nat): nat {
    if m > NDIRECT then m + 1 else m
  }

  // ---------- sets behind the counts ----------

  ghost function Names(s: seq<int>): set<int> {
    set k | 0 <= k < |s| && s[k] != 0 :: s[k]
  }

  ghost function AllNames(ss: seq<seq<int>>): set<int> {
    set i, k | 0 <= i < |ss| && 0 <= k < |ss[i]| && ss[i][k] != 0 :: ss[i][k]
  }

  ghost function SetFlags(u: seq<bool>): set<int> {
    set b | 0 <= b < |u| && u[b]
  }

  ghost function ClearFlags(u: seq<bool>): set<int> {
    set b | 0 <= b < |u| && !u[b]
  }

  lemma FlagsAdd(u: seq<bool>)
    ensures |ClearFlags(u)| + |SetFlags(u)| == |u|
  {
    assert ClearFlags(u) + SetFlags(u) == Below(|u|) && ClearFlags(u) !! SetFlags(u);
  }

  lemma {:induction false} FilledIs(s: seq<int>)
    requires forall k, l :: 0 <= k < l < |s| && s[k] != 0 ==> s[k] != s[l]
    ensures Filled(s) == |Names(s)|
  {
    if s != [] {
      var v, n := s[..|s| - 1], |s| - 1;
      FilledIs(v);
      assert s[n] !in Names(v);
      assert Names(s) == if s[n] != 0 then Names(v) + {s[n]} else Names(v);
    } else {
      assert Names(s) == {};
    }
  }

  /** No block has two names. */
  ghost predicate OneName(ss: seq<seq<int>>) {
    forall i, k, j, l :: 0 <= i < |ss| && 0 <= k < |ss[i]| && 0 <= j < |ss| && 0 <= l < |ss[j]| ==>
      (ss[i][k] != 0 && ss[i][k] == ss[j][l] ==> i == j && k == l)
  }

  lemma {:induction false} AllFilledIs(ss: seq<seq<int>>)
    requires OneName(ss)
    ensures AllFilled(ss) == |AllNames(ss)|
  {
    if ss != [] {
      var vs, n := ss[..|ss| - 1], |ss| - 1;
      AllFilledIs(vs);
      FilledIs(ss[n]);
      assert AllNames(ss) == AllNames(vs) + Names(ss[n]);
      assert AllNames(vs) !! Names(ss[n]);
    } else {
      assert AllNames(ss) == {};
    }
  }

  ghost function Below(n: nat): (r: set<int>)
    ensures |r| == n && forall b :: b in r <==> 0 <= b < n
  {
    if n == 0 then {} else Below(n - 1) + {n - 1}
  }

  // ---------- the law ----------

  /** Every data block is free or in one slot of one inode. */
  lemma SpaceLaw(sb: Super, d: Disk, tab: seq<Inode>)
    requires FsInv(sb, d, tab)
    ensures Spare(sb, d) + AllFilled(Table(d, tab)) == sb.size - sb.datastart
  {
    var u, ss := Usage(sb, d), Table(d, tab);
    FlagsAdd(u);
    AllFilledIs(ss);
    FlagsAre(sb, ss, u);
  }

  lemma FlagsAre(sb: Super, ss: seq<seq<int>>, u: seq<bool>)
    requires sb.Valid() && Owned(sb, ss, u)
    ensures SetFlags(u) == Below(sb.datastart) + AllNames(ss)
    ensures Below(sb.datastart) !! AllNames(ss)
  {
    forall b | b in SetFlags(u) && b >= sb.datastart ensures b in AllNames(ss) {
      assert Named(ss, b);
    }
  }

  lemma {:induction false} FilledPrefix(s: seq<int>, n: nat)
    requires forall k :: 0 <= k < |s| ==> (s[k] != 0 <==> k < n)
    ensures Filled(s) == if n < |s| then n else |s|
  {
    if s != [] {
      FilledPrefix(s[..|s| - 1], n);
    }
  }

  /** A file without holes has its data blocks and, past the direct ones, the indirect block. */
  lemma MappedFilled(s: seq<int>, m: nat)
    requires |s| == SLOTS && Mapped(s, m)
    ensures Filled(s) == Blocks(m)
  {
    forall k | 0 <= k < |s| ensures s[k] != 0 <==> k < Blocks(m) {
      if k < NDIRECT {
        assert s[SlotOf(k)] != 0 <==> k < m;
      } else if k > NDIRECT {
        assert s[SlotOf(k - 1)] != 0 <==> k - 1 < m;
      }
    }
    FilledPrefix(s, Blocks(m));
  }

  lemma {:induction false} OneFilled(ss: seq<seq<int>>, ss': seq<seq<int>>, i: nat)
    requires |ss'| == |ss| && forall j :: 0 <= j < |ss| && j != i ==> Filled(ss'[j]) == Filled(ss[j])
    ensures i < |ss| ==> AllFilled(ss') - Filled(ss'[i]) == AllFilled(ss) - Filled(ss[i])
    ensures i >= |ss| ==> AllFilled(ss') == AllFilled(ss)
  {
    if ss != [] {
      var n := |ss| - 1;
      OneFilled(ss[..n], ss'[..n], i);
    }
  }

  /** When only inode i gains or loses blocks, the free blocks pay for it. */
  lemma SpaceKept(sb: Super, d: Disk, tab: seq<Inode>, d': Disk, tab': seq<Inode>, i: nat)
    requires FsInv(sb, d, tab) && FsInv(sb, d', tab') && i < |tab|
    requires forall j :: 0 <= j < |tab| && j != i ==> Filled(Slots(d', tab'[j])) == Filled(Slots(d, tab[j]))
    ensures Spare(sb, d) + Filled(Slots(d, tab[i])) == Spare(sb, d') + Filled(Slots(d', tab'[i]))
  {
    SpaceLaw(sb, d, tab);
    SpaceLaw(sb, d', tab');
    OneFilled(Table(d, tab), Table(d', tab'), i);
  }

  lemma {:induction false} FilledPut(s: seq<int>, k: nat, b: int)
    requires k < |s| && s[k] == 0 && b != 0
    ensures Filled(s[k := b]) == Filled(s) + 1
  {
    var n := |s| - 1;
    if k < n {
      FilledPut(s[..n], k, b);
      assert s[k := b][..n] == s[..n][k := b];
    } else {
      assert s[k := b][..n] == s[..n];
    }
  }

  /** A block more for inode i is a free block less. */
  lemma GrownSpare(sb: Super, d: Disk, tab: seq<Inode>, d': Disk, tab': seq<Inode>, i: nat, k: nat, b: nat)
    requires FsInv(sb, d, tab) && FsInv(sb, d', tab') && Grown(sb, d, tab, d', tab', i, k, b)
    ensures Spare(sb, d) == Spare(sb, d') + 1
  {
    forall j | 0 <= j < |tab| && j != i ensures Filled(Slots(d', tab'[j])) == Filled(Slots(d, tab[j])) {
      assert SameFile(d, d', tab[j]);
    }
    SpaceKept(sb, d, tab, d', tab', i);
    FilledPut(Slots(d, tab[i]), k, b);
  }

  lemma FullClear(sb: Super, d: Disk)
    requires sb.Valid() && |d| == sb.size
    ensures Full(sb, d) <==> Spare(sb, d) == 0
  {
    var clear := ClearFlags(Usage(sb, d));
    if Spare(sb, d) == 0 {
      forall c | 0 <= c < sb.size ensures Usage(sb, d)[c] {
        assert c !in clear;
      }
    } else {
      var c :| c in clear;
      assert !Usage(sb, d)[c];
    }
  }
}
