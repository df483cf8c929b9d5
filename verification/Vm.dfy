// The code of Ass2/vm.c and Ass2/kalloc.c.

module Vm {
  import opened Params
  import opened VmModel
  import opened VmCount

  const PTE_W := 2
  const PTE_U := 4

  /** PGROUNDUP(a) / PGSIZE */
  function PgUp(a: int): int { (a + 4095) / 4096 }

  /** Virtual page (i, x) is one of pages lo, lo + 1, ..., hi - 1. */
  predicate InRange(i: int, x: int, lo: int, hi: int) {
    lo <= 1024 * i + x < hi
  }

  /** The frames of directory d in the range went to the free list; no other page moved. */
  ghost predicate FramesFreed(owner: Owners, owner': Owners, d: int, lo: int, hi: int) {
    && owner'.Keys == owner.Keys
    && forall p :: p in owner ==>
         owner'[p] == if owner[p].FrameOf? && owner[p].fd == d && InRange(owner[p].fi, owner[p].x, lo, hi) then Free
           else owner[p]
  }

  /** The mappings of directory d in the range are gone; no other changed. */
  ghost predicate RangeUnmapped(dirs: Dirs, tabs: Tabs, tabs': Tabs, d: int, lo: int, hi: int) {
    && (forall e, i, x :: Mapped(dirs, tabs', e, i, x) <==>
         Mapped(dirs, tabs, e, i, x) && !(e == d && InRange(i, x, lo, hi)))
    && (forall e, i, x :: Mapped(dirs, tabs', e, i, x) ==> PteAt(dirs, tabs', e, i, x) == PteAt(dirs, tabs, e, i, x))
  }

  ghost predicate SameMaps(dirs: Dirs, tabs: Tabs, dirs': Dirs, tabs': Tabs) {
    && (forall e, i, x :: Mapped(dirs', tabs', e, i, x) <==> Mapped(dirs, tabs, e, i, x))
    && (forall e, i, x :: Mapped(dirs, tabs, e, i, x) ==> PteAt(dirs', tabs', e, i, x) == PteAt(dirs, tabs, e, i, x))
  }

  /** Frames for user pages lo, ..., hi - 1, and the tables they lack in a directory with entries keys. */
  function GrowthNeed(keys: set<int>, lo: int, hi: int): int {
    hi - lo + |Entries(lo, hi) - keys|
  }

  class Memory {
    var free: seq<int>
    var dirs: Dirs
    var tabs: Tabs
    var data: map<int, int>      // contents of data pages
    ghost var owner: Owners

    ghost predicate Valid()
      reads this
    {
      Inv(free, dirs, tabs, owner)
    }

    /** kinit1 and kinit2: freerange hands each page to kfree. */
    constructor (first: int, count: nat)
      requires first > 0
      ensures Valid() && dirs == map[] && |free| == count && forall p :: p in owner <==> first <= p < first + count
    {
      free, dirs, tabs, data, owner := [], map[], map[], map[], map[];
      new;
      var p := first;
      while p < first + count
        invariant first <= p <= first + count && dirs == map[] && tabs == map[] && |free| == p - first
        invariant FreeOk(free, owner) && (forall q :: q in owner <==> first <= q < p) &&
          forall q :: q in owner ==> owner[q] == Free
      {
        owner := owner[p := Held];
        Kfree(p);
        p := p + 1;
      }
    }

    method Kalloc() returns (p: int)
      requires Valid()
      modifies this`free, this`owner
      ensures Valid() && (p == 0 <==> old(free) == [])
      ensures p == 0 ==> free == old(free) && owner == old(owner)
      ensures p != 0 ==>
        p in old(owner) && old(owner)[p] == Free && owner == old(owner)[p := Held] && free == old(free)[1..]
    {
      if free == [] {
        return 0;
      }
      p := free[0];
      ghost var f0 := free;
      assert p in free;
      free := free[1..];
      assert forall q :: q in free <==> q in f0 && q != p by { PoppedHas(f0); }
      HandOver(f0, free, dirs, tabs, owner, p, Held);
      owner := owner[p := Held];
    }

    method Kfree(p: int)
      requires Valid() && p in owner && owner[p] == Held
      modifies this`free, this`owner
      ensures Valid() && free == [p] + old(free) && owner == old(owner)[p := Free]
    {
      ghost var f0 := free;
      free := [p] + free;
      HandOver(f0, free, dirs, tabs, owner, p, Free);
      owner := owner[p := Free];
    }

    /** walkpgdir: the table page for directory entry i; 0 without one or without memory. */
    method Walk(d: int, i: int, alloc: bool) returns (t: int)
      requires Valid() && d in dirs && 0 <= i < NPDENTRIES
      modifies this`free, this`dirs, this`tabs, this`owner
      ensures Valid() && d in dirs && SameMaps(old(dirs), old(tabs), dirs, tabs)
      ensures t == 0 ==>
        i !in old(dirs)[d] && dirs == old(dirs) && tabs == old(tabs) && owner == old(owner) && free == old(free)
      ensures t == 0 <==> i !in old(dirs)[d] && (!alloc || old(free) == [])
      ensures t != 0 ==> i in dirs[d] && dirs[d][i] == t && t in tabs
      ensures t != 0 && i in old(dirs)[d] ==> dirs == old(dirs) && tabs == old(tabs) && owner == old(owner)
      ensures t != 0 && i !in old(dirs)[d] ==>
        t in old(owner) && old(owner)[t] == Free && owner == old(owner)[t := TabOf(d, i)]
      ensures t != 0 && i !in old(dirs)[d] ==> dirs == old(dirs)[d := old(dirs)[d][i := t]]
      ensures t != 0 ==> |old(free)| == |free| + if i in old(dirs)[d] then 0 else 1
    {
      if i in dirs[d] {
        t := dirs[d][i];
        return;
      }
      if !alloc {
        return 0;
      }
      t := Kalloc();
      if t == 0 {
        return;
      }
      ghost var d0, t0, o0 := dirs, tabs, owner;
      tabs := tabs[t := map[]];
      dirs := dirs[d := dirs[d][i := t]];
      owner := owner[t := TabOf(d, i)];
      NewTable(free, d0, t0, o0, d, i, t, dirs, tabs, owner);
    }

    /** The frame of one mapped user page goes back. */
    method FreeFrame(d: int, i: int, x: int, t: int)
      requires Valid() && Mapped(dirs, tabs, d, i, x) && 0 <= i < KERNDIR && 0 <= x < NPTENTRIES && t == dirs[d][i]
      modifies this`free, this`tabs, this`owner
      ensures Valid() && FramesFreed(old(owner), owner, d, 1024 * i + x, 1024 * i + x + 1)
      ensures RangeUnmapped(dirs, old(tabs), tabs, d, 1024 * i + x, 1024 * i + x + 1)
    {
      ghost var t0, o0 := tabs, owner;
      var pa := tabs[t][x].pa;
      assert PteAt(dirs, tabs, d, i, x).pa == pa && owner[pa] == FrameOf(d, i, x);
      tabs := tabs[t := tabs[t] - {x}];
      owner := owner[pa := Held];
      UnmapFrame(free, dirs, t0, o0, d, i, x, tabs, owner);
      OnePage(dirs, t0, o0, d, i, x);
      Kfree(pa);
    }

    /** One round of deallocuvm's loop: page n is visited, or the rest of its four megabytes
        is skipped because there is no table. */
    method FreeStep(d: int, n: int, hi: int) returns (n': int, ghost m': int)
      requires Valid() && d in dirs && 0 <= n < hi <= 0x8_0000
      modifies this`free, this`dirs, this`tabs, this`owner
      ensures Valid() && dirs == old(dirs) && n < n' && m' == (if n' < hi then n' else hi)
      ensures FramesFreed(old(owner), owner, d, n, m') && RangeUnmapped(dirs, old(tabs), tabs, d, n, m')
    {
      var i, x := n / 1024, n % 1024;
      assert n == 1024 * i + x;
      var t := Walk(d, i, false);
      if t == 0 {
        n' := (i + 1) * 1024 - 1 + 1;
        m' := if n' < hi then n' else hi;
        NothingThere(dirs, tabs, owner, d, n, m', i);
        FreedNothing(dirs, tabs, owner, d, n, m');
        return;
      }
      if x in tabs[t] {
        FreeFrame(d, i, x, t);
      } else {
        NothingHere(dirs, tabs, owner, d, i, x, n);
        FreedNothing(dirs, tabs, owner, d, n, n + 1);
      }
      n', m' := n + 1, n + 1;
    }

    /** The loop of deallocuvm over pages lo, ..., hi - 1. */
    method FreeRange(d: int, lo: int, hi: int)
      requires Valid() && d in dirs && 0 <= lo <= hi <= 0x8_0000
      modifies this`free, this`dirs, this`tabs, this`owner
      ensures Valid() && dirs == old(dirs) && FramesFreed(old(owner), owner, d, lo, hi) &&
        RangeUnmapped(dirs, old(tabs), tabs, d, lo, hi)
    {
      ghost var t0, o0, m := tabs, owner, lo;
      var n := lo;
      FreedSelf(dirs, tabs, owner, d, lo);
      while n < hi
        invariant lo <= n && m == (if n < hi then n else hi)
        invariant Valid() && dirs == old(dirs) && FramesFreed(o0, owner, d, lo, m) &&
          RangeUnmapped(dirs, t0, tabs, d, lo, m)
        decreases hi - n
      {
        ghost var t1, o1, m0 := tabs, owner, m;
        n, m := FreeStep(d, n, hi);
        FreedMore(dirs, t0, o0, t1, o1, tabs, owner, d, lo, m0, m);
      }
    }

    /** deallocuvm: exactly the frames of the pages from newsz up to oldsz are freed. */
    method DeallocUvm(d: int, oldsz: int, newsz: int) returns (r: int)
      requires Valid() && d in dirs && 0 <= newsz && 0 <= oldsz <= KERNBASE
      modifies this`free, this`dirs, this`tabs, this`owner
      ensures Valid() && dirs == old(dirs) && r == (if newsz >= oldsz then oldsz else newsz)
      ensures newsz >= oldsz ==> tabs == old(tabs) && owner == old(owner)
      ensures newsz < oldsz ==>
        FramesFreed(old(owner), owner, d, PgUp(newsz), PgUp(oldsz)) &&
        RangeUnmapped(dirs, old(tabs), tabs, d, PgUp(newsz), PgUp(oldsz))
    {
      if newsz >= oldsz {
        return oldsz;
      }
      FreeRange(d, PgUp(newsz), PgUp(oldsz));
      r := newsz;
    }

    /** kfree of the table in entry i; the entry is forgotten with it. */
    method FreeTable(d: int, i: int)
      requires Valid() && d in dirs && i in dirs[d] && (i < KERNDIR ==> forall x :: !Mapped(dirs, tabs, d, i, x))
      modifies this`free, this`dirs, this`tabs, this`owner
      ensures Valid() && dirs == old(dirs)[d := old(dirs)[d] - {i}] && old(owner)[old(dirs)[d][i]] == TabOf(d, i)
      ensures owner == old(owner)[old(dirs)[d][i] := Free]
      ensures MapsBut(old(dirs), old(tabs), dirs, tabs, d) &&
        forall x, j :: Mapped(dirs, tabs, d, j, x) ==> Mapped(old(dirs), old(tabs), d, j, x)
    {
      ghost var d0, t0, o0 := dirs, tabs, owner;
      var t := dirs[d][i];
      assert t in owner && owner[t] == TabOf(d, i);
      dirs := dirs[d := dirs[d] - {i}];
      tabs := tabs - {t};
      owner := owner[t := Held];
      DropTable(free, d0, t0, o0, d, i, dirs, tabs, owner);
      Kfree(t);
    }

    /** One round of freevm's loop over the directory. */
    method FreeEntry(d: int, i: int)
      requires Valid() && d in dirs && 0 <= i < NPDENTRIES &&
        forall j, x :: j < KERNDIR ==> !Mapped(dirs, tabs, d, j, x)
      requires forall j :: j in dirs[d] ==> i <= j < NPDENTRIES
      modifies this`free, this`dirs, this`tabs, this`owner
      ensures Valid() && d in dirs && (forall e :: e in dirs <==> e in old(dirs)) &&
        MapsBut(old(dirs), old(tabs), dirs, tabs, d)
      ensures forall j, x :: j < KERNDIR ==> !Mapped(dirs, tabs, d, j, x)
      ensures forall j :: j in dirs[d] ==> i + 1 <= j < NPDENTRIES
      ensures owner == if i in old(dirs)[d] then old(owner)[old(dirs)[d][i] := Free] else old(owner)
    {
      if i in dirs[d] {
        FreeTable(d, i);
      }
    }

    /** freevm's loop over the directory. */
    method FreeTables(d: int)
      requires Valid() && d in dirs && forall j, x :: j < KERNDIR ==> !Mapped(dirs, tabs, d, j, x)
      modifies this`free, this`dirs, this`tabs, this`owner
      ensures Valid() && d in dirs && (forall i :: i !in dirs[d]) && (forall e :: e in dirs <==> e in old(dirs))
      ensures MapsBut(old(dirs), old(tabs), dirs, tabs, d) && TablesFreed(old(owner), owner, d, NPDENTRIES)
    {
      ghost var d0, t0, o0 := dirs, tabs, owner;
      var i := 0;
      while i < NPDENTRIES
        invariant 0 <= i <= NPDENTRIES && Valid() && d in dirs && (forall e :: e in dirs <==> e in d0) &&
          MapsBut(d0, t0, dirs, tabs, d)
        invariant forall j, x :: j < KERNDIR ==> !Mapped(dirs, tabs, d, j, x)
        invariant forall j :: j in dirs[d] ==> i <= j < NPDENTRIES
        invariant TablesFreed(o0, owner, d, i)
      {
        ghost var o2, ds, ts := owner, dirs, tabs;
        FreeEntry(d, i);
        MapsButTrans(d0, t0, ds, ts, dirs, tabs, d);
        TablesMore(o0, o2, owner, ds, ts, d, i);
        i := i + 1;
      }
    }

    /** kfree of an empty directory. */
    method FreeDir(d: int)
      requires Valid() && d in dirs && forall i :: i !in dirs[d]
      modifies this`free, this`dirs, this`owner
      ensures Valid() && dirs == old(dirs) - {d} && owner == old(owner)[d := Free] &&
        MapsBut(old(dirs), tabs, dirs, tabs, d)
    {
      ghost var d1, o2 := dirs, owner;
      dirs := dirs - {d};
      owner := owner[d := Held];
      DropDir(free, d1, tabs, o2, d, dirs, owner);
      Kfree(d);
    }

    /** freevm: every page of the address space goes back to the free list, once; no other
        page moves and no other address space changes. */
    method FreeVm(d: int)
      requires Valid() && d in dirs
      modifies this`free, this`dirs, this`tabs, this`owner
      ensures Valid() && AllFreed(old(owner), owner, d) && MapsBut(old(dirs), old(tabs), dirs, tabs, d)
      ensures forall e :: e in dirs <==> e in old(dirs) && e != d
    {
      ghost var d0, t0, o0 := dirs, tabs, owner;
      var _ := DeallocUvm(d, KERNBASE, 0);
      NoUserLeft(dirs, t0, o0, tabs, owner, d);
      ghost var t1, o1 := tabs, owner;
      FreeTables(d);
      MapsButTrans(d0, t0, d0, t1, dirs, tabs, d);
      ghost var d1, t2, o2 := dirs, tabs, owner;
      FreeDir(d);
      MapsButTrans(d0, t0, d1, t2, dirs, tabs, d);
      AllFreedIs(d0, t0, o0, o1, o2, owner, d);
    }

    /** mappages of one user page onto a frame the caller holds. */
    method MapUser(d: int, n: int, pa: int, flags: int) returns (ok: bool)
      requires Valid() && d in dirs && 0 <= n < 0x8_0000 && !Mapped(dirs, tabs, d, n / 1024, n % 1024) &&
        pa in owner && owner[pa] == Held
      modifies this`free, this`dirs, this`tabs, this`owner
      ensures Valid() && d in dirs && (forall e :: e in dirs <==> e in old(dirs))
      ensures !ok ==> dirs == old(dirs) && tabs == old(tabs) && owner == old(owner) && old(free) == []
      ensures ok ==> PageMapped(old(dirs), old(tabs), dirs, tabs, d, n / 1024, n % 1024, Pte(pa, flags))
      ensures ok ==> TablesAdded(old(owner)[pa := FrameOf(d, n / 1024, n % 1024)], owner, d)
      ensures ok <==> |old(free)| >= OneCost(old(dirs)[d].Keys, n / 1024, false)
      ensures ok ==> |old(free)| == |free| + OneCost(old(dirs)[d].Keys, n / 1024, false)
      ensures ok ==> EntryAdded(old(dirs)[d].Keys, dirs[d].Keys, n / 1024)
    {
      var i, x := n / 1024, n % 1024;
      var t := Walk(d, i, true);
      if t == 0 {
        return false;
      }
      assert !Mapped(dirs, tabs, d, i, x);
      ghost var d1, t1, o1 := dirs, tabs, owner;
      tabs := tabs[t := tabs[t][x := Pte(pa, flags)]];
      owner := owner[pa := FrameOf(d, i, x)];
      MapFrame(free, dirs, t1, o1, d, i, x, Pte(pa, flags), tabs, owner);
      ok := true;
    }

    /** kalloc, fill and map: page n of d is a new frame that holds v.  Without a frame nothing
        changes; without a table for it the frame, mem, is left to the caller. */
    method NewPage(d: int, n: int, v: int, flags: int) returns (ok: bool, mem: int)
      requires Valid() && d in dirs && 0 <= n < 0x8_0000 && !Mapped(dirs, tabs, d, n / 1024, n % 1024)
      modifies this`free, this`dirs, this`tabs, this`owner, this`data
      ensures Valid() && d in dirs && (forall e :: e in dirs <==> e in old(dirs)) && Kept(old(owner), old(data), data)
      ensures !ok ==> dirs == old(dirs) && tabs == old(tabs) && LeftOver(old(owner), owner, mem)
      ensures ok ==>
        PageMapped(old(dirs), old(tabs), dirs, tabs, d, n / 1024, n % 1024, Pte(mem, flags)) && mem in data &&
        data[mem] == v
      ensures ok ==> FrameAdded(old(owner), owner, d, n / 1024, n % 1024, mem)
      ensures ok <==> |old(free)| >= OneCost(old(dirs)[d].Keys, n / 1024, true)
      ensures ok ==> |old(free)| == |free| + OneCost(old(dirs)[d].Keys, n / 1024, true)
      ensures ok ==> EntryAdded(old(dirs)[d].Keys, dirs[d].Keys, n / 1024)
    {
      ghost var o0, c0 := owner, data;
      mem := Kalloc();
      if mem == 0 {
        return false, 0;
      }
      data := data[mem := v];
      KeptFree(o0, c0, mem, v);
      ok := MapUser(d, n, mem, flags);
    }

    /** kfree of the frame NewPage left, if it left one. */
    method GiveBack(mem: int, ghost o0: Owners)
      requires Valid() && LeftOver(o0, owner, mem)
      modifies this`free, this`owner
      ensures Valid() && owner == o0
    {
      if mem != 0 {
        Kfree(mem);
      }
    }

    /** One round of allocuvm: a zeroed frame for page n. */
    method AllocPage(d: int, n: int) returns (ok: bool, mem: int)
      requires Valid() && d in dirs && 0 <= n < 0x8_0000 && !Mapped(dirs, tabs, d, n / 1024, n % 1024)
      modifies this`free, this`dirs, this`tabs, this`owner, this`data
      ensures Valid() && d in dirs && (forall e :: e in dirs <==> e in old(dirs)) && Kept(old(owner), old(data), data)
      ensures !ok ==> dirs == old(dirs) && tabs == old(tabs) && LeftOver(old(owner), owner, mem)
      ensures ok ==> RangeMapped(old(dirs), old(tabs), dirs, tabs, d, n, n + 1, PTE_W + PTE_U)
      ensures ok ==> FramesAdded(old(owner), owner, d, n, n + 1) && Zeroed(owner, data, d, n, n + 1)
      ensures ok <==> |old(free)| >= OneCost(old(dirs)[d].Keys, n / 1024, true)
      ensures ok ==> |old(free)| == |free| + OneCost(old(dirs)[d].Keys, n / 1024, true)
      ensures ok ==> EntryAdded(old(dirs)[d].Keys, dirs[d].Keys, n / 1024)
    {
      ghost var d0, t0, o0 := dirs, tabs, owner;
      ok, mem := NewPage(d, n, 0, PTE_W + PTE_U);
      if ok {
        PageIsRange(d0, t0, o0, dirs, tabs, d, n, mem, PTE_W + PTE_U);
        FrameIsRange(o0, owner, d, n, mem);
        OneZeroed(dirs, tabs, owner, data, d, n, mem);
      }
    }

    /** Pages lo, ..., n - 1 of d have new zeroed frames; all else is as at the call. */
    ghost predicate AllocInv(d0: Dirs, t0: Tabs, o0: Owners, c0: map<int, int>, f0: nat, d: int, lo: int, n: int)
      reads this
    {
      && Valid() && d in dirs && (forall e :: e in dirs <==> e in d0)
      && TookRange(d0[d].Keys, f0, dirs[d].Keys, |free|, lo, n, true)
      && RangeMapped(d0, t0, dirs, tabs, d, lo, n, PTE_W + PTE_U) && FramesAdded(o0, owner, d, lo, n)
      && Kept(o0, c0, data) && Zeroed(owner, data, d, lo, n)
    }

    /** allocuvm's loop body. */
    method AllocNext(d: int, n: int, ghost lo: int, ghost hi: int, ghost d0: Dirs, ghost t0: Tabs, ghost o0: Owners,
        ghost c0: map<int, int>, ghost f0: nat)
      returns (ok: bool, mem: int)
      requires 0 <= lo <= n < hi <= 0x8_0000 && AllocInv(d0, t0, o0, c0, f0, d, lo, n) &&
        !Mapped(dirs, tabs, d, n / 1024, n % 1024)
      modifies this`free, this`dirs, this`tabs, this`owner, this`data
      ensures ok ==> AllocInv(d0, t0, o0, c0, f0, d, lo, n + 1)
      ensures !ok ==> f0 < Need(d0[d].Keys, lo, hi, true)
      ensures !ok ==>
        Valid() && dirs == old(dirs) && tabs == old(tabs) && LeftOver(old(owner), owner, mem) && Kept(o0, c0, data)
    {
      ghost var d1, t1, o1, c1, f1 := dirs, tabs, owner, data, |free|;
      ok, mem := AllocPage(d, n);
      KeptAdded(o0, c0, o1, c1, data, d, lo, n);
      if ok {
        TookMore(d0[d].Keys, f0, d1[d].Keys, f1, dirs[d].Keys, |free|, lo, n, true);
        MappedMore(d0, t0, o0, d1, t1, o1, dirs, tabs, owner, d, lo, n);
        ZeroedMore(o1, c1, owner, data, d, lo, n);
      } else {
        TooFew(d0[d].Keys, f0, d1[d].Keys, f1, lo, n, hi, true);
      }
    }

    /** allocuvm's loop, up to the page n' that finds no memory; o1 is who owned what then. */
    method AllocRange(d: int, lo: int, hi: int) returns (ok: bool, mem: int, ghost n': int, ghost o1: Owners)
      requires Valid() && d in dirs && 0 <= lo <= hi <= 0x8_0000
      requires forall i, x :: InRange(i, x, lo, hi) ==> !Mapped(dirs, tabs, d, i, x)
      modifies this`free, this`dirs, this`tabs, this`owner, this`data
      ensures Valid() && d in dirs && (forall e :: e in dirs <==> e in old(dirs)) && lo <= n' <= hi &&
        (ok <==> n' == hi)
      ensures RangeMapped(old(dirs), old(tabs), dirs, tabs, d, lo, n', PTE_W + PTE_U) &&
        Kept(old(owner), old(data), data)
      ensures ok ==> FramesAdded(old(owner), owner, d, lo, n') && Zeroed(owner, data, d, lo, n')
      ensures !ok ==> FramesAdded(old(owner), o1, d, lo, n') && LeftOver(o1, owner, mem)
      ensures ok <==> |old(free)| >= Need(old(dirs)[d].Keys, lo, hi, true)
    {
      ghost var d0, t0, o0, c0, f0 := dirs, tabs, owner, data, |free|;
      var n := lo;
      TookNone(dirs[d].Keys, f0, lo, true);
      while n < hi
        invariant lo <= n <= hi && AllocInv(d0, t0, o0, c0, f0, d, lo, n)
      {
        NotYet(d0, t0, dirs, tabs, d, lo, n, hi);
        o1 := owner;
        ok, mem := AllocNext(d, n, lo, hi, d0, t0, o0, c0, f0);
        if !ok {
          n' := n;
          return;
        }
        n := n + 1;
      }
      ok, mem, n', o1 := true, 0, n, owner;
    }

    /** allocuvm's way out: deallocuvm, then kfree of the frame that found no table. */
    method AllocFailed(d: int, oldsz: int, newsz: int, mem: int, ghost o1: Owners)
      requires Valid() && d in dirs && 0 <= oldsz <= newsz < KERNBASE && LeftOver(o1, owner, mem)
      modifies this`free, this`dirs, this`tabs, this`owner
      ensures Valid() && dirs == old(dirs) && o1.Keys == owner.Keys
      ensures RangeUnmapped(dirs, old(tabs), tabs, d, PgUp(oldsz), PgUp(newsz)) &&
        FramesFreed(o1, owner, d, PgUp(oldsz), PgUp(newsz))
    {
      var _ := DeallocUvm(d, newsz, oldsz);
      if mem != 0 {
        Kfree(mem);
      }
    }

    /** allocuvm: the pages from oldsz up to newsz get fresh zeroed frames; on failure, exactly if the
        free pages do not suffice, all of them go back, and only tables stay.  No page in use
        changes its contents. */
    method AllocUvm(d: int, oldsz: int, newsz: int) returns (r: int)
      requires Valid() && d in dirs && 0 <= oldsz && 0 <= newsz
      requires forall i, x :: InRange(i, x, PgUp(oldsz), PgUp(newsz)) ==> !Mapped(dirs, tabs, d, i, x)
      modifies this`free, this`dirs, this`tabs, this`owner, this`data
      ensures Valid() && d in dirs && (forall e :: e in dirs <==> e in old(dirs)) && Kept(old(owner), old(data), data)
      ensures newsz >= KERNBASE ==> r == 0
      ensures newsz < KERNBASE && newsz < oldsz ==> r == oldsz
      ensures newsz >= KERNBASE || newsz < oldsz ==> owner == old(owner) && dirs == old(dirs) && tabs == old(tabs)
      ensures oldsz <= newsz < KERNBASE ==>
        r == if |old(free)| >= GrowthNeed(old(dirs)[d].Keys, PgUp(oldsz), PgUp(newsz)) then newsz else 0
      ensures oldsz <= newsz < KERNBASE && r == newsz != 0 ==>
        && RangeMapped(old(dirs), old(tabs), dirs, tabs, d, PgUp(oldsz), PgUp(newsz), PTE_W + PTE_U)
        && FramesAdded(old(owner), owner, d, PgUp(oldsz), PgUp(newsz))
        && Zeroed(owner, data, d, PgUp(oldsz), PgUp(newsz))
      ensures oldsz <= newsz < KERNBASE && r == 0 != newsz ==>
        SameMaps(old(dirs), old(tabs), dirs, tabs) && TablesAdded(old(owner), owner, d)
    {
      if newsz >= KERNBASE {
        return 0;
      }
      if newsz < oldsz {
        return oldsz;
      }
      ghost var d0, t0, o0 := dirs, tabs, owner;
      MissingIs(dirs[d].Keys, PgUp(oldsz), PgUp(newsz));
      var ok, mem, n, o1 := AllocRange(d, PgUp(oldsz), PgUp(newsz));
      if !ok {
        ghost var t1 := tabs;
        AllocFailed(d, oldsz, newsz, mem, o1);
        Undone(d0, t0, o0, dirs, t1, o1, tabs, owner, d, PgUp(oldsz), n, PgUp(newsz));
        return 0;
      }
      r := newsz;
    }

    /** mappages of one kernel page. */
    method MapKernelPage(d: int, n: int, pa: int, flags: int) returns (ok: bool)
      requires Valid() && d in dirs && 0x8_0000 <= n < 0x10_0000 && !Mapped(dirs, tabs, d, n / 1024, n % 1024)
      modifies this`free, this`dirs, this`tabs, this`owner
      ensures Valid() && d in dirs && (forall e :: e in dirs <==> e in old(dirs)) && TablesAdded(old(owner), owner, d)
      ensures !ok ==> dirs == old(dirs) && tabs == old(tabs) && owner == old(owner) && free == old(free)
      ensures ok ==> PageMapped(old(dirs), old(tabs), dirs, tabs, d, n / 1024, n % 1024, Pte(pa, flags))
      ensures ok <==> |old(free)| >= OneCost(old(dirs)[d].Keys, n / 1024, false)
      ensures ok ==> |old(free)| == |free| + OneCost(old(dirs)[d].Keys, n / 1024, false)
      ensures ok ==> EntryAdded(old(dirs)[d].Keys, dirs[d].Keys, n / 1024)
    {
      var i, x := n / 1024, n % 1024;
      var t := Walk(d, i, true);
      if t == 0 {
        return false;
      }
      ghost var t1 := tabs;
      tabs := tabs[t := tabs[t][x := Pte(pa, flags)]];
      MapKernel(free, dirs, t1, owner, d, i, x, Pte(pa, flags), tabs);
      ok := true;
    }

    /** The pages of range k below n are mapped in d; all else is as at the call. */
    ghost predicate KernInv(d0: Dirs, t0: Tabs, o0: Owners, f0: nat, d: int, k: KRange, n: int)
      reads this
    {
      && Valid() && d in dirs && (forall e :: e in dirs <==> e in d0) && TablesAdded(o0, owner, d)
      && MapsBut(d0, t0, dirs, tabs, d) && RangeDone(dirs, tabs, d, k, n) && OnlyBelow(dirs, tabs, d, n)
      && MapsKept(d0, t0, dirs, tabs, d) && TookRange(d0[d].Keys, f0, dirs[d].Keys, |free|, k.virt, n, false)
    }

    method MapKernelNext(d: int, k: KRange, n: int, ghost top: int, ghost d0: Dirs, ghost t0: Tabs, ghost o0: Owners,
        ghost f0: nat)
      returns (ok: bool)
      requires 0x8_0000 <= k.virt <= n < top <= 0x10_0000 && KernInv(d0, t0, o0, f0, d, k, n)
      modifies this`free, this`dirs, this`tabs, this`owner
      ensures KernInv(d0, t0, o0, f0, d, k, if ok then n + 1 else n)
      ensures !ok ==> f0 < Need(d0[d].Keys, k.virt, top, false)
    {
      assert n == 1024 * (n / 1024) + n % 1024;
      ghost var d1, t1, o1, f1 := dirs, tabs, owner, |free|;
      ghost var pte := Pte(k.phys + n - k.virt, k.perm);
      ok := MapKernelPage(d, n, k.phys + n - k.virt, k.perm);
      if ok {
        AddedTrans(o0, o1, owner, d);
        TookMore(d0[d].Keys, f0, d1[d].Keys, f1, dirs[d].Keys, |free|, k.virt, n, false);
        PageKeeps(d0, t0, d1, t1, dirs, tabs, d, n / 1024, n % 1024, pte);
        PageKeepsOwn(d0, t0, d1, t1, dirs, tabs, d, n / 1024, n % 1024, pte);
        RangeMore(d1, t1, o1, dirs, tabs, d, k, n);
        BelowMore(d1, t1, o1, dirs, tabs, d, n, pte);
      } else {
        TooFew(d0[d].Keys, f0, d1[d].Keys, f1, k.virt, n, top, false);
      }
    }

    /** mappages' loop over one range of the kernel map. */
    method MapKernelLoop(d: int, k: KRange, ghost top: int, ghost d0: Dirs, ghost t0: Tabs, ghost o0: Owners,
        ghost f0: nat)
      returns (ok: bool, ghost n': int)
      requires 0x8_0000 <= k.virt && top == TopOf(k) <= 0x10_0000 && 0 <= k.count
      requires KernInv(d0, t0, o0, f0, d, k, k.virt)
      modifies this`free, this`dirs, this`tabs, this`owner
      ensures k.virt <= n' <= top && KernInv(d0, t0, o0, f0, d, k, n') && (ok ==> n' == top)
      ensures !ok ==> f0 < Need(d0[d].Keys, k.virt, top, false)
    {
      ok, n' := true, k.virt;
      var n := k.virt;
      while ok && n < k.virt + k.count
        invariant k.virt <= n' <= top && KernInv(d0, t0, o0, f0, d, k, n')
        invariant if ok then n == n' else f0 < Need(d0[d].Keys, k.virt, top, false)
        decreases ok, top - n
      {
        ok := MapKernelNext(d, k, n, top, d0, t0, o0, f0);
        n' := if ok then n + 1 else n;
        n := n + 1;
      }
    }

    /** mappages of one range of the kernel map. */
    method MapKernelRange(d: int, k: KRange, ghost top: int) returns (ok: bool)
      requires Valid() && d in dirs && 0x8_0000 <= k.virt && top == TopOf(k) <= 0x10_0000 && 0 <= k.count
      requires OnlyBelow(dirs, tabs, d, k.virt)
      modifies this`free, this`dirs, this`tabs, this`owner
      ensures Valid() && d in dirs && (forall e :: e in dirs <==> e in old(dirs)) && TablesAdded(old(owner), owner, d)
      ensures MapsBut(old(dirs), old(tabs), dirs, tabs, d) && MapsKept(old(dirs), old(tabs), dirs, tabs, d)
      ensures OnlyBelow(dirs, tabs, d, top)
      ensures ok ==> RangeDone(dirs, tabs, d, k, top)
      ensures !ok ==> |old(free)| < Need(old(dirs)[d].Keys, k.virt, top, false)
      ensures ok ==> TookRange(old(dirs)[d].Keys, |old(free)|, dirs[d].Keys, |free|, k.virt, top, false)
    {
      TookNone(dirs[d].Keys, |free|, k.virt, false);
      ghost var n;
      ok, n := MapKernelLoop(d, k, top, dirs, tabs, owner, |free|);
    }

    /** Directory d is new and takes nothing from the others. */
    ghost predicate NewSpace(d0: Dirs, t0: Tabs, o0: Owners, d: int)
      reads this
    {
      && Valid() && d in dirs && d !in d0 && (forall e :: e in dirs <==> e in d0 || e == d)
      && SpaceAdded(o0, owner, d) && MapsBut(d0, t0, dirs, tabs, d)
    }

    /** The first m ranges of the kernel map are mapped in d, and nothing else; ks are its entries. */
    ghost predicate SetupInv(d0: Dirs, t0: Tabs, o0: Owners, f0: nat, d: int, kmap: seq<KRange>, m: nat, ks: set<int>)
      reads this
    {
      && NewSpace(d0, t0, o0, d) && m <= |kmap|
      && OnlyBelow(dirs, tabs, d, if m == 0 then 0x8_0000 else TopOf(kmap[m - 1]))
      && (forall l :: 0 <= l < m ==> RangeDone(dirs, tabs, d, kmap[l], TopOf(kmap[l])))
      && dirs[d].Keys == ks && f0 == |free| + 1 + |ks|
    }

    /** So it is after m rounds, or the free pages do not suffice for tables ks. */
    ghost predicate SetupState(d0: Dirs, t0: Tabs, o0: Owners, f0: nat, d: int, kmap: seq<KRange>, m: nat, ks: set<int>,
        ok: bool)
      reads this
    {
      if ok then SetupInv(d0, t0, o0, f0, d, kmap, m, ks) else NewSpace(d0, t0, o0, d) && f0 < 1 + |ks|
    }

    /** One round of setupkvm's loop. */
    method SetupNext(d: int, kmap: seq<KRange>, m: nat, ghost d0: Dirs, ghost t0: Tabs, ghost o0: Owners, ghost f0: nat,
        ghost ks: set<int>, ghost ks': set<int>)
      returns (ok: bool)
      requires KmapOk(kmap) && m < |kmap| && ks' == ks + Entries(kmap[m].virt, TopOf(kmap[m]))
      requires SetupState(d0, t0, o0, f0, d, kmap, m, ks, true)
      modifies this`free, this`dirs, this`tabs, this`owner
      ensures SetupState(d0, t0, o0, f0, d, kmap, m + 1, ks', ok)
    {
      ghost var d1, t1, o1, f1 := dirs, tabs, owner, |free|;
      BelowUp(dirs, tabs, d, kmap, m);
      ok := MapKernelRange(d, kmap[m], TopOf(kmap[m]));
      MapsButTrans(d0, t0, d1, t1, dirs, tabs, d);
      SpaceMore(o0, o1, owner, d);
      if ok {
        KeptDone(d1, t1, dirs, tabs, d, kmap, m);
        RangeCounts(ks, f1, dirs[d].Keys, |free|, kmap[m].virt, TopOf(kmap[m]));
      } else {
        RangeFails(ks, f1, kmap[m].virt, TopOf(kmap[m]), ks');
      }
    }

    /** setupkvm's loop over the kernel map; without memory for a range it stops at once. */
    method SetupLoop(d: int, kmap: seq<KRange>, ghost d0: Dirs, ghost t0: Tabs, ghost o0: Owners, ghost f0: nat,
        ghost kss: seq<set<int>>)
      returns (ok: bool, ghost m': nat)
      requires KmapOk(kmap) && |kss| == |kmap| + 1 && forall m :: 0 <= m < |kmap| ==> TablesAt(kmap, kss, m)
      requires SetupState(d0, t0, o0, f0, d, kmap, 0, kss[0], true)
      modifies this`free, this`dirs, this`tabs, this`owner
      ensures m' <= |kmap| && (ok ==> m' == |kmap|) && SetupState(d0, t0, o0, f0, d, kmap, m', kss[m'], ok)
    {
      ok := true;
      var m := 0;
      while ok && m < |kmap|
        invariant 0 <= m <= |kmap| && SetupState(d0, t0, o0, f0, d, kmap, m, kss[m], ok)
        decreases ok, |kmap| - m
      {
        assert TablesAt(kmap, kss, m);
        ok := SetupNext(d, kmap, m, d0, t0, o0, f0, kss[m], kss[m + 1]);
        m := m + 1;
      }
      m' := m;
    }

    /** A new, empty directory in page d. */
    method StartDir(d: int)
      requires Valid() && d in owner && owner[d] == Held
      modifies this`dirs, this`owner
      ensures d !in old(dirs) && dirs == old(dirs)[d := map[]] && owner == old(owner)[d := DirPage] && Valid()
      ensures MapsBut(old(dirs), tabs, dirs, tabs, d) && OnlyBelow(dirs, tabs, d, 0x8_0000)
    {
      ghost var d0, o0 := dirs, owner;
      assert d !in dirs;
      dirs := dirs[d := map[]];
      owner := owner[d := DirPage];
      NewDir(free, d0, tabs, o0, d, dirs, owner);
    }

    /** setupkvm: a new directory with the kernel's mappings and no user page, or 0 with every
        page where it was; 0 exactly if the free pages do not suffice for it and its tables. */
    method SetupKvm(kmap: seq<KRange>) returns (d: int)
      requires Valid() && KmapOk(kmap)
      modifies this`free, this`dirs, this`tabs, this`owner
      ensures Valid() && (forall e :: e in dirs <==> e in old(dirs) || (d != 0 && e == d))
      ensures d == 0 ==> owner == old(owner) && SameMaps(old(dirs), old(tabs), dirs, tabs)
      ensures d != 0 ==>
        d !in old(dirs) && SpaceAdded(old(owner), owner, d) && MapsBut(old(dirs), old(tabs), dirs, tabs, d)
      ensures d != 0 ==> forall i, x :: Mapped(dirs, tabs, d, i, x) ==> i >= KERNDIR
      ensures d != 0 ==> forall m :: 0 <= m < |kmap| ==> RangeDone(dirs, tabs, d, kmap[m], TopOf(kmap[m]))
      ensures d != 0 <==> |old(free)| >= 1 + |KernelTables(kmap, |kmap|)|
      ensures d != 0 ==> |old(free)| == |free| + 1 + |KernelTables(kmap, |kmap|)|
      ensures d != 0 ==> dirs[d].Keys == KernelTables(kmap, |kmap|)
    {
      ghost var d0, t0, o0, f0 := dirs, tabs, owner, |free|;
      d := Kalloc();
      if d == 0 {
        return;
      }
      StartDir(d);
      ghost var kss := seq(|kmap| + 1, m requires 0 <= m <= |kmap| => KernelTables(kmap, m));
      var ok, m := SetupLoop(d, kmap, d0, t0, o0, f0, kss);
      if !ok {
        KernelPart(kmap, m);
        Subset(kss[m], KernelTables(kmap, |kmap|));
        AbandonCopy(d, d0, t0, o0);
        return 0;
      }
      forall i, x | Mapped(dirs, tabs, d, i, x) ensures i >= KERNDIR { IndexRange(dirs, tabs, owner, d, i, x); }
    }

    /** One round of copyuvm: page n of the child gets a copy of the parent's. */
    method CopyPage(d: int, nd: int, n: int) returns (ok: bool, ghost frame: int)
      requires Valid() && d in dirs && nd in dirs && d != nd && 0 <= n < 0x8_0000
      requires Mapped(dirs, tabs, d, n / 1024, n % 1024) && PteAt(dirs, tabs, d, n / 1024, n % 1024).pa in data
      requires !Mapped(dirs, tabs, nd, n / 1024, n % 1024)
      modifies this`free, this`dirs, this`tabs, this`owner, this`data
      ensures Valid() && (forall e :: e in dirs <==> e in old(dirs)) && SpaceAdded(old(owner), owner, nd)
      ensures Kept(old(owner), old(data), data)
      ensures !ok ==> dirs == old(dirs) && tabs == old(tabs)
      ensures ok ==> PageCopied(old(dirs), old(tabs), old(data), dirs, tabs, data, d, nd, n, frame)
      ensures nd in dirs && (ok <==> |old(free)| >= OneCost(old(dirs)[nd].Keys, n / 1024, true))
      ensures ok ==> |old(free)| == |free| + OneCost(old(dirs)[nd].Keys, n / 1024, true)
      ensures ok ==> EntryAdded(old(dirs)[nd].Keys, dirs[nd].Keys, n / 1024)
    {
      ghost var o0 := owner;
      var pte := tabs[dirs[d][n / 1024]][n % 1024];
      var mem;
      ok, mem := NewPage(nd, n, data[pte.pa], pte.flags);
      frame := mem;
      if ok {
        SpaceFrame(o0, owner, nd, mem, n / 1024, n % 1024);
      } else {
        GiveBack(mem, o0);
      }
    }

    /** The first n pages of d are copied into nd; all else is as at the call. */
    ghost predicate CopyInv(d0: Dirs, t0: Tabs, o0: Owners, c0: map<int, int>, d: int, nd: int, n: int)
      reads this
    {
      && Valid() && nd != d && nd !in d0 && nd in o0 && o0[nd] == Free
      && (forall e :: e in dirs <==> e in d0 || e == nd)
      && SpaceAdded(o0, owner, nd) && MapsBut(d0, t0, dirs, tabs, nd)
      && Copied(d0, t0, c0, dirs, tabs, data, d, nd, n) && Kept(o0, c0, data)
    }

    /** copyuvm's loop body: one page more, or only page-table pages; kn and f are the entries of nd
        and the free pages before the loop. */
    method CopyNext(d: int, nd: int, n: int, ghost top: int, ghost d0: Dirs, ghost t0: Tabs, ghost o0: Owners,
        ghost c0: map<int, int>, ghost kn: set<int>, ghost f: nat)
      returns (ok: bool)
      requires 0 <= n < top <= 0x8_0000 && d in d0 && FrameOk(d0, t0, o0) && TabOk(d0, t0, o0) &&
        AllThere(d0, t0, c0, d, top)
      requires CopyInv(d0, t0, o0, c0, d, nd, n) && TookRange(kn, f, dirs[nd].Keys, |free|, 0, n, true)
      modifies this`free, this`dirs, this`tabs, this`owner, this`data
      ensures CopyInv(d0, t0, o0, c0, d, nd, if ok then n + 1 else n)
      ensures if ok then TookRange(kn, f, dirs[nd].Keys, |free|, 0, n + 1, true) else f < Need(kn, 0, top, true)
    {
      ghost var d1, t1, o1, c1, f1 := dirs, tabs, owner, data, |free|;
      CopyReady(d0, t0, o0, c0, d1, t1, o1, c1, d, nd, n, top);
      ghost var frame;
      ok, frame := CopyPage(d, nd, n);
      SpaceTrans(o0, o1, owner, nd);
      KeptTrans(o0, c0, o1, c1, data, nd);
      if ok {
        PageKeeps(d0, t0, d1, t1, dirs, tabs, nd, n / 1024, n % 1024,
          Pte(frame, PteAt(d1, t1, d, n / 1024, n % 1024).flags));
        CopyMore(d0, t0, c0, d1, t1, o1, c1, dirs, tabs, data, d, nd, n, frame);
        TookMore(kn, f, d1[nd].Keys, f1, dirs[nd].Keys, |free|, 0, n, true);
      } else {
        TooFew(kn, f, d1[nd].Keys, f1, 0, n, top, true);
      }
    }

    /** copyuvm's loop. */
    method CopyPages(d: int, nd: int, sz: int, ghost d0: Dirs, ghost t0: Tabs, ghost o0: Owners,
        ghost c0: map<int, int>, ghost kn: set<int>, ghost f: nat)
      returns (ok: bool, ghost n': int)
      requires 0 <= sz <= KERNBASE && d in d0 && FrameOk(d0, t0, o0) && TabOk(d0, t0, o0) &&
        AllThere(d0, t0, c0, d, PgUp(sz))
      requires CopyInv(d0, t0, o0, c0, d, nd, 0) && kn == dirs[nd].Keys && f == |free|
      modifies this`free, this`dirs, this`tabs, this`owner, this`data
      ensures CopyInv(d0, t0, o0, c0, d, nd, n') && (ok ==> n' == PgUp(sz))
      ensures ok <==> f >= Need(kn, 0, PgUp(sz), true)
    {
      ok, n' := true, 0;
      var n := 0;
      TookNone(kn, f, 0, true);
      while ok && 4096 * n < sz
        invariant 0 <= n' <= n && n' <= PgUp(sz) && CopyInv(d0, t0, o0, c0, d, nd, n')
        invariant if ok then n == n' && TookRange(kn, f, dirs[nd].Keys, |free|, 0, n, true)
                  else f < Need(kn, 0, PgUp(sz), true)
        decreases ok, sz - 4096 * n
      {
        ok := CopyNext(d, nd, n, PgUp(sz), d0, t0, o0, c0, kn, f);
        n' := if ok then n + 1 else n;
        n := n + 1;
      }
    }

    /** copyuvm's way out: the half-built copy is freed again. */
    method AbandonCopy(nd: int, ghost d0: Dirs, ghost t0: Tabs, ghost o0: Owners)
      requires Valid() && nd in dirs && nd !in d0 && nd in o0 && o0[nd] == Free &&
        (forall e :: e in dirs <==> e in d0 || e == nd)
      requires TabOk(d0, t0, o0) && FrameOk(d0, t0, o0) && SpaceAdded(o0, owner, nd) && MapsBut(d0, t0, dirs, tabs, nd)
      modifies this`free, this`dirs, this`tabs, this`owner
      ensures Valid() && (forall e :: e in dirs <==> e in d0) && owner == o0 && SameMaps(d0, t0, dirs, tabs)
    {
      ghost var o2, d2, t2 := owner, dirs, tabs;
      FreeVm(nd);
      SpaceGone(d0, t0, o0, o2, owner, nd);
      MapsButTrans(d0, t0, d2, t2, dirs, tabs, nd);
      NothingIn(d0, t0, dirs, tabs, nd);
    }

    /** copyuvm: the child has the parent's pages, with equal contents and flags in frames of
        its own; on failure, exactly if the free pages do not suffice, every page is where it was. */
    method CopyUvm(d: int, sz: int, kmap: seq<KRange>) returns (nd: int)
      requires Valid() && d in dirs && 0 <= sz <= KERNBASE && KmapOk(kmap)
      requires AllThere(dirs, tabs, data, d, PgUp(sz))
      modifies this`free, this`dirs, this`tabs, this`owner, this`data
      ensures Valid() && (forall e :: e in dirs <==> e in old(dirs) || (nd != 0 && e == nd))
      ensures nd == 0 ==> owner == old(owner) && SameMaps(old(dirs), old(tabs), dirs, tabs)
      ensures nd != 0 ==>
        nd !in old(dirs) && SpaceAdded(old(owner), owner, nd) && MapsBut(old(dirs), old(tabs), dirs, tabs, nd)
      ensures nd != 0 ==> Copied(old(dirs), old(tabs), old(data), dirs, tabs, data, d, nd, PgUp(sz))
      ensures Kept(old(owner), old(data), data)
      ensures nd != 0 <==> |old(free)| >= 1 + |KernelTables(kmap, |kmap|)| + PgUp(sz) + |Entries(0, PgUp(sz))|
    {
      ghost var d0, t0, o0, c0 := dirs, tabs, owner, data;
      CopyCost(kmap, PgUp(sz));
      nd := SetupKvm(kmap);
      if nd == 0 {
        return;
      }
      var ok, _ := CopyPages(d, nd, sz, d0, t0, o0, c0, dirs[nd].Keys, |free|);
      if !ok {
        AbandonCopy(nd, d0, t0, o0);
        return 0;
      }
    }
  }

  /** All of d's mappings are kernel pages below top. */
  ghost predicate OnlyBelow(dirs: Dirs, tabs: Tabs, d: int, top: int) {
    forall i, x :: Mapped(dirs, tabs, d, i, x) ==> 0x8_0000 <= 1024 * i + x < top
  }

  /** d has the mappings it had. */
  ghost predicate MapsKept(d0: Dirs, t0: Tabs, dirs: Dirs, tabs: Tabs, d: int) {
    forall i, x :: Mapped(d0, t0, d, i, x) ==>
      Mapped(dirs, tabs, d, i, x) && PteAt(dirs, tabs, d, i, x) == PteAt(d0, t0, d, i, x)
  }

  /** The directory entries of the first m ranges of the kernel map. */
  function KernelTables(kmap: seq<KRange>, m: nat): set<int>
    requires m <= |kmap|
  {
    if m == 0 then {} else KernelTables(kmap, m - 1) + Entries(kmap[m - 1].virt, TopOf(kmap[m - 1]))
  }

  /** Entry m + 1 of kss adds to entry m what range m needs. */
  ghost predicate TablesAt(kmap: seq<KRange>, kss: seq<set<int>>, m: nat)
    requires m < |kmap| && |kss| == |kmap| + 1
  {
    kss[m + 1] == kss[m] + Entries(kmap[m].virt, TopOf(kmap[m]))
  }

  lemma {:induction false} KernelPart(kmap: seq<KRange>, m: nat)
    requires m <= |kmap|
    ensures KernelTables(kmap, m) <= KernelTables(kmap, |kmap|)
    decreases |kmap| - m
  {
    if m < |kmap| {
      KernelPart(kmap, m + 1);
    }
  }

  lemma {:induction false} KernelOnly(kmap: seq<KRange>, m: nat)
    requires KmapOk(kmap) && m <= |kmap|
    ensures forall j :: j in KernelTables(kmap, m) ==> j >= KERNDIR
  {
    if m > 0 {
      KernelOnly(kmap, m - 1);
    }
  }

  /** A copy of n user pages takes as many frames, and a table for each entry they need. */
  lemma CopyCost(kmap: seq<KRange>, n: int)
    requires KmapOk(kmap) && 0 <= n <= 0x8_0000
    ensures Need(KernelTables(kmap, |kmap|), 0, n, true) == n + |Entries(0, n)|
  {
    KernelOnly(kmap, |kmap|);
    UserApart(KernelTables(kmap, |kmap|), n);
  }

  lemma BelowUp(dirs: Dirs, tabs: Tabs, d: int, kmap: seq<KRange>, m: nat)
    requires KmapOk(kmap) && m < |kmap|
    requires OnlyBelow(dirs, tabs, d, if m == 0 then 0x8_0000 else TopOf(kmap[m - 1]))
    ensures OnlyBelow(dirs, tabs, d, kmap[m].virt)
  {
  }

  lemma BelowMore(d1: Dirs, t1: Tabs, o1: Owners, dirs: Dirs, tabs: Tabs, d: int, n: int, pte: Pte)
    requires OnlyBelow(d1, t1, d, n) && 0x8_0000 <= n && PageMapped(d1, t1, dirs, tabs, d, n / 1024, n % 1024, pte)
    ensures OnlyBelow(dirs, tabs, d, n + 1)
  {
    assert n == 1024 * (n / 1024) + n % 1024;
  }

  lemma PageKeepsOwn(d0: Dirs, t0: Tabs, d1: Dirs, t1: Tabs, dirs: Dirs, tabs: Tabs, d: int, i: int, x: int, pte: Pte)
    requires MapsKept(d0, t0, d1, t1, d) && PageMapped(d1, t1, dirs, tabs, d, i, x, pte) && !Mapped(d1, t1, d, i, x)
    ensures MapsKept(d0, t0, dirs, tabs, d)
  {
  }

  lemma PageKeeps(d0: Dirs, t0: Tabs, d1: Dirs, t1: Tabs, dirs: Dirs, tabs: Tabs, nd: int, i: int, x: int, pte: Pte)
    requires MapsBut(d0, t0, d1, t1, nd) && PageMapped(d1, t1, dirs, tabs, nd, i, x, pte)
    ensures MapsBut(d0, t0, dirs, tabs, nd)
  {
  }

  lemma CopyMore(d0: Dirs, t0: Tabs, c0: map<int, int>, d1: Dirs, t1: Tabs, o1: Owners, c1: map<int, int>, dirs: Dirs,
      tabs: Tabs, c: map<int, int>,
                 d: int, nd: int, n: int, mem: int)
    requires Copied(d0, t0, c0, d1, t1, c1, d, nd, n) && 0 <= n < 0x8_0000 && FrameOk(d1, t1, o1) && TabOk(d1, t1, o1)
    requires Mapped(d0, t0, d, n / 1024, n % 1024) && Mapped(d1, t1, d, n / 1024, n % 1024)
    requires PteAt(d1, t1, d, n / 1024, n % 1024) == PteAt(d0, t0, d, n / 1024, n % 1024)
    requires PteAt(d0, t0, d, n / 1024, n % 1024).pa in c0 && PteAt(d0, t0, d, n / 1024, n % 1024).pa in c1
    requires c1[PteAt(d0, t0, d, n / 1024, n % 1024).pa] == c0[PteAt(d0, t0, d, n / 1024, n % 1024).pa]
    requires Kept(o1, c1, c) && PageCopied(d1, t1, c1, dirs, tabs, c, d, nd, n, mem)
    ensures Copied(d0, t0, c0, dirs, tabs, c, d, nd, n + 1)
  {
    assert n == 1024 * (n / 1024) + n % 1024;
    forall i, x | 0 <= x < NPTENTRIES && InRange(i, x, 0, n + 1)
      ensures CopyOf(d0, t0, c0, dirs, tabs, c, d, nd, i, x)
    {
      if 1024 * i + x < n {
        assert InRange(i, x, 0, n) && CopyOf(d0, t0, c0, d1, t1, c1, d, nd, i, x);
        assert i < KERNDIR;
        assert o1[PteAt(d1, t1, nd, i, x).pa] == FrameOf(nd, i, x);
      } else {
        assert i == n / 1024 && x == n % 1024;
      }
    }
  }

  /** Page n of nd is frame mem, with the contents and flags d's page n has. */
  ghost predicate PageCopied(d1: Dirs, t1: Tabs, c1: map<int, int>, dirs: Dirs, tabs: Tabs, c: map<int, int>, d: int,
      nd: int, n: int, mem: int)
    requires Mapped(d1, t1, d, n / 1024, n % 1024) && PteAt(d1, t1, d, n / 1024, n % 1024).pa in c1
  {
    && mem in c && c[mem] == c1[PteAt(d1, t1, d, n / 1024, n % 1024).pa]
    && PageMapped(d1, t1, dirs, tabs, nd, n / 1024, n % 1024, Pte(mem, PteAt(d1, t1, d, n / 1024, n % 1024).flags))
  }

  /** The first n pages of nd are copies of those d had, and nd has no other user page. */
  ghost predicate Copied(d0: Dirs, t0: Tabs, c0: map<int, int>, dirs: Dirs, tabs: Tabs, c: map<int, int>, d: int,
      nd: int, n: int) {
    && (forall i, x :: i < KERNDIR && Mapped(dirs, tabs, nd, i, x) ==> InRange(i, x, 0, n))
    && (forall i, x :: 0 <= x < NPTENTRIES && InRange(i, x, 0, n) ==> CopyOf(d0, t0, c0, dirs, tabs, c, d, nd, i, x))
  }

  ghost predicate CopyOf(d0: Dirs, t0: Tabs, c0: map<int, int>, dirs: Dirs, tabs: Tabs, c: map<int, int>, d: int,
      nd: int, i: int, x: int) {
    && Mapped(d0, t0, d, i, x) && Mapped(dirs, tabs, nd, i, x)
    && PteAt(dirs, tabs, nd, i, x).flags == PteAt(d0, t0, d, i, x).flags
    && PteAt(dirs, tabs, nd, i, x).pa in c && PteAt(d0, t0, d, i, x).pa in c0
    && c[PteAt(dirs, tabs, nd, i, x).pa] == c0[PteAt(d0, t0, d, i, x).pa]
  }

  lemma SpaceTrans(o0: Owners, o1: Owners, o2: Owners, d: int)
    requires SpaceAdded(o0, o1, d) && SpaceAdded(o1, o2, d)
    ensures SpaceAdded(o0, o2, d)
  {
  }

  /** The first top pages of d are present. */
  ghost predicate AllThere(dirs: Dirs, tabs: Tabs, data: map<int, int>, d: int, top: int) {
    forall i, x :: 0 <= x < NPTENTRIES && InRange(i, x, 0, top) ==>
      Mapped(dirs, tabs, d, i, x) && PteAt(dirs, tabs, d, i, x).pa in data
  }

  /** No page in use changed its contents. */
  ghost predicate Kept(o: Owners, c: map<int, int>, c': map<int, int>) {
    forall p :: p in c && p in o && o[p] != Free ==> p in c' && c'[p] == c[p]
  }

  /** Page mem, if any, has been taken off the free list and not used. */
  ghost predicate LeftOver(o: Owners, o': Owners, mem: int) {
    if mem == 0 then o' == o else mem in o && o[mem] == Free && o' == o[mem := Held]
  }

  /** The frames of pages lo, ..., hi - 1 of d hold zeroes. */
  ghost predicate Zeroed(owner: Owners, data: map<int, int>, d: int, lo: int, hi: int) {
    forall p :: p in owner && owner[p].FrameOf? && owner[p].fd == d && InRange(owner[p].fi, owner[p].x, lo, hi) ==>
      p in data && data[p] == 0
  }

  lemma OneZeroed(dirs: Dirs, tabs: Tabs, owner: Owners, data: map<int, int>, d: int, n: int, mem: int)
    requires FrameOk(dirs, tabs, owner) && TabOk(dirs, tabs, owner) && 0 <= n && mem in data && data[mem] == 0
    requires mem in owner && owner[mem] == FrameOf(d, n / 1024, n % 1024)
    ensures Zeroed(owner, data, d, n, n + 1)
  {
    assert OwnedFrame(dirs, tabs, owner[mem], mem);
    forall p | p in owner && owner[p].FrameOf? && owner[p].fd == d && InRange(owner[p].fi, owner[p].x, n, n + 1)
      ensures p == mem
    {
      assert OwnedFrame(dirs, tabs, owner[p], p);
      IndexRange(dirs, tabs, owner, d, owner[p].fi, owner[p].x);
    }
  }

  lemma NotYet(d0: Dirs, t0: Tabs, dirs: Dirs, tabs: Tabs, d: int, lo: int, n: int, hi: int)
    requires RangeMapped(d0, t0, dirs, tabs, d, lo, n, PTE_W + PTE_U) && 0 <= lo <= n < hi
    requires forall i, x :: InRange(i, x, lo, hi) ==> !Mapped(d0, t0, d, i, x)
    ensures !Mapped(dirs, tabs, d, n / 1024, n % 1024)
  {
    assert n == 1024 * (n / 1024) + n % 1024;
  }

  lemma KeptAdded(o0: Owners, c0: map<int, int>, o1: Owners, c1: map<int, int>, c2: map<int, int>, d: int, lo: int,
      n: int)
    requires Kept(o0, c0, c1) && Kept(o1, c1, c2) && FramesAdded(o0, o1, d, lo, n)
    ensures Kept(o0, c0, c2)
  {
  }

  lemma ZeroedMore(o1: Owners, c1: map<int, int>, o2: Owners, c2: map<int, int>, d: int, lo: int, n: int)
    requires Zeroed(o1, c1, d, lo, n) && Kept(o1, c1, c2) && FramesAdded(o1, o2, d, n, n + 1) &&
      Zeroed(o2, c2, d, n, n + 1)
    ensures Zeroed(o2, c2, d, lo, n + 1)
  {
  }

  /** The free page mem became the frame of page (i, x) of d, and free pages became its tables. */
  ghost predicate FrameAdded(o: Owners, o': Owners, d: int, i: int, x: int, mem: int) {
    mem in o && o[mem] == Free && TablesAdded(o[mem := FrameOf(d, i, x)], o', d)
  }

  lemma KeptFree(o: Owners, c: map<int, int>, mem: int, v: int)
    requires mem in o && o[mem] == Free
    ensures Kept(o, c, c[mem := v])
  {
  }

  lemma SpaceFrame(o0: Owners, o2: Owners, nd: int, mem: int, i: int, x: int)
    requires FrameAdded(o0, o2, nd, i, x, mem)
    ensures SpaceAdded(o0, o2, nd)
  {
  }

  lemma KeptTrans(o0: Owners, c0: map<int, int>, o1: Owners, c1: map<int, int>, c2: map<int, int>, d: int)
    requires Kept(o0, c0, c1) && Kept(o1, c1, c2) && SpaceAdded(o0, o1, d)
    ensures Kept(o0, c0, c2)
  {
  }

  lemma CopyReady(d0: Dirs, t0: Tabs, o0: Owners, c0: map<int, int>, d1: Dirs, t1: Tabs, o1: Owners, c1: map<int, int>,
      d: int, nd: int, n: int, top: int)
    requires 0 <= n < top <= 0x8_0000 && d != nd && FrameOk(d0, t0, o0) && MapsBut(d0, t0, d1, t1, nd) &&
      TabOk(d1, t1, o1)
    requires AllThere(d0, t0, c0, d, top) && Copied(d0, t0, c0, d1, t1, c1, d, nd, n) && Kept(o0, c0, c1)
    ensures Mapped(d1, t1, d, n / 1024, n % 1024) &&
      PteAt(d1, t1, d, n / 1024, n % 1024) == PteAt(d0, t0, d, n / 1024, n % 1024)
    ensures PteAt(d0, t0, d, n / 1024, n % 1024).pa in c0
    ensures PteAt(d1, t1, d, n / 1024, n % 1024).pa in c1 &&
      c1[PteAt(d1, t1, d, n / 1024, n % 1024).pa] == c0[PteAt(d0, t0, d, n / 1024, n % 1024).pa]
    ensures !Mapped(d1, t1, nd, n / 1024, n % 1024)
  {
    assert n == 1024 * (n / 1024) + n % 1024;
    var i, x := n / 1024, n % 1024;
    assert InRange(i, x, 0, top) && Mapped(d0, t0, d, i, x);
    assert o0[PteAt(d0, t0, d, i, x).pa] == FrameOf(d, i, x);
    assert !InRange(i, x, 0, n);
  }

  /** The kernel map: ascending ranges above KERNBASE. */
  ghost predicate KmapOk(kmap: seq<KRange>) {
    && (forall m :: 0 <= m < |kmap| ==>
         0x8_0000 <= kmap[m].virt && 0 <= kmap[m].count && kmap[m].virt + kmap[m].count <= 0x10_0000)
    && (forall m :: 0 < m < |kmap| ==> kmap[m - 1].virt + kmap[m - 1].count <= kmap[m].virt)
  }

  /** Free pages became pages of address space d; no other page changed hands. */
  ghost predicate SpaceAdded(owner: Owners, owner': Owners, d: int) {
    && owner'.Keys == owner.Keys
    && forall p :: p in owner ==> owner'[p] == owner[p] || (owner[p] == Free && Belongs(owner'[p], p, d))
  }

  lemma SpaceMore(o0: Owners, o1: Owners, o2: Owners, d: int)
    requires SpaceAdded(o0, o1, d) && TablesAdded(o1, o2, d)
    ensures SpaceAdded(o0, o2, d)
  {
  }

  /** Building an address space and freeing it again leaves every page where it was. */
  lemma SpaceGone(d0: Dirs, t0: Tabs, o0: Owners, o1: Owners, o2: Owners, d: int)
    requires TabOk(d0, t0, o0) && FrameOk(d0, t0, o0) && d !in d0 && d in o0 && o0[d] == Free
    requires SpaceAdded(o0, o1, d) && AllFreed(o1, o2, d)
    ensures o2 == o0
  {
    forall p | p in o0 ensures o2[p] == o0[p] {
      if o0[p].FrameOf? { assert OwnedFrame(d0, t0, o0[p], p); }
    }
  }

  lemma NothingIn(d0: Dirs, t0: Tabs, dirs: Dirs, tabs: Tabs, d: int)
    requires MapsBut(d0, t0, dirs, tabs, d) && d !in d0 && d !in dirs
    ensures SameMaps(d0, t0, dirs, tabs)
  {
  }

  lemma KeptDone(d1: Dirs, t1: Tabs, dirs: Dirs, tabs: Tabs, d: int, kmap: seq<KRange>, m: nat)
    requires m < |kmap| && RangeDone(dirs, tabs, d, kmap[m], TopOf(kmap[m]))
    requires forall l :: 0 <= l < m ==> RangeDone(d1, t1, d, kmap[l], TopOf(kmap[l]))
    requires MapsKept(d1, t1, dirs, tabs, d)
    ensures forall l :: 0 <= l < m + 1 ==> RangeDone(dirs, tabs, d, kmap[l], TopOf(kmap[l]))
  {
    forall l | 0 <= l < m ensures RangeDone(dirs, tabs, d, kmap[l], TopOf(kmap[l])) {
      assert RangeDone(d1, t1, d, kmap[l], TopOf(kmap[l]));
    }
  }

  datatype KRange = KRange(virt: int, phys: int, count: int, perm: int)

  /** The page after the range. */
  function TopOf(k: KRange): int { k.virt + k.count }

  /** The pages of the range below n are mapped as the kernel map says. */
  ghost predicate RangeDone(dirs: Dirs, tabs: Tabs, d: int, k: KRange, n: int) {
    forall i, x :: 0 <= x < NPTENTRIES && InRange(i, x, k.virt, n) ==>
      Mapped(dirs, tabs, d, i, x) && PteAt(dirs, tabs, d, i, x) == Pte(k.phys + 1024 * i + x - k.virt, k.perm)
  }

  lemma RangeMore(d1: Dirs, t1: Tabs, o1: Owners, dirs: Dirs, tabs: Tabs, d: int, k: KRange, n: int)
    requires RangeDone(d1, t1, d, k, n) && n >= 0 && TabOk(d1, t1, o1)
    requires PageMapped(d1, t1, dirs, tabs, d, n / 1024, n % 1024, Pte(k.phys + n - k.virt, k.perm))
    ensures RangeDone(dirs, tabs, d, k, n + 1)
  {
    assert n == 1024 * (n / 1024) + n % 1024;
    forall i, x | 0 <= x < NPTENTRIES && InRange(i, x, k.virt, n + 1)
      ensures Mapped(dirs, tabs, d, i, x) && PteAt(dirs, tabs, d, i, x) == Pte(k.phys + 1024 * i + x - k.virt, k.perm)
    {
      if 1024 * i + x < n { assert InRange(i, x, k.virt, n); } else { assert i == n / 1024 && x == n % 1024; }
    }
  }

  lemma AddedTrans(o0: Owners, o1: Owners, o2: Owners, d: int)
    requires TablesAdded(o0, o1, d) && TablesAdded(o1, o2, d)
    ensures TablesAdded(o0, o2, d)
  {
  }

  /** Pages lo, ..., hi - 1 of d were mapped with the flags; nothing else changed. */
  ghost predicate RangeMapped(dirs: Dirs, tabs: Tabs, dirs': Dirs, tabs': Tabs, d: int, lo: int, hi: int, flags: int) {
    && (forall e, i, x :: Mapped(dirs', tabs', e, i, x) <==>
         (e == d && 0 <= x < NPTENTRIES && InRange(i, x, lo, hi)) || Mapped(dirs, tabs, e, i, x))
    && (forall e, i, x :: Mapped(dirs, tabs, e, i, x) && !(e == d && InRange(i, x, lo, hi)) ==>
         PteAt(dirs', tabs', e, i, x) == PteAt(dirs, tabs, e, i, x))
    && (forall i, x :: Mapped(dirs', tabs', d, i, x) && InRange(i, x, lo, hi) ==>
         PteAt(dirs', tabs', d, i, x).flags == flags)
  }

  /** Free pages became tables of d, or frames of the range; no other page changed hands. */
  ghost predicate FramesAdded(owner: Owners, owner': Owners, d: int, lo: int, hi: int) {
    && owner'.Keys == owner.Keys
    && forall p :: p in owner ==> owner'[p] == owner[p] || (owner[p] == Free && Added(owner'[p], d, lo, hi))
  }

  predicate Added(o: Owner, d: int, lo: int, hi: int) {
    (o.TabOf? && o.d == d) || (o.FrameOf? && o.fd == d && InRange(o.fi, o.x, lo, hi))
  }

  lemma PageIsRange(d0: Dirs, t0: Tabs, o0: Owners, dirs: Dirs, tabs: Tabs, d: int, n: int, mem: int, flags: int)
    requires TabOk(d0, t0, o0) && 0 <= n && !Mapped(d0, t0, d, n / 1024, n % 1024)
    requires PageMapped(d0, t0, dirs, tabs, d, n / 1024, n % 1024, Pte(mem, flags))
    ensures RangeMapped(d0, t0, dirs, tabs, d, n, n + 1, flags)
  {
    assert n == 1024 * (n / 1024) + n % 1024;
    var m := n + 1;
    forall i, x | 0 <= x < NPTENTRIES && InRange(i, x, n, m) ensures i == n / 1024 && x == n % 1024 { }
    forall e, i, x | Mapped(d0, t0, e, i, x) ensures 0 <= x < NPTENTRIES { IndexRange(d0, t0, o0, e, i, x); }
  }

  lemma FrameIsRange(o0: Owners, owner: Owners, d: int, n: int, mem: int)
    requires 0 <= n && FrameAdded(o0, owner, d, n / 1024, n % 1024, mem)
    ensures FramesAdded(o0, owner, d, n, n + 1)
  {
    assert n == 1024 * (n / 1024) + n % 1024;
  }

  lemma MappedMore(d0: Dirs, t0: Tabs, o0: Owners, d1: Dirs, t1: Tabs, o1: Owners, d2: Dirs, t2: Tabs, o2: Owners,
      d: int, lo: int, n: int)
    requires RangeMapped(d0, t0, d1, t1, d, lo, n, PTE_W + PTE_U) && FramesAdded(o0, o1, d, lo, n) && lo <= n
    requires RangeMapped(d1, t1, d2, t2, d, n, n + 1, PTE_W + PTE_U) && FramesAdded(o1, o2, d, n, n + 1)
    ensures RangeMapped(d0, t0, d2, t2, d, lo, n + 1, PTE_W + PTE_U) && FramesAdded(o0, o2, d, lo, n + 1)
  {
  }

  /** A failed allocuvm, undone by deallocuvm. */
  lemma Undone(d0: Dirs, t0: Tabs, o0: Owners, d1: Dirs, t1: Tabs, o1: Owners, t2: Tabs, o2: Owners, d: int, lo: int,
      n: int, hi: int)
    requires RangeMapped(d0, t0, d1, t1, d, lo, n, PTE_W + PTE_U) && FramesAdded(o0, o1, d, lo, n) && lo <= n <= hi
    requires FrameOk(d0, t0, o0) && forall i, x :: InRange(i, x, lo, hi) ==> !Mapped(d0, t0, d, i, x)
    requires FramesFreed(o1, o2, d, lo, hi) && RangeUnmapped(d1, t1, t2, d, lo, hi)
    ensures SameMaps(d0, t0, d1, t2) && TablesAdded(o0, o2, d)
  {
    forall p | p in o0 && o0[p].FrameOf? ensures !(o0[p].fd == d && InRange(o0[p].fi, o0[p].x, lo, hi)) {
      assert OwnedFrame(d0, t0, o0[p], p);
    }
  }

  /** Page (i, x) of directory d was mapped by pte; nothing else changed. */
  ghost predicate PageMapped(dirs: Dirs, tabs: Tabs, dirs': Dirs, tabs': Tabs, d: int, i: int, x: int, pte: Pte) {
    && (forall e, j, y :: Mapped(dirs', tabs', e, j, y) <==>
         (e == d && j == i && y == x) || Mapped(dirs, tabs, e, j, y))
    && (forall e, j, y :: Mapped(dirs', tabs', e, j, y) ==>
          (if e == d && j == i && y == x then PteAt(dirs', tabs', e, j, y) == pte
           else Mapped(dirs, tabs, e, j, y) && PteAt(dirs', tabs', e, j, y) == PteAt(dirs, tabs, e, j, y)))
  }

  /** Free pages may have become tables of d; no other page changed hands. */
  ghost predicate TablesAdded(owner: Owners, owner': Owners, d: int) {
    && owner'.Keys == owner.Keys
    && forall p :: p in owner ==> owner'[p] == owner[p] || (owner[p] == Free && owner'[p].TabOf? && owner'[p].d == d)
  }

  lemma MapsButTrans(d0: Dirs, t0: Tabs, d1: Dirs, t1: Tabs, d2: Dirs, t2: Tabs, d: int)
    requires MapsBut(d0, t0, d1, t1, d) && MapsBut(d1, t1, d2, t2, d)
    ensures MapsBut(d0, t0, d2, t2, d)
  {
  }

  lemma NoUserLeft(dirs: Dirs, t0: Tabs, o0: Owners, tabs: Tabs, owner: Owners, d: int)
    requires TabOk(dirs, t0, o0) && FrameOk(dirs, t0, o0) && TabOk(dirs, tabs, owner) && FrameOk(dirs, tabs, owner)
    requires FramesFreed(o0, owner, d, 0, 0x8_0000) && RangeUnmapped(dirs, t0, tabs, d, 0, 0x8_0000)
    ensures forall j, x :: j < KERNDIR ==> !Mapped(dirs, tabs, d, j, x)
    ensures MapsBut(dirs, t0, dirs, tabs, d)
    ensures forall p :: p in owner ==> !(owner[p].FrameOf? && owner[p].fd == d)
  {
    forall j, x | j < KERNDIR ensures !Mapped(dirs, tabs, d, j, x) {
      if Mapped(dirs, t0, d, j, x) { IndexRange(dirs, t0, o0, d, j, x); }
    }
    forall p | p in owner && owner[p].FrameOf? ensures owner[p].fd != d {
      assert OwnedFrame(dirs, tabs, owner[p], p);
    }
  }

  lemma TablesMore(o1: Owners, o2: Owners, o3: Owners, ds: Dirs, ts: Tabs, d: int, i: int)
    requires TablesFreed(o1, o2, d, i) && TabOk(ds, ts, o2) && d in ds
    requires i in ds[d] ==> o3 == o2[ds[d][i] := Free]
    requires i !in ds[d] ==> o3 == o2
    ensures TablesFreed(o1, o3, d, i + 1)
  {
    forall p | p in o1 ensures o3[p] == if o1[p].TabOf? && o1[p].d == d && o1[p].i < i + 1 then Free else o1[p] {
      if o1[p] == TabOf(d, i) { assert o2[p] == TabOf(d, i) && ds[d][i] == p; }
    }
  }

  lemma AllFreedIs(d0: Dirs, t0: Tabs, o0: Owners, o1: Owners, o2: Owners, o3: Owners, d: int)
    requires TabOk(d0, t0, o0) && FrameOk(d0, t0, o0) && d in o0 && o0[d] == DirPage
    requires FramesFreed(o0, o1, d, 0, 0x8_0000) && TablesFreed(o1, o2, d, NPDENTRIES) && o3 == o2[d := Free]
    ensures AllFreed(o0, o3, d)
  {
    forall p | p in o0 ensures o3[p] == if Belongs(o0[p], p, d) then Free else o0[p] {
      if o0[p].FrameOf? {
        assert OwnedFrame(d0, t0, o0[p], p);
        IndexRange(d0, t0, o0, o0[p].fd, o0[p].fi, o0[p].x);
      }
    }
  }

  /** Address spaces other than d map what they did. */
  ghost predicate MapsBut(dirs: Dirs, tabs: Tabs, dirs': Dirs, tabs': Tabs, d: int) {
    && (forall e, i, x :: e != d ==> (Mapped(dirs', tabs', e, i, x) <==> Mapped(dirs, tabs, e, i, x)))
    && (forall e, i, x :: e != d && Mapped(dirs, tabs, e, i, x) ==>
         PteAt(dirs', tabs', e, i, x) == PteAt(dirs, tabs, e, i, x))
  }

  predicate Belongs(o: Owner, p: int, d: int) {
    p == d || (o.TabOf? && o.d == d) || (o.FrameOf? && o.fd == d)
  }

  ghost predicate AllFreed(owner: Owners, owner': Owners, d: int) {
    && owner'.Keys == owner.Keys
    && forall p :: p in owner ==> owner'[p] == if Belongs(owner[p], p, d) then Free else owner[p]
  }

  ghost predicate TablesFreed(owner: Owners, owner': Owners, d: int, i: int) {
    && owner'.Keys == owner.Keys
    && forall p :: p in owner ==>
         owner'[p] == if owner[p].TabOf? && owner[p].d == d && owner[p].i < i then Free else owner[p]
  }

  lemma FreedSelf(dirs: Dirs, tabs: Tabs, owner: Owners, d: int, lo: int)
    ensures FramesFreed(owner, owner, d, lo, lo) && RangeUnmapped(dirs, tabs, tabs, d, lo, lo)
  {
  }

  lemma IndexRange(dirs: Dirs, tabs: Tabs, owner: Owners, e: int, j: int, y: int)
    requires TabOk(dirs, tabs, owner) && Mapped(dirs, tabs, e, j, y)
    ensures 0 <= j < 1024 && 0 <= y < 1024
  {
    var t := dirs[e][j];
    assert t in tabs && y in tabs[t];
  }

  /** Only (i, x) is page 1024 * i + x. */
  lemma OnePage(dirs: Dirs, tabs: Tabs, owner: Owners, d: int, i: int, x: int)
    requires TabOk(dirs, tabs, owner) && FrameOk(dirs, tabs, owner) && 0 <= x < NPTENTRIES
    ensures forall e, j, y :: Mapped(dirs, tabs, e, j, y) && InRange(j, y, 1024 * i + x, 1024 * i + x + 1) ==>
      j == i && y == x
    ensures forall p ::
      p in owner && owner[p].FrameOf? && InRange(owner[p].fi, owner[p].x, 1024 * i + x, 1024 * i + x + 1) ==>
      owner[p].fi == i && owner[p].x == x
  {
    forall e, j, y | Mapped(dirs, tabs, e, j, y) && InRange(j, y, 1024 * i + x, 1024 * i + x + 1)
      ensures j == i && y == x
    {
      IndexRange(dirs, tabs, owner, e, j, y);
    }
    forall p | p in owner && owner[p].FrameOf? && InRange(owner[p].fi, owner[p].x, 1024 * i + x, 1024 * i + x + 1)
      ensures owner[p].fi == i && owner[p].x == x
    {
      assert OwnedFrame(dirs, tabs, owner[p], p);
      IndexRange(dirs, tabs, owner, owner[p].fd, owner[p].fi, owner[p].x);
    }
  }

  /** Where entry i of the directory is absent, nothing is mapped in its four megabytes. */
  lemma NothingThere(dirs: Dirs, tabs: Tabs, owner: Owners, d: int, lo: int, hi: int, i: int)
    requires TabOk(dirs, tabs, owner) && FrameOk(dirs, tabs, owner) && d in dirs && i !in dirs[d] && 1024 * i <= lo &&
      hi <= 1024 * (i + 1)
    ensures forall j, y :: Mapped(dirs, tabs, d, j, y) ==> !InRange(j, y, lo, hi)
    ensures forall p :: p in owner && owner[p].FrameOf? && owner[p].fd == d ==>
      !InRange(owner[p].fi, owner[p].x, lo, hi)
  {
    forall j, y | Mapped(dirs, tabs, d, j, y) ensures !InRange(j, y, lo, hi) {
      IndexRange(dirs, tabs, owner, d, j, y);
    }
    forall p | p in owner && owner[p].FrameOf? && owner[p].fd == d ensures !InRange(owner[p].fi, owner[p].x, lo, hi) {
      assert OwnedFrame(dirs, tabs, owner[p], p);
      IndexRange(dirs, tabs, owner, d, owner[p].fi, owner[p].x);
    }
  }

  /** The same for one absent table entry. */
  lemma NothingHere(dirs: Dirs, tabs: Tabs, owner: Owners, d: int, i: int, x: int, n: int)
    requires TabOk(dirs, tabs, owner) && FrameOk(dirs, tabs, owner) && 0 <= x < 1024 && n == 1024 * i + x &&
      !Mapped(dirs, tabs, d, i, x)
    ensures forall j, y :: Mapped(dirs, tabs, d, j, y) ==> !InRange(j, y, n, n + 1)
    ensures forall p :: p in owner && owner[p].FrameOf? && owner[p].fd == d ==>
      !InRange(owner[p].fi, owner[p].x, n, n + 1)
  {
    OnePage(dirs, tabs, owner, d, i, x);
    forall p | p in owner && owner[p].FrameOf? && owner[p].fd == d ensures !InRange(owner[p].fi, owner[p].x, n, n + 1) {
      assert OwnedFrame(dirs, tabs, owner[p], p);
    }
  }

  /** Freed up to m, and nothing or one more range after it. */
  lemma FreedMore(dirs: Dirs, t0: Tabs, o0: Owners, t1: Tabs, o1: Owners, t2: Tabs, o2: Owners, d: int, lo: int,
      m: int, m': int)
    requires FramesFreed(o0, o1, d, lo, m) && RangeUnmapped(dirs, t0, t1, d, lo, m) && lo <= m <= m'
    requires FramesFreed(o1, o2, d, m, m') && RangeUnmapped(dirs, t1, t2, d, m, m')
    ensures FramesFreed(o0, o2, d, lo, m') && RangeUnmapped(dirs, t0, t2, d, lo, m')
  {
  }

  lemma FreedNothing(dirs: Dirs, tabs: Tabs, owner: Owners, d: int, m: int, m': int)
    requires forall j, y :: Mapped(dirs, tabs, d, j, y) ==> !InRange(j, y, m, m')
    requires forall p :: p in owner && owner[p].FrameOf? && owner[p].fd == d ==>
      !InRange(owner[p].fi, owner[p].x, m, m')
    ensures FramesFreed(owner, owner, d, m, m') && RangeUnmapped(dirs, tabs, tabs, d, m, m')
  {
  }

  lemma PoppedHas(f: seq<int>)
    requires f != [] && forall i, j :: 0 <= i < j < |f| ==> f[i] != f[j]
    ensures forall q :: q in f[1..] <==> q in f && q != f[0]
  {
  }
}
