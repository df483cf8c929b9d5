// Page tables and the page allocator of Ass2/vm.c and Ass2/kalloc.c.  Pages are numbered; a
// virtual page is a directory index and a table index of ten bits each.

module VmModel {
  const NPDENTRIES := 1024
  const NPTENTRIES := 1024
  const KERNDIR := 512            // the directory index of KERNBASE

  datatype Pte = Pte(pa: int, flags: int)

  /** What a page is in use as.  Held is for clients outside this module. */
  datatype Owner = Free | Held | DirPage | TabOf(d: int, i: int) | FrameOf(fd: int, fi: int, x: int)

  /** Present directory entries, by directory page and index; likewise for tables. */
  type Dirs = map<int, map<int, int>>
  type Tabs = map<int, map<int, Pte>>
  type Owners = map<int, Owner>

  predicate Mapped(dirs: Dirs, tabs: Tabs, d: int, i: int, x: int) {
    d in dirs && i in dirs[d] && dirs[d][i] in tabs && x in tabs[dirs[d][i]]
  }

  function PteAt(dirs: Dirs, tabs: Tabs, d: int, i: int, x: int): Pte
    requires Mapped(dirs, tabs, d, i, x)
  {
    tabs[dirs[d][i]][x]
  }

  /** The free list holds each free page once. */
  ghost predicate FreeOk(free: seq<int>, owner: Owners) {
    && 0 !in owner
    && (forall i, j :: 0 <= i < j < |free| ==> free[i] != free[j])
    && (forall p :: p in free <==> p in owner && owner[p] == Free)
  }

  ghost predicate DirOk(dirs: Dirs, owner: Owners) {
    forall d :: d in dirs <==> d in owner && owner[d] == DirPage
  }

  /** Each table page hangs in exactly one directory entry. */
  ghost predicate TabOk(dirs: Dirs, tabs: Tabs, owner: Owners) {
    && (forall d, i :: d in dirs && i in dirs[d] ==>
         0 <= i < NPDENTRIES && dirs[d][i] in owner && owner[dirs[d][i]] == TabOf(d, i) && dirs[d][i] in tabs)
    && (forall p :: p in owner && owner[p].TabOf? ==>
         owner[p].d in dirs && owner[p].i in dirs[owner[p].d] && dirs[owner[p].d][owner[p].i] == p)
    && (forall p :: p in tabs ==> p in owner && owner[p].TabOf?)
    && (forall p, x :: p in tabs && x in tabs[p] ==> 0 <= x < NPTENTRIES)
  }

  /** Each user frame is mapped by exactly one table entry below KERNBASE. */
  ghost predicate FrameOk(dirs: Dirs, tabs: Tabs, owner: Owners) {
    && (forall d, i, x :: i < KERNDIR && Mapped(dirs, tabs, d, i, x) ==>
          PteAt(dirs, tabs, d, i, x).pa in owner && owner[PteAt(dirs, tabs, d, i, x).pa] == FrameOf(d, i, x))
    && (forall p :: p in owner && owner[p].FrameOf? ==> OwnedFrame(dirs, tabs, owner[p], p))
  }

  ghost predicate OwnedFrame(dirs: Dirs, tabs: Tabs, o: Owner, p: int)
    requires o.FrameOf?
  {
    o.fi < KERNDIR && Mapped(dirs, tabs, o.fd, o.fi, o.x) && PteAt(dirs, tabs, o.fd, o.fi, o.x).pa == p
  }

  ghost predicate Inv(free: seq<int>, dirs: Dirs, tabs: Tabs, owner: Owners) {
    FreeOk(free, owner) && DirOk(dirs, owner) && TabOk(dirs, tabs, owner) && FrameOk(dirs, tabs, owner)
  }

  // ---------- pages change hands ----------

  predicate Loose(o: Owner) { o == Free || o == Held }

  /** Between the free list and clients the tables do not matter. */
  lemma HandOver(free: seq<int>, free': seq<int>, dirs: Dirs, tabs: Tabs, owner: Owners, p: int, o: Owner)
    requires Inv(free, dirs, tabs, owner) && p in owner && Loose(owner[p]) && Loose(o) && FreeOk(free', owner[p := o])
    ensures Inv(free', dirs, tabs, owner[p := o])
  {
  }

  /** The same mappings and the same frames. */
  lemma SameFrames(dirs: Dirs, tabs: Tabs, owner: Owners, dirs': Dirs, tabs': Tabs, owner': Owners)
    requires FrameOk(dirs, tabs, owner)
    requires forall d, i, x :: Mapped(dirs', tabs', d, i, x) <==> Mapped(dirs, tabs, d, i, x)
    requires forall d, i, x :: Mapped(dirs, tabs, d, i, x) ==>
      PteAt(dirs', tabs', d, i, x) == PteAt(dirs, tabs, d, i, x)
    requires forall p :: (p in owner' && owner'[p].FrameOf?) <==> (p in owner && owner[p].FrameOf?)
    requires forall p :: p in owner && owner[p].FrameOf? ==> owner'[p] == owner[p]
    ensures FrameOk(dirs', tabs', owner')
  {
  }

  lemma NewTableMaps(dirs: Dirs, tabs: Tabs, owner: Owners, d: int, i: int, t: int, dirs': Dirs, tabs': Tabs)
    requires TabOk(dirs, tabs, owner) && t in owner && owner[t] == Held && d in dirs && i !in dirs[d]
    requires dirs' == dirs[d := dirs[d][i := t]] && tabs' == tabs[t := map[]]
    ensures forall e, j, x :: Mapped(dirs', tabs', e, j, x) <==> Mapped(dirs, tabs, e, j, x)
    ensures forall e, j, x :: Mapped(dirs, tabs, e, j, x) ==> PteAt(dirs', tabs', e, j, x) == PteAt(dirs, tabs, e, j, x)
  {
    forall e, j | e in dirs && j in dirs[e]
      ensures e in dirs' && j in dirs'[e] && dirs'[e][j] == dirs[e][j] && dirs[e][j] != t { }
    forall e, j, x ensures Mapped(dirs', tabs', e, j, x) <==> Mapped(dirs, tabs, e, j, x) {
      if e in dirs' && j in dirs'[e] && !(e == d && j == i) { assert e in dirs && j in dirs[e]; }
    }
  }

  lemma NewTableTab(dirs: Dirs, tabs: Tabs, owner: Owners, d: int, i: int, t: int, dirs': Dirs, tabs': Tabs)
    requires TabOk(dirs, tabs, owner) && t in owner && owner[t] == Held && d in dirs && 0 <= i < NPDENTRIES &&
      i !in dirs[d]
    requires dirs' == dirs[d := dirs[d][i := t]] && tabs' == tabs[t := map[]]
    ensures TabOk(dirs', tabs', owner[t := TabOf(d, i)])
  {
    var owner' := owner[t := TabOf(d, i)];
    forall e, j | e in dirs' && j in dirs'[e]
      ensures 0 <= j < NPDENTRIES && dirs'[e][j] in owner' && owner'[dirs'[e][j]] == TabOf(e, j) && dirs'[e][j] in tabs'
    {
      if !(e == d && j == i) { assert e in dirs && j in dirs[e] && dirs'[e][j] == dirs[e][j]; }
    }
  }

  /** A client's page becomes a page table. */
  lemma NewTable(free: seq<int>, dirs: Dirs, tabs: Tabs, owner: Owners, d: int, i: int, t: int, dirs': Dirs,
      tabs': Tabs, owner': Owners)
    requires Inv(free, dirs, tabs, owner) && t in owner && owner[t] == Held && d in dirs && 0 <= i < NPDENTRIES &&
      i !in dirs[d]
    requires dirs' == dirs[d := dirs[d][i := t]] && tabs' == tabs[t := map[]] && owner' == owner[t := TabOf(d, i)]
    ensures Inv(free, dirs', tabs', owner')
    ensures forall e, j, x :: Mapped(dirs', tabs', e, j, x) <==> Mapped(dirs, tabs, e, j, x)
    ensures forall e, j, x :: Mapped(dirs, tabs, e, j, x) ==> PteAt(dirs', tabs', e, j, x) == PteAt(dirs, tabs, e, j, x)
  {
    NewTableMaps(dirs, tabs, owner, d, i, t, dirs', tabs');
    NewTableTab(dirs, tabs, owner, d, i, t, dirs', tabs');
    SameFrames(dirs, tabs, owner, dirs', tabs', owner');
  }

  // ---------- entries of a table change ----------

  ghost predicate SameTables(owner: Owners, owner': Owners) {
    && (forall p :: p in owner && owner[p].TabOf? ==> p in owner' && owner'[p] == owner[p])
    && (forall p :: p in owner' && owner'[p].TabOf? ==> p in owner && owner[p] == owner'[p])
  }

  /** Rewriting table t of entry i of directory d changes only what it maps there. */
  lemma TableWrite(dirs: Dirs, tabs: Tabs, owner: Owners, d: int, i: int, t: int, row: map<int, Pte>, tabs': Tabs,
      owner': Owners)
    requires TabOk(dirs, tabs, owner) && d in dirs && i in dirs[d] && t == dirs[d][i] && tabs' == tabs[t := row]
    requires (forall x :: x in row ==> 0 <= x < NPTENTRIES) && SameTables(owner, owner')
    ensures TabOk(dirs, tabs', owner')
    ensures forall e, j, x :: Mapped(dirs, tabs', e, j, x) <==>
      if e == d && j == i then x in row else Mapped(dirs, tabs, e, j, x)
    ensures forall e, j, x :: Mapped(dirs, tabs', e, j, x) ==>
      PteAt(dirs, tabs', e, j, x) == if e == d && j == i then row[x] else PteAt(dirs, tabs, e, j, x)
  {
    forall e, j | e in dirs && j in dirs[e] && dirs[e][j] == t ensures e == d && j == i { }
  }

  lemma MapFrame(free: seq<int>, dirs: Dirs, tabs: Tabs, owner: Owners, d: int, i: int, x: int, pte: Pte, tabs': Tabs,
      owner': Owners)
    requires Inv(free, dirs, tabs, owner) && d in dirs && i in dirs[d] && i < KERNDIR && 0 <= x < NPTENTRIES &&
      !Mapped(dirs, tabs, d, i, x)
    requires pte.pa in owner && owner[pte.pa] == Held && owner' == owner[pte.pa := FrameOf(d, i, x)]
    requires dirs[d][i] in tabs && tabs' == tabs[dirs[d][i] := tabs[dirs[d][i]][x := pte]]
    ensures Inv(free, dirs, tabs', owner')
    ensures forall e, j, y :: Mapped(dirs, tabs', e, j, y) <==>
      (e == d && j == i && y == x) || Mapped(dirs, tabs, e, j, y)
    ensures forall e, j, y :: Mapped(dirs, tabs', e, j, y) ==>
      PteAt(dirs, tabs', e, j, y) == if e == d && j == i && y == x then pte else PteAt(dirs, tabs, e, j, y)
  {
    var t := dirs[d][i];
    TableWrite(dirs, tabs, owner, d, i, t, tabs[t][x := pte], tabs', owner');
    assert Mapped(dirs, tabs', d, i, x) && PteAt(dirs, tabs', d, i, x) == pte;
    forall e, j, y | j < KERNDIR && Mapped(dirs, tabs', e, j, y)
      ensures PteAt(dirs, tabs', e, j, y).pa in owner' && owner'[PteAt(dirs, tabs', e, j, y).pa] == FrameOf(e, j, y)
    {
      if !(e == d && j == i && y == x) {
        assert Mapped(dirs, tabs, e, j, y) && owner[PteAt(dirs, tabs, e, j, y).pa] == FrameOf(e, j, y);
      }
    }
    forall p | p in owner' && owner'[p].FrameOf? ensures OwnedFrame(dirs, tabs', owner'[p], p) {
      if p != pte.pa { assert OwnedFrame(dirs, tabs, owner[p], p); }
    }
  }

  /** Kernel mappings own nothing. */
  lemma MapKernel(free: seq<int>, dirs: Dirs, tabs: Tabs, owner: Owners, d: int, i: int, x: int, pte: Pte, tabs': Tabs)
    requires Inv(free, dirs, tabs, owner) && d in dirs && i in dirs[d] && KERNDIR <= i && 0 <= x < NPTENTRIES
    requires dirs[d][i] in tabs && tabs' == tabs[dirs[d][i] := tabs[dirs[d][i]][x := pte]]
    ensures Inv(free, dirs, tabs', owner)
    ensures forall e, j, y :: Mapped(dirs, tabs', e, j, y) <==>
      (e == d && j == i && y == x) || Mapped(dirs, tabs, e, j, y)
    ensures forall e, j, y :: Mapped(dirs, tabs', e, j, y) ==>
      PteAt(dirs, tabs', e, j, y) == if e == d && j == i && y == x then pte else PteAt(dirs, tabs, e, j, y)
  {
    var t := dirs[d][i];
    TableWrite(dirs, tabs, owner, d, i, t, tabs[t][x := pte], tabs', owner);
    forall p | p in owner && owner[p].FrameOf? ensures OwnedFrame(dirs, tabs', owner[p], p) {
      assert OwnedFrame(dirs, tabs, owner[p], p);
    }
  }

  /** A user frame is taken out of its table. */
  lemma UnmapFrame(free: seq<int>, dirs: Dirs, tabs: Tabs, owner: Owners, d: int, i: int, x: int, tabs': Tabs,
      owner': Owners)
    requires Inv(free, dirs, tabs, owner) && Mapped(dirs, tabs, d, i, x) && i < KERNDIR
    requires tabs' == tabs[dirs[d][i] := tabs[dirs[d][i]] - {x}] &&
      owner' == owner[PteAt(dirs, tabs, d, i, x).pa := Held]
    ensures Inv(free, dirs, tabs', owner')
    ensures forall e, j, y :: Mapped(dirs, tabs', e, j, y) <==>
      !(e == d && j == i && y == x) && Mapped(dirs, tabs, e, j, y)
    ensures forall e, j, y :: Mapped(dirs, tabs', e, j, y) ==> PteAt(dirs, tabs', e, j, y) == PteAt(dirs, tabs, e, j, y)
  {
    var t := dirs[d][i];
    TableWrite(dirs, tabs, owner, d, i, t, tabs[t] - {x}, tabs', owner');
    var pa := PteAt(dirs, tabs, d, i, x).pa;
    assert pa in owner && owner[pa] == FrameOf(d, i, x);
    forall e, j, y | j < KERNDIR && Mapped(dirs, tabs', e, j, y)
      ensures PteAt(dirs, tabs', e, j, y).pa in owner' && owner'[PteAt(dirs, tabs', e, j, y).pa] == FrameOf(e, j, y)
    {
      assert Mapped(dirs, tabs, e, j, y) && owner[PteAt(dirs, tabs, e, j, y).pa] == FrameOf(e, j, y);
    }
    forall p | p in owner' && owner'[p].FrameOf? ensures OwnedFrame(dirs, tabs', owner'[p], p) {
      assert OwnedFrame(dirs, tabs, owner[p], p);
    }
  }

  // ---------- a directory goes ----------

  /** An empty table, or a kernel table, leaves its directory. */
  lemma DropTable(free: seq<int>, dirs: Dirs, tabs: Tabs, owner: Owners, d: int, i: int, dirs': Dirs, tabs': Tabs,
      owner': Owners)
    requires Inv(free, dirs, tabs, owner) && d in dirs && i in dirs[d] &&
      (i < KERNDIR ==> forall x :: !Mapped(dirs, tabs, d, i, x))
    requires dirs' == dirs[d := dirs[d] - {i}] && tabs' == tabs - {dirs[d][i]} && owner' == owner[dirs[d][i] := Held]
    ensures Inv(free, dirs', tabs', owner')
    ensures forall e, j, x :: Mapped(dirs', tabs', e, j, x) <==> !(e == d && j == i) && Mapped(dirs, tabs, e, j, x)
    ensures forall e, j, x :: Mapped(dirs', tabs', e, j, x) ==>
      PteAt(dirs', tabs', e, j, x) == PteAt(dirs, tabs, e, j, x)
  {
    DropMaps(dirs, tabs, owner, d, i, dirs', tabs');
    DropTab(dirs, tabs, owner, d, i, dirs', tabs', owner');
    var t := dirs[d][i];
    assert t in owner && owner[t] == TabOf(d, i);
    DropFrames(dirs, tabs, owner, d, i, dirs', tabs', owner');
  }

  lemma DropMaps(dirs: Dirs, tabs: Tabs, owner: Owners, d: int, i: int, dirs': Dirs, tabs': Tabs)
    requires TabOk(dirs, tabs, owner) && d in dirs && i in dirs[d]
    requires dirs' == dirs[d := dirs[d] - {i}] && tabs' == tabs - {dirs[d][i]}
    ensures forall e, j, x :: Mapped(dirs', tabs', e, j, x) <==> !(e == d && j == i) && Mapped(dirs, tabs, e, j, x)
    ensures forall e, j, x :: Mapped(dirs', tabs', e, j, x) ==>
      PteAt(dirs', tabs', e, j, x) == PteAt(dirs, tabs, e, j, x)
  {
    forall e, j | e in dirs && j in dirs[e] && dirs[e][j] == dirs[d][i] ensures e == d && j == i { }
    forall e, j | e in dirs && j in dirs[e] && !(e == d && j == i)
      ensures e in dirs' && j in dirs'[e] && dirs'[e][j] == dirs[e][j] { }
    forall e, j | e in dirs' && j in dirs'[e]
      ensures e in dirs && j in dirs[e] && dirs'[e][j] == dirs[e][j] && !(e == d && j == i) { }
  }

  lemma DropTab(dirs: Dirs, tabs: Tabs, owner: Owners, d: int, i: int, dirs': Dirs, tabs': Tabs, owner': Owners)
    requires TabOk(dirs, tabs, owner) && d in dirs && i in dirs[d]
    requires dirs' == dirs[d := dirs[d] - {i}] && tabs' == tabs - {dirs[d][i]} && owner' == owner[dirs[d][i] := Held]
    ensures TabOk(dirs', tabs', owner')
  {
    var t := dirs[d][i];
    forall e, j | e in dirs' && j in dirs'[e]
      ensures 0 <= j < NPDENTRIES && dirs'[e][j] in owner' && owner'[dirs'[e][j]] == TabOf(e, j) && dirs'[e][j] in tabs'
    {
      assert e in dirs && j in dirs[e] && dirs'[e][j] == dirs[e][j];
    }
    forall p | p in owner' && owner'[p].TabOf?
      ensures owner'[p].d in dirs' && owner'[p].i in dirs'[owner'[p].d] && dirs'[owner'[p].d][owner'[p].i] == p
    {
      assert p != t && owner'[p] == owner[p];
    }
  }

  lemma DropFrames(dirs: Dirs, tabs: Tabs, owner: Owners, d: int, i: int, dirs': Dirs, tabs': Tabs, owner': Owners)
    requires FrameOk(dirs, tabs, owner) && d in dirs && i in dirs[d] &&
      (i < KERNDIR ==> forall x :: !Mapped(dirs, tabs, d, i, x))
    requires dirs[d][i] in owner && owner[dirs[d][i]] == TabOf(d, i) && owner' == owner[dirs[d][i] := Held]
    requires forall e, j, x :: Mapped(dirs', tabs', e, j, x) <==> !(e == d && j == i) && Mapped(dirs, tabs, e, j, x)
    requires forall e, j, x :: Mapped(dirs', tabs', e, j, x) ==>
      PteAt(dirs', tabs', e, j, x) == PteAt(dirs, tabs, e, j, x)
    ensures FrameOk(dirs', tabs', owner')
  {
    forall p | p in owner' && owner'[p].FrameOf? ensures OwnedFrame(dirs', tabs', owner'[p], p) {
      assert OwnedFrame(dirs, tabs, owner[p], p);
    }
  }

  /** A directory with no tables left. */
  lemma DropDir(free: seq<int>, dirs: Dirs, tabs: Tabs, owner: Owners, d: int, dirs': Dirs, owner': Owners)
    requires Inv(free, dirs, tabs, owner) && d in dirs && (forall i :: i !in dirs[d]) && dirs' == dirs - {d} &&
      owner' == owner[d := Held]
    ensures Inv(free, dirs', tabs, owner')
    ensures forall e, j, x :: Mapped(dirs', tabs, e, j, x) <==> Mapped(dirs, tabs, e, j, x)
    ensures forall e, j, x :: Mapped(dirs', tabs, e, j, x) ==> PteAt(dirs', tabs, e, j, x) == PteAt(dirs, tabs, e, j, x)
  {
    assert d in owner && owner[d] == DirPage;
    SameFrames(dirs, tabs, owner, dirs', tabs, owner');
  }

  lemma NewDir(free: seq<int>, dirs: Dirs, tabs: Tabs, owner: Owners, d: int, dirs': Dirs, owner': Owners)
    requires Inv(free, dirs, tabs, owner) && d in owner && owner[d] == Held && dirs' == dirs[d := map[]] &&
      owner' == owner[d := DirPage]
    ensures Inv(free, dirs', tabs, owner')
    ensures forall e, j, x :: Mapped(dirs', tabs, e, j, x) <==> Mapped(dirs, tabs, e, j, x)
    ensures forall e, j, x :: Mapped(dirs', tabs, e, j, x) ==> PteAt(dirs', tabs, e, j, x) == PteAt(dirs, tabs, e, j, x)
  {
    assert d !in dirs;
    SameFrames(dirs, tabs, owner, dirs', tabs, owner');
  }

  // ---------- what the invariant says about one page ----------

  /** A page has one use: no frame is mapped twice, and none is free, a directory or a table. */
  lemma OneUse(free: seq<int>, dirs: Dirs, tabs: Tabs, owner: Owners, d: int, i: int, x: int, e: int, j: int, y: int)
    requires Inv(free, dirs, tabs, owner) && i < KERNDIR && j < KERNDIR && Mapped(dirs, tabs, d, i, x) &&
      Mapped(dirs, tabs, e, j, y)
    ensures PteAt(dirs, tabs, d, i, x).pa == PteAt(dirs, tabs, e, j, y).pa ==> d == e && i == j && x == y
    ensures PteAt(dirs, tabs, d, i, x).pa !in free && PteAt(dirs, tabs, d, i, x).pa !in dirs &&
      PteAt(dirs, tabs, d, i, x).pa !in tabs
    ensures dirs[d][i] == dirs[e][j] ==> d == e && i == j
  {
    var p := PteAt(dirs, tabs, d, i, x).pa;
    assert owner[p] == FrameOf(d, i, x);
  }
}
