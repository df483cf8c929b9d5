// The user-level allocator of Ass2/umalloc.c.  Addresses count units of sizeof(Header).

module HeapModel {
  datatype Header = Header(ptr: int, size: int)
  type Mem = map<int, Header>

  function Succ(ring: seq<int>, k: nat): int
    requires k < |ring|
  {
    if k + 1 < |ring| then ring[k + 1] else ring[0]
  }

  ghost predicate Ascending(s: seq<int>) {
    forall j, k :: 0 <= j < k < |s| ==> s[j] < s[k]
  }

  /** The free list: circular, in address order with one wrap, starting at base. */
  ghost predicate Ring(mem: Mem, base: int, ring: seq<int>) {
    && |ring| > 0 && ring[0] == base
    && (forall k :: 0 <= k < |ring| ==> ring[k] in mem)
    && Ascending(ring)
    && (forall k :: 0 <= k < |ring| ==> LinkAt(mem, ring, k))
  }

  ghost predicate LinkAt(mem: Mem, ring: seq<int>, k: nat)
    requires k < |ring| && ring[k] in mem
  {
    mem[ring[k]].ptr == Succ(ring, k)
  }

  ghost predicate Block(base: int, ring: seq<int>, live: set<int>, a: int) {
    (a in ring && a != base) || a in live
  }

  /** owner gives each unit from sbrk the block it lies in: the blocks, free and live, do not
      overlap and leave nothing out. */
  ghost predicate Tiled(mem: Mem, base: int, ring: seq<int>, live: set<int>, owner: map<int, int>) {
    && (forall a :: a in live ==> a !in ring && a in mem)
    && (forall u :: u in owner ==> u > base && u in mem)
    && (forall u :: u in owner ==>
         Block(base, ring, live, owner[u]) && owner[u] in mem && owner[u] <= u < owner[u] + mem[owner[u]].size)
    && (forall a :: Block(base, ring, live, a) ==> a in mem && Whole(mem, owner, a))
  }

  /** Block a owns exactly its units. */
  ghost predicate Whole(mem: Mem, owner: map<int, int>, a: int)
    requires a in mem
  {
    mem[a].size >= 1 && forall u :: a <= u < a + mem[a].size ==> u in owner && owner[u] == a
  }

  /** Free blocks k and k + 1 of the list are not adjacent. */
  ghost predicate Gap(mem: Mem, ring: seq<int>, k: int) {
    0 < k && k + 1 < |ring| && ring[k] in mem ==> ring[k] + mem[ring[k]].size != ring[k + 1]
  }

  ghost predicate Coalesced(mem: Mem, ring: seq<int>) {
    forall k :: 0 < k < |ring| ==> Gap(mem, ring, k)
  }

  // ---------- inserting and merging ----------

  /** Tiling depends on block sizes only, not on links or on which blocks are free. */
  lemma TiledSame(mem: Mem, mem': Mem, base: int, ring: seq<int>, ring': seq<int>, live: set<int>, live': set<int>,
      owner: map<int, int>)
    requires Tiled(mem, base, ring, live, owner)
    requires forall a :: Block(base, ring', live', a) <==> Block(base, ring, live, a)
    requires forall a :: a in live' ==> a !in ring'
    requires forall a :: a in mem ==> a in mem' && mem'[a].size == mem[a].size
    ensures Tiled(mem', base, ring', live', owner)
  {
    forall a | Block(base, ring', live', a) ensures a in mem' && Whole(mem', owner, a) {
      assert Block(base, ring, live, a) && Whole(mem, owner, a);
    }
    forall a | a in live' ensures a in mem' { assert Block(base, ring', live', a); }
  }

  /** The list with b after position k. */
  function Inserted(ring: seq<int>, k: nat, b: int): (r: seq<int>)
    requires k < |ring|
    ensures |r| == |ring| + 1
    ensures forall x :: 0 <= x < |r| ==> r[x] == if x <= k then ring[x] else if x == k + 1 then b else ring[x - 1]
  {
    ring[..k + 1] + [b] + ring[k + 1..]
  }

  lemma InsertedHas(ring: seq<int>, k: nat, b: int, a: int)
    requires k < |ring|
    ensures a in Inserted(ring, k, b) <==> a in ring || a == b
  {
    var r := Inserted(ring, k, b);
    if a in ring {
      var x :| 0 <= x < |ring| && ring[x] == a;
      assert r[if x <= k then x else x + 1] == a;
    }
    assert r[k + 1] == b;
  }

  lemma InsertedAscends(ring: seq<int>, k: nat, b: int)
    requires Ascending(ring) && k < |ring| && ring[k] < b && (k + 1 < |ring| ==> b < ring[k + 1])
    ensures Ascending(Inserted(ring, k, b))
    ensures forall x :: 0 <= x < |ring| ==> ring[x] != b && (ring[x] == ring[k] ==> x == k)
  {
    forall x | 0 <= x < |ring| ensures (x <= k ==> ring[x] < b) && (x > k ==> b < ring[x]) {
      assert x < k ==> ring[x] < ring[k];
      assert x > k + 1 ==> ring[k + 1] < ring[x];
    }
  }

  lemma InsertRing(mem: Mem, base: int, ring: seq<int>, b: int, k: nat, mem': Mem)
    requires Ring(mem, base, ring) && b in mem
    requires k < |ring| && ring[k] < b && (k + 1 < |ring| ==> b < ring[k + 1])
    requires mem' == mem[ring[k] := Header(b, mem[ring[k]].size)][b := Header(Succ(ring, k), mem[b].size)]
    ensures Ring(mem', base, Inserted(ring, k, b))
  {
    var r := Inserted(ring, k, b);
    InsertedAscends(ring, k, b);
    forall x | 0 <= x < |r| ensures LinkAt(mem', r, x) {
      if x < k {
        assert LinkAt(mem, ring, x);
      } else if x > k + 1 {
        assert LinkAt(mem, ring, x - 1);
      }
    }
  }

  /** b goes from live to free, between ring[k] and its successor. */
  lemma Insert(mem: Mem, base: int, ring: seq<int>, live: set<int>, owner: map<int, int>, b: int, k: nat, mem': Mem,
      ring': seq<int>)
    requires Ring(mem, base, ring) && Tiled(mem, base, ring, live, owner) && b in live
    requires k < |ring| && ring[k] < b && (k + 1 < |ring| ==> b < ring[k + 1])
    requires ring' == Inserted(ring, k, b)
    requires mem' == mem[ring[k] := Header(b, mem[ring[k]].size)][b := Header(Succ(ring, k), mem[b].size)]
    ensures Ring(mem', base, ring') && Tiled(mem', base, ring', live - {b}, owner)
    ensures Coalesced(mem, ring) ==> forall x :: 0 < x < |ring'| && x != k && x != k + 1 ==> Gap(mem', ring', x)
  {
    InsertRing(mem, base, ring, b, k, mem');
    forall a ensures a in ring' <==> a in ring || a == b { InsertedHas(ring, k, b, a); }
    TiledSame(mem, mem', base, ring, ring', live, live - {b}, owner);
    InsertGaps(mem, ring, b, k, mem', ring');
  }

  lemma InsertGaps(mem: Mem, ring: seq<int>, b: int, k: nat, mem': Mem, ring': seq<int>)
    requires k < |ring| && ring' == Inserted(ring, k, b)
    requires forall a :: a in mem ==> a in mem' && mem'[a].size == mem[a].size
    requires forall x :: 0 <= x < |ring| ==> ring[x] in mem
    ensures Coalesced(mem, ring) ==> forall x :: 0 < x < |ring'| && x != k && x != k + 1 ==> Gap(mem', ring', x)
  {
    if Coalesced(mem, ring) {
      forall x | 0 < x < |ring'| && x != k && x != k + 1 ensures Gap(mem', ring', x) {
        assert Gap(mem, ring, if x < k then x else x - 1);
      }
    }
  }

  lemma InsertedAt(ring: seq<int>, k: nat, b: int)
    requires k < |ring|
    ensures Inserted(ring, k, b)[k] == ring[k] && Inserted(ring, k, b)[k + 1] == b
    ensures k + 1 < |ring| ==> Inserted(ring, k, b)[k + 2] == ring[k + 1]
  {
  }

  /** The list without position i. */
  function Dropped(ring: seq<int>, i: nat): (r: seq<int>)
    requires i < |ring|
    ensures |r| == |ring| - 1
    ensures forall x :: 0 <= x < |r| ==> r[x] == ring[if x < i then x else x + 1]
  {
    ring[..i] + ring[i + 1..]
  }

  lemma DroppedHas(ring: seq<int>, i: nat, a: int)
    requires i < |ring| && Ascending(ring)
    ensures a in Dropped(ring, i) <==> a in ring && a != ring[i]
  {
    var r := Dropped(ring, i);
    if a in ring && a != ring[i] {
      var x :| 0 <= x < |ring| && ring[x] == a;
      assert r[if x < i then x else x - 1] == a;
    }
    if a in r {
      var x :| 0 <= x < |r| && r[x] == a;
      assert ring[if x < i then x else x + 1] == a;
    }
  }

  /** Position i is bypassed: its predecessor takes over its link, and maybe another size. */
  lemma DropRing(mem: Mem, base: int, ring: seq<int>, i: nat, size: int, mem': Mem)
    requires Ring(mem, base, ring) && 0 < i < |ring|
    requires mem' == mem[ring[i - 1] := Header(mem[ring[i]].ptr, size)]
    ensures Ring(mem', base, Dropped(ring, i))
  {
    var r := Dropped(ring, i);
    forall x | 0 <= x < |r| ensures LinkAt(mem', r, x) {
      assert LinkAt(mem, ring, if x < i - 1 then x else x + 1);
      assert ring[if x < i then x else x + 1] == ring[i - 1] ==> x == i - 1;
    }
  }

  function Reowned(owner: map<int, int>, from: int, to: int): map<int, int> {
    map u | u in owner :: if owner[u] == from then to else owner[u]
  }

  /** Where position x was before block j + 1 was dropped. */
  function Was(j: nat, x: int): int {
    if x < j then x else x + 1
  }

  /** Free block j absorbs its neighbour j + 1. */
  lemma Merge(mem: Mem, base: int, ring: seq<int>, live: set<int>, owner: map<int, int>, j: nat, mem': Mem, r: seq<int>)
    requires Ring(mem, base, ring) && Tiled(mem, base, ring, live, owner)
    requires 0 < j && j + 1 < |ring| && ring[j] + mem[ring[j]].size == ring[j + 1]
    requires mem' == mem[ring[j] := Header(mem[ring[j + 1]].ptr, mem[ring[j]].size + mem[ring[j + 1]].size)]
    requires r == Dropped(ring, j + 1)
    ensures Ring(mem', base, r) && Tiled(mem', base, r, live, Reowned(owner, ring[j + 1], ring[j]))
    ensures GapsKept(mem, ring, j, mem', r)
  {
    DropRing(mem, base, ring, j + 1, mem[ring[j]].size + mem[ring[j + 1]].size, mem');
    forall a ensures a in r <==> a in ring && a != ring[j + 1] { DroppedHas(ring, j + 1, a); }
    assert ring[j] != base && ring[j + 1] != base;
    MergeTiled(mem, base, ring, r, live, owner, ring[j], ring[j + 1], mem');
    MergeGaps(mem, ring, j, mem', r);
  }

  lemma MergeTiled(mem: Mem, base: int, ring: seq<int>, r: seq<int>, live: set<int>, owner: map<int, int>, a: int,
      b: int, mem': Mem)
    requires Tiled(mem, base, ring, live, owner) && a in ring && b in ring && a != base && b != base && a != b
    requires a in mem && b in mem && a + mem[a].size == b
    requires forall x :: x in r <==> x in ring && x != b
    requires mem' == mem[a := Header(mem[b].ptr, mem[a].size + mem[b].size)]
    ensures Tiled(mem', base, r, live, Reowned(owner, b, a))
  {
    assert Block(base, ring, live, a) && Block(base, ring, live, b);
    var o := Reowned(owner, b, a);
    forall x | Block(base, r, live, x) ensures x in mem' && Whole(mem', o, x) {
      assert Block(base, ring, live, x) && Whole(mem, owner, x);
    }
    forall u | u in o ensures Block(base, r, live, o[u]) && o[u] in mem' && o[u] <= u < o[u] + mem'[o[u]].size {
      assert Block(base, ring, live, owner[u]);
    }
  }

  ghost predicate GapsKept(mem: Mem, ring: seq<int>, j: nat, mem': Mem, r: seq<int>) {
    forall x :: 0 < x < |r| && Gap(mem, ring, Was(j, x)) ==> Gap(mem', r, x)
  }

  lemma MergeGaps(mem: Mem, ring: seq<int>, j: nat, mem': Mem, r: seq<int>)
    requires 0 < j && j + 1 < |ring| && Ascending(ring) && (forall k :: 0 <= k < |ring| ==> ring[k] in mem)
    requires ring[j] + mem[ring[j]].size == ring[j + 1]
    requires mem' == mem[ring[j] := Header(mem[ring[j + 1]].ptr, mem[ring[j]].size + mem[ring[j + 1]].size)]
    requires r == Dropped(ring, j + 1)
    ensures GapsKept(mem, ring, j, mem', r)
  {
    forall x | 0 < x < |r| && Gap(mem, ring, Was(j, x)) ensures Gap(mem', r, x) {
      var y := Was(j, x);
      if x + 1 < |r| {
        assert r[x + 1] == ring[y + 1];
        assert x == j || (r[x] == ring[y] && ring[y] != ring[j]);
      }
    }
  }

  // ---------- allocating ----------

  /** malloc takes free block k whole. */
  lemma Take(mem: Mem, base: int, ring: seq<int>, live: set<int>, owner: map<int, int>, k: nat, mem': Mem)
    requires Ring(mem, base, ring) && Tiled(mem, base, ring, live, owner) && Coalesced(mem, ring)
    requires 0 < k < |ring| && mem' == mem[ring[k - 1] := Header(mem[ring[k]].ptr, mem[ring[k - 1]].size)]
    ensures ring[k] !in live && Ring(mem', base, Dropped(ring, k))
    ensures Tiled(mem', base, Dropped(ring, k), live + {ring[k]}, owner) && Coalesced(mem', Dropped(ring, k))
  {
    var r := Dropped(ring, k);
    DropRing(mem, base, ring, k, mem[ring[k - 1]].size, mem');
    forall a ensures a in r <==> a in ring && a != ring[k] { DroppedHas(ring, k, a); }
    TiledSame(mem, mem', base, ring, r, live, live + {ring[k]}, owner);
    forall x | 0 < x < |r| ensures Gap(mem', r, x) {
      if x == k - 1 && x + 1 < |r| {
        assert Block(base, ring, live, ring[k - 1]) && Whole(mem, owner, ring[k - 1]);
        assert Block(base, ring, live, ring[k]) && Whole(mem, owner, ring[k]);
        assert owner[ring[k]] == ring[k];
      } else {
        assert Gap(mem, ring, if x < k then x else x + 1);
      }
    }
  }

  /** malloc cuts n units off the end of free block k. */
  lemma Split(mem: Mem, base: int, ring: seq<int>, live: set<int>, owner: map<int, int>, k: nat, n: int, q: int,
      mem': Mem, owner': map<int, int>)
    requires Ring(mem, base, ring) && Tiled(mem, base, ring, live, owner) && Coalesced(mem, ring)
    requires 0 < k < |ring| && 0 < n < mem[ring[k]].size && q == ring[k] + mem[ring[k]].size - n
    requires q in mem &&
      mem' == mem[ring[k] := Header(mem[ring[k]].ptr, mem[ring[k]].size - n)][q := Header(mem[q].ptr, n)]
    requires owner' == map u | u in owner :: if q <= u < q + n then q else owner[u]
    ensures q !in live && Ring(mem', base, ring) && Tiled(mem', base, ring, live + {q}, owner') && Coalesced(mem', ring)
  {
    var p := ring[k];
    assert Block(base, ring, live, p) && Whole(mem, owner, p);
    assert owner[q] == p;
    SelfOwned(mem, base, ring, live, owner);
    forall x | 0 <= x < |ring| ensures LinkAt(mem', ring, x) { assert LinkAt(mem, ring, x); }
    SplitTiled(mem, base, ring, live, owner, p, n, q, mem', owner');
    forall x | 0 < x < |ring| ensures Gap(mem', ring, x) {
      assert Gap(mem, ring, x);
      if x + 1 < |ring| && x == k {
        assert Block(base, ring, live, ring[x + 1]) && Whole(mem, owner, ring[x + 1]);
      }
    }
  }

  lemma SelfOwned(mem: Mem, base: int, ring: seq<int>, live: set<int>, owner: map<int, int>)
    requires Tiled(mem, base, ring, live, owner)
    ensures forall a :: Block(base, ring, live, a) ==> a in owner && owner[a] == a
  {
    forall a | Block(base, ring, live, a) ensures a in owner && owner[a] == a {
      assert Whole(mem, owner, a);
    }
  }

  lemma SplitTiled(mem: Mem, base: int, ring: seq<int>, live: set<int>, owner: map<int, int>, p: int, n: int, q: int,
      mem': Mem, owner': map<int, int>)
    requires Tiled(mem, base, ring, live, owner) && p in ring && p != base && p in mem
    requires 0 < n < mem[p].size && q == p + mem[p].size - n && q in mem && q != base && q !in ring && q !in live
    requires mem' == mem[p := Header(mem[p].ptr, mem[p].size - n)][q := Header(mem[q].ptr, n)]
    requires owner' == map u | u in owner :: if q <= u < q + n then q else owner[u]
    ensures Tiled(mem', base, ring, live + {q}, owner')
  {
    assert Block(base, ring, live, p) && Whole(mem, owner, p);
    forall x | Block(base, ring, live + {q}, x) ensures x in mem' && Whole(mem', owner', x) {
      SplitWhole(mem, base, ring, live, owner, p, n, q, mem', owner', x);
    }
    forall u | u in owner' ensures owner'[u] in mem' && owner'[u] <= u < owner'[u] + mem'[owner'[u]].size {
      assert u in owner;
    }
  }

  lemma SplitWhole(mem: Mem, base: int, ring: seq<int>, live: set<int>, owner: map<int, int>, p: int, n: int, q: int,
      mem': Mem,
                   owner': map<int, int>, x: int)
    requires Tiled(mem, base, ring, live, owner) && p in mem && Whole(mem, owner, p)
    requires 0 < n < mem[p].size && q == p + mem[p].size - n && q in mem && q !in ring && q !in live
    requires mem' == mem[p := Header(mem[p].ptr, mem[p].size - n)][q := Header(mem[q].ptr, n)]
    requires owner' == map u | u in owner :: if q <= u < q + n then q else owner[u]
    requires Block(base, ring, live, x) || x == q
    ensures x in mem' && Whole(mem', owner', x)
  {
    if x != q {
      assert Whole(mem, owner, x);
      forall u | x <= u < x + mem'[x].size ensures u in owner' && owner'[u] == x {
        assert owner[u] == x;
      }
    } else {
      forall u | q <= u < q + n ensures u in owner' && owner'[u] == q { assert owner[u] == p; }
    }
  }

  function Span<T>(r: int, n: nat, v: T): (m: map<int, T>)
    ensures forall u :: u in m <==> r <= u < r + n
    ensures forall u :: u in m ==> m[u] == v
  {
    if n == 0 then map[] else Span(r, n - 1, v)[r + n - 1 := v]
  }

  /** sbrk's region as one live block. */
  lemma Grow(mem: Mem, base: int, ring: seq<int>, live: set<int>, owner: map<int, int>, r: int, n: nat, mem': Mem,
      owner': map<int, int>)
    requires Ring(mem, base, ring) && Tiled(mem, base, ring, live, owner) && Coalesced(mem, ring)
    requires r > base && n >= 1 && forall u :: u in owner ==> u < r
    requires mem' == (mem + Span(r, n, Header(0, 0)))[r := Header(0, n)]
    requires owner' == owner + Span(r, n, r)
    ensures Ring(mem', base, ring) && Tiled(mem', base, ring, live + {r}, owner') && Coalesced(mem', ring)
  {
    forall a | Block(base, ring, live, a) ensures a < r && a + mem[a].size <= r && a in mem' && mem'[a] == mem[a] {
      assert Whole(mem, owner, a);
      assert a + mem[a].size - 1 in owner;
    }
    forall x | 0 <= x < |ring| ensures ring[x] in mem' && mem'[ring[x]] == mem[ring[x]] {
      if x > 0 { assert Block(base, ring, live, ring[x]); }
    }
    forall x | 0 <= x < |ring| ensures LinkAt(mem', ring, x) { assert LinkAt(mem, ring, x); }
    forall x | 0 < x < |ring| ensures Gap(mem', ring, x) { assert Gap(mem, ring, x); }
    GrowTiled(mem, base, ring, live, owner, r, n, mem', owner');
  }

  lemma GrowTiled(mem: Mem, base: int, ring: seq<int>, live: set<int>, owner: map<int, int>, r: int, n: nat, mem': Mem,
      owner': map<int, int>)
    requires Tiled(mem, base, ring, live, owner) && r > base && n >= 1 && forall u :: u in owner ==> u < r
    requires forall a :: Block(base, ring, live, a) ==>
      a in mem && a < r && a + mem[a].size <= r && a in mem' && mem'[a] == mem[a]
    requires mem' == (mem + Span(r, n, Header(0, 0)))[r := Header(0, n)]
    requires owner' == owner + Span(r, n, r)
    ensures Tiled(mem', base, ring, live + {r}, owner')
  {
    assert !Block(base, ring, live, r);
    forall x | Block(base, ring, live + {r}, x) ensures x in mem' && Whole(mem', owner', x) {
      if x != r {
        assert Block(base, ring, live, x) && Whole(mem, owner, x);
      }
    }
    forall u | u in owner' ensures u > base && u in mem' && Block(base, ring, live + {r}, owner'[u])
      ensures owner'[u] in mem' && owner'[u] <= u < owner'[u] + mem'[owner'[u]].size
    {
      if u in owner { assert u < r && Block(base, ring, live, owner[u]); }
    }
  }

  // ---------- free as a whole ----------

  ghost predicate GapsBut(mem: Mem, ring: seq<int>, k: int) {
    forall x :: 0 < x < |ring| && x != k ==> Gap(mem, ring, x)
  }

  lemma JoinGaps(mem: Mem, ring: seq<int>, j: nat, mem': Mem, r: seq<int>, k: nat)
    requires |r| == |ring| - 1 && j == k + 1 && GapsKept(mem, ring, j, mem', r)
    requires forall x :: 0 < x < |ring| && x != k && x != k + 1 ==> Gap(mem, ring, x)
    ensures GapsBut(mem', r, k)
  {
    forall x | 0 < x < |r| && x != k ensures Gap(mem', r, x) {
      assert Gap(mem, ring, Was(j, x));
    }
  }

  /** The header of b after free looked behind it, at nx. */
  function Joined(mem: Mem, b: int, nx: int): Header
    requires b in mem && nx in mem
  {
    if b + mem[b].size == nx then Header(mem[nx].ptr, mem[b].size + mem[nx].size) else Header(nx, mem[b].size)
  }

  /** The memory after b was merged into the free block p before it, if they touch. */
  function BackMem(mem: Mem, p: int, b: int): Mem
    requires p in mem && b in mem
  {
    if p + mem[p].size == b then mem[p := Header(mem[b].ptr, mem[p].size + mem[b].size)] else mem
  }

  lemma PutTwice(m: Mem, b: int, x: Header, y: Header)
    ensures m[b := x][b := y] == m[b := y]
  {
  }

  lemma JoinMem(mem: Mem, p: int, b: int, nx: int, m0: Mem, m1: Mem)
    requires p in mem && b in mem && nx in mem && p != b && p != nx && b != nx
    requires m0 == mem[p := Header(b, mem[p].size)] && m1 == m0[b := Header(nx, mem[b].size)]
    ensures m1[b := Header(m1[nx].ptr, m1[b].size + m1[nx].size)] ==
      m0[b := Header(mem[nx].ptr, mem[b].size + mem[nx].size)]
  {
    PutTwice(m0, b, Header(nx, mem[b].size), Header(mem[nx].ptr, mem[b].size + mem[nx].size));
  }

  /** Merge block k + 1, which touches the one behind it. */
  lemma JoinNext(mem: Mem, base: int, ring: seq<int>, live: set<int>, owner: map<int, int>, k: nat, b: int, nx: int)
    returns (mem': Mem, ring': seq<int>)
    requires Ring(mem, base, ring) && Tiled(mem, base, ring, live, owner)
    requires k + 2 < |ring| && ring[k + 1] == b && ring[k + 2] == nx && b + mem[b].size == nx
    requires forall x :: 0 < x < |ring| && x != k && x != k + 1 ==> Gap(mem, ring, x)
    ensures Ring(mem', base, ring') && Tiled(mem', base, ring', live, Reowned(owner, nx, b)) && GapsBut(mem', ring', k)
    ensures k + 1 < |ring'| && ring'[k] == ring[k] && ring'[k + 1] == b
    ensures mem' == mem[b := Header(mem[nx].ptr, mem[b].size + mem[nx].size)]
  {
    mem' := mem[b := Header(mem[nx].ptr, mem[b].size + mem[nx].size)];
    ring' := Dropped(ring, k + 2);
    Merge(mem, base, ring, live, owner, k + 1, mem', ring');
    JoinGaps(mem, ring, k + 1, mem', ring', k);
  }

  /** The inserted block touches the one behind it. */
  lemma InsertJoin(mem: Mem, base: int, ring: seq<int>, live: set<int>, owner: map<int, int>, b: int, k: nat, nx: int,
      m0: Mem)
    returns (mem': Mem, ring': seq<int>, owner': map<int, int>)
    requires Ring(mem, base, ring) && Tiled(mem, base, ring, live, owner) && Coalesced(mem, ring) && b in live &&
      b !in ring
    requires k + 1 < |ring| && ring[k] < b < ring[k + 1] == nx && b + mem[b].size == nx
    requires m0 == mem[ring[k] := Header(b, mem[ring[k]].size)]
    ensures Ring(mem', base, ring') && Tiled(mem', base, ring', live - {b}, owner') && GapsBut(mem', ring', k)
    ensures k + 1 < |ring'| && ring'[k] == ring[k] && ring'[k + 1] == b
    ensures mem' == m0[b := Header(mem[nx].ptr, mem[b].size + mem[nx].size)]
    ensures owner' == Reowned(owner, nx, b)
  {
    var m1 := m0[b := Header(nx, mem[b].size)];
    Insert(mem, base, ring, live, owner, b, k, m1, Inserted(ring, k, b));
    InsertedAt(ring, k, b);
    mem', ring' := JoinNext(m1, base, Inserted(ring, k, b), live - {b}, owner, k, b, nx);
    owner' := Reowned(owner, nx, b);
    JoinMem(mem, ring[k], b, nx, m0, m1);
  }

  /** The inserted block stands apart from the one behind it. */
  lemma InsertApart(mem: Mem, base: int, ring: seq<int>, live: set<int>, owner: map<int, int>, b: int, k: nat, nx: int,
      mem': Mem, r: seq<int>)
    requires Ring(mem, base, ring) && Tiled(mem, base, ring, live, owner) && Coalesced(mem, ring) && b in live
    requires k < |ring| && ring[k] < b && (k + 1 < |ring| ==> b < ring[k + 1]) && nx == Succ(ring, k) &&
      b + mem[b].size != nx
    requires mem' == mem[ring[k] := Header(b, mem[ring[k]].size)][b := Header(nx, mem[b].size)] &&
      r == Inserted(ring, k, b)
    ensures Ring(mem', base, r) && Tiled(mem', base, r, live - {b}, owner) && GapsBut(mem', r, k)
    ensures k + 1 < |r| && r[k] == ring[k] && r[k + 1] == b
  {
    InsertedAt(ring, k, b);
    Insert(mem, base, ring, live, owner, b, k, mem', r);
    assert Gap(mem', r, k + 1);
  }

  /** Insert b after ring[k], then merge it with the block behind it if they touch. */
  lemma InsertMerge(mem: Mem, base: int, ring: seq<int>, live: set<int>, owner: map<int, int>, b: int, k: nat, nx: int,
      m0: Mem)
    returns (mem': Mem, ring': seq<int>, owner': map<int, int>)
    requires Ring(mem, base, ring) && Tiled(mem, base, ring, live, owner) && Coalesced(mem, ring) && b in live
    requires k < |ring| && ring[k] < b && (k + 1 < |ring| ==> b < ring[k + 1]) && nx == Succ(ring, k)
    requires m0 == mem[ring[k] := Header(b, mem[ring[k]].size)]
    ensures Ring(mem', base, ring') && Tiled(mem', base, ring', live - {b}, owner') && GapsBut(mem', ring', k)
    ensures k + 1 < |ring'| && ring'[k] == ring[k] && ring'[k + 1] == b
    ensures nx in mem && mem' == m0[b := Joined(mem, b, nx)]
    ensures owner' == if b + mem[b].size == nx then Reowned(owner, nx, b) else owner
  {
    assert b > base && mem[b].size >= 1 by { assert Block(base, ring, live, b) && Whole(mem, owner, b); }
    if b + mem[b].size == nx {
      mem', ring', owner' := InsertJoin(mem, base, ring, live, owner, b, k, nx, m0);
    } else {
      mem', ring', owner' := m0[b := Header(nx, mem[b].size)], Inserted(ring, k, b), owner;
      InsertApart(mem, base, ring, live, owner, b, k, nx, mem', ring');
    }
  }

  /** Merge the inserted block into the one before it if they touch: coalesced again. */
  lemma MergeBack(mem: Mem, base: int, ring: seq<int>, live: set<int>, owner: map<int, int>, k: nat, p: int, b: int)
    returns (mem': Mem, ring': seq<int>, owner': map<int, int>)
    requires Ring(mem, base, ring) && Tiled(mem, base, ring, live, owner) && GapsBut(mem, ring, k) && k + 1 < |ring|
    requires mem[base].size == 0 && p == ring[k] && b == ring[k + 1]
    ensures Ring(mem', base, ring') && Tiled(mem', base, ring', live, owner') && Coalesced(mem', ring')
    ensures k < |ring'| && ring'[k] == p && mem' == BackMem(mem, p, b)
    ensures owner' == if p + mem[p].size == b then Reowned(owner, b, p) else owner
    ensures p + mem[p].size != b ==> ring' == ring
  {
    if p + mem[p].size == b {
      assert k > 0;
      mem' := mem[p := Header(mem[b].ptr, mem[p].size + mem[b].size)];
      ring', owner' := Dropped(ring, k + 1), Reowned(owner, b, p);
      Merge(mem, base, ring, live, owner, k, mem', ring');
      forall x | 0 < x < |ring'| ensures Gap(mem', ring', x) {
        assert Gap(mem, ring, Was(k, x));
      }
    } else {
      mem', ring', owner' := mem, ring, owner;
      assert Gap(mem, ring, k);
    }
  }

  /** Blocks in keep have the same units with the same contents. */
  ghost predicate Untouched(keep: set<int>, mem: Mem, owner: map<int, int>, mem': Mem, owner': map<int, int>) {
    forall u {:trigger owner[u]} :: u in owner && owner[u] in keep && u in mem ==>
      u in owner' && owner'[u] == owner[u] && u in mem' && mem'[u] == mem[u]
  }

  /** The memory after free(b), with p the free block before b. */
  function FreeMem(mem: Mem, p: int, b: int): Mem
    requires p in mem && b in mem && mem[p].ptr in mem
  {
    var hb := Joined(mem, b, mem[p].ptr);
    mem[b := hb][p := if p + mem[p].size == b then Header(hb.ptr, mem[p].size + hb.size) else Header(b, mem[p].size)]
  }

  lemma Commute(m: Mem, p: int, b: int, x: Header, y: Header, z: Header)
    requires p != b
    ensures m[p := x][b := y] == m[b := y][p := x]
    ensures m[p := x][b := y][p := z] == m[b := y][p := z]
  {
  }

  lemma FreeMemIs(mem: Mem, p: int, b: int, nx: int, m1: Mem, m2: Mem)
    requires p in mem && b in mem && nx in mem && p != b && mem[p].ptr == nx
    requires m1 == mem[p := Header(b, mem[p].size)][b := Joined(mem, b, nx)]
    requires m2 == BackMem(m1, p, b)
    ensures m2 == FreeMem(mem, p, b)
  {
    var hb := Joined(mem, b, nx);
    Commute(mem, p, b, Header(b, mem[p].size), hb, Header(hb.ptr, mem[p].size + hb.size));
  }

  lemma FreeAll(mem: Mem, base: int, ring: seq<int>, live: set<int>, owner: map<int, int>, b: int, k: nat)
    returns (mem': Mem, ring': seq<int>, owner': map<int, int>)
    requires Ring(mem, base, ring) && Tiled(mem, base, ring, live, owner) && Coalesced(mem, ring) && b in live &&
      mem[base].size == 0
    requires k < |ring| && ring[k] < b && (k + 1 < |ring| ==> b < ring[k + 1])
    ensures mem[ring[k]].ptr in mem && mem' == FreeMem(mem, ring[k], b)
    ensures Ring(mem', base, ring') && Tiled(mem', base, ring', live - {b}, owner') && Coalesced(mem', ring')
    ensures k < |ring'| && ring'[k] == ring[k]
    ensures ring[k] + mem[ring[k]].size != b ==> k + 1 < |ring'| && ring'[k + 1] == b
    ensures owner' == FreeOwner(mem, owner, ring[k], b)
  {
    var p := ring[k];
    assert LinkAt(mem, ring, k);
    var nx := mem[p].ptr;
    var m1, r1, o1 := InsertMerge(mem, base, ring, live, owner, b, k, nx, mem[p := Header(b, mem[p].size)]);
    assert m1[base].size == 0 by { assert base != b; }
    mem', ring', owner' := MergeBack(m1, base, r1, live - {b}, o1, k, p, b);
    FreeMemIs(mem, p, b, nx, m1, mem');
  }

  function FreeOwner(mem: Mem, owner: map<int, int>, p: int, b: int): map<int, int>
    requires p in mem && b in mem
  {
    var o1 := if b + mem[b].size == mem[p].ptr then Reowned(owner, mem[p].ptr, b) else owner;
    if p + mem[p].size == b then Reowned(o1, b, p) else o1
  }

  /** free writes cells p and b and gives away units of b and of the block behind it, no others. */
  lemma FewCells(keep: set<int>, mem: Mem, owner: map<int, int>, p: int, b: int)
    requires p in mem && b in mem && mem[p].ptr in mem && b !in keep && mem[p].ptr !in keep
    requires p in owner ==> owner[p] !in keep
    requires b in owner ==> owner[b] !in keep
    ensures Untouched(keep, mem, owner, FreeMem(mem, p, b), FreeOwner(mem, owner, p, b))
    ensures FreeOwner(mem, owner, p, b).Keys == owner.Keys && FreeMem(mem, p, b).Keys == mem.Keys
  {
  }

  /** free touches no block that stays live. */
  lemma FreeUntouched(mem: Mem, base: int, ring: seq<int>, live: set<int>, owner: map<int, int>, b: int, k: nat)
    requires Ring(mem, base, ring) && Tiled(mem, base, ring, live, owner) && b in live && k < |ring| &&
      mem[ring[k]].ptr in ring
    ensures Untouched(live - {b}, mem, owner, FreeMem(mem, ring[k], b), FreeOwner(mem, owner, ring[k], b))
    ensures FreeOwner(mem, owner, ring[k], b).Keys == owner.Keys && FreeMem(mem, ring[k], b).Keys == mem.Keys
  {
    SelfOwned(mem, base, ring, live, owner);
    assert Block(base, ring, live, b);
    if k > 0 { assert Block(base, ring, live, ring[k]); }
    FewCells(live - {b}, mem, owner, ring[k], b);
  }

  /** The block that holds b after free is at least as large as b was. */
  lemma FreeSizes(mem: Mem, p: int, b: int)
    requires p in mem && b in mem && mem[p].ptr in mem && mem[mem[p].ptr].size >= 0 && p != b
    ensures FreeMem(mem, p, b)[b].size >= mem[b].size
    ensures p + mem[p].size == b && mem[p].size >= 0 ==> FreeMem(mem, p, b)[p].size >= mem[b].size
  {
  }

  ghost predicate HeapOk(mem: Mem, base: int, ring: seq<int>, live: set<int>, owner: map<int, int>) {
    Ring(mem, base, ring) && Tiled(mem, base, ring, live, owner) && Coalesced(mem, ring) && mem[base].size == 0
  }

  /** Everything free promises, with g the position of the block that now holds b. */
  lemma FreeDone(mem: Mem, base: int, ring: seq<int>, live: set<int>, owner: map<int, int>, b: int, k: nat, p: int)
    returns (mem': Mem, ring': seq<int>, owner': map<int, int>, g: nat)
    requires HeapOk(mem, base, ring, live, owner) && b in live
    requires k < |ring| && p == ring[k] < b && (k + 1 < |ring| ==> b < ring[k + 1])
    ensures p in mem && mem[p].ptr in mem && mem[p].ptr != b && mem' == FreeMem(mem, p, b)
    ensures HeapOk(mem', base, ring', live - {b}, owner') && p in ring'
    ensures Untouched(live - {b}, mem, owner, mem', owner')
    ensures owner'.Keys == owner.Keys && mem'.Keys == mem.Keys
    ensures 0 < g < |ring'| && mem'[ring'[g]].size >= mem[b].size
  {
    assert LinkAt(mem, ring, k);
    mem', ring', owner' := FreeAll(mem, base, ring, live, owner, b, k);
    FreeUntouched(mem, base, ring, live, owner, b, k);
    assert Block(base, ring, live, b) && Whole(mem, owner, b);
    var nx := mem[p].ptr;
    if nx != base { assert Block(base, ring, live, nx) && Whole(mem, owner, nx); }
    FreeSizes(mem, p, b);
    g := if p + mem[p].size == b then k else k + 1;
    if k > 0 { assert Block(base, ring, live, p) && Whole(mem, owner, p); }
    assert base != b;
  }

  lemma UntouchedTrans(keep: set<int>, m0: Mem, o0: map<int, int>, m1: Mem, o1: map<int, int>, m2: Mem, o2: map<int,
      int>)
    requires Untouched(keep, m0, o0, m1, o1) && Untouched(keep, m1, o1, m2, o2)
    ensures Untouched(keep, m0, o0, m2, o2)
  {
    forall u | u in o0 && o0[u] in keep && u in m0 ensures u in o2 && o2[u] == o0[u] && u in m2 && m2[u] == m0[u] {
      assert o1[u] == o0[u];
    }
  }

  /** Taking free block k whole. */
  lemma TakeDone(mem: Mem, base: int, ring: seq<int>, live: set<int>, owner: map<int, int>, k: nat, prevp: int, p: int,
      mem': Mem)
    requires HeapOk(mem, base, ring, live, owner) && 0 < k < |ring| && prevp == ring[k - 1] && p == ring[k]
    requires mem' == mem[prevp := Header(mem[p].ptr, mem[prevp].size)]
    ensures p !in live && HeapOk(mem', base, Dropped(ring, k), live + {p}, owner) && prevp in Dropped(ring, k)
    ensures Untouched(live, mem, owner, mem', owner) && mem'[p] == mem[p]
  {
    Take(mem, base, ring, live, owner, k, mem');
    SelfOwned(mem, base, ring, live, owner);
    assert Dropped(ring, k)[k - 1] == prevp;
    if k > 1 { assert Block(base, ring, live, prevp); }
  }

  /** Cutting the last n units off free block k. */
  lemma SplitDone(mem: Mem, base: int, ring: seq<int>, live: set<int>, owner: map<int, int>, k: nat, p: int, n: int,
      q: int, mem': Mem)
    returns (owner': map<int, int>)
    requires HeapOk(mem, base, ring, live, owner) && 0 < k < |ring| && p == ring[k] && 0 < n < mem[p].size &&
      q == p + mem[p].size - n
    requires q in mem && mem' == mem[p := Header(mem[p].ptr, mem[p].size - n)][q := Header(mem[q].ptr, n)]
    ensures q !in live && HeapOk(mem', base, ring, live + {q}, owner') && owner'.Keys == owner.Keys
    ensures Untouched(live, mem, owner, mem', owner')
  {
    owner' := map u | u in owner :: if q <= u < q + n then q else owner[u];
    Split(mem, base, ring, live, owner, k, n, q, mem', owner');
    assert Block(base, ring, live, p) && Whole(mem, owner, p);
    SplitUntouched(mem, live, owner, p, n, q, mem', owner');
    assert base in mem && base != q && base != p;
  }

  lemma SplitUntouched(mem: Mem, live: set<int>, owner: map<int, int>, p: int, n: int, q: int, mem': Mem,
      owner': map<int, int>)
    requires p in mem && Whole(mem, owner, p) && p !in live && 0 < n < mem[p].size && q == p + mem[p].size - n &&
      q in mem
    requires mem' == mem[p := Header(mem[p].ptr, mem[p].size - n)][q := Header(mem[q].ptr, n)]
    requires owner' == map u | u in owner :: if q <= u < q + n then q else owner[u]
    ensures Untouched(live, mem, owner, mem', owner')
  {
    assert owner[p] == p && owner[q] == p;
  }

  /** The last unit of a free block exists, so a cut has a place for its header. */
  lemma CutPlace(mem: Mem, base: int, ring: seq<int>, live: set<int>, owner: map<int, int>, k: nat, u: int)
    requires HeapOk(mem, base, ring, live, owner) && 0 < k < |ring| && ring[k] <= u < ring[k] + mem[ring[k]].size
    ensures u in mem
  {
    assert Block(base, ring, live, ring[k]) && Whole(mem, owner, ring[k]);
  }

  lemma GrowDone(mem: Mem, base: int, ring: seq<int>, live: set<int>, owner: map<int, int>, r: int, n: nat, mem': Mem,
      owner': map<int, int>)
    requires HeapOk(mem, base, ring, live, owner) && r > base && n >= 1 && forall u :: u in owner ==> u < r
    requires mem' == (mem + Span(r, n, Header(0, 0)))[r := Header(0, n)] && owner' == owner + Span(r, n, r)
    ensures r !in live && HeapOk(mem', base, ring, live + {r}, owner') && Untouched(live, mem, owner, mem', owner')
  {
    Grow(mem, base, ring, live, owner, r, n, mem', owner');
    SelfOwned(mem, base, ring, live, owner);
    assert !Block(base, ring, live, r);
  }

  /** Blocks, free or live, never overlap, and every unit lies in exactly one. */
  lemma NoOverlap(mem: Mem, base: int, ring: seq<int>, live: set<int>, owner: map<int, int>, a: int, b: int)
    requires HeapOk(mem, base, ring, live, owner) && Block(base, ring, live, a) && Block(base, ring, live, b) && a < b
    ensures a in mem && b in mem && mem[a].size >= 1 && mem[b].size >= 1 && a + mem[a].size <= b
    ensures a in ring && b in ring ==> a + mem[a].size < b
  {
    assert Whole(mem, owner, a) && Whole(mem, owner, b);
    assert owner[b] == b;
    if a in ring && b in ring {
      var j :| 0 <= j < |ring| && ring[j] == a;
      var k :| 0 <= k < |ring| && ring[k] == b;
      if k > j + 1 {
        var m := ring[j + 1];
        assert Block(base, ring, live, m) && Whole(mem, owner, m);
        assert owner[m] == m;
      } else {
        assert Gap(mem, ring, j);
      }
    }
  }
}
