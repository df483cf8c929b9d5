// malloc, free and morecore of Ass2/umalloc.c.

module Umalloc {
  import opened Params
  import opened HeapModel

  /** (nbytes + sizeof(Header) - 1) / sizeof(Header) + 1 in 32-bit arithmetic. */
  function Units(nbytes: nat): (n: int)
    ensures 1 <= n <= 0x2000_0000
  {
    (nbytes + 7) % 0x1_0000_0000 / 8 + 1
  }

  /** What morecore asks for at least. */
  function AtLeast(nu: nat): nat {
    if nu < 4096 then 4096 else nu
  }

  /** nu * sizeof(Header), a 32-bit product, as the int that sbrk takes. */
  function Bytes(nu: nat): int {
    var x := 8 * nu % 0x1_0000_0000;
    if x < 0x8000_0000 then x else x - 0x1_0000_0000
  }

  /** The result of sbrk, the size the process has on record afterwards, and the end of what it
      still has. */
  datatype Brk = Brk(ret: int, size: int, top: int)

  /** sys_sbrk with growproc, allocuvm and deallocuvm, in a process of sz bytes; room says
      whether there are pages for it. */
  function Sbrk(sz: int, n: int, room: bool): Brk {
    if n > 0 then
      if sz + n >= KERNBASE || !room then Brk(-1, sz, sz) else Brk(sz, sz + n, sz + n)
    else if n < 0 then
      var z := (sz + n) % 0x1_0000_0000;
      if z >= sz then Brk(if sz == 0 then -1 else sz, sz, sz)
      else if z == 0 then Brk(-1, sz, 0)      // deallocuvm's 0 reads as a failure
      else Brk(sz, z, z)
    else Brk(sz, sz, sz)
  }

  /** Of up to 2^29 units, sbrk gives those asked for exactly if they are fewer than 2^28 and
      there is room for them; from 2^28 on it gives none and may take some away.  It then fails
      exactly if the 32-bit sum of size and request is 0, and with that everything is gone. */
  lemma SbrkGives(sz: nat, nu: nat, room: bool)
    requires 0 < sz < KERNBASE && 1 <= nu <= 0x2000_0000
    ensures var b := Sbrk(sz, Bytes(nu), room);
      && (b.ret != -1 && b.top >= b.ret + 8 * nu <==> nu < 0x1000_0000 && sz + 8 * nu < KERNBASE && room)
      && (nu < 0x1000_0000 ==> Bytes(nu) == 8 * nu && (b.ret == -1 <==> !(sz + 8 * nu < KERNBASE && room)))
      && (nu >= 0x1000_0000 ==> Bytes(nu) <= 0 && b.top <= sz && (b.ret == -1 <==> sz + 8 * nu == 0x1_0000_0000))
      && (nu >= 0x1000_0000 && b.ret == -1 ==> b.top == 0 && b.size == sz)
  {
  }

  /** The request is rounded up to units that hold it, and those units are what sbrk is asked
      for. */
  predicate AsksRight(nbytes: nat) {
    8 * (Units(nbytes) - 1) >= nbytes && Bytes(AtLeast(Units(nbytes))) == 8 * AtLeast(Units(nbytes))
  }

  /** The exact condition, in the argument of malloc: the product overflows above 0x7FFFFFF0,
      the rounding above 0xFFFFFFF8. */
  lemma AsksRightIff(nbytes: nat)
    requires nbytes < 0x1_0000_0000
    ensures AsksRight(nbytes) <==> nbytes <= 0x7FFF_FFF0
    ensures 8 * (Units(nbytes) - 1) >= nbytes <==> nbytes <= 0xFFFF_FFF8
    ensures Units(nbytes) >= 0x1000_0000 <==> 0x7FFF_FFF0 < nbytes <= 0xFFFF_FFF8
  {
  }

  /** Requests that fail: sbrk is asked for nothing, for less than nothing; the block is one unit
      with no byte behind its header; and, in a process of 0x8000 bytes, sbrk takes them all. */
  lemma TooLarge()
    ensures Bytes(AtLeast(Units(0xFFFF_FFF8))) == 0 && Units(0xFFFF_FFF8) == 0x2000_0000
    ensures Bytes(AtLeast(Units(0xFFFF_F000))) == -4088
    ensures Units(0xFFFF_FFFF) == 1
    ensures Sbrk(0x8000, Bytes(AtLeast(Units(0xFFFF_7FF8))), true) == Brk(-1, 0x8000, 0)
  {
  }

  /** Steps from position j to position g around a list of n. */
  function Around(n: nat, j: nat, g: nat): int {
    if j <= g then g - j else n - j + g
  }

  function After(n: nat, j: nat): nat
    requires j < n
  {
    if j + 1 < n then j + 1 else 0
  }

  lemma AroundStep(n: nat, i: nat, f: nat)
    requires i < n && f < n && i != f
    ensures Around(n, After(n, i), f) == Around(n, i, f) - 1
    ensures forall k :: 0 <= k < n && Around(n, k, f) == Around(n, i, f) ==> k == i
  {
  }

  /** The blocks the lap from f to i went past have fewer than n units. */
  ghost predicate TooSmall(mem: Mem, ring: seq<int>, n: nat, i: nat, f: nat) {
    forall k :: 0 <= k < |ring| && Around(|ring|, k, f) > Around(|ring|, i, f) ==>
      ring[k] in mem && mem[ring[k]].size < n
  }

  lemma TooSmallNext(mem: Mem, ring: seq<int>, n: nat, i: nat, f: nat)
    requires i < |ring| && f < |ring| && i != f && TooSmall(mem, ring, n, i, f) && ring[i] in mem &&
      mem[ring[i]].size < n
    ensures TooSmall(mem, ring, n, After(|ring|, i), f) &&
      Around(|ring|, After(|ring|, i), f) == Around(|ring|, i, f) - 1
  {
    AroundStep(|ring|, i, f);
  }

  /** At the end of a lap every block was passed, but for the one it ends at. */
  lemma LapDone(mem: Mem, ring: seq<int>, n: nat, f: nat)
    requires f < |ring| && TooSmall(mem, ring, n, f, f) && ring[f] in mem && mem[ring[f]].size < n
    ensures forall k :: 0 <= k < |ring| ==> ring[k] in mem && mem[ring[k]].size < n
  {
    forall k | 0 <= k < |ring| ensures ring[k] in mem && mem[ring[k]].size < n {
      assert k == f || Around(|ring|, k, f) > Around(|ring|, f, f);
    }
  }

  /** Some block of the free list has n units. */
  ghost predicate Fits(mem: Mem, ring: seq<int>, n: nat) {
    exists k :: 0 <= k < |ring| && ring[k] in mem && mem[ring[k]].size >= n
  }

  /** q is where the last n units of block i begin, the first that has them on the way around from
      freep, at f; and freep' is the block before. */
  ghost predicate CutAt(mem: Mem, ring: seq<int>, freep: int, n: nat, q: int, freep': int, f: int, i: int) {
    && 0 <= f < |ring| && ring[f] == freep && FirstAt(mem, ring, n, i, f)
    && ring[i - 1] == freep' && q + n == ring[i] + mem[ring[i]].size
  }

  /** q is in no such place. */
  ghost predicate Misplaced(mem: Mem, ring: seq<int>, freep: int, n: nat, q: int, freep': int) {
    forall f, i :: !CutAt(mem, ring, freep, n, q, freep', f, i)
  }

  /** Block i is the first with n units on the way around from f. */
  ghost predicate FirstAt(mem: Mem, ring: seq<int>, n: nat, i: int, f: int) {
    0 < i < |ring| && 0 <= f && ring[i] in mem && mem[ring[i]].size >= n && TooSmall(mem, ring, n, i, f)
  }

  lemma FirstFits(mem: Mem, ring: seq<int>, n: nat, i: nat, f: nat)
    requires FirstAt(mem, ring, n, i, f)
    ensures Fits(mem, ring, n)
  {
  }

  /** Null and Got are malloc's results.  Wild: sbrk gave nothing, and the next store is a header
      outside the process, which now has top bytes.  Gone: the result is null, and the process has
      no memory left. */
  datatype Outcome = Null | Got(p: int) | Wild(top: int) | Gone

  class Heap {
    var sz: nat           // bytes of the process
    var mem: Mem
    const base: int       // &base
    var freep: int        // 0 is the null pointer
    ghost var ring: seq<int>
    ghost var live: set<int>
    ghost var owner: map<int, int>

    /** The process ends on a unit and holds base and every unit from sbrk. */
    ghost predicate Inside()
      reads this
    {
      sz % 8 == 0 && sz < KERNBASE && base > 0 && 8 * (base + 1) <= sz && forall u :: u in owner ==> 8 * (u + 1) <= sz
    }

    ghost predicate Ready()
      reads this
    {
      Inside() && HeapOk(mem, base, ring, live, owner) && freep in ring
    }

    ghost predicate Valid()
      reads this
    {
      Ready() || (Inside() && freep == 0 && base in mem && live == {} && owner == map[])
    }

    /** A free block has n units; before the first malloc there is none. */
    ghost predicate HasFree(n: nat)
      reads this
    {
      freep != 0 && Fits(mem, ring, n)
    }

    /** A program before its first malloc. */
    constructor (sz: nat, base: int)
      requires sz % 8 == 0 && sz < KERNBASE && base > 0 && 8 * (base + 1) <= sz
      ensures Valid() && this.sz == sz && this.base == base && live == {} && freep == 0
    {
      this.sz, this.base, freep, mem := sz, base, 0, map[base := Header(0, 0)];
      ring, live, owner := [], {}, map[];
    }

    /** The search of free: the free block after which b belongs. */
    method FindPlace(b: int) returns (p: int, ghost k: nat)
      requires Ready() && b in live
      ensures k < |ring| && p == ring[k] && ring[k] < b && (k + 1 < |ring| ==> b < ring[k + 1])
    {
      assert b > base by { assert Block(base, ring, live, b) && Whole(mem, owner, b); }
      ghost var t := LastBelow(ring, b);
      p := freep;
      k :| 0 <= k < |ring| && ring[k] == freep;
      while !(b > p && b < mem[p].ptr)
        invariant k < |ring| && p == ring[k]
        decreases Around(|ring|, k, t)
      {
        assert LinkAt(mem, ring, k);
        if p >= mem[p].ptr && (b > p || b < mem[p].ptr) {
          break;
        }
        p, k := mem[p].ptr, After(|ring|, k);
      }
      assert LinkAt(mem, ring, k);
    }

    /** The stores of free. */
    method LinkIn(p: int, bp: int)
      requires p in mem && bp in mem && p != bp && mem[p].ptr in mem && mem[p].ptr != bp
      modifies this`mem
      ensures mem == FreeMem(old(mem), p, bp)
    {
      var nx := mem[p].ptr;
      if bp + mem[bp].size == nx {
        mem := mem[bp := Header(mem[bp].ptr, mem[bp].size + mem[nx].size)];
        mem := mem[bp := Header(mem[nx].ptr, mem[bp].size)];
      } else {
        mem := mem[bp := Header(nx, mem[bp].size)];
      }
      if p + mem[p].size == bp {
        mem := mem[p := Header(mem[p].ptr, mem[p].size + mem[bp].size)];
        mem := mem[p := Header(mem[bp].ptr, mem[p].size)];
      } else {
        mem := mem[p := Header(bp, mem[p].size)];
      }
    }

    /** free: the block joins the free list and its free neighbours; nothing else moves.
        g is the position of the block that now holds it. */
    method Free(ap: int) returns (ghost g: nat)
      requires Ready() && ap - 1 in live
      modifies this`mem, this`freep, this`ring, this`live, this`owner
      ensures Ready() && live == old(live) - {ap - 1}
      ensures Untouched(live, old(mem), old(owner), mem, owner)
      ensures owner.Keys == old(owner).Keys && mem.Keys == old(mem).Keys
      ensures 0 < g < |ring| && mem[ring[g]].size >= old(mem)[ap - 1].size
    {
      var bp := ap - 1;
      var p, k := FindPlace(bp);
      ghost var m', r', o';
      m', r', o', g := FreeDone(mem, base, ring, live, owner, bp, k, p);
      LinkIn(p, bp);
      freep, ring, live, owner := p, r', live - {bp}, o';
    }

    /** No block is as large as 2^28 units. */
    lemma BlockSmall(a: int)
      requires Ready() && Block(base, ring, live, a)
      ensures a in mem && mem[a].size < 0x1000_0000
    {
      assert Whole(mem, owner, a);
      var last := a + mem[a].size - 1;
      assert last in owner && owner[last] == a && a in owner;
    }

    /** The memory sbrk gave becomes a live block. */
    method AddBlock(n: nat) returns (brk: int)
      requires Ready() && n >= 1 && sz + 8 * n < KERNBASE
      modifies this`sz, this`mem, this`live, this`owner
      ensures Ready() && brk == old(sz) / 8 && brk !in old(live) && live == old(live) + {brk} && mem[brk].size == n
      ensures sz == old(sz) + 8 * n && forall u :: u in owner <==> u in old(owner) || brk <= u < brk + n
      ensures Untouched(old(live), old(mem), old(owner), mem, owner)
    {
      brk := sz / 8;
      var mem' := Grown(mem, brk, n);
      ghost var owner' := Added(mem, base, ring, live, owner, sz, brk, n, mem');
      sz, mem, owner, live := sz + 8 * n, mem', owner', live + {brk};
    }

    /** Then free makes it a free one. */
    method AddCore(n: nat) returns (ghost g: nat)
      requires Ready() && n >= 1 && sz + 8 * n < KERNBASE
      modifies this`sz, this`mem, this`freep, this`ring, this`live, this`owner
      ensures Ready() && live == old(live) && sz == old(sz) + 8 * n
      ensures 0 < g < |ring| && mem[ring[g]].size >= n
      ensures forall u :: u in owner <==> u in old(owner) || old(sz) / 8 <= u < old(sz) / 8 + n
      ensures Untouched(live, old(mem), old(owner), mem, owner)
    {
      ghost var m0, o0 := mem, owner;
      var brk := AddBlock(n);
      ghost var m1, o1 := mem, owner;
      g := Free(brk + 1);
      assert live == old(live);
      UntouchedTrans(live, m0, o0, m1, o1, mem, owner);
    }

    /** morecore: a free block of at least nu units exists afterwards, or sbrk failed; or so
        many units were asked for that sbrk gave none. */
    method Morecore(nu: nat, room: bool) returns (o: Outcome, ghost g: nat)
      requires Ready() && 1 <= nu <= 0x2000_0000
      modifies this`sz, this`mem, this`freep, this`ring, this`live, this`owner
      ensures o.Wild? <==> nu >= 0x1000_0000 && old(sz) + 8 * nu != 0x1_0000_0000
      ensures o.Gone? <==> nu >= 0x1000_0000 && old(sz) + 8 * nu == 0x1_0000_0000
      ensures o == Null <==> nu < 0x1000_0000 && !(room && old(sz) + 8 * AtLeast(nu) < KERNBASE)
      ensures o.Null? || o.Got? ==> Ready() && Untouched(live, old(mem), old(owner), mem, owner)
      ensures live == old(live)
      ensures !o.Got? ==> mem == old(mem) && owner == old(owner) && ring == old(ring) && freep == old(freep)
      ensures o == Null || o.Gone? ==> sz == old(sz)
      ensures o.Wild? ==> o.top <= old(sz)
      ensures o.Got? ==> 0 < g < |ring| && mem[ring[g]].size >= nu && sz == old(sz) + 8 * AtLeast(nu)
    {
      var n := AtLeast(nu);
      SbrkGives(sz, n, room);
      var b := Sbrk(sz, Bytes(n), room);
      g := 0;
      if b.ret == -1 {
        o := if Bytes(n) > 0 then Null else Gone;
        return;
      }
      if Bytes(n) <= 0 {
        sz := b.size;
        return Wild(b.top), 0;
      }
      g := AddCore(n);
      o := Got(freep);
    }

    /** malloc found block p, at position k, of just the right size. */
    method CarveAll(prevp: int, p: int, ghost k: nat)
      requires Ready() && 0 < k < |ring| && prevp == ring[k - 1] && p == ring[k]
      modifies this`mem, this`freep, this`ring, this`live
      ensures Ready() && p !in old(live) && live == old(live) + {p} && mem[p].size == old(mem)[p].size
      ensures freep == prevp
      ensures Untouched(old(live), old(mem), owner, mem, owner)
    {
      ghost var m0 := mem;
      mem := mem[prevp := Header(mem[p].ptr, mem[prevp].size)];
      TakeDone(m0, base, ring, live, owner, k, prevp, p, mem);
      ring, live := Dropped(ring, k), live + {p};
      freep := prevp;
    }

    /** A larger one: its tail is cut off. */
    method CarveTail(prevp: int, p: int, n: int, ghost k: nat) returns (q: int)
      requires Ready() && 0 < k < |ring| && prevp == ring[k - 1] && p == ring[k] && 0 < n < mem[p].size
      modifies this`mem, this`freep, this`live, this`owner
      ensures Ready() && q !in old(live) && live == old(live) + {q} && mem[q].size == n
      ensures q + n == p + old(mem)[p].size && freep == prevp
      ensures owner.Keys == old(owner).Keys
      ensures Untouched(old(live), old(mem), old(owner), mem, owner)
    {
      ghost var m0 := mem;
      q := p + (mem[p].size - n);
      CutPlace(mem, base, ring, live, owner, k, q);
      mem := mem[p := Header(mem[p].ptr, mem[p].size - n)];
      mem := mem[q := Header(mem[q].ptr, n)];
      owner := SplitDone(m0, base, ring, live, owner, k, p, n, q, mem);
      live := live + {q};
      freep := prevp;
    }

    /** malloc found block p, at position k, big enough. */
    method Carve(prevp: int, p: int, n: int, ghost k: nat) returns (r: int)
      requires Ready() && 0 < k < |ring| && prevp == ring[k - 1] && p == ring[k] && 0 < n <= mem[p].size
      modifies this`mem, this`freep, this`ring, this`live, this`owner
      ensures Ready() && r - 1 !in old(live) && live == old(live) + {r - 1} && mem[r - 1].size == n
      ensures r - 1 + n == p + old(mem)[p].size && freep == prevp
      ensures owner.Keys == old(owner).Keys
      ensures Untouched(old(live), old(mem), old(owner), mem, owner)
    {
      if mem[p].size == n {
        CarveAll(prevp, p, k);
        r := p + 1;
      } else {
        var q := CarveTail(prevp, p, n, k);
        r := q + 1;
      }
    }

    /** The first call of malloc: a list of base alone. */
    method InitList()
      requires Inside() && freep == 0 && base in mem && live == {} && owner == map[]
      modifies this`mem, this`freep, this`ring
      ensures Ready() && forall n: nat :: n >= 1 ==> !Fits(mem, ring, n)
    {
      mem := mem[base := Header(base, 0)];
      freep := base;
      ring := [base];
    }

    /** One lap of malloc's loop: the first block of at least n units after freep, with its
        predecessor; without one, the lap ends at freep and every block is too small. */
    method Lap(n: nat) returns (found: bool, prevp: int, p: int, ghost i: nat, ghost f: nat)
      requires Ring(mem, base, ring) && freep in ring && mem[base].size == 0 && n >= 1
      ensures found ==> 0 < i < |ring| && p == ring[i] && prevp == ring[i - 1] && mem[p].size >= n
      ensures f < |ring| && ring[f] == freep && (found ==> FirstAt(mem, ring, n, i, f))
      ensures !found ==> !Fits(mem, ring, n)
    {
      f :| 0 <= f < |ring| && ring[f] == freep;
      i := After(|ring|, f);
      assert LinkAt(mem, ring, f);
      prevp := freep;
      p := mem[prevp].ptr;
      while mem[p].size < n && p != freep
        invariant i < |ring| && p == ring[i] && (i > 0 ==> prevp == ring[i - 1])
        invariant TooSmall(mem, ring, n, i, f)
        decreases Around(|ring|, i, f)
      {
        assert LinkAt(mem, ring, i);
        TooSmallNext(mem, ring, n, i, f);
        prevp, p, i := p, mem[p].ptr, After(|ring|, i);
      }
      found := mem[p].size >= n;
      if !found {
        assert i == f;
        LapDone(mem, ring, n, f);
      }
    }

    /** malloc after a lap without a fit: morecore, and one more lap finds the block. */
    method GrowAndTake(n: nat, room: bool) returns (o: Outcome)
      requires Ready() && 1 <= n <= 0x2000_0000
      modifies this`sz, this`mem, this`freep, this`ring, this`live, this`owner
      ensures o.Wild? <==> n >= 0x1000_0000 && old(sz) + 8 * n != 0x1_0000_0000
      ensures o.Gone? <==> n >= 0x1000_0000 && old(sz) + 8 * n == 0x1_0000_0000
      ensures o == Null <==> n < 0x1000_0000 && !(room && old(sz) + 8 * AtLeast(n) < KERNBASE)
      ensures o.Got? ==> sz == old(sz) + 8 * AtLeast(n)
      ensures o == Null ==> sz == old(sz) && mem == old(mem) && ring == old(ring) && freep == old(freep)
      ensures !o.Got? ==> live == old(live) && owner == old(owner)
      ensures o.Null? || o.Got? ==> Ready() && Untouched(old(live), old(mem), old(owner), mem, owner)
      ensures o.Wild? ==> o.top <= old(sz)
      ensures o.Got? ==>
        o.p - 1 !in old(live) && live == old(live) + {o.p - 1} && o.p - 1 in mem && mem[o.p - 1].size == n
    {
      ghost var m0, o0, l0 := mem, owner, live;
      ghost var g;
      o, g := Morecore(n, room);
      if !o.Got? {
        return;
      }
      var found, prevp, p, i, f := Lap(n);
      assert mem[ring[g]].size >= n;
      ghost var m1, o1 := mem, owner;
      var r := Carve(prevp, p, n, i);
      UntouchedTrans(l0, m0, o0, m1, o1, mem, owner);
      o := Got(r);
    }

    /** malloc after a lap that found block i, the first to fit behind f. */
    method TakeFound(n: nat, prevp: int, p: int, ghost i: nat, ghost f: nat) returns (r: int)
      requires Ready() && 1 <= n && 0 < i < |ring| && p == ring[i] && prevp == ring[i - 1]
      requires f < |ring| && ring[f] == freep && FirstAt(mem, ring, n, i, f)
      modifies this`mem, this`freep, this`ring, this`live, this`owner
      ensures n < 0x1000_0000 && !Misplaced(old(mem), old(ring), old(freep), n, r - 1, freep)
      ensures Ready() && Untouched(old(live), old(mem), old(owner), mem, owner)
      ensures r - 1 !in old(live) && live == old(live) + {r - 1} && r - 1 in mem && mem[r - 1].size == n
    {
      BlockSmall(p);
      ghost var m0, r0, f0 := mem, ring, freep;
      r := Carve(prevp, p, n, i);
      assert CutAt(m0, r0, f0, n, r - 1, freep, f, i);
    }

    /** malloc after its first lines.  A block of the list that fits is taken before morecore is
        asked, which is at most once. */
    method FirstFit(n: nat, room: bool) returns (o: Outcome)
      requires Ready() && 1 <= n <= 0x2000_0000
      modifies this`sz, this`mem, this`freep, this`ring, this`live, this`owner
      ensures o.Wild? <==> n >= 0x1000_0000 && old(sz) + 8 * n != 0x1_0000_0000
      ensures o.Gone? <==> n >= 0x1000_0000 && old(sz) + 8 * n == 0x1_0000_0000
      ensures o == Null <==>
        n < 0x1000_0000 && !old(Fits(mem, ring, n)) && !(room && old(sz) + 8 * AtLeast(n) < KERNBASE)
      ensures old(Fits(mem, ring, n)) ==>
        o.Got? && sz == old(sz) && !Misplaced(old(mem), old(ring), old(freep), n, o.p - 1, freep)
      ensures o.Got? && !old(Fits(mem, ring, n)) ==> sz == old(sz) + 8 * AtLeast(n)
      ensures o == Null ==> sz == old(sz) && mem == old(mem) && ring == old(ring) && freep == old(freep)
      ensures !o.Got? ==> live == old(live) && owner == old(owner)
      ensures o.Null? || o.Got? ==> Ready() && Untouched(old(live), old(mem), old(owner), mem, owner)
      ensures o.Wild? ==> o.top <= old(sz)
      ensures o.Got? ==>
        o.p - 1 !in old(live) && live == old(live) + {o.p - 1} && o.p - 1 in mem && mem[o.p - 1].size == n
    {
      var found, prevp, p, i, f := Lap(n);
      if !found {
        o := GrowAndTake(n, room);
        return;
      }
      FirstFits(mem, ring, n, i, f);
      var r := TakeFound(n, prevp, p, i, f);
      o := Got(r);
    }

    /** malloc: a block of Units(nbytes) units that no live block shares, or null for want of
        memory; live blocks keep their place and contents.  The units hold nbytes bytes exactly
        if the rounding did not wrap; sbrk is asked for what is needed exactly if the product
        did not. */
    method Malloc(nbytes: nat, room: bool) returns (o: Outcome)
      requires Valid() && nbytes < 0x1_0000_0000
      modifies this`sz, this`mem, this`freep, this`ring, this`live, this`owner
      ensures o.Wild? || o.Gone? <==> 0x7FFF_FFF0 < nbytes <= 0xFFFF_FFF8
      ensures o.Gone? ==> old(sz) + 8 * Units(nbytes) == 0x1_0000_0000
      ensures o.Wild? ==> old(sz) + 8 * Units(nbytes) != 0x1_0000_0000 && o.top <= old(sz)
      ensures o == Null <==>
        && Units(nbytes) < 0x1000_0000 && !old(HasFree(Units(nbytes)))
        && !(room && old(sz) + 8 * AtLeast(Units(nbytes)) < KERNBASE)
      ensures old(HasFree(Units(nbytes))) ==>
        o.Got? && sz == old(sz) && !Misplaced(old(mem), old(ring), old(freep), Units(nbytes), o.p - 1, freep)
      ensures o.Got? && !old(HasFree(Units(nbytes))) ==> sz == old(sz) + 8 * AtLeast(Units(nbytes))
      ensures !o.Got? ==> live == old(live) && owner == old(owner)
      ensures o.Null? || o.Got? ==> Ready() && Untouched(old(live), old(mem), old(owner), mem, owner)
      ensures o.Got? ==> o.p - 1 !in old(live) && live == old(live) + {o.p - 1}
      ensures o.Got? ==> o.p - 1 in mem && mem[o.p - 1].size == Units(nbytes)
      ensures o.Got? ==> (8 * (mem[o.p - 1].size - 1) >= nbytes <==> nbytes <= 0x7FFF_FFF0)
    {
      AsksRightIff(nbytes);
      var nunits := (nbytes + 7) % 0x1_0000_0000 / 8 + 1;
      if freep == 0 {
        InitList();
      }
      o := FirstFit(nunits, room);
    }
  }

  /** The memory with n units more at brk, one block of that size. */
  function Grown(mem: Mem, brk: int, n: nat): Mem {
    (mem + Span(brk, n, Header(0, 0)))[brk := Header(0, n)]
  }

  lemma Added(mem: Mem, base: int, ring: seq<int>, live: set<int>, owner: map<int, int>, sz: nat, brk: int, n: nat,
      mem': Mem)
    returns (owner': map<int, int>)
    requires HeapOk(mem, base, ring, live, owner) && n >= 1 && mem' == Grown(mem, brk, n)
    requires sz % 8 == 0 && brk == sz / 8 && 8 * (base + 1) <= sz && forall u :: u in owner ==> 8 * (u + 1) <= sz
    ensures HeapOk(mem', base, ring, live + {brk}, owner') && Untouched(live, mem, owner, mem', owner')
    ensures brk !in live && brk in mem' && mem'[brk].size == n
    ensures forall u :: u in owner' <==> u in owner || brk <= u < brk + n
    ensures forall u :: u in owner' ==> 8 * (u + 1) <= sz + 8 * n
  {
    BrkAbove(owner, base, sz, brk);
    owner' := owner + Span(brk, n, brk);
    GrowDone(mem, base, ring, live, owner, brk, n, mem', owner');
    GrownInside(owner, owner', brk, n, sz + 8 * n);
  }

  /** The end of the process is above base and every unit. */
  lemma BrkAbove(owner: map<int, int>, base: int, sz: nat, brk: int)
    requires sz % 8 == 0 && brk == sz / 8 && 8 * (base + 1) <= sz && forall u :: u in owner ==> 8 * (u + 1) <= sz
    ensures sz == 8 * brk && base < brk && forall u :: u in owner ==> u < brk
  {
  }

  lemma GrownInside(o0: map<int, int>, owner: map<int, int>, brk: int, n: nat, sz: int)
    requires sz == 8 * (brk + n) && (forall u :: u in o0 ==> u < brk) && owner == o0 + Span(brk, n, brk)
    ensures forall u :: u in owner ==> 8 * (u + 1) <= sz
    ensures forall u :: u in owner <==> u in o0 || brk <= u < brk + n
  {
  }

  /** The last position below b; b itself is not in the list. */
  lemma LastBelow(ring: seq<int>, b: int) returns (t: nat)
    requires |ring| > 0 && Ascending(ring) && ring[0] < b && b !in ring
    ensures t < |ring| && ring[t] < b && (t + 1 < |ring| ==> b < ring[t + 1])
  {
    t := 0;
    while t + 1 < |ring| && ring[t + 1] < b
      invariant t < |ring| && ring[t] < b
    {
      t := t + 1;
    }
  }
}
