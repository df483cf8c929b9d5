// How many pages an address space takes from the free list of Ass2/kalloc.c: its frames, and the
// page-table pages its directory lacks.

module VmCount {
  /** The table of directory entry i has one of virtual pages lo, ..., hi - 1. */
  predicate Touches(i: int, lo: int, hi: int) {
    lo < hi && lo < 1024 * i + 1024 && 1024 * i < hi
  }

  /** The directory entries that virtual pages lo, ..., hi - 1 need. */
  function Entries(lo: int, hi: int): set<int> {
    set i | 0 <= i < 1024 && Touches(i, lo, hi)
  }

  /** The first page of the range, or the first of its table: only then is a table looked for anew. */
  predicate Opens(lo: int, n: int) {
    n == lo || n % 1024 == 0
  }

  /** How many tables those pages lack in a directory with entries keys, counted page by page. */
  function Missing(keys: set<int>, lo: int, hi: int): nat
    decreases hi - lo
  {
    if hi <= lo then 0
    else Missing(keys, lo, hi - 1) + if Opens(lo, hi - 1) && (hi - 1) / 1024 !in keys then 1 else 0
  }

  lemma EntriesMore(lo: int, n: int)
    requires 0 <= lo <= n < 0x10_0000
    ensures Entries(lo, n + 1) == Entries(lo, n) + {n / 1024}
    ensures n / 1024 in Entries(lo, n) <==> !Opens(lo, n)
  {
    assert n == 1024 * (n / 1024) + n % 1024;
  }

  /** The count is of the entries that are not there. */
  lemma {:induction false} MissingIs(keys: set<int>, lo: int, hi: int)
    requires 0 <= lo <= hi <= 0x10_0000
    ensures Missing(keys, lo, hi) == |Entries(lo, hi) - keys|
    decreases hi - lo
  {
    if lo == hi {
      assert Entries(lo, hi) - keys == {};
    } else {
      var n := hi - 1;
      MissingIs(keys, lo, n);
      EntriesMore(lo, n);
      if n / 1024 in Entries(lo, n) || n / 1024 in keys {
        assert Entries(lo, hi) - keys == Entries(lo, n) - keys;
      } else {
        assert Entries(lo, hi) - keys == (Entries(lo, n) - keys) + {n / 1024};
      }
    }
  }

  /** User pages have frames of their own; kernel pages are there already. */
  function Frames(user: bool, k: int): nat {
    if user && k >= 0 then k else 0
  }

  /** What virtual pages lo, ..., hi - 1 take from the free list. */
  function Need(keys: set<int>, lo: int, hi: int, user: bool): nat {
    Frames(user, hi - lo) + Missing(keys, lo, hi)
  }

  /** What a single page takes. */
  function OneCost(keys: set<int>, i: int, user: bool): nat {
    Frames(user, 1) + if i in keys then 0 else 1
  }

  /** Entry i is there now, and no other came. */
  ghost predicate EntryAdded(keys: set<int>, keys': set<int>, i: int) {
    forall j :: j in keys' <==> j in keys || j == i
  }

  /** A directory with entries keys, and f free pages, came to have tables for pages lo, ..., hi - 1,
      with f' pages left. */
  ghost predicate TookRange(keys: set<int>, f: nat, keys': set<int>, f': nat, lo: int, hi: int, user: bool) {
    lo <= hi && (forall j :: j in keys' <==> j in keys || Touches(j, lo, hi)) && f == f' + Need(keys, lo, hi, user)
  }

  lemma PageCost(keys: set<int>, f: nat, keys': set<int>, f': nat, lo: int, n: int, user: bool)
    requires 0 <= lo <= n < 0x10_0000 && TookRange(keys, f, keys', f', lo, n, user)
    ensures Need(keys, lo, n + 1, user) == Need(keys, lo, n, user) + OneCost(keys', n / 1024, user)
  {
    assert n == 1024 * (n / 1024) + n % 1024;
  }

  lemma TookMore(k0: set<int>, f0: nat, k1: set<int>, f1: nat, k2: set<int>, f2: nat, lo: int, n: int, user: bool)
    requires 0 <= lo <= n < 0x10_0000 && TookRange(k0, f0, k1, f1, lo, n, user)
    requires EntryAdded(k1, k2, n / 1024) && f1 == f2 + OneCost(k1, n / 1024, user)
    ensures TookRange(k0, f0, k2, f2, lo, n + 1, user)
  {
    PageCost(k0, f0, k1, f1, lo, n, user);
    assert n == 1024 * (n / 1024) + n % 1024;
    assert forall j :: Touches(j, lo, n + 1) <==> Touches(j, lo, n) || j == n / 1024;
  }

  /** More pages take at least as much. */
  lemma {:induction false} NeedUp(keys: set<int>, lo: int, n: int, hi: int, user: bool)
    requires n <= hi
    ensures Need(keys, lo, n, user) <= Need(keys, lo, hi, user)
    decreases hi - n
  {
    if n < hi {
      NeedUp(keys, lo, n, hi - 1, user);
    }
  }

  /** A frame or a table was not to be had for page n: so there are too few for the range. */
  lemma TooFew(k0: set<int>, f0: nat, k1: set<int>, f1: nat, lo: int, n: int, hi: int, user: bool)
    requires 0 <= lo <= n < hi <= 0x10_0000 && TookRange(k0, f0, k1, f1, lo, n, user)
    requires f1 < OneCost(k1, n / 1024, user)
    ensures f0 < Need(k0, lo, hi, user)
  {
    PageCost(k0, f0, k1, f1, lo, n, user);
    NeedUp(k0, lo, n + 1, hi, user);
  }

  lemma TookNone(k: set<int>, f: nat, lo: int, user: bool)
    ensures TookRange(k, f, k, f, lo, lo, user)
  {
  }

  lemma TouchesEntry(j: int, lo: int, hi: int)
    requires 0 <= lo && hi <= 0x10_0000
    ensures Touches(j, lo, hi) <==> j in Entries(lo, hi)
  {
  }

  lemma KeysAre(keys: set<int>, f: nat, keys': set<int>, f': nat, lo: int, hi: int, user: bool)
    requires 0 <= lo && hi <= 0x10_0000 && TookRange(keys, f, keys', f', lo, hi, user)
    ensures keys' == keys + Entries(lo, hi)
  {
    forall j ensures j in keys' <==> j in keys + Entries(lo, hi) { TouchesEntry(j, lo, hi); }
  }

  lemma AddedCard(a: set<int>, b: set<int>)
    ensures |a + b| == |a| + |b - a|
  {
    assert a + b == a + (b - a);
  }

  /** One page for each new table. */
  lemma TablesCount(keys: set<int>, lo: int, hi: int)
    requires 0 <= lo <= hi <= 0x10_0000
    ensures |keys + Entries(lo, hi)| == |keys| + Need(keys, lo, hi, false)
  {
    MissingIs(keys, lo, hi);
    AddedCard(keys, Entries(lo, hi));
  }

  /** Kernel pages cost their tables only. */
  lemma RangeCounts(keys: set<int>, f: nat, keys': set<int>, f': nat, lo: int, hi: int)
    requires 0 <= lo && hi <= 0x10_0000 && TookRange(keys, f, keys', f', lo, hi, false)
    ensures keys' == keys + Entries(lo, hi) && f + |keys| == f' + |keys'|
  {
    KeysAre(keys, f, keys', f', lo, hi, false);
    TablesCount(keys, lo, hi);
  }

  lemma RangeFails(keys: set<int>, f: nat, lo: int, hi: int, all: set<int>)
    requires 0 <= lo <= hi <= 0x10_0000 && f < Need(keys, lo, hi, false) && keys + Entries(lo, hi) <= all
    ensures f + |keys| < |all|
  {
    TablesCount(keys, lo, hi);
    Subset(keys + Entries(lo, hi), all);
  }

  lemma Subset(a: set<int>, b: set<int>)
    requires a <= b
    ensures |a| <= |b|
  {
    AddedCard(a, b);
    assert a + b == b;
  }

  /** User pages and kernel pages have different tables. */
  lemma UserApart(keys: set<int>, hi: int)
    requires 0 <= hi <= 0x8_0000 && forall j :: j in keys ==> j >= 512
    ensures Missing(keys, 0, hi) == |Entries(0, hi)|
  {
    MissingIs(keys, 0, hi);
    assert Entries(0, hi) - keys == Entries(0, hi);
  }
}
