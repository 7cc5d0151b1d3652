/** How many pages the loops of vm.c take off the free list: pages for the memory itself and for the page
    tables that are missing. */
module VmLedger {
  import opened Basics
  import opened VmPages
  import opened VmSteps

  /** Always true; the bills are looked into only where this is mentioned. */
  ghost predicate Paying(d: nat) {
    true
  }

  // ----- one page -----

  /** Going from m to n, a page was taken and no table made or lost. */
  ghost function Took<B(!new)>(m: Mem<B>, n: Mem<B>, d: nat): (r: Claim) {
    Claim(forall x {:trigger Paying(x)} :: x == d && Paying(x) ==>
      |m.list| == |n.list| + 1 && forall y: nat :: HasTable(n, x, y) <==> HasTable(m, x, y))
  }

  ghost function Missing<B>(m: Mem<B>, d: nat, i: nat): (k: nat) {
    if HasTable(m, d, i) then 0 else 1
  }

  /** Going from m to n, directory d was to get a table at i, if it has none, and extra pages besides. */
  ghost predicate BillIs<B>(m: Mem<B>, n: Mem<B>, d: nat, i: nat, extra: nat, ok: bool) {
    if ok then
      |m.list| == |n.list| + extra + Missing(m, d, i) && forall y: nat :: HasTable(n, d, y) <==> HasTable(m, d, y) || y == i
    else
      |m.list| < extra + Missing(m, d, i)
  }

  ghost function Bill<B(!new)>(m: Mem<B>, n: Mem<B>, d: nat, i: nat, extra: nat, ok: bool): (r: Claim) {
    Claim(forall x {:trigger Paying(x)} :: x == d && Paying(x) ==> BillIs(m, n, x, i, extra, ok))
  }

  lemma BillHas<B(!new)>(m: Mem<B>, d: nat, i: nat)
    requires HasTable(m, d, i)
    ensures Bill(m, m, d, i, 0, true).holds
  {
  }

  lemma BillNone<B(!new)>(m: Mem<B>, n: Mem<B>, d: nat, i: nat)
    requires !HasTable(m, d, i) && m.list == []
    ensures Bill(m, n, d, i, 0, false).holds
  {
  }

  lemma BillMade<B(!new)>(m0: Mem<B>, m1: Mem<B>, m2: Mem<B>, n: Mem<B>, d: nat, i: nat, t: nat)
    requires m0.list != [] && t == m0.list[0] && m1 == Popped(m0) && m2 == Filled(m1, t, Table(Zeros(ENTRIES)))
    requires CanHangTable(m2, d, i, t) && n == TableHung(m2, d, i, t) && IsDir(m0, d) && d != t && !HasTable(m0, d, i)
    ensures Bill(m0, n, d, i, 0, true).holds
  {
    assert m2.pages[d] == m0.pages[d];
  }

  /** An entry in a table of d, and a page in other hands, make no table. */
  lemma BillEntry<B(!new)>(m: Mem<B>, n: Mem<B>, o: Mem<B>, d: nat, i: nat)
    requires Bill(m, n, d, i, 0, true).holds && o.list == n.list && (IsDir(o, d) <==> IsDir(n, d))
    requires d in n.pages && d in o.pages && o.pages[d] == n.pages[d]
    ensures Bill(m, o, d, i, 0, true).holds
  {
    assert Paying(d);
  }

  lemma TookPage<B(!new)>(m: Mem<B>, n: Mem<B>, o: Mem<B>, d: nat, k: nat, x: Page<B>)
    requires Inv(m).holds && m.list != [] && k == m.list[0] && n == Popped(m) && o == Filled(n, k, x)
    ensures Took(m, o, d).holds
  {
    if d in m.owner {
      OwnedNotLoose(m, d);
    }
    assert k in m.list;
    forall y: nat ensures HasTable(o, d, y) <==> HasTable(m, d, y) {
    }
  }

  lemma BillBoth<B(!new)>(m: Mem<B>, n: Mem<B>, o: Mem<B>, p: Mem<B>, d: nat, i: nat, ok: bool)
    requires Took(m, n, d).holds && Bill(n, o, d, i, 0, ok).holds && (ok ==> p == o)
    ensures Bill(m, p, d, i, 1, ok).holds
  {
    assert Paying(d);
  }

  lemma BillEmpty<B(!new)>(m: Mem<B>, n: Mem<B>, d: nat, i: nat)
    requires m.list == []
    ensures Bill(m, n, d, i, 1, false).holds
  {
  }

  // ----- a range of user pages -----

  /** Pages it takes to map user pages lo up to hi of d: one each, and one for each missing table. */
  ghost function Price<B>(m: Mem<B>, d: nat, lo: nat, hi: nat): (k: nat)
    ensures k <= 2 * (if lo < hi then hi - lo else 0)
    decreases hi
  {
    if hi <= lo then 0
    else
      var v := hi - 1;
      Price(m, d, lo, v) + 1 + if v == lo || v % ENTRIES == 0 then Missing(m, d, v / ENTRIES) else 0
  }

  lemma PriceStep<B>(m: Mem<B>, d: nat, lo: nat, v: nat)
    ensures Price(m, d, lo, v) <= Price(m, d, lo, v + 1)
  {
  }

  lemma {:induction false} PriceGrows<B>(m: Mem<B>, d: nat, lo: nat, v: nat, hi: nat)
    requires v <= hi
    ensures Price(m, d, lo, v) <= Price(m, d, lo, hi)
    decreases hi - v
  {
    if v < hi {
      PriceStep(m, d, lo, v);
      PriceGrows(m, d, lo, v + 1, hi);
    }
  }

  /** User pages lo up to v of d have been mapped. */
  ghost function Spent<B(!new)>(m: Mem<B>, n: Mem<B>, d: nat, lo: nat, v: nat): (r: Claim) {
    Claim(forall x {:trigger Paying(x)} :: x == d && Paying(x) ==>
      && |m.list| == |n.list| + Price(m, x, lo, v)
      && forall y: nat :: HasTable(n, x, y) <==> HasTable(m, x, y) || (lo < v && lo / ENTRIES <= y <= (v - 1) / ENTRIES))
  }

  lemma SpentStart<B(!new)>(m: Mem<B>, d: nat, lo: nat)
    ensures Spent(m, m, d, lo, lo).holds
  {
  }

  lemma NextIndex(lo: nat, v: nat, y: nat)
    requires lo <= v
    ensures (lo < v && lo / ENTRIES <= y <= (v - 1) / ENTRIES) || y == v / ENTRIES <==> lo / ENTRIES <= y <= v / ENTRIES
    ensures lo < v && lo / ENTRIES <= v / ENTRIES <= (v - 1) / ENTRIES <==> lo < v && v % ENTRIES != 0
  {
  }

  lemma SpentMissing<B(!new)>(m: Mem<B>, n: Mem<B>, d: nat, lo: nat, v: nat)
    requires Spent(m, n, d, lo, v).holds && lo <= v
    ensures Price(m, d, lo, v + 1) == Price(m, d, lo, v) + 1 + Missing(n, d, v / ENTRIES)
  {
    assert Paying(d);
    NextIndex(lo, v, v / ENTRIES);
  }

  lemma SpentOn<B(!new)>(m: Mem<B>, n: Mem<B>, o: Mem<B>, d: nat, lo: nat, v: nat, ok: bool)
    requires Spent(m, n, d, lo, v).holds && lo <= v && Bill(n, o, d, v / ENTRIES, 1, ok).holds
    ensures if ok then Spent(m, o, d, lo, v + 1).holds else |m.list| < Price(m, d, lo, v + 1)
  {
    SpentMissing(m, n, d, lo, v);
    assert Paying(d);
    if ok {
      forall y: nat ensures HasTable(o, d, y) <==> HasTable(m, d, y) || (lo < v + 1 && lo / ENTRIES <= y <= v / ENTRIES) {
        NextIndex(lo, v, y);
      }
    }
  }

  lemma SpentFails<B(!new)>(m: Mem<B>, d: nat, lo: nat, v: nat, hi: nat)
    requires |m.list| < Price(m, d, lo, v + 1) && v < hi
    ensures |m.list| < Price(m, d, lo, hi)
  {
    PriceGrows(m, d, lo, v + 1, hi);
  }

  lemma SpentEnds<B(!new)>(m: Mem<B>, n: Mem<B>, d: nat, lo: nat, hi: nat)
    requires Spent(m, n, d, lo, hi).holds
    ensures Price(m, d, lo, hi) <= |m.list|
  {
    assert Paying(d);
  }

  // ----- a new directory -----

  /** The directory entries that the first k lines of kmap, and the first x pages of the next, need. */
  ghost function KernTables(kmap: seq<Range>, k: nat, x: nat): (s: set<nat>)
    requires k <= |kmap|
    decreases k, x
  {
    if k < |kmap| && x > 0 then KernTables(kmap, k, x - 1) + {(kmap[k].virt + x - 1) / ENTRIES}
    else if k > 0 then KernTables(kmap, k - 1, kmap[k - 1].n) else {}
  }

  /** Pages it takes to build a directory with the kernel's mappings. */
  ghost function KvmPages(kmap: seq<Range>): (n: nat) {
    1 + |KernTables(kmap, |kmap|, 0)|
  }

  lemma {:induction false} KernTablesGrow(kmap: seq<Range>, k: nat, x: nat, j: nat)
    requires k < |kmap| && x <= kmap[k].n && k < j <= |kmap|
    ensures KernTables(kmap, k, x) <= KernTables(kmap, j, 0)
    decreases j - k, kmap[k].n - x
  {
    if x < kmap[k].n {
      KernTablesGrow(kmap, k, x + 1, j);
    } else if k + 1 < j {
      KernTablesGrow(kmap, k + 1, 0, j);
    }
  }

  /** The kernel's tables are not in the user part. */
  lemma {:induction false} KernTablesHigh(kmap: seq<Range>, k: nat, x: nat)
    requires KmapOk(kmap) && k <= |kmap| && (k < |kmap| ==> x <= kmap[k].n)
    ensures forall y :: y in KernTables(kmap, k, x) ==> USERDIRS <= y
    decreases k, x
  {
    if k < |kmap| && x > 0 {
      KernTablesHigh(kmap, k, x - 1);
      PageIndex(kmap[k].virt + x - 1);
    } else if k > 0 {
      KernTablesHigh(kmap, k - 1, kmap[k - 1].n);
    }
  }

  /** n has the new directory d with the mappings of k lines and x pages. */
  ghost function Built<B(!new)>(m: Mem<B>, n: Mem<B>, d: nat, kmap: seq<Range>, k: nat, x: nat): (r: Claim)
    requires k <= |kmap|
  {
    Claim(forall z {:trigger Paying(z)} :: z == d && Paying(z) ==>
      && |m.list| == |n.list| + 1 + |KernTables(kmap, k, x)|
      && forall y: nat :: HasTable(n, z, y) <==> y in KernTables(kmap, k, x))
  }

  lemma BuiltStart<B(!new)>(m: Mem<B>, n: Mem<B>, o: Mem<B>, d: nat, kmap: seq<Range>)
    requires Took(m, n, d).holds && o == DirMade(n, d) && d in n.pages && n.pages[d] == Table(Zeros(ENTRIES))
    ensures Built(m, o, d, kmap, 0, 0).holds
  {
    assert Paying(d);
    assert forall i :: 0 <= i < ENTRIES ==> Zeros(ENTRIES)[i] == Zero;
  }

  lemma KernTablesNext(kmap: seq<Range>, k: nat, x: nat, i: nat)
    requires k < |kmap| && x < kmap[k].n && i == (kmap[k].virt + x) / ENTRIES
    ensures KernTables(kmap, k, x + 1) == KernTables(kmap, k, x) + {i} && |KernTables(kmap, k, x + 1)| < KvmPages(kmap)
  {
    KernTablesGrow(kmap, k, x + 1, |kmap|);
    Fewer(KernTables(kmap, k, x + 1), KernTables(kmap, |kmap|, 0));
  }

  lemma BuiltOn<B(!new)>(m: Mem<B>, n: Mem<B>, o: Mem<B>, d: nat, kmap: seq<Range>, k: nat, x: nat, i: nat, ok: bool)
    requires k < |kmap| && x < kmap[k].n && i == (kmap[k].virt + x) / ENTRIES
    requires Built(m, n, d, kmap, k, x).holds && Bill(n, o, d, i, 0, ok).holds
    ensures if ok then Built(m, o, d, kmap, k, x + 1).holds else |m.list| < KvmPages(kmap)
  {
    KernTablesNext(kmap, k, x, i);
    BuiltMore(m, n, o, d, i, KernTables(kmap, k, x), KernTables(kmap, k, x + 1), ok) by { assert Paying(d); }
  }

  lemma BuiltMore<B(!new)>(m: Mem<B>, n: Mem<B>, o: Mem<B>, d: nat, i: nat, s: set<nat>, t: set<nat>, ok: bool)
    requires t == s + {i} && |m.list| == |n.list| + 1 + |s| && (forall y: nat :: HasTable(n, d, y) <==> y in s) && BillIs(n, o, d, i, 0, ok)
    ensures if ok then |m.list| == |o.list| + 1 + |t| && (forall y: nat :: HasTable(o, d, y) <==> y in t) else |m.list| < 1 + |t|
  {
  }

  lemma Fewer(a: set<nat>, b: set<nat>)
    requires a <= b
    ensures |a| <= |b|
  {
    assert b == a + (b - a);
  }

  lemma BuiltNext<B(!new)>(m: Mem<B>, n: Mem<B>, d: nat, kmap: seq<Range>, k: nat)
    requires k < |kmap| && Built(m, n, d, kmap, k, kmap[k].n).holds
    ensures Built(m, n, d, kmap, k + 1, 0).holds
  {
    assert Paying(d);
    assert KernTables(kmap, k + 1, 0) == KernTables(kmap, k, kmap[k].n);
  }

  lemma BuiltEnds<B(!new)>(m: Mem<B>, n: Mem<B>, d: nat, kmap: seq<Range>)
    requires Built(m, n, d, kmap, |kmap|, 0).holds && KmapOk(kmap)
    ensures |m.list| == |n.list| + KvmPages(kmap) && forall y: nat :: y < USERDIRS ==> !HasTable(n, d, y)
  {
    assert Paying(d);
    KernTablesHigh(kmap, |kmap|, 0);
  }

  // ----- a copy -----

  /** User pages and user tables of a process of n pages. */
  function UserPages(n: nat): (k: nat) {
    n + (n + ENTRIES - 1) / ENTRIES
  }

  lemma {:induction false} PriceFresh<B>(m: Mem<B>, d: nat, n: nat)
    requires n <= USERDIRS * ENTRIES && forall y: nat :: y < USERDIRS ==> !HasTable(m, d, y)
    ensures Price(m, d, 0, n) == UserPages(n)
    decreases n
  {
    if n > 0 {
      PriceFresh(m, d, n - 1);
    }
  }
}
