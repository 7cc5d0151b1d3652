/** What the loops of vm.c do to the mappings and the free list, one page at a time. */
module VmSteps {
  import opened Basics
  import opened VmPages

  const PGSIZE := 4096
  const KERNBASE := 0x8000_0000

  /** PGROUNDUP, as a page number. */
  function Up(size: nat): (v: nat) {
    (size + PGSIZE - 1) / PGSIZE
  }

  /** A line of kmap, in pages. */
  datatype Range = Range(virt: nat, phys: nat, n: nat, perm: nat) {
    predicate Covers(v: nat) {
      virt <= v < virt + n
    }
    function EntryAt(x: nat): (e: Entry) {
      Entry(phys + x, perm / 2 * 2 + 1)
    }
  }

  /** The lines are in the kernel's part and do not overlap. */
  ghost predicate KmapOk(kmap: seq<Range>) {
    && (forall k :: 0 <= k < |kmap| ==> USERDIRS * ENTRIES <= kmap[k].virt && kmap[k].virt + kmap[k].n <= ENTRIES * ENTRIES)
    && (forall j, k, v: nat :: 0 <= j < k < |kmap| && kmap[j].Covers(v) ==> !kmap[k].Covers(v))
  }

  /** What the first k lines, and the first x pages of the next, map v to. */
  ghost function Kern(kmap: seq<Range>, k: nat, x: nat, v: nat): (e: Entry)
    requires k <= |kmap|
    decreases k
  {
    if k < |kmap| && x > 0 && kmap[k].virt <= v < kmap[k].virt + x then kmap[k].EntryAt(v - kmap[k].virt)
    else if k > 0 then Kern(kmap, k - 1, kmap[k - 1].n, v) else Zero
  }

  /** Every new use is in address space d. */
  ghost predicate Grew<B>(m: Mem<B>, n: Mem<B>, d: nat) {
    && (forall k :: k in m.owner ==> k in n.owner && n.owner[k] == m.owner[k])
    && (forall k :: k in n.owner && k !in m.owner ==> Of(n.owner[k], k, d))
  }

  /** k is in the caller's hands too now. */
  ghost predicate Holding<B>(m: Mem<B>, n: Mem<B>, k: nat) {
    && n.loose == m.loose + {k} && k !in m.loose && k in n.pages
    && forall x :: x in m.loose && x in m.pages ==> x in n.pages && n.pages[x] == m.pages[x]
  }

  /** Nothing is mapped from user page v on. */
  ghost predicate Ends<B>(m: Mem<B>, d: nat, v: nat) {
    forall y: nat, z: nat :: y < USERDIRS && z < ENTRIES && v <= y * ENTRIES + z ==> Sees(m, d, y, z).None?
  }

  /** Pages in the caller's hands are still there, with what was in them. */
  ghost predicate SameLoose<B>(m: Mem<B>, n: Mem<B>) {
    n.loose == m.loose && forall k :: k in m.loose && k in m.pages ==> k in n.pages && n.pages[k] == m.pages[k]
  }

  lemma HeadRun<B(!new)>(m: Mem<B>)
    requires Inv(m).holds && m.list != []
    ensures m.list[0] in m.pages && m.pages[m.list[0]] == Run(if |m.list| == 1 then None else Some(m.list[1]))
  {
    InvMeans(m);
  }

  lemma ViewSelf<B>(m: Mem<B>)
    ensures SameView(m, m)
  {
  }

  lemma ViewTwice<B>(m: Mem<B>, n: Mem<B>, o: Mem<B>)
    requires SameView(m, n) && SameView(n, o)
    ensures SameView(m, o)
  {
  }

  lemma ThreeViews<B>(m: Mem<B>, n: Mem<B>, o: Mem<B>, p: Mem<B>)
    requires SameView(m, n) && SameView(n, o) && SameView(o, p)
    ensures SameView(m, p)
  {
    ViewTwice(m, n, o);
    ViewTwice(m, o, p);
  }

  lemma DirTable<B(!new)>(m: Mem<B>, d: nat)
    requires Inv(m).holds && IsDir(m, d)
    ensures IsTable(m, d) && d !in m.loose && d !in m.list
  {
    InvMeans(m);
  }

  lemma DirTables<B(!new)>(m: Mem<B>, d: nat, i: nat)
    requires Inv(m).holds && HasTable(m, d, i)
    ensures var t := At(m, d, i).page; IsTable(m, t) && t in m.owner && m.owner[t] == Tab(d, i) && t != d
  {
    InvMeans(m);
    TableFacts(m, d, i);
  }

  lemma HangReady<B(!new)>(m0: Mem<B>, m1: Mem<B>, m2: Mem<B>, d: nat, i: nat, t: nat)
    requires Inv(m0).holds && IsDir(m0, d) && i < ENTRIES && !HasTable(m0, d, i) && m0.list != [] && t == m0.list[0]
    requires m1 == Popped(m0) && m2 == Filled(m1, t, Table(Zeros(ENTRIES)))
    ensures CanHangTable(m2, d, i, t) && m2.loose - {t} == m0.loose
  {
    InvMeans(m0);
    PopKeeps(m0);
    DirTable(m0, d);
  }

  function Boot<B>(lo: nat, hi: nat, x: B): (pages: map<nat, Page<B>>)
    requires lo <= hi
    ensures forall k: nat :: k in pages <==> lo <= k < hi
    decreases hi - lo
  {
    if lo == hi then map[] else Boot(lo, hi - 1, x)[hi - 1 := Bytes(x)]
  }

  lemma LooseKnown<B(!new)>(m: Mem<B>, k: nat)
    requires Inv(m).holds && k in m.loose
    ensures k in m.pages && k !in m.list && k !in m.owner
  {
    InvMeans(m);
  }

  lemma OwnedNotLoose<B(!new)>(m: Mem<B>, k: nat)
    requires Inv(m).holds && k in m.owner
    ensures k !in m.loose && k !in m.list && k in m.pages
  {
    InvMeans(m);
  }

  lemma ViewThenOne<B>(m: Mem<B>, n: Mem<B>, o: Mem<B>, d: nat, i: nat, j: nat, v: Option<View<B>>)
    requires SameView(m, n) && OneView(n, o, d, i, j, v)
    ensures OneView(m, o, d, i, j, v)
  {
  }

  lemma OneThenView<B>(m: Mem<B>, n: Mem<B>, o: Mem<B>, d: nat, i: nat, j: nat, v: Option<View<B>>)
    requires OneView(m, n, d, i, j, v) && SameView(n, o)
    ensures OneView(m, o, d, i, j, v)
  {
  }

  lemma MapReady<B(!new)>(m: Mem<B>, n: Mem<B>, d: nat, i: nat, j: nat, u: nat, flags: nat)
    requires Inv(m).holds && Inv(n).holds && SameView(m, n) && n.loose == m.loose && IsDir(m, d) && i < USERDIRS && j < ENTRIES && Sees(m, d, i, j).None?
    requires HasTable(n, d, i) && IsTable(n, At(n, d, i).page) && flags % 2 == 1
    requires u in m.loose && u in n.pages && n.pages[u].Bytes?
    ensures CanHang(n, d, i, j, u, flags)
  {
    SeesUser(n, d, i, j);
  }

  // ----- ranges of user addresses -----

  lemma UpMeans(v: nat, size: nat)
    ensures v * PGSIZE < size <==> v < Up(size)
  {
  }

  lemma UpOrder(a: nat, b: nat)
    requires a <= b
    ensures Up(a) <= Up(b) && (b <= KERNBASE ==> Up(b) <= USERDIRS * ENTRIES)
  {
  }

  /** User pages lo up to hi of directory d show w; everything else is as before. */
  ghost predicate RangeView<B>(m: Mem<B>, n: Mem<B>, d: nat, lo: nat, hi: nat, w: Option<View<B>>) {
    && SameDirs(m, n) && SameKernel(m, n)
    && forall x, y: nat, z: nat :: IsDir(m, x) && z < ENTRIES && y < USERDIRS ==>
         Sees(n, x, y, z) == if x == d && lo <= y * ENTRIES + z < hi then w else Sees(m, x, y, z)
  }

  lemma RangeNothing<B>(m: Mem<B>, d: nat, lo: nat, hi: nat, w: Option<View<B>>)
    requires hi <= lo
    ensures RangeView(m, m, d, lo, hi, w)
  {
  }

  lemma Position(v: nat, y: nat, z: nat)
    requires z < ENTRIES
    ensures y * ENTRIES + z == v <==> y == v / ENTRIES && z == v % ENTRIES
  {
  }

  lemma RangeOne<B>(m: Mem<B>, n: Mem<B>, o: Mem<B>, d: nat, lo: nat, v: nat, w: Option<View<B>>)
    requires RangeView(m, n, d, lo, v, w) && OneView(n, o, d, v / ENTRIES, v % ENTRIES, w) && lo <= v
    ensures RangeView(m, o, d, lo, v + 1, w)
  {
    forall x, y: nat, z: nat | IsDir(m, x) && z < ENTRIES && y < USERDIRS
      ensures Sees(o, x, y, z) == if x == d && lo <= y * ENTRIES + z < v + 1 then w else Sees(m, x, y, z)
    {
      Position(v, y, z);
    }
  }

  lemma RangeSame<B>(m: Mem<B>, n: Mem<B>, d: nat, lo: nat, v: nat, w: Option<View<B>>)
    requires RangeView(m, n, d, lo, v, w) && lo <= v && Sees(n, d, v / ENTRIES, v % ENTRIES) == w
    ensures RangeView(m, n, d, lo, v + 1, w)
  {
    forall x, y: nat, z: nat | IsDir(m, x) && z < ENTRIES && y < USERDIRS
      ensures Sees(n, x, y, z) == if x == d && lo <= y * ENTRIES + z < v + 1 then w else Sees(m, x, y, z)
    {
      Position(v, y, z);
    }
  }

  lemma RangeSkip<B>(m: Mem<B>, n: Mem<B>, d: nat, lo: nat, v: nat, next: nat)
    requires RangeView(m, n, d, lo, v, None) && lo <= v <= next <= (v / ENTRIES + 1) * ENTRIES && IsDir(n, d) && !HasTable(n, d, v / ENTRIES)
    requires v / ENTRIES < ENTRIES
    ensures RangeView(m, n, d, lo, next, None)
  {
    var i := v / ENTRIES;
    forall x, y: nat, z: nat | IsDir(m, x) && z < ENTRIES && y < USERDIRS
      ensures Sees(n, x, y, z) == if x == d && lo <= y * ENTRIES + z < next then None else Sees(m, x, y, z)
    {
      if x == d && v <= y * ENTRIES + z < next {
        Within(v, next, y, z);
        assert Slot(n, d, i, z) == Zero;
      }
    }
  }

  lemma Within(v: nat, next: nat, y: nat, z: nat)
    requires z < ENTRIES && v <= y * ENTRIES + z < next <= (v / ENTRIES + 1) * ENTRIES
    ensures y == v / ENTRIES
  {
  }

  lemma EndsAt<B>(m: Mem<B>, n: Mem<B>, d: nat, lo: nat, v: nat, w: Option<View<B>>)
    requires RangeView(m, n, d, lo, v, w) && Ends(m, d, lo) && lo <= v < USERDIRS * ENTRIES && IsDir(m, d)
    ensures Sees(n, d, v / ENTRIES, v % ENTRIES).None?
  {
    Position(v, v / ENTRIES, v % ENTRIES);
  }

  lemma RangeThenView<B>(m: Mem<B>, n: Mem<B>, o: Mem<B>, d: nat, lo: nat, v: nat, w: Option<View<B>>)
    requires RangeView(m, n, d, lo, v, w) && SameView(n, o)
    ensures RangeView(m, o, d, lo, v, w)
  {
  }

  /** Sees is about user addresses inside a table only. */
  lemma SeesNothing<B>(m: Mem<B>, d: nat, y: nat, z: nat)
    requires y >= USERDIRS || z >= ENTRIES
    ensures Sees(m, d, y, z).None?
  {
  }

  lemma RangeUndone<B>(m: Mem<B>, n: Mem<B>, o: Mem<B>, d: nat, lo: nat, v: nat, hi: nat, w: Option<View<B>>)
    requires RangeView(m, n, d, lo, v, w) && RangeView(n, o, d, lo, hi, None) && v <= hi && Ends(m, d, lo)
    ensures SameView(m, o)
  {
    forall x, y: nat, z: nat | IsDir(m, x) ensures Sees(o, x, y, z) == Sees(m, x, y, z) {
      if y >= USERDIRS || z >= ENTRIES {
        SeesNothing(m, x, y, z);
        SeesNothing(o, x, y, z);
      }
    }
  }

  // ----- who owns what after deallocuvm -----

  ghost predicate InRange(r: Role, d: nat, lo: nat, hi: nat) {
    r.User? && r.d == d && lo <= r.i * ENTRIES + r.j < hi
  }

  /** Exactly the user pages lo up to hi of d have lost their use. */
  ghost predicate OwnerLess<B>(m: Mem<B>, n: Mem<B>, d: nat, lo: nat, hi: nat) {
    && (forall k :: k in n.owner <==> k in m.owner && !InRange(m.owner[k], d, lo, hi))
    && (forall k :: k in n.owner ==> n.owner[k] == m.owner[k])
  }

  lemma UserPlace<B>(n: Mem<B>, k: nat)
    requires Users(n) && k in n.owner && n.owner[k].User?
    ensures var r := n.owner[k]; IsDir(n, r.d) && r.i < USERDIRS && Slot(n, r.d, r.i, r.j).Present() && Slot(n, r.d, r.i, r.j).page == k
  {
  }

  lemma UserWhere<B(!new)>(n: Mem<B>, k: nat)
    requires Inv(n).holds && k in n.owner && n.owner[k].User?
    ensures var r := n.owner[k]; IsDir(n, r.d) && r.i < USERDIRS && r.j < ENTRIES && Slot(n, r.d, r.i, r.j).Present() && Slot(n, r.d, r.i, r.j).page == k
    ensures HasTable(n, n.owner[k].d, n.owner[k].i)
  {
    assert Users(n) by { InvMeans(n); }
    UserPlace(n, k);
  }

  lemma OwnerOne<B(!new)>(m: Mem<B>, n: Mem<B>, o: Mem<B>, d: nat, lo: nat, v: nat)
    requires Inv(n).holds && OwnerLess(m, n, d, lo, v) && lo <= v < USERDIRS * ENTRIES && IsDir(n, d)
    requires Slot(n, d, v / ENTRIES, v % ENTRIES).Present() && o.owner == n.owner - {Slot(n, d, v / ENTRIES, v % ENTRIES).page}
    ensures OwnerLess(m, o, d, lo, v + 1)
  {
    var u := Slot(n, d, v / ENTRIES, v % ENTRIES).page;
    SeesUser(n, d, v / ENTRIES, v % ENTRIES);
    Position(v, v / ENTRIES, v % ENTRIES);
    forall k | k in n.owner && k != u ensures !InRange(n.owner[k], d, v, v + 1) {
      if n.owner[k].User? && n.owner[k].d == d {
        UserWhere(n, k);
        Position(v, n.owner[k].i, n.owner[k].j);
      }
    }
  }

  lemma OwnerSame<B(!new)>(m: Mem<B>, n: Mem<B>, d: nat, lo: nat, v: nat)
    requires Inv(n).holds && OwnerLess(m, n, d, lo, v) && lo <= v < USERDIRS * ENTRIES && IsDir(n, d)
    requires !Slot(n, d, v / ENTRIES, v % ENTRIES).Present()
    ensures OwnerLess(m, n, d, lo, v + 1)
  {
    forall k | k in n.owner ensures !InRange(n.owner[k], d, v, v + 1) {
      if n.owner[k].User? && n.owner[k].d == d {
        UserWhere(n, k);
        Position(v, n.owner[k].i, n.owner[k].j);
      }
    }
  }

  lemma OwnerSkip<B(!new)>(m: Mem<B>, n: Mem<B>, d: nat, lo: nat, v: nat, next: nat)
    requires Inv(n).holds && OwnerLess(m, n, d, lo, v) && lo <= v <= next <= (v / ENTRIES + 1) * ENTRIES
    requires !HasTable(n, d, v / ENTRIES)
    ensures OwnerLess(m, n, d, lo, next)
  {
    forall k | k in n.owner ensures !InRange(n.owner[k], d, v, next) {
      if n.owner[k].User? && n.owner[k].d == d && v <= n.owner[k].i * ENTRIES + n.owner[k].j < next {
        UserWhere(n, k);
        Within(v, next, n.owner[k].i, n.owner[k].j);
      }
    }
  }

  // ----- what freevm leaves -----

  /** k is directory d, or one of its tables or user pages. */
  ghost predicate Of(r: Role, k: nat, d: nat) {
    k == d || (!r.Dir? && r.d == d)
  }

  /** Every address space but d is as before. */
  ghost predicate Without<B>(m: Mem<B>, n: Mem<B>, d: nat) {
    && (forall x :: IsDir(n, x) <==> IsDir(m, x) && x != d)
    && (forall x, y: nat, z: nat :: IsDir(m, x) && x != d ==> Sees(n, x, y, z) == Sees(m, x, y, z))
    && (forall x, y: nat, z: nat :: IsDir(m, x) && x != d && USERDIRS <= y ==> Slot(n, x, y, z) == Slot(m, x, y, z))
  }

  lemma EmptyBare<B(!new)>(m: Mem<B>, n: Mem<B>, d: nat)
    requires Inv(n).holds && IsDir(m, d) && RangeView(m, n, d, 0, USERDIRS * ENTRIES, None)
    ensures Bare(n, d)
  {
    forall i: nat, j: nat | i < USERDIRS ensures !Slot(n, d, i, j).Present() {
      SeesUser(n, d, i, j);
      if j < ENTRIES {
        assert i * ENTRIES + j < USERDIRS * ENTRIES;
      } else {
        SeesNothing(n, d, i, j);
      }
    }
  }

  lemma FreedAll<B(!new)>(m: Mem<B>, n: Mem<B>, o: Mem<B>, q: Mem<B>, p: Mem<B>, d: nat)
    requires Inv(m).holds && IsDir(m, d) && RangeView(m, n, d, 0, USERDIRS * ENTRIES, None) && OwnerLess(m, n, d, 0, USERDIRS * ENTRIES)
    requires Inv(n).holds && IsDir(n, d) && Bare(n, d) && o == Dissolved(n, d) && SameView(o, q) && q.owner == o.owner
    requires SameView(q, p) && p.owner == q.owner && p.loose == m.loose && p.pages.Keys == m.pages.Keys && Inv(p).holds
    ensures Without(m, p, d)
    ensures forall k :: k in p.list <==> k in m.list || (k in m.owner && Of(m.owner[k], k, d))
  {
    DissolveKeeps(n, d);
    FreedViews(m, n, o, q, p, d);
    forall k: nat ensures k in p.owner <==> k in m.owner && !Of(m.owner[k], k, d) {
      FreedOwner(m, n, d, k);
    }
    FreedList(m, p, d);
  }

  lemma FreedViews<B>(m: Mem<B>, n: Mem<B>, o: Mem<B>, q: Mem<B>, p: Mem<B>, d: nat)
    requires RangeView(m, n, d, 0, USERDIRS * ENTRIES, None) && SameView(o, q) && SameView(q, p)
    requires forall x :: IsDir(o, x) <==> IsDir(n, x) && x != d
    requires forall x, y: nat, z: nat :: Sees(o, x, y, z) == Sees(n, x, y, z) && Slot(o, x, y, z) == Slot(n, x, y, z)
    ensures Without(m, p, d)
  {
    forall x, y: nat, z: nat | IsDir(m, x) && x != d ensures Sees(p, x, y, z) == Sees(m, x, y, z) {
      assert IsDir(n, x) && IsDir(o, x) && IsDir(q, x);
      if y >= USERDIRS || z >= ENTRIES {
        SeesNothing(m, x, y, z);
        SeesNothing(p, x, y, z);
      }
    }
    forall x, y: nat, z: nat | IsDir(m, x) && x != d && USERDIRS <= y ensures Slot(p, x, y, z) == Slot(m, x, y, z) {
      assert IsDir(n, x) && IsDir(o, x) && IsDir(q, x);
    }
  }

  lemma FreedOwner<B(!new)>(m: Mem<B>, n: Mem<B>, d: nat, k: nat)
    requires Inv(m).holds && OwnerLess(m, n, d, 0, USERDIRS * ENTRIES)
    ensures k in Dissolved(n, d).owner <==> k in m.owner && !Of(m.owner[k], k, d)
  {
    if k in m.owner && m.owner[k].User? {
      UserWhere(m, k);
      assert m.owner[k].i * ENTRIES + m.owner[k].j < USERDIRS * ENTRIES;
    }
  }

  lemma FreedList<B(!new)>(m: Mem<B>, p: Mem<B>, d: nat)
    requires Inv(m).holds && Inv(p).holds && p.loose == m.loose && p.pages.Keys == m.pages.Keys
    requires forall k: nat :: k in p.owner <==> k in m.owner && !Of(m.owner[k], k, d)
    ensures forall k :: k in p.list <==> k in m.list || (k in m.owner && Of(m.owner[k], k, d))
  {
    InvMeans(m);
    InvMeans(p);
  }

  lemma DirFrames<B(!new)>(n: Mem<B>, d: nat)
    requires Inv(n).holds && IsDir(n, d)
    ensures IsTable(n, d) && d !in n.loose && Frames(n, d) == {d} + TablesFrom(n, d, 0)
  {
    InvMeans(n);
    FramesAre(n, d);
  }

  /** freevm after the first i directory entries: n is the memory before it took the directory apart. */
  ghost function Freeing<B>(n: Mem<B>, q: Mem<B>, d: nat, i: nat): (r: Claim)
    requires i <= ENTRIES
  {
    Claim(&& SameView(Dissolved(n, d), q) && q.loose == n.loose + ({d} + TablesFrom(n, d, i)) && d in q.pages && d in n.pages && q.pages[d] == n.pages[d]
          && forall k :: k in n.loose && k in n.pages ==> k in q.pages && q.pages[k] == n.pages[k])
  }

  lemma FreeingStart<B(!new)>(n: Mem<B>, d: nat)
    requires Inv(n).holds && IsDir(n, d)
    ensures Freeing(n, Dissolved(n, d), d, 0).holds
  {
    DirFrames(n, d);
    ViewSelf(Dissolved(n, d));
  }

  lemma FreeingAt<B(!new)>(n: Mem<B>, q: Mem<B>, d: nat, i: nat)
    requires Inv(n).holds && IsDir(n, d) && i < ENTRIES && Freeing(n, q, d, i).holds
    ensures d in q.pages && q.pages[d].Table? && |q.pages[d].e| == ENTRIES && q.pages[d].e[i] == At(n, d, i)
    ensures if At(n, d, i).Present() then At(n, d, i).page in q.loose else Freeing(n, q, d, i + 1).holds
  {
    DirTable(n, d);
    if At(n, d, i).Present() {
      TableAmong(n, d, i, i);
    } else {
      assert TablesFrom(n, d, i) == TablesFrom(n, d, i + 1);
    }
  }

  lemma FreeingOn<B(!new)>(n: Mem<B>, q: Mem<B>, p: Mem<B>, d: nat, i: nat)
    requires Inv(n).holds && IsDir(n, d) && i < ENTRIES && Freeing(n, q, d, i).holds && At(n, d, i).Present()
    requires p == Pushed(q, At(n, d, i).page) && SameView(q, p)
    ensures Freeing(n, p, d, i + 1).holds
  {
    var t := At(n, d, i).page;
    InvMeans(n);
    TableApart(n, d, i);
    DirTables(n, d, i);
    OwnedNotLoose(n, t);
    ViewTwice(Dissolved(n, d), q, p);
    assert TablesFrom(n, d, i) == TablesFrom(n, d, i + 1) + {t};
    assert p.loose == n.loose + ({d} + TablesFrom(n, d, i + 1));
  }

  lemma FreeingEnd<B>(n: Mem<B>, q: Mem<B>, d: nat)
    requires Freeing(n, q, d, ENTRIES).holds
    ensures SameView(Dissolved(n, d), q) && q.loose == n.loose + {d}
  {
  }

  lemma LooseBack<B>(m: Mem<B>, n: Mem<B>, q: Mem<B>, p: Mem<B>, d: nat)
    requires SameLoose(m, n) && Freeing(n, q, d, ENTRIES).holds && p == Pushed(q, d) && d !in n.loose
    ensures SameLoose(m, p)
  {
    assert p.loose == m.loose;
  }

  // ----- building an address space -----

  lemma PageIndex(v: nat)
    requires USERDIRS * ENTRIES <= v < ENTRIES * ENTRIES
    ensures USERDIRS <= v / ENTRIES < ENTRIES && v % ENTRIES < ENTRIES
  {
  }

  /** Kernel page v of d is mapped by e; nothing else has changed. */
  ghost predicate OneSlot<B>(m: Mem<B>, n: Mem<B>, d: nat, v: nat, e: Entry) {
    && SameDirs(m, n) && (forall x, y: nat, z: nat :: IsDir(m, x) ==> Sees(n, x, y, z) == Sees(m, x, y, z))
    && (forall x, y: nat, z: nat :: IsDir(m, x) && USERDIRS <= y ==>
          Slot(n, x, y, z) == if x == d && y == v / ENTRIES && z == v % ENTRIES then e else Slot(m, x, y, z))
  }

  lemma ViewThenSlot<B>(m: Mem<B>, n: Mem<B>, o: Mem<B>, d: nat, v: nat, e: Entry)
    requires SameView(m, n) && OneSlot(n, o, d, v, e)
    ensures OneSlot(m, o, d, v, e)
  {
  }

  /** Address space d is new; the others are as before, and no other use of a page has changed. */
  ghost function Added<B>(m: Mem<B>, n: Mem<B>, d: nat): (r: Claim) {
    Claim(&& (forall x :: IsDir(n, x) <==> IsDir(m, x) || x == d) && d !in m.owner && Grew(m, n, d)
          && (forall x, y: nat, z: nat :: IsDir(m, x) ==> Sees(n, x, y, z) == Sees(m, x, y, z))
          && (forall x, y: nat, z: nat :: IsDir(m, x) && USERDIRS <= y ==> Slot(n, x, y, z) == Slot(m, x, y, z)))
  }

  /** Its kernel part is that of kmap so far, and its user part is empty. */
  ghost function Building<B>(m: Mem<B>, n: Mem<B>, d: nat, kmap: seq<Range>, k: nat, x: nat): (r: Claim)
    requires k <= |kmap|
  {
    Claim(&& Added(m, n, d).holds && (forall y: nat, z: nat :: Sees(n, d, y, z).None?)
          && (forall y: nat, z: nat :: USERDIRS <= y && z < ENTRIES ==> Slot(n, d, y, z) == Kern(kmap, k, x, y * ENTRIES + z)))
  }

  lemma GrewTwice<B>(m: Mem<B>, n: Mem<B>, o: Mem<B>, d: nat)
    requires Grew(m, n, d) && Grew(n, o, d)
    ensures Grew(m, o, d)
  {
  }

  lemma BuildStart<B(!new)>(m: Mem<B>, n: Mem<B>, o: Mem<B>, d: nat, kmap: seq<Range>)
    requires Inv(n).holds && SameView(m, n) && n.owner == m.owner && d !in m.owner && o == DirMade(n, d)
    requires forall x :: IsDir(o, x) <==> IsDir(n, x) || x == d
    requires SameKernel(n, o) && forall x, y: nat, z: nat :: IsDir(n, x) ==> Sees(o, x, y, z) == Sees(n, x, y, z)
    requires forall y: nat, z: nat :: Slot(o, d, y, z) == Zero
    ensures Building(m, o, d, kmap, 0, 0).holds
  {
  }

  lemma BuildOn<B>(m: Mem<B>, n: Mem<B>, o: Mem<B>, d: nat, kmap: seq<Range>, k: nat, x: nat)
    requires KmapOk(kmap) && k < |kmap| && x < kmap[k].n && Building(m, n, d, kmap, k, x).holds && Grew(n, o, d)
    requires OneSlot(n, o, d, kmap[k].virt + x, kmap[k].EntryAt(x))
    ensures Building(m, o, d, kmap, k, x + 1).holds
  {
    GrewTwice(m, n, o, d);
    var v := kmap[k].virt + x;
    forall y: nat, z: nat | USERDIRS <= y && z < ENTRIES ensures Slot(o, d, y, z) == Kern(kmap, k, x + 1, y * ENTRIES + z) {
      Position(v, y, z);
      KernNext(kmap, k, x, y * ENTRIES + z);
    }
  }

  lemma KernNext(kmap: seq<Range>, k: nat, x: nat, v: nat)
    requires k < |kmap| && x < kmap[k].n
    ensures Kern(kmap, k, x + 1, v) == if v == kmap[k].virt + x then kmap[k].EntryAt(x) else Kern(kmap, k, x, v)
  {
  }

  /** Lines before k do not cover a page of line k. */
  lemma {:induction false} KernZero(kmap: seq<Range>, j: nat, k: nat, v: nat)
    requires KmapOk(kmap) && j <= k < |kmap| && kmap[k].Covers(v)
    ensures Kern(kmap, j, 0, v) == Zero
    decreases j
  {
    if j > 0 {
      KernZero(kmap, j - 1, k, v);
      assert !kmap[j - 1].Covers(v);
    }
  }

  /** No page is mapped twice: mappages does not panic. */
  lemma NotYet<B>(m: Mem<B>, n: Mem<B>, d: nat, kmap: seq<Range>, k: nat, x: nat)
    requires KmapOk(kmap) && k < |kmap| && x < kmap[k].n && Building(m, n, d, kmap, k, x).holds
    ensures var v := kmap[k].virt + x;
      USERDIRS * ENTRIES <= v < ENTRIES * ENTRIES && !Slot(n, d, v / ENTRIES, v % ENTRIES).Present()
  {
    var v := kmap[k].virt + x;
    PageIndex(v);
    Position(v, v / ENTRIES, v % ENTRIES);
    KernZero(kmap, k, k, v);
    assert Kern(kmap, k, x, v) == Kern(kmap, k, 0, v);
  }

  lemma BuildNext<B>(m: Mem<B>, n: Mem<B>, d: nat, kmap: seq<Range>, k: nat)
    requires k < |kmap| && Building(m, n, d, kmap, k, kmap[k].n).holds
    ensures Building(m, n, d, kmap, k + 1, 0).holds
  {
    forall y: nat, z: nat | USERDIRS <= y && z < ENTRIES ensures Slot(n, d, y, z) == Kern(kmap, k + 1, 0, y * ENTRIES + z) {
      assert Kern(kmap, k + 1, 0, y * ENTRIES + z) == Kern(kmap, k, kmap[k].n, y * ENTRIES + z);
    }
  }

  /** Entry e maps page v as line r says: to the physical page at the same distance from the line's first
      one, present and with the line's other flags. */
  ghost predicate Follows(e: Entry, r: Range, v: nat) {
    e.page == r.phys + (v - r.virt) && e.Present() && e.flags / 2 == r.perm / 2
  }

  /** The kernel part of d is exactly kmap: a page of a line is mapped as the line says, and no other page is. */
  ghost predicate KernelMapped<B>(m: Mem<B>, d: nat, kmap: seq<Range>) {
    && (forall k, y: nat, z: nat :: 0 <= k < |kmap| && USERDIRS <= y && z < ENTRIES && kmap[k].Covers(y * ENTRIES + z) ==>
          Follows(Slot(m, d, y, z), kmap[k], y * ENTRIES + z))
    && (forall y: nat, z: nat :: USERDIRS <= y && z < ENTRIES && (forall k :: 0 <= k < |kmap| ==> !kmap[k].Covers(y * ENTRIES + z)) ==>
          Slot(m, d, y, z) == Zero)
  }

  lemma {:induction false} KernLine(kmap: seq<Range>, j: nat, k: nat, v: nat)
    requires KmapOk(kmap) && k < j <= |kmap| && kmap[k].Covers(v)
    ensures Follows(Kern(kmap, j, 0, v), kmap[k], v)
    decreases j
  {
    if k < j - 1 {
      assert !kmap[j - 1].Covers(v);
      KernLine(kmap, j - 1, k, v);
    }
  }

  lemma {:induction false} KernNone(kmap: seq<Range>, j: nat, v: nat)
    requires j <= |kmap| && forall k :: 0 <= k < j ==> !kmap[k].Covers(v)
    ensures Kern(kmap, j, 0, v) == Zero
    decreases j
  {
    if j > 0 {
      assert !kmap[j - 1].Covers(v);
      KernNone(kmap, j - 1, v);
    }
  }

  lemma AsMapped<B>(m: Mem<B>, d: nat, kmap: seq<Range>)
    requires KmapOk(kmap)
    requires forall y: nat, z: nat :: USERDIRS <= y && z < ENTRIES ==> Slot(m, d, y, z) == Kern(kmap, |kmap|, 0, y * ENTRIES + z)
    ensures KernelMapped(m, d, kmap)
  {
    forall k, y: nat, z: nat | 0 <= k < |kmap| && USERDIRS <= y && z < ENTRIES && kmap[k].Covers(y * ENTRIES + z)
      ensures Follows(Slot(m, d, y, z), kmap[k], y * ENTRIES + z)
    {
      KernLine(kmap, |kmap|, k, y * ENTRIES + z);
    }
    forall y: nat, z: nat | USERDIRS <= y && z < ENTRIES && (forall k :: 0 <= k < |kmap| ==> !kmap[k].Covers(y * ENTRIES + z))
      ensures Slot(m, d, y, z) == Zero
    {
      KernNone(kmap, |kmap|, y * ENTRIES + z);
    }
  }

  lemma AddedView<B>(m: Mem<B>, n: Mem<B>, o: Mem<B>, d: nat, kmap: seq<Range>, k: nat, x: nat)
    requires k <= |kmap| && Building(m, n, d, kmap, k, x).holds && SameView(n, o) && Grew(n, o, d)
    ensures Added(m, o, d).holds
  {
    GrewTwice(m, n, o, d);
  }

  /** The same pages are free, if not in the same order. */
  ghost predicate SameFree<B>(m: Mem<B>, n: Mem<B>) {
    forall k :: k in n.list <==> k in m.list
  }

  /** An address space added and freed again leaves everything as it was. */
  lemma TakenBack<B(!new)>(m: Mem<B>, n: Mem<B>, p: Mem<B>, d: nat)
    requires Inv(m).holds && Inv(n).holds && Added(m, n, d).holds && Without(n, p, d) && n.loose == m.loose && n.pages.Keys == m.pages.Keys
    requires forall k :: k in p.list <==> k in n.list || (k in n.owner && Of(n.owner[k], k, d))
    ensures SameView(m, p) && SameFree(m, p)
  {
    InvMeans(m);
    InvMeans(n);
    assert !IsDir(m, d);
    forall k: nat | k in m.owner ensures !Of(m.owner[k], k, d) {
      NotOfNew(m, k, d);
    }
  }

  lemma NotOfNew<B(!new)>(m: Mem<B>, k: nat, d: nat)
    requires Inv(m).holds && k in m.owner && d !in m.owner
    ensures !Of(m.owner[k], k, d)
  {
    InvMeans(m);
  }

  // ----- copying -----

  /** The first v user pages of d show what those of s showed; the rest of its user part is empty, and its
      kernel part is that of kmap. */
  ghost function Copied<B>(m: Mem<B>, n: Mem<B>, s: nat, d: nat, v: nat, kmap: seq<Range>): (r: Claim) {
    Claim(&& IsDir(m, s) && IsDir(n, s) && IsDir(n, d) && s != d
          && (forall y: nat, z: nat :: y < USERDIRS && z < ENTRIES ==> Sees(n, d, y, z) == if y * ENTRIES + z < v then Sees(m, s, y, z) else None)
          && (forall y: nat, z: nat :: USERDIRS <= y && z < ENTRIES ==> Slot(n, d, y, z) == Kern(kmap, |kmap|, 0, y * ENTRIES + z)))
  }

  lemma CopyStart<B>(m: Mem<B>, n: Mem<B>, s: nat, d: nat, kmap: seq<Range>)
    requires IsDir(m, s) && Building(m, n, d, kmap, |kmap|, 0).holds
    ensures Added(m, n, d).holds && Copied(m, n, s, d, 0, kmap).holds
  {
    assert IsDir(n, s) && IsDir(n, d);
  }

  lemma CopyReady<B>(m: Mem<B>, n: Mem<B>, s: nat, d: nat, v: nat, kmap: seq<Range>)
    requires Added(m, n, d).holds && Copied(m, n, s, d, v, kmap).holds && v < USERDIRS * ENTRIES
    ensures IsDir(n, s) && IsDir(n, d) && Sees(n, d, v / ENTRIES, v % ENTRIES).None?
    ensures Sees(n, s, v / ENTRIES, v % ENTRIES) == Sees(m, s, v / ENTRIES, v % ENTRIES)
  {
    Position(v, v / ENTRIES, v % ENTRIES);
  }

  lemma AddedOn<B>(m: Mem<B>, n: Mem<B>, o: Mem<B>, d: nat)
    requires Added(m, n, d).holds && SameView(n, o) && Grew(n, o, d)
    ensures Added(m, o, d).holds
  {
    GrewTwice(m, n, o, d);
  }

  lemma CopyOn<B>(m: Mem<B>, n: Mem<B>, o: Mem<B>, s: nat, d: nat, v: nat, kmap: seq<Range>)
    requires Added(m, n, d).holds && Copied(m, n, s, d, v, kmap).holds && v < USERDIRS * ENTRIES && Grew(n, o, d)
    requires OneView(n, o, d, v / ENTRIES, v % ENTRIES, Sees(n, s, v / ENTRIES, v % ENTRIES))
    ensures Added(m, o, d).holds && Copied(m, o, s, d, v + 1, kmap).holds
  {
    GrewTwice(m, n, o, d);
    assert IsDir(n, s) && IsDir(n, d) && IsDir(m, s);
    forall y: nat, z: nat | y < USERDIRS && z < ENTRIES ensures Sees(o, d, y, z) == if y * ENTRIES + z < v + 1 then Sees(m, s, y, z) else None {
      Position(v, y, z);
    }
    forall x, y: nat, z: nat | IsDir(m, x) ensures Sees(o, x, y, z) == Sees(m, x, y, z) {
      assert x != d && IsDir(n, x);
    }
  }

  // ----- sizes -----

  /** Exactly the user pages below sz are mapped. */
  ghost predicate Sized<B>(m: Mem<B>, d: nat, sz: nat) {
    forall y: nat, z: nat :: y < USERDIRS && z < ENTRIES ==> (Sees(m, d, y, z).Some? <==> y * ENTRIES + z < Up(sz))
  }

  lemma SizedEnds<B>(m: Mem<B>, d: nat, sz: nat)
    requires Sized(m, d, sz)
    ensures Ends(m, d, Up(sz))
  {
  }

  lemma SizedView<B>(m: Mem<B>, n: Mem<B>, d: nat, sz: nat)
    requires Sized(m, d, sz) && IsDir(m, d) && SameView(m, n)
    ensures Sized(n, d, sz)
  {
  }

  lemma SizedGrown<B>(m: Mem<B>, n: Mem<B>, d: nat, sz: nat, size: nat, w: Option<View<B>>)
    requires Sized(m, d, sz) && IsDir(m, d) && sz <= size && w.Some? && RangeView(m, n, d, Up(sz), Up(size), w)
    ensures Sized(n, d, size)
  {
    UpOrder(sz, size);
  }

  lemma SizedShrunk<B>(m: Mem<B>, n: Mem<B>, d: nat, sz: nat, size: nat)
    requires Sized(m, d, sz) && IsDir(m, d) && size <= sz && RangeView(m, n, d, Up(size), Up(sz), None)
    ensures Sized(n, d, size)
  {
    UpOrder(size, sz);
  }

  lemma SizedSame<B>(m: Mem<B>, n: Mem<B>, d: nat, sz: nat, lo: nat)
    requires Sized(m, d, sz) && IsDir(m, d) && Up(sz) <= lo && RangeView(m, n, d, lo, Up(sz), None)
    ensures Sized(n, d, sz) && RangeView(m, n, d, Up(sz), Up(sz), None)
  {
  }

  lemma NotSized<B>(m: Mem<B>, d: nat, sz: nat)
    requires Sized(m, d, 0) && 0 < sz
    ensures !Sized(m, d, sz)
  {
    assert Up(0) == 0 < Up(sz);
    assert Sees(m, d, 0, 0).None?;
  }

  // ----- copyout -----

  /** What uva2ka does: fault on a missing table, find no user page, or find one. */
  datatype Ka = Fault | Absent | Mapped(page: nat)

  predicate UserFlag(e: Entry) {
    e.flags / 4 % 2 == 1
  }

  /** There is a user page at page number v. */
  ghost predicate UserMapped<B>(m: Mem<B>, d: nat, v: nat) {
    var e := Slot(m, d, v / ENTRIES, v % ENTRIES); e.Present() && UserFlag(e)
  }
}
