/** Physical pages as kalloc.c and vm.c share them out: on the free list, a page directory, a page table of
    one, a user page of one, or in the hands of whoever just got it from kalloc. */
module VmPages {
  import opened Basics

  const ENTRIES := 1024        // NPDENTRIES, NPTENTRIES
  const USERDIRS := 512        // PDX(KERNBASE)

  /** A page directory or page table entry: a page number and the low twelve bits. */
  datatype Entry = Entry(page: nat, flags: nat) {
    predicate Present() {
      flags % 2 == 1
    }
  }

  const Zero := Entry(0, 0)

  /** What is in a page; on the free list it holds the next one. */
  datatype Page<B> = Run(next: Option<nat>) | Table(e: seq<Entry>) | Bytes(b: B)

  /** What a page is used for: i and j are the directory and table index it is mapped at. */
  datatype Role = Dir | Tab(d: nat, i: nat) | User(d: nat, i: nat, j: nat)

  /** list is the free list, owner the pages in use, loose the pages that are neither. */
  datatype Mem<B> = Mem(pages: map<nat, Page<B>>, list: seq<nat>, owner: map<nat, Role>, loose: set<nat>)

  // ----- looking things up -----

  ghost predicate IsTable<B>(m: Mem<B>, t: nat) {
    t in m.pages && m.pages[t].Table? && |m.pages[t].e| == ENTRIES
  }

  ghost predicate IsDir<B>(m: Mem<B>, d: nat) {
    d in m.owner && m.owner[d] == Dir
  }

  /** Entry i of a directory or table page. */
  ghost function At<B>(m: Mem<B>, t: nat, i: nat): (e: Entry)
  {
    if IsTable(m, t) && i < ENTRIES then m.pages[t].e[i] else Zero
  }

  /** The page table entry for directory index i and table index j of directory d. */
  ghost function Slot<B>(m: Mem<B>, d: nat, i: nat, j: nat): (e: Entry) {
    if At(m, d, i).Present() then At(m, At(m, d, i).page, j) else Zero
  }

  // ----- the invariant -----

  ghost predicate Listed<B>(m: Mem<B>) {
    && (forall i, j :: 0 <= i < j < |m.list| ==> m.list[i] != m.list[j])
    && (forall i :: 0 <= i < |m.list| ==> m.list[i] in m.pages && m.pages[m.list[i]] == Run(Next(m.list, i)))
  }

  ghost function Next(list: seq<nat>, i: nat): (k: Option<nat>) {
    if i + 1 < |list| then Some(list[i + 1]) else None
  }

  /** Every page has exactly one use. */
  ghost predicate Shared<B>(m: Mem<B>) {
    && (forall k :: k in m.list || k in m.owner || k in m.loose <==> k in m.pages)
    && (forall k :: k in m.owner ==> k !in m.list && k !in m.loose)
    && (forall k :: k in m.loose ==> k !in m.list)
  }

  /** A present directory entry is that directory's table, and a table is where its role says. */
  ghost predicate Tabs<B>(m: Mem<B>) {
    && (forall d :: IsDir(m, d) ==> IsTable(m, d))
    && (forall d, i: nat :: IsDir(m, d) && At(m, d, i).Present() ==> At(m, d, i).page in m.owner && m.owner[At(m, d, i).page] == Tab(d, i))
    && (forall t :: t in m.owner && m.owner[t].Tab? ==>
          IsTable(m, t) && IsDir(m, m.owner[t].d) && At(m, m.owner[t].d, m.owner[t].i) .Present() && At(m, m.owner[t].d, m.owner[t].i).page == t)
  }

  /** A present user entry is that slot's page, and a user page is where its role says. */
  ghost predicate Users<B>(m: Mem<B>) {
    && (forall d, i: nat, j: nat :: IsDir(m, d) && i < USERDIRS && Slot(m, d, i, j).Present() ==>
          Slot(m, d, i, j).page in m.owner && m.owner[Slot(m, d, i, j).page] == User(d, i, j))
    && (forall u :: u in m.owner && m.owner[u].User? ==>
          var r := m.owner[u];
          u in m.pages && m.pages[u].Bytes? && IsDir(m, r.d) && r.i < USERDIRS && Slot(m, r.d, r.i, r.j).Present() && Slot(m, r.d, r.i, r.j).page == u)
  }

  ghost predicate Parts<B>(m: Mem<B>) {
    Listed(m) && Shared(m) && Tabs(m) && Users(m)
  }

  /** Always true; Inv is looked into only where this is mentioned. */
  ghost predicate Look<B>(m: Mem<B>) {
    true
  }

  ghost function Inv<B(!new)>(m: Mem<B>): (r: Claim) {
    Claim(forall x {:trigger Look(x)} :: x == m && Look(x) ==> Parts(x))
  }

  lemma InvMeans<B(!new)>(m: Mem<B>)
    ensures Inv(m).holds <==> Parts(m)
  {
    assert Look(m);
  }

  // ----- kalloc and kfree -----

  ghost function Popped<B>(m: Mem<B>): (r: Mem<B>)
    requires m.list != []
  {
    Mem(m.pages, m.list[1..], m.owner, m.loose + {m.list[0]})
  }

  lemma PopListed<B>(m: Mem<B>)
    requires Listed(m) && m.list != []
    ensures Listed(Popped(m)) && m.list[0] in m.pages && m.list[0] !in m.list[1..]
  {
    var n := Popped(m);
    assert forall i :: 0 <= i < |n.list| ==> n.list[i] == m.list[i + 1];
  }

  lemma PopShared<B>(m: Mem<B>)
    requires Shared(m) && m.list != [] && m.list[0] !in m.list[1..]
    ensures Shared(Popped(m)) && m.list[0] !in m.owner && m.list[0] !in m.loose
  {
    assert forall k :: k in m.list <==> k == m.list[0] || k in m.list[1..];
    assert m.list[0] in m.list;
  }

  lemma PopKeeps<B(!new)>(m: Mem<B>)
    requires Inv(m).holds && m.list != []
    ensures Inv(Popped(m)).holds && SameSlots(m, Popped(m))
    ensures m.list[0] in m.pages && m.list[0] !in m.owner && m.list[0] !in m.loose
  {
    InvMeans(m);
    InvMeans(Popped(m));
    PopListed(m);
    PopShared(m);
    SameTabs(m, Popped(m));
  }

  ghost function Pushed<B>(m: Mem<B>, k: nat): (r: Mem<B>) {
    Mem(m.pages[k := Run(if m.list == [] then None else Some(m.list[0]))], [k] + m.list, m.owner, m.loose - {k})
  }

  lemma PushKeeps<B(!new)>(m: Mem<B>, k: nat)
    requires Inv(m).holds && k in m.loose
    ensures Inv(Pushed(m, k)).holds && SameSlots(m, Pushed(m, k))
  {
    InvMeans(m);
    InvMeans(Pushed(m, k));
    var n := Pushed(m, k);
    PushListed(m, k);
    assert forall x :: x in n.list <==> x == k || x in m.list;
    LooseSlots(m, n, k);
    SameUses(m, n);
  }

  lemma PushListed<B>(m: Mem<B>, k: nat)
    requires Listed(m) && k !in m.list
    ensures Listed(Pushed(m, k))
  {
    var n := Pushed(m, k);
    assert forall i :: 1 <= i < |n.list| ==> n.list[i] == m.list[i - 1];
  }

  /** New contents for a loose page. */
  ghost function Filled<B>(m: Mem<B>, k: nat, x: Page<B>): (r: Mem<B>) {
    Mem(m.pages[k := x], m.list, m.owner, m.loose)
  }

  lemma FillKeeps<B(!new)>(m: Mem<B>, k: nat, x: Page<B>)
    requires Inv(m).holds && k in m.loose
    ensures Inv(Filled(m, k, x)).holds && SameSlots(m, Filled(m, k, x))
  {
    InvMeans(m);
    InvMeans(Filled(m, k, x));
    LooseSlots(m, Filled(m, k, x), k);
    SameUses(m, Filled(m, k, x));
  }

  /** Directories, mappings and user pages are as before. */
  ghost predicate SameSlots<B>(m: Mem<B>, n: Mem<B>) {
    && n.owner == m.owner
    && (forall d :: IsDir(m, d) ==> (IsTable(n, d) <==> IsTable(m, d)))
    && (forall d, i: nat :: IsDir(m, d) ==> At(n, d, i) == At(m, d, i))
    && (forall d, i: nat, j: nat :: IsDir(m, d) ==> Slot(n, d, i, j) == Slot(m, d, i, j))
    && (forall k :: k in m.owner && k in m.pages ==> k in n.pages && n.pages[k] == m.pages[k])
  }

  lemma LooseSlots<B>(m: Mem<B>, n: Mem<B>, k: nat)
    requires Tabs(m) && n.owner == m.owner && k !in m.owner && k in n.pages && n.pages == m.pages[k := n.pages[k]]
    ensures SameSlots(m, n)
  {
    forall d, i: nat, j: nat | IsDir(m, d) ensures At(n, d, i) == At(m, d, i) && Slot(n, d, i, j) == Slot(m, d, i, j) {
      assert IsTable(m, d) && d != k;
    }
  }

  lemma SameTabs<B>(m: Mem<B>, n: Mem<B>)
    requires n.pages == m.pages && n.owner == m.owner
    ensures (Tabs(m) ==> Tabs(n)) && (Users(m) ==> Users(n)) && SameSlots(m, n)
  {
    assert forall t, i: nat :: At(n, t, i) == At(m, t, i);
    assert forall d, i: nat, j: nat :: Slot(n, d, i, j) == Slot(m, d, i, j);
    assert forall t :: IsTable(n, t) <==> IsTable(m, t);
    assert forall d :: IsDir(n, d) <==> IsDir(m, d);
  }

  lemma SameUses<B>(m: Mem<B>, n: Mem<B>)
    requires Tabs(m) && Users(m) && SameSlots(m, n)
    ensures Tabs(n) && Users(n)
  {
    assert forall d :: IsDir(n, d) <==> IsDir(m, d);
    forall t | t in n.owner && n.owner[t].Tab?
      ensures IsTable(n, t) && IsDir(n, n.owner[t].d) && At(n, n.owner[t].d, n.owner[t].i).Present() && At(n, n.owner[t].d, n.owner[t].i).page == t
    {
      assert IsTable(m, t);
    }
  }

  // ----- entries -----

  function Zeros(n: nat): (e: seq<Entry>)
    ensures |e| == n && forall i :: 0 <= i < n ==> e[i] == Zero
  {
    if n == 0 then [] else Zeros(n - 1) + [Zero]
  }

  /** Writing entry j of table page t. */
  ghost function Put<B>(m: Mem<B>, t: nat, j: nat, e: Entry): (pages: map<nat, Page<B>>)
    requires IsTable(m, t) && j < ENTRIES
  {
    m.pages[t := Table(m.pages[t].e[j := e])]
  }

  lemma AtPut<B>(m: Mem<B>, n: Mem<B>, t: nat, j: nat, e: Entry)
    requires IsTable(m, t) && j < ENTRIES && n.pages == Put(m, t, j, e)
    ensures forall x, y: nat :: At(n, x, y) == if x == t && y == j then e else At(m, x, y)
    ensures forall x :: IsTable(n, x) <==> IsTable(m, x)
  {
  }

  // ----- walkpgdir: a new table -----

  ghost function TableHung<B>(m: Mem<B>, d: nat, i: nat, t: nat): (n: Mem<B>)
    requires IsTable(m, d) && i < ENTRIES
  {
    Mem(Put(m, d, i, Entry(t, 7)), m.list, m.owner[t := Tab(d, i)], m.loose - {t})
  }

  /** t is loose and all zero, and d has no table at i. */
  ghost predicate CanHangTable<B>(m: Mem<B>, d: nat, i: nat, t: nat) {
    IsDir(m, d) && IsTable(m, d) && i < ENTRIES && !At(m, d, i).Present() && t in m.loose && t in m.pages && m.pages[t] == Table(Zeros(ENTRIES))
  }

  lemma TableSlots<B>(m: Mem<B>, d: nat, i: nat, t: nat)
    requires Tabs(m) && Shared(m) && CanHangTable(m, d, i, t)
    ensures var n := TableHung(m, d, i, t);
      && (forall x :: IsDir(n, x) <==> IsDir(m, x))
      && (forall x, y: nat, z: nat :: IsDir(m, x) ==> Slot(n, x, y, z) == Slot(m, x, y, z))
  {
    var n := TableHung(m, d, i, t);
    AtPut(m, n, d, i, Entry(t, 7));
    assert t != d && forall z: nat :: At(m, t, z) == Zero;
    forall x, y: nat, z: nat | IsDir(m, x) ensures Slot(n, x, y, z) == Slot(m, x, y, z) {
      if At(m, x, y).Present() {
        assert At(m, x, y).page in m.owner && m.owner[At(m, x, y).page] == Tab(x, y);
        assert At(m, x, y).page != d;
      }
    }
  }

  lemma TableTabs<B>(m: Mem<B>, d: nat, i: nat, t: nat)
    requires Tabs(m) && Shared(m) && CanHangTable(m, d, i, t)
    ensures Tabs(TableHung(m, d, i, t))
  {
    var n := TableHung(m, d, i, t);
    AtPut(m, n, d, i, Entry(t, 7));
    assert forall x :: IsDir(n, x) <==> IsDir(m, x);
    forall x | x in n.owner && n.owner[x].Tab?
      ensures IsTable(n, x) && IsDir(n, n.owner[x].d) && At(n, n.owner[x].d, n.owner[x].i).Present() && At(n, n.owner[x].d, n.owner[x].i).page == x
    {
      if x != t {
        assert IsTable(m, x) && At(m, m.owner[x].d, m.owner[x].i).Present();
      }
    }
  }

  lemma TableUsers<B>(m: Mem<B>, d: nat, i: nat, t: nat)
    requires Tabs(m) && Shared(m) && Users(m) && CanHangTable(m, d, i, t)
    ensures Users(TableHung(m, d, i, t))
  {
    TableSlots(m, d, i, t);
    var n := TableHung(m, d, i, t);
    assert forall u :: u in n.owner && n.owner[u].User? ==> u in m.owner && n.owner[u] == m.owner[u] && u != d;
  }

  lemma TableKeeps<B(!new)>(m: Mem<B>, d: nat, i: nat, t: nat)
    requires Inv(m).holds && CanHangTable(m, d, i, t)
    ensures Inv(TableHung(m, d, i, t)).holds
  {
    var n := TableHung(m, d, i, t);
    InvMeans(m);
    InvMeans(n);
    TableTabs(m, d, i, t);
    TableUsers(m, d, i, t);
    assert d in m.owner;
  }

  // ----- writing a page table entry -----

  ghost predicate HasTable<B>(m: Mem<B>, d: nat, i: nat) {
    IsDir(m, d) && i < ENTRIES && At(m, d, i).Present()
  }

  lemma TableFacts<B>(m: Mem<B>, d: nat, i: nat)
    requires Tabs(m) && HasTable(m, d, i)
    ensures var t := At(m, d, i).page; t in m.owner && m.owner[t] == Tab(d, i) && IsTable(m, t) && IsTable(m, d) && t != d
  {
  }

  /** The write changes that one slot and no directory. */
  lemma SlotPut<B>(m: Mem<B>, n: Mem<B>, d: nat, i: nat, j: nat, e: Entry)
    requires Tabs(m) && HasTable(m, d, i) && j < ENTRIES && IsTable(m, At(m, d, i).page) && n.pages == Put(m, At(m, d, i).page, j, e)
    ensures forall x, y: nat :: IsDir(m, x) ==> At(n, x, y) == At(m, x, y)
    ensures forall x, y: nat, z: nat :: IsDir(m, x) ==> Slot(n, x, y, z) == if x == d && y == i && z == j then e else Slot(m, x, y, z)
    ensures forall x :: IsTable(n, x) <==> IsTable(m, x)
  {
    TableFacts(m, d, i);
    var t := At(m, d, i).page;
    AtPut(m, n, t, j, e);
    forall x, y: nat, z: nat | IsDir(m, x) ensures Slot(n, x, y, z) == if x == d && y == i && z == j then e else Slot(m, x, y, z) {
      if At(m, x, y).Present() && At(m, x, y).page == t {
        assert m.owner[t] == Tab(x, y);
      }
    }
  }

  /** Roles of directories and tables are as before. */
  ghost predicate SameTops<B>(m: Mem<B>, n: Mem<B>) {
    && (forall x :: IsDir(n, x) <==> IsDir(m, x))
    && (forall x :: x in n.owner && n.owner[x].Tab? <==> x in m.owner && m.owner[x].Tab?)
    && (forall x :: x in n.owner && n.owner[x].Tab? ==> n.owner[x] == m.owner[x])
  }

  lemma TopsTabs<B>(m: Mem<B>, n: Mem<B>)
    requires Tabs(m) && SameTops(m, n)
    requires forall x, y: nat :: IsDir(m, x) ==> At(n, x, y) == At(m, x, y)
    requires forall x :: IsTable(n, x) <==> IsTable(m, x)
    ensures Tabs(n)
  {
    forall x, y: nat | IsDir(n, x) && At(n, x, y).Present() ensures At(n, x, y).page in n.owner && n.owner[At(n, x, y).page] == Tab(x, y) {
      assert At(m, x, y).Present() && At(m, x, y).page in m.owner && m.owner[At(m, x, y).page] == Tab(x, y);
    }
  }

  // ----- mapping a user page -----

  ghost predicate CanHang<B>(m: Mem<B>, d: nat, i: nat, j: nat, u: nat, flags: nat) {
    && HasTable(m, d, i) && i < USERDIRS && j < ENTRIES && !Slot(m, d, i, j).Present() && flags % 2 == 1
    && u in m.loose && u in m.pages && m.pages[u].Bytes? && IsTable(m, At(m, d, i).page)
  }

  ghost function Hung<B>(m: Mem<B>, d: nat, i: nat, j: nat, u: nat, flags: nat): (n: Mem<B>)
    requires CanHang(m, d, i, j, u, flags)
  {
    Mem(Put(m, At(m, d, i).page, j, Entry(u, flags)), m.list, m.owner[u := User(d, i, j)], m.loose - {u})
  }

  lemma HangUsers<B>(m: Mem<B>, d: nat, i: nat, j: nat, u: nat, flags: nat)
    requires Tabs(m) && Shared(m) && Users(m) && CanHang(m, d, i, j, u, flags)
    ensures Users(Hung(m, d, i, j, u, flags))
  {
    var n := Hung(m, d, i, j, u, flags);
    TableFacts(m, d, i);
    SlotPut(m, n, d, i, j, Entry(u, flags));
    assert forall x :: IsDir(n, x) <==> IsDir(m, x);
    forall x | x in n.owner && n.owner[x].User?
      ensures x in n.pages && n.pages[x].Bytes? && IsDir(n, n.owner[x].d) && n.owner[x].i < USERDIRS
      ensures Slot(n, n.owner[x].d, n.owner[x].i, n.owner[x].j).Present() && Slot(n, n.owner[x].d, n.owner[x].i, n.owner[x].j).page == x
    {
      if x != u {
        assert x in m.owner && m.owner[x] == n.owner[x];
      }
    }
  }

  lemma HangKeeps<B(!new)>(m: Mem<B>, d: nat, i: nat, j: nat, u: nat, flags: nat)
    requires Inv(m).holds && CanHang(m, d, i, j, u, flags)
    ensures Inv(Hung(m, d, i, j, u, flags)).holds
  {
    var n := Hung(m, d, i, j, u, flags);
    InvMeans(m);
    InvMeans(n);
    TableFacts(m, d, i);
    SlotPut(m, n, d, i, j, Entry(u, flags));
    assert u !in m.owner;
    TopsTabs(m, n);
    HangUsers(m, d, i, j, u, flags);
  }

  // ----- a kernel mapping -----

  ghost predicate CanSet<B>(m: Mem<B>, d: nat, i: nat, j: nat) {
    HasTable(m, d, i) && USERDIRS <= i && j < ENTRIES && IsTable(m, At(m, d, i).page)
  }

  ghost function Set<B>(m: Mem<B>, d: nat, i: nat, j: nat, e: Entry): (n: Mem<B>)
    requires CanSet(m, d, i, j)
  {
    Mem(Put(m, At(m, d, i).page, j, e), m.list, m.owner, m.loose)
  }

  lemma SetKeeps<B(!new)>(m: Mem<B>, d: nat, i: nat, j: nat, e: Entry)
    requires Inv(m).holds && CanSet(m, d, i, j)
    ensures Inv(Set(m, d, i, j, e)).holds
  {
    var n := Set(m, d, i, j, e);
    InvMeans(m);
    InvMeans(n);
    TableFacts(m, d, i);
    SlotPut(m, n, d, i, j, e);
    TopsTabs(m, n);
    SetUsers(m, d, i, j, e);
  }

  lemma SetUsers<B>(m: Mem<B>, d: nat, i: nat, j: nat, e: Entry)
    requires Tabs(m) && Users(m) && CanSet(m, d, i, j)
    ensures Users(Set(m, d, i, j, e))
  {
    var n := Set(m, d, i, j, e);
    TableFacts(m, d, i);
    SlotPut(m, n, d, i, j, e);
    assert forall x :: IsDir(n, x) <==> IsDir(m, x);
  }

  // ----- unmapping a user page -----

  ghost predicate CanUnhang<B>(m: Mem<B>, d: nat, i: nat, j: nat) {
    HasTable(m, d, i) && i < USERDIRS && j < ENTRIES && Slot(m, d, i, j).Present() && IsTable(m, At(m, d, i).page)
  }

  ghost function Unhung<B>(m: Mem<B>, d: nat, i: nat, j: nat): (n: Mem<B>)
    requires CanUnhang(m, d, i, j)
  {
    var u := Slot(m, d, i, j).page;
    Mem(Put(m, At(m, d, i).page, j, Zero), m.list, m.owner - {u}, m.loose + {u})
  }

  lemma UnhangUsers<B>(m: Mem<B>, d: nat, i: nat, j: nat)
    requires Tabs(m) && Users(m) && CanUnhang(m, d, i, j)
    ensures Users(Unhung(m, d, i, j))
  {
    var n := Unhung(m, d, i, j);
    var u := Slot(m, d, i, j).page;
    TableFacts(m, d, i);
    SlotPut(m, n, d, i, j, Zero);
    assert m.owner[u] == User(d, i, j);
    assert forall x :: IsDir(n, x) <==> IsDir(m, x);
    forall x, y: nat, z: nat | IsDir(n, x) && y < USERDIRS && Slot(n, x, y, z).Present()
      ensures Slot(n, x, y, z).page in n.owner && n.owner[Slot(n, x, y, z).page] == User(x, y, z)
    {
      assert Slot(m, x, y, z).Present() && m.owner[Slot(m, x, y, z).page] == User(x, y, z);
    }
    forall x | x in n.owner && n.owner[x].User?
      ensures x in n.pages && n.pages[x].Bytes? && IsDir(n, n.owner[x].d) && n.owner[x].i < USERDIRS
      ensures Slot(n, n.owner[x].d, n.owner[x].i, n.owner[x].j).Present() && Slot(n, n.owner[x].d, n.owner[x].i, n.owner[x].j).page == x
    {
      assert x in m.owner && m.owner[x] == n.owner[x];
    }
  }

  lemma UnhangShared<B>(m: Mem<B>, d: nat, i: nat, j: nat)
    requires Listed(m) && Shared(m) && CanUnhang(m, d, i, j) && Slot(m, d, i, j).page in m.owner
    requires At(m, d, i).page in m.pages && At(m, d, i).page !in m.list && IsTable(m, At(m, d, i).page)
    ensures Listed(Unhung(m, d, i, j)) && Shared(Unhung(m, d, i, j))
  {
    var n := Unhung(m, d, i, j);
    assert n.list == m.list && n.pages.Keys == m.pages.Keys;
  }

  lemma UnhangKeeps<B(!new)>(m: Mem<B>, d: nat, i: nat, j: nat)
    requires Inv(m).holds && CanUnhang(m, d, i, j)
    ensures Inv(Unhung(m, d, i, j)).holds
    ensures var u := Slot(m, d, i, j).page; u in m.owner && m.owner[u] == User(d, i, j) && u in m.pages
  {
    var n := Unhung(m, d, i, j);
    InvMeans(m);
    InvMeans(n);
    TableFacts(m, d, i);
    SlotPut(m, n, d, i, j, Zero);
    assert m.owner[Slot(m, d, i, j).page] == User(d, i, j);
    UnhangShared(m, d, i, j);
    TopsTabs(m, n);
    UnhangUsers(m, d, i, j);
  }

  // ----- directories -----

  ghost function DirMade<B>(m: Mem<B>, d: nat): (n: Mem<B>) {
    Mem(m.pages, m.list, m.owner[d := Dir], m.loose - {d})
  }

  /** An empty page becomes an empty directory. */
  lemma DirKeeps<B(!new)>(m: Mem<B>, d: nat)
    requires Inv(m).holds && d in m.loose && d in m.pages && m.pages[d] == Table(Zeros(ENTRIES))
    ensures Inv(DirMade(m, d)).holds
  {
    var n := DirMade(m, d);
    InvMeans(m);
    InvMeans(n);
    assert d !in m.owner;
    assert forall t, i: nat :: At(n, t, i) == At(m, t, i);
    assert forall x, y: nat, z: nat :: Slot(n, x, y, z) == Slot(m, x, y, z);
    assert forall i: nat :: At(m, d, i) == Zero;
    assert forall t :: IsTable(n, t) <==> IsTable(m, t);
    assert forall x :: IsDir(n, x) <==> IsDir(m, x) || x == d;
    DirTabs(m, n, d);
    DirUsers(m, n, d);
  }

  lemma DirTabs<B>(m: Mem<B>, n: Mem<B>, d: nat)
    requires Tabs(m) && d !in m.owner && n == DirMade(m, d) && IsTable(m, d) && forall i: nat :: At(m, d, i) == Zero
    ensures Tabs(n)
  {
    assert forall t, i: nat :: At(n, t, i) == At(m, t, i);
    assert forall t :: IsTable(n, t) <==> IsTable(m, t);
    assert forall x :: IsDir(n, x) <==> IsDir(m, x) || x == d;
  }

  lemma DirUsers<B>(m: Mem<B>, n: Mem<B>, d: nat)
    requires Users(m) && d !in m.owner && n == DirMade(m, d) && forall i: nat :: At(m, d, i) == Zero
    ensures Users(n)
  {
    assert forall t, i: nat :: At(n, t, i) == At(m, t, i);
    assert forall x, y: nat, z: nat :: Slot(n, x, y, z) == Slot(m, x, y, z);
    assert forall x :: IsDir(n, x) <==> IsDir(m, x) || x == d;
    assert forall y: nat, z: nat :: Slot(n, d, y, z) == Zero;
  }

  // ----- what an address space shows -----

  datatype View<B> = View(flags: nat, b: B)

  /** What user address (i, j) of directory d shows: the flags and contents of its page. */
  ghost function Sees<B>(m: Mem<B>, d: nat, i: nat, j: nat): (v: Option<View<B>>) {
    var e := Slot(m, d, i, j);
    if i < USERDIRS && e.Present() && e.page in m.pages && m.pages[e.page].Bytes? then Some(View(e.flags, m.pages[e.page].b)) else None
  }

  ghost predicate SameDirs<B>(m: Mem<B>, n: Mem<B>) {
    forall x :: IsDir(n, x) <==> IsDir(m, x)
  }

  /** The same address spaces, showing the same. */
  ghost predicate SameView<B>(m: Mem<B>, n: Mem<B>) {
    && SameDirs(m, n) && SameKernel(m, n)
    && forall x, y: nat, z: nat :: IsDir(m, x) ==> Sees(n, x, y, z) == Sees(m, x, y, z)
  }

  /** The kernel's part of every address space is as before. */
  ghost predicate SameKernel<B>(m: Mem<B>, n: Mem<B>) {
    forall x, y: nat, z: nat :: IsDir(m, x) && USERDIRS <= y ==> Slot(n, x, y, z) == Slot(m, x, y, z)
  }

  lemma SlotsView<B(!new)>(m: Mem<B>, n: Mem<B>)
    requires Inv(m).holds && SameSlots(m, n)
    ensures SameView(m, n)
  {
    InvMeans(m);
    forall x, y: nat, z: nat | IsDir(m, x) ensures Sees(n, x, y, z) == Sees(m, x, y, z) {
      var e := Slot(m, x, y, z);
      if y < USERDIRS && e.Present() {
        assert e.page in m.owner && m.owner[e.page] == User(x, y, z);
      }
    }
  }

  lemma SeesUser<B(!new)>(m: Mem<B>, d: nat, i: nat, j: nat)
    requires Inv(m).holds && IsDir(m, d) && i < USERDIRS
    ensures Slot(m, d, i, j).Present() <==> Sees(m, d, i, j).Some?
    ensures Slot(m, d, i, j).Present() ==> var u := Slot(m, d, i, j).page; u in m.owner && m.owner[u] == User(d, i, j) && u in m.pages && m.pages[u].Bytes?
  {
    InvMeans(m);
  }

  /** No page is mapped at two user addresses, in one address space or in two. */
  lemma OnePageEach<B(!new)>(m: Mem<B>, d: nat, i: nat, j: nat, d': nat, i': nat, j': nat)
    requires Inv(m).holds && IsDir(m, d) && IsDir(m, d') && i < USERDIRS && i' < USERDIRS
    requires Slot(m, d, i, j).Present() && Slot(m, d', i', j').Present() && Slot(m, d, i, j).page == Slot(m, d', i', j').page
    ensures d == d' && i == i' && j == j'
  {
    SeesUser(m, d, i, j);
    SeesUser(m, d', i', j');
  }

  lemma TableView<B(!new)>(m: Mem<B>, d: nat, i: nat, t: nat)
    requires Inv(m).holds && CanHangTable(m, d, i, t)
    ensures SameView(m, TableHung(m, d, i, t))
  {
    InvMeans(m);
    var n := TableHung(m, d, i, t);
    TableSlots(m, d, i, t);
    forall x, y: nat, z: nat | IsDir(m, x) ensures Sees(n, x, y, z) == Sees(m, x, y, z) {
      var e := Slot(m, x, y, z);
      if y < USERDIRS && e.Present() {
        assert m.owner[e.page] == User(x, y, z);
        assert e.page != d && n.pages[e.page] == m.pages[e.page];
      }
    }
  }

  /** One address of one directory shows v, the rest is as before. */
  ghost predicate OneView<B>(m: Mem<B>, n: Mem<B>, d: nat, i: nat, j: nat, v: Option<View<B>>) {
    && SameDirs(m, n) && SameKernel(m, n)
    && forall x, y: nat, z: nat :: IsDir(m, x) ==> Sees(n, x, y, z) == if x == d && y == i && z == j then v else Sees(m, x, y, z)
  }

  lemma HangView<B(!new)>(m: Mem<B>, d: nat, i: nat, j: nat, u: nat, flags: nat)
    requires Inv(m).holds && CanHang(m, d, i, j, u, flags)
    ensures OneView(m, Hung(m, d, i, j, u, flags), d, i, j, Some(View(flags, m.pages[u].b)))
  {
    InvMeans(m);
    var n := Hung(m, d, i, j, u, flags);
    TableFacts(m, d, i);
    SlotPut(m, n, d, i, j, Entry(u, flags));
    forall x, y: nat, z: nat | IsDir(m, x) && !(x == d && y == i && z == j) ensures Sees(n, x, y, z) == Sees(m, x, y, z) {
      var e := Slot(m, x, y, z);
      if y < USERDIRS && e.Present() {
        assert m.owner[e.page] == User(x, y, z);
      }
    }
  }

  lemma SetView<B(!new)>(m: Mem<B>, d: nat, i: nat, j: nat, e: Entry)
    requires Inv(m).holds && CanSet(m, d, i, j)
    ensures var n := Set(m, d, i, j, e);
      && SameDirs(m, n) && (forall x, y: nat, z: nat :: IsDir(m, x) ==> Sees(n, x, y, z) == Sees(m, x, y, z))
      && (forall x, y: nat, z: nat :: IsDir(m, x) ==> Slot(n, x, y, z) == if x == d && y == i && z == j then e else Slot(m, x, y, z))
  {
    InvMeans(m);
    var n := Set(m, d, i, j, e);
    TableFacts(m, d, i);
    SlotPut(m, n, d, i, j, e);
    forall x, y: nat, z: nat | IsDir(m, x) ensures Sees(n, x, y, z) == Sees(m, x, y, z) {
      var f := Slot(m, x, y, z);
      if y < USERDIRS && f.Present() {
        assert m.owner[f.page] == User(x, y, z);
      }
    }
  }

  lemma UnhangView<B(!new)>(m: Mem<B>, d: nat, i: nat, j: nat)
    requires Inv(m).holds && CanUnhang(m, d, i, j)
    ensures OneView(m, Unhung(m, d, i, j), d, i, j, None)
  {
    InvMeans(m);
    var n := Unhung(m, d, i, j);
    TableFacts(m, d, i);
    SlotPut(m, n, d, i, j, Zero);
    assert m.owner[Slot(m, d, i, j).page] == User(d, i, j);
    forall x, y: nat, z: nat | IsDir(m, x) && !(x == d && y == i && z == j) ensures Sees(n, x, y, z) == Sees(m, x, y, z) {
      var e := Slot(m, x, y, z);
      if y < USERDIRS && e.Present() {
        assert m.owner[e.page] == User(x, y, z);
      }
    }
  }

  lemma DirView<B(!new)>(m: Mem<B>, d: nat)
    requires Inv(m).holds && d in m.loose && d in m.pages && m.pages[d] == Table(Zeros(ENTRIES))
    ensures var n := DirMade(m, d);
      && (forall x :: IsDir(n, x) <==> IsDir(m, x) || x == d) && !IsDir(m, d) && SameKernel(m, n)
      && (forall x, y: nat, z: nat :: IsDir(m, x) ==> Sees(n, x, y, z) == Sees(m, x, y, z))
      && (forall y: nat, z: nat :: Slot(n, d, y, z) == Zero)
  {
    InvMeans(m);
    var n := DirMade(m, d);
    assert d !in m.owner;
    assert forall t, i: nat :: At(n, t, i) == At(m, t, i);
    assert forall x, y: nat, z: nat :: Slot(n, x, y, z) == Slot(m, x, y, z);
    assert forall y: nat :: At(n, d, y) == Zero;
  }

  // ----- taking a directory apart -----

  /** No user page is left in d. */
  ghost predicate Bare<B>(m: Mem<B>, d: nat) {
    forall i: nat, j: nat :: i < USERDIRS ==> !Slot(m, d, i, j).Present()
  }

  /** d and its tables. */
  ghost predicate Frame(r: Role, k: nat, d: nat) {
    k == d || (r.Tab? && r.d == d)
  }

  ghost function Frames<B>(m: Mem<B>, d: nat): (f: set<nat>)
    ensures forall k :: k in f <==> k in m.owner && Frame(m.owner[k], k, d)
  {
    set k | k in m.owner && Frame(m.owner[k], k, d)
  }

  ghost function Dissolved<B>(m: Mem<B>, d: nat): (n: Mem<B>) {
    Mem(m.pages, m.list, m.owner - Frames(m, d), m.loose + Frames(m, d))
  }

  lemma DissolveTabs<B>(m: Mem<B>, d: nat)
    requires Tabs(m) && IsDir(m, d)
    ensures Tabs(Dissolved(m, d))
  {
    var n := Dissolved(m, d);
    assert forall t, i: nat :: At(n, t, i) == At(m, t, i);
    assert forall t :: IsTable(n, t) <==> IsTable(m, t);
    forall x, i: nat | IsDir(n, x) && At(n, x, i).Present() ensures At(n, x, i).page in n.owner && n.owner[At(n, x, i).page] == Tab(x, i) {
      assert IsDir(m, x) && x != d && m.owner[At(m, x, i).page] == Tab(x, i);
    }
    forall t | t in n.owner && n.owner[t].Tab? ensures t in m.owner && n.owner[t] == m.owner[t] && IsDir(n, n.owner[t].d) {
      assert IsDir(m, m.owner[t].d) && m.owner[t].d != d;
    }
  }

  lemma DissolveUsers<B>(m: Mem<B>, d: nat)
    requires Users(m) && Bare(m, d) && IsDir(m, d)
    ensures Users(Dissolved(m, d))
  {
    var n := Dissolved(m, d);
    assert forall t, i: nat :: At(n, t, i) == At(m, t, i);
    assert forall x, y: nat, z: nat :: Slot(n, x, y, z) == Slot(m, x, y, z);
    forall x | IsDir(n, x) ensures IsDir(m, x) && x != d {}
    forall u | u in n.owner && n.owner[u].User? ensures u in m.owner && n.owner[u].d != d && IsDir(n, n.owner[u].d) {
      assert IsDir(m, m.owner[u].d) && Slot(m, m.owner[u].d, m.owner[u].i, m.owner[u].j).Present();
    }
  }

  lemma DissolveKeeps<B(!new)>(m: Mem<B>, d: nat)
    requires Inv(m).holds && Bare(m, d) && IsDir(m, d)
    ensures Inv(Dissolved(m, d)).holds && d in m.pages && d !in m.loose
    ensures forall x :: IsDir(Dissolved(m, d), x) <==> IsDir(m, x) && x != d
    ensures forall x, y: nat, z: nat :: Sees(Dissolved(m, d), x, y, z) == Sees(m, x, y, z) && Slot(Dissolved(m, d), x, y, z) == Slot(m, x, y, z)
  {
    var n := Dissolved(m, d);
    InvMeans(m);
    InvMeans(n);
    assert forall t, i: nat :: At(n, t, i) == At(m, t, i);
    assert forall x, y: nat, z: nat :: Slot(n, x, y, z) == Slot(m, x, y, z);
    DissolveTabs(m, d);
    DissolveUsers(m, d);
    DissolveShared(m, d);
  }

  lemma DissolveShared<B>(m: Mem<B>, d: nat)
    requires Shared(m)
    ensures Shared(Dissolved(m, d))
  {
  }

  /** The tables of d from index i on. */
  ghost function TablesFrom<B>(m: Mem<B>, d: nat, i: nat): (f: set<nat>)
    requires i <= ENTRIES
    decreases ENTRIES - i
  {
    if i == ENTRIES then {}
    else TablesFrom(m, d, i + 1) + if At(m, d, i).Present() then {At(m, d, i).page} else {}
  }

  lemma {:induction false} TableAmong<B>(m: Mem<B>, d: nat, i: nat, k: nat)
    requires i <= k < ENTRIES && At(m, d, k).Present()
    ensures At(m, d, k).page in TablesFrom(m, d, i)
    decreases ENTRIES - i
  {
    if i < k {
      TableAmong(m, d, i + 1, k);
    }
  }

  lemma {:induction false} TableWhere<B>(m: Mem<B>, d: nat, i: nat, t: nat) returns (k: nat)
    requires i <= ENTRIES && t in TablesFrom(m, d, i)
    ensures i <= k < ENTRIES && At(m, d, k).Present() && At(m, d, k).page == t
    decreases ENTRIES - i
  {
    if t in TablesFrom(m, d, i + 1) {
      k := TableWhere(m, d, i + 1, t);
    } else {
      k := i;
    }
  }

  lemma FrameTable<B>(m: Mem<B>, d: nat, t: nat)
    requires Tabs(m) && IsDir(m, d)
    ensures t in TablesFrom(m, d, 0) <==> t in m.owner && m.owner[t].Tab? && m.owner[t].d == d
  {
    if t in m.owner && m.owner[t].Tab? && m.owner[t].d == d {
      TableAmong(m, d, 0, m.owner[t].i);
    }
    if t in TablesFrom(m, d, 0) {
      var k := TableWhere(m, d, 0, t);
      assert m.owner[t] == Tab(d, k);
    }
  }

  /** A directory's frames are itself and its tables. */
  lemma FramesAre<B>(m: Mem<B>, d: nat)
    requires Tabs(m) && IsDir(m, d)
    ensures Frames(m, d) == {d} + TablesFrom(m, d, 0) && d !in TablesFrom(m, d, 0)
  {
    var f, g := Frames(m, d), TablesFrom(m, d, 0);
    forall k: nat ensures k in f <==> k == d || k in g {
      FrameTable(m, d, k);
      InFrames(m, d, k);
    }
    FrameTable(m, d, d);
    assert f == {d} + g;
  }

  lemma InFrames<B>(m: Mem<B>, d: nat, k: nat)
    requires IsDir(m, d)
    ensures k in Frames(m, d) <==> k == d || (k in m.owner && m.owner[k].Tab? && m.owner[k].d == d)
  {
  }

  lemma TableApart<B>(m: Mem<B>, d: nat, i: nat)
    requires Tabs(m) && IsDir(m, d) && i < ENTRIES && At(m, d, i).Present()
    ensures At(m, d, i).page !in TablesFrom(m, d, i + 1) && At(m, d, i).page != d
  {
    var t := At(m, d, i).page;
    assert m.owner[t] == Tab(d, i);
    if t in TablesFrom(m, d, i + 1) {
      var k := TableWhere(m, d, i + 1, t);
    }
  }

  // ----- writing to a user page -----

  ghost function Poked<B>(m: Mem<B>, u: nat, x: B): (n: Mem<B>) {
    Mem(m.pages[u := Bytes(x)], m.list, m.owner, m.loose)
  }

  /** No directory or table entry has changed. */
  ghost predicate SameEntries<B>(m: Mem<B>, n: Mem<B>) {
    && SameDirs(m, n) && (forall d, i: nat :: IsDir(m, d) ==> At(n, d, i) == At(m, d, i))
    && (forall d, i: nat, j: nat :: IsDir(m, d) ==> Slot(n, d, i, j) == Slot(m, d, i, j))
  }

  lemma PokeSlots<B>(m: Mem<B>, u: nat, x: B)
    requires Tabs(m) && u in m.owner && m.owner[u].User?
    ensures SameEntries(m, Poked(m, u, x))
  {
    var n := Poked(m, u, x);
    forall d, i: nat | IsDir(m, d) ensures At(n, d, i) == At(m, d, i) && forall j: nat :: Slot(n, d, i, j) == Slot(m, d, i, j) {
      assert IsTable(m, d) && d != u;
      if At(m, d, i).Present() {
        assert m.owner[At(m, d, i).page] == Tab(d, i);
      }
    }
  }

  lemma PokeTabs<B>(m: Mem<B>, u: nat, x: B)
    requires Tabs(m) && u in m.owner && m.owner[u].User?
    requires SameEntries(m, Poked(m, u, x))
    ensures Tabs(Poked(m, u, x))
  {
    var n := Poked(m, u, x);
    assert forall d :: IsDir(n, d) <==> IsDir(m, d);
    forall d | IsDir(n, d) ensures IsTable(n, d) {
      assert IsTable(m, d) && d != u;
    }
  }

  lemma PokeUsers<B>(m: Mem<B>, u: nat, x: B)
    requires Users(m) && u in m.owner && m.owner[u].User?
    requires SameEntries(m, Poked(m, u, x))
    ensures Users(Poked(m, u, x))
  {
    assert forall d :: IsDir(Poked(m, u, x), d) <==> IsDir(m, d);
  }

  /** New contents for a user page change what its one user address shows, and nothing else. */
  lemma PokeKeeps<B(!new)>(m: Mem<B>, d: nat, i: nat, j: nat, x: B)
    requires Inv(m).holds && IsDir(m, d) && i < USERDIRS && Slot(m, d, i, j).Present()
    ensures var u := Slot(m, d, i, j).page; u in m.pages && Inv(Poked(m, u, x)).holds && SameEntries(m, Poked(m, u, x)) && OneView(m, Poked(m, u, x), d, i, j, Some(View(Slot(m, d, i, j).flags, x)))
  {
    SeesUser(m, d, i, j);
    var u := Slot(m, d, i, j).page;
    InvMeans(m);
    PokeSlots(m, u, x);
    PokeTabs(m, u, x);
    PokeUsers(m, u, x);
    InvMeans(Poked(m, u, x));
    PokeView(m, d, i, j, x);
  }

  lemma PokeView<B>(m: Mem<B>, d: nat, i: nat, j: nat, x: B)
    requires Users(m) && IsDir(m, d) && i < USERDIRS && Slot(m, d, i, j).Present()
    requires var u := Slot(m, d, i, j).page; u in m.owner && m.owner[u] == User(d, i, j)
    requires SameEntries(m, Poked(m, Slot(m, d, i, j).page, x))
    ensures OneView(m, Poked(m, Slot(m, d, i, j).page, x), d, i, j, Some(View(Slot(m, d, i, j).flags, x)))
  {
    var u := Slot(m, d, i, j).page;
    var n := Poked(m, u, x);
    forall y, a: nat, b: nat | IsDir(m, y) && !(y == d && a == i && b == j) ensures Sees(n, y, a, b) == Sees(m, y, a, b) {
      var e := Slot(m, y, a, b);
      if a < USERDIRS && e.Present() {
        assert m.owner[e.page] == User(y, a, b);
      }
    }
  }
}
