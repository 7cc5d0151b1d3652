/** kalloc.c and vm.c: the page free list, and page directories built and torn down page by page. Pages are
    named by number; a page of user memory is one value of type B. */
module VirtualMemory {
  import opened Basics
  import opened VmPages
  import opened VmSteps
  import opened VmLedger

  class Memory<B(!new)> {
    const blank: B                       // a page of zeroes
    var pages: map<nat, Page<B>>
    var freelist: Option<nat>

    ghost var list: seq<nat>
    ghost var owner: map<nat, Role>
    ghost var loose: set<nat>

    ghost function M(): (m: Mem<B>)
      reads this
    {
      Mem(pages, list, owner, loose)
    }

    ghost predicate Valid()
      reads this
    {
      Inv(M()).holds && freelist == if list == [] then None else Some(list[0])
    }

    // ----- kalloc.c -----

    /** kinit: pages lo up to hi, all free. */
    constructor (lo: nat, hi: nat, blank: B)
      requires lo <= hi
      ensures Valid() && this.blank == blank && owner == map[] && loose == {}
      ensures |list| == hi - lo && forall k: nat :: k in pages <==> lo <= k < hi
    {
      this.blank := blank;
      pages := Boot(lo, hi, blank);
      freelist, list, owner, loose := None, [], map[], (Boot(lo, hi, blank)).Keys;
      new;
      InvMeans(M());
      FreeRange(lo, hi);
    }

    method FreeRange(lo: nat, hi: nat)
      requires Valid() && lo <= hi && owner == map[] && forall k: nat :: k in loose <==> lo <= k < hi
      modifies `pages, `freelist, `list, `loose
      ensures Valid() && loose == {} && pages.Keys == old(pages).Keys && |list| == |old(list)| + hi - lo
    {
      var p := lo;
      while p + 1 <= hi
        invariant lo <= p <= hi && Valid() && pages.Keys == old(pages).Keys && |list| == |old(list)| + p - lo
        invariant forall k: nat :: k in loose <==> p <= k < hi
      {
        LooseKnown(M(), p);
        Kfree(p);
        p := p + 1;
      }
    }

    /** Takes the first page off the free list. */
    method Kalloc() returns (k: Option<nat>)
      requires Valid()
      modifies `freelist, `list, `loose
      ensures Valid() && (k.None? <==> old(list) == [])
      ensures k.None? ==> M() == old(M())
      ensures k.Some? ==> k.value == old(list)[0] && list == old(list)[1..] && loose == old(loose) + {k.value}
      ensures k.Some? ==> k.value in pages && k.value !in owner && k.value !in old(loose)
      ensures SameView(old(M()), M())
    {
      ghost var m := M();
      k := freelist;
      if k.Some? {
        PopKeeps(m);
        SlotsView(m, Popped(m));
        HeadRun(m);
        freelist := pages[k.value].next;
        list, loose := list[1..], loose + {list[0]};
      } else {
        ViewSelf(m);
      }
    }

    /** Puts a page that nothing refers to on the free list. */
    method Kfree(k: nat)
      requires Valid() && k in loose
      modifies `pages, `freelist, `list, `loose
      ensures pages.Keys == old(pages).Keys
      ensures Valid() && list == [k] + old(list) && loose == old(loose) - {k} && SameView(old(M()), M())
      ensures pages == old(pages)[k := Run(if old(list) == [] then None else Some(old(list)[0]))]
    {
      ghost var m := M();
      LooseKnown(m, k);
      PushKeeps(m, k);
      SlotsView(m, Pushed(m, k));
      pages := pages[k := Run(freelist)];
      freelist := Some(k);
      list, loose := [k] + list, loose - {k};
    }

    /** New contents for a page in the caller's hands. */
    method Fill(k: nat, x: Page<B>)
      requires Valid() && k in loose
      modifies `pages
      ensures pages.Keys == old(pages).Keys
      ensures Valid() && pages == old(pages)[k := x] && SameView(old(M()), M())
    {
      ghost var m := M();
      LooseKnown(m, k);
      FillKeeps(m, k, x);
      SlotsView(m, Filled(m, k, x));
      pages := pages[k := x];
    }

    // ----- walkpgdir and mappages -----

    /** The table for directory index i, made if alloc is set and there is none. */
    method Walk(d: nat, i: nat, alloc: bool) returns (t: Option<nat>)
      requires Valid() && IsDir(M(), d) && i < ENTRIES
      modifies `pages, `freelist, `list, `owner, `loose
      ensures pages.Keys == old(pages).Keys
      ensures Valid() && SameLoose(old(M()), M()) && SameView(old(M()), M())
      ensures t.Some? ==> HasTable(M(), d, i) && t.value == At(M(), d, i).page && IsTable(M(), t.value)
      ensures t.None? ==> M() == old(M()) && !HasTable(M(), d, i) && (alloc ==> list == [])
      ensures t.Some? ==> if HasTable(old(M()), d, i) then M() == old(M()) else At(M(), d, i).flags == 7
      ensures Grew(old(M()), M(), d)
      ensures if alloc then Bill(old(M()), M(), d, i, 0, t.Some?).holds else M() == old(M())
    {
      DirTable(M(), d);
      var pde := pages[d].e[i];
      ViewSelf(M());
      if pde.Present() {
        DirTables(M(), d, i);
        BillHas(M(), d, i);
        return Some(pde.page);
      }
      t := None;
      if alloc {
        t := MakeTable(d, i);
      }
    }

    method MakeTable(d: nat, i: nat) returns (t: Option<nat>)
      requires Valid() && IsDir(M(), d) && i < ENTRIES && !HasTable(M(), d, i)
      modifies `pages, `freelist, `list, `owner, `loose
      ensures pages.Keys == old(pages).Keys
      ensures Valid() && SameLoose(old(M()), M()) && SameView(old(M()), M())
      ensures t.Some? ==> HasTable(M(), d, i) && t.value == At(M(), d, i).page && IsTable(M(), t.value)
      ensures t.Some? ==> At(M(), d, i).flags == 7
      ensures t.None? ==> M() == old(M()) && list == []
      ensures Grew(old(M()), M(), d) && Bill(old(M()), M(), d, i, 0, t.Some?).holds
    {
      ghost var m0 := M();
      t := Kalloc();
      if t.Some? {
        ghost var m1 := M();
        Fill(t.value, Table(Zeros(ENTRIES)));
        ghost var m2 := M();
        HangReady(m0, m1, m2, d, i, t.value);
        TableKeeps(m2, d, i, t.value);
        TableView(m2, d, i, t.value);
        AtPut(m2, TableHung(m2, d, i, t.value), d, i, Entry(t.value, 7));
        ThreeViews(m0, m1, m2, TableHung(m2, d, i, t.value));
        OwnedNotLoose(m0, d);
        BillMade(m0, m1, m2, TableHung(m2, d, i, t.value), d, i, t.value);
        pages := pages[d := Table(pages[d].e[i := Entry(t.value, 7)])];
        owner, loose := owner[t.value := Tab(d, i)], loose - {t.value};
      } else {
        BillNone(m0, m0, d, i);
      }
    }

    /** mappages for one user page; fails if there is no page for a table. */
    method MapUser(d: nat, i: nat, j: nat, u: nat, flags: nat) returns (ok: bool)
      requires Valid() && IsDir(M(), d) && i < USERDIRS && j < ENTRIES && Sees(M(), d, i, j).None?
      requires u in loose && u in pages && pages[u].Bytes? && flags % 2 == 1
      modifies `pages, `freelist, `list, `owner, `loose
      ensures pages.Keys == old(pages).Keys
      ensures Valid() && loose == if ok then old(loose) - {u} else old(loose)
      ensures forall k :: k in loose && k in old(pages) ==> k in pages && pages[k] == old(pages)[k]
      ensures ok ==> OneView(old(M()), M(), d, i, j, Some(View(flags, old(pages[u].b))))
      ensures !ok ==> M() == old(M())
      ensures Grew(old(M()), M(), d) && Bill(old(M()), M(), d, i, 0, ok).holds
    {
      ghost var m := M();
      var t := Walk(d, i, true);
      ok := t.Some?;
      if ok {
        ghost var n := M();
        MapReady(m, n, d, i, j, u, flags);
        LooseKnown(n, u);
        DirTables(n, d, i);
        OwnedNotLoose(n, t.value);
        HangKeeps(n, d, i, j, u, flags);
        HangView(n, d, i, j, u, flags);
        ViewThenOne(m, n, Hung(n, d, i, j, u, flags), d, i, j, Some(View(flags, n.pages[u].b)));
        DirTable(n, d);
        BillEntry(m, n, Hung(n, d, i, j, u, flags), d, i);
        pages := pages[t.value := Table(pages[t.value].e[j := Entry(u, flags)])];
        owner, loose := owner[u := User(d, i, j)], loose - {u};
      }
    }

    /** Frees the page mapped at (i, j) and clears its entry. */
    method Unmap(d: nat, i: nat, j: nat, t: nat)
      requires Valid() && IsDir(M(), d) && i < USERDIRS && j < ENTRIES && Sees(M(), d, i, j).Some?
      requires HasTable(M(), d, i) && t == At(M(), d, i).page && IsTable(M(), t)
      modifies `pages, `freelist, `list, `owner, `loose
      ensures pages.Keys == old(pages).Keys
      ensures Valid() && SameLoose(old(M()), M()) && OneView(old(M()), M(), d, i, j, None)
      ensures owner == old(owner) - {Slot(old(M()), d, i, j).page}
    {
      ghost var m := M();
      DirTables(m, d, i);
      OwnedNotLoose(m, t);
      SeesUser(m, d, i, j);
      UnhangKeeps(m, d, i, j);
      UnhangView(m, d, i, j);
      OwnedNotLoose(m, Slot(m, d, i, j).page);
      var u := pages[t].e[j].page;
      pages := pages[t := Table(pages[t].e[j := Zero])];
      owner, loose := owner - {u}, loose + {u};
      ghost var n := M();
      Kfree(u);
      OneThenView(m, n, M(), d, i, j, None);
    }

    // ----- deallocuvm -----

    /** Unmaps and frees the user pages from newsz up to oldsz, passing over directory entries without a
        table; what is below and above is left as it was. */
    method Dealloc(d: nat, oldsz: nat, newsz: nat) returns (r: nat)
      requires Valid() && IsDir(M(), d) && oldsz <= KERNBASE
      modifies `pages, `freelist, `list, `owner, `loose
      ensures pages.Keys == old(pages).Keys
      ensures Valid() && SameLoose(old(M()), M())
      ensures r == if newsz >= oldsz then oldsz else newsz
      ensures RangeView(old(M()), M(), d, Up(newsz), Up(oldsz), None)
      ensures OwnerLess(old(M()), M(), d, Up(newsz), Up(oldsz))
    {
      ghost var m, hi := M(), Up(oldsz);
      if newsz >= oldsz {
        UpOrder(oldsz, newsz);
        RangeNothing(m, d, Up(newsz), hi, None);
        return oldsz;
      }
      var v := Up(newsz);
      RangeNothing(m, d, v, v, None);
      UpOrder(newsz, oldsz);
      while v * PGSIZE < oldsz
        invariant pages.Keys == old(pages).Keys
        invariant Up(newsz) <= v && Valid() && SameLoose(m, M()) && IsDir(M(), d)
        invariant RangeView(m, M(), d, Up(newsz), Min(v, hi), None) && OwnerLess(m, M(), d, Up(newsz), Min(v, hi))
      {
        UpMeans(v, oldsz);
        v := DeallocAt(d, v, m, Up(newsz), hi);
      }
      UpMeans(v, oldsz);
      r := newsz;
    }

    /** One round of deallocuvm's loop; gives the next page to look at. */
    method DeallocAt(d: nat, v: nat, ghost m: Mem<B>, ghost lo: nat, ghost hi: nat) returns (next: nat)
      requires Valid() && IsDir(M(), d) && IsDir(m, d) && lo <= v < hi <= USERDIRS * ENTRIES
      requires SameLoose(m, M()) && RangeView(m, M(), d, lo, v, None) && OwnerLess(m, M(), d, lo, v)
      modifies `pages, `freelist, `list, `owner, `loose
      ensures pages.Keys == old(pages).Keys
      ensures Valid() && SameLoose(m, M()) && IsDir(M(), d) && v < next
      ensures RangeView(m, M(), d, lo, Min(next, hi), None) && OwnerLess(m, M(), d, lo, Min(next, hi))
    {
      ghost var n := M();
      var i, j := v / ENTRIES, v % ENTRIES;
      var t := Walk(d, i, false);
      next := v;
      if t.None? {
        next := (i + 1) * ENTRIES - 1;
        RangeSkip(m, n, d, lo, v, Min(next + 1, hi));
        OwnerSkip(m, n, d, lo, v, Min(next + 1, hi));
      } else {
        SeesUser(n, d, i, j);
        if pages[t.value].e[j].Present() {
          Unmap(d, i, j, t.value);
          RangeOne(m, n, M(), d, lo, v, None);
          OwnerOne(m, n, M(), d, lo, v);
        } else {
          RangeSame(m, n, d, lo, v, None);
          OwnerSame(m, n, d, lo, v);
        }
      }
      next := next + 1;
    }

    // ----- allocuvm -----

    /** A page from kalloc with the given contents. */
    method Grab(x: Page<B>) returns (k: Option<nat>)
      requires Valid()
      modifies `pages, `freelist, `list, `loose
      ensures pages.Keys == old(pages).Keys
      ensures Valid() && SameView(old(M()), M()) && owner == old(owner)
      ensures k.None? ==> M() == old(M()) && list == []
      ensures k.Some? ==> Holding(old(M()), M(), k.value) && pages[k.value] == x && k.value !in owner && k.value !in old(owner)
      ensures k.Some? ==> forall d :: Took(old(M()), M(), d).holds
    {
      ghost var m := M();
      k := Kalloc();
      if k.Some? {
        ghost var n := M();
        Fill(k.value, x);
        ViewTwice(m, n, M());
        forall d ensures Took(m, M(), d).holds {
          TookPage(m, n, M(), d, k.value, x);
        }
      }
    }

    /** One round of allocuvm's loop: a zeroed page at v. If there is no page for it, or for its table,
        nothing has changed, except that the page may be left over. */
    method AllocAt(d: nat, v: nat) returns (ok: bool, spare: Option<nat>)
      requires Valid() && IsDir(M(), d) && v < USERDIRS * ENTRIES && Sees(M(), d, v / ENTRIES, v % ENTRIES).None?
      modifies `pages, `freelist, `list, `owner, `loose
      ensures pages.Keys == old(pages).Keys
      ensures Valid()
      ensures ok ==> spare.None? && SameLoose(old(M()), M()) && OneView(old(M()), M(), d, v / ENTRIES, v % ENTRIES, Some(View(7, blank)))
      ensures !ok ==> SameView(old(M()), M())
      ensures !ok && spare.None? ==> SameLoose(old(M()), M())
      ensures !ok && spare.Some? ==> Holding(old(M()), M(), spare.value)
      ensures Bill(old(M()), M(), d, v / ENTRIES, 1, ok).holds
    {
      ghost var m := M();
      var mem := Grab(Bytes(blank));
      if mem.None? {
        BillEmpty(m, m, d, v / ENTRIES);
        return false, None;
      }
      ghost var n := M();
      ok := MapUser(d, v / ENTRIES, v % ENTRIES, mem.value, 7);
      BillBoth(m, n, M(), M(), d, v / ENTRIES, ok);
      if ok {
        ViewThenOne(m, n, M(), d, v / ENTRIES, v % ENTRIES, Some(View(7, blank)));
        return true, None;
      }
      return false, mem;
    }

    /** Grows the user part from oldsz to newsz with zeroed pages. If pages run out, the address space is
        as it was: what had been mapped is unmapped and freed again. */
    method Alloc(d: nat, oldsz: nat, newsz: nat) returns (r: nat, ghost grown: bool)
      requires Valid() && IsDir(M(), d) && Ends(M(), d, Up(oldsz))
      modifies `pages, `freelist, `list, `owner, `loose
      ensures pages.Keys == old(pages).Keys
      ensures Valid() && SameLoose(old(M()), M()) && (!grown ==> SameView(old(M()), M()))
      ensures newsz >= KERNBASE ==> r == 0 && !grown
      ensures newsz < KERNBASE && newsz < oldsz ==> r == oldsz && !grown
      ensures newsz < KERNBASE && newsz >= oldsz ==> r == if grown then newsz else 0
      ensures newsz < KERNBASE && newsz >= oldsz ==> (grown <==> Price(old(M()), d, Up(oldsz), Up(newsz)) <= |old(list)|)
      ensures grown ==> RangeView(old(M()), M(), d, Up(oldsz), Up(newsz), Some(View(7, blank)))
    {
      ghost var m := M();
      ViewSelf(m);
      grown := false;
      if newsz >= KERNBASE {
        return 0, false;
      }
      if newsz < oldsz {
        return oldsz, false;
      }
      UpOrder(oldsz, newsz);
      ghost var w := Some(View(7, blank));
      var v := Up(oldsz);
      RangeNothing(m, d, v, v, w);
      SpentStart(m, d, v);
      while v * PGSIZE < newsz
        invariant pages.Keys == old(pages).Keys
        invariant Up(oldsz) <= v <= Up(newsz) && Valid() && SameLoose(m, M()) && IsDir(M(), d)
        invariant RangeView(m, M(), d, Up(oldsz), v, w) && Spent(m, M(), d, Up(oldsz), v).holds
      {
        UpMeans(v, newsz);
        ghost var n := M();
        EndsAt(m, n, d, Up(oldsz), v, w);
        var ok, spare := AllocAt(d, v);
        SpentOn(m, n, M(), d, Up(oldsz), v, ok);
        if !ok {
          SpentFails(m, d, Up(oldsz), v, Up(newsz));
          RangeThenView(m, n, M(), d, Up(oldsz), v, w);
          Undo(d, oldsz, newsz, spare, m, v, w);
          return 0, false;
        }
        RangeOne(m, n, M(), d, Up(oldsz), v, w);
        v := v + 1;
      }
      UpMeans(v, newsz);
      SpentEnds(m, M(), d, Up(oldsz), v);
      return newsz, true;
    }

    /** allocuvm's way out: frees what it has mapped, and the page it has in hand. */
    method Undo(d: nat, oldsz: nat, newsz: nat, spare: Option<nat>, ghost m: Mem<B>, ghost v: nat, ghost w: Option<View<B>>)
      requires Valid() && IsDir(m, d) && IsDir(M(), d) && oldsz <= newsz <= KERNBASE && Ends(m, d, Up(oldsz)) && v <= Up(newsz)
      requires RangeView(m, M(), d, Up(oldsz), v, w) && (if spare.Some? then Holding(m, M(), spare.value) else SameLoose(m, M()))
      modifies `pages, `freelist, `list, `owner, `loose
      ensures pages.Keys == old(pages).Keys
      ensures Valid() && SameLoose(m, M()) && SameView(m, M())
    {
      ghost var n := M();
      var r := Dealloc(d, newsz, oldsz);
      ghost var o := M();
      RangeUndone(m, n, o, d, Up(oldsz), v, Up(newsz), w);
      if spare.Some? {
        Kfree(spare.value);
        ViewTwice(m, o, M());
      }
    }

    // ----- freevm -----

    /** Frees directory d with its tables and user pages, each exactly once. */
    method Free(d: nat)
      requires Valid() && IsDir(M(), d)
      modifies `pages, `freelist, `list, `owner, `loose
      ensures pages.Keys == old(pages).Keys
      ensures Valid() && SameLoose(old(M()), M()) && Without(old(M()), M(), d)
      ensures forall k :: k in list <==> k in old(list) || (k in old(owner) && Of(old(owner)[k], k, d))
    {
      ghost var m := M();
      UpOrder(KERNBASE, KERNBASE);
      var r := Dealloc(d, KERNBASE, 0);
      ghost var n := M();
      EmptyBare(m, n, d);
      Dissolve(d);
      FreeTables(d, n);
      ghost var q := M();
      FreeingEnd(n, q, d);
      Kfree(d);
      FreedAll(m, n, Dissolved(n, d), q, M(), d);
      LooseBack(m, n, q, M(), d);
    }

    /** A directory without user pages: nothing refers to it and its tables any more. */
    ghost method Dissolve(d: nat)
      requires Valid() && IsDir(M(), d) && Bare(M(), d)
      modifies `owner, `loose
      ensures Valid() && M() == Dissolved(old(M()), d) && IsTable(old(M()), d) && d !in old(loose)
      ensures loose == old(loose) + ({d} + TablesFrom(old(M()), d, 0))
    {
      ghost var n := M();
      DissolveKeeps(n, d);
      DirFrames(n, d);
      owner, loose := owner - Frames(n, d), loose + Frames(n, d);
    }

    /** freevm's loop over the directory, whose tables nothing refers to any more. */
    method FreeTables(d: nat, ghost n: Mem<B>)
      requires Valid() && M() == Dissolved(n, d) && Inv(n).holds && IsDir(n, d) && IsTable(n, d)
      requires loose == n.loose + ({d} + TablesFrom(n, d, 0))
      modifies `pages, `freelist, `list, `loose
      ensures pages.Keys == old(pages).Keys
      ensures Valid() && Freeing(n, M(), d, ENTRIES).holds && owner == old(owner)
    {
      FreeingStart(n, d);
      var i := 0;
      while i < ENTRIES
        invariant i <= ENTRIES && Valid() && Freeing(n, M(), d, i).holds && owner == old(owner) && pages.Keys == old(pages).Keys
      {
        FreeingAt(n, M(), d, i);
        if pages[d].e[i].Present() {
          ghost var q := M();
          Kfree(pages[d].e[i].page);
          FreeingOn(n, q, M(), d, i);
        }
        i := i + 1;
      }
    }

    // ----- setupkvm -----

    /** mappages for one kernel page, which must not be mapped yet. */
    method MapKernel(d: nat, v: nat, e: Entry) returns (ok: bool)
      requires Valid() && IsDir(M(), d) && USERDIRS * ENTRIES <= v < ENTRIES * ENTRIES && !Slot(M(), d, v / ENTRIES, v % ENTRIES).Present()
      modifies `pages, `freelist, `list, `owner, `loose
      ensures pages.Keys == old(pages).Keys
      ensures Valid() && SameLoose(old(M()), M()) && Grew(old(M()), M(), d)
      ensures if ok then OneSlot(old(M()), M(), d, v, e) else SameView(old(M()), M())
      ensures Bill(old(M()), M(), d, v / ENTRIES, 0, ok).holds
    {
      ghost var m := M();
      PageIndex(v);
      var t := Walk(d, v / ENTRIES, true);
      ok := t.Some?;
      if ok {
        ghost var n := M();
        SetKeeps(n, d, v / ENTRIES, v % ENTRIES, e);
        SetView(n, d, v / ENTRIES, v % ENTRIES, e);
        ViewThenSlot(m, n, Set(n, d, v / ENTRIES, v % ENTRIES, e), d, v, e);
        DirTables(n, d, v / ENTRIES);
        OwnedNotLoose(n, t.value);
        DirTable(n, d);
        BillEntry(m, n, Set(n, d, v / ENTRIES, v % ENTRIES, e), d, v / ENTRIES);
        pages := pages[t.value := Table(pages[t.value].e[v % ENTRIES := e])];
      }
    }

    /** mappages for one line of kmap, page by page. */
    method MapRange(d: nat, kmap: seq<Range>, k: nat, ghost m: Mem<B>) returns (ok: bool)
      requires Valid() && IsDir(M(), d) && KmapOk(kmap) && k < |kmap| && Building(m, M(), d, kmap, k, 0).holds && Built(m, M(), d, kmap, k, 0).holds
      modifies `pages, `freelist, `list, `owner, `loose
      ensures pages.Keys == old(pages).Keys
      ensures Valid() && IsDir(M(), d) && SameLoose(old(M()), M())
      ensures if ok then Building(m, M(), d, kmap, k + 1, 0).holds && Built(m, M(), d, kmap, k + 1, 0).holds
              else Added(m, M(), d).holds && |m.list| < KvmPages(kmap)
    {
      var x := 0;
      ghost var q := M();
      while x < kmap[k].n
        invariant x <= kmap[k].n && Valid() && IsDir(M(), d) && SameLoose(q, M()) && pages.Keys == old(pages).Keys
        invariant Building(m, M(), d, kmap, k, x).holds && Built(m, M(), d, kmap, k, x).holds
      {
        ok := MapNext(d, kmap, k, x, m);
        if !ok {
          return;
        }
        x := x + 1;
      }
      BuildNext(m, M(), d, kmap, k);
      BuiltNext(m, M(), d, kmap, k);
      ok := true;
    }

    /** One round of mappages' loop. */
    method MapNext(d: nat, kmap: seq<Range>, k: nat, x: nat, ghost m: Mem<B>) returns (ok: bool)
      requires Valid() && IsDir(M(), d) && KmapOk(kmap) && k < |kmap| && x < kmap[k].n
      requires Building(m, M(), d, kmap, k, x).holds && Built(m, M(), d, kmap, k, x).holds
      modifies `pages, `freelist, `list, `owner, `loose
      ensures pages.Keys == old(pages).Keys
      ensures Valid() && IsDir(M(), d) && SameLoose(old(M()), M())
      ensures if ok then Building(m, M(), d, kmap, k, x + 1).holds && Built(m, M(), d, kmap, k, x + 1).holds
              else Added(m, M(), d).holds && |m.list| < KvmPages(kmap)
    {
      ghost var n := M();
      NotYet(m, n, d, kmap, k, x);
      ok := MapKernel(d, kmap[k].virt + x, kmap[k].EntryAt(x));
      BuiltOn(m, n, M(), d, kmap, k, x, (kmap[k].virt + x) / ENTRIES, ok);
      if ok {
        BuildOn(m, n, M(), d, kmap, k, x);
      } else {
        AddedView(m, n, M(), d, kmap, k, x);
      }
    }

    /** A new directory with the kernel's mappings and nothing else; none, with every page given back, if
        pages run out. */
    method SetupKvm(kmap: seq<Range>) returns (d: Option<nat>)
      requires Valid() && KmapOk(kmap)
      modifies `pages, `freelist, `list, `owner, `loose
      ensures pages.Keys == old(pages).Keys
      ensures Valid() && SameLoose(old(M()), M())
      ensures d.None? ==> SameView(old(M()), M()) && SameFree(old(M()), M())
      ensures d.Some? ==> IsDir(M(), d.value) && Building(old(M()), M(), d.value, kmap, |kmap|, 0).holds
      ensures d.Some? ==> KernelMapped(M(), d.value, kmap)
      ensures d.Some? ==> |old(list)| == |list| + KvmPages(kmap) && forall y: nat :: y < USERDIRS ==> !HasTable(M(), d.value, y)
      ensures d.Some? <==> KvmPages(kmap) <= |old(list)|
    {
      ghost var m := M();
      d := MakeDir(kmap);
      if d.None? {
        ViewSelf(m);
        return;
      }
      var k := 0;
      while k < |kmap|
        invariant k <= |kmap| && Valid() && IsDir(M(), d.value) && SameLoose(m, M()) && pages.Keys == old(pages).Keys
        invariant Building(m, M(), d.value, kmap, k, 0).holds && Built(m, M(), d.value, kmap, k, 0).holds
      {
        var ok := MapRange(d.value, kmap, k, m);
        if !ok {
          TakeBack(d.value, m);
          return None;
        }
        k := k + 1;
      }
      BuiltEnds(m, M(), d.value, kmap);
      AsMapped(M(), d.value, kmap);
    }

    /** An empty directory. */
    method MakeDir(ghost kmap: seq<Range>) returns (d: Option<nat>)
      requires Valid()
      modifies `pages, `freelist, `list, `owner, `loose
      ensures pages.Keys == old(pages).Keys
      ensures Valid() && SameLoose(old(M()), M())
      ensures d.None? ==> M() == old(M()) && list == []
      ensures d.Some? ==> IsDir(M(), d.value) && Building(old(M()), M(), d.value, kmap, 0, 0).holds && Built(old(M()), M(), d.value, kmap, 0, 0).holds
    {
      ghost var m := M();
      d := Grab(Table(Zeros(ENTRIES)));
      if d.Some? {
        ghost var n := M();
        DirKeeps(n, d.value);
        DirView(n, d.value);
        owner, loose := owner[d.value := Dir], loose - {d.value};
        BuildStart(m, n, M(), d.value, kmap);
        BuiltStart(m, n, M(), d.value, kmap);
      }
    }

    /** Gives back an address space that was added to m. */
    method TakeBack(d: nat, ghost m: Mem<B>)
      requires Valid() && Inv(m).holds && IsDir(M(), d) && Added(m, M(), d).holds && SameLoose(m, M()) && pages.Keys == m.pages.Keys
      modifies `pages, `freelist, `list, `owner, `loose
      ensures pages.Keys == old(pages).Keys
      ensures Valid() && SameLoose(m, M()) && SameView(m, M()) && SameFree(m, M())
    {
      ghost var q := M();
      Free(d);
      TakenBack(m, q, M(), d);
    }

    // ----- copyuvm -----

    /** One round of copyuvm's loop: a copy of page v of s in d. */
    method CopyAt(s: nat, d: nat, v: nat) returns (ok: bool)
      requires Valid() && IsDir(M(), s) && IsDir(M(), d) && v < USERDIRS * ENTRIES
      requires Sees(M(), s, v / ENTRIES, v % ENTRIES).Some? && Sees(M(), d, v / ENTRIES, v % ENTRIES).None?
      modifies `pages, `freelist, `list, `owner, `loose
      ensures pages.Keys == old(pages).Keys
      ensures Valid() && SameLoose(old(M()), M()) && Grew(old(M()), M(), d)
      ensures if ok then OneView(old(M()), M(), d, v / ENTRIES, v % ENTRIES, Sees(old(M()), s, v / ENTRIES, v % ENTRIES)) else SameView(old(M()), M())
      ensures Bill(old(M()), M(), d, v / ENTRIES, 1, ok).holds
    {
      ghost var m := M();
      var i, j := v / ENTRIES, v % ENTRIES;
      var t := Walk(s, i, false);
      SeesUser(m, s, i, j);
      var pte := pages[t.value].e[j];
      var mem := Grab(pages[pte.page]);
      if mem.None? {
        BillEmpty(m, m, d, i);
        return false;
      }
      ghost var n := M();
      ok := MapUser(d, i, j, mem.value, pte.flags);
      ghost var o := M();
      if ok {
        ViewThenOne(m, n, M(), d, i, j, Sees(m, s, i, j));
      } else {
        Kfree(mem.value);
        ViewTwice(m, n, M());
      }
      BillBoth(m, n, o, M(), d, i, ok);
    }

    /** A copy of the user part of s, page by page, on pages of its own; none, with every page given back,
        if pages run out. */
    method Copy(s: nat, sz: nat, kmap: seq<Range>) returns (d: Option<nat>)
      requires Valid() && IsDir(M(), s) && sz <= KERNBASE && KmapOk(kmap)
      requires forall v: nat :: v < Up(sz) ==> Sees(M(), s, v / ENTRIES, v % ENTRIES).Some?
      modifies `pages, `freelist, `list, `owner, `loose
      ensures pages.Keys == old(pages).Keys
      ensures Valid() && SameLoose(old(M()), M())
      ensures d.None? ==> SameView(old(M()), M()) && SameFree(old(M()), M())
      ensures d.Some? ==> Added(old(M()), M(), d.value).holds && Copied(old(M()), M(), s, d.value, Up(sz), kmap).holds
      ensures d.Some? ==> KernelMapped(M(), d.value, kmap)
      ensures d.Some? <==> KvmPages(kmap) + UserPages(Up(sz)) <= |old(list)|
    {
      ghost var m := M();
      d := SetupKvm(kmap);
      if d.None? {
        return;
      }
      UpOrder(sz, KERNBASE);
      CopyStart(m, M(), s, d.value, kmap);
      ghost var m1 := M();
      PriceFresh(m1, d.value, Up(sz));
      SpentStart(m1, d.value, 0);
      var v := 0;
      while v * PGSIZE < sz
        invariant v <= Up(sz) && Valid() && SameLoose(m, M()) && pages.Keys == old(pages).Keys
        invariant Added(m, M(), d.value).holds && Copied(m, M(), s, d.value, v, kmap).holds && Spent(m1, M(), d.value, 0, v).holds
      {
        UpMeans(v, sz);
        ghost var n := M();
        CopyReady(m, n, s, d.value, v, kmap);
        var ok := CopyAt(s, d.value, v);
        SpentOn(m1, n, M(), d.value, 0, v, ok);
        if !ok {
          SpentFails(m1, d.value, 0, v, Up(sz));
          AddedOn(m, n, M(), d.value);
          TakeBack(d.value, m);
          return None;
        }
        CopyOn(m, n, M(), s, d.value, v, kmap);
        v := v + 1;
      }
      UpMeans(v, sz);
      SpentEnds(m1, M(), d.value, 0, v);
      AsMapped(M(), d.value, kmap);
    }

    // ----- uva2ka and copyout's memmove -----

    /** The user page at page number v; Fault where walkpgdir's null is dereferenced. */
    method Uva2ka(d: nat, v: nat) returns (k: Ka)
      requires Valid() && IsDir(M(), d) && v < ENTRIES * ENTRIES
      ensures k.Fault? <==> !HasTable(M(), d, v / ENTRIES)
      ensures k.Mapped? <==> UserMapped(M(), d, v)
      ensures k.Mapped? ==> k.page == Slot(M(), d, v / ENTRIES, v % ENTRIES).page
    {
      DirTable(M(), d);
      var i, j := v / ENTRIES, v % ENTRIES;
      assert i < ENTRIES;
      if !pages[d].e[i].Present() {
        return Fault;
      }
      DirTables(M(), d, i);
      var pte := pages[pages[d].e[i].page].e[j];
      if !pte.Present() || !UserFlag(pte) {
        return Absent;
      }
      return Mapped(pte.page);
    }

    /** memmove to the user page at page number v, whose new contents are x. */
    method Poke(d: nat, v: nat, u: nat, x: B)
      requires Valid() && IsDir(M(), d) && v < USERDIRS * ENTRIES && Slot(M(), d, v / ENTRIES, v % ENTRIES).Present()
      requires u == Slot(M(), d, v / ENTRIES, v % ENTRIES).page
      modifies `pages
      ensures pages.Keys == old(pages).Keys
      ensures Valid() && SameEntries(old(M()), M())
      ensures OneView(old(M()), M(), d, v / ENTRIES, v % ENTRIES, Some(View(Slot(old(M()), d, v / ENTRIES, v % ENTRIES).flags, x)))
    {
      PokeKeeps(M(), d, v / ENTRIES, v % ENTRIES, x);
      pages := pages[u := Bytes(x)];
    }

    // ----- growproc -----

    /** growproc for a process with directory d and size sz; size is curproc->sz afterwards. The user part
        still matches the size, unless the process shrinks to exactly nothing: then the pages are gone but
        -1 is returned and the size stays. */
    method Growproc(d: nat, sz: nat, n: int) returns (r: int, size: nat)
      requires Valid() && IsDir(M(), d) && sz <= KERNBASE && -KERNBASE <= n < KERNBASE && Sized(M(), d, sz)
      modifies `pages, `freelist, `list, `owner, `loose
      ensures pages.Keys == old(pages).Keys
      ensures Valid() && SameLoose(old(M()), M()) && (r == 0 || r == -1)
      ensures Sized(M(), d, size) <==> !(n < 0 < sz && sz + n == 0)
      ensures r == -1 ==> size == sz
      ensures n <= 0 ==> (r == -1 <==> n < 0 && (sz == 0 || sz + n == 0))
      ensures n > 0 ==> (r == 0 <==> sz + n < KERNBASE && Price(old(M()), d, Up(sz), Up(sz + n)) <= |old(list)|)
      ensures r == 0 ==> size == if sz + n < 0 then sz else sz + n
      ensures r == 0 && n > 0 ==> RangeView(old(M()), M(), d, Up(sz), Up(size), Some(View(7, blank)))
      ensures r == 0 && n <= 0 ==> RangeView(old(M()), M(), d, Up(size), Up(sz), None)
      ensures r == -1 ==> RangeView(old(M()), M(), d, if n < 0 < sz then 0 else Up(sz), Up(sz), None)
    {
      ghost var m := M();
      SizedEnds(m, d, sz);
      UpOrder(sz, KERNBASE);
      var t := sz;
      if n > 0 {
        if sz + n > KERNBASE {
          return -1, sz;
        }
        ghost var grown;
        t, grown := Alloc(d, sz, sz + n);
        if t == 0 {
          SizedView(m, M(), d, sz);
          return -1, sz;
        }
        SizedGrown(m, M(), d, sz, sz + n, Some(View(7, blank)));
      } else if n < 0 {
        t := Dealloc(d, sz, if sz + n < 0 then sz + n + 0x1_0000_0000 else sz + n);
        if sz + n < 0 {
          UpOrder(sz, sz + n + 0x1_0000_0000);
          SizedSame(m, M(), d, sz, Up(sz + n + 0x1_0000_0000));
        } else {
          SizedShrunk(m, M(), d, sz, sz + n);
        }
        if t == 0 {
          if sz > 0 {
            NotSized(M(), d, sz);
          }
          return -1, sz;
        }
      } else {
        RangeNothing(m, d, Up(sz), Up(sz), None);
      }
      return 0, t;
    }
  }
}
