/** copyout of vm.c, with the bytes of the pages. */
module CopyOut {
  import opened Basics
  import opened Words
  import opened VmPages
  import opened VmSteps
  import opened VirtualMemory

  type PageBytes = s: seq<Byte> | |s| == PGSIZE witness seq(PGSIZE, _ => 0)

  /** copyout returns 0, returns -1, or faults in uva2ka. */
  datatype Outcome = Copied | Refused | Faulted

  /** The byte at user address a. */
  ghost function UserByte(m: Mem<PageBytes>, d: nat, a: nat): (x: Option<Byte>) {
    var v := Sees(m, d, a / PGSIZE / ENTRIES, a / PGSIZE % ENTRIES);
    if v.None? then None else Some(v.value.b[a % PGSIZE])
  }

  /** The kernel's mappings are not the user's, as in kmap. */
  ghost predicate KernelOnly(m: Mem<PageBytes>, d: nat) {
    forall v: nat :: USERDIRS * ENTRIES <= v < ENTRIES * ENTRIES ==> !UserMapped(m, d, v)
  }

  /** The first w bytes of p are at va, and every other byte of every address space is as it was. */
  ghost predicate Holds(m: Mem<PageBytes>, n: Mem<PageBytes>, d: nat, va: nat, p: seq<Byte>, w: nat) {
    && w <= |p| && SameDirs(m, n)
    && forall x, a: nat :: IsDir(m, x) ==> UserByte(n, x, a) == if x == d && va <= a < va + w then Some(p[a - va]) else UserByte(m, x, a)
  }

  /** Every page that holds one of the len bytes at va is the user's. */
  ghost predicate Reaches(m: Mem<PageBytes>, d: nat, va: nat, len: nat) {
    forall a: nat {:trigger UserMapped(m, d, a / PGSIZE)} :: va <= a < va + len ==> UserMapped(m, d, a / PGSIZE)
  }

  function Patched(b: PageBytes, at: nat, piece: seq<Byte>): (r: PageBytes)
    requires at + |piece| <= PGSIZE
    ensures forall k :: 0 <= k < PGSIZE ==> r[k] == if at <= k < at + |piece| then piece[k - at] else b[k]
  {
    b[..at] + piece + b[at + |piece|..]
  }

  lemma SamePage(a: nat, v: nat)
    ensures a / PGSIZE / ENTRIES == v / ENTRIES && a / PGSIZE % ENTRIES == v % ENTRIES <==> a / PGSIZE == v
  {
  }

  /** One byte of the page that memmove has written to. */
  lemma PatchedByte(n: Mem<PageBytes>, o: Mem<PageBytes>, d: nat, v: nat, flags: nat, b: PageBytes, at: nat, piece: seq<Byte>, x: nat, a: nat)
    requires at + |piece| <= PGSIZE && IsDir(n, d) && IsDir(n, x)
    requires Sees(n, d, v / ENTRIES, v % ENTRIES) == Some(View(flags, b))
    requires OneView(n, o, d, v / ENTRIES, v % ENTRIES, Some(View(flags, Patched(b, at, piece))))
    ensures UserByte(o, x, a) ==
      if x == d && v * PGSIZE + at <= a < v * PGSIZE + at + |piece| then Some(piece[a - (v * PGSIZE + at)]) else UserByte(n, x, a)
  {
    SamePage(a, v);
    assert a == a / PGSIZE * PGSIZE + a % PGSIZE;
  }

  lemma HoldsOn(m: Mem<PageBytes>, n: Mem<PageBytes>, o: Mem<PageBytes>, d: nat, va: nat, p: seq<Byte>, w: nat,
                v: nat, flags: nat, b: PageBytes, at: nat, k: nat)
    requires Holds(m, n, d, va, p, w) && IsDir(m, d) && w + k <= |p| && at + k <= PGSIZE && va + w == v * PGSIZE + at
    requires Sees(n, d, v / ENTRIES, v % ENTRIES) == Some(View(flags, b))
    requires OneView(n, o, d, v / ENTRIES, v % ENTRIES, Some(View(flags, Patched(b, at, p[w..w + k]))))
    ensures Holds(m, o, d, va, p, w + k)
  {
    forall x, a: nat | IsDir(m, x) ensures UserByte(o, x, a) == if x == d && va <= a < va + w + k then Some(p[a - va]) else UserByte(m, x, a) {
      PatchedByte(n, o, d, v, flags, b, at, p[w..w + k], x, a);
    }
  }

  lemma ReachesOn(m: Mem<PageBytes>, d: nat, va: nat, w: nat, k: nat)
    requires Reaches(m, d, va, w) && UserMapped(m, d, (va + w) / PGSIZE) && (va + w) % PGSIZE + k <= PGSIZE
    ensures Reaches(m, d, va, w + k)
  {
    forall a: nat | va <= a < va + w + k ensures UserMapped(m, d, a / PGSIZE) {
      if a >= va + w {
        assert a / PGSIZE == (va + w) / PGSIZE;
      }
    }
  }

  lemma SameMapped(m: Mem<PageBytes>, n: Mem<PageBytes>, d: nat, v: nat)
    requires SameEntries(m, n) && IsDir(m, d)
    ensures UserMapped(n, d, v) == UserMapped(m, d, v) && HasTable(n, d, v / ENTRIES) == HasTable(m, d, v / ENTRIES)
  {
  }

  /** Copies p to user address va, page by page, and stops at the first page that is not the user's. */
  method Copyout(mem: Memory<PageBytes>, d: nat, va: nat, p: seq<Byte>) returns (out: Outcome, ghost w: nat)
    requires mem.Valid() && IsDir(mem.M(), d) && KernelOnly(mem.M(), d) && va < PGSIZE * (ENTRIES * ENTRIES)
    modifies mem`pages
    ensures mem.Valid() && SameEntries(old(mem.M()), mem.M()) && Holds(old(mem.M()), mem.M(), d, va, p, w)
    ensures out.Copied? <==> Reaches(old(mem.M()), d, va, |p|)
    ensures out.Copied? ==> w == |p|
    ensures !out.Copied? ==> w < |p| && Reaches(old(mem.M()), d, va, w) && !UserMapped(old(mem.M()), d, (va + w) / PGSIZE)
    ensures !out.Copied? ==> (out.Faulted? <==> !HasTable(old(mem.M()), d, (va + w) / PGSIZE / ENTRIES))
  {
    ghost var m := mem.M();
    var done := 0;
    while done < |p|
      invariant done <= |p| && mem.Valid() && SameEntries(m, mem.M()) && Holds(m, mem.M(), d, va, p, done) && Reaches(m, d, va, done)
      invariant done == 0 || done == |p| || (va + done) % PGSIZE == 0
      invariant done > 0 ==> (va + done - 1) / PGSIZE < USERDIRS * ENTRIES
    {
      var k, out' := CopyNext(mem, d, va, p, done, m);
      if k == 0 {
        w := done;
        return out', w;
      }
      done := done + k;
    }
    w := done;
    out := Copied;
  }

  /** One round of copyout's loop: the k bytes that go into one page, or none and the reason. */
  method CopyNext(mem: Memory<PageBytes>, d: nat, va: nat, p: seq<Byte>, done: nat, ghost m: Mem<PageBytes>) returns (k: nat, out: Outcome)
    requires mem.Valid() && IsDir(m, d) && KernelOnly(m, d) && va < PGSIZE * (ENTRIES * ENTRIES) && done < |p|
    requires SameEntries(m, mem.M()) && Holds(m, mem.M(), d, va, p, done) && Reaches(m, d, va, done)
    requires done == 0 || (va + done) % PGSIZE == 0
    requires done > 0 ==> (va + done - 1) / PGSIZE < USERDIRS * ENTRIES
    modifies mem`pages
    ensures mem.Valid() && SameEntries(m, mem.M()) && done + k <= |p| && Holds(m, mem.M(), d, va, p, done + k)
    ensures k > 0 ==> Reaches(m, d, va, done + k) && (done + k == |p| || (va + done + k) % PGSIZE == 0)
    ensures k > 0 ==> (va + done + k - 1) / PGSIZE < USERDIRS * ENTRIES
    ensures k == 0 ==> !out.Copied? && !UserMapped(m, d, (va + done) / PGSIZE)
    ensures k == 0 ==> (out.Faulted? <==> !HasTable(m, d, (va + done) / PGSIZE / ENTRIES))
  {
    var v, at := (va + done) / PGSIZE, (va + done) % PGSIZE;
    assert v < ENTRIES * ENTRIES;
    SameMapped(m, mem.M(), d, v);
    var pa := mem.Uva2ka(d, v);
    k := 0;
    match pa
    case Fault => out := Faulted;
    case Absent => out := Refused;
    case Mapped(u) =>
      out := Copied;
      k := if PGSIZE - at > |p| - done then |p| - done else PGSIZE - at;
      Move(mem, d, va, p, done, m, v, at, k, u);
      ReachesOn(m, d, va, done, k);
  }

  /** memmove(pa0 + (va - va0), buf, n). */
  method Move(mem: Memory<PageBytes>, d: nat, va: nat, p: seq<Byte>, done: nat, ghost m: Mem<PageBytes>, v: nat, at: nat, k: nat, u: nat)
    requires mem.Valid() && IsDir(m, d) && SameEntries(m, mem.M()) && Holds(m, mem.M(), d, va, p, done)
    requires v < USERDIRS * ENTRIES && done + k <= |p| && at + k <= PGSIZE && va + done == v * PGSIZE + at
    requires Slot(mem.M(), d, v / ENTRIES, v % ENTRIES).Present() && u == Slot(mem.M(), d, v / ENTRIES, v % ENTRIES).page
    modifies mem`pages
    ensures mem.Valid() && SameEntries(m, mem.M()) && Holds(m, mem.M(), d, va, p, done + k)
  {
    ghost var n := mem.M();
    SeesUser(n, d, v / ENTRIES, v % ENTRIES);
    var b := mem.pages[u].b;
    mem.Poke(d, v, u, Patched(b, at, p[done..done + k]));
    HoldsOn(m, n, mem.M(), d, va, p, done, v, Slot(n, d, v / ENTRIES, v % ENTRIES).flags, b, at, k);
  }
}
