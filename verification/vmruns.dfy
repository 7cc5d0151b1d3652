/** Runs of vm.c that end badly, for any kernel mappings and any memory that is large enough. */
module VmRuns {
  import opened Basics
  import opened Words
  import opened VmPages
  import opened VmSteps
  import opened VmLedger
  import opened VirtualMemory
  import opened CopyOut

  const BLANK: PageBytes := seq(PGSIZE, _ => 0)

  /** A new address space in a memory of n pages. */
  method Start(kmap: seq<Range>, n: nat) returns (mem: Memory<PageBytes>, d: nat)
    requires KmapOk(kmap) && KvmPages(kmap) + 2 <= n
    ensures fresh(mem) && mem.Valid() && IsDir(mem.M(), d) && Sized(mem.M(), d, 0) && 2 <= |mem.list|
    ensures (forall y: nat :: y < USERDIRS ==> !HasTable(mem.M(), d, y)) && Mapping(mem.M(), d, kmap)
  {
    mem := new Memory(0, n, BLANK);
    var dir := mem.SetupKvm(kmap);
    d := dir.value;
  }

  /** The kernel part of d is that of kmap. */
  ghost predicate Mapping<B>(m: Mem<B>, d: nat, kmap: seq<Range>) {
    forall y: nat, z: nat :: USERDIRS <= y && z < ENTRIES ==> Slot(m, d, y, z) == Kern(kmap, |kmap|, 0, y * ENTRIES + z)
  }

  /** A process of one page gives it back: growproc frees the page, answers -1 and leaves the size. */
  method ShrinkRun(kmap: seq<Range>, n: nat) returns (mem: Memory<PageBytes>, d: nat, r: int, size: nat)
    requires KmapOk(kmap) && KvmPages(kmap) + 2 <= n
    ensures fresh(mem) && mem.Valid() && r == -1 && size == PGSIZE && !Sized(mem.M(), d, size)
  {
    mem, d := Start(kmap, n);
    r, size := mem.Growproc(d, 0, PGSIZE);
    r, size := mem.Growproc(d, PGSIZE, -PGSIZE);
  }

  /** No line of kmap has the user flag. */
  ghost predicate NoUserFlag(kmap: seq<Range>) {
    forall k :: 0 <= k < |kmap| ==> kmap[k].perm / 4 % 2 == 0
  }

  lemma LineFlag(r: Range, x: nat)
    ensures UserFlag(r.EntryAt(x)) <==> r.perm / 4 % 2 == 1
  {
    var q, h := r.perm / 4, r.perm / 2;
    assert 4 * q <= r.perm <= 4 * q + 3;
    assert 2 * q <= h <= 2 * q + 1;
    assert (h * 2 + 1) / 4 == q;
  }

  lemma {:induction false} KernFlag(kmap: seq<Range>, k: nat, x: nat, v: nat)
    requires NoUserFlag(kmap) && k <= |kmap|
    ensures !UserFlag(Kern(kmap, k, x, v))
    decreases k
  {
    if k < |kmap| && x > 0 && kmap[k].virt <= v < kmap[k].virt + x {
      LineFlag(kmap[k], v - kmap[k].virt);
    } else if k > 0 {
      KernFlag(kmap, k - 1, kmap[k - 1].n, v);
    }
  }

  lemma KernelOnlyBy(m: Mem<PageBytes>, d: nat, kmap: seq<Range>)
    requires NoUserFlag(kmap) && Mapping(m, d, kmap)
    ensures KernelOnly(m, d)
  {
    forall v: nat | USERDIRS * ENTRIES <= v < ENTRIES * ENTRIES ensures !UserMapped(m, d, v) {
      PageIndex(v);
      KernFlag(kmap, |kmap|, 0, v / ENTRIES * ENTRIES + v % ENTRIES);
    }
  }

  lemma NotThere(m: Mem<PageBytes>, d: nat)
    requires IsDir(m, d) && !HasTable(m, d, 0)
    ensures !UserMapped(m, d, 0) && !Reaches(m, d, 0, 1)
  {
    assert Slot(m, d, 0, 0) == Zero;
    assert !UserMapped(m, d, 0 / PGSIZE);
  }

  /** copyout to address 0 of a new address space dereferences the missing table. */
  method FaultRun(kmap: seq<Range>, n: nat) returns (mem: Memory<PageBytes>, out: Outcome)
    requires KmapOk(kmap) && NoUserFlag(kmap) && KvmPages(kmap) + 2 <= n
    ensures fresh(mem) && mem.Valid() && out.Faulted?
  {
    var d;
    mem, d := Start(kmap, n);
    KernelOnlyBy(mem.M(), d, kmap);
    assert !HasTable(mem.M(), d, 0);
    NotThere(mem.M(), d);
    ghost var w;
    out, w := Copyout(mem, d, 0, [1]);
  }
}
