/** How many free blocks readi and writei use up, and what that does to the inode: which writes are cut
    short, and when the disk copy of an inode falls behind. */
module FsLedger {
  import opened Basics
  import opened Words
  import opened Geometry
  import opened Layout
  import opened Ownership
  import opened FsSteps

  /** Always true; the records of what was spent are looked into only where this is mentioned. */
  ghost predicate Audit(n: nat) {
    true
  }

  // ----- free blocks -----

  ghost function FreeSet(f: Files): (r: set<nat>) {
    set b | b in f.disk.data && Free(f, b)
  }

  lemma OneTaken(f: Files, g: Files, b: nat)
    requires Free(f, b) && g.disk.used == f.disk.used + {b} && g.disk.data.Keys == f.disk.data.Keys
    ensures |FreeSet(f)| == |FreeSet(g)| + 1
  {
    assert FreeSet(f) == FreeSet(g) + {b};
  }

  lemma SameFree(f: Files, g: Files)
    requires g.disk.used == f.disk.used && g.disk.data.Keys == f.disk.data.Keys
    ensures FreeSet(g) == FreeSet(f)
  {
  }

  lemma NoneFree(sb: Super, d: seq<Block>, mem: map<nat, Inode>, f: Files)
    requires Shows(sb, d, mem, f) && Exhausted(sb, f)
    ensures FreeSet(f) == {}
  {
    assert Open(sb);
    assert forall b :: b in f.disk.data ==> b == 0 || sb.Data(b);
  }

  // ----- one call of bmap -----

  /** What bmap(n, bn), which returned a, took: a block for the slot and one for the table, if they were
      missing and there were any left. */
  ghost function Spent(f: Files, g: Files, n: nat, bn: nat, a: Word): (r: Claim) {
    Claim(
      && n in f.mem && n in g.mem && f.IsInode(n) && g.IsInode(n) && bn < MAXFILE
      && |FreeSet(f)| == |FreeSet(g)| + (if f.Addr(n, bn) == 0 && a != 0 then 1 else 0)
                       + (if f.mem[n].addrs[NDIRECT] == 0 && g.mem[n].addrs[NDIRECT] != 0 then 1 else 0)
      && (a == 0 ==> FreeSet(g) == {})
      && (if bn < NDIRECT then g.mem[n].addrs[NDIRECT] == f.mem[n].addrs[NDIRECT] && (a == 0 ==> FreeSet(f) == {})
          else (a != 0 ==> g.mem[n].addrs[NDIRECT] != 0) && (g.mem[n].addrs[NDIRECT] == 0 ==> FreeSet(f) == {})))
  }

  /** Slot s was filled with block b, which was free, or was not touched. */
  ghost predicate Step(f: Files, g: Files, s: Slot, b: Word) {
    g == f || (Filled(f, g, s, b).holds && Free(f, b))
  }

  lemma SpentDirect(f: Files, g: Files, n: nat, bn: nat, a: Word)
    requires Step(f, g, Direct(n, bn), a) && n in f.mem && n in g.mem && f.IsInode(n) && g.IsInode(n) && bn < NDIRECT && a == g.mem[n].addrs[bn]
    requires a == 0 ==> FreeSet(g) == {}
    ensures Spent(f, g, n, bn, a).holds
  {
    if g != f {
      OneTaken(f, g, a);
      assert f.IsSlot(Direct(n, NDIRECT)) && g.Ptr(Direct(n, NDIRECT)) == f.Ptr(Direct(n, NDIRECT));
    }
  }

  /** The step that fills the table's slot. */
  lemma TableSpent(f: Files, g: Files, n: nat, t: Word)
    requires Step(f, g, Direct(n, NDIRECT), t) && n in f.mem && n in g.mem && f.IsInode(n) && g.IsInode(n) && t == g.mem[n].addrs[NDIRECT]
    requires t == 0 ==> FreeSet(g) == {}
    ensures |FreeSet(f)| == |FreeSet(g)| + (if f.mem[n].addrs[NDIRECT] == 0 && t != 0 then 1 else 0)
    ensures t == 0 ==> FreeSet(f) == {}
    ensures forall j: nat :: j < NINDIRECT ==> g.Ptr(Entry(n, j)) == f.Ptr(Entry(n, j))
  {
    if g != f {
      OneTaken(f, g, t);
      assert f.Ptr(Direct(n, NDIRECT)) == 0;
      forall j: nat | j < NINDIRECT ensures g.Ptr(Entry(n, j)) == f.Ptr(Entry(n, j)) {
        assert f.IsSlot(Entry(n, j));
      }
    }
  }

  /** The step that fills the entry. */
  lemma EntrySpent(f: Files, g: Files, n: nat, j: nat, a: Word)
    requires Step(f, g, Entry(n, j), a) && n in f.mem && n in g.mem && f.IsInode(n) && g.IsInode(n) && j < NINDIRECT && a == g.Ptr(Entry(n, j))
    requires a == 0 ==> FreeSet(g) == {}
    ensures |FreeSet(f)| == |FreeSet(g)| + (if f.Ptr(Entry(n, j)) == 0 && a != 0 then 1 else 0)
    ensures g.mem[n].addrs[NDIRECT] == f.mem[n].addrs[NDIRECT]
  {
    if g != f {
      OneTaken(f, g, a);
      assert f.IsSlot(Direct(n, NDIRECT)) && g.Ptr(Direct(n, NDIRECT)) == f.Ptr(Direct(n, NDIRECT));
    }
  }

  lemma SpentIndirect(f: Files, e: Files, g: Files, n: nat, j: nat, a: Word)
    requires n in f.mem && n in e.mem && n in g.mem && f.IsInode(n) && e.IsInode(n) && g.IsInode(n) && j < NINDIRECT
    requires var t := e.mem[n].addrs[NDIRECT];
      |FreeSet(f)| == |FreeSet(e)| + (if f.mem[n].addrs[NDIRECT] == 0 && t != 0 then 1 else 0) && (t == 0 ==> FreeSet(f) == {} && FreeSet(e) == {})
    requires e.Ptr(Entry(n, j)) == f.Ptr(Entry(n, j)) && g.mem[n].addrs[NDIRECT] == e.mem[n].addrs[NDIRECT]
    requires |FreeSet(e)| == |FreeSet(g)| + (if e.Ptr(Entry(n, j)) == 0 && a != 0 then 1 else 0) && (a == 0 ==> FreeSet(g) == {})
    requires a != 0 ==> g.mem[n].addrs[NDIRECT] != 0
    ensures Spent(f, g, n, NDIRECT + j, a).holds
  {
    assert f.Addr(n, NDIRECT + j) == f.Ptr(Entry(n, j));
  }

  // ----- a row of blocks -----

  /** How many of the file's blocks from lo up to hi are missing. */
  ghost function Holes(f: Files, n: nat, lo: nat, hi: nat): (k: nat)
    requires f.IsInode(n) && hi <= MAXFILE
    decreases hi
  {
    if lo >= hi then 0 else Holes(f, n, lo, hi - 1) + if f.Addr(n, hi - 1) == 0 then 1 else 0
  }

  /** The table is missing and one of these blocks needs it. */
  ghost predicate NoTable(ip: Inode, lo: nat, hi: nat) {
    lo < hi && NDIRECT < hi && ip.addrs[NDIRECT] == 0
  }

  /** The blocks it takes to fill the holes from lo up to hi. */
  ghost function Need(f: Files, n: nat, lo: nat, hi: nat): (k: nat)
    requires f.IsInode(n) && hi <= MAXFILE
  {
    Holes(f, n, lo, hi) + if NoTable(f.Cur(n), lo, hi) then 1 else 0
  }

  /** A slot of the inode itself, for one of these blocks or for the table it needs, is empty. */
  ghost predicate Gap(ip: Inode, lo: nat, hi: nat) {
    NoTable(ip, lo, hi) || exists i :: lo <= i < hi && i < NDIRECT && ip.addrs[i] == 0
  }

  /** g is f after bmap succeeded for every block from lo up to k. */
  ghost function Ledger(f: Files, g: Files, n: nat, lo: nat, k: nat): (r: Claim) {
    Claim(
      && n in f.mem && n in g.mem && f.IsInode(n) && g.IsInode(n) && lo <= k <= MAXFILE
      && |FreeSet(f)| == |FreeSet(g)| + Need(f, n, lo, k)
      && (forall bn: nat :: bn < MAXFILE ==> (g.Addr(n, bn) == 0 <==> f.Addr(n, bn) == 0 && !(lo <= bn < k)))
      && (g.mem[n].addrs[NDIRECT] == 0 <==> f.mem[n].addrs[NDIRECT] == 0 && !(lo < k && NDIRECT < k))
      && (forall i :: 0 <= i <= NDIRECT && f.mem[n].addrs[i] != 0 ==> g.mem[n].addrs[i] == f.mem[n].addrs[i]))
  }

  lemma LedgerStart(f: Files, n: nat, lo: nat)
    requires n in f.mem && f.IsInode(n) && lo <= MAXFILE
    ensures Ledger(f, f, n, lo, lo).holds
  {
  }

  /** bmap changed the slots it should and no others. */
  lemma MappedSlots(f: Files, g: Files, n: nat, bn: nat, a: Word)
    requires Mapped(f, g, n, bn, a) && n in f.mem && n in g.mem && f.IsInode(n) && g.IsInode(n)
    ensures forall m: nat :: m < MAXFILE && m != bn ==> g.Addr(n, m) == f.Addr(n, m)
    ensures g.Addr(n, bn) == a && (f.Addr(n, bn) != 0 ==> a == f.Addr(n, bn))
    ensures forall i :: 0 <= i <= NDIRECT && f.mem[n].addrs[i] != 0 ==> g.mem[n].addrs[i] == f.mem[n].addrs[i]
  {
    forall m: nat | m < MAXFILE && m != bn ensures g.Addr(n, m) == f.Addr(n, m) {
      assert f.IsSlot(SlotOf(n, m));
    }
    assert f.IsSlot(SlotOf(n, bn));
    forall i | 0 <= i <= NDIRECT && f.mem[n].addrs[i] != 0 ensures g.mem[n].addrs[i] == f.mem[n].addrs[i] {
      assert f.IsSlot(Direct(n, i)) && f.Ptr(Direct(n, i)) == f.mem[n].addrs[i];
    }
  }

  lemma LedgerOn(f: Files, e: Files, g: Files, n: nat, lo: nat, k: nat, a: Word)
    requires Ledger(f, e, n, lo, k).holds && Spent(e, g, n, k, a).holds && a != 0
    requires forall m: nat :: m < MAXFILE && m != k ==> g.Addr(n, m) == e.Addr(n, m)
    requires g.Addr(n, k) == a
    requires forall i :: 0 <= i <= NDIRECT && e.mem[n].addrs[i] != 0 ==> g.mem[n].addrs[i] == e.mem[n].addrs[i]
    ensures Ledger(f, g, n, lo, k + 1).holds
  {
    assert f.Cur(n) == f.mem[n];
  }

  /** Anything that moves no block and takes none. */
  lemma LedgerStill(f: Files, e: Files, g: Files, n: nat, lo: nat, k: nat)
    requires Ledger(f, e, n, lo, k).holds && n in e.mem && n in g.mem && e.IsInode(n) && g.IsInode(n) && g.mem[n].addrs == e.mem[n].addrs
    requires g.disk.used == e.disk.used && g.disk.data == e.disk.data
    ensures Ledger(f, g, n, lo, k).holds
  {
    SameFree(e, g);
    forall bn: nat | bn < MAXFILE ensures g.Addr(n, bn) == e.Addr(n, bn) {
    }
  }

  lemma {:induction false} HolesGrow(f: Files, n: nat, lo: nat, k: nat, hi: nat)
    requires f.IsInode(n) && k <= hi <= MAXFILE
    ensures Holes(f, n, lo, k) <= Holes(f, n, lo, hi)
    decreases hi
  {
    if k < hi {
      HolesGrow(f, n, lo, k, hi - 1);
    }
  }

  lemma NeedGrows(f: Files, n: nat, lo: nat, k: nat, hi: nat)
    requires f.IsInode(n) && k <= hi <= MAXFILE
    ensures Need(f, n, lo, k) <= Need(f, n, lo, hi)
  {
    HolesGrow(f, n, lo, k, hi);
  }

  lemma {:induction false} HolesSeen(f: Files, n: nat, lo: nat, hi: nat, bn: nat)
    requires f.IsInode(n) && lo <= bn < hi <= MAXFILE && f.Addr(n, bn) == 0
    ensures Holes(f, n, lo, hi) > 0
    decreases hi
  {
    if bn < hi - 1 {
      HolesSeen(f, n, lo, hi - 1, bn);
    }
  }

  lemma {:induction false} HolesNone(f: Files, n: nat, lo: nat, hi: nat)
    requires f.IsInode(n) && hi <= MAXFILE && forall bn: nat :: lo <= bn < hi ==> f.Addr(n, bn) != 0
    ensures Holes(f, n, lo, hi) == 0
    decreases hi
  {
    if lo < hi {
      HolesNone(f, n, lo, hi - 1);
    }
  }

  lemma GapNeeds(f: Files, n: nat, lo: nat, hi: nat)
    requires f.IsInode(n) && hi <= MAXFILE && Gap(f.Cur(n), lo, hi)
    ensures Need(f, n, lo, hi) > 0
  {
    if !NoTable(f.Cur(n), lo, hi) {
      var i :| lo <= i < hi && i < NDIRECT && f.Cur(n).addrs[i] == 0;
      HolesSeen(f, n, lo, hi, i);
    }
  }

  /** The inode's own block numbers have changed exactly if one of them was missing. */
  lemma LedgerAddrs(f: Files, g: Files, n: nat, lo: nat, k: nat)
    requires Ledger(f, g, n, lo, k).holds
    ensures n in f.mem && n in g.mem && (g.mem[n].addrs == f.mem[n].addrs <==> !(Gap(f.mem[n], lo, k) && FreeSet(f) != {}))
  {
    if Gap(f.mem[n], lo, k) {
      GapNeeds(f, n, lo, k);
      if !NoTable(f.mem[n], lo, k) {
        var i :| lo <= i < k && i < NDIRECT && f.mem[n].addrs[i] == 0;
        assert f.Addr(n, i) == 0 && g.Addr(n, i) != 0 && g.Addr(n, i) == g.mem[n].addrs[i];
      }
    } else {
      forall i | 0 <= i <= NDIRECT ensures g.mem[n].addrs[i] == f.mem[n].addrs[i] {
        if i < NDIRECT {
          assert f.Addr(n, i) == f.mem[n].addrs[i] && g.Addr(n, i) == g.mem[n].addrs[i];
        }
      }
    }
  }

  /** bmap succeeded for the blocks from lo up to k and then, if not ok, found no block left. */
  ghost function Tally(f: Files, g: Files, n: nat, lo: nat, k: nat, ok: bool): (r: Claim) {
    Claim(
      && n in f.mem && n in g.mem && f.IsInode(n) && g.IsInode(n) && lo <= k && k + (if ok then 0 else 1) <= MAXFILE
      && Need(f, n, lo, k) <= |FreeSet(f)| && (ok ==> |FreeSet(f)| == |FreeSet(g)| + Need(f, n, lo, k))
      && (!ok ==> |FreeSet(f)| < Need(f, n, lo, k + 1) && FreeSet(g) == {})
      && (g.mem[n].addrs == f.mem[n].addrs <==> !(Gap(f.mem[n], lo, if ok then k else k + 1) && FreeSet(f) != {})))
  }

  lemma LedgerTally(f: Files, g: Files, n: nat, lo: nat, k: nat)
    requires Ledger(f, g, n, lo, k).holds
    ensures Tally(f, g, n, lo, k, true).holds
  {
    LedgerAddrs(f, g, n, lo, k);
  }

  /** Whether the failing call has got a table does not show before it: nothing else was missing. */
  lemma NoGapYet(f: Files, e: Files, n: nat, lo: nat, k: nat)
    requires Ledger(f, e, n, lo, k).holds && k < MAXFILE && !Gap(f.mem[n], lo, k) && Gap(f.mem[n], lo, k + 1)
    ensures |FreeSet(f)| == |FreeSet(e)|
    ensures if k < NDIRECT then f.mem[n].addrs[k] == 0 else f.mem[n].addrs[NDIRECT] == 0
  {
    if k < NDIRECT || lo == k || k == NDIRECT {
      forall bn: nat | lo <= bn < k ensures f.Addr(n, bn) != 0 {
        assert f.Addr(n, bn) == f.mem[n].addrs[bn];
      }
      HolesNone(f, n, lo, k);
    }
  }

  lemma LedgerShort(f: Files, e: Files, g: Files, n: nat, lo: nat, k: nat)
    requires Ledger(f, e, n, lo, k).holds && Spent(e, g, n, k, 0).holds
    requires e.Addr(n, k) == 0 && (forall m: nat :: m < MAXFILE ==> g.Addr(n, m) == e.Addr(n, m))
    requires forall i :: 0 <= i <= NDIRECT && e.mem[n].addrs[i] != 0 ==> g.mem[n].addrs[i] == e.mem[n].addrs[i]
    ensures Tally(f, g, n, lo, k, false).holds
  {
    LedgerAddrs(f, e, n, lo, k);
    assert f.Addr(n, k) == 0;
    forall i | 0 <= i < NDIRECT ensures g.mem[n].addrs[i] == e.mem[n].addrs[i] {
      assert e.Addr(n, i) == e.mem[n].addrs[i] && g.Addr(n, i) == g.mem[n].addrs[i];
    }
    if !Gap(f.mem[n], lo, k) && Gap(f.mem[n], lo, k + 1) {
      NoGapYet(f, e, n, lo, k);
    }
  }

  /** An unsuccessful walk has met the first gap, if there is one and there was a block to fill it. */
  lemma GapEarly(f: Files, n: nat, lo: nat, k: nat, hi: nat)
    requires f.IsInode(n) && lo <= k < hi <= MAXFILE && Need(f, n, lo, k) < Need(f, n, lo, k + 1)
    ensures Gap(f.Cur(n), lo, k + 1) <==> Gap(f.Cur(n), lo, hi)
  {
    var ip := f.Cur(n);
    if Gap(ip, lo, hi) && !NoTable(ip, lo, hi) {
      var i :| lo <= i < hi && i < NDIRECT && ip.addrs[i] == 0;
      if k < NDIRECT {
        assert f.Addr(n, k) == ip.addrs[k];
      }
    }
  }

  // ----- bytes and blocks -----

  /** The first block after those that len bytes at off are in. */
  function EndBlock(off: nat, len: nat): (k: nat) {
    if len == 0 then off / BSIZE else (off + len - 1) / BSIZE + 1
  }

  lemma EndBlockNext(off: nat, tot: nat, m: nat)
    requires OneBlock(off, tot, m).holds
    ensures EndBlock(off, tot) == (off + tot) / BSIZE && EndBlock(off, tot + m) == (off + tot) / BSIZE + 1
    ensures (off + tot) / BSIZE < MAXFILE
  {
  }

  lemma EndBlockBound(off: nat, len: nat)
    requires off + len <= MAXBYTES
    ensures off / BSIZE <= EndBlock(off, len) <= MAXFILE
  {
  }

  lemma EndBlockGrows(off: nat, t: nat, len: nat)
    requires t < len && (t == 0 || (off + t) % BSIZE == 0)
    ensures EndBlock(off, t) + 1 <= EndBlock(off, len)
  {
  }

  // ----- the loops of readi and writei -----

  /** bmap(n, bn) returned a, and nothing else moved or took a block. */
  ghost predicate TurnIs(f: Files, g: Files, n: nat, bn: nat, a: Word) {
    && Spent(f, g, n, bn, a).holds && g.Addr(n, bn) == a && (f.Addr(n, bn) != 0 ==> a == f.Addr(n, bn))
    && (forall m: nat :: m < MAXFILE && m != bn ==> g.Addr(n, m) == f.Addr(n, m))
    && (forall i :: 0 <= i <= NDIRECT && f.mem[n].addrs[i] != 0 ==> g.mem[n].addrs[i] == f.mem[n].addrs[i])
  }

  ghost function Turn(f: Files, g: Files, n: nat, bn: nat, a: Word): (r: Claim) {
    Claim(forall x {:trigger Audit(x)} :: x == n && Audit(x) ==> TurnIs(f, g, x, bn, a))
  }

  lemma TurnMapped(f: Files, g: Files, n: nat, bn: nat, a: Word)
    requires Spent(f, g, n, bn, a).holds && Mapped(f, g, n, bn, a)
    ensures Turn(f, g, n, bn, a).holds
  {
    MappedSlots(f, g, n, bn, a);
  }

  lemma DirectTurn(f: Files, g: Files, n: nat, bn: nat, a: Word)
    requires Step(f, g, Direct(n, bn), a) && n in f.mem && n in g.mem && f.IsInode(n) && g.IsInode(n) && bn < NDIRECT && a == g.mem[n].addrs[bn]
    requires (a == 0 ==> FreeSet(g) == {}) && Mapped(f, g, n, bn, a)
    ensures Turn(f, g, n, bn, a).holds
  {
    SpentDirect(f, g, n, bn, a);
    TurnMapped(f, g, n, bn, a);
  }

  lemma IndirectTurn(f: Files, e: Files, g: Files, n: nat, j: nat, t: Word, a: Word)
    requires Step(f, e, Direct(n, NDIRECT), t) && Step(e, g, Entry(n, j), a)
    requires n in f.mem && n in e.mem && n in g.mem && f.IsInode(n) && e.IsInode(n) && g.IsInode(n) && j < NINDIRECT
    requires t == e.mem[n].addrs[NDIRECT] && a == g.Ptr(Entry(n, j)) && Mapped(f, g, n, NDIRECT + j, a)
    requires (t == 0 ==> FreeSet(e) == {}) && (a == 0 ==> FreeSet(g) == {}) && (a != 0 ==> t != 0)
    ensures Turn(f, g, n, NDIRECT + j, a).holds
  {
    TableSpent(f, e, n, t);
    EntrySpent(e, g, n, j, a);
    SpentIndirect(f, e, g, n, j, a);
    TurnMapped(f, g, n, NDIRECT + j, a);
  }

  /** The same in the kernel, where the bitmaps say what is free. */
  lemma DirectStage(sb: Super, d: seq<Block>, f: Files, g: Files, own: map<nat, Slot>, own': map<nat, Slot>,
                    log: set<nat>, log': set<nat>, n: nat, bn: nat, a: Word)
    requires Stage(sb, f, g, own, own', log, log', Direct(n, bn), a, {}).holds && Shows(sb, d, g.mem, g)
    requires n in f.mem && n in g.mem && f.IsInode(n) && g.IsInode(n) && bn < NDIRECT && a == g.mem[n].addrs[bn]
    requires (a == 0 ==> Exhausted(sb, g)) && Mapped(f, g, n, bn, a)
    ensures Turn(f, g, n, bn, a).holds
  {
    if a == 0 {
      NoneFree(sb, d, g.mem, g);
    }
    DirectTurn(f, g, n, bn, a);
  }

  lemma IndirectStage(sb: Super, d1: seq<Block>, d: seq<Block>, f0: Files, f1: Files, f: Files,
                      own0: map<nat, Slot>, own1: map<nat, Slot>, own: map<nat, Slot>, log0: set<nat>, log1: set<nat>, log: set<nat>,
                      n: nat, j: nat, t: Word, a: Word)
    requires Stage(sb, f0, f1, own0, own1, log0, log1, Direct(n, NDIRECT), t, {}).holds && Shows(sb, d1, f1.mem, f1)
    requires Stage(sb, f1, f, own1, own, log1, log, Entry(n, j), a, {t}).holds && Shows(sb, d, f.mem, f) && Ok(sb, f, own)
    requires n in f0.mem && n in f1.mem && n in f.mem && f0.IsInode(n) && f1.IsInode(n) && f.IsInode(n) && j < NINDIRECT
    requires t == f1.mem[n].addrs[NDIRECT] && a == f.Ptr(Entry(n, j)) && Mapped(f0, f, n, NDIRECT + j, a)
    requires (t == 0 ==> Exhausted(sb, f1)) && (a == 0 ==> Exhausted(sb, f))
    ensures Turn(f0, f, n, NDIRECT + j, a).holds
  {
    if t == 0 {
      NoneFree(sb, d1, f1.mem, f1);
    }
    if a == 0 {
      NoneFree(sb, d, f.mem, f);
    } else {
      EntryHasTable(sb, f, own, n, j);
      if f != f1 {
        assert f1.IsSlot(Direct(n, NDIRECT)) && f.Ptr(Direct(n, NDIRECT)) == f1.Ptr(Direct(n, NDIRECT));
      }
    }
    IndirectTurn(f0, f1, f, n, j, t, a);
  }

  /** New contents for a block; no slot and no bit changes. */
  ghost function Stored(f: Files, g: Files): (r: Claim) {
    Claim(SamePtrs(f, g) && g.mem == f.mem && g.disk.used == f.disk.used && g.disk.data.Keys == f.disk.data.Keys)
  }

  lemma StoreStored(sb: Super, f: Files, owner: map<nat, Slot>, n: nat, bn: nat, v: Block)
    requires Ok(sb, f, owner) && f.IsInode(n) && bn < MAXFILE && f.Addr(n, bn) != 0 && f.Addr(n, bn) in f.disk.data
    ensures Stored(f, Store(f, f.Addr(n, bn), v)).holds
  {
    OkMeans(sb, f, owner);
    StoreKeeps(f, owner, n, bn, v);
  }

  /** What a piece stored in block a of file n leaves. */
  lemma PieceStored(sb: Super, d: seq<Block>, mem: map<nat, Inode>, f: Files, owner: map<nat, Slot>, n: nat, o: nat, a: Word, piece: seq<Byte>, v: Block)
    requires Shows(sb, d, mem, f) && f.mem == mem && Ok(sb, f, owner) && n in mem && f.IsInode(n)
    requires 0 < |piece| && o % BSIZE + |piece| <= BSIZE && o + |piece| <= MAXBYTES && a == f.Addr(n, o / BSIZE) && a != 0
    requires a < |d| && v == Splice(d[a], o % BSIZE, piece)
    ensures a in f.disk.data && Shows(sb, d[a := v], mem, Store(f, a, v)) && Ok(sb, Store(f, a, v), owner)
    ensures NoLeak(f, owner).holds ==> NoLeak(Store(f, a, v), owner).holds
    ensures Wrote(f, Store(f, a, v), n, o, piece, |piece|).holds && Stored(f, Store(f, a, v)).holds
  {
    BlockOnDisk(sb, d, mem, f, owner, n, o / BSIZE);
    StoreShows(sb, d, mem, f, a, v);
    StoreOk(sb, f, owner, n, o / BSIZE, v);
    StoreBytes(sb, f, owner, n, o, piece);
    StoreStored(sb, f, owner, n, o / BSIZE, v);
  }

  lemma SpentStored(f: Files, e: Files, g: Files, n: nat, bn: nat, a: Word)
    requires Spent(f, e, n, bn, a).holds && Stored(e, g).holds
    ensures Spent(f, g, n, bn, a).holds
  {
    SameFree(e, g);
  }

  lemma TurnStored(f: Files, e: Files, g: Files, n: nat, bn: nat, a: Word)
    requires Turn(f, e, n, bn, a).holds && Stored(e, g).holds
    ensures Turn(f, g, n, bn, a).holds
  {
    assert Audit(n);
    SpentStored(f, e, g, n, bn, a);
    forall m: nat | m < MAXFILE ensures g.Addr(n, m) == e.Addr(n, m) {
      assert e.IsSlot(SlotOf(n, m));
    }
  }

  lemma LedgerTurn(f: Files, e: Files, g: Files, n: nat, lo: nat, k: nat, a: Word)
    requires Ledger(f, e, n, lo, k).holds && Turn(e, g, n, k, a).holds
    ensures if a != 0 then Ledger(f, g, n, lo, k + 1).holds else Tally(f, g, n, lo, k, false).holds
  {
    assert Audit(n);
    if a != 0 {
      LedgerOn(f, e, g, n, lo, k, a);
    } else {
      LedgerShort(f, e, g, n, lo, k);
    }
  }

  /** Where a loop over the file's bytes from off stands: tot bytes done, and more to come unless a block
      was missing. */
  ghost predicate RunningIs(f: Files, g: Files, n: nat, off: nat, tot: nat, more: bool) {
    if more then Ledger(f, g, n, off / BSIZE, EndBlock(off, tot)).holds
    else Tally(f, g, n, off / BSIZE, EndBlock(off, tot), false).holds && (tot == 0 || (off + tot) % BSIZE == 0)
  }

  ghost function Running(f: Files, g: Files, n: nat, off: nat, tot: nat, more: bool): (r: Claim) {
    Claim(forall x {:trigger Audit(x)} :: x == n && Audit(x) ==> RunningIs(f, g, x, off, tot, more))
  }

  lemma RunningStart(f: Files, n: nat, off: nat)
    requires n in f.mem && f.IsInode(n) && off <= MAXBYTES
    ensures Running(f, f, n, off, 0, true).holds
  {
    LedgerStart(f, n, off / BSIZE);
  }

  lemma RunningOn(f: Files, e: Files, g: Files, n: nat, off: nat, tot: nat, m: nat, bn: nat, a: Word)
    requires Running(f, e, n, off, tot, true).holds && OneBlock(off, tot, m).holds && bn == (off + tot) / BSIZE && Turn(e, g, n, bn, a).holds
    ensures Running(f, g, n, off, if a != 0 then tot + m else tot, a != 0).holds
  {
    assert Audit(n);
    EndBlockNext(off, tot, m);
    LedgerTurn(f, e, g, n, off / BSIZE, bn, a);
  }

  /** There are enough free blocks for len bytes at off. */
  ghost function Enough(f: Files, n: nat, off: nat, len: nat): (r: Claim) {
    Claim(f.IsInode(n) && EndBlock(off, len) <= MAXFILE && Need(f, n, off / BSIZE, EndBlock(off, len)) <= |FreeSet(f)|)
  }

  /** Going through len bytes at off gives the inode a block number it did not have. */
  ghost function Disturbs(f: Files, n: nat, off: nat, len: nat): (r: Claim) {
    Claim(n in f.mem && Gap(f.mem[n], off / BSIZE, EndBlock(off, len)) && FreeSet(f) != {})
  }

  /** Writing len bytes at off makes the file longer: the write goes past its end, and there are enough free
      blocks to get there. */
  ghost function GrowsPast(f: Files, n: nat, off: nat, len: nat): (r: Claim) {
    Claim(n in f.mem && off <= f.mem[n].size < off + len && Enough(f, n, off, f.mem[n].size + 1 - off).holds)
  }

  /** What writing len bytes at off, of which t were written, did to the free blocks and the inode. */
  ghost predicate PaidIs(f: Files, g: Files, n: nat, off: nat, len: nat, t: nat) {
    && n in f.mem && n in g.mem && f.IsInode(n) && g.IsInode(n) && t <= len && EndBlock(off, t) < MAXFILE + (if t < len then 0 else 1)
    && (t == len <==> Enough(f, n, off, len).holds)
    && Need(f, n, off / BSIZE, EndBlock(off, t)) <= |FreeSet(f)|
    && (t == len ==> Ledger(f, g, n, off / BSIZE, EndBlock(off, t)).holds)
    && (t < len ==> FreeSet(g) == {} && (t == 0 || (off + t) % BSIZE == 0) && |FreeSet(f)| < Need(f, n, off / BSIZE, EndBlock(off, t) + 1))
    && (g.mem[n].addrs == f.mem[n].addrs <==> !Disturbs(f, n, off, len).holds)
  }

  ghost function Paid(f: Files, g: Files, n: nat, off: nat, len: nat, t: nat): (r: Claim) {
    Claim(forall x {:trigger Audit(x)} :: x == n && Audit(x) ==> PaidIs(f, g, x, off, len, t))
  }

  lemma RunningEnds(f: Files, g: Files, n: nat, off: nat, len: nat, t: nat)
    requires Running(f, g, n, off, t, t == len).holds && t <= len && off + len <= MAXBYTES
    ensures Paid(f, g, n, off, len, t).holds
  {
    assert Audit(n);
    EndBlockBound(off, len);
    var lo, k, hi := off / BSIZE, EndBlock(off, t), EndBlock(off, len);
    if t == len {
      LedgerTally(f, g, n, lo, k);
    } else {
      EndBlockGrows(off, t, len);
      NeedGrows(f, n, lo, k + 1, hi);
      GapEarly(f, n, lo, k, hi);
    }
  }

  lemma GrowsPastIs(f: Files, g: Files, n: nat, off: nat, len: nat, t: nat)
    requires Paid(f, g, n, off, len, t).holds && n in f.mem && off <= f.mem[n].size
    ensures off + t > f.mem[n].size <==> GrowsPast(f, n, off, len).holds
  {
    assert PaidIs(f, g, n, off, len, t) by { assert Audit(n); }
    var k := f.mem[n].size + 1 - off;
    if t >= k {
      EndBlockOrder(off, k, t);
      NeedGrows(f, n, off / BSIZE, EndBlock(off, k), EndBlock(off, t));
    } else if k <= len && Enough(f, n, off, k).holds {
      EndBlockGrows(off, t, k);
      NeedGrows(f, n, off / BSIZE, EndBlock(off, t) + 1, EndBlock(off, k));
    }
  }

  lemma EndBlockOrder(off: nat, k: nat, t: nat)
    requires 0 < k <= t
    ensures off / BSIZE <= EndBlock(off, k) <= EndBlock(off, t)
  {
  }

  /** A change of size and a write of the inode take no block. */
  lemma PaidThen(f: Files, e: Files, g: Files, n: nat, off: nat, len: nat, t: nat)
    requires Paid(f, e, n, off, len, t).holds && n in e.mem && n in g.mem && g.IsInode(n) && g.mem[n].addrs == e.mem[n].addrs
    requires g.disk.used == e.disk.used && g.disk.data == e.disk.data
    ensures Paid(f, g, n, off, len, t).holds
  {
    assert Audit(n);
    SameFree(e, g);
    if t == len {
      LedgerStill(f, e, g, n, off / BSIZE, EndBlock(off, t));
    }
  }

  // ----- reading -----

  /** There was no block for block j. */
  ghost predicate Stuck(f: Files, n: nat, lo: nat, j: nat) {
    f.IsInode(n) && j < MAXFILE && Need(f, n, lo, j) < Need(f, n, lo, j + 1)
  }

  ghost predicate Missed(f: Files, n: nat, off: nat, tot: nat) {
    exists j: nat :: off / BSIZE <= j < EndBlock(off, tot) && Stuck(f, n, off / BSIZE, j)
  }

  /** Where a loop that goes on past missing blocks stands: tot bytes done, and as long as no block was
      missing ok holds. */
  ghost predicate WalkedIs(f: Files, g: Files, n: nat, off: nat, tot: nat, ok: bool) {
    if ok then Running(f, g, n, off, tot, true).holds
    else
      && n in f.mem && n in g.mem && g.IsInode(n) && FreeSet(g) == {} && off + tot <= MAXBYTES && Missed(f, n, off, tot)
      && (g.mem[n].addrs == f.mem[n].addrs <==> !Disturbs(f, n, off, tot).holds)
  }

  ghost function Walked(f: Files, g: Files, n: nat, off: nat, tot: nat, ok: bool): (r: Claim) {
    Claim(forall x {:trigger Audit(x)} :: x == n && Audit(x) ==> WalkedIs(f, g, x, off, tot, ok))
  }

  /** bmap with no block left changes nothing in the inode. */
  lemma IdleTurn(e: Files, g: Files, n: nat, bn: nat, a: Word)
    requires Turn(e, g, n, bn, a).holds && FreeSet(e) == {}
    ensures n in e.mem && n in g.mem && g.IsInode(n) && g.mem[n].addrs == e.mem[n].addrs && FreeSet(g) == {}
  {
    assert Audit(n);
    assert |FreeSet(e)| == 0;
    forall i | 0 <= i <= NDIRECT ensures g.mem[n].addrs[i] == e.mem[n].addrs[i] {
      if i < NDIRECT {
        assert e.Addr(n, i) == e.mem[n].addrs[i] && g.Addr(n, i) == g.mem[n].addrs[i];
      }
    }
  }

  /** The first missed block decides whether the inode is disturbed. */
  lemma MissedOn(f: Files, n: nat, off: nat, tot: nat, m: nat)
    requires n in f.mem && Missed(f, n, off, tot) && EndBlock(off, tot) <= EndBlock(off, tot + m) <= MAXFILE
    ensures Missed(f, n, off, tot + m) && (Disturbs(f, n, off, tot).holds <==> Disturbs(f, n, off, tot + m).holds)
  {
    var j: nat :| off / BSIZE <= j < EndBlock(off, tot) && Stuck(f, n, off / BSIZE, j);
    GapEarly(f, n, off / BSIZE, j, EndBlock(off, tot));
    GapEarly(f, n, off / BSIZE, j, EndBlock(off, tot + m));
  }

  lemma WalkedFails(f: Files, g: Files, n: nat, off: nat, tot: nat, m: nat)
    requires Running(f, g, n, off, tot, false).holds && OneBlock(off, tot, m).holds
    ensures Walked(f, g, n, off, tot + m, false).holds
  {
    assert Audit(n);
    EndBlockNext(off, tot, m);
    assert Stuck(f, n, off / BSIZE, (off + tot) / BSIZE);
  }

  lemma WalkedOn(f: Files, e: Files, g: Files, n: nat, off: nat, tot: nat, m: nat, tot': nat, bn: nat, a: Word, ok: bool)
    requires Walked(f, e, n, off, tot, ok).holds && OneBlock(off, tot, m).holds && tot' == tot + m
    requires bn == (off + tot) / BSIZE && Turn(e, g, n, bn, a).holds
    ensures Walked(f, g, n, off, tot', ok && a != 0).holds
  {
    var well := ok && a != 0;
    if ok {
      WalkedWell(f, e, g, n, off, tot, m, bn, a);
      assert well == (a != 0);
    } else {
      WalkedIdle(f, e, g, n, off, tot, m, bn, a);
      assert well == false;
    }
  }

  lemma WalkedWell(f: Files, e: Files, g: Files, n: nat, off: nat, tot: nat, m: nat, bn: nat, a: Word)
    requires Walked(f, e, n, off, tot, true).holds && OneBlock(off, tot, m).holds && bn == (off + tot) / BSIZE && Turn(e, g, n, bn, a).holds
    ensures Walked(f, g, n, off, tot + m, a != 0).holds
  {
    assert Running(f, e, n, off, tot, true).holds by { assert Audit(n); }
    RunningOn(f, e, g, n, off, tot, m, bn, a);
    if a == 0 {
      WalkedFails(f, g, n, off, tot, m);
    }
  }

  lemma WalkedIdle(f: Files, e: Files, g: Files, n: nat, off: nat, tot: nat, m: nat, bn: nat, a: Word)
    requires Walked(f, e, n, off, tot, false).holds && OneBlock(off, tot, m).holds && bn == (off + tot) / BSIZE && Turn(e, g, n, bn, a).holds
    ensures Walked(f, g, n, off, tot + m, false).holds
  {
    assert WalkedIs(f, e, n, off, tot, false) by { assert Audit(n); }
    IdleTurn(e, g, n, bn, a);
    EndBlockNext(off, tot, m);
    MissedOn(f, n, off, tot, m);
  }

  lemma WalkedEnds(f: Files, g: Files, n: nat, off: nat, len: nat, ok: bool)
    requires Walked(f, g, n, off, len, ok).holds
    ensures n in f.mem && n in g.mem && (g.mem[n].addrs == f.mem[n].addrs <==> !Disturbs(f, n, off, len).holds)
  {
    assert Audit(n);
    if ok {
      LedgerTally(f, g, n, off / BSIZE, EndBlock(off, len));
    }
  }

  // ----- inodes on disk and in memory -----

  /** The disk copy of inode n has all its block numbers. */
  ghost predicate Recorded(f: Files, n: nat) {
    f.IsInode(n) && f.disk.dinode[n].addrs == f.Cur(n).addrs
  }

  /** Every block in use is metadata or pointed at, and would still be if no inode were cached. */
  ghost predicate SettledIs(f: Files, owner: map<nat, Slot>) {
    NoLeak(f, owner).holds && forall m: nat :: m in f.mem ==> Recorded(f, m)
  }

  ghost function Settled(f: Files, owner: map<nat, Slot>): (r: Claim) {
    Claim(forall x: nat {:trigger Audit(x)} :: x == 0 && Audit(x) ==> SettledIs(f, owner))
  }

  lemma SettledMeans(f: Files, owner: map<nat, Slot>)
    ensures Settled(f, owner).holds <==> SettledIs(f, owner)
  {
    assert Audit(0);
  }

  /** Only inode n was written, or changed in memory. */
  ghost predicate OnlyInode(f: Files, g: Files, n: nat) {
    && |g.disk.dinode| == |f.disk.dinode| && (forall m: nat :: m in g.mem ==> m in f.mem || m == n)
    && (forall m: nat :: m < |f.disk.dinode| && m != n ==> g.disk.dinode[m] == f.disk.dinode[m])
    && (forall m: nat :: m in f.mem && m != n ==> m in g.mem && g.mem[m] == f.mem[m])
  }

  lemma SettledOne(f: Files, g: Files, owner: map<nat, Slot>, own: map<nat, Slot>, n: nat)
    requires Settled(f, owner).holds && OnlyInode(f, g, n) && NoLeak(g, own).holds
    ensures Settled(g, own).holds <==> (n in g.mem ==> Recorded(g, n))
  {
    SettledMeans(f, owner);
    SettledMeans(g, own);
  }

  /** writei kept the disk copy of the inode up to date, unless it filled a gap below the size. */
  ghost predicate SavedIs(f: Files, g: Files, n: nat, off: nat, len: nat, t: nat) {
    n in f.mem && (Recorded(f, n) ==> (Recorded(g, n) <==> off + t > f.mem[n].size || !Disturbs(f, n, off, len).holds))
  }

  ghost function Saved(f: Files, g: Files, n: nat, off: nat, len: nat, t: nat): (r: Claim) {
    Claim(forall x {:trigger Audit(x)} :: x == n && Audit(x) ==> SavedIs(f, g, x, off, len, t))
  }

  lemma PaidInside(sb: Super, s: State, s0: State, n: nat, src: seq<Byte>, off: nat, t: nat)
    requires Writing(sb, s, s0, n, src, off, t, t == |src|).holds && Running(s0.f, s.f, n, off, t, t == |src|).holds
    requires t <= |src| && off + |src| <= MAXBYTES && n in s0.f.mem && off + t <= s0.f.mem[n].size
    ensures Paid(s0.f, s.f, n, off, |src|, t).holds && Saved(s0.f, s.f, n, off, |src|, t).holds
  {
    assert Audit(n);
    RunningEnds(s0.f, s.f, n, off, |src|, t);
    assert s.f.disk.dinode == s0.f.disk.dinode by { assert Open(sb); }
  }

  lemma PaidGrown(sb: Super, f0: Files, f: Files, n: nat, off: nat, len: nat, t: nat, size: Word)
    requires Running(f0, f, n, off, t, t == len).holds && t <= len && off + len <= MAXBYTES
    requires n in f0.mem && n in f.mem && f.IsInode(n) && off + t > f0.mem[n].size
    ensures var g := Sync(Retag(f, n, WithSize(f.mem[n], size)), n);
      Paid(f0, g, n, off, len, t).holds && Saved(f0, g, n, off, len, t).holds
  {
    assert Audit(n);
    RunningEnds(f0, f, n, off, len, t);
    PaidThen(f0, f, Sync(Retag(f, n, WithSize(f.mem[n], size)), n), n, off, len, t);
  }

  /** After writei every other inode is as it was. */
  lemma SettledWritten(f: Files, g: Files, owner: map<nat, Slot>, own: map<nat, Slot>, n: nat, off: nat, src: seq<Byte>, t: nat)
    requires Written(f, g, n, off, src, t).holds && (NoLeak(f, owner).holds ==> NoLeak(g, own).holds) && Saved(f, g, n, off, |src|, t).holds
    ensures Settled(f, owner).holds ==>
      (Settled(g, own).holds <==> off + t > f.mem[n].size || !Disturbs(f, n, off, |src|).holds)
  {
    assert Audit(n);
    SettledMeans(f, owner);
    if Settled(f, owner).holds {
      assert OnlyInode(f, g, n) by {
        forall m: nat | m in f.mem && m != n ensures m in g.mem && g.mem[m] == f.mem[m] {
          assert Recorded(f, m) && g.Cur(m) == f.Cur(m);
        }
      }
      SettledOne(f, g, owner, own, n);
    }
  }

  /** All that writei says of the files once it is done. */
  ghost predicate ClosedIs(sb: Super, f: Files, owner: map<nat, Slot>, g: Files, own: map<nat, Slot>, n: nat, src: seq<Byte>, off: nat, t: nat) {
    && n in f.mem && f.IsInode(n) && t <= |src| && WrittenSync(f, g, n, off, src, t).holds
    && (t < |src| ==> Exhausted(sb, g) && (HoleFree(f, n) ==> f.mem[n].size <= off + t))
    && (NoLeak(f, owner).holds ==> NoLeak(g, own).holds)
    && Paid(f, g, n, off, |src|, t).holds && Saved(f, g, n, off, |src|, t).holds
  }

  ghost function Closed(sb: Super, f: Files, owner: map<nat, Slot>, g: Files, own: map<nat, Slot>, n: nat, src: seq<Byte>, off: nat, t: nat): (r: Claim) {
    Claim(forall x {:trigger Audit(x)} :: x == n && Audit(x) ==> ClosedIs(sb, f, owner, g, own, x, src, off, t))
  }

  lemma ClosedInside(sb: Super, s: State, s0: State, n: nat, src: seq<Byte>, off: nat, t: nat)
    requires Writing(sb, s, s0, n, src, off, t, t == |src|).holds && Running(s0.f, s.f, n, off, t, t == |src|).holds
    requires t <= |src| && off + |src| <= MAXBYTES && n in s0.f.mem && off <= s0.f.mem[n].size && off + t <= s0.f.mem[n].size
    ensures Closed(sb, s0.f, s0.owner, s.f, s.owner, n, src, off, t).holds
  {
    WrittenInside(sb, s, s0, n, src, off, t, t == |src|);
    PaidInside(sb, s, s0, n, src, off, t);
  }

  lemma ClosedGrown(sb: Super, s: State, s0: State, n: nat, src: seq<Byte>, off: nat, t: nat)
    requires Ok(sb, s.f, s.owner)
    requires Writing(sb, s, s0, n, src, off, t, t == |src|).holds && Running(s0.f, s.f, n, off, t, t == |src|).holds
    requires t <= |src| && off + |src| <= MAXBYTES && n in s0.f.mem && off <= s0.f.mem[n].size < off + t
    ensures n in s.f.mem && off + t <= MAXBYTES && s.f.IsInode(n) && s.f.mem[n].typ != 0
    ensures Closed(sb, s0.f, s0.owner, Sync(Retag(s.f, n, WithSize(s.f.mem[n], off + t)), n), s.owner, n, src, off, t).holds
  {
    WrittenGrown(sb, s, s0, n, src, off, t, t == |src|);
    PaidGrown(sb, s0.f, s.f, n, off, |src|, t, off + t);
    ClosedIntro(sb, s0.f, s0.owner, Sync(Retag(s.f, n, WithSize(s.f.mem[n], off + t)), n), s.owner, n, src, off, t);
  }

  /** A file that grew to less than the whole write is longer than before. */
  lemma ClosedIntro(sb: Super, f: Files, owner: map<nat, Slot>, g: Files, own: map<nat, Slot>, n: nat, src: seq<Byte>, off: nat, t: nat)
    requires n in f.mem && f.IsInode(n) && t <= |src| && WrittenSync(f, g, n, off, src, t).holds && f.mem[n].size < off + t
    requires (t < |src| ==> Exhausted(sb, g)) && (NoLeak(f, owner).holds ==> NoLeak(g, own).holds)
    requires Paid(f, g, n, off, |src|, t).holds && Saved(f, g, n, off, |src|, t).holds
    ensures Closed(sb, f, owner, g, own, n, src, off, t).holds
  {
  }

  lemma ClosedMeans(sb: Super, f: Files, owner: map<nat, Slot>, g: Files, own: map<nat, Slot>, n: nat, src: seq<Byte>, off: nat, t: nat)
    requires Closed(sb, f, owner, g, own, n, src, off, t).holds
    ensures n in f.mem && f.IsInode(n) && t <= |src| && WrittenSync(f, g, n, off, src, t).holds && Paid(f, g, n, off, |src|, t).holds
    ensures t < |src| ==> Exhausted(sb, g) && (HoleFree(f, n) ==> f.mem[n].size <= off + t)
    ensures t == |src| <==> Enough(f, n, off, |src|).holds
    ensures NoLeak(f, owner).holds ==> NoLeak(g, own).holds
    ensures Settled(f, owner).holds ==> (Settled(g, own).holds <==> off + t > f.mem[n].size || !Disturbs(f, n, off, |src|).holds)
  {
    assert Audit(n);
    SettledWritten(f, g, owner, own, n, off, src, t);
  }

  lemma WalkedStart(f: Files, n: nat, off: nat)
    requires n in f.mem && f.IsInode(n) && off <= MAXBYTES
    ensures Walked(f, f, n, off, 0, true).holds
  {
    RunningStart(f, n, off);
  }

  /** The piece of a read that is in one block. */
  lemma ReadStep(off: nat, tot: nat, cnt: nat, m: nat)
    requires tot < cnt && off + cnt <= MAXBYTES && (tot == 0 || (off + tot) % BSIZE == 0) && m == Min(cnt - tot, BSIZE - (off + tot) % BSIZE)
    ensures OneBlock(off, tot, m).holds && (tot + m == cnt || (off + (tot + m)) % BSIZE == 0)
  {
  }

  /** After readi every inode on disk and every other cached inode is as it was. */
  lemma SettledRead(f: Files, g: Files, owner: map<nat, Slot>, own: map<nat, Slot>, n: nat, off: nat, len: nat, ok: bool)
    requires Grows(f, g, n) && (NoLeak(f, owner).holds ==> NoLeak(g, own).holds) && Walked(f, g, n, off, len, ok).holds
    ensures Settled(f, owner).holds ==> (Settled(g, own).holds <==> !Disturbs(f, n, off, len).holds)
  {
    WalkedEnds(f, g, n, off, len, ok);
    SettledMeans(f, owner);
    if Settled(f, owner).holds {
      assert Recorded(f, n);
      SettledOne(f, g, owner, own, n);
    }
  }

  /** State of readi's loop: dst was read since the state was s0. */
  ghost predicate ReadingIs(s0: State, s: State, n: nat, off: nat, dst: seq<Byte>, ok: bool) {
    && Extends(s0.f, s.f, n) && off + |dst| <= MAXBYTES && Reads(s0.f, n, off, dst) && (HoleFree(s0.f, n) ==> s == s0)
    && (NoLeak(s0.f, s0.owner).holds ==> NoLeak(s.f, s.owner).holds)
    && Walked(s0.f, s.f, n, off, |dst|, ok).holds
  }

  ghost function Reading(s0: State, s: State, n: nat, off: nat, dst: seq<Byte>, ok: bool): (r: Claim) {
    Claim(forall x {:trigger Audit(x)} :: x == n && Audit(x) ==> ReadingIs(s0, s, x, off, dst, ok))
  }

  lemma ReadingStart(s: State, n: nat, off: nat)
    requires n in s.f.mem && s.f.IsInode(n) && off <= MAXBYTES
    ensures Reading(s, s, n, off, [], true).holds
  {
    ExtendsSelf(s.f, n);
    WalkedStart(s.f, n, off);
  }

  /** One round: what ReadPiece did. */
  ghost predicate ReadOneIs(s: State, s': State, n: nat, o: nat, piece: seq<Byte>, a: Word) {
    && Extends(s.f, s'.f, n) && o + |piece| <= MAXBYTES && Reads(s'.f, n, o, piece) && (HoleFree(s.f, n) ==> s' == s)
    && (NoLeak(s.f, s.owner).holds ==> NoLeak(s'.f, s'.owner).holds) && Turn(s.f, s'.f, n, o / BSIZE, a).holds
  }

  ghost function ReadOne(s: State, s': State, n: nat, o: nat, piece: seq<Byte>, a: Word): (r: Claim) {
    Claim(forall x {:trigger Audit(x)} :: x == n && Audit(x) ==> ReadOneIs(s, s', x, o, piece, a))
  }

  lemma ReadPieceDone(s: State, s': State, n: nat, o: nat, piece: seq<Byte>, a: Word)
    requires n in s.f.mem && s.f.IsInode(n) && 0 < |piece| && o + |piece| <= s.f.mem[n].size <= MAXBYTES
    requires Mapped(s.f, s'.f, n, o / BSIZE, a) && Reads(s'.f, n, o, piece) && (s.f.Addr(n, o / BSIZE) != 0 ==> s' == s)
    requires (NoLeak(s.f, s.owner).holds ==> NoLeak(s'.f, s'.owner).holds) && Turn(s.f, s'.f, n, o / BSIZE, a).holds
    ensures ReadOne(s, s', n, o, piece, a).holds
  {
    if HoleFree(s.f, n) {
      assert o / BSIZE * BSIZE <= o;
      assert s.f.Addr(n, o / BSIZE) != 0;
    }
  }

  lemma ReadingMeans(s0: State, s: State, n: nat, off: nat, dst: seq<Byte>, ok: bool)
    requires Reading(s0, s, n, off, dst, ok).holds
    ensures Extends(s0.f, s.f, n) && off + |dst| <= MAXBYTES && Reads(s0.f, n, off, dst) && (HoleFree(s0.f, n) ==> s == s0)
    ensures NoLeak(s0.f, s0.owner).holds ==> NoLeak(s.f, s.owner).holds
    ensures Walked(s0.f, s.f, n, off, |dst|, ok).holds
  {
    assert Audit(n);
  }

  lemma ReadOneMeans(s: State, s': State, n: nat, o: nat, piece: seq<Byte>, a: Word)
    requires ReadOne(s, s', n, o, piece, a).holds
    ensures Extends(s.f, s'.f, n) && o + |piece| <= MAXBYTES && Reads(s'.f, n, o, piece) && (HoleFree(s.f, n) ==> s' == s)
    ensures (NoLeak(s.f, s.owner).holds ==> NoLeak(s'.f, s'.owner).holds) && Turn(s.f, s'.f, n, o / BSIZE, a).holds
  {
    assert Audit(n);
  }

  lemma ReadingIntro(s0: State, s: State, n: nat, off: nat, dst: seq<Byte>, ok: bool)
    requires Extends(s0.f, s.f, n) && off + |dst| <= MAXBYTES && Reads(s0.f, n, off, dst) && (HoleFree(s0.f, n) ==> s == s0)
    requires NoLeak(s0.f, s0.owner).holds ==> NoLeak(s.f, s.owner).holds
    requires Walked(s0.f, s.f, n, off, |dst|, ok).holds
    ensures Reading(s0, s, n, off, dst, ok).holds
  {
  }

  lemma ReadsAt(f: Files, e: Files, g: Files, n: nat, off: nat, u: seq<Byte>, o: nat, v: seq<Byte>)
    requires Extends(f, e, n) && Extends(e, g, n) && Reads(f, n, off, u) && o == off + |u| && Reads(g, n, o, v) && o + |v| <= MAXBYTES
    ensures Extends(f, g, n) && Reads(f, n, off, u + v) && off + |u + v| <= MAXBYTES
  {
    ExtendsTwice(f, e, g, n);
    ReadsOn(f, g, n, off, u, v);
  }

  lemma ReadingOn(s0: State, s1: State, s: State, n: nat, off: nat, dst: seq<Byte>, o: nat, piece: seq<Byte>, a: Word, ok: bool)
    requires Reading(s0, s1, n, off, dst, ok).holds && ReadOne(s1, s, n, o, piece, a).holds
    requires o == off + |dst| && OneBlock(off, |dst|, |piece|).holds
    ensures Reading(s0, s, n, off, dst + piece, ok && a != 0).holds
  {
    ReadingMeans(s0, s1, n, off, dst, ok);
    ReadOneMeans(s1, s, n, o, piece, a);
    ReadsAt(s0.f, s1.f, s.f, n, off, dst, o, piece);
    WalkedOn(s0.f, s1.f, s.f, n, off, |dst|, |piece|, |dst + piece|, o / BSIZE, a, ok);
    ReadingIntro(s0, s, n, off, dst + piece, ok && a != 0);
  }

  lemma ReadingEnds(s0: State, s: State, n: nat, off: nat, dst: seq<Byte>, ok: bool)
    requires Reading(s0, s, n, off, dst, ok).holds
    ensures Extends(s0.f, s.f, n) && Reads(s0.f, n, off, dst) && (HoleFree(s0.f, n) ==> s == s0)
    ensures NoLeak(s0.f, s0.owner).holds ==> NoLeak(s.f, s.owner).holds
    ensures Settled(s0.f, s0.owner).holds ==> (Settled(s.f, s.owner).holds <==> !Disturbs(s0.f, n, off, |dst|).holds)
  {
    ReadingMeans(s0, s, n, off, dst, ok);
    SettledRead(s0.f, s.f, s0.owner, s.owner, n, off, |dst|, ok);
  }

  // ----- iput and the rest -----

  lemma LostGap(f: Files, owner: map<nat, Slot>, n: nat)
    requires Good(f, owner) && Backed(f) && n in f.mem && f.IsInode(n) && !Recorded(f, n)
    ensures exists b :: b in Lost(f, owner, n) && b in f.disk.used && b in f.disk.data && b != 0
  {
    var i :| 0 <= i <= NDIRECT && f.disk.dinode[n].addrs[i] != f.mem[n].addrs[i];
    var b: nat := f.mem[n].addrs[i];
    assert f.IsSlot(Direct(n, i)) && f.Ptr(Direct(n, i)) == b && b != 0;
    assert b in owner && owner[b] == Direct(n, i);
    assert Forget(f, n).Ptr(Direct(n, i)) == f.disk.dinode[n].addrs[i];
    assert b in Lost(f, owner, n);
  }

  lemma NoneLost(f: Files, owner: map<nat, Slot>, n: nat)
    requires Good(f, owner) && n in f.mem && Recorded(f, n)
    ensures Lost(f, owner, n) == {}
  {
    forall b | b in owner ensures Forget(f, n).Ptr(owner[b]) == b {
      assert f.Ptr(owner[b]) == b;
    }
  }

  /** Dropping the cached inode leaks a block exactly if its disk copy lacks one. */
  lemma ForgetLeaks(sb: Super, f: Files, owner: map<nat, Slot>, n: nat)
    requires Ok(sb, f, owner) && n in f.mem && NoLeak(f, owner).holds
    ensures f.IsInode(n) && (NoLeak(Forget(f, n), Kept(f, owner, n)).holds <==> Recorded(f, n))
  {
    OkMeans(sb, f, owner);
    if Recorded(f, n) {
      NoneLost(f, owner, n);
      assert owner - {} == owner;
    } else {
      LostGap(f, owner, n);
    }
  }

  lemma SettledForget(sb: Super, f: Files, owner: map<nat, Slot>, n: nat)
    requires Ok(sb, f, owner) && n in f.mem
    ensures f.IsInode(n) && (NoLeak(f, owner).holds ==> (NoLeak(Forget(f, n), Kept(f, owner, n)).holds <==> Recorded(f, n)))
    ensures Settled(f, owner).holds ==> Settled(Forget(f, n), Kept(f, owner, n)).holds
  {
    OkMeans(sb, f, owner);
    if NoLeak(f, owner).holds {
      ForgetLeaks(sb, f, owner, n);
      SettledMeans(f, owner);
    if Settled(f, owner).holds {
        SettledOne(f, Forget(f, n), owner, Kept(f, owner, n), n);
      }
    }
  }

  lemma SettledLoad(f: Files, owner: map<nat, Slot>, n: nat)
    requires f.IsInode(n) && n !in f.mem
    ensures Settled(f, owner).holds ==> Settled(Load(f, n), owner).holds
  {
    SettledMeans(f, owner);
    if Settled(f, owner).holds {
      SettledOne(f, Load(f, n), owner, owner, n);
    }
  }

  lemma SettledSync(f: Files, owner: map<nat, Slot>, n: nat)
    requires f.IsInode(n) && n in f.mem
    ensures Settled(f, owner).holds ==> Settled(Sync(f, n), owner).holds
  {
    SettledMeans(f, owner);
    if Settled(f, owner).holds {
      SettledOne(f, Sync(f, n), owner, owner, n);
    }
  }

  lemma SettledReset(f: Files, owner: map<nat, Slot>, n: nat, ip: Inode)
    requires f.IsInode(n)
    ensures Settled(f, owner).holds ==> Settled(Reset(f, n, ip), owner).holds
  {
    SettledMeans(f, owner);
    if Settled(f, owner).holds {
      SettledOne(f, Reset(f, n, ip), owner, owner, n);
    }
  }

  lemma SettledTruncated(f: Files, g: Files, owner: map<nat, Slot>, own: map<nat, Slot>, n: nat)
    requires Truncated(f, g, owner, n) && (NoLeak(f, owner).holds ==> NoLeak(g, own).holds)
    ensures Settled(f, owner).holds ==> Settled(g, own).holds
  {
    SettledMeans(f, owner);
    if Settled(f, owner).holds {
      assert OnlyInode(f, g, n) by {
        forall m: nat | m in f.mem && m != n ensures m in g.mem && g.mem[m] == f.mem[m] {
          assert Recorded(f, m) && g.Cur(m) == f.Cur(m);
        }
      }
      SettledOne(f, g, owner, own, n);
    }
  }

  // ----- hole-free files -----

  /** The file ends where the table would begin, the write goes past its end, and there is one block left:
      the table gets it, and there is none for the data. */
  ghost predicate CutAtTable(f: Files, n: nat, off: nat, len: nat) {
    && n in f.mem && f.mem[n].size == NDIRECT * BSIZE && f.mem[n].addrs[NDIRECT] == 0
    && off + len > f.mem[n].size && |FreeSet(f)| == 1
  }

  /** Below the size of a hole-free file nothing is missing. */
  lemma {:induction false} NoHoles(f: Files, n: nat, lo: nat, hi: nat)
    requires f.IsInode(n) && n in f.mem && HoleFree(f, n) && hi <= MAXFILE && (lo < hi ==> (hi - 1) * BSIZE < f.mem[n].size)
    ensures Holes(f, n, lo, hi) == 0
    decreases hi
  {
    if lo < hi {
      NoHoles(f, n, lo, hi - 1);
      assert f.Addr(n, hi - 1) != 0;
    }
  }

  lemma NoGap(sb: Super, f: Files, owner: map<nat, Slot>, n: nat, lo: nat, hi: nat)
    requires Ok(sb, f, owner) && f.IsInode(n) && n in f.mem && HoleFree(f, n) && hi <= MAXFILE && (lo < hi ==> (hi - 1) * BSIZE < f.mem[n].size)
    ensures !Gap(f.mem[n], lo, hi) && Need(f, n, lo, hi) == 0
  {
    NoHoles(f, n, lo, hi);
    forall i | lo <= i < hi && i < NDIRECT ensures f.mem[n].addrs[i] != 0 {
      assert f.Addr(n, i) == f.mem[n].addrs[i];
    }
    if lo < hi && NDIRECT < hi {
      assert f.Addr(n, hi - 1) != 0;
      EntryHasTable(sb, f, owner, n, hi - 1 - NDIRECT);
    }
  }

  lemma EndBlockInside(off: nat, t: nat, size: nat)
    requires off + t <= size
    ensures off / BSIZE < EndBlock(off, t) ==> (EndBlock(off, t) - 1) * BSIZE < size
  {
  }

  /** Where a write that was cut short at the end of a hole-free file stopped. */
  lemma CutWhere(sb: Super, f: Files, owner: map<nat, Slot>, n: nat, off: nat, t: nat)
    requires Ok(sb, f, owner) && f.IsInode(n) && n in f.mem && HoleFree(f, n) && off <= f.mem[n].size && off + t <= f.mem[n].size
    requires (t == 0 || (off + t) % BSIZE == 0) && EndBlock(off, t) < MAXFILE
    requires |FreeSet(f)| < Need(f, n, off / BSIZE, EndBlock(off, t) + 1)
    ensures f.mem[n].size == off + t == EndBlock(off, t) * BSIZE && Need(f, n, off / BSIZE, EndBlock(off, t)) == 0
  {
    var lo, k := off / BSIZE, EndBlock(off, t);
    EndBlockInside(off, t, f.mem[n].size);
    NoGap(sb, f, owner, n, lo, k);
    if k * BSIZE < f.mem[n].size {
      NoGap(sb, f, owner, n, lo, k + 1);
    }
  }

  /** Without a table there are no blocks behind it. */
  lemma NoTableNoBlock(sb: Super, f: Files, owner: map<nat, Slot>, n: nat)
    requires Ok(sb, f, owner) && f.IsInode(n) && f.Cur(n).addrs[NDIRECT] == 0
    ensures f.Addr(n, NDIRECT) == 0
  {
    ZeroTable(f, n) by { OkMeans(sb, f, owner); }
  }

  lemma ZeroTable(f: Files, n: nat)
    requires f.IsInode(n) && f.Cur(n).addrs[NDIRECT] == 0 && 0 in f.disk.data && f.disk.data[0] == ZeroBlock
    ensures f.Addr(n, NDIRECT) == 0
  {
    FirstEntry(f, n, 0, 0);
    ZeroWords();
  }

  lemma FirstEntry(f: Files, n: nat, t: Word, j: nat)
    requires f.IsInode(n) && t == f.Cur(n).addrs[NDIRECT] && j == 0
    ensures f.Addr(n, NDIRECT) == f.EntryAt(t, j)
  {
  }

  lemma CutShort(sb: Super, f: Files, owner: map<nat, Slot>, n: nat, off: nat, len: nat, t: nat)
    requires Ok(sb, f, owner) && f.IsInode(n) && n in f.mem && HoleFree(f, n) && off + len <= MAXBYTES && t < len
    requires (t == 0 || (off + t) % BSIZE == 0) && EndBlock(off, t) < MAXFILE && |FreeSet(f)| < Need(f, n, off / BSIZE, EndBlock(off, t) + 1)
    requires f.mem[n].size == off + t == EndBlock(off, t) * BSIZE && Need(f, n, off / BSIZE, EndBlock(off, t)) == 0
    ensures Disturbs(f, n, off, len).holds <==> CutAtTable(f, n, off, len)
  {
    var lo, k, hi := off / BSIZE, EndBlock(off, t), EndBlock(off, len);
    EndBlockBound(off, len);
    EndBlockGrows(off, t, len);
    GapEarly(f, n, lo, k, hi);
    if k == NDIRECT {
      if f.mem[n].addrs[NDIRECT] == 0 {
        NoTableNoBlock(sb, f, owner, n);
      }
    } else if k > NDIRECT {
      assert (k - 1) * BSIZE < f.mem[n].size && f.Addr(n, k - 1) != 0;
      EntryHasTable(sb, f, owner, n, k - 1 - NDIRECT);
    }
  }

  lemma GrownNotCut(sb: Super, f: Files, owner: map<nat, Slot>, n: nat, off: nat, len: nat, t: nat)
    requires Ok(sb, f, owner) && f.IsInode(n) && n in f.mem && off <= f.mem[n].size < off + t && EndBlock(off, t) <= MAXFILE
    requires Need(f, n, off / BSIZE, EndBlock(off, t)) <= |FreeSet(f)|
    ensures !CutAtTable(f, n, off, len)
  {
    if CutAtTable(f, n, off, len) {
      NoTableNoBlock(sb, f, owner, n);
      HolesSeen(f, n, off / BSIZE, EndBlock(off, t), NDIRECT);
    }
  }

  /** Writing to a hole-free file leaves its disk copy behind exactly in one case. */
  lemma HoleFreeSaves(sb: Super, f: Files, owner: map<nat, Slot>, g: Files, n: nat, off: nat, len: nat, t: nat)
    requires Ok(sb, f, owner) && Paid(f, g, n, off, len, t).holds && f.IsInode(n) && n in f.mem && HoleFree(f, n) && off <= f.mem[n].size && off + len <= MAXBYTES
    ensures off + t > f.mem[n].size || !Disturbs(f, n, off, len).holds <==> !CutAtTable(f, n, off, len)
  {
    assert PaidIs(f, g, n, off, len, t) by { assert Audit(n); }
    EndBlockBound(off, len);
    if off + len <= f.mem[n].size {
      EndBlockInside(off, len, f.mem[n].size);
      NoGap(sb, f, owner, n, off / BSIZE, EndBlock(off, len));
    } else if off + t <= f.mem[n].size {
      CutWhere(sb, f, owner, n, off, t);
      CutShort(sb, f, owner, n, off, len, t);
    } else {
      GrownNotCut(sb, f, owner, n, off, len, t);
    }
  }

  // ----- one write after another -----

  lemma {:induction false} HolesSplit(f: Files, e: Files, n: nat, lo: nat, k: nat, lo': nat, k': nat)
    requires Ledger(f, e, n, lo, k).holds && lo <= lo' <= k <= k' <= MAXFILE
    ensures Holes(f, n, lo, k') == Holes(f, n, lo, k) + Holes(e, n, lo', k')
    decreases k'
  {
    if k' == k {
      HolesNone(e, n, lo', k);
    } else {
      HolesSplit(f, e, n, lo, k, lo', k' - 1);
    }
  }

  lemma NeedSplit(f: Files, e: Files, n: nat, lo: nat, k: nat, lo': nat, k': nat)
    requires Ledger(f, e, n, lo, k).holds && lo <= lo' <= k <= k' <= MAXFILE
    ensures Need(f, n, lo, k') == Need(f, n, lo, k) + Need(e, n, lo', k')
  {
    HolesSplit(f, e, n, lo, k, lo', k');
  }

  lemma LedgerTwice(f: Files, e: Files, g: Files, n: nat, lo: nat, k: nat, lo': nat, k': nat)
    requires Ledger(f, e, n, lo, k).holds && Ledger(e, g, n, lo', k').holds && lo <= lo' <= k <= k' <= MAXFILE
    ensures Ledger(f, g, n, lo, k').holds
  {
    NeedSplit(f, e, n, lo, k, lo', k');
  }

  lemma ChunkBlocks(off: nat, i: nat, m: nat)
    requires 0 < m
    ensures off / BSIZE <= (off + i) / BSIZE <= EndBlock(off, i) <= EndBlock(off + i, m) == EndBlock(off, i + m)
  {
  }

  /** How many chunks i bytes make. */
  function Chunks(i: nat): (n: nat)
    ensures 0 < i ==> 0 < n
  {
    if i == 0 then 0 else 1 + Chunks(i - Min(CHUNK, i))
  }

  /** Where the last chunk of i bytes starts. */
  function LastChunk(i: nat): (j: nat) {
    if i == 0 then 0 else (i - 1) / CHUNK * CHUNK
  }

  lemma EnoughLess(f: Files, n: nat, off: nat, i: nat, j: nat)
    requires Enough(f, n, off, j).holds && i <= j
    ensures Enough(f, n, off, i).holds
  {
    NeedGrows(f, n, off / BSIZE, EndBlock(off, i), EndBlock(off, j));
  }

  /** What filewrite has spent when i bytes are accounted for and tt of them written. */
  ghost predicate SpendingIs(f: Files, g: Files, n: nat, off: nat, i: nat, tt: nat) {
    && tt <= i
    && (tt == i ==> Ledger(f, g, n, off / BSIZE, EndBlock(off, i)).holds && Enough(f, n, off, i).holds)
    && (tt < i ==> !Enough(f, n, off, i).holds && Enough(f, n, off, LastChunk(i)).holds)
  }

  ghost function Spending(f: Files, g: Files, n: nat, off: nat, i: nat, tt: nat): (r: Claim) {
    Claim(forall x {:trigger Audit(x)} :: x == n && Audit(x) ==> SpendingIs(f, g, x, off, i, tt))
  }

  lemma SpendingStart(f: Files, n: nat, off: nat)
    requires n in f.mem && f.IsInode(n) && off <= MAXBYTES
    ensures Spending(f, f, n, off, 0, 0).holds
  {
    LedgerStart(f, n, off / BSIZE);
  }

  lemma EnoughSplit(f: Files, e: Files, n: nat, off: nat, i: nat, o: nat, m: nat, i': nat)
    requires Ledger(f, e, n, off / BSIZE, EndBlock(off, i)).holds && 0 < m && o == off + i && i' == i + m && off + i' <= MAXBYTES
    ensures Enough(f, n, off, i').holds <==> Enough(e, n, o, m).holds
  {
    ChunkBlocks(off, i, m);
    EndBlockBound(off, i');
    NeedSplit(f, e, n, off / BSIZE, EndBlock(off, i), o / BSIZE, EndBlock(o, m));
  }

  lemma LedgerSplit(f: Files, e: Files, g: Files, n: nat, off: nat, i: nat, o: nat, m: nat, i': nat)
    requires Ledger(f, e, n, off / BSIZE, EndBlock(off, i)).holds && 0 < m && o == off + i && i' == i + m && off + i' <= MAXBYTES
    requires Ledger(e, g, n, o / BSIZE, EndBlock(o, m)).holds
    ensures Ledger(f, g, n, off / BSIZE, EndBlock(off, i')).holds
  {
    ChunkBlocks(off, i, m);
    EndBlockBound(off, i');
    var k' := EndBlock(o, m);
    assert k' == EndBlock(off, i');
    LedgerTwice(f, e, g, n, off / BSIZE, EndBlock(off, i), o / BSIZE, k');
  }

  lemma PaidWhole(e: Files, g: Files, n: nat, o: nat, m: nat, t: nat)
    requires Paid(e, g, n, o, m, t).holds
    ensures (t == m <==> Enough(e, n, o, m).holds) && (t == m ==> Ledger(e, g, n, o / BSIZE, EndBlock(o, m)).holds)
  {
    assert Audit(n);
  }

  lemma SpendingWhole(f: Files, e: Files, n: nat, off: nat, i: nat)
    requires Spending(f, e, n, off, i, i).holds
    ensures Ledger(f, e, n, off / BSIZE, EndBlock(off, i)).holds && Enough(f, n, off, i).holds
  {
    assert Audit(n);
  }

  lemma LastChunkIs(i: nat, m: nat, i': nat)
    requires 0 < m <= CHUNK && i % CHUNK == 0 && i' == i + m
    ensures LastChunk(i') == i
  {
  }

  lemma SpendingOn(f: Files, e: Files, g: Files, n: nat, off: nat, i: nat, o: nat, m: nat, t: nat, i': nat, tt': nat)
    requires Spending(f, e, n, off, i, i).holds && o == off + i && i' == i + m && off + i' <= MAXBYTES && 0 < m <= CHUNK && i % CHUNK == 0
    requires Paid(e, g, n, o, m, t).holds && t <= m && tt' == i + t
    ensures Spending(f, g, n, off, i', tt').holds
  {
    SpendingWhole(f, e, n, off, i);
    PaidWhole(e, g, n, o, m, t);
    EnoughSplit(f, e, n, off, i, o, m, i');
    LastChunkIs(i, m, i');
    if t == m {
      LedgerSplit(f, e, g, n, off, i, o, m, i');
    }
  }

  /** A chunk is only taken if the ones before it were written whole. */
  lemma SendTaken(sb: Super, f0: Files, f: Files, n: nat, addr: seq<Byte>, off: nat, i: nat, tt: nat)
    requires Sending(sb, f0, f, n, addr, off, i, tt, true).holds
    ensures n in f0.mem && n in f.mem
    ensures off + i <= f.mem[n].size ==> tt == i && off <= f0.mem[n].size
    ensures off <= f0.mem[n].size && tt == i ==> off + i <= f.mem[n].size
  {
    assert Open(sb);
  }

  lemma SpendingShort(f: Files, e: Files, n: nat, off: nat, i: nat, tt: nat)
    requires Spending(f, e, n, off, i, tt).holds
    ensures tt <= i && (tt < i ==> !Enough(f, n, off, i).holds && Enough(f, n, off, LastChunk(i)).holds)
    ensures tt == i ==> Enough(f, n, off, i).holds
  {
    assert Audit(n);
  }

  /** filewrite has got through all chunks. */
  lemma VerdictDone(f0: Files, f: Files, n: nat, off: nat, i: nat, tt: nat)
    requires Spending(f0, f, n, off, i, tt).holds
    ensures (tt == i <==> Enough(f0, n, off, i).holds) && Enough(f0, n, off, LastChunk(i)).holds
  {
    SpendingShort(f0, f, n, off, i, tt);
    if tt == i {
      EnoughLess(f0, n, off, LastChunk(i), i);
    }
  }

  /** filewrite was refused after a chunk that was cut short. */
  lemma VerdictStopped(f0: Files, f: Files, n: nat, off: nat, i: nat, tt: nat, len: nat)
    requires Spending(f0, f, n, off, i, tt).holds && tt < i < len && i % CHUNK == 0
    ensures !Enough(f0, n, off, len).holds && !Enough(f0, n, off, LastChunk(len)).holds
  {
    SpendingShort(f0, f, n, off, i, tt);
    LastChunkAfter(i, len);
    if Enough(f0, n, off, len).holds {
      EnoughLess(f0, n, off, i, len);
    }
    if Enough(f0, n, off, LastChunk(len)).holds {
      EnoughLess(f0, n, off, i, LastChunk(len));
    }
  }

  lemma LastChunkAfter(i: nat, len: nat)
    requires i < len && i % CHUNK == 0
    ensures i <= LastChunk(len) <= len
  {
  }

  // ----- filewrite's loop -----

  /** Where the chunks start, what they have cost, and whether all is settled. */
  ghost predicate BookedIs(f0: Files, own0: map<nat, Slot>, f: Files, own: map<nat, Slot>, n: nat, len: nat, off: nat, i: nat, tt: nat, going: bool) {
    && (i % CHUNK == 0 || i == len) && (i > 0 ==> off + i <= MAXBYTES) && n in f0.mem && f0.mem[n].size <= MAXBYTES
    && (off <= f0.mem[n].size ==> Spending(f0, f, n, off, i, tt).holds)
    && (off <= f0.mem[n].size && !going ==> i < len && (tt < i || off + len > MAXBYTES))
    && (Settled(f0, own0).holds && tt == i ==> Settled(f, own).holds)
  }

  ghost function Booked(f0: Files, own0: map<nat, Slot>, f: Files, own: map<nat, Slot>, n: nat, len: nat, off: nat, i: nat, tt: nat, going: bool): (r: Claim) {
    Claim(forall x {:trigger Audit(x)} :: x == n && Audit(x) ==> BookedIs(f0, own0, f, own, x, len, off, i, tt, going))
  }

  lemma BookedStart(f: Files, own: map<nat, Slot>, n: nat, len: nat, off: nat)
    requires n in f.mem && f.IsInode(n) && f.mem[n].size <= MAXBYTES
    ensures Booked(f, own, f, own, n, len, off, 0, 0, true).holds
  {
    if off <= f.mem[n].size {
      SpendingStart(f, n, off);
    }
  }

  lemma BookedReady(f0: Files, own0: map<nat, Slot>, f: Files, own: map<nat, Slot>, n: nat, len: nat, off: nat, i: nat, tt: nat)
    requires Booked(f0, own0, f, own, n, len, off, i, tt, true).holds
    ensures i > 0 ==> off + i <= MAXBYTES
  {
    assert Audit(n);
  }

  lemma BookedOn(sb: Super, f0: Files, own0: map<nat, Slot>, e: Files, ownE: map<nat, Slot>, f: Files, own: map<nat, Slot>,
                 n: nat, addr: seq<Byte>, off: nat, i: nat, tt: nat, o: nat, m: nat, t: nat, i': nat, tt': nat)
    requires Sending(sb, f0, e, n, addr, off, i, tt, true).holds && Booked(f0, own0, e, ownE, n, |addr|, off, i, tt, true).holds
    requires i < |addr| && o == off + i && m == (if |addr| - i > CHUNK then CHUNK else |addr| - i) && i' == i + m && tt' == tt + t && t <= m
    requires n in e.mem && o <= e.mem[n].size && o + m <= MAXBYTES && Paid(e, f, n, o, m, t).holds
    requires Settled(e, ownE).holds && t == m ==> Settled(f, own).holds
    ensures Booked(f0, own0, f, own, n, |addr|, off, i', tt', true).holds
  {
    SendTaken(sb, f0, e, n, addr, off, i, tt);
    BookedMeans(f0, own0, e, ownE, n, |addr|, off, i, tt);
    ChunkStarts(i, m, |addr|, i');
    SpendingOn(f0, e, f, n, off, i, o, m, t, i', tt');
    BookedIntro(f0, own0, f, own, n, |addr|, off, i', tt');
  }

  lemma ChunkStarts(i: nat, m: nat, len: nat, i': nat)
    requires i < len && (i % CHUNK == 0 || i == len) && m == (if len - i > CHUNK then CHUNK else len - i) && i' == i + m
    ensures 0 < m <= CHUNK && i % CHUNK == 0 && (i' % CHUNK == 0 || i' == len)
  {
  }

  lemma BookedMeans(f0: Files, own0: map<nat, Slot>, f: Files, own: map<nat, Slot>, n: nat, len: nat, off: nat, i: nat, tt: nat)
    requires Booked(f0, own0, f, own, n, len, off, i, tt, true).holds
    ensures (i % CHUNK == 0 || i == len) && (i > 0 ==> off + i <= MAXBYTES) && n in f0.mem && f0.mem[n].size <= MAXBYTES
    ensures off <= f0.mem[n].size ==> Spending(f0, f, n, off, i, tt).holds
    ensures Settled(f0, own0).holds && tt == i ==> Settled(f, own).holds
  {
    assert Audit(n);
  }

  lemma BookedIntro(f0: Files, own0: map<nat, Slot>, f: Files, own: map<nat, Slot>, n: nat, len: nat, off: nat, i: nat, tt: nat)
    requires (i % CHUNK == 0 || i == len) && (i > 0 ==> off + i <= MAXBYTES) && n in f0.mem && f0.mem[n].size <= MAXBYTES
    requires off <= f0.mem[n].size ==> Spending(f0, f, n, off, i, tt).holds
    requires Settled(f0, own0).holds && tt == i ==> Settled(f, own).holds
    ensures Booked(f0, own0, f, own, n, len, off, i, tt, true).holds
  {
  }

  lemma BookedStop(sb: Super, f0: Files, own0: map<nat, Slot>, f: Files, own: map<nat, Slot>, n: nat, addr: seq<Byte>, off: nat, i: nat, tt: nat, m: nat)
    requires Sending(sb, f0, f, n, addr, off, i, tt, true).holds && Booked(f0, own0, f, own, n, |addr|, off, i, tt, true).holds
    requires i < |addr| && i + m <= |addr| && n in f.mem && (off + i > f.mem[n].size || off + i + m > MAXBYTES)
    ensures Booked(f0, own0, f, own, n, |addr|, off, i, tt, false).holds
  {
    SendTaken(sb, f0, f, n, addr, off, i, tt);
    assert BookedIs(f0, own0, f, own, n, |addr|, off, i, tt, true) by { assert Audit(n); }
    if off <= f0.mem[n].size {
      SpendingShort(f0, f, n, off, i, tt);
    }
  }

  /** What filewrite answers and writes, from the free blocks there were at the start. */
  lemma BookedEnds(f0: Files, own0: map<nat, Slot>, f: Files, own: map<nat, Slot>, n: nat, len: nat, off: nat, i: nat, tt: nat, going: bool)
    requires Booked(f0, own0, f, own, n, len, off, i, tt, going).holds && i <= len && (going ==> i == len) && (!going ==> i < len)
    ensures n in f0.mem
    ensures off <= f0.mem[n].size ==> (tt == len <==> off + len <= MAXBYTES && Enough(f0, n, off, len).holds)
    ensures off <= f0.mem[n].size && 0 < len ==> (i == len <==> off + len <= MAXBYTES && Enough(f0, n, off, LastChunk(len)).holds)
    ensures off <= f0.mem[n].size && tt == len ==> Ledger(f0, f, n, off / BSIZE, EndBlock(off, len)).holds
    ensures Settled(f0, own0).holds && tt == i ==> Settled(f, own).holds
  {
    assert BookedIs(f0, own0, f, own, n, len, off, i, tt, going) by { assert Audit(n); }
    if off <= f0.mem[n].size {
      SpendingShort(f0, f, n, off, i, tt);
      if i == len {
        VerdictDone(f0, f, n, off, i, tt);
        if tt == i {
          SpendingWhole(f0, f, n, off, i);
        }
      } else if off + len <= MAXBYTES {
        VerdictStopped(f0, f, n, off, i, tt, len);
      }
    }
  }

  lemma WrittenWhole(f: Files, g: Files, n: nat, off: nat, src: seq<Byte>, t: nat, going: bool)
    requires going ==> WrittenSync(f, g, n, off, src, t).holds
    ensures going ==> Written(f, g, n, off, src, t).holds && t <= |src|
  {
  }

  /** One round of filewrite's loop: chunk [i, i + m) was refused, or accepted and t bytes of it written. */
  lemma ChunkDone(sb: Super, f0: Files, own0: map<nat, Slot>, e: Files, ownE: map<nat, Slot>, f: Files, own: map<nat, Slot>,
                  n: nat, addr: seq<Byte>, off: nat, i: nat, tt: nat, o: nat, m: nat, t: nat, going: bool, i': nat, tt': nat)
    requires Sending(sb, f0, e, n, addr, off, i, tt, true).holds && Booked(f0, own0, e, ownE, n, |addr|, off, i, tt, true).holds
    requires i < |addr| && o == off + i && m == (if |addr| - i > CHUNK then CHUNK else |addr| - i) && n in e.mem
    requires going <==> o <= e.mem[n].size && o + m <= MAXBYTES
    requires !going ==> f == e && own == ownE
    requires going ==> t <= m && Written(e, f, n, o, addr[i..i + m], t).holds && Paid(e, f, n, o, m, t).holds
    requires going && t < m ==> Exhausted(sb, f) && e.mem[n].size <= o + t
    requires going && Settled(e, ownE).holds && t == m ==> Settled(f, own).holds
    requires i' == (if going then i + m else i) && tt' == (if going then tt + t else tt)
    ensures Sending(sb, f0, f, n, addr, off, i', tt', going).holds && Booked(f0, own0, f, own, n, |addr|, off, i', tt', going).holds
  {
    SendNext(sb, f0, e, f, n, addr, off, i, tt, m, t, going);
    if going {
      BookedOn(sb, f0, own0, e, ownE, f, own, n, addr, off, i, tt, o, m, t, i', tt');
    } else {
      BookedStop(sb, f0, own0, f, own, n, addr, off, i, tt, m);
    }
  }
}
