/** How many data blocks mkfs needs for its files, and how many there are. */
module MkfsLedger {
  import opened Basics
  import opened Words
  import opened Geometry
  import opened Layout
  import opened Ownership
  import opened FsSteps
  import opened FsLedger
  import opened MkfsSteps

  // ----- the blocks of the groups -----

  /** Data blocks in all groups together. */
  function DataCount(sb: Super): (n: int) {
    sb.ngroups * (sb.bpg - sb.Meta())
  }

  ghost function Run(lo: nat, n: nat): (r: set<nat>)
    ensures |r| == n && forall b :: b in r <==> lo <= b < lo + n
  {
    if n == 0 then {} else Run(lo, n - 1) + {lo + n - 1}
  }

  lemma {:induction false} DataInGroups(sb: Super, g: nat) returns (s: set<nat>)
    requires sb.Wf() && g <= sb.ngroups
    ensures |s| == g * (sb.bpg - sb.Meta())
    ensures forall b: nat :: b in s <==> sb.Data(b) && b < sb.GroupStart(g)
  {
    if g == 0 {
      s := {};
    } else {
      var lo := DataInGroups(sb, g - 1);
      var hi := DataInGroup(sb, g - 1);
      assert lo !! hi;
      s := lo + hi;
      OneMore(g, sb.bpg - sb.Meta());
    }
  }

  lemma DataInGroup(sb: Super, g: nat) returns (s: set<nat>)
    requires sb.Wf() && g < sb.ngroups
    ensures |s| == sb.bpg - sb.Meta() && sb.GroupStart(g) <= sb.GroupStart(g + 1)
    ensures forall b: nat :: b in s <==> sb.Data(b) && sb.GroupStart(g) <= b < sb.GroupStart(g + 1)
  {
    s := Run(sb.GroupStart(g) + sb.Meta(), sb.bpg - sb.Meta());
    NextGroup(sb, g);
    forall b: nat ensures b in s <==> sb.Data(b) && sb.GroupStart(g) <= b < sb.GroupStart(g + 1) {
      DataOfGroup(sb, g, b);
    }
  }

  lemma OneMore(g: int, m: int)
    ensures g * m == (g - 1) * m + m
  {
  }

  lemma DataOfGroup(sb: Super, g: nat, b: nat)
    requires sb.Wf() && g < sb.ngroups
    ensures sb.Data(b) && sb.GroupStart(g) <= b < sb.GroupStart(g) + sb.bpg <==> sb.GroupStart(g) + sb.Meta() <= b < sb.GroupStart(g) + sb.bpg
  {
    if sb.GroupStart(g) <= b < sb.GroupStart(g) + sb.bpg {
      InGroup(sb, g, b - sb.GroupStart(g));
    }
  }

  /** While nothing has been handed out, every data block is free. */
  lemma AllFree(sb: Super, d: seq<Block>, f: Files, free: nat)
    requires Draft(sb, d, map[], f).holds && Pool(sb, f, free).holds && free == sb.Start() + sb.Meta()
    ensures |FreeSet(f)| == DataCount(sb)
  {
    assert Open(sb);
    var s := DataInGroups(sb, sb.ngroups);
    forall b: nat ensures b in FreeSet(f) <==> b in s {
      if sb.Data(b) {
        DataFrom(sb, b);
      }
    }
    assert FreeSet(f) == s;
  }

  /** alloc_block has run out exactly if no block is free. */
  lemma NoRoom(sb: Super, d: seq<Block>, mem: map<nat, Inode>, f: Files, free: nat)
    requires Draft(sb, d, mem, f).holds && Pool(sb, f, free).holds && free >= sb.GroupStart(sb.ngroups)
    ensures FreeSet(f) == {}
  {
    assert Open(sb);
  }

  /** What has not been handed out is still zero. */
  lemma PoolZero(sb: Super, d: seq<Block>, f: Files, free: nat)
    requires Shows(sb, d, map[], f) && Pool(sb, f, free).holds
    ensures forall b :: Free(f, b) ==> f.disk.data[b] == ZeroBlock
  {
    assert Open(sb);
  }

  // ----- the blocks of a file -----

  /** Blocks a file of size bytes takes, with its indirect table. */
  function Blocks(size: nat): (n: nat) {
    EndBlock(0, size) + if EndBlock(0, size) > NDIRECT then 1 else 0
  }

  lemma BlocksGrow(a: nat, b: nat)
    requires a <= b
    ensures Blocks(a) <= Blocks(b)
  {
  }

  /** File n has an indirect table exactly if it is too long for its direct blocks. */
  ghost predicate TableFits(f: Files, n: nat) {
    f.IsInode(n) && (f.Cur(n).addrs[NDIRECT] == 0 <==> f.Cur(n).size <= NDIRECT * BSIZE)
  }

  /** The blocks from c on are missing, and no others. */
  lemma {:induction false} HolesFrom(f: Files, n: nat, lo: nat, hi: nat, c: nat)
    requires f.IsInode(n) && hi <= MAXFILE && forall bn: nat :: bn < MAXFILE ==> (f.Addr(n, bn) == 0 <==> c <= bn)
    ensures Holes(f, n, lo, hi) == if hi <= lo || hi <= c then 0 else if lo <= c then hi - c else hi - lo
    decreases hi
  {
    if lo < hi {
      HolesFrom(f, n, lo, hi - 1, c);
      assert f.Addr(n, hi - 1) == 0 <==> c <= hi - 1;
    }
  }

  lemma AppendBlocks(off: nat, len: nat)
    requires 0 < len
    ensures var lo, hi, c := off / BSIZE, EndBlock(off, len), EndBlock(0, off);
      lo <= c <= lo + 1 && c <= hi && lo < hi && hi == EndBlock(0, off + len) && (off <= NDIRECT * BSIZE <==> c <= NDIRECT)
  {
  }

  lemma BlockBeyond(bn: nat, size: nat)
    ensures bn * BSIZE < size <==> bn < EndBlock(0, size)
  {
  }

  /** Appending to a file without holes takes the blocks that the longer file has more. */
  lemma NeedBlocks(f: Files, n: nat, len: nat)
    requires f.IsInode(n) && HoleFree(f, n) && Tight(f, n) && TableFits(f, n) && f.Cur(n).size + len <= MAXBYTES
    ensures var off := f.Cur(n).size;
      EndBlock(off, len) <= MAXFILE && Need(f, n, off / BSIZE, EndBlock(off, len)) == Blocks(off + len) - Blocks(off)
  {
    var off := f.Cur(n).size;
    EndBlockBound(off, len);
    var c := EndBlock(0, off);
    forall bn: nat | bn < MAXFILE ensures f.Addr(n, bn) == 0 <==> c <= bn {
      BlockBeyond(bn, off);
    }
    HolesFrom(f, n, off / BSIZE, EndBlock(off, len), c);
    if 0 < len {
      AppendBlocks(off, len);
    }
  }

  // ----- iappend -----

  /** Always true; the stages of iappend are looked into only where this is mentioned. */
  ghost predicate Page(n: nat) {
    true
  }

  /** g is f with inode n at hand. */
  ghost function Loaded(f: Files, g: Files, n: nat): (r: Claim) {
    Claim(forall x {:trigger Page(x)} :: x == n && Page(x) ==> f.IsInode(x) && g == Load(f, x) && SameBytes(f, g) && SamePtrs(f, g))
  }

  /** g is f with the size of inode n set and the inode written. */
  ghost function Flushed(f: Files, g: Files, n: nat, size: Word): (r: Claim) {
    Claim(forall x {:trigger Page(x)} :: x == n && Page(x) ==> Finished(f, g, x, size).holds)
  }

  lemma {:induction false} HolesSame(f: Files, g: Files, n: nat, lo: nat, hi: nat)
    requires SamePtrs(f, g) && f.IsInode(n) && hi <= MAXFILE
    ensures g.IsInode(n) && Holes(g, n, lo, hi) == Holes(f, n, lo, hi)
    decreases hi
  {
    if lo < hi {
      HolesSame(f, g, n, lo, hi - 1);
      assert f.IsSlot(SlotOf(n, hi - 1));
    }
  }

  lemma NeedSame(f: Files, g: Files, n: nat, lo: nat, hi: nat)
    requires SamePtrs(f, g) && f.IsInode(n) && hi <= MAXFILE
    ensures g.IsInode(n) && Need(g, n, lo, hi) == Need(f, n, lo, hi)
  {
    HolesSame(f, g, n, lo, hi);
    assert f.IsSlot(Direct(n, NDIRECT)) && g.Ptr(Direct(n, NDIRECT)) == f.Ptr(Direct(n, NDIRECT));
  }

  /** What iappend of len bytes to file n took. */
  ghost predicate AppendCost(f: Files, g: Files, n: nat, len: nat) {
    && f.IsInode(n) && (TableFits(f, n) ==> TableFits(g, n))
    && var off := f.Cur(n).size;
       EndBlock(off, len) <= MAXFILE && |FreeSet(f)| == |FreeSet(g)| + Need(f, n, off / BSIZE, EndBlock(off, len))
  }

  lemma TableLonger(off: nat, len: nat)
    ensures off + len <= NDIRECT * BSIZE <==> off <= NDIRECT * BSIZE && !(off / BSIZE < EndBlock(off, len) && NDIRECT < EndBlock(off, len))
  {
  }

  /** Reading the inode and writing it back take nothing. */
  lemma AppendCosts(f0: Files, f1: Files, f2: Files, f: Files, n: nat, off: nat, len: nat)
    requires f0.IsInode(n) && f0.mem == map[] && f1 == Load(f0, n) && SamePtrs(f0, f1) && off == f0.disk.dinode[n].size
    requires off + len <= MAXBYTES && Ledger(f1, f2, n, off / BSIZE, EndBlock(off, len)).holds && Finished(f2, f, n, off + len).holds && f.mem == map[]
    ensures AppendCost(f0, f, n, len)
  {
    SameFree(f0, f1);
    SameFree(f2, f);
    EndBlockBound(off, len);
    NeedSame(f0, f1, n, off / BSIZE, EndBlock(off, len));
    TableLonger(off, len);
    assert f.disk.dinode[n].addrs == f2.mem[n].addrs;
  }

  lemma FlushedFree(f0: Files, f1: Files, f: Files, n: nat, size: Word)
    requires Loaded(f0, f1, n).holds && Flushed(f1, f, n, size).holds
    ensures FreeSet(f) == FreeSet(f0)
  {
    assert Page(n);
    SameFree(f0, f);
  }

  ghost function Costs(f: Files, g: Files, n: nat, len: nat): (r: Claim) {
    Claim(forall x {:trigger Page(x)} :: x == n && Page(x) ==> AppendCost(f, g, x, len))
  }

  /** File n was made longer by xp, and that took the blocks it should. */
  ghost function Longer(f: Files, g: Files, n: nat, xp: seq<Byte>): (r: Claim) {
    Claim(forall x {:trigger Audit(x)} :: x == n && Audit(x) ==> g.mem == map[] && Appended(f, g, x, xp) && Costs(f, g, x, |xp|).holds)
  }

  lemma LongerBy(f0: Files, f1: Files, f2: Files, f: Files, n: nat, off: nat, xp: seq<Byte>, len: nat, size: Word)
    requires f0.IsInode(n) && f0.mem == map[] && Loaded(f0, f1, n).holds && off == f0.disk.dinode[n].size && size <= MAXBYTES
    requires len == |xp| && size == off + len && Growing(f1, f2, n, off, xp, len).holds && Flushed(f2, f, n, size).holds && f.mem == map[]
    ensures Longer(f0, f, n, xp).holds
  {
    LongerBytes(f0, f1, f2, f, n, off, xp, len, size);
    GrowingLedger(f1, f2, n, off, xp, len);
    LongerCosts(f0, f1, f2, f, n, off, len, size);
  }

  lemma LongerBytes(f0: Files, f1: Files, f2: Files, f: Files, n: nat, off: nat, xp: seq<Byte>, len: nat, size: Word)
    requires f0.IsInode(n) && f0.mem == map[] && Loaded(f0, f1, n).holds && off == f0.disk.dinode[n].size && size <= MAXBYTES
    requires len == |xp| && size == off + len && Growing(f1, f2, n, off, xp, len).holds && Flushed(f2, f, n, size).holds && f.mem == map[]
    ensures Appended(f0, f, n, xp)
  {
    assert Page(n);
    AppendedBy(f0, f1, f2, f, n, xp);
  }

  lemma GrowingLedger(f: Files, g: Files, n: nat, off: nat, xp: seq<Byte>, len: nat)
    requires len == |xp| && Growing(f, g, n, off, xp, len).holds
    ensures Ledgered(f, g, n, off, len).holds
  {
    GrowingMeans(f, g, n, off, xp, len);
    assert Audit(n);
  }

  ghost function Ledgered(f: Files, g: Files, n: nat, off: nat, len: nat): (r: Claim) {
    Claim(forall x {:trigger Page(x)} :: x == n && Page(x) ==> Ledger(f, g, x, off / BSIZE, EndBlock(off, len)).holds)
  }

  lemma LongerCosts(f0: Files, f1: Files, f2: Files, f: Files, n: nat, off: nat, len: nat, size: Word)
    requires f0.IsInode(n) && f0.mem == map[] && Loaded(f0, f1, n).holds && off == f0.disk.dinode[n].size && size <= MAXBYTES
    requires size == off + len && Ledgered(f1, f2, n, off, len).holds && Flushed(f2, f, n, size).holds && f.mem == map[]
    ensures Costs(f0, f, n, len).holds
  {
    assert Page(n);
    AppendCosts(f0, f1, f2, f, n, off, len);
  }

  /** The first tot bytes of xp have been appended, in blocks that are accounted for. */
  ghost function Growing(f: Files, g: Files, n: nat, off: nat, xp: seq<Byte>, tot: nat): (r: Claim) {
    Claim(forall x {:trigger Page(x)} :: x == n && Page(x) ==>
      && tot <= |xp| && off + tot <= MAXBYTES && (tot == 0 || tot == |xp| || (off + tot) % BSIZE == 0)
      && Appending(f, g, x, off, xp, tot).holds && Running(f, g, x, off, tot, true).holds)
  }

  lemma GrowingStart(f: Files, n: nat, off: nat, xp: seq<Byte>)
    requires n in f.mem && f.IsInode(n) && off <= MAXBYTES
    ensures Growing(f, f, n, off, xp, 0).holds
  {
    AppendNothing(f, n, off, xp);
    RunningStart(f, n, off);
  }

  lemma GrowingMeans(f: Files, g: Files, n: nat, off: nat, xp: seq<Byte>, tot: nat)
    requires Growing(f, g, n, off, xp, tot).holds
    ensures tot <= |xp| && off + tot <= MAXBYTES && (tot == 0 || tot == |xp| || (off + tot) % BSIZE == 0)
    ensures Running(f, g, n, off, tot, true).holds
  {
    assert Page(n);
  }

  /** The bytes of piece were written at o, all in block a, or there was no block for them. */
  ghost function PutOne(f: Files, e: Files, g: Files, n: nat, o: nat, piece: seq<Byte>, a: Word): (r: Claim) {
    Claim(forall x {:trigger Page(x)} :: x == n && Page(x) ==> Turn(f, g, x, o / BSIZE, a).holds && (a != 0 ==> OnePiece(f, e, g, x, o, piece).holds))
  }

  /** Where iappend's loop stands after a round. */
  ghost function Round(f: Files, g: Files, n: nat, off: nat, xp: seq<Byte>, tot: nat, ok: bool): (r: Claim) {
    Claim(if ok then Growing(f, g, n, off, xp, tot).holds else tot < |xp| && Running(f, g, n, off, tot, false).holds)
  }

  lemma RoundRuns(f0: Files, f1: Files, e: Files, f: Files, n: nat, off: nat, xp: seq<Byte>, tot: nat, o: nat, m: nat, piece: seq<Byte>, a: Word)
    requires tot < |xp| && o == off + tot && o / BSIZE < MAXFILE && 0 < m && o % BSIZE + m <= BSIZE
    requires Growing(f0, f1, n, off, xp, tot).holds && PutOne(f1, e, f, n, o, piece, a).holds
    ensures Running(f0, f, n, off, if a != 0 then tot + m else tot, a != 0).holds
  {
    assert Page(n);
    PieceInBlock(off, tot, m);
    RunningOn(f0, f1, f, n, off, tot, m, o / BSIZE, a);
  }

  lemma RoundAppends(f0: Files, f1: Files, e: Files, f: Files, n: nat, off: nat, xp: seq<Byte>, tot: nat, o: nat, m: nat, piece: seq<Byte>, a: Word)
    requires tot < |xp| && o == off + tot && 0 < m == |piece| <= |xp| - tot && piece == xp[tot..tot + m] && o % BSIZE + m <= BSIZE
    requires Growing(f0, f1, n, off, xp, tot).holds && PutOne(f1, e, f, n, o, piece, a).holds && a != 0
    ensures Appending(f0, f, n, off, xp, tot + m).holds
  {
    assert Page(n);
    AppendOn(f0, f1, e, f, n, off, xp, tot, piece);
  }

  lemma RoundOn(f0: Files, f1: Files, e: Files, f: Files, n: nat, off: nat, xp: seq<Byte>, tot: nat, o: nat, m: nat, piece: seq<Byte>, a: Word, t: nat)
    requires tot < |xp| && o == off + tot && o / BSIZE < MAXFILE && 0 < m == |piece| <= |xp| - tot && piece == xp[tot..tot + m]
    requires o % BSIZE + m <= BSIZE && (m < |xp| - tot ==> (o + m) % BSIZE == 0) && t == if a != 0 then tot + m else tot
    requires Growing(f0, f1, n, off, xp, tot).holds && PutOne(f1, e, f, n, o, piece, a).holds
    ensures Round(f0, f, n, off, xp, t, a != 0).holds
  {
    RoundRuns(f0, f1, e, f, n, off, xp, tot, o, m, piece, a);
    if a != 0 {
      RoundAppends(f0, f1, e, f, n, off, xp, tot, o, m, piece, a);
    }
  }

  /** What iappend's loop comes to. */
  lemma RoundEnds(f0: Files, f: Files, n: nat, off: nat, xp: seq<Byte>, tot: nat, ok: bool)
    requires off + |xp| <= MAXBYTES && Round(f0, f, n, off, xp, tot, ok).holds && (ok ==> tot == |xp|)
    ensures ok <==> Enough(f0, n, off, |xp|).holds
  {
    if ok {
      GrowingMeans(f0, f, n, off, xp, tot);
    }
    RunningEnds(f0, f, n, off, |xp|, tot);
    PaidWhole(f0, f, n, off, |xp|, tot);
  }

  /** There is room for len more bytes in file n. */
  ghost function AppendFits(f: Files, n: nat, len: nat): (r: Claim) {
    Claim(forall x {:trigger Page(x)} :: x == n && Page(x) ==>
      && f.IsInode(x)
      && var off := f.Cur(x).size;
         off + len <= MAXBYTES && EndBlock(off, len) <= MAXFILE && Need(f, x, off / BSIZE, EndBlock(off, len)) <= |FreeSet(f)|)
  }

  lemma EnoughLoaded(f: Files, g: Files, n: nat, off: nat, len: nat)
    requires f.IsInode(n) && f.mem == map[] && Loaded(f, g, n).holds && off == f.disk.dinode[n].size
    ensures AppendFits(f, n, len).holds <==> off + len <= MAXBYTES && Enough(g, n, off, len).holds
  {
    assert Page(n);
    SameFree(f, g);
    if EndBlock(off, len) <= MAXFILE {
      NeedSame(f, g, n, off / BSIZE, EndBlock(off, len));
    }
  }

  // ----- all files -----

  function Total(tree: seq<seq<Byte>>): (n: nat) {
    if tree == [] then 0 else Total(tree[..|tree| - 1]) + Blocks(|tree[|tree| - 1]|)
  }

  lemma {:induction false} TotalSet(tree: seq<seq<Byte>>, i: nat, xs: seq<Byte>)
    requires i < |tree|
    ensures Total(tree[i := xs]) == Total(tree) - Blocks(|tree[i]|) + Blocks(|xs|)
    decreases |tree|
  {
    var k := |tree| - 1;
    if i == k {
      assert tree[i := xs][..k] == tree[..k];
    } else {
      TotalSet(tree[..k], i, xs);
      assert tree[i := xs][..k] == tree[..k][i := xs];
    }
  }

  lemma TotalSnoc(tree: seq<seq<Byte>>)
    ensures Total(tree + [[]]) == Total(tree)
  {
    assert (tree + [[]])[..|tree|] == tree;
  }

  /** The files are those of tree, and the free blocks and theirs are all the data blocks there are. */
  ghost predicate BalanceIs(sb: Super, f: Files, tree: seq<seq<Byte>>) {
    && Tree(f, tree).holds && (forall n: nat :: 1 <= n <= |tree| ==> TableFits(f, n))
    && |FreeSet(f)| + Total(tree) == DataCount(sb)
  }

  ghost function Balance(sb: Super, f: Files, tree: seq<seq<Byte>>): (r: Claim) {
    Claim(forall x {:trigger Audit(x)} :: x == |tree| && Audit(x) ==> BalanceIs(sb, f, tree))
  }

  lemma BalanceStart(sb: Super, d: seq<Block>, f: Files, free: nat)
    requires Draft(sb, d, map[], f).holds && Pool(sb, f, free).holds && free == sb.Start() + sb.Meta() && Tree(f, []).holds
    ensures Balance(sb, f, []).holds
  {
    AllFree(sb, d, f, free);
  }

  lemma BalanceBorn(sb: Super, f: Files, owner: map<nat, Slot>, tree: seq<seq<Byte>>, n: nat, typ: Half, g: Files, t: seq<seq<Byte>>)
    requires Balance(sb, f, tree).holds && Ok(sb, f, owner) && f.mem == map[] && n == |tree| + 1 && f.IsInode(n) && typ == KindOf(n)
    requires g == Reset(f, n, NewInode(typ)) && t == tree + [[]]
    ensures Balance(sb, g, t).holds
  {
    assert BalanceIs(sb, f, tree) by { assert Audit(|tree|); }
    TreeBorn(sb, f, owner, tree, n, typ);
    BornTotals(sb, f, tree, n, typ, g, t);
  }

  lemma BornTotals(sb: Super, f: Files, tree: seq<seq<Byte>>, n: nat, typ: Half, g: Files, t: seq<seq<Byte>>)
    requires (forall m: nat :: 1 <= m <= |tree| ==> TableFits(f, m)) && f.mem == map[] && n == |tree| + 1 && f.IsInode(n)
    requires g == Reset(f, n, NewInode(typ)) && t == tree + [[]]
    ensures (forall m: nat :: 1 <= m <= |t| ==> TableFits(g, m)) && FreeSet(g) == FreeSet(f) && Total(t) == Total(tree)
  {
    SameFree(f, g);
    TotalSnoc(tree);
    forall m: nat | 1 <= m <= n ensures TableFits(g, m) {
      if m < n {
        assert TableFits(f, m);
      }
    }
  }

  lemma BalanceTree(sb: Super, f: Files, tree: seq<seq<Byte>>)
    requires Balance(sb, f, tree).holds
    ensures Tree(f, tree).holds
  {
    assert Audit(|tree|);
  }

  /** File n, of size bytes, has exactly the blocks it needs. */
  ghost predicate Exact(f: Files, n: nat, size: nat) {
    f.IsInode(n) && f.Cur(n).size == size && HoleFree(f, n) && Tight(f, n) && TableFits(f, n)
  }

  lemma BalanceFile(sb: Super, f: Files, tree: seq<seq<Byte>>, n: nat)
    requires Balance(sb, f, tree).holds && 1 <= n <= |tree|
    ensures Exact(f, n, |tree[n - 1]|) && f.disk.dinode[n].typ != 0
  {
    assert BalanceIs(sb, f, tree) by { assert Audit(|tree|); }
    TreeFile(f, tree, n);
    assert TableFits(f, n);
  }

  /** Whether there is room for xp at the end of file n. */
  lemma BalanceRoom(sb: Super, f: Files, tree: seq<seq<Byte>>, n: nat, off: nat, xp: seq<Byte>)
    requires Balance(sb, f, tree).holds && 1 <= n <= |tree| && Exact(f, n, off) && off == |tree[n - 1]| && off + |xp| <= MAXBYTES
    ensures EndBlock(off, |xp|) <= MAXFILE
    ensures Total(tree[n - 1 := tree[n - 1] + xp]) == Total(tree) + Need(f, n, off / BSIZE, EndBlock(off, |xp|))
    ensures Need(f, n, off / BSIZE, EndBlock(off, |xp|)) <= |FreeSet(f)| <==> Total(tree[n - 1 := tree[n - 1] + xp]) <= DataCount(sb)
  {
    var need := BalanceNeed(f, tree, n, off, xp);
    BalanceRest(sb, f, tree);
  }

  lemma BalanceFits(sb: Super, f: Files, tree: seq<seq<Byte>>, n: nat, off: nat, xp: seq<Byte>)
    requires Balance(sb, f, tree).holds && 1 <= n <= |tree| && Exact(f, n, off) && off == |tree[n - 1]|
    ensures AppendFits(f, n, |xp|).holds <==> off + |xp| <= MAXBYTES && Total(tree[n - 1 := tree[n - 1] + xp]) <= DataCount(sb)
  {
    assert Page(n);
    if off + |xp| <= MAXBYTES {
      BalanceRoom(sb, f, tree, n, off, xp);
    }
  }

  lemma BalanceHolds(sb: Super, f: Files, tree: seq<seq<Byte>>)
    requires Balance(sb, f, tree).holds
    ensures Total(tree) <= DataCount(sb)
  {
    BalanceRest(sb, f, tree);
  }

  lemma BalanceNeed(f: Files, tree: seq<seq<Byte>>, n: nat, off: nat, xp: seq<Byte>) returns (need: nat)
    requires 1 <= n <= |tree| && Exact(f, n, off) && off == |tree[n - 1]| && off + |xp| <= MAXBYTES
    ensures EndBlock(off, |xp|) <= MAXFILE && need == Need(f, n, off / BSIZE, EndBlock(off, |xp|))
    ensures Total(tree[n - 1 := tree[n - 1] + xp]) == Total(tree) + need
  {
    NeedBlocks(f, n, |xp|);
    TotalLonger(tree, n - 1, xp);
    need := Need(f, n, off / BSIZE, EndBlock(off, |xp|));
  }

  lemma TotalLonger(tree: seq<seq<Byte>>, i: nat, xp: seq<Byte>)
    requires i < |tree|
    ensures Total(tree[i := tree[i] + xp]) == Total(tree) - Blocks(|tree[i]|) + Blocks(|tree[i]| + |xp|)
  {
    TotalSet(tree, i, tree[i] + xp);
  }

  lemma BalanceAppended(sb: Super, f: Files, g: Files, tree: seq<seq<Byte>>, n: nat, off: nat, xp: seq<Byte>)
    requires Balance(sb, f, tree).holds && 1 <= n <= |tree| && Exact(f, n, off) && off == |tree[n - 1]| && off + |xp| <= MAXBYTES
    requires Longer(f, g, n, xp).holds
    ensures Balance(sb, g, tree[n - 1 := tree[n - 1] + xp]).holds
  {
    assert Appended(f, g, n, xp) && Costs(f, g, n, |xp|).holds by { assert Audit(n); }
    assert AppendCost(f, g, n, |xp|) by { assert Page(n); }
    BalanceRoom(sb, f, tree, n, off, xp);
    BalanceRest(sb, f, tree);
    BalanceTables(sb, f, g, tree, n, xp);
    assert Tree(g, tree[n - 1 := tree[n - 1] + xp]).holds by {
      BalanceTree(sb, f, tree);
      TreeAppended(f, g, tree, n, xp);
    }
  }

  lemma BalanceTables(sb: Super, f: Files, g: Files, tree: seq<seq<Byte>>, n: nat, xp: seq<Byte>)
    requires Balance(sb, f, tree).holds && 1 <= n <= |tree| && Appended(f, g, n, xp) && AppendCost(f, g, n, |xp|)
    ensures forall m: nat :: 1 <= m <= |tree| ==> TableFits(g, m)
  {
    assert BalanceIs(sb, f, tree) by { assert Audit(|tree|); }
    forall m: nat | 1 <= m <= |tree| ensures TableFits(g, m) {
      assert TableFits(f, m);
    }
  }

  lemma BalanceRest(sb: Super, f: Files, tree: seq<seq<Byte>>)
    requires Balance(sb, f, tree).holds
    ensures |FreeSet(f)| == DataCount(sb) - Total(tree)
  {
    assert Audit(|tree|);
  }

  // ----- the files on the command line -----

  function DataBlocks(files: seq<Source>, k: nat): (n: nat)
    requires k <= |files|
  {
    if k == 0 then 0 else DataBlocks(files, k - 1) + Blocks(|files[k - 1].data|)
  }

  /** The blocks for the root directory with k files in it, and for these files. */
  function Required(files: seq<Source>, k: nat): (n: nat)
    requires k <= |files|
  {
    Blocks((k + 2) * (2 + DIRSIZ)) + DataBlocks(files, k)
  }

  /** mkfs has inodes, names, sizes and blocks for the first k files. */
  predicate FitsFirst(sb: Super, files: seq<Source>, k: nat)
    requires k <= |files|
  {
    && k + 1 < sb.ninodes && (k + 2) * (2 + DIRSIZ) <= MAXBYTES && Required(files, k) <= DataCount(sb)
    && forall i :: 0 <= i < k ==> SLASH !in files[i].name && |files[i].data| <= MAXBYTES
  }

  lemma {:induction false} FitsLess(sb: Super, files: seq<Source>, j: nat, k: nat)
    requires j <= k <= |files| && FitsFirst(sb, files, k)
    ensures FitsFirst(sb, files, j)
    decreases k
  {
    if j < k {
      BlocksGrow((k + 1) * (2 + DIRSIZ), (k + 2) * (2 + DIRSIZ));
      FitsLess(sb, files, j, k - 1);
    }
  }

  lemma {:induction false} TotalListed(files: seq<Source>, k: nat, t: seq<seq<Byte>>)
    requires k <= |files| && |t| == k + 1 && forall i :: 0 <= i < k ==> t[i + 1] == files[i].data
    ensures Total(t) == Blocks(|t[0]|) + DataBlocks(files, k)
    decreases k
  {
    if k == 0 {
      assert t[..0] == [];
    } else {
      TotalListed(files, k - 1, t[..k]);
    }
  }

  lemma TotalRequired(files: seq<Source>, k: nat, t: seq<seq<Byte>>)
    requires Listed(files, k, t).holds
    ensures k <= |files| && Total(t) == Required(files, k)
  {
    ListedSize(files, k, t);
    TotalListed(files, k, t);
  }

  lemma TotalPrefix(t: seq<seq<Byte>>, i: nat, data: seq<Byte>, off: nat)
    requires i < |t| && off <= |data|
    ensures Total(t[i := data[..off]]) <= Total(t[i := data])
  {
    TotalSet(t, i, data[..off]);
    TotalSet(t, i, data);
    BlocksGrow(off, |data|);
  }

  ghost function Fitting(sb: Super, files: seq<Source>, k: nat): (r: Claim) {
    Claim(forall x {:trigger Audit(x)} :: x == k && Audit(x) ==> x <= |files| && FitsFirst(sb, files, x))
  }

  lemma FittingIs(sb: Super, files: seq<Source>, k: nat)
    requires k <= |files|
    ensures Fitting(sb, files, k).holds <==> FitsFirst(sb, files, k)
  {
    assert Audit(k);
  }

  lemma FittingLess(sb: Super, files: seq<Source>, j: nat, k: nat)
    requires j <= k <= |files| && Fitting(sb, files, k).holds
    ensures Fitting(sb, files, j).holds
  {
    FittingIs(sb, files, j);
    FittingIs(sb, files, k);
    FitsLess(sb, files, j, k);
  }

  /** The root directory with one more entry in it. */
  function WithEntry(t: seq<seq<Byte>>, file: Source): (u: seq<seq<Byte>>)
    requires t != []
  {
    t[0 := t[0] + Dirent(|t| + 1, Stripped(file.name))]
  }

  /** ... and the file, in the next inode. */
  function WithFile(t: seq<seq<Byte>>, file: Source): (u: seq<seq<Byte>>)
    requires t != []
  {
    (WithEntry(t, file) + [[]])[|t| := file.data]
  }

  /** There are an inode and blocks for the entry and the data, and neither is too long. */
  predicate FileFits(sb: Super, t: seq<seq<Byte>>, file: Source)
    requires t != []
  {
    && |t| + 1 < sb.ninodes && |t[0]| + 2 + DIRSIZ <= MAXBYTES && |file.data| <= MAXBYTES
    && Total(WithEntry(t, file)) <= DataCount(sb) && Total(WithFile(t, file)) <= DataCount(sb)
  }

  lemma NextEntry(files: seq<Source>, k: nat, t: seq<seq<Byte>>, e: seq<Byte>, u: seq<seq<Byte>>)
    requires k < |files| && Listed(files, k, t).holds && |e| == 2 + DIRSIZ && |t| == k + 1 && u == t[0 := t[0] + e]
    ensures |u| == k + 1 && |u[0]| == (k + 3) * (2 + DIRSIZ) && forall i :: 0 <= i < k ==> u[i + 1] == files[i].data
  {
    ListedSize(files, k, t);
  }

  lemma NextFile(files: seq<Source>, k: nat, u: seq<seq<Byte>>, w: seq<seq<Byte>>)
    requires k < |files| && |u| == k + 1 && (forall i :: 0 <= i < k ==> u[i + 1] == files[i].data) && w == (u + [[]])[k + 1 := files[k].data]
    ensures |w| == k + 2 && w[0] == u[0] && forall i :: 0 <= i < k + 1 ==> w[i + 1] == files[i].data
  {
  }

  lemma NextTotals(files: seq<Source>, k: nat, t: seq<seq<Byte>>)
    requires k < |files| && Listed(files, k, t).holds && |t| == k + 1
    ensures Total(WithEntry(t, files[k])) == Blocks((k + 3) * (2 + DIRSIZ)) + DataBlocks(files, k)
    ensures Total(WithFile(t, files[k])) == Required(files, k + 1)
  {
    var u, w := WithEntry(t, files[k]), WithFile(t, files[k]);
    NextEntry(files, k, t, Dirent(k + 2, Stripped(files[k].name)), u);
    NextFile(files, k, u, w);
    TotalListed(files, k, u);
    TotalListed(files, k + 1, w);
  }

  /** What the next file asks for. */
  lemma FitsNext(sb: Super, files: seq<Source>, k: nat, t: seq<seq<Byte>>)
    requires k < |files| && Listed(files, k, t).holds && |t| == k + 1 && Fitting(sb, files, k).holds
    ensures Fitting(sb, files, k + 1).holds <==> SLASH !in files[k].name && FileFits(sb, t, files[k])
  {
    FittingIs(sb, files, k);
    FittingIs(sb, files, k + 1);
    ListedSize(files, k, t);
    NextTotals(files, k, t);
  }

  /** The root directory before and after its two entries for itself. */
  lemma RootFits(sb: Super, files: seq<Source>, d: seq<Byte>, e: seq<Byte>)
    requires |d| == |e| == 2 + DIRSIZ
    ensures Fitting(sb, files, 0).holds <==> 1 < sb.ninodes && Total([[] + d]) <= DataCount(sb) && Total([[] + d + e]) <= DataCount(sb)
    ensures 2 * (2 + DIRSIZ) <= MAXBYTES
  {
    FittingIs(sb, files, 0);
    assert [[] + d][..0] == [] && [[] + d + e][..0] == [];
  }

  lemma RootTrees(d: seq<Byte>, e: seq<Byte>)
    ensures var t: seq<seq<Byte>> := [] + [[]]; t[0 := t[0] + d] == [[] + d]
    ensures [[] + d][0 := [] + d + e] == [[] + d + e]
  {
  }

  lemma TotalStep(t: seq<seq<Byte>>, i: nat, data: seq<Byte>, off: nat, cc: nat)
    requires i < |t| && off + cc <= |data|
    ensures t[i := data[..off]][i := data[..off] + data[off..off + cc]] == t[i := data[..off + cc]]
  {
    assert data[..off] + data[off..off + cc] == data[..off + cc];
  }

  /** e is the disk d with ip in the place of inode n. */
  ghost function Inscribed(sb: Super, d: seq<Block>, n: nat, ip: Inode, e: seq<Block>): (r: Claim) {
    Claim(forall x {:trigger Page(x)} :: x == n && Page(x) ==>
      0 < sb.ipg && sb.InodeBlock(x) < |d| && e == d[sb.InodeBlock(x) := PutInode(d[sb.InodeBlock(x)], x % IPB, ip)])
  }

  lemma BornAt(sb: Super, d: seq<Block>, mem: map<nat, Inode>, f: Files, n: nat)
    requires Draft(sb, d, mem, f).holds && n < sb.ninodes
    ensures f.IsInode(n)
  {
    DraftInode(sb, d, mem, f, n, NewInode(T_FILE));
  }

  /** A new inode on the image. */
  lemma BornHere(sb: Super, d: seq<Block>, mem: map<nat, Inode>, f: Files, owner: map<nat, Slot>, tree: seq<seq<Byte>>, n: nat, free: nat, typ: Half,
                 d': seq<Block>, g: Files, t: seq<seq<Byte>>)
    requires Draft(sb, d, mem, f).holds && Ok(sb, f, owner) && Pool(sb, f, free).holds && NoLeak(f, owner).holds
    requires mem == map[] && f.mem == map[] && Balance(sb, f, tree).holds && n == |tree| + 1 < sb.ninodes && typ == KindOf(n)
    requires Inscribed(sb, d, n, NewInode(typ), d').holds && f.IsInode(n) && g == Reset(f, n, NewInode(typ)) && t == tree + [[]]
    ensures Draft(sb, d', mem, g).holds && Ok(sb, g, owner) && Pool(sb, g, free).holds && NoLeak(g, owner).holds && g.mem == map[]
    ensures Balance(sb, g, t).holds
  {
    BalanceBorn(sb, f, owner, tree, n, typ, g, t);
    assert Tree(f, tree).holds by { BalanceTree(sb, f, tree); }
    assert Page(n);
    BornOk(sb, d, mem, f, owner, tree, n, free, typ);
  }

  /** Setting the size of the root directory leaves the other inodes. */
  lemma TableKept(sb: Super, f0: Files, f1: Files, f: Files, tree: seq<seq<Byte>>, size: Word, n: nat)
    requires Balance(sb, f0, tree).holds && f0.mem == map[] && f.mem == map[] && 1 < n <= |tree|
    requires Loaded(f0, f1, 1).holds && Flushed(f1, f, 1, size).holds
    ensures TableFits(f, n)
  {
    assert TableFits(f0, n) by { assert Audit(|tree|); }
    assert Page(1);
  }

  lemma OtherKept(sb: Super, f0: Files, f1: Files, f: Files, tree: seq<seq<Byte>>, size: Word, n: nat)
    requires Balance(sb, f0, tree).holds && f0.mem == map[] && f.mem == map[] && 1 < n <= |tree|
    requires Loaded(f0, f1, 1).holds && Flushed(f1, f, 1, size).holds
    ensures Holding(f, n, tree[n - 1]).holds
  {
    assert Holding(f0, n, tree[n - 1]).holds by {
      BalanceTree(sb, f0, tree);
      TreeFile(f0, tree, n);
    }
    assert Page(1);
    OthersRounded(f0, f1, f, size, n, tree[n - 1]);
  }

  lemma RootKept(sb: Super, f0: Files, f1: Files, f: Files, tree: seq<seq<Byte>>, size: Word)
    requires Balance(sb, f0, tree).holds && f0.mem == map[] && f.mem == map[] && tree != [] && size == Rounded(|tree[0]|) <= MAXBYTES
    requires Loaded(f0, f1, 1).holds && Flushed(f1, f, 1, size).holds
    ensures RootHolds(f, tree[0]).holds
  {
    assert Holding(f0, 1, tree[0]).holds by {
      BalanceTree(sb, f0, tree);
      TreeFile(f0, tree, 1);
    }
    assert Page(1);
    RootRounded(f0, f1, f, tree[0]);
  }

  /** File n is xs and has a table only if it needs one. */
  ghost predicate Held(f: Files, n: nat, xs: seq<Byte>) {
    Holding(f, n, xs).holds && TableFits(f, n)
  }

  ghost predicate HeldAt(f: Files, tree: seq<seq<Byte>>, n: nat) {
    1 < n <= |tree| ==> Held(f, n, tree[n - 1])
  }

  /** The files other than the root directory. */
  ghost function OthersHeld(f: Files, tree: seq<seq<Byte>>): (r: Claim) {
    Claim(forall x {:trigger Page(x)} :: Page(x) ==> HeldAt(f, tree, x))
  }

  lemma OthersKept(sb: Super, f0: Files, f1: Files, f: Files, tree: seq<seq<Byte>>, size: Word)
    requires Balance(sb, f0, tree).holds && f0.mem == map[] && f.mem == map[] && Loaded(f0, f1, 1).holds && Flushed(f1, f, 1, size).holds
    ensures OthersHeld(f, tree).holds
  {
    forall n: nat ensures HeldAt(f, tree, n) {
      if 1 < n <= |tree| {
        OtherKept(sb, f0, f1, f, tree, size, n);
        TableKept(sb, f0, f1, f, tree, size, n);
      }
    }
  }

  lemma FilesHeld(f: Files, files: seq<Source>, tree: seq<seq<Byte>>)
    requires OthersHeld(f, tree).holds && Listed(files, |files|, tree).holds
    ensures forall k :: 0 <= k < |files| ==> Held(f, k + 2, files[k].data)
  {
    forall k | 0 <= k < |files| ensures Held(f, k + 2, files[k].data) {
      assert Page(k + 2);
      assert HeldAt(f, tree, k + 2);
    }
  }

  /** The image with the size of the root directory rounded up. */
  lemma RootFixed(sb: Super, f0: Files, f1: Files, f: Files, tree: seq<seq<Byte>>, size: Word)
    requires Balance(sb, f0, tree).holds && f0.mem == map[] && f.mem == map[] && tree != [] && size == Rounded(|tree[0]|) <= MAXBYTES
    requires Loaded(f0, f1, 1).holds && Flushed(f1, f, 1, size).holds
    ensures RootHolds(f, tree[0]).holds && |FreeSet(f)| == DataCount(sb) - Total(tree)
    ensures OthersHeld(f, tree).holds
  {
    RootKept(sb, f0, f1, f, tree, size);
    OthersKept(sb, f0, f1, f, tree, size);
    BalanceRest(sb, f0, tree);
    FlushedFree(f0, f1, f, 1, size);
  }

  lemma NoTableNoEntry(sb: Super, f: Files, owner: map<nat, Slot>, n: nat, j: nat)
    requires Ok(sb, f, owner) && f.IsInode(n) && f.Cur(n).addrs[NDIRECT] == 0 && j < NINDIRECT
    ensures f.Ptr(Entry(n, j)) == 0
  {
    ZeroEntry(f, n, j) by { OkMeans(sb, f, owner); }
  }

  lemma ZeroEntry(f: Files, n: nat, j: nat)
    requires f.IsInode(n) && f.Cur(n).addrs[NDIRECT] == 0 && 0 in f.disk.data && f.disk.data[0] == ZeroBlock && j < NINDIRECT
    ensures f.Ptr(Entry(n, j)) == 0
  {
    ZeroWords();
  }

  lemma PieceInBlock(off: nat, tot: nat, m: nat)
    requires 0 < m && (off + tot) % BSIZE + m <= BSIZE && (off + tot) / BSIZE < MAXFILE && (tot == 0 || (off + tot) % BSIZE == 0)
    ensures OneBlock(off, tot, m).holds
  {
  }
}
