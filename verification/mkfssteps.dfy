/** The steps of mkfs.c over the image being built, and the files it holds. */
module MkfsSteps {
  import opened Basics
  import opened Words
  import opened Geometry
  import opened Layout
  import opened Ownership
  import opened FsSteps

  // ----- alloc_block -----

  /** Where alloc_block continues after handing out b. */
  function Next(sb: Super, b: nat): (r: nat)
    requires sb.Start() <= b && 0 < sb.bpg
  {
    if (b + 1 - sb.Start()) % sb.bpg == 0 then b + 1 + sb.Meta() else b + 1
  }

  /** Data blocks are handed out one after the other: nothing between b and Next(b) is a data block. */
  lemma NextData(sb: Super, b: nat)
    requires sb.Wf() && sb.Meta() < sb.bpg && sb.Data(b)
    ensures b < Next(sb, b)
    ensures Next(sb, b) < sb.GroupStart(sb.ngroups) ==> sb.Data(Next(sb, b))
    ensures forall c :: b < c < Next(sb, b) ==> !sb.Data(c)
  {
    Located(sb, b);
    var g, i := sb.Group(b), sb.Index(b);
    if i + 1 < sb.bpg {
      InGroup(sb, g, i + 1);
    } else {
      NextGroup(sb, g);
      assert b + 1 == sb.GroupStart(g + 1);
      InGroup(sb, g + 1, 0);
      forall c | b < c < Next(sb, b) ensures !sb.Data(c) {
        InGroup(sb, g + 1, c - (b + 1));
      }
      InGroup(sb, g + 1, sb.Meta());
    }
  }

  /** Locate, whether or not group g exists. */
  lemma InGroup(sb: Super, g: nat, i: nat)
    requires sb.Wf() && i < sb.bpg
    ensures var b := sb.GroupStart(g) + i; sb.Start() <= b && sb.Group(b) == g && sb.Index(b) == i
    ensures g < sb.ngroups <==> sb.Managed(sb.GroupStart(g) + i)
  {
    DivMod(g, i, sb.bpg);
    if g < sb.ngroups {
      MulMono(g + 1, sb.ngroups, sb.bpg);
      NextGroup(sb, g);
    } else {
      MulMono(sb.ngroups, g, sb.bpg);
    }
  }

  // ----- the image being built -----

  /** f is what the image means, except that its used set is what the bitmaps will say in the end. */
  ghost function Draft(sb: Super, d: seq<Block>, mem: map<nat, Inode>, f: Files): (r: Claim) {
    Claim(forall x {:trigger Open(x)} :: x == sb && Open(x) ==> IsView(x, d, Fs({}, f.disk.dinode, f.disk.data)) && f.mem == mem)
  }

  /** Exactly metadata and the data blocks below free are in use, and the rest is still zero. */
  ghost function Pool(sb: Super, f: Files, free: nat): (r: Claim) {
    Claim(forall x {:trigger Open(x)} :: x == sb && Open(x) ==>
      && x.Wf() && x.Meta() < x.bpg
      && (forall b: nat :: b in f.disk.used <==> x.Managed(b) && (!x.Data(b) || b < free))
      && (forall b: nat :: b in f.disk.data && b != 0 && free <= b ==> f.disk.data[b] == ZeroBlock)
      && (free < x.GroupStart(x.ngroups) ==> x.Data(free))
      && x.Start() <= free)
  }

  lemma DraftMem(sb: Super, d: seq<Block>, mem: map<nat, Inode>, f: Files, mem': map<nat, Inode>)
    requires Draft(sb, d, mem, f).holds
    ensures Draft(sb, d, mem', Files(f.disk, mem')).holds
  {
    assert Open(sb);
  }

  lemma PoolMem(sb: Super, f: Files, g: Files, free: nat)
    requires Pool(sb, f, free).holds && g.disk.used == f.disk.used && g.disk.data == f.disk.data
    ensures Pool(sb, g, free).holds
  {
    assert Open(sb);
  }

  /** The next free block can be taken; it is already zero. */
  lemma PoolTake(sb: Super, d: seq<Block>, mem: map<nat, Inode>, f: Files, free: nat)
    requires Draft(sb, d, mem, f).holds && Pool(sb, f, free).holds && free < sb.GroupStart(sb.ngroups)
    ensures Free(f, free) && sb.Start() <= free && 0 < sb.bpg && free < Next(sb, free)
    ensures Draft(sb, d, mem, Grab(f, free)).holds && Pool(sb, Grab(f, free), Next(sb, free)).holds
  {
    PoolNext(sb, f, free);
    DraftTake(sb, d, mem, f, free);
  }

  lemma DraftTake(sb: Super, d: seq<Block>, mem: map<nat, Inode>, f: Files, b: nat)
    requires Draft(sb, d, mem, f).holds && 0 < sb.bpg && sb.Data(b) && b != 0 && (b in f.disk.data ==> f.disk.data[b] == ZeroBlock)
    ensures b in f.disk.data && b < WORDMAX && Draft(sb, d, mem, Grab(f, b)).holds
  {
    assert Open(sb);
    assert f.disk.data[b := ZeroBlock] == f.disk.data;
  }

  lemma PoolNext(sb: Super, f: Files, free: nat)
    requires Pool(sb, f, free).holds && free < sb.GroupStart(sb.ngroups)
    ensures free !in f.disk.used && free != 0 && 0 < sb.bpg && sb.Data(free) && free < Next(sb, free)
    ensures free in f.disk.data ==> f.disk.data[free] == ZeroBlock
    ensures Pool(sb, Grab(f, free), Next(sb, free)).holds
  {
    assert Open(sb);
    NextData(sb, free);
  }

  lemma DraftStore(sb: Super, d: seq<Block>, mem: map<nat, Inode>, f: Files, a: nat, v: Block)
    requires Draft(sb, d, mem, f).holds && a in f.disk.data
    ensures a < |d| && f.disk.data[a] == d[a] && Draft(sb, d[a := v], mem, Store(f, a, v)).holds
  {
    assert Open(sb);
    ViewData(sb, d, Fs({}, f.disk.dinode, f.disk.data), a, v);
  }

  /** Owned blocks are below the free pointer. */
  lemma OwnedBelow(sb: Super, d: seq<Block>, mem: map<nat, Inode>, f: Files, owner: map<nat, Slot>, free: nat, a: nat)
    requires Draft(sb, d, mem, f).holds && Pool(sb, f, free).holds && Ok(sb, f, owner) && a in owner
    ensures a < free && a != 0 && a in f.disk.data
  {
    OkMeans(sb, f, owner);
    assert Open(sb);
  }

  lemma PoolStore(sb: Super, f: Files, free: nat, a: nat, v: Block)
    requires Pool(sb, f, free).holds && a in f.disk.data && a < free
    ensures Pool(sb, Store(f, a, v), free).holds
  {
    assert Open(sb);
  }

  lemma DraftInode(sb: Super, d: seq<Block>, mem: map<nat, Inode>, f: Files, n: nat, ip: Inode)
    requires Draft(sb, d, mem, f).holds && n < sb.ninodes
    ensures 0 < sb.ipg && sb.InodeBlock(n) < |d| && f.IsInode(n) && GetInode(d[sb.InodeBlock(n)], n % IPB) == f.disk.dinode[n]
    ensures var m := sb.InodeBlock(n); Draft(sb, d[m := PutInode(d[m], n % IPB, ip)], mem - {n}, Reset(f, n, ip)).holds
  {
    assert Open(sb);
    var v := Fs({}, f.disk.dinode, f.disk.data);
    ViewInode(sb, d, v, n, ip);
    InodeRegion(sb, n);
    assert InodeAt(sb, d, n) == v.dinode[n];
  }

  // ----- iappend -----

  /** No block beyond the file's size is allocated. */
  ghost predicate Tight(f: Files, n: nat)
    requires f.IsInode(n)
  {
    forall bn: nat :: bn < MAXFILE && f.Cur(n).size <= bn * BSIZE ==> f.Addr(n, bn) == 0
  }

  /** Blocks of file n other than bn are where they were. */
  ghost predicate Only(f: Files, g: Files, n: nat, bn: nat) {
    f.IsInode(n) && g.IsInode(n) && forall k: nat :: k < MAXFILE && k != bn ==> g.Addr(n, k) == f.Addr(n, k)
  }

  /** The first tot bytes of xp have been written at off, in no more blocks than that takes. */
  ghost function Appending(f0: Files, f: Files, n: nat, off: nat, xp: seq<Byte>, tot: nat): (r: Claim)
    requires tot <= |xp|
  {
    Claim(&& Wrote(f0, f, n, off, xp, tot).holds
          && f0.IsInode(n) && f.IsInode(n)
          && forall k: nat :: k < MAXFILE && off + tot <= k * BSIZE ==> f.Addr(n, k) == f0.Addr(n, k))
  }

  /** One piece has been written, in a block that was there or that f was extended by. */
  ghost function OnePiece(f: Files, e: Files, g: Files, n: nat, o: nat, piece: seq<Byte>): (r: Claim) {
    Claim(Extends(f, e, n) && Wrote(e, g, n, o, piece, |piece|).holds && Only(f, g, n, o / BSIZE))
  }

  lemma AppendNothing(f: Files, n: nat, off: nat, xp: seq<Byte>)
    requires n in f.mem && f.IsInode(n) && off <= MAXBYTES
    ensures Appending(f, f, n, off, xp, 0).holds
  {
    WroteNothing(f, n, off, xp);
  }

  lemma AppendOn(f0: Files, f1: Files, e: Files, f: Files, n: nat, off: nat, xp: seq<Byte>, tot: nat, piece: seq<Byte>)
    requires tot < |xp| && Appending(f0, f1, n, off, xp, tot).holds
    requires 0 < |piece| <= |xp| - tot && piece == xp[tot..tot + |piece|] && (off + tot) % BSIZE + |piece| <= BSIZE
    requires OnePiece(f1, e, f, n, off + tot, piece).holds
    ensures Appending(f0, f, n, off, xp, tot + |piece|).holds
  {
    WroteOn(f0, f1, e, f, n, off, xp, tot, piece);
    forall k: nat | k < MAXFILE && off + (tot + |piece|) <= k * BSIZE ensures f.Addr(n, k) == f0.Addr(n, k) {
      assert k != (off + tot) / BSIZE;
      assert f1.Addr(n, k) == f0.Addr(n, k);
    }
  }

  /** Writing into one mapped block leaves the others where they were. */
  lemma PieceOnly(f: Files, e: Files, g: Files, n: nat, bn: nat, x: Word)
    requires f.IsInode(n) && Mapped(f, e, n, bn, x) && SamePtrs(e, g)
    ensures Only(f, g, n, bn)
  {
    forall k: nat | k < MAXFILE && k != bn ensures g.Addr(n, k) == f.Addr(n, k) {
      var s := SlotOf(n, k);
      assert f.IsSlot(s) && e.IsSlot(s) && s != SlotOf(n, bn) && s != Direct(n, NDIRECT);
      assert e.Ptr(s) == f.Ptr(s);
    }
  }

  /** Setting the size in the working copy and writing it back. */
  ghost function Finished(f2: Files, f: Files, n: nat, size: Word): (r: Claim) {
    Claim(n in f2.mem && f2.IsInode(n)
      && var e := Retag(f2, n, WithSize(f2.mem[n], size));
         SameBytes(f2, e) && SamePtrs(f2, e) && SameBytes(e, f) && SamePtrs(e, f) && f == Reset(e, n, e.mem[n]))
  }

  /** g is f with xp appended to file n: no other byte and no other file's blocks change, holes do not
      appear and no block beyond the new end is taken. */
  ghost predicate Appended(f: Files, g: Files, n: nat, xp: seq<Byte>) {
    && f.IsInode(n) && |g.disk.dinode| == |f.disk.dinode| && f.mem == map[] && g.mem == map[]
    && var off := f.disk.dinode[n].size;
       && off + |xp| <= MAXBYTES && g.disk.dinode[n] == f.disk.dinode[n].(size := off + |xp|, addrs := g.disk.dinode[n].addrs)
       && (forall m: nat, o: nat :: f.IsInode(m) && o < MAXBYTES ==>
             g.FileByte(m, o) == if m == n && off <= o < off + |xp| then xp[o - off] else f.FileByte(m, o))
       && (forall m: nat :: f.IsInode(m) && m != n ==> g.disk.dinode[m] == f.disk.dinode[m])
       && (forall s :: f.IsSlot(s) && s.inum != n ==> g.Ptr(s) == f.Ptr(s))
       && (HoleFree(f, n) ==> HoleFree(g, n)) && (Tight(f, n) ==> Tight(g, n))
  }

  lemma AppendedBy(f0: Files, f1: Files, f2: Files, f: Files, n: nat, xp: seq<Byte>)
    requires f0.IsInode(n) && f0.mem == map[] && f1 == Load(f0, n) && SameBytes(f0, f1) && SamePtrs(f0, f1)
    requires var off := f0.disk.dinode[n].size;
      off + |xp| <= MAXBYTES && Appending(f1, f2, n, off, xp, |xp|).holds && Finished(f2, f, n, off + |xp|).holds
    requires f.mem == map[]
    ensures Appended(f0, f, n, xp)
  {
    AppendedBytes(f0, f1, f2, f, n, xp);
    AppendedPtrs(f0, f1, f2, f, n, xp);
    var off := f0.disk.dinode[n].size;
    if HoleFree(f0, n) {
      AppendedHoleFree(f0, f1, f2, f, n, off, xp);
    }
    if Tight(f0, n) {
      AppendedTight(f0, f1, f2, f, n, off, xp);
    }
  }

  lemma AppendedBytes(f0: Files, f1: Files, f2: Files, f: Files, n: nat, xp: seq<Byte>)
    requires f0.IsInode(n) && f1 == Load(f0, n) && SameBytes(f0, f1)
    requires var off := f0.disk.dinode[n].size;
      off + |xp| <= MAXBYTES && Appending(f1, f2, n, off, xp, |xp|).holds && Finished(f2, f, n, off + |xp|).holds
    ensures var off := f0.disk.dinode[n].size;
      |f.disk.dinode| == |f0.disk.dinode| && forall m: nat, o: nat :: f0.IsInode(m) && o < MAXBYTES ==>
        f.FileByte(m, o) == if m == n && off <= o < off + |xp| then xp[o - off] else f0.FileByte(m, o)
  {
    var off := f0.disk.dinode[n].size;
    var e := Retag(f2, n, WithSize(f2.mem[n], off + |xp|));
    forall m: nat, o: nat | f0.IsInode(m) && o < MAXBYTES
      ensures f.FileByte(m, o) == if m == n && off <= o < off + |xp| then xp[o - off] else f0.FileByte(m, o)
    {
      assert f.FileByte(m, o) == e.FileByte(m, o) == f2.FileByte(m, o);
      assert f1.FileByte(m, o) == f0.FileByte(m, o);
    }
  }

  /** Slots as they were before the size was set. */
  lemma FinishedPtr(f2: Files, f: Files, n: nat, size: Word, s: Slot)
    requires Finished(f2, f, n, size).holds && f2.IsSlot(s)
    ensures f.IsSlot(s) && f.Ptr(s) == f2.Ptr(s)
  {
    var e := Retag(f2, n, WithSize(f2.mem[n], size));
    assert e.IsSlot(s) && e.Ptr(s) == f2.Ptr(s);
    assert f.Ptr(s) == e.Ptr(s);
  }

  lemma AppendedPtrs(f0: Files, f1: Files, f2: Files, f: Files, n: nat, xp: seq<Byte>)
    requires f0.IsInode(n) && f1 == Load(f0, n) && SamePtrs(f0, f1)
    requires var off := f0.disk.dinode[n].size;
      off + |xp| <= MAXBYTES && Appending(f1, f2, n, off, xp, |xp|).holds && Finished(f2, f, n, off + |xp|).holds
    ensures |f.disk.dinode| == |f0.disk.dinode| && forall s :: f0.IsSlot(s) && s.inum != n ==> f.Ptr(s) == f0.Ptr(s)
  {
    forall s | f0.IsSlot(s) && s.inum != n ensures f.Ptr(s) == f0.Ptr(s) {
      assert f1.IsSlot(s) && f1.Ptr(s) == f0.Ptr(s);
      assert f2.IsSlot(s) && f2.Ptr(s) == f1.Ptr(s);
      FinishedPtr(f2, f, n, f0.disk.dinode[n].size + |xp|, s);
    }
  }

  lemma AppendedHoleFree(f0: Files, f1: Files, f2: Files, f: Files, n: nat, off: nat, xp: seq<Byte>)
    requires f0.IsInode(n) && f0.mem == map[] && f1 == Load(f0, n) && HoleFree(f0, n) && off == f0.disk.dinode[n].size
    requires off + |xp| <= MAXBYTES && Appending(f1, f2, n, off, xp, |xp|).holds && Finished(f2, f, n, off + |xp|).holds
    requires f.IsInode(n) && f.mem == map[]
    ensures HoleFree(f, n)
  {
    forall bn: nat | bn < MAXFILE && bn * BSIZE < f.Cur(n).size ensures f.Addr(n, bn) != 0 {
      var s := SlotOf(n, bn);
      assert f1.IsSlot(s) && f2.IsSlot(s);
      FinishedPtr(f2, f, n, off + |xp|, s);
      if bn * BSIZE < off {
        assert f0.Addr(n, bn) != 0 && f1.Ptr(s) == f0.Ptr(s);
      } else {
        assert f2.Addr(n, bn) != 0;
      }
    }
  }

  lemma AppendedTight(f0: Files, f1: Files, f2: Files, f: Files, n: nat, off: nat, xp: seq<Byte>)
    requires f0.IsInode(n) && f0.mem == map[] && f1 == Load(f0, n) && Tight(f0, n) && off == f0.disk.dinode[n].size
    requires off + |xp| <= MAXBYTES && Appending(f1, f2, n, off, xp, |xp|).holds && Finished(f2, f, n, off + |xp|).holds
    requires f.IsInode(n) && f.mem == map[]
    ensures Tight(f, n)
  {
    forall bn: nat | bn < MAXFILE && f.Cur(n).size <= bn * BSIZE ensures f.Addr(n, bn) == 0 {
      var s := SlotOf(n, bn);
      assert f2.IsSlot(s);
      FinishedPtr(f2, f, n, off + |xp|, s);
      assert f2.Addr(n, bn) == f1.Addr(n, bn);
      assert f1.Ptr(s) == f0.Ptr(s) && f0.Addr(n, bn) == 0;
    }
  }

  lemma TypeSet(sb: Super, f: Files, owner: map<nat, Slot>, n: nat)
    requires Ok(sb, f, owner) && n in f.mem
    ensures f.mem[n].typ != 0
  {
    OkMeans(sb, f, owner);
  }

  /** Writing the dinode back and dropping the working copy. */
  lemma FlushOk(sb: Super, f: Files, owner: map<nat, Slot>, n: nat)
    requires Ok(sb, f, owner) && n in f.mem
    ensures f.IsInode(n) && Ok(sb, Reset(f, n, f.mem[n]), owner)
    ensures SamePtrs(f, Reset(f, n, f.mem[n])) && SameBytes(f, Reset(f, n, f.mem[n]))
  {
    OkMeans(sb, f, owner);
    SyncKeeps(f, owner, n);
    ForgetSynced(Sync(f, n), owner, n);
    var g := Reset(f, n, f.mem[n]);
    assert g == Forget(Sync(f, n), n);
    SameInodes(f, g, owner);
    OkMeans(sb, g, owner);
  }

  /** Everything that changes when a block is taken for addrs[i]. */
  lemma BlockHung(sb: Super, d: seq<Block>, mem: map<nat, Inode>, f: Files, owner: map<nat, Slot>, n: nat, i: nat, x: Word, free: nat,
                  next: map<nat, Inode>, g: Files, own: map<nat, Slot>)
    requires Ok(sb, f, owner) && NoLeak(f, owner).holds && Free(f, x) && n in mem && f.mem == mem && i <= NDIRECT && mem[n].addrs[i] == 0
    requires Draft(sb, d, mem, Grab(f, x)).holds && Pool(sb, Grab(f, x), free).holds
    requires next == mem[n := SetAddr(mem[n], i, x)] && g == AttachDirect(Grab(f, x), n, i, x) && own == owner[x := Direct(n, i)]
    ensures Draft(sb, d, next, g).holds && g.mem == next && Pool(sb, g, free).holds
    ensures Ok(sb, g, own) && NoLeak(g, own).holds && Filled(f, g, Direct(n, i), x).holds
    ensures n in next && next[n].addrs[i] == x && next.Keys == mem.Keys
  {
    HangDirect(sb, f, owner, n, i, x);
    DraftMem(sb, d, mem, Grab(f, x), next);
    PoolMem(sb, Grab(f, x), g, free);
    HangTight(f, g, owner, Direct(n, i), x);
  }

  /** Everything that changes when a block is taken for entry j of the indirect table. */
  lemma EntryHung(sb: Super, d: seq<Block>, mem: map<nat, Inode>, f: Files, owner: map<nat, Slot>, n: nat, j: nat, x: Word, free: nat, free': nat,
                  next: seq<Block>, own: map<nat, Slot>) returns (g: Files)
    requires Draft(sb, d, mem, f).holds && Pool(sb, f, free).holds && Ok(sb, f, owner) && NoLeak(f, owner).holds && free <= free'
    requires Free(f, x) && n in mem && f.mem == mem && f.IsInode(n) && j < NINDIRECT && mem[n].addrs[NDIRECT] != 0 && f.Ptr(Entry(n, j)) == 0
    requires Draft(sb, d, mem, Grab(f, x)).holds && Pool(sb, Grab(f, x), free').holds
    requires mem[n].addrs[NDIRECT] < |d| && next == d[mem[n].addrs[NDIRECT] := PutWord(d[mem[n].addrs[NDIRECT]], j, x)] && own == owner[x := Entry(n, j)]
    ensures Draft(sb, next, mem, g).holds && g.mem == mem && Pool(sb, g, free').holds && g.IsInode(n)
    ensures Ok(sb, g, own) && NoLeak(g, own).holds && Filled(f, g, Entry(n, j), x).holds
  {
    var t := mem[n].addrs[NDIRECT];
    DraftTable(sb, d, mem, f, owner, n, j);
    OwnedBelow(sb, d, mem, f, owner, free, t);
    HangEntry(sb, f, owner, n, j, x);
    var e := Grab(f, x);
    DraftStore(sb, d, mem, e, t, PutWord(e.disk.data[t], j, x));
    PoolStore(sb, e, free', t, PutWord(e.disk.data[t], j, x));
    g := AttachEntry(e, n, j, x);
    HangTight(f, g, owner, Entry(n, j), x);
  }

  lemma DraftTable(sb: Super, d: seq<Block>, mem: map<nat, Inode>, f: Files, owner: map<nat, Slot>, n: nat, j: nat)
    requires Draft(sb, d, mem, f).holds && Ok(sb, f, owner) && f.mem == mem && n in mem && f.IsInode(n) && j < NINDIRECT
    requires mem[n].addrs[NDIRECT] != 0
    ensures var t := mem[n].addrs[NDIRECT];
      t in owner && t < |d| && t in f.disk.data && f.disk.data[t] == d[t] && f.Ptr(Entry(n, j)) == WordAt(d[t], j)
  {
    OkMeans(sb, f, owner);
    assert Open(sb);
    TableOwned(f, owner, n);
  }

  lemma AddrOwned(sb: Super, f: Files, owner: map<nat, Slot>, n: nat, bn: nat)
    requires Ok(sb, f, owner) && f.IsInode(n) && bn < MAXFILE && f.Addr(n, bn) != 0
    ensures f.Addr(n, bn) in owner
  {
    OkMeans(sb, f, owner);
    assert f.IsSlot(SlotOf(n, bn));
  }

  lemma HangTight(f: Files, g: Files, owner: map<nat, Slot>, s: Slot, b: Word)
    requires NoLeak(f, owner).holds && Filled(f, g, s, b).holds
    ensures NoLeak(g, owner[b := s]).holds
  {
  }

  lemma StorePtrs(sb: Super, f: Files, owner: map<nat, Slot>, n: nat, bn: nat, v: Block)
    requires Ok(sb, f, owner) && f.IsInode(n) && bn < MAXFILE && f.Addr(n, bn) != 0
    ensures SamePtrs(f, Store(f, f.Addr(n, bn), v))
  {
    OkMeans(sb, f, owner);
    StoreKeeps(f, owner, n, bn, v);
  }

  lemma SizeFits(sb: Super, f: Files, owner: map<nat, Slot>, n: nat)
    requires Ok(sb, f, owner) && f.IsInode(n)
    ensures f.disk.dinode[n].size <= MAXBYTES
  {
    OkMeans(sb, f, owner);
  }

  // ----- the files on the image -----

  const T_DIR := 1
  const T_FILE := 2

  /** The root directory is inode 1, and everything else is a regular file. */
  function KindOf(n: nat): (typ: Half) {
    if n == 1 then T_DIR else T_FILE
  }

  /** File n is xs: its kind, one link, its size, its bytes, a zero after its end, and exactly the blocks it needs. */
  ghost function Holding(f: Files, n: nat, xs: seq<Byte>): (r: Claim) {
    Claim(&& f.IsInode(n) && f.mem == map[] && f.disk.dinode[n].typ == (if n == 1 then T_DIR else T_FILE)
          && f.disk.dinode[n].major == 0 && f.disk.dinode[n].minor == 0 && f.disk.dinode[n].nlink == 1 && f.disk.dinode[n].size == |xs|
          && (forall o: nat :: o < MAXBYTES ==> f.FileByte(n, o) == if o < |xs| then xs[o] else 0)
          && HoleFree(f, n) && Tight(f, n))
  }

  /** Inodes 1, 2, ... are the files of tree, and the rest are free. */
  ghost function Tree(f: Files, tree: seq<seq<Byte>>): (r: Claim) {
    Claim(&& f.mem == map[]
          && (forall k :: 0 <= k < |tree| ==> Holding(f, k + 1, tree[k]).holds)
          && (forall n: nat :: |tree| < n < |f.disk.dinode| ==> f.disk.dinode[n].typ == 0))
  }

  lemma HoldingAppended(f: Files, g: Files, n: nat, xs: seq<Byte>, xp: seq<Byte>)
    requires Appended(f, g, n, xp) && Holding(f, n, xs).holds
    ensures Holding(g, n, xs + xp).holds
  {
    forall o: nat | o < MAXBYTES ensures g.FileByte(n, o) == if o < |xs + xp| then (xs + xp)[o] else 0 {
      assert f.FileByte(n, o) == if o < |xs| then xs[o] else 0;
    }
  }

  lemma HoldingKept(f: Files, g: Files, m: nat, ys: seq<Byte>)
    requires Holding(f, m, ys).holds && |g.disk.dinode| == |f.disk.dinode| && g.mem == map[]
    requires g.disk.dinode[m] == f.disk.dinode[m]
    requires forall s :: f.IsSlot(s) && s.inum == m ==> g.Ptr(s) == f.Ptr(s)
    requires forall o: nat :: o < MAXBYTES ==> g.FileByte(m, o) == f.FileByte(m, o)
    ensures Holding(g, m, ys).holds
  {
    forall bn: nat | bn < MAXFILE ensures g.Addr(m, bn) == f.Addr(m, bn) {
      assert f.IsSlot(SlotOf(m, bn));
    }
  }

  lemma TreeAppended(f: Files, g: Files, tree: seq<seq<Byte>>, n: nat, xp: seq<Byte>)
    requires Tree(f, tree).holds && 1 <= n <= |tree| && Appended(f, g, n, xp)
    ensures Tree(g, tree[n - 1 := tree[n - 1] + xp]).holds
  {
    var t := tree[n - 1 := tree[n - 1] + xp];
    forall k | 0 <= k < |t| ensures Holding(g, k + 1, t[k]).holds {
      if k == n - 1 {
        HoldingAppended(f, g, n, tree[k], xp);
      } else {
        HoldingKept(f, g, k + 1, tree[k]);
      }
    }
    assert Holding(f, n, tree[n - 1]).holds;
  }

  /** A new inode: nlink is 1 from the start. */
  function NewInode(typ: Half): (ip: Inode) {
    Inode(typ, 0, 0, 1, 0, NoAddrs)
  }

  lemma TreeBorn(sb: Super, f: Files, owner: map<nat, Slot>, tree: seq<seq<Byte>>, n: nat, typ: Half)
    requires Ok(sb, f, owner) && Tree(f, tree).holds && n == |tree| + 1 && f.IsInode(n) && typ == KindOf(n)
    ensures f.Cur(n).addrs == NoAddrs
    ensures Tree(Reset(f, n, NewInode(typ)), tree + [[]]).holds
  {
    OkMeans(sb, f, owner);
    assert f.disk.dinode[n].typ == 0;
    var g := Reset(f, n, NewInode(typ));
    ResetKeeps(f, owner, n, NewInode(typ));
    assert g.mem == map[];
    HoldingBorn(g, owner, n);
    forall k | 0 <= k < |tree| ensures Holding(g, k + 1, tree[k]).holds {
      HoldingKept(f, g, k + 1, tree[k]);
    }
  }

  lemma HoldingBorn(g: Files, owner: map<nat, Slot>, n: nat)
    requires Good(g, owner) && g.IsInode(n) && g.mem == map[] && g.disk.dinode[n].addrs == NoAddrs
    requires g.disk.dinode[n].typ == KindOf(n) && g.disk.dinode[n].nlink == 1 && g.disk.dinode[n].size == 0
    requires g.disk.dinode[n].major == 0 && g.disk.dinode[n].minor == 0
    ensures Holding(g, n, []).holds
  {
    ZeroWords();
    forall bn: nat | bn < MAXFILE ensures g.Addr(n, bn) == 0 {
      assert g.Cur(n).addrs == NoAddrs;
    }
  }

  // ----- the size of the root directory -----

  function Rounded(size: nat): (r: nat)
    ensures size < r <= size + BSIZE && r % BSIZE == 0
  {
    (size / BSIZE + 1) * BSIZE
  }

  /** The root directory in the end: a whole number of blocks, zero after its entries. It has a hole
      exactly if the entries filled their blocks completely. */
  ghost function RootHolds(f: Files, xs: seq<Byte>): (r: Claim) {
    Claim(&& f.IsInode(1) && f.mem == map[] && f.disk.dinode[1].typ == T_DIR && f.disk.dinode[1].major == 0 && f.disk.dinode[1].minor == 0
          && f.disk.dinode[1].nlink == 1 && f.disk.dinode[1].size == Rounded(|xs|)
          && (forall o: nat :: o < MAXBYTES ==> f.FileByte(1, o) == if o < |xs| then xs[o] else 0)
          && (HoleFree(f, 1) <==> |xs| % BSIZE != 0))
  }

  lemma RootRounded(f0: Files, f1: Files, f: Files, xs: seq<Byte>)
    requires Holding(f0, 1, xs).holds && f1 == Load(f0, 1) && SameBytes(f0, f1) && SamePtrs(f0, f1)
    requires Rounded(|xs|) <= MAXBYTES && Finished(f1, f, 1, Rounded(|xs|)).holds && f.mem == map[]
    ensures RootHolds(f, xs).holds
  {
    forall o: nat | o < MAXBYTES ensures f.FileByte(1, o) == if o < |xs| then xs[o] else 0 {
      FinishedByte(f1, f, 1, Rounded(|xs|), 1, o);
      assert f1.FileByte(1, o) == f0.FileByte(1, o);
    }
    forall bn: nat | bn < MAXFILE ensures f.Addr(1, bn) == f0.Addr(1, bn) {
      FinishedSlot(f0, f1, f, 1, Rounded(|xs|), SlotOf(1, bn));
    }
    var last := |xs| / BSIZE;
    assert last * BSIZE < Rounded(|xs|) <= MAXBYTES;
    assert f.Cur(1).size == Rounded(|xs|);
    if |xs| % BSIZE == 0 {
      assert f0.Addr(1, last) == 0;
    } else {
      forall bn: nat | bn < MAXFILE && bn * BSIZE < f.Cur(1).size ensures f.Addr(1, bn) != 0 {
        assert bn * BSIZE < |xs|;
        assert f0.Addr(1, bn) != 0;
      }
    }
  }

  lemma FinishedByte(f1: Files, f: Files, n: nat, size: Word, m: nat, o: nat)
    requires Finished(f1, f, n, size).holds && f1.IsInode(m) && o < MAXBYTES
    ensures f.IsInode(m) && f.FileByte(m, o) == f1.FileByte(m, o)
  {
    var e := Retag(f1, n, WithSize(f1.mem[n], size));
    assert e.FileByte(m, o) == f1.FileByte(m, o);
    assert f.FileByte(m, o) == e.FileByte(m, o);
  }

  lemma FinishedSlot(f0: Files, f1: Files, f: Files, n: nat, size: Word, s: Slot)
    requires SamePtrs(f0, f1) && Finished(f1, f, n, size).holds && f0.IsSlot(s)
    ensures f.IsSlot(s) && f.Ptr(s) == f0.Ptr(s)
  {
    assert f1.IsSlot(s) && f1.Ptr(s) == f0.Ptr(s);
    FinishedPtr(f1, f, n, size, s);
  }

  lemma OthersRounded(f0: Files, f1: Files, f: Files, size: Word, m: nat, ys: seq<Byte>)
    requires m != 1 && f0.IsInode(1) && Holding(f0, m, ys).holds && f1 == Load(f0, 1) && SameBytes(f0, f1) && SamePtrs(f0, f1)
    requires Finished(f1, f, 1, size).holds && f.mem == map[]
    ensures Holding(f, m, ys).holds
  {
    forall o: nat | o < MAXBYTES ensures f.FileByte(m, o) == f0.FileByte(m, o) {
      FinishedByte(f1, f, 1, size, m, o);
      assert f1.FileByte(m, o) == f0.FileByte(m, o);
    }
    forall s | f0.IsSlot(s) && s.inum == m ensures f.Ptr(s) == f0.Ptr(s) {
      FinishedSlot(f0, f1, f, 1, size, s);
    }
    HoldingKept(f0, f, m, ys);
  }

  // ----- the bitmaps -----

  lemma {:induction false} ZeroBits(k: nat)
    ensures !BitOf(0, k)
  {
    if k > 0 {
      ZeroBits(k - 1);
    }
  }

  lemma NoBits()
    ensures forall i: nat :: i < BPB ==> !Bit(ZeroBlock, i)
  {
    forall i: nat | i < BPB ensures !Bit(ZeroBlock, i) {
      ZeroBits(i % 8);
    }
  }

  /** Bit i of the bitmap of group g is to be set. */
  predicate Marked(sb: Super, used: nat, g: nat, i: nat) {
    i < sb.bpg && (i < sb.Meta() || sb.GroupStart(g) + i < used)
  }

  /** Writing a bitmap block decides its group's blocks and no others. */
  lemma ViewBitmap(sb: Super, d: seq<Block>, v: Fs, g: nat, buf: Block, u: set<nat>)
    requires IsView(sb, d, v) && g < sb.ngroups && sb.Wf()
    requires forall b: nat :: b in u <==> sb.Managed(b) && if sb.Group(b) == g then sb.Index(b) < BPB && Bit(buf, sb.Index(b)) else b in v.used
    ensures sb.BitmapOf(g) < |d| && IsView(sb, d[sb.BitmapOf(g) := buf], Fs(u, v.dinode, v.data))
  {
    BitmapRegion(sb, g);
    var e := d[sb.BitmapOf(g) := buf];
    forall b: nat ensures b in u <==> sb.Managed(b) && BitAt(sb, e, b) {
      if sb.Managed(b) {
        Located(sb, b);
        BitmapRegion(sb, sb.Group(b));
        assert BitAt(sb, e, b) == Bit(e[sb.BitmapBlock(b)], sb.Index(b));
        assert b in v.used <==> BitAt(sb, d, b);
      }
    }
    forall i: nat | i < sb.ninodes ensures InodeAt(sb, e, i) == InodeAt(sb, d, i) {
      InodeRegion(sb, i);
    }
  }

  ghost function Below(used: set<nat>, n: nat): (u: set<nat>)
    ensures forall b :: b in u <==> b in used && b < n
  {
    set b | b in used && b < n
  }

  /** The bitmaps of the groups before g say what f says; the others are still empty. */
  ghost function Mark(sb: Super, d: seq<Block>, f: Files, g: nat): (r: Claim) {
    Claim(IsView(sb, d, Fs(Below(f.disk.used, sb.GroupStart(g)), f.disk.dinode, f.disk.data)))
  }

  lemma MarkStart(sb: Super, d: seq<Block>, mem: map<nat, Inode>, f: Files, free: nat)
    requires Draft(sb, d, mem, f).holds && Pool(sb, f, free).holds
    ensures Mark(sb, d, f, 0).holds
  {
    assert Open(sb);
    assert Below(f.disk.used, sb.GroupStart(0)) == {};
  }

  lemma MarkGroup(sb: Super, d: seq<Block>, f: Files, g: nat, free: nat, buf: Block)
    requires Mark(sb, d, f, g).holds && Pool(sb, f, free).holds && g < sb.ngroups
    requires forall i: nat :: i < BPB ==> (Bit(buf, i) <==> Marked(sb, free, g, i))
    ensures sb.BitmapOf(g) < |d| && Mark(sb, d[sb.BitmapOf(g) := buf], f, g + 1).holds
  {
    assert Open(sb);
    var v := Fs(Below(f.disk.used, sb.GroupStart(g)), f.disk.dinode, f.disk.data);
    var u := Below(f.disk.used, sb.GroupStart(g + 1));
    forall b: nat
      ensures b in u <==> sb.Managed(b) && if sb.Group(b) == g then sb.Index(b) < BPB && Bit(buf, sb.Index(b)) else b in v.used
    {
      if sb.Managed(b) {
        MarkedBlock(sb, f, g, free, buf, b);
      }
    }
    ViewBitmap(sb, d, v, g, buf, u);
  }

  lemma MarkedBlock(sb: Super, f: Files, g: nat, free: nat, buf: Block, b: nat)
    requires sb.Wf() && Pool(sb, f, free).holds && g < sb.ngroups && sb.Managed(b)
    requires forall i: nat :: i < BPB ==> (Bit(buf, i) <==> Marked(sb, free, g, i))
    ensures b in f.disk.used && b < sb.GroupStart(g + 1) <==>
      if sb.Group(b) == g then sb.Index(b) < BPB && Bit(buf, sb.Index(b)) else b in f.disk.used && b < sb.GroupStart(g)
  {
    assert Open(sb);
    Located(sb, b);
    NextGroup(sb, g);
    var h := sb.Group(b);
    if h == g {
      assert Bit(buf, sb.Index(b)) <==> Marked(sb, free, g, sb.Index(b));
    } else if h < g {
      MulMono(h + 1, g, sb.bpg);
      NextGroup(sb, h);
    } else {
      MulMono(g + 1, h, sb.bpg);
    }
  }

  lemma MarkEnd(sb: Super, d: seq<Block>, f: Files, free: nat)
    requires Mark(sb, d, f, sb.ngroups).holds && Pool(sb, f, free).holds
    ensures Shows(sb, d, f.mem, f)
  {
    assert Open(sb);
    assert Below(f.disk.used, sb.GroupStart(sb.ngroups)) == f.disk.used;
  }

  // ----- the empty image -----

  ghost function MetaBlocks(sb: Super): (u: set<nat>)
    requires sb.Wf()
    ensures forall b: nat :: b in u <==> sb.Managed(b) && !sb.Data(b)
  {
    set b: nat | b < sb.size && sb.Managed(b) && !sb.Data(b)
  }

  lemma BlankInode(k: nat)
    requires k < IPB
    ensures GetInode(ZeroBlock, k) == Inode(0, 0, 0, 0, 0, NoAddrs)
  {
    ZeroWords();
    BlankWords();
    ReadInode(ZeroBlock, k, Inode(0, 0, 0, 0, 0, NoAddrs));
  }

  lemma BlankWords()
    ensures forall i: nat :: i < INODEWORDS ==> InodeWords(Inode(0, 0, 0, 0, 0, NoAddrs))[i] == 0
  {
    var ws := InodeWords(Inode(0, 0, 0, 0, 0, NoAddrs));
    assert ws == [0, 0, 0, 0, 0, 0, 0, 0, 0, 0, 0, 0, 0, 0, 0, 0];
  }

  /** v is the meaning of d, on which there is nothing but zeroes. */
  ghost function Empty(sb: Super, d: seq<Block>, v: Fs): (r: Claim) {
    Claim(&& IsView(sb, d, v) && v.used == {}
          && (forall i: nat :: i < sb.ninodes ==> v.dinode[i] == Inode(0, 0, 0, 0, 0, NoAddrs))
          && (forall b :: b in v.data ==> v.data[b] == ZeroBlock))
  }

  /** On a disk of zeroes nothing is in use and every inode is free. */
  lemma EmptyView(sb: Super, d: seq<Block>) returns (v: Fs)
    requires Fits(sb, d) && forall b :: 0 <= b < |d| ==> d[b] == ZeroBlock
    ensures Empty(sb, d, v).holds
  {
    v := ViewExists(sb, d);
    forall b: nat | sb.Managed(b) ensures !BitAt(sb, d, b) {
      Located(sb, b);
      BitmapRegion(sb, sb.Group(b));
      ZeroBits(sb.Index(b) % 8);
    }
    assert v.used == {};
    forall i: nat | i < sb.ninodes ensures v.dinode[i] == Inode(0, 0, 0, 0, 0, NoAddrs) {
      InodeRegion(sb, i);
      BlankInode(i % IPB);
      assert v.dinode[i] == InodeAt(sb, d, i);
    }
  }

  ghost function EmptyFiles(sb: Super, v: Fs): (f: Files)
    requires sb.Wf()
  {
    Files(Fs(MetaBlocks(sb), v.dinode, v.data), map[])
  }

  lemma EmptyDraft(sb: Super, d: seq<Block>, first: nat) returns (f: Files)
    requires sb.Meta() < sb.bpg && Fits(sb, d) && first == sb.Start() + sb.Meta() && forall b :: 0 <= b < |d| ==> d[b] == ZeroBlock
    ensures Draft(sb, d, map[], f).holds && Ok(sb, f, map[]) && Pool(sb, f, first).holds && NoLeak(f, map[]).holds
    ensures Tree(f, []).holds && f.mem == map[]
  {
    var v := EmptyView(sb, d);
    f := EmptyFiles(sb, v);
    EmptyFacts(sb, d, v);
    EmptyPtrs(sb, f, v);
    EmptyOk(sb, f, v);
    EmptyPool(sb, f, first);
    EmptyTree(sb, d, v);
  }

  lemma EmptyFacts(sb: Super, d: seq<Block>, v: Fs)
    requires Empty(sb, d, v).holds
    ensures 0 in v.data && v.data[0] == ZeroBlock && |v.dinode| == sb.ninodes
    ensures forall i: nat :: i < sb.ninodes ==> v.dinode[i] == Inode(0, 0, 0, 0, 0, NoAddrs)
    ensures forall b :: b in v.data ==> v.data[b] == ZeroBlock
  {
  }

  lemma EmptyTree(sb: Super, d: seq<Block>, v: Fs)
    requires sb.Wf() && Empty(sb, d, v).holds
    ensures var f := EmptyFiles(sb, v); Draft(sb, d, map[], f).holds && NoLeak(f, map[]).holds && Tree(f, []).holds
  {
  }

  lemma EmptyPtrs(sb: Super, f: Files, v: Fs)
    requires sb.Wf() && f == EmptyFiles(sb, v) && 0 in v.data && v.data[0] == ZeroBlock && |v.dinode| == sb.ninodes
    requires forall i: nat :: i < sb.ninodes ==> v.dinode[i] == Inode(0, 0, 0, 0, 0, NoAddrs)
    ensures forall s :: f.IsSlot(s) ==> f.Ptr(s) == 0
  {
    ZeroWords();
    forall s | f.IsSlot(s) ensures f.Ptr(s) == 0 {
      assert v.dinode[s.inum].addrs == NoAddrs;
    }
  }

  lemma DataFrom(sb: Super, b: nat)
    requires sb.Wf() && sb.Data(b)
    ensures sb.Start() + sb.Meta() <= b
  {
    Located(sb, b);
  }

  lemma FirstData(sb: Super)
    requires sb.Wf() && sb.Meta() < sb.bpg && sb.Start() + sb.Meta() < sb.GroupStart(sb.ngroups)
    ensures sb.Data(sb.Start() + sb.Meta())
  {
    InGroup(sb, 0, sb.Meta());
  }

  lemma EmptyPool(sb: Super, f: Files, free: nat)
    requires sb.Wf() && sb.Meta() < sb.bpg && f.disk.used == MetaBlocks(sb) && free == sb.Start() + sb.Meta()
    requires forall b :: b in f.disk.data ==> f.disk.data[b] == ZeroBlock
    ensures Pool(sb, f, free).holds
  {
    if free < sb.GroupStart(sb.ngroups) {
      FirstData(sb);
    }
    forall b: nat ensures b in f.disk.used <==> sb.Managed(b) && (!sb.Data(b) || b < free) {
      if sb.Data(b) {
        DataFrom(sb, b);
      }
    }
  }

  lemma EmptyOk(sb: Super, f: Files, v: Fs)
    requires sb.Wf() && f == EmptyFiles(sb, v) && 0 in v.data && v.data[0] == ZeroBlock && |v.dinode| == sb.ninodes
    requires forall s :: f.IsSlot(s) ==> f.Ptr(s) == 0
    requires forall i: nat :: i < sb.ninodes ==> v.dinode[i] == Inode(0, 0, 0, 0, 0, NoAddrs)
    ensures Ok(sb, f, map[])
  {
    OkMeans(sb, f, map[]);
  }

  // ----- directory entries -----

  const DIRSIZ := 14

  /** strncpy into a zeroed name of DIRSIZ bytes. */
  function Padded(name: seq<Byte>): (r: seq<Byte>)
    ensures |r| == DIRSIZ
  {
    if |name| < DIRSIZ then name + Zeros(DIRSIZ - |name|) else name[..DIRSIZ]
  }

  function Dirent(inum: nat, name: seq<Byte>): (r: seq<Byte>)
    ensures |r| == 2 + DIRSIZ
  {
    [(inum % 0x100) as Byte, (inum / 0x100 % 0x100) as Byte] + Padded(name)
  }

  /** A file named on the command line. */
  datatype Source = Source(name: seq<Byte>, data: seq<Byte>)

  const SLASH: Byte := 0x2F
  const UNDERSCORE: Byte := 0x5F
  const DOT: Byte := 0x2E

  /** The name a file gets in the image. */
  function Stripped(name: seq<Byte>): (r: seq<Byte>) {
    if 0 < |name| && name[0] == UNDERSCORE then name[1..] else name
  }

  /** The root directory with the first k files in it; file k - 1 has inode k + 1. */
  function Listing(files: seq<Source>, k: nat): (r: seq<Byte>)
    requires k <= |files|
    ensures |r| == (k + 2) * (2 + DIRSIZ)
  {
    if k == 0 then Dirent(1, [DOT]) + Dirent(1, [DOT, DOT])
    else Listing(files, k - 1) + Dirent(k + 1, Stripped(files[k - 1].name))
  }

  lemma DraftCount(sb: Super, d: seq<Block>, mem: map<nat, Inode>, f: Files, n: nat)
    requires Draft(sb, d, mem, f).holds
    ensures f.IsInode(n) <==> n < sb.ninodes
  {
    assert Open(sb);
  }

  lemma TreeFile(f: Files, tree: seq<seq<Byte>>, n: nat)
    requires Tree(f, tree).holds && 1 <= n <= |tree|
    ensures f.IsInode(n) && f.disk.dinode[n].typ != 0 && f.disk.dinode[n].size == |tree[n - 1]| && Holding(f, n, tree[n - 1]).holds
  {
    assert Holding(f, n, tree[n - 1]).holds;
  }

  lemma GroupFits(sb: Super, f: Files, free: nat)
    requires Pool(sb, f, free).holds
    ensures 0 < sb.Meta() < sb.bpg <= BPB
  {
    assert Open(sb);
  }

  lemma BornOk(sb: Super, d: seq<Block>, mem: map<nat, Inode>, f: Files, owner: map<nat, Slot>, tree: seq<seq<Byte>>, n: nat, free: nat, typ: Half)
    requires Draft(sb, d, mem, f).holds && Ok(sb, f, owner) && Pool(sb, f, free).holds && NoLeak(f, owner).holds
    requires mem == map[] && Tree(f, tree).holds && n == |tree| + 1 < sb.ninodes && typ == KindOf(n)
    ensures 0 < sb.ipg && sb.InodeBlock(n) < |d| && f.IsInode(n)
    ensures var m, g := sb.InodeBlock(n), Reset(f, n, NewInode(typ));
      && Draft(sb, d[m := PutInode(d[m], n % IPB, NewInode(typ))], mem, g).holds
      && Ok(sb, g, owner) && Pool(sb, g, free).holds && NoLeak(g, owner).holds && Tree(g, tree + [[]]).holds && g.mem == map[]
  {
    DraftCount(sb, d, mem, f, n);
    TreeBorn(sb, f, owner, tree, n, typ);
    ResetOk(sb, f, owner, n, NewInode(typ));
    DraftInode(sb, d, mem, f, n, NewInode(typ));
    assert mem - {n} == mem;
    PoolMem(sb, f, Reset(f, n, NewInode(typ)), free);
  }

  /** tree is the root directory listing the first k files, then their data. */
  ghost function Listed(files: seq<Source>, k: nat, tree: seq<seq<Byte>>): (r: Claim) {
    Claim(&& k <= |files| && |tree| == k + 1 && tree[0] == Listing(files, k)
          && forall i :: 0 <= i < k ==> tree[i + 1] == files[i].data)
  }

  lemma ListedSize(files: seq<Source>, k: nat, t: seq<seq<Byte>>)
    requires Listed(files, k, t).holds
    ensures k <= |files| && |t| == k + 1 && t[0] == Listing(files, k) && forall i :: 0 <= i < k ==> t[i + 1] == files[i].data
  {
  }

  lemma RootEntered(files: seq<Source>)
    ensures Listed(files, 0, [[] + Dirent(1, [DOT]) + Dirent(1, [DOT, DOT])]).holds
  {
    assert [] + Dirent(1, [DOT]) == Dirent(1, [DOT]);
  }

  /** One more file: its entry at the end of the root directory, its data in the next inode. */
  lemma Entered(files: seq<Source>, k: nat, t: seq<seq<Byte>>, u: seq<seq<Byte>>)
    requires k < |files| && Listed(files, k, t).holds && |t| == k + 1
    requires u == (t[0 := t[0] + Dirent(k + 2, Stripped(files[k].name))] + [[]])[k + 1 := files[k].data]
    ensures Listed(files, k + 1, u).holds
  {
  }

  // ----- the superblock -----

  const FSMAGIC: Word := 0x1020_3040

  /** The superblock's fields fit its words. */
  ghost predicate Storable(sb: Super) {
    sb.Wf() && sb.ninodes < WORDMAX
  }

  /** The geometry mkfs works out from its constants: FSSIZE blocks, BPG blocks and IPG inodes a group. */
  const DefaultSuper := Super(20000, 99 * 32, 30, 2, 200, 32, 99)

  /** That is a geometry the kernel can use. */
  lemma DefaultGeometry()
    ensures Storable(DefaultSuper) && DefaultSuper.Meta() < DefaultSuper.bpg
    ensures DefaultSuper.ngroups == (DefaultSuper.size - DefaultSuper.Start()) / DefaultSuper.bpg
  {
  }

  lemma SuperBounds(sb: Super)
    requires Storable(sb)
    ensures sb.size < WORDMAX && sb.ngroups * sb.bpg < WORDMAX && sb.nlog < WORDMAX && sb.logstart < WORDMAX && sb.Start() < WORDMAX
    ensures sb.ipg / IPB < sb.bpg < WORDMAX && sb.BitmapOf(0) < WORDMAX && sb.ipg < WORDMAX && sb.ngroups < WORDMAX
  {
    AtLeastOnce(sb.ngroups, sb.bpg);
    assert sb.GroupStart(0) == sb.Start();
  }

  lemma AtLeastOnce(g: nat, m: nat)
    requires 0 < m
    ensures g <= g * m
  {
    MulMono(1, m, g);
  }

  /** struct superblock: magic, size, nblocks, ninodes, nlog, logstart, inodestart, bmapstart, bpg, ipg, ngroups. */
  function SuperWords(sb: Super): (ws: seq<Word>)
    requires Storable(sb)
  {
    SuperBounds(sb);
    [FSMAGIC, sb.size, sb.ngroups * sb.bpg, sb.ninodes, sb.nlog, sb.logstart, sb.Start(), sb.BitmapOf(0), sb.bpg, sb.ipg, sb.ngroups]
  }

  function SuperBlock(sb: Super): (b: Block)
    requires Storable(sb)
  {
    PutWords(ZeroBlock, 0, SuperWords(sb))
  }

  /** readsb, as far as Super has the fields. */
  function ReadSuper(b: Block): (sb: Super) {
    Super(WordAt(b, 1), WordAt(b, 3), WordAt(b, 4), WordAt(b, 5), WordAt(b, 8), WordAt(b, 9), WordAt(b, 10))
  }

  /** The kernel reads the geometry mkfs wrote. */
  lemma SuperRoundTrip(sb: Super)
    requires Storable(sb)
    ensures ReadSuper(SuperBlock(sb)) == sb
    ensures var b := SuperBlock(sb);
      && WordAt(b, 0) == FSMAGIC && WordAt(b, 1) == sb.size && WordAt(b, 2) == sb.ngroups * sb.bpg && WordAt(b, 3) == sb.ninodes
      && WordAt(b, 4) == sb.nlog && WordAt(b, 5) == sb.logstart && WordAt(b, 6) == sb.Start() && WordAt(b, 7) == sb.BitmapOf(0)
      && WordAt(b, 8) == sb.bpg && WordAt(b, 9) == sb.ipg && WordAt(b, 10) == sb.ngroups
  {
    var ws := SuperWords(sb);
    assert forall j: nat :: j < |ws| ==> WordAt(SuperBlock(sb), j) == ws[j];
  }

  /** Block 1 is not part of the file system proper. */
  lemma SuperShows(sb: Super, d: seq<Block>, f: Files, x: Block)
    requires Shows(sb, d, map[], f)
    ensures 1 < |d| && Shows(sb, d[1 := x], map[], f)
  {
    assert Open(sb);
    var e := d[1 := x];
    forall b: nat | sb.Managed(b) ensures BitAt(sb, e, b) == BitAt(sb, d, b) {
      Located(sb, b);
      BitmapRegion(sb, sb.Group(b));
    }
    forall i: nat | i < sb.ninodes ensures InodeAt(sb, e, i) == InodeAt(sb, d, i) {
      InodeRegion(sb, i);
    }
  }
}
