/** The steps of fs.c over the disk of Layout and the ownership map of Ownership: what one block write
    or one change to a cached inode does to the files, their blocks and the log. */
module FsSteps {
  import opened Basics
  import opened Words
  import opened Geometry
  import opened Layout
  import opened Ownership

  /** Always true; Shows and Ok are looked into only where this is mentioned, which keeps proofs
      about the class small. */
  ghost predicate Open(sb: Super) {
    true
  }

  /** f is what the bytes on disk and the cached inodes mean. */
  ghost predicate Shows(sb: Super, d: seq<Block>, mem: map<nat, Inode>, f: Files) {
    forall x {:trigger Open(x)} :: x == sb && Open(x) ==> IsView(x, d, f.disk) && f.mem == mem
  }

  ghost predicate Ok(sb: Super, f: Files, owner: map<nat, Slot>) {
    forall x {:trigger Open(x)} :: x == sb && Open(x) ==>
      x.Wf() && Good(f, owner) && Reserved(x, f) && Backed(f) && Tidy(f)
  }

  lemma OkMeans(sb: Super, f: Files, owner: map<nat, Slot>)
    ensures Ok(sb, f, owner) <==> sb.Wf() && Good(f, owner) && Reserved(sb, f) && Backed(f) && Tidy(f)
  {
    assert Open(sb);
  }

  lemma ShowsMem(sb: Super, d: seq<Block>, mem: map<nat, Inode>, f: Files, mem': map<nat, Inode>)
    requires Shows(sb, d, mem, f)
    ensures f.mem == mem && Shows(sb, d, mem', Files(f.disk, mem'))
  {
    assert Open(sb);
  }

  /** Inode and bitmap blocks are marked in use. */
  ghost predicate Reserved(sb: Super, f: Files)
    requires sb.Wf()
  {
    forall b :: sb.Managed(b) && !sb.Data(b) ==> b in f.disk.used
  }

  /** Every block from lo up to hi is in use. */
  ghost predicate Full(f: Files, lo: nat, hi: nat) {
    forall b: nat :: lo <= b < hi ==> b in f.disk.used
  }

  /** No block is left. */
  ghost predicate Exhausted(sb: Super, f: Files) {
    Full(f, sb.Start(), sb.GroupStart(sb.ngroups))
  }

  // ----- nothing is written that is not logged -----

  /** Always true; Confined is looked into only where this is mentioned. */
  ghost predicate Track(d: seq<Block>) {
    true
  }

  /** Going from d0 to d, only blocks that were passed to log_write have changed. */
  ghost function Confined(d0: seq<Block>, d: seq<Block>, log0: set<nat>, log: set<nat>): (r: Claim) {
    Claim(forall x {:trigger Track(x)} :: x == d && Track(x) ==>
      |x| == |d0| && log0 <= log && forall b :: 0 <= b < |x| && x[b] != d0[b] ==> b in log)
  }

  lemma ConfinedMeans(d0: seq<Block>, d: seq<Block>, log0: set<nat>, log: set<nat>)
    requires Confined(d0, d, log0, log).holds
    ensures |d| == |d0| && log0 <= log && forall b :: 0 <= b < |d| && d[b] != d0[b] ==> b in log
  {
    assert Track(d);
  }

  lemma ConfinedSelf(d: seq<Block>, log: set<nat>)
    ensures Confined(d, d, log, log).holds
  {
  }

  lemma ConfinedOne(d: seq<Block>, log: set<nat>, b: nat, v: Block)
    requires b < |d|
    ensures Confined(d, d[b := v], log, log + {b}).holds
  {
  }

  lemma ConfinedTwice(d0: seq<Block>, d1: seq<Block>, d2: seq<Block>, log0: set<nat>, log1: set<nat>, log2: set<nat>)
    requires Confined(d0, d1, log0, log1).holds && Confined(d1, d2, log1, log2).holds
    ensures Confined(d0, d2, log0, log2).holds
  {
    ConfinedMeans(d0, d1, log0, log1);
    ConfinedMeans(d1, d2, log1, log2);
  }

  /** Going from d0 to d, the transactions after the first |done0| have begun and ended: each logged at most
      MAXOPBLOCKS blocks, and every block that has changed was logged by one of them. */
  ghost function Sealed(d0: seq<Block>, d: seq<Block>, done0: seq<set<nat>>, done: seq<set<nat>>): (r: Claim) {
    Claim(forall x {:trigger Track(x)} :: x == d && Track(x) ==>
      && |x| == |d0| && done0 <= done && (forall i :: |done0| <= i < |done| ==> |done[i]| <= MAXOPBLOCKS)
      && forall b :: 0 <= b < |x| && x[b] != d0[b] ==> exists i :: |done0| <= i < |done| && b in done[i])
  }

  lemma SealedMeans(d0: seq<Block>, d: seq<Block>, done0: seq<set<nat>>, done: seq<set<nat>>)
    requires Sealed(d0, d, done0, done).holds
    ensures |d| == |d0| && done0 <= done && (forall i :: |done0| <= i < |done| ==> |done[i]| <= MAXOPBLOCKS)
    ensures forall b :: 0 <= b < |d| && d[b] != d0[b] ==> exists i :: |done0| <= i < |done| && b in done[i]
  {
    assert Track(d);
  }

  lemma SealedSelf(d: seq<Block>, done: seq<set<nat>>)
    ensures Sealed(d, d, done, done).holds
  {
  }

  /** The transaction that logged log has ended, and no other. */
  ghost function Ended(done0: seq<set<nat>>, done: seq<set<nat>>, log: set<nat>): (r: Claim) {
    Claim(forall x {:trigger Track(x)} :: Track(x) ==> done == done0 + [log])
  }

  lemma EndedMeans(done0: seq<set<nat>>, done: seq<set<nat>>, log: set<nat>)
    ensures Ended(done0, done, log).holds <==> done == done0 + [log]
  {
    assert Track([]);
  }

  /** One transaction more. */
  lemma SealedOn(d0: seq<Block>, d1: seq<Block>, d: seq<Block>, done0: seq<set<nat>>, done1: seq<set<nat>>, done: seq<set<nat>>, log: set<nat>)
    requires Sealed(d0, d1, done0, done1).holds && Confined(d1, d, {}, log).holds && |log| <= MAXOPBLOCKS && Ended(done1, done, log).holds
    ensures Sealed(d0, d, done0, done).holds && |done| == |done1| + 1
  {
    EndedMeans(done1, done, log);
    SealedMeans(d0, d1, done0, done1);
    ConfinedMeans(d1, d, {}, log);
    forall b | 0 <= b < |d| && d[b] != d0[b] ensures exists i :: |done0| <= i < |done| && b in done[i] {
      if d[b] != d1[b] {
        assert b in done[|done1|];
      } else {
        var i :| |done0| <= i < |done1| && b in done1[i];
        assert b in done[i];
      }
    }
  }

  // ----- balloc and bfree -----

  /** The bit balloc tests is the state of the block it stands for. */
  lemma BitState(sb: Super, d: seq<Block>, mem: map<nat, Inode>, f: Files, g: nat, bi: nat)
    requires Shows(sb, d, mem, f) && g < sb.ngroups && bi < sb.bpg
    ensures sb.BitmapOf(g) < |d| && bi < BPB
    ensures Bit(d[sb.BitmapOf(g)], bi) <==> sb.GroupStart(g) + bi in f.disk.used
  {
    assert Open(sb);
    BitmapRegion(sb, g);
    Locate(sb, g, bi);
    assert BitAt(sb, d, sb.GroupStart(g) + bi) == Bit(d[sb.BitmapOf(g)], bi);
  }

  lemma BitmapOnDisk(sb: Super, d: seq<Block>, mem: map<nat, Inode>, f: Files, g: nat)
    requires Shows(sb, d, mem, f) && g < sb.ngroups
    ensures sb.BitmapOf(g) < |d| && sb.bpg <= BPB
  {
    assert Open(sb);
    BitmapRegion(sb, g);
  }

  /** Taking bit bi of group g: the two block writes have the effect of Grab. */
  lemma TakeShows(sb: Super, d: seq<Block>, mem: map<nat, Inode>, f: Files, g: nat, bi: nat)
    requires Shows(sb, d, mem, f) && g < sb.ngroups && bi < sb.bpg && sb.Data(sb.GroupStart(g) + bi)
    ensures var m, b := sb.BitmapOf(g), sb.GroupStart(g) + bi;
      && m < |d| && b < |d| < WORDMAX && bi < BPB && sb.BitmapBlock(b) == m && b in f.disk.data && b != 0
      && Shows(sb, d[m := WithBitAt(d[m], bi, true)][b := ZeroBlock], mem, Grab(f, b))
  {
    var m, b := sb.BitmapOf(g), sb.GroupStart(g) + bi;
    TakeBit(sb, d, mem, f, g, bi, m, b);
    StoreShows(sb, d[m := WithBitAt(d[m], bi, true)], mem, Files(Fs(f.disk.used + {b}, f.disk.dinode, f.disk.data), f.mem), b, ZeroBlock);
  }

  lemma TakeBit(sb: Super, d: seq<Block>, mem: map<nat, Inode>, f: Files, g: nat, bi: nat, m: nat, b: nat)
    requires Shows(sb, d, mem, f) && g < sb.ngroups && bi < sb.bpg && m == sb.BitmapOf(g) && b == sb.GroupStart(g) + bi && sb.Data(b)
    ensures m < |d| && b < |d| < WORDMAX && bi < BPB && sb.BitmapBlock(b) == m && b in f.disk.data && b != 0
    ensures Shows(sb, d[m := WithBitAt(d[m], bi, true)], mem, Files(Fs(f.disk.used + {b}, f.disk.dinode, f.disk.data), f.mem))
  {
    assert Open(sb);
    Locate(sb, g, bi);
    BitmapRegion(sb, g);
    ViewBit(sb, d, f.disk, b, true);
  }

  /** A free block is a data block, because metadata is always in use. */
  lemma FreeIsData(sb: Super, f: Files, owner: map<nat, Slot>, g: nat, bi: nat)
    requires Ok(sb, f, owner) && g < sb.ngroups && bi < sb.bpg && sb.GroupStart(g) + bi !in f.disk.used
    ensures sb.Data(sb.GroupStart(g) + bi) && sb.GroupStart(g) + bi < sb.GroupStart(sb.ngroups)
  {
    OkMeans(sb, f, owner);
    Locate(sb, g, bi);
  }

  /** b can be taken from the allocator. */
  ghost predicate Free(f: Files, b: nat) {
    b in f.disk.data && 0 != b < WORDMAX && b !in f.disk.used
  }

  lemma TakeOk(sb: Super, f: Files, owner: map<nat, Slot>, b: nat)
    requires Ok(sb, f, owner) && Free(f, b)
    ensures Ok(sb, Grab(f, b), owner) && Fresh(Grab(f, b), owner, b) && SamePtrs(f, Grab(f, b))
  {
    OkMeans(sb, f, owner);
    GrabKeeps(f, owner, b);
    OkMeans(sb, Grab(f, b), owner);
  }

  lemma NextGroup(sb: Super, g: nat)
    ensures sb.GroupStart(g + 1) == sb.GroupStart(g) + sb.bpg
  {
  }

  // ----- bmap -----

  /** Hanging a block just taken from the allocator on an empty addrs slot. */
  lemma HangDirect(sb: Super, f: Files, owner: map<nat, Slot>, n: nat, i: nat, b: Word)
    requires Ok(sb, f, owner) && Free(f, b) && n in f.mem && i <= NDIRECT && f.mem[n].addrs[i] == 0
    ensures Ok(sb, AttachDirect(Grab(f, b), n, i, b), owner[b := Direct(n, i)])
    ensures Filled(f, AttachDirect(Grab(f, b), n, i, b), Direct(n, i), b).holds
  {
    TakeOk(sb, f, owner, b);
    DirectOk(sb, Grab(f, b), owner, n, i, b);
    OkMeans(sb, f, owner);
    AllocDirectFills(f, owner, n, i, b);
  }

  lemma DirectOk(sb: Super, e: Files, owner: map<nat, Slot>, n: nat, i: nat, b: Word)
    requires Ok(sb, e, owner) && Fresh(e, owner, b) && n in e.mem && i <= NDIRECT && e.mem[n].addrs[i] == 0
    ensures Ok(sb, AttachDirect(e, n, i, b), owner[b := Direct(n, i)])
  {
    OkMeans(sb, e, owner);
    AttachDirectKeeps(e, owner, n, i, b);
    OkMeans(sb, AttachDirect(e, n, i, b), owner[b := Direct(n, i)]);
  }

  lemma TableOnDisk(sb: Super, d: seq<Block>, mem: map<nat, Inode>, f: Files, owner: map<nat, Slot>, n: nat, j: nat)
    requires Shows(sb, d, mem, f) && Ok(sb, f, owner) && n in mem && j < NINDIRECT
    ensures var t := mem[n].addrs[NDIRECT];
      && f.mem == mem && f.IsInode(n) && t < |d| && t in f.disk.data && f.disk.data[t] == d[t]
      && f.Ptr(Entry(n, j)) == WordAt(d[t], j)
  {
    OkMeans(sb, f, owner);
    assert Open(sb);
    TableOwned(f, owner, n);
  }

  /** Hanging a block just taken from the allocator on an empty table entry. */
  lemma HangEntry(sb: Super, f: Files, owner: map<nat, Slot>, n: nat, j: nat, b: Word)
    requires Ok(sb, f, owner) && Free(f, b) && n in f.mem && j < NINDIRECT
    requires f.IsInode(n) && f.mem[n].addrs[NDIRECT] != 0 && f.Ptr(Entry(n, j)) == 0
    ensures f.mem[n].addrs[NDIRECT] in Grab(f, b).disk.data
    ensures Ok(sb, AttachEntry(Grab(f, b), n, j, b), owner[b := Entry(n, j)])
    ensures Filled(f, AttachEntry(Grab(f, b), n, j, b), Entry(n, j), b).holds
  {
    TakeOk(sb, f, owner, b);
    EntryOk(sb, Grab(f, b), owner, n, j, b);
    OkMeans(sb, f, owner);
    AllocEntryFills(f, owner, n, j, b);
  }

  lemma EntryOk(sb: Super, e: Files, owner: map<nat, Slot>, n: nat, j: nat, b: Word)
    requires Ok(sb, e, owner) && Fresh(e, owner, b)
    requires e.IsInode(n) && j < NINDIRECT && e.Cur(n).addrs[NDIRECT] != 0 && e.Ptr(Entry(n, j)) == 0
    ensures e.Cur(n).addrs[NDIRECT] in e.disk.data
    ensures Ok(sb, AttachEntry(e, n, j, b), owner[b := Entry(n, j)])
  {
    OkMeans(sb, e, owner);
    AttachEntryKeeps(e, owner, n, j, b);
    var g := AttachEntry(e, n, j, b);
    SameRest(sb, e, g);
    OkMeans(sb, g, owner[b := Entry(n, j)]);
  }

  /** What does not depend on the contents of data blocks. */
  lemma SameRest(sb: Super, f: Files, g: Files)
    requires g.mem == f.mem && g.disk.dinode == f.disk.dinode && g.disk.used == f.disk.used && sb.Wf()
    ensures Reserved(sb, f) ==> Reserved(sb, g)
    ensures (Backed(f) ==> Backed(g)) && (Tidy(f) ==> Tidy(g))
  {
  }

  lemma EntryShows(sb: Super, d: seq<Block>, mem: map<nat, Inode>, f: Files, n: nat, j: nat, b: Word)
    requires Shows(sb, d, mem, f) && n in mem && j < NINDIRECT && f.IsInode(n)
    requires f.mem == mem && mem[n].addrs[NDIRECT] in f.disk.data
    ensures var t := mem[n].addrs[NDIRECT];
      t < |d| && Shows(sb, d[t := PutWord(d[t], j, b)], mem, AttachEntry(f, n, j, b))
  {
    assert Open(sb);
    var t := mem[n].addrs[NDIRECT];
    ViewData(sb, d, f.disk, t, PutWord(d[t], j, b));
  }

  lemma RewriteSame(d: seq<Block>, t: nat, j: nat)
    requires t < |d| && j < NINDIRECT && WordAt(d[t], j) == 0
    ensures d[t := PutWord(d[t], j, 0)] == d
  {
    PutSame(d[t], j);
    UpdateSame(d, t);
  }

  /** What one step of bmap did to slot s: nothing, or it hung block b there. table holds what else
      was passed to log_write. */
  ghost function Stage(sb: Super, f: Files, g: Files, own: map<nat, Slot>, own': map<nat, Slot>,
                        log: set<nat>, log': set<nat>, s: Slot, b: Word, table: set<nat>): (r: Claim) {
    Claim(|| (g == f && own' == own && log' <= log + table)
    || (Filled(f, g, s, b).holds && Free(f, b) && own' == own[b := s] && sb.Start() <= b && 0 < sb.bpg
        && log' == log + table + {sb.BitmapBlock(b), b}))
  }

  /** The bitmap block a stage logged, if it allocated. */
  ghost function MapsOf(sb: Super, f: Files, g: Files, b: Word): (r: set<nat>)
    ensures |r| <= (if f == g then 0 else 1)
  {
    if f == g || b < sb.Start() || sb.bpg == 0 then {} else {sb.BitmapBlock(b)}
  }

  /** The table bmap logs when it fills an entry for block bn. */
  ghost function TableOf(ip: Inode, bn: nat): (r: set<nat>) {
    if bn < NDIRECT then {} else {ip.addrs[NDIRECT]}
  }

  lemma StageTight(sb: Super, f: Files, g: Files, own: map<nat, Slot>, own': map<nat, Slot>,
                   log: set<nat>, log': set<nat>, s: Slot, b: Word, table: set<nat>)
    requires Stage(sb, f, g, own, own', log, log', s, b, table).holds
    ensures NoLeak(f, own).holds ==> NoLeak(g, own').holds
    ensures log' <= log + table + MapsOf(sb, f, g, b) + (if f == g then {} else {b})
  {
  }

  // ----- readi -----

  const T_DEV := 3

  /** What readi and writei answer: a call to the device switch, -1, or a byte count. */
  datatype Io = Device(major: Half) | Refused | Moved(count: nat)

  /** A block of a file, or a hole, is where FileByte looks. */
  lemma BlockOnDisk(sb: Super, d: seq<Block>, mem: map<nat, Inode>, f: Files, owner: map<nat, Slot>, n: nat, bn: nat)
    requires Shows(sb, d, mem, f) && Ok(sb, f, owner) && f.IsInode(n) && bn < MAXFILE
    ensures f.Addr(n, bn) < |d| && f.Addr(n, bn) in f.disk.data
    ensures forall k: nat {:trigger d[f.Addr(n, bn)][k]} :: k < BSIZE ==> f.FileByte(n, bn * BSIZE + k) == d[f.Addr(n, bn)][k]
  {
    OkMeans(sb, f, owner);
    assert Open(sb);
    var a := f.Addr(n, bn);
    assert f.IsSlot(SlotOf(n, bn));
    assert a in f.disk.data && f.disk.data[a] == d[a];
    forall k: nat | k < BSIZE ensures f.FileByte(n, bn * BSIZE + k) == d[a][k] {
      assert (bn * BSIZE + k) / BSIZE == bn && (bn * BSIZE + k) % BSIZE == k;
    }
  }

  lemma AddrOnDisk(sb: Super, d: seq<Block>, mem: map<nat, Inode>, f: Files, owner: map<nat, Slot>, n: nat, bn: nat, a: Word)
    requires Shows(sb, d, mem, f) && Ok(sb, f, owner) && f.IsInode(n) && bn < MAXFILE && a == f.Addr(n, bn)
    ensures a < |d|
  {
    BlockOnDisk(sb, d, mem, f, owner, n, bn);
  }

  /** Bytes off, off + 1, ... of file n. */
  ghost predicate Reads(f: Files, n: nat, off: nat, bytes: seq<Byte>) {
    f.IsInode(n) && off + |bytes| <= MAXBYTES && forall i :: 0 <= i < |bytes| ==> bytes[i] == f.FileByte(n, off + i)
  }

  lemma ReadsPiece(d: seq<Block>, f: Files, n: nat, o: nat, m: nat, a: nat)
    requires f.IsInode(n) && o < MAXBYTES && o + m <= MAXBYTES && o % BSIZE + m <= BSIZE && a < |d|
    requires forall k: nat {:trigger d[a][k]} :: k < BSIZE ==> f.FileByte(n, o / BSIZE * BSIZE + k) == d[a][k]
    ensures Reads(f, n, o, d[a][o % BSIZE..o % BSIZE + m])
  {
    var piece := d[a][o % BSIZE..o % BSIZE + m];
    forall i | 0 <= i < m ensures piece[i] == f.FileByte(n, o + i) {
      assert piece[i] == d[a][o % BSIZE + i];
      assert o / BSIZE * BSIZE + (o % BSIZE + i) == o + i;
    }
  }

  lemma ReadsOn(f: Files, g: Files, n: nat, off: nat, u: seq<Byte>, v: seq<Byte>)
    requires SameBytes(f, g) && Reads(f, n, off, u) && Reads(g, n, off + |u|, v)
    ensures Reads(f, n, off, u + v)
  {
    forall i | 0 <= i < |u + v| ensures (u + v)[i] == f.FileByte(n, off + i) {
      if i >= |u| {
        assert g.FileByte(n, off + |u| + (i - |u|)) == f.FileByte(n, off + i);
      }
    }
  }

  lemma SizeBound(sb: Super, f: Files, owner: map<nat, Slot>, n: nat)
    requires Ok(sb, f, owner) && n in f.mem
    ensures f.IsInode(n) && f.mem[n].size <= MAXBYTES
  {
    OkMeans(sb, f, owner);
  }

  // ----- writei -----

  /** g is f after the first t bytes of src were written to file n at off: those bytes read back,
      every other byte of every file is as before, and the blocks written are allocated. */
  ghost function Wrote(f: Files, g: Files, n: nat, off: nat, src: seq<Byte>, t: nat): (r: Claim) {
    Claim(&& Grows(f, g, n) && t <= |src| && off + t <= MAXBYTES
    && (forall m: nat, o: nat :: f.IsInode(m) && o < MAXBYTES ==>
          g.FileByte(m, o) == if m == n && off <= o < off + t then src[o - off] else f.FileByte(m, o))
    && (forall bn: nat :: bn < MAXFILE && 0 < t && off < bn * BSIZE + BSIZE && bn * BSIZE < off + t ==> g.Addr(n, bn) != 0))
  }

  function Splice(b: Block, at: nat, piece: seq<Byte>): (r: Block)
    requires at + |piece| <= BSIZE
    ensures forall k :: 0 <= k < BSIZE ==> r[k] == if at <= k < at + |piece| then piece[k - at] else b[k]
  {
    b[..at] + piece + b[at + |piece|..]
  }

  lemma StoreShows(sb: Super, d: seq<Block>, mem: map<nat, Inode>, f: Files, a: nat, v: Block)
    requires Shows(sb, d, mem, f) && a in f.disk.data
    ensures a < |d| && f.disk.data[a] == d[a] && Shows(sb, d[a := v], mem, Store(f, a, v))
  {
    assert Open(sb);
    ViewData(sb, d, f.disk, a, v);
  }

  lemma StoreOk(sb: Super, f: Files, owner: map<nat, Slot>, n: nat, bn: nat, v: Block)
    requires Ok(sb, f, owner) && f.IsInode(n) && bn < MAXFILE && f.Addr(n, bn) != 0
    ensures f.Addr(n, bn) in f.disk.data && Ok(sb, Store(f, f.Addr(n, bn), v), owner)
    ensures NoLeak(f, owner).holds ==> NoLeak(Store(f, f.Addr(n, bn), v), owner).holds
  {
    OkMeans(sb, f, owner);
    assert f.IsSlot(SlotOf(n, bn));
    StoreKeeps(f, owner, n, bn, v);
    OkMeans(sb, Store(f, f.Addr(n, bn), v), owner);
  }

  lemma SpliceAt(b: Block, o: nat, piece: seq<Byte>, p: nat)
    requires o % BSIZE + |piece| <= BSIZE && p / BSIZE == o / BSIZE
    ensures Splice(b, o % BSIZE, piece)[p % BSIZE] == if o <= p < o + |piece| then piece[p - o] else b[p % BSIZE]
  {
    assert p - o == p % BSIZE - o % BSIZE;
  }

  lemma SameBlockOf(o: nat, m: nat, p: nat)
    requires o % BSIZE + m <= BSIZE && o <= p < o + m
    ensures p / BSIZE == o / BSIZE
  {
  }

  lemma StoreByte(f: Files, owner: map<nat, Slot>, n: nat, o: nat, piece: seq<Byte>, m: nat, p: nat)
    requires Good(f, owner) && f.IsInode(n) && o % BSIZE + |piece| <= BSIZE && o < MAXBYTES && f.IsInode(m) && p < MAXBYTES
    requires f.Addr(n, o / BSIZE) != 0 && f.Addr(n, o / BSIZE) in f.disk.data
    ensures var a := f.Addr(n, o / BSIZE);
      Store(f, a, Splice(f.disk.data[a], o % BSIZE, piece)).FileByte(m, p) ==
        if m == n && o <= p < o + |piece| then piece[p - o] else f.FileByte(m, p)
  {
    var a := f.Addr(n, o / BSIZE);
    StoreKeeps(f, owner, n, o / BSIZE, Splice(f.disk.data[a], o % BSIZE, piece));
    if o <= p < o + |piece| {
      SameBlockOf(o, |piece|, p);
    }
    if m == n && p / BSIZE == o / BSIZE {
      SpliceAt(f.disk.data[a], o, piece, p);
    }
  }

  lemma OnlyBlock(o: nat, m: nat, bn: nat)
    requires o % BSIZE + m <= BSIZE && o < bn * BSIZE + BSIZE && bn * BSIZE < o + m
    ensures bn == o / BSIZE
  {
  }

  /** Storing into one block of file n changes the bytes of that block only. */
  lemma StoreBytes(sb: Super, f: Files, owner: map<nat, Slot>, n: nat, o: nat, piece: seq<Byte>)
    requires Ok(sb, f, owner) && n in f.mem && f.IsInode(n) && 0 < |piece| && o % BSIZE + |piece| <= BSIZE && o + |piece| <= MAXBYTES
    requires f.Addr(n, o / BSIZE) != 0 && f.Addr(n, o / BSIZE) in f.disk.data
    ensures var a := f.Addr(n, o / BSIZE);
      Wrote(f, Store(f, a, Splice(f.disk.data[a], o % BSIZE, piece)), n, o, piece, |piece|).holds
  {
    OkMeans(sb, f, owner);
    var a := f.Addr(n, o / BSIZE);
    var g := Store(f, a, Splice(f.disk.data[a], o % BSIZE, piece));
    StoreGrows(f, owner, n, o / BSIZE, Splice(f.disk.data[a], o % BSIZE, piece));
    forall m: nat, p: nat | f.IsInode(m) && p < MAXBYTES
      ensures g.FileByte(m, p) == if m == n && o <= p < o + |piece| then piece[p - o] else f.FileByte(m, p)
    {
      StoreByte(f, owner, n, o, piece, m, p);
    }
    forall bn: nat | bn < MAXFILE && o < bn * BSIZE + BSIZE && bn * BSIZE < o + |piece| ensures g.Addr(n, bn) != 0 {
      OnlyBlock(o, |piece|, bn);
    }
  }

  lemma StoreGrows(f: Files, owner: map<nat, Slot>, n: nat, bn: nat, v: Block)
    requires Good(f, owner) && n in f.mem && f.IsInode(n) && bn < MAXFILE && f.Addr(n, bn) != 0
    ensures var g := Store(f, f.Addr(n, bn), v); Grows(f, g, n) && g.Addr(n, bn) == f.Addr(n, bn)
  {
    StoreKeeps(f, owner, n, bn, v);
    var g := Store(f, f.Addr(n, bn), v);
    assert g.mem[n] == WithAddrs(f.mem[n], g.mem[n].addrs);
    assert f.IsSlot(SlotOf(n, bn));
  }

  /** Writes at consecutive offsets add up. */
  lemma WroteOn(f: Files, e: Files, g: Files, h: Files, n: nat, off: nat, src: seq<Byte>, t: nat, piece: seq<Byte>)
    requires Wrote(f, e, n, off, src, t).holds && Extends(e, g, n) && 0 < |piece| && t + |piece| <= |src| && piece == src[t..t + |piece|]
    requires Wrote(g, h, n, off + t, piece, |piece|).holds
    ensures Wrote(f, h, n, off, src, t + |piece|).holds
  {
    GrowsTwice(f, e, g, n);
    GrowsTwice(f, g, h, n);
    forall m: nat, o: nat | f.IsInode(m) && o < MAXBYTES
      ensures h.FileByte(m, o) == if m == n && off <= o < off + t + |piece| then src[o - off] else f.FileByte(m, o)
    {
      assert g.FileByte(m, o) == e.FileByte(m, o);
    }
    forall bn: nat | bn < MAXFILE && off < bn * BSIZE + BSIZE && bn * BSIZE < off + t + |piece|
      ensures h.Addr(n, bn) != 0
    {
      assert f.IsSlot(SlotOf(n, bn));
      if 0 < t && bn * BSIZE < off + t {
        assert e.Addr(n, bn) != 0 && g.Addr(n, bn) == e.Addr(n, bn) && h.Addr(n, bn) == g.Addr(n, bn);
      }
    }
  }

  lemma WroteNothing(f: Files, n: nat, off: nat, src: seq<Byte>)
    requires n in f.mem && f.IsInode(n) && off <= MAXBYTES
    ensures Wrote(f, f, n, off, src, 0).holds
  {
    ExtendsSelf(f, n);
  }

  /** A failed bmap leaves what was written as it was. */
  lemma WroteThen(f: Files, e: Files, g: Files, n: nat, off: nat, src: seq<Byte>, t: nat)
    requires Wrote(f, e, n, off, src, t).holds && Extends(e, g, n)
    ensures Wrote(f, g, n, off, src, t).holds
  {
    GrowsTwice(f, e, g, n);
    forall m: nat, o: nat | f.IsInode(m) && o < MAXBYTES
      ensures g.FileByte(m, o) == if m == n && off <= o < off + t then src[o - off] else f.FileByte(m, o)
    {
      assert g.FileByte(m, o) == e.FileByte(m, o);
    }
    forall bn: nat | bn < MAXFILE && 0 < t && off < bn * BSIZE + BSIZE && bn * BSIZE < off + t ensures g.Addr(n, bn) != 0 {
      assert e.IsSlot(SlotOf(n, bn)) && e.Addr(n, bn) != 0;
    }
  }

  /** Number of blocks that t bytes at off touch. */
  function Touched(off: nat, t: nat): (k: nat) {
    if t == 0 then 0 else (off + t - 1) / BSIZE - off / BSIZE + 1
  }

  /** Blocks passed to log_write while t bytes were written at off: data, at most one per block
      touched; bitmaps, at most one per allocation; and the indirect table. */
  datatype Logged = Logged(data: set<nat>, maps: set<nat>, table: set<nat>) {
    ghost function All(): (s: set<nat>) {
      data + maps + table
    }
    ghost predicate Bounded(f: Files, g: Files, n: nat, off: nat, t: nat, added: nat)
      requires f.IsInode(n) && g.IsInode(n)
    {
      && |data| <= Touched(off, t) && |table| <= 1
      && |maps| <= added + (if f.Cur(n).addrs[NDIRECT] == 0 && g.Cur(n).addrs[NDIRECT] != 0 then 1 else 0)
      && (HoleFree(f, n) && off <= f.Cur(n).size ==>
            added <= Touched(off, t) - (if t > 0 && off % BSIZE != 0 then 1 else 0))
    }
  }

  lemma TouchedNext(off: nat, t: nat, m: nat)
    requires t == 0 || (off + t) % BSIZE == 0
    requires 0 < m <= BSIZE - (off + t) % BSIZE
    ensures Touched(off, t + m) == Touched(off, t) + 1
  {
  }

  /** On a hole-free file an unaligned write starts in a block that is already there. */
  lemma FirstAllocated(f: Files, n: nat, off: nat)
    requires f.IsInode(n) && HoleFree(f, n) && off <= f.Cur(n).size && off < MAXBYTES && off % BSIZE != 0
    ensures f.Addr(n, off / BSIZE) != 0
  {
    assert off / BSIZE * BSIZE < off;
  }

  /** The books after one more block of a write: f0 at the start, f before it, g after it. */
  lemma Account(f0: Files, f: Files, g: Files, n: nat, off: nat, t: nat, m: nat, log: Logged, added: nat, a: nat, maps: set<nat>,
                log': Logged, added': nat)
    requires Grows(f0, f, n) && Grows(f, g, n) && off + t + m <= MAXBYTES
    requires t == 0 || (off + t) % BSIZE == 0
    requires 0 < m <= BSIZE - (off + t) % BSIZE
    requires log.Bounded(f0, f, n, off, t, added)
    requires log.table == {} || (log.table == {f.mem[n].addrs[NDIRECT]} && f.mem[n].addrs[NDIRECT] != 0)
    requires |maps| <= (if f.Addr(n, (off + t) / BSIZE) == 0 then 1 else 0)
                     + (if f.mem[n].addrs[NDIRECT] == 0 && g.mem[n].addrs[NDIRECT] != 0 then 1 else 0)
    requires added' == added + if f.Addr(n, (off + t) / BSIZE) == 0 then 1 else 0
    requires log' == Logged(log.data + {a}, log.maps + maps, log.table + TableOf(g.mem[n], (off + t) / BSIZE))
    ensures log'.Bounded(f0, g, n, off, t + m, added')
  {
    TouchedNext(off, t, m);
    assert f.Ptr(Direct(n, NDIRECT)) == f.mem[n].addrs[NDIRECT];
    assert f0.Ptr(Direct(n, NDIRECT)) == f0.mem[n].addrs[NDIRECT];
    if t == 0 && off % BSIZE != 0 && HoleFree(f0, n) && off <= f0.Cur(n).size {
      FirstAllocated(f0, n, off);
      assert f0.IsSlot(SlotOf(n, off / BSIZE));
    }
  }

  /** The books when no block was left: only the table may have been taken and logged. */
  lemma AccountFull(f0: Files, f: Files, g: Files, n: nat, off: nat, t: nat, log: Logged, added: nat, bn: nat, maps: set<nat>)
    requires Grows(f0, f, n) && Grows(f, g, n) && log.Bounded(f0, f, n, off, t, added)
    requires log.table == {} || (log.table == {f.mem[n].addrs[NDIRECT]} && f.mem[n].addrs[NDIRECT] != 0)
    requires |maps| <= (if f.mem[n].addrs[NDIRECT] == 0 && g.mem[n].addrs[NDIRECT] != 0 then 1 else 0)
    ensures Logged(log.data, log.maps + maps, log.table + TableOf(g.mem[n], bn)).Bounded(f0, g, n, off, t, added)
  {
    assert f.Ptr(Direct(n, NDIRECT)) == f.mem[n].addrs[NDIRECT];
    assert f0.Ptr(Direct(n, NDIRECT)) == f0.mem[n].addrs[NDIRECT];
  }

  datatype State = State(f: Files, owner: map<nat, Slot>, logged: set<nat>)

  /** State of writei's loop: the first tot bytes of src are written since the state was s0. */
  ghost function Writing(sb: Super, s: State, s0: State, n: nat, src: seq<Byte>, off: nat, tot: nat, more: bool): (r: Claim) {
    Claim(forall x {:trigger Open(x)} :: x == sb && Open(x) ==>
      && (NoLeak(s0.f, s0.owner).holds ==> NoLeak(s.f, s.owner).holds)
      && Wrote(s0.f, s.f, n, off, src, tot).holds && (0 < tot < |src| ==> (off + tot) % BSIZE == 0)
      && (HoleFree(s0.f, n) && off + |src| <= s0.f.Cur(n).size ==> s.f.mem == s0.f.mem)
      && (!more ==> Exhausted(x, s.f) && (HoleFree(s0.f, n) ==> s0.f.Cur(n).size <= off + tot)))
  }

  /** ... and this is what was logged meanwhile. */
  ghost function Books(sb: Super, s: State, s0: State, n: nat, off: nat, tot: nat, more: bool, log: Logged, added: nat): (r: Claim) {
    Claim(forall x {:trigger Open(x)} :: x == sb && Open(x) ==>
      && Grows(s0.f, s.f, n) && s.logged <= s0.logged + log.All() && log.Bounded(s0.f, s.f, n, off, tot, added)
      && (more ==> log.table == {} || (log.table == {s.f.mem[n].addrs[NDIRECT]} && s.f.mem[n].addrs[NDIRECT] != 0)))
  }

  lemma WritingStart(sb: Super, s: State, n: nat, src: seq<Byte>, off: nat)
    requires n in s.f.mem && s.f.IsInode(n) && off <= MAXBYTES
    ensures Writing(sb, s, s, n, src, off, 0, true).holds && Books(sb, s, s, n, off, 0, true, Logged({}, {}, {}), 0).holds
  {
    WroteNothing(s.f, n, off, src);
  }

  lemma WritingInode(sb: Super, s: State, s0: State, n: nat, src: seq<Byte>, off: nat, tot: nat, more: bool)
    requires Writing(sb, s, s0, n, src, off, tot, more).holds
    ensures s.f.IsInode(n) && n in s.f.mem && tot <= |src|
  {
    assert Open(sb);
  }

  /** What one round of the loop did, at offset o: s1 before, e after bmap returned a, s at the end. */
  ghost function Piece(sb: Super, s1: State, e: Files, s: State, n: nat, o: nat, piece: seq<Byte>, a: Word, maps: set<nat>): (r: Claim) {
    Claim(forall x {:trigger Open(x)} :: x == sb && Open(x) ==>
      && (NoLeak(s1.f, s1.owner).holds ==> NoLeak(s.f, s.owner).holds)
      && Mapped(s1.f, e, n, o / BSIZE, a) && n in s.f.mem
      && (if a != 0 then Wrote(e, s.f, n, o, piece, |piece|).holds else s.f == e && Exhausted(x, s.f))
      && (a != 0 && o / BSIZE >= NDIRECT ==> s.f.mem[n].addrs[NDIRECT] != 0)
      && (s1.f.Addr(n, o / BSIZE) != 0 ==> s.f.mem == s1.f.mem)
      && s.logged <= s1.logged + maps + (if a == 0 then {} else {a}) + TableOf(s.f.mem[n], o / BSIZE)
      && |maps| <= (if s1.f.Addr(n, o / BSIZE) == 0 && a != 0 then 1 else 0)
                 + (if s1.f.mem[n].addrs[NDIRECT] == 0 && s.f.mem[n].addrs[NDIRECT] != 0 then 1 else 0))
  }

  /** The bytes that go into the block at off + tot: min(n - tot, BSIZE - off%BSIZE) of them. */
  function NextPiece(src: seq<Byte>, off: nat, tot: nat): (p: seq<Byte>)
    requires tot < |src|
    ensures 0 < |p| <= |src| - tot && p == src[tot..tot + |p|] && (off + tot) % BSIZE + |p| <= BSIZE
    ensures |p| < |src| - tot ==> (off + tot + |p|) % BSIZE == 0
  {
    src[tot..tot + Min(|src| - tot, BSIZE - (off + tot) % BSIZE)]
  }

  /** One round: the bytes. */
  lemma WritingNext(sb: Super, s0: State, s1: State, e: Files, s: State, n: nat, src: seq<Byte>, off: nat, tot: nat, o: nat,
                    piece: seq<Byte>, a: Word, maps: set<nat>)
    requires off + |src| <= MAXBYTES && NextIs(sb, src, off, tot, o, piece).holds
    requires Writing(sb, s1, s0, n, src, off, tot, true).holds && Piece(sb, s1, e, s, n, o, piece, a, maps).holds
    ensures Writing(sb, s, s0, n, src, off, if a != 0 then tot + |piece| else tot, a != 0).holds
  {
    if a != 0 {
      WritingOn(sb, s0, s1, e, s, n, src, off, tot, o, piece, a, maps);
    } else {
      WritingFull(sb, s0, s1, e, s, n, src, off, tot, o, piece, maps);
    }
  }

  lemma WritingMeans(sb: Super, s: State, s0: State, n: nat, src: seq<Byte>, off: nat, tot: nat)
    requires Writing(sb, s, s0, n, src, off, tot, true).holds
    ensures (NoLeak(s0.f, s0.owner).holds ==> NoLeak(s.f, s.owner).holds) && Wrote(s0.f, s.f, n, off, src, tot).holds
    ensures s0.f.IsInode(n) && (HoleFree(s0.f, n) && off + |src| <= s0.f.Cur(n).size ==> s.f.mem == s0.f.mem)
  {
    assert Open(sb);
  }

  lemma PieceMeans(sb: Super, s1: State, e: Files, s: State, n: nat, o: nat, piece: seq<Byte>, a: Word, maps: set<nat>)
    requires Piece(sb, s1, e, s, n, o, piece, a, maps).holds && a != 0
    ensures (NoLeak(s1.f, s1.owner).holds ==> NoLeak(s.f, s.owner).holds) && Extends(s1.f, e, n) && Wrote(e, s.f, n, o, piece, |piece|).holds
    ensures o / BSIZE < MAXFILE && s1.f.IsInode(n) && (s1.f.Addr(n, o / BSIZE) != 0 ==> s.f.mem == s1.f.mem)
  {
    assert Open(sb);
  }

  lemma NextMeans(sb: Super, src: seq<Byte>, off: nat, tot: nat, o: nat, piece: seq<Byte>)
    requires NextIs(sb, src, off, tot, o, piece).holds
    ensures tot < |src| && o == off + tot && 0 < |piece| && tot + |piece| <= |src| && piece == src[tot..tot + |piece|]
    ensures tot + |piece| < |src| ==> (off + (tot + |piece|)) % BSIZE == 0
  {
    assert Open(sb);
  }

  lemma StillWrote(f: Files, g: Files, n: nat, src: seq<Byte>, off: nat, tot: nat, o: nat)
    requires Wrote(f, g, n, off, src, tot).holds && o < MAXBYTES
    ensures f.IsInode(n) && g.IsInode(n) && (HoleFree(f, n) && o < f.Cur(n).size ==> g.Addr(n, o / BSIZE) != 0)
  {
    StillThere(f, g, n, o);
  }

  lemma WritingOn(sb: Super, s0: State, s1: State, e: Files, s: State, n: nat, src: seq<Byte>, off: nat, tot: nat, o: nat,
                  piece: seq<Byte>, a: Word, maps: set<nat>)
    requires off + |src| <= MAXBYTES && NextIs(sb, src, off, tot, o, piece).holds && a != 0
    requires Writing(sb, s1, s0, n, src, off, tot, true).holds && Piece(sb, s1, e, s, n, o, piece, a, maps).holds
    ensures Writing(sb, s, s0, n, src, off, tot + |piece|, true).holds
  {
    WritingMeans(sb, s1, s0, n, src, off, tot);
    PieceMeans(sb, s1, e, s, n, o, piece, a, maps);
    NextMeans(sb, src, off, tot, o, piece);
    StillWrote(s0.f, s1.f, n, src, off, tot, o);
    WroteOn(s0.f, s1.f, e, s.f, n, off, src, tot, piece);
  }

  lemma WritingFull(sb: Super, s0: State, s1: State, e: Files, s: State, n: nat, src: seq<Byte>, off: nat, tot: nat, o: nat,
                    piece: seq<Byte>, maps: set<nat>)
    requires off + |src| <= MAXBYTES && NextIs(sb, src, off, tot, o, piece).holds
    requires Writing(sb, s1, s0, n, src, off, tot, true).holds && Piece(sb, s1, e, s, n, o, piece, 0, maps).holds
    ensures Writing(sb, s, s0, n, src, off, tot, false).holds
  {
    assert Open(sb);
    StillThere(s0.f, s1.f, n, o);
    assert s1.f.Addr(n, o / BSIZE) == 0 by {
      assert s1.f.IsSlot(SlotOf(n, o / BSIZE));
    }
    WroteThen(s0.f, s1.f, s.f, n, off, src, tot);
  }

  /** A block below the size of a hole-free file is there, and stays there. */
  lemma StillThere(f: Files, g: Files, n: nat, o: nat)
    requires Grows(f, g, n) && o < MAXBYTES
    ensures HoleFree(f, n) && o < f.Cur(n).size ==> g.Addr(n, o / BSIZE) != 0
  {
    var bn := o / BSIZE;
    if HoleFree(f, n) && o < f.Cur(n).size {
      assert bn * BSIZE <= o;
      assert f.IsSlot(SlotOf(n, bn)) && f.Addr(n, bn) != 0;
    }
  }

  /** The next m bytes go into one block, which is not the block of the bytes before them. */
  ghost function OneBlock(off: nat, tot: nat, m: nat): (r: Claim) {
    Claim(0 < m <= BSIZE - (off + tot) % BSIZE && off + tot + m <= MAXBYTES && (tot == 0 || (off + tot) % BSIZE == 0))
  }

  lemma PieceFits(sb: Super, s: State, s0: State, n: nat, src: seq<Byte>, off: nat, tot: nat, o: nat, piece: seq<Byte>)
    requires Writing(sb, s, s0, n, src, off, tot, true).holds && NextIs(sb, src, off, tot, o, piece).holds && off + |src| <= MAXBYTES
    ensures o == off + tot && OneBlock(off, tot, |piece|).holds
  {
    assert Open(sb);
  }

  /** piece is what writei writes at off + tot = o. */
  ghost function NextIs(sb: Super, src: seq<Byte>, off: nat, tot: nat, o: nat, piece: seq<Byte>): (r: Claim) {
    Claim(forall x {:trigger Open(x)} :: x == sb && Open(x) ==> tot < |src| && o == off + tot && piece == NextPiece(src, off, tot))
  }

  /** One round of writei's loop, from tot to tot': the bytes and the books. */
  lemma RoundNext(sb: Super, s0: State, s1: State, e: Files, s: State, n: nat, src: seq<Byte>, off: nat, tot: nat, tot': nat, o: nat, piece: seq<Byte>,
                  log: Logged, added: nat, a: Word, maps: set<nat>) returns (log': Logged, added': nat)
    requires off + |src| <= MAXBYTES && NextIs(sb, src, off, tot, o, piece).holds && Piece(sb, s1, e, s, n, o, piece, a, maps).holds
    requires tot' == if a != 0 then tot + |piece| else tot
    requires Writing(sb, s1, s0, n, src, off, tot, true).holds && Books(sb, s1, s0, n, off, tot, true, log, added).holds
    ensures Writing(sb, s, s0, n, src, off, tot', a != 0).holds && Books(sb, s, s0, n, off, tot', a != 0, log', added').holds
  {
    PieceFits(sb, s1, s0, n, src, off, tot, o, piece);
    WritingNext(sb, s0, s1, e, s, n, src, off, tot, o, piece, a, maps);
    log', added' := BooksNext(sb, s0, s1, e, s, n, off, tot, o, piece, log, added, a, maps);
  }

  /** One round: the books. */
  lemma BooksNext(sb: Super, s0: State, s1: State, e: Files, s: State, n: nat, off: nat, tot: nat, o: nat, piece: seq<Byte>,
                  log: Logged, added: nat, a: Word, maps: set<nat>) returns (log': Logged, added': nat)
    requires Books(sb, s1, s0, n, off, tot, true, log, added).holds && Piece(sb, s1, e, s, n, o, piece, a, maps).holds
    requires o == off + tot && OneBlock(off, tot, |piece|).holds
    ensures Books(sb, s, s0, n, off, if a != 0 then tot + |piece| else tot, a != 0, log', added').holds
  {
    if a != 0 {
      log', added' := BooksOn(sb, s0, s1, e, s, n, off, tot, o, piece, log, added, a, maps);
    } else {
      log' := BooksFull(sb, s0, s1, e, s, n, off, tot, o, piece, log, added, maps);
      added' := added;
    }
  }

  // What the books and a round say, one thing at a time.

  lemma BooksGrow(sb: Super, s: State, s0: State, n: nat, off: nat, tot: nat, log: Logged, added: nat)
    requires Books(sb, s, s0, n, off, tot, true, log, added).holds
    ensures Grows(s0.f, s.f, n)
  {
    assert Open(sb);
  }

  lemma BooksLogged(sb: Super, s: State, s0: State, n: nat, off: nat, tot: nat, log: Logged, added: nat)
    requires Books(sb, s, s0, n, off, tot, true, log, added).holds
    ensures s.logged <= s0.logged + log.All()
  {
    assert Open(sb);
  }

  lemma BooksBounded(sb: Super, s: State, s0: State, n: nat, off: nat, tot: nat, log: Logged, added: nat)
    requires Books(sb, s, s0, n, off, tot, true, log, added).holds
    ensures s0.f.IsInode(n) && s.f.IsInode(n) && log.Bounded(s0.f, s.f, n, off, tot, added)
  {
    assert Open(sb);
  }

  lemma BooksTable(sb: Super, s: State, s0: State, n: nat, off: nat, tot: nat, log: Logged, added: nat)
    requires Books(sb, s, s0, n, off, tot, true, log, added).holds
    ensures n in s.f.mem && (log.table == {} || (log.table == {s.f.mem[n].addrs[NDIRECT]} && s.f.mem[n].addrs[NDIRECT] != 0))
  {
    assert Open(sb);
  }

  lemma BooksMake(sb: Super, s: State, s0: State, n: nat, off: nat, tot: nat, log: Logged, added: nat)
    requires Grows(s0.f, s.f, n) && s.logged <= s0.logged + log.All() && log.Bounded(s0.f, s.f, n, off, tot, added)
    requires log.table == {} || (log.table == {s.f.mem[n].addrs[NDIRECT]} && s.f.mem[n].addrs[NDIRECT] != 0)
    ensures Books(sb, s, s0, n, off, tot, true, log, added).holds
  {
  }

  lemma PieceGrow(sb: Super, s1: State, e: Files, s: State, n: nat, o: nat, piece: seq<Byte>, a: Word, maps: set<nat>)
    requires Piece(sb, s1, e, s, n, o, piece, a, maps).holds && a != 0
    ensures Grows(s1.f, s.f, n) && o / BSIZE < MAXFILE
  {
    assert Open(sb);
    GrowsTwice(s1.f, e, s.f, n);
  }

  lemma PieceLogged(sb: Super, s1: State, e: Files, s: State, n: nat, o: nat, piece: seq<Byte>, a: Word, maps: set<nat>)
    requires Piece(sb, s1, e, s, n, o, piece, a, maps).holds && a != 0
    ensures n in s.f.mem && s.logged <= s1.logged + maps + {a} + TableOf(s.f.mem[n], o / BSIZE)
    ensures o / BSIZE >= NDIRECT ==> s.f.mem[n].addrs[NDIRECT] != 0
  {
    assert Open(sb);
  }

  lemma PieceMaps(sb: Super, s1: State, e: Files, s: State, n: nat, o: nat, piece: seq<Byte>, a: Word, maps: set<nat>)
    requires Piece(sb, s1, e, s, n, o, piece, a, maps).holds && a != 0
    ensures s1.f.IsInode(n) && n in s1.f.mem && n in s.f.mem && o / BSIZE < MAXFILE
    ensures |maps| <= (if s1.f.Addr(n, o / BSIZE) == 0 then 1 else 0)
                    + (if s1.f.mem[n].addrs[NDIRECT] == 0 && s.f.mem[n].addrs[NDIRECT] != 0 then 1 else 0)
  {
    assert Open(sb);
  }

  lemma RoundGrows(sb: Super, s0: State, s1: State, e: Files, s: State, n: nat, off: nat, tot: nat, o: nat, piece: seq<Byte>,
                   log: Logged, added: nat, a: Word, maps: set<nat>)
    requires Books(sb, s1, s0, n, off, tot, true, log, added).holds && Piece(sb, s1, e, s, n, o, piece, a, maps).holds && a != 0
    ensures Grows(s0.f, s.f, n)
  {
    BooksGrow(sb, s1, s0, n, off, tot, log, added);
    PieceGrow(sb, s1, e, s, n, o, piece, a, maps);
    GrowsTwice(s0.f, s1.f, s.f, n);
  }

  lemma RoundLogged(sb: Super, s0: State, s1: State, e: Files, s: State, n: nat, off: nat, tot: nat, o: nat, piece: seq<Byte>,
                    log: Logged, added: nat, a: Word, maps: set<nat>)
    requires Books(sb, s1, s0, n, off, tot, true, log, added).holds && Piece(sb, s1, e, s, n, o, piece, a, maps).holds && a != 0
    ensures n in s.f.mem && s.logged <= s0.logged + NextLog(log, a, maps, s.f.mem[n], o).All()
  {
    BooksLogged(sb, s1, s0, n, off, tot, log, added);
    PieceLogged(sb, s1, e, s, n, o, piece, a, maps);
    LoggedOn(s0.logged, s1.logged, s.logged, log, {a}, maps, TableOf(s.f.mem[n], o / BSIZE));
  }

  lemma RoundTable(sb: Super, s0: State, s1: State, e: Files, s: State, n: nat, off: nat, tot: nat, o: nat, piece: seq<Byte>,
                   log: Logged, added: nat, a: Word, maps: set<nat>)
    requires Books(sb, s1, s0, n, off, tot, true, log, added).holds && Piece(sb, s1, e, s, n, o, piece, a, maps).holds && a != 0
    ensures n in s.f.mem
    ensures var t := NextLog(log, a, maps, s.f.mem[n], o).table; t == {} || (t == {s.f.mem[n].addrs[NDIRECT]} && s.f.mem[n].addrs[NDIRECT] != 0)
  {
    BooksTable(sb, s1, s0, n, off, tot, log, added);
    PieceGrow(sb, s1, e, s, n, o, piece, a, maps);
    PieceLogged(sb, s1, e, s, n, o, piece, a, maps);
    TableNext(s1.f, s.f, n, o / BSIZE, log.table);
  }

  ghost function NextLog(log: Logged, a: nat, maps: set<nat>, ip: Inode, o: nat): (r: Logged) {
    Logged(log.data + {a}, log.maps + maps, log.table + TableOf(ip, o / BSIZE))
  }

  lemma RoundBounded(sb: Super, s0: State, s1: State, e: Files, s: State, n: nat, off: nat, tot: nat, o: nat, piece: seq<Byte>,
                     log: Logged, added: nat, a: Word, maps: set<nat>) returns (added': nat)
    requires Books(sb, s1, s0, n, off, tot, true, log, added).holds && Piece(sb, s1, e, s, n, o, piece, a, maps).holds && a != 0
    requires o == off + tot && OneBlock(off, tot, |piece|).holds
    ensures n in s.f.mem && s0.f.IsInode(n) && s.f.IsInode(n)
    ensures NextLog(log, a, maps, s.f.mem[n], o).Bounded(s0.f, s.f, n, off, tot + |piece|, added')
  {
    BooksGrow(sb, s1, s0, n, off, tot, log, added);
    BooksBounded(sb, s1, s0, n, off, tot, log, added);
    BooksTable(sb, s1, s0, n, off, tot, log, added);
    PieceGrow(sb, s1, e, s, n, o, piece, a, maps);
    PieceMaps(sb, s1, e, s, n, o, piece, a, maps);
    added' := added + if s1.f.Addr(n, o / BSIZE) == 0 then 1 else 0;
    Account(s0.f, s1.f, s.f, n, off, tot, |piece|, log, added, a, maps, NextLog(log, a, maps, s.f.mem[n], o), added');
  }

  lemma BooksOn(sb: Super, s0: State, s1: State, e: Files, s: State, n: nat, off: nat, tot: nat, o: nat, piece: seq<Byte>,
                log: Logged, added: nat, a: Word, maps: set<nat>) returns (log': Logged, added': nat)
    requires Books(sb, s1, s0, n, off, tot, true, log, added).holds && Piece(sb, s1, e, s, n, o, piece, a, maps).holds && a != 0
    requires o == off + tot && OneBlock(off, tot, |piece|).holds
    ensures Books(sb, s, s0, n, off, tot + |piece|, true, log', added').holds
  {
    RoundGrows(sb, s0, s1, e, s, n, off, tot, o, piece, log, added, a, maps);
    RoundLogged(sb, s0, s1, e, s, n, off, tot, o, piece, log, added, a, maps);
    RoundTable(sb, s0, s1, e, s, n, off, tot, o, piece, log, added, a, maps);
    log' := NextLog(log, a, maps, s.f.mem[n], o);
    added' := RoundBounded(sb, s0, s1, e, s, n, off, tot, o, piece, log, added, a, maps);
    BooksMake(sb, s, s0, n, off, tot + |piece|, log', added');
  }

  lemma BooksFull(sb: Super, s0: State, s1: State, e: Files, s: State, n: nat, off: nat, tot: nat, o: nat, piece: seq<Byte>,
                  log: Logged, added: nat, maps: set<nat>) returns (log': Logged)
    requires Books(sb, s1, s0, n, off, tot, true, log, added).holds && Piece(sb, s1, e, s, n, o, piece, 0, maps).holds
    ensures Books(sb, s, s0, n, off, tot, false, log', added).holds
  {
    assert Open(sb);
    var bn := o / BSIZE;
    log' := Logged(log.data, log.maps + maps, log.table + TableOf(s.f.mem[n], bn));
    LoggedOn(s0.logged, s1.logged, s.logged, log, {}, maps, TableOf(s.f.mem[n], bn));
    assert log.data + {} == log.data;
    GrowsTwice(s0.f, s1.f, s.f, n);
    AccountFull(s0.f, s1.f, s.f, n, off, tot, log, added, bn, maps);
  }

  lemma LoggedOn(l0: set<nat>, l1: set<nat>, l: set<nat>, log: Logged, d: set<nat>, maps: set<nat>, table: set<nat>)
    requires l1 <= l0 + log.All() && l <= l1 + maps + d + table
    ensures l <= l0 + Logged(log.data + d, log.maps + maps, log.table + table).All()
  {
  }

  /** Once logged, a file's table stays the file's table. */
  lemma TableNext(f: Files, g: Files, n: nat, bn: nat, table: set<nat>)
    requires Grows(f, g, n) && (bn >= NDIRECT ==> g.mem[n].addrs[NDIRECT] != 0)
    requires table == {} || (table == {f.mem[n].addrs[NDIRECT]} && f.mem[n].addrs[NDIRECT] != 0)
    ensures var t := table + TableOf(g.mem[n], bn);
      t == {} || (t == {g.mem[n].addrs[NDIRECT]} && g.mem[n].addrs[NDIRECT] != 0)
  {
    assert f.Ptr(Direct(n, NDIRECT)) == f.mem[n].addrs[NDIRECT];
    assert g.Ptr(Direct(n, NDIRECT)) == g.mem[n].addrs[NDIRECT];
  }

  // ----- iupdate and the end of writei -----

  lemma SyncShows(sb: Super, d: seq<Block>, mem: map<nat, Inode>, f: Files, n: nat)
    requires Shows(sb, d, mem, f) && n in mem && f.IsInode(n)
    ensures 0 < sb.ipg && sb.InodeBlock(n) < |d|
    ensures var m := sb.InodeBlock(n); Shows(sb, d[m := PutInode(d[m], n % IPB, mem[n])], mem, Sync(f, n))
  {
    assert Open(sb);
    ViewInode(sb, d, f.disk, n, mem[n]);
  }

  lemma SyncOk(sb: Super, f: Files, owner: map<nat, Slot>, n: nat)
    requires Ok(sb, f, owner) && n in f.mem
    ensures f.IsInode(n) && Ok(sb, Sync(f, n), owner)
  {
    OkMeans(sb, f, owner);
    SyncKeeps(f, owner, n);
    OkMeans(sb, Sync(f, n), owner);
  }

  lemma RetagOk(sb: Super, f: Files, owner: map<nat, Slot>, n: nat, ip: Inode)
    requires Ok(sb, f, owner) && n in f.mem && ip.addrs == f.mem[n].addrs && ip.size <= MAXBYTES && ip.typ != 0
    ensures Ok(sb, Retag(f, n, ip), owner)
    ensures SamePtrs(f, Retag(f, n, ip)) && SameBytes(f, Retag(f, n, ip))
  {
    OkMeans(sb, f, owner);
    RetagKeeps(f, owner, n, ip);
    OkMeans(sb, Retag(f, n, ip), owner);
  }

  /** No block was freed, only empty slots of inode n were filled, and no other inode was written. */
  ghost function Steady(f: Files, g: Files, n: nat): (r: Claim) {
    Claim(&& |g.disk.dinode| == |f.disk.dinode| && f.disk.used <= g.disk.used
          && (forall m: nat :: m < |f.disk.dinode| && m != n ==> g.disk.dinode[m] == f.disk.dinode[m])
          && forall s :: f.IsSlot(s) && (s.inum != n || f.Ptr(s) != 0) ==> g.Ptr(s) == f.Ptr(s))
  }

  lemma SteadyTwice(f: Files, g: Files, h: Files, n: nat)
    requires Steady(f, g, n).holds && Steady(g, h, n).holds
    ensures Steady(f, h, n).holds
  {
    forall s | f.IsSlot(s) && (s.inum != n || f.Ptr(s) != 0) ensures h.Ptr(s) == f.Ptr(s) {
      assert g.IsSlot(s) && g.Ptr(s) == f.Ptr(s);
    }
  }

  lemma GrowsSteady(f: Files, e: Files, g: Files, n: nat)
    requires Grows(f, e, n) && SamePtrs(e, g) && e.disk.used == g.disk.used
    requires forall m: nat :: m < |e.disk.dinode| && m != n ==> g.disk.dinode[m] == e.disk.dinode[m]
    ensures Steady(f, g, n).holds
  {
    forall s | f.IsSlot(s) && (s.inum != n || f.Ptr(s) != 0) ensures g.Ptr(s) == f.Ptr(s) {
      assert e.IsSlot(s) && e.Ptr(s) == f.Ptr(s);
    }
  }

  /** g is f after writei(n, src, off) wrote t bytes: those bytes read back, every other byte of every
      file is as before, the size covers them, no other inode changed and no block was freed or moved. */
  ghost function Written(f: Files, g: Files, n: nat, off: nat, src: seq<Byte>, t: nat): (r: Claim) {
    Claim(&& n in f.mem && g.mem.Keys == f.mem.Keys && f.IsInode(n) && |g.disk.dinode| == |f.disk.dinode|
    && t <= |src| && off + t <= MAXBYTES
    && (forall m: nat, o: nat :: f.IsInode(m) && o < MAXBYTES ==>
          g.FileByte(m, o) == if m == n && off <= o < off + t then src[o - off] else f.FileByte(m, o))
    && g.mem[n] == f.mem[n].(size := if f.mem[n].size < off + t then off + t else f.mem[n].size, addrs := g.mem[n].addrs)
    && (forall m: nat :: f.IsInode(m) && m != n ==> g.Cur(m) == f.Cur(m))
    && (HoleFree(f, n) ==> HoleFree(g, n)) && Steady(f, g, n).holds)
  }

  /** Written, and the disk copy of the inode is up to date if the file grew or nothing went wrong. */
  ghost function WrittenSync(f: Files, g: Files, n: nat, off: nat, src: seq<Byte>, t: nat): (r: Claim) {
    Claim(&& Written(f, g, n, off, src, t).holds
    && (off + t > f.mem[n].size || (HoleFree(f, n) && Synced(f, n) && t == |src|) ==> Synced(g, n)))
  }

  function Max(a: nat, b: nat): (m: nat) {
    if a < b then b else a
  }

  lemma WrittenHoleFree(f: Files, e: Files, g: Files, n: nat, off: nat, src: seq<Byte>, t: nat)
    requires Wrote(f, e, n, off, src, t).holds && HoleFree(f, n) && n in f.mem && off <= f.mem[n].size
    requires SamePtrs(e, g) && n in g.mem && g.mem[n].size == Max(f.mem[n].size, off + t)
    ensures HoleFree(g, n)
  {
    forall bn: nat | bn < MAXFILE && bn * BSIZE < g.Cur(n).size ensures g.Addr(n, bn) != 0 {
      assert f.IsSlot(SlotOf(n, bn)) && e.IsSlot(SlotOf(n, bn));
      if bn * BSIZE < f.Cur(n).size {
        assert f.Addr(n, bn) != 0;
      } else {
        assert e.Addr(n, bn) != 0;
      }
    }
  }

  /** The file did not grow. */
  lemma WrittenInside(sb: Super, s: State, s0: State, n: nat, src: seq<Byte>, off: nat, t: nat, more: bool)
    requires Writing(sb, s, s0, n, src, off, t, more).holds && n in s0.f.mem && off <= s0.f.mem[n].size && off + t <= s0.f.mem[n].size
    requires more == (t == |src|)
    ensures WrittenSync(s0.f, s.f, n, off, src, t).holds && (NoLeak(s0.f, s0.owner).holds ==> NoLeak(s.f, s.owner).holds)
    ensures t < |src| ==> Exhausted(sb, s.f) && (HoleFree(s0.f, n) ==> s0.f.mem[n].size <= off + t)
  {
    assert Open(sb);
    assert s.f.mem[n] == WithAddrs(WithSize(s0.f.mem[n], s0.f.mem[n].size), s.f.mem[n].addrs);
    GrowsSteady(s0.f, s.f, s.f, n);
    if HoleFree(s0.f, n) {
      WrittenHoleFree(s0.f, s.f, s.f, n, off, src, t);
    }
  }

  /** Setting the size and writing the inode back moves no block and no byte. */
  lemma RetagSync(f: Files, owner: map<nat, Slot>, n: nat, ip: Inode)
    requires Good(f, owner) && Backed(f) && Tidy(f) && n in f.mem && f.IsInode(n) && ip.addrs == f.mem[n].addrs && ip.size <= MAXBYTES && ip.typ != 0
    ensures var g := Sync(Retag(f, n, ip), n); SamePtrs(f, g) && SameBytes(f, g) && Synced(g, n)
  {
    var g := Sync(Retag(f, n, ip), n);
    SameInodes(f, g, owner);
  }

  /** The file grew: the new size goes to the cached inode and to disk. */
  lemma WrittenGrown(sb: Super, s: State, s0: State, n: nat, src: seq<Byte>, off: nat, t: nat, more: bool)
    requires Ok(sb, s.f, s.owner)
    requires Writing(sb, s, s0, n, src, off, t, more).holds && n in s0.f.mem && off <= s0.f.mem[n].size < off + t
    requires more == (t == |src|)
    ensures n in s.f.mem && off + t <= MAXBYTES && s.f.IsInode(n) && s.f.mem[n].typ != 0
    ensures var g := Sync(Retag(s.f, n, WithSize(s.f.mem[n], off + t)), n);
      && WrittenSync(s0.f, g, n, off, src, t).holds && (NoLeak(s0.f, s0.owner).holds ==> NoLeak(g, s.owner).holds)
      && (t < |src| ==> Exhausted(sb, g))
  {
    assert Open(sb);
    OkMeans(sb, s.f, s.owner);
    RetagSync(s.f, s.owner, n, WithSize(s.f.mem[n], off + t));
    GrownFile(s0.f, s.f, n, src, off, t);
  }

  lemma GrownFile(f0: Files, f: Files, n: nat, src: seq<Byte>, off: nat, t: nat)
    requires Wrote(f0, f, n, off, src, t).holds && n in f0.mem && off <= f0.mem[n].size < off + t && n in f.mem && f.IsInode(n)
    requires var g := Sync(Retag(f, n, WithSize(f.mem[n], off + t)), n); SamePtrs(f, g) && SameBytes(f, g) && Synced(g, n)
    ensures WrittenSync(f0, Sync(Retag(f, n, WithSize(f.mem[n], off + t)), n), n, off, src, t).holds
  {
    var g := Sync(Retag(f, n, WithSize(f.mem[n], off + t)), n);
    forall m: nat, o: nat | f0.IsInode(m) && o < MAXBYTES
      ensures g.FileByte(m, o) == if m == n && off <= o < off + t then src[o - off] else f0.FileByte(m, o)
    {
      assert g.FileByte(m, o) == f.FileByte(m, o);
    }
    GrowsSteady(f0, f, g, n);
    if HoleFree(f0, n) {
      WrittenHoleFree(f0, f, g, n, off, src, t);
    }
  }

  /** At most this many distinct blocks are logged when t bytes go to a hole-free file at off: each
      block touched and, unless the first was there already, a bitmap for it; and for the indirect
      table a bitmap, the table, and the inode. */
  function LogCost(off: nat, t: nat): (k: int) {
    2 * Touched(off, t) - (if t > 0 && off % BSIZE != 0 then 1 else 0) + 3
  }

  lemma LogCostGrows(off: nat, t: nat, u: nat)
    requires t <= u
    ensures LogCost(off, t) <= LogCost(off, u)
  {
  }

  lemma SubsetSize<T>(a: set<T>, b: set<T>)
    requires a <= b
    ensures |a| <= |b|
  {
    assert a + (b - a) == b;
  }

  lemma BooksTotal(sb: Super, s: State, s0: State, n: nat, off: nat, t: nat, more: bool, log: Logged, added: nat)
    requires Books(sb, s, s0, n, off, t, more, log, added).holds
    requires s0.f.IsInode(n) && HoleFree(s0.f, n) && off <= s0.f.Cur(n).size
    ensures |s.logged - s0.logged| <= LogCost(off, t) - 1
  {
    assert Open(sb);
    SubsetSize(s.logged - s0.logged, log.All());
    UnionSize(log.data, log.maps);
    UnionSize(log.data + log.maps, log.table);
  }

  lemma UnionSize<T>(a: set<T>, b: set<T>)
    ensures |a + b| <= |a| + |b|
  {
    assert a + b == a + (b - a);
    SubsetSize(b - a, b);
  }

  lemma OneMore(a: set<nat>, b: set<nat>, base: set<nat>, x: nat)
    requires b == a + {x}
    ensures |b - base| <= |a - base| + 1
  {
    SubsetSize(b - base, (a - base) + {x});
    UnionSize(a - base, {x});
  }

  lemma WritingSize(sb: Super, s: State, s0: State, n: nat, src: seq<Byte>, off: nat, t: nat, more: bool)
    requires Writing(sb, s, s0, n, src, off, t, more).holds
    ensures n in s.f.mem && n in s0.f.mem && s.f.mem[n].size == s0.f.mem[n].size
  {
    assert Open(sb);
  }

  lemma EntryHasTable(sb: Super, f: Files, owner: map<nat, Slot>, n: nat, j: nat)
    requires Ok(sb, f, owner) && f.IsInode(n) && j < NINDIRECT && f.Ptr(Entry(n, j)) != 0
    ensures f.Cur(n).addrs[NDIRECT] != 0
  {
    OkMeans(sb, f, owner);
    ZeroWords();
  }

  // ----- bfree and itrunc -----

  /** Ok, but inode n is being truncated: its disk copy still names blocks that are already free. */
  ghost predicate OkBut(sb: Super, f: Files, owner: map<nat, Slot>, n: nat) {
    forall x {:trigger Open(x)} :: x == sb && Open(x) ==>
      x.Wf() && Good(f, owner) && Reserved(x, f) && BackedBut(f, {n}) && Tidy(f)
  }

  lemma OkButMeans(sb: Super, f: Files, owner: map<nat, Slot>, n: nat)
    ensures OkBut(sb, f, owner, n) <==> sb.Wf() && Good(f, owner) && Reserved(sb, f) && BackedBut(f, {n}) && Tidy(f)
  {
    assert Open(sb);
  }

  lemma OkWeaken(sb: Super, f: Files, owner: map<nat, Slot>, n: nat)
    requires Ok(sb, f, owner)
    ensures OkBut(sb, f, owner, n)
  {
    OkMeans(sb, f, owner);
    OkButMeans(sb, f, owner, n);
  }

  ghost function Release(f: Files, D: set<nat>): (g: Files) {
    Files(Fs(f.disk.used - D, f.disk.dinode, f.disk.data), f.mem)
  }

  /** Clearing a block's bit frees exactly that block. */
  lemma ReleaseShows(sb: Super, d: seq<Block>, mem: map<nat, Inode>, f: Files, b: nat)
    requires Shows(sb, d, mem, f) && b in f.disk.data && b != 0
    ensures sb.Start() <= b && 0 < sb.bpg && sb.BitmapBlock(b) < |d| && sb.Index(b) < BPB
    ensures var m := sb.BitmapBlock(b);
      && (Bit(d[m], sb.Index(b)) <==> b in f.disk.used)
      && Shows(sb, d[m := WithBitAt(d[m], sb.Index(b), false)], mem, Release(f, {b}))
  {
    assert Open(sb);
    Located(sb, b);
    BitmapRegion(sb, sb.Group(b));
    ViewBit(sb, d, f.disk, b, false);
    assert BitAt(sb, d, b) == Bit(d[sb.BitmapBlock(b)], sb.Index(b));
  }

  /** Freed blocks are data blocks, so metadata stays in use. */
  lemma DropReserved(sb: Super, f: Files, n: nat, addrs: Addrs, D: set<nat>)
    requires sb.Wf() && Reserved(sb, f) && n in f.mem && forall b :: b in D && sb.Managed(b) ==> sb.Data(b)
    ensures Reserved(sb, Drop(f, n, addrs, D))
  {
  }

  lemma OwnedIsData(sb: Super, d: seq<Block>, mem: map<nat, Inode>, f: Files, owner: map<nat, Slot>, n: nat, b: nat)
    requires Shows(sb, d, mem, f) && OkBut(sb, f, owner, n) && b in owner
    ensures sb.Wf() && b != 0 && b in f.disk.data && b in f.disk.used && (sb.Managed(b) ==> sb.Data(b))
  {
    OkButMeans(sb, f, owner, n);
    assert Open(sb);
  }

  /** bfree(addrs[i]); addrs[i] = 0. */
  lemma FreeDirectOk(sb: Super, d: seq<Block>, mem: map<nat, Inode>, f: Files, owner: map<nat, Slot>, n: nat, i: nat, b: nat)
    requires Shows(sb, d, mem, f) && f.mem == mem && OkBut(sb, f, owner, n)
    requires n in mem && i < NDIRECT && mem[n].addrs[i] == b && b != 0
    ensures f.IsInode(n) && b in owner && b in f.disk.data && b in f.disk.used
    ensures OkBut(sb, Drop(f, n, mem[n].addrs[i := 0], {b}), owner - {b}, n)
    ensures Shrinks(f, Drop(f, n, mem[n].addrs[i := 0], {b}), owner, owner - {b}, n)
  {
    OkButMeans(sb, f, owner, n);
    DetachDirectKeeps(f, owner, n, i, b);
    OwnedIsData(sb, d, mem, f, owner, n, b);
    DropShrinks(f, owner, n, mem[n].addrs[i := 0], {b});
    DropReserved(sb, f, n, mem[n].addrs[i := 0], {b});
    OkButMeans(sb, Drop(f, n, mem[n].addrs[i := 0], {b}), owner - {b}, n);
  }

  /** An entry about to be freed is in use and has not been freed yet. */
  lemma EntryInUse(sb: Super, d: seq<Block>, mem: map<nat, Inode>, f: Files, owner: map<nat, Slot>, n: nat, T: Block, k: nat)
    requires Shows(sb, d, mem, f) && f.mem == mem && OkBut(sb, f, owner, n) && n in mem && k < NINDIRECT
    requires mem[n].addrs[NDIRECT] in f.disk.data && T == f.disk.data[mem[n].addrs[NDIRECT]] && WordAt(T, k) != 0
    ensures WordAt(T, k) in f.disk.data && WordAt(T, k) in f.disk.used && WordAt(T, k) !in Entries(T, k)
  {
    OkButMeans(sb, f, owner, n);
    EntryOwned(f, owner, n, T, k);
    OwnedIsData(sb, d, mem, f, owner, n, WordAt(T, k));
  }

  /** bfree(addrs[NDIRECT]); addrs[NDIRECT] = 0, after all its entries were freed. */
  lemma FreeTableOk(sb: Super, d: seq<Block>, mem: map<nat, Inode>, f: Files, owner: map<nat, Slot>, n: nat, t: nat, D: set<nat>)
    requires Shows(sb, d, mem, f) && f.mem == mem && OkBut(sb, f, owner, n)
    requires n in mem && mem[n].addrs[NDIRECT] == t && t != 0
    requires t in f.disk.data && D == Entries(f.disk.data[t], NINDIRECT) + {t}
    ensures f.IsInode(n) && t in f.disk.used && t !in Entries(f.disk.data[t], NINDIRECT)
    ensures OkBut(sb, Drop(f, n, mem[n].addrs[NDIRECT := 0], D), owner - D, n)
    ensures Shrinks(f, Drop(f, n, mem[n].addrs[NDIRECT := 0], D), owner, owner - D, n)
  {
    OkButMeans(sb, f, owner, n);
    DetachTableKeeps(f, owner, n, t, D);
    forall b | b in D ensures sb.Managed(b) ==> sb.Data(b) {
      OwnedIsData(sb, d, mem, f, owner, n, b);
    }
    DropShrinks(f, owner, n, mem[n].addrs[NDIRECT := 0], D);
    DropReserved(sb, f, n, mem[n].addrs[NDIRECT := 0], D);
    OkButMeans(sb, Drop(f, n, mem[n].addrs[NDIRECT := 0], D), owner - D, n);
  }

  /** g is f after itrunc(n): every block the inode owned is free, nothing else is, and no other file
      or inode changed. */
  ghost predicate Truncated(f: Files, g: Files, own: map<nat, Slot>, n: nat) {
    && n in f.mem && g.mem.Keys == f.mem.Keys && f.IsInode(n) && |g.disk.dinode| == |f.disk.dinode| && g.disk.data == f.disk.data
    && g.mem[n] == f.mem[n].(size := 0, addrs := NoAddrs) && Synced(g, n)
    && (forall m: nat :: m < |f.disk.dinode| && m != n ==> g.disk.dinode[m] == f.disk.dinode[m])
    && (forall b :: b in g.disk.used <==> b in f.disk.used && !(b in own && own[b].inum == n))
    && (forall m: nat :: f.IsInode(m) && m != n ==> g.Cur(m) == f.Cur(m))
    && (forall m: nat, o: nat :: f.IsInode(m) && m != n && o < MAXBYTES ==> g.FileByte(m, o) == f.FileByte(m, o))
  }

  lemma NoneLeft(f: Files, owner: map<nat, Slot>, n: nat, b: nat)
    requires Good(f, owner) && n in f.mem && f.mem[n].addrs == NoAddrs && b in owner
    ensures owner[b].inum != n
  {
    ZeroWords();
    assert f.Ptr(owner[b]) == b;
  }

  lemma ShrunkFrame(f: Files, g: Files, own: map<nat, Slot>, own': map<nat, Slot>, n: nat, m: nat)
    requires Shrinks(f, g, own, own', n) && f.IsInode(m) && m != n
    ensures g.Cur(m) == f.Cur(m) && forall o: nat :: o < MAXBYTES ==> g.FileByte(m, o) == f.FileByte(m, o)
  {
  }

  lemma TruncDone(sb: Super, f0: Files, f: Files, own0: map<nat, Slot>, own: map<nat, Slot>, n: nat)
    requires Shrinks(f0, f, own0, own, n) && OkBut(sb, f, own, n) && f.mem[n].addrs == NoAddrs
    ensures f.IsInode(n) && f.mem[n].typ != 0
    ensures var g := Sync(Retag(f, n, WithSize(f.mem[n], 0)), n);
      Ok(sb, g, own) && Truncated(f0, g, own0, n) && (NoLeak(f0, own0).holds ==> NoLeak(g, own).holds)
  {
    TruncOk(sb, f, own, n);
    OkButMeans(sb, f, own, n);
    var g := Sync(Retag(f, n, WithSize(f.mem[n], 0)), n);
    forall b ensures b in g.disk.used <==> b in f0.disk.used && !(b in own0 && own0[b].inum == n) {
      if b in own {
        NoneLeft(f, own, n, b);
      }
    }
    forall m: nat | f0.IsInode(m) && m != n ensures g.Cur(m) == f0.Cur(m) {
      ShrunkFrame(f0, f, own0, own, n, m);
    }
    forall m: nat, o: nat | f0.IsInode(m) && m != n && o < MAXBYTES ensures g.FileByte(m, o) == f0.FileByte(m, o) {
      ShrunkFrame(f0, f, own0, own, n, m);
      assert g.FileByte(m, o) == f.FileByte(m, o);
    }
  }

  lemma TruncOk(sb: Super, f: Files, own: map<nat, Slot>, n: nat)
    requires OkBut(sb, f, own, n) && n in f.mem && f.IsInode(n)
    ensures var g := Sync(Retag(f, n, WithSize(f.mem[n], 0)), n); Ok(sb, g, own) && SameBytes(f, g)
  {
    OkButMeans(sb, f, own, n);
    var e := Retag(f, n, WithSize(f.mem[n], 0));
    SameInodes(f, e, own);
    SyncKeeps(e, own, n);
    OkMeans(sb, Sync(e, n), own);
    SameInodes(f, Sync(e, n), own);
  }

  lemma TableThere(sb: Super, d: seq<Block>, mem: map<nat, Inode>, f: Files, owner: map<nat, Slot>, n: nat)
    requires Shows(sb, d, mem, f) && f.mem == mem && OkBut(sb, f, owner, n) && n in mem
    ensures var t := mem[n].addrs[NDIRECT]; t in f.disk.data && t < |d| && f.disk.data[t] == d[t]
  {
    OkButMeans(sb, f, owner, n);
    TableOwned(f, owner, n);
    assert Open(sb);
  }

  // ----- the inode cache -----

  const NINODE := 50

  lemma InodeOnDisk(sb: Super, d: seq<Block>, mem: map<nat, Inode>, f: Files, n: nat)
    requires Shows(sb, d, mem, f) && n < sb.ninodes
    ensures 0 < sb.ipg && sb.InodeBlock(n) < |d| && f.IsInode(n) && GetInode(d[sb.InodeBlock(n)], n % IPB) == f.disk.dinode[n]
  {
    assert Open(sb);
    InodeRegion(sb, n);
    assert InodeAt(sb, d, n) == f.disk.dinode[n];
  }

  lemma LoadOk(sb: Super, f: Files, owner: map<nat, Slot>, n: nat)
    requires Ok(sb, f, owner) && f.IsInode(n) && n !in f.mem && f.disk.dinode[n].typ != 0
    ensures Ok(sb, Load(f, n), owner) && SamePtrs(f, Load(f, n)) && SameBytes(f, Load(f, n))
  {
    OkMeans(sb, f, owner);
    LoadKeeps(f, owner, n);
    OkMeans(sb, Load(f, n), owner);
  }

  /** What dropping the cached copy of inode n leaves of the owner map. */
  ghost function Kept(f: Files, owner: map<nat, Slot>, n: nat): (r: map<nat, Slot>)
  {
    if Good(f, owner) then owner - Lost(f, owner, n) else owner
  }

  lemma ForgetOk(sb: Super, f: Files, owner: map<nat, Slot>, n: nat)
    requires Ok(sb, f, owner) && n in f.mem
    ensures f.IsInode(n) && Ok(sb, Forget(f, n), Kept(f, owner, n))
    ensures Synced(f, n) ==> Kept(f, owner, n) == owner && SamePtrs(f, Forget(f, n)) && SameBytes(f, Forget(f, n))
  {
    OkMeans(sb, f, owner);
    ForgetKeeps(f, owner, n);
    OkMeans(sb, Forget(f, n), Kept(f, owner, n));
    if Synced(f, n) {
      ForgetSynced(f, owner, n);
      assert Lost(f, owner, n) == {};
      assert owner - {} == owner;
    }
  }

  lemma ResetShows(sb: Super, d: seq<Block>, mem: map<nat, Inode>, f: Files, n: nat, ip: Inode)
    requires Shows(sb, d, mem, f) && n < sb.ninodes
    ensures 0 < sb.ipg && sb.InodeBlock(n) < |d| && f.IsInode(n)
    ensures var m := sb.InodeBlock(n); Shows(sb, d[m := PutInode(d[m], n % IPB, ip)], mem - {n}, Reset(f, n, ip))
  {
    assert Open(sb);
    ViewInode(sb, d, f.disk, n, ip);
  }

  lemma ResetOk(sb: Super, f: Files, owner: map<nat, Slot>, n: nat, ip: Inode)
    requires Ok(sb, f, owner) && f.IsInode(n) && f.Cur(n).addrs == NoAddrs && ip.addrs == NoAddrs && ip.size <= MAXBYTES
    ensures Ok(sb, Reset(f, n, ip), owner) && SamePtrs(f, Reset(f, n, ip)) && SameBytes(f, Reset(f, n, ip))
  {
    OkMeans(sb, f, owner);
    ResetKeeps(f, owner, n, ip);
    OkMeans(sb, Reset(f, n, ip), owner);
  }

  lemma FreeInode(sb: Super, f: Files, owner: map<nat, Slot>, n: nat)
    requires Ok(sb, f, owner) && f.IsInode(n) && f.disk.dinode[n].typ == 0
    ensures n !in f.mem && f.Cur(n).addrs == NoAddrs
  {
    OkMeans(sb, f, owner);
  }

  /** g is f after iput freed inode n: its blocks and the inode itself are free, and no other file or
      inode changed. */
  ghost predicate Freed(f: Files, g: Files, own: map<nat, Slot>, n: nat) {
    && f.IsInode(n) && |g.disk.dinode| == |f.disk.dinode| && n in f.mem && g.mem.Keys == f.mem.Keys - {n}
    && g.disk.dinode[n] == f.mem[n].(typ := 0, size := 0, addrs := NoAddrs)
    && (forall m: nat :: m < |f.disk.dinode| && m != n ==> g.disk.dinode[m] == f.disk.dinode[m])
    && (forall b :: b in g.disk.used <==> b in f.disk.used && !(b in own && own[b].inum == n))
    && (forall m: nat :: f.IsInode(m) && m != n ==> g.Cur(m) == f.Cur(m))
    && (forall m: nat, o: nat :: f.IsInode(m) && m != n && o < MAXBYTES ==> g.FileByte(m, o) == f.FileByte(m, o))
  }

  lemma FreedBy(f: Files, e: Files, g: Files, own: map<nat, Slot>, n: nat)
    requires Truncated(f, e, own, n) && g == Reset(e, n, e.mem[n].(typ := 0)) && SameBytes(e, g)
    ensures Freed(f, g, own, n)
  {
    forall m: nat, o: nat | f.IsInode(m) && m != n && o < MAXBYTES ensures g.FileByte(m, o) == f.FileByte(m, o) {
      assert e.FileByte(m, o) == f.FileByte(m, o);
    }
  }

  // ----- filewrite -----

  const CHUNK := (MAXOPBLOCKS - 1 - 1 - 2) / 2 * 512

  /** No chunk of filewrite costs the log more than its quota. */
  lemma ChunkFits(off: nat, t: nat)
    requires t <= CHUNK
    ensures LogCost(off, t) <= MAXOPBLOCKS
  {
    if t > 0 && off % BSIZE != 0 {
      assert (off + t - 1) / BSIZE <= off / BSIZE + 3;
    } else if t > 0 {
      assert (off + t - 1) / BSIZE <= off / BSIZE + 2;
    }
  }

  /** Two writes in a row are one write, if the first was not cut short. */
  lemma WrittenOn(f: Files, e: Files, g: Files, n: nat, off: nat, src: seq<Byte>, t: nat, piece: seq<Byte>, u: nat)
    requires Written(f, e, n, off, src, t).holds && t + |piece| <= |src| && piece == src[t..t + |piece|]
    requires Written(e, g, n, off + t, piece, u).holds
    ensures Written(f, g, n, off, src, t + u).holds
  {
    forall m: nat, o: nat | f.IsInode(m) && o < MAXBYTES
      ensures g.FileByte(m, o) == if m == n && off <= o < off + t + u then src[o - off] else f.FileByte(m, o)
    {
      assert e.FileByte(m, o) == if m == n && off <= o < off + t then src[o - off] else f.FileByte(m, o);
    }
    SteadyTwice(f, e, g, n);
  }

  lemma WrittenNone(f: Files, n: nat, off: nat, src: seq<Byte>)
    requires n in f.mem && f.IsInode(n) && off <= f.mem[n].size <= MAXBYTES
    ensures Written(f, f, n, off, src, 0).holds
  {
    assert f.mem[n] == WithAddrs(WithSize(f.mem[n], f.mem[n].size), f.mem[n].addrs);
  }

  /** State of filewrite's loop: i bytes of addr are accounted for and tt of them are written. */
  ghost function Sending(sb: Super, f0: Files, f: Files, n: nat, addr: seq<Byte>, off: nat, i: nat, tt: nat, going: bool): (r: Claim) {
    Claim(forall x {:trigger Open(x)} :: x == sb && Open(x) ==>
      && n in f0.mem && n in f.mem && f.IsInode(n) && HoleFree(f, n) && f.mem[n].typ != T_DEV && tt <= i <= |addr|
      && (f0.mem[n].size < off ==> f == f0 && tt == 0 && i == 0)
      && (off <= f0.mem[n].size ==> Written(f0, f, n, off, addr, tt).holds)
      && (tt == i || (i - tt <= CHUNK && Exhausted(x, f) && f.mem[n].size < off + i))
      && (!going ==> i < |addr|))
  }

  lemma SendStart(sb: Super, f: Files, n: nat, addr: seq<Byte>, off: nat)
    requires n in f.mem && f.IsInode(n) && HoleFree(f, n) && f.mem[n].typ != T_DEV && f.mem[n].size <= MAXBYTES
    ensures Sending(sb, f, f, n, addr, off, 0, 0, true).holds
  {
    if off <= f.mem[n].size {
      WrittenNone(f, n, off, addr);
    }
  }

  lemma SendFacts(sb: Super, f0: Files, f: Files, n: nat, addr: seq<Byte>, off: nat, i: nat, tt: nat, going: bool)
    requires Sending(sb, f0, f, n, addr, off, i, tt, going).holds
    ensures n in f.mem && f.IsInode(n) && HoleFree(f, n) && f.mem[n].typ != T_DEV && tt <= i <= |addr|
  {
    assert Open(sb);
  }

  /** A chunk was refused. */
  lemma SendStop(sb: Super, f0: Files, f: Files, n: nat, addr: seq<Byte>, off: nat, i: nat, tt: nat)
    requires Sending(sb, f0, f, n, addr, off, i, tt, true).holds && i < |addr|
    ensures Sending(sb, f0, f, n, addr, off, i, tt, false).holds
  {
    assert Open(sb);
  }

  /** A chunk was accepted, and t bytes of it written. */
  lemma SendOn(sb: Super, f0: Files, e: Files, f: Files, n: nat, addr: seq<Byte>, off: nat, i: nat, tt: nat, n1: nat, t: nat)
    requires Sending(sb, f0, e, n, addr, off, i, tt, true).holds
    requires 0 < n1 <= CHUNK && i + n1 <= |addr| && n in e.mem && off + i <= e.mem[n].size
    requires Written(e, f, n, off + i, addr[i..i + n1], t).holds
    requires t < n1 ==> Exhausted(sb, f) && e.mem[n].size <= off + i + t
    ensures Sending(sb, f0, f, n, addr, off, i + n1, tt + t, true).holds
  {
    assert Open(sb);
    WrittenOn(f0, e, f, n, off, addr, tt, addr[i..i + n1], t);
  }

  lemma SendNext(sb: Super, f0: Files, e: Files, f: Files, n: nat, addr: seq<Byte>, off: nat, i: nat, tt: nat, n1: nat, t: nat, going: bool)
    requires Sending(sb, f0, e, n, addr, off, i, tt, true).holds && i < |addr|
    requires 0 < n1 <= CHUNK && i + n1 <= |addr| && n in e.mem
    requires if going then off + i <= e.mem[n].size && Written(e, f, n, off + i, addr[i..i + n1], t).holds else f == e
    requires going && t < n1 ==> Exhausted(sb, f) && e.mem[n].size <= off + i + t
    ensures Sending(sb, f0, f, n, addr, off, if going then i + n1 else i, if going then tt + t else tt, going).holds
  {
    if going {
      SendOn(sb, f0, e, f, n, addr, off, i, tt, n1, t);
    } else {
      SendStop(sb, f0, f, n, addr, off, i, tt);
    }
  }

  lemma SendEnd(sb: Super, f0: Files, f: Files, n: nat, addr: seq<Byte>, off: nat, i: nat, tt: nat, going: bool)
    requires Sending(sb, f0, f, n, addr, off, i, tt, going).holds && (going ==> i == |addr|)
    ensures n in f0.mem && tt <= |addr|
    ensures f0.mem[n].size < off ==> f == f0 && tt == 0 && i == 0
    ensures off <= f0.mem[n].size ==> Written(f0, f, n, off, addr, tt).holds
    ensures tt == |addr| && off <= f0.mem[n].size ==> i == |addr|
    ensures i == |addr| && tt < |addr| ==> Exhausted(sb, f) && |addr| - tt <= CHUNK
  {
    assert Open(sb);
  }
}
