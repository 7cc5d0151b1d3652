/** Which inode slot points at which block, and what a file's bytes are, over the abstract disk of
    Layout and the in-memory inodes. */
module Ownership {
  import opened Basics
  import opened Words
  import opened Layout

  const MAXBYTES := 71680  // MAXFILE * BSIZE

  /** A place that can hold a block number: addrs[i] of an inode (i == NDIRECT is the indirect
      table) or entry j of its indirect table. */
  datatype Slot = Direct(inum: nat, i: nat) | Entry(inum: nat, j: nat)

  /** The slot for block bn of a file. */
  function SlotOf(n: nat, bn: nat): (s: Slot) {
    if bn < NDIRECT then Direct(n, bn) else Entry(n, bn - NDIRECT)
  }

  /** mem holds the cached inodes whose valid flag is set. */
  datatype Files = Files(disk: Fs, mem: map<nat, Inode>) {
    ghost predicate IsInode(n: nat) {
      n < |disk.dinode|
    }
    /** The inode as the kernel sees it. */
    ghost function Cur(n: nat): (ip: Inode)
      requires IsInode(n)
    {
      if n in mem then mem[n] else disk.dinode[n]
    }
    ghost predicate IsSlot(s: Slot) {
      IsInode(s.inum) && if s.Direct? then s.i <= NDIRECT else s.j < NINDIRECT
    }
    ghost function EntryAt(t: Word, j: nat): (b: Word)
      requires j < NINDIRECT
    {
      if t in disk.data then WordAt(disk.data[t], j) else 0
    }
    /** The block number in a slot. An indirect table at block 0 is read from block 0, as bmap does. */
    ghost function Ptr(s: Slot): (b: Word)
      requires IsSlot(s)
    {
      if s.Direct? then Cur(s.inum).addrs[s.i] else EntryAt(Cur(s.inum).addrs[NDIRECT], s.j)
    }
    ghost function Addr(n: nat, bn: nat): (b: Word)
      requires IsInode(n) && bn < MAXFILE
    {
      Ptr(SlotOf(n, bn))
    }
    /** Byte o of file n; a hole reads as block 0. */
    ghost function FileByte(n: nat, o: nat): (x: Byte)
      requires IsInode(n) && o < MAXBYTES
    {
      var a := Addr(n, o / BSIZE);
      if a in disk.data then disk.data[a][o % BSIZE] else 0
    }
  }

  /** owner maps each block some slot points at to that slot, and nothing else: so no block is
      pointed at twice, and every block pointed at is a data block marked in use. */
  ghost predicate Good(f: Files, owner: map<nat, Slot>) {
    && 0 in f.disk.data && f.disk.data[0] == ZeroBlock
    && (forall s :: f.IsSlot(s) && f.Ptr(s) != 0 ==> f.Ptr(s) in owner && owner[f.Ptr(s)] == s)
    && (forall b :: b in owner ==>
          b != 0 && b in f.disk.data && b in f.disk.used && f.IsSlot(owner[b]) && f.Ptr(owner[b]) == b)
  }

  ghost predicate SamePtrs(f: Files, g: Files) {
    |f.disk.dinode| == |g.disk.dinode| && forall s :: f.IsSlot(s) ==> g.Ptr(s) == f.Ptr(s)
  }

  ghost predicate SameBytes(f: Files, g: Files) {
    |f.disk.dinode| == |g.disk.dinode| &&
    forall n: nat, o: nat :: f.IsInode(n) && o < MAXBYTES ==> g.FileByte(n, o) == f.FileByte(n, o)
  }

  /** No block is pointed at by two slots. */
  lemma NoSharing(f: Files, owner: map<nat, Slot>, s: Slot, t: Slot)
    requires Good(f, owner) && f.IsSlot(s) && f.IsSlot(t) && s != t && f.Ptr(s) != 0
    ensures f.Ptr(s) != f.Ptr(t)
  {
    assert owner[f.Ptr(s)] == s;
  }

  // ----- balloc: mark a free block and zero it -----

  ghost function Grab(f: Files, b: nat): (g: Files) {
    Files(Fs(f.disk.used + {b}, f.disk.dinode, f.disk.data[b := ZeroBlock]), f.mem)
  }

  lemma GrabKeeps(f: Files, owner: map<nat, Slot>, b: nat)
    requires Good(f, owner) && b in f.disk.data && b != 0 && b !in f.disk.used
    ensures b !in owner && Good(Grab(f, b), owner) && SamePtrs(f, Grab(f, b)) && SameBytes(f, Grab(f, b))
  {
    var g := Grab(f, b);
    forall s | f.IsSlot(s) ensures g.Ptr(s) == f.Ptr(s) {
      if s.Entry? {
        TableOwned(f, owner, s.inum);
      }
    }
    BytesFollow(f, g, owner, b);
  }

  /** A file's table is at block 0 or at a block of its own. */
  lemma TableOwned(f: Files, owner: map<nat, Slot>, n: nat)
    requires Good(f, owner) && f.IsInode(n)
    ensures var t := f.Cur(n).addrs[NDIRECT];
      t in f.disk.data && (t != 0 ==> t in owner && owner[t] == Direct(n, NDIRECT))
  {
    assert f.Ptr(Direct(n, NDIRECT)) == f.Cur(n).addrs[NDIRECT];
  }

  /** If the slots are as before and only block b changed, which nobody points at, so are the bytes. */
  lemma BytesFollow(f: Files, g: Files, owner: map<nat, Slot>, b: nat)
    requires Good(f, owner) && SamePtrs(f, g) && b !in owner && b != 0
    requires g.disk.data.Keys == f.disk.data.Keys && forall c :: c in f.disk.data && c != b ==> g.disk.data[c] == f.disk.data[c]
    ensures SameBytes(f, g)
  {
    forall n: nat, o: nat | f.IsInode(n) && o < MAXBYTES ensures g.FileByte(n, o) == f.FileByte(n, o) {
      var s := SlotOf(n, o / BSIZE);
      assert f.IsSlot(s) && g.Ptr(s) == f.Ptr(s);
    }
  }

  // ----- bmap: hang a fresh block on an empty slot -----

  ghost predicate Fresh(f: Files, owner: map<nat, Slot>, b: nat) {
    b != 0 && b < WORDMAX && b in f.disk.data && b in f.disk.used && b !in owner && f.disk.data[b] == ZeroBlock
  }

  function SetAddr(ip: Inode, i: nat, b: Word): (r: Inode)
    requires i <= NDIRECT
  {
    Inode(ip.typ, ip.major, ip.minor, ip.nlink, ip.size, ip.addrs[i := b])
  }

  ghost function AttachDirect(f: Files, n: nat, i: nat, b: Word): (g: Files)
    requires n in f.mem && i <= NDIRECT
  {
    Files(f.disk, f.mem[n := SetAddr(f.mem[n], i, b)])
  }

  lemma AttachDirectKeeps(f: Files, owner: map<nat, Slot>, n: nat, i: nat, b: Word)
    requires Good(f, owner) && f.IsInode(n) && n in f.mem && i <= NDIRECT
    requires f.mem[n].addrs[i] == 0 && Fresh(f, owner, b)
    ensures Good(AttachDirect(f, n, i, b), owner[b := Direct(n, i)])
    ensures SameBytes(f, AttachDirect(f, n, i, b))
    ensures forall s :: f.IsSlot(s) && s != Direct(n, i) ==> AttachDirect(f, n, i, b).Ptr(s) == f.Ptr(s)
  {
    var g := AttachDirect(f, n, i, b);
    ZeroWords();
    forall s | f.IsSlot(s) ensures g.Ptr(s) == if s == Direct(n, i) then b else f.Ptr(s) {}
    forall m: nat, o: nat | f.IsInode(m) && o < MAXBYTES ensures g.FileByte(m, o) == f.FileByte(m, o) {
      var s := SlotOf(m, o / BSIZE);
      assert f.IsSlot(s);
    }
  }

  ghost function AttachEntry(f: Files, n: nat, j: nat, b: Word): (g: Files)
    requires f.IsInode(n) && f.Cur(n).addrs[NDIRECT] in f.disk.data && j < NINDIRECT
  {
    var t := f.Cur(n).addrs[NDIRECT];
    Store(f, t, PutWord(f.disk.data[t], j, b))
  }

  lemma AttachEntryPtr(f: Files, n: nat, j: nat, b: Word, s: Slot)
    requires f.IsInode(n) && j < NINDIRECT && f.Cur(n).addrs[NDIRECT] in f.disk.data && f.IsSlot(s)
    requires s.Entry? && s.inum != n ==> f.Cur(s.inum).addrs[NDIRECT] != f.Cur(n).addrs[NDIRECT]
    ensures AttachEntry(f, n, j, b).Ptr(s) == if s == Entry(n, j) then b else f.Ptr(s)
  {
  }

  lemma AttachEntryPtrs(f: Files, owner: map<nat, Slot>, n: nat, j: nat, b: Word)
    requires Good(f, owner) && f.IsInode(n) && j < NINDIRECT && f.Cur(n).addrs[NDIRECT] != 0
    ensures f.Cur(n).addrs[NDIRECT] in f.disk.data
    ensures forall s :: f.IsSlot(s) ==> AttachEntry(f, n, j, b).Ptr(s) == if s == Entry(n, j) then b else f.Ptr(s)
  {
    TableOwned(f, owner, n);
    forall s | f.IsSlot(s) ensures AttachEntry(f, n, j, b).Ptr(s) == if s == Entry(n, j) then b else f.Ptr(s) {
      if s.Entry? {
        TableOwned(f, owner, s.inum);
      }
      AttachEntryPtr(f, n, j, b, s);
    }
  }

  /** No file has the table among its blocks, and the new block is zero. */
  lemma AttachEntryByte(f: Files, owner: map<nat, Slot>, n: nat, j: nat, b: Word, m: nat, o: nat)
    requires Good(f, owner) && f.IsInode(n) && j < NINDIRECT && f.Cur(n).addrs[NDIRECT] != 0 && f.Ptr(Entry(n, j)) == 0 && Fresh(f, owner, b)
    requires f.Cur(n).addrs[NDIRECT] in f.disk.data && f.IsInode(m) && o < MAXBYTES
    requires var s := SlotOf(m, o / BSIZE); AttachEntry(f, n, j, b).Ptr(s) == if s == Entry(n, j) then b else f.Ptr(s)
    ensures AttachEntry(f, n, j, b).FileByte(m, o) == f.FileByte(m, o)
  {
    TableOwned(f, owner, n);
    var s := SlotOf(m, o / BSIZE);
    assert f.IsSlot(s);
    assert f.Ptr(s) != 0 ==> owner[f.Ptr(s)] == s;
  }

  lemma AttachEntryKeeps(f: Files, owner: map<nat, Slot>, n: nat, j: nat, b: Word)
    requires Good(f, owner) && f.IsInode(n) && j < NINDIRECT
    requires f.Cur(n).addrs[NDIRECT] != 0 && f.Ptr(Entry(n, j)) == 0 && Fresh(f, owner, b)
    ensures f.Cur(n).addrs[NDIRECT] in f.disk.data
    ensures Good(AttachEntry(f, n, j, b), owner[b := Entry(n, j)])
    ensures SameBytes(f, AttachEntry(f, n, j, b))
    ensures forall s :: f.IsSlot(s) && s != Entry(n, j) ==> AttachEntry(f, n, j, b).Ptr(s) == f.Ptr(s)
  {
    AttachEntryPtrs(f, owner, n, j, b);
    TableOwned(f, owner, n);
    var g := AttachEntry(f, n, j, b);
    forall m: nat, o: nat | f.IsInode(m) && o < MAXBYTES ensures g.FileByte(m, o) == f.FileByte(m, o) {
      assert f.IsSlot(SlotOf(m, o / BSIZE));
      AttachEntryByte(f, owner, n, j, b, m, o);
    }
  }

  // ----- writei: new contents for a block of a file -----

  ghost function Store(f: Files, a: nat, v: Block): (g: Files) {
    Files(Fs(f.disk.used, f.disk.dinode, f.disk.data[a := v]), f.mem)
  }

  lemma StoreKeeps(f: Files, owner: map<nat, Slot>, n: nat, bn: nat, v: Block)
    requires Good(f, owner) && f.IsInode(n) && bn < MAXFILE && f.Addr(n, bn) != 0
    ensures var g := Store(f, f.Addr(n, bn), v);
      && Good(g, owner) && SamePtrs(f, g)
      && forall m: nat, o: nat :: f.IsInode(m) && o < MAXBYTES ==>
           g.FileByte(m, o) == if m == n && o / BSIZE == bn then v[o % BSIZE] else f.FileByte(m, o)
  {
    var a := f.Addr(n, bn);
    var g := Store(f, a, v);
    assert owner[a] == SlotOf(n, bn);
    forall s | f.IsSlot(s) ensures g.Ptr(s) == f.Ptr(s) {
      if s.Entry? {
        TableOwned(f, owner, s.inum);
      }
    }
    forall m: nat, o: nat | f.IsInode(m) && o < MAXBYTES
      ensures g.FileByte(m, o) == if m == n && o / BSIZE == bn then v[o % BSIZE] else f.FileByte(m, o)
    {
      var s := SlotOf(m, o / BSIZE);
      assert f.IsSlot(s) && g.Ptr(s) == f.Ptr(s);
      assert f.Ptr(s) != 0 ==> owner[f.Ptr(s)] == s;
    }
  }

  // ----- the inode table and the cached inodes -----

  /** A cached inode may be ahead of its disk copy, but only by block numbers the disk lacks. */
  ghost predicate Backed(f: Files) {
    BackedBut(f, {})
  }

  /** ... except for the inodes in part, which are being truncated. */
  ghost predicate BackedBut(f: Files, part: set<nat>) {
    forall n :: n in f.mem ==>
      && f.IsInode(n) && f.disk.dinode[n].typ != 0 && f.mem[n].typ != 0
      && (n !in part ==>
            forall i :: 0 <= i <= NDIRECT ==> f.disk.dinode[n].addrs[i] == 0 || f.disk.dinode[n].addrs[i] == f.mem[n].addrs[i])
  }

  /** Free inodes own nothing, and no file is longer than MAXFILE blocks. */
  ghost predicate Tidy(f: Files) {
    && (forall n :: 0 <= n < |f.disk.dinode| ==>
          && f.disk.dinode[n].size <= MAXBYTES
          && (f.disk.dinode[n].typ == 0 ==> f.disk.dinode[n].addrs == NoAddrs))
    && (forall n :: n in f.mem ==> f.mem[n].size <= MAXBYTES)
  }

  /** The disk copy of inode n is up to date. */
  ghost predicate Synced(f: Files, n: nat)
    requires f.IsInode(n)
  {
    f.disk.dinode[n] == f.Cur(n)
  }

  /** Every block below the file's size is allocated. */
  ghost predicate HoleFree(f: Files, n: nat)
    requires f.IsInode(n)
  {
    forall bn: nat :: bn < MAXFILE && bn * BSIZE < f.Cur(n).size ==> f.Addr(n, bn) != 0
  }

  function WithSize(ip: Inode, size: Word): (r: Inode) {
    Inode(ip.typ, ip.major, ip.minor, ip.nlink, size, ip.addrs)
  }

  /** g is f after some empty slots of inode n were filled. */
  ghost predicate Grows(f: Files, g: Files, n: nat) {
    && f.disk.dinode == g.disk.dinode && f.disk.used <= g.disk.used
    && f.mem.Keys == g.mem.Keys && n in f.mem && f.IsInode(n)
    && (forall m :: m in f.mem && m != n ==> g.mem[m] == f.mem[m])
    && g.mem[n] == f.mem[n].(addrs := g.mem[n].addrs)
    && (forall s :: f.IsSlot(s) && (s.inum != n || f.Ptr(s) != 0) ==> g.Ptr(s) == f.Ptr(s))
  }

  /** ... and nobody's bytes change. */
  ghost predicate Extends(f: Files, g: Files, n: nat) {
    Grows(f, g, n) && SameBytes(f, g)
  }

  function WithAddrs(ip: Inode, addrs: Addrs): (r: Inode) {
    Inode(ip.typ, ip.major, ip.minor, ip.nlink, ip.size, addrs)
  }

  /** g is f with b in the empty slot s, and no other slot touched. */
  ghost function Filled(f: Files, g: Files, s: Slot, b: Word): (r: Claim) {
    Claim(&& Extends(f, g, s.inum) && f.IsSlot(s) && f.Ptr(s) == 0 && g.Ptr(s) == b
    && g.disk.used == f.disk.used + {b} && g.disk.data.Keys == f.disk.data.Keys
    && forall t :: f.IsSlot(t) && t != s ==> g.Ptr(t) == f.Ptr(t))
  }

  /** Every block in use is metadata or pointed at. */
  ghost function NoLeak(f: Files, owner: map<nat, Slot>): (r: Claim) {
    Claim(forall b :: b in f.disk.used && b in f.disk.data && b != 0 ==> b in owner)
  }

  lemma GrowsTwice(f: Files, g: Files, h: Files, n: nat)
    requires Grows(f, g, n) && Grows(g, h, n)
    ensures Grows(f, h, n)
  {
    forall s | f.IsSlot(s) && (s.inum != n || f.Ptr(s) != 0) ensures h.Ptr(s) == f.Ptr(s) {
      assert g.IsSlot(s) && g.Ptr(s) == f.Ptr(s);
    }
  }

  lemma ExtendsTwice(f: Files, g: Files, h: Files, n: nat)
    requires Extends(f, g, n) && Extends(g, h, n)
    ensures Extends(f, h, n)
  {
    GrowsTwice(f, g, h, n);
    forall m: nat, o: nat | f.IsInode(m) && o < MAXBYTES ensures h.FileByte(m, o) == f.FileByte(m, o) {
      assert g.FileByte(m, o) == f.FileByte(m, o);
    }
  }

  lemma GrabExtends(f: Files, owner: map<nat, Slot>, n: nat, b: nat)
    requires Good(f, owner) && n in f.mem && f.IsInode(n) && b in f.disk.data && b != 0 && b !in f.disk.used
    ensures Extends(f, Grab(f, b), n) && SamePtrs(f, Grab(f, b)) && Good(Grab(f, b), owner) && b !in owner
    ensures Grab(f, b).disk.used == f.disk.used + {b} && Grab(f, b).disk.data.Keys == f.disk.data.Keys
  {
    GrabKeeps(f, owner, b);
  }

  lemma FilledAfter(f: Files, e: Files, g: Files, s: Slot, b: Word)
    requires Extends(f, e, s.inum) && SamePtrs(f, e) && Filled(e, g, s, b).holds
    requires e.disk.used == f.disk.used + {b} && e.disk.data.Keys == f.disk.data.Keys
    ensures Filled(f, g, s, b).holds
  {
    ExtendsTwice(f, e, g, s.inum);
    forall t | f.IsSlot(t) && t != s ensures g.Ptr(t) == f.Ptr(t) {
      assert e.IsSlot(t) && e.Ptr(t) == f.Ptr(t);
    }
  }

  lemma AttachDirectFills(f: Files, owner: map<nat, Slot>, n: nat, i: nat, b: Word)
    requires Good(f, owner) && f.IsInode(n) && n in f.mem && i <= NDIRECT
    requires f.mem[n].addrs[i] == 0 && Fresh(f, owner, b)
    ensures Filled(f, AttachDirect(f, n, i, b), Direct(n, i), b).holds
  {
    AttachDirectKeeps(f, owner, n, i, b);
    assert f.Ptr(Direct(n, i)) == 0;
  }

  lemma AttachEntryFills(f: Files, owner: map<nat, Slot>, n: nat, j: nat, b: Word)
    requires Good(f, owner) && f.IsInode(n) && n in f.mem && j < NINDIRECT
    requires f.Cur(n).addrs[NDIRECT] != 0 && f.Ptr(Entry(n, j)) == 0 && Fresh(f, owner, b)
    ensures f.Cur(n).addrs[NDIRECT] in f.disk.data
    ensures Filled(f, AttachEntry(f, n, j, b), Entry(n, j), b).holds
  {
    AttachEntryKeeps(f, owner, n, j, b);
  }

  /** g is f after bmap(n, bn) returned a: only the block's own slot and the table's can be filled. */
  ghost predicate Mapped(f: Files, g: Files, n: nat, bn: nat, a: Word) {
    && Extends(f, g, n) && bn < MAXFILE && g.Addr(n, bn) == a
    && forall s :: f.IsSlot(s) && s != SlotOf(n, bn) && s != Direct(n, NDIRECT) ==> g.Ptr(s) == f.Ptr(s)
  }

  lemma ExtendsSelf(f: Files, n: nat)
    requires n in f.mem && f.IsInode(n)
    ensures Extends(f, f, n)
  {
    assert f.mem[n] == WithAddrs(f.mem[n], f.mem[n].addrs);
  }

  lemma MappedDirect(f: Files, g: Files, n: nat, bn: nat, a: Word)
    requires n in f.mem && f.IsInode(n) && bn < NDIRECT
    requires (f == g && f.Ptr(Direct(n, bn)) == a) || Filled(f, g, Direct(n, bn), a).holds
    ensures Mapped(f, g, n, bn, a)
  {
    if f == g {
      ExtendsSelf(f, n);
    }
  }

  lemma MappedEntry(f: Files, g: Files, h: Files, n: nat, j: nat, t: Word, a: Word)
    requires n in f.mem && f.IsInode(n) && j < NINDIRECT
    requires f == g || Filled(f, g, Direct(n, NDIRECT), t).holds
    requires (g == h && g.Ptr(Entry(n, j)) == a) || Filled(g, h, Entry(n, j), a).holds
    ensures Mapped(f, h, n, NDIRECT + j, a)
  {
    if f == g {
      ExtendsSelf(f, n);
    }
    if g == h {
      ExtendsSelf(g, n);
    }
    ExtendsTwice(f, g, h, n);
    assert SlotOf(n, NDIRECT + j) == Entry(n, j);
    forall s | f.IsSlot(s) && s != Entry(n, j) && s != Direct(n, NDIRECT) ensures h.Ptr(s) == f.Ptr(s) {
      assert g.IsSlot(s) && g.Ptr(s) == f.Ptr(s);
    }
  }

  lemma AllocDirectFills(f: Files, owner: map<nat, Slot>, n: nat, i: nat, b: Word)
    requires Good(f, owner) && f.IsInode(n) && n in f.mem && i <= NDIRECT && f.mem[n].addrs[i] == 0
    requires b in f.disk.data && b != 0 && b !in f.disk.used
    ensures Filled(f, AttachDirect(Grab(f, b), n, i, b), Direct(n, i), b).holds
  {
    GrabExtends(f, owner, n, b);
    AttachDirectFills(Grab(f, b), owner, n, i, b);
    FilledAfter(f, Grab(f, b), AttachDirect(Grab(f, b), n, i, b), Direct(n, i), b);
  }

  lemma AllocEntryFills(f: Files, owner: map<nat, Slot>, n: nat, j: nat, b: Word)
    requires Good(f, owner) && f.IsInode(n) && n in f.mem && j < NINDIRECT
    requires f.mem[n].addrs[NDIRECT] != 0 && f.Ptr(Entry(n, j)) == 0
    requires b in f.disk.data && b != 0 && b !in f.disk.used
    ensures f.mem[n].addrs[NDIRECT] in Grab(f, b).disk.data
    ensures Filled(f, AttachEntry(Grab(f, b), n, j, b), Entry(n, j), b).holds
  {
    var e := Grab(f, b);
    GrabExtends(f, owner, n, b);
    assert e.Ptr(Entry(n, j)) == 0;
    AttachEntryFills(e, owner, n, j, b);
    FilledAfter(f, e, AttachEntry(e, n, j, b), Entry(n, j), b);
  }

  // ----- iupdate, and changes to a cached inode other than to its block numbers -----

  ghost function Sync(f: Files, n: nat): (g: Files)
    requires f.IsInode(n)
  {
    Files(Fs(f.disk.used, f.disk.dinode[n := f.Cur(n)], f.disk.data), f.mem)
  }

  lemma SyncKeeps(f: Files, owner: map<nat, Slot>, n: nat)
    requires Good(f, owner) && BackedBut(f, {n}) && Tidy(f) && n in f.mem
    ensures f.IsInode(n) && Good(Sync(f, n), owner) && Backed(Sync(f, n)) && Tidy(Sync(f, n))
    ensures SamePtrs(f, Sync(f, n)) && SameBytes(f, Sync(f, n)) && Synced(Sync(f, n), n)
  {
    SameInodes(f, Sync(f, n), owner);
  }

  ghost function Retag(f: Files, n: nat, ip: Inode): (g: Files) {
    Files(f.disk, f.mem[n := ip])
  }

  lemma RetagKeeps(f: Files, owner: map<nat, Slot>, n: nat, ip: Inode)
    requires Good(f, owner) && Backed(f) && Tidy(f) && n in f.mem && ip.addrs == f.mem[n].addrs && ip.size <= MAXBYTES && ip.typ != 0
    ensures Good(Retag(f, n, ip), owner) && Backed(Retag(f, n, ip)) && Tidy(Retag(f, n, ip))
    ensures SamePtrs(f, Retag(f, n, ip)) && SameBytes(f, Retag(f, n, ip))
  {
    SameInodes(f, Retag(f, n, ip), owner);
  }

  /** Slots and bytes depend on the inodes' block numbers and on the data blocks only. */
  lemma SameInodes(f: Files, g: Files, owner: map<nat, Slot>)
    requires Good(f, owner) && |f.disk.dinode| == |g.disk.dinode| && f.disk.data == g.disk.data && f.disk.used == g.disk.used
    requires forall m: nat :: f.IsInode(m) ==> g.Cur(m).addrs == f.Cur(m).addrs
    ensures Good(g, owner) && SamePtrs(f, g) && SameBytes(f, g)
  {
    forall s | f.IsSlot(s) ensures g.Ptr(s) == f.Ptr(s) {
      assert f.IsInode(s.inum);
    }
    forall m: nat, o: nat | f.IsInode(m) && o < MAXBYTES ensures g.FileByte(m, o) == f.FileByte(m, o) {
      assert f.IsSlot(SlotOf(m, o / BSIZE));
    }
  }

  // ----- itrunc: freeing the blocks of one inode -----

  /** g is f after the blocks in own but not in own' were freed and taken out of the slots of inode n. */
  ghost predicate Shrinks(f: Files, g: Files, own: map<nat, Slot>, own': map<nat, Slot>, n: nat) {
    && f.disk.dinode == g.disk.dinode && f.disk.data == g.disk.data
    && f.mem.Keys == g.mem.Keys && n in f.mem && f.IsInode(n)
    && (forall m :: m in f.mem && m != n ==> g.mem[m] == f.mem[m])
    && g.mem[n] == WithAddrs(f.mem[n], g.mem[n].addrs)
    && own'.Keys <= own.Keys && (forall b :: b in own' ==> own'[b] == own[b])
    && (forall b :: b in own && b !in own' ==> own[b].inum == n)
    && g.disk.used == f.disk.used - (own.Keys - own'.Keys)
  }

  lemma ShrinksSelf(f: Files, own: map<nat, Slot>, n: nat)
    requires n in f.mem && f.IsInode(n)
    ensures Shrinks(f, f, own, own, n)
  {
    assert f.mem[n] == WithAddrs(f.mem[n], f.mem[n].addrs);
  }

  lemma ShrinksTwice(f: Files, g: Files, h: Files, own: map<nat, Slot>, own': map<nat, Slot>, own'': map<nat, Slot>, n: nat)
    requires Shrinks(f, g, own, own', n) && Shrinks(g, h, own', own'', n)
    ensures Shrinks(f, h, own, own'', n)
  {
    assert h.disk.used == f.disk.used - (own.Keys - own''.Keys);
  }

  /** Dropping the blocks of D from the slots that held them and from the owner map. */
  lemma DropKeeps(f: Files, g: Files, owner: map<nat, Slot>, D: set<nat>)
    requires Good(f, owner) && D <= owner.Keys
    requires |g.disk.dinode| == |f.disk.dinode| && g.disk.data == f.disk.data && g.disk.used == f.disk.used - D
    requires forall s :: f.IsSlot(s) ==> g.Ptr(s) == if f.Ptr(s) in D then 0 else f.Ptr(s)
    ensures Good(g, owner - D)
  {
  }

  /** The inode is all that changed, and its lost blocks are freed. */
  ghost function Drop(f: Files, n: nat, addrs: Addrs, D: set<nat>): (g: Files)
    requires n in f.mem
  {
    Files(Fs(f.disk.used - D, f.disk.dinode, f.disk.data), f.mem[n := WithAddrs(f.mem[n], addrs)])
  }

  lemma DropBacked(f: Files, n: nat, addrs: Addrs, D: set<nat>)
    requires n in f.mem && BackedBut(f, {n})
    ensures BackedBut(Drop(f, n, addrs, D), {n})
  {
    var g := Drop(f, n, addrs, D);
    forall m | m in g.mem && m != n
      ensures forall i :: 0 <= i <= NDIRECT ==> g.disk.dinode[m].addrs[i] == 0 || g.disk.dinode[m].addrs[i] == g.mem[m].addrs[i]
    {
      assert m in f.mem && g.mem[m] == f.mem[m];
    }
  }

  lemma DropShrinks(f: Files, owner: map<nat, Slot>, n: nat, addrs: Addrs, D: set<nat>)
    requires n in f.mem && f.IsInode(n) && D <= owner.Keys && forall b :: b in D ==> owner[b].inum == n
    ensures Shrinks(f, Drop(f, n, addrs, D), owner, owner - D, n)
  {
    assert (owner - D).Keys == owner.Keys - D;
    assert owner.Keys - (owner - D).Keys == D;
  }

  /** Freeing a direct block and clearing its slot. */
  lemma DetachDirectKeeps(f: Files, owner: map<nat, Slot>, n: nat, i: nat, b: nat)
    requires Good(f, owner) && BackedBut(f, {n}) && n in f.mem && i < NDIRECT && f.mem[n].addrs[i] == b && b != 0
    ensures b in owner && owner[b] == Direct(n, i)
    ensures Good(Drop(f, n, f.mem[n].addrs[i := 0], {b}), owner - {b}) && BackedBut(Drop(f, n, f.mem[n].addrs[i := 0], {b}), {n})
  {
    var g := Drop(f, n, f.mem[n].addrs[i := 0], {b});
    assert f.Ptr(Direct(n, i)) == b;
    forall s | f.IsSlot(s) ensures g.Ptr(s) == if f.Ptr(s) in {b} then 0 else f.Ptr(s) {
      assert f.Ptr(s) == b ==> owner[b] == s;
    }
    DropKeeps(f, g, owner, {b});
    DropBacked(f, n, f.mem[n].addrs[i := 0], {b});
  }

  /** The nonzero entries among the first k of a table. */
  ghost function Entries(b: Block, k: nat): (s: set<nat>)
    requires k <= NINDIRECT
  {
    if k == 0 then {} else Entries(b, k - 1) + if WordAt(b, k - 1) == 0 then {} else {WordAt(b, k - 1) as nat}
  }

  lemma {:induction false} EntryIn(b: Block, k: nat, j: nat)
    requires j < k <= NINDIRECT && WordAt(b, j) != 0
    ensures WordAt(b, j) in Entries(b, k)
  {
    if j < k - 1 {
      EntryIn(b, k - 1, j);
    }
  }

  lemma {:induction false} EntryFrom(b: Block, k: nat, x: nat) returns (j: nat)
    requires k <= NINDIRECT && x in Entries(b, k)
    ensures j < k && WordAt(b, j) == x != 0
  {
    if x in Entries(b, k - 1) {
      j := EntryFrom(b, k - 1, x);
    } else {
      j := k - 1;
    }
  }

  lemma EntryDiffers(f: Files, owner: map<nat, Slot>, n: nat, T: Block, k: nat, j: nat)
    requires Good(f, owner) && f.IsInode(n) && j < k < NINDIRECT
    requires f.Cur(n).addrs[NDIRECT] in f.disk.data && T == f.disk.data[f.Cur(n).addrs[NDIRECT]] && WordAt(T, k) != 0
    ensures WordAt(T, j) != WordAt(T, k)
  {
    assert f.Ptr(Entry(n, k)) == WordAt(T, k);
    assert f.Ptr(Entry(n, j)) == WordAt(T, j);
  }

  /** An entry is owned, and no other entry of the table is the same block. */
  lemma EntryOwned(f: Files, owner: map<nat, Slot>, n: nat, T: Block, k: nat)
    requires Good(f, owner) && f.IsInode(n) && k < NINDIRECT
    requires f.Cur(n).addrs[NDIRECT] in f.disk.data && T == f.disk.data[f.Cur(n).addrs[NDIRECT]] && WordAt(T, k) != 0
    ensures WordAt(T, k) in owner && owner[WordAt(T, k)] == Entry(n, k) && WordAt(T, k) !in Entries(T, k)
  {
    assert f.Ptr(Entry(n, k)) == WordAt(T, k);
    if WordAt(T, k) in Entries(T, k) {
      var j := EntryFrom(T, k, WordAt(T, k));
      EntryDiffers(f, owner, n, T, k, j);
    }
  }

  /** The table and its entries belong to the inode. */
  lemma TableBlocks(f: Files, owner: map<nat, Slot>, n: nat, b: nat)
    requires Good(f, owner) && n in f.mem && f.IsInode(n) && f.mem[n].addrs[NDIRECT] != 0
    ensures f.mem[n].addrs[NDIRECT] in f.disk.data
    ensures var t := f.mem[n].addrs[NDIRECT];
      && t in owner && owner[t] == Direct(n, NDIRECT)
      && (b in Entries(f.disk.data[t], NINDIRECT) ==> b in owner && owner[b].Entry? && owner[b].inum == n)
  {
    TableOwned(f, owner, n);
    var T := f.disk.data[f.mem[n].addrs[NDIRECT]];
    if b in Entries(T, NINDIRECT) {
      var j := EntryFrom(T, NINDIRECT, b);
      assert f.Ptr(Entry(n, j)) == b;
    }
  }

  /** Freeing an indirect table and everything it lists. */
  lemma DetachTableKeeps(f: Files, owner: map<nat, Slot>, n: nat, t: nat, D: set<nat>)
    requires Good(f, owner) && BackedBut(f, {n}) && n in f.mem && f.mem[n].addrs[NDIRECT] == t && t != 0
    requires t in f.disk.data && D == Entries(f.disk.data[t], NINDIRECT) + {t}
    ensures t !in Entries(f.disk.data[t], NINDIRECT)
    ensures D <= owner.Keys && (forall b :: b in D ==> owner[b].inum == n)
    ensures Good(Drop(f, n, f.mem[n].addrs[NDIRECT := 0], D), owner - D)
    ensures BackedBut(Drop(f, n, f.mem[n].addrs[NDIRECT := 0], D), {n})
  {
    var g := Drop(f, n, f.mem[n].addrs[NDIRECT := 0], D);
    TableBlocks(f, owner, n, t);
    forall b | b in D ensures b in owner && owner[b].inum == n {
      TableBlocks(f, owner, n, b);
    }
    forall s | f.IsSlot(s) ensures g.Ptr(s) == if f.Ptr(s) in D then 0 else f.Ptr(s) {
      DroppedSlot(f, g, owner, n, s);
    }
    DropKeeps(f, g, owner, D);
    DropBacked(f, n, f.mem[n].addrs[NDIRECT := 0], D);
  }

  lemma DroppedSlot(f: Files, g: Files, owner: map<nat, Slot>, n: nat, s: Slot)
    requires Good(f, owner) && n in f.mem && f.IsInode(n) && f.IsSlot(s) && f.mem[n].addrs[NDIRECT] != 0
    requires f.mem[n].addrs[NDIRECT] in f.disk.data
    requires var t := f.mem[n].addrs[NDIRECT] as nat;
      g == Drop(f, n, f.mem[n].addrs[NDIRECT := 0], Entries(f.disk.data[t], NINDIRECT) + {t})
    ensures var t := f.mem[n].addrs[NDIRECT] as nat;
      g.Ptr(s) == if f.Ptr(s) in Entries(f.disk.data[t], NINDIRECT) + {t} then 0 else f.Ptr(s)
  {
    var t := f.mem[n].addrs[NDIRECT] as nat;
    var T := f.disk.data[t];
    ZeroWords();
    assert f.Ptr(Direct(n, NDIRECT)) == t;
    assert f.Ptr(s) == t ==> s == Direct(n, NDIRECT);
    if f.Ptr(s) in Entries(T, NINDIRECT) {
      var j := EntryFrom(T, NINDIRECT, f.Ptr(s));
      assert f.Ptr(Entry(n, j)) == f.Ptr(s);
      assert s == Entry(n, j);
    } else if s.Entry? && s.inum == n && f.Ptr(s) != 0 {
      EntryIn(T, NINDIRECT, s.j);
    }
  }

  // ----- loading, dropping, allocating and freeing inodes -----

  ghost function Load(f: Files, n: nat): (g: Files)
    requires f.IsInode(n)
  {
    Files(f.disk, f.mem[n := f.disk.dinode[n]])
  }

  lemma LoadKeeps(f: Files, owner: map<nat, Slot>, n: nat)
    requires Good(f, owner) && Backed(f) && Tidy(f) && f.IsInode(n) && n !in f.mem && f.disk.dinode[n].typ != 0
    ensures Good(Load(f, n), owner) && Backed(Load(f, n)) && Tidy(Load(f, n)) && SamePtrs(f, Load(f, n)) && SameBytes(f, Load(f, n))
  {
    SameInodes(f, Load(f, n), owner);
  }

  ghost function Forget(f: Files, n: nat): (g: Files) {
    Files(f.disk, f.mem - {n})
  }

  /** Dropping the cached copy of an inode whose disk copy is up to date changes nothing. */
  lemma ForgetSynced(f: Files, owner: map<nat, Slot>, n: nat)
    requires Good(f, owner) && Backed(f) && Tidy(f) && f.IsInode(n) && Synced(f, n)
    ensures Good(Forget(f, n), owner) && Backed(Forget(f, n)) && Tidy(Forget(f, n))
    ensures SamePtrs(f, Forget(f, n)) && SameBytes(f, Forget(f, n))
  {
    SameInodes(f, Forget(f, n), owner);
  }

  /** Blocks that only the cached copy of inode n pointed at. */
  ghost function Lost(f: Files, owner: map<nat, Slot>, n: nat): (D: set<nat>)
    requires Good(f, owner)
    ensures forall b :: b in D <==> b in owner && Forget(f, n).Ptr(owner[b]) != b
  {
    set b | b in owner && Forget(f, n).Ptr(owner[b]) != b
  }

  /** Otherwise its slots fall back to what is on disk, and the blocks only it knew are lost. */
  lemma ForgetKeeps(f: Files, owner: map<nat, Slot>, n: nat)
    requires Good(f, owner) && Backed(f) && Tidy(f) && n in f.mem
    ensures Good(Forget(f, n), owner - Lost(f, owner, n)) && Backed(Forget(f, n)) && Tidy(Forget(f, n))
    ensures forall b :: b in Lost(f, owner, n) ==> owner[b].inum == n
  {
    var g := Forget(f, n);
    forall s | f.IsSlot(s) ensures g.Ptr(s) == f.Ptr(s) || (s.inum == n && g.Ptr(s) == 0) {
      ForgetSlot(f, n, s);
    }
    forall b | b in owner ensures g.Ptr(owner[b]) == b || (owner[b].inum == n && g.Ptr(owner[b]) == 0) {
      assert f.Ptr(owner[b]) == b;
    }
  }

  lemma ForgetSlot(f: Files, n: nat, s: Slot)
    requires 0 in f.disk.data && f.disk.data[0] == ZeroBlock && Backed(f) && n in f.mem && f.IsSlot(s)
    ensures Forget(f, n).Ptr(s) == f.Ptr(s) || (s.inum == n && Forget(f, n).Ptr(s) == 0)
  {
    ZeroWords();
    if s.inum == n {
      var i := if s.Direct? then s.i else NDIRECT;
      assert f.disk.dinode[n].addrs[i] == 0 || f.disk.dinode[n].addrs[i] == f.mem[n].addrs[i];
    }
  }

  /** An inode that owns nothing gets a new disk copy and no cached one. */
  ghost function Reset(f: Files, n: nat, ip: Inode): (g: Files)
    requires f.IsInode(n)
  {
    Files(Fs(f.disk.used, f.disk.dinode[n := ip], f.disk.data), f.mem - {n})
  }

  lemma ResetKeeps(f: Files, owner: map<nat, Slot>, n: nat, ip: Inode)
    requires Good(f, owner) && Backed(f) && Tidy(f) && f.IsInode(n) && f.Cur(n).addrs == NoAddrs
    requires ip.addrs == NoAddrs && ip.size <= MAXBYTES
    ensures Good(Reset(f, n, ip), owner) && Backed(Reset(f, n, ip)) && Tidy(Reset(f, n, ip))
    ensures SamePtrs(f, Reset(f, n, ip)) && SameBytes(f, Reset(f, n, ip))
  {
    SameInodes(f, Reset(f, n, ip), owner);
  }
}
