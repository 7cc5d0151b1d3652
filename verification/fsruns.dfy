/** Runs of fs.c in which the disk copy of an inode falls behind or a write is cut short: on any volume, and
    on an image that mkfs makes. */
module FsRuns {
  import opened Basics
  import opened Words
  import opened Geometry
  import opened Layout
  import opened Ownership
  import opened FsSteps
  import opened FsLedger
  import opened FileSystem
  import opened MkfsSteps
  import opened MkfsLedger
  import Mkfs

  /** What writei has written, readi returns. */
  method WriteThenRead(v: Volume, n: nat, src: seq<Byte>, off: Word) returns (r: Io, dst: seq<Byte>, ghost t: nat)
    requires v.Valid() && n in v.mem && v.mem[n].typ != T_DEV && |src| < WORDMAX
    modifies v
    ensures v.Valid() && n in v.mem && old(v.f).IsInode(n)
    ensures r == if off > old(v.mem[n]).size || off + |src| > MAXBYTES then Refused else Moved(|src|)
    ensures r.Moved? ==> t <= |src| && (t == |src| <==> Enough(old(v.f), n, off, |src|).holds) && src[..t] <= dst && (t == |src| ==> dst == src)
  {
    dst := [];
    r, t := v.Writei(n, src, off);
    if r.Moved? {
      ghost var g := v.f;
      WroteMeans(old(v.f), g, n, off, src, t);
      var again;
      again, dst := v.Readi(n, off, |src|);
      ReadsBack(old(v.f), g, n, off, src, t, dst);
    }
  }

  lemma WroteMeans(f: Files, g: Files, n: nat, off: nat, src: seq<Byte>, t: nat)
    requires WrittenSync(f, g, n, off, src, t).holds
    ensures t <= |src| && n in f.mem && n in g.mem && g.IsInode(n) && g.mem[n].typ == f.mem[n].typ && g.mem[n].size >= off + t
  {
  }

  lemma ReadsBack(f: Files, g: Files, n: nat, off: nat, src: seq<Byte>, t: nat, dst: seq<Byte>)
    requires WrittenSync(f, g, n, off, src, t).holds && Reads(g, n, off, dst) && t <= |dst| && t <= |src|
    ensures src[..t] <= dst
  {
    forall i | 0 <= i < t ensures dst[i] == src[i] {
      assert g.FileByte(n, off + i) == src[i];
    }
    assert dst[..t] == src[..t];
  }

  /** A read and then the last iput of a file that still has links: afterwards a block is in use that nobody
      points at exactly if the read gave the inode a block number. */
  method ReadThenDrop(v: Volume, n: nat, off: Word, cnt: Word)
    requires v.Valid() && v.Counted() && n in v.mem && n in v.ref && v.ref[n] == 1 && v.mem[n].nlink != 0
    requires Settled(v.f, v.owner).holds
    modifies v
    ensures v.Valid() && v.Counted() && v.ref == old(v.ref) - {n}
    ensures NoLeak(v.f, v.owner).holds <==>
      !(old(v.mem[n]).typ != T_DEV && off <= old(v.mem[n]).size && off + cnt < WORDMAX
        && Disturbs(old(v.f), n, off, Min(cnt, old(v.mem[n]).size - off)).holds)
  {
    ghost var f0, own0 := v.f, v.owner;
    var r, dst := v.Readi(n, off, cnt);
    ReadSettles(f0, v.f, own0, v.owner, n);
    v.Iput(n);
  }

  /** After a read, all is settled exactly if the inode that was read is. */
  lemma ReadSettles(f: Files, g: Files, owner: map<nat, Slot>, own: map<nat, Slot>, n: nat)
    requires Settled(f, owner).holds && Extends(f, g, n) && (NoLeak(f, owner).holds ==> NoLeak(g, own).holds)
    ensures n in g.mem && NoLeak(g, own).holds && (Settled(g, own).holds <==> Recorded(g, n))
  {
    SettledMeans(f, owner);
    SettledOne(f, g, owner, own, n);
  }

  // ----- an image with 14 data blocks and an empty file -----

  /** One group of 8 inodes and 14 data blocks, behind a log as large as mkfs makes it. */
  const SMALL := Super(48, 8, 30, 2, 16, 8, 1)

  const EMPTY := Source([97], [])

  lemma SmallFits()
    ensures Storable(SMALL) && SMALL.Meta() < SMALL.bpg && DataCount(SMALL) == 14
    ensures FitsFirst(SMALL, [EMPTY], 1) && Rounded(3 * (2 + DIRSIZ)) <= MAXBYTES && Required([EMPTY], 1) == 1
  {
    assert DataBlocks([EMPTY], 0) == 0;
  }

  /** Inode 2 is open and is a regular file of size bytes without holes and without a table, and free blocks are left. */
  ghost predicate Opened(v: Volume, size: nat, free: nat)
    reads v
  {
    && v.Valid() && !v.open && v.Counted() && Settled(v.f, v.owner).holds && v.mem.Keys == {2} && v.ref == map[2 := 1] && v.f.IsInode(2)
    && v.mem[2].typ == T_FILE && v.mem[2].nlink == 1 && v.mem[2].size == size && v.mem[2].addrs[NDIRECT] == 0
    && HoleFree(v.f, 2) && |FreeSet(v.f)| == free
  }

  lemma FileLoaded(f: Files, g: Files)
    requires Holding(f, 2, []).holds && TableFits(f, 2) && g == Load(f, 2)
    ensures HoleFree(g, 2) && g.mem[2].addrs[NDIRECT] == 0 && |FreeSet(g)| == |FreeSet(f)|
    ensures forall bn: nat :: bn < MAXFILE ==> g.Addr(2, bn) == 0
  {
    SameFree(f, g);
    forall bn: nat | bn < MAXFILE ensures g.Addr(2, bn) == 0 {
      assert f.Addr(2, bn) == 0;
    }
  }

  /** mkfs with one empty file. */
  method Image() returns (v: Volume)
    ensures fresh(v) && v.Valid() && !v.open && v.sb == SMALL && v.mem == map[] && v.ref == map[] && Settled(v.f, v.owner).holds
    ensures Held(v.f, 2, []) && |FreeSet(v.f)| == 13
  {
    SmallFits();
    var ok, w := Mkfs.Format(SMALL, [EMPTY]);
    v := w;
    assert Held(v.f, 2, [EMPTY][0].data);
  }

  /** The file is opened. */
  method Small() returns (v: Volume)
    ensures fresh(v) && Opened(v, 0, 13) && forall bn: nat :: bn < MAXFILE ==> v.f.Addr(2, bn) == 0
  {
    v := Image();
    ghost var f := v.f;
    var ok := v.Iget(2);
    ok := v.Ilock(2);
    FileLoaded(f, v.f);
  }

  lemma TwelveMore(f: Files)
    requires f.IsInode(2) && |FreeSet(f)| == 13 && forall bn: nat :: bn < MAXFILE ==> f.Addr(2, bn) == 0
    ensures Need(f, 2, 0, NDIRECT) == 12 && EndBlock(0, NDIRECT * BSIZE) == NDIRECT && Enough(f, 2, 0, NDIRECT * BSIZE).holds
  {
    HolesFrom(f, 2, 0, NDIRECT, 0);
  }

  lemma DirectsFull(f: Files, g: Files, src: seq<Byte>)
    requires Ledger(f, g, 2, 0, NDIRECT).holds && Written(f, g, 2, 0, src, |src|).holds && |src| == NDIRECT * BSIZE && 2 in f.mem
    requires f.mem[2].size == 0 && f.mem[2].addrs[NDIRECT] == 0 && |FreeSet(f)| == 13 && Need(f, 2, 0, NDIRECT) == 12 && f.IsInode(2) && HoleFree(f, 2)
    ensures 2 in g.mem && g.mem.Keys == f.mem.Keys && g.IsInode(2) && g.mem[2].addrs[NDIRECT] == 0 && |FreeSet(g)| == 1 && HoleFree(g, 2)
    ensures g.mem[2].size == NDIRECT * BSIZE && g.mem[2].typ == f.mem[2].typ && g.mem[2].nlink == f.mem[2].nlink
  {
  }

  /** filewrite fills the direct blocks; one block is left. */
  method Twelve() returns (v: Volume)
    ensures fresh(v) && Opened(v, NDIRECT * BSIZE, 1)
  {
    v := Small();
    ghost var f := v.f;
    TwelveMore(f);
    var src := seq(NDIRECT * BSIZE, _ => 1);
    var r;
    ghost var tt;
    r, tt := v.Filewrite(2, src, 0);
    DirectsFull(f, v.f, src);
  }

  lemma OneShort(f: Files)
    requires f.IsInode(2) && 2 in f.mem && f.mem[2].addrs[NDIRECT] == 0 && |FreeSet(f)| == 1 && f.Addr(2, NDIRECT) == 0
    ensures EndBlock(NDIRECT * BSIZE, 1) == NDIRECT + 1 && !Enough(f, 2, NDIRECT * BSIZE, 1).holds
  {
    assert Holes(f, 2, NDIRECT, NDIRECT) == 0;
  }

  lemma NotRecorded(f: Files, owner: map<nat, Slot>)
    requires !Settled(f, owner).holds && NoLeak(f, owner).holds && f.mem.Keys == {2}
    ensures !Recorded(f, 2)
  {
    SettledMeans(f, owner);
  }

  /** One byte more: the table gets the last block, and there is none for the byte. writei answers 1 all the same,
      and does not write the inode. */
  method ShortRun() returns (v: Volume, r: Io, ghost t: nat)
    ensures fresh(v) && v.Valid() && v.Counted() && r == Moved(1) && t == 0
    ensures v.mem.Keys == {2} && v.ref == map[2 := 1] && v.mem[2].nlink == 1 && NoLeak(v.f, v.owner).holds && !Recorded(v.f, 2)
  {
    v := Twelve();
    ghost var f, own := v.f, v.owner;
    SettledMeans(f, own);
    NoTableNoBlock(v.sb, f, own, 2);
    OneShort(f);
    assert CutAtTable(f, 2, NDIRECT * BSIZE, 1);
    r, t := v.WriteChunk(2, [1], NDIRECT * BSIZE);
    PaidWhole(f, v.f, 2, NDIRECT * BSIZE, 1, t);
    NotRecorded(v.f, v.owner);
  }

  /** Closing the file then loses the table's block for good. */
  method LeakRun() returns (v: Volume)
    ensures fresh(v) && v.Valid() && v.ref == map[] && !NoLeak(v.f, v.owner).holds
  {
    var r;
    ghost var t;
    v, r, t := ShortRun();
    v.Iput(2);
  }
}
