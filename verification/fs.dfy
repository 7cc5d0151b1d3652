/** Blocks and inodes of fs.c: the block-group allocator, bmap, itrunc, readi and writei on a disk of
    bytes. Reading and log_writing a block through the buffer cache is reading and writing the disk. */
module FileSystem {
  import opened Basics
  import opened Words
  import opened Geometry
  import opened Layout
  import opened Ownership
  import opened FsSteps
  import opened FsLedger

  /** The case in which iput frees the inode. */
  predicate Dead(mem: map<nat, Inode>, ref: map<nat, nat>, n: nat) {
    n in mem && mem[n].nlink == 0 && n in ref && ref[n] == 1
  }

  class Volume {
    const sb: Super
    var disk: seq<Block>
    var mem: map<nat, Inode>         // in-memory inodes with valid set
    var ref: map<nat, nat>           // reference counts of the cached inodes

    ghost var f: Files               // what disk and mem mean
    ghost var owner: map<nat, Slot>  // which slot points at each owned block
    ghost var logged: set<nat>       // blocks passed to log_write since begin_op
    ghost var open: bool             // between begin_op and end_op
    ghost var done: seq<set<nat>>    // what the transactions that have ended had logged

    /** A volume whose disk means f, with no inode cached. */
    constructor (sb: Super, disk: seq<Block>, ghost f: Files, ghost owner: map<nat, Slot>)
      requires Shows(sb, disk, map[], f) && f.mem == map[] && Ok(sb, f, owner)
      ensures Valid() && this.sb == sb && this.disk == disk && this.f == f && this.owner == owner && mem == map[] && ref == map[] && !open
    {
      this.sb, this.disk, this.f, this.owner := sb, disk, f, owner;
      mem, ref, logged, open, done := map[], map[], {}, false, [];
    }

    ghost predicate Valid()
      reads this
    {
      Shows(sb, disk, mem, f) && f.mem == mem && Ok(sb, f, owner)
    }

    /** The first clear bit of group g's bitmap, or bpg if there is none. */
    method FirstFree(g: nat) returns (bi: nat)
      requires Valid() && g < sb.ngroups
      ensures bi <= sb.bpg
      ensures bi < sb.bpg ==> sb.GroupStart(g) + bi !in f.disk.used
      ensures Full(f, sb.GroupStart(g), sb.GroupStart(g) + bi)
    {
      BitmapOnDisk(sb, disk, mem, f, g);
      var bp := disk[sb.BitmapOf(g)];
      bi := 0;
      while bi < BPB && bi < sb.bpg
        invariant bi <= sb.bpg
        invariant Full(f, sb.GroupStart(g), sb.GroupStart(g) + bi)
      {
        BitState(sb, disk, mem, f, g, bi);
        if !Bit(bp, bi) {
          return;
        }
        bi := bi + 1;
      }
    }

    /** The lowest free block, marked and zeroed, or 0 when every block is in use. */
    method Balloc() returns (b: Word)
      requires Valid()
      modifies `disk, `f, `logged
      ensures Valid()
      ensures b == 0 ==> f == old(f) && disk == old(disk) && logged == old(logged) && Exhausted(sb, f)
      ensures b != 0 ==> Granted(old(f), b) && Took(old(logged), b)
      ensures Confined(old(disk), disk, old(logged), logged).holds
    {
      ConfinedSelf(disk, logged);
      var g := 0;
      while g < sb.ngroups
        invariant g <= sb.ngroups && Full(f, sb.Start(), sb.GroupStart(g))
        invariant Valid() && f == old(f) && disk == old(disk) && logged == old(logged)
      {
        var bi := FirstFree(g);
        if bi < sb.bpg {
          b := Take(g, bi);
          return;
        }
        NextGroup(sb, g);
        g := g + 1;
      }
      b := 0;
    }

    /** b was the lowest free block of old and has been taken. */
    ghost predicate Granted(old_: Files, b: nat)
      reads this
    {
      && sb.Start() <= b < sb.GroupStart(sb.ngroups) && 0 < sb.bpg
      && Free(old_, b) && Full(old_, sb.Start(), b) && f == Grab(old_, b)
    }

    /** Marks bit bi of group g, then zeroes the block it stands for. */
    method Take(g: nat, bi: nat) returns (b: Word)
      requires Valid() && g < sb.ngroups && bi < sb.bpg && sb.GroupStart(g) + bi !in f.disk.used
      requires Full(f, sb.Start(), sb.GroupStart(g) + bi)
      modifies `disk, `f, `logged
      ensures Valid() && b != 0 && Granted(old(f), b) && Took(old(logged), b)
      ensures Confined(old(disk), disk, old(logged), logged).holds
    {
      FreeIsData(sb, f, owner, g, bi);
      TakeShows(sb, disk, mem, f, g, bi);
      b := sb.GroupStart(g) + bi;
      TakeOk(sb, f, owner, b);
      MarkAndZero(sb.BitmapOf(g), bi, b);
    }

    method MarkAndZero(m: nat, bi: nat, b: Word)
      requires m < |disk| && b < |disk| && bi < BPB && f.mem == mem && Ok(sb, Grab(f, b), owner)
      requires Shows(sb, disk[m := WithBitAt(disk[m], bi, true)][b := ZeroBlock], mem, Grab(f, b))
      modifies `disk, `f, `logged
      ensures Valid() && f == Grab(old(f), b) && logged == old(logged) + {m, b}
      ensures Confined(old(disk), disk, old(logged), logged).holds
    {
      ghost var d, log := disk, logged;
      ConfinedOne(disk, logged, m, WithBitAt(disk[m], bi, true));
      disk := disk[m := WithBitAt(disk[m], bi, true)];
      logged := logged + {m};
      ConfinedOne(disk, logged, b, ZeroBlock);
      ConfinedTwice(d, disk, disk[b := ZeroBlock], log, logged, logged + {b});
      disk := disk[b := ZeroBlock];
      logged := logged + {b};
      f := Grab(f, b);
    }

    // ----- bmap -----

    ghost predicate Unchanged(f0: Files, owner0: map<nat, Slot>, logged0: set<nat>)
      reads this
    {
      f == f0 && owner == owner0 && logged == logged0
    }

    /** addrs[i] of inode n, allocating the block if it is missing (lines 459-460 and 467-468). */
    method DirectAddr(n: nat, i: nat) returns (a: Word)
      requires Valid() && n in mem && i <= NDIRECT
      modifies `disk, `mem, `f, `owner, `logged
      ensures Valid() && n in mem && a == mem[n].addrs[i]
      ensures Stage(sb, old(f), f, old(owner), owner, old(logged), logged, Direct(n, i), a, {}).holds
      ensures old(mem[n].addrs[i]) != 0 || a == 0 ==> Unchanged(old(f), old(owner), old(logged)) && a == old(mem[n].addrs[i])
      ensures a == 0 ==> Exhausted(sb, f)
      ensures Confined(old(disk), disk, old(logged), logged).holds
    {
      ConfinedSelf(disk, logged);
      a := mem[n].addrs[i];
      if a == 0 {
        a := FillDirect(n, i);
      }
    }

    method FillDirect(n: nat, i: nat) returns (a: Word)
      requires Valid() && n in mem && i <= NDIRECT && mem[n].addrs[i] == 0
      modifies `disk, `mem, `f, `owner, `logged
      ensures Valid() && n in mem && a == mem[n].addrs[i]
      ensures Stage(sb, old(f), f, old(owner), owner, old(logged), logged, Direct(n, i), a, {}).holds
      ensures a == 0 ==> Unchanged(old(f), old(owner), old(logged)) && Exhausted(sb, f)
      ensures Confined(old(disk), disk, old(logged), logged).holds
    {
      ghost var f0 := f;
      a := Balloc();
      if a != 0 {
        HangDirect(sb, f0, owner, n, i, a);
        ShowsMem(sb, disk, mem, f, mem[n := SetAddr(mem[n], i, a)]);
        f := AttachDirect(f, n, i, a);
        owner := owner[a := Direct(n, i)];
      } else {
        UpdateSame(mem[n].addrs, i);
        assert mem[n := SetAddr(mem[n], i, 0)] == mem;
      }
      mem := mem[n := SetAddr(mem[n], i, a)];
    }

    /** log_write was called on a's bitmap and on a itself. */
    ghost predicate Took(logged0: set<nat>, a: nat)
      reads this
    {
      sb.Start() <= a && 0 < sb.bpg && logged == logged0 + {sb.BitmapBlock(a), a}
    }

    /** Entry j of inode n's indirect table, allocating the block if it is missing (lines 469-475).
        The table may be block 0, but only when there was no block left for it. */
    method EntryAddr(n: nat, j: nat) returns (a: Word)
      requires Valid() && n in mem && j < NINDIRECT && f.IsInode(n)
      requires mem[n].addrs[NDIRECT] == 0 ==> Exhausted(sb, f)
      modifies `disk, `f, `owner, `logged
      ensures Valid() && f.IsInode(n) && a == f.Ptr(Entry(n, j))
      ensures Stage(sb, old(f), f, old(owner), owner, old(logged), logged, Entry(n, j), a, {mem[n].addrs[NDIRECT]}).holds
      ensures old(f.Ptr(Entry(n, j))) != 0 ==> Unchanged(old(f), old(owner), old(logged))
      ensures a == 0 ==> f == old(f) && Exhausted(sb, f)
      ensures Confined(old(disk), disk, old(logged), logged).holds
    {
      ConfinedSelf(disk, logged);
      TableOnDisk(sb, disk, mem, f, owner, n, j);
      a := WordAt(disk[mem[n].addrs[NDIRECT]], j);
      if a == 0 {
        a := FillEntry(n, j);
      }
    }

    method FillEntry(n: nat, j: nat) returns (a: Word)
      requires Valid() && n in mem && j < NINDIRECT && f.IsInode(n) && f.Ptr(Entry(n, j)) == 0
      requires mem[n].addrs[NDIRECT] == 0 ==> Exhausted(sb, f)
      modifies `disk, `f, `owner, `logged
      ensures Valid() && f.IsInode(n) && a == f.Ptr(Entry(n, j))
      ensures Stage(sb, old(f), f, old(owner), owner, old(logged), logged, Entry(n, j), a, {mem[n].addrs[NDIRECT]}).holds
      ensures a == 0 ==> f == old(f) && Exhausted(sb, f)
      ensures Confined(old(disk), disk, old(logged), logged).holds
    {
      ghost var f0, d0, log0 := f, disk, logged;
      TableOnDisk(sb, disk, mem, f, owner, n, j);
      a := Balloc();
      ghost var d1, log1 := disk, logged;
      if a != 0 {
        assert mem[n].addrs[NDIRECT] != 0;
        HangEntry(sb, f0, owner, n, j, a);
        EntryShows(sb, disk, mem, f, n, j, a);
        f := AttachEntry(f, n, j, a);
        owner := owner[a := Entry(n, j)];
      }
      PutEntry(n, j, a);
      ConfinedTwice(d0, d1, disk, log0, log1, logged);
    }

    /** a[bn] = addr; log_write(bp). */
    method PutEntry(n: nat, j: nat, a: Word)
      requires n in mem && j < NINDIRECT && f.mem == mem && Ok(sb, f, owner) && mem[n].addrs[NDIRECT] < |disk|
      requires var t := mem[n].addrs[NDIRECT];
        if a == 0 then Shows(sb, disk, mem, f) && WordAt(disk[t], j) == 0
        else Shows(sb, disk[t := PutWord(disk[t], j, a)], mem, f)
      modifies `disk, `logged
      ensures Valid() && logged == old(logged) + {mem[n].addrs[NDIRECT]}
      ensures Confined(old(disk), disk, old(logged), logged).holds
    {
      var t := mem[n].addrs[NDIRECT];
      if a == 0 {
        RewriteSame(disk, t, j);
      }
      ConfinedOne(disk, logged, t, PutWord(disk[t], j, a));
      disk := disk[t := PutWord(disk[t], j, a)];
      logged := logged + {t};
    }

    /** The block number of block bn of inode n, allocating what is missing. maps collects the bitmap
        blocks that were logged, one for each block allocated. */
    method Bmap(n: nat, bn: nat) returns (a: Word, ghost maps: set<nat>)
      requires Valid() && n in mem && f.IsInode(n)
      modifies `disk, `mem, `f, `owner, `logged
      ensures Valid() && n in mem && f.IsInode(n) && (NoLeak(old(f), old(owner)).holds ==> NoLeak(f, owner).holds)
      ensures bn >= MAXFILE ==> a == 0 && Unchanged(old(f), old(owner), old(logged))
      ensures bn < MAXFILE ==> Mapped(old(f), f, n, bn, a) && Turn(old(f), f, n, bn, a).holds
      ensures bn < MAXFILE && old(f.Addr(n, bn)) != 0 ==> Unchanged(old(f), old(owner), old(logged))
      ensures bn < MAXFILE && a == 0 ==> Exhausted(sb, f)
      ensures logged <= old(logged) + maps + (if a == 0 then {} else {a}) + TableOf(mem[n], bn)
      ensures |maps| <= (if bn < MAXFILE && old(f.Addr(n, bn)) == 0 && a != 0 then 1 else 0)
                      + (if old(mem[n].addrs[NDIRECT]) == 0 && mem[n].addrs[NDIRECT] != 0 then 1 else 0)
      ensures Confined(old(disk), disk, old(logged), logged).holds
    {
      maps := {};
      ConfinedSelf(disk, logged);
      if bn < NDIRECT {
        ghost var f0, own0, log0 := f, owner, logged;
        a := DirectAddr(n, bn);
        MappedDirect(f0, f, n, bn, a);
        DirectStage(sb, disk, f0, f, own0, owner, log0, logged, n, bn, a);
        StageTight(sb, f0, f, own0, owner, log0, logged, Direct(n, bn), a, {});
        maps := MapsOf(sb, f0, f, a);
      } else if bn - NDIRECT < NINDIRECT {
        a, maps := IndirectAddr(n, bn - NDIRECT);
      } else {
        a := 0;
      }
    }

    method IndirectAddr(n: nat, j: nat) returns (a: Word, ghost maps: set<nat>)
      requires Valid() && n in mem && f.IsInode(n) && j < NINDIRECT
      modifies `disk, `mem, `f, `owner, `logged
      ensures Valid() && n in mem && f.IsInode(n) && (NoLeak(old(f), old(owner)).holds ==> NoLeak(f, owner).holds)
      ensures Mapped(old(f), f, n, NDIRECT + j, a) && Turn(old(f), f, n, NDIRECT + j, a).holds
      ensures old(f.Ptr(Entry(n, j))) != 0 ==> Unchanged(old(f), old(owner), old(logged))
      ensures a == 0 ==> Exhausted(sb, f)
      ensures logged <= old(logged) + maps + (if a == 0 then {} else {a}) + {mem[n].addrs[NDIRECT]}
      ensures |maps| <= (if old(f.Ptr(Entry(n, j))) == 0 && a != 0 then 1 else 0)
                      + (if old(mem[n].addrs[NDIRECT]) == 0 && mem[n].addrs[NDIRECT] != 0 then 1 else 0)
      ensures Confined(old(disk), disk, old(logged), logged).holds
    {
      ghost var f0, own0, log0, d0 := f, owner, logged, disk;
      if f.Ptr(Entry(n, j)) != 0 {
        EntryHasTable(sb, f, owner, n, j);
      }
      var t := DirectAddr(n, NDIRECT);
      ghost var f1, own1, log1, d1 := f, owner, logged, disk;
      a := EntryAddr(n, j);
      ConfinedTwice(d0, d1, disk, log0, log1, logged);
      MappedEntry(f0, f1, f, n, j, t, a);
      IndirectStage(sb, d1, disk, f0, f1, f, own0, own1, owner, log0, log1, logged, n, j, t, a);
      StageTight(sb, f0, f1, own0, own1, log0, log1, Direct(n, NDIRECT), t, {});
      StageTight(sb, f1, f, own1, owner, log1, logged, Entry(n, j), a, {t});
      maps := MapsOf(sb, f0, f1, t) + MapsOf(sb, f1, f, a);
    }

    // ----- readi -----

    /** Reads cnt bytes at off; dst is what is copied out. Holes read as zeros, and reading a hole-free file
        allocates nothing. But the inode is not written, so its disk copy falls behind exactly if the inode
        gets a block number. */
    method Readi(n: nat, off: Word, cnt: Word) returns (r: Io, dst: seq<Byte>)
      requires Valid() && n in mem
      modifies `disk, `mem, `f, `owner, `logged
      ensures Valid() && n in mem && Extends(old(f), f, n)
      ensures old(f).IsInode(n) && (HoleFree(old(f), n) ==> Unchanged(old(f), old(owner), old(logged)))
      ensures old(mem[n]).typ == T_DEV ==> r == Device(old(mem[n]).major)
      ensures old(mem[n]).typ != T_DEV ==>
        r == if off > old(mem[n]).size || off + cnt >= WORDMAX then Refused else Moved(Min(cnt, old(mem[n]).size - off))
      ensures r.Moved? ==> |dst| == r.count && Reads(old(f), n, off, dst)
      ensures NoLeak(old(f), old(owner)).holds ==> NoLeak(f, owner).holds
      ensures Settled(old(f), old(owner)).holds ==>
        (Settled(f, owner).holds <==> !(r.Moved? && Disturbs(old(f), n, off, r.count).holds))
      ensures Confined(old(disk), disk, old(logged), logged).holds
    {
      dst := [];
      SizeBound(sb, f, owner, n);
      ExtendsSelf(f, n);
      ConfinedSelf(disk, logged);
      if mem[n].typ == T_DEV {
        r := Device(mem[n].major);
      } else if off > mem[n].size || (off + cnt) % WORDMAX < off {
        r := Refused;
      } else {
        var k := if off + cnt > mem[n].size then mem[n].size - off else cnt;
        ghost var s0, ok := State(f, owner, logged), true;
        dst, ok := ReadBytes(n, off, k);
        ReadingEnds(s0, State(f, owner, logged), n, off, dst, ok);
        r := Moved(k);
      }
    }

    method ReadBytes(n: nat, off: nat, cnt: nat) returns (dst: seq<Byte>, ghost ok: bool)
      requires Valid() && n in mem && f.IsInode(n) && off + cnt <= mem[n].size <= MAXBYTES
      modifies `disk, `mem, `f, `owner, `logged
      ensures Valid() && n in mem && |dst| == cnt
      ensures Reading(State(old(f), old(owner), old(logged)), State(f, owner, logged), n, off, dst, ok).holds
      ensures Confined(old(disk), disk, old(logged), logged).holds
    {
      ghost var s0, d0 := State(f, owner, logged), disk;
      ReadingStart(s0, n, off);
      ConfinedSelf(disk, logged);
      dst, ok := [], true;
      while |dst| < cnt
        invariant Valid() && n in mem && mem[n].size == old(mem[n]).size && f.IsInode(n)
        invariant |dst| <= cnt && (|dst| == 0 || |dst| == cnt || (off + |dst|) % BSIZE == 0)
        invariant Reading(s0, State(f, owner, logged), n, off, dst, ok).holds
        invariant Confined(d0, disk, s0.logged, logged).holds
        decreases cnt - |dst|
      {
        ghost var d1, log1 := disk, logged;
        dst, ok := ReadNext(n, off, cnt, dst, s0, ok);
        ConfinedTwice(d0, d1, disk, s0.logged, log1, logged);
      }
    }

    /** One round of readi's loop. */
    method ReadNext(n: nat, off: nat, cnt: nat, dst: seq<Byte>, ghost s0: State, ghost ok: bool) returns (dst': seq<Byte>, ghost ok': bool)
      requires Valid() && n in mem && f.IsInode(n) && off + cnt <= mem[n].size <= MAXBYTES
      requires |dst| < cnt && (|dst| == 0 || (off + |dst|) % BSIZE == 0)
      requires Reading(s0, State(f, owner, logged), n, off, dst, ok).holds
      modifies `disk, `mem, `f, `owner, `logged
      ensures Valid() && n in mem && f.IsInode(n) && mem[n].size == old(mem[n]).size
      ensures |dst| < |dst'| <= cnt && (|dst'| == cnt || (off + |dst'|) % BSIZE == 0)
      ensures Reading(s0, State(f, owner, logged), n, off, dst', ok').holds
      ensures Confined(old(disk), disk, old(logged), logged).holds
    {
      ghost var s1 := State(f, owner, logged);
      ghost var a: Word;
      var piece;
      var o := off + |dst|;
      piece, a := ReadPiece(n, o, cnt - |dst|);
      ReadStep(off, |dst|, cnt, |piece|);
      ReadingOn(s0, s1, State(f, owner, logged), n, off, dst, o, piece, a, ok);
      dst', ok' := dst + piece, ok && a != 0;
    }

    method ReadPiece(n: nat, o: nat, left: nat) returns (piece: seq<Byte>, ghost a: Word)
      requires Valid() && n in mem && f.IsInode(n) && 0 < left && o + left <= mem[n].size <= MAXBYTES
      modifies `disk, `mem, `f, `owner, `logged
      ensures Valid() && n in mem && f.IsInode(n) && mem[n].size == old(mem[n]).size && |piece| == Min(left, BSIZE - o % BSIZE)
      ensures ReadOne(State(old(f), old(owner), old(logged)), State(f, owner, logged), n, o, piece, a).holds
      ensures Confined(old(disk), disk, old(logged), logged).holds
    {
      var bn := o / BSIZE;
      ghost var s := State(f, owner, logged);
      var addr, _ := Bmap(n, bn);
      a := addr;
      BlockOnDisk(sb, disk, mem, f, owner, n, bn);
      var m := Min(left, BSIZE - o % BSIZE);
      ReadsPiece(disk, f, n, o, m, addr);
      piece := disk[addr][o % BSIZE..o % BSIZE + m];
      ReadPieceDone(s, State(f, owner, logged), n, o, piece, addr);
    }

    // ----- writei -----

    /** Writes piece into the block of file n at offset o, if there is or can be one (lines 590-598). */
    method WritePiece(n: nat, o: nat, piece: seq<Byte>) returns (ok: bool, ghost a: Word, ghost maps: set<nat>, ghost e: Files)
      requires Valid() && n in mem && f.IsInode(n)
      requires 0 < |piece| && o % BSIZE + |piece| <= BSIZE && o + |piece| <= MAXBYTES
      modifies `disk, `mem, `f, `owner, `logged
      ensures Valid() && n in mem && ok == (a != 0) && (!ok ==> e == f)
      ensures Piece(sb, State(old(f), old(owner), old(logged)), e, State(f, owner, logged), n, o, piece, a, maps).holds
      ensures Turn(old(f), f, n, o / BSIZE, a).holds
      ensures Confined(old(disk), disk, old(logged), logged).holds
    {
      var addr;
      ghost var f0 := f;
      ghost var d0, log0 := disk, logged;
      addr, maps := Bmap(n, o / BSIZE);
      ghost var d1, log1 := disk, logged;
      a, e := addr, f;
      ok := addr != 0;
      if ok {
        if o / BSIZE >= NDIRECT {
          EntryHasTable(sb, f, owner, n, o / BSIZE - NDIRECT);
        }
        StoreInto(n, o, addr, piece);
        TurnStored(f0, e, f, n, o / BSIZE, addr);
        ConfinedTwice(d0, d1, disk, log0, log1, logged);
      }
    }

    method StoreInto(n: nat, o: nat, a: Word, piece: seq<Byte>)
      requires Valid() && n in mem && f.IsInode(n)
      requires 0 < |piece| && o % BSIZE + |piece| <= BSIZE && o + |piece| <= MAXBYTES
      requires a == f.Addr(n, o / BSIZE) && a != 0
      modifies `disk, `f, `logged
      ensures Valid() && f.IsInode(n) && (NoLeak(old(f), owner).holds ==> NoLeak(f, owner).holds)
      ensures Wrote(old(f), f, n, o, piece, |piece|).holds && logged == old(logged) + {a} && Stored(old(f), f).holds
      ensures Confined(old(disk), disk, old(logged), logged).holds
    {
      AddrOnDisk(sb, disk, mem, f, owner, n, o / BSIZE, a);
      var v := Splice(disk[a], o % BSIZE, piece);
      PieceStored(sb, disk, mem, f, owner, n, o, a, piece, v);
      ConfinedOne(disk, logged, a, v);
      PutBlock(a, v, Store(f, a, v));
    }

    /** Block a is now v, and logged; g is what the disk holds then. */
    method PutBlock(a: nat, v: Block, ghost g: Files)
      requires a < |disk|
      modifies `disk, `f, `logged
      ensures disk == old(disk)[a := v] && f == g && logged == old(logged) + {a}
    {
      disk := disk[a := v];
      f := g;
      logged := logged + {a};
    }

    /** The loop of writei: writes src at off until done or until no block is left. */
    method WriteBytes(n: nat, src: seq<Byte>, off: nat) returns (tot: nat, ghost log: Logged, ghost added: nat)
      requires Valid() && n in mem && f.IsInode(n) && off + |src| <= MAXBYTES
      modifies `disk, `mem, `f, `owner, `logged
      ensures Valid() && n in mem && tot <= |src|
      ensures Writing(sb, State(f, owner, logged), State(old(f), old(owner), old(logged)), n, src, off, tot, tot == |src|).holds
      ensures Books(sb, State(f, owner, logged), State(old(f), old(owner), old(logged)), n, off, tot, tot == |src|, log, added).holds
      ensures Running(old(f), f, n, off, tot, tot == |src|).holds
      ensures Confined(old(disk), disk, old(logged), logged).holds
    {
      ghost var s0, d0 := State(f, owner, logged), disk;
      WritingStart(sb, s0, n, src, off);
      RunningStart(f, n, off);
      ConfinedSelf(disk, logged);
      tot, log, added := 0, Logged({}, {}, {}), 0;
      var more := true;
      while more && tot < |src|
        invariant Valid() && n in mem && tot <= |src| && (!more ==> tot < |src|)
        invariant Writing(sb, State(f, owner, logged), s0, n, src, off, tot, more).holds
        invariant Books(sb, State(f, owner, logged), s0, n, off, tot, more, log, added).holds
        invariant Confined(d0, disk, s0.logged, logged).holds && Running(s0.f, f, n, off, tot, more).holds
        decreases more, |src| - tot
      {
        ghost var d1, log1 := disk, logged;
        more, tot, log, added := WriteNext(n, src, off, tot, s0, log, added);
        ConfinedTwice(d0, d1, disk, s0.logged, log1, logged);
      }
    }

    /** One round of writei's loop. */
    method WriteNext(n: nat, src: seq<Byte>, off: nat, tot: nat, ghost s0: State, ghost log: Logged, ghost added: nat)
      returns (more: bool, tot': nat, ghost log': Logged, ghost added': nat)
      requires Valid() && n in mem && tot < |src| && off + |src| <= MAXBYTES
      requires Writing(sb, State(f, owner, logged), s0, n, src, off, tot, true).holds
      requires Books(sb, State(f, owner, logged), s0, n, off, tot, true, log, added).holds
      requires Running(s0.f, f, n, off, tot, true).holds
      modifies `disk, `mem, `f, `owner, `logged
      ensures Running(s0.f, f, n, off, tot', more).holds
      ensures Valid() && n in mem && tot' <= |src| && (if more then tot < tot' else tot == tot')
      ensures Writing(sb, State(f, owner, logged), s0, n, src, off, tot', more).holds
      ensures Books(sb, State(f, owner, logged), s0, n, off, tot', more, log', added').holds
      ensures Confined(old(disk), disk, old(logged), logged).holds
    {
      ghost var s1 := State(f, owner, logged);
      WritingInode(sb, s1, s0, n, src, off, tot, true);
      ghost var a: Word, maps, e, piece;
      var o := off + tot;
      more, tot', a, maps, e, piece := PutNext(n, src, off, tot, o);
      PieceFits(sb, s1, s0, n, src, off, tot, o, piece);
      RunningOn(s0.f, s1.f, f, n, off, tot, |piece|, o / BSIZE, a);
      log', added' := RoundNext(sb, s0, s1, e, State(f, owner, logged), n, src, off, tot, tot', o, piece, log, added, a, maps);
    }

    method PutNext(n: nat, src: seq<Byte>, off: nat, tot: nat, o: nat)
      returns (more: bool, tot': nat, ghost a: Word, ghost maps: set<nat>, ghost e: Files, ghost piece: seq<Byte>)
      requires Valid() && n in mem && f.IsInode(n) && tot < |src| && off + |src| <= MAXBYTES && o == off + tot
      modifies `disk, `mem, `f, `owner, `logged
      ensures Valid() && n in mem && more == (a != 0) && NextIs(sb, src, off, tot, o, piece).holds
      ensures 0 < |piece| && tot + |piece| <= |src| && tot' == if more then tot + |piece| else tot
      ensures Piece(sb, State(old(f), old(owner), old(logged)), e, State(f, owner, logged), n, o, piece, a, maps).holds
      ensures Turn(old(f), f, n, o / BSIZE, a).holds
      ensures Confined(old(disk), disk, old(logged), logged).holds
    {
      var next := NextPiece(src, off, tot);
      piece := next;
      more, a, maps, e := WritePiece(n, o, next);
      tot' := if more then tot + |next| else tot;
    }

    // ----- iupdate -----

    /** Copies the cached inode to its place on disk. */
    method Iupdate(n: nat)
      requires Valid() && n in mem
      modifies `disk, `f, `logged
      ensures Valid() && old(f).IsInode(n) && f == Files(old(f).disk.(dinode := old(f).disk.dinode[n := mem[n]]), mem)
      ensures 0 < sb.ipg && logged == old(logged) + {sb.InodeBlock(n)}
      ensures Confined(old(disk), disk, old(logged), logged).holds
      ensures Settled(old(f), old(owner)).holds ==> Settled(f, owner).holds
    {
      SyncOk(sb, f, owner, n);
      SettledSync(f, owner, n);
      PutDinode(n);
    }

    method PutDinode(n: nat)
      requires Shows(sb, disk, mem, f) && f.mem == mem && n in mem && f.IsInode(n)
      modifies `disk, `f, `logged
      ensures Shows(sb, disk, mem, f) && f.mem == mem && f == Sync(old(f), n)
      ensures 0 < sb.ipg && logged == old(logged) + {sb.InodeBlock(n)}
      ensures Confined(old(disk), disk, old(logged), logged).holds
    {
      SyncShows(sb, disk, mem, f, n);
      var b := sb.InodeBlock(n);
      ConfinedOne(disk, logged, b, PutInode(disk[b], n % IPB, mem[n]));
      disk := disk[b := PutInode(disk[b], n % IPB, mem[n])];
      f := Sync(f, n);
      logged := logged + {b};
    }

    // ----- writei -----

    ghost predicate LoggedWithin(logged0: set<nat>, k: int)
      reads this
    {
      |logged - logged0| <= k
    }

    /** Writes src at off. It answers |src| even when the disk fills up after t bytes, which happens exactly if
        there are not enough free blocks, and then leaves exactly those t bytes written. The disk copy of the
        inode falls behind exactly if the inode gets a block number and the file does not grow. A hole-free file stays
        hole-free and costs the log at most LogCost. */
    method Writei(n: nat, src: seq<Byte>, off: Word) returns (r: Io, ghost t: nat)
      requires Valid() && n in mem && |src| < WORDMAX
      modifies `disk, `mem, `f, `owner, `logged
      ensures Valid() && n in mem && old(f).IsInode(n)
      ensures r == if old(mem[n]).typ == T_DEV then Device(old(mem[n]).major)
                   else if off > old(mem[n]).size || off + |src| > MAXBYTES then Refused else Moved(|src|)
      ensures !r.Moved? ==> Unchanged(old(f), old(owner), old(logged))
      ensures r.Moved? ==> WrittenSync(old(f), f, n, off, src, t).holds && Paid(old(f), f, n, off, |src|, t).holds
      ensures r.Moved? ==> (t == |src| <==> Enough(old(f), n, off, |src|).holds)
      ensures r.Moved? && t < |src| ==> Exhausted(sb, f) && (HoleFree(old(f), n) ==> old(mem[n]).size <= off + t)
      ensures NoLeak(old(f), old(owner)).holds ==> NoLeak(f, owner).holds
      ensures Settled(old(f), old(owner)).holds ==>
        (Settled(f, owner).holds <==> !r.Moved? || GrowsPast(old(f), n, off, |src|).holds || !Disturbs(old(f), n, off, |src|).holds)
      ensures r.Moved? && HoleFree(old(f), n) && Settled(old(f), old(owner)).holds ==>
        (Settled(f, owner).holds <==> !CutAtTable(old(f), n, off, |src|))
      ensures r.Moved? && HoleFree(old(f), n) ==> LoggedWithin(old(logged), LogCost(off, |src|))
      ensures Confined(old(disk), disk, old(logged), logged).holds
    {
      t := 0;
      ConfinedSelf(disk, logged);
      SizeBound(sb, f, owner, n);
      if mem[n].typ == T_DEV {
        r := Device(mem[n].major);
      } else if off > mem[n].size || (off + |src|) % WORDMAX < off {
        r := Refused;
      } else if off + |src| > MAXBYTES {
        r := Refused;
      } else {
        ghost var f0, own0 := f, owner;
        t := WriteAll(n, src, off);
        ClosedMeans(sb, f0, own0, f, owner, n, src, off, t);
        GrowsPastIs(f0, f, n, off, |src|, t);
        if HoleFree(f0, n) {
          HoleFreeSaves(sb, f0, own0, f, n, off, |src|, t);
        }
        r := Moved(|src|);
      }
    }

    method WriteAll(n: nat, src: seq<Byte>, off: Word) returns (tot: nat)
      requires Valid() && n in mem && f.IsInode(n) && off <= mem[n].size && off + |src| <= MAXBYTES
      modifies `disk, `mem, `f, `owner, `logged
      ensures Valid() && n in mem && Closed(sb, old(f), old(owner), f, owner, n, src, off, tot).holds
      ensures HoleFree(old(f), n) ==> LoggedWithin(old(logged), LogCost(off, |src|))
      ensures Confined(old(disk), disk, old(logged), logged).holds
    {
      ghost var s0, d0 := State(f, owner, logged), disk;
      ghost var log, added;
      tot, log, added := WriteBytes(n, src, off);
      ghost var d1, log1 := disk, logged;
      if HoleFree(s0.f, n) {
        BooksTotal(sb, State(f, owner, logged), s0, n, off, tot, tot == |src|, log, added);
        LogCostGrows(off, tot, |src|);
      }
      SetSize(n, src, off, tot, s0);
      ConfinedTwice(d0, d1, disk, s0.logged, log1, logged);
    }

    /** Lines 601-604: if the write went past the end, that is the new size. */
    method SetSize(n: nat, src: seq<Byte>, off: nat, tot: nat, ghost s0: State)
      requires Valid() && n in mem && tot <= |src| && n in s0.f.mem && off <= s0.f.mem[n].size
      requires Writing(sb, State(f, owner, logged), s0, n, src, off, tot, tot == |src|).holds
      requires Running(s0.f, f, n, off, tot, tot == |src|).holds && off + |src| <= MAXBYTES
      modifies `disk, `mem, `f, `logged
      ensures Valid() && n in mem && Closed(sb, s0.f, s0.owner, f, owner, n, src, off, tot).holds
      ensures |logged - s0.logged| <= |old(logged) - s0.logged| + 1
      ensures Confined(old(disk), disk, old(logged), logged).holds
    {
      WritingSize(sb, State(f, owner, logged), s0, n, src, off, tot, tot == |src|);
      if |src| > 0 && off + tot > mem[n].size {
        GrowTo(n, src, off, tot, s0);
      } else {
        ConfinedSelf(disk, logged);
        ClosedInside(sb, State(f, owner, logged), s0, n, src, off, tot);
      }
    }

    method GrowTo(n: nat, src: seq<Byte>, off: nat, tot: nat, ghost s0: State)
      requires Valid() && n in mem && tot <= |src| && n in s0.f.mem && off <= s0.f.mem[n].size < off + tot
      requires Writing(sb, State(f, owner, logged), s0, n, src, off, tot, tot == |src|).holds
      requires Running(s0.f, f, n, off, tot, tot == |src|).holds && off + |src| <= MAXBYTES
      modifies `disk, `mem, `f, `logged
      ensures Valid() && n in mem && Closed(sb, s0.f, s0.owner, f, owner, n, src, off, tot).holds
      ensures |logged - s0.logged| <= |old(logged) - s0.logged| + 1
      ensures Confined(old(disk), disk, old(logged), logged).holds
    {
      ghost var log := logged;
      ClosedGrown(sb, State(f, owner, logged), s0, n, src, off, tot);
      Grow(n, off + tot);
      OneMore(log, logged, s0.logged, sb.InodeBlock(n));
    }

    /** ip->size = off; iupdate(ip). */
    method Grow(n: nat, size: Word)
      requires Valid() && n in mem && mem[n].typ != 0 && size <= MAXBYTES
      modifies `disk, `mem, `f, `logged
      ensures Valid() && n in mem && n in old(f).mem && Retag(old(f), n, WithSize(old(f).mem[n], size)).IsInode(n)
      ensures f == Sync(Retag(old(f), n, WithSize(old(f).mem[n], size)), n)
      ensures 0 < sb.ipg && logged == old(logged) + {sb.InodeBlock(n)}
      ensures Confined(old(disk), disk, old(logged), logged).holds
    {
      var ip := WithSize(mem[n], size);
      RetagOk(sb, f, owner, n, ip);
      ShowsMem(sb, disk, mem, f, mem[n := ip]);
      mem := mem[n := ip];
      f := Retag(f, n, ip);
      Iupdate(n);
    }

    // ----- bfree and itrunc -----

    /** Clears block b's bit; a block that is already free makes it panic. */
    method Bfree(b: nat) returns (ok: bool)
      requires Shows(sb, disk, mem, f) && f.mem == mem && b in f.disk.data && b != 0
      modifies `disk, `f, `logged
      ensures Shows(sb, disk, mem, f) && f.mem == mem
      ensures ok <==> b in old(f).disk.used
      ensures f == if ok then Release(old(f), {b}) else old(f)
      ensures ok ==> sb.Start() <= b && 0 < sb.bpg && logged == old(logged) + {sb.BitmapBlock(b)}
      ensures Confined(old(disk), disk, old(logged), logged).holds
    {
      ReleaseShows(sb, disk, mem, f, b);
      var m, bi := sb.BitmapBlock(b), sb.Index(b);
      ok := Bit(disk[m], bi);
      ConfinedSelf(disk, logged);
      if ok {
        ConfinedOne(disk, logged, m, WithBitAt(disk[m], bi, false));
        disk := disk[m := WithBitAt(disk[m], bi, false)];
        logged := logged + {m};
        f := Release(f, {b});
      }
    }

    ghost predicate Truncating(n: nat, f0: Files, own0: map<nat, Slot>)
      reads this
    {
      Shows(sb, disk, mem, f) && f.mem == mem && OkBut(sb, f, owner, n) && n in mem && Shrinks(f0, f, own0, owner, n)
    }

    /** Frees everything inode n points at and makes it empty. */
    method Itrunc(n: nat)
      requires Valid() && n in mem && f.IsInode(n)
      modifies `disk, `mem, `f, `owner, `logged
      ensures Valid() && n in mem && Truncated(old(f), f, old(owner), n)
      ensures NoLeak(old(f), old(owner)).holds ==> NoLeak(f, owner).holds
      ensures Confined(old(disk), disk, old(logged), logged).holds
      ensures Settled(old(f), old(owner)).holds ==> Settled(f, owner).holds
    {
      ghost var f0, own0, d0, log0 := f, owner, disk, logged;
      OkWeaken(sb, f, owner, n);
      ShrinksSelf(f, owner, n);
      TruncDirects(n, f0, own0);
      ghost var d1, log1 := disk, logged;
      if mem[n].addrs[NDIRECT] != 0 {
        TruncTable(n, f0, own0);
        ConfinedTwice(d0, d1, disk, log0, log1, logged);
      }
      assert mem[n].addrs == NoAddrs;
      ghost var d2, log2 := disk, logged;
      Empty(n, f0, own0);
      ConfinedTwice(d0, d2, disk, log0, log2, logged);
      SettledTruncated(f0, f, own0, owner, n);
    }

    method TruncDirects(n: nat, ghost f0: Files, ghost own0: map<nat, Slot>)
      requires Truncating(n, f0, own0)
      modifies `disk, `mem, `f, `owner, `logged
      ensures Truncating(n, f0, own0) && forall j :: 0 <= j < NDIRECT ==> mem[n].addrs[j] == 0
      ensures Confined(old(disk), disk, old(logged), logged).holds
    {
      ghost var d0, log0 := disk, logged;
      ConfinedSelf(disk, logged);
      var i := 0;
      while i < NDIRECT
        invariant i <= NDIRECT && Truncating(n, f0, own0) && forall j :: 0 <= j < i ==> mem[n].addrs[j] == 0
        invariant Confined(d0, disk, log0, logged).holds
      {
        if mem[n].addrs[i] != 0 {
          ghost var d1, log1 := disk, logged;
          FreeDirect(n, i, f0, own0);
          ConfinedTwice(d0, d1, disk, log0, log1, logged);
        }
        i := i + 1;
      }
    }

    method FreeDirect(n: nat, i: nat, ghost f0: Files, ghost own0: map<nat, Slot>)
      requires Truncating(n, f0, own0) && i < NDIRECT && mem[n].addrs[i] != 0
      modifies `disk, `mem, `f, `owner, `logged
      ensures Truncating(n, f0, own0) && mem[n].addrs == old(mem[n].addrs)[i := 0]
      ensures Confined(old(disk), disk, old(logged), logged).holds
    {
      var b: nat := mem[n].addrs[i];
      ghost var f1, own1 := f, owner;
      FreeDirectOk(sb, disk, mem, f, owner, n, i, b);
      var ok := Bfree(b);
      ShowsMem(sb, disk, mem, f, mem[n := WithAddrs(mem[n], mem[n].addrs[i := 0])]);
      mem := mem[n := WithAddrs(mem[n], mem[n].addrs[i := 0])];
      f := Files(f.disk, mem);
      owner := owner - {b};
      ShrinksTwice(f0, f1, f, own0, own1, owner, n);
    }

    method TruncTable(n: nat, ghost f0: Files, ghost own0: map<nat, Slot>)
      requires Truncating(n, f0, own0) && mem[n].addrs[NDIRECT] != 0
      modifies `disk, `mem, `f, `owner, `logged
      ensures Truncating(n, f0, own0) && mem[n].addrs == old(mem[n].addrs)[NDIRECT := 0]
      ensures Confined(old(disk), disk, old(logged), logged).holds
    {
      var t: nat := mem[n].addrs[NDIRECT];
      ghost var f1, own1, d0, log0 := f, owner, disk, logged;
      TableThere(sb, disk, mem, f, owner, n);
      var T := disk[t];
      ghost var D := Entries(T, NINDIRECT) + {t};
      FreeTableOk(sb, disk, mem, f, owner, n, t, D);
      FreeEntries(n, T);
      ghost var d1, log1 := disk, logged;
      var ok := Bfree(t);
      ConfinedTwice(d0, d1, disk, log0, log1, logged);
      assert f1.disk.used - Entries(T, NINDIRECT) - {t} == f1.disk.used - D;
      ShowsMem(sb, disk, mem, f, mem[n := WithAddrs(mem[n], mem[n].addrs[NDIRECT := 0])]);
      mem := mem[n := WithAddrs(mem[n], mem[n].addrs[NDIRECT := 0])];
      f := Files(f.disk, mem);
      owner := owner - D;
      ShrinksTwice(f0, f1, f, own0, own1, owner, n);
    }

    /** The loop over the table's entries. */
    method FreeEntries(n: nat, T: Block)
      requires Shows(sb, disk, mem, f) && f.mem == mem && OkBut(sb, f, owner, n) && n in mem
      requires mem[n].addrs[NDIRECT] in f.disk.data && T == f.disk.data[mem[n].addrs[NDIRECT]]
      modifies `disk, `f, `logged
      ensures Shows(sb, disk, mem, f) && f == Release(old(f), Entries(T, NINDIRECT))
      ensures Confined(old(disk), disk, old(logged), logged).holds
    {
      ghost var f1, d1, log1 := f, disk, logged;
      ConfinedSelf(disk, logged);
      var j := 0;
      while j < NINDIRECT
        invariant j <= NINDIRECT && Shows(sb, disk, mem, f) && f == Release(f1, Entries(T, j))
        invariant Confined(d1, disk, log1, logged).holds
      {
        if WordAt(T, j) != 0 {
          EntryInUse(sb, d1, mem, f1, owner, n, T, j);
          ghost var d2, log2 := disk, logged;
          var ok := Bfree(WordAt(T, j));
          ConfinedTwice(d1, d2, disk, log1, log2, logged);
        }
        assert Release(f1, Entries(T, j + 1)).disk.used == f.disk.used;
        j := j + 1;
      }
    }

    /** ip->size = 0; iupdate(ip). */
    method Empty(n: nat, ghost f0: Files, ghost own0: map<nat, Slot>)
      requires Truncating(n, f0, own0) && mem[n].addrs == NoAddrs
      modifies `disk, `mem, `f, `logged
      ensures Valid() && n in mem && Truncated(f0, f, own0, n) && (NoLeak(f0, own0).holds ==> NoLeak(f, owner).holds)
      ensures Confined(old(disk), disk, old(logged), logged).holds
    {
      TruncDone(sb, f0, f, own0, owner, n);
      var ip := WithSize(mem[n], 0);
      ShowsMem(sb, disk, mem, f, mem[n := ip]);
      mem := mem[n := ip];
      f := Retag(f, n, ip);
      PutDinode(n);
    }

    // ----- the inode cache -----

    /** Only referenced inodes are cached, and there are slots for NINODE of them. */
    ghost predicate Counted()
      reads this
    {
      mem.Keys <= ref.Keys && |ref| <= NINODE && forall n :: n in ref ==> ref[n] > 0 && n < sb.ninodes
    }

    /** One more reference to inode n; panics when all slots hold other inodes. */
    method Iget(n: nat) returns (ok: bool)
      requires Counted() && n < sb.ninodes
      modifies `ref
      ensures Counted()
      ensures ok <==> n in old(ref) || |old(ref)| < NINODE
      ensures ok ==> ref == old(ref)[n := (if n in old(ref) then old(ref)[n] else 0) + 1]
      ensures !ok ==> ref == old(ref)
    {
      ok := true;
      if n in ref {
        ref := ref[n := ref[n] + 1];
        assert ref.Keys == old(ref).Keys;
      } else if |ref| == NINODE {
        ok := false;
      } else {
        ref := ref[n := 1];
        assert ref.Keys == old(ref).Keys + {n};
      }
    }

    /** Brings inode n into the cache; panics on a free inode. */
    method Ilock(n: nat) returns (ok: bool)
      requires Valid() && Counted() && n in ref
      modifies `mem, `f
      ensures Valid() && Counted() && old(f).IsInode(n)
      ensures ok <==> n in old(mem) || old(f).disk.dinode[n].typ != 0
      ensures ok ==> mem == (if n in old(mem) then old(mem) else old(mem)[n := old(f).disk.dinode[n]])
      ensures ok ==> f == Files(old(f).disk, mem) && SameBytes(old(f), f)
      ensures !ok ==> f == old(f) && mem == old(mem)
      ensures Settled(old(f), old(owner)).holds ==> Settled(f, owner).holds
    {
      ok := true;
      InodeOnDisk(sb, disk, mem, f, n);
      if n !in mem {
        var dip := GetInode(disk[sb.InodeBlock(n)], n % IPB);
        if dip.typ == 0 {
          ok := false;
        } else {
          LoadOk(sb, f, owner, n);
          SettledLoad(f, owner, n);
          ShowsMem(sb, disk, mem, f, mem[n := dip]);
          mem := mem[n := dip];
          f := Load(f, n);
        }
      }
    }

    /** ialloc's loop: the lowest free inode from 1 up, or the number of inodes. */
    method FreeInum() returns (n: nat)
      requires Valid()
      ensures 1 <= n && (n < sb.ninodes <==> exists i: nat :: 1 <= i < sb.ninodes && f.IsInode(i) && f.disk.dinode[i].typ == 0)
      ensures forall i :: 1 <= i < n && i < |f.disk.dinode| ==> f.disk.dinode[i].typ != 0
      ensures n < sb.ninodes ==> f.IsInode(n) && f.disk.dinode[n].typ == 0
    {
      n := 1;
      while n < sb.ninodes
        invariant 1 <= n && forall i :: 1 <= i < n && i < |f.disk.dinode| ==> f.disk.dinode[i].typ != 0
      {
        InodeOnDisk(sb, disk, mem, f, n);
        if GetInode(disk[sb.InodeBlock(n)], n % IPB).typ == 0 {
          return;
        }
        n := n + 1;
      }
    }

    /** The lowest free inode, marked with type typ and referenced; panics when there is none, or no slot for it. */
    method Ialloc(typ: Half) returns (n: nat, ok: bool)
      requires Valid() && Counted() && typ != 0
      modifies `disk, `mem, `f, `logged, `ref
      ensures Valid() && Counted()
      ensures forall i :: 1 <= i < n && i < |old(f).disk.dinode| ==> old(f).disk.dinode[i].typ != 0
      ensures 1 <= n && (n < sb.ninodes <==> exists i: nat :: 1 <= i < sb.ninodes && old(f).IsInode(i) && old(f).disk.dinode[i].typ == 0)
      ensures n < sb.ninodes ==> old(f).IsInode(n) && old(f).disk.dinode[n].typ == 0 && SameBytes(old(f), f)
                                 && f.disk == old(f).disk.(dinode := old(f).disk.dinode[n := Inode(typ, 0, 0, 0, 0, NoAddrs)])
      ensures sb.ninodes <= n ==> f == old(f)
      ensures mem == old(mem) && n !in mem
      ensures ok <==> n < sb.ninodes && (n in old(ref) || |old(ref)| < NINODE)
      ensures ref == if ok then old(ref)[n := (if n in old(ref) then old(ref)[n] else 0) + 1] else old(ref)
      ensures Confined(old(disk), disk, old(logged), logged).holds
      ensures Settled(old(f), old(owner)).holds ==> Settled(f, owner).holds
    {
      n := FreeInum();
      if n < sb.ninodes {
        MarkInode(n, typ);
        ok := Iget(n);
      } else {
        ConfinedSelf(disk, logged);
        ok := false;
      }
    }

    method MarkInode(n: nat, typ: Half)
      requires Valid() && Counted() && n < sb.ninodes && f.IsInode(n) && f.disk.dinode[n].typ == 0
      modifies `disk, `mem, `f, `logged
      ensures Valid() && Counted() && mem == old(mem) && n !in mem && SameBytes(old(f), f)
      ensures f.disk == old(f).disk.(dinode := old(f).disk.dinode[n := Inode(typ, 0, 0, 0, 0, NoAddrs)])
      ensures Confined(old(disk), disk, old(logged), logged).holds
      ensures Settled(old(f), old(owner)).holds ==> Settled(f, owner).holds
    {
      FreeInode(sb, f, owner, n);
      ResetInode(n, Inode(typ, 0, 0, 0, 0, NoAddrs));
      assert mem == old(mem);
    }

    /** Writes ip over inode n on disk, with no cached copy left. */
    method ResetInode(n: nat, ip: Inode)
      requires Valid() && Counted() && n < sb.ninodes && f.IsInode(n) && f.Cur(n).addrs == NoAddrs
      requires ip.addrs == NoAddrs && ip.size <= MAXBYTES
      modifies `disk, `mem, `f, `logged
      ensures Valid() && Counted() && f == Reset(old(f), n, ip) && SameBytes(old(f), f)
      ensures Confined(old(disk), disk, old(logged), logged).holds
      ensures Settled(old(f), old(owner)).holds ==> Settled(f, owner).holds
    {
      ResetOk(sb, f, owner, n, ip);
      SettledReset(f, owner, n, ip);
      PutReset(n, ip);
    }

    method PutReset(n: nat, ip: Inode)
      requires Shows(sb, disk, mem, f) && f.mem == mem && n < sb.ninodes
      modifies `disk, `mem, `f, `logged
      ensures Shows(sb, disk, mem, f) && mem == old(mem) - {n} && f.mem == mem
      ensures old(f).IsInode(n) && f == Reset(old(f), n, ip)
      ensures Confined(old(disk), disk, old(logged), logged).holds
    {
      ResetShows(sb, disk, mem, f, n, ip);
      var b := sb.InodeBlock(n);
      ConfinedOne(disk, logged, b, PutInode(disk[b], n % IPB, ip));
      disk := disk[b := PutInode(disk[b], n % IPB, ip)];
      mem := mem - {n};
      f := Reset(f, n, ip);
      logged := logged + {b};
    }

    /** Drops a reference. The last one to an inode without links frees the inode and its blocks; any
        other last one drops the cached copy, which loses nothing if the disk copy is up to date. */
    method Iput(n: nat)
      requires Valid() && Counted() && n in ref
      modifies `disk, `mem, `f, `owner, `logged, `ref
      ensures Valid() && Counted() && old(f).IsInode(n)
      ensures ref == if old(ref)[n] == 1 then old(ref) - {n} else old(ref)[n := old(ref)[n] - 1]
      ensures Dead(old(mem), old(ref), n) ==>
        Freed(old(f), f, old(owner), n) && (NoLeak(old(f), old(owner)).holds ==> NoLeak(f, owner).holds)
      ensures !Dead(old(mem), old(ref), n) && (old(ref)[n] > 1 || n !in old(mem)) ==> f == old(f) && owner == old(owner)
      ensures !Dead(old(mem), old(ref), n) && old(ref)[n] == 1 && n in old(mem) ==>
        f == Forget(old(f), n) && (Synced(old(f), n) ==> owner == old(owner) && SameBytes(old(f), f))
      ensures Confined(old(disk), disk, old(logged), logged).holds
      ensures Settled(old(f), old(owner)).holds ==> Settled(f, owner).holds
      ensures NoLeak(old(f), old(owner)).holds ==>
        (NoLeak(f, owner).holds <==> Dead(old(mem), old(ref), n) || old(ref)[n] > 1 || n !in old(mem) || Recorded(old(f), n))
    {
      InodeOnDisk(sb, disk, mem, f, n);
      if n in mem && mem[n].nlink == 0 && ref[n] == 1 {
        PutUnlinked(n);
      } else {
        ConfinedSelf(disk, logged);
        Unref(n);
      }
    }

    method PutUnlinked(n: nat)
      requires Valid() && Counted() && n in ref && ref[n] == 1 && n in mem && f.IsInode(n)
      modifies `disk, `mem, `f, `owner, `logged, `ref
      ensures Valid() && Counted() && ref == old(ref) - {n} && Freed(old(f), f, old(owner), n)
      ensures NoLeak(old(f), old(owner)).holds ==> NoLeak(f, owner).holds
      ensures Confined(old(disk), disk, old(logged), logged).holds
      ensures Settled(old(f), old(owner)).holds ==> Settled(f, owner).holds
    {
      FreeUnlinked(n);
      Unref(n);
    }

    /** itrunc(ip); ip->type = 0; iupdate(ip); ip->valid = 0. */
    method FreeUnlinked(n: nat)
      requires Valid() && Counted() && n in mem && f.IsInode(n)
      modifies `disk, `mem, `f, `owner, `logged
      ensures Valid() && Counted() && n !in mem && Freed(old(f), f, old(owner), n)
      ensures NoLeak(old(f), old(owner)).holds ==> NoLeak(f, owner).holds
      ensures Confined(old(disk), disk, old(logged), logged).holds
      ensures Settled(old(f), old(owner)).holds ==> Settled(f, owner).holds
    {
      ghost var d0, log0 := disk, logged;
      Itrunc(n);
      ghost var f1, d1, log1 := f, disk, logged;
      ResetInode(n, mem[n].(typ := 0));
      ConfinedTwice(d0, d1, disk, log0, log1, logged);
      FreedBy(old(f), f1, f, old(owner), n);
    }

    method Unref(n: nat)
      requires Valid() && Counted() && n in ref
      modifies `mem, `f, `owner, `ref
      ensures Valid() && Counted()
      ensures ref == if old(ref)[n] == 1 then old(ref) - {n} else old(ref)[n := old(ref)[n] - 1]
      ensures old(ref)[n] > 1 || n !in old(mem) ==> f == old(f) && owner == old(owner)
      ensures old(ref)[n] == 1 && n in old(mem) ==>
        old(f).IsInode(n) && f == Forget(old(f), n)
        && (Synced(old(f), n) ==> owner == old(owner) && SameBytes(old(f), f))
      ensures Settled(old(f), old(owner)).holds ==> Settled(f, owner).holds
      ensures NoLeak(old(f), old(owner)).holds ==> (NoLeak(f, owner).holds <==> old(ref)[n] > 1 || n !in old(mem) || Recorded(old(f), n))
    {
      if ref[n] > 1 {
        ref := ref[n := ref[n] - 1];
        assert ref.Keys == old(ref).Keys;
      } else {
        ref := ref - {n};
        assert ref.Keys == old(ref).Keys - {n};
        if n in mem {
          ForgetOk(sb, f, owner, n);
          SettledForget(sb, f, owner, n);
          ShowsMem(sb, disk, mem, f, mem - {n});
          owner := Kept(f, owner, n);
          f := Forget(f, n);
          mem := mem - {n};
        }
      }
    }

    // ----- filewrite -----

    ghost method BeginOp()
      requires !open
      modifies `open, `logged
      ensures open && logged == {}
    {
      open, logged := true, {};
    }

    ghost method EndOp()
      requires open
      modifies `open, `done
      ensures !open && Ended(old(done), done, logged).holds
    {
      EndedMeans(done, done + [logged], logged);
      open, done := false, done + [logged];
    }

    /** One round of filewrite's loop: a transaction around one writei. */
    method WriteChunk(n: nat, piece: seq<Byte>, off: Word) returns (r: Io, ghost t: nat)
      requires Valid() && !open && n in mem && |piece| <= CHUNK && mem[n].typ != T_DEV && f.IsInode(n) && HoleFree(f, n)
      modifies `disk, `mem, `f, `owner, `logged, `open, `done
      ensures Valid() && n in mem && |logged| <= MAXOPBLOCKS && !open && Ended(old(done), done, logged).holds
      ensures r == if off > old(mem[n]).size || off + |piece| > MAXBYTES then Refused else Moved(|piece|)
      ensures !r.Moved? ==> f == old(f) && owner == old(owner)
      ensures r.Moved? ==> WrittenSync(old(f), f, n, off, piece, t).holds && Paid(old(f), f, n, off, |piece|, t).holds
      ensures Confined(old(disk), disk, {}, logged).holds
      ensures r.Moved? && t < |piece| ==> Exhausted(sb, f) && old(mem[n]).size <= off + t
      ensures NoLeak(old(f), old(owner)).holds ==> NoLeak(f, owner).holds
      ensures Settled(old(f), old(owner)).holds ==>
        (Settled(f, owner).holds <==> !r.Moved? || !CutAtTable(old(f), n, off, |piece|))
      ensures Settled(old(f), old(owner)).holds && r.Moved? && t == |piece| ==> Settled(f, owner).holds
    {
      BeginOp();
      ChunkFits(off, |piece|);
      r, t := Writei(n, piece, off);
      if r.Moved? {
        assert logged - {} == logged;
      }
      EndOp();
    }

    /** Writes addr to a regular file at off, a chunk to a transaction. tt bytes are written in the end, all
        of them exactly if there are enough free blocks; the answer is |addr| as soon as there are enough for
        every chunk but the last. Every chunk is a transaction of its own that stays within its quota, and no
        block changes outside one. */
    method Filewrite(n: nat, addr: seq<Byte>, off: Word) returns (r: int, ghost tt: nat)
      requires Valid() && !open && n in mem && mem[n].typ != T_DEV && f.IsInode(n) && HoleFree(f, n) && |addr| < 0x8000_0000
      modifies `disk, `mem, `f, `owner, `logged, `open, `done
      ensures !open && Sealed(old(disk), disk, old(done), done).holds
      ensures if r == |addr| then |done| == |old(done)| + Chunks(|addr|) else |old(done)| < |done| <= |old(done)| + Chunks(|addr|)
      ensures Valid() && n in mem && (r == |addr| || r == -1) && tt <= |addr|
      ensures old(mem[n]).size < off ==> f == old(f) && tt == 0 && r == if addr == [] then 0 else -1
      ensures addr == [] ==> r == 0
      ensures off <= old(mem[n]).size ==> Written(old(f), f, n, off, addr, tt).holds
      ensures off <= old(mem[n]).size ==>
        (tt == |addr| <==> off + |addr| <= MAXBYTES && Enough(old(f), n, off, |addr|).holds)
      ensures off <= old(mem[n]).size && addr != [] ==>
        (r == |addr| <==> off + |addr| <= MAXBYTES && Enough(old(f), n, off, LastChunk(|addr|)).holds)
      ensures off <= old(mem[n]).size && tt == |addr| ==> Ledger(old(f), f, n, off / BSIZE, EndBlock(off, |addr|)).holds
      ensures r == |addr| && tt < |addr| ==> Exhausted(sb, f) && |addr| - tt <= CHUNK
      ensures NoLeak(old(f), old(owner)).holds ==> NoLeak(f, owner).holds
      ensures Settled(old(f), old(owner)).holds && tt == |addr| ==> Settled(f, owner).holds
    {
      ghost var f0, own0 := f, owner;
      SizeBound(sb, f, owner, n);
      SendStart(sb, f, n, addr, off);
      BookedStart(f, owner, n, |addr|, off);
      ghost var d0, done0 := disk, done;
      SealedSelf(disk, done);
      tt := 0;
      var i: nat := 0;
      var going := true;
      while going && i < |addr|
        invariant Valid() && n in mem && i <= |addr| && (NoLeak(f0, own0).holds ==> NoLeak(f, owner).holds)
        invariant Sending(sb, f0, f, n, addr, off, i, tt, going).holds
        invariant Booked(f0, own0, f, owner, n, |addr|, off, i, tt, going).holds && (!going ==> i < |addr|)
        invariant !open && Sealed(d0, disk, done0, done).holds
        invariant |done| + Chunks(|addr| - i) == |done0| + Chunks(|addr|) + (if going then 0 else 1) && |done0| <= |done| && (!going ==> |done0| < |done|)
        decreases going, |addr| - i
      {
        ghost var d1, done1 := disk, done;
        going, i, tt := SendChunk(n, addr, off, i, tt, f0, own0);
        SealedOn(d0, d1, disk, done0, done1, done, logged);
      }
      SendEnd(sb, f0, f, n, addr, off, i, tt, going);
      BookedEnds(f0, own0, f, owner, n, |addr|, off, i, tt, going);
      r := if i == |addr| then |addr| else -1;
    }

    method SendChunk(n: nat, addr: seq<Byte>, off: Word, i: nat, ghost tt: nat, ghost f0: Files, ghost own0: map<nat, Slot>)
      returns (going: bool, i': nat, ghost tt': nat)
      requires Valid() && !open && n in mem && i < |addr| < 0x8000_0000
      requires Sending(sb, f0, f, n, addr, off, i, tt, true).holds
      requires Booked(f0, own0, f, owner, n, |addr|, off, i, tt, true).holds
      modifies `disk, `mem, `f, `owner, `logged, `open, `done
      ensures !open && Ended(old(done), done, logged).holds && |logged| <= MAXOPBLOCKS && Confined(old(disk), disk, {}, logged).holds
      ensures Valid() && n in mem && i' <= |addr| && i' == if going then i + Min(CHUNK, |addr| - i) else i
      ensures NoLeak(old(f), old(owner)).holds ==> NoLeak(f, owner).holds
      ensures Sending(sb, f0, f, n, addr, off, i', tt', going).holds
      ensures Booked(f0, own0, f, owner, n, |addr|, off, i', tt', going).holds
    {
      ghost var e, ownE := f, owner;
      SendFacts(sb, f0, f, n, addr, off, i, tt, true);
      BookedReady(f0, own0, f, owner, n, |addr|, off, i, tt);
      var n1 := Min(CHUNK, |addr| - i);
      var io;
      ghost var t;
      var o, piece := off + i, addr[i..i + n1];
      assert |piece| == n1;
      io, t := WriteChunk(n, piece, o);
      going := io.Moved?;
      i', tt' := if going then i + n1 else i, if going then tt + t else tt;
      WrittenWhole(e, f, n, o, piece, t, going);
      ChunkDone(sb, f0, own0, e, ownE, f, owner, n, addr, off, i, tt, o, n1, t, going, i', tt');
    }
  }
}
