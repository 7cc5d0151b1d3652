/** mkfs.c: building an image that the kernel's file system can start from. */
module Mkfs {
  import opened Basics
  import opened Words
  import opened Geometry
  import opened Layout
  import opened Ownership
  import opened FsSteps
  import opened FsLedger
  import opened MkfsSteps
  import opened MkfsLedger
  import opened RootDirectory
  import FileSystem

  /** freeblock++, then past the metadata of a group just entered. */
  method Skip(sb: Super, b: nat) returns (r: nat)
    requires sb.Start() <= b && 0 < sb.bpg
    ensures r == Next(sb, b)
  {
    r := b + 1;
    var relative := r - sb.Start();
    if relative % sb.bpg == 0 {
      r := r + sb.Meta();
    }
  }

  /** The image under construction. */
  class Image {
    const sb: Super
    var img: seq<Block>
    var freeblock: nat
    var freeinode: nat
    var mem: map<nat, Inode>         // the dinode iappend is working on

    ghost var f: Files
    ghost var owner: map<nat, Slot>
    ghost var tree: seq<seq<Byte>>   // the files, from inode 1

    /** A disk of zeroes; the first data block of group 0 is free next. */
    constructor (sb: Super)
      requires sb.Wf() && sb.Meta() < sb.bpg
      ensures Valid() && Between() && this.sb == sb && tree == []
    {
      var d := ZeroDisk(sb.size);
      var first := sb.Start() + sb.Meta();
      ghost var g := EmptyDraft(sb, d, first);
      BalanceStart(sb, d, g, first);
      this.sb := sb;
      img := d;
      freeblock := first;
      freeinode := 1;
      mem := map[];
      f := g;
      owner := map[];
      tree := [];
    }

    /** Between two calls: no dinode at hand, and the files are those of tree. */
    ghost predicate Between()
      reads this
    {
      mem == map[] && freeinode == |tree| + 1 && Balance(sb, f, tree).holds
    }

    ghost predicate Valid()
      reads this
    {
      && Draft(sb, img, mem, f).holds && f.mem == mem && Ok(sb, f, owner) && Pool(sb, f, freeblock).holds
      && NoLeak(f, owner).holds
    }

    predicate Room()
      reads this
    {
      freeblock < sb.GroupStart(sb.ngroups)
    }

    /** Hands out freeblock, which goes on to the next data block. */
    method AllocBlock() returns (b: Word)
      requires Draft(sb, img, mem, f).holds && f.mem == mem && Ok(sb, f, owner) && Pool(sb, f, freeblock).holds && Room()
      modifies `freeblock, `f
      ensures Draft(sb, img, mem, f).holds && f.mem == mem && Ok(sb, f, owner) && Pool(sb, f, freeblock).holds
      ensures b == old(freeblock) && old(freeblock) < freeblock && Free(old(f), b) && f == Grab(old(f), b)
    {
      PoolTake(sb, img, mem, f, freeblock);
      TakeOk(sb, f, owner, freeblock);
      b := freeblock;
      freeblock := Skip(sb, freeblock);
      f := Grab(f, b);
    }

    /** addrs[i] of the dinode at hand, allocated if it is missing; stops if there is no room. */
    method DirectBlock(n: nat, i: nat) returns (ok: bool, x: Word)
      requires Valid() && n in mem && i <= NDIRECT
      modifies `freeblock, `mem, `f, `owner
      ensures Valid() && n in mem && mem.Keys == old(mem).Keys && freeblock >= old(freeblock)
      ensures x == mem[n].addrs[i] && (ok <==> x != 0) && Step(old(f), f, Direct(n, i), x)
      ensures !ok ==> f == old(f) && !Room()
    {
      ok := true;
      x := mem[n].addrs[i];
      if x == 0 {
        ok := Room();
        if ok {
          x := HangBlock(n, i);
        }
      }
    }

    method HangBlock(n: nat, i: nat) returns (x: Word)
      requires Valid() && n in mem && i <= NDIRECT && mem[n].addrs[i] == 0 && Room()
      modifies `freeblock, `mem, `f, `owner
      ensures Valid() && n in mem && mem.Keys == old(mem).Keys && freeblock >= old(freeblock)
      ensures x == mem[n].addrs[i] != 0 && Step(old(f), f, Direct(n, i), x) && f != old(f)
    {
      ghost var f0 := f;
      x := AllocBlock();
      var next := mem[n := SetAddr(mem[n], i, x)];
      ghost var g, own := AttachDirect(f, n, i, x), owner[x := Direct(n, i)];
      BlockHung(sb, img, mem, f0, owner, n, i, x, freeblock, next, g, own);
      Become(next, g, own);
    }

    method Become(next: map<nat, Inode>, ghost g: Files, ghost own: map<nat, Slot>)
      requires Draft(sb, img, next, g).holds && g.mem == next && Pool(sb, g, freeblock).holds && Ok(sb, g, own) && NoLeak(g, own).holds
      modifies `mem, `f, `owner
      ensures Valid() && mem == next && f == g && owner == own
    {
      f, owner, mem := g, own, next;
    }

    /** Entry j of the dinode's indirect table, allocated if it is missing; stops if there is no room. */
    method EntryBlock(n: nat, j: nat) returns (ok: bool, x: Word)
      requires Valid() && n in mem && f.IsInode(n) && j < NINDIRECT && mem[n].addrs[NDIRECT] != 0
      modifies `freeblock, `img, `f, `owner
      ensures Valid() && f.IsInode(n) && freeblock >= old(freeblock)
      ensures x == f.Ptr(Entry(n, j)) && (ok <==> x != 0) && Step(old(f), f, Entry(n, j), x)
      ensures !ok ==> f == old(f) && !Room()
    {
      ok := true;
      DraftTable(sb, img, mem, f, owner, n, j);
      x := WordAt(img[mem[n].addrs[NDIRECT]], j);
      if x == 0 {
        ok := Room();
        if ok {
          x := HangEntryBlock(n, j);
        }
      }
    }

    method HangEntryBlock(n: nat, j: nat) returns (x: Word)
      requires Valid() && n in mem && f.IsInode(n) && j < NINDIRECT && Room()
      requires mem[n].addrs[NDIRECT] != 0 && f.Ptr(Entry(n, j)) == 0
      modifies `freeblock, `img, `f, `owner
      ensures Valid() && f.IsInode(n) && freeblock >= old(freeblock)
      ensures x != 0 && x == f.Ptr(Entry(n, j)) && Step(old(f), f, Entry(n, j), x) && f != old(f)
    {
      ghost var f0, d0, free0 := f, img, freeblock;
      var t := mem[n].addrs[NDIRECT];
      DraftTable(sb, img, mem, f, owner, n, j);
      x := AllocBlock();
      var next := img[t := PutWord(img[t], j, x)];
      ghost var own := owner[x := Entry(n, j)];
      ghost var g := EntryHung(sb, d0, mem, f0, owner, n, j, x, free0, freeblock, next, own);
      BecomeOnDisk(next, g, own);
    }

    method BecomeOnDisk(next: seq<Block>, ghost g: Files, ghost own: map<nat, Slot>)
      requires Draft(sb, next, mem, g).holds && g.mem == mem && Pool(sb, g, freeblock).holds && Ok(sb, g, own) && NoLeak(g, own).holds
      modifies `img, `f, `owner
      ensures Valid() && img == next && f == g && owner == own
    {
      f, owner, img := g, own, next;
    }

    /** The block for block fbn of the dinode at hand, or 0 if there is no room for it. */
    method BlockFor(n: nat, fbn: nat) returns (x: Word)
      requires Valid() && n in mem && f.IsInode(n) && fbn < MAXFILE
      modifies `freeblock, `img, `mem, `f, `owner
      ensures Valid() && n in mem && f.IsInode(n) && mem.Keys == old(mem).Keys && freeblock >= old(freeblock)
      ensures Mapped(old(f), f, n, fbn, x) && Turn(old(f), f, n, fbn, x).holds
    {
      var ok;
      if fbn < NDIRECT {
        ghost var f0 := f;
        ok, x := DirectBlock(n, fbn);
        MappedDirect(f0, f, n, fbn, x);
        if !ok {
          NoRoom(sb, img, mem, f, freeblock);
        }
        DirectTurn(f0, f, n, fbn, x);
      } else {
        x := IndirectBlock(n, fbn - NDIRECT);
      }
    }

    method IndirectBlock(n: nat, j: nat) returns (x: Word)
      requires Valid() && n in mem && f.IsInode(n) && j < NINDIRECT
      modifies `freeblock, `img, `mem, `f, `owner
      ensures Valid() && n in mem && f.IsInode(n) && mem.Keys == old(mem).Keys && freeblock >= old(freeblock)
      ensures Mapped(old(f), f, n, NDIRECT + j, x) && Turn(old(f), f, n, NDIRECT + j, x).holds
    {
      ghost var f0 := f;
      var ok, t := DirectBlock(n, NDIRECT);
      ghost var f1 := f;
      x := 0;
      if ok {
        ok, x := EntryBlock(n, j);
      } else {
        NoTableNoEntry(sb, f, owner, n, j);
        NoRoom(sb, img, mem, f, freeblock);
      }
      if !ok {
        NoRoom(sb, img, mem, f, freeblock);
      }
      MappedEntry(f0, f1, f, n, j, t, x);
      IndirectTurn(f0, f1, f, n, j, t, x);
    }

    method PutPiece(n: nat, o: nat, x: Word, piece: seq<Byte>)
      requires Valid() && n in mem && f.IsInode(n)
      requires 0 < |piece| && o % BSIZE + |piece| <= BSIZE && o + |piece| <= MAXBYTES
      requires x == f.Addr(n, o / BSIZE) && x != 0
      modifies `img, `f
      ensures Valid() && f.IsInode(n) && Wrote(old(f), f, n, o, piece, |piece|).holds && SamePtrs(old(f), f) && Stored(old(f), f).holds
    {
      AddrOwned(sb, f, owner, n, o / BSIZE);
      OwnedBelow(sb, img, mem, f, owner, freeblock, x);
      ghost var w := Splice(f.disk.data[x], o % BSIZE, piece);
      DraftStore(sb, img, mem, f, x, w);
      PoolStore(sb, f, freeblock, x, w);
      StoreOk(sb, f, owner, n, o / BSIZE, w);
      StoreBytes(sb, f, owner, n, o, piece);
      StorePtrs(sb, f, owner, n, o / BSIZE, w);
      StoreStored(sb, f, owner, n, o / BSIZE, w);
      img := img[x := Splice(img[x], o % BSIZE, piece)];
      f := Store(f, x, w);
    }

    /** Block by block: the bytes of piece, all in one block, or nothing if a is 0. */
    method AppendPiece(n: nat, o: nat, piece: seq<Byte>) returns (a: Word, ghost e: Files)
      requires Valid() && n in mem && f.IsInode(n)
      requires 0 < |piece| && o % BSIZE + |piece| <= BSIZE && o + |piece| <= MAXBYTES
      modifies `freeblock, `img, `mem, `f, `owner
      ensures Valid() && n in mem && f.IsInode(n) && mem.Keys == old(mem).Keys && freeblock >= old(freeblock)
      ensures PutOne(old(f), e, f, n, o, piece, a).holds
    {
      ghost var f0 := f;
      a := BlockFor(n, o / BSIZE);
      e := f;
      if a != 0 {
        PutPiece(n, o, a, piece);
        PieceOnly(f0, e, f, n, o / BSIZE, a);
        TurnStored(f0, e, f, n, o / BSIZE, a);
      }
    }

    method AppendAll(n: nat, xp: seq<Byte>, off: nat) returns (ok: bool)
      requires Valid() && n in mem && f.IsInode(n) && off <= MAXBYTES
      modifies `freeblock, `img, `mem, `f, `owner
      ensures Valid() && n in mem && f.IsInode(n) && mem.Keys == old(mem).Keys && freeblock >= old(freeblock)
      ensures ok ==> Growing(old(f), f, n, off, xp, |xp|).holds
      ensures ok <==> off + |xp| <= MAXBYTES && Enough(old(f), n, off, |xp|).holds
    {
      ghost var f0 := f;
      GrowingStart(f, n, off, xp);
      ok := true;
      var tot: nat := 0;
      while ok && tot < |xp|
        invariant Valid() && n in mem && f.IsInode(n) && mem.Keys == old(mem).Keys && freeblock >= old(freeblock)
        invariant tot <= |xp| && (off + |xp| <= MAXBYTES || ok ==> Round(f0, f, n, off, xp, tot, ok).holds)
        decreases ok, |xp| - tot
      {
        GrowingMeans(f0, f, n, off, xp, tot);
        if (off + tot) / BSIZE < MAXFILE {
          ok, tot := AppendNext(n, xp, off, tot, f0);
        } else {
          ok := false;
        }
      }
      if off + |xp| <= MAXBYTES {
        RoundEnds(f0, f, n, off, xp, tot, ok);
      } else if ok {
        GrowingMeans(f0, f, n, off, xp, tot);
      }
    }

    /** One round of iappend's loop. */
    method AppendNext(n: nat, xp: seq<Byte>, off: nat, tot: nat, ghost f0: Files) returns (ok: bool, t: nat)
      requires Valid() && n in mem && f.IsInode(n) && tot < |xp| && (off + tot) / BSIZE < MAXFILE
      requires Growing(f0, f, n, off, xp, tot).holds
      modifies `freeblock, `img, `mem, `f, `owner
      ensures Valid() && n in mem && f.IsInode(n) && mem.Keys == old(mem).Keys && freeblock >= old(freeblock)
      ensures t <= |xp| && (ok ==> tot < t) && Round(f0, f, n, off, xp, t, ok).holds
    {
      var piece := NextPiece(xp, off, tot);
      ghost var f1, e := f, f;
      var o, a := off + tot, 0;
      a, e := AppendPiece(n, o, piece);
      ok, t := a != 0, if a != 0 then tot + |piece| else tot;
      RoundOn(f0, f1, e, f, n, off, xp, tot, o, |piece|, piece, a, t);
    }

    /** Appends xp to inode n; stops exactly if the file gets too long or the image has no room for it. */
    method Iappend(n: nat, xp: seq<Byte>) returns (ok: bool)
      requires Valid() && mem == map[] && n < sb.ninodes && f.IsInode(n) && f.disk.dinode[n].typ != 0
      modifies `freeblock, `img, `mem, `f, `owner
      ensures Valid() && freeblock >= old(freeblock)
      ensures ok ==> mem == map[] && Longer(old(f), f, n, xp).holds
      ensures ok <==> AppendFits(old(f), n, |xp|).holds
    {
      ghost var f0 := f;
      var din := Rinode(n);
      ghost var f1 := f;
      ok := AppendAll(n, xp, din.size);
      EnoughLoaded(f0, f1, n, din.size, |xp|);
      if ok {
        ghost var f2 := f;
        var size := din.size + |xp|;
        Finish(n, size);
        LongerBy(f0, f1, f2, f, n, din.size, xp, |xp|, size);
      }
    }

    method Finish(n: nat, size: Word)
      requires Valid() && n in mem && n < sb.ninodes && f.IsInode(n) && size <= MAXBYTES
      modifies `img, `mem, `f
      ensures Valid() && mem == old(mem) - {n} && Flushed(old(f), f, n, size).holds
    {
      ghost var f2 := f;
      SetDinodeSize(n, size);
      Winode(n);
      assert Finished(f2, f, n, size).holds;
    }

    method Rinode(n: nat) returns (din: Inode)
      requires Valid() && mem == map[] && n < sb.ninodes && f.IsInode(n) && f.disk.dinode[n].typ != 0
      modifies `mem, `f
      ensures Valid() && old(f).IsInode(n) && din == old(f).disk.dinode[n] && mem == map[n := din] && f.IsInode(n) && din.size <= MAXBYTES
      ensures Loaded(old(f), f, n).holds
    {
      DraftInode(sb, img, mem, f, n, f.disk.dinode[n]);
      din := GetInode(img[sb.InodeBlock(n)], n % IPB);
      LoadOk(sb, f, owner, n);
      SizeFits(sb, f, owner, n);
      DraftMem(sb, img, mem, f, mem[n := din]);
      PoolMem(sb, f, Load(f, n), freeblock);
      mem := mem[n := din];
      f := Load(f, n);
    }

    method SetDinodeSize(n: nat, size: Word)
      requires Valid() && n in mem && size <= MAXBYTES
      modifies `mem, `f
      ensures Valid() && mem == old(mem)[n := WithSize(old(mem)[n], size)]
      ensures f == Retag(old(f), n, WithSize(old(mem)[n], size)) && SameBytes(old(f), f) && SamePtrs(old(f), f)
    {
      TypeSet(sb, f, owner, n);
      var ip := WithSize(mem[n], size);
      RetagOk(sb, f, owner, n, ip);
      DraftMem(sb, img, mem, f, mem[n := ip]);
      PoolMem(sb, f, Retag(f, n, ip), freeblock);
      mem := mem[n := ip];
      f := Retag(f, n, ip);
    }

    method Winode(n: nat)
      requires Valid() && n in mem && n < sb.ninodes
      modifies `img, `mem, `f
      ensures Valid() && mem == old(mem) - {n}
      ensures n in old(f).mem && old(f).IsInode(n) && f == Reset(old(f), n, old(f).mem[n]) && SameBytes(old(f), f) && SamePtrs(old(f), f)
    {
      FlushOk(sb, f, owner, n);
      DraftInode(sb, img, mem, f, n, mem[n]);
      PoolMem(sb, f, Reset(f, n, mem[n]), freeblock);
      var b := sb.InodeBlock(n);
      img := img[b := PutInode(img[b], n % IPB, mem[n])];
      f := Reset(f, n, mem[n]);
      mem := mem - {n};
    }

    // ----- main -----

    /** The next inode, with one link; stops if there is none left. */
    method Ialloc(typ: Half) returns (ok: bool, n: nat)
      requires Valid() && Between() && typ == KindOf(|tree| + 1)
      modifies `img, `freeinode, `f, `owner, `tree
      ensures Valid() && Between() && (ok <==> |old(tree)| + 1 < sb.ninodes)
      ensures ok ==> n == |tree| && tree == old(tree) + [[]]
      ensures !ok ==> tree == old(tree)
    {
      n := freeinode;
      ok := n < sb.ninodes;
      if ok {
        freeinode := freeinode + 1;
        Bear(n, typ);
      }
    }

    /** The image with inode n in its place. */
    method Inscribe(n: nat, ip: Inode) returns (next: seq<Block>)
      requires Draft(sb, img, mem, f).holds && n < sb.ninodes
      ensures Inscribed(sb, img, n, ip, next).holds
    {
      DraftInode(sb, img, mem, f, n, ip);
      var b := sb.InodeBlock(n);
      next := img[b := PutInode(img[b], n % IPB, ip)];
    }

    method Bear(n: nat, typ: Half)
      requires Valid() && mem == map[] && Balance(sb, f, tree).holds && n == |tree| + 1 < sb.ninodes && typ == KindOf(n)
      modifies `img, `f, `owner, `tree
      ensures Valid() && Balance(sb, f, tree).holds && tree == old(tree) + [[]]
    {
      BornAt(sb, img, mem, f, n);
      var next := Inscribe(n, NewInode(typ));
      ghost var g := Reset(f, n, NewInode(typ));
      ghost var t := tree + [[]];
      BornHere(sb, img, mem, f, owner, tree, n, freeblock, typ, next, g, t);
      BecomeOnDisk(next, g, owner);
      tree := t;
    }

    /** The image has room for the files in t. */
    predicate Holds(t: seq<seq<Byte>>)
    {
      Total(t) <= DataCount(sb)
    }

    method Append(n: nat, xp: seq<Byte>) returns (ok: bool)
      requires Valid() && Between() && 1 <= n <= |tree|
      modifies `freeblock, `img, `mem, `f, `owner, `tree
      ensures ok ==> Valid() && Between() && tree == old(tree)[n - 1 := old(tree)[n - 1] + xp]
      ensures ok <==> |old(tree)[n - 1]| + |xp| <= MAXBYTES && Holds(old(tree)[n - 1 := old(tree)[n - 1] + xp])
    {
      DraftCount(sb, img, mem, f, n);
      BalanceFile(sb, f, tree, n);
      ghost var f0, off := f, |tree[n - 1]|;
      BalanceFits(sb, f, tree, n, off, xp);
      ok := Iappend(n, xp);
      if ok {
        BalanceAppended(sb, f0, f, tree, n, off, xp);
        tree := tree[n - 1 := tree[n - 1] + xp];
      }
    }

    /** Copies a file's data a block at a time. */
    method AppendData(n: nat, data: seq<Byte>) returns (ok: bool)
      requires Valid() && Between() && 1 <= n <= |tree| && tree[n - 1] == []
      modifies `freeblock, `img, `mem, `f, `owner, `tree
      ensures ok ==> Valid() && Between() && tree == old(tree)[n - 1 := data]
      ensures ok <==> |data| <= MAXBYTES && Holds(old(tree)[n - 1 := data])
    {
      ok := true;
      var off: nat := 0;
      ghost var t := tree;
      assert t[n - 1 := data[..0]] == t;
      BalanceHolds(sb, f, t);
      while ok && off < |data|
        invariant off <= |data| && (ok ==> Valid() && Between() && tree == t[n - 1 := data[..off]])
        invariant ok <==> off <= MAXBYTES && Holds(t[n - 1 := data[..off]])
        decreases ok, |data| - off
      {
        var cc := Min(BSIZE, |data| - off);
        ok := Append(n, data[off..off + cc]);
        TotalStep(t, n - 1, data, off, cc);
        off := off + cc;
      }
      assert data[..|data|] == data;
      TotalPrefix(t, n - 1, data, off);
    }

    /** A new inode with an entry for it in the root directory. */
    method Enter(name: seq<Byte>) returns (ok: bool, n: nat)
      requires Valid() && Between() && 1 <= |tree|
      modifies `freeblock, `freeinode, `img, `mem, `f, `owner, `tree
      ensures ok ==> Valid() && Between() && n == |old(tree)| + 1
      ensures ok ==> tree == old(tree)[0 := old(tree)[0] + Dirent(n, name)] + [[]]
      ensures ok <==>
        && |old(tree)| + 1 < sb.ninodes && |old(tree)[0]| + 2 + DIRSIZ <= MAXBYTES
        && Holds(old(tree)[0 := old(tree)[0] + Dirent(|old(tree)| + 1, name)])
    {
      ghost var t := tree;
      ok, n := Ialloc(T_FILE);
      if ok {
        TotalSnoc(t[0 := t[0] + Dirent(n, name)]);
        assert tree[0 := tree[0] + Dirent(n, name)] == t[0 := t[0] + Dirent(n, name)] + [[]];
        ok := Append(1, Dirent(n, name));
      }
    }

    method AddFile(files: seq<Source>, k: nat) returns (ok: bool)
      requires Valid() && Between() && k < |files| && Listed(files, k, tree).holds && Fitting(sb, files, k).holds
      modifies `freeblock, `freeinode, `img, `mem, `f, `owner, `tree
      ensures ok ==> Valid() && Between() && Listed(files, k + 1, tree).holds
      ensures ok <==> Fitting(sb, files, k + 1).holds
    {
      ghost var t := tree;
      assert |t| == k + 1 by { ListedSize(files, k, t); }
      FitsNext(sb, files, k, t);
      ok := SLASH !in files[k].name;
      if ok {
        ok := AddNamed(files[k]);
        if ok {
          Entered(files, k, t, tree);
        }
      }
    }

    /** The next inode, its entry in the root directory, and the data. */
    method AddNamed(file: Source) returns (ok: bool)
      requires Valid() && Between() && 1 <= |tree|
      modifies `freeblock, `freeinode, `img, `mem, `f, `owner, `tree
      ensures ok ==> Valid() && Between() && tree == WithFile(old(tree), file)
      ensures ok <==> FileFits(sb, old(tree), file)
    {
      var n;
      ok, n := Enter(Stripped(file.name));
      if ok {
        ok := AppendData(n, file.data);
      }
    }

    /** The root directory with "." and "..". */
    method MakeRoot(files: seq<Source>) returns (ok: bool)
      requires Valid() && Between() && tree == []
      modifies `freeblock, `freeinode, `img, `mem, `f, `owner, `tree
      ensures ok ==> Valid() && Between() && Listed(files, 0, tree).holds
      ensures ok <==> Fitting(sb, files, 0).holds
    {
      var root;
      RootEntered(files);
      ghost var d, e := Dirent(1, [DOT]), Dirent(1, [DOT, DOT]);
      RootFits(sb, files, d, e);
      RootTrees(d, e);
      ok, root := Ialloc(T_DIR);
      if ok {
        ok := Append(root, Dirent(root, [DOT]));
      }
      if ok {
        ok := Append(root, Dirent(root, [DOT, DOT]));
      }
    }

    /** The root directory, then each file. */
    method Populate(files: seq<Source>) returns (ok: bool)
      requires Valid() && Between() && tree == []
      modifies `freeblock, `freeinode, `img, `mem, `f, `owner, `tree
      ensures ok ==> Valid() && Between() && Listed(files, |files|, tree).holds
      ensures ok <==> Fitting(sb, files, |files|).holds
    {
      ok := MakeRoot(files);
      var k := 0;
      while ok && k < |files|
        invariant k <= |files|
        invariant ok ==> Valid() && Between() && Listed(files, k, tree).holds
        invariant ok <==> Fitting(sb, files, k).holds
        decreases ok, |files| - k
      {
        ok := AddFile(files, k);
        k := k + 1;
      }
      if Fitting(sb, files, |files|).holds {
        FittingLess(sb, files, k, |files|);
      }
    }

    /** Rounds the root directory's size up to a multiple of BSIZE that is larger than it. */
    method FixRoot() returns (ok: bool)
      requires Valid() && Between() && 1 <= |tree|
      modifies `img, `mem, `f
      ensures ok <==> Rounded(|tree[0]|) <= MAXBYTES
      ensures ok ==> Valid() && mem == map[] && RootHolds(f, tree[0]).holds && |FreeSet(f)| == DataCount(sb) - Total(tree)
      ensures ok ==> OthersHeld(f, tree).holds
    {
      BalanceFile(sb, f, tree, 1);
      DraftCount(sb, img, mem, f, 1);
      ghost var f0 := f;
      var din := Rinode(1);
      ghost var f1 := f;
      var off := (din.size / BSIZE + 1) * BSIZE;
      ok := off <= MAXBYTES;
      if ok {
        Finish(1, off);
        RootFixed(sb, f0, f1, f, tree, off);
      }
    }

    /** The bitmap of group g: its metadata, and its data blocks below freeblock. */
    method GroupBitmap(g: nat) returns (buf: Block)
      requires Pool(sb, f, freeblock).holds
      ensures forall i: nat :: i < BPB ==> (Bit(buf, i) <==> Marked(sb, freeblock, g, i))
    {
      GroupFits(sb, f, freeblock);
      buf := ZeroBlock;
      NoBits();
      var i := 0;
      while i < sb.Meta()
        invariant i <= sb.Meta() && forall j: nat :: j < BPB ==> (Bit(buf, j) <==> j < i)
      {
        buf := WithBitAt(buf, i, true);
        i := i + 1;
      }
      i := sb.Meta();
      while i < sb.bpg
        invariant sb.Meta() <= i <= sb.bpg
        invariant forall j: nat :: j < BPB ==> (Bit(buf, j) <==> j < i && Marked(sb, freeblock, g, j))
      {
        if sb.GroupStart(g) + i < freeblock {
          buf := WithBitAt(buf, i, true);
        }
        i := i + 1;
      }
    }

    /** Writes the bitmaps; the image then means what was built. */
    method WriteBitmaps()
      requires Valid() && mem == map[]
      modifies `img
      ensures Shows(sb, img, map[], f)
    {
      MarkStart(sb, img, mem, f, freeblock);
      var g := 0;
      while g < sb.ngroups
        invariant g <= sb.ngroups && Mark(sb, img, f, g).holds && Pool(sb, f, freeblock).holds
      {
        var buf := GroupBitmap(g);
        MarkGroup(sb, img, f, g, freeblock, buf);
        img := img[sb.BitmapOf(g) := buf];
        g := g + 1;
      }
      MarkEnd(sb, img, f, freeblock);
    }
  }

  method ZeroDisk(n: nat) returns (d: seq<Block>)
    ensures |d| == n && forall b :: 0 <= b < n ==> d[b] == ZeroBlock
  {
    d := [];
    while |d| < n
      invariant |d| <= n && forall b :: 0 <= b < |d| ==> d[b] == ZeroBlock
    {
      d := d + [ZeroBlock];
    }
  }

  /** mkfs: an image the kernel can use, with every file in it, no block shared, none lost and none
      missing except possibly one in the root directory. It gets through exactly if there are inodes and data
      blocks for all of them and none is too long. The superblock is written last; nothing else goes to block 1. */
  method Format(sb: Super, files: seq<Source>) returns (ok: bool, v: FileSystem.Volume?)
    requires Storable(sb) && sb.Meta() < sb.bpg
    ensures ok <==> FitsFirst(sb, files, |files|) && Rounded((|files| + 2) * (2 + DIRSIZ)) <= MAXBYTES
    ensures ok ==> v != null && fresh(v) && v.sb == sb && v.Valid() && v.mem == map[] && v.ref == map[] && !v.open && Settled(v.f, v.owner).holds
    ensures ok ==> 1 < |v.disk| && v.disk[1] == SuperBlock(sb) && ReadSuper(v.disk[1]) == sb
    ensures ok ==> RootHolds(v.f, Listing(files, |files|)).holds && Lists(Listing(files, |files|), files)
    ensures ok ==> forall k :: 0 <= k < |files| ==> Held(v.f, k + 2, files[k].data)
    ensures ok ==> |FreeSet(v.f)| == DataCount(sb) - Required(files, |files|)
    ensures ok ==> forall b :: Free(v.f, b) ==> v.f.disk.data[b] == ZeroBlock
  {
    v := null;
    var im := new Image(sb);
    FittingIs(sb, files, |files|);
    ok := im.Populate(files);
    if ok {
      ListedSize(files, |files|, im.tree);
      TotalRequired(files, |files|, im.tree);
      ok := im.FixRoot();
    }
    if ok {
      im.WriteBitmaps();
      SuperShows(sb, im.img, im.f, SuperBlock(sb));
      SuperRoundTrip(sb);
      v := new FileSystem.Volume(sb, im.img[1 := SuperBlock(sb)], im.f, im.owner);
      SettledMeans(v.f, v.owner);
      PoolZero(sb, im.img, im.f, im.freeblock);
      FilesHeld(v.f, files, im.tree);
      ListingReads(files, |files|);
      assert files[..|files|] == files;
    }
  }
}
