/** The quota of filewrite is tight: a chunk can need all MAXOPBLOCKS blocks of its transaction. */
module WorstCase {
  import opened Basics
  import opened Words
  import opened Geometry
  import opened Layout
  import opened Ownership
  import opened FsSteps
  import opened FsLedger
  import opened FileSystem
  import opened MkfsSteps
  import opened MkfsLedger
  import Mkfs

  /** Free blocks are zero, and no two of them are in the same group. */
  ghost predicate Scattered(sb: Super, f: Files) {
    && 0 < sb.bpg && (forall b :: Free(f, b) ==> sb.Start() <= b && f.disk.data[b] == ZeroBlock)
    && (forall b, c :: Free(f, b) && Free(f, c) && b != c ==> sb.Group(b) != sb.Group(c))
  }

  /** A file of NDIRECT blocks, the last one not full, with no indirect table. */
  ghost predicate AtTheEdge(f: Files, n: nat) {
    && f.IsInode(n) && n in f.mem && f.mem[n].typ != T_DEV && HoleFree(f, n) && Synced(f, n)
    && f.mem[n].addrs[NDIRECT] == 0 && f.mem[n].size / BSIZE == NDIRECT - 1 && f.mem[n].size % BSIZE != 0
    && f.FileByte(n, f.mem[n].size) == 0
  }

  // ----- what changed on disk -----

  lemma BitDiffers(sb: Super, d: seq<Block>, e: seq<Block>, f: Fs, g: Fs, b: nat)
    requires IsView(sb, d, f) && IsView(sb, e, g) && sb.Managed(b) && b !in f.used && b in g.used
    ensures var m := sb.BitmapBlock(b);
      m < |d| && m < |e| && d[m] != e[m] && sb.Managed(m) && sb.Index(m) == sb.Meta() - 1 && sb.Group(m) == sb.Group(b)
  {
    Located(sb, b);
    BitmapRegion(sb, sb.Group(b));
  }

  lemma InodeDiffers(sb: Super, d: seq<Block>, e: seq<Block>, f: Fs, g: Fs, n: nat)
    requires IsView(sb, d, f) && IsView(sb, e, g) && n < sb.ninodes && f.dinode[n] != g.dinode[n]
    ensures var m := sb.InodeBlock(n); m < |d| && m < |e| && d[m] != e[m] && sb.Managed(m) && sb.Index(m) < sb.Meta() - 1
  {
    InodeRegion(sb, n);
  }

  lemma DataDiffers(sb: Super, d: seq<Block>, e: seq<Block>, f: Fs, g: Fs, b: nat)
    requires IsView(sb, d, f) && IsView(sb, e, g) && b in f.data && b in g.data && b != 0 && f.data[b] != g.data[b]
    ensures b < |d| && b < |e| && d[b] != e[b] && sb.Managed(b) && sb.Index(b) >= sb.Meta()
  {
  }

  /** A block that a slot of n has gained was free. */
  lemma WasFree(f: Files, g: Files, owner: map<nat, Slot>, own: map<nat, Slot>, n: nat, s: Slot)
    requires Good(f, owner) && Good(g, own) && NoLeak(f, owner).holds && Steady(f, g, n).holds && g.disk.data.Keys == f.disk.data.Keys
    requires f.IsSlot(s) && f.Ptr(s) == 0 && g.Ptr(s) != 0
    ensures var b := g.Ptr(s); Free(f, b) && b in g.disk.used
  {
    var b := g.Ptr(s);
    assert g.IsSlot(s) && own[b] == s;
  }

  lemma TwoMaps(sb: Super, b: nat, c: nat)
    requires sb.Wf() && sb.Managed(b) && sb.Managed(c) && sb.Group(b) != sb.Group(c)
    ensures sb.BitmapBlock(b) != sb.BitmapBlock(c)
  {
    Located(sb, b);
    Located(sb, c);
    BitmapRegion(sb, sb.Group(b));
    BitmapRegion(sb, sb.Group(c));
  }

  // ----- the ten blocks -----

  /** Entry j of the table, the last block and the table itself, before and after. */
  lemma EdgeBefore(f: Files, owner: map<nat, Slot>, n: nat, j: nat)
    requires Good(f, owner) && AtTheEdge(f, n) && j < NINDIRECT
    ensures f.Ptr(Direct(n, NDIRECT)) == 0 && f.Ptr(Entry(n, j)) == 0 && f.Ptr(Direct(n, NDIRECT - 1)) != 0
  {
    ZeroWords();
    assert f.Addr(n, NDIRECT - 1) != 0;
  }

  lemma EdgeAfter(sb: Super, f: Files, g: Files, own: map<nat, Slot>, n: nat, piece: seq<Byte>, j: nat)
    requires Ok(sb, g, own) && AtTheEdge(f, n) && |piece| == CHUNK && Written(f, g, n, f.mem[n].size, piece, CHUNK).holds && j < 3
    ensures g.IsInode(n) && g.Ptr(Entry(n, j)) != 0 && g.Ptr(Direct(n, NDIRECT)) != 0
  {
    assert g.Cur(n).size == f.mem[n].size + CHUNK;
    assert (NDIRECT + j) * BSIZE < g.Cur(n).size;
    assert g.Addr(n, NDIRECT + j) != 0;
    EntryHasTable(sb, g, own, n, j);
  }

  /** The block of the file at o has changed if the byte there has. */
  lemma ByteDiffers(f: Files, g: Files, n: nat, o: nat, b: nat)
    requires f.IsInode(n) && g.IsInode(n) && o < MAXBYTES && g.Addr(n, o / BSIZE) == b && b in f.disk.data && b in g.disk.data
    requires f.disk.data[b] == ZeroBlock || f.Addr(n, o / BSIZE) == b
    requires g.FileByte(n, o) != 0 && f.FileByte(n, o) == 0
    ensures f.disk.data[b] != g.disk.data[b]
  {
  }

  lemma TableDiffers(f: Files, g: Files, n: nat, t: nat)
    requires g.IsInode(n) && g.Cur(n).addrs[NDIRECT] == t && g.Ptr(Entry(n, 0)) != 0 && t in f.disk.data && t in g.disk.data && f.disk.data[t] == ZeroBlock
    ensures f.disk.data[t] != g.disk.data[t]
  {
    ZeroWords();
    assert WordAt(g.disk.data[t], 0) != 0;
  }

  /** Four different bitmap blocks, five different data blocks and an inode block. */
  lemma TenApart(sb: Super, maps: seq<nat>, data: seq<nat>, inode: nat, log: set<nat>)
    requires 0 < sb.bpg && |maps| == 4 && |data| == 5
    requires forall i, j :: 0 <= i < j < 4 ==> maps[i] != maps[j]
    requires forall i, j :: 0 <= i < j < 5 ==> data[i] != data[j]
    requires forall i :: 0 <= i < 4 ==> maps[i] in log && sb.Start() <= maps[i] && sb.Index(maps[i]) == sb.Meta() - 1
    requires forall i :: 0 <= i < 5 ==> data[i] in log && sb.Start() <= data[i] && sb.Index(data[i]) >= sb.Meta()
    requires inode in log && sb.Start() <= inode && sb.Index(inode) < sb.Meta() - 1
    ensures |log| >= 10
  {
    var m := {maps[0], maps[1], maps[2], maps[3]};
    var d := {data[0], data[1], data[2], data[3], data[4]};
    assert |m| == 4 && |d| == 5;
    assert m !! d && inode !in m + d;
    assert |m + d + {inode}| == 10;
    SubsetSize(m + d + {inode}, log);
  }

  /** A chunk appended to a file at its edge: what was before and what is after it. */
  datatype Append = Append(sb: Super, d: seq<Block>, e: seq<Block>, f: Files, g: Files, owner: map<nat, Slot>, own: map<nat, Slot>,
                           n: nat, piece: seq<Byte>, log: set<nat>)

  ghost function Appended(a: Append): (r: Claim) {
    Claim(forall x {:trigger Open(x)} :: x == a.sb && Open(x) ==>
      && IsView(x, a.d, a.f.disk) && IsView(x, a.e, a.g.disk) && Confined(a.d, a.e, {}, a.log).holds && a.f.IsInode(a.n)
      && Good(a.f, a.owner) && Good(a.g, a.own) && NoLeak(a.f, a.owner).holds && Ok(x, a.g, a.own) && Scattered(x, a.f)
      && AtTheEdge(a.f, a.n) && |a.piece| == CHUNK && (forall k :: 0 <= k < CHUNK ==> a.piece[k] != 0)
      && WrittenSync(a.f, a.g, a.n, a.f.mem[a.n].size, a.piece, CHUNK).holds)
  }

  lemma AppendOwners(a: Append)
    requires Appended(a).holds
    ensures Good(a.f, a.owner) && Good(a.g, a.own) && NoLeak(a.f, a.owner).holds && Steady(a.f, a.g, a.n).holds
    ensures a.g.disk.data.Keys == a.f.disk.data.Keys
  {
    assert Open(a.sb);
  }

  lemma AppendViews(a: Append)
    requires Appended(a).holds
    ensures IsView(a.sb, a.d, a.f.disk) && IsView(a.sb, a.e, a.g.disk) && Confined(a.d, a.e, {}, a.log).holds
  {
    assert Open(a.sb);
  }

  lemma AppendEdge(a: Append)
    requires Appended(a).holds
    ensures AtTheEdge(a.f, a.n) && Good(a.f, a.owner) && Scattered(a.sb, a.f)
  {
    assert Open(a.sb);
  }

  lemma AppendSlots(a: Append, j: nat)
    requires Appended(a).holds && j < 3
    ensures a.f.IsInode(a.n) && a.g.IsInode(a.n)
    ensures a.f.Ptr(Entry(a.n, j)) == 0 && a.f.Ptr(Direct(a.n, NDIRECT)) == 0 && a.f.Ptr(Direct(a.n, NDIRECT - 1)) != 0
    ensures a.g.Ptr(Entry(a.n, j)) != 0 && a.g.Ptr(Direct(a.n, NDIRECT)) != 0
  {
    assert Open(a.sb);
    EdgeBefore(a.f, a.owner, a.n, j);
    EdgeAfter(a.sb, a.f, a.g, a.own, a.n, a.piece, j);
  }

  lemma Gained(a: Append, s: Slot)
    requires Appended(a).holds && a.f.IsSlot(s) && a.g.IsSlot(s) && a.f.Ptr(s) == 0 && a.g.Ptr(s) != 0
    ensures Free(a.f, a.g.Ptr(s)) && a.g.Ptr(s) in a.g.disk.used && a.g.Ptr(s) in a.g.disk.data
  {
    AppendOwners(a);
    WasFree(a.f, a.g, a.owner, a.own, a.n, s);
  }

  lemma ByteWritten(a: Append, o: nat)
    requires Appended(a).holds && o < MAXBYTES && a.n in a.f.mem && a.f.mem[a.n].size <= o < a.f.mem[a.n].size + CHUNK
    ensures a.f.IsInode(a.n) && a.g.IsInode(a.n) && a.g.FileByte(a.n, o) != 0
  {
    assert Open(a.sb);
  }

  /** The slots of the blocks that change: data blocks 0 to 2 and the table are new, the last block is not. */
  ghost function Slot5(n: nat, i: nat): (s: Slot) {
    if i < 3 then Entry(n, i) else if i == 3 then Direct(n, NDIRECT) else Direct(n, NDIRECT - 1)
  }

  lemma NewBlock(a: Append, i: nat)
    requires Appended(a).holds && i < 4
    ensures a.g.IsInode(a.n)
    ensures var b := a.g.Ptr(Slot5(a.n, i)); Free(a.f, b) && b in a.g.disk.used && b in a.g.disk.data
  {
    AppendSlots(a, if i < 3 then i else 0);
    Gained(a, Slot5(a.n, i));
  }

  lemma NewBlockZero(a: Append, i: nat)
    requires Appended(a).holds && i < 4
    ensures a.g.IsInode(a.n) && a.g.Ptr(Slot5(a.n, i)) in a.f.disk.data && a.f.disk.data[a.g.Ptr(Slot5(a.n, i))] == ZeroBlock
  {
    NewBlock(a, i);
    AppendEdge(a);
  }

  lemma EdgeSize(a: Append)
    requires Appended(a).holds
    ensures a.n in a.f.mem && a.f.IsInode(a.n) && a.g.IsInode(a.n)
    ensures (NDIRECT - 1) * BSIZE < a.f.mem[a.n].size < NDIRECT * BSIZE && a.f.FileByte(a.n, a.f.mem[a.n].size) == 0
  {
    AppendEdge(a);
    AppendSlots(a, 0);
  }

  lemma HoleByte(f: Files, owner: map<nat, Slot>, n: nat, o: nat)
    requires Good(f, owner) && f.IsInode(n) && o < MAXBYTES && f.Addr(n, o / BSIZE) == 0
    ensures f.FileByte(n, o) == 0
  {
  }

  lemma EntryByte(a: Append, i: nat)
    requires Appended(a).holds && i < 3
    ensures var o := (NDIRECT + i) * BSIZE;
      a.f.IsInode(a.n) && a.g.IsInode(a.n) && a.f.FileByte(a.n, o) == 0 && a.g.FileByte(a.n, o) != 0 && o / BSIZE == NDIRECT + i
  {
    var o := (NDIRECT + i) * BSIZE;
    EdgeSize(a);
    AppendSlots(a, i);
    ByteWritten(a, o);
    HoleByte(a.f, a.owner, a.n, o) by { AppendOwners(a); }
  }

  lemma EntryChanged(a: Append, i: nat)
    requires Appended(a).holds && i < 3
    ensures a.g.IsInode(a.n)
    ensures var b := a.g.Ptr(Slot5(a.n, i)); b in a.f.disk.data && b in a.g.disk.data && a.f.disk.data[b] != a.g.disk.data[b]
  {
    NewBlock(a, i);
    NewBlockZero(a, i);
    EntryByte(a, i);
    ByteDiffers(a.f, a.g, a.n, (NDIRECT + i) * BSIZE, a.g.Ptr(Entry(a.n, i)));
  }

  lemma TableChanged(a: Append)
    requires Appended(a).holds
    ensures a.g.IsInode(a.n)
    ensures var b := a.g.Ptr(Slot5(a.n, 3)); b in a.f.disk.data && b in a.g.disk.data && a.f.disk.data[b] != a.g.disk.data[b]
  {
    NewBlock(a, 3);
    NewBlockZero(a, 3);
    AppendSlots(a, 0);
    TableDiffers(a.f, a.g, a.n, a.g.Ptr(Direct(a.n, NDIRECT)));
  }

  lemma PtrStays(f: Files, g: Files, owner: map<nat, Slot>, n: nat, s: Slot)
    requires Good(f, owner) && Steady(f, g, n).holds && f.IsSlot(s) && g.IsSlot(s) && f.Ptr(s) != 0
    ensures g.Ptr(s) == f.Ptr(s) && f.Ptr(s) in f.disk.used && f.Ptr(s) in f.disk.data
  {
  }

  lemma Stays(a: Append, s: Slot)
    requires Appended(a).holds && a.f.IsSlot(s) && a.g.IsSlot(s) && a.f.Ptr(s) != 0
    ensures var b := a.g.Ptr(s); b == a.f.Ptr(s) && b in a.f.disk.used && b in a.f.disk.data && b in a.g.disk.data
  {
    AppendOwners(a);
    PtrStays(a.f, a.g, a.owner, a.n, s);
  }

  lemma LastStays(a: Append)
    requires Appended(a).holds
    ensures a.f.IsInode(a.n) && a.g.IsInode(a.n)
    ensures var s := Slot5(a.n, 4); var b := a.g.Ptr(s); b != 0 && b == a.f.Ptr(s) && b in a.f.disk.used && b in a.f.disk.data && b in a.g.disk.data
  {
    AppendSlots(a, 0);
    Stays(a, Slot5(a.n, 4));
  }

  lemma LastChanged(a: Append)
    requires Appended(a).holds
    ensures a.g.IsInode(a.n)
    ensures var b := a.g.Ptr(Slot5(a.n, 4)); b in a.f.disk.data && b in a.g.disk.data && a.f.disk.data[b] != a.g.disk.data[b]
  {
    LastStays(a);
    EdgeSize(a);
    var o: nat := a.f.mem[a.n].size;
    ByteWritten(a, o);
    ByteDiffers(a.f, a.g, a.n, o, a.g.Ptr(Slot5(a.n, 4)));
  }

  lemma DataLogged(a: Append, i: nat)
    requires Appended(a).holds && i < 5
    ensures a.g.IsInode(a.n) && 0 < a.sb.bpg
    ensures var b := a.g.Ptr(Slot5(a.n, i)); b in a.log && a.sb.Start() <= b && a.sb.Index(b) >= a.sb.Meta()
  {
    if i < 3 {
      EntryChanged(a, i);
    } else if i == 3 {
      TableChanged(a);
    } else {
      LastChanged(a);
    }
    if i < 4 {
      NewBlock(a, i);
    } else {
      LastStays(a);
    }
    AppendViews(a);
    ConfinedMeans(a.d, a.e, {}, a.log);
    DataDiffers(a.sb, a.d, a.e, a.f.disk, a.g.disk, a.g.Ptr(Slot5(a.n, i)));
  }

  lemma MapLogged(a: Append, i: nat)
    requires Appended(a).holds && i < 4
    ensures a.g.IsInode(a.n) && 0 < a.sb.bpg && a.sb.Start() <= a.g.Ptr(Slot5(a.n, i))
    ensures var m := a.sb.BitmapBlock(a.g.Ptr(Slot5(a.n, i))); m in a.log && a.sb.Start() <= m && a.sb.Index(m) == a.sb.Meta() - 1
  {
    NewBlock(a, i);
    AppendViews(a);
    ConfinedMeans(a.d, a.e, {}, a.log);
    assert a.sb.Data(a.g.Ptr(Slot5(a.n, i)));
    BitDiffers(a.sb, a.d, a.e, a.f.disk, a.g.disk, a.g.Ptr(Slot5(a.n, i)));
  }

  lemma InodeLogged(a: Append)
    requires Appended(a).holds
    ensures 0 < a.sb.bpg && 0 < a.sb.ipg
    ensures var m := a.sb.InodeBlock(a.n); m in a.log && a.sb.Start() <= m && a.sb.Index(m) < a.sb.Meta() - 1
  {
    SizeChanged(a);
    AppendViews(a);
    ConfinedMeans(a.d, a.e, {}, a.log);
    InodeDiffers(a.sb, a.d, a.e, a.f.disk, a.g.disk, a.n);
  }

  lemma SizeChanged(a: Append)
    requires Appended(a).holds
    ensures a.f.IsInode(a.n) && a.g.IsInode(a.n) && a.f.disk.dinode[a.n] != a.g.disk.dinode[a.n]
  {
    assert Open(a.sb);
  }

  lemma BlocksApart(a: Append, i: nat, j: nat)
    requires Appended(a).holds && i < j < 5
    ensures a.g.IsInode(a.n) && a.g.Ptr(Slot5(a.n, i)) != a.g.Ptr(Slot5(a.n, j))
  {
    NewBlock(a, i);
    AppendOwners(a);
    NoSharing(a.g, a.own, Slot5(a.n, i), Slot5(a.n, j));
  }

  lemma MapsApart(a: Append, i: nat, j: nat)
    requires Appended(a).holds && i < j < 4
    ensures a.g.IsInode(a.n) && 0 < a.sb.bpg && a.sb.Start() <= a.g.Ptr(Slot5(a.n, i)) && a.sb.Start() <= a.g.Ptr(Slot5(a.n, j))
    ensures a.sb.BitmapBlock(a.g.Ptr(Slot5(a.n, i))) != a.sb.BitmapBlock(a.g.Ptr(Slot5(a.n, j)))
  {
    NewBlock(a, i);
    NewBlock(a, j);
    BlocksApart(a, i, j);
    var b, c := a.g.Ptr(Slot5(a.n, i)), a.g.Ptr(Slot5(a.n, j));
    AppendEdge(a);
    AppendViews(a);
    assert a.sb.Data(b) && a.sb.Data(c);
    TwoMaps(a.sb, b, c);
  }

  /** Four bitmaps, four new blocks and the last one, and the inode: ten blocks had to be logged. */
  lemma TenLogged(a: Append)
    requires Appended(a).holds
    ensures |a.log| >= MAXOPBLOCKS
  {
    AppendSlots(a, 0);
    InodeLogged(a);
    var data := seq(5, i requires 0 <= i < 5 => a.g.Ptr(Slot5(a.n, i)) as nat);
    forall i | 0 <= i < 5 ensures data[i] in a.log && a.sb.Start() <= data[i] && a.sb.Index(data[i]) >= a.sb.Meta() {
      DataLogged(a, i);
    }
    forall i, j | 0 <= i < j < 5 ensures data[i] != data[j] {
      BlocksApart(a, i, j);
    }
    var maps := seq(4, i requires 0 <= i < 4 => a.sb.BitmapBlock(data[i]));
    forall i | 0 <= i < 4 ensures maps[i] in a.log && a.sb.Start() <= maps[i] && a.sb.Index(maps[i]) == a.sb.Meta() - 1 {
      MapLogged(a, i);
    }
    forall i, j | 0 <= i < j < 4 ensures maps[i] != maps[j] {
      MapsApart(a, i, j);
    }
    TenApart(a.sb, maps, data, a.sb.InodeBlock(a.n), a.log);
  }

  /** File n is at the edge, and at least four free blocks are left, each in a group of its own. */
  ghost function Worst(sb: Super, f: Files, owner: map<nat, Slot>, n: nat, piece: seq<Byte>): (r: Claim) {
    Claim(forall x {:trigger Open(x)} :: x == sb && Open(x) ==>
      && AtTheEdge(f, n) && NoLeak(f, owner).holds && Scattered(x, f) && 4 <= |FreeSet(f)|
      && |piece| == CHUNK && (forall k :: 0 <= k < CHUNK ==> piece[k] != 0))
  }

  lemma WorstReady(sb: Super, f: Files, owner: map<nat, Slot>, n: nat, piece: seq<Byte>)
    requires Worst(sb, f, owner, n, piece).holds
    ensures n in f.mem && f.IsInode(n) && HoleFree(f, n) && f.mem[n].typ != T_DEV && |piece| == CHUNK && f.mem[n].size + CHUNK <= MAXBYTES
  {
    assert Open(sb);
  }

  /** Where a chunk at the edge starts and ends. */
  lemma EdgeBlocks(size: nat)
    requires size / BSIZE == NDIRECT - 1 && size % BSIZE != 0
    ensures EndBlock(size, CHUNK) == NDIRECT + 3
  {
  }

  lemma FourAhead(f: Files, n: nat)
    requires f.IsInode(n) && f.Cur(n).addrs[NDIRECT] == 0 && f.Addr(n, NDIRECT - 1) != 0
    requires f.Addr(n, NDIRECT) == 0 && f.Addr(n, NDIRECT + 1) == 0 && f.Addr(n, NDIRECT + 2) == 0
    ensures Need(f, n, NDIRECT - 1, NDIRECT + 3) == 4
  {
    var lo := NDIRECT - 1;
    assert Holes(f, n, lo, lo) == 0;
    assert Holes(f, n, lo, NDIRECT) == 0;
    assert Holes(f, n, lo, NDIRECT + 1) == 1;
    assert Holes(f, n, lo, NDIRECT + 2) == 2;
  }

  ghost function Edge(f: Files, owner: map<nat, Slot>, n: nat): (r: Claim) {
    Claim(forall x {:trigger Audit(x)} :: x == n && Audit(x) ==> Good(f, owner) && AtTheEdge(f, x))
  }

  lemma EdgeAddrs(f: Files, owner: map<nat, Slot>, n: nat, j: nat)
    requires Edge(f, owner, n).holds && j < 3
    ensures f.IsInode(n) && f.Cur(n).addrs[NDIRECT] == 0 && f.Addr(n, NDIRECT - 1) != 0 && f.Addr(n, NDIRECT + j) == 0
  {
    assert Audit(n);
    EdgeBefore(f, owner, n, j);
  }

  lemma EdgeNeed(f: Files, owner: map<nat, Slot>, n: nat)
    requires Edge(f, owner, n).holds
    ensures f.IsInode(n) && Need(f, n, NDIRECT - 1, NDIRECT + 3) == 4
  {
    EdgeAddrs(f, owner, n, 0);
    EdgeAddrs(f, owner, n, 1);
    EdgeAddrs(f, owner, n, 2);
    FourAhead(f, n);
  }

  lemma WorstEdge(sb: Super, f: Files, owner: map<nat, Slot>, n: nat, piece: seq<Byte>)
    requires Worst(sb, f, owner, n, piece).holds && Ok(sb, f, owner)
    ensures Edge(f, owner, n).holds && n in f.mem && f.mem[n].size / BSIZE == NDIRECT - 1 && f.mem[n].size % BSIZE != 0 && 4 <= |FreeSet(f)|
  {
    assert Open(sb);
    OkMeans(sb, f, owner);
  }

  lemma WorstEnough(sb: Super, f: Files, owner: map<nat, Slot>, n: nat, piece: seq<Byte>)
    requires Worst(sb, f, owner, n, piece).holds && Ok(sb, f, owner)
    ensures n in f.mem && Enough(f, n, f.mem[n].size, CHUNK).holds
  {
    WorstEdge(sb, f, owner, n, piece);
    EdgeNeed(f, owner, n);
    EdgeBlocks(f.mem[n].size);
  }

  lemma WorstAppends(a: Append)
    requires Worst(a.sb, a.f, a.owner, a.n, a.piece).holds && a.n in a.f.mem
    requires Shows(a.sb, a.d, a.f.mem, a.f) && Ok(a.sb, a.f, a.owner) && Shows(a.sb, a.e, a.g.mem, a.g) && Ok(a.sb, a.g, a.own)
    requires Confined(a.d, a.e, {}, a.log).holds && WrittenSync(a.f, a.g, a.n, a.f.mem[a.n].size, a.piece, CHUNK).holds
    ensures Appended(a).holds
  {
    assert Open(a.sb);
  }

  /** A chunk appended to a file of not quite NDIRECT blocks, with the free blocks in groups of their own, uses up
      its quota exactly. */
  method ChunkAtWorst(v: Volume, n: nat, piece: seq<Byte>)
    requires v.Valid() && !v.open && n in v.mem && Worst(v.sb, v.f, v.owner, n, piece).holds
    modifies v
    ensures v.Valid() && |v.logged| == MAXOPBLOCKS
  {
    ghost var d, f, owner := v.disk, v.f, v.owner;
    WorstReady(v.sb, f, owner, n, piece);
    WorstEnough(v.sb, f, owner, n, piece);
    var r;
    ghost var t;
    var size := v.mem[n].size;
    r, t := v.WriteChunk(n, piece, size);
    PaidWhole(f, v.f, n, size, CHUNK, t);
    ghost var a := Append(v.sb, d, v.disk, f, v.f, owner, v.owner, n, piece, v.logged);
    WorstAppends(a);
    TenLogged(a);
  }

  // ----- an image on which it happens -----

  /** Seventeen groups of one data block each. */
  const NARROW := Super(83, 136, 30, 2, 3, 8, 17)

  /** A file of one byte more than eleven blocks. */
  const LONG := Source([97], seq((NDIRECT - 1) * BSIZE + 1, _ => 1))

  lemma NarrowFits()
    ensures Storable(NARROW) && NARROW.Meta() < NARROW.bpg && DataCount(NARROW) == 17
    ensures FitsFirst(NARROW, [LONG], 1) && Rounded(3 * (2 + DIRSIZ)) <= MAXBYTES && Required([LONG], 1) == 13
  {
    assert DataBlocks([LONG], 0) == 0;
  }

  /** Every data block has a group to itself. */
  lemma NarrowGroups(b: nat, c: nat)
    requires NARROW.Data(b) && NARROW.Data(c) && NARROW.Group(b) == NARROW.Group(c)
    ensures b == c
  {
    assert NARROW.Wf() by { NarrowFits(); }
    Located(NARROW, b);
    Located(NARROW, c);
  }

  lemma NarrowScattered(d: seq<Block>, f: Files)
    requires Shows(NARROW, d, f.mem, f) && forall b :: Free(f, b) ==> f.disk.data[b] == ZeroBlock
    ensures Scattered(NARROW, f)
  {
    assert Open(NARROW);
    forall b, c | Free(f, b) && Free(f, c) && b != c ensures NARROW.Group(b) != NARROW.Group(c) {
      assert NARROW.Data(b) && NARROW.Data(c);
      if NARROW.Group(b) == NARROW.Group(c) {
        NarrowGroups(b, c);
      }
    }
  }

  lemma LongAtEdge(f: Files, g: Files)
    requires Held(f, 2, LONG.data) && g == Load(f, 2)
    ensures AtTheEdge(g, 2) && FreeSet(g) == FreeSet(f)
  {
    SameFree(f, g);
    var n := |LONG.data|;
    assert n == (NDIRECT - 1) * BSIZE + 1;
    forall bn: nat | bn < MAXFILE && bn * BSIZE < g.Cur(2).size ensures g.Addr(2, bn) != 0 {
      assert f.Addr(2, bn) != 0;
    }
    assert f.FileByte(2, n) == 0;
  }

  lemma NarrowWorst(d: seq<Block>, f: Files, g: Files, owner: map<nat, Slot>, piece: seq<Byte>)
    requires Held(f, 2, LONG.data) && g == Load(f, 2) && Shows(NARROW, d, g.mem, g) && NoLeak(g, owner).holds && |FreeSet(f)| == 4
    requires forall b :: Free(f, b) ==> f.disk.data[b] == ZeroBlock
    requires |piece| == CHUNK && forall k :: 0 <= k < CHUNK ==> piece[k] != 0
    ensures Worst(NARROW, g, owner, 2, piece).holds
  {
    LongAtEdge(f, g);
    NarrowScattered(d, g);
  }

  /** mkfs with that file. */
  method Narrow() returns (v: Volume)
    ensures fresh(v) && v.Valid() && !v.open && v.sb == NARROW && v.mem == map[] && v.ref == map[] && Settled(v.f, v.owner).holds
    ensures Held(v.f, 2, LONG.data) && |FreeSet(v.f)| == 4 && forall b :: Free(v.f, b) ==> v.f.disk.data[b] == ZeroBlock
  {
    NarrowFits();
    var ok, w := Mkfs.Format(NARROW, [LONG]);
    v := w;
    assert Held(v.f, 2, [LONG][0].data);
  }

  /** A chunk is appended to it. */
  method WorstRun() returns (v: Volume)
    ensures fresh(v) && v.Valid() && |v.logged| == MAXOPBLOCKS
  {
    v := Narrow();
    ghost var f := v.f;
    var ok := v.Iget(2);
    ok := v.Ilock(2);
    SettledMeans(v.f, v.owner);
    var piece := seq(CHUNK, _ => 1);
    NarrowWorst(v.disk, f, v.f, v.owner, piece);
    ChunkAtWorst(v, 2, piece);
  }
}
