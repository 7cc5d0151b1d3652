/** On-disk encodings: bitmap bits and dinode records, and the disk seen through them. */
module Layout {
  import opened Basics
  import opened Words
  import opened Geometry

  const NDIRECT := 12
  const NINDIRECT := 128
  const MAXFILE := NDIRECT + NINDIRECT

  // ----- bits -----

  /** x & (1 << k) is not zero. */
  predicate BitOf(x: nat, k: nat) {
    if k == 0 then x % 2 == 1 else BitOf(x / 2, k - 1)
  }

  /** x | (1 << k), or x & ~(1 << k). */
  function WithBit(x: nat, k: nat, v: bool): (r: nat) {
    if k == 0 then x / 2 * 2 + (if v then 1 else 0) else 2 * WithBit(x / 2, k - 1, v) + x % 2
  }

  lemma {:induction false} WithBitAlone(x: nat, k: nat, v: bool, j: nat)
    ensures BitOf(WithBit(x, k, v), j) == if j == k then v else BitOf(x, j)
  {
    if k > 0 && j > 0 {
      WithBitAlone(x / 2, k - 1, v, j - 1);
    }
  }

  lemma {:induction false} WithBitBack(x: nat, k: nat)
    requires !BitOf(x, k)
    ensures WithBit(WithBit(x, k, true), k, false) == x
  {
    if k > 0 {
      WithBitBack(x / 2, k - 1);
    }
  }

  function Pow2(n: nat): (p: nat) {
    if n == 0 then 1 else 2 * Pow2(n - 1)
  }

  lemma {:induction false} WithBitFits(x: nat, k: nat, v: bool, n: nat)
    requires k < n && x < Pow2(n)
    ensures WithBit(x, k, v) < Pow2(n)
  {
    if k > 0 {
      WithBitFits(x / 2, k - 1, v, n - 1);
    }
  }

  function ByteWithBit(x: Byte, k: nat, v: bool): (r: Byte)
    requires k < 8
    ensures forall j: nat {:trigger BitOf(r, j)} :: BitOf(r, j) == if j == k then v else BitOf(x, j)
  {
    assert Pow2(8) == 256 by { assert Pow2(2) == 4; assert Pow2(4) == 16; assert Pow2(6) == 64; }
    WithBitFits(x, k, v, 8);
    assert forall j: nat :: BitOf(WithBit(x, k, v), j) == if j == k then v else BitOf(x, j) by {
      forall j: nat { WithBitAlone(x, k, v, j); }
    }
    WithBit(x, k, v)
  }

  /** Bit i of a bitmap block. */
  predicate Bit(b: Block, i: nat)
    requires i < BPB
  {
    BitOf(b[i / 8], i % 8)
  }

  function WithBitAt(b: Block, i: nat, v: bool): (r: Block)
    requires i < BPB
    ensures forall j: nat :: j < BPB ==> Bit(r, j) == if j == i then v else Bit(b, j)
  {
    b[i / 8 := ByteWithBit(b[i / 8], i % 8, v)]
  }

  // ----- inodes -----

  type Half = x: int | 0 <= x < 0x1_0000                     // a 16-bit field
  type Addrs = s: seq<Word> | |s| == NDIRECT + 1 witness seq(NDIRECT + 1, _ => 0)
  const NoAddrs: Addrs := [0, 0, 0, 0, 0, 0, 0, 0, 0, 0, 0, 0, 0]

  datatype Inode = Inode(typ: Half, major: Half, minor: Half, nlink: Half, size: Word, addrs: Addrs)

  const INODEWORDS := 16  // sizeof(struct dinode) / sizeof(uint)

  function Pack(lo: Half, hi: Half): (w: Word) {
    lo as int + 0x1_0000 * hi as int
  }

  function InodeWords(ip: Inode): (ws: seq<Word>)
    ensures |ws| == INODEWORDS
  {
    [Pack(ip.typ, ip.major), Pack(ip.minor, ip.nlink), ip.size] + ip.addrs
  }

  function WordsAt(b: Block, at: nat, n: nat): (ws: seq<Word>)
    requires at + n <= WORDS
    ensures |ws| == n && forall i: nat :: i < n ==> ws[i] == WordAt(b, at + i)
  {
    if n == 0 then [] else WordsAt(b, at, n - 1) + [WordAt(b, at + n - 1)]
  }

  function GetInode(b: Block, k: nat): (ip: Inode)
    requires k < IPB
  {
    var at := INODEWORDS * k;
    var w0, w1 := WordAt(b, at), WordAt(b, at + 1);
    Inode(w0 as int % 0x1_0000, w0 as int / 0x1_0000, w1 as int % 0x1_0000, w1 as int / 0x1_0000, WordAt(b, at + 2),
          WordsAt(b, at + 3, NDIRECT + 1))
  }

  /** Stores consecutive words and keeps the others. */
  function PutWords(b: Block, at: nat, ws: seq<Word>): (r: Block)
    requires at + |ws| <= WORDS
    ensures forall j: nat :: j < WORDS ==> WordAt(r, j) == if at <= j < at + |ws| then ws[j - at] else WordAt(b, j)
  {
    if ws == [] then b
    else PutWord(PutWords(b, at, ws[..|ws| - 1]), at + |ws| - 1, ws[|ws| - 1])
  }

  function PutInode(b: Block, k: nat, ip: Inode): (r: Block)
    requires k < IPB
  {
    PutWords(b, INODEWORDS * k, InodeWords(ip))
  }

  lemma SameWords(b: Block, r: Block, j: nat)
    requires j < IPB
    requires forall i: nat :: INODEWORDS * j <= i < INODEWORDS * j + INODEWORDS ==> WordAt(r, i) == WordAt(b, i)
    ensures GetInode(r, j) == GetInode(b, j)
  {
    var at := INODEWORDS * j;
    var u, v := WordsAt(r, at + 3, NDIRECT + 1), WordsAt(b, at + 3, NDIRECT + 1);
    forall i: nat | i < NDIRECT + 1 ensures u[i] == v[i] {
      assert WordAt(r, at + 3 + i) == WordAt(b, at + 3 + i);
    }
    assert u == v;
  }

  lemma Unpack(lo: Half, hi: Half)
    ensures Pack(lo, hi) as int % 0x1_0000 == lo && Pack(lo, hi) as int / 0x1_0000 == hi
  {
  }

  lemma ReadAddrs(r: Block, at: nat, ws: seq<Word>)
    requires at + |ws| <= WORDS && forall i: nat :: at <= i < at + |ws| ==> WordAt(r, i) == ws[i - at]
    ensures WordsAt(r, at, |ws|) == ws
  {
    var u := WordsAt(r, at, |ws|);
    forall i: nat | i < |ws| ensures u[i] == ws[i] {
      assert WordAt(r, at + i) == ws[i];
    }
  }

  lemma ReadInode(r: Block, j: nat, ip: Inode)
    requires j < IPB
    requires forall i: nat :: INODEWORDS * j <= i < INODEWORDS * j + INODEWORDS
               ==> WordAt(r, i) == InodeWords(ip)[i - INODEWORDS * j]
    ensures GetInode(r, j) == ip
  {
    var at := INODEWORDS * j;
    var ws := InodeWords(ip);
    assert ws[0] == Pack(ip.typ, ip.major) && ws[1] == Pack(ip.minor, ip.nlink) && ws[2] == ip.size && ws[3..] == ip.addrs;
    ReadAddrs(r, at + 3, ip.addrs) by {
      assert forall i: nat :: at + 3 <= i < at + INODEWORDS ==> WordAt(r, i) == ip.addrs[i - (at + 3)];
    }
    assert WordAt(r, at) == ws[0] && WordAt(r, at + 1) == ws[1] && WordAt(r, at + 2) == ws[2];
    Unpack(ip.typ, ip.major);
    Unpack(ip.minor, ip.nlink);
  }

  /** Writing one inode into its block makes exactly that inode read back. */
  lemma InodeRoundTrip(b: Block, k: nat, ip: Inode, j: nat)
    requires k < IPB && j < IPB
    ensures GetInode(PutInode(b, k, ip), j) == if j == k then ip else GetInode(b, j)
  {
    if j == k {
      ReadInode(PutInode(b, k, ip), j, ip);
    } else {
      SameWords(b, PutInode(b, k, ip), j);
    }
  }

  /** The two-byte fields at bytes o and o + 2. */
  ghost predicate Halves(r: Block, o: nat, lo: Half, hi: Half) {
    o + 4 <= BSIZE && r[o] as int + 0x100 * r[o + 1] as int == lo && r[o + 2] as int + 0x100 * r[o + 3] as int == hi
  }

  lemma HalvesAt(r: Block, w: nat, o: nat, lo: Half, hi: Half)
    requires w < WORDS && o == 4 * w && WordAt(r, w) == Pack(lo, hi)
    ensures Halves(r, o, lo, hi)
  {
  }

  lemma InodeWordsAt(b: Block, w: nat, ip: Inode, r: Block)
    requires w + INODEWORDS <= WORDS && r == PutWords(b, w, InodeWords(ip))
    ensures WordAt(r, w) == Pack(ip.typ, ip.major) && WordAt(r, w + 1) == Pack(ip.minor, ip.nlink) && WordAt(r, w + 2) == ip.size
    ensures forall j: nat :: j < NDIRECT + 1 ==> WordAt(r, w + 3 + j) == ip.addrs[j]
  {
    var ws := InodeWords(ip);
    forall j: nat | j < NDIRECT + 1 ensures WordAt(r, w + 3 + j) == ip.addrs[j] {
      assert WordAt(r, w + 3 + j) == ws[3 + j];
    }
  }

  /** struct dinode in its 64 bytes: type, major, minor and nlink in two bytes each, then size and the thirteen
      addresses in four. */
  lemma InodeFormat(b: Block, k: nat, ip: Inode, r: Block)
    requires k < IPB && r == PutInode(b, k, ip)
    ensures Halves(r, 64 * k, ip.typ, ip.major) && Halves(r, 64 * k + 4, ip.minor, ip.nlink) && WordAt(r, 16 * k + 2) == ip.size
    ensures forall j: nat :: j < NDIRECT + 1 ==> WordAt(r, 16 * k + 3 + j) == ip.addrs[j]
  {
    var w := 16 * k;
    InodeWordsAt(b, w, ip, r);
    HalvesAt(r, w, 4 * w, ip.typ, ip.major);
    HalvesAt(r, w + 1, 4 * w + 4, ip.minor, ip.nlink);
  }

  // ----- the disk as bitmap, inodes and data blocks -----

  /** used: managed blocks whose bit is set; dinode: the inode table; data: block 0 and the data blocks. */
  datatype Fs = Fs(used: set<nat>, dinode: seq<Inode>, data: map<nat, Block>)

  ghost predicate Fits(sb: Super, d: seq<Block>) {
    sb.Wf() && |d| == sb.size
  }

  ghost predicate BitAt(sb: Super, d: seq<Block>, b: nat)
    requires Fits(sb, d) && sb.Managed(b)
  {
    Located(sb, b);
    BitmapRegion(sb, sb.Group(b));
    Bit(d[sb.BitmapBlock(b)], sb.Index(b))
  }

  ghost function InodeAt(sb: Super, d: seq<Block>, i: nat): (ip: Inode)
    requires Fits(sb, d) && i < sb.ninodes
  {
    InodeRegion(sb, i);
    GetInode(d[sb.InodeBlock(i)], i % IPB)
  }

  ghost function UsedBelow(sb: Super, d: seq<Block>, n: nat): (s: set<nat>)
    requires Fits(sb, d)
    ensures forall b: nat :: b in s <==> b < n && sb.Managed(b) && BitAt(sb, d, b)
  {
    if n == 0 then {}
    else UsedBelow(sb, d, n - 1) + if sb.Managed(n - 1) && BitAt(sb, d, n - 1) then {n - 1} else {}
  }

  ghost function InodesBelow(sb: Super, d: seq<Block>, n: nat): (s: seq<Inode>)
    requires Fits(sb, d) && n <= sb.ninodes
    ensures |s| == n && forall i :: 0 <= i < n ==> s[i] == InodeAt(sb, d, i)
  {
    if n == 0 then [] else InodesBelow(sb, d, n - 1) + [InodeAt(sb, d, n - 1)]
  }

  ghost function DataBelow(sb: Super, d: seq<Block>, n: nat): (m: map<nat, Block>)
    requires Fits(sb, d) && n <= |d|
    ensures forall b: nat :: b in m <==> b < n && (b == 0 || sb.Data(b))
    ensures forall b: nat :: b in m ==> b < |d| && m[b] == d[b]
  {
    if n == 0 then map[]
    else if n == 1 || sb.Data(n - 1) then DataBelow(sb, d, n - 1)[n - 1 := d[n - 1]]
    else DataBelow(sb, d, n - 1)
  }

  /** v is the meaning of the disk d. */
  ghost predicate IsView(sb: Super, d: seq<Block>, v: Fs) {
    && Fits(sb, d)
    && |v.dinode| == sb.ninodes
    && (forall b: nat :: b in v.used <==> sb.Managed(b) && BitAt(sb, d, b))
    && (forall i: nat :: i < sb.ninodes ==> v.dinode[i] == InodeAt(sb, d, i))
    && (forall b: nat :: b in v.data <==> b == 0 || sb.Data(b))
    && (forall b: nat :: b in v.data ==> b < |d| && v.data[b] == d[b])
  }

  /** Every disk that fits the geometry has a meaning. */
  lemma ViewExists(sb: Super, d: seq<Block>) returns (v: Fs)
    requires Fits(sb, d)
    ensures IsView(sb, d, v)
  {
    v := Fs(UsedBelow(sb, d, |d|), InodesBelow(sb, d, sb.ninodes), DataBelow(sb, d, |d|));
  }

  ghost function SetBit(sb: Super, d: seq<Block>, b: nat, on: bool): (e: seq<Block>)
    requires Fits(sb, d) && sb.Managed(b)
    ensures Fits(sb, e)
  {
    Located(sb, b);
    BitmapRegion(sb, sb.Group(b));
    var m := sb.BitmapBlock(b);
    d[m := WithBitAt(d[m], sb.Index(b), on)]
  }

  /** Setting the bit of a free block, as balloc does, and clearing it again, as bfree does, leave every bitmap as
      it was. */
  lemma FreeUndoesAlloc(sb: Super, d: seq<Block>, b: nat)
    requires Fits(sb, d) && sb.Managed(b) && !BitAt(sb, d, b)
    ensures SetBit(sb, SetBit(sb, d, b, true), b, false) == d
  {
    Located(sb, b);
    BitmapRegion(sb, sb.Group(b));
    var m, i := sb.BitmapBlock(b), sb.Index(b);
    var x := d[m];
    WithBitBack(x[i / 8], i % 8);
    assert WithBitAt(WithBitAt(x, i, true), i, false) == x;
    assert SetBit(sb, SetBit(sb, d, b, true), b, false) == d;
  }

  /** Setting or clearing one bit of a bitmap block changes the state of that one block. */
  lemma ViewBit(sb: Super, d: seq<Block>, v: Fs, b: nat, on: bool)
    requires IsView(sb, d, v) && sb.Managed(b)
    ensures sb.BitmapBlock(b) < |d| && sb.Index(b) < BPB
    ensures var m := sb.BitmapBlock(b);
      IsView(sb, d[m := WithBitAt(d[m], sb.Index(b), on)], Fs(if on then v.used + {b} else v.used - {b}, v.dinode, v.data))
  {
    Located(sb, b);
    BitmapRegion(sb, sb.Group(b));
    var m := sb.BitmapBlock(b);
    var e := d[m := WithBitAt(d[m], sb.Index(b), on)];
    forall c: nat | sb.Managed(c) ensures BitAt(sb, e, c) == if c == b then on else BitAt(sb, d, c) {
      BitChanged(sb, d, b, on, c);
    }
    forall i: nat | i < sb.ninodes ensures InodeAt(sb, e, i) == InodeAt(sb, d, i) {
      InodeRegion(sb, i);
    }
  }

  lemma BitChanged(sb: Super, d: seq<Block>, b: nat, v: bool, c: nat)
    requires Fits(sb, d) && sb.Managed(b) && sb.Managed(c)
    requires sb.BitmapBlock(b) < |d| && sb.Index(b) < BPB
    ensures var e := d[sb.BitmapBlock(b) := WithBitAt(d[sb.BitmapBlock(b)], sb.Index(b), v)];
      BitAt(sb, e, c) == if c == b then v else BitAt(sb, d, c)
  {
    BitsApart(sb, b, c);
    Located(sb, c);
    BitmapRegion(sb, sb.Group(c));
  }

  /** Two blocks with the same bitmap block and bit are the same block. */
  lemma BitsApart(sb: Super, b: nat, c: nat)
    requires sb.Wf() && sb.Managed(b) && sb.Managed(c)
    ensures sb.BitmapBlock(b) == sb.BitmapBlock(c) && sb.Index(b) == sb.Index(c) ==> b == c
  {
    Located(sb, b);
    Located(sb, c);
    BitmapRegion(sb, sb.Group(b));
    BitmapRegion(sb, sb.Group(c));
  }

  lemma BitsElsewhere(sb: Super, d: seq<Block>, m: nat, x: Block, c: nat)
    requires Fits(sb, d) && m < |d| && sb.Managed(c)
    requires m == 0 || (sb.Managed(m) && sb.Index(m) != sb.Meta() - 1)
    ensures BitAt(sb, d[m := x], c) == BitAt(sb, d, c)
  {
    Located(sb, c);
    BitmapRegion(sb, sb.Group(c));
  }

  lemma InodeChanged(sb: Super, d: seq<Block>, i: nat, ip: Inode, j: nat)
    requires Fits(sb, d) && i < sb.ninodes && j < sb.ninodes && sb.InodeBlock(i) < |d|
    ensures var m := sb.InodeBlock(i);
      InodeAt(sb, d[m := PutInode(d[m], i % IPB, ip)], j) == if j == i then ip else InodeAt(sb, d, j)
  {
    var m := sb.InodeBlock(i);
    InodeRegion(sb, j);
    InodeRoundTrip(d[m], i % IPB, ip, j % IPB);
    if sb.InodeBlock(j) == m && j % IPB == i % IPB {
      InodeInjective(sb, i, j);
    }
  }

  /** Writing inode i into its block changes that one inode. */
  lemma ViewInode(sb: Super, d: seq<Block>, v: Fs, i: nat, ip: Inode)
    requires IsView(sb, d, v) && i < sb.ninodes
    ensures sb.InodeBlock(i) < |d|
    ensures var m := sb.InodeBlock(i);
      IsView(sb, d[m := PutInode(d[m], i % IPB, ip)], Fs(v.used, v.dinode[i := ip], v.data))
  {
    InodeRegion(sb, i);
    var m := sb.InodeBlock(i);
    var e := d[m := PutInode(d[m], i % IPB, ip)];
    forall j: nat | j < sb.ninodes ensures InodeAt(sb, e, j) == if j == i then ip else InodeAt(sb, d, j) {
      InodeChanged(sb, d, i, ip, j);
    }
    forall c: nat | sb.Managed(c) ensures BitAt(sb, e, c) == BitAt(sb, d, c) {
      BitsElsewhere(sb, d, m, PutInode(d[m], i % IPB, ip), c);
    }
  }

  /** Writing a data block, or block 0, changes that one block. */
  lemma ViewData(sb: Super, d: seq<Block>, v: Fs, b: nat, x: Block)
    requires IsView(sb, d, v) && b in v.data
    ensures b < |d| && IsView(sb, d[b := x], Fs(v.used, v.dinode, v.data[b := x]))
  {
    var e := d[b := x];
    forall c: nat | sb.Managed(c) ensures BitAt(sb, e, c) == BitAt(sb, d, c) {
      BitsElsewhere(sb, d, b, x, c);
    }
    forall j: nat | j < sb.ninodes ensures InodeAt(sb, e, j) == InodeAt(sb, d, j) {
      InodeRegion(sb, j);
    }
  }
}
