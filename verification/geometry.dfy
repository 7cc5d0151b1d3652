/** Block-group geometry of fs.h: where inodes, bitmaps and data blocks live. */
module Geometry {
  const IPB := 8     // inodes per block
  const BPB := 4096  // bitmap bits per block

  datatype Super = Super(size: nat, ninodes: nat, nlog: nat, logstart: nat, bpg: nat, ipg: nat, ngroups: nat) {
    /** A geometry the macros are meant for; mkfs uses bpg = 200, ipg = 32. */
    ghost predicate Wf() {
      && 2 <= logstart && 0 < ipg && ipg % IPB == 0 && ipg / IPB + 1 <= bpg <= BPB
      && ninodes == ngroups * ipg
      && Start() + ngroups * bpg <= size < 0x8000_0000
    }

    /** First block of group 0. */
    function Start(): (b: nat) {
      logstart + nlog
    }
    /** Inode blocks and bitmap block at the front of each group. */
    function Meta(): (n: nat) {
      ipg / IPB + 1
    }
    function GroupStart(g: nat): (b: nat) {
      Start() + g * bpg
    }
    function BitmapOf(g: nat): (b: nat) {
      GroupStart(g) + ipg / IPB
    }

    /** IBLOCK */
    function InodeBlock(i: nat): (b: nat)
      requires 0 < ipg
    {
      logstart + nlog + (i / ipg) * bpg + (i % ipg) / IPB
    }

    /** BBLOCK */
    function BitmapBlock(b: nat): (r: nat)
      requires Start() <= b && 0 < bpg
    {
      logstart + nlog + ((b - (logstart + nlog)) / bpg) * bpg + ipg / IPB
    }

    /** Blocks of the groups, in mkfs's words the managed area. */
    predicate Managed(b: nat) {
      Start() <= b < Start() + ngroups * bpg
    }
    function Group(b: nat): (g: nat)
      requires Start() <= b && 0 < bpg
    {
      (b - Start()) / bpg
    }
    /** Bit of b in its group's bitmap. */
    function Index(b: nat): (i: nat)
      requires Start() <= b && 0 < bpg
    {
      (b - Start()) % bpg
    }
    predicate Data(b: nat)
      requires 0 < bpg
    {
      Managed(b) && Index(b) >= Meta()
    }
  }

  lemma DivMod(q: nat, r: nat, m: nat)
    requires r < m
    ensures (q * m + r) / m == q && (q * m + r) % m == r
  {
    var x := q * m + r;
    assert x == (x / m) * m + x % m;
    if x / m < q {
      MulMono(x / m + 1, q, m);
    } else if x / m > q {
      MulMono(q + 1, x / m, m);
    }
  }

  lemma MulMono(a: nat, b: nat, m: nat)
    requires a <= b
    ensures a * m <= b * m
  {
  }

  /** bfree's address calculation inverts balloc's: the block found at bit bi of group g has its
      bitmap in that group and its bit at bi. */
  lemma Locate(sb: Super, g: nat, bi: nat)
    requires sb.Wf() && g < sb.ngroups && bi < sb.bpg
    ensures var b := sb.GroupStart(g) + bi;
      sb.Managed(b) && sb.Group(b) == g && sb.Index(b) == bi && sb.BitmapBlock(b) == sb.BitmapOf(g)
  {
    DivMod(g, bi, sb.bpg);
    MulMono(g + 1, sb.ngroups, sb.bpg);
    assert (g + 1) * sb.bpg == g * sb.bpg + sb.bpg;
  }

  /** Every managed block is found by balloc at exactly one group and bit. */
  lemma Located(sb: Super, b: nat)
    requires sb.Wf() && sb.Managed(b)
    ensures sb.Group(b) < sb.ngroups && sb.Index(b) < sb.bpg
    ensures b == sb.GroupStart(sb.Group(b)) + sb.Index(b)
    ensures sb.BitmapBlock(b) == sb.BitmapOf(sb.Group(b))
  {
    var x := b - sb.Start();
    assert x == (x / sb.bpg) * sb.bpg + x % sb.bpg;
    if x / sb.bpg >= sb.ngroups {
      MulMono(sb.ngroups, x / sb.bpg, sb.bpg);
    }
  }

  lemma QuotientBound(i: nat, m: nat, n: nat)
    requires 0 < m && i < n * m
    ensures i / m < n
  {
    assert i == (i / m) * m + i % m;
    if i / m >= n {
      MulMono(n, i / m, m);
    }
  }

  /** Position of inode i's block among the inode blocks of its group. */
  ghost function InodeIndex(i: nat, ipg: nat): (k: nat)
    requires 0 < ipg && ipg % IPB == 0
    ensures k == (i % ipg) / IPB < ipg / IPB
  {
    var r := i % ipg;
    assert r < ipg;
    r / IPB
  }

  /** Inode blocks come first in their group, at an index below the bitmap's. */
  lemma InodeRegion(sb: Super, i: nat)
    requires sb.Wf() && i < sb.ninodes
    ensures i / sb.ipg < sb.ngroups
    ensures sb.Managed(sb.InodeBlock(i)) && sb.Group(sb.InodeBlock(i)) == i / sb.ipg
    ensures sb.Index(sb.InodeBlock(i)) == (i % sb.ipg) / IPB < sb.Meta() - 1
  {
    QuotientBound(i, sb.ipg, sb.ngroups);
    var q, k := i / sb.ipg, InodeIndex(i, sb.ipg);
    Locate(sb, q, k);
  }

  /** The bitmap block comes between the inode blocks and the data blocks of its group. */
  lemma BitmapRegion(sb: Super, g: nat)
    requires sb.Wf() && g < sb.ngroups
    ensures sb.Managed(sb.BitmapOf(g)) && sb.Group(sb.BitmapOf(g)) == g && sb.Index(sb.BitmapOf(g)) == sb.Meta() - 1
  {
    Locate(sb, g, sb.ipg / IPB);
  }

  lemma ModShift(p: nat, r: nat)
    ensures (p * IPB + r) % IPB == r % IPB
  {
  }

  lemma MulEight(q: nat, k: nat)
    ensures q * (k * IPB) == q * k * IPB
  {
  }

  lemma ModMod(i: nat, m: nat)
    requires 0 < m && m % IPB == 0
    ensures i % IPB == (i % m) % IPB
  {
    var q, r, k := i / m, i % m, m / IPB;
    MulEight(q, k);
    ModShift(q * k, r);
    assert q * m == q * (k * IPB) by { assert m == k * IPB; }
    assert i == q * m + r;
  }

  lemma SameParts(i: nat, j: nat, m: nat)
    requires 0 < m && i / m == j / m && i % m == j % m
    ensures i == j
  {
    assert i == (i / m) * m + i % m;
    assert j == (j / m) * m + j % m;
  }

  /** Two inodes share a block only at different positions. */
  lemma InodeInjective(sb: Super, i: nat, j: nat)
    requires sb.Wf() && i < sb.ninodes && j < sb.ninodes
    requires sb.InodeBlock(i) == sb.InodeBlock(j) && i % IPB == j % IPB
    ensures i == j
  {
    InodeRegion(sb, i);
    InodeRegion(sb, j);
    ModMod(i, sb.ipg);
    ModMod(j, sb.ipg);
    SameParts(i % sb.ipg, j % sb.ipg, IPB);
    SameParts(i, j, sb.ipg);
  }
}
