/** The root directory of a new image, read entry by entry as the kernel reads it. */
module RootDirectory {
  import opened Basics
  import opened Words
  import opened MkfsSteps

  /** The entry at byte o of directory xs has inode number inum, in 16 bits, and this name, cut or filled up
      with zeros to 14 bytes. */
  ghost predicate Reads(xs: seq<Byte>, o: nat, inum: nat, name: seq<Byte>) {
    && o + 16 <= |xs| && xs[o] as int + 0x100 * xs[o + 1] as int == inum % 0x10000
    && forall i: nat :: i < 14 ==> xs[o + 2 + i] == if i < |name| then name[i] else 0
  }

  /** Entry k after the first two is for this file: inode k + 2 and its name without a leading underscore. */
  ghost predicate ListedAt(xs: seq<Byte>, file: Source, k: nat) {
    Reads(xs, 16 * k + 32, k + 2, if 0 < |file.name| && file.name[0] == UNDERSCORE then file.name[1..] else file.name)
  }

  /** The directory has itself under two names, then the files in their order with the inodes from 2 up,
      each without a leading underscore, and nothing else. */
  ghost predicate Lists(xs: seq<Byte>, files: seq<Source>) {
    && |xs| == 16 * |files| + 32 && Reads(xs, 0, 1, [DOT]) && Reads(xs, 16, 1, [DOT, DOT])
    && forall k :: 0 <= k < |files| ==> ListedAt(xs, files[k], k)
  }

  lemma DirentReads(inum: nat, name: seq<Byte>)
    ensures Reads(Dirent(inum, name), 0, inum, name)
  {
    Padding(name);
    TwoBytes(inum);
  }

  lemma TwoBytes(n: nat)
    ensures n % 0x100 + 0x100 * (n / 0x100 % 0x100) == n % 0x10000
  {
    var h, q := n / 0x100, n / 0x10000;
    assert 0x100 * h <= n < 0x100 * h + 0x100 && 0x10000 * q <= n < 0x10000 * q + 0x10000;
    assert h / 0x100 == q;
  }

  lemma Padding(name: seq<Byte>)
    ensures forall i: nat :: i < 14 ==> Padded(name)[i] == if i < |name| then name[i] else 0
  {
  }

  lemma Front(a: seq<Byte>, b: seq<Byte>, o: nat, inum: nat, name: seq<Byte>)
    requires Reads(a, o, inum, name)
    ensures Reads(a + b, o, inum, name)
  {
  }

  lemma Back(a: seq<Byte>, b: seq<Byte>, o: nat, inum: nat, name: seq<Byte>)
    requires o == |a| && Reads(b, 0, inum, name)
    ensures Reads(a + b, o, inum, name)
  {
    forall i: nat | i < 14 ensures (a + b)[o + 2 + i] == if i < |name| then name[i] else 0 {
      assert (a + b)[o + 2 + i] == b[0 + 2 + i];
    }
  }

  lemma NoFiles(a: seq<Byte>, b: seq<Byte>)
    requires |a| == 16 && |b| == 16 && Reads(a, 0, 1, [DOT]) && Reads(b, 0, 1, [DOT, DOT])
    ensures Lists(a + b, [])
  {
    Front(a, b, 0, 1, [DOT]);
    Back(a, b, 16, 1, [DOT, DOT]);
  }

  lemma StillListed(a: seq<Byte>, b: seq<Byte>, file: Source, k: nat)
    requires ListedAt(a, file, k)
    ensures ListedAt(a + b, file, k)
  {
    Front(a, b, 16 * k + 32, k + 2, Stripped(file.name));
  }

  lemma LastListed(a: seq<Byte>, b: seq<Byte>, file: Source, k: nat, inum: nat)
    requires |a| == 16 * k + 32 && Reads(b, 0, inum, Stripped(file.name)) && inum == k + 2
    ensures ListedAt(a + b, file, k)
  {
    Back(a, b, 16 * k + 32, inum, Stripped(file.name));
  }

  lemma AllListed(a: seq<Byte>, b: seq<Byte>, files: seq<Source>, file: Source)
    requires (forall k :: 0 <= k < |files| ==> ListedAt(a, files[k], k)) && ListedAt(a + b, file, |files|)
    ensures forall k :: 0 <= k < |files + [file]| ==> ListedAt(a + b, (files + [file])[k], k)
  {
    forall k | 0 <= k < |files| ensures ListedAt(a + b, files[k], k) {
      StillListed(a, b, files[k], k);
    }
  }

  lemma OneMoreFile(a: seq<Byte>, b: seq<Byte>, files: seq<Source>, file: Source, inum: nat)
    requires Lists(a, files) && |b| == 16 && Reads(b, 0, inum, Stripped(file.name)) && inum == |files| + 2
    ensures Lists(a + b, files + [file])
  {
    Front(a, b, 0, 1, [DOT]);
    Front(a, b, 16, 1, [DOT, DOT]);
    LastListed(a, b, file, |files|, inum);
    AllListed(a, b, files, file);
  }

  lemma FilesTo(files: seq<Source>, k: nat)
    requires 0 < k <= |files|
    ensures |files[..k - 1]| == k - 1 && files[..k - 1] + [files[k - 1]] == files[..k]
  {
  }

  lemma ListingStep(files: seq<Source>, k: nat)
    requires 0 < k <= |files| && Lists(Listing(files, k - 1), files[..k - 1])
    ensures Lists(Listing(files, k), files[..k])
  {
    var inum, name := k + 1, Stripped(files[k - 1].name);
    FilesTo(files, k);
    DirentReads(inum, name);
    OneMoreFile(Listing(files, k - 1), Dirent(inum, name), files[..k - 1], files[k - 1], inum);
  }

  /** The directory that mkfs writes lists the files. */
  lemma {:induction false} ListingReads(files: seq<Source>, k: nat)
    requires k <= |files|
    ensures Lists(Listing(files, k), files[..k])
  {
    if k == 0 {
      DirentReads(1, [DOT]);
      DirentReads(1, [DOT, DOT]);
      NoFiles(Dirent(1, [DOT]), Dirent(1, [DOT, DOT]));
    } else {
      ListingReads(files, k - 1);
      ListingStep(files, k);
    }
  }
}
