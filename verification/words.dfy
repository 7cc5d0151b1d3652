/** Disk blocks as bytes, and the little-endian 32-bit words the kernel overlays on them
    (the log header, indirect tables and on-disk inodes are all arrays of words). */
module Words {
  import opened Basics

  const BSIZE := 512
  const WORDS := 128  // BSIZE / sizeof(uint)

  type Block = s: seq<Byte> | |s| == BSIZE witness seq(BSIZE, _ => 0)
  type Word = x: int | 0 <= x < WORDMAX

  function Zeros(n: nat): (s: seq<Byte>)
    ensures |s| == n && forall i :: 0 <= i < n ==> s[i] == 0
  {
    if n == 0 then [] else Zeros(n - 1) + [0]
  }

  const ZeroBlock: Block := Zeros(BSIZE)

  function FromBytes(b0: Byte, b1: Byte, b2: Byte, b3: Byte): (w: Word)
  {
    b0 as int + 0x100 * b1 as int + 0x1_0000 * b2 as int + 0x100_0000 * b3 as int
  }

  function ByteOf(v: Word, k: nat): (r: Byte)
    requires k < 4
  {
    (if k == 0 then v else if k == 1 then v / 0x100 else if k == 2 then v / 0x1_0000 else v / 0x100_0000) % 0x100
  }

  lemma SplitWord(v: Word)
    ensures FromBytes(ByteOf(v, 0), ByteOf(v, 1), ByteOf(v, 2), ByteOf(v, 3)) == v
  {
    var q1, q2 := v as int / 0x100, v as int / 0x1_0000;
    assert q2 == q1 / 0x100 && v as int / 0x100_0000 == q2 / 0x100;
  }

  function WordAt(b: Block, i: nat): (w: Word)
    requires i < WORDS
  {
    FromBytes(b[4*i], b[4*i+1], b[4*i+2], b[4*i+3])
  }

  /** Stores one word; every other word, and every byte outside the word, is kept. */
  function PutWord(b: Block, i: nat, v: Word): (r: Block)
    requires i < WORDS
    ensures WordAt(r, i) == v
    ensures forall j: nat {:trigger WordAt(r, j)} :: j < WORDS && j != i ==> WordAt(r, j) == WordAt(b, j)
    ensures forall k: nat :: k < BSIZE && !(4*i <= k < 4*i + 4) ==> r[k] == b[k]
  {
    SplitWord(v);
    b[..4*i] + [ByteOf(v, 0), ByteOf(v, 1), ByteOf(v, 2), ByteOf(v, 3)] + b[4*i+4..]
  }

  lemma ZeroWords()
    ensures forall j: nat {:trigger WordAt(ZeroBlock, j)} :: j < WORDS ==> WordAt(ZeroBlock, j) == 0
  {
  }

  lemma Digits(b0: Byte, b1: Byte, b2: Byte, b3: Byte)
    ensures var w := FromBytes(b0, b1, b2, b3);
      ByteOf(w, 0) == b0 && ByteOf(w, 1) == b1 && ByteOf(w, 2) == b2 && ByteOf(w, 3) == b3
  {
    var w := FromBytes(b0, b1, b2, b3) as int;
    var q2 := b2 as int + 0x100 * b3 as int;
    var q1 := b1 as int + 0x100 * q2;
    assert w == 0x100 * q1 + b0 as int;
    assert w == 0x1_0000 * q2 + (0x100 * b1 as int + b0 as int);
    assert w / 0x100 == q1;
    assert w / 0x1_0000 == q2;
    assert w / 0x100_0000 == b3 as int;
  }

  /** Storing the word that is already there changes nothing. */
  lemma PutSame(b: Block, i: nat)
    requires i < WORDS
    ensures PutWord(b, i, WordAt(b, i)) == b
  {
    Digits(b[4*i], b[4*i+1], b[4*i+2], b[4*i+3]);
  }

  lemma UpdateSame<T>(s: seq<T>, i: nat)
    requires i < |s|
    ensures s[i := s[i]] == s
  {
  }
}
