/** bio.c: the buffer cache, a fixed set of buffers on a doubly linked list in order of last release. */
module BufferCache {
  datatype Buf<B> = Buf(dev: nat, blockno: nat, valid: bool, dirty: bool, refcnt: nat, holder: nat, data: B) {
    predicate Is(d: nat, b: nat) {
      dev == d && blockno == b
    }
    /** May be recycled. */
    predicate Idle() {
      refcnt == 0 && !dirty
    }
  }

  // ----- the list -----

  /** The k-th node of the cycle head, order[0], order[1], ..., head. */
  ghost function At(order: seq<nat>, head: nat, k: int): (x: nat) {
    if 1 <= k <= |order| then order[k - 1] else head
  }

  ghost predicate Distinct(order: seq<nat>, head: nat) {
    && (forall k :: 0 <= k < |order| ==> order[k] < head)
    && (forall j, k :: 0 <= j < k < |order| ==> order[j] != order[k])
  }

  /** next and prev link the head and the buffers of order, in that order, into one cycle. */
  ghost predicate Ring(order: seq<nat>, head: nat, next: seq<nat>, prev: seq<nat>) {
    && |next| == |prev| == head + 1 && Distinct(order, head)
    && (forall k :: 0 <= k <= |order| ==> next[At(order, head, k)] == At(order, head, k + 1))
    && (forall k :: 0 <= k <= |order| ==> prev[At(order, head, k + 1)] == At(order, head, k))
  }

  ghost function Without(order: seq<nat>, k: nat): (r: seq<nat>)
    requires k < |order|
  {
    order[..k] + order[k + 1..]
  }

  lemma WithoutAt(order: seq<nat>, head: nat, k: nat, j: nat)
    requires k < |order| && j <= |order|
    ensures At(Without(order, k), head, j) == if j <= k then At(order, head, j) else At(order, head, j + 1)
  {
  }

  lemma AtApart(order: seq<nat>, head: nat, j: nat, k: nat)
    requires Distinct(order, head) && j <= |order| && k <= |order| && j != k
    ensures At(order, head, j) != At(order, head, k)
  {
  }

  /** b->next->prev = b->prev; b->prev->next = b->next takes b out of the cycle. */
  lemma Unlink(order: seq<nat>, head: nat, next: seq<nat>, prev: seq<nat>, k: nat)
    requires Ring(order, head, next, prev) && k < |order|
    ensures var b := order[k];
      && b < head && next[b] <= head && prev[b] <= head && next[b] != b && prev[b] != b
      && Ring(Without(order, k), head, next[prev[b] := next[b]], prev[next[b] := prev[b]])
      && b !in Without(order, k)
  {
    var b, r := order[k], Without(order, k);
    Around(order, head, next, prev, k);
    forall j | 0 <= j <= |r| ensures next[prev[b] := next[b]][At(r, head, j)] == At(r, head, j + 1) {
      UnlinkNext(order, head, next, prev, k, j);
    }
    forall j | 0 <= j <= |r| ensures prev[next[b] := prev[b]][At(r, head, j + 1)] == At(r, head, j) {
      UnlinkPrev(order, head, next, prev, k, j);
    }
  }

  lemma Around(order: seq<nat>, head: nat, next: seq<nat>, prev: seq<nat>, k: nat)
    requires Ring(order, head, next, prev) && k < |order|
    ensures var b := order[k];
      && b < head && next[b] == At(order, head, k + 2) && prev[b] == At(order, head, k)
      && next[b] <= head && prev[b] <= head && next[b] != b && prev[b] != b
  {
    assert At(order, head, k + 1) == order[k];
  }

  lemma UnlinkNext(o: seq<nat>, head: nat, next: seq<nat>, prev: seq<nat>, k: nat, j: nat)
    requires Ring(o, head, next, prev) && k < |o| && j < |o|
    ensures var b, r := o[k], Without(o, k);
      b < head && prev[b] <= head && At(r, head, j) <= head && next[prev[b] := next[b]][At(r, head, j)] == At(r, head, j + 1)
  {
    Around(o, head, next, prev, k);
    WithoutAt(o, head, k, j);
    WithoutAt(o, head, k, j + 1);
    if j != k {
      AtApart(o, head, if j < k then j else j + 1, k);
    }
  }

  lemma UnlinkPrev(o: seq<nat>, head: nat, next: seq<nat>, prev: seq<nat>, k: nat, j: nat)
    requires Ring(o, head, next, prev) && k < |o| && j < |o|
    ensures var b, r := o[k], Without(o, k);
      b < head && next[b] <= head && At(r, head, j + 1) <= head && prev[next[b] := prev[b]][At(r, head, j + 1)] == At(r, head, j)
  {
    Around(o, head, next, prev, k);
    WithoutAt(o, head, k, j);
    WithoutAt(o, head, k, j + 1);
    if j != k {
      PrevApart(o, head, j, k);
    }
  }

  lemma PrevApart(o: seq<nat>, head: nat, j: nat, k: nat)
    requires Distinct(o, head) && k < |o| && j < |o| && j != k
    ensures At(o, head, if j < k then j + 1 else j + 2) != At(o, head, k + 2)
  {
    var a := if j < k then j + 1 else j + 2;
    if a <= |o| && k + 2 <= |o| {
      AtApart(o, head, a, k + 2);
    }
  }

  /** Puts b in front. */
  lemma Push(order: seq<nat>, head: nat, next: seq<nat>, prev: seq<nat>, b: nat)
    requires Ring(order, head, next, prev) && b < head && b !in order
    ensures next[head] <= head && next[head] != b
    ensures Ring([b] + order, head, next[b := next[head]][head := b], prev[b := head][next[head] := b])
  {
    var r := [b] + order;
    assert At(order, head, 0) == head && next[head] == At(order, head, 1);
    var nx, pv := next[b := next[head]][head := b], prev[b := head][next[head] := b];
    forall j | 0 <= j <= |r| ensures nx[At(r, head, j)] == At(r, head, j + 1) {
      if j > 1 {
        assert At(r, head, j) == At(order, head, j - 1) && At(r, head, j + 1) == At(order, head, j);
      }
    }
    forall j | 0 <= j <= |r| ensures pv[At(r, head, j + 1)] == At(r, head, j) {
      if j > 1 {
        assert At(r, head, j) == At(order, head, j - 1) && At(r, head, j + 1) == At(order, head, j);
        if j <= |order| {
          AtApart(order, head, j, 1);
        }
      }
    }
  }

  // ----- buffers against a plain array of blocks -----

  /** Some buffer holds a newer version of block b than the disk. */
  ghost predicate Ahead<B>(bufs: seq<Buf<B>>, touched: set<nat>, b: nat) {
    exists i: nat :: i < |bufs| && bufs[i].Is(1, b) && bufs[i].valid && (bufs[i].dirty || i in touched)
  }

  /** No two buffers are for the same block, except for the blocks of device 0 all start out with. */
  ghost predicate Unique<B>(bufs: seq<Buf<B>>) {
    forall i, j :: 0 <= i < |bufs| && 0 <= j < |bufs| && bufs[i].dev != 0 && bufs[j].Is(bufs[i].dev, bufs[i].blockno) ==> i == j
  }

  /** plain is what the blocks are to the processes; touched are the buffers changed by their holder
      but not yet passed to log_write or bwrite. */
  ghost predicate Refines<B>(bufs: seq<Buf<B>>, touched: set<nat>, disk: seq<B>, plain: seq<B>) {
    && |disk| == |plain| && Unique(bufs)
    && (forall i :: 0 <= i < |bufs| && bufs[i].valid ==>
          bufs[i].dev == 1 && bufs[i].blockno < |disk| && bufs[i].data == plain[bufs[i].blockno])
    && (forall i :: 0 <= i < |bufs| ==> (bufs[i].dirty ==> bufs[i].valid) && (bufs[i].holder != 0 ==> bufs[i].refcnt > 0))
    && (forall i :: 0 <= i < |bufs| && bufs[i].valid && !bufs[i].dirty && i !in touched ==> bufs[i].data == disk[bufs[i].blockno])
    && (forall b: nat :: b < |disk| && disk[b] != plain[b] ==> Ahead(bufs, touched, b))
    && (forall i :: i in touched ==> i < |bufs| && bufs[i].valid && bufs[i].holder != 0)
  }

  /** Changing only reference count and holder of a buffer. */
  lemma RetainRefines<B>(bufs: seq<Buf<B>>, touched: set<nat>, disk: seq<B>, plain: seq<B>, i: nat, b: Buf<B>)
    requires Refines(bufs, touched, disk, plain) && i < |bufs| && (i in touched ==> b.holder != 0)
    requires b == Buf(bufs[i].dev, bufs[i].blockno, bufs[i].valid, bufs[i].dirty, b.refcnt, b.holder, bufs[i].data)
    requires b.holder != 0 ==> b.refcnt > 0
    ensures Refines(bufs[i := b], touched, disk, plain)
  {
    var c := bufs[i := b];
    forall x: nat | x < |disk| && disk[x] != plain[x] ensures Ahead(c, touched, x) {
      var j: nat :| j < |bufs| && bufs[j].Is(1, x) && bufs[j].valid && (bufs[j].dirty || j in touched);
      assert c[j].Is(1, x);
    }
  }

  /** Recycling an idle buffer changes no block. */
  lemma RecycleRefines<B>(bufs: seq<Buf<B>>, touched: set<nat>, disk: seq<B>, plain: seq<B>, i: nat, dev: nat, blockno: nat)
    requires Refines(bufs, touched, disk, plain) && i < |bufs| && bufs[i].Idle()
    requires forall j :: 0 <= j < |bufs| ==> !bufs[j].Is(dev, blockno)
    ensures Refines(bufs[i := bufs[i].(dev := dev, blockno := blockno, valid := false, dirty := false, refcnt := 1)], touched, disk, plain)
  {
    var c := bufs[i := bufs[i].(dev := dev, blockno := blockno, valid := false, dirty := false, refcnt := 1)];
    forall x: nat | x < |disk| && disk[x] != plain[x] ensures Ahead(c, touched, x) {
      var j: nat :| j < |bufs| && bufs[j].Is(1, x) && bufs[j].valid && (bufs[j].dirty || j in touched);
      assert c[j].Is(1, x);
    }
  }

  /** Reading a block that no valid buffer has: the disk is up to date. */
  lemma FillRefines<B>(bufs: seq<Buf<B>>, touched: set<nat>, disk: seq<B>, plain: seq<B>, i: nat)
    requires Refines(bufs, touched, disk, plain) && i < |bufs| && !bufs[i].valid && bufs[i].dev == 1 && bufs[i].blockno < |disk|
    ensures disk[bufs[i].blockno] == plain[bufs[i].blockno]
    ensures Refines(bufs[i := bufs[i].(valid := true, data := disk[bufs[i].blockno])], touched, disk, plain)
  {
    var b := bufs[i].blockno;
    var c := bufs[i := bufs[i].(valid := true, data := disk[b])];
    assert forall j: nat :: j < |bufs| && bufs[j].Is(1, b) ==> j == i;
    assert !Ahead(bufs, touched, b);
    forall x: nat | x < |disk| && disk[x] != plain[x] ensures Ahead(c, touched, x) {
      var j: nat :| j < |bufs| && bufs[j].Is(1, x) && bufs[j].valid && (bufs[j].dirty || j in touched);
      assert c[j].Is(1, x);
    }
  }

  /** The holder changes the data: that one block changes for everyone. */
  lemma StoreRefines<B>(bufs: seq<Buf<B>>, touched: set<nat>, disk: seq<B>, plain: seq<B>, i: nat, v: B)
    requires Refines(bufs, touched, disk, plain) && i < |bufs| && bufs[i].valid && bufs[i].holder != 0
    ensures bufs[i].blockno < |plain|
    ensures Refines(bufs[i := bufs[i].(valid := true, data := v)], touched + {i}, disk, plain[bufs[i].blockno := v])
  {
    var c, t, p := bufs[i := bufs[i].(valid := true, data := v)], touched + {i}, plain[bufs[i].blockno := v];
    forall x: nat | x < |disk| && disk[x] != p[x] ensures Ahead(c, t, x) {
      if x == bufs[i].blockno {
        assert c[i].Is(1, x);
      } else {
        var j: nat :| j < |bufs| && bufs[j].Is(1, x) && bufs[j].valid && (bufs[j].dirty || j in touched);
        assert c[j].Is(1, x);
      }
    }
  }

  lemma MarkRefines<B>(bufs: seq<Buf<B>>, touched: set<nat>, disk: seq<B>, plain: seq<B>, i: nat)
    requires Refines(bufs, touched, disk, plain) && i < |bufs| && bufs[i].valid
    ensures Refines(bufs[i := bufs[i].(valid := true, dirty := true)], touched - {i}, disk, plain)
  {
    var c := bufs[i := bufs[i].(valid := true, dirty := true)];
    forall x: nat | x < |disk| && disk[x] != plain[x] ensures Ahead(c, touched - {i}, x) {
      var j: nat :| j < |bufs| && bufs[j].Is(1, x) && bufs[j].valid && (bufs[j].dirty || j in touched);
      assert c[j].Is(1, x);
    }
  }

  /** Writing a buffer to disk; plain changes only if the buffer had never been read. */
  lemma WriteRefines<B>(bufs: seq<Buf<B>>, touched: set<nat>, disk: seq<B>, plain: seq<B>, i: nat)
    requires Refines(bufs, touched, disk, plain) && i < |bufs| && bufs[i].dev == 1 && bufs[i].blockno < |disk|
    ensures var b := bufs[i].blockno;
      && Refines(bufs[i := bufs[i].(valid := true, dirty := false)], touched - {i}, disk[b := bufs[i].data], plain[b := bufs[i].data])
      && (bufs[i].valid ==> plain[b := bufs[i].data] == plain)
  {
    var b := bufs[i].blockno;
    var c, d, p := bufs[i := bufs[i].(valid := true, dirty := false)], disk[b := bufs[i].data], plain[b := bufs[i].data];
    forall x: nat | x < |disk| && d[x] != p[x] ensures Ahead(c, touched - {i}, x) {
      var j: nat :| j < |bufs| && bufs[j].Is(1, x) && bufs[j].valid && (bufs[j].dirty || j in touched);
      assert c[j].Is(1, x);
    }
  }

  // ----- recency -----

  /** order is by time of last release, most recent first. */
  ghost predicate Recent(order: seq<nat>, stamp: seq<nat>, clock: nat) {
    && (forall k :: 0 <= k < |order| ==> order[k] < |stamp| && stamp[order[k]] < clock)
    && (forall j, k :: 0 <= j < k < |order| ==> stamp[order[j]] > stamp[order[k]])
  }

  ghost predicate Covers(order: seq<nat>, n: nat) {
    forall i: nat :: i < n ==> i in order
  }

  lemma FrontAt(order: seq<nat>, k: nat, j: nat)
    requires k < |order| && j < |order|
    ensures |[order[k]] + Without(order, k)| == |order|
    ensures ([order[k]] + Without(order, k))[j] == order[if j == 0 then k else if j <= k then j - 1 else j]
  {
  }

  lemma FrontRecent(order: seq<nat>, stamp: seq<nat>, clock: nat, k: nat, n: nat)
    requires Recent(order, stamp, clock) && k < |order| && Distinct(order, n)
    ensures Recent([order[k]] + Without(order, k), stamp[order[k] := clock], clock + 1)
  {
    var r := [order[k]] + Without(order, k);
    forall j | 0 <= j < |r| ensures r[j] == order[if j == 0 then k else if j <= k then j - 1 else j] {
      FrontAt(order, k, j);
    }
  }

  lemma FrontCovers(order: seq<nat>, k: nat, n: nat)
    requires k < |order| && Covers(order, n)
    ensures Covers([order[k]] + Without(order, k), n)
  {
    forall i: nat | i < n ensures i in [order[k]] + Without(order, k) {
      var j := FindIn(order, i);
      FrontAt(order, k, if j == k then 0 else if j < k then j + 1 else j);
    }
  }

  lemma FindIn(order: seq<nat>, i: nat) returns (k: nat)
    requires i in order
    ensures k < |order| && order[k] == i
  {
    k :| k < |order| && order[k] == i;
  }

  /** The list as binit builds it: buffer n - 1 first. */
  ghost function Countdown(n: nat): (order: seq<nat>)
    ensures |order| == n && forall k :: 0 <= k < n ==> order[k] == n - 1 - k
  {
    if n == 0 then [] else [n - 1] + Countdown(n - 1)
  }

  ghost function Upto(n: nat): (s: seq<nat>)
    ensures |s| == n && forall k :: 0 <= k < n ==> s[k] == k
  {
    if n == 0 then [] else Upto(n - 1) + [n - 1]
  }

  lemma CountdownOk(n: nat)
    ensures Recent(Countdown(n), Upto(n), n) && Covers(Countdown(n), n)
  {
    forall i: nat | i < n ensures i in Countdown(n) {
      assert Countdown(n)[n - 1 - i] == i;
    }
  }

  class Cache<B> {
    const n: nat                  // NBUF; also the index of the list head
    const buf: array<Buf<B>>
    const next: array<nat>
    const prev: array<nat>
    var disk: seq<B>

    ghost var plain: seq<B>       // the blocks as the processes see them
    ghost var touched: set<nat>   // changed by their holder, not yet marked or written
    ghost var order: seq<nat>     // the list, most recently released first
    ghost var stamp: seq<nat>     // when each buffer was last released
    ghost var clock: nat

    ghost predicate Valid()
      reads this, buf, next, prev
    {
      && buf.Length == n && next.Length == prev.Length == n + 1 && next != prev
      && Ring(order, n, next[..], prev[..]) && Covers(order, n)
      && |stamp| == n && Recent(order, stamp, clock)
      && Refines(buf[..], touched, disk, plain)
    }

    /** binit; every buffer starts out as block 0 of device 0, not valid. */
    constructor (n: nat, disk: seq<B>, zero: B)
      ensures Valid() && this.n == n && this.disk == disk && plain == disk && touched == {}
      ensures fresh(buf) && fresh(next) && fresh(prev) && forall i :: 0 <= i < n ==> buf[i] == Buf(0, 0, false, false, 0, 0, zero)
    {
      var b := new Buf<B>[n](_ => Buf(0, 0, false, false, 0, 0, zero));
      var nx := new nat[n + 1](_ => n);
      var pv := new nat[n + 1](_ => n);
      this.n, this.disk, this.plain, this.touched := n, disk, disk, {};
      this.buf, this.next, this.prev := b, nx, pv;
      this.order, this.stamp, this.clock := Countdown(n), Upto(n), n;
      new;
      LinkAll();
      CountdownOk(n);
    }

    method LinkAll()
      requires next.Length == prev.Length == n + 1 && next != prev && next[n] == n && prev[n] == n
      modifies next, prev
      ensures Ring(Countdown(n), n, next[..], prev[..])
    {
      var b := 0;
      while b < n
        invariant b <= n && Ring(Countdown(b), n, next[..], prev[..])
      {
        LinkFront(b, Countdown(b));
        b := b + 1;
      }
    }

    /** Puts b at the front of the list. */
    method LinkFront(b: nat, ghost o: seq<nat>)
      requires next.Length == prev.Length == n + 1 && next != prev
      requires Ring(o, n, next[..], prev[..]) && b < n && b !in o
      modifies next, prev
      ensures Ring([b] + o, n, next[..], prev[..])
    {
      ghost var nx: seq<nat>, pv: seq<nat> := next[..], prev[..];
      Push(o, n, nx, pv, b);
      next[b] := next[n];
      prev[b] := n;
      prev[next[n]] := b;
      next[n] := b;
      assert next[..] == nx[b := nx[n]][n := b];
      assert prev[..] == pv[b := n][nx[n] := b];
    }

    /** The buffer for the block, or n. */
    method Cached(dev: nat, blockno: nat) returns (b: nat)
      requires Valid()
      ensures b <= n
      ensures if b < n then buf[b].Is(dev, blockno) else forall j :: 0 <= j < n ==> !buf[j].Is(dev, blockno)
    {
      b := next[n];
      ghost var k := 1;
      assert At(order, n, 0) == n;
      while b != n
        invariant 1 <= k <= |order| + 1 && b == At(order, n, k)
        invariant forall j :: 0 <= j < k - 1 ==> !buf[order[j]].Is(dev, blockno)
        decreases |order| + 1 - k
      {
        if buf[b].dev == dev && buf[b].blockno == blockno {
          return;
        }
        b := next[b];
        k := k + 1;
      }
      assert k == |order| + 1;
      forall j | 0 <= j < n ensures !buf[j].Is(dev, blockno) {
        var i := FindIn(order, j);
      }
    }

    /** The least recently released buffer that can be recycled, or n. */
    method Victim() returns (b: nat)
      requires Valid()
      ensures b <= n
      ensures b < n ==> buf[b].Idle() && forall j :: 0 <= j < n && buf[j].Idle() ==> stamp[b] <= stamp[j]
      ensures b == n ==> forall j :: 0 <= j < n ==> !buf[j].Idle()
    {
      b := prev[n];
      ghost var k: int := |order|;
      assert At(order, n, |order| + 1) == n;
      while b != n
        invariant 0 <= k <= |order| && b == At(order, n, k)
        invariant forall j :: k <= j < |order| ==> !buf[order[j]].Idle()
        decreases k
      {
        if buf[b].refcnt == 0 && !buf[b].dirty {
          forall j | 0 <= j < n && buf[j].Idle() ensures stamp[b] <= stamp[j] {
            var i := FindIn(order, j);
          }
          return;
        }
        b := prev[b];
        k := k - 1;
      }
      assert k == 0;
      forall j | 0 <= j < n ensures !buf[j].Idle() {
        var i := FindIn(order, j);
      }
    }

    /** bget up to the sleep lock: a reference to the buffer for the block. Fails if every buffer is
        in use. No buffer with a reference changes its block, and no block changes. */
    method Bget(dev: nat, blockno: nat) returns (ok: bool, b: nat)
      requires Valid()
      modifies buf
      ensures Valid()
      ensures ok ==> b < n
      ensures ok && old(buf[..])[b].Is(dev, blockno) ==> buf[..] == old(buf[..])[b := old(buf[..])[b].(refcnt := old(buf[..])[b].refcnt + 1)]
      ensures ok && !old(buf[..])[b].Is(dev, blockno) ==>
        && (forall j :: 0 <= j < n ==> !old(buf[j]).Is(dev, blockno)) && old(buf[..])[b].Idle()
        && (forall j :: 0 <= j < n && old(buf[j]).Idle() ==> stamp[b] <= stamp[j])
        && buf[..] == old(buf[..])[b := Buf(dev, blockno, false, false, 1, 0, old(buf[..])[b].data)]
      ensures !ok ==> buf[..] == old(buf[..]) && forall j :: 0 <= j < n ==> !buf[j].Is(dev, blockno) && !buf[j].Idle()
    {
      ghost var bufs := buf[..];
      b := Cached(dev, blockno);
      ok := true;
      if b < n {
        RetainRefines(bufs, touched, disk, plain, b, bufs[b].(refcnt := bufs[b].refcnt + 1));
        buf[b] := buf[b].(refcnt := buf[b].refcnt + 1);
        assert buf[..] == bufs[b := bufs[b].(refcnt := bufs[b].refcnt + 1)];
      } else {
        b := Victim();
        ok := b < n;
        if ok {
          RecycleRefines(bufs, touched, disk, plain, b, dev, blockno);
          buf[b] := buf[b].(dev := dev, blockno := blockno, valid := false, dirty := false, refcnt := 1);
          assert buf[..] == bufs[b := bufs[b].(dev := dev, blockno := blockno, valid := false, dirty := false, refcnt := 1)];
        }
      }
    }

    /** acquiresleep on a buffer, by a process with a reference, when it is free. */
    method Lock(b: nat, pid: nat)
      requires Valid() && b < n && buf[b].refcnt > 0 && buf[b].holder == 0 && pid != 0
      modifies buf
      ensures Valid() && buf[..] == old(buf[..])[b := old(buf[b]).(holder := pid)]
    {
      ghost var bufs := buf[..];
      RetainRefines(bufs, touched, disk, plain, b, bufs[b].(holder := pid));
      buf[b] := buf[b].(holder := pid);
      assert buf[..] == bufs[b := bufs[b].(holder := pid)];
    }

    /** iderw; fails where it panics. */
    method Iderw(b: nat, pid: nat) returns (ok: bool)
      requires Valid() && b < n
      modifies buf, `disk, `plain, `touched
      ensures Valid()
      ensures ok <==> old(buf[b].holder == pid && !(buf[b].valid && !buf[b].dirty) && buf[b].dev == 1 && buf[b].blockno < |disk|)
      ensures !ok ==> buf[..] == old(buf[..]) && disk == old(disk) && plain == old(plain) && touched == old(touched)
      ensures ok ==> |disk| == |old(disk)| && buf[b].blockno < |disk| && buf[b].data == disk[buf[b].blockno] && buf[b].valid && !buf[b].dirty
      ensures ok && old(buf[b].dirty) ==> plain == old(plain) && buf[..] == old(buf[..])[b := old(buf[b]).(valid := true, dirty := false)] && disk == old(disk)[buf[b].blockno := buf[b].data]
      ensures ok ==> touched == old(touched) - if old(buf[b].dirty) then {b} else {}
      ensures ok && !old(buf[b].dirty) ==> buf[..] == old(buf[..])[b := old(buf[b]).(valid := true, data := disk[buf[b].blockno])]
      ensures ok && !old(buf[b].dirty) ==> plain == old(plain) && disk == old(disk)
    {
      ok := buf[b].holder == pid && !(buf[b].valid && !buf[b].dirty) && buf[b].dev == 1 && buf[b].blockno < |disk|;
      if ok {
        ghost var bufs := buf[..];
        var x := buf[b].blockno;
        if buf[b].dirty {
          WriteRefines(bufs, touched, disk, plain, b);
          disk := disk[x := buf[b].data];
          plain := plain[x := buf[b].data];
          touched := touched - {b};
          buf[b] := buf[b].(valid := true, dirty := false);
          assert buf[..] == bufs[b := bufs[b].(valid := true, dirty := false)];
        } else {
          FillRefines(bufs, touched, disk, plain, b);
          buf[b] := buf[b].(valid := true, data := disk[x]);
          assert buf[..] == bufs[b := bufs[b].(valid := true, data := disk[x])];
        }
      }
    }

    /** The rest of bread, with the lock held: the data is the block as everyone sees it. */
    method Fetch(b: nat, pid: nat) returns (ok: bool)
      requires Valid() && b < n && buf[b].holder == pid && pid != 0
      modifies buf, `disk, `plain, `touched
      ensures Valid() && plain == old(plain) && disk == old(disk)
      ensures ok <==> old(buf[b].valid) || old(buf[b].dev == 1 && buf[b].blockno < |disk|)
      ensures ok ==> buf[b].valid && buf[b].blockno < |plain| && buf[b].data == plain[buf[b].blockno]
      ensures touched == old(touched) && buf[..] == old(buf[..])[b := Buf(old(buf[b].dev), old(buf[b].blockno), buf[b].valid, old(buf[b].dirty), old(buf[b].refcnt), pid, buf[b].data)]
    {
      ok := true;
      if !buf[b].valid {
        ok := Iderw(b, pid);
      }
    }

    /** The holder changes the data. */
    method Store(b: nat, pid: nat, v: B)
      requires Valid() && b < n && buf[b].holder == pid && pid != 0 && buf[b].valid
      modifies buf, `plain, `touched
      ensures Valid() && old(buf[b].blockno) < |old(plain)| && plain == old(plain)[old(buf[b].blockno) := v]
      ensures touched == old(touched) + {b} && buf[..] == old(buf[..])[b := old(buf[b]).(valid := true, data := v)]
    {
      ghost var bufs := buf[..];
      StoreRefines(bufs, touched, disk, plain, b, v);
      plain := plain[buf[b].blockno := v];
      touched := touched + {b};
      buf[b] := buf[b].(valid := true, data := v);
      assert buf[..] == bufs[b := bufs[b].(valid := true, data := v)];
    }

    /** log_write's B_DIRTY: the buffer stays cached until it is written. */
    method Pin(b: nat, pid: nat)
      requires Valid() && b < n && buf[b].holder == pid && pid != 0 && buf[b].valid
      modifies buf, `touched
      ensures Valid() && touched == old(touched) - {b} && buf[..] == old(buf[..])[b := old(buf[b]).(valid := true, dirty := true)]
    {
      ghost var bufs := buf[..];
      MarkRefines(bufs, touched, disk, plain, b);
      touched := touched - {b};
      buf[b] := buf[b].(valid := true, dirty := true);
      assert buf[..] == bufs[b := bufs[b].(valid := true, dirty := true)];
    }

    /** bwrite; fails where it, or iderw, panics. The disk then has what everyone sees. */
    method Bwrite(b: nat, pid: nat) returns (ok: bool)
      requires Valid() && b < n && pid != 0 && buf[b].valid
      modifies buf, `disk, `plain, `touched
      ensures Valid() && plain == old(plain)
      ensures ok <==> old(buf[b].holder == pid)
      ensures ok ==> touched == old(touched) - {b} && buf[..] == old(buf[..])[b := old(buf[b]).(valid := true, dirty := false)]
      ensures ok ==> buf[b].blockno < |plain| && |disk| == |plain| && disk == old(disk)[buf[b].blockno := plain[buf[b].blockno]]
    {
      ok := buf[b].holder == pid;
      if ok {
        Pin(b, pid);
        ok := Iderw(b, pid);
      }
    }

    /** releasesleep in brelse, by a client that has marked or written what it changed. */
    method Unlock(b: nat, pid: nat) returns (ok: bool)
      requires Valid() && b < n && pid != 0 && b !in touched
      modifies buf
      ensures Valid() && ok == old(buf[b].holder == pid)
      ensures buf[..] == if ok then old(buf[..])[b := old(buf[b]).(holder := 0)] else old(buf[..])
    {
      ok := buf[b].holder == pid;
      if ok {
        ghost var bufs := buf[..];
        RetainRefines(bufs, touched, disk, plain, b, bufs[b].(holder := 0));
        buf[b] := buf[b].(holder := 0);
        assert buf[..] == bufs[b := bufs[b].(holder := 0)];
      }
    }

    /** The rest of brelse: one reference less, and to the front of the list with the last one. */
    method Drop(b: nat)
      requires Valid() && b < n && buf[b].refcnt > (if buf[b].holder != 0 then 1 else 0)
      modifies buf, next, prev, `order, `stamp, `clock
      ensures Valid() && buf[..] == old(buf[..])[b := old(buf[b]).(refcnt := old(buf[b]).refcnt - 1)]
      ensures if buf[b].refcnt == 0 then stamp == old(stamp)[b := old(clock)] && clock == old(clock) + 1
              else stamp == old(stamp) && clock == old(clock) && order == old(order)
    {
      ghost var bufs := buf[..];
      RetainRefines(bufs, touched, disk, plain, b, bufs[b].(refcnt := bufs[b].refcnt - 1));
      buf[b] := buf[b].(refcnt := buf[b].refcnt - 1);
      assert buf[..] == bufs[b := bufs[b].(refcnt := bufs[b].refcnt - 1)];
      if buf[b].refcnt == 0 {
        Refresh(b);
      }
    }

    /** Takes b, at place k, out of the list. */
    method TakeOut(b: nat, ghost o: seq<nat>, ghost k: nat)
      requires next.Length == prev.Length == n + 1 && next != prev
      requires Ring(o, n, next[..], prev[..]) && k < |o| && o[k] == b
      modifies next, prev
      ensures Ring(Without(o, k), n, next[..], prev[..]) && b < n && b !in Without(o, k)
    {
      ghost var nx: seq<nat>, pv: seq<nat> := next[..], prev[..];
      Unlink(o, n, nx, pv, k);
      prev[next[b]] := prev[b];
      next[prev[b]] := next[b];
      assert next[..] == nx[pv[b] := nx[b]];
      assert prev[..] == pv[nx[b] := pv[b]];
    }

    /** Moves b to the front of the list. */
    method Refresh(b: nat)
      requires Valid() && b < n
      modifies next, prev, `order, `stamp, `clock
      ensures Valid() && stamp == old(stamp)[b := old(clock)] && clock == old(clock) + 1
    {
      ghost var o := order;
      ghost var k := FindIn(o, b);
      TakeOut(b, o, k);
      LinkFront(b, Without(o, k));
      FrontRecent(o, stamp, clock, k, n);
      FrontCovers(o, k, n);
      order := [b] + Without(o, k);
      stamp := stamp[b := clock];
      clock := clock + 1;
    }
  }
}
