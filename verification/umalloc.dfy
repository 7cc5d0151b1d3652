/** umalloc.c: the Kernighan and Ritchie allocator, headers in memory linked into a ring. */
module Malloc {
  import opened Basics
  import opened FreeList

  class Allocator {
    const base: nat                 // address of the static header
    var mem: map<nat, Header>
    var freep: nat                  // 0 until the first malloc

    ghost var s: Books
    ghost var at: nat               // freep's place on the list
    ghost var heap: set<nat>        // the bytes sbrk has given and not taken back

    constructor (base: nat, brk: nat)
      requires 0 < base && base + UNIT <= brk
      ensures Valid() && Honest() && freep == 0 && s == Books([Extent(base, 0)], [], {}, 0, brk) && heap == {}
    {
      this.base, this.mem, this.freep, this.at, this.heap := base, map[], 0, 0, {};
      s := Books([Extent(base, 0)], [], {}, 0, brk);
      SumOne(Extent(base, 0));
    }

    /** Before the first malloc there is nothing; from then on the list is sound and freep is on it. */
    ghost predicate Valid()
      reads this
    {
      && 0 < base && 0 < |s.list| && s.list[0].addr == base
      && if freep == 0 then s == Books([Extent(base, 0)], [], {}, 0, s.brk) && base + UNIT <= s.brk
         else Sound(s, mem).holds && at < |s.list| && s.list[at].addr == freep
    }

    /** Every block on the books is memory that sbrk has given. */
    ghost predicate Honest()
      reads this
    {
      s.mine <= heap
    }

    /** free's search: the block on the list that bp goes after. */
    method Locate(bp: nat, ghost b: Extent) returns (p: nat, ghost t: nat)
      requires Valid() && freep != 0 && Clear(s.list, b) && b.addr == bp
      ensures Between(s.list, t, b) && p == s.list[t].addr
    {
      ListSorted(s, mem);
      t := Spot(s.list, b);
      p := freep;
      ghost var j: nat := at;
      LinkAt(s, mem, j);
      while !(bp > p && bp < mem[p].ptr)
        invariant j < |s.list| && p == s.list[j].addr && p in mem && mem[p].ptr == Succ(s.list, j)
        decreases if j <= t then t - j else |s.list| - j + t
      {
        Here(s.list, t, b, j);
        if p >= mem[p].ptr && (bp > p || bp < mem[p].ptr) {
          return;
        }
        p := mem[p].ptr;
        j := Step(s.list, j);
        LinkAt(s, mem, j);
      }
      Here(s.list, t, b, j);
    }

    /** Links bp in after p, taking in the block above and going into p where they touch. */
    method Join(p: nat, bp: nat)
      requires p in mem && bp in mem && mem[p].ptr in mem
      modifies `mem
      ensures mem == Freed(old(mem), p, bp)
    {
      if bp + UNIT * mem[bp].size == mem[p].ptr {
        mem := mem[bp := Header(mem[mem[p].ptr].ptr, mem[bp].size + mem[mem[p].ptr].size)];
      } else {
        mem := mem[bp := Header(mem[p].ptr, mem[bp].size)];
      }
      if p + UNIT * mem[p].size == bp {
        mem := mem[p := Header(mem[bp].ptr, mem[p].size + mem[bp].size)];
      } else {
        mem := mem[p := Header(bp, mem[p].size)];
      }
    }

    /** Puts the loose block at bp on the list. */
    method Insert(bp: nat, ghost b: Extent)
      requires Valid() && freep != 0 && Loose(s, mem, b) && b.addr == bp
      modifies this
      ensures Valid() && freep != 0 && heap == old(heap)
      ensures s.live == old(s.live) && s.mine == old(s.mine) && s.brk == old(s.brk) && s.obtained == old(s.obtained) + b.units
      ensures Holds(s.list, b) && Spared(old(mem), mem, s.live)
      ensures exists t: nat :: Between(old(s.list), t, b) && freep == old(s.list)[t].addr
    {
      ghost var t;
      var p;
      p, t := Locate(bp, b);
      ListSorted(s, mem);
      GainSound(s, mem, t, b);
      FreedSpares(s, mem, t, b);
      InsertHead(s.list, t, b);
      InsertHolds(s.list, t, b);
      Join(p, bp);
      freep := p;
      s, at := Gain(s, t, b), t;
    }

    /** Gives back block k of those in use. */
    method Free(ap: nat, ghost k: nat)
      requires Valid() && k < |s.live| && ap == s.live[k].addr + UNIT
      modifies this
      ensures Valid() && s.live == Drop(old(s.live), k) && heap == old(heap)
      ensures s.mine == old(s.mine) && s.brk == old(s.brk) && s.obtained == old(s.obtained)
      ensures Spared(old(mem), mem, s.live)
      ensures exists t: nat :: Between(old(s.list), t, old(s.live)[k]) && freep == old(s.list)[t].addr
    {
      GiveBack(s, mem, k);
      ghost var b := s.live[k];
      s := Books(s.list, Drop(s.live, k), s.mine, s.obtained - b.units, s.brk);
      Insert(ap - UNIT, b);
    }

    /** Asks sbrk for at least nu units and frees them; fails if sbrk does. The argument of sbrk is an int,
        so for a large nu it is not what is freed afterwards. */
    method Morecore(nu: nat, sbrk: Option<nat>) returns (ok: bool)
      requires Valid() && Honest() && freep != 0 && 0 < nu && (sbrk.Some? ==> s.brk <= sbrk.value && AllBelow(heap, sbrk.value))
      modifies this
      ensures Valid() && freep != 0 && s.live == old(s.live) && ok == sbrk.Some?
      ensures ok ==> s.obtained == old(s.obtained) + Core(nu) && !NoFit(s.list, nu)
      ensures !ok ==> s == old(s) && mem == old(mem) && heap == old(heap)
      ensures ok ==> (Honest() <==> SbrkArg(Core(nu)) == UNIT * Core(nu))
      ensures Spared(old(mem), mem, s.live)
    {
      var n := Core(nu);
      ok := sbrk.Some?;
      if ok {
        var hp := sbrk.value;
        ghost var b := Extent(hp, n);
        GotAll(s.mine, heap, hp, n);
        heap := Resized(heap, hp, SbrkArg(n));
        var h := Header(if hp in mem then mem[hp].ptr else 0, n);
        Obtain(s, mem, b, h);
        ObtainSpares(s, mem, hp, h);
        ghost var m0, m1 := mem, mem[hp := h];
        mem := mem[hp := h];
        s := Books(s.list, s.live, s.mine + Span(b), s.obtained, b.End());
        Insert(hp, b);
        SparedTwice(m0, m1, mem, s.live);
        HoldsFits(s.list, b, nu);
      }
    }

    /** Takes n units off the end of the block at p. */
    method Cut(prevp: nat, p: nat, n: nat) returns (q: nat)
      requires prevp in mem && p in mem && 0 < n <= mem[p].size
      modifies `mem
      ensures mem == Lent(old(mem), prevp, p, n) && q == p + UNIT * (old(mem)[p].size - n)
    {
      q := p;
      if mem[p].size == n {
        mem := mem[prevp := Header(mem[p].ptr, mem[prevp].size)];
      } else {
        mem := mem[p := Header(mem[p].ptr, mem[p].size - n)];
        q := p + UNIT * mem[p].size;
        mem := mem[q := Header(if q in mem then mem[q].ptr else 0, n)];
      }
    }

    /** Hands out n units from the block at p. */
    method Carve(prevp: nat, p: nat, n: nat, ghost j: nat) returns (r: nat)
      requires Valid() && freep != 0 && 1 <= j < |s.list| && p == s.list[j].addr && prevp == s.list[j - 1].addr && 0 < n <= s.list[j].units
      modifies this
      ensures Valid() && freep != 0 && heap == old(heap) && r > UNIT && s == Lend(old(s), j, n) && r - UNIT == Tail(old(s.list[j]), n).addr
      ensures freep == prevp
      ensures Spared(old(mem), mem, old(s.live))
    {
      LendReady(s, mem, j, n);
      LentSpares(s, mem, j, n);
      ListSorted(s, mem);
      Below(s.list, 0, j - 1);
      Below(s.list, 0, j);
      var q := Cut(prevp, p, n);
      freep := prevp;
      s, at := Lend(s, j, n), j - 1;
      r := q + UNIT;
    }

    /** A block of Units(nbytes) units, or 0 if sbrk was needed and failed. sbrk is what sbrk will answer:
        it is called at most once, and only if no free block is large enough. The allocator stays sound
        exactly if the request does not starve. */
    method Malloc(nbytes: nat, sbrk: Option<nat>) returns (r: nat, ghost grew: bool)
      requires Valid() && Honest() && nbytes < WORDMAX && (sbrk.Some? ==> s.brk <= sbrk.value && AllBelow(heap, sbrk.value))
      modifies this
      ensures Valid() && Honest() <==> !Starved(old(s.list), nbytes, sbrk)
      ensures !Starved(old(s.list), nbytes, sbrk) ==>
        && freep != 0 && s.obtained == old(s.obtained) + (if grew then Core(Units(nbytes)) else 0)
        && (r != 0 ==> r > UNIT && s.live == old(s.live) + [Extent(r - UNIT, Units(nbytes))])
        && (r == 0 ==> sbrk.None? && s.live == old(s.live) && !grew)
        && (r == 0 || grew ==> NoFit(old(s.list), Units(nbytes)))
        && Spared(old(mem), mem, old(s.live))
      ensures r != 0 && !grew ==> exists j: nat :: FirstFit(old(s.list), old(at), j, Units(nbytes)) && freep == old(s.list)[j - 1].addr
                                                   && r - UNIT + UNIT * Units(nbytes) == old(s.list)[j].End()
    {
      var n := Units(nbytes);
      SbrkAsked(nbytes);
      grew := false;
      var prevp := freep;
      if freep == 0 {
        Begin();
        prevp := base;
      }
      ghost var s0, m0, at0 := s, mem, at;
      ghost var j: nat := Step(s.list, at);
      SearchStart(s, mem, at, n, false, s0, m0);
      var p := mem[prevp].ptr;
      while mem[p].size < n
        invariant if grew then sbrk.Some? && (Honest() <==> Asked(nbytes)) else heap == old(heap)
        invariant Valid() && freep != 0 && p in mem && Search(s, mem, at, j, prevp, p, n, grew, s0, m0).holds
        invariant !grew ==> at == at0
        decreases !grew, Left(s.list, at, j)
      {
        var ok;
        ok, grew, prevp, p, j := Round(prevp, p, n, sbrk, j, grew, s0, m0);
        if !ok {
          r := 0;
          return;
        }
      }
      Found(s, mem, at, j, prevp, p, n, grew, s0, m0);
      ghost var m1 := mem;
      r := Carve(prevp, p, n, j);
      SparedTwice(m0, m1, mem, s0.live);
    }

    /** One round of malloc's loop, at a block that is too small. */
    method Round(prevp: nat, p: nat, n: nat, sbrk: Option<nat>, ghost j: nat, ghost grew: bool, ghost s0: Books, ghost m0: map<nat, Header>)
      returns (ok: bool, ghost grown: bool, prev: nat, q: nat, ghost k: nat)
      requires Valid() && freep != 0 && p in mem && mem[p].size < n && 0 < n && (sbrk.Some? ==> s0.brk <= sbrk.value)
      requires Search(s, mem, at, j, prevp, p, n, grew, s0, m0).holds
      requires !grew ==> s0.mine <= heap && (sbrk.Some? ==> AllBelow(heap, sbrk.value))
      modifies this
      ensures Valid() && freep != 0
      ensures if ok && p == old(freep) then sbrk.Some? && (Honest() <==> SbrkArg(Core(n)) == UNIT * Core(n)) else s.mine == old(s.mine) && heap == old(heap)
      ensures ok ==> q in mem && Search(s, mem, at, k, prev, q, n, grown, s0, m0).holds
      ensures ok && !grown ==> at == old(at)
      ensures ok ==> if p == old(freep) then grown && !grew else grown == grew && 0 <= Left(s.list, at, k) < old(Left(s.list, at, j))
      ensures !ok ==> sbrk.None? && !grown && s == s0 && mem == m0 && NoFit(s0.list, n)
    {
      prev, q, k, grown, ok := prevp, p, j, grew, true;
      if p == freep {
        Exhausted(s, mem, at, j, prevp, p, n, grew, s0, m0);
        ok := Morecore(n, sbrk);
        if ok {
          grown := true;
          q := freep;
          SearchStart(s, mem, at, n, true, s0, m0);
        }
      } else {
        SearchOn(s, mem, at, j, prevp, p, n, grew, s0, m0);
      }
      if ok {
        k := Step(s.list, if p == old(freep) then at else j);
        prev := q;
        q := mem[q].ptr;
      }
    }

    /** The first malloc makes base a list of its own. */
    method Begin()
      requires Valid() && freep == 0
      modifies `mem, `freep, `at
      ensures Valid() && freep == base && at == 0 && s == old(s) && Spared(old(mem), mem, s.live)
    {
      mem := mem[base := Header(base, 0)];
      freep := base;
      at := 0;
      SumOne(Extent(base, 0));
      SoundMeans(s, mem);
    }
  }

  /** With nothing to free, a request for 2^31 - 8 bytes makes sbrk's argument -2^31. growproc takes that for
      no change at all, and the block handed out is memory nobody has. */
  method Oversized() returns (m: Allocator)
    ensures fresh(m) && !(m.Valid() && m.Honest())
  {
    m := new Allocator(8, 4096);
    assert SbrkArg(Core(Units(0x7FFF_FFF8))) == -0x8000_0000;
    var r;
    ghost var grew;
    r, grew := m.Malloc(0x7FFF_FFF8, Some(4096));
  }

  /** A request for 2^32 - 1 bytes wraps around to one unit, the header: there is no room for even one byte. */
  method Wrapped() returns (m: Allocator, r: nat)
    ensures fresh(m) && m.Valid() && m.Honest() && r > UNIT && m.s.live == [Extent(r - UNIT, 1)]
  {
    m := new Allocator(8, 4096);
    assert Units(0xFFFF_FFFF) == 1 && Asked(0xFFFF_FFFF);
    ghost var grew;
    r, grew := m.Malloc(0xFFFF_FFFF, Some(4096));
  }
}
