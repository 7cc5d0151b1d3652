/** The circular, address-ordered list of free blocks that umalloc.c keeps, and what each change of it does. */
module FreeList {
  import opened Basics

  const UNIT := 8  // sizeof(Header); addresses are in bytes, sizes in units

  datatype Header = Header(ptr: nat, size: nat)
  datatype Extent = Extent(addr: nat, units: nat) {
    function End(): (e: nat) {
      addr + UNIT * units
    }
  }

  // ----- the free list -----

  /** list is base, which is empty, then the free blocks by increasing address; none overlap or touch. */
  ghost predicate Sorted(list: seq<Extent>) {
    && 0 < |list| && list[0].units == 0 && (forall i :: 1 <= i < |list| ==> 0 < list[i].units)
    && (forall i, j :: 0 <= i < j < |list| ==> list[i].End() < list[j].addr)
  }

  ghost function Succ(list: seq<Extent>, i: nat): (a: nat)
    requires i < |list|
  {
    if i + 1 < |list| then list[i + 1].addr else list[0].addr
  }

  /** The headers link the blocks of list into a circle. */
  ghost predicate Linked(list: seq<Extent>, mem: map<nat, Header>) {
    forall i :: 0 <= i < |list| ==> list[i].addr in mem && mem[list[i].addr] == Header(Succ(list, i), list[i].units)
  }

  /** Units on the free list. */
  ghost function Sum(list: seq<Extent>): (n: nat) {
    if list == [] then 0 else list[0].units + Sum(list[1..])
  }

  lemma {:induction false} SumConcat(r: seq<Extent>, t: seq<Extent>)
    ensures Sum(r + t) == Sum(r) + Sum(t)
  {
    if r == [] {
      assert r + t == t;
    } else {
      assert (r + t)[1..] == r[1..] + t;
      SumConcat(r[1..], t);
    }
  }

  lemma {:induction false} SumOne(e: Extent)
    ensures Sum([e]) == e.units
  {
    assert [e][1..] == [];
  }

  /** Splitting the sum around one block. */
  lemma {:induction false} SumAt(r: seq<Extent>, k: nat)
    requires k < |r|
    ensures Sum(r) == Sum(r[..k]) + r[k].units + Sum(r[k + 1..])
  {
    assert r == r[..k] + ([r[k]] + r[k + 1..]);
    SumConcat(r[..k], [r[k]] + r[k + 1..]);
    SumConcat([r[k]], r[k + 1..]);
    SumOne(r[k]);
  }

  // ----- inserting a block -----

  /** b lies between list[t] and the next block. */
  ghost predicate Between(list: seq<Extent>, t: nat, b: Extent) {
    && t < |list| && 0 < b.units && list[t].addr < b.addr && list[t].End() <= b.addr
    && (t + 1 < |list| ==> b.End() <= list[t + 1].addr)
  }

  ghost predicate TouchesNext(list: seq<Extent>, t: nat, b: Extent) {
    t + 1 < |list| && b.End() == list[t + 1].addr
  }

  // free first takes in the block above, if that is where the next one starts ...

  ghost function Rest(list: seq<Extent>, t: nat, b: Extent): (r: seq<Extent>)
    requires t < |list|
  {
    if TouchesNext(list, t, b) then list[..t + 1] + list[t + 2..] else list
  }

  ghost function Taken(list: seq<Extent>, t: nat, b: Extent): (c: Extent)
    requires t < |list|
  {
    if TouchesNext(list, t, b) then Extent(b.addr, b.units + list[t + 1].units) else b
  }

  function JoinUp(mem: map<nat, Header>, p: nat, bp: nat): (m: map<nat, Header>)
    requires p in mem && bp in mem && mem[p].ptr in mem
  {
    var q := mem[p].ptr;
    if bp + UNIT * mem[bp].size == q then mem[bp := Header(mem[q].ptr, mem[bp].size + mem[q].size)]
    else mem[bp := Header(q, mem[bp].size)]
  }

  lemma TakeSorted(list: seq<Extent>, t: nat, b: Extent)
    requires Sorted(list) && Between(list, t, b)
    ensures Sorted(Rest(list, t, b)) && Between(Rest(list, t, b), t, Taken(list, t, b))
    ensures !TouchesNext(Rest(list, t, b), t, Taken(list, t, b)) && Rest(list, t, b)[t] == list[t]
  {
    if TouchesNext(list, t, b) {
      var r := Rest(list, t, b);
      assert forall i :: 0 <= i < |r| ==> r[i] == list[if i <= t then i else i + 1];
    }
  }

  lemma {:induction false} TakeSum(list: seq<Extent>, t: nat, b: Extent)
    requires t < |list|
    ensures Sum(Rest(list, t, b)) + Taken(list, t, b).units == Sum(list) + b.units
  {
    if TouchesNext(list, t, b) {
      SumAt(list, t + 1);
      SumConcat(list[..t + 1], list[t + 2..]);
    }
  }

  lemma Apart(list: seq<Extent>, i: nat, j: nat)
    requires Sorted(list) && i < |list| && j < |list| && i != j
    ensures list[i].addr != list[j].addr
  {
  }

  lemma NotListed(list: seq<Extent>, t: nat, b: Extent, i: nat)
    requires Sorted(list) && Between(list, t, b) && i < |list|
    ensures list[i].addr != b.addr
  {
    if i > t {
      assert list[t + 1].addr <= list[i].addr;
    }
  }

  /** Every header is right but for list[t]'s link; c already points on. */
  ghost predicate Hung(list: seq<Extent>, mem: map<nat, Header>, t: nat, c: Extent) {
    && t < |list| && c.addr in mem && mem[c.addr] == Header(Succ(list, t), c.units)
    && list[t].addr in mem && mem[list[t].addr].size == list[t].units
    && forall i :: 0 <= i < |list| && i != t ==> list[i].addr in mem && mem[list[i].addr] == Header(Succ(list, i), list[i].units)
  }

  lemma RestAt(list: seq<Extent>, t: nat, b: Extent, i: nat)
    requires t < |list| && i < |Rest(list, t, b)|
    ensures var k := if TouchesNext(list, t, b) && i > t then i + 1 else i;
      k < |list| && Rest(list, t, b)[i] == list[k] && (i != t ==> Succ(Rest(list, t, b), i) == Succ(list, k))
    ensures TouchesNext(list, t, b) ==> Succ(Rest(list, t, b), t) == Succ(list, t + 1)
  {
  }

  lemma TakeHung(list: seq<Extent>, mem: map<nat, Header>, t: nat, b: Extent)
    requires Sorted(list) && Linked(list, mem) && Between(list, t, b) && b.addr in mem && mem[b.addr].size == b.units
    ensures mem[list[t].addr].ptr in mem
    ensures Hung(Rest(list, t, b), JoinUp(mem, list[t].addr, b.addr), t, Taken(list, t, b))
  {
    var p := list[t].addr;
    assert mem[p] == Header(Succ(list, t), list[t].units);
    NextLinked(list, mem, t, b);
    var r, m := Rest(list, t, b), JoinUp(mem, p, b.addr);
    forall i | 0 <= i < |r|
      ensures r[i].addr in m && m[r[i].addr].size == r[i].units && (i != t ==> m[r[i].addr] == Header(Succ(r, i), r[i].units))
    {
      RestAt(list, t, b, i);
      NotListed(list, t, b, if TouchesNext(list, t, b) && i > t then i + 1 else i);
    }
    RestAt(list, t, b, t);
  }

  lemma NextLinked(list: seq<Extent>, mem: map<nat, Header>, t: nat, b: Extent)
    requires Sorted(list) && Linked(list, mem) && Between(list, t, b)
    ensures mem[list[t].addr].ptr in mem
    ensures TouchesNext(list, t, b) <==> b.End() == mem[list[t].addr].ptr
    ensures TouchesNext(list, t, b) ==> mem[mem[list[t].addr].ptr] == Header(Succ(list, t + 1), list[t + 1].units)
  {
    assert mem[list[t].addr] == Header(Succ(list, t), list[t].units);
    assert list[0].addr in mem;
    assert list[0].addr <= list[t].addr;
  }

  // ... and then goes on the list, or into the block below.

  ghost function Place(list: seq<Extent>, t: nat, c: Extent): (r: seq<Extent>)
    requires t < |list|
  {
    if list[t].End() == c.addr then list[t := Extent(list[t].addr, list[t].units + c.units)]
    else list[..t + 1] + [c] + list[t + 1..]
  }

  function JoinDown(mem: map<nat, Header>, p: nat, bp: nat): (m: map<nat, Header>)
    requires p in mem && bp in mem
  {
    if p + UNIT * mem[p].size == bp then mem[p := Header(mem[bp].ptr, mem[p].size + mem[bp].size)]
    else mem[p := Header(bp, mem[p].size)]
  }

  lemma PlaceAt(list: seq<Extent>, t: nat, c: Extent, i: nat)
    requires t < |list| && list[t].End() != c.addr && i <= |list|
    ensures |Place(list, t, c)| == |list| + 1
    ensures Place(list, t, c)[i] == if i <= t then list[i] else if i == t + 1 then c else list[i - 1]
    ensures i < t ==> Succ(Place(list, t, c), i) == Succ(list, i)
    ensures i == t ==> Succ(Place(list, t, c), i) == c.addr
    ensures i > t ==> Succ(Place(list, t, c), i) == Succ(list, i - 1)
  {
  }

  lemma PlacePair(list: seq<Extent>, t: nat, c: Extent, i: nat, j: nat)
    requires Sorted(list) && Between(list, t, c) && !TouchesNext(list, t, c) && list[t].End() != c.addr && i < j <= |list|
    ensures |Place(list, t, c)| == |list| + 1
    ensures Place(list, t, c)[i].End() < Place(list, t, c)[j].addr && 0 < Place(list, t, c)[j].units
  {
    PlaceAt(list, t, c, i);
    PlaceAt(list, t, c, j);
  }

  lemma PlaceSorted(list: seq<Extent>, t: nat, c: Extent)
    requires Sorted(list) && Between(list, t, c) && !TouchesNext(list, t, c)
    ensures Sorted(Place(list, t, c))
  {
    var r := Place(list, t, c);
    if list[t].End() == c.addr {
      assert t > 0;
    } else {
      PlaceAt(list, t, c, 0);
      forall i, j | 0 <= i < j < |r| ensures r[i].End() < r[j].addr && 0 < r[j].units {
        PlacePair(list, t, c, i, j);
      }
    }
  }

  lemma {:induction false} SumInsert(a: seq<Extent>, c: Extent, d: seq<Extent>)
    ensures Sum(a + [c] + d) == Sum(a + d) + c.units
  {
    SumConcat(a + [c], d);
    SumConcat(a, [c]);
    SumConcat(a, d);
    SumOne(c);
  }

  lemma {:induction false} SumGrow(list: seq<Extent>, t: nat, e: Extent)
    requires t < |list|
    ensures Sum(list[t := e]) + list[t].units == Sum(list) + e.units
  {
    SumAt(list, t);
    SumAt(list[t := e], t);
    assert list[t := e][..t] == list[..t] && list[t := e][t + 1..] == list[t + 1..];
  }

  lemma {:induction false} PlaceSum(list: seq<Extent>, t: nat, c: Extent)
    requires t < |list|
    ensures Sum(Place(list, t, c)) == Sum(list) + c.units
  {
    if list[t].End() == c.addr {
      SumGrow(list, t, Extent(list[t].addr, list[t].units + c.units));
    } else {
      assert list == list[..t + 1] + list[t + 1..];
      SumInsert(list[..t + 1], c, list[t + 1..]);
    }
  }

  /** One link of the list after its block t has grown. */
  lemma GrownLink(list: seq<Extent>, mem: map<nat, Header>, t: nat, c: Extent, i: nat)
    requires t < |list| && Hung(list, mem, t, c) && list[t].End() == c.addr && i < |list|
    requires i != t ==> list[i].addr != list[t].addr
    ensures var r, m := Place(list, t, c), JoinDown(mem, list[t].addr, c.addr);
      |r| == |list| && r[i].addr in m && m[r[i].addr] == Header(Succ(r, i), r[i].units)
  {
    assert Succ(Place(list, t, c), i) == Succ(list, i);
  }

  lemma GrownLinked(list: seq<Extent>, mem: map<nat, Header>, t: nat, c: Extent)
    requires Sorted(list) && t < |list| && Hung(list, mem, t, c) && list[t].End() == c.addr
    ensures Linked(Place(list, t, c), JoinDown(mem, list[t].addr, c.addr))
  {
    forall i | 0 <= i < |list|
      ensures var r, m := Place(list, t, c), JoinDown(mem, list[t].addr, c.addr);
        |r| == |list| && r[i].addr in m && m[r[i].addr] == Header(Succ(r, i), r[i].units)
    {
      if i != t {
        Apart(list, i, t);
      }
      GrownLink(list, mem, t, c, i);
    }
  }

  lemma SplicedLinked(list: seq<Extent>, mem: map<nat, Header>, t: nat, c: Extent)
    requires Sorted(list) && Between(list, t, c) && Hung(list, mem, t, c) && list[t].End() != c.addr
    ensures Linked(Place(list, t, c), JoinDown(mem, list[t].addr, c.addr))
  {
    var r, m := Place(list, t, c), JoinDown(mem, list[t].addr, c.addr);
    forall i | 0 <= i < |r| ensures r[i].addr in m && m[r[i].addr] == Header(Succ(r, i), r[i].units) {
      PlaceAt(list, t, c, i);
      if i < t {
        Apart(list, i, t);
      } else if i > t + 1 {
        Apart(list, i - 1, t);
      }
    }
  }

  lemma PlaceLinked(list: seq<Extent>, mem: map<nat, Header>, t: nat, c: Extent)
    requires Sorted(list) && Between(list, t, c) && Hung(list, mem, t, c)
    ensures Linked(Place(list, t, c), JoinDown(mem, list[t].addr, c.addr))
  {
    if list[t].End() == c.addr {
      GrownLinked(list, mem, t, c);
    } else {
      SplicedLinked(list, mem, t, c);
    }
  }

  ghost function Insert(list: seq<Extent>, t: nat, b: Extent): (r: seq<Extent>)
    requires t < |list|
  {
    Place(Rest(list, t, b), t, Taken(list, t, b))
  }

  /** Putting a block on the list keeps it sorted, linked and without touching blocks, and adds its units. */
  lemma {:induction false} InsertOk(list: seq<Extent>, mem: map<nat, Header>, t: nat, b: Extent)
    requires Sorted(list) && Linked(list, mem) && Between(list, t, b) && b.addr in mem && mem[b.addr].size == b.units
    ensures Sorted(Insert(list, t, b)) && Sum(Insert(list, t, b)) == Sum(list) + b.units
    ensures mem[list[t].addr].ptr in mem
    ensures Linked(Insert(list, t, b), JoinDown(JoinUp(mem, list[t].addr, b.addr), list[t].addr, b.addr))
  {
    TakeSorted(list, t, b);
    TakeSum(list, t, b);
    TakeHung(list, mem, t, b);
    var r, c := Rest(list, t, b), Taken(list, t, b);
    PlaceSorted(r, t, c);
    PlaceSum(r, t, c);
    PlaceLinked(r, JoinUp(mem, list[t].addr, b.addr), t, c);
  }

  // ----- blocks in use -----

  ghost predicate Disjoint(x: Extent, y: Extent) {
    x.End() <= y.addr || y.End() <= x.addr
  }

  /** x is above base and overlaps no free block. */
  ghost predicate Clear(list: seq<Extent>, x: Extent) {
    && 0 < |list| && 0 < x.units && list[0].addr + UNIT <= x.addr
    && forall i :: 1 <= i < |list| ==> Disjoint(list[i], x)
  }

  ghost predicate Within(x: Extent, mine: set<nat>) {
    forall a :: x.addr <= a < x.End() ==> a in mine
  }

  ghost predicate AllWithin(list: seq<Extent>, mine: set<nat>) {
    forall i :: 0 <= i < |list| ==> Within(list[i], mine)
  }

  lemma TakeClear(list: seq<Extent>, t: nat, b: Extent, x: Extent)
    requires Clear(list, x) && Disjoint(b, x) && Between(list, t, b)
    ensures Clear(Rest(list, t, b), x) && Disjoint(Taken(list, t, b), x)
  {
    forall i | 1 <= i < |Rest(list, t, b)| ensures Disjoint(Rest(list, t, b)[i], x) {
      RestAt(list, t, b, i);
    }
    assert TouchesNext(list, t, b) ==> Disjoint(list[t + 1], x);
  }

  lemma PlaceClear(list: seq<Extent>, t: nat, c: Extent, x: Extent)
    requires Clear(list, x) && Disjoint(c, x) && Between(list, t, c) && list[0].units == 0
    ensures Clear(Place(list, t, c), x)
  {
    var r := Place(list, t, c);
    if list[t].End() == c.addr {
      assert Disjoint(list[t], x);
    } else {
      PlaceAt(list, t, c, 0);
      forall i | 1 <= i < |r| ensures Disjoint(r[i], x) {
        PlaceAt(list, t, c, i);
      }
    }
  }

  /** What the new block does not overlap, it does not overlap on the list either. */
  lemma InsertClear(list: seq<Extent>, t: nat, b: Extent, x: Extent)
    requires Sorted(list) && Between(list, t, b) && Clear(list, x) && Disjoint(b, x)
    ensures Clear(Insert(list, t, b), x)
  {
    TakeSorted(list, t, b);
    TakeClear(list, t, b, x);
    PlaceClear(Rest(list, t, b), t, Taken(list, t, b), x);
  }

  lemma InsertWithin(list: seq<Extent>, t: nat, b: Extent, mine: set<nat>)
    requires Sorted(list) && Between(list, t, b) && AllWithin(list, mine) && Within(b, mine)
    ensures AllWithin(Insert(list, t, b), mine)
  {
    TakeSorted(list, t, b);
    var r, c := Rest(list, t, b), Taken(list, t, b);
    forall i | 0 <= i < |r| ensures Within(r[i], mine) {
      RestAt(list, t, b, i);
    }
    assert TouchesNext(list, t, b) ==> Within(list[t + 1], mine);
    assert Within(c, mine);
    PlaceWithin(r, t, c, mine);
  }

  lemma PlaceWithin(list: seq<Extent>, t: nat, c: Extent, mine: set<nat>)
    requires t < |list| && AllWithin(list, mine) && Within(c, mine)
    ensures AllWithin(Place(list, t, c), mine)
  {
    var r := Place(list, t, c);
    if list[t].End() == c.addr {
      assert Within(list[t], mine);
    } else {
      PlaceAt(list, t, c, 0);
      forall i | 0 <= i < |r| ensures Within(r[i], mine) {
        PlaceAt(list, t, c, i);
      }
    }
  }

  /** The blocks in use: their headers hold their sizes, and they overlap neither free blocks nor each other. */
  ghost predicate InUse(live: seq<Extent>, list: seq<Extent>, mem: map<nat, Header>) {
    && (forall k :: 0 <= k < |live| ==> live[k].addr in mem && mem[live[k].addr].size == live[k].units && Clear(list, live[k]))
    && (forall j, k :: 0 <= j < k < |live| ==> Disjoint(live[j], live[k]))
  }

  /** The allocator's record: free blocks, blocks in use, memory obtained from sbrk and how much of it. */
  datatype Books = Books(list: seq<Extent>, live: seq<Extent>, mine: set<nat>, obtained: nat, brk: nat)

  /** Always true; Sound is looked into only where this is mentioned. */
  ghost predicate Open(s: Books) {
    true
  }

  ghost predicate SoundIn(s: Books, mem: map<nat, Header>) {
    && Sorted(s.list) && Linked(s.list, mem) && InUse(s.live, s.list, mem)
    && AllWithin(s.list, s.mine) && AllWithin(s.live, s.mine)
    && Sum(s.list) + Sum(s.live) == s.obtained
    && s.list[0].addr + UNIT <= s.brk && (forall a :: a in s.mine ==> s.list[0].addr + UNIT <= a < s.brk)
  }

  /** The free list is ordered and linked, no blocks overlap, all lie in memory obtained from sbrk, and
      free units plus units in use are those obtained. */
  ghost function Sound(s: Books, mem: map<nat, Header>): (r: Claim) {
    Claim(forall x {:trigger Open(x)} :: x == s && Open(x) ==> SoundIn(x, mem))
  }

  lemma SoundMeans(s: Books, mem: map<nat, Header>)
    ensures Sound(s, mem).holds <==> SoundIn(s, mem)
  {
    assert Open(s);
  }

  lemma ListSorted(s: Books, mem: map<nat, Header>)
    requires Sound(s, mem).holds
    ensures Sorted(s.list)
  {
    SoundMeans(s, mem);
  }

  lemma LinkAt(s: Books, mem: map<nat, Header>, j: nat)
    requires Sound(s, mem).holds && j < |s.list|
    ensures s.list[j].addr in mem && mem[s.list[j].addr] == Header(Succ(s.list, j), s.list[j].units) && mem[s.list[j].addr].ptr in mem
    ensures s.list[0].units == 0
  {
    SoundMeans(s, mem);
    var k := Step(s.list, j);
    assert s.list[k].addr in mem;
  }

  /** Where a block that overlaps no free block belongs. */
  lemma Spot(list: seq<Extent>, b: Extent) returns (t: nat)
    requires Sorted(list) && Clear(list, b)
    ensures Between(list, t, b)
  {
    t := 0;
    while t + 1 < |list| && list[t + 1].addr < b.addr
      invariant t < |list| && list[t].addr < b.addr && (t > 0 ==> list[t].End() <= b.addr)
    {
      assert Disjoint(list[t + 1], b);
      t := t + 1;
    }
    assert t + 1 < |list| ==> Disjoint(list[t + 1], b);
  }

  ghost predicate DisjointAll(live: seq<Extent>, b: Extent) {
    forall k :: 0 <= k < |live| ==> Disjoint(b, live[k])
  }

  /** A block that is neither free nor in use, with its size in its header. */
  ghost predicate Loose(s: Books, mem: map<nat, Header>, b: Extent) {
    && Clear(s.list, b) && DisjointAll(s.live, b) && Within(b, s.mine)
    && b.addr in mem && mem[b.addr].size == b.units
  }

  function Freed(mem: map<nat, Header>, p: nat, bp: nat): (m: map<nat, Header>)
    requires p in mem && bp in mem && mem[p].ptr in mem
  {
    JoinDown(JoinUp(mem, p, bp), p, bp)
  }

  ghost function Gain(s: Books, t: nat, b: Extent): (r: Books)
    requires t < |s.list|
  {
    Books(Insert(s.list, t, b), s.live, s.mine, s.obtained + b.units, s.brk)
  }

  lemma InsertHead(list: seq<Extent>, t: nat, b: Extent)
    requires Sorted(list) && Between(list, t, b)
    ensures 0 < |Insert(list, t, b)| && Insert(list, t, b)[0].addr == list[0].addr
    ensures t < |Insert(list, t, b)| && Insert(list, t, b)[t].addr == list[t].addr
  {
    TakeSorted(list, t, b);
    RestAt(list, t, b, 0);
    var r, c := Rest(list, t, b), Taken(list, t, b);
    if r[t].End() != c.addr {
      PlaceAt(r, t, c, 0);
      PlaceAt(r, t, c, t);
    }
  }

  lemma FreedUse(live: seq<Extent>, list: seq<Extent>, mem: map<nat, Header>, t: nat, b: Extent)
    requires Sorted(list) && Linked(list, mem) && InUse(live, list, mem) && Between(list, t, b) && b.addr in mem
    requires DisjointAll(live, b) && mem[list[t].addr].ptr in mem
    ensures InUse(live, Insert(list, t, b), Freed(mem, list[t].addr, b.addr))
  {
    var m := Freed(mem, list[t].addr, b.addr);
    forall k | 0 <= k < |live|
      ensures live[k].addr in m && m[live[k].addr].size == live[k].units && Clear(Insert(list, t, b), live[k])
    {
      InsertClear(list, t, b, live[k]);
      NotAt(list, t, live[k]);
      assert Disjoint(b, live[k]);
    }
  }

  lemma NotAt(list: seq<Extent>, t: nat, x: Extent)
    requires Sorted(list) && Clear(list, x) && t < |list|
    ensures x.addr != list[t].addr
  {
    assert t > 0 ==> Disjoint(list[t], x);
  }

  lemma {:induction false} GainSound(s: Books, mem: map<nat, Header>, t: nat, b: Extent)
    requires Sound(s, mem).holds && Loose(s, mem, b) && Between(s.list, t, b)
    ensures s.list[t].addr in mem && mem[s.list[t].addr].ptr in mem
    ensures Sound(Gain(s, t, b), Freed(mem, s.list[t].addr, b.addr)).holds
  {
    SoundMeans(s, mem);
    assert Open(Gain(s, t, b));
    InsertOk(s.list, mem, t, b);
    InsertHead(s.list, t, b);
    InsertWithin(s.list, t, b, s.mine);
    FreedUse(s.live, s.list, mem, t, b);
  }

  // ----- taking blocks off and putting them back -----

  ghost function Drop(live: seq<Extent>, k: nat): (r: seq<Extent>)
    requires k < |live|
  {
    live[..k] + live[k + 1..]
  }

  lemma DropAt(live: seq<Extent>, k: nat, i: nat)
    requires k < |live| && i < |live| - 1
    ensures Drop(live, k)[i] == live[if i < k then i else i + 1]
  {
  }

  /** What the caller of free gives back. */
  lemma {:induction false} GiveBack(s: Books, mem: map<nat, Header>, k: nat)
    requires Sound(s, mem).holds && k < |s.live|
    ensures s.live[k].units <= s.obtained
    ensures var r := Books(s.list, Drop(s.live, k), s.mine, s.obtained - s.live[k].units, s.brk);
      Sound(r, mem).holds && Loose(r, mem, s.live[k])
  {
    SoundMeans(s, mem);
    SumAt(s.live, k);
    assert Open(Books(s.list, Drop(s.live, k), s.mine, s.obtained - s.live[k].units, s.brk));
    SumConcat(s.live[..k], s.live[k + 1..]);
    var d := Drop(s.live, k);
    forall i | 0 <= i < |d| ensures Disjoint(s.live[k], d[i]) && Within(d[i], s.mine) && d[i].addr in mem && mem[d[i].addr].size == d[i].units && Clear(s.list, d[i]) {
      DropAt(s.live, k, i);
    }
    forall i, j | 0 <= i < j < |d| ensures Disjoint(d[i], d[j]) {
      DropAt(s.live, k, i);
      DropAt(s.live, k, j);
    }
  }

  ghost function Span(b: Extent): (r: set<nat>)
    ensures forall a :: a in r <==> b.addr <= a < b.End()
  {
    Range(b.addr, b.End())
  }

  ghost function Range(lo: nat, hi: nat): (r: set<nat>)
    ensures forall a :: a in r <==> lo <= a < hi
    decreases hi - lo
  {
    if lo >= hi then {} else {lo} + Range(lo + 1, hi)
  }

  lemma BelowBreak(s: Books, mem: map<nat, Header>, x: Extent)
    requires Sound(s, mem).holds && Within(x, s.mine) && 0 < x.units
    ensures x.End() <= s.brk
  {
    SoundMeans(s, mem);
    assert x.End() - 1 in s.mine;
  }

  /** A new region above everything obtained so far. */
  lemma {:induction false} Obtain(s: Books, mem: map<nat, Header>, b: Extent, h: Header)
    requires Sound(s, mem).holds && s.brk <= b.addr && 0 < b.units && h.size == b.units
    ensures var r := Books(s.list, s.live, s.mine + Span(b), s.obtained, b.End());
      Sound(r, mem[b.addr := h]).holds && Loose(r, mem[b.addr := h], b)
  {
    SoundMeans(s, mem);
    assert Open(Books(s.list, s.live, s.mine + Span(b), s.obtained, b.End()));
    forall i | 1 <= i < |s.list| ensures s.list[i].End() <= s.brk {
      BelowBreak(s, mem, s.list[i]);
    }
    forall k | 0 <= k < |s.live| ensures s.live[k].End() <= s.brk {
      BelowBreak(s, mem, s.live[k]);
    }
    ObtainWithin(s.list, s.mine, b);
    ObtainWithin(s.live, s.mine, b);
  }

  lemma ObtainWithin(list: seq<Extent>, mine: set<nat>, b: Extent)
    requires AllWithin(list, mine)
    ensures AllWithin(list, mine + Span(b))
  {
    forall i | 0 <= i < |list| ensures Within(list[i], mine + Span(b)) {
      assert Within(list[i], mine);
    }
  }

  /** Taking a whole block off the list: the one before it points past it. */
  function Unlinked(mem: map<nat, Header>, prevp: nat, p: nat): (m: map<nat, Header>)
    requires prevp in mem && p in mem
  {
    mem[prevp := Header(mem[p].ptr, mem[prevp].size)]
  }

  lemma DropSorted(list: seq<Extent>, j: nat)
    requires Sorted(list) && 1 <= j < |list|
    ensures Sorted(Drop(list, j))
  {
    var d := Drop(list, j);
    DropAt(list, j, 0);
    forall i, k | 0 <= i < k < |d| ensures d[i].End() < d[k].addr && 0 < d[k].units {
      DropAt(list, j, i);
      DropAt(list, j, k);
    }
  }

  lemma DropSucc(list: seq<Extent>, j: nat, i: nat)
    requires 1 <= j < |list| && i < |list| - 1
    ensures Succ(Drop(list, j), i) == if i < j - 1 then Succ(list, i) else Succ(list, i + 1)
  {
    DropAt(list, j, 0);
    if i + 1 < |list| - 1 {
      DropAt(list, j, i + 1);
    }
  }

  lemma UnlinkLink(list: seq<Extent>, mem: map<nat, Header>, j: nat, i: nat)
    requires Linked(list, mem) && 1 <= j < |list| && i < |list| - 1
    requires i != j - 1 ==> list[if i < j then i else i + 1].addr != list[j - 1].addr
    ensures var d, m := Drop(list, j), Unlinked(mem, list[j - 1].addr, list[j].addr);
      d[i].addr in m && m[d[i].addr] == Header(Succ(d, i), d[i].units)
  {
    DropAt(list, j, i);
    DropSucc(list, j, i);
  }

  lemma UnlinkLinked(list: seq<Extent>, mem: map<nat, Header>, j: nat)
    requires Sorted(list) && Linked(list, mem) && 1 <= j < |list|
    ensures Linked(Drop(list, j), Unlinked(mem, list[j - 1].addr, list[j].addr))
  {
    var d, m := Drop(list, j), Unlinked(mem, list[j - 1].addr, list[j].addr);
    forall i | 0 <= i < |d| ensures d[i].addr in m && m[d[i].addr] == Header(Succ(d, i), d[i].units) {
      if i != j - 1 {
        Apart(list, if i < j then i else i + 1, j - 1);
      }
      UnlinkLink(list, mem, j, i);
    }
  }

  /** Splitting a block: the tail is handed out. */
  function SplitOff(mem: map<nat, Header>, p: nat, n: nat): (m: map<nat, Header>)
    requires p in mem && n < mem[p].size
  {
    var q := p + UNIT * (mem[p].size - n);
    mem[p := Header(mem[p].ptr, mem[p].size - n)][q := Header(if q in mem then mem[q].ptr else 0, n)]
  }

  ghost function Head(e: Extent, n: nat): (h: Extent)
    requires n < e.units
  {
    Extent(e.addr, e.units - n)
  }

  ghost function Tail(e: Extent, n: nat): (t: Extent)
    requires n <= e.units
  {
    Extent(e.addr + UNIT * (e.units - n), n)
  }

  lemma HeadSorted(list: seq<Extent>, j: nat, n: nat)
    requires Sorted(list) && 1 <= j < |list| && 0 < n < list[j].units
    ensures Sorted(list[j := Head(list[j], n)])
  {
  }

  /** One link after the split; the handed-out tail is not on the list. */
  lemma SplitLink(list: seq<Extent>, mem: map<nat, Header>, j: nat, n: nat, i: nat)
    requires Linked(list, mem) && 1 <= j < |list| && 0 < n < list[j].units && i < |list|
    requires i != j ==> list[i].addr != list[j].addr && list[i].addr != list[j].addr + UNIT * (list[j].units - n)
    ensures list[j].addr in mem && mem[list[j].addr].size == list[j].units
    ensures var r, m := list[j := Head(list[j], n)], SplitOff(mem, list[j].addr, n);
      r[i].addr in m && m[r[i].addr] == Header(Succ(r, i), r[i].units)
  {
    assert Succ(list[j := Head(list[j], n)], i) == Succ(list, i);
    assert mem[list[i].addr] == Header(Succ(list, i), list[i].units);
    assert mem[list[j].addr] == Header(Succ(list, j), list[j].units);
  }

  lemma SplitLinked(list: seq<Extent>, mem: map<nat, Header>, j: nat, n: nat)
    requires Sorted(list) && Linked(list, mem) && 1 <= j < |list| && 0 < n < list[j].units
    ensures list[j].addr in mem && mem[list[j].addr].size == list[j].units
    ensures Linked(list[j := Head(list[j], n)], SplitOff(mem, list[j].addr, n))
  {
    SplitLink(list, mem, j, n, j);
    var r, m := list[j := Head(list[j], n)], SplitOff(mem, list[j].addr, n);
    forall i | 0 <= i < |r| ensures r[i].addr in m && m[r[i].addr] == Header(Succ(r, i), r[i].units) {
      if i < j {
        Below(list, i, j);
      } else if j < i {
        Below(list, j, i);
      }
      SplitLink(list, mem, j, n, i);
    }
  }

  /** The last n units of free block j, handed out. */
  ghost function Lend(s: Books, j: nat, n: nat): (r: Books)
    requires j < |s.list| && n <= s.list[j].units
  {
    Books(if n == s.list[j].units then Drop(s.list, j) else s.list[j := Head(s.list[j], n)],
          s.live + [Tail(s.list[j], n)], s.mine, s.obtained, s.brk)
  }

  function Lent(mem: map<nat, Header>, prevp: nat, p: nat, n: nat): (m: map<nat, Header>)
    requires prevp in mem && p in mem && n <= mem[p].size
  {
    if n == mem[p].size then Unlinked(mem, prevp, p) else SplitOff(mem, p, n)
  }

  /** A block of the new list, other than base, is all or the front of one of the old list. */
  lemma LendAt(s: Books, j: nat, n: nat, i: nat) returns (k: nat)
    requires 1 <= j < |s.list| && 0 < n <= s.list[j].units && Sorted(s.list) && i < |Lend(s, j, n).list|
    ensures k < |s.list| && (1 <= i ==> 1 <= k) && (i == 0 ==> k == 0)
    ensures Lend(s, j, n).list[i].addr == s.list[k].addr && Lend(s, j, n).list[i].End() <= s.list[k].End()
    ensures k == j ==> n < s.list[j].units && Lend(s, j, n).list[i] == Head(s.list[j], n)
  {
    if n == s.list[j].units {
      DropAt(s.list, j, i);
      k := if i < j then i else i + 1;
    } else {
      k := i;
    }
  }

  lemma LendClear(s: Books, j: nat, n: nat, x: Extent)
    requires Sorted(s.list) && 1 <= j < |s.list| && 0 < n <= s.list[j].units && Clear(s.list, x)
    ensures Clear(Lend(s, j, n).list, x)
  {
    var r := Lend(s, j, n).list;
    var k0 := LendAt(s, j, n, 0);
    forall i | 1 <= i < |r| ensures Disjoint(r[i], x) {
      var k := LendAt(s, j, n, i);
    }
  }

  lemma LendTail(s: Books, j: nat, n: nat)
    requires Sorted(s.list) && 1 <= j < |s.list| && 0 < n <= s.list[j].units && s.list[0].addr + UNIT <= s.list[j].addr
    ensures Clear(Lend(s, j, n).list, Tail(s.list[j], n))
  {
    var r := Lend(s, j, n).list;
    var k0 := LendAt(s, j, n, 0);
    forall i | 1 <= i < |r| ensures Disjoint(r[i], Tail(s.list[j], n)) {
      var k := LendAt(s, j, n, i);
    }
  }

  lemma {:induction false} LendSum(s: Books, j: nat, n: nat)
    requires 1 <= j < |s.list| && 0 < n <= s.list[j].units
    ensures Sum(Lend(s, j, n).list) + Sum(Lend(s, j, n).live) == Sum(s.list) + Sum(s.live)
  {
    SumConcat(s.live, [Tail(s.list[j], n)]);
    SumOne(Tail(s.list[j], n));
    if n == s.list[j].units {
      SumAt(s.list, j);
      SumConcat(s.list[..j], s.list[j + 1..]);
    } else {
      SumGrow(s.list, j, Head(s.list[j], n));
    }
  }

  lemma LendWithin(s: Books, j: nat, n: nat)
    requires Sorted(s.list) && 1 <= j < |s.list| && 0 < n <= s.list[j].units && AllWithin(s.list, s.mine) && AllWithin(s.live, s.mine)
    ensures AllWithin(Lend(s, j, n).list, s.mine) && AllWithin(Lend(s, j, n).live, s.mine)
  {
    var r := Lend(s, j, n);
    forall i | 0 <= i < |r.list| ensures Within(r.list[i], s.mine) {
      var k := LendAt(s, j, n, i);
      assert Within(s.list[k], s.mine);
    }
    assert Within(s.list[j], s.mine);
    assert Within(Tail(s.list[j], n), s.mine);
  }

  lemma LendUse(s: Books, mem: map<nat, Header>, j: nat, n: nat)
    requires Sorted(s.list) && Linked(s.list, mem) && InUse(s.live, s.list, mem) && 1 <= j < |s.list| && 0 < n <= s.list[j].units
    requires s.list[0].addr + UNIT <= s.list[j].addr
    ensures mem[s.list[j].addr].size == s.list[j].units
    ensures InUse(Lend(s, j, n).live, Lend(s, j, n).list, Lent(mem, s.list[j - 1].addr, s.list[j].addr, n))
  {
    var e := s.list[j];
    var t := Tail(e, n);
    var r, m := Lend(s, j, n), Lent(mem, s.list[j - 1].addr, e.addr, n);
    assert mem[e.addr] == Header(Succ(s.list, j), e.units);
    LendTail(s, j, n);
    assert t.addr in m && m[t.addr].size == n by {
      Apart(s.list, j - 1, j);
    }
    forall k | 0 <= k < |s.live|
      ensures s.live[k].addr in m && m[s.live[k].addr].size == s.live[k].units && Clear(r.list, s.live[k]) && Disjoint(s.live[k], t)
    {
      LendClear(s, j, n, s.live[k]);
      NotAt(s.list, j - 1, s.live[k]);
      NotAt(s.list, j, s.live[k]);
      assert Disjoint(e, s.live[k]);
    }
  }

  lemma {:induction false} LendSound(s: Books, mem: map<nat, Header>, j: nat, n: nat)
    requires Sound(s, mem).holds && 1 <= j < |s.list| && 0 < n <= s.list[j].units
    ensures s.list[j].addr in mem && s.list[j - 1].addr in mem && mem[s.list[j].addr].size == s.list[j].units
    ensures Sound(Lend(s, j, n), Lent(mem, s.list[j - 1].addr, s.list[j].addr, n)).holds
  {
    SoundMeans(s, mem);
    assert Open(Lend(s, j, n));
    assert s.list[j].addr in s.mine by { assert Within(s.list[j], s.mine); }
    LendUse(s, mem, j, n);
    LendSum(s, j, n);
    LendWithin(s, j, n);
    var k0 := LendAt(s, j, n, 0);
    if n == s.list[j].units {
      DropSorted(s.list, j);
      UnlinkLinked(s.list, mem, j);
    } else {
      HeadSorted(s.list, j, n);
      SplitLinked(s.list, mem, j, n);
    }
  }

  lemma LendReady(s: Books, mem: map<nat, Header>, j: nat, n: nat)
    requires Sound(s, mem).holds && 1 <= j < |s.list| && 0 < n <= s.list[j].units
    ensures s.list[j].addr in mem && s.list[j - 1].addr in mem && mem[s.list[j].addr].size == s.list[j].units
    ensures Sound(Lend(s, j, n), Lent(mem, s.list[j - 1].addr, s.list[j].addr, n)).holds
    ensures j - 1 < |Lend(s, j, n).list| && Lend(s, j, n).list[j - 1].addr == s.list[j - 1].addr
    ensures Lend(s, j, n).list[0].addr == s.list[0].addr
  {
    LinkAt(s, mem, j);
    LinkAt(s, mem, j - 1);
    LendSound(s, mem, j, n);
    if n == s.list[j].units {
      DropAt(s.list, j, 0);
      DropAt(s.list, j, j - 1);
    }
  }

  // ----- sizes -----

  const CORE := 4096

  /** nunits, with the wrap-around of the 32-bit sum. */
  function Units(nbytes: nat): (n: nat)
    requires nbytes < WORDMAX
    ensures 1 <= n
  {
    (nbytes + UNIT - 1) % WORDMAX / UNIT + 1
  }

  /** The block handed out has room for the request, and not a unit more than that takes, exactly if the sum
      does not wrap; if it does, there is room for nothing. */
  lemma UnitsSuffice(nbytes: nat)
    requires nbytes < WORDMAX
    ensures UNIT * (Units(nbytes) - 1) >= nbytes <==> nbytes <= WORDMAX - UNIT
    ensures nbytes <= WORDMAX - UNIT ==> UNIT * (Units(nbytes) - 1) < nbytes + UNIT
    ensures nbytes > WORDMAX - UNIT ==> Units(nbytes) == 1
  {
  }

  /** morecore asks for no less than CORE units. */
  function Core(n: nat): (nu: nat)
    ensures n <= nu && CORE <= nu && (nu == n || nu == CORE)
  {
    if n < CORE then CORE else n
  }

  /** sbrk's argument nu * 8, converted to int. */
  function SbrkArg(nu: nat): (x: int) {
    var y := nu * UNIT % WORDMAX;
    if y < WORDMAX / 2 then y else y - WORDMAX
  }

  /** Up to here, sbrk is asked for what morecore goes on to use. */
  predicate Asked(nbytes: nat) {
    nbytes <= WORDMAX / 2 - 16 || nbytes > WORDMAX - UNIT
  }

  lemma SbrkAsked(nbytes: nat)
    requires nbytes < WORDMAX
    ensures Asked(nbytes) <==> SbrkArg(Core(Units(nbytes))) == UNIT * Core(Units(nbytes))
  {
  }

  /** The bytes of the heap after sbrk(x) has answered a, the break until then. */
  ghost function Resized(heap: set<nat>, a: nat, x: int): (r: set<nat>) {
    if x >= 0 then heap + Range(a, a + x) else set y | y in heap && y < a + x
  }

  ghost predicate AllBelow(heap: set<nat>, a: nat) {
    forall y :: y in heap ==> y < a
  }

  lemma SbrkAtMost(nu: nat)
    ensures SbrkArg(nu) <= UNIT * nu
  {
  }

  /** The block morecore files is memory it got exactly if it asked sbrk for as much. */
  lemma GotAll(mine: set<nat>, heap: set<nat>, a: nat, nu: nat)
    requires mine <= heap && AllBelow(heap, a) && 0 < nu
    ensures mine + Span(Extent(a, nu)) <= Resized(heap, a, SbrkArg(nu)) <==> SbrkArg(nu) == UNIT * nu
  {
    SbrkAtMost(nu);
    var last := a + UNIT * nu - 1;
    assert last in Span(Extent(a, nu)) && last !in heap;
  }

  /** malloc needs more memory and gets an answer, but to a request smaller than its need. */
  ghost predicate Starved(list: seq<Extent>, nbytes: nat, sbrk: Option<nat>)
    requires nbytes < WORDMAX
  {
    !Asked(nbytes) && NoFit(list, Units(nbytes)) && sbrk.Some?
  }

  // ----- the searches -----

  /** What free's search sees at the j-th block. */
  lemma Here(list: seq<Extent>, t: nat, b: Extent, j: nat)
    requires Sorted(list) && Between(list, t, b) && j < |list|
    ensures var p, q := list[j].addr, Succ(list, j);
      (b.addr > p && b.addr < q) || (p >= q && (b.addr > p || b.addr < q)) <==> j == t
  {
    Below(list, 0, j);
    if j < t {
      Below(list, j, j + 1);
      Below(list, j + 1, t);
    } else if j > t {
      Below(list, t + 1, j);
      if j + 1 < |list| {
        Below(list, j, j + 1);
      }
    }
  }

  lemma Below(list: seq<Extent>, i: nat, j: nat)
    requires Sorted(list) && i <= j < |list|
    ensures list[i].addr <= list[j].addr && (i < j ==> list[i].End() < list[j].addr)
  {
  }

  /** b is all within one block of the list. */
  ghost predicate Holds(list: seq<Extent>, b: Extent) {
    exists i :: 0 <= i < |list| && list[i].addr <= b.addr && b.End() <= list[i].End()
  }

  lemma InsertHolds(list: seq<Extent>, t: nat, b: Extent)
    requires Sorted(list) && Between(list, t, b)
    ensures Holds(Insert(list, t, b), b)
  {
    TakeSorted(list, t, b);
    var r, c := Rest(list, t, b), Taken(list, t, b);
    var q := Insert(list, t, b);
    var i := if r[t].End() == c.addr then t else t + 1;
    assert q[i].addr <= b.addr && b.End() <= q[i].End();
  }

  // ----- malloc's search -----

  /** No free block has n units. */
  ghost predicate NoFit(list: seq<Extent>, n: nat) {
    forall i :: 0 <= i < |list| ==> list[i].units < n
  }

  lemma HoldsFits(list: seq<Extent>, b: Extent, n: nat)
    requires Holds(list, b) && n <= b.units
    ensures !NoFit(list, n)
  {
  }

  ghost function Step(list: seq<Extent>, j: nat): (k: nat)
    requires j < |list|
    ensures k < |list| && Succ(list, j) == list[k].addr
  {
    if j + 1 < |list| then j + 1 else 0
  }

  /** Going round from f, the blocks after f and before j are too small. */
  ghost predicate Passed(list: seq<Extent>, f: nat, j: nat, n: nat) {
    forall i :: 0 <= i < |list| && (if f < j then f < i < j else f < i || i < j) ==> list[i].units < n
  }

  /** Going round from the one after f, block j is the first that is large enough. */
  ghost predicate FirstFit(list: seq<Extent>, f: nat, j: nat, n: nat) {
    1 <= j < |list| && n <= list[j].units && Passed(list, f, j, n)
  }

  ghost function Left(list: seq<Extent>, f: nat, j: nat): (d: int) {
    if j > f then |list| - j + f else f - j
  }

  lemma PassOn(list: seq<Extent>, f: nat, j: nat, n: nat)
    requires f < |list| && j < |list| && j != f && Passed(list, f, j, n) && list[j].units < n
    ensures Passed(list, f, Step(list, j), n) && 0 <= Left(list, f, Step(list, j)) < Left(list, f, j)
  {
  }

  lemma PassStart(list: seq<Extent>, f: nat, n: nat)
    requires f < |list|
    ensures Passed(list, f, Step(list, f), n)
  {
  }

  lemma PassAll(list: seq<Extent>, f: nat, n: nat)
    requires f < |list| && Passed(list, f, f, n) && list[f].units < n
    ensures NoFit(list, n)
  {
  }

  ghost function Pred(list: seq<Extent>, j: nat): (i: nat)
    requires j < |list|
    ensures i < |list|
  {
    if j == 0 then |list| - 1 else j - 1
  }

  lemma SameBlock(list: seq<Extent>, i: nat, j: nat)
    requires Sorted(list) && i < |list| && j < |list| && list[i].addr == list[j].addr
    ensures i == j
  {
    if i != j {
      Apart(list, i, j);
    }
  }

  /** malloc at block p, the j-th, having passed those between freep and it. Before sbrk is called
      nothing has changed; after it some block is large enough. */
  ghost function Search(s: Books, mem: map<nat, Header>, at: nat, j: nat, prevp: nat, p: nat, n: nat,
                        grew: bool, s0: Books, m0: map<nat, Header>): (r: Claim)
  {
    Claim(&& Sound(s, mem).holds && at < |s.list| && j < |s.list|
          && p == s.list[j].addr && prevp == s.list[Pred(s.list, j)].addr && Passed(s.list, at, j, n)
          && s.live == s0.live && s.obtained == s0.obtained + (if grew then Core(n) else 0)
          && (if grew then !NoFit(s.list, n) && NoFit(s0.list, n) else s == s0 && mem == m0)
          && Spared(m0, mem, s0.live))
  }

  lemma SearchStart(s: Books, mem: map<nat, Header>, at: nat, n: nat, grew: bool, s0: Books, m0: map<nat, Header>)
    requires Sound(s, mem).holds && at < |s.list|
    requires s.live == s0.live && s.obtained == s0.obtained + (if grew then Core(n) else 0)
    requires if grew then !NoFit(s.list, n) && NoFit(s0.list, n) else s == s0 && mem == m0
    requires Spared(m0, mem, s0.live)
    ensures s.list[at].addr in mem && mem[s.list[at].addr].ptr in mem
    ensures Search(s, mem, at, Step(s.list, at), s.list[at].addr, mem[s.list[at].addr].ptr, n, grew, s0, m0).holds
  {
    PassStart(s.list, at, n);
    LinkAt(s, mem, at);
  }

  lemma SearchOn(s: Books, mem: map<nat, Header>, at: nat, j: nat, prevp: nat, p: nat, n: nat,
                 grew: bool, s0: Books, m0: map<nat, Header>)
    requires Search(s, mem, at, j, prevp, p, n, grew, s0, m0).holds && p in mem && mem[p].size < n && p != s.list[at].addr
    ensures mem[p].ptr in mem && Search(s, mem, at, Step(s.list, j), p, mem[p].ptr, n, grew, s0, m0).holds
    ensures 0 <= Left(s.list, at, Step(s.list, j)) < Left(s.list, at, j)
  {
    LinkAt(s, mem, j);
    PassOn(s.list, at, j, n);
  }

  /** Back at freep: every block is too small, so sbrk has not been called yet. */
  lemma Exhausted(s: Books, mem: map<nat, Header>, at: nat, j: nat, prevp: nat, p: nat, n: nat,
                  grew: bool, s0: Books, m0: map<nat, Header>)
    requires Search(s, mem, at, j, prevp, p, n, grew, s0, m0).holds && p in mem && mem[p].size < n && p == s.list[at].addr
    ensures !grew && NoFit(s0.list, n) && s == s0 && mem == m0
  {
    SoundMeans(s, mem);
    SameBlock(s.list, j, at);
    LinkAt(s, mem, j);
    PassAll(s.list, at, n);
  }

  lemma Found(s: Books, mem: map<nat, Header>, at: nat, j: nat, prevp: nat, p: nat, n: nat,
              grew: bool, s0: Books, m0: map<nat, Header>)
    requires Search(s, mem, at, j, prevp, p, n, grew, s0, m0).holds && p in mem && n <= mem[p].size && 0 < n
    ensures 1 <= j < |s.list| && n <= s.list[j].units && p == s.list[j].addr && prevp == s.list[j - 1].addr
    ensures s.live == s0.live && s.obtained == s0.obtained + (if grew then Core(n) else 0) && (grew ==> NoFit(s0.list, n))
    ensures Spared(m0, mem, s0.live)
    ensures !grew ==> s == s0 && !NoFit(s0.list, n) && FirstFit(s0.list, at, j, n)
  {
    LinkAt(s, mem, j);
  }

  // ----- what is left alone -----

  /** No header was written inside a block in use. */
  ghost predicate Spared(m: map<nat, Header>, m': map<nat, Header>, live: seq<Extent>) {
    forall k, a :: 0 <= k < |live| && live[k].addr <= a < live[k].End() ==>
      (a in m' <==> a in m) && (a in m ==> m'[a] == m[a])
  }

  lemma SparedBy(m: map<nat, Header>, live: seq<Extent>, a: nat, h: Header)
    requires forall k :: 0 <= k < |live| ==> !(live[k].addr <= a < live[k].End())
    ensures Spared(m, m[a := h], live)
  {
  }

  lemma SparedTwice(m: map<nat, Header>, m': map<nat, Header>, m'': map<nat, Header>, live: seq<Extent>)
    requires Spared(m, m', live) && Spared(m', m'', live)
    ensures Spared(m, m'', live)
  {
  }

  /** A free or loose block starts inside no block in use. */
  lemma StartsOutside(live: seq<Extent>, e: Extent)
    requires 0 < e.units && DisjointAll(live, e)
    ensures forall k :: 0 <= k < |live| ==> !(live[k].addr <= e.addr < live[k].End())
  {
    forall k | 0 <= k < |live| ensures !(live[k].addr <= e.addr < live[k].End()) {
      assert Disjoint(e, live[k]);
    }
  }

  lemma ListOutside(s: Books, mem: map<nat, Header>, t: nat)
    requires Sorted(s.list) && InUse(s.live, s.list, mem) && t < |s.list|
    ensures forall k :: 0 <= k < |s.live| ==> !(s.live[k].addr <= s.list[t].addr < s.live[k].End())
  {
    forall k | 0 <= k < |s.live| ensures !(s.live[k].addr <= s.list[t].addr < s.live[k].End()) {
      assert Clear(s.list, s.live[k]);
      assert t > 0 ==> Disjoint(s.list[t], s.live[k]);
    }
  }

  lemma FreedSpares(s: Books, mem: map<nat, Header>, t: nat, b: Extent)
    requires Sound(s, mem).holds && Loose(s, mem, b) && t < |s.list| && s.list[t].addr in mem && mem[s.list[t].addr].ptr in mem
    ensures Spared(mem, Freed(mem, s.list[t].addr, b.addr), s.live)
  {
    SoundMeans(s, mem);
    var p := s.list[t].addr;
    ListOutside(s, mem, t);
    StartsOutside(s.live, b);
    var m1 := JoinUp(mem, p, b.addr);
    SparedBy(mem, s.live, b.addr, m1[b.addr]);
    var m2 := JoinDown(m1, p, b.addr);
    SparedBy(m1, s.live, p, m2[p]);
    SparedTwice(mem, m1, m2, s.live);
  }

  lemma LentSpares(s: Books, mem: map<nat, Header>, j: nat, n: nat)
    requires Sound(s, mem).holds && 1 <= j < |s.list| && 0 < n <= s.list[j].units
    requires s.list[j - 1].addr in mem && s.list[j].addr in mem && mem[s.list[j].addr].size == s.list[j].units
    ensures Spared(mem, Lent(mem, s.list[j - 1].addr, s.list[j].addr, n), s.live)
  {
    var e := s.list[j];
    if n == e.units {
      FreeOutside(s, mem, j - 1);
      SparedBy(mem, s.live, s.list[j - 1].addr, Unlinked(mem, s.list[j - 1].addr, e.addr)[s.list[j - 1].addr]);
    } else {
      FreeOutside(s, mem, j);
      TailOutside(s, mem, j, n);
      StartsOutside(s.live, Tail(e, n));
      SplitSpares(mem, s.live, e.addr, n);
    }
  }

  lemma FreeOutside(s: Books, mem: map<nat, Header>, t: nat)
    requires Sound(s, mem).holds && t < |s.list|
    ensures forall k :: 0 <= k < |s.live| ==> !(s.live[k].addr <= s.list[t].addr < s.live[k].End())
  {
    SoundMeans(s, mem);
    ListOutside(s, mem, t);
  }

  lemma SplitSpares(mem: map<nat, Header>, live: seq<Extent>, p: nat, n: nat)
    requires p in mem && 0 < n < mem[p].size
    requires forall k :: 0 <= k < |live| ==> !(live[k].addr <= p < live[k].End())
    requires forall k :: 0 <= k < |live| ==> !(live[k].addr <= p + UNIT * (mem[p].size - n) < live[k].End())
    ensures Spared(mem, SplitOff(mem, p, n), live)
  {
    var q := p + UNIT * (mem[p].size - n);
    var m := mem[p := Header(mem[p].ptr, mem[p].size - n)];
    SparedBy(mem, live, p, m[p]);
    var h := Header(if q in m then m[q].ptr else 0, n);
    SparedBy(m, live, q, h);
    SparedTwice(mem, m, m[q := h], live);
  }

  lemma TailOutside(s: Books, mem: map<nat, Header>, j: nat, n: nat)
    requires Sound(s, mem).holds && 1 <= j < |s.list| && 0 < n <= s.list[j].units
    ensures DisjointAll(s.live, Tail(s.list[j], n))
  {
    SoundMeans(s, mem);
    forall k | 0 <= k < |s.live| ensures Disjoint(Tail(s.list[j], n), s.live[k]) {
      assert Clear(s.list, s.live[k]);
      assert Disjoint(s.list[j], s.live[k]);
    }
  }

  lemma ObtainSpares(s: Books, mem: map<nat, Header>, a: nat, h: Header)
    requires Sound(s, mem).holds && s.brk <= a
    ensures Spared(mem, mem[a := h], s.live)
  {
    SoundMeans(s, mem);
    forall k | 0 <= k < |s.live| ensures !(s.live[k].addr <= a < s.live[k].End()) {
      assert Within(s.live[k], s.mine) && Clear(s.list, s.live[k]);
      BelowBreak(s, mem, s.live[k]);
    }
    SparedBy(mem, s.live, a, h);
  }
}
