/** log.c over a disk of 512-byte blocks. Every method extends a run of the machine in LogProtocol
    by the steps it takes, one step for each disk write, so that what LogSafety proves of all runs
    holds before and after each of those writes. */
module Log {
  import opened Basics
  import opened Words
  import opened LogProtocol
  import opened LogSafety

  // ----- the header block -----

  predicate HeadOk(b: Block) {
    WordAt(b, 0) <= LOGSIZE
  }

  function HeadOf(b: Block): (h: seq<nat>)
    requires HeadOk(b)
  {
    seq(WordAt(b, 0), i requires 0 <= i < WordAt(b, 0) => WordAt(b, i + 1))
  }

  ghost predicate Encodable(h: seq<nat>) {
    |h| <= LOGSIZE && forall i :: 0 <= i < |h| ==> h[i] < WORDMAX
  }

  /** The header block once its count and its first k entries are stored. */
  ghost predicate HeadPut(b: Block, h: seq<nat>, k: nat) {
    k <= |h| <= LOGSIZE && WordAt(b, 0) == |h| &&
    forall i: nat {:trigger WordAt(b, i + 1)} :: i < k ==> WordAt(b, i + 1) == h[i]
  }

  lemma HeadRead(b: Block, h: seq<nat>)
    requires Encodable(h) && HeadPut(b, h, |h|)
    ensures HeadOk(b) && HeadOf(b) == h
  {
    forall i | 0 <= i < |h| ensures HeadOf(b)[i] == h[i] {
      assert WordAt(b, i + 1) == h[i];
    }
  }

  // ----- the raw disk seen as header, slots and home blocks -----

  datatype Area = Area(start: nat, size: nat) {
    ghost predicate Fits(d: seq<Block>) {
      1 <= size && start + size <= |d| <= 0x8000_0000 && HeadOk(d[start])
    }
    ghost function View(d: seq<Block>): (v: Disk<Block>)
      requires Fits(d)
    {
      Disk(HeadOf(d[start]), d[start + 1..start + size], Outside(d, |d|))
    }
    /** The blocks below n that are not part of the log. */
    ghost function Outside(d: seq<Block>, n: nat): (m: map<nat, Block>)
      requires n <= |d|
      ensures forall b: nat :: b in m <==> b < n && !(start <= b < start + size)
      ensures forall b: nat :: b in m ==> m[b] == d[b]
    {
      if n == 0 then map[]
      else if start <= n - 1 < start + size then Outside(d, n - 1)
      else Outside(d, n - 1)[n - 1 := d[n - 1]]
    }
  }

  lemma ViewSlot(area: Area, d: seq<Block>, t: nat, v: Block)
    requires area.Fits(d) && t < area.size - 1
    ensures var e := d[area.start + t + 1 := v];
      area.Fits(e) && area.View(e) == area.View(d).(slots := area.View(d).slots[t := v])
  {
    var e := d[area.start + t + 1 := v];
    assert area.View(e).slots == area.View(d).slots[t := v];
    assert area.View(e).home == area.View(d).home;
  }

  lemma ViewHome(area: Area, d: seq<Block>, b: nat, v: Block)
    requires area.Fits(d) && b in area.View(d).home
    ensures var e := d[b := v];
      area.Fits(e) && area.View(e) == area.View(d).(home := area.View(d).home[b := v])
  {
    var e := d[b := v];
    assert area.View(e).slots == area.View(d).slots;
    assert area.View(e).home == area.View(d).home[b := v];
  }

  lemma ViewHead(area: Area, d: seq<Block>, h: seq<nat>, v: Block)
    requires area.Fits(d) && Encodable(h) && HeadPut(v, h, |h|)
    ensures var e := d[area.start := v];
      area.Fits(e) && area.View(e) == area.View(d).(head := h)
  {
    HeadRead(v, h);
    var e := d[area.start := v];
    assert area.View(e).slots == area.View(d).slots;
    assert area.View(e).home == area.View(d).home;
  }

  // ----- the machine's steps on the raw disk -----

  /** Always true; OnRun is looked into only where this is mentioned, which keeps proofs about the
      class from replaying the run. */
  ghost predicate Replay(d: Disk<Block>) {
    true
  }

  /** acts is a run from an image with an empty log and it ends in s. */
  ghost function OnRun(d: Disk<Block>, acts: seq<Action<Block>>, s: State<Block>): (r: Claim) {
    Claim(forall e {:trigger Replay(e)} :: e == d && Replay(e) ==>
      e.head == [] && Runnable(Boot(e), acts) && Exec(Boot(e), acts) == s)
  }

  lemma RunStart(d: Disk<Block>)
    requires d.head == []
    ensures OnRun(d, [], Boot(d)).holds
  {
  }

  lemma Extend(d: Disk<Block>, acts: seq<Action<Block>>, s: State<Block>, a: Action<Block>)
    requires OnRun(d, acts, s).holds && Enabled(s, a)
    ensures OnRun(d, acts + [a], After(s, a)).holds
  {
    assert Replay(d);
    RunPrefix(Boot(d), acts, a);
  }

  lemma Reachable(d: Disk<Block>, acts: seq<Action<Block>>, s: State<Block>)
    requires OnRun(d, acts, s).holds
    ensures Inv(s)
  {
    assert Replay(d);
    RunKeepsInv(d, acts);
  }

  /** What the invariant gives the step that writes slot t or home block lh[t]. */
  lemma Movable(d: Disk<Block>, acts: seq<Action<Block>>, s: State<Block>)
    requires OnRun(d, acts, s).holds && (s.phase.WritingLog? || s.phase.Installing?)
    ensures CanAdvance(s)
  {
    Reachable(d, acts, s);
    if s.phase.WritingLog? && s.phase.tail < |s.lh| {
      assert Copied(s, s.phase.tail) && s.lh[s.phase.tail] in s.disk.home;
    } else if s.phase.Installing? && s.phase.tail < |s.lh| {
      assert Installed(s, s.phase.tail, s.phase.recovering);
    }
  }

  lemma CopyStep(area: Area, d: seq<Block>, s: State<Block>, t: nat, image: Disk<Block>, acts: seq<Action<Block>>)
    requires OnRun(image, acts, s).holds
    requires area.Fits(d) && s.disk == area.View(d) && s.phase == WritingLog(t) && t < |s.lh|
    ensures t < area.size - 1 && s.lh[t] < |d|
    ensures var from := if s.lh[t] in s.cache then s.cache[s.lh[t]] else d[s.lh[t]];
      var e := d[area.start + t + 1 := from];
      area.Fits(e) && OnRun(image, acts + [Advance], s.(disk := area.View(e), phase := WritingLog(t + 1))).holds
  {
    Movable(image, acts, s);
    ViewSlot(area, d, t, s.Visible(s.lh[t]));
    Extend(image, acts, s, Advance);
  }

  lemma CopyDone(s: State<Block>, image: Disk<Block>, acts: seq<Action<Block>>)
    requires OnRun(image, acts, s).holds && s.phase == WritingLog(|s.lh|)
    ensures OnRun(image, acts + [Advance], s.(phase := WritingHead)).holds
  {
    Extend(image, acts, s, Advance);
  }

  lemma Numbered(area: Area, d: seq<Block>, h: seq<nat>)
    requires area.Fits(d) && |h| <= LOGSIZE && forall j :: 0 <= j < |h| ==> h[j] in area.View(d).home
    ensures Encodable(h)
  {
  }

  lemma CommitStep(area: Area, d: seq<Block>, s: State<Block>, v: Block, image: Disk<Block>, acts: seq<Action<Block>>)
    requires OnRun(image, acts, s).holds
    requires area.Fits(d) && s.disk == area.View(d) && s.phase == WritingHead && HeadPut(v, s.lh, |s.lh|)
    ensures var e := d[area.start := v];
      && area.Fits(e) && OnRun(image, acts + [Advance], Progress(s)).holds && Progress(s).disk == area.View(e)
  {
    Reachable(image, acts, s);
    assert Pinned(s);
    Numbered(area, d, s.lh);
    ViewHead(area, d, s.lh, v);
    Extend(image, acts, s, Advance);
  }

  lemma HomeStep(area: Area, d: seq<Block>, s: State<Block>, t: nat, r: bool, image: Disk<Block>, acts: seq<Action<Block>>)
    requires OnRun(image, acts, s).holds
    requires area.Fits(d) && s.disk == area.View(d) && s.phase == Installing(t, r) && t < |s.lh|
    ensures t < area.size - 1 && s.lh[t] < |d|
    ensures var e := d[s.lh[t] := d[area.start + t + 1]];
      && area.Fits(e)
      && OnRun(image, acts + [Advance], s.(disk := area.View(e), cache := s.cache - {s.lh[t]}, phase := Installing(t + 1, r))).holds
  {
    Movable(image, acts, s);
    assert d[area.start + t + 1] == s.disk.slots[t];
    ViewHome(area, d, s.lh[t], d[area.start + t + 1]);
    Extend(image, acts, s, Advance);
  }

  lemma InstallDone(s: State<Block>, r: bool, image: Disk<Block>, acts: seq<Action<Block>>)
    requires OnRun(image, acts, s).holds && s.phase == Installing(|s.lh|, r)
    ensures OnRun(image, acts + [Advance], s.(lh := [], phase := ClearingHead(r))).holds
  {
    Extend(image, acts, s, Advance);
  }

  lemma ClearStep(area: Area, d: seq<Block>, s: State<Block>, r: bool, v: Block, image: Disk<Block>, acts: seq<Action<Block>>)
    requires OnRun(image, acts, s).holds
    requires area.Fits(d) && s.disk == area.View(d) && s.phase == ClearingHead(r) && HeadPut(v, [], 0)
    ensures var e := d[area.start := v];
      && area.Fits(e)
      && OnRun(image, acts + [Advance], s.(disk := area.View(e), phase := if r then Idle else Finishing)).holds
  {
    ViewHead(area, d, [], v);
    Extend(image, acts, s, Advance);
  }

  lemma ReadStep(area: Area, d: seq<Block>, s: State<Block>, image: Disk<Block>, acts: seq<Action<Block>>)
    requires OnRun(image, acts, s).holds
    requires area.Fits(d) && s.disk == area.View(d) && s.phase == ReadingHead
    ensures OnRun(image, acts + [Advance], s.(lh := HeadOf(d[area.start]), phase := Installing(0, true))).holds
  {
    Extend(image, acts, s, Advance);
  }

  lemma LogStep(area: Area, d: seq<Block>, s: State<Block>, op: OpId, b: Word, v: Block,
                image: Disk<Block>, acts: seq<Action<Block>>)
    requires OnRun(image, acts, s).holds && area.Fits(d) && s.disk == area.View(d) && Enabled(s, Log(op, b, v))
    ensures s.outstanding >= 1
    ensures var t := After(s, Log(op, b, v));
      && OnRun(image, acts + [Log(op, b, v)], t).holds
      && t == if |s.lh| >= LOGSIZE || |s.lh| >= area.size - 1 then s.(phase := Halted)
              else s.(cache := s.cache[b := v], lh := Absorb(s.lh, b), hist := t.hist)
  {
    Reachable(image, acts, s);
    assert s.outstanding >= 1 by { assert op in s.hist.used; }
    Extend(image, acts, s, Log(op, b, v));
  }

  lemma EndStep(s: State<Block>, op: OpId, image: Disk<Block>, acts: seq<Action<Block>>)
    requires OnRun(image, acts, s).holds && Enabled(s, End(op))
    ensures s.phase.Idle? && !s.committing
    ensures var t := After(s, End(op));
      && OnRun(image, acts + [End(op)], t).holds
      && t == s.(outstanding := s.outstanding - 1, committing := s.outstanding == 1, phase := t.phase, hist := t.hist)
      && t.phase == if s.outstanding > 1 then Idle else if |s.lh| > 0 then WritingLog(0) else Finishing
  {
    Reachable(image, acts, s);
    Extend(image, acts, s, End(op));
  }

  class RedoLog {
    const area: Area               // log.start and log.size
    var disk: seq<Block>
    var cache: map<nat, Block>     // buffers pinned by B_DIRTY
    var n: nat                     // log.lh.n
    const block: array<Word>       // log.lh.block
    var outstanding: nat
    var committing: bool

    ghost var phase: Phase
    ghost var hist: History<Block>
    ghost const image: Disk<Block>
    ghost var acts: seq<Action<Block>>  // the run so far

    ghost function Abs(): (s: State<Block>)
      requires area.Fits(disk) && n <= block.Length
      reads this, block
    {
      State(area.View(disk), cache, block[..n], outstanding, committing, phase, hist)
    }

    ghost predicate Valid()
      reads this, block
    {
      block.Length == LOGSIZE && n <= LOGSIZE && area.Fits(disk) && OnRun(image, acts, Abs()).holds
    }

    constructor (area: Area, image: seq<Block>)
      requires area.Fits(image) && HeadOf(image[area.start]) == []
      ensures Valid() && this.area == area && this.image == area.View(image) && fresh(block)
      ensures disk == image && phase.ReadingHead? && acts == []
    {
      this.area := area;
      this.image := area.View(image);
      disk := image;
      cache := map[];
      n := 0;
      block := new Word[LOGSIZE];
      outstanding := 0;
      committing := false;
      phase := ReadingHead;
      hist := History(area.View(image).home, [], [], [], map[], {}, {}, {});
      acts := [];
      RunStart(area.View(image));
    }

    /** Exactly k steps of commit() or recover_from_log() have been taken since acts was u. */
    ghost predicate Advanced(u: seq<Action<Block>>, k: nat)
      reads this
    {
      u <= acts && |acts| == |u| + k && forall i :: |u| <= i < |acts| ==> acts[i].Advance?
    }

    ghost method Tick(u: seq<Action<Block>>, k: nat)
      requires Advanced(u, k)
      modifies `acts
      ensures Advanced(u, k + 1) && acts == old(acts) + [Advance]
    {
      acts := acts + [Advance];
    }

    // ----- commit -----

    method WriteLog()
      requires Valid() && phase == WritingLog(0)
      modifies `disk, `phase, `acts
      ensures Valid() && phase.WritingHead? && Advanced(old(acts), n + 1)
    {
      ghost var u := acts;
      var tail := 0;
      while tail < n
        invariant Valid() && tail <= n && phase == WritingLog(tail) && Advanced(u, tail)
      {
        CopyToLog(tail, u);
        tail := tail + 1;
      }
      AllCopied(u);
    }

    ghost method AllCopied(u: seq<Action<Block>>)
      requires Valid() && phase == WritingLog(n) && Advanced(u, n)
      modifies `phase, `acts
      ensures Valid() && phase.WritingHead? && Advanced(u, n + 1)
    {
      CopyDone(Abs(), image, acts);
      phase := WritingHead;
      Tick(u, n);
    }

    method CopyToLog(tail: nat, ghost u: seq<Action<Block>>)
      requires Valid() && phase == WritingLog(tail) && tail < n && Advanced(u, tail)
      modifies `disk, `phase, `acts
      ensures Valid() && phase == WritingLog(tail + 1) && Advanced(u, tail + 1)
    {
      CopyStep(area, disk, Abs(), tail, image, acts);
      var from := if block[tail] in cache then cache[block[tail]] else disk[block[tail]];
      disk := disk[area.start + tail + 1 := from];
      phase := WritingLog(tail + 1);
      Tick(u, tail);
    }

    /** The header block with log.lh copied over it. */
    method FillHead(hb: Block) returns (r: Block)
      requires block.Length == LOGSIZE && n <= LOGSIZE
      ensures HeadPut(r, block[..n], n)
    {
      r := PutWord(hb, 0, n);
      var i := 0;
      while i < n
        invariant i <= n && HeadPut(r, block[..n], i)
      {
        r := PutWord(r, i + 1, block[i]);
        i := i + 1;
      }
    }

    method WriteHead()
      requires Valid() && phase.WritingHead?
      modifies `disk, `phase, `acts, `hist
      ensures Valid() && phase == Installing(0, false) && Advanced(old(acts), 1)
    {
      var hb := FillHead(disk[area.start]);
      CommitStep(area, disk, Abs(), hb, image, acts);
      ghost var p := Progress(Abs());
      disk := disk[area.start := hb];
      phase, hist := p.phase, p.hist;
      Tick(acts, 0);
    }

    method InstallTrans(ghost r: bool)
      requires Valid() && phase == Installing(0, r)
      modifies `disk, `cache, `phase, `acts
      ensures Valid() && phase == Installing(n, r) && Advanced(old(acts), n)
    {
      ghost var u := acts;
      var tail := 0;
      while tail < n
        invariant Valid() && tail <= n && phase == Installing(tail, r) && Advanced(u, tail)
      {
        CopyToHome(tail, r, u);
        tail := tail + 1;
      }
    }

    method CopyToHome(tail: nat, ghost r: bool, ghost u: seq<Action<Block>>)
      requires Valid() && phase == Installing(tail, r) && tail < n && Advanced(u, tail)
      modifies `disk, `cache, `phase, `acts
      ensures Valid() && phase == Installing(tail + 1, r) && Advanced(u, tail + 1)
    {
      HomeStep(area, disk, Abs(), tail, r, image, acts);
      disk := disk[block[tail] := disk[area.start + tail + 1]];
      cache := cache - {block[tail]};
      phase := Installing(tail + 1, r);
      Tick(u, tail);
    }

    /** log.lh.n = 0; write_head(). */
    method EraseHead(ghost r: bool)
      requires Valid() && phase == Installing(n, r)
      modifies `disk, `n, `phase, `acts
      ensures Valid() && n == 0 && phase == (if r then Idle else Finishing) && Advanced(old(acts), 2)
    {
      ghost var u := acts;
      InstallDone(Abs(), r, image, acts);
      n := 0;
      phase := ClearingHead(r);
      Tick(u, 0);
      var hb := FillHead(disk[area.start]);
      ClearStep(area, disk, Abs(), r, hb, image, acts);
      disk := disk[area.start := hb];
      phase := if r then Idle else Finishing;
      Tick(u, 1);
    }

    /** All of commit(), from write_log to erasing the transaction. */
    method Commit()
      requires Valid() && (if n > 0 then phase == WritingLog(0) else phase.Finishing?)
      modifies `disk, `cache, `n, `phase, `acts, `hist
      ensures Valid() && phase.Finishing?
      ensures Advanced(old(acts), if old(n) > 0 then 2 * old(n) + 4 else 0)
    {
      ghost var u, k := acts, n;
      if n > 0 {
        WriteLog();
        WriteHead();
        InstallTrans(false);
        EraseHead(false);
      }
    }

    // ----- the interface -----

    /** One round of begin_op's loop: either the operation is admitted or the caller must sleep. */
    method BeginOp(ghost op: OpId) returns (admitted: bool)
      requires Valid() && Enabled(Abs(), Begin(op))
      modifies `outstanding, `acts, `hist
      ensures Valid() && acts == old(acts) + [Begin(op)]
      ensures admitted <==> !old(committing) && n + (old(outstanding) + 1) * MAXOPBLOCKS <= LOGSIZE
      ensures outstanding == old(outstanding) + (if admitted then 1 else 0)
    {
      Extend(image, acts, Abs(), Begin(op));
      ghost var t := After(Abs(), Begin(op));
      if committing || n + (outstanding + 1) * MAXOPBLOCKS > LOGSIZE {
        admitted := false;
      } else {
        admitted := true;
        outstanding := outstanding + 1;
      }
      hist := t.hist;
      acts := acts + [Begin(op)];
    }

    /** The index of b among the logged blocks, or n. */
    method FindLogged(b: Word) returns (i: nat)
      requires block.Length == LOGSIZE && n <= LOGSIZE
      ensures i <= n && (i < n ==> block[i] == b) && b !in block[..i]
    {
      i := 0;
      while i < n
        invariant i <= n && b !in block[..i]
      {
        if block[i] == b {
          break;
        }
        assert block[..i + 1] == block[..i] + [block[i]];
        i := i + 1;
      }
    }

    /** Absorbs b into the header, or appends it, and pins its buffer with contents v. */
    method Pin(b: Word, v: Block)
      requires block.Length == LOGSIZE && n < LOGSIZE
      modifies block, `n, `cache
      ensures n <= LOGSIZE && block[..n] == (if b in old(block[..n]) then old(block[..n]) else old(block[..n]) + [b]) && cache == old(cache)[b := v]
    {
      var i := FindLogged(b);
      assert i < n ==> block[..n][i] == b;
      ghost var h := block[..n];
      block[i] := b;
      if i == n {
        n := n + 1;
        assert b !in h && block[..n] == h + [b];
      } else {
        assert b in h && block[..n] == h;
      }
      cache := cache[b := v];
    }

    /** Logs new contents v for block b; fails (panics) exactly when line 218 does. */
    method LogWrite(ghost op: OpId, b: Word, v: Block) returns (ok: bool)
      requires Valid() && Enabled(Abs(), Log(op, b, v))
      modifies `cache, `n, `phase, `acts, `hist, block
      ensures Valid() && acts == old(acts) + [Log(op, b, v)]
      ensures ok <==> old(n) < LOGSIZE && old(n) < area.size - 1
      ensures ok ==> block[..n] == (if b in old(block[..n]) then old(block[..n]) else old(block[..n]) + [b]) && cache == old(cache)[b := v]
      ensures !ok ==> phase.Halted?
    {
      LogStep(area, disk, Abs(), op, b, v, image, acts);
      ghost var t := After(Abs(), Log(op, b, v));
      if n >= LOGSIZE || n >= area.size - 1 || outstanding < 1 {
        ok := false;
      } else {
        Pin(b, v);
        ok := true;
      }
      phase, hist := t.phase, t.hist;
      acts := acts + [Log(op, b, v)];
    }

    /** Ends an operation; the last one out commits the whole group before returning. */
    method EndOp(ghost op: OpId)
      requires Valid() && Enabled(Abs(), End(op))
      modifies `disk, `cache, `n, `outstanding, `committing, `phase, `acts, `hist
      ensures Valid() && phase.Idle? && outstanding == old(outstanding) - 1 && !committing
      ensures Advanced(old(acts) + [End(op)], if outstanding > 0 then 0 else if old(n) > 0 then 2 * old(n) + 5 else 1)
    {
      Leave(op);
      if outstanding == 0 {
        ghost var u, k := acts, if n > 0 then 2 * n + 4 else 0;
        Commit();
        Reopen(u, k);
      }
    }

    /** log.committing = 0, once the commit is over. */
    method Reopen(ghost u: seq<Action<Block>>, ghost k: nat)
      requires Valid() && phase.Finishing? && Advanced(u, k)
      modifies `committing, `phase, `acts
      ensures Valid() && phase.Idle? && !committing && Advanced(u, k + 1)
    {
      Extend(image, acts, Abs(), Advance);
      committing := false;
      phase := Idle;
      Tick(u, k);
    }

    /** The critical section at the top of end_op; the panic on line 153 is unreachable. */
    method Leave(ghost op: OpId)
      requires Valid() && Enabled(Abs(), End(op))
      modifies `outstanding, `committing, `phase, `acts, `hist
      ensures Valid() && outstanding == old(outstanding) - 1 && acts == old(acts) + [End(op)]
      ensures !old(committing)
      ensures if outstanding > 0 then phase.Idle? && !committing
              else committing && if n > 0 then phase == WritingLog(0) else phase.Finishing?
    {
      EndStep(Abs(), op, image, acts);
      ghost var t := After(Abs(), End(op));
      outstanding := outstanding - 1;
      if outstanding == 0 {
        committing := true;
      }
      phase, hist := t.phase, t.hist;
      acts := acts + [End(op)];
    }

    // ----- crash and recovery -----

    /** Power failure: memory is gone, the disk stays. */
    method PowerFail()
      requires Valid() && !phase.Halted?
      modifies `cache, `n, `outstanding, `committing, `phase, `acts, `hist
      ensures Valid() && phase.ReadingHead? && acts == old(acts) + [Crash]
    {
      Extend(image, acts, Abs(), Crash);
      ghost var t := After(Abs(), Crash);
      cache, n, outstanding, committing := map[], 0, 0, false;
      phase, hist := t.phase, t.hist;
      acts := acts + [Crash];
    }

    method ReadHead()
      requires Valid() && phase.ReadingHead?
      modifies `n, block, `phase, `acts
      ensures Valid() && n == |HeadOf(disk[area.start])| && phase == Installing(0, true) && Advanced(old(acts), 1)
    {
      ReadStep(area, disk, Abs(), image, acts);
      LoadHead(disk[area.start]);
      phase := Installing(0, true);
      Tick(acts, 0);
    }

    /** log.lh read out of the header block. */
    method LoadHead(hb: Block)
      requires block.Length == LOGSIZE && HeadOk(hb)
      modifies `n, block
      ensures n <= LOGSIZE && block[..n] == HeadOf(hb)
    {
      n := WordAt(hb, 0);
      var i := 0;
      while i < n
        invariant i <= n == WordAt(hb, 0) && block[..i] == HeadOf(hb)[..i]
      {
        block[i] := WordAt(hb, i + 1);
        i := i + 1;
      }
    }

    /** Afterwards the home blocks hold exactly the groups committed before the crash. */
    method RecoverFromLog()
      requires Valid() && phase.ReadingHead?
      modifies `disk, `cache, `n, block, `phase, `acts
      ensures Valid() && phase.Idle? && n == 0
      ensures Advanced(old(acts), |HeadOf(old(disk)[area.start])| + 3)
      ensures area.View(disk).home == Apply(hist.initial, Flatten(hist.committed))
    {
      ghost var u := acts;
      ReadHead();
      InstallTrans(true);
      EraseHead(true);
      Reachable(image, acts, Abs());
    }
  }
}
