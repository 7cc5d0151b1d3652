/** Space reservation in begin_op: what MAXOPBLOCKS per operation guarantees, and what it does not. */
module LogReservation {
  import opened Basics
  import opened LogProtocol
  import opened LogSafety

  /** Quota not yet used by the operations in progress. */
  ghost function Unused(used: map<OpId, nat>): (n: int)
    decreases |used|
  {
    if used == map[] then 0
    else var op :| op in used;
      assert (used - {op}).Keys == used.Keys - {op};
      MAXOPBLOCKS - used[op] + Unused(used - {op})
  }

  lemma {:induction false} UnusedRemove(used: map<OpId, nat>, op: OpId)
    requires op in used
    ensures Unused(used) == MAXOPBLOCKS - used[op] + Unused(used - {op})
    decreases |used|
  {
    var c :| c in used && Unused(used) == MAXOPBLOCKS - used[c] + Unused(used - {c});
    if c != op {
      assert (used - {c}).Keys == used.Keys - {c};
      UnusedRemove(used - {c}, op);
      assert (used - {op}).Keys == used.Keys - {op};
      UnusedRemove(used - {op}, c);
      assert used - {c} - {op} == used - {op} - {c};
    }
  }

  lemma UnusedSet(used: map<OpId, nat>, op: OpId, k: nat)
    ensures Unused(used[op := k]) == MAXOPBLOCKS - k + Unused(used - {op})
  {
    UnusedRemove(used[op := k], op);
    assert used[op := k] - {op} == used - {op};
  }

  lemma {:induction false} UnusedBound(used: map<OpId, nat>)
    requires forall op :: op in used ==> used[op] <= MAXOPBLOCKS
    ensures 0 <= Unused(used) <= |used| * MAXOPBLOCKS
    decreases |used|
  {
    if used != map[] {
      var op :| op in used;
      UnusedRemove(used, op);
      assert (used - {op}).Keys == used.Keys - {op};
      UnusedBound(used - {op});
    }
  }

  /** No operation appends more than MAXOPBLOCKS distinct blocks. */
  ghost predicate WithinQuota<B>(s: State<B>, a: Action<B>) {
    a.Log? && a.op in s.hist.used && a.blockno !in s.lh ==> s.hist.used[a.op] < MAXOPBLOCKS
  }

  ghost predicate Thrifty<B(!new)>(s: State<B>, acts: seq<Action<B>>)
    requires Runnable(s, acts)
    decreases |acts|
  {
    acts == [] || (Thrifty(s, acts[..|acts| - 1]) && WithinQuota(Exec(s, acts[..|acts| - 1]), acts[|acts| - 1]))
  }

  ghost predicate Reserved<B>(s: State<B>) {
    && (forall op :: op in s.hist.used ==> s.hist.used[op] <= MAXOPBLOCKS)
    && (!s.Booting() ==> |s.lh| + Unused(s.hist.used) <= LOGSIZE)
  }

  lemma BeginKeepsReserved<B>(s: State<B>, op: OpId)
    requires s.outstanding == |s.hist.used| && Reserved(s) && op !in s.hist.used && !s.Booting()
    ensures Reserved(DoBegin(s, op))
  {
    UnusedBound(s.hist.used);
    UnusedSet(s.hist.used, op, 0);
    assert s.hist.used - {op} == s.hist.used;
  }

  lemma LogKeepsReserved<B>(s: State<B>, op: OpId, b: nat, v: B)
    requires Reserved(s) && op in s.hist.used && !s.Booting() && WithinQuota(s, Log(op, b, v))
    ensures Reserved(DoLog(s, op, b, v))
  {
    UnusedRemove(s.hist.used, op);
    UnusedSet(s.hist.used, op, s.hist.used[op] + 1);
    UnusedSet(s.hist.used, op, s.hist.used[op]);
  }

  lemma EndKeepsReserved<B>(s: State<B>, op: OpId)
    requires Reserved(s) && op in s.hist.used && s.outstanding > 0 && !s.Booting()
    ensures Reserved(DoEnd(s, op))
  {
    UnusedRemove(s.hist.used, op);
    forall o | o in s.hist.used - {op} ensures (s.hist.used - {op})[o] <= MAXOPBLOCKS {}
  }

  lemma StepKeepsReserved<B>(s: State<B>, a: Action<B>)
    requires CountInv(s) && OpsInv(s.hist) && (s.phase.ClearingHead? ==> s.lh == [])
    requires Reserved(s) && Enabled(s, a) && WithinQuota(s, a)
    ensures Reserved(After(s, a))
  {
    match a
    case Begin(op) => BeginKeepsReserved(s, op);
    case Log(op, b, v) => LogKeepsReserved(s, op, b, v);
    case End(op) => EndKeepsReserved(s, op);
    case Crash =>
    case Advance => assert s.hist.used == map[];
  }

  lemma {:induction false} RunKeepsReserved<B(!new)>(d: Disk<B>, acts: seq<Action<B>>)
    requires d.head == [] && Runnable(Boot(d), acts) && Thrifty(Boot(d), acts)
    ensures Reserved(Exec(Boot(d), acts))
    decreases |acts|
  {
    if acts != [] {
      var init := acts[..|acts| - 1];
      RunKeepsReserved(d, init);
      RunKeepsInv(d, init);
      StepKeepsReserved(Exec(Boot(d), init), acts[|acts| - 1]);
    }
  }

  /** The log never promises more than LOGSIZE blocks; a commit never overlaps an operation, so
      end_op never panics; and with at least LOGSIZE slots a log_write panics exactly if the log is
      full already, which happens only to writes that would have been absorbed. */
  lemma ReservationHolds<B(!new)>(d: Disk<B>, acts: seq<Action<B>>, a: Action<B>)
    requires d.head == [] && Runnable(Boot(d), acts) && Thrifty(Boot(d), acts)
    ensures var s := Exec(Boot(d), acts);
      && (!s.Booting() ==> |s.lh| + Unused(s.hist.used) <= LOGSIZE)
      && !(s.committing && s.outstanding > 0)
      && (Enabled(s, a) && a.End? ==> !After(s, a).phase.Halted?)
      && (Enabled(s, a) && a.Log? && WithinQuota(s, a) && |s.disk.slots| >= LOGSIZE ==>
            (After(s, a).phase.Halted? <==> |s.lh| == LOGSIZE)
            && (|s.lh| == LOGSIZE ==> a.blockno in s.lh && Unused(s.hist.used) == 0))
  {
    RunKeepsInv(d, acts);
    RunKeepsReserved(d, acts);
    var s := Exec(Boot(d), acts);
    UnusedBound(s.hist.used);
    if a.Log? && Enabled(s, a) && a.blockno !in s.lh {
      UnusedRemove(s.hist.used, a.op);
      forall op | op in s.hist.used - {a.op} ensures (s.hist.used - {a.op})[op] <= MAXOPBLOCKS {}
      UnusedBound(s.hist.used - {a.op});
    }
  }

  // ----- runs that exhaust the log -----

  /** Boot, start three operations, and let them append bs[0], bs[1], ... up to bs[k - 1]. */
  ghost function Fill<B>(bs: seq<nat>, v: B, k: nat): (acts: seq<Action<B>>)
    requires k <= |bs|
  {
    if k == 0 then [Advance, Advance, Advance, Begin(0), Begin(1), Begin(2)]
    else Fill(bs, v, k - 1) + [Log((k - 1) / MAXOPBLOCKS, bs[k - 1], v)]
  }

  lemma RunThrifty<B(!new)>(s: State<B>, u: seq<Action<B>>, a: Action<B>)
    requires Runnable(s, u) && Thrifty(s, u) && Enabled(Exec(s, u), a) && WithinQuota(Exec(s, u), a)
    ensures Runnable(s, u + [a]) && Thrifty(s, u + [a]) && Exec(s, u + [a]) == After(Exec(s, u), a)
  {
    RunPrefix(s, u, a);
    assert (u + [a])[..|u|] == u;
  }

  ghost function Share(op: nat, k: nat): (n: int) {
    if k <= op * MAXOPBLOCKS then 0 else if k >= (op + 1) * MAXOPBLOCKS then MAXOPBLOCKS else k - op * MAXOPBLOCKS
  }

  ghost predicate Filled<B>(s: State<B>, d: Disk<B>, bs: seq<nat>, k: nat)
    requires k <= |bs|
  {
    && s.phase.Idle? && !s.committing && s.outstanding == 3 && s.lh == bs[..k]
    && s.disk.home.Keys == d.home.Keys && |s.disk.slots| == |d.slots|
    && s.hist.used == map[0 := Share(0, k), 1 := Share(1, k), 2 := Share(2, k)]
  }

  lemma BootRun<B(!new)>(d: Disk<B>)
    requires d.head == []
    ensures var u: seq<Action<B>> := [Advance, Advance, Advance];
      && Runnable(Boot(d), u) && Thrifty(Boot(d), u)
      && Exec(Boot(d), u) == Boot(d).(phase := Idle)
  {
    var b := Boot(d);
    var u0: seq<Action<B>> := [];
    var u1 := u0 + [Advance];
    var u2 := u1 + [Advance];
    RunThrifty(b, u0, Advance);
    RunThrifty(b, u1, Advance);
    RunThrifty(b, u2, Advance);
    assert u2 + [Advance] == [Advance, Advance, Advance];
  }

  lemma BootBegins<B(!new)>(d: Disk<B>, bs: seq<nat>, v: B)
    requires d.head == []
    ensures Runnable(Boot(d), Fill(bs, v, 0)) && Thrifty(Boot(d), Fill(bs, v, 0))
    ensures Filled(Exec(Boot(d), Fill(bs, v, 0)), d, bs, 0)
  {
    BootRun(d);
    var u: seq<Action<B>> := [Advance, Advance, Advance];
    RunThrifty(Boot(d), u, Begin(0));
    RunThrifty(Boot(d), u + [Begin(0)], Begin(1));
    RunThrifty(Boot(d), u + [Begin(0)] + [Begin(1)], Begin(2));
    assert Fill(bs, v, 0) == u + [Begin(0)] + [Begin(1)] + [Begin(2)];
  }

  lemma FillStep<B>(s: State<B>, d: Disk<B>, bs: seq<nat>, v: B, k: nat)
    requires Distinct(bs) && k < |bs| && bs[k] in d.home && k < LOGSIZE && k < |d.slots|
    requires Filled(s, d, bs, k)
    ensures var a := Log(k / MAXOPBLOCKS, bs[k], v);
      Enabled(s, a) && WithinQuota(s, a) && Filled(DoLog(s, k / MAXOPBLOCKS, bs[k], v), d, bs, k + 1)
  {
    assert bs[k] !in s.lh;
    assert bs[..k + 1] == bs[..k] + [bs[k]];
  }

  lemma {:induction false} FillRun<B(!new)>(d: Disk<B>, bs: seq<nat>, v: B, k: nat)
    requires d.head == [] && Distinct(bs) && (forall i :: 0 <= i < |bs| ==> bs[i] in d.home)
    requires k <= |bs| && k <= LOGSIZE && k <= |d.slots|
    ensures Runnable(Boot(d), Fill(bs, v, k)) && Thrifty(Boot(d), Fill(bs, v, k))
    ensures Filled(Exec(Boot(d), Fill(bs, v, k)), d, bs, k)
  {
    if k == 0 {
      BootBegins(d, bs, v);
    } else {
      FillRun(d, bs, v, k - 1);
      FillStep(Exec(Boot(d), Fill(bs, v, k - 1)), d, bs, v, k - 1);
      RunThrifty(Boot(d), Fill(bs, v, k - 1), Log((k - 1) / MAXOPBLOCKS, bs[k - 1], v));
    }
  }

  /** With fewer than LOGSIZE slots (mkfs makes LOGSIZE - 1), three operations within their quota
      make log_write panic while appending. */
  lemma AppendPanics<B(!new)>(d: Disk<B>, bs: seq<nat>, v: B)
    requires d.head == [] && Distinct(bs) && (forall i :: 0 <= i < |bs| ==> bs[i] in d.home)
    requires |d.slots| < LOGSIZE && |d.slots| < |bs|
    ensures exists acts: seq<Action<B>>, op, b ::
      && Runnable(Boot(d), acts) && Thrifty(Boot(d), acts)
      && Enabled(Exec(Boot(d), acts), Log(op, b, v)) && WithinQuota(Exec(Boot(d), acts), Log(op, b, v))
      && b !in Exec(Boot(d), acts).lh
      && After(Exec(Boot(d), acts), Log(op, b, v)).phase.Halted?
  {
    var k := |d.slots|;
    FillRun(d, bs, v, k);
    var acts := Fill(bs, v, k);
    var s := Exec(Boot(d), acts);
    assert bs[k] !in s.lh;
    assert WithinQuota(s, Log(k / MAXOPBLOCKS, bs[k], v));
    assert After(s, Log(k / MAXOPBLOCKS, bs[k], v)).phase.Halted?;
  }

  /** However many slots there are, if there are any, rewriting a block that is already logged panics once the
      slots or the three quotas are used up: line 218 tests before it looks for the block. */
  lemma AbsorbPanics<B(!new)>(d: Disk<B>, bs: seq<nat>, v: B)
    requires d.head == [] && Distinct(bs) && (forall i :: 0 <= i < |bs| ==> bs[i] in d.home)
    requires 0 < |d.slots| && |bs| >= Min(LOGSIZE, |d.slots|)
    ensures exists acts: seq<Action<B>>, op, b ::
      && Runnable(Boot(d), acts) && Thrifty(Boot(d), acts)
      && Enabled(Exec(Boot(d), acts), Log(op, b, v)) && b in Exec(Boot(d), acts).lh
      && After(Exec(Boot(d), acts), Log(op, b, v)).phase.Halted?
  {
    var k := Min(LOGSIZE, |d.slots|);
    FillRun(d, bs, v, k);
    var s := Exec(Boot(d), Fill(bs, v, k));
    assert s.lh[0] == bs[0];
    assert After(s, Log(0, bs[0], v)).phase.Halted?;
  }

  // ----- operations that log few blocks -----

  /** The blocks operation op logs in a run. */
  ghost function BlocksOf<B>(op: OpId, acts: seq<Action<B>>): (r: set<nat>) {
    if acts == [] then {}
    else
      var a := acts[|acts| - 1];
      BlocksOf(op, acts[..|acts| - 1]) + if a.Log? && a.op == op then {a.blockno} else {}
  }

  /** What op has used of its quota are blocks it logged and that are still in the header. */
  ghost predicate FrugalIs<B>(used: map<OpId, nat>, lh: seq<nat>, acts: seq<Action<B>>) {
    forall op :: op in used ==> used[op] <= |Still(op, acts, lh)|
  }

  ghost function Frugal<B>(s: State<B>, acts: seq<Action<B>>): (r: Claim) {
    Claim(FrugalIs(s.hist.used, s.lh, acts))
  }

  ghost function Still<B>(op: OpId, acts: seq<Action<B>>, lh: seq<nat>): (r: set<nat>) {
    set b | b in BlocksOf(op, acts) && b in lh
  }

  lemma SubsetCount(a: set<nat>, b: set<nat>)
    requires a <= b
    ensures |a| <= |b|
  {
    assert b == a + (b - a);
  }

  /** The header and the set of logged blocks only grow between commits. */
  lemma StillGrows<B>(op: OpId, acts: seq<Action<B>>, a: Action<B>, lh: seq<nat>, lh': seq<nat>)
    requires forall b :: b in lh ==> b in lh'
    ensures |Still(op, acts, lh)| <= |Still(op, acts + [a], lh')|
    ensures a.Log? && a.op == op && a.blockno !in lh && a.blockno in lh' ==> |Still(op, acts, lh)| < |Still(op, acts + [a], lh')|
  {
    assert (acts + [a])[..|acts|] == acts;
    SubsetCount(Still(op, acts, lh), Still(op, acts + [a], lh'));
    if a.Log? && a.op == op && a.blockno !in lh && a.blockno in lh' {
      SubsetCount(Still(op, acts, lh) + {a.blockno}, Still(op, acts + [a], lh'));
    }
  }

  lemma {:induction false} LogFrugal<B>(used: map<OpId, nat>, lh: seq<nat>, acts: seq<Action<B>>, op: OpId, b: nat, v: B)
    requires op in used && FrugalIs(used, lh, acts)
    ensures FrugalIs(used[op := used[op] + if b in lh then 0 else 1], Absorb(lh, b), acts + [Log(op, b, v)])
    ensures FrugalIs(used, lh, acts + [Log(op, b, v)])
  {
    forall o | o in used ensures used[o] <= |Still(o, acts + [Log(op, b, v)], lh)|
      && used[o] + (if o == op && b !in lh then 1 else 0) <= |Still(o, acts + [Log(op, b, v)], Absorb(lh, b))|
    {
      StillGrows(o, acts, Log(op, b, v), lh, lh);
      StillGrows(o, acts, Log(op, b, v), lh, Absorb(lh, b));
    }
  }

  lemma {:induction false} CalmFrugal<B>(used: map<OpId, nat>, used': map<OpId, nat>, lh: seq<nat>, acts: seq<Action<B>>, a: Action<B>)
    requires FrugalIs(used, lh, acts) && forall op :: op in used' ==> used'[op] == 0 || (op in used && used'[op] == used[op])
    ensures FrugalIs(used', lh, acts + [a])
  {
    forall op | op in used' ensures used'[op] <= |Still(op, acts + [a], lh)| {
      if op in used {
        StillGrows(op, acts, a, lh, lh);
      }
    }
  }

  /** Steps other than log_write count nothing. */
  lemma {:induction false} StepCalm<B>(s: State<B>, a: Action<B>)
    requires CountInv(s) && Enabled(s, a) && !a.Log?
    ensures var t := After(s, a);
      || t.hist.used == map[]
      || (t.lh == s.lh && forall op :: op in t.hist.used ==> t.hist.used[op] == 0 || (op in s.hist.used && t.hist.used[op] == s.hist.used[op]))
  {
  }

  /** log_write counts one block if it is new in the header, or panics. */
  lemma {:induction false} StepLogs<B>(s: State<B>, op: OpId, b: nat, v: B)
    requires Enabled(s, Log(op, b, v))
    ensures var t := After(s, Log(op, b, v));
      || (t.hist.used == s.hist.used && t.lh == s.lh)
      || (t.hist.used == s.hist.used[op := s.hist.used[op] + if b in s.lh then 0 else 1] && t.lh == Absorb(s.lh, b))
  {
  }

  lemma {:induction false} StepFrugal<B>(s: State<B>, acts: seq<Action<B>>, a: Action<B>, t: State<B>, all: seq<Action<B>>)
    requires CountInv(s) && Enabled(s, a) && t == After(s, a) && Frugal(s, acts).holds && all != [] && acts == all[..|all| - 1] && a == all[|all| - 1]
    ensures Frugal(t, all).holds
  {
    assert all == acts + [a];
    if a.Log? {
      StepLogs(s, a.op, a.blockno, a.data);
      LogFrugal(s.hist.used, s.lh, acts, a.op, a.blockno, a.data);
    } else {
      StepCalm(s, a);
      if t.hist.used != map[] {
        CalmFrugal(s.hist.used, t.hist.used, s.lh, acts, a);
      }
    }
  }

  lemma {:induction false} RunFrugal<B(!new)>(d: Disk<B>, acts: seq<Action<B>>)
    requires d.head == [] && Runnable(Boot(d), acts)
    ensures Frugal(Exec(Boot(d), acts), acts).holds
    decreases |acts|
  {
    if acts != [] {
      var init, a := acts[..|acts| - 1], acts[|acts| - 1];
      RunFrugal(d, init);
      assert CountInv(Exec(Boot(d), init)) by { RunKeepsInv(d, init); }
      StepFrugal(Exec(Boot(d), init), init, a, Exec(Boot(d), acts), acts);
    }
  }

  lemma {:induction false} BlocksLess<B>(op: OpId, acts: seq<Action<B>>)
    requires acts != [] && |BlocksOf(op, acts)| <= MAXOPBLOCKS
    ensures |BlocksOf(op, acts[..|acts| - 1])| <= MAXOPBLOCKS
  {
    SubsetCount(BlocksOf(op, acts[..|acts| - 1]), BlocksOf(op, acts));
  }

  /** In a run in which every operation logs at most MAXOPBLOCKS different blocks, as filewrite's do, none
      exceeds its quota. */
  lemma {:induction false} FewBlocksThrifty<B(!new)>(d: Disk<B>, acts: seq<Action<B>>)
    requires d.head == [] && Runnable(Boot(d), acts) && forall op: OpId :: |BlocksOf(op, acts)| <= MAXOPBLOCKS
    ensures Thrifty(Boot(d), acts)
    decreases |acts|
  {
    if acts != [] {
      var init := acts[..|acts| - 1];
      forall op: OpId ensures |BlocksOf(op, init)| <= MAXOPBLOCKS {
        BlocksLess(op, acts);
      }
      FewBlocksThrifty(d, init);
      RunFrugal(d, init);
      LastWithin(Exec(Boot(d), init), init, acts);
    }
  }

  lemma {:induction false} LastWithin<B>(s: State<B>, init: seq<Action<B>>, acts: seq<Action<B>>)
    requires acts != [] && init == acts[..|acts| - 1] && Frugal(s, init).holds && forall op: OpId :: |BlocksOf(op, acts)| <= MAXOPBLOCKS
    ensures WithinQuota(s, acts[|acts| - 1])
  {
    var a := acts[|acts| - 1];
    if a.Log? && a.op in s.hist.used && a.blockno !in s.lh {
      assert |BlocksOf(a.op, acts)| <= MAXOPBLOCKS;
      SubsetCount(Still(a.op, init, s.lh) + {a.blockno}, BlocksOf(a.op, acts));
    }
  }
}
