/** One operation on its own in the log, whatever crashes: its writes are all in what recovery restores, or
    none of them is. */
module LogTransaction {
  import opened Basics
  import opened LogProtocol
  import opened LogSafety

  /** The writes passed to log_write in acts. */
  ghost function Asked<B>(acts: seq<Action<B>>): (ws: seq<Write<B>>) {
    if acts == [] then []
    else
      var a := acts[|acts| - 1];
      Asked(acts[..|acts| - 1]) + if a.Log? then [Write(a.op, a.blockno, a.data)] else []
  }

  /** a continues an operation op whose log_writes are to be ws and so far are logs. */
  ghost predicate Next<B>(op: OpId, ws: seq<Write<B>>, logs: seq<Write<B>>, a: Action<B>) {
    match a
    case Begin(o) => o == op
    case Log(o, b, v) => o == op && |logs| < |ws| && ws[|logs|] == Write(op, b, v)
    case End(o) => o == op && logs == ws
    case Advance => true
    case Crash => true
  }

  /** Nothing but op happens in acts, apart from commits, crashes and recoveries: op makes the log_writes ws in
      this order and then ends, unless a crash cuts it off. */
  ghost predicate Alone<B>(op: OpId, ws: seq<Write<B>>, acts: seq<Action<B>>) {
    acts == [] || (Alone(op, ws, acts[..|acts| - 1]) && Next(op, ws, Asked(acts[..|acts| - 1]), acts[|acts| - 1]))
  }

  /** No operation, commit or recovery is under way, and op is new. */
  ghost predicate Calm<B>(s: State<B>, op: OpId) {
    s.phase.Idle? && Resting(s) && s.lh == [] && op !in s.hist.current + s.hist.done + s.hist.lost
  }

  // ----- where the operation has got to -----

  /** op has not been decided: nothing of it is committed and nothing of it is lost. */
  ghost predicate Undecided<B>(s: State<B>, c: seq<seq<Write<B>>>, op: OpId, ws: seq<Write<B>>, logs: seq<Write<B>>) {
    && s.hist.committed == c && op !in s.hist.done + s.hist.lost
    && (s.phase.Halted? || (s.hist.pending == logs && (op !in s.hist.current ==> logs == [])))
    && (s.phase.WritingLog? || s.phase.WritingHead? ==> op in s.hist.current && logs == ws)
  }

  /** op has been committed or cut off by a crash. */
  ghost predicate Closed<B>(s: State<B>, c: seq<seq<Write<B>>>, op: OpId, ws: seq<Write<B>>) {
    && s.hist.pending == [] && s.hist.used == map[] && !s.phase.WritingLog? && !s.phase.WritingHead?
    && (op in s.hist.done || op in s.hist.lost)
    && (op in s.hist.done ==> s.hist.committed == c + [ws] || (ws == [] && s.hist.committed == c))
    && (op in s.hist.lost ==> s.hist.committed == c)
  }

  ghost function Progressing<B>(s: State<B>, c: seq<seq<Write<B>>>, op: OpId, ws: seq<Write<B>>, logs: seq<Write<B>>): (r: Claim) {
    Claim(s.hist.used.Keys <= {op} && (Undecided(s, c, op, ws, logs) || Closed(s, c, op, ws)))
  }

  lemma CalmUndecided<B>(s: State<B>, op: OpId, ws: seq<Write<B>>)
    requires Inv(s) && Calm(s, op)
    ensures Progressing(s, s.hist.committed, op, ws, []).holds
  {
    NothingPending(s);
  }

  lemma {:induction false} BeginGoes<B>(s: State<B>, c: seq<seq<Write<B>>>, op: OpId, ws: seq<Write<B>>, logs: seq<Write<B>>)
    requires Inv(s) && Progressing(s, c, op, ws, logs).holds && Enabled(s, Begin(op))
    ensures Progressing(DoBegin(s, op), c, op, ws, logs).holds
  {
  }

  lemma {:induction false} LogGoes<B>(s: State<B>, c: seq<seq<Write<B>>>, op: OpId, ws: seq<Write<B>>, logs: seq<Write<B>>, b: nat, v: B)
    requires Inv(s) && Progressing(s, c, op, ws, logs).holds && Enabled(s, Log(op, b, v)) && Next(op, ws, logs, Log(op, b, v))
    ensures Progressing(DoLog(s, op, b, v), c, op, ws, logs + [Write(op, b, v)]).holds
  {
  }

  lemma {:induction false} EndGoes<B>(s: State<B>, c: seq<seq<Write<B>>>, op: OpId, ws: seq<Write<B>>)
    requires Inv(s) && Progressing(s, c, op, ws, ws).holds && Enabled(s, End(op))
    ensures Progressing(DoEnd(s, op), c, op, ws, ws).holds
  {
    assert s.hist.used.Keys == {op};
    assert (s.hist.used - {op}).Keys == {};
    if s.lh == [] {
      NothingPending(s);
    }
  }

  lemma {:induction false} AdvanceGoes<B>(s: State<B>, c: seq<seq<Write<B>>>, op: OpId, ws: seq<Write<B>>, logs: seq<Write<B>>)
    requires Inv(s) && Progressing(s, c, op, ws, logs).holds && CanAdvance(s)
    ensures Progressing(Progress(s), c, op, ws, logs).holds
  {
    assert s.hist.used == map[];
  }

  lemma {:induction false} CrashGoes<B>(s: State<B>, c: seq<seq<Write<B>>>, op: OpId, ws: seq<Write<B>>, logs: seq<Write<B>>)
    requires Inv(s) && Progressing(s, c, op, ws, logs).holds && !s.phase.Halted?
    ensures Progressing(DoCrash(s), c, op, ws, logs).holds
  {
  }

  lemma {:induction false} StepGoes<B>(s: State<B>, c: seq<seq<Write<B>>>, op: OpId, ws: seq<Write<B>>, logs: seq<Write<B>>, a: Action<B>)
    requires Inv(s) && Progressing(s, c, op, ws, logs).holds && Enabled(s, a) && Next(op, ws, logs, a)
    ensures Progressing(After(s, a), c, op, ws, logs + if a.Log? then [Write(a.op, a.blockno, a.data)] else []).holds
  {
    assert logs + [] == logs;
    match a
    case Begin(_) => BeginGoes(s, c, op, ws, logs);
    case Log(_, b, v) => LogGoes(s, c, op, ws, logs, b, v);
    case End(_) => EndGoes(s, c, op, ws);
    case Advance => AdvanceGoes(s, c, op, ws, logs);
    case Crash => CrashGoes(s, c, op, ws, logs);
  }

  // ----- whole runs -----

  lemma {:induction false} RunGoes<B(!new)>(d: Disk<B>, acts: seq<Action<B>>, op: OpId, ws: seq<Write<B>>, more: seq<Action<B>>)
    requires d.head == [] && Runnable(Boot(d), acts) && Calm(Exec(Boot(d), acts), op)
    requires Runnable(Boot(d), acts + more) && Alone(op, ws, more)
    ensures Progressing(Exec(Boot(d), acts + more), Exec(Boot(d), acts).hist.committed, op, ws, Asked(more)).holds
    decreases |more|
  {
    if more == [] {
      assert acts + more == acts;
      RunKeepsInv(d, acts);
      CalmUndecided(Exec(Boot(d), acts), op, ws);
    } else {
      var all, init := acts + more, more[..|more| - 1];
      assert all[..|all| - 1] == acts + init;
      RunGoes(d, acts, op, ws, init);
      RunKeepsInv(d, acts + init);
      StepGoes(Exec(Boot(d), acts + init), Exec(Boot(d), acts).hist.committed, op, ws, Asked(init), more[|more| - 1]);
    }
  }

  lemma {:induction false} Decided<B>(s: State<B>, h: History<B>, op: OpId, ws: seq<Write<B>>, logs: seq<Write<B>>)
    requires OpsInv(s.hist) && s.hist.initial == h.initial && Progressing(s, h.committed, op, ws, logs).holds
    ensures s.hist.Target() == if op in s.hist.done then Apply(h.Target(), ws) else h.Target()
  {
    if s.hist.committed == h.committed + [ws] {
      FlattenSnoc(h.committed, ws);
      ApplyConcat(h.initial, Flatten(h.committed), ws);
    }
  }

  /** Wherever an operation that is alone in the log has got to, and however often the machine has crashed,
      recovery restores what there was before it or, once it has been committed, exactly that with its writes
      in order. */
  lemma {:induction false} AllOrNothing<B(!new)>(d: Disk<B>, acts: seq<Action<B>>, op: OpId, ws: seq<Write<B>>, more: seq<Action<B>>)
    requires d.head == [] && Runnable(Boot(d), acts) && Calm(Exec(Boot(d), acts), op)
    requires Runnable(Boot(d), acts + more) && Alone(op, ws, more)
    ensures var before, s := Exec(Boot(d), acts).hist.Target(), Exec(Boot(d), acts + more);
      s.hist.Target() == if op in s.hist.done then Apply(before, ws) else before
  {
    RunKeepsInv(d, acts);
    RunKeepsInv(d, acts + more);
    RunGoes(d, acts, op, ws, more);
    Decided(Exec(Boot(d), acts + more), Exec(Boot(d), acts).hist, op, ws, Asked(more));
  }

  // ----- it does get through -----

  lemma {:induction false} RunOn<B(!new)>(s: State<B>, acts: seq<Action<B>>, op: OpId, ws: seq<Write<B>>, more: seq<Action<B>>, a: Action<B>)
    requires Runnable(s, acts + more) && Alone(op, ws, more) && Enabled(Exec(s, acts + more), a) && Next(op, ws, Asked(more), a)
    ensures Runnable(s, acts + (more + [a])) && Alone(op, ws, more + [a])
    ensures Exec(s, acts + (more + [a])) == After(Exec(s, acts + more), a)
    ensures Asked(more + [a]) == Asked(more) + if a.Log? then [Write(a.op, a.blockno, a.data)] else []
  {
    RunPrefix(s, acts + more, a);
    assert acts + more + [a] == acts + (more + [a]);
    assert (more + [a])[..|more|] == more;
  }

  /** op has been begun and has logged blocks of bs only. */
  ghost predicate Logging<B>(s: State<B>, d: Disk<B>, op: OpId, bs: set<nat>) {
    && s.phase.Idle? && s.outstanding == 1 && op in s.hist.used && Distinct(s.lh) && (forall i :: 0 <= i < |s.lh| ==> s.lh[i] in bs)
    && s.disk.home.Keys == d.home.Keys && |s.disk.slots| == |d.slots|
  }

  lemma BeginLogging<B>(s: State<B>, op: OpId, bs: set<nat>)
    requires Inv(s) && Calm(s, op)
    ensures Enabled(s, Begin(op)) && Logging(After(s, Begin(op)), s.disk, op, bs)
  {
  }

  lemma {:induction false} DistinctFew(h: seq<nat>, bs: set<nat>)
    requires Distinct(h) && forall i :: 0 <= i < |h| ==> h[i] in bs
    ensures |h| <= |bs|
  {
    if h != [] {
      var k := |h| - 1;
      DistinctFew(h[..k], bs - {h[k]});
    }
  }

  lemma LogLogging<B>(s: State<B>, d: Disk<B>, op: OpId, bs: set<nat>, b: nat, v: B)
    requires Logging(s, d, op, bs) && |bs| <= MAXOPBLOCKS && |bs| < |d.slots| && b in bs && b in d.home
    ensures Enabled(s, Log(op, b, v)) && Logging(After(s, Log(op, b, v)), d, op, bs)
  {
    DistinctFew(s.lh, bs);
  }

  lemma {:induction false} LogFirst<B(!new)>(d: Disk<B>, acts: seq<Action<B>>, op: OpId, ws: seq<Write<B>>, bs: set<nat>) returns (more: seq<Action<B>>)
    requires d.head == [] && Runnable(Boot(d), acts) && Calm(Exec(Boot(d), acts), op)
    ensures Runnable(Boot(d), acts + more) && Alone(op, ws, more) && Asked(more) == []
    ensures Logging(Exec(Boot(d), acts + more), Exec(Boot(d), acts).disk, op, bs)
  {
    more := [];
    assert acts + more == acts;
    RunKeepsInv(d, acts);
    BeginLogging(Exec(Boot(d), acts), op, bs);
    RunOn(Boot(d), acts, op, ws, more, Begin(op));
    more := more + [Begin(op)];
  }

  lemma TakeOne<T>(s: seq<T>, k: nat)
    requires k < |s|
    ensures s[..k + 1] == s[..k] + [s[k]]
  {
  }

  lemma {:induction false} LogNext<B(!new)>(s: State<B>, d: Disk<B>, acts: seq<Action<B>>, op: OpId, ws: seq<Write<B>>, bs: set<nat>, init: seq<Action<B>>, k: nat)
    returns (more: seq<Action<B>>)
    requires Runnable(s, acts + init) && Alone(op, ws, init) && k < |ws| && Asked(init) == ws[..k] && Logging(Exec(s, acts + init), d, op, bs)
    requires |bs| <= MAXOPBLOCKS && |bs| < |d.slots| && ws[k].op == op && ws[k].blockno in bs && ws[k].blockno in d.home
    ensures Runnable(s, acts + more) && Alone(op, ws, more) && Asked(more) == ws[..k + 1] && Logging(Exec(s, acts + more), d, op, bs)
  {
    var a := Log(op, ws[k].blockno, ws[k].data);
    LogLogging(Exec(s, acts + init), d, op, bs, ws[k].blockno, ws[k].data);
    RunOn(s, acts, op, ws, init, a);
    more := init + [a];
    TakeOne(ws, k);
  }

  /** The log_writes ws are of op, to blocks of bs. */
  ghost predicate Within<B>(ws: seq<Write<B>>, op: OpId, bs: set<nat>) {
    forall i :: 0 <= i < |ws| ==> ws[i].op == op && ws[i].blockno in bs
  }

  lemma {:induction false} LogAll<B(!new)>(d: Disk<B>, acts: seq<Action<B>>, op: OpId, ws: seq<Write<B>>, bs: set<nat>, k: nat)
    returns (more: seq<Action<B>>)
    requires d.head == [] && Runnable(Boot(d), acts) && Calm(Exec(Boot(d), acts), op)
    requires k <= |ws| && |bs| <= MAXOPBLOCKS && |bs| < |Exec(Boot(d), acts).disk.slots|
    requires Within(ws, op, bs) && bs <= Exec(Boot(d), acts).disk.home.Keys
    ensures Runnable(Boot(d), acts + more) && Alone(op, ws, more) && Asked(more) == ws[..k]
    ensures Logging(Exec(Boot(d), acts + more), Exec(Boot(d), acts).disk, op, bs)
    decreases k
  {
    if k == 0 {
      more := LogFirst(d, acts, op, ws, bs);
    } else {
      more := LogAll(d, acts, op, ws, bs, k - 1);
      more := LogNext(Boot(d), Exec(Boot(d), acts).disk, acts, op, ws, bs, more, k - 1);
    }
  }

  /** Steps left of a commit or a recovery. */
  ghost function Rank<B>(s: State<B>): (n: int) {
    match s.phase
    case Idle => 0
    case Halted => 0
    case WritingLog(t) => 6 + 3 * |s.lh| - t
    case WritingHead => 5 + |s.lh|
    case Installing(t, _) => 4 + |s.lh| - t
    case ClearingHead(_) => 3
    case Finishing => 1
    case ReadingHead => 5 + |s.disk.head|
  }

  /** op has ended: it is committed or will be once the header is written. */
  ghost predicate Ended<B>(s: State<B>, op: OpId) {
    !s.phase.Halted? && (op in s.hist.done || (op in s.hist.current && (s.phase.WritingLog? || s.phase.WritingHead?)))
  }

  lemma {:induction false} CanGoOn<B>(s: State<B>, op: OpId)
    requires Inv(s) && Ended(s, op) && !s.phase.Idle?
    ensures CanAdvance(s) && Ended(Progress(s), op) && 0 <= Rank(Progress(s)) < Rank(s)
  {
  }

  lemma {:induction false} Settle<B(!new)>(d: Disk<B>, acts: seq<Action<B>>, op: OpId, ws: seq<Write<B>>, more: seq<Action<B>>)
    returns (all: seq<Action<B>>)
    requires d.head == [] && Runnable(Boot(d), acts + more) && Alone(op, ws, more) && Ended(Exec(Boot(d), acts + more), op)
    ensures Runnable(Boot(d), acts + all) && Alone(op, ws, all)
    ensures Exec(Boot(d), acts + all).phase.Idle? && op in Exec(Boot(d), acts + all).hist.done
    decreases Rank(Exec(Boot(d), acts + more))
  {
    var s := Exec(Boot(d), acts + more);
    if s.phase.Idle? {
      all := more;
    } else {
      RunKeepsInv(d, acts + more);
      CanGoOn(s, op);
      RunOn(Boot(d), acts, op, ws, more, Advance);
      all := Settle(d, acts, op, ws, more + [Advance]);
    }
  }

  lemma EndEnds<B>(s: State<B>, d: Disk<B>, op: OpId, bs: set<nat>)
    requires Inv(s) && Logging(s, d, op, bs)
    ensures Enabled(s, End(op)) && Ended(After(s, End(op)), op)
  {
  }

  /** An operation that logs at most MAXOPBLOCKS different blocks and starts on its own is committed if nothing
      crashes, as long as there are more slots than that. */
  lemma {:induction false} GetsThrough<B(!new)>(d: Disk<B>, acts: seq<Action<B>>, op: OpId, ws: seq<Write<B>>, bs: set<nat>)
    returns (more: seq<Action<B>>)
    requires d.head == [] && Runnable(Boot(d), acts) && Calm(Exec(Boot(d), acts), op)
    requires |bs| <= MAXOPBLOCKS && |bs| < |Exec(Boot(d), acts).disk.slots|
    requires Within(ws, op, bs) && bs <= Exec(Boot(d), acts).disk.home.Keys
    ensures Runnable(Boot(d), acts + more) && Alone(op, ws, more)
    ensures Exec(Boot(d), acts + more).phase.Idle? && op in Exec(Boot(d), acts + more).hist.done
  {
    more := LogAll(d, acts, op, ws, bs, |ws|);
    assert ws[..|ws|] == ws;
    RunKeepsInv(d, acts + more);
    EndEnds(Exec(Boot(d), acts + more), Exec(Boot(d), acts).disk, op, bs);
    RunOn(Boot(d), acts, op, ws, more, End(op));
    more := Settle(d, acts, op, ws, more + [End(op)]);
  }
}
