/** Crash atomicity of the redo log over every run of the machine in LogProtocol. */
module LogSafety {
  import opened Basics
  import opened LogProtocol

  // ----- replaying writes -----

  lemma {:induction false} ApplyConcat<B>(d: Home<B>, u: seq<Write<B>>, v: seq<Write<B>>)
    ensures Apply(d, u + v) == Apply(Apply(d, u), v)
    decreases |v|
  {
    if v == [] {
      assert u + v == u;
    } else {
      ApplyConcat(d, u, v[..|v| - 1]);
      assert (u + v)[..|u + v| - 1] == u + v[..|v| - 1];
    }
  }

  lemma ApplySnoc<B>(d: Home<B>, ws: seq<Write<B>>, w: Write<B>)
    ensures Apply(d, ws + [w]) == Apply(d, ws)[w.blockno := w.data]
  {
    assert (ws + [w])[..|ws|] == ws;
  }

  lemma FlattenSnoc<B>(groups: seq<seq<Write<B>>>, g: seq<Write<B>>)
    ensures Flatten(groups + [g]) == Flatten(groups) + g
  {
    assert (groups + [g])[..|groups|] == groups;
  }

  lemma {:induction false} WritesOfConcat<B>(op: OpId, u: seq<Write<B>>, v: seq<Write<B>>)
    ensures WritesOf(op, u + v) == WritesOf(op, u) + WritesOf(op, v)
    decreases |v|
  {
    if v == [] {
      assert u + v == u;
    } else {
      WritesOfConcat(op, u, v[..|v| - 1]);
      assert (u + v)[..|u + v| - 1] == u + v[..|v| - 1];
    }
  }

  // ----- the invariant -----

  ghost predicate Distinct(h: seq<nat>) {
    forall i, j :: 0 <= i < j < |h| ==> h[i] != h[j]
  }

  /** Header h and the log slots suffice to turn the home blocks into t. */
  ghost predicate Redo<B>(d: Disk<B>, h: seq<nat>, t: Home<B>) {
    && d.home.Keys == t.Keys
    && |h| <= LOGSIZE && |h| <= |d.slots| && Distinct(h)
    && (forall j :: 0 <= j < |h| ==> h[j] in t && d.slots[j] == t[h[j]])
    && (forall b :: b in t && b !in h ==> d.home[b] == t[b])
  }

  /** The buffers pinned in memory are the blocks in lh, and show the pending writes. */
  ghost predicate Pinned<B>(s: State<B>) {
    && |s.lh| <= LOGSIZE && |s.lh| <= |s.disk.slots| && Distinct(s.lh)
    && (forall j :: 0 <= j < |s.lh| ==> s.lh[j] in s.disk.home && s.lh[j] in s.cache)
    && (forall b :: b in s.cache ==> b in s.lh)
    && (s.lh == [] ==> s.hist.pending == [])
    && Apply(s.hist.Target(), s.hist.pending).Keys == s.disk.home.Keys
    && (forall b :: b in s.disk.home ==> s.Visible(b) == Apply(s.hist.Target(), s.hist.pending)[b])
  }

  /** Nothing of the pending group has reached a home block or the header. */
  ghost predicate Gathering<B>(s: State<B>) {
    s.disk.head == [] && s.disk.home == s.hist.Target() && Pinned(s)
  }

  ghost predicate Copied<B>(s: State<B>, k: nat) {
    k <= |s.lh| <= |s.disk.slots| && forall j :: 0 <= j < k ==> s.lh[j] in s.cache && s.disk.slots[j] == s.cache[s.lh[j]]
  }

  ghost predicate Installed<B>(s: State<B>, k: nat, recovering: bool) {
    && s.disk.head == s.lh && Redo(s.disk, s.lh, s.hist.Target())
    && k <= |s.lh| && s.hist.pending == []
    && (forall j :: 0 <= j < k ==> s.disk.home[s.lh[j]] == s.hist.Target()[s.lh[j]])
    && (forall b :: b in s.cache ==> !recovering && b in s.lh[k..])
  }

  ghost predicate Quiet<B>(s: State<B>) {
    s.lh == [] && s.cache == map[] && s.hist.pending == []
  }

  ghost predicate DiskInv<B>(s: State<B>) {
    match s.phase
    case Idle => Gathering(s)
    case WritingLog(k) => Gathering(s) && Copied(s, k)
    case WritingHead => Gathering(s) && Copied(s, |s.lh|)
    case Installing(k, r) => Installed(s, k, r)
    case ClearingHead(_) => Redo(s.disk, s.disk.head, s.hist.Target()) && Quiet(s) && s.disk.home == s.hist.Target()
    case Finishing => s.disk.head == [] && Quiet(s) && s.disk.home == s.hist.Target()
    case ReadingHead => Redo(s.disk, s.disk.head, s.hist.Target()) && Quiet(s)
    case Halted => Redo(s.disk, s.disk.head, s.hist.Target())
  }

  /** log.committing is set exactly while end_op commits, and then nobody is inside an operation. */
  ghost predicate CountInv<B>(s: State<B>) {
    && s.outstanding == |s.hist.used|
    && (s.outstanding > 0 ==> s.phase.Idle? || s.phase.Halted?)
    && (!s.phase.Halted? ==> s.committing == !(s.phase.Idle? || s.Booting()))
    && (s.committing ==> s.outstanding == 0)
  }

  ghost predicate From<B>(ws: seq<Write<B>>, ops: set<OpId>) {
    forall i :: 0 <= i < |ws| ==> ws[i].op in ops
  }

  /** Each operation is in exactly one of current, done and lost, and so are all its writes. */
  ghost predicate OpsInv<B>(h: History<B>) {
    && h.current !! h.done && h.current !! h.lost && h.done !! h.lost
    && h.used.Keys <= h.current
    && From(h.pending, h.current) && From(Flatten(h.committed), h.done)
    && From(h.issued, h.current + h.done + h.lost)
    && (forall op :: op in h.current ==> WritesOf(op, h.pending) == WritesOf(op, h.issued))
    && (forall op :: op in h.done ==> WritesOf(op, Flatten(h.committed)) == WritesOf(op, h.issued))
  }

  ghost predicate Inv<B>(s: State<B>) {
    DiskInv(s) && CountInv(s) && OpsInv(s.hist)
  }

  // ----- the disk half -----

  /** In every phase the disk alone determines the committed contents. */
  lemma AlwaysRecoverable<B>(s: State<B>)
    requires DiskInv(s)
    ensures Redo(s.disk, s.disk.head, s.hist.Target())
  {
  }

  lemma AbsorbDistinct(lh: seq<nat>, b: nat)
    requires Distinct(lh)
    ensures Distinct(Absorb(lh, b)) && b in Absorb(lh, b)
    ensures forall c :: c in Absorb(lh, b) <==> c in lh || c == b
  {
  }

  lemma LogKeepsGathering<B>(s: State<B>, op: OpId, b: nat, v: B)
    requires Gathering(s) && op in s.hist.used && b in s.disk.home && !s.TooBig() && s.outstanding >= 1
    ensures Gathering(DoLog(s, op, b, v))
  {
    var t := DoLog(s, op, b, v);
    var view := Apply(s.hist.Target(), s.hist.pending);
    AbsorbDistinct(s.lh, b);
    ApplySnoc(s.hist.Target(), s.hist.pending, Write(op, b, v));
    assert t.hist.Target() == s.hist.Target();
    assert Apply(t.hist.Target(), t.hist.pending) == view[b := v];
    forall c | c in t.disk.home ensures t.Visible(c) == view[b := v][c] {
      assert s.Visible(c) == view[c];
    }
  }

  lemma LogKeepsDisk<B>(s: State<B>, op: OpId, b: nat, v: B)
    requires s.phase.Idle? && DiskInv(s) && Enabled(s, Log(op, b, v))
    ensures DiskInv(DoLog(s, op, b, v))
  {
    if !s.TooBig() && s.outstanding >= 1 {
      LogKeepsGathering(s, op, b, v);
    }
  }

  lemma CopyKeepsDisk<B>(s: State<B>)
    requires DiskInv(s) && s.phase.WritingLog? && CanAdvance(s)
    ensures DiskInv(Progress(s))
  {
    assert Progress(s).hist.Target() == s.hist.Target();
  }

  lemma CommitKeepsDisk<B>(s: State<B>)
    requires DiskInv(s) && s.phase.WritingHead?
    ensures DiskInv(Progress(s))
    ensures Progress(s).hist.Target() == Apply(s.hist.Target(), s.hist.pending)
  {
    var t := Progress(s);
    FlattenSnoc(s.hist.committed, s.hist.pending);
    ApplyConcat(s.hist.initial, Flatten(s.hist.committed), s.hist.pending);
    forall j | 0 <= j < |s.lh| ensures t.disk.slots[j] == t.hist.Target()[s.lh[j]] {
      assert s.Visible(s.lh[j]) == t.hist.Target()[s.lh[j]];
    }
    forall b | b in t.disk.home && b !in s.lh ensures t.disk.home[b] == t.hist.Target()[b] {
      assert s.Visible(b) == s.disk.home[b];
    }
  }

  lemma InstallKeepsDisk<B>(s: State<B>)
    requires DiskInv(s) && s.phase.Installing? && CanAdvance(s)
    ensures DiskInv(Progress(s))
  {
    var k := s.phase.tail;
    assert Progress(s).hist.Target() == s.hist.Target();
    if k < |s.lh| {
      assert s.lh[k..] == [s.lh[k]] + s.lh[k + 1..];
    } else {
      assert s.lh[k..] == [];
      assert s.cache.Keys == {};
      forall b | b in s.disk.home ensures s.disk.home[b] == s.hist.Target()[b] {}
    }
  }

  lemma NothingPending<B>(s: State<B>)
    requires Pinned(s) && s.lh == []
    ensures s.hist.pending == [] && s.cache == map[]
  {
    assert s.cache.Keys == {};
  }

  lemma EndKeepsDisk<B>(s: State<B>, op: OpId)
    requires DiskInv(s) && CountInv(s) && Enabled(s, End(op))
    ensures DiskInv(DoEnd(s, op))
  {
    assert DoEnd(s, op).hist.Target() == s.hist.Target();
    if s.lh == [] {
      NothingPending(s);
    }
  }

  lemma StepKeepsDisk<B>(s: State<B>, a: Action<B>)
    requires DiskInv(s) && CountInv(s) && Enabled(s, a)
    ensures DiskInv(After(s, a))
  {
    match a
    case Begin(op) => assert DoBegin(s, op).hist.Target() == s.hist.Target();
    case Log(op, b, v) =>
      assert s.outstanding > 0 by { assert op in s.hist.used; }
      LogKeepsDisk(s, op, b, v);
    case End(op) => EndKeepsDisk(s, op);
    case Crash =>
      AlwaysRecoverable(s);
      assert DoCrash(s).hist.Target() == s.hist.Target();
    case Advance => ProgressKeepsDisk(s);
  }

  lemma ProgressKeepsDisk<B>(s: State<B>)
    requires DiskInv(s) && CanAdvance(s)
    ensures DiskInv(Progress(s))
  {
    if s.phase.WritingLog? {
      CopyKeepsDisk(s);
    } else if s.phase.WritingHead? {
      CommitKeepsDisk(s);
    } else if s.phase.Installing? {
      InstallKeepsDisk(s);
    } else {
      assert Progress(s).hist.Target() == s.hist.Target();
    }
  }

  // ----- the bookkeeping half -----

  lemma StepKeepsCount<B>(s: State<B>, a: Action<B>)
    requires CountInv(s) && OpsInv(s.hist) && Enabled(s, a)
    ensures CountInv(After(s, a))
  {
    match a
    case Begin(op) => assert op !in s.hist.used;
    case Log(op, b, v) => LogKeepsCount(s, op, b, v);
    case End(op) => assert (s.hist.used - {op}).Keys == s.hist.used.Keys - {op};
    case Crash =>
    case Advance =>
  }

  lemma LogKeepsCount<B>(s: State<B>, op: OpId, b: nat, v: B)
    requires CountInv(s) && Enabled(s, Log(op, b, v))
    ensures CountInv(DoLog(s, op, b, v))
  {
    var appended := if b in s.lh then 0 else 1;
    assert s.hist.used[op := s.hist.used[op] + appended].Keys == s.hist.used.Keys;
  }

  lemma {:induction false} WritesOfAbsent<B>(op: OpId, ws: seq<Write<B>>, ops: set<OpId>)
    requires From(ws, ops) && op !in ops
    ensures WritesOf(op, ws) == []
    decreases |ws|
  {
    if ws != [] {
      WritesOfAbsent(op, ws[..|ws| - 1], ops);
    }
  }

  lemma WritesOfSnoc<B>(op: OpId, ws: seq<Write<B>>, w: Write<B>)
    ensures WritesOf(op, ws + [w]) == if w.op == op then WritesOf(op, ws) + [w] else WritesOf(op, ws)
  {
    assert (ws + [w])[..|ws|] == ws;
  }

  lemma BeginKeepsOps<B>(s: State<B>, op: OpId)
    requires OpsInv(s.hist) && Enabled(s, Begin(op))
    ensures OpsInv(DoBegin(s, op).hist)
  {
    WritesOfAbsent(op, s.hist.pending, s.hist.current);
    WritesOfAbsent(op, s.hist.issued, s.hist.current + s.hist.done + s.hist.lost);
  }

  lemma LogKeepsOps<B>(s: State<B>, op: OpId, b: nat, v: B)
    requires OpsInv(s.hist) && Enabled(s, Log(op, b, v))
    ensures OpsInv(DoLog(s, op, b, v).hist)
  {
    var w := Write(op, b, v);
    forall o | o in s.hist.current + s.hist.done
      ensures WritesOf(o, s.hist.issued + [w]) == if o == op then WritesOf(o, s.hist.issued) + [w] else WritesOf(o, s.hist.issued)
      ensures WritesOf(o, s.hist.pending + [w]) == if o == op then WritesOf(o, s.hist.pending) + [w] else WritesOf(o, s.hist.pending)
    {
      WritesOfSnoc(o, s.hist.issued, w);
      WritesOfSnoc(o, s.hist.pending, w);
    }
  }

  lemma CommitKeepsOps<B>(s: State<B>)
    requires OpsInv(s.hist) && s.phase.WritingHead? && s.hist.used == map[]
    ensures OpsInv(Progress(s).hist)
  {
    var c, p := s.hist.committed, s.hist.pending;
    FlattenSnoc(c, p);
    forall op | op in s.hist.done + s.hist.current
      ensures WritesOf(op, Flatten(c) + p) == WritesOf(op, s.hist.issued)
    {
      WritesOfConcat(op, Flatten(c), p);
      if op in s.hist.done {
        WritesOfAbsent(op, p, s.hist.current);
      } else {
        WritesOfAbsent(op, Flatten(c), s.hist.done);
      }
    }
  }

  lemma EndKeepsOps<B>(s: State<B>, op: OpId)
    requires DiskInv(s) && CountInv(s) && OpsInv(s.hist) && Enabled(s, End(op))
    ensures OpsInv(DoEnd(s, op).hist)
  {
    if |s.lh| == 0 && s.outstanding == 1 {
      NothingPending(s);
      assert |s.hist.used - {op}| == 0 by { assert (s.hist.used - {op}).Keys == s.hist.used.Keys - {op}; }
      forall o | o in s.hist.current ensures WritesOf(o, Flatten(s.hist.committed)) == WritesOf(o, s.hist.issued) {
        WritesOfAbsent(o, Flatten(s.hist.committed), s.hist.done);
      }
    }
  }

  lemma StepKeepsOps<B>(s: State<B>, a: Action<B>)
    requires Inv(s) && Enabled(s, a)
    ensures OpsInv(After(s, a).hist)
  {
    match a
    case Begin(op) => BeginKeepsOps(s, op);
    case Log(op, b, v) => LogKeepsOps(s, op, b, v);
    case End(op) => EndKeepsOps(s, op);
    case Crash =>
    case Advance =>
      if s.phase.WritingHead? {
        assert s.hist.used == map[];
        CommitKeepsOps(s);
      }
  }

  // ----- over whole runs -----

  lemma {:induction false} StepInitial<B>(s: State<B>, a: Action<B>)
    requires Enabled(s, a)
    ensures After(s, a).hist.initial == s.hist.initial
  {
  }

  lemma {:induction false} StepKeepsInv<B>(s: State<B>, a: Action<B>)
    requires Inv(s) && Enabled(s, a)
    ensures Inv(After(s, a))
  {
    StepKeepsDisk(s, a);
    StepKeepsCount(s, a);
    StepKeepsOps(s, a);
  }

  lemma {:induction false} RunKeepsInv<B(!new)>(d: Disk<B>, acts: seq<Action<B>>)
    requires d.head == [] && Runnable(Boot(d), acts)
    ensures Inv(Exec(Boot(d), acts)) && Exec(Boot(d), acts).hist.initial == d.home
    decreases |acts|
  {
    if acts != [] {
      var init := acts[..|acts| - 1];
      RunKeepsInv(d, init);
      StepKeepsInv(Exec(Boot(d), init), acts[|acts| - 1]);
      StepInitial(Exec(Boot(d), init), acts[|acts| - 1]);
    }
  }

  /** After any run the disk determines the committed contents; whenever no commit or recovery is
      under way the home blocks are exactly the committed writes in order; what the kernel reads
      is those followed by the pending ones; and every operation is all there or not at all. */
  lemma CrashAtomicity<B(!new)>(d: Disk<B>, acts: seq<Action<B>>)
    requires d.head == [] && Runnable(Boot(d), acts)
    ensures var s := Exec(Boot(d), acts); var c := Flatten(s.hist.committed);
      && Redo(s.disk, s.disk.head, Apply(d.home, c))
      && (s.phase.Idle? ==> s.disk.home == Apply(d.home, c))
      && (s.phase.Idle? ==> forall b :: b in s.disk.home ==>
            b in Apply(d.home, c + s.hist.pending) && s.Visible(b) == Apply(d.home, c + s.hist.pending)[b])
      && (forall op :: WritesOf(op, c) == WritesOf(op, s.hist.issued) || WritesOf(op, c) == [])
  {
    RunKeepsInv(d, acts);
    var s := Exec(Boot(d), acts);
    var c := Flatten(s.hist.committed);
    AlwaysRecoverable(s);
    ApplyConcat(d.home, c, s.hist.pending);
    forall op ensures WritesOf(op, c) == WritesOf(op, s.hist.issued) || WritesOf(op, c) == [] {
      if op !in s.hist.done {
        WritesOfAbsent(op, c, s.hist.done);
      }
    }
  }

  lemma RunPrefix<B(!new)>(s: State<B>, u: seq<Action<B>>, a: Action<B>)
    ensures Runnable(s, u + [a]) <==> Runnable(s, u) && Enabled(Exec(s, u), a)
    ensures Runnable(s, u + [a]) ==> Exec(s, u + [a]) == After(Exec(s, u), a)
  {
    assert (u + [a])[..|u|] == u;
  }

  lemma {:induction false} StepCommits<B>(s: State<B>, a: Action<B>)
    requires Enabled(s, a)
    ensures s.hist.committed <= After(s, a).hist.committed
  {
  }

  /** What has been committed stays committed, crashes and recoveries included. */
  lemma {:induction false} CommittedOnlyGrows<B(!new)>(d: Disk<B>, u: seq<Action<B>>, v: seq<Action<B>>)
    requires Runnable(Boot(d), u + v)
    ensures Runnable(Boot(d), u)
    ensures Exec(Boot(d), u).hist.committed <= Exec(Boot(d), u + v).hist.committed
    decreases |v|
  {
    if v == [] {
      assert u + v == u;
    } else {
      var w := v[..|v| - 1];
      assert (u + v)[..|u + v| - 1] == u + w;
      CommittedOnlyGrows(d, u, w);
      StepCommits(Exec(Boot(d), u + w), v[|v| - 1]);
    }
  }

  lemma {:induction false} RetryStep<B>(s: State<B>, a: Action<B>)
    requires DiskInv(s) && Enabled(s, a) && (a.Crash? || a.Advance?) && (s.Booting() || s.phase.Idle?)
    ensures var t := After(s, a); (t.Booting() || t.phase.Idle?) && t.hist.committed == s.hist.committed && (t.phase.Idle? ==> t.lh == [])
  {
  }

  /** t comes after a crash in s and no more than recovery since. */
  ghost function Retried<B>(d: Disk<B>, s: State<B>, t: State<B>): (r: Claim) {
    Claim(&& (t.Booting() || t.phase.Idle?) && t.hist.committed == s.hist.committed
          && (t.phase.Idle? ==> t.disk.home == Apply(d.home, Flatten(s.hist.committed)) && t.cache == map[]))
  }

  lemma {:induction false} RetriedFirst<B>(d: Disk<B>, s: State<B>)
    requires Enabled(s, Crash)
    ensures Retried(d, s, After(s, Crash)).holds
  {
  }

  lemma {:induction false} RetriedOn<B>(d: Disk<B>, s: State<B>, t: State<B>, a: Action<B>)
    requires Retried(d, s, t).holds && Inv(t) && t.hist.initial == d.home && Enabled(t, a) && (a.Crash? || a.Advance?)
    ensures Retried(d, s, After(t, a)).holds
  {
    RetryStep(t, a);
    StepKeepsInv(t, a);
    StepInitial(t, a);
    if After(t, a).phase.Idle? {
      NothingPending(After(t, a));
    }
  }

  lemma RetriedMeans<B>(d: Disk<B>, s: State<B>, t: State<B>)
    requires Retried(d, s, t).holds
    ensures (t.Booting() || t.phase.Idle?) && t.hist.committed == s.hist.committed
    ensures t.phase.Idle? ==> t.disk.home == Apply(d.home, Flatten(s.hist.committed)) && t.cache == map[]
  {
  }

  lemma {:induction false} RunRetriedOn<B(!new)>(d: Disk<B>, s: State<B>, acts: seq<Action<B>>, a: Action<B>)
    requires d.head == [] && Runnable(Boot(d), acts) && Retried(d, s, Exec(Boot(d), acts)).holds
    requires Enabled(Exec(Boot(d), acts), a) && (a.Crash? || a.Advance?)
    ensures Retried(d, s, After(Exec(Boot(d), acts), a)).holds
  {
    RunKeepsInv(d, acts);
    RetriedOn(d, s, Exec(Boot(d), acts), a);
  }

  /** Action k is a crash, and only crashes and recovery follow. */
  lemma {:induction false} RunRetried<B(!new)>(d: Disk<B>, acts: seq<Action<B>>, k: nat)
    requires d.head == [] && Runnable(Boot(d), acts) && k < |acts| && acts[k] == Crash
    requires forall i :: k < i < |acts| ==> acts[i].Crash? || acts[i].Advance?
    ensures Runnable(Boot(d), acts[..k]) && Retried(d, Exec(Boot(d), acts[..k]), Exec(Boot(d), acts)).holds
    decreases |acts|
  {
    var init, a := acts[..|acts| - 1], acts[|acts| - 1];
    if k == |acts| - 1 {
      RetriedFirst(d, Exec(Boot(d), init));
    } else {
      RunRetried(d, init, k);
      assert init[..k] == acts[..k];
      RunRetriedOn(d, Exec(Boot(d), init[..k]), init, a);
    }
  }

  /** However often the machine crashes before recovery completes, the recovery that does complete
      leaves the home blocks as they were committed at the first crash. */
  lemma RepeatedCrashes<B(!new)>(d: Disk<B>, u: seq<Action<B>>, v: seq<Action<B>>)
    requires d.head == [] && Runnable(Boot(d), u + [Crash] + v)
    requires forall i :: 0 <= i < |v| ==> v[i].Crash? || v[i].Advance?
    ensures Runnable(Boot(d), u)
    ensures var s, t := Exec(Boot(d), u), Exec(Boot(d), u + [Crash] + v);
      && (t.Booting() || t.phase.Idle?)
      && t.hist.committed == s.hist.committed
      && (t.phase.Idle? ==> t.disk.home == Apply(d.home, Flatten(s.hist.committed)) && t.cache == map[])
  {
    var all := u + [Crash] + v;
    assert all[..|u|] == u;
    RunRetried(d, all, |u|);
    RetriedMeans(d, Exec(Boot(d), u), Exec(Boot(d), all));
  }

  ghost function Advances<B>(n: nat): (r: seq<Action<B>>) {
    if n == 0 then [] else Advances(n - 1) + [Advance]
  }

  /** t is s after recovery has read the header and installed the first k blocks. */
  ghost function Recovering<B>(s: State<B>, t: State<B>, k: nat): (r: Claim) {
    Claim(t.phase == Installing(k, true) && t.lh == s.disk.head == t.disk.head && t.hist == s.hist && DiskInv(t))
  }

  lemma RecoveryStarts<B>(s: State<B>)
    requires DiskInv(s) && s.phase.ReadingHead?
    ensures CanAdvance(s) && Recovering(s, Progress(s), 0).holds
  {
    ProgressKeepsDisk(s);
  }

  lemma RecoveryGoesOn<B>(s: State<B>, t: State<B>, k: nat)
    requires Recovering(s, t, k).holds && k < |s.disk.head|
    ensures CanAdvance(t) && !t.phase.Halted? && Recovering(s, Progress(t), k + 1).holds
  {
    ProgressKeepsDisk(t);
  }

  lemma AdvanceOnce<B(!new)>(s: State<B>, acts: seq<Action<B>>)
    requires Runnable(s, acts) && CanAdvance(Exec(s, acts)) && !Exec(s, acts).phase.Halted?
    ensures Runnable(s, acts + [Advance]) && Exec(s, acts + [Advance]) == Progress(Exec(s, acts))
  {
    RunPrefix(s, acts, Advance);
  }

  lemma {:induction false} RecoveryStep<B(!new)>(s: State<B>, k: nat)
    requires DiskInv(s) && s.phase.ReadingHead? && k <= |s.disk.head|
    ensures Runnable(s, Advances(k + 1)) && Recovering(s, Exec(s, Advances(k + 1)), k).holds
  {
    if k == 0 {
      RecoveryStarts(s);
      AdvanceOnce(s, []);
    } else {
      RecoveryStep(s, k - 1);
      RecoveryNext(s, Advances(k), k - 1, k);
    }
  }

  lemma RecoveryNext<B(!new)>(s: State<B>, acts: seq<Action<B>>, j: nat, k: nat)
    requires Runnable(s, acts) && k == j + 1 <= |s.disk.head| && Recovering(s, Exec(s, acts), j).holds
    ensures Runnable(s, acts + [Advance]) && Recovering(s, Exec(s, acts + [Advance]), k).holds
  {
    RecoveryGoesOn(s, Exec(s, acts), j);
    AdvanceOnce(s, acts);
  }

  lemma FinishRecovery<B>(s: State<B>)
    requires DiskInv(s) && s.phase == Installing(|s.lh|, true)
    ensures CanAdvance(s) && CanAdvance(Progress(s))
    ensures var t := Progress(Progress(s)); t.phase.Idle? && t.disk.home == s.hist.Target()
  {
    InstallKeepsDisk(s);
  }

  /** Recovery needs no luck: left alone for |head| + 3 steps it completes. */
  lemma RecoveryCompletes<B(!new)>(s: State<B>)
    requires DiskInv(s) && s.phase.ReadingHead?
    ensures var acts := Advances(|s.disk.head| + 3);
      && Runnable(s, acts)
      && Exec(s, acts).phase.Idle?
      && Exec(s, acts).disk.home == s.hist.Target()
  {
    var n := |s.disk.head|;
    RecoveryStep(s, n);
    LastTwo(s, Advances(n + 1), n);
    assert Advances<B>(n + 2) == Advances(n + 1) + [Advance] && Advances<B>(n + 3) == Advances(n + 2) + [Advance];
  }

  lemma LastTwo<B(!new)>(s: State<B>, acts: seq<Action<B>>, n: nat)
    requires n == |s.disk.head| && Runnable(s, acts) && Recovering(s, Exec(s, acts), n).holds
    ensures var all := acts + [Advance] + [Advance];
      Runnable(s, all) && Exec(s, all).phase.Idle? && Exec(s, all).disk.home == s.hist.Target()
  {
    FinishRecovery(Exec(s, acts));
    AdvanceOnce(s, acts);
    AdvanceOnce(s, acts + [Advance]);
  }

  // ----- recovery goes back to the last commit -----

  /** No operation is in progress. */
  ghost predicate Resting<B>(s: State<B>) {
    s.hist.used == map[]
  }

  /** The blocks as the processes see them. */
  ghost function Now<B>(s: State<B>): (h: Home<B>) {
    Apply(s.hist.Target(), s.hist.pending)
  }

  /** What recovery would restore changes in one step only, the header write of a commit, and becomes what
      the processes see. */
  lemma {:induction false} TargetStep<B>(s: State<B>, a: Action<B>)
    requires CountInv(s) && Enabled(s, a)
    ensures var t := After(s, a).hist.Target();
      if a.Advance? && s.phase.WritingHead? then Resting(s) && t == Now(s) else t == s.hist.Target()
  {
    var h := After(s, a).hist;
    if a.Advance? && s.phase.WritingHead? {
      Grouped(s.hist, h);
    } else {
      assert h.initial == s.hist.initial && h.committed == s.hist.committed;
    }
  }

  lemma Grouped<B>(h: History<B>, g: History<B>)
    requires g.initial == h.initial && g.committed == h.committed + [h.pending]
    ensures g.Target() == Apply(h.Target(), h.pending)
  {
    FlattenSnoc(h.committed, h.pending);
    ApplyConcat(h.initial, Flatten(h.committed), h.pending);
  }

  /** What recovery restores, from wherever the run has got to, is the image the run started from or what the
      processes saw, with no operation in progress, when a commit was about to write the header. */
  lemma {:induction false} LastRest<B(!new)>(d: Disk<B>, acts: seq<Action<B>>) returns (k: nat)
    requires d.head == [] && Runnable(Boot(d), acts)
    ensures k <= |acts| && Runnable(Boot(d), acts[..k]) && (k == 0 || Exec(Boot(d), acts[..k]).phase.WritingHead?)
    ensures Resting(Exec(Boot(d), acts[..k])) && Exec(Boot(d), acts).hist.Target() == Now(Exec(Boot(d), acts[..k]))
    decreases |acts|
  {
    if acts == [] {
      k := 0;
    } else {
      var init, a := acts[..|acts| - 1], acts[|acts| - 1];
      RunKeepsInv(d, init);
      TargetStep(Exec(Boot(d), init), a);
      if a.Advance? && Exec(Boot(d), init).phase.WritingHead? {
        k := |init|;
        assert acts[..k] == init;
      } else {
        k := LastRest(d, init);
        assert init[..k] == acts[..k];
      }
    }
  }
}
