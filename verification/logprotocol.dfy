/** The redo log of log.c as a state machine: every critical section under log.lock and every
    single-block disk write is one step, and a crash may replace any step. Block contents are
    the type parameter B. */
module LogProtocol {
  import opened Basics

  const LOGSIZE := 30

  type OpId = nat
  type Home<B> = map<nat, B>

  /** The disk as the log sees it: the header block, the log's data blocks and all other blocks. */
  datatype Disk<B> = Disk(head: seq<nat>, slots: seq<B>, home: Home<B>)

  datatype Write<B> = Write(op: OpId, blockno: nat, data: B)

  // ----- replaying writes -----

  function Apply<B>(d: Home<B>, ws: seq<Write<B>>): (r: Home<B>)
  {
    if ws == [] then d else Apply(d, ws[..|ws| - 1])[ws[|ws| - 1].blockno := ws[|ws| - 1].data]
  }

  /** All the writes of the first commit, then of the second, and so on. */
  function Flatten<B>(groups: seq<seq<Write<B>>>): (ws: seq<Write<B>>)
  {
    if groups == [] then [] else Flatten(groups[..|groups| - 1]) + groups[|groups| - 1]
  }

  /** The writes of one operation, in order. */
  function WritesOf<B>(op: OpId, ws: seq<Write<B>>): (r: seq<Write<B>>)
  {
    if ws == [] then []
    else
      var r := WritesOf(op, ws[..|ws| - 1]);
      if ws[|ws| - 1].op == op then r + [ws[|ws| - 1]] else r
  }

  // ----- the machine -----

  datatype Phase =
    | Idle                                     // no commit in progress
    | WritingLog(tail: nat)                    // write_log
    | WritingHead                              // write_head: the commit point
    | Installing(tail: nat, recovering: bool)  // install_trans
    | ClearingHead(recovering: bool)           // write_head with n == 0
    | Finishing                                // end_op about to clear log.committing
    | ReadingHead                              // booted, about to run recover_from_log
    | Halted                                   // panic

  /** What has happened so far; nothing here is read by the kernel. */
  datatype History<B> = History(
    initial: Home<B>,
    committed: seq<seq<Write<B>>>,  // one entry per write_head with n > 0
    pending: seq<Write<B>>,         // log_writes since the last commit or crash
    issued: seq<Write<B>>,          // every log_write ever
    used: map<OpId, nat>,           // operations between begin_op and end_op, with blocks appended so far
    current: set<OpId>,             // operations begun since the last commit or crash
    done: set<OpId>,                // operations whose group has committed
    lost: set<OpId>)                // operations cut off by a crash
  {
    function Target(): (t: Home<B>) {
      Apply(initial, Flatten(committed))
    }
  }

  datatype State<B> = State(
    disk: Disk<B>,
    cache: map<nat, B>,  // buffers pinned by B_DIRTY
    lh: seq<nat>,        // log.lh.block[0..log.lh.n]
    outstanding: nat,
    committing: bool,
    phase: Phase,
    hist: History<B>)
  {
    predicate Booting() {
      phase.ReadingHead? || (phase.Installing? && phase.recovering) || (phase.ClearingHead? && phase.recovering)
    }
    /** What bread returns: the pinned buffer if there is one, the disk otherwise. */
    function Visible(b: nat): (v: B)
      requires b in disk.home
    {
      if b in cache then cache[b] else disk.home[b]
    }
    /** log.size is one header block plus the slots, so this is log.lh.n >= log.size - 1. */
    predicate TooBig() {
      |lh| >= LOGSIZE || |lh| >= |disk.slots|
    }
  }

  datatype Action<B> =
    | Begin(op: OpId)
    | Log(op: OpId, blockno: nat, data: B)
    | End(op: OpId)
    | Advance  // the next disk write or transition of commit() or recover_from_log()
    | Crash

  ghost predicate Enabled<B>(s: State<B>, a: Action<B>) {
    !s.phase.Halted? &&
    match a
    case Begin(op) => !s.Booting() && op !in s.hist.current + s.hist.done + s.hist.lost
    case Log(op, b, _) => !s.Booting() && op in s.hist.used && b in s.disk.home
    case End(op) => !s.Booting() && op in s.hist.used && s.outstanding > 0
    case Advance => CanAdvance(s)
    case Crash => true
  }

  ghost predicate CanAdvance<B>(s: State<B>) {
    match s.phase
    case Idle => false
    case Halted => false
    case WritingLog(t) => t < |s.lh| ==> t < |s.disk.slots| && s.lh[t] in s.disk.home
    case Installing(t, _) => t < |s.lh| ==> t < |s.disk.slots| && s.lh[t] in s.disk.home
    case _ => true
  }

  function Absorb(lh: seq<nat>, b: nat): (r: seq<nat>) {
    if b in lh then lh else lh + [b]
  }

  ghost function After<B>(s: State<B>, a: Action<B>): (t: State<B>)
    requires Enabled(s, a)
  {
    match a
    case Begin(op) => DoBegin(s, op)
    case Log(op, b, v) => DoLog(s, op, b, v)
    case End(op) => DoEnd(s, op)
    case Advance => Progress(s)
    case Crash => DoCrash(s)
  }

  ghost function DoBegin<B>(s: State<B>, op: OpId): (t: State<B>) {
    if s.committing || |s.lh| + (s.outstanding + 1) * MAXOPBLOCKS > LOGSIZE then s  // sleep
    else s.(outstanding := s.outstanding + 1,
            hist := s.hist.(used := s.hist.used[op := 0], current := s.hist.current + {op}))
  }

  ghost function DoLog<B>(s: State<B>, op: OpId, b: nat, v: B): (t: State<B>)
    requires op in s.hist.used
  {
    if s.TooBig() || s.outstanding < 1 then s.(phase := Halted)
    else
      var w := Write(op, b, v);
      var appended := if b in s.lh then 0 else 1;
      s.(cache := s.cache[b := v], lh := Absorb(s.lh, b),
         hist := s.hist.(pending := s.hist.pending + [w], issued := s.hist.issued + [w],
                         used := s.hist.used[op := s.hist.used[op] + appended]))
  }

  ghost function DoEnd<B>(s: State<B>, op: OpId): (t: State<B>)
    requires s.outstanding > 0
  {
    var h := s.hist.(used := s.hist.used - {op});
    var e := s.(outstanding := s.outstanding - 1, hist := h);
    if s.committing then e.(phase := Halted)
    else if e.outstanding > 0 then e
    else if |s.lh| > 0 then e.(committing := true, phase := WritingLog(0))
    else e.(committing := true, phase := Finishing, hist := h.(current := {}, done := h.done + h.current))
  }

  ghost function DoCrash<B>(s: State<B>): (t: State<B>) {
    s.(cache := map[], lh := [], outstanding := 0, committing := false, phase := ReadingHead,
       hist := s.hist.(pending := [], used := map[], current := {}, lost := s.hist.lost + s.hist.current))
  }

  ghost function Progress<B>(s: State<B>): (t: State<B>)
    requires CanAdvance(s)
  {
    match s.phase
    case WritingLog(t) =>
      if t < |s.lh| then
        s.(disk := s.disk.(slots := s.disk.slots[t := s.Visible(s.lh[t])]), phase := WritingLog(t + 1))
      else s.(phase := WritingHead)
    case WritingHead =>
      s.(disk := s.disk.(head := s.lh), phase := Installing(0, false),
         hist := s.hist.(committed := s.hist.committed + [s.hist.pending], pending := [],
                         current := {}, done := s.hist.done + s.hist.current))
    case Installing(t, r) =>
      if t < |s.lh| then
        s.(disk := s.disk.(home := s.disk.home[s.lh[t] := s.disk.slots[t]]), cache := s.cache - {s.lh[t]},
           phase := Installing(t + 1, r))
      else s.(lh := [], phase := ClearingHead(r))
    case ClearingHead(r) => s.(disk := s.disk.(head := []), phase := if r then Idle else Finishing)
    case Finishing => s.(committing := false, phase := Idle)
    case ReadingHead => s.(lh := s.disk.head, phase := Installing(0, true))
  }

  /** Booting from a freshly made image: the log header is empty. */
  ghost function Boot<B>(d: Disk<B>): (s: State<B>) {
    State(d, map[], [], 0, false, ReadingHead, History(d.home, [], [], [], map[], {}, {}, {}))
  }

  ghost predicate Runnable<B(!new)>(s: State<B>, acts: seq<Action<B>>)
    decreases |acts|, 0
  {
    acts == [] || (Runnable(s, acts[..|acts| - 1]) && Enabled(Exec(s, acts[..|acts| - 1]), acts[|acts| - 1]))
  }

  /** The state after a whole run. */
  ghost function Exec<B(!new)>(s: State<B>, acts: seq<Action<B>>): (t: State<B>)
    requires Runnable(s, acts)
    decreases |acts|, 1
  {
    if acts == [] then s else After(Exec(s, acts[..|acts| - 1]), acts[|acts| - 1])
  }
}
