/** sleeplock.c over sleep and wakeup of proc.c: one sleep lock, any number of processes, every spinlock
    acquisition and release a step of its own, interleaved with kill and with anyone using ptable.lock. */
module SleepLock {
  /** Where a process is in acquiresleep or releasesleep. */
  datatype Pc =
    | Outside        // neither holds the lock nor is after it
    | WantInner      // acquire(&lk->lk)
    | Test           // while(lk->locked), inner lock held
    | Got            // took the lock, inner lock still held
    | WantTable      // sleep: acquire(&ptable.lock), inner lock held
    | Both           // sleep: both held, release(lk) next
    | Committed      // sleep: ptable.lock held, state and chan to be set
    | Switching      // sleep: state is SLEEPING, ptable.lock held until the scheduler lets go of it
    | Parked(runnable: bool)
    | Back           // scheduled again, ptable.lock held
    | Holding
    | WantInner2     // releasesleep: acquire(&lk->lk)
    | Clear          // inner lock held, lk->locked still set
    | WantTable2     // lk->locked cleared; wakeup: acquire(&ptable.lock)
    | Wake           // wakeup1, both held
    | Woken          // release(&ptable.lock) next
    | Leave          // release(&lk->lk) next

  datatype Holder = Free | By(p: nat) | Other

  /** locked and pid are the lock's own fields; pid is a process index, 0 .. |pc| - 1, or -1. */
  datatype State = State(pc: seq<Pc>, inner: Holder, table: Holder, locked: bool, pid: int)

  /** One step of process p, a kill of p, or someone else taking or dropping ptable.lock. */
  datatype Action = Step(p: nat) | Call(p: nat) | Kill(p: nat) | Take | Drop

  ghost predicate Init(s: State) {
    (forall p :: 0 <= p < |s.pc| ==> s.pc[p] == Outside) && s.inner == Free && s.table == Free && !s.locked && s.pid == -1
  }

  ghost predicate Enabled(s: State, a: Action) {
    match a
    case Take => s.table == Free
    case Drop => s.table == Other
    case Kill(p) => p < |s.pc| && s.table == Free
    case Call(p) => p < |s.pc| && s.pc[p] in {Outside, Holding}
    case Step(p) => p < |s.pc| && CanStep(s, p)
  }

  ghost predicate CanStep(s: State, p: nat)
    requires p < |s.pc|
  {
    match s.pc[p]
    case Outside => false
    case Holding => false
    case WantInner => s.inner == Free
    case WantInner2 => s.inner == Free
    case WantTable => s.table == Free
    case WantTable2 => s.table == Free
    case Parked(r) => r && s.table == Free
    case _ => true
  }

  /** wakeup1: every sleeper on the channel becomes runnable. */
  ghost function WakeAll(pc: seq<Pc>): (r: seq<Pc>)
    ensures |r| == |pc| && forall q :: 0 <= q < |pc| ==> r[q] == if pc[q].Parked? then Parked(true) else pc[q]
  {
    if pc == [] then [] else WakeAll(pc[..|pc| - 1]) + [if pc[|pc| - 1].Parked? then Parked(true) else pc[|pc| - 1]]
  }

  ghost function At(s: State, p: nat, pc: Pc): (t: State)
    requires p < |s.pc|
  {
    State(s.pc[p := pc], s.inner, s.table, s.locked, s.pid)
  }

  ghost function StepOf(s: State, p: nat): (t: State)
    requires Enabled(s, Step(p))
  {
    match s.pc[p]
    case WantInner => State(s.pc[p := Test], By(p), s.table, s.locked, s.pid)
    case Test => if s.locked then At(s, p, WantTable) else State(s.pc[p := Got], s.inner, s.table, true, p)
    case Got => State(s.pc[p := Holding], Free, s.table, s.locked, s.pid)
    case WantTable => State(s.pc[p := Both], s.inner, By(p), s.locked, s.pid)
    case Both => State(s.pc[p := Committed], Free, s.table, s.locked, s.pid)
    case Committed => At(s, p, Switching)
    case Switching => State(s.pc[p := Parked(false)], s.inner, Free, s.locked, s.pid)
    case Parked(_) => State(s.pc[p := Back], s.inner, By(p), s.locked, s.pid)
    case Back => State(s.pc[p := WantInner], s.inner, Free, s.locked, s.pid)
    case WantInner2 => State(s.pc[p := Clear], By(p), s.table, s.locked, s.pid)
    case Clear => State(s.pc[p := WantTable2], s.inner, s.table, false, -1)
    case WantTable2 => State(s.pc[p := Wake], s.inner, By(p), s.locked, s.pid)
    case Wake => State(WakeAll(s.pc)[p := Woken], s.inner, s.table, s.locked, s.pid)
    case Woken => State(s.pc[p := Leave], s.inner, Free, s.locked, s.pid)
    case _ => State(s.pc[p := Outside], Free, s.table, s.locked, s.pid)
  }

  ghost function After(s: State, a: Action): (t: State)
    requires Enabled(s, a)
  {
    match a
    case Take => State(s.pc, s.inner, Other, s.locked, s.pid)
    case Drop => State(s.pc, s.inner, Free, s.locked, s.pid)
    case Kill(p) => if s.pc[p] == Parked(false) then At(s, p, Parked(true)) else s
    case Call(p) => At(s, p, if s.pc[p] == Outside then WantInner else WantInner2)
    case Step(p) => StepOf(s, p)
  }

  /** The states of a run: one action leads from each to the next. */
  ghost predicate Run(states: seq<State>, acts: seq<Action>) {
    && |states| == |acts| + 1 && Init(states[0])
    && forall i :: 0 <= i < |acts| ==> Enabled(states[i], acts[i]) && states[i + 1] == After(states[i], acts[i])
  }

  // ----- the invariant -----

  ghost predicate HasInner(pc: Pc) {
    pc.Test? || pc.Got? || pc.WantTable? || pc.Both? || pc.Clear? || pc.WantTable2? || pc.Wake? || pc.Woken? || pc.Leave?
  }

  ghost predicate HasTable(pc: Pc) {
    pc.Both? || pc.Committed? || pc.Switching? || pc.Back? || pc.Wake? || pc.Woken?
  }

  ghost predicate HasLock(pc: Pc) {
    pc.Got? || pc.Holding? || pc.WantInner2? || pc.Clear?
  }

  /** Asleep on the lock, or past the point of no return on the way there. */
  ghost predicate Sleeps(pc: Pc) {
    pc.WantTable? || pc.Both? || pc.Committed? || pc.Switching? || (pc.Parked? && !pc.runnable)
  }

  /** A releaser that will call wakeup1 before it lets go of the inner lock. */
  ghost predicate Waking(s: State) {
    s.inner.By? && s.inner.p < |s.pc| && (s.pc[s.inner.p].WantTable2? || s.pc[s.inner.p].Wake?)
  }

  ghost predicate InnerOk(s: State) {
    && s.inner != Other && (s.inner.By? ==> s.inner.p < |s.pc|)
    && forall p :: 0 <= p < |s.pc| ==> (HasInner(s.pc[p]) <==> s.inner == By(p))
  }

  ghost predicate TableOk(s: State) {
    && (s.table.By? ==> s.table.p < |s.pc|)
    && forall p :: 0 <= p < |s.pc| ==> (HasTable(s.pc[p]) <==> s.table == By(p))
  }

  ghost predicate LockOk(s: State) {
    && (s.locked ==> 0 <= s.pid < |s.pc|)
    && forall p :: 0 <= p < |s.pc| ==> (HasLock(s.pc[p]) <==> s.locked && s.pid == p)
  }

  /** Nobody sleeps, or is about to, unless the lock is held or a wakeup is on its way. */
  ghost predicate NoneLost(s: State) {
    forall p :: 0 <= p < |s.pc| && Sleeps(s.pc[p]) ==> s.locked || Waking(s)
  }

  ghost predicate Inv(s: State) {
    InnerOk(s) && TableOk(s) && LockOk(s) && NoneLost(s)
  }

  lemma StepInner(s: State, p: nat)
    requires InnerOk(s) && Enabled(s, Step(p))
    ensures InnerOk(StepOf(s, p))
  {
    assert HasInner(s.pc[p]) <==> s.inner == By(p);
  }

  lemma StepTable(s: State, p: nat)
    requires TableOk(s) && Enabled(s, Step(p))
    ensures TableOk(StepOf(s, p))
  {
    assert HasTable(s.pc[p]) <==> s.table == By(p);
  }

  lemma StepLock(s: State, p: nat)
    requires LockOk(s) && Enabled(s, Step(p))
    ensures LockOk(StepOf(s, p))
  {
    assert HasLock(s.pc[p]) <==> s.locked && s.pid == p;
  }

  lemma StepLosesNone(s: State, p: nat)
    requires InnerOk(s) && TableOk(s) && NoneLost(s) && Enabled(s, Step(p))
    ensures NoneLost(StepOf(s, p))
  {
    var t := StepOf(s, p);
    assert HasInner(s.pc[p]) <==> s.inner == By(p);
    assert HasTable(s.pc[p]) <==> s.table == By(p);
    forall q | 0 <= q < |t.pc| && Sleeps(t.pc[q]) ensures t.locked || Waking(t) {
      assert Sleeps(s.pc[q]) ==> s.locked || Waking(s);
      assert HasTable(s.pc[q]) <==> s.table == By(q);
      assert HasInner(s.pc[q]) <==> s.inner == By(q);
    }
  }

  lemma StepKeepsInv(s: State, p: nat)
    requires Inv(s) && Enabled(s, Step(p))
    ensures Inv(StepOf(s, p))
  {
    StepInner(s, p);
    StepTable(s, p);
    StepLock(s, p);
    StepLosesNone(s, p);
  }

  lemma ActionKeepsInv(s: State, a: Action)
    requires Inv(s) && Enabled(s, a)
    ensures Inv(After(s, a))
  {
    if a.Step? {
      StepKeepsInv(s, a.p);
    }
  }

  lemma {:induction false} RunKeepsInv(states: seq<State>, acts: seq<Action>, i: nat)
    requires Run(states, acts) && i < |states|
    ensures Inv(states[i])
  {
    if i > 0 {
      RunKeepsInv(states, acts, i - 1);
      ActionKeepsInv(states[i - 1], acts[i - 1]);
    }
  }

  // ----- what it means -----

  /** At most one process holds the sleep lock, and it is the one the lock names. */
  lemma MutualExclusion(states: seq<State>, acts: seq<Action>, i: nat, p: nat, q: nat)
    requires Run(states, acts) && i < |states| && p < |states[i].pc| && q < |states[i].pc|
    requires HasLock(states[i].pc[p]) && HasLock(states[i].pc[q])
    ensures p == q && states[i].locked && states[i].pid == p
  {
    RunKeepsInv(states, acts, i);
  }

  /** Whenever the inner spinlock is free, a process asleep on the lock or committed to sleep means
      that the lock is held. */
  lemma NoLostWakeup(states: seq<State>, acts: seq<Action>, i: nat, p: nat)
    requires Run(states, acts) && i < |states| && p < |states[i].pc| && Sleeps(states[i].pc[p]) && states[i].inner == Free
    ensures states[i].locked && 0 <= states[i].pid < |states[i].pc| && HasLock(states[i].pc[states[i].pid])
  {
    RunKeepsInv(states, acts, i);
  }

  /** If no process can take a step and nobody else has ptable.lock, then whoever is in the middle of
      acquiresleep is asleep, and some process is using the lock and can release it. */
  lemma NeverStuck(states: seq<State>, acts: seq<Action>, i: nat, p: nat)
    requires Run(states, acts) && i < |states| && states[i].table != Other && p < |states[i].pc|
    requires forall q: nat :: q < |states[i].pc| ==> !CanStep(states[i], q)
    ensures states[i].pc[p] in {Outside, Holding, Parked(false)}
    ensures states[i].pc[p] == Parked(false) ==>
      states[i].locked && 0 <= states[i].pid < |states[i].pc| && states[i].pc[states[i].pid] == Holding
  {
    RunKeepsInv(states, acts, i);
    var s := states[i];
    TableFree(s);
    InnerFree(s);
    assert !CanStep(s, p);
    assert HasInner(s.pc[p]) <==> s.inner == By(p);
    assert HasTable(s.pc[p]) <==> s.table == By(p);
    if s.pc[p] == Parked(false) {
      var h := s.pid;
      assert Sleeps(s.pc[p]);
      assert HasLock(s.pc[h]) && !CanStep(s, h);
      assert HasInner(s.pc[h]) <==> s.inner == By(h);
    }
  }

  lemma TableFree(s: State)
    requires Inv(s) && s.table != Other && forall q: nat :: q < |s.pc| ==> !CanStep(s, q)
    ensures s.table == Free
  {
    assert s.table.By? ==> HasTable(s.pc[s.table.p]) && CanStep(s, s.table.p);
  }

  lemma InnerFree(s: State)
    requires Inv(s) && s.table == Free && forall q: nat :: q < |s.pc| ==> !CanStep(s, q)
    ensures s.inner == Free
  {
    assert s.inner.By? ==> HasInner(s.pc[s.inner.p]) && CanStep(s, s.inner.p);
  }
}
