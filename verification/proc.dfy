/** proc.c: what each section under ptable.lock does, step by step. A method is one such section; a
    process that sleeps or yields in it has left its CPU to the scheduler when the method ends. */
module Processes {
  import opened Basics
  import opened ProcessTable

  /** How a turn of wait ends. */
  datatype WaitResult = Got(pid: nat) | Nothing | Sleeps

  /** No free slot has its killed flag set: allocproc does not clear it, so the next process in the slot
      would start out killed. */
  ghost predicate Clean(a: seq<Proc>) {
    forall q :: 0 <= q < |a| && a[q].state.UNUSED? ==> !a[q].killed
  }

  ghost predicate FirstWith(a: seq<Proc>, p: nat, pid: int) {
    p < |a| && a[p].pid == pid && forall q :: 0 <= q < p ==> a[q].pid != pid
  }

  /** A kill of pid goes to a free slot. */
  ghost predicate HitsFree(a: seq<Proc>, pid: int) {
    exists p: nat :: FirstWith(a, p, pid) && a[p].state.UNUSED?
  }

  lemma ZombieStep(a: seq<Proc>, p: nat, k: nat)
    requires k < |a|
    ensures HasZombie(a, p, k + 1) <==> HasZombie(a, p, k) || (Child(a, k, p) && a[k].state.ZOMBIE?)
  {
    if HasZombie(a, p, k + 1) && !HasZombie(a, p, k) {
      var q: nat :| q < k + 1 && Child(a, q, p) && a[q].state.ZOMBIE?;
      assert q == k;
    }
  }

  lemma HeirsSkip(a: seq<Proc>, b: seq<Proc>, p: nat, init: nat, k: nat)
    requires Heirs(a, b, p, init, k) && k < |a| && b[k].parent != Some(p)
    ensures Heirs(a, b, p, init, k + 1)
  {
    ZombieStep(a, p, k);
    assert a[k].parent == b[k].parent;
  }

  lemma HeirsMoved(a: seq<Proc>, b: seq<Proc>, d: seq<Proc>, p: nat, init: nat, k: nat)
    requires Heirs(a, b, p, init, k) && k < |a| && b[k].parent == Some(p) && d == b[k := b[k].Under(Some(init))] && !d[k].state.ZOMBIE?
    ensures Heirs(a, d, p, init, k + 1)
  {
    ZombieStep(a, p, k);
    assert b[k].Under(None).state == b[k].state;
    assert d[k].Under(None) == b[k].Under(None);
  }

  lemma HeirsWoken(a: seq<Proc>, b: seq<Proc>, d: seq<Proc>, e: seq<Proc>, p: nat, init: nat, k: nat)
    requires Heirs(a, b, p, init, k) && k < |a| && b[k].parent == Some(p) && d == b[k := b[k].Under(Some(init))] && d[k].state.ZOMBIE?
    requires Woke(d, e, OfProc(init), |e|)
    ensures Heirs(a, e, p, init, k + 1)
  {
    ZombieStep(a, p, k);
    assert b[k].Under(None).state == b[k].state;
    assert a[k].state.ZOMBIE? && Child(a, k, p);
    forall q | 0 <= q < |a| ensures e[q].Under(None) == (if a[q].Asleep(OfProc(init)) then a[q].As(RUNNABLE) else a[q]).Under(None) {
      assert d[q].Under(None) == b[q].Under(None);
      assert d[q].Under(None).state == d[q].state && d[q].Under(None).chan == d[q].chan;
      assert e[q].Under(None) == (if d[q].Asleep(OfProc(init)) then d[q].As(RUNNABLE) else d[q]).Under(None);
      assert a[q].Under(None).state == a[q].state && a[q].Under(None).chan == a[q].chan;
    }
  }

  lemma ExitReady(t: Table, t1: Table, p: nat, c: nat, parent: nat)
    requires Inv(t1).holds && c < |t.cpus| && t.cpus[c] == Some(p) && p < |t.procs| && t.procs[p].state.RUNNING? && p != t.init && t.procs[p].making.None?
    requires t.procs[p].parent == Some(parent) && Woke(t.procs, t1.procs, OfProc(parent), |t1.procs|)
    requires t1 == Table(t1.procs, t.cpus, t.nextpid, t.init, t.reaped)
    ensures Exits(t1, p, c) && t1.init < |t1.procs|
    ensures forall q :: 0 <= q < |t1.procs| && t1.procs[q].state.SLEEPING? && t1.procs[q].chan.OfProc? ==> t1.procs[q].chan.p == q
  {
    InvMeans(t1);
  }

  class Kernel {
    var procs: seq<Proc>
    var cpus: seq<Option<nat>>
    var nextpid: nat
    const initproc: nat
    ghost var reaped: set<nat>

    ghost function T(): (t: Table)
      reads this
    {
      Table(procs, cpus, nextpid, initproc, reaped)
    }

    ghost predicate Valid()
      reads this
    {
      Inv(T()).holds
    }

    /** userinit on an empty table of n slots. */
    constructor (n: nat, ncpu: nat)
      requires 0 < n
      ensures Valid() && |procs| == n && |cpus| == ncpu && reaped == {} && nextpid == 2
      ensures initproc == 0 && procs[0] == Proc(RUNNABLE, 1, None, NoChan, false, 0, false, None)
      ensures forall q :: 1 <= q < n ==> procs[q].state.UNUSED? && procs[q].pid == 0
      ensures forall c :: 0 <= c < ncpu ==> cpus[c] == None
      ensures Clean(procs)
    {
      var init := Proc(RUNNABLE, 1, None, NoChan, false, 0, false, None);
      var unused := Proc(UNUSED, 0, None, NoChan, false, 0, false, None);
      procs := [init] + seq(n - 1, _ => unused);
      cpus := seq(ncpu, _ => None);
      nextpid := 2;
      initproc := 0;
      reaped := {};
      new;
      FirstInv(T());
    }

    // ----- scheduler, sched, yield, sleep, wakeup -----

    /** One round of the scheduler on an idle CPU: the RUNNABLE process with the smallest nice value,
        lowest slot first, or none. */
    method Schedule(c: nat) returns (best: Option<nat>)
      requires Valid() && c < |cpus| && cpus[c] == None
      modifies `procs, `cpus
      ensures Valid()
      ensures best.None? ==> T() == old(T()) && forall q :: 0 <= q < |procs| ==> !procs[q].state.RUNNABLE?
      ensures best.Some? ==> LeastNice(old(procs), best.value, |old(procs)|) && cpus == old(cpus)[c := best]
                             && procs == old(procs)[best.value := old(procs)[best.value].(state := RUNNING, chan := NoChan)]
      ensures Clean(old(procs)) ==> Clean(procs)
    {
      best := None;
      var p := 0;
      while p < |procs|
        invariant p <= |procs|
        invariant best.None? ==> forall q :: 0 <= q < p ==> !procs[q].state.RUNNABLE?
        invariant best.Some? ==> LeastNice(procs, best.value, p)
      {
        if procs[p].state.RUNNABLE? && (best.None? || procs[p].nice < procs[best.value].nice) {
          best := Some(p);
        }
        p := p + 1;
      }
      if best.Some? {
        DispatchKeeps(T(), best.value, c);
        cpus := cpus[c := best];
        procs := procs[best.value := Resumed(procs[best.value])];
      }
    }

    /** yield by the process on CPU c. */
    method Yield(c: nat)
      requires Valid() && c < |cpus| && cpus[c].Some?
      modifies `procs, `cpus
      ensures Valid() && old(cpus[c].value) < |old(procs)| && cpus == old(cpus)[c := None]
      ensures procs == old(procs)[old(cpus[c].value) := old(procs)[old(cpus[c].value)].(state := RUNNABLE)]
      ensures Clean(old(procs)) ==> Clean(procs)
    {
      CurrentRuns(T(), c);
      var p := cpus[c].value;
      YieldKeeps(T(), p, c);
      procs := procs[p := procs[p].As(RUNNABLE)];
      cpus := cpus[c := None];
    }

    /** sleep on a channel that is not a process, by the process on CPU c. */
    method Sleep(c: nat, x: nat)
      requires Valid() && c < |cpus| && cpus[c].Some? && cpus[c].value < |procs| && procs[cpus[c].value].making.None?
      modifies `procs, `cpus
      ensures Valid() && cpus == old(cpus)[c := None]
      ensures procs == old(procs)[old(cpus[c].value) := old(procs)[old(cpus[c].value)].(state := SLEEPING, chan := OfOther(x))]
      ensures Clean(old(procs)) ==> Clean(procs)
    {
      CurrentRuns(T(), c);
      var p := cpus[c].value;
      SleepKeeps(T(), p, c, OfOther(x));
      procs := procs[p := Sleeping(procs[p], OfOther(x))];
      cpus := cpus[c := None];
    }

    method Wakeup1(chan: Chan)
      modifies `procs
      ensures Woke(old(procs), procs, chan, |procs|)
    {
      var p := 0;
      while p < |procs|
        invariant p <= |procs| == |old(procs)| && Woke(old(procs), procs, chan, p)
      {
        if procs[p].state.SLEEPING? && procs[p].chan == chan {
          procs := procs[p := procs[p].As(RUNNABLE)];
        }
        p := p + 1;
      }
    }

    method Wakeup(chan: Chan)
      requires Valid()
      modifies `procs
      ensures Valid() && Woke(old(procs), procs, chan, |procs|)
      ensures Clean(old(procs)) ==> Clean(procs)
    {
      ghost var t := T();
      Wakeup1(chan);
      WokeKeeps(t, procs, chan);
    }

    // ----- kill and nice -----

    /** The first slot with the given pid, whatever its state, or the table's size. */
    method FindPid(pid: int) returns (p: nat)
      ensures p <= |procs| && (p < |procs| ==> procs[p].pid == pid) && forall q :: 0 <= q < p ==> procs[q].pid != pid
    {
      p := 0;
      while p < |procs|
        invariant p <= |procs| && forall q :: 0 <= q < p ==> procs[q].pid != pid
      {
        if procs[p].pid == pid {
          return;
        }
        p := p + 1;
      }
    }

    method Kill(pid: int) returns (r: int)
      requires Valid()
      modifies `procs
      ensures Valid() && (r == 0 || r == -1) && |procs| == |old(procs)|
      ensures r == -1 ==> procs == old(procs) && forall q :: 0 <= q < |procs| ==> procs[q].pid != pid
      ensures r == 0 ==> exists p :: 0 <= p < |procs| && FirstWith(old(procs), p, pid)
                                  && procs[p] == old(procs)[p].(killed := true, state := if old(procs)[p].state.SLEEPING? then RUNNABLE else old(procs)[p].state)
                                  && procs == old(procs)[p := procs[p]]
      ensures Clean(old(procs)) ==> (Clean(procs) <==> !HitsFree(old(procs), pid))
    {
      var p := FindPid(pid);
      if p == |procs| {
        return -1;
      }
      var x := procs[p];
      var y := Proc(if x.state.SLEEPING? then RUNNABLE else x.state, x.pid, x.parent, x.chan, true, x.nice, x.privileged, x.making);
      NudgeKeeps(T(), p, y);
      procs := procs[p := y];
      assert FirstWith(old(procs), p, pid);
      assert procs[p].state.UNUSED? <==> x.state.UNUSED?;
      assert forall q :: 0 <= q < |procs| && q != p ==> procs[q] == old(procs)[q];
      r := 0;
    }

    /** The nice value is the priority without its sign; a negative one makes the process privileged. */
    method Nice(pid: int, priority: int) returns (r: int)
      requires Valid()
      modifies `procs
      ensures Valid() && (r == 0 || r == -1) && |procs| == |old(procs)|
      ensures r == -1 ==> procs == old(procs) && (!(-20 <= priority <= 19) || forall q :: 0 <= q < |procs| ==> procs[q].pid != pid)
      ensures r == 0 ==> -20 <= priority <= 19
      ensures r == 0 ==> exists p :: 0 <= p < |procs| && FirstWith(old(procs), p, pid) && procs == old(procs)[p := procs[p]]
                                  && procs[p] == old(procs)[p].(nice := if priority < 0 then -priority else priority, privileged := priority < 0)
      ensures Clean(old(procs)) ==> Clean(procs)
    {
      if priority < -20 || priority > 19 {
        return -1;
      }
      var p := FindPid(pid);
      if p == |procs| {
        return -1;
      }
      var x := procs[p];
      var y := Proc(x.state, x.pid, x.parent, x.chan, x.killed, if priority < 0 then -priority else priority, priority < 0, x.making);
      NudgeKeeps(T(), p, y);
      procs := procs[p := y];
      assert FirstWith(old(procs), p, pid);
      r := 0;
    }

    // ----- fork, in the steps that take or drop the lock -----

    ghost predicate On(c: nat, p: nat)
      reads this
    {
      c < |cpus| && cpus[c] == Some(p) && p < |procs|
    }

    /** allocproc for the process p on CPU c: the first free slot, with a pid nobody has had. Its killed
        flag is whatever was left in the slot. */
    method Allocproc(c: nat, p: nat) returns (q: Option<nat>)
      requires Valid() && On(c, p) && procs[p].making.None?
      modifies `procs, `nextpid
      ensures Valid() && |procs| == |old(procs)|
      ensures q.None? ==> T() == old(T()) && forall r :: 0 <= r < |procs| ==> !procs[r].state.UNUSED?
      ensures q.Some? ==> q.value < |procs| && old(procs)[q.value].state.UNUSED? && nextpid == old(nextpid) + 1
                          && procs == old(procs)[q.value := old(procs)[q.value].(state := EMBRYO, pid := old(nextpid), nice := 0, privileged := false)]
                                                [p := old(procs)[p].(making := q)]
      ensures q.Some? ==> forall r :: 0 <= r < q.value ==> !old(procs)[r].state.UNUSED?
      ensures Clean(old(procs)) ==> Clean(procs)
    {
      CurrentRuns(T(), c);
      var i := 0;
      while i < |procs|
        invariant i <= |procs| && forall r :: 0 <= r < i ==> !procs[r].state.UNUSED?
      {
        if procs[i].state.UNUSED? {
          BornKeeps(T(), p, i);
          procs := procs[i := Embryo(procs[i], nextpid)];
          nextpid := nextpid + 1;
          procs := procs[p := Made(procs[p], Some(i))];
          return Some(i);
        }
        i := i + 1;
      }
      return None;
    }

    /** No stack, or no memory for the copy: fork returns -1. */
    method ForkFails(p: nat, q: nat)
      requires Valid() && Maker(procs, p, q) && q < |procs| && procs[q].parent.None?
      modifies `procs
      ensures Valid() && procs == old(procs)[q := old(procs)[q].(state := UNUSED)][p := old(procs)[p].(making := None)]
      ensures Clean(old(procs)) ==> (Clean(procs) <==> !old(procs)[q].killed)
    {
      AbortKeeps(T(), p, q);
      MakerFacts(T(), p, q);
      procs := procs[q := procs[q].As(UNUSED)];
      procs := procs[p := Made(procs[p], None)];
      assert procs[q].state.UNUSED? && procs[q].killed == old(procs)[q].killed;
      assert forall r :: 0 <= r < |procs| && r != q ==> procs[r].state == old(procs)[r].state && procs[r].killed == old(procs)[r].killed;
    }

    /** The child gets its parent and its parent's nice value. */
    method ForkCopies(p: nat, q: nat)
      requires Valid() && Maker(procs, p, q) && q < |procs|
      modifies `procs
      ensures Valid() && procs == old(procs)[q := old(procs)[q].(parent := Some(p), nice := old(procs)[p].nice, privileged := old(procs)[p].privileged)]
      ensures Clean(old(procs)) ==> Clean(procs)
    {
      AdoptKeeps(T(), p, q);
      var x := procs[q];
      procs := procs[q := Proc(x.state, x.pid, Some(p), x.chan, x.killed, procs[p].nice, procs[p].privileged, x.making)];
    }

    /** The child becomes RUNNABLE and fork returns its pid, which is larger than its parent's. */
    method ForkReturns(p: nat, q: nat) returns (pid: nat)
      requires Valid() && Maker(procs, p, q) && q < |procs| && procs[q].parent.Some?
      modifies `procs
      ensures Valid() && procs == old(procs)[q := old(procs)[q].(state := RUNNABLE)][p := old(procs)[p].(making := None)]
      ensures pid == old(procs)[q].pid
      ensures Clean(old(procs)) ==> Clean(procs)
    {
      HatchKeeps(T(), p, q);
      MakerFacts(T(), p, q);
      pid := procs[q].pid;
      procs := procs[q := procs[q].As(RUNNABLE)];
      procs := procs[p := Made(procs[p], None)];
    }

    // ----- exit and wait -----

    /** exit's loop: init inherits p's children and is woken for the zombies among them. */
    method Bequeath(p: nat)
      requires p < |procs| && initproc < |procs| && p != initproc
      requires forall q :: 0 <= q < |procs| && procs[q].state.SLEEPING? && procs[q].chan.OfProc? ==> procs[q].chan.p == q
      modifies `procs
      ensures Heirs(old(procs), procs, p, initproc, |procs|)
    {
      ghost var a := procs;
      var i := 0;
      while i < |procs|
        invariant i <= |procs| == |a| && Heirs(a, procs, p, initproc, i)
      {
        ghost var b := procs;
        if procs[i].parent == Some(p) {
          procs := procs[i := procs[i].Under(Some(initproc))];
          if procs[i].state.ZOMBIE? {
            ghost var d := procs;
            Wakeup1(OfProc(initproc));
            HeirsWoken(a, b, d, procs, p, initproc, i);
          } else {
            HeirsMoved(a, b, procs, p, initproc, i);
          }
        } else {
          HeirsSkip(a, b, p, initproc, i);
        }
        i := i + 1;
      }
    }

    /** exit of process p on CPU c; fails where it panics. */
    method Exit(c: nat, p: nat) returns (ok: bool)
      requires Valid() && On(c, p) && procs[p].making.None?
      modifies `procs, `cpus
      ensures Valid() && ok == (p != initproc) && |procs| == |old(procs)|
      ensures !ok ==> T() == old(T())
      ensures ok ==> cpus == old(cpus)[c := None] && forall q :: 0 <= q < |procs| ==> procs[q] == Left(old(procs), p, initproc, q)
      ensures Clean(old(procs)) ==> Clean(procs)
    {
      CurrentRuns(T(), c);
      ok := p != initproc;
      if ok {
        ParentLives(T(), p);
        ParentOlder(T(), p);
        ghost var t := T();
        var parent := procs[p].parent.value;
        Wakeup1(OfProc(parent));
        WokeKeeps(t, procs, OfProc(parent));
        ghost var t1 := T();
        ExitReady(t, t1, p, c, parent);
        Bequeath(p);
        DeadKeeps(t1, procs, p, c);
        HeirLinks(t1, procs, p);
        forall q | 0 <= q < |procs| && q != p ensures procs[q] == Left(t.procs, p, initproc, q) {
          LeftBy(t.procs, t1.procs, procs, p, initproc, q);
        }
        procs := procs[p := procs[p].As(ZOMBIE)];
        cpus := cpus[c := None];
      }
    }

    /** One turn of wait, from getting the lock until it returns or sleeps. */
    method Wait(c: nat, p: nat) returns (r: WaitResult)
      requires Valid() && On(c, p) && procs[p].making.None?
      modifies `procs, `cpus, `reaped
      ensures Valid() && |procs| == |old(procs)|
      ensures r.Got? <==> HasZombie(old(procs), p, |old(procs)|)
      ensures r.Nothing? <==> !HasZombie(old(procs), p, |old(procs)|) && (old(procs)[p].killed || forall q: nat :: !Child(old(procs), q, p))
      ensures r.Sleeps? <==> !HasZombie(old(procs), p, |old(procs)|) && !old(procs)[p].killed && exists q: nat :: Child(old(procs), q, p)
      ensures r.Got? ==> exists q: nat :: Child(old(procs), q, p) && old(procs)[q].state.ZOMBIE? && !HasZombie(old(procs), p, q) && r.pid == old(procs)[q].pid
                                          && procs == old(procs)[q := old(procs)[q].(state := UNUSED, pid := 0, parent := None, killed := false)]
      ensures r.Got? ==> r.pid !in old(reaped) && cpus == old(cpus) && reaped == old(reaped) + {r.pid}
      ensures r.Nothing? ==> T() == old(T())
      ensures r.Sleeps? ==> cpus == old(cpus)[c := None] && reaped == old(reaped)
                            && procs == old(procs)[p := old(procs)[p].(state := SLEEPING, chan := OfProc(p))]
      ensures Clean(old(procs)) ==> Clean(procs)
    {
      CurrentRuns(T(), c);
      var havekids := false;
      var q := 0;
      while q < |procs|
        invariant q <= |procs| && !HasZombie(procs, p, q)
        invariant if havekids then exists x: nat :: Child(procs, x, p) else forall x: nat :: x < q ==> !Child(procs, x, p)
      {
        if procs[q].parent == Some(p) {
          assert Child(procs, q, p);
          havekids := true;
          if procs[q].state.ZOMBIE? {
            ReapKeeps(T(), q);
            r := Got(procs[q].pid);
            reaped := reaped + {procs[q].pid};
            procs := procs[q := Blank(procs[q])];
            return;
          }
        }
        q := q + 1;
      }
      if !havekids || procs[p].killed {
        return Nothing;
      }
      WaitKeeps(T(), p, c);
      procs := procs[p := Sleeping(procs[p], OfProc(p))];
      cpus := cpus[c := None];
      r := Sleeps;
    }

    // ----- getprocinfo -----

    /** Walks up the parents; true exactly for the caller itself and its descendants. */
    method CanAccess(caller: nat, target: nat) returns (r: bool)
      requires Valid() && target < |procs|
      ensures r <==> Ancestor(procs, target, caller)
    {
      var x: Option<nat> := Some(target);
      while x.Some?
        invariant x.Some? ==> x.value < |procs|
        invariant Ancestor(procs, target, caller) <==> x.Some? && Ancestor(procs, x.value, caller)
        decreases if x.Some? then procs[x.value].pid + 1 else 0
      {
        AncestorUp(procs, x.value, caller);
        if x.value == caller {
          return true;
        }
        if procs[x.value].parent.Some? {
          ParentOlder(T(), x.value);
        }
        x := procs[x.value].parent;
      }
      return false;
    }
  }

  /** allocproc does not clear killed, and kill finds free slots by their pid 0: a child can be born killed.
      Allocproc's contract says when, and Clean, which Kill and ForkFails alone can break, rules it out. */
  method BornKilled() returns (k: Kernel, child: nat)
    ensures fresh(k) && k.Valid() && child < |k.procs| && k.procs[child].state.RUNNABLE? && k.procs[child].killed
  {
    k := new Kernel(2, 1);
    var best := k.Schedule(0);
    assert best == Some(0);
    assert k.procs[0].pid == 1 && k.procs[1].pid == 0;
    var r := k.Kill(0);
    assert k.procs[1].killed && k.procs[1].state.UNUSED?;
    var q := k.Allocproc(0, 0);
    child := q.value;
    k.ForkCopies(0, child);
    var pid := k.ForkReturns(0, child);
  }
}
