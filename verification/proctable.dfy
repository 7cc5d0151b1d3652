/** proc.c: the process table as it is whenever ptable.lock is free, and what each locked section does
    to it. Processes and CPUs are named by their index. */
module ProcessTable {
  import opened Basics

  datatype Status = UNUSED | EMBRYO | SLEEPING | RUNNABLE | RUNNING | ZOMBIE

  /** What a process sleeps on; wait sleeps on the process itself. */
  datatype Chan = NoChan | OfProc(p: nat) | OfOther(x: nat)

  /** making is the slot a fork in progress is filling. */
  datatype Proc = Proc(state: Status, pid: nat, parent: Option<nat>, chan: Chan, killed: bool, nice: int, privileged: bool, making: Option<nat>) {
    predicate Alive() {
      state.SLEEPING? || state.RUNNABLE? || state.RUNNING?
    }
    predicate Asleep(c: Chan) {
      state.SLEEPING? && chan == c
    }
    function As(s: Status): (r: Proc) {
      Proc(s, pid, parent, chan, killed, nice, privileged, making)
    }
    function Under(p: Option<nat>): (r: Proc) {
      Proc(state, pid, p, chan, killed, nice, privileged, making)
    }
  }

  /** reaped are the pids wait has returned. */
  datatype Table = Table(procs: seq<Proc>, cpus: seq<Option<nat>>, nextpid: nat, init: nat, reaped: set<nat>)

  // ----- the invariant -----

  ghost predicate Child(a: seq<Proc>, q: nat, p: nat) {
    q < |a| && a[q].parent == Some(p)
  }

  ghost predicate Maker(a: seq<Proc>, p: nat, q: nat) {
    p < |a| && a[p].making == Some(q)
  }

  /** init is alive and an orphan; everyone else who has got past fork has a living parent with a
      smaller pid. So a zombie has no children and its parent can still reap it. */
  ghost predicate Family(t: Table) {
    && t.init < |t.procs| && t.procs[t.init].Alive() && t.procs[t.init].parent.None?
    && (forall p: nat, q: nat :: Child(t.procs, q, p) ==>
          p < |t.procs| && t.procs[p].Alive() && t.procs[p].pid < t.procs[q].pid && !t.procs[q].state.UNUSED?)
    && (forall q :: 0 <= q < |t.procs| && q != t.init && (t.procs[q].Alive() || t.procs[q].state.ZOMBIE?) ==> t.procs[q].parent.Some?)
  }

  /** Nobody sleeps in wait with a zombie child, and only the process itself sleeps on its channel. */
  ghost predicate Vigil(t: Table) {
    && (forall p: nat, q: nat :: Child(t.procs, q, p) && p < |t.procs| && t.procs[p].Asleep(OfProc(p)) ==> !t.procs[q].state.ZOMBIE?)
    && (forall p :: 0 <= p < |t.procs| && t.procs[p].state.SLEEPING? && t.procs[p].chan.OfProc? ==> t.procs[p].chan.p == p)
  }

  /** Pids in use are different, were handed out, have not been reaped, and are not below init's. */
  ghost predicate Pids(t: Table) {
    && (forall q :: 0 <= q < |t.procs| && !t.procs[q].state.UNUSED? ==> 0 < t.procs[q].pid < t.nextpid && t.procs[q].pid !in t.reaped)
    && (forall p, q :: 0 <= p < q < |t.procs| && !t.procs[p].state.UNUSED? && !t.procs[q].state.UNUSED? ==> t.procs[p].pid != t.procs[q].pid)
    && (forall x :: x in t.reaped ==> x < t.nextpid)
    && t.init < |t.procs| && (forall q :: 0 <= q < |t.procs| && !t.procs[q].state.UNUSED? ==> t.procs[t.init].pid <= t.procs[q].pid)
    && t.procs[t.init].pid < t.nextpid
  }

  /** A slot being filled by fork is filled by one living process, which becomes its parent. */
  ghost predicate Forks(t: Table) {
    && (forall p: nat, q: nat :: Maker(t.procs, p, q) ==>
          t.procs[p].Alive() && !t.procs[p].state.SLEEPING? && q < |t.procs| && t.procs[q].state.EMBRYO? && t.procs[p].pid < t.procs[q].pid)
    && (forall p: nat, p': nat, q: nat :: Maker(t.procs, p, q) && Maker(t.procs, p', q) ==> p == p')
    && (forall p: nat, q: nat :: Child(t.procs, q, p) && t.procs[q].state.EMBRYO? ==> Maker(t.procs, p, q))
  }

  /** The running processes are the current processes of the CPUs, one each. */
  ghost predicate Cpus(t: Table) {
    && (forall c :: 0 <= c < |t.cpus| && t.cpus[c].Some? ==> t.cpus[c].value < |t.procs| && t.procs[t.cpus[c].value].state.RUNNING?)
    && (forall c, d :: 0 <= c < d < |t.cpus| && t.cpus[c].Some? ==> t.cpus[c] != t.cpus[d])
    && (forall p: nat :: p < |t.procs| && t.procs[p].state.RUNNING? ==> Some(p) in t.cpus)
  }

  ghost predicate Niceness(t: Table) {
    forall p :: 0 <= p < |t.procs| && !t.procs[p].state.UNUSED? ==> 0 <= t.procs[p].nice <= 20
  }

  /** Always true; Inv is looked into only where this is mentioned. */
  ghost predicate Look(t: Table) {
    true
  }

  ghost predicate Parts(t: Table) {
    Family(t) && Vigil(t) && Pids(t) && Forks(t) && Cpus(t) && Niceness(t)
  }

  ghost function Inv(t: Table): (r: Claim) {
    Claim(forall x {:trigger Look(x)} :: x == t && Look(x) ==> Parts(x))
  }

  lemma InvMeans(t: Table)
    ensures Inv(t).holds <==> Parts(t)
  {
    assert Look(t);
  }

  // ----- steps that leave births, deaths and parents alone -----

  /** Only states of living processes, nice values, flags and channels changed. A process may have gone
      to sleep, if it was not forking, but not in wait. */
  ghost predicate Calm(a: seq<Proc>, b: seq<Proc>) {
    && |a| == |b|
    && forall q :: 0 <= q < |a| ==>
         && b[q].pid == a[q].pid && b[q].parent == a[q].parent && b[q].making == a[q].making
         && (b[q].state == a[q].state || (a[q].Alive() && b[q].Alive()))
         && (0 <= a[q].nice <= 20 ==> 0 <= b[q].nice <= 20)
         && (b[q].state.SLEEPING? ==> (a[q].state.SLEEPING? && b[q].chan == a[q].chan) || (a[q].making.None? && !b[q].chan.OfProc?))
  }

  lemma CalmFamily(t: Table, u: Table)
    requires Family(t) && Calm(t.procs, u.procs) && u.init == t.init
    ensures Family(u)
  {
    forall p: nat, q: nat | Child(u.procs, q, p)
      ensures p < |u.procs| && u.procs[p].Alive() && u.procs[p].pid < u.procs[q].pid && !u.procs[q].state.UNUSED?
    {
      assert Child(t.procs, q, p);
    }
  }

  lemma CalmVigil(t: Table, u: Table)
    requires Vigil(t) && Calm(t.procs, u.procs)
    ensures Vigil(u)
  {
    forall p: nat, q: nat | Child(u.procs, q, p) && p < |u.procs| && u.procs[p].Asleep(OfProc(p)) ensures !u.procs[q].state.ZOMBIE? {
      assert Child(t.procs, q, p) && t.procs[p].Asleep(OfProc(p));
    }
  }

  lemma CalmPids(t: Table, u: Table)
    requires Pids(t) && Calm(t.procs, u.procs) && u.init == t.init && u.nextpid == t.nextpid && u.reaped == t.reaped
    ensures Pids(u)
  {
  }

  lemma CalmForks(t: Table, u: Table)
    requires Forks(t) && Calm(t.procs, u.procs)
    ensures Forks(u)
  {
    assert forall p: nat, q: nat :: Maker(u.procs, p, q) <==> Maker(t.procs, p, q);
    assert forall p: nat, q: nat :: Child(u.procs, q, p) <==> Child(t.procs, q, p);
  }

  lemma CalmNiceness(t: Table, u: Table)
    requires Niceness(t) && Calm(t.procs, u.procs)
    ensures Niceness(u)
  {
  }

  lemma CalmKeeps(t: Table, u: Table)
    requires Inv(t).holds && Calm(t.procs, u.procs) && u.init == t.init && u.nextpid == t.nextpid && u.reaped == t.reaped
    ensures Cpus(u) ==> Inv(u).holds
  {
    InvMeans(t);
    InvMeans(u);
    CalmFamily(t, u);
    CalmVigil(t, u);
    CalmPids(t, u);
    CalmForks(t, u);
    CalmNiceness(t, u);
  }

  /** The same processes are running, on the same CPUs. */
  lemma SameCpus(t: Table, u: Table)
    requires Cpus(t) && |u.procs| == |t.procs| && u.cpus == t.cpus
    requires forall q :: 0 <= q < |t.procs| ==> (u.procs[q].state.RUNNING? <==> t.procs[q].state.RUNNING?)
    ensures Cpus(u)
  {
  }

  /** CPU c's process stops running. */
  lemma LeaveCpu(t: Table, u: Table, c: nat, p: nat)
    requires Cpus(t) && c < |t.cpus| && t.cpus[c] == Some(p) && |u.procs| == |t.procs| && p < |t.procs| && u.cpus == t.cpus[c := None]
    requires forall q :: 0 <= q < |t.procs| ==> (u.procs[q].state.RUNNING? <==> t.procs[q].state.RUNNING? && q != p)
    ensures Cpus(u)
  {
    forall q: nat | q < |u.procs| && u.procs[q].state.RUNNING? ensures Some(q) in u.cpus {
      assert Some(q) in t.cpus;
      var d :| 0 <= d < |t.cpus| && t.cpus[d] == Some(q);
      assert u.cpus[d] == Some(q);
    }
  }

  /** CPU c, which was idle, runs p. */
  lemma EnterCpu(t: Table, u: Table, c: nat, p: nat)
    requires Cpus(t) && c < |t.cpus| && t.cpus[c] == None && |u.procs| == |t.procs| && p < |t.procs| && u.cpus == t.cpus[c := Some(p)]
    requires !t.procs[p].state.RUNNING?
    requires forall q :: 0 <= q < |t.procs| ==> (u.procs[q].state.RUNNING? <==> t.procs[q].state.RUNNING? || q == p)
    ensures Cpus(u)
  {
    forall q: nat | q < |u.procs| && u.procs[q].state.RUNNING? ensures Some(q) in u.cpus {
      if q == p {
        assert u.cpus[c] == Some(q);
      } else {
        assert Some(q) in t.cpus;
        var d :| 0 <= d < |t.cpus| && t.cpus[d] == Some(q);
        assert u.cpus[d] == Some(q);
      }
    }
  }

  // ----- fork -----

  function Made(x: Proc, q: Option<nat>): (r: Proc) {
    Proc(x.state, x.pid, x.parent, x.chan, x.killed, x.nice, x.privileged, q)
  }

  /** allocproc: the slot gets the next pid. Its killed flag stays as it was. */
  function Embryo(x: Proc, pid: nat): (r: Proc) {
    Proc(EMBRYO, pid, x.parent, x.chan, x.killed, 0, false, x.making)
  }

  ghost function Born(t: Table, p: nat, q: nat): (u: Table)
    requires p < |t.procs| && q < |t.procs|
  {
    Table(t.procs[q := Embryo(t.procs[q], t.nextpid)][p := Made(t.procs[p], Some(q))], t.cpus, t.nextpid + 1, t.init, t.reaped)
  }

  /** Parents are unchanged, and fork goes on only in p, which now makes m. */
  ghost predicate Links(a: seq<Proc>, b: seq<Proc>, p: nat, m: Option<nat>) {
    && |a| == |b|
    && (forall x: nat, y: nat :: Child(b, x, y) <==> Child(a, x, y))
    && (forall x: nat, y: nat :: Maker(b, x, y) <==> if x == p then m == Some(y) else Maker(a, x, y))
  }

  lemma NoLinks(t: Table, q: nat)
    requires Family(t) && Forks(t) && q < |t.procs| && (t.procs[q].state.UNUSED? || t.procs[q].state.EMBRYO?)
    ensures t.procs[q].making.None? && (t.procs[q].state.UNUSED? ==> t.procs[q].parent.None?)
    ensures forall x: nat :: !Child(t.procs, x, q)
  {
    assert t.procs[q].making.Some? ==> Maker(t.procs, q, t.procs[q].making.value);
    assert t.procs[q].parent.Some? ==> Child(t.procs, q, t.procs[q].parent.value);
  }

  lemma BornLinks(t: Table, p: nat, q: nat)
    requires p < |t.procs| && q < |t.procs| && p != q
    ensures Links(t.procs, Born(t, p, q).procs, p, Some(q))
  {
  }

  lemma BornFamily(t: Table, p: nat, q: nat)
    requires Family(t) && p < |t.procs| && q < |t.procs| && t.procs[q].state.UNUSED? && t.procs[p].Alive()
    requires Links(t.procs, Born(t, p, q).procs, p, Some(q))
    ensures Family(Born(t, p, q))
  {
  }

  lemma BornVigil(t: Table, p: nat, q: nat)
    requires Vigil(t) && p < |t.procs| && q < |t.procs| && t.procs[q].state.UNUSED? && t.procs[p].Alive()
    requires Links(t.procs, Born(t, p, q).procs, p, Some(q))
    ensures Vigil(Born(t, p, q))
  {
  }

  lemma BornPids(t: Table, p: nat, q: nat)
    requires Pids(t) && p < |t.procs| && q < |t.procs| && t.procs[q].state.UNUSED? && t.procs[p].Alive() && t.procs[t.init].Alive() && 0 < t.nextpid
    ensures Pids(Born(t, p, q))
  {
    assert t.nextpid !in t.reaped;
  }

  lemma BornForks(t: Table, p: nat, q: nat)
    requires Forks(t) && p < |t.procs| && q < |t.procs| && t.procs[q].state.UNUSED? && t.procs[q].parent.None?
    requires t.procs[p].state.RUNNING? && t.procs[p].making.None? && t.procs[p].pid < t.nextpid
    requires Links(t.procs, Born(t, p, q).procs, p, Some(q))
    ensures Forks(Born(t, p, q))
  {
    var u := Born(t, p, q);
    forall x: nat, y: nat | Child(u.procs, y, x) && u.procs[y].state.EMBRYO? ensures Maker(u.procs, x, y) {
      assert Child(t.procs, y, x) && y != q;
    }
    forall x: nat, y: nat | Maker(u.procs, x, y) && x != p ensures y != q && u.procs[x] == t.procs[x] && u.procs[y].state == t.procs[y].state && u.procs[y].pid == t.procs[y].pid {
      assert Maker(t.procs, x, y);
    }
  }

  lemma BornKeeps(t: Table, p: nat, q: nat)
    requires Inv(t).holds && p < |t.procs| && q < |t.procs| && t.procs[q].state.UNUSED?
    requires t.procs[p].state.RUNNING? && t.procs[p].making.None?
    ensures Inv(Born(t, p, q)).holds
  {
    InvMeans(t);
    InvMeans(Born(t, p, q));
    BornLinks(t, p, q);
    NoLinks(t, q);
    BornFamily(t, p, q);
    BornVigil(t, p, q);
    BornPids(t, p, q);
    BornForks(t, p, q);
    SameCpus(t, Born(t, p, q));
  }

  /** fork gives up: the slot is free again, but keeps its pid. */
  ghost function Aborted(t: Table, p: nat, q: nat): (u: Table)
    requires p < |t.procs| && q < |t.procs|
  {
    Table(t.procs[q := t.procs[q].As(UNUSED)][p := Made(t.procs[p], None)], t.cpus, t.nextpid, t.init, t.reaped)
  }

  lemma AbortLinks(t: Table, p: nat, q: nat)
    requires p < |t.procs| && q < |t.procs| && p != q
    ensures Links(t.procs, Aborted(t, p, q).procs, p, None)
  {
  }

  lemma AbortFamily(t: Table, p: nat, q: nat)
    requires Family(t) && p < |t.procs| && q < |t.procs| && t.procs[q].state.EMBRYO? && t.procs[p].Alive() && t.procs[q].parent.None?
    requires Links(t.procs, Aborted(t, p, q).procs, p, None)
    ensures Family(Aborted(t, p, q))
  {
  }

  lemma AbortForks(t: Table, p: nat, q: nat)
    requires Forks(t) && Maker(t.procs, p, q) && q < |t.procs| && t.procs[q].parent.None?
    requires Links(t.procs, Aborted(t, p, q).procs, p, None)
    ensures Forks(Aborted(t, p, q))
  {
    var u := Aborted(t, p, q);
    forall x: nat, y: nat | Child(u.procs, y, x) && u.procs[y].state.EMBRYO? ensures Maker(u.procs, x, y) {
      assert Child(t.procs, y, x) && Maker(t.procs, x, y) && y != q;
    }
    forall x: nat, y: nat | Maker(u.procs, x, y) ensures y != q && x != p && u.procs[x].pid == t.procs[x].pid && u.procs[x].state == t.procs[x].state {
      assert Maker(t.procs, x, y);
    }
  }

  lemma AbortVigil(t: Table, p: nat, q: nat)
    requires Vigil(t) && p < |t.procs| && q < |t.procs|
    requires Links(t.procs, Aborted(t, p, q).procs, p, None)
    ensures Vigil(Aborted(t, p, q))
  {
  }

  lemma AbortPids(t: Table, p: nat, q: nat)
    requires Pids(t) && p < |t.procs| && q < |t.procs| && p != q
    ensures Pids(Aborted(t, p, q))
  {
  }

  lemma AbortKeeps(t: Table, p: nat, q: nat)
    requires Inv(t).holds && Maker(t.procs, p, q) && q < |t.procs| && t.procs[q].parent.None?
    ensures Inv(Aborted(t, p, q)).holds
  {
    InvMeans(t);
    InvMeans(Aborted(t, p, q));
    AbortLinks(t, p, q);
    AbortFamily(t, p, q);
    AbortForks(t, p, q);
    AbortVigil(t, p, q);
    AbortPids(t, p, q);
    SameCpus(t, Aborted(t, p, q));
  }

  /** The child gets its parent, with its nice value. */
  ghost function Adopted(t: Table, p: nat, q: nat): (u: Table)
    requires p < |t.procs| && q < |t.procs|
  {
    var x := t.procs[q];
    At(t, q, Proc(x.state, x.pid, Some(p), x.chan, x.killed, t.procs[p].nice, t.procs[p].privileged, x.making))
  }

  ghost function At(t: Table, p: nat, x: Proc): (r: Table)
    requires p < |t.procs|
  {
    Table(t.procs[p := x], t.cpus, t.nextpid, t.init, t.reaped)
  }

  lemma AdoptLinks(t: Table, p: nat, q: nat)
    requires Forks(t) && Maker(t.procs, p, q) && q < |t.procs|
    ensures forall x: nat, y: nat :: Child(Adopted(t, p, q).procs, x, y) <==> if x == q then y == p else Child(t.procs, x, y)
    ensures forall x: nat, y: nat :: Maker(Adopted(t, p, q).procs, x, y) <==> Maker(t.procs, x, y)
  {
  }

  lemma AdoptFamily(t: Table, p: nat, q: nat)
    requires Family(t) && Forks(t) && Maker(t.procs, p, q) && q < |t.procs|
    ensures Family(Adopted(t, p, q))
  {
    AdoptLinks(t, p, q);
  }

  lemma AdoptForks(t: Table, p: nat, q: nat)
    requires Forks(t) && Maker(t.procs, p, q) && q < |t.procs|
    ensures Forks(Adopted(t, p, q))
  {
    AdoptLinks(t, p, q);
  }

  lemma AdoptVigil(t: Table, p: nat, q: nat)
    requires Vigil(t) && Forks(t) && Maker(t.procs, p, q) && q < |t.procs|
    ensures Vigil(Adopted(t, p, q))
  {
    AdoptLinks(t, p, q);
  }

  lemma AdoptPids(t: Table, p: nat, q: nat)
    requires Pids(t) && Niceness(t) && p < |t.procs| && q < |t.procs| && t.procs[p].Alive()
    ensures Pids(Adopted(t, p, q)) && Niceness(Adopted(t, p, q))
  {
  }

  lemma AdoptKeeps(t: Table, p: nat, q: nat)
    requires Inv(t).holds && Maker(t.procs, p, q) && q < |t.procs|
    ensures Inv(Adopted(t, p, q)).holds
  {
    InvMeans(t);
    InvMeans(Adopted(t, p, q));
    AdoptFamily(t, p, q);
    AdoptForks(t, p, q);
    AdoptVigil(t, p, q);
    AdoptPids(t, p, q);
    SameCpus(t, Adopted(t, p, q));
  }

  /** The child can run. */
  ghost function Hatched(t: Table, p: nat, q: nat): (u: Table)
    requires p < |t.procs| && q < |t.procs|
  {
    Table(t.procs[q := t.procs[q].As(RUNNABLE)][p := Made(t.procs[p], None)], t.cpus, t.nextpid, t.init, t.reaped)
  }

  lemma HatchLinks(t: Table, p: nat, q: nat)
    requires p < |t.procs| && q < |t.procs| && p != q
    ensures Links(t.procs, Hatched(t, p, q).procs, p, None)
  {
  }

  lemma HatchFamily(t: Table, p: nat, q: nat)
    requires Family(t) && p < |t.procs| && q < |t.procs| && t.procs[q].state.EMBRYO? && t.procs[p].Alive() && t.procs[q].parent.Some?
    requires Links(t.procs, Hatched(t, p, q).procs, p, None)
    ensures Family(Hatched(t, p, q))
  {
  }

  lemma HatchForks(t: Table, p: nat, q: nat)
    requires Forks(t) && Maker(t.procs, p, q) && q < |t.procs|
    requires Links(t.procs, Hatched(t, p, q).procs, p, None)
    ensures Forks(Hatched(t, p, q))
  {
    var u := Hatched(t, p, q);
    forall x: nat, y: nat | Child(u.procs, y, x) && u.procs[y].state.EMBRYO? ensures Maker(u.procs, x, y) {
      assert Child(t.procs, y, x) && Maker(t.procs, x, y) && y != q;
    }
    forall x: nat, y: nat | Maker(u.procs, x, y) ensures y != q && x != p && u.procs[x].pid == t.procs[x].pid && u.procs[x].state == t.procs[x].state {
      assert Maker(t.procs, x, y);
    }
  }

  lemma HatchVigil(t: Table, p: nat, q: nat)
    requires Vigil(t) && p < |t.procs| && q < |t.procs|
    requires Links(t.procs, Hatched(t, p, q).procs, p, None)
    ensures Vigil(Hatched(t, p, q))
  {
  }

  lemma HatchPids(t: Table, p: nat, q: nat)
    requires Pids(t) && p < |t.procs| && q < |t.procs| && p != q && !t.procs[q].state.UNUSED?
    ensures Pids(Hatched(t, p, q))
  {
  }

  lemma HatchKeeps(t: Table, p: nat, q: nat)
    requires Inv(t).holds && Maker(t.procs, p, q) && q < |t.procs| && t.procs[q].parent.Some?
    ensures Inv(Hatched(t, p, q)).holds
  {
    InvMeans(t);
    InvMeans(Hatched(t, p, q));
    HatchLinks(t, p, q);
    HatchFamily(t, p, q);
    HatchForks(t, p, q);
    HatchVigil(t, p, q);
    HatchPids(t, p, q);
    SameCpus(t, Hatched(t, p, q));
  }

  // ----- wakeup1 -----

  /** The first k slots have been looked at. */
  ghost predicate Woke(a: seq<Proc>, b: seq<Proc>, chan: Chan, k: nat) {
    && |a| == |b| && k <= |a|
    && (forall q :: 0 <= q < k ==> b[q] == if a[q].Asleep(chan) then a[q].(state := RUNNABLE) else a[q])
    && (forall q :: k <= q < |a| ==> b[q] == a[q])
  }

  lemma WokeKeeps(t: Table, b: seq<Proc>, chan: Chan)
    requires Inv(t).holds && Woke(t.procs, b, chan, |b|)
    ensures Inv(Table(b, t.cpus, t.nextpid, t.init, t.reaped)).holds
  {
    InvMeans(t);
    InvMeans(Table(b, t.cpus, t.nextpid, t.init, t.reaped));
    var u := Table(b, t.cpus, t.nextpid, t.init, t.reaped);
    SameCpus(t, u);
    CalmKeeps(t, u);
  }

  // ----- exit -----

  ghost predicate HasZombie(a: seq<Proc>, p: nat, k: nat) {
    exists q: nat :: q < k && Child(a, q, p) && a[q].state.ZOMBIE?
  }

  /** exit's loop over the first k slots: p's children among them are init's now, and init has been woken
      if one of them was a zombie. */
  ghost predicate Heirs(a: seq<Proc>, b: seq<Proc>, p: nat, init: nat, k: nat) {
    && |a| == |b| && k <= |a|
    && (forall q :: 0 <= q < |a| ==>
          b[q].Under(None) == (if HasZombie(a, p, k) && a[q].Asleep(OfProc(init)) then a[q].As(RUNNABLE) else a[q]).Under(None))
    && (forall q :: 0 <= q < |a| ==> b[q].parent == if q < k && a[q].parent == Some(p) then Some(init) else a[q].parent)
  }

  /** Whether exit of p wakes the process in slot q: one that sleeps on p's parent, or on init if p leaves a zombie. */
  ghost predicate Woken(a: seq<Proc>, p: nat, init: nat, q: nat)
    requires p < |a| && q < |a|
  {
    || (a[p].parent.Some? && a[q].Asleep(OfProc(a[p].parent.value)))
    || (HasZombie(a, p, |a|) && a[q].Asleep(OfProc(init)))
  }

  /** Slot q after p has exited. */
  ghost function Left(a: seq<Proc>, p: nat, init: nat, q: nat): (r: Proc)
    requires p < |a| && q < |a|
  {
    if q == p then a[p].(state := ZOMBIE)
    else (if Woken(a, p, init, q) then a[q].(state := RUNNABLE) else a[q]).(parent := if a[q].parent == Some(p) then Some(init) else a[q].parent)
  }

  lemma {:induction false} SameZombies(a: seq<Proc>, b: seq<Proc>, chan: Chan, p: nat)
    requires Woke(a, b, chan, |b|)
    ensures HasZombie(b, p, |b|) <==> HasZombie(a, p, |a|)
  {
    assert forall q :: 0 <= q < |a| ==> (b[q].state.ZOMBIE? <==> a[q].state.ZOMBIE?) && b[q].parent == a[q].parent;
    assert forall q: nat :: q < |a| ==> (Child(b, q, p) <==> Child(a, q, p));
  }

  lemma LeftBy(a: seq<Proc>, b: seq<Proc>, c: seq<Proc>, p: nat, init: nat, q: nat)
    requires p < |a| && q < |a| && q != p && a[p].parent.Some? && Woke(a, b, OfProc(a[p].parent.value), |b|) && Heirs(b, c, p, init, |c|)
    ensures c[q] == Left(a, p, init, q)
  {
    SameZombies(a, b, OfProc(a[p].parent.value), p);
    assert c[q].Under(None).Under(c[q].parent) == c[q];
  }

  /** p can exit: it is running on c, is not init and not forking, and its parent is not asleep in wait. */
  ghost predicate Exits(t: Table, p: nat, c: nat) {
    && p < |t.procs| && c < |t.cpus| && t.cpus[c] == Some(p) && t.procs[p].state.RUNNING? && p != t.init && t.procs[p].making.None?
    && forall r: nat :: Child(t.procs, p, r) && r < |t.procs| ==> !t.procs[r].Asleep(OfProc(r))
  }

  lemma HeirLinks(t: Table, b: seq<Proc>, p: nat)
    requires Heirs(t.procs, b, p, t.init, |b|)
    ensures forall x: nat, y: nat :: Child(b, x, y) <==> if Child(t.procs, x, p) then y == t.init else Child(t.procs, x, y)
    ensures forall x: nat, y: nat :: Maker(b, x, y) <==> Maker(t.procs, x, y)
    ensures forall x: nat :: x < |b| ==> b[x].pid == t.procs[x].pid && b[x].nice == t.procs[x].nice && b[x].chan == t.procs[x].chan
    ensures forall x: nat :: x < |b| ==> b[x].state == t.procs[x].state || (t.procs[x].state.SLEEPING? && b[x].state.RUNNABLE?)
  {
    forall x: nat | x < |b| ensures b[x].Under(None).state == b[x].state && b[x].Under(None).making == b[x].making && b[x].Under(None).pid == b[x].pid && b[x].Under(None).nice == b[x].nice && b[x].Under(None).chan == b[x].chan {}
  }

  ghost function Dead(t: Table, b: seq<Proc>, p: nat, c: nat): (u: Table)
    requires p < |b| && c < |t.cpus|
  {
    Table(b[p := b[p].As(ZOMBIE)], t.cpus[c := None], t.nextpid, t.init, t.reaped)
  }

  lemma DeadLinks(t: Table, b: seq<Proc>, p: nat, c: nat)
    requires Heirs(t.procs, b, p, t.init, |b|) && p < |b| && c < |t.cpus|
    ensures var d := Dead(t, b, p, c).procs;
      && (forall x: nat, y: nat :: Child(d, x, y) <==> if Child(t.procs, x, p) then y == t.init else Child(t.procs, x, y))
      && (forall x: nat, y: nat :: Maker(d, x, y) <==> Maker(t.procs, x, y))
  {
    HeirLinks(t, b, p);
    var d := Dead(t, b, p, c).procs;
    forall x: nat, y: nat ensures Child(d, x, y) <==> Child(b, x, y) {}
    forall x: nat, y: nat ensures Maker(d, x, y) <==> Maker(b, x, y) {}
  }

  lemma InitLowest(t: Table, q: nat)
    requires Family(t) && Pids(t) && q < |t.procs| && q != t.init && !t.procs[q].state.UNUSED?
    ensures t.procs[t.init].pid < t.procs[q].pid
  {
    if q < t.init {
      assert t.procs[q].pid != t.procs[t.init].pid;
    }
  }

  lemma DeadFamily(t: Table, b: seq<Proc>, p: nat, c: nat)
    requires Family(t) && Pids(t) && Heirs(t.procs, b, p, t.init, |b|) && Exits(t, p, c)
    ensures Family(Dead(t, b, p, c))
  {
    DeadLinks(t, b, p, c);
    HeirLinks(t, b, p);
    var u := Dead(t, b, p, c);
    forall x: nat, y: nat | Child(u.procs, x, y)
      ensures y < |u.procs| && u.procs[y].Alive() && u.procs[y].pid < u.procs[x].pid && !u.procs[x].state.UNUSED?
    {
      if Child(t.procs, x, p) {
        InitLowest(t, x);
      }
    }
    assert !Child(t.procs, t.init, p);
  }

  lemma DeadVigil(t: Table, b: seq<Proc>, p: nat, c: nat)
    requires Vigil(t) && Family(t) && Heirs(t.procs, b, p, t.init, |b|) && Exits(t, p, c)
    ensures Vigil(Dead(t, b, p, c))
  {
    DeadLinks(t, b, p, c);
    HeirLinks(t, b, p);
    var u := Dead(t, b, p, c);
    forall r: nat, y: nat | Child(u.procs, y, r) && r < |u.procs| && u.procs[r].Asleep(OfProc(r)) ensures !u.procs[y].state.ZOMBIE? {
      assert t.procs[r].Asleep(OfProc(r)) && !Child(t.procs, p, p);
      if Child(t.procs, y, p) {
        assert r == t.init;
        assert b[r].Under(None).state == b[r].state;
        assert !HasZombie(t.procs, p, |b|);
      }
    }
  }

  lemma DeadPids(t: Table, b: seq<Proc>, p: nat, c: nat)
    requires Pids(t) && Niceness(t) && Heirs(t.procs, b, p, t.init, |b|) && Exits(t, p, c)
    ensures Pids(Dead(t, b, p, c)) && Niceness(Dead(t, b, p, c))
  {
    HeirLinks(t, b, p);
    var u := Dead(t, b, p, c);
    assert forall q :: 0 <= q < |u.procs| ==> u.procs[q].pid == t.procs[q].pid && (u.procs[q].state.UNUSED? <==> t.procs[q].state.UNUSED?);
  }

  lemma DeadForks(t: Table, b: seq<Proc>, p: nat, c: nat)
    requires Forks(t) && Heirs(t.procs, b, p, t.init, |b|) && Exits(t, p, c)
    ensures Forks(Dead(t, b, p, c))
  {
    DeadLinks(t, b, p, c);
    HeirLinks(t, b, p);
    var u := Dead(t, b, p, c);
    assert forall y: nat :: !Maker(t.procs, p, y);
    forall x: nat, y: nat | Child(u.procs, y, x) && u.procs[y].state.EMBRYO? ensures Maker(u.procs, x, y) {
      assert Child(t.procs, y, p) ==> Maker(t.procs, p, y);
    }
  }

  lemma DeadKeeps(t: Table, b: seq<Proc>, p: nat, c: nat)
    requires Inv(t).holds && Heirs(t.procs, b, p, t.init, |b|) && Exits(t, p, c)
    ensures Inv(Dead(t, b, p, c)).holds
  {
    InvMeans(t);
    InvMeans(Dead(t, b, p, c));
    DeadFamily(t, b, p, c);
    DeadVigil(t, b, p, c);
    DeadPids(t, b, p, c);
    DeadForks(t, b, p, c);
    HeirLinks(t, b, p);
    LeaveCpu(t, Dead(t, b, p, c), c, p);
  }

  // ----- wait -----

  function Blank(x: Proc): (r: Proc) {
    Proc(UNUSED, 0, None, x.chan, false, x.nice, x.privileged, x.making)
  }

  ghost function Reaped(t: Table, q: nat): (u: Table)
    requires q < |t.procs|
  {
    Table(t.procs[q := Blank(t.procs[q])], t.cpus, t.nextpid, t.init, t.reaped + {t.procs[q].pid})
  }

  lemma ReapLinks(t: Table, q: nat)
    requires Family(t) && q < |t.procs| && t.procs[q].state.ZOMBIE?
    ensures forall x: nat :: !Child(t.procs, x, q)
    ensures forall x: nat, y: nat :: Child(Reaped(t, q).procs, x, y) <==> x != q && Child(t.procs, x, y)
    ensures forall x: nat, y: nat :: Maker(Reaped(t, q).procs, x, y) <==> Maker(t.procs, x, y)
  {
  }

  lemma ReapFamily(t: Table, q: nat)
    requires Family(t) && q < |t.procs| && t.procs[q].state.ZOMBIE?
    ensures Family(Reaped(t, q))
  {
    ReapLinks(t, q);
  }

  lemma ReapForks(t: Table, q: nat)
    requires Family(t) && Forks(t) && q < |t.procs| && t.procs[q].state.ZOMBIE?
    ensures Forks(Reaped(t, q))
  {
    ReapLinks(t, q);
  }

  lemma ReapPids(t: Table, q: nat)
    requires Pids(t) && q < |t.procs| && t.procs[q].state.ZOMBIE? && q != t.init
    ensures Pids(Reaped(t, q))
  {
    var u := Reaped(t, q);
    forall r | 0 <= r < |u.procs| && !u.procs[r].state.UNUSED? ensures u.procs[r].pid !in u.reaped {
      assert r != q && t.procs[r].pid != t.procs[q].pid;
    }
  }

  lemma ReapVigil(t: Table, q: nat)
    requires Family(t) && Vigil(t) && q < |t.procs| && t.procs[q].state.ZOMBIE?
    ensures Vigil(Reaped(t, q))
  {
    ReapLinks(t, q);
  }

  /** Reaping keeps the invariant; the pid had not been reaped before. */
  lemma ReapKeeps(t: Table, q: nat)
    requires Inv(t).holds && q < |t.procs| && t.procs[q].state.ZOMBIE?
    ensures Inv(Reaped(t, q)).holds && t.procs[q].pid !in t.reaped
  {
    InvMeans(t);
    InvMeans(Reaped(t, q));
    ReapFamily(t, q);
    ReapForks(t, q);
    ReapPids(t, q);
    ReapVigil(t, q);
    SameCpus(t, Reaped(t, q));
  }

  function Sleeping(x: Proc, chan: Chan): (r: Proc) {
    Proc(SLEEPING, x.pid, x.parent, chan, x.killed, x.nice, x.privileged, x.making)
  }

  ghost function Slept(t: Table, p: nat, c: nat, chan: Chan): (u: Table)
    requires p < |t.procs| && c < |t.cpus|
  {
    Table(t.procs[p := Sleeping(t.procs[p], chan)], t.cpus[c := None], t.nextpid, t.init, t.reaped)
  }

  /** Sleeping in wait, with no zombie child. */
  lemma WaitKeeps(t: Table, p: nat, c: nat)
    requires Inv(t).holds && p < |t.procs| && c < |t.cpus| && t.cpus[c] == Some(p) && t.procs[p].state.RUNNING? && t.procs[p].making.None?
    requires !HasZombie(t.procs, p, |t.procs|)
    ensures Inv(Slept(t, p, c, OfProc(p))).holds
  {
    InvMeans(t);
    InvMeans(Slept(t, p, c, OfProc(p)));
    var v, u := Slept(t, p, c, NoChan), Slept(t, p, c, OfProc(p));
    SleepKeeps(t, p, c, NoChan);
    WaitVigil(t, p, c);
    RechanKeeps(v, u, p);
  }

  lemma WaitVigil(t: Table, p: nat, c: nat)
    requires Vigil(t) && p < |t.procs| && c < |t.cpus| && !HasZombie(t.procs, p, |t.procs|)
    ensures Vigil(Slept(t, p, c, OfProc(p)))
  {
    var u := Slept(t, p, c, OfProc(p));
    forall r: nat, y: nat | Child(u.procs, y, r) && r < |u.procs| && u.procs[r].Asleep(OfProc(r)) ensures !u.procs[y].state.ZOMBIE? {
      assert Child(t.procs, y, r);
    }
  }

  /** Only Vigil looks at channels. */
  lemma RechanKeeps(v: Table, u: Table, p: nat)
    requires Inv(v).holds && Vigil(u) && p < |v.procs| && u == At(v, p, Sleeping(v.procs[p], OfProc(p))) && v.procs[p].state.SLEEPING?
    ensures Inv(u).holds
  {
    InvMeans(v);
    InvMeans(u);
    SameCpus(v, u);
    RechanLinks(v, u, p);
    RechanFamily(v, u, p);
    RechanForks(v, u, p);
    RechanPids(v, u, p);
  }

  lemma RechanLinks(v: Table, u: Table, p: nat)
    requires p < |v.procs| && u == At(v, p, Sleeping(v.procs[p], OfProc(p)))
    ensures forall x: nat, y: nat :: Child(u.procs, x, y) <==> Child(v.procs, x, y)
    ensures forall x: nat, y: nat :: Maker(u.procs, x, y) <==> Maker(v.procs, x, y)
  {
  }

  lemma RechanFamily(v: Table, u: Table, p: nat)
    requires Family(v) && p < |v.procs| && u == At(v, p, Sleeping(v.procs[p], OfProc(p))) && v.procs[p].state.SLEEPING?
    requires forall x: nat, y: nat :: Child(u.procs, x, y) <==> Child(v.procs, x, y)
    ensures Family(u)
  {
  }

  lemma RechanForks(v: Table, u: Table, p: nat)
    requires Forks(v) && p < |v.procs| && u == At(v, p, Sleeping(v.procs[p], OfProc(p))) && v.procs[p].state.SLEEPING?
    requires forall x: nat, y: nat :: Child(u.procs, x, y) <==> Child(v.procs, x, y)
    requires forall x: nat, y: nat :: Maker(u.procs, x, y) <==> Maker(v.procs, x, y)
    ensures Forks(u)
  {
  }

  lemma RechanPids(v: Table, u: Table, p: nat)
    requires Pids(v) && Niceness(v) && p < |v.procs| && u == At(v, p, Sleeping(v.procs[p], OfProc(p))) && v.procs[p].state.SLEEPING?
    ensures Pids(u) && Niceness(u)
  {
  }

  /** Sleeping on anything else. */
  lemma SleepKeeps(t: Table, p: nat, c: nat, chan: Chan)
    requires Inv(t).holds && p < |t.procs| && c < |t.cpus| && t.cpus[c] == Some(p) && t.procs[p].state.RUNNING? && t.procs[p].making.None?
    requires !chan.OfProc?
    ensures Inv(Slept(t, p, c, chan)).holds
  {
    InvMeans(t);
    InvMeans(Slept(t, p, c, chan));
    var u := Slept(t, p, c, chan);
    LeaveCpu(t, u, c, p);
    CalmKeeps(t, u);
  }

  // ----- kill, nice, dispatch -----

  /** One process's flags changed, or it was woken. */
  ghost predicate Nudged(x: Proc, y: Proc) {
    && y.pid == x.pid && y.parent == x.parent && y.making == x.making && y.chan == x.chan
    && (y.state == x.state || (x.state.SLEEPING? && y.state.RUNNABLE?)) && (0 <= x.nice <= 20 ==> 0 <= y.nice <= 20)
  }

  lemma NudgeKeeps(t: Table, p: nat, y: Proc)
    requires Inv(t).holds && p < |t.procs| && Nudged(t.procs[p], y)
    ensures Inv(At(t, p, y)).holds
  {
    InvMeans(t);
    InvMeans(At(t, p, y));
    SameCpus(t, At(t, p, y));
    CalmKeeps(t, At(t, p, y));
  }

  function Resumed(x: Proc): (r: Proc) {
    Proc(RUNNING, x.pid, x.parent, NoChan, x.killed, x.nice, x.privileged, x.making)
  }

  ghost function Dispatched(t: Table, p: nat, c: nat): (u: Table)
    requires p < |t.procs| && c < |t.cpus|
  {
    Table(t.procs[p := Resumed(t.procs[p])], t.cpus[c := Some(p)], t.nextpid, t.init, t.reaped)
  }

  lemma DispatchKeeps(t: Table, p: nat, c: nat)
    requires Inv(t).holds && p < |t.procs| && c < |t.cpus| && t.cpus[c] == None && t.procs[p].state.RUNNABLE?
    ensures Inv(Dispatched(t, p, c)).holds
  {
    InvMeans(t);
    InvMeans(Dispatched(t, p, c));
    EnterCpu(t, Dispatched(t, p, c), c, p);
    CalmKeeps(t, Dispatched(t, p, c));
  }

  ghost function Yielded(t: Table, p: nat, c: nat): (u: Table)
    requires p < |t.procs| && c < |t.cpus|
  {
    Table(t.procs[p := t.procs[p].As(RUNNABLE)], t.cpus[c := None], t.nextpid, t.init, t.reaped)
  }

  lemma YieldKeeps(t: Table, p: nat, c: nat)
    requires Inv(t).holds && p < |t.procs| && c < |t.cpus| && t.cpus[c] == Some(p) && t.procs[p].state.RUNNING?
    ensures Inv(Yielded(t, p, c)).holds
  {
    InvMeans(t);
    InvMeans(Yielded(t, p, c));
    LeaveCpu(t, Yielded(t, p, c), c, p);
    CalmKeeps(t, Yielded(t, p, c));
  }

  /** Every RUNNABLE slot below k is at least as nice as b, and those before b are nicer. */
  ghost predicate LeastNice(a: seq<Proc>, b: nat, k: nat) {
    && b < k <= |a| && a[b].state.RUNNABLE?
    && forall q :: 0 <= q < k && a[q].state.RUNNABLE? ==> a[b].nice <= a[q].nice && (q < b ==> a[b].nice < a[q].nice)
  }

  // ----- ancestors -----

  /** caller is x or k generations above it. */
  ghost predicate Above(a: seq<Proc>, x: nat, caller: nat, k: nat)
    decreases k
  {
    if k == 0 then x == caller
    else x < |a| && a[x].parent.Some? && Above(a, a[x].parent.value, caller, k - 1)
  }

  ghost predicate Ancestor(a: seq<Proc>, x: nat, caller: nat) {
    exists k: nat :: Above(a, x, caller, k)
  }

  lemma AncestorUp(a: seq<Proc>, x: nat, caller: nat)
    requires x < |a|
    ensures Ancestor(a, x, caller) <==> x == caller || (a[x].parent.Some? && Ancestor(a, a[x].parent.value, caller))
  {
    if Ancestor(a, x, caller) && x != caller {
      var k: nat :| Above(a, x, caller, k);
      assert Above(a, a[x].parent.value, caller, k - 1);
    }
    if x == caller {
      assert Above(a, x, caller, 0);
    }
    if a[x].parent.Some? && Ancestor(a, a[x].parent.value, caller) {
      var k: nat :| Above(a, a[x].parent.value, caller, k);
      assert Above(a, x, caller, k + 1);
    }
  }

  // ----- reading the invariant -----

  lemma CurrentRuns(t: Table, c: nat)
    requires Inv(t).holds && c < |t.cpus| && t.cpus[c].Some?
    ensures t.cpus[c].value < |t.procs| && t.procs[t.cpus[c].value].state.RUNNING?
  {
    InvMeans(t);
  }

  /** Whoever has got past fork, other than init, has a living parent. */
  lemma ParentLives(t: Table, p: nat)
    requires Inv(t).holds && p < |t.procs| && p != t.init && (t.procs[p].Alive() || t.procs[p].state.ZOMBIE?)
    ensures t.procs[p].parent.Some? && t.procs[p].parent.value < |t.procs| && t.procs[t.procs[p].parent.value].Alive()
  {
    InvMeans(t);
    assert Child(t.procs, p, t.procs[p].parent.value);
  }

  lemma ParentOlder(t: Table, p: nat)
    requires Inv(t).holds && p < |t.procs| && t.procs[p].parent.Some?
    ensures t.procs[p].parent.value < |t.procs| && t.procs[t.procs[p].parent.value].pid < t.procs[p].pid
  {
    InvMeans(t);
    assert Child(t.procs, p, t.procs[p].parent.value);
  }

  /** A zombie has no children. */
  lemma ZombieChildless(t: Table, p: nat, q: nat)
    requires Inv(t).holds && p < |t.procs| && t.procs[p].state.ZOMBIE?
    ensures !Child(t.procs, q, p)
  {
    InvMeans(t);
  }

  /** A process asleep in wait has no zombie child. */
  lemma WaiterMissesNone(t: Table, p: nat, q: nat)
    requires Inv(t).holds && p < |t.procs| && t.procs[p].Asleep(OfProc(p)) && Child(t.procs, q, p)
    ensures !t.procs[q].state.ZOMBIE?
  {
    InvMeans(t);
  }

  /** A running process is current on one CPU, and only on that one. */
  lemma OneCpuEach(t: Table, p: nat) returns (c: nat)
    requires Inv(t).holds && p < |t.procs| && t.procs[p].state.RUNNING?
    ensures c < |t.cpus| && t.cpus[c] == Some(p) && forall d :: 0 <= d < |t.cpus| && t.cpus[d] == Some(p) ==> d == c
  {
    InvMeans(t);
    assert Some(p) in t.cpus;
    c :| c < |t.cpus| && t.cpus[c] == Some(p);
    assert forall d, e :: 0 <= d < e < |t.cpus| && t.cpus[d].Some? ==> t.cpus[d] != t.cpus[e];
  }

  lemma MakerFacts(t: Table, p: nat, q: nat)
    requires Inv(t).holds && Maker(t.procs, p, q)
    ensures q < |t.procs| && t.procs[q].state.EMBRYO? && p != q
  {
    InvMeans(t);
  }

  /** The table userinit leaves: init alone, runnable, in slot 0. */
  lemma FirstInv(t: Table)
    requires 0 < |t.procs| && t.init == 0 && t.nextpid == 2 && t.reaped == {}
    requires t.procs[0] == Proc(RUNNABLE, 1, None, NoChan, false, 0, false, None)
    requires forall q :: 1 <= q < |t.procs| ==> t.procs[q] == Proc(UNUSED, 0, None, NoChan, false, 0, false, None)
    requires forall c :: 0 <= c < |t.cpus| ==> t.cpus[c] == None
    ensures Inv(t).holds
  {
    InvMeans(t);
    assert forall x: nat, y: nat :: !Child(t.procs, x, y) && !Maker(t.procs, x, y);
  }
}
