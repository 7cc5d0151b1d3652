/** The file system above the log: after a crash at any point, recovery leaves a disk that holds a sound file
    system again. */
module FsRecovery {
  import opened Basics
  import opened Words
  import opened Geometry
  import opened Layout
  import opened Ownership
  import opened FsSteps
  import opened FileSystem
  import L = LogProtocol
  import S = LogSafety
  import T = LogTransaction

  /** The blocks the file system looks at: block 0 and the groups. The log has its own between them. */
  ghost predicate Seen(sb: Super, b: nat) {
    b == 0 || sb.Managed(b)
  }

  /** The disk d and the home blocks agree on what the file system looks at. */
  ghost predicate Agrees(sb: Super, d: seq<Block>, home: L.Home<Block>) {
    forall b: nat :: b < |d| && Seen(sb, b) ==> b in home && home[b] == d[b]
  }

  /** The home blocks hold a sound file system, with the inodes in mem cached. */
  ghost predicate Sane(sb: Super, home: L.Home<Block>, mem: map<nat, Inode>) {
    exists d, f: Files, owner :: Shows(sb, d, mem, f) && f.mem == mem && Ok(sb, f, owner) && Agrees(sb, d, home)
  }

  // ----- a crash forgets the cached inodes -----

  lemma {:induction false} ForgetAll(sb: Super, f: Files, owner: map<nat, Slot>) returns (own: map<nat, Slot>)
    requires Ok(sb, f, owner)
    ensures Ok(sb, Files(f.disk, map[]), own)
    decreases |f.mem|
  {
    if f.mem == map[] {
      own := owner;
      assert f == Files(f.disk, map[]);
    } else {
      var n :| n in f.mem;
      ForgetOk(sb, f, owner, n);
      assert |(f.mem - {n}).Keys| < |f.mem.Keys| by {
        assert f.mem.Keys == (f.mem - {n}).Keys + {n};
      }
      own := ForgetAll(sb, Forget(f, n), Kept(f, owner, n));
    }
  }

  /** What is sound with inodes cached is sound without them. */
  lemma SaneWithout(sb: Super, home: L.Home<Block>, mem: map<nat, Inode>)
    requires Sane(sb, home, mem)
    ensures Sane(sb, home, map[])
  {
    var d, f: Files, owner :| Shows(sb, d, mem, f) && f.mem == mem && Ok(sb, f, owner) && Agrees(sb, d, home);
    var own := ForgetAll(sb, f, owner);
    ShowsMem(sb, d, mem, f, map[]);
    assert Shows(sb, d, map[], Files(f.disk, map[]));
  }

  // ----- recovery -----

  /** The group about to be committed takes a sound file system to a sound one. */
  ghost predicate KeepsSane(sb: Super, s: L.State<Block>) {
    Sane(sb, s.hist.Target(), map[]) ==> exists mem :: Sane(sb, S.Now(s), mem)
  }

  lemma {:induction false} TargetSane(sb: Super, s: L.State<Block>, a: L.Action<Block>)
    requires S.CountInv(s) && L.Enabled(s, a) && Sane(sb, s.hist.Target(), map[])
    requires a.Advance? && s.phase.WritingHead? ==> KeepsSane(sb, s)
    ensures Sane(sb, L.After(s, a).hist.Target(), map[])
  {
    S.TargetStep(s, a);
    if a.Advance? && s.phase.WritingHead? {
      var mem :| Sane(sb, S.Now(s), mem);
      SaneWithout(sb, S.Now(s), mem);
    }
  }

  lemma {:induction false} RunSane(sb: Super, image: L.Disk<Block>, acts: seq<L.Action<Block>>)
    requires image.head == [] && L.Runnable(L.Boot(image), acts) && Sane(sb, image.home, map[])
    requires forall k :: 0 <= k < |acts| && L.Runnable(L.Boot(image), acts[..k]) && L.Exec(L.Boot(image), acts[..k]).phase.WritingHead? ==>
      KeepsSane(sb, L.Exec(L.Boot(image), acts[..k]))
    ensures Sane(sb, L.Exec(L.Boot(image), acts).hist.Target(), map[])
    decreases |acts|
  {
    if acts != [] {
      var init := acts[..|acts| - 1];
      assert forall k :: 0 <= k < |init| ==> init[..k] == acts[..k];
      RunSane(sb, image, init);
      S.RunKeepsInv(image, init);
      TargetSane(sb, L.Exec(L.Boot(image), init), acts[|acts| - 1]);
    }
  }

  /** On an image with a sound file system, if every group that gets as far as its header write takes a sound
      file system to a sound one, then what recovery leaves is sound, wherever in the run the machine crashed
      and however often. Nothing is asked of the states after a crash. */
  lemma RecoveredSane(sb: Super, image: L.Disk<Block>, acts: seq<L.Action<Block>>)
    requires image.head == [] && L.Runnable(L.Boot(image), acts) && Sane(sb, image.home, map[])
    requires forall k :: 0 <= k < |acts| && L.Runnable(L.Boot(image), acts[..k]) && L.Exec(L.Boot(image), acts[..k]).phase.WritingHead? ==>
      KeepsSane(sb, L.Exec(L.Boot(image), acts[..k]))
    ensures var s := L.Exec(L.Boot(image), acts);
      Sane(sb, s.hist.Target(), map[]) && (s.phase.Idle? ==> Sane(sb, s.disk.home, map[]))
  {
    RunSane(sb, image, acts);
    S.RunKeepsInv(image, acts);
  }

  // ----- an operation on the volume and what it logs -----

  /** The last write to block b in ws is of v. */
  ghost predicate Ends(ws: seq<L.Write<Block>>, b: nat, v: Block) {
    exists i :: 0 <= i < |ws| && ws[i].blockno == b && ws[i].data == v && forall j :: i < j < |ws| ==> ws[j].blockno != b
  }

  lemma {:induction false} ApplyEnds(home: L.Home<Block>, ws: seq<L.Write<Block>>, b: nat, v: Block)
    requires Ends(ws, b, v)
    ensures b in L.Apply(home, ws) && L.Apply(home, ws)[b] == v
  {
    var k := |ws| - 1;
    var i :| 0 <= i < |ws| && ws[i].blockno == b && ws[i].data == v && forall j :: i < j < |ws| ==> ws[j].blockno != b;
    if i < k {
      assert ws[..k][i] == ws[i];
      ApplyEnds(home, ws[..k], b, v);
    }
  }

  lemma {:induction false} ApplyElsewhere(home: L.Home<Block>, ws: seq<L.Write<Block>>, b: nat)
    requires forall i :: 0 <= i < |ws| ==> ws[i].blockno != b
    ensures b in L.Apply(home, ws) <==> b in home
    ensures b in home ==> L.Apply(home, ws)[b] == home[b]
  {
    if ws != [] {
      ApplyElsewhere(home, ws[..|ws| - 1], b);
    }
  }

  /** An operation that logs every block it changes, last with its final contents, changes the home blocks
      as it changes the disk. */
  lemma OperationLogged(sb: Super, d0: seq<Block>, d: seq<Block>, log: set<nat>, home: L.Home<Block>, ws: seq<L.Write<Block>>)
    requires Agrees(sb, d0, home) && Confined(d0, d, {}, log).holds
    requires forall i :: 0 <= i < |ws| ==> ws[i].blockno in log
    requires forall b :: b in log && b < |d| ==> Ends(ws, b, d[b])
    ensures Agrees(sb, d, L.Apply(home, ws))
  {
    ConfinedMeans(d0, d, {}, log);
    forall b: nat | b < |d| && Seen(sb, b) ensures b in L.Apply(home, ws) && L.Apply(home, ws)[b] == d[b] {
      if b in log {
        ApplyEnds(home, ws, b, d[b]);
      } else {
        ApplyElsewhere(home, ws, b);
      }
    }
  }

  // ----- a call on its own in the log -----

  /** ws are log_writes of op that leave the logged blocks with the contents d has for them. */
  ghost predicate Logs(ws: seq<L.Write<Block>>, op: nat, log: set<nat>, d: seq<Block>) {
    T.Within(ws, op, log) && forall b :: b in log && b < |d| ==> Ends(ws, b, d[b])
  }

  /** The kernel has home as its file system: disk d, meaning f, and the inodes in mem cached. */
  ghost predicate Means(sb: Super, d: seq<Block>, mem: map<nat, Inode>, f: Files, owner: map<nat, Slot>) {
    Shows(sb, d, mem, f) && f.mem == mem && Ok(sb, f, owner)
  }

  lemma MeansSane(sb: Super, d: seq<Block>, mem: map<nat, Inode>, f: Files, owner: map<nat, Slot>, home: L.Home<Block>)
    requires Means(sb, d, mem, f, owner) && Agrees(sb, d, home)
    ensures Sane(sb, home, map[])
  {
    SaneWithout(sb, home, mem);
  }

  /** A group that consists of the log_writes of one call keeps the file system sound. */
  lemma CallKeepsSane(sb: Super, d0: seq<Block>, d: seq<Block>, mem: map<nat, Inode>, f: Files, owner: map<nat, Slot>, log: set<nat>, op: nat, s: L.State<Block>)
    requires Means(sb, d, mem, f, owner) && Confined(d0, d, {}, log).holds
    requires Agrees(sb, d0, s.hist.Target()) && Logs(s.hist.pending, op, log, d)
    ensures KeepsSane(sb, s)
  {
    OperationLogged(sb, d0, d, log, s.hist.Target(), s.hist.pending);
    MeansSane(sb, d, mem, f, owner, S.Now(s));
  }

  /** What recovery restores is d0 or, once op is committed, d; and it is a sound file system. */
  ghost predicate EitherOne(sb: Super, d0: seq<Block>, d: seq<Block>, op: nat, s: L.State<Block>) {
    Agrees(sb, if op in s.hist.done then d else d0, s.hist.Target()) && Sane(sb, s.hist.Target(), map[])
  }

  /** A call that takes d0 to d and is alone in the log. */
  lemma CallOrNothing(sb: Super, d0: seq<Block>, mem0: map<nat, Inode>, f0: Files, owner0: map<nat, Slot>,
                      d: seq<Block>, mem: map<nat, Inode>, f: Files, owner: map<nat, Slot>, log: set<nat>,
                      image: L.Disk<Block>, acts: seq<L.Action<Block>>, op: nat, ws: seq<L.Write<Block>>, more: seq<L.Action<Block>>)
    requires Means(sb, d0, mem0, f0, owner0) && Means(sb, d, mem, f, owner) && Confined(d0, d, {}, log).holds
    requires image.head == [] && L.Runnable(L.Boot(image), acts) && T.Calm(L.Exec(L.Boot(image), acts), op)
    requires Agrees(sb, d0, L.Exec(L.Boot(image), acts).disk.home) && Logs(ws, op, log, d)
    requires L.Runnable(L.Boot(image), acts + more) && T.Alone(op, ws, more)
    ensures EitherOne(sb, d0, d, op, L.Exec(L.Boot(image), acts + more))
  {
    S.RunKeepsInv(image, acts);
    var home := L.Exec(L.Boot(image), acts).hist.Target();
    T.AllOrNothing(image, acts, op, ws, more);
    OperationLogged(sb, d0, d, log, home, ws);
    MeansSane(sb, d0, mem0, f0, owner0, home);
    MeansSane(sb, d, mem, f, owner, L.Apply(home, ws));
  }

  /** One chunk of filewrite, alone in the log of any run that has come to rest. Whatever order and however often
      it logs its blocks, and wherever the machine crashes and recovers on the way, recovery leaves a sound file
      system: the one before the chunk or, once the chunk is committed, the one after it. */
  method ChunkOrNothing(v: Volume, n: nat, piece: seq<Byte>, off: Word, ghost image: L.Disk<Block>, ghost acts: seq<L.Action<Block>>, ghost op: nat)
    returns (r: Io, ghost t: nat)
    requires v.Valid() && !v.open && n in v.mem && |piece| <= CHUNK && v.mem[n].typ != T_DEV && v.f.IsInode(n) && HoleFree(v.f, n)
    requires image.head == [] && L.Runnable(L.Boot(image), acts) && T.Calm(L.Exec(L.Boot(image), acts), op)
    requires Agrees(v.sb, v.disk, L.Exec(L.Boot(image), acts).disk.home)
    modifies v
    ensures v.Valid() && n in v.mem && |v.logged| <= MAXOPBLOCKS
    ensures r == if off > old(v.mem[n]).size || off + |piece| > MAXBYTES then Refused else Moved(|piece|)
    ensures r.Moved? ==> WrittenSync(old(v.f), v.f, n, off, piece, t).holds
    ensures forall ws, more :: Logs(ws, op, v.logged, v.disk) && T.Alone(op, ws, more) && L.Runnable(L.Boot(image), acts + more) ==>
      EitherOne(v.sb, old(v.disk), v.disk, op, L.Exec(L.Boot(image), acts + more))
  {
    ghost var d0, mem0, f0, owner0 := v.disk, v.mem, v.f, v.owner;
    r, t := v.WriteChunk(n, piece, off);
    forall ws, more | Logs(ws, op, v.logged, v.disk) && T.Alone(op, ws, more) && L.Runnable(L.Boot(image), acts + more)
      ensures EitherOne(v.sb, d0, v.disk, op, L.Exec(L.Boot(image), acts + more))
    {
      CallOrNothing(v.sb, d0, mem0, f0, owner0, v.disk, v.mem, v.f, v.owner, v.logged, image, acts, op, ws, more);
    }
  }
}
