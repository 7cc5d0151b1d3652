/** pipe.c: a ring of PIPESIZE bytes with counters that wrap. A method is what one process does between
    getting p->lock and letting go of it: from the start, or from where it was woken, until it sleeps
    or returns. */
module Pipes {
  import opened Basics

  const PIPESIZE := 512

  /** How a turn with the lock ends: the call returns, or it sleeps, or it returns -1. */
  datatype Outcome = Done | Asleep | Failed

  function Wrap(x: nat): (r: nat) {
    x % WORDMAX
  }

  /** The counters are equal, or PIPESIZE apart, exactly if the counts are: wrapping loses nothing. */
  lemma CountersTell(r: nat, w: nat)
    requires r <= w <= r + PIPESIZE
    ensures Wrap(r) == Wrap(w) <==> r == w
    ensures Wrap(w) == Wrap(Wrap(r) + PIPESIZE) <==> w == r + PIPESIZE
  {
    var q := r / WORDMAX;
    assert r == q * WORDMAX + r % WORDMAX;
    Near(q, r % WORDMAX, w - r);
    Near(q, r % WORDMAX, PIPESIZE);
  }

  lemma Near(q: nat, m: nat, d: nat)
    requires m < WORDMAX && d < WORDMAX
    ensures (q * WORDMAX + m + d) % WORDMAX == if m + d < WORDMAX then m + d else m + d - WORDMAX
  {
    if m + d < WORDMAX {
      Split(q, m + d);
    } else {
      Split(q + 1, m + d - WORDMAX);
    }
  }

  lemma Split(q: nat, m: nat)
    requires m < WORDMAX
    ensures (q * WORDMAX + m) % WORDMAX == m
  {
  }

  /** PIPESIZE divides 2^32, so a wrapped counter names the same place in the ring. */
  lemma SamePlace(x: nat)
    ensures Wrap(x) % PIPESIZE == x % PIPESIZE
  {
  }

  lemma Wraps(x: nat)
    ensures Wrap(Wrap(x) + 1) == Wrap(x + 1)
  {
  }

  /** Bytes less than PIPESIZE apart are at different places. */
  lemma PlacesApart(i: nat, j: nat)
    requires i < j < i + PIPESIZE
    ensures i % PIPESIZE != j % PIPESIZE
  {
  }

  /** The ring holds the accepted bytes that have not been delivered. */
  ghost predicate Holds(data: seq<Byte>, accepted: seq<Byte>, delivered: seq<Byte>) {
    && |data| == PIPESIZE && delivered <= accepted && |accepted| <= |delivered| + PIPESIZE
    && forall k :: |delivered| <= k < |accepted| ==> data[k % PIPESIZE] == accepted[k]
  }

  lemma PutHolds(data: seq<Byte>, accepted: seq<Byte>, delivered: seq<Byte>, x: Byte)
    requires Holds(data, accepted, delivered) && |accepted| < |delivered| + PIPESIZE
    ensures Holds(data[|accepted| % PIPESIZE := x], accepted + [x], delivered)
  {
    forall k | |delivered| <= k < |accepted| ensures k % PIPESIZE != |accepted| % PIPESIZE {
      PlacesApart(k, |accepted|);
    }
  }

  lemma GetHolds(data: seq<Byte>, accepted: seq<Byte>, delivered: seq<Byte>)
    requires Holds(data, accepted, delivered) && |delivered| < |accepted|
    ensures Holds(data, accepted, delivered + [data[|delivered| % PIPESIZE]])
  {
  }

  class Pipe {
    const data: array<Byte>
    var nread: nat
    var nwrite: nat
    var readopen: bool
    var writeopen: bool
    var readers: set<nat>          // processes asleep on &p->nread
    var writers: set<nat>          // processes asleep on &p->nwrite

    ghost var accepted: seq<Byte>  // every byte pipewrite has put in
    ghost var delivered: seq<Byte> // every byte piperead has taken out

    constructor ()
      ensures Valid() && Awake() && readopen && writeopen && accepted == [] && delivered == []
      ensures fresh(data) && readers == {} && writers == {}
    {
      data := new Byte[PIPESIZE](_ => 0);
      nread, nwrite, readopen, writeopen, readers, writers := 0, 0, true, true, {}, {};
      accepted, delivered := [], [];
    }

    /** The bytes delivered are a prefix of those accepted, with at most PIPESIZE in between. */
    ghost predicate Valid()
      reads this, data
    {
      && data.Length == PIPESIZE && Holds(data[..], accepted, delivered)
      && nread == Wrap(|delivered|) && nwrite == Wrap(|accepted|)
    }

    /** A sleeping reader means an empty pipe whose write end is open, a sleeping writer a full pipe
        whose read end is open. */
    ghost predicate Awake()
      reads this
    {
      && (readers != {} ==> |accepted| == |delivered| && writeopen)
      && (writers != {} ==> |accepted| == |delivered| + PIPESIZE && readopen)
    }

    method Put(x: Byte)
      requires Valid() && |accepted| < |delivered| + PIPESIZE
      modifies `nwrite, `accepted, data
      ensures Valid() && accepted == old(accepted) + [x]
    {
      PutHolds(data[..], accepted, delivered, x);
      SamePlace(|accepted|);
      Wraps(|accepted|);
      ghost var d := data[..];
      data[nwrite % PIPESIZE] := x;
      assert data[..] == d[|accepted| % PIPESIZE := x];
      nwrite := (nwrite + 1) % WORDMAX;
      accepted := accepted + [x];
    }

    /** pipewrite from addr[start] on. It sleeps or fails only when the pipe is full, and fails exactly if
        the bytes do not all fit and the read end is closed or the writer has been killed. A sleeping
        reader is left asleep beside a full pipe exactly if such a failing call has more than PIPESIZE bytes. */
    method Write(pid: nat, addr: seq<Byte>, start: nat, killed: bool) returns (out: Outcome, i: nat)
      requires Valid() && start <= |addr|
      modifies `nwrite, `accepted, `readers, `writers, data
      ensures Valid() && start <= i <= |addr| && accepted == old(accepted) + addr[start..i]
      ensures out == Done <==> i == |addr|
      ensures out == Done ==> readers == {} && writers == old(writers)
      ensures out == Asleep ==> |accepted| == |delivered| + PIPESIZE && readopen && !killed && readers == {} && writers == old(writers) + {pid}
      ensures out == Failed ==> |accepted| == |delivered| + PIPESIZE && (!readopen || killed) && readers == old(readers) && writers == old(writers)
      ensures out == Failed <==> (!readopen || killed) && |addr| - start > PIPESIZE - (|old(accepted)| - |delivered|)
      ensures old(Awake()) ==> (Awake() <==> !(old(readers) != {} && |addr| - start > PIPESIZE && (!readopen || killed)))
    {
      i := start;
      while i < |addr|
        invariant Valid() && start <= i <= |addr| && accepted == old(accepted) + addr[start..i]
        invariant readers == old(readers) && writers == old(writers)
      {
        CountersTell(|delivered|, |accepted|);
        if nwrite == (nread + PIPESIZE) % WORDMAX {
          if !readopen || killed {
            out := Failed;
            return;
          }
          readers := {};
          writers := writers + {pid};
          out := Asleep;
          return;
        }
        Put(addr[i]);
        i := i + 1;
      }
      readers := {};
      out := Done;
    }

    method Get() returns (x: Byte)
      requires Valid() && |delivered| < |accepted|
      modifies `nread, `delivered
      ensures Valid() && delivered == old(delivered) + [x] && x == accepted[|old(delivered)|]
    {
      GetHolds(data[..], accepted, delivered);
      SamePlace(|delivered|);
      Wraps(|delivered|);
      x := data[nread % PIPESIZE];
      nread := (nread + 1) % WORDMAX;
      delivered := delivered + [x];
    }

    /** piperead for up to n bytes. It sleeps or fails only when the pipe is empty and its write end open;
        otherwise it takes as many of the oldest bytes as there are and as fit. */
    method Read(pid: nat, n: nat, killed: bool) returns (out: Outcome, got: seq<Byte>)
      requires Valid()
      modifies `nread, `delivered, `readers, `writers
      ensures Valid() && delivered == old(delivered) + got
      ensures out == Done <==> !(|accepted| == |old(delivered)| && writeopen)
      ensures out == Done ==> |got| == (if n < |accepted| - |old(delivered)| then n else |accepted| - |old(delivered)|)
      ensures out == Done ==> readers == old(readers) && writers == {}
      ensures out != Done ==> got == [] && out == (if killed then Failed else Asleep) && writers == old(writers)
      ensures out != Done ==> readers == if killed then old(readers) else old(readers) + {pid}
      ensures old(Awake()) ==> Awake()
    {
      got := [];
      CountersTell(|delivered|, |accepted|);
      if nread == nwrite && writeopen {
        if killed {
          out := Failed;
        } else {
          readers := readers + {pid};
          out := Asleep;
        }
        return;
      }
      while |got| < n
        invariant Valid() && delivered == old(delivered) + got && |got| <= n
        invariant readers == old(readers) && writers == old(writers)
      {
        CountersTell(|delivered|, |accepted|);
        if nread == nwrite {
          break;
        }
        var x := Get();
        got := got + [x];
      }
      writers := {};
      out := Done;
    }

    /** pipeclose; the pipe is freed when both ends are closed. */
    method Close(writable: bool) returns (freed: bool)
      requires Valid()
      modifies `readopen, `writeopen, `readers, `writers
      ensures Valid() && freed == (!readopen && !writeopen)
      ensures if writable then !writeopen && readopen == old(readopen) && readers == {} && writers == old(writers)
              else !readopen && writeopen == old(writeopen) && writers == {} && readers == old(readers)
      ensures old(Awake()) ==> Awake()
    {
      if writable {
        writeopen := false;
        readers := {};
      } else {
        readopen := false;
        writers := {};
      }
      freed := !readopen && !writeopen;
    }

    /** kill: a sleeping process becomes runnable. */
    method Kill(pid: nat)
      requires Valid()
      modifies `readers, `writers
      ensures Valid() && readers == old(readers) - {pid} && writers == old(writers) - {pid}
      ensures old(Awake()) ==> Awake()
    {
      readers := readers - {pid};
      writers := writers - {pid};
    }
  }

  /** The early exit can strand a reader: it sleeps on although the pipe is full. */
  method Stranded() returns (p: Pipe)
    ensures fresh(p) && p.Valid() && p.readers == {1} && |p.accepted| == |p.delivered| + PIPESIZE
  {
    p := new Pipe();
    var out, got := p.Read(1, 1, false);
    var bytes: seq<Byte> := seq(PIPESIZE + 1, _ => 0);
    var i;
    out, i := p.Write(2, bytes, 0, true);
  }
}
