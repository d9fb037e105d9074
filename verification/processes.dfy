/** The process records the scheduler works on: the submitted process, the
    mutable bookkeeping every engine keeps beside it, the BLOCKED pairs, and
    the Gantt segments the batch engines emit. */
module Processes {
  import opened Wrappers
  import opened Seqs

  /** Process identifier as submitted (any label; a string here). */
  type Pid = string

  /** A process as submitted: arrival time, bursts alternating CPU, I/O,
      CPU, ... (CPU at even positions), and the priority the priority
      policies read (lower is more urgent). */
  datatype Proc = Proc(pid: Pid, arrival: int, bursts: seq<int>, priority: Option<int>)

  /** The per-process record of a simulation run: the submitted process,
      the cursor into its bursts, the CPU time still owed to the current
      burst or to the whole job (`remaining`, depending on the engine), the
      CPU time consumed so far, and the response and completion times, each
      unset until assigned. */
  datatype Job = Job(proc: Proc, index: nat, remaining: int, burstTime: int,
                     response: Option<int>, completion: Option<int>)

  /** A BLOCKED process and the time at which it may re-enter READY. */
  datatype IoWait = IoWait(unblock: int, job: Job)

  /** Who holds the CPU during a Gantt segment. */
  datatype Owner = Idle | Ran(pid: Pid)

  /** The CPU interval [start, end) given to `owner`. */
  datatype Segment = Segment(owner: Owner, start: int, end: int)

  /** The record every engine builds for a submitted process: cursor at the
      first burst, no CPU used, nothing assigned yet. */
  function Fresh(p: Proc, remaining: int): Job
  {
    Job(p, 0, remaining, 0, None, None)
  }

  /** The CPU demand of the bursts at positions i, i + 2, i + 4, ...; from
      position 0 this is the sum of every CPU burst, `sum(bursts[::2])`. */
  function CpuFrom(b: seq<int>, i: nat): int
    decreases |b| - i
  {
    if i < |b| then b[i] + CpuFrom(b, i + 2) else 0
  }

  function CpuTotal(b: seq<int>): int
  {
    CpuFrom(b, 0)
  }

  /** The burst list starts and ends on a CPU burst, so the cursor never
      runs past it while a CPU burst is expected. */
  predicate EndsOnCpu(b: seq<int>)
  {
    |b| % 2 == 1
  }

  predicate PositiveCpu(b: seq<int>)
  {
    forall i :: 0 <= i < |b| && i % 2 == 0 ==> b[i] > 0
  }

  predicate NonNegativeIo(b: seq<int>)
  {
    forall i :: 0 <= i < |b| && i % 2 == 1 ==> b[i] >= 0
  }

  /** With positive CPU bursts the demand still ahead is positive exactly
      when a CPU burst is still ahead. */
  lemma {:induction false} CpuFromPositive(b: seq<int>, i: nat)
    requires PositiveCpu(b) && i % 2 == 0
    ensures CpuFrom(b, i) >= 0
    ensures i < |b| <==> CpuFrom(b, i) > 0
    decreases |b| - i
  {
    if i < |b| {
      CpuFromPositive(b, i + 2);
    }
  }

  /** 1 when `q` is `p`, else 0: one term of a count of `p`. */
  function Hit(q: Proc, p: Proc): int
  {
    if q == p then 1 else 0
  }

  /** Fresh records for `ps`, in the same order. */
  function FreshAll(ps: seq<Proc>, remaining: Proc -> int): (r: seq<Job>)
    ensures |r| == |ps|
    ensures forall i :: 0 <= i < |ps| ==> r[i] == Fresh(ps[i], remaining(ps[i]))
  {
    if |ps| == 0 then [] else [Fresh(ps[0], remaining(ps[0]))] + FreshAll(ps[1..], remaining)
  }

  /** The submitted processes behind a list of records. */
  lemma {:induction false} FreshAllBag(ps: seq<Proc>, remaining: Proc -> int)
    ensures BagOf(FreshAll(ps, remaining), (j: Job) => j.proc) == multiset(ps)
  {
    if |ps| > 0 {
      var r := FreshAll(ps, remaining);
      FreshAllBag(ps[1..], remaining);
      assert r[1..] == FreshAll(ps[1..], remaining);
      assert BagOf(r, (j: Job) => j.proc) == multiset{ps[0]} + BagOf(r[1..], (j: Job) => j.proc);
      assert ps == [ps[0]] + ps[1..];
    }
  }

  /** An optional record as a list of zero or one records. */
  function Held(c: Option<Job>): seq<Job>
  {
    if c.Some? then [c.value] else []
  }

  /** The records inside BLOCKED pairs, in order. */
  function Unwrap(ws: seq<IoWait>): (r: seq<Job>)
    ensures |r| == |ws|
    ensures forall i :: 0 <= i < |ws| ==> r[i] == ws[i].job
  {
    if |ws| == 0 then [] else [ws[0].job] + Unwrap(ws[1..])
  }

  /** A record is behind one of the BLOCKED pairs exactly when it is in
      their unwrapping. */
  lemma UnwrapMembers(ws: seq<IoWait>)
    ensures forall j :: j in Unwrap(ws) <==> exists w :: w in ws && w.job == j
  {
    forall j ensures j in Unwrap(ws) <==> exists w :: w in ws && w.job == j {
      if j in Unwrap(ws) {
        var i :| 0 <= i < |ws| && Unwrap(ws)[i] == j;
        assert ws[i] in ws;
      }
      if exists w :: w in ws && w.job == j {
        var w :| w in ws && w.job == j;
        var i :| 0 <= i < |ws| && ws[i] == w;
        assert Unwrap(ws)[i] == j;
      }
    }
  }

  lemma {:induction false} UnwrapSum(ws: seq<IoWait>, w: Job -> int, v: IoWait -> int)
    requires forall x :: v(x) == w(x.job)
    ensures SumOf(Unwrap(ws), w) == SumOf(ws, v)
  {
    if |ws| > 0 {
      UnwrapSum(ws[1..], w, v);
    }
  }


  /** Ticks from `t` until `due`, or 0 once it has come. */
  function Until(due: int, t: int): nat
  {
    if due > t then due - t else 0
  }

  /** The earliest unblock time among BLOCKED pairs. */
  function MinUnblock(ws: seq<IoWait>): (m: int)
    requires |ws| > 0
    ensures forall i :: 0 <= i < |ws| ==> m <= ws[i].unblock
    ensures exists i :: 0 <= i < |ws| && ws[i].unblock == m
  {
    if |ws| == 1 then ws[0].unblock
    else
      var m := MinUnblock(ws[1..]);
      assert forall i :: 1 <= i < |ws| ==> ws[i] == ws[1..][i - 1];
      if ws[0].unblock <= m then ws[0].unblock else m
  }

}
