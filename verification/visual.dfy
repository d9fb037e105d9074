/** The tick-by-tick engine shared by `fcfs_visualization_view`,
    `sjf_visualization_view`, `ljf_visualization_view` and
    `priority_visualization_view`. The clock moves by exactly one unit per
    iteration and every iteration records the queue transitions of its
    tick, possibly none. A process keeps the CPU for a whole CPU burst; when
    the burst is used up it moves to BLOCKED for the I/O burst that follows,
    or completes. The priority view completes a process after its first CPU
    burst, whatever follows it. */
module Visual {
  import opened Wrappers
  import opened Seqs
  import opened Processes
  import opened Policies
  import opened ReadyQueue
  import opened ArrivalOrder
  import opened Timeline

  /** The loop's variables: the clock, the heap tie counter, NEW, READY,
      BLOCKED, the running process, the events of the tick in progress and
      the event lists of the ticks already closed (tick `t` at position `t`). */
  datatype State = State(time: int, tie: int, incoming: seq<Job>, ready: seq<Entry>,
                         blocked: seq<IoWait>, running: Option<Job>,
                         now: seq<Event>, timeline: seq<seq<Event>>)

  /** What the loop needs of a submitted process: an arrival the clock
      reaches (it starts at 0 and admission compares with `==`), a burst
      list that ends on a CPU burst, CPU bursts that count down to exactly
      zero, I/O bursts that put the unblock time after the current tick,
      and a priority under the priority policy. */
  predicate Runnable(pol: Policy, p: Proc)
  {
    && p.arrival >= 0 && EndsOnCpu(p.bursts) && PositiveCpu(p.bursts) && NonNegativeIo(p.bursts)
    && (UsesPriority(pol) ==> p.priority.Some?)
  }

  /** A record waiting for the CPU: its cursor is on a CPU burst. */
  predicate Waiting(pol: Policy, j: Job)
  {
    Runnable(pol, j.proc) && j.index % 2 == 0 && j.index < |j.proc.bursts|
  }

  predicate AllWaiting(pol: Policy, q: seq<Entry>)
  {
    forall i :: 0 <= i < |q| ==> Waiting(pol, q[i].job)
  }

  /** The invariant of the queues, which does not mention the clock: the
      running record still has part of its burst to run. */
  predicate Queues(pol: Policy, s: State)
  {
    && NonPreemptive(pol)
    && (forall i :: 0 <= i < |s.incoming| ==> Waiting(pol, s.incoming[i]))
    && Ordered(pol, s.ready, s.tie) && AllWaiting(pol, s.ready)
    && (forall i :: 0 <= i < |s.blocked| ==> Waiting(pol, s.blocked[i].job))
    && (s.running.Some? ==> Waiting(pol, s.running.value) && s.running.value.remaining > 0)
  }

  /** Nothing in NEW or BLOCKED is due before tick `t`. */
  predicate NotBefore(s: State, t: int)
  {
    && (forall i :: 0 <= i < |s.incoming| ==> s.incoming[i].proc.arrival >= t)
    && (forall i :: 0 <= i < |s.blocked| ==> s.blocked[i].unblock >= t)
  }

  /** The invariant at the top of the loop: one event list per tick before
      `time`, none in progress, and nothing in NEW or BLOCKED overdue. */
  predicate Valid(pol: Policy, s: State)
  {
    Queues(pol, s) && NotBefore(s, s.time) && |s.timeline| == s.time && s.now == []
  }

  /** The loop condition `new or ready or blocked or running`. */
  predicate Active(s: State)
  {
    |s.incoming| > 0 || |s.ready| > 0 || |s.blocked| > 0 || s.running.Some?
  }

  /** How many records of process `x` are in NEW, READY, BLOCKED or on the
      CPU. */
  function Census(s: State, x: Pid): int
  {
    SumOf(s.incoming, (j: Job) => Tally(j, x)) + SumOf(s.ready, (e: Entry) => Tally(e.job, x))
      + SumOf(s.blocked, (w: IoWait) => Tally(w.job, x)) + SumOf(Held(s.running), (j: Job) => Tally(j, x))
  }

  /** CPU units a waiting record still has to run, from its cursor on. */
  function Owed(j: Job): int
  {
    CpuFrom(j.proc.bursts, j.index)
  }

  /** CPU units the running record still has to run: the rest of its
      burst and the CPU bursts after it. */
  function OwedRunning(j: Job): int
  {
    j.remaining + CpuFrom(j.proc.bursts, j.index + 2)
  }

  /** CPU units still to run, over every queue and the CPU. */
  function Units(s: State): int
  {
    SumOf(s.incoming, Owed) + SumOf(s.ready, (e: Entry) => Owed(e.job))
      + SumOf(s.blocked, (w: IoWait) => Owed(w.job)) + SumOf(Held(s.running), OwedRunning)
  }

  /** Ticks from `t` until each arrival in `incoming` and each unblock in
      `blocked`, summed. */
  function GapAt(incoming: seq<Job>, blocked: seq<IoWait>, t: int): nat
  {
    SumNonNegative(incoming, (j: Job) => Until(j.proc.arrival, t));
    SumNonNegative(blocked, (w: IoWait) => Until(w.unblock, t));
    SumOf(incoming, (j: Job) => Until(j.proc.arrival, t)) + SumOf(blocked, (w: IoWait) => Until(w.unblock, t))
  }

  /** Ticks until each NEW arrival and each BLOCKED unblock, summed. */
  function Gap(s: State): nat
  {
    GapAt(s.incoming, s.blocked, s.time)
  }

  lemma UnitsNonNegative(pol: Policy, s: State)
    requires Queues(pol, s)
    ensures Units(s) >= 0
  {
    forall i | 0 <= i < |s.incoming| ensures Owed(s.incoming[i]) >= 0 {
      CpuFromPositive(s.incoming[i].proc.bursts, s.incoming[i].index);
    }
    forall i | 0 <= i < |s.ready| ensures Owed(s.ready[i].job) >= 0 {
      CpuFromPositive(s.ready[i].job.proc.bursts, s.ready[i].job.index);
    }
    forall i | 0 <= i < |s.blocked| ensures Owed(s.blocked[i].job) >= 0 {
      CpuFromPositive(s.blocked[i].job.proc.bursts, s.blocked[i].job.index);
    }
    SumNonNegative(s.incoming, Owed);
    SumNonNegative(s.ready, (e: Entry) => Owed(e.job));
    SumNonNegative(s.blocked, (w: IoWait) => Owed(w.job));
    if s.running.Some? {
      var j := s.running.value;
      CpuFromPositive(j.proc.bursts, j.index + 2);
    }
    SumNonNegative(Held(s.running), OwedRunning);
  }

  // ---------------------------------------------------------------------
  // The phases of one tick

  /** FCFS alone opens tick 0 by reporting every NEW process, in NEW
      order, as placed in NEW. */
  function Open(pol: Policy, s: State): State
  {
    if pol.FCFS? && s.time == 0 then s.(now := s.now + Moves(s.incoming, None, NEW)) else s
  }

  /** The BLOCKED records whose unblock time is this tick, in BLOCKED order. */
  function Woken(s: State): seq<Job>
  {
    Unwrap(Filter(s.blocked, (w: IoWait) => w.unblock == s.time))
  }

  /** The NEW records arriving at this tick, in NEW order. */
  function Arrived(s: State): seq<Job>
  {
    Filter(s.incoming, (j: Job) => j.proc.arrival == s.time)
  }

  /** BLOCKED -> READY for every pair due at this tick, then NEW -> READY
      for every process arriving at it, each pushed with the next tie and
      reported in that order. */
  function Admit(pol: Policy, s: State): State
  {
    var woken := Woken(s);
    var arrived := Arrived(s);
    s.(tie := s.tie + |woken| + |arrived|,
       incoming := Filter(s.incoming, (j: Job) => j.proc.arrival != s.time),
       ready := s.ready + Entries(pol, s.tie, woken) + Entries(pol, s.tie + |woken|, arrived),
       blocked := Filter(s.blocked, (w: IoWait) => w.unblock != s.time),
       now := s.now + Moves(woken, Some(BLOCKED), READY) + Moves(arrived, Some(NEW), READY))
  }

  /** READY -> RUNNING when the CPU is free and READY is not: the policy's
      entry leaves READY and is given its current CPU burst to run. */
  function Pick(pol: Policy, a: State): State
    requires AllWaiting(pol, a.ready)
  {
    if a.running.Some? || |a.ready| == 0 then a
    else
      var k := Selected(pol, a.ready);
      var j := a.ready[k].job;
      a.(ready := Remove(a.ready, k), running := Some(j.(remaining := j.proc.bursts[j.index])),
         now := a.now + [Event(j.proc.pid, Some(READY), RUNNING)])
  }

  /** One unit of CPU for the running process. When its burst is used up it
      leaves the CPU: RUNNING -> BLOCKED with the cursor on the next CPU
      burst and unblock time `time + io + 1` when an I/O burst follows
      (never under the priority policy), RUNNING -> COMPLETED otherwise. */
  function Execute(pol: Policy, a: State): State
  {
    match a.running
    case None => a
    case Some(j) =>
      if j.remaining - 1 != 0 then a.(running := Some(j.(remaining := j.remaining - 1)))
      else if !pol.Priority? && j.index + 1 < |j.proc.bursts| then
        var io := j.proc.bursts[j.index + 1];
        a.(running := None,
           blocked := a.blocked + [IoWait(a.time + io + 1, j.(index := j.index + 2, remaining := 0))],
           now := a.now + [Event(j.proc.pid, Some(RUNNING), BLOCKED)])
      else
        a.(running := None, now := a.now + [Event(j.proc.pid, Some(RUNNING), COMPLETED)])
  }

  /** The tick's events are recorded under it and the clock moves on. */
  function Close(a: State): State
  {
    a.(time := a.time + 1, timeline := a.timeline + [a.now], now := [])
  }

  /** The state just before the CPU runs in the tick that starts at `s`. */
  function Picked(pol: Policy, s: State): State
    requires Valid(pol, s)
  {
    AdmitQueues(pol, Open(pol, s));
    Pick(pol, Admit(pol, Open(pol, s)))
  }

  /** One iteration of the loop. */
  function Tick(pol: Policy, s: State): State
    requires Valid(pol, s)
  {
    Close(Execute(pol, Picked(pol, s)))
  }

  // ---------------------------------------------------------------------
  // Opening

  /** Opening reports nobody as COMPLETED and touches no queue. */
  lemma OpenKeeps(pol: Policy, s: State)
    ensures var o := Open(pol, s);
      && o.time == s.time && o.tie == s.tie && o.incoming == s.incoming && o.ready == s.ready
      && o.blocked == s.blocked && o.running == s.running && o.timeline == s.timeline
      && Completions(o.now) == Completions(s.now)
      && Units(o) == Units(s) && Gap(o) == Gap(s) && Active(o) == Active(s)
  {
    if pol.FCFS? && s.time == 0 {
      MovesEnterOnly(s.incoming, None, NEW, COMPLETED);
      EnteredAppend(s.now, Moves(s.incoming, None, NEW), COMPLETED);
    }
  }

  // ---------------------------------------------------------------------
  // Admission

  /** A NEW record is admitted at a tick exactly when it arrives at that
      tick, and a BLOCKED pair exactly when its unblock time is that tick;
      everything else stays where it is. */
  lemma AdmitExactlyDue(pol: Policy, s: State)
    ensures var r := Admit(pol, s);
      && (forall i :: 0 <= i < |s.incoming| ==>
            (s.incoming[i] in r.incoming <==> s.incoming[i].proc.arrival != s.time))
      && (forall i :: 0 <= i < |s.blocked| ==>
            (s.blocked[i] in r.blocked <==> s.blocked[i].unblock != s.time))
  {
    var r := Admit(pol, s);
    forall i | 0 <= i < |s.incoming|
      ensures s.incoming[i] in r.incoming <==> s.incoming[i].proc.arrival != s.time
    {
      if s.incoming[i].proc.arrival != s.time {
        FilterKeeps(s.incoming, (j: Job) => j.proc.arrival != s.time, i);
      }
    }
    forall i | 0 <= i < |s.blocked|
      ensures s.blocked[i] in r.blocked <==> s.blocked[i].unblock != s.time
    {
      if s.blocked[i].unblock != s.time {
        FilterKeeps(s.blocked, (w: IoWait) => w.unblock != s.time, i);
      }
    }
  }

  /** Where admission puts the woken and the arriving records: behind what
      READY held, woken first, with consecutive ties. */
  lemma AdmitReady(pol: Policy, s: State)
    ensures var r := Admit(pol, s);
      && r.ready == s.ready + Entries(pol, s.tie, Woken(s)) + Entries(pol, s.tie + |Woken(s)|, Arrived(s))
      && r.tie == s.tie + |Woken(s)| + |Arrived(s)|
  {
  }

  /** Admission puts into READY exactly the records due at this tick: the
      entries already waiting keep their places in front, and behind them
      come every BLOCKED record whose unblock time is this tick and every
      NEW record arriving at it, and nothing else, one entry for each record
      taken out of BLOCKED or NEW, each keyed by the policy with a tie drawn
      after every earlier one. */
  lemma AdmitEnqueues(pol: Policy, s: State)
    ensures var r := Admit(pol, s);
      && |s.ready| <= |r.ready| && r.ready[..|s.ready|] == s.ready
      && var added := r.ready[|s.ready|..];
      && (forall j :: j in Jobs(added) <==>
            (exists w :: w in s.blocked && w.unblock == s.time && w.job == j)
            || (j in s.incoming && j.proc.arrival == s.time))
      && |added| == (|s.blocked| - |r.blocked|) + (|s.incoming| - |r.incoming|)
      && (forall k :: 0 <= k < |added| ==> added[k].key == Key(pol, added[k].job) && s.tie <= added[k].tie < r.tie)
  {
    var r := Admit(pol, s);
    AdmitReady(pol, s);
    PushTwiceAdds(pol, s.ready, s.tie, Woken(s), Arrived(s), r.ready);
    DueMembers(s, Jobs(r.ready[|s.ready|..]));
    DueCount(pol, s);
  }

  /** The tick reports one move into READY per entry admission adds, in the
      order added, with the records' pids. */
  lemma AdmitAnnounces(pol: Policy, s: State)
    ensures var r := Admit(pol, s);
      && |s.ready| <= |r.ready|
      && var added := r.ready[|s.ready|..];
      && |r.now| == |s.now| + |added| && r.now[..|s.now|] == s.now
      && (forall k :: 0 <= k < |added| ==>
            r.now[|s.now| + k].pid == added[k].job.proc.pid && r.now[|s.now| + k].to == READY)
  {
    var r := Admit(pol, s);
    AdmitReady(pol, s);
    PushTwiceAdds(pol, s.ready, s.tie, Woken(s), Arrived(s), r.ready);
    AdmitReports(s, r.ready[|s.ready|..], r.now);
  }

  /** The records due at this tick, described without the filters. */
  lemma DueMembers(s: State, js: seq<Job>)
    requires js == Woken(s) + Arrived(s)
    ensures forall j :: j in js <==>
      (exists w :: w in s.blocked && w.unblock == s.time && w.job == j)
      || (j in s.incoming && j.proc.arrival == s.time)
  {
    FilterMembers(s.blocked, (w: IoWait) => w.unblock == s.time);
    FilterMembers(s.incoming, (j: Job) => j.proc.arrival == s.time);
    UnwrapMembers(Filter(s.blocked, (w: IoWait) => w.unblock == s.time));
  }

  /** As many records are due as admission takes out of BLOCKED and NEW. */
  lemma DueCount(pol: Policy, s: State)
    ensures var r := Admit(pol, s);
      |Woken(s)| + |Arrived(s)| == (|s.blocked| - |r.blocked|) + (|s.incoming| - |r.incoming|)
  {
    FilterLength(s.blocked, (w: IoWait) => w.unblock == s.time, (w: IoWait) => w.unblock != s.time);
    FilterLength(s.incoming, (j: Job) => j.proc.arrival == s.time, (j: Job) => j.proc.arrival != s.time);
  }

  /** Admission reports one move into READY per record it pushes, in push order. */
  lemma AdmitReports(s: State, added: seq<Entry>, now: seq<Event>)
    requires Jobs(added) == Woken(s) + Arrived(s)
    requires now == s.now + Moves(Woken(s), Some(BLOCKED), READY) + Moves(Arrived(s), Some(NEW), READY)
    ensures |now| == |s.now| + |added| && now[..|s.now|] == s.now
    ensures forall k :: 0 <= k < |added| ==> now[|s.now| + k].pid == added[k].job.proc.pid && now[|s.now| + k].to == READY
  {
    var w, a := Woken(s), Arrived(s);
    assert |added| == |w| + |a|;
  }

  /** Admission keeps the queues' invariant and, from a state where nothing
      is overdue, leaves nothing due at this tick in NEW or BLOCKED. */
  lemma AdmitQueues(pol: Policy, s: State)
    requires Queues(pol, s) && NotBefore(s, s.time)
    ensures Queues(pol, Admit(pol, s)) && NotBefore(Admit(pol, s), s.time + 1)
  {
    AdmitIncoming(pol, s);
    AdmitBlocked(pol, s);
    AdmitReadyQueue(pol, s);
  }

  /** Admission keeps READY ordered and holding waiting records only. */
  lemma AdmitReadyQueue(pol: Policy, s: State)
    requires Ordered(pol, s.ready, s.tie) && AllWaiting(pol, s.ready)
    requires forall i :: 0 <= i < |s.incoming| ==> Waiting(pol, s.incoming[i])
    requires forall i :: 0 <= i < |s.blocked| ==> Waiting(pol, s.blocked[i].job)
    ensures Ordered(pol, Admit(pol, s).ready, Admit(pol, s).tie) && AllWaiting(pol, Admit(pol, s).ready)
  {
    AdmitWaiting(pol, s);
    var r := Admit(pol, s);
    AdmitReady(pol, s);
    PushTwiceKeeps(pol, s.ready, s.tie, Woken(s), Arrived(s), r.ready, r.tie);
  }

  lemma AdmitIncoming(pol: Policy, s: State)
    requires forall i :: 0 <= i < |s.incoming| ==> Waiting(pol, s.incoming[i]) && s.incoming[i].proc.arrival >= s.time
    ensures var r := Admit(pol, s);
      forall i :: 0 <= i < |r.incoming| ==> Waiting(pol, r.incoming[i]) && r.incoming[i].proc.arrival >= s.time + 1
  {
    FilterSubset(s.incoming, (j: Job) => j.proc.arrival != s.time);
  }

  lemma AdmitBlocked(pol: Policy, s: State)
    requires forall i :: 0 <= i < |s.blocked| ==> Waiting(pol, s.blocked[i].job) && s.blocked[i].unblock >= s.time
    ensures var r := Admit(pol, s);
      forall i :: 0 <= i < |r.blocked| ==> Waiting(pol, r.blocked[i].job) && r.blocked[i].unblock >= s.time + 1
  {
    FilterSubset(s.blocked, (w: IoWait) => w.unblock != s.time);
  }

  /** Everything admission moves onto READY is waiting for the CPU. */
  lemma AdmitWaiting(pol: Policy, s: State)
    requires forall i :: 0 <= i < |s.incoming| ==> Waiting(pol, s.incoming[i])
    requires forall i :: 0 <= i < |s.blocked| ==> Waiting(pol, s.blocked[i].job)
    ensures forall i :: 0 <= i < |Woken(s)| ==> Waiting(pol, Woken(s)[i])
    ensures forall i :: 0 <= i < |Arrived(s)| ==> Waiting(pol, Arrived(s)[i])
  {
    var due := Filter(s.blocked, (w: IoWait) => w.unblock == s.time);
    var arrived := Arrived(s);
    FilterSubset(s.blocked, (w: IoWait) => w.unblock == s.time);
    FilterSubset(s.incoming, (j: Job) => j.proc.arrival == s.time);
    forall i | 0 <= i < |due| ensures Waiting(pol, due[i].job) {
      assert due[i] in s.blocked;
    }
    forall i | 0 <= i < |arrived| ensures Waiting(pol, arrived[i]) {
      assert arrived[i] in s.incoming;
    }
  }

  /** Pushing waiting records onto a queue of waiting records keeps every
      record on it waiting. */
  lemma PushWaiting(pol: Policy, q: seq<Entry>, tie: int, js: seq<Job>)
    requires AllWaiting(pol, q) && forall i :: 0 <= i < |js| ==> Waiting(pol, js[i])
    ensures AllWaiting(pol, q + Entries(pol, tie, js))
  {
    var r := q + Entries(pol, tie, js);
    forall i | 0 <= i < |r| ensures Waiting(pol, r[i].job) {
      if i >= |q| {
        assert r[i].job == js[i - |q|];
      }
    }
  }

  /** Two pushes of waiting records (`r` is the queue after them, `counter`
      the tie counter) keep READY ordered and every record on it waiting. */
  lemma PushTwiceKeeps(pol: Policy, q: seq<Entry>, tie: int, a: seq<Job>, b: seq<Job>, r: seq<Entry>, counter: int)
    requires Ordered(pol, q, tie) && AllWaiting(pol, q)
    requires forall i :: 0 <= i < |a| ==> Waiting(pol, a[i])
    requires forall i :: 0 <= i < |b| ==> Waiting(pol, b[i])
    requires r == q + Entries(pol, tie, a) + Entries(pol, tie + |a|, b)
    requires counter == tie + |a| + |b|
    ensures Ordered(pol, r, counter) && AllWaiting(pol, r)
  {
    PushTwiceOrdered(pol, q, tie, a, b, r, counter);
    PushWaiting(pol, q, tie, a);
    PushWaiting(pol, q + Entries(pol, tie, a), tie + |a|, b);
  }

  /** Admission moves records between queues and changes none of them, so
      any per-record weight summed over NEW, READY and BLOCKED is kept. */
  lemma AdmitSum(pol: Policy, s: State, jw: Job -> int, ew: Entry -> int, ww: IoWait -> int)
    requires forall e :: ew(e) == jw(e.job)
    requires forall w :: ww(w) == jw(w.job)
    ensures var r := Admit(pol, s);
      SumOf(r.incoming, jw) + SumOf(r.ready, ew) + SumOf(r.blocked, ww)
      == SumOf(s.incoming, jw) + SumOf(s.ready, ew) + SumOf(s.blocked, ww)
  {
    var r := Admit(pol, s);
    DueSum(pol, s, jw, ww);
    AdmitReady(pol, s);
    PushTwiceSum(pol, s.ready, s.tie, Woken(s), Arrived(s), r.ready, jw, ew);
  }

  /** What admission takes out of NEW and BLOCKED weighs what it pushes. */
  lemma DueSum(pol: Policy, s: State, jw: Job -> int, ww: IoWait -> int)
    requires forall w :: ww(w) == jw(w.job)
    ensures var r := Admit(pol, s);
      && SumOf(r.incoming, jw) + SumOf(Arrived(s), jw) == SumOf(s.incoming, jw)
      && SumOf(r.blocked, ww) + SumOf(Woken(s), jw) == SumOf(s.blocked, ww)
  {
    var due := Filter(s.blocked, (w: IoWait) => w.unblock == s.time);
    SumFilter(s.incoming, (j: Job) => j.proc.arrival == s.time, (j: Job) => j.proc.arrival != s.time, jw);
    SumFilter(s.blocked, (w: IoWait) => w.unblock == s.time, (w: IoWait) => w.unblock != s.time, ww);
    UnwrapSum(due, jw, ww);
  }

  /** Admission moves every process it admits onto READY and reports
      nobody as COMPLETED. */
  lemma AdmitCensus(pol: Policy, s: State, x: Pid)
    ensures Census(Admit(pol, s), x) == Census(s, x)
    ensures Completions(Admit(pol, s).now) == Completions(s.now)
  {
    AdmitSum(pol, s, (j: Job) => Tally(j, x), (e: Entry) => Tally(e.job, x), (w: IoWait) => Tally(w.job, x));
    var m1 := Moves(Woken(s), Some(BLOCKED), READY);
    var m2 := Moves(Arrived(s), Some(NEW), READY);
    MovesEnterOnly(Woken(s), Some(BLOCKED), READY, COMPLETED);
    MovesEnterOnly(Arrived(s), Some(NEW), READY, COMPLETED);
    EnteredAppend(s.now, m1, COMPLETED);
    EnteredAppend(s.now + m1, m2, COMPLETED);
  }

  /** Admission moves CPU work between queues without changing it. */
  lemma AdmitUnits(pol: Policy, s: State)
    ensures Units(Admit(pol, s)) == Units(s)
  {
    AdmitSum(pol, s, Owed, (e: Entry) => Owed(e.job), (w: IoWait) => Owed(w.job));
  }

  /** With READY still empty after admission, nothing was due: NEW and
      BLOCKED are untouched and everything in them is due later. */
  lemma AdmitNothing(pol: Policy, s: State)
    requires |Admit(pol, s).ready| == 0
    ensures |s.ready| == 0 && Admit(pol, s).running == s.running
    ensures Admit(pol, s).incoming == s.incoming && Admit(pol, s).blocked == s.blocked
    ensures Gap(Admit(pol, s)) == Gap(s)
    ensures Active(s) && s.running.None? ==> |Admit(pol, s).incoming| > 0 || |Admit(pol, s).blocked| > 0
    ensures forall i :: 0 <= i < |s.incoming| ==> s.incoming[i].proc.arrival != s.time
    ensures forall i :: 0 <= i < |s.blocked| ==> s.blocked[i].unblock != s.time
  {
    AdmitReady(pol, s);
    var f := (j: Job) => j.proc.arrival == s.time;
    var g := (w: IoWait) => w.unblock == s.time;
    forall i | 0 <= i < |s.incoming| ensures !f(s.incoming[i]) {
      if f(s.incoming[i]) {
        FilterKeeps(s.incoming, f, i);
      }
    }
    forall i | 0 <= i < |s.blocked| ensures !g(s.blocked[i]) {
      if g(s.blocked[i]) {
        FilterKeeps(s.blocked, g, i);
      }
    }
    FilterAll(s.incoming, (j: Job) => j.proc.arrival != s.time);
    FilterAll(s.blocked, (w: IoWait) => w.unblock != s.time);
  }

  // ---------------------------------------------------------------------
  // Selection

  /** When the CPU is free and READY is not, the policy's entry runs: the
      head of FCFS's deque, otherwise the entry with the least (key, tie),
      which holds the least key; it starts its current CPU burst and the
      tick reports READY -> RUNNING for it. Otherwise nothing changes. */
  lemma PickSelects(pol: Policy, a: State)
    requires Queues(pol, a)
    ensures var p := Pick(pol, a);
      if a.running.None? && |a.ready| > 0 then
        var k := Selected(pol, a.ready);
        var j := a.ready[k].job;
        && (!pol.FCFS? ==> forall i :: 0 <= i < |a.ready| ==> Precedes(a.ready[k], a.ready[i]))
        && (forall i :: 0 <= i < |a.ready| ==> Key(pol, j) <= Key(pol, a.ready[i].job))
        && p.ready == Remove(a.ready, k)
        && p.running == Some(j.(remaining := j.proc.bursts[j.index]))
        && p.now == a.now + [Event(j.proc.pid, Some(READY), RUNNING)]
      else p == a
  {
    if a.running.None? && |a.ready| > 0 {
      MinIndexHasLeastKey(pol, a.ready);
    }
  }

  /** The record selection puts on the CPU is the policy's choice among
      READY: the one queued first under FCFS, the shortest next CPU burst
      under SJF, the longest under LJF, the smallest priority number under
      Priority. */
  lemma PickIsPolicyChoice(pol: Policy, a: State)
    requires Queues(pol, a) && a.running.None? && |a.ready| > 0
    ensures var k := Selected(pol, a.ready);
            var p := a.ready[k].job;
      && Pick(pol, a).running == Some(p.(remaining := p.proc.bursts[p.index]))
      && forall i :: 0 <= i < |a.ready| ==>
        var o := a.ready[i].job;
        && (pol.FCFS? ==> a.ready[k].tie <= a.ready[i].tie)
        && (pol.SJF? ==> p.proc.bursts[p.index] <= o.proc.bursts[o.index])
        && (pol.LJF? ==> p.proc.bursts[p.index] >= o.proc.bursts[o.index])
        && (pol.Priority? ==> p.proc.priority.value <= o.proc.priority.value)
  {
    forall i | 0 <= i < |a.ready|
      ensures a.ready[i].job.index < |a.ready[i].job.proc.bursts|
      ensures UsesPriority(pol) ==> a.ready[i].job.proc.priority.Some?
    {
      assert Waiting(pol, a.ready[i].job);
    }
    SelectedIsPolicyChoice(pol, a.ready, a.tie);
  }

  /** Selection keeps the queues' invariant, touches neither NEW nor
      BLOCKED, and leaves the CPU free only when READY is empty. */
  lemma PickQueues(pol: Policy, a: State, t: int)
    requires Queues(pol, a) && NotBefore(a, t)
    ensures var p := Pick(pol, a);
      && Queues(pol, p) && NotBefore(p, t)
      && p.incoming == a.incoming && p.blocked == a.blocked && p.time == a.time && p.timeline == a.timeline
      && (p.running.None? ==> |a.ready| == 0)
  {
    if a.running.None? && |a.ready| > 0 {
      var k := Selected(pol, a.ready);
      assert Waiting(pol, a.ready[k].job);
      RemoveKeepsOrder(pol, a.ready, a.tie, k);
      var p := Pick(pol, a);
      assert AllWaiting(pol, p.ready);
    }
  }

  /** The CPU stays free only when it was free and READY was empty, and
      then selection changes nothing. */
  lemma PickIdle(pol: Policy, a: State)
    requires AllWaiting(pol, a.ready) && Pick(pol, a).running.None?
    ensures a.running.None? && |a.ready| == 0 && Pick(pol, a) == a
  {
  }

  /** Selection moves one record from READY to the CPU, reports nobody as
      COMPLETED and changes no CPU work: the record's whole current burst
      is still to run. */
  lemma PickCensus(pol: Policy, a: State, x: Pid)
    requires AllWaiting(pol, a.ready)
    ensures Census(Pick(pol, a), x) == Census(a, x)
    ensures Completions(Pick(pol, a).now) == Completions(a.now)
  {
    if a.running.None? && |a.ready| > 0 {
      var k := Selected(pol, a.ready);
      SumRemove(a.ready, k, (e: Entry) => Tally(e.job, x));
      var p := Pick(pol, a);
      assert Held(p.running)[1..] == [];
      assert (a.now + [p.now[|p.now| - 1]])[..|a.now|] == a.now;
    }
  }

  lemma PickUnits(pol: Policy, a: State)
    requires AllWaiting(pol, a.ready)
    ensures Units(Pick(pol, a)) == Units(a)
  {
    if a.running.None? && |a.ready| > 0 {
      var k := Selected(pol, a.ready);
      SumRemove(a.ready, k, (e: Entry) => Owed(e.job));
      var p := Pick(pol, a);
      assert Held(p.running)[1..] == [];
    }
  }

  // ---------------------------------------------------------------------
  // Execution

  /** Execution keeps the queues' invariant, and whatever it puts in
      BLOCKED is due after the current tick. */
  lemma ExecuteQueues(pol: Policy, a: State)
    requires Queues(pol, a) && NotBefore(a, a.time + 1)
    ensures Queues(pol, Execute(pol, a)) && NotBefore(Execute(pol, a), a.time + 1)
    ensures Execute(pol, a).time == a.time && Execute(pol, a).timeline == a.timeline
  {
    var r := Execute(pol, a);
    if a.running.Some? && a.running.value.remaining == 1 && |r.blocked| > |a.blocked| {
      var j := a.running.value;
      assert r.blocked[|a.blocked|].unblock == a.time + j.proc.bursts[j.index + 1] + 1;
      assert Waiting(pol, r.blocked[|a.blocked|].job);
    }
  }

  /** Execution neither loses nor duplicates a process: one leaving the CPU
      goes to BLOCKED or is reported COMPLETED. */
  lemma ExecuteCensus(pol: Policy, a: State, x: Pid)
    ensures var r := Execute(pol, a);
      Census(r, x) + Completions(r.now)[x] == Census(a, x) + Completions(a.now)[x]
  {
    var r := Execute(pol, a);
    if a.running.Some? {
      assert Held(a.running)[1..] == [];
      if a.running.value.remaining == 1 {
        assert (a.now + [r.now[|r.now| - 1]])[..|a.now|] == a.now;
        if |r.blocked| > |a.blocked| {
          SumAppend(a.blocked, [r.blocked[|a.blocked|]], (w: IoWait) => Tally(w.job, x));
        }
      } else {
        assert Held(r.running)[1..] == [];
      }
    }
  }

  /** With the CPU free, execution changes nothing. */
  lemma ExecuteIdle(pol: Policy, a: State)
    requires a.running.None?
    ensures Execute(pol, a) == a
  {
  }

  /** What a unit does to the running process: while its burst lasts it
      stays on the CPU with one unit less and nothing is reported; in the
      tick its burst's last unit runs it leaves the CPU, to BLOCKED until
      the end of this tick plus the following I/O burst, with the cursor on
      the next CPU burst, when one follows and the policy is not Priority,
      and as COMPLETED otherwise. */
  lemma ExecuteLeaves(pol: Policy, a: State)
    requires Queues(pol, a) && a.running.Some?
    ensures var j := a.running.value;
            var r := Execute(pol, a);
      && r.ready == a.ready && r.incoming == a.incoming
      && (j.remaining > 1 ==> r.running == Some(j.(remaining := j.remaining - 1)) && r.now == a.now && r.blocked == a.blocked)
      && (j.remaining == 1 ==> r.running.None? && |r.now| == |a.now| + 1 && r.now[..|a.now|] == a.now)
      && (j.remaining == 1 && !pol.Priority? && j.index + 1 < |j.proc.bursts| ==>
            && r.blocked == a.blocked + [IoWait((a.time + 1) + j.proc.bursts[j.index + 1], j.(index := j.index + 2, remaining := 0))]
            && r.now[|a.now|] == Event(j.proc.pid, Some(RUNNING), BLOCKED)
            && Waiting(pol, r.blocked[|a.blocked|].job))
      && (j.remaining == 1 && (pol.Priority? || j.index + 1 == |j.proc.bursts|) ==>
            r.blocked == a.blocked && r.now[|a.now|] == Event(j.proc.pid, Some(RUNNING), COMPLETED))
  {
    var j := a.running.value;
    if j.remaining == 1 && !pol.Priority? && j.index + 1 < |j.proc.bursts| {
      assert Waiting(pol, j.(index := j.index + 2, remaining := 0));
    }
  }

  /** A unit on the CPU consumes at least one unit of CPU work. */
  lemma ExecuteUnits(pol: Policy, a: State)
    requires Queues(pol, a) && a.running.Some?
    ensures Units(Execute(pol, a)) < Units(a)
  {
    var r := Execute(pol, a);
    var j := a.running.value;
    CpuFromPositive(j.proc.bursts, j.index + 2);
    assert Held(a.running)[1..] == [];
    if j.remaining == 1 && |r.blocked| > |a.blocked| {
      SumAppend(a.blocked, [r.blocked[|a.blocked|]], (w: IoWait) => Owed(w.job));
    } else if j.remaining > 1 {
      assert Held(r.running)[1..] == [];
    }
  }

  // ---------------------------------------------------------------------
  // One tick

  /** Closing a tick (`r` is the state after it) records the tick's events
      under it; the queues are untouched. */
  lemma CloseKeeps(pol: Policy, e: State, r: State)
    requires Queues(pol, e) && NotBefore(e, e.time + 1) && |e.timeline| == e.time
    requires r == Close(e)
    ensures Valid(pol, r) && r.time == e.time + 1 && r.timeline == e.timeline + [e.now]
  {
  }

  lemma CloseCensus(e: State, r: State, x: Pid)
    requires r == Close(e)
    ensures Finished(r.timeline)[x] + Census(r, x) == Finished(e.timeline)[x] + Completions(e.now)[x] + Census(e, x)
    ensures Units(r) == Units(e) && r.incoming == e.incoming && r.blocked == e.blocked && r.time == e.time + 1
  {
    ReportsAppend(e.timeline, e.now, COMPLETED);
  }

  /** A tick keeps the invariant, records exactly one event list, under its
      own tick, and leaves the lists of earlier ticks as they were. */
  lemma TickKeeps(pol: Policy, s: State)
    requires Valid(pol, s)
    ensures var r := Tick(pol, s);
      && Valid(pol, r) && r.time == s.time + 1
      && |r.timeline| == |s.timeline| + 1 && s.timeline <= r.timeline
  {
    var o := Open(pol, s);
    OpenKeeps(pol, s);
    AdmitQueues(pol, o);
    var a := Admit(pol, o);
    PickQueues(pol, a, s.time + 1);
    var p := Pick(pol, a);
    ExecuteQueues(pol, p);
    CloseKeeps(pol, Execute(pol, p), Tick(pol, s));
  }

  /** A tick neither loses nor duplicates a process: every process is in a
      queue, on the CPU, or reported COMPLETED, once. */
  lemma TickCensus(pol: Policy, s: State, x: Pid)
    requires Valid(pol, s)
    ensures Finished(Tick(pol, s).timeline)[x] + Census(Tick(pol, s), x) == Finished(s.timeline)[x] + Census(s, x)
  {
    var o := Open(pol, s);
    OpenKeeps(pol, s);
    AdmitQueues(pol, o);
    var a := Admit(pol, o);
    AdmitCensus(pol, o, x);
    PickQueues(pol, a, s.time + 1);
    var p := Pick(pol, a);
    PickCensus(pol, a, x);
    ExecuteCensus(pol, p, x);
    ExecuteQueues(pol, p);
    CloseCensus(Execute(pol, p), Tick(pol, s), x);
  }

  /** Every tick makes progress: the CPU runs a unit of work, or it stays
      free, the work is unchanged, and the next arrival or unblock draws
      one tick nearer. */
  lemma TickProgress(pol: Policy, s: State)
    requires Valid(pol, s) && Active(s)
    ensures var r := Tick(pol, s);
      Units(r) < Units(s) || (Units(r) == Units(s) && Gap(r) < Gap(s))
  {
    var o := Open(pol, s);
    OpenKeeps(pol, s);
    AdmitQueues(pol, o);
    var a := Admit(pol, o);
    AdmitUnits(pol, o);
    PickQueues(pol, a, s.time + 1);
    PickUnits(pol, a);
    var p := Pick(pol, a);
    if p.running.Some? {
      ExecuteUnits(pol, p);
      CloseCensus(Execute(pol, p), Tick(pol, s), "");
    } else {
      TickWaits(pol, s);
    }
  }

  /** A tick in which the CPU stays free changes no queue and brings every
      pending arrival and unblock one tick nearer. */
  lemma TickWaits(pol: Policy, s: State)
    requires Valid(pol, s) && Active(s) && Picked(pol, s).running.None?
    ensures Units(Tick(pol, s)) == Units(s) && Gap(Tick(pol, s)) < Gap(s)
  {
    var o := Open(pol, s);
    OpenKeeps(pol, s);
    AdmitQueues(pol, o);
    var a := Admit(pol, o);
    AdmitUnits(pol, o);
    PickIdle(pol, a);
    AdmitNothing(pol, o);
    ExecuteIdle(pol, a);
    CloseWaits(a, Tick(pol, s));
  }

  /** Closing a tick in which nothing ran or was admitted (`r` is the state
      after it) brings every pending arrival and unblock one tick nearer. */
  lemma CloseWaits(e: State, r: State)
    requires r == Close(e)
    requires |e.incoming| > 0 || |e.blocked| > 0
    requires NotBefore(e, e.time + 1)
    ensures Units(r) == Units(e) && Gap(r) < Gap(e)
  {
    assert r.incoming == e.incoming && r.ready == e.ready && r.blocked == e.blocked && r.running == e.running;
    GapShrinks(e.incoming, e.blocked, e.time);
  }

  /** One tick later, with something pending and nothing overdue, the
      summed waiting time is smaller. */
  lemma GapShrinks(incoming: seq<Job>, blocked: seq<IoWait>, t: int)
    requires |incoming| > 0 || |blocked| > 0
    requires forall i :: 0 <= i < |incoming| ==> incoming[i].proc.arrival >= t + 1
    requires forall i :: 0 <= i < |blocked| ==> blocked[i].unblock >= t + 1
    ensures GapAt(incoming, blocked, t + 1) < GapAt(incoming, blocked, t)
  {
    SumShift(incoming, (j: Job) => Until(j.proc.arrival, t), (j: Job) => Until(j.proc.arrival, t + 1));
    SumShift(blocked, (w: IoWait) => Until(w.unblock, t), (w: IoWait) => Until(w.unblock, t + 1));
  }

  // ---------------------------------------------------------------------
  // The loop

  /** Runs the loop until NEW, READY, BLOCKED and the CPU are all empty.
      Every process in the queues or on the CPU at the start is reported
      COMPLETED exactly once along the way, and ticks already recorded are
      kept. */
  function Run(pol: Policy, s: State): (r: State)
    requires Valid(pol, s)
    ensures !Active(r)
    ensures s.timeline <= r.timeline
    ensures forall x :: Finished(r.timeline)[x] == Finished(s.timeline)[x] + Census(s, x)
    decreases Units(s), Gap(s)
  {
    if !Active(s) then s
    else
      var t := Tick(pol, s);
      TickKeeps(pol, s);
      TickProgress(pol, s);
      UnitsNonNegative(pol, t);
      var r := Run(pol, t);
      assert forall x :: Finished(r.timeline)[x] == Finished(s.timeline)[x] + Census(s, x) by {
        forall x ensures Finished(r.timeline)[x] == Finished(s.timeline)[x] + Census(s, x) {
          TickCensus(pol, s, x);
        }
      }
      r
  }

  /** The initial state: every process in NEW, sorted by arrival, nothing
      recorded yet. */
  function Start(procs: seq<Proc>): State
  {
    State(0, 0, FreshAll(SortByArrival(procs), (p: Proc) => 0), [], [], None, [], [])
  }

  lemma StartKeeps(pol: Policy, procs: seq<Proc>)
    requires NonPreemptive(pol)
    requires forall i :: 0 <= i < |procs| ==> Runnable(pol, procs[i])
    ensures Valid(pol, Start(procs))
  {
    var incoming := Start(procs).incoming;
    var sorted := SortByArrival(procs);
    forall i | 0 <= i < |incoming| ensures Waiting(pol, incoming[i]) && incoming[i].proc.arrival >= 0 {
      assert sorted[i] in multiset(procs);
      assert sorted[i] in procs;
    }
  }

  /** At the start, each process appears in NEW as often as it was submitted. */
  lemma StartCensus(procs: seq<Proc>, x: Pid)
    ensures Census(Start(procs), x) == BagOf(procs, (p: Proc) => p.pid)[x]
  {
    var incoming := Start(procs).incoming;
    var sorted := SortByArrival(procs);
    FreshAllBag(sorted, (p: Proc) => 0);
    BagOfImage(incoming, (j: Job) => j.proc, procs, (p: Proc) => p.pid, (j: Job) => j.proc.pid);
    BagCount(incoming, (j: Job) => j.proc.pid, x, (j: Job) => Tally(j, x));
  }

  /** A whole visualisation: one event list per tick from 0 until the
      queues and the CPU are empty, in which every submitted process is
      reported COMPLETED exactly as often as it was submitted. */
  method Simulate(pol: Policy, procs: seq<Proc>) returns (timeline: seq<seq<Event>>)
    requires NonPreemptive(pol)
    requires forall i :: 0 <= i < |procs| ==> Runnable(pol, procs[i])
    ensures Finished(timeline) == BagOf(procs, (p: Proc) => p.pid)
  {
    StartKeeps(pol, procs);
    var r := Run(pol, Start(procs));
    timeline := r.timeline;
    forall x ensures Finished(timeline)[x] == BagOf(procs, (p: Proc) => p.pid)[x] {
      StartCensus(procs, x);
    }
  }
}
