/** The tick-by-tick engine shared by `srtf_visualization_view`,
    `lrtf_visualization_view` and `prtf_visualization_view`. The clock moves
    by exactly one unit per iteration. Every iteration admits the arrivals
    of its tick, pushes the process that ran in the previous tick back onto
    READY behind them, and hands the CPU to the heap minimum for one unit.
    A process's CPU demand is the sum of its CPU bursts taken as one piece;
    its I/O bursts are ignored and BLOCKED stays empty. */
module VisualPreemptive {
  import opened Wrappers
  import opened Seqs
  import opened Processes
  import opened Policies
  import opened ReadyQueue
  import opened ArrivalOrder
  import opened Timeline

  /** The loop's variables: the clock, the heap tie counter, NEW, READY, the
      running process, the events of the tick in progress and the event
      lists of the ticks already closed (tick `t` at position `t`). */
  datatype State = State(time: int, tie: int, incoming: seq<Job>, ready: seq<Entry>,
                         running: Option<Job>, now: seq<Event>, timeline: seq<seq<Event>>)

  /** What the loop needs of a submitted process: an arrival the clock
      reaches (it starts at 0 and admission compares with `==`), a positive
      CPU demand, so that counting down by one reaches zero exactly, and a
      priority under the preemptive priority policy. */
  predicate Runnable(pol: Policy, p: Proc)
  {
    p.arrival >= 0 && CpuTotal(p.bursts) > 0 && (UsesPriority(pol) ==> p.priority.Some?)
  }

  /** A record still to finish. */
  predicate Live(pol: Policy, j: Job)
  {
    Runnable(pol, j.proc) && j.remaining > 0
  }

  predicate AllLive(pol: Policy, q: seq<Entry>)
  {
    forall i :: 0 <= i < |q| ==> Live(pol, q[i].job)
  }

  /** The invariant of the queues, which does not mention the clock. */
  predicate Queues(pol: Policy, s: State)
  {
    && Preemptive(pol)
    && (forall i :: 0 <= i < |s.incoming| ==> Live(pol, s.incoming[i]))
    && Ordered(pol, s.ready, s.tie) && AllLive(pol, s.ready)
    && (s.running.Some? ==> Live(pol, s.running.value))
  }

  /** Nothing in NEW arrives before tick `t`. */
  predicate NotBefore(s: State, t: int)
  {
    forall i :: 0 <= i < |s.incoming| ==> s.incoming[i].proc.arrival >= t
  }

  /** The invariant at the top of the loop: one event list per tick before
      `time`, none in progress, and nothing in NEW overdue. */
  predicate Valid(pol: Policy, s: State)
  {
    Queues(pol, s) && NotBefore(s, s.time) && |s.timeline| == s.time && s.now == []
  }

  /** The loop condition `new or ready or blocked or running`, BLOCKED
      being always empty. */
  predicate Active(s: State)
  {
    |s.incoming| > 0 || |s.ready| > 0 || s.running.Some?
  }

  /** A per-record weight summed over NEW, READY and the CPU. */
  function Total(s: State, w: Job -> int): int
  {
    SumOf(s.incoming, w) + SumOf(s.ready, (e: Entry) => w(e.job)) + SumOf(Held(s.running), w)
  }

  /** How many records of process `x` are in NEW, READY or on the CPU. */
  function Census(s: State, x: Pid): int
  {
    Total(s, (j: Job) => Tally(j, x))
  }

  /** The CPU units a record still has to run if it is process `x`'s. */
  function Share(j: Job, x: Pid): int
  {
    if j.proc.pid == x then j.remaining else 0
  }

  /** The CPU units process `x` still has to run, over every record of it. */
  function Backlog(s: State, x: Pid): int
  {
    Total(s, (j: Job) => Share(j, x))
  }

  /** The CPU units still to run, over every queue and the CPU. */
  function Units(s: State): int
  {
    Total(s, (j: Job) => j.remaining)
  }

  /** Ticks until each NEW arrival, summed. */
  function Gap(s: State): nat
  {
    SumNonNegative(s.incoming, (j: Job) => Until(j.proc.arrival, s.time));
    SumOf(s.incoming, (j: Job) => Until(j.proc.arrival, s.time))
  }

  /** 1 when the CPU holds a record of process `x`, else 0. */
  function OnCpu(s: State, x: Pid): int
  {
    if s.running.Some? then Tally(s.running.value, x) else 0
  }

  lemma UnitsNonNegative(pol: Policy, s: State)
    requires Queues(pol, s)
    ensures Units(s) >= 0
  {
    var w := (j: Job) => j.remaining;
    SumNonNegative(s.incoming, w);
    SumNonNegative(s.ready, (e: Entry) => w(e.job));
    SumNonNegative(Held(s.running), w);
  }

  // ---------------------------------------------------------------------
  // The phases of one tick

  /** The NEW records arriving at this tick, in NEW order. */
  function Arrived(s: State): seq<Job>
  {
    Filter(s.incoming, (j: Job) => j.proc.arrival == s.time)
  }

  /** NEW -> READY for every process arriving at this tick, each pushed with
      the next tie and reported in NEW order; then the process that ran in
      the previous tick is pushed back behind them with the next tie, and
      the CPU is free. The push back is not reported. */
  function Admit(pol: Policy, s: State): State
  {
    var arrived := Arrived(s);
    var held := Held(s.running);
    s.(tie := s.tie + |arrived| + |held|,
       incoming := Filter(s.incoming, (j: Job) => j.proc.arrival != s.time),
       ready := s.ready + Entries(pol, s.tie, arrived) + Entries(pol, s.tie + |arrived|, held),
       running := None,
       now := s.now + Moves(arrived, Some(NEW), READY))
  }

  /** READY -> RUNNING for the heap minimum whenever READY is not empty,
      reported at every such tick, the process that ran in the previous
      tick included. */
  function Pick(a: State): State
  {
    if |a.ready| == 0 then a
    else
      var k := MinIndex(a.ready);
      var j := a.ready[k].job;
      a.(ready := Remove(a.ready, k), running := Some(j),
         now := a.now + [Event(j.proc.pid, Some(READY), RUNNING)])
  }

  /** One unit of CPU for the running process; RUNNING -> COMPLETED when
      nothing is left of its demand. */
  function Execute(a: State): State
  {
    match a.running
    case None => a
    case Some(j) =>
      if j.remaining - 1 == 0 then
        a.(running := None, now := a.now + [Event(j.proc.pid, Some(RUNNING), COMPLETED)])
      else
        a.(running := Some(j.(remaining := j.remaining - 1)))
  }

  /** The tick's events are recorded under it and the clock moves on. */
  function Close(a: State): State
  {
    a.(time := a.time + 1, timeline := a.timeline + [a.now], now := [])
  }

  /** One iteration of the loop. */
  function Tick(pol: Policy, s: State): State
  {
    Close(Execute(Pick(Admit(pol, s))))
  }

  // ---------------------------------------------------------------------
  // Admission

  /** Where admission puts the arrivals and the process that ran: behind
      what READY held, arrivals first, with consecutive ties. */
  lemma AdmitReady(pol: Policy, s: State)
    ensures var r := Admit(pol, s);
      && r.ready == s.ready + Entries(pol, s.tie, Arrived(s)) + Entries(pol, s.tie + |Arrived(s)|, Held(s.running))
      && r.tie == s.tie + |Arrived(s)| + |Held(s.running)|
      && r.running.None? && r.time == s.time && r.timeline == s.timeline
  {
  }

  /** Admission puts into READY exactly the records to be scheduled at
      this tick: the entries already waiting keep their places in front,
      and behind them come every NEW record arriving at this tick and the
      process that ran in the previous tick, and nothing else, one entry
      for each record taken out of NEW or off the CPU, each keyed by the
      policy with a tie drawn after every earlier one. */
  lemma AdmitEnqueues(pol: Policy, s: State)
    ensures var r := Admit(pol, s);
      && |s.ready| <= |r.ready| && r.ready[..|s.ready|] == s.ready
      && var added := r.ready[|s.ready|..];
      && (forall j :: j in Jobs(added) <==> (j in s.incoming && j.proc.arrival == s.time) || s.running == Some(j))
      && |added| == (|s.incoming| - |r.incoming|) + (if s.running.Some? then 1 else 0)
      && (forall k :: 0 <= k < |added| ==> added[k].key == Key(pol, added[k].job) && s.tie <= added[k].tie < r.tie)
  {
    var r := Admit(pol, s);
    AdmitReady(pol, s);
    PushTwiceAdds(pol, s.ready, s.tie, Arrived(s), Held(s.running), r.ready);
    FilterMembers(s.incoming, (j: Job) => j.proc.arrival == s.time);
    FilterLength(s.incoming, (j: Job) => j.proc.arrival == s.time, (j: Job) => j.proc.arrival != s.time);
  }

  /** The tick reports NEW -> READY for each arrival admission adds, in the
      order added; the process pushed back off the CPU is not reported. */
  lemma AdmitAnnounces(pol: Policy, s: State)
    ensures var r := Admit(pol, s);
      && |s.ready| + (if s.running.Some? then 1 else 0) <= |r.ready|
      && var arrivals := r.ready[|s.ready|..|r.ready| - (if s.running.Some? then 1 else 0)];
      && |r.now| == |s.now| + |arrivals| && r.now[..|s.now|] == s.now
      && (forall k :: 0 <= k < |arrivals| ==> r.now[|s.now| + k] == Event(arrivals[k].job.proc.pid, Some(NEW), READY))
  {
    var r := Admit(pol, s);
    var arrived := Arrived(s);
    AdmitReady(pol, s);
    var e1 := Entries(pol, s.tie, arrived);
    assert r.ready[|s.ready|..|r.ready| - |Held(s.running)|] == e1;
  }

  /** A NEW record is admitted at a tick exactly when it arrives at that
      tick; everything else stays in NEW. */
  lemma AdmitExactlyDue(pol: Policy, s: State)
    ensures var r := Admit(pol, s);
      forall i :: 0 <= i < |s.incoming| ==>
        (s.incoming[i] in r.incoming <==> s.incoming[i].proc.arrival != s.time)
  {
    var r := Admit(pol, s);
    forall i | 0 <= i < |s.incoming|
      ensures s.incoming[i] in r.incoming <==> s.incoming[i].proc.arrival != s.time
    {
      if s.incoming[i].proc.arrival != s.time {
        FilterKeeps(s.incoming, (j: Job) => j.proc.arrival != s.time, i);
      }
    }
  }

  /** The process that ran in the previous tick is pushed back last, and it
      is selected again exactly when its key is strictly below every other
      READY key: on an equal key a process arriving at this tick, or any
      entry already waiting, runs instead. */
  lemma HeldResumesOnlyIfStrictlyFirst(pol: Policy, s: State)
    requires Ordered(pol, s.ready, s.tie) && s.running.Some?
    ensures var q := Admit(pol, s).ready;
      && |q| > 0 && q[|q| - 1].job == s.running.value
      && (MinIndex(q) == |q| - 1 <==> forall i :: 0 <= i < |q| - 1 ==> q[|q| - 1].key < q[i].key)
  {
    var r := Admit(pol, s);
    AdmitReady(pol, s);
    var pushed := Entries(pol, s.tie + |Arrived(s)|, Held(s.running));
    assert r.ready[|r.ready| - 1] == pushed[0];
    PushTwiceOrdered(pol, s.ready, s.tie, Arrived(s), Held(s.running), r.ready, r.tie);
    MinIndexFirstAmongEqualKeys(r.ready, r.tie);
  }

  /** Admission keeps the queues' invariant and, from a state where nothing
      is overdue, leaves nothing due at this tick in NEW. */
  lemma AdmitQueues(pol: Policy, s: State)
    requires Queues(pol, s) && NotBefore(s, s.time)
    ensures Queues(pol, Admit(pol, s)) && NotBefore(Admit(pol, s), s.time + 1)
  {
    FilterSubset(s.incoming, (j: Job) => j.proc.arrival != s.time);
    AdmitReadyQueue(pol, s);
  }

  /** Admission keeps READY ordered and holding live records only. */
  lemma AdmitReadyQueue(pol: Policy, s: State)
    requires Ordered(pol, s.ready, s.tie) && AllLive(pol, s.ready)
    requires forall i :: 0 <= i < |s.incoming| ==> Live(pol, s.incoming[i])
    requires s.running.Some? ==> Live(pol, s.running.value)
    ensures Ordered(pol, Admit(pol, s).ready, Admit(pol, s).tie) && AllLive(pol, Admit(pol, s).ready)
  {
    var arrived := Arrived(s);
    FilterSubset(s.incoming, (j: Job) => j.proc.arrival == s.time);
    forall i | 0 <= i < |arrived| ensures Live(pol, arrived[i]) {
      assert arrived[i] in s.incoming;
    }
    var r := Admit(pol, s);
    AdmitReady(pol, s);
    PushTwiceOrdered(pol, s.ready, s.tie, arrived, Held(s.running), r.ready, r.tie);
    PushLive(pol, s.ready, s.tie, arrived);
    PushLive(pol, s.ready + Entries(pol, s.tie, arrived), s.tie + |arrived|, Held(s.running));
  }

  /** Pushing live records onto a queue of live records keeps every record
      on it live. */
  lemma PushLive(pol: Policy, q: seq<Entry>, tie: int, js: seq<Job>)
    requires AllLive(pol, q) && forall i :: 0 <= i < |js| ==> Live(pol, js[i])
    ensures AllLive(pol, q + Entries(pol, tie, js))
  {
    var r := q + Entries(pol, tie, js);
    forall i | 0 <= i < |r| ensures Live(pol, r[i].job) {
      if i >= |q| {
        assert r[i].job == js[i - |q|];
      }
    }
  }

  /** Admission moves records between NEW, READY and the CPU and changes
      none of them, so any per-record weight summed over them is kept. */
  lemma AdmitTotal(pol: Policy, s: State, w: Job -> int)
    ensures Total(Admit(pol, s), w) == Total(s, w)
  {
    var r := Admit(pol, s);
    SumFilter(s.incoming, (j: Job) => j.proc.arrival == s.time, (j: Job) => j.proc.arrival != s.time, w);
    AdmitReady(pol, s);
    PushTwiceSum(pol, s.ready, s.tie, Arrived(s), Held(s.running), r.ready, w, (e: Entry) => w(e.job));
  }

  /** Admission reports arrivals entering READY and nothing else. */
  lemma AdmitReports(pol: Policy, s: State, p: Place)
    requires p != READY
    ensures Entered(Admit(pol, s).now, p) == Entered(s.now, p)
  {
    MovesEnterOnly(Arrived(s), Some(NEW), READY, p);
    EnteredAppend(s.now, Moves(Arrived(s), Some(NEW), READY), p);
  }

  /** Admission moves every process it admits onto READY, reports nobody
      as COMPLETED or RUNNING, and leaves the CPU free. */
  lemma AdmitCensus(pol: Policy, s: State, x: Pid)
    ensures Census(Admit(pol, s), x) == Census(s, x)
    ensures Completions(Admit(pol, s).now) == Completions(s.now)
    ensures Admit(pol, s).running.None?
  {
    AdmitTotal(pol, s, (j: Job) => Tally(j, x));
    AdmitReports(pol, s, COMPLETED);
  }

  lemma AdmitBacklog(pol: Policy, s: State, x: Pid)
    ensures Backlog(Admit(pol, s), x) == Backlog(s, x)
    ensures Entered(Admit(pol, s).now, RUNNING) == Entered(s.now, RUNNING)
    ensures Admit(pol, s).running.None?
  {
    AdmitTotal(pol, s, (j: Job) => Share(j, x));
    AdmitReports(pol, s, RUNNING);
  }

  /** With READY still empty after admission, the CPU was free, READY was
      empty, nothing arrived, and NEW is untouched. */
  lemma AdmitNothing(pol: Policy, s: State)
    requires |Admit(pol, s).ready| == 0
    ensures s.running.None? && |s.ready| == 0
    ensures Admit(pol, s).incoming == s.incoming && Gap(Admit(pol, s)) == Gap(s)
    ensures forall i :: 0 <= i < |s.incoming| ==> s.incoming[i].proc.arrival != s.time
  {
    AdmitReady(pol, s);
    var f := (j: Job) => j.proc.arrival == s.time;
    forall i | 0 <= i < |s.incoming| ensures !f(s.incoming[i]) {
      if f(s.incoming[i]) {
        FilterKeeps(s.incoming, f, i);
      }
    }
    FilterAll(s.incoming, (j: Job) => j.proc.arrival != s.time);
  }

  // ---------------------------------------------------------------------
  // Selection

  /** When READY is not empty the heap minimum runs: the least remaining
      time under SRTF, the greatest under LRTF, the smallest priority number
      under preemptive priority; it leaves READY and the tick reports
      READY -> RUNNING for it. Otherwise nothing changes. */
  lemma PickSelects(pol: Policy, a: State)
    requires KeyedBy(pol, a.ready) && AllLive(pol, a.ready)
    ensures var p := Pick(a);
      if |a.ready| > 0 then
        var k := MinIndex(a.ready);
        var j := a.ready[k].job;
        && p.running == Some(j) && p.ready == Remove(a.ready, k)
        && p.now == a.now + [Event(j.proc.pid, Some(READY), RUNNING)]
        && forall i :: 0 <= i < |a.ready| ==>
             && (pol.SRTF? ==> j.remaining <= a.ready[i].job.remaining)
             && (pol.LRTF? ==> j.remaining >= a.ready[i].job.remaining)
             && (pol.PreemptivePriority? ==>
                   && j.proc.priority.Some? && a.ready[i].job.proc.priority.Some?
                   && j.proc.priority.value <= a.ready[i].job.proc.priority.value)
      else p == a
  {
    if |a.ready| > 0 {
      forall i | 0 <= i < |a.ready| ensures UsesPriority(pol) ==> a.ready[i].job.proc.priority.Some? {
        assert Live(pol, a.ready[i].job);
      }
      if Preemptive(pol) {
        LeastKeyIsPolicyChoice(pol, a.ready);
      }
    }
  }

  /** Selection keeps the queues' invariant, leaves NEW and the clock alone,
      and occupies the CPU exactly when READY is not empty. */
  lemma PickQueues(pol: Policy, a: State, t: int)
    requires Queues(pol, a) && NotBefore(a, t)
    ensures var p := Pick(a);
      && Queues(pol, p) && NotBefore(p, t)
      && p.incoming == a.incoming && p.time == a.time && p.timeline == a.timeline
      && (p.running.Some? <==> |a.ready| > 0 || a.running.Some?)
  {
    if |a.ready| > 0 {
      var k := MinIndex(a.ready);
      assert Live(pol, a.ready[k].job);
      RemoveKeepsOrder(pol, a.ready, a.tie, k);
      assert AllLive(pol, Pick(a).ready);
    }
  }

  /** Selection onto a free CPU moves one record from READY to the CPU and
      changes none: any per-record weight summed over the queues is kept. */
  lemma PickTotal(a: State, w: Job -> int)
    requires a.running.None?
    ensures Total(Pick(a), w) == Total(a, w)
  {
    if |a.ready| > 0 {
      SumRemove(a.ready, MinIndex(a.ready), (e: Entry) => w(e.job));
      assert Held(Pick(a).running)[1..] == [];
    }
  }

  /** Selection onto a free CPU reports the selected process, and only it,
      as entering RUNNING, and nobody as COMPLETED. */
  lemma PickReports(a: State, x: Pid)
    requires a.running.None?
    ensures Entered(Pick(a).now, RUNNING)[x] == Entered(a.now, RUNNING)[x] + OnCpu(Pick(a), x)
    ensures Completions(Pick(a).now) == Completions(a.now)
  {
    if |a.ready| > 0 {
      var p := Pick(a);
      assert (a.now + [p.now[|p.now| - 1]])[..|a.now|] == a.now;
    }
  }

  lemma PickCensus(a: State, x: Pid)
    requires a.running.None?
    ensures Census(Pick(a), x) == Census(a, x)
    ensures Completions(Pick(a).now) == Completions(a.now)
    ensures Pick(a).timeline == a.timeline
  {
    PickTotal(a, (j: Job) => Tally(j, x));
    PickReports(a, x);
  }

  lemma PickBacklog(a: State, x: Pid)
    requires a.running.None?
    ensures Backlog(Pick(a), x) == Backlog(a, x)
    ensures Entered(Pick(a).now, RUNNING)[x] == Entered(a.now, RUNNING)[x] + OnCpu(Pick(a), x)
    ensures Pick(a).timeline == a.timeline
  {
    PickTotal(a, (j: Job) => Share(j, x));
    PickReports(a, x);
  }

  // ---------------------------------------------------------------------
  // Execution

  /** Execution keeps the queues' invariant and touches neither NEW, READY
      nor the clock. */
  lemma ExecuteQueues(pol: Policy, a: State)
    requires Queues(pol, a)
    ensures var r := Execute(a);
      && Queues(pol, r) && r.incoming == a.incoming && r.ready == a.ready
      && r.time == a.time && r.timeline == a.timeline
  {
  }

  /** Execution neither loses nor duplicates a process: one leaving the CPU
      is reported COMPLETED. */
  lemma ExecuteCensus(a: State, x: Pid)
    ensures var r := Execute(a);
      Census(r, x) + Completions(r.now)[x] == Census(a, x) + Completions(a.now)[x]
    ensures Execute(a).timeline == a.timeline
  {
    if a.running.Some? {
      var j := a.running.value;
      var w := (j: Job) => Tally(j, x);
      assert SumOf(Held(a.running), w) == Tally(j, x);
      if j.remaining == 1 {
        var ev := Event(j.proc.pid, Some(RUNNING), COMPLETED);
        assert Execute(a).now == a.now + [ev];
        EnteredAppend(a.now, [ev], COMPLETED);
        assert Entered([ev], COMPLETED) == multiset{j.proc.pid};
      } else {
        assert SumOf(Held(Execute(a).running), w) == Tally(j, x);
      }
    }
  }

  /** A unit on the CPU takes exactly one unit off the running process's
      demand, and reports nobody as entering RUNNING. */
  lemma ExecuteBacklog(a: State, x: Pid)
    ensures Backlog(Execute(a), x) + OnCpu(a, x) == Backlog(a, x)
    ensures Entered(Execute(a).now, RUNNING) == Entered(a.now, RUNNING)
    ensures Execute(a).timeline == a.timeline
  {
    ExecuteShare(a, x);
    ExecuteEvents(a);
  }

  lemma ExecuteShare(a: State, x: Pid)
    ensures Backlog(Execute(a), x) + OnCpu(a, x) == Backlog(a, x)
  {
    var r := Execute(a);
    if a.running.Some? {
      assert r.incoming == a.incoming && r.ready == a.ready;
      assert Held(a.running)[1..] == [];
      if a.running.value.remaining != 1 {
        assert Held(r.running)[1..] == [];
      }
    }
  }

  lemma ExecuteEvents(a: State)
    ensures Entered(Execute(a).now, RUNNING) == Entered(a.now, RUNNING)
    ensures Execute(a).timeline == a.timeline
  {
    if a.running.Some? && a.running.value.remaining == 1 {
      var ev := Event(a.running.value.proc.pid, Some(RUNNING), COMPLETED);
      assert Execute(a).now == a.now + [ev];
      EnteredAppend(a.now, [ev], RUNNING);
    }
  }

  /** A unit on the CPU consumes exactly one unit of CPU work. */
  lemma ExecuteUnits(a: State)
    requires a.running.Some?
    ensures Units(Execute(a)) == Units(a) - 1
  {
    assert Held(a.running)[1..] == [];
    if a.running.value.remaining != 1 {
      assert Held(Execute(a).running)[1..] == [];
    }
  }

  // ---------------------------------------------------------------------
  // One tick

  /** Closing a tick (`r` is the state after it) records the tick's events
      under it and leaves the queues alone. */
  lemma CloseKeeps(e: State, r: State, x: Pid)
    requires r == Close(e)
    ensures Finished(r.timeline)[x] == Finished(e.timeline)[x] + Completions(e.now)[x]
    ensures Reports(r.timeline, RUNNING)[x] == Reports(e.timeline, RUNNING)[x] + Entered(e.now, RUNNING)[x]
    ensures Census(r, x) == Census(e, x) && Backlog(r, x) == Backlog(e, x) && Units(r) == Units(e)
    ensures r.time == e.time + 1 && r.timeline == e.timeline + [e.now] && r.now == []
    ensures r.incoming == e.incoming && r.ready == e.ready && r.running == e.running
  {
    ReportsAppend(e.timeline, e.now, COMPLETED);
    ReportsAppend(e.timeline, e.now, RUNNING);
  }

  /** A tick keeps the invariant, records exactly one event list, under its
      own tick, and leaves the lists of earlier ticks as they were. */
  lemma TickKeeps(pol: Policy, s: State)
    requires Valid(pol, s)
    ensures var r := Tick(pol, s);
      && Valid(pol, r) && r.time == s.time + 1
      && |r.timeline| == |s.timeline| + 1 && s.timeline <= r.timeline
  {
    AdmitQueues(pol, s);
    var a := Admit(pol, s);
    AdmitReady(pol, s);
    PickQueues(pol, a, s.time + 1);
    ExecuteQueues(pol, Pick(a));
  }

  /** A tick neither loses nor duplicates a process: every process is in a
      queue, on the CPU, or reported COMPLETED, once. */
  lemma TickCensus(pol: Policy, s: State, x: Pid)
    requires s.now == []
    ensures Finished(Tick(pol, s).timeline)[x] + Census(Tick(pol, s), x) == Finished(s.timeline)[x] + Census(s, x)
  {
    var a := Admit(pol, s);
    AdmitReady(pol, s);
    assert Completions(s.now) == multiset{};
    AdmitCensus(pol, s, x);
    PickCensus(a, x);
    ExecuteCensus(Pick(a), x);
    CloseKeeps(Execute(Pick(a)), Tick(pol, s), x);
  }

  /** Every unit of CPU a tick gives is reported: the tick reports a process
      as entering RUNNING exactly as many times as it takes units off that
      process's demand. */
  lemma TickServes(pol: Policy, s: State, x: Pid)
    requires s.now == []
    ensures Reports(Tick(pol, s).timeline, RUNNING)[x] + Backlog(Tick(pol, s), x)
         == Reports(s.timeline, RUNNING)[x] + Backlog(s, x)
  {
    var a := Admit(pol, s);
    AdmitReady(pol, s);
    assert Entered(s.now, RUNNING) == multiset{};
    AdmitBacklog(pol, s, x);
    PickBacklog(a, x);
    ExecuteBacklog(Pick(a), x);
    CloseKeeps(Execute(Pick(a)), Tick(pol, s), x);
  }

  /** Every tick makes progress: the CPU runs a unit of work, or it stays
      free, the work is unchanged, and the next arrival draws one tick
      nearer. */
  lemma TickProgress(pol: Policy, s: State)
    requires Valid(pol, s) && Active(s)
    ensures var r := Tick(pol, s);
      Units(r) < Units(s) || (Units(r) == Units(s) && Gap(r) < Gap(s))
  {
    var a := Admit(pol, s);
    AdmitTotal(pol, s, (j: Job) => j.remaining);
    AdmitReady(pol, s);
    if |a.ready| > 0 {
      PickTotal(a, (j: Job) => j.remaining);
      ExecuteUnits(Pick(a));
      CloseKeeps(Execute(Pick(a)), Tick(pol, s), "");
    } else {
      TickWaits(pol, s);
    }
  }

  /** A tick in which READY stays empty changes nothing but the clock, and
      brings every pending arrival one tick nearer. */
  lemma TickWaits(pol: Policy, s: State)
    requires Valid(pol, s) && Active(s) && |Admit(pol, s).ready| == 0
    ensures Units(Tick(pol, s)) == Units(s) && Gap(Tick(pol, s)) < Gap(s)
  {
    AdmitNothing(pol, s);
    var r := Tick(pol, s);
    assert r.incoming == s.incoming && r.ready == s.ready && r.running == s.running && r.time == s.time + 1;
    var t := s.time;
    SumShift(s.incoming, (j: Job) => Until(j.proc.arrival, t), (j: Job) => Until(j.proc.arrival, t + 1));
  }

  // ---------------------------------------------------------------------
  // The loop

  /** Runs the loop until NEW, READY and the CPU are all empty. Every
      process in the queues or on the CPU at the start is reported
      COMPLETED exactly once along the way and reported entering RUNNING
      once per unit of CPU it still had to run; ticks already recorded are
      kept. */
  function Run(pol: Policy, s: State): (r: State)
    requires Valid(pol, s)
    ensures !Active(r)
    ensures s.timeline <= r.timeline
    ensures forall x :: Finished(r.timeline)[x] == Finished(s.timeline)[x] + Census(s, x)
    ensures forall x :: Reports(r.timeline, RUNNING)[x] == Reports(s.timeline, RUNNING)[x] + Backlog(s, x)
    decreases Units(s), Gap(s)
  {
    if !Active(s) then s
    else
      var t := Tick(pol, s);
      TickKeeps(pol, s);
      TickProgress(pol, s);
      UnitsNonNegative(pol, t);
      var r := Run(pol, t);
      assert forall x :: Finished(r.timeline)[x] == Finished(s.timeline)[x] + Census(s, x) by {
        forall x ensures Finished(r.timeline)[x] == Finished(s.timeline)[x] + Census(s, x) {
          TickCensus(pol, s, x);
        }
      }
      assert forall x :: Reports(r.timeline, RUNNING)[x] == Reports(s.timeline, RUNNING)[x] + Backlog(s, x) by {
        forall x ensures Reports(r.timeline, RUNNING)[x] == Reports(s.timeline, RUNNING)[x] + Backlog(s, x) {
          TickServes(pol, s, x);
        }
      }
      r
  }

  /** The initial state: every process in NEW, sorted by arrival, with its
      whole CPU demand remaining, nothing recorded yet. */
  function Start(procs: seq<Proc>): State
  {
    State(0, 0, FreshAll(SortByArrival(procs), (p: Proc) => CpuTotal(p.bursts)), [], None, [], [])
  }

  lemma StartKeeps(pol: Policy, procs: seq<Proc>)
    requires Preemptive(pol)
    requires forall i :: 0 <= i < |procs| ==> Runnable(pol, procs[i])
    ensures Valid(pol, Start(procs))
  {
    var incoming := Start(procs).incoming;
    var sorted := SortByArrival(procs);
    forall i | 0 <= i < |incoming| ensures Live(pol, incoming[i]) && incoming[i].proc.arrival >= 0 {
      assert sorted[i] in multiset(procs);
      assert sorted[i] in procs;
    }
  }

  /** The total CPU demand of the submissions of process `x`. */
  function Demand(procs: seq<Proc>, x: Pid): int
  {
    SumOf(procs, (p: Proc) => if p.pid == x then CpuTotal(p.bursts) else 0)
  }

  /** At the start, each process appears in NEW as often as it was
      submitted. */
  lemma StartCensus(procs: seq<Proc>, x: Pid)
    ensures Census(Start(procs), x) == BagOf(procs, (p: Proc) => p.pid)[x]
  {
    var incoming := Start(procs).incoming;
    FreshAllBag(SortByArrival(procs), (p: Proc) => CpuTotal(p.bursts));
    BagOfImage(incoming, (j: Job) => j.proc, procs, (p: Proc) => p.pid, (j: Job) => j.proc.pid);
    BagCount(incoming, (j: Job) => j.proc.pid, x, (j: Job) => Tally(j, x));
  }

  /** At the start, each process has its whole demand still to run. */
  lemma StartBacklog(procs: seq<Proc>, x: Pid)
    ensures Backlog(Start(procs), x) == Demand(procs, x)
  {
    var incoming := Start(procs).incoming;
    FreshAllBag(SortByArrival(procs), (p: Proc) => CpuTotal(p.bursts));
    SumOfImage(incoming, (j: Job) => j.proc, procs, (p: Proc) => if p.pid == x then CpuTotal(p.bursts) else 0,
               (j: Job) => Share(j, x));
  }

  /** A whole visualisation: one event list per tick from 0 until the
      queues and the CPU are empty, in which every submitted process is
      reported COMPLETED exactly as often as it was submitted, and reported
      entering RUNNING at exactly as many ticks as its CPU bursts add up
      to. */
  method Simulate(pol: Policy, procs: seq<Proc>) returns (timeline: seq<seq<Event>>)
    requires Preemptive(pol)
    requires forall i :: 0 <= i < |procs| ==> Runnable(pol, procs[i])
    ensures Finished(timeline) == BagOf(procs, (p: Proc) => p.pid)
    ensures forall x :: Reports(timeline, RUNNING)[x] == Demand(procs, x)
  {
    StartKeeps(pol, procs);
    timeline := Run(pol, Start(procs)).timeline;
    RunFinishesEach(pol, procs);
    RunServesEach(pol, procs);
  }

  lemma RunFinishesEach(pol: Policy, procs: seq<Proc>)
    requires Preemptive(pol)
    requires forall i :: 0 <= i < |procs| ==> Runnable(pol, procs[i])
    ensures (StartKeeps(pol, procs); Finished(Run(pol, Start(procs)).timeline) == BagOf(procs, (p: Proc) => p.pid))
  {
    StartKeeps(pol, procs);
    var timeline := Run(pol, Start(procs)).timeline;
    forall x ensures Finished(timeline)[x] == BagOf(procs, (p: Proc) => p.pid)[x] {
      StartCensus(procs, x);
    }
  }

  lemma RunServesEach(pol: Policy, procs: seq<Proc>)
    requires Preemptive(pol)
    requires forall i :: 0 <= i < |procs| ==> Runnable(pol, procs[i])
    ensures (StartKeeps(pol, procs); forall x :: Reports(Run(pol, Start(procs)).timeline, RUNNING)[x] == Demand(procs, x))
  {
    StartKeeps(pol, procs);
    var timeline := Run(pol, Start(procs)).timeline;
    forall x ensures Reports(timeline, RUNNING)[x] == Demand(procs, x) {
      StartBacklog(procs, x);
    }
  }

}
