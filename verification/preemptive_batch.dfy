/** The preemptive batch engine shared by `srtf_view`, `lrtf_view` and
    `preemptive_priority_view`: the clock advances one unit per iteration,
    every iteration re-selects from READY, and the process that ran last
    is pushed back behind the newcomers of the same instant. A process's
    CPU demand is the sum of its CPU bursts taken as one piece; I/O bursts
    are ignored and the context switch is never applied. */
module PreemptiveBatch {
  import opened Wrappers
  import opened Seqs
  import opened Processes
  import opened Policies
  import opened ReadyQueue
  import opened ArrivalOrder
  import Metrics

  /** The loop's variables: simulated time, the heap tie counter, NEW, the
      READY heap, the process that ran in the previous unit, the completed
      records and the Gantt chart. */
  datatype State = State(time: int, tie: int, incoming: seq<Job>, ready: seq<Entry>,
                         current: Option<Job>, completed: seq<Job>, gantt: seq<Segment>)

  /** What the loop needs of a submitted process: positive total CPU demand,
      so that counting down by one reaches zero exactly, and a priority
      under the preemptive priority policy. */
  predicate Runnable(pol: Policy, p: Proc)
  {
    CpuTotal(p.bursts) > 0 && (UsesPriority(pol) ==> p.priority.Some?)
  }

  /** A record still to finish: CPU time used plus CPU time left is its
      whole demand, and some is left. */
  predicate Live(pol: Policy, j: Job)
  {
    && Runnable(pol, j.proc)
    && j.remaining > 0 && j.completion.None?
    && j.burstTime + j.remaining == CpuTotal(j.proc.bursts)
  }

  /** A completed record: its whole demand ran, response and completion set. */
  predicate Finished(j: Job)
  {
    && j.remaining == 0
    && j.burstTime == CpuTotal(j.proc.bursts)
    && j.completion.Some? && j.response.Some?
  }

  predicate ValidIncoming(pol: Policy, s: State)
  {
    && JobsByArrival(s.incoming)
    && (forall i :: 0 <= i < |s.incoming| ==> Live(pol, s.incoming[i]) && s.incoming[i].response.None?)
  }

  predicate ValidReady(pol: Policy, s: State)
  {
    && Ordered(pol, s.ready, s.tie)
    && AllLive(pol, s.ready)
  }

  predicate ValidCurrent(pol: Policy, s: State)
  {
    s.current.Some? ==> Live(pol, s.current.value) && s.current.value.response.Some?
  }

  predicate ValidCompleted(s: State)
  {
    forall i :: 0 <= i < |s.completed| ==> Finished(s.completed[i])
  }

  predicate Valid(pol: Policy, s: State)
  {
    && Preemptive(pol)
    && ValidIncoming(pol, s) && ValidReady(pol, s) && ValidCurrent(pol, s) && ValidCompleted(s)
  }

  /** The loop condition `new or ready or current`. */
  predicate Active(s: State)
  {
    |s.incoming| > 0 || |s.ready| > 0 || s.current.Some?
  }

  /** CPU units a record has still to run. */
  function Left(j: Job): nat
  {
    if j.remaining > 0 then j.remaining else 0
  }

  /** CPU units still to run, over NEW, READY and the held process. */
  function Work(s: State): int
  {
    SumOf(s.incoming, (j: Job) => Left(j)) + SumOf(s.ready, (e: Entry) => Left(e.job))
      + SumOf(Held(s.current), (j: Job) => Left(j))
  }

  /** Every process of the run, wherever it is. */
  function Pool(s: State): multiset<Proc>
  {
    BagOf(s.incoming, (j: Job) => j.proc) + BagOf(s.ready, (e: Entry) => e.job.proc)
      + BagOf(Held(s.current), (j: Job) => j.proc) + BagOf(s.completed, (j: Job) => j.proc)
  }

  /** How many times `p` occurs, wherever it is: `Pool(s)[p]`, counted with
      integer sums (see `PoolCount`). */
  function Census(s: State, p: Proc): int
  {
    SumOf(s.incoming, (j: Job) => Hit(j.proc, p)) + SumOf(s.ready, (e: Entry) => Hit(e.job.proc, p))
      + SumOf(Held(s.current), (j: Job) => Hit(j.proc, p)) + SumOf(s.completed, (j: Job) => Hit(j.proc, p))
  }

  lemma PoolCount(s: State, p: Proc)
    ensures Pool(s)[p] == Census(s, p)
  {
    BagCount(s.incoming, (j: Job) => j.proc, p, (j: Job) => Hit(j.proc, p));
    BagCount(s.ready, (e: Entry) => e.job.proc, p, (e: Entry) => Hit(e.job.proc, p));
    BagCount(Held(s.current), (j: Job) => j.proc, p, (j: Job) => Hit(j.proc, p));
    BagCount(s.completed, (j: Job) => j.proc, p, (j: Job) => Hit(j.proc, p));
  }

  lemma WorkNonNegative(s: State)
    ensures Work(s) >= 0
  {
    SumNonNegative(s.incoming, (j: Job) => Left(j));
    SumNonNegative(s.ready, (e: Entry) => Left(e.job));
    SumNonNegative(Held(s.current), (j: Job) => Left(j));
  }

  /** Time units until the head of NEW arrives, while it is still ahead. */
  function Wait(s: State): nat
  {
    if |s.incoming| > 0 && s.incoming[0].proc.arrival > s.time then s.incoming[0].proc.arrival - s.time else 0
  }

  // ---------------------------------------------------------------------
  // Admission: NEW -> READY, then the held process back onto READY

  /** The NEW processes that have arrived by `time`, in NEW order. */
  function Arrived(s: State): seq<Job>
  {
    Filter(s.incoming, (j: Job) => j.proc.arrival <= s.time)
  }

  /** Pushes every NEW process that has arrived, then the process that ran
      in the previous unit, each with the next tie. */
  function Admit(pol: Policy, s: State): State
  {
    var arrived := Arrived(s);
    var held := Held(s.current);
    s.(tie := s.tie + |arrived| + |held|,
       incoming := Filter(s.incoming, (j: Job) => j.proc.arrival > s.time),
       ready := s.ready + Entries(pol, s.tie, arrived) + Entries(pol, s.tie + |arrived|, held),
       current := None)
  }

  /** Every record queued on `q` is live. */
  predicate AllLive(pol: Policy, q: seq<Entry>)
  {
    forall i :: 0 <= i < |q| ==> Live(pol, q[i].job)
  }

  /** Pushing live records onto a queue of live records keeps every
      record on it live. */
  lemma PushLive(pol: Policy, q: seq<Entry>, tie: int, js: seq<Job>)
    requires AllLive(pol, q) && forall i :: 0 <= i < |js| ==> Live(pol, js[i])
    ensures AllLive(pol, q + Entries(pol, tie, js))
  {
    var r := q + Entries(pol, tie, js);
    forall i | 0 <= i < |r| ensures Live(pol, r[i].job) {
      if i >= |q| {
        assert r[i].job == js[i - |q|];
      }
    }
  }

  lemma AdmitValidReady(pol: Policy, s: State)
    requires ValidIncoming(pol, s) && ValidReady(pol, s) && ValidCurrent(pol, s)
    ensures ValidReady(pol, Admit(pol, s))
  {
    var r := Admit(pol, s);
    AdmitReady(pol, s);
    AdmitArrivedLive(pol, s);
    PushTwiceOrdered(pol, s.ready, s.tie, Arrived(s), Held(s.current), r.ready, r.tie);
    PushTwiceLive(pol, s.ready, s.tie, Arrived(s), Held(s.current), r.ready);
  }

  /** Pushing two batches of live records onto a queue of live records
      (`r` is the queue after them) keeps every record live. */
  lemma PushTwiceLive(pol: Policy, q: seq<Entry>, tie: int, a: seq<Job>, b: seq<Job>, r: seq<Entry>)
    requires AllLive(pol, q)
    requires forall i :: 0 <= i < |a| ==> Live(pol, a[i])
    requires forall i :: 0 <= i < |b| ==> Live(pol, b[i])
    requires r == q + Entries(pol, tie, a) + Entries(pol, tie + |a|, b)
    ensures AllLive(pol, r)
  {
    PushLive(pol, q, tie, a);
    PushLive(pol, q + Entries(pol, tie, a), tie + |a|, b);
  }

  /** Everything admission takes from NEW is live. */
  lemma AdmitArrivedLive(pol: Policy, s: State)
    requires ValidIncoming(pol, s)
    ensures forall i :: 0 <= i < |Arrived(s)| ==> Live(pol, Arrived(s)[i])
  {
    var arrived := Arrived(s);
    FilterSubset(s.incoming, (j: Job) => j.proc.arrival <= s.time);
    forall i | 0 <= i < |arrived| ensures Live(pol, arrived[i]) {
      assert arrived[i] in s.incoming;
    }
  }

  /** Where admission puts the arrivals and the held record: behind what
      READY held, arrivals first, with consecutive ties. */
  lemma AdmitReady(pol: Policy, s: State)
    ensures var arrived := Arrived(s);
            var held := Held(s.current);
            var r := Admit(pol, s);
      && r.ready == s.ready + Entries(pol, s.tie, arrived) + Entries(pol, s.tie + |arrived|, held)
      && r.tie == s.tie + |arrived| + |held|
  {
  }

  /** Admission puts into READY exactly the records to be scheduled now:
      the entries already waiting keep their places in front, and behind
      them come every NEW record that has arrived and the process that ran
      in the previous unit, and nothing else, one entry for each record
      taken out of NEW or the held slot, each keyed by the policy with a tie
      drawn after every earlier one. */
  lemma AdmitEnqueues(pol: Policy, s: State)
    ensures var r := Admit(pol, s);
      && |s.ready| <= |r.ready| && r.ready[..|s.ready|] == s.ready
      && var added := r.ready[|s.ready|..];
      && (forall j :: j in Jobs(added) <==> (j in s.incoming && j.proc.arrival <= s.time) || s.current == Some(j))
      && |added| == (|s.incoming| - |r.incoming|) + (if s.current.Some? then 1 else 0)
      && (forall k :: 0 <= k < |added| ==> added[k].key == Key(pol, added[k].job) && s.tie <= added[k].tie < r.tie)
  {
    var r := Admit(pol, s);
    AdmitReady(pol, s);
    PushTwiceAdds(pol, s.ready, s.tie, Arrived(s), Held(s.current), r.ready);
    FilterMembers(s.incoming, (j: Job) => j.proc.arrival <= s.time);
    FilterLength(s.incoming, (j: Job) => j.proc.arrival <= s.time, (j: Job) => j.proc.arrival > s.time);
  }

  /** Admission keeps the invariant. */
  lemma AdmitValid(pol: Policy, s: State)
    requires Valid(pol, s)
    ensures Valid(pol, Admit(pol, s))
  {
    var f := (j: Job) => j.proc.arrival > s.time;
    FilterKeepsArrivalOrder(s.incoming, f);
    FilterSubset(s.incoming, f);
    AdmitValidReady(pol, s);
  }

  /** Admission moves records onto READY without losing CPU work. */
  lemma AdmitWork(pol: Policy, s: State)
    ensures Work(Admit(pol, s)) == Work(s)
  {
    AdmitSum(pol, s, (j: Job) => Left(j), (e: Entry) => Left(e.job));
  }

  /** Admission neither loses nor duplicates a process. */
  lemma AdmitPool(pol: Policy, s: State)
    ensures Pool(Admit(pol, s)) == Pool(s)
  {
    forall p: Proc ensures Pool(Admit(pol, s))[p] == Pool(s)[p] {
      PoolCount(Admit(pol, s), p);
      PoolCount(s, p);
      AdmitSum(pol, s, (j: Job) => Hit(j.proc, p), (e: Entry) => Hit(e.job.proc, p));
    }
  }

  /** Admission moves records between NEW, READY and the held slot and
      changes none of them, so any per-record weight summed over the three
      is kept. */
  lemma AdmitSum(pol: Policy, s: State, jw: Job -> int, ew: Entry -> int)
    requires forall e :: ew(e) == jw(e.job)
    ensures var r := Admit(pol, s);
      SumOf(r.incoming, jw) + SumOf(r.ready, ew) + SumOf(Held(r.current), jw)
      == SumOf(s.incoming, jw) + SumOf(s.ready, ew) + SumOf(Held(s.current), jw)
  {
    var r := Admit(pol, s);
    SumFilter(s.incoming, (j: Job) => j.proc.arrival <= s.time, (j: Job) => j.proc.arrival > s.time, jw);
    assert SumOf(r.incoming, jw) + SumOf(Arrived(s), jw) == SumOf(s.incoming, jw);
    AdmitReady(pol, s);
    PushTwiceSum(pol, s.ready, s.tie, Arrived(s), Held(s.current), r.ready, jw, ew);
  }

  /** With READY still empty after admission nothing had arrived and no
      process was held, so NEW is untouched and its head is still ahead. */
  lemma AdmitNothing(pol: Policy, s: State)
    requires JobsByArrival(s.incoming) && |Admit(pol, s).ready| == 0
    ensures s.current.None? && |s.ready| == 0 && Admit(pol, s) == s.(current := None)
    ensures |s.incoming| > 0 ==> s.incoming[0].proc.arrival > s.time
  {
    var f := (j: Job) => j.proc.arrival <= s.time;
    var g := (j: Job) => j.proc.arrival > s.time;
    forall i | 0 <= i < |s.incoming| ensures g(s.incoming[i]) {
      if f(s.incoming[i]) {
        FilterKeeps(s.incoming, f, i);
      }
    }
    FilterAll(s.incoming, g);
  }

  // ---------------------------------------------------------------------
  // One time unit on the CPU

  /** Pops the heap minimum, sets its response time if unset, runs it for
      one unit and appends the unit segment; it completes at the new time
      when nothing is left, and is otherwise held for the next iteration. */
  function Tick(a: State): State
    requires |a.ready| > 0
  {
    var k := MinIndex(a.ready);
    var p := a.ready[k].job;
    var t := a.time + 1;
    var ran := p.(remaining := p.remaining - 1, burstTime := p.burstTime + 1,
                  response := if p.response.None? then Some(a.time - p.proc.arrival) else p.response);
    var seg := Segment(Ran(p.proc.pid), a.time, t);
    if ran.remaining == 0 then
      a.(time := t, ready := Remove(a.ready, k), completed := a.completed + [ran.(completion := Some(t))],
         gantt := a.gantt + [seg])
    else
      a.(time := t, ready := Remove(a.ready, k), current := Some(ran), gantt := a.gantt + [seg])
  }

  /** What one unit does to the process it runs: it is the heap minimum,
      its response is set at its first unit only, one unit moves from its
      remaining demand to its CPU time, the chart gains `[time, time + 1)`
      for it, and it completes at `time + 1` exactly when nothing is left. */
  lemma TickRecord(pol: Policy, a: State)
    requires Valid(pol, a) && |a.ready| > 0 && a.current.None?
    ensures var k := MinIndex(a.ready);
            var p := a.ready[k].job;
            var r := Tick(a);
            var d := if r.current.Some? then r.current.value else r.completed[|r.completed| - 1];
      && r.time == a.time + 1 && r.incoming == a.incoming && r.ready == Remove(a.ready, k)
      && r.gantt == a.gantt + [Segment(Ran(p.proc.pid), a.time, a.time + 1)]
      && (p.remaining == 1 <==> r.current.None?)
      && (p.remaining == 1 ==> r.completed == a.completed + [d] && d.completion == Some(a.time + 1))
      && (p.remaining > 1 ==> r.completed == a.completed)
      && d.proc == p.proc && d.remaining == p.remaining - 1 && d.burstTime == p.burstTime + 1
      && d.response == (if p.response.None? then Some(a.time - p.proc.arrival) else p.response)
  {
    assert Live(pol, a.ready[MinIndex(a.ready)].job);
  }

  lemma TickValid(pol: Policy, a: State)
    requires Valid(pol, a) && |a.ready| > 0 && a.current.None?
    ensures Valid(pol, Tick(a))
  {
    TickReady(pol, a);
    var k := MinIndex(a.ready);
    assert Live(pol, a.ready[k].job);
  }

  /** One unit keeps READY a heap of live entries. */
  lemma TickReady(pol: Policy, a: State)
    requires Valid(pol, a) && |a.ready| > 0 && a.current.None?
    ensures ValidReady(pol, Tick(a))
  {
    RemoveKeepsOrder(pol, a.ready, a.tie, MinIndex(a.ready));
  }

  /** One unit consumes exactly one unit of CPU work. */
  lemma TickWork(a: State)
    requires |a.ready| > 0 && a.current.None? && a.ready[MinIndex(a.ready)].job.remaining > 0
    ensures Work(Tick(a)) == Work(a) - 1
  {
    var r := Tick(a);
    SumRemove(a.ready, MinIndex(a.ready), (e: Entry) => Left(e.job));
    if r.current.Some? {
      assert Held(r.current)[1..] == [];
    }
  }

  /** One unit neither loses nor duplicates a process. */
  lemma TickPool(a: State)
    requires |a.ready| > 0 && a.current.None?
    ensures Pool(Tick(a)) == Pool(a)
  {
    forall p: Proc ensures Pool(Tick(a))[p] == Pool(a)[p] {
      PoolCount(Tick(a), p);
      PoolCount(a, p);
      TickCensus(a, p);
    }
  }

  lemma TickCensus(a: State, p: Proc)
    requires |a.ready| > 0 && a.current.None?
    ensures Census(Tick(a), p) == Census(a, p)
  {
    var k := MinIndex(a.ready);
    var r := Tick(a);
    var jh := (j: Job) => Hit(j.proc, p);
    SumRemove(a.ready, k, (e: Entry) => Hit(e.job.proc, p));
    if r.current.None? {
      var d := r.completed[|a.completed|];
      assert r.completed == a.completed + [d];
      SumAppend(a.completed, [d], jh);
    } else {
      assert Held(r.current)[1..] == [];
    }
  }

  /** One unit, summed up: the invariant and the processes are kept, one
      unit of work is consumed and one segment is appended. */
  lemma TickKeeps(pol: Policy, a: State)
    requires Valid(pol, a) && |a.ready| > 0 && a.current.None?
    ensures var r := Tick(a);
      && Valid(pol, r) && Pool(r) == Pool(a) && Work(r) == Work(a) - 1
      && r.time == a.time + 1 && |r.gantt| == |a.gantt| + 1 && a.gantt <= r.gantt
  {
    assert Live(pol, a.ready[MinIndex(a.ready)].job);
    TickValid(pol, a);
    TickWork(a);
    TickPool(a);
  }

  /** The unit goes to the policy's choice among everything READY after
      admission: the least remaining time under SRTF, the greatest under
      LRTF, the smallest priority number under preemptive priority. */
  lemma TickRunsPolicyChoice(pol: Policy, s: State)
    requires Valid(pol, s) && |Admit(pol, s).ready| > 0
    ensures var q := Admit(pol, s).ready;
            var p := q[MinIndex(q)].job;
      forall i :: 0 <= i < |q| ==>
        && (pol.SRTF? ==> p.remaining <= q[i].job.remaining)
        && (pol.LRTF? ==> p.remaining >= q[i].job.remaining)
        && (pol.PreemptivePriority? ==>
              && p.proc.priority.Some? && q[i].job.proc.priority.Some?
              && p.proc.priority.value <= q[i].job.proc.priority.value)
  {
    var q := Admit(pol, s).ready;
    AdmitValidReady(pol, s);
    forall i | 0 <= i < |q| ensures UsesPriority(pol) ==> q[i].job.proc.priority.Some? {
      assert Live(pol, q[i].job);
    }
    LeastKeyIsPolicyChoice(pol, q);
  }

  /** The process that ran in the previous unit is pushed back last, and
      it is selected again exactly when its key is strictly below every
      other READY key: on an equal key a newcomer of the same instant, or
      any entry already waiting, runs instead. */
  lemma HeldRunsOnlyIfStrictlyFirst(pol: Policy, s: State)
    requires Valid(pol, s) && s.current.Some?
    ensures var q := Admit(pol, s).ready;
      && |q| > 0 && q[|q| - 1].job == s.current.value
      && (MinIndex(q) == |q| - 1 <==> forall i :: 0 <= i < |q| - 1 ==> q[|q| - 1].key < q[i].key)
  {
    var r := Admit(pol, s);
    var q := r.ready;
    var e2 := Entries(pol, s.tie + |Arrived(s)|, Held(s.current));
    assert q == s.ready + Entries(pol, s.tie, Arrived(s)) + e2;
    assert q[|q| - 1] == e2[0];
    AdmitValid(pol, s);
    MinIndexFirstAmongEqualKeys(q, r.tie);
  }

  // ---------------------------------------------------------------------
  // The loop

  /** One iteration of `while new or ready or current`: with READY empty
      after admission the CPU waits one unit and no segment is emitted. */
  function Step(pol: Policy, s: State): State
    requires Valid(pol, s)
  {
    var a := Admit(pol, s);
    if |a.ready| > 0 then Tick(a) else a.(time := a.time + 1)
  }

  /** Every iteration keeps the invariant and the set of processes, moves
      the clock by one unit, emits at most one segment, and makes progress:
      it consumes a unit of work, or it waits and the head of NEW draws
      one unit nearer. */
  lemma StepKeeps(pol: Policy, s: State)
    requires Valid(pol, s) && Active(s)
    ensures var r := Step(pol, s);
      && Valid(pol, r) && Pool(r) == Pool(s) && r.time == s.time + 1
      && s.gantt <= r.gantt && |r.gantt| <= |s.gantt| + 1
      && (Work(r) < Work(s) || (Work(r) == Work(s) && Wait(r) < Wait(s)))
  {
    if |Admit(pol, s).ready| > 0 {
      StepTicks(pol, s);
    } else {
      StepWaits(pol, s);
    }
  }

  /** An iteration that finds READY non-empty after admission runs one
      unit and consumes one unit of work. */
  lemma StepTicks(pol: Policy, s: State)
    requires Valid(pol, s) && |Admit(pol, s).ready| > 0
    ensures var r := Step(pol, s);
      && Valid(pol, r) && Pool(r) == Pool(s) && r.time == s.time + 1
      && s.gantt <= r.gantt && |r.gantt| <= |s.gantt| + 1
      && Work(r) < Work(s)
  {
    AdmitValid(pol, s);
    AdmitWork(pol, s);
    AdmitPool(pol, s);
    TickKeeps(pol, Admit(pol, s));
  }

  /** An iteration that finds READY empty after admission only moves the
      clock, one unit nearer to the head of NEW. */
  lemma StepWaits(pol: Policy, s: State)
    requires Valid(pol, s) && Active(s) && |Admit(pol, s).ready| == 0
    ensures var r := Step(pol, s);
      && Valid(pol, r) && Pool(r) == Pool(s) && r.time == s.time + 1
      && r.gantt == s.gantt && Work(r) == Work(s) && Wait(r) < Wait(s)
  {
    AdmitNothing(pol, s);
  }

  /** Runs the loop until NEW, READY and the held slot are all empty. */
  function Run(pol: Policy, s: State): (r: State)
    requires Valid(pol, s)
    ensures Valid(pol, r) && !Active(r) && Pool(r) == Pool(s) && s.gantt <= r.gantt
    decreases Work(s), Wait(s)
  {
    if !Active(s) then s
    else
      var t := Step(pol, s);
      StepKeeps(pol, s);
      WorkNonNegative(t);
      var r := Run(pol, t);
      assert s.gantt <= t.gantt;
      r
  }

  /** The initial state: every process in NEW, sorted by arrival, with its
      whole CPU demand remaining. */
  function Start(procs: seq<Proc>): State
  {
    State(0, 0, FreshAll(SortByArrival(procs), (p: Proc) => CpuTotal(p.bursts)), [], None, [], [])
  }

  lemma StartKeeps(pol: Policy, procs: seq<Proc>)
    requires Preemptive(pol)
    requires forall i :: 0 <= i < |procs| ==> Runnable(pol, procs[i])
    ensures Valid(pol, Start(procs)) && Pool(Start(procs)) == multiset(procs)
  {
    StartIncoming(pol, procs);
    FreshAllBag(SortByArrival(procs), (p: Proc) => CpuTotal(p.bursts));
  }

  /** NEW starts sorted by arrival, with fresh live records. */
  lemma StartIncoming(pol: Policy, procs: seq<Proc>)
    requires forall i :: 0 <= i < |procs| ==> Runnable(pol, procs[i])
    ensures ValidIncoming(pol, Start(procs))
  {
    var s := Start(procs);
    var sorted := SortByArrival(procs);
    var total := (p: Proc) => CpuTotal(p.bursts);
    FreshKeepsArrivalOrder(sorted, total);
    forall i | 0 <= i < |s.incoming| ensures Live(pol, s.incoming[i]) && s.incoming[i].response.None? {
      assert sorted[i] in multiset(procs);
      assert sorted[i] in procs;
      assert s.incoming[i] == Fresh(sorted[i], CpuTotal(sorted[i].bursts));
    }
  }


  /** A whole simulation: every submitted process completes exactly once,
      with its whole CPU demand run and both times set. */
  method Simulate(pol: Policy, procs: seq<Proc>) returns (r: State)
    requires Preemptive(pol)
    requires forall i :: 0 <= i < |procs| ==> Runnable(pol, procs[i])
    ensures !Active(r)
    ensures BagOf(r.completed, (j: Job) => j.proc) == multiset(procs)
    ensures forall i :: 0 <= i < |r.completed| ==> Finished(r.completed[i])
  {
    StartKeeps(pol, procs);
    r := Run(pol, Start(procs));
  }

  /** The response of a preemptive batch view: one row per submitted
      process, its CPU time the sum of its CPU bursts. */
  method Schedule(pol: Policy, procs: seq<Proc>) returns (rep: Metrics.Report)
    requires Preemptive(pol)
    requires forall i :: 0 <= i < |procs| ==> Runnable(pol, procs[i])
    ensures |rep.processes| == |procs|
    ensures forall i :: 0 <= i < |rep.processes| ==>
      rep.processes[i].tat == rep.processes[i].wt + rep.processes[i].burstTime
    ensures BagOf(rep.processes, Metrics.Summary) == BagOf(procs, Metrics.Expected)
  {
    var r := Simulate(pol, procs);
    assert forall i :: 0 <= i < |r.completed| ==> Metrics.Reportable(r.completed[i]);
    Metrics.ReportsEach(r.gantt, r.completed, r.time, procs);
    rep := Metrics.Build(r.gantt, r.completed, r.time);
  }
}
