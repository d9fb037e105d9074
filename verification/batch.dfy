/** The non-preemptive batch engine shared by `fcfs_view`, `sjf_view`,
    `ljf_view` and `priority_view`: time jumps from event to event, each
    dispatch runs a whole CPU burst, and an empty READY queue yields one IDLE
    segment up to the next arrival or unblock. The four views differ only
    in the READY order (`Policies.Key`, and FCFS's deque). */
module Batch {
  import opened Wrappers
  import opened Seqs
  import opened Processes
  import opened Policies
  import opened ReadyQueue
  import opened ArrivalOrder
  import Metrics

  /** The loop's variables: simulated time, the heap tie counter, the NEW,
      READY and BLOCKED queues, the completed records and the Gantt chart. */
  datatype State = State(time: int, tie: int, incoming: seq<Job>, ready: seq<Entry>,
                         blocked: seq<IoWait>, completed: seq<Job>, gantt: seq<Segment>)

  /** What the loop needs of a submitted process: a burst list that ends on
      a CPU burst, so that the cursor never indexes past it, and a priority
      under the priority policy. */
  predicate Runnable(pol: Policy, p: Proc)
  {
    EndsOnCpu(p.bursts) && (UsesPriority(pol) ==> p.priority.Some?)
  }

  /** A record not yet completed: the cursor is on a CPU burst and the CPU
      time used so far is exactly the CPU bursts before the cursor. */
  predicate Pending(pol: Policy, j: Job)
  {
    && Runnable(pol, j.proc)
    && j.index % 2 == 0 && j.index < |j.proc.bursts|
    && j.completion.None?
    && j.burstTime + CpuFrom(j.proc.bursts, j.index) == CpuTotal(j.proc.bursts)
  }

  /** Every record queued on `q` is pending. */
  predicate AllPending(pol: Policy, q: seq<Entry>)
  {
    forall i :: 0 <= i < |q| ==> Pending(pol, q[i].job)
  }

  /** Pushing pending records onto a queue of pending records keeps every
      record on it pending. */
  lemma PushPending(pol: Policy, q: seq<Entry>, tie: int, js: seq<Job>)
    requires AllPending(pol, q) && forall i :: 0 <= i < |js| ==> Pending(pol, js[i])
    ensures AllPending(pol, q + Entries(pol, tie, js))
  {
    var r := q + Entries(pol, tie, js);
    forall i | 0 <= i < |r| ensures Pending(pol, r[i].job) {
      if i >= |q| {
        assert r[i].job == js[i - |q|];
      }
    }
  }

  /** A completed record: cursor past the last burst, every CPU burst
      accounted for, response and completion times set. */
  predicate Done(j: Job)
  {
    && j.index == |j.proc.bursts|
    && j.burstTime == CpuTotal(j.proc.bursts)
    && j.completion.Some? && j.response.Some?
  }

  /** NEW: sorted by arrival, untouched records. */
  predicate ValidIncoming(pol: Policy, s: State)
  {
    && JobsByArrival(s.incoming)
    && (forall i :: 0 <= i < |s.incoming| ==>
          Pending(pol, s.incoming[i]) && s.incoming[i].index == 0 && s.incoming[i].response.None?)
  }

  /** READY: insertion-ordered entries keyed by the policy. */
  predicate ValidReady(pol: Policy, s: State)
  {
    && Ordered(pol, s.ready, s.tie)
    && AllPending(pol, s.ready)
  }

  /** BLOCKED: records that have been dispatched at least once. */
  predicate ValidBlocked(pol: Policy, s: State)
  {
    forall i :: 0 <= i < |s.blocked| ==> Pending(pol, s.blocked[i].job) && s.blocked[i].job.response.Some?
  }

  predicate ValidCompleted(s: State)
  {
    forall i :: 0 <= i < |s.completed| ==> Done(s.completed[i])
  }

  predicate Valid(pol: Policy, s: State)
  {
    && NonPreemptive(pol)
    && ValidIncoming(pol, s) && ValidReady(pol, s) && ValidBlocked(pol, s) && ValidCompleted(s)
  }

  /** The loop condition `new or ready or blocked`. */
  predicate Active(s: State)
  {
    |s.incoming| > 0 || |s.ready| > 0 || |s.blocked| > 0
  }

  /** CPU bursts a record has still to run. */
  function Units(j: Job): nat
  {
    if j.index < |j.proc.bursts| then (|j.proc.bursts| - j.index + 1) / 2 else 0
  }

  /** CPU bursts still to run, over every queue. */
  function Work(s: State): int
  {
    SumOf(s.incoming, (j: Job) => Units(j)) + SumOf(s.ready, (e: Entry) => Units(e.job))
      + SumOf(s.blocked, (w: IoWait) => Units(w.job))
  }

  /** Every process of the run, whichever queue holds it. */
  function Pool(s: State): multiset<Proc>
  {
    BagOf(s.incoming, (j: Job) => j.proc) + BagOf(s.ready, (e: Entry) => e.job.proc)
      + BagOf(s.blocked, (w: IoWait) => w.job.proc) + BagOf(s.completed, (j: Job) => j.proc)
  }

  /** How many times `p` occurs across the queues: `Pool(s)[p]`, counted
      with integer sums (see `PoolCount`). */
  function Census(s: State, p: Proc): int
  {
    SumOf(s.incoming, (j: Job) => Hit(j.proc, p)) + SumOf(s.ready, (e: Entry) => Hit(e.job.proc, p))
      + SumOf(s.blocked, (w: IoWait) => Hit(w.job.proc, p)) + SumOf(s.completed, (j: Job) => Hit(j.proc, p))
  }

  lemma PoolCount(s: State, p: Proc)
    ensures Pool(s)[p] == Census(s, p)
  {
    BagCount(s.incoming, (j: Job) => j.proc, p, (j: Job) => Hit(j.proc, p));
    BagCount(s.ready, (e: Entry) => e.job.proc, p, (e: Entry) => Hit(e.job.proc, p));
    BagCount(s.blocked, (w: IoWait) => w.job.proc, p, (w: IoWait) => Hit(w.job.proc, p));
    BagCount(s.completed, (j: Job) => j.proc, p, (j: Job) => Hit(j.proc, p));
  }

  lemma WorkNonNegative(s: State)
    ensures Work(s) >= 0
  {
    SumNonNegative(s.incoming, (j: Job) => Units(j));
    SumNonNegative(s.ready, (e: Entry) => Units(e.job));
    SumNonNegative(s.blocked, (w: IoWait) => Units(w.job));
  }

  // ---------------------------------------------------------------------
  // Admission: NEW -> READY, then BLOCKED -> READY

  /** The NEW processes that have arrived by `time`, in NEW order. */
  function Arrived(s: State): seq<Job>
  {
    Filter(s.incoming, (j: Job) => j.proc.arrival <= s.time)
  }

  /** The BLOCKED pairs whose unblock time has come, in BLOCKED order. */
  function Due(s: State): seq<IoWait>
  {
    Filter(s.blocked, (w: IoWait) => w.unblock <= s.time)
  }

  /** Moves every NEW process that has arrived, then every BLOCKED process
      whose unblock time has come, onto READY, each with the next tie. */
  function Admit(pol: Policy, s: State): State
  {
    var arrived := Arrived(s);
    var woken := Unwrap(Due(s));
    s.(tie := s.tie + |arrived| + |woken|,
       incoming := Filter(s.incoming, (j: Job) => j.proc.arrival > s.time),
       ready := s.ready + Entries(pol, s.tie, arrived) + Entries(pol, s.tie + |arrived|, woken),
       blocked := Filter(s.blocked, (w: IoWait) => w.unblock > s.time))
  }

  /** After admission nothing that was due is left behind: every NEW
      process arrives later and every BLOCKED process unblocks later, and
      the loop condition is unchanged. */
  lemma AdmitLeavesNothingDue(pol: Policy, s: State)
    ensures var r := Admit(pol, s);
      && (forall i :: 0 <= i < |r.incoming| ==> r.incoming[i].proc.arrival > s.time)
      && (forall i :: 0 <= i < |r.blocked| ==> r.blocked[i].unblock > s.time)
      && Active(r) == Active(s)
  {
    var r := Admit(pol, s);
    if |s.incoming| > 0 && |r.incoming| == 0 {
      FilterKeeps(s.incoming, (j: Job) => j.proc.arrival <= s.time, 0);
    }
    if |s.blocked| > 0 && |r.blocked| == 0 {
      FilterKeeps(s.blocked, (w: IoWait) => w.unblock <= s.time, 0);
    }
  }

  /** Admission keeps the invariant. */
  lemma AdmitValid(pol: Policy, s: State)
    requires Valid(pol, s)
    ensures Valid(pol, Admit(pol, s))
  {
    AdmitValidIncoming(pol, s);
    AdmitValidReady(pol, s);
    AdmitValidBlocked(pol, s);
  }

  lemma AdmitValidIncoming(pol: Policy, s: State)
    requires ValidIncoming(pol, s)
    ensures ValidIncoming(pol, Admit(pol, s))
  {
    var f := (j: Job) => j.proc.arrival > s.time;
    FilterKeepsArrivalOrder(s.incoming, f);
    FilterSubset(s.incoming, f);
  }

  lemma AdmitValidBlocked(pol: Policy, s: State)
    requires ValidBlocked(pol, s)
    ensures ValidBlocked(pol, Admit(pol, s))
  {
    FilterSubset(s.blocked, (w: IoWait) => w.unblock > s.time);
  }

  lemma AdmitValidReady(pol: Policy, s: State)
    requires ValidIncoming(pol, s) && ValidReady(pol, s) && ValidBlocked(pol, s)
    ensures ValidReady(pol, Admit(pol, s))
  {
    var r := Admit(pol, s);
    AdmitReady(pol, s);
    AdmitPending(pol, s);
    PushTwiceOrdered(pol, s.ready, s.tie, Arrived(s), Unwrap(Due(s)), r.ready, r.tie);
    PushTwicePending(pol, s.ready, s.tie, Arrived(s), Unwrap(Due(s)), r.ready);
  }

  /** Pushing two batches of pending records onto a queue of pending
      records (`r` is the queue after them) keeps every record pending. */
  lemma PushTwicePending(pol: Policy, q: seq<Entry>, tie: int, a: seq<Job>, b: seq<Job>, r: seq<Entry>)
    requires AllPending(pol, q)
    requires forall i :: 0 <= i < |a| ==> Pending(pol, a[i])
    requires forall i :: 0 <= i < |b| ==> Pending(pol, b[i])
    requires r == q + Entries(pol, tie, a) + Entries(pol, tie + |a|, b)
    ensures AllPending(pol, r)
  {
    PushPending(pol, q, tie, a);
    PushPending(pol, q + Entries(pol, tie, a), tie + |a|, b);
  }

  /** Everything admission moves onto READY is still pending. */
  lemma AdmitPending(pol: Policy, s: State)
    requires ValidIncoming(pol, s) && ValidBlocked(pol, s)
    ensures forall i :: 0 <= i < |Arrived(s)| ==> Pending(pol, Arrived(s)[i])
    ensures forall i :: 0 <= i < |Unwrap(Due(s))| ==> Pending(pol, Unwrap(Due(s))[i])
  {
    var arrived := Arrived(s);
    var due := Due(s);
    FilterSubset(s.incoming, (j: Job) => j.proc.arrival <= s.time);
    FilterSubset(s.blocked, (w: IoWait) => w.unblock <= s.time);
    forall i | 0 <= i < |arrived| ensures Pending(pol, arrived[i]) {
      assert arrived[i] in s.incoming;
    }
    forall i | 0 <= i < |due| ensures Pending(pol, due[i].job) {
      assert due[i] in s.blocked;
    }
  }

  /** Where admission puts the arrivals and the woken records: behind what
      READY held, arrivals first, with consecutive ties. */
  lemma AdmitReady(pol: Policy, s: State)
    ensures var arrived := Arrived(s);
            var woken := Unwrap(Due(s));
            var r := Admit(pol, s);
      && r.ready == s.ready + Entries(pol, s.tie, arrived) + Entries(pol, s.tie + |arrived|, woken)
      && r.tie == s.tie + |arrived| + |woken|
  {
  }

  /** Admission puts into READY exactly the records that are due: the
      entries already waiting keep their places in front, and behind them
      come every NEW record that has arrived and every BLOCKED record whose
      unblock time has come, and nothing else, one entry for each record
      taken out of NEW or BLOCKED, each keyed by the policy with a tie
      drawn after every earlier one. */
  lemma AdmitEnqueues(pol: Policy, s: State)
    ensures var r := Admit(pol, s);
      && |s.ready| <= |r.ready| && r.ready[..|s.ready|] == s.ready
      && var added := r.ready[|s.ready|..];
      && (forall j :: j in Jobs(added) <==>
            (j in s.incoming && j.proc.arrival <= s.time)
            || (exists w :: w in s.blocked && w.unblock <= s.time && w.job == j))
      && |added| == (|s.incoming| - |r.incoming|) + (|s.blocked| - |r.blocked|)
      && (forall k :: 0 <= k < |added| ==> added[k].key == Key(pol, added[k].job) && s.tie <= added[k].tie < r.tie)
  {
    var r := Admit(pol, s);
    var arrived, woken := Arrived(s), Unwrap(Due(s));
    AdmitReady(pol, s);
    PushTwiceAdds(pol, s.ready, s.tie, arrived, woken, r.ready);
    DueMembers(s, Jobs(r.ready[|s.ready|..]));
    DueCount(pol, s);
  }

  /** The records due at `time`, described without the filters. */
  lemma DueMembers(s: State, js: seq<Job>)
    requires js == Arrived(s) + Unwrap(Due(s))
    ensures forall j :: j in js <==>
      (j in s.incoming && j.proc.arrival <= s.time)
      || (exists w :: w in s.blocked && w.unblock <= s.time && w.job == j)
  {
    FilterMembers(s.incoming, (j: Job) => j.proc.arrival <= s.time);
    FilterMembers(s.blocked, (w: IoWait) => w.unblock <= s.time);
    UnwrapMembers(Due(s));
  }

  /** As many records are due as admission takes out of NEW and BLOCKED. */
  lemma DueCount(pol: Policy, s: State)
    ensures var r := Admit(pol, s);
      |Arrived(s)| + |Unwrap(Due(s))| == (|s.incoming| - |r.incoming|) + (|s.blocked| - |r.blocked|)
  {
    FilterLength(s.incoming, (j: Job) => j.proc.arrival <= s.time, (j: Job) => j.proc.arrival > s.time);
    FilterLength(s.blocked, (w: IoWait) => w.unblock <= s.time, (w: IoWait) => w.unblock > s.time);
  }

  /** Admission moves records between queues without losing CPU work. */
  lemma AdmitWork(pol: Policy, s: State)
    ensures Work(Admit(pol, s)) == Work(s)
  {
    AdmitSum(pol, s, (j: Job) => Units(j), (e: Entry) => Units(e.job), (w: IoWait) => Units(w.job));
  }

  /** Admission moves records between queues and changes none of them, so
      any per-record weight summed over NEW, READY and BLOCKED is kept. */
  lemma AdmitSum(pol: Policy, s: State, jw: Job -> int, ew: Entry -> int, ww: IoWait -> int)
    requires forall e :: ew(e) == jw(e.job)
    requires forall w :: ww(w) == jw(w.job)
    ensures var r := Admit(pol, s);
      SumOf(r.incoming, jw) + SumOf(r.ready, ew) + SumOf(r.blocked, ww)
      == SumOf(s.incoming, jw) + SumOf(s.ready, ew) + SumOf(s.blocked, ww)
  {
    var r := Admit(pol, s);
    SumFilter(s.incoming, (j: Job) => j.proc.arrival <= s.time, (j: Job) => j.proc.arrival > s.time, jw);
    assert SumOf(r.incoming, jw) + SumOf(Arrived(s), jw) == SumOf(s.incoming, jw);
    SumFilter(s.blocked, (w: IoWait) => w.unblock <= s.time, (w: IoWait) => w.unblock > s.time, ww);
    UnwrapSum(Due(s), jw, ww);
    assert SumOf(r.blocked, ww) + SumOf(Unwrap(Due(s)), jw) == SumOf(s.blocked, ww);
    AdmitReady(pol, s);
    PushTwiceSum(pol, s.ready, s.tie, Arrived(s), Unwrap(Due(s)), r.ready, jw, ew);
  }

  /** Admission neither loses nor duplicates a process. */
  lemma AdmitPool(pol: Policy, s: State)
    ensures Pool(Admit(pol, s)) == Pool(s)
  {
    forall p: Proc ensures Pool(Admit(pol, s))[p] == Pool(s)[p] {
      PoolCount(Admit(pol, s), p);
      PoolCount(s, p);
      AdmitCensus(pol, s, p);
    }
  }

  lemma AdmitCensus(pol: Policy, s: State, p: Proc)
    ensures Census(Admit(pol, s), p) == Census(s, p)
  {
    AdmitSum(pol, s, (j: Job) => Hit(j.proc, p), (e: Entry) => Hit(e.job.proc, p), (w: IoWait) => Hit(w.job.proc, p));
  }

  // ---------------------------------------------------------------------
  // Dispatch: run the selected process's whole CPU burst

  /** The record READY hands to the CPU: the head of FCFS's deque, the heap
      minimum otherwise. */
  function Chosen(pol: Policy, a: State): Job
    requires |a.ready| > 0
  {
    a.ready[Selected(pol, a.ready)].job
  }

  /** The record a dispatch runs is the policy's choice among READY: the
      one queued first under FCFS, the shortest next CPU burst under SJF,
      the longest under LJF, the smallest priority number under Priority. */
  lemma ChosenIsPolicyChoice(pol: Policy, a: State)
    requires Valid(pol, a) && |a.ready| > 0
    ensures var k := Selected(pol, a.ready);
            var p := Chosen(pol, a);
      forall i :: 0 <= i < |a.ready| ==>
        var o := a.ready[i].job;
        && (pol.FCFS? ==> a.ready[k].tie <= a.ready[i].tie)
        && (pol.SJF? ==> p.proc.bursts[p.index] <= o.proc.bursts[o.index])
        && (pol.LJF? ==> p.proc.bursts[p.index] >= o.proc.bursts[o.index])
        && (pol.Priority? ==> p.proc.priority.value <= o.proc.priority.value)
  {
    forall i | 0 <= i < |a.ready|
      ensures a.ready[i].job.index < |a.ready[i].job.proc.bursts|
      ensures UsesPriority(pol) ==> a.ready[i].job.proc.priority.Some?
    {
      assert Pending(pol, a.ready[i].job);
    }
    SelectedIsPolicyChoice(pol, a.ready, a.tie);
  }

  /** Pops the policy's choice, runs its current CPU burst from `time` to
      `end`, sets its response time if unset, then either blocks it for the
      following I/O burst (unblocking at `end + io`) or completes it at
      `end`; time moves to `end`, plus the context switch if any queue is
      still non-empty. */
  function Dispatch(pol: Policy, cs: int, a: State): State
    requires |a.ready| > 0 && Chosen(pol, a).index < |Chosen(pol, a).proc.bursts|
  {
    var k := Selected(pol, a.ready);
    var p := a.ready[k].job;
    var b := p.proc.bursts;
    var start := a.time;
    var end := start + b[p.index];
    var ran := p.(index := p.index + 1, burstTime := p.burstTime + b[p.index],
                  response := if p.response.None? then Some(start - p.proc.arrival) else p.response);
    var rest := Remove(a.ready, k);
    var (blocked, completed) :=
      if ran.index < |b| then (a.blocked + [IoWait(end + b[ran.index], ran.(index := ran.index + 1))], a.completed)
      else (a.blocked, a.completed + [ran.(completion := Some(end))]);
    var more := |a.incoming| > 0 || |rest| > 0 || |blocked| > 0;
    State(if more then end + cs else end, a.tie, a.incoming, rest, blocked, completed,
          a.gantt + [Segment(Ran(p.proc.pid), start, end)])
  }

  /** What one dispatch does to the queues and the clock: the chosen entry,
      and only it, leaves READY, NEW is untouched, the chart gains one
      segment, owned by the chosen process, that starts now and lasts its
      current CPU burst, and the clock moves to the end of that segment,
      plus the context switch exactly when, before the dispatch, NEW or
      BLOCKED held a record, READY held another entry, or the chosen
      process still has an I/O burst to go (and so will be in BLOCKED). */
  lemma DispatchRecord(pol: Policy, cs: int, a: State)
    requires Valid(pol, a) && |a.ready| > 0
    ensures var k := Selected(pol, a.ready);
            var p := Chosen(pol, a);
            var burst := p.proc.bursts[p.index];
            var r := Dispatch(pol, cs, a);
      && r.incoming == a.incoming
      && |r.ready| == |a.ready| - 1 && multiset(r.ready) + multiset{a.ready[k]} == multiset(a.ready)
      && |r.gantt| == |a.gantt| + 1 && r.gantt[..|a.gantt|] == a.gantt
      && var seg := r.gantt[|a.gantt|];
      && seg.owner == Ran(p.proc.pid) && seg.start == a.time && seg.end - seg.start == burst
      && r.time == seg.end
           + (if |a.incoming| > 0 || |a.ready| > 1 || |a.blocked| > 0 || p.index + 1 < |p.proc.bursts| then cs else 0)
  {
    var k := Selected(pol, a.ready);
    assert Pending(pol, Chosen(pol, a));
    MultisetRemove(a.ready, k);
  }

  /** A dispatch of a record's last CPU burst completes it: its response
      time is assigned if this was its first dispatch (as dispatch time
      minus arrival), and it completes at the end of the segment with every
      CPU burst accounted for. */
  lemma DispatchCompletes(pol: Policy, cs: int, a: State)
    requires Valid(pol, a) && |a.ready| > 0
    requires Chosen(pol, a).index + 1 == |Chosen(pol, a).proc.bursts|
    ensures var p := Chosen(pol, a);
            var r := Dispatch(pol, cs, a);
      && r.blocked == a.blocked
      && |r.completed| == |a.completed| + 1 && r.completed[..|a.completed|] == a.completed
      && var d := r.completed[|a.completed|];
      && d.proc == p.proc && d.completion == Some(a.time + p.proc.bursts[p.index])
      && d.burstTime == CpuTotal(p.proc.bursts)
      && d.response == (if p.response.None? then Some(a.time - p.proc.arrival) else p.response)
  {
    var p := Chosen(pol, a);
    var b := p.proc.bursts;
    assert Pending(pol, p);
    assert CpuFrom(b, p.index) == b[p.index] + CpuFrom(b, p.index + 2);
    assert CpuFrom(b, p.index + 2) == 0;
  }

  /** A dispatch of any other CPU burst blocks the record: it waits in
      BLOCKED until the end of the segment plus the following I/O burst,
      with the cursor past that I/O burst and the CPU burst added to its
      CPU time. */
  lemma DispatchBlocks(pol: Policy, cs: int, a: State)
    requires Valid(pol, a) && |a.ready| > 0
    requires Chosen(pol, a).index + 1 < |Chosen(pol, a).proc.bursts|
    ensures var p := Chosen(pol, a);
            var b := p.proc.bursts;
            var r := Dispatch(pol, cs, a);
      && r.completed == a.completed
      && |r.blocked| == |a.blocked| + 1 && r.blocked[..|a.blocked|] == a.blocked
      && var w := r.blocked[|a.blocked|];
      && w.unblock == a.time + b[p.index] + b[p.index + 1]
      && w.job.proc == p.proc && w.job.index == p.index + 2 && w.job.completion.None?
      && w.job.burstTime == p.burstTime + b[p.index]
      && w.job.response == (if p.response.None? then Some(a.time - p.proc.arrival) else p.response)
  {
  }

  /** A dispatch keeps the invariant. */
  lemma DispatchValid(pol: Policy, cs: int, a: State)
    requires Valid(pol, a) && |a.ready| > 0
    ensures Valid(pol, Dispatch(pol, cs, a))
  {
    var r := Dispatch(pol, cs, a);
    var k := Selected(pol, a.ready);
    assert Pending(pol, a.ready[k].job);
    assert r.ready == Remove(a.ready, k) && r.tie == a.tie;
    RemoveValid(pol, a.ready, a.tie, k, r.ready);
    DispatchValidRecord(pol, cs, a);
  }

  /** Removing an entry keeps a queue valid (`r` is the queue after it). */
  lemma RemoveValid(pol: Policy, q: seq<Entry>, tie: int, k: nat, r: seq<Entry>)
    requires k < |q| && Ordered(pol, q, tie) && AllPending(pol, q)
    requires r == Remove(q, k)
    ensures Ordered(pol, r, tie) && AllPending(pol, r)
  {
    RemoveKeepsOrder(pol, q, tie, k);
  }

  /** The record a dispatch moves to BLOCKED or COMPLETED keeps their
      invariants. */
  lemma DispatchValidRecord(pol: Policy, cs: int, a: State)
    requires Valid(pol, a) && |a.ready| > 0
    ensures ValidBlocked(pol, Dispatch(pol, cs, a)) && ValidCompleted(Dispatch(pol, cs, a))
  {
    var r := Dispatch(pol, cs, a);
    var p := Chosen(pol, a);
    var b := p.proc.bursts;
    assert Pending(pol, p);
    assert CpuFrom(b, p.index) == b[p.index] + CpuFrom(b, p.index + 2);
    if p.index + 1 < |b| {
      assert p.index + 2 < |b|;
      assert ValidBlocked(pol, r);
    } else {
      assert CpuFrom(b, p.index + 2) == 0;
      assert ValidCompleted(r);
    }
  }

  /** A dispatch consumes exactly one CPU burst. */
  lemma DispatchWork(pol: Policy, cs: int, a: State)
    requires |a.ready| > 0 && Chosen(pol, a).index < |Chosen(pol, a).proc.bursts|
    ensures Work(Dispatch(pol, cs, a)) == Work(a) - 1
  {
    var r := Dispatch(pol, cs, a);
    var k := Selected(pol, a.ready);
    var p := a.ready[k].job;
    var wu := (w: IoWait) => Units(w.job);
    SumRemove(a.ready, k, (e: Entry) => Units(e.job));
    if p.index + 1 < |p.proc.bursts| {
      SumAppend(a.blocked, [r.blocked[|a.blocked|]], wu);
      assert r.blocked == a.blocked + [r.blocked[|a.blocked|]];
    }
  }

  /** A dispatch neither loses nor duplicates a process. */
  lemma DispatchPool(pol: Policy, cs: int, a: State)
    requires |a.ready| > 0 && Chosen(pol, a).index < |Chosen(pol, a).proc.bursts|
    ensures Pool(Dispatch(pol, cs, a)) == Pool(a)
  {
    forall p: Proc ensures Pool(Dispatch(pol, cs, a))[p] == Pool(a)[p] {
      PoolCount(Dispatch(pol, cs, a), p);
      PoolCount(a, p);
      DispatchCensus(pol, cs, a, p);
    }
  }

  lemma DispatchCensus(pol: Policy, cs: int, a: State, p: Proc)
    requires |a.ready| > 0 && Chosen(pol, a).index < |Chosen(pol, a).proc.bursts|
    ensures Census(Dispatch(pol, cs, a), p) == Census(a, p)
  {
    var r := Dispatch(pol, cs, a);
    var k := Selected(pol, a.ready);
    var c := a.ready[k].job;
    SumRemove(a.ready, k, (e: Entry) => Hit(e.job.proc, p));
    if c.index + 1 < |c.proc.bursts| {
      assert r.blocked == a.blocked + [r.blocked[|a.blocked|]];
      SumAppend(a.blocked, [r.blocked[|a.blocked|]], (w: IoWait) => Hit(w.job.proc, p));
    } else {
      assert r.completed == a.completed + [r.completed[|a.completed|]];
      SumAppend(a.completed, [r.completed[|a.completed|]], (j: Job) => Hit(j.proc, p));
    }
  }

  // ---------------------------------------------------------------------
  // Idle: jump to the next arrival or unblock

  /** The earliest of the head of NEW (the earliest arrival, NEW being
      sorted) and the earliest unblock time. */
  function NextEvent(a: State): int
    requires |a.incoming| > 0 || |a.blocked| > 0
  {
    if |a.incoming| > 0 && |a.blocked| > 0 then
      (if a.incoming[0].proc.arrival <= MinUnblock(a.blocked) then a.incoming[0].proc.arrival else MinUnblock(a.blocked))
    else if |a.incoming| > 0 then a.incoming[0].proc.arrival
    else MinUnblock(a.blocked)
  }

  /** With READY empty, emits one IDLE segment from `time` to the next
      event and jumps there: the next event is the earliest of all NEW
      arrivals and BLOCKED unblock times, and it lies strictly after `time`
      whenever nothing due is left behind (as after admission). */
  function IdleJump(a: State): (r: State)
    requires JobsByArrival(a.incoming) && (|a.incoming| > 0 || |a.blocked| > 0)
    ensures r == a.(time := r.time, gantt := a.gantt + [Segment(Idle, a.time, r.time)])
    ensures forall i :: 0 <= i < |a.incoming| ==> r.time <= a.incoming[i].proc.arrival
    ensures forall i :: 0 <= i < |a.blocked| ==> r.time <= a.blocked[i].unblock
    ensures (exists i :: 0 <= i < |a.incoming| && a.incoming[i].proc.arrival == r.time)
         || (exists i :: 0 <= i < |a.blocked| && a.blocked[i].unblock == r.time)
    ensures (forall i :: 0 <= i < |a.incoming| ==> a.incoming[i].proc.arrival > a.time)
         && (forall i :: 0 <= i < |a.blocked| ==> a.blocked[i].unblock > a.time)
         ==> r.time > a.time
  {
    var next := NextEvent(a);
    a.(time := next, gantt := a.gantt + [Segment(Idle, a.time, next)])
  }

  // ---------------------------------------------------------------------
  // The loop

  /** One iteration of `while new or ready or blocked`. */
  function Step(pol: Policy, cs: int, s: State): State
    requires Valid(pol, s) && Active(s)
  {
    var a := Admit(pol, s);
    AdmitValid(pol, s);
    AdmitLeavesNothingDue(pol, s);
    if |a.ready| > 0 then
      assert Pending(pol, Chosen(pol, a));
      Dispatch(pol, cs, a)
    else IdleJump(a)
  }

  /** 0 when the next iteration dispatches, 1 when it idles. */
  function Lag(pol: Policy, s: State): nat
  {
    if |Admit(pol, s).ready| > 0 then 0 else 1
  }

  /** After an idle jump the next iteration dispatches: something
      arrives or unblocks exactly at the new time. */
  lemma IdleThenDispatch(pol: Policy, a: State)
    requires JobsByArrival(a.incoming) && (|a.incoming| > 0 || |a.blocked| > 0)
    ensures Lag(pol, IdleJump(a)) == 0
  {
    var r := IdleJump(a);
    if exists i :: 0 <= i < |r.incoming| && r.incoming[i].proc.arrival == r.time {
      var i :| 0 <= i < |r.incoming| && r.incoming[i].proc.arrival == r.time;
      FilterKeeps(r.incoming, (j: Job) => j.proc.arrival <= r.time, i);
      assert |Arrived(r)| > 0;
    } else {
      var i :| 0 <= i < |r.blocked| && r.blocked[i].unblock == r.time;
      FilterKeeps(r.blocked, (w: IoWait) => w.unblock <= r.time, i);
      assert |Due(r)| > 0;
    }
    assert |Admit(pol, r).ready| >= |Arrived(r)| + |Due(r)|;
  }

  /** Admission, summed up: the invariant, the CPU work and the processes
      are kept, and nothing due is left in NEW or BLOCKED. */
  lemma AdmitKeeps(pol: Policy, s: State)
    requires Valid(pol, s)
    ensures var a := Admit(pol, s);
      && Valid(pol, a) && Work(a) == Work(s) && Pool(a) == Pool(s) && Active(a) == Active(s)
      && a.gantt == s.gantt && a.time == s.time
      && (forall i :: 0 <= i < |a.incoming| ==> a.incoming[i].proc.arrival > s.time)
      && (forall i :: 0 <= i < |a.blocked| ==> a.blocked[i].unblock > s.time)
  {
    AdmitValid(pol, s);
    AdmitLeavesNothingDue(pol, s);
    AdmitWork(pol, s);
    AdmitPool(pol, s);
  }

  /** A dispatch, summed up: the invariant and the processes are kept, one
      CPU burst is consumed and one segment is appended to the chart. */
  lemma DispatchKeeps(pol: Policy, cs: int, a: State)
    requires Valid(pol, a) && |a.ready| > 0
    ensures var r := Dispatch(pol, cs, a);
      && Valid(pol, r) && Work(r) == Work(a) - 1 && Pool(r) == Pool(a)
      && |r.gantt| == |a.gantt| + 1 && a.gantt <= r.gantt
  {
    assert Pending(pol, Chosen(pol, a));
    DispatchValid(pol, cs, a);
    DispatchWork(pol, cs, a);
    DispatchPool(pol, cs, a);
  }

  /** An idle jump keeps the invariant, the work and the processes, appends
      one segment, and the next iteration dispatches. */
  lemma IdleKeeps(pol: Policy, a: State)
    requires Valid(pol, a) && |a.ready| == 0 && Active(a)
    ensures var r := IdleJump(a);
      && Valid(pol, r) && Work(r) == Work(a) && Pool(r) == Pool(a) && Lag(pol, r) == 0
      && |r.gantt| == |a.gantt| + 1 && a.gantt <= r.gantt
  {
    IdleThenDispatch(pol, a);
    var r := IdleJump(a);
    assert r.incoming == a.incoming && r.ready == a.ready && r.blocked == a.blocked && r.completed == a.completed;
    assert ValidIncoming(pol, r) && ValidReady(pol, r) && ValidBlocked(pol, r) && ValidCompleted(r);
  }

  /** Every iteration keeps the invariant and the set of processes, emits
      exactly one Gantt segment, and makes progress: it consumes a CPU burst,
      or it idles and the following iteration is bound to dispatch. */
  lemma StepKeeps(pol: Policy, cs: int, s: State)
    requires Valid(pol, s) && Active(s)
    ensures var r := Step(pol, cs, s);
      && Valid(pol, r) && Pool(r) == Pool(s)
      && |r.gantt| == |s.gantt| + 1 && s.gantt <= r.gantt
      && (Work(r) < Work(s) || (Work(r) == Work(s) && Lag(pol, r) < Lag(pol, s)))
  {
    if |Admit(pol, s).ready| > 0 {
      StepDispatches(pol, cs, s);
    } else {
      StepIdles(pol, cs, s);
    }
  }

  /** An iteration that finds READY non-empty consumes a CPU burst. */
  lemma StepDispatches(pol: Policy, cs: int, s: State)
    requires Valid(pol, s) && Active(s) && |Admit(pol, s).ready| > 0
    ensures var r := Step(pol, cs, s);
      && Valid(pol, r) && Pool(r) == Pool(s)
      && |r.gantt| == |s.gantt| + 1 && s.gantt <= r.gantt
      && Work(r) < Work(s)
  {
    AdmitKeeps(pol, s);
    DispatchKeeps(pol, cs, Admit(pol, s));
  }

  /** An iteration that finds READY empty keeps the work, emits one IDLE
      segment of positive length from the current time to the new time,
      and leaves the next iteration bound to dispatch. */
  lemma StepIdles(pol: Policy, cs: int, s: State)
    requires Valid(pol, s) && Active(s) && |Admit(pol, s).ready| == 0
    ensures var r := Step(pol, cs, s);
      && Valid(pol, r) && Pool(r) == Pool(s)
      && |r.gantt| == |s.gantt| + 1 && s.gantt <= r.gantt
      && Work(r) == Work(s) && Lag(pol, r) == 0
      && r.time > s.time && r.gantt == s.gantt + [Segment(Idle, s.time, r.time)]
  {
    AdmitKeeps(pol, s);
    IdleKeeps(pol, Admit(pol, s));
    StepIdleSegment(pol, cs, s);
  }

  /** The IDLE segment such an iteration emits runs from the current time
      to the new time, and the new time lies strictly later. */
  lemma StepIdleSegment(pol: Policy, cs: int, s: State)
    requires Valid(pol, s) && Active(s) && |Admit(pol, s).ready| == 0
    ensures var r := Step(pol, cs, s);
      r.time > s.time && r.gantt == s.gantt + [Segment(Idle, s.time, r.time)]
  {
    AdmitLeavesNothingDue(pol, s);
    AdmitValid(pol, s);
    IdleAdvances(Admit(pol, s));
    StepIsIdle(pol, cs, s);
  }

  /** An iteration that finds READY empty is an idle jump. */
  lemma StepIsIdle(pol: Policy, cs: int, s: State)
    requires Valid(pol, s) && Active(s) && |Admit(pol, s).ready| == 0
    ensures (AdmitValid(pol, s); AdmitLeavesNothingDue(pol, s); Step(pol, cs, s) == IdleJump(Admit(pol, s)))
  {
  }

  /** From a state where nothing is overdue, the idle jump moves time
      forward and records the gap as one IDLE segment. */
  lemma IdleAdvances(a: State)
    requires JobsByArrival(a.incoming) && (|a.incoming| > 0 || |a.blocked| > 0)
    requires forall i :: 0 <= i < |a.incoming| ==> a.incoming[i].proc.arrival > a.time
    requires forall i :: 0 <= i < |a.blocked| ==> a.blocked[i].unblock > a.time
    ensures IdleJump(a).time > a.time
    ensures IdleJump(a).gantt == a.gantt + [Segment(Idle, a.time, IdleJump(a).time)]
  {
  }

  /** Runs the loop until NEW, READY and BLOCKED are all empty. */
  function Run(pol: Policy, cs: int, s: State): (r: State)
    requires Valid(pol, s)
    ensures Valid(pol, r) && !Active(r) && Pool(r) == Pool(s)
    ensures s.gantt <= r.gantt
    decreases Work(s), Lag(pol, s)
  {
    if !Active(s) then s
    else
      var t := Step(pol, cs, s);
      StepKeeps(pol, cs, s);
      WorkNonNegative(t);
      var r := Run(pol, cs, t);
      assert s.gantt <= t.gantt;
      r
  }

  /** The initial state: every process in NEW, sorted by arrival. */
  function Start(procs: seq<Proc>): State
  {
    State(0, 0, FreshAll(SortByArrival(procs), (p: Proc) => 0), [], [], [], [])
  }

  /** The initial state satisfies the invariant and holds every submitted
      process once. */
  lemma StartKeeps(pol: Policy, procs: seq<Proc>)
    requires NonPreemptive(pol)
    requires forall i :: 0 <= i < |procs| ==> Runnable(pol, procs[i])
    ensures Valid(pol, Start(procs)) && Pool(Start(procs)) == multiset(procs)
  {
    StartIncoming(pol, procs);
    FreshAllBag(SortByArrival(procs), (p: Proc) => 0);
  }

  /** NEW starts sorted by arrival, with fresh pending records. */
  lemma StartIncoming(pol: Policy, procs: seq<Proc>)
    requires forall i :: 0 <= i < |procs| ==> Runnable(pol, procs[i])
    ensures ValidIncoming(pol, Start(procs))
  {
    var incoming := Start(procs).incoming;
    var sorted := SortByArrival(procs);
    FreshKeepsArrivalOrder(sorted, (p: Proc) => 0);
    forall i | 0 <= i < |incoming|
      ensures Pending(pol, incoming[i]) && incoming[i].index == 0 && incoming[i].response.None?
    {
      assert sorted[i] in multiset(procs);
      assert sorted[i] in procs;
      assert incoming[i] == Fresh(sorted[i], 0);
    }
  }

  /** A whole simulation: every submitted process completes exactly once,
      with all of its CPU bursts accounted for and both times set. */
  method Simulate(pol: Policy, cs: int, procs: seq<Proc>) returns (r: State)
    requires NonPreemptive(pol)
    requires forall i :: 0 <= i < |procs| ==> Runnable(pol, procs[i])
    ensures !Active(r)
    ensures BagOf(r.completed, (j: Job) => j.proc) == multiset(procs)
    ensures forall i :: 0 <= i < |r.completed| ==> Done(r.completed[i])
  {
    StartKeeps(pol, procs);
    r := Run(pol, cs, Start(procs));
  }

  /** The response of a non-preemptive batch view: one row per submitted
      process, each satisfying turnaround = waiting + CPU time with CPU time
      the sum of its CPU bursts. */
  method Schedule(pol: Policy, cs: int, procs: seq<Proc>) returns (rep: Metrics.Report)
    requires NonPreemptive(pol)
    requires forall i :: 0 <= i < |procs| ==> Runnable(pol, procs[i])
    ensures |rep.processes| == |procs|
    ensures forall i :: 0 <= i < |rep.processes| ==>
      rep.processes[i].tat == rep.processes[i].wt + rep.processes[i].burstTime
    ensures BagOf(rep.processes, Metrics.Summary) == BagOf(procs, Metrics.Expected)
  {
    var r := Simulate(pol, cs, procs);
    assert forall i :: 0 <= i < |r.completed| ==> Metrics.Reportable(r.completed[i]);
    Metrics.ReportsEach(r.gantt, r.completed, r.time, procs);
    rep := Metrics.Build(r.gantt, r.completed, r.time);
  }
}
