/** The metrics aggregator (`build_response`): one row per completed
    process with turnaround, waiting and response time, their averages, and
    the system throughput. Python's true division is modelled by exact
    `real` division. */
module Metrics {
  import opened Wrappers
  import opened Seqs
  import opened Processes

  datatype Row = Row(pid: Pid, arrival: int, burstTime: int, completion: int,
                     tat: int, wt: int, rt: int)

  datatype Averages = Averages(tat: real, wt: real, rt: real)

  datatype System = System(totalTime: int, throughput: real)

  datatype Report = Report(gantt: seq<Segment>, processes: seq<Row>,
                           average: Averages, system: System)

  /** A completed record has both timestamps set (otherwise the arithmetic
      on `None` would fail). */
  predicate Reportable(j: Job)
  {
    j.completion.Some? && j.response.Some?
  }

  /** The row for one completed process. */
  function RowOf(j: Job): (r: Row)
    requires Reportable(j)
    ensures r.tat == j.completion.value - j.proc.arrival
    ensures r.tat == r.wt + r.burstTime && r.burstTime == j.burstTime
    ensures r.rt == j.response.value
    ensures r.pid == j.proc.pid && r.arrival == j.proc.arrival && r.completion == j.completion.value
  {
    var tat := j.completion.value - j.proc.arrival;
    Row(j.proc.pid, j.proc.arrival, j.burstTime, j.completion.value, tat, tat - j.burstTime, j.response.value)
  }

  function Rows(js: seq<Job>): (r: seq<Row>)
    requires forall i :: 0 <= i < |js| ==> Reportable(js[i])
    ensures |r| == |js|
    ensures forall i :: 0 <= i < |js| ==> r[i] == RowOf(js[i])
  {
    if |js| == 0 then [] else [RowOf(js[0])] + Rows(js[1..])
  }

  /** `total / n`, or 0 when nothing completed. */
  function Mean(total: int, n: nat): (m: real)
    ensures n == 0 ==> m == 0.0
    ensures n > 0 ==> m * (n as real) == total as real
  {
    if n == 0 then 0.0 else total as real / n as real
  }

  /** The response `build_response` assembles. */
  function Build(gantt: seq<Segment>, completed: seq<Job>, totalTime: int): (r: Report)
    requires forall i :: 0 <= i < |completed| ==> Reportable(completed[i])
    ensures r.gantt == gantt && |r.processes| == |completed|
    ensures forall i :: 0 <= i < |completed| ==> r.processes[i] == RowOf(completed[i])
    ensures |completed| == 0 ==> r.average == Averages(0.0, 0.0, 0.0)
    ensures |completed| > 0 ==>
      && r.average.tat * (|completed| as real) == SumOf(r.processes, (x: Row) => x.tat) as real
      && r.average.wt * (|completed| as real) == SumOf(r.processes, (x: Row) => x.wt) as real
      && r.average.rt * (|completed| as real) == SumOf(r.processes, (x: Row) => x.rt) as real
    ensures r.system.totalTime == totalTime
    ensures totalTime <= 0 ==> r.system.throughput == 0.0
    ensures totalTime > 0 ==> r.system.throughput * (totalTime as real) == |completed| as real
  {
    var rows := Rows(completed);
    var n := |completed|;
    Report(gantt, rows,
           Averages(Mean(SumOf(rows, (x: Row) => x.tat), n),
                    Mean(SumOf(rows, (x: Row) => x.wt), n),
                    Mean(SumOf(rows, (x: Row) => x.rt), n)),
           System(totalTime, if totalTime > 0 then n as real / totalTime as real else 0.0))
  }

  /** What a row says about the process it reports: pid, arrival, CPU time. */
  function Summary(x: Row): (Pid, int, int)
  {
    (x.pid, x.arrival, x.burstTime)
  }

  /** What the row for a submitted process should say: its pid, its arrival
      and the sum of its CPU bursts. */
  function Expected(p: Proc): (Pid, int, int)
  {
    (p.pid, p.arrival, CpuTotal(p.bursts))
  }

  /** When the completed records are the submitted processes, each once, with
      every CPU burst accounted for, the rows report each submitted process
      exactly once with its own pid, arrival and CPU time. */
  lemma ReportsEach(gantt: seq<Segment>, completed: seq<Job>, totalTime: int, procs: seq<Proc>)
    requires forall i :: 0 <= i < |completed| ==> Reportable(completed[i])
    requires forall i :: 0 <= i < |completed| ==>
      completed[i].burstTime == CpuTotal(completed[i].proc.bursts)
    requires BagOf(completed, (j: Job) => j.proc) == multiset(procs)
    ensures var rep := Build(gantt, completed, totalTime);
      && |rep.processes| == |procs|
      && BagOf(rep.processes, Summary) == BagOf(procs, Expected)
  {
    BagSize(completed, (j: Job) => j.proc);
    var rows := Build(gantt, completed, totalTime).processes;
    BagOfPointwise(rows, Summary, completed, (j: Job) => Expected(j.proc));
    BagOfImage(completed, (j: Job) => j.proc, procs, Expected, (j: Job) => Expected(j.proc));
  }

  /** The per-row identity tat = wt + burst time carries over to the totals. */
  lemma {:induction false} TotalsIdentity(rows: seq<Row>)
    requires forall i :: 0 <= i < |rows| ==> rows[i].tat == rows[i].wt + rows[i].burstTime
    ensures SumOf(rows, (x: Row) => x.tat)
         == SumOf(rows, (x: Row) => x.wt) + SumOf(rows, (x: Row) => x.burstTime)
  {
    if |rows| > 0 {
      TotalsIdentity(rows[1..]);
    }
  }

  /** The mean of a sum is the sum of the means. */
  lemma MeanAdd(a: int, b: int, n: nat)
    ensures Mean(a + b, n) == Mean(a, n) + Mean(b, n)
  {
    if n > 0 {
      var d := n as real;
      assert (a + b) as real / d == a as real / d + b as real / d;
    }
  }

  /** Average turnaround equals average waiting time plus average CPU time. */
  lemma AveragesIdentity(gantt: seq<Segment>, completed: seq<Job>, totalTime: int)
    requires forall i :: 0 <= i < |completed| ==> Reportable(completed[i])
    ensures var r := Build(gantt, completed, totalTime);
      r.average.tat == r.average.wt + Mean(SumOf(r.processes, (x: Row) => x.burstTime), |completed|)
  {
    var r := Build(gantt, completed, totalTime);
    TotalsIdentity(r.processes);
    MeanAdd(SumOf(r.processes, (x: Row) => x.wt), SumOf(r.processes, (x: Row) => x.burstTime), |completed|);
  }
}
