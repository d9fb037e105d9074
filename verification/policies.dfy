/** The scheduling policies and the key each one orders READY by. The heap
    variants push `(key, tie, process)`; FCFS keeps a plain FIFO deque and is
    given the constant key 0 here, so that one READY model serves all. */
module Policies {
  import opened Wrappers
  import opened Processes

  datatype Policy = FCFS | SJF | LJF | Priority | SRTF | LRTF | PreemptivePriority

  /** The policies whose batch engine re-selects every time unit. */
  predicate Preemptive(pol: Policy)
  {
    pol.SRTF? || pol.LRTF? || pol.PreemptivePriority?
  }

  /** The policies whose engines keep a process on the CPU for a whole
      CPU burst. */
  predicate NonPreemptive(pol: Policy)
  {
    pol.FCFS? || pol.SJF? || pol.LJF? || pol.Priority?
  }

  predicate UsesPriority(pol: Policy)
  {
    pol.Priority? || pol.PreemptivePriority?
  }

  /** The first component of the heap tuple a record is pushed with: the
      next CPU burst (SJF), its negation (LJF), the priority, or the total
      remaining CPU time (SRTF) or its negation (LRTF). A record without the
      priority or burst the key reads gets 0; the engines never push one. */
  function Key(pol: Policy, j: Job): int
  {
    var b := j.proc.bursts;
    match pol
    case FCFS => 0
    case SJF => if j.index < |b| then b[j.index] else 0
    case LJF => if j.index < |b| then -b[j.index] else 0
    case Priority => if j.proc.priority.Some? then j.proc.priority.value else 0
    case PreemptivePriority => if j.proc.priority.Some? then j.proc.priority.value else 0
    case SRTF => j.remaining
    case LRTF => -j.remaining
  }
}
