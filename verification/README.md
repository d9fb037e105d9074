# OSScheduler engines in Dafny

OSScheduler is a CPU-scheduling simulator served as Django views. Each
view takes a list of processes. A process has a pid, an arrival time, a
list of bursts alternating CPU, I/O, CPU, … and, for the priority
policies, a priority. Each view then simulates one policy. The fourteen
views repeat four loops, which this project models as four parameterised
engines of pure step functions over immutable state records:

- **Batch** (`fcfs_view`, `sjf_view`, `ljf_view`, `priority_view`).
  - Each iteration moves every arrived NEW process, then every BLOCKED
    process whose I/O has ended, onto READY.
  - It then either runs the selected process's whole current CPU burst,
    or emits an IDLE Gantt segment up to the next event.
  - FCFS reads a FIFO deque. The others pop the least `(key, tie)` from a
    heap, with key = next CPU burst, its negation, or the priority.
  - A process that still has an I/O burst goes to BLOCKED until the end of
    its segment plus that I/O burst. Otherwise it completes.
- **PreemptiveBatch** (`srtf_view`, `lrtf_view`, `preemptive_priority_view`).
  - Time moves in units.
  - Arrivals are pushed first. Then the process that ran last is pushed
    back with a fresh tie.
  - The heap minimum runs for one unit, and one Gantt segment of length 1
    is emitted per unit.
  - `remaining` is the sum of the CPU bursts. I/O never blocks.
- **Visual** (`fcfs_`, `sjf_`, `ljf_`, `priority_visualization_view`).
  - The clock moves by one unit per iteration.
  - Each tick records its list of `{pid, from, to}` transitions, possibly
    an empty one.
- **VisualPreemptive** (`srtf_`, `lrtf_`, `prtf_visualization_view`).
  - The same tick loop, with the running process pushed back onto the
    heap every tick.
- **Metrics**: the per-row and average arithmetic of `build_response`.

Modules:

- `Seqs`: filtering, removal, sums and bags.
- `Processes`: process and record datatypes.
- `ArrivalOrder`: the stable sort of NEW.
- `Policies`: the heap keys.
- `ReadyQueue`: READY as an insertion-ordered sequence of `(key, tie, record)`
  entries. `heappop` removes the least `(key, tie)` entry.
- `Timeline`: events and their counts.
- `Metrics`, `Batch`, `PreemptiveBatch`, `Visual`, `VisualPreemptive`.

What each engine promises, and proves:

- Each loop terminates under an explicit measure.
- No process is lost or duplicated.
- Every submitted process completes exactly once.
- Every dispatch and tick does what the code does to the record it runs:
  - the response time is set at the first dispatch only;
  - the cursor advances;
  - the unblock time is computed as in the code;
  - completion happens exactly when the work is used up.
- Selection is the policy's choice, with insertion order breaking ties.

Behaviours of the views a reader might not expect:

- The preemptive batch engine does not merge its unit Gantt segments.
- On an equal key, a process that arrives at the same instant runs before
  the one that just ran, because it is pushed first with a smaller tie.
  See `PreemptiveBatch.HeldRunsOnlyIfStrictlyFirst`.
- The visual unblock time `time + io + 1`, taken in the burst's last tick
  `end - 1`, equals the batch engines' `end + io`.
- The preemptive batch engines never emit an IDLE segment. With READY
  empty they just advance time by one unit.
- The priority visualisation completes a process after its first CPU burst.
- Only the FCFS visualisation reports the initial `None -> NEW` events.

Preconditions. The views do not check their input; each engine states
what it needs of a process as its predicate `Runnable`, a `requires` of
its entry points:

- `Batch.Runnable`: an odd number of bursts, so the list ends on a CPU
  burst, and a priority under the priority policy. Bursts may be zero or
  negative.
- `PreemptiveBatch.Runnable`: a positive sum of CPU bursts, and a priority
  under preemptive priority. The list may have any length, even or odd.
- `Visual.Runnable`: arrival ≥ 0, an odd number of bursts, every CPU burst
  > 0, every I/O burst ≥ 0, and a priority under the priority policy.
  These views admit with `==`, so an earlier arrival or unblock time would
  never be admitted.
- `VisualPreemptive.Runnable`: arrival ≥ 0, a positive sum of CPU bursts,
  and a priority under PRTF. The list may have any length.

## Model

| member | source | states |
|---|---|---|
| ArrivalOrder.Insert | osscheduler/views.py:33 | adds exactly one element; that the result stays sorted and is a permutation is stated by ArrivalOrder.SortByArrival and ArrivalOrder.SortIsStable |
| ArrivalOrder.SortByArrival | osscheduler/views.py:33 | NEW is ordered by arrival and holds exactly the submitted processes (a permutation) |
| ArrivalOrder.SortIsStable | osscheduler/views.py:33 | processes with the same arrival keep their submission order, as Python's sort is stable |
| ArrivalOrder.FilterKeepsArrivalOrder | osscheduler/views.py:41-45 | removing admitted processes from NEW leaves it ordered by arrival |
| Processes.CpuFromPositive | osscheduler/views.py:414 | with positive CPU bursts, the CPU demand from a CPU position is non-negative, and positive exactly when a CPU burst is still ahead |
| Processes.FreshAllBag | osscheduler/views.py:22-31 | the records built for the submitted processes are exactly those processes, each once |
| Processes.MinUnblock | osscheduler/views.py:86 | the earliest unblock time is no later than any BLOCKED pair's and is attained by one of them |
| ReadyQueue.MinIndex | osscheduler/views.py:142 | `heappop` returns an entry whose `(key, tie)` precedes every READY entry |
| ReadyQueue.MinIndexHasLeastKey | osscheduler/views.py:142 | the popped entry carries the least key in READY |
| ReadyQueue.LeastKeyIsPolicyChoice | osscheduler/views.py:131-142 | the least key is the shortest next burst (SJF), the longest (LJF), the smallest priority number (priority and preemptive priority), the least remaining (SRTF) or the greatest remaining (LRTF) |
| ReadyQueue.Selected | osscheduler/views.py:54 | returns a READY position; which one is stated by ReadyQueue.SelectedIsPolicyChoice and ReadyQueue.FifoHeadIsHeapMin |
| ReadyQueue.SelectedIsPolicyChoice | osscheduler/views.py:142 | the selected entry is the oldest under FCFS and otherwise has the shortest next burst (SJF), the longest (LJF) or the smallest priority number (priority) |
| ReadyQueue.MinIndexFirstAmongEqualKeys | osscheduler/views.py:131-142 | because ties increase with each push, among equal keys the entry pushed first is popped |
| ReadyQueue.FifoHeadIsHeapMin | osscheduler/views.py:44-54 | FCFS's `popleft` picks the same entry a `(key, tie)` heap would |
| ReadyQueue.PushKeepsOrder | osscheduler/views.py:128-139 | pushing records with consecutive fresh ties keeps READY insertion-ordered and keyed by the policy |
| ReadyQueue.RemoveKeepsOrder | osscheduler/views.py:142 | popping an entry keeps READY insertion-ordered and keyed |
| Policies.Key | osscheduler/views.py:131 | no ensures; the key is the next CPU burst (SJF), its negation (LJF), the priority, or the remaining demand or its negation (SRTF, LRTF). Its meaning is stated by ReadyQueue.LeastKeyIsPolicyChoice |
| ReadyQueue.Entries | osscheduler/views.py:128-139 | each pushed record gets its policy key and the next tie, in push order |
| Metrics.RowOf | osscheduler/views.py:361-378 | tat = completion − arrival, tat = wt + burst time, rt is the response time |
| Metrics.Rows | osscheduler/views.py:361-378 | one row per completed record, in completion order |
| Metrics.Mean | osscheduler/views.py:380-386 | an average is 0 with no rows; otherwise the average times the count is the total |
| Metrics.Build | osscheduler/views.py:356-392 | the report carries the chart, one row per completed record, averages that are 0 when nothing completed, and throughput 0 when total time ≤ 0 (otherwise throughput × time = count) |
| Metrics.ReportsEach | osscheduler/views.py:361-378 | when every submitted process completes once with all its CPU used, each is reported once with its own pid, arrival and CPU time |
| Metrics.TotalsIdentity | osscheduler/views.py:361-378 | summed over rows, turnaround equals waiting time plus CPU time |
| Metrics.AveragesIdentity | osscheduler/views.py:380-386 | average turnaround = average waiting time + average CPU time |
| Batch.AdmitLeavesNothingDue | osscheduler/views.py:41-51 | after admission every NEW process arrives later and every BLOCKED process unblocks later than now, and the loop condition is unchanged |
| Batch.Admit | osscheduler/views.py:41-51 | no ensures; behaviour stated by Batch.AdmitEnqueues, Batch.AdmitLeavesNothingDue, Batch.AdmitValid, Batch.AdmitWork and Batch.AdmitPool |
| Batch.AdmitEnqueues | osscheduler/views.py:128-139 | every record due now, meaning a NEW one that has arrived or a BLOCKED one whose unblock time has come, is put in READY once, behind the entries already there, and nothing else is; each gets its policy key and a fresh tie |
| Batch.AdmitValid | osscheduler/views.py:41-51 | admission keeps the engine's invariant |
| Batch.AdmitWork | osscheduler/views.py:41-51 | admission changes no CPU work still to run |
| Batch.AdmitPool | osscheduler/views.py:41-51 | admission neither loses nor duplicates a process |
| Batch.Dispatch | osscheduler/views.py:53-78 | no ensures; behaviour stated by Batch.DispatchRecord, Batch.DispatchCompletes, Batch.DispatchBlocks, Batch.DispatchValid, Batch.DispatchWork and Batch.DispatchPool |
| Batch.ChosenIsPolicyChoice | osscheduler/views.py:128-142 | the dispatched record is the READY head under FCFS and otherwise has the shortest next burst (SJF), the longest (LJF) or the smallest priority number (priority) |
| Batch.DispatchRecord | osscheduler/views.py:53-78 | one entry, the policy's choice, leaves READY and NEW is untouched; the chart gains one segment `[time, time + burst)` for the chosen process; time becomes the segment's end plus the context switch exactly when, before the dispatch, NEW or BLOCKED is non-empty, another READY entry waits, or the process still has an I/O burst ahead |
| Batch.DispatchCompletes | osscheduler/views.py:60-76 | the last CPU burst completes the record at the segment's end with burst time = sum of CPU bursts; the response is set only at the first dispatch, to dispatch time − arrival |
| Batch.DispatchBlocks | osscheduler/views.py:60-73 | any other burst sends the record to BLOCKED until end + I/O burst, with the cursor past the I/O burst and the response set only at the first dispatch |
| Batch.DispatchValid | osscheduler/views.py:53-78 | a dispatch keeps the engine's invariant |
| Batch.DispatchWork | osscheduler/views.py:53-78 | a dispatch consumes exactly one CPU burst |
| Batch.DispatchPool | osscheduler/views.py:53-78 | a dispatch neither loses nor duplicates a process |
| Batch.IdleJump | osscheduler/views.py:80-91 | the IDLE segment reaches the earliest arrival or unblock, which is one of them, no later than any, and strictly after the current time when nothing is due |
| Batch.IdleThenDispatch | osscheduler/views.py:80-91 | after an idle jump the next iteration dispatches |
| Batch.StepKeeps | osscheduler/views.py:39-91 | an iteration keeps the invariant and the processes, and only appends to the chart |
| Batch.StepDispatches | osscheduler/views.py:53-78 | an iteration that finds READY non-empty consumes a CPU burst |
| Batch.Step | osscheduler/views.py:39-91 | no ensures; behaviour stated by Batch.StepKeeps, Batch.StepDispatches and Batch.StepIdles |
| Batch.StepIdles | osscheduler/views.py:80-91 | an iteration that finds READY empty keeps the work, appends exactly one IDLE segment from the current time to a strictly later new time, and is followed by a dispatch |
| Batch.Run | osscheduler/views.py:39 | the loop ends with every queue empty, keeping the invariant and every process |
| Batch.StartKeeps | osscheduler/views.py:22-33 | the initial state is valid and holds exactly the submitted processes |
| Batch.Simulate | osscheduler/views.py:11-93 | every submitted process completes exactly once, with its whole CPU demand run and its response and completion set |
| Batch.Schedule | osscheduler/views.py:11-93 | one row per submitted process, each once, with its pid, arrival and CPU time, and tat = wt + burst time |
| PreemptiveBatch.Admit | osscheduler/views.py:428-439 | no ensures; behaviour stated by PreemptiveBatch.AdmitEnqueues, PreemptiveBatch.AdmitValid, PreemptiveBatch.AdmitWork, PreemptiveBatch.AdmitPool and PreemptiveBatch.AdmitNothing |
| PreemptiveBatch.AdmitEnqueues | osscheduler/views.py:428-439 | every NEW record that has arrived and the process that ran in the previous unit are put in READY once, behind the entries already there, and nothing else is; each gets its policy key and a fresh tie |
| PreemptiveBatch.AdmitValid | osscheduler/views.py:428-439 | admission keeps the engine's invariant |
| PreemptiveBatch.AdmitWork | osscheduler/views.py:428-439 | admission changes no CPU work still to run |
| PreemptiveBatch.AdmitPool | osscheduler/views.py:428-439 | admission neither loses nor duplicates a process |
| PreemptiveBatch.AdmitNothing | osscheduler/views.py:428-441 | READY stays empty only when no process was held and the head of NEW is still in the future |
| PreemptiveBatch.Tick | osscheduler/views.py:441-458 | no ensures; behaviour stated by PreemptiveBatch.TickRecord, PreemptiveBatch.TickValid, PreemptiveBatch.TickWork, PreemptiveBatch.TickPool and PreemptiveBatch.TickRunsPolicyChoice |
| PreemptiveBatch.TickRecord | osscheduler/views.py:441-458 | the heap minimum runs one unit: remaining −1, burst time +1, response set at its first unit only, one `[time, time + 1)` segment, completion at `time + 1` exactly when nothing remains |
| PreemptiveBatch.TickValid | osscheduler/views.py:441-458 | a unit keeps the engine's invariant |
| PreemptiveBatch.TickWork | osscheduler/views.py:441-458 | a unit consumes exactly one unit of CPU work |
| PreemptiveBatch.TickPool | osscheduler/views.py:441-458 | a unit neither loses nor duplicates a process |
| PreemptiveBatch.TickRunsPolicyChoice | osscheduler/views.py:428-442 | the unit goes to the least remaining (SRTF), the greatest remaining (LRTF) or the smallest priority number (preemptive priority) |
| PreemptiveBatch.HeldRunsOnlyIfStrictlyFirst | osscheduler/views.py:428-442 | the process that ran is pushed last and runs again exactly when its key is strictly below every other READY key |
| PreemptiveBatch.Step | osscheduler/views.py:428-460 | no ensures; behaviour stated by PreemptiveBatch.StepKeeps, PreemptiveBatch.StepTicks and PreemptiveBatch.StepWaits |
| PreemptiveBatch.StepKeeps | osscheduler/views.py:428-460 | an iteration keeps the invariant and the processes and only appends to the chart |
| PreemptiveBatch.StepTicks | osscheduler/views.py:441-458 | an iteration with READY non-empty after admission consumes one unit of work |
| PreemptiveBatch.StepWaits | osscheduler/views.py:459-460 | an iteration with READY empty brings the next arrival one unit closer |
| PreemptiveBatch.Run | osscheduler/views.py:428 | the loop ends with NEW, READY and the held slot empty, keeping every process |
| PreemptiveBatch.StartKeeps | osscheduler/views.py:411-422 | the initial state is valid and holds exactly the submitted processes |
| PreemptiveBatch.Simulate | osscheduler/views.py:399-462 | every submitted process completes exactly once, with its whole CPU demand run |
| PreemptiveBatch.Schedule | osscheduler/views.py:399-462 | one row per submitted process, each once, with its pid, arrival and CPU time, and tat = wt + burst time |
| Visual.Open | osscheduler/views.py:631-638 | no ensures; behaviour stated by Visual.OpenKeeps |
| Visual.OpenKeeps | osscheduler/views.py:631-638 | the initial NEW events (FCFS only) report nobody as COMPLETED and touch no queue |
| Visual.AdmitExactlyDue | osscheduler/views.py:643-664 | a NEW record is admitted exactly when it arrives at this tick, and a BLOCKED one exactly when its unblock time is this tick |
| Visual.Admit | osscheduler/views.py:643-664 | no ensures; behaviour stated by Visual.AdmitEnqueues, Visual.AdmitAnnounces, Visual.AdmitExactlyDue, Visual.AdmitQueues, Visual.AdmitCensus, Visual.AdmitUnits and Visual.AdmitNothing |
| Visual.AdmitEnqueues | osscheduler/views.py:751-780 | every BLOCKED record whose unblock time is this tick and every NEW record arriving at it is put in READY once, behind the entries already there, and nothing else is; each gets its policy key and a fresh tie |
| Visual.AdmitAnnounces | osscheduler/views.py:643-664 | the tick's event list gains one move into READY per entry admission adds, with that entry's pid, in the order the entries were added |
| Visual.AdmitQueues | osscheduler/views.py:643-664 | admission keeps the queue invariant and leaves nothing due at this tick |
| Visual.AdmitCensus | osscheduler/views.py:643-664 | admission neither loses nor duplicates a process and reports nobody as COMPLETED |
| Visual.AdmitUnits | osscheduler/views.py:643-664 | admission changes no CPU work still to run |
| Visual.AdmitNothing | osscheduler/views.py:643-664 | READY stays empty only when nothing was due at this tick |
| Visual.Pick | osscheduler/views.py:669-676 | no ensures; behaviour stated by Visual.PickIsPolicyChoice, Visual.PickSelects, Visual.PickQueues and Visual.PickCensus |
| Visual.PickIsPolicyChoice | osscheduler/views.py:784-790 | with the CPU free, the process given the CPU, with its current burst to run, is the READY head under FCFS and otherwise has the shortest next burst (SJF), the longest (LJF) or the smallest priority number (priority) |
| Visual.PickSelects | osscheduler/views.py:669-676 | with the CPU free, the policy's entry (deque head for FCFS, least `(key, tie)` otherwise, holding the least key) gets its current burst, and READY -> RUNNING is reported |
| Visual.PickQueues | osscheduler/views.py:669-676 | selection keeps the queue invariant and leaves the CPU free only when READY is empty |
| Visual.PickCensus | osscheduler/views.py:669-676 | selection neither loses nor duplicates a process |
| Visual.Execute | osscheduler/views.py:681-706 | no ensures; behaviour stated by Visual.ExecuteLeaves, Visual.ExecuteQueues, Visual.ExecuteCensus and Visual.ExecuteUnits |
| Visual.ExecuteLeaves | osscheduler/views.py:681-706 | a unit shortens the running burst; in its last tick the process goes to BLOCKED until the end of the tick plus the I/O burst, or to COMPLETED (always under priority) |
| Visual.ExecuteQueues | osscheduler/views.py:681-706 | execution keeps the queue invariant and puts nothing in BLOCKED that is due before the next tick |
| Visual.ExecuteCensus | osscheduler/views.py:681-706 | a process leaving the CPU goes to BLOCKED or is reported COMPLETED, never lost |
| Visual.ExecuteUnits | osscheduler/views.py:681-706 | a unit on the CPU consumes CPU work |
| Visual.Close | osscheduler/views.py:629-708 | no ensures; behaviour stated by Visual.CloseKeeps |
| Visual.CloseKeeps | osscheduler/views.py:629-708 | each tick's events are recorded under that tick and the clock moves by one |
| Visual.Tick | osscheduler/views.py:627-708 | no ensures; behaviour stated by Visual.TickKeeps, Visual.TickCensus, Visual.TickProgress and Visual.TickWaits |
| Visual.TickKeeps | osscheduler/views.py:627-708 | a tick keeps the invariant and records exactly one event list |
| Visual.TickCensus | osscheduler/views.py:627-708 | each process is in a queue, on the CPU or reported COMPLETED, exactly as often as before the tick |
| Visual.TickProgress | osscheduler/views.py:627-708 | every tick consumes CPU work or brings the next arrival or unblock closer |
| Visual.TickWaits | osscheduler/views.py:627-708 | a tick with the CPU free changes no CPU work and brings every pending event closer |
| Visual.Run | osscheduler/views.py:627 | the loop ends with every queue and the CPU empty, and reports as COMPLETED exactly what it held |
| Visual.StartKeeps | osscheduler/views.py:610-625 | the initial state satisfies the invariant |
| Visual.StartCensus | osscheduler/views.py:610-625 | NEW starts with each process as often as it was submitted |
| Visual.Simulate | osscheduler/views.py:597-710 | the timeline reports every submitted process as COMPLETED exactly once |
| VisualPreemptive.AdmitExactlyDue | osscheduler/views.py:1003-1009 | a NEW record is admitted exactly when it arrives at this tick |
| VisualPreemptive.Admit | osscheduler/views.py:1003-1015 | no ensures; behaviour stated by VisualPreemptive.AdmitEnqueues, VisualPreemptive.AdmitAnnounces, VisualPreemptive.AdmitExactlyDue, VisualPreemptive.AdmitQueues, VisualPreemptive.AdmitCensus, VisualPreemptive.AdmitBacklog and VisualPreemptive.AdmitNothing |
| VisualPreemptive.AdmitEnqueues | osscheduler/views.py:1003-1015 | every NEW record arriving at this tick and the process that ran in the previous tick are put in READY once, behind the entries already there, and nothing else is; each gets its policy key and a fresh tie |
| VisualPreemptive.AdmitAnnounces | osscheduler/views.py:1003-1009 | the tick's event list gains one NEW -> READY event per arrival admitted, with its pid, in the order added; the process pushed back off the CPU gets no event |
| VisualPreemptive.HeldResumesOnlyIfStrictlyFirst | osscheduler/views.py:1003-1020 | the process that ran is pushed last and runs again exactly when its key is strictly below every other READY key |
| VisualPreemptive.AdmitQueues | osscheduler/views.py:1003-1015 | admission keeps the queue invariant and leaves nothing due at this tick |
| VisualPreemptive.AdmitCensus | osscheduler/views.py:1003-1015 | admission neither loses nor duplicates a process and reports nobody as COMPLETED |
| VisualPreemptive.AdmitBacklog | osscheduler/views.py:1003-1015 | admission changes no process's remaining CPU demand and reports nobody as RUNNING |
| VisualPreemptive.AdmitNothing | osscheduler/views.py:1003-1015 | READY stays empty only when the CPU was free and nothing arrived at this tick |
| VisualPreemptive.Pick | osscheduler/views.py:1017-1020 | no ensures; behaviour stated by VisualPreemptive.PickSelects, VisualPreemptive.PickQueues and VisualPreemptive.PickReports |
| VisualPreemptive.PickSelects | osscheduler/views.py:1017-1020 | the least remaining (SRTF), the greatest remaining (LRTF) or the smallest priority number (PRTF) runs, and READY -> RUNNING is reported for it |
| VisualPreemptive.PickQueues | osscheduler/views.py:1017-1020 | selection keeps the queue invariant and leaves the CPU free only when READY is empty |
| VisualPreemptive.PickReports | osscheduler/views.py:1017-1020 | the selected process, and only it, is reported as entering RUNNING |
| VisualPreemptive.Execute | osscheduler/views.py:1022-1028 | no ensures; behaviour stated by VisualPreemptive.ExecuteBacklog, VisualPreemptive.ExecuteCensus and VisualPreemptive.ExecuteUnits |
| VisualPreemptive.ExecuteBacklog | osscheduler/views.py:1022-1028 | the running process's remaining CPU demand drops by exactly one unit, and nobody else's |
| VisualPreemptive.ExecuteCensus | osscheduler/views.py:1022-1028 | a process leaves the CPU only by being reported COMPLETED |
| VisualPreemptive.ExecuteUnits | osscheduler/views.py:1022-1028 | a unit consumes exactly one unit of CPU work |
| VisualPreemptive.CloseKeeps | osscheduler/views.py:993-1030 | the tick's events are recorded as the timeline's entry for that tick, the clock moves by one, the next tick starts with no events, and NEW, READY and the CPU are untouched |
| VisualPreemptive.Tick | osscheduler/views.py:991-1030 | no ensures; behaviour stated by VisualPreemptive.TickKeeps, VisualPreemptive.TickCensus, VisualPreemptive.TickServes, VisualPreemptive.TickProgress and VisualPreemptive.TickWaits |
| VisualPreemptive.TickKeeps | osscheduler/views.py:991-1030 | a tick keeps the invariant and records exactly one event list |
| VisualPreemptive.TickCensus | osscheduler/views.py:991-1030 | each process is in a queue, on the CPU or reported COMPLETED, exactly as often as before the tick |
| VisualPreemptive.TickServes | osscheduler/views.py:991-1030 | each unit of CPU given to a process is reported as one READY -> RUNNING event for it |
| VisualPreemptive.TickProgress | osscheduler/views.py:991-1030 | every tick consumes one unit of work or brings the next arrival closer |
| VisualPreemptive.TickWaits | osscheduler/views.py:991-1030 | a tick with READY empty changes no work and brings the next arrival closer |
| VisualPreemptive.Run | osscheduler/views.py:991 | the loop ends with every queue and the CPU empty, reports as COMPLETED exactly what it held, and reports RUNNING once per unit of demand |
| VisualPreemptive.StartKeeps | osscheduler/views.py:973-989 | the initial state satisfies the invariant |
| VisualPreemptive.StartCensus | osscheduler/views.py:977-985 | NEW starts with each process as often as it was submitted |
| VisualPreemptive.StartBacklog | osscheduler/views.py:977-985 | each process starts with its whole CPU demand, the sum of its CPU bursts, still to run |
| VisualPreemptive.Simulate | osscheduler/views.py:966-1032 | every submitted process is reported COMPLETED exactly once, and READY -> RUNNING once per unit of its CPU demand |

## Left out

- Django plumbing: the POST check, `json.loads`, `JsonResponse` and the `template` view. These are transport, not scheduling.
- `static/scripts/template.js`: client-side animation and chart rendering. `osscheduler/urls.py`: routing only.
- `heapq` and `deque` internals. READY is a sequence in push order. `heappop` removes the least `(key, tie)` entry, and `popleft` removes the head.
- Floating point. Averages and throughput are exact `real` quotients, not IEEE doubles, and their rounding is not modelled.
- The visual engines' `timeline` dict keyed by tick is modelled as a list of event lists, with tick `t` at position `t`.
- The never-filled BLOCKED list of `srtf_visualization_view` and `lrtf_visualization_view` is left out. Nothing ever enters it, so its loops do nothing. `prtf_visualization_view` has no such loop.
- The Gantt chart's `"IDLE"` pid string is modelled as a separate owner `Idle`. A process actually named `IDLE` would be conflated with idle time in the output, but not in the model.
- Processes outside an engine's `Runnable` are ruled out by `requires`, and what the code does with them is not modelled. For example, a non-preemptive view indexes past an even-length burst list, and a visual view never admits an arrival below 0.
- Batch.Simulate: the model does not state the Gantt chart's full contents over a whole run. It does state each segment per dispatch (`DispatchRecord`, `IdleJump`).
- Visual.ExecuteUnits: the work is stated to decrease, not by exactly one. Under the priority policy, completing after the first CPU burst drops the rest of the demand.
- Visual.Simulate: it states COMPLETED counts only. The non-preemptive visual engines' RUNNING counts are per burst, not per unit.
