/** The READY queue: entries `(key, tie, record)` kept in insertion order.
    `heappush` appends with the next tie value; `heappop` removes the entry
    with the lexicographically smallest `(key, tie)`; FCFS's `popleft`
    removes the head, which is that same entry once every key is equal. */
module ReadyQueue {
  import opened Seqs
  import opened Processes
  import opened Policies

  datatype Entry = Entry(key: int, tie: int, job: Job)

  /** Tuple order on `(key, tie)`, as Python compares heap entries. */
  predicate Precedes(a: Entry, b: Entry)
  {
    a.key < b.key || (a.key == b.key && a.tie <= b.tie)
  }

  /** Ties strictly increase along the queue and all lie below the counter
      that the next insertion will use. */
  predicate InsertionOrdered(q: seq<Entry>, counter: int)
  {
    && (forall i, j :: 0 <= i < j < |q| ==> q[i].tie < q[j].tie)
    && (forall i :: 0 <= i < |q| ==> q[i].tie < counter)
  }

  /** Every entry carries its record's key under `pol`. */
  predicate KeyedBy(pol: Policy, q: seq<Entry>)
  {
    forall i :: 0 <= i < |q| ==> q[i].key == Key(pol, q[i].job)
  }

  /** The position `heappop` removes: the lexicographically smallest entry. */
  function MinIndex(q: seq<Entry>): (k: nat)
    requires |q| > 0
    ensures k < |q|
    ensures forall i :: 0 <= i < |q| ==> Precedes(q[k], q[i])
  {
    if |q| == 1 then 0
    else
      var k := MinIndex(q[..|q| - 1]);
      assert forall i :: 0 <= i < |q| - 1 ==> q[i] == q[..|q| - 1][i];
      if Precedes(q[k], q[|q| - 1]) then k else |q| - 1
  }

  /** The shape READY keeps between operations. */
  predicate Ordered(pol: Policy, q: seq<Entry>, counter: int)
  {
    InsertionOrdered(q, counter) && KeyedBy(pol, q)
  }

  /** The heap minimum carries the least key of the queue. */
  lemma MinIndexHasLeastKey(pol: Policy, q: seq<Entry>)
    requires |q| > 0 && KeyedBy(pol, q)
    ensures forall i :: 0 <= i < |q| ==> Key(pol, q[MinIndex(q)].job) <= Key(pol, q[i].job)
  {
  }

  /** What the least key means under each heap policy: the shortest next
      CPU burst under SJF, the longest under LJF, the smallest priority
      number under either priority policy, the least remaining time under
      SRTF and the greatest under LRTF. */
  lemma LeastKeyIsPolicyChoice(pol: Policy, q: seq<Entry>)
    requires |q| > 0 && KeyedBy(pol, q)
    requires UsesPriority(pol) ==> forall i :: 0 <= i < |q| ==> q[i].job.proc.priority.Some?
    requires pol.SJF? || pol.LJF? ==> forall i :: 0 <= i < |q| ==> q[i].job.index < |q[i].job.proc.bursts|
    ensures var p := q[MinIndex(q)].job;
      forall i :: 0 <= i < |q| ==>
        && (pol.SJF? ==> p.proc.bursts[p.index] <= q[i].job.proc.bursts[q[i].job.index])
        && (pol.LJF? ==> p.proc.bursts[p.index] >= q[i].job.proc.bursts[q[i].job.index])
        && (pol.Priority? ==> p.proc.priority.value <= q[i].job.proc.priority.value)
        && (pol.SRTF? ==> p.remaining <= q[i].job.remaining)
        && (pol.LRTF? ==> p.remaining >= q[i].job.remaining)
        && (pol.PreemptivePriority? ==> p.proc.priority.value <= q[i].job.proc.priority.value)
  {
    MinIndexHasLeastKey(pol, q);
  }

  /** The position the policy takes from READY: the head for FCFS's deque,
      the heap minimum otherwise. */
  function Selected(pol: Policy, q: seq<Entry>): (k: nat)
    requires |q| > 0
    ensures k < |q|
  {
    if pol.FCFS? then 0 else MinIndex(q)
  }

  /** The entry a non-preemptive policy takes is its choice: the one queued
      first under FCFS, the shortest next CPU burst under SJF, the longest
      under LJF, the smallest priority number under Priority. */
  lemma SelectedIsPolicyChoice(pol: Policy, q: seq<Entry>, counter: int)
    requires |q| > 0 && Ordered(pol, q, counter)
    requires UsesPriority(pol) ==> forall i :: 0 <= i < |q| ==> q[i].job.proc.priority.Some?
    requires pol.SJF? || pol.LJF? ==> forall i :: 0 <= i < |q| ==> q[i].job.index < |q[i].job.proc.bursts|
    ensures var k := Selected(pol, q);
            var p := q[k].job;
      forall i :: 0 <= i < |q| ==>
        && (pol.FCFS? ==> q[k].tie <= q[i].tie)
        && (pol.SJF? ==> p.proc.bursts[p.index] <= q[i].job.proc.bursts[q[i].job.index])
        && (pol.LJF? ==> p.proc.bursts[p.index] >= q[i].job.proc.bursts[q[i].job.index])
        && (pol.Priority? ==> p.proc.priority.value <= q[i].job.proc.priority.value)
  {
    if !pol.FCFS? {
      LeastKeyIsPolicyChoice(pol, q);
    }
  }

  /** With distinct ties the heap minimum strictly precedes every other
      entry: among equal keys the earliest inserted is served first. */
  lemma MinIndexFirstAmongEqualKeys(q: seq<Entry>, counter: int)
    requires |q| > 0 && InsertionOrdered(q, counter)
    ensures forall i :: 0 <= i < |q| && i != MinIndex(q) ==>
      q[MinIndex(q)].key < q[i].key || (q[MinIndex(q)].key == q[i].key && MinIndex(q) < i)
  {
    var k := MinIndex(q);
    forall i | 0 <= i < |q| && i != k
      ensures q[k].key < q[i].key || (q[k].key == q[i].key && k < i)
    {
      assert i < k ==> q[i].tie < q[k].tie;
    }
  }

  /** Under FCFS every key is 0, and then the head of the deque is exactly
      the entry a heap would pop: popleft and heappop agree. */
  lemma FifoHeadIsHeapMin(pol: Policy, q: seq<Entry>, counter: int)
    requires pol.FCFS? && |q| > 0 && KeyedBy(pol, q) && InsertionOrdered(q, counter)
    ensures Selected(pol, q) == MinIndex(q)
  {
    MinIndexFirstAmongEqualKeys(q, counter);
  }

  /** The entries `heappush` adds for `js`, pushed in order from tie `tie`. */
  function Entries(pol: Policy, tie: int, js: seq<Job>): (r: seq<Entry>)
    ensures |r| == |js|
    ensures forall i :: 0 <= i < |js| ==> r[i] == Entry(Key(pol, js[i]), tie + i, js[i])
    decreases |js|
  {
    if |js| == 0 then [] else [Entry(Key(pol, js[0]), tie, js[0])] + Entries(pol, tie + 1, js[1..])
  }

  /** Pushing keeps the queue in insertion order and advances the counter
      by one per pushed record. */
  /** The records of a queue, in queue order. */
  function Jobs(q: seq<Entry>): (r: seq<Job>)
    ensures |r| == |q|
    ensures forall i :: 0 <= i < |q| ==> r[i] == q[i].job
  {
    if |q| == 0 then [] else [q[0].job] + Jobs(q[1..])
  }

  /** What two pushes add: the entries already queued keep their places in
      front, and behind them come the pushed records in push order, each
      keyed by the policy with a tie from the fresh range. */
  lemma PushTwiceAdds(pol: Policy, q: seq<Entry>, tie: int, a: seq<Job>, b: seq<Job>, r: seq<Entry>)
    requires r == q + Entries(pol, tie, a) + Entries(pol, tie + |a|, b)
    ensures |q| <= |r| && r[..|q|] == q
    ensures var added := r[|q|..];
      && Jobs(added) == a + b
      && forall k :: 0 <= k < |added| ==> added[k].key == Key(pol, added[k].job) && tie <= added[k].tie < tie + |a| + |b|
  {
    var added := Entries(pol, tie, a) + Entries(pol, tie + |a|, b);
    assert r == q + added;
    assert r[..|q|] == q && r[|q|..] == added;
    EntriesTwice(pol, tie, a, b, added);
  }

  lemma EntriesTwice(pol: Policy, tie: int, a: seq<Job>, b: seq<Job>, added: seq<Entry>)
    requires added == Entries(pol, tie, a) + Entries(pol, tie + |a|, b)
    ensures Jobs(added) == a + b
    ensures forall k :: 0 <= k < |added| ==> added[k].key == Key(pol, added[k].job) && tie <= added[k].tie < tie + |a| + |b|
  {
    var e1, e2 := Entries(pol, tie, a), Entries(pol, tie + |a|, b);
    forall k | 0 <= k < |added|
      ensures added[k].job == (a + b)[k]
      ensures added[k].key == Key(pol, added[k].job) && tie <= added[k].tie < tie + |a| + |b|
    {
      if k < |a| {
        assert added[k] == e1[k];
      } else {
        assert added[k] == e2[k - |a|];
      }
    }
    assert Jobs(added) == a + b;
  }

  lemma PushKeepsOrder(pol: Policy, q: seq<Entry>, tie: int, js: seq<Job>)
    requires InsertionOrdered(q, tie) && KeyedBy(pol, q)
    ensures InsertionOrdered(q + Entries(pol, tie, js), tie + |js|)
    ensures KeyedBy(pol, q + Entries(pol, tie, js))
  {
  }

  /** Two pushes in a row (`r` is the queue after them) keep the queue in
      insertion order and advance the counter by the number of records
      pushed. */
  lemma PushTwiceOrdered(pol: Policy, q: seq<Entry>, tie: int, a: seq<Job>, b: seq<Job>, r: seq<Entry>, counter: int)
    requires Ordered(pol, q, tie)
    requires r == q + Entries(pol, tie, a) + Entries(pol, tie + |a|, b)
    requires counter == tie + |a| + |b|
    ensures Ordered(pol, r, counter)
  {
    PushKeepsOrder(pol, q, tie, a);
    PushKeepsOrder(pol, q + Entries(pol, tie, a), tie + |a|, b);
  }

  /** Removing an entry keeps the queue in insertion order. */
  lemma RemoveKeepsOrder(pol: Policy, q: seq<Entry>, tie: int, k: nat)
    requires k < |q| && InsertionOrdered(q, tie) && KeyedBy(pol, q)
    ensures InsertionOrdered(Remove(q, k), tie) && KeyedBy(pol, Remove(q, k))
  {
  }

  lemma {:induction false} EntriesSum(pol: Policy, tie: int, js: seq<Job>, w: Job -> int, v: Entry -> int)
    requires forall e :: v(e) == w(e.job)
    ensures SumOf(Entries(pol, tie, js), v) == SumOf(js, w)
    decreases |js|
  {
    if |js| > 0 {
      EntriesSum(pol, tie + 1, js[1..], w, v);
    }
  }


  /** Pushing records onto a queue adds exactly their weight to it. */
  lemma PushSum(pol: Policy, q: seq<Entry>, tie: int, js: seq<Job>, w: Job -> int, v: Entry -> int)
    requires forall e :: v(e) == w(e.job)
    ensures SumOf(q + Entries(pol, tie, js), v) == SumOf(q, v) + SumOf(js, w)
  {
    SumAppend(q, Entries(pol, tie, js), v);
    EntriesSum(pol, tie, js, w, v);
  }





  /** Two pushes in a row add exactly the weight of both batches. */
  lemma PushTwiceSum(pol: Policy, q: seq<Entry>, tie: int, a: seq<Job>, b: seq<Job>, r: seq<Entry>,
                     w: Job -> int, v: Entry -> int)
    requires forall e :: v(e) == w(e.job)
    requires r == q + Entries(pol, tie, a) + Entries(pol, tie + |a|, b)
    ensures SumOf(r, v) == SumOf(q, v) + SumOf(a, w) + SumOf(b, w)
  {
    PushSum(pol, q, tie, a, w, v);
    PushSum(pol, q + Entries(pol, tie, a), tie + |a|, b, w, v);
  }
}
