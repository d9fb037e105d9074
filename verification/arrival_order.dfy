/** The NEW queue's initial order: a stable sort of the submitted processes
    by arrival time (Python's `list.sort(key=...)` keeps equal keys in input
    order), and the fact that removing admitted processes keeps it sorted. */
module ArrivalOrder {
  import opened Seqs
  import opened Processes

  predicate SortedByArrival(s: seq<Proc>)
  {
    forall i, j :: 0 <= i < j < |s| ==> s[i].arrival <= s[j].arrival
  }

  /** The records of a queue, in order of their processes' arrival. */
  predicate JobsByArrival(s: seq<Job>)
  {
    forall i, j :: 0 <= i < j < |s| ==> s[i].proc.arrival <= s[j].proc.arrival
  }

  /** The processes of `s` that arrive at time `a`, in their order in `s`. */
  function ArrivingAt(s: seq<Proc>, a: int): seq<Proc>
  {
    Filter(s, (p: Proc) => p.arrival == a)
  }

  /** `s` with `p` placed after every element arriving no later than `p`. */
  function Insert(s: seq<Proc>, p: Proc): (r: seq<Proc>)
    ensures |r| == |s| + 1
  {
    if |s| == 0 || s[|s| - 1].arrival <= p.arrival then s + [p]
    else Insert(s[..|s| - 1], p) + [s[|s| - 1]]
  }

  lemma {:induction false} InsertMembers(s: seq<Proc>, p: Proc)
    ensures multiset(Insert(s, p)) == multiset(s) + multiset{p}
  {
    if !(|s| == 0 || s[|s| - 1].arrival <= p.arrival) {
      var init := s[..|s| - 1];
      assert s == init + [s[|s| - 1]];
      InsertMembers(init, p);
    }
  }

  lemma {:induction false} InsertSorted(s: seq<Proc>, p: Proc)
    requires SortedByArrival(s)
    ensures SortedByArrival(Insert(s, p))
  {
    if !(|s| == 0 || s[|s| - 1].arrival <= p.arrival) {
      var init := s[..|s| - 1];
      var last := s[|s| - 1];
      var front := Insert(init, p);
      InsertSorted(init, p);
      InsertMembers(init, p);
      assert forall i :: 0 <= i < |front| ==> front[i].arrival <= last.arrival by {
        forall i | 0 <= i < |front| ensures front[i].arrival <= last.arrival {
          var x := front[i];
          assert x in multiset(front);
          if x != p {
            assert x in multiset(init);
            var k :| 0 <= k < |init| && init[k] == x;
            assert s[k] == x;
          }
        }
      }
      assert Insert(s, p) == front + [last];
    }
  }

  /** Stable insertion sort by arrival: the order `new.sort(key=arrival)`
      leaves the NEW queue in. */
  function SortByArrival(s: seq<Proc>): (r: seq<Proc>)
    ensures SortedByArrival(r)
    ensures multiset(r) == multiset(s)
  {
    if |s| == 0 then []
    else
      var init := s[..|s| - 1];
      assert s == init + [s[|s| - 1]];
      InsertSorted(SortByArrival(init), s[|s| - 1]);
      InsertMembers(SortByArrival(init), s[|s| - 1]);
      Insert(SortByArrival(init), s[|s| - 1])
  }

  lemma {:induction false} InsertStable(s: seq<Proc>, p: Proc, a: int)
    ensures ArrivingAt(Insert(s, p), a)
         == ArrivingAt(s, a) + (if p.arrival == a then [p] else [])
  {
    var f := (q: Proc) => q.arrival == a;
    if |s| == 0 || s[|s| - 1].arrival <= p.arrival {
      FilterAppend(s, [p], f);
    } else {
      var init := s[..|s| - 1];
      var last := s[|s| - 1];
      assert s == init + [last];
      var front := Insert(init, p);
      assert Insert(s, p) == front + [last];
      InsertStable(init, p, a);
      FilterAppend(front, [last], f);
      FilterAppend(init, [last], f);
      if p.arrival == a {
        assert Filter([last], f) == [];
      }
    }
  }

  /** Processes with equal arrival keep their submitted order. */
  lemma {:induction false} SortIsStable(s: seq<Proc>, a: int)
    ensures ArrivingAt(SortByArrival(s), a) == ArrivingAt(s, a)
  {
    if |s| > 0 {
      var init := s[..|s| - 1];
      var last := s[|s| - 1];
      assert s == init + [last];
      SortIsStable(init, a);
      InsertStable(SortByArrival(init), last, a);
      FilterAppend(init, [last], (q: Proc) => q.arrival == a);
    }
  }

  /** Removing any processes from a sorted queue leaves it sorted. */
  lemma {:induction false} FilterKeepsArrivalOrder(s: seq<Job>, f: Job -> bool)
    requires JobsByArrival(s)
    ensures JobsByArrival(Filter(s, f))
  {
    if |s| > 0 {
      FilterKeepsArrivalOrder(s[1..], f);
      FilterSubset(s[1..], f);
      var rest := Filter(s[1..], f);
      assert forall i :: 0 <= i < |rest| ==> rest[i] in s[1..];
      assert forall i :: 0 <= i < |rest| ==> s[0].proc.arrival <= rest[i].proc.arrival;
    }
  }

  lemma FreshKeepsArrivalOrder(ps: seq<Proc>, remaining: Proc -> int)
    requires SortedByArrival(ps)
    ensures JobsByArrival(FreshAll(ps, remaining))
  {
  }
}
