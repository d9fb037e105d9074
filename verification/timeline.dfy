/** The output of the visualisation engines: for every tick `t` from 0, the
    list of queue transitions `{pid, from, to}` that happened during `t`. */
module Timeline {
  import opened Wrappers
  import opened Processes

  /** The queues a process moves between; `from` is unset for the initial
      placement in NEW. */
  datatype Place = NEW | READY | RUNNING | BLOCKED | COMPLETED

  datatype Event = Event(pid: Pid, from: Option<Place>, to: Place)

  /** One event per record, in order, all with the same origin and target. */
  function Moves(js: seq<Job>, from: Option<Place>, to: Place): (r: seq<Event>)
    ensures |r| == |js|
    ensures forall i :: 0 <= i < |js| ==> r[i] == Event(js[i].proc.pid, from, to)
  {
    if |js| == 0 then [] else [Event(js[0].proc.pid, from, to)] + Moves(js[1..], from, to)
  }

  /** 1 when the record is process `x`'s, else 0: one term of a count of `x`. */
  function Tally(j: Job, x: Pid): int
  {
    if j.proc.pid == x then 1 else 0
  }

  /** The processes an event list reports as entering `p`. */
  function Entered(evs: seq<Event>, p: Place): multiset<Pid>
  {
    if |evs| == 0 then multiset{}
    else Entered(evs[..|evs| - 1], p) + (if evs[|evs| - 1].to == p then multiset{evs[|evs| - 1].pid} else multiset{})
  }

  /** The processes a timeline reports as entering `p`, over all its ticks. */
  function Reports(tl: seq<seq<Event>>, p: Place): multiset<Pid>
  {
    if |tl| == 0 then multiset{} else Reports(tl[..|tl| - 1], p) + Entered(tl[|tl| - 1], p)
  }

  /** The processes an event list reports as COMPLETED. */
  function Completions(evs: seq<Event>): multiset<Pid>
  {
    Entered(evs, COMPLETED)
  }

  /** The processes a timeline reports as COMPLETED, over all its ticks. */
  function Finished(tl: seq<seq<Event>>): multiset<Pid>
  {
    Reports(tl, COMPLETED)
  }

  lemma {:induction false} EnteredAppend(a: seq<Event>, b: seq<Event>, p: Place)
    ensures Entered(a + b, p) == Entered(a, p) + Entered(b, p)
    decreases |b|
  {
    if |b| == 0 {
      assert a + b == a;
    } else {
      var init := b[..|b| - 1];
      assert (a + b)[..|a + b| - 1] == a + init;
      EnteredAppend(a, init, p);
    }
  }

  /** Transitions into `to` report nobody as entering any other place. */
  lemma {:induction false} MovesEnterOnly(js: seq<Job>, from: Option<Place>, to: Place, p: Place)
    requires to != p
    ensures Entered(Moves(js, from, to), p) == multiset{}
    decreases |js|
  {
    if |js| > 0 {
      var m := Moves(js, from, to);
      assert m == [m[0]] + Moves(js[1..], from, to);
      MovesEnterOnly(js[1..], from, to, p);
      EnteredAppend([m[0]], Moves(js[1..], from, to), p);
      assert [m[0]][..0] == [];
    }
  }

  /** Closing a tick adds that tick's reports to the timeline's. */
  lemma ReportsAppend(tl: seq<seq<Event>>, evs: seq<Event>, p: Place)
    ensures Reports(tl + [evs], p) == Reports(tl, p) + Entered(evs, p)
  {
    assert (tl + [evs])[..|tl|] == tl;
  }
}
