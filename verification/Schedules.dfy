/** What holds of every schedule of every set of servers: it ends, and it does not stall before all results are in. */
module Schedules {
  import opened Orchestrator
  import opened Worker
  import opened Pool

  ghost predicate HasMachines(jobs: seq<Job>, w: World) {
    forall i :: 0 <= i < |jobs| ==> MachineOf(jobs[i].server) in w.machines
  }

  lemma {:induction false} DistinctIndices(s: seq<nat>, n: nat)
    requires forall k :: 0 <= k < |s| ==> s[k] < n
    requires forall k, l :: 0 <= k < l < |s| ==> s[k] != s[l]
    ensures |s| <= n
    ensures |s| == n ==> forall i :: 0 <= i < n ==> i in s
    decreases n
  {
    assert s != [] ==> s[0] < n;
    if n == 0 {
    } else if n - 1 in s {
      var k :| 0 <= k < |s| && s[k] == n - 1;
      var rest := s[..k] + s[k + 1..];
      DistinctIndices(rest, n - 1);
      forall i | 0 <= i < n - 1 && i in rest ensures i in s {
      }
    } else {
      forall k | 0 <= k < |s| ensures s[k] < n - 1 {
        assert s[k] in s;
      }
      DistinctIndices(s, n - 1);
    }
  }

  lemma {:induction false} AllThere(s: seq<nat>, n: nat)
    requires forall i :: 0 <= i < n ==> i in s
    ensures n <= |s|
    decreases n
  {
    if n > 0 {
      assert n - 1 in s;
      var k :| 0 <= k < |s| && s[k] == n - 1;
      var rest := s[..k] + s[k + 1..];
      forall i | 0 <= i < n - 1 ensures i in rest {
        assert i in s;
        var l :| 0 <= l < |s| && s[l] == i;
        assert if l < k then rest[l] == i else rest[l - 1] == i;
      }
      AllThere(rest, n - 1);
    }
  }

  // ---------------------------------------------------------------- no stall

  /** A pool with at least one worker never stalls before every result is collected, whatever the servers share. */
  lemma NeverStalls(jobs: seq<Job>, w: World, p: Pool) returns (a: Action)
    requires HasMachines(jobs, w) && Shape(jobs, w, p) && Books(jobs, p) && p.limit >= 1 && !AllCollected(p)
    ensures Enabled(jobs, p, a)
  {
    if Busy(p) != {} {
      var i :| i in Busy(p);
      a := Work(i);
    } else if p.started < |jobs| {
      a := Begin;
    } else {
      DistinctIndices(p.collected, |jobs|);
      if forall i :: 0 <= i < |jobs| ==> i in p.collected {
        AllThere(p.collected, |jobs|);
      }
      var i :| 0 <= i < |jobs| && i !in p.collected;
      assert i !in Busy(p);
      a := Collect(i);
    }
  }

  /** When every result is in, every server has finished and is collected exactly once. */
  lemma AllFinish(jobs: seq<Job>, w: World, p: Pool, i: nat)
    requires Shape(jobs, w, p) && Books(jobs, p) && AllCollected(p) && i < |jobs|
    ensures i in p.collected && p.progress[i].phase.Finished?
  {
    assert |p.collected| == |jobs|;
    DistinctIndices(p.collected, |jobs|);
    assert i in p.collected;
    var k :| 0 <= k < |p.collected| && p.collected[k] == i;
  }

  // ---------------------------------------------------------------- an end

  function Total(amounts: seq<nat>): nat {
    if amounts == [] then 0 else amounts[0] + Total(amounts[1..])
  }

  lemma {:induction false} TotalWithOneChanged(amounts: seq<nat>, i: nat, x: nat)
    requires i < |amounts|
    ensures Total(amounts[i := x]) + amounts[i] == Total(amounts) + x
  {
    if i == 0 {
      assert amounts[0 := x][1..] == amounts[1..];
    } else {
      assert amounts[i := x][1..] == amounts[1..][i - 1 := x];
      TotalWithOneChanged(amounts[1..], i - 1, x);
    }
  }

  function Ranks(progress: seq<Progress>): seq<nat> {
    seq(|progress|, i requires 0 <= i < |progress| => Rank(progress[i].phase))
  }

  function Lengths(progress: seq<Progress>): seq<nat> {
    seq(|progress|, i requires 0 <= i < |progress| => Length(progress[i].phase))
  }

  function Waiting(jobs: seq<Job>, p: Pool): int {
    (|jobs| - p.started) + (|jobs| - |p.collected|)
  }

  /**
   * What decreases: the phases still ahead, then the entries of the lists being worked through, then starts and
   * collections.
   */
  ghost predicate Nearer(jobs: seq<Job>, q: Pool, p: Pool) {
    || Total(Ranks(q.progress)) < Total(Ranks(p.progress))
    || (Total(Ranks(q.progress)) == Total(Ranks(p.progress)) &&
        (|| Total(Lengths(q.progress)) < Total(Lengths(p.progress))
         || (Total(Lengths(q.progress)) == Total(Lengths(p.progress)) && 0 <= Waiting(jobs, q) < Waiting(jobs, p))))
  }

  lemma OneWorkerNearer(progress: seq<Progress>, i: nat, next: Progress)
    requires i < |progress| && Smaller(next.phase, progress[i].phase)
    ensures var after := progress[i := next];
            || Total(Ranks(after)) < Total(Ranks(progress))
            || (Total(Ranks(after)) == Total(Ranks(progress)) && Total(Lengths(after)) < Total(Lengths(progress)))
  {
    var after := progress[i := next];
    assert Ranks(after) == Ranks(progress)[i := Rank(next.phase)];
    assert Lengths(after) == Lengths(progress)[i := Length(next.phase)];
    TotalWithOneChanged(Ranks(progress), i, Rank(next.phase));
    TotalWithOneChanged(Lengths(progress), i, Length(next.phase));
  }

  lemma WorkMovesOne(jobs: seq<Job>, p: Pool, i: nat) returns (next: Progress)
    requires Enabled(jobs, p, Work(i))
    ensures Smaller(next.phase, p.progress[i].phase) && Act(jobs, p, Work(i)).progress == p.progress[i := next]
  {
    StepDecreases(ScriptOf(jobs[i]), StateOf(jobs, p, i));
    next := Step(ScriptOf(jobs[i]), StateOf(jobs, p, i)).progress;
  }

  lemma BookingIsNearer(jobs: seq<Job>, w: World, p: Pool, a: Action)
    requires Shape(jobs, w, p) && Books(jobs, p) && Enabled(jobs, p, a) && !a.Work?
    ensures Nearer(jobs, Act(jobs, p, a), p)
  {
    ActKeepsBooks(jobs, w, p, a);
    DistinctIndices(Act(jobs, p, a).collected, |jobs|);
    assert Act(jobs, p, a).progress == p.progress;
  }

  lemma ActIsNearer(jobs: seq<Job>, w: World, p: Pool, a: Action)
    requires Shape(jobs, w, p) && Books(jobs, p) && Enabled(jobs, p, a)
    ensures Nearer(jobs, Act(jobs, p, a), p) && Waiting(jobs, p) >= 0
  {
    DistinctIndices(p.collected, |jobs|);
    if a.Work? {
      var next := WorkMovesOne(jobs, p, a.i);
      OneWorkerNearer(p.progress, a.i, next);
    } else {
      BookingIsNearer(jobs, w, p, a);
    }
  }

  /** After this action no schedule is longer than `n`. */
  ghost predicate BoundedAfter(jobs: seq<Job>, p: Pool, a: Action, n: nat) {
    Enabled(jobs, p, a) ==> forall rest :: Schedule(jobs, Act(jobs, p, a), rest) ==> |rest| <= n
  }

  ghost predicate AllBounded(jobs: seq<Job>, p: Pool, i: nat, n: nat) {
    && BoundedAfter(jobs, p, Begin, n)
    && forall j :: 0 <= j < i ==> BoundedAfter(jobs, p, Work(j), n) && BoundedAfter(jobs, p, Collect(j), n)
  }

  lemma Looser(jobs: seq<Job>, p: Pool, i: nat, m: nat, n: nat)
    requires AllBounded(jobs, p, i, m) && m <= n
    ensures AllBounded(jobs, p, i, n)
  {
    forall a | BoundedAfter(jobs, p, a, m) ensures BoundedAfter(jobs, p, a, n) {
    }
  }

  lemma OneMore(jobs: seq<Job>, p: Pool, i: nat, m: nat, work: nat, collect: nat) returns (n: nat)
    requires AllBounded(jobs, p, i, m) && BoundedAfter(jobs, p, Work(i), work)
    requires BoundedAfter(jobs, p, Collect(i), collect)
    ensures AllBounded(jobs, p, i + 1, n)
  {
    n := m + work + collect;
    Looser(jobs, p, i, m, n);
    forall a, k: nat | BoundedAfter(jobs, p, a, k) && k <= n ensures BoundedAfter(jobs, p, a, n) {
    }
  }

  lemma EnabledIsBounded(jobs: seq<Job>, p: Pool, n: nat, a: Action)
    requires AllBounded(jobs, p, |jobs|, n) && Enabled(jobs, p, a)
    ensures BoundedAfter(jobs, p, a, n)
  {
    match a
    case Begin =>
    case Work(i) => assert BoundedAfter(jobs, p, Work(i), n);
    case Collect(i) => assert BoundedAfter(jobs, p, Collect(i), n);
  }

  lemma LongestFrom(jobs: seq<Job>, p: Pool, n: nat, actions: seq<Action>)
    requires Schedule(jobs, p, actions) && actions != [] && BoundedAfter(jobs, p, actions[0], n)
    ensures |actions| <= n + 1
  {
    assert Schedule(jobs, Act(jobs, p, actions[0]), actions[1..]);
  }

  lemma BoundOfAll(jobs: seq<Job>, p: Pool, n: nat)
    requires AllBounded(jobs, p, |jobs|, n)
    ensures forall actions :: Schedule(jobs, p, actions) ==> |actions| <= n + 1
  {
    forall actions | Schedule(jobs, p, actions) ensures |actions| <= n + 1 {
      if actions != [] {
        EnabledIsBounded(jobs, p, n, actions[0]);
        LongestFrom(jobs, p, n, actions);
      }
    }
  }

  lemma {:induction false} BoundAfter(jobs: seq<Job>, w: World, p: Pool, a: Action) returns (n: nat)
    requires Shape(jobs, w, p) && Books(jobs, p)
    ensures BoundedAfter(jobs, p, a, n)
    decreases Total(Ranks(p.progress)), Total(Lengths(p.progress)), Waiting(jobs, p), 0
  {
    n := 0;
    if Enabled(jobs, p, a) {
      ActIsNearer(jobs, w, p, a);
      ActKeepsBooks(jobs, w, p, a);
      n := EveryScheduleIsBounded(jobs, w, Act(jobs, p, a));
    }
  }

  /**
   * No set of servers, sharing what they may, keeps a pool going forever: from every state there is a
   * number of actions that no schedule exceeds.
   */
  lemma {:induction false} EveryScheduleIsBounded(jobs: seq<Job>, w: World, p: Pool) returns (bound: nat)
    requires Shape(jobs, w, p) && Books(jobs, p)
    ensures forall actions :: Schedule(jobs, p, actions) ==> |actions| <= bound
    decreases Total(Ranks(p.progress)), Total(Lengths(p.progress)), Waiting(jobs, p), 1
  {
    var most := BoundAfter(jobs, w, p, Begin);
    for i := 0 to |jobs|
      invariant AllBounded(jobs, p, i, most)
    {
      var work := BoundAfter(jobs, w, p, Work(i));
      var collect := BoundAfter(jobs, w, p, Collect(i));
      most := OneMore(jobs, p, i, most, work, collect);
    }
    BoundOfAll(jobs, p, most);
    bound := most + 1;
  }
}
