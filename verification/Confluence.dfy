/** The main results about the pool: it terminates, it never stalls, and its outcome does not depend on the schedule. */
module Confluence {
  import opened Paths
  import opened Retention
  import opened Models
  import opened Snapshots
  import opened Orchestrator
  import opened Worker
  import opened Refinement
  import opened Pool
  import opened Schedules

  // ---------------------------------------------------------------- termination

  ghost predicate Located(jobs: seq<Job>, p: Pool) {
    |jobs| == |p.progress| && forall i :: 0 <= i < |jobs| ==> MachineOf(jobs[i].server) in p.world.machines
  }

  /** The steps each worker still has to take. */
  function StepsOfEach(jobs: seq<Job>, p: Pool): (steps: seq<nat>)
    requires Located(jobs, p)
    ensures |steps| == |jobs|
  {
    seq(|jobs|, i requires 0 <= i < |jobs| && Located(jobs, p) => StepsLeft(ScriptOf(jobs[i]), ViewOf(jobs, p, i)))
  }

  lemma {:induction false} TotalWithOneLess(a: seq<nat>, b: seq<nat>, i: nat)
    requires |a| == |b| && i < |a| && a[i] == b[i] + 1
    requires forall k :: 0 <= k < |a| && k != i ==> a[k] == b[k]
    ensures Total(a) == Total(b) + 1
  {
    if i == 0 {
      assert a[1..] == b[1..];
    } else {
      TotalWithOneLess(a[1..], b[1..], i - 1);
    }
  }

  /** How many actions are left: one start and one collection for each server, and the steps of the workers. */
  function ActionsLeft(jobs: seq<Job>, p: Pool): int
    requires Located(jobs, p)
  {
    (|jobs| - p.started) + (|jobs| - |p.collected|) + Total(StepsOfEach(jobs, p))
  }

  lemma StepUsesOneStep(script: Script, s: State)
    requires !s.progress.phase.Finished?
    ensures StepsLeft(script, s) == 1 + StepsLeft(script, Step(script, s))
  {
  }

  lemma WorkCountsForOne(jobs: seq<Job>, w: World, p: Pool, i: nat, j: nat)
    requires Independent(jobs, w) && Shape(jobs, w, p) && Enabled(jobs, p, Work(i)) && j < |jobs|
    requires Located(jobs, p) && Located(jobs, Act(jobs, p, Work(i)))
    ensures StepsOfEach(jobs, p)[j] == StepsOfEach(jobs, Act(jobs, p, Work(i)))[j] + if i == j then 1 else 0
  {
    WorkMovesOneView(jobs, w, p, i, j);
    if i == j {
      StepUsesOneStep(ScriptOf(jobs[i]), ViewOf(jobs, p, i));
    }
  }

  ghost predicate CountedAt(a: seq<nat>, b: seq<nat>, i: nat, j: nat) {
    j < |a| == |b| && a[j] == b[j] + if i == j then 1 else 0
  }

  lemma OneLess(a: seq<nat>, b: seq<nat>, i: nat)
    requires |a| == |b| && i < |a| && forall j :: 0 <= j < |a| ==> CountedAt(a, b, i, j)
    ensures Total(a) == Total(b) + 1
  {
    assert CountedAt(a, b, i, i);
    forall k | 0 <= k < |a| && k != i ensures a[k] == b[k] {
      assert CountedAt(a, b, i, k);
    }
    TotalWithOneLess(a, b, i);
  }

  lemma WorkUsesOneStep(jobs: seq<Job>, w: World, p: Pool, i: nat, q: Pool)
    requires Independent(jobs, w) && Shape(jobs, w, p) && Enabled(jobs, p, Work(i))
    requires q == Act(jobs, p, Work(i)) && Located(jobs, p) && Located(jobs, q)
    ensures Total(StepsOfEach(jobs, p)) == Total(StepsOfEach(jobs, q)) + 1
  {
    var a, b := StepsOfEach(jobs, p), StepsOfEach(jobs, q);
    forall j | 0 <= j < |jobs| ensures CountedAt(a, b, i, j) {
      WorkCountsForOne(jobs, w, p, i, j);
    }
    OneLess(a, b, i);
  }

  /** Starting a worker and collecting a result take no step of any worker. */
  lemma SameSteps(jobs: seq<Job>, p: Pool, q: Pool)
    requires Located(jobs, p) && q.world == p.world && q.progress == p.progress
    ensures Located(jobs, q) && StepsOfEach(jobs, q) == StepsOfEach(jobs, p)
  {
    forall i | 0 <= i < |jobs| ensures ViewOf(jobs, q, i) == ViewOf(jobs, p, i) {
    }
  }

  lemma ActUsesOneAction(jobs: seq<Job>, w: World, p: Pool, a: Action)
    requires Independent(jobs, w) && Shape(jobs, w, p) && Enabled(jobs, p, a)
    requires Shape(jobs, w, Act(jobs, p, a))
    ensures ActionsLeft(jobs, Act(jobs, p, a)) == ActionsLeft(jobs, p) - 1
  {
    match a
    case Begin => SameSteps(jobs, p, Act(jobs, p, a));
    case Work(i) => WorkUsesOneStep(jobs, w, p, i, Act(jobs, p, a));
    case Collect(i) => SameSteps(jobs, p, Act(jobs, p, a));
  }

  /**
   * For independent servers the number of actions left is known from the start: it goes down by one
   * with each action and is never negative.
   */
  lemma {:induction false} EveryScheduleCountsDown(jobs: seq<Job>, w: World, p: Pool, actions: seq<Action>)
    requires Independent(jobs, w) && Invariant(jobs, w, p) && Schedule(jobs, p, actions)
    ensures Invariant(jobs, w, After(jobs, p, actions))
    ensures |actions| + ActionsLeft(jobs, After(jobs, p, actions)) == ActionsLeft(jobs, p)
    ensures ActionsLeft(jobs, After(jobs, p, actions)) >= 0
    decreases |actions|
  {
    if actions != [] {
      ActKeepsInvariant(jobs, w, p, actions[0]);
      ActUsesOneAction(jobs, w, p, actions[0]);
      EveryScheduleCountsDown(jobs, w, Act(jobs, p, actions[0]), actions[1..]);
    } else {
      DistinctIndices(p.collected, |jobs|);
    }
  }

  // ---------------------------------------------------------------- one server after the other

  /** The backup of one server, by itself. */
  function Turn(w: World, job: Job): World
    requires MachineOf(job.server) in w.machines
  {
    Updated(w, job, BackupServer(job, SiteOf(w, job)).site)
  }

  /** The world after backing up the first `n` servers one after the other. */
  function Sequential(jobs: seq<Job>, w: World, n: nat): (after: World)
    requires n <= |jobs| && HasMachines(jobs, w)
    ensures after.machines.Keys == w.machines.Keys
  {
    if n == 0 then w
    else Turn(Sequential(jobs, w, n - 1), jobs[n - 1])
  }

  /** What server `j` sees of a world. */
  function SeenBy(jobs: seq<Job>, w: World, j: nat): Site
    requires j < |jobs| && MachineOf(jobs[j].server) in w.machines
  {
    NarrowSite(SiteOf(w, jobs[j]), Footprint(ScriptOf(jobs[j])), UsesMachine(jobs[j]))
  }

  lemma BackupIsLocal(job: Job, site: Site, paths: set<Path>)
    requires Footprint(ScriptOf(job)) <= paths
    ensures var seen := NarrowSite(site, paths, UsesMachine(job));
            && NarrowSite(BackupServer(job, site).site, paths, UsesMachine(job)) == BackupServer(job, seen).site
            && Collected(job, BackupServer(job, site).result) == Collected(job, BackupServer(job, seen).result)
    ensures forall d :: d !in paths ==> Listing(BackupServer(job, site).site.dirs, d) == Listing(site.dirs, d)
    ensures !UsesMachine(job) ==> BackupServer(job, site).site.machine == site.machine
  {
    WorkerRefinesBackupServer(job, site);
    WorkerRefinesBackupServer(job, NarrowSite(site, paths, UsesMachine(job)));
    StartIsOnTrack(job);
    FinishIsLocal(ScriptOf(job), State(Start(job), site), paths);
  }

  lemma BackupSparesOthers(job: Job, site: Site, mine: set<Path>, theirs: set<Path>)
    requires Footprint(ScriptOf(job)) <= mine && mine !! theirs
    ensures Restrict(BackupServer(job, site).site.dirs, theirs) == Restrict(site.dirs, theirs)
  {
    BackupIsLocal(job, site, mine);
    SameRestriction(BackupServer(job, site).site.dirs, site.dirs, theirs);
  }

  lemma OwnTurn(jobs: seq<Job>, before: World, j: nat)
    requires HasMachines(jobs, before) && j < |jobs|
    ensures SeenBy(jobs, Turn(before, jobs[j]), j) == BackupServer(jobs[j], SeenBy(jobs, before, j)).site
  {
    BackupIsLocal(jobs[j], SiteOf(before, jobs[j]), Footprint(ScriptOf(jobs[j])));
  }

  lemma OthersTurn(jobs: seq<Job>, before: World, i: nat, j: nat)
    requires HasMachines(jobs, before) && i < |jobs| && j < |jobs|
    requires SharesNoMachine(jobs[i], jobs[j])
    requires Footprint(ScriptOf(jobs[i])) !! Footprint(ScriptOf(jobs[j]))
    ensures SeenBy(jobs, Turn(before, jobs[i]), j) == SeenBy(jobs, before, j)
  {
    BackupIsLocal(jobs[i], SiteOf(before, jobs[i]), Footprint(ScriptOf(jobs[i])));
    BackupSparesOthers(jobs[i], SiteOf(before, jobs[i]), Footprint(ScriptOf(jobs[i])), Footprint(ScriptOf(jobs[j])));
  }

  lemma TurnSparesTheRest(jobs: seq<Job>, before: World, i: nat, d: Path, id: MachineId)
    requires HasMachines(jobs, before) && i < |jobs|
    ensures d !in Footprint(ScriptOf(jobs[i])) ==> Listing(Turn(before, jobs[i]).dirs, d) == Listing(before.dirs, d)
    ensures id in before.machines && (UsesMachine(jobs[i]) ==> id != MachineOf(jobs[i].server)) ==>
              Turn(before, jobs[i]).machines[id] == before.machines[id]
  {
    BackupIsLocal(jobs[i], SiteOf(before, jobs[i]), Footprint(ScriptOf(jobs[i])));
  }

  ghost predicate Follows(jobs: seq<Job>, worlds: seq<World>, n: nat)
    requires n < |jobs| && |worlds| == |jobs| + 1 && HasMachines(jobs, worlds[n])
  {
    worlds[n + 1] == Turn(worlds[n], jobs[n])
  }

  /** The worlds a sequential run goes through. */
  ghost predicate Run(jobs: seq<Job>, worlds: seq<World>) {
    && |worlds| == |jobs| + 1
    && (forall n :: 0 <= n < |worlds| ==> HasMachines(jobs, worlds[n]))
    && (forall n :: 0 <= n < |jobs| ==> Follows(jobs, worlds, n))
  }

  lemma SequentialWorlds(jobs: seq<Job>, w: World) returns (worlds: seq<World>)
    requires HasMachines(jobs, w)
    ensures Run(jobs, worlds) && worlds[0] == w && forall n :: 0 <= n <= |jobs| ==> worlds[n] == Sequential(jobs, w, n)
    ensures forall n :: 0 <= n < |worlds| ==> worlds[n].machines.Keys == w.machines.Keys
  {
    worlds := seq(|jobs| + 1, n requires 0 <= n <= |jobs| && HasMachines(jobs, w) => Sequential(jobs, w, n));
  }

  lemma RunOther(jobs: seq<Job>, worlds: seq<World>, n: nat, j: nat)
    requires Run(jobs, worlds) && n < |jobs| && j < |jobs|
    requires SharesNoMachine(jobs[n], jobs[j])
    requires Footprint(ScriptOf(jobs[n])) !! Footprint(ScriptOf(jobs[j]))
    ensures SeenBy(jobs, worlds[n + 1], j) == SeenBy(jobs, worlds[n], j)
  {
    assert Follows(jobs, worlds, n);
    OthersTurn(jobs, worlds[n], n, j);
  }

  lemma RunSpares(jobs: seq<Job>, worlds: seq<World>, n: nat, d: Path, id: MachineId)
    requires Run(jobs, worlds) && n < |jobs|
    ensures !Reachable(jobs, d) ==> Listing(worlds[n + 1].dirs, d) == Listing(worlds[n].dirs, d)
    ensures id in worlds[n].machines && ForeignMachine(jobs, id) ==>
              id in worlds[n + 1].machines && worlds[n + 1].machines[id] == worlds[n].machines[id]
  {
    assert Follows(jobs, worlds, n);
    TurnSparesTheRest(jobs, worlds[n], n, d, id);
  }

  ghost predicate Still<T>(sights: seq<T>, n: nat) {
    n + 1 < |sights| && sights[n + 1] == sights[n]
  }

  lemma {:induction false} NoChange<T>(sights: seq<T>, from: nat, to: nat)
    requires from <= to < |sights|
    requires forall n :: from <= n < to ==> Still(sights, n)
    ensures sights[to] == sights[from]
  {
    if from < to {
      NoChange(sights, from, to - 1);
      assert Still(sights, to - 1);
    }
  }

  ghost predicate ApartPair(jobs: seq<Job>, i: nat, j: nat)
    requires i < |jobs| && j < |jobs|
  {
    SharesNoMachine(jobs[i], jobs[j]) && Footprint(ScriptOf(jobs[i])) !! Footprint(ScriptOf(jobs[j]))
  }

  ghost predicate ApartFromOthers(jobs: seq<Job>, j: nat)
    requires j < |jobs|
  {
    forall n :: 0 <= n < |jobs| && n != j ==> ApartPair(jobs, n, j)
  }

  lemma ApartFromAll(jobs: seq<Job>, w: World, j: nat)
    requires Independent(jobs, w) && j < |jobs|
    ensures ApartFromOthers(jobs, j)
  {
    forall n | 0 <= n < |jobs| && n != j ensures ApartPair(jobs, n, j) {
      Apart(jobs, w, n, j);
    }
  }

  /** What server `j` sees at each point of a run. */
  function Sights(jobs: seq<Job>, worlds: seq<World>, j: nat): seq<Site>
    requires j < |jobs| && forall n :: 0 <= n < |worlds| ==> MachineOf(jobs[j].server) in worlds[n].machines
  {
    seq(|worlds|, n requires 0 <= n < |worlds| &&
      MachineOf(jobs[j].server) in worlds[n].machines => SeenBy(jobs, worlds[n], j))
  }

  ghost predicate SightKept(jobs: seq<Job>, worlds: seq<World>, n: nat, j: nat)
    requires j < |jobs| && forall m :: 0 <= m < |worlds| ==> MachineOf(jobs[j].server) in worlds[m].machines
  {
    n + 1 < |worlds| && SeenBy(jobs, worlds[n + 1], j) == SeenBy(jobs, worlds[n], j)
  }

  lemma OthersTurnInRun(jobs: seq<Job>, worlds: seq<World>, n: nat, j: nat)
    requires Run(jobs, worlds) && n < |jobs| && j < |jobs| && ApartPair(jobs, n, j)
    ensures SightKept(jobs, worlds, n, j)
  {
    RunOther(jobs, worlds, n, j);
  }

  lemma EachOthersTurn(jobs: seq<Job>, worlds: seq<World>, j: nat)
    requires Run(jobs, worlds) && j < |jobs| && ApartFromOthers(jobs, j)
    ensures forall n :: 0 <= n < |jobs| && n != j ==> SightKept(jobs, worlds, n, j)
  {
    forall n | 0 <= n < |jobs| && n != j ensures SightKept(jobs, worlds, n, j) {
      assert ApartPair(jobs, n, j);
      OthersTurnInRun(jobs, worlds, n, j);
    }
  }

  lemma SightStill(jobs: seq<Job>, worlds: seq<World>, n: nat, j: nat)
    requires j < |jobs| && forall m :: 0 <= m < |worlds| ==> MachineOf(jobs[j].server) in worlds[m].machines
    requires SightKept(jobs, worlds, n, j)
    ensures Still(Sights(jobs, worlds, j), n)
  {
  }

  lemma SightsSame(jobs: seq<Job>, worlds: seq<World>, j: nat)
    requires |worlds| == |jobs| + 1 && j < |jobs| && forall m :: 0 <= m < |worlds| ==>
               MachineOf(jobs[j].server) in worlds[m].machines
    requires forall n :: 0 <= n < |jobs| && n != j ==> SightKept(jobs, worlds, n, j)
    ensures Sights(jobs, worlds, j)[j] == Sights(jobs, worlds, j)[0]
    ensures Sights(jobs, worlds, j)[|jobs|] == Sights(jobs, worlds, j)[j + 1]
  {
    forall n | 0 <= n < |jobs| && n != j ensures Still(Sights(jobs, worlds, j), n) {
      SightStill(jobs, worlds, n, j);
    }
    NoChange(Sights(jobs, worlds, j), 0, j);
    NoChange(Sights(jobs, worlds, j), j + 1, |jobs|);
  }

  lemma RunSees(jobs: seq<Job>, worlds: seq<World>, j: nat)
    requires Run(jobs, worlds) && j < |jobs| && ApartFromOthers(jobs, j)
    ensures SeenBy(jobs, worlds[j], j) == SeenBy(jobs, worlds[0], j)
    ensures SeenBy(jobs, worlds[|jobs|], j) == SeenBy(jobs, worlds[j + 1], j)
  {
    EachOthersTurn(jobs, worlds, j);
    SightsSame(jobs, worlds, j);
  }

  lemma RunOwn(jobs: seq<Job>, worlds: seq<World>, j: nat)
    requires Run(jobs, worlds) && j < |jobs|
    ensures SeenBy(jobs, worlds[j + 1], j) == BackupServer(jobs[j], SeenBy(jobs, worlds[j], j)).site
  {
    assert Follows(jobs, worlds, j);
    OwnTurn(jobs, worlds[j], j);
  }

  /**
   * In the sequential run each server finds its part of the world as it was at the start, and nobody changes it
   * afterwards.
   */
  lemma SequentialSees(jobs: seq<Job>, w: World, j: nat)
    requires Independent(jobs, w) && j < |jobs|
    ensures SeenBy(jobs, Sequential(jobs, w, |jobs|), j) == BackupServer(jobs[j], SeenBy(jobs, w, j)).site
  {
    var worlds := SequentialWorlds(jobs, w);
    ApartFromAll(jobs, w, j);
    RunSees(jobs, worlds, j);
    RunOwn(jobs, worlds, j);
  }

  lemma RunSparesDir(jobs: seq<Job>, worlds: seq<World>, d: Path)
    requires Run(jobs, worlds) && !Reachable(jobs, d)
    ensures Listing(worlds[|jobs|].dirs, d) == Listing(worlds[0].dirs, d)
  {
    var shown := seq(|worlds|, n requires 0 <= n < |worlds| => Listing(worlds[n].dirs, d));
    forall n | 0 <= n < |jobs| ensures Still(shown, n) {
      RunSpares(jobs, worlds, n, d, Here);
    }
    NoChange(shown, 0, |jobs|);
  }

  lemma SequentialSparesDirs(jobs: seq<Job>, w: World, d: Path)
    requires HasMachines(jobs, w) && !Reachable(jobs, d)
    ensures Listing(Sequential(jobs, w, |jobs|).dirs, d) == Listing(w.dirs, d)
  {
    var worlds := SequentialWorlds(jobs, w);
    RunSparesDir(jobs, worlds, d);
  }

  function MachineStates(worlds: seq<World>, id: MachineId): seq<Machine>
    requires forall n :: 0 <= n < |worlds| ==> id in worlds[n].machines
  {
    seq(|worlds|, n requires 0 <= n < |worlds| && id in worlds[n].machines => worlds[n].machines[id])
  }

  lemma MachineStill(jobs: seq<Job>, worlds: seq<World>, id: MachineId, n: nat)
    requires Run(jobs, worlds) && ForeignMachine(jobs, id) && n < |jobs|
    requires forall m :: 0 <= m < |worlds| ==> id in worlds[m].machines
    ensures Still(MachineStates(worlds, id), n)
  {
    RunSpares(jobs, worlds, n, [], id);
  }

  lemma RunSparesMachine(jobs: seq<Job>, worlds: seq<World>, id: MachineId)
    requires Run(jobs, worlds) && ForeignMachine(jobs, id)
    requires forall n :: 0 <= n < |worlds| ==> id in worlds[n].machines
    ensures MachineStates(worlds, id)[|jobs|] == MachineStates(worlds, id)[0]
  {
    forall n | 0 <= n < |jobs| ensures Still(MachineStates(worlds, id), n) {
      MachineStill(jobs, worlds, id, n);
    }
    NoChange(MachineStates(worlds, id), 0, |jobs|);
  }

  lemma SequentialSparesMachines(jobs: seq<Job>, w: World, id: MachineId)
    requires HasMachines(jobs, w) && id in w.machines && ForeignMachine(jobs, id)
    ensures Sequential(jobs, w, |jobs|).machines[id] == w.machines[id]
  {
    var worlds := SequentialWorlds(jobs, w);
    RunSparesMachine(jobs, worlds, id);
  }

  lemma SameResultWhereSeen(job: Job, a: Site, b: Site, paths: set<Path>)
    requires Footprint(ScriptOf(job)) <= paths
    requires NarrowSite(a, paths, UsesMachine(job)) == NarrowSite(b, paths, UsesMachine(job))
    ensures Collected(job, BackupServer(job, a).result) == Collected(job, BackupServer(job, b).result)
  {
    BackupIsLocal(job, a, paths);
    BackupIsLocal(job, b, paths);
  }

  lemma SequentialFinds(jobs: seq<Job>, w: World, j: nat)
    requires Independent(jobs, w) && j < |jobs|
    ensures SeenBy(jobs, Sequential(jobs, w, j), j) == SeenBy(jobs, w, j)
  {
    var worlds := SequentialWorlds(jobs, w);
    ApartFromAll(jobs, w, j);
    RunSees(jobs, worlds, j);
  }

  // ---------------------------------------------------------------- confluence

  /** The results in the order they were collected. */
  function CollectedResults(p: Pool): seq<BackupResult>
    requires forall k :: 0 <= k < |p.collected| ==> p.collected[k] < |p.progress|
  {
    seq(|p.collected|, k requires 0 <= k < |p.collected| &&
      p.collected[k] < |p.progress| => p.progress[p.collected[k]].result)
  }

  /** The result a server has when its backup meets this world. */
  function ResultIn(w: World, job: Job): BackupResult
    requires MachineOf(job.server) in w.machines
  {
    Collected(job, BackupServer(job, SiteOf(w, job)).result)
  }

  /** The result each server would have if it were the only one. */
  function ResultsAlone(jobs: seq<Job>, w: World): seq<BackupResult>
    requires HasMachines(jobs, w)
  {
    seq(|jobs|, j requires 0 <= j < |jobs| && HasMachines(jobs, w) => ResultIn(w, jobs[j]))
  }

  /** The results of the sequential run: each server meets the world the servers before it have left. */
  function SequentialResults(jobs: seq<Job>, w: World): seq<BackupResult>
    requires HasMachines(jobs, w)
  {
    seq(|jobs|, j requires 0 <= j < |jobs| && HasMachines(jobs, w) =>
      ResultIn(Sequential(jobs, w, j), jobs[j]))
  }

  /** In the sequential run each server has the result it would have alone. */
  lemma SequentialResultsAlone(jobs: seq<Job>, w: World)
    requires Independent(jobs, w)
    ensures SequentialResults(jobs, w) == ResultsAlone(jobs, w)
  {
    forall j | 0 <= j < |jobs| ensures SequentialResults(jobs, w)[j] == ResultsAlone(jobs, w)[j] {
      SequentialFinds(jobs, w, j);
      SameResultWhereSeen(jobs[j], SiteOf(Sequential(jobs, w, j), jobs[j]), SiteOf(w, jobs[j]),
        Footprint(ScriptOf(jobs[j])));
    }
  }

  lemma EndOfEach(jobs: seq<Job>, w: World, p: Pool, j: nat)
    requires Independent(jobs, w) && Invariant(jobs, w, p) && AllCollected(p) && j < |jobs|
    ensures SeenBy(jobs, p.world, j) == BackupServer(jobs[j], SeenBy(jobs, w, j)).site
    ensures p.progress[j].result == ResultIn(w, jobs[j])
  {
    AllFinish(jobs, w, p, j);
    WorkerRefinesBackupServer(jobs[j], SeenBy(jobs, w, j));
    BackupIsLocal(jobs[j], SiteOf(w, jobs[j]), Footprint(ScriptOf(jobs[j])));
  }

  lemma SameSeenSameListing(jobs: seq<Job>, a: World, b: World, j: nat, d: Path)
    requires j < |jobs| && MachineOf(jobs[j].server) in a.machines && MachineOf(jobs[j].server) in b.machines
    requires SeenBy(jobs, a, j) == SeenBy(jobs, b, j) && d in Footprint(ScriptOf(jobs[j]))
    ensures Listing(a.dirs, d) == Listing(b.dirs, d)
  {
    ListingAfterRestrict(a.dirs, Footprint(ScriptOf(jobs[j])));
    ListingAfterRestrict(b.dirs, Footprint(ScriptOf(jobs[j])));
  }

  lemma SameSeen(jobs: seq<Job>, w: World, p: Pool, j: nat)
    requires Independent(jobs, w) && Invariant(jobs, w, p) && AllCollected(p) && j < |jobs|
    ensures SeenBy(jobs, p.world, j) == SeenBy(jobs, Sequential(jobs, w, |jobs|), j)
  {
    EndOfEach(jobs, w, p, j);
    SequentialSees(jobs, w, j);
  }

  lemma SameMachines(jobs: seq<Job>, w: World, a: World, b: World)
    requires HasMachines(jobs, w) && a.machines.Keys == b.machines.Keys == w.machines.Keys
    requires forall j :: 0 <= j < |jobs| ==> SeenBy(jobs, a, j) == SeenBy(jobs, b, j)
    requires forall id :: id in w.machines && ForeignMachine(jobs, id) ==> a.machines[id] == b.machines[id]
    ensures a.machines == b.machines
  {
    forall id | id in w.machines ensures a.machines[id] == b.machines[id] {
      if !ForeignMachine(jobs, id) {
        var j :| 0 <= j < |jobs| && UsesMachine(jobs[j]) && MachineOf(jobs[j].server) == id;
        assert SeenBy(jobs, a, j) == SeenBy(jobs, b, j);
      }
    }
  }

  /** Worlds that look the same to every server, and are untouched elsewhere, are the same. */
  lemma SameWorlds(jobs: seq<Job>, w: World, a: World, b: World)
    requires HasMachines(jobs, w) && a.machines.Keys == b.machines.Keys == w.machines.Keys
    requires forall j :: 0 <= j < |jobs| ==> SeenBy(jobs, a, j) == SeenBy(jobs, b, j)
    requires forall d :: !Reachable(jobs, d) ==> Listing(a.dirs, d) == Listing(b.dirs, d)
    requires forall id :: id in w.machines && ForeignMachine(jobs, id) ==> a.machines[id] == b.machines[id]
    ensures a == b
  {
    forall d ensures Listing(a.dirs, d) == Listing(b.dirs, d) {
      if Reachable(jobs, d) {
        var j :| 0 <= j < |jobs| && d in Footprint(ScriptOf(jobs[j]));
        SameSeenSameListing(jobs, a, b, j, d);
      }
    }
    SameListings(a.dirs, b.dirs);
    SameMachines(jobs, w, a, b);
  }

  lemma SameWorld(jobs: seq<Job>, w: World, p: Pool)
    requires Independent(jobs, w) && Invariant(jobs, w, p) && AllCollected(p)
    ensures p.world == Sequential(jobs, w, |jobs|)
  {
    var end := Sequential(jobs, w, |jobs|);
    forall j | 0 <= j < |jobs| ensures SeenBy(jobs, p.world, j) == SeenBy(jobs, end, j) {
      SameSeen(jobs, w, p, j);
    }
    forall d | !Reachable(jobs, d) ensures Listing(p.world.dirs, d) == Listing(end.dirs, d) {
      SequentialSparesDirs(jobs, w, d);
    }
    forall id | id in w.machines && ForeignMachine(jobs, id) ensures p.world.machines[id] == end.machines[id] {
      SequentialSparesMachines(jobs, w, id);
    }
    SameWorlds(jobs, w, p.world, end);
  }

  lemma ResultNamesServer(job: Job, site: Site)
    ensures Collected(job, BackupServer(job, site).result).server == job.server.name
  {
  }

  lemma PickedHasAll(alone: seq<BackupResult>, order: seq<nat>, picked: seq<BackupResult>, j: nat)
    requires |order| == |picked| && j < |alone| && j in order
    requires forall k :: 0 <= k < |order| ==> order[k] < |alone| && picked[k] == alone[order[k]]
    ensures alone[j] in picked
  {
    var k :| 0 <= k < |order| && order[k] == j;
    assert picked[k] == alone[j];
  }

  lemma PickedIsDistinct(alone: seq<BackupResult>, order: seq<nat>, picked: seq<BackupResult>)
    requires |order| == |picked| && DistinctServers(alone)
    requires forall k :: 0 <= k < |order| ==> order[k] < |alone| && picked[k] == alone[order[k]]
    requires forall k, l :: 0 <= k < l < |order| ==> order[k] != order[l]
    ensures DistinctServers(picked)
  {
    forall k, l | 0 <= k < l < |picked| ensures picked[k].server != picked[l].server {
      assert order[k] < order[l] || order[l] < order[k];
    }
  }

  /** Picking every entry of `alone` exactly once, in any order, gives the same sorted list. */
  lemma PickingIsSorting(alone: seq<BackupResult>, order: seq<nat>, picked: seq<BackupResult>)
    requires |order| == |picked| == |alone| && DistinctServers(alone)
    requires forall k :: 0 <= k < |order| ==> order[k] < |alone| && picked[k] == alone[order[k]]
    requires forall k, l :: 0 <= k < l < |order| ==> order[k] != order[l]
    ensures SortByServer(picked) == SortByServer(alone)
  {
    DistinctIndices(order, |alone|);
    PickedIsDistinct(alone, order, picked);
    forall x ensures x in picked <==> x in alone {
      if x in picked {
        var k :| 0 <= k < |picked| && picked[k] == x;
        assert alone[order[k]] == x;
      }
      if x in alone {
        var j :| 0 <= j < |alone| && alone[j] == x;
        PickedHasAll(alone, order, picked, j);
      }
    }
    SummaryIgnoresOrder(picked, alone);
  }

  lemma NamesAlone(jobs: seq<Job>, w: World)
    requires Independent(jobs, w)
    ensures DistinctServers(ResultsAlone(jobs, w))
  {
    forall j | 0 <= j < |jobs| ensures ResultsAlone(jobs, w)[j].server == jobs[j].server.name {
      ResultNamesServer(jobs[j], SiteOf(w, jobs[j]));
    }
  }

  lemma SameSummary(jobs: seq<Job>, w: World, p: Pool)
    requires Independent(jobs, w) && Invariant(jobs, w, p) && AllCollected(p)
    ensures |CollectedResults(p)| == |jobs|
    ensures SortByServer(CollectedResults(p)) == SortByServer(ResultsAlone(jobs, w))
  {
    var a, b := CollectedResults(p), ResultsAlone(jobs, w);
    forall k | 0 <= k < |a| ensures a[k] == b[p.collected[k]] {
      EndOfEach(jobs, w, p, p.collected[k]);
    }
    NamesAlone(jobs, w);
    PickingIsSorting(b, p.collected, a);
  }

  /**
   * Confluence of the pool. For servers that share nothing, every schedule of every pool size that
   * has collected all results leaves exactly the world the sequential run leaves, has one result for
   * each server, and gives the summary of the sequential run.
   */
  lemma EveryScheduleIsSequential(jobs: seq<Job>, w: World, limit: nat, actions: seq<Action>)
    requires Independent(jobs, w) && Schedule(jobs, Initial(jobs, w, limit), actions)
    requires AllCollected(After(jobs, Initial(jobs, w, limit), actions))
    ensures var p := After(jobs, Initial(jobs, w, limit), actions);
            && Invariant(jobs, w, p)
            && p.world == Sequential(jobs, w, |jobs|)
            && |CollectedResults(p)| == |jobs|
            && SortByServer(CollectedResults(p)) == SortByServer(SequentialResults(jobs, w))
  {
    InitialInvariant(jobs, w, limit);
    ScheduleKeepsInvariant(jobs, w, Initial(jobs, w, limit), actions);
    var p := After(jobs, Initial(jobs, w, limit), actions);
    SameWorld(jobs, w, p);
    SameSummary(jobs, w, p);
    SequentialResultsAlone(jobs, w);
  }
}
