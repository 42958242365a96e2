/**
 * `backup_all`: a pool of at most `limit` workers, interleaved step by step in any order. For servers
 * that share neither machine nor directory every schedule gives what running one server after the
 * other gives.
 */
module Pool {
  import opened Paths
  import opened Retention
  import opened Models
  import opened Snapshots
  import opened Orchestrator
  import opened Worker
  import opened Refinement

  /** Commands of a local server run on the backup server itself. */
  datatype MachineId = Here | Remote(hostname: string)

  function MachineOf(s: ServerConfig): MachineId {
    if s.isLocal then Here else Remote(s.hostname)
  }

  datatype World = World(machines: map<MachineId, Machine>, dirs: Dirs)

  function SiteOf(w: World, job: Job): Site
    requires MachineOf(job.server) in w.machines
  {
    Site(w.machines[MachineOf(job.server)], w.dirs)
  }

  function Updated(w: World, job: Job, site: Site): World {
    World(w.machines[MachineOf(job.server) := site.machine], site.dirs)
  }

  // ---------------------------------------------------------------- what a worker can reach

  function Footprint(script: Script): set<Path> {
    {Parent(script.config.target), script.config.directory,
     Parent(script.selections.target), script.selections.directory,
     Parent(script.list.target), script.list.directory,
     Parent(script.stream.target), script.stream.directory}
  }

  function Restrict(dirs: Dirs, paths: set<Path>): Dirs {
    map d | d in dirs && d in paths :: dirs[d]
  }

  lemma PlaceIsInFootprint(script: Script, phase: Phase)
    ensures Place(script, phase) in Footprint(script)
  {
  }

  lemma ListingAfterRestrict(dirs: Dirs, paths: set<Path>)
    ensures forall d :: Listing(Restrict(dirs, paths), d) == if d in paths then Listing(dirs, d) else map[]
  {
  }

  lemma RestrictPut(dirs: Dirs, paths: set<Path>, d: Path, folder: Folder)
    requires d in paths
    ensures Listing(Restrict(dirs, paths), d) == Listing(dirs, d)
    ensures Restrict(Put(dirs, d, folder), paths) == Put(Restrict(dirs, paths), d, folder)
  {
    ListingAfterRestrict(dirs, paths);
    ListingAfterRestrict(Put(dirs, d, folder), paths);
    ListingAfterPut(dirs, d, folder);
    ListingAfterPut(Restrict(dirs, paths), d, folder);
    SameListings(Restrict(Put(dirs, d, folder), paths), Put(Restrict(dirs, paths), d, folder));
  }

  /** Does a worker use its machine at all? Only to take snapshots. */
  predicate UsesMachine(job: Job) {
    WantsZfs(job) && !job.dryRun
  }

  /** The part of a site that is seen: these directories and, if it is used, the machine. */
  function NarrowSite(site: Site, paths: set<Path>, machine: bool): Site {
    Site(if machine then site.machine else Machine({}, {}), Restrict(site.dirs, paths))
  }

  function Narrow(s: State, paths: set<Path>, machine: bool): State {
    State(s.progress, NarrowSite(s.site, paths, machine))
  }

  lemma MoveIsLocal(script: Script, p: Progress, m: Machine, folder: Folder)
    requires OnTrack(script, p)
    ensures var seen := if script.doesZfs then m else Machine({}, {});
            var moved := Move(script, p, m, folder);
            && Move(script, p, seen, folder) == moved.(machine := if script.doesZfs then moved.machine else seen)
            && (!script.doesZfs ==> moved.machine == m)
            && OnTrack(script, moved.progress)
  {
    MoveStaysOnTrack(script, p, m, folder);
    if !script.doesZfs {
      MoveIgnoresMachine(script, p, m, Machine({}, {}), folder);
    }
  }

  /** A step reads and writes nothing outside the footprint, and no machine unless snapshots are wanted. */
  lemma StepIsLocal(script: Script, s: State, paths: set<Path>)
    requires Footprint(script) <= paths && OnTrack(script, s.progress)
    ensures Narrow(Step(script, s), paths, script.doesZfs) == Step(script, Narrow(s, paths, script.doesZfs))
    ensures forall d :: d !in paths ==> Listing(Step(script, s).site.dirs, d) == Listing(s.site.dirs, d)
    ensures !script.doesZfs ==> Step(script, s).site.machine == s.site.machine
    ensures OnTrack(script, Step(script, s).progress)
  {
    var place := Place(script, s.progress.phase);
    PlaceIsInFootprint(script, s.progress.phase);
    MoveIsLocal(script, s.progress, s.site.machine, Listing(s.site.dirs, place));
    var folder := Move(script, s.progress, s.site.machine, Listing(s.site.dirs, place)).folder;
    RestrictPut(s.site.dirs, paths, place, folder);
    ListingAfterPut(s.site.dirs, place, folder);
  }

  lemma {:induction false} FinishIsLocal(script: Script, s: State, paths: set<Path>)
    requires Footprint(script) <= paths && OnTrack(script, s.progress)
    ensures Narrow(Finish(script, s), paths, script.doesZfs) == Finish(script, Narrow(s, paths, script.doesZfs))
    ensures forall d :: d !in paths ==> Listing(Finish(script, s).site.dirs, d) == Listing(s.site.dirs, d)
    ensures !script.doesZfs ==> Finish(script, s).site.machine == s.site.machine
    ensures StepsLeft(script, s) == StepsLeft(script, Narrow(s, paths, script.doesZfs))
    decreases Rank(s.progress.phase), Length(s.progress.phase)
  {
    if !s.progress.phase.Finished? {
      StepIsLocal(script, s, paths);
      StepDecreases(script, s);
      FinishIsLocal(script, Step(script, s), paths);
    }
  }

  // ---------------------------------------------------------------- the pool

  datatype Pool = Pool(
    world: World,
    limit: nat,
    started: nat,                 // workers take the submitted servers in order
    progress: seq<Progress>,
    collected: seq<nat>)          // futures in the order `as_completed` yields them

  datatype Action = Begin | Work(i: nat) | Collect(i: nat)

  predicate Running(p: Pool, i: nat)
    requires i < |p.progress|
  {
    i < p.started && !p.progress[i].phase.Finished?
  }

  function Busy(p: Pool): set<nat> {
    set i | 0 <= i < |p.progress| && Running(p, i)
  }

  predicate Enabled(jobs: seq<Job>, p: Pool, a: Action) {
    |p.progress| == |jobs| &&
    match a
    case Begin => p.started < |jobs| && |Busy(p)| < p.limit
    case Work(i) => i < |jobs| && Running(p, i) && MachineOf(jobs[i].server) in p.world.machines
    case Collect(i) => i < p.started && i < |jobs| && p.progress[i].phase.Finished? && i !in p.collected
  }

  function StateOf(jobs: seq<Job>, p: Pool, i: nat): State
    requires i < |jobs| && i < |p.progress| && MachineOf(jobs[i].server) in p.world.machines
  {
    State(p.progress[i], SiteOf(p.world, jobs[i]))
  }

  function Act(jobs: seq<Job>, p: Pool, a: Action): Pool
    requires Enabled(jobs, p, a)
  {
    match a
    case Begin => p.(started := p.started + 1)
    case Work(i) =>
      var next := Step(ScriptOf(jobs[i]), StateOf(jobs, p, i));
      p.(world := Updated(p.world, jobs[i], next.site), progress := p.progress[i := next.progress])
    case Collect(i) => p.(collected := p.collected + [i])
  }

  function Initial(jobs: seq<Job>, w: World, limit: nat): Pool {
    Pool(w, limit, 0, seq(|jobs|, i requires 0 <= i < |jobs| => Start(jobs[i])), [])
  }

  /** A schedule: any sequence of actions each of which is enabled when it is taken. */
  predicate Schedule(jobs: seq<Job>, p: Pool, actions: seq<Action>)
    decreases |actions|
  {
    actions == [] || (Enabled(jobs, p, actions[0]) && Schedule(jobs, Act(jobs, p, actions[0]), actions[1..]))
  }

  function After(jobs: seq<Job>, p: Pool, actions: seq<Action>): Pool
    requires Schedule(jobs, p, actions)
    decreases |actions|
  {
    if actions == [] then p else After(jobs, Act(jobs, p, actions[0]), actions[1..])
  }

  predicate AllCollected(p: Pool) {
    |p.collected| == |p.progress|
  }

  // ---------------------------------------------------------------- independence

  /** Servers may share a machine as long as at most one of them takes snapshots on it. */
  predicate SharesNoMachine(a: Job, b: Job) {
    UsesMachine(a) && UsesMachine(b) ==> MachineOf(a.server) != MachineOf(b.server)
  }

  /** Distinct names and directories, no machine on which two servers take snapshots, and every machine is there. */
  ghost predicate Independent(jobs: seq<Job>, w: World) {
    && (forall i :: 0 <= i < |jobs| ==> MachineOf(jobs[i].server) in w.machines)
    && (forall i, j :: 0 <= i < j < |jobs| ==>
         && jobs[i].server.name != jobs[j].server.name
         && SharesNoMachine(jobs[i], jobs[j])
         && Footprint(ScriptOf(jobs[i])) !! Footprint(ScriptOf(jobs[j])))
  }

  /** What worker `i` sees: its own directories and, if it uses it, its machine. */
  function ViewOf(jobs: seq<Job>, p: Pool, i: nat): State
    requires i < |jobs| && i < |p.progress| && MachineOf(jobs[i].server) in p.world.machines
  {
    Narrow(StateOf(jobs, p, i), Footprint(ScriptOf(jobs[i])), UsesMachine(jobs[i]))
  }

  function StartView(jobs: seq<Job>, w: World, i: nat): State
    requires i < |jobs| && MachineOf(jobs[i].server) in w.machines
  {
    Narrow(State(Start(jobs[i]), SiteOf(w, jobs[i])), Footprint(ScriptOf(jobs[i])), UsesMachine(jobs[i]))
  }

  ghost predicate Reachable(jobs: seq<Job>, d: Path) {
    exists i :: 0 <= i < |jobs| && d in Footprint(ScriptOf(jobs[i]))
  }

  ghost predicate AllOnTrack(jobs: seq<Job>, progress: seq<Progress>) {
    |progress| == |jobs| && forall i :: 0 <= i < |jobs| ==> OnTrack(ScriptOf(jobs[i]), progress[i])
  }

  ghost predicate Counts(jobs: seq<Job>, w: World, p: Pool) {
    && |p.progress| == |jobs| && p.world.machines.Keys == w.machines.Keys
    && p.started <= |jobs| && |Busy(p)| <= p.limit
  }

  ghost predicate Shape(jobs: seq<Job>, w: World, p: Pool) {
    Counts(jobs, w, p) && AllOnTrack(jobs, p.progress)
  }

  /** Where each worker will end, running on alone from here, is where it would have ended alone from the start. */
  ghost predicate SameEnds(jobs: seq<Job>, w: World, p: Pool)
    requires Independent(jobs, w) && Shape(jobs, w, p)
  {
    forall i :: 0 <= i < |jobs| ==>
      Finish(ScriptOf(jobs[i]), ViewOf(jobs, p, i)) == Finish(ScriptOf(jobs[i]), StartView(jobs, w, i))
  }

  /** A machine on which no worker takes snapshots. */
  ghost predicate ForeignMachine(jobs: seq<Job>, id: MachineId) {
    forall i :: 0 <= i < |jobs| && UsesMachine(jobs[i]) ==> MachineOf(jobs[i].server) != id
  }

  /** What no worker can reach is as it was. */
  ghost predicate RestUntouched(jobs: seq<Job>, w: World, p: Pool)
    requires Shape(jobs, w, p)
  {
    && (forall d :: !Reachable(jobs, d) ==> Listing(p.world.dirs, d) == Listing(w.dirs, d))
    && (forall id :: id in w.machines && ForeignMachine(jobs, id) ==> p.world.machines[id] == w.machines[id])
  }

  ghost predicate Books(jobs: seq<Job>, p: Pool)
    requires |p.progress| == |jobs| && p.started <= |jobs|
  {
    && (forall i :: p.started <= i < |jobs| ==> p.progress[i] == Start(jobs[i]))
    && (forall k :: 0 <= k < |p.collected| ==> p.collected[k] < p.started && p.progress[p.collected[k]].phase.Finished?)
    && (forall k, l :: 0 <= k < l < |p.collected| ==> p.collected[k] != p.collected[l])
  }

  /** What every schedule keeps. */
  ghost predicate Invariant(jobs: seq<Job>, w: World, p: Pool)
    requires Independent(jobs, w)
  {
    Shape(jobs, w, p) && SameEnds(jobs, w, p) && RestUntouched(jobs, w, p) && Books(jobs, p)
  }

  lemma SameRestriction(a: Dirs, b: Dirs, paths: set<Path>)
    requires forall d :: d in paths ==> Listing(a, d) == Listing(b, d)
    ensures Restrict(a, paths) == Restrict(b, paths)
  {
    ListingAfterRestrict(a, paths);
    ListingAfterRestrict(b, paths);
    SameListings(Restrict(a, paths), Restrict(b, paths));
  }

  lemma StepSparesOthers(script: Script, s: State, mine: set<Path>, theirs: set<Path>)
    requires Footprint(script) <= mine && mine !! theirs && OnTrack(script, s.progress)
    ensures Restrict(Step(script, s).site.dirs, theirs) == Restrict(s.site.dirs, theirs)
  {
    StepIsLocal(script, s, mine);
    SameRestriction(Step(script, s).site.dirs, s.site.dirs, theirs);
  }

  lemma OwnViewMoves(jobs: seq<Job>, p: Pool, i: nat)
    requires Enabled(jobs, p, Work(i)) && OnTrack(ScriptOf(jobs[i]), p.progress[i])
    ensures ViewOf(jobs, Act(jobs, p, Work(i)), i) == Step(ScriptOf(jobs[i]), ViewOf(jobs, p, i))
  {
    StepIsLocal(ScriptOf(jobs[i]), StateOf(jobs, p, i), Footprint(ScriptOf(jobs[i])));
  }

  lemma Apart(jobs: seq<Job>, w: World, i: nat, j: nat)
    requires Independent(jobs, w) && i < |jobs| && j < |jobs| && i != j
    ensures SharesNoMachine(jobs[i], jobs[j])
    ensures Footprint(ScriptOf(jobs[i])) !! Footprint(ScriptOf(jobs[j]))
  {
    if j < i {
      assert Footprint(ScriptOf(jobs[j])) !! Footprint(ScriptOf(jobs[i]));
    }
  }

  lemma OtherViewsStay(jobs: seq<Job>, p: Pool, i: nat, j: nat, mine: set<Path>, theirs: set<Path>)
    requires Enabled(jobs, p, Work(i)) && j < |jobs| && i != j
    requires MachineOf(jobs[j].server) in p.world.machines && SharesNoMachine(jobs[i], jobs[j])
    requires Footprint(ScriptOf(jobs[i])) <= mine && mine !! theirs && OnTrack(ScriptOf(jobs[i]), p.progress[i])
    ensures Narrow(StateOf(jobs, Act(jobs, p, Work(i)), j), theirs, UsesMachine(jobs[j])) ==
            Narrow(StateOf(jobs, p, j), theirs, UsesMachine(jobs[j]))
  {
    StepIsLocal(ScriptOf(jobs[i]), StateOf(jobs, p, i), mine);
    StepSparesOthers(ScriptOf(jobs[i]), StateOf(jobs, p, i), mine, theirs);
  }

  /** A step of worker `i` moves its own view by one step, and no other worker's view. */
  lemma WorkMovesOneView(jobs: seq<Job>, w: World, p: Pool, i: nat, j: nat)
    requires Independent(jobs, w) && Shape(jobs, w, p)
    requires Enabled(jobs, p, Work(i)) && j < |jobs|
    ensures ViewOf(jobs, Act(jobs, p, Work(i)), j) ==
            if i == j then Step(ScriptOf(jobs[i]), ViewOf(jobs, p, i)) else ViewOf(jobs, p, j)
  {
    if i == j {
      OwnViewMoves(jobs, p, i);
    } else {
      Apart(jobs, w, i, j);
      OtherViewsStay(jobs, p, i, j, Footprint(ScriptOf(jobs[i])), Footprint(ScriptOf(jobs[j])));
    }
  }

  lemma WorkKeepsEnds(jobs: seq<Job>, w: World, p: Pool, i: nat)
    requires Independent(jobs, w) && Shape(jobs, w, p) && SameEnds(jobs, w, p) && Enabled(jobs, p, Work(i))
    requires Shape(jobs, w, Act(jobs, p, Work(i)))
    ensures SameEnds(jobs, w, Act(jobs, p, Work(i)))
  {
    forall j | 0 <= j < |jobs|
      ensures Finish(ScriptOf(jobs[j]), ViewOf(jobs, Act(jobs, p, Work(i)), j)) ==
                Finish(ScriptOf(jobs[j]), StartView(jobs, w, j))
    {
      WorkMovesOneView(jobs, w, p, i, j);
      if i == j {
        OneStep(ScriptOf(jobs[i]), ViewOf(jobs, p, i));
      }
    }
  }

  lemma WorkSparesDir(jobs: seq<Job>, p: Pool, i: nat, d: Path)
    requires Enabled(jobs, p, Work(i)) && OnTrack(ScriptOf(jobs[i]), p.progress[i]) && !Reachable(jobs, d)
    ensures Listing(Act(jobs, p, Work(i)).world.dirs, d) == Listing(p.world.dirs, d)
  {
    StepIsLocal(ScriptOf(jobs[i]), StateOf(jobs, p, i), Footprint(ScriptOf(jobs[i])));
  }

  lemma WorkSparesMachine(jobs: seq<Job>, p: Pool, i: nat, id: MachineId)
    requires Enabled(jobs, p, Work(i)) && OnTrack(ScriptOf(jobs[i]), p.progress[i])
    requires id in p.world.machines && ForeignMachine(jobs, id)
    ensures Act(jobs, p, Work(i)).world.machines[id] == p.world.machines[id]
  {
    StepIsLocal(ScriptOf(jobs[i]), StateOf(jobs, p, i), Footprint(ScriptOf(jobs[i])));
  }

  lemma WorkKeepsRest(jobs: seq<Job>, w: World, p: Pool, i: nat)
    requires Independent(jobs, w) && Shape(jobs, w, p) && RestUntouched(jobs, w, p) && Enabled(jobs, p, Work(i))
    requires Shape(jobs, w, Act(jobs, p, Work(i)))
    ensures RestUntouched(jobs, w, Act(jobs, p, Work(i)))
  {
    forall d | !Reachable(jobs, d) ensures Listing(Act(jobs, p, Work(i)).world.dirs, d) == Listing(w.dirs, d) {
      WorkSparesDir(jobs, p, i, d);
    }
    forall id | id in w.machines && ForeignMachine(jobs, id)
      ensures Act(jobs, p, Work(i)).world.machines[id] == p.world.machines[id]
    {
      WorkSparesMachine(jobs, p, i, id);
    }
  }

  lemma BusyWithOneChanged(p: Pool, q: Pool, i: nat, next: Progress)
    requires i < |p.progress| && Running(p, i)
    requires q.progress == p.progress[i := next] && q.started == p.started
    ensures |Busy(q)| <= |Busy(p)|
  {
    forall k | k in Busy(q) ensures k in Busy(p) {
      assert k != i ==> q.progress[k] == p.progress[k];
    }
    SubsetSize(Busy(q), Busy(p));
  }

  lemma BusyAfterWork(jobs: seq<Job>, p: Pool, i: nat)
    requires Enabled(jobs, p, Work(i))
    ensures |Busy(Act(jobs, p, Work(i)))| <= |Busy(p)|
  {
    BusyWithOneChanged(p, Act(jobs, p, Work(i)), i, Step(ScriptOf(jobs[i]), StateOf(jobs, p, i)).progress);
  }

  lemma BusyAfterBegin(jobs: seq<Job>, p: Pool)
    requires Enabled(jobs, p, Begin)
    ensures |Busy(Act(jobs, p, Begin))| <= p.limit
  {
    var before, after := Busy(p), Busy(Act(jobs, p, Begin));
    assert after <= before + {p.started};
    SubsetSize(after, before + {p.started});
  }

  lemma WorkStaysOnTrack(jobs: seq<Job>, p: Pool, i: nat) returns (next: Progress)
    requires Enabled(jobs, p, Work(i)) && OnTrack(ScriptOf(jobs[i]), p.progress[i])
    ensures OnTrack(ScriptOf(jobs[i]), next) && Act(jobs, p, Work(i)).progress == p.progress[i := next]
    ensures Act(jobs, p, Work(i)).collected == p.collected && Act(jobs, p, Work(i)).started == p.started
    ensures Act(jobs, p, Work(i)).world.machines.Keys == p.world.machines.Keys && Act(jobs, p, Work(i)).limit == p.limit
  {
    StepIsLocal(ScriptOf(jobs[i]), StateOf(jobs, p, i), Footprint(ScriptOf(jobs[i])));
    next := Step(ScriptOf(jobs[i]), StateOf(jobs, p, i)).progress;
  }

  lemma OneOnTrack(jobs: seq<Job>, progress: seq<Progress>, i: nat, next: Progress)
    requires AllOnTrack(jobs, progress) && i < |jobs| && OnTrack(ScriptOf(jobs[i]), next)
    ensures AllOnTrack(jobs, progress[i := next])
  {
  }

  lemma BooksWithOneChanged(jobs: seq<Job>, p: Pool, q: Pool, i: nat, next: Progress)
    requires |p.progress| == |jobs| && p.started <= |jobs| && Books(jobs, p) && i < |jobs| && Running(p, i)
    requires q.progress == p.progress[i := next] && q.collected == p.collected && q.started == p.started
    ensures Books(jobs, q)
  {
  }

  lemma WorkKeepsBooks(jobs: seq<Job>, w: World, p: Pool, i: nat)
    requires Shape(jobs, w, p) && Books(jobs, p) && Enabled(jobs, p, Work(i))
    ensures Shape(jobs, w, Act(jobs, p, Work(i))) && Books(jobs, Act(jobs, p, Work(i)))
  {
    BusyAfterWork(jobs, p, i);
    var next := WorkStaysOnTrack(jobs, p, i);
    OneOnTrack(jobs, p.progress, i, next);
    BooksWithOneChanged(jobs, p, Act(jobs, p, Work(i)), i, next);
  }

  // ---------------------------------------------------------------- what servers may share

  /** The bookkeeping needs nothing of the servers: they may share machines, directories and names. */
  lemma InitialBooks(jobs: seq<Job>, w: World, limit: nat)
    ensures Shape(jobs, w, Initial(jobs, w, limit)) && Books(jobs, Initial(jobs, w, limit))
  {
    assert Busy(Initial(jobs, w, limit)) == {};
    forall i | 0 <= i < |jobs| ensures OnTrack(ScriptOf(jobs[i]), Start(jobs[i])) {
      StartIsOnTrack(jobs[i]);
    }
  }

  lemma BeginKeepsBooks(jobs: seq<Job>, w: World, p: Pool, q: Pool)
    requires Counts(jobs, w, p) && Books(jobs, p) && p.started < |jobs|
    requires q == p.(started := p.started + 1) && |Busy(q)| <= p.limit
    ensures Counts(jobs, w, q) && Books(jobs, q)
  {
  }

  lemma CollectKeepsBooks(jobs: seq<Job>, w: World, p: Pool, i: nat, q: Pool)
    requires Counts(jobs, w, p) && Books(jobs, p) && i < p.started && p.progress[i].phase.Finished? && i !in p.collected
    requires q == p.(collected := p.collected + [i])
    ensures Counts(jobs, w, q) && Books(jobs, q)
  {
    assert Busy(q) == Busy(p);
  }

  lemma ActKeepsBooks(jobs: seq<Job>, w: World, p: Pool, a: Action)
    requires Shape(jobs, w, p) && Books(jobs, p) && Enabled(jobs, p, a)
    ensures Shape(jobs, w, Act(jobs, p, a)) && Books(jobs, Act(jobs, p, a))
  {
    match a
    case Begin =>
      BusyAfterBegin(jobs, p);
      BeginKeepsBooks(jobs, w, p, Act(jobs, p, a));
    case Work(i) => WorkKeepsBooks(jobs, w, p, i);
    case Collect(i) => CollectKeepsBooks(jobs, w, p, i, Act(jobs, p, a));
  }

  lemma {:induction false} ScheduleKeepsBooks(jobs: seq<Job>, w: World, p: Pool, actions: seq<Action>)
    requires Shape(jobs, w, p) && Books(jobs, p) && Schedule(jobs, p, actions)
    ensures Shape(jobs, w, After(jobs, p, actions)) && Books(jobs, After(jobs, p, actions))
    decreases |actions|
  {
    if actions != [] {
      ActKeepsBooks(jobs, w, p, actions[0]);
      ScheduleKeepsBooks(jobs, w, Act(jobs, p, actions[0]), actions[1..]);
    }
  }

  // ---------------------------------------------------------------- what independent servers keep

  lemma InitialInvariant(jobs: seq<Job>, w: World, limit: nat)
    requires Independent(jobs, w)
    ensures Invariant(jobs, w, Initial(jobs, w, limit))
  {
    InitialBooks(jobs, w, limit);
  }

  lemma BeginKeepsInvariant(jobs: seq<Job>, w: World, p: Pool)
    requires Independent(jobs, w) && Invariant(jobs, w, p) && Enabled(jobs, p, Begin)
    ensures Invariant(jobs, w, Act(jobs, p, Begin))
  {
    ActKeepsBooks(jobs, w, p, Begin);
    var q := Act(jobs, p, Begin);
    forall j | 0 <= j < |jobs| ensures ViewOf(jobs, q, j) == ViewOf(jobs, p, j) {
    }
  }

  lemma CollectKeepsInvariant(jobs: seq<Job>, w: World, p: Pool, i: nat)
    requires Independent(jobs, w) && Invariant(jobs, w, p) && Enabled(jobs, p, Collect(i))
    ensures Invariant(jobs, w, Act(jobs, p, Collect(i)))
  {
    ActKeepsBooks(jobs, w, p, Collect(i));
    var q := Act(jobs, p, Collect(i));
    forall j | 0 <= j < |jobs| ensures ViewOf(jobs, q, j) == ViewOf(jobs, p, j) {
    }
  }

  lemma ActKeepsInvariant(jobs: seq<Job>, w: World, p: Pool, a: Action)
    requires Independent(jobs, w) && Invariant(jobs, w, p) && Enabled(jobs, p, a)
    ensures Invariant(jobs, w, Act(jobs, p, a))
  {
    match a
    case Begin => BeginKeepsInvariant(jobs, w, p);
    case Work(i) =>
      ActKeepsBooks(jobs, w, p, a);
      WorkKeepsEnds(jobs, w, p, i);
      WorkKeepsRest(jobs, w, p, i);
    case Collect(i) => CollectKeepsInvariant(jobs, w, p, i);
  }

  lemma {:induction false} ScheduleKeepsInvariant(jobs: seq<Job>, w: World, p: Pool, actions: seq<Action>)
    requires Independent(jobs, w) && Invariant(jobs, w, p) && Schedule(jobs, p, actions)
    ensures Invariant(jobs, w, After(jobs, p, actions))
    decreases |actions|
  {
    if actions != [] {
      ActKeepsInvariant(jobs, w, p, actions[0]);
      ScheduleKeepsInvariant(jobs, w, Act(jobs, p, actions[0]), actions[1..]);
    }
  }
}
