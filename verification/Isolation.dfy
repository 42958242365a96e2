/**
 * What workers cannot do to each other and to bystanders: distinct server names give distinct
 * directories, and no schedule, however servers share machines, touches a foreign snapshot.
 */
module Isolation {
  import opened Names
  import opened Paths
  import opened Retention
  import opened Archives
  import opened Snapshots
  import opened Lifecycle
  import opened Models
  import opened Orchestrator
  import opened Effects
  import opened Worker
  import opened Pool

  // ---------------------------------------------------------------- directories

  lemma RelativeStays(directory: Path, relative: string)
    requires relative == "" || relative[0] != '/'
    ensures directory <= Into(directory, relative)
  {
  }

  lemma ParentIsBelow(root: Path, directory: Path, p: Path)
    requires directory <= p && root < directory
    ensures root <= Parent(p)
  {
  }

  lemma StreamIsBelow(base: Path, server: string, pool: string, t: Moment)
    requires Descends(pool)
    ensures ServerDir(base, server) <= Parent(Into(SnapshotsDir(base, server),
              BuildSnapshotFilename(server, pool, BuildTimestamp(t))))
  {
    var dir := SnapshotsDir(base, server);
    var name := BuildSnapshotFilename(server, pool, BuildTimestamp(t));
    assert name[0] == if pool == "" then '_' else pool[0];
    RelativeStays(dir, name);
    ParentIsBelow(ServerDir(base, server), dir, Into(dir, name));
  }

  lemma ArchiveIsBelow(base: Path, server: string, name: string)
    requires name != "" && name[0] != '/'
    ensures ServerDir(base, server) <= Parent(Into(ConfigsDir(base, server), name))
  {
    RelativeStays(ConfigsDir(base, server), name);
    ParentIsBelow(ServerDir(base, server), ConfigsDir(base, server), Into(ConfigsDir(base, server), name));
  }

  /** A job whose server name is one path component. */
  predicate OwnDirectory(job: Job) {
    Plain(job.server.name) && Descends(job.server.zfsPool)
  }

  ghost predicate Home(root: Path, task: Task) {
    root <= task.directory && root <= Parent(task.target)
  }

  lemma ConfigsAreHome(job: Job)
    ensures Home(ServerDir(job.settings.baseDir, job.server.name), ScriptOf(job).config)
    ensures Home(ServerDir(job.settings.baseDir, job.server.name), ScriptOf(job).selections)
    ensures Home(ServerDir(job.settings.baseDir, job.server.name), ScriptOf(job).list)
  {
    var base, name, o := job.settings.baseDir, job.server.name, job.oracle.configs;
    ArchiveIsBelow(base, name, BuildConfigFilename(name, BuildTimestamp(o.configAt)));
    ArchiveIsBelow(base, name, BuildPackagesFilename(name, BuildTimestamp(o.packagesAt), SELECTIONS));
    ArchiveIsBelow(base, name, BuildPackagesFilename(name, BuildTimestamp(o.packagesAt), LIST));
  }

  lemma StreamIsHome(job: Job)
    requires Descends(job.server.zfsPool)
    ensures Home(ServerDir(job.settings.baseDir, job.server.name), ScriptOf(job).stream)
  {
    StreamIsBelow(job.settings.baseDir, job.server.name, job.server.zfsPool, job.oracle.zfs.at);
  }

  lemma FootprintIsHome(root: Path, script: Script, d: Path)
    requires Home(root, script.config) && Home(root, script.selections) && Home(root, script.list)
    requires Home(root, script.stream)
    requires d in Footprint(script)
    ensures root <= d
  {
  }

  lemma FootprintIsBelow(job: Job, d: Path)
    requires OwnDirectory(job) && d in Footprint(ScriptOf(job))
    ensures job.settings.baseDir + [job.server.name] <= d
  {
    PlainNameStays(job.settings.baseDir, job.server.name);
    ConfigsAreHome(job);
    StreamIsHome(job);
    FootprintIsHome(ServerDir(job.settings.baseDir, job.server.name), ScriptOf(job), d);
  }

  lemma TwoBranches(base: Path, x: string, y: string, d: Path)
    requires base + [x] <= d && base + [y] <= d
    ensures x == y
  {
    assert d[|base|] == (base + [x])[|base|] == (base + [y])[|base|];
  }

  lemma NothingShared(a: Job, b: Job, d: Path)
    requires OwnDirectory(a) && OwnDirectory(b) && a.settings.baseDir == b.settings.baseDir
    requires a.server.name != b.server.name
    requires d in Footprint(ScriptOf(a))
    ensures d !in Footprint(ScriptOf(b))
  {
    FootprintIsBelow(a, d);
    if d in Footprint(ScriptOf(b)) {
      FootprintIsBelow(b, d);
      TwoBranches(a.settings.baseDir, a.server.name, b.server.name, d);
    }
  }

  lemma SomethingShared(a: Job, b: Job)
    requires a.settings.baseDir == b.settings.baseDir && a.server.name == b.server.name
    ensures ConfigsDir(a.settings.baseDir, a.server.name) in Footprint(ScriptOf(a)) * Footprint(ScriptOf(b))
  {
  }

  /** Two servers below the same base directory share no directory exactly when their names differ. */
  lemma NamesSeparate(a: Job, b: Job)
    requires OwnDirectory(a) && OwnDirectory(b) && a.settings.baseDir == b.settings.baseDir
    ensures Footprint(ScriptOf(a)) !! Footprint(ScriptOf(b)) <==> a.server.name != b.server.name
  {
    if a.server.name == b.server.name {
      SomethingShared(a, b);
    } else {
      forall d | d in Footprint(ScriptOf(a)) ensures d !in Footprint(ScriptOf(b)) {
        NothingShared(a, b, d);
      }
    }
  }

  /** Servers below one base directory whose machines are all there. */
  ghost predicate Below(jobs: seq<Job>, w: World, base: Path) {
    forall i :: 0 <= i < |jobs| ==>
      OwnDirectory(jobs[i]) && jobs[i].settings.baseDir == base && MachineOf(jobs[i].server) in w.machines
  }

  /** Both servers are the backup server itself, or both are reached by the same host name. */
  predicate SameMachine(a: ServerConfig, b: ServerConfig) {
    a.isLocal == b.isLocal && (a.isLocal || a.hostname == b.hostname)
  }

  /** Both take snapshots, and on one machine. */
  predicate Collide(a: Job, b: Job) {
    && SnapshotRuns(a) && SnapshotRuns(b) && !a.dryRun && !b.dryRun
    && SameMachine(a.server, b.server)
  }

  lemma SharingIsColliding(a: Job, b: Job)
    ensures SharesNoMachine(a, b) <==> !Collide(a, b)
  {
  }

  /**
   * What the configuration has to promise for the pool to be confluent: servers are independent exactly
   * when their names differ and no two of them take snapshots on one machine.
   */
  lemma DistinctServersAreIndependent(jobs: seq<Job>, w: World, base: Path)
    requires Below(jobs, w, base)
    ensures Independent(jobs, w) <==>
            forall i, j :: 0 <= i < j < |jobs| ==>
              jobs[i].server.name != jobs[j].server.name && !Collide(jobs[i], jobs[j])
  {
    forall i, j | 0 <= i < j < |jobs|
      ensures Footprint(ScriptOf(jobs[i])) !! Footprint(ScriptOf(jobs[j])) <==>
                jobs[i].server.name != jobs[j].server.name
      ensures SharesNoMachine(jobs[i], jobs[j]) <==> !Collide(jobs[i], jobs[j])
    {
      NamesSeparate(jobs[i], jobs[j]);
      SharingIsColliding(jobs[i], jobs[j]);
    }
  }

  // ---------------------------------------------------------------- foreign snapshots

  /** A worker in its cleanup loop holds a list of tool snapshots only. */
  ghost predicate SweepsTool(p: Progress) {
    p.phase.Sweeping? ==> forall s :: s in p.phase.list ==> Tool(s)
  }

  lemma MoveKeepsOthers(script: Script, p: Progress, m: Machine, folder: Folder)
    requires Tool(script.own) && SweepsTool(p)
    ensures var moved := Move(script, p, m, folder);
            Others(moved.machine) == Others(m) && moved.machine.datasets == m.datasets && SweepsTool(moved.progress)
  {
    match p.phase
    case Writing(f) =>
    case Looking(f) =>
    case Pruning(f, todo) =>
    case ListingStale =>
    case Sweeping(list, i) =>
      if i < |list| {
        assert list[i] in list;
        DestroyFrame(m, list[i], ReplyAt(script.zfs.sweep, i));
      }
    case Creating => CreateFrame(m, script.own, script.zfs.create);
    case Destroying(sent) => DestroyFrame(m, script.own, script.zfs.destroy);
    case Finished =>
  }

  ghost predicate AllSweepTool(p: Pool) {
    forall i :: 0 <= i < |p.progress| ==> SweepsTool(p.progress[i])
  }

  ghost predicate SameOthers(a: World, b: World) {
    a.machines.Keys == b.machines.Keys && forall id :: id in a.machines ==>
      Others(a.machines[id]) == Others(b.machines[id])
  }

  lemma ScriptOwnsTool(job: Job)
    ensures Tool(ScriptOf(job).own)
  {
  }

  lemma ActKeepsOthers(jobs: seq<Job>, p: Pool, a: Action)
    requires Enabled(jobs, p, a) && AllSweepTool(p)
    ensures AllSweepTool(Act(jobs, p, a)) && SameOthers(Act(jobs, p, a).world, p.world)
  {
    if a.Work? {
      var s := StateOf(jobs, p, a.i);
      var script := ScriptOf(jobs[a.i]);
      ScriptOwnsTool(jobs[a.i]);
      MoveKeepsOthers(script, s.progress, s.site.machine, Listing(s.site.dirs, Place(script, s.progress.phase)));
    }
  }

  lemma {:induction false} ActionsKeepOthers(jobs: seq<Job>, p: Pool, actions: seq<Action>)
    requires Schedule(jobs, p, actions) && AllSweepTool(p)
    ensures SameOthers(After(jobs, p, actions).world, p.world)
    decreases |actions|
  {
    if actions != [] {
      ActKeepsOthers(jobs, p, actions[0]);
      ActionsKeepOthers(jobs, Act(jobs, p, actions[0]), actions[1..]);
    }
  }

  /**
   * Every schedule of every set of servers, sharing machines or not and stopped anywhere, leaves
   * each machine's snapshots without the `pull_backup_` prefix as they were.
   */
  lemma EveryScheduleSparesOthers(jobs: seq<Job>, w: World, limit: nat, actions: seq<Action>)
    requires Schedule(jobs, Initial(jobs, w, limit), actions)
    ensures SameOthers(After(jobs, Initial(jobs, w, limit), actions).world, w)
  {
    ActionsKeepOthers(jobs, Initial(jobs, w, limit), actions);
  }

  /** One run of `backup_all`: its servers, its pool size and the schedule it happens to take. */
  datatype Night = Night(jobs: seq<Job>, limit: nat, actions: seq<Action>)

  predicate Possible(w: World, nights: seq<Night>)
    decreases |nights|
  {
    nights == [] ||
    (Schedule(nights[0].jobs, Initial(nights[0].jobs, w, nights[0].limit), nights[0].actions) &&
     Possible(After(nights[0].jobs, Initial(nights[0].jobs, w, nights[0].limit), nights[0].actions).world, nights[1..]))
  }

  function AfterNights(w: World, nights: seq<Night>): World
    requires Possible(w, nights)
    decreases |nights|
  {
    if nights == [] then w
    else AfterNights(After(nights[0].jobs, Initial(nights[0].jobs, w, nights[0].limit), nights[0].actions).world,
      nights[1..])
  }

  /** Over any sequence of runs too, each stopped anywhere. */
  lemma {:induction false} ManyRunsSpareOthers(w: World, nights: seq<Night>)
    requires Possible(w, nights)
    ensures SameOthers(AfterNights(w, nights), w)
    decreases |nights|
  {
    if nights != [] {
      var first := nights[0];
      EveryScheduleSparesOthers(first.jobs, w, first.limit, first.actions);
      ManyRunsSpareOthers(After(first.jobs, Initial(first.jobs, w, first.limit), first.actions).world, nights[1..]);
    }
  }
}
