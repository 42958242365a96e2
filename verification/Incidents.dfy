/**
 * What a run reports is what happened in it: over every schedule of every set of servers, a result
 * has errors exactly when one of that worker's own steps let an exception out of `backup_config` or
 * `backup_zfs`, or its settings did.
 */
module Incidents {
  import opened Outcomes
  import opened Retention
  import opened Disk
  import opened Snapshots
  import opened Orchestrator
  import opened Worker
  import opened Pool
  import opened Paths

  // ---------------------------------------------------------------- one worker

  /** Does this step let an exception out of `backup_config` or `backup_zfs`? */
  predicate Raises(script: Script, p: Progress, m: Machine, folder: Folder) {
    match p.phase
    case Writing(f) =>
      f.ConfigArchive? && Apply(folder, FileName(script.config.target), script.config.write).result.Raised?
    case Pruning(f, todo) =>
      (f.ConfigArchive? || f.ZfsStream?) && todo != [] && !CanUnlink(TaskOf(script, f), folder, todo[0])
    case ListingStale => script.zfs.list.Garbled?
    case Sweeping(list, i) => i < |list| && Destroy(m, list[i], ReplyAt(script.zfs.sweep, i)).status.Unreadable?
    case Creating => !Create(m, script.own, script.zfs.create).status.Good?
    case Destroying(sent) => sent.Raised? || Destroy(m, script.own, script.zfs.destroy).status.Unreadable?
    case Looking(_) => false
    case Finished => false
  }

  predicate DumpPhase(phase: Phase) {
    (phase.Writing? || phase.Looking? || phase.Pruning?) && (phase.family.SelectionsDump? || phase.family.ListDump?)
  }

  /** Whatever happens while a package list is written or pruned, it neither counts nor leaves a mark on the result. */
  lemma DumpsNeverCount(script: Script, p: Progress, m: Machine, folder: Folder)
    requires DumpPhase(p.phase)
    ensures !Raises(script, p, m, folder) && Move(script, p, m, folder).progress.result == p.result
  {
  }

  /**
   * A worker works on wanted types only, its skip flags are the server's, and its result has errors exactly if
   * something counted.
   */
  ghost predicate Coherent(job: Job, p: Progress, raised: bool) {
    && p.result.server == job.server.name
    && (p.result.HasErrors() <==> raised)
    && (job.settingsBroken ==> p == Progress(Finished, Collected(job, Raised(SettingsFault))))
    && (!job.settingsBroken ==>
        && p.result.configSkipped == !job.server.backupConfigfiles
        && p.result.zfsSkipped == !job.server.backupSnapshot
        && (ConfigPhase(p.phase) ==> WantsConfig(job))
        && (ZfsPhase(p.phase) ==> WantsZfs(job)))
  }

  lemma StartIsCoherent(job: Job)
    ensures Coherent(job, Start(job), job.settingsBroken)
  {
  }

  lemma FileMoveIsCoherent(job: Job, script: Script, p: Progress, raised: bool, m: Machine, folder: Folder)
    requires Coherent(job, p, raised) && !p.phase.Finished? && (script.doesZfs ==> WantsZfs(job))
    requires p.phase.Writing? || p.phase.Looking? || p.phase.Pruning?
    ensures Coherent(job, Move(script, p, m, folder).progress, raised || Raises(script, p, m, folder))
  {
    match p.phase
    case Writing(f) =>
    case Looking(f) =>
    case Pruning(f, todo) =>
  }

  lemma MoveIsCoherent(job: Job, script: Script, p: Progress, raised: bool, m: Machine, folder: Folder)
    requires Coherent(job, p, raised) && !p.phase.Finished? && (script.doesZfs ==> WantsZfs(job))
    ensures Coherent(job, Move(script, p, m, folder).progress, raised || Raises(script, p, m, folder))
  {
    match p.phase
    case ListingStale =>
    case Sweeping(list, i) =>
    case Creating =>
    case Destroying(sent) =>
    case _ => FileMoveIsCoherent(job, script, p, raised, m, folder);
  }

  // ---------------------------------------------------------------- all workers

  predicate RaisesNow(jobs: seq<Job>, p: Pool, i: nat)
    requires Enabled(jobs, p, Work(i))
  {
    var script := ScriptOf(jobs[i]);
    var s := StateOf(jobs, p, i);
    Raises(script, s.progress, s.site.machine, Listing(s.site.dirs, Place(script, s.progress.phase)))
  }

  /** Did a step of worker `i` raise during these actions? */
  predicate RaisedDuring(jobs: seq<Job>, p: Pool, actions: seq<Action>, i: nat)
    requires Schedule(jobs, p, actions)
    decreases |actions|
  {
    actions != [] &&
    ((actions[0] == Work(i) && RaisesNow(jobs, p, i)) || RaisedDuring(jobs, Act(jobs, p, actions[0]), actions[1..], i))
  }

  lemma WorkIsCoherent(jobs: seq<Job>, p: Pool, i: nat, raised: bool)
    requires Enabled(jobs, p, Work(i)) && Coherent(jobs[i], p.progress[i], raised)
    ensures Coherent(jobs[i], Act(jobs, p, Work(i)).progress[i], raised || RaisesNow(jobs, p, i))
  {
    var script := ScriptOf(jobs[i]);
    var s := StateOf(jobs, p, i);
    MoveIsCoherent(jobs[i], script, p.progress[i], raised, s.site.machine,
      Listing(s.site.dirs, Place(script, s.progress.phase)));
  }

  lemma ActIsCoherent(jobs: seq<Job>, p: Pool, a: Action, i: nat, raised: bool)
    requires Enabled(jobs, p, a) && |p.progress| == |jobs| && i < |jobs|
    requires Coherent(jobs[i], p.progress[i], raised)
    ensures |Act(jobs, p, a).progress| == |jobs|
    ensures Coherent(jobs[i], Act(jobs, p, a).progress[i], raised || (a == Work(i) && RaisesNow(jobs, p, i)))
  {
    if a == Work(i) {
      WorkIsCoherent(jobs, p, i, raised);
    }
  }

  /** What worker `i` reports follows its own steps through any schedule, whoever else changes the world in between. */
  lemma {:induction false} ScheduleIsCoherent(jobs: seq<Job>, p: Pool, actions: seq<Action>, i: nat, raised: bool)
    requires Schedule(jobs, p, actions) && |p.progress| == |jobs| && i < |jobs|
    requires Coherent(jobs[i], p.progress[i], raised)
    ensures |After(jobs, p, actions).progress| == |jobs|
    ensures Coherent(jobs[i], After(jobs, p, actions).progress[i], raised || RaisedDuring(jobs, p, actions, i))
    decreases |actions|
  {
    if actions != [] {
      var now := actions[0] == Work(i) && RaisesNow(jobs, p, i);
      ActIsCoherent(jobs, p, actions[0], i, raised);
      ScheduleIsCoherent(jobs, Act(jobs, p, actions[0]), actions[1..], i, raised || now);
    }
  }

  predicate RaisedIn(jobs: seq<Job>, w: World, limit: nat, actions: seq<Action>, i: nat)
    requires Schedule(jobs, Initial(jobs, w, limit), actions)
  {
    RaisedDuring(jobs, Initial(jobs, w, limit), actions, i)
  }

  /** Something that counts went wrong with server `i` in this run. */
  predicate WentWrong(jobs: seq<Job>, w: World, limit: nat, actions: seq<Action>, i: nat)
    requires Schedule(jobs, Initial(jobs, w, limit), actions) && i < |jobs|
  {
    jobs[i].settingsBroken || RaisedIn(jobs, w, limit, actions, i)
  }

  /**
   * At any point of any run a worker's result has errors exactly when something that counts went wrong with it
   * so far.
   */
  lemma ErrorsAreIncidents(jobs: seq<Job>, w: World, limit: nat, actions: seq<Action>, i: nat)
    requires Schedule(jobs, Initial(jobs, w, limit), actions) && i < |jobs|
    ensures var p := After(jobs, Initial(jobs, w, limit), actions);
            |p.progress| == |jobs| && Coherent(jobs[i], p.progress[i], WentWrong(jobs, w, limit, actions, i))
  {
    StartIsCoherent(jobs[i]);
    ScheduleIsCoherent(jobs, Initial(jobs, w, limit), actions, i, jobs[i].settingsBroken);
  }
}
