/** A worker run step by step, alone, ends exactly where `BackupServer` does. */
module Refinement {
  import opened Text
  import opened Paths
  import opened Outcomes
  import opened Retention
  import opened Disk
  import opened Models
  import opened Archives
  import opened Snapshots
  import opened Orchestrator
  import opened Worker

  function At(phase: Phase, r: BackupResult, machine: Machine, dirs: Dirs): State {
    State(Progress(phase, r), Site(machine, dirs))
  }

  function Resumed(p: Progress, machine: Machine, dirs: Dirs): State {
    State(p, Site(machine, dirs))
  }

  lemma OneStep(script: Script, s: State)
    requires !s.progress.phase.Finished?
    ensures Finish(script, s) == Finish(script, Step(script, s))
    ensures Step(script, s).site.dirs == Put(s.site.dirs, Place(script, s.progress.phase),
              Move(script, s.progress, s.site.machine, Listing(s.site.dirs, Place(script, s.progress.phase))).folder)
  {
  }

  /** A step that leaves its directory alone leaves the disk alone. */
  lemma StepKeepsDisk(script: Script, s: State)
    requires var place := Place(script, s.progress.phase);
             Move(script, s.progress, s.site.machine, Listing(s.site.dirs, place)).folder == Listing(s.site.dirs, place)
    ensures Step(script, s).site.dirs == s.site.dirs
  {
    PutTwice(s.site.dirs, Place(script, s.progress.phase), map[], map[]);
  }

  // ---------------------------------------------------------------- one family

  lemma WithoutOneThenMore(folder: Folder, todo: seq<string>, n: nat)
    requires 1 <= n <= |todo|
    ensures Without(Without(folder, [todo[0]]), todo[1..][..n - 1]) == Without(folder, todo[..n])
  {
    assert todo[..n] == [todo[0]] + todo[1..][..n - 1];
  }

  function AfterPruning(script: Script, f: Family, todo: seq<string>, r: BackupResult): Progress {
    var n := Unlinked(todo, TaskOf(script, f).stuck);
    var p := Progress(Pruning(f, todo), r);
    if n == |todo| then Conclude(script, p, f) else Abandon(script, p, f, RetentionFault(todo[n]))
  }

  function PrunedDirs(task: Task, todo: seq<string>, dirs: Dirs): Dirs {
    Put(dirs, task.directory, Without(Listing(dirs, task.directory), todo[..Unlinked(todo, task.stuck)]))
  }

  lemma PruningStops(script: Script, f: Family, todo: seq<string>, r: BackupResult, m: Machine, dirs: Dirs)
    requires todo == [] || todo[0] in TaskOf(script, f).stuck
    ensures Step(script, At(Pruning(f, todo), r, m, dirs)) == Resumed(AfterPruning(script, f, todo, r), m, dirs)
    ensures PrunedDirs(TaskOf(script, f), todo, dirs) == dirs
  {
    var folder := Listing(dirs, TaskOf(script, f).directory);
    StepKeepsDisk(script, At(Pruning(f, todo), r, m, dirs));
    PutTwice(dirs, TaskOf(script, f).directory, folder, folder);
    assert Without(folder, todo[..0]) == folder;
  }

  function OneGone(task: Task, name: string, dirs: Dirs): Dirs {
    Put(dirs, task.directory, Without(Listing(dirs, task.directory), [name]))
  }

  lemma PruningContinues(script: Script, f: Family, todo: seq<string>, r: BackupResult, m: Machine, dirs: Dirs)
    requires todo != [] && CanUnlink(TaskOf(script, f), Listing(dirs, TaskOf(script, f).directory), todo[0])
    ensures Step(script, At(Pruning(f, todo), r, m, dirs)) ==
              At(Pruning(f, todo[1..]), r, m, OneGone(TaskOf(script, f), todo[0], dirs))
    ensures AfterPruning(script, f, todo, r) == AfterPruning(script, f, todo[1..], r)
  {
  }

  lemma PrunedDirsInTwo(task: Task, todo: seq<string>, dirs: Dirs)
    requires todo != [] && todo[0] !in task.stuck
    ensures PrunedDirs(task, todo, dirs) == PrunedDirs(task, todo[1..], OneGone(task, todo[0], dirs))
  {
    var folder := Listing(dirs, task.directory);
    ListingAfterPut(dirs, task.directory, Without(folder, [todo[0]]));
    WithoutOneThenMore(folder, todo, Unlinked(todo, task.stuck));
    PutTwice(dirs, task.directory, Without(folder, [todo[0]]), Without(folder, todo[..Unlinked(todo, task.stuck)]));
  }

  /** The files a retention of its own works through: distinct, and still there. */
  ghost predicate Present(folder: Folder, todo: seq<string>) {
    && (forall k :: 0 <= k < |todo| ==> todo[k] in folder && folder[todo[k]].File?)
    && (forall k, l :: 0 <= k < l < |todo| ==> todo[k] != todo[l])
  }

  lemma RestIsPresent(task: Task, todo: seq<string>, dirs: Dirs)
    requires todo != [] && Present(Listing(dirs, task.directory), todo)
    ensures Present(Listing(OneGone(task, todo[0], dirs), task.directory), todo[1..])
  {
    ListingAfterPut(dirs, task.directory, Without(Listing(dirs, task.directory), [todo[0]]));
  }

  lemma DoomedArePresent(folder: Folder, pattern: string, keep: int)
    ensures Present(folder, Doomed(Sorted(Matches(folder, pattern)), keep))
  {
    var names := Sorted(Matches(folder, pattern));
    SortedIsAscending(Matches(folder, pattern));
    forall k | 0 <= k < |names| ensures names[k] in Matches(folder, pattern) {
      assert names[k] in names;
    }
    forall k, l | 0 <= k < l < |names| ensures names[k] != names[l] {
      LessIsTotal(names[k], names[k]);
    }
  }

  lemma {:induction false} PruningRuns(script: Script, f: Family, todo: seq<string>, r: BackupResult, m: Machine,
                                       dirs: Dirs)
    requires Present(Listing(dirs, TaskOf(script, f).directory), todo)
    ensures Finish(script, At(Pruning(f, todo), r, m, dirs)) ==
            Finish(script, Resumed(AfterPruning(script, f, todo, r), m, PrunedDirs(TaskOf(script, f), todo, dirs)))
    decreases |todo|
  {
    OneStep(script, At(Pruning(f, todo), r, m, dirs));
    if todo == [] || todo[0] in TaskOf(script, f).stuck {
      PruningStops(script, f, todo, r, m, dirs);
    } else {
      PruningContinues(script, f, todo, r, m, dirs);
      RestIsPresent(TaskOf(script, f), todo, dirs);
      PruningRuns(script, f, todo[1..], r, m, OneGone(TaskOf(script, f), todo[0], dirs));
      PrunedDirsInTwo(TaskOf(script, f), todo, dirs);
    }
  }

  function AfterFamily(script: Script, f: Family, e: Ended, r: BackupResult): Progress {
    var p := Progress(Looking(f), r);
    if e.result.Raised? then Abandon(script, p, f, e.result.fault) else Conclude(script, p, f)
  }

  lemma LookingRuns(script: Script, f: Family, r: BackupResult, m: Machine, dirs: Dirs)
    ensures var t := TaskOf(script, f);
            var e := PruneIn(dirs, t.directory, t.pattern, t.keep, t.stuck);
            Finish(script, At(Looking(f), r, m, dirs)) ==
              Finish(script, Resumed(AfterFamily(script, f, e, r), m, e.dirs))
  {
    var t := TaskOf(script, f);
    var s := At(Looking(f), r, m, dirs);
    var todo := Doomed(Sorted(Matches(Listing(dirs, t.directory), t.pattern)), t.keep);
    OneStep(script, s);
    StepKeepsDisk(script, s);
    assert Step(script, s) == At(Pruning(f, todo), r, m, dirs);
    DoomedArePresent(Listing(dirs, t.directory), t.pattern, t.keep);
    PruningRuns(script, f, todo, r, m, dirs);
  }

  lemma FamilyRuns(script: Script, f: Family, r: BackupResult, m: Machine, dirs: Dirs)
    requires !f.ZfsStream?
    ensures var e := Archive(TaskOf(script, f), dirs);
            Finish(script, At(Writing(f), r, m, dirs)) ==
              Finish(script, Resumed(AfterFamily(script, f, e, r), m, e.dirs))
  {
    var t := TaskOf(script, f);
    var change := Apply(Listing(dirs, Parent(t.target)), FileName(t.target), t.write);
    var written := Put(dirs, Parent(t.target), change.folder);
    OneStep(script, At(Writing(f), r, m, dirs));
    if change.result.Done? {
      LookingRuns(script, f, r, m, written);
    }
  }

  lemma SelectionsRun(script: Script, r: BackupResult, m: Machine, dirs: Dirs)
    ensures var e := Archive(script.selections, dirs);
            Finish(script, At(Writing(SelectionsDump), r, m, dirs)) ==
              Finish(script, At(if e.result.Raised? then ToZfs(script) else Writing(ListDump), r, m, e.dirs))
  {
    FamilyRuns(script, SelectionsDump, r, m, dirs);
  }

  lemma ListRuns(script: Script, r: BackupResult, m: Machine, dirs: Dirs)
    ensures Finish(script, At(Writing(ListDump), r, m, dirs)) ==
              Finish(script, At(ToZfs(script), r, m, Archive(script.list, dirs).dirs))
  {
    FamilyRuns(script, ListDump, r, m, dirs);
  }

  lemma DumpsRun(script: Script, r: BackupResult, m: Machine, dirs: Dirs)
    ensures var selections := Archive(script.selections, dirs);
            var last := if selections.result.Raised? then selections else Archive(script.list, selections.dirs);
            Finish(script, At(Writing(SelectionsDump), r, m, dirs)) ==
              Finish(script, At(ToZfs(script), r, m, last.dirs))
  {
    var selections := Archive(script.selections, dirs);
    SelectionsRun(script, r, m, dirs);
    if selections.result.Done? {
      ListRuns(script, r, m, selections.dirs);
    }
  }

  /** The three families of the `configs` directory, one after the other. */
  lemma ConfigsRun(script: Script, r: BackupResult, m: Machine, dirs: Dirs)
    ensures var config := Archive(script.config, dirs);
            var selections := Archive(script.selections, config.dirs);
            var last := if selections.result.Raised? then selections else Archive(script.list, selections.dirs);
            var r1 := if config.result.Raised? then ConfigFailed(r, config.result.fault) else r;
            Finish(script, At(Writing(ConfigArchive), r, m, dirs)) ==
              Finish(script, At(ToZfs(script), r1, m, last.dirs))
  {
    var config := Archive(script.config, dirs);
    var r1 := if config.result.Raised? then ConfigFailed(r, config.result.fault) else r;
    FamilyRuns(script, ConfigArchive, r, m, dirs);
    DumpsRun(script, r1, m, config.dirs);
  }

  // ---------------------------------------------------------------- the ZFS part

  lemma {:induction false} SweepingRuns(script: Script, list: seq<Snap>, i: nat, r: BackupResult, m: Machine,
                                        dirs: Dirs)
    ensures var a := Sweep(m, list, script.zfs.sweep, i);
            Finish(script, At(Sweeping(list, i), r, m, dirs)) ==
            Finish(script, if a.status.Unreadable? then At(Finished, ZfsFailed(r, DecodeFault), a.machine, dirs)
                           else At(Creating, r, a.machine, dirs))
    decreases |list| - i
  {
    var s := At(Sweeping(list, i), r, m, dirs);
    OneStep(script, s);
    StepKeepsDisk(script, s);
    if i < |list| {
      var a := Destroy(m, list[i], ReplyAt(script.zfs.sweep, i));
      if a.status.Good? {
        SweepingRuns(script, list, i + 1, r, a.machine, dirs);
      }
    }
  }

  lemma CleanupRuns(script: Script, r: BackupResult, m: Machine, dirs: Dirs)
    ensures var a := Cleanup(m, script.zfs);
            Finish(script, At(ListingStale, r, m, dirs)) ==
            Finish(script, if a.status.Unreadable? then At(Finished, ZfsFailed(r, DecodeFault), a.machine, dirs)
                           else At(Creating, r, a.machine, dirs))
  {
    var s := At(ListingStale, r, m, dirs);
    OneStep(script, s);
    StepKeepsDisk(script, s);
    if script.zfs.list.Answered? && script.zfs.list.code == 0 {
      SweepingRuns(script, Listed(m, script.zfs.order), 0, r, m, dirs);
    }
  }

  /** `StreamAndDestroy` on a script. */
  function Streamed(script: Script, m: Machine, dirs: Dirs): ZfsEnd {
    var written := Written(script.stream, dirs);
    AfterStream(script.stream, script.own, script.zfs.destroy, AsSnapshotError(written.result), m, written.dirs)
  }

  function AfterZfs(e: ZfsEnd, r: BackupResult): State {
    At(Finished, if e.result.Raised? then ZfsFailed(r, e.result.fault) else r, e.machine, e.dirs)
  }

  lemma DestroyingRuns(script: Script, sent: Result<()>, r: BackupResult, m: Machine, dirs: Dirs)
    ensures var destroyed := Destroy(m, script.own, script.zfs.destroy);
            Finish(script, At(Destroying(sent), r, m, dirs)) ==
            if destroyed.status.Unreadable? then At(Finished, ZfsFailed(r, DecodeFault), destroyed.machine, dirs)
            else if sent.Raised? then At(Finished, ZfsFailed(r, sent.fault), destroyed.machine, dirs)
            else Finish(script, At(Looking(ZfsStream), r, destroyed.machine, dirs))
  {
    OneStep(script, At(Destroying(sent), r, m, dirs));
    StepKeepsDisk(script, At(Destroying(sent), r, m, dirs));
  }

  lemma AfterStreamRuns(script: Script, sent: Result<()>, r: BackupResult, m: Machine, dirs: Dirs)
    ensures Finish(script, At(Destroying(sent), r, m, dirs)) ==
            AfterZfs(AfterStream(script.stream, script.own, script.zfs.destroy, sent, m, dirs), r)
  {
    DestroyingRuns(script, sent, r, m, dirs);
    var destroyed := Destroy(m, script.own, script.zfs.destroy);
    if !destroyed.status.Unreadable? && sent.Done? {
      LookingRuns(script, ZfsStream, r, destroyed.machine, dirs);
    }
  }

  lemma StreamMoves(script: Script, r: BackupResult, m: Machine, folder: Folder)
    ensures var change := Apply(folder, FileName(script.stream.target), script.stream.write);
            Move(script, Progress(Writing(ZfsStream), r), m, folder) ==
            Moved(Progress(Destroying(AsSnapshotError(change.result)), r), m, change.folder)
  {
  }

  lemma StepIs(script: Script, s: State, place: Path, moved: Moved)
    requires place == Place(script, s.progress.phase)
    requires moved == Move(script, s.progress, s.site.machine, Listing(s.site.dirs, place))
    ensures Step(script, s) == State(moved.progress, Site(moved.machine, Put(s.site.dirs, place, moved.folder)))
  {
  }

  lemma StreamStep(script: Script, r: BackupResult, m: Machine, dirs: Dirs, change: Change)
    requires change == Apply(Listing(dirs, Parent(script.stream.target)), FileName(script.stream.target),
               script.stream.write)
    ensures Step(script, At(Writing(ZfsStream), r, m, dirs)) ==
            At(Destroying(AsSnapshotError(change.result)), r, m, Put(dirs, Parent(script.stream.target), change.folder))
  {
    StreamMoves(script, r, m, Listing(dirs, Parent(script.stream.target)));
    StepIs(script, At(Writing(ZfsStream), r, m, dirs), Parent(script.stream.target),
      Moved(Progress(Destroying(AsSnapshotError(change.result)), r), m, change.folder));
  }

  lemma StreamRuns(script: Script, r: BackupResult, m: Machine, dirs: Dirs)
    ensures Finish(script, At(Writing(ZfsStream), r, m, dirs)) == AfterZfs(Streamed(script, m, dirs), r)
  {
    var t := script.stream;
    var change := Apply(Listing(dirs, Parent(t.target)), FileName(t.target), t.write);
    OneStep(script, At(Writing(ZfsStream), r, m, dirs));
    StreamStep(script, r, m, dirs, change);
    AfterStreamRuns(script, AsSnapshotError(change.result), r, m, Put(dirs, Parent(t.target), change.folder));
  }

  lemma CreatingRuns(script: Script, r: BackupResult, m: Machine, dirs: Dirs)
    ensures var a := Create(m, script.own, script.zfs.create);
            Finish(script, At(Creating, r, m, dirs)) ==
            match a.status
            case Failed => At(Finished, ZfsFailed(r, SnapshotFault), a.machine, dirs)
            case Unreadable => At(Finished, ZfsFailed(r, DecodeFault), a.machine, dirs)
            case Good => AfterZfs(Streamed(script, a.machine, dirs), r)
  {
    var s := At(Creating, r, m, dirs);
    OneStep(script, s);
    StepKeepsDisk(script, s);
    var a := Create(m, script.own, script.zfs.create);
    if a.status.Good? {
      StreamRuns(script, r, a.machine, dirs);
    }
  }

  // ---------------------------------------------------------------- the whole worker

  lemma ScriptMatchesConfigs(job: Job, dirs: Dirs)
    requires !job.dryRun
    ensures var script := ScriptOf(job);
            var config := Archive(script.config, dirs);
            var selections := Archive(script.selections, config.dirs);
            var last := if selections.result.Raised? then selections else Archive(script.list, selections.dirs);
            ConfigPart(job, dirs) == Ended(last.dirs, config.result)
  {
  }

  lemma ScriptMatchesZfs(job: Job, m: Machine, dirs: Dirs)
    ensures var script := ScriptOf(job);
            && Streamed(script, m, dirs) == StreamAndDestroy(job.server, job.settings, job.oracle.zfs, m, dirs)
            && script.own == OwnSnap(job.server, job.oracle.zfs.at) && script.zfs == job.oracle.zfs
  {
  }

  lemma ZfsRuns(job: Job, r: BackupResult, m: Machine, dirs: Dirs)
    requires !job.dryRun && WantsZfs(job)
    ensures Finish(ScriptOf(job), At(ListingStale, r, m, dirs)) ==
            AfterZfs(BackupZfs(job.server, job.settings, job.oracle.zfs, false, m, dirs), r)
  {
    var script := ScriptOf(job);
    var cleaned := Cleanup(m, job.oracle.zfs);
    CleanupRuns(script, r, m, dirs);
    if !cleaned.status.Unreadable? {
      CreatingRuns(script, r, cleaned.machine, dirs);
      ScriptMatchesZfs(job, Create(cleaned.machine, script.own, script.zfs.create).machine, dirs);
    }
  }

  lemma ToZfsRuns(job: Job, r: BackupResult, m: Machine, dirs: Dirs)
    ensures Finish(ScriptOf(job), At(ToZfs(ScriptOf(job)), r, m, dirs)) == AfterZfs(Zfsed(job, m, dirs), r)
  {
    if WantsZfs(job) && !job.dryRun {
      ZfsRuns(job, r, m, dirs);
    }
  }

  lemma StartRuns(job: Job, site: Site, config: Ended)
    requires !job.settingsBroken && config == Configured(job, site.dirs)
    ensures Finish(ScriptOf(job), State(Start(job), site)) ==
            Finish(ScriptOf(job), At(ToZfs(ScriptOf(job)), Verdict(job.server, config.result, Done(())), site.machine,
              config.dirs))
  {
    if WantsConfig(job) && !job.dryRun {
      ConfigsRun(ScriptOf(job), FreshResult(job.server), site.machine, site.dirs);
      ScriptMatchesConfigs(job, site.dirs);
    }
  }

  lemma VerdictInTwo(s: ServerConfig, config: Result<()>, e: ZfsEnd)
    ensures AfterZfs(e, Verdict(s, config, Done(()))) == At(Finished, Verdict(s, config, e.result), e.machine, e.dirs)
  {
  }

  /** Step by step and in one go are the same: the same files, the same snapshots, the same result. */
  lemma WorkerRefinesBackupServer(job: Job, site: Site)
    ensures var end := BackupServer(job, site);
            Finish(ScriptOf(job), State(Start(job), site)) ==
              State(Progress(Finished, Collected(job, end.result)), end.site)
  {
    if !job.settingsBroken {
      var config := Configured(job, site.dirs);
      StartRuns(job, site, config);
      ToZfsRuns(job, Verdict(job.server, config.result, Done(())), site.machine, config.dirs);
      VerdictInTwo(job.server, config.result, Zfsed(job, site.machine, config.dirs));
    }
  }
}
