/**
 * One worker of the thread pool as a sequence of atomic steps: each step is one remote command, one
 * file write, one directory listing or one unlink. Run alone, the steps add up to `BackupServer`.
 */
module Worker {
  import opened Names
  import opened Paths
  import opened Outcomes
  import opened Retention
  import opened Disk
  import opened Models
  import opened Archives
  import opened Snapshots
  import opened Orchestrator

  datatype Family = ConfigArchive | SelectionsDump | ListDump | ZfsStream

  datatype Phase =
    | Writing(family: Family)
    | Looking(family: Family)
    | Pruning(family: Family, todo: seq<string>)
    | ListingStale
    | Sweeping(list: seq<Snap>, next: nat)
    | Creating
    | Destroying(sent: Result<()>)
    | Finished

  datatype Progress = Progress(phase: Phase, result: BackupResult)

  /** All that a worker needs of its job. */
  datatype Script = Script(
    config: Task, selections: Task, list: Task, stream: Task,
    own: Snap, zfs: ZfsOracle, doesConfig: bool, doesZfs: bool)

  function TaskOf(script: Script, f: Family): Task {
    match f
    case ConfigArchive => script.config
    case SelectionsDump => script.selections
    case ListDump => script.list
    case ZfsStream => script.stream
  }

  function ScriptOf(job: Job): Script {
    var s, st, o := job.server, job.settings, job.oracle;
    Script(
      ConfigTask(s, st, o.configs),
      DumpTask(s, st, o.configs.packagesAt, SELECTIONS, o.configs.selections, o.configs.selectionsStuck),
      DumpTask(s, st, o.configs.packagesAt, LIST, o.configs.list, o.configs.listStuck),
      StreamTask(s, st, o.zfs),
      OwnSnap(s, o.zfs.at), o.zfs, WantsConfig(job) && !job.dryRun, WantsZfs(job) && !job.dryRun)
  }

  /** Where a worker goes when the `configs` part is over. */
  function ToZfs(script: Script): Phase {
    if script.doesZfs then ListingStale else Finished
  }

  function Start(job: Job): Progress {
    if job.settingsBroken then Progress(Finished, Collected(job, Raised(SettingsFault)))
    else
      var script := ScriptOf(job);
      Progress(if script.doesConfig then Writing(ConfigArchive) else ToZfs(script), FreshResult(job.server))
  }

  function Abandon(script: Script, p: Progress, f: Family, fault: Fault): Progress {
    match f
    case ConfigArchive => Progress(Writing(SelectionsDump), ConfigFailed(p.result, fault))
    case SelectionsDump => Progress(ToZfs(script), p.result)
    case ListDump => Progress(ToZfs(script), p.result)
    case ZfsStream => Progress(Finished, ZfsFailed(p.result, fault))
  }

  function Conclude(script: Script, p: Progress, f: Family): Progress {
    match f
    case ConfigArchive => Progress(Writing(SelectionsDump), p.result)
    case SelectionsDump => Progress(Writing(ListDump), p.result)
    case ListDump => Progress(ToZfs(script), p.result)
    case ZfsStream => Progress(Finished, p.result)
  }

  /** The one directory a step reads or writes, if any. */
  function Place(script: Script, phase: Phase): Path {
    match phase
    case Writing(f) => Parent(TaskOf(script, f).target)
    case Looking(f) => TaskOf(script, f).directory
    case Pruning(f, _) => TaskOf(script, f).directory
    case _ => script.stream.directory
  }

  /** A listed file can be unlinked unless that raises anyway or another worker has removed it since. */
  predicate CanUnlink(task: Task, folder: Folder, name: string) {
    name !in task.stuck && name in folder && folder[name].File?
  }

  datatype Moved = Moved(progress: Progress, machine: Machine, folder: Folder)

  /** One atomic step, on the machine and on that one directory. */
  function Move(script: Script, p: Progress, m: Machine, folder: Folder): Moved {
    var zfs := script.zfs;
    match p.phase
    case Writing(f) =>
      var change := Apply(folder, FileName(TaskOf(script, f).target), TaskOf(script, f).write);
      Moved(if f.ZfsStream? then p.(phase := Destroying(AsSnapshotError(change.result)))
            else if change.result.Raised? then Abandon(script, p, f, change.result.fault)
            else p.(phase := Looking(f)),
            m, change.folder)
    case Looking(f) =>
      Moved(p.(phase := Pruning(f, Doomed(Sorted(Matches(folder, TaskOf(script, f).pattern)),
        TaskOf(script, f).keep))), m, folder)
    case Pruning(f, todo) =>
      if todo == [] then Moved(Conclude(script, p, f), m, folder)
      else if CanUnlink(TaskOf(script, f), folder, todo[0]) then
        Moved(p.(phase := Pruning(f, todo[1..])), m, Without(folder, [todo[0]]))
      else Moved(Abandon(script, p, f, RetentionFault(todo[0])), m, folder)
    case ListingStale =>
      Moved(if zfs.list.Garbled? then Progress(Finished, ZfsFailed(p.result, DecodeFault))
            else if zfs.list.NoAnswer? || zfs.list.code != 0 then p.(phase := Creating)
            else p.(phase := Sweeping(Listed(m, zfs.order), 0)),
            m, folder)
    case Sweeping(list, i) =>
      if i >= |list| then Moved(p.(phase := Creating), m, folder)
      else
        var a := Destroy(m, list[i], ReplyAt(zfs.sweep, i));
        Moved(match a.status
              case Good => p.(phase := Sweeping(list, i + 1))
              case Failed => p.(phase := Creating)
              case Unreadable => Progress(Finished, ZfsFailed(p.result, DecodeFault)),
              a.machine, folder)
    case Creating =>
      var a := Create(m, script.own, zfs.create);
      Moved(match a.status
            case Good => p.(phase := Writing(ZfsStream))
            case Failed => Progress(Finished, ZfsFailed(p.result, SnapshotFault))
            case Unreadable => Progress(Finished, ZfsFailed(p.result, DecodeFault)),
            a.machine, folder)
    case Destroying(sent) =>
      var a := Destroy(m, script.own, zfs.destroy);
      Moved(if a.status.Unreadable? then Progress(Finished, ZfsFailed(p.result, DecodeFault))
            else if sent.Raised? then Progress(Finished, ZfsFailed(p.result, sent.fault))
            else p.(phase := Looking(ZfsStream)),
            a.machine, folder)
    case Finished => Moved(p, m, folder)
  }

  /** Which type a phase belongs to. */
  predicate ConfigPhase(phase: Phase) {
    (phase.Writing? || phase.Looking? || phase.Pruning?) && !phase.family.ZfsStream?
  }

  predicate ZfsPhase(phase: Phase) {
    !phase.Finished? && !ConfigPhase(phase)
  }

  /** A worker without snapshots to take never gets to a phase that uses the machine. */
  predicate OnTrack(script: Script, p: Progress) {
    ZfsPhase(p.phase) ==> script.doesZfs
  }

  lemma StartIsOnTrack(job: Job)
    ensures OnTrack(ScriptOf(job), Start(job))
  {
  }

  lemma MoveStaysOnTrack(script: Script, p: Progress, m: Machine, folder: Folder)
    requires OnTrack(script, p)
    ensures OnTrack(script, Move(script, p, m, folder).progress)
  {
    match p.phase
    case Writing(_) =>
    case Looking(_) =>
    case Pruning(_, _) =>
    case ListingStale =>
    case Sweeping(_, _) =>
    case Creating =>
    case Destroying(_) =>
    case Finished =>
  }

  /** Outside the ZFS phases a step neither looks at the machine nor changes it. */
  lemma MoveIgnoresMachine(script: Script, p: Progress, m: Machine, other: Machine, folder: Folder)
    requires !ZfsPhase(p.phase)
    ensures Move(script, p, m, folder).machine == m
    ensures Move(script, p, other, folder) == Move(script, p, m, folder).(machine := other)
  {
  }

  datatype State = State(progress: Progress, site: Site)

  function Step(script: Script, s: State): State {
    var place := Place(script, s.progress.phase);
    var moved := Move(script, s.progress, s.site.machine, Listing(s.site.dirs, place));
    State(moved.progress, Site(moved.machine, Put(s.site.dirs, place, moved.folder)))
  }

  // ---------------------------------------------------------------- running alone

  function FamilyRank(f: Family): nat {
    match f case ConfigArchive => 18 case SelectionsDump => 14 case ListDump => 10 case ZfsStream => 2
  }

  function Rank(phase: Phase): nat {
    match phase
    case Writing(f) => FamilyRank(f) + (if f.ZfsStream? then 3 else 2)
    case Looking(f) => FamilyRank(f) + 1
    case Pruning(f, _) => FamilyRank(f)
    case ListingStale => 8
    case Sweeping(_, _) => 7
    case Creating => 6
    case Destroying(_) => 4
    case Finished => 0
  }

  function Length(phase: Phase): nat {
    match phase
    case Pruning(_, todo) => |todo|
    case Sweeping(list, i) => if i < |list| then |list| - i else 0
    case _ => 0
  }

  predicate Smaller(next: Phase, phase: Phase) {
    Rank(next) < Rank(phase) || (Rank(next) == Rank(phase) && Length(next) < Length(phase))
  }

  lemma MoveDecreases(script: Script, p: Progress, m: Machine, folder: Folder)
    requires !p.phase.Finished?
    ensures Smaller(Move(script, p, m, folder).progress.phase, p.phase)
  {
    match p.phase
    case Writing(_) =>
    case Looking(_) =>
    case Pruning(_, _) =>
    case ListingStale =>
    case Sweeping(_, _) =>
    case Creating =>
    case Destroying(_) =>
  }

  /** Every step makes progress, so a worker always finishes. */
  lemma StepDecreases(script: Script, s: State)
    requires !s.progress.phase.Finished?
    ensures Smaller(Step(script, s).progress.phase, s.progress.phase)
  {
    MoveDecreases(script, s.progress, s.site.machine, Listing(s.site.dirs, Place(script, s.progress.phase)));
  }

  function Finish(script: Script, s: State): (end: State)
    ensures end.progress.phase.Finished?
    decreases Rank(s.progress.phase), Length(s.progress.phase)
  {
    if s.progress.phase.Finished? then s
    else
      StepDecreases(script, s);
      Finish(script, Step(script, s))
  }

  function StepsLeft(script: Script, s: State): nat
    decreases Rank(s.progress.phase), Length(s.progress.phase)
  {
    if s.progress.phase.Finished? then 0
    else
      StepDecreases(script, s);
      1 + StepsLeft(script, Step(script, s))
  }
}
