/**
 * What a run reports: the subject of the summary mail (domain/behaviors.py) and the exit code of
 * `cli_backup`, and how both follow from what happened to each server.
 */
module Reporting {
  import opened Names
  import opened Paths
  import opened Outcomes
  import opened Retention
  import opened Disk
  import opened Models
  import opened Archives
  import opened Snapshots
  import opened Lifecycle
  import opened Orchestrator

  const OK_SUBJECT := "[OK] Proxmox Backup Summary"
  const ERROR_SUBJECT := "[ERROR] Proxmox Backup Summary"
  const WARNING_SUBJECT := "[WARNING] Proxmox Backup Summary"

  function BuildSummarySubject(summary: BackupSummary): string {
    if summary.AllOk() then OK_SUBJECT
    else if |summary.FailedServers()| == |summary.results| then ERROR_SUBJECT
    else WARNING_SUBJECT
  }

  lemma SubjectsDiffer()
    ensures OK_SUBJECT != ERROR_SUBJECT && OK_SUBJECT != WARNING_SUBJECT && ERROR_SUBJECT != WARNING_SUBJECT
  {
    assert OK_SUBJECT[1] == 'O' && ERROR_SUBJECT[1] == 'E' && WARNING_SUBJECT[1] == 'W';
  }

  lemma OkMeansAllOk(summary: BackupSummary)
    ensures BuildSummarySubject(summary) == OK_SUBJECT <==> summary.AllOk()
  {
    SubjectsDiffer();
  }

  // ---------------------------------------------------------------- the command

  const GENERAL_ERROR := 1
  const INVALID_ARGUMENT := 22

  /** `--server NAME`; an empty name does not filter. */
  datatype Filter = Everyone | Only(name: string)

  predicate Filters(filter: Filter) {
    filter.Only? && filter.name != ""
  }

  function Named(servers: seq<ServerConfig>, name: string): seq<ServerConfig> {
    if servers == [] then []
    else (if servers[0].name == name then [servers[0]] else []) + Named(servers[1..], name)
  }

  ghost predicate Increasing(places: seq<nat>) {
    forall k, l :: 0 <= k < l < |places| ==> places[k] < places[l]
  }

  ghost predicate ReadOff(servers: seq<ServerConfig>, chosen: seq<ServerConfig>, places: seq<nat>) {
    |places| == |chosen| && forall k :: 0 <= k < |places| ==> places[k] < |servers| && chosen[k] == servers[places[k]]
  }

  ghost predicate PlacesOf(servers: seq<ServerConfig>, name: string, places: seq<nat>) {
    forall i :: 0 <= i < |servers| ==> (i in places <==> servers[i].name == name)
  }

  /** `chosen` are the servers of that name, each as often as it is configured and in that order: those at `places`. */
  ghost predicate PickedByName(servers: seq<ServerConfig>, name: string, chosen: seq<ServerConfig>, places: seq<nat>) {
    ReadOff(servers, chosen, places) && Increasing(places) && PlacesOf(servers, name, places)
  }

  function Shifted(places: seq<nat>): (r: seq<nat>)
    ensures |r| == |places| && forall k :: 0 <= k < |r| ==> r[k] == places[k] + 1
  {
    seq(|places|, k requires 0 <= k < |places| => places[k] + 1)
  }

  lemma InShifted(places: seq<nat>, i: nat)
    ensures i + 1 in Shifted(places) <==> i in places
    ensures 0 !in Shifted(places)
  {
    if k :| 0 <= k < |places| && places[k] == i {
      assert Shifted(places)[k] == i + 1;
    }
  }

  lemma ShiftedReadsOff(servers: seq<ServerConfig>, rest: seq<ServerConfig>, later: seq<nat>)
    requires servers != [] && ReadOff(servers[1..], rest, later)
    ensures ReadOff(servers, rest, Shifted(later))
    ensures ReadOff(servers, [servers[0]] + rest, [0] + Shifted(later))
  {
    forall k | 0 <= k < |later| ensures Shifted(later)[k] < |servers| && rest[k] == servers[Shifted(later)[k]] {
      assert rest[k] == servers[1..][later[k]];
    }
  }

  lemma ShiftedIncreases(later: seq<nat>)
    requires Increasing(later)
    ensures Increasing(Shifted(later)) && Increasing([0] + Shifted(later))
  {
  }

  lemma ShiftedPlaces(servers: seq<ServerConfig>, name: string, later: seq<nat>)
    requires servers != [] && PlacesOf(servers[1..], name, later)
    ensures PlacesOf(servers, name, (if servers[0].name == name then [0] else []) + Shifted(later))
  {
    var first: seq<nat> := if servers[0].name == name then [0] else [];
    forall i | 0 <= i < |servers| ensures i in first + Shifted(later) <==> servers[i].name == name {
      assert i in first + Shifted(later) <==> i in first || i in Shifted(later);
      InShifted(later, if i > 0 then i - 1 else 0);
      if i > 0 {
        assert servers[i] == servers[1..][i - 1];
      }
    }
  }

  lemma PickedFromRest(servers: seq<ServerConfig>, name: string, rest: seq<ServerConfig>, later: seq<nat>)
    requires servers != [] && PickedByName(servers[1..], name, rest, later)
    ensures PickedByName(servers, name, (if servers[0].name == name then [servers[0]] else []) + rest,
              (if servers[0].name == name then [0] else []) + Shifted(later))
  {
    ShiftedReadsOff(servers, rest, later);
    ShiftedIncreases(later);
    ShiftedPlaces(servers, name, later);
    assert [] + rest == rest && [] + Shifted(later) == Shifted(later);
  }

  /** Filtering by name keeps exactly the servers of that name. */
  lemma {:induction false} NamedPicks(servers: seq<ServerConfig>, name: string) returns (places: seq<nat>)
    ensures PickedByName(servers, name, Named(servers, name), places)
  {
    places := [];
    if servers != [] {
      var later := NamedPicks(servers[1..], name);
      var rest := Named(servers[1..], name);
      PickedFromRest(servers, name, rest, later);
      places := (if servers[0].name == name then [0] else []) + Shifted(later);
    }
  }

  /** Which servers the command hands to the pool: all that are configured, or with `--server` those of that name. */
  ghost predicate Handed(servers: seq<ServerConfig>, filter: Filter, chosen: seq<ServerConfig>) {
    match filter
    case Only(name) =>
      if name == "" then chosen == servers else exists places :: PickedByName(servers, name, chosen, places)
    case Everyone => chosen == servers
  }

  function Chosen(servers: seq<ServerConfig>, filter: Filter): seq<ServerConfig> {
    if Filters(filter) then Named(servers, filter.name) else servers
  }

  /** What a configured number that is not one raises, or the executor for a pool of no workers. */
  datatype Failure = ValueFailure | OtherFailure

  /** `extract_backup_settings`, which the command calls once for the whole run. */
  datatype Reading = Settings(settings: BackupSettings) | Broken(failure: Failure)

  /** The command exits with a code, or lets an exception out. */
  datatype Ending = Exits(code: int) | Escapes(failure: Failure)

  /** Does the command get as far as starting workers? */
  predicate Starts(configured: seq<ServerConfig>, filter: Filter, reading: Reading) {
    Chosen(configured, filter) != [] && reading.Settings? && reading.settings.maxParallel >= 1
  }

  /** How `cli_backup` ends; `summary` is that of the run, if there is one. */
  function CommandEnd(configured: seq<ServerConfig>, filter: Filter, reading: Reading, summary: BackupSummary): Ending {
    if configured == [] then Exits(GENERAL_ERROR)
    else if Chosen(configured, filter) == [] then Exits(INVALID_ARGUMENT)
    else if reading.Broken? then Escapes(reading.failure)
    else if reading.settings.maxParallel <= 0 then Escapes(ValueFailure)
    else if summary.AllOk() then Exits(0)
    else Exits(GENERAL_ERROR)
  }

  /** The exit status of the process: an exception is translated to the code the platform has for it. */
  function Status(end: Ending, codeOf: Failure -> int): int {
    match end
    case Exits(code) => code
    case Escapes(failure) => codeOf(failure)
  }

  lemma ChosenAreHanded(servers: seq<ServerConfig>, filter: Filter)
    ensures Handed(servers, filter, Chosen(servers, filter))
  {
    if Filters(filter) {
      var places := NamedPicks(servers, filter.name);
    }
  }

  lemma {:induction false} NamedIsEmptyIff(servers: seq<ServerConfig>, name: string)
    ensures Named(servers, name) == [] <==> forall k :: 0 <= k < |servers| ==> servers[k].name != name
  {
    if servers != [] {
      NamedIsEmptyIff(servers[1..], name);
      if Named(servers, name) == [] {
        assert servers[0].name != name;
        forall k | 0 <= k < |servers| ensures servers[k].name != name {
          if k > 0 { assert servers[k] == servers[1..][k - 1]; }
        }
      }
    }
  }

  /** How the command ends, by what it was given and what its workers reported. */
  ghost predicate EndsAs(configured: seq<ServerConfig>, filter: Filter, summary: Option<BackupSummary>,
                         reading: Reading, end: Ending)
  {
    && (end == Exits(22) <==>
        && configured != [] && filter.Only? && filter.name != ""
        && forall k :: 0 <= k < |configured| ==> configured[k].name != filter.name)
    && (summary.Some? <==>
        configured != [] && end != Exits(22) && reading.Settings? && reading.settings.maxParallel >= 1)
    && (end == Exits(0) <==>
        summary.Some? && forall k :: 0 <= k < |summary.value.results| ==> !summary.value.results[k].HasErrors())
    && (end == Exits(1) <==> configured == [] || (summary.Some? && end != Exits(0)))
    && (end.Escapes? ==> end.failure == if reading.Broken? then reading.failure else ValueFailure)
  }

  lemma CommandEndsAs(configured: seq<ServerConfig>, filter: Filter, reading: Reading, summary: Option<BackupSummary>)
    ensures (summary.Some? <==> Starts(configured, filter, reading)) ==>
              EndsAs(configured, filter, summary, reading,
                     CommandEnd(configured, filter, reading,
                                if summary.Some? then summary.value else BackupSummary([])))
  {
    if filter.Only? {
      NamedIsEmptyIff(configured, filter.name);
    }
  }

  /**
   * `cli_backup` after the configuration is read; `workers` is what the pool of `backup_all` makes of
   * the chosen servers. There is a summary, and so a mail, exactly when workers start.
   */
  method CliBackup(configured: seq<ServerConfig>, filter: Filter, reading: Reading,
                   workers: (seq<ServerConfig>, BackupSettings) -> BackupSummary)
    returns (end: Ending, summary: Option<BackupSummary>)
    ensures summary.Some? <==> Starts(configured, filter, reading)
    ensures summary.Some? ==> exists chosen ::
              Handed(configured, filter, chosen) && chosen != [] && summary.value == workers(chosen, reading.settings)
    ensures end == CommandEnd(configured, filter, reading, if summary.Some? then summary.value else BackupSummary([]))
    ensures EndsAs(configured, filter, summary, reading, end)
  {
    ChosenAreHanded(configured, filter);
    CommandEndsAs(configured, filter, reading, None);
    summary := None;
    var servers := configured;
    if |servers| == 0 {
      return Exits(GENERAL_ERROR), summary;
    }
    if filter.Only? && filter.name != "" {
      servers := Named(servers, filter.name);
      if |servers| == 0 {
        return Exits(INVALID_ARGUMENT), summary;
      }
    }
    if reading.Broken? {
      return Escapes(reading.failure), summary;
    }
    if reading.settings.maxParallel <= 0 {
      return Escapes(ValueFailure), summary;
    }
    summary := Some(workers(servers, reading.settings));
    CommandEndsAs(configured, filter, reading, summary);
    if !summary.value.AllOk() {
      return Exits(GENERAL_ERROR), summary;
    }
    return Exits(0), summary;
  }

  /**
   * Where a ValueError ends the process with 22, that status means one of three things: `--server`
   * names none that is configured, a setting is not a number, or the pool would have no workers.
   * Where no exception ends it with 0, that status means that workers ran and the subject is `[OK]`.
   */
  lemma StatusSays(configured: seq<ServerConfig>, filter: Filter, reading: Reading, summary: BackupSummary,
                   codeOf: Failure -> int)
    requires codeOf(ValueFailure) == INVALID_ARGUMENT && codeOf(OtherFailure) != 0
    ensures var status := Status(CommandEnd(configured, filter, reading, summary), codeOf);
            && (status == INVALID_ARGUMENT <==>
                configured != [] &&
                (|| (Filters(filter) && forall k :: 0 <= k < |configured| ==> configured[k].name != filter.name)
                 || (Chosen(configured, filter) != [] && reading.Broken? && codeOf(reading.failure) == INVALID_ARGUMENT)
                 || (Chosen(configured, filter) != [] && reading.Settings? && reading.settings.maxParallel <= 0)))
            && (status == 0 <==> Starts(configured, filter, reading) && BuildSummarySubject(summary) == OK_SUBJECT)
  {
    OkMeansAllOk(summary);
    if reading.Broken? {
      match reading.failure
      case ValueFailure =>
      case OtherFailure =>
    }
    if Filters(filter) {
      NamedIsEmptyIff(configured, filter.name);
    }
  }

  // ---------------------------------------------------------------- failed servers

  /** `failed_servers` has each result with errors as often as it is there, and no other. */
  lemma {:induction false} FailedAre(results: seq<BackupResult>, r: BackupResult)
    ensures multiset(Models.Failed(results))[r] == if r.HasErrors() then multiset(results)[r] else 0
  {
    if results != [] {
      FailedAre(results[1..], r);
      assert results == [results[0]] + results[1..];
    }
  }

  lemma {:induction false} FailedCounts(results: seq<BackupResult>)
    ensures |Models.Failed(results)| <= |results|
    ensures |Models.Failed(results)| == |results| <==> forall k :: 0 <= k < |results| ==> results[k].HasErrors()
    ensures Models.Failed(results) == [] <==> forall k :: 0 <= k < |results| ==> !results[k].HasErrors()
  {
    if results != [] {
      var rest := results[1..];
      FailedCounts(rest);
      assert forall k :: 0 < k < |results| ==> results[k] == rest[k - 1];
      assert forall k :: 0 <= k < |rest| ==> rest[k] == results[k + 1];
    }
  }

  /** The subject says exactly whether none, some or all of the servers failed. */
  lemma SubjectSays(summary: BackupSummary)
    ensures BuildSummarySubject(summary) == OK_SUBJECT <==>
            forall k :: 0 <= k < |summary.results| ==> !summary.results[k].HasErrors()
    ensures BuildSummarySubject(summary) == ERROR_SUBJECT <==>
            summary.results != [] && forall k :: 0 <= k < |summary.results| ==> summary.results[k].HasErrors()
    ensures BuildSummarySubject(summary) == WARNING_SUBJECT <==>
            && (exists k :: 0 <= k < |summary.results| && summary.results[k].HasErrors())
            && (exists k :: 0 <= k < |summary.results| && !summary.results[k].HasErrors())
    ensures BuildSummarySubject(summary) == OK_SUBJECT <==> summary.FailedServers() == []
  {
    SubjectsDiffer();
    FailedCounts(summary.results);
  }

  // ---------------------------------------------------------------- one server

  /** Something that counts went wrong: the settings, the archive or the snapshot; never a package list. */
  predicate Trouble(job: Job, site: Site) {
    || job.settingsBroken
    || (WantsConfig(job) && BackupConfig(job.server, job.settings, job.oracle.configs, job.dryRun,
       site.dirs).result.Raised?)
    || (WantsZfs(job) &&
        BackupZfs(job.server, job.settings, job.oracle.zfs, job.dryRun, site.machine,
                  if WantsConfig(job) then ConfigPart(job, site.dirs).dirs else site.dirs).result.Raised?)
  }

  /** A server's result has errors exactly when something that counts went wrong. */
  lemma ErrorsAreTrouble(job: Job, site: Site)
    ensures Collected(job, BackupServer(job, site).result).HasErrors() <==> Trouble(job, site)
  {
  }

  /** A type counts when it is not skipped: whether a skipped one was done does not matter. */
  lemma SkippedTypesDoNotCount(r: BackupResult, done: bool)
    ensures r.configSkipped ==> r.(configOk := done).HasErrors() == r.HasErrors()
    ensures r.zfsSkipped ==> r.(zfsOk := done).HasErrors() == r.HasErrors()
    ensures !r.configSkipped ==> r.(configOk := false).HasErrors()
    ensures !r.zfsSkipped ==> r.(zfsOk := false).HasErrors()
    ensures !r.(configOk := true, zfsOk := true).HasErrors()
  {
  }

  /** A type that `--type` leaves out is reported as done, not as skipped, whenever the server has it enabled. */
  lemma FilteredTypeIsReportedOk(job: Job, site: Site)
    requires !job.settingsBroken
    ensures var r := Collected(job, BackupServer(job, site).result);
            && (job.kind == ZFS ==> r.configOk && r.configSkipped == !job.server.backupConfigfiles)
            && (job.kind == CONFIG ==> r.zfsOk && r.zfsSkipped == !job.server.backupSnapshot)
  {
  }

  /** A dry run of any server changes nothing and has no errors. */
  lemma DryRunChangesNothing(job: Job, site: Site)
    requires job.dryRun && !job.settingsBroken
    ensures BackupServer(job, site).site == site && !Collected(job, BackupServer(job, site).result).HasErrors()
  {
  }

  // ---------------------------------------------------------------- package lists

  /** The same run but for what happens to the package lists. */
  predicate SameButPackages(a: Job, b: Job) {
    && a.(oracle := b.oracle) == b
    && a.oracle.(configs := b.oracle.configs) == b.oracle
    && a.oracle.configs.(packagesAt := b.oracle.configs.packagesAt,
                         selections := b.oracle.configs.selections, selectionsStuck := b.oracle.configs.selectionsStuck,
                         list := b.oracle.configs.list, listStuck := b.oracle.configs.listStuck) == b.oracle.configs
  }

  ghost predicate SameOutside(a: Dirs, b: Dirs, directory: Path) {
    forall d :: d != directory ==> Listing(a, d) == Listing(b, d)
  }

  lemma DumpStaysInside(s: ServerConfig, st: BackupSettings, at: Moment, suffix: string, c: Capture,
                        stuck: set<string>, dryRun: bool, dirs: Dirs)
    requires '/' !in s.name && '/' !in suffix
    ensures SameOutside(SavePackageDump(s, st, at, suffix, c, stuck, dryRun, dirs).dirs, dirs,
              ConfigsDir(st.baseDir, s.name))
  {
    ConfigsTargets(st.baseDir, s.name, suffix, at);
    var dir, name := ConfigsDir(st.baseDir, s.name), BuildPackagesFilename(s.name, BuildTimestamp(at), suffix);
    ArchiveInPlace(DumpTask(s, st, at, suffix, c, stuck), name, dirs);
    ListingAfterPut(dirs, dir, Keep(Listing(dirs, dir), name, OfCapture(c), PackagesPattern(suffix),
      st.packagesRetention, stuck).folder);
  }

  lemma PackagesStayInside(s: ServerConfig, st: BackupSettings, o: ConfigsOracle, dryRun: bool, dirs: Dirs)
    requires '/' !in s.name
    ensures SameOutside(BackupPackages(s, st, o, dryRun, dirs).dirs, dirs, ConfigsDir(st.baseDir, s.name))
  {
    DumpStaysInside(s, st, o.packagesAt, SELECTIONS, o.selections, o.selectionsStuck, dryRun, dirs);
    var first := SavePackageDump(s, st, o.packagesAt, SELECTIONS, o.selections, o.selectionsStuck, dryRun, dirs);
    DumpStaysInside(s, st, o.packagesAt, LIST, o.list, o.listStuck, dryRun, first.dirs);
  }

  lemma StreamIsElsewhere(s: ServerConfig, st: BackupSettings, at: Moment)
    requires Descends(s.zfsPool)
    ensures Parent(StreamTarget(s, st, at)) != ConfigsDir(st.baseDir, s.name)
  {
    var dir := SnapshotsDir(st.baseDir, s.name);
    var n := |dir| - 1;
    var name := BuildSnapshotFilename(s.name, s.zfsPool, BuildTimestamp(at));
    assert name[0] == if s.zfsPool == "" then '_' else s.zfsPool[0];
    assert dir <= StreamTarget(s, st, at);
    assert StreamTarget(s, st, at)[n] == "snapshots" && ConfigsDir(st.baseDir, s.name)[n] == "configs";
    assert "snapshots"[0] != "configs"[0];
  }

  lemma StreamAlike(s: ServerConfig, st: BackupSettings, o: ZfsOracle, a: Dirs, b: Dirs, directory: Path)
    requires SameOutside(a, b, directory) && Parent(StreamTarget(s, st, o.at)) != directory
    ensures Stream(s, st, o, a).result == Stream(s, st, o, b).result
    ensures SameOutside(Stream(s, st, o, a).dirs, Stream(s, st, o, b).dirs, directory)
  {
    var target := StreamTarget(s, st, o.at);
    var change := Apply(Listing(a, Parent(target)), FileName(target), OfTransfer(o.send));
    ListingAfterPut(a, Parent(target), change.folder);
    ListingAfterPut(b, Parent(target), change.folder);
  }

  lemma PrunedAlike(dir: Path, pattern: string, keep: int, stuck: set<string>, a: Dirs, b: Dirs, directory: Path)
    requires SameOutside(a, b, directory) && dir != directory
    ensures PruneIn(a, dir, pattern, keep, stuck).result == PruneIn(b, dir, pattern, keep, stuck).result
    ensures SameOutside(PruneIn(a, dir, pattern, keep, stuck).dirs, PruneIn(b, dir, pattern, keep, stuck).dirs,
              directory)
  {
    assert Listing(a, dir) == Listing(b, dir);
    var pruned := Prune(Listing(a, dir), pattern, keep, stuck).folder;
    ListingAfterPut(a, dir, pruned);
    ListingAfterPut(b, dir, pruned);
  }

  lemma AfterStreamAlike(t: Task, own: Snap, destroy: Reply, sent: Result<()>, m: Machine, a: Dirs, b: Dirs,
                         directory: Path)
    requires SameOutside(a, b, directory) && t.directory != directory
    ensures AfterStream(t, own, destroy, sent, m, a).result == AfterStream(t, own, destroy, sent, m, b).result
    ensures AfterStream(t, own, destroy, sent, m, a).machine == AfterStream(t, own, destroy, sent, m, b).machine
    ensures SameOutside(AfterStream(t, own, destroy, sent, m, a).dirs, AfterStream(t, own, destroy, sent, m, b).dirs,
              directory)
  {
    PrunedAlike(t.directory, t.pattern, t.keep, t.stuck, a, b, directory);
  }

  lemma StreamedAlike(s: ServerConfig, st: BackupSettings, o: ZfsOracle, m: Machine, a: Dirs, b: Dirs, directory: Path)
    requires SameOutside(a, b, directory) && Parent(StreamTarget(s, st, o.at)) != directory
    requires SnapshotsDir(st.baseDir, s.name) != directory
    ensures StreamAndDestroy(s, st, o, m, a).result == StreamAndDestroy(s, st, o, m, b).result
    ensures StreamAndDestroy(s, st, o, m, a).machine == StreamAndDestroy(s, st, o, m, b).machine
    ensures SameOutside(StreamAndDestroy(s, st, o, m, a).dirs, StreamAndDestroy(s, st, o, m, b).dirs, directory)
  {
    StreamAlike(s, st, o, a, b, directory);
    AfterStreamAlike(StreamTask(s, st, o), OwnSnap(s, o.at), o.destroy, Stream(s, st, o, a).result, m,
      Stream(s, st, o, a).dirs, Stream(s, st, o, b).dirs, directory);
  }

  lemma StreamStaysOut(s: ServerConfig, st: BackupSettings, o: ZfsOracle, m: Machine, dirs: Dirs, directory: Path)
    requires Parent(StreamTarget(s, st, o.at)) != directory && SnapshotsDir(st.baseDir, s.name) != directory
    ensures Listing(StreamAndDestroy(s, st, o, m, dirs).dirs, directory) == Listing(dirs, directory)
  {
    var target, dir, x := StreamTarget(s, st, o.at), SnapshotsDir(st.baseDir, s.name), Stream(s, st, o, dirs).dirs;
    ListingAfterPut(dirs, Parent(target),
      Apply(Listing(dirs, Parent(target)), FileName(target), OfTransfer(o.send)).folder);
    ListingAfterPut(x, dir, Prune(Listing(x, dir), SNAPSHOT_PATTERN, st.zfsRetention, o.stuck).folder);
  }

  lemma ZfsAlike(s: ServerConfig, st: BackupSettings, o: ZfsOracle, dryRun: bool, m: Machine, a: Dirs, b: Dirs,
                 directory: Path)
    requires SameOutside(a, b, directory) && Parent(StreamTarget(s, st, o.at)) != directory
    requires SnapshotsDir(st.baseDir, s.name) != directory
    ensures BackupZfs(s, st, o, dryRun, m, a).result == BackupZfs(s, st, o, dryRun, m, b).result
    ensures BackupZfs(s, st, o, dryRun, m, a).machine == BackupZfs(s, st, o, dryRun, m, b).machine
    ensures SameOutside(BackupZfs(s, st, o, dryRun, m, a).dirs, BackupZfs(s, st, o, dryRun, m, b).dirs, directory)
    ensures Listing(BackupZfs(s, st, o, dryRun, m, a).dirs, directory) == Listing(a, directory)
  {
    if !dryRun {
      var cleaned := Cleanup(m, o);
      var created := Create(cleaned.machine, OwnSnap(s, o.at), o.create);
      StreamedAlike(s, st, o, created.machine, a, b, directory);
      StreamStaysOut(s, st, o, created.machine, a, directory);
      BackupZfsIs(s, st, o, m, a, cleaned, created);
      BackupZfsIs(s, st, o, m, b, cleaned, created);
    }
  }

  lemma PartsAlike(a: Job, b: Job, dirs: Dirs)
    requires SameButPackages(a, b) && '/' !in a.server.name
    ensures ConfigPart(a, dirs).result == ConfigPart(b, dirs).result
    ensures SameOutside(ConfigPart(a, dirs).dirs, ConfigPart(b, dirs).dirs,
              ConfigsDir(a.settings.baseDir, a.server.name))
  {
    var config := BackupConfig(a.server, a.settings, a.oracle.configs, a.dryRun, dirs);
    PackagesStayInside(a.server, a.settings, a.oracle.configs, a.dryRun, config.dirs);
    PackagesStayInside(b.server, b.settings, b.oracle.configs, b.dryRun, config.dirs);
  }

  lemma DirectoriesDiffer(s: ServerConfig, st: BackupSettings)
    ensures SnapshotsDir(st.baseDir, s.name) != ConfigsDir(st.baseDir, s.name)
  {
    var n := |ConfigsDir(st.baseDir, s.name)| - 1;
    assert SnapshotsDir(st.baseDir, s.name)[n] == "snapshots" && "snapshots"[0] != "configs"[0];
  }

  lemma ZfsPartsAlike(a: Job, b: Job, site: Site)
    requires SameButPackages(a, b) && '/' !in a.server.name && Descends(a.server.zfsPool)
    ensures var za := BackupZfs(a.server, a.settings, a.oracle.zfs, a.dryRun, site.machine,
              ConfigPart(a, site.dirs).dirs);
            var zb := BackupZfs(b.server, b.settings, b.oracle.zfs, b.dryRun, site.machine,
              ConfigPart(b, site.dirs).dirs);
            za.result == zb.result && za.machine == zb.machine
  {
    PartsAlike(a, b, site.dirs);
    StreamIsElsewhere(a.server, a.settings, a.oracle.zfs.at);
    DirectoriesDiffer(a.server, a.settings);
    ZfsAlike(a.server, a.settings, a.oracle.zfs, a.dryRun, site.machine, ConfigPart(a, site.dirs).dirs,
      ConfigPart(b, site.dirs).dirs,
             ConfigsDir(a.settings.baseDir, a.server.name));
  }

  lemma ServerFromParts(job: Job, site: Site, config: Ended, zfs: ZfsEnd)
    requires !job.settingsBroken && config == Configured(job, site.dirs) && zfs == Zfsed(job, site.machine, config.dirs)
    ensures BackupServer(job, site) ==
              ServerEnd(Site(zfs.machine, zfs.dirs), Done(Verdict(job.server, config.result, zfs.result)))
  {
  }

  lemma ConfiguredAlike(a: Job, b: Job, site: Site)
    requires SameButPackages(a, b) && '/' !in a.server.name && Descends(a.server.zfsPool)
    ensures var ca, cb := Configured(a, site.dirs), Configured(b, site.dirs);
            var za, zb := Zfsed(a, site.machine, ca.dirs), Zfsed(b, site.machine, cb.dirs);
            ca.result == cb.result && za.result == zb.result && za.machine == zb.machine
  {
    if WantsConfig(a) {
      PartsAlike(a, b, site.dirs);
      ZfsPartsAlike(a, b, site);
    }
  }

  /** Whatever happens to the package lists, the server's result and its snapshots are the same. */
  lemma PackagesNeverDecide(a: Job, b: Job, site: Site)
    requires SameButPackages(a, b) && '/' !in a.server.name && Descends(a.server.zfsPool)
    ensures Collected(a, BackupServer(a, site).result) == Collected(b, BackupServer(b, site).result)
    ensures BackupServer(a, site).site.machine == BackupServer(b, site).site.machine
  {
    if !a.settingsBroken {
      var ca, cb := Configured(a, site.dirs), Configured(b, site.dirs);
      ConfiguredAlike(a, b, site);
      ServerFromParts(a, site, ca, Zfsed(a, site.machine, ca.dirs));
      ServerFromParts(b, site, cb, Zfsed(b, site.machine, cb.dirs));
    }
  }
}
