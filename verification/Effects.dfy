/**
 * What the backup of one server does, said in terms of its job alone: which types run, what each leaves in its
 * directory and on the machine, and what the result says.
 */
module Effects {
  import opened Paths
  import opened Outcomes
  import opened Retention
  import opened Models
  import opened ConfigsHistory
  import opened Snapshots
  import opened Orchestrator
  import opened Reporting

  /** `--type` asks for the archive, and the server has it enabled. */
  predicate ArchiveRuns(job: Job) {
    (job.kind == ALL || job.kind == CONFIG) && job.server.backupConfigfiles
  }

  /** `--type` asks for the snapshot, and the server has it enabled. */
  predicate SnapshotRuns(job: Job) {
    (job.kind == ALL || job.kind == ZFS) && job.server.backupSnapshot
  }

  /** A job that is really run: readable settings, no dry run, and files that stay below the server's own directory. */
  predicate RealRun(job: Job) {
    !job.settingsBroken && !job.dryRun && '/' !in job.server.name && Descends(job.server.zfsPool)
  }

  function Configs(job: Job): Path {
    ConfigsDir(job.settings.baseDir, job.server.name)
  }

  /** What the archive and the package lists of this run make of the `configs` directory. */
  function Archived(job: Job, dirs: Dirs): Night {
    OneNight(job.server.name, job.settings, job.oracle.configs, Listing(dirs, Configs(job)))
  }

  /** What the snapshot of this run makes of the machine and the disk. */
  function Snapshotted(job: Job, site: Site): ZfsEnd {
    BackupZfs(job.server, job.settings, job.oracle.zfs, false, site.machine, site.dirs)
  }

  lemma ConfigsPart(job: Job, dirs: Dirs)
    requires RealRun(job)
    ensures var part := Configured(job, dirs);
            && Listing(part.dirs, Configs(job)) ==
               (if ArchiveRuns(job) then Archived(job, dirs).list.folder else Listing(dirs, Configs(job)))
            && SameOutside(part.dirs, dirs, Configs(job))
            && part.result == (if ArchiveRuns(job) then Archived(job, dirs).config.result else Done(()))
  {
    if ArchiveRuns(job) {
      NightIsWhatRuns(job.server, job.settings, job.oracle.configs, dirs);
      ListingAfterPut(dirs, Configs(job), Archived(job, dirs).list.folder);
    }
  }

  lemma SnapshotPart(job: Job, m: Machine, dirs: Dirs, before: Dirs)
    requires RealRun(job) && SameOutside(dirs, before, Configs(job))
    ensures var part, alone := Zfsed(job, m, dirs), Snapshotted(job, Site(m, before));
            && part.machine == (if SnapshotRuns(job) then alone.machine else m)
            && Listing(part.dirs, Configs(job)) == Listing(dirs, Configs(job))
            && SameOutside(part.dirs, if SnapshotRuns(job) then alone.dirs else before, Configs(job))
            && part.result == (if SnapshotRuns(job) then alone.result else Done(()))
  {
    StreamIsElsewhere(job.server, job.settings, job.oracle.zfs.at);
    DirectoriesDiffer(job.server, job.settings);
    if SnapshotRuns(job) {
      ZfsAlike(job.server, job.settings, job.oracle.zfs, false, m, dirs, before, Configs(job));
    }
  }

  /**
   * What one backup leaves. The archive and the package lists are written and pruned exactly when the type asked
   * for and the server's own switch say so, the snapshot is taken, streamed, destroyed and pruned exactly when
   * they do for it, neither disturbs the other, and nothing else changes.
   */
  lemma BackupLeaves(job: Job, site: Site)
    requires RealRun(job)
    ensures var after := BackupServer(job, site).site;
            && Listing(after.dirs, Configs(job)) ==
               (if ArchiveRuns(job) then Archived(job, site.dirs).list.folder else Listing(site.dirs, Configs(job)))
            && SameOutside(after.dirs, if SnapshotRuns(job) then Snapshotted(job, site).dirs else site.dirs,
                           Configs(job))
            && after.machine == (if SnapshotRuns(job) then Snapshotted(job, site).machine else site.machine)
  {
    var config := Configured(job, site.dirs);
    ConfigsPart(job, site.dirs);
    SnapshotPart(job, site.machine, config.dirs, site.dirs);
    ServerFromParts(job, site, config, Zfsed(job, site.machine, config.dirs));
  }

  /** `after` is what the backup of this job makes of `before`, in its own two directories and on its machine. */
  ghost predicate BackedUp(job: Job, before: Site, after: Site) {
    var streams := SnapshotsDir(job.settings.baseDir, job.server.name);
    && Listing(after.dirs, Configs(job)) ==
       (if ArchiveRuns(job) then Archived(job, before.dirs).list.folder else Listing(before.dirs, Configs(job)))
    && Listing(after.dirs, streams) ==
       Listing(if SnapshotRuns(job) then Snapshotted(job, before).dirs else before.dirs, streams)
    && (SnapshotRuns(job) ==> after.machine == Snapshotted(job, before).machine)
  }

  lemma BackupBacksUp(job: Job, site: Site)
    requires RealRun(job)
    ensures BackedUp(job, site, BackupServer(job, site).site)
  {
    BackupLeaves(job, site);
    DirectoriesDiffer(job.server, job.settings);
  }

  lemma VerdictSays(s: ServerConfig, config: Result<()>, zfs: Result<()>)
    ensures Verdict(s, config, zfs) ==
            BackupResult(s.name, config.Done?, config, !s.backupConfigfiles, zfs.Done?, zfs, !s.backupSnapshot)
  {
    assert config.Done? ==> config.value == ();
    assert zfs.Done? ==> zfs.value == ();
  }

  /**
   * What its result says. Each type reports its own exception, or that it is done if it did not run; a package
   * list is never in it; a type is skipped exactly if the server has it disabled.
   */
  lemma ResultSays(job: Job, site: Site)
    requires RealRun(job)
    ensures var config := if ArchiveRuns(job) then Archived(job, site.dirs).config.result else Done(());
            var zfs := if SnapshotRuns(job) then Snapshotted(job, site).result else Done(());
            BackupServer(job, site).result ==
            Done(BackupResult(job.server.name,
                              config.Done?, config, !job.server.backupConfigfiles,
                              zfs.Done?, zfs, !job.server.backupSnapshot))
  {
    var config := Configured(job, site.dirs);
    ConfigsPart(job, site.dirs);
    SnapshotPart(job, site.machine, config.dirs, site.dirs);
    ServerFromParts(job, site, config, Zfsed(job, site.machine, config.dirs));
    VerdictSays(job.server, config.result, Zfsed(job, site.machine, config.dirs).result);
  }

  /** Broken settings leave everything as it is and are reported as an error of both types. */
  lemma BrokenSettingsAreReported(job: Job, site: Site)
    requires job.settingsBroken
    ensures BackupServer(job, site).site == site
    ensures var r := Collected(job, BackupServer(job, site).result);
            && r.server == job.server.name
            && r.configError == r.zfsError == Raised(SettingsFault)
            && !r.configOk && !r.zfsOk && !r.configSkipped && !r.zfsSkipped
  {
  }
}
