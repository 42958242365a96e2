# Verification of proxmox-srvbackup

A Dafny model of the pull-backup tool, with proofs about whole runs, whole histories of runs and all
thread schedules. `dafny verify dfyconfig.toml` checks everything.

## What is modelled

**The backup protocol.** Two worlds: each remote machine is a set of snapshots (dataset and tag) on a set
of datasets, the backup server's disk maps directories to named files. Every command and every file
operation takes its outcome from an oracle: it may not start, exit non-zero after part of its work, print
something that is not text, or succeed. `Disk`, `Archives`, `Snapshots` and `Orchestrator` hold the
program's own steps as methods on the classes `Store` and `Host`, each proved equal to a specification
function; the other files prove what the functions promise, and say in terms of the inputs alone what each
operation makes of them: which types of backup run, what a transfer leaves in its file, which snapshots are
made, which servers are handed to the pool, what a configuration becomes.

| file | about |
|---|---|
| `Text`, `Names`, `Paths` | strings, file-name patterns, timestamps, where files go |
| `Retention`, `Disk` | sorting and pruning; what a transfer does to a file |
| `Archives`, `ConfigsHistory`, `Streams`, `StreamsHistory` | the four file families, one run and over histories |
| `Snapshots`, `Lifecycle` | create, stream, destroy and clean up snapshots |
| `Models`, `Outcomes`, `Orchestrator`, `Effects` | the backup of one server, what it does, and the collection of results |
| `Worker`, `Refinement`, `Pool`, `Schedules`, `Confluence`, `Isolation` | the thread pool, step by step |
| `Reporting`, `Incidents`, `EndToEnd` | what a run reports: results, subject line, exit status |
| `Overrides`, `Nesting`, `Provenance` | `--set` |
| `Console` | encode-safe output |
| `Logging` | starting the logging runtime |

**The thread pool** interleaves at every remote command, file write, directory listing and unlink. A
worker's whole future is a function of its own machine and its own directories, and the invariant says
that this future never changes for servers that share no directory and no machine on which both take
snapshots; confluence follows. That a pool ends, does not stall, and reports what happened in it needs
nothing of the servers.

**Assumptions about ZFS.** A recursive create makes one snapshot of the tag for the dataset and each
below it, and needs the dataset and none of the snapshots to exist. A recursive destroy removes the
snapshots of that tag on the dataset and below it and is refused when there are none. A command that
does not report success may have done any part of its work. The listing is in an order the oracle gives;
the completeness result asks for parents before children. The exit code of `zfs send | gzip` is that of
gzip, so the data of a stream is an oracle too and nothing is claimed about it.

**Assumptions about libraries.** `Config.with_overrides` merges tables key by key and replaces anything
else. `coerce_value` is an arbitrary function from text to values. A codec is a finite table from
characters to byte strings none of which starts another; an undecodable stretch is one byte. An exception
that leaves a command becomes the platform's code for it, for a ValueError 22 on POSIX
(`adapters/logging/setup.py:346-347`).

## What the proofs found

- A cleanup can miss snapshots of a second pool: the listing covers all pools, the recursive destroy of the
  first pool's root makes the entry of its child redundant, the refused destroy ends the loop
  (`SecondPoolCanBeMissed`; the exact condition is `CleanupIsCompleteIff`).
- A ZFS name with a slash (`rpool/data`) puts every stream in a subdirectory that retention never prunes
  (`NestedPoolIsNeverPruned`).
- Output of a command that is not text raises a UnicodeDecodeError, which the `except SSHConnectionError`
  clauses let pass: it ends a cleanup as a failed backup, and after a successful transfer the last destroy
  can turn the run into a failed one (`FinalDestroyDoesNotDecide`).
- A start failure of the transfer leaves an empty archive, which retention counts and prefers over older
  good ones (`StartFailureCountsAsEntry`).
- A value inside a table given to `--set` keeps the origin of the file it replaced (`TableIsMislabelled`).
- `init_logging` documents that only its first call can raise. A call whose start ends in any other
  exception leaves logging stopped, and a later call can report the configuration (`LaterCallCanReport`).
  A call reports exactly when no earlier one got logging to run, its section is refused and the defaults
  start (`ReportsIff`). Only the first call reports exactly unless logging is first started by the defaults
  of a later one (`OnlyTheFirstReportsIff`), and every later call returns exactly when the first gets logging
  to run or the second does so with its own section (`LaterCallsReturnIff`).
- A setting that is not a number, or a `max_parallel` below 1, ends the command with the exit status of an
  unknown `--server` (`StatusSays`).
- The docstring of `BackupResult` says a type filtered by `--type` is marked as skipped; the code reports
  it as done (`FilteredTypeIsReportedOk`). The model follows the code.

## Model

| member | source | states |
|---|---|---|
| Confluence.EveryScheduleIsSequential | src/proxmox_srvbackup/adapters/backup/orchestrator.py:213-242 | For servers that share nothing (no directory, and no machine on which two of them take snapshots), whatever the interleaving of worker steps and the pool size, once every future is collected the archives, the snapshots and the sorted summary are those of backing up the servers one after the other, with one result for each server |
| Confluence.SequentialResultsAlone | src/proxmox_srvbackup/adapters/backup/orchestrator.py:80-176 | In the sequential run each server has the result it would have alone |
| EndToEnd.EveryServerIsBackedUp | src/proxmox_srvbackup/adapters/backup/orchestrator.py:213-242 | For servers that share nothing, whatever the schedule, every server ends with the archives and package lists that `--type` and its own switch ask for written and pruned, with its snapshots taken, streamed and destroyed as they ask, and with nothing of the types they do not ask for |
| Schedules.EveryScheduleIsBounded | src/proxmox_srvbackup/adapters/backup/orchestrator.py:213-242 | Whatever servers share, from every state of the pool there is a number of actions that no schedule exceeds |
| Schedules.ActIsNearer | src/proxmox_srvbackup/adapters/backup/orchestrator.py:213-242 | Every start, worker step and collection brings the pool nearer to its end |
| Confluence.EveryScheduleCountsDown | src/proxmox_srvbackup/adapters/backup/orchestrator.py:213-242 | For independent servers the number of actions left is known from the start and goes down by one with each |
| Schedules.NeverStalls | src/proxmox_srvbackup/adapters/backup/orchestrator.py:213-242 | With at least one worker some action is possible until every result is collected, whatever servers share |
| Schedules.AllFinish | src/proxmox_srvbackup/adapters/backup/orchestrator.py:225-239 | When as many results as servers are in, every server has finished and is collected |
| Pool.ActKeepsBooks | src/proxmox_srvbackup/adapters/backup/orchestrator.py:213-239 | Whatever servers share: at most `limit` workers busy, workers started in order, no future collected twice or before its worker is done |
| Confluence.PickingIsSorting | src/proxmox_srvbackup/adapters/backup/orchestrator.py:225-242 | Collecting each result exactly once, in any order, gives the same sorted list |
| Confluence.SequentialSees | src/proxmox_srvbackup/adapters/backup/orchestrator.py:80-176 | In a sequential run each server finds its machine and directories as they were at the start and nobody changes them afterwards |
| Pool.ActKeepsInvariant | src/proxmox_srvbackup/adapters/backup/orchestrator.py:213-239 | Every start, worker step and collection keeps: at most `limit` workers busy, each worker heading for the end it would reach alone, everything no worker can reach untouched, no future collected twice or early |
| Pool.ScheduleKeepsInvariant | src/proxmox_srvbackup/adapters/backup/orchestrator.py:213-239 | So does every schedule |
| Pool.WorkMovesOneView | src/proxmox_srvbackup/adapters/backup/orchestrator.py:80-176 | A step of one worker is a step of that worker alone on its own view and no change in the view of any other |
| Pool.StepIsLocal | src/proxmox_srvbackup/adapters/backup/orchestrator.py:80-176 | A step reads and writes nothing outside the directories of its own server, and no machine unless snapshots are wanted |
| Refinement.WorkerRefinesBackupServer | src/proxmox_srvbackup/adapters/backup/orchestrator.py:80-176 | The worker that interleaves at every remote command, write, listing and unlink ends, when run alone, with exactly the files, snapshots and result of `backup_server` |
| Worker.StepDecreases | src/proxmox_srvbackup/adapters/backup/orchestrator.py:80-176 | Every step brings a worker closer to its end |
| Orchestrator.RunBackupServer | src/proxmox_srvbackup/adapters/backup/orchestrator.py:112-176 | The imperative `backup_server`, package lists attempted whatever became of the archive, equals its specification on both worlds and on the reported result; what that says in terms of the job are the two rows below |
| Effects.BackupLeaves | src/proxmox_srvbackup/adapters/backup/orchestrator.py:109-160 | Of a job that is no dry run: the archive and the package lists run exactly if the type is `all` or `config` and the server has `backup_configfiles`, the snapshot exactly if it is `all` or `zfs` and the server has `backup_snapshot`; each makes of its own directory, and of the machine, what it makes alone, and nothing else changes |
| Effects.ResultSays | src/proxmox_srvbackup/adapters/backup/orchestrator.py:103-176 | The result holds, for each type, the exception that type let out or none, and is skipped exactly as the server is configured; no package list is in it |
| Effects.BrokenSettingsAreReported | src/proxmox_srvbackup/adapters/backup/orchestrator.py:229-237 | Settings that cannot be read leave everything as it is and are an error of both types |
| Orchestrator.CollectResults | src/proxmox_srvbackup/adapters/backup/orchestrator.py:225-242 | The `as_completed` loop records one result for each future, a raised one as failed in both types, and sorts them by server |
| Orchestrator.SummaryIgnoresOrder | src/proxmox_srvbackup/adapters/backup/orchestrator.py:225-242 | The sorted summary does not depend on the order in which workers finish |
| Orchestrator.SortPermutes | src/proxmox_srvbackup/adapters/backup/orchestrator.py:240 | Sorting loses no result and adds none, also when servers share a name |
| Orchestrator.SortIsStable | src/proxmox_srvbackup/adapters/backup/orchestrator.py:240 | No server comes before one with a smaller name, and results of one name keep their order |
| Isolation.NamesSeparate | src/proxmox_srvbackup/adapters/backup/config_backup.py:73-75 | Two servers below one base directory share no directory exactly when their names differ (names that are one path component, ZFS names that are relative and without parent directories) |
| Isolation.DistinctServersAreIndependent | src/proxmox_srvbackup/adapters/backup/orchestrator.py:213-223 | Servers with one-component names share nothing, as the confluence results ask, exactly when their names differ and no two of them really take snapshots on one machine: both local, or neither and the same host name |
| Isolation.EveryScheduleSparesOthers | src/proxmox_srvbackup/adapters/backup/zfs_backup.py:74-85 | Under every schedule, servers sharing machines or not, stopped anywhere, every machine keeps exactly its snapshots without the `pull_backup_` prefix |
| Isolation.ManyRunsSpareOthers | src/proxmox_srvbackup/adapters/backup/zfs_backup.py:74-85 | The same over any sequence of runs |
| Isolation.MoveKeepsOthers | src/proxmox_srvbackup/adapters/backup/zfs_backup.py:170-177 | No single step of any worker touches a foreign snapshot, and a cleanup in progress holds tool snapshots only |
| Snapshots.RunCleanup | src/proxmox_srvbackup/adapters/backup/zfs_backup.py:66-87 | The cleanup loop, ended by the first failing destroy, leaves the machine its specification gives and returns unless the output of a command is not text |
| Snapshots.RunBackupZfs | src/proxmox_srvbackup/adapters/backup/zfs_backup.py:129-179 | `backup_zfs` with its `try`/`finally` written out equals its specification: machine, disk and exception; what that says in terms of the inputs are the rows of CreatesWhatIsDue, DestroysWhatItMade and RunEndsAs |
| Snapshots.WithinIsBelow | src/proxmox_srvbackup/adapters/backup/zfs_backup.py:84-85 | A recursive command on a dataset is about those whose path is that of the dataset or continues it |
| Snapshots.GrepSelectsTheTool | src/proxmox_srvbackup/adapters/backup/zfs_backup.py:74 | Searching a printed snapshot name for `@pull_backup_` is testing the prefix of its tag |
| Snapshots.Listed | src/proxmox_srvbackup/adapters/backup/zfs_backup.py:81 | The listing names exactly the existing tool snapshots among those printed |
| Snapshots.DestroyIsConfined | src/proxmox_srvbackup/adapters/backup/zfs_backup.py:84-85 | A destroy that succeeds leaves no snapshot of its tag at or below its dataset, one that does not removes a part of these only, nothing else goes, and where there is none it is refused |
| Snapshots.DestroyUndoesCreate | src/proxmox_srvbackup/adapters/backup/zfs_backup.py:141-175 | A create that succeeds adds its tag on the dataset and everything below and nothing else; the destroy of the same snapshot undoes it |
| Lifecycle.CreatesWhatIsDue | src/proxmox_srvbackup/adapters/backup/zfs_backup.py:121-147 | A run gets its snapshot exactly when the cleanup lets it go on, the configured dataset exists, no snapshot to be made is there and the command works; it has then made the tag `pull_backup_<timestamp>` on that dataset and everything below it, and nothing else |
| Lifecycle.DestroysWhatItMade | src/proxmox_srvbackup/adapters/backup/zfs_backup.py:170-177 | If the pool held no snapshot of that tag before, a destroy that works leaves the machine as the cleanup left it, and one that never runs leaves all that was made |
| Streams.RunEndsAs | src/proxmox_srvbackup/adapters/backup/zfs_backup.py:137-179 | Which exception a run ends in, or that it ends in none, by its inputs alone: dataset, tag, replies, transfer, blocked target and stuck files |
| Streams.RunSucceedsExactly | src/proxmox_srvbackup/adapters/backup/zfs_backup.py:137-179 | Success exactly when every command works and prints text, nothing to be made is there, the target is free, the transfer exits with 0 and no stream to be deleted is stuck |
| Lifecycle.CleanupStopsAtFailure | src/proxmox_srvbackup/adapters/backup/zfs_backup.py:74-87 | A failed listing leaves everything, a failed destroy ends the loop with at most a part of its own snapshots gone, and only output that is not text escapes |
| Lifecycle.OtherSnapshotsAreUntouched | src/proxmox_srvbackup/adapters/backup/zfs_backup.py:137-177 | Whatever fails, one run leaves every snapshot without the tool prefix alone |
| Lifecycle.CreatedSnapshotIsGoneIff | src/proxmox_srvbackup/adapters/backup/zfs_backup.py:139-177 | A snapshot the run reports as created is gone at its end exactly when its destroy succeeded or had done all its work before failing |
| Lifecycle.RunSucceedsIff | src/proxmox_srvbackup/adapters/backup/zfs_backup.py:137-179 | A run reports success exactly when create, transfer and retention did and the last destroy printed text |
| Lifecycle.FinalDestroyDoesNotDecide | src/proxmox_srvbackup/adapters/backup/zfs_backup.py:170-177 | A failing last destroy changes neither the outcome nor the files of a run; output that is not text fails every run that created a snapshot |
| Lifecycle.CleanupLeavesExactly | src/proxmox_srvbackup/adapters/backup/zfs_backup.py:81-87 | When every destroy before the first redundant one succeeds, the cleanup removes exactly what the entries before that one cover |
| Lifecycle.CleanupIsCompleteIff | src/proxmox_srvbackup/adapters/backup/zfs_backup.py:81-87 | It empties a pool exactly when every stale snapshot of the pool is covered before the first redundant entry |
| Lifecycle.CleanupIsComplete | src/proxmox_srvbackup/adapters/backup/zfs_backup.py:81-87 | With tool snapshots in one pool only, a snapshot of every stale tag at its root, and a parents-first listing, nothing stale remains although the loop ends early |
| Lifecycle.SecondPoolCanBeMissed | src/proxmox_srvbackup/adapters/backup/zfs_backup.py:82-87 | Two pools defeat it although every command works |
| Lifecycle.LeftoversAreRecent | src/proxmox_srvbackup/adapters/backup/zfs_backup.py:137-177 | After a cleanup that got through, every tool snapshot present after any number of further runs was left by one of those runs, which failed to destroy it |
| Lifecycle.LeakIsBounded | src/proxmox_srvbackup/adapters/backup/zfs_backup.py:137-177 | A leaked snapshot is gone after the next run whose cleanup gets through, and never comes back |
| Lifecycle.NextGoodCleanupEndsTheLeak | src/proxmox_srvbackup/adapters/backup/zfs_backup.py:81-87 | With one pool, that is the next run whose listing and whose destroys of the root snapshots succeed |
| Lifecycle.MachineAfterIsWhatRuns | src/proxmox_srvbackup/adapters/backup/zfs_backup.py:137-177 | The histories are about what the program leaves on the machine |
| Streams.StreamsAreTracked | src/proxmox_srvbackup/adapters/backup/zfs_backup.py:149-179 | For a pool without a slash every run keeps the newest `keep` of all streams ever written, its own counted exactly if it got to the transfer and that left a file; a successful one leaves exactly those |
| Streams.StreamsHold | src/proxmox_srvbackup/adapters/backup/zfs_backup.py:139-179 | No run alters an entry: what is there afterwards was there before or is the run's own stream, holding all that the transfer wrote, or empty if it never started |
| StreamsHistory.StreamsOverHistories | src/proxmox_srvbackup/adapters/backup/zfs_backup.py:137-179 | With an increasing clock, after any history of failing and succeeding runs a successful one leaves exactly the newest min(keep, total) of the initial streams and all written since, its own among them; one that gets no snapshot or whose transfer exits non-zero leaves the streams as they were; every entry is an initial one, unaltered, or what a run streamed under that name |
| StreamsHistory.StreamsAreOriginal | src/proxmox_srvbackup/adapters/backup/zfs_backup.py:137-179 | That last part without any demand on the clock |
| StreamsHistory.PastStreamsSortFirst | src/proxmox_srvbackup/domain/behaviors.py:64-71 | Every stream written before a run sorts before the one that run writes |
| Streams.NestedPoolIsNeverPruned | src/proxmox_srvbackup/adapters/backup/zfs_backup.py:125-127 | A ZFS name with a slash puts the stream in a directory that retention never looks at: no older stream is ever removed |
| Paths.SnapshotTarget | src/proxmox_srvbackup/adapters/backup/zfs_backup.py:125-127 | The stream lands in the pruned directory exactly when the ZFS name has one component |
| Paths.OwnDirectories | src/proxmox_srvbackup/adapters/backup/config_backup.py:73-75 | The files of a server are below `<base>/<server>/configs` and `<base>/<server>/snapshots` |
| Paths.JoinsAsPathlib | src/proxmox_srvbackup/adapters/backup/zfs_backup.py:126-127 | Joining starts over at a leading slash and drops empty and `.` components |
| Disk.FailedTransferLeavesNoTrace | src/proxmox_srvbackup/adapters/ssh/commands.py:141-145 | A transfer that exits non-zero leaves the directory as it was, exactly when nothing had that name before |
| Disk.Store.PipeToFile | src/proxmox_srvbackup/adapters/ssh/commands.py:132-145 | By cases: the whole output after exit 0, an empty file after a start failure, no file after a non-zero exit, nothing changed if the file cannot be opened, each with its exception, and no other directory touched |
| Disk.Store.SaveText | src/proxmox_srvbackup/adapters/backup/packages_backup.py:72-75 | By cases: a captured listing is written whole, cut short or not at all, with the matching exception, and no other directory is touched |
| Disk.Store.ApplyRetention | src/proxmox_srvbackup/adapters/backup/retention.py:38-62 | The imperative `apply_retention`, early returns included, equals its specification on the directory and on the returned list or error |
| Disk.Store.UnlinkAll | src/proxmox_srvbackup/adapters/backup/retention.py:54-62 | The deleting loop unlinks a prefix and raises at the first file that cannot be deleted |
| Retention.PruneIsExact | src/proxmox_srvbackup/adapters/backup/retention.py:42-62 | For any `keep`: only files outside the newest max(keep, 0) go, oldest first; success exactly when none of them is stuck, and then exactly min(count, max(keep, 0)) stay; on an error everything older than the named file is gone and nothing newer is touched |
| Retention.PruneTouchesMatchingFiles | src/proxmox_srvbackup/adapters/backup/retention.py:38-62 | The same of the plain files whose names match the pattern; subdirectories and other names stay, and no content changes |
| Retention.SurvivesIffNewEnough | src/proxmox_srvbackup/adapters/backup/retention.py:42-51 | A file survives a successful retention exactly when fewer than `keep` matching files sort after it |
| Retention.NewestIsSuffix | src/proxmox_srvbackup/adapters/backup/retention.py:42-51 | The kept suffix of the sorted names is the set with fewer than `keep` names after each |
| Retention.PruneFrame | src/proxmox_srvbackup/adapters/backup/retention.py:42-62 | Retention removes matching files only and changes no entry that stays |
| Retention.DoomedIsRest | src/proxmox_srvbackup/adapters/backup/retention.py:51 | The slice handed to the deleting loop is everything outside the newest `keep` |
| Retention.Sorted | src/proxmox_srvbackup/adapters/backup/retention.py:42-45 | Sorting keeps every name once |
| Retention.SortedIsAscending | src/proxmox_srvbackup/adapters/backup/retention.py:42-45 | Sorting is by code point, strictly |
| Text.LessMeans | src/proxmox_srvbackup/adapters/backup/retention.py:42-45 | `<` on names: the first differing code point decides, and a proper prefix comes first |
| Retention.NewestIsStable | src/proxmox_srvbackup/adapters/backup/retention.py:42-51 | Losing files outside the newest `keep` does not change which are newest |
| Names.LexicographicIsChronological | src/proxmox_srvbackup/domain/behaviors.py:39-71 | For years 1000 to 9999, code-point order of two names of one server (and pool) is the order of the clock readings, for all three kinds of file |
| Names.TimestampOrder | src/proxmox_srvbackup/domain/behaviors.py:39 | The same for the bare timestamps |
| Names.TimestampIsInjective | src/proxmox_srvbackup/domain/behaviors.py:39 | Equal timestamps are the same second |
| Names.TimestampReads | src/proxmox_srvbackup/domain/behaviors.py:39 | A timestamp reads `YYYY-MM-DD_HH-MM-SS`, each field its decimal digits |
| Names.NamesRead | src/proxmox_srvbackup/domain/behaviors.py:42-81 | The documented names and tag |
| Names.PatternsRead | src/proxmox_srvbackup/adapters/backup/packages_backup.py:79 | The patterns the three retentions are called with |
| Names.NamesIdentify | src/proxmox_srvbackup/domain/behaviors.py:42-61 | Equal names of archives or of one package list are of the same server and the same second |
| Names.OwnPatternFindsIt | src/proxmox_srvbackup/adapters/backup/retention.py:42-45 | Every generated name matches the pattern its own retention uses |
| Names.FamiliesAreDisjoint | src/proxmox_srvbackup/adapters/backup/packages_backup.py:79 | No name matches two of the three patterns used in `configs` |
| Names.DigitsKeepOrder | src/proxmox_srvbackup/domain/behaviors.py:39 | Zero-padded decimals of one width sort as numbers |
| Archives.RunBackupConfig | src/proxmox_srvbackup/adapters/backup/config_backup.py:72-100 | `backup_config` writes its archive and then prunes its own family, as specified |
| Archives.RunSavePackageDump | src/proxmox_srvbackup/adapters/backup/packages_backup.py:65-79 | `_save_package_dump` likewise |
| Archives.RunBackupPackages | src/proxmox_srvbackup/adapters/backup/packages_backup.py:111-126 | The loop over the two dumps stops at the first that raises |
| Archives.KeepTracks | src/proxmox_srvbackup/adapters/backup/config_backup.py:85-100 | Whatever fails, one run of one family keeps at least the newest `keep` of all files ever written and adds nothing else; a successful one leaves exactly those |
| Archives.KeepHoldsTransfers | src/proxmox_srvbackup/adapters/backup/config_backup.py:85-100 | No entry is altered: what is there after the run was there before or is the run's own archive, whole, or empty if its command never started |
| Archives.KeepHoldsCaptures | src/proxmox_srvbackup/adapters/backup/packages_backup.py:65-79 | The same for a package list: whole, or the part that could be written |
| Archives.KeepLeavesOthers | src/proxmox_srvbackup/adapters/backup/config_backup.py:100 | A family whose pattern does not meet another leaves the other alone |
| ConfigsHistory.RetentionOverHistories | src/proxmox_srvbackup/adapters/backup/config_backup.py:72-100 | With an increasing clock, after any history of failing and succeeding runs a successful config backup leaves exactly the newest min(keep, total) of the initial archives and all written since, its own among them; the same for both package lists; a transfer that exits non-zero leaves the archives as they were; every entry is an initial one, unaltered, or what a run wrote under that name |
| ConfigsHistory.ContentsAreOriginal | src/proxmox_srvbackup/adapters/backup/config_backup.py:72-100 | That last part without any demand on the clock |
| ConfigsHistory.ArchiveHoldsItsRun | src/proxmox_srvbackup/adapters/backup/config_backup.py:72-100 | With an increasing clock an archive that is left holds all that the command of its timestamp's run wrote, that command having exited with 0, or is empty if that command never started |
| ConfigsHistory.StartFailureCountsAsEntry | src/proxmox_srvbackup/adapters/ssh/commands.py:134-139 | A start failure leaves an empty file that counts as an archive |
| ConfigsHistory.FamiliesNeverPruneEachOther | src/proxmox_srvbackup/adapters/backup/packages_backup.py:111-126 | In every run, also one in which a family fails, each family leaves the files of the other two unchanged |
| ConfigsHistory.NightIsWhatRuns | src/proxmox_srvbackup/adapters/backup/orchestrator.py:112-139 | The histories are about what the two functions do to the `configs` directory, and they touch no other |
| ConfigsHistory.PastSortsFirst | src/proxmox_srvbackup/domain/behaviors.py:39-71 | Everything written before a run sorts before what that run writes |
| EndToEnd.OutcomeAgrees | src/proxmox_srvbackup/domain/behaviors.py:125-129 | Over every schedule of any servers, sharing machines or not: the subject is `[OK]` exactly when no step of the run let an exception out of a config or ZFS backup and no worker had broken settings, and `[ERROR]` exactly when that befell every one of at least one server |
| EndToEnd.CommandAgrees | src/proxmox_srvbackup/adapters/cli/commands/backup.py:146-164 | The command, once it starts workers, exits with 0 exactly when the subject is `[OK]`, that is when no step of any worker raised so |
| EndToEnd.OutcomeOfIndependent | src/proxmox_srvbackup/adapters/backup/orchestrator.py:112-176 | For servers that share nothing the subject is decided by what `backup_config` and `backup_zfs` would do for each alone |
| EndToEnd.IncidentsAreTrouble | src/proxmox_srvbackup/adapters/backup/orchestrator.py:112-176 | For them what goes wrong in a run is what would go wrong alone |
| EndToEnd.LoopMakesTheSummary | src/proxmox_srvbackup/adapters/backup/orchestrator.py:225-242 | The `as_completed` loop, on the futures in the order of any schedule, makes the summary of that run |
| Incidents.ErrorsAreIncidents | src/proxmox_srvbackup/adapters/backup/orchestrator.py:112-176 | At any point of any run a result has errors exactly when something that counts went wrong with its worker so far, and its skip flags are those of the server |
| Incidents.ScheduleIsCoherent | src/proxmox_srvbackup/adapters/backup/orchestrator.py:112-176 | A result follows the own steps of its worker, whoever else changes the world in between |
| Incidents.MoveIsCoherent | src/proxmox_srvbackup/adapters/backup/orchestrator.py:112-176 | A single step marks the result exactly when it raises |
| Incidents.DumpsNeverCount | src/proxmox_srvbackup/adapters/backup/orchestrator.py:129-139 | No step of a package list counts or leaves a mark on the result |
| EndToEnd.PackagesNeverReported | src/proxmox_srvbackup/adapters/backup/orchestrator.py:129-139 | For servers that share nothing: whatever happens to the package lists of any of them, and however two runs are scheduled, their summaries are equal |
| Reporting.CliBackup | src/proxmox_srvbackup/adapters/cli/commands/backup.py:115-164 | The command hands to the pool exactly the servers named by `--server`, as often and in the order they are configured, or all; it does so, and makes a summary, exactly when one is left, its settings are readable and the pool has a worker; it exits with 22 for an unknown name, with 1 for no servers or any error, with 0 for none, and else lets the exception out |
| Reporting.NamedPicks | src/proxmox_srvbackup/adapters/cli/commands/backup.py:121-122 | Filtering by name keeps exactly the places of the servers of that name, in order |
| Reporting.StatusSays | src/proxmox_srvbackup/adapters/cli/main.py:68-76 | Where a ValueError becomes 22: the status is 22 exactly when `--server` names none that is configured, a setting is not a number, or `max_parallel` is below 1; it is 0 exactly when workers ran and the subject is `[OK]` |
| Reporting.SubjectSays | src/proxmox_srvbackup/domain/behaviors.py:125-129 | The subject is `[OK]` exactly if no server failed, `[ERROR]` exactly if all of at least one did, `[WARNING]` exactly if some did and some did not |
| Reporting.ErrorsAreTrouble | src/proxmox_srvbackup/domain/models.py:65-76 | A result has errors exactly when its settings, its archive or its snapshot went wrong |
| Reporting.PackagesNeverDecide | src/proxmox_srvbackup/adapters/backup/orchestrator.py:129-139 | For one server the package lists change neither the result nor the snapshots |
| Reporting.FilteredTypeIsReportedOk | src/proxmox_srvbackup/adapters/backup/orchestrator.py:102-110 | A type left out by `--type` is reported as done, and as skipped only if the server has it disabled |
| Reporting.DryRunChangesNothing | src/proxmox_srvbackup/adapters/backup/zfs_backup.py:129-133 | A dry run changes neither world and has no errors |
| Reporting.FailedCounts | src/proxmox_srvbackup/domain/models.py:104-115 | `failed_servers` is empty, or everything, exactly when no server, or every server, has errors |
| Reporting.FailedAre | src/proxmox_srvbackup/domain/models.py:104-115 | It holds each result with errors as often as it is there, and no other |
| Reporting.SkippedTypesDoNotCount | src/proxmox_srvbackup/domain/models.py:65-76 | Whether a skipped type was done does not matter; a type that is not skipped and not done is an error, and nothing else is |
| Nesting.NestOverridesMeans | src/proxmox_srvbackup/adapters/config/overrides.py:196-202 | On any command line: refused exactly when an override is malformed, then with the first such, or else when one path is a proper prefix of another, never because nesting met a value; otherwise the tree holds at every path exactly what the values last given say, and the keys are the paths given |
| Nesting.NestOverridesIgnoresOrder | src/proxmox_srvbackup/adapters/config/overrides.py:196-202 | Command lines that agree on the order of each key's own overrides give the same tree and keys |
| Nesting.RunNestOverrides | src/proxmox_srvbackup/adapters/config/overrides.py:196-202 | The imperative `nest_overrides` equals its specification |
| Nesting.Tree.Nest | src/proxmox_srvbackup/adapters/config/overrides.py:147-152 | The cursor loop on the mutable tree succeeds exactly when the recursive specification does, and leaves its tree |
| Nesting.Tree.SetDefault | src/proxmox_srvbackup/adapters/config/overrides.py:147-151 | `setdefault` adds an empty table at the cursor or changes nothing |
| Nesting.DefaultDoesNotDecide | src/proxmox_srvbackup/adapters/config/overrides.py:147-151 | A table made on the way changes nothing about the rest of the nesting |
| Nesting.ParsedAll | src/proxmox_srvbackup/adapters/config/overrides.py:196 | Either every override parses or the first that does not is reported |
| Overrides.ParseUndoesRender | src/proxmox_srvbackup/adapters/config/overrides.py:67-88 | Parsing `path=text` gives back the path and the coerced text, whatever the text holds |
| Overrides.ParsedIsRendered | src/proxmox_srvbackup/adapters/config/overrides.py:67-88 | What parses is exactly such a string: at least two non-empty, dot-free and equals-free components |
| Overrides.RefusalSays | src/proxmox_srvbackup/adapters/config/overrides.py:67-82 | Which of the four messages a malformed override is refused with, in terms of its text |
| Overrides.RefusesIffPrefix | src/proxmox_srvbackup/adapters/config/overrides.py:171-174 | The check on dotted strings refuses exactly when one path is a proper prefix of another |
| Overrides.FirstConflictIsFirst | src/proxmox_srvbackup/adapters/config/overrides.py:171-174 | The conflict reported is that of the first key that has another below it, and names the first such |
| Overrides.NestAllMeans | src/proxmox_srvbackup/adapters/config/overrides.py:147-152 | For compatible overrides the fold never meets a value where it needs a table |
| Overrides.NestingNeverFails | src/proxmox_srvbackup/adapters/config/overrides.py:149-151 | The cast is safe at every step of the fold |
| Overrides.NestFailsIff | src/proxmox_srvbackup/adapters/config/overrides.py:147-152 | Nesting fails exactly when a proper prefix of the path already holds a value |
| Overrides.NestedView | src/proxmox_srvbackup/adapters/config/overrides.py:147-152 | Nesting changes what is seen at the path and below it, makes tables above it, and nothing else |
| Overrides.ViewsDetermine | src/proxmox_srvbackup/adapters/config/overrides.py:177-202 | A tree is determined by what is seen at its paths |
| Overrides.OrderIndependence | src/proxmox_srvbackup/adapters/config/overrides.py:199-202 | Only the order of overrides of one key matters to the tree |
| Text.PrefixTestIsPathTest | src/proxmox_srvbackup/adapters/config/overrides.py:171-174 | "Starts with the key and a dot" on joined dot-free components is "is a proper prefix" on paths |
| Text.JoinIsInjective | src/proxmox_srvbackup/adapters/config/overrides.py:197 | Joining dot-free components with dots is injective |
| Provenance.TruthfulIff | src/proxmox_srvbackup/adapters/config/overrides.py:243-249 | With a deep merge, the rebuilt map is truthful about a leaf exactly when the leaf is not inside a table given as a value; every key directly given anything but a table is a leaf, holds the value and says `cli`, every other leaf keeps its value, and its origin or none |
| Provenance.GivenSaysCli | src/proxmox_srvbackup/adapters/config/overrides.py:243-249 | A key directly given anything but a table holds that value after the merge and says `cli` |
| Provenance.Labels | src/proxmox_srvbackup/adapters/config/overrides.py:243-249 | Only leaves of the merged tree have an entry, and which one |
| Provenance.TableIsMislabelled | src/proxmox_srvbackup/adapters/config/overrides.py:243-249 | Giving a table for a key always leaves every value in it labelled as before |
| Provenance.DottedKeysAreLeaves | src/proxmox_srvbackup/adapters/config/overrides.py:219-224 | The walk yields exactly the dotted paths of the leaves |
| Provenance.MergeView | src/proxmox_srvbackup/adapters/config/overrides.py:289 | What a deep merge shows at every path |
| Provenance.RunRelabel | src/proxmox_srvbackup/adapters/config/overrides.py:243-249 | The filling loop, in any order of keys, builds the specified map |
| Provenance.RunApplyOverrides | src/proxmox_srvbackup/adapters/config/overrides.py:280-291 | Without overrides the configuration itself; with them a refusal exactly if one is malformed or two conflict, and otherwise at every path what was given or else what was there, and the label of every leaf without a dot in its keys |
| Provenance.AppliedMeans | src/proxmox_srvbackup/adapters/config/overrides.py:280-291 | The same of its specification |
| Console.SafeTextIsEncodable | src/proxmox_srvbackup/adapters/cli/safe_console.py:182-198 | For any text, a code page under any of the three handlers and any codec under strict and backslashreplace: the stream hands back every character of the result (under the last two: encodes it strictly), the result is the text exactly when the stream hands that back, keeps every printable character in order, and is a fixed point |
| Console.SafeTextDistributes | src/proxmox_srvbackup/adapters/cli/safe_console.py:182-198 | Encode-safe text distributes over concatenation, on the same streams |
| Console.EncodeSafeRewrites | src/proxmox_srvbackup/adapters/cli/safe_console.py:172-179 | Encoding to bytes with the fallback handler and decoding again is a rewriting character by character, on the same streams |
| Console.FallbackBytesAreStable | src/proxmox_srvbackup/adapters/cli/safe_console.py:172-179 | Writing what `ascii_fallback` returns never raises and writes the bytes its first encode produced, for a code page under any of the three handlers and for any codec under strict and backslashreplace |
| Console.SurrogateReachesTheStream | src/proxmox_srvbackup/adapters/cli/safe_console.py:85-90 | A lone surrogate anywhere in a text reaches a `surrogateescape` stream as its original byte |
| Console.Echo | src/proxmox_srvbackup/adapters/cli/safe_console.py:249-253 | Writing never raises and appends exactly those bytes, for a code page under any of the three handlers and for any codec under strict and backslashreplace |
| Console.DecodeUndoesEncode | src/proxmox_srvbackup/adapters/cli/safe_console.py:174-175 | Decoding undoes strict encoding for every prefix-free codec |
| Console.BytesSurvive | src/proxmox_srvbackup/adapters/cli/safe_console.py:174-175 | Any bytes survive decoding and encoding with `surrogateescape` |
| Console.AsciiFormIs | src/proxmox_srvbackup/adapters/cli/safe_console.py:43-65 | Which ASCII text each of the eighteen glyphs has, and that no other character has one |
| Console.GlyphsComeOutAs | src/proxmox_srvbackup/adapters/cli/safe_console.py:100-106 | On the same streams a glyph of the table that cannot be encoded comes out in its ASCII form, whatever the stream's own handler would write |
| Console.OthersComeOutAs | src/proxmox_srvbackup/adapters/cli/safe_console.py:76-90 | Any other comes out as `?` on a strict stream, spelled out on a backslash-escaping one, and on a `surrogateescape` one as its byte or as `?` |
| Console.FallbackNeverRaises | src/proxmox_srvbackup/adapters/cli/safe_console.py:172-179 | For every stateless codec `ascii_fallback` returns, and when the bytes of its first encode cannot be read back the text is rewritten as for a strict stream |
| Console.SpellingReadsBack | src/proxmox_srvbackup/adapters/cli/safe_console.py:87-90 | A spelled-out character is `\xNN`, `\uNNNN` or `\UNNNNNNNN` by its size, in lower-case digits that are its code point |
| Logging.WhatCallsLeave | src/proxmox_srvbackup/adapters/logging/setup.py:298-309 | Over any sequence of calls, however each start of each ends: the `.env` files of the calls up to the first that gets logging to run are loaded and no other, and what runs is what that call started, without the `LOG_*` variables only if the defaults were refused with them |
| Logging.RunsUnlessEscaped | src/proxmox_srvbackup/adapters/logging/setup.py:298-309 | After a normal return or an InvalidLoggingConfigError the runtime is running; after any other exception it is not |
| Logging.EveryExitLeavesTheEnvironment | src/proxmox_srvbackup/adapters/logging/setup.py:300-309 | On every exit the environment is the one before plus the absent `LOG_*` lines, the hidden variables put back |
| Logging.LoadedIs | src/proxmox_srvbackup/adapters/logging/setup.py:215-217 | Exactly the absent `LOG_*` lines with a value are added, nothing is replaced or removed |
| Logging.RefusalIsReportedOnce | src/proxmox_srvbackup/adapters/logging/setup.py:298-309 | Of any sequence of calls, all after one that started logging return at once and change nothing, so a refused configuration is reported at most once, and only after calls that all escaped |
| Logging.ReportsIff | src/proxmox_srvbackup/adapters/logging/setup.py:298-309 | A call of a sequence reports its configuration exactly when no earlier call got logging to run, its own section is refused and the defaults start |
| Logging.OnlyTheFirstReportsIff | src/proxmox_srvbackup/adapters/logging/setup.py:276-277 | No call but the first reports exactly unless the first call that gets logging to run is a later one and does so with the defaults |
| Logging.LaterCallsReturnIff | src/proxmox_srvbackup/adapters/logging/setup.py:276-277 | Every later call returns exactly when the first call gets logging to run or the second does so with its own section |
| Logging.LaterCallCanReport | src/proxmox_srvbackup/adapters/logging/setup.py:301-309 | A second call reports its configuration whenever the first did not get logging to run: the shortest such sequence |
| Logging.LaterCallsDoNothing | src/proxmox_srvbackup/adapters/logging/setup.py:298-299 | Once logging runs no sequence of calls changes anything |
| Logging.CallsOnlyAddLog | src/proxmox_srvbackup/adapters/logging/setup.py:298-309 | Over any sequence of calls, however each ends, no variable is replaced and only `LOG_*` ones are added |
| Logging.NearestDotenv | src/proxmox_srvbackup/adapters/logging/setup.py:170-199 | The chosen `.env` is the first on the way up with no project root before it, and there is none only if a project root cuts off every one |
| Logging.Process.LoadLogVariables | src/proxmox_srvbackup/adapters/logging/setup.py:215-217 | The loop loads as specified |
| Logging.Process.HideLogVariables | src/proxmox_srvbackup/adapters/logging/setup.py:232-234 | The loop removes every variable that starts with `LOG_` and no other, and what it returns, exactly those, restores the environment |
| Logging.Process.StartDefaultLogging | src/proxmox_srvbackup/adapters/logging/setup.py:248-253 | Defaults with the variables, and only if those are refused without them, the environment restored either way |
| Logging.Process.RunInitLogging | src/proxmox_srvbackup/adapters/logging/setup.py:298-309 | `init_logging` equals its specification on the environment, the runtime and the exception |

## Left out

- Snapshots.Create: what `zfs` does beyond recursive create and destroy, holds, clones and quotas included.
- Snapshots.Listed: names with blanks or `@` in them; the listing is taken as parsed, and `grep` as the tag test it amounts to.
- Disk.Store.PipeToFile: an `unlink` that itself fails after a non-zero exit, and `stat` failing on the file just written.
- Names.LexicographicIsChronological: years below 1000, which `strftime` does not pad everywhere, and clocks that go back.
- Confluence.EveryScheduleIsSequential: servers that take snapshots on one machine, where the cleanup of one destroys the snapshot another is streaming; what holds for them is in Incidents, Schedules and EndToEnd.OutcomeAgrees.
- EndToEnd.PackagesNeverReported: servers that take snapshots on one machine, where the schedule alone can already change the outcome.
- Schedules.NeverStalls: a pool of no workers; the executor raises instead, see Reporting.CliBackup.
- Effects.BackupLeaves: server names with a slash and ZFS names that start with one or climb, whose files can leave the server's own directory.
- Paths.SnapshotTarget: symbolic links, and names with parent directories in them.
- Console.FallbackBytesAreStable: `surrogateescape` on a multi-byte codec, where neighbouring raw bytes can decode to one character, and byte-order marks.
- Console.Decode: handlers other than strict, backslashreplace and surrogateescape, and the registry of handler names.
- Provenance.TruthfulIff: leaves whose own keys hold a dot, which share a dotted key with another path, and configurations already overridden once.
- Nesting.Tree.Nest: identity of the dict objects; the cursor is the path to the table it points at, so aliasing of a table given as a value is not seen.
- Logging.Process.LoadLogVariables: reading and expanding the `.env` (its lines are given), and a value the operating system refuses.
- Reporting.CliBackup: reading the server section, the dry-run listing, the report text and sending the mail.
- A transfer is one step: the partly written file it shows meanwhile is not modelled.
- Error texts are kept as the kind of exception they come from; durations are left out.
- A configured number that is not one is a single fault before a server's backup starts; which number it was is not kept.
- Key deployment (`setup_keys.py`), which appends to a remote file at most once when its check is truthful: easier than the rest.
- SSH, subprocess, tar, gzip and dpkg themselves; Click wiring, help, display, the email section, config deploy and the in-memory doubles.
- `lib_layered_config`, `lib_log_rich`, `btx_lib_mail`, pydantic and orjson are not part of this model beyond the assumptions above.
