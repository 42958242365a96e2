/** Which ZFS streams stay on the disk: retention of the `snapshots` directory, and where it does not reach. */
module Streams {
  import opened Names
  import opened Outcomes
  import opened Paths
  import opened Retention
  import opened Disk
  import opened Models
  import opened Archives
  import opened Snapshots
  import opened Lifecycle

  function StreamName(s: ServerConfig, pool: string, t: Moment): string {
    BuildSnapshotFilename(s.name, pool, BuildTimestamp(t))
  }

  function StreamFolder(s: ServerConfig, st: BackupSettings, dirs: Dirs): Folder {
    Listing(dirs, SnapshotsDir(st.baseDir, s.name))
  }

  lemma StreamLandsInPlace(s: ServerConfig, st: BackupSettings, o: ZfsOracle)
    requires '/' !in s.name && PoolOf([s.zfsPool], s.zfsPool)
    ensures StreamTarget(s, st, o.at) == SnapshotsDir(st.baseDir, s.name) + [StreamName(s, s.zfsPool, o.at)]
  {
    SnapshotTarget(st.baseDir, s.name, s.zfsPool, [s.zfsPool], o.at);
  }

  /**
   * Every name ever in the family after a run: the run's own is one exactly if it got to the transfer and that
   * left a file.
   */
  function EverAfterRun(s: ServerConfig, st: BackupSettings, o: ZfsOracle, m: Machine, folder: Folder,
                        ever: set<string>): set<string>
  {
    if ReportedCreated(s, o, m) then EverAfter(folder, StreamName(s, s.zfsPool, o.at), OfTransfer(o.send), ever)
      else ever
  }

  function Pruning(s: ServerConfig, st: BackupSettings, o: ZfsOracle, dirs: Dirs): Ended {
    PruneIn(dirs, SnapshotsDir(st.baseDir, s.name), SNAPSHOT_PATTERN, st.zfsRetention, o.stuck)
  }

  lemma CreatedOrNot(s: ServerConfig, st: BackupSettings, o: ZfsOracle, m: Machine,
                     dirs: Dirs) returns (created: Machine)
    ensures var run := BackupZfs(s, st, o, false, m, dirs);
            if ReportedCreated(s, o, m) then run == StreamAndDestroy(s, st, o, created, dirs)
            else run.dirs == dirs && run.result.Raised?
  {
    created := Create(Cleanup(m, o).machine, OwnSnap(s, o.at), o.create).machine;
  }

  lemma AfterCreation(s: ServerConfig, st: BackupSettings, o: ZfsOracle, created: Machine, dirs: Dirs)
    ensures var run := StreamAndDestroy(s, st, o, created, dirs);
            var sent := Stream(s, st, o, dirs);
            && (run.dirs == sent.dirs || (sent.result.Done? && run.dirs == Pruning(s, st, o, sent.dirs).dirs))
            && (run.result.Done? ==>
                && sent.result.Done? && run.dirs == Pruning(s, st, o, sent.dirs).dirs
                && Pruning(s, st, o, sent.dirs).result.Done?)
  {
  }

  /** The three things a run can do to the disk: nothing, write only, or write and prune. */
  lemma LocalOutcomes(s: ServerConfig, st: BackupSettings, o: ZfsOracle, m: Machine, dirs: Dirs)
    ensures var run := BackupZfs(s, st, o, false, m, dirs);
            var sent := Stream(s, st, o, dirs);
            && (!ReportedCreated(s, o, m) ==> run.dirs == dirs && run.result.Raised?)
            && (ReportedCreated(s, o, m) ==>
               run.dirs == sent.dirs || (sent.result.Done? && run.dirs == Pruning(s, st, o, sent.dirs).dirs))
            && (run.result.Done? ==>
                && sent.result.Done? && run.dirs == Pruning(s, st, o, sent.dirs).dirs
                && Pruning(s, st, o, sent.dirs).result.Done?)
  {
    var created := CreatedOrNot(s, st, o, m, dirs);
    AfterCreation(s, st, o, created, dirs);
  }

  /** Where the stream of a run goes, whatever the configured dataset is called. */
  function StreamPath(s: ServerConfig, st: BackupSettings, t: Moment): Path {
    Into(SnapshotsDir(st.baseDir, s.name), s.zfsPool + "_snapshot_" + s.name + "_" + BuildTimestamp(t) + ".zfs.gz")
  }

  /** The directory that is pruned, once the whole stream was written. */
  function FolderWithStream(s: ServerConfig, st: BackupSettings, t: Moment, data: string, dirs: Dirs): Folder {
    var target := StreamPath(s, st, t);
    StreamFolder(s, st, Put(dirs, Parent(target), Listing(dirs, Parent(target))[FileName(target) := File(data)]))
  }

  lemma StreamEnds(s: ServerConfig, st: BackupSettings, o: ZfsOracle, dirs: Dirs)
    ensures var sent, target := Stream(s, st, o, dirs), StreamPath(s, st, o.at);
            if o.send.Unopened? || Blocked(Listing(dirs, Parent(target)), FileName(target)) then
              sent.result == Raised(OsFault)
            else if o.send.NotStarted? || o.send.code != 0 then sent.result == Raised(SnapshotFault)
            else sent.result == Done(()) && StreamFolder(s, st, sent.dirs) == FolderWithStream(s, st, o.at, o.send.data,
                                                                                               dirs)
  {
    assert StreamTarget(s, st, o.at) == StreamPath(s, st, o.at);
  }

  lemma PruningEnds(s: ServerConfig, st: BackupSettings, o: ZfsOracle, dirs: Dirs)
    ensures Pruning(s, st, o, dirs).result ==
              Plainly(Prune(StreamFolder(s, st, dirs), SNAPSHOT_PATTERN, st.zfsRetention, o.stuck).result)
  {
  }

  /** How the part after the create ends. */
  lemma CreatedRunEnds(s: ServerConfig, st: BackupSettings, o: ZfsOracle, created: Machine, dirs: Dirs)
    ensures var sent := Stream(s, st, o, dirs);
            StreamAndDestroy(s, st, o, created, dirs).result ==
            if o.destroy.Garbled? then Raised(DecodeFault)
            else if sent.result.Raised? then sent.result
            else Pruning(s, st, o, sent.dirs).result
  {
  }

  /** What the part after the create raises, or that it raises nothing, by what it meets. */
  function EndOfSending(s: ServerConfig, st: BackupSettings, o: ZfsOracle, dirs: Dirs): Result<()> {
    var target := StreamPath(s, st, o.at);
    if o.destroy.Garbled? then Raised(DecodeFault)
    else if o.send.Unopened? || Blocked(Listing(dirs, Parent(target)), FileName(target)) then Raised(OsFault)
    else if o.send.NotStarted? || o.send.code != 0 then Raised(SnapshotFault)
    else Plainly(Prune(FolderWithStream(s, st, o.at, o.send.data, dirs), SNAPSHOT_PATTERN, st.zfsRetention,
                       o.stuck).result)
  }

  lemma CreatedRunEndsAs(s: ServerConfig, st: BackupSettings, o: ZfsOracle, created: Machine, dirs: Dirs)
    ensures StreamAndDestroy(s, st, o, created, dirs).result == EndOfSending(s, st, o, dirs)
  {
    CreatedRunEnds(s, st, o, created, dirs);
    StreamEnds(s, st, o, dirs);
    PruningEnds(s, st, o, Stream(s, st, o, dirs).dirs);
  }

  /** Where a run stops before it has a snapshot, if it does. */
  function EndOfCreating(s: ServerConfig, o: ZfsOracle, m: Machine): Option<Fault> {
    if Cleanup(m, o).status.Unreadable? || o.create.Garbled? then Some(DecodeFault)
    else if !Succeeds(o.create) || s.zfsPool !in m.datasets || !(Due(s, o.at, m) !! Cleanup(m, o).machine.snaps) then
      Some(SnapshotFault)
    else None
  }

  lemma CreatingEndsAs(s: ServerConfig, o: ZfsOracle, m: Machine)
    ensures var cleaned := Cleanup(m, o);
            var created := Create(cleaned.machine, OwnSnap(s, o.at), o.create);
            EndOfCreating(s, o, m) ==
            if cleaned.status.Unreadable? then Some(DecodeFault)
            else if created.status.Good? then None
            else Some(if created.status.Failed? then SnapshotFault else DecodeFault)
  {
    CreatesWhatIsDue(s, o, m);
  }

  /**
   * A run ends as what it meets says: the first step that fails decides, but a last destroy whose output
   * is not text takes the place of a failed transfer.
   */
  lemma RunEndsAs(s: ServerConfig, st: BackupSettings, o: ZfsOracle, m: Machine, dirs: Dirs)
    ensures BackupZfs(s, st, o, false, m, dirs).result ==
            match EndOfCreating(s, o, m)
            case Some(fault) => Raised(fault)
            case None => EndOfSending(s, st, o, dirs)
  {
    var cleaned := Cleanup(m, o);
    var created := Create(cleaned.machine, OwnSnap(s, o.at), o.create);
    BackupZfsIs(s, st, o, m, dirs, cleaned, created);
    CreatingEndsAs(s, o, m);
    CreatedRunEndsAs(s, st, o, created.machine, dirs);
  }

  /** No stream that retention wants to delete is stuck. */
  ghost predicate NoneStuck(folder: Folder, keep: int, stuck: set<string>) {
    var family := Matches(folder, SNAPSHOT_PATTERN);
    (family - Newest(family, keep)) !! stuck
  }

  lemma PruningSucceedsIff(folder: Folder, keep: int, stuck: set<string>)
    ensures Plainly(Prune(folder, SNAPSHOT_PATTERN, keep, stuck).result).Done? <==> NoneStuck(folder, keep, stuck)
  {
    PruneIsExact(folder, SNAPSHOT_PATTERN, keep, stuck);
  }

  lemma SendingSucceedsIff(s: ServerConfig, st: BackupSettings, o: ZfsOracle, dirs: Dirs)
    ensures var target := StreamPath(s, st, o.at);
            EndOfSending(s, st, o, dirs).Done? <==>
            && o.send.Exited? && o.send.code == 0 && !Blocked(Listing(dirs, Parent(target)), FileName(target))
            && !o.destroy.Garbled?
            && NoneStuck(FolderWithStream(s, st, o.at, o.send.data, dirs), st.zfsRetention, o.stuck)
  {
    if o.send.Exited? {
      PruningSucceedsIff(FolderWithStream(s, st, o.at, o.send.data, dirs), st.zfsRetention, o.stuck);
    }
  }

  lemma CreatingSucceedsIff(s: ServerConfig, o: ZfsOracle, m: Machine)
    ensures EndOfCreating(s, o, m).None? <==>
            && !Cleanup(m, o).status.Unreadable?
            && Succeeds(o.create) && s.zfsPool in m.datasets && Due(s, o.at, m) !! Cleanup(m, o).machine.snaps
  {
  }

  /** So it succeeds exactly when every command works, nothing is in the way, and no stream to be deleted is stuck. */
  lemma RunSucceedsExactly(s: ServerConfig, st: BackupSettings, o: ZfsOracle, m: Machine, dirs: Dirs)
    ensures var target := StreamPath(s, st, o.at);
            BackupZfs(s, st, o, false, m, dirs).result.Done? <==>
            && !Cleanup(m, o).status.Unreadable?
            && Succeeds(o.create) && s.zfsPool in m.datasets && Due(s, o.at, m) !! Cleanup(m, o).machine.snaps
            && o.send.Exited? && o.send.code == 0 && !Blocked(Listing(dirs, Parent(target)), FileName(target))
            && !o.destroy.Garbled?
            && NoneStuck(FolderWithStream(s, st, o.at, o.send.data, dirs), st.zfsRetention, o.stuck)
  {
    RunEndsAs(s, st, o, m, dirs);
    CreatingSucceedsIff(s, o, m);
    SendingSucceedsIff(s, st, o, dirs);
  }

  lemma WriteThenPrune(s: ServerConfig, st: BackupSettings, o: ZfsOracle, dirs: Dirs)
    requires '/' !in s.name && PoolOf([s.zfsPool], s.zfsPool)
    ensures var sent := Stream(s, st, o, dirs);
            var change := Apply(StreamFolder(s, st, dirs), StreamName(s, s.zfsPool, o.at), OfTransfer(o.send));
            var pruned := Prune(change.folder, SNAPSHOT_PATTERN, st.zfsRetention, o.stuck);
            && StreamFolder(s, st, sent.dirs) == change.folder
            && (sent.result.Done? <==> change.result.Done?)
            && StreamFolder(s, st, Pruning(s, st, o, sent.dirs).dirs) == pruned.folder
            && Pruning(s, st, o, sent.dirs).result == Plainly(pruned.result)
  {
    var dir, name := SnapshotsDir(st.baseDir, s.name), StreamName(s, s.zfsPool, o.at);
    StreamLandsInPlace(s, st, o);
    assert Parent(dir + [name]) == dir && FileName(dir + [name]) == name;
    var change := Apply(Listing(dirs, dir), name, OfTransfer(o.send));
    ListingAfterPut(dirs, dir, change.folder);
    ListingAfterPut(Put(dirs, dir, change.folder), dir,
      Prune(change.folder, SNAPSHOT_PATTERN, st.zfsRetention, o.stuck).folder);
  }

  lemma StreamOutcomes(s: ServerConfig, st: BackupSettings, o: ZfsOracle, m: Machine, dirs: Dirs)
    requires '/' !in s.name && PoolOf([s.zfsPool], s.zfsPool)
    ensures var run := BackupZfs(s, st, o, false, m, dirs);
            var folder, after := StreamFolder(s, st, dirs), StreamFolder(s, st, run.dirs);
            var kept := Keep(folder, StreamName(s, s.zfsPool, o.at), OfTransfer(o.send), SNAPSHOT_PATTERN,
              st.zfsRetention, o.stuck);
            && (!ReportedCreated(s, o, m) ==> after == folder && run.result.Raised?)
            && (ReportedCreated(s, o, m) ==>
                after == Apply(folder, StreamName(s, s.zfsPool, o.at), OfTransfer(o.send)).folder ||
                  after == kept.folder)
            && (run.result.Done? ==> after == kept.folder && kept.result.Done?)
  {
    LocalOutcomes(s, st, o, m, dirs);
    if ReportedCreated(s, o, m) {
      WriteThenPrune(s, st, o, dirs);
    }
  }

  /**
   * A run alters no entry: what is in the directory afterwards was there before, or is its own stream as it
   * wrote it.
   */
  lemma StreamsHold(s: ServerConfig, st: BackupSettings, o: ZfsOracle, m: Machine, dirs: Dirs)
    requires '/' !in s.name && PoolOf([s.zfsPool], s.zfsPool)
    ensures var folder := StreamFolder(s, st, dirs);
            var after := StreamFolder(s, st, BackupZfs(s, st, o, false, m, dirs).dirs);
            forall n :: HeldOrSent(folder, after, StreamName(s, s.zfsPool, o.at), o.send, n)
  {
    var folder, name := StreamFolder(s, st, dirs), StreamName(s, s.zfsPool, o.at);
    var after := StreamFolder(s, st, BackupZfs(s, st, o, false, m, dirs).dirs);
    StreamOutcomes(s, st, o, m, dirs);
    forall n ensures HeldOrSent(folder, after, name, o.send, n) {
      KeepHoldsTransfers(folder, name, o.send, SNAPSHOT_PATTERN, st.zfsRetention, o.stuck, n);
    }
  }

  /**
   * A pool without a slash: through every run, whatever fails in it, at least the newest `keep` of all
   * streams ever written stay and nothing else appears; after a successful run exactly those are there,
   * the run's own among those written; a run whose transfer leaves no file leaves the streams as they were.
   */
  lemma StreamsAreTracked(s: ServerConfig, st: BackupSettings, o: ZfsOracle, m: Machine, dirs: Dirs, ever: set<string>)
    requires '/' !in s.name && PoolOf([s.zfsPool], s.zfsPool)
    requires Tracks(StreamFolder(s, st, dirs), SNAPSHOT_PATTERN, ever, st.zfsRetention)
    requires StreamName(s, s.zfsPool, o.at) !in ever
    ensures var folder := StreamFolder(s, st, dirs);
            var run := BackupZfs(s, st, o, false, m, dirs);
            var after := StreamFolder(s, st, run.dirs);
            var everAfter := EverAfterRun(s, st, o, m, folder, ever);
            && Tracks(after, SNAPSHOT_PATTERN, everAfter, st.zfsRetention)
            && (run.result.Done? ==>
                Matches(after, SNAPSHOT_PATTERN) == Newest(everAfter, st.zfsRetention) &&
                  StreamName(s, s.zfsPool, o.at) in everAfter)
            && (everAfter == ever ==> SameFamily(folder, after, SNAPSHOT_PATTERN))
  {
    var dir, name, w := SnapshotsDir(st.baseDir, s.name), StreamName(s, s.zfsPool, o.at), OfTransfer(o.send);
    var folder := Listing(dirs, dir);
    var run := BackupZfs(s, st, o, false, m, dirs);
    OwnPatternFindsIt(s.name, s.zfsPool, "", BuildTimestamp(o.at));
    StreamOutcomes(s, st, o, m, dirs);
    KeepTracks(folder, name, w, SNAPSHOT_PATTERN, st.zfsRetention, o.stuck, ever);
    TracksThroughWriting(folder, name, w, SNAPSHOT_PATTERN, st.zfsRetention, ever);
    StreamsHold(s, st, o, m, dirs);
  }

  function NestedDir(s: ServerConfig, st: BackupSettings, components: seq<string>): Path
    requires |components| >= 1
  {
    SnapshotsDir(st.baseDir, s.name) + components[..|components| - 1]
  }

  lemma NestedWrite(s: ServerConfig, st: BackupSettings, o: ZfsOracle, dirs: Dirs, components: seq<string>)
    requires '/' !in s.name && PoolOf(components, s.zfsPool) && |components| >= 2
    ensures var directory := NestedDir(s, st, components);
            var change := Apply(Listing(dirs, directory), StreamName(s, components[|components| - 1], o.at),
              OfTransfer(o.send));
            var sent := Stream(s, st, o, dirs);
            && Listing(sent.dirs, directory) == change.folder
            && (sent.result.Done? <==> change.result.Done?)
            && Listing(Pruning(s, st, o, sent.dirs).dirs, directory) == change.folder
  {
    var directory := NestedDir(s, st, components);
    var name := StreamName(s, components[|components| - 1], o.at);
    SnapshotTarget(st.baseDir, s.name, s.zfsPool, components, o.at);
    assert StreamTarget(s, st, o.at) == directory + [name];
    assert Parent(directory + [name]) == directory && FileName(directory + [name]) == name;
    assert |directory| > |SnapshotsDir(st.baseDir, s.name)|;
    var sent := Stream(s, st, o, dirs);
    ListingAfterPut(dirs, directory, Apply(Listing(dirs, directory), name, OfTransfer(o.send)).folder);
    ListingAfterPut(sent.dirs, SnapshotsDir(st.baseDir, s.name),
                    Prune(StreamFolder(s, st, sent.dirs), SNAPSHOT_PATTERN, st.zfsRetention, o.stuck).folder);
  }

  /** Every entry but `name` is still there, unchanged. */
  ghost predicate OnlyAdds(before: Folder, after: Folder, name: string) {
    forall n :: n in before && n != name ==> n in after && after[n] == before[n]
  }

  lemma WriteOnlyAdds(folder: Folder, name: string, w: Write)
    ensures OnlyAdds(folder, folder, name) && OnlyAdds(folder, Apply(folder, name, w).folder, name)
    ensures Apply(folder, name, w).result.Done? ==> name in Apply(folder, name, w).folder
  {
  }

  /**
   * A configured name with a slash puts the stream in a directory of its own, where retention never
   * looks: no run, successful or not, ever removes an older stream, whatever the retention count.
   */
  lemma NestedPoolIsNeverPruned(s: ServerConfig, st: BackupSettings, o: ZfsOracle, m: Machine, dirs: Dirs,
                                components: seq<string>)
    requires '/' !in s.name && PoolOf(components, s.zfsPool) && |components| >= 2
    ensures var name := StreamName(s, components[|components| - 1], o.at);
            var before := Listing(dirs, NestedDir(s, st, components));
            var run := BackupZfs(s, st, o, false, m, dirs);
            var after := Listing(run.dirs, NestedDir(s, st, components));
            OnlyAdds(before, after, name) && (run.result.Done? ==> name in after)
  {
    var name := StreamName(s, components[|components| - 1], o.at);
    var directory := NestedDir(s, st, components);
    LocalOutcomes(s, st, o, m, dirs);
    NestedWrite(s, st, o, dirs, components);
    WriteOnlyAdds(Listing(dirs, directory), name, OfTransfer(o.send));
  }
}
