/** adapters/backup/config_backup.py and packages_backup.py: three families of files in one directory. */
module Archives {
  import opened Text
  import opened Names
  import opened Paths
  import opened Outcomes
  import opened Retention
  import opened Disk
  import opened Models

  datatype Ended = Ended(dirs: Dirs, result: Result<()>)

  /** One family of one run: what is written where, and what is then pruned. */
  datatype Task = Task(directory: Path, target: Path, write: Write, pattern: string, keep: int, stuck: set<string>)

  function Written(t: Task, dirs: Dirs): Ended {
    var change := Apply(Listing(dirs, Parent(t.target)), FileName(t.target), t.write);
    Ended(Put(dirs, Parent(t.target), change.folder), change.result)
  }

  /** The list of deleted files is not used by any caller. */
  function Plainly<T>(r: Result<T>): Result<()> {
    if r.Done? then Done(()) else Raised(r.fault)
  }

  function PruneIn(dirs: Dirs, directory: Path, pattern: string, keep: int, stuck: set<string>): Ended {
    var pruned := Prune(Listing(dirs, directory), pattern, keep, stuck);
    Ended(Put(dirs, directory, pruned.folder), Plainly(pruned.result))
  }

  /** Write the family's file, then prune the family. */
  function Archive(t: Task, dirs: Dirs): Ended {
    var written := Written(t, dirs);
    if written.result.Raised? then written else PruneIn(written.dirs, t.directory, t.pattern, t.keep, t.stuck)
  }

  /** What the two backups of the `configs` directory meet in one run. */
  datatype ConfigsOracle = ConfigsOracle(
    configAt: Moment, config: Transfer, configStuck: set<string>,
    packagesAt: Moment, selections: Capture, selectionsStuck: set<string>, list: Capture, listStuck: set<string>)

  function ConfigTask(s: ServerConfig, st: BackupSettings, o: ConfigsOracle): Task {
    var directory := ConfigsDir(st.baseDir, s.name);
    Task(directory, Into(directory, BuildConfigFilename(s.name, BuildTimestamp(o.configAt))),
         OfTransfer(o.config), CONFIG_PATTERN, st.configRetention, o.configStuck)
  }

  function DumpTask(s: ServerConfig, st: BackupSettings, at: Moment, suffix: string, c: Capture,
                    stuck: set<string>): Task
  {
    var directory := ConfigsDir(st.baseDir, s.name);
    Task(directory, Into(directory, BuildPackagesFilename(s.name, BuildTimestamp(at), suffix)),
         OfCapture(c), PackagesPattern(suffix), st.packagesRetention, stuck)
  }

  function BackupConfig(s: ServerConfig, st: BackupSettings, o: ConfigsOracle, dryRun: bool, dirs: Dirs): Ended {
    if dryRun then Ended(dirs, Done(())) else Archive(ConfigTask(s, st, o), dirs)
  }

  function SavePackageDump(s: ServerConfig, st: BackupSettings, at: Moment, suffix: string,
                           c: Capture, stuck: set<string>, dryRun: bool, dirs: Dirs): Ended
  {
    if dryRun then Ended(dirs, Done(())) else Archive(DumpTask(s, st, at, suffix, c, stuck), dirs)
  }

  function BackupPackages(s: ServerConfig, st: BackupSettings, o: ConfigsOracle, dryRun: bool, dirs: Dirs): Ended {
    var first := SavePackageDump(s, st, o.packagesAt, SELECTIONS, o.selections, o.selectionsStuck, dryRun, dirs);
    if first.result.Raised? then first
    else SavePackageDump(s, st, o.packagesAt, LIST, o.list, o.listStuck, dryRun, first.dirs)
  }

  method RunBackupConfig(s: ServerConfig, st: BackupSettings, o: ConfigsOracle, dryRun: bool, store: Store)
    returns (r: Result<()>)
    modifies store
    ensures Ended(store.dirs, r) == BackupConfig(s, st, o, dryRun, old(store.dirs))
  {
    var filename := BuildConfigFilename(s.name, BuildTimestamp(o.configAt));
    var destDir := ConfigsDir(st.baseDir, s.name);
    if dryRun {
      return Done(());
    }
    var target := Into(destDir, filename);
    r := store.PipeToFile(target, o.config);
    TransferIs(Listing(old(store.dirs), Parent(target)), FileName(target), o.config,
      Listing(store.dirs, Parent(target)), r);
    if r.Done? {
      var deleted := store.ApplyRetention(destDir, CONFIG_PATTERN, st.configRetention, o.configStuck);
      r := Plainly(deleted);
    }
  }

  method RunSavePackageDump(s: ServerConfig, st: BackupSettings, at: Moment, suffix: string,
                            c: Capture, stuck: set<string>, dryRun: bool, store: Store)
    returns (r: Result<()>)
    modifies store
    ensures Ended(store.dirs, r) == SavePackageDump(s, st, at, suffix, c, stuck, dryRun, old(store.dirs))
  {
    var filename := BuildPackagesFilename(s.name, BuildTimestamp(at), suffix);
    var destDir := ConfigsDir(st.baseDir, s.name);
    if dryRun {
      return Done(());
    }
    var target := Into(destDir, filename);
    r := store.SaveText(target, c);
    CaptureIs(Listing(old(store.dirs), Parent(target)), FileName(target), c, Listing(store.dirs, Parent(target)), r);
    if r.Done? {
      var deleted := store.ApplyRetention(destDir, PackagesPattern(suffix), st.packagesRetention, stuck);
      r := Plainly(deleted);
    }
  }

  method RunBackupPackages(s: ServerConfig, st: BackupSettings, o: ConfigsOracle, dryRun: bool, store: Store)
    returns (r: Result<()>)
    modifies store
    ensures Ended(store.dirs, r) == BackupPackages(s, st, o, dryRun, old(store.dirs))
  {
    var dumps := [(SELECTIONS, o.selections, o.selectionsStuck), (LIST, o.list, o.listStuck)];
    r := Done(());
    var i := 0;
    while i < 2 && r.Done?
      invariant 0 <= i <= 2
      invariant i == 0 ==> Ended(store.dirs, r) == Ended(old(store.dirs), Done(()))
      invariant i == 1 ==> Ended(store.dirs, r) ==
                           SavePackageDump(s, st, o.packagesAt, SELECTIONS, o.selections, o.selectionsStuck, dryRun,
                             old(store.dirs))
      invariant i == 2 ==> Ended(store.dirs, r) == BackupPackages(s, st, o, dryRun, old(store.dirs))
      decreases 2 - i
    {
      r := RunSavePackageDump(s, st, o.packagesAt, dumps[i].0, dumps[i].1, dumps[i].2, dryRun, store);
      i := i + 1;
    }
  }

  // ---------------------------------------------------------------- one directory, one family

  /** `Archive` seen from its directory, when the file lands in it. */
  function Keep(folder: Folder, name: string, w: Write, pattern: string, keep: int, stuck: set<string>): Change {
    var change := Apply(folder, name, w);
    if change.result.Raised? then change
    else
      var pruned := Prune(change.folder, pattern, keep, stuck);
      Change(pruned.folder, Plainly(pruned.result))
  }

  lemma ArchiveInPlace(t: Task, name: string, dirs: Dirs)
    requires t.target == t.directory + [name]
    ensures var k := Keep(Listing(dirs, t.directory), name, t.write, t.pattern, t.keep, t.stuck);
            Archive(t, dirs) == Ended(Put(dirs, t.directory, k.folder), k.result)
  {
    var directory := t.directory;
    var change := Apply(Listing(dirs, directory), name, t.write);
    assert Parent(directory + [name]) == directory && FileName(directory + [name]) == name;
    ListingAfterPut(dirs, directory, change.folder);
    PutTwice(dirs, directory, change.folder, Prune(change.folder, t.pattern, t.keep, t.stuck).folder);
  }

  /** Of all files `ever` written to a family, at least the newest `keep` are there, and nothing else is. */
  ghost predicate Tracks(folder: Folder, pattern: string, ever: set<string>, keep: int) {
    Newest(ever, keep) <= Matches(folder, pattern) <= ever
  }

  function EverAfter(folder: Folder, name: string, w: Write, ever: set<string>): set<string> {
    if Lands(folder, name, w) then ever + {name} else ever
  }

  lemma NewestAmongMore(ever: set<string>, name: string, k: int)
    ensures Newest(ever + {name}, k) <= Newest(ever, k) + {name}
  {
    forall x | x in Newest(ever + {name}, k) && x in ever ensures x in Newest(ever, k) {
      SubsetSize(Newer(ever, x), Newer(ever + {name}, x));
    }
  }

  lemma WrittenFamily(folder: Folder, name: string, w: Write, pattern: string)
    requires Glob(pattern, name)
    ensures Matches(Apply(folder, name, w).folder, pattern) ==
            if Lands(folder, name, w) then Matches(folder, pattern) + {name}
            else if w.Withdrawn? then Matches(folder, pattern) - {name} else Matches(folder, pattern)
  {
  }

  lemma TracksThroughPruning(ever: set<string>, family: set<string>, left: set<string>, keep: int, stuck: set<string>,
                             r: Result<seq<string>>)
    requires Newest(ever, keep) <= family <= ever && Exact(family, left, keep, stuck, r)
    ensures Newest(ever, keep) <= left <= ever
    ensures r.Done? ==> left == Newest(ever, keep)
  {
    NewestIsStable(ever, family, keep);
  }

  lemma TracksThroughWriting(folder: Folder, name: string, w: Write, pattern: string, keep: int, ever: set<string>)
    requires Tracks(folder, pattern, ever, keep) && name !in ever && Glob(pattern, name)
    ensures var family := Matches(Apply(folder, name, w).folder, pattern);
            && Newest(EverAfter(folder, name, w, ever), keep) <= family <= EverAfter(folder, name, w, ever)
            && (!Lands(folder, name, w) ==> family == Matches(folder, pattern))
  {
    WrittenFamily(folder, name, w, pattern);
    NewestAmongMore(ever, name, keep);
  }

  /**
   * One run of one family, whatever goes wrong in it, keeps the tracking; a successful one leaves exactly the
   * newest.
   */
  lemma KeepTracks(folder: Folder, name: string, w: Write, pattern: string, keep: int, stuck: set<string>,
                   ever: set<string>)
    requires Tracks(folder, pattern, ever, keep) && name !in ever && Glob(pattern, name)
    ensures var after := Keep(folder, name, w, pattern, keep, stuck);
            var everAfter := EverAfter(folder, name, w, ever);
            && Tracks(after.folder, pattern, everAfter, keep)
            && (after.result.Done? ==> name in everAfter && Matches(after.folder, pattern) == Newest(everAfter, keep))
            && (!Lands(folder, name, w) ==> Matches(after.folder, pattern) == Matches(folder, pattern))
  {
    TracksThroughWriting(folder, name, w, pattern, keep, ever);
    var change := Apply(folder, name, w);
    if change.result.Done? {
      var pruned := Prune(change.folder, pattern, keep, stuck);
      PruneIsExact(change.folder, pattern, keep, stuck);
      TracksThroughPruning(EverAfter(folder, name, w, ever), Matches(change.folder, pattern),
                           Matches(pruned.folder, pattern), keep, stuck, pruned.result);
    }
  }

  /** The files of `pattern` are the same, with the same contents. */
  ghost predicate SameFamily(before: Folder, after: Folder, pattern: string) {
    && Matches(before, pattern) == Matches(after, pattern)
    && forall n :: n in Matches(before, pattern) ==> after[n] == before[n]
  }

  lemma WriteLeavesOthers(folder: Folder, name: string, w: Write, other: string)
    requires !Glob(other, name)
    ensures SameFamily(folder, Apply(folder, name, w).folder, other)
  {
  }

  lemma PruneLeavesOthers(folder: Folder, pattern: string, keep: int, stuck: set<string>, other: string)
    requires forall n :: n in folder ==> !(Glob(pattern, n) && Glob(other, n))
    ensures SameFamily(folder, Prune(folder, pattern, keep, stuck).folder, other)
  {
    PruneFrame(folder, pattern, keep, stuck);
  }

  /** A family whose pattern matches neither the written name nor anything the other pattern matches is untouched. */
  lemma KeepLeavesOthers(folder: Folder, name: string, w: Write, pattern: string, keep: int, stuck: set<string>,
                         other: string)
    requires !Glob(other, name) && forall n :: !(Glob(pattern, n) && Glob(other, n))
    ensures SameFamily(folder, Keep(folder, name, w, pattern, keep, stuck).folder, other)
  {
    WriteLeavesOthers(folder, name, w, other);
    PruneLeavesOthers(Apply(folder, name, w).folder, pattern, keep, stuck, other);
  }

  /** Is this what the write leaves under its name, if it leaves anything? */
  predicate Leaves(w: Write, entry: Entry) {
    (w.Leftover? || w.Complete?) && entry == File(w.data)
  }

  /** One run of one family alters nothing: what is there afterwards was there before or is what the run wrote. */
  lemma KeepHolds(folder: Folder, name: string, w: Write, pattern: string, keep: int, stuck: set<string>)
    ensures var after := Keep(folder, name, w, pattern, keep, stuck).folder;
            && (forall n :: n in after && n != name ==> n in folder && after[n] == folder[n])
            && (!Lands(folder, name, w) && name in after ==> name in folder && after[name] == folder[name])
            && (Lands(folder, name, w) && name in after ==> Leaves(w, after[name]))
  {
  }

  lemma TransferLeaves(t: Transfer, entry: Entry)
    ensures Leaves(OfTransfer(t), entry) <==> TransferLeft(t, entry)
  {
  }

  lemma CaptureLeaves(c: Capture, entry: Entry)
    ensures Leaves(OfCapture(c), entry) <==> CaptureLeft(c, entry)
  {
  }

  /** An entry under `n` is unaltered, or it is the own file of a run as a transfer left it. */
  ghost predicate HeldOrSent(folder: Folder, after: Folder, name: string, t: Transfer, n: string) {
    n in after ==> (n in folder && after[n] == folder[n]) || (n == name && TransferLeft(t, after[n]))
  }

  ghost predicate HeldOrSaved(folder: Folder, after: Folder, name: string, c: Capture, n: string) {
    n in after ==> (n in folder && after[n] == folder[n]) || (n == name && CaptureLeft(c, after[n]))
  }

  lemma KeepHoldsTransfers(folder: Folder, name: string, t: Transfer, pattern: string, keep: int, stuck: set<string>,
                           n: string)
    ensures HeldOrSent(folder, Keep(folder, name, OfTransfer(t), pattern, keep, stuck).folder, name, t, n)
    ensures HeldOrSent(folder, Apply(folder, name, OfTransfer(t)).folder, name, t, n)
  {
    var after := Keep(folder, name, OfTransfer(t), pattern, keep, stuck).folder;
    KeepHolds(folder, name, OfTransfer(t), pattern, keep, stuck);
    if name in after {
      TransferLeaves(t, after[name]);
    }
  }

  lemma KeepHoldsCaptures(folder: Folder, name: string, c: Capture, pattern: string, keep: int, stuck: set<string>,
                          n: string)
    ensures HeldOrSaved(folder, Keep(folder, name, OfCapture(c), pattern, keep, stuck).folder, name, c, n)
  {
    var after := Keep(folder, name, OfCapture(c), pattern, keep, stuck).folder;
    KeepHolds(folder, name, OfCapture(c), pattern, keep, stuck);
    if name in after {
      CaptureLeaves(c, after[name]);
    }
  }
}
