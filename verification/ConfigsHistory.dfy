/** Any number of runs over one server's `configs` directory, each of which may fail anywhere. */
module ConfigsHistory {
  import opened Text
  import opened Names
  import opened Paths
  import opened Outcomes
  import opened Retention
  import opened Disk
  import opened Models
  import opened Archives

  function ConfigName(server: string, t: Moment): string {
    BuildConfigFilename(server, BuildTimestamp(t))
  }

  function DumpName(server: string, t: Moment, suffix: string): string {
    BuildPackagesFilename(server, BuildTimestamp(t), suffix)
  }

  /** The directory after each of the three families of one run; a dump that is not reached changes nothing. */
  datatype Night = Night(config: Change, selections: Change, list: Change)

  function OneNight(server: string, st: BackupSettings, o: ConfigsOracle, folder: Folder): Night {
    var config := Keep(folder, ConfigName(server, o.configAt), OfTransfer(o.config),
                       CONFIG_PATTERN, st.configRetention, o.configStuck);
    var selections := Keep(config.folder, DumpName(server, o.packagesAt, SELECTIONS), OfCapture(o.selections),
                           PackagesPattern(SELECTIONS), st.packagesRetention, o.selectionsStuck);
    var list := if selections.result.Raised? then selections
                else Keep(selections.folder, DumpName(server, o.packagesAt, LIST), OfCapture(o.list),
                          PackagesPattern(LIST), st.packagesRetention, o.listStuck);
    Night(config, selections, list)
  }

  /**
   * The program's two functions, run one after the other, are `OneNight` on the `configs` directory and touch
   * no other.
   */
  lemma NightIsWhatRuns(s: ServerConfig, st: BackupSettings, o: ConfigsOracle, dirs: Dirs)
    requires '/' !in s.name
    ensures var dir := ConfigsDir(st.baseDir, s.name);
            var night := OneNight(s.name, st, o, Listing(dirs, dir));
            var config := BackupConfig(s, st, o, false, dirs);
            var packages := BackupPackages(s, st, o, false, config.dirs);
            && config == Ended(Put(dirs, dir, night.config.folder), night.config.result)
            && packages == Ended(Put(dirs, dir, night.list.folder), night.list.result)
  {
    var dir := ConfigsDir(st.baseDir, s.name);
    var night := OneNight(s.name, st, o, Listing(dirs, dir));
    ConfigsTargets(st.baseDir, s.name, SELECTIONS, o.configAt);
    ConfigsTargets(st.baseDir, s.name, SELECTIONS, o.packagesAt);
    ConfigsTargets(st.baseDir, s.name, LIST, o.packagesAt);
    ArchiveInPlace(ConfigTask(s, st, o), ConfigName(s.name, o.configAt), dirs);
    var afterConfig := Put(dirs, dir, night.config.folder);
    ListingAfterPut(dirs, dir, night.config.folder);
    ArchiveInPlace(DumpTask(s, st, o.packagesAt, SELECTIONS, o.selections, o.selectionsStuck),
                   DumpName(s.name, o.packagesAt, SELECTIONS), afterConfig);
    PutTwice(dirs, dir, night.config.folder, night.selections.folder);
    var afterSelections := Put(dirs, dir, night.selections.folder);
    ListingAfterPut(dirs, dir, night.selections.folder);
    ArchiveInPlace(DumpTask(s, st, o.packagesAt, LIST, o.list, o.listStuck),
                   DumpName(s.name, o.packagesAt, LIST), afterSelections);
    PutTwice(dirs, dir, night.selections.folder, night.list.folder);
  }

  // ---------------------------------------------------------------- the three families side by side

  /** The directory, and for each family every name that was ever a file of it. */
  datatype Shelf = Shelf(folder: Folder, configs: set<string>, selections: set<string>, lists: set<string>)

  ghost predicate ShelfTracks(st: BackupSettings, shelf: Shelf) {
    && Tracks(shelf.folder, CONFIG_PATTERN, shelf.configs, st.configRetention)
    && Tracks(shelf.folder, PackagesPattern(SELECTIONS), shelf.selections, st.packagesRetention)
    && Tracks(shelf.folder, PackagesPattern(LIST), shelf.lists, st.packagesRetention)
  }

  function NextShelf(server: string, st: BackupSettings, o: ConfigsOracle, shelf: Shelf): Shelf {
    var night := OneNight(server, st, o, shelf.folder);
    Shelf(night.list.folder,
          EverAfter(shelf.folder, ConfigName(server, o.configAt), OfTransfer(o.config), shelf.configs),
          EverAfter(night.config.folder, DumpName(server, o.packagesAt, SELECTIONS), OfCapture(o.selections),
            shelf.selections),
          if night.selections.result.Raised? then shelf.lists
          else EverAfter(night.selections.folder, DumpName(server, o.packagesAt, LIST), OfCapture(o.list), shelf.lists))
  }

  lemma OtherPatternsMiss(server: string, t: Moment, u: Moment)
    ensures Glob(CONFIG_PATTERN, ConfigName(server, t))
    ensures Glob(PackagesPattern(SELECTIONS), DumpName(server, u, SELECTIONS))
    ensures Glob(PackagesPattern(LIST), DumpName(server, u, LIST))
    ensures !Glob(PackagesPattern(SELECTIONS), ConfigName(server, t))
    ensures !Glob(PackagesPattern(LIST), ConfigName(server, t))
    ensures !Glob(CONFIG_PATTERN, DumpName(server, u, SELECTIONS))
    ensures !Glob(PackagesPattern(LIST), DumpName(server, u, SELECTIONS))
    ensures !Glob(CONFIG_PATTERN, DumpName(server, u, LIST))
    ensures !Glob(PackagesPattern(SELECTIONS), DumpName(server, u, LIST))
  {
    OwnPatternFindsIt(server, "", SELECTIONS, BuildTimestamp(t));
    OwnPatternFindsIt(server, "", SELECTIONS, BuildTimestamp(u));
    OwnPatternFindsIt(server, "", LIST, BuildTimestamp(u));
    FamiliesAreDisjoint(ConfigName(server, t));
    FamiliesAreDisjoint(DumpName(server, u, SELECTIONS));
    FamiliesAreDisjoint(DumpName(server, u, LIST));
  }

  lemma PatternsNeverMeet()
    ensures forall n :: !(Glob(CONFIG_PATTERN, n) && Glob(PackagesPattern(SELECTIONS), n))
    ensures forall n :: !(Glob(CONFIG_PATTERN, n) && Glob(PackagesPattern(LIST), n))
    ensures forall n :: !(Glob(PackagesPattern(SELECTIONS), n) && Glob(PackagesPattern(LIST), n))
  {
    forall n
      ensures !(Glob(CONFIG_PATTERN, n) && Glob(PackagesPattern(SELECTIONS), n))
      ensures !(Glob(CONFIG_PATTERN, n) && Glob(PackagesPattern(LIST), n))
      ensures !(Glob(PackagesPattern(SELECTIONS), n) && Glob(PackagesPattern(LIST), n))
    {
      FamiliesAreDisjoint(n);
    }
  }

  lemma ConfigStepLeavesDumps(server: string, st: BackupSettings, o: ConfigsOracle, folder: Folder)
    ensures var after := Keep(folder, ConfigName(server, o.configAt), OfTransfer(o.config),
                              CONFIG_PATTERN, st.configRetention, o.configStuck).folder;
            SameFamily(folder, after, PackagesPattern(SELECTIONS)) && SameFamily(folder, after, PackagesPattern(LIST))
  {
    PatternsNeverMeet();
    OtherPatternsMiss(server, o.configAt, o.packagesAt);
    KeepLeavesOthers(folder, ConfigName(server, o.configAt), OfTransfer(o.config),
                     CONFIG_PATTERN, st.configRetention, o.configStuck, PackagesPattern(SELECTIONS));
    KeepLeavesOthers(folder, ConfigName(server, o.configAt), OfTransfer(o.config),
                     CONFIG_PATTERN, st.configRetention, o.configStuck, PackagesPattern(LIST));
  }

  lemma SelectionsStepLeavesOthers(server: string, st: BackupSettings, o: ConfigsOracle, folder: Folder)
    ensures var after := Keep(folder, DumpName(server, o.packagesAt, SELECTIONS), OfCapture(o.selections),
                              PackagesPattern(SELECTIONS), st.packagesRetention, o.selectionsStuck).folder;
            SameFamily(folder, after, CONFIG_PATTERN) && SameFamily(folder, after, PackagesPattern(LIST))
  {
    PatternsNeverMeet();
    OtherPatternsMiss(server, o.configAt, o.packagesAt);
    KeepLeavesOthers(folder, DumpName(server, o.packagesAt, SELECTIONS), OfCapture(o.selections),
                     PackagesPattern(SELECTIONS), st.packagesRetention, o.selectionsStuck, CONFIG_PATTERN);
    KeepLeavesOthers(folder, DumpName(server, o.packagesAt, SELECTIONS), OfCapture(o.selections),
                     PackagesPattern(SELECTIONS), st.packagesRetention, o.selectionsStuck, PackagesPattern(LIST));
  }

  lemma ListStepLeavesOthers(server: string, st: BackupSettings, o: ConfigsOracle, folder: Folder)
    ensures var after := Keep(folder, DumpName(server, o.packagesAt, LIST), OfCapture(o.list),
                              PackagesPattern(LIST), st.packagesRetention, o.listStuck).folder;
            SameFamily(folder, after, CONFIG_PATTERN) && SameFamily(folder, after, PackagesPattern(SELECTIONS))
  {
    PatternsNeverMeet();
    OtherPatternsMiss(server, o.configAt, o.packagesAt);
    KeepLeavesOthers(folder, DumpName(server, o.packagesAt, LIST), OfCapture(o.list),
                     PackagesPattern(LIST), st.packagesRetention, o.listStuck, CONFIG_PATTERN);
    KeepLeavesOthers(folder, DumpName(server, o.packagesAt, LIST), OfCapture(o.list),
                     PackagesPattern(LIST), st.packagesRetention, o.listStuck, PackagesPattern(SELECTIONS));
  }

  /** In every run, also one where a family fails, each family's step leaves the files of the other two alone. */
  lemma FamiliesNeverPruneEachOther(server: string, st: BackupSettings, o: ConfigsOracle, folder: Folder)
    ensures var n := OneNight(server, st, o, folder);
            && SameFamily(folder, n.config.folder, PackagesPattern(SELECTIONS))
            && SameFamily(folder, n.config.folder, PackagesPattern(LIST))
            && SameFamily(n.config.folder, n.selections.folder, CONFIG_PATTERN)
            && SameFamily(n.config.folder, n.selections.folder, PackagesPattern(LIST))
            && SameFamily(n.selections.folder, n.list.folder, CONFIG_PATTERN)
            && SameFamily(n.selections.folder, n.list.folder, PackagesPattern(SELECTIONS))
  {
    var n := OneNight(server, st, o, folder);
    ConfigStepLeavesDumps(server, st, o, folder);
    SelectionsStepLeavesOthers(server, st, o, n.config.folder);
    if n.selections.result.Done? {
      ListStepLeavesOthers(server, st, o, n.selections.folder);
    }
  }

  // ---------------------------------------------------------------- one run keeps all three tracked

  ghost predicate NewNames(server: string, o: ConfigsOracle, shelf: Shelf) {
    && ConfigName(server, o.configAt) !in shelf.configs
    && DumpName(server, o.packagesAt, SELECTIONS) !in shelf.selections
    && DumpName(server, o.packagesAt, LIST) !in shelf.lists
  }

  /** A successful family ends the run with exactly its newest files, the one just written among those ever written. */
  ghost predicate FamilyUpToDate(result: Result<()>, folder: Folder, pattern: string, ever: set<string>, keep: int,
                                 name: string)
  {
    result.Done? ==> Matches(folder, pattern) == Newest(ever, keep) && name in ever
  }

  lemma NightTracks(server: string, st: BackupSettings, o: ConfigsOracle, shelf: Shelf)
    requires ShelfTracks(st, shelf) && NewNames(server, o, shelf)
    ensures var night := OneNight(server, st, o, shelf.folder);
            var next := NextShelf(server, st, o, shelf);
            && ShelfTracks(st, next)
            && FamilyUpToDate(night.config.result, next.folder, CONFIG_PATTERN, next.configs,
                              st.configRetention, ConfigName(server, o.configAt))
            && FamilyUpToDate(night.selections.result, next.folder, PackagesPattern(SELECTIONS), next.selections,
                              st.packagesRetention, DumpName(server, o.packagesAt, SELECTIONS))
            && FamilyUpToDate(night.list.result, next.folder, PackagesPattern(LIST), next.lists,
                              st.packagesRetention, DumpName(server, o.packagesAt, LIST))
            && (!Lands(shelf.folder, ConfigName(server, o.configAt), OfTransfer(o.config)) ==>
                SameFamily(shelf.folder, next.folder, CONFIG_PATTERN))
  {
    var night := OneNight(server, st, o, shelf.folder);
    OtherPatternsMiss(server, o.configAt, o.packagesAt);
    FamiliesNeverPruneEachOther(server, st, o, shelf.folder);
    KeepTracks(shelf.folder, ConfigName(server, o.configAt), OfTransfer(o.config),
               CONFIG_PATTERN, st.configRetention, o.configStuck, shelf.configs);
    KeepTracks(night.config.folder, DumpName(server, o.packagesAt, SELECTIONS), OfCapture(o.selections),
               PackagesPattern(SELECTIONS), st.packagesRetention, o.selectionsStuck, shelf.selections);
    if night.selections.result.Done? {
      KeepTracks(night.selections.folder, DumpName(server, o.packagesAt, LIST), OfCapture(o.list),
                 PackagesPattern(LIST), st.packagesRetention, o.listStuck, shelf.lists);
    }
    KeepHolds(shelf.folder, ConfigName(server, o.configAt), OfTransfer(o.config),
                     CONFIG_PATTERN, st.configRetention, o.configStuck);
  }

  // ---------------------------------------------------------------- histories

  function Shelves(server: string, st: BackupSettings, initial: Folder, nights: seq<ConfigsOracle>): Shelf {
    if nights == [] then
      Shelf(initial, Matches(initial, CONFIG_PATTERN),
            Matches(initial, PackagesPattern(SELECTIONS)), Matches(initial, PackagesPattern(LIST)))
    else
      NextShelf(server, st, nights[|nights| - 1], Shelves(server, st, initial, nights[..|nights| - 1]))
  }

  ghost predicate AllBefore(names: set<string>, name: string) {
    forall n :: n in names ==> Less(n, name)
  }

  ghost predicate ShelfBefore(server: string, o: ConfigsOracle, shelf: Shelf) {
    && AllBefore(shelf.configs, ConfigName(server, o.configAt))
    && AllBefore(shelf.selections, DumpName(server, o.packagesAt, SELECTIONS))
    && AllBefore(shelf.lists, DumpName(server, o.packagesAt, LIST))
  }

  /** The clock is readable, strictly increasing, and ahead of every archive already there. */
  ghost predicate ClockRuns(server: string, st: BackupSettings, initial: Folder, nights: seq<ConfigsOracle>) {
    && (forall i :: 0 <= i < |nights| ==> nights[i].configAt.Valid() && nights[i].packagesAt.Valid())
    && (forall i, j :: 0 <= i < j < |nights| ==>
         nights[i].configAt.Before(nights[j].configAt) && nights[i].packagesAt.Before(nights[j].packagesAt))
    && (forall i :: 0 <= i < |nights| ==> ShelfBefore(server, nights[i], Shelves(server, st, initial, [])))
  }

  lemma NamesKeepTime(server: string, a: ConfigsOracle, b: ConfigsOracle)
    requires a.configAt.Valid() && b.configAt.Valid() && a.packagesAt.Valid() && b.packagesAt.Valid()
    requires a.configAt.Before(b.configAt) && a.packagesAt.Before(b.packagesAt)
    ensures Less(ConfigName(server, a.configAt), ConfigName(server, b.configAt))
    ensures Less(DumpName(server, a.packagesAt, SELECTIONS), DumpName(server, b.packagesAt, SELECTIONS))
    ensures Less(DumpName(server, a.packagesAt, LIST), DumpName(server, b.packagesAt, LIST))
  {
    LexicographicIsChronological(server, "", SELECTIONS, a.configAt, b.configAt);
    LexicographicIsChronological(server, "", SELECTIONS, a.packagesAt, b.packagesAt);
    LexicographicIsChronological(server, "", LIST, a.packagesAt, b.packagesAt);
  }

  lemma ShelfAfter(server: string, st: BackupSettings, initial: Folder, nights: seq<ConfigsOracle>, i: nat)
    requires i < |nights|
    ensures Shelves(server, st, initial, nights[..i + 1]) ==
              NextShelf(server, st, nights[i], Shelves(server, st, initial, nights[..i]))
  {
    assert nights[..i + 1][..i] == nights[..i];
  }

  lemma OneRunLater(server: string, st: BackupSettings, o: ConfigsOracle, shelf: Shelf, later: ConfigsOracle)
    requires ShelfBefore(server, later, shelf)
    requires Less(ConfigName(server, o.configAt), ConfigName(server, later.configAt))
    requires Less(DumpName(server, o.packagesAt, SELECTIONS), DumpName(server, later.packagesAt, SELECTIONS))
    requires Less(DumpName(server, o.packagesAt, LIST), DumpName(server, later.packagesAt, LIST))
    ensures ShelfBefore(server, later, NextShelf(server, st, o, shelf))
  {
    var next := NextShelf(server, st, o, shelf);
    assert next.configs <= shelf.configs + {ConfigName(server, o.configAt)};
    assert next.selections <= shelf.selections + {DumpName(server, o.packagesAt, SELECTIONS)};
    assert next.lists <= shelf.lists + {DumpName(server, o.packagesAt, LIST)};
  }

  /** Everything ever written before run `j` sorts before what run `j` writes. */
  lemma {:induction false} PastSortsFirst(server: string, st: BackupSettings, initial: Folder,
                                        nights: seq<ConfigsOracle>, i: nat, j: nat)
    requires ClockRuns(server, st, initial, nights) && i <= j < |nights|
    ensures ShelfBefore(server, nights[j], Shelves(server, st, initial, nights[..i]))
  {
    if i == 0 {
      assert nights[..0] == [];
    } else {
      PastSortsFirst(server, st, initial, nights, i - 1, j);
      NamesKeepTime(server, nights[i - 1], nights[j]);
      OneRunLater(server, st, nights[i - 1], Shelves(server, st, initial, nights[..i - 1]), nights[j]);
      ShelfAfter(server, st, initial, nights, i - 1);
    }
  }

  lemma NightIsNew(server: string, st: BackupSettings, initial: Folder, nights: seq<ConfigsOracle>, i: nat)
    requires ClockRuns(server, st, initial, nights) && i < |nights|
    ensures NewNames(server, nights[i], Shelves(server, st, initial, nights[..i]))
  {
    PastSortsFirst(server, st, initial, nights, i, i);
    LessIsTotal(ConfigName(server, nights[i].configAt), ConfigName(server, nights[i].configAt));
    LessIsTotal(DumpName(server, nights[i].packagesAt, SELECTIONS), DumpName(server, nights[i].packagesAt, SELECTIONS));
    LessIsTotal(DumpName(server, nights[i].packagesAt, LIST), DumpName(server, nights[i].packagesAt, LIST));
  }

  lemma TracksOneMore(server: string, st: BackupSettings, o: ConfigsOracle, shelf: Shelf)
    requires ShelfTracks(st, shelf) && NewNames(server, o, shelf)
    ensures ShelfTracks(st, NextShelf(server, st, o, shelf))
  {
    NightTracks(server, st, o, shelf);
  }

  lemma {:induction false} HistoryTracks(server: string, st: BackupSettings, initial: Folder,
                                        nights: seq<ConfigsOracle>, i: nat)
    requires ClockRuns(server, st, initial, nights) && i <= |nights|
    ensures ShelfTracks(st, Shelves(server, st, initial, nights[..i]))
  {
    if i == 0 {
      assert nights[..0] == [];
    } else {
      HistoryTracks(server, st, initial, nights, i - 1);
      NightIsNew(server, st, initial, nights, i - 1);
      TracksOneMore(server, st, nights[i - 1], Shelves(server, st, initial, nights[..i - 1]));
      ShelfAfter(server, st, initial, nights, i - 1);
    }
  }

  /**
   * What a successful family holds: the newest `keep` of everything ever written, in the right number, this
   * run's file included.
   */
  ghost predicate HoldsNewest(folder: Folder, pattern: string, ever: set<string>, keep: int, name: string) {
    var family := Matches(folder, pattern);
    && family == Newest(ever, keep)
    && |family| == (if keep <= 0 then 0 else if keep < |ever| then keep else |ever|)
    && (keep >= 1 ==> name in family)
  }

  lemma LatestIsKept(folder: Folder, pattern: string, ever: set<string>, keep: int, name: string)
    requires Matches(folder, pattern) == Newest(ever, keep) && name in ever && AllBefore(ever - {name}, name)
    ensures HoldsNewest(folder, pattern, ever, keep, name)
  {
    NewestIsSuffix(ever, keep);
    forall y | y in ever ensures !Less(name, y) {
      LessIsTotal(name, y);
    }
    assert Newer(ever, name) == {};
  }

  /**
   * Every family that succeeded in this run holds its newest; a transfer that exited non-zero left the archives
   * alone.
   */
  ghost predicate EndsWell(server: string, st: BackupSettings, o: ConfigsOracle, before: Shelf, after: Shelf) {
    var night := OneNight(server, st, o, before.folder);
    && (night.config.result.Done? ==>
        HoldsNewest(after.folder, CONFIG_PATTERN, after.configs, st.configRetention, ConfigName(server, o.configAt)))
    && (night.selections.result.Done? ==>
        HoldsNewest(after.folder, PackagesPattern(SELECTIONS), after.selections, st.packagesRetention,
                    DumpName(server, o.packagesAt, SELECTIONS)))
    && (night.list.result.Done? ==>
        HoldsNewest(after.folder, PackagesPattern(LIST), after.lists, st.packagesRetention,
                    DumpName(server, o.packagesAt, LIST)))
    && (o.config.Exited? && o.config.code != 0 ==> SameFamily(before.folder, after.folder, CONFIG_PATTERN))
  }

  lemma NightEndsWell(server: string, st: BackupSettings, o: ConfigsOracle, shelf: Shelf)
    requires ShelfTracks(st, shelf) && NewNames(server, o, shelf) && ShelfBefore(server, o, shelf)
    ensures EndsWell(server, st, o, shelf, NextShelf(server, st, o, shelf))
  {
    var night := OneNight(server, st, o, shelf.folder);
    var after := NextShelf(server, st, o, shelf);
    NightTracks(server, st, o, shelf);
    if night.config.result.Done? {
      LatestIsKept(after.folder, CONFIG_PATTERN, after.configs, st.configRetention, ConfigName(server, o.configAt));
    }
    if night.selections.result.Done? {
      LatestIsKept(after.folder, PackagesPattern(SELECTIONS), after.selections, st.packagesRetention,
                   DumpName(server, o.packagesAt, SELECTIONS));
    }
    if night.list.result.Done? {
      LatestIsKept(after.folder, PackagesPattern(LIST), after.lists, st.packagesRetention,
                   DumpName(server, o.packagesAt, LIST));
    }
  }

  // ---------------------------------------------------------------- contents

  /** The run wrote this entry under this name, as one of its three families. */
  ghost predicate WrittenBy(server: string, o: ConfigsOracle, name: string, entry: Entry) {
    || (name == ConfigName(server, o.configAt) && TransferLeft(o.config, entry))
    || (name == DumpName(server, o.packagesAt, SELECTIONS) && CaptureLeft(o.selections, entry))
    || (name == DumpName(server, o.packagesAt, LIST) && CaptureLeft(o.list, entry))
  }

  lemma NightHolds(server: string, st: BackupSettings, o: ConfigsOracle, folder: Folder, name: string)
    requires name in OneNight(server, st, o, folder).list.folder
    ensures var entry := OneNight(server, st, o, folder).list.folder[name];
            (name in folder && folder[name] == entry) || WrittenBy(server, o, name, entry)
  {
    var n := OneNight(server, st, o, folder);
    KeepHoldsTransfers(folder, ConfigName(server, o.configAt), o.config, CONFIG_PATTERN, st.configRetention,
      o.configStuck, name);
    KeepHoldsCaptures(n.config.folder, DumpName(server, o.packagesAt, SELECTIONS), o.selections,
      PackagesPattern(SELECTIONS), st.packagesRetention, o.selectionsStuck, name);
    if n.selections.result.Done? {
      KeepHoldsCaptures(n.selections.folder, DumpName(server, o.packagesAt, LIST), o.list, PackagesPattern(LIST),
        st.packagesRetention, o.listStuck, name);
    }
  }

  /** The entry is an initial one, unchanged, or what one of the runs wrote under that name. */
  ghost predicate OwnData(server: string, initial: Folder, nights: seq<ConfigsOracle>, name: string, entry: Entry) {
    || (name in initial && initial[name] == entry)
    || exists i :: 0 <= i < |nights| && WrittenBy(server, nights[i], name, entry)
  }

  lemma EarlierData(server: string, initial: Folder, nights: seq<ConfigsOracle>, name: string, entry: Entry)
    requires nights != [] && OwnData(server, initial, nights[..|nights| - 1], name, entry)
    ensures OwnData(server, initial, nights, name, entry)
  {
    assert forall i :: 0 <= i < |nights| - 1 ==> nights[..|nights| - 1][i] == nights[i];
  }

  /** Nothing that is left was ever altered, whatever the clock. */
  lemma {:induction false} ContentsAreOriginal(server: string, st: BackupSettings, initial: Folder,
                                               nights: seq<ConfigsOracle>, name: string)
    requires name in Shelves(server, st, initial, nights).folder
    ensures OwnData(server, initial, nights, name, Shelves(server, st, initial, nights).folder[name])
    decreases |nights|
  {
    if nights != [] {
      var last := |nights| - 1;
      var before, entry := Shelves(server, st, initial, nights[..last]).folder,
        Shelves(server, st, initial, nights).folder[name];
      NightHolds(server, st, nights[last], before, name);
      if WrittenBy(server, nights[last], name, entry) {
        assert 0 <= last < |nights|;
      } else {
        ContentsAreOriginal(server, st, initial, nights[..last], name);
        EarlierData(server, initial, nights, name, entry);
      }
    }
  }

  lemma ConfigWrittenBy(server: string, o: ConfigsOracle, name: string, entry: Entry)
    requires WrittenBy(server, o, name, entry) && Glob(CONFIG_PATTERN, name)
    ensures name == ConfigName(server, o.configAt) && TransferLeft(o.config, entry)
  {
    OtherPatternsMiss(server, o.configAt, o.packagesAt);
  }

  lemma NamesSettleRuns(server: string, st: BackupSettings, initial: Folder, nights: seq<ConfigsOracle>, i: nat, j: nat)
    requires ClockRuns(server, st, initial, nights) && i < |nights| && j < |nights|
    requires ConfigName(server, nights[i].configAt) == ConfigName(server, nights[j].configAt)
    ensures i == j
  {
    LessIsTotal(ConfigName(server, nights[i].configAt), ConfigName(server, nights[i].configAt));
    if i < j {
      NamesKeepTime(server, nights[i], nights[j]);
    } else if j < i {
      NamesKeepTime(server, nights[j], nights[i]);
    }
  }

  lemma NotInitial(server: string, st: BackupSettings, initial: Folder, nights: seq<ConfigsOracle>, i: nat)
    requires ClockRuns(server, st, initial, nights) && i < |nights|
    ensures ConfigName(server, nights[i].configAt) !in Matches(initial, CONFIG_PATTERN)
  {
    assert ShelfBefore(server, nights[i], Shelves(server, st, initial, []));
    LessIsTotal(ConfigName(server, nights[i].configAt), ConfigName(server, nights[i].configAt));
  }

  /**
   * With an increasing clock the archive of a run, as long as it is there, holds all that the command of that run
   * wrote, or nothing if the command could not be started.
   */
  lemma ArchiveHoldsItsRun(server: string, st: BackupSettings, initial: Folder, nights: seq<ConfigsOracle>, i: nat,
                           name: string, entry: Entry)
    requires ClockRuns(server, st, initial, nights) && i < |nights| && name == ConfigName(server, nights[i].configAt)
    requires var folder := Shelves(server, st, initial, nights).folder;
             name in Matches(folder, CONFIG_PATTERN) && entry == folder[name]
    ensures match nights[i].config
            case Exited(code, data) => code == 0 && entry == File(data)
            case NotStarted => entry == File("")
            case Unopened => false
  {
    ContentsAreOriginal(server, st, initial, nights, name);
    NotInitial(server, st, initial, nights, i);
    var j :| 0 <= j < |nights| && WrittenBy(server, nights[j], name, entry);
    ConfigWrittenBy(server, nights[j], name, entry);
    NamesSettleRuns(server, st, initial, nights, i, j);
  }

  lemma LastRunEndsWell(server: string, st: BackupSettings, initial: Folder, nights: seq<ConfigsOracle>)
    requires nights != [] && ClockRuns(server, st, initial, nights)
    ensures var n := |nights| - 1;
            EndsWell(server, st, nights[n], Shelves(server, st, initial, nights[..n]),
              Shelves(server, st, initial, nights))
  {
    var n := |nights| - 1;
    HistoryTracks(server, st, initial, nights, n);
    NightIsNew(server, st, initial, nights, n);
    PastSortsFirst(server, st, initial, nights, n, n);
    ShelfAfter(server, st, initial, nights, n);
    assert nights[..n + 1] == nights;
    NightEndsWell(server, st, nights[n], Shelves(server, st, initial, nights[..n]));
  }

  /**
   * Retention over histories. Whatever failed in earlier runs (transfers, captures, deletes), after
   * any run whose config backup succeeds the archives are exactly the newest `keep` of the initial
   * ones and all those written since, the one just written among them; the same holds for each
   * package list; a transfer that exits non-zero leaves the archives as they were; and everything in
   * the directory is an initial entry or what one of the runs wrote under that name.
   */
  lemma RetentionOverHistories(server: string, st: BackupSettings, initial: Folder, nights: seq<ConfigsOracle>)
    requires nights != [] && ClockRuns(server, st, initial, nights)
    ensures var n := |nights| - 1;
            EndsWell(server, st, nights[n], Shelves(server, st, initial, nights[..n]),
              Shelves(server, st, initial, nights))
    ensures var folder := Shelves(server, st, initial, nights).folder;
            forall name :: name in folder ==> OwnData(server, initial, nights, name, folder[name])
  {
    forall name | name in Shelves(server, st, initial, nights).folder
      ensures OwnData(server, initial, nights, name, Shelves(server, st, initial, nights).folder[name])
    {
      ContentsAreOriginal(server, st, initial, nights, name);
    }
    LastRunEndsWell(server, st, initial, nights);
  }

  /** When `Popen` itself fails the opened file stays, empty, and counts as an archive from then on. */
  lemma StartFailureCountsAsEntry(server: string, st: BackupSettings, o: ConfigsOracle, shelf: Shelf)
    requires o.config.NotStarted?
    requires Lands(shelf.folder, ConfigName(server, o.configAt), OfTransfer(o.config))
    ensures var name := ConfigName(server, o.configAt);
            var next := NextShelf(server, st, o, shelf);
            && OneNight(server, st, o, shelf.folder).config.result == Raised(SshFault)
            && name in next.configs && name in Matches(next.folder, CONFIG_PATTERN) && next.folder[name] == File("")
  {
    OtherPatternsMiss(server, o.configAt, o.packagesAt);
    FamiliesNeverPruneEachOther(server, st, o, shelf.folder);
  }
}
