/** The `snapshots` directory over whole histories of runs. */
module StreamsHistory {
  import opened Text
  import opened Names
  import opened Paths
  import opened Retention
  import opened Disk
  import opened Models
  import opened Archives
  import opened ConfigsHistory
  import opened Snapshots
  import opened Lifecycle
  import opened Streams

  /** One run: what it meets, and the machine as it finds it. */
  datatype StreamNight = StreamNight(o: ZfsOracle, start: Machine)

  /** The disk, and every name that was ever a stream of the server. */
  datatype Reel = Reel(dirs: Dirs, ever: set<string>)

  function NextReel(s: ServerConfig, st: BackupSettings, n: StreamNight, reel: Reel): Reel {
    Reel(BackupZfs(s, st, n.o, false, n.start, reel.dirs).dirs,
         EverAfterRun(s, st, n.o, n.start, StreamFolder(s, st, reel.dirs), reel.ever))
  }

  function Reels(s: ServerConfig, st: BackupSettings, initial: Dirs, nights: seq<StreamNight>): Reel {
    if nights == [] then Reel(initial, Matches(StreamFolder(s, st, initial), SNAPSHOT_PATTERN))
    else
      var last := |nights| - 1;
      NextReel(s, st, nights[last], Reels(s, st, initial, nights[..last]))
  }

  function OwnStream(s: ServerConfig, n: StreamNight): string {
    StreamName(s, s.zfsPool, n.o.at)
  }

  /** The clock is readable, strictly increasing, and ahead of every stream already there. */
  ghost predicate StreamClockRuns(s: ServerConfig, st: BackupSettings, initial: Dirs, nights: seq<StreamNight>) {
    && (forall i :: 0 <= i < |nights| ==> nights[i].o.at.Valid())
    && (forall i, j :: 0 <= i < j < |nights| ==> nights[i].o.at.Before(nights[j].o.at))
    && (forall i :: 0 <= i < |nights| ==>
         AllBefore(Matches(StreamFolder(s, st, initial), SNAPSHOT_PATTERN), OwnStream(s, nights[i])))
  }

  lemma ReelAfter(s: ServerConfig, st: BackupSettings, initial: Dirs, nights: seq<StreamNight>, i: nat)
    requires i < |nights|
    ensures Reels(s, st, initial, nights[..i + 1]) == NextReel(s, st, nights[i], Reels(s, st, initial, nights[..i]))
  {
    assert nights[..i + 1][..i] == nights[..i];
  }

  lemma ReelBefore(s: ServerConfig, st: BackupSettings, n: StreamNight, reel: Reel, later: string)
    requires AllBefore(reel.ever, later) && Less(OwnStream(s, n), later)
    ensures AllBefore(NextReel(s, st, n, reel).ever, later)
  {
    assert NextReel(s, st, n, reel).ever <= reel.ever + {OwnStream(s, n)};
  }

  /** Every stream written before run `j` sorts before the one run `j` writes. */
  lemma {:induction false} PastStreamsSortFirst(s: ServerConfig, st: BackupSettings, initial: Dirs,
                                        nights: seq<StreamNight>, i: nat, j: nat)
    requires StreamClockRuns(s, st, initial, nights) && i <= j < |nights|
    ensures AllBefore(Reels(s, st, initial, nights[..i]).ever, OwnStream(s, nights[j]))
  {
    if i == 0 {
      assert nights[..0] == [];
    } else {
      PastStreamsSortFirst(s, st, initial, nights, i - 1, j);
      LexicographicIsChronological(s.name, s.zfsPool, "", nights[i - 1].o.at, nights[j].o.at);
      ReelBefore(s, st, nights[i - 1], Reels(s, st, initial, nights[..i - 1]), OwnStream(s, nights[j]));
      ReelAfter(s, st, initial, nights, i - 1);
    }
  }

  lemma StreamIsNew(s: ServerConfig, st: BackupSettings, initial: Dirs, nights: seq<StreamNight>, i: nat)
    requires StreamClockRuns(s, st, initial, nights) && i < |nights|
    ensures OwnStream(s, nights[i]) !in Reels(s, st, initial, nights[..i]).ever
  {
    PastStreamsSortFirst(s, st, initial, nights, i, i);
    LessIsTotal(OwnStream(s, nights[i]), OwnStream(s, nights[i]));
  }

  ghost predicate ReelTracks(s: ServerConfig, st: BackupSettings, reel: Reel) {
    Tracks(StreamFolder(s, st, reel.dirs), SNAPSHOT_PATTERN, reel.ever, st.zfsRetention)
  }

  lemma OneReelMore(s: ServerConfig, st: BackupSettings, n: StreamNight, reel: Reel)
    requires '/' !in s.name && PoolOf([s.zfsPool], s.zfsPool)
    requires ReelTracks(s, st, reel) && OwnStream(s, n) !in reel.ever
    ensures ReelTracks(s, st, NextReel(s, st, n, reel))
  {
    StreamsAreTracked(s, st, n.o, n.start, reel.dirs, reel.ever);
  }

  lemma {:induction false} ReelsTrack(s: ServerConfig, st: BackupSettings, initial: Dirs, nights: seq<StreamNight>,
                                      i: nat)
    requires '/' !in s.name && PoolOf([s.zfsPool], s.zfsPool)
    requires StreamClockRuns(s, st, initial, nights) && i <= |nights|
    ensures ReelTracks(s, st, Reels(s, st, initial, nights[..i]))
  {
    if i == 0 {
      assert nights[..0] == [];
    } else {
      ReelsTrack(s, st, initial, nights, i - 1);
      StreamIsNew(s, st, initial, nights, i - 1);
      OneReelMore(s, st, nights[i - 1], Reels(s, st, initial, nights[..i - 1]));
      ReelAfter(s, st, initial, nights, i - 1);
    }
  }

  /** How one run leaves the streams, given those before it. */
  ghost predicate StreamsEndWell(s: ServerConfig, st: BackupSettings, n: StreamNight, before: Reel, after: Reel) {
    var run := BackupZfs(s, st, n.o, false, n.start, before.dirs);
    var folder := StreamFolder(s, st, after.dirs);
    && after.dirs == run.dirs
    && (run.result.Done? ==>
        HoldsNewest(folder, SNAPSHOT_PATTERN, after.ever, st.zfsRetention, OwnStream(s, n)) &&
          OwnStream(s, n) in after.ever)
    && (after.ever == before.ever || after.ever == before.ever + {OwnStream(s, n)})
    && ((n.o.send.Exited? && n.o.send.code != 0) || !ReportedCreated(s, n.o, n.start) ==>
        after.ever == before.ever && SameFamily(StreamFolder(s, st, before.dirs), folder, SNAPSHOT_PATTERN))
  }

  lemma RunEndsWell(s: ServerConfig, st: BackupSettings, n: StreamNight, reel: Reel)
    requires '/' !in s.name && PoolOf([s.zfsPool], s.zfsPool)
    requires ReelTracks(s, st, reel) && OwnStream(s, n) !in reel.ever && AllBefore(reel.ever, OwnStream(s, n))
    ensures StreamsEndWell(s, st, n, reel, NextReel(s, st, n, reel))
  {
    StreamsAreTracked(s, st, n.o, n.start, reel.dirs, reel.ever);
    var after := NextReel(s, st, n, reel);
    if BackupZfs(s, st, n.o, false, n.start, reel.dirs).result.Done? {
      LatestIsKept(StreamFolder(s, st, after.dirs), SNAPSHOT_PATTERN, after.ever, st.zfsRetention, OwnStream(s, n));
    }
  }

  /** The entry is an initial one, unchanged, or what one of the runs streamed under that name. */
  ghost predicate OwnStreamData(s: ServerConfig, initial: Folder, nights: seq<StreamNight>, name: string,
                                entry: Entry) {
    || (name in initial && initial[name] == entry)
    || exists i :: 0 <= i < |nights| && name == OwnStream(s, nights[i]) && TransferLeft(nights[i].o.send, entry)
  }

  lemma EarlierStreamData(s: ServerConfig, initial: Folder, nights: seq<StreamNight>, name: string, entry: Entry)
    requires nights != [] && OwnStreamData(s, initial, nights[..|nights| - 1], name, entry)
    ensures OwnStreamData(s, initial, nights, name, entry)
  {
    assert forall i :: 0 <= i < |nights| - 1 ==> nights[..|nights| - 1][i] == nights[i];
  }

  /** No stream that is left was ever altered, whatever the clock. */
  lemma {:induction false} StreamsAreOriginal(s: ServerConfig, st: BackupSettings, initial: Dirs,
                                              nights: seq<StreamNight>, name: string)
    requires '/' !in s.name && PoolOf([s.zfsPool], s.zfsPool)
    requires name in StreamFolder(s, st, Reels(s, st, initial, nights).dirs)
    ensures OwnStreamData(s, StreamFolder(s, st, initial), nights, name,
              StreamFolder(s, st, Reels(s, st, initial, nights).dirs)[name])
    decreases |nights|
  {
    if nights != [] {
      var last := |nights| - 1;
      var before := Reels(s, st, initial, nights[..last]);
      var entry := StreamFolder(s, st, Reels(s, st, initial, nights).dirs)[name];
      StreamsHold(s, st, nights[last].o, nights[last].start, before.dirs);
      assert HeldOrSent(StreamFolder(s, st, before.dirs), StreamFolder(s, st, Reels(s, st, initial, nights).dirs),
          OwnStream(s, nights[last]), nights[last].o.send, name);
      if name == OwnStream(s, nights[last]) && TransferLeft(nights[last].o.send, entry) {
        assert 0 <= last < |nights|;
      } else {
        StreamsAreOriginal(s, st, initial, nights[..last], name);
        EarlierStreamData(s, StreamFolder(s, st, initial), nights, name, entry);
      }
    }
  }

  /**
   * Retention of streams over histories, for a pool without a slash. Whatever failed in earlier runs
   * (cleanups, creates, transfers, destroys, deletes), after any run that succeeds the streams are
   * exactly the newest `keep` of the initial ones and all those written since, the run's own among them;
   * a run that gets no snapshot or whose transfer exits non-zero leaves the streams as they were; and every
   * entry is an initial one or what one of the runs streamed under that name.
   */
  lemma StreamsOverHistories(s: ServerConfig, st: BackupSettings, initial: Dirs, nights: seq<StreamNight>)
    requires '/' !in s.name && PoolOf([s.zfsPool], s.zfsPool)
    requires nights != [] && StreamClockRuns(s, st, initial, nights)
    ensures var n := |nights| - 1;
            StreamsEndWell(s, st, nights[n], Reels(s, st, initial, nights[..n]), Reels(s, st, initial, nights))
    ensures var folder := StreamFolder(s, st, Reels(s, st, initial, nights).dirs);
            forall name :: name in folder ==>
              OwnStreamData(s, StreamFolder(s, st, initial), nights, name, folder[name])
  {
    forall name | name in StreamFolder(s, st, Reels(s, st, initial, nights).dirs)
      ensures OwnStreamData(s, StreamFolder(s, st, initial), nights, name,
                StreamFolder(s, st, Reels(s, st, initial, nights).dirs)[name])
    {
      StreamsAreOriginal(s, st, initial, nights, name);
    }
    var n := |nights| - 1;
    ReelsTrack(s, st, initial, nights, n);
    StreamIsNew(s, st, initial, nights, n);
    PastStreamsSortFirst(s, st, initial, nights, n, n);
    RunEndsWell(s, st, nights[n], Reels(s, st, initial, nights[..n]));
    ReelAfter(s, st, initial, nights, n);
    assert nights[..n + 1] == nights;
  }
}
