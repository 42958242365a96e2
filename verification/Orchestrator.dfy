/** adapters/backup/orchestrator.py: the backup of one server, and the collection of all results. */
module Orchestrator {
  import opened Text
  import opened Outcomes
  import opened Retention
  import opened Disk
  import opened Models
  import opened Archives
  import opened Snapshots

  /** Everything one server's backup meets. */
  datatype RunOracle = RunOracle(configs: ConfigsOracle, zfs: ZfsOracle)

  /**
   * One server of a run, with what the run's configuration gives it: the settings, or that a
   * configured number is not one, in which case `settings` means nothing.
   */
  datatype Job = Job(
    server: ServerConfig, settings: BackupSettings, settingsBroken: bool,
    kind: BackupType, dryRun: bool, oracle: RunOracle)

  datatype Site = Site(machine: Machine, dirs: Dirs)

  datatype ServerEnd = ServerEnd(site: Site, result: Result<BackupResult>)

  predicate WantsConfig(job: Job) {
    job.kind in {ALL, CONFIG} && job.server.backupConfigfiles
  }

  predicate WantsZfs(job: Job) {
    job.kind in {ALL, ZFS} && job.server.backupSnapshot
  }

  function FreshResult(s: ServerConfig): BackupResult {
    BackupResult(s.name, true, Done(()), !s.backupConfigfiles, true, Done(()), !s.backupSnapshot)
  }

  function ConfigFailed(r: BackupResult, fault: Fault): BackupResult {
    r.(configOk := false, configError := Raised(fault))
  }

  function ZfsFailed(r: BackupResult, fault: Fault): BackupResult {
    r.(zfsOk := false, zfsError := Raised(fault))
  }

  /** The `configs` part of `backup_server`: the package lists are attempted whatever became of the archive. */
  function ConfigPart(job: Job, dirs: Dirs): Ended {
    var config := BackupConfig(job.server, job.settings, job.oracle.configs, job.dryRun, dirs);
    var packages := BackupPackages(job.server, job.settings, job.oracle.configs, job.dryRun, config.dirs);
    Ended(packages.dirs, config.result)
  }

  function Configured(job: Job, dirs: Dirs): Ended {
    if WantsConfig(job) then ConfigPart(job, dirs) else Ended(dirs, Done(()))
  }

  function Zfsed(job: Job, m: Machine, dirs: Dirs): ZfsEnd {
    if WantsZfs(job) then BackupZfs(job.server, job.settings, job.oracle.zfs, job.dryRun, m, dirs)
      else ZfsEnd(m, dirs, Done(()))
  }

  function Verdict(s: ServerConfig, config: Result<()>, zfs: Result<()>): BackupResult {
    var r := if config.Raised? then ConfigFailed(FreshResult(s), config.fault) else FreshResult(s);
    if zfs.Raised? then ZfsFailed(r, zfs.fault) else r
  }

  function BackupServer(job: Job, site: Site): ServerEnd {
    if job.settingsBroken then ServerEnd(site, Raised(SettingsFault))
    else
      var config := Configured(job, site.dirs);
      var zfs := Zfsed(job, site.machine, config.dirs);
      ServerEnd(Site(zfs.machine, zfs.dirs), Done(Verdict(job.server, config.result, zfs.result)))
  }

  /** What `backup_all` records for a worker that raised. */
  function Collected(job: Job, r: Result<BackupResult>): BackupResult {
    if r.Done? then r.value
    else BackupResult(job.server.name, false, Raised(r.fault), false, false, Raised(r.fault), false)
  }

  method RunBackupServer(job: Job, host: Host, store: Store) returns (r: Result<BackupResult>)
    modifies host, store
    ensures ServerEnd(Site(host.machine, store.dirs), r) == BackupServer(job, Site(old(host.machine), old(store.dirs)))
  {
    if job.settingsBroken {
      return Raised(SettingsFault);
    }
    var s, st, o := job.server, job.settings, job.oracle;
    var configOk, configError, configSkipped := true, Done(()), false;
    var zfsOk, zfsError, zfsSkipped := true, Done(()), false;
    if job.kind in {ALL, CONFIG} && s.backupConfigfiles {
      var config := RunBackupConfig(s, st, o.configs, job.dryRun, store);
      if config.Raised? {
        configOk, configError := false, config;
      }
      var packages := RunBackupPackages(s, st, o.configs, job.dryRun, store);
    } else if !s.backupConfigfiles {
      configSkipped := true;
    }
    if job.kind in {ALL, ZFS} && s.backupSnapshot {
      var zfs := RunBackupZfs(s, st, o.zfs, job.dryRun, host, store);
      if zfs.Raised? {
        zfsOk, zfsError := false, zfs;
      }
    } else if !s.backupSnapshot {
      zfsSkipped := true;
    }
    return Done(BackupResult(s.name, configOk, configError, configSkipped, zfsOk, zfsError, zfsSkipped));
  }

  // ---------------------------------------------------------------- collecting

  /** `results.sort(key=lambda r: r.server)`, which is stable. */
  function Insert(r: BackupResult, sorted: seq<BackupResult>): seq<BackupResult> {
    if sorted == [] || Less(r.server, sorted[0].server) then [r] + sorted
    else [sorted[0]] + Insert(r, sorted[1..])
  }

  function SortByServer(results: seq<BackupResult>): seq<BackupResult> {
    if results == [] then [] else Insert(results[|results| - 1], SortByServer(results[..|results| - 1]))
  }

  ghost predicate Ascending(results: seq<BackupResult>) {
    forall i, j :: 0 <= i < j < |results| ==> Less(results[i].server, results[j].server)
  }

  ghost predicate DistinctServers(results: seq<BackupResult>) {
    forall i, j :: 0 <= i < j < |results| ==> results[i].server != results[j].server
  }

  lemma {:induction false} InsertSorts(r: BackupResult, sorted: seq<BackupResult>)
    requires Ascending(sorted) && forall k :: 0 <= k < |sorted| ==> sorted[k].server != r.server
    ensures Ascending(Insert(r, sorted))
    ensures forall x :: x in Insert(r, sorted) <==> x == r || x in sorted
    ensures |Insert(r, sorted)| == |sorted| + 1
  {
    if sorted != [] {
      LessIsTotal(r.server, sorted[0].server);
      if Less(r.server, sorted[0].server) {
        forall k | 0 < k < |sorted| ensures Less(r.server, sorted[k].server) {
          LessIsTransitive(r.server, sorted[0].server, sorted[k].server);
        }
      } else {
        InsertSorts(r, sorted[1..]);
        var rest := Insert(r, sorted[1..]);
        forall k | 0 <= k < |rest| ensures Less(sorted[0].server, rest[k].server) {
          assert rest[k] in rest;
        }
      }
    }
  }

  lemma {:induction false} InsertAdds(r: BackupResult, sorted: seq<BackupResult>)
    ensures multiset(Insert(r, sorted)) == multiset(sorted) + multiset{r}
  {
    if sorted != [] && !Less(r.server, sorted[0].server) {
      InsertAdds(r, sorted[1..]);
      assert sorted == [sorted[0]] + sorted[1..];
    }
  }

  lemma SameElements(a: seq<BackupResult>, b: seq<BackupResult>)
    requires multiset(a) == multiset(b)
    ensures |a| == |b| && forall x :: x in a <==> x in b
  {
    assert |multiset(a)| == |a| && |multiset(b)| == |b|;
    forall x ensures x in a <==> x in b {
      assert x in a <==> x in multiset(a);
      assert x in b <==> x in multiset(b);
    }
  }

  /** Sorting loses no result and adds none, also when servers share a name. */
  lemma {:induction false} SortPermutes(results: seq<BackupResult>)
    ensures multiset(SortByServer(results)) == multiset(results)
    ensures forall x :: x in SortByServer(results) <==> x in results
    ensures |SortByServer(results)| == |results|
  {
    if results != [] {
      var n := |results| - 1;
      SortPermutes(results[..n]);
      InsertAdds(results[n], SortByServer(results[..n]));
      assert results == results[..n] + [results[n]];
    }
    SameElements(SortByServer(results), results);
  }

  /** No server comes after one whose name is greater. */
  ghost predicate InNameOrder(results: seq<BackupResult>) {
    forall i, j :: 0 <= i < j < |results| ==> !Less(results[j].server, results[i].server)
  }

  function OfServer(results: seq<BackupResult>, name: string): seq<BackupResult> {
    if results == [] then []
    else (if results[0].server == name then [results[0]] else []) + OfServer(results[1..], name)
  }

  lemma {:induction false} NoneOfServer(results: seq<BackupResult>, name: string)
    requires forall k :: 0 <= k < |results| ==> results[k].server != name
    ensures OfServer(results, name) == []
  {
    if results != [] {
      NoneOfServer(results[1..], name);
    }
  }

  lemma {:induction false} OfServerWithLast(results: seq<BackupResult>, name: string)
    requires results != []
    ensures var n := |results| - 1;
            OfServer(results, name) ==
            OfServer(results[..n], name) + if results[n].server == name then [results[n]] else []
  {
    if |results| > 1 {
      OfServerWithLast(results[1..], name);
      assert results[1..][..|results| - 2] == results[..|results| - 1][1..];
    }
  }

  lemma BelowAll(name: string, sorted: seq<BackupResult>)
    requires InNameOrder(sorted) && sorted != [] && Less(name, sorted[0].server)
    ensures forall k :: 0 <= k < |sorted| ==> Less(name, sorted[k].server) && sorted[k].server != name
  {
    forall k | 0 <= k < |sorted| ensures Less(name, sorted[k].server) && sorted[k].server != name {
      LessIsTotal(sorted[0].server, sorted[k].server);
      if k > 0 && sorted[0].server != sorted[k].server {
        LessIsTransitive(name, sorted[0].server, sorted[k].server);
      }
      LessIsTotal(name, sorted[k].server);
    }
  }

  lemma InsertHas(r: BackupResult, sorted: seq<BackupResult>, k: nat)
    requires k < |Insert(r, sorted)|
    ensures Insert(r, sorted)[k] == r || Insert(r, sorted)[k] in sorted
  {
    InsertAdds(r, sorted);
    assert Insert(r, sorted)[k] in multiset(Insert(r, sorted));
  }

  lemma {:induction false} InsertKeepsOrder(r: BackupResult, sorted: seq<BackupResult>)
    requires InNameOrder(sorted)
    ensures InNameOrder(Insert(r, sorted))
  {
    if sorted != [] {
      LessIsTotal(r.server, sorted[0].server);
      if Less(r.server, sorted[0].server) {
        BelowAll(r.server, sorted);
        forall k | 0 <= k < |sorted| ensures !Less(sorted[k].server, r.server) {
          LessIsTotal(r.server, sorted[k].server);
        }
      } else {
        InsertKeepsOrder(r, sorted[1..]);
        forall k | 0 <= k < |Insert(r, sorted[1..])|
          ensures !Less(Insert(r, sorted[1..])[k].server, sorted[0].server)
        {
          InsertHas(r, sorted[1..], k);
        }
      }
    }
  }

  lemma OfServerUnfolds(first: BackupResult, rest: seq<BackupResult>, name: string)
    ensures OfServer([first] + rest, name) == (if first.server == name then [first] else []) + OfServer(rest, name)
  {
    assert ([first] + rest)[1..] == rest;
  }

  lemma {:induction false} InsertKeepsEach(r: BackupResult, sorted: seq<BackupResult>, name: string)
    requires InNameOrder(sorted)
    ensures OfServer(Insert(r, sorted), name) == OfServer(sorted, name) + if r.server == name then [r] else []
  {
    var own := if r.server == name then [r] else [];
    if sorted == [] || Less(r.server, sorted[0].server) {
      OfServerUnfolds(r, sorted, name);
      if r.server == name {
        if sorted != [] { BelowAll(r.server, sorted); }
        NoneOfServer(sorted, name);
      }
      assert own + OfServer(sorted, name) == OfServer(sorted, name) + own;
    } else {
      var rest := OfServer(sorted[1..], name);
      var first := if sorted[0].server == name then [sorted[0]] else [];
      InsertKeepsEach(r, sorted[1..], name);
      OfServerUnfolds(sorted[0], Insert(r, sorted[1..]), name);
      assert first + (rest + own) == (first + rest) + own;
    }
  }

  /** Sorting puts the servers in the order of their names, and leaves results of one name in theirs. */
  lemma {:induction false} SortIsStable(results: seq<BackupResult>, name: string)
    ensures InNameOrder(SortByServer(results))
    ensures OfServer(SortByServer(results), name) == OfServer(results, name)
  {
    if results != [] {
      var n := |results| - 1;
      SortIsStable(results[..n], name);
      InsertKeepsOrder(results[n], SortByServer(results[..n]));
      InsertKeepsEach(results[n], SortByServer(results[..n]), name);
      OfServerWithLast(results, name);
    }
  }

  lemma {:induction false} SortSorts(results: seq<BackupResult>)
    requires DistinctServers(results)
    ensures Ascending(SortByServer(results)) && |SortByServer(results)| == |results|
    ensures forall x :: x in SortByServer(results) <==> x in results
  {
    if results != [] {
      var n := |results| - 1;
      SortSorts(results[..n]);
      var sorted := SortByServer(results[..n]);
      forall k | 0 <= k < |sorted| ensures sorted[k].server != results[n].server {
        assert sorted[k] in results[..n];
      }
      InsertSorts(results[n], sorted);
      assert results == results[..n] + [results[n]];
    }
  }

  lemma {:induction false} AscendingIsUnique(a: seq<BackupResult>, b: seq<BackupResult>)
    requires |a| == |b| && Ascending(a) && Ascending(b) && forall x :: x in a <==> x in b
    ensures a == b
  {
    if a != [] {
      assert a[0] in b && b[0] in a;
      var i :| 0 <= i < |b| && b[i] == a[0];
      var j :| 0 <= j < |a| && a[j] == b[0];
      LessIsTotal(a[0].server, b[0].server);
      assert a[0] == b[0];
      forall x ensures x in a[1..] <==> x in b[1..] {
        LessIsTotal(a[0].server, a[0].server);
        assert x in a <==> x == a[0] || x in a[1..];
        assert x in b <==> x == b[0] || x in b[1..];
      }
      AscendingIsUnique(a[1..], b[1..]);
    }
  }

  /** The summary does not depend on the order in which workers finish. */
  lemma SummaryIgnoresOrder(a: seq<BackupResult>, b: seq<BackupResult>)
    requires |a| == |b| && DistinctServers(a) && DistinctServers(b) && forall x :: x in a <==> x in b
    ensures SortByServer(a) == SortByServer(b)
  {
    SortSorts(a);
    SortSorts(b);
    AscendingIsUnique(SortByServer(a), SortByServer(b));
  }

  function InOrder(jobs: seq<Job>, ends: seq<Result<BackupResult>>, completion: seq<nat>): (r: seq<BackupResult>)
    requires |ends| == |jobs| && forall k :: 0 <= k < |completion| ==> completion[k] < |jobs|
    ensures |r| == |completion|
    ensures forall k :: 0 <= k < |r| ==> r[k] == Collected(jobs[completion[k]], ends[completion[k]])
  {
    seq(|completion|, k requires 0 <= k < |completion| => Collected(jobs[completion[k]], ends[completion[k]]))
  }

  /** The `as_completed` loop of `backup_all` and the sort after it. */
  method CollectResults(jobs: seq<Job>, ends: seq<Result<BackupResult>>,
                        completion: seq<nat>) returns (summary: BackupSummary)
    requires |ends| == |jobs| && forall k :: 0 <= k < |completion| ==> completion[k] < |jobs|
    ensures summary.results == SortByServer(InOrder(jobs, ends, completion))
  {
    var results: seq<BackupResult> := [];
    for k := 0 to |completion|
      invariant results == InOrder(jobs, ends, completion)[..k]
    {
      var job, r := jobs[completion[k]], ends[completion[k]];
      if r.Done? {
        results := results + [r.value];
      } else {
        results := results + [BackupResult(job.server.name, false, Raised(r.fault), false, false, Raised(r.fault),
          false)];
      }
    }
    assert InOrder(jobs, ends, completion)[..|completion|] == InOrder(jobs, ends, completion);
    return BackupSummary(SortByServer(results));
  }
}
