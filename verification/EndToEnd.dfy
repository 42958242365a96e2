/** From what happens in a run to the mail subject and the exit status, over every schedule of the pool. */
module EndToEnd {
  import opened Outcomes
  import opened Retention
  import opened Models
  import opened Orchestrator
  import opened Worker
  import opened Pool
  import opened Schedules
  import opened Incidents
  import opened Confluence
  import opened Isolation
  import opened Reporting
  import opened Effects

  // ---------------------------------------------------------------- the summary of a run

  /** `p` is where a run ends that took this schedule and collected every result. */
  ghost predicate Completed(jobs: seq<Job>, w: World, limit: nat, actions: seq<Action>, p: Pool) {
    && Schedule(jobs, Initial(jobs, w, limit), actions)
    && p == After(jobs, Initial(jobs, w, limit), actions)
    && AllCollected(p)
    && forall k :: 0 <= k < |p.collected| ==> p.collected[k] < |p.progress|
  }

  function SummaryOf(p: Pool): BackupSummary
    requires forall k :: 0 <= k < |p.collected| ==> p.collected[k] < |p.progress|
  {
    BackupSummary(SortByServer(CollectedResults(p)))
  }

  lemma RunEnds(jobs: seq<Job>, w: World, limit: nat, actions: seq<Action>)
    requires Schedule(jobs, Initial(jobs, w, limit), actions)
    ensures Shape(jobs, w, After(jobs, Initial(jobs, w, limit), actions))
    ensures Books(jobs, After(jobs, Initial(jobs, w, limit), actions))
  {
    InitialBooks(jobs, w, limit);
    ScheduleKeepsBooks(jobs, w, Initial(jobs, w, limit), actions);
  }

  /** Collecting each server once collects exactly the servers' results. */
  lemma EachCollected(progress: seq<Progress>, order: seq<nat>, picked: seq<BackupResult>)
    requires |picked| == |order| && forall i :: 0 <= i < |progress| ==> i in order
    requires forall k :: 0 <= k < |order| ==> order[k] < |progress| && picked[k] == progress[order[k]].result
    ensures forall r :: r in picked <==> exists i :: 0 <= i < |progress| && progress[i].result == r
  {
    forall i | 0 <= i < |progress| ensures progress[i].result in picked {
      assert i in order;
      var k :| 0 <= k < |order| && order[k] == i;
      assert picked[k] == progress[i].result;
    }
  }

  lemma SummaryHasAll(jobs: seq<Job>, w: World, limit: nat, actions: seq<Action>, p: Pool)
    requires Completed(jobs, w, limit, actions, p)
    ensures |p.progress| == |jobs| == |SummaryOf(p).results|
    ensures forall r :: r in SummaryOf(p).results <==> exists i :: 0 <= i < |p.progress| && p.progress[i].result == r
  {
    RunEnds(jobs, w, limit, actions);
    forall i | 0 <= i < |jobs| ensures i in p.collected {
      AllFinish(jobs, w, p, i);
    }
    EachCollected(p.progress, p.collected, CollectedResults(p));
    SortPermutes(CollectedResults(p));
  }

  // ---------------------------------------------------------------- every run

  ghost predicate NothingWentWrong(jobs: seq<Job>, w: World, limit: nat, actions: seq<Action>)
    requires Schedule(jobs, Initial(jobs, w, limit), actions)
  {
    forall i :: 0 <= i < |jobs| ==> !WentWrong(jobs, w, limit, actions, i)
  }

  ghost predicate AllWentWrong(jobs: seq<Job>, w: World, limit: nat, actions: seq<Action>)
    requires Schedule(jobs, Initial(jobs, w, limit), actions)
  {
    forall i :: 0 <= i < |jobs| ==> WentWrong(jobs, w, limit, actions, i)
  }

  lemma SubjectOfAll(summary: BackupSummary, progress: seq<Progress>)
    requires |progress| == |summary.results|
    requires forall r :: r in summary.results <==> exists i :: 0 <= i < |progress| && progress[i].result == r
    ensures BuildSummarySubject(summary) == OK_SUBJECT <==>
              forall i :: 0 <= i < |progress| ==> !progress[i].result.HasErrors()
    ensures BuildSummarySubject(summary) == ERROR_SUBJECT <==>
            progress != [] && forall i :: 0 <= i < |progress| ==> progress[i].result.HasErrors()
  {
    SubjectSays(summary);
    forall k | 0 <= k < |summary.results|
      ensures exists i :: 0 <= i < |progress| && progress[i].result == summary.results[k]
    {
      assert summary.results[k] in summary.results;
    }
    forall i | 0 <= i < |progress|
      ensures exists k :: 0 <= k < |summary.results| && summary.results[k] == progress[i].result
    {
      assert progress[i].result in summary.results;
    }
  }

  /**
   * Outcome reporting agrees with what happened, in every run of every set of servers, sharing machines
   * and directories or not: the subject is `[OK]` exactly when no config or ZFS operation of any server
   * raised in it and no worker's settings were broken, and `[ERROR]` exactly when that befell every one
   * of at least one server.
   */
  lemma OutcomeAgrees(jobs: seq<Job>, w: World, limit: nat, actions: seq<Action>, p: Pool)
    requires Completed(jobs, w, limit, actions, p)
    ensures BuildSummarySubject(SummaryOf(p)) == OK_SUBJECT <==> NothingWentWrong(jobs, w, limit, actions)
    ensures BuildSummarySubject(SummaryOf(p)) == ERROR_SUBJECT <==> jobs != [] && AllWentWrong(jobs, w, limit, actions)
  {
    SummaryHasAll(jobs, w, limit, actions, p);
    SubjectOfAll(SummaryOf(p), p.progress);
    forall i | 0 <= i < |jobs| ensures p.progress[i].result.HasErrors() <==> WentWrong(jobs, w, limit, actions, i) {
      ErrorsAreIncidents(jobs, w, limit, actions, i);
    }
  }

  /** The jobs of one run of the command: each chosen server, with the one configuration and the two options given. */
  ghost predicate JobsOf(jobs: seq<Job>, servers: seq<ServerConfig>, settings: BackupSettings, kind: BackupType,
                         dryRun: bool)
  {
    |jobs| == |servers| && forall i :: 0 <= i < |jobs| ==>
      jobs[i] == Job(servers[i], settings, false, kind, dryRun, jobs[i].oracle)
  }

  lemma OnlySteps(jobs: seq<Job>, w: World, limit: nat, actions: seq<Action>)
    requires Schedule(jobs, Initial(jobs, w, limit), actions) && forall i :: 0 <= i < |jobs| ==> !jobs[i].settingsBroken
    ensures NothingWentWrong(jobs, w, limit, actions) <==>
            forall i :: 0 <= i < |jobs| ==> !RaisedIn(jobs, w, limit, actions, i)
    ensures AllWentWrong(jobs, w, limit, actions) <==>
            forall i :: 0 <= i < |jobs| ==> RaisedIn(jobs, w, limit, actions, i)
  {
    forall i | 0 <= i < |jobs|
      ensures WentWrong(jobs, w, limit, actions, i) <==> RaisedIn(jobs, w, limit, actions, i)
    {
    }
  }

  /**
   * The command, once it starts workers, exits with 0 exactly when the subject is `[OK]`, that is when
   * no step of any worker let an exception out of a config or ZFS backup.
   */
  lemma CommandAgrees(configured: seq<ServerConfig>, filter: Filter, settings: BackupSettings, kind: BackupType,
                      dryRun: bool, jobs: seq<Job>, w: World, actions: seq<Action>, p: Pool)
    requires Starts(configured, filter, Settings(settings))
    requires JobsOf(jobs, Chosen(configured, filter), settings, kind, dryRun)
    requires Completed(jobs, w, settings.maxParallel, actions, p)
    ensures && (CommandEnd(configured, filter, Settings(settings), SummaryOf(p)) == Exits(0) <==>
                BuildSummarySubject(SummaryOf(p)) == OK_SUBJECT)
            && (BuildSummarySubject(SummaryOf(p)) == OK_SUBJECT <==>
                forall i :: 0 <= i < |jobs| ==> !RaisedIn(jobs, w, settings.maxParallel, actions, i))
            && (BuildSummarySubject(SummaryOf(p)) == ERROR_SUBJECT <==>
                forall i :: 0 <= i < |jobs| ==> RaisedIn(jobs, w, settings.maxParallel, actions, i))
  {
    OutcomeAgrees(jobs, w, settings.maxParallel, actions, p);
    OnlySteps(jobs, w, settings.maxParallel, actions);
    OkMeansAllOk(SummaryOf(p));
  }

  // ---------------------------------------------------------------- what the servers are left with

  lemma WhatIsSeenIsThere(jobs: seq<Job>, w: World, p: Pool, j: nat)
    requires Independent(jobs, w) && Invariant(jobs, w, p) && AllCollected(p) && j < |jobs|
    ensures var after := BackupServer(jobs[j], SiteOf(w, jobs[j])).site;
            && (forall d :: d in Footprint(ScriptOf(jobs[j])) ==> Listing(p.world.dirs, d) == Listing(after.dirs, d))
            && (UsesMachine(jobs[j]) ==> p.world.machines[MachineOf(jobs[j].server)] == after.machine)
  {
    var paths := Footprint(ScriptOf(jobs[j]));
    var after := BackupServer(jobs[j], SiteOf(w, jobs[j])).site;
    EndOfEach(jobs, w, p, j);
    BackupIsLocal(jobs[j], SiteOf(w, jobs[j]), paths);
    assert SeenBy(jobs, p.world, j) == NarrowSite(after, paths, UsesMachine(jobs[j]));
    ListingAfterRestrict(p.world.dirs, paths);
    ListingAfterRestrict(after.dirs, paths);
  }

  lemma SameWhereSeen(job: Job, before: Site, after: Site, seen: Site)
    requires BackedUp(job, before, after)
    requires forall d :: d in Footprint(ScriptOf(job)) ==> Listing(seen.dirs, d) == Listing(after.dirs, d)
    requires SnapshotRuns(job) ==> seen.machine == after.machine
    ensures BackedUp(job, before, seen)
  {
  }

  /**
   * What a run of the pool leaves every server with, whatever the schedule: servers that share nothing each
   * have in their directories, and on the machine they take snapshots of, what the types they were to be
   * backed up for make of what was there, and nothing of the other types.
   */
  lemma EveryServerIsBackedUp(jobs: seq<Job>, w: World, limit: nat, actions: seq<Action>, p: Pool, j: nat)
    requires Independent(jobs, w) && Completed(jobs, w, limit, actions, p) && j < |jobs| && RealRun(jobs[j])
    ensures MachineOf(jobs[j].server) in p.world.machines
    ensures BackedUp(jobs[j], SiteOf(w, jobs[j]), SiteOf(p.world, jobs[j]))
  {
    InitialInvariant(jobs, w, limit);
    ScheduleKeepsInvariant(jobs, w, Initial(jobs, w, limit), actions);
    WhatIsSeenIsThere(jobs, w, p, j);
    BackupBacksUp(jobs[j], SiteOf(w, jobs[j]));
    SameWhereSeen(jobs[j], SiteOf(w, jobs[j]), BackupServer(jobs[j], SiteOf(w, jobs[j])).site,
      SiteOf(p.world, jobs[j]));
  }

  // ---------------------------------------------------------------- the loop that collects

  /** What the futures of a finished run hold. */
  function EndsOf(jobs: seq<Job>, p: Pool): seq<Result<BackupResult>>
    requires |p.progress| == |jobs|
  {
    seq(|jobs|, i requires 0 <= i < |jobs| && |p.progress| == |jobs| =>
      if jobs[i].settingsBroken then Raised(SettingsFault) else Done(p.progress[i].result))
  }

  /** The `as_completed` loop, run on the futures in the order of any schedule, makes the summary of that run. */
  lemma LoopMakesTheSummary(jobs: seq<Job>, w: World, limit: nat, actions: seq<Action>, p: Pool)
    requires Completed(jobs, w, limit, actions, p)
    ensures |p.progress| == |jobs|
    ensures SortByServer(InOrder(jobs, EndsOf(jobs, p), p.collected)) == SummaryOf(p).results
  {
    SummaryHasAll(jobs, w, limit, actions, p);
    var loop := InOrder(jobs, EndsOf(jobs, p), p.collected);
    forall k | 0 <= k < |p.collected| ensures loop[k] == CollectedResults(p)[k] {
      ErrorsAreIncidents(jobs, w, limit, actions, p.collected[k]);
    }
    assert loop == CollectedResults(p);
  }

  // ---------------------------------------------------------------- independent servers

  lemma SummaryIsOfEachAlone(jobs: seq<Job>, w: World, limit: nat, actions: seq<Action>, p: Pool)
    requires Independent(jobs, w) && Completed(jobs, w, limit, actions, p)
    ensures SummaryOf(p).results == SortByServer(ResultsAlone(jobs, w))
  {
    EveryScheduleIsSequential(jobs, w, limit, actions);
    SequentialResultsAlone(jobs, w);
  }

  predicate TroubleAt(jobs: seq<Job>, w: World, j: nat)
    requires j < |jobs| && MachineOf(jobs[j].server) in w.machines
  {
    Trouble(jobs[j], SiteOf(w, jobs[j]))
  }

  /**
   * For servers that share nothing, what goes wrong in a run is what would go wrong with each server
   * alone: `backup_config` or `backup_zfs` raises, or its settings are broken.
   */
  lemma IncidentsAreTrouble(jobs: seq<Job>, w: World, limit: nat, actions: seq<Action>, p: Pool, j: nat)
    requires Independent(jobs, w) && Completed(jobs, w, limit, actions, p) && j < |jobs|
    ensures WentWrong(jobs, w, limit, actions, j) <==> TroubleAt(jobs, w, j)
  {
    ErrorsAreIncidents(jobs, w, limit, actions, j);
    InitialInvariant(jobs, w, limit);
    ScheduleKeepsInvariant(jobs, w, Initial(jobs, w, limit), actions);
    EndOfEach(jobs, w, p, j);
    ErrorsAreTrouble(jobs[j], SiteOf(w, jobs[j]));
  }

  /** So for them the subject is decided by each server's own operations. */
  lemma OutcomeOfIndependent(jobs: seq<Job>, w: World, limit: nat, actions: seq<Action>, p: Pool)
    requires Independent(jobs, w) && Completed(jobs, w, limit, actions, p)
    ensures BuildSummarySubject(SummaryOf(p)) == OK_SUBJECT <==> forall j :: 0 <= j < |jobs| ==> !TroubleAt(jobs, w, j)
    ensures BuildSummarySubject(SummaryOf(p)) == ERROR_SUBJECT <==>
            jobs != [] && forall j :: 0 <= j < |jobs| ==> TroubleAt(jobs, w, j)
  {
    OutcomeAgrees(jobs, w, limit, actions, p);
    forall j | 0 <= j < |jobs| ensures WentWrong(jobs, w, limit, actions, j) <==> TroubleAt(jobs, w, j) {
      IncidentsAreTrouble(jobs, w, limit, actions, p, j);
    }
  }

  /** The same runs but for what happens to the package lists. */
  ghost predicate AllButPackages(a: seq<Job>, b: seq<Job>) {
    |a| == |b| && forall j :: 0 <= j < |a| ==> SameButPackages(a[j], b[j])
  }

  /**
   * Servers that share nothing: whatever happens to the package lists of any of them, and however both runs
   * are scheduled, the summary is the same.
   */
  lemma PackagesNeverReported(a: seq<Job>, b: seq<Job>, w: World, limit: nat, left: seq<Action>, p: Pool,
                              right: seq<Action>, q: Pool)
    requires Independent(a, w) && Independent(b, w) && AllButPackages(a, b)
    requires forall j :: 0 <= j < |a| ==> OwnDirectory(a[j])
    requires Completed(a, w, limit, left, p) && Completed(b, w, limit, right, q)
    ensures SummaryOf(p) == SummaryOf(q)
  {
    SummaryIsOfEachAlone(a, w, limit, left, p);
    SummaryIsOfEachAlone(b, w, limit, right, q);
    forall j | 0 <= j < |a| ensures ResultsAlone(a, w)[j] == ResultsAlone(b, w)[j] {
      PackagesNeverDecide(a[j], b[j], SiteOf(w, a[j]));
    }
    assert ResultsAlone(a, w) == ResultsAlone(b, w);
  }
}
