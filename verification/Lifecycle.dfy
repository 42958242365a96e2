/** What every run, and every sequence of runs, does to the snapshots of a machine. */
module Lifecycle {
  import opened Names
  import opened Paths
  import opened Outcomes
  import opened Retention
  import opened Models
  import opened Archives
  import opened Snapshots

  // ---------------------------------------------------------------- frame

  lemma DestroyFrame(m: Machine, s: Snap, r: Reply)
    requires Tool(s)
    ensures var after := Destroy(m, s, r).machine;
            Others(after) == Others(m) && after.snaps <= m.snaps && after.datasets == m.datasets
  {
  }

  lemma CreateFrame(m: Machine, s: Snap, r: Reply)
    requires Tool(s)
    ensures var after := Create(m, s, r).machine;
            Others(after) == Others(m) && m.snaps <= after.snaps && after.datasets == m.datasets
  {
  }

  lemma {:induction false} SweepFrame(m: Machine, list: seq<Snap>, replies: seq<Reply>, i: nat)
    requires forall k :: 0 <= k < |list| ==> Tool(list[k])
    ensures var after := Sweep(m, list, replies, i).machine;
            Others(after) == Others(m) && after.snaps <= m.snaps && after.datasets == m.datasets
    decreases |list| - i
  {
    if i < |list| {
      var a := Destroy(m, list[i], ReplyAt(replies, i));
      DestroyFrame(m, list[i], ReplyAt(replies, i));
      if a.status.Good? {
        SweepFrame(a.machine, list, replies, i + 1);
      }
    }
  }

  lemma CleanupFrame(m: Machine, o: ZfsOracle)
    ensures var after := Cleanup(m, o).machine;
            Others(after) == Others(m) && after.snaps <= m.snaps && after.datasets == m.datasets
  {
    var list := Listed(m, o.order);
    forall k | 0 <= k < |list| ensures Tool(list[k]) {
      assert list[k] in list;
    }
    SweepFrame(m, list, o.sweep, 0);
  }

  lemma OwnSnapIsTool(s: ServerConfig, at: Moment)
    ensures Tool(OwnSnap(s, at))
  {
  }

  /** Whatever fails, a run removes and creates only snapshots whose tag starts with `pull_backup_`. */
  lemma OtherSnapshotsAreUntouched(s: ServerConfig, st: BackupSettings, o: ZfsOracle, dryRun: bool, m: Machine,
                                   dirs: Dirs)
    ensures var after := BackupZfs(s, st, o, dryRun, m, dirs).machine;
            Others(after) == Others(m) && after.datasets == m.datasets
  {
    OwnSnapIsTool(s, o.at);
    CleanupFrame(m, o);
    var cleaned := Cleanup(m, o).machine;
    CreateFrame(cleaned, OwnSnap(s, o.at), o.create);
    DestroyFrame(Create(cleaned, OwnSnap(s, o.at), o.create).machine, OwnSnap(s, o.at), o.destroy);
  }

  // ---------------------------------------------------------------- one run's own snapshot

  predicate Succeeds(r: Reply) {
    r.Answered? && r.code == 0
  }

  /** What a run at this moment is to make: the tool's tag on the configured dataset and on everything below it. */
  function Due(s: ServerConfig, at: Moment, m: Machine): set<Snap> {
    set d | d in m.datasets && Within(d, s.zfsPool) :: Snap(d, TOOL_TAG + BuildTimestamp(at))
  }

  /** Did the run get past the line that notes the snapshot as created? */
  predicate ReportedCreated(s: ServerConfig, o: ZfsOracle, m: Machine) {
    var cleaned := Cleanup(m, o);
    !cleaned.status.Unreadable? && Create(cleaned.machine, OwnSnap(s, o.at), o.create).status.Good?
  }

  /** The state the final destroy of such a run meets. */
  function AtDestroy(s: ServerConfig, o: ZfsOracle, m: Machine): Machine {
    Create(Cleanup(m, o).machine, OwnSnap(s, o.at), o.create).machine
  }

  predicate DestroySucceeded(s: ServerConfig, o: ZfsOracle, m: Machine) {
    Destroy(AtDestroy(s, o, m), OwnSnap(s, o.at), o.destroy).status.Good?
  }

  /**
   * When does a run get its snapshot? When the cleanup lets it go on, the dataset is there, nothing that is to
   * be made is there already, and the create command works; it then has made exactly what it was to make.
   */
  lemma CreatesWhatIsDue(s: ServerConfig, o: ZfsOracle, m: Machine)
    ensures var cleaned := Cleanup(m, o);
            && (ReportedCreated(s, o, m) <==>
                && !cleaned.status.Unreadable? && Succeeds(o.create) && s.zfsPool in m.datasets
                && Due(s, o.at, m) !! cleaned.machine.snaps)
            && (ReportedCreated(s, o, m) ==>
                AtDestroy(s, o, m) == Machine(m.datasets, cleaned.machine.snaps + Due(s, o.at, m)))
  {
    CleanupFrame(m, o);
    assert New(m.datasets, OwnSnap(s, o.at)) == Due(s, o.at, m);
    if s.zfsPool in m.datasets {
      assert Snap(s.zfsPool, TOOL_TAG + BuildTimestamp(o.at)) in Due(s, o.at, m);
    }
  }

  /**
   * A run that meets no snapshot of its own tag in its pool leaves the machine as the cleanup left it if the
   * last destroy works, and with all that it made if that command never ran.
   */
  lemma DestroysWhatItMade(s: ServerConfig, st: BackupSettings, o: ZfsOracle, m: Machine, dirs: Dirs)
    requires ReportedCreated(s, o, m)
    requires forall x :: x in m.snaps && x.tag == TOOL_TAG + BuildTimestamp(o.at) ==> !Within(x.dataset, s.zfsPool)
    ensures var after, cleaned := BackupZfs(s, st, o, false, m, dirs).machine, Cleanup(m, o).machine;
            && (Succeeds(o.destroy) ==> after == cleaned)
            && (o.destroy.NoAnswer? ==> after == Machine(m.datasets, cleaned.snaps + Due(s, o.at, m)))
  {
    var cleaned := Cleanup(m, o).machine;
    CreatesWhatIsDue(s, o, m);
    CleanupFrame(m, o);
    assert Below(cleaned.snaps, OwnSnap(s, o.at)) == {};
    assert Below(AtDestroy(s, o, m).snaps, OwnSnap(s, o.at)) == Due(s, o.at, m);
    assert Snap(s.zfsPool, TOOL_TAG + BuildTimestamp(o.at)) in Due(s, o.at, m);
    DestroyUndoesCreate(cleaned, OwnSnap(s, o.at), o.create, o.destroy);
  }

  /**
   * A snapshot the run reports as created is gone when the run ends, exactly when its destroy
   * command succeeded or had done all of its work before it failed.
   */
  lemma CreatedSnapshotIsGoneIff(s: ServerConfig, st: BackupSettings, o: ZfsOracle, m: Machine, dirs: Dirs)
    requires ReportedCreated(s, o, m)
    ensures var after := BackupZfs(s, st, o, false, m, dirs).machine;
            var own := New(m.datasets, OwnSnap(s, o.at));
            && own != {} && own <= AtDestroy(s, o, m).snaps
            && (DestroySucceeded(s, o, m) ==> after.snaps !! own)
            && (o.destroy.NoAnswer? ==> own <= after.snaps)
            && (after.snaps !! own <==> DestroySucceeded(s, o, m) || (!o.destroy.NoAnswer? && own <= o.destroy.did))
  {
    OwnSnapIsTool(s, o.at);
    CleanupFrame(m, o);
    var at := AtDestroy(s, o, m);
    var own := New(m.datasets, OwnSnap(s, o.at));
    var destroyed := Destroy(at, OwnSnap(s, o.at), o.destroy);
    assert own <= Below(at.snaps, OwnSnap(s, o.at));
    if !o.destroy.NoAnswer? && !DestroySucceeded(s, o, m) {
      assert destroyed.machine.snaps == at.snaps - o.destroy.did * Below(at.snaps, OwnSnap(s, o.at));
      if destroyed.machine.snaps !! own {
        forall x | x in own ensures x in o.destroy.did {
          assert x in at.snaps && x !in destroyed.machine.snaps;
        }
      }
    }
  }

  /** When does a run report success? No step of it may have raised. */
  lemma RunSucceedsIff(s: ServerConfig, st: BackupSettings, o: ZfsOracle, m: Machine, dirs: Dirs)
    ensures var sent := Stream(s, st, o, dirs);
            BackupZfs(s, st, o, false, m, dirs).result.Done? <==>
            && ReportedCreated(s, o, m)
            && sent.result.Done?
            && !Destroy(AtDestroy(s, o, m), OwnSnap(s, o.at), o.destroy).status.Unreadable?
            && PruneIn(sent.dirs, SnapshotsDir(st.baseDir, s.name), SNAPSHOT_PATTERN, st.zfsRetention,
               o.stuck).result.Done?
  {
  }

  lemma DestroyReplyDoesNotDecide(t: Task, own: Snap, reply: Reply, other: Reply, sent: Result<()>, m: Machine,
                                  dirs: Dirs)
    requires !reply.Garbled?
    ensures var run := AfterStream(t, own, reply, sent, m, dirs);
            var variant := AfterStream(t, own, other, sent, m, dirs);
            && (!other.Garbled? ==> variant.result == run.result && variant.dirs == run.dirs)
            && (other.Garbled? ==> variant.result == Raised(DecodeFault))
  {
  }

  lemma DestroyDoesNotDecide(s: ServerConfig, st: BackupSettings, o: ZfsOracle, other: Reply, m: Machine, dirs: Dirs)
    requires !o.destroy.Garbled?
    ensures var run := StreamAndDestroy(s, st, o, m, dirs);
            var variant := StreamAndDestroy(s, st, o.(destroy := other), m, dirs);
            && (!other.Garbled? ==> variant.result == run.result && variant.dirs == run.dirs)
            && (other.Garbled? ==> variant.result == Raised(DecodeFault))
  {
    var p := o.(destroy := other);
    var sent := Stream(s, st, o, dirs);
    assert Stream(s, st, p, dirs) == sent && StreamTask(s, st, p) == StreamTask(s, st, o);
    DestroyReplyDoesNotDecide(StreamTask(s, st, o), OwnSnap(s, o.at), o.destroy, other, sent.result, m, sent.dirs);
  }

  /** A run after its cleanup and its create. */
  lemma BackupZfsIs(s: ServerConfig, st: BackupSettings, o: ZfsOracle, m: Machine, dirs: Dirs, cleaned: Acted,
                    created: Acted)
    requires cleaned == Cleanup(m, o) && created == Create(cleaned.machine, OwnSnap(s, o.at), o.create)
    ensures BackupZfs(s, st, o, false, m, dirs) ==
            if cleaned.status.Unreadable? then ZfsEnd(cleaned.machine, dirs, Raised(DecodeFault))
            else if created.status.Good? then StreamAndDestroy(s, st, o, created.machine, dirs)
            else ZfsEnd(created.machine, dirs, Raised(if created.status.Failed? then SnapshotFault else DecodeFault))
  {
  }

  /**
   * The final destroy decides neither the outcome nor the files of a run, as long as its output is
   * text; output that is not text turns every run that created a snapshot into a failed one.
   */
  lemma FinalDestroyDoesNotDecide(s: ServerConfig, st: BackupSettings, o: ZfsOracle, other: Reply, m: Machine,
                                  dirs: Dirs)
    requires !o.destroy.Garbled?
    ensures var run := BackupZfs(s, st, o, false, m, dirs);
            var variant := BackupZfs(s, st, o.(destroy := other), false, m, dirs);
            && (!other.Garbled? ==> variant.result == run.result && variant.dirs == run.dirs)
            && (other.Garbled? && ReportedCreated(s, o, m) ==> variant.result == Raised(DecodeFault))
  {
    var p := o.(destroy := other);
    var cleaned := Cleanup(m, o);
    var created := Create(cleaned.machine, OwnSnap(s, o.at), o.create);
    assert Cleanup(m, p) == cleaned && Create(cleaned.machine, OwnSnap(s, p.at), p.create) == created;
    BackupZfsIs(s, st, o, m, dirs, cleaned, created);
    BackupZfsIs(s, st, p, m, dirs, cleaned, created);
    DestroyDoesNotDecide(s, st, o, other, created.machine, dirs);
  }

  // ---------------------------------------------------------------- how much the cleanup removes

  predicate Covers(a: Snap, b: Snap) {
    a.tag == b.tag && Within(b.dataset, a.dataset)
  }

  lemma WithinIsTransitive(a: string, b: string, c: string)
    requires Within(b, a) && Within(c, b)
    ensures Within(c, a)
  {
  }

  predicate CoveredBefore(list: seq<Snap>, n: nat, s: Snap) {
    exists j :: 0 <= j < n && j < |list| && Covers(list[j], s)
  }

  /** The first listed snapshot that destroying the earlier ones has already removed: its destroy is refused. */
  function FirstRedundant(list: seq<Snap>, i: nat): (k: nat)
    requires i <= |list|
    ensures i <= k <= |list|
    ensures forall h :: i <= h < k ==> !CoveredBefore(list, h, list[h])
    ensures k < |list| ==> CoveredBefore(list, k, list[k])
    decreases |list| - i
  {
    if i == |list| || CoveredBefore(list, i, list[i]) then i else FirstRedundant(list, i + 1)
  }

  /** `m` without what the first `n` destroys remove. */
  function Swept(m: Machine, list: seq<Snap>, n: nat): Machine {
    m.(snaps := set x | x in m.snaps && !CoveredBefore(list, n, x))
  }

  lemma SweptOneMore(m: Machine, list: seq<Snap>, i: nat)
    requires i < |list|
    ensures Swept(m, list, i).(snaps := Swept(m, list, i).snaps - Below(Swept(m, list, i).snaps, list[i])) ==
              Swept(m, list, i + 1)
  {
    forall x | x in m.snaps
      ensures CoveredBefore(list, i + 1, x) <==> CoveredBefore(list, i, x) || Covers(list[i], x)
    {
      if Covers(list[i], x) { assert CoveredBefore(list, i + 1, x); }
      if j :| 0 <= j < i && Covers(list[j], x) { assert CoveredBefore(list, i + 1, x); }
    }
  }

  lemma {:induction false} SweepReaches(m: Machine, list: seq<Snap>, replies: seq<Reply>, i: nat, n: nat)
    requires i <= n <= FirstRedundant(list, 0)
    requires forall k :: 0 <= k < |list| ==> list[k] in m.snaps
    requires forall k :: 0 <= k < n ==> Succeeds(ReplyAt(replies, k))
    ensures Sweep(Swept(m, list, i), list, replies, i) == Sweep(Swept(m, list, n), list, replies, n)
    decreases n - i
  {
    if i < n {
      var here := Swept(m, list, i);
      assert list[i] in Below(here.snaps, list[i]);
      SweptOneMore(m, list, i);
      SweepReaches(m, list, replies, i + 1, n);
    }
  }

  lemma RedundantIsRefused(m: Machine, list: seq<Snap>, k: nat, r: Reply)
    requires k < |list| && CoveredBefore(list, k, list[k])
    ensures Below(Swept(m, list, k).snaps, list[k]) == {}
    ensures Destroy(Swept(m, list, k), list[k], r).machine == Swept(m, list, k)
    ensures !Destroy(Swept(m, list, k), list[k], r).status.Good?
  {
    var j :| 0 <= j < k && Covers(list[j], list[k]);
    forall x | x in m.snaps && Covers(list[k], x) ensures CoveredBefore(list, k, x) {
      WithinIsTransitive(list[j].dataset, list[k].dataset, x.dataset);
      assert Covers(list[j], x);
    }
    assert Below(Swept(m, list, k).snaps, list[k]) == {};
  }

  /**
   * Exactly what the cleanup leaves when no command fails of itself: destroying with `-r` makes a
   * later line redundant, the first redundant line is refused and ends the loop, so what goes is
   * what the lines before it cover.
   */
  lemma CleanupLeavesExactly(m: Machine, o: ZfsOracle)
    requires Succeeds(o.list)
    requires forall k :: 0 <= k < FirstRedundant(Listed(m, o.order), 0) ==> Succeeds(ReplyAt(o.sweep, k))
    ensures var list := Listed(m, o.order);
            Cleanup(m, o).machine == Swept(m, list, FirstRedundant(list, 0))
  {
    var list := Listed(m, o.order);
    var k := FirstRedundant(list, 0);
    forall h | 0 <= h < |list| ensures list[h] in m.snaps {
      assert list[h] in list;
    }
    assert Swept(m, list, 0) == m;
    SweepReaches(m, list, o.sweep, 0, k);
    if k < |list| {
      RedundantIsRefused(m, list, k, ReplyAt(o.sweep, k));
    }
  }

  /**
   * A command of the cleanup that fails ends it: a failed listing leaves everything, and a failed destroy leaves
   * what the destroys before it left, but for a part of its own snapshots. Only output that is not text escapes.
   */
  lemma CleanupStopsAtFailure(m: Machine, o: ZfsOracle, k: nat)
    ensures !Succeeds(o.list) ==> Cleanup(m, o) == Acted(m, if o.list.Garbled? then Unreadable else Good)
    ensures var list := Listed(m, o.order);
            Succeeds(o.list) && k < FirstRedundant(list, 0) && !Succeeds(ReplyAt(o.sweep, k)) &&
            (forall h :: 0 <= h < k ==> Succeeds(ReplyAt(o.sweep, h))) ==>
              var here, after := Swept(m, list, k), Cleanup(m, o);
              && after.status == (if ReplyAt(o.sweep, k).Garbled? then Unreadable else Good)
              && after.machine.snaps <= here.snaps
              && forall x :: x in here.snaps && x !in after.machine.snaps ==> Covers(list[k], x)
  {
    var list := Listed(m, o.order);
    if Succeeds(o.list) && k < FirstRedundant(list, 0) && !Succeeds(ReplyAt(o.sweep, k)) &&
       forall h :: 0 <= h < k ==> Succeeds(ReplyAt(o.sweep, h))
    {
      forall h | 0 <= h < |list| ensures list[h] in m.snaps {
        assert list[h] in list;
      }
      assert Swept(m, list, 0) == m;
      SweepReaches(m, list, o.sweep, 0, k);
      DestroyIsConfined(Swept(m, list, k), list[k], ReplyAt(o.sweep, k));
    }
  }

  /** So no tool snapshot of a pool remains if and only if the lines before the first redundant one cover them all. */
  lemma CleanupIsCompleteIff(m: Machine, o: ZfsOracle, pool: string)
    requires Succeeds(o.list)
    requires forall k :: 0 <= k < FirstRedundant(Listed(m, o.order), 0) ==> Succeeds(ReplyAt(o.sweep, k))
    ensures var list := Listed(m, o.order);
            (forall x :: x in Stale(Cleanup(m, o).machine) ==> !Within(x.dataset, pool)) <==>
            (forall x :: x in Stale(m) && Within(x.dataset, pool) ==> CoveredBefore(list, FirstRedundant(list, 0), x))
  {
    CleanupLeavesExactly(m, o);
    var list := Listed(m, o.order);
    var after := Cleanup(m, o).machine;
    forall x ensures x in Stale(after) <==> x in Stale(m) && !CoveredBefore(list, FirstRedundant(list, 0), x) {
    }
  }

  /** The listing prints every tool snapshot once, and no dataset's before those of a dataset above it. */
  ghost predicate FullListing(m: Machine, order: seq<Snap>) {
    var list := Listed(m, order);
    && (forall x :: x in Stale(m) ==> x in list)
    && (forall i, j :: 0 <= i < j < |list| ==> list[i] != list[j])
    && (forall i, j :: 0 <= i < j < |list| ==>
         list[i].dataset == list[j].dataset || !Within(list[i].dataset, list[j].dataset))
  }

  function LeadingRoots(list: seq<Snap>, pool: string): (n: nat)
    ensures n <= |list|
    ensures forall i :: 0 <= i < n ==> list[i].dataset == pool
    ensures n < |list| ==> list[n].dataset != pool
  {
    if list == [] || list[0].dataset != pool then 0 else 1 + LeadingRoots(list[1..], pool)
  }

  lemma {:induction false} SweepOnlyRemoves(m: Machine, list: seq<Snap>, replies: seq<Reply>, i: nat)
    ensures Sweep(m, list, replies, i).machine.snaps <= m.snaps
    decreases |list| - i
  {
    if i < |list| && Destroy(m, list[i], ReplyAt(replies, i)).status.Good? {
      SweepOnlyRemoves(Destroy(m, list[i], ReplyAt(replies, i)).machine, list, replies, i + 1);
    }
  }

  lemma RootsComeFirst(m: Machine, order: seq<Snap>, pool: string, i: nat)
    requires FullListing(m, order) && i < |Listed(m, order)| && Listed(m, order)[i].dataset == pool
    requires forall x :: x in Stale(m) ==> Within(x.dataset, pool)
    ensures i < LeadingRoots(Listed(m, order), pool)
  {
    var list := Listed(m, order);
    var n := LeadingRoots(list, pool);
    if n < |list| {
      assert list[n] in list && Within(list[n].dataset, pool);
    }
  }

  /**
   * The cleanup is complete despite its early abort: when all tool snapshots are in the configured
   * pool, each tag has its pool-root snapshot and the destroys of those roots succeed, none remains,
   * whatever the replies to the later, already removed, children are.
   */
  lemma CleanupIsComplete(m: Machine, o: ZfsOracle, pool: string)
    requires Succeeds(o.list) && FullListing(m, o.order)
    requires forall x :: x in Stale(m) ==> Within(x.dataset, pool) && Snap(pool, x.tag) in m.snaps
    requires forall k :: 0 <= k < LeadingRoots(Listed(m, o.order), pool) ==> Succeeds(ReplyAt(o.sweep, k))
    ensures Stale(Cleanup(m, o).machine) == {}
  {
    var list := Listed(m, o.order);
    var n := LeadingRoots(list, pool);
    forall h | 0 <= h < |list| ensures list[h] in m.snaps && Tool(list[h]) {
      assert list[h] in list;
    }
    assert Swept(m, list, 0) == m;
    SweepReaches(m, list, o.sweep, 0, n);
    SweepOnlyRemoves(Swept(m, list, n), list, o.sweep, n);
    forall x | x in Stale(m) ensures CoveredBefore(list, n, x) {
      assert Snap(pool, x.tag) in Stale(m);
      var i :| 0 <= i < |list| && list[i] == Snap(pool, x.tag);
      RootsComeFirst(m, o.order, pool, i);
      assert Covers(list[i], x);
    }
  }

  lemma {:induction false} AllListed(m: Machine, order: seq<Snap>)
    requires forall s :: s in order ==> s in Stale(m)
    ensures Listed(m, order) == order
  {
    if order != [] {
      AllListed(m, order[1..]);
    }
  }

  /**
   * Two pools are enough to defeat it although every command works: the child of the first pool's
   * leftover is refused, and the second pool's leftover is never reached.
   */
  lemma SecondPoolCanBeMissed(o: ZfsOracle, tag: string)
    requires Succeeds(o.list) && o.sweep == [] && TOOL_TAG <= tag
    requires o.order == [Snap("bpool", tag), Snap("bpool/boot", tag), Snap("rpool", tag)]
    ensures var m := Machine({"bpool", "bpool/boot", "rpool"},
              {Snap("bpool", tag), Snap("bpool/boot", tag), Snap("rpool", tag)});
            Snap("rpool", tag) in Stale(Cleanup(m, o).machine)
  {
    var m := Machine({"bpool", "bpool/boot", "rpool"},
      {Snap("bpool", tag), Snap("bpool/boot", tag), Snap("rpool", tag)});
    var list := o.order;
    AllListed(m, o.order);
    assert Covers(list[0], list[1]);
    assert CoveredBefore(list, 1, list[1]);
    assert !CoveredBefore(list, 0, list[0]);
    CleanupLeavesExactly(m, o);
    assert !Within("rpool", "bpool");
  }

  // ---------------------------------------------------------------- sequences of runs

  /** One run: the machine it finds and what it meets. */
  datatype ZfsNight = ZfsNight(start: Machine, o: ZfsOracle)

  function MachineAfter(s: ServerConfig, n: ZfsNight): Machine {
    var cleaned := Cleanup(n.start, n.o);
    if cleaned.status.Unreadable? then cleaned.machine
    else
      var created := Create(cleaned.machine, OwnSnap(s, n.o.at), n.o.create);
      if created.status.Good? then Destroy(created.machine, OwnSnap(s, n.o.at), n.o.destroy).machine
        else created.machine
  }

  /** The files never influence the snapshots. */
  lemma MachineAfterIsWhatRuns(s: ServerConfig, st: BackupSettings, n: ZfsNight, dirs: Dirs)
    ensures BackupZfs(s, st, n.o, false, n.start, dirs).machine == MachineAfter(s, n)
  {
  }

  /**
   * Between two runs the machine may change in any way, except that nobody else creates
   * `pull_backup_` snapshots; the clock is strictly increasing.
   */
  ghost predicate Linked(s: ServerConfig, nights: seq<ZfsNight>) {
    && (forall i :: 0 <= i < |nights| ==> nights[i].o.at.Valid())
    && (forall i, j :: 0 <= i < j < |nights| ==> nights[i].o.at.Before(nights[j].o.at))
    && (forall i {:trigger nights[i].start} :: 0 < i < |nights| ==>
       Stale(nights[i].start) <= Stale(MachineAfter(s, nights[i - 1])))
  }

  /** Did the run leave its own snapshot, or part of it, behind? Not if it was created and destroyed. */
  ghost predicate MayLeak(s: ServerConfig, n: ZfsNight) {
    !(ReportedCreated(s, n.o, n.start) && DestroySucceeded(s, n.o, n.start))
  }

  lemma OneRunLeaves(s: ServerConfig, n: ZfsNight, x: Snap)
    requires x in Stale(MachineAfter(s, n))
    ensures x in Stale(Cleanup(n.start, n.o).machine) || (x.tag == OwnSnap(s, n.o.at).tag && MayLeak(s, n))
  {
    var own := OwnSnap(s, n.o.at);
    var cleaned := Cleanup(n.start, n.o);
    if x !in cleaned.machine.snaps {
      var created := Create(cleaned.machine, own, n.o.create);
      assert x in New(cleaned.machine.datasets, own);
      assert x in created.machine.snaps ==> x in Below(created.machine.snaps, own);
    }
  }

  /** The snapshot carries the tag of run `i`, and that run failed to destroy it. */
  ghost predicate LeftBy(s: ServerConfig, nights: seq<ZfsNight>, i: nat, x: Snap)
    requires i < |nights|
  {
    x.tag == OwnSnap(s, nights[i].o.at).tag && MayLeak(s, nights[i])
  }

  lemma LeftNowOrBefore(s: ServerConfig, nights: seq<ZfsNight>, k: nat, x: Snap)
    requires k < |nights| && x in Stale(MachineAfter(s, nights[k]))
    ensures LeftBy(s, nights, k, x) || x in Stale(Cleanup(nights[k].start, nights[k].o).machine)
  {
    OneRunLeaves(s, nights[k], x);
  }

  lemma LeftoverWasThere(s: ServerConfig, nights: seq<ZfsNight>, k: nat, x: Snap)
    requires Linked(s, nights) && 0 < k < |nights|
    requires x in Stale(Cleanup(nights[k].start, nights[k].o).machine)
    ensures x in Stale(MachineAfter(s, nights[k - 1]))
  {
    CleanupFrame(nights[k].start, nights[k].o);
    assert x in Stale(nights[k].start);
  }

  /**
   * After a run whose cleanup removed every leftover, and any number of further runs, each remaining
   * tool snapshot carries the tag of one of these runs, and that run failed to destroy it.
   */
  lemma {:induction false} LeftoversAreRecent(s: ServerConfig, nights: seq<ZfsNight>, j: nat, k: nat,
                                        x: Snap) returns (i: nat)
    requires Linked(s, nights) && j <= k < |nights|
    requires Stale(Cleanup(nights[j].start, nights[j].o).machine) == {}
    requires x in Stale(MachineAfter(s, nights[k]))
    ensures j <= i <= k && LeftBy(s, nights, i, x)
  {
    LeftNowOrBefore(s, nights, k, x);
    if LeftBy(s, nights, k, x) {
      i := k;
    } else {
      LeftoverWasThere(s, nights, k, x);
      i := LeftoversAreRecent(s, nights, j, k - 1, x);
    }
  }

  lemma TagsAreInjective(s: ServerConfig, a: Moment, b: Moment)
    requires a.Valid() && b.Valid() && OwnSnap(s, a).tag == OwnSnap(s, b).tag
    ensures a == b
  {
    assert OwnSnap(s, a).tag[|TOOL_TAG|..] == BuildTimestamp(a);
    assert OwnSnap(s, b).tag[|TOOL_TAG|..] == BuildTimestamp(b);
    TimestampIsInjective(a, b);
  }

  /**
   * So a snapshot leaked by one run survives only until the next run whose cleanup gets through, and never
   * comes back.
   */
  lemma LeakIsBounded(s: ServerConfig, nights: seq<ZfsNight>, i: nat, j: nat, k: nat, x: Snap)
    requires Linked(s, nights) && i < j <= k < |nights|
    requires Stale(Cleanup(nights[j].start, nights[j].o).machine) == {}
    requires Tool(x) && x.tag == OwnSnap(s, nights[i].o.at).tag
    ensures x !in MachineAfter(s, nights[k]).snaps
  {
    if x in MachineAfter(s, nights[k]).snaps {
      var h := LeftoversAreRecent(s, nights, j, k, x);
      TagsAreInjective(s, nights[i].o.at, nights[h].o.at);
    }
  }

  /** With one pool, that is the next run whose listing and whose destroys of the pool's own snapshots succeed. */
  lemma NextGoodCleanupEndsTheLeak(s: ServerConfig, nights: seq<ZfsNight>, i: nat, j: nat, k: nat, x: Snap)
    requires Linked(s, nights) && i < j <= k < |nights|
    requires Tool(x) && x.tag == OwnSnap(s, nights[i].o.at).tag
    requires Succeeds(nights[j].o.list) && FullListing(nights[j].start, nights[j].o.order)
    requires forall y :: y in Stale(nights[j].start) ==>
               Within(y.dataset, s.zfsPool) && Snap(s.zfsPool, y.tag) in nights[j].start.snaps
    requires forall h :: 0 <= h < LeadingRoots(Listed(nights[j].start, nights[j].o.order), s.zfsPool) ==>
               Succeeds(ReplyAt(nights[j].o.sweep, h))
    ensures x !in MachineAfter(s, nights[k]).snaps
  {
    CleanupIsComplete(nights[j].start, nights[j].o, s.zfsPool);
    LeakIsBounded(s, nights, i, j, k, x);
  }
}
