/**
 * adapters/backup/zfs_backup.py: create a recursive snapshot, stream it, destroy it, and sweep up what earlier
 * runs left.
 */
module Snapshots {
  import opened Text
  import opened Names
  import opened Paths
  import opened Outcomes
  import opened Retention
  import opened Disk
  import opened Models
  import opened Archives

  // ---------------------------------------------------------------- the remote machine

  datatype Snap = Snap(dataset: string, tag: string)

  datatype Machine = Machine(datasets: set<string>, snaps: set<Snap>)

  predicate Within(dataset: string, root: string) {
    dataset == root || root + "/" <= dataset
  }

  /** A dataset is within another when its path is that of the other or continues it. */
  lemma WithinIsBelow(dataset: string, root: string)
    ensures Within(dataset, root) <==> Split(root, '/') <= Split(dataset, '/')
  {
    var p, q := Split(root, '/'), Split(dataset, '/');
    JoinOfSplit(root, '/');
    JoinOfSplit(dataset, '/');
    PrefixTestIsPathTest(p, q, '/');
    assert p <= q ==> p == q || p < q by {
      if p <= q && |p| == |q| { assert p == q[..|p|] == q; }
    }
  }

  /** What `zfs destroy -r s` is about: the snapshots of that tag on the dataset and below it. */
  function Below(snaps: set<Snap>, s: Snap): set<Snap> {
    set x | x in snaps && x.tag == s.tag && Within(x.dataset, s.dataset)
  }

  /** What `zfs snapshot -r s` makes. */
  function New(datasets: set<string>, s: Snap): set<Snap> {
    set d | d in datasets && Within(d, s.dataset) :: Snap(d, s.tag)
  }

  /**
   * How `ssh_run` or `local_run` ends. A command that does not report success may still have
   * done part of its work (the connection can drop at any moment): `did` bounds that part.
   */
  datatype Reply =
    | NoAnswer                            // the command could not be started
    | Answered(code: int, did: set<Snap>)
    | Garbled(did: set<Snap>)             // its output is not text: the error is not an SSHConnectionError

  datatype Status = Good | Failed | Unreadable

  datatype Acted = Acted(machine: Machine, status: Status)

  /** Destroying recursively where nothing matches is refused. */
  function Destroy(m: Machine, s: Snap, r: Reply): Acted {
    var target := Below(m.snaps, s);
    match r
    case NoAnswer => Acted(m, Failed)
    case Garbled(did) => Acted(m.(snaps := m.snaps - did * target), Unreadable)
    case Answered(code, did) =>
      if code == 0 && target != {} then Acted(m.(snaps := m.snaps - target), Good)
      else if code == 0 then Acted(m, Failed)
      else Acted(m.(snaps := m.snaps - did * target), Failed)
  }

  /** A recursive snapshot needs its dataset and is refused when one of the snapshots exists. */
  function Create(m: Machine, s: Snap, r: Reply): Acted {
    var made := if s.dataset in m.datasets && New(m.datasets, s) !! m.snaps then New(m.datasets, s) else {};
    match r
    case NoAnswer => Acted(m, Failed)
    case Garbled(did) => Acted(m.(snaps := m.snaps + did * made), Unreadable)
    case Answered(code, did) =>
      if code == 0 && made != {} then Acted(m.(snaps := m.snaps + made), Good)
      else if code == 0 then Acted(m, Failed)
      else Acted(m.(snaps := m.snaps + did * made), Failed)
  }

  /**
   * What a destroy can do: success leaves none of its snapshots, failure removes a part of them, and nothing
   * else goes.
   */
  lemma DestroyIsConfined(m: Machine, s: Snap, r: Reply)
    ensures var a := Destroy(m, s, r);
            && a.machine.datasets == m.datasets
            && (forall x :: x in a.machine.snaps ==> x in m.snaps)
            && (forall x :: x in m.snaps && x !in a.machine.snaps ==> x.tag == s.tag && Within(x.dataset, s.dataset))
            && (a.status.Good? ==> forall x :: x in a.machine.snaps ==> x.tag != s.tag || !Within(x.dataset, s.dataset))
            && (a.status.Good? ==> a.machine.snaps != m.snaps)
            && (Below(m.snaps, s) == {} ==> a.machine == m && !a.status.Good?)
  {
    if Destroy(m, s, r).status.Good? {
      var x :| x in Below(m.snaps, s);
      assert x in m.snaps && x !in Destroy(m, s, r).machine.snaps;
    }
  }

  /**
   * What a create can do: success adds the tag on the dataset and everything below it and meets none of
   * these before, failure adds a part of them, and nothing goes. A destroy of the same snapshot undoes it.
   */
  lemma DestroyUndoesCreate(m: Machine, s: Snap, created: Reply, destroyed: Reply)
    ensures var a := Create(m, s, created);
            && a.machine.datasets == m.datasets && m.snaps <= a.machine.snaps
            && (forall x :: x in a.machine.snaps && x !in m.snaps ==>
               x.tag == s.tag && Within(x.dataset, s.dataset) && x.dataset in m.datasets)
            && (a.status.Good? ==>
                && s in a.machine.snaps
                && (forall d :: d in m.datasets && Within(d, s.dataset) ==>
                   Snap(d, s.tag) in a.machine.snaps && Snap(d, s.tag) !in m.snaps))
            && (a.status.Good? && Below(m.snaps, s) == {} && Destroy(a.machine, s, destroyed).status.Good? ==>
                Destroy(a.machine, s, destroyed).machine == m)
  {
    var a := Create(m, s, created);
    if a.status.Good? {
      assert s == Snap(s.dataset, s.tag) && s in New(m.datasets, s);
      if Below(m.snaps, s) == {} {
        forall x ensures x in a.machine.snaps - Below(a.machine.snaps, s) <==> x in m.snaps {
          if x in m.snaps { assert x !in Below(m.snaps, s); }
        }
        assert a.machine.snaps - Below(a.machine.snaps, s) == m.snaps;
      }
    }
  }

  predicate Tool(s: Snap) {
    TOOL_TAG <= s.tag
  }

  function Stale(m: Machine): set<Snap> {
    set s | s in m.snaps && Tool(s)
  }

  function Others(m: Machine): set<Snap> {
    m.snaps - Stale(m)
  }

  /** `grep '@pull_backup_'` on the printed names selects by tag, because ZFS names hold no other `@`. */
  lemma GrepSelectsTheTool(s: Snap)
    requires '@' !in s.dataset && '@' !in s.tag
    ensures Contains(s.dataset + "@" + s.tag, "@" + TOOL_TAG) <==> Tool(s)
  {
    var line, needle := s.dataset + "@" + s.tag, "@" + TOOL_TAG;
    if Tool(s) {
      assert line[|s.dataset|..|s.dataset| + |needle|] == needle;
      assert OccursAt(line, needle, |s.dataset|);
    }
    if Contains(line, needle) {
      var k :| OccursAt(line, needle, k);
      assert line[k..k + |needle|][0] == '@';
      assert k == |s.dataset|;
      assert s.tag[..|TOOL_TAG|] == line[k..k + |needle|][1..];
    }
  }

  // ---------------------------------------------------------------- one run

  datatype ZfsOracle = ZfsOracle(
    at: Moment,
    list: Reply, order: seq<Snap>,      // the listing's reply, and the order it lists snapshots in
    sweep: seq<Reply>,                  // the replies to the cleanup's destroys; success when there are no more
    create: Reply, send: Transfer, destroy: Reply, stuck: set<string>)

  function ReplyAt(replies: seq<Reply>, i: nat): Reply {
    if i < |replies| then replies[i] else Answered(0, {})
  }

  /** The lines the listing prints: only tool snapshots that exist. */
  function Listed(m: Machine, order: seq<Snap>): (list: seq<Snap>)
    ensures forall s :: s in list <==> s in order && s in Stale(m)
  {
    if order == [] then []
    else (if order[0] in Stale(m) then [order[0]] else []) + Listed(m, order[1..])
  }

  /** The cleanup loop from entry `i` on: the first destroy that does not succeed ends it. */
  function Sweep(m: Machine, list: seq<Snap>, replies: seq<Reply>, i: nat): Acted
    decreases |list| - i
  {
    if i >= |list| then Acted(m, Good)
    else
      var a := Destroy(m, list[i], ReplyAt(replies, i));
      match a.status
      case Good => Sweep(a.machine, list, replies, i + 1)
      case Failed => Acted(a.machine, Good)
      case Unreadable => a
  }

  function Cleanup(m: Machine, o: ZfsOracle): Acted {
    match o.list
    case NoAnswer => Acted(m, Good)
    case Garbled(_) => Acted(m, Unreadable)
    case Answered(code, _) => if code != 0 then Acted(m, Good) else Sweep(m, Listed(m, o.order), o.sweep, 0)
  }

  function OwnSnap(s: ServerConfig, at: Moment): Snap {
    Snap(s.zfsPool, BuildSnapshotTag(BuildTimestamp(at)))
  }

  datatype ZfsEnd = ZfsEnd(machine: Machine, dirs: Dirs, result: Result<()>)

  /** A `SSHConnectionError` is reported as a `SnapshotError`; anything else passes. */
  function AsSnapshotError(r: Result<()>): Result<()> {
    if r == Raised(SshFault) then Raised(SnapshotFault) else r
  }

  function StreamTarget(s: ServerConfig, st: BackupSettings, at: Moment): Path {
    Into(SnapshotsDir(st.baseDir, s.name), BuildSnapshotFilename(s.name, s.zfsPool, BuildTimestamp(at)))
  }

  function StreamTask(s: ServerConfig, st: BackupSettings, o: ZfsOracle): Task {
    Task(SnapshotsDir(st.baseDir, s.name), StreamTarget(s, st, o.at),
         OfTransfer(o.send), SNAPSHOT_PATTERN, st.zfsRetention, o.stuck)
  }

  function Stream(s: ServerConfig, st: BackupSettings, o: ZfsOracle, dirs: Dirs): Ended {
    var written := Written(StreamTask(s, st, o), dirs);
    Ended(written.dirs, AsSnapshotError(written.result))
  }

  /** What follows the transfer: destroy the snapshot in any case, then prune if all went well. */
  function AfterStream(t: Task, own: Snap, destroy: Reply, sent: Result<()>, m: Machine, written: Dirs): ZfsEnd {
    var destroyed := Destroy(m, own, destroy);
    if destroyed.status.Unreadable? then ZfsEnd(destroyed.machine, written, Raised(DecodeFault))
    else if sent.Raised? then ZfsEnd(destroyed.machine, written, sent)
    else
      var pruned := PruneIn(written, t.directory, t.pattern, t.keep, t.stuck);
      ZfsEnd(destroyed.machine, pruned.dirs, pruned.result)
  }

  /** From the moment the snapshot is noted as created. */
  function StreamAndDestroy(s: ServerConfig, st: BackupSettings, o: ZfsOracle, m: Machine, dirs: Dirs): ZfsEnd {
    var sent := Stream(s, st, o, dirs);
    AfterStream(StreamTask(s, st, o), OwnSnap(s, o.at), o.destroy, sent.result, m, sent.dirs)
  }

  function BackupZfs(s: ServerConfig, st: BackupSettings, o: ZfsOracle, dryRun: bool, m: Machine, dirs: Dirs): ZfsEnd {
    if dryRun then ZfsEnd(m, dirs, Done(()))
    else
      var cleaned := Cleanup(m, o);
      if cleaned.status.Unreadable? then ZfsEnd(cleaned.machine, dirs, Raised(DecodeFault))
      else
        var created := Create(cleaned.machine, OwnSnap(s, o.at), o.create);
        match created.status
        case Failed => ZfsEnd(created.machine, dirs, Raised(SnapshotFault))
        case Unreadable => ZfsEnd(created.machine, dirs, Raised(DecodeFault))
        case Good => StreamAndDestroy(s, st, o, created.machine, dirs)
  }

  // ---------------------------------------------------------------- the program's own steps

  class Host {
    var machine: Machine

    method RunDestroy(s: Snap, r: Reply) returns (status: Status)
      modifies this
      ensures Acted(machine, status) == Destroy(old(machine), s, r)
    {
      var a := Destroy(machine, s, r);
      machine := a.machine;
      return a.status;
    }

    method RunCreate(s: Snap, r: Reply) returns (status: Status)
      modifies this
      ensures Acted(machine, status) == Create(old(machine), s, r)
    {
      var a := Create(machine, s, r);
      machine := a.machine;
      return a.status;
    }
  }

  /** `_cleanup_stale_snapshots`; false when an error that is not an SSHConnectionError escapes. */
  method RunCleanup(host: Host, o: ZfsOracle) returns (returned: bool)
    modifies host
    ensures host.machine == Cleanup(old(host.machine), o).machine
    ensures returned <==> !Cleanup(old(host.machine), o).status.Unreadable?
  {
    if o.list.Garbled? {
      return false;
    }
    if o.list.NoAnswer? || o.list.code != 0 {
      return true;
    }
    var staleSnapshots := Listed(host.machine, o.order);
    for i := 0 to |staleSnapshots|
      invariant Sweep(host.machine, staleSnapshots, o.sweep, i) == Cleanup(old(host.machine), o)
    {
      var status := host.RunDestroy(staleSnapshots[i], ReplyAt(o.sweep, i));
      if status.Failed? {
        return true;
      }
      if status.Unreadable? {
        return false;
      }
    }
    return true;
  }

  /** `backup_zfs`, its `try`/`finally` written out. */
  method RunBackupZfs(s: ServerConfig, st: BackupSettings, o: ZfsOracle, dryRun: bool, host: Host, store: Store)
    returns (r: Result<()>)
    modifies host, store
    ensures ZfsEnd(host.machine, store.dirs, r) == BackupZfs(s, st, o, dryRun, old(host.machine), old(store.dirs))
  {
    if dryRun {
      return Done(());
    }
    var returned := RunCleanup(host, o);
    if !returned {
      return Raised(DecodeFault);
    }
    var snapshotCreated := false;
    var pending := Done(());
    var status := host.RunCreate(OwnSnap(s, o.at), o.create);
    if status.Failed? {
      pending := Raised(SnapshotFault);
    } else if status.Unreadable? {
      pending := Raised(DecodeFault);
    } else {
      snapshotCreated := true;
      var target := StreamTarget(s, st, o.at);
      var sent := store.PipeToFile(target, o.send);
      TransferIs(Listing(old(store.dirs), Parent(target)), FileName(target), o.send,
        Listing(store.dirs, Parent(target)), sent);
      pending := AsSnapshotError(sent);
    }
    if snapshotCreated {
      status := host.RunDestroy(OwnSnap(s, o.at), o.destroy);
      if status.Unreadable? {
        pending := Raised(DecodeFault);
      }
    }
    if pending.Raised? {
      return pending;
    }
    var deleted := store.ApplyRetention(SnapshotsDir(st.baseDir, s.name), SNAPSHOT_PATTERN, st.zfsRetention, o.stuck);
    return Plainly(deleted);
  }
}
