/** The backup server's own disk: adapters/ssh/commands.py writes archives to it, retention.py prunes it. */
module Disk {
  import opened Paths
  import opened Outcomes
  import opened Retention

  /** What one `*_pipe_to_file` call meets. */
  datatype Transfer =
    | Unopened                          // creating the directory or opening the file raised
    | NotStarted                        // `Popen` raised: the file is already open, and empty
    | Exited(code: int, data: string)   // the command ran and wrote `data`

  /** What capturing one `dpkg` listing meets. */
  datatype Capture =
    | NoReply                           // ssh failed or the command exited non-zero
    | NotText                           // the output could not be decoded
    | Unwritable(stdout: string)        // the text file could not be created
    | CutShort(stdout: string, written: string)
    | Saved(stdout: string)

  /** What an attempt to write one file does to its directory. */
  datatype Write =
    | Nothing(fault: Fault)
    | Leftover(data: string, fault: Fault)
    | Withdrawn(fault: Fault)
    | Complete(data: string)

  function OfTransfer(t: Transfer): Write {
    match t
    case Unopened => Nothing(OsFault)
    case NotStarted => Leftover("", SshFault)
    case Exited(code, data) => if code == 0 then Complete(data) else Withdrawn(SshFault)
  }

  function OfCapture(c: Capture): Write {
    match c
    case NoReply => Nothing(SshFault)
    case NotText => Nothing(DecodeFault)
    case Unwritable(_) => Nothing(OsFault)
    case CutShort(_, written) => Leftover(written, OsFault)
    case Saved(stdout) => Complete(stdout)
  }

  predicate Blocked(folder: Folder, name: string) {
    name in folder && folder[name].Subdirectory?
  }

  datatype Change = Change(folder: Folder, result: Result<()>)

  function Apply(folder: Folder, name: string, w: Write): Change {
    if w.Nothing? then Change(folder, Raised(w.fault))
    else if Blocked(folder, name) then Change(folder, Raised(OsFault))
    else
      match w
      case Leftover(data, fault) => Change(folder[name := File(data)], Raised(fault))
      case Withdrawn(fault) => Change(folder - {name}, Raised(fault))
      case Complete(data) => Change(folder[name := File(data)], Done(()))
  }

  /** What a transfer leaves in its file, if it leaves one: all that the command wrote, or nothing if it never ran. */
  ghost predicate TransferLeft(t: Transfer, entry: Entry) {
    match t
    case Unopened => false
    case NotStarted => entry == File("")
    case Exited(code, data) => code == 0 && entry == File(data)
  }

  /** What a capture leaves in its file, if it leaves one: the whole text, or the part that could be written. */
  ghost predicate CaptureLeft(c: Capture, entry: Entry) {
    match c
    case CutShort(_, written) => entry == File(written)
    case Saved(stdout) => entry == File(stdout)
    case _ => false
  }

  /** Does this write leave a file under `name`? */
  predicate Lands(folder: Folder, name: string, w: Write) {
    (w.Leftover? || w.Complete?) && !Blocked(folder, name)
  }

  /** How a transfer to `name` ends, and what it makes of the directory. */
  ghost predicate TransferDone(before: Folder, name: string, t: Transfer, after: Folder, r: Result<()>) {
    if t.Unopened? || Blocked(before, name) then after == before && r == Raised(OsFault)
    else
      match t
      case NotStarted => after == before[name := File("")] && r == Raised(SshFault)
      case Exited(code, data) =>
        if code == 0 then after == before[name := File(data)] && r == Done(())
        else after == before - {name} && r == Raised(SshFault)
  }

  /** How a capture written to `name` ends, and what it makes of the directory. */
  ghost predicate CaptureDone(before: Folder, name: string, c: Capture, after: Folder, r: Result<()>) {
    match c
    case NoReply => after == before && r == Raised(SshFault)
    case NotText => after == before && r == Raised(DecodeFault)
    case Unwritable(_) => after == before && r == Raised(OsFault)
    case CutShort(_, written) =>
      after == (if Blocked(before, name) then before else before[name := File(written)]) && r == Raised(OsFault)
    case Saved(stdout) =>
      if Blocked(before, name) then after == before && r == Raised(OsFault)
      else after == before[name := File(stdout)] && r == Done(())
  }

  lemma TransferIs(folder: Folder, name: string, t: Transfer, after: Folder, r: Result<()>)
    ensures TransferDone(folder, name, t, after, r) <==> Change(after, r) == Apply(folder, name, OfTransfer(t))
  {
  }

  lemma CaptureIs(folder: Folder, name: string, c: Capture, after: Folder, r: Result<()>)
    ensures CaptureDone(folder, name, c, after, r) <==> Change(after, r) == Apply(folder, name, OfCapture(c))
  {
  }

  /** A transfer that exits non-zero leaves the directory as it was, exactly when nothing had that name before. */
  lemma FailedTransferLeavesNoTrace(folder: Folder, name: string, code: int, data: string)
    requires code != 0
    ensures Apply(folder, name, OfTransfer(Exited(code, data))).folder == folder <==>
            name !in folder || Blocked(folder, name)
  {
    if name in folder && folder[name].File? {
      assert name !in folder - {name};
    }
  }

  lemma WithoutNone(folder: Folder)
    ensures Without(folder, []) == folder
  {
  }

  lemma NothingToPrune(folder: Folder, pattern: string, keep: int, stuck: set<string>)
    requires |Sorted(Matches(folder, pattern))| <= keep
    ensures Prune(folder, pattern, keep, stuck) == Pruned(folder, Done([]))
  {
    WithoutNone(folder);
  }

  lemma PruneUnlinks(folder: Folder, pattern: string, keep: int, stuck: set<string>, toDelete: seq<string>)
    requires toDelete == Doomed(Sorted(Matches(folder, pattern)), keep)
    ensures var n := Unlinked(toDelete, stuck);
            Prune(folder, pattern, keep, stuck) ==
            Pruned(Without(folder, toDelete[..n]),
              if n == |toDelete| then Done(toDelete) else Raised(RetentionFault(toDelete[n])))
  {
  }

  lemma WithoutOneMore(folder: Folder, names: seq<string>, i: nat)
    requires i < |names|
    ensures Without(folder, names[..i]) - {names[i]} == Without(folder, names[..i + 1])
  {
    assert names[..i + 1] == names[..i] + [names[i]];
  }

  lemma {:induction false} UnlinkedAt(doomed: seq<string>, stuck: set<string>, i: nat)
    requires i <= Unlinked(doomed, stuck) && i < |doomed|
    ensures doomed[i] in stuck <==> i == Unlinked(doomed, stuck)
  {
  }

  lemma Truncated(folder: Folder, name: string, data: string)
    ensures folder[name := File("")] - {name} == folder - {name}
    ensures folder[name := File("")][name := File(data)] == folder[name := File(data)]
  {
  }

  class Store {
    var dirs: Dirs

    /** Replace the entries of one directory. */
    method Replace(directory: Path, folder: Folder)
      modifies this
      ensures dirs == Put(old(dirs), directory, folder)
      ensures Listing(dirs, directory) == folder
    {
      ListingAfterPut(dirs, directory, folder);
      dirs := Put(dirs, directory, folder);
    }

    /** `ssh_pipe_to_file` and `local_pipe_to_file`. */
    method PipeToFile(target: Path, t: Transfer) returns (r: Result<()>)
      modifies this
      ensures dirs == Put(old(dirs), Parent(target), Listing(dirs, Parent(target)))
      ensures TransferDone(Listing(old(dirs), Parent(target)), FileName(target), t, Listing(dirs, Parent(target)), r)
    {
      var directory, name := Parent(target), FileName(target);
      var folder := Listing(dirs, directory);
      if t.Unopened? || Blocked(folder, name) {
        PutTwice(dirs, directory, folder, folder);
        return Raised(OsFault);
      }
      var truncated := folder[name := File("")];
      Replace(directory, truncated);
      if t.NotStarted? {
        return Raised(SshFault);
      }
      if t.code != 0 {
        Truncated(folder, name, t.data);
        Replace(directory, Listing(dirs, directory) - {name});
        PutTwice(old(dirs), directory, truncated, folder - {name});
        return Raised(SshFault);
      }
      Truncated(folder, name, t.data);
      Replace(directory, Listing(dirs, directory)[name := File(t.data)]);
      PutTwice(old(dirs), directory, truncated, folder[name := File(t.data)]);
      return Done(());
    }

    /** Capture a command's output and write it as a text file: `_run_and_capture`, `mkdir`, `write_text`. */
    method SaveText(target: Path, c: Capture) returns (r: Result<()>)
      modifies this
      ensures dirs == Put(old(dirs), Parent(target), Listing(dirs, Parent(target)))
      ensures CaptureDone(Listing(old(dirs), Parent(target)), FileName(target), c, Listing(dirs, Parent(target)), r)
    {
      var directory, name := Parent(target), FileName(target);
      var folder := Listing(dirs, directory);
      PutTwice(dirs, directory, folder, folder);
      if c.NoReply? {
        return Raised(SshFault);
      }
      if c.NotText? {
        return Raised(DecodeFault);
      }
      if c.Unwritable? || Blocked(folder, name) {
        return Raised(OsFault);
      }
      if c.CutShort? {
        Replace(directory, folder[name := File(c.written)]);
        return Raised(OsFault);
      }
      Replace(directory, folder[name := File(c.stdout)]);
      return Done(());
    }

    /** The deleting loop of `apply_retention`: it raises at the first file that cannot be unlinked. */
    method UnlinkAll(directory: Path, toDelete: seq<string>, stuck: set<string>) returns (r: Result<seq<string>>)
      modifies this
      ensures var n := Unlinked(toDelete, stuck);
              && dirs == Put(old(dirs), directory, Without(Listing(old(dirs), directory), toDelete[..n]))
              && r == if n == |toDelete| then Done(toDelete) else Raised(RetentionFault(toDelete[n]))
    {
      var folder := Listing(dirs, directory);
      WithoutNone(folder);
      PutTwice(dirs, directory, folder, folder);
      var deleted: seq<string> := [];
      for i := 0 to |toDelete|
        invariant deleted == toDelete[..i] && i <= Unlinked(toDelete, stuck)
        invariant Listing(dirs, directory) == Without(folder, toDelete[..i])
        invariant dirs == Put(old(dirs), directory, Without(folder, toDelete[..i]))
      {
        UnlinkedAt(toDelete, stuck, i);
        if toDelete[i] in stuck {
          return Raised(RetentionFault(toDelete[i]));
        }
        WithoutOneMore(folder, toDelete, i);
        Replace(directory, Listing(dirs, directory) - {toDelete[i]});
        PutTwice(old(dirs), directory, Without(folder, toDelete[..i]), Without(folder, toDelete[..i + 1]));
        deleted := deleted + [toDelete[i]];
      }
      assert toDelete[..|toDelete|] == toDelete;
      return Done(deleted);
    }

    /** `apply_retention`; `stuck` are the files whose `unlink` raises. */
    method ApplyRetention(directory: Path, pattern: string, keep: int,
                          stuck: set<string>) returns (r: Result<seq<string>>)
      modifies this
      ensures var p := Prune(Listing(old(dirs), directory), pattern, keep, stuck);
              dirs == Put(old(dirs), directory, p.folder) && r == p.result
    {
      var folder := Listing(dirs, directory);
      var files := Sorted(Matches(folder, pattern));
      if |files| <= keep {
        NothingToPrune(folder, pattern, keep, stuck);
        PutTwice(dirs, directory, folder, folder);
        return Done([]);
      }
      var toDelete := if keep <= 0 then files else files[..|files| - keep];
      PruneUnlinks(folder, pattern, keep, stuck, toDelete);
      r := UnlinkAll(directory, toDelete, stuck);
    }
  }
}
