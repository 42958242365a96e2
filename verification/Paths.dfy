/** Where a server's files go: `base / server / "configs"`, `base / server / "snapshots"` and what is below them. */
module Paths {
  import opened Text
  import opened Names

  /** The components of an absolute path. */
  type Path = seq<string>

  /** pathlib drops these components when it joins paths. */
  predicate Blank(component: string) {
    component == "" || component == "."
  }

  function Solid(components: seq<string>): Path {
    if components == [] then []
    else if Blank(components[0]) then Solid(components[1..])
    else [components[0]] + Solid(components[1..])
  }

  /** `directory / relative`; a right-hand side that starts with a slash replaces the left one. */
  function Into(directory: Path, relative: string): Path {
    var components := Solid(Split(relative, '/'));
    if relative != "" && relative[0] == '/' then components else directory + components
  }

  function Parent(p: Path): Path {
    if p == [] then [] else p[..|p| - 1]
  }

  function FileName(p: Path): string {
    if p == [] then "" else p[|p| - 1]
  }

  function ServerDir(base: Path, server: string): Path {
    Into(base, server)
  }

  function ConfigsDir(base: Path, server: string): Path {
    ServerDir(base, server) + ["configs"]
  }

  function SnapshotsDir(base: Path, server: string): Path {
    ServerDir(base, server) + ["snapshots"]
  }

  /** A name that is one path component of its own: not blank, and not the parent directory. */
  predicate Plain(name: string) {
    '/' !in name && !Blank(name) && name != ".."
  }

  /** A ZFS name that stays below the directory it is appended to: relative, and without parent directories. */
  predicate Descends(pool: string) {
    (pool == "" || pool[0] != '/') && ".." !in Split(pool, '/')
  }

  lemma {:induction false} SolidKeepsPlain(components: seq<string>)
    requires forall k :: 0 <= k < |components| ==> !Blank(components[k])
    ensures Solid(components) == components
  {
    if components != [] {
      SolidKeepsPlain(components[1..]);
    }
  }

  lemma PlainNameStays(directory: Path, name: string)
    requires Plain(name)
    ensures Into(directory, name) == directory + [name]
  {
    SplitOfWord(name, '/');
    SolidKeepsPlain([name]);
  }

  /** Where the archives and the streams of a server go. */
  lemma OwnDirectories(base: Path, server: string)
    requires Plain(server)
    ensures ConfigsDir(base, server) == base + [server, "configs"]
    ensures SnapshotsDir(base, server) == base + [server, "snapshots"]
  {
    PlainNameStays(base, server);
  }

  /** Joining as pathlib does it: a leading slash starts over, and empty and `.` components vanish. */
  lemma JoinsAsPathlib(directory: Path, relative: string)
    ensures Into(directory, "") == directory
    ensures Into(directory, "/" + relative) == Into([], relative)
    ensures relative == "" || relative[0] != '/' ==> Into(directory, "./" + relative) == Into(directory, relative)
  {
    assert [""][1..] == [];
    assert ("/" + relative)[1..] == relative;
    assert Split("/" + relative, '/') == [""] + Split(relative, '/');
    assert ([""] + Split(relative, '/'))[1..] == Split(relative, '/');
    SplitAfterWord(".", relative, '/');
    assert "./" + relative == "." + ['/'] + relative;
    assert (["."] + Split(relative, '/'))[1..] == Split(relative, '/');
  }

  lemma {:induction false} JoinThenText(components: seq<string>, sep: char, text: string)
    requires |components| >= 1
    ensures var last := |components| - 1;
            Join(components, sep) + text == Join(components[..last] + [components[last] + text], sep)
  {
    var last := |components| - 1;
    var longer := components[..last] + [components[last] + text];
    if last > 0 {
      JoinThenText(components[1..], sep, text);
      assert longer[1..] == components[1..][..last - 1] + [components[1..][last - 1] + text];
      assert Join(longer, sep) == components[0] + [sep] + Join(longer[1..], sep);
    }
  }

  lemma TimestampIsSlashFree(t: Moment)
    ensures '/' !in BuildTimestamp(t)
  {
  }

  /** A ZFS name: one or more non-blank components joined by slashes. */
  ghost predicate PoolOf(components: seq<string>, pool: string) {
    |components| >= 1 && Join(components, '/') == pool &&
    forall k :: 0 <= k < |components| ==> Plain(components[k])
  }

  /** What a stream's name has after the ZFS name. */
  function SnapshotText(server: string, stamp: string): string {
    "_snapshot_" + server + "_" + stamp + ".zfs.gz"
  }

  lemma FirstOfJoin(components: seq<string>, sep: char)
    requires |components| >= 1 && components[0] != ""
    ensures Join(components, sep) != "" && Join(components, sep)[0] == components[0][0]
  {
  }

  lemma JoinedNameDescends(directory: Path, parts: seq<string>)
    requires |parts| >= 1 && forall k :: 0 <= k < |parts| ==> Plain(parts[k])
    ensures Into(directory, Join(parts, '/')) == directory + parts
  {
    SplitOfJoin(parts, '/');
    SolidKeepsPlain(parts);
    FirstOfJoin(parts, '/');
    assert parts[0][0] in parts[0];
  }

  /**
   * Where the stream of a ZFS name lands. Every component but the last becomes a directory below
   * the snapshots directory, so the archive is in the directory that retention prunes
   * exactly when the configured pool has a single component.
   */
  lemma SnapshotTarget(base: Path, server: string, pool: string, components: seq<string>, t: Moment)
    requires '/' !in server && PoolOf(components, pool)
    ensures var last := |components| - 1;
            var dir := SnapshotsDir(base, server);
            var target := Into(dir, BuildSnapshotFilename(server, pool, BuildTimestamp(t)));
            && target == dir + components[..last] + [BuildSnapshotFilename(server, components[last], BuildTimestamp(t))]
            && (Parent(target) == dir <==> |components| == 1)
  {
    var last := |components| - 1;
    var stamp := BuildTimestamp(t);
    var text := SnapshotText(server, stamp);
    var parts := components[..last] + [components[last] + text];
    assert BuildSnapshotFilename(server, pool, stamp) == pool + text;
    assert BuildSnapshotFilename(server, components[last], stamp) == components[last] + text;
    JoinThenText(components, '/', text);
    TimestampIsSlashFree(t);
    forall k | 0 <= k < |parts| ensures Plain(parts[k]) {
      if k < last { assert parts[k] == components[k]; } else { assert parts[k] == components[last] + text; }
    }
    var dir := SnapshotsDir(base, server);
    JoinedNameDescends(dir, parts);
    assert Parent(dir + parts) == dir + components[..last];
  }

  /** The archive of a server without a slash in its name is in the server's own `configs` directory. */
  lemma ConfigsTargets(base: Path, server: string, suffix: string, t: Moment)
    requires '/' !in server && '/' !in suffix
    ensures var dir := ConfigsDir(base, server);
            && Into(dir, BuildConfigFilename(server, BuildTimestamp(t))) ==
               dir + [BuildConfigFilename(server, BuildTimestamp(t))]
            && Into(dir, BuildPackagesFilename(server, BuildTimestamp(t), suffix)) ==
               dir + [BuildPackagesFilename(server, BuildTimestamp(t), suffix)]
  {
    TimestampIsSlashFree(t);
    var dir := ConfigsDir(base, server);
    PlainNameStays(dir, BuildConfigFilename(server, BuildTimestamp(t)));
    PlainNameStays(dir, BuildPackagesFilename(server, BuildTimestamp(t), suffix));
  }
}
