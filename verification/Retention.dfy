/** adapters/backup/retention.py: keep the newest files of one family. */
module Retention {
  import opened Text
  import opened Paths
  import opened Outcomes

  datatype Entry = File(data: string) | Subdirectory

  type Folder = map<string, Entry>

  /** The directories below the backup base that hold anything; one without entries is the same as a missing one. */
  type Dirs = dirs: map<Path, Folder> | forall d :: d in dirs ==> dirs[d] != map[]

  function Listing(dirs: Dirs, directory: Path): Folder {
    if directory in dirs then dirs[directory] else map[]
  }

  function Put(dirs: Dirs, directory: Path, folder: Folder): Dirs {
    if folder == map[] then dirs - {directory} else dirs[directory := folder]
  }

  lemma ListingAfterPut(dirs: Dirs, directory: Path, folder: Folder)
    ensures forall d :: Listing(Put(dirs, directory, folder), d) == if d == directory then folder else Listing(dirs, d)
  {
  }

  lemma SameListings(a: Dirs, b: Dirs)
    requires forall d :: Listing(a, d) == Listing(b, d)
    ensures a == b
  {
    forall d ensures d in a <==> d in b {
      assert Listing(a, d) == Listing(b, d);
    }
    forall d | d in a ensures a[d] == b[d] {
      assert Listing(a, d) == Listing(b, d);
    }
  }

  lemma PutTwice(dirs: Dirs, directory: Path, first: Folder, second: Folder)
    ensures Put(Put(dirs, directory, first), directory, second) == Put(dirs, directory, second)
    ensures Put(dirs, directory, Listing(dirs, directory)) == dirs
  {
    ListingAfterPut(dirs, directory, first);
    ListingAfterPut(Put(dirs, directory, first), directory, second);
    ListingAfterPut(dirs, directory, second);
    ListingAfterPut(dirs, directory, Listing(dirs, directory));
    SameListings(Put(Put(dirs, directory, first), directory, second), Put(dirs, directory, second));
    SameListings(Put(dirs, directory, Listing(dirs, directory)), dirs);
  }

  function Matches(folder: Folder, pattern: string): set<string> {
    set n | n in folder && folder[n].File? && Glob(pattern, n)
  }

  // ---------------------------------------------------------------- sorting

  ghost predicate Bottom(s: set<string>, m: string) {
    m in s && forall x :: x in s ==> !Less(x, m)
  }

  lemma LowerOfTwo(s: set<string>, e: string, m: string)
    requires e in s && Bottom(s - {e}, m)
    ensures Bottom(s, if Less(e, m) then e else m)
  {
    LessIsTotal(e, m);
    LessIsTotal(e, e);
    forall x | x in s && Less(e, m) ensures !Less(x, e) {
      if Less(x, e) { LessIsTransitive(x, e, m); }
    }
  }

  lemma {:induction false} SomeLeast(s: set<string>)
    requires s != {}
    ensures exists m :: Bottom(s, m)
  {
    var e :| e in s;
    LessIsTotal(e, e);
    if s == {e} {
      assert Bottom(s, e);
    } else {
      SomeLeast(s - {e});
      var m :| Bottom(s - {e}, m);
      LowerOfTwo(s, e, m);
    }
  }

  lemma LeastExists(s: set<string>)
    requires s != {}
    ensures exists m :: m in s && forall x :: x in s ==> !Less(x, m)
    ensures forall a, b ::
              (&& a in s && (forall x :: x in s ==> !Less(x, a))
               && b in s && (forall x :: x in s ==> !Less(x, b))) ==> a == b
  {
    forall a, b | a in s && b in s && !Less(a, b) && !Less(b, a) ensures a == b {
      LessIsTotal(a, b);
    }
    SomeLeast(s);
    var m :| Bottom(s, m);
  }

  function Least(s: set<string>): (m: string)
    requires s != {}
    ensures m in s && forall x :: x in s ==> !Less(x, m)
  {
    LeastExists(s);
    var m :| m in s && forall x :: x in s ==> !Less(x, m);
    m
  }

  /** `sorted(...)` of distinct names. */
  function Sorted(s: set<string>): (names: seq<string>)
    ensures |names| == |s|
    ensures forall x :: x in names <==> x in s
  {
    if s == {} then [] else [Least(s)] + Sorted(s - {Least(s)})
  }

  lemma {:induction false} SortedIsAscending(s: set<string>)
    ensures forall i, j :: 0 <= i < j < |Sorted(s)| ==> Less(Sorted(s)[i], Sorted(s)[j])
  {
    if s != {} {
      var m := Least(s);
      SortedIsAscending(s - {m});
      forall x | x in s - {m} ensures Less(m, x) {
        LessIsTotal(m, x);
      }
      var rest := Sorted(s - {m});
      forall i, j | 0 <= i < j < |Sorted(s)| ensures Less(Sorted(s)[i], Sorted(s)[j]) {
        assert Sorted(s)[j] == rest[j - 1] && rest[j - 1] in s - {m};
        if i > 0 { assert Sorted(s)[i] == rest[i - 1]; }
      }
    }
  }

  // ---------------------------------------------------------------- what "the newest k" means

  function Newer(s: set<string>, name: string): set<string> {
    set y | y in s && Less(name, y)
  }

  /** The members of `s` with fewer than `k` members sorting after them: no sorting involved. */
  function Newest(s: set<string>, k: int): set<string> {
    set x | x in s && |Newer(s, x)| < k
  }

  lemma SubsetSize<T>(a: set<T>, b: set<T>)
    requires a <= b
    ensures |a| <= |b|
    ensures |a| == |b| ==> a == b
  {
    assert b == a + (b - a);
  }

  lemma WithoutLeast(s: set<string>, x: string)
    requires s != {} && x in s && x != Least(s)
    ensures Newer(s, x) == Newer(s - {Least(s)}, x)
  {
  }

  lemma LeastRank(s: set<string>)
    requires s != {}
    ensures Newer(s, Least(s)) == s - {Least(s)}
  {
    var m := Least(s);
    forall x | x in s ensures Less(m, x) <==> x != m {
      LessIsTotal(m, x);
    }
  }

  lemma NewestWithoutLeast(s: set<string>, k: int)
    requires s != {}
    ensures var m := Least(s);
            Newest(s, k) == Newest(s - {m}, k) + (if k >= |s| then {m} else {}) && m !in Newest(s - {m}, k)
  {
    LeastRank(s);
    forall x | x in s - {Least(s)} ensures x in Newest(s, k) <==> x in Newest(s - {Least(s)}, k) {
      WithoutLeast(s, x);
    }
  }

  lemma {:induction false} NewestCount(s: set<string>, k: int)
    ensures |Newest(s, k)| == if k <= 0 then 0 else if k < |s| then k else |s|
  {
    if s != {} {
      NewestCount(s - {Least(s)}, k);
      NewestWithoutLeast(s, k);
    } else {
      assert Newest(s, k) == {};
    }
  }

  lemma SuffixShifts(m: string, tail: seq<string>, top: set<string>, whole: set<string>, n: int)
    requires forall i :: 0 <= i < |tail| ==> (tail[i] in top <==> i >= n)
    requires m !in tail && m !in top && whole == top + (if n + 1 <= 0 then {m} else {})
    ensures forall i :: 0 <= i <= |tail| ==> (([m] + tail)[i] in whole <==> i >= n + 1)
  {
    forall i | 0 <= i <= |tail| ensures ([m] + tail)[i] in whole <==> i >= n + 1 {
      if i > 0 {
        assert ([m] + tail)[i] == tail[i - 1] && tail[i - 1] in tail;
      }
    }
  }

  /** The newest k are the last k of the sorted names, and there are min(k, |s|) of them. */
  lemma {:induction false} NewestIsSuffix(s: set<string>, k: int)
    ensures forall i :: 0 <= i < |Sorted(s)| ==> (Sorted(s)[i] in Newest(s, k) <==> i >= |s| - k)
    ensures |Newest(s, k)| == if k <= 0 then 0 else if k < |s| then k else |s|
  {
    NewestCount(s, k);
    if s != {} {
      var m := Least(s);
      var rest := s - {m};
      NewestIsSuffix(rest, k);
      NewestWithoutLeast(s, k);
      SuffixShifts(m, Sorted(rest), Newest(rest, k), Newest(s, k), |rest| - k);
    }
  }

  /** Whatever else was pruned in between, as long as the newest k survived they are still the newest k. */
  lemma NewestIsStable(all: set<string>, family: set<string>, k: int)
    requires Newest(all, k) <= family <= all
    ensures Newest(family, k) == Newest(all, k)
  {
    var top := Newest(all, k);
    NewestIsSuffix(all, k);
    forall x | x in family ensures x in Newest(family, k) <==> x in top {
      SubsetSize(Newer(family, x), Newer(all, x));
      if x !in top {
        if k > 0 {
          SubsetSize(top, all);
          forall y | y in top ensures Less(x, y) {
            if !Less(x, y) {
              LessIsTotal(x, y);
              forall z | z in Newer(all, x) ensures z in Newer(all, y) {
                LessIsTransitive(y, x, z);
              }
              SubsetSize(Newer(all, x), Newer(all, y));
            }
          }
          assert top <= Newer(family, x);
          SubsetSize(top, Newer(family, x));
          if k >= |all| {
            SubsetSize(top, all);
          }
        }
      }
    }
  }

  // ---------------------------------------------------------------- pruning

  /** `files[: len(files) - keep]`, or nothing when there are no more than `keep` files. */
  function Doomed(names: seq<string>, keep: int): (doomed: seq<string>)
    ensures doomed <= names
  {
    if |names| <= keep then []
    else if keep <= 0 then names
    else names[..|names| - keep]
  }

  /** How many files go before the first one whose `unlink` raises. */
  function Unlinked(doomed: seq<string>, stuck: set<string>): (n: nat)
    ensures n <= |doomed|
    ensures forall i :: 0 <= i < n ==> doomed[i] !in stuck
    ensures n < |doomed| ==> doomed[n] in stuck
  {
    if doomed == [] || doomed[0] in stuck then 0 else 1 + Unlinked(doomed[1..], stuck)
  }

  function Without(folder: Folder, names: seq<string>): (r: Folder)
    ensures forall n :: n in r <==> n in folder && n !in names
    ensures forall n :: n in r ==> r[n] == folder[n]
  {
    map n | n in folder && n !in names :: folder[n]
  }

  datatype Pruned = Pruned(folder: Folder, result: Result<seq<string>>)

  function Prune(folder: Folder, pattern: string, keep: int, stuck: set<string>): Pruned {
    var doomed := Doomed(Sorted(Matches(folder, pattern)), keep);
    var n := Unlinked(doomed, stuck);
    Pruned(Without(folder, doomed[..n]), if n == |doomed| then Done(doomed) else Raised(RetentionFault(doomed[n])))
  }

  /** Retention only ever removes matching files, and changes no entry that stays. */
  lemma PruneFrame(folder: Folder, pattern: string, keep: int, stuck: set<string>)
    ensures var family := Matches(folder, pattern);
            var after := Prune(folder, pattern, keep, stuck).folder;
            && (forall n :: n in after ==> n in folder && after[n] == folder[n])
            && (forall n :: n in folder && n !in family ==> n in after)
            && Matches(after, pattern) == set x | x in family && x in after
  {
    var names := Sorted(Matches(folder, pattern));
    var doomed := Doomed(names, keep);
    forall n | n in doomed ensures n in Matches(folder, pattern) {
      assert n in names;
    }
    var gone := doomed[..Unlinked(doomed, stuck)];
    forall n | n in gone ensures n in doomed {
    }
  }

  lemma DoomedAt(names: seq<string>, keep: int, i: nat)
    requires i < |names|
    requires forall a, b :: 0 <= a < b < |names| ==> Less(names[a], names[b])
    ensures names[i] in Doomed(names, keep) <==> i < |names| - keep
  {
    var doomed := Doomed(names, keep);
    if i < |doomed| {
      assert doomed[i] == names[i];
    }
    if j :| 0 <= j < |doomed| && doomed[j] == names[i] {
      assert names[j] == names[i];
      LessIsTotal(names[i], names[i]);
    }
  }

  /** The files retention wants to delete are those outside the newest `keep`. */
  lemma DoomedIsRest(family: set<string>, keep: int)
    ensures forall x :: x in Doomed(Sorted(family), keep) <==> x in family - Newest(family, keep)
  {
    var names := Sorted(family);
    NewestIsSuffix(family, keep);
    SortedIsAscending(family);
    forall x | x in family ensures x in Doomed(names, keep) <==> x !in Newest(family, keep) {
      var i :| 0 <= i < |names| && names[i] == x;
      DoomedAt(names, keep, i);
    }
  }

  lemma GoneAreOlder(names: seq<string>, doomed: seq<string>, n: nat, x: string)
    requires forall a, b :: 0 <= a < b < |names| ==> Less(names[a], names[b])
    requires doomed <= names && n < |doomed| && x in names
    ensures x in doomed[..n] <==> Less(x, doomed[n])
  {
    var i :| 0 <= i < |names| && names[i] == x;
    LessIsTotal(x, names[n]);
    if i < n {
      assert doomed[..n][i] == x;
    } else {
      LessIsTotal(x, x);
      forall j | 0 <= j < n ensures doomed[..n][j] != x {
        assert Less(names[j], names[i]);
      }
    }
  }

  /** What a run of retention leaves of its family, given how it ended. */
  ghost predicate Exact(family: set<string>, left: set<string>, keep: int, stuck: set<string>,
                        result: Result<seq<string>>)
  {
    var newest := Newest(family, keep);
    && newest <= left <= family
    && (result.Done? <==> (family - newest) !! stuck)
    && (result.Done? ==>
        && left == newest
        && |left| == (if keep <= 0 then 0 else if keep < |family| then keep else |family|)
        && forall n :: n in result.value <==> n in family - left)
    && (result.Raised? ==>
        && result.fault.RetentionFault?
        && var bad := result.fault.name;
           && bad in family && bad in stuck && bad !in newest
           && forall n :: n in family ==> (n in left <==> !Less(n, bad)))
  }

  lemma PruneLeaves(folder: Folder, pattern: string, keep: int, stuck: set<string>)
    ensures var family := Matches(folder, pattern);
            var doomed := Doomed(Sorted(family), keep);
            var left := Matches(Prune(folder, pattern, keep, stuck).folder, pattern);
            left <= family && forall x :: x in family ==> (x in left <==> x !in doomed[..Unlinked(doomed, stuck)])
  {
    PruneFrame(folder, pattern, keep, stuck);
  }

  lemma SuccessIsExact(folder: Folder, pattern: string, keep: int, stuck: set<string>)
    requires Prune(folder, pattern, keep, stuck).result.Done?
    ensures var after := Prune(folder, pattern, keep, stuck);
            Exact(Matches(folder, pattern), Matches(after.folder, pattern), keep, stuck, after.result)
  {
    var family := Matches(folder, pattern);
    var doomed := Doomed(Sorted(family), keep);
    PruneLeaves(folder, pattern, keep, stuck);
    NewestCount(family, keep);
    DoomedIsRest(family, keep);
    assert doomed[..Unlinked(doomed, stuck)] == doomed;
  }

  lemma FailureIsExact(folder: Folder, pattern: string, keep: int, stuck: set<string>)
    requires Prune(folder, pattern, keep, stuck).result.Raised?
    ensures var after := Prune(folder, pattern, keep, stuck);
            Exact(Matches(folder, pattern), Matches(after.folder, pattern), keep, stuck, after.result)
  {
    var family := Matches(folder, pattern);
    var doomed := Doomed(Sorted(family), keep);
    var n := Unlinked(doomed, stuck);
    var left := Matches(Prune(folder, pattern, keep, stuck).folder, pattern);
    PruneLeaves(folder, pattern, keep, stuck);
    SortedIsAscending(family);
    DoomedIsRest(family, keep);
    assert doomed[n] in doomed;
    forall x | x in family ensures x in left <==> !Less(x, doomed[n]) {
      GoneAreOlder(Sorted(family), doomed, n, x);
    }
    forall x | x in doomed[..n] ensures x in doomed {
    }
    LessIsTotal(doomed[n], doomed[n]);
  }

  /**
   * Retention is exact, also when a delete fails, for every `keep`: only matching files outside
   * the newest `keep` go, oldest first; it succeeds exactly when none of those is stuck, and then
   * exactly the newest `keep` stay; on failure everything older than the named file is gone and
   * that file and everything newer is untouched.
   */
  lemma PruneIsExact(folder: Folder, pattern: string, keep: int, stuck: set<string>)
    ensures var after := Prune(folder, pattern, keep, stuck);
            Exact(Matches(folder, pattern), Matches(after.folder, pattern), keep, stuck, after.result)
  {
    if Prune(folder, pattern, keep, stuck).result.Done? {
      SuccessIsExact(folder, pattern, keep, stuck);
    } else {
      FailureIsExact(folder, pattern, keep, stuck);
    }
  }

  /**
   * The same in terms of the directory: of the plain files whose names match, and nothing else is looked at or
   * touched.
   */
  lemma PruneTouchesMatchingFiles(folder: Folder, pattern: string, keep: int, stuck: set<string>,
                                  family: set<string>, left: set<string>)
    requires forall n :: n in family <==> n in folder && folder[n].File? && Glob(pattern, n)
    requires left == Prune(folder, pattern, keep, stuck).folder.Keys * family
    ensures var after := Prune(folder, pattern, keep, stuck);
            && Exact(family, left, keep, stuck, after.result)
            && after.folder.Keys == folder.Keys - (family - left)
            && forall n :: n in after.folder ==> after.folder[n] == folder[n]
  {
    assert family == Matches(folder, pattern);
    PruneIsExact(folder, pattern, keep, stuck);
    PruneFrame(folder, pattern, keep, stuck);
    assert left == Matches(Prune(folder, pattern, keep, stuck).folder, pattern);
  }

  /**
   * Does a file that was just written survive its own run's retention? Exactly when fewer than
   * `keep` matching files sort after it.
   */
  lemma SurvivesIffNewEnough(folder: Folder, pattern: string, keep: int, stuck: set<string>, name: string)
    requires name in Matches(folder, pattern)
    requires Prune(folder, pattern, keep, stuck).result.Done?
    ensures name in Prune(folder, pattern, keep, stuck).folder <==> |Newer(Matches(folder, pattern), name)| < keep
  {
    PruneIsExact(folder, pattern, keep, stuck);
    var after := Prune(folder, pattern, keep, stuck).folder;
    assert name in Matches(after, pattern) <==> name in after;
  }
}
