/** domain/behaviors.py: timestamps, file names and snapshot tags; and the paths built from them. */
module Names {
  import opened Text

  // ---------------------------------------------------------------- timestamps

  /** The UTC clock reading a timestamp is made from. */
  datatype Moment = Moment(year: nat, month: nat, day: nat, hour: nat, minute: nat, second: nat) {
    /** `strftime` writes these fields with a fixed number of digits: four, then two each. */
    predicate Valid() {
      1000 <= year <= 9999 && 1 <= month <= 12 && 1 <= day <= 31 &&
      hour <= 23 && minute <= 59 && second <= 59
    }

    predicate Before(other: Moment) {
      || year < other.year
      || (year == other.year &&
         (|| month < other.month
          || (month == other.month &&
             (|| day < other.day
              || (day == other.day &&
                 (|| hour < other.hour
                  || (hour == other.hour &&
                     (|| minute < other.minute
                      || (minute == other.minute && second < other.second)))))))))
    }
  }

  const TEN := "0123456789"

  /** `n` in decimal, padded with zeros to `width` digits. */
  function Digits(n: nat, width: nat): (s: string)
    ensures |s| == width
    ensures forall k :: 0 <= k < |s| ==> s[k] in TEN
  {
    if width == 0 then "" else Digits(n / 10, width - 1) + [TEN[n % 10]]
  }

  function Power10(k: nat): (p: nat)
    ensures p >= 1
  {
    if k == 0 then 1 else 10 * Power10(k - 1)
  }

  lemma TenthIsSmaller(a: nat, p: nat)
    requires a < 10 * p
    ensures a / 10 < p && a == 10 * (a / 10) + a % 10
  {
  }

  lemma DigitOrder(x: nat, y: nat)
    requires x < 10 && y < 10
    ensures Less([TEN[x]], [TEN[y]]) <==> x < y
    ensures TEN[x] == TEN[y] <==> x == y
  {
  }

  lemma {:induction false} DigitsKeepOrder(a: nat, b: nat, width: nat)
    requires a < Power10(width) && b < Power10(width)
    ensures Less(Digits(a, width), Digits(b, width)) <==> a < b
    ensures Digits(a, width) == Digits(b, width) <==> a == b
  {
    if width > 0 {
      TenthIsSmaller(a, Power10(width - 1));
      TenthIsSmaller(b, Power10(width - 1));
      DigitsKeepOrder(a / 10, b / 10, width - 1);
      LessByBlocks(Digits(a / 10, width - 1), Digits(b / 10, width - 1), [TEN[a % 10]], [TEN[b % 10]]);
      DigitOrder(a % 10, b % 10);
      var u, v := Digits(a, width), Digits(b, width);
      if u == v {
        assert u[..width - 1] == v[..width - 1] && u[width - 1] == v[width - 1];
      }
    }
  }

  /** The number a run of decimal digits stands for. */
  function DecimalValue(s: string): nat {
    if s == "" then 0
    else 10 * DecimalValue(s[..|s| - 1]) + (if '0' <= s[|s| - 1] <= '9' then (s[|s| - 1] - '0') as nat else 0)
  }

  lemma OneMoreCharacter(s: string, c: char)
    requires '0' <= c <= '9'
    ensures DecimalValue(s + [c]) == 10 * DecimalValue(s) + (c - '0') as nat
  {
    var longer := s + [c];
    assert longer[..|longer| - 1] == s && longer[|longer| - 1] == c;
  }

  lemma DigitReads(d: nat)
    requires d < 10
    ensures '0' <= TEN[d] <= '9' && (TEN[d] - '0') as nat == d
  {
    assert TEN[0] == '0' && TEN[1] == '1' && TEN[2] == '2' && TEN[3] == '3' && TEN[4] == '4';
    assert TEN[5] == '5' && TEN[6] == '6' && TEN[7] == '7' && TEN[8] == '8' && TEN[9] == '9';
  }

  ghost predicate AllDigits(s: string) {
    forall k :: 0 <= k < |s| ==> '0' <= s[k] <= '9'
  }

  lemma OneMoreDigit(s: string, d: nat)
    requires AllDigits(s) && d < 10
    ensures AllDigits(s + [TEN[d]]) && DecimalValue(s + [TEN[d]]) == 10 * DecimalValue(s) + d
  {
    DigitReads(d);
    OneMoreCharacter(s, TEN[d]);
  }

  lemma {:induction false} DigitsReadBack(n: nat, width: nat)
    requires n < Power10(width)
    ensures DecimalValue(Digits(n, width)) == n && AllDigits(Digits(n, width))
  {
    if width > 0 {
      TenthIsSmaller(n, Power10(width - 1));
      DigitsReadBack(n / 10, width - 1);
      OneMoreDigit(Digits(n / 10, width - 1), n % 10);
    }
  }

  function FromMinute(t: Moment): string { Digits(t.minute, 2) + ("-" + Digits(t.second, 2)) }

  function FromHour(t: Moment): string { Digits(t.hour, 2) + ("-" + FromMinute(t)) }

  function FromDay(t: Moment): string { Digits(t.day, 2) + ("_" + FromHour(t)) }

  function FromMonth(t: Moment): string { Digits(t.month, 2) + ("-" + FromDay(t)) }

  /** `strftime("%Y-%m-%d_%H-%M-%S")`. */
  function BuildTimestamp(t: Moment): (s: string)
    ensures |s| == 19
    ensures forall c :: c in s ==> c in TEN || c == '-' || c == '_'
  {
    Digits(t.year, 4) + ("-" + FromMonth(t))
  }

  /** `text` is this number in decimal, padded with zeros to `width` digits. */
  ghost predicate Reads(text: string, n: nat, width: nat) {
    |text| == width && DecimalValue(text) == n && AllDigits(text)
  }

  /** A timestamp reads `YYYY-MM-DD_HH-MM-SS`. */
  lemma TimestampReads(t: Moment) returns (y: string, m: string, d: string, h: string, min: string, s: string)
    requires t.Valid()
    ensures Reads(y, t.year, 4) && Reads(m, t.month, 2) && Reads(d, t.day, 2)
    ensures Reads(h, t.hour, 2) && Reads(min, t.minute, 2) && Reads(s, t.second, 2)
    ensures BuildTimestamp(t) == y + ("-" + (m + ("-" + (d + ("_" + (h + ("-" + (min + ("-" + s)))))))))
  {
    y, m, d := Digits(t.year, 4), Digits(t.month, 2), Digits(t.day, 2);
    h, min, s := Digits(t.hour, 2), Digits(t.minute, 2), Digits(t.second, 2);
    DigitsReadBack(t.year, 4);
    DigitsReadBack(t.month, 2);
    DigitsReadBack(t.day, 2);
    DigitsReadBack(t.hour, 2);
    DigitsReadBack(t.minute, 2);
    DigitsReadBack(t.second, 2);
  }

  lemma NextField(a: nat, b: nat, width: nat, sep: string, s: string, t: string)
    requires a < Power10(width) && b < Power10(width) && |sep| == 1
    ensures Less(Digits(a, width) + (sep + s), Digits(b, width) + (sep + t)) <==>
            a < b || (a == b && Less(s, t))
  {
    DigitsKeepOrder(a, b, width);
    LessByBlocks(Digits(a, width), Digits(b, width), sep + s, sep + t);
    LessByBlocks(sep, sep, s, t);
    LessIsTotal(sep, sep);
  }

  /** Code-point order of two timestamps is the order of the clock readings. */
  lemma TimestampOrder(a: Moment, b: Moment)
    requires a.Valid() && b.Valid()
    ensures Less(BuildTimestamp(a), BuildTimestamp(b)) <==> a.Before(b)
  {
    DigitsKeepOrder(a.second, b.second, 2);
    NextField(a.minute, b.minute, 2, "-", Digits(a.second, 2), Digits(b.second, 2));
    NextField(a.hour, b.hour, 2, "-", FromMinute(a), FromMinute(b));
    NextField(a.day, b.day, 2, "_", FromHour(a), FromHour(b));
    NextField(a.month, b.month, 2, "-", FromDay(a), FromDay(b));
    NextField(a.year, b.year, 4, "-", FromMonth(a), FromMonth(b));
  }

  /** Equal timestamps are the same second. */
  lemma TimestampIsInjective(a: Moment, b: Moment)
    requires a.Valid() && b.Valid() && BuildTimestamp(a) == BuildTimestamp(b)
    ensures a == b
  {
    TimestampOrder(a, b);
    TimestampOrder(b, a);
    LessIsTotal(BuildTimestamp(a), BuildTimestamp(b));
  }

  // ---------------------------------------------------------------- file names and tags

  function BuildConfigFilename(server: string, timestamp: string): string {
    ("backup_config_" + server + "_") + timestamp + ".tar.gz"
  }

  function BuildPackagesFilename(server: string, timestamp: string, suffix: string): string {
    ("packages_" + suffix + "_" + server + "_") + timestamp + ".txt"
  }

  function BuildSnapshotFilename(server: string, pool: string, timestamp: string): string {
    (pool + "_snapshot_" + server + "_") + timestamp + ".zfs.gz"
  }

  const TOOL_TAG := "pull_backup_"
  const SELECTIONS := "selections"
  const LIST := "list"

  function BuildSnapshotTag(timestamp: string): string {
    TOOL_TAG + timestamp
  }

  const CONFIG_PATTERN := "backup_config_" + ("*" + ".tar.gz")
  const SNAPSHOT_PATTERN := "*" + ("_snapshot_" + ("*" + ".zfs.gz"))

  function PackagesPattern(suffix: string): string {
    "packages_" + suffix + "_" + ("*" + ".txt")
  }

  /** The documented names, for any server, dataset and timestamp. */
  lemma NamesRead(server: string, pool: string, stamp: string)
    ensures BuildConfigFilename(server, stamp) == "backup_config_" + (server + "_" + stamp) + ".tar.gz"
    ensures BuildPackagesFilename(server, stamp, "selections") ==
              "packages_selections_" + (server + "_" + stamp) + ".txt"
    ensures BuildPackagesFilename(server, stamp, "list") == "packages_list_" + (server + "_" + stamp) + ".txt"
    ensures BuildSnapshotFilename(server, pool, stamp) == pool + "_snapshot_" + (server + "_" + stamp) + ".zfs.gz"
    ensures BuildSnapshotTag(stamp) == "pull_backup_" + stamp
  {
  }

  /** The patterns retention is called with. */
  lemma PatternsRead()
    ensures CONFIG_PATTERN == "backup_config_*.tar.gz" && SNAPSHOT_PATTERN == "*_snapshot_*.zfs.gz"
    ensures PackagesPattern("selections") == "packages_selections_*.txt"
    ensures PackagesPattern("list") == "packages_list_*.txt"
  {
  }

  lemma JoinedPartsAreUnique(a: string, s: string, b: string, t: string)
    requires |s| == |t| && a + "_" + s == b + "_" + t
    ensures a == b && s == t
  {
    assert a == (a + "_" + s)[..|a|] && b == (b + "_" + t)[..|b|];
    assert s == (a + "_" + s)[|a| + 1..] && t == (b + "_" + t)[|b| + 1..];
  }

  lemma MiddleIsUnique(head: string, a: string, b: string, tail: string)
    requires head + a + tail == head + b + tail
    ensures a == b
  {
    assert a == (head + a + tail)[|head|..|head| + |a|];
    assert b == (head + b + tail)[|head|..|head| + |b|];
  }

  /** An archive's name says whose it is and when it was made: no two servers or seconds share one. */
  lemma NamesIdentify(server: string, t: Moment, other: string, u: Moment)
    requires t.Valid() && u.Valid()
    ensures BuildConfigFilename(server, BuildTimestamp(t)) == BuildConfigFilename(other, BuildTimestamp(u)) <==>
            server == other && t == u
    ensures (BuildPackagesFilename(server, BuildTimestamp(t), "list") ==
             BuildPackagesFilename(other, BuildTimestamp(u), "list")) <==> server == other && t == u
    ensures (BuildPackagesFilename(server, BuildTimestamp(t), "selections") ==
             BuildPackagesFilename(other, BuildTimestamp(u), "selections")) <==> server == other && t == u
  {
    var s, r := BuildTimestamp(t), BuildTimestamp(u);
    var a, b := server + "_" + s, other + "_" + r;
    NamesRead(server, "", s);
    NamesRead(other, "", r);
    if "backup_config_" + a + ".tar.gz" == "backup_config_" + b + ".tar.gz" {
      MiddleIsUnique("backup_config_", a, b, ".tar.gz");
    }
    if "packages_list_" + a + ".txt" == "packages_list_" + b + ".txt" {
      MiddleIsUnique("packages_list_", a, b, ".txt");
    }
    if "packages_selections_" + a + ".txt" == "packages_selections_" + b + ".txt" {
      MiddleIsUnique("packages_selections_", a, b, ".txt");
    }
    if a == b {
      JoinedPartsAreUnique(server, s, other, r);
      TimestampIsInjective(t, u);
    }
  }

  lemma OrderAroundTimestamp(head: string, tail: string, a: Moment, b: Moment)
    requires a.Valid() && b.Valid()
    ensures Less(head + BuildTimestamp(a) + tail, head + BuildTimestamp(b) + tail) <==> a.Before(b)
  {
    var s, t := BuildTimestamp(a), BuildTimestamp(b);
    TimestampOrder(a, b);
    LessIsTotal(head, head);
    LessIsTotal(tail, tail);
    LessByBlocks(head, head, s, t);
    LessByBlocks(head + s, head + t, tail, tail);
  }

  /**
   * Sorting the names of one family sorts its files by age: for one server (and one pool)
   * code-point order of the file names is the order of the clock readings they were made from.
   */
  lemma LexicographicIsChronological(server: string, pool: string, suffix: string, a: Moment, b: Moment)
    requires a.Valid() && b.Valid()
    ensures var s, t := BuildTimestamp(a), BuildTimestamp(b);
            && (Less(BuildConfigFilename(server, s), BuildConfigFilename(server, t)) <==> a.Before(b))
            && (Less(BuildPackagesFilename(server, s, suffix), BuildPackagesFilename(server, t, suffix)) <==>
               a.Before(b))
            && (Less(BuildSnapshotFilename(server, pool, s), BuildSnapshotFilename(server, pool, t)) <==> a.Before(b))
  {
    OrderAroundTimestamp("backup_config_" + server + "_", ".tar.gz", a, b);
    OrderAroundTimestamp("packages_" + suffix + "_" + server + "_", ".txt", a, b);
    OrderAroundTimestamp(pool + "_snapshot_" + server + "_", ".zfs.gz", a, b);
  }

  // ---------------------------------------------------------------- which names the patterns find

  lemma PackagesNameFitsPattern(server: string, suffix: string, timestamp: string)
    requires '*' !in suffix
    ensures Glob(PackagesPattern(suffix), BuildPackagesFilename(server, timestamp, suffix))
  {
    var head, name := "packages_" + suffix + "_", BuildPackagesFilename(server, timestamp, suffix);
    assert name == head + (server + "_" + timestamp) + ".txt";
    GlobAround(head, ".txt", name);
  }

  lemma SnapshotNameFitsPattern(server: string, pool: string, timestamp: string)
    ensures Glob(SNAPSHOT_PATTERN, BuildSnapshotFilename(server, pool, timestamp))
  {
    var name := BuildSnapshotFilename(server, pool, timestamp);
    var rest := "_snapshot_" + (server + "_" + timestamp) + ".zfs.gz";
    assert name[|pool|..] == rest;
    GlobAround("_snapshot_", ".zfs.gz", rest);
    GlobStar("_snapshot_" + ("*" + ".zfs.gz"), name);
  }

  /** Every name the program generates is found by the pattern its own retention uses. */
  lemma OwnPatternFindsIt(server: string, pool: string, suffix: string, timestamp: string)
    requires '*' !in suffix
    ensures Glob(CONFIG_PATTERN, BuildConfigFilename(server, timestamp))
    ensures Glob(PackagesPattern(suffix), BuildPackagesFilename(server, timestamp, suffix))
    ensures Glob(SNAPSHOT_PATTERN, BuildSnapshotFilename(server, pool, timestamp))
  {
    GlobAround("backup_config_", ".tar.gz", BuildConfigFilename(server, timestamp));
    PackagesNameFitsPattern(server, suffix, timestamp);
    SnapshotNameFitsPattern(server, pool, timestamp);
  }

  /** No file name at all is matched by two of the three patterns used in one `configs` directory. */
  lemma FamiliesAreDisjoint(name: string)
    ensures !(Glob(CONFIG_PATTERN, name) && Glob(PackagesPattern(SELECTIONS), name))
    ensures !(Glob(CONFIG_PATTERN, name) && Glob(PackagesPattern(LIST), name))
    ensures !(Glob(PackagesPattern(SELECTIONS), name) && Glob(PackagesPattern(LIST), name))
  {
    var selections, list := "packages_" + SELECTIONS + "_", "packages_" + LIST + "_";
    GlobAround("backup_config_", ".tar.gz", name);
    GlobAround(selections, ".txt", name);
    GlobAround(list, ".txt", name);
    assert "backup_config_"[0] != selections[0] && "backup_config_"[0] != list[0];
    assert selections[9] != list[9];
  }
}
