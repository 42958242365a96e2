/** adapters/config/overrides.py: `--set SECTION.KEY=VALUE` parsed, checked for conflicts and nested into one tree. */
module Overrides {
  import opened Text
  import opened Outcomes

  /** A coerced value: a table, or anything else as the text of its JSON form. */
  datatype Value = Scalar(json: string) | Table(entries: map<string, Value>)

  /** The components of a dotted key. */
  type KeyPath = seq<string>

  datatype Override = Override(section: string, keyPath: KeyPath, value: Value) {
    function Path(): KeyPath {
      [section] + keyPath
    }
  }

  datatype Refusal =
    | NoEquals(raw: string)
    | NoDot(raw: string)
    | EmptySection(raw: string)
    | EmptyKey(raw: string)
    | Conflict(key: string, nested: string)
    | NotATable                     // Python's own error when a value is used as a table

  datatype Outcome<+T> = Ok(value: T) | Refused(why: Refusal)

  // ---------------------------------------------------------------- parsing

  predicate NoneEmpty(parts: seq<string>) {
    forall k :: 0 <= k < |parts| ==> parts[k] != ""
  }

  /** `parse_override`; `coerce` is `coerce_value`. */
  function ParseOverride(raw: string, coerce: string -> Value): Outcome<Override> {
    var equals := Find(raw, '=');
    if equals == |raw| then Refused(NoEquals(raw))
    else
      var path, text := raw[..equals], raw[equals + 1..];
      if '.' !in path then Refused(NoDot(raw))
      else
        var parts := Split(path, '.');
        if parts[0] == "" then Refused(EmptySection(raw))
        else if !NoneEmpty(parts[1..]) then Refused(EmptyKey(raw))
        else Ok(Override(parts[0], parts[1..], coerce(text)))
  }

  /** What a path given to `--set` looks like once parsed. */
  ghost predicate Addressable(path: KeyPath) {
    |path| >= 2 && forall k :: 0 <= k < |path| ==> path[k] != "" && '.' !in path[k]
  }

  function Dotted(path: KeyPath): string {
    Join(path, '.')
  }

  lemma {:induction false} FirstEquals(before: string, after: string)
    requires '=' !in before
    ensures Find(before + "=" + after, '=') == |before|
  {
    var raw := before + "=" + after;
    if before != "" {
      FirstEquals(before[1..], after);
      assert raw[1..] == before[1..] + "=" + after;
      assert before == [before[0]] + before[1..];
    }
  }

  /** Parsing undoes writing an override out, whatever its value's text holds. */
  lemma ParseUndoesRender(path: KeyPath, text: string, coerce: string -> Value)
    requires Addressable(path) && '=' !in Dotted(path)
    ensures ParseOverride(Dotted(path) + "=" + text, coerce) == Ok(Override(path[0], path[1..], coerce(text)))
  {
    var raw := Dotted(path) + "=" + text;
    FirstEquals(Dotted(path), text);
    assert raw[..|Dotted(path)|] == Dotted(path) && raw[|Dotted(path)| + 1..] == text;
    SplitOfJoin(path, '.');
    JoinOfSplit(Dotted(path), '.');
  }

  /** Parsing succeeds only on what writing out produces. */
  lemma ParsedIsRendered(raw: string, coerce: string -> Value) returns (text: string)
    requires ParseOverride(raw, coerce).Ok?
    ensures var o := ParseOverride(raw, coerce).value;
            && Addressable(o.Path()) && '=' !in Dotted(o.Path())
            && raw == Dotted(o.Path()) + "=" + text && o.value == coerce(text)
  {
    var equals := Find(raw, '=');
    var o := ParseOverride(raw, coerce).value;
    text := raw[equals + 1..];
    JoinOfSplit(raw[..equals], '.');
    assert o.Path() == Split(raw[..equals], '.');
    forall k | 0 <= k < |o.Path()| ensures o.Path()[k] != "" {
      if k > 0 { assert o.Path()[k] == Split(raw[..equals], '.')[1..][k - 1]; }
    }
    assert raw == raw[..equals] + "=" + text;
  }

  predicate TwoDotsAt(path: string, k: nat) {
    k + 1 < |path| && path[k] == '.' && path[k + 1] == '.'
  }

  /** The path ends in a dot or has two in a row. */
  ghost predicate HasGap(path: string) {
    path != "" && (path[|path| - 1] == '.' || exists k: nat :: TwoDotsAt(path, k))
  }

  lemma {:induction false} EmptyParts(path: string)
    ensures Split(path, '.')[0] == "" <==> path == "" || path[0] == '.'
    ensures NoneEmpty(Split(path, '.')[1..]) <==> !HasGap(path)
  {
    if path != "" {
      var rest := Split(path[1..], '.');
      EmptyParts(path[1..]);
      if path[0] == '.' {
        assert ([""] + rest)[1..] == rest;
        assert rest == [rest[0]] + rest[1..];
        assert NoneEmpty(rest) <==> rest[0] != "" && NoneEmpty(rest[1..]);
        if |path| > 1 && path[1] == '.' { assert TwoDotsAt(path, 0); }
      } else {
        assert ([[path[0]] + rest[0]] + rest[1..])[1..] == rest[1..];
      }
      if k: nat :| TwoDotsAt(path[1..], k) { assert TwoDotsAt(path, k + 1); }
      if k: nat :| TwoDotsAt(path, k) {
        if k > 0 { assert TwoDotsAt(path[1..], k - 1); }
      }
    }
  }

  /** Why an override is refused: the first of the four checks on its text that fails. */
  lemma RefusalSays(path: string, text: string, coerce: string -> Value)
    requires '=' !in path
    ensures var raw := path + "=" + text;
            var r := ParseOverride(raw, coerce);
            && (r == Refused(NoDot(raw)) <==> '.' !in path)
            && (r == Refused(EmptySection(raw)) <==> '.' in path && path[0] == '.')
            && (r == Refused(EmptyKey(raw)) <==> '.' in path && path[0] != '.' && HasGap(path))
            && (r.Ok? <==> '.' in path && path[0] != '.' && !HasGap(path))
    ensures ParseOverride(path, coerce) == Refused(NoEquals(path))
  {
    var raw := path + "=" + text;
    FirstEquals(path, text);
    assert raw[..|path|] == path && raw[|path| + 1..] == text;
    EmptyParts(path);
  }

  // ---------------------------------------------------------------- conflicts

  function FirstUnder(key: string, others: seq<string>): Option<string> {
    if others == [] then None
    else if key + "." <= others[0] then Some(others[0])
    else FirstUnder(key, others[1..])
  }

  function FirstConflict(keys: seq<string>, all: seq<string>): Option<Refusal> {
    if keys == [] then None
    else
      match FirstUnder(keys[0], all)
      case Some(nested) => Some(Conflict(keys[0], nested))
      case None => FirstConflict(keys[1..], all)
  }

  lemma {:induction false} FirstUnderFinds(key: string, others: seq<string>)
    ensures FirstUnder(key, others).None? <==> forall k :: 0 <= k < |others| ==> !(key + "." <= others[k])
    ensures FirstUnder(key, others).Some? ==>
              FirstUnder(key, others).value in others && key + "." <= FirstUnder(key, others).value
  {
    if others != [] {
      FirstUnderFinds(key, others[1..]);
      assert forall k :: 0 < k < |others| ==> others[k] == others[1..][k - 1];
      assert forall k :: 0 <= k < |others| - 1 ==> others[1..][k] == others[k + 1];
    }
  }

  lemma {:induction false} FirstConflictFinds(keys: seq<string>, all: seq<string>)
    ensures FirstConflict(keys, all).None? <==>
              forall i, j :: 0 <= i < |keys| && 0 <= j < |all| ==> !(keys[i] + "." <= all[j])
    ensures FirstConflict(keys, all).Some? ==>
              var c := FirstConflict(keys, all).value;
              c.Conflict? && c.key in keys && c.nested in all && c.key + "." <= c.nested
  {
    if keys != [] {
      FirstUnderFinds(keys[0], all);
      FirstConflictFinds(keys[1..], all);
      assert forall i :: 0 < i < |keys| ==> keys[i] == keys[1..][i - 1];
      assert forall i :: 0 <= i < |keys| - 1 ==> keys[1..][i] == keys[i + 1];
    }
  }

  lemma {:induction false} FirstUnderIsFirst(key: string, others: seq<string>, j: nat)
    requires j < |others| && key + "." <= others[j] && forall k :: 0 <= k < j ==> !(key + "." <= others[k])
    ensures FirstUnder(key, others) == Some(others[j])
  {
    if j > 0 {
      assert !(key + "." <= others[0]);
      forall k | 0 <= k < j - 1 ensures !(key + "." <= others[1..][k]) {
        assert others[1..][k] == others[k + 1];
      }
      FirstUnderIsFirst(key, others[1..], j - 1);
    }
  }

  /** The conflict reported is that of the first key with one below it, and of the first such. */
  lemma {:induction false} FirstConflictIsFirst(keys: seq<string>, all: seq<string>, i: nat, j: nat)
    requires i < |keys| && j < |all| && keys[i] + "." <= all[j]
    requires forall k :: 0 <= k < j ==> !(keys[i] + "." <= all[k])
    requires forall h, k :: 0 <= h < i && 0 <= k < |all| ==> !(keys[h] + "." <= all[k])
    ensures FirstConflict(keys, all) == Some(Conflict(keys[i], all[j]))
  {
    FirstUnderFinds(keys[0], all);
    if i == 0 {
      FirstUnderIsFirst(keys[0], all, j);
    } else {
      forall h, k | 0 <= h < i - 1 && 0 <= k < |all| ensures !(keys[1..][h] + "." <= all[k]) {
        assert keys[1..][h] == keys[h + 1];
      }
      FirstConflictIsFirst(keys[1..], all, i - 1, j);
    }
  }

  function DottedKeysOf(overrides: seq<Override>): (keys: seq<string>)
    ensures |keys| == |overrides| && forall i :: 0 <= i < |keys| ==> keys[i] == Dotted(overrides[i].Path())
  {
    seq(|overrides|, i requires 0 <= i < |overrides| => Dotted(overrides[i].Path()))
  }

  function RefuseConflicts(overrides: seq<Override>): Option<Refusal> {
    FirstConflict(DottedKeysOf(overrides), DottedKeysOf(overrides))
  }

  ghost predicate AllAddressable(overrides: seq<Override>) {
    forall i :: 0 <= i < |overrides| ==> Addressable(overrides[i].Path())
  }

  /** No override puts a key under another's value. */
  ghost predicate Compatible(overrides: seq<Override>) {
    forall i, j :: 0 <= i < |overrides| && 0 <= j < |overrides| ==> !(overrides[i].Path() < overrides[j].Path())
  }

  /** The check on dotted strings refuses exactly when one path is a proper prefix of another. */
  lemma RefusesIffPrefix(overrides: seq<Override>)
    requires AllAddressable(overrides)
    ensures RefuseConflicts(overrides).None? <==> Compatible(overrides)
  {
    var keys := DottedKeysOf(overrides);
    FirstConflictFinds(keys, keys);
    forall i, j | 0 <= i < |overrides| && 0 <= j < |overrides|
      ensures keys[i] + "." <= keys[j] <==> overrides[i].Path() < overrides[j].Path()
    {
      PrefixTestIsPathTest(overrides[i].Path(), overrides[j].Path(), '.');
    }
  }

  // ---------------------------------------------------------------- the tree

  type Entries = map<string, Value>

  function Lookup(v: Value, path: KeyPath): Option<Value> {
    if path == [] then Some(v)
    else if v.Table? && path[0] in v.entries then Lookup(v.entries[path[0]], path[1..])
    else None
  }

  /** What `node.setdefault(part, {})` yields. */
  function ChildOf(node: Entries, part: string): Value {
    if part in node then node[part] else Table(map[])
  }

  /** Put a value at a path, making tables on the way; `None` when a table is needed where a value is. */
  function NestAt(node: Entries, path: KeyPath, value: Value): Option<Entries>
    requires path != []
    decreases |path|
  {
    if |path| == 1 then Some(node[path[0] := value])
    else
      var child := ChildOf(node, path[0]);
      if child.Scalar? then None
      else
        match NestAt(child.entries, path[1..], value)
        case None => None
        case Some(below) => Some(node[path[0] := Table(below)])
  }

  ghost predicate Blocked(node: Entries, path: KeyPath, k: nat) {
    0 < k < |path| && Lookup(Table(node), path[..k]).Some? && Lookup(Table(node), path[..k]).value.Scalar?
  }

  lemma LookupFrom(node: Entries, path: KeyPath, k: nat)
    requires 0 < k <= |path|
    ensures Lookup(Table(node), path[..k]) ==
              if path[0] in node then Lookup(node[path[0]], path[1..][..k - 1]) else None
  {
    assert path[..k][1..] == path[1..][..k - 1];
  }

  lemma BlockedBelow(node: Entries, path: KeyPath, k: nat)
    requires |path| > 1 && ChildOf(node, path[0]).Table?
    ensures !Blocked(node, path, 0) && !Blocked(node, path, 1)
    ensures k > 0 ==> (Blocked(node, path, k + 1) <==> Blocked(ChildOf(node, path[0]).entries, path[1..], k))
  {
    LookupFrom(node, path, 1);
    if 0 < k < |path| - 1 {
      LookupFrom(node, path, k + 1);
      LookupFrom(ChildOf(node, path[0]).entries, path[1..], k);
    }
  }

  /** Nesting fails exactly when some proper prefix of the path already holds a value. */
  lemma {:induction false} NestFailsIff(node: Entries, path: KeyPath, value: Value)
    requires path != []
    ensures NestAt(node, path, value).None? <==> exists k: nat :: Blocked(node, path, k)
    decreases |path|
  {
    if |path| > 1 {
      var child := ChildOf(node, path[0]);
      if child.Scalar? {
        LookupFrom(node, path, 1);
        assert Blocked(node, path, 1);
      } else {
        NestFailsIff(child.entries, path[1..], value);
        if k: nat :| Blocked(node, path, k) {
          BlockedBelow(node, path, k - 1);
          assert Blocked(child.entries, path[1..], k - 1);
        }
        if k: nat :| Blocked(child.entries, path[1..], k) {
          BlockedBelow(node, path, k);
          assert Blocked(node, path, k + 1);
        }
      }
    }
  }

  // ---------------------------------------------------------------- what a tree holds

  datatype Seen = Absent | AValue(json: string) | ATable

  function View(v: Value, path: KeyPath): Seen {
    match Lookup(v, path)
    case None => Absent
    case Some(Scalar(json)) => AValue(json)
    case Some(Table(_)) => ATable
  }

  lemma {:induction false} LookupAfter(v: Value, p: KeyPath, q: KeyPath)
    requires Lookup(v, p).Some?
    ensures Lookup(v, p + q) == Lookup(Lookup(v, p).value, q)
    decreases |p|
  {
    if p == [] {
      assert p + q == q;
    } else {
      assert (p + q)[1..] == p[1..] + q;
      LookupAfter(v.entries[p[0]], p[1..], q);
    }
  }

  lemma ViewBelow(node: Entries, q: KeyPath)
    requires q != []
    ensures View(Table(node), q) == if q[0] in node then View(node[q[0]], q[1..]) else Absent
  {
  }

  /** A tree is determined by what is seen at its paths. */
  lemma {:induction false} ViewsDetermine(a: Value, b: Value)
    requires forall q :: View(a, q) == View(b, q)
    ensures a == b
    decreases a
  {
    assert View(a, []) == View(b, []);
    if a.Table? {
      forall k ensures k in a.entries <==> k in b.entries {
        ViewBelow(a.entries, [k]);
        ViewBelow(b.entries, [k]);
        assert View(a, [k]) == View(b, [k]);
      }
      forall k | k in a.entries ensures a.entries[k] == b.entries[k] {
        forall q ensures View(a.entries[k], q) == View(b.entries[k], q) {
          assert View(a, [k] + q) == View(b, [k] + q);
          assert ([k] + q)[1..] == q;
        }
        ViewsDetermine(a.entries[k], b.entries[k]);
      }
      assert a.entries == b.entries;
    }
  }

  lemma PrefixBelow(p: KeyPath, q: KeyPath)
    requires p != [] && q != [] && p[0] == q[0]
    ensures p <= q <==> p[1..] <= q[1..]
    ensures p < q <==> p[1..] < q[1..]
    ensures p <= q ==> q[|p|..] == q[1..][|p| - 1..]
  {
    assert p == [p[0]] + p[1..] && q == [q[0]] + q[1..];
  }

  lemma ViewOfChild(node: Entries, part: string, q: KeyPath)
    requires ChildOf(node, part).Table? && q != []
    ensures View(ChildOf(node, part), q) == View(Table(node), [part] + q)
  {
    assert ([part] + q)[1..] == q;
  }

  /** What is seen after putting a value at `p`. */
  function SeenAfter(node: Entries, p: KeyPath, v: Value, q: KeyPath): Seen {
    if p <= q then View(v, q[|p|..]) else if q < p then ATable else View(Table(node), q)
  }

  lemma SeenBelow(node: Entries, p: KeyPath, v: Value, q: KeyPath)
    requires |p| > 1 && q != [] && q[0] == p[0] && ChildOf(node, p[0]).Table?
    ensures SeenAfter(ChildOf(node, p[0]).entries, p[1..], v, q[1..]) == SeenAfter(node, p, v, q)
  {
    PrefixBelow(p, q);
    PrefixBelow(q, p);
    if !(p <= q) && !(q < p) {
      ViewOfChild(node, p[0], q[1..]);
      assert [p[0]] + q[1..] == q;
    }
  }

  /** Nesting changes what is seen at the path and below it, makes tables above it, and nothing else. */
  lemma {:induction false} NestedView(node: Entries, p: KeyPath, v: Value, q: KeyPath)
    requires p != [] && NestAt(node, p, v).Some?
    ensures View(Table(NestAt(node, p, v).value), q) == SeenAfter(node, p, v, q)
    decreases |p|
  {
    var after := NestAt(node, p, v).value;
    if q == [] {
      assert q < p;
    } else {
      ViewBelow(after, q);
      if q[0] != p[0] {
        ViewBelow(node, q);
        assert !(p <= q) && !(q < p);
      } else if |p| > 1 {
        NestedView(ChildOf(node, p[0]).entries, p[1..], v, q[1..]);
        SeenBelow(node, p, v, q);
      }
    }
  }

  // ---------------------------------------------------------------- all overrides

  /** The value last given for each path. */
  function Given(overrides: seq<Override>): map<KeyPath, Value> {
    if overrides == [] then map[]
    else
      var last := overrides[|overrides| - 1];
      Given(overrides[..|overrides| - 1])[last.Path() := last.value]
  }

  function NestAll(overrides: seq<Override>): Option<Entries> {
    if overrides == [] then Some(map[])
    else
      match NestAll(overrides[..|overrides| - 1])
      case None => None
      case Some(tree) => NestAt(tree, overrides[|overrides| - 1].Path(), overrides[|overrides| - 1].value)
  }

  ghost predicate Antichain(given: map<KeyPath, Value>) {
    forall p, q :: p in given && q in given ==> !(p < q)
  }

  /** What the given values say is at a path: inside a given value, on the way to one, or nothing. */
  ghost function Expected(given: map<KeyPath, Value>, q: KeyPath): Seen {
    if exists p :: p in given && p <= q then
      var p :| p in given && p <= q;
      View(given[p], q[|p|..])
    else if q == [] || exists p :: p in given && q < p then ATable
    else Absent
  }

  ghost predicate Represents(tree: Entries, given: map<KeyPath, Value>) {
    forall q :: View(Table(tree), q) == Expected(given, q)
  }

  lemma ExpectedInside(given: map<KeyPath, Value>, p: KeyPath, q: KeyPath)
    requires Antichain(given) && p in given && p <= q
    ensures Expected(given, q) == View(given[p], q[|p|..])
  {
    forall r | r in given && r <= q ensures r == p {
      assert |r| < |p| ==> r < p;
      assert |p| < |r| ==> p < r;
    }
  }

  lemma PrefixOfProper(r: KeyPath, q: KeyPath, p: KeyPath)
    ensures r <= q && q < p ==> r < p
  {
    if r <= q && q < p {
      assert r == q[..|r|] == p[..|r|];
    }
  }

  lemma ExpectedAfterOneMore(given: map<KeyPath, Value>, p: KeyPath, v: Value, q: KeyPath)
    requires p != [] && Antichain(given[p := v])
    ensures Expected(given[p := v], q) ==
            if p <= q then View(v, q[|p|..]) else if q < p then ATable else Expected(given, q)
  {
    var more := given[p := v];
    if p <= q {
      ExpectedInside(more, p, q);
    } else if q < p {
      assert p in more;
      forall r | r in more ensures !(r <= q) {
        PrefixOfProper(r, q, p);
      }
    } else if r :| r in given && r <= q {
      assert forall x :: x in given ==> x in more;
      ExpectedInside(given, r, q);
      ExpectedInside(more, r, q);
    } else if r :| r in given && q < r {
      assert r in more;
    }
  }

  lemma NothingBlocks(tree: Entries, given: map<KeyPath, Value>, p: KeyPath, v: Value, k: nat)
    requires Represents(tree, given) && Antichain(given[p := v]) && 0 < k < |p|
    ensures !Blocked(tree, p, k)
  {
    assert View(Table(tree), p[..k]) == Expected(given, p[..k]);
    forall r | r in given ensures !(r <= p[..k]) {
      assert r in given[p := v] && p in given[p := v];
      assert r <= p[..k] ==> r < p;
    }
  }

  /** No value blocks the path of a further override, so nesting never needs a table where a value is. */
  lemma NestingNeverFails(tree: Entries, given: map<KeyPath, Value>, p: KeyPath, v: Value)
    requires Represents(tree, given) && Antichain(given[p := v]) && p != []
    ensures NestAt(tree, p, v).Some? && Represents(NestAt(tree, p, v).value, given[p := v])
  {
    NestFailsIff(tree, p, v);
    forall k: nat | 0 < k < |p| ensures !Blocked(tree, p, k) {
      NothingBlocks(tree, given, p, v, k);
    }
    forall q ensures View(Table(NestAt(tree, p, v).value), q) == Expected(given[p := v], q) {
      NestedView(tree, p, v, q);
      ExpectedAfterOneMore(given, p, v, q);
    }
  }

  lemma {:induction false} GivenPaths(overrides: seq<Override>)
    ensures forall p :: p in Given(overrides) <==> exists i :: 0 <= i < |overrides| && overrides[i].Path() == p
  {
    if overrides != [] {
      var n := |overrides| - 1;
      GivenPaths(overrides[..n]);
      forall p | p in Given(overrides) ensures exists i :: 0 <= i < |overrides| && overrides[i].Path() == p {
        if p != overrides[n].Path() {
          assert p in Given(overrides[..n]);
          var i :| 0 <= i < n && overrides[..n][i].Path() == p;
          assert overrides[i].Path() == p;
        }
      }
      forall i | 0 <= i < |overrides| ensures overrides[i].Path() in Given(overrides) {
        if i < n { assert overrides[..n][i].Path() in Given(overrides[..n]); }
      }
    }
  }

  lemma CompatibleIsAntichain(overrides: seq<Override>)
    requires Compatible(overrides)
    ensures Antichain(Given(overrides))
  {
    GivenPaths(overrides);
  }

  /**
   * For compatible overrides the fold never meets a value where it needs a table, and its tree
   * holds at every path exactly what the values last given say.
   */
  lemma {:induction false} NestAllMeans(overrides: seq<Override>)
    requires Compatible(overrides)
    ensures NestAll(overrides).Some? && Represents(NestAll(overrides).value, Given(overrides))
  {
    if overrides == [] {
      forall q ensures View(Table(map[]), q) == Expected(map[], q) {
      }
    } else {
      var n := |overrides| - 1;
      assert forall i :: 0 <= i < n ==> overrides[..n][i] == overrides[i];
      NestAllMeans(overrides[..n]);
      CompatibleIsAntichain(overrides);
      NestingNeverFails(NestAll(overrides[..n]).value, Given(overrides[..n]), overrides[n].Path(), overrides[n].value);
    }
  }

  // ---------------------------------------------------------------- order

  /** The overrides of one key, in their order. */
  function OfKey(overrides: seq<Override>, path: KeyPath): seq<Override> {
    if overrides == [] then []
    else
      var n := |overrides| - 1;
      OfKey(overrides[..n], path) + if overrides[n].Path() == path then [overrides[n]] else []
  }

  lemma {:induction false} GivenIsLastOfKey(overrides: seq<Override>, path: KeyPath)
    ensures path in Given(overrides) <==> OfKey(overrides, path) != []
    ensures path in Given(overrides) ==>
              Given(overrides)[path] == OfKey(overrides, path)[|OfKey(overrides, path)| - 1].value
  {
    if overrides != [] {
      GivenIsLastOfKey(overrides[..|overrides| - 1], path);
    }
  }

  /** Two orders of the same overrides that agree on the order of each key's own. */
  ghost predicate SameKeyByKey(a: seq<Override>, b: seq<Override>) {
    forall path :: OfKey(a, path) == OfKey(b, path)
  }

  /** Only the order of overrides of one key matters. */
  lemma OrderIndependence(a: seq<Override>, b: seq<Override>)
    requires SameKeyByKey(a, b) && Compatible(a)
    ensures Compatible(b) && NestAll(a) == NestAll(b)
    ensures Given(a) == Given(b)
  {
    forall path ensures path in Given(a) <==> path in Given(b)
      ensures path in Given(a) ==> Given(a)[path] == Given(b)[path]
    {
      assert OfKey(a, path) == OfKey(b, path);
      GivenIsLastOfKey(a, path);
      GivenIsLastOfKey(b, path);
    }
    assert Given(a) == Given(b);
    GivenPaths(a);
    GivenPaths(b);
    forall i, j | 0 <= i < |b| && 0 <= j < |b| ensures !(b[i].Path() < b[j].Path()) {
      assert b[i].Path() in Given(b) && b[j].Path() in Given(b);
    }
    NestAllMeans(a);
    NestAllMeans(b);
    ViewsDetermine(Table(NestAll(a).value), Table(NestAll(b).value));
  }
}
