/** `_nest_override` and `nest_overrides` as they run: one mutable tree and a cursor moving down it. */
module Nesting {
  import opened Text
  import opened Outcomes
  import opened Overrides

  // ---------------------------------------------------------------- moving the cursor

  predicate TableAt(tree: Entries, at: KeyPath) {
    Lookup(Table(tree), at).Some? && Lookup(Table(tree), at).value.Table?
  }

  lemma {:induction false} TableTakes(tree: Entries, at: KeyPath, part: string, v: Value)
    requires TableAt(tree, at)
    ensures NestAt(tree, at + [part], v).Some?
    ensures Lookup(Table(NestAt(tree, at + [part], v).value), at + [part]) == Some(v)
    decreases |at|
  {
    var path := at + [part];
    if at == [] {
      assert path[1..] == [];
    } else {
      assert path[1..] == at[1..] + [part];
      assert Lookup(tree[at[0]], at[1..]) == Lookup(Table(tree), at);
      assert at[1..] == [] ==> Lookup(tree[at[0]], at[1..]) == Some(tree[at[0]]);
      TableTakes(tree[at[0]].entries, at[1..], part, v);
    }
  }

  /** `node.setdefault(part, {})` where `node` is the table at `at`. */
  function WithDefault(tree: Entries, at: KeyPath, part: string): Entries
    requires TableAt(tree, at)
  {
    TableTakes(tree, at, part, Table(map[]));
    if part in Lookup(Table(tree), at).value.entries then tree else NestAt(tree, at + [part], Table(map[])).value
  }

  lemma {:induction false} LookupStep(tree: Entries, at: KeyPath, part: string)
    requires TableAt(tree, at)
    ensures var node := Lookup(Table(tree), at).value.entries;
            Lookup(Table(tree), at + [part]) == if part in node then Some(node[part]) else None
  {
    LookupAfter(Table(tree), at, [part]);
    assert [part][1..] == [];
  }

  /** A table made on the way to `path` changes nothing about nesting there. */
  lemma {:induction false} DefaultDoesNotDecide(tree: Entries, at: KeyPath, part: string, path: KeyPath, v: Value)
    requires TableAt(tree, at) && at + [part] < path
    ensures NestAt(WithDefault(tree, at, part), path, v) == NestAt(tree, path, v)
    decreases |at|
  {
    var node := Lookup(Table(tree), at).value.entries;
    if part !in node {
      TableTakes(tree, at, part, Table(map[]));
      var next := WithDefault(tree, at, part);
      if at == [] {
        assert path[0] == ([] + [part])[0] == part;
        assert (at + [part])[1..] == [];
        assert next == tree[part := Table(map[])];
        var below := NestAt(map[], path[1..], v);
        if below.Some? {
          assert next[part := Table(below.value)] == tree[part := Table(below.value)];
        }
      } else {
        var child := tree[at[0]].entries;
        assert (at + [part])[1..] == at[1..] + [part];
        assert (at + [part])[0] == at[0] == path[0];
        DefaultDoesNotDecide(child, at[1..], part, path[1..], v);
        assert next == tree[at[0] := Table(WithDefault(child, at[1..], part))];
        var below := NestAt(child, path[1..], v);
        if below.Some? {
          assert next[at[0] := Table(below.value)] == tree[at[0] := Table(below.value)];
        }
      }
    }
  }

  lemma {:induction false} ValueInTheWay(tree: Entries, at: KeyPath, path: KeyPath, v: Value)
    requires at != [] && at < path && Lookup(Table(tree), at).Some? && Lookup(Table(tree), at).value.Scalar?
    ensures NestAt(tree, path, v).None?
  {
    NestFailsIff(tree, path, v);
    assert path[..|at|] == at;
    assert Blocked(tree, path, |at|);
  }

  class Tree {
    var tree: Entries

    constructor ()
      ensures tree == map[]
    {
      tree := map[];
    }

    method SetDefault(at: KeyPath, part: string)
      requires TableAt(tree, at)
      modifies this
      ensures tree == WithDefault(old(tree), at, part)
      ensures Lookup(Table(tree), at + [part]).Some?
    {
      TableTakes(tree, at, part, Table(map[]));
      LookupStep(tree, at, part);
      if part !in Lookup(Table(tree), at).value.entries {
        tree := NestAt(tree, at + [part], Table(map[])).value;
      }
    }

    /** `_nest_override`; false when a value is used as a table, where Python raises. */
    method Nest(o: Override) returns (done: bool)
      requires o.keyPath != []
      modifies this
      ensures done <==> NestAt(old(tree), o.Path(), o.value).Some?
      ensures done ==> tree == NestAt(old(tree), o.Path(), o.value).value
    {
      ghost var path, want := o.Path(), NestAt(tree, o.Path(), o.value);
      var last := |o.keyPath| - 1;
      assert [] + [o.section] == [o.section];
      DefaultDoesNotDecide(tree, [], o.section, path, o.value);
      SetDefault([], o.section);
      var at := [o.section];
      for i := 0 to last
        invariant at == [o.section] + o.keyPath[..i]
        invariant Lookup(Table(tree), at).Some?
        invariant NestAt(tree, path, o.value) == want
      {
        if Lookup(Table(tree), at).value.Scalar? {
          ValueInTheWay(tree, at, path, o.value);
          return false;
        }
        assert at + [o.keyPath[i]] == path[..i + 2];
        DefaultDoesNotDecide(tree, at, o.keyPath[i], path, o.value);
        SetDefault(at, o.keyPath[i]);
        at := at + [o.keyPath[i]];
      }
      assert at == path[..last + 1] && at + [o.keyPath[last]] == path;
      if Lookup(Table(tree), at).value.Scalar? {
        ValueInTheWay(tree, at, path, o.value);
        return false;
      }
      TableTakes(tree, at, o.keyPath[last], o.value);
      tree := NestAt(tree, at + [o.keyPath[last]], o.value).value;
      return true;
    }
  }

  // ---------------------------------------------------------------- all of `--set`

  datatype Nested = Nested(tree: Entries, keys: set<string>)

  function ParseAll(raws: seq<string>, coerce: string -> Value): Outcome<seq<Override>> {
    if raws == [] then Ok([])
    else
      match ParseAll(raws[..|raws| - 1], coerce)
      case Refused(why) => Refused(why)
      case Ok(before) =>
        match ParseOverride(raws[|raws| - 1], coerce)
        case Refused(why) => Refused(why)
        case Ok(o) => Ok(before + [o])
  }

  function KeysOf(overrides: seq<Override>): set<string> {
    set i | 0 <= i < |overrides| :: Dotted(overrides[i].Path())
  }

  function NestOverrides(raws: seq<string>, coerce: string -> Value): Outcome<Nested> {
    match ParseAll(raws, coerce)
    case Refused(why) => Refused(why)
    case Ok(parsed) =>
      if RefuseConflicts(parsed).Some? then Refused(RefuseConflicts(parsed).value)
      else
        match NestAll(parsed)
        case None => Refused(NotATable)
        case Some(tree) => Ok(Nested(tree, KeysOf(parsed)))
  }

  lemma ParsedIsAddressable(raw: string, coerce: string -> Value)
    ensures ParseOverride(raw, coerce).Ok? ==> Addressable(ParseOverride(raw, coerce).value.Path())
  {
    if ParseOverride(raw, coerce).Ok? {
      var text := ParsedIsRendered(raw, coerce);
    }
  }

  ghost predicate ParsedAs(raws: seq<string>, coerce: string -> Value, parsed: seq<Override>) {
    |parsed| == |raws| && forall i :: 0 <= i < |raws| ==> ParseOverride(raws[i], coerce) == Ok(parsed[i])
  }

  ghost predicate FirstRefusal(raws: seq<string>, coerce: string -> Value, n: nat, why: Refusal) {
    && n < |raws| && ParseOverride(raws[n], coerce) == Refused(why)
    && forall i :: 0 <= i < n ==> ParseOverride(raws[i], coerce).Ok?
  }

  lemma OneMoreParses(raws: seq<string>, coerce: string -> Value, before: seq<Override>, o: Override)
    requires raws != [] && ParsedAs(raws[..|raws| - 1], coerce, before)
    requires ParseOverride(raws[|raws| - 1], coerce) == Ok(o)
    ensures ParsedAs(raws, coerce, before + [o])
  {
    forall i | 0 <= i < |raws| - 1 ensures ParseOverride(raws[i], coerce) == Ok(before[i]) {
      assert raws[..|raws| - 1][i] == raws[i];
    }
  }

  lemma RefusalStays(raws: seq<string>, coerce: string -> Value, n: nat, why: Refusal)
    requires raws != [] && FirstRefusal(raws[..|raws| - 1], coerce, n, why)
    ensures FirstRefusal(raws, coerce, n, why)
  {
    assert forall i :: 0 <= i <= n ==> raws[..|raws| - 1][i] == raws[i];
  }

  /** Either every override parses, or the first that does not is reported. */
  lemma {:induction false} ParsedAll(raws: seq<string>, coerce: string -> Value)
    ensures ParseAll(raws, coerce).Ok? ==> ParsedAs(raws, coerce, ParseAll(raws, coerce).value)
    ensures ParseAll(raws, coerce).Refused? ==>
              exists n: nat :: FirstRefusal(raws, coerce, n, ParseAll(raws, coerce).why)
  {
    if raws != [] {
      var last := |raws| - 1;
      ParsedAll(raws[..last], coerce);
      match ParseAll(raws[..last], coerce)
      case Ok(before) =>
        match ParseOverride(raws[last], coerce) {
          case Ok(o) => OneMoreParses(raws, coerce, before, o);
          case Refused(why) =>
            assert forall i :: 0 <= i < last ==> raws[..last][i] == raws[i];
            assert FirstRefusal(raws, coerce, last, why);
        }
      case Refused(why) =>
        var n: nat :| FirstRefusal(raws[..last], coerce, n, why);
        RefusalStays(raws, coerce, n, why);
    }
  }

  lemma ParsedAreAddressable(raws: seq<string>, coerce: string -> Value)
    requires ParseAll(raws, coerce).Ok?
    ensures AllAddressable(ParseAll(raws, coerce).value)
  {
    ParsedAll(raws, coerce);
    var parsed := ParseAll(raws, coerce).value;
    forall i | 0 <= i < |parsed| ensures Addressable(parsed[i].Path()) {
      ParsedIsAddressable(raws[i], coerce);
    }
  }

  lemma ParsingNeverNeedsATable(raw: string, coerce: string -> Value)
    ensures ParseOverride(raw, coerce).Refused? ==>
              !ParseOverride(raw, coerce).why.NotATable? && !ParseOverride(raw, coerce).why.Conflict?
  {
  }

  lemma {:induction false} NestAllFails(overrides: seq<Override>, n: nat)
    requires n <= |overrides| && NestAll(overrides[..n]).None?
    ensures NestAll(overrides).None?
    decreases |overrides| - n
  {
    if n == |overrides| {
      assert overrides[..n] == overrides;
    } else {
      assert overrides[..n + 1][..n] == overrides[..n];
      NestAllFails(overrides, n + 1);
    }
  }

  lemma {:induction false} RefusedEarly(raws: seq<string>, n: nat, coerce: string -> Value)
    requires n <= |raws| && ParseAll(raws[..n], coerce).Refused?
    ensures ParseAll(raws, coerce) == ParseAll(raws[..n], coerce)
    decreases |raws| - n
  {
    if n == |raws| {
      assert raws[..n] == raws;
    } else {
      assert raws[..n + 1][..n] == raws[..n];
      RefusedEarly(raws, n + 1, coerce);
    }
  }

  method RunParseAll(raws: seq<string>, coerce: string -> Value) returns (r: Outcome<seq<Override>>)
    ensures r == ParseAll(raws, coerce)
  {
    var parsed: seq<Override> := [];
    for i := 0 to |raws|
      invariant ParseAll(raws[..i], coerce) == Ok(parsed)
    {
      assert raws[..i + 1][..i] == raws[..i];
      var o := ParseOverride(raws[i], coerce);
      if o.Refused? {
        RefusedEarly(raws, i + 1, coerce);
        return Refused(o.why);
      }
      parsed := parsed + [o.value];
    }
    assert raws[..|raws|] == raws;
    return Ok(parsed);
  }

  method RunNestAll(parsed: seq<Override>) returns (r: Option<Entries>)
    requires forall i :: 0 <= i < |parsed| ==> parsed[i].keyPath != []
    ensures r == NestAll(parsed)
  {
    var overrides := new Tree();
    for i := 0 to |parsed|
      invariant NestAll(parsed[..i]) == Some(overrides.tree)
    {
      assert parsed[..i + 1][..i] == parsed[..i];
      var done := overrides.Nest(parsed[i]);
      if !done {
        NestAllFails(parsed, i + 1);
        return None;
      }
    }
    assert parsed[..|parsed|] == parsed;
    return Some(overrides.tree);
  }

  /** `nest_overrides`. */
  method RunNestOverrides(raws: seq<string>, coerce: string -> Value) returns (r: Outcome<Nested>)
    ensures r == NestOverrides(raws, coerce)
  {
    var parsed := RunParseAll(raws, coerce);
    if parsed.Refused? {
      return Refused(parsed.why);
    }
    ParsedAreAddressable(raws, coerce);
    var conflict := RefuseConflicts(parsed.value);
    if conflict.Some? {
      return Refused(conflict.value);
    }
    forall i | 0 <= i < |parsed.value| ensures parsed.value[i].keyPath != [] {
      assert Addressable(parsed.value[i].Path());
    }
    var overrides := RunNestAll(parsed.value);
    if overrides.None? {
      return Refused(NotATable);
    }
    return Ok(Nested(overrides.value, KeysOf(parsed.value)));
  }

  lemma KeysAreGiven(overrides: seq<Override>)
    requires AllAddressable(overrides)
    ensures forall p :: Addressable(p) ==> (Dotted(p) in KeysOf(overrides) <==> p in Given(overrides))
  {
    GivenPaths(overrides);
    forall p | Addressable(p) ensures Dotted(p) in KeysOf(overrides) <==> p in Given(overrides) {
      if Dotted(p) in KeysOf(overrides) {
        var i :| 0 <= i < |overrides| && Dotted(overrides[i].Path()) == Dotted(p);
        JoinIsInjective(p, overrides[i].Path(), '.');
      }
    }
  }

  /**
   * `nest_overrides` on any command line: it refuses exactly when an override is malformed or one
   * path is a proper prefix of another, never because nesting met a value; otherwise the tree holds
   * at every path what the values last given say, and the keys are the paths given.
   */
  lemma NestOverridesMeans(raws: seq<string>, coerce: string -> Value)
    ensures var r := NestOverrides(raws, coerce);
            && (r.Ok? <==> ParseAll(raws, coerce).Ok? && Compatible(ParseAll(raws, coerce).value))
            && (ParseAll(raws, coerce).Refused? ==> r == Refused(ParseAll(raws, coerce).why))
            && (r.Refused? && ParseAll(raws, coerce).Ok? ==> r.why.Conflict?)
            && (r.Refused? ==> !r.why.NotATable?)
            && (r.Refused? && r.why.Conflict? ==> r.why.key + "." <= r.why.nested)
            && (r.Ok? ==> var parsed := ParseAll(raws, coerce).value;
                          && Represents(r.value.tree, Given(parsed))
                          && forall p :: Addressable(p) ==> (Dotted(p) in r.value.keys <==> p in Given(parsed)))
  {
    ParsedAll(raws, coerce);
    match ParseAll(raws, coerce)
    case Refused(why) =>
      var n: nat :| FirstRefusal(raws, coerce, n, why);
      ParsingNeverNeedsATable(raws[n], coerce);
    case Ok(parsed) =>
      ParsedAreAddressable(raws, coerce);
      RefusesIffPrefix(parsed);
      FirstConflictFinds(DottedKeysOf(parsed), DottedKeysOf(parsed));
      if Compatible(parsed) {
        NestAllMeans(parsed);
        KeysAreGiven(parsed);
      }
  }

  lemma SameKeys(a: seq<Override>, b: seq<Override>)
    requires Given(a) == Given(b)
    ensures KeysOf(a) <= KeysOf(b)
  {
    GivenPaths(a);
    GivenPaths(b);
    forall i | 0 <= i < |a| ensures Dotted(a[i].Path()) in KeysOf(b) {
      assert a[i].Path() in Given(b);
    }
  }

  lemma SameTreeAndKeys(a: seq<Override>, b: seq<Override>)
    requires SameKeyByKey(a, b) && Compatible(a)
    ensures Compatible(b) && NestAll(a) == NestAll(b) && KeysOf(a) == KeysOf(b)
  {
    OrderIndependence(a, b);
    SameKeys(a, b);
    SameKeys(b, a);
  }

  lemma NestOverridesIs(raws: seq<string>, coerce: string -> Value, parsed: seq<Override>)
    requires ParseAll(raws, coerce) == Ok(parsed)
    ensures NestOverrides(raws, coerce).Ok? <==> Compatible(parsed)
    ensures Compatible(parsed) ==>
              NestAll(parsed).Some? && NestOverrides(raws, coerce) == Ok(Nested(NestAll(parsed).value, KeysOf(parsed)))
  {
    ParsedAreAddressable(raws, coerce);
    RefusesIffPrefix(parsed);
    if Compatible(parsed) {
      NestAllMeans(parsed);
    }
  }

  /** Two command lines that agree on the order of each key's own overrides give the same tree and keys. */
  lemma NestOverridesIgnoresOrder(left: seq<string>, right: seq<string>, coerce: string -> Value, a: seq<Override>,
                                  b: seq<Override>)
    requires ParseAll(left, coerce) == Ok(a) && ParseAll(right, coerce) == Ok(b) && SameKeyByKey(a, b)
    requires NestOverrides(left, coerce).Ok?
    ensures NestOverrides(left, coerce) == NestOverrides(right, coerce)
  {
    NestOverridesIs(left, coerce, a);
    SameTreeAndKeys(a, b);
    NestOverridesIs(right, coerce, b);
  }
}
