/** `apply_overrides`: the merged configuration and the map that says where each of its values came from. */
module Provenance {
  import opened Text
  import opened Overrides
  import opened Nesting

  /** Where a value came from; the command line names no file. */
  datatype Origin = Cli(key: string) | Layer(layer: string, path: string, key: string)

  datatype Config = Config(data: Entries, origins: map<string, Origin>)

  // ---------------------------------------------------------------- merging

  /** `Config.with_overrides`: tables merge key by key, anything else is replaced. */
  function Merge(base: Entries, over: Entries): Entries
    decreases Table(over)
  {
    map k | k in base.Keys + over.Keys ::
      if k !in over then base[k]
      else if k in base && base[k].Table? && over[k].Table? then Table(Merge(base[k].entries, over[k].entries))
      else over[k]
  }

  /** On the way to `q` something of `base` was replaced. */
  ghost predicate Overwritten(base: Entries, over: Entries, q: KeyPath, k: nat) {
    k <= |q| &&
    (View(Table(over), q[..k]).AValue? || (View(Table(over), q[..k]).ATable? && !View(Table(base), q[..k]).ATable?))
  }

  ghost function MergedSeen(base: Entries, over: Entries, q: KeyPath): Seen {
    if !View(Table(over), q).Absent? then View(Table(over), q)
    else if exists k: nat :: Overwritten(base, over, q, k) then Absent
    else View(Table(base), q)
  }

  lemma OverwrittenBelow(base: Entries, over: Entries, q: KeyPath, k: nat)
    requires q != [] && q[0] in base && q[0] in over && base[q[0]].Table? && over[q[0]].Table?
    ensures !Overwritten(base, over, q, 0)
    ensures Overwritten(base, over, q, k + 1) <==> Overwritten(base[q[0]].entries, over[q[0]].entries, q[1..], k)
  {
    if k < |q| {
      assert q[..k + 1][1..] == q[1..][..k];
    }
  }

  lemma NothingOverwritten(base: Entries, over: Entries, q: KeyPath, k: nat)
    requires q != [] && q[0] !in over
    ensures !Overwritten(base, over, q, k)
  {
  }

  /** What a merge shows at every path. */
  lemma {:induction false} MergeView(base: Entries, over: Entries, q: KeyPath)
    ensures View(Table(Merge(base, over)), q) == MergedSeen(base, over, q)
    decreases |q|
  {
    if q != [] {
      var h := q[0];
      if h !in over {
        forall k: nat ensures !Overwritten(base, over, q, k) {
          NothingOverwritten(base, over, q, k);
        }
      } else if h in base && base[h].Table? && over[h].Table? {
        var b, o := base[h].entries, over[h].entries;
        MergeView(b, o, q[1..]);
        if k: nat :| Overwritten(base, over, q, k) {
          OverwrittenBelow(base, over, q, if k == 0 then 0 else k - 1);
          assert Overwritten(b, o, q[1..], k - 1);
        }
        if k: nat :| Overwritten(b, o, q[1..], k) {
          OverwrittenBelow(base, over, q, k);
          assert Overwritten(base, over, q, k + 1);
        }
      } else {
        assert q[..1] == [h];
        ViewBelow(over, [h]);
        ViewBelow(base, [h]);
        assert Overwritten(base, over, q, 1);
      }
    }
  }

  // ---------------------------------------------------------------- leaves

  /** `_dotted_keys`. */
  function DottedKeys(data: Entries, prefix: string): set<string>
    decreases Table(data), 0
  {
    set k, d | k in data && d in DottedKeysUnder(data[k], prefix + k) :: d
  }

  function DottedKeysUnder(v: Value, path: string): set<string>
    decreases v, 1
  {
    match v
    case Scalar(_) => {path}
    case Table(entries) => DottedKeys(entries, path + ".")
  }

  ghost predicate Leaf(data: Entries, q: KeyPath) {
    View(Table(data), q).AValue?
  }

  lemma {:induction false} DottedKeysAreLeaves(data: Entries, prefix: string, d: string)
    ensures d in DottedKeys(data, prefix) <==> exists q :: q != [] && Leaf(data, q) && d == prefix + Dotted(q)
    decreases Table(data)
  {
    if d in DottedKeys(data, prefix) {
      var k :| k in data && d in DottedKeysUnder(data[k], prefix + k);
      if data[k].Scalar? {
        ViewBelow(data, [k]);
        assert Leaf(data, [k]) && d == prefix + Dotted([k]);
      } else {
        DottedKeysAreLeaves(data[k].entries, prefix + k + ".", d);
        var q :| q != [] && Leaf(data[k].entries, q) && d == prefix + k + "." + Dotted(q);
        ViewBelow(data, [k] + q);
        assert ([k] + q)[1..] == q;
        JoinOfConcat([k], q, '.');
        assert Leaf(data, [k] + q) && d == prefix + Dotted([k] + q);
      }
    }
    if q :| q != [] && Leaf(data, q) && d == prefix + Dotted(q) {
      ViewBelow(data, q);
      var k := q[0];
      if |q| == 1 {
        assert q[1..] == [];
        assert d in DottedKeysUnder(data[k], prefix + k);
      } else {
        JoinOfConcat([k], q[1..], '.');
        assert q == [k] + q[1..];
        assert d == prefix + k + "." + Dotted(q[1..]);
        DottedKeysAreLeaves(data[k].entries, prefix + k + ".", d);
        assert d in DottedKeysUnder(data[k], prefix + k);
      }
    }
  }

  // ---------------------------------------------------------------- the rebuilt map

  function Relabelled(origins: map<string, Origin>, merged: Entries, overridden: set<string>): map<string, Origin> {
    map d | d in DottedKeys(merged, "") && (d in overridden || d in origins) ::
      if d in overridden then Cli(d) else origins[d]
  }

  /** `_provenance_naming_the_cli`; the keys come in any order. */
  method RunRelabel(origins: map<string, Origin>, merged: Entries,
                    overridden: set<string>) returns (provenance: map<string, Origin>)
    ensures provenance == Relabelled(origins, merged, overridden)
  {
    provenance := map[];
    var dotted := DottedKeys(merged, "");
    while dotted != {}
      invariant dotted <= DottedKeys(merged, "")
      invariant forall d :: d in provenance <==>
                  d in DottedKeys(merged, "") - dotted && (d in overridden || d in origins)
      invariant forall d :: d in provenance ==> provenance[d] == if d in overridden then Cli(d) else origins[d]
      decreases dotted
    {
      var d :| d in dotted;
      dotted := dotted - {d};
      if d in overridden {
        provenance := provenance[d := Cli(d)];
      } else if d in origins {
        provenance := provenance[d := origins[d]];
      }
    }
  }

  function ApplyOverrides(config: Config, raws: seq<string>, coerce: string -> Value): Outcome<Config> {
    if raws == [] then Ok(config)
    else
      match NestOverrides(raws, coerce)
      case Refused(why) => Refused(why)
      case Ok(nested) =>
        var merged := Merge(config.data, nested.tree);
        Ok(Config(merged, Relabelled(config.origins, merged, nested.keys)))
  }

  // ---------------------------------------------------------------- what the map says

  /** A run of `apply_overrides` that was not refused, with everything it computed on the way. */
  ghost predicate Applied(before: Config, raws: seq<string>, coerce: string -> Value, given: map<KeyPath, Value>,
                          tree: Entries, after: Config)
  {
    && raws != []
    && ParseAll(raws, coerce).Ok? && given == Given(ParseAll(raws, coerce).value)
    && NestOverrides(raws, coerce).Ok? && tree == NestOverrides(raws, coerce).value.tree
    && ApplyOverrides(before, raws, coerce) == Ok(after)
  }

  lemma LeafOfMerge(base: Entries, over: Entries, q: KeyPath)
    requires Leaf(Merge(base, over), q)
    ensures View(Table(Merge(base, over)), q) == if Leaf(over, q) then View(Table(over), q) else View(Table(base), q)
    ensures !View(Table(over), q).ATable?
  {
    MergeView(base, over, q);
  }

  lemma PrefixOrEqual(p: KeyPath, q: KeyPath)
    requires p <= q
    ensures p == q || p < q
  {
    assert p == q[..|p|];
  }

  lemma LeafOfTree(tree: Entries, given: map<KeyPath, Value>, q: KeyPath)
    requires Represents(tree, given) && Antichain(given)
    ensures Leaf(tree, q) ==> q in given || exists p :: p in given && p < q
    ensures q in given ==> View(Table(tree), q) == View(given[q], []) && !exists p :: p in given && p < q
    ensures q in given && View(Table(tree), q) != ATable ==> Leaf(tree, q)
  {
    assert View(Table(tree), q) == Expected(given, q);
    if q in given {
      ExpectedInside(given, q, q);
      assert q[|q|..] == [];
    } else if Leaf(tree, q) {
      var p :| p in given && p <= q;
      PrefixOrEqual(p, q);
    }
  }

  /** A dotted key names an overridden path exactly when it is one that was given. */
  lemma OverriddenIffGiven(overrides: seq<Override>, q: KeyPath)
    requires AllAddressable(overrides) && q != [] && Free(q, '.')
    ensures Dotted(q) in KeysOf(overrides) <==> q in Given(overrides)
  {
    GivenPaths(overrides);
    if Dotted(q) in KeysOf(overrides) {
      var i :| 0 <= i < |overrides| && Dotted(overrides[i].Path()) == Dotted(q);
      assert Addressable(overrides[i].Path());
      JoinIsInjective(q, overrides[i].Path(), '.');
    }
  }

  /** The label of every leaf whose keys hold no dot, and that only leaves have one. */
  lemma Labels(before: Config, raws: seq<string>, coerce: string -> Value, given: map<KeyPath, Value>, tree: Entries,
               after: Config)
    requires Applied(before, raws, coerce, given, tree, after)
    ensures Represents(tree, given) && Antichain(given) && after.data == Merge(before.data, tree)
    ensures forall d :: d in after.origins ==> exists q :: q != [] && Leaf(after.data, q) && d == Dotted(q)
    ensures forall q :: q != [] && Free(q, '.') && Leaf(after.data, q) ==>
              (Dotted(q) in after.origins <==> q in given || Dotted(q) in before.origins)
    ensures forall q :: q != [] && Free(q, '.') && Leaf(after.data, q) && Dotted(q) in after.origins ==>
              after.origins[Dotted(q)] == if q in given then Cli(Dotted(q)) else before.origins[Dotted(q)]
  {
    var parsed := ParseAll(raws, coerce).value;
    NestOverridesIs(raws, coerce, parsed);
    ParsedAreAddressable(raws, coerce);
    NestAllMeans(parsed);
    CompatibleIsAntichain(parsed);
    forall d | d in after.origins ensures exists q :: q != [] && Leaf(after.data, q) && d == Dotted(q) {
      DottedKeysAreLeaves(after.data, "", d);
      var q :| q != [] && Leaf(after.data, q) && d == "" + Dotted(q);
      assert d == Dotted(q);
    }
    forall q | q != [] && Free(q, '.') && Leaf(after.data, q)
      ensures Dotted(q) in DottedKeys(after.data, "") && (Dotted(q) in KeysOf(parsed) <==> q in given)
    {
      OverriddenIffGiven(parsed, q);
      DottedKeysAreLeaves(after.data, "", Dotted(q));
      assert Dotted(q) == "" + Dotted(q);
    }
  }

  /** `after` holds at every path what was given there, or else what was there before and still has room. */
  ghost predicate Holds(before: Entries, given: map<KeyPath, Value>, after: Entries) {
    exists tree :: Represents(tree, given) && forall q :: View(Table(after), q) == MergedSeen(before, tree, q)
  }

  /** Which leaves without a dot in their keys have an origin, and which: the command line only for a path given. */
  ghost predicate Labelled(before: map<string, Origin>, given: map<KeyPath, Value>, after: Config) {
    forall q :: q != [] && Free(q, '.') && Leaf(after.data, q) ==>
      && (Dotted(q) in after.origins <==> q in given || Dotted(q) in before)
      && (Dotted(q) in after.origins ==>
          after.origins[Dotted(q)] == if q in given then Cli(Dotted(q)) else before[Dotted(q)])
  }

  /** What overrides that are not refused make of a configuration. */
  ghost predicate Overridden(before: Config, given: map<KeyPath, Value>, after: Config) {
    Holds(before.data, given, after.data) && Labelled(before.origins, given, after)
  }

  /** Without overrides the configuration is returned itself; with them it is refused or overridden. */
  lemma AppliedMeans(config: Config, raws: seq<string>, coerce: string -> Value)
    ensures var r := ApplyOverrides(config, raws, coerce);
            && (raws == [] ==> r == Ok(config))
            && (raws != [] ==> (r.Ok? <==> ParseAll(raws, coerce).Ok? && Compatible(ParseAll(raws, coerce).value)))
            && (raws != [] && r.Ok? ==> Overridden(config, Given(ParseAll(raws, coerce).value), r.value))
  {
    var r := ApplyOverrides(config, raws, coerce);
    NestOverridesMeans(raws, coerce);
    if raws != [] && r.Ok? {
      var given, tree := Given(ParseAll(raws, coerce).value), NestOverrides(raws, coerce).value.tree;
      Labels(config, raws, coerce, given, tree, r.value);
      forall q ensures View(Table(r.value.data), q) == MergedSeen(config.data, tree, q) {
        MergeView(config.data, tree, q);
      }
    }
  }

  method RunApplyOverrides(config: Config, raws: seq<string>, coerce: string -> Value) returns (r: Outcome<Config>)
    ensures r == ApplyOverrides(config, raws, coerce)
    ensures raws == [] ==> r == Ok(config)
    ensures raws != [] ==> (r.Ok? <==> ParseAll(raws, coerce).Ok? && Compatible(ParseAll(raws, coerce).value))
    ensures raws != [] && r.Ok? ==> Overridden(config, Given(ParseAll(raws, coerce).value), r.value)
  {
    AppliedMeans(config, raws, coerce);
    if |raws| == 0 {
      return Ok(config);
    }
    var nested := RunNestOverrides(raws, coerce);
    if nested.Refused? {
      return Refused(nested.why);
    }
    var merged := Merge(config.data, nested.value.tree);
    var provenance := RunRelabel(config.origins, merged, nested.value.keys);
    return Ok(Config(merged, provenance));
  }

  /**
   * The map tells the truth about a leaf: the command line for a value it gave, the old origin, or none, for
   * any other.
   */
  ghost predicate Truthful(before: Config, tree: Entries, after: Config, q: KeyPath) {
    var d := Dotted(q);
    if Leaf(tree, q) then d in after.origins && after.origins[d] == Cli(d)
    else (d in after.origins <==> d in before.origins) && (d in after.origins ==> after.origins[d] == before.origins[d])
  }

  /** A leaf strictly inside a table that was given as a value. */
  ghost predicate InsideGivenTable(given: map<KeyPath, Value>, tree: Entries, q: KeyPath) {
    Leaf(tree, q) && exists p :: p in given && p < q
  }

  /** A key directly given anything but a table is a leaf of the merged tree, holds that value and says `cli`. */
  lemma GivenSaysCli(before: Config, raws: seq<string>, coerce: string -> Value, given: map<KeyPath, Value>,
                     tree: Entries, after: Config, p: KeyPath)
    requires Applied(before, raws, coerce, given, tree, after) && p in given && given[p].Scalar?
    ensures View(Table(after.data), p) == AValue(given[p].json)
    ensures Dotted(p) in after.origins && after.origins[Dotted(p)] == Cli(Dotted(p))
  {
    var parsed := ParseAll(raws, coerce).value;
    Labels(before, raws, coerce, given, tree, after);
    ParsedAreAddressable(raws, coerce);
    GivenPaths(parsed);
    assert Addressable(p);
    LeafOfTree(tree, given, p);
    MergeView(before.data, tree, p);
  }

  /**
   * Provenance after overrides, for every leaf whose keys hold no dot: the map is truthful about it
   * exactly when it does not lie inside a table given as a value; there it keeps naming the file.
   */
  lemma TruthfulIff(before: Config, raws: seq<string>, coerce: string -> Value, given: map<KeyPath, Value>,
                    tree: Entries, after: Config, q: KeyPath)
    requires Applied(before, raws, coerce, given, tree, after)
    requires q != [] && Free(q, '.') && Leaf(after.data, q)
    requires forall d :: d in before.origins ==> before.origins[d].Layer?
    ensures Truthful(before, tree, after, q) <==> !InsideGivenTable(given, tree, q)
    ensures q in given ==> given[q].Scalar?
    ensures forall p :: p in given && given[p].Scalar? ==>
              && Leaf(after.data, p) && View(Table(after.data), p) == AValue(given[p].json)
              && Dotted(p) in after.origins && after.origins[Dotted(p)] == Cli(Dotted(p))
    ensures !Leaf(tree, q) ==> View(Table(after.data), q) == View(Table(before.data), q)
  {
    Labels(before, raws, coerce, given, tree, after);
    LeafOfMerge(before.data, tree, q);
    LeafOfTree(tree, given, q);
    forall p | p in given && given[p].Scalar?
      ensures Leaf(after.data, p) && View(Table(after.data), p) == AValue(given[p].json)
      ensures Dotted(p) in after.origins && after.origins[Dotted(p)] == Cli(Dotted(p))
    {
      GivenSaysCli(before, raws, coerce, given, tree, after, p);
    }
  }

  lemma OneOverride(o: Override)
    requires Addressable(o.Path())
    ensures Compatible([o]) && AllAddressable([o]) && Given([o]) == map[o.Path() := o.value]
  {
    assert [o][..0] == [];
    assert Given([o]) == Given([])[o.Path() := o.value];
  }

  lemma OneParsed(raw: string, coerce: string -> Value, o: Override)
    requires ParseOverride(raw, coerce) == Ok(o)
    ensures ParseAll([raw], coerce) == Ok([o])
  {
    assert [raw][..0] == [];
    assert [] + [o] == [o];
  }

  /**
   * Giving a table for a key always leaves every value in it labelled as before, with the file that
   * held the old value or with nothing: `--set a.b={"c":1}` over a file's `a.b.c` is one.
   */
  lemma TableIsMislabelled(before: Config, p: KeyPath, text: string, coerce: string -> Value, q: KeyPath)
    requires Addressable(p) && '=' !in Dotted(p) && Free(q, '.') && p < q
    requires View(coerce(text), q[|p|..]).AValue?
    requires forall d :: d in before.origins ==> before.origins[d].Layer?
    ensures var r := ApplyOverrides(before, [Dotted(p) + "=" + text], coerce);
            && r.Ok?
            && View(Table(r.value.data), q) == View(coerce(text), q[|p|..])
            && (Dotted(q) in r.value.origins <==> Dotted(q) in before.origins)
            && (Dotted(q) in before.origins ==> r.value.origins[Dotted(q)] == before.origins[Dotted(q)])
  {
    var raw, o := Dotted(p) + "=" + text, Override(p[0], p[1..], coerce(text));
    assert o.Path() == p;
    ParseUndoesRender(p, text, coerce);
    OneParsed(raw, coerce, o);
    OneOverride(o);
    NestOverridesIs([raw], coerce, [o]);
    var tree, given := NestAll([o]).value, Given([o]);
    var after := ApplyOverrides(before, [raw], coerce).value;
    Labels(before, [raw], coerce, given, tree, after);
    ExpectedInside(given, p, q);
    assert View(Table(tree), q) == Expected(given, q);
    MergeView(before.data, tree, q);
  }
}
