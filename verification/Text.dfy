/** Strings as the program uses them: code-point order, splitting, joining and file-name patterns. */
module Text {
  /** Python's `<` on strings: the first differing code point decides, a proper prefix comes first. */
  predicate Less(a: string, b: string) {
    if b == "" then false
    else if a == "" then true
    else a[0] < b[0] || (a[0] == b[0] && Less(a[1..], b[1..]))
  }

  lemma {:induction false} LessIsTotal(a: string, b: string)
    ensures Less(a, b) || a == b || Less(b, a)
    ensures !(Less(a, b) && Less(b, a)) && !Less(a, a)
  {
    if a != "" && b != "" {
      LessIsTotal(a[1..], b[1..]);
      if a[0] == b[0] && a[1..] == b[1..] {
        assert a == [a[0]] + a[1..] == b;
      }
    }
    if a != "" {
      LessIsTotal(a[1..], a[1..]);
    }
  }

  lemma {:induction false} LessIsTransitive(a: string, b: string, c: string)
    requires Less(a, b) && Less(b, c)
    ensures Less(a, c)
  {
    if a != "" && a[0] == b[0] == c[0] {
      LessIsTransitive(a[1..], b[1..], c[1..]);
    }
  }

  /** `a` and `b` agree before `k`, and there `a` ends or has the smaller code point. */
  ghost predicate DecidedAt(a: string, b: string, k: nat) {
    && k <= |a| && k < |b| && a[..k] == b[..k]
    && (k == |a| || a[k] < b[k])
  }

  /** What `<` on strings means. */
  lemma {:induction false} LessMeans(a: string, b: string)
    ensures Less(a, b) <==> exists k: nat :: DecidedAt(a, b, k)
  {
    if b != "" && a == "" {
      assert DecidedAt(a, b, 0);
    } else if b != "" {
      if a[0] == b[0] {
        LessMeans(a[1..], b[1..]);
        if k: nat :| DecidedAt(a[1..], b[1..], k) {
          assert a[..k + 1] == [a[0]] + a[1..][..k] == b[..k + 1];
          assert DecidedAt(a, b, k + 1);
        }
        if k: nat :| DecidedAt(a, b, k) {
          assert k > 0;
          assert a[1..][..k - 1] == a[..k][1..] == b[..k][1..] == b[1..][..k - 1];
          assert DecidedAt(a[1..], b[1..], k - 1);
        }
      } else {
        if a[0] < b[0] { assert DecidedAt(a, b, 0); }
        if k: nat :| DecidedAt(a, b, k) {
          if k > 0 { assert a[..k][0] == b[..k][0]; }
        }
      }
    }
  }

  /** Equally long beginnings are compared first, whatever follows them. */
  lemma {:induction false} LessByBlocks(p: string, q: string, s: string, t: string)
    requires |p| == |q|
    ensures Less(p + s, q + t) <==> Less(p, q) || (p == q && Less(s, t))
  {
    if p == "" {
      assert p + s == s && q + t == t;
    } else {
      LessByBlocks(p[1..], q[1..], s, t);
      assert (p + s)[1..] == p[1..] + s && (q + t)[1..] == q[1..] + t;
      assert p == [p[0]] + p[1..] && q == [q[0]] + q[1..];
    }
  }

  // ---------------------------------------------------------------- splitting and joining

  /** `s.split(sep)`. */
  function Split(s: string, sep: char): (parts: seq<string>)
    ensures |parts| >= 1
  {
    if s == "" then [""]
    else
      var rest := Split(s[1..], sep);
      if s[0] == sep then [""] + rest else [[s[0]] + rest[0]] + rest[1..]
  }

  /** `sep.join(parts)`. */
  function Join(parts: seq<string>, sep: char): string {
    if |parts| == 0 then ""
    else if |parts| == 1 then parts[0]
    else parts[0] + [sep] + Join(parts[1..], sep)
  }

  ghost predicate Free(parts: seq<string>, sep: char) {
    forall k :: 0 <= k < |parts| ==> sep !in parts[k]
  }

  lemma JoinAfterSep(rest: seq<string>, sep: char)
    requires |rest| >= 1
    ensures Join([""] + rest, sep) == [sep] + Join(rest, sep)
  {
    assert ([""] + rest)[1..] == rest;
  }

  lemma JoinWithLonger(c: char, rest: seq<string>, sep: char)
    requires |rest| >= 1
    ensures Join([[c] + rest[0]] + rest[1..], sep) == [c] + Join(rest, sep)
  {
    var parts := [[c] + rest[0]] + rest[1..];
    assert parts[1..] == rest[1..];
    if |rest| > 1 {
      assert [c] + rest[0] + [sep] + Join(rest[1..], sep) == [c] + (rest[0] + [sep] + Join(rest[1..], sep));
    }
  }

  lemma {:induction false} JoinOfSplit(s: string, sep: char)
    ensures Join(Split(s, sep), sep) == s
    ensures Free(Split(s, sep), sep)
    ensures |Split(s, sep)| >= 2 <==> sep in s
  {
    if s != "" {
      JoinOfSplit(s[1..], sep);
      var rest := Split(s[1..], sep);
      assert s == [s[0]] + s[1..];
      if s[0] == sep {
        JoinAfterSep(rest, sep);
      } else {
        var parts := [[s[0]] + rest[0]] + rest[1..];
        JoinWithLonger(s[0], rest, sep);
        forall k | 0 <= k < |parts| ensures sep !in parts[k] {
          if k > 0 { assert parts[k] == rest[k]; }
        }
      }
    }
  }

  lemma {:induction false} SplitOfWord(w: string, sep: char)
    requires sep !in w
    ensures Split(w, sep) == [w]
  {
    if w != "" {
      SplitOfWord(w[1..], sep);
      assert w == [w[0]] + w[1..] && [""][1..] == [];
    }
  }

  lemma {:induction false} SplitAfterWord(w: string, s: string, sep: char)
    requires sep !in w
    ensures Split(w + [sep] + s, sep) == [w] + Split(s, sep)
  {
    var whole := w + [sep] + s;
    if w == "" {
      assert whole[1..] == s;
    } else {
      SplitAfterWord(w[1..], s, sep);
      assert whole[1..] == w[1..] + [sep] + s;
      assert w == [w[0]] + w[1..];
      assert ([w[1..]] + Split(s, sep))[1..] == Split(s, sep);
    }
  }

  /** Splitting undoes joining, so joining separator-free components is injective. */
  lemma {:induction false} SplitOfJoin(parts: seq<string>, sep: char)
    requires |parts| >= 1 && Free(parts, sep)
    ensures Split(Join(parts, sep), sep) == parts
  {
    if |parts| == 1 {
      SplitOfWord(parts[0], sep);
    } else {
      SplitOfJoin(parts[1..], sep);
      SplitAfterWord(parts[0], Join(parts[1..], sep), sep);
      assert parts == [parts[0]] + parts[1..];
    }
  }

  lemma JoinIsInjective(p: seq<string>, q: seq<string>, sep: char)
    requires |p| >= 1 && |q| >= 1 && Free(p, sep) && Free(q, sep)
    requires Join(p, sep) == Join(q, sep)
    ensures p == q
  {
    SplitOfJoin(p, sep);
    SplitOfJoin(q, sep);
  }

  lemma {:induction false} JoinOfConcat(p: seq<string>, q: seq<string>, sep: char)
    requires |p| >= 1 && |q| >= 1
    ensures Join(p + q, sep) == Join(p, sep) + [sep] + Join(q, sep)
  {
    if |p| == 1 {
      assert (p + q)[1..] == q;
    } else {
      JoinOfConcat(p[1..], q, sep);
      assert (p + q)[1..] == p[1..] + q;
    }
  }

  /** The string test "starts with `key` and a separator" is the path test "is a proper prefix". */
  lemma PrefixTestIsPathTest(p: seq<string>, q: seq<string>, sep: char)
    requires |p| >= 1 && |q| >= 1 && Free(p, sep) && Free(q, sep)
    ensures Join(p, sep) + [sep] <= Join(q, sep) <==> p < q
  {
    if p < q {
      JoinOfConcat(p, q[|p|..], sep);
      assert q == p + q[|p|..];
    }
    if Join(p, sep) + [sep] <= Join(q, sep) {
      var rest := Join(q, sep)[|Join(p, sep)| + 1..];
      assert Join(q, sep) == Join(p, sep) + [sep] + rest;
      JoinOfSplit(rest, sep);
      JoinOfConcat(p, Split(rest, sep), sep);
      JoinIsInjective(q, p + Split(rest, sep), sep);
    }
  }

  /** Where `needle` first occurs; |s| when it does not. */
  function Find(s: string, needle: char): (k: nat)
    ensures k <= |s| && needle !in s[..k]
    ensures k < |s| ==> s[k] == needle
    ensures k < |s| <==> needle in s
  {
    if s == "" || s[0] == needle then 0
    else
      var k := Find(s[1..], needle);
      assert s[..k + 1] == [s[0]] + s[1..][..k];
      assert s == [s[0]] + s[1..];
      k + 1
  }

  predicate OccursAt(s: string, needle: string, k: int) {
    0 <= k <= |s| - |needle| && s[k..k + |needle|] == needle
  }

  /** Python's `needle in s`, and `grep`'s test of a line. */
  ghost predicate Contains(s: string, needle: string) {
    exists k :: OccursAt(s, needle, k)
  }

  // ---------------------------------------------------------------- file-name patterns

  /** `Path.glob` on one directory for the patterns the program uses, whose only wildcard is `*`. */
  predicate Glob(pattern: string, name: string)
    decreases |pattern| + |name|
  {
    if pattern == "" then name == ""
    else if pattern[0] == '*' then
      Glob(pattern[1..], name) || (name != "" && Glob(pattern, name[1..]))
    else name != "" && name[0] == pattern[0] && Glob(pattern[1..], name[1..])
  }

  lemma {:induction false} GlobLiteral(lit: string, rest: string, name: string)
    requires '*' !in lit
    ensures Glob(lit + rest, name) <==> lit <= name && Glob(rest, name[|lit|..])
  {
    if lit == "" {
      assert lit + rest == rest && name[0..] == name;
    } else {
      assert (lit + rest)[1..] == lit[1..] + rest;
      if name != "" {
        GlobLiteral(lit[1..], rest, name[1..]);
        assert lit == [lit[0]] + lit[1..] && name == [name[0]] + name[1..];
        if lit <= name {
          assert name[1..][|lit[1..]|..] == name[|lit|..];
        }
        assert lit <= name <==> lit[0] == name[0] && lit[1..] <= name[1..];
      }
    }
  }

  lemma {:induction false} GlobStar(rest: string, name: string)
    ensures Glob("*" + rest, name) <==> exists k :: 0 <= k <= |name| && Glob(rest, name[k..])
    decreases |name|
  {
    var pattern := "*" + rest;
    assert pattern[1..] == rest && name[0..] == name;
    if name != "" {
      GlobStar(rest, name[1..]);
      if Glob(pattern, name[1..]) {
        var k :| 0 <= k <= |name[1..]| && Glob(rest, name[1..][k..]);
        assert name[1..][k..] == name[k + 1..];
      }
      if k :| 0 < k <= |name| && Glob(rest, name[k..]) {
        assert name[1..][k - 1..] == name[k..];
      }
    }
  }

  lemma GlobWord(word: string, name: string)
    requires '*' !in word
    ensures Glob(word, name) <==> name == word
  {
    assert word + "" == word;
    GlobLiteral(word, "", name);
    if word <= name && name[|word|..] == "" {
      assert name == word + name[|word|..];
    }
  }

  lemma GlobTail(tail: string, name: string)
    requires '*' !in tail
    ensures Glob("*" + tail, name) <==> |tail| <= |name| && name[|name| - |tail|..] == tail
  {
    GlobStar(tail, name);
    forall k | 0 <= k <= |name| ensures Glob(tail, name[k..]) <==> name[k..] == tail {
      GlobWord(tail, name[k..]);
    }
  }

  /** `head*tail` is "starts with head, ends with tail, and the two do not overlap". */
  predicate Between(head: string, tail: string, name: string) {
    |head| + |tail| <= |name| && head <= name && name[|name| - |tail|..] == tail
  }

  lemma EndOfRest(head: string, tail: string, name: string)
    requires head <= name
    ensures Between(head, tail, name) <==>
            |tail| <= |name| - |head| && name[|head|..][|name| - |head| - |tail|..] == tail
  {
    if |tail| <= |name| - |head| {
      assert name[|head|..][|name| - |head| - |tail|..] == name[|name| - |tail|..];
    }
  }

  lemma GlobAround(head: string, tail: string, name: string)
    requires '*' !in head && '*' !in tail
    ensures Glob(head + ("*" + tail), name) <==> Between(head, tail, name)
  {
    GlobLiteral(head, "*" + tail, name);
    if head <= name {
      GlobTail(tail, name[|head|..]);
      EndOfRest(head, tail, name);
    }
  }
}
