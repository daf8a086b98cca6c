/** `matchPattern(value, pattern)` (src/util/matchPattern.ts): case-insensitive wildcard matching
    where only `*` is special. Every include/exclude, full/demo, filter and mask decision of the
    system goes through it. */
module Patterns {
  import opened Text

  /** One element of the regular expression the source builds: after escaping, every character
      other than `*` is a literal, and each `*` becomes `.*`. */
  datatype Token = Lit(c: char) | AnyRun

  /** The regular expression built from a (lower-cased) pattern, without its `^`/`$` anchors. */
  function Compile(p: string): seq<Token>
  {
    seq(|p|, i requires 0 <= i < |p| => if p[i] == '*' then AnyRun else Lit(p[i]))
  }

  /** `new RegExp('^' + … + '$').test(v)`: an anchored match of the whole of `v`. Values are taken
      to contain no line terminators, so `.` matches every character of them. */
  function RegexTest(toks: seq<Token>, v: string): bool
    decreases |toks| + |v|
  {
    if toks == [] then v == []
    else match toks[0]
      case AnyRun => RegexTest(toks[1..], v) || (v != [] && RegexTest(toks, v[1..]))
      case Lit(c) => v != [] && v[0] == c && RegexTest(toks[1..], v[1..])
  }

  function MatchPattern(value: string, pattern: string): (r: bool)
    ensures value == "" || pattern == "" || pattern == "*" ==> r
  {
    if value == "" || pattern == "" then true
    else if pattern == "*" then true
    else
      var valueLower := Lower(value);
      var patternLower := Lower(pattern);
      if '*' !in patternLower then valueLower == patternLower
      else RegexTest(Compile(patternLower), valueLower)
  }

  // ---------------------------------------------------------------------------------------------
  // An independent definition of the wildcard language: a value matches a pattern when some choice
  // of one string per `*` turns the pattern into the value.

  function Stars(p: string): nat
  {
    if p == [] then 0 else (if p[0] == '*' then 1 else 0) + Stars(p[1..])
  }

  /** The pattern with its `*`s replaced, left to right, by the strings of `fill`. */
  function Subst(p: string, fill: seq<string>): string
    requires |fill| == Stars(p)
  {
    if p == [] then []
    else if p[0] == '*' then fill[0] + Subst(p[1..], fill[1..])
    else [p[0]] + Subst(p[1..], fill)
  }

  ghost predicate Glob(v: string, p: string)
  {
    exists fill: seq<string> :: |fill| == Stars(p) && Subst(p, fill) == v
  }

  lemma CompileTail(p: string)
    requires p != []
    ensures Compile(p)[1..] == Compile(p[1..])
    ensures Compile(p)[0] == if p[0] == '*' then AnyRun else Lit(p[0])
  {
  }

  /** A `*` may stand for nothing. */
  lemma GlobStarEmpty(p: string, v: string)
    requires |p| > 0 && p[0] == '*' && Glob(v, p[1..])
    ensures Glob(v, p)
  {
    var fill :| |fill| == Stars(p[1..]) && Subst(p[1..], fill) == v;
    assert ([""] + fill)[1..] == fill;
    assert Subst(p, [""] + fill) == v;
  }

  /** A `*` may take one more leading character. */
  lemma GlobStarExtend(p: string, v: string)
    requires |p| > 0 && p[0] == '*' && |v| > 0 && Glob(v[1..], p)
    ensures Glob(v, p)
  {
    var fill :| |fill| == Stars(p) && Subst(p, fill) == v[1..];
    var fill' := fill[0 := [v[0]] + fill[0]];
    assert fill'[1..] == fill[1..];
    assert Subst(p, fill') == [v[0]] + fill[0] + Subst(p[1..], fill[1..]);
    assert Subst(p, fill') == v;
  }

  /** A literal matches the same leading character. */
  lemma GlobLiteral(p: string, v: string)
    requires |p| > 0 && p[0] != '*' && |v| > 0 && v[0] == p[0] && Glob(v[1..], p[1..])
    ensures Glob(v, p)
  {
    var fill :| |fill| == Stars(p[1..]) && Subst(p[1..], fill) == v[1..];
    assert Subst(p, fill) == v;
  }

  lemma {:induction false} RegexTestSound(p: string, v: string)
    requires RegexTest(Compile(p), v)
    ensures Glob(v, p)
    decreases |p| + |v|
  {
    if |p| == 0 {
      assert Subst(p, []) == v;
    } else {
      CompileTail(p);
      if p[0] == '*' {
        if RegexTest(Compile(p[1..]), v) {
          RegexTestSound(p[1..], v);
          GlobStarEmpty(p, v);
        } else {
          RegexTestSound(p, v[1..]);
          GlobStarExtend(p, v);
        }
      } else {
        RegexTestSound(p[1..], v[1..]);
        GlobLiteral(p, v);
      }
    }
  }

  lemma {:induction false} RegexTestComplete(p: string, v: string, fill: seq<string>)
    requires |fill| == Stars(p) && Subst(p, fill) == v
    ensures RegexTest(Compile(p), v)
    decreases |p| + |v|
  {
    if p != [] {
      CompileTail(p);
      if p[0] == '*' {
        if fill[0] == "" {
          assert v == Subst(p[1..], fill[1..]);
          RegexTestComplete(p[1..], v, fill[1..]);
        } else {
          var fill' := fill[0 := fill[0][1..]];
          assert fill'[1..] == fill[1..];
          assert Subst(p, fill') == v[1..];
          RegexTestComplete(p, v[1..], fill');
        }
      } else {
        RegexTestComplete(p[1..], v[1..], fill);
      }
    }
  }

  /** The regular expression the source builds accepts exactly the wildcard language. */
  lemma RegexTestIsGlob(p: string, v: string)
    ensures RegexTest(Compile(p), v) <==> Glob(v, p)
  {
    if RegexTest(Compile(p), v) {
      RegexTestSound(p, v);
    }
    if Glob(v, p) {
      var fill :| |fill| == Stars(p) && Subst(p, fill) == v;
      RegexTestComplete(p, v, fill);
    }
  }

  lemma {:induction false} StarsZero(p: string)
    ensures Stars(p) == 0 <==> '*' !in p
    ensures Stars(p) == 0 ==> Subst(p, []) == p
  {
    if p != [] {
      StarsZero(p[1..]);
      assert p == [p[0]] + p[1..];
    }
  }

  /** A star-free text followed by one `*`: the star's string is appended. */
  lemma {:induction false} SubstThenStar(q: string, w: string)
    requires '*' !in q
    ensures Stars(q + "*") == 1 && Subst(q + "*", [w]) == q + w
  {
    if q == [] {
      assert q + "*" == "*";
      assert Subst("*", [w]) == w + Subst("", []);
    } else {
      assert (q + "*")[1..] == q[1..] + "*";
      SubstThenStar(q[1..], w);
      assert q + w == [q[0]] + (q[1..] + w);
    }
  }

  /** A leading `*` takes the first string of the fill. */
  lemma SubstLeadingStar(r: string, w: string, f: seq<string>)
    requires |f| == Stars(r)
    ensures Stars("*" + r) == 1 + Stars(r)
    ensures Subst("*" + r, [w] + f) == w + Subst(r, f)
  {
    assert ("*" + r)[0] == '*';
    assert ("*" + r)[1..] == r;
    assert ([w] + f)[1..] == f;
  }

  lemma GlobPrefix(v: string, q: string)
    requires '*' !in q
    ensures Glob(v, q + "*") <==> StartsWith(v, q)
  {
    SubstThenStar(q, "");
    if StartsWith(v, q) {
      SubstThenStar(q, v[|q|..]);
      assert v == q + v[|q|..];
    }
    if Glob(v, q + "*") {
      var fill :| |fill| == Stars(q + "*") && Subst(q + "*", fill) == v;
      SubstThenStar(q, fill[0]);
      assert fill == [fill[0]];
    }
  }

  lemma GlobSuffix(v: string, q: string)
    requires '*' !in q
    ensures Glob(v, "*" + q) <==> EndsWith(v, q)
  {
    StarsZero(q);
    SubstLeadingStar(q, "", []);
    if EndsWith(v, q) {
      var w := v[..|v| - |q|];
      SubstLeadingStar(q, w, []);
      assert [w] + [] == [w];
      assert v == w + q;
    }
    if Glob(v, "*" + q) {
      var fill :| |fill| == Stars("*" + q) && Subst("*" + q, fill) == v;
      SubstLeadingStar(q, fill[0], []);
      assert fill == [fill[0]] + [];
    }
  }

  lemma GlobInfixFrom(v: string, q: string, i: int)
    requires '*' !in q && OccursAt(v, q, i)
    ensures Glob(v, "*" + (q + "*"))
  {
    var w1, w2 := v[..i], v[i + |q|..];
    SubstThenStar(q, w2);
    SubstLeadingStar(q + "*", w1, [w2]);
    assert v == w1 + (q + w2);
  }

  lemma GlobInfixTo(v: string, q: string) returns (i: int)
    requires '*' !in q && Glob(v, "*" + (q + "*"))
    ensures OccursAt(v, q, i)
  {
    SubstThenStar(q, "");
    SubstLeadingStar(q + "*", "", [""]);
    var fill :| |fill| == Stars("*" + (q + "*")) && Subst("*" + (q + "*"), fill) == v;
    assert fill == [fill[0]] + [fill[1]];
    SubstThenStar(q, fill[1]);
    SubstLeadingStar(q + "*", fill[0], [fill[1]]);
    assert v == fill[0] + (q + fill[1]);
    i := |fill[0]|;
    assert v[i..i + |q|] == q;
  }

  lemma GlobInfix(v: string, q: string)
    requires '*' !in q
    ensures Glob(v, "*" + q + "*") <==> exists i :: OccursAt(v, q, i)
  {
    assert "*" + q + "*" == "*" + (q + "*");
    if exists i :: OccursAt(v, q, i) {
      var i :| OccursAt(v, q, i);
      GlobInfixFrom(v, q, i);
    }
    if Glob(v, "*" + (q + "*")) {
      var i := GlobInfixTo(v, q);
    }
  }

  /** A lower-cased pattern has a `*` exactly where the pattern had one, and is `"*"` only if the
      pattern was. */
  lemma LowerStars(p: string)
    ensures '*' in Lower(p) <==> '*' in p
    ensures Lower(p) == "*" <==> p == "*"
  {
    LowerKeepsOthers(p, '*');
    if Lower(p) == "*" {
      assert LowerChar(p[0]) == '*';
    }
  }

  /** The complete meaning of `matchPattern`: an empty value or pattern matches; otherwise the
      lower-cased value must be in the wildcard language of the lower-cased pattern. */
  lemma MatchPatternIsGlob(value: string, pattern: string)
    ensures MatchPattern(value, pattern) <==>
      (value == "" || pattern == "" || Glob(Lower(value), Lower(pattern)))
  {
    if value != "" && pattern != "" {
      var v, p := Lower(value), Lower(pattern);
      LowerStars(pattern);
      if pattern == "*" {
        assert Subst(p, [v]) == v;
      } else if '*' !in p {
        StarsZero(p);
        if Glob(v, p) {
          var fill :| |fill| == Stars(p) && Subst(p, fill) == v;
          assert fill == [];
        }
      } else {
        RegexTestIsGlob(p, v);
      }
    }
  }

  /** A pattern without `*` is a case-insensitive equality test. */
  lemma MatchWithoutStar(value: string, pattern: string)
    requires value != "" && pattern != "" && '*' !in pattern
    ensures MatchPattern(value, pattern) <==> Lower(value) == Lower(pattern)
  {
    LowerStars(pattern);
  }

  /** Changing the letter case of either argument never changes the answer. */
  lemma MatchIgnoresCase(v1: string, v2: string, p1: string, p2: string)
    requires Lower(v1) == Lower(v2) && Lower(p1) == Lower(p2)
    ensures MatchPattern(v1, p1) == MatchPattern(v2, p2)
  {
    MatchPatternIsGlob(v1, p1);
    MatchPatternIsGlob(v2, p2);
    assert |v1| == |v2| && |p1| == |p2|;
  }

  function StarFill(n: nat): (r: seq<string>)
    ensures |r| == n && forall k :: 0 <= k < n ==> r[k] == "*"
  {
    if n == 0 then [] else ["*"] + StarFill(n - 1)
  }

  lemma {:induction false} SubstStarsBySelf(p: string)
    ensures Subst(p, StarFill(Stars(p))) == p
  {
    if p != [] {
      SubstStarsBySelf(p[1..]);
      if p[0] == '*' {
        assert StarFill(Stars(p))[1..] == StarFill(Stars(p[1..]));
      }
      assert p == [p[0]] + p[1..];
    }
  }

  /** Every value matches itself: a `*` inside it can stand for itself. */
  lemma MatchReflexive(v: string)
    ensures MatchPattern(v, v)
  {
    SubstStarsBySelf(Lower(v));
    MatchPatternIsGlob(v, v);
  }

  /** `a*` is a case-insensitive prefix test. */
  lemma MatchPrefix(value: string, a: string)
    requires value != "" && '*' !in a
    ensures MatchPattern(value, a + "*") <==> StartsWith(Lower(value), Lower(a))
  {
    LowerStars(a);
    assert Lower(a + "*") == Lower(a) + "*";
    MatchPatternIsGlob(value, a + "*");
    GlobPrefix(Lower(value), Lower(a));
  }

  /** `*a` is a case-insensitive suffix test. */
  lemma MatchSuffix(value: string, a: string)
    requires value != "" && '*' !in a
    ensures MatchPattern(value, "*" + a) <==> EndsWith(Lower(value), Lower(a))
  {
    LowerStars(a);
    assert Lower("*" + a) == "*" + Lower(a);
    MatchPatternIsGlob(value, "*" + a);
    GlobSuffix(Lower(value), Lower(a));
  }

  /** `*a*` is a case-insensitive substring test. */
  lemma MatchInfix(value: string, a: string)
    requires value != "" && '*' !in a
    ensures MatchPattern(value, "*" + a + "*") <==> exists i :: OccursAt(Lower(value), Lower(a), i)
  {
    LowerStars(a);
    assert Lower("*" + a + "*") == "*" + Lower(a) + "*";
    MatchPatternIsGlob(value, "*" + a + "*");
    GlobInfix(Lower(value), Lower(a));
  }

  /** The examples in the function's documentation. */
  lemma DocExamples()
    ensures MatchPattern("MyTable", "MyTable")
    ensures MatchPattern("MyTable", "my*")
    ensures MatchPattern("MyTable", "*table")
    ensures MatchPattern("MyTable", "*Tab*")
    ensures !MatchPattern("MyTable", "Other*")
  {
    MatchReflexive("MyTable");
    ExamplePrefix();
    ExampleSuffix();
    ExampleInfix();
    ExampleMismatch();
  }

  lemma ExamplePrefix()
    ensures MatchPattern("MyTable", "my*")
  {
    MatchPrefix("MyTable", "my");
    assert "my" + "*" == "my*";
    assert Lower("MyTable") == "mytable";
    assert Lower("my") == "my";
  }

  lemma ExampleSuffix()
    ensures MatchPattern("MyTable", "*table")
  {
    MatchSuffix("MyTable", "table");
    assert "*" + "table" == "*table";
    assert Lower("MyTable") == "mytable";
    assert Lower("table") == "table";
  }

  lemma ExampleInfix()
    ensures MatchPattern("MyTable", "*Tab*")
  {
    MatchInfix("MyTable", "Tab");
    assert "*" + "Tab" + "*" == "*Tab*";
    var v := Lower("MyTable");
    assert v == "mytable";
    assert Lower("Tab") == "tab";
    assert OccursAt(v, "tab", 2);
  }

  lemma ExampleMismatch()
    ensures !MatchPattern("MyTable", "Other*")
  {
    MatchPrefix("MyTable", "Other");
    assert "Other" + "*" == "Other*";
    assert Lower("MyTable") == "mytable";
    assert Lower("Other") == "other";
  }
}
