/** lib/laravelToExpress.js: a Laravel-style pattern rewritten into Express matcher syntax. */
module LaravelToExpress {
  import opened Values
  import opened Syntax
  import TrimRegex

  /** The inline group `(…)` for a constrained name, nothing for an unconstrained one. */
  function Group(name: string, patterns: Patterns): string {
    if name in patterns then "(" + TrimRegex.Trimmed(patterns[name].text) + ")" else ""
  }

  /**
   * What one character adds to the output, given the state before it: '{'
   * becomes ':', '}' becomes the constraint group and then '?' when the optional
   * flag is set, '?' adds nothing, and every other character is copied, name
   * characters included.
   */
  function Emit(cur: Cursor, c: char, patterns: Patterns): string {
    if c == '{' then ":"
    else if c == '}' then Group(cur.name, patterns) + (if cur.optional then "?" else "")
    else if c == '?' then ""
    else [c]
  }

  /** The output of scanning `s` from state `cur`. */
  function Compile(cur: Cursor, s: string, patterns: Patterns): string
    decreases |s|
  {
    if s == [] then "" else Emit(cur, s[0], patterns) + Compile(Advance(cur, s[0]), s[1..], patterns)
  }

  /** `laravelToExpress(uri, patterns)`: one pass over the pattern with the three state variables. */
  method LaravelToExpress(uri: string, patterns: Patterns) returns (newUri: string)
    ensures newUri == Compile(Start, uri, patterns)
  {
    var parsingParam, currentParam, optional := false, "", false;
    newUri := "";
    for i := 0 to |uri|
      invariant Compile(Start, uri, patterns) == newUri + Compile(Cursor(parsingParam, currentParam, optional), uri[i..], patterns)
    {
      var character := uri[i];
      ghost var before, cur := newUri, Cursor(parsingParam, currentParam, optional);
      if character == '{' {
        parsingParam := true;
        optional := false;
        newUri := newUri + ":";
        Advanced(before, cur, uri, i, newUri, Cursor(parsingParam, currentParam, optional), patterns);
      } else if character == '}' {
        if currentParam in patterns {
          var regex := TrimRegex.TrimRegex(patterns[currentParam].text);
          newUri := newUri + "(" + regex + ")";
        }
        ghost var grouped := newUri;
        if optional {
          newUri := newUri + "?";
        }
        parsingParam := false;
        currentParam := "";
        Closed(before, cur, uri, i, grouped, newUri, patterns);
      } else if character == '?' {
        optional := true;
        Advanced(before, cur, uri, i, newUri, Cursor(parsingParam, currentParam, optional), patterns);
      } else {
        if parsingParam {
          currentParam := currentParam + [character];
        }
        newUri := newUri + [character];
        Advanced(before, cur, uri, i, newUri, Cursor(parsingParam, currentParam, optional), patterns);
      }
    }
    assert uri[|uri|..] == [];
  }

  /** One iteration of the loop: the output grows by `Emit` and the state moves by `Advance`. */
  lemma Advanced(before: string, cur: Cursor, s: string, i: nat, after: string, next: Cursor, patterns: Patterns)
    requires i < |s|
    requires after == before + Emit(cur, s[i], patterns) && next == Advance(cur, s[i])
    ensures before + Compile(cur, s[i..], patterns) == after + Compile(next, s[i + 1..], patterns)
  {
    assert s[i..][1..] == s[i + 1..];
  }

  /** The iteration at a '}', whose output is the group followed by the optional '?'. */
  lemma Closed(before: string, cur: Cursor, s: string, i: nat, grouped: string, after: string, patterns: Patterns)
    requires i < |s| && s[i] == '}'
    requires grouped == if cur.name in patterns then before + "(" + TrimRegex.Trimmed(patterns[cur.name].text) + ")" else before
    requires after == grouped + (if cur.optional then "?" else "")
    ensures before + Compile(cur, s[i..], patterns) == after + Compile(Cursor(false, "", cur.optional), s[i + 1..], patterns)
  {
    assert grouped == before + Group(cur.name, patterns);
    Advanced(before, cur, s, i, after, Cursor(false, "", cur.optional), patterns);
  }

  /** Scanning two pieces one after the other gives the two outputs one after the other. */
  lemma {:induction false} CompileAppend(cur: Cursor, a: string, b: string, patterns: Patterns)
    ensures Compile(cur, a + b, patterns) == Compile(cur, a, patterns) + Compile(Run(cur, a), b, patterns)
    decreases |a|
  {
    if a == [] {
      assert a + b == b;
    } else {
      assert (a + b)[1..] == a[1..] + b;
      CompileAppend(Advance(cur, a[0]), a[1..], b, patterns);
    }
  }

  /**
   * A pattern without '{', '}' or '?' comes back unchanged, from any state; in
   * particular the empty pattern gives the empty string.
   */
  lemma {:induction false} CompileVerbatim(cur: Cursor, s: string, patterns: Patterns)
    requires NoStructural(s)
    ensures Compile(cur, s, patterns) == s
    decreases |s|
  {
    if s != [] {
      CompileVerbatim(Advance(cur, s[0]), s[1..], patterns);
    }
  }

  /**
   * The output grows one character at a time: what the last character adds
   * depends only on the state the scan has reached before it. With an empty
   * constraint map this makes the output the input with each '{' turned into
   * ':', each '?' dropped, and each '}' turned into '?' or nothing according to
   * the optional flag, which `Syntax.OptionalAfter` characterises.
   */
  lemma CompileSnoc(cur: Cursor, s: string, c: char, patterns: Patterns)
    ensures Compile(cur, s + [c], patterns) == Compile(cur, s, patterns) + Emit(Run(cur, s), c, patterns)
    ensures patterns == map[] ==>
              Emit(Run(cur, s), c, patterns) ==
                if c == '{' then ":"
                else if c == '}' then (if Run(cur, s).optional then "?" else "")
                else if c == '?' then ""
                else [c]
  {
    CompileAppend(cur, s, [c], patterns);
  }

  /** A '?' is never copied: it only sets the flag that the next '}' reads. */
  lemma QuestionMarkNotCopied(cur: Cursor, a: string, b: string, patterns: Patterns)
    ensures Compile(cur, a + "?" + b, patterns) ==
            Compile(cur, a, patterns) + Compile(Run(cur, a).(optional := true), b, patterns)
  {
    CompileAppend(cur, a + "?", b, patterns);
    CompileAppend(cur, a, "?", patterns);
    RunAppend(cur, a, "?");
  }

  /**
   * A '{' clears the optional flag: what follows a '{' does not depend on
   * whether a parameter was open or optional before it.
   */
  lemma OpenResetsOptional(cur1: Cursor, cur2: Cursor, b: string, patterns: Patterns)
    requires cur1.name == cur2.name
    ensures Compile(cur1, "{" + b, patterns) == Compile(cur2, "{" + b, patterns)
  {
    assert ("{" + b)[1..] == b;
  }

  // ---------------------------------------------------------------------------
  // Agreement with the segment description of a pattern.

  /** The Express form of one segment: `:name`, its constraint group, then '?' if optional. */
  function ExpressSegment(seg: Segment, patterns: Patterns): string {
    match seg
    case Literal(t) => t
    case Param(n, o) => ":" + n + Group(n, patterns) + (if o then "?" else "")
  }

  function Express(segs: seq<Segment>, patterns: Patterns): string {
    if segs == [] then "" else ExpressSegment(segs[0], patterns) + Express(segs[1..], patterns)
  }

  lemma CompileSegment(cur: Cursor, seg: Segment, patterns: Patterns)
    requires Idle(cur) && WellFormedSegment(seg)
    ensures Compile(cur, RenderSegment(seg), patterns) == ExpressSegment(seg, patterns)
  {
    match seg
    case Literal(t) =>
      CompileVerbatim(cur, t, patterns);
    case Param(n, o) =>
      var q := if o then "?" else "";
      var open := "{" + n + q;
      assert RenderSegment(seg) == open + "}";
      CompileAppend(cur, open, "}", patterns);
      CompilePlaceholderOpen(cur, n, o, patterns);
      PlaceholderInside(cur, n, o);
      CompileOne(Cursor(true, n, o), '}', patterns);
      assert ":" + n + (Group(n, patterns) + q) == ExpressSegment(seg, patterns);
  }

  /** The output for the `{name` and optional `?` of a placeholder: ':' and the name. */
  lemma CompilePlaceholderOpen(cur: Cursor, n: string, o: bool, patterns: Patterns)
    requires Idle(cur) && NoStructural(n)
    ensures Compile(cur, "{" + n + (if o then "?" else ""), patterns) == ":" + n
  {
    var q := if o then "?" else "";
    var inParam := Cursor(true, "", false);
    CompileAppend(cur, "{" + n, q, patterns);
    CompileAppend(cur, "{", n, patterns);
    CompileOne(cur, '{', patterns);
    CompileVerbatim(inParam, n, patterns);
    RunName(inParam, n);
    if o {
      CompileOne(Cursor(true, n, false), '?', patterns);
    }
    assert ":" + n + "" == ":" + n;
  }

  /** A single character: its output and the state after it. */
  lemma CompileOne(cur: Cursor, c: char, patterns: Patterns)
    ensures Compile(cur, [c], patterns) == Emit(cur, c, patterns)
    ensures Run(cur, [c]) == Advance(cur, c)
  {
    assert [c][1..] == [];
  }

  /**
   * On a well-formed pattern the scan is the intended rewrite: literals are
   * kept, and each placeholder becomes `:name`, then `(` + the trimmed
   * constraint + `)` when the name is constrained, then '?' when it is optional.
   */
  lemma {:induction false} CompileRendered(cur: Cursor, segs: seq<Segment>, patterns: Patterns)
    requires Idle(cur) && WellFormed(segs)
    ensures Compile(cur, Render(segs), patterns) == Express(segs, patterns)
    decreases |segs|
  {
    if segs != [] {
      CompileAppend(cur, RenderSegment(segs[0]), Render(segs[1..]), patterns);
      CompileSegment(cur, segs[0], patterns);
      RunSegment(cur, segs[0]);
      CompileRendered(Run(cur, RenderSegment(segs[0])), segs[1..], patterns);
    }
  }

  /** One segment at the head of a pattern, scanned from between parameters. */
  lemma CompileThen(cur: Cursor, seg: Segment, rest: string, patterns: Patterns)
    requires Idle(cur) && WellFormedSegment(seg)
    ensures Idle(Run(cur, RenderSegment(seg)))
    ensures Compile(cur, RenderSegment(seg) + rest, patterns) ==
            ExpressSegment(seg, patterns) + Compile(Run(cur, RenderSegment(seg)), rest, patterns)
  {
    CompileAppend(cur, RenderSegment(seg), rest, patterns);
    CompileSegment(cur, seg, patterns);
    RunSegment(cur, seg);
  }

  /** No placeholder of the pattern has a constraint. */
  predicate Unconstrained(segs: seq<Segment>, patterns: Patterns) {
    forall i | 0 <= i < |segs| && segs[i].Param? :: segs[i].name !in patterns
  }

  /** The Express token of a required parameter without a constraint. */
  function Token(name: string): string {
    ":" + name
  }

  /**
   * With required, unconstrained placeholders only, the Express path is the
   * pattern's literal text with each placeholder replaced by `:name`.
   */
  lemma {:induction false} ExpressSkeleton(segs: seq<Segment>, patterns: Patterns)
    requires RequiredOnly(segs) && Unconstrained(segs, patterns)
    ensures Express(segs, patterns) == Skeleton(segs, Token)
    decreases |segs|
  {
    if segs != [] {
      assert RequiredOnly(segs[1..]) && Unconstrained(segs[1..], patterns) by {
        forall i | 0 <= i < |segs[1..]| ensures segs[1..][i] == segs[i + 1] { }
      }
      ExpressSkeleton(segs[1..], patterns);
      if segs[0].Param? {
        assert !segs[0].optional && segs[0].name !in patterns;
      }
    }
  }

  /** A prefix and one placeholder (test/laravelToExpress.js:11,14). */
  lemma ConvertsOneParam(a: string, n: string, o: bool)
    requires NoStructural(a) && NoStructural(n)
    ensures Compile(Start, a + Placeholder(n, o), map[]) == a + ":" + n + (if o then "?" else "")
  {
    var sa, sn := Literal(a), Param(n, o);
    CompileThen(Start, sa, RenderSegment(sn), map[]);
    CompileSegment(Run(Start, a), sn, map[]);
    assert ExpressSegment(sn, map[]) == ":" + n + (if o then "?" else "");
  }

  /** A literal, a placeholder, a literal and a placeholder (test/laravelToExpress.js:13). */
  lemma ConvertsTwoParams(a: string, b: string, c: string, d: string)
    requires NoStructural(a) && NoStructural(b) && NoStructural(c) && NoStructural(d)
    ensures Compile(Start, a + "{" + b + "}" + c + "{" + d + "}", map[]) == a + ":" + b + c + ":" + d
  {
    var sa, sb, sc, sd := Literal(a), Param(b, false), Literal(c), Param(d, false);
    RegroupTwoParams(a, b, c, d);
    CompileThen(Start, sa, RenderSegment(sb) + (RenderSegment(sc) + RenderSegment(sd)), map[]);
    var c1 := Run(Start, RenderSegment(sa));
    CompileThen(c1, sb, RenderSegment(sc) + RenderSegment(sd), map[]);
    var c2 := Run(c1, RenderSegment(sb));
    CompileThen(c2, sc, RenderSegment(sd), map[]);
    CompileSegment(Run(c2, RenderSegment(sc)), sd, map[]);
    assert ExpressSegment(sb, map[]) == ":" + b;
    assert ExpressSegment(sd, map[]) == ":" + d;
  }

  lemma RegroupTwoParams(a: string, b: string, c: string, d: string)
    ensures a + (":" + b + (c + (":" + d))) == a + ":" + b + c + ":" + d
    ensures a + "{" + b + "}" + c + "{" + d + "}" == a + (Placeholder(b, false) + (c + Placeholder(d, false)))
  {
  }

  /** Three constrained placeholders separated by '/' (test/laravelToExpress.js:40-46). */
  lemma ConvertsThreeParams(x: string, y: string, z: string, patterns: Patterns)
    requires NoStructural(x) && NoStructural(y) && NoStructural(z)
    ensures Compile(Start, "/{" + x + "}/{" + y + "}/{" + z + "}", patterns) ==
            "/:" + x + Group(x, patterns) + "/:" + y + Group(y, patterns) + "/:" + z + Group(z, patterns)
  {
    var sl, sx, sy, sz := Literal("/"), Param(x, false), Param(y, false), Param(z, false);
    RegroupThreeParams(x, y, z, Group(x, patterns), Group(y, patterns), Group(z, patterns));
    var rest := RenderSegment(sy) + (RenderSegment(sl) + RenderSegment(sz));
    CompileThen(Start, sl, RenderSegment(sx) + (RenderSegment(sl) + rest), patterns);
    var c1 := Run(Start, "/");
    CompileThen(c1, sx, RenderSegment(sl) + rest, patterns);
    var c2 := Run(c1, RenderSegment(sx));
    CompileThen(c2, sl, rest, patterns);
    var c3 := Run(c2, "/");
    CompileThen(c3, sy, RenderSegment(sl) + RenderSegment(sz), patterns);
    var c4 := Run(c3, RenderSegment(sy));
    CompileThen(c4, sl, RenderSegment(sz), patterns);
    CompileSegment(Run(c4, "/"), sz, patterns);
    assert ExpressSegment(sx, patterns) == ":" + x + Group(x, patterns);
    assert ExpressSegment(sy, patterns) == ":" + y + Group(y, patterns);
    assert ExpressSegment(sz, patterns) == ":" + z + Group(z, patterns);
  }

  lemma RegroupThreeParams(x: string, y: string, z: string, gx: string, gy: string, gz: string)
    ensures "/{" + x + "}/{" + y + "}/{" + z + "}" ==
            "/" + (Placeholder(x, false) + ("/" + (Placeholder(y, false) + ("/" + Placeholder(z, false)))))
    ensures "/" + ((":" + x + gx) + ("/" + ((":" + y + gy) + ("/" + (":" + z + gz))))) ==
            "/:" + x + gx + "/:" + y + gy + "/:" + z + gz
  {
  }

  /** test/laravelToExpress.js:9,17: a pattern without placeholders is kept. */
  lemma ConvertsPlainPath()
    ensures Compile(Start, "/foo", map[]) == "/foo"
  {
    CompileVerbatim(Start, "/foo", map[]);
  }

  /** test/laravelToExpress.js:11,19 and 14,22. */
  lemma ConvertsExamplesWithOneParam()
    ensures Compile(Start, "/foo/{bar}", map[]) == "/foo/:bar"
    ensures Compile(Start, "/foo/{bar?}", map[]) == "/foo/:bar?"
  {
    OneParamTexts();
    ConvertsOneParam("/foo/", "bar", false);
    ConvertsOneParam("/foo/", "bar", true);
  }

  lemma OneParamTexts()
    ensures "/foo/{bar}" == "/foo/" + Placeholder("bar", false)
    ensures "/foo/{bar?}" == "/foo/" + Placeholder("bar", true)
    ensures "/foo/:bar" == "/foo/" + ":" + "bar" + ""
    ensures "/foo/:bar?" == "/foo/" + ":" + "bar" + "?"
  {
  }

  /** test/laravelToExpress.js:13,21. */
  lemma ConvertsExampleWithTwoParams()
    ensures Compile(Start, "/foo/{bar}/baz/{qux}", map[]) == "/foo/:bar/baz/:qux"
  {
    TwoParamsTexts();
    ConvertsTwoParams("/foo/", "bar", "/baz/", "qux");
  }

  lemma TwoParamsTexts()
    ensures "/foo/{bar}/baz/{qux}" == "/foo/" + "{" + "bar" + "}" + "/baz/" + "{" + "qux" + "}"
    ensures "/foo/:bar/baz/:qux" == "/foo/" + ":" + "bar" + "/baz/" + ":" + "qux"
  {
  }

  /** A name constrained by `/^f$/` gets the group `(f)`. */
  lemma GroupOfAnchored(name: string, fragment: string, patterns: Patterns)
    requires name in patterns && patterns[name].text == TrimRegex.AnchoredLiteral(fragment)
    ensures Group(name, patterns) == "(" + fragment + ")"
  {
    TrimRegex.TrimAnchoredLiteral(fragment);
  }

  lemma ConstraintTexts()
    ensures NoStructural("foo") && NoStructural("bar") && NoStructural("baz")
    ensures "/^[a-zA-Z]*$/" == TrimRegex.AnchoredLiteral("[a-zA-Z]*")
    ensures "/^\\d+$/" == TrimRegex.AnchoredLiteral("\\d+")
    ensures "/^\\w+$/" == TrimRegex.AnchoredLiteral("\\w+")
  {
  }

  /** Three placeholders separated by '/', each constrained by an anchored expression. */
  lemma ConvertsThreeAnchored(x: string, y: string, z: string, fx: string, fy: string, fz: string, patterns: Patterns)
    requires NoStructural(x) && NoStructural(y) && NoStructural(z)
    requires x in patterns && patterns[x].text == TrimRegex.AnchoredLiteral(fx)
    requires y in patterns && patterns[y].text == TrimRegex.AnchoredLiteral(fy)
    requires z in patterns && patterns[z].text == TrimRegex.AnchoredLiteral(fz)
    ensures Compile(Start, "/{" + x + "}/{" + y + "}/{" + z + "}", patterns) ==
            "/:" + x + "(" + fx + ")" + "/:" + y + "(" + fy + ")" + "/:" + z + "(" + fz + ")"
  {
    GroupOfAnchored(x, fx, patterns);
    GroupOfAnchored(y, fy, patterns);
    GroupOfAnchored(z, fz, patterns);
    ConvertsThreeParams(x, y, z, patterns);
    RegroupGroups(x, y, z, fx, fy, fz);
  }

  lemma RegroupGroups(x: string, y: string, z: string, fx: string, fy: string, fz: string)
    ensures "/:" + x + ("(" + fx + ")") + "/:" + y + ("(" + fy + ")") + "/:" + z + ("(" + fz + ")") ==
            "/:" + x + "(" + fx + ")" + "/:" + y + "(" + fy + ")" + "/:" + z + "(" + fz + ")"
  {
  }

  /** The constrained conversion of test/laravelToExpress.js:40-46, whatever the constraints' tests do. */
  lemma ConvertsExampleWithConstraints(patterns: Patterns)
    requires "foo" in patterns && patterns["foo"].text == "/^[a-zA-Z]*$/"
    requires "bar" in patterns && patterns["bar"].text == "/^\\d+$/"
    requires "baz" in patterns && patterns["baz"].text == "/^\\w+$/"
    ensures Compile(Start, "/{foo}/{bar}/{baz}", patterns) == "/:foo([a-zA-Z]*)/:bar(\\d+)/:baz(\\w+)"
  {
    ConstraintTexts();
    ConstrainedPatternText();
    ConstrainedMatcherText();
    ConvertsThreeAnchored("foo", "bar", "baz", "[a-zA-Z]*", "\\d+", "\\w+", patterns);
  }

  lemma ConstrainedPatternText()
    ensures "/{foo}/{bar}/{baz}" == "/{" + "foo" + "}/{" + "bar" + "}/{" + "baz" + "}"
  {
  }

  lemma ConstrainedMatcherText()
    ensures "/:foo([a-zA-Z]*)/:bar(\\d+)/:baz(\\w+)" ==
            "/:" + "foo" + "(" + "[a-zA-Z]*" + ")" + "/:" + "bar" + "(" + "\\d+" + ")" + "/:" + "baz" + "(" + "\\w+" + ")"
  {
    ConstrainedMatcherPieces();
    GroupedPieces("/:foo([a-zA-Z]*)", "/:bar(\\d+)", "/:baz(\\w+)", "foo", "bar", "baz", "[a-zA-Z]*", "\\d+", "\\w+");
  }

  lemma ConstrainedMatcherPieces()
    ensures "/:foo([a-zA-Z]*)/:bar(\\d+)/:baz(\\w+)" == "/:foo([a-zA-Z]*)" + "/:bar(\\d+)" + "/:baz(\\w+)"
    ensures "/:foo([a-zA-Z]*)" == "/:" + "foo" + "(" + "[a-zA-Z]*" + ")"
    ensures "/:bar(\\d+)" == "/:" + "bar" + "(" + "\\d+" + ")"
    ensures "/:baz(\\w+)" == "/:" + "baz" + "(" + "\\w+" + ")"
  {
    MatcherThirds();
    MatcherFoo();
    MatcherBar();
    MatcherBaz();
  }

  lemma MatcherThirds()
    ensures "/:foo([a-zA-Z]*)/:bar(\\d+)/:baz(\\w+)" == "/:foo([a-zA-Z]*)" + "/:bar(\\d+)" + "/:baz(\\w+)"
  {
  }

  lemma MatcherFoo()
    ensures "/:foo([a-zA-Z]*)" == "/:" + "foo" + "(" + "[a-zA-Z]*" + ")"
  {
  }

  lemma MatcherBar()
    ensures "/:bar(\\d+)" == "/:" + "bar" + "(" + "\\d+" + ")"
  {
  }

  lemma MatcherBaz()
    ensures "/:baz(\\w+)" == "/:" + "baz" + "(" + "\\w+" + ")"
  {
  }

  lemma GroupedPieces(a: string, b: string, c: string, x: string, y: string, z: string, fx: string, fy: string, fz: string)
    requires a == "/:" + x + "(" + fx + ")" && b == "/:" + y + "(" + fy + ")" && c == "/:" + z + "(" + fz + ")"
    ensures a + b + c == "/:" + x + "(" + fx + ")" + "/:" + y + "(" + fy + ")" + "/:" + z + "(" + fz + ")"
  {
  }

  /**
   * A '?' inside braces is dropped from the name and makes the parameter
   * optional wherever it stands: `{x?y}` is the optional parameter `xy`.
   */
  lemma QuestionInsideName(x: string, y: string, patterns: Patterns)
    requires NoStructural(x) && NoStructural(y)
    ensures Compile(Start, "{" + x + "?" + y + "}", patterns) == ":" + x + y + Group(x + y, patterns) + "?"
  {
    var withQuestion := Cursor(true, x, true);
    assert "{" + x + "?" + y + "}" == ("{" + x + "?") + (y + "}");
    CompileAppend(Start, "{" + x + "?", y + "}", patterns);
    CompilePlaceholderOpen(Start, x, true, patterns);
    PlaceholderInside(Start, x, true);
    CompileAppend(withQuestion, y, "}", patterns);
    CompileVerbatim(withQuestion, y, patterns);
    RunName(withQuestion, y);
    CompileOne(Cursor(true, x + y, true), '}', patterns);
  }

  /** A '?' outside braces is dropped from the output; the flag it sets is cleared by the next '{'. */
  lemma QuestionOutsideParam(a: string, b: string, patterns: Patterns)
    requires NoStructural(a) && NoStructural(b)
    ensures Compile(Start, a + "?" + b, patterns) == a + b
  {
    QuestionMarkNotCopied(Start, a, b, patterns);
    CompileVerbatim(Start, a, patterns);
    RunLiteral(Start, a);
    CompileVerbatim(Start.(optional := true), b, patterns);
  }

  /** `/a?b` becomes `/ab`, and `{a?b}` is the optional parameter `ab`. */
  lemma StrayQuestionMarks()
    ensures Compile(Start, "/a?b", map[]) == "/ab"
    ensures Compile(Start, "{a?b}", map[]) == ":ab?"
  {
    StrayQuestionMarkTexts();
    QuestionOutsideParam("/a", "b", map[]);
    QuestionInsideName("a", "b", map[]);
  }

  lemma StrayQuestionMarkTexts()
    ensures "/a?b" == "/a" + "?" + "b" && "/ab" == "/a" + "b"
    ensures "{a?b}" == "{" + "a" + "?" + "b" + "}" && ":ab?" == ":" + "a" + "b" + "" + "?"
  {
  }
}
