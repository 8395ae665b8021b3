/** lib/paramsFromUri.js: the placeholder names of a pattern, split into optional and required. */
module ParamsFromUri {
  import opened Syntax

  /** The `{optional, required}` object the function returns. */
  datatype Inventory = Inventory(optional: seq<string>, required: seq<string>)

  /**
   * The names pushed onto the list chosen by `optional` while scanning `s`
   * from `cur`: at every '}', the name gathered so far goes to the optional
   * list when the flag is set and to the required list otherwise.
   */
  function Closings(cur: Cursor, s: string, optional: bool): seq<string>
    decreases |s|
  {
    if s == [] then []
    else
      var pushed := if s[0] == '}' && cur.optional == optional then [cur.name] else [];
      pushed + Closings(Advance(cur, s[0]), s[1..], optional)
  }

  /** Both lists for a whole pattern. */
  function Collect(uri: string): Inventory {
    Inventory(Closings(Start, uri, true), Closings(Start, uri, false))
  }

  /** `paramsFromUri(uri)`: one pass with the three state variables and the two lists. */
  method ParamsFromUri(uri: string) returns (params: Inventory)
    ensures params == Collect(uri)
  {
    var optionalNames, requiredNames := [], [];
    var parsingParam, currentParam, optional := false, "", false;
    for i := 0 to |uri|
      invariant Closings(Start, uri, true) == optionalNames + Closings(Cursor(parsingParam, currentParam, optional), uri[i..], true)
      invariant Closings(Start, uri, false) == requiredNames + Closings(Cursor(parsingParam, currentParam, optional), uri[i..], false)
    {
      var character := uri[i];
      ghost var cur := Cursor(parsingParam, currentParam, optional);
      ghost var optionalBefore, requiredBefore := optionalNames, requiredNames;
      if character == '{' {
        parsingParam := true;
        optional := false;
      } else if character == '}' {
        if optional {
          optionalNames := optionalNames + [currentParam];
        } else {
          requiredNames := requiredNames + [currentParam];
        }
        parsingParam := false;
        currentParam := "";
      } else if character == '?' {
        optional := true;
      } else {
        if parsingParam {
          currentParam := currentParam + [character];
        }
      }
      Pushed(optionalBefore, cur, uri, i, optionalNames, Cursor(parsingParam, currentParam, optional), true);
      Pushed(requiredBefore, cur, uri, i, requiredNames, Cursor(parsingParam, currentParam, optional), false);
    }
    assert uri[|uri|..] == [];
    params := Inventory(optionalNames, requiredNames);
  }

  /** One iteration: a list grows by the name pushed at this character, if any. */
  lemma Pushed(before: seq<string>, cur: Cursor, s: string, i: nat, after: seq<string>, next: Cursor, optional: bool)
    requires i < |s| && next == Advance(cur, s[i])
    requires after == before + (if s[i] == '}' && cur.optional == optional then [cur.name] else [])
    ensures before + Closings(cur, s[i..], optional) == after + Closings(next, s[i + 1..], optional)
  {
    assert s[i..][1..] == s[i + 1..];
  }

  lemma {:induction false} ClosingsAppend(cur: Cursor, a: string, b: string, optional: bool)
    ensures Closings(cur, a + b, optional) == Closings(cur, a, optional) + Closings(Run(cur, a), b, optional)
    decreases |a|
  {
    if a == [] {
      assert a + b == b;
    } else {
      assert (a + b)[1..] == a[1..] + b;
      ClosingsAppend(Advance(cur, a[0]), a[1..], b, optional);
    }
  }

  /** Each '}' pushes exactly one name onto exactly one of the two lists. */
  lemma {:induction false} OneNamePerClose(cur: Cursor, s: string)
    ensures |Closings(cur, s, true)| + |Closings(cur, s, false)| == multiset(s)['}']
    decreases |s|
  {
    if s != [] {
      assert s == [s[0]] + s[1..];
      assert multiset(s) == multiset{s[0]} + multiset(s[1..]);
      OneNamePerClose(Advance(cur, s[0]), s[1..]);
    }
  }

  /**
   * The list a name goes to is decided by the scan so far: after the text `a`,
   * a '}' pushes the current name onto the optional list exactly when a '?'
   * occurs in `a` after its last '{' (or `a` has no '{' and the flag was
   * already set), and onto the required list otherwise.
   */
  lemma NameAtClose(cur: Cursor, a: string, optional: bool)
    ensures Closings(cur, a + "}", optional) ==
            Closings(cur, a, optional) +
            (if optional == (QuestionSinceOpen(a) || ('{' !in a && cur.optional)) then [Run(cur, a).name] else [])
  {
    ClosingsAppend(cur, a, "}", optional);
    OptionalAfter(cur, a);
    assert "}"[1..] == [];
  }

  /** The gathered names never hold '{', '}' or '?'. */
  lemma {:induction false} NamesArePlain(cur: Cursor, s: string, optional: bool)
    requires NoStructural(cur.name)
    ensures forall k | 0 <= k < |Closings(cur, s, optional)| :: NoStructural(Closings(cur, s, optional)[k])
    decreases |s|
  {
    if s != [] {
      NamesArePlain(Advance(cur, s[0]), s[1..], optional);
    }
  }

  /** A pattern without '}' yields no names at all. */
  lemma {:induction false} NoCloseNoNames(cur: Cursor, s: string, optional: bool)
    requires '}' !in s
    ensures Closings(cur, s, optional) == []
    decreases |s|
  {
    if s != [] {
      assert '}' !in s[1..];
      NoCloseNoNames(Advance(cur, s[0]), s[1..], optional);
    }
  }

  /** Text without '{', '}' or '?' placed between parameters changes neither list. */
  lemma LiteralTextIrrelevant(a: string, t: string, b: string, optional: bool)
    requires !Run(Start, a).parsing && NoStructural(t)
    ensures Closings(Start, a + t + b, optional) == Closings(Start, a + b, optional)
  {
    ClosingsAppend(Start, a + t, b, optional);
    ClosingsAppend(Start, a, t, optional);
    ClosingsAppend(Start, a, b, optional);
    RunAppend(Start, a, t);
    RunLiteral(Run(Start, a), t);
    NoCloseNoNames(Run(Start, a), t, optional);
  }

  // ---------------------------------------------------------------------------
  // Agreement with the segment description of a pattern.

  /** A segment at the head of a pattern, scanned from between parameters. */
  lemma ClosingsThen(cur: Cursor, seg: Segment, rest: string, optional: bool)
    requires Idle(cur) && WellFormedSegment(seg)
    ensures Idle(Run(cur, RenderSegment(seg)))
    ensures Closings(cur, RenderSegment(seg) + rest, optional) ==
            (if seg.Param? && seg.optional == optional then [seg.name] else []) +
            Closings(Run(cur, RenderSegment(seg)), rest, optional)
  {
    ClosingsAppend(cur, RenderSegment(seg), rest, optional);
    RunSegment(cur, seg);
    match seg
    case Literal(t) =>
      NoCloseNoNames(cur, t, optional);
    case Param(n, o) =>
      ClosingsPlaceholder(cur, n, o, optional);
  }

  /** A placeholder on its own closes its name once. */
  lemma ClosingsPlaceholder(cur: Cursor, n: string, o: bool, optional: bool)
    requires Idle(cur) && NoStructural(n)
    ensures Closings(cur, Placeholder(n, o), optional) == if o == optional then [n] else []
  {
    var open := "{" + n + (if o then "?" else "");
    assert Placeholder(n, o) == open + "}";
    PlaceholderInside(cur, n, o);
    NoCloseNoNames(cur, open, optional);
    ClosingsAppend(cur, open, "}", optional);
    assert "}"[1..] == [];
  }

  /**
   * On a well-formed pattern the two lists are the names of the optional and
   * of the required placeholders, each in left-to-right order.
   */
  lemma {:induction false} CollectRendered(cur: Cursor, segs: seq<Segment>, optional: bool)
    requires Idle(cur) && WellFormed(segs)
    ensures Closings(cur, Render(segs), optional) == ParamNames(segs, optional)
    decreases |segs|
  {
    if segs != [] {
      ClosingsThen(cur, segs[0], Render(segs[1..]), optional);
      CollectRendered(Run(cur, RenderSegment(segs[0])), segs[1..], optional);
    }
  }

  /** A literal, two required placeholders separated by literals, then an optional one. */
  lemma CollectsTwoRequiredOneOptional(a: string, x: string, b: string, y: string, c: string, z: string)
    requires NoStructural(a) && NoStructural(x) && NoStructural(b) && NoStructural(y) && NoStructural(c) && NoStructural(z)
    ensures Collect((a + Placeholder(x, false)) + (b + Placeholder(y, false)) + (c + Placeholder(z, true))) == Inventory([z], [x, y])
  {
    var sa, sx, sb, sy, sc, sz := Literal(a), Param(x, false), Literal(b), Param(y, false), Literal(c), Param(z, true);
    RegroupSixSegments(a, x, b, y, c, z);
    var uri := RenderSegment(sa) + (RenderSegment(sx) + (RenderSegment(sb) + (RenderSegment(sy) + (RenderSegment(sc) + RenderSegment(sz)))));
    forall optional: bool
      ensures Closings(Start, uri, optional) == if optional then [z] else [x, y]
    {
      var r4 := RenderSegment(sy) + (RenderSegment(sc) + RenderSegment(sz));
      ClosingsThen(Start, sa, RenderSegment(sx) + (RenderSegment(sb) + r4), optional);
      var c1 := Run(Start, RenderSegment(sa));
      ClosingsThen(c1, sx, RenderSegment(sb) + r4, optional);
      var c2 := Run(c1, RenderSegment(sx));
      ClosingsThen(c2, sb, r4, optional);
      var c3 := Run(c2, RenderSegment(sb));
      ClosingsThen(c3, sy, RenderSegment(sc) + RenderSegment(sz), optional);
      var c4 := Run(c3, RenderSegment(sy));
      ClosingsThen(c4, sc, RenderSegment(sz), optional);
      var c5 := Run(c4, RenderSegment(sc));
      ClosingsThen(c5, sz, [], optional);
      assert RenderSegment(sz) + [] == RenderSegment(sz);
      NoCloseNoNames(Run(c5, RenderSegment(sz)), [], optional);
    }
  }

  lemma RegroupSixSegments(a: string, x: string, b: string, y: string, c: string, z: string)
    ensures (a + Placeholder(x, false)) + (b + Placeholder(y, false)) + (c + Placeholder(z, true)) ==
            a + (Placeholder(x, false) + (b + (Placeholder(y, false) + (c + Placeholder(z, true)))))
  {
  }

  /** test/paramsFromUri.js:9-17. */
  lemma CollectsUserFriendPattern()
    ensures Collect("/users/{userId}/friends/{friendId}/{username?}") == Inventory(["username"], ["userId", "friendId"])
  {
    UserFriendText();
    CollectsTwoRequiredOneOptional("/users/", "userId", "/friends/", "friendId", "/", "username");
  }

  lemma UserFriendText()
    ensures "/users/{userId}/friends/{friendId}/{username?}" ==
            ("/users/" + Placeholder("userId", false)) + ("/friends/" + Placeholder("friendId", false)) + ("/" + Placeholder("username", true))
  {
    UserFriendThirds();
    UsersPiece();
    FriendsPiece();
    UsernamePiece();
  }

  lemma UserFriendThirds()
    ensures "/users/{userId}/friends/{friendId}/{username?}" == "/users/{userId}" + "/friends/{friendId}" + "/{username?}"
  {
  }

  lemma UsersPiece()
    ensures "/users/{userId}" == "/users/" + Placeholder("userId", false)
  {
  }

  lemma FriendsPiece()
    ensures "/friends/{friendId}" == "/friends/" + Placeholder("friendId", false)
  {
  }

  lemma UsernamePiece()
    ensures "/{username?}" == "/" + Placeholder("username", true)
  {
  }

  /** A '?' inside braces is not part of the name: `{x?y}` yields the optional name `xy`. */
  lemma QuestionInsideName(x: string, y: string)
    requires NoStructural(x) && NoStructural(y)
    ensures Collect("{" + x + "?" + y + "}") == Inventory([x + y], [])
  {
    var withQuestion := Cursor(true, x, true);
    var open := "{" + x + "?";
    assert "{" + x + "?" + y + "}" == open + (y + "}");
    PlaceholderInside(Start, x, true);
    RunName(withQuestion, y);
    forall optional: bool
      ensures Closings(Start, "{" + x + "?" + y + "}", optional) == if optional then [x + y] else []
    {
      ClosingsAppend(Start, open, y + "}", optional);
      NoCloseNoNames(Start, open, optional);
      ClosingsAppend(withQuestion, y, "}", optional);
      NoCloseNoNames(withQuestion, y, optional);
      assert "}"[1..] == [];
    }
  }

  /** `{a?b}` yields the optional name `ab`. */
  lemma CollectsNameAroundQuestionMark()
    ensures Collect("{a?b}") == Inventory(["ab"], [])
  {
    QuestionText();
    QuestionInsideName("a", "b");
  }

  lemma QuestionText()
    ensures "{a?b}" == "{" + "a" + "?" + "b" + "}" && "ab" == "a" + "b"
  {
  }
}
