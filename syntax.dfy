/**
 * The lexical state shared by the three scanners of lib/laravelToExpress.js,
 * lib/paramsFromUri.js and lib/uriWithParams.js (and the copy in
 * lib/createRouter.js): whether a parameter is being parsed, the name gathered
 * so far, and the optional flag. Each file has its own loop; all of them update
 * these three variables in the same way, which is `Advance` below.
 *
 * The second half gives an independent description of a well-formed pattern as
 * a list of segments, against which each scanner is proved.
 */
module Syntax {

  /** '{', '}' and '?' act on the scanner state wherever they appear. */
  predicate IsStructural(c: char) {
    c == '{' || c == '}' || c == '?'
  }

  predicate NoStructural(s: string) {
    forall i | 0 <= i < |s| :: !IsStructural(s[i])
  }

  /** `parsingParam`, `currentParam` and `optional`. */
  datatype Cursor = Cursor(parsing: bool, name: string, optional: bool)

  const Start := Cursor(false, "", false)

  /**
   * One character: '{' starts a parameter and clears the optional flag (but not
   * the name), '}' ends it and clears the name (but not the flag), '?' sets the
   * flag, and any other character extends the name while a parameter is open.
   */
  function Advance(cur: Cursor, c: char): Cursor {
    if c == '{' then cur.(parsing := true, optional := false)
    else if c == '}' then cur.(parsing := false, name := "")
    else if c == '?' then cur.(optional := true)
    else if cur.parsing then cur.(name := cur.name + [c])
    else cur
  }

  /** The state after scanning `s` from `cur`. */
  function Run(cur: Cursor, s: string): Cursor
    decreases |s|
  {
    if s == [] then cur else Run(Advance(cur, s[0]), s[1..])
  }

  lemma {:induction false} RunAppend(cur: Cursor, a: string, b: string)
    ensures Run(cur, a + b) == Run(Run(cur, a), b)
    decreases |a|
  {
    if a == [] {
      assert a + b == b;
    } else {
      assert (a + b)[1..] == a[1..] + b;
      RunAppend(Advance(cur, a[0]), a[1..], b);
    }
  }

  /** A '?' occurs in `s` with no '{' after it. */
  ghost predicate QuestionSinceOpen(s: string) {
    exists j | 0 <= j < |s| :: s[j] == '?' && '{' !in s[j + 1..]
  }

  lemma QuestionSinceOpenCons(s: string)
    requires s != []
    ensures QuestionSinceOpen(s) <==> QuestionSinceOpen(s[1..]) || (s[0] == '?' && '{' !in s[1..])
  {
    var t := s[1..];
    if QuestionSinceOpen(t) {
      var j :| 0 <= j < |t| && t[j] == '?' && '{' !in t[j + 1..];
      assert s[j + 1] == '?' && s[j + 2..] == t[j + 1..];
    }
    if QuestionSinceOpen(s) {
      var j :| 0 <= j < |s| && s[j] == '?' && '{' !in s[j + 1..];
      if j > 0 {
        assert t[j - 1] == '?' && t[j..] == s[j + 1..];
      }
    }
  }

  /**
   * The optional flag after scanning `s` is set exactly when a '?' occurs in
   * `s` after the last '{' of `s`, or, when `s` has no '{', when it was set
   * before: a '{' clears it and nothing else does.
   */
  lemma {:induction false} OptionalAfter(cur: Cursor, s: string)
    ensures Run(cur, s).optional <==> QuestionSinceOpen(s) || ('{' !in s && cur.optional)
    decreases |s|
  {
    if s != [] {
      OptionalAfter(Advance(cur, s[0]), s[1..]);
      QuestionSinceOpenCons(s);
      assert '{' in s <==> s[0] == '{' || '{' in s[1..];
    }
  }

  /** A gathered name never holds '{', '}' or '?'. */
  lemma {:induction false} NameStaysPlain(cur: Cursor, s: string)
    requires NoStructural(cur.name)
    ensures NoStructural(Run(cur, s).name)
    decreases |s|
  {
    if s != [] {
      NameStaysPlain(Advance(cur, s[0]), s[1..]);
    }
  }

  /** Between parameters: no parameter open, no name gathered. */
  predicate Idle(cur: Cursor) {
    !cur.parsing && cur.name == ""
  }

  /** Text without structural characters outside a parameter leaves the state alone. */
  lemma {:induction false} RunLiteral(cur: Cursor, t: string)
    requires NoStructural(t) && !cur.parsing
    ensures Run(cur, t) == cur
  {
    if t != [] {
      RunLiteral(cur, t[1..]);
    }
  }

  /** Text without structural characters inside a parameter is appended to the name. */
  lemma {:induction false} RunName(cur: Cursor, n: string)
    requires NoStructural(n) && cur.parsing
    ensures Run(cur, n) == cur.(name := cur.name + n)
    decreases |n|
  {
    if n != [] {
      assert cur.name + n == (cur.name + [n[0]]) + n[1..];
      RunName(Advance(cur, n[0]), n[1..]);
    }
  }

  // ---------------------------------------------------------------------------
  // Well-formed patterns as segments.

  /** A piece of a pattern: literal text, or a placeholder `{name}` / `{name?}`. */
  datatype Segment = Literal(text: string) | Param(name: string, optional: bool)

  predicate WellFormedSegment(seg: Segment) {
    match seg
    case Literal(t) => NoStructural(t)
    case Param(n, _) => NoStructural(n)
  }

  predicate WellFormed(segs: seq<Segment>) {
    forall i | 0 <= i < |segs| :: WellFormedSegment(segs[i])
  }

  function Placeholder(name: string, optional: bool): string {
    "{" + name + (if optional then "?" else "") + "}"
  }

  function RenderSegment(seg: Segment): string {
    match seg
    case Literal(t) => t
    case Param(n, o) => Placeholder(n, o)
  }

  /** The pattern text of a list of segments. */
  function Render(segs: seq<Segment>): string {
    if segs == [] then "" else RenderSegment(segs[0]) + Render(segs[1..])
  }

  /** The names of the placeholders, in order, split by optionality. */
  function ParamNames(segs: seq<Segment>, optional: bool): seq<string> {
    if segs == [] then []
    else if segs[0].Param? && segs[0].optional == optional then [segs[0].name] + ParamNames(segs[1..], optional)
    else ParamNames(segs[1..], optional)
  }

  /** Every placeholder is required: no `{name?}`. */
  predicate RequiredOnly(segs: seq<Segment>) {
    forall i | 0 <= i < |segs| && segs[i].Param? :: !segs[i].optional
  }

  /** The literal text of a pattern with each placeholder replaced by `f` of its name. */
  function Skeleton(segs: seq<Segment>, f: string -> string): string {
    if segs == [] then ""
    else (match segs[0] case Literal(t) => t case Param(n, _) => f(n)) + Skeleton(segs[1..], f)
  }

  /** The cursor right after the '{', the name and the optional '?' of a placeholder. */
  lemma PlaceholderInside(cur: Cursor, n: string, o: bool)
    requires Idle(cur) && NoStructural(n)
    ensures Run(cur, "{" + n + (if o then "?" else "")) == Cursor(true, n, o)
  {
    var q := if o then "?" else "";
    RunAppend(cur, "{" + n, q);
    RunAppend(cur, "{", n);
    RunName(Cursor(true, "", false), n);
  }

  /** After a whole well-formed segment the scanner is between parameters again. */
  lemma RunSegment(cur: Cursor, seg: Segment)
    requires Idle(cur) && WellFormedSegment(seg)
    ensures Idle(Run(cur, RenderSegment(seg)))
  {
    match seg
    case Literal(t) =>
      RunLiteral(cur, t);
    case Param(n, o) =>
      var inner := "{" + n + (if o then "?" else "");
      assert RenderSegment(seg) == inner + "}";
      RunAppend(cur, inner, "}");
      PlaceholderInside(cur, n, o);
  }
}
