/**
 * lib/uriWithParams.js: a pattern expanded with a value map. Each placeholder
 * takes its value from a working copy of the map, which then forgets it; a
 * missing required value or a value its constraint rejects is an error; one
 * trailing '/' goes; what is left of the map becomes the query string.
 */
module UriWithParams {
  import opened Values
  import opened Syntax
  import Strings
  import ParamsFromUri

  /** The loop's variables besides the index: the lexical state, `newUri` and the working copy of `params`. */
  datatype Scan = Scan(cur: Cursor, out: string, work: Params)

  /**
   * The two checks at a '}', in source order: an absent value for a required
   * name, then a constraint whose test fails (the test also sees an absent
   * value). `None` when both pass.
   */
  function Check(name: string, optional: bool, value: Option<string>, patterns: Patterns): (e: Option<ExpandError>)
    ensures e == None <==> (value.Some? || optional) && (name in patterns ==> patterns[name].test(value))
    ensures e.Some? && value.None? && !optional ==> e == Some(Missing(name))
    ensures e.Some? && (value.Some? || optional) ==> e == Some(Rejected(value, name, patterns[name].text))
  {
    if value.None? && !optional then Some(Missing(name))
    else if name in patterns && !patterns[name].test(value) then Some(Rejected(value, name, patterns[name].text))
    else None
  }

  /** What a value adds to the path: its `encodeURI` form when defined, nothing when absent. */
  function Encoded(value: Option<string>, host: Host): string {
    if value.Some? then host.encodeURI(value.value) else ""
  }

  /**
   * One character. A '}' runs the checks on the gathered name, appends the
   * encoded value and consumes the name; a character outside a parameter is
   * copied; name characters, '{' and '?' only move the lexical state.
   */
  function Step(st: Scan, c: char, patterns: Patterns, host: Host): Result<Scan, ExpandError> {
    var next := Advance(st.cur, c);
    if c == '}' then
      var value := Get(st.work, st.cur.name);
      var e := Check(st.cur.name, st.cur.optional, value, patterns);
      if e.Some? then Failure(e.value)
      else Success(Scan(next, st.out + Encoded(value, host), Consume(st.work, st.cur.name)))
    else if c == '{' || c == '?' || st.cur.parsing then Success(st.(cur := next))
    else Success(st.(cur := next, out := st.out + [c]))
  }

  /** The scan of `s` from `st`, stopping at the first error. */
  function Expand(st: Scan, s: string, patterns: Patterns, host: Host): Result<Scan, ExpandError>
    decreases |s|
  {
    if s == [] then Success(st)
    else
      var next := Step(st, s[0], patterns, host);
      if next.Failure? then next else Expand(next.value, s[1..], patterns, host)
  }

  /** Drops one trailing '/', but never from a path of length one, so "/" stays "/". */
  function TrimTrailingSlash(path: string): (r: string)
    ensures |path| > 1 && path[|path| - 1] == '/' ==> r + "/" == path
    ensures !(|path| > 1 && path[|path| - 1] == '/') ==> r == path
  {
    if |path| > 1 && path[|path| - 1] == '/' then Strings.RemoveLastCharacter(path) else path
  }

  /** The result of the whole call; `settings` are the caller's query options besides the prefix flag. */
  function Expansion(uri: string, params: Params, patterns: Patterns, settings: map<string, string>, host: Host): Result<string, ExpandError> {
    var r := Expand(Scan(Start, "", params), uri, patterns, host);
    if r.Failure? then Failure(r.error)
    else
      var path := TrimTrailingSlash(r.value.out);
      var queryString := host.stringify(r.value.work, QueryFormat(true, settings));
      Success(if |queryString| > 0 then path + queryString else path)
  }

  /** The `options` object handed to `qs.stringify`, which the call updates in place. */
  class QueryOptions {
    var addQueryPrefix: bool
    var settings: map<string, string>

    constructor (addQueryPrefix: bool, settings: map<string, string>)
      ensures this.addQueryPrefix == addQueryPrefix && this.settings == settings
    {
      this.addQueryPrefix := addQueryPrefix;
      this.settings := settings;
    }
  }

  /**
   * `uriWithParams(uri, params, patterns, options)`. The caller's `params` is a
   * value and is never changed; `options.addQueryPrefix` becomes true once the
   * scan has succeeded, and stays as it was when an error is raised.
   */
  method UriWithParams(uri: string, params: Params, patterns: Patterns, options: QueryOptions, host: Host)
    returns (r: Result<string, ExpandError>)
    modifies options
    ensures r == Expansion(uri, params, patterns, old(options.settings), host)
    ensures options.settings == old(options.settings)
    ensures options.addQueryPrefix == if r.Success? then true else old(options.addQueryPrefix)
  {
    var work := params;
    var parsingParam, currentParam, newUri, optional := false, "", "", false;
    for i := 0 to |uri|
      invariant Expand(Scan(Start, "", params), uri, patterns, host) ==
                Expand(Scan(Cursor(parsingParam, currentParam, optional), newUri, work), uri[i..], patterns, host)
      invariant options.addQueryPrefix == old(options.addQueryPrefix) && options.settings == old(options.settings)
    {
      var character := uri[i];
      ghost var st := Scan(Cursor(parsingParam, currentParam, optional), newUri, work);
      if character == '{' {
        parsingParam := true;
        optional := false;
        Moved(st, uri, i, Scan(Cursor(parsingParam, currentParam, optional), newUri, work), patterns, host);
      } else if character == '}' {
        if Get(work, currentParam) == None && !optional {
          r := Failure(Missing(currentParam));
          Stopped(st, uri, i, patterns, host);
          return;
        }
        if currentParam in patterns && !patterns[currentParam].test(Get(work, currentParam)) {
          r := Failure(Rejected(Get(work, currentParam), currentParam, patterns[currentParam].text));
          Stopped(st, uri, i, patterns, host);
          return;
        }
        if Get(work, currentParam) != None {
          newUri := newUri + host.encodeURI(Get(work, currentParam).value);
        }
        work := Consume(work, currentParam);
        parsingParam := false;
        currentParam := "";
        Substituted(st, uri, i, newUri, patterns, host);
      } else if character == '?' {
        optional := true;
        Moved(st, uri, i, Scan(Cursor(parsingParam, currentParam, optional), newUri, work), patterns, host);
      } else {
        if parsingParam {
          currentParam := currentParam + [character];
        } else {
          newUri := newUri + [character];
        }
        Moved(st, uri, i, Scan(Cursor(parsingParam, currentParam, optional), newUri, work), patterns, host);
      }
    }
    assert uri[|uri|..] == [];
    if |newUri| > 1 && newUri[|newUri| - 1] == '/' {
      newUri := Strings.RemoveLastCharacter(newUri);
    }
    options.addQueryPrefix := true;
    var queryString := host.stringify(work, QueryFormat(options.addQueryPrefix, options.settings));
    if |queryString| > 0 {
      newUri := newUri + queryString;
    }
    r := Success(newUri);
  }

  /** An iteration that succeeds: the rest of the scan goes on from the new state. */
  lemma Moved(st: Scan, s: string, i: nat, next: Scan, patterns: Patterns, host: Host)
    requires i < |s| && Step(st, s[i], patterns, host) == Success(next)
    ensures Expand(st, s[i..], patterns, host) == Expand(next, s[i + 1..], patterns, host)
  {
    assert s[i..][1..] == s[i + 1..];
  }

  /** An iteration at a '}' whose checks pass: the encoded value, if any, is appended and the name consumed. */
  lemma Substituted(st: Scan, s: string, i: nat, out: string, patterns: Patterns, host: Host)
    requires i < |s| && s[i] == '}'
    requires !(Get(st.work, st.cur.name) == None && !st.cur.optional)
    requires !(st.cur.name in patterns && !patterns[st.cur.name].test(Get(st.work, st.cur.name)))
    requires out == if Get(st.work, st.cur.name) != None then st.out + host.encodeURI(Get(st.work, st.cur.name).value) else st.out
    ensures Expand(st, s[i..], patterns, host) ==
            Expand(Scan(Cursor(false, "", st.cur.optional), out, Consume(st.work, st.cur.name)), s[i + 1..], patterns, host)
  {
    assert st.out + "" == st.out;
    Moved(st, s, i, Scan(Cursor(false, "", st.cur.optional), out, Consume(st.work, st.cur.name)), patterns, host);
  }

  /** An iteration that raises: the whole scan ends with that error. */
  lemma Stopped(st: Scan, s: string, i: nat, patterns: Patterns, host: Host)
    requires i < |s| && Step(st, s[i], patterns, host).Failure?
    ensures Expand(st, s[i..], patterns, host) == Step(st, s[i], patterns, host)
  {
  }

  lemma {:induction false} ExpandAppend(st: Scan, a: string, b: string, patterns: Patterns, host: Host)
    ensures Expand(st, a + b, patterns, host) ==
            var r := Expand(st, a, patterns, host);
            if r.Failure? then r else Expand(r.value, b, patterns, host)
    decreases |a|
  {
    if a == [] {
      assert a + b == b;
    } else {
      assert (a + b)[1..] == a[1..] + b;
      var next := Step(st, a[0], patterns, host);
      if next.Success? {
        ExpandAppend(next.value, a[1..], b, patterns, host);
      }
    }
  }

  /** The lexical state of a successful scan is that of the shared scanner. */
  lemma {:induction false} ExpandTracksRun(st: Scan, s: string, patterns: Patterns, host: Host)
    requires Expand(st, s, patterns, host).Success?
    ensures Expand(st, s, patterns, host).value.cur == Run(st.cur, s)
    decreases |s|
  {
    if s != [] {
      ExpandTracksRun(Step(st, s[0], patterns, host).value, s[1..], patterns, host);
    }
  }

  /** Text without '{', '}' or '?' outside a parameter is copied to the path verbatim and in order. */
  lemma {:induction false} LiteralsCopied(cur: Cursor, out: string, work: Params, t: string, patterns: Patterns, host: Host)
    requires !cur.parsing && NoStructural(t)
    ensures Expand(Scan(cur, out, work), t, patterns, host) == Success(Scan(cur, out + t, work))
    decreases |t|
  {
    if t == [] {
      assert out + t == out;
    } else {
      assert out + t == (out + [t[0]]) + t[1..];
      LiteralsCopied(cur, out + [t[0]], work, t[1..], patterns, host);
    }
  }

  /** Inside a parameter, name characters are gathered and not copied. */
  lemma {:induction false} NameNotCopied(cur: Cursor, out: string, work: Params, n: string, patterns: Patterns, host: Host)
    requires cur.parsing && NoStructural(n)
    ensures Expand(Scan(cur, out, work), n, patterns, host) == Success(Scan(cur.(name := cur.name + n), out, work))
    decreases |n|
  {
    if n == [] {
      assert cur.name + n == cur.name;
    } else {
      assert cur.name + n == (cur.name + [n[0]]) + n[1..];
      NameNotCopied(cur.(name := cur.name + [n[0]]), out, work, n[1..], patterns, host);
    }
  }

  // ---------------------------------------------------------------------------
  // Consumption: the working copy forgets exactly the names the pattern closes.

  /** The names of all placeholders closed while scanning `s` from `cur`, optional or not. */
  function ClosedNames(cur: Cursor, s: string): seq<string> {
    ParamsFromUri.Closings(cur, s, true) + ParamsFromUri.Closings(cur, s, false)
  }

  lemma ClosedNamesCons(cur: Cursor, s: string)
    requires s != []
    ensures forall n :: n in ClosedNames(cur, s) <==>
                        (s[0] == '}' && n == cur.name) || n in ClosedNames(Advance(cur, s[0]), s[1..])
  {
  }

  /** The set of closed names. */
  function NameSet(cur: Cursor, s: string): set<string> {
    set n | n in ClosedNames(cur, s)
  }

  /**
   * After a successful scan every closed name reads as undefined, so none of
   * them reaches the query string, while every other name keeps its value.
   * The closed names are those `paramsFromUri` lists for the same text.
   */
  lemma {:induction false} ConsumesClosedNames(st: Scan, s: string, patterns: Patterns, host: Host)
    requires Expand(st, s, patterns, host).Success?
    ensures forall n | n in ClosedNames(st.cur, s) :: Get(Expand(st, s, patterns, host).value.work, n) == None
    ensures forall j | j !in ClosedNames(st.cur, s) :: Get(Expand(st, s, patterns, host).value.work, j) == Get(st.work, j)
    decreases |s|
  {
    if s != [] {
      var next := Step(st, s[0], patterns, host).value;
      ConsumesClosedNames(next, s[1..], patterns, host);
      ClosedNamesCons(st.cur, s);
      if s[0] == '}' {
        forall j {
          GetConsume(st.work, st.cur.name, j);
        }
      }
    }
  }

  /** The defined pairs of `pairs` whose key is not in `gone`, in their order. */
  function KeepOnly(pairs: seq<(string, string)>, gone: set<string>): (r: seq<(string, string)>)
    ensures forall i | 0 <= i < |r| :: r[i].0 !in gone
  {
    if pairs == [] then []
    else if pairs[0].0 in gone then KeepOnly(pairs[1..], gone)
    else [pairs[0]] + KeepOnly(pairs[1..], gone)
  }

  lemma {:induction false} WithoutKeepOnly(pairs: seq<(string, string)>, gone: set<string>, k: string)
    ensures Without(KeepOnly(pairs, gone), k) == KeepOnly(pairs, gone + {k})
  {
    if pairs != [] {
      WithoutKeepOnly(pairs[1..], gone, k);
    }
  }

  lemma {:induction false} KeepOnlyNothing(pairs: seq<(string, string)>)
    ensures KeepOnly(pairs, {}) == pairs
  {
    if pairs != [] {
      KeepOnlyNothing(pairs[1..]);
    }
  }

  /**
   * The defined values left in the working copy are those of `original`
   * whose names neither were gone before nor are closed by `s`, in order.
   */
  lemma {:induction false} LeftoverPairs(st: Scan, s: string, patterns: Patterns, host: Host,
                                          original: seq<(string, string)>, gone: set<string>)
    requires Expand(st, s, patterns, host).Success?
    requires Defined(st.work) == KeepOnly(original, gone)
    ensures Defined(Expand(st, s, patterns, host).value.work) == KeepOnly(original, gone + NameSet(st.cur, s))
    decreases |s|
  {
    if s == [] {
      assert gone + NameSet(st.cur, s) == gone;
    } else {
      var next := Step(st, s[0], patterns, host).value;
      ClosedNamesCons(st.cur, s);
      if s[0] == '}' {
        DefinedConsume(st.work, st.cur.name);
        WithoutKeepOnly(original, gone, st.cur.name);
        LeftoverPairs(next, s[1..], patterns, host, original, gone + {st.cur.name});
        assert gone + {st.cur.name} + NameSet(next.cur, s[1..]) == gone + NameSet(st.cur, s);
      } else {
        LeftoverPairs(next, s[1..], patterns, host, original, gone);
        assert NameSet(next.cur, s[1..]) == NameSet(st.cur, s);
      }
    }
  }

  /**
   * The whole call: it fails exactly when the scan fails, with the same error;
   * otherwise the path, less one trailing '/', is followed by the serialised
   * leftovers, whose defined values are the caller's minus every closed name,
   * in the caller's order.
   */
  lemma ExpansionResult(uri: string, params: Params, patterns: Patterns, settings: map<string, string>, host: Host)
    ensures var r := Expand(Scan(Start, "", params), uri, patterns, host);
      && (Expansion(uri, params, patterns, settings, host).Failure? <==> r.Failure?)
      && (r.Failure? ==> Expansion(uri, params, patterns, settings, host).error == r.error)
      && (r.Success? ==>
            && Expansion(uri, params, patterns, settings, host).value ==
               TrimTrailingSlash(r.value.out) + host.stringify(r.value.work, QueryFormat(true, settings))
            && Defined(r.value.work) == KeepOnly(Defined(params), NameSet(Start, uri)))
  {
    var r := Expand(Scan(Start, "", params), uri, patterns, host);
    if r.Success? {
      KeepOnlyNothing(Defined(params));
      LeftoverPairs(Scan(Start, "", params), uri, patterns, host, Defined(params), {});
      assert {} + NameSet(Start, uri) == NameSet(Start, uri);
      var path := TrimTrailingSlash(r.value.out);
      assert path + "" == path;
    }
  }

  // ---------------------------------------------------------------------------
  // Agreement with the segment description of a pattern.

  /** The path built so far and the working copy, after some segments. */
  datatype Filled = Filled(out: string, work: Params)

  /**
   * Expansion segment by segment: a literal is copied; a placeholder is
   * checked against the value its name has in the working copy at that point,
   * replaced by the encoded value, and its name consumed.
   */
  function ExpandSegs(segs: seq<Segment>, out: string, work: Params, patterns: Patterns, host: Host): Result<Filled, ExpandError> {
    if segs == [] then Success(Filled(out, work))
    else match segs[0]
      case Literal(t) => ExpandSegs(segs[1..], out + t, work, patterns, host)
      case Param(n, o) =>
        var value := Get(work, n);
        var e := Check(n, o, value, patterns);
        if e.Some? then Failure(e.value)
        else ExpandSegs(segs[1..], out + Encoded(value, host), Consume(work, n), patterns, host)
  }

  /** A scan result without its lexical state. */
  function Outcome(r: Result<Scan, ExpandError>): Result<Filled, ExpandError> {
    if r.Failure? then Failure(r.error) else Success(Filled(r.value.out, r.value.work))
  }

  lemma ExpandOne(st: Scan, c: char, patterns: Patterns, host: Host)
    ensures Expand(st, [c], patterns, host) == Step(st, c, patterns, host)
  {
    assert [c][1..] == [];
  }

  /** A placeholder scanned from between parameters. */
  lemma ExpandPlaceholder(cur: Cursor, out: string, work: Params, n: string, o: bool, patterns: Patterns, host: Host)
    requires Idle(cur) && NoStructural(n)
    ensures var value := Get(work, n);
      var e := Check(n, o, value, patterns);
      Expand(Scan(cur, out, work), Placeholder(n, o), patterns, host) ==
        if e.Some? then Failure(e.value)
        else Success(Scan(Cursor(false, "", o), out + Encoded(value, host), Consume(work, n)))
  {
    var st := Scan(cur, out, work);
    var q := if o then "?" else "";
    var inParam := Cursor(true, "", false);
    assert Placeholder(n, o) == ("{" + n + q) + "}";
    ExpandAppend(st, "{" + n + q, "}", patterns, host);
    ExpandAppend(st, "{" + n, q, patterns, host);
    ExpandAppend(st, "{", n, patterns, host);
    ExpandOne(st, '{', patterns, host);
    NameNotCopied(inParam, out, work, n, patterns, host);
    assert inParam.(name := inParam.name + n) == Cursor(true, n, false);
    if o {
      ExpandOne(Scan(Cursor(true, n, false), out, work), '?', patterns, host);
    }
    ExpandOne(Scan(Cursor(true, n, o), out, work), '}', patterns, host);
  }

  /** One segment at the head of a pattern, scanned from between parameters. */
  lemma ExpandThen(cur: Cursor, out: string, work: Params, seg: Segment, rest: string, patterns: Patterns, host: Host)
    requires Idle(cur) && WellFormedSegment(seg)
    ensures Outcome(Expand(Scan(cur, out, work), RenderSegment(seg) + rest, patterns, host)) ==
            var head := Expand(Scan(cur, out, work), RenderSegment(seg), patterns, host);
            if head.Failure? then Failure(head.error) else Outcome(Expand(head.value, rest, patterns, host))
    ensures Expand(Scan(cur, out, work), RenderSegment(seg), patterns, host).Success? ==>
            Idle(Expand(Scan(cur, out, work), RenderSegment(seg), patterns, host).value.cur)
  {
    ExpandAppend(Scan(cur, out, work), RenderSegment(seg), rest, patterns, host);
    match seg
    case Literal(t) =>
      LiteralsCopied(cur, out, work, t, patterns, host);
    case Param(n, o) =>
      ExpandPlaceholder(cur, out, work, n, o, patterns, host);
  }

  /**
   * On a well-formed pattern the character scan is the segment expansion:
   * same errors, same path, same working copy.
   */
  lemma {:induction false} ExpandRendered(cur: Cursor, segs: seq<Segment>, out: string, work: Params, patterns: Patterns, host: Host)
    requires Idle(cur) && WellFormed(segs)
    ensures Outcome(Expand(Scan(cur, out, work), Render(segs), patterns, host)) == ExpandSegs(segs, out, work, patterns, host)
    decreases |segs|
  {
    if segs == [] {
    } else {
      var st := Scan(cur, out, work);
      ExpandThen(cur, out, work, segs[0], Render(segs[1..]), patterns, host);
      var head := Expand(st, RenderSegment(segs[0]), patterns, host);
      match segs[0]
      case Literal(t) =>
        LiteralsCopied(cur, out, work, t, patterns, host);
        ExpandRendered(cur, segs[1..], out + t, work, patterns, host);
      case Param(n, o) =>
        ExpandPlaceholder(cur, out, work, n, o, patterns, host);
        if head.Success? {
          ExpandRendered(head.value.cur, segs[1..], head.value.out, head.value.work, patterns, host);
        }
    }
  }

  /** No name is used by two placeholders. */
  predicate DistinctNames(segs: seq<Segment>) {
    forall i, j | 0 <= i < j < |segs| && segs[i].Param? && segs[j].Param? :: segs[i].name != segs[j].name
  }

  /** The path text when each placeholder takes its value from `work`. */
  function Fill(segs: seq<Segment>, work: Params, host: Host): string {
    if segs == [] then ""
    else
      var head := match segs[0] case Literal(t) => t case Param(n, _) => Encoded(Get(work, n), host);
      head + Fill(segs[1..], work, host)
  }

  /** What a placeholder named `n` becomes in the path: its encoded value from `work`. */
  function Substitution(work: Params, host: Host): string -> string {
    n => Encoded(Get(work, n), host)
  }

  /** The filled path is the pattern's literal text with each placeholder replaced by its value. */
  lemma {:induction false} FillSkeleton(segs: seq<Segment>, work: Params, host: Host)
    ensures Fill(segs, work, host) == Skeleton(segs, Substitution(work, host))
    decreases |segs|
  {
    if segs != [] {
      FillSkeleton(segs[1..], work, host);
    }
  }

  /** Every placeholder passes its checks with the value its name has in `work`. */
  predicate AllPass(segs: seq<Segment>, work: Params, patterns: Patterns) {
    forall i | 0 <= i < |segs| && segs[i].Param? :: Check(segs[i].name, segs[i].optional, Get(work, segs[i].name), patterns) == None
  }

  /** Two maps that agree on the placeholder names give the same path and the same verdicts. */
  lemma {:induction false} AgreeOnNames(segs: seq<Segment>, w1: Params, w2: Params, patterns: Patterns, host: Host)
    requires forall i | 0 <= i < |segs| && segs[i].Param? :: Get(w1, segs[i].name) == Get(w2, segs[i].name)
    ensures Fill(segs, w1, host) == Fill(segs, w2, host)
    ensures AllPass(segs, w1, patterns) <==> AllPass(segs, w2, patterns)
  {
    if segs != [] {
      AgreeOnNames(segs[1..], w1, w2, patterns, host);
      assert forall i | 1 <= i < |segs| :: segs[1..][i - 1] == segs[i];
    }
  }

  /** The tail of a list with distinct names keeps them distinct and never reuses the head's name. */
  lemma DistinctTail(segs: seq<Segment>)
    requires segs != [] && DistinctNames(segs)
    ensures DistinctNames(segs[1..])
    ensures segs[0].Param? ==> forall i | 0 <= i < |segs[1..]| && segs[1..][i].Param? :: segs[1..][i].name != segs[0].name
  {
    assert forall i | 0 <= i < |segs[1..]| :: segs[1..][i] == segs[i + 1];
  }

  /** Consuming a name that no placeholder uses changes neither the path nor the verdicts. */
  lemma ConsumeUnused(segs: seq<Segment>, work: Params, n: string, patterns: Patterns, host: Host)
    requires forall i | 0 <= i < |segs| && segs[i].Param? :: segs[i].name != n
    ensures Fill(segs, Consume(work, n), host) == Fill(segs, work, host)
    ensures AllPass(segs, Consume(work, n), patterns) <==> AllPass(segs, work, patterns)
  {
    forall i | 0 <= i < |segs| && segs[i].Param?
      ensures Get(Consume(work, n), segs[i].name) == Get(work, segs[i].name)
    {
      GetConsume(work, n, segs[i].name);
    }
    AgreeOnNames(segs, Consume(work, n), work, patterns, host);
  }

  lemma AllPassCons(segs: seq<Segment>, work: Params, patterns: Patterns)
    requires segs != []
    ensures AllPass(segs, work, patterns) <==>
            (segs[0].Param? ==> Check(segs[0].name, segs[0].optional, Get(work, segs[0].name), patterns) == None)
            && AllPass(segs[1..], work, patterns)
  {
    assert forall i | 1 <= i < |segs| :: segs[1..][i - 1] == segs[i];
  }

  /**
   * With distinct names, every placeholder sees the caller's value: the
   * expansion succeeds exactly when every placeholder passes its checks, and
   * the path is the literals with each placeholder replaced by its encoded
   * value (nothing for an absent one).
   */
  lemma {:induction false} ExpandDistinct(segs: seq<Segment>, out: string, work: Params, patterns: Patterns, host: Host)
    requires DistinctNames(segs)
    ensures ExpandSegs(segs, out, work, patterns, host).Success? <==> AllPass(segs, work, patterns)
    ensures ExpandSegs(segs, out, work, patterns, host).Success? ==>
            ExpandSegs(segs, out, work, patterns, host).value.out == out + Fill(segs, work, host)
  {
    if segs == [] {
      assert out + "" == out;
    } else {
      DistinctTail(segs);
      AllPassCons(segs, work, patterns);
      var rest := segs[1..];
      match segs[0]
      case Literal(t) =>
        ExpandDistinct(rest, out + t, work, patterns, host);
        Associate(out, t, Fill(rest, work, host));
      case Param(n, o) =>
        var value := Get(work, n);
        if Check(n, o, value, patterns).None? {
          ConsumeUnused(rest, work, n, patterns, host);
          ExpandDistinct(rest, out + Encoded(value, host), Consume(work, n), patterns, host);
          Associate(out, Encoded(value, host), Fill(rest, work, host));
        }
    }
  }

  lemma Associate(a: string, b: string, c: string)
    ensures a + b + c == a + (b + c)
  {
  }

  /** With distinct names, a failed expansion reports the first placeholder that does not pass. */
  lemma {:induction false} ExpandDistinctFailure(segs: seq<Segment>, out: string, work: Params, patterns: Patterns, host: Host)
    requires DistinctNames(segs)
    requires ExpandSegs(segs, out, work, patterns, host).Failure?
    ensures exists i | 0 <= i < |segs| && segs[i].Param? ::
              && Check(segs[i].name, segs[i].optional, Get(work, segs[i].name), patterns) == Some(ExpandSegs(segs, out, work, patterns, host).error)
              && AllPass(segs[..i], work, patterns)
  {
    DistinctTail(segs);
    var rest := segs[1..];
    var e := ExpandSegs(segs, out, work, patterns, host).error;
    match segs[0]
    case Literal(t) =>
      ExpandDistinctFailure(rest, out + t, work, patterns, host);
      var i :| 0 <= i < |rest| && rest[i].Param?
               && Check(rest[i].name, rest[i].optional, Get(work, rest[i].name), patterns) == Some(e)
               && AllPass(rest[..i], work, patterns);
      Shifted(segs, i, work, patterns);
    case Param(n, o) =>
      var value := Get(work, n);
      if Check(n, o, value, patterns).Some? {
        assert AllPass(segs[..0], work, patterns);
      } else {
        var consumed := Consume(work, n);
        ExpandDistinctFailure(rest, out + Encoded(value, host), consumed, patterns, host);
        var i :| 0 <= i < |rest| && rest[i].Param?
                 && Check(rest[i].name, rest[i].optional, Get(consumed, rest[i].name), patterns) == Some(e)
                 && AllPass(rest[..i], consumed, patterns);
        GetConsume(work, n, rest[i].name);
        assert forall k | 0 <= k < i && rest[..i][k].Param? :: rest[..i][k].name != n;
        ConsumeUnused(rest[..i], work, n, patterns, host);
        Shifted(segs, i, work, patterns);
      }
  }

  /** A prefix that passes, extended by a head that passes, still passes. */
  lemma Shifted(segs: seq<Segment>, i: nat, work: Params, patterns: Patterns)
    requires i < |segs| - 1
    requires segs[0].Param? ==> Check(segs[0].name, segs[0].optional, Get(work, segs[0].name), patterns) == None
    requires AllPass(segs[1..][..i], work, patterns)
    ensures segs[i + 1] == segs[1..][i]
    ensures AllPass(segs[..i + 1], work, patterns)
  {
    assert segs[..i + 1] == [segs[0]] + segs[1..][..i];
    AllPassCons(segs[..i + 1], work, patterns);
    assert segs[..i + 1][1..] == segs[1..][..i];
  }

  /** Once a name has been consumed, a later required placeholder of that name cannot be filled. */
  lemma {:induction false} ConsumedStaysMissing(segs: seq<Segment>, out: string, work: Params, n: string, j: nat, patterns: Patterns, host: Host)
    requires j < |segs| && segs[j] == Param(n, false)
    requires Get(work, n) == None
    ensures ExpandSegs(segs, out, work, patterns, host).Failure?
  {
    match segs[0]
    case Literal(t) =>
      ConsumedStaysMissing(segs[1..], out + t, work, n, j - 1, patterns, host);
    case Param(m, o) =>
      var value := Get(work, m);
      if Check(m, o, value, patterns).None? {
        if j > 0 {
          GetConsume(work, m, n);
          ConsumedStaysMissing(segs[1..], out + Encoded(value, host), Consume(work, m), n, j - 1, patterns, host);
        }
      }
  }

  /**
   * A required placeholder whose name already appeared earlier in the same
   * pattern never succeeds: the first occurrence consumes the value.
   */
  lemma {:induction false} RepeatedRequiredFails(segs: seq<Segment>, out: string, work: Params, i: nat, j: nat, patterns: Patterns, host: Host)
    requires i < j < |segs| && segs[i].Param? && segs[j] == Param(segs[i].name, false)
    ensures ExpandSegs(segs, out, work, patterns, host).Failure?
  {
    if ExpandSegs(segs, out, work, patterns, host).Success? {
      var out', work' := HeadStep(segs, out, work, patterns, host);
      if i == 0 {
        FirstConsumes(segs, out', work, j, patterns, host);
      } else {
        LaterTail(segs, i, j);
        RepeatedRequiredFails(segs[1..], out', work', i - 1, j - 1, patterns, host);
      }
    }
  }

  /** After the first placeholder consumes its name, a later required use of it fails. */
  lemma FirstConsumes(segs: seq<Segment>, out: string, work: Params, j: nat, patterns: Patterns, host: Host)
    requires 0 < j < |segs| && segs[0].Param? && segs[j] == Param(segs[0].name, false)
    ensures ExpandSegs(segs[1..], out, Consume(work, segs[0].name), patterns, host).Failure?
  {
    GetConsume(work, segs[0].name, segs[0].name);
    assert segs[1..][j - 1] == segs[j];
    ConsumedStaysMissing(segs[1..], out, Consume(work, segs[0].name), segs[0].name, j - 1, patterns, host);
  }

  lemma LaterTail(segs: seq<Segment>, i: nat, j: nat)
    requires 0 < i < j < |segs| && segs[i].Param? && segs[j] == Param(segs[i].name, false)
    ensures i - 1 < j - 1 < |segs[1..]| && segs[1..][i - 1].Param? && segs[1..][j - 1] == Param(segs[1..][i - 1].name, false)
  {
  }

  /** A successful expansion continues, after its first segment, from some text and some map. */
  lemma HeadStep(segs: seq<Segment>, out: string, work: Params, patterns: Patterns, host: Host)
    returns (out': string, work': Params)
    requires segs != [] && ExpandSegs(segs, out, work, patterns, host).Success?
    ensures ExpandSegs(segs[1..], out', work', patterns, host) == ExpandSegs(segs, out, work, patterns, host)
    ensures work' == if segs[0].Param? then Consume(work, segs[0].name) else work
  {
    match segs[0]
    case Literal(t) =>
      out', work' := out + t, work;
    case Param(n, _) =>
      out', work' := out + Encoded(Get(work, n), host), Consume(work, n);
  }

  /** A pattern that uses the same required name twice reports it as missing. */
  lemma RepeatedNameMissing(n: string, t: string, out: string, work: Params, patterns: Patterns, host: Host)
    requires Check(n, false, Get(work, n), patterns) == None
    ensures ExpandSegs([Param(n, false), Literal(t), Param(n, false)], out, work, patterns, host) == Failure(Missing(n))
  {
    var segs := [Param(n, false), Literal(t), Param(n, false)];
    var consumed := Consume(work, n);
    var mid := out + Encoded(Get(work, n), host);
    GetConsume(work, n, n);
    assert segs[1..] == [Literal(t), Param(n, false)];
    assert segs[1..][1..] == [Param(n, false)];
    assert Check(n, false, Get(consumed, n), patterns) == Some(Missing(n));
    assert ExpandSegs([Param(n, false)], mid + t, consumed, patterns, host) == Failure(Missing(n));
    assert ExpandSegs(segs[1..], mid, consumed, patterns, host) == Failure(Missing(n));
  }

  /**
   * A pattern written from segments with distinct names: the call succeeds
   * exactly when every placeholder passes its checks against the caller's
   * value; the path then has each placeholder replaced by its encoded value,
   * less one trailing '/', and the query string serialises the caller's
   * values minus every placeholder name.
   */
  lemma ExpansionOfPattern(segs: seq<Segment>, params: Params, patterns: Patterns, settings: map<string, string>, host: Host)
    requires WellFormed(segs) && DistinctNames(segs)
    ensures Expansion(Render(segs), params, patterns, settings, host).Success? <==> AllPass(segs, params, patterns)
    ensures ExpandSegs(segs, "", params, patterns, host).Success? <==> AllPass(segs, params, patterns)
    ensures AllPass(segs, params, patterns) ==>
      var w := ExpandSegs(segs, "", params, patterns, host).value.work;
      && Expansion(Render(segs), params, patterns, settings, host).value ==
         TrimTrailingSlash(Fill(segs, params, host)) + host.stringify(w, QueryFormat(true, settings))
      && Defined(w) == KeepOnly(Defined(params), set n | n in ParamNames(segs, true) + ParamNames(segs, false))
  {
    ExpansionResult(Render(segs), params, patterns, settings, host);
    ExpandRendered(Start, segs, "", params, patterns, host);
    ExpandDistinct(segs, "", params, patterns, host);
    ParamsFromUri.CollectRendered(Start, segs, true);
    ParamsFromUri.CollectRendered(Start, segs, false);
    assert "" + Fill(segs, params, host) == Fill(segs, params, host);
  }
}
