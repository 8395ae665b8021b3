/**
 * The pattern side of lib/createRouter.js: routes and groups accumulate URI
 * pieces, name pieces and constraint layers; a named route is entered in a
 * registry shared by every router of one `createRouter` call; `url` turns a
 * registered name and a value map back into a URL.
 */
module Router {
  import opened Values
  import opened Syntax
  import Strings
  import LaravelToExpress
  import UriWithParams

  /** What the registry keeps for a name: the joined pattern and its merged constraints. */
  datatype NamedUrl = NamedUrl(uri: string, patterns: Patterns)

  /** The errors `url` raises: an unknown name, or a failed placeholder. */
  datatype UrlError = NoUrl(name: string) | ParamError(error: ExpandError)

  /** The `namedUrls` object of one `createRouter` call, shared by all its routers. */
  class Registry {
    var namedUrls: map<string, NamedUrl>

    constructor ()
      ensures namedUrls == map[]
    {
      namedUrls := map[];
    }
  }

  /**
   * `Object.assign({}, ...layers)`: every constraint of every layer, a later
   * layer overriding an earlier one on the same name.
   */
  function MergePatterns(layers: seq<Patterns>): (m: Patterns)
    ensures forall k :: k in m <==> exists i | 0 <= i < |layers| :: k in layers[i]
  {
    if layers == [] then map[]
    else
      var front := layers[..|layers| - 1];
      assert forall i | 0 <= i < |front| :: front[i] == layers[i];
      MergePatterns(front) + layers[|layers| - 1]
  }

  /** A name takes the constraint of the last layer that has it. */
  lemma {:induction false} MergeLastWins(layers: seq<Patterns>, i: nat, k: string)
    requires i < |layers| && k in layers[i]
    requires forall j | i < j < |layers| :: k !in layers[j]
    ensures k in MergePatterns(layers) && MergePatterns(layers)[k] == layers[i][k]
  {
    var front := layers[..|layers| - 1];
    if i < |layers| - 1 {
      assert forall j | i < j < |front| :: front[j] == layers[j];
      MergeLastWins(front, i, k);
    }
  }

  /** The value-map serialisation of `url`: `encodeURIComponent(key)=encodeURIComponent(value)` per pair. */
  function Assignments(pairs: seq<(string, string)>, host: Host): (r: seq<string>)
    ensures |r| == |pairs|
    ensures forall i | 0 <= i < |pairs| :: r[i] == host.encodeURIComponent(pairs[i].0) + "=" + host.encodeURIComponent(pairs[i].1)
  {
    if pairs == [] then []
    else [host.encodeURIComponent(pairs[0].0) + "=" + host.encodeURIComponent(pairs[0].1)] + Assignments(pairs[1..], host)
  }

  /** The query string of `url`: nothing without leftovers, else '?' and the assignments joined by '&'. */
  function Query(pairs: seq<(string, string)>, host: Host): (q: string)
    ensures q == "" <==> pairs == []
  {
    if pairs == [] then "" else "?" + Strings.Join(Assignments(pairs, host), "&")
  }

  /**
   * The result of `url(name, params)`: an unknown name is an error; otherwise
   * the registered pattern is scanned as `uriWithParams` scans it, one
   * trailing '/' goes, and the defined leftovers become the query string.
   */
  function UrlResult(namedUrls: map<string, NamedUrl>, name: string, params: Params, host: Host): Result<string, UrlError> {
    if name !in namedUrls then Failure(NoUrl(name))
    else
      var entry := namedUrls[name];
      var r := UriWithParams.Expand(UriWithParams.Scan(Start, "", params), entry.uri, entry.patterns, host);
      if r.Failure? then Failure(ParamError(r.error))
      else Success(UriWithParams.TrimTrailingSlash(r.value.out) + Query(Defined(r.value.work), host))
  }

  /** `p` only ever forgets values of `params`: each defined value of `p` is that of `params`. */
  ghost predicate Agrees(p: Params, params: Params) {
    forall k {:trigger Get(p, k)} :: Get(p, k) == None || Get(p, k) == Get(params, k)
  }

  lemma ConsumeAgrees(p: Params, params: Params, n: string)
    requires Agrees(p, params)
    ensures Agrees(Consume(p, n), params)
  {
    forall k {
      GetConsume(p, n, k);
    }
  }

  /** A router: the URI pieces, name pieces and constraint layers of its enclosing groups. */
  class Router {
    const registry: Registry
    var uris: seq<string>
    var names: seq<string>
    var patterns: seq<Patterns>

    constructor (registry: Registry)
      ensures this.registry == registry
      ensures uris == [] && names == [] && patterns == []
    {
      this.registry := registry;
      uris, names, patterns := [], [], [];
    }

    /**
     * `route(options, action)`. `pathJoin` stands for `path.join`. A route
     * with a non-empty name is entered under the concatenation of the group
     * namespaces and its own name, replacing any earlier entry of that name;
     * the result is the Express path the route is mounted on.
     */
    method Route(uri: string, name: string, routePatterns: Patterns, pathJoin: seq<string> -> string)
      returns (expressPath: string)
      modifies registry
      ensures var joined := pathJoin(uris + [uri]);
              var merged := MergePatterns(patterns + [routePatterns]);
              && expressPath == LaravelToExpress.Compile(Start, joined, merged)
              && registry.namedUrls ==
                 if name != "" then old(registry.namedUrls)[Strings.Concat(names + [name]) := NamedUrl(joined, merged)]
                 else old(registry.namedUrls)
    {
      var joined := pathJoin(uris + [uri]);
      var fullName := Strings.Concat(names + [name]);
      var merged := MergePatterns(patterns + [routePatterns]);
      if name != "" {
        registry.namedUrls := registry.namedUrls[fullName := NamedUrl(joined, merged)];
      }
      expressPath := LaravelToExpress.LaravelToExpress(joined, merged);
    }

    /**
     * `group(options, closure)`: the router handed to the closure extends each
     * list by the group's own piece and shares the registry.
     */
    method Group(prefix: string, namespace: string, groupPatterns: Patterns) returns (child: Router)
      ensures fresh(child)
      ensures child.registry == registry
      ensures child.uris == uris + [prefix]
      ensures child.names == names + [namespace]
      ensures child.patterns == patterns + [groupPatterns]
    {
      child := new Router(registry);
      child.uris := uris + [prefix];
      child.names := names + [namespace];
      child.patterns := patterns + [groupPatterns];
    }

    /**
     * `url(name, params)`. The checks read the working copy `p`, the text
     * appended at a '}' reads the caller's `params`; the two agree whenever
     * the value is defined in `p`, so the result is `UrlResult`.
     */
    method Url(name: string, params: Params, host: Host) returns (r: Result<string, UrlError>)
      ensures r == UrlResult(registry.namedUrls, name, params, host)
    {
      var p := params;
      if name !in registry.namedUrls {
        return Failure(NoUrl(name));
      }
      var uri, patterns := registry.namedUrls[name].uri, registry.namedUrls[name].patterns;
      var parsingParam, currentParam, newUri, optional := false, "", "", false;
      for i := 0 to |uri|
        invariant UriWithParams.Expand(UriWithParams.Scan(Start, "", params), uri, patterns, host) ==
                  UriWithParams.Expand(UriWithParams.Scan(Cursor(parsingParam, currentParam, optional), newUri, p), uri[i..], patterns, host)
        invariant Agrees(p, params)
      {
        var character := uri[i];
        ghost var st := UriWithParams.Scan(Cursor(parsingParam, currentParam, optional), newUri, p);
        if character == '{' {
          parsingParam := true;
          optional := false;
          UriWithParams.Moved(st, uri, i, UriWithParams.Scan(Cursor(parsingParam, currentParam, optional), newUri, p), patterns, host);
        } else if character == '}' {
          if Get(p, currentParam) == None && !optional {
            r := Failure(ParamError(Missing(currentParam)));
            UriWithParams.Stopped(st, uri, i, patterns, host);
            return;
          }
          if currentParam in patterns && !patterns[currentParam].test(Get(p, currentParam)) {
            r := Failure(ParamError(Rejected(Get(p, currentParam), currentParam, patterns[currentParam].text)));
            UriWithParams.Stopped(st, uri, i, patterns, host);
            return;
          }
          if Get(p, currentParam) != None {
            assert Get(params, currentParam) == Get(p, currentParam);
            newUri := newUri + host.encodeURI(Get(params, currentParam).value);
          }
          ConsumeAgrees(p, params, currentParam);
          p := Consume(p, currentParam);
          parsingParam := false;
          currentParam := "";
          UriWithParams.Substituted(st, uri, i, newUri, patterns, host);
        } else if character == '?' {
          optional := true;
          UriWithParams.Moved(st, uri, i, UriWithParams.Scan(Cursor(parsingParam, currentParam, optional), newUri, p), patterns, host);
        } else {
          if parsingParam {
            currentParam := currentParam + [character];
          } else {
            newUri := newUri + [character];
          }
          UriWithParams.Moved(st, uri, i, UriWithParams.Scan(Cursor(parsingParam, currentParam, optional), newUri, p), patterns, host);
        }
      }
      assert uri[|uri|..] == [];
      if |newUri| > 1 && newUri[|newUri| - 1] == '/' {
        newUri := Strings.RemoveLastCharacter(newUri);
      }
      ghost var path := newUri;
      var queryParams := Defined(p);
      if |queryParams| > 0 {
        newUri := newUri + "?" + Strings.Join(Assignments(queryParams, host), "&");
      }
      Finished(path, queryParams, newUri, host);
      r := Success(newUri);
    }
  }

  /** The text after the scan: the trimmed path and the query string. */
  lemma Finished(path: string, pairs: seq<(string, string)>, result: string, host: Host)
    requires result == if |pairs| > 0 then path + "?" + Strings.Join(Assignments(pairs, host), "&") else path
    ensures result == path + Query(pairs, host)
  {
    assert path + "" == path;
  }

  /** `createRouter(app)`: a router with no enclosing groups and an empty registry of its own. */
  method CreateRouter() returns (router: Router)
    ensures fresh(router) && fresh(router.registry)
    ensures router.registry.namedUrls == map[]
    ensures router.uris == [] && router.names == [] && router.patterns == []
  {
    var registry := new Registry();
    router := new Router(registry);
  }

  // ---------------------------------------------------------------------------
  // `url` against `uriWithParams`, and against the segment description.

  /**
   * For a registered name `url` fails exactly when `uriWithParams` fails on
   * the registered pattern, with the same error; on success both produce the
   * same path, and `url`'s query string lists the caller's defined values
   * minus every placeholder name, in the caller's order.
   */
  lemma UrlAgreesWithUriWithParams(namedUrls: map<string, NamedUrl>, name: string, params: Params,
                                   settings: map<string, string>, host: Host)
    ensures name !in namedUrls ==> UrlResult(namedUrls, name, params, host) == Failure(NoUrl(name))
    ensures name in namedUrls ==>
      var entry := namedUrls[name];
      var expansion := UriWithParams.Expansion(entry.uri, params, entry.patterns, settings, host);
      var r := UriWithParams.Expand(UriWithParams.Scan(Start, "", params), entry.uri, entry.patterns, host);
      && (UrlResult(namedUrls, name, params, host).Success? <==> expansion.Success?)
      && (expansion.Failure? ==> UrlResult(namedUrls, name, params, host) == Failure(ParamError(expansion.error)))
      && (expansion.Success? ==>
            var path := UriWithParams.TrimTrailingSlash(r.value.out);
            && UrlResult(namedUrls, name, params, host).value ==
               path + Query(UriWithParams.KeepOnly(Defined(params), UriWithParams.NameSet(Start, entry.uri)), host)
            && expansion.value == path + host.stringify(r.value.work, QueryFormat(true, settings)))
  {
    if name in namedUrls {
      UriWithParams.ExpansionResult(namedUrls[name].uri, params, namedUrls[name].patterns, settings, host);
    }
  }

  /**
   * A registered pattern written from segments with distinct names: `url`
   * succeeds exactly when every placeholder passes its checks against the
   * caller's value, and the URL is the literals with each placeholder replaced
   * by its encoded value, less one trailing '/', followed by the query string
   * of the values no placeholder used.
   */
  lemma UrlOfPattern(namedUrls: map<string, NamedUrl>, name: string, segs: seq<Segment>, params: Params, host: Host)
    requires name in namedUrls && namedUrls[name].uri == Render(segs)
    requires WellFormed(segs) && UriWithParams.DistinctNames(segs)
    ensures var pats := namedUrls[name].patterns;
      && (UrlResult(namedUrls, name, params, host).Success? <==> UriWithParams.AllPass(segs, params, pats))
      && (UriWithParams.AllPass(segs, params, pats) ==>
            UrlResult(namedUrls, name, params, host).value ==
            UriWithParams.TrimTrailingSlash(UriWithParams.Fill(segs, params, host)) +
            Query(UriWithParams.KeepOnly(Defined(params), set n | n in ParamNames(segs, true) + ParamNames(segs, false)), host))
  {
    var pats := namedUrls[name].patterns;
    UriWithParams.ExpandRendered(Start, segs, "", params, pats, host);
    UriWithParams.ExpansionOfPattern(segs, params, pats, map[], host);
    UriWithParams.ExpandDistinct(segs, "", params, pats, host);
    assert "" + UriWithParams.Fill(segs, params, host) == UriWithParams.Fill(segs, params, host);
  }

  // ---------------------------------------------------------------------------
  // Patterns with two placeholders, as the named-route tests use them.

  /** The segments of `a{x}b{y}c`, or of `a{x}b{y?}c` when `o` holds. */
  function TwoPlaceholders(a: string, x: string, b: string, y: string, o: bool, c: string): seq<Segment> {
    [Literal(a)] + ([Param(x, false)] + ([Literal(b)] + ([Param(y, o)] + [Literal(c)])))
  }

  lemma RenderTwoPlaceholders(a: string, x: string, b: string, y: string, o: bool, c: string)
    ensures Render(TwoPlaceholders(a, x, b, y, o, c)) == a + Placeholder(x, false) + b + Placeholder(y, o) + c
  {
    var segs := TwoPlaceholders(a, x, b, y, o, c);
    assert Render(segs[4..]) == c + "";
    assert Render(segs[3..]) == Placeholder(y, o) + Render(segs[4..]);
    assert Render(segs[2..]) == b + Render(segs[3..]);
    assert Render(segs[1..]) == Placeholder(x, false) + Render(segs[2..]);
    RegroupFive(a, Placeholder(x, false), b, Placeholder(y, o), c);
  }

  lemma RegroupFive(p: string, q: string, r: string, s: string, t: string)
    ensures p + (q + (r + (s + (t + "")))) == p + q + r + s + t
  {
    assert t + "" == t;
  }

  lemma FillTwoPlaceholders(a: string, x: string, b: string, y: string, o: bool, c: string, params: Params, host: Host)
    ensures UriWithParams.Fill(TwoPlaceholders(a, x, b, y, o, c), params, host) ==
            a + UriWithParams.Encoded(Get(params, x), host) + b + UriWithParams.Encoded(Get(params, y), host) + c
  {
    var segs := TwoPlaceholders(a, x, b, y, o, c);
    var ex, ey := UriWithParams.Encoded(Get(params, x), host), UriWithParams.Encoded(Get(params, y), host);
    assert UriWithParams.Fill(segs[4..], params, host) == c + "";
    assert UriWithParams.Fill(segs[3..], params, host) == ey + UriWithParams.Fill(segs[4..], params, host);
    assert UriWithParams.Fill(segs[2..], params, host) == b + UriWithParams.Fill(segs[3..], params, host);
    assert UriWithParams.Fill(segs[1..], params, host) == ex + UriWithParams.Fill(segs[2..], params, host);
    RegroupFive(a, ex, b, ey, c);
  }

  /** The expansion of the two placeholders: the first check that fails, else success. */
  lemma ExpandTwoPlaceholders(a: string, x: string, b: string, y: string, o: bool, c: string, params: Params,
                              pats: Patterns, host: Host)
    requires x != y
    ensures var r := UriWithParams.ExpandSegs(TwoPlaceholders(a, x, b, y, o, c), "", params, pats, host);
      var ex := UriWithParams.Check(x, false, Get(params, x), pats);
      var ey := UriWithParams.Check(y, o, Get(params, y), pats);
      && (ex.Some? ==> r == Failure(ex.value))
      && (ex.None? && ey.Some? ==> r == Failure(ey.value))
      && (ex.None? && ey.None? ==> r.Success?)
  {
    var t4 := [Literal(c)];
    var t3 := [Param(y, o)] + t4;
    var t2 := [Literal(b)] + t3;
    var t1 := [Param(x, false)] + t2;
    LiteralHead(a, t1, "", params, pats, host);
    assert "" + a == a;
    ParamHead(x, false, t2, a, params, pats, host);
    var ex := UriWithParams.Check(x, false, Get(params, x), pats);
    if ex.None? {
      var out := a + UriWithParams.Encoded(Get(params, x), host);
      var consumed := Consume(params, x);
      GetConsume(params, x, y);
      LiteralHead(b, t3, out, consumed, pats, host);
      ParamHead(y, o, t4, out + b, consumed, pats, host);
      LiteralHead(c, [], out + b + UriWithParams.Encoded(Get(consumed, y), host), Consume(consumed, y), pats, host);
      assert t4 == [Literal(c)] + [];
    }
  }

  lemma LiteralHead(t: string, rest: seq<Segment>, out: string, work: Params, pats: Patterns, host: Host)
    ensures UriWithParams.ExpandSegs([Literal(t)] + rest, out, work, pats, host) == UriWithParams.ExpandSegs(rest, out + t, work, pats, host)
  {
    assert ([Literal(t)] + rest)[1..] == rest;
  }

  lemma ParamHead(n: string, o: bool, rest: seq<Segment>, out: string, work: Params, pats: Patterns, host: Host)
    ensures var e := UriWithParams.Check(n, o, Get(work, n), pats);
      UriWithParams.ExpandSegs([Param(n, o)] + rest, out, work, pats, host) ==
      if e.Some? then Failure(e.value)
      else UriWithParams.ExpandSegs(rest, out + UriWithParams.Encoded(Get(work, n), host), Consume(work, n), pats, host)
  {
    assert ([Param(n, o)] + rest)[1..] == rest;
  }

  /** The names of the two placeholders. */
  lemma TwoPlaceholderNames(a: string, x: string, b: string, y: string, o: bool, c: string)
    ensures (set n | n in ParamNames(TwoPlaceholders(a, x, b, y, o, c), true) + ParamNames(TwoPlaceholders(a, x, b, y, o, c), false)) == {x, y}
  {
    var segs := TwoPlaceholders(a, x, b, y, o, c);
    NamesTwoPlaceholders(a, x, b, y, o, c, true);
    NamesTwoPlaceholders(a, x, b, y, o, c, false);
    if o {
      assert ParamNames(segs, true) + ParamNames(segs, false) == [y, x];
    } else {
      assert ParamNames(segs, true) + ParamNames(segs, false) == [x, y];
    }
  }

  lemma NamesTwoPlaceholders(a: string, x: string, b: string, y: string, o: bool, c: string, optional: bool)
    ensures ParamNames(TwoPlaceholders(a, x, b, y, o, c), optional) ==
            (if !optional then [x] else []) + (if o == optional then [y] else [])
  {
    var t4 := [Literal(c)];
    var t3 := [Param(y, o)] + t4;
    var t2 := [Literal(b)] + t3;
    var t1 := [Param(x, false)] + t2;
    NamesHead(Literal(a), t1, optional);
    NamesHead(Param(x, false), t2, optional);
    NamesHead(Literal(b), t3, optional);
    NamesHead(Param(y, o), t4, optional);
    NamesHead(Literal(c), [], optional);
    assert t4 == [Literal(c)] + [];
  }

  lemma NamesHead(seg: Segment, rest: seq<Segment>, optional: bool)
    ensures ParamNames([seg] + rest, optional) ==
            (if seg.Param? && seg.optional == optional then [seg.name] else []) + ParamNames(rest, optional)
  {
    assert ([seg] + rest)[1..] == rest;
  }

  /** Nothing is left over when every key of the map is a placeholder name. */
  lemma {:induction false} NoLeftovers(params: Params, gone: set<string>)
    requires forall i | 0 <= i < |params| :: params[i].key in gone
    ensures UriWithParams.KeepOnly(Defined(params), gone) == []
  {
    if params != [] {
      NoLeftovers(params[1..], gone);
    }
  }

  /** The segments of `a{x}b{y}c` are well formed and use distinct names. */
  lemma TwoPlaceholdersShape(a: string, x: string, b: string, y: string, o: bool, c: string)
    requires NoStructural(a) && NoStructural(x) && NoStructural(b) && NoStructural(y) && NoStructural(c) && x != y
    ensures WellFormed(TwoPlaceholders(a, x, b, y, o, c)) && UriWithParams.DistinctNames(TwoPlaceholders(a, x, b, y, o, c))
  {
    var segs := TwoPlaceholders(a, x, b, y, o, c);
    assert segs == [Literal(a), Param(x, false), Literal(b), Param(y, o), Literal(c)];
  }

  /**
   * `route` and then `url` for a pattern whose placeholders are required,
   * distinct and unconstrained. The Express path the route is mounted on and
   * the URL `url` builds are the same literal text: the path has `:name` where
   * the URL has the encoded value of `name`. `url` succeeds exactly when every
   * placeholder name has a value.
   */
  lemma RouteAndUrlShareLiterals(namedUrls: map<string, NamedUrl>, name: string, segs: seq<Segment>, params: Params, host: Host)
    requires name in namedUrls && namedUrls[name].uri == Render(segs)
    requires WellFormed(segs) && UriWithParams.DistinctNames(segs) && RequiredOnly(segs)
    requires LaravelToExpress.Unconstrained(segs, namedUrls[name].patterns)
    ensures LaravelToExpress.Compile(Start, namedUrls[name].uri, namedUrls[name].patterns) == Skeleton(segs, LaravelToExpress.Token)
    ensures UrlResult(namedUrls, name, params, host).Success? <==>
            forall i | 0 <= i < |segs| && segs[i].Param? :: Get(params, segs[i].name).Some?
    ensures UrlResult(namedUrls, name, params, host).Success? ==>
            UrlResult(namedUrls, name, params, host).value ==
            UriWithParams.TrimTrailingSlash(Skeleton(segs, UriWithParams.Substitution(params, host))) +
            Query(UriWithParams.KeepOnly(Defined(params), set n | n in ParamNames(segs, false)), host)
  {
    var pats := namedUrls[name].patterns;
    LaravelToExpress.CompileRendered(Start, segs, pats);
    LaravelToExpress.ExpressSkeleton(segs, pats);
    UrlOfPattern(namedUrls, name, segs, params, host);
    UriWithParams.FillSkeleton(segs, params, host);
    NoOptionalNames(segs);
    assert (set n | n in ParamNames(segs, true) + ParamNames(segs, false)) == (set n | n in ParamNames(segs, false));
  }

  lemma {:induction false} NoOptionalNames(segs: seq<Segment>)
    requires RequiredOnly(segs)
    ensures ParamNames(segs, true) == []
    decreases |segs|
  {
    if segs != [] {
      assert RequiredOnly(segs[1..]) by {
        forall i | 0 <= i < |segs[1..]| ensures segs[1..][i] == segs[i + 1] { }
      }
      NoOptionalNames(segs[1..]);
    }
  }

  /**
   * `url` for a name registered with `a{x}b{y}c` (or `a{x}b{y?}c`) and values
   * only for those names: the first failing check is the error; otherwise
   * the two encoded values are put in place and one trailing '/' goes.
   */
  lemma UrlTwoPlaceholders(namedUrls: map<string, NamedUrl>, name: string,
                           a: string, x: string, b: string, y: string, o: bool, c: string, params: Params, host: Host)
    requires name in namedUrls && namedUrls[name].uri == a + Placeholder(x, false) + b + Placeholder(y, o) + c
    requires NoStructural(a) && NoStructural(x) && NoStructural(b) && NoStructural(y) && NoStructural(c) && x != y
    requires forall i | 0 <= i < |params| :: params[i].key == x || params[i].key == y
    ensures var pats := namedUrls[name].patterns;
      var ex := UriWithParams.Check(x, false, Get(params, x), pats);
      var ey := UriWithParams.Check(y, o, Get(params, y), pats);
      UrlResult(namedUrls, name, params, host) ==
        if ex.Some? then Failure(ParamError(ex.value))
        else if ey.Some? then Failure(ParamError(ey.value))
        else Success(UriWithParams.TrimTrailingSlash(
               a + UriWithParams.Encoded(Get(params, x), host) + b + UriWithParams.Encoded(Get(params, y), host) + c))
  {
    var segs := TwoPlaceholders(a, x, b, y, o, c);
    var pats := namedUrls[name].patterns;
    RenderTwoPlaceholders(a, x, b, y, o, c);
    TwoPlaceholdersShape(a, x, b, y, o, c);
    ExpandTwoPlaceholders(a, x, b, y, o, c, params, pats, host);
    if UriWithParams.ExpandSegs(segs, "", params, pats, host).Failure? {
      TwoPlaceholdersFail(namedUrls, name, segs, params, host);
    } else {
      TwoPlaceholdersSucceed(namedUrls, name, a, x, b, y, o, c, params, host);
    }
  }

  /** A failing segment expansion is the error of `url`. */
  lemma TwoPlaceholdersFail(namedUrls: map<string, NamedUrl>, name: string, segs: seq<Segment>, params: Params, host: Host)
    requires name in namedUrls && namedUrls[name].uri == Render(segs) && WellFormed(segs)
    requires UriWithParams.ExpandSegs(segs, "", params, namedUrls[name].patterns, host).Failure?
    ensures UrlResult(namedUrls, name, params, host) ==
            Failure(ParamError(UriWithParams.ExpandSegs(segs, "", params, namedUrls[name].patterns, host).error))
  {
    UriWithParams.ExpandRendered(Start, segs, "", params, namedUrls[name].patterns, host);
  }

  lemma TwoPlaceholdersSucceed(namedUrls: map<string, NamedUrl>, name: string,
                               a: string, x: string, b: string, y: string, o: bool, c: string, params: Params, host: Host)
    requires name in namedUrls && namedUrls[name].uri == Render(TwoPlaceholders(a, x, b, y, o, c))
    requires WellFormed(TwoPlaceholders(a, x, b, y, o, c)) && UriWithParams.DistinctNames(TwoPlaceholders(a, x, b, y, o, c))
    requires UriWithParams.ExpandSegs(TwoPlaceholders(a, x, b, y, o, c), "", params, namedUrls[name].patterns, host).Success?
    requires forall i | 0 <= i < |params| :: params[i].key == x || params[i].key == y
    ensures UrlResult(namedUrls, name, params, host) ==
            Success(UriWithParams.TrimTrailingSlash(
              a + UriWithParams.Encoded(Get(params, x), host) + b + UriWithParams.Encoded(Get(params, y), host) + c))
  {
    var segs := TwoPlaceholders(a, x, b, y, o, c);
    UriWithParams.ExpandDistinct(segs, "", params, namedUrls[name].patterns, host);
    UrlOfPattern(namedUrls, name, segs, params, host);
    FillTwoPlaceholders(a, x, b, y, o, c, params, host);
    TwoPlaceholderNames(a, x, b, y, o, c);
    NoLeftovers(params, {x, y});
    var path := UriWithParams.TrimTrailingSlash(UriWithParams.Fill(segs, params, host));
    assert path + "" == path;
  }

  // ---------------------------------------------------------------------------
  // The named-route tests (test/createRouter.js).

  /** An encoder that leaves digits and letters alone maps a one-character digit string to itself. */
  lemma KeepsText(host: Host, s: string)
    requires KeepsUnreserved(host.encodeURI)
    requires forall i | 0 <= i < |s| :: IsUnreserved(s[i])
    ensures host.encodeURI(s) == s
  {
  }

  lemma FooBarText(o: bool)
    ensures (if o then "/{foo}/{bar?}" else "/{foo}/{bar}") == "/" + Placeholder("foo", false) + "/" + Placeholder("bar", o) + ""
  {
  }

  /** Values for both placeholders that their constraints accept: both are put in place. */
  lemma UrlBothGiven(namedUrls: map<string, NamedUrl>, name: string,
                     a: string, x: string, b: string, y: string, o: bool, c: string, v: string, w: string, host: Host)
    requires name in namedUrls && namedUrls[name].uri == a + Placeholder(x, false) + b + Placeholder(y, o) + c
    requires x in namedUrls[name].patterns ==> namedUrls[name].patterns[x].test(Some(v))
    requires y in namedUrls[name].patterns ==> namedUrls[name].patterns[y].test(Some(w))
    requires NoStructural(a) && NoStructural(x) && NoStructural(b) && NoStructural(y) && NoStructural(c) && x != y
    ensures UrlResult(namedUrls, name, [Entry(x, Some(v)), Entry(y, Some(w))], host) ==
            Success(UriWithParams.TrimTrailingSlash(a + host.encodeURI(v) + b + host.encodeURI(w) + c))
  {
    var params := [Entry(x, Some(v)), Entry(y, Some(w))];
    assert Get(params, x) == Some(v) && Get(params, y) == Some(w);
    UrlTwoPlaceholders(namedUrls, name, a, x, b, y, o, c, params, host);
  }

  /** A value for the first placeholder only, no constraints: the second is missing, or dropped when optional. */
  lemma UrlFirstGiven(namedUrls: map<string, NamedUrl>, name: string,
                      a: string, x: string, b: string, y: string, o: bool, c: string, v: string, host: Host)
    requires name in namedUrls && namedUrls[name] == NamedUrl(a + Placeholder(x, false) + b + Placeholder(y, o) + c, map[])
    requires NoStructural(a) && NoStructural(x) && NoStructural(b) && NoStructural(y) && NoStructural(c) && x != y
    ensures UrlResult(namedUrls, name, [Entry(x, Some(v))], host) ==
            if o then Success(UriWithParams.TrimTrailingSlash(a + host.encodeURI(v) + b + c))
            else Failure(ParamError(Missing(y)))
  {
    var params := [Entry(x, Some(v))];
    assert Get(params, x) == Some(v) && Get(params, y) == None;
    UrlTwoPlaceholders(namedUrls, name, a, x, b, y, o, c, params, host);
    assert a + host.encodeURI(v) + b + "" + c == a + host.encodeURI(v) + b + c;
  }

  lemma FooBarNames()
    ensures NoStructural("/") && NoStructural("foo") && NoStructural("bar") && NoStructural("") && "foo" != "bar"
  {
  }

  lemma DigitsKept(host: Host)
    requires KeepsUnreserved(host.encodeURI)
    ensures host.encodeURI("1") == "1" && host.encodeURI("2") == "2"
  {
    KeepsText(host, "1");
    KeepsText(host, "2");
  }

  lemma SlashOneSlashTwo()
    ensures UriWithParams.TrimTrailingSlash("/" + "1" + "/" + "2" + "") == "/1/2"
  {
    assert "/" + "1" + "/" + "2" + "" == "/1/2";
  }

  lemma SlashOneSlash()
    ensures UriWithParams.TrimTrailingSlash("/" + "1" + "/" + "") == "/1"
  {
    assert "/" + "1" + "/" + "" == "/1/";
  }

  /** test/createRouter.js:527-549: `{foo}` and `{bar}` are both filled. */
  lemma UrlFillsParams(namedUrls: map<string, NamedUrl>, host: Host)
    requires "baz" in namedUrls && namedUrls["baz"] == NamedUrl("/{foo}/{bar}", map[])
    requires KeepsUnreserved(host.encodeURI)
    ensures UrlResult(namedUrls, "baz", [Entry("foo", Some("1")), Entry("bar", Some("2"))], host) == Success("/1/2")
  {
    FooBarText(false);
    FooBarNames();
    UrlBothGiven(namedUrls, "baz", "/", "foo", "/", "bar", false, "", "1", "2", host);
    DigitsKept(host);
    SlashOneSlashTwo();
  }

  /** test/createRouter.js:551-576: a required placeholder without a value is an error. */
  lemma UrlMissingRequired(namedUrls: map<string, NamedUrl>, host: Host)
    requires "baz" in namedUrls && namedUrls["baz"] == NamedUrl("/{foo}/{bar}", map[])
    ensures UrlResult(namedUrls, "baz", [Entry("foo", Some("1"))], host) == Failure(ParamError(Missing("bar")))
  {
    FooBarText(false);
    FooBarNames();
    UrlFirstGiven(namedUrls, "baz", "/", "foo", "/", "bar", false, "", "1", host);
  }

  /** test/createRouter.js:578-598: an optional placeholder without a value is dropped, then the trailing '/'. */
  lemma UrlSkipsOptional(namedUrls: map<string, NamedUrl>, host: Host)
    requires "baz" in namedUrls && namedUrls["baz"] == NamedUrl("/{foo}/{bar?}", map[])
    requires KeepsUnreserved(host.encodeURI)
    ensures UrlResult(namedUrls, "baz", [Entry("foo", Some("1"))], host) == Success("/1")
  {
    FooBarText(true);
    FooBarNames();
    UrlFirstGiven(namedUrls, "baz", "/", "foo", "/", "bar", true, "", "1", host);
    DigitsKept(host);
    SlashOneSlash();
  }

  lemma ApiText(last: string)
    ensures "/api/v{version}/users/{user}" + last ==
            "/api/v" + Placeholder("version", false) + "/users/" + Placeholder("user", false) + last
  {
  }

  lemma ApiNames()
    ensures NoStructural("/api/v") && NoStructural("version") && NoStructural("/users/") && NoStructural("user")
    ensures NoStructural("/") && NoStructural("/name") && "version" != "user"
  {
  }

  lemma NameKept(host: Host)
    requires KeepsUnreserved(host.encodeURI)
    ensures host.encodeURI("shaunpersad") == "shaunpersad"
  {
    KeepsText(host, "shaunpersad");
  }

  lemma GetUserPath()
    ensures UriWithParams.TrimTrailingSlash("/api/v" + "1" + "/users/" + "2" + "/") == "/api/v1/users/2"
  {
    assert "/api/v" + "1" + "/users/" + "2" + "/" == "/api/v1/users/2/";
  }

  lemma GetNamePath()
    ensures UriWithParams.TrimTrailingSlash("/api/v" + "1" + "/users/" + "shaunpersad" + "/name") == "/api/v1/users/shaunpersad/name"
  {
    assert "/api/v" + "1" + "/users/" + "shaunpersad" + "/name" == "/api/v1/users/shaunpersad/name";
  }

  /** test/createRouter.js:457-462: the route `/` of the nested groups, with constraints that accept the values. */
  lemma UrlNestedGetUser(namedUrls: map<string, NamedUrl>, host: Host)
    requires "base.version.users.getUser" in namedUrls
    requires namedUrls["base.version.users.getUser"].uri == "/api/v{version}/users/{user}/"
    requires var pats := namedUrls["base.version.users.getUser"].patterns;
             && ("version" in pats ==> pats["version"].test(Some("1")))
             && ("user" in pats ==> pats["user"].test(Some("2")))
    requires KeepsUnreserved(host.encodeURI)
    ensures UrlResult(namedUrls, "base.version.users.getUser", [Entry("version", Some("1")), Entry("user", Some("2"))], host) ==
            Success("/api/v1/users/2")
  {
    ApiText("/");
    ApiNames();
    UrlBothGiven(namedUrls, "base.version.users.getUser", "/api/v", "version", "/users/", "user", false, "/", "1", "2", host);
    DigitsKept(host);
    GetUserPath();
  }

  /** test/createRouter.js:464-469: the route `/name`, whose own constraint on `user` accepts a word. */
  lemma UrlNestedGetName(namedUrls: map<string, NamedUrl>, host: Host)
    requires "base.version.users.getName" in namedUrls
    requires namedUrls["base.version.users.getName"].uri == "/api/v{version}/users/{user}/name"
    requires var pats := namedUrls["base.version.users.getName"].patterns;
             && ("version" in pats ==> pats["version"].test(Some("1")))
             && ("user" in pats ==> pats["user"].test(Some("shaunpersad")))
    requires KeepsUnreserved(host.encodeURI)
    ensures UrlResult(namedUrls, "base.version.users.getName", [Entry("version", Some("1")), Entry("user", Some("shaunpersad"))], host) ==
            Success("/api/v1/users/shaunpersad/name")
  {
    ApiText("/name");
    ApiNames();
    UrlBothGiven(namedUrls, "base.version.users.getName", "/api/v", "version", "/users/", "user", false, "/name", "1", "shaunpersad", host);
    DigitsKept(host);
    NameKept(host);
    GetNamePath();
  }

  /**
   * A registered pattern without placeholders: the URL is the pattern, less
   * one trailing '/', followed by every defined value as the query string.
   */
  lemma UrlWithoutPlaceholders(namedUrls: map<string, NamedUrl>, name: string, params: Params, host: Host)
    requires name in namedUrls && NoStructural(namedUrls[name].uri)
    ensures UrlResult(namedUrls, name, params, host) ==
            Success(UriWithParams.TrimTrailingSlash(namedUrls[name].uri) + Query(Defined(params), host))
  {
    var t := namedUrls[name].uri;
    UriWithParams.LiteralsCopied(Start, "", params, t, namedUrls[name].patterns, host);
    assert "" + t == t;
  }

  lemma KeepsQueryText(host: Host)
    requires KeepsUnreserved(host.encodeURIComponent)
    ensures host.encodeURIComponent("page") == "page" && host.encodeURIComponent("2") == "2"
  {
    assert forall i | 0 <= i < |"page"| :: IsUnreserved("page"[i]);
    assert forall i | 0 <= i < |"2"| :: IsUnreserved("2"[i]);
  }

  lemma PageQuery(host: Host)
    requires KeepsUnreserved(host.encodeURIComponent)
    ensures Query([("page", "2")], host) == "?page=2"
  {
    KeepsQueryText(host);
    assert "page" + "=" + "2" == "page=2";
    assert Assignments([("page", "2")], host) == ["page=2"];
    assert "?" + Strings.Join(["page=2"], "&") == "?page=2";
  }

  /**
   * test/createRouter.js:485-524: `bar.baz` is the group prefix `/foo` joined
   * with the route's default uri `/`, so it is registered as `/foo/`; `index` is `/`.
   */
  lemma UrlPlainRoutes(namedUrls: map<string, NamedUrl>, host: Host)
    requires "bar.baz" in namedUrls && namedUrls["bar.baz"].uri == "/foo/"
    requires "index" in namedUrls && namedUrls["index"].uri == "/"
    ensures UrlResult(namedUrls, "bar.baz", [], host) == Success("/foo")
    ensures UrlResult(namedUrls, "index", [], host) == Success("/")
  {
    PlainRoute(namedUrls, "bar.baz", host);
    PlainRoute(namedUrls, "index", host);
    assert "/foo" + "/" == "/foo/";
  }

  /** A value no placeholder uses goes to the query string. */
  lemma UrlLeftoverQuery(namedUrls: map<string, NamedUrl>, host: Host)
    requires "index" in namedUrls && namedUrls["index"].uri == "/"
    requires KeepsUnreserved(host.encodeURIComponent)
    ensures UrlResult(namedUrls, "index", [Entry("page", Some("2"))], host) == Success("/?page=2")
  {
    assert NoStructural("/");
    UrlWithoutPlaceholders(namedUrls, "index", [Entry("page", Some("2"))], host);
    assert Defined([Entry("page", Some("2"))]) == [("page", "2")];
    PageQuery(host);
    assert UriWithParams.TrimTrailingSlash("/") + "?page=2" == "/?page=2";
  }

  lemma PlainRoute(namedUrls: map<string, NamedUrl>, name: string, host: Host)
    requires name in namedUrls && NoStructural(namedUrls[name].uri)
    ensures UrlResult(namedUrls, name, [], host) == Success(UriWithParams.TrimTrailingSlash(namedUrls[name].uri))
  {
    UrlWithoutPlaceholders(namedUrls, name, [], host);
    var path := UriWithParams.TrimTrailingSlash(namedUrls[name].uri);
    assert path + "" == path;
  }

  // ---------------------------------------------------------------------------
  // Groups: names, URIs and constraints accumulate.

  /** The registered name is the group namespaces followed by the route's own name. */
  lemma RegisteredName(names: seq<string>, namespace: string, name: string)
    ensures Strings.Concat(names + [namespace] + [name]) == Strings.Concat(names) + namespace + name
  {
    Strings.ConcatAppend(names + [namespace], [name]);
    Strings.ConcatAppend(names, [namespace]);
    assert Strings.Concat([namespace]) == namespace + "" && Strings.Concat([name]) == name + "";
  }

  lemma NestedNames(last: string)
    ensures Strings.Concat([] + ["base."] + ["version."] + ["users."] + [last]) == "base.version.users." + last
  {
    RegisteredName([] + ["base."] + ["version."], "users.", last);
    RegisteredName([] + ["base."], "version.", "users.");
    RegisteredName([], "base.", "version.");
    assert "" + "base." + "version." + "users." == "base.version.users.";
  }

  /** Adding a layer merges it over the rest. */
  lemma MergeSnoc(layers: seq<Patterns>, last: Patterns)
    ensures MergePatterns(layers + [last]) == MergePatterns(layers) + last
  {
    assert (layers + [last])[..|layers|] == layers;
  }

  lemma NestedConstraints(versionRule: Constraint, userRule: Constraint, own: Patterns)
    ensures MergePatterns([] + [map[]] + [map["version" := versionRule]] + [map["user" := userRule]] + [own]) ==
            map["version" := versionRule, "user" := userRule] + own
  {
    var l1: seq<Patterns> := [] + [map[]];
    var l2 := l1 + [map["version" := versionRule]];
    var l3 := l2 + [map["user" := userRule]];
    MergeSnoc([], map[]);
    MergeSnoc(l1, map["version" := versionRule]);
    MergeSnoc(l2, map["user" := userRule]);
    MergeSnoc(l3, own);
    GroupLayers(versionRule, userRule);
  }

  lemma GroupLayers(versionRule: Constraint, userRule: Constraint)
    ensures map[] + map["version" := versionRule] + map["user" := userRule] == map["version" := versionRule, "user" := userRule]
  {
  }

  /**
   * test/createRouter.js:394-455: three nested groups and two named routes.
   * Both names carry the three namespaces, both URIs the three prefixes, and
   * the constraints of the groups merge with the route's own, which wins.
   */
  method NestedGroups(versionRule: Constraint, userRule: Constraint, wordRule: Constraint, pathJoin: seq<string> -> string)
    returns (registry: Registry)
    ensures registry.namedUrls.Keys == {"base.version.users.getUser", "base.version.users.getName"}
    ensures registry.namedUrls["base.version.users.getUser"] ==
            NamedUrl(pathJoin(["/api", "v{version}", "/users/{user}", "/"]), map["version" := versionRule, "user" := userRule])
    ensures registry.namedUrls["base.version.users.getName"] ==
            NamedUrl(pathJoin(["/api", "v{version}", "/users/{user}", "/name"]), map["version" := versionRule, "user" := wordRule])
  {
    var router := CreateRouter();
    var api := router.Group("/api", "base.", map[]);
    var version := api.Group("v{version}", "version.", map["version" := versionRule]);
    var users := version.Group("/users/{user}", "users.", map["user" := userRule]);
    ghost var uris, names, patterns := users.uris, users.names, users.patterns;
    var _ := users.Route("/", "getUser", map[], pathJoin);
    var _ := users.Route("/name", "getName", map["user" := wordRule], pathJoin);
    registry := router.registry;
    NestedRegistry(registry.namedUrls, uris, names, patterns, versionRule, userRule, wordRule, pathJoin);
  }

  lemma NestedRegistry(namedUrls: map<string, NamedUrl>, uris: seq<string>, names: seq<string>, patterns: seq<Patterns>,
                       versionRule: Constraint, userRule: Constraint, wordRule: Constraint, pathJoin: seq<string> -> string)
    requires uris == [] + ["/api"] + ["v{version}"] + ["/users/{user}"]
    requires names == [] + ["base."] + ["version."] + ["users."]
    requires patterns == [] + [map[]] + [map["version" := versionRule]] + [map["user" := userRule]]
    requires namedUrls == map[][Strings.Concat(names + ["getUser"]) := NamedUrl(pathJoin(uris + ["/"]), MergePatterns(patterns + [map[]]))]
                                [Strings.Concat(names + ["getName"]) := NamedUrl(pathJoin(uris + ["/name"]), MergePatterns(patterns + [map["user" := wordRule]]))]
    ensures namedUrls.Keys == {"base.version.users.getUser", "base.version.users.getName"}
    ensures namedUrls["base.version.users.getUser"] ==
            NamedUrl(pathJoin(["/api", "v{version}", "/users/{user}", "/"]), map["version" := versionRule, "user" := userRule])
    ensures namedUrls["base.version.users.getName"] ==
            NamedUrl(pathJoin(["/api", "v{version}", "/users/{user}", "/name"]), map["version" := versionRule, "user" := wordRule])
  {
    NestedNames("getUser");
    NestedNames("getName");
    assert "base.version.users." + "getUser" == "base.version.users.getUser";
    assert "base.version.users." + "getName" == "base.version.users.getName";
    NestedUri("/");
    NestedUri("/name");
    NestedConstraints(versionRule, userRule, map[]);
    NestedConstraints(versionRule, userRule, map["user" := wordRule]);
    OverrideUser(versionRule, userRule, wordRule);
    TwoEntries(namedUrls, "base.version.users.getUser", "base.version.users.getName",
               NamedUrl(pathJoin(uris + ["/"]), MergePatterns(patterns + [map[]])),
               NamedUrl(pathJoin(uris + ["/name"]), MergePatterns(patterns + [map["user" := wordRule]])));
  }

  lemma NestedUri(last: string)
    ensures [] + ["/api"] + ["v{version}"] + ["/users/{user}"] + [last] == ["/api", "v{version}", "/users/{user}", last]
  {
  }

  lemma OverrideUser(versionRule: Constraint, userRule: Constraint, wordRule: Constraint)
    ensures map["version" := versionRule, "user" := userRule] + map[] == map["version" := versionRule, "user" := userRule]
    ensures map["version" := versionRule, "user" := userRule] + map["user" := wordRule] == map["version" := versionRule, "user" := wordRule]
  {
  }

  lemma TwoEntries(m: map<string, NamedUrl>, k1: string, k2: string, e1: NamedUrl, e2: NamedUrl)
    requires k1 != k2 && m == map[][k1 := e1][k2 := e2]
    ensures m.Keys == {k1, k2} && m[k1] == e1 && m[k2] == e2
  {
  }
}
