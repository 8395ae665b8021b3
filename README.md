# express-laravel-router: the route-pattern layer in Dafny

express-laravel-router lets an Express application declare routes with
Laravel-style patterns: `/users/{id}` has a required parameter `id`, and
`/users/{id?}` makes it optional. Per-parameter regular-expression
constraints can be attached. Routes sit in groups that share a URI prefix, a
name prefix (the namespace) and constraints. A named route can be turned back
into a URL with `router.url(name, params)`.

This project models the part of the library that works on patterns:

- `laravelToExpress` rewrites a pattern into Express syntax: `{id}` becomes
  `:id`, a constraint becomes an inline group `(\d+)` and an optional
  parameter gets a trailing `?`.
- `trimRegex` turns a constraint's string form such as `/^\d+$/` into the bare
  fragment `\d+`.
- `paramsFromUri` lists a pattern's optional and required parameter names.
- `uriWithParams` expands a pattern with a value map. It checks every
  placeholder, substitutes the encoded values, drops one trailing `/`, and
  serialises the remaining values as a query string.
- `removeLastCharacter`.
- The pattern side of `createRouter`: routes and groups accumulate URI pieces,
  name pieces and constraint layers. A named route enters a registry shared by
  all routers of one `createRouter` call, and `url` expands a registered name.

The three scanners share one lexical state, `Syntax.Cursor`. It holds
`parsingParam`, `currentParam` and `optional`, and `Syntax.Advance` updates it
per character. Each source loop is a `method` with a `for` loop over the
pattern, proved equal to a recursive function of the pattern. For example,
`LaravelToExpress.Compile`, `ParamsFromUri.Collect`, `UriWithParams.Expansion`
and `Router.UrlResult` play this role.

As an independent reference, a pattern can be written as a list of segments:
literal text or a placeholder (`Syntax.Segment`, printed by `Syntax.Render`).
For every well-formed segment list, each scanner is proved to agree with a
segment-by-segment description of what it should produce.

Modelling choices:

- A JavaScript value object is an ordered list of `Entry(key, value)`. The list
  keeps insertion order, and a value of `None` stands for `undefined`.
- Assigning `undefined` to a key keeps the key's position, or appends the key
  when it is new.
- Constraints are `Values.Constraint(text, test)`: the regular expression's
  string form and its `test` function. The expanders also call `test` on
  `undefined`.
- The host functions the layer calls are parameters of type `Values.Host`:
  `encodeURI`, `encodeURIComponent` and `qs.stringify`. `path.join` is a
  parameter of `Router.Router.Route`.
- The `options` object that `uriWithParams` updates in place is the class
  `UriWithParams.QueryOptions`.
- The route registry (`namedUrls`) is the class `Router.Registry`, shared by
  reference between a router and its groups.
- A `?` is structural wherever it stands. In all three scanners it is never
  copied and sets the optional flag, even outside braces or in the middle of a
  name. Every '{' clears the flag, so a '?' outside braces only affects a '}'
  reached before the next '{' (lib/laravelToExpress.js:35-37, lib/paramsFromUri.js:30-32,
  lib/uriWithParams.js:43-45). `LaravelToExpress.StrayQuestionMarks` and
  `ParamsFromUri.QuestionInsideName` state the consequences.

## Model

| member | source | states |
|---|---|---|
| Strings.RemoveLastCharacter | lib/removeLastCharacter.js:8-11 | the result is the input without its last character (the prefix that, extended by that character, gives the input back); the empty string stays empty |
| TrimRegex.RemoveFirstCharacter | lib/trimRegex.js:3-6 | the input is its first character followed by the result; the empty string stays empty |
| TrimRegex.TrimRegex | lib/trimRegex.js:18-36 | the four conditional reassignments, in source order, compute `Trimmed`: a leading '/' and then '^' go, then a trailing '/' and then '$', each at most once |
| TrimRegex.TrimFrontSuffix | lib/trimRegex.js:22-27 | the two leading steps leave a suffix of the input, at most two characters shorter |
| TrimRegex.TrimBackPrefix | lib/trimRegex.js:28-33 | the two trailing steps leave a prefix of their input, at most two characters shorter |
| TrimRegex.TrimRegexWindow | lib/trimRegex.js:18-36 | the result is a contiguous window of the input: 0, 1 or 2 characters dropped in front and at most 2 at the end |
| TrimRegex.TrimRegexLength | lib/trimRegex.js:18-36 | at most four characters go |
| TrimRegex.TrimRegexUnchanged | lib/trimRegex.js:18-36 | the input comes back unchanged if and only if it neither starts with '/' or '^' nor ends with '/' or '$' |
| TrimRegex.TrimAnchoredLiteral | lib/trimRegex.js:18-36 | the string form `/^f$/` of an anchored literal trims to exactly `f`, for every `f` |
| TrimRegex.TrimExample | test/laravelToExpress.js:42 | `/^[a-zA-Z]*$/` trims to `[a-zA-Z]*` |
| Syntax.OptionalAfter | lib/laravelToExpress.js:20-37 | after scanning `s` the optional flag is set exactly when a '?' occurs after the last '{' of `s` (or `s` has no '{' and the flag was set before) |
| Syntax.NameStaysPlain | lib/laravelToExpress.js:38-41 | a gathered parameter name never contains '{', '}' or '?' |
| Syntax.RunLiteral | lib/laravelToExpress.js:38-43 | text without '{', '}' or '?' outside a parameter leaves the scanner state alone |
| Syntax.RunName | lib/laravelToExpress.js:38-41 | such text inside a parameter is appended to the name |
| Syntax.PlaceholderInside | lib/laravelToExpress.js:20-37 | after `{name` and an optional `?` the scanner is inside a parameter with that name and flag |
| Syntax.RunSegment | lib/laravelToExpress.js:17-45 | after a whole well-formed segment the scanner is between parameters again |
| LaravelToExpress.LaravelToExpress | lib/laravelToExpress.js:10-48 | the loop's result is `Compile(Start, uri, patterns)` |
| LaravelToExpress.CompileAppend | lib/laravelToExpress.js:17-45 | converting two pieces one after the other gives the two conversions one after the other, the second from the state the first reached |
| LaravelToExpress.CompileVerbatim | lib/laravelToExpress.js:38-43 | text without '{', '}' or '?' is copied unchanged, inside or outside a parameter |
| LaravelToExpress.CompileSnoc | lib/laravelToExpress.js:19-44 | what the last character adds depends only on the state reached; without constraints a '{' becomes ':', a '?' is dropped and a '}' becomes '?' exactly when the flag is set |
| LaravelToExpress.QuestionMarkNotCopied | lib/laravelToExpress.js:35-37 | a '?' adds nothing to the output and only sets the flag the next '}' reads |
| LaravelToExpress.OpenResetsOptional | lib/laravelToExpress.js:20-24 | what follows a '{' does not depend on the flag or parse state before it |
| LaravelToExpress.CompileSegment | lib/laravelToExpress.js:20-34 | a placeholder `{n}` / `{n?}` becomes `:n`, then the trimmed constraint in parentheses if `n` is constrained, then '?' if optional; a literal is copied |
| LaravelToExpress.CompilePlaceholderOpen | lib/laravelToExpress.js:20-24 | the `{name` and optional `?` of a placeholder produce ':' and the name |
| LaravelToExpress.CompileRendered | lib/laravelToExpress.js:10-48 | on every well-formed pattern the character scan equals the segment-by-segment conversion `Express` |
| LaravelToExpress.ExpressSkeleton | lib/laravelToExpress.js:20-43 | with required, unconstrained placeholders only, the Express path is the pattern's literal text with each placeholder replaced by `:name` |
| LaravelToExpress.CompileThen | lib/laravelToExpress.js:17-45 | a segment at the head of a pattern converts on its own, and the scan continues between parameters |
| LaravelToExpress.ConvertsOneParam | test/laravelToExpress.js:11-22 | `a{n}` becomes `a:n` and `a{n?}` becomes `a:n?`, for all literal `a` and names `n` |
| LaravelToExpress.ConvertsTwoParams | test/laravelToExpress.js:12-21 | `a{b}c{d}` becomes `a:bc:d` |
| LaravelToExpress.ConvertsThreeParams | lib/laravelToExpress.js:25-28 | `/{x}/{y}/{z}` becomes `/:x` `/:y` `/:z`, each followed by its constraint group |
| LaravelToExpress.ConvertsPlainPath | test/laravelToExpress.js:9-17 | `/foo` is kept |
| LaravelToExpress.ConvertsExamplesWithOneParam | test/laravelToExpress.js:11-22 | `/foo/{bar}` becomes `/foo/:bar` and `/foo/{bar?}` becomes `/foo/:bar?` |
| LaravelToExpress.ConvertsExampleWithTwoParams | test/laravelToExpress.js:13-21 | `/foo/{bar}/baz/{qux}` becomes `/foo/:bar/baz/:qux` |
| LaravelToExpress.GroupOfAnchored | lib/laravelToExpress.js:26-28 | a name constrained by `/^f$/` gets the group `(f)` |
| LaravelToExpress.ConvertsThreeAnchored | lib/laravelToExpress.js:25-31 | three names constrained by anchored literals get the bare fragments as groups |
| LaravelToExpress.ConvertsExampleWithConstraints | test/laravelToExpress.js:38-53 | `/{foo}/{bar}/{baz}` with the three constraints becomes `/:foo([a-zA-Z]*)/:bar(\d+)/:baz(\w+)`, whatever the constraints' tests do |
| LaravelToExpress.QuestionInsideName | lib/laravelToExpress.js:35-41 | `{x?y}` is the optional parameter `xy`: a '?' anywhere inside braces is dropped from the name |
| LaravelToExpress.QuestionOutsideParam | lib/laravelToExpress.js:35-37 | a '?' outside braces is dropped from the output |
| LaravelToExpress.StrayQuestionMarks | lib/laravelToExpress.js:35-37 | `/a?b` becomes `/ab`, and `{a?b}` becomes `:ab?` |
| ParamsFromUri.ParamsFromUri | lib/paramsFromUri.js:7-42 | the loop's two lists are `Collect(uri)`: at each '}' the current name is pushed to the optional list if the flag is set and to the required list otherwise |
| ParamsFromUri.ClosingsAppend | lib/paramsFromUri.js:18-39 | the names of two pieces are those of the first followed by those of the second, from the state the first reached |
| ParamsFromUri.OneNamePerClose | lib/paramsFromUri.js:25-29 | the two lists together have exactly one entry per '}' of the pattern |
| ParamsFromUri.NameAtClose | lib/paramsFromUri.js:21-32 | a '}' after text `a` pushes onto the optional list exactly when a '?' occurs in `a` after its last '{' |
| ParamsFromUri.NamesArePlain | lib/paramsFromUri.js:33-37 | no listed name contains '{', '}' or '?' |
| ParamsFromUri.NoCloseNoNames | lib/paramsFromUri.js:25-29 | a pattern without '}' yields no names |
| ParamsFromUri.LiteralTextIrrelevant | lib/paramsFromUri.js:33-37 | literal text between parameters changes neither list |
| ParamsFromUri.ClosingsThen | lib/paramsFromUri.js:18-39 | a segment at the head of a pattern contributes its own name, if it is a placeholder of that optionality, before the rest |
| ParamsFromUri.ClosingsPlaceholder | lib/paramsFromUri.js:21-29 | a placeholder on its own lists its name once, on the list of its optionality |
| ParamsFromUri.CollectRendered | lib/paramsFromUri.js:7-42 | on every well-formed pattern the lists are the optional and the required placeholder names, each in left-to-right order |
| ParamsFromUri.CollectsTwoRequiredOneOptional | lib/paramsFromUri.js:7-42 | `a{x}b{y}c{z?}` yields optional `[z]` and required `[x, y]` |
| ParamsFromUri.CollectsUserFriendPattern | test/paramsFromUri.js:9-20 | `/users/{userId}/friends/{friendId}/{username?}` yields optional `[username]` and required `[userId, friendId]` |
| ParamsFromUri.QuestionInsideName | lib/paramsFromUri.js:26-37 | `{x?y}` yields the optional name `xy` |
| ParamsFromUri.CollectsNameAroundQuestionMark | lib/paramsFromUri.js:26-37 | `{a?b}` yields the optional name `ab` |
| Values.GetFirst | lib/uriWithParams.js:29 | `params[k]` is the value of the first entry named `k`, and undefined when no entry has that name |
| Values.FirstIndex | lib/uriWithParams.js:29 | the position of the first entry named `k`: it has that name and no entry before it does |
| Values.GetConsume | lib/uriWithParams.js:39 | after `params[k] = undefined`, `k` reads as undefined and every other key as before |
| Values.DefinedConsume | lib/uriWithParams.js:39 | the defined pairs after consuming `k` are the defined pairs before, minus those with key `k`, in order |
| UriWithParams.Check | lib/uriWithParams.js:29-35 | no error if and only if the value is defined or the placeholder optional, and the constraint, if any, accepts the value; otherwise the first failing check in source order is reported |
| UriWithParams.TrimTrailingSlash | lib/uriWithParams.js:56-58 | one trailing '/' goes (the result plus '/' is the input) only when the input is longer than one character; otherwise the input is kept |
| UriWithParams.QueryOptions.constructor | lib/uriWithParams.js:12 | the options object holds the given prefix flag and settings |
| UriWithParams.UriWithParams | lib/uriWithParams.js:12-67 | the result is `Expansion` of the arguments; `options.addQueryPrefix` becomes true once the scan succeeds and is untouched when an error is raised; other settings are unchanged |
| UriWithParams.ExpandAppend | lib/uriWithParams.js:21-54 | expanding two pieces is expanding the first and, unless it failed, the second from where the first ended |
| UriWithParams.ExpandTracksRun | lib/uriWithParams.js:21-54 | a successful expansion ends in the lexical state the shared scanner reaches |
| UriWithParams.LiteralsCopied | lib/uriWithParams.js:46-51 | literal text outside a parameter is copied to the path |
| UriWithParams.NameNotCopied | lib/uriWithParams.js:46-49 | name characters inside a parameter are not copied |
| UriWithParams.ConsumesClosedNames | lib/uriWithParams.js:36-39 | after a successful scan every placeholder name reads as undefined, and every other name keeps its value |
| UriWithParams.LeftoverPairs | lib/uriWithParams.js:36-39 | the defined values left are those of the input whose names were not gone before and are not placeholder names, in input order |
| UriWithParams.ExpansionResult | lib/uriWithParams.js:12-67 | the call fails exactly when the scan fails, with its error; otherwise the path less one trailing '/' is followed by the serialised leftovers, whose defined values are the caller's minus every placeholder name |
| UriWithParams.ExpandPlaceholder | lib/uriWithParams.js:24-42 | a placeholder fails with its check's error, or appends the encoded value and consumes the name |
| UriWithParams.ExpandThen | lib/uriWithParams.js:21-54 | a segment at the head of a pattern expands on its own and leaves the scanner between parameters |
| UriWithParams.ExpandRendered | lib/uriWithParams.js:21-54 | on every well-formed pattern the character scan equals the segment-by-segment expansion `ExpandSegs`: same errors, same path, same remaining values |
| UriWithParams.AgreeOnNames | lib/uriWithParams.js:29-38 | two value maps that agree on the placeholder names give the same path and the same verdicts |
| UriWithParams.ConsumeUnused | lib/uriWithParams.js:39 | consuming a name no later placeholder uses changes neither the path nor the verdicts |
| UriWithParams.FillSkeleton | lib/uriWithParams.js:36-51 | the filled path is the pattern's literal text with each placeholder replaced by the encoded value of its name |
| UriWithParams.ExpandDistinct | lib/uriWithParams.js:21-54 | with distinct names, expansion succeeds if and only if every placeholder passes its checks against the caller's value, and the path is the literals with each placeholder replaced by its encoded value |
| UriWithParams.ExpandDistinctFailure | lib/uriWithParams.js:28-35 | with distinct names, a failure reports the error of the first placeholder that does not pass, all earlier ones passing |
| UriWithParams.ConsumedStaysMissing | lib/uriWithParams.js:29-31 | once a name has been consumed, a later required placeholder of that name cannot be filled |
| UriWithParams.RepeatedRequiredFails | lib/uriWithParams.js:29-39 | a pattern whose required placeholder repeats an earlier name never expands successfully, whatever the values |
| UriWithParams.RepeatedNameMissing | lib/uriWithParams.js:29-39 | `{n}t{n}` with a valid value for `n` fails with "no value for the non-optional param n" |
| UriWithParams.ExpansionOfPattern | lib/uriWithParams.js:12-67 | for a pattern with distinct names the call succeeds exactly when every placeholder passes; the path is then the filled pattern less one trailing '/', and the query serialises the caller's values minus every placeholder name |
| Router.Registry.constructor | lib/createRouter.js:25 | a fresh registry is empty |
| Router.MergePatterns | lib/createRouter.js:52 | the merged constraints have a name exactly when some layer has it |
| Router.MergeLastWins | lib/createRouter.js:52 | a name takes the constraint of the last layer that has it |
| Router.MergeSnoc | lib/createRouter.js:52 | adding a layer merges it over the layers before |
| Router.Assignments | lib/createRouter.js:154-157 | one `encodeURIComponent(key)=encodeURIComponent(value)` per leftover pair, in order |
| Router.Query | lib/createRouter.js:151-160 | the query string is empty exactly when no defined value is left |
| Router.ConsumeAgrees | lib/createRouter.js:127-130 | the working copy only ever forgets values, so every value it still has is the caller's |
| Router.Router.constructor | lib/createRouter.js:29-36 | a new router has no URI pieces, name pieces or constraint layers, and uses the given registry |
| Router.Router.Route | lib/createRouter.js:49-70 | the route is mounted on `laravelToExpress` of the joined URI with the merged constraints; a non-empty name enters the registry under the concatenated namespaces and name, replacing any earlier entry; an empty name leaves the registry as it was |
| Router.Router.Group | lib/createRouter.js:81-88 | the new router shares the registry and extends the URI, name and constraint lists by the group's own piece |
| Router.Router.Url | lib/createRouter.js:98-163 | the result is `UrlResult`, although the loop checks the working copy and encodes the caller's value |
| Router.CreateRouter | lib/createRouter.js:23-36 | a new router with no groups and a fresh, empty registry |
| Router.UrlAgreesWithUriWithParams | lib/createRouter.js:98-163 | an unknown name fails; for a registered name `url` fails exactly when `uriWithParams` does, with the same error, builds the same path, and its query lists the caller's defined values minus the placeholder names, in order |
| Router.RouteAndUrlShareLiterals | lib/createRouter.js:63-70 | for required, distinct, unconstrained placeholders, the Express path a registered route is mounted on and the URL `url` builds for it share the literal text: `:name` in the one is the encoded value of `name` in the other; `url` succeeds exactly when every placeholder name has a value, and the query holds the other defined values |
| Router.UrlOfPattern | lib/createRouter.js:98-163 | for a pattern with distinct names `url` succeeds exactly when every placeholder passes; the URL is the filled pattern less one trailing '/', followed by the query of the unused values |
| Router.UrlTwoPlaceholders | lib/createRouter.js:112-149 | for `a{x}b{y}c` / `a{x}b{y?}c` and values for those names only, the first failing check is the error; otherwise the encoded values are put in place and one trailing '/' goes |
| Router.ExpandTwoPlaceholders | lib/createRouter.js:119-133 | the two checks run in pattern order, and the first failure is the result |
| Router.NoLeftovers | lib/createRouter.js:151-152 | nothing is left over when every key is a placeholder name |
| Router.UrlBothGiven | lib/createRouter.js:119-133 | values for both placeholders that the constraints accept are both put in place |
| Router.UrlFirstGiven | lib/createRouter.js:119-133 | with a value for the first placeholder only, the second is missing, or is dropped when optional |
| Router.UrlFillsParams | test/createRouter.js:527-549 | `/{foo}/{bar}` with foo 1 and bar 2 gives `/1/2` |
| Router.UrlMissingRequired | test/createRouter.js:551-576 | `/{foo}/{bar}` with only foo is the missing-value error for `bar` |
| Router.UrlSkipsOptional | test/createRouter.js:578-598 | `/{foo}/{bar?}` with only foo gives `/1` |
| Router.UrlNestedGetUser | test/createRouter.js:457-462 | `/api/v{version}/users/{user}/` with version 1 and user 2 gives `/api/v1/users/2` |
| Router.UrlNestedGetName | test/createRouter.js:464-469 | `/api/v{version}/users/{user}/name` with user `shaunpersad` gives `/api/v1/users/shaunpersad/name` |
| Router.UrlWithoutPlaceholders | lib/createRouter.js:147-160 | a pattern without placeholders gives itself, less one trailing '/', followed by every defined value as the query string |
| Router.UrlPlainRoutes | test/createRouter.js:485-524 | `bar.baz`, the prefix `/foo` joined with the default uri `/` and so registered as `/foo/`, gives `/foo` once the trailing '/' goes; `index` registered as `/` gives `/` |
| Router.UrlLeftoverQuery | lib/createRouter.js:151-160 | `/` with an unused value page 2 gives `/?page=2` |
| Router.PageQuery | lib/createRouter.js:154-159 | the leftover pair (page, 2) serialises to `?page=2` |
| Router.RegisteredName | lib/createRouter.js:51 | the registered name is the namespaces followed by the route's name |
| Router.NestedGroups | test/createRouter.js:394-455 | three nested groups and two named routes register exactly `base.version.users.getUser` and `base.version.users.getName`, with the joined URIs and the merged constraints, where the route's own constraint on `user` wins |
| Router.NestedConstraints | lib/createRouter.js:52 | the constraint layers of the nested groups merge to version and user, overridden by the route's own |
| Strings.ConcatAppend | lib/createRouter.js:51 | joining two lists of strings is joining each and concatenating |

## Left out

- The route's HTTP method, middleware stacks, `meta`, `mapActionToHandler`, `serve` and the `Proxy` wrapper are left out. They only pass values through to Express.
- Express itself is left out. `Router.Router.Route` returns the Express path it would mount the route on.
- `path.join` is not modelled. `Router.Router.Route` takes it as the parameter `pathJoin`, so URI normalisation is not captured.
- `encodeURI`, `encodeURIComponent`, `qs.stringify` and `RegExp.prototype.test` are not modelled. They are function-valued parameters. Concrete results assume only that the encoders keep unreserved characters, as section 2.3 of RFC 3986 requires.
- A constraint's `${regex}` string form is its `text` field. How a `RegExp` object prints is not modelled.
- The closure argument of `group` is left out. `Router.Router.Group` returns the child router instead of calling a closure with it.
- Options given as a bare string, and the defaults of route and group options, are left out. Callers pass every piece explicitly.
- JavaScript truthiness is not modelled. In JavaScript, a key inherited from `Object.prototype` (such as `constructor`) makes `patterns[name]` and `namedUrls[name]` truthy. The model treats only own keys as present.
- The model takes the values as strings that are already coerced. A number such as `1` stands for the string "1".
- `Object.keys` lists integer-like keys first in ascending order. The model keeps insertion order for all keys.
- `for (const character of uri)` iterates over code points. The model iterates over Dafny characters, so surrogate pairs are not captured.
- A constraint's `test` call can have side effects through a global regular expression's `lastIndex`. Those are left out.
- A string constraint is not modelled. `trimRegex` accepts a string, so `laravelToExpress` handles one. `uriWithParams` and `url`, however, call `.test` on it and throw a TypeError (lib/uriWithParams.js:32, lib/createRouter.js:123). In the model every `Constraint` has a `test`.
- `encodeURI` and `encodeURIComponent` throw a URIError on a lone surrogate (lib/uriWithParams.js:37, lib/createRouter.js:128, lib/createRouter.js:154-157). In the model the encoders never fail.
- `UriWithParams.ExpansionOfPattern` and `Router.UrlOfPattern` characterise only patterns whose placeholder names are distinct. For repeated names, `UriWithParams.RepeatedRequiredFails` states what happens instead.
