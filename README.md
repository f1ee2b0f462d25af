# CreamRoll routing core in Dafny

CreamRoll is a small C# web framework. Its core is request routing.

- A route template such as `/users/{id}` is compiled into literal and named
  segments.
- A URL path is matched against the template in two passes. The first pass
  checks every segment. The second pass binds the named segments into a
  shared parameter bag.
- Routes are kept in registration order. A request is offered to each route
  in turn. The first route whose method and path match and whose action
  reports success ends dispatch.

This project models that core and proves what it promises:

- `parameterized_path.dfy`: template compilation (`ParseSegments`, which fills
  an array) and the two-pass matcher (`TryMatch`, whose `ref` parameter bag is
  an input and an output).
- `route_server.dfy`: the newer `RouteServer<T>`. It has registration helpers,
  ordered dispatch over one shared parameter bag, the 404 missing-route
  fallback, and the header-defaulting rule.
- `route_server_base.dfy`: the older `RouteServerBase`. A path matches by exact
  text comparison, and each matching route gets a fresh, populated context.
  There is no fallback.
- `dynamic_dictionary.dfy`: the dynamic parameter dictionary.
- `header_map.dfy`: the header map and its `content-type` accessor.
- `strings.dfy`: the .NET string operations the code relies on. These are
  `Trim`, `Split`, `string.Join` and `Replace`, with their edge cases.
  For example, `"".Split('/')` is `[""]`.
- `indices.dfy`: positions in a sequence of per-route flags. Dispatch order is
  stated over these.
- `listener.dfy`: the parts of `HttpListenerRequest`, `HttpListenerResponse`
  and `IPrincipal` that the routers touch.
- `wrappers.dfy`: `Option`, `Result` and the `??` operator.

Dispatch is specified by functions of the route table.

- `FirstSuccess` is the first route that matches and whose action succeeds.
- `MatchedIndices` lists the routes that match, in order. These are the routes
  whose action runs.
- `Accumulated` is the shared parameter bag after the first `n` routes have
  been offered the request.

Each `ProcessRequestAsync` is proved to run exactly the actions of the
matching routes up to the first success. The newer server also returns the
bag that dispatch built, and answers 404 when every action it ran returned
false. The model's actions cannot throw; see "## Left out".

Four behaviours of the code are easy to overlook, and the model keeps them:

- A named segment accepts every component, the empty one included
  (`NamedPathSegment.DoesMatch`, CreamRoll/Queries/ParameterizedPath.cs:76-78). So
  `{x}` matches `/` and binds `x` to `""`.
- A matching route whose action returns false does not end dispatch
  (CreamRoll/Routing/RouteServer.cs:136-141). Later routes are still tried.
- An empty template is accepted (CreamRoll/Queries/ParameterizedPath.cs:31-46). It
  compiles to one literal segment with empty text.
- The older server compares the route path with `"/"` followed by the URL
  segments concatenated without a separator (CreamRoll/RouteServerBase.cs:93-94). So a
  route path with a `/` after its first character never matches
  (`NestedPathNeverMatches`).

## Model

| member | source | states |
|---|---|---|
| Wrappers.Coalesce | CreamRoll/Routing/RouteServer.cs:61-62 | `a ?? b ?? c` is the first present value, else the mandatory fallback |
| Strings.TrimStart | CreamRoll/Queries/ParameterizedPath.cs:12 | `TrimStart` returns a suffix of the input. The suffix is empty or starts outside the set, and every dropped character is in the set |
| Strings.TrimEnd | CreamRoll/Queries/ParameterizedPath.cs:12 | `TrimEnd` returns a prefix of the input. The prefix is empty or ends outside the set, and every dropped character is in the set |
| Strings.TrimShape | CreamRoll/Queries/ParameterizedPath.cs:12 | `Trim` is no longer than its input, neither starts nor ends with a trimmed character, and is empty only when every character of the input is trimmed |
| Strings.Split | CreamRoll/Queries/ParameterizedPath.cs:12 | `Split` always yields at least one piece, and no piece contains the separator |
| Strings.JoinLength | CreamRoll/Routing/RouteServer.cs:156 | `string.Join` starts with the first part, and its length is the parts' total length plus one separator between each neighbouring pair |
| Strings.ConcatLength | CreamRoll/RouteServerBase.cs:93 | `string.Join("", …)` starts with the first part and is exactly as long as all parts together |
| Strings.JoinSplit | CreamRoll/Queries/ParameterizedPath.cs:12 | joining the pieces of a split with the separator gives back the original text |
| Strings.SplitJoin | CreamRoll/Queries/ParameterizedPath.cs:12 | splitting a join of separator-free pieces gives back the pieces |
| Strings.SplitCount | CreamRoll/Queries/ParameterizedPath.cs:33-34 | a split yields one more piece than there are separators |
| Strings.SplitInjective | CreamRoll/Queries/ParameterizedPath.cs:12 | two texts with the same pieces are equal |
| Strings.TrimIgnoresSurrounding | CreamRoll/Queries/ParameterizedPath.cs:12 | extra trimmed characters around a text do not change its trimmed form |
| Strings.TrimIdempotent | CreamRoll/Queries/ParameterizedPath.cs:12 | trimming twice is trimming once |
| Strings.RemoveAll | CreamRoll/Routing/RouteServer.cs:156 | `Replace("/", "")` leaves no `/` and shortens the text by exactly the number of `/` it held |
| Strings.RemoveAllEach | CreamRoll/Routing/RouteServer.cs:156 | the `Select` over the URL segments strips each segment in place and keeps their number |
| Strings.RemoveAllAppend | CreamRoll/RouteServerBase.cs:93 | removing `/` from a concatenation removes it from each part |
| Strings.ConcatExcludes | CreamRoll/RouteServerBase.cs:93 | `string.Join("", …)` of `/`-free parts holds no `/` |
| ParameterizedPaths.Segment.Match | CreamRoll/Queries/ParameterizedPath.cs:64-82 | a named segment binds its name to the part; no other key changes, and no key is added except that name. A literal writes nothing |
| ParameterizedPaths.SegmentAcceptance | CreamRoll/Queries/ParameterizedPath.cs:60-78 | the first-pass test `DoesMatch`: a literal accepts exactly its own text, and a placeholder accepts every part, the empty one included |
| ParameterizedPaths.ClassifyCases | CreamRoll/Queries/ParameterizedPath.cs:36-42 | `Classify`, the compilation of one component: it becomes a placeholder iff its first character is `{`. A literal keeps the component's text, and a placeholder's name is shorter than the component and neither starts nor ends with a brace (the `Trim('{', '}')` of line 73) |
| ParameterizedPaths.ParameterizedPath.constructor | CreamRoll/Queries/ParameterizedPath.cs:6-9 | the object keeps the template text and the segments compiled from that same text |
| ParameterizedPaths.ParameterizedPath.ParseSegments | CreamRoll/Queries/ParameterizedPath.cs:31-46 | the loop fills a fresh array with the classification of each component of the trimmed template |
| ParameterizedPaths.ParseComponentwise | CreamRoll/Queries/ParameterizedPath.cs:31-46 | there is one segment per `/`-separated component, so the count is the number of `/` plus one. A segment is named iff its component starts with `{`. A named segment's name is the component with `{`/`}` trimmed, and a literal is the component itself |
| ParameterizedPaths.ParameterizedPath.TryMatch | CreamRoll/Queries/ParameterizedPath.cs:11-29 | the result is whether the counts agree and every segment accepts its part. A count mismatch is false. Any rejection leaves the bag as it was, and a success binds the segments in order |
| ParameterizedPaths.BindAllKeepsOtherKeys | CreamRoll/Queries/ParameterizedPath.cs:24-26 | a key that no placeholder names keeps its entry, or stays absent, through the bind pass |
| ParameterizedPaths.BindAllLastWins | CreamRoll/Queries/ParameterizedPath.cs:24-26 | each placeholder's name ends up bound to its own part unless a later placeholder has the same name; the later position wins |
| ParameterizedPaths.BindAllKeys | CreamRoll/Queries/ParameterizedPath.cs:24-26 | after binding, the keys are the old keys plus the placeholder names |
| ParameterizedPaths.ComponentsIgnoreSurroundingSlashes | CreamRoll/Queries/ParameterizedPath.cs:12 | leading and trailing `/` change neither the components, the compiled segments nor the match result |
| ParameterizedPaths.RootIsEmptyPath | CreamRoll/Queries/ParameterizedPath.cs:12 | `/` and the empty path both have the single empty component |
| ParameterizedPaths.EmptyTemplateAccepted | CreamRoll/Queries/ParameterizedPath.cs:31-46 | the empty template is not rejected: it compiles to one empty literal, which matches both `/` and the empty path |
| ParameterizedPaths.LiteralTemplateMatchesIff | CreamRoll/Queries/ParameterizedPath.cs:11-46 | a template of literals only matches a path iff both trim to the same text |
| ParameterizedPaths.TwoComponents | CreamRoll/Queries/ParameterizedPath.cs:12 | `/a/b` splits into the components `a` and `b` |
| ParameterizedPaths.ClassifyPlaceholder | CreamRoll/Queries/ParameterizedPath.cs:72-74 | a braced component compiles to a placeholder named by the text inside the braces |
| ParameterizedPaths.ParseLiteralThenPlaceholder | CreamRoll/Queries/ParameterizedPath.cs:31-46 | `/lit/{name}` compiles to a literal followed by a placeholder |
| ParameterizedPaths.LiteralThenPlaceholder | CreamRoll/Queries/ParameterizedPath.cs:11-29 | `/lit/{name}` matches `/lit/value` and binds exactly `name` to `value` |
| ParameterizedPaths.PlaceholderMatchesRoot | CreamRoll/Queries/ParameterizedPath.cs:76-82 | a placeholder accepts the empty component: `{name}` matches `/` and binds `name` to `""` |
| Indices.PositionsOrdered | CreamRoll/Routing/RouteServer.cs:136-141 | the positions listed are below the bound and strictly increasing |
| Indices.PositionsExactly | CreamRoll/Routing/RouteServer.cs:136-141 | a position is listed iff its flag is set |
| Indices.FirstSetIsFirst | CreamRoll/Routing/RouteServer.cs:136-141 | the first set flag is set and none before it is; when there is none, no flag is set |
| Indices.FirstSetBoundsPositions | CreamRoll/Routing/RouteServer.cs:136-141 | when flag `a` stops the scan, the first stopping flag is at or before `a`, and every position run up to it is at most `a` |
| Routing.Route.constructor | CreamRoll/Routing/RouteServer.cs:178-183 | a route keeps its method, action and raw path, plus a fresh path object compiled from that same raw path |
| Routing.RouteServer.constructor | CreamRoll/Routing/RouteServer.cs:20-23 | a new server has no routes, the default content type `text/plain; charset=utf-8` and the default encoding UTF-8 |
| Routing.RouteServer.Delete | CreamRoll/Routing/RouteServer.cs:75-77 | appends one `DELETE` route for the path and action at the end. Earlier routes and the defaults are unchanged |
| Routing.RouteServer.Get | CreamRoll/Routing/RouteServer.cs:79-81 | appends one `GET` route at the end. Earlier routes and the defaults are unchanged |
| Routing.RouteServer.Head | CreamRoll/Routing/RouteServer.cs:83-85 | appends one `HEAD` route at the end. Earlier routes and the defaults are unchanged |
| Routing.RouteServer.Options | CreamRoll/Routing/RouteServer.cs:87-89 | appends one `OPTIONS` route at the end. Earlier routes and the defaults are unchanged |
| Routing.RouteServer.Post | CreamRoll/Routing/RouteServer.cs:91-93 | appends one `POST` route at the end. Earlier routes and the defaults are unchanged |
| Routing.RouteServer.Put | CreamRoll/Routing/RouteServer.cs:95-97 | appends one `PUT` route at the end. Earlier routes and the defaults are unchanged |
| Routing.RouteServer.Patch | CreamRoll/Routing/RouteServer.cs:99-101 | appends one `PATCH` route at the end. Earlier routes and the defaults are unchanged |
| Routing.RouteServer.AddRoute | CreamRoll/Routing/RouteServer.cs:103-105 | the route list grows by exactly the given route at its end |
| Routing.RouteServer.ProcessRequestAsync | CreamRoll/Routing/RouteServer.cs:124-145 | when some route succeeds, exactly the matching routes up to the first success run their action, the bag is the one built up to there, and the response is untouched. Otherwise every matching route runs, and the response gets 404 with its output closed and its headers unchanged |
| Routing.RouteServer.IsRouteMatch | CreamRoll/Routing/RouteServer.cs:147-153 | the route is accepted iff the methods agree and the path matches. A method mismatch rejects it without consulting the path, and leaves the bag untouched |
| Routing.RouteServer.IsRoutePathMatch | CreamRoll/Routing/RouteServer.cs:155-158 | the compiled path is matched against the URL segments, stripped of `/` and joined by `/`. The bag changes only on a match |
| Routing.RouteServer.MissingRouteAsync | CreamRoll/Routing/RouteServer.cs:166-170 | the response status becomes 404 and its output is closed; the headers are unchanged |
| Routing.RouteServer.WriteDefaultResponseAsync | CreamRoll/Routing/RouteServer.cs:60-73 | content type is response ?? route ?? server default, and so is encoding, so a value already set is kept. The status is unchanged, the output is closed, and the result is true |
| Routing.MatchedIndicesExactly | CreamRoll/Routing/RouteServer.cs:136-141 | the invoked list holds exactly the matching routes below the bound, each once and in increasing order |
| Routing.FirstSuccessIsFirst | CreamRoll/Routing/RouteServer.cs:136-141 | the route where dispatch stops succeeds, and no earlier route does; with no such route, none from the start point succeeds |
| Routing.FirstSuccessWins | CreamRoll/Routing/RouteServer.cs:136-141 | when a route would succeed, dispatch stops at or before it, and no later route's action runs |
| Routing.InvokedRoutesShareMethod | CreamRoll/Routing/RouteServer.cs:147-150 | every route whose action runs has the request's HTTP method |
| Routing.AccumulatedKeysGrow | CreamRoll/Routing/RouteServer.cs:128-141 | the shared bag only gains keys as dispatch goes on, so bindings from a route whose action failed stay for later routes |
| Routing.MatchQueryKeys | CreamRoll/Routing/RouteServer.cs:155-158 | offering the request to a route keeps every key of the bag, and a matching route adds the names of all its placeholders |
| Routing.MatcherPathOfTwoSegments | CreamRoll/Routing/RouteServer.cs:156 | the URL segments `["/", "lit/", "value"]` reach the matcher as `/lit/value` |
| Routing.LiteralThenPlaceholderRoute | CreamRoll/Routing/RouteServer.cs:147-158 | a route compiled from `/lit/{name}` accepts a request for `/lit/value` with its method, and binds `name` to `value` |
| LegacyRouting.RouteServerBase.constructor | CreamRoll/RouteServerBase.cs:13-15 | a new server has no routes |
| LegacyRouting.RouteServerBase.Delete | CreamRoll/RouteServerBase.cs:17-19 | appends exactly one `DELETE` route for the path and action at the end |
| LegacyRouting.RouteServerBase.Get | CreamRoll/RouteServerBase.cs:21-23 | appends exactly one `GET` route at the end |
| LegacyRouting.RouteServerBase.Head | CreamRoll/RouteServerBase.cs:25-27 | appends exactly one `HEAD` route at the end |
| LegacyRouting.RouteServerBase.Options | CreamRoll/RouteServerBase.cs:29-31 | appends exactly one `OPTIONS` route at the end |
| LegacyRouting.RouteServerBase.Post | CreamRoll/RouteServerBase.cs:33-35 | appends exactly one `POST` route at the end |
| LegacyRouting.RouteServerBase.Put | CreamRoll/RouteServerBase.cs:37-39 | appends exactly one `PUT` route at the end |
| LegacyRouting.RouteServerBase.Patch | CreamRoll/RouteServerBase.cs:41-43 | appends exactly one `PATCH` route at the end |
| LegacyRouting.RouteServerBase.AddRoute | CreamRoll/RouteServerBase.cs:45-47 | the route list grows by exactly the given route at its end |
| LegacyRouting.RouteServerBase.ProcessRequestAsync | CreamRoll/RouteServerBase.cs:66-81 | exactly the matching routes up to the first success run their action, each with a fresh context holding the request, response and user. With no success, every matching route runs and nothing else happens |
| LegacyRouting.RouteServerBase.IsRouteMatch | CreamRoll/RouteServerBase.cs:83-90 | the route is accepted iff the methods agree and the path text matches. An accepted route gets a fresh empty context, and a method mismatch gets none |
| LegacyRouting.RouteServerBase.IsRoutePathMatch | CreamRoll/RouteServerBase.cs:92-101 | a match happens iff the route path equals `/` followed by the URL segments, stripped of `/`, with no separator. A match yields a fresh empty context and a mismatch yields none |
| LegacyRouting.MatchedIndicesExactly | CreamRoll/RouteServerBase.cs:71-79 | the invoked list holds exactly the matching routes below the bound, each once and in increasing order |
| LegacyRouting.FirstSuccessIsFirst | CreamRoll/RouteServerBase.cs:71-79 | the route where dispatch stops succeeds, and no earlier route does; with no such route, none succeeds |
| LegacyRouting.FirstSuccessWins | CreamRoll/RouteServerBase.cs:71-79 | when a route would succeed, dispatch stops at or before it, and no later route's action runs |
| LegacyRouting.InvokedRoutesShareMethod | CreamRoll/RouteServerBase.cs:84-87 | every route whose action runs has the request's HTTP method |
| LegacyRouting.NestedPathNeverMatches | CreamRoll/RouteServerBase.cs:92-96 | a route path with `/` after its first character matches no request |
| LegacyRouting.SingleSegmentPath | CreamRoll/RouteServerBase.cs:93 | the segments of `/`, `/name` and `/name/` compare as `/`, `/name` and `/name` |
| DynamicDictionaries.DynamicDictionary.constructor | CreamRoll/Queries/DynamicDictionary.cs:8-10 | a new dictionary is empty |
| DynamicDictionaries.DynamicDictionary.TryGetMember | CreamRoll/Queries/DynamicDictionary.cs:12-14 | a get succeeds iff the name is set, and then yields its value |
| DynamicDictionaries.DynamicDictionary.TrySetMember | CreamRoll/Queries/DynamicDictionary.cs:16-19 | a set always succeeds and stores the value under the name, replacing any earlier value. Every other entry is unchanged |
| DynamicDictionaries.AddValue | CreamRoll.Tests/DynamicDictionaryTest.cs:8-17 | setting `myname` to "chan" reads back "chan". Setting `i` to 1 and incrementing it reads back 2 |
| DynamicDictionaries.GetUnset | CreamRoll/Queries/DynamicDictionary.cs:12-14 | reading a member of a new dictionary fails |
| HeaderMaps.HeaderMap.constructor | CreamRoll/Routing/HeaderMap.cs:4 | a new header map, made by the inherited `Dictionary` constructor, has no entries |
| HeaderMaps.HeaderMap.Get | CreamRoll/Routing/HeaderMap.cs:4 | the inherited indexer yields the stored value, or fails with key-not-found when the key is absent |
| HeaderMaps.HeaderMap.Set | CreamRoll/Routing/HeaderMap.cs:4 | the inherited indexer setter adds or overwrites one entry |
| HeaderMaps.HeaderMap.ContentType | CreamRoll/Routing/HeaderMap.cs:5-6 | the getter reads the `content-type` entry and fails iff it is absent |
| HeaderMaps.HeaderMap.SetContentType | CreamRoll/Routing/HeaderMap.cs:7 | the setter stores the value under `content-type`, so it reads back, and every other header is unchanged |
| HeaderMaps.ContentTypeRoundTrip | CreamRoll/Routing/HeaderMap.cs:4-8 | set-then-get returns the value set. A header stored as `Content-Type` is not seen by the accessor, because keys are case-sensitive |

## Left out

- `Server.cs` is not part of this model. It holds the `HttpListener` accept loop, `Task.Run`, the admission semaphore and console logging. These are concurrency and I/O.
- Handlers bound by reflection are not modelled. This covers `CreateRouteDelFromMethod`, `GetParams`, the attribute-scanning constructor of `RouteServer<T>` (lines 25-58) and the `Instance` field. Route actions are given as functions instead. The type parameter `T` is dropped.
- A route action is a pure function from its context to `bool`. Awaiting it is not modelled. Side effects an action has on the response are not modelled either.
- `ParameterQuery` is not defined in any source file of the core. The model assumes that it is a reference type whose indexer setter adds or overwrites one entry, so `routeContext.Query` and the `ref query` argument are one shared object. Under that assumption, each action sees the bag's value as it stands when the action runs, and that value is what the model passes.
- Route actions cannot fail in the model. In the code, an action that throws, or returns a faulted task, escapes `ProcessRequestAsync` (RouteServer.cs:136-144 has no catch). Later routes then do not run and no 404 is sent. The model does not capture that path.
- `AsyncRouteDel` is declared at RouteServer.cs:17 as taking a `Request` and returning `Task<Response>`. Line 138 calls it with a `RouteContext` and awaits a `bool`. The model follows the call site: an action maps a route context to success or failure.
- `WriteDefaultResponseAsync`: the `StreamWriter` body writing and the `Redirect` call are not modelled. This is transport I/O, and `RouteAttribute.IsRedirect` is not defined in the code. Only the header rule and the closing of the output are kept.
- The synchronous `ProcessRequest` of the newer server (RouteServer.cs:107-122) and its `MissingRoute` (lines 160-164) are not modelled. They do not compile, and the code after `return` is unreachable.
- `HandleMissingRouteAsync` (RouteServer.cs:144) is not defined in the code. The model calls `MissingRouteAsync` (lines 166-170), which sets 404 and closes the output.
- The synchronous `ProcessRequest` of `RouteServerBase` (lines 49-64) is the same loop as `ProcessRequestAsync` with a blocking wait. `LegacyRouting.RouteServerBase.ProcessRequestAsync` models both.
- `StartsWith("{")` is modelled as an ordinal prefix test. Culture-sensitive comparison is not modelled.
- `Encoding` objects are opaque tokens named by their web name.
- The request is reduced to its HTTP method and `Uri.Segments`. The response is reduced to its status, content type, content encoding and whether its output is closed. The user is reduced to a principal token.
- Null header values are not modelled. `HeaderMap` keys are compared ordinally, as the default `Dictionary<string, string>` does.
- `ParseSegments` returns an array that the constructor stores. The model stores the array's contents as an immutable sequence. The source never writes to the array after construction.
- `RouteAttribute` is reduced to the optional content type and content encoding that `WriteDefaultResponseAsync` reads.
