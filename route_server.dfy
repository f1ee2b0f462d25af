/**
 * The route table of the newer server: routes are (method, compiled path,
 * action) records kept in registration order. A request is offered to each
 * route in turn; a route whose method and path match runs its action, and
 * the first action that reports success ends dispatch. When none does, the
 * missing-route handler answers 404. Path matches write their bindings into
 * one parameter bag shared by the whole dispatch.
 */
module Routing {
  import opened Wrappers
  import opened Strings
  import opened Listener
  import opened Indices
  import opened ParameterizedPaths

  const DefaultContentType: string := "text/plain; charset=utf-8"

  /** What an action is handed: the request, the response, the user and the parameter bag. */
  datatype RouteContext = RouteContext(request: Request, response: Response, user: Principal, query: Query)

  /** A route action: whether it handled the request, as a function of what it is handed. */
  type Action = RouteContext -> bool

  /** Route-level header overrides a route may declare. */
  datatype RouteAttribute = RouteAttribute(
    httpMethod: string, path: string, contentType: Option<string>, contentEncoding: Option<Encoding>)

  class Route {
    const httpMethod: string
    const rawPath: string
    const path: ParameterizedPath
    const action: Action

    /** Keeps the raw template and the path compiled from that same template. */
    constructor (httpMethod: string, path: string, action: Action)
      ensures this.httpMethod == httpMethod && this.action == action
      ensures rawPath == path && this.path.path == path
      ensures this.path.segments == Parse(path)
      ensures fresh(this.path)
    {
      this.httpMethod := httpMethod;
      this.rawPath := path;
      this.path := new ParameterizedPath(path);
      this.action := action;
    }
  }

  /** The text handed to the matcher: each URL segment with its '/' removed, joined by "/". */
  function MatcherPath(urlSegments: seq<string>): string
  {
    Join(RemoveAllEach(urlSegments, '/'), "/")
  }

  /** A route accepts a request: the same method, and the compiled path matches. */
  predicate RouteMatches(route: Route, request: Request)
  {
    route.httpMethod == request.httpMethod && Matches(route.path.segments, MatcherPath(request.urlSegments))
  }

  /** The parameter bag after offering the request to `route`: bound on a match, untouched otherwise. */
  function MatchQuery(route: Route, request: Request, query: Query): Query
  {
    if RouteMatches(route, request) then
      BindAll(route.path.segments, Components(MatcherPath(request.urlSegments)), query)
    else query
  }

  /** The shared parameter bag after the request was offered to the first `n` routes. */
  function Accumulated(routes: seq<Route>, request: Request, n: nat): Query
    requires n <= |routes|
  {
    if n == 0 then map[] else MatchQuery(routes[n - 1], request, Accumulated(routes, request, n - 1))
  }

  /** Route `j` matches and its action, run with the bag as it stands then, reports success. */
  predicate Succeeds(routes: seq<Route>, request: Request, response: Response, user: Principal, j: nat)
    requires j < |routes|
  {
    && RouteMatches(routes[j], request)
    && routes[j].action(RouteContext(request, response, user, MatchQuery(routes[j], request, Accumulated(routes, request, j))))
  }

  /** For each route, whether it accepts the request. */
  function MatchFlags(routes: seq<Route>, request: Request): (flags: seq<bool>)
    ensures |flags| == |routes|
    ensures forall j :: 0 <= j < |routes| ==> flags[j] == RouteMatches(routes[j], request)
  {
    if |routes| == 0 then [] else [RouteMatches(routes[0], request)] + MatchFlags(routes[1..], request)
  }

  /** The indices below `n` of routes that accept the request, in increasing order. */
  function MatchedIndices(routes: seq<Route>, request: Request, n: nat): seq<nat>
    requires n <= |routes|
  {
    Positions(MatchFlags(routes, request), n)
  }

  /**
   * `MatchedIndices` lists exactly the routes below `n` that accept the
   * request, each once and in increasing order.
   */
  lemma MatchedIndicesExactly(routes: seq<Route>, request: Request, n: nat)
    requires n <= |routes|
    ensures forall j :: j in MatchedIndices(routes, request, n) ==> j < n
    ensures forall j :: 0 <= j < n ==> (j in MatchedIndices(routes, request, n) <==> RouteMatches(routes[j], request))
    ensures forall p, q :: 0 <= p < q < |MatchedIndices(routes, request, n)| ==>
              MatchedIndices(routes, request, n)[p] < MatchedIndices(routes, request, n)[q]
  {
    PositionsOrdered(MatchFlags(routes, request), n);
    PositionsExactly(MatchFlags(routes, request), n);
  }

  /** For each of the first `n` routes, whether it succeeds. */
  function SuccessFlags(routes: seq<Route>, request: Request, response: Response, user: Principal, n: nat): (flags: seq<bool>)
    requires n <= |routes|
    ensures |flags| == n
    ensures forall j :: 0 <= j < n ==> flags[j] == Succeeds(routes, request, response, user, j)
  {
    if n == 0 then [] else SuccessFlags(routes, request, response, user, n - 1) + [Succeeds(routes, request, response, user, n - 1)]
  }

  /** The first route at or after `from` whose action succeeds, if any. */
  function FirstSuccess(routes: seq<Route>, request: Request, response: Response, user: Principal, from: nat): (r: Option<nat>)
    requires from <= |routes|
    ensures r.Some? ==> from <= r.value < |routes|
  {
    FirstSet(SuccessFlags(routes, request, response, user, |routes|), from)
  }

  /**
   * `FirstSuccess` finds the earliest succeeding route: the one it names
   * succeeds and none before it does; when it names none, no route from
   * `from` on succeeds.
   */
  lemma FirstSuccessIsFirst(routes: seq<Route>, request: Request, response: Response, user: Principal, from: nat)
    requires from <= |routes|
    ensures match FirstSuccess(routes, request, response, user, from)
      case Some(k) =>
        && Succeeds(routes, request, response, user, k)
        && forall j :: from <= j < k ==> !Succeeds(routes, request, response, user, j)
      case None => forall j :: from <= j < |routes| ==> !Succeeds(routes, request, response, user, j)
  {
    FirstSetIsFirst(SuccessFlags(routes, request, response, user, |routes|), from);
  }

  /** One more route offered: how the bag, the invoked list and the search for a success advance. */
  lemma DispatchStep(routes: seq<Route>, request: Request, response: Response, user: Principal, i: nat)
    requires i < |routes|
    ensures Accumulated(routes, request, i + 1) == MatchQuery(routes[i], request, Accumulated(routes, request, i))
    ensures MatchedIndices(routes, request, i + 1) ==
              MatchedIndices(routes, request, i) + (if RouteMatches(routes[i], request) then [i] else [])
    ensures FirstSuccess(routes, request, response, user, i) ==
              if Succeeds(routes, request, response, user, i) then Some(i) else FirstSuccess(routes, request, response, user, i + 1)
  {
  }

  class RouteServer {
    var defaultContentType: string
    var defaultContentEncoding: Encoding
    var routes: seq<Route>

    constructor ()
      ensures routes == []
      ensures defaultContentType == DefaultContentType && defaultContentEncoding == UTF8
    {
      defaultContentType := DefaultContentType;
      defaultContentEncoding := UTF8;
      routes := [];
    }

    /** The last route was registered for `httpMethod`, `path` and `action`, after the routes in `before`. */
    ghost predicate AppendedRoute(before: seq<Route>, httpMethod: string, path: string, action: Action)
      reads this
    {
      && |routes| == |before| + 1
      && routes[..|before|] == before
      && routes[|before|].httpMethod == httpMethod
      && routes[|before|].rawPath == path
      && routes[|before|].path.segments == Parse(path)
      && routes[|before|].action == action
    }

    method Delete(path: string, action: Action)
      modifies this
      ensures AppendedRoute(old(routes), "DELETE", path, action)
      ensures defaultContentType == old(defaultContentType) && defaultContentEncoding == old(defaultContentEncoding)
    {
      var route := new Route("DELETE", path, action);
      AddRoute(route);
    }

    method Get(path: string, action: Action)
      modifies this
      ensures AppendedRoute(old(routes), "GET", path, action)
      ensures defaultContentType == old(defaultContentType) && defaultContentEncoding == old(defaultContentEncoding)
    {
      var route := new Route("GET", path, action);
      AddRoute(route);
    }

    method Head(path: string, action: Action)
      modifies this
      ensures AppendedRoute(old(routes), "HEAD", path, action)
      ensures defaultContentType == old(defaultContentType) && defaultContentEncoding == old(defaultContentEncoding)
    {
      var route := new Route("HEAD", path, action);
      AddRoute(route);
    }

    method Options(path: string, action: Action)
      modifies this
      ensures AppendedRoute(old(routes), "OPTIONS", path, action)
      ensures defaultContentType == old(defaultContentType) && defaultContentEncoding == old(defaultContentEncoding)
    {
      var route := new Route("OPTIONS", path, action);
      AddRoute(route);
    }

    method Post(path: string, action: Action)
      modifies this
      ensures AppendedRoute(old(routes), "POST", path, action)
      ensures defaultContentType == old(defaultContentType) && defaultContentEncoding == old(defaultContentEncoding)
    {
      var route := new Route("POST", path, action);
      AddRoute(route);
    }

    method Put(path: string, action: Action)
      modifies this
      ensures AppendedRoute(old(routes), "PUT", path, action)
      ensures defaultContentType == old(defaultContentType) && defaultContentEncoding == old(defaultContentEncoding)
    {
      var route := new Route("PUT", path, action);
      AddRoute(route);
    }

    method Patch(path: string, action: Action)
      modifies this
      ensures AppendedRoute(old(routes), "PATCH", path, action)
      ensures defaultContentType == old(defaultContentType) && defaultContentEncoding == old(defaultContentEncoding)
    {
      var route := new Route("PATCH", path, action);
      AddRoute(route);
    }

    /** Appends one route at the end of the table. */
    method AddRoute(route: Route)
      modifies this
      ensures routes == old(routes) + [route]
      ensures defaultContentType == old(defaultContentType) && defaultContentEncoding == old(defaultContentEncoding)
    {
      routes := routes + [route];
    }

    /**
     * Offers the request to every route in registration order with one shared
     * parameter bag. The first matching route whose action succeeds ends
     * dispatch; a matching route whose action fails lets the next routes be
     * tried, keeping its bindings. If no action succeeds, the missing-route
     * handler answers 404. `invoked` lists the routes whose action ran, in
     * order, and `query` is the final parameter bag.
     */
    method ProcessRequestAsync(request: Request, response: Response, user: Principal)
      returns (invoked: seq<nat>, query: Query)
      modifies response
      ensures match FirstSuccess(routes, request, response, user, 0)
        case Some(k) =>
          && invoked == MatchedIndices(routes, request, k + 1)
          && query == Accumulated(routes, request, k + 1)
          && unchanged(response)
        case None =>
          && invoked == MatchedIndices(routes, request, |routes|)
          && query == Accumulated(routes, request, |routes|)
          && response.statusCode == 404 && response.outputClosed
          && response.contentType == old(response.contentType)
          && response.contentEncoding == old(response.contentEncoding)
    {
      query := map[];
      invoked := [];
      var i := 0;
      while i < |routes|
        invariant 0 <= i <= |routes|
        invariant query == Accumulated(routes, request, i)
        invariant invoked == MatchedIndices(routes, request, i)
        invariant FirstSuccess(routes, request, response, user, 0) == FirstSuccess(routes, request, response, user, i)
        invariant unchanged(response)
      {
        var route := routes[i];
        DispatchStep(routes, request, response, user, i);
        var matched;
        matched, query := IsRouteMatch(route, request, query);
        if matched {
          invoked := invoked + [i];
          if route.action(RouteContext(request, response, user, query)) {
            assert Succeeds(routes, request, response, user, i);
            return;
          }
        }
        assert !Succeeds(routes, request, response, user, i);
        i := i + 1;
      }
      MissingRouteAsync(response);
    }

    /** A route whose method differs is rejected without consulting its path. */
    method IsRouteMatch(route: Route, request: Request, query: Query) returns (ok: bool, bound: Query)
      ensures ok == RouteMatches(route, request)
      ensures bound == MatchQuery(route, request, query)
      ensures route.httpMethod != request.httpMethod ==> !ok && bound == query
    {
      if route.httpMethod != request.httpMethod {
        return false, query;
      }
      ok, bound := IsRoutePathMatch(route, request, query);
    }

    /** Matches the route's compiled path against the request's URL segments. */
    method IsRoutePathMatch(route: Route, request: Request, query: Query) returns (ok: bool, bound: Query)
      ensures ok == Matches(route.path.segments, MatcherPath(request.urlSegments))
      ensures !ok ==> bound == query
      ensures ok ==> bound == BindAll(route.path.segments, Components(MatcherPath(request.urlSegments)), query)
    {
      var path := MatcherPath(request.urlSegments);
      ok, bound := route.path.TryMatch(path, query);
    }

    /** The missing-route handler: status 404 and the output closed. */
    method MissingRouteAsync(response: Response)
      modifies response
      ensures response.statusCode == 404 && response.outputClosed
      ensures response.contentType == old(response.contentType)
      ensures response.contentEncoding == old(response.contentEncoding)
    {
      response.statusCode := 404;
      response.outputClosed := true;
    }

    /**
     * Settles the response headers before the body is written: content type
     * and encoding each take the response's own value, else the route's, else
     * the server default. A value already on the response is kept.
     */
    method WriteDefaultResponseAsync(route: RouteAttribute, response: Response) returns (written: bool)
      modifies response
      ensures response.contentType == Some(Coalesce(old(response.contentType), route.contentType, defaultContentType))
      ensures response.contentEncoding == Some(Coalesce(old(response.contentEncoding), route.contentEncoding, defaultContentEncoding))
      ensures response.statusCode == old(response.statusCode)
      ensures response.outputClosed
      ensures written
    {
      response.contentType := Some(Coalesce(response.contentType, route.contentType, defaultContentType));
      response.contentEncoding := Some(Coalesce(response.contentEncoding, route.contentEncoding, defaultContentEncoding));
      response.outputClosed := true;
      written := true;
    }
  }

  /** Every route whose action ran has the request's method. */
  lemma InvokedRoutesShareMethod(routes: seq<Route>, request: Request, n: nat)
    requires n <= |routes|
    ensures forall j :: j in MatchedIndices(routes, request, n) ==>
              j < n && routes[j].httpMethod == request.httpMethod
  {
    MatchedIndicesExactly(routes, request, n);
  }

  /**
   * When route `a` would succeed, dispatch stops at or before it: no route
   * after `a` has its action run.
   */
  lemma FirstSuccessWins(routes: seq<Route>, request: Request, response: Response, user: Principal, a: nat)
    requires a < |routes| && Succeeds(routes, request, response, user, a)
    ensures FirstSuccess(routes, request, response, user, 0).Some?
    ensures FirstSuccess(routes, request, response, user, 0).value <= a
    ensures var invoked := MatchedIndices(routes, request, FirstSuccess(routes, request, response, user, 0).value + 1);
              forall p :: 0 <= p < |invoked| ==> invoked[p] <= a
  {
    var stop, run := SuccessFlags(routes, request, response, user, |routes|), MatchFlags(routes, request);
    FirstSetBoundsPositions(stop, run, a);
    var k := FirstSet(stop, 0).value;
    assert FirstSuccess(routes, request, response, user, 0) == FirstSet(stop, 0);
    assert MatchedIndices(routes, request, k + 1) == Positions(run, k + 1);
  }

  /**
   * The bag only gains keys as dispatch goes on: a matching route whose
   * action fails leaves its bindings for the routes after it.
   */
  lemma {:induction false} AccumulatedKeysGrow(routes: seq<Route>, request: Request, i: nat, n: nat)
    requires i <= n <= |routes|
    ensures Accumulated(routes, request, i).Keys <= Accumulated(routes, request, n).Keys
  {
    if i < n {
      AccumulatedKeysGrow(routes, request, i, n - 1);
      MatchQueryKeys(routes[n - 1], request, Accumulated(routes, request, n - 1));
    }
  }

  /**
   * Offering the request to a route keeps every key of the bag, and a
   * matching route adds the names of all its placeholders.
   */
  lemma MatchQueryKeys(route: Route, request: Request, query: Query)
    ensures query.Keys <= MatchQuery(route, request, query).Keys
    ensures RouteMatches(route, request) ==> Names(route.path.segments) <= MatchQuery(route, request, query).Keys
  {
    if RouteMatches(route, request) {
      BindAllKeys(route.path.segments, Components(MatcherPath(request.urlSegments)), query);
    }
  }

  /** A URL segment "lit/" loses its trailing slash, and "/" becomes empty. */
  lemma StripSegment(lit: string)
    requires '/' !in lit
    ensures RemoveAll(lit + "/", '/') == lit
    ensures RemoveAll("/", '/') == []
  {
    var slash := "/";
    assert RemoveAll(slash, '/') == [] by {
      assert slash[1..] == [];
    }
    RemoveAllAbsent(lit, '/');
    RemoveAllAppend(lit, slash, '/');
    assert lit + [] == lit;
  }

  /** The URL segments of "/lit/value" are handed to the matcher as "/lit/value" again. */
  lemma MatcherPathOfTwoSegments(lit: string, value: string)
    requires '/' !in lit && '/' !in value
    ensures MatcherPath(["/", lit + "/", value]) == "/" + lit + "/" + value
  {
    var slash := "/";
    var segments := [slash, lit + slash, value];
    var stripped := RemoveAllEach(segments, '/');
    assert stripped == [[], lit, value] by {
      StripSegment(lit);
      RemoveAllAbsent(value, '/');
      assert stripped[0] == [] && stripped[1] == lit && stripped[2] == value;
    }
    assert Join(stripped, slash) == slash + lit + slash + value by {
      JoinThree([], lit, value, slash);
      assert [] + slash + lit + slash + value == slash + lit + slash + value;
    }
    assert MatcherPath(segments) == Join(stripped, slash);
  }

  /**
   * A route compiled from "/lit/{name}" accepts a request for "/lit/value"
   * with its method, and binds `name` to `value` in an empty bag.
   */
  lemma LiteralThenPlaceholderRoute(route: Route, request: Request, lit: string, name: string, value: string)
    requires |lit| > 0 && '/' !in lit && lit[0] != '{'
    requires |name| > 0 && '/' !in name && name[0] !in Braces && name[|name| - 1] !in Braces
    requires |value| > 0 && '/' !in value
    requires route.path.segments == Parse("/" + lit + "/{" + name + "}")
    requires route.httpMethod == request.httpMethod
    requires request.urlSegments == ["/", lit + "/", value]
    ensures RouteMatches(route, request)
    ensures MatchQuery(route, request, map[]) == map[name := value]
  {
    MatcherPathOfTwoSegments(lit, value);
    LiteralThenPlaceholder(lit, name, value);
  }
}
