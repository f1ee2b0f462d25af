/**
 * The older route table. Routes keep their path as plain text; a route
 * accepts a request when the methods are equal and the path equals "/"
 * followed by the request's URL segments, each stripped of '/', written one
 * after another with no separator. The first matching route whose action
 * succeeds ends dispatch; there is no fallback when none does.
 */
module LegacyRouting {
  import opened Wrappers
  import opened Strings
  import opened Listener
  import opened Indices

  /** The context an action is handed; a fresh one has every field unset (null). */
  datatype RouteContext = RouteContext(request: Option<Request>, response: Option<Response>, user: Option<Principal>)

  const EmptyContext: RouteContext := RouteContext(None, None, None)

  /** A route action: whether it handled the request, given its context. */
  type Action = RouteContext -> bool

  datatype Route = Route(httpMethod: string, path: string, action: Action)

  /** The text a route path is compared with: "/" and the segments stripped of '/', concatenated. */
  function RequestPath(urlSegments: seq<string>): string
  {
    "/" + Concat(RemoveAllEach(urlSegments, '/'))
  }

  predicate RouteMatches(route: Route, request: Request)
  {
    route.httpMethod == request.httpMethod && route.path == RequestPath(request.urlSegments)
  }

  /** The context a matching route's action runs with: the fresh context, populated. */
  function Populated(request: Request, response: Response, user: Principal): RouteContext
  {
    EmptyContext.(request := Some(request), response := Some(response), user := Some(user))
  }

  /** The route accepts the request and its action, run with the populated context, succeeds. */
  predicate Handles(route: Route, request: Request, response: Response, user: Principal)
  {
    RouteMatches(route, request) && route.action(Populated(request, response, user))
  }

  predicate Succeeds(routes: seq<Route>, request: Request, response: Response, user: Principal, j: nat)
    requires j < |routes|
  {
    Handles(routes[j], request, response, user)
  }

  /** For each route, whether it accepts the request. */
  function MatchFlags(routes: seq<Route>, request: Request): (flags: seq<bool>)
    ensures |flags| == |routes|
    ensures forall j :: 0 <= j < |routes| ==> flags[j] == RouteMatches(routes[j], request)
  {
    if |routes| == 0 then [] else [RouteMatches(routes[0], request)] + MatchFlags(routes[1..], request)
  }

  /** The indices below `n` of routes that accept the request, in increasing order. */
  function MatchedIndices(routes: seq<Route>, request: Request, n: nat): seq<nat>
    requires n <= |routes|
  {
    Positions(MatchFlags(routes, request), n)
  }

  /**
   * `MatchedIndices` lists exactly the routes below `n` that accept the
   * request, each once and in increasing order.
   */
  lemma MatchedIndicesExactly(routes: seq<Route>, request: Request, n: nat)
    requires n <= |routes|
    ensures forall j :: j in MatchedIndices(routes, request, n) ==> j < n
    ensures forall j :: 0 <= j < n ==> (j in MatchedIndices(routes, request, n) <==> RouteMatches(routes[j], request))
    ensures forall p, q :: 0 <= p < q < |MatchedIndices(routes, request, n)| ==>
              MatchedIndices(routes, request, n)[p] < MatchedIndices(routes, request, n)[q]
  {
    PositionsOrdered(MatchFlags(routes, request), n);
    PositionsExactly(MatchFlags(routes, request), n);
  }

  /** For each of the first `n` routes, whether it succeeds. */
  function SuccessFlags(routes: seq<Route>, request: Request, response: Response, user: Principal, n: nat): (flags: seq<bool>)
    requires n <= |routes|
    ensures |flags| == n
    ensures forall j :: 0 <= j < n ==> flags[j] == Succeeds(routes, request, response, user, j)
  {
    if n == 0 then [] else SuccessFlags(routes, request, response, user, n - 1) + [Succeeds(routes, request, response, user, n - 1)]
  }

  /** The first route at or after `from` whose action succeeds, if any. */
  function FirstSuccess(routes: seq<Route>, request: Request, response: Response, user: Principal, from: nat): (r: Option<nat>)
    requires from <= |routes|
    ensures r.Some? ==> from <= r.value < |routes|
  {
    FirstSet(SuccessFlags(routes, request, response, user, |routes|), from)
  }

  /**
   * `FirstSuccess` finds the earliest succeeding route: the one it names
   * succeeds and none before it does; when it names none, no route from
   * `from` on succeeds.
   */
  lemma FirstSuccessIsFirst(routes: seq<Route>, request: Request, response: Response, user: Principal, from: nat)
    requires from <= |routes|
    ensures match FirstSuccess(routes, request, response, user, from)
      case Some(k) =>
        && Succeeds(routes, request, response, user, k)
        && forall j :: from <= j < k ==> !Succeeds(routes, request, response, user, j)
      case None => forall j :: from <= j < |routes| ==> !Succeeds(routes, request, response, user, j)
  {
    FirstSetIsFirst(SuccessFlags(routes, request, response, user, |routes|), from);
  }

  /** One more route offered: how the invoked list and the search for a success advance. */
  lemma DispatchStep(routes: seq<Route>, request: Request, response: Response, user: Principal, i: nat)
    requires i < |routes|
    ensures MatchedIndices(routes, request, i + 1) ==
              MatchedIndices(routes, request, i) + (if RouteMatches(routes[i], request) then [i] else [])
    ensures FirstSuccess(routes, request, response, user, i) ==
              if Succeeds(routes, request, response, user, i) then Some(i) else FirstSuccess(routes, request, response, user, i + 1)
  {
  }

  class RouteServerBase {
    var routes: seq<Route>

    constructor ()
      ensures routes == []
    {
      routes := [];
    }

    method Delete(path: string, action: Action)
      modifies this
      ensures routes == old(routes) + [Route("DELETE", path, action)]
    {
      AddRoute(Route("DELETE", path, action));
    }

    method Get(path: string, action: Action)
      modifies this
      ensures routes == old(routes) + [Route("GET", path, action)]
    {
      AddRoute(Route("GET", path, action));
    }

    method Head(path: string, action: Action)
      modifies this
      ensures routes == old(routes) + [Route("HEAD", path, action)]
    {
      AddRoute(Route("HEAD", path, action));
    }

    method Options(path: string, action: Action)
      modifies this
      ensures routes == old(routes) + [Route("OPTIONS", path, action)]
    {
      AddRoute(Route("OPTIONS", path, action));
    }

    method Post(path: string, action: Action)
      modifies this
      ensures routes == old(routes) + [Route("POST", path, action)]
    {
      AddRoute(Route("POST", path, action));
    }

    method Put(path: string, action: Action)
      modifies this
      ensures routes == old(routes) + [Route("PUT", path, action)]
    {
      AddRoute(Route("PUT", path, action));
    }

    method Patch(path: string, action: Action)
      modifies this
      ensures routes == old(routes) + [Route("PATCH", path, action)]
    {
      AddRoute(Route("PATCH", path, action));
    }

    method AddRoute(route: Route)
      modifies this
      ensures routes == old(routes) + [route]
    {
      routes := routes + [route];
    }

    /**
     * Offers the request to every route in registration order. A matching
     * route's action runs with a fresh context populated with the request,
     * the response and the user; the first action that succeeds ends
     * dispatch. `invoked` lists the routes whose action ran, in order.
     */
    method ProcessRequestAsync(request: Request, response: Response, user: Principal) returns (invoked: seq<nat>)
      ensures match FirstSuccess(routes, request, response, user, 0)
        case Some(k) => invoked == MatchedIndices(routes, request, k + 1)
        case None => invoked == MatchedIndices(routes, request, |routes|)
    {
      invoked := [];
      var i := 0;
      while i < |routes|
        invariant 0 <= i <= |routes|
        invariant invoked == MatchedIndices(routes, request, i)
        invariant FirstSuccess(routes, request, response, user, 0) == FirstSuccess(routes, request, response, user, i)
      {
        var route := routes[i];
        DispatchStep(routes, request, response, user, i);
        var matched, context := IsRouteMatch(route, request);
        if matched {
          var populated := context.value;
          populated := populated.(request := Some(request));
          populated := populated.(response := Some(response));
          populated := populated.(user := Some(user));
          invoked := invoked + [i];
          if route.action(populated) {
            return;
          }
        }
        i := i + 1;
      }
    }

    /** A route whose method differs is rejected with no context. */
    method IsRouteMatch(route: Route, request: Request) returns (ok: bool, context: Option<RouteContext>)
      ensures ok == RouteMatches(route, request)
      ensures ok ==> context == Some(EmptyContext)
      ensures !ok ==> context == None
    {
      if route.httpMethod != request.httpMethod {
        return false, None;
      }
      ok, context := IsRoutePathMatch(route.path, request);
    }

    /** Exact text comparison of the route path with the request path; a match yields a fresh context. */
    method IsRoutePathMatch(path: string, request: Request) returns (ok: bool, context: Option<RouteContext>)
      ensures ok <==> path == RequestPath(request.urlSegments)
      ensures ok ==> context == Some(EmptyContext)
      ensures !ok ==> context == None
    {
      var segments := "/" + Concat(RemoveAllEach(request.urlSegments, '/'));
      if path == segments {
        return true, Some(EmptyContext);
      }
      return false, None;
    }
  }

  /**
   * The request side of the comparison never holds '/' after its leading
   * one, so a route whose path does (a nested path such as "/a/b") matches
   * no request at all.
   */
  lemma NestedPathNeverMatches(route: Route, request: Request)
    requires |route.path| > 0 && '/' in route.path[1..]
    ensures !RouteMatches(route, request)
  {
    var stripped := RemoveAllEach(request.urlSegments, '/');
    ConcatExcludes(stripped, '/');
    assert RequestPath(request.urlSegments)[1..] == Concat(stripped);
  }

  /** Two URL segments give "/" followed by both, each stripped of '/'. */
  lemma TwoSegmentsPath(first: string, second: string)
    ensures RequestPath([first, second]) == "/" + RemoveAll(first, '/') + RemoveAll(second, '/')
  {
    var segments := [first, second];
    var stripped := RemoveAllEach(segments, '/');
    var x, y := stripped[0], stripped[1];
    assert stripped[1..] == [y];
    assert Concat([y]) == y by {
      assert [y][1..] == [];
    }
  }

  /** The segments of "/", "/name" and "/name/" give the request paths "/", "/name" and "/name". */
  lemma SingleSegmentPath(name: string)
    requires '/' !in name
    ensures RequestPath(["/"]) == "/"
    ensures RequestPath(["/", name]) == "/" + name
    ensures RequestPath(["/", name + "/"]) == "/" + name
  {
    var slash := "/";
    assert RemoveAll(slash, '/') == [] by {
      assert slash[1..] == [];
    }
    assert RemoveAllEach([slash], '/') == [[]];
    RemoveAllAbsent(name, '/');
    RemoveAllAppend(name, slash, '/');
    TwoSegmentsPath(slash, name);
    TwoSegmentsPath(slash, name + slash);
  }

  /** Every route whose action ran has the request's method. */
  lemma InvokedRoutesShareMethod(routes: seq<Route>, request: Request, n: nat)
    requires n <= |routes|
    ensures forall j :: j in MatchedIndices(routes, request, n) ==>
              j < n && routes[j].httpMethod == request.httpMethod
  {
    MatchedIndicesExactly(routes, request, n);
  }

  /**
   * When route `a` would succeed, dispatch stops at or before it: no route
   * after `a` has its action run.
   */
  lemma FirstSuccessWins(routes: seq<Route>, request: Request, response: Response, user: Principal, a: nat)
    requires a < |routes| && Succeeds(routes, request, response, user, a)
    ensures FirstSuccess(routes, request, response, user, 0).Some?
    ensures FirstSuccess(routes, request, response, user, 0).value <= a
    ensures var invoked := MatchedIndices(routes, request, FirstSuccess(routes, request, response, user, 0).value + 1);
              forall p :: 0 <= p < |invoked| ==> invoked[p] <= a
  {
    var stop, run := SuccessFlags(routes, request, response, user, |routes|), MatchFlags(routes, request);
    FirstSetBoundsPositions(stop, run, a);
    var k := FirstSet(stop, 0).value;
    assert FirstSuccess(routes, request, response, user, 0) == FirstSet(stop, 0);
    assert MatchedIndices(routes, request, k + 1) == Positions(run, k + 1);
  }
}
