/**
  The route history store (`useRouteHistoryStore`): the last valid route the user visited
  and a short de-duplicated list of recent full paths, oldest first.
 */
module RouteHistory {
  import opened Wrappers
  import opened Text

  /** How many full paths the history keeps. */
  const MAX_HISTORY: nat := 5

  /** The parts of a normalised route location the store reads; `matched` counts matched records. */
  datatype Route = Route(path: string, fullPath: string, matched: nat)

  /** Only routes that matched a record and whose path does not mention "404" are remembered. */
  predicate IsValidRoute(route: Route) {
    route.matched > 0 && !Contains(route.path, "404")
  }

  predicate NoDuplicates(h: seq<string>) {
    forall i, j :: 0 <= i < j < |h| ==> h[i] != h[j]
  }

  /** The history after recording `fullPath`: append if new, then drop the oldest on overflow. */
  function Remember(history: seq<string>, fullPath: string): seq<string>
  {
    if fullPath in history then history
    else
      var pushed := history + [fullPath];
      if |pushed| > MAX_HISTORY then pushed[1..] else pushed
  }

  /**
    Recording a path keeps the history short and free of duplicates. A known path changes
    nothing; a new one ends the list, which is a suffix of the old list plus the new path and
    loses its oldest entry only when it would otherwise exceed the bound.
   */
  lemma RememberKeepsInvariant(history: seq<string>, fullPath: string)
    requires |history| <= MAX_HISTORY && NoDuplicates(history)
    ensures var h := Remember(history, fullPath);
      && |h| <= MAX_HISTORY && NoDuplicates(h) && fullPath in h
      && (fullPath in history ==> h == history)
      && (fullPath !in history ==>
            && h[|h| - 1] == fullPath
            && h == (history + [fullPath])[|history| + 1 - |h|..]
            && (|h| == |history| + 1 || (|history| == MAX_HISTORY && h == history[1..] + [fullPath])))
  {
    if fullPath !in history {
      var pushed := history + [fullPath];
      assert NoDuplicates(pushed);
      if |pushed| > MAX_HISTORY {
        assert pushed[1..] == history[1..] + [fullPath];
      }
    }
  }

  /** Recording the same path twice in a row is the same as recording it once. */
  lemma RememberIdempotent(history: seq<string>, fullPath: string)
    ensures Remember(Remember(history, fullPath), fullPath) == Remember(history, fullPath)
  {
    if fullPath !in history {
      var pushed := history + [fullPath];
      assert pushed[|pushed| - 1] == fullPath;
      if |pushed| > MAX_HISTORY {
        assert pushed[1..][|pushed| - 2] == fullPath;
      }
    }
  }

  class RouteHistoryStore {
    var previousValidRoute: Option<Route>
    var routeHistory: seq<string>

    /**
      The history stays within its bound and holds each path once, and the remembered route,
      if any, is a valid one whose full path is in the history.
     */
    ghost predicate Valid()
      reads this
    {
      && |routeHistory| <= MAX_HISTORY && NoDuplicates(routeHistory)
      && (previousValidRoute.Some? ==>
            IsValidRoute(previousValidRoute.value) && previousValidRoute.value.fullPath in routeHistory)
    }

    constructor ()
      ensures Valid() && previousValidRoute == None && routeHistory == []
    {
      previousValidRoute := None;
      routeHistory := [];
    }

    /** Models the action `setPreviousValidRoute(route)`. */
    method SetPreviousValidRoute(route: Route)
      requires Valid()
      modifies this
      ensures Valid()
      ensures !IsValidRoute(route) ==>
        previousValidRoute == old(previousValidRoute) && routeHistory == old(routeHistory)
      ensures IsValidRoute(route) ==>
        previousValidRoute == Some(route) && routeHistory == Remember(old(routeHistory), route.fullPath)
    {
      if route.matched > 0 && !Contains(route.path, "404") {
        previousValidRoute := Some(route);
        var routePath := route.fullPath;
        RememberKeepsInvariant(routeHistory, routePath);
        if routePath !in routeHistory {
          routeHistory := routeHistory + [routePath];
          if |routeHistory| > MAX_HISTORY {
            routeHistory := routeHistory[1..];
          }
        }
      }
    }

    /** Models the action `clearHistory()`. */
    method ClearHistory()
      modifies this
      ensures Valid() && previousValidRoute == None && routeHistory == []
    {
      previousValidRoute := None;
      routeHistory := [];
    }

    /** Models the getter `getLastValidRoute`. */
    function GetLastValidRoute(): (r: Option<Route>)
      reads this
      ensures Valid() && r.Some? ==> IsValidRoute(r.value) && r.value.fullPath in routeHistory
    {
      previousValidRoute
    }

    /** Models the getter `hasValidHistory`. */
    predicate HasValidHistory()
      reads this
      ensures HasValidHistory() <==> GetLastValidRoute() != None
    {
      previousValidRoute.Some?
    }
  }

  /**
    A visit to a route whose path holds "404" at some position leaves the store as it was,
    whatever the route matched.
   */
  method IgnoreNotFound(store: RouteHistoryStore, route: Route, at: nat)
    requires store.Valid()
    requires at + 3 <= |route.path| && route.path[at..at + 3] == "404"
    modifies store
    ensures store.Valid()
    ensures store.previousValidRoute == old(store.previousValidRoute) && store.routeHistory == old(store.routeHistory)
  {
    ContainsAt(route.path, "404", at);
    store.SetPreviousValidRoute(route);
  }

  /**
    A client run: a valid visit is recorded, a "/404" visit leaves the state as it was, and
    after `clearHistory` the store reports no valid history.
   */
  method HistoryScenario() returns (before: bool, remembered: seq<string>, after: bool)
    ensures before && remembered == ["/?tab=2"] && !after
  {
    var store := new RouteHistoryStore();
    assert !Contains("/"[1..], "404");
    store.SetPreviousValidRoute(Route("/", "/?tab=2", 1));
    assert "/404"[1..4] == "404";
    ContainsAt("/404", "404", 1);
    store.SetPreviousValidRoute(Route("/404", "/404", 1));
    before := store.HasValidHistory();
    remembered := store.routeHistory;
    store.ClearHistory();
    after := store.HasValidHistory();
  }
}
