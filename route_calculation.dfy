/** The route-calculation hook (src/hooks/useRouteCalculation.ts): its state (the current routes,
    whether a calculation runs, the error shown), `calculateRoutes`, which asks the router for a set
    of modes and merges the answers into the current routes, and `clearRoutes`. */
module RouteCalculation {
  import opened Wrappers
  import opened RouteTypes
  import opened RouterApi
  import opened TransportModes

  /** The message of the TypeError that `result.features` throws when a response body is JSON
      `null` (V8's wording). */
  const NullBodyMessage: string := "Cannot read properties of null (reading 'features')"

  const NoRoutesFoundKey: string := "errors.noRoutesFound"

  /** Whether a response yields a route: it has at least one feature. */
  predicate HasFeatures(response: CartowayResponse)
  {
    response.FeatureCollection? && response.features.Some? && |response.features.value| > 0
  }

  /** The route made from a response with features: its first feature, converted under `mode`, in
      the mode's colour (`{...routeResult, color: ROUTE_COLORS[mode] || '#6B7280'}`). */
  function RouteFor(service: RouterApiService, response: CartowayResponse, mode: string,
                    decode: string -> Option<seq<(real, real)>>): (r: RouteResult)
    requires HasFeatures(response)
  {
    service.ConvertToRouteResult(response.features.value[0], mode, decode)
      .(color := RouteColorOrDefault(mode))
  }

  /** The routes the `forEach` over the first `n` responses collects, the response at index `i`
      being labelled `modes[i]`; or the error thrown at the first `null` body. */
  function CollectedRoutes(service: RouterApiService, responses: seq<CartowayResponse>,
                           modes: seq<string>, decode: string -> Option<seq<(real, real)>>,
                           n: nat): (r: Result<seq<RouteResult>>)
    requires n <= |responses| <= |modes|
    ensures r.Err? ==> r.message == NullBodyMessage
    ensures r.Ok? ==> |r.value| <= n
  {
    if n == 0 then Ok([])
    else
      match CollectedRoutes(service, responses, modes, decode, n - 1)
      case Err(msg) => Err(msg)
      case Ok(acc) =>
        var response := responses[n - 1];
        if response.NullBody? then Err(NullBodyMessage)
        else if HasFeatures(response) then Ok(acc + [RouteFor(service, response, modes[n - 1], decode)])
        else Ok(acc)
  }

  /** The number of responses among the first `n` that have features. */
  function CountWithFeatures(responses: seq<CartowayResponse>, n: nat): (c: nat)
    requires n <= |responses|
    ensures c <= n
  {
    if n == 0 then 0
    else CountWithFeatures(responses, n - 1) + (if HasFeatures(responses[n - 1]) then 1 else 0)
  }

  /** The index of the response the `k`-th collected route comes from. */
  function RouteSource(responses: seq<CartowayResponse>, n: nat, k: nat): (i: nat)
    requires n <= |responses| && k < CountWithFeatures(responses, n)
    ensures i < n && HasFeatures(responses[i]) && CountWithFeatures(responses, i) == k
  {
    if k == CountWithFeatures(responses, n - 1) then n - 1
    else RouteSource(responses, n - 1, k)
  }

  /** What the loop collects: the collection fails exactly when some body is `null`; otherwise it
      holds one route per response with features, in response order, the `k`-th made from the first
      feature of its response under the mode at that response's index. So there are never more
      routes than responses. */
  lemma {:induction false} CollectedRoutesShape(service: RouterApiService, responses: seq<CartowayResponse>,
                                               modes: seq<string>, decode: string -> Option<seq<(real, real)>>,
                                               n: nat)
    requires n <= |responses| <= |modes|
    ensures var c := CollectedRoutes(service, responses, modes, decode, n);
      && (c.Err? <==> exists i :: 0 <= i < n && responses[i].NullBody?)
      && (c.Err? ==> c.message == NullBodyMessage)
      && (c.Ok? ==> (|c.value| == CountWithFeatures(responses, n) <= n
           && forall k :: 0 <= k < |c.value| ==>
                var i := RouteSource(responses, n, k);
                c.value[k] == RouteFor(service, responses[i], modes[i], decode)))
  {
    if n > 0 {
      CollectedRoutesShape(service, responses, modes, decode, n - 1);
      var prev := CollectedRoutes(service, responses, modes, decode, n - 1);
      if prev.Err? {
        var i :| 0 <= i < n - 1 && responses[i].NullBody?;
        assert 0 <= i < n && responses[i].NullBody?;
      }
    }
  }

  /** Once collecting has thrown, the later responses are not looked at. */
  lemma {:induction false} CollectedRoutesErrPersists(service: RouterApiService, responses: seq<CartowayResponse>,
                                                     modes: seq<string>, decode: string -> Option<seq<(real, real)>>,
                                                     n: nat, m: nat)
    requires n <= m <= |responses| <= |modes|
    requires CollectedRoutes(service, responses, modes, decode, n).Err?
    ensures CollectedRoutes(service, responses, modes, decode, m)
         == CollectedRoutes(service, responses, modes, decode, n)
    decreases m - n
  {
    if n < m {
      CollectedRoutesErrPersists(service, responses, modes, decode, n, m - 1);
    }
  }

  /** Every collected route carries one of the requested modes and that mode's registry colour. */
  lemma CollectedRoutesModes(service: RouterApiService, responses: seq<CartowayResponse>,
                             modes: seq<string>, decode: string -> Option<seq<(real, real)>>)
    requires |responses| <= |modes|
    requires CollectedRoutes(service, responses, modes, decode, |responses|).Ok?
    ensures var added := CollectedRoutes(service, responses, modes, decode, |responses|).value;
      forall k :: 0 <= k < |added| ==> added[k].mode in modes && added[k].color == GetModeColor(added[k].mode)
  {
    CollectedRoutesShape(service, responses, modes, decode, |responses|);
  }

  /** The labelling quirk: once the request for `modes[k]` has failed, the `j`-th surviving response
      (j >= k) is the answer to the request for `modes[s]` with `s > j`, yet the route made from it is
      labelled `modes[j]`; with distinct modes, a label that was not the mode requested. */
  lemma MislabelAfterFailure(service: RouterApiService, baseUrl: string, origin: RoutePoint,
                             destination: RoutePoint, modes: seq<string>, show: real -> string,
                             fetch: RouteRequest -> HttpOutcome, decode: string -> Option<seq<(real, real)>>,
                             k: nat, j: nat)
    requires var outcomes := service.Settle(baseUrl, origin, destination, modes, show, fetch);
      k < |outcomes| && outcomes[k].Err? && k <= j < |Fulfilled(outcomes)|
    requires forall a, b :: 0 <= a < b < |modes| ==> modes[a] != modes[b]
    ensures var outcomes := service.Settle(baseUrl, origin, destination, modes, show, fetch);
      var responses := service.CalculateMultipleRoutes(baseUrl, origin, destination, modes, show, fetch);
      var s := SourceIndex(outcomes, j);
      && j < s < |modes|
      && outcomes[s] == service.CalculateRoute(baseUrl, origin, destination, RequestedOptions(modes[s]), show, fetch)
      && outcomes[s] == Ok(responses[j])
      && (HasFeatures(responses[j]) ==> RouteFor(service, responses[j], modes[j], decode).mode == modes[j] != modes[s])
  {
    var outcomes := service.Settle(baseUrl, origin, destination, modes, show, fetch);
    FulfilledShiftsAfterFailure(outcomes, k, j);
  }

  /** A concrete instance: with modes `car` then `bicycle`, the car request failing and the bicycle
      request answering one feature, the only route produced is the bicycle answer labelled `car`. */
  lemma BicycleAnswerLabelledCar(service: RouterApiService, baseUrl: string, origin: RoutePoint,
                                 destination: RoutePoint, show: real -> string, fetch: RouteRequest -> HttpOutcome,
                                 decode: string -> Option<seq<(real, real)>>, feature: CartowayFeature)
    requires forall req :: fetch(req) == (if ("mode", "car") in req.params then NetworkFailure("Failed to fetch") else HttpResponse(200, Ok(FeatureCollection(Some([feature])))))
    ensures var responses := service.CalculateMultipleRoutes(baseUrl, origin, destination, ["car", "bicycle"], show, fetch);
      && responses == [FeatureCollection(Some([feature]))]
      && CollectedRoutes(service, responses, ["car", "bicycle"], decode, 1)
         == Ok([RouteFor(service, responses[0], "car", decode)])
      && RouteFor(service, responses[0], "car", decode).mode == "car"
  {
    var modes := ["car", "bicycle"];
    var body := FeatureCollection(Some([feature]));
    var carReq := service.Request(baseUrl, origin, destination, RequestedOptions("car"), show);
    var bikeReq := service.Request(baseUrl, origin, destination, RequestedOptions("bicycle"), show);
    assert carReq.params[1] == ("mode", "car");
    assert ("mode", "car") !in bikeReq.params by {
      assert bikeReq.params[1] == ("mode", "bicycle");
      assert bikeReq.params[0].0 == "api_key" && bikeReq.params[2].0 == "locs";
      assert bikeReq.params[3].0 == "geometry" && bikeReq.params[4].0 == "precision";
    }
    var carOutcome := service.CalculateRoute(baseUrl, origin, destination, RequestedOptions("car"), show, fetch);
    var bikeOutcome := service.CalculateRoute(baseUrl, origin, destination, RequestedOptions("bicycle"), show, fetch);
    assert carOutcome == Err("Failed to fetch");
    assert bikeOutcome == Ok(body);
    var outcomes := service.Settle(baseUrl, origin, destination, modes, show, fetch);
    assert outcomes == [carOutcome, bikeOutcome];
    assert outcomes[1..] == [bikeOutcome];
    assert outcomes[1..][1..] == [];
    assert Fulfilled(outcomes[1..][1..]) == [];
    assert Fulfilled(outcomes[1..]) == [body];
    assert Fulfilled(outcomes) == [body];
    var responses := [body];
    assert CollectedRoutes(service, responses, modes, decode, 0) == Ok([]);
    var route := RouteFor(service, body, "car", decode);
    assert [] + [route] == [route];
    assert CollectedRoutes(service, responses, modes, decode, 1) == Ok([route]);
    assert service.CalculateMultipleRoutes(baseUrl, origin, destination, modes, show, fetch) == responses;
    assert HasFeatures(body);
  }

  /** `prevRoutes.filter(route => !modes.includes(route.mode))`. */
  function RoutesOfOtherModes(routes: seq<RouteResult>, modes: seq<string>): (r: seq<RouteResult>)
    ensures |r| <= |routes|
    ensures forall k :: 0 <= k < |r| ==> r[k].mode !in modes
  {
    if routes == [] then []
    else (if routes[0].mode !in modes then [routes[0]] else []) + RoutesOfOtherModes(routes[1..], modes)
  }

  /** The routes after a calculation: the old routes of the modes not requested, then the new ones. */
  function Merge(old_: seq<RouteResult>, modes: seq<string>, added: seq<RouteResult>): (r: seq<RouteResult>)
    ensures |added| <= |r| <= |old_| + |added|
    ensures r[|r| - |added|..] == added
    ensures forall k :: 0 <= k < |r| - |added| ==> r[k].mode !in modes
  {
    RoutesOfOtherModes(old_, modes) + added
  }

  /** The routes of one mode, in order. */
  function RoutesOfMode(routes: seq<RouteResult>, mode: string): (r: seq<RouteResult>)
    ensures |r| <= |routes|
    ensures forall k :: 0 <= k < |r| ==> r[k].mode == mode
  {
    if routes == [] then []
    else (if routes[0].mode == mode then [routes[0]] else []) + RoutesOfMode(routes[1..], mode)
  }

  lemma {:induction false} RoutesOfModeAppend(a: seq<RouteResult>, b: seq<RouteResult>, mode: string)
    ensures RoutesOfMode(a + b, mode) == RoutesOfMode(a, mode) + RoutesOfMode(b, mode)
  {
    if a != [] {
      var head := if a[0].mode == mode then [a[0]] else [];
      assert (a + b)[0] == a[0];
      assert (a + b)[1..] == a[1..] + b;
      assert RoutesOfMode(a + b, mode) == head + RoutesOfMode(a[1..] + b, mode);
      RoutesOfModeAppend(a[1..], b, mode);
    } else {
      assert a + b == b;
    }
  }

  lemma {:induction false} RoutesOfModeOfOthers(routes: seq<RouteResult>, modes: seq<string>, mode: string)
    ensures RoutesOfMode(RoutesOfOtherModes(routes, modes), mode)
         == if mode in modes then [] else RoutesOfMode(routes, mode)
  {
    if routes != [] {
      RoutesOfModeOfOthers(routes[1..], modes, mode);
      var head := if routes[0].mode !in modes then [routes[0]] else [];
      RoutesOfModeAppend(head, RoutesOfOtherModes(routes[1..], modes), mode);
    }
  }

  lemma {:induction false} RoutesOfModeAbsent(routes: seq<RouteResult>, mode: string)
    requires forall k :: 0 <= k < |routes| ==> routes[k].mode != mode
    ensures RoutesOfMode(routes, mode) == []
  {
    if routes != [] {
      RoutesOfModeAbsent(routes[1..], mode);
    }
  }

  /** The merge replaces the requested modes and keeps the others: for a requested mode the merged
      routes of that mode are exactly the new ones, and for any other mode they are exactly the old
      ones, in their original order. */
  lemma MergeReplacesRequestedModes(old_: seq<RouteResult>, modes: seq<string>, added: seq<RouteResult>, mode: string)
    requires forall k :: 0 <= k < |added| ==> added[k].mode in modes
    ensures mode in modes ==> RoutesOfMode(Merge(old_, modes, added), mode) == RoutesOfMode(added, mode)
    ensures mode !in modes ==> RoutesOfMode(Merge(old_, modes, added), mode) == RoutesOfMode(old_, mode)
  {
    RoutesOfModeAppend(RoutesOfOtherModes(old_, modes), added, mode);
    RoutesOfModeOfOthers(old_, modes, mode);
    if mode !in modes {
      RoutesOfModeAbsent(added, mode);
    }
  }

  /** The hook's state: the current routes, whether a calculation runs, and the error shown. */
  datatype HookState = HookState(routes: seq<RouteResult>, isCalculating: bool, error: Option<string>)

  /** The state `calculateRoutes` leaves behind. With no mode, or while flagged as calculating,
      nothing changes. Otherwise the router is asked for every mode; if collecting the routes
      throws, the error is shown and the routes emptied; if not, the requested modes' routes are
      replaced by the new ones, and the "no routes found" message is shown when there are none.
      Either way the calculation is over. */
  function Calculate(service: RouterApiService, s: HookState, baseUrl: string, origin: RoutePoint,
                     destination: RoutePoint, modes: seq<string>, show: real -> string,
                     fetch: RouteRequest -> HttpOutcome, decode: string -> Option<seq<(real, real)>>,
                     t: string -> string): (r: HookState)
    reads service
    ensures |modes| == 0 || s.isCalculating ==> r == s
    ensures |modes| > 0 && !s.isCalculating ==> !r.isCalculating
  {
    if |modes| == 0 || s.isCalculating then s
    else
      var responses := service.CalculateMultipleRoutes(baseUrl, origin, destination, modes, show, fetch);
      AfterCollect(s, modes, CollectedRoutes(service, responses, modes, decode, |responses|), t)
  }

  /** The state once the routes are collected: on a throw, no routes and the thrown message; else
      the merge, with the "no routes found" message when nothing new came. The flag is down. */
  function AfterCollect(s: HookState, modes: seq<string>, collected: Result<seq<RouteResult>>,
                        t: string -> string): (r: HookState)
    ensures !r.isCalculating
    ensures r.error.None? <==> collected.Ok? && collected.value != []
    ensures collected.Err? ==> r.routes == [] && r.error == Some(collected.message)
  {
    match collected
    case Err(msg) => HookState([], false, Some(msg))
    case Ok(added) =>
      HookState(Merge(s.routes, modes, added), false, if added == [] then Some(t(NoRoutesFoundKey)) else None)
  }

  /** A calculation that starts is `AfterCollect` of what collecting the answers gives. */
  lemma CalculateUnfolds(service: RouterApiService, s: HookState, baseUrl: string, origin: RoutePoint,
                         destination: RoutePoint, modes: seq<string>, show: real -> string,
                         fetch: RouteRequest -> HttpOutcome, decode: string -> Option<seq<(real, real)>>,
                         t: string -> string)
    requires |modes| > 0 && !s.isCalculating
    ensures var responses := service.CalculateMultipleRoutes(baseUrl, origin, destination, modes, show, fetch);
      Calculate(service, s, baseUrl, origin, destination, modes, show, fetch, decode, t)
      == AfterCollect(s, modes, CollectedRoutes(service, responses, modes, decode, |responses|), t)
  {
  }

  /** `clearRoutes`: no routes and no error. */
  function Cleared(s: HookState): HookState
  {
    s.(routes := [], error := None)
  }

  /** A calculation that starts always ends with the flag down, and its error is either none, the
      "no routes found" message, or the message of the error thrown while collecting. */
  lemma CalculateEnds(service: RouterApiService, s: HookState, baseUrl: string, origin: RoutePoint,
                      destination: RoutePoint, modes: seq<string>, show: real -> string,
                      fetch: RouteRequest -> HttpOutcome, decode: string -> Option<seq<(real, real)>>,
                      t: string -> string)
    requires |modes| > 0 && !s.isCalculating
    ensures var s' := Calculate(service, s, baseUrl, origin, destination, modes, show, fetch, decode, t);
      && !s'.isCalculating
      && s'.error in {None, Some(t(NoRoutesFoundKey)), Some(NullBodyMessage)}
  {
    var responses := service.CalculateMultipleRoutes(baseUrl, origin, destination, modes, show, fetch);
    CollectedRoutesShape(service, responses, modes, decode, |responses|);
  }

  /** When every response has a body, the calculation keeps the routes of the modes not requested
      exactly as they were, and the routes of each requested mode are exactly the new ones for it;
      every new route carries a requested mode, so old routes of requested modes are gone even when
      nothing new arrives (then with the "no routes found" error). There are never more new routes
      than requested modes. */
  lemma CalculateMerges(service: RouterApiService, s: HookState, baseUrl: string, origin: RoutePoint,
                        destination: RoutePoint, modes: seq<string>, show: real -> string,
                        fetch: RouteRequest -> HttpOutcome, decode: string -> Option<seq<(real, real)>>,
                        t: string -> string, mode: string)
    requires |modes| > 0 && !s.isCalculating
    requires var responses := service.CalculateMultipleRoutes(baseUrl, origin, destination, modes, show, fetch);
      forall i :: 0 <= i < |responses| ==> !responses[i].NullBody?
    ensures var responses := service.CalculateMultipleRoutes(baseUrl, origin, destination, modes, show, fetch);
      var added := CollectedRoutes(service, responses, modes, decode, |responses|);
      var s' := Calculate(service, s, baseUrl, origin, destination, modes, show, fetch, decode, t);
      && added.Ok? && |added.value| <= |responses| <= |modes|
      && s'.routes == Merge(s.routes, modes, added.value)
      && (mode !in modes ==> RoutesOfMode(s'.routes, mode) == RoutesOfMode(s.routes, mode))
      && (mode in modes ==> RoutesOfMode(s'.routes, mode) == RoutesOfMode(added.value, mode))
      && (s'.error == None <==> added.value != [])
      && (added.value == [] ==> s'.error == Some(t(NoRoutesFoundKey)))
  {
    var responses := service.CalculateMultipleRoutes(baseUrl, origin, destination, modes, show, fetch);
    CollectedRoutesShape(service, responses, modes, decode, |responses|);
    var added := CollectedRoutes(service, responses, modes, decode, |responses|);
    CollectedRoutesModes(service, responses, modes, decode);
    MergeReplacesRequestedModes(s.routes, modes, added.value, mode);
  }

  /** A `null` body among the responses makes collecting throw: the routes are emptied and its
      message shown. */
  lemma CalculateThrows(service: RouterApiService, s: HookState, baseUrl: string, origin: RoutePoint,
                        destination: RoutePoint, modes: seq<string>, show: real -> string,
                        fetch: RouteRequest -> HttpOutcome, decode: string -> Option<seq<(real, real)>>,
                        t: string -> string, i: nat)
    requires |modes| > 0 && !s.isCalculating
    requires var responses := service.CalculateMultipleRoutes(baseUrl, origin, destination, modes, show, fetch);
      i < |responses| && responses[i].NullBody?
    ensures Calculate(service, s, baseUrl, origin, destination, modes, show, fetch, decode, t)
         == HookState([], false, Some(NullBodyMessage))
  {
    var responses := service.CalculateMultipleRoutes(baseUrl, origin, destination, modes, show, fetch);
    CollectedRoutesShape(service, responses, modes, decode, |responses|);
  }

  class RouteCalculation {
    var routes: seq<RouteResult>
    var isCalculating: bool
    var error: Option<string>
    /** The router client kept in a ref, created once with no explicit key. */
    const service: RouterApiService

    function State(): HookState
      reads this
    {
      HookState(routes, isCalculating, error)
    }

    /** `configuredKey` is ROUTER_API_KEY from the build environment. */
    constructor (configuredKey: Option<string>)
      ensures State() == HookState([], false, None)
      ensures fresh(service) && service.apiKey == ResolveApiKey(None, configuredKey)
    {
      routes, isCalculating, error := [], false, None;
      service := new RouterApiService(None, configuredKey);
    }

    /** The `forEach` that pairs the `index`-th response with `modes[index]` and pushes a route for
        each response with features; a `null` body throws. */
    method CollectRoutes(responses: seq<CartowayResponse>, modes: seq<string>,
                         decode: string -> Option<seq<(real, real)>>) returns (r: Result<seq<RouteResult>>)
      requires |responses| <= |modes|
      ensures r == CollectedRoutes(service, responses, modes, decode, |responses|)
    {
      var routeResults: seq<RouteResult> := [];
      var index := 0;
      while index < |responses|
        invariant index <= |responses|
        invariant CollectedRoutes(service, responses, modes, decode, index) == Ok(routeResults)
      {
        var result := responses[index];
        if result.NullBody? {
          CollectedRoutesErrPersists(service, responses, modes, decode, index + 1, |responses|);
          return Err(NullBodyMessage);
        }
        var mode := modes[index];
        if HasFeatures(result) {
          var routeResult := service.ConvertToRouteResult(result.features.value[0], mode, decode);
          routeResults := routeResults + [routeResult.(color := RouteColorOrDefault(mode))];
        }
        index := index + 1;
      }
      r := Ok(routeResults);
    }

    /** `calculateRoutes`. The `isCalculating` guard reads the field as it is now. */
    method CalculateRoutes(baseUrl: string, origin: RoutePoint, destination: RoutePoint, modes: seq<string>,
                           show: real -> string, fetch: RouteRequest -> HttpOutcome,
                           decode: string -> Option<seq<(real, real)>>, t: string -> string)
      modifies this
      ensures State() == Calculate(service, old(State()), baseUrl, origin, destination, modes, show, fetch, decode, t)
    {
      if |modes| == 0 {
        return;
      }
      if isCalculating {
        return;
      }
      isCalculating := true;
      error := None;
      var responses := service.CalculateMultipleRoutes(baseUrl, origin, destination, modes, show, fetch);
      var collected := CollectRoutes(responses, modes, decode);
      ghost var expected := AfterCollect(old(State()), modes, collected, t);
      if collected.Err? {
        error := Some(collected.message);
        routes := [];
      } else {
        var routeResults := collected.value;
        routes := Merge(routes, modes, routeResults);
        if |routeResults| == 0 {
          error := Some(t(NoRoutesFoundKey));
        }
      }
      isCalculating := false;
      CalculateUnfolds(service, old(State()), baseUrl, origin, destination, modes, show, fetch, decode, t);
      assert State() == expected;
    }

    /** `clearRoutes`. */
    method ClearRoutes()
      modifies this
      ensures State() == Cleared(old(State()))
    {
      routes := [];
      error := None;
    }
  }
}
