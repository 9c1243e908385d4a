/** The client of the routing service (src/services/routerApi.ts): the request it builds for one
    mode, how the HTTP outcome becomes a response or an error, how a feature becomes a route, and
    the fan-out over several modes that keeps only the requests that succeeded.

    The network is a parameter `fetch` from a request to its outcome, the polyline decoder a
    parameter `decode` that may fail, and JavaScript's number-to-text conversion a parameter `show`. */
module RouterApi {
  import opened Wrappers
  import opened Strings
  import opened RouteTypes

  const DefaultBaseUrl: string := "https://router.cartoway.com"
  const RoutesPath: string := "/0.1/routes"

  /** JavaScript truthiness of an optional string: present and not empty. */
  predicate Truthy(s: Option<string>)
  {
    s.Some? && s.value != ""
  }

  /** `a || b` on optional strings. */
  function Or(a: Option<string>, b: string): string
  {
    if Truthy(a) then a.value else b
  }

  /** `apiKey || import.meta.env.ROUTER_API_KEY || 'demo'`: the first non-empty of the constructor
      argument and the configured key, else "demo". */
  function ResolveApiKey(arg: Option<string>, configured: Option<string>): (key: string)
    ensures key != ""
    ensures Truthy(arg) ==> key == arg.value
    ensures !Truthy(arg) && Truthy(configured) ==> key == configured.value
    ensures !Truthy(arg) && !Truthy(configured) ==> key == "demo"
  {
    Or(arg, Or(configured, "demo"))
  }

  /** `import.meta.env.ROUTER_API_URL || 'https://router.cartoway.com'`. */
  function ResolveBaseUrl(configured: Option<string>): (url: string)
    ensures url != ""
    ensures Truthy(configured) ==> url == configured.value
    ensures !Truthy(configured) ==> url == DefaultBaseUrl
  {
    Or(configured, DefaultBaseUrl)
  }

  /** A GET request: base URL, path and the query parameters in insertion order. */
  datatype RouteRequest = RouteRequest(baseUrl: string, path: string, params: seq<(string, string)>)

  /** What `fetch` and `response.json()` give back: a network failure, or a status code and either
      the parsed body or the message of the JSON parser's error. */
  datatype HttpOutcome =
    | NetworkFailure(message: string)
    | HttpResponse(status: int, body: Result<CartowayResponse>)

  /** `response.ok`: a status in 200..299. */
  predicate IsOk(status: int)
  {
    200 <= status <= 299
  }

  const HttpErrorPrefix: string := "HTTP error! status: "

  /** The message thrown for a response that is not ok. */
  function HttpErrorMessage(status: int): string
  {
    HttpErrorPrefix + IntToString(status)
  }

  /** The message of a non-ok response names its status code, so distinct codes give distinct
      messages. */
  lemma HttpErrorMessageNamesStatus(a: nat, b: nat)
    requires HttpErrorMessage(a) == HttpErrorMessage(b)
    ensures a == b
  {
    var p := |HttpErrorPrefix|;
    assert HttpErrorMessage(a)[p..] == NatToString(a);
    assert HttpErrorMessage(b)[p..] == NatToString(b);
    NatToStringInjective(a, b);
  }

  /** `locs`: origin latitude, origin longitude, destination latitude, destination longitude,
      joined by commas. */
  function Locs(origin: RoutePoint, destination: RoutePoint, show: real -> string): string
  {
    Join([show(origin.lat), show(origin.lng), show(destination.lat), show(destination.lng)], ',')
  }

  /** The query parameters of `calculateRoute`, in the order the source inserts them. */
  function QueryParams(apiKey: string, origin: RoutePoint, destination: RoutePoint,
                       options: RouteOptions, show: real -> string): seq<(string, string)>
  {
    [("api_key", apiKey),
     ("mode", options.mode),
     ("locs", Locs(origin, destination, show)),
     ("geometry", if options.geometry == Some(true) then "true" else "false"),
     ("precision", "6")]
  }

  /** Since a JavaScript number's text contains no comma, splitting `locs` at its commas gives back
      the four coordinates, origin before destination and latitude before longitude. */
  lemma {:induction false} LocsOrder(origin: RoutePoint, destination: RoutePoint, show: real -> string)
    requires forall x :: ',' !in show(x)
    ensures Split(Locs(origin, destination, show), ',')
         == [show(origin.lat), show(origin.lng), show(destination.lat), show(destination.lng)]
  {
    var parts := [show(origin.lat), show(origin.lng), show(destination.lat), show(destination.lng)];
    assert forall i :: 0 <= i < |parts| ==> ',' !in parts[i] by {
      forall i | 0 <= i < |parts| ensures ',' !in parts[i] {
        assert i == 0 || i == 1 || i == 2 || i == 3;
      }
    }
    SplitJoin(parts, ',');
  }

  class RouterApiService {
    var apiKey: string

    /** `new RouterApiService(apiKey?)`; `configured` is ROUTER_API_KEY from the build
        environment. */
    constructor (arg: Option<string>, configured: Option<string>)
      ensures apiKey == ResolveApiKey(arg, configured)
    {
      apiKey := ResolveApiKey(arg, configured);
    }

    /** The request `calculateRoute` sends; `baseUrl` is the resolved ROUTER_BASE_URL. */
    function Request(baseUrl: string, origin: RoutePoint, destination: RoutePoint,
                     options: RouteOptions, show: real -> string): (req: RouteRequest)
      reads this
      ensures req.baseUrl == baseUrl && req.path == RoutesPath
      ensures |req.params| == 5
      ensures req.params[0] == ("api_key", apiKey)
      ensures req.params[1] == ("mode", options.mode)
      ensures req.params[2] == ("locs", Locs(origin, destination, show))
      ensures req.params[3].0 == "geometry" && (req.params[3].1 == "true" <==> options.geometry == Some(true))
      ensures req.params[4] == ("precision", "6")
    {
      RouteRequest(baseUrl, RoutesPath, QueryParams(apiKey, origin, destination, options, show))
    }

    /** `calculateRoute`: the parsed body of an ok response; otherwise the error it throws, which
        for a response that is not ok is "HTTP error! status: <code>" whatever the code. */
    function CalculateRoute(baseUrl: string, origin: RoutePoint, destination: RoutePoint,
                            options: RouteOptions, show: real -> string,
                            fetch: RouteRequest -> HttpOutcome): (r: Result<CartowayResponse>)
      reads this
      ensures var out := fetch(Request(baseUrl, origin, destination, options, show));
        && (r.Ok? <==> out.HttpResponse? && IsOk(out.status) && out.body.Ok?)
        && (r.Ok? ==> r.value == out.body.value)
        && (out.NetworkFailure? ==> r == Err(out.message))
        && (out.HttpResponse? && !IsOk(out.status) ==> r == Err(HttpErrorMessage(out.status)))
    {
      match fetch(Request(baseUrl, origin, destination, options, show))
      case NetworkFailure(msg) => Err(msg)
      case HttpResponse(status, body) =>
        if !IsOk(status) then Err(HttpErrorMessage(status)) else body
    }

    /** `convertToRouteResult`: the feature's time and distance with the decoded path, each decoded
        `[lat, lng]` turned into `[lng / 10, lat / 10]`; when decoding throws, the same figures with
        an empty path. It never fails. */
    function ConvertToRouteResult(feature: CartowayFeature, mode: string,
                                  decode: string -> Option<seq<(real, real)>>): (g: RouteResult)
      ensures g.mode == mode && g.color == ""
      ensures g.duration == feature.router.totalTime && g.distance == feature.router.totalDistance
      ensures g.geometry.Some? && g.geometry.value.kind == "LineString"
      ensures var d := decode(feature.polylines);
        && (d.None? ==> g.geometry.value.coordinates == [])
        && (d.Some? ==> (|g.geometry.value.coordinates| == |d.value|
              && forall i :: 0 <= i < |d.value| ==>
                   g.geometry.value.coordinates[i] == (d.value[i].1 / 10.0, d.value[i].0 / 10.0)))
    {
      var coordinates := match decode(feature.polylines)
        case Some(points) => ToLngLat(points)
        case None => [];
      RouteResult(mode, feature.router.totalTime, feature.router.totalDistance,
                  Some(Geometry(coordinates, "LineString")), "")
    }

    /** `calculateMultipleRoutes`: one request per mode, each asking for geometry, then the bodies
        of the fulfilled ones in mode order. A failed request only drops out; the call itself never
        fails. */
    function CalculateMultipleRoutes(baseUrl: string, origin: RoutePoint, destination: RoutePoint,
                                     modes: seq<string>, show: real -> string,
                                     fetch: RouteRequest -> HttpOutcome): (responses: seq<CartowayResponse>)
      reads this
      ensures |responses| <= |modes|
      ensures responses == Fulfilled(Settle(baseUrl, origin, destination, modes, show, fetch))
    {
      FulfilledCount(Settle(baseUrl, origin, destination, modes, show, fetch));
      Fulfilled(Settle(baseUrl, origin, destination, modes, show, fetch))
    }

    /** The settled outcome of each mode's request, in mode order (`Promise.allSettled`). */
    function Settle(baseUrl: string, origin: RoutePoint, destination: RoutePoint,
                    modes: seq<string>, show: real -> string,
                    fetch: RouteRequest -> HttpOutcome): (outcomes: seq<Result<CartowayResponse>>)
      reads this
      ensures |outcomes| == |modes|
      ensures forall i :: 0 <= i < |modes| ==>
        outcomes[i] == CalculateRoute(baseUrl, origin, destination, RequestedOptions(modes[i]), show, fetch)
    {
      if modes == [] then []
      else
        [CalculateRoute(baseUrl, origin, destination, RequestedOptions(modes[0]), show, fetch)]
        + Settle(baseUrl, origin, destination, modes[1..], show, fetch)
    }

    /** The requests `calculateMultipleRoutes` issues: exactly one per mode, in mode order, each
        for that mode with geometry. */
    lemma RequestsOfMultipleRoutes(baseUrl: string, origin: RoutePoint, destination: RoutePoint,
                                   modes: seq<string>, show: real -> string, i: nat)
      requires i < |modes|
      ensures var req := Request(baseUrl, origin, destination, RequestedOptions(modes[i]), show);
        req.params[1] == ("mode", modes[i]) && req.params[3] == ("geometry", "true")
    {
    }
  }

  /** The options of each request of `calculateMultipleRoutes`. */
  function RequestedOptions(mode: string): RouteOptions
  {
    RouteOptions(mode, None, Some(true))
  }

  /** The decoded `[lat, lng]` pairs as `[lng / 10, lat / 10]` positions. */
  function ToLngLat(points: seq<(real, real)>): (coordinates: seq<LngLat>)
    ensures |coordinates| == |points|
    ensures forall i :: 0 <= i < |points| ==> coordinates[i] == (points[i].1 / 10.0, points[i].0 / 10.0)
  {
    if points == [] then []
    else [(points[0].1 / 10.0, points[0].0 / 10.0)] + ToLngLat(points[1..])
  }

  /** The values of the fulfilled outcomes, in order (the `filter` and `map` after `allSettled`). */
  function Fulfilled(outcomes: seq<Result<CartowayResponse>>): seq<CartowayResponse>
  {
    if outcomes == [] then []
    else (if outcomes[0].Ok? then [outcomes[0].value] else []) + Fulfilled(outcomes[1..])
  }

  function CountOk(outcomes: seq<Result<CartowayResponse>>): nat
  {
    if outcomes == [] then 0 else (if outcomes[0].Ok? then 1 else 0) + CountOk(outcomes[1..])
  }

  /** One response per fulfilled outcome: never more than there were requests. */
  lemma {:induction false} FulfilledCount(outcomes: seq<Result<CartowayResponse>>)
    ensures |Fulfilled(outcomes)| == CountOk(outcomes) <= |outcomes|
  {
    if outcomes != [] {
      FulfilledCount(outcomes[1..]);
    }
  }

  /** The position among the outcomes of the `j`-th fulfilled one. */
  function SourceIndex(outcomes: seq<Result<CartowayResponse>>, j: nat): (k: nat)
    requires j < |Fulfilled(outcomes)|
    ensures j <= k < |outcomes|
    ensures outcomes[k] == Ok(Fulfilled(outcomes)[j])
    ensures CountOk(outcomes[..k]) == j
  {
    assert outcomes != [];
    var rest := outcomes[1..];
    assert outcomes == [outcomes[0]] + rest;
    if outcomes[0].Ok? && j == 0 then
      assert outcomes[..0] == [];
      0
    else
      var j' := if outcomes[0].Ok? then j - 1 else j;
      var k' := SourceIndex(rest, j');
      assert outcomes[..k' + 1] == [outcomes[0]] + rest[..k'];
      assert CountOk(outcomes[..k' + 1]) == (if outcomes[0].Ok? then 1 else 0) + CountOk(rest[..k']);
      k' + 1
  }

  /** With no failure among the outcomes, the `j`-th response is the `j`-th outcome. */
  lemma {:induction false} FulfilledWithoutFailure(outcomes: seq<Result<CartowayResponse>>)
    requires forall i :: 0 <= i < |outcomes| ==> outcomes[i].Ok?
    ensures |Fulfilled(outcomes)| == |outcomes|
    ensures forall j :: 0 <= j < |outcomes| ==> Fulfilled(outcomes)[j] == outcomes[j].value
  {
    if outcomes != [] {
      FulfilledWithoutFailure(outcomes[1..]);
    }
  }

  /** After a failed outcome at position `k`, every later response comes from a later position than
      its own index: the `j`-th response (j >= k) is the answer to request `SourceIndex(j) > j`. */
  lemma {:induction false} FulfilledShiftsAfterFailure(outcomes: seq<Result<CartowayResponse>>, k: nat, j: nat)
    requires k < |outcomes| && outcomes[k].Err?
    requires k <= j < |Fulfilled(outcomes)|
    ensures SourceIndex(outcomes, j) > j
  {
    var s := SourceIndex(outcomes, j);
    if s == j {
      if k < s {
        assert outcomes[..s][k] == outcomes[k];
        CountOkBelowLength(outcomes[..s], k);
      }
      assert false;
    }
  }

  lemma {:induction false} CountOkBound(outcomes: seq<Result<CartowayResponse>>)
    ensures CountOk(outcomes) <= |outcomes|
  {
    if outcomes != [] {
      CountOkBound(outcomes[1..]);
    }
  }

  /** A failure at `k` keeps the count of fulfilled outcomes below the length. */
  lemma {:induction false} CountOkBelowLength(outcomes: seq<Result<CartowayResponse>>, k: nat)
    requires k < |outcomes| && outcomes[k].Err?
    ensures CountOk(outcomes) < |outcomes|
  {
    if k == 0 {
      CountOkBound(outcomes[1..]);
    } else {
      CountOkBelowLength(outcomes[1..], k - 1);
    }
  }
}
