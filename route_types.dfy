/** The value types shared by the router client, the route-calculation hook and the views
    (src/types/route.ts). Coordinates and the router's figures are `real`. */
module RouteTypes {
  import opened Wrappers

  /** A point picked on the map. */
  datatype RoutePoint = RoutePoint(lat: real, lng: real, address: Option<string>)

  /** Which of the two route points an action is about. */
  datatype PointKind = Origin | Destination

  datatype RouteOptions = RouteOptions(mode: string, optimize: Option<bool>, geometry: Option<bool>)

  /** A GeoJSON position, longitude first. */
  type LngLat = (real, real)

  datatype Geometry = Geometry(coordinates: seq<LngLat>, kind: string)

  /** A route as the views display it. */
  datatype RouteResult = RouteResult(
    mode: string,
    duration: real,
    distance: real,
    geometry: Option<Geometry>,
    color: string)

  datatype RouterSummary = RouterSummary(
    totalDistance: real,
    totalTime: real,
    startPoint: (real, real),
    endPoint: (real, real))

  /** One feature of the router's answer; `polylines` is the encoded path. */
  datatype CartowayFeature = CartowayFeature(router: RouterSummary, polylines: string)

  /** The parsed JSON body of a routes request. Besides the declared feature collection (whose
      `features` member may be absent), a body may be JSON `null`, which the declared type does
      not admit but `response.json()` can produce. */
  datatype CartowayResponse =
    | NullBody
    | FeatureCollection(features: Option<seq<CartowayFeature>>)
}
