/** The decisions of the map view (src/components/MapComponent.tsx): where a click goes, which
    routes are drawn and with which of their coordinates, the ids of the sources and layers it adds
    and removes, the one-shot "initial fit" and the box it fits to, the marker positions and the
    instruction shown. The map library itself (tiles, drawing, camera) is not modelled; its state
    is reduced to the lists of source and layer ids. */
module MapComponent {
  import opened Wrappers
  import opened Strings
  import opened RouteTypes

  /** `createClickHandler`: a click sets the origin while there is none, and the destination
      otherwise, so it never replaces an existing origin. */
  function ClickTarget(origin: Option<RoutePoint>, destination: Option<RoutePoint>): (kind: PointKind)
    ensures kind == Origin <==> origin.None?
  {
    if origin.None? then Origin
    else if destination.None? then Destination
    else Destination
  }

  /** The translation key of the instruction overlay, or "" when only the destination is set. */
  function InstructionKey(origin: Option<RoutePoint>, destination: Option<RoutePoint>): (key: string)
    ensures key == "" <==> origin.None? && destination.Some?
    ensures origin.None? && destination.None? ==> key == "map.instructions.selectOrigin"
    ensures origin.Some? && destination.None? ==> key == "map.instructions.selectDestination"
    ensures origin.Some? && destination.Some? ==> key == "map.instructions.modifyDestination"
  {
    if origin.None? && destination.None? then "map.instructions.selectOrigin"
    else if origin.Some? && destination.None? then "map.instructions.selectDestination"
    else if origin.Some? && destination.Some? then "map.instructions.modifyDestination"
    else ""
  }

  /** `getInstructionText`: the translated instruction for the next click, and no text once only
      the destination is set. */
  function InstructionText(origin: Option<RoutePoint>, destination: Option<RoutePoint>, t: string -> string): (text: string)
    ensures origin.None? && destination.None? ==> text == t("map.instructions.selectOrigin")
    ensures origin.Some? && destination.None? ==> text == t("map.instructions.selectDestination")
    ensures origin.Some? && destination.Some? ==> text == t("map.instructions.modifyDestination")
    ensures origin.None? && destination.Some? ==> text == ""
  {
    var key := InstructionKey(origin, destination);
    if key == "" then "" else t(key)
  }

  /** A route is drawn only if it has a geometry and its mode is visible. */
  predicate IsDrawn(route: RouteResult, visibleRoutes: seq<string>)
  {
    route.geometry.Some? && route.mode in visibleRoutes
  }

  /** A `[lng, lat]` position inside the longitude and latitude ranges. */
  predicate InRange(c: LngLat)
  {
    -180.0 <= c.0 <= 180.0 && -90.0 <= c.1 <= 90.0
  }

  /** The coordinate filter: the in-range positions, in their order. */
  function ValidCoordinates(coords: seq<LngLat>): (valid: seq<LngLat>)
    ensures |valid| <= |coords|
    ensures forall k :: 0 <= k < |valid| ==> InRange(valid[k]) && valid[k] in coords
    ensures forall i :: 0 <= i < |coords| && InRange(coords[i]) ==> coords[i] in valid
    ensures (forall i :: 0 <= i < |coords| ==> InRange(coords[i])) ==> valid == coords
  {
    if coords == [] then []
    else
      var init := coords[..|coords| - 1];
      var last := coords[|coords| - 1];
      assert forall i :: 0 <= i < |init| ==> init[i] == coords[i];
      ValidCoordinates(init) + (if InRange(last) then [last] else [])
  }

  /** Filtering a concatenation filters each part in place, so the kept positions keep their
      order; with the one-position case below this determines the filter completely. */
  lemma {:induction false} ValidCoordinatesAppend(p: seq<LngLat>, q: seq<LngLat>)
    ensures ValidCoordinates(p + q) == ValidCoordinates(p) + ValidCoordinates(q)
    decreases |q|
  {
    if |q| == 0 {
      assert p + q == p;
    } else {
      var init := q[..|q| - 1];
      assert (p + q)[..|p + q| - 1] == p + init;
      assert (p + q)[|p + q| - 1] == q[|q| - 1];
      ValidCoordinatesAppend(p, init);
    }
  }

  /** A single position is kept exactly when it is in range. */
  lemma ValidCoordinatesSingle(c: LngLat)
    ensures ValidCoordinates([c]) == if InRange(c) then [c] else []
  {
  }

  /** `route-<mode>-<index>`: the id of a route's source and main layer. */
  function LayerId(mode: string, index: nat): (id: string)
    ensures IsRouteId(id)
  {
    assert ("route-" + mode + "-" + NatToString(index))[..6] == "route-";
    "route-" + mode + "-" + NatToString(index)
  }

  /** The id of the white outline layer drawn under a route. */
  function OutlineId(layerId: string): string
  {
    layerId + "-outline"
  }

  /** What the cleanup removes: every id starting with `route-`. */
  predicate IsRouteId(id: string)
  {
    StartsWith(id, "route-")
  }

  /** Every id the view adds for a route, source, main layer or outline, is one that the next
      cleanup removes. */
  lemma RouteIdsAreCleanedUp(mode: string, index: nat)
    ensures IsRouteId(LayerId(mode, index)) && IsRouteId(OutlineId(LayerId(mode, index)))
  {
    assert OutlineId(LayerId(mode, index))[..6] == "route-";
  }

  /** The index ends every layer id, after a '-', and has no '-' itself, so two routes at different
      indices never share an id, whatever their modes. */
  lemma LayerIdInjective(m1: string, i1: nat, m2: string, i2: nat)
    requires LayerId(m1, i1) == LayerId(m2, i2)
    ensures i1 == i2 && m1 == m2
  {
    var s := LayerId(m1, i1);
    var d1, d2 := NatToString(i1), NatToString(i2);
    assert s == ("route-" + m1 + "-") + d1;
    assert s == ("route-" + m2 + "-") + d2;
    if |d1| < |d2| {
      DashBeforeDigits("route-" + m1 + "-", d1, "route-" + m2 + "-", d2);
    } else if |d2| < |d1| {
      DashBeforeDigits("route-" + m2 + "-", d2, "route-" + m1 + "-", d1);
    }
    assert d1 == s[|s| - |d1|..] == d2;
    NatToStringInjective(i1, i2);
    assert "route-" + m1 + "-" == s[..|s| - |d1|] == "route-" + m2 + "-";
    assert m1 == ("route-" + m1 + "-")[6..|m1| + 6];
  }

  /** In `a + da == b + db` with `a` ending in '-' and `db` all digits, `da` cannot be shorter
      than `db`: the '-' would fall among the digits. */
  lemma DashBeforeDigits(a: string, da: string, b: string, db: string)
    requires a + da == b + db && |a| >= 1 && a[|a| - 1] == '-'
    requires forall i :: 0 <= i < |db| ==> IsDigit(db[i])
    ensures |da| >= |db|
  {
    var s := a + da;
    assert forall i :: |b| <= i < |s| ==> s[i] == db[i - |b|] && IsDigit(s[i]);
    assert !IsDigit(s[|a| - 1]);
  }

  /** A route the view draws: its source id, the layers drawn from it (outline first) and the
      positions it draws. */
  datatype DrawnRoute = DrawnRoute(sourceId: string, layerIds: seq<string>, coordinates: seq<LngLat>, color: string)

  /** Route `i` is drawn: it is shown, has a geometry, and has at least one in-range position. */
  predicate Draws(routes: seq<RouteResult>, visibleRoutes: seq<string>, i: nat)
    requires i < |routes|
  {
    IsDrawn(routes[i], visibleRoutes) && ValidCoordinates(routes[i].geometry.value.coordinates) != []
  }

  /** What the view adds for route `i`: a source and a main layer under `route-<mode>-<i>`, the
      outline layer beneath it, the route's in-range positions and its colour. */
  function DrawingOf(routes: seq<RouteResult>, i: nat): DrawnRoute
    requires i < |routes| && routes[i].geometry.Some?
  {
    var id := LayerId(routes[i].mode, i);
    DrawnRoute(id, [OutlineId(id), id], ValidCoordinates(routes[i].geometry.value.coordinates), routes[i].color)
  }

  /** The routes the `forEach` draws, from index `from` on, in index order. */
  function DrawnFrom(routes: seq<RouteResult>, visibleRoutes: seq<string>, from: nat): (drawn: seq<DrawnRoute>)
    requires from <= |routes|
    ensures |drawn| <= |routes| - from
    decreases |routes| - from
  {
    if from == |routes| then []
    else
      var rest := DrawnFrom(routes, visibleRoutes, from + 1);
      if Draws(routes, visibleRoutes, from) then [DrawingOf(routes, from)] + rest else rest
  }

  /** The index of the route the `k`-th drawing from index `from` on is made of: a qualifying
      route, whose drawing it is. */
  function DrawingSource(routes: seq<RouteResult>, visibleRoutes: seq<string>, from: nat, k: nat): (i: nat)
    requires from <= |routes| && k < |DrawnFrom(routes, visibleRoutes, from)|
    ensures from <= i < |routes| && Draws(routes, visibleRoutes, i)
    ensures DrawnFrom(routes, visibleRoutes, from)[k] == DrawingOf(routes, i)
    decreases |routes| - from
  {
    var rest := DrawnFrom(routes, visibleRoutes, from + 1);
    if Draws(routes, visibleRoutes, from) then
      assert DrawnFrom(routes, visibleRoutes, from) == [DrawingOf(routes, from)] + rest;
      if k == 0 then from else DrawingSource(routes, visibleRoutes, from + 1, k - 1)
    else
      DrawingSource(routes, visibleRoutes, from + 1, k)
  }

  /** Every route from index `from` on that qualifies is drawn. */
  lemma {:induction false} DrawnFromComplete(routes: seq<RouteResult>, visibleRoutes: seq<string>, from: nat, i: nat)
    requires from <= i < |routes| && Draws(routes, visibleRoutes, i)
    ensures DrawingOf(routes, i) in DrawnFrom(routes, visibleRoutes, from)
    decreases i - from
  {
    if from < i {
      DrawnFromComplete(routes, visibleRoutes, from + 1, i);
    }
  }

  function Drawn(routes: seq<RouteResult>, visibleRoutes: seq<string>): seq<DrawnRoute>
  {
    DrawnFrom(routes, visibleRoutes, 0)
  }

  /** The view draws exactly the qualifying routes, each as its own drawing. */
  lemma DrawnExactly(routes: seq<RouteResult>, visibleRoutes: seq<string>, d: DrawnRoute)
    ensures d in Drawn(routes, visibleRoutes) <==>
      exists i :: 0 <= i < |routes| && Draws(routes, visibleRoutes, i) && d == DrawingOf(routes, i)
  {
    if d in Drawn(routes, visibleRoutes) {
      var k :| 0 <= k < |Drawn(routes, visibleRoutes)| && Drawn(routes, visibleRoutes)[k] == d;
      var i := DrawingSource(routes, visibleRoutes, 0, k);
    }
    if i :| 0 <= i < |routes| && Draws(routes, visibleRoutes, i) && d == DrawingOf(routes, i) {
      DrawnFromComplete(routes, visibleRoutes, 0, i);
    }
  }

  /** The source ids of the drawn routes. */
  function SourcesOf(drawn: seq<DrawnRoute>): seq<string>
  {
    if drawn == [] then [] else [drawn[0].sourceId] + SourcesOf(drawn[1..])
  }

  /** The layer ids of the drawn routes, in the order they are added. */
  function LayersOf(drawn: seq<DrawnRoute>): seq<string>
  {
    if drawn == [] then [] else drawn[0].layerIds + LayersOf(drawn[1..])
  }

  /** Every id a drawing adds is a route id. */
  lemma {:induction false} DrawnIdsAreRouteIds(routes: seq<RouteResult>, visibleRoutes: seq<string>, from: nat)
    requires from <= |routes|
    ensures forall id :: id in SourcesOf(DrawnFrom(routes, visibleRoutes, from)) ==> IsRouteId(id)
    ensures forall id :: id in LayersOf(DrawnFrom(routes, visibleRoutes, from)) ==> IsRouteId(id)
    decreases |routes| - from
  {
    if from < |routes| {
      DrawnIdsAreRouteIds(routes, visibleRoutes, from + 1);
      RouteIdsAreCleanedUp(routes[from].mode, from);
    }
  }

  /** Every drawn route is visible, has a geometry, and draws only in-range positions, at least one. */
  lemma {:induction false} DrawnRoutesAreVisibleAndInRange(routes: seq<RouteResult>, visibleRoutes: seq<string>, from: nat)
    requires from <= |routes|
    ensures forall k :: 0 <= k < |DrawnFrom(routes, visibleRoutes, from)| ==>
      var d := DrawnFrom(routes, visibleRoutes, from)[k];
      d.coordinates != [] && (forall c :: c in d.coordinates ==> InRange(c))
    decreases |routes| - from
  {
    if from < |routes| {
      DrawnRoutesAreVisibleAndInRange(routes, visibleRoutes, from + 1);
    }
  }

  /** The ids left after the cleanup: those not starting with `route-`. */
  function WithoutRouteIds(ids: seq<string>): (kept: seq<string>)
    ensures forall id :: id in kept <==> id in ids && !IsRouteId(id)
  {
    if ids == [] then []
    else (if IsRouteId(ids[0]) then [] else [ids[0]]) + WithoutRouteIds(ids[1..])
  }

  /** A box in longitude and latitude, as `LngLatBounds` grows it. */
  datatype Box = Box(west: real, south: real, east: real, north: real)

  function Min(a: real, b: real): real { if a <= b then a else b }
  function Max(a: real, b: real): real { if a <= b then b else a }

  predicate Contains(b: Box, c: LngLat)
  {
    b.west <= c.0 <= b.east && b.south <= c.1 <= b.north
  }

  /** `bounds.extend(c)`. */
  function Extend(b: Option<Box>, c: LngLat): (r: Box)
    ensures Contains(r, c)
  {
    match b
    case None => Box(c.0, c.1, c.0, c.1)
    case Some(box) => Box(Min(box.west, c.0), Min(box.south, c.1), Max(box.east, c.0), Max(box.north, c.1))
  }

  /** Extending never shrinks the box. */
  lemma ExtendGrows(b: Box, c: LngLat, p: LngLat)
    requires Contains(b, p)
    ensures Contains(Extend(Some(b), c), p)
  {
  }

  /** The box after extending by each position in turn. */
  function ExtendAll(b: Option<Box>, cs: seq<LngLat>): Option<Box>
  {
    if cs == [] then b else Some(Extend(ExtendAll(b, cs[..|cs| - 1]), cs[|cs| - 1]))
  }

  /** The box holds every position it was extended by. */
  lemma {:induction false} ExtendAllContains(b: Option<Box>, cs: seq<LngLat>)
    ensures cs != [] ==> ExtendAll(b, cs).Some?
    ensures forall c :: c in cs ==> Contains(ExtendAll(b, cs).value, c)
    ensures b.Some? ==> forall p :: Contains(b.value, p) ==> Contains(ExtendAll(b, cs).value, p)
  {
    if cs != [] {
      var init := cs[..|cs| - 1];
      ExtendAllContains(b, init);
      assert forall c :: c in cs ==> c in init || c == cs[|cs| - 1];
      forall p | ExtendAll(b, init).Some? && Contains(ExtendAll(b, init).value, p)
        ensures Contains(ExtendAll(b, cs).value, p)
      {
        ExtendGrows(ExtendAll(b, init).value, cs[|cs| - 1], p);
      }
    }
  }

  lemma {:induction false} ExtendAllAppend(b: Option<Box>, xs: seq<LngLat>, ys: seq<LngLat>)
    ensures ExtendAll(b, xs + ys) == ExtendAll(ExtendAll(b, xs), ys)
    decreases |ys|
  {
    if ys == [] {
      assert xs + ys == xs;
    } else {
      assert (xs + ys)[..|xs + ys| - 1] == xs + ys[..|ys| - 1];
      ExtendAllAppend(b, xs, ys[..|ys| - 1]);
    }
  }

  /** Extending by one more position. */
  lemma ExtendAllSnoc(b: Option<Box>, xs: seq<LngLat>, c: LngLat)
    ensures ExtendAll(b, xs + [c]) == Some(Extend(ExtendAll(b, xs), c))
  {
    assert (xs + [c])[..|xs|] == xs;
  }

  /** The filter over one more coordinate, after a fixed prefix. */
  lemma ValidCoordinatesStep(before: seq<LngLat>, coords: seq<LngLat>, j: nat)
    requires j < |coords|
    ensures before + ValidCoordinates(coords[..j + 1])
         == (before + ValidCoordinates(coords[..j])) + (if InRange(coords[j]) then [coords[j]] else [])
  {
    assert coords[..j + 1][..j] == coords[..j];
  }

  /** The positions the fit extends its box by, after origin and destination: the in-range
      positions of each route that has a geometry and is visible, route by route. */
  function FitRoutePoints(routes: seq<RouteResult>, visibleRoutes: seq<string>): seq<LngLat>
  {
    if routes == [] then []
    else
      var last := routes[|routes| - 1];
      FitRoutePoints(routes[..|routes| - 1], visibleRoutes)
      + (if IsDrawn(last, visibleRoutes) then ValidCoordinates(last.geometry.value.coordinates) else [])
  }

  lemma FitRoutePointsStep(start: seq<LngLat>, routes: seq<RouteResult>, visibleRoutes: seq<string>, i: nat)
    requires i < |routes|
    ensures start + FitRoutePoints(routes[..i + 1], visibleRoutes)
         == (start + FitRoutePoints(routes[..i], visibleRoutes))
            + (if IsDrawn(routes[i], visibleRoutes) then ValidCoordinates(routes[i].geometry.value.coordinates) else [])
  {
    assert routes[..i + 1][..i] == routes[..i];
  }

  lemma ExtendAllPair(c0: LngLat, c1: LngLat)
    ensures ExtendAll(None, [c0, c1]) == Some(Extend(Some(Extend(None, c0)), c1))
  {
    assert [c0, c1][..1] == [c0] && [c0][..0] == [];
    assert ExtendAll(None, [c0]) == Some(Extend(None, c0));
  }

  /** The whole sequence of positions the fit extends its box by. */
  function FitPoints(origin: RoutePoint, destination: RoutePoint, routes: seq<RouteResult>,
                     visibleRoutes: seq<string>): seq<LngLat>
  {
    [(origin.lng, origin.lat), (destination.lng, destination.lat)] + FitRoutePoints(routes, visibleRoutes)
  }

  /** The fitted box holds origin, destination and every in-range position of every visible route. */
  lemma FitBoxContainsPoints(origin: RoutePoint, destination: RoutePoint, routes: seq<RouteResult>,
                             visibleRoutes: seq<string>, c: LngLat)
    requires c in FitPoints(origin, destination, routes, visibleRoutes)
    ensures ExtendAll(None, FitPoints(origin, destination, routes, visibleRoutes)).Some?
    ensures Contains(ExtendAll(None, FitPoints(origin, destination, routes, visibleRoutes)).value, c)
  {
    ExtendAllContains(None, FitPoints(origin, destination, routes, visibleRoutes));
  }

  /** The map view's own state: the ids of the sources and layers on the map, the two markers'
      positions and the `hasInitialFit` flag. */
  class MapView {
    var sources: seq<string>
    var layers: seq<string>
    var originMarker: Option<LngLat>
    var destinationMarker: Option<LngLat>
    var hasInitialFit: bool

    constructor ()
      ensures sources == [] && layers == [] && originMarker == None && destinationMarker == None
      ensures !hasInitialFit
    {
      sources, layers := [], [];
      originMarker, destinationMarker := None, None;
      hasInitialFit := false;
    }

    /** The marker effects: the old marker is removed and, if the point is set, a new one is placed
        at `[lng, lat]`. */
    method UpdateMarker(kind: PointKind, point: Option<RoutePoint>)
      modifies this`originMarker, this`destinationMarker
      ensures var pos := if point.Some? then Some((point.value.lng, point.value.lat)) else None;
        && (kind == Origin ==> originMarker == pos && destinationMarker == old(destinationMarker))
        && (kind == Destination ==> destinationMarker == pos && originMarker == old(originMarker))
    {
      var pos := if point.Some? then Some((point.value.lng, point.value.lat)) else None;
      if kind == Origin {
        originMarker := pos;
      } else {
        destinationMarker := pos;
      }
    }

    /** The inner `forEach` of the bounds computation: extend by each in-range position of one
        route. */
    method ExtendByValid(box: Box, ghost before: seq<LngLat>, coords: seq<LngLat>) returns (r: Box)
      requires Some(box) == ExtendAll(None, before)
      ensures Some(r) == ExtendAll(None, before + ValidCoordinates(coords))
    {
      r := box;
      var j := 0;
      assert coords[..0] == [] && before + [] == before;
      while j < |coords|
        invariant j <= |coords|
        invariant Some(r) == ExtendAll(None, before + ValidCoordinates(coords[..j]))
      {
        var c := coords[j];
        ghost var done := before + ValidCoordinates(coords[..j]);
        ValidCoordinatesStep(before, coords, j);
        if InRange(c) {
          ExtendAllSnoc(None, done, c);
          r := Extend(Some(r), c);
        } else {
          assert done + [] == done;
        }
        j := j + 1;
      }
      assert coords[..j] == coords;
    }

    /** The bounds `forEach` loops: origin, destination, then every in-range position of every
        visible route with a geometry. */
    method ComputeFitBox(origin: RoutePoint, destination: RoutePoint, routes: seq<RouteResult>,
                         visibleRoutes: seq<string>) returns (box: Box)
      ensures Some(box) == ExtendAll(None, FitPoints(origin, destination, routes, visibleRoutes))
    {
      var start := [(origin.lng, origin.lat), (destination.lng, destination.lat)];
      box := Extend(None, start[0]);
      box := Extend(Some(box), start[1]);
      ExtendAllPair(start[0], start[1]);
      var i := 0;
      assert routes[..0] == [] && start + [] == start;
      while i < |routes|
        invariant i <= |routes|
        invariant Some(box) == ExtendAll(None, start + FitRoutePoints(routes[..i], visibleRoutes))
      {
        var route := routes[i];
        ghost var before := start + FitRoutePoints(routes[..i], visibleRoutes);
        FitRoutePointsStep(start, routes, visibleRoutes, i);
        if route.geometry.Some? && route.mode in visibleRoutes {
          box := ExtendByValid(box, before, route.geometry.value.coordinates);
        } else {
          assert before + [] == before;
        }
        i := i + 1;
      }
      assert routes[..i] == routes;
    }

    /** The routes effect. It removes every source and layer whose id starts with `route-`, adds a
        source and two layers per drawn route, and fits the camera (returning the box) only when
        there are routes, both points are set and no fit happened yet, which sets the flag; the
        flag drops whenever the routes are empty. */
    method UpdateRoutes(routes: seq<RouteResult>, visibleRoutes: seq<string>,
                        origin: Option<RoutePoint>, destination: Option<RoutePoint>) returns (fit: Option<Box>)
      modifies this`sources, this`layers, this`hasInitialFit
      ensures sources == WithoutRouteIds(old(sources)) + SourcesOf(Drawn(routes, visibleRoutes))
      ensures layers == WithoutRouteIds(old(layers)) + LayersOf(Drawn(routes, visibleRoutes))
      ensures var shouldFit := |routes| > 0 && origin.Some? && destination.Some? && !old(hasInitialFit);
        && (fit.Some? <==> shouldFit)
        && (shouldFit ==> fit == ExtendAll(None, FitPoints(origin.value, destination.value, routes, visibleRoutes)))
        && hasInitialFit == (if |routes| == 0 then false else shouldFit || old(hasInitialFit))
    {
      sources := WithoutRouteIds(sources);
      layers := WithoutRouteIds(layers);
      var drawn := Drawn(routes, visibleRoutes);
      sources := sources + SourcesOf(drawn);
      layers := layers + LayersOf(drawn);
      fit := None;
      if |routes| > 0 && origin.Some? && destination.Some? && !hasInitialFit {
        var box := ComputeFitBox(origin.value, destination.value, routes, visibleRoutes);
        fit := Some(box);
        hasInitialFit := true;
      }
      if |routes| == 0 {
        hasInitialFit := false;
      }
    }
  }

  /** After an update, the only route ids on the map are those of the routes just drawn: nothing
      from an earlier drawing survives. */
  lemma RouteIdsAfterUpdate(oldIds: seq<string>, routes: seq<RouteResult>, visibleRoutes: seq<string>, id: string)
    requires IsRouteId(id)
    ensures id in WithoutRouteIds(oldIds) + LayersOf(Drawn(routes, visibleRoutes))
        <==> id in LayersOf(Drawn(routes, visibleRoutes))
  {
  }
}
