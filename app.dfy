/** The application component: the two route points, the selected transport modes and the modes
    whose routes are shown, the handlers that change them, and the effect that recalculates the
    routes when they change. */
module App {
  import opened Wrappers
  import opened RouteTypes
  import opened RouterApi
  import opened RouteCalculation
  import opened MapComponent

  /** The modes selected when the application starts. */
  const DefaultModes: seq<string> := ["car", "cargo_bike"]

  /** `list.filter(m => m !== mode)`. */
  function RemoveAll(list: seq<string>, mode: string): (r: seq<string>)
    ensures |r| <= |list|
    ensures mode !in r
    ensures forall m :: m != mode ==> (m in r <==> m in list)
    ensures multiset(r) == multiset(list)[mode := 0]
  {
    if |list| == 0 then []
    else
      var rest := RemoveAll(list[..|list| - 1], mode);
      assert list == list[..|list| - 1] + [list[|list| - 1]];
      if list[|list| - 1] == mode then rest else rest + [list[|list| - 1]]
  }

  /** Filtering a concatenation filters each part in place: the kept modes stay in their order. */
  lemma {:induction false} RemoveAllAppend(a: seq<string>, b: seq<string>, mode: string)
    ensures RemoveAll(a + b, mode) == RemoveAll(a, mode) + RemoveAll(b, mode)
    decreases |b|
  {
    if |b| == 0 {
      assert a + b == a;
    } else {
      var init := b[..|b| - 1];
      var last := b[|b| - 1];
      assert (a + b)[..|a + b| - 1] == a + init;
      assert (a + b)[|a + b| - 1] == last;
      RemoveAllAppend(a, init, mode);
    }
  }

  /** Removing a mode that is not there changes nothing. */
  lemma {:induction false} RemoveAllAbsent(list: seq<string>, mode: string)
    requires mode !in list
    ensures RemoveAll(list, mode) == list
  {
    if |list| > 0 {
      RemoveAllAbsent(list[..|list| - 1], mode);
      assert list[..|list| - 1] + [list[|list| - 1]] == list;
    }
  }

  predicate NoDuplicates(list: seq<string>)
  {
    forall i, j :: 0 <= i < j < |list| ==> list[i] != list[j]
  }

  /** Removing a mode keeps a list free of duplicates. */
  lemma {:induction false} RemoveAllNoDuplicates(list: seq<string>, mode: string)
    requires NoDuplicates(list)
    ensures NoDuplicates(RemoveAll(list, mode))
  {
    if |list| > 0 {
      var init := list[..|list| - 1];
      var last := list[|list| - 1];
      assert NoDuplicates(init);
      RemoveAllNoDuplicates(init, mode);
      assert last !in init;
      if last != mode {
        assert last !in RemoveAll(init, mode);
      }
    }
  }

  /** The update both checkbox handlers apply: a mode in the list is removed, every occurrence of
      it; a mode not in the list is appended. */
  function Toggle(list: seq<string>, mode: string): (r: seq<string>)
    ensures mode in r <==> mode !in list
    ensures forall m :: m != mode ==> (m in r <==> m in list)
    ensures mode !in list ==> r == list + [mode]
    ensures mode in list ==> multiset(r) == multiset(list)[mode := 0]
  {
    if mode in list then RemoveAll(list, mode) else list + [mode]
  }

  /** Toggling an absent mode twice gives the list back. */
  lemma ToggleTwiceAbsent(list: seq<string>, mode: string)
    requires mode !in list
    ensures Toggle(Toggle(list, mode), mode) == list
  {
    var once := list + [mode];
    assert mode in once;
    assert once[..|once| - 1] == list;
    RemoveAllAbsent(list, mode);
  }

  /** Toggling a present mode twice moves it to the end, with no other copy of it left. */
  lemma ToggleTwicePresent(list: seq<string>, mode: string)
    requires mode in list
    ensures Toggle(Toggle(list, mode), mode) == RemoveAll(list, mode) + [mode]
  {
  }

  /** A list built only by toggling never holds the same mode twice. */
  lemma ToggleNoDuplicates(list: seq<string>, mode: string)
    requires NoDuplicates(list)
    ensures NoDuplicates(Toggle(list, mode))
  {
    if mode in list {
      RemoveAllNoDuplicates(list, mode);
    } else {
      var r := list + [mode];
      assert forall i :: 0 <= i < |list| ==> r[i] == list[i] && r[i] != mode;
    }
  }

  /** The starting selection has no duplicates. */
  lemma DefaultModesNoDuplicates()
    ensures NoDuplicates(DefaultModes)
  {
  }

  /** What the auto-calculation effect does. */
  datatype EffectAction = NoAction | CalculateFor(modes: seq<string>) | ClearAll

  /** The effect acts only once both points are set; it then calculates the routes of the selected
      modes, or clears the routes when none is selected. */
  function Effect(origin: Option<RoutePoint>, destination: Option<RoutePoint>, selectedModes: seq<string>): (a: EffectAction)
    ensures a == NoAction <==> origin.None? || destination.None?
    ensures a == ClearAll <==> origin.Some? && destination.Some? && selectedModes == []
    ensures a.CalculateFor? ==> a.modes == selectedModes && |a.modes| > 0
  {
    if origin.Some? && destination.Some? then
      if |selectedModes| > 0 then CalculateFor(selectedModes) else ClearAll
    else NoAction
  }

  /** With both points set, unticking the only selected mode clears the routes, and ticking a mode
      into an empty selection calculates the routes of that mode alone. */
  lemma EffectAfterToggle(origin: RoutePoint, destination: RoutePoint, selectedModes: seq<string>, mode: string)
    requires selectedModes == [] || selectedModes == [mode]
    ensures selectedModes == [mode] ==> Effect(Some(origin), Some(destination), Toggle(selectedModes, mode)) == ClearAll
    ensures selectedModes == [] ==> Effect(Some(origin), Some(destination), Toggle(selectedModes, mode)) == CalculateFor([mode])
  {
    if selectedModes == [mode] {
      assert RemoveAll(selectedModes, mode) == [];
    }
  }

  class AppState {
    var origin: Option<RoutePoint>
    var destination: Option<RoutePoint>
    var selectedModes: seq<string>
    var visibleRoutes: seq<string>
    /** The route calculation hook. */
    const calculation: RouteCalculation

    constructor (configuredKey: Option<string>)
      ensures origin == None && destination == None
      ensures selectedModes == DefaultModes && visibleRoutes == []
      ensures fresh(calculation) && calculation.State() == HookState([], false, None)
    {
      origin, destination := None, None;
      selectedModes, visibleRoutes := DefaultModes, [];
      calculation := new RouteCalculation(configuredKey);
    }

    /** `handlePointSelect`: sets the point of the given kind; removing a point also clears the
        routes and hides every route. */
    method HandlePointSelect(point: Option<RoutePoint>, kind: PointKind)
      modifies this, calculation
      ensures kind == Origin ==> origin == point && destination == old(destination)
      ensures kind == Destination ==> destination == point && origin == old(origin)
      ensures selectedModes == old(selectedModes)
      ensures point.None? ==> calculation.State() == Cleared(old(calculation.State())) && visibleRoutes == []
      ensures point.Some? ==> calculation.State() == old(calculation.State()) && visibleRoutes == old(visibleRoutes)
    {
      if kind == Origin {
        origin := point;
      } else {
        destination := point;
      }
      if point.None? {
        calculation.ClearRoutes();
        visibleRoutes := [];
      }
    }

    /** `handleModeToggle`. */
    method HandleModeToggle(mode: string)
      modifies this`selectedModes
      ensures selectedModes == Toggle(old(selectedModes), mode)
    {
      selectedModes := Toggle(selectedModes, mode);
    }

    /** `handleToggleRouteVisibility`. */
    method HandleToggleRouteVisibility(mode: string)
      modifies this`visibleRoutes
      ensures visibleRoutes == Toggle(old(visibleRoutes), mode)
    {
      visibleRoutes := Toggle(visibleRoutes, mode);
    }

    /** The auto-calculation effect, run after the points or the selection change: calculating
        shows the routes of exactly the selected modes, clearing hides them all. */
    method AutoCalculate(baseUrl: string, show: real -> string, fetch: RouteRequest -> HttpOutcome,
                         decode: string -> Option<seq<(real, real)>>, t: string -> string)
      modifies this`visibleRoutes, calculation
      ensures match Effect(origin, destination, selectedModes)
        case NoAction =>
          calculation.State() == old(calculation.State()) && visibleRoutes == old(visibleRoutes)
        case CalculateFor(modes) =>
          && calculation.State() == Calculate(calculation.service, old(calculation.State()), baseUrl,
                                              origin.value, destination.value, modes, show, fetch, decode, t)
          && visibleRoutes == modes
        case ClearAll =>
          calculation.State() == Cleared(old(calculation.State())) && visibleRoutes == []
    {
      if origin.Some? && destination.Some? {
        if |selectedModes| > 0 {
          calculation.CalculateRoutes(baseUrl, origin.value, destination.value, selectedModes, show, fetch, decode, t);
          visibleRoutes := selectedModes;
        } else {
          calculation.ClearRoutes();
          visibleRoutes := [];
        }
      }
    }

    /** A click on the map: sets the origin while there is none, and the destination otherwise. */
    method HandleMapClick(lat: real, lng: real)
      modifies this, calculation
      ensures var point := Some(RoutePoint(lat, lng, None));
        if old(origin).None? then origin == point && destination == old(destination)
        else destination == point && origin == old(origin)
      ensures calculation.State() == old(calculation.State())
      ensures selectedModes == old(selectedModes) && visibleRoutes == old(visibleRoutes)
    {
      HandlePointSelect(Some(RoutePoint(lat, lng, None)), ClickTarget(origin, destination));
    }

    /** A click on a marker removes that point. */
    method HandleMarkerClick(kind: PointKind)
      modifies this, calculation
      ensures kind == Origin ==> origin == None && destination == old(destination)
      ensures kind == Destination ==> destination == None && origin == old(origin)
      ensures calculation.State() == Cleared(old(calculation.State())) && visibleRoutes == []
      ensures selectedModes == old(selectedModes)
    {
      HandlePointSelect(None, kind);
    }
  }
}
