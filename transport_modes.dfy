/** The registry of transport modes with their label, icon and colour, and the lookups with
    fallbacks that the views use (src/config/transportModes.ts). */
module TransportModes {
  import opened Wrappers

  datatype Icon = Car | Bicycle | PersonWalking | Truck

  datatype TransportMode = TransportMode(id: string, labelText: string, icon: Icon, color: string)

  const DefaultColor: string := "#6B7280"

  const TransportModeList: seq<TransportMode> := [
    TransportMode("car", "Voiture", Car, "#2563EB"),
    TransportMode("bicycle", "Vélo", Bicycle, "#059669"),
    TransportMode("scooter", "Scooter", PersonWalking, "#DC2626"),
    TransportMode("truck_19", "Camion <19t", Truck, "#8B5CF6")
  ]

  /** `list.reduce((acc, mode) => { acc[mode.id] = f(mode); return acc }, {})`: a record keyed by id,
      where a later entry with an id already present overwrites the earlier one. */
  function IndexById<V>(list: seq<TransportMode>, f: TransportMode -> V): (r: map<string, V>)
    ensures r.Keys == set i | 0 <= i < |list| :: list[i].id
    ensures forall k :: k in r ==> exists i :: 0 <= i < |list| && list[i].id == k && r[k] == f(list[i])
  {
    if list == [] then map[]
    else
      var last := list[|list| - 1];
      var r := IndexById(list[..|list| - 1], f)[last.id := f(last)];
      assert forall i :: 0 <= i < |list| - 1 ==> list[..|list| - 1][i] == list[i];
      r
  }

  /** The entry stored for an id is that of its last occurrence in the list. */
  lemma {:induction false} IndexByIdLastWins<V>(list: seq<TransportMode>, f: TransportMode -> V, i: nat)
    requires i < |list|
    requires forall j :: i < j < |list| ==> list[j].id != list[i].id
    ensures list[i].id in IndexById(list, f) && IndexById(list, f)[list[i].id] == f(list[i])
  {
    if i < |list| - 1 {
      var init := list[..|list| - 1];
      assert init[i] == list[i];
      IndexByIdLastWins(init, f, i);
    }
  }

  /** Mode ids in the registry are pairwise distinct. */
  predicate DistinctIds(list: seq<TransportMode>)
  {
    forall i, j :: 0 <= i < j < |list| ==> list[i].id != list[j].id
  }

  lemma TransportModeListIds()
    ensures |TransportModeList| == 4 && DistinctIds(TransportModeList)
    ensures TransportModeList[0].id == "car" && TransportModeList[1].id == "bicycle"
    ensures TransportModeList[2].id == "scooter" && TransportModeList[3].id == "truck_19"
  {
  }

  /** TRANSPORT_MODES_MAP. */
  function ModesMap(): map<string, TransportMode>
  {
    IndexById(TransportModeList, (m: TransportMode) => m)
  }

  /** ROUTE_COLORS. */
  function RouteColors(): map<string, string>
  {
    IndexById(TransportModeList, (m: TransportMode) => m.color)
  }

  /** Every registered id maps to its own entry, and to that entry's colour in the colour record;
      the two records have exactly the registered ids as keys. */
  lemma {:induction false} RegistryLookups(i: nat)
    requires i < |TransportModeList|
    ensures ModesMap().Keys == RouteColors().Keys == set j | 0 <= j < |TransportModeList| :: TransportModeList[j].id
    ensures TransportModeList[i].id in ModesMap() && ModesMap()[TransportModeList[i].id] == TransportModeList[i]
    ensures TransportModeList[i].id in RouteColors() && RouteColors()[TransportModeList[i].id] == TransportModeList[i].color
  {
    TransportModeListIds();
    IndexByIdLastWins(TransportModeList, (m: TransportMode) => m, i);
    IndexByIdLastWins(TransportModeList, (m: TransportMode) => m.color, i);
  }

  /** The `i`-th registry entry has the id `modeId`. */
  predicate Registered(i: nat, modeId: string)
    requires i < |TransportModeList|
  {
    TransportModeList[i].id == modeId
  }

  /** `TRANSPORT_MODES_MAP[modeId]?.label || modeId`: the registered label, or the id itself for an
      unregistered id (an empty label would also fall back, since "" is falsy). */
  function GetModeLabel(modeId: string): (text: string)
    ensures text == modeId || exists i :: 0 <= i < |TransportModeList| && Registered(i, modeId)
                                           && TransportModeList[i].labelText == text
  {
    var m := ModesMap();
    if modeId in m && m[modeId].labelText != "" then m[modeId].labelText else modeId
  }

  /** `TRANSPORT_MODES_MAP[modeId]?.color || '#6B7280'`. */
  function GetModeColor(modeId: string): (color: string)
    ensures color == DefaultColor || exists i :: 0 <= i < |TransportModeList| && Registered(i, modeId)
                                                 && TransportModeList[i].color == color
  {
    var m := ModesMap();
    if modeId in m && m[modeId].color != "" then m[modeId].color else DefaultColor
  }

  /** `TRANSPORT_MODES_MAP[modeId]?.icon`: `undefined` for an unregistered id. */
  function GetModeIcon(modeId: string): (icon: Option<Icon>)
    ensures icon.Some? <==> exists i :: 0 <= i < |TransportModeList| && Registered(i, modeId)
    ensures icon.Some? ==> exists i :: 0 <= i < |TransportModeList| && Registered(i, modeId)
                                       && TransportModeList[i].icon == icon.value
  {
    var m := ModesMap();
    RegisteredIsKey(modeId);
    if modeId in m then Some(m[modeId].icon) else None
  }

  /** The registry record has an entry exactly for the registered ids. */
  lemma RegisteredIsKey(modeId: string)
    ensures modeId in ModesMap() <==> exists i :: 0 <= i < |TransportModeList| && Registered(i, modeId)
  {
    if i :| 0 <= i < |TransportModeList| && Registered(i, modeId) {
      assert TransportModeList[i].id in set j | 0 <= j < |TransportModeList| :: TransportModeList[j].id;
    }
    if modeId in ModesMap() {
      var i :| 0 <= i < |TransportModeList| && TransportModeList[i].id == modeId;
      assert Registered(i, modeId);
    }
  }

  /** A registered id gets its entry's label, colour and icon. */
  lemma LookupsOfRegistered(i: nat)
    requires i < |TransportModeList|
    ensures GetModeLabel(TransportModeList[i].id) == TransportModeList[i].labelText
    ensures GetModeColor(TransportModeList[i].id) == TransportModeList[i].color
    ensures GetModeIcon(TransportModeList[i].id) == Some(TransportModeList[i].icon)
  {
    RegistryLookups(i);
    var e := TransportModeList[i];
    assert e.labelText != "" && e.color != "" by {
      assert i == 0 || i == 1 || i == 2 || i == 3;
    }
  }

  /** An unregistered id is its own label, gets the default grey and has no icon. */
  lemma LookupsOfUnregistered(modeId: string)
    requires forall i :: 0 <= i < |TransportModeList| ==> TransportModeList[i].id != modeId
    ensures GetModeLabel(modeId) == modeId
    ensures GetModeColor(modeId) == DefaultColor
    ensures GetModeIcon(modeId) == None
  {
    RegistryLookups(0);
    var ids := set j | 0 <= j < |TransportModeList| :: TransportModeList[j].id;
    assert modeId !in ids;
    assert modeId !in ModesMap();
  }

  /** `cargo_bike`, a default selection of the app, is not registered and is labelled by its id. */
  lemma CargoBikeIsUnregistered()
    ensures GetModeLabel("cargo_bike") == "cargo_bike"
    ensures GetModeColor("cargo_bike") == DefaultColor
    ensures GetModeIcon("cargo_bike") == None
  {
    LookupsOfUnregistered("cargo_bike");
  }

  /** `ROUTE_COLORS[mode] || '#6B7280'`, the colour the route-calculation hook gives a new route. */
  function RouteColorOrDefault(modeId: string): (c: string)
    ensures c == GetModeColor(modeId)
  {
    var colors := RouteColors();
    RegistryLookups(0);
    assert modeId in colors ==> colors[modeId] == ModesMap()[modeId].color by {
      if modeId in colors {
        var i :| 0 <= i < |TransportModeList| && TransportModeList[i].id == modeId;
        RegistryLookups(i);
      }
    }
    if modeId in colors && colors[modeId] != "" then colors[modeId] else DefaultColor
  }
}
