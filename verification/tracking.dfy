/** The live-tracking page: the vehicle list read from the tracker's response, the
    search by vehicle number, the automatic selection, the marker colour and the map
    centre. */
module Tracking {
  import opened Wrappers
  import opened Seqs
  import opened Text

  /** A tracked vehicle; every field may be missing. `movement` is
      `movement_state?.name`. */
  datatype Vehicle = Vehicle(number: Option<string>, lat: Option<real>, lng: Option<real>,
                             movement: Option<string>)

  /** `response.data?.data?.units`: an array of vehicles, or anything else. */
  datatype UnitsField = UnitsArray(vehicles: seq<Vehicle>) | NotAnArray

  datatype Colour = Green | Red

  const StandingState: string := "standing"
  const DefaultCentre: (Option<real>, Option<real>) := (Some(-1.2921), Some(36.8219))

  /** `getLiveLocations`: anything but an array gives no vehicles. */
  function LiveLocations(units: UnitsField): (r: seq<Vehicle>)
    ensures units.NotAnArray? ==> r == []
    ensures units.UnitsArray? ==> r == units.vehicles
  {
    match units
    case UnitsArray(vs) => vs
    case NotAnArray => []
  }

  /** `v.number?.toLowerCase().includes(search.toLowerCase())` is truthy. */
  predicate NumberMatches(v: Vehicle, search: string) {
    v.number.Some? && ContainsIgnoringCase(v.number.value, search)
  }

  /** `filteredLocations` */
  function FilteredVehicles(vehicles: seq<Vehicle>, search: string): (r: seq<Vehicle>)
    ensures forall i :: 0 <= i < |r| ==> r[i] in vehicles && r[i].number.Some?
    ensures forall i :: 0 <= i < |r| ==> ContainsIgnoringCase(r[i].number.value, search)
    ensures forall i :: 0 <= i < |vehicles| && NumberMatches(vehicles[i], search) ==> vehicles[i] in r
    ensures IsSubsequence(r, vehicles)
    ensures |r| == Count(vehicles, (v: Vehicle) => NumberMatches(v, search))
  {
    Filter(vehicles, (v: Vehicle) => NumberMatches(v, search))
  }

  /** With an empty search the list holds exactly the vehicles that have a number. */
  lemma EmptySearchListsNumberedVehicles(vehicles: seq<Vehicle>)
    ensures FilteredVehicles(vehicles, "") == Filter(vehicles, (v: Vehicle) => v.number.Some?)
  {
    forall i | 0 <= i < |vehicles| && vehicles[i].number.Some?
      ensures NumberMatches(vehicles[i], "")
    {
      EmptyTermMatches(vehicles[i].number.value);
    }
    FilterCongruent(vehicles, (v: Vehicle) => NumberMatches(v, ""), (v: Vehicle) => v.number.Some?);
  }

  /** The auto-select effect: the first filtered vehicle, or none. */
  function AutoSelect(filtered: seq<Vehicle>): (r: Option<Vehicle>)
    ensures r.None? <==> |filtered| == 0
    ensures r.Some? ==> r.value == filtered[0]
  {
    if |filtered| > 0 then Some(filtered[0]) else None
  }

  /** The selection is the first vehicle in the whole list whose number matches. */
  lemma SelectionIsFirstMatch(vehicles: seq<Vehicle>, search: string)
    ensures AutoSelect(FilteredVehicles(vehicles, search)) == Find(vehicles, (v: Vehicle) => NumberMatches(v, search))
  {
    FilterHeadIsFind(vehicles, (v: Vehicle) => NumberMatches(v, search));
  }

  /** The marker and list colour. */
  function MarkerColour(v: Vehicle): (c: Colour)
    ensures c == Green <==> v.movement == Some(StandingState)
  {
    if v.movement == Some(StandingState) then Green else Red
  }

  /** A coordinate is truthy when present and not zero. */
  predicate CoordinateTruthy(x: Option<real>) {
    x.Some? && x.value != 0.0
  }

  /** The map centre: the selected vehicle when both its coordinates are truthy, else
      the first vehicle's coordinates (whatever they are), else the fixed default. */
  function Centre(selected: Option<Vehicle>, vehicles: seq<Vehicle>): (r: (Option<real>, Option<real>))
    ensures selected.Some? && CoordinateTruthy(selected.value.lat) && CoordinateTruthy(selected.value.lng) ==>
              r == (selected.value.lat, selected.value.lng)
    ensures !(selected.Some? && CoordinateTruthy(selected.value.lat) && CoordinateTruthy(selected.value.lng)) ==>
              r == if |vehicles| > 0 then (vehicles[0].lat, vehicles[0].lng) else DefaultCentre
  {
    if selected.Some? && CoordinateTruthy(selected.value.lat) && CoordinateTruthy(selected.value.lng) then
      (selected.value.lat, selected.value.lng)
    else if |vehicles| > 0 then (vehicles[0].lat, vehicles[0].lng)
    else DefaultCentre
  }

  /** Both coordinates are present, so `toFixed(4)` can be called on them. */
  predicate HasCoordinates(v: Vehicle) {
    v.lat.Some? && v.lng.Some?
  }

  /** The markers and the vehicle list, or `None` when rendering throws: both print
      `vehicle.lat.toFixed(4)` and `vehicle.lng.toFixed(4)` for every listed vehicle,
      which throws for a missing coordinate. */
  function RenderedVehicles(vehicles: seq<Vehicle>, search: string): (r: Option<seq<Vehicle>>)
    ensures r.None? <==>
              exists i :: 0 <= i < |vehicles| && NumberMatches(vehicles[i], search) && !HasCoordinates(vehicles[i])
    ensures r.Some? ==> r.value == FilteredVehicles(vehicles, search)
    ensures r.Some? ==> forall i :: 0 <= i < |r.value| ==> HasCoordinates(r.value[i])
  {
    var listed := FilteredVehicles(vehicles, search);
    if forall i :: 0 <= i < |listed| ==> HasCoordinates(listed[i]) then Some(listed)
    else
      var i :| 0 <= i < |listed| && !HasCoordinates(listed[i]);
      assert NumberMatches(listed[i], search);
      None
  }

  /** On a page that renders, the map leaves the selected vehicle for the fallback
      centre only when one of its coordinates is 0. */
  lemma RenderedSelectionFallsBackOnlyAtZero(vehicles: seq<Vehicle>, search: string)
    requires RenderedVehicles(vehicles, search).Some?
    requires AutoSelect(FilteredVehicles(vehicles, search)).Some?
    ensures var v := AutoSelect(FilteredVehicles(vehicles, search)).value;
            Centre(Some(v), vehicles) == (v.lat, v.lng) || v.lat == Some(0.0) || v.lng == Some(0.0)
  {
    var listed := FilteredVehicles(vehicles, search);
    assert HasCoordinates(listed[0]);
  }

  /** The map follows the search: it centres on the first vehicle whose number matches,
      whenever both of that vehicle's coordinates are truthy. */
  lemma CentreFollowsFirstMatch(vehicles: seq<Vehicle>, search: string, i: nat)
    requires i < |vehicles| && NumberMatches(vehicles[i], search)
    requires forall j :: 0 <= j < i ==> !NumberMatches(vehicles[j], search)
    requires CoordinateTruthy(vehicles[i].lat) && CoordinateTruthy(vehicles[i].lng)
    ensures Centre(AutoSelect(FilteredVehicles(vehicles, search)), vehicles) == (vehicles[i].lat, vehicles[i].lng)
  {
    var p := (v: Vehicle) => NumberMatches(v, search);
    FilterAt(vehicles, p, i);
    assert Count(vehicles[..i], p) == 0 by {
      FilterEmpty(vehicles[..i], p);
      assert forall j :: 0 <= j < i ==> vehicles[..i][j] == vehicles[j];
      assert |Filter(vehicles[..i], p)| == 0;
    }
  }

  /** When no vehicle matches, the map falls back to the first vehicle, or the fixed
      default when there are none. */
  lemma CentreWithoutMatch(vehicles: seq<Vehicle>, search: string)
    requires forall j :: 0 <= j < |vehicles| ==> !NumberMatches(vehicles[j], search)
    ensures Centre(AutoSelect(FilteredVehicles(vehicles, search)), vehicles) ==
              if |vehicles| > 0 then (vehicles[0].lat, vehicles[0].lng) else DefaultCentre
  {
    FilterEmpty(vehicles, (v: Vehicle) => NumberMatches(v, search));
  }
}
