/** The transport dashboard: active buses, today's trips, buses on route, the first
    manifests as recent activity, and the list of active routes. */
module TransportDashboard {
  import opened Wrappers
  import opened Seqs
  import opened TransportData

  const RecentManifests: nat := 5

  datatype Tone = SuccessTone | WarningTone

  datatype Summary = Summary(activeBuses: nat, tripsToday: nat, busesOnRoute: nat,
                             recent: seq<Manifest>, activeRoutes: seq<Bus>)

  predicate IsActive(b: Bus) {
    b.status == ActiveStatus
  }

  /** A manifest whose timestamp falls on `today`; one without a readable timestamp
      never does. */
  predicate OnDay(m: Manifest, today: int) {
    m.day == Some(today)
  }

  /** The dashboard's derived values for the buses, manifests and live locations
      fetched, on the calendar day `today`. */
  function Summarize(buses: seq<Bus>, manifests: seq<Manifest>, locations: seq<Location>, today: int): (r: Summary)
    ensures r.activeBuses == |r.activeRoutes| == Count(buses, IsActive) <= |buses|
    ensures forall i :: 0 <= i < |r.activeRoutes| ==> r.activeRoutes[i] in buses && IsActive(r.activeRoutes[i])
    ensures forall i :: 0 <= i < |buses| && IsActive(buses[i]) ==> buses[i] in r.activeRoutes
    ensures IsSubsequence(r.activeRoutes, buses)
    ensures r.tripsToday == |Filter(manifests, (m: Manifest) => OnDay(m, today))| <= |manifests|
    ensures r.busesOnRoute == |locations|
    ensures |r.recent| == if |manifests| < RecentManifests then |manifests| else RecentManifests
    ensures r.recent <= manifests
  {
    Summary(Count(buses, IsActive), Count(manifests, (m: Manifest) => OnDay(m, today)), |locations|,
            Take(manifests, RecentManifests), Filter(buses, IsActive))
  }

  /** A manifest falls on one day only, so the trip counts of two different days never
      exceed the number of manifests. */
  lemma TripsOnTwoDays(manifests: seq<Manifest>, d1: int, d2: int, buses: seq<Bus>, locations: seq<Location>)
    requires d1 != d2
    ensures Summarize(buses, manifests, locations, d1).tripsToday +
            Summarize(buses, manifests, locations, d2).tripsToday <= |manifests|
  {
    CountDisjoint(manifests, (m: Manifest) => OnDay(m, d1), (m: Manifest) => OnDay(m, d2));
  }

  /** No active routes are listed exactly when no bus is active. */
  lemma NoActiveRoutes(buses: seq<Bus>, manifests: seq<Manifest>, locations: seq<Location>, today: int)
    ensures Summarize(buses, manifests, locations, today).activeBuses == 0 <==>
            forall i :: 0 <= i < |buses| ==> !IsActive(buses[i])
  {
    FilterEmpty(buses, IsActive);
  }

  /** The status pill of a recent manifest: green only for CHECKED_IN. */
  function ManifestTone(status: string): (t: Tone)
    ensures t == SuccessTone <==> status == CheckedInStatus
  {
    if status == CheckedInStatus then SuccessTone else WarningTone
  }
}
