/** The assistants page: the bus-name lookup shown in each row, and the search by
    assistant name. */
module Assistants {
  import opened Wrappers
  import opened Seqs
  import opened Text
  import opened TransportData

  /** Bus `i` is the first one carrying `busId`. */
  predicate FirstBusWith(buses: seq<Bus>, i: int, busId: Option<int>)
    requires 0 <= i < |buses|
  {
    busId == Some(buses[i].id) && forall j :: 0 <= j < i ==> busId != Some(buses[j].id)
  }

  /** `getBusName(busId)`: the name of the first bus with that id, else "Not Assigned".
      An assistant without a bus id (`undefined`) matches no bus. */
  function GetBusName(buses: seq<Bus>, busId: Option<int>): (r: string)
    ensures (forall i :: 0 <= i < |buses| ==> busId != Some(buses[i].id)) ==> r == NotAssigned
    ensures forall i :: 0 <= i < |buses| && FirstBusWith(buses, i, busId) ==> r == buses[i].name
  {
    var bus := Find(buses, (b: Bus) => busId == Some(b.id));
    if bus.Some? then bus.value.name else NotAssigned
  }

  /** A lookup only ever looks at the first bus carrying the id: buses added after it
      do not change the name shown. */
  lemma GetBusNameIgnoresLaterBuses(buses: seq<Bus>, more: seq<Bus>, busId: Option<int>)
    requires exists i :: 0 <= i < |buses| && busId == Some(buses[i].id)
    ensures GetBusName(buses + more, busId) == GetBusName(buses, busId)
  {
    var i := FirstIndex(buses, (b: Bus) => busId == Some(b.id));
    var all := buses + more;
    assert all[i] == buses[i];
    assert forall j :: 0 <= j < i ==> all[j] == buses[j];
  }

  /** `filteredAssistants` */
  function FilterAssistants(assistants: seq<Assistant>, term: string): (r: seq<Assistant>)
    ensures forall i :: 0 <= i < |r| ==> r[i] in assistants && ContainsIgnoringCase(r[i].name, term)
    ensures forall i :: 0 <= i < |assistants| && ContainsIgnoringCase(assistants[i].name, term) ==> assistants[i] in r
    ensures IsSubsequence(r, assistants)
    ensures term == "" ==> r == assistants
  {
    SearchBy(assistants, (a: Assistant) => a.name, term)
  }
}
