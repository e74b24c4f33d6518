/** The buses page: how many students ride each bus, and the search by bus name or
    plate number. */
module Buses {
  import opened Wrappers
  import opened Seqs
  import opened Text
  import opened TransportData

  predicate RidesBus(s: Student, busId: int) {
    s.busId == Id(busId)
  }

  /** `getStudentCount(busId)` */
  function GetStudentCount(students: seq<Student>, busId: int): (n: nat)
    ensures n <= |students|
    ensures n == |Filter(students, (s: Student) => RidesBus(s, busId))|
  {
    Count(students, (s: Student) => RidesBus(s, busId))
  }

  /** Each student rides at most one bus, so the per-bus counts of two different buses
      together never exceed the number of students, and a student without a bus is
      counted for none. */
  lemma StudentCountsOfTwoBuses(students: seq<Student>, a: int, b: int)
    requires a != b
    ensures GetStudentCount(students, a) + GetStudentCount(students, b) <= |students|
  {
    CountDisjoint(students, (s: Student) => RidesBus(s, a), (s: Student) => RidesBus(s, b));
  }

  /** Adding a student changes only the count of that student's bus, by one. */
  lemma StudentCountAfterEnrolment(students: seq<Student>, s: Student, busId: int)
    ensures GetStudentCount(students + [s], busId) ==
              GetStudentCount(students, busId) + (if s.busId == Id(busId) then 1 else 0)
  {
    CountAppend(students, s, (st: Student) => RidesBus(st, busId));
  }

  predicate BusMatches(bus: Bus, term: string) {
    ContainsIgnoringCase(bus.name, term) || ContainsIgnoringCase(bus.plateNumber, term)
  }

  /** `filteredBuses`: name or plate contains the term, ignoring case. */
  function FilterBuses(buses: seq<Bus>, term: string): (r: seq<Bus>)
    ensures forall i :: 0 <= i < |r| ==> r[i] in buses && BusMatches(r[i], term)
    ensures forall i :: 0 <= i < |buses| && BusMatches(buses[i], term) ==> buses[i] in r
    ensures IsSubsequence(r, buses)
    ensures |r| == Count(buses, (b: Bus) => BusMatches(b, term))
  {
    Filter(buses, (b: Bus) => BusMatches(b, term))
  }

  /** An empty search keeps every bus. */
  lemma EmptySearchKeepsEveryBus(buses: seq<Bus>)
    ensures FilterBuses(buses, "") == buses
  {
    forall i | 0 <= i < |buses|
      ensures BusMatches(buses[i], "")
    {
      EmptyTermMatches(buses[i].name);
    }
    FilterKeepsAll(buses, (b: Bus) => BusMatches(b, ""));
  }
}
