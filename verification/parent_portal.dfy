/** The parent portal: the parent's students, their buses, the bus shown on each
    student card, the bus markers on the map and the map's centre. */
module ParentPortal {
  import opened Wrappers
  import opened Seqs
  import opened Text
  import opened TransportData
  import Assistants

  const DefaultCentre: (real, real) := (-1.2921, 36.8219)

  /** An array is truthy in JavaScript, even an empty one. */
  predicate ArrayTruthy<T>(a: seq<T>) {
    true
  }

  /** The filter callback `student.parent === currentUser?.name || students.slice(0, 2)`,
      read as a boolean: the second operand is an array, so it is always truthy. */
  predicate KeepForParent(student: Student, currentName: Option<string>, students: seq<Student>) {
    student.parent == currentName || ArrayTruthy(Take(students, 2))
  }

  /** `myStudents` */
  function MyStudents(students: seq<Student>, currentName: Option<string>): (r: seq<Student>)
    ensures IsSubsequence(r, students)
  {
    Filter(students, (s: Student) => KeepForParent(s, currentName, students))
  }

  /** The parent filter removes nothing: every parent sees every student. */
  lemma MyStudentsIsEveryStudent(students: seq<Student>, currentName: Option<string>)
    ensures MyStudents(students, currentName) == students
  {
    FilterKeepsAll(students, (s: Student) => KeepForParent(s, currentName, students));
  }

  /** `myBusIds`: each student's bus id slot, `undefined` and `null` kept apart. */
  function MyBusIds(myStudents: seq<Student>): (r: seq<IdRef>)
    ensures |r| == |myStudents|
    ensures forall i :: 0 <= i < |myStudents| ==> r[i] == myStudents[i].busId
  {
    Map(myStudents, (s: Student) => s.busId)
  }

  /** `myBuses`: a bus id is a number, so only a numeric slot can match it. */
  function MyBuses(buses: seq<Bus>, busIds: seq<IdRef>): (r: seq<Bus>)
    ensures forall i :: 0 <= i < |r| ==> r[i] in buses && Id(r[i].id) in busIds
    ensures forall i :: 0 <= i < |buses| && Id(buses[i].id) in busIds ==> buses[i] in r
    ensures IsSubsequence(r, buses)
    ensures |r| == Count(buses, (b: Bus) => Id(b.id) in busIds)
  {
    Filter(buses, (b: Bus) => Id(b.id) in busIds)
  }

  /** The parent's buses are exactly the buses some student rides. */
  lemma MyBusesAreRiddenBuses(buses: seq<Bus>, students: seq<Student>, currentName: Option<string>)
    ensures var r := MyBuses(buses, MyBusIds(MyStudents(students, currentName)));
            forall i :: 0 <= i < |buses| ==>
              (buses[i] in r <==> exists j :: 0 <= j < |students| && students[j].busId == Id(buses[i].id))
  {
    MyStudentsIsEveryStudent(students, currentName);
    var ids := MyBusIds(students);
    var r := MyBuses(buses, ids);
    forall i | 0 <= i < |buses|
      ensures buses[i] in r <==> exists j :: 0 <= j < |students| && students[j].busId == Id(buses[i].id)
    {
      if buses[i] in r {
        var k :| 0 <= k < |r| && r[k] == buses[i];
        var j :| 0 <= j < |ids| && ids[j] == Id(buses[i].id);
        assert students[j].busId == Id(buses[i].id);
      }
      if exists j :: 0 <= j < |students| && students[j].busId == Id(buses[i].id) {
        var j :| 0 <= j < |students| && students[j].busId == Id(buses[i].id);
        assert ids[j] == Id(buses[i].id);
      }
    }
  }

  /** `b.id === student.busId` */
  predicate BusOfStudent(b: Bus, student: Student) {
    Id(b.id) == student.busId
  }

  /** Bus `i` is the first one `buses.find` returns for the student. */
  predicate FirstBusOf(buses: seq<Bus>, i: int, student: Student) {
    0 <= i < |buses| && BusOfStudent(buses[i], student) &&
    forall j :: 0 <= j < i ==> !BusOfStudent(buses[j], student)
  }

  /** A student card's bus name and route: from the first bus with the student's bus
      id, each falling back when there is no such bus or the field is empty. */
  function StudentCard(student: Student, buses: seq<Bus>): (r: (string, string))
    ensures (forall i :: 0 <= i < |buses| ==> !BusOfStudent(buses[i], student)) ==> r == (NotAssigned, NotAvailable)
    ensures forall i :: 0 <= i < |buses| && FirstBusOf(buses, i, student) ==>
              r.0 == (if buses[i].name != "" then buses[i].name else NotAssigned) &&
              r.1 == (if buses[i].route != "" then buses[i].route else NotAvailable)
  {
    var bus := Find(buses, (b: Bus) => BusOfStudent(b, student));
    (MessageOr(if bus.Some? then Some(bus.value.name) else None, NotAssigned),
     MessageOr(if bus.Some? then Some(bus.value.route) else None, NotAvailable))
  }

  /** The card shows the same bus name as the assistants page's lookup, except that an
      empty bus name falls back to "Not Assigned" here and stays empty there. */
  lemma CardAgreesWithBusLookup(student: Student, buses: seq<Bus>)
    ensures var name := Assistants.GetBusName(buses, Known(student.busId));
            StudentCard(student, buses).0 == if name == "" then NotAssigned else name
  {
    forall i | 0 <= i < |buses|
      ensures BusOfStudent(buses[i], student) <==> Known(student.busId) == Some(buses[i].id)
    {
    }
  }

  /** The locations the map keeps: `myBusIds.includes(loc.bus?.id)`. */
  function ShownLocations(locations: seq<Location>, busIds: seq<IdRef>): (r: seq<Location>)
    ensures forall i :: 0 <= i < |r| ==> r[i] in locations && LocationBusId(r[i]) in busIds
    ensures forall i :: 0 <= i < |locations| && LocationBusId(locations[i]) in busIds ==> locations[i] in r
    ensures IsSubsequence(r, locations)
    ensures |r| == Count(locations, (l: Location) => LocationBusId(l) in busIds)
  {
    Filter(locations, (l: Location) => LocationBusId(l) in busIds)
  }

  /** The markers rendered, or `None` when rendering throws: each kept location's popup
      reads `location.bus.name`, which throws for a location without a bus. */
  function Markers(locations: seq<Location>, busIds: seq<IdRef>): (r: Option<seq<Location>>)
    ensures r.None? <==>
              exists i :: 0 <= i < |locations| && LocationBusId(locations[i]) in busIds && locations[i].bus.None?
    ensures r.Some? ==> r.value == ShownLocations(locations, busIds)
    ensures r.Some? ==> forall i :: 0 <= i < |r.value| ==> r.value[i].bus.Some?
  {
    var shown := ShownLocations(locations, busIds);
    if exists i :: 0 <= i < |shown| && shown[i].bus.None? then None else Some(shown)
  }

  /** `null` is not `undefined`: when no student's record lacks `busId` (a `null` one
      included), no location without a bus is kept and the map renders. */
  lemma MapRendersWithoutAbsentBusIds(locations: seq<Location>, students: seq<Student>)
    requires forall j :: 0 <= j < |students| ==> students[j].busId != Absent
    ensures Markers(locations, MyBusIds(students)).Some?
  {
    var ids := MyBusIds(students);
    assert Absent !in ids;
  }

  /** A student whose record lacks `busId` makes every location without a bus pass the
      filter, and that location's popup then throws: the map fails to render. */
  lemma AbsentBusIdWithBuslessLocationBreaksMap(locations: seq<Location>, students: seq<Student>, k: nat, i: nat)
    requires k < |students| && students[k].busId == Absent
    requires i < |locations| && locations[i].bus.None?
    ensures Markers(locations, MyBusIds(students)).None?
  {
    assert MyBusIds(students)[k] == Absent;
    assert LocationBusId(locations[i]) in MyBusIds(students);
  }

  /** The map centre: the first location, or the fixed default when there is none. */
  function MapCentre(locations: seq<Location>): (r: (real, real))
    ensures |locations| == 0 ==> r == DefaultCentre
    ensures |locations| > 0 ==> r == (locations[0].latitude, locations[0].longitude)
  {
    if |locations| > 0 then (locations[0].latitude, locations[0].longitude) else DefaultCentre
  }
}
