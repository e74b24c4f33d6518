/** The bus assistant's portal: check-in and check-out totals, the first six students
    with the badge of their manifest, and the "My Bus" card. */
module AssistantPortal {
  import opened Wrappers
  import opened Seqs
  import opened Text
  import opened TransportData

  const ListedStudents: nat := 6

  datatype Badge = CheckedIn | CheckedOut | Pending

  predicate HasStatus(m: Manifest, status: string) {
    m.status == status
  }

  /** `checkedIn` and `checkedOut`: no manifest is counted in both. */
  function CheckCounts(manifests: seq<Manifest>): (r: (nat, nat))
    ensures r.0 == |Filter(manifests, (m: Manifest) => HasStatus(m, CheckedInStatus))|
    ensures r.1 == |Filter(manifests, (m: Manifest) => HasStatus(m, CheckedOutStatus))|
    ensures r.0 + r.1 <= |manifests|
  {
    CountDisjoint(manifests, (m: Manifest) => HasStatus(m, CheckedInStatus),
                  (m: Manifest) => HasStatus(m, CheckedOutStatus));
    (Count(manifests, (m: Manifest) => HasStatus(m, CheckedInStatus)),
     Count(manifests, (m: Manifest) => HasStatus(m, CheckedOutStatus)))
  }

  /** A new manifest moves exactly the total of its own status. */
  lemma CheckCountsAfterNewManifest(manifests: seq<Manifest>, m: Manifest)
    ensures CheckCounts(manifests + [m]).0 == CheckCounts(manifests).0 + (if m.status == CheckedInStatus then 1 else 0)
    ensures CheckCounts(manifests + [m]).1 == CheckCounts(manifests).1 + (if m.status == CheckedOutStatus then 1 else 0)
  {
    CountAppend(manifests, m, (x: Manifest) => HasStatus(x, CheckedInStatus));
    CountAppend(manifests, m, (x: Manifest) => HasStatus(x, CheckedOutStatus));
  }

  function BadgeFor(status: string): (b: Badge)
    ensures b == CheckedIn <==> status == CheckedInStatus
    ensures b == CheckedOut <==> status == CheckedOutStatus
  {
    if status == CheckedInStatus then CheckedIn
    else if status == CheckedOutStatus then CheckedOut
    else Pending
  }

  predicate ForStudent(m: Manifest, student: Student) {
    m.studentId == student.id
  }

  /** The badge of one listed student: from the first manifest with the student's id;
      no manifest gives Pending. */
  function StudentBadge(student: Student, manifests: seq<Manifest>): (b: Badge)
    ensures (forall i :: 0 <= i < |manifests| ==> !ForStudent(manifests[i], student)) ==> b == Pending
  {
    var m := Find(manifests, (x: Manifest) => ForStudent(x, student));
    if m.Some? then BadgeFor(m.value.status) else Pending
  }

  /** The badge is decided by the student's first manifest: whatever follows it, for
      this student or any other, does not matter. */
  lemma BadgeComesFromFirstManifest(student: Student, before: seq<Manifest>, m: Manifest, after: seq<Manifest>)
    requires forall i :: 0 <= i < |before| ==> !ForStudent(before[i], student)
    requires ForStudent(m, student)
    ensures StudentBadge(student, before + [m] + after) == BadgeFor(m.status)
  {
    var all := before + [m] + after;
    var p := (x: Manifest) => ForStudent(x, student);
    assert all[|before|] == m;
    assert forall j :: 0 <= j < |before| ==> all[j] == before[j];
    var k := FirstIndex(all, p);
    assert k == |before|;
  }

  /** The student list: at most the first six, each with its badge. */
  function StudentRows(students: seq<Student>, manifests: seq<Manifest>): (r: seq<(Student, Badge)>)
    ensures |r| == if |students| < ListedStudents then |students| else ListedStudents
    ensures forall i :: 0 <= i < |r| ==> r[i].0 == students[i] && r[i].1 == StudentBadge(students[i], manifests)
  {
    Map(Take(students, ListedStudents), (s: Student) => (s, StudentBadge(s, manifests)))
  }

  /** The "My Bus" card: the first bus's name, plate and route, each falling back when
      there is no bus or the field is empty. */
  function MyBus(buses: seq<Bus>): (r: (string, string, string))
    ensures |buses| == 0 ==> r == (NotAssigned, NotAvailable, NotAvailable)
    ensures |buses| > 0 && buses[0].name != "" ==> r.0 == buses[0].name
    ensures |buses| > 0 && buses[0].name == "" ==> r.0 == NotAssigned
    ensures |buses| > 0 && buses[0].plateNumber != "" ==> r.1 == buses[0].plateNumber
    ensures |buses| > 0 && buses[0].route != "" ==> r.2 == buses[0].route
    ensures |buses| > 0 && buses[0].plateNumber == "" ==> r.1 == NotAvailable
    ensures |buses| > 0 && buses[0].route == "" ==> r.2 == NotAvailable
  {
    var first := if |buses| > 0 then Some(buses[0]) else None;
    (MessageOr(if first.Some? then Some(first.value.name) else None, NotAssigned),
     MessageOr(if first.Some? then Some(first.value.plateNumber) else None, NotAvailable),
     MessageOr(if first.Some? then Some(first.value.route) else None, NotAvailable))
  }
}
