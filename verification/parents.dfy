/** The parents page: each parent's linked students shown as a comma-separated list
    of names, and the search by parent name. */
module Parents {
  import opened Wrappers
  import opened Seqs
  import opened Text
  import opened TransportData

  const Separator: string := ", "

  /** `names.join(sep)` */
  function Join(names: seq<string>, sep: string): (r: string)
    ensures |names| == 0 ==> r == ""
    ensures |names| == 1 ==> r == names[0]
  {
    if |names| == 0 then ""
    else if |names| == 1 then names[0]
    else names[0] + sep + Join(names[1..], sep)
  }

  /** Each joined name sits at some position of the joined text. */
  lemma {:induction false} JoinHasEach(names: seq<string>, sep: string, i: nat)
    requires i < |names|
    ensures exists k :: OccursAt(Join(names, sep), names[i], k)
  {
    var r := Join(names, sep);
    if |names| == 1 {
      assert r[0..|names[0]|] == names[0];
      assert OccursAt(r, names[i], 0);
    } else if i == 0 {
      assert r[0..|names[0]|] == names[0];
      assert OccursAt(r, names[0], 0);
    } else {
      JoinHasEach(names[1..], sep, i - 1);
      var tail := Join(names[1..], sep);
      var k :| OccursAt(tail, names[1..][i - 1], k);
      var offset := |names[0] + sep|;
      assert r == (names[0] + sep) + tail;
      assert r[offset + k..offset + k + |names[i]|] == tail[k..k + |names[i]|];
      assert OccursAt(r, names[i], offset + k);
    }
  }

  /** A joined text of non-empty names is empty only when there are no names. */
  lemma {:induction false} JoinEmpty(names: seq<string>, sep: string)
    requires forall i :: 0 <= i < |names| ==> names[i] != ""
    ensures Join(names, sep) == "" <==> |names| == 0
  {
    if |names| > 1 {
      assert |Join(names, sep)| >= |names[0]|;
    }
  }

  /** Student `j` is the first one carrying `id`. */
  predicate FirstStudentWith(students: seq<Student>, j: int, id: int) {
    0 <= j < |students| && students[j].id == id && forall k :: 0 <= k < j ==> students[k].id != id
  }

  /** The name shown for one id: the first student with that id, else "". */
  function NameFor(students: seq<Student>, id: int): (r: string)
    ensures (forall j :: 0 <= j < |students| ==> students[j].id != id) ==> r == ""
    ensures forall j :: 0 <= j < |students| && FirstStudentWith(students, j, id) ==> r == students[j].name
  {
    var s := Find(students, (st: Student) => st.id == id);
    if s.Some? then s.value.name else ""
  }

  /** `Boolean` as a filter on names: the empty name is dropped. */
  predicate NonEmpty(name: string) {
    name != ""
  }

  /** `studentIds.map(...)`: one name per id, "" for an id matching no student. */
  function LookedUpNames(students: seq<Student>, ids: seq<int>): (r: seq<string>)
    ensures |r| == |ids|
    ensures forall i :: 0 <= i < |ids| ==> r[i] == NameFor(students, ids[i])
  {
    Map(ids, (id: int) => NameFor(students, id))
  }

  /** The names that survive `.filter(Boolean)`, in id order: one entry per id with a
      non-empty name, so a repeated id or a shared name shows more than once. */
  function StudentNameList(students: seq<Student>, ids: seq<int>): (r: seq<string>)
    ensures forall i :: 0 <= i < |r| ==> r[i] != ""
    ensures IsSubsequence(r, LookedUpNames(students, ids))
    ensures |r| == Count(LookedUpNames(students, ids), NonEmpty)
    ensures forall i :: 0 <= i < |ids| && NameFor(students, ids[i]) != "" ==>
              Count(LookedUpNames(students, ids)[..i], NonEmpty) < |r| &&
              r[Count(LookedUpNames(students, ids)[..i], NonEmpty)] == NameFor(students, ids[i])
  {
    var all := LookedUpNames(students, ids);
    FilterPositions(all, NonEmpty);
    Filter(all, NonEmpty)
  }

  /** `getStudentNames(studentIds)` */
  function StudentNames(students: seq<Student>, studentIds: Option<seq<int>>): (r: string)
    ensures studentIds.None? ==> r == NotAvailable
    ensures studentIds.Some? && StudentNameList(students, studentIds.value) == [] ==> r == NotAvailable
    ensures studentIds.Some? && StudentNameList(students, studentIds.value) != [] ==>
              r == Join(StudentNameList(students, studentIds.value), Separator)
  {
    if studentIds.None? then NotAvailable
    else
      var names := StudentNameList(students, studentIds.value);
      var joined := Join(names, Separator);
      JoinEmpty(names, Separator);
      if joined == "" then NotAvailable else joined
  }

  /** Every linked student who is found and has a name is mentioned in the text shown. */
  lemma StudentNamesMentionEachStudent(students: seq<Student>, ids: seq<int>, i: nat)
    requires i < |ids| && NameFor(students, ids[i]) != ""
    ensures Contains(StudentNames(students, Some(ids)), NameFor(students, ids[i]))
  {
    var names := StudentNameList(students, ids);
    var name := NameFor(students, ids[i]);
    var j :| 0 <= j < |names| && names[j] == name;
    JoinHasEach(names, Separator, j);
    ContainsMeansOccurs(StudentNames(students, Some(ids)), name);
  }

  /** Two students sharing a name both appear: the list is not de-duplicated. */
  lemma SharedNameShownTwice()
    ensures StudentNames([Student(1, "John", Absent, None, "", ""), Student(2, "John", Absent, None, "", "")],
                         Some([1, 2])) == "John, John"
  {
    var students := [Student(1, "John", Absent, None, "", ""), Student(2, "John", Absent, None, "", "")];
    assert FirstStudentWith(students, 0, 1) && FirstStudentWith(students, 1, 2);
    var names := StudentNameList(students, [1, 2]);
    assert LookedUpNames(students, [1, 2])[..0] == [];
    assert LookedUpNames(students, [1, 2])[..1] == ["John"];
    assert names[0] == "John" && names[1] == "John";
  }

  /** Ids that match no student contribute nothing, so a parent whose ids match no one
      shows "N/A". */
  lemma UnknownIdsShowNotAvailable(students: seq<Student>, ids: seq<int>)
    requires forall i, j :: 0 <= i < |ids| && 0 <= j < |students| ==> students[j].id != ids[i]
    ensures StudentNames(students, Some(ids)) == NotAvailable
  {
    var names := StudentNameList(students, ids);
    assert forall i :: 0 <= i < |ids| ==> NameFor(students, ids[i]) == "";
    FilterEmpty(LookedUpNames(students, ids), NonEmpty);
  }

  /** `filteredParents` */
  function FilterParents(parents: seq<Parent>, term: string): (r: seq<Parent>)
    ensures forall i :: 0 <= i < |r| ==> r[i] in parents && ContainsIgnoringCase(r[i].name, term)
    ensures forall i :: 0 <= i < |parents| && ContainsIgnoringCase(parents[i].name, term) ==> parents[i] in r
    ensures IsSubsequence(r, parents)
    ensures term == "" ==> r == parents
  {
    SearchBy(parents, (p: Parent) => p.name, term)
  }
}
