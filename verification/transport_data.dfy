/** The school-transport records as the pages receive them from the API, and the
    name search every listing page shares. A field the API may omit is an `Option`.
    A text field is a `string`: where the source passes it through `x || fallback`
    an absent field behaves like "", and where the source calls a string method on it
    the model assumes the API always sends it. */
module TransportData {
  import opened Wrappers
  import opened Seqs
  import opened Text

  /** `bus.driver`: missing, a plain name, or an object with a name and a phone. */
  datatype DriverField =
    | NoDriver
    | DriverName(name: string)
    | DriverObject(objectName: string, phone: Option<string>)

  datatype Bus = Bus(id: int, name: string, plateNumber: string, route: string, status: string,
                     driver: DriverField, driverId: Option<int>)

  /** A JavaScript id slot: the key absent (`undefined`), `null`, or a number. Two slots
      are equal exactly when `includes` (SameValueZero) finds one for the other, so
      `undefined` never matches `null`. */
  datatype IdRef = Absent | Null | Id(value: int)

  /** The id a slot holds, if any: `=== someNumber` holds only for that number. */
  function Known(r: IdRef): (o: Option<int>)
    ensures o.Some? <==> r.Id?
    ensures r.Id? ==> o == Some(r.value)
  {
    if r.Id? then Some(r.value) else None
  }

  datatype Student = Student(id: int, name: string, busId: IdRef, parent: Option<string>,
                             grade: string, status: string)

  /** A check-in record; `day` is the calendar day of its timestamp, `None` when the
      timestamp is missing or unreadable. */
  datatype Manifest = Manifest(id: int, studentId: int, busId: int, status: string, day: Option<int>)

  /** `studentIds` is `None` when it is missing or not an array. */
  datatype Parent = Parent(id: int, name: string, studentIds: Option<seq<int>>)

  datatype Assistant = Assistant(id: int, name: string, busId: Option<int>)

  /** The bus embedded in a live location. */
  datatype LocatedBus = LocatedBus(id: IdRef, name: string, plateNumber: string)

  /** A live location; `bus` is `None` when it is missing or `null`. */
  datatype Location = Location(id: int, bus: Option<LocatedBus>, latitude: real, longitude: real)

  /** `loc.bus?.id`: `undefined` when the location has no bus. */
  function LocationBusId(l: Location): (r: IdRef)
    ensures l.bus.None? ==> r == Absent
    ensures l.bus.Some? ==> r == l.bus.value.id
  {
    if l.bus.Some? then l.bus.value.id else Absent
  }

  const ActiveStatus: string := "ACTIVE"
  const CheckedInStatus: string := "CHECKED_IN"
  const CheckedOutStatus: string := "CHECKED_OUT"
  const NotAssigned: string := "Not Assigned"
  const NotAvailable: string := "N/A"

  /** A notification shown to the user. */
  datatype Toast = ErrorToast(text: string) | SuccessToast(text: string)

  /** The storage key both login pages set to "true". */
  const AuthenticatedKey: string := "isAuthenticated"

  /** `xs.filter(x => name(x).toLowerCase().includes(term.toLowerCase()))`: the search
      box of the drivers, parents and assistants pages. */
  function SearchBy<T(==)>(xs: seq<T>, name: T -> string, term: string): (r: seq<T>)
    ensures forall i :: 0 <= i < |r| ==> r[i] in xs && ContainsIgnoringCase(name(r[i]), term)
    ensures forall i :: 0 <= i < |xs| && ContainsIgnoringCase(name(xs[i]), term) ==> xs[i] in r
    ensures IsSubsequence(r, xs)
    ensures |r| == Count(xs, (x: T) => ContainsIgnoringCase(name(x), term))
    ensures term == "" ==> r == xs
  {
    if term == "" then EmptyTermKeepsAll(xs, name); Filter(xs, (x: T) => ContainsIgnoringCase(name(x), term))
    else Filter(xs, (x: T) => ContainsIgnoringCase(name(x), term))
  }

  lemma EmptyTermKeepsAll<T>(xs: seq<T>, name: T -> string)
    ensures Filter(xs, (x: T) => ContainsIgnoringCase(name(x), "")) == xs
  {
    forall i | 0 <= i < |xs|
      ensures ContainsIgnoringCase(name(xs[i]), "")
    {
      EmptyTermMatches(name(xs[i]));
    }
    FilterKeepsAll(xs, (x: T) => ContainsIgnoringCase(name(x), ""));
  }
}
