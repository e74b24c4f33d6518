/** The inventory list page: free-text and status filtering, 1-indexed pagination
    with ten products per page, the Previous/Next clamps, the delete guard for sold
    or reserved units, and the status badge. */
module InventoryList {
  import opened Wrappers
  import opened Seqs
  import opened Text
  import opened InventoryUnits

  const PageSize: nat := 10

  predicate SomeSim(sims: seq<SerialSim>, p: SerialSim -> bool) {
    exists i :: 0 <= i < |sims| && p(sims[i])
  }

  /** One serial entry matches the search: its serial number case-insensitively, or
      its SIM number exactly as typed (the SIM comparison does not lower-case). */
  predicate SimMatches(s: SerialSim, search: string) {
    ContainsIgnoringCase(s.serialNumber, search) || Contains(s.simNumber, search)
  }

  /** The text filter: an empty search passes everything; otherwise some serial entry
      matches, or the model contains the search case-insensitively. */
  predicate SearchMatch(item: InventoryItem, search: string) {
    search == "" ||
    SomeSim(Sims(item), (s: SerialSim) => SimMatches(s, search)) ||
    ContainsIgnoringCase(item.model, search)
  }

  /** The status filter: "all" passes everything; any other value needs a serial entry
      with exactly that status. */
  predicate StatusMatch(item: InventoryItem, status: string) {
    status == "all" || SomeSim(Sims(item), (s: SerialSim) => s.status == status)
  }

  predicate Visible(item: InventoryItem, search: string, status: string) {
    SearchMatch(item, search) && StatusMatch(item, status)
  }

  /** `filteredData`: the products passing both filters, in inventory order. */
  function FilteredData(inventory: seq<InventoryItem>, search: string, status: string): (r: seq<InventoryItem>)
    ensures forall i :: 0 <= i < |r| ==> r[i] in inventory && Visible(r[i], search, status)
    ensures forall i :: 0 <= i < |inventory| && Visible(inventory[i], search, status) ==> inventory[i] in r
    ensures IsSubsequence(r, inventory)
    ensures |r| == Count(inventory, item => Visible(item, search, status))
  {
    Filter(inventory, item => Visible(item, search, status))
  }

  /** With an empty search and status "all" the list shows the whole inventory. */
  lemma {:induction false} NoFilterShowsAll(inventory: seq<InventoryItem>)
    ensures FilteredData(inventory, "", "all") == inventory
  {
    FilterKeepsAll(inventory, item => Visible(item, "", "all"));
  }

  /** `Math.ceil(n / pageSize)`: the page count shown in the pager. */
  function ShowTotalPages(n: nat): (r: nat)
    ensures (r - 1) * PageSize < n <= r * PageSize || (n == 0 && r == 0)
  {
    (n + PageSize - 1) / PageSize
  }

  /** `Math.max(1, Math.ceil(n / pageSize))` */
  function TotalPages(n: nat): (r: nat)
    ensures r >= 1
    ensures r == ShowTotalPages(n) || (n == 0 && r == 1)
  {
    var c := ShowTotalPages(n);
    if c < 1 then 1 else c
  }

  /** `paginatedData`: page `page` (1-indexed) of the filtered list. */
  function Paginate<T>(filtered: seq<T>, page: nat): (r: seq<T>)
    requires page >= 1
    ensures |r| <= PageSize
    ensures |r| == 0 || (page - 1) * PageSize + |r| <= |filtered|
    ensures forall i :: 0 <= i < |r| ==> r[i] == filtered[(page - 1) * PageSize + i]
    ensures page > ShowTotalPages(|filtered|) ==> r == []
    ensures page <= ShowTotalPages(|filtered|) ==>
              |r| > 0 && (|r| == PageSize || (page - 1) * PageSize + |r| == |filtered|)
  {
    var start := (page - 1) * PageSize;
    Slice(filtered, start, start + PageSize)
  }

  /** Pages `page`, `page + 1`, ... (`count` of them) laid end to end. */
  function PagesFrom<T>(filtered: seq<T>, page: nat, count: nat): seq<T>
    requires page >= 1
    decreases count
  {
    if count == 0 then [] else Paginate(filtered, page) + PagesFrom(filtered, page + 1, count - 1)
  }

  lemma {:induction false} PagesShift<T>(filtered: seq<T>, page: nat, count: nat)
    requires page >= 1 && |filtered| >= PageSize
    ensures PagesFrom(filtered, page + 1, count) == PagesFrom(filtered[PageSize..], page, count)
    decreases count
  {
    if count > 0 {
      PagesShift(filtered, page + 1, count - 1);
      var a := Paginate(filtered, page + 1);
      var b := Paginate(filtered[PageSize..], page);
      assert |a| == |b|;
      assert a == b;
    }
  }

  /** The pages partition the filtered list: reading pages 1 .. ShowTotalPages in
      order shows every product exactly once, in order. */
  lemma {:induction false} PagesCoverList<T>(filtered: seq<T>)
    ensures PagesFrom(filtered, 1, ShowTotalPages(|filtered|)) == filtered
    decreases |filtered|
  {
    var n := ShowTotalPages(|filtered|);
    if n > 0 {
      if |filtered| <= PageSize {
        assert n == 1;
        assert Paginate(filtered, 1) == filtered;
      } else {
        var rest := filtered[PageSize..];
        assert ShowTotalPages(|rest|) == n - 1;
        PagesShift(filtered, 1, n - 1);
        PagesCoverList(rest);
        assert Paginate(filtered, 1) == filtered[..PageSize];
        assert filtered == filtered[..PageSize] + rest;
      }
    }
  }

  /** The Previous button: `Math.max(1, p - 1)`. */
  function Previous(page: int): (r: int)
    ensures r >= 1
    ensures r == page - 1 || (r == 1 && page <= 2)
  {
    if page - 1 < 1 then 1 else page - 1
  }

  /** The Next button: `Math.min(showTotalPages, p + 1)`. */
  function Next(page: int, showTotal: int): (r: int)
    ensures r <= showTotal
    ensures r == page + 1 || (r == showTotal && showTotal <= page + 1)
  {
    if showTotal < page + 1 then showTotal else page + 1
  }

  /** The pager is only rendered when there is more than one page, so starting from a
      valid page the two buttons keep the page between 1 and the page count. */
  lemma PagerKeepsPageInRange(page: int, n: nat)
    requires ShowTotalPages(n) > 1
    requires 1 <= page <= ShowTotalPages(n)
    ensures 1 <= Previous(page) <= ShowTotalPages(n)
    ensures 1 <= Next(page, ShowTotalPages(n)) <= ShowTotalPages(n)
  {
  }

  /** A narrower filter can leave the page past the last one (the page is not reset).
      From there Next jumps back to the last page and Previous steps back by one. */
  lemma PagerPastTheEnd(page: int, n: nat)
    requires ShowTotalPages(n) > 1
    requires page > ShowTotalPages(n)
    ensures Next(page, ShowTotalPages(n)) == ShowTotalPages(n)
    ensures Previous(page) == page - 1 >= ShowTotalPages(n)
  {
  }

  /** What the delete button leads to. */
  datatype DeleteOutcome = RefusedSoldOrReserved | Cancelled | DeleteRequested

  /** `deleteItem` up to its first request: sold or reserved units are refused before
      the confirmation dialog; otherwise the user's answer decides. */
  function DeleteUnit(status: string, confirmed: bool): (r: DeleteOutcome)
    ensures r == RefusedSoldOrReserved <==> status == "sold" || status == "reserved"
    ensures r == DeleteRequested <==> status != "sold" && status != "reserved" && confirmed
  {
    if status == "sold" || status == "reserved" then RefusedSoldOrReserved
    else if !confirmed then Cancelled
    else DeleteRequested
  }

  datatype BadgeStyle = AvailableStyle | SoldStyle | ReservedStyle

  /** `getStatusBadge`: the known statuses pick their own style, anything else falls
      back to the "available" style; the label is the status with its first character
      upper-cased. */
  function StatusBadge(status: string): (r: (BadgeStyle, string))
    ensures status == "sold" ==> r.0 == SoldStyle
    ensures status == "reserved" ==> r.0 == ReservedStyle
    ensures status != "sold" && status != "reserved" ==> r.0 == AvailableStyle
    ensures |r.1| == |status|
    ensures |status| > 0 ==> r.1[0] == UpperChar(status[0]) && r.1[1..] == status[1..]
  {
    var style :=
      if status == "sold" then SoldStyle
      else if status == "reserved" then ReservedStyle
      else AvailableStyle;
    var caption := FirstUpper(status) + (if |status| > 0 then status[1..] else "");
    (style, caption)
  }
}
