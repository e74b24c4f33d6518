/** The inventory dashboard: unit and revenue totals over the inventory and sales
    responses, and the "recent activity" feed (the last three products and the last
    three sales, newest first, at most five). */
module InventoryDashboard {
  import opened Wrappers
  import opened Seqs
  import opened Text
  import opened InventoryUnits

  /** A sale as listed by the sales endpoint; absent fields are `None`. */
  datatype Sale = Sale(totalPrice: Option<int>, productModel: Option<string>, createdAt: int)

  /** `inventoryRes.data`: the product list sits under `data`, which may be missing. */
  datatype InventoryBody = InventoryBody(data: Option<seq<InventoryItem>>)

  /** `salesRes.data`: a bare list, nothing, or (not expected by the page) an object. */
  datatype SalesBody = SalesList(sales: seq<Sale>) | NoSales | SalesObject

  /** A settled request: its body, or a failure with the server's message if any. */
  datatype Response<T> = Ok(body: T) | HttpError(message: Option<string>)

  datatype Stats = Stats(totalUnits: int, availableUnits: int, soldUnits: int, revenue: int)

  datatype ActivityKind = InventoryAdded | SaleMade

  /** A feed entry: what happened, to which model, the unit count or sale price shown in
      its message, and its timestamp. */
  datatype Activity = Activity(kind: ActivityKind, subject: string, amount: int, date: int)

  datatype DashboardView = DashboardView(stats: Stats, recent: seq<Activity>)

  const LoadFailedMessage: string := "Unable to fetch data from backend API."
  const FeedLength: nat := 5
  const FeedPerSource: nat := 3

  function Products(body: InventoryBody): seq<InventoryItem> {
    body.data.GetOr([])
  }

  // ---- Totals ----

  /** `s => s.status === status` */
  function HasStatus(status: string): SerialSim -> bool {
    (s: SerialSim) => s.status == status
  }

  /** Units of `item` whose status is exactly `status`. */
  function UnitsWithStatus(item: InventoryItem, status: string): nat {
    Count(Sims(item), HasStatus(status))
  }

  function AvailableOf(item: InventoryItem): int { UnitsWithStatus(item, "available") }
  function SoldOf(item: InventoryItem): int { UnitsWithStatus(item, "sold") }
  function PriceOf(sale: Sale): int { sale.totalPrice.GetOr(0) }

  /** The four stat cards: units, available units, sold units and revenue, where an
      unpriced sale adds nothing to the revenue. */
  function ComputeStats(inventory: seq<InventoryItem>, sales: seq<Sale>): (st: Stats)
    ensures st.totalUnits == |AllSims(inventory)|
    ensures st.availableUnits == Count(AllSims(inventory), HasStatus("available"))
    ensures st.soldUnits == Count(AllSims(inventory), HasStatus("sold"))
    ensures 0 <= st.availableUnits && 0 <= st.soldUnits
    ensures st.availableUnits + st.soldUnits <= st.totalUnits
    ensures st.revenue == Sum(Filter(sales, Priced), PriceOf)
  {
    AvailableAndSoldWithinTotal(inventory);
    UnitsAreAllSims(inventory);
    StatusSumIsStatusCount(inventory, "available", AvailableOf);
    StatusSumIsStatusCount(inventory, "sold", SoldOf);
    RevenueCountsPricedSales(sales);
    Stats(Sum(inventory, UnitCount), Sum(inventory, AvailableOf), Sum(inventory, SoldOf),
          Sum(sales, PriceOf))
  }

  /** No unit is both available and sold, so the available and sold counts never add
      up to more than the units. */
  lemma AvailableAndSoldWithinTotal(inventory: seq<InventoryItem>)
    ensures 0 <= Sum(inventory, AvailableOf) && 0 <= Sum(inventory, SoldOf)
    ensures Sum(inventory, AvailableOf) + Sum(inventory, SoldOf) <= Sum(inventory, UnitCount)
  {
    var both := (item: InventoryItem) => AvailableOf(item) + SoldOf(item);
    forall i | 0 <= i < |inventory|
      ensures both(inventory[i]) <= UnitCount(inventory[i])
    {
      CountDisjoint(Sims(inventory[i]), HasStatus("available"), HasStatus("sold"));
    }
    SumAdd(inventory, AvailableOf, SoldOf, both);
    SumMonotone(inventory, both, UnitCount);
    SumMonotone(inventory, (item: InventoryItem) => 0, AvailableOf);
    SumMonotone(inventory, (item: InventoryItem) => 0, SoldOf);
    SumOfZero(inventory);
  }

  /** Adding up the per-product list lengths counts every serial entry once. */
  lemma {:induction false} UnitsAreAllSims(inventory: seq<InventoryItem>)
    ensures Sum(inventory, UnitCount) == |AllSims(inventory)|
  {
    if |inventory| > 0 {
      UnitsAreAllSims(inventory[1..]);
    }
  }

  /** Adding up the per-product status counts counts the entries of that status in
      the whole inventory. */
  lemma {:induction false} StatusSumIsStatusCount(inventory: seq<InventoryItem>, status: string,
                                                  perItem: InventoryItem -> int)
    requires forall i :: 0 <= i < |inventory| ==> perItem(inventory[i]) == UnitsWithStatus(inventory[i], status)
    ensures Sum(inventory, perItem) == Count(AllSims(inventory), HasStatus(status))
  {
    if |inventory| > 0 {
      StatusSumIsStatusCount(inventory[1..], status, perItem);
      CountConcat(Sims(inventory[0]), AllSims(inventory[1..]), HasStatus(status));
    }
  }

  lemma {:induction false} SumOfZero(inventory: seq<InventoryItem>)
    ensures Sum(inventory, (item: InventoryItem) => 0) == 0
  {
    if |inventory| > 0 {
      SumOfZero(inventory[1..]);
    }
  }

  predicate Priced(sale: Sale) {
    sale.totalPrice.Some?
  }

  /** Revenue is the sum over the sales that carry a price: an unpriced sale adds nothing. */
  lemma {:induction false} RevenueCountsPricedSales(sales: seq<Sale>)
    ensures Sum(sales, PriceOf) == Sum(Filter(sales, Priced), PriceOf)
  {
    if |sales| > 0 {
      RevenueCountsPricedSales(sales[1..]);
      if Priced(sales[0]) {
        assert Filter(sales, Priced) == [sales[0]] + Filter(sales[1..], Priced);
      }
    }
  }

  // ---- The activity feed ----

  function ItemActivity(item: InventoryItem): Activity {
    Activity(InventoryAdded, item.model, UnitCount(item), item.createdAt)
  }

  /** `sale.product?.model || "a unit"` with the price the message shows. */
  function SaleActivity(sale: Sale): Activity {
    Activity(SaleMade, MessageOr(sale.productModel, "a unit"), PriceOf(sale), sale.createdAt)
  }

  /** Newest first: dates never increase along the sequence. */
  predicate NewestFirst(s: seq<Activity>) {
    forall i, j :: 0 <= i < j < |s| ==> s[i].date >= s[j].date
  }

  /** Inserts `x` before the first entry that is not newer than it, so that among equal
      dates the earlier input stays first (the sort is stable). */
  function Insert(x: Activity, s: seq<Activity>): (r: seq<Activity>)
    requires NewestFirst(s)
    ensures NewestFirst(r)
    ensures multiset(r) == multiset(s) + multiset{x}
    ensures |r| == |s| + 1
  {
    if |s| == 0 || s[0].date <= x.date then [x] + s
    else
      var rest := Insert(x, s[1..]);
      HeadStaysFirst(x, s, rest);
      [s[0]] + rest
  }

  /** When `x` is older than the head, the head stays in front of the insertion into
      the tail. */
  lemma HeadStaysFirst(x: Activity, s: seq<Activity>, rest: seq<Activity>)
    requires NewestFirst(s) && |s| > 0 && s[0].date > x.date
    requires NewestFirst(rest) && multiset(rest) == multiset(s[1..]) + multiset{x}
    ensures NewestFirst([s[0]] + rest)
    ensures multiset([s[0]] + rest) == multiset(s) + multiset{x}
  {
    assert s == [s[0]] + s[1..];
    forall k | 0 <= k < |rest|
      ensures rest[k].date <= s[0].date
    {
      assert rest[k] in multiset(rest);
      if rest[k] != x {
        assert rest[k] in s[1..];
        var j :| 0 <= j < |s[1..]| && s[1..][j] == rest[k];
        assert s[j + 1] == rest[k];
      }
    }
    var r := [s[0]] + rest;
    forall a, b | 0 <= a < b < |r|
      ensures r[a].date >= r[b].date
    {
      assert r[b] == rest[b - 1];
      if a > 0 {
        assert r[a] == rest[a - 1];
      }
    }
  }

  /** `.sort((a, b) => date(b) - date(a))` */
  function SortNewestFirst(s: seq<Activity>): (r: seq<Activity>)
    ensures NewestFirst(r)
    ensures multiset(r) == multiset(s)
    ensures |r| == |s|
  {
    if |s| == 0 then []
    else
      assert s == [s[0]] + s[1..];
      Insert(s[0], SortNewestFirst(s[1..]))
  }

  /** Entries dated `d`. */
  function OnDate(d: int): Activity -> bool {
    (a: Activity) => a.date == d
  }

  /** `x` goes in front of every entry with its own date, and the entries of any other
      date stay as they were. */
  lemma {:induction false} InsertKeepsTies(x: Activity, s: seq<Activity>, d: int)
    requires NewestFirst(s)
    ensures Filter(Insert(x, s), OnDate(d)) == (if x.date == d then [x] else []) + Filter(s, OnDate(d))
    decreases |s|
  {
    var p := OnDate(d);
    if |s| == 0 || s[0].date <= x.date {
      assert ([x] + s)[1..] == s;
    } else {
      var rest := Insert(x, s[1..]);
      InsertKeepsTies(x, s[1..], d);
      assert ([s[0]] + rest)[1..] == rest;
      assert Filter(s, p) == (if p(s[0]) then [s[0]] else []) + Filter(s[1..], p);
    }
  }

  /** The sort is stable: for every date, the entries of that date keep their input
      order. */
  lemma {:induction false} SortIsStable(s: seq<Activity>, d: int)
    ensures Filter(SortNewestFirst(s), OnDate(d)) == Filter(s, OnDate(d))
    decreases |s|
  {
    if |s| > 0 {
      SortIsStable(s[1..], d);
      InsertKeepsTies(s[0], SortNewestFirst(s[1..]), d);
    }
  }

  /** The feed before sorting: the last three products, then the last three sales. */
  function Candidates(inventory: seq<InventoryItem>, sales: seq<Sale>): seq<Activity> {
    TakeLast(Map(inventory, ItemActivity), FeedPerSource) + TakeLast(Map(sales, SaleActivity), FeedPerSource)
  }

  /** `combinedActivity`: the five newest candidates, newest first. */
  function RecentActivity(inventory: seq<InventoryItem>, sales: seq<Sale>): (r: seq<Activity>)
    ensures |r| == if |Candidates(inventory, sales)| < FeedLength then |Candidates(inventory, sales)| else FeedLength
    ensures NewestFirst(r)
    ensures multiset(r) <= multiset(Candidates(inventory, sales))
  {
    var sorted := SortNewestFirst(Candidates(inventory, sales));
    var r := Take(sorted, FeedLength);
    assert sorted == r + sorted[|r|..];
    r
  }

  /** The feed really holds the newest candidates: a candidate left out is no newer than
      anything shown, and one is only left out when the feed is full. */
  lemma FeedKeepsNewest(inventory: seq<InventoryItem>, sales: seq<Sale>, left: Activity)
    requires left in multiset(Candidates(inventory, sales)) - multiset(RecentActivity(inventory, sales))
    ensures |RecentActivity(inventory, sales)| == FeedLength
    ensures forall k :: 0 <= k < FeedLength ==> RecentActivity(inventory, sales)[k].date >= left.date
  {
    var sorted := SortNewestFirst(Candidates(inventory, sales));
    var r := RecentActivity(inventory, sales);
    assert r == Take(sorted, FeedLength);
    assert r == sorted[..|r|];
    LeftOutOfPrefix(sorted, |r|, left);
  }

  /** An entry of a newest-first sequence missing from its first `n` entries lies
      beyond them, so each of those is at least as new. */
  lemma LeftOutOfPrefix(sorted: seq<Activity>, n: nat, left: Activity)
    requires NewestFirst(sorted) && n <= |sorted|
    requires left in multiset(sorted) - multiset(sorted[..n])
    ensures n < |sorted|
    ensures forall k :: 0 <= k < n ==> sorted[k].date >= left.date
  {
    var tail := sorted[n..];
    assert sorted == sorted[..n] + tail;
    assert multiset(sorted) == multiset(sorted[..n]) + multiset(tail);
    assert left in multiset(tail);
    var t :| 0 <= t < |tail| && tail[t] == left;
    assert sorted[n + t] == left;
  }

  /** The feed shows at most three products and at most three sales. */
  lemma FeedPerSourceBound(inventory: seq<InventoryItem>, sales: seq<Sale>)
    ensures |Candidates(inventory, sales)| <= 2 * FeedPerSource
    ensures forall k :: 0 <= k < |Candidates(inventory, sales)| ==>
              (Candidates(inventory, sales)[k].kind == InventoryAdded <==> k < (if |inventory| < 3 then |inventory| else 3))
  {
  }

  // ---- Loading the page ----

  /** The sales list as the page reads it: `salesRes.data || []`; an object has no
      `reduce`, so it throws. */
  function SalesOf(body: SalesBody): Option<seq<Sale>> {
    match body
    case SalesList(sales) => Some(sales)
    case NoSales => Some([])
    case SalesObject => None
  }

  /** The loader as written: the sales messages call `toLocaleString` on every sale's
      `totalPrice`, so a single unpriced sale throws and the dashboard shows only the
      error toast, although the revenue sum was written to skip such sales. */
  function LoadDashboardAsWritten(inventory: Response<InventoryBody>, sales: Response<SalesBody>): (r: Result<DashboardView, string>)
    ensures r.Success? <==>
              inventory.Ok? && sales.Ok? && SalesOf(sales.body).Some? &&
              forall i :: 0 <= i < |SalesOf(sales.body).value| ==> Priced(SalesOf(sales.body).value[i])
  {
    if inventory.HttpError? then Failure(MessageOr(inventory.message, LoadFailedMessage))
    else if sales.HttpError? then Failure(MessageOr(sales.message, LoadFailedMessage))
    else
      var list := SalesOf(sales.body);
      if list.None? then Failure(LoadFailedMessage)
      else if exists i :: 0 <= i < |list.value| && !Priced(list.value[i]) then Failure(LoadFailedMessage)
      else
        var items := Products(inventory.body);
        Success(DashboardView(ComputeStats(items, list.value), RecentActivity(items, list.value)))
  }

  /** The loader with the sale price read as `sale.totalPrice || 0` in the message too. */
  function LoadDashboard(inventory: Response<InventoryBody>, sales: Response<SalesBody>): (r: Result<DashboardView, string>)
    ensures r.Success? <==> inventory.Ok? && sales.Ok? && SalesOf(sales.body).Some?
    ensures inventory.HttpError? ==> r == Failure(MessageOr(inventory.message, LoadFailedMessage))
    ensures inventory.Ok? && sales.HttpError? ==> r == Failure(MessageOr(sales.message, LoadFailedMessage))
    ensures r.Success? ==>
              r.value.stats == ComputeStats(Products(inventory.body), SalesOf(sales.body).value) &&
              r.value.recent == RecentActivity(Products(inventory.body), SalesOf(sales.body).value)
  {
    if inventory.HttpError? then Failure(MessageOr(inventory.message, LoadFailedMessage))
    else if sales.HttpError? then Failure(MessageOr(sales.message, LoadFailedMessage))
    else
      var list := SalesOf(sales.body);
      if list.None? then Failure(LoadFailedMessage)
      else
        var items := Products(inventory.body);
        Success(DashboardView(ComputeStats(items, list.value), RecentActivity(items, list.value)))
  }

  /** Where every sale is priced the two loaders agree. */
  lemma LoadersAgreeOnPricedSales(inventory: Response<InventoryBody>, sales: Response<SalesBody>)
    requires sales.Ok? && SalesOf(sales.body).Some?
    requires forall i :: 0 <= i < |SalesOf(sales.body).value| ==> Priced(SalesOf(sales.body).value[i])
    ensures LoadDashboardAsWritten(inventory, sales) == LoadDashboard(inventory, sales)
  {
  }

  /** The input that shows the discrepancy: one sale without a price. Its revenue
      contribution is 0, yet the page as written fails to load at all. */
  lemma UnpricedSaleBreaksDashboard()
    ensures var sales := Ok(SalesList([Sale(None, Some("4G"), 1)]));
            var inventory := Ok(InventoryBody(Some([])));
            LoadDashboardAsWritten(inventory, sales) == Failure(LoadFailedMessage) &&
            LoadDashboard(inventory, sales).Success? &&
            LoadDashboard(inventory, sales).value.stats.revenue == 0
  {
    var s := [Sale(None, Some("4G"), 1)];
    assert !Priced(s[0]);
  }
}
