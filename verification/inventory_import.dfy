/** The add-unit page: the manual form, the CSV upload that groups rows into one
    create request per model, and the CSV export that flattens every product into one
    row per serial/SIM pair. */
module InventoryImport {
  import opened Wrappers
  import opened Seqs
  import opened InventoryUnits

  datatype Pair = Pair(serialNumber: string, simNumber: string)

  /** The body of a create request. */
  datatype CreatePayload = CreatePayload(model: string, serialSimPairs: seq<Pair>, dateAdded: string)

  /** The manual form's fields; `dealerId` and `sellingPrice` are collected but not sent. */
  datatype ManualForm = ManualForm(
    serialNumber: string, simNumber: string, model: string,
    dealerId: string, sellingPrice: string, dateAdded: string)

  const RequiredMessage: string := "Serial and SIM number are required"
  const ExportFailedMessage: string := "Failed to export CSV"

  /** One parsed CSV line; a missing column is "". */
  datatype CsvRow = CsvRow(model: string, serialNumber: string, simNumber: string, dateAdded: string)

  function PairOf(row: CsvRow): Pair {
    Pair(row.serialNumber, row.simNumber)
  }

  /** A row takes part in the upload only when model, serial and SIM are all present. */
  predicate ValidRow(row: CsvRow) {
    row.model != "" && row.serialNumber != "" && row.simNumber != ""
  }

  /** The manual submit: both numbers are required; the request carries exactly one pair. */
  function ManualPayload(form: ManualForm): (r: Result<CreatePayload, string>)
    ensures r.Failure? <==> form.serialNumber == "" || form.simNumber == ""
    ensures r.Failure? ==> r.error == RequiredMessage
    ensures r.Success? ==> r.value.model == form.model && r.value.dateAdded == form.dateAdded &&
                           r.value.serialSimPairs == [Pair(form.serialNumber, form.simNumber)]
  {
    if form.serialNumber == "" || form.simNumber == "" then Failure(RequiredMessage)
    else Success(CreatePayload(form.model, [Pair(form.serialNumber, form.simNumber)], form.dateAdded))
  }

  /** The `forEach` step of the upload: skip an incomplete row, open a group for a new
      model (dated by the row, or by `today` when the row has no date), or append the
      pair to the model's existing group. */
  function AddRow(groups: seq<CreatePayload>, row: CsvRow, today: string): (r: seq<CreatePayload>)
    ensures |r| <= |groups| + (if ValidRow(row) then 1 else 0)
  {
    if !ValidRow(row) then groups
    else
      var i := FirstIndex(groups, (g: CreatePayload) => g.model == row.model);
      if i < 0 then groups + [OpenGroup(row, today)] else groups[i := GrowGroup(groups[i], row)]
  }

  function OpenGroup(row: CsvRow, today: string): CreatePayload {
    CreatePayload(row.model, [PairOf(row)], if row.dateAdded != "" then row.dateAdded else today)
  }

  function GrowGroup(group: CreatePayload, row: CsvRow): CreatePayload {
    group.(serialSimPairs := group.serialSimPairs + [PairOf(row)])
  }

  /** `inventoryMap` after all rows, as its groups in the order they were opened. */
  function GroupRows(rows: seq<CsvRow>, today: string): (r: seq<CreatePayload>)
    ensures |r| <= Count(rows, ValidRow)
    decreases |rows|
  {
    if |rows| == 0 then []
    else
      var pre := rows[..|rows| - 1];
      CountAppend(pre, rows[|rows| - 1], ValidRow);
      assert rows == pre + [rows[|rows| - 1]];
      AddRow(GroupRows(pre, today), rows[|rows| - 1], today)
  }

  // ---- The meaning of the grouping, stated without the map ----

  predicate RowOf(row: CsvRow, model: string) {
    ValidRow(row) && row.model == model
  }

  /** The pairs of `model`: its complete rows' pairs, in file order. */
  function PairsFor(rows: seq<CsvRow>, model: string): seq<Pair> {
    Map(Filter(rows, (row: CsvRow) => RowOf(row, model)), PairOf)
  }

  /** The date of `model`: that of its first complete row, or `today` when that row has none. */
  function DateFor(rows: seq<CsvRow>, model: string, today: string): string {
    var first := Find(rows, (row: CsvRow) => RowOf(row, model));
    if first.Some? && first.value.dateAdded != "" then first.value.dateAdded else today
  }

  predicate DistinctModels(groups: seq<CreatePayload>) {
    forall i, j :: 0 <= i < j < |groups| ==> groups[i].model != groups[j].model
  }

  /** Some group is about the model of every complete row. */
  ghost predicate CoversRows(groups: seq<CreatePayload>, rows: seq<CsvRow>) {
    forall k :: 0 <= k < |rows| && ValidRow(rows[k]) ==>
      exists i :: 0 <= i < |groups| && groups[i].model == rows[k].model
  }

  /** A group holds exactly its model's pairs, in file order, dated by its first row. */
  predicate GroupMatches(group: CreatePayload, rows: seq<CsvRow>, today: string) {
    group.serialSimPairs == PairsFor(rows, group.model) && group.serialSimPairs != [] &&
    group.dateAdded == DateFor(rows, group.model, today)
  }

  /** The grouping spelled out: one group per model, a group for every complete row's
      model, and each group matches its rows. */
  ghost predicate GroupsDescribe(groups: seq<CreatePayload>, rows: seq<CsvRow>, today: string) {
    DistinctModels(groups) && CoversRows(groups, rows) &&
    forall i :: 0 <= i < |groups| ==> GroupMatches(groups[i], rows, today)
  }

  lemma GroupRowsSnoc(rows: seq<CsvRow>, row: CsvRow, today: string)
    ensures GroupRows(rows + [row], today) == AddRow(GroupRows(rows, today), row, today)
  {
    assert (rows + [row])[..|rows|] == rows;
  }

  /** A row that is not about `model` leaves its pairs and date alone. */
  lemma OtherRowKeeps(rows: seq<CsvRow>, row: CsvRow, model: string, today: string)
    requires !RowOf(row, model)
    ensures PairsFor(rows + [row], model) == PairsFor(rows, model)
    ensures DateFor(rows + [row], model, today) == DateFor(rows, model, today)
  {
    FilterAppend(rows, row, (r: CsvRow) => RowOf(r, model));
    FindAppend(rows, row, (r: CsvRow) => RowOf(r, model));
  }

  /** A row about `model` adds its pair at the end and fixes the date if it is the first. */
  lemma OwnRowAppends(rows: seq<CsvRow>, row: CsvRow, today: string)
    requires ValidRow(row)
    ensures PairsFor(rows + [row], row.model) == PairsFor(rows, row.model) + [PairOf(row)]
    ensures PairsFor(rows, row.model) != [] ==>
              DateFor(rows + [row], row.model, today) == DateFor(rows, row.model, today)
    ensures PairsFor(rows, row.model) == [] ==>
              DateFor(rows + [row], row.model, today) ==
                (if row.dateAdded != "" then row.dateAdded else today)
  {
    var p := (r: CsvRow) => RowOf(r, row.model);
    FilterAppend(rows, row, p);
    MapConcat(Filter(rows, p), [row], PairOf);
    FindAppend(rows, row, p);
    FilterEmpty(rows, p);
  }

  /** Every group of the upload is described by the rows: see `GroupsDescribe`. */
  lemma {:induction false} GroupRowsMeaning(rows: seq<CsvRow>, today: string)
    ensures GroupsDescribe(GroupRows(rows, today), rows, today)
    decreases |rows|
  {
    if |rows| > 0 {
      var pre := rows[..|rows| - 1];
      var row := rows[|rows| - 1];
      assert rows == pre + [row];
      GroupRowsMeaning(pre, today);
      GroupRowsSnoc(pre, row, today);
      AddRowKeepsMeaning(GroupRows(pre, today), pre, row, today);
    }
  }

  /** One upload step keeps the description true for the rows read so far. */
  lemma AddRowKeepsMeaning(groups: seq<CreatePayload>, pre: seq<CsvRow>, row: CsvRow, today: string)
    requires GroupsDescribe(groups, pre, today)
    ensures GroupsDescribe(AddRow(groups, row, today), pre + [row], today)
  {
    if !ValidRow(row) {
      SkipRowKeepsMeaning(groups, pre, row, today);
    } else if FirstIndex(groups, (g: CreatePayload) => g.model == row.model) < 0 {
      NewModelKeepsMeaning(groups, pre, row, today);
    } else {
      KnownModelKeepsMeaning(groups, pre, row, today);
    }
  }

  lemma SkipRowKeepsMeaning(groups: seq<CreatePayload>, pre: seq<CsvRow>, row: CsvRow, today: string)
    requires GroupsDescribe(groups, pre, today) && !ValidRow(row)
    ensures GroupsDescribe(AddRow(groups, row, today), pre + [row], today)
  {
    var rows := pre + [row];
    assert AddRow(groups, row, today) == groups;
    forall i | 0 <= i < |groups|
      ensures GroupMatches(groups[i], rows, today)
    {
      assert GroupMatches(groups[i], pre, today);
      OtherRowKeeps(pre, row, groups[i].model, today);
    }
    forall k | 0 <= k < |rows| && ValidRow(rows[k])
      ensures exists i :: 0 <= i < |groups| && groups[i].model == rows[k].model
    {
      assert k < |pre| && rows[k] == pre[k];
    }
  }

  /** A complete row whose model has no group yet had no complete predecessor. */
  lemma NoEarlierRows(groups: seq<CreatePayload>, pre: seq<CsvRow>, model: string)
    requires CoversRows(groups, pre)
    requires forall i :: 0 <= i < |groups| ==> groups[i].model != model
    ensures PairsFor(pre, model) == []
  {
    var p := (r: CsvRow) => RowOf(r, model);
    assert forall k :: 0 <= k < |pre| ==> !p(pre[k]);
    FilterEmpty(pre, p);
  }

  lemma CoversAfterAppend(groups: seq<CreatePayload>, pre: seq<CsvRow>, row: CsvRow, newGroup: CreatePayload)
    requires CoversRows(groups, pre) && newGroup.model == row.model
    ensures CoversRows(groups + [newGroup], pre + [row])
  {
    var g := groups + [newGroup];
    var rows := pre + [row];
    forall k | 0 <= k < |rows| && ValidRow(rows[k])
      ensures exists i :: 0 <= i < |g| && g[i].model == rows[k].model
    {
      if k < |pre| {
        assert rows[k] == pre[k];
        var i :| 0 <= i < |groups| && groups[i].model == pre[k].model;
        assert g[i] == groups[i];
      } else {
        assert g[|groups|].model == rows[k].model;
      }
    }
  }

  lemma CoversAfterUpdate(groups: seq<CreatePayload>, pre: seq<CsvRow>, row: CsvRow, i: nat, updated: CreatePayload)
    requires CoversRows(groups, pre) && i < |groups|
    requires updated.model == groups[i].model == row.model
    ensures CoversRows(groups[i := updated], pre + [row])
  {
    var g := groups[i := updated];
    var rows := pre + [row];
    assert forall j :: 0 <= j < |g| ==> g[j].model == groups[j].model;
    forall k | 0 <= k < |rows| && ValidRow(rows[k])
      ensures exists j :: 0 <= j < |g| && g[j].model == rows[k].model
    {
      if k < |pre| {
        assert rows[k] == pre[k];
        var j :| 0 <= j < |groups| && groups[j].model == pre[k].model;
        assert g[j].model == rows[k].model;
      } else {
        assert g[i].model == rows[k].model;
      }
    }
  }

  lemma DistinctAfterAppend(groups: seq<CreatePayload>, newGroup: CreatePayload)
    requires DistinctModels(groups)
    requires forall i :: 0 <= i < |groups| ==> groups[i].model != newGroup.model
    ensures DistinctModels(groups + [newGroup])
  {
    var g := groups + [newGroup];
    forall a, b | 0 <= a < b < |g|
      ensures g[a].model != g[b].model
    {
      assert g[a] == groups[a];
      if b < |groups| {
        assert g[b] == groups[b];
      }
    }
  }

  lemma DistinctAfterUpdate(groups: seq<CreatePayload>, i: nat, updated: CreatePayload)
    requires DistinctModels(groups) && i < |groups| && updated.model == groups[i].model
    ensures DistinctModels(groups[i := updated])
  {
    var g := groups[i := updated];
    assert forall j :: 0 <= j < |g| ==> g[j].model == groups[j].model;
  }

  /** Groups about other models still match once a row about `row.model` is read. */
  lemma OthersStillMatch(groups: seq<CreatePayload>, pre: seq<CsvRow>, row: CsvRow, today: string, skip: int)
    requires forall i :: 0 <= i < |groups| && i != skip ==>
               GroupMatches(groups[i], pre, today) && !RowOf(row, groups[i].model)
    ensures forall i :: 0 <= i < |groups| && i != skip ==> GroupMatches(groups[i], pre + [row], today)
  {
    forall i | 0 <= i < |groups| && i != skip
      ensures GroupMatches(groups[i], pre + [row], today)
    {
      OtherRowKeeps(pre, row, groups[i].model, today);
    }
  }

  lemma MatchesAfterAppend(groups: seq<CreatePayload>, rows: seq<CsvRow>, newGroup: CreatePayload, today: string)
    requires forall i :: 0 <= i < |groups| ==> GroupMatches(groups[i], rows, today)
    requires GroupMatches(newGroup, rows, today)
    ensures forall i :: 0 <= i < |groups + [newGroup]| ==> GroupMatches((groups + [newGroup])[i], rows, today)
  {
    var g := groups + [newGroup];
    forall i | 0 <= i < |g|
      ensures GroupMatches(g[i], rows, today)
    {
      if i < |groups| {
        assert g[i] == groups[i];
      } else {
        assert g[i] == newGroup;
      }
    }
  }

  lemma NewModelKeepsMeaning(groups: seq<CreatePayload>, pre: seq<CsvRow>, row: CsvRow, today: string)
    requires GroupsDescribe(groups, pre, today) && ValidRow(row)
    requires FirstIndex(groups, (g: CreatePayload) => g.model == row.model) < 0
    ensures GroupsDescribe(AddRow(groups, row, today), pre + [row], today)
  {
    var rows := pre + [row];
    var newGroup := OpenGroup(row, today);
    assert AddRow(groups, row, today) == groups + [newGroup];
    assert forall i :: 0 <= i < |groups| ==> groups[i].model != row.model;
    NoEarlierRows(groups, pre, row.model);
    OwnRowAppends(pre, row, today);
    assert GroupMatches(newGroup, rows, today);
    OthersStillMatch(groups, pre, row, today, -1);
    MatchesAfterAppend(groups, rows, newGroup, today);
    CoversAfterAppend(groups, pre, row, newGroup);
    DistinctAfterAppend(groups, newGroup);
  }

  lemma KnownModelKeepsMeaning(groups: seq<CreatePayload>, pre: seq<CsvRow>, row: CsvRow, today: string)
    requires GroupsDescribe(groups, pre, today) && ValidRow(row)
    requires FirstIndex(groups, (g: CreatePayload) => g.model == row.model) >= 0
    ensures GroupsDescribe(AddRow(groups, row, today), pre + [row], today)
  {
    var rows := pre + [row];
    var i := FirstIndex(groups, (g: CreatePayload) => g.model == row.model);
    var updated := GrowGroup(groups[i], row);
    var g := AddRow(groups, row, today);
    assert g == groups[i := updated];
    GrownGroupMatches(groups[i], pre, row, today);
    assert forall j :: 0 <= j < |groups| && j != i ==> groups[j].model != groups[i].model;
    OthersStillMatch(groups, pre, row, today, i);
    MatchesAfterUpdate(groups, rows, i, updated, g, today);
    CoversAfterUpdate(groups, pre, row, i, updated);
    DistinctAfterUpdate(groups, i, updated);
  }

  /** A group that matched before still matches once its own row's pair is appended. */
  lemma GrownGroupMatches(group: CreatePayload, pre: seq<CsvRow>, row: CsvRow, today: string)
    requires GroupMatches(group, pre, today) && ValidRow(row) && group.model == row.model
    ensures GroupMatches(GrowGroup(group, row), pre + [row], today)
  {
    OwnRowAppends(pre, row, today);
  }

  lemma MatchesAfterUpdate(groups: seq<CreatePayload>, rows: seq<CsvRow>, i: nat, updated: CreatePayload,
                           g: seq<CreatePayload>, today: string)
    requires i < |groups| && g == groups[i := updated]
    requires forall j :: 0 <= j < |groups| && j != i ==> GroupMatches(groups[j], rows, today)
    requires GroupMatches(updated, rows, today)
    ensures forall j :: 0 <= j < |g| ==> GroupMatches(g[j], rows, today)
  {
  }

  // ---- Totals and the upload requests ----

  function PairCount(g: CreatePayload): int {
    |g.serialSimPairs|
  }

  /** Every complete row becomes exactly one pair of exactly one request. */
  lemma {:induction false} GroupRowsKeepsEveryRow(rows: seq<CsvRow>, today: string)
    ensures Sum(GroupRows(rows, today), PairCount) == Count(rows, ValidRow)
    decreases |rows|
  {
    if |rows| > 0 {
      var pre := rows[..|rows| - 1];
      var row := rows[|rows| - 1];
      assert rows == pre + [row];
      GroupRowsKeepsEveryRow(pre, today);
      GroupRowsSnoc(pre, row, today);
      CountAppend(pre, row, ValidRow);
      var groups := GroupRows(pre, today);
      if ValidRow(row) {
        var i := FirstIndex(groups, (g: CreatePayload) => g.model == row.model);
        if i < 0 {
          SumAppend(groups, OpenGroup(row, today), PairCount);
        } else {
          SumUpdate(groups, i, GrowGroup(groups[i], row), PairCount);
        }
      }
    }
  }

  /** The manual form and a one-line CSV with the same fields send the same request. */
  lemma ManualMatchesOneRowUpload(form: ManualForm, today: string)
    requires form.model != "" && form.dateAdded != ""
    ensures var rows := [CsvRow(form.model, form.serialNumber, form.simNumber, form.dateAdded)];
            (ManualPayload(form).Success? <==> GroupRows(rows, today) != []) &&
            (ManualPayload(form).Success? ==> GroupRows(rows, today) == [ManualPayload(form).value])
  {
    var rows := [CsvRow(form.model, form.serialNumber, form.simNumber, form.dateAdded)];
    assert rows[..0] == [];
  }

  /** The upload posts the groups one at a time and stops at the first rejected request:
      `attempted` requests were sent, and `ok` says whether all were accepted. */
  function PostInOrder(accepted: seq<bool>): (r: (nat, bool))
    ensures r.1 <==> forall i :: 0 <= i < |accepted| ==> accepted[i]
    ensures r.1 ==> r.0 == |accepted|
    ensures !r.1 ==> 0 < r.0 <= |accepted| && !accepted[r.0 - 1] &&
                     forall i :: 0 <= i < r.0 - 1 ==> accepted[i]
  {
    var k := FirstIndex(accepted, (b: bool) => !b);
    if k < 0 then (|accepted|, true) else (k + 1, false)
  }

  // ---- The export ----

  /** One line of the exported file. */
  datatype ExportRow = ExportRow(model: string, serialNumber: string, simNumber: string,
                                 dateAdded: string, status: string)

  /** `s.split('T')[0]`: the text before the first 'T', or all of `s`. */
  function DatePart(s: string): (r: string)
    ensures r <= s
    ensures 'T' !in r
    ensures |r| < |s| ==> s[|r|] == 'T'
  {
    if |s| == 0 || s[0] == 'T' then "" else [s[0]] + DatePart(s[1..])
  }

  /** The export reads `item.dateAdded` only inside the per-unit loop, so a product
      with an empty serial list never needs a date. */
  predicate Exportable(item: InventoryItem) {
    item.serialSims.Some? && (|item.serialSims.value| == 0 || item.dateAdded.Some?)
  }

  function RowFor(item: InventoryItem, s: SerialSim): ExportRow {
    ExportRow(item.model, s.serialNumber, s.simNumber, DatePart(item.dateAdded.GetOr("")), s.status)
  }

  function RowsOf(item: InventoryItem): seq<ExportRow> {
    Map(Sims(item), (s: SerialSim) => RowFor(item, s))
  }

  /** The export's nested `forEach`: one row per serial entry, product by product. A
      product without a serial list, or with serial entries but no date, throws, so
      nothing is saved. */
  function ExportRows(items: seq<InventoryItem>): (r: Result<seq<ExportRow>, string>)
    ensures r.Failure? <==> exists i :: 0 <= i < |items| && !Exportable(items[i])
    ensures r.Failure? ==> r.error == ExportFailedMessage
    ensures r.Success? ==> |r.value| == Sum(items, UnitCount)
    decreases |items|
  {
    if |items| == 0 then Success([])
    else if !Exportable(items[0]) then Failure(ExportFailedMessage)
    else
      var rest := ExportRows(items[1..]);
      if rest.Failure? then
        assert exists i :: 0 <= i < |items[1..]| && !Exportable(items[1..][i]);
        rest
      else
        assert forall i :: 1 <= i < |items| ==> items[i] == items[1..][i - 1];
        Success(RowsOf(items[0]) + rest.value)
  }

  /** A product with an empty serial list adds no line and never fails the export,
      whatever its date. */
  lemma ProductWithoutUnitsExportsNothing(items: seq<InventoryItem>, x: InventoryItem)
    requires x.serialSims == Some([])
    ensures ExportRows(items + [x]) == ExportRows(items)
  {
    if ExportRows(items).Success? {
      ExportSnoc(items, x);
      assert RowsOf(x) == [];
      assert ExportRows(items).value + [] == ExportRows(items).value;
    } else {
      var i :| 0 <= i < |items| && !Exportable(items[i]);
      assert (items + [x])[i] == items[i];
    }
  }

  /** The download as a whole: a response without a product list fails too. */
  function ExportCsv(body: Option<seq<InventoryItem>>): (r: Result<seq<ExportRow>, string>)
    ensures body.None? ==> r == Failure(ExportFailedMessage)
    ensures body.Some? ==> r == ExportRows(body.value)
  {
    if body.None? then Failure(ExportFailedMessage) else ExportRows(body.value)
  }

  /** Where each serial entry lands: entry `j` of product `i` is line
      `(units of products before i) + j`, carrying the product's model and date part. */
  lemma {:induction false} ExportRowAt(items: seq<InventoryItem>, i: nat, j: nat)
    requires ExportRows(items).Success?
    requires i < |items| && j < UnitCount(items[i])
    ensures 0 <= Sum(items[..i], UnitCount) &&
            Sum(items[..i], UnitCount) + j < |ExportRows(items).value| &&
            ExportRows(items).value[Sum(items[..i], UnitCount) + j] == RowFor(items[i], Sims(items[i])[j])
    decreases i
  {
    var rest := items[1..];
    assert ExportRows(items).value == RowsOf(items[0]) + ExportRows(rest).value;
    if i > 0 {
      ExportRowAt(rest, i - 1, j);
      assert items[..i] == [items[0]] + rest[..i - 1];
      assert items[i] == rest[i - 1];
      assert items[..i][1..] == rest[..i - 1];
    } else {
      assert items[..0] == [];
    }
  }

  /** Exporting a product in front of others puts its lines first. */
  lemma ExportCons(y: InventoryItem, rest: seq<InventoryItem>)
    requires Exportable(y) && ExportRows(rest).Success?
    ensures ExportRows([y] + rest) == Success(RowsOf(y) + ExportRows(rest).value)
  {
    assert ([y] + rest)[0] == y;
    assert ([y] + rest)[1..] == rest;
  }

  lemma {:induction false} ExportSnoc(items: seq<InventoryItem>, x: InventoryItem)
    requires ExportRows(items).Success? && Exportable(x)
    ensures ExportRows(items + [x]) == Success(ExportRows(items).value + RowsOf(x))
    decreases |items|
  {
    if |items| == 0 {
      assert items + [x] == [x] + [];
      ExportCons(x, []);
      assert RowsOf(x) + [] == [] + RowsOf(x);
    } else {
      var tail := items[1..];
      assert items == [items[0]] + tail;
      assert items + [x] == [items[0]] + (tail + [x]);
      assert Exportable(items[0]);
      ExportSnoc(tail, x);
      ExportCons(items[0], tail + [x]);
      ExportCons(items[0], tail);
      var head := RowsOf(items[0]);
      assert head + (ExportRows(tail).value + RowsOf(x)) == (head + ExportRows(tail).value) + RowsOf(x);
    }
  }

  // ---- Export then import ----

  function ToCsvRow(r: ExportRow): CsvRow {
    CsvRow(r.model, r.serialNumber, r.simNumber, r.dateAdded)
  }

  function SimPair(s: SerialSim): Pair {
    Pair(s.serialNumber, s.simNumber)
  }

  /** The create request that would recreate `item`. */
  function PayloadOf(item: InventoryItem): CreatePayload {
    CreatePayload(item.model, Map(Sims(item), SimPair), DatePart(item.dateAdded.GetOr("")))
  }

  /** A product whose exported lines are all complete and dated. */
  predicate Reimportable(item: InventoryItem) {
    Exportable(item) && item.model != "" && |Sims(item)| > 0 &&
    DatePart(item.dateAdded.value) != "" &&
    forall j :: 0 <= j < |Sims(item)| ==>
      Sims(item)[j].serialNumber != "" && Sims(item)[j].simNumber != ""
  }

  /** A run of complete rows about a model without a group opens one group holding the
      whole run. */
  lemma {:induction false} GroupBlock(pre: seq<CsvRow>, block: seq<CsvRow>, today: string, model: string, date: string)
    requires |block| > 0 && date != ""
    requires forall k :: 0 <= k < |block| ==>
               ValidRow(block[k]) && block[k].model == model && block[k].dateAdded == date
    requires forall i :: 0 <= i < |GroupRows(pre, today)| ==> GroupRows(pre, today)[i].model != model
    ensures GroupRows(pre + block, today) ==
              GroupRows(pre, today) + [CreatePayload(model, Map(block, PairOf), date)]
    decreases |block|
  {
    var groups := GroupRows(pre, today);
    var x := block[|block| - 1];
    var front := block[..|block| - 1];
    assert block == front + [x];
    assert pre + block == (pre + front) + [x];
    GroupRowsSnoc(pre + front, x, today);
    MapConcat(front, [x], PairOf);
    if |front| == 0 {
      assert pre + front == pre;
      AddRowNewModel(groups, x, today);
      assert Map(block, PairOf) == [PairOf(x)];
      assert OpenGroup(x, today) == CreatePayload(model, [PairOf(x)], date);
    } else {
      GroupBlock(pre, front, today, model, date);
      var last := CreatePayload(model, Map(front, PairOf), date);
      assert GroupRows(pre + front, today) == groups + [last];
      AddRowToLastGroup(groups, last, x, today);
      assert Map([x], PairOf) == [PairOf(x)];
      assert GrowGroup(last, x) == CreatePayload(model, Map(block, PairOf), date);
    }
  }

  /** A complete row whose model has no group opens a new last group. */
  lemma AddRowNewModel(groups: seq<CreatePayload>, x: CsvRow, today: string)
    requires ValidRow(x)
    requires forall i :: 0 <= i < |groups| ==> groups[i].model != x.model
    ensures AddRow(groups, x, today) == groups + [OpenGroup(x, today)]
  {
    var i := FirstIndex(groups, (g: CreatePayload) => g.model == x.model);
    assert i < 0;
  }

  /** A complete row whose model only the last group has grows that last group. */
  lemma AddRowToLastGroup(groups: seq<CreatePayload>, last: CreatePayload, x: CsvRow, today: string)
    requires ValidRow(x) && last.model == x.model
    requires forall i :: 0 <= i < |groups| ==> groups[i].model != x.model
    ensures AddRow(groups + [last], x, today) == groups + [GrowGroup(last, x)]
  {
    var g := groups + [last];
    assert g[|groups|] == last;
    assert forall i :: 0 <= i < |groups| ==> g[i] == groups[i];
    var i := FirstIndex(g, (p: CreatePayload) => p.model == x.model);
    assert i == |groups|;
    assert g[i := GrowGroup(last, x)] == groups + [GrowGroup(last, x)];
  }

  /** Exporting products with distinct models and complete lines, then uploading the
      file, sends one create request per product, recreating its model, its pairs in
      order and the date part of its date. */
  lemma {:induction false} ImportAfterExport(items: seq<InventoryItem>, today: string)
    requires forall i :: 0 <= i < |items| ==> Reimportable(items[i])
    requires forall i, j :: 0 <= i < j < |items| ==> items[i].model != items[j].model
    ensures ExportRows(items).Success?
    ensures GroupRows(Map(ExportRows(items).value, ToCsvRow), today) == Map(items, PayloadOf)
    decreases |items|
  {
    if |items| == 0 {
      assert Map(ExportRows(items).value, ToCsvRow) == [];
    } else {
      var pre := items[..|items| - 1];
      var x := items[|items| - 1];
      assert items == pre + [x];
      ImportAfterExport(pre, today);
      ExportSnoc(pre, x);
      var before := ExportRows(pre).value;
      MapConcat(before, RowsOf(x), ToCsvRow);
      var block := Map(RowsOf(x), ToCsvRow);
      var date := DatePart(x.dateAdded.value);
      assert forall i :: 0 <= i < |pre| ==> Map(pre, PayloadOf)[i].model == pre[i].model != x.model;
      ProductBlock(x);
      GroupBlock(Map(before, ToCsvRow), block, today, x.model, date);
      assert Map(items, PayloadOf) == Map(pre, PayloadOf) + [PayloadOf(x)];
    }
  }

  /** A reimportable product's exported lines, read back as upload rows, are complete,
      share its model and date part, and carry its pairs in order. */
  lemma ProductBlock(x: InventoryItem)
    requires Reimportable(x)
    ensures var block := Map(RowsOf(x), ToCsvRow);
            && |block| > 0
            && (forall k :: 0 <= k < |block| ==>
                  ValidRow(block[k]) && block[k].model == x.model &&
                  block[k].dateAdded == DatePart(x.dateAdded.value))
            && Map(block, PairOf) == Map(Sims(x), SimPair)
  {
    var block := Map(RowsOf(x), ToCsvRow);
    assert forall k :: 0 <= k < |block| ==> block[k] == ToCsvRow(RowFor(x, Sims(x)[k]));
  }
}
