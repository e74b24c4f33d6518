/** The "Record New Sale" page of the inventory app: available stock for the chosen
    model, the total/balance effect, the sale-type switch, the three pre-submission
    guards, greedy allocation of the requested quantity over the model's stock lines,
    and the clamped quantity written back to each allocated line after the sale. */
module SalesNew {
  import opened Wrappers
  import opened Seqs

  /** A direct sale below this unit price (KSh) is refused. */
  const DirectSalePriceFloor: int := 9500
  /** The user id a direct sale is recorded under. */
  const DirectSaleUserId: int := 2

  /** One stock line as the inventory endpoint returns it to this page; a missing
      serial or SIM number is the empty string. */
  datatype StockLine = StockLine(
    id: int, model: string, quantity: int, price: int,
    serialNumber: string, simNumber: string)

  /** The form state. `dealerId` is `None` while the dealer field is the empty string;
      numeric fields hold the already-parsed numbers (an empty field is 0). */
  datatype SaleForm = SaleForm(
    saleType: string, dealerId: Option<int>, quantity: int, unitPrice: int,
    totalAmount: int, amountPaid: int, buyerName: string, buyerContact: string)

  datatype SaleItem = SaleItem(productId: int, quantity: int, serialNumber: string, simNumber: string)

  datatype SalePayload = SalePayload(
    userId: int, dealerId: int, negotiatedPrice: int, isDirectSale: bool,
    saleItems: seq<SaleItem>)

  /** Why a submission was refused before any request was sent. */
  datatype SaleError = MissingModel | QuantityExceedsStock(available: int) | PriceBelowFloor

  /** The write-back issued for one allocated line after the sale was recorded. */
  datatype QuantityUpdate = QuantityUpdate(productId: int, quantity: int)

  function LineQuantity(l: StockLine): int { l.quantity }
  function ItemQuantity(it: SaleItem): int { it.quantity }

  /** Total of the quantities of `lines` (the page's `totalAvailable`). */
  function TotalAvailable(lines: seq<StockLine>): int {
    Sum(lines, LineQuantity)
  }

  function SumItems(items: seq<SaleItem>): int {
    Sum(items, ItemQuantity)
  }

  /** The stock lines offered for `model`: none while no model is chosen, otherwise
      exactly the lines of that model, in inventory order. */
  function StockFor(inventory: seq<StockLine>, model: string): (r: seq<StockLine>)
    ensures model == "" ==> r == []
    ensures forall i :: 0 <= i < |r| ==> r[i].model == model && r[i] in inventory
    ensures model != "" ==> forall i :: 0 <= i < |inventory| && inventory[i].model == model ==> inventory[i] in r
    ensures IsSubsequence(r, inventory)
    ensures model != "" ==> |r| == Count(inventory, (l: StockLine) => l.model == model)
  {
    if model == "" then [] else Filter(inventory, (l: StockLine) => l.model == model)
  }

  /** The independent reading of "available stock for `model`": add up every
      inventory line's quantity, counting lines of another model as 0. */
  function ModelStock(inventory: seq<StockLine>, model: string): int {
    if |inventory| == 0 then 0
    else (if inventory[0].model == model then inventory[0].quantity else 0) + ModelStock(inventory[1..], model)
  }

  /** The stock shown next to the quantity field is the quantity of the chosen model. */
  lemma {:induction false} AvailableIsModelStock(inventory: seq<StockLine>, model: string)
    requires model != ""
    ensures TotalAvailable(StockFor(inventory, model)) == ModelStock(inventory, model)
  {
    if |inventory| > 0 {
      AvailableIsModelStock(inventory[1..], model);
      var p := (l: StockLine) => l.model == model;
      if p(inventory[0]) {
        assert Filter(inventory, p) == [inventory[0]] + Filter(inventory[1..], p);
      }
    }
  }

  /** The effect that recomputes the total and the balance: it fires only when both the
      quantity and the unit price are positive, and otherwise changes nothing. */
  function RecomputeTotals(form: SaleForm, balance: int): (r: (SaleForm, int))
    ensures form.quantity > 0 && form.unitPrice > 0 ==>
      r.0 == form.(totalAmount := form.quantity * form.unitPrice) &&
      r.1 == r.0.totalAmount - form.amountPaid
    ensures !(form.quantity > 0 && form.unitPrice > 0) ==> r == (form, balance)
  {
    if form.quantity > 0 && form.unitPrice > 0 then
      var total := form.quantity * form.unitPrice;
      (form.(totalAmount := total), total - form.amountPaid)
    else (form, balance)
  }

  /** After the effect has run, running it again is a no-op: the derived fields are
      consistent with the inputs. */
  lemma RecomputeIsStable(form: SaleForm, balance: int)
    ensures var (f, b) := RecomputeTotals(form, balance); RecomputeTotals(f, b) == (f, b)
  {
  }

  /** Choosing the sale type: "dealer" clears the buyer fields; any other type clears
      the dealer. Nothing else changes. */
  function ChangeSaleType(form: SaleForm, saleType: string): (r: SaleForm)
    ensures r.saleType == saleType
    ensures saleType == "dealer" ==> r == form.(saleType := saleType, buyerName := "", buyerContact := "")
    ensures saleType != "dealer" ==> r == form.(saleType := saleType, dealerId := None)
  {
    if saleType == "dealer" then form.(saleType := saleType, buyerName := "", buyerContact := "")
    else form.(saleType := saleType, dealerId := None)
  }

  function Min(a: int, b: int): int { if a <= b then a else b }

  function ItemFor(line: StockLine, deduct: int): SaleItem {
    SaleItem(line.id, deduct, line.serialNumber, line.simNumber)
  }

  /** `items` is what the greedy walk over `lines` produces for `qty`: it visits the
      lines in order while something remains, line `i` gives
      min(its quantity, what remains before it), and it stops early only once
      nothing remains. */
  ghost predicate GreedyAllocation(lines: seq<StockLine>, qty: int, items: seq<SaleItem>) {
    && |items| <= |lines|
    && (forall i :: 0 <= i < |items| ==> qty - SumItems(items[..i]) > 0)
    && (forall i :: 0 <= i < |items| ==>
          items[i] == ItemFor(lines[i], Min(lines[i].quantity, qty - SumItems(items[..i]))))
    && (|items| < |lines| ==> qty - SumItems(items) <= 0)
  }

  /** The allocation loop of the submit handler. */
  method Allocate(lines: seq<StockLine>, qty: int) returns (items: seq<SaleItem>)
    ensures GreedyAllocation(lines, qty, items)
    ensures qty <= 0 ==> items == []
    ensures forall i :: 0 <= i < |items| ==> items[i].quantity <= lines[i].quantity
    ensures 0 <= qty <= TotalAvailable(lines) ==> SumItems(items) == qty
    ensures 0 <= qty ==> SumItems(items) <= qty
  {
    items := [];
    var remaining := qty;
    var i := 0;
    while i < |lines| && remaining > 0
      invariant 0 <= i <= |lines| && |items| == i
      invariant remaining == qty - SumItems(items)
      invariant i > 0 ==> qty > 0 && remaining >= 0
      invariant remaining > 0 ==> SumItems(items) == TotalAvailable(lines[..i])
      invariant forall k :: 0 <= k < i ==> qty - SumItems(items[..k]) > 0
      invariant forall k :: 0 <= k < i ==>
        items[k] == ItemFor(lines[k], Min(lines[k].quantity, qty - SumItems(items[..k])))
    {
      var deduct := Min(lines[i].quantity, remaining);
      assert items[..i] == items;
      SumAppend(items, ItemFor(lines[i], deduct), ItemQuantity);
      assert lines[..i + 1] == lines[..i] + [lines[i]];
      SumAppend(lines[..i], lines[i], LineQuantity);
      ghost var prev := items;
      items := items + [ItemFor(lines[i], deduct)];
      remaining := remaining - deduct;
      assert items[..i] == prev;
      assert forall k :: 0 <= k <= i ==> items[..k] == prev[..k];
      i := i + 1;
    }
    assert lines[..|lines|] == lines;
  }

  /** Rejection reasons in the order the handler checks them; `None` lets the sale
      through. */
  function Guard(form: SaleForm, selectedModel: string, lines: seq<StockLine>): (r: Option<SaleError>)
    ensures r == Some(MissingModel) <==> selectedModel == "" || |lines| == 0
    ensures r == Some(QuantityExceedsStock(TotalAvailable(lines))) <==>
      selectedModel != "" && |lines| > 0 && form.quantity > TotalAvailable(lines)
    ensures r == Some(PriceBelowFloor) <==>
      selectedModel != "" && |lines| > 0 && form.quantity <= TotalAvailable(lines) &&
      form.saleType == "direct" && form.unitPrice < DirectSalePriceFloor
    ensures r.Some? ==>
      (r.value == MissingModel || r.value == PriceBelowFloor ||
       r.value == QuantityExceedsStock(TotalAvailable(lines)))
  {
    if selectedModel == "" || |lines| == 0 then Some(MissingModel)
    else if form.quantity > TotalAvailable(lines) then Some(QuantityExceedsStock(TotalAvailable(lines)))
    else if form.saleType == "direct" && form.unitPrice < DirectSalePriceFloor then Some(PriceBelowFloor)
    else None
  }

  /** The submit handler up to the sale request: either a refusal (no request is
      sent) or the payload it posts. */
  method Submit(form: SaleForm, selectedModel: string, inventory: seq<StockLine>)
    returns (r: Result<SalePayload, SaleError>)
    ensures var lines := StockFor(inventory, selectedModel);
      r.Failure? <==> Guard(form, selectedModel, lines).Some?
    ensures var lines := StockFor(inventory, selectedModel);
      r.Failure? ==> r.error == Guard(form, selectedModel, lines).value
    ensures r.Success? ==>
      var p := r.value;
      var direct := form.saleType == "direct";
      && p.isDirectSale == direct
      && p.userId == (if direct then DirectSaleUserId else form.dealerId.GetOr(0))
      && p.dealerId == (if direct then 0 else form.dealerId.GetOr(0))
      && p.negotiatedPrice == form.totalAmount
      && (direct ==> form.unitPrice >= DirectSalePriceFloor)
      && GreedyAllocation(StockFor(inventory, selectedModel), form.quantity, p.saleItems)
      && (form.quantity >= 0 ==> SumItems(p.saleItems) == form.quantity)
      && (form.quantity <= 0 ==> p.saleItems == [])
  {
    var lines := StockFor(inventory, selectedModel);
    var refusal := Guard(form, selectedModel, lines);
    if refusal.Some? {
      return Failure(refusal.value);
    }
    var items := Allocate(lines, form.quantity);
    var direct := form.saleType == "direct";
    r := Success(SalePayload(
      if direct then DirectSaleUserId else form.dealerId.GetOr(0),
      if direct then 0 else form.dealerId.GetOr(0),
      form.totalAmount, direct, items));
  }

  predicate HasProduct(inventory: seq<StockLine>, id: int) {
    exists j :: 0 <= j < |inventory| && inventory[j].id == id
  }

  function Max0(x: int): int { if x < 0 then 0 else x }

  /** The quantity write-backs after a recorded sale: for each sale item, the first
      inventory line with its product id gets max(0, old - deducted); items whose
      product id matches no line are skipped. */
  function RestockUpdates(inventory: seq<StockLine>, items: seq<SaleItem>): (r: seq<QuantityUpdate>)
    ensures |r| <= |items|
    ensures forall k :: 0 <= k < |r| ==> r[k].quantity >= 0
    ensures forall k :: 0 <= k < |r| ==> HasProduct(inventory, r[k].productId)
    ensures (forall k :: 0 <= k < |items| ==> HasProduct(inventory, items[k].productId)) ==>
      |r| == |items| && forall k :: 0 <= k < |r| ==> r[k].productId == items[k].productId
  {
    if |items| == 0 then [] else WriteBack(inventory, items[0]) + RestockUpdates(inventory, items[1..])
  }

  /** The write-back for one sale item: none when no line has its product id. */
  function WriteBack(inventory: seq<StockLine>, item: SaleItem): (r: seq<QuantityUpdate>)
    ensures |r| <= 1
    ensures |r| == 1 <==> HasProduct(inventory, item.productId)
    ensures |r| == 1 ==> r[0].productId == item.productId && r[0].quantity >= 0
  {
    var found := Find(inventory, (l: StockLine) => l.id == item.productId);
    if found.None? then []
    else [QuantityUpdate(item.productId, Max0(found.value.quantity - item.quantity))]
  }

  function UpdateQuantity(u: QuantityUpdate): int { u.quantity }

  predicate UniqueIds(inventory: seq<StockLine>) {
    forall i, j :: 0 <= i < j < |inventory| ==> inventory[i].id != inventory[j].id
  }

  /** With unique ids, looking a line up by its own id finds that line. */
  lemma FindOwnLine(inventory: seq<StockLine>, line: StockLine)
    requires UniqueIds(inventory) && line in inventory
    ensures Find(inventory, (l: StockLine) => l.id == line.id) == Some(line)
  {
    var p := (l: StockLine) => l.id == line.id;
    var j :| 0 <= j < |inventory| && inventory[j] == line;
    var r := Find(inventory, p);
    assert p(inventory[j]);
    var i :| 0 <= i < |inventory| && inventory[i] == r.value && p(inventory[i]);
    assert i == j;
  }

  /** When each item deducts between 0 and its own line's quantity, each write-back is
      exactly old - deducted and the written quantities add up to the allocated lines'
      stock minus what was sold. */
  lemma {:induction false} RestockMatchesLines(inventory: seq<StockLine>, lines: seq<StockLine>, items: seq<SaleItem>)
    requires UniqueIds(inventory)
    requires forall k :: 0 <= k < |lines| ==> lines[k] in inventory
    requires |items| <= |lines|
    requires forall k :: 0 <= k < |items| ==>
      items[k].productId == lines[k].id && 0 <= items[k].quantity <= lines[k].quantity
    ensures var u := RestockUpdates(inventory, items);
      && |u| == |items|
      && (forall k :: 0 <= k < |u| ==>
            u[k] == QuantityUpdate(lines[k].id, lines[k].quantity - items[k].quantity))
      && Sum(u, UpdateQuantity) == TotalAvailable(lines[..|items|]) - SumItems(items)
  {
    if |items| > 0 {
      var rest := RestockUpdates(inventory, items[1..]);
      var head := QuantityUpdate(lines[0].id, lines[0].quantity - items[0].quantity);
      RestockMatchesLines(inventory, lines[1..], items[1..]);
      WriteBackOfOwnLine(inventory, lines[0], items[0]);
      var taken := lines[..|items|];
      assert TotalAvailable(taken) == lines[0].quantity + TotalAvailable(lines[1..][..|items| - 1]) by {
        assert taken[1..] == lines[1..][..|items| - 1];
      }
    }
  }

  /** The write-back for an item allocated from `line` is old - deducted. */
  lemma WriteBackOfOwnLine(inventory: seq<StockLine>, line: StockLine, item: SaleItem)
    requires UniqueIds(inventory) && line in inventory
    requires item.productId == line.id && 0 <= item.quantity <= line.quantity
    ensures WriteBack(inventory, item) == [QuantityUpdate(line.id, line.quantity - item.quantity)]
  {
    FindOwnLine(inventory, line);
  }

  /** Stock after a sale: for an allocation over the chosen model's lines (unique ids,
      non-negative quantities), every allocated line gets exactly one write-back, the
      max(0, ...) clamp never changes the value, and the model's stock afterwards is
      the stock before minus the quantity sold. */
  lemma StockAfterSale(inventory: seq<StockLine>, model: string, qty: int, items: seq<SaleItem>)
    requires UniqueIds(inventory)
    requires forall i :: 0 <= i < |inventory| ==> inventory[i].quantity >= 0
    requires GreedyAllocation(StockFor(inventory, model), qty, items)
    ensures var lines := StockFor(inventory, model);
      var u := RestockUpdates(inventory, items);
      && |u| == |items|
      && (forall k :: 0 <= k < |u| ==>
            u[k].productId == lines[k].id && u[k].quantity == lines[k].quantity - items[k].quantity)
      && Sum(u, UpdateQuantity) + TotalAvailable(lines[|items|..]) == TotalAvailable(lines) - SumItems(items)
  {
    var lines := StockFor(inventory, model);
    assert forall k :: 0 <= k < |lines| ==> lines[k] in inventory && lines[k].quantity >= 0;
    GreedyDeductionsBounded(lines, qty, items);
    RestockMatchesLines(inventory, lines, items);
    SplitStock(lines, |items|);
  }

  /** The stock of some lines is that of a prefix plus that of the rest. */
  lemma SplitStock(lines: seq<StockLine>, n: nat)
    requires n <= |lines|
    ensures TotalAvailable(lines) == TotalAvailable(lines[..n]) + TotalAvailable(lines[n..])
  {
    assert lines == lines[..n] + lines[n..];
    SumConcat(lines[..n], lines[n..], LineQuantity);
  }

  /** Over lines of non-negative quantity, every greedy deduction lies between 0 and
      its line's quantity and names its line's id. */
  lemma GreedyDeductionsBounded(lines: seq<StockLine>, qty: int, items: seq<SaleItem>)
    requires forall k :: 0 <= k < |lines| ==> lines[k].quantity >= 0
    requires GreedyAllocation(lines, qty, items)
    ensures forall k :: 0 <= k < |items| ==>
      items[k].productId == lines[k].id && 0 <= items[k].quantity <= lines[k].quantity
  {
    forall k | 0 <= k < |items|
      ensures items[k].productId == lines[k].id && 0 <= items[k].quantity <= lines[k].quantity
    {
      var remaining := qty - SumItems(items[..k]);
      assert remaining > 0 && items[k] == ItemFor(lines[k], Min(lines[k].quantity, remaining));
    }
  }
}
