/** The bundled demo data of the inventory app and its three storage-backed
    collections: inventory, dealers and sales. */
module MockData {
  import opened Wrappers
  import opened Storage

  const InventoryKey: string := "jendie_inventory"
  const DealersKey: string := "jendie_dealers"
  const SalesKey: string := "jendie_sales"

  function CollectionKeys(): set<string> {
    {InventoryKey, DealersKey, SalesKey}
  }

  function Str(key: string, value: string): (string, Json) { (key, JStr(value)) }
  function Num(key: string, value: int): (string, Json) { (key, JNum(value)) }
  function Null(key: string): (string, Json) { (key, JNull) }

  const MockDealers: Json := JArr([
    JObj([Str("id", "1"), Str("name", "Nairobi Motors"), Str("contact", "+254 712 345 678"),
          Str("location", "Nairobi"), Num("defaultPrice", 35000), Str("createdAt", "2024-01-15")]),
    JObj([Str("id", "2"), Str("name", "Mombasa Auto Parts"), Str("contact", "+254 723 456 789"),
          Str("location", "Mombasa"), Num("defaultPrice", 33000), Str("createdAt", "2024-02-10")]),
    JObj([Str("id", "3"), Str("name", "Kisumu Speed Solutions"), Str("contact", "+254 734 567 890"),
          Str("location", "Kisumu"), Num("defaultPrice", 32000), Str("createdAt", "2024-03-05")])
  ])

  const MockInventory: Json := JArr([
    JObj([Str("id", "1"), Str("serialNumber", "JSG-2024-001"), Str("simCardNumber", "254700123456"),
          Str("model", "JSG-Pro-X"), Str("status", "available"), Null("dealerId"), Null("clientName"),
          Num("sellingPrice", 35000), Str("dateAdded", "2024-10-01")]),
    JObj([Str("id", "2"), Str("serialNumber", "JSG-2024-002"), Str("simCardNumber", "254700123457"),
          Str("model", "JSG-Pro-X"), Str("status", "sold"), Str("dealerId", "1"),
          Str("clientName", "Direct Client - John Doe"), Num("sellingPrice", 36000),
          Str("dateAdded", "2024-10-02"), Str("dateSold", "2024-10-15")]),
    JObj([Str("id", "3"), Str("serialNumber", "JSG-2024-003"), Str("simCardNumber", "254700123458"),
          Str("model", "JSG-Standard"), Str("status", "available"), Str("dealerId", "2"), Null("clientName"),
          Num("sellingPrice", 30000), Str("dateAdded", "2024-10-05")]),
    JObj([Str("id", "4"), Str("serialNumber", "JSG-2024-004"), Str("simCardNumber", "254700123459"),
          Str("model", "JSG-Pro-X"), Str("status", "sold"), Null("dealerId"), Str("clientName", "Jane Smith"),
          Num("sellingPrice", 35000), Str("dateAdded", "2024-10-08"), Str("dateSold", "2024-10-18")]),
    JObj([Str("id", "5"), Str("serialNumber", "JSG-2024-005"), Str("simCardNumber", "254700123460"),
          Str("model", "JSG-Standard"), Str("status", "available"), Null("dealerId"), Null("clientName"),
          Num("sellingPrice", 32000), Str("dateAdded", "2024-10-10")])
  ])

  const MockSales: Json := JArr([
    JObj([Str("id", "1"), Str("serialNumber", "JSG-2024-002"), Str("simCardNumber", "254700123457"),
          Str("model", "JSG-Pro-X"), Str("dealerName", "Nairobi Motors"),
          Str("clientName", "Direct Client - John Doe"), Num("sellingPrice", 36000),
          Str("dateSold", "2024-10-15"), Str("soldBy", "Admin User")]),
    JObj([Str("id", "2"), Str("serialNumber", "JSG-2024-004"), Str("simCardNumber", "254700123459"),
          Str("model", "JSG-Pro-X"), Null("dealerName"), Str("clientName", "Jane Smith"),
          Num("sellingPrice", 35000), Str("dateSold", "2024-10-18"), Str("soldBy", "Admin User")])
  ])

  /** One `if (!getItem(key)) setItem(key, stringify(value))` step. */
  function Seed(store: Store, key: string, value: Json): (r: Store)
    ensures Has(r, key)
    ensures Has(store, key) ==> r == store
    ensures !Has(store, key) ==> r == store[key := Encoded(value)]
  {
    if Has(store, key) then store else store[key := Encoded(value)]
  }

  /** `initializeMockData`: each collection key that is missing (or empty) receives the
      bundled data; nothing already there is replaced and no other key is touched. */
  function InitializeMockData(store: Store): (r: Store)
    ensures forall k :: Has(store, k) ==> k in r && r[k] == store[k]
    ensures AgreeOutside(r, store, CollectionKeys())
    ensures Has(r, InventoryKey) && Has(r, DealersKey) && Has(r, SalesKey)
    ensures !Has(store, InventoryKey) ==> r[InventoryKey] == Encoded(MockInventory)
    ensures !Has(store, DealersKey) ==> r[DealersKey] == Encoded(MockDealers)
    ensures !Has(store, SalesKey) ==> r[SalesKey] == Encoded(MockSales)
  {
    Seed(Seed(Seed(store, InventoryKey, MockInventory), DealersKey, MockDealers), SalesKey, MockSales)
  }

  /** Initialising twice is the same as initialising once. */
  lemma InitializeIsIdempotent(store: Store)
    ensures InitializeMockData(InitializeMockData(store)) == InitializeMockData(store)
  {
  }

  /** The shared shape of `getMockInventory`, `getMockDealers` and `getMockSales`: the
      stored value when the key holds one, otherwise the bundled default. */
  function GetCollection(store: Store, key: string, default: Json): (r: Option<Json>)
    ensures !Has(store, key) ==> r == Some(default)
    ensures Has(store, key) && store[key].Encoded? ==> r == Some(store[key].value)
  {
    if Has(store, key) then Parse(store[key]) else Some(default)
  }

  function GetMockInventory(store: Store): Option<Json> { GetCollection(store, InventoryKey, MockInventory) }
  function GetMockDealers(store: Store): Option<Json> { GetCollection(store, DealersKey, MockDealers) }
  function GetMockSales(store: Store): Option<Json> { GetCollection(store, SalesKey, MockSales) }

  function SetMockInventory(store: Store, items: seq<Json>): Store { store[InventoryKey := Encoded(JArr(items))] }
  function SetMockDealers(store: Store, items: seq<Json>): Store { store[DealersKey := Encoded(JArr(items))] }
  function SetMockSales(store: Store, items: seq<Json>): Store { store[SalesKey := Encoded(JArr(items))] }

  /** Each getter reads back what its setter wrote, and each setter leaves the other two
      collections (and every other key) as they were. */
  lemma SetThenGet(store: Store, items: seq<Json>)
    ensures GetMockInventory(SetMockInventory(store, items)) == Some(JArr(items))
    ensures GetMockDealers(SetMockInventory(store, items)) == GetMockDealers(store)
    ensures GetMockSales(SetMockInventory(store, items)) == GetMockSales(store)
    ensures GetMockDealers(SetMockDealers(store, items)) == Some(JArr(items))
    ensures GetMockInventory(SetMockDealers(store, items)) == GetMockInventory(store)
    ensures GetMockSales(SetMockDealers(store, items)) == GetMockSales(store)
    ensures GetMockSales(SetMockSales(store, items)) == Some(JArr(items))
    ensures GetMockInventory(SetMockSales(store, items)) == GetMockInventory(store)
    ensures GetMockDealers(SetMockSales(store, items)) == GetMockDealers(store)
    ensures AgreeOutside(SetMockInventory(store, items), store, {InventoryKey})
    ensures AgreeOutside(SetMockDealers(store, items), store, {DealersKey})
    ensures AgreeOutside(SetMockSales(store, items), store, {SalesKey})
  {
  }

  /** Right after initialisation every getter yields a value: the one stored before, or
      the bundled default. */
  lemma GetAfterInitialize(store: Store)
    ensures !Has(store, InventoryKey) ==> GetMockInventory(InitializeMockData(store)) == Some(MockInventory)
    ensures !Has(store, DealersKey) ==> GetMockDealers(InitializeMockData(store)) == Some(MockDealers)
    ensures !Has(store, SalesKey) ==> GetMockSales(InitializeMockData(store)) == Some(MockSales)
    ensures Has(store, InventoryKey) ==> GetMockInventory(InitializeMockData(store)) == GetMockInventory(store)
    ensures Has(store, DealersKey) ==> GetMockDealers(InitializeMockData(store)) == GetMockDealers(store)
    ensures Has(store, SalesKey) ==> GetMockSales(InitializeMockData(store)) == GetMockSales(store)
  {
  }
}
