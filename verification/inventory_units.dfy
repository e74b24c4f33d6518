/** The shape of a unit record as the inventory endpoint returns it to the list,
    import/export and dashboard pages: a model with nested serial/SIM entries. */
module InventoryUnits {
  import opened Wrappers

  /** One physical unit: a serial number paired with a SIM number and a status
      ("available", "sold", "reserved", ...). A missing text field is "". */
  datatype SerialSim = SerialSim(id: int, serialNumber: string, simNumber: string, status: string)

  /** A product record. `serialSims` and `dateAdded` are `None` when the field is
      missing from the response; `createdAt` is the creation time as a number. */
  datatype InventoryItem = InventoryItem(
    id: int, model: string, serialSims: Option<seq<SerialSim>>,
    dateAdded: Option<string>, createdAt: int)

  /** `item.serialSims || []` */
  function Sims(item: InventoryItem): seq<SerialSim> {
    item.serialSims.GetOr([])
  }

  /** Every serial entry of the inventory, product by product. */
  function AllSims(inventory: seq<InventoryItem>): (r: seq<SerialSim>)
    ensures |inventory| == 0 ==> r == []
  {
    if |inventory| == 0 then [] else Sims(inventory[0]) + AllSims(inventory[1..])
  }

  /** `item.serialSims?.length || 0` */
  function UnitCount(item: InventoryItem): int {
    |Sims(item)|
  }
}
