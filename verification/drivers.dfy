/** The drivers page: one driver record per bus that has a driver, de-duplicated by
    name (the first record of each name stays), then filtered by the search box. */
module Drivers {
  import opened Wrappers
  import opened Seqs
  import opened Text
  import opened TransportData

  /** A derived driver row: `phone` is `None` when a driver object carries no phone. */
  datatype DriverRow = DriverRow(id: int, name: string, phone: Option<string>, busId: int,
                                 busName: string, plateNumber: string)

  /** `bus.driver` is truthy: any object, or a non-empty name. */
  predicate HasDriver(bus: Bus) {
    match bus.driver
    case NoDriver => false
    case DriverName(n) => n != ""
    case DriverObject(_, _) => true
  }

  /** The record the page builds from a bus with a driver. */
  function DriverOf(bus: Bus): (d: DriverRow)
    ensures d.busId == bus.id && d.busName == bus.name && d.plateNumber == bus.plateNumber
    ensures bus.driverId.Some? && bus.driverId.value != 0 ==> d.id == bus.driverId.value
    ensures bus.driverId.None? || bus.driverId.value == 0 ==> d.id == bus.id
    ensures bus.driver.DriverName? ==> d.name == bus.driver.name && d.phone == Some(NotAvailable)
    ensures bus.driver.DriverObject? ==> d.name == bus.driver.objectName && d.phone == bus.driver.phone
  {
    var id := if bus.driverId.Some? && bus.driverId.value != 0 then bus.driverId.value else bus.id;
    match bus.driver
    case DriverObject(n, phone) => DriverRow(id, n, phone, bus.id, bus.name, bus.plateNumber)
    case DriverName(n) => DriverRow(id, n, Some(NotAvailable), bus.id, bus.name, bus.plateNumber)
    case NoDriver => DriverRow(id, "", Some(NotAvailable), bus.id, bus.name, bus.plateNumber)
  }

  /** Before de-duplication: one record per bus with a driver, in bus order. */
  function DriverRecords(buses: seq<Bus>): (r: seq<DriverRow>)
    ensures |r| == Count(buses, HasDriver)
    ensures forall i :: 0 <= i < |r| ==> exists b :: b in buses && HasDriver(b) && r[i] == DriverOf(b)
    ensures forall k :: 0 <= k < |buses| && HasDriver(buses[k]) ==>
              Count(buses[..k], HasDriver) < |r| && r[Count(buses[..k], HasDriver)] == DriverOf(buses[k])
  {
    var withDriver := Filter(buses, HasDriver);
    var r := Map(withDriver, DriverOf);
    RecordsFromBuses(buses, withDriver, r);
    RecordsInBusOrder(buses, withDriver, r);
    r
  }

  lemma RecordsFromBuses(buses: seq<Bus>, withDriver: seq<Bus>, r: seq<DriverRow>)
    requires withDriver == Filter(buses, HasDriver) && r == Map(withDriver, DriverOf)
    ensures forall i :: 0 <= i < |r| ==> exists b :: b in buses && HasDriver(b) && r[i] == DriverOf(b)
  {
    forall i | 0 <= i < |r|
      ensures exists b :: b in buses && HasDriver(b) && r[i] == DriverOf(b)
    {
      assert withDriver[i] in buses && HasDriver(withDriver[i]) && r[i] == DriverOf(withDriver[i]);
    }
  }

  lemma RecordsInBusOrder(buses: seq<Bus>, withDriver: seq<Bus>, r: seq<DriverRow>)
    requires withDriver == Filter(buses, HasDriver) && r == Map(withDriver, DriverOf)
    ensures forall k :: 0 <= k < |buses| && HasDriver(buses[k]) ==>
              Count(buses[..k], HasDriver) < |r| && r[Count(buses[..k], HasDriver)] == DriverOf(buses[k])
  {
    forall k | 0 <= k < |buses| && HasDriver(buses[k])
      ensures Count(buses[..k], HasDriver) < |r| && r[Count(buses[..k], HasDriver)] == DriverOf(buses[k])
    {
      FilterAt(buses, HasDriver, k);
    }
  }

  /** `self.findIndex(d => d.name === name)`. */
  function FirstWithName(rows: seq<DriverRow>, name: string): (k: int)
    ensures -1 <= k < |rows|
    ensures 0 <= k ==> rows[k].name == name
    ensures forall j :: 0 <= j < |rows| && rows[j].name == name ==> 0 <= k <= j
  {
    if |rows| == 0 then -1
    else if rows[0].name == name then 0
    else
      var k := FirstWithName(rows[1..], name);
      if k == -1 then -1 else k + 1
  }

  /** Whether the record at `i` is the first of its name. */
  predicate KeptAt(rows: seq<DriverRow>, i: int)
    requires 0 <= i < |rows|
  {
    FirstWithName(rows, rows[i].name) == i
  }

  function NamesOf(rows: seq<DriverRow>): (r: seq<string>)
    ensures |r| == |rows|
    ensures forall i :: 0 <= i < |rows| ==> r[i] == rows[i].name
  {
    Map(rows, (d: DriverRow) => d.name)
  }

  /** The index filter `index === self.findIndex(...)` run over `rows[i..]`. */
  function DedupFrom(rows: seq<DriverRow>, i: nat): (r: seq<DriverRow>)
    requires i <= |rows|
    ensures |r| <= |rows| - i
    decreases |rows| - i
  {
    if i == |rows| then []
    else if KeptAt(rows, i) then [rows[i]] + DedupFrom(rows, i + 1)
    else DedupFrom(rows, i + 1)
  }

  /** `d` is the first record of its name in `rows`, and that record lies at or after `lo`. */
  predicate IsFirstOfName(rows: seq<DriverRow>, d: DriverRow, lo: int) {
    var k := FirstWithName(rows, d.name);
    0 <= lo <= k && rows[k] == d
  }

  /** Every record kept is the first record of its name, at or after `i`. */
  lemma {:induction false} DedupKeepsFirsts(rows: seq<DriverRow>, i: nat)
    requires i <= |rows|
    ensures forall a :: 0 <= a < |DedupFrom(rows, i)| ==> IsFirstOfName(rows, DedupFrom(rows, i)[a], i)
    decreases |rows| - i
  {
    if i < |rows| {
      DedupKeepsFirsts(rows, i + 1);
      var rest := DedupFrom(rows, i + 1);
      if KeptAt(rows, i) {
        var r := [rows[i]] + rest;
        assert DedupFrom(rows, i) == r;
        forall a | 0 <= a < |r|
          ensures IsFirstOfName(rows, r[a], i)
        {
          if a > 0 {
            assert r[a] == rest[a - 1];
            assert IsFirstOfName(rows, rest[a - 1], i + 1);
          }
        }
      } else {
        assert DedupFrom(rows, i) == rest;
        forall a | 0 <= a < |rest|
          ensures IsFirstOfName(rows, rest[a], i)
        {
          assert IsFirstOfName(rows, rest[a], i + 1);
        }
      }
    }
  }

  /** No name is kept twice. */
  lemma {:induction false} DedupDistinct(rows: seq<DriverRow>, i: nat)
    requires i <= |rows|
    ensures forall a, b :: 0 <= a < b < |DedupFrom(rows, i)| ==>
              DedupFrom(rows, i)[a].name != DedupFrom(rows, i)[b].name
    decreases |rows| - i
  {
    if i < |rows| {
      DedupDistinct(rows, i + 1);
      DedupKeepsFirsts(rows, i + 1);
      var rest := DedupFrom(rows, i + 1);
      if KeptAt(rows, i) {
        assert DedupFrom(rows, i) == [rows[i]] + rest;
        forall a | 0 <= a < |rest|
          ensures rest[a].name != rows[i].name
        {
          assert IsFirstOfName(rows, rest[a], i + 1);
        }
        var r := [rows[i]] + rest;
        forall a, b | 0 <= a < b < |r|
          ensures r[a].name != r[b].name
        {
          assert r[b] == rest[b - 1];
          if a > 0 {
            assert r[a] == rest[a - 1];
          }
        }
      } else {
        assert DedupFrom(rows, i) == rest;
      }
    }
  }

  /** Every name whose first record lies at or after `i` is kept. */
  lemma {:induction false} DedupCovers(rows: seq<DriverRow>, i: nat)
    requires i <= |rows|
    ensures forall j :: i <= j < |rows| && i <= FirstWithName(rows, rows[j].name) ==>
              rows[j].name in NamesOf(DedupFrom(rows, i))
    decreases |rows| - i
  {
    if i < |rows| {
      DedupCovers(rows, i + 1);
      var rest := DedupFrom(rows, i + 1);
      if KeptAt(rows, i) {
        assert NamesOf([rows[i]] + rest) == [rows[i].name] + NamesOf(rest);
      }
    }
  }

  /** The kept records keep their order. */
  lemma {:induction false} DedupInOrder(rows: seq<DriverRow>, i: nat)
    requires i <= |rows|
    ensures IsSubsequence(DedupFrom(rows, i), rows[i..])
    decreases |rows| - i
  {
    if i < |rows| {
      DedupInOrder(rows, i + 1);
      assert rows[i..][1..] == rows[i + 1..];
      if !KeptAt(rows, i) {
        SubsequenceOfTail(DedupFrom(rows, i + 1), rows[i..]);
      }
    }
  }

  /** The page's `drivers`. */
  function Drivers(buses: seq<Bus>): (r: seq<DriverRow>)
    ensures forall a, b :: 0 <= a < b < |r| ==> r[a].name != r[b].name
    ensures IsSubsequence(r, DriverRecords(buses))
  {
    var all := DriverRecords(buses);
    DedupDistinct(all, 0);
    DedupInOrder(all, 0);
    assert all[0..] == all;
    DedupFrom(all, 0)
  }

  /** Driver names on the page are pairwise distinct, each record is the first one of
      its name, and the records keep bus order. */
  lemma DriversAreDistinct(buses: seq<Bus>)
    ensures var ds := Drivers(buses);
            forall a, b :: 0 <= a < b < |ds| ==> ds[a].name != ds[b].name
    ensures forall a :: 0 <= a < |Drivers(buses)| ==> IsFirstOfName(DriverRecords(buses), Drivers(buses)[a], 0)
    ensures IsSubsequence(Drivers(buses), DriverRecords(buses))
  {
    var all := DriverRecords(buses);
    DedupDistinct(all, 0);
    DedupKeepsFirsts(all, 0);
    DedupInOrder(all, 0);
    assert all[0..] == all;
  }

  /** Each bus with a driver has its record somewhere before de-duplication. */
  lemma RecordOfBus(buses: seq<Bus>, b: Bus) returns (k: nat)
    requires b in buses && HasDriver(b)
    ensures k < |DriverRecords(buses)| && DriverRecords(buses)[k] == DriverOf(b)
  {
    var withDriver := Filter(buses, HasDriver);
    var i :| 0 <= i < |buses| && buses[i] == b;
    assert buses[i] in withDriver;
    k :| 0 <= k < |withDriver| && withDriver[k] == b;
    assert DriverRecords(buses) == Map(withDriver, DriverOf);
  }

  /** Every bus driver's name appears on the page. */
  lemma DriversCoverEveryBus(buses: seq<Bus>)
    ensures forall b :: b in buses && HasDriver(b) ==> DriverOf(b).name in NamesOf(Drivers(buses))
  {
    var all := DriverRecords(buses);
    DedupCovers(all, 0);
    forall b | b in buses && HasDriver(b)
      ensures DriverOf(b).name in NamesOf(Drivers(buses))
    {
      var k := RecordOfBus(buses, b);
      assert 0 <= FirstWithName(all, all[k].name);
    }
  }

  /** `filteredDrivers` */
  function FilterDrivers(drivers: seq<DriverRow>, term: string): (r: seq<DriverRow>)
    ensures forall i :: 0 <= i < |r| ==> r[i] in drivers && ContainsIgnoringCase(r[i].name, term)
    ensures forall i :: 0 <= i < |drivers| && ContainsIgnoringCase(drivers[i].name, term) ==> drivers[i] in r
    ensures IsSubsequence(r, drivers)
    ensures term == "" ==> r == drivers
  {
    SearchBy(drivers, (d: DriverRow) => d.name, term)
  }
}
