# Jendie inventory and SchoolTrack transport: a Dafny model of the page logic

This project models the logic inside two React front ends:

- **Jendie inventory keeper.** It records stock of tracking units (each product is a model carrying serial/SIM pairs), sells units to dealers or directly, imports and exports units as CSV, shows a dashboard, and keeps a mock login and demo data in browser storage.
- **SchoolTrack transport hub.** It lists buses, drivers, parents and assistants, shows the assistant's and the parent's portals, and shows a transport dashboard and a live-vehicle tracking map. It has two login pages: a server-backed one and a demo one.

Both apps are mostly pages that call REST endpoints. The derivations inside the pages are pure sequence work, and that is what is modelled here:

- filters, counts, sums and joins;
- greedy stock allocation;
- pagination;
- CSV grouping and flattening;
- the recent-activity merge;
- de-duplication by name;
- small login and storage state machines.

Network replies arrive as already-decoded values (`Response`, `LoginReply`, `UnitsField`, …). Browser storage is a `map<string, Entry>`. Days, timestamps, quantities and prices are integers supplied by the caller. Coordinates are reals.

Modules follow the source files:

- Shared helpers:
  - `Wrappers`: `Option` and `Result`.
  - `Text`: ASCII case mapping, `includes`, `startsWith`.
  - `Seqs`: `filter`, `find`, `findIndex`, `reduce`, `slice` over sequences, with their laws.
  - `Storage`: JSON values and the key/value store.
- Inventory app:
  - `SalesNew`: new-sale page.
  - `InventoryUnits` and `InventoryList`: inventory list.
  - `InventoryImport`: add-unit page, with CSV upload and download.
  - `InventoryDashboard`: dashboard.
  - `MockData`: demo data.
  - `InventoryAuth`: auth context and layout.
- Transport app:
  - `TransportData`: shared records and the name search.
  - One module per page: `Drivers`, `Parents`, `Assistants`, `Buses`, `AssistantPortal`, `TransportDashboard`, `ParentPortal`, `Tracking`.
  - `TransportLogin`: the server-backed login page.
  - `DemoLogin`: the demo login page.

JavaScript truthiness is written out wherever the code relies on it:

- `""`, `0`, `null` and a missing value are falsy;
- arrays and objects are truthy.

Case-insensitive matching lower-cases ASCII letters only.

## Model

| member | source | states |
|---|---|---|
| SalesNew.StockFor | inventoryfront/jendie-keeper-main/src/pages/SalesNew.tsx:82-93 | With no model chosen there are no lines. Otherwise the lines are exactly the inventory lines of that model, in inventory order, one per such line. |
| SalesNew.AvailableIsModelStock | inventoryfront/jendie-keeper-main/src/pages/SalesNew.tsx:107-110 | The available stock is the sum of the chosen model's line quantities over the whole inventory. |
| SalesNew.RecomputeTotals | inventoryfront/jendie-keeper-main/src/pages/SalesNew.tsx:96-105 | The total becomes quantity × price and the balance becomes total − paid, only when quantity and price are both positive. Otherwise nothing changes. |
| SalesNew.RecomputeIsStable | inventoryfront/jendie-keeper-main/src/pages/SalesNew.tsx:96-105 | Re-running the total/balance effect on its own output changes nothing. |
| SalesNew.ChangeSaleType | inventoryfront/jendie-keeper-main/src/pages/SalesNew.tsx:130-138 | Choosing "dealer" clears the buyer name and contact. Any other type clears the dealer. Nothing else changes. |
| SalesNew.Guard | inventoryfront/jendie-keeper-main/src/pages/SalesNew.tsx:143-169 | Three rejections, checked in order: missing model or no stock; quantity above the available stock; a direct sale priced under 9500. Each holds exactly in its case. |
| SalesNew.Allocate | inventoryfront/jendie-keeper-main/src/pages/SalesNew.tsx:175-189 | The greedy walk. Each line in order gives min(its quantity, what remains), and the walk stops once nothing remains. No deduction exceeds its line. The deductions sum to the quantity when 0 ≤ qty ≤ stock. A non-positive quantity gives no items. |
| SalesNew.GreedyDeductionsBounded | inventoryfront/jendie-keeper-main/src/pages/SalesNew.tsx:178-189 | On non-negative stock, each greedy item names its line's product and takes between 0 and that line's quantity. |
| SalesNew.Submit | inventoryfront/jendie-keeper-main/src/pages/SalesNew.tsx:140-198 | The sale is rejected exactly when a guard fires, with that guard's error. Otherwise the payload has userId 2, dealerId 0 and the direct flag for direct sales, or the dealer id twice otherwise. Its items are the greedy allocation, summing to the quantity. |
| SalesNew.RestockUpdates | inventoryfront/jendie-keeper-main/src/pages/SalesNew.tsx:213-221 | One write-back per item whose product exists, in item order. Every new quantity is at least 0. Items with unknown products are skipped. |
| SalesNew.WriteBack | inventoryfront/jendie-keeper-main/src/pages/SalesNew.tsx:214-219 | An item gets a write-back exactly when some line has its product id. The new quantity is max(0, old − deducted). |
| SalesNew.WriteBackOfOwnLine | inventoryfront/jendie-keeper-main/src/pages/SalesNew.tsx:214-219 | With unique ids, an item deducting at most its line's quantity writes back exactly old − deducted for that line. |
| SalesNew.RestockMatchesLines | inventoryfront/jendie-keeper-main/src/pages/SalesNew.tsx:213-221 | The write-backs pair up with the allocated lines. They total the lines' stock minus the units sold. |
| SalesNew.StockAfterSale | inventoryfront/jendie-keeper-main/src/pages/SalesNew.tsx:213-221 | After a greedy sale, the written-back stock plus the untouched lines equals the model's stock minus the units sold. |
| InventoryList.FilteredData | inventoryfront/jendie-keeper-main/src/pages/Inventory.tsx:74-86 | A product is listed exactly when it passes the text filter and the status filter. The list keeps inventory order and has one entry per such product. |
| InventoryList.NoFilterShowsAll | inventoryfront/jendie-keeper-main/src/pages/Inventory.tsx:77-83 | An empty search with status "all" lists every product. |
| InventoryList.ShowTotalPages | inventoryfront/jendie-keeper-main/src/pages/Inventory.tsx:215 | The page count is ceil(n/10): the smallest count whose pages hold all n products. |
| InventoryList.TotalPages | inventoryfront/jendie-keeper-main/src/pages/Inventory.tsx:88 | The page count is at least 1, and equals ceil(n/10) whenever the list is not empty. |
| InventoryList.Paginate | inventoryfront/jendie-keeper-main/src/pages/Inventory.tsx:89-92 | Page p holds entries (p−1)·10 onwards, at most 10 of them. It is empty past the last page, and full unless it is the last page. |
| InventoryList.PagesCoverList | inventoryfront/jendie-keeper-main/src/pages/Inventory.tsx:88-92 | The pages 1…ceil(n/10), laid end to end, give back the filtered list exactly. |
| InventoryList.Previous | inventoryfront/jendie-keeper-main/src/pages/Inventory.tsx:374 | Previous moves back one page but never below 1. |
| InventoryList.Next | inventoryfront/jendie-keeper-main/src/pages/Inventory.tsx:384 | Next moves forward one page but never past the page count. |
| InventoryList.PagerKeepsPageInRange | inventoryfront/jendie-keeper-main/src/pages/Inventory.tsx:372-386 | Starting on a page within 1…ceil(n/10), Previous and Next keep it there. |
| InventoryList.PagerPastTheEnd | inventoryfront/jendie-keeper-main/src/pages/Inventory.tsx:372-386 | The page is not reset when the filter narrows. From a page past the last one, Next returns to the last page and Previous steps back by one. |
| InventoryList.DeleteUnit | inventoryfront/jendie-keeper-main/src/pages/Inventory.tsx:164-174 | Sold and reserved units are refused before any confirmation. Other units are deleted exactly when confirmed. |
| InventoryList.StatusBadge | inventoryfront/jendie-keeper-main/src/pages/Inventory.tsx:60-69 | Sold and reserved have their own styles; every other status gets the "available" style. The label is the status with its first character upper-cased. |
| InventoryImport.ManualPayload | inventoryfront/jendie-keeper-main/src/pages/InventoryNew.tsx:55-71 | An empty serial or SIM number is rejected with the required-fields message. Otherwise the request carries the model, the date and exactly one pair. |
| InventoryImport.ManualMatchesOneRowUpload | inventoryfront/jendie-keeper-main/src/pages/InventoryNew.tsx:55-102 | A manual add sends the same request as uploading a CSV file holding that one row. |
| InventoryImport.GroupRows | inventoryfront/jendie-keeper-main/src/pages/InventoryNew.tsx:95-103 | The upload's grouping sends at most one request per complete row. GroupRowsMeaning states what each request holds. |
| InventoryImport.GroupRowsMeaning | inventoryfront/jendie-keeper-main/src/pages/InventoryNew.tsx:95-103 | The upload makes one request per distinct model among the complete rows. Each request holds its model's pairs in file order and is dated by that model's first complete row (today if that row has no date). |
| InventoryImport.GroupRowsKeepsEveryRow | inventoryfront/jendie-keeper-main/src/pages/InventoryNew.tsx:96-102 | The requests hold, in all, as many pairs as there are complete rows. |
| InventoryImport.PostInOrder | inventoryfront/jendie-keeper-main/src/pages/InventoryNew.tsx:105-113 | Requests are posted one by one, stopping after the first rejection. Success means every request was accepted. |
| InventoryImport.DatePart | inventoryfront/jendie-keeper-main/src/pages/InventoryNew.tsx:130 | The result is the prefix of the date before its first 'T', or the whole date when it has none. |
| InventoryImport.ExportRows | inventoryfront/jendie-keeper-main/src/pages/InventoryNew.tsx:124-134 | The export fails exactly when some product lacks its serial list, or has serial entries but no date. The date is read only inside the per-entry loop, so a product with an empty serial list never needs one. Otherwise there is one row per serial entry, and the rows total the units across products. |
| InventoryImport.ExportCsv | inventoryfront/jendie-keeper-main/src/pages/InventoryNew.tsx:119-134 | A reply without a product list fails the download. |
| InventoryImport.ProductWithoutUnitsExportsNothing | inventoryfront/jendie-keeper-main/src/pages/InventoryNew.tsx:124-134 | Appending a product with an empty serial list changes neither the export's rows nor whether it fails, whatever its date. |
| InventoryImport.ExportRowAt | inventoryfront/jendie-keeper-main/src/pages/InventoryNew.tsx:124-134 | Entry j of product i is exported at row (units before i) + j. It carries the product's model, the date before 'T' and the entry's numbers and status. |
| InventoryImport.ImportAfterExport | inventoryfront/jendie-keeper-main/src/pages/InventoryNew.tsx:95-134 | Exporting products with distinct models and complete entries, then uploading the file, recreates one request per product, with its model, its pairs in order, and its date part. |
| InventoryDashboard.ComputeStats | inventoryfront/jendie-keeper-main/src/pages/Dashboard.tsx:34-57 | The stat cards. Total units is the number of serial entries across all products, a missing list counting none. Available and sold units are the entries whose status is exactly "available" or "sold". Together they never exceed the total. Revenue is the sum over the priced sales. |
| InventoryDashboard.UnitsAreAllSims | inventoryfront/jendie-keeper-main/src/pages/Dashboard.tsx:33-36 | Summing each product's list length (0 for a missing list) over the products counts every serial entry of the inventory once. |
| InventoryDashboard.StatusSumIsStatusCount | inventoryfront/jendie-keeper-main/src/pages/Dashboard.tsx:38-48 | Summing the per-product status counts gives the count of entries with that status over the whole inventory. |
| InventoryDashboard.AvailableAndSoldWithinTotal | inventoryfront/jendie-keeper-main/src/pages/Dashboard.tsx:34-49 | No unit is both available and sold, so the two sums never exceed the sum of the units. |
| InventoryDashboard.RevenueCountsPricedSales | inventoryfront/jendie-keeper-main/src/pages/Dashboard.tsx:54-57 | Revenue equals the sum over the sales that carry a price; an unpriced sale adds 0. |
| InventoryDashboard.Insert | inventoryfront/jendie-keeper-main/src/pages/Dashboard.tsx:78-81 | Inserting into a newest-first list keeps it newest-first and adds exactly the one entry. |
| InventoryDashboard.SortNewestFirst | inventoryfront/jendie-keeper-main/src/pages/Dashboard.tsx:78-81 | The sort yields a newest-first permutation of its input. |
| InventoryDashboard.SortIsStable | inventoryfront/jendie-keeper-main/src/pages/Dashboard.tsx:78-81 | The sort is stable: for every date, the entries of that date keep their input order. So ties decide which candidates make the five-entry feed as `Array.prototype.sort` would. |
| InventoryDashboard.RecentActivity | inventoryfront/jendie-keeper-main/src/pages/Dashboard.tsx:62-82 | The feed holds min(5, candidates) entries, newest first, all drawn from the last three products and last three sales. |
| InventoryDashboard.FeedKeepsNewest | inventoryfront/jendie-keeper-main/src/pages/Dashboard.tsx:78-82 | A candidate is left out only when the feed is full, and it is no newer than anything shown. |
| InventoryDashboard.FeedPerSourceBound | inventoryfront/jendie-keeper-main/src/pages/Dashboard.tsx:62-76 | At most three product entries and three sale entries are candidates, products first. |
| InventoryDashboard.LoadDashboard | inventoryfront/jendie-keeper-main/src/pages/Dashboard.tsx:28-82 | The loader with `totalPrice \|\| 0` used in the feed message as well. It succeeds exactly when both replies arrive and the sales body is a list. Failures carry the server's message or the fixed one. On success the stats and the feed are computed from the replies. |
| InventoryDashboard.LoadDashboardAsWritten | inventoryfront/jendie-keeper-main/src/pages/Dashboard.tsx:70-76 | As written, loading also fails whenever any sale lacks a price. |
| InventoryDashboard.LoadersAgreeOnPricedSales | inventoryfront/jendie-keeper-main/src/pages/Dashboard.tsx:70-76 | When every sale is priced, the written and corrected loaders agree. |
| InventoryDashboard.UnpricedSaleBreaksDashboard | inventoryfront/jendie-keeper-main/src/pages/Dashboard.tsx:73 | One unpriced sale makes the written loader fail, although its revenue contribution is 0. |
| MockData.Seed | inventoryfront/jendie-keeper-main/src/lib/mockData.ts:142-144 | A key already holding a value is left alone; a missing one receives the value. |
| MockData.InitializeMockData | inventoryfront/jendie-keeper-main/src/lib/mockData.ts:141-151 | Existing values are never overwritten and no other key is touched. All three collections are present afterwards, with the bundled data where they were missing. |
| MockData.InitializeIsIdempotent | inventoryfront/jendie-keeper-main/src/lib/mockData.ts:141-151 | Initialising twice gives the same store as initialising once. |
| MockData.GetCollection | inventoryfront/jendie-keeper-main/src/lib/mockData.ts:153-156 | A getter returns the stored value when there is one, else the bundled default. |
| MockData.SetThenGet | inventoryfront/jendie-keeper-main/src/lib/mockData.ts:153-178 | Each getter reads back what its setter wrote, and each setter leaves the other collections and keys unchanged. |
| MockData.GetAfterInitialize | inventoryfront/jendie-keeper-main/src/lib/mockData.ts:141-174 | After initialisation every getter yields the earlier stored value or the bundled default. |
| InventoryAuth.PublicUserHasNoPassword | inventoryfront/jendie-keeper-main/src/contexts/AuthContext.tsx:54-56 | The stored user has no password field and keeps id, email, role and name. |
| InventoryAuth.SafeNavigate | inventoryfront/jendie-keeper-main/src/contexts/AuthContext.tsx:29-31 | The page ends on the target, and navigation happens only when the target differs from the current path. |
| InventoryAuth.Login | inventoryfront/jendie-keeper-main/src/contexts/AuthContext.tsx:43-60 | Login succeeds exactly when a bundled account matches both fields. On success that account, without its password, is stored and becomes the current user, and the page moves to /dashboard. On failure it reports invalid credentials and changes nothing. |
| InventoryAuth.LoginAcceptsExactlyTheBundledPairs | inventoryfront/jendie-keeper-main/src/lib/mockData.ts:2-17 | Login succeeds for exactly the two bundled pairs, admin@jendie.com / admin123 and dealer@jendie.com / dealer123. |
| InventoryAuth.Logout | inventoryfront/jendie-keeper-main/src/contexts/AuthContext.tsx:62-66 | The stored user is removed, the current user cleared and the page sent to /login. Every other key stays. |
| InventoryAuth.Mount | inventoryfront/jendie-keeper-main/src/contexts/AuthContext.tsx:33-41 | Mounting seeds the demo data, restores a stored user if there is one, and ends loading. |
| InventoryAuth.MountAfterLoginRestoresUser | inventoryfront/jendie-keeper-main/src/contexts/AuthContext.tsx:36-56 | Reloading after a login restores the same user. |
| InventoryAuth.MountAfterLogoutRestoresNobody | inventoryfront/jendie-keeper-main/src/contexts/AuthContext.tsx:36-66 | Reloading after a logout restores nobody. |
| InventoryAuth.FirstLetter | inventoryfront/jendie-keeper-main/src/components/Layout.tsx:25-27 | The avatar shows the upper-cased first letter of the name, else of the email, else "?". |
| InventoryAuth.Layout | inventoryfront/jendie-keeper-main/src/components/Layout.tsx:16-71 | No user redirects to /login. Otherwise the avatar is FirstLetter of the user, and a nav item is active exactly when the path starts with its path. A non-empty name is shown as is, else "User". A non-empty role is shown as is, else "staff". |
| InventoryAuth.ActiveItemExamples | inventoryfront/jendie-keeper-main/src/components/Layout.tsx:42 | On /inventory/new only Inventory is active; on /dashboard only Dashboard. |
| InventoryAuth.AtMostOneActiveItem | inventoryfront/jendie-keeper-main/src/components/Layout.tsx:18-42 | Whatever the path, at most one nav item is active, because no nav path is a prefix of another. |
| TransportData.SearchBy | school-track-hub-main/src/pages/Drivers.tsx:40-42 | The case-insensitive name search keeps exactly the matching records, in order, one entry per matching record. An empty term keeps all. |
| Drivers.DriverOf | school-track-hub-main/src/pages/Drivers.tsx:28-35 | The name and phone come from a driver object. A plain name gets phone "N/A". The id is the non-zero driverId, else the bus id. |
| Drivers.DriverRecords | school-track-hub-main/src/pages/Drivers.tsx:26-35 | There is one record per bus with a truthy driver, in bus order: the driver of bus k is record number (buses before k that have a driver). |
| Drivers.FirstWithName | school-track-hub-main/src/pages/Drivers.tsx:37 | The first index carrying the name, or −1. |
| Drivers.DedupKeepsFirsts | school-track-hub-main/src/pages/Drivers.tsx:36-38 | Every record kept is the first record of its name. |
| Drivers.DedupDistinct | school-track-hub-main/src/pages/Drivers.tsx:36-38 | No name is kept twice. |
| Drivers.DedupCovers | school-track-hub-main/src/pages/Drivers.tsx:36-38 | Every name is kept. |
| Drivers.DedupInOrder | school-track-hub-main/src/pages/Drivers.tsx:36-38 | The kept records keep their order. |
| Drivers.Drivers | school-track-hub-main/src/pages/Drivers.tsx:26-38 | The page's drivers have pairwise distinct names and keep the records' bus order. |
| Drivers.DriversAreDistinct | school-track-hub-main/src/pages/Drivers.tsx:26-38 | The page's drivers have distinct names, each is its name's first record, and they come in bus order. |
| Drivers.DriversCoverEveryBus | school-track-hub-main/src/pages/Drivers.tsx:26-38 | Every bus driver's name appears on the page. |
| Drivers.FilterDrivers | school-track-hub-main/src/pages/Drivers.tsx:40-42 | The search keeps exactly the drivers whose name contains the term, ignoring case, in order. An empty term keeps all. |
| Parents.JoinHasEach | school-track-hub-main/src/pages/Parents.tsx:37 | Every joined name occurs in the joined text. |
| Parents.JoinEmpty | school-track-hub-main/src/pages/Parents.tsx:37 | Joined non-empty names give empty text only when there are none. |
| Parents.NameFor | school-track-hub-main/src/pages/Parents.tsx:32-35 | The name of the first student with the id, or the empty name when no student has it. |
| Parents.StudentNameList | school-track-hub-main/src/pages/Parents.tsx:31-36 | One entry per id whose name is non-empty, in id order: the name of id i sits at (non-empty names before i). Repeated ids and shared names are not collapsed. |
| Parents.SharedNameShownTwice | school-track-hub-main/src/pages/Parents.tsx:31-37 | Two students both named John, linked by ids 1 and 2, show as "John, John". |
| Parents.StudentNames | school-track-hub-main/src/pages/Parents.tsx:29-37 | Missing ids give "N/A", and so do no surviving names. Otherwise the text is the names joined with ", ". |
| Parents.StudentNamesMentionEachStudent | school-track-hub-main/src/pages/Parents.tsx:29-37 | Every linked student who is found and named appears in the text. |
| Parents.UnknownIdsShowNotAvailable | school-track-hub-main/src/pages/Parents.tsx:31-37 | Ids that match no student give "N/A". |
| Parents.FilterParents | school-track-hub-main/src/pages/Parents.tsx:40-42 | The search keeps exactly the parents whose name contains the term, ignoring case, in order. |
| Assistants.GetBusName | src/pages/Assistants.tsx:29-32 | The name of the first bus with the id, or "Not Assigned" when none has it. |
| Assistants.GetBusNameIgnoresLaterBuses | src/pages/Assistants.tsx:30-31 | Once a bus with the id exists, buses added after it do not change the name. |
| Assistants.FilterAssistants | src/pages/Assistants.tsx:34-36 | The search keeps exactly the assistants whose name contains the term, ignoring case, in order. An empty term keeps all. |
| Buses.GetStudentCount | school-track-hub-main/src/pages/Buses.tsx:29-31 | The number of students riding the bus, at most the number of students. |
| Buses.StudentCountsOfTwoBuses | school-track-hub-main/src/pages/Buses.tsx:29-31 | The counts of two different buses together never exceed the number of students. |
| Buses.StudentCountAfterEnrolment | school-track-hub-main/src/pages/Buses.tsx:29-31 | A new student adds one to their own bus's count and nothing elsewhere. |
| Buses.FilterBuses | school-track-hub-main/src/pages/Buses.tsx:33-36 | A bus is kept exactly when its name or plate contains the term, ignoring case. Order is kept, one entry per matching bus. |
| Buses.EmptySearchKeepsEveryBus | school-track-hub-main/src/pages/Buses.tsx:33-36 | An empty term keeps every bus. |
| AssistantPortal.CheckCounts | school-track-hub-main/src/pages/AssistantPortal.tsx:24-25 | Checked-in and checked-out counts never add up to more than the manifests. |
| AssistantPortal.CheckCountsAfterNewManifest | school-track-hub-main/src/pages/AssistantPortal.tsx:24-25 | A new manifest adds one to the count of its own status only. |
| AssistantPortal.BadgeFor | school-track-hub-main/src/pages/AssistantPortal.tsx:103-109 | CHECKED_IN gives Checked In and CHECKED_OUT gives Checked Out. Anything else gives Pending. |
| AssistantPortal.StudentBadge | school-track-hub-main/src/pages/AssistantPortal.tsx:93-109 | A student with no manifest is Pending. |
| AssistantPortal.BadgeComesFromFirstManifest | school-track-hub-main/src/pages/AssistantPortal.tsx:93-94 | The badge is that of the student's first manifest, whatever follows it. |
| AssistantPortal.StudentRows | school-track-hub-main/src/pages/AssistantPortal.tsx:92-109 | At most the first six students are listed, each with its badge. |
| AssistantPortal.MyBus | school-track-hub-main/src/pages/AssistantPortal.tsx:76-78 | The card shows the first bus's name, plate and route. It falls back to "Not Assigned"/"N/A" when there is no bus or a field is empty. |
| TransportDashboard.Summarize | src/pages/Dashboard.tsx:27-98 | Active routes are exactly the active buses, in order, and their number is the active-bus count, the count of buses with status ACTIVE. Trips today are the number of manifests dated today, at most the manifests. Buses on route are the live locations. Recent activity is the first five manifests. |
| TransportDashboard.TripsOnTwoDays | src/pages/Dashboard.tsx:28-31 | The trip counts of two different days together never exceed the manifests. |
| TransportDashboard.NoActiveRoutes | src/pages/Dashboard.tsx:97-98 | No active routes are listed exactly when no bus is active. |
| TransportDashboard.ManifestTone | src/pages/Dashboard.tsx:82-84 | The pill is green exactly for CHECKED_IN. |
| ParentPortal.MyStudents | src/pages/ParentPortal.tsx:39-41 | The parent's students keep the students' order. |
| ParentPortal.MyStudentsIsEveryStudent | src/pages/ParentPortal.tsx:39-41 | The parent filter removes nothing, since its fallback operand is an always-truthy array. |
| ParentPortal.MyBusIds | src/pages/ParentPortal.tsx:43 | Each student's bus id, in order. |
| ParentPortal.MyBuses | src/pages/ParentPortal.tsx:44 | Exactly the buses whose id is among the bus ids, in order, one entry per such bus. |
| ParentPortal.MyBusesAreRiddenBuses | src/pages/ParentPortal.tsx:39-44 | The parent's buses are exactly the buses some student rides. |
| ParentPortal.StudentCard | src/pages/ParentPortal.tsx:72-86 | The first bus with the student's bus id gives the name and route, each falling back ("Not Assigned", "N/A") when empty. A student with no matching bus shows both fallbacks. |
| ParentPortal.CardAgreesWithBusLookup | src/pages/ParentPortal.tsx:72-82 | The card's bus name is the assistants page's lookup, except that an empty name becomes "Not Assigned". |
| ParentPortal.ShownLocations | src/pages/ParentPortal.tsx:123-124 | Exactly the locations whose `bus?.id` slot is among the students' slots, in order. `undefined`, `null` and numbers are compared as `includes` compares them. There is one entry per such location. |
| ParentPortal.Markers | src/pages/ParentPortal.tsx:123-133 | The map fails to render exactly when some kept location has no bus, since its popup reads `location.bus.name`. Otherwise the markers are the kept locations, all with a bus. |
| ParentPortal.MapRendersWithoutAbsentBusIds | src/pages/ParentPortal.tsx:123-133 | When no student record lacks `busId`, the map renders. A `null` bus id does not match a location without a bus. |
| ParentPortal.AbsentBusIdWithBuslessLocationBreaksMap | src/pages/ParentPortal.tsx:123-133 | A student without `busId` together with a location without a bus makes the map fail to render. |
| ParentPortal.MapCentre | src/pages/ParentPortal.tsx:46-48 | The first location, or (−1.2921, 36.8219) when there is none. |
| Tracking.LiveLocations | school-track-hub-main/src/pages/Tracking.tsx:15 | A reply without an array of units gives no vehicles. |
| Tracking.FilteredVehicles | school-track-hub-main/src/pages/Tracking.tsx:72-76 | Exactly the vehicles with a number containing the search, ignoring case, in order, one entry per such vehicle. Vehicles without a number are never listed. |
| Tracking.EmptySearchListsNumberedVehicles | school-track-hub-main/src/pages/Tracking.tsx:73-75 | An empty search lists exactly the vehicles that have a number. |
| Tracking.AutoSelect | school-track-hub-main/src/pages/Tracking.tsx:79-85 | The first filtered vehicle, or none when the list is empty. |
| Tracking.SelectionIsFirstMatch | school-track-hub-main/src/pages/Tracking.tsx:72-85 | The auto-selected vehicle is the first vehicle of the whole list whose number matches. |
| Tracking.MarkerColour | school-track-hub-main/src/pages/Tracking.tsx:32 | Green exactly when the movement state is "standing"; red otherwise. |
| Tracking.Centre | school-track-hub-main/src/pages/Tracking.tsx:87-92 | The selected vehicle when both its coordinates are truthy, else the first vehicle, else the fixed default. |
| Tracking.RenderedVehicles | school-track-hub-main/src/pages/Tracking.tsx:141-202 | The page fails to render exactly when some listed vehicle lacks `lat` or `lng`, because both the popup and the list call `toFixed(4)` on them. Otherwise it shows the filtered vehicles, all with both coordinates. |
| Tracking.RenderedSelectionFallsBackOnlyAtZero | school-track-hub-main/src/pages/Tracking.tsx:87-92 | On a page that renders, the map leaves the selected vehicle for the fallback centre only when one of its coordinates is 0. |
| Tracking.CentreFollowsFirstMatch | school-track-hub-main/src/pages/Tracking.tsx:72-92 | With the auto-selection, the map centres on the first vehicle whose number matches the search, whenever both its coordinates are truthy. |
| Tracking.CentreWithoutMatch | school-track-hub-main/src/pages/Tracking.tsx:72-92 | When no vehicle matches, the map centres on the first vehicle, or on the fixed default when there are none. |
| TransportLogin.RouteFor | school-track-hub-main/src/pages/Login.tsx:46-58 | PARENT, DRIVER and ASSISTANT go to their portals; every other role goes to /dashboard. |
| TransportLogin.TokenEntry | school-track-hub-main/src/pages/Login.tsx:40 | A string token is stored as its text. `getItem("token")` is truthy afterwards unless the token is the empty string. |
| TransportLogin.Submit | school-track-hub-main/src/pages/Login.tsx:23-65 | A reply lacking data, user or token is rejected with storage unchanged, as is a failed request (with the server's message or the fixed one). A valid reply routes by role, greets by name (default "User") and touches only the three auth keys. |
| TransportLogin.SuccessfulLoginReadsBack | school-track-hub-main/src/pages/Login.tsx:39-41 | After a valid login the flag reads "true", the token is the one received, and the stored user reads back as the user received. |
| TransportLogin.ReplyWithoutUserChangesNothing | school-track-hub-main/src/pages/Login.tsx:31-34 | Any reply whose user is missing or falsy stores nothing, navigates nowhere and reports the invalid-response message. |
| TransportLogin.ForgotPassword | school-track-hub-main/src/pages/Login.tsx:67-80 | An empty email sends no request. Otherwise the request is sent, and the dialog closes only on success. |
| DemoLogin.Submit | src/pages/Login.tsx:16-42 | Empty fields are rejected. Sign-up authenticates any filled pair. Sign-in authenticates only the demo pair. Success sets the flag and goes to /dashboard. Failure leaves storage unchanged with an error. |
| DemoLogin.SignInAcceptsOnlyTheDemoPair | src/pages/Login.tsx:28-37 | Sign-in succeeds exactly for demo@schooltrack.com / demo1234; sign-up succeeds for any filled pair. |
| DemoLogin.FailedAttemptKeepsFlag | src/pages/Login.tsx:38-40 | A failed attempt leaves the authentication flag as it was. |

## Left out

- HTTP: requests, interceptors, the mock-or-live API switch and its delay, and the half-second wait in the mock login. Replies are parameters, already decoded.
- Dashboard error precedence: when both dashboard requests fail, the model reports the inventory error, although which rejection `Promise.all` surfaces depends on timing.
- React: state, effects, polling intervals, toast rendering details, routing, and loading flags other than the auth context's.
- Leaflet: map rendering and fly-to animation. Coordinates are plain reals.
- Libraries and platform: PapaParse CSV parsing and unparsing, Blob download, and `Date` parsing and formatting. Days and timestamps are integers, and "today" is a parameter.
- Number coercion: `Number()` and its NaN cases. Quantities and prices are already integers, so `Number(x) \|\| 0` becomes the integer itself.
- Case folding: only ASCII letters are case-folded; other characters compare as they are.
- The multi-endpoint fallback chains of the inventory edit and delete handlers (Inventory.tsx:111-212). They are network retries against an uncertain API.
- CRUD-only pages with no derivation: dealers, students, sales, manifests, and the other tracking page.
- InventoryImport.GroupRows: upload requests are sent in first-occurrence order of the models. `Object.values` would put integer-like model names first.
- Storage.Parse: text not written by `JSON.stringify` is not parsed. InventoryAuth.Mount reports it as unreadable instead of modelling `JSON.parse`.
- Buses.FilterBuses: a bus without a `name` or `plateNumber` makes `toLowerCase` throw. The model assumes the API always sends both strings.
- Parents.FilterParents: a parent without a `name` makes `toLowerCase` throw. The model assumes the name is always sent.
- Assistants.FilterAssistants: an assistant without a `name` makes `toLowerCase` throw. The model assumes the name is always sent.
- InventoryList.StatusBadge: a unit without a `status` makes `status.charAt` throw. The model assumes every unit has a string status.
- Storage.TextField: a name, email or role that is not a string is read as the empty string, so the layout and the transport login greeting show their defaults for it.
- TransportLogin.TokenEntry: a token that is not a string is stored as its JSON encoding, not as `String(token)`. The two differ only for objects and arrays.
- Drivers.DriverOf: a driver object's name is always a string. A nameless object would make the search throw, and that case is not modelled.
- Tracking.FilteredVehicles: a vehicle number is a string or missing. A numeric `number` would make `toLowerCase` throw, and that case is not modelled.
- The parent portal's per-student status pill, and the welcome line that falls back to "Parent". Both are one-line display fallbacks, the same shape as TransportDashboard.ManifestTone.

## Findings

| source | as written | input that shows it | evidently intended | confidence | as-written member | corrected member |
|---|---|---|---|---|---|---|
| inventoryfront/jendie-keeper-main/src/pages/Dashboard.tsx:73 | The feed message calls `sale.totalPrice.toLocaleString()` for every sale, while the revenue sum at lines 54-57 reads `sale.totalPrice \|\| 0`. One sale without a price throws, and the whole dashboard shows only the error toast. | One sale `{ totalPrice: undefined, product: { model: "4G" } }` and no products | An unpriced sale counts as 0 in the message too, as it does in revenue, and the dashboard loads | not executed | InventoryDashboard.UnpricedSaleBreaksDashboard | InventoryDashboard.LoadDashboard |
