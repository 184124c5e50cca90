# Accounting app — a verified Dafny model

The system is a small business accounting application. A FastAPI backend
keeps users, inventory items, sales, purchases and payroll entries in an
in-memory database. A vanilla-JavaScript client offers one screen per
table. This project models the core of both halves and proves what they
promise.

- **Backend.**
  - `InMemoryDB` is the class `Database.DB`. Its five dictionaries are `map`
    fields and its five id counters are `int` fields.
  - Each router handler is a method over that class. It returns
    `Result<_, ApiError>`, and every `HTTPException` is an `ApiError` with its
    status code.
  - The sale and purchase handlers share one stock-movement engine
    (`Ledger`). Sales check stock and subtract; purchases only check that
    the item exists and add.
  - Iterating a Python dict is modelled as a scan of ids `1..counter-1`
    (`Database.InIdOrder`). This is insertion order, because ids come from
    the counters and are never reused.
  - The reports are loops proved against sum, count and tally functions.
    The top-five list is a stable descending insertion sort.
- **Client.**
  - The sale and purchase entry forms are one engine (`LineItems`), as the
    two files are near-duplicates. The kind of form picks the messages and
    the endpoint.
  - The form is the class `TransactionForm`: its row list, the visibility of
    the remove buttons, the displayed total, the modal, and what it has
    posted, alerted and reloaded.
  - The inventory, users and payroll screens hold their fetched list in a
    class and filter it in stages. Each screen is proved equal to one
    conjunctive `Filter` that keeps the original order and leaves the
    fetched list unchanged.
  - The summary cards are pure functions.
- **Conventions.** Timestamps are integers and money is `real`. A parsed
  form field is an `Option`, where `None` is NaN. JavaScript truthiness
  means "parsed and not zero".

Where the client's code and its documented behaviour differ, the model
follows the code:
- The displayed total sums quantity × amount over *every* row, with no
  clamping at 0. It includes rows that serialisation will drop
  (`LineItems.DroppedRowStillCounted`).
- The submit handler keeps a row when its item id, integer quantity and
  amount are all truthy, and drops it otherwise. The browser's constraint
  validation (`required`, `min="1"`, `min="0"` on the row inputs) already
  stops the submit for a blank item or a quantity below 1, so the only
  incomplete row that reaches the handler's drop is one with a zero price.

## Model

| member | source | states |
|---|---|---|
| Http.Status | routers/sales.py:31-40 | every API error maps to one status; 403/404/422 exactly for Forbidden/NotFound/validation, 400 for the rest |
| Models.ValidateInventoryItem | models.py:49-53 | a body is accepted iff its unit price is positive, unchanged; a refusal is a 422 |
| Models.TransactionRequest | models.py:69-73 | a sale/purchase body with email and notes left out has them as null; `LineItems.BlankOptionalsAreServerDefaults` ties this to the form |
| Models.PayrollRequest | models.py:122-131 | the four optional payroll amounts default to 0 |
| Database.InIdOrder | database.py:7-20 | the listing of a table has at most counter-1 entries |
| Database.InIdOrderMembers | database.py:7-20 | a value is listed iff it is stored under an id below the counter |
| Database.InIdOrderIgnoresAbove | database.py:22-40 | storing at or above the counter leaves the listing below it unchanged |
| Database.InIdOrderInsertNext | database.py:22-40 | storing under the next id appends exactly that value to the listing |
| Database.FilterInIdOrderNext | database.py:7-20 | filtering the listing one id further adds at most that id's value |
| Database.DB.constructor | database.py:8-20 | empty tables, every counter 1, no password table yet |
| Database.DB.NextUserId | database.py:22-24 | returns the old counter, advances it by one, the id is unused |
| Database.DB.NextInventoryId | database.py:26-28 | returns the old counter, advances it by one, the id is unused |
| Database.DB.NextSaleId | database.py:30-32 | returns the old counter, advances it by one, the id is unused |
| Database.DB.NextPurchaseId | database.py:34-36 | returns the old counter, advances it by one, the id is unused |
| Database.DB.NextPayrollId | database.py:38-40 | returns the old counter, advances it by one, the id is unused |
| Database.InitializeDatabase | database.py:45-63 | stores the admin manager under the next id and its hashed default password, creating the password table if absent |
| Database.FreshDatabase | database.py:43-63 | a fresh database holds exactly the admin, id 1, active manager |
| Database.FirstWithUsername | database.py:72-77 | the found user has the name and is listed; none iff no listed user has it |
| Database.FirstWithUsernameIsFirst | database.py:74-76 | the scan returns the first user, in id order, with the name |
| Database.GetUserByUsername | database.py:72-77 | the loop returns exactly the first match in id order |
| Database.FirstWithUsernameKeepsPrefix | database.py:74-76 | a match in a prefix is not changed by later users |
| Database.InIdOrderPrefix | database.py:74 | the listing up to k is a prefix of the listing up to n |
| Database.FirstNotInPrefix | database.py:74-76 | the first match is the user at the first id holding the name |
| Database.NoneExtends | database.py:74-77 | an id without the name does not create a match |
| Database.GetUserById | database.py:79-81 | found iff the id is stored, and then the stored user |
| Database.CreateUser | database.py:83-101 | stores an active user under the next id and its hashed password; nothing else changes |
| Database.VerifyUserPassword | database.py:103-113 | true iff a password table exists, holds the name, and the check passes |
| Ledger.LinesTotalAppend | routers/sales.py:50 | the accumulated total of concatenated lines is the sum of the totals |
| Ledger.Rejection | routers/sales.py:29-40 | a line passes iff its item exists and, for a sale, stock covers it; an unknown item is reported by id; every refusal is a 400 |
| Ledger.FirstRejection | routers/sales.py:28-40 | no refusal iff every line passes |
| Ledger.FirstRejectionIsFirst | routers/sales.py:28-40 | the refusal reported is that of the first failing line, all earlier lines pass |
| Ledger.Numbered | routers/sales.py:42-49 | stored lines are numbered 1.. in order and carry the item's name at that moment |
| Ledger.BasesOfNumbered | routers/sales.py:42-49 | the stored lines give back exactly the requested lines |
| Ledger.AdjustedEffect | routers/sales.py:65-69 | each item's stock moves by the signed sum of its lines; touched items get the new timestamp; no item appears or disappears |
| Ledger.OppositeRestores | routers/sales.py:112-117 | adding back what was removed (and vice versa) restores every stock level |
| Ledger.AdjustedKeepsCatalog | routers/sales.py:65-69 | stock moves change no name, SKU or price and keep the catalog invariants |
| Ledger.DuplicateSaleLinesOverdraw | routers/sales.py:36-40 | two lines of 3 against stock 5 both pass the per-line check and leave stock -1 |
| Ledger.CheckLines | routers/sales.py:25-50 | the validation loop returns the first refusal, or the numbered lines and their total |
| Ledger.ApplyLines | routers/sales.py:66-69 | the update loop leaves the inventory moved by exactly the lines |
| SalesRouter.CreateSale | routers/sales.py:16-72 | a refused line changes nothing and is reported; otherwise stock drops by the lines and the sale is stored under the next id with the numbered lines and their total |
| SalesRouter.GetSale | routers/sales.py:74-89 | the stored sale, or 404 |
| SalesRouter.DeleteSale | routers/sales.py:91-120 | 403 for non-managers, then 404; otherwise stock of still-existing items comes back and the sale is removed |
| SalesRouter.SaleRoundTrip | routers/sales.py:65-69 | deleting a sale restores every stock level its creation changed |
| SalesRouter.CreateThenDeleteSale | routers/sales.py:16-120 | creating then deleting a sale leaves the sales table and all stock levels as they were |
| PurchasesRouter.CreatePurchase | routers/purchases.py:16-66 | an unknown item is reported; otherwise stock rises by the lines and the purchase is stored under the next id |
| PurchasesRouter.PurchaseNeedsOnlyKnownItems | routers/purchases.py:28-34 | a purchase is refused iff a line names an unknown item, never for stock |
| PurchasesRouter.GetPurchase | routers/purchases.py:68-83 | the stored purchase, or 404 |
| PurchasesRouter.DeletePurchase | routers/purchases.py:85-114 | 403, then 404; otherwise stock of still-existing items is reduced and the purchase removed |
| PurchasesRouter.PurchaseRoundTrip | routers/purchases.py:106-111 | deleting a purchase restores every stock level its creation changed |
| PurchasesRouter.CreateThenDeletePurchase | routers/purchases.py:16-114 | creating then deleting a purchase leaves purchases and stock as they were |
| InventoryRouter.FindSku | routers/inventory.py:24-30 | the duplicate scan finds a holder iff another stored item has the SKU |
| InventoryRouter.StoreKeepsSkusDistinct | routers/inventory.py:84-105 | storing an item whose SKU no other item holds keeps SKUs distinct |
| InventoryRouter.CreateInventoryItem | routers/inventory.py:16-49 | 422 for a non-positive price, 400 for a held SKU, else stored under the next id with both timestamps now |
| InventoryRouter.GetInventoryItem | routers/inventory.py:51-66 | the stored item, or 404 |
| InventoryRouter.UpdateInventoryItem | routers/inventory.py:68-106 | 422, then 404, then 400 if another item holds the SKU; else replaced keeping id and creation time |
| InventoryRouter.OwnSkuIsFree | routers/inventory.py:85-86 | an item's own SKU never blocks its update |
| InventoryRouter.DeleteInventoryItem | routers/inventory.py:108-128 | 403, then 404, else exactly that item is removed |
| InventoryRouter.GetLowStockItems | routers/inventory.py:130-140 | the loop returns the stored items at or below their reorder level, in id order |
| InventoryRouter.LowStockMembers | routers/inventory.py:136-138 | an item is listed iff it is stored and at or below its reorder level |
| PayrollRouter.DefaultsPayBaseSalary | routers/payroll.py:31-33 | with the defaults, gross and net pay are the base salary |
| PayrollRouter.EntryFrom | routers/payroll.py:36-51 | the stored entry keeps the request and its net plus deductions is its gross |
| PayrollRouter.GetPayrollEntries | routers/payroll.py:10-14 | every stored entry is listed and nothing else, and each listed entry's net pay plus deductions is its gross pay |
| PayrollRouter.ListedEntries | routers/payroll.py:10-14 | the id-order scan of a valid payroll table lists exactly its entries, each with balanced pay |
| PayrollRouter.CreatePayrollEntry | routers/payroll.py:16-54 | 403 for non-managers, else stored under the next id with the computed pay; the table keeps every entry's pay balanced |
| PayrollRouter.GetPayrollEntry | routers/payroll.py:56-71 | the stored entry, or 404 |
| PayrollRouter.UpdatePayrollEntry | routers/payroll.py:73-118 | 403, then 404, else replaced with recomputed pay keeping creator and creation time; the table keeps every entry's pay balanced |
| PayrollRouter.DeletePayrollEntry | routers/payroll.py:120-140 | 403, then 404, else exactly that entry is removed |
| UsersRouter.GetUsers | routers/users.py:9-19 | 403 for non-managers, else every user in id order |
| UsersRouter.UnfoundUsernameIsFree | routers/users.py:33-39 | a name the scan does not find belongs to no stored user |
| UsersRouter.CreateNewUser | routers/users.py:21-50 | 403, then 400 iff the name exists, else the user is created; usernames stay distinct |
| UsersRouter.GetUser | routers/users.py:52-73 | 403 unless manager or self, then 404, else the stored user |
| UsersRouter.WithActive | routers/users.py:102 | only that user's active flag changes |
| UsersRouter.WithActiveIdempotent | routers/users.py:102 | setting the flag twice is setting it once |
| UsersRouter.DeactivateThenActivate | routers/users.py:102-126 | deactivating then activating an active user restores the table |
| UsersRouter.WithActiveKeepsUsernames | routers/users.py:102 | flipping the flag keeps usernames distinct |
| UsersRouter.DeactivateUser | routers/users.py:75-103 | 403, then 400 for oneself, then 404, else that user becomes inactive |
| UsersRouter.ActivateUser | routers/users.py:105-127 | 403, then 404, else that user becomes active |
| ReportsRouter.WindowSplits | routers/reports.py:32-34 | revenue and count over a window split into two adjacent windows add up |
| ReportsRouter.WindowExtremes | routers/reports.py:32-34 | a window covering nothing gives 0, one covering everything counts every sale |
| ReportsRouter.SumTransactions | routers/reports.py:32-39 | the loop returns the count and total of the transactions in the window |
| ReportsRouter.SumGrossPay | routers/reports.py:41-43 | the loop returns the gross pay of the entries in the window |
| ReportsRouter.GetFinancialSummary | routers/reports.py:10-53 | revenue is windowed sales, expenses windowed purchases plus gross pay, net income their difference |
| ReportsRouter.InIdOrderLength | routers/reports.py:60 | the listing has one entry per stored id below the counter |
| ReportsRouter.InIdOrderCoversKeys | routers/reports.py:60 | when every key is below the counter, the listing has one entry per key |
| ReportsRouter.GetInventoryReport | routers/reports.py:55-73 | item count, stock value and the low-stock list in id order |
| ReportsRouter.TotalItemsIsListed | routers/reports.py:60-64 | the item count equals the number of items the loop visits |
| ReportsRouter.IndexOf | routers/reports.py:104 | the position of a name in the tally, or none if absent |
| ReportsRouter.SoldOfUpdate | routers/reports.py:106 | replacing one tally entry changes a name's sum by that entry's difference |
| ReportsRouter.AddSoldEffect | routers/reports.py:104-106 | adding a line raises exactly that name's sum; names stay distinct |
| ReportsRouter.TallyLinesEffect | routers/reports.py:103-106 | tallying a sale's lines raises each name's sum by its quantity in that sale |
| ReportsRouter.TallySalesCounts | routers/reports.py:97-106 | the tally has one entry per name, holding its total quantity sold in the window |
| ReportsRouter.EntryIsWholeSum | routers/reports.py:104-106 | with distinct names an entry is that name's whole sum |
| ReportsRouter.NameAbsentSumsZero | routers/reports.py:104-105 | a name not in the tally sums to 0 |
| ReportsRouter.InsertDescMultiset | routers/reports.py:109-113 | inserting into the sorted list adds exactly that entry |
| ReportsRouter.InsertDescSorted | routers/reports.py:109-113 | inserting keeps the list sorted by quantity, descending |
| ReportsRouter.SortDescSorted | routers/reports.py:109-113 | the sort's result is in descending order of quantity |
| ReportsRouter.SortDescMultiset | routers/reports.py:109-113 | the sort's result is a permutation of its input |
| ReportsRouter.TopSellingProps | routers/reports.py:108-113 | at most five entries, all from the tally, descending, none left out that sells more than one kept |
| ReportsRouter.TallyInto | routers/reports.py:103-106 | the inner loop updates the tally exactly as the tally function does |
| ReportsRouter.TopEntriesAreTotals | routers/reports.py:97-113 | each top entry's quantity is that item's total sold in the window |
| ReportsRouter.SalesStep | routers/reports.py:97-106 | one more sale changes count, revenue and tally only when it lies in the window |
| ReportsRouter.GetSalesReport | routers/reports.py:75-121 | sale count, revenue and the top five of the tally, all over the window |
| ReportsRouter.EmployeeIdsBound | routers/reports.py:167 | never more distinct employees than payroll entries |
| ReportsRouter.GetDashboardStats | routers/reports.py:123-168 | the month's sales, revenue, expenses and profit; item count, stock value, low-stock count, distinct employees |
| ReportsRouter.LowStockCountsAgree | routers/reports.py:154-157 | the dashboard's low-stock count is the length of the low-stock list |
| LineItems.DisplayTotalAppend | static/sales.js:315-323 | the displayed total of concatenated rows is the sum of the parts |
| LineItems.DisplayTotalSingle | static/sales.js:319-322 | one row contributes quantity × amount, a NaN field counting 0 |
| LineItems.DisplayTotalRemove | static/sales.js:299-303 | removing a row takes exactly its amount off the total |
| LineItems.DisplayTotalReplace | static/sales.js:286-296 | editing a row changes the total by that row's difference |
| LineItems.LineOf | static/sales.js:341-346 | a submitted line has a non-zero item id, quantity and amount |
| LineItems.SerializedItems | static/sales.js:335-348 | never more lines than rows |
| LineItems.SerializedIsCommittedRows | static/sales.js:335-348 | the payload has one line per committed row, the i-th being the i-th committed row's line, in row order |
| LineItems.SerializedEmptyIff | static/sales.js:341-353 | nothing is sent exactly when no row is committed |
| LineItems.DisplayMatchesServerTotal | static/sales.js:315-323 | with every row committed and whole quantities, the displayed total is the total the backend computes |
| LineItems.DroppedRowStillCounted | static/sales.js:319-322 | a row with no item adds to the display but not to the payload |
| LineItems.TotalAmountAppend | static/sales.js:126-128 | the revenue card of concatenated lists is the sum of the two |
| LineItems.TotalAmountBounds | static/sales.js:126-128 | with every total in [lo, hi] the sum lies between n·lo and n·hi |
| LineItems.AverageAmount | static/sales.js:130-133 | 0 for no sales, otherwise average × count is the total |
| LineItems.AverageWithinBounds | static/purchases.js:126-133 | the average lies between the smallest and the largest total |
| LineItems.OrNull | static/sales.js:357-359 | a blank field becomes null, any other stays as typed |
| LineItems.PayloadOf | static/sales.js:355-360 | the posted body carries the lines and name as given, never an empty email or notes |
| LineItems.BlankOptionalsAreServerDefaults | static/sales.js:355-360 | the posted body equals the request with email and notes left at their server defaults iff both fields are blank |
| LineItems.FailureMessage | static/sales.js:370 | the backend's detail when present and non-blank, else the fallback |
| LineItems.TransactionForm.constructor | static/sales.js:164-189 | one blank row, remove button hidden, total 0 |
| LineItems.TransactionForm.UpdateTotal | static/sales.js:315-326 | the loop sets the displayed total to the sum over every row |
| LineItems.TransactionForm.UpdateRemoveButtons | static/sales.js:306-313 | remove buttons shown iff there is more than one row |
| LineItems.TransactionForm.AddRow | static/sales.js:227-232 | appends exactly one blank row; the total stays correct without a recount |
| LineItems.TransactionForm.ClickRemove | static/sales.js:299-303 | with one row nothing happens; otherwise exactly that row goes and the total drops by its amount |
| LineItems.TransactionForm.SelectOption | static/sales.js:286-292 | a catalog option sets the item and overwrites the amount with its price; the blank option only clears the item |
| LineItems.TransactionForm.EditQuantity | static/sales.js:295 | only that row's quantity changes; the total is kept current |
| LineItems.TransactionForm.EditAmount | static/purchases.js:296 | only that row's amount changes; the total is kept current |
| LineItems.TransactionForm.CollectItems | static/purchases.js:335-348 | the loop returns the committed rows' lines, in order |
| LineItems.TransactionForm.Submit | static/purchases.js:328-372 | no committed row: an error and no post; otherwise one post of the body, then close, confirm and reload on success, or the detail shown and the modal left open |
| InventoryView.Filtered | static/inventory.js:119-141 | the listed items are from the list and pass all three stages; every such item is listed |
| InventoryView.FilteredInOrder | static/inventory.js:119-141 | the filtered list keeps the fetched order |
| InventoryView.BlankFiltersShowAll | static/inventory.js:122-141 | with every filter blank the whole list is shown |
| InventoryView.SearchIgnoresCase | static/inventory.js:115 | a term and its lowercase form select the same items |
| InventoryView.LowAndOutDisjoint | static/inventory.js:136-141 | no item is both "low" and "out" |
| InventoryView.StagesSelect | static/inventory.js:119-141 | the stage-by-stage filtering equals one filter by the conjunction |
| InventoryView.InventoryList.Load | static/inventory.js:5-18 | after fetching, the table lists every item |
| InventoryView.InventoryList.ApplyFilters | static/inventory.js:114-148 | the table shows the conjunctive filter; the fetched list is as before |
| InventoryView.StatusOf | static/inventory.js:92-96 | "Low Stock" iff stock ≤ reorder level; "Out of Stock" only when the reorder level is negative |
| InventoryView.OutOfStockNeedsNegativeReorder | static/inventory.js:92-96 | items under the "out" filter are labelled "Low Stock" whenever their reorder level is not negative |
| InventoryView.HasCategoryLast | static/inventory.js:103 | the categories of a list are those of its prefix plus its last item's |
| InventoryView.CategoryOptions | static/inventory.js:102-112 | the options are sorted by UTF-16 code unit, as the default `sort()` orders them, without repeats, and are exactly the items' categories |
| Text.LeadUnit | static/inventory.js:103 | a character's first UTF-16 code unit: itself inside the Basic Multilingual Plane, a high surrogate above it |
| Text.SurrogatesSortBeforeHighBmp | static/inventory.js:103 | the sort order is by code unit, not code point: U+1F600 sorts before U+FF71 |
| InventoryView.CategoryOptionsCanonical | static/inventory.js:103 | any sorted duplicate-free listing of the categories is exactly the options |
| InventoryView.CategoryOptionsIgnoreOrder | static/inventory.js:103 | the options do not depend on the fetched order |
| InventoryView.ItemBody | static/inventory.js:200-236 | the body these handlers would send carries the parsed numbers; a NaN makes it one the schema refuses |
| InventoryView.FormPriceMustBePositive | static/inventory.js:158 | a body these handlers would send is accepted iff its price is positive; a zero price, allowed by the form, would draw a 422 |
| UsersView.RoleName | static/users.js:193-195 | the filter's "manager"/"staff" name exactly the two roles |
| UsersView.Filtered | static/users.js:176-202 | the listed users are from the list and pass all three stages; every such user is listed |
| UsersView.FilteredInOrder | static/users.js:176-202 | the filtered list keeps the fetched order |
| UsersView.ActiveCount | static/users.js:168-170 | the active card equals the length of the "active" filter |
| UsersView.ManagersCount | static/users.js:172-174 | the managers card equals the length of the "manager" role filter |
| UsersView.ActiveAndInactivePartition | static/users.js:198-202 | "active" and "inactive" split the list between them |
| UsersView.StagesSelect | static/users.js:182-202 | the stage-by-stage filtering equals one filter by the conjunction |
| UsersView.UsersList.Load | static/users.js:11-18 | after fetching, the table lists every user |
| UsersView.UsersList.ApplyFilters | static/users.js:176-211 | the table shows the conjunctive filter; the fetched list is restored |
| UsersView.FindUser | static/users.js:318-319 | the first listed user with the id, or none iff no listed user has it |
| UsersView.ToggleCall | static/users.js:318-331 | deactivate iff the listed user is active; no request for an unlisted id |
| UsersView.ToggleTwiceRestores | static/users.js:321-333 | toggling, applying the flag change, reloading and toggling again restores the stored users |
| PayrollView.Filtered | static/payroll.js:194-222 | the listed entries are from the list and pass the search and both dates; every such entry is listed |
| PayrollView.FilteredInOrder | static/payroll.js:194-222 | the filtered list keeps the fetched order |
| PayrollView.FilteredWithinDates | static/payroll.js:210-222 | every listed pay period lies inside the chosen dates |
| PayrollView.StagesSelect | static/payroll.js:200-222 | the stage-by-stage filtering equals one filter by the conjunction |
| PayrollView.SearchStage | static/payroll.js:201-207 | the search stage keeps exactly the entries whose name or id contains the term, all when it is blank |
| PayrollView.FromStage | static/payroll.js:210-215 | the "from" stage keeps exactly the entries starting on or after the date, all when it is blank |
| PayrollView.ToStage | static/payroll.js:217-222 | the "to" stage keeps exactly the entries ending on or before the date, all when it is blank |
| PayrollView.PayrollList.Load | static/payroll.js:5-18 | after fetching, the table lists every entry |
| PayrollView.PayrollList.ApplyFilters | static/payroll.js:194-231 | the table shows the conjunctive filter; the fetched list is restored |
| PayrollView.TotalsAppend | static/payroll.js:181-187 | gross and net cards of concatenated lists are the sums of the parts |
| PayrollView.NetCardIsGrossLessDeductions | static/payroll.js:181-187 | for entries whose pay balances, the net card is the gross card less total deductions |
| PayrollView.FetchedCardsBalance | static/payroll.js:181-187 | on the entries the backend lists, the net card is the gross card less total deductions |
| PayrollView.UniqueEmployees | static/payroll.js:189-192 | at most one per entry, and 0 iff there are no entries |
| PayrollView.SameEmployeeCountsOnce | static/payroll.js:189-192 | another entry for a listed employee does not change the count |
| PayrollView.PayrollBody | static/payroll.js:358-366 | in the body these handlers would send, the optional amounts fall back to 0; a NaN base salary makes a body the schema refuses |
| PayrollView.BlankAmountsMatchServerDefaults | static/payroll.js:362-366 | blank optional amounts would send the backend's own defaults, so gross and net pay would be the base salary |

## Left out

- HTTP transport, authentication (`routers/auth.py`, token storage, the 401 interceptor), `main.py` wiring: requests arrive already authenticated as a `User`.
- Password hashing and checking: `get_password_hash` and `verify_password` are function parameters.
- Clocks: every handler takes one `now`; the source calls `datetime.now()` separately for each touched item, so its timestamps can differ by microseconds.
- Date parsing: the report windows take integer bounds; the "default to the current month" branch and the `fromisoformat` string handling are not modelled, nor are the client's `new Date` conversions.
- Floating point: money is `real`; rounding, `toFixed(2)` and `float` overflow are not modelled.
- Pydantic schema validation beyond the price validator: a body with a missing or null required field (the client's NaN) is represented as `None` rather than as a 422 response.
- The DOM, templates, feather icons, modal creation and `setTimeout` wiring; `confirm()` dialogs (the models describe the request made after confirmation).
- `async` loading and concurrency; each request runs to completion on its own.
- The report screen (`static/reports.js`) and all `render`/`show*Modal` methods, which only display.
- ReportsRouter.TopSellingProps: proves the top five are sorted, drawn from the tally and not outsold by a dropped entry, but not that ties keep the tally's insertion order as Python's stable sort does.
- LineItems.TransactionForm.SelectOption: a catalog option is given by its position, so a `data-price` string that does not parse is not modelled.
- InventoryView.ItemBody, InventoryView.FormPriceMustBePositive, PayrollView.PayrollBody, PayrollView.BlankAmountsMatchServerDefaults: these model the `createItem`/`updateItem` and `createPayrollEntry`/`updatePayrollEntry` handlers as if they were called, but the program never calls them. `Components.createForm` (static/components.js:139-150) attaches its submit listener to a detached element and returns only its `innerHTML`, so the inventory, payroll and user add/edit forms lose the listener. Submitting them performs the browser's default form navigation and sends no POST or PUT. Only the sale and purchase forms are wired, through the `createModal` override in static/sales.js and static/purchases.js.
- HTML constraint validation is not modelled: the `required`, `min`, `step` and `type="email"` attributes of the form inputs can block a submit before the handler runs, and the model starts at the handler.
- Text.Lower: lowercases only the ASCII letters A–Z. JavaScript's `toLowerCase` also maps other letters (É to é), and a few to two code units (İ), so the model keeps the length of every string.
- InventoryView.Filtered: inherits the ASCII-only lowercasing of Text.Lower, so a search for "É" does not find an item named "é", although the screen lists it.
- InventoryView.SearchIgnoresCase: proved for the lowercasing of ASCII letters only, for the same reason.
- UsersView.Filtered: inherits the ASCII-only lowercasing of Text.Lower; a search using non-ASCII capitals can list fewer users than the screen.
- PayrollView.Filtered: inherits the ASCII-only lowercasing of Text.Lower; a search using non-ASCII capitals can list fewer entries than the screen.
- PayrollView.SearchStage: its case-insensitivity covers the ASCII letters only, for the same reason.
- Parsing (`parseInt`, `parseFloat`) is abstracted: the model receives each field's parsed value, not its text.
