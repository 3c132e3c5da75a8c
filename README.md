# Multitenant inventory backend: stock ledger and purchase-request workflow

This project models the two engines of a multitenant inventory backend and the jobs,
gates and schemas around them. It proves properties of the model in Dafny.

- **Stock ledger** (`StockLedger.StockService`). This is an append-only table of stock
  movements keyed by (organisation, product, warehouse). A balance is the signed sum of a
  triple's rows. `StockIn`, `StockOut`, `Transfer` and `Adjust` append rows and one audit entry
  each, after the guards that keep every balance non-negative. `GetLedger` and
  `GetStockLevels` are the reads. `StockEndpoints` puts the manager-only gate in front of the
  four writes.
- **Purchase requests** (`PurchaseRequests.PurchaseRequestService`). This holds the requests
  table and the item table. The transition table, the role and ownership guards, request
  numbering, create, update, and the four status moves are all modelled.
- **Audit log** (`AuditLog.AuditService`). It is append-only, with a filtered, paginated read
  and a lookup by id.
- **Jobs**: the stale-draft cleanup (`Cleanup`), the low-stock check (`LowStock`) and the
  weekly digest (`WeeklyReport`).
- **Middleware**: tenant resolution from the Host and X-Tenant-ID headers (`Tenant`), and
  the role gates (`Rbac`).

Identifiers (UUIDs in the system) are natural numbers, and only equality is used. The ids of
movements and audit entries are their positions in their append-only tables. Purchase
requests get ids from a counter. Timestamps are integers counting seconds. The current time,
the transfer's random UUID (as 32 lower-case hex digits), the Host header and the
X-Tenant-ID header are all parameters. Errors raised as HTTP exceptions are `Errors.Error`
values: `NotFound` (404), `Forbidden` (403) and `Unprocessable` (422). Each carries the detail
text the code raises.

## Model

| member | source | states |
|---|---|---|
| Enums.MovementTypeNameInjective | app/models/enums.py:10-15 | two movement types with the same stored name are the same type |
| Digits.ValueOfDecimal | app/services/purchase_request.py:78 | reading back the decimal rendering of n gives n |
| Digits.DecimalInjective | app/services/purchase_request.py:78 | distinct numbers render differently |
| Digits.ZeroPad | app/services/purchase_request.py:78 | the `05d` padding: length is max(width, input length), the input is a suffix, and only zeros are added in front |
| Digits.ValueOfZeroPad | app/services/purchase_request.py:78 | zero padding keeps the value of a numeral |
| Digits.UpperHex | app/services/stock_movement.py:182 | upper-casing hex digits maps `a`..`f` to `A`..`F` position by position and keeps decimal digits unchanged |
| Queries.InsertByTime | app/services/audit_log.py:62 | insertion into a newest-first list keeps it newest-first and adds exactly one occurrence of the element |
| Queries.SortNewestFirst | app/services/audit_log.py:62 | the `ORDER BY … DESC`: the result is newest-first and a permutation of the input |
| Queries.Page | app/services/audit_log.py:62 | `OFFSET skip LIMIT limit`: at most `limit` rows, the i-th being row `skip + i` |
| Queries.NewestPage | app/services/audit_log.py:62 | a page is exactly the rows at positions `skip`.. of a newest-first arrangement of the input, `min(limit, n - skip)` of them (none past the end); a first page that is large enough holds every row |
| Queries.FirstPageHoldsNewest | app/services/audit_log.py:62 | a row left off the first page is no newer than any row on it |
| Queries.LaterPagesAreOlder | app/services/audit_log.py:62 | rows on a page are no older than rows on the pages after it |
| Queries.PagesConcatenate | app/services/audit_log.py:62 | two consecutive pages together form the page spanning both |
| Queries.PagesDisjoint | app/services/audit_log.py:62 | on a list without duplicates, an element of one page is absent from the next page |
| Queries.DistinctIffSingleOccurrences | app/services/audit_log.py:62 | a list has no duplicates exactly when every element occurs once in its multiset |
| Queries.NewestFirstUnique | app/services/audit_log.py:62 | when no two rows share a timestamp, the newest-first order of a collection of rows is unique |
| Queries.NewestPagesDisjoint | app/services/audit_log.py:62 | two separate queries for consecutive pages, each reading any newest-first order of the same duplicate-free rows, share no row when no two rows share a timestamp |
| Catalog.ManagerEmails | app/jobs/low_stock.py:45-50 | an address is selected exactly when an ADMIN or MANAGER of the organisation has it |
| Catalog.StaffNeverRecipient | app/models/user.py:31 | with (org, email) unique, a STAFF user's address is never among the manager addresses |
| Catalog.FindProduct | app/services/product.py:28-35 | the product with that id in that organisation, or 404 "Product not found" exactly when there is none |
| Catalog.FindWarehouse | app/services/warehouse.py:33-42 | the warehouse with that id in that organisation, or 404 "Warehouse not found" exactly when there is none |
| Rbac.RequireRole | app/middleware/rbac.py:10-16 | the user passes unchanged exactly when their role is listed; otherwise 403 "Insufficient permissions" |
| Rbac.RequireManager | app/api/v1/endpoints/stock_movements.py:29-36 | ADMIN and MANAGER pass unchanged; anyone else gets 403 "Managers and admins only." |
| Rbac.RequireManagerIsRequireRole | app/api/v1/endpoints/stock_movements.py:29-36 | the manager gate admits exactly the users that `require_role([ADMIN, MANAGER])` admits |
| Rbac.EmptyListRejectsEveryone | app/middleware/rbac.py:12 | membership only, no hierarchy: an empty role list rejects even an ADMIN |
| Rbac.DecisionDependsOnlyOnRole | app/middleware/rbac.py:11-14 | two users with the same role get the same decision |
| Tenant.Split | app/middleware/tenant.py:6 | `str.split('.')`: one more part than separators, no part contains the separator, and joining the parts gives back the string |
| Tenant.SplitJoin | app/middleware/tenant.py:6 | splitting a join of separator-free parts gives back those parts |
| Tenant.SplitFree | app/middleware/tenant.py:6 | a string without separators splits into itself alone |
| Tenant.SplitPrefix | app/middleware/tenant.py:6 | splitting `p.t` with p separator-free gives p followed by the parts of t |
| Tenant.SubdomainFromHost | app/middleware/tenant.py:4-9 | a subdomain exists exactly when the host (missing means empty) has at least two dots, and it is the dot-free text before the first dot |
| Tenant.GetTenant | app/middleware/tenant.py:12-16 | the tenant is either the header value or a non-empty, dot-free first label of a host with at least two dots; with fewer dots it is the header |
| Tenant.SubdomainWins | app/middleware/tenant.py:12-16 | a host `sub.a.b` with a non-empty `sub` names the tenant whatever the header says |
| Tenant.HeaderFallback | app/middleware/tenant.py:12-16 | with fewer than three host parts, or an empty first part, the X-Tenant-ID header decides (and None with no header) |
| StockLedger.BalanceWithoutRows | app/services/stock_movement.py:28-51 | `_current_stock` (`Balance`) is 0 for a triple that no row belongs to, whatever the other rows (the coalesce) |
| StockLedger.BalanceConcat | app/services/stock_movement.py:28-51 | the balance of two row lists concatenated is the sum of their balances |
| StockLedger.BalanceAppend | app/services/stock_movement.py:28-51 | appending a row changes only its own triple's balance, by the row's signed quantity |
| StockLedger.BalanceBySign | app/services/stock_movement.py:28-51 | balance = IN + TRANSFER_IN + ADJUSTMENT − OUT − TRANSFER_OUT raw sums for the triple (0 with no rows) |
| StockLedger.AppendKeepsNonNegative | app/services/stock_movement.py:128-133 | a row that keeps its own triple at or above zero keeps every balance non-negative |
| StockLedger.ProductTotalConcat | app/services/stock_movement.py:28-51 | a product's total over all warehouses is additive over concatenation |
| StockLedger.TransferConservesProductTotal | app/services/stock_movement.py:184-203 | a TRANSFER_OUT / TRANSFER_IN pair of one product and quantity leaves every product total unchanged |
| StockLedger.TransferReference | app/services/stock_movement.py:182 | the reference is "TRANSFER-" followed by 8 upper-case hex digits (17 characters) |
| StockLedger.TransferReferenceSpellsUuid | app/services/stock_movement.py:182 | those 8 digits are the UUID's first 8 hex digits, `a`..`f` upper-cased and decimal digits kept |
| StockLedger.LedgerRows | app/services/stock_movement.py:281-306 | a row is kept exactly when it is the organisation's and passes every supplied filter, with inclusive date bounds |
| StockLedger.GetLedger | app/services/stock_movement.py:281-306 | the matching rows at positions `skip`.. of a newest-first order, `min(limit, n - skip)` of them, and complete when the first page is large enough |
| StockLedger.Groups | app/services/stock_movement.py:308-351 | each (product, warehouse) pair that has a selected row appears once, and only such pairs appear |
| StockLedger.GetStockLevels | app/services/stock_movement.py:308-351 | one level per pair with a selected movement, no pair twice, each carrying that triple's balance |
| StockLedger.StockService.StockIn | app/services/stock_movement.py:90-120 | appends exactly one IN row with the requested quantity and no balance check; the balance rises by that quantity; one STOCK_IN audit entry; balances stay non-negative |
| StockLedger.StockService.StockOut | app/services/stock_movement.py:122-159 | 422 "Insufficient stock. Available: {current}, requested: {quantity}." exactly when balance < quantity, and then nothing is written; otherwise one OUT row and the balance drops by the quantity |
| StockLedger.StockService.Transfer | app/services/stock_movement.py:161-230 | 422 for equal warehouses before any balance check, else 422 "Insufficient stock. Available: {current}, requested: {quantity}." when the source is short; otherwise TRANSFER_OUT then TRANSFER_IN with the same product, quantity, notes and reference; source −q, destination +q, product total unchanged; one STOCK_TRANSFER audit entry |
| StockLedger.StockService.Adjust | app/services/stock_movement.py:232-277 | 422 for zero; a negative quantity fails with 422 "Insufficient stock to adjust. Available: {current}." when the balance is below its magnitude; otherwise one ADJUSTMENT row with the signed quantity, and the balance changes by exactly that amount |
| StockEndpoints.PostStockIn | app/api/v1/endpoints/stock_movements.py:45-52 | STAFF get 403 and neither the ledger nor the audit log changes; managers get one IN row created by them |
| StockEndpoints.PostStockOut | app/api/v1/endpoints/stock_movements.py:55-62 | the manager gate runs before the stock guard; a STAFF call changes nothing |
| StockEndpoints.PostTransfer | app/api/v1/endpoints/stock_movements.py:65-75 | the manager gate runs before the transfer guards; a STAFF call changes nothing |
| StockEndpoints.PostAdjust | app/api/v1/endpoints/stock_movements.py:78-85 | the manager gate runs before the adjustment guards; a STAFF call changes nothing |
| AuditLog.Selected | app/services/audit_log.py:47-60 | an entry is kept exactly when it is the organisation's and matches every given filter; an empty string filter is no filter; timestamp bounds are inclusive |
| AuditLog.GetAll | app/services/audit_log.py:35-63 | the matching entries at positions `skip`.. of a newest-first order, `min(limit, n - skip)` of them, and complete when the first page is large enough |
| AuditLog.ConsecutivePagesDisjoint | app/services/audit_log.py:62-63 | two calls for consecutive pages of the same query share no entry, whichever newest-first order each call reads, when no two matching entries have the same timestamp |
| AuditLog.GetById | app/services/audit_log.py:65-77 | the entry with that id in that organisation; 404 "Audit log not found." exactly when the id is absent or another organisation's |
| AuditLog.AuditService.Log | app/services/audit_log.py:17-31 | appends exactly one entry carrying the caller's organisation, actor, action, entity, entity id, before, after, IP address and user agent |
| AuditLog.AuditService.IdsUnique | app/services/audit_log.py:17-31 | audit entry ids stay unique |
| RequestNumbers.RequestNumber | app/services/purchase_request.py:78 | `PR-` followed by the zero-padded number, at least 8 characters |
| RequestNumbers.ParseRequestNumberRoundTrip | app/services/purchase_request.py:78 | parsing a formatted request number gives back the number |
| RequestNumbers.RequestNumberInjective | app/services/purchase_request.py:78 | distinct numbers are formatted as distinct request numbers |
| RequestNumbers.OrgRequests | app/services/purchase_request.py:73-77 | exactly the organisation's requests, which is what the count counts |
| RequestNumbers.CountBasedNumber | app/services/purchase_request.py:72-78 | as written: the number carried is the organisation's request count plus one |
| RequestNumbers.Highest | app/services/purchase_request.py:72-78 | no request carries a number above it |
| RequestNumbers.NextRequestNumber | app/services/purchase_request.py:72-78 | corrected: the number carried is one past the highest the organisation has used |
| RequestNumbers.NextRequestNumberIsFresh | app/models/purchase_request.py:56-59 | the corrected number is held by no request of the organisation, whatever was deleted before |
| RequestNumbers.FirstRequestNumber | app/services/purchase_request.py:72-78 | an organisation's first request carries number 1 under either numbering |
| RequestNumbers.RequestNumberOne | app/services/purchase_request.py:78 | number 1 is written PR-00001 |
| RequestNumbers.HighestOfDense | app/services/purchase_request.py:72-78 | when the numbers are 1..n in order, the highest is n |
| RequestNumbers.CountBasedAgreesWhileDense | app/services/purchase_request.py:72-78 | while no request has been deleted, both numberings give the same number |
| RequestNumbers.NextKeepsDense | app/services/purchase_request.py:130-137 | creating with the corrected number keeps a dense numbering dense |
| PurchaseRequestWorkflow.Successors | app/services/purchase_request.py:15-24 | the transition table: no status lists itself or DRAFT, and every listed target lies further along the workflow |
| PurchaseRequestWorkflow.TransitionsMoveForward | app/services/purchase_request.py:15-24 | every legal transition moves strictly forward in the workflow |
| PurchaseRequestWorkflow.TerminalStatuses | app/services/purchase_request.py:22-23 | REJECTED and ORDERED have no successors |
| PurchaseRequestWorkflow.DecisionsFollowSubmission | app/services/purchase_request.py:15-24 | the table exactly: SUBMITTED only from DRAFT, APPROVED and REJECTED only from SUBMITTED, ORDERED only from APPROVED, nothing back to DRAFT |
| PurchaseRequestWorkflow.PathAdvances | app/services/purchase_request.py:15-24 | along any chain of legal transitions, each step advances the stage by at least one |
| PurchaseRequestWorkflow.LifecycleIsShort | app/services/purchase_request.py:15-24 | a request's life visits at most four statuses and never the same one twice |
| PurchaseRequestWorkflow.AssertTransition | app/services/purchase_request.py:38-56 | passes exactly for a legal move that is not manager-only or is made by ADMIN/MANAGER; an illegal move gives 422 whoever asks; a legal move refused for the role gives 403 |
| PurchaseRequestWorkflow.StaffCannotDecide | app/services/purchase_request.py:38-56 | STAFF can never approve or reject: 403 on a SUBMITTED request, 422 on any other |
| PurchaseRequestWorkflow.OpenTransitionsIgnoreRole | app/services/purchase_request.py:49-52 | for SUBMITTED and ORDERED targets the decision does not depend on the role |
| PurchaseRequestWorkflow.AssertOwnershipOrRole | app/services/purchase_request.py:84-89 | fails, with 403 "Access denied.", exactly for STAFF acting on a request they did not create |
| PurchaseRequestWorkflow.FindRequest | app/services/purchase_request.py:58-70 | the position of a request with that id in that organisation, and none exactly when there is no such request |
| PurchaseRequestWorkflow.GetById | app/services/purchase_request.py:113-122 | 404 when absent; otherwise 403 exactly for STAFF asking for another user's request; a result is that organisation's request with that id |
| PurchaseRequestWorkflow.TransitionGuard | app/services/purchase_request.py:192-263 | 404 first, then the ownership 403 (submit only), then the transition guard; success exactly when the move is legal and permitted |
| PurchaseRequestWorkflow.EditGuard | app/services/purchase_request.py:162-168 | 404, then the ownership 403, then 422 "Only DRAFT requests can be edited."; success exactly for the owner (or a manager) of a DRAFT |
| PurchaseRequestWorkflow.ManagerMayApproveAnySubmitted | app/services/purchase_request.py:210-248 | approval and rejection are not ownership-gated: a manager may decide any submitted request of the organisation |
| PurchaseRequests.Listed | app/services/purchase_request.py:102-108 | a request is listed exactly when it is the organisation's, the caller's own for STAFF, and of the filtered status when a filter is given |
| PurchaseRequests.GetAll | app/services/purchase_request.py:93-111 | the visible requests at positions `skip`.. of a newest-first order, `min(limit, n - skip)` of them, and complete when the first page is large enough |
| PurchaseRequests.StaffListOnlyOwn | app/services/purchase_request.py:104-105 | a STAFF listing shows only the caller's own requests of that organisation |
| PurchaseRequests.ManagersSeeWholeOrganisation | app/services/purchase_request.py:102-111 | an unfiltered manager listing that is large enough shows every request of the organisation |
| PurchaseRequests.ItemsOfToItems | app/services/purchase_request.py:139-148 | the rows made for a request are exactly that request's items, one per item line in order |
| PurchaseRequests.DropKeepsKeys | app/models/purchase_request.py:56-59 | deleting requests keeps ids and (organisation, number) pairs unique |
| PurchaseRequests.CreateKeepsConsistent | app/services/purchase_request.py:124-152 | adding a request under a fresh id and number, with valid item lines, keeps the table invariant |
| PurchaseRequests.DeleteKeepsConsistent | app/models/purchase_request.py:70-72 | deleting a request with its items leaves no item without its request |
| PurchaseRequests.PurchaseRequestService.AddItems | app/services/purchase_request.py:139-148 | one item row per item line, in order, appended to the item table |
| PurchaseRequests.PurchaseRequestService.Create | app/services/purchase_request.py:124-152 | a DRAFT request by the caller with the payload's notes, no approval or rejection columns, a number unused in the organisation, and exactly the payload's items in order |
| PurchaseRequests.PurchaseRequestService.Update | app/services/purchase_request.py:154-190 | on failure nothing changes; notes are replaced only when given; a given item list replaces every item of the request in order; other requests' items never change |
| PurchaseRequests.PurchaseRequestService.ReplaceItems | app/services/purchase_request.py:173-186 | the request's items become exactly the new lines, in order, and no other request's items change |
| PurchaseRequests.PurchaseRequestService.Submit | app/services/purchase_request.py:192-208 | on failure nothing changes; on success only the status becomes SUBMITTED |
| PurchaseRequests.PurchaseRequestService.Approve | app/services/purchase_request.py:210-227 | on failure nothing changes; on success status APPROVED, approved by the caller, at `now` |
| PurchaseRequests.PurchaseRequestService.Reject | app/services/purchase_request.py:229-248 | on failure nothing changes; on success status REJECTED, rejected by the caller, at `now`, with the non-empty reason |
| PurchaseRequests.PurchaseRequestService.MarkOrdered | app/services/purchase_request.py:250-263 | on failure nothing changes; on success only the status becomes ORDERED |
| PurchaseRequests.PurchaseRequestService.Replace | app/services/purchase_request.py:205-207 | writes one request back in place, keeping its id, organisation and number, and keeping the status columns in agreement with the status |
| PurchaseRequests.PurchaseRequestService.Delete | app/jobs/cleanup.py:30-32 | removes the request and, in the corrected model, its item rows |
| Cleanup.StaleIds | app/jobs/cleanup.py:18-29 | the ids selected are exactly those of DRAFT requests created strictly before now − 30 days, in every organisation |
| Cleanup.Retained | app/jobs/cleanup.py:18-32 | what remains is exactly the requests that are not stale: non-DRAFT requests of any age and recent drafts |
| Cleanup.RetainedIdempotent | app/jobs/cleanup.py:18-32 | a second run at the same moment deletes nothing |
| Cleanup.LaterCleanupDeletesMore | app/jobs/cleanup.py:15 | what survives a later run also survives an earlier one |
| Cleanup.DropSelectedIsRetained | app/jobs/cleanup.py:30-32 | deleting the selected ids one by one leaves exactly the non-stale requests |
| Cleanup.StaleIdsSelectExactly | app/jobs/cleanup.py:18-29 | with unique ids, a request's id is selected exactly when the request is stale |
| Cleanup.ScheduledCleanup | app/jobs/cleanup.py:13-38 | corrected job: every stale draft and its items are deleted, every other request stays in order, the table invariant holds, and the logged count is the number selected |
| Cleanup.CleanupAsWritten | app/jobs/cleanup.py:30-35 | as written: when a selected draft still has items the commit fails and nothing is deleted; otherwise the stale drafts go |
| Cleanup.CleanupAsWrittenKeepsDraftWithItems | app/jobs/cleanup.py:30-35 | a stale draft with one item survives the job as written, while the corrected job removes it |
| Cleanup.CountBasedNumberCollidesAfterCleanup | app/services/purchase_request.py:72-78 | after the cleanup deletes PR-00001, the count-based number for the organisation is PR-00002 again, which is already held; the corrected number is PR-00003 |
| LowStock.LevelsForOnePair | app/jobs/low_stock.py:22-32 | with both filters, the levels are empty exactly when the pair has no movement, and otherwise are the single row holding the pair's balance |
| LowStock.CheckLowStock | app/jobs/low_stock.py:20-83 | no levels: nothing sent; otherwise 404 "Product not found" only for a missing product, OK when balance ≥ minimum, and when below, 404 "Warehouse not found" only for a missing warehouse, else an alert to the manager addresses and a "low_stock" event carrying the same values |
| LowStock.AlertIffBelowMinimum | app/jobs/low_stock.py:36 | an alert fires exactly when the pair has movements, product and warehouse exist, and the balance is strictly below the minimum |
| LowStock.StockOkIffAtMinimum | app/jobs/low_stock.py:32-36 | for a pair with movements and a known product, the stock is reported OK exactly when the balance is at or above the minimum |
| LowStock.StaffNeverAlerted | app/jobs/low_stock.py:45-50 | a STAFF user's address is never an alert recipient |
| WeeklyReport.WeeklyTotals | app/jobs/weekly_report.py:41-54 | one key per movement type that has a row in the last 7 days (inclusive), holding the raw, unsigned sum of that type's quantities |
| WeeklyReport.TotalsGiveNetChange | app/jobs/weekly_report.py:41-54 | the inbound totals minus the outbound totals equal the organisation's net stock change over the window |
| WeeklyReport.AbsentTypeSumsToZero | app/jobs/weekly_report.py:52-54 | a type without rows in the window sums to zero, so a missing key means zero |
| WeeklyReport.ProductById | app/jobs/weekly_report.py:57-62 | the product row with that id, and none exactly when no row has it |
| WeeklyReport.LowStockLevels | app/jobs/weekly_report.py:63-67 | exactly the levels strictly below their product's minimum; fails exactly when some level's product is missing |
| WeeklyReport.PendingRequests | app/jobs/weekly_report.py:68-84 | exactly the organisation's SUBMITTED and APPROVED requests |
| WeeklyReport.ReportFor | app/jobs/weekly_report.py:26-92 | the digest goes to the manager addresses with the organisation's name, the week's totals, the low-stock list and the pending list; it fails exactly when a level's product is missing |
| WeeklyReport.WeeklyReportJob | app/jobs/weekly_report.py:20-100 | one outcome per organisation, in order; a failing organisation does not stop the others |
| WeeklyReport.DigestAgreesWithAlert | app/jobs/weekly_report.py:63-67 | for an organisation's own product, the low-stock check finds the stock OK exactly when the level is not in the digest's low-stock list |

## Left out

- Authentication, tokens and password hashing: these are foreign library calls.
- Rows with equal timestamps: `ORDER BY … DESC` leaves their order open, and two calls may order them differently. Each read is therefore stated over *some* newest-first order. `NewestPagesDisjoint` and `ConsecutivePagesDisjoint` promise that consecutive pages share no row only when no two matching rows share a timestamp. With ties, a row may appear on both pages or on neither, and the model promises nothing there.
- E-mail delivery and event publishing (`send_low_stock_alert`, `send_weekly_report`,
  `publish_event`): they appear only as the values handed over (`LowStockAlert`,
  `LowStockEvent`, `Digest`). Their own failures are not modelled.
- Logging, database sessions, flush, commit and refresh. The server-maintained `updated_at`
  columns and the ids of item rows are left out too.
- Concurrency: each operation runs alone. The read-balance-then-insert race is not modelled.
  Neither is uniqueness of request numbers between concurrent transactions.
- Database errors other than the one the cleanup finding describes. So the outer `try` of the
  weekly report and the `except` of the cleanup job have no modelled trigger beyond it.
- `Update`: the source deletes the old item rows one at a time through the relationship. The
  model removes them in one step, with the same resulting table.
- `PurchaseRequests.PurchaseRequestService.Reject` takes the validated request body, so its
  reason is non-empty. The service itself accepts any string. The body is what reaches it
  through the endpoint.
- `StockEndpoints`: the organisation comes in as a parameter. The tenant dependency the
  endpoints import is not defined in the middleware module, so it is not part of this model.
- `Price` is opaque: estimated prices are stored and copied, never computed with.
- Audit entries for purchase-request operations: the service never writes any.
- Existence checks for products and warehouses on stock writes: the service does not make
  them.
- StockEndpoints.PostStockOut, StockEndpoints.PostTransfer and StockEndpoints.PostAdjust: on
  success the contract names the rows appended and their creator. The balance changes are
  stated once, on the service methods these endpoints call.
- StockEndpoints.PostStockIn: the same holds for the balance change of the IN row.

## Findings

| source | as written | input that shows it | evidently intended | confidence | as-written member | corrected member |
|---|---|---|---|---|---|---|
| app/services/purchase_request.py:72-78 | the next number is the organisation's current row count plus one | organisation with PR-00001 (a DRAFT older than 30 days whose items were emptied by an update) and PR-00002 (SUBMITTED); the cleanup deletes PR-00001; the next create gets count 1 + 1 = PR-00002, which the unique (org_id, request_number) index refuses | a number not yet held in the organisation, e.g. one past the highest used | medium, not executed | Cleanup.CountBasedNumberCollidesAfterCleanup | RequestNumbers.NextRequestNumberIsFresh |
| app/jobs/cleanup.py:30-32 | each stale draft is deleted, but its item rows are not; `request_id` on items is non-null and the relationship has no delete cascade, so the commit is refused, the exception is logged, and nothing is deleted | one DRAFT created 31 days ago with one item (every request created through the API has at least one) | stale drafts are deleted together with their items | medium, not executed | Cleanup.CleanupAsWrittenKeepsDraftWithItems | Cleanup.ScheduledCleanup |

For the first row, the rest of the model uses `NextRequestNumber`. `CountBasedAgreesWhileDense`
proves that the two numberings agree as long as no request has been deleted. For the second
row, the corrected job deletes each selected draft with its item rows. The invariant
`PurchaseRequests.Consistent` (every item row belongs to an existing request) is then kept.
