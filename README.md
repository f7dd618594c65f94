# Rental dashboard: derived lists, exports, forms and URL rules in Dafny

This project models the client-side logic of a property-management dashboard. The dashboard
keeps properties, tenants, leases, payments and maintenance requests on a REST back end and
shows them as filtered, sorted and paginated lists. The model covers:

- **The four list hooks** (leases, payments, maintenance requests, tenants):
  - their filter state and its defaults, `setFilter` and `resetFilters`;
  - the `filtered` pipeline: drop archived items, a case-insensitive search over display
    fields, equality and date-range filters, then a stable sort on a copy;
  - the lease's computed status, which depends on the current time;
  - the payments statistics loop.
- **The exports**:
  - the CSV text of the payments, maintenance, tenants and archive pages, with every field
    quoted and every quote doubled, proved to read back as exactly its rows;
  - the PDF tables: row caps of 40 or 50, and the `x`/`y` cursor loops that place each cell.
- **The forms**: the zod schemas of the lease, property, tenant, payment, maintenance and
  quick-add forms, as parsers that report exactly the failing fields (each schema's keys are
  an enumeration, and a failed parse is the set of keys whose checks fail); the hand-written submit
  checks (end after start, occupied ≤ total); the default records the forms start from; the
  records the pages create.
- **The pages and tables**: payments pagination and its page cursor (a class); the
  `?status=` URL parameters; the expanded and selected `Set`s of the tables (classes); the
  archive toggles and restores; the badge classes; the sidebar counts.
- **The API client's local rules**: the URL `buildUrl` makes (a method with a loop over the
  query entries), the React Query keys, and how `request` classifies a response.

Dates are millisecond timestamps. Parsing a date string (`+new Date(s)`), `toISOString`,
`toLocaleString`, `toLocaleDateString` and `Number.prototype.toLocaleString` are passed in as
functions. The clock (`new Date()`, `Date.now()`) is a parameter `now`. Money and ids are
integers. An optional `archived?: boolean` is an `Option<bool>` that counts as set only when
it is `Some(true)`. An id filter counts as set when it is present and non-zero, and a string
filter when it is present and non-empty, matching JavaScript truthiness.

`Array.prototype.sort` is stable and the comparators used are consistent. So the sort is
modelled as a stable insertion sort (`StableSort.Sort`), and `StableSort.SortUnique` shows
that any stable ordered permutation equals it. Each pipeline is written as the source's chain
of conditional `.filter` steps, then proved equal to one filter by a `Keep` predicate that
states every active test, followed by the sort.

## Model

| member | source | states |
|---|---|---|
| LeasesData.CeilDiv | src/hooks/useLeasesData.ts:32 | `Math.ceil(a / b)` for a positive divisor: the least `q` with `a <= q * b` |
| LeasesData.ComputedStatus | src/hooks/useLeasesData.ts:29-37 | the derived status is one of Expired, Pending Renewal, Pending, Active |
| LeasesData.ComputedStatusThresholds | src/hooks/useLeasesData.ts:31-36 | with `d = end − now`: Expired iff `d <= −1 day`; Pending Renewal iff `−1 day < d <= 30 days`, whatever the stored status; Pending iff more than 30 days left and stored "Pending"; Active iff more than 30 days left and any other stored status |
| LeasesData.RecentlyEndedIsPendingRenewal | src/hooks/useLeasesData.ts:31-34 | a lease that ended less than 24 hours ago is still Pending Renewal, not Expired |
| LeasesData.SetFilter | src/hooks/useLeasesData.ts:82 | only the named key takes the new value; every other key keeps its value |
| LeasesData.SetFilterCommutes | src/hooks/useLeasesData.ts:82 | updates of different keys commute, and a later update of the same key overrides an earlier one |
| LeasesData.ResetFilters | src/hooks/useLeasesData.ts:83 | reset gives exactly the initial filter state of line 24 |
| LeasesData.OrderIsTotalPreorder | src/hooks/useLeasesData.ts:53-57 | each of the three comparators is total and transitive, so the stable sort is well defined |
| LeasesData.SelectedIsFilter | src/hooks/useLeasesData.ts:40-52 | the chain of filter steps keeps exactly the leases that pass every active test, in input order |
| LeasesData.FilteredSpec | src/hooks/useLeasesData.ts:39-59 | the output holds each passing lease as often as the input does and nothing else; it is ordered by the chosen key; tied leases keep their input order |
| LeasesData.FilteredMembership | src/hooks/useLeasesData.ts:39-59 | a lease is listed iff it is in the input and passes every active test |
| LeasesData.FilteredArchiveAndStatus | src/hooks/useLeasesData.ts:40-50 | with status "Archived" every listed lease is archived; without `showArchived` or that status none is; any other set status lists only leases whose computed status equals it |
| LeasesData.FilteredOrder | src/hooks/useLeasesData.ts:53-57 | "start": start dates ascending; "rent": rent non-increasing; "end" or anything else: end dates ascending |
| LeasesData.InitialHidesArchived | src/hooks/useLeasesData.ts:24 | under the initial or reset state no archived lease is listed |
| PaymentsData.SetFilter | src/hooks/usePaymentsData.ts:127-129 | only the named key changes |
| PaymentsData.SetFilterOverrides | src/hooks/usePaymentsData.ts:127-129 | setting a key to its current value is a no-op (and only then); a later update of a key overrides an earlier one |
| PaymentsData.ResetFilters | src/hooks/usePaymentsData.ts:131-143 | reset equals the initial state of lines 34-44 |
| PaymentsData.OrderIsTotalPreorder | src/hooks/usePaymentsData.ts:67-71 | the amount, status and date comparators are total and transitive |
| PaymentsData.SelectedIsFilter | src/hooks/usePaymentsData.ts:52-66 | the filter steps keep exactly the payments that pass every active test: the set filters AND-ed, the date range inclusive at both ends |
| PaymentsData.FilteredSpec | src/hooks/usePaymentsData.ts:50-73 | the output is a stable sorted permutation of exactly the passing payments |
| PaymentsData.FilteredMembership | src/hooks/usePaymentsData.ts:50-73 | soundness and completeness: a payment is listed iff it is in the input and passes every active filter |
| PaymentsData.FilteredOrder | src/hooks/usePaymentsData.ts:67-71 | "amount": non-increasing amounts; "status": ascending status strings; "date" or anything else: newest first |
| PaymentsData.ArchivedStatusFilterIsEmpty | src/hooks/usePaymentsData.ts:64 | the status filter "Archived" matches no payment whose status is one of the three stored ones, so the list is empty |
| PaymentsData.ComputeStats | src/hooks/usePaymentsData.ts:75-86 | the loop's counters equal the list length, the number of payments of each status, and the sum of the amounts |
| PaymentsData.StatusCountsBounded | src/hooks/usePaymentsData.ts:79-84 | completed + pending + overdue ≤ total, with equality when every status is one of the three |
| MaintenanceData.SetFilter | src/hooks/useMaintenanceData.ts:85-87 | only the named key changes |
| MaintenanceData.ResetFilters | src/hooks/useMaintenanceData.ts:88-90 | reset equals the initial state of lines 31-41 |
| MaintenanceData.OrderIsTotalPreorder | src/hooks/useMaintenanceData.ts:59-64 | the priority, status, cost and date comparators are total and transitive |
| MaintenanceData.PriorityOrderIsAlphabetical | src/hooks/useMaintenanceData.ts:60 | the priority sort is alphabetical, Critical < High < Low < Medium, not by severity |
| MaintenanceData.SelectedIsFilter | src/hooks/useMaintenanceData.ts:47-58 | the filter steps keep exactly the requests that pass every active test |
| MaintenanceData.FilteredSpec | src/hooks/useMaintenanceData.ts:46-66 | the output is a stable sorted permutation of exactly the passing requests |
| MaintenanceData.FilteredMembership | src/hooks/useMaintenanceData.ts:46-66 | a request is listed iff it is in the input and passes every test; a set tenant filter drops requests without a tenant; without `showArchived` no archived request is listed |
| MaintenanceData.FilteredOrder | src/hooks/useMaintenanceData.ts:59-64 | the orderings of the four sort keys; "cost" is non-increasing with a missing cost counted as 0; "date" puts newest first |
| TenantsData.SetFilter | src/hooks/useTenantsData.ts:71 | only the named key changes |
| TenantsData.ResetFilters | src/hooks/useTenantsData.ts:72 | reset equals the initial state of line 22 |
| TenantsData.OrderIsTotalPreorder | src/hooks/useTenantsData.ts:35-39 | the rent, payment-status and name comparators are total and transitive |
| TenantsData.PaymentOrderOfStatuses | src/hooks/useTenantsData.ts:37 | the payment sort puts Overdue before Paid before Pending |
| TenantsData.SelectedIsFilter | src/hooks/useTenantsData.ts:27-34 | the filter steps keep exactly the tenants that pass every active test |
| TenantsData.FilteredSpec | src/hooks/useTenantsData.ts:26-41 | the output is a stable sorted permutation of exactly the passing tenants |
| TenantsData.FilteredMembership | src/hooks/useTenantsData.ts:26-41 | a tenant is listed iff it is in the input and passes every active test |
| TenantsData.FilteredOrder | src/hooks/useTenantsData.ts:35-39 | "rent": non-increasing; "payment": ascending payment status; "name" or anything else: ascending name |
| TenantsData.InitialHidesArchived | src/hooks/useTenantsData.ts:22 | under the initial or reset state no archived tenant is listed |
| Text.Lower | src/hooks/useTenantsData.ts:29 | lowering keeps the length and maps each character by itself |
| Text.LowerIdempotent | src/hooks/useTenantsData.ts:29-31 | lowering twice is lowering once, and the result has no upper-case letter |
| Text.IncludesAt | src/hooks/useTenantsData.ts:31 | `includes` holds iff the needle occurs at some position of the text |
| Text.AnyFieldIncludesAt | src/hooks/useTenantsData.ts:30-31 | the search step keeps an item iff some present, non-empty field contains the search text, both lowered |
| Text.NatToStringRoundTrip | src/utils/paymentsExport.ts:14 | the decimal digits of a number read back as the number |
| Text.IntToStringInjective | src/utils/paymentsExport.ts:14 | `String(n)` is injective on integers, so an id cell names one id |
| Text.StrLeTotal | src/hooks/useTenantsData.ts:38 | the string order standing for `localeCompare` is total |
| Text.StrLeTransitive | src/hooks/useTenantsData.ts:38 | the string order is transitive |
| Text.StrLeAntisymmetric | src/hooks/useTenantsData.ts:38 | the string order is antisymmetric |
| StableSort.Sort | src/hooks/useTenantsData.ts:35-39 | the sort keeps the multiset of elements |
| StableSort.SortSorted | src/hooks/useTenantsData.ts:35-39 | the output is ordered by the comparator |
| StableSort.SortStable | src/hooks/useTenantsData.ts:35-39 | tied elements keep their input order |
| StableSort.SortSpec | src/hooks/useTenantsData.ts:35-39 | a permutation, ordered, and stable |
| StableSort.SortUnique | src/hooks/useTenantsData.ts:35-39 | any stable ordered permutation of the input is this sort's output, so the model agrees with every stable sort |
| StableSort.SortIdempotent | src/hooks/useTenantsData.ts:35-39 | sorting an already sorted list again changes nothing |
| Entities.IndexBy | src/hooks/useLeasesData.ts:26-27 | `new Map(list.map(x => [x.id, x]))` has every id of the list as a key, and each key maps to an element carrying it |
| Entities.IndexByLast | src/hooks/useLeasesData.ts:26-27 | a duplicated id maps to its last element |
| Entities.NameById | src/hooks/useLeasesData.ts:44 | `byId.get(id)?.name` (property and tenant lookups alike) is present iff the id is known, and is that record's name |
| Entities.NameOrId | src/utils/maintenanceExport.ts:6 | a reference cell is the record's name, or its id when the lookup fails; the same cell is built at src/pages/LeasesArchive.tsx:21-22, src/components/payments/PaymentsTable.tsx:82 and the tenants and payments exports |
| Entities.Restore | src/pages/TenantsArchive.tsx:82 | restore sends `archived: false` for the chosen id; the leases archive does the same at src/pages/LeasesArchive.tsx:101 |
| Entities.ArchiveToggle | src/components/maintenance/MaintenanceTable.tsx:79 | the request carries the record's id and the negation of its archived flag; the properties page sends the same at src/pages/Properties.tsx:169 |
| Csv.Escape | src/utils/paymentsExport.ts:22 | doubling the quotes never shortens a field, and leaves a quote-free field unchanged |
| Csv.Quote | src/utils/paymentsExport.ts:23 | every field is written between double quotes |
| Csv.ReadQuotedEscape | src/utils/paymentsExport.ts:22-23 | an escaped field followed by its closing quote reads back as the field |
| Csv.ReadLineRoundTrip | src/utils/paymentsExport.ts:23 | a line of quoted fields joined by "," reads back as those fields |
| Csv.ReadRowsRoundTrip | src/utils/paymentsExport.ts:23 | rows joined by "\n" read back as exactly those rows |
| Csv.TextInjective | src/utils/paymentsExport.ts:23 | distinct tables give distinct CSV texts |
| PaymentsExport.PropertyIdOf | src/utils/paymentsExport.ts:13 | a payment's property is its lease's property, or −1 when the lease is unknown |
| PaymentsExport.CsvRow | src/utils/paymentsExport.ts:11-20 | eight fields in header order; tenant name or tenant id; property name or "-" when the lease or property lookup fails |
| PaymentsExport.CsvRows | src/utils/paymentsExport.ts:9-21 | the header, then one row per payment in list order: `filtered.length + 1` rows of 8 fields |
| PaymentsExport.CsvText | src/utils/paymentsExport.ts:22-23 | the CSV text reads back as exactly the header and payment rows |
| PaymentsExport.PdfCells | src/utils/paymentsExport.ts:54-63 | all eight cells: tenant name or id, property name or "-", the lease as "#id", the amount as "KES " and its locale rendering, method, date-time, status and reference |
| PaymentsExport.PdfRows | src/utils/paymentsExport.ts:52 | at most the first 40 payments, in list order |
| PaymentsExport.ExportPdf | src/utils/paymentsExport.ts:47-66 | the header line and then one line per listed payment, each cell at its column's `x` and its line's `y` |
| PdfTable.LineY | src/utils/paymentsExport.ts:49-51 | every line sits at or below the header line |
| PdfTable.ColumnsIncrease | src/utils/paymentsExport.ts:48-50 | with positive widths the columns run strictly left to right from the margin |
| PdfTable.ColumnXIsSum | src/utils/paymentsExport.ts:50 | a column's left edge is the margin plus the widths of the columns before it |
| PdfTable.DrawLine | src/utils/paymentsExport.ts:64 | the `x` cursor loop puts cell `c` at `ColumnX(widths, c)` on the given line |
| PdfTable.LayoutTable | src/utils/paymentsExport.ts:49-66 | the `y` cursor loop gives the header at `y = 68` and row `r` at `68 + 16 (r + 1)`, each row's cells at their columns |
| MaintenanceExport.TenantCell | src/utils/maintenanceExport.ts:7 | "-" when the tenant id is missing or 0; otherwise the tenant name, or the id when the lookup fails |
| MaintenanceExport.CsvRow | src/utils/maintenanceExport.ts:4-12 | seven fields in header order; the cost is "-" when absent, else its digits |
| MaintenanceExport.CsvRows | src/utils/maintenanceExport.ts:4-12 | the header, then one row per request in order: `requests.length + 1` rows of 7 fields |
| MaintenanceExport.CsvText | src/utils/maintenanceExport.ts:13-14 | the CSV text reads back as exactly its rows |
| MaintenanceExport.PdfCells | src/utils/maintenanceExport.ts:34-42 | all seven cells: title, property, tenant, priority, status, the locale date submitted, and the cost as "KES …" or "-" |
| MaintenanceExport.PdfRows | src/utils/maintenanceExport.ts:32 | at most the first 50 requests, in list order |
| MaintenanceExport.ExportPdf | src/utils/maintenanceExport.ts:27-45 | the header line, then one line per listed request, placed by the cursors |
| PaymentsHelpers.IsPaymentArchived | src/utils/paymentsHelpers.ts:33-35 | true iff `archived` is true; a missing or false flag gives false |
| PaymentsHelpers.BadgeClassForStatus | src/utils/paymentsHelpers.ts:3-9 | green iff Completed, yellow iff Pending, red for anything else |
| PaymentsHelpers.BadgeClassForMethod | src/utils/paymentsHelpers.ts:11-19 | green iff M-Pesa, blue iff Bank Transfer, purple iff Card, gray for anything else |
| PaymentsHelpers.FormatAmountKES | src/utils/paymentsHelpers.ts:21-23 | "KES " followed by the locale rendering of the amount |
| Zod.EnumOr | src/utils/paymentsSchema.ts:7 | an absent enum value takes the default; a present one is accepted iff it is in the enum, and then kept |
| PaymentsSchema.Parse | src/utils/paymentsSchema.ts:3-11 | accepted iff the ids are positive integers, the amount is > 0, the method and status are in their enums or absent (then "Cash" and "Completed"), and the reference is non-empty; the date may be any string; a failure names exactly the failing fields |
| PaymentsSchema.ParseRoundTrip | src/utils/paymentsSchema.ts:3-11 | parsed values filled back into the form parse to the same values |
| MaintenanceSchema.ParseDocument | src/utils/maintenanceSchema.ts:13-19 | a document entry is accepted iff name, mimeType, size and dataUrl are present, the id being optional |
| MaintenanceSchema.ParseDocuments | src/utils/maintenanceSchema.ts:11-21 | the array is accepted iff every entry is, keeping their order |
| MaintenanceSchema.ParseTenantId | src/utils/maintenanceSchema.ts:6 | the tenant is accepted iff absent, NaN or a positive integer; absent and NaN both give no tenant |
| MaintenanceSchema.Parse | src/utils/maintenanceSchema.ts:3-22 | accepted iff the title is non-empty, the property a positive integer, the tenant as above, priority and status in their enums or absent (then "Low" and "Open"), the cost absent or ≥ 0, and the documents well formed; a failure names exactly the failing fields |
| MaintenanceSchema.DocumentsRoundTrip | src/utils/maintenanceSchema.ts:11-21 | parsed documents parse back to themselves |
| MaintenanceSchema.ParseRoundTrip | src/utils/maintenanceSchema.ts:3-22 | parsed values are a fixed point of the schema |
| LeasesPage.Parse | src/pages/Leases.tsx:37-45 | accepted iff property and tenant are positive integers, the unit is non-empty, both dates have ≥ 4 characters, rent ≥ 0, and the status is in the enum or absent (then "Active"); a failure names exactly the failing fields |
| LeasesPage.ParseRoundTrip | src/pages/Leases.tsx:37-45 | parsed values are a fixed point of the schema |
| LeasesPage.NewLeaseDefaults | src/pages/Leases.tsx:261-269 | the first property and tenant (or id 1), an empty unit, rent 0, "Active", today to today + 365 days |
| LeasesPage.NewLeaseNeedsUnit | src/pages/Leases.tsx:261-269 | the new-lease form as it opens is refused for its empty unit |
| LeasesPage.Prefix | src/pages/Leases.tsx:256-257 | `slice(0, n)` is the first `min(n, length)` characters |
| LeasesPage.EditDefaults | src/pages/Leases.tsx:252-260 | the lease's own values, the dates cut to their first ten characters |
| LeasesPage.RenewDefaults | src/pages/Leases.tsx:348-356 | property, tenant, unit and rent from the base lease; start at the base end date; end 365 days later; status "Active" |
| LeasesPage.WithIsoDates | src/pages/Leases.tsx:277 | only the two dates are rewritten to ISO form; every other field passes through |
| LeasesPage.DialogSubmit | src/pages/Leases.tsx:272-278 | schema errors first; then an end not after the start is an error on endDate and nothing is submitted; otherwise the values with ISO dates |
| LeasesPage.RenewSubmit | src/pages/Leases.tsx:358 | schema errors, otherwise the values with ISO dates, with no date-order check |
| LeasesPage.DialogSubmitOrdersDates | src/pages/Leases.tsx:273-277 | every lease the dialog submits ends after it starts |
| LeasesPage.RenewSkipsDateOrderCheck | src/pages/Leases.tsx:358 | a term the dialog refuses for its date order is accepted by the renewal form |
| LeasesPage.OnSubmit | src/pages/Leases.tsx:140 | an update of the edited lease's id when editing, otherwise a create, carrying the submitted values |
| LeasesPage.ApplyStatusParam | src/pages/Leases.tsx:62-70 | a `?status=` on the whitelist becomes the status filter; any other value or none changes nothing |
| LeasesPage.StatusLinkLists | src/pages/Leases.tsx:65-67 | after a whitelisted link every listed lease is archived ("Archived") or has that computed status |
| PropertiesPage.Parse | src/pages/Properties.tsx:21-31 | accepted iff name and location have ≥ 2 characters, the unit counts are integers ≥ 0, revenue ≥ 0, and the status is in the enum or absent (then "Active"); a failure names exactly the failing fields |
| PropertiesPage.ParseRoundTrip | src/pages/Properties.tsx:21-31 | parsed values are a fixed point of the schema |
| PropertiesPage.Submit | src/pages/Properties.tsx:210-216 | accepted iff the schema accepts and occupied ≤ total (equality allowed); otherwise schema errors, or an error on occupiedUnits |
| PropertiesPage.NewDefaults | src/pages/Properties.tsx:200-207 | empty name and location, zero units and revenue, "Active" |
| PropertiesPage.NewDefaultsNeedNameAndLocation | src/pages/Properties.tsx:200-216 | the blank form is refused for exactly its name and location |
| PropertiesPage.EditDefaults | src/pages/Properties.tsx:192-199 | the property's own values |
| PropertiesPage.EditUntouchedKeepsValues | src/pages/Properties.tsx:192-216 | a valid property saved unedited submits its own values |
| PropertiesPage.Visible | src/pages/Properties.tsx:49-52 | a property is listed iff it is in the list and either the archive is shown or it is not archived |
| PropertiesPage.HiddenArchiveListsOnlyActive | src/pages/Properties.tsx:50 | with the archive hidden, no listed property is archived and every unarchived one is listed |
| PropertiesPage.ShownArchiveListsAll | src/pages/Properties.tsx:50 | with the archive shown, the list is unchanged, order included |
| PropertiesPage.OnSubmit | src/pages/Properties.tsx:108-114 | an update of the edited id when editing; otherwise a create whose body carries `archived: false` |
| PropertiesPage.Apply | src/pages/Properties.tsx:85 | the stored property gets the requested flag and nothing else changes |
| PropertiesPage.ArchiveToggleFlips | src/pages/Properties.tsx:169 | one press moves the property to the other list, and a second press restores its visibility |
| PaymentsPage.PageSize | src/pages/Payments.tsx:29 | 10 rows in compact mode, 7 otherwise |
| PaymentsPage.TotalPages | src/pages/Payments.tsx:30 | at least 1 page; the fewest pages that hold all rows |
| PaymentsPage.PageData | src/pages/Payments.tsx:31 | at most `pageSize` rows; the page's slice; empty past the last page |
| PaymentsPage.PagesArePrefix | src/pages/Payments.tsx:31 | pages 1..k together are the first `k · pageSize` rows |
| PaymentsPage.PagesPartition | src/pages/Payments.tsx:30-31 | pages 1..totalPages concatenated are exactly the filtered list |
| PaymentsPage.Pager.constructor | src/pages/Payments.tsx:27-28 | page 1, compact off |
| PaymentsPage.Pager.Prev | src/pages/Payments.tsx:140 | one page back, never below 1 |
| PaymentsPage.Pager.Next | src/pages/Payments.tsx:141 | one page on, never past the last page |
| PaymentsPage.Pager.ToggleCompact | src/pages/Payments.tsx:34-36 | switching compact mode resets the page to 1 |
| PaymentsPage.Pager.FiltersChanged | src/pages/Payments.tsx:34-36 | a filter change resets the page to 1 |
| PaymentsPage.Pager.Rows | src/pages/Payments.tsx:31 | the page shows at most `pageSize` rows |
| PaymentsPage.StalePageIsEmpty | src/pages/Payments.tsx:34-36 | the page is not re-clamped when the list shrinks, so a page past the new last page shows nothing |
| PaymentsPage.ApplyStatusParam | src/pages/Payments.tsx:37-42 | any non-empty `?status=` becomes the status filter verbatim |
| PaymentsPage.ViewArchiveLinkListsNothing | src/pages/Payments.tsx:92 | the View Archive link sets status "Archived", which lists no payment |
| PaymentsPage.BulkConfirmDeletes | src/pages/Payments.tsx:153 | as written, bulk confirmation sends a permanent delete for every selected payment and no archive update |
| PaymentsPage.BulkConfirmDeletesExample | src/pages/Payments.tsx:153 | with payment 7 selected, bulk confirmation deletes 7 instead of archiving it |
| PaymentsPage.Confirm | src/pages/Payments.tsx:147-157 | corrected: −1 archives exactly the selected payments and clears the selection; any other id archives that payment |
| PaymentsPage.BulkOfOneIsSingle | src/pages/Payments.tsx:153-154 | corrected, bulk-confirming a one-payment selection sends what confirming that payment does; as written the two differ |
| IdSets.Toggled | src/components/payments/PaymentsTable.tsx:33-37 | the id changes membership and every other id keeps its own |
| IdSets.ToggleTwice | src/components/payments/PaymentsTable.tsx:33-37 | toggling an id twice restores the set |
| IdSets.TogglesCommute | src/components/payments/PaymentsTable.tsx:33-37 | toggles of two ids commute |
| IdSets.Checked | src/components/payments/PaymentsTable.tsx:75 | the row's id is in the new selection iff ticked; other ids are unchanged |
| IdSets.CheckedIsToggle | src/components/payments/PaymentsTable.tsx:75 | ticking an unticked box, or unticking a ticked one, is a toggle |
| PaymentsTable.IdsOf | src/components/payments/PaymentsTable.tsx:45 | exactly the ids of the rows on the page |
| PaymentsTable.Table.constructor | src/components/payments/PaymentsTable.tsx:31 | nothing expanded, nothing selected |
| PaymentsTable.Table.ToggleExpanded | src/components/payments/PaymentsTable.tsx:33-37 | the expanded set is toggled at the id; the selection is untouched |
| PaymentsTable.Table.SelectAll | src/components/payments/PaymentsTable.tsx:44-47 | ticked selects exactly the current page's ids; unticked empties the selection |
| PaymentsTable.Table.SelectRow | src/components/payments/PaymentsTable.tsx:74-76 | only the row's id is added or removed |
| PaymentsTable.ArchiveToggleArg | src/components/payments/PaymentsTable.tsx:99 | the archive action passes the negation of `isArchived` |
| MaintenanceTable.StatusClass | src/components/maintenance/MaintenanceTable.tsx:9-14 | green iff Completed, blue iff In Progress, yellow iff Pending, gray otherwise |
| MaintenanceTable.PriorityClass | src/components/maintenance/MaintenanceTable.tsx:15-20 | red iff Critical, orange iff High, yellow iff Medium, green otherwise |
| MaintenanceTable.Table.constructor | src/components/maintenance/MaintenanceTable.tsx:33 | nothing expanded |
| MaintenanceTable.Table.Toggle | src/components/maintenance/MaintenanceTable.tsx:34-38 | the expanded set is toggled at the id |
| MaintenanceTable.CostLine | src/components/maintenance/MaintenanceTable.tsx:94 | "-" without an estimate, otherwise "KES " and its locale rendering |
| MaintenanceTable.CellsAgreeWithPdf | src/components/maintenance/MaintenanceTable.tsx:92-94 | the detail row's property, tenant and cost read as the PDF export's cells |
| TenantsPage.CsvRow | src/pages/Tenants.tsx:25-27 | seven fields in header order; the property name or `String(propertyId)` |
| TenantsPage.CsvRows | src/pages/Tenants.tsx:25-27 | the header, then one row per listed tenant in order |
| TenantsPage.CsvText | src/pages/Tenants.tsx:28-29 | the CSV text reads back as exactly its rows |
| TenantsPage.ApplyStatusParam | src/pages/Tenants.tsx:39-51 | Active/Inactive sets that status and hides the archive; Archived clears the status and shows the archive; anything else changes nothing |
| TenantsPage.StatusLinkLists | src/pages/Tenants.tsx:42-45 | after an Active or Inactive link every listed tenant has that status and is not archived |
| TenantsPage.ArchivedLinkLists | src/pages/Tenants.tsx:46-49 | after the Archived link an archived tenant passing the other filters is listed |
| TenantsArchive.Archived | src/pages/TenantsArchive.tsx:16 | a tenant is in the archive list iff it is listed and archived |
| TenantsArchive.ArchivedMembership | src/pages/TenantsArchive.tsx:14-16 | the archive page lists a tenant iff the hook keeps it and it is archived |
| TenantsArchive.ReachHidesArchived | src/pages/TenantsArchive.tsx:39-49 | every filter state the page's filter bar can reach from the hook's defaults, through any sequence of `setFilter` on search, status, property or sort and `resetFilters`, keeps `showArchived` false |
| TenantsArchive.AlwaysEmpty | src/pages/TenantsArchive.tsx:14-16 | as written, the archive list is empty in every reachable filter state, whatever tenants are loaded |
| TenantsArchive.ArchiveFilters | src/hooks/useTenantsData.ts:27 | the corrected archive view's filters: `showArchived` on, and search, status, property and sort as the bar set them |
| TenantsArchive.ArchiveListMembership | src/pages/TenantsArchive.tsx:14-16 | corrected: a tenant is listed iff it is loaded, archived, and passes the search, status and property filters |
| TenantsArchive.ArchiveListAfterReset | src/pages/TenantsArchive.tsx:14-16 | after a reset the corrected list shows every archived tenant, which the as-written list never shows |
| TenantsArchive.CsvText | src/pages/TenantsArchive.tsx:20-27 | the tenants CSV of the archived tenants only, read back exactly |
| LeasesArchive.Archived | src/pages/LeasesArchive.tsx:15 | a lease is in the archive list iff it is listed and archived |
| LeasesArchive.ArchivedMembership | src/pages/LeasesArchive.tsx:14-15 | the archive page lists a lease iff the hook keeps it and it is archived |
| LeasesArchive.ArchivedStatusKeepsAll | src/pages/LeasesArchive.tsx:15 | with status "Archived" the archive filter removes nothing |
| LeasesArchive.InitiallyEmpty | src/pages/LeasesArchive.tsx:14-15 | under the hook's initial filters the archive list is empty |
| LeasesArchive.CsvRow | src/pages/LeasesArchive.tsx:20-27 | six fields; the last one is the computed status, not the stored one |
| LeasesArchive.CsvRows | src/pages/LeasesArchive.tsx:20-27 | the header, then one row per archived lease in order |
| LeasesArchive.CsvText | src/pages/LeasesArchive.tsx:28-29 | the CSV text reads back as exactly its rows |
| LeasesArchive.PdfCells | src/pages/LeasesArchive.tsx:39 | all six cells: property, tenant, unit, the period in locale dates, rent as "KES …" and the computed status |
| LeasesArchive.PdfRows | src/pages/LeasesArchive.tsx:34 | at most the first 50 archived leases, in order |
| LeasesArchive.ExportPdf | src/pages/LeasesArchive.tsx:38-39 | the header line and one line per listed archived lease, six columns each, placed by the cursors |
| TenantsDialog.Parse | src/components/tenants/TenantsDialog.tsx:12-20 | accepted iff the name has ≥ 2 characters, the unit ≥ 1, the phone ≥ 7, rent ≥ 0, the enums are met or absent (then "Active" and "Pending"), and the property is a positive integer; a failure names exactly the failing fields |
| TenantsDialog.ParseRoundTrip | src/components/tenants/TenantsDialog.tsx:12-20 | parsed values are a fixed point of the schema |
| TenantsDialog.NewDefaults | src/components/tenants/TenantsDialog.tsx:35-43 | blank name, unit and phone, rent 0, "Active", "Pending", and the first property's id or 1 |
| TenantsDialog.NewDefaultsRefused | src/components/tenants/TenantsDialog.tsx:35-43 | the blank form is refused for name, unit and phone, and for the property only when the first id is not positive |
| TenantsDialog.EditDefaults | src/components/tenants/TenantsDialog.tsx:27-34 | the tenant's own values |
| QuickAdd.ParseProperty | src/pages/QuickAdd.tsx:14-17 | accepted iff name and location have ≥ 2 characters |
| QuickAdd.ParseTenant | src/pages/QuickAdd.tsx:20-23 | accepted iff the name has ≥ 2 characters and the phone ≥ 7 |
| QuickAdd.ParsePayment | src/pages/QuickAdd.tsx:26-29 | accepted iff the tenant is a positive integer and the amount > 0 |
| QuickAdd.NewProperty | src/pages/QuickAdd.tsx:37-45 | zero units and revenue, "Active", not archived |
| QuickAdd.NewTenant | src/pages/QuickAdd.tsx:54-63 | property 1, empty unit, rent 0, "Active", "Pending", not archived |
| QuickAdd.NewPayment | src/pages/QuickAdd.tsx:72-81 | lease 1, "Cash", "Completed", dated now, reference "QK-" and the timestamp |
| QuickAdd.QuickPropertyPassesPropertyForm | src/pages/QuickAdd.tsx:37-45 | a quick property is one the full property form accepts unchanged |
| QuickAdd.QuickTenantRefusedByTenantForm | src/pages/QuickAdd.tsx:54-63 | a quick tenant is one the full tenant form refuses for its empty unit |
| QuickAdd.QuickPaymentPassesPaymentSchema | src/pages/QuickAdd.tsx:72-81 | a quick payment is one the payment schema accepts unchanged |
| SidebarCounts.ActiveCount | src/hooks/useSidebarCounts.ts:16 | between 0 and the list length; 0 for an empty list |
| SidebarCounts.ActivePlusArchived | src/hooks/useSidebarCounts.ts:16 | active plus archived records are all the records |
| SidebarCounts.SidebarCounts | src/hooks/useSidebarCounts.ts:11-24 | each badge counts the unarchived records; missing data counts 0; loading iff any query loads |
| SidebarCounts.TenantsBadgeMatchesPage | src/hooks/useSidebarCounts.ts:19 | the tenants badge equals the length of the tenants list under its initial filters |
| Api.Path | src/lib/api.ts:21 | `base/resource`, with `/id` appended iff the id is truthy |
| Api.ZeroIdAddressesCollection | src/lib/api.ts:21 | id 0 is falsy, so it addresses the collection |
| Api.SetParam | src/lib/api.ts:24 | `searchParams.set` leaves the other keys' pairs as they were and leaves exactly one pair for the key, carrying the new value |
| Api.SetParamFresh | src/lib/api.ts:24 | setting a key that is not yet present appends it |
| Api.DefinedSound | src/lib/api.ts:22-26 | every parameter comes from an entry whose value is defined, stringified |
| Api.DefinedComplete | src/lib/api.ts:22-26 | every defined entry shows up as a parameter |
| Api.DefinedKeys | src/lib/api.ts:22-26 | no parameter has a key that no entry has |
| Api.DefinedUnique | src/lib/api.ts:22-26 | entries with distinct keys give parameters with distinct keys |
| Api.BuildUrl | src/lib/api.ts:20-28 | the loop yields the path above and exactly the defined query entries, each key once, undefined values never |
| Api.ResourceKey | src/lib/api.ts:56 | `queryKeys.resource(n) = [n]` |
| Api.ByIdKey | src/lib/api.ts:57 | `queryKeys.byId(n, id) = [n, id]` |
| Api.ResourceKeyIsPrefix | src/lib/api.ts:56-57 | a resource's key is a prefix of its records' keys, and of no other resource's |
| Api.Classify | src/lib/api.ts:11-17 | a response that is not ok is a failure with "API error <status>: <body or statusText>"; ok with 204 is no content; otherwise the body is JSON |
| Api.FailureNamesStatus | src/lib/api.ts:13 | failures with different statuses carry different messages |

## Left out

- Network I/O is not modelled: `fetch` in `request`, JSON parsing, React Query's cache and
  invalidation, and the body of every `useMutation`. Requests are modelled as the values they
  send (create bodies, `{ id, archived }` updates) and as the URL they go to.
- Cascading and bulk operations are not modelled: `deleteTenantPermanent`,
  `deleteLeasePermanent`, `bulkMarkPaid`, and the `Promise.all` fan-out inside `bulkDelete`.
  The bulk confirmation is modelled only as the set of requests it sends.
- Browser and library side effects are not modelled: jsPDF calls other than `doc.text` (fonts,
  the title, the rule under it, `save`), `Blob`, object URLs, anchor-click downloads and file
  names. `generateTenantsPDF`, `generateLeasePDF` and `generatePaymentReceiptPDF` live in
  `src/utils/pdf.ts`, which is not part of this model.
- Locale behaviour is passed in as functions: `toLocaleString`, `toLocaleDateString`,
  `formatShortDate`, `formatDateTime` and `toISOString`.
- PaymentsData.Order: `localeCompare` is modelled as code-point lexicographic order. The
  status sort compares the capitalised ASCII status names, on which the two orders agree.
- TenantsData.Order: the default name sort (`a.name.localeCompare(b.name)`) is modelled as
  code-point order, which differs from a locale collation on ordinary names: the page lists
  "alice" before "Bob", the model puts "Bob" first because upper-case letters come before
  lower-case ones. The payment-status sort compares ASCII enum names and agrees.
- TenantsData.FilteredOrder: its "name" clause states code-point order, not the collation
  order the page shows, for the reason given for `TenantsData.Order`.
- Text.Lower: `toLowerCase` is modelled on ASCII letters only.
- LeasesData.ComputedStatus: `new Date(string)` is a function from strings to integer
  milliseconds. An unparseable date, which gives NaN and fails every comparison in the source,
  is not modelled; the same holds for the date filters and date sorts of the other hooks.
- The clock is a parameter (`now`, `nowMs`, `nowIso`). Each `computedStatus` call reads the
  clock anew in the source; the model uses one `now` for a whole list.
- Floating point is not modelled: the occupancy percentages of the properties page are left out.
- Entities: money amounts are integers. `Zod.Num` keeps only the floor of a non-integer form
  input, which is enough for every sign test the schemas make.
- Api.Stringify: numbers are integers here, so the decimal form of non-integer numbers is not
  modelled.
- Api.BuildUrl: the URL is modelled as its path plus its list of search parameters.
  `URL.toString` and percent-encoding are left out, and `API_BASE_URL` (read from the
  environment) is the parameter `base`.
- MaintenanceSchema.ParseTenantId: accepts NaN and turns it into "no tenant", which is what the
  `.or(z.literal(NaN)).transform(...)` chain is written to do. The installed zod version is not
  part of the source; a version that compares literals with `===` would refuse NaN instead.
- MaintenanceTable: the `title` tooltips are left out. They use `||` where the visible cells use
  `??`, and only the visible cells are modelled.
- The filter components, layouts, the dashboard widgets, notifications, settings and the JSX of
  the forms carry no logic beyond wiring, and are left out. The remaining entity types
  (settings, notifications, lease documents) are left out for the same reason.

## Findings

| source | as written | input that shows it | evidently intended | confidence | as-written member | corrected member |
|---|---|---|---|---|---|---|
| src/pages/Payments.tsx:153 | confirming the "Archive selected payments?" dialog calls `bulkDelete`, which permanently removes each selected payment through `api.remove` | confirm id −1 with payment 7 selected: a delete of 7 is sent and no archive update | each selected payment is archived (`archived: true`), as the dialog's title and message say and as the single-payment branch does | not executed | PaymentsPage.BulkConfirmDeletesExample | PaymentsPage.Confirm |
| src/pages/TenantsArchive.tsx:14-16 | the page takes `filtered` from its own `useTenantsData()` instance, whose `showArchived` starts false and which no control on the page sets, so archived tenants are dropped before `.filter((t) => t.archived)` keeps only archived ones | any loaded list holding an archived tenant, under the default or any reachable filters: the page shows no rows | the archive lists every archived tenant that passes the search, status and property filters, as the leases archive does with its "Archived" status | not executed | TenantsArchive.AlwaysEmpty | TenantsArchive.ArchiveListMembership |
