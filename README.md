# Car-parts dashboard core, in Dafny

This project models the logic at the heart of a car-parts inventory and sales
dashboard (a Next.js application backed by a MongoDB store), and proves what
that logic promises:

- **The data layer** (`Store`): the product, variant, sale and line-item
  records. The `products` and `sales` collections are an in-memory pair of
  sequences in the `Database` class. The module covers:
  - the sales analytics report: totals from the stored `total` and `profit`
    of each sale, the profit margin, the sale count, and the per-SKU table
    filled by nested loops into a dictionary;
  - the inclusive date-range query, newest first;
  - the low-stock and out-of-stock queries;
  - the unchecked stock decrement that recording a sale performs.
- **The command palette** (`Search`): grouped results narrowed by a
  case-insensitive substring query, the keyboard cursor, and the absolute
  index of each rendered item.
- **The notification list** (`Notifications`): mark one read, mark all read,
  delete by id, the unread count, and the header text and button that
  depend on it.
- **The inventory table** (`InventoryTable`): the row filter and the guard
  of the "Add stock" dialog.
- **The navigation bar** (`MainNav`): which route is highlighted for a
  pathname.
- **Shared modules.**
  - `Text` holds the JavaScript string built-ins the components rely on:
    `toLowerCase`, `includes`, `startsWith` and `Number.parseInt`.
  - `Seqs` holds the list operations: `filter`, `reduce`-style sums, and
    their permutation lemmas.

Conventions:

- Prices and money are `real`, quantities are `int`, and dates are integer
  timestamps.
- Products, variants and the line items' references to them carry ids
  (`nat`); sales carry none.
- `NaN` from `parseInt` is `None`.
- The current time of `create` is a parameter.

The two loops of the data layer are methods with loop invariants: the
analytics fold into a dictionary and the stock loop of `create`. Each is
proved against a function that specifies it, and lemmas state what those
functions promise. The component state that handlers replace lives in
classes. The notification handlers and `SetQuery`, `KeyDown` and
`MouseEnter` state their new state through specifying functions. The
simpler palette handlers (`ShowDialog`, `ToggleShortcut`, `Select`,
`Click`) state their effect on each field directly.

## Model

| member | source | states |
|---|---|---|
| Store.TotalsSnoc | src/lib/db.ts:218-219 | Each further sale adds exactly its stored `total` to total sales and its stored `profit` to total profit. |
| Store.ProfitMargin | src/lib/db.ts:220 | With positive total sales, margin × sales = profit × 100. Otherwise the margin is exactly 0. |
| Store.SkuSumsSnoc | src/lib/db.ts:235-237 | One more line item adds its quantity, revenue (quantity × charged price) and profit (quantity × (charged − cost)) to its own SKU's sums only. |
| Store.FirstIndex | src/lib/db.ts:225-233 | Returns the position of the first line item with a SKU. No earlier item carries that SKU. |
| Store.DistinctSkusSpec | src/lib/db.ts:222-233 | The SKU list holds every SKU of the items and nothing else, each SKU once. |
| Store.RowForSnoc | src/lib/db.ts:225-237 | One more item updates its SKU's row by its figures, or creates the row with its name if the SKU is new. Every other row is untouched. |
| Store.AddItemOwnRow | src/lib/db.ts:225-237 | After insert-if-absent-then-add, the item's SKU holds the row required for all items seen so far. |
| Store.AddItemOtherRows | src/lib/db.ts:225-237 | The same step leaves every other SKU's row equal to its required row for all items seen so far. |
| Store.TracksSnoc | src/lib/db.ts:225-237 | The inner-loop step keeps the dictionary and its key order in step with the items seen. |
| Store.AccumulateItem | src/lib/db.ts:225-237 | The loop body inserts a zero row named after the item if its SKU is absent, then adds the item's quantity, revenue and profit. A new key goes last in the order. |
| Store.AccumulateSale | src/lib/db.ts:224-238 | The inner loop over one sale's items keeps the dictionary equal to the rows required for all items seen. |
| Store.RowsInOrder | src/lib/db.ts:246 | Listing the dictionary in key-insertion order gives one row per distinct SKU, in first-occurrence order, each the required row. |
| Store.ComputeAnalytics | src/lib/db.ts:216-247 | The report's totals, margin, sale count (no status filter) and per-SKU table are exactly those the sales determine. |
| Store.AllItemsPermutation | src/lib/db.ts:223-224 | Reordering the sales leaves the multiset of line items unchanged. |
| Store.ItemOrderIrrelevant | src/lib/db.ts:224-237 | Any reordering of the line items gives the same SKUs and the same quantity, revenue and profit for each SKU. |
| Store.ReportIgnoresSaleOrder | src/lib/db.ts:218-237 | Reordering the sales changes neither the totals, the count, which SKUs have rows, nor any SKU's quantity, revenue or profit. |
| Store.ReportIsUnique | src/lib/db.ts:241-247 | At most one report fits a list of sales. |
| Store.EmptyReport | src/lib/db.ts:218-247 | No sales: all totals, the margin and the count are 0, and the table is empty. |
| Store.SameSkuMerges | src/lib/db.ts:225-237 | Two sales of one SKU give one row. Its quantity is the sum of both, and its name comes from the first sale. |
| Store.ConsistentTotals | src/lib/db.ts:218 | If each sale's stored total equals its items' revenue, total sales equals the revenue of all items. |
| Store.StoredTotalWins | src/lib/db.ts:218-219 | A stored total of 242 whose items come to 192 is reported as 242. The per-SKU rows still come from the items. |
| Store.InsertNewestFirstSpec | src/lib/db.ts:210 | Inserting into a newest-first list keeps it newest first and adds exactly that sale. |
| Store.SortNewestFirst | src/lib/db.ts:210 | The sort returns a permutation of its input ordered by non-increasing `createdAt`. |
| Store.SalesByDateRange | src/lib/db.ts:200-212 | Returns exactly the sales with start ≤ `createdAt` ≤ end, each as often as it is stored, newest first. |
| Store.OutOfStock | src/lib/db.ts:140-148 | Returns exactly the products with some variant at quantity 0, in store order. |
| Store.LowStock | src/lib/db.ts:130-138 | Returns exactly the products with some variant ≤ threshold and some (maybe another) variant > 0, in store order. The threshold defaults to 5. |
| Store.LowStockAcrossVariants | src/lib/db.ts:130-148 | A product with variants at 0 and 10 is both "low stock" and "out of stock", though no variant lies in 1..5. |
| Store.SoldOutIsNotLowStock | src/lib/db.ts:135 | A product whose variants are all at or below 0 is never low stock. |
| Store.IncVariantAt | src/lib/db.ts:181 | The positional `$inc` changes only the quantity of the first variant with the id, by the delta. The variant ids are unchanged. |
| Store.IncStockShape | src/lib/db.ts:175-183 | One update never changes any product id or variant id. |
| Store.IncStockAt | src/lib/db.ts:175-183 | One update changes only the quantity of the first variant with the id, in the first product with the id that has such a variant. |
| Store.StockAfterSale | src/lib/db.ts:174-184 | After a sale, each variant has lost exactly the units of the items that reach it. Repeats add up, there is no lower bound, and no other field changes. |
| Store.StockCanGoNegative | src/lib/db.ts:174-184 | Selling 3 of a variant holding 1 leaves -2. |
| Store.Database.constructor | src/lib/db.ts:38-41 | The store starts with the given collections. |
| Store.Database.Create | src/lib/db.ts:163-187 | The sale is appended stamped with the current time. Its items' stock decrements are then applied in order. |
| Store.Database.GetSalesByDateRange | src/lib/db.ts:200-212 | The sales of the closed window, each as often as stored, newest first. |
| Store.Database.GetAnalytics | src/lib/db.ts:214-248 | The report is exactly the one determined by the sales of the window. |
| Search.FilterGroupsSpec | src/components/search.tsx:72-87 | The empty query keeps the groups unchanged. Any other query keeps exactly the matching items in order, and never an empty group. |
| Search.NarrowFlatten | src/components/search.tsx:78-83 | Narrowing group by group and dropping empty groups lists the same items as filtering the flat list. |
| Search.ItemCountIsLength | src/components/search.tsx:179 | The summed item counts of the groups equal the length of the flattened list. |
| Search.AbsoluteIndexPosition | src/components/search.tsx:178-179 | An item's absolute index is in range, and the flattened list holds that item at that index. |
| Search.AbsoluteIndexIncreasing | src/components/search.tsx:178-184 | Buttons rendered later have larger absolute indices, so at most one is highlighted. |
| Search.ArrowDownIndex | src/components/search.tsx:119 | ArrowDown moves the cursor up by one unless it is on the last item, and keeps it in [-1, count - 1]. |
| Search.ArrowUpIndex | src/components/search.tsx:123 | ArrowUp moves the cursor down by one unless it is at 0 or -1, which stay put. |
| Search.MovesStayInRange | src/components/search.tsx:116-124 | Any run of keys keeps the cursor in [-1, count - 1]. |
| Search.NoResultsNoCursor | src/components/search.tsx:117-120 | With no results the cursor never leaves -1. |
| Search.Selection | src/components/search.tsx:127-129 | Enter selects an href exactly when 0 ≤ cursor < item count, and it is the highlighted item's href. |
| Search.CursorAfterEffect | src/components/search.tsx:72-87 | As written, the effect runs after every render: a non-empty query resets the cursor to -1 each time. |
| Search.ArrowDownUndoneByEffect | src/components/search.tsx:72-87 | As written, ArrowDown under the query "brake" is undone by the next effect run, so Enter selects nothing. |
| Search.Palette.constructor | src/components/search.tsx:23-26 | Mounts closed, with an empty query and no cursor. After the first effect run every group is shown. |
| Search.Palette.ShowDialog | src/components/search.tsx:59-61 | Opens the dialog and changes nothing else. |
| Search.Palette.ToggleShortcut | src/components/search.tsx:100-105 | Cmd/Ctrl+K flips `open` and changes nothing else. |
| Search.Palette.SetQuery | src/components/search.tsx:72-87 | Shows the query's results. The empty query keeps the cursor; any other resets it to -1. The palette invariant is kept. |
| Search.Palette.Select | src/components/search.tsx:63-69 | Closes the dialog and navigates to the href. |
| Search.Palette.KeyDown | src/components/search.tsx:112-136 | Arrow keys move the cursor as specified. Enter on a valid cursor selects its item; Escape closes. The invariant is kept. |
| Search.Palette.MouseEnter | src/components/search.tsx:189 | Hover puts the cursor on the hovered item's absolute index, which holds that item. |
| Search.Palette.Click | src/components/search.tsx:188 | A click selects the clicked item's href. |
| Notifications.MarkReadSpec | src/components/notifications-tab.tsx:62-66 | Only entries with the id change, and only their `read` flag becomes true. Length and order are kept, and doing it twice is doing it once. |
| Notifications.MarkAllReadSpec | src/components/notifications-tab.tsx:68-70 | Every entry's `read` becomes true and nothing else changes. It is idempotent and leaves nothing unread. |
| Notifications.NothingUnread | src/components/notifications-tab.tsx:68-76 | After marking all read the unread count is 0. |
| Notifications.DeleteSpec | src/components/notifications-tab.tsx:72-74 | Removes exactly the entries with the id and keeps the rest in order. The length drops by their number. |
| Notifications.MarkReadUnread | src/components/notifications-tab.tsx:62-76 | Marking read lowers the unread count by exactly the unread entries with the id. |
| Notifications.DeleteUnread | src/components/notifications-tab.tsx:72-76 | Deleting lowers the unread count by exactly the unread entries with the id. |
| Notifications.UnreadNeverRises | src/components/notifications-tab.tsx:62-76 | None of the three operations increases the unread count. |
| Notifications.PluralSuffix | src/components/notifications-tab.tsx:84 | The label gets an "s" exactly when the count is not 1. |
| Notifications.MarkAllHidesButton | src/components/notifications-tab.tsx:84-91 | After "Mark all as read" the button is hidden and the header reads "You have 0 unread notifications". |
| Notifications.InitialCounts | src/components/notifications-tab.tsx:19-60 | The initial list has two unread entries, one of them with id "1". |
| Notifications.SummaryOne | src/components/notifications-tab.tsx:84 | One unread entry reads "You have 1 unread notification". |
| Notifications.SummaryTwo | src/components/notifications-tab.tsx:84 | Two unread entries read "You have 2 unread notifications". |
| Notifications.InitialSummary | src/components/notifications-tab.tsx:19-84 | The tab opens with 2 unread notifications. Reading the first leaves 1, and the plural is dropped. |
| Notifications.NotificationsTab.constructor | src/components/notifications-tab.tsx:19-60 | The tab starts with the five initial entries. |
| Notifications.NotificationsTab.MarkAsRead | src/components/notifications-tab.tsx:62-66 | The list becomes its marked-read form, and the unread count does not rise. |
| Notifications.NotificationsTab.MarkAllAsRead | src/components/notifications-tab.tsx:68-70 | The list becomes all-read, and the unread count is 0. |
| Notifications.NotificationsTab.DeleteNotification | src/components/notifications-tab.tsx:72-74 | The list loses the id's entries, and no entry with the id remains. |
| InventoryTable.StatusName | src/components/inventory-table.tsx:52 | Each status is stored as one of "in-stock", "low-stock", "out-of-stock". |
| InventoryTable.StatusNamesDistinct | src/components/inventory-table.tsx:52 | Distinct statuses have distinct names. |
| InventoryTable.FilteredDataSpec | src/components/inventory-table.tsx:146-162 | A row is shown iff its text, category and status tests all hold, as often as it occurs, keeping the data's order. |
| InventoryTable.DefaultsKeepAll | src/components/inventory-table.tsx:132-162 | With the defaults "", "all", "all" every row is shown. |
| InventoryTable.TextMatchIgnoresCase | src/components/inventory-table.tsx:149-152 | Lower-casing the filter text changes no match. |
| InventoryTable.TextMatchOccurs | src/components/inventory-table.tsx:149-152 | A filter that occurs, up to case, in the name or the SKU matches. |
| InventoryTable.CategoryWildcardIsExact | src/components/inventory-table.tsx:155 | The category comparison ignores case, but only the exact "all" is a wildcard: "ALL" is compared like any name. |
| InventoryTable.StatusMatchIsExact | src/components/inventory-table.tsx:158 | The status test is exact: "low-stock" selects low-stock rows, and "Low-Stock" selects none. |
| InventoryTable.HandleAddStock | src/components/inventory-table.tsx:332-349 | Nothing happens without a selection. Stock is added iff `parseInt` gives a positive number, and then with that number and the product's name. Otherwise the input is invalid. |
| InventoryTable.AddStockAcceptsNumber | src/components/inventory-table.tsx:335-346 | A positive decimal number is accepted, and whatever non-digit follows its digits is ignored ("12abc" and "12x" add 12). |
| InventoryTable.AddStockRejectsNegative | src/components/inventory-table.tsx:335-341 | "-" followed by a decimal number is rejected. |
| InventoryTable.AddStockRejectsZero | src/components/inventory-table.tsx:335-341 | "0" followed by a non-digit other than `x` is rejected. |
| InventoryTable.AddStockRejectsText | src/components/inventory-table.tsx:335-341 | Input that does not start with a digit, white space or a sign, such as the empty field, is rejected. |
| MainNav.Highlights | src/components/main-nav.tsx:35-58 | The mobile menu and the desktop bar apply one test to the same five routes. |
| MainNav.RootOnlyExact | src/components/main-nav.tsx:36 | "/" is active only on the exact pathname "/". |
| MainNav.PrefixActivates | src/components/main-nav.tsx:36 | A non-root route is active on every pathname it is a raw prefix of. |
| MainNav.PrefixIgnoresSegments | src/components/main-nav.tsx:36 | The prefix need not end at a path segment: "/sales-x" highlights "/sales". |
| MainNav.ShortPathInactive | src/components/main-nav.tsx:36 | A pathname shorter than an href never activates it. |
| MainNav.EmptyPathHighlightsNothing | src/components/main-nav.tsx:13-58 | With the default pathname "" no route is highlighted. |
| MainNav.OwnPageOnly | src/components/main-nav.tsx:14-36 | On a route's own pathname a route is active iff it is that route. |
| MainNav.HighlightsOwnPage | src/components/main-nav.tsx:14-58 | On a route's own page exactly that route is highlighted. |
| Text.Lower | src/components/search.tsx:81 | Lower-casing keeps the length, maps each ASCII letter A-Z to its lower-case letter, keeps every other character, and leaves no upper-case ASCII letter. |
| Text.LowerIdempotent | src/components/inventory-table.tsx:149-155 | Lower-casing twice is lower-casing once. |
| Text.ContainsIff | src/components/search.tsx:81 | `includes` holds iff the substring occurs at some offset. |
| Text.ContainsEmpty | src/components/search.tsx:81 | Every string includes the empty string. |
| Text.TrimStart | src/components/inventory-table.tsx:335 | `parseInt` skips exactly the leading white space: the result is a suffix that starts with no white space, and every character dropped is white space. |
| Text.LeadingDigits | src/components/inventory-table.tsx:335 | `parseInt` reads the longest prefix of digits of the radix. |
| Text.ParseIntUnsigned | src/components/inventory-table.tsx:335 | Without white space or a sign in front, `parseInt` is its unsigned reading: that number, or NaN when there is none. |
| Text.ParseIntMinus | src/components/inventory-table.tsx:335 | A leading "-" negates the unsigned reading that follows, and gives NaN when that reading is NaN. |
| Text.ParseIntDecimal | src/components/inventory-table.tsx:335 | `parseInt` reads back the decimal form of a natural number, ignoring the non-digit that follows its digits (after a lone "0", one other than `x`). |
| Text.ParseIntNegative | src/components/inventory-table.tsx:335 | "-" followed by the decimal form of n reads as -n. |
| Text.ParseIntNoDigits | src/components/inventory-table.tsx:335 | Input that starts with no digit, white space or sign is NaN. |

## Left out

- The MongoDB client, connection promise, development-mode global cache and environment check are I/O. The collections are two sequences in `Store.Database`.
- Sales carry no `_id` in the model. `Store.Database.Create` returns the stored sale without the `_id` that `insertOne` generates, and two equal sales cannot be told apart. Product and variant ids are given, not generated.
- `new Date()` is the `now` parameter of `Store.Database.Create`.
- The insert-then-decrement sequence is not transactional in the store. The model runs it as one step.
- `ProductRepository.getAll`, `getById`, `create`, `update` and `delete`, and `SaleRepository.getAll`, `getById` and `update`, are thin wrappers over the store and are not modelled.
- The API route handlers are thin wrappers that return 201 or 500, and are not modelled.
- JavaScript floating point is not modelled. Prices, revenue, profit and the margin are exact `real` values, and quantities are `int`.
- Store.ComputeAnalytics: the per-SKU table lists SKUs in first-occurrence order, as `Object.values` does for ordinary string keys. It does not model the JavaScript rule that lists integer-like keys (a SKU such as "42") first in numeric order. It also does not model a SKU named after an `Object.prototype` member (such as "constructor"), for which the absent-key test misfires.
- Store.SortNewestFirst: sales with equal `createdAt` keep their stored order. The store leaves their order unspecified, so the model is more deterministic than the source.
- Store.IncStock: the positional update `variants.$` is modelled as the first matching product and, in it, the first variant with the id. Document order in the collection is the sequence order.
- Search: the list of search results is a parameter of `Search.Palette.constructor`, not the hard-coded mock data.
- Search: rendering, the dialog's focus timer and the registration of the `document` keydown listener are not modelled. The listener's effect is `Search.Palette.ToggleShortcut`. `router.push` is recorded in `visited`.
- Search.Palette.SetQuery: runs the filter effect once per query change, as its dependency on the query intends. The effect as written also runs after every other render; see Findings.
- Search.Palette.constructor: merges the mount (`filteredResults` starts empty) with the first effect run that fills it.
- Notifications: rendering and icons are not modelled.
- Text.Lower: `toLowerCase` is modelled on ASCII letters only. Other Unicode case mappings are not modelled.
- Text.ParseInt: models the no-radix form of `Number.parseInt` on the characters it reads. Its unsigned result is a mathematical integer, with no rounding of very long digit strings to a double.
- InventoryTable: the sample data is a parameter of `InventoryTable.FilteredData`.
- InventoryTable: the table's sorting, pagination, column visibility, and the view and edit dialogs are UI plumbing and are not modelled.
- InventoryTable.HandleAddStock: returns which toast is shown and whether the dialog closes. The source does not update the stock here either.
- The reports tab's simulated generation, the charts, and the sample-data presentational components are not part of this model.

## Findings

| source | as written | input that shows it | evidently intended | confidence | as-written member | corrected member |
|---|---|---|---|---|---|---|
| src/components/search.tsx:72-87 | The filter effect depends on `searchResults`, an array literal rebuilt on every render. So the effect runs after every render, and each run stores a fresh array in `filteredResults`, which renders again. With a non-empty query, each run also resets `activeIndex` to -1. | Query "brake", then ArrowDown. The cursor moves to 0, the re-render re-runs the effect, and the cursor goes back to -1. Enter then selects nothing. | The effect runs only when the query changes, so the cursor that ArrowDown sets survives until Enter. | not executed | Search.ArrowDownUndoneByEffect | Search.Palette.KeyDown |
