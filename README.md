# Point-of-sale stock ledger — Dafny model

The system is a point-of-sale and inventory application for a shop with
several branches (sucursales). Each branch keeps its own stock counter for
every product (`ProductStock`) and for every product variant
(`VariantStock`). Every stock change is written to an append-only log of
inventory movements (ENTRADA, SALIDA, AJUSTE).

The server actions model the database as one `Ledger.Store` object with a
preserved invariant (`Ledger.Store.Valid`, which is `Ledger.ValidState` and
`Ledger.HistoryKnown` of its fields):

- no counter is negative;
- a product counter's product and a variant counter's variant exist (a
  counter's branch is not constrained);
- a variant's product exists, and so do the branches that users and sales
  name;
- every sale item and every logged movement names an existing product
  (products are only ever deactivated, never removed);
- branch names are unique;
- every id in use is below the single id counter `nextId`.

The actions, each a method on the store:

- `adjustInventory` is a manual adjustment of one counter at the acting
  user's branch.
- `processSale` validates an order and then, as one all-or-nothing
  transaction, stores the sale with its items and decrements one counter per
  line, logging one SALIDA per line. An item that names an unknown product or
  variant fails the item insert, before any stock is looked at.
- `createProduct`, `updateProduct`, `deleteProduct`, `restoreProduct`:
  - a create seeds a counter per branch for the product and for each variant;
  - an update keeps existing product counters, adds missing ones and
    regenerates every variant and its counters;
  - delete and restore only flip `active`.
- `createOrUpdateBranch` and `deleteBranch` keep names trimmed and unique,
  assign a new branch to its creator, and refuse to delete a branch that a
  user or a sale refers to.

Around the ledger sit the client-side rules, each in its own module:

- the sale screen's search and cart (`Pos`);
- the payment step (`Payment`);
- the inventory adjustment dialog (`AdjustDialog`);
- the price utilities (`Price`);
- the sales history filters and counters (`SalesHistory`);
- the reports dashboard (`Reports`);
- the product card and the product dialog (`ProductCard`, `ProductForm`);
- the catalogue list (`ProductsManager`);
- the request guard (`Middleware`).

Modelling choices:

- Money is a whole number (`int`) in one unit, the cents of the stored
  prices; percentages are `real`. A typed amount is read in that same unit:
  the text "150" is 150. A fractional entry such as "1.50", which the
  product form's `step="0.01"` inputs allow, reads as not a number.
- Server ids are `nat`, all drawn from `Store.nextId`. Client screens keep
  the string ids they receive.
- JavaScript's NaN becomes `None`. `Number(text)` is `Common.NumberOf` and
  `Number.parseInt` is `Common.ParseInt`.
- Code that updates state step by step is imperative Dafny:
  - the server actions are methods on the `Store`;
  - `processSale` runs its loop on copies and commits at the end;
  - the cart, the payment dialog and the adjustment dialog are classes;
  - the history and report loops are methods with loop invariants.
  Each method is proved against a specification function, and the
  properties are proved as lemmas about that function.

Three behaviours of the code worth knowing; the model follows the code:

- A rejected `adjustInventory` can still leave a new zero counter behind.
  The find-or-create runs before the negativity check and outside the
  transaction (`Inventory.RejectedSalidaKeepsNewRow`).
- `updateProduct` on an unknown id is refused before its deletes. The code
  runs the deletes first, but under the store invariant an unknown product
  has no variants, so they remove nothing.
- The product card's margin is over the cost (a markup), while
  `calcularMargenGanancia` is over the sale price. Both are modelled as
  written.

## Model

| member | source | states |
|---|---|---|
| Inventory.Precheck | app/actions/inventory.ts:13-60 | The checks before any write, in the action's order. It accepts exactly when the quantity is a positive integer, the reason is non-empty, there is a session, the user has a branch, the product exists and any variant belongs to it. On success it returns the user's branch. Schema failures and a missing session get their own errors. |
| Inventory.NewStock | app/actions/inventory.ts:74-81 | Definition of the new counter value: ENTRADA adds the quantity, SALIDA subtracts it, AJUSTE replaces the value by it. |
| Inventory.WithCounter | app/actions/inventory.ts:63-72 | Find-or-create: key `k` is present afterwards, at 0 if it was missing. Every other counter is unchanged and no other key is added. |
| Inventory.AdjustMovement | app/actions/inventory.ts:86-103 | The logged movement carries the request's product, variant, type and quantity, the user and the branch. A variant movement's reason gets " (Variante)" appended; a product movement keeps the reason unchanged. |
| Inventory.AdjustVariantCounter | app/actions/inventory.ts:62-106 | Variant path. The (variant, branch) counter is found or created at 0, then ENTRADA adds, SALIDA subtracts and AJUSTE sets. A negative result is refused, leaving only the created row. Otherwise exactly that counter takes the new value and exactly one movement is appended. |
| Inventory.AdjustProductCounter | app/actions/inventory.ts:108-160 | Product path. The same on the (product, branch) counter. |
| Inventory.AdjustInventory | app/actions/inventory.ts:21-160 | The whole action. A failed check changes nothing. Otherwise the variant or the product path runs as stated above. Branches, users, products, variants, sales and the id counter never change, and the store invariant (no negative stock) is preserved. |
| Inventory.FinalNonNegative | app/actions/inventory.ts:74-81 | From a non-negative start, no sequence of adjustments on one counter ever makes it negative. |
| Inventory.LogReplaysCounter | app/actions/inventory.ts:129-157 | Replaying exactly the logged movements from the starting value gives the counter's final value, with at most one movement per attempt. |
| Inventory.AjusteNeverRejected | app/actions/inventory.ts:13-19 | Under the schema (quantity a positive integer), an AJUSTE leaves the stock at 1 or more, so it is never refused. |
| Inventory.RejectedSalidaKeepsNewRow | app/actions/inventory.ts:114-135 | A SALIDA on a counter that did not exist is refused, yet the counter map has gained a zero row. |
| Sales.Validate | app/actions/sales.ts:11-49 | Accepts exactly the orders that pass the base schema, the cash rule (cash needs an amount received above 0) and the table rule (a table sale needs a non-blank table number). Each refinement has its own error. |
| Sales.CashOk | app/actions/sales.ts:32-41 | Definition of the cash refinement: a cash payment must carry an amount received above 0. |
| Sales.MesaOk | app/actions/sales.ts:43-49 | Definition of the table refinement: a sale at a table must carry a non-blank table number. |
| Sales.SaleItems | app/actions/sales.ts:102-108 | One stored item per line, in order, with the line's product, variant, quantity and price, and subtotal = price × quantity. |
| Sales.BuildSale | app/actions/sales.ts:89-120 | The stored sale has the seller, the branch and the items. The table number is kept only for a table sale and is null otherwise. |
| Sales.ItemsKnown | app/actions/sales.ts:102-108 | Definition of the item insert's relation check: every line names an existing product and, when it has one, an existing variant. |
| Sales.SaleHistoryKnown | app/actions/sales.ts:89-170 | A sale whose items all exist stores items that name existing products, and every movement its loop logs names an existing product. |
| Sales.DecrementLine | app/actions/sales.ts:124-170 | Definition of one line of the stock loop: a missing counter fails (NoVariantStock or NoProductStock), a short one fails with InsufficientStock, and otherwise the counter drops by the quantity and one SALIDA is logged. |
| Sales.DecrementAll | app/actions/sales.ts:123-171 | Definition of the loop: the lines in order, each on what the earlier ones left, the first failing line failing the order. |
| Sales.PrefixFailureIsFinal | app/actions/sales.ts:123-133 | Once some prefix of the order fails, the whole order fails with that error. |
| Sales.DecrementAllKeepsInvariant | app/actions/sales.ts:128-154 | A successful order leaves every counter non-negative and creates no counter. |
| Sales.DecrementAllLog | app/actions/sales.ts:136-170 | A successful order appends exactly one movement per line, in line order. Each is a SALIDA of the line's quantity whose reason names the sale ("Venta #id", plus " (variante)" on variant lines). Earlier movements are kept. |
| Sales.DecrementAllSucceedsIff | app/actions/sales.ts:123-171 | The in-order loop, each line checked against what earlier lines left, succeeds exactly when every line's counter exists and no counter is asked for more than it holds in total. Each counter then ends at its value less its whole demand, and counters at other branches are untouched. |
| Sales.RunLines | app/actions/sales.ts:123-171 | The transaction loop over copies of the counters and the log computes exactly the order's specification `DecrementAll`. |
| Sales.ProcessSale | app/actions/sales.ts:71-174 | Any failure (schema, seller without a branch, an item naming an unknown product or variant, missing or short counter) leaves the store untouched, and each failure has its error in that order. It succeeds exactly when the order validates, the seller has a branch, every item exists and `DecrementAll` succeeds. On success the counters and log are those of `DecrementAll`, exactly one sale is appended under a fresh id, and the store invariant holds. |
| Branches.NormalizeAddress | app/actions/branch.ts:53-53 | `address?.trim() \|\| null`: present exactly when the address is given and not blank, and then it is the trimmed, non-empty text. |
| Branches.PutKeepsUnique | app/actions/branch.ts:38-73 | Writing a row keeps branch names unique exactly when no other branch already carries its name. |
| Branches.TakenFresh | app/actions/branch.ts:38-66 | For an id not yet in the table, the update's "other branch with this name" test and the create's "any branch with this name" test agree. |
| Branches.Assigned | app/actions/branch.ts:78-94 | After a create, an existing creator points to the new branch. Every other user, and every other field, is unchanged. |
| Branches.UnknownCreatorChangesNothing | app/actions/branch.ts:78-94 | An absent or unknown creator leaves the users table as it was. |
| Branches.SaveOutcome | app/actions/branch.ts:18-97 | The action's answer. Each of the four errors (blank name, unknown id, other branch with the name on update, any branch with the name on create) happens exactly under its condition. On success the id is the given one on update and a fresh one on create. |
| Branches.SaveKeepsUnique | app/actions/branch.ts:38-73 | A successful save never breaks name uniqueness, and a create's id is not in the table yet. |
| Branches.PutKeepsValid | app/actions/branch.ts:49-94 | Such a write, with users pointing only at existing branches, preserves the store invariant. |
| Branches.CreateOrUpdateBranch | app/actions/branch.ts:18-114 | The result is `SaveOutcome`. A failure leaves the branches, users and id counter unchanged. An update rewrites only the named row (trimmed name, normalised address) and touches no user. A create inserts a row under a fresh id and assigns it to the creator. |
| Branches.UserCountPositive | app/actions/branch.ts:146-146 | The user count for a branch is positive exactly when some user belongs to it. |
| Branches.SaleCountPositive | app/actions/branch.ts:147-147 | The sale count for a branch is positive exactly when some sale was made there. |
| Branches.GuardIsReferenced | app/actions/branch.ts:145-154 | The count guard refuses exactly the branches that some user or some sale refers to. |
| Branches.DeleteBranch | app/actions/branch.ts:141-162 | A missing id gets its own message. Any other failure, the reference guard included, ends in the one generic message and changes nothing. Otherwise exactly that branch is removed. |
| Products.EmptyToNone | app/actions/products.ts:54-57 | `x \|\| null`: present exactly when given and not empty, and then unchanged. |
| Products.NewVariants | app/actions/products.ts:60-67 | The input variants become rows under the ids `base`, `base + 1`, …, in input order, owned by the product, and no other ids. |
| Products.FillMissingSpec | app/actions/products.ts:150-164 | The update's branch loop never changes or drops an existing product counter. It adds counters only for this product at known branches, at the requested stock, and leaves no branch without one. |
| Products.FillMissingIdempotent | app/actions/products.ts:150-164 | Running the branch loop a second time changes nothing. |
| Products.EnsureProductStock | app/actions/products.ts:150-164 | The loop over the branches computes exactly that reconciliation. |
| Products.DropOwnedStock | app/actions/products.ts:113-115 | The first delete keeps exactly the variant counters of other products' variants, unchanged. |
| Products.DropVariants | app/actions/products.ts:118-120 | The second delete keeps exactly the other products' variants, unchanged. |
| Products.WithActive | app/actions/products.ts:189-209 | Only the product's `active` flag changes. Every field of every product, and every other product, is unchanged. |
| Products.RestoreUndoesDelete | app/actions/products.ts:189-209 | For an active product, a restore after a soft delete gives back the products as they were. |
| Products.NoVariantsNoSeed | app/actions/products.ts:85-97 | Without variants, the skipped variant-counter write would have added nothing. |
| Products.CreatedKeepsValid | app/actions/products.ts:42-101 | A create preserves the store invariant. |
| Products.UpdatedKeepsValid | app/actions/products.ts:107-183 | An update preserves the store invariant. |
| Products.CreateKeepsProducts | app/actions/products.ts:49-73 | A create stores the product, active, under an id no product had, and keeps every existing product. |
| Products.CreateSeedsProductCounters | app/actions/products.ts:76-82 | After a create, the new product has a counter at exactly the existing branches, each at the requested stock. Every older counter is unchanged. |
| Products.CreateCountsProductCounters | app/actions/products.ts:76-82 | A create adds exactly one product counter per branch. |
| Products.CreateNumbersVariants | app/actions/products.ts:60-67 | The i-th input variant becomes variant `p + 1 + i` of the new product `p`, and existing variants are unchanged. |
| Products.CreateSeedsVariantCounters | app/actions/products.ts:85-97 | Every new variant has a counter at every branch, at the requested stock, and these are the only counters added. |
| Products.CreateKeepsVariantCounters | app/actions/products.ts:85-97 | A create leaves every existing variant counter unchanged. |
| Products.CreateCountsVariantCounters | app/actions/products.ts:85-97 | A create adds exactly V × B variant counters (V variants, B branches). |
| Products.UpdateKeepsActive | app/actions/products.ts:123-147 | An update rewrites the product's fields but keeps its `active` flag, and keeps every other product. |
| Products.UpdateReplacesVariants | app/actions/products.ts:113-147 | An update removes every old variant of the product, keeps every other product's variants, and creates the input variants under fresh ids. |
| Products.UpdateReplacesVariantCounters | app/actions/products.ts:113-179 | An update drops the counters of the product's old variants and keeps every other variant counter unchanged. Each new variant gets a counter at every branch, at the requested stock, and no other counter appears. |
| Products.UpdateCountsVariantCounters | app/actions/products.ts:167-179 | After an update there are exactly the other products' variant counters plus V × B new ones (V variants, B branches). |
| Products.Commit | app/actions/products.ts:42-183 | Writes exactly the product tables and the id counter, keeping the store invariant. The branches, users, sales and movements are unchanged. |
| Products.CreateProduct | app/actions/products.ts:42-101 | An input failing the schema (empty name, price or cost not positive, stock negative) is refused with no change. Every valid input succeeds: the catalogue becomes `Created`, with the new product active, and the new id is returned. |
| Products.UpdateProduct | app/actions/products.ts:107-183 | An invalid input or an unknown id is refused with no change, each with its own error. A valid input on an existing id succeeds, and the catalogue becomes `Updated`. |
| Products.DeleteProduct | app/actions/products.ts:202-209 | An unknown id is refused. An existing id always succeeds, and only its `active` becomes false. |
| Products.RestoreProduct | app/actions/products.ts:189-196 | An unknown id is refused. An existing id always succeeds, and only its `active` becomes true. |
| Pos.FilteredProducts | components/pos-interface.tsx:49-60 | A blank search gives nothing. Otherwise at most 8 products, each from the catalogue, each with the lower-cased term in its lower-cased name or category name. |
| Pos.SearchShowsAllFewMatches | components/pos-interface.tsx:49-60 | While at most eight products match, every match is shown. |
| Pos.FindLine | components/pos-interface.tsx:70-74 | `findIndex`: the first line for the (product id, variant id) pair, or -1 exactly when none matches. |
| Pos.Total | components/pos-interface.tsx:125-131 | Definition of `total`: the sum over the lines of (price + variant adjustment) × quantity. |
| Pos.TotalItems | components/pos-interface.tsx:133-136 | Definition of `totalItems`: the sum of the quantities. |
| Pos.AddExistingPair | components/pos-interface.tsx:70-82 | Adding a pair already in the cart adds no line. That line's quantity rises by 1 only while it is below the product's stock, and every other line is unchanged. |
| Pos.AddNewPair | components/pos-interface.tsx:85-85 | Adding a new pair appends one line with quantity 1 at the end, with no stock check. |
| Pos.AddKeepsInvariant | components/pos-interface.tsx:65-89 | Adding keeps one line per pair and every quantity positive. |
| Pos.AddCountsOne | components/pos-interface.tsx:65-89 | Adding raises the item count by one, except on a line already at its product's stock. |
| Pos.QuantityUpdated | components/pos-interface.tsx:94-111 | A change to 0 or below removes exactly that line, the rest keeping their order. A change above the stock leaves the cart as it was. Otherwise only that line's quantity changes. |
| Pos.UpdateRespectsStock | components/pos-interface.tsx:104-107 | A quantity change never takes a line above its product's stock, unless the line is left as it was. |
| Pos.UpdateKeepsInvariant | components/pos-interface.tsx:94-111 | A quantity change keeps one line per pair and every quantity positive. |
| Pos.RemoveKeepsInvariant | components/pos-interface.tsx:116-118 | Removing a line keeps one line per pair and every quantity positive. |
| Pos.TotalItemsUpdate | components/pos-interface.tsx:133-136 | Changing one line's quantity changes `totalItems` by the difference. |
| Pos.CartToGlobal | components/pos-interface.tsx:141-163 | One item per line, in order. Each has the product id and quantity, the unit price (price + adjustment) and subtotal = price × quantity. The variant fields are null exactly when no variant is selected. |
| Pos.GlobalMatchesTotal | components/pos-interface.tsx:125-163 | The subtotals handed to payment add up to the cart's `total`. |
| Pos.Cart.constructor | components/pos-interface.tsx:40-40 | The cart starts empty. |
| Pos.Cart.AddToCart | components/pos-interface.tsx:65-89 | The cart becomes `Added` of the old cart. |
| Pos.Cart.UpdateQuantity | components/pos-interface.tsx:94-111 | The cart becomes `QuantityUpdated` of the old cart. |
| Pos.Cart.RemoveFromCart | components/pos-interface.tsx:116-118 | Only position i is removed; an index outside the cart removes nothing. |
| Pos.Cart.ClearCart | components/pos-interface.tsx:120-120 | The cart becomes empty. |
| Payment.CashReceived | components/payment-dialog.tsx:56-60 | `Number(cashAmount \|\| 0)`: an empty field reads as 0. |
| Payment.Change | components/payment-dialog.tsx:54-57 | The change is never negative and is 0 for card and transfer. For cash it is NaN exactly when the typed cash is not a number. Otherwise it is at least the amount received minus the total, and exactly 0 when the cash does not exceed the total (`Math.max(0, …)`). |
| Payment.CanProceed | components/payment-dialog.tsx:59-60 | Definition of `canProceed`: card and transfer always; cash only when the typed amount is a number at least the total. |
| Payment.EmptyCashCountsAsZero | components/payment-dialog.tsx:54-60 | With nothing typed, cash may proceed exactly when the total is at most 0. |
| Payment.ChangeWhenProceeding | components/payment-dialog.tsx:54-60 | Once cash may proceed, the change is exactly cash − total. |
| Payment.Payload | components/payment-dialog.tsx:65-70 | The data sent keeps the method. Card and transfer send null cash and null change. Cash sends the amount received and change = cash − total ≥ 0. |
| Payment.ConfirmedPaymentPassesCashRule | components/payment-dialog.tsx:59-70 | A confirmed payment of a positive total passes the sale action's cash rule. |
| Payment.PaymentDialog.constructor | components/payment-dialog.tsx:48-52 | The dialog opens on cash with an empty field. |
| Payment.PaymentDialog.ChooseMethod | components/payment-dialog.tsx:104-107 | Only the method changes. |
| Payment.PaymentDialog.TypeCash | components/payment-dialog.tsx:52-52 | Only the cash text changes. |
| Payment.PaymentDialog.HandleNext | components/payment-dialog.tsx:62-78 | Nothing is sent and nothing changes exactly when the sale may not proceed. Otherwise `Payload` is sent and the dialog resets to cash with an empty field. |
| AdjustDialog.QuantityRead | components/inventory-adjust-dialog.tsx:62-63 | `Number.parseInt(quantity \|\| "0")`: an empty field reads as 0. |
| AdjustDialog.Adjusted | components/inventory-adjust-dialog.tsx:60-64 | With no product the preview is 0. Otherwise it is stock + q for ENTRADA and stock − q for SALIDA, and NaN exactly when the quantity is NaN. |
| AdjustDialog.Preview | components/inventory-adjust-dialog.tsx:60-64 | Definition of `newStock`: `Adjusted` of the quantity as read from the field. |
| AdjustDialog.SubmitDisabled | components/inventory-adjust-dialog.tsx:125-125 | Definition of the button's `disabled`: while saving, or while the preview is a negative number; a NaN preview leaves it enabled. |
| AdjustDialog.EmptyQuantityPreview | components/inventory-adjust-dialog.tsx:60-64 | With the field empty the preview is the current stock. |
| AdjustDialog.PreviewIsServerStock | components/inventory-adjust-dialog.tsx:60-64 | The preview is the new stock the server action computes for the same kind and quantity. |
| AdjustDialog.AdjustedIsServerStock | components/inventory-adjust-dialog.tsx:60-64 | The same, for a quantity already read. |
| AdjustDialog.Submit | components/inventory-adjust-dialog.tsx:39-50 | No request without a product. Otherwise a product-level request (no variant), with the chosen kind (never AJUSTE), the product's id, the parsed quantity and the reason. An unreadable quantity becomes one the server's schema refuses. |
| AdjustDialog.EnabledSubmitNotNegative | components/inventory-adjust-dialog.tsx:125-125 | When the submit button is enabled and the request passes the schema, the server's new stock on the shown counter is not negative. |
| AdjustDialog.InventoryAdjustDialog.constructor | components/inventory-adjust-dialog.tsx:26-28 | The dialog opens on ENTRADA with empty quantity and reason. |
| AdjustDialog.InventoryAdjustDialog.ChooseKind | components/inventory-adjust-dialog.tsx:80-87 | Only the kind changes; it is ENTRADA or SALIDA by its type. |
| AdjustDialog.InventoryAdjustDialog.TypeQuantity | components/inventory-adjust-dialog.tsx:27-27 | Only the quantity text changes. |
| AdjustDialog.InventoryAdjustDialog.TypeReason | components/inventory-adjust-dialog.tsx:28-28 | Only the reason text changes. |
| AdjustDialog.InventoryAdjustDialog.OpenChanged | components/inventory-adjust-dialog.tsx:31-37 | Closing resets the kind to ENTRADA and clears quantity and reason. Opening changes nothing. |
| AdjustDialog.InventoryAdjustDialog.HandleSubmit | components/inventory-adjust-dialog.tsx:39-58 | The request sent is `Submit` of the current fields. |
| Price.Ganancia | lib/finance/price-utils.ts:6-11 | Zero when the quantity is 0 or the sale equals the cost. With a non-negative quantity it is non-negative above cost and non-positive below. |
| Price.GananciaAdditive | lib/finance/price-utils.ts:6-11 | Profit is additive in the quantity sold. |
| Price.Margen | lib/finance/price-utils.ts:16-21 | 0 when sales are not positive. Otherwise margin × sales = (sales − cost) × 100. |
| Price.MargenBounds | lib/finance/price-utils.ts:19-20 | With positive sales the margin is 100 at zero cost, at most 100 for a non-negative cost, and at least 0 for a cost within the sales. |
| Price.ValueOf | lib/finance/price-utils.ts:39-39 | `Number(val) \|\| 0`: a number counts as itself, a numeric text as its value, any other text as 0. |
| Price.SumarValores | lib/finance/price-utils.ts:38-40 | The sum of the empty list is 0. |
| Price.SumarValoresConcat | lib/finance/price-utils.ts:38-40 | The sum is additive over concatenation. |
| Price.SumarValoresSkipsText | lib/finance/price-utils.ts:38-40 | Texts that are not numbers add nothing. |
| Price.CostoInventario | lib/finance/price-utils.ts:45-49 | 0 when cost or stock is 0; non-negative for non-negative inputs. |
| Price.CostoIsLossAtZeroPrice | lib/finance/price-utils.ts:6-49 | The stock's cost is what selling it at price 0 would lose. |
| SalesHistory.FilteredSales | components/sales-history.tsx:67-104 | Exactly the sales satisfying all five filters, each kept sale satisfying them, as a subsequence of the list. |
| SalesHistory.NoFiltersKeepsAll | components/sales-history.tsx:67-104 | With every box at "all" and an empty search, every sale is listed in its original order. |
| SalesHistory.TableChoice | components/sales-history.tsx:89-94 | "With table" and "without table" each filter what "all tables" lists by `mesa` and by its negation. |
| SalesHistory.TableFilterPartitions | components/sales-history.tsx:89-94 | The two table choices split what "all tables" lists, in count and in revenue. |
| SalesHistory.Revenue | components/sales-history.tsx:128-131 | Definition of `totalRevenue`: the sum of the listed sales' totals. |
| SalesHistory.RevenuePartition | components/sales-history.tsx:128-131 | A predicate and its negation split the revenue between them. |
| SalesHistory.MethodCountsSum | components/sales-history.tsx:135-143 | The three per-method counts sum to the number of sales. |
| SalesHistory.PaymentCounts | components/sales-history.tsx:135-143 | The counting loop yields each method's count, and the three sum to the number of filtered sales. |
| SalesHistory.PopularMethod | components/sales-history.tsx:250-255 | The chosen method's count is the largest. Cash is chosen exactly when it ties or beats both; transfer only when it beats both strictly. |
| SalesHistory.CollectedIn | components/sales-history.tsx:53-59 | A value is collected exactly when some item of some sale yields it. |
| SalesHistory.CollectDistinct | components/sales-history.tsx:50-62 | The nested loops adding to a `Set` yield each distinct value once, in order of first appearance. |
| SalesHistory.AvailableProducts | components/sales-history.tsx:50-62 | Each non-empty product name sold appears exactly once, and nothing else appears. |
| SalesHistory.AvailableVariants | components/sales-history.tsx:109-123 | Empty when the product box is "all". Otherwise exactly the non-empty variant values sold with that product, each once. |
| SalesHistory.MatchingItemsExact | components/sales-history.tsx:154-164 | An item is counted exactly when it belongs to a filtered sale and is of the chosen product and variant. |
| SalesHistory.TallyPicks | components/sales-history.tsx:151-164 | The nested loops count the picked items and sum their price × quantity. |
| SalesHistory.ComputeVariantStats | components/sales-history.tsx:148-167 | Null exactly unless both the product and the variant are chosen. Otherwise the number of matching items and their Σ price × quantity. |
| Reports.SumOfPermutation | components/reports-dashboard.tsx:149-151 | Reordering the entries (as the sort does) does not change a sum over them. |
| Reports.TotalRevenue | components/reports-dashboard.tsx:92-95 | Definition of `totalRevenue`: the sum of the sale totals. |
| Reports.LineProfit | components/reports-dashboard.tsx:100-105 | Definition of one line's profit: `calcularGanancia(price, costo ?? 0, quantity)`. |
| Reports.TotalProfit | components/reports-dashboard.tsx:98-108 | Definition of `totalProfit`: the per-sale sums of the line profits, summed over the sales. |
| Reports.TotalProfitOverLines | components/reports-dashboard.tsx:98-108 | The nested reduce equals the sum over every line of every sale of (price − cost) × quantity, a missing cost counting as 0. |
| Reports.ProfitNonNegative | components/reports-dashboard.tsx:98-108 | No line sold below its cost means the total profit is not negative. |
| Reports.AvgMarginPct | components/reports-dashboard.tsx:192-196 | 0 when the revenue is 0 (or negative). Otherwise margin × revenue = profit × 100. |
| Reports.AvgMarginBounds | components/reports-dashboard.tsx:192-196 | A profit between 0 and the revenue gives a margin between 0 and 100. |
| Reports.LowStockProducts | components/reports-dashboard.tsx:113-116 | Exactly the products with fewer than 10 units, in list order. |
| Reports.GroupKeys | components/reports-dashboard.tsx:125-147 | The `Map` has one entry per distinct key, its keys in order of first occurrence. |
| Reports.GroupSum | components/reports-dashboard.tsx:125-147 | A field that an entry starts from its first record and that grows by each later record's amount ends as the sum over that key's records. |
| Reports.GroupLabel | components/reports-dashboard.tsx:161-185 | A field that is set to the key and kept when bumped equals the entry's key. |
| Reports.GroupTotal | components/reports-dashboard.tsx:161-185 | Summed over all entries, such a field gives the total over all records. |
| Reports.TopOfSorted | components/reports-dashboard.tsx:149-151 | `slice(0, 5)` of the sorted list takes entries from it, keeps all when there are at most five, and keeps none smaller than one it leaves out. |
| Reports.TopProducts | components/reports-dashboard.tsx:119-152 | The nested loops filling the `Map`, then the sort and slice, give the top five of the per-product table by revenue. |
| Reports.ProductGrouping | components/reports-dashboard.tsx:125-147 | One entry per distinct product id. Each entry's quantity, revenue and profit are the sums over that product's lines. |
| Reports.TopProductsShape | components/reports-dashboard.tsx:149-151 | topProducts has at most five entries, by non-increasing revenue, drawn from the per-product entries. It keeps all when there are at most five, and none it leaves out has more revenue than one it keeps. |
| Reports.SalesByCategory | components/reports-dashboard.tsx:155-189 | The loops and sort give the per-category table sorted by revenue. |
| Reports.CategoryGrouping | components/reports-dashboard.tsx:161-185 | One entry per category name, named after it. Its revenue is the sum of its lines' subtotals and its profit the sum of their profits. |
| Reports.CategoryTotals | components/reports-dashboard.tsx:155-189 | The ranking is sorted by non-increasing revenue. Its revenues add up to all subtotals and its profits to the total profit. |
| Reports.TopSellers | components/reports-dashboard.tsx:199-223 | The loop and sort give the per-seller table sorted by revenue. |
| Reports.SellerGrouping | components/reports-dashboard.tsx:205-218 | One entry per seller id. Its count is that seller's number of sales and its revenue the sum of their totals. |
| Reports.SellerTotals | components/reports-dashboard.tsx:199-223 | The ranking is sorted. Its counts add up to the number of sales and its revenues to the total revenue. |
| ProductCard.StockSumConcat | components/product-card.tsx:58-63 | The row sum is additive over concatenation. |
| ProductCard.StockSumNonNegative | components/product-card.tsx:58-63 | Non-negative rows have a non-negative sum. |
| ProductCard.VariantStock | components/product-card.tsx:145-148 | A variant's shown stock is the sum of its own rows, 0 with none. |
| ProductCard.VariantsTotalIsAllRows | components/product-card.tsx:58-62 | Summing per variant and then over the variants is summing every variant row. |
| ProductCard.TotalStock | components/product-card.tsx:58-63 | With variants, the sum of every variant's rows. Without, the sum of the product's own rows, 0 when it has none. |
| ProductCard.TotalStockIgnoresProductRows | components/product-card.tsx:58-62 | With variants, the product-level rows do not affect the total. |
| ProductCard.LowStock | components/product-card.tsx:65-65 | Definition of `lowStock`: the total stock is below the product's minimum, 10 when it has none. |
| ProductCard.LowStockDefault | components/product-card.tsx:65-65 | Without a minimum, low stock means fewer than 10 units. |
| ProductCard.Ganancia | components/product-card.tsx:67-67 | The profit per unit is `calcularGanancia` at quantity 1. |
| ProductCard.Margen | components/product-card.tsx:68-69 | 0 when the cost is not positive. Otherwise margin × cost = profit × 100. |
| ProductCard.MargenExamples | components/product-card.tsx:67-69 | Selling at cost shows 0; selling at twice the cost shows 100. |
| ProductForm.GetTotalStock | components/product-dialog.tsx:55-74 | 0 with no product. With variants, the sum of every variant's rows (a variant without rows adds 0). Without, the product's stock, or 0 when it has none. |
| ProductForm.DialogStockIsCardStock | components/product-dialog.tsx:55-74 | For a product with variants, the dialog shows the stock its card shows. |
| ProductForm.AmountText | components/product-dialog.tsx:85-86 | A missing or zero amount shows as empty. Any other amount shows as a text that reads back as itself. |
| ProductForm.LoadForm | components/product-dialog.tsx:79-118 | A new product opens the blank form with the first category and the default colour. An existing product's stock field reads back as `getTotalStock`, and its colour defaults to the default colour. |
| ProductForm.LoadVariants | components/product-dialog.tsx:94-116 | One row per product variant, in order, keeping its id, name and value. Its adjustment text reads back as the adjustment. A new product has none. |
| ProductForm.AddVariant | components/product-dialog.tsx:178-180 | Exactly one blank row (adjustment "0") is appended, the others unchanged. |
| ProductForm.RemoveVariant | components/product-dialog.tsx:182-184 | Exactly row i goes and the others keep their order; an index outside the list removes nothing. |
| ProductForm.RemoveAddedVariant | components/product-dialog.tsx:178-184 | Removing the row just added gives the rows back. |
| ProductForm.UpdateVariant | components/product-dialog.tsx:186-190 | Only the named field of row i changes. Its other fields, its id and every other row keep their values. |
| ProductForm.UpdateVariantUndo | components/product-dialog.tsx:186-190 | Typing the old text back undoes an edit. |
| ProductForm.PayloadVariants | components/product-dialog.tsx:133-137 | The variants sent keep name, value and the typed adjustment, and never carry an id. There is no payload exactly when an adjustment is not a number. |
| ProductForm.Payload | components/product-dialog.tsx:128-138 | The payload exists exactly when price, cost, stock and every adjustment are numbers. It then carries the form's texts and those numbers. |
| ProductForm.SubmitNumbers | components/product-dialog.tsx:128-138 | Numeric fields are sent as their values. |
| ProductForm.LoadedVariantsSent | components/product-dialog.tsx:94-137 | Rows loaded from a product are sent back as its own variants, without ids, so the server recreates them. |
| ProductForm.LoadThenSubmit | components/product-dialog.tsx:79-144 | Opening a product and saving it untouched sends its own name, price, cost, shown stock and variants. |
| ProductsManager.FilteredProducts | components/products-manager.tsx:39-55 | Exactly the products of the view that match the search and the category, as a subsequence of the list. |
| ProductsManager.EmptySearchMatches | components/products-manager.tsx:42-49 | The empty search matches every product. |
| ProductsManager.ViewsPartition | components/products-manager.tsx:39-40 | With the search empty and every category, the trash view is exactly the inactive products and the normal view the rest. Their lengths add up to the list's. |
| ProductsManager.CountByCategory | components/products-manager.tsx:60-62 | At most the list's length, and 0 exactly when no active product has that category. |
| ProductsManager.CountIsNormalView | components/products-manager.tsx:39-62 | A category's count is the length of the normal view with that category chosen and the search empty. |
| ProductsManager.SetActive | components/products-manager.tsx:99-122 | The list keeps its length. Products with the id get the flag; every other product is unchanged. |
| ProductsManager.SoftDelete | components/products-manager.tsx:99-103 | Definition of the soft delete's list update: `SetActive` to false. |
| ProductsManager.Restore | components/products-manager.tsx:118-122 | Definition of the restore's list update: `SetActive` to true. |
| ProductsManager.SoftDeleteMovesToTrash | components/products-manager.tsx:92-127 | After a soft delete the product is in the trash view and not in the normal one; after a restore the reverse. |
| ProductsManager.RestoreUndoesDelete | components/products-manager.tsx:92-127 | Restoring a product that was active before its deletion gives back the list as it was. |
| Middleware.Decide | middleware.ts:5-26 | A non-admin on a path starting with /admin goes to /pos, and an admin passes. The root sends an admin to /admin/productos and a seller to /pos, and lets any other role through. Any other path passes. |
| Middleware.Authorized | middleware.ts:29-29 | Definition of the `authorized` callback: any token will do. |
| Middleware.Guard | middleware.ts:4-36 | Paths outside the matcher pass. On the others, a request without a token is sent to sign in, and a request with one gets `Decide`. |
| Middleware.AdminPagesNeedAdmin | middleware.ts:11-35 | A request reaches an admin page exactly with an admin token. |
| Middleware.RootByRole | middleware.ts:16-25 | The root's decision for each role. |
| Common.Trim | app/actions/branch.ts:19-19 | `trim()`: a slice of the text with only white space cut from either side. It is empty exactly for a blank text, and otherwise neither end is white space. |
| Common.TrimIdempotent | app/actions/branch.ts:40-70 | Trimming a stored, already trimmed name changes nothing. |
| Common.ParseInt | components/inventory-adjust-dialog.tsx:48-48 | `Number.parseInt` on decimal text: NaN exactly when no digit follows the leading white space and sign. |
| Common.NumberOf | components/payment-dialog.tsx:54-60 | `Number(text)` on integer text: blank text is 0. The result is NaN exactly when the trimmed text, after an optional sign, is empty or holds a non-digit; otherwise it is the signed value of the digits. |
| Common.ParseIntNatToString | components/inventory-adjust-dialog.tsx:48-48 | `Number.parseInt(String(n))` is n for every natural number. |
| Common.NumberOfIntToString | components/product-dialog.tsx:85-99 | A number written out by `toString` reads back as itself. |
| Common.Dedup | components/sales-history.tsx:51-61 | `Array.from(new Set(...))`: the same elements, each once. |
| Common.SortDesc | components/reports-dashboard.tsx:149-151 | The descending sort is a permutation of its input, sorted by non-increasing key. |
| Common.TopSorted | components/reports-dashboard.tsx:149-151 | The first five of a sorted list are sorted, and there are five of them unless the list is shorter. |

## Left out

- Concurrency and transaction isolation: each server action is one sequential step on the store. `processSale`'s rollback is "work on copies, commit at the end". The non-transactional writes of `updateProduct` (deletes, then an update that could fail) are not modelled as partial failures.
- Prisma, zod and next-auth internals. Validation is predicates over the input, and the session is an explicit user id. zod reports every schema issue in one error; the model reports the first failing check.
- Error messages are modelled only where a property is about them (`Branches.Message`). Everywhere else an error is a datatype constructor.
- `console.log`, `revalidatePath`, `window.location.reload`, alerts, confirmation prompts, loading flags and React rendering are left out. They compute nothing the model states.
- Floating point: money is whole cents. `toFixed`, `Intl.NumberFormat` (`formatoMoneda`) and percentage rounding are left out.
- Number parsing, `Common.NumberOf`: reads integer texts only. Fractions, exponents and hexadecimal count as not a number.
- Report sums, `Reports.TotalRevenue` and `Reports.LineProfit`: the serialised records carry decimal fields as numeric strings, and the model takes each such field as the number it spells. The `Number(x || 0)` coercion of a non-numeric field to 0 and the `Number.isFinite` guard are left out.
- Products.CreateProduct: does not check that `categoryId` names an existing category. The source's insert refers to the category and fails on an unknown one; categories are not part of the store.
- Products.UpdateProduct: does not check `categoryId` either, for the same reason.
- Common.ParseInt: does not model the "0x" prefix, which `Number.parseInt` reads as hexadecimal ("0x10" is 16, "0x" is NaN, while the model reads both as 0). The dialog's number input cannot hold such text.
- Sale items' and movements' variants are not part of the invariant: `updateProduct` deletes a product's variants, and what the database does with history rows that name them is not visible in the code.
- Lower-casing, `Common.ToLower`: ASCII letters only. There is no Unicode case mapping.
- `Common.Trim`: knows ASCII white space, the no-break space and the byte-order mark, not every Unicode space.
- The HTML `required` and `min` attributes of the dialogs' inputs are left out. Only the handlers' own checks are modelled.
- `Pos.Cart.AddToCart`: does not model the search box being cleared after an add; the cart class holds only the lines.
- Report entry names and colours come from each group's first line. The model computes them that way, but only the category entry's name is stated (`Reports.CategoryGrouping`).
- `totalProducts`, `totalCategories` and `totalSales` are plain list lengths and are not stated separately.
- `Pos.Cart.UpdateQuantity`: requires an index inside the cart. The source reads `item.quantity` of the indexed line and would throw on an index outside it; its call sites pass the index of a rendered line.
- `ProductForm.UpdateVariant`: requires an index inside the list. On an index outside it the source does not throw but extends the list; its call sites (components/product-dialog.tsx:307, 313, 322) always pass the index of a rendered row.
- Pos.Cart.AddToCart and Pos.Cart.UpdateQuantity: the source copies only the array and then changes the line objects it shares with the previous state in place (`newCart[existingIndex].quantity++`, `item.quantity = newQty`). An updater run twice, as React's strict mode does, therefore moves the quantity twice. The model has value semantics, so it captures a single run of each updater and not this aliasing.
- `ProductForm.Payload`: when price, cost, stock or an adjustment is not a number, the source still sends the payload with NaN in that field and the server's `z.number()` schema (app/actions/products.ts:13-30) refuses it; the model sends nothing (`None`). Either way nothing is written, but the refused request itself is not modelled.
- `AdjustDialog.Submit`: a NaN quantity is sent as 0, a value the server's schema refuses exactly as it refuses NaN.
- Deleting a branch removes no counters. The database's foreign-key behaviour on delete is not modelled.
- The sign-in redirect of the authentication layer is one `SignIn` decision; its target URL is not modelled.
- `lib/serialize.ts` and the `serialize` helper of the sale action are left out: they are JSON round-trips driven by reflection.
- The sale action's returned, serialised sale is the new sale's id in the model.
- The user and category actions, the pages, the seed scripts and the components that only render or post are not part of this model.
