# Quickie point of sale: a Dafny model of the order, product and category core

Quickie is a small point-of-sale web app. Cashiers fill a cart from a product
catalogue and create an order. The server prices the order from its own
product table and asks a payment gateway for a QRIS payment request. The
client shows the QR code, can simulate the payment and can poll the order's
status. A paid order is later marked done, and a dashboard shows a sales
report. Products and categories are kept in tables that the admin pages
create, edit and delete.

This project models that core in Dafny:

- `common.dfy` (`Common`): ids, `Option`, `Result` and the API error kinds.
  - A zod validation failure is `BadRequest`.
  - A tRPC error code is `NotFound` or `UnprocessableContent`.
  - Anything that surfaces as INTERNAL_SERVER_ERROR is `InternalServerError(cause)`.
    The cause is a Prisma record-not-found, the plain `Error` of `checkOrderStatus`, or a failing gateway call.
- `pricing.dfy` (`Pricing`): the tax rule, shared by server and client.
- `tables.dfy` (`Tables`): the four tables as sequences of rows in table order, on one `Db` object.
  - `Db.Valid()` holds the database invariant: unique primary keys, and every order item belongs to an order.
  - The file also holds the row helpers: lookup of the first row with a key, filter, and removal.
- `order_router.dfy` (`OrderRouter`): `createOrder` as a method on `Db`, with its subtotal loop as a method.
  - The guards of `simulatePayment` and `checkOrderStatus`, each returning the gateway call it would make.
  - `finishOrder` as a method.
  - `getOrders` and `getSalesReport` as functions over the order table.
- `product_router.dfy`, `category_router.dfy`: the CRUD procedures as methods on `Db`, and the list queries as functions.
- `product_form.dfy` (`ProductForm`): the client-side product form schema as a validation function.
- `create_order_sheet.dfy` (`CreateOrderSheet`): the order sheet.
  - The displayed totals and the quantity stepper are functions.
  - The handlers are methods of a `CreateOrderSheet` object. The object holds the dialog flag and the data of the `createOrder` and `checkOrderStatus` mutations, plus the sequence of effects emitted so far: cart-store calls, closing the sheet, alerts and requests to the server.
  - The main result is `CartMatchesServer`. When the cart holds each product once, at its table price, the totals the sheet shows are the totals `createOrder` stores.

One behaviour of the status check is modelled as written. A successful
`checkOrderStatus` returns the gateway's payment-request object, not a
boolean. The sheet's callback clears the cart on any truthy value, so the
cart is cleared. But the sheet's `isPaid` is `orderPaid === true`, so it
never becomes true for that reply (`CreateOrderSheet.ReceiveStatusReply`).

## Model

| member | source | states |
|---|---|---|
| Pricing.TotalsOf | src/server/api/routers/order.ts:345-346 | tax is a tenth of the subtotal, the grand total is subtotal plus tax (= 1.1 × subtotal), and a non-negative subtotal gives a non-negative tax not above the grand total |
| Tables.IndexOf | src/server/api/routers/order.ts:336-338 | the lookup (`find` / `findUnique`) fails exactly when no row has the key; otherwise it gives a row with that key, and no earlier row has it |
| Tables.IndexOfUnique | src/server/api/routers/order.ts:404-412 | in a table with unique keys, looking up a row's own id finds that row |
| Tables.Filter | src/server/api/routers/order.ts:551-580 | a `findMany` with a `where`: a row is in the result exactly when it is in the table and satisfies the condition, and the result is no longer than the table |
| Tables.FilterMultiset | src/server/api/routers/order.ts:531-544 | a `findMany` with a `where` returns each row that satisfies the condition as often as it occurs in the table, and no other row |
| Tables.FilterSplit | src/server/api/routers/order.ts:562-580 | the rows that satisfy a condition and the rows that do not together number the whole table |
| Tables.UniqueRemove | src/server/api/routers/product.ts:81-85 | deleting a row keeps keys unique, and the ids present afterwards are the old ones minus the deleted row's |
| OrderRouter.RequestedIds | src/server/api/routers/order.ts:328 | the id list has one entry per requested item, in order, and contains exactly the requested product ids |
| OrderRouter.Resolve | src/server/api/routers/order.ts:325-331 | `findMany` with `id in [...]`: a product row is returned exactly when its id was requested; requested ids without a row yield nothing |
| OrderRouter.ResolveUnique | src/server/api/routers/order.ts:325-331 | rows resolved from a table with unique ids have unique ids, so duplicates in the request do not duplicate rows |
| OrderRouter.ResolveNothing | src/server/api/routers/order.ts:325-331 | an `in` list with no ids resolves no product, whatever the table holds |
| OrderRouter.FirstEntryWins | src/server/api/routers/order.ts:336-338 | the quantity used for a product (`QuantityOf`, the `find(...)!.quantity`) is that of the first request entry naming it, whatever later entries say |
| OrderRouter.ComputeSubtotal | src/server/api/routers/order.ts:333-343 | the `forEach` loop computes `Subtotal`: the sum over the resolved products of price × the first requested quantity (`QuantityOf`) |
| OrderRouter.SubtotalOfEmptyRequest | src/server/api/routers/order.ts:333-343 | requesting nothing gives a zero subtotal over any table |
| OrderRouter.QuantityOfAppend | src/server/api/routers/order.ts:336-338 | appending a request for a product not yet requested changes the found quantity of that product only |
| OrderRouter.ResolvedSubtotal | src/server/api/routers/order.ts:325-343 | the subtotal over the resolved rows equals the subtotal over the whole table: unrequested products contribute nothing |
| OrderRouter.SubtotalAppendUnlisted | src/server/api/routers/order.ts:333-343 | a request entry for a product that is not yet requested and is absent from the table does not change the subtotal |
| OrderRouter.SubtotalAppendListed | src/server/api/routers/order.ts:333-343 | a request entry for a product that is not yet requested and is present once in the table adds that product's price × quantity (a repeated entry would add nothing, since the first entry wins) |
| OrderRouter.ItemsFor | src/server/api/routers/order.ts:357-370 | one order item per resolved product, carrying the new order's id, the product's id, its price at creation time and the first requested quantity |
| OrderRouter.ItemsTotalIsSubtotal | src/server/api/routers/order.ts:340-369 | the stored items' price × quantity add up to the stored subtotal |
| OrderRouter.OneItemPerDistinctFoundId | src/server/api/routers/order.ts:357-370 | the number of order items equals the number of distinct requested ids that name an existing product |
| OrderRouter.EmptyRequestGivesZeroOrder | src/server/api/routers/order.ts:325-370 | an empty request passes validation, resolves no product and yields an AWAITING_PAYMENT order with zero subtotal, tax and grand total |
| OrderRouter.ExampleTotals | src/server/api/routers/order.ts:333-346 | one product at 10000 with quantity 2 gives subtotal 20000, tax 2000, grand total 22000 |
| OrderRouter.InsertOrderKeepsInvariant | src/server/api/routers/order.ts:348-370 | inserting an order with a fresh id and items that point to it keeps order ids unique and every item attached to an order |
| OrderRouter.UpdateOrderKeepsInvariant | src/server/api/routers/order.ts:377-385 | rewriting an order row under the same id keeps the invariant |
| OrderRouter.CreateOrder | src/server/api/routers/order.ts:310-393 | a quantity below 1 is rejected and nothing changes; otherwise exactly one order and one item per resolved product are appended, the order being `NewOrder` (status AWAITING_PAYMENT, the computed subtotal with its tax and grand total, no gateway ids, no `paidAt`, created now); if the gateway then fails the error surfaces with order and items already stored; otherwise only that order's external transaction id and payment method id are set, and the reply carries the order as first created, the item count and the QR string; products and categories never change |
| OrderRouter.SimulatePayment | src/server/api/routers/order.ts:395-426 | a non-uuid id is a validation error, a missing order is NOT_FOUND, otherwise the gateway is called with that order's payment method id and grand total |
| OrderRouter.CheckOrderStatus | src/server/api/routers/order.ts:429-463 | a non-uuid id is a validation error; the gateway is queried, with the order's external transaction id, exactly when the order exists and has `paidAt` set; a missing or unpaid order both end in the same internal error |
| OrderRouter.FinishOrderGuard | src/server/api/routers/order.ts:474-497 | validation error for a non-uuid id, NOT_FOUND exactly when the order is missing, UNPROCESSABLE_CONTENT exactly when it exists with `paidAt` unset, otherwise the order's row; the status is not checked |
| OrderRouter.MarkDone | src/server/api/routers/order.ts:499-506 | only the status of that row changes, and it becomes DONE |
| OrderRouter.FinishOrder | src/server/api/routers/order.ts:465-507 | on every error the tables are unchanged; on success only that order's status becomes DONE |
| OrderRouter.FinishOrderTwice | src/server/api/routers/order.ts:492-506 | a finished order passes the guard again, and finishing it twice leaves the same table as finishing it once |
| OrderRouter.ParseStatusFilter | src/server/api/routers/order.ts:512 | the status (or the default when omitted) is accepted exactly when it is "ALL" or one of the three statuses, otherwise it is a validation error |
| OrderRouter.SelectAllKeepsAll | src/server/api/routers/order.ts:517-529 | with "ALL" no `switch` case sets a condition, so every order is kept |
| OrderRouter.ListOrders | src/server/api/routers/order.ts:517-545 | a summary (id, grand total, status, paidAt, and `ItemCount`, the number of order items pointing to the order) is listed exactly for the orders the filter selects, one summary per selected row in table order, so none is listed twice; with "ALL" it is every order in table order |
| OrderRouter.GetOrdersAsWritten | src/server/api/routers/order.ts:509-546 | as written (zod 3 semantics), the call succeeds exactly when the status, or the default "All" when omitted, passes the enum check; a given status other than "ALL" or one of the three statuses is a validation error, and any given status gives the same result as the corrected `GetOrders`, so the two differ only when the status is omitted |
| OrderRouter.OmittedStatusRejectedAsWritten | src/server/api/routers/order.ts:512 | as written, under zod 3's `.default` (which passes the substituted default through the enum), omitting the status is a validation error |
| OrderRouter.GetOrders | src/server/api/routers/order.ts:509-546 | with the default "ALL": omitted or "ALL" lists every order, a concrete status lists the orders with that status, anything else is a validation error |
| OrderRouter.OmittedStatusListsEveryOrder | src/server/api/routers/order.ts:512-545 | with the corrected default, omitting the status lists every order's summary, in table order |
| OrderRouter.GetOrdersByStatus | src/server/api/routers/order.ts:519-545 | a concrete status lists exactly the orders that have that status, one summary per such row in table order, each order as often as it occurs in the table (once, since ids are unique) |
| OrderRouter.DoneListingMatchesReport | src/server/api/routers/order.ts:526-593 | `getOrders` with status DONE lists as many orders as `getSalesReport` counts as completed |
| OrderRouter.GetSalesReport | src/server/api/routers/order.ts:548-600 | revenue is `SumGrandTotals` over the paid orders; the ongoing (status ≠ DONE) and completed (status DONE) counts add up to the number of orders |
| OrderRouter.SalesReportFixture | src/server/api/routers/order.ts:551-599 | for a paid done order, a paid ongoing order and an unpaid ongoing order: revenue is the two paid grand totals, 2 ongoing, 1 completed |
| OrderRouter.SumAppend | src/server/api/routers/order.ts:588-590 | the revenue `reduce` (`SumGrandTotals`, a left fold from 0) adds each further paid order's grand total |
| OrderRouter.RevenueAgrees | src/server/api/routers/order.ts:551-590 | two order tables that agree row by row on `paidAt` being set and on the grand total have the same revenue |
| OrderRouter.MarkDoneKeepsRevenue | src/server/api/routers/order.ts:551-560 | marking an order DONE leaves the revenue (sum of grand totals of paid orders) unchanged |
| OrderRouter.MarkDoneAddsCompleted | src/server/api/routers/order.ts:573-593 | marking a not-yet-DONE order DONE adds one completed order |
| OrderRouter.FinishOrderReport | src/server/api/routers/order.ts:499-506 | a successful `finishOrder` on an order not yet DONE moves one order from ongoing to completed and keeps revenue |
| OrderRouter.NewOrderReport | src/server/api/routers/order.ts:348-355 | a newly created order adds one ongoing order, no completed order and no revenue |
| ProductRouter.CategoryOf | src/server/api/routers/product.ts:17-22 | the joined category is absent exactly when no category has that id; otherwise it is that row's id and name |
| ProductRouter.GetProducts | src/server/api/routers/product.ts:8-27 | every product in table order, with its id, name, price, image URL and its category's id and name |
| ProductRouter.CreateProduct | src/server/api/routers/product.ts:29-55 | a name shorter than 3, a price below 1000 or a non-URL image is rejected; connecting a missing category fails; otherwise exactly one product with the given fields is appended and returned; other tables unchanged |
| ProductRouter.DeleteProductById | src/server/api/routers/product.ts:72-88 | deleting a missing id fails; otherwise exactly that row is removed and returned, and no row with that id remains |
| ProductRouter.EditProduct | src/server/api/routers/product.ts:90-120 | the same name and price constraints; a missing product or category fails; otherwise only that row is replaced, with the given name, price and category and the placeholder image URL whatever it had |
| CategoryRouter.GetCategories | src/server/api/routers/category.ts:6-23 | every category in table order with its id, name and `ProductCount`, the number of products pointing to it |
| CategoryRouter.ProductCountBounds | src/server/api/routers/category.ts:14-18 | a category's product count is at most the table size, and is zero exactly when no product points to it |
| CategoryRouter.ProductCountAfterInsert | src/server/api/routers/category.ts:14-18 | adding a product raises its own category's count by one and no other |
| CategoryRouter.ProductCountAfterRemove | src/server/api/routers/category.ts:14-18 | removing a product lowers its own category's count by one and no other |
| CategoryRouter.CreateCategory | src/server/api/routers/category.ts:26-47 | a name shorter than 3 is rejected; otherwise exactly one category with that name is appended and returned |
| CategoryRouter.EditCategory | src/server/api/routers/category.ts:50-70 | a name shorter than 3 is rejected; a missing id fails; otherwise only that category's name changes |
| CategoryRouter.DeleteCategory | src/server/api/routers/category.ts:73-87 | a missing id fails; otherwise exactly that category is removed |
| ProductForm.CoerceNumber | src/forms/product.ts:10 | a number is kept, text is parsed, a missing value coerces to nothing valid |
| ProductForm.ValidateProductForm | src/forms/product.ts:3-13 | the form is accepted exactly when the name is text of 3 to 50 characters, the coerced price is at least 1000, the category id is text and the image URL is text passing the URL check; a refusal names exactly the failing fields; accepted values equal the inputs |
| ProductForm.AcceptedFormPassesServerCheck | src/forms/product.ts:3-13 | accepted form values with a whole-number price pass `createProduct`'s name, price and URL checks |
| ProductForm.LongNameOnlyFormRefuses | src/forms/product.ts:4-9 | a name longer than 50 passes the server's check but the form refuses it |
| ProductForm.MissingPriceRefused | src/forms/product.ts:10 | a missing price is always refused |
| CreateOrderSheet.CartSubtotalNonNegative | src/components/shared/CreateOrderSheet.tsx:101-103 | with no negative price or quantity the cart subtotal is not negative |
| CreateOrderSheet.CartTotals | src/components/shared/CreateOrderSheet.tsx:101-105 | the shown subtotal is the cart's `reduce` (`CartSubtotal`, price × quantity summed from the left), tax is subtotal × 0.1 and the total is subtotal + tax, ordered 0 ≤ subtotal ≤ total for a non-negative cart |
| CreateOrderSheet.DecrementedQuantity | src/components/shared/CreateOrderSheet.tsx:66 | the minus button never asks for a negative quantity: one less for a positive quantity, else 0 |
| CreateOrderSheet.StepperEffects | src/components/shared/CreateOrderSheet.tsx:66-75 | passing the button's value to `QuantityChangeEffects` (what `handleQuantityChange` emits): minus on quantity 0 or 1 removes the item and closes the sheet, otherwise lowers it by one; plus (`IncrementedQuantity`, quantity + 1) raises it by one; no effect touches another product and no update sets a quantity below 1 |
| CreateOrderSheet.OrderRequestOf | src/components/shared/CreateOrderSheet.tsx:165-170 | one request entry per cart item, in cart order, with its product id and quantity |
| CreateOrderSheet.CreateOrderSendsOneRequest | src/components/shared/CreateOrderSheet.tsx:159-171 | of `CreateOrderEffects` (what `handleCreateOrder` emits): an empty cart sends no request; a non-empty cart sends exactly one, requesting the cart's product ids in order |
| CreateOrderSheet.TableSubtotalIsCartSubtotal | src/components/shared/CreateOrderSheet.tsx:101-103 | the server's subtotal of the cart's request over the table equals the cart's own subtotal |
| CreateOrderSheet.CartMatchesServer | src/components/shared/CreateOrderSheet.tsx:101-105 | when the cart holds each product once at its table price, the subtotal, tax and grand total shown equal those `createOrder` computes |
| CreateOrderSheet.CreateOrderSheet.constructor | src/components/shared/CreateOrderSheet.tsx:98 | the sheet starts with the dialog closed, no created order, no status result and nothing emitted |
| CreateOrderSheet.CreateOrderSheet.HandleQuantityChange | src/components/shared/CreateOrderSheet.tsx:149-156 | appends `QuantityChangeEffects`: a non-zero quantity emits an update for that id only; zero removes that id and closes the sheet; nothing else changes |
| CreateOrderSheet.CreateOrderSheet.HandleCreateOrder | src/components/shared/CreateOrderSheet.tsx:159-171 | appends `CreateOrderEffects` of the cart: an empty cart only alerts; otherwise one `createOrder` request mirroring the cart is emitted |
| CreateOrderSheet.CreateOrderSheet.OnCreateOrderSuccess | src/components/shared/CreateOrderSheet.tsx:113-119 | alerts, opens the payment dialog and stores the reply |
| CreateOrderSheet.CreateOrderSheet.HandleRefresh | src/components/shared/CreateOrderSheet.tsx:174-180 | does nothing before an order exists; otherwise asks for that order's status |
| CreateOrderSheet.CreateOrderSheet.HandleSimulatePayment | src/components/shared/CreateOrderSheet.tsx:183-189 | does nothing before an order exists; otherwise asks to simulate that order's payment |
| CreateOrderSheet.CreateOrderSheet.OnSimulatePaymentSuccess | src/components/shared/CreateOrderSheet.tsx:122-127 | alerts and changes nothing else |
| CreateOrderSheet.CreateOrderSheet.OnCheckOrderStatusSuccess | src/components/shared/CreateOrderSheet.tsx:130-144 | a result that is `Truthy` (JavaScript truthiness) clears the cart and a falsy one emits nothing; the result is stored, and `ShowsPaid` (`PaidFlag`, `orderPaid === true`) holds exactly when it is the boolean `true` |
| CreateOrderSheet.CreateOrderSheet.ReceiveStatusReply | src/components/shared/CreateOrderSheet.tsx:136-144 | when the server's `checkOrderStatus` succeeds, its reply is the gateway's payment-request object: the callback clears the cart, and the sheet still does not show the order as paid |
| CreateOrderSheet.CreateOrderSheet.HandleClosePaymentDialog | src/components/shared/CreateOrderSheet.tsx:192-196 | closes the dialog and the sheet and forgets the status result |

## Left out

- The payment gateway (`createQRIS`, `simulatePayment`, `getPaymentRequestByID`) is foreign network code.
  - `createOrder` takes it as a function parameter that returns a payment request or fails.
  - `simulatePayment` and `checkOrderStatus` are modelled up to the call they make.
- OrderRouter.CreateOrder: the non-null assertions on the gateway reply's QR payload (`qrCode!.channelProperties!.qrString!`) are not modelled. A created payment request always carries a QR string here. In the source the `!` assertions are erased when compiled: a reply whose `qrCode` or `channelProperties` is null or undefined throws a TypeError after the order update, while a reply with only `qrString` missing succeeds and returns `qrString: undefined`. Neither reply is represented.
- Database-assigned ids and `now()` are parameters. The `requires` that a new id is not in use stands for the database's key generator.
- Prisma's `createMany` returns a count; the model returns the number of inserted items.
- Authentication (`protectedProcedure`), tRPC transport, Prisma and zod are not modelled beyond the outcomes they produce. zod's `.uuid()` and `.url()` are the abstract predicates `isUuid` and `isUrl`.
- Database constraints not visible in this code are not modelled, for example foreign keys that might refuse deleting a category that still has products, or a product that order items refer to. A product whose category has been deleted lists `category` as absent (`CategoryOf`).
- The stored `productCount` column of a category is selected by `getCategories` and `createCategory`, but nothing here writes it and its default is not visible. Only the computed `_count.products` is modelled.
- `findMany` is taken to return rows in table order.
- `getSalesReport` runs its three queries with `Promise.all`; they only read, so the model evaluates them one after the other.
- Each procedure is modelled as one uninterrupted step, and concurrent requests are not represented. `createOrder` makes three separate writes without a transaction (create the order, create its items, update its gateway ids), so a concurrent `getOrders` or `getSalesReport` could see the order without its items or without its gateway ids. `finishOrder` reads the order and then updates it, with nothing guarding against the payment webhook changing `paidAt` in between. The gateway calls have no timeout, and a call that never returns is not represented.
- Floating point is not modelled. Totals are exact reals and prices and quantities are integers. JavaScript computes `subtotal * 0.1` on doubles, so its tax may differ from a tenth by rounding.
- ProductRouter.CreateProduct: the price is an integer here, while the server's `z.number()` accepts any number of at least 1000. The same applies to ProductRouter.EditProduct and to the quantities of `createOrder`.
- String lengths are sequence lengths. JavaScript counts UTF-16 code units, which differs for characters outside the basic plane.
- ProductForm.CoerceNumber: JavaScript's `Number(text)` is the parameter `parse`. The coercion of other value kinds (booleans, null) is not modelled, because the form only supplies text or numbers.
- CreateOrderSheet.Truthy: NaN is not a value of the model.
- OrderRouter.GetOrdersAsWritten: assumes zod 3, whose `.default` validates the substituted default. The zod version is not fixed by the files modelled here; under zod 4 the as-written call with no status would behave like `OrderRouter.GetOrders`.
- The signed upload URL (`createProductImageUploadSignedUrl`) and the upload helper are storage I/O, and the file name depends on the clock.
- The cart store is not part of this model: its operations appear only as emitted effects. The mutations' pending flags, which only disable buttons and swap labels, are also left out, as is all rendering.
- The commented-out earlier procedures of the order router are not current behaviour and are not modelled.

## Findings

| source | as written | input that shows it | evidently intended | confidence | as-written member | corrected member |
|---|---|---|---|---|---|---|
| src/server/api/routers/order.ts:512 | `z.enum(["ALL", ...]).default("All")`: the default "All" is not one of the enum's values, and zod 3's `.default` passes the substituted default through the enum like any other value (this assumes zod 3; zod 4 returns the default unparsed, and then no `switch` case matches and every order is listed) | `getOrders` called without `status` | the default is "ALL", so an omitted status lists every order | medium, not executed | OrderRouter.GetOrdersAsWritten, OrderRouter.OmittedStatusRejectedAsWritten | OrderRouter.GetOrders, OrderRouter.OmittedStatusListsEveryOrder |
