# Order service model

A Dafny model of the order domain of an order-management microservice (`OrdersService`).
The service creates orders from product line items priced by a product-validation reply.
It lists orders page by page with an optional status filter and returns one order with
product names joined in. It changes an order's status. When a payment succeeds, it marks
the order paid and attaches a receipt.

The relational store is an object of class `OrdersService.OrderStore`. It holds:

- the order rows by id (`orders`);
- the stored line items of each order (`orderItems`);
- the receipt table (`receipts`);
- the ids in insertion order, the row order the model gives paging (`insertion`);
- a count of the write statements executed (`writes`).

Each writing operation is one method. It either applies its whole write or returns an
error and leaves the store unchanged. The store's invariant `Valid()` says five things:

- every order's totals are the sums over its stored line items;
- an order is paid exactly when it has a receipt row;
- a paid order carries its payment time and charge id;
- the insertion sequence lists every stored order exactly once;
- when the store allows one receipt per order, no order has two receipt rows.

The product-validation reply is a plain parameter `seq<Product>`. The pure arithmetic is
made of functions in `OrderDomain` and `Pagination`. This covers the totals, the price
snapshot, the name join, the payment-session payload and the paging formulas.

Files: `wrappers.dfy` (Option, Result), `order_status.dfy` (the status enum),
`order_domain.dfy` (values and pure calculations), `pagination.dfy` (paging arithmetic),
`orders_service.dfy` (the store and its operations).

Notes on the source's behaviour that the model follows:

- The not-found check comes after first use only in `changeOrderStatus`. `paidOrder` checks existence before it reads the row (src/orders/orders.service.ts:221-225). The model treats it that way.
- A product id missing from the validation reply is not a dedicated validation error. It is a dereference of `undefined`, caught and rethrown in `create` (lines 97-99) and left uncaught in `findOne` (line 162). Both are modelled as `ProductLookupFailed`.
- The ids sent for validation are all item ids as they come, not a de-duplicated list (line 35).

## Model

| member | source | states |
|---|---|---|
| OrderStatus.ParseStatus | src/orders/dto/change-order-status.dto.ts:9-12 | a status string is accepted exactly when it is the wire name of a value in `OrderStatusList`, and it decodes to that value |
| OrderStatus.StatusListComplete | src/orders/enum/order.enum.ts:3-8 | the accepted list holds every status, each once |
| OrderStatus.ParseWireName | src/orders/enum/order.enum.ts:3-8 | validating the wire name of a status gives that status back |
| OrderDomain.FirstIndex | src/orders/orders.service.ts:53-55 | the position searched to is the first entry with the id, or the end of the reply when no entry has it |
| OrderDomain.Find | src/orders/orders.service.ts:53-55 | the lookup is None exactly when no reply entry has the id; otherwise it is the first entry with that id |
| OrderDomain.TotalAmount | src/orders/orders.service.ts:51-57 | the amount fold succeeds exactly when every requested product id is in the reply |
| OrderDomain.TotalItems | src/orders/orders.service.ts:59-61 | when every quantity is positive, the item count is at least the number of lines |
| OrderDomain.Snapshot | src/orders/orders.service.ts:67-73 | one stored item per requested item, in request order; product id and quantity are copied and the price is the reply's price for that id |
| OrderDomain.SnapshotAmount | src/orders/orders.service.ts:51-73 | when every product is found, `totalAmount` is the sum of quantity × price over the stored items |
| OrderDomain.SnapshotQuantity | src/orders/orders.service.ts:59-73 | `totalItems` is the sum of the stored items' quantities |
| OrderDomain.TotalAmountSign | src/orders/orders.service.ts:51-57 | with non-negative prices the total is non-negative; with positive prices and quantities and at least one line it is positive |
| OrderDomain.CreateExample | src/orders/orders.service.ts:51-61 | two of a product at 10 and one at 5 give total 25 and 3 items |
| OrderDomain.NameItems | src/orders/orders.service.ts:88-94 | the name join succeeds exactly when every item's product is in the reply; each item keeps its stored fields and gains that product's name |
| OrderDomain.SnapshotNamed | src/orders/orders.service.ts:88-94 | the items stored by a creation can always be named from the same reply |
| OrderDomain.NamedAmountPreserved | src/orders/orders.service.ts:158-163 | joining names changes no amount: the named items sum to the stored items' total |
| OrderDomain.PaymentLines | src/orders/orders.service.ts:200-204 | one payment line per item, in order, with the item's name, price and quantity |
| OrderDomain.PaymentSessionPayload | src/orders/orders.service.ts:197-205 | the session request carries the order's id and currency "usd", and one line per returned item, in order, with that item's name, price and quantity |
| OrderDomain.PaymentLinesTotal | src/orders/orders.service.ts:200-204 | the payment lines charge the same sum as the named items |
| OrderDomain.PaymentChargesOrderTotal | src/orders/orders.service.ts:193-212 | the payment session of a created order charges exactly that order's `totalAmount` |
| Pagination.LastPage | src/orders/orders.service.ts:127 | `lastPage` is the ceiling of total / limit: the least page count whose pages hold all rows, and 0 exactly when there are none |
| Pagination.Page | src/orders/orders.service.ts:114-120 | the page skips `(page-1)*limit` rows and holds at most `limit` rows; row k of the page is row `(page-1)*limit + k`; it is empty past the end |
| Pagination.PageWithin | src/orders/orders.service.ts:114-120 | a page holds only rows of the listing it is taken from |
| Pagination.LastPageHoldsRemainder | src/orders/orders.service.ts:118-127 | with at least one row, the last page holds between 1 and `limit` rows, exactly those the earlier full pages leave over |
| Pagination.PastLastPageEmpty | src/orders/orders.service.ts:118-127 | every page after `lastPage` is empty |
| Pagination.RowOnItsPage | src/orders/orders.service.ts:118-120 | row i is at position i mod limit of page i div limit + 1, which is no later than `lastPage` |
| Pagination.PageRowIndex | src/orders/orders.service.ts:118-120 | a row at position k of page p is row (p-1)*limit + k, so no row is on two pages |
| Pagination.ListingExample | src/orders/orders.service.ts:102-129 | 15 rows at 10 per page give `lastPage` 2, and page 2 holds the last 5 rows |
| OrdersService.Listed | src/orders/orders.service.ts:114-117 | the filtered rows are no more than the ids, all pass the filter and are stored rows, and every listed id whose row passes the filter is there |
| OrdersService.ListedFromIds | src/orders/orders.service.ts:114-117 | every filtered row is the row of one of the listed ids |
| OrdersService.ListedAfterInsert | src/orders/orders.service.ts:114-120 | an order inserted under a new id is listed after every earlier order when it passes the filter, and the earlier rows are unchanged |
| OrdersService.ListedCount | src/orders/orders.service.ts:108-112 | over distinct ids, the filtered rows are as many as the ids whose rows pass the filter |
| OrdersService.CreateKeepsInvariant | src/orders/orders.service.ts:63-86 | inserting a new PENDING order whose totals are those of its items, under a fresh id, keeps the store invariant |
| OrdersService.StatusChangeKeepsInvariant | src/orders/orders.service.ts:183-188 | replacing one order's status, with any source and target, keeps the store invariant |
| OrdersService.PaidKeepsInvariant | src/orders/orders.service.ts:227-242 | marking an order paid and appending its receipt keeps the store invariant, so paid orders and receipt rows stay in step, unless the store allows one receipt per order and the order already has one |
| OrdersService.OrderStore.Create | src/orders/orders.service.ts:31-99 | on a product id missing from the reply, creation fails with nothing stored; on an id collision the write fails with nothing stored; creation succeeds exactly when every product is found and the id is fresh, and then a PENDING unpaid order with the reply-priced totals and snapshot items is added at the end of the insertion order in one write, and the returned items are the snapshot named from the reply |
| OrdersService.OrderStore.FindAll | src/orders/orders.service.ts:102-129 | `total` is the number of stored orders passing the filter (all orders without one); `data` is that page of the filtered rows in insertion order; `page` echoes the request; `lastPage` is ceil(total / limit) |
| OrdersService.OrderStore.FindOne | src/orders/orders.service.ts:132-165 | an absent id fails with not-found; a product missing from the reply fails the lookup; it succeeds exactly when the order exists and all its products are in the reply, and then it returns the stored row and its items with names, whose amounts sum to the order total |
| OrdersService.OrderStore.ChangeOrderStatus | src/orders/orders.service.ts:167-191 | an absent id fails with not-found; the current status returns the row with no write; any other status (no legality matrix) replaces the status, changes nothing else and is one write |
| OrdersService.OrderStore.PaidOrder | src/orders/orders.service.ts:215-245 | an absent id fails with not-found and changes nothing; a second receipt on a store allowing one per order is a refused write; it succeeds exactly when neither applies, and then one write sets `paid`, status PAID, `paidAt` = now and the charge id, and appends a receipt row; totals, items and every other order stay as they were |
| OrdersService.ChangeOrderStatusAsWritten | src/orders/orders.service.ts:167-191 | in the source's step order the outcome is never the not-found error, and it is a null dereference exactly when the id has no row |
| OrdersService.AsWrittenMissingOrderCrashes | src/orders/orders.service.ts:167-181 | in the source's step order the not-found error is never raised, and a missing order ends in a null dereference; on present orders the steps agree with the corrected method |
| OrdersService.AsWrittenEmptyStoreExample | src/orders/orders.service.ts:169-175 | a status change on an empty store dereferences a null row |

## Findings

| source | as written | input that shows it | evidently intended | confidence | as-written member | corrected member |
|---|---|---|---|---|---|---|
| src/orders/orders.service.ts:173-181 | `order.status` is read before the `if (!order)` check, so the not-found branch cannot be reached | any id with no order row, e.g. a status change on an empty store | check existence first and raise "Order with id … not found" | high (not executed) | OrdersService.ChangeOrderStatusAsWritten, OrdersService.AsWrittenMissingOrderCrashes | OrdersService.OrderStore.ChangeOrderStatus |

## Left out

- Persistence engine (the PrismaClient base class, `$connect` in `onModuleInit`, lines 27-30): replaced by the in-memory store. Transactions are modelled as all-or-nothing method calls. Concurrent requests and races between them are not modelled.
- Message-bus calls: the `validate_product` reply is a parameter, so a failing product-validation call is not modelled apart from ids missing in its reply. For `create.payment.session`, only the payload is modelled (`PaymentSessionPayload`). Its reply and error path (lines 207-211) are foreign.
- Generated values: the new order's UUID is the parameter `newId`, and a collision is a refused write. The clock reading `new Date()` (line 232) is the parameter `now`.
- Error wrapping: `RpcException`, the `HttpStatus.BAD_REQUEST` classification, message texts and logging become the `Error` datatype.
- Prices use integer arithmetic (cents). JavaScript floating-point rounding of totals is not modelled.
- Request DTOs: the status enum check is `ParseStatus`. The UUID format check on ids (`IsUUID(4)`) is not modelled. The item DTO's positive-quantity rule is weakened to `nat`. The pagination DTO (src/common) is not part of this model; its page ≥ 1 and limit ≥ 1 are preconditions of `FindAll`.
- The controller (src/orders/orders.controller.ts) is message routing only. Its sequencing of `create` then `createPaymentSession` (lines 13-20) is glue over a remote call.
- `createdAt`/`updatedAt` columns: the schema is not part of this model. The `writes` counter stands in for timestamp refreshes, so "no write" means `writes` is unchanged.
- Repeated `payment.succeeded` delivery: the receipt table's uniqueness constraint lives in a schema not part of this model. The store constant `receiptPerOrderUnique` selects the behaviour. When it is set, a second receipt for an order is a refused write. When it is not, a second receipt row is appended. Neither outcome is claimed to be the deployed one.
- findAll row order: the source passes no `orderBy` (lines 114-120), so the database's row order is unspecified. The model takes insertion order, which updates do not change.
- OrdersService.Listed: its own contract states the filter and membership among the stored rows, not that the rows keep insertion order; `ListedFromIds` states that each row is the row of a listed id. The definition keeps the order of `ids`, and `FindAll` is tied to that definition. `ListedAfterInsert` states the order property for the one way the store grows.
