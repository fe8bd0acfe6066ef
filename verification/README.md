# E-commerce backend core, modelled in Dafny

This project models the service layer of a Spring e-commerce backend with its
database replaced by in-memory tables. It covers:

- the per-product **stock ledger**: a counter, an availability flag derived from it, and a low-stock threshold;
- **order creation**, which validates input in a fixed order, resolves products in one batch and fixes the order total at creation;
- the **payment state machine**: PENDING → PROCESSING → COMPLETED or FAILED, and COMPLETED → REFUNDED, at most one payment per order. Settling and refunding also write the linked order's status;
- the **cart**, a set of products whose total is recomputed on every change, with at most one cart per user, created on first access;
- **catalogue** validation, defaulting, partial update and the search filters;
- **user** registration rules and partial updates.

Layout, one module per file:

- `common.dfy` (`Common`): ids, money as exact `real`, `Option`/`Result`, the failures the services throw, Java's `String.trim`, and exact sums over sets.
- `tables.dfy` (`Tables`, `BatchLookup`): a repository as a value `Table` holding a map from id to record, the `findAll` order and the next identity. It also has the stream filters and `findAllById`.
- `product.dfy` (`Products`): the `Product` entity as a class with its ledger methods, and the row it saves.
- `cart.dfy` (`Carts`): the `Cart` entity as a class whose product set and total are fields.
- `entities.dfy` (`Entities`): user, order and payment records, and the payment state machine as a predicate over status histories.
- `store.dfy` (`Store`): the `Database` class, one table per repository. Its `Valid()` is the set of constraints every service call keeps:
  - each payment refers to an existing order;
  - an order has at most one payment;
  - every payment's history of saved statuses follows the state machine and ends at its current status;
  - a user has at most one cart;
  - carts refer only to existing products.
- `inventory_service.dfy`, `order_service.dfy`, `payment_service.dfy`, `transaction_id.dfy`, `cart_service.dfy`, `product_service.dfy`, `user_service.dfy`: the services.

Each service call is one method over a `Database`, and it states both its result and the new table contents. The calls that go through an entity's setters work on the entity class: the inventory calls and `updateProduct` load a row into a `Product`, and the cart calls load a `Cart`, call its methods and save its row back. The others edit the record value directly: `createProduct` (through `WithDefaults`), `createOrder`, `updateOrderStatus`, every payment call and every user call. Their setters only assign fields, so nothing is lost by this. Values that come from outside the code become parameters:

- the clock: `now`;
- the payment gateway's answer: `approved`;
- the UUID's bits: `uuid`;
- the password encoder: `encode`;
- the database's case-insensitive name match: `matches`.

## Model

Paths are relative to the repository root.

| member | source | states |
|---|---|---|
| Common.BlankIffAllTrimmable | src/main/java/com/ECommerceAPI/ECommerceAPI/service/ProductService.java:31 | `s.trim().isEmpty()` holds exactly when every char of `s` is at most U+0020, in both directions |
| Common.TrimIdempotent | src/main/java/com/ECommerceAPI/ECommerceAPI/service/ProductService.java:68-72 | trimming an already trimmed name changes nothing |
| Common.SumPick | src/main/java/com/ECommerceAPI/ECommerceAPI/model/Cart.java:105-108 | the sum over a set may begin with any member: the reduce over a `HashSet` does not depend on iteration order |
| Common.SumInsert | src/main/java/com/ECommerceAPI/ECommerceAPI/model/Cart.java:105-108 | inserting a new member adds exactly its value to the sum; inserting a present one adds nothing |
| Common.SumRemove | src/main/java/com/ECommerceAPI/ECommerceAPI/model/Cart.java:105-108 | removing a member subtracts exactly its value; removing an absent one changes nothing |
| Common.SumOf | src/main/java/com/ECommerceAPI/ECommerceAPI/model/Cart.java:105-108 | the loop that folds `add` over a set, from zero, returns exactly the set's sum |
| Common.Trim | src/main/java/com/ECommerceAPI/ECommerceAPI/service/ProductService.java:31 | `String.trim` returns a slice of its input that neither starts nor ends with a char at most U+0020, and every char it cuts off is such a char |
| Tables.Table.All | src/main/java/com/ECommerceAPI/ECommerceAPI/service/InventoryService.java:56 | `findAll` lists every stored record with its id exactly once, in store order |
| Tables.Table.Remove | src/main/java/com/ECommerceAPI/ECommerceAPI/service/ProductService.java:64-66 | `deleteById` drops that record only, ignores an absent id, and keeps the others in order |
| Tables.FilterPartition | src/main/java/com/ECommerceAPI/ECommerceAPI/service/InventoryService.java:61-71 | two complementary stream filters return every element exactly once between them |
| Tables.FilterSame | src/main/java/com/ECommerceAPI/ECommerceAPI/service/ProductService.java:88-102 | filters that agree on every element return the same list |
| Tables.Table.Get | src/main/java/com/ECommerceAPI/ECommerceAPI/repository/ProductRepository.java:13 | `findById` finds a record exactly when its id is stored, and returns that record |
| Tables.Table.Insert | src/main/java/com/ECommerceAPI/ECommerceAPI/repository/ProductRepository.java:13 | `save` of a new record stores it under the next identity, which no stored record has, and appends it to the `findAll` order; the table stays well formed |
| Tables.Table.Put | src/main/java/com/ECommerceAPI/ECommerceAPI/repository/ProductRepository.java:13 | `save` of a stored record overwrites that record only; the ids, their order and the next identity are unchanged |
| Tables.Where | src/main/java/com/ECommerceAPI/ECommerceAPI/repository/ProductRepository.java:27-37 | a derived list query returns exactly the stored records it selects, each once, as a subsequence of `findAll` |
| Tables.FilterSubsequence | src/main/java/com/ECommerceAPI/ECommerceAPI/service/InventoryService.java:55-71 | a stream filter only leaves elements out: the kept ones stay in input order |
| Tables.OnlyElement | src/test/java/com/ECommerceAPI/ECommerceAPI/service/InventoryServiceTest.java:104-105 | a list without repeats that can hold only one record, and holds it, has size 1 and that record first |
| BatchLookup.FindAllById | src/main/java/com/ECommerceAPI/ECommerceAPI/service/OrderService.java:47 | `findAllById` returns exactly the stored records among the requested ids, skipping missing ids |
| BatchLookup.FindAllByIdComplete | src/main/java/com/ECommerceAPI/ECommerceAPI/service/OrderService.java:47-50 | the number found equals the number requested exactly when every requested id exists, in both directions |
| Products.ProductRow.WithStock | src/main/java/com/ECommerceAPI/ECommerceAPI/model/Product.java:69-72 | `setStockQuantity(q)` leaves the stock at exactly `q` with the flag equal to `q > 0`; every other field is unchanged |
| Products.ProductRow.WithMinStockLevel | src/main/java/com/ECommerceAPI/ECommerceAPI/model/Product.java:86-89 | `setMinStockLevel(m)` sets the threshold to `m` and recomputes the flag; the stock is untouched |
| Products.ProductRow.StockAdded | src/main/java/com/ECommerceAPI/ECommerceAPI/model/Product.java:91-94 | `addStock(q)` gives stock old + `q` with a consistent flag; the other fields are unchanged |
| Products.ProductRow.StockReduced | src/main/java/com/ECommerceAPI/ECommerceAPI/model/Product.java:96-103 | `reduceStock(q)` succeeds exactly when stock ≥ `q`. Success takes exactly `q` and leaves a consistent flag; failure gives no new state |
| Products.ReduceThenAddRestores | src/main/java/com/ECommerceAPI/ECommerceAPI/model/Product.java:91-103 | a successful reduction followed by adding the same quantity restores the stock, and the whole row when its flag was consistent |
| Products.ReduceAllEmpties | src/main/java/com/ECommerceAPI/ECommerceAPI/model/Product.java:96-103 | reducing by exactly the current stock leaves stock 0 and the product unavailable |
| Products.FreshProductBreaksAvailability | src/main/java/com/ECommerceAPI/ECommerceAPI/model/Product.java:22-28 | the field defaults (stock 0, available, threshold 5) break the flag/stock agreement, and the fresh product counts as low stock |
| Products.Product.constructor | src/main/java/com/ECommerceAPI/ECommerceAPI/model/Product.java:22-31 | `new Product()` holds the field defaults |
| Products.Product.SetName | src/main/java/com/ECommerceAPI/ECommerceAPI/model/Product.java:45-47 | only the name changes |
| Products.Product.SetDescription | src/main/java/com/ECommerceAPI/ECommerceAPI/model/Product.java:53-55 | only the description changes |
| Products.Product.SetPrice | src/main/java/com/ECommerceAPI/ECommerceAPI/model/Product.java:61-63 | only the price changes |
| Products.Product.SetIsAvailable | src/main/java/com/ECommerceAPI/ECommerceAPI/model/Product.java:78-80 | only the flag changes, whatever the stock |
| Products.Product.SetStockQuantity | src/main/java/com/ECommerceAPI/ECommerceAPI/model/Product.java:69-72 | the entity afterwards is `WithStock(q)` of the entity before; the flag agrees with the stock |
| Products.Product.SetMinStockLevel | src/main/java/com/ECommerceAPI/ECommerceAPI/model/Product.java:86-89 | the entity afterwards is `WithMinStockLevel(m)` of the entity before; the stock is unchanged |
| Products.Product.AddStock | src/main/java/com/ECommerceAPI/ECommerceAPI/model/Product.java:91-94 | the stock rises by exactly `q`; the entity afterwards is `StockAdded(q)` of the entity before |
| Products.Product.ReduceStock | src/main/java/com/ECommerceAPI/ECommerceAPI/model/Product.java:96-103 | returns true exactly when stock ≥ `q`. On true the stock drops by exactly `q` and the flag is consistent; on false no field changes |
| Products.Product.IsInStock | src/main/java/com/ECommerceAPI/ECommerceAPI/model/Product.java:105-107 | true exactly when stock > 0; a reads-only query |
| Products.Product.IsLowStock | src/main/java/com/ECommerceAPI/ECommerceAPI/model/Product.java:109-111 | true exactly when stock ≤ threshold; a reads-only query |
| Products.Product.UpdateAvailability | src/main/java/com/ECommerceAPI/ECommerceAPI/model/Product.java:113-115 | the flag becomes `stock > 0`; nothing else changes |
| InventoryService.AddStock | src/main/java/com/ECommerceAPI/ECommerceAPI/service/InventoryService.java:20-26 | an unknown id fails with not-found and leaves the table alone. Otherwise only that product is saved, as `StockAdded(q)`; the database constraints hold |
| InventoryService.ReduceStock | src/main/java/com/ECommerceAPI/ECommerceAPI/service/InventoryService.java:28-37 | fails with not-found, or with the available and requested quantities when stock < `q`; either way nothing is saved. Otherwise saves the reduced product |
| InventoryService.UpdateStock | src/main/java/com/ECommerceAPI/ECommerceAPI/service/InventoryService.java:39-45 | not-found leaves the table alone; otherwise only that product's stock becomes exactly `n` |
| InventoryService.SetMinStockLevel | src/main/java/com/ECommerceAPI/ECommerceAPI/service/InventoryService.java:47-53 | not-found leaves the table alone; otherwise only that product's threshold becomes exactly `m` |
| InventoryService.StockScenario | src/test/java/com/ECommerceAPI/ECommerceAPI/service/InventoryServiceTest.java:46-66 | from 100 units, taking 30 leaves 70 and available; adding 50 gives 150 |
| InventoryService.StockCanGoNegative | src/main/java/com/ECommerceAPI/ECommerceAPI/model/Product.java:91-94 | the ledger does not keep the stock at or above zero: a negative quantity can take it below |
| InventoryService.LowStockScenario | src/test/java/com/ECommerceAPI/ECommerceAPI/service/InventoryServiceTest.java:97-106 | with one product of stock 100 whose threshold is raised to 150, the low-stock list is exactly that product |
| InventoryService.GetLowStockProducts | src/main/java/com/ECommerceAPI/ECommerceAPI/service/InventoryService.java:55-59 | lists exactly the products with stock ≤ threshold, each once, in `findAll` order |
| InventoryService.GetOutOfStockProducts | src/main/java/com/ECommerceAPI/ECommerceAPI/service/InventoryService.java:61-65 | lists exactly the products with stock ≤ 0, each once, in `findAll` order |
| InventoryService.GetAvailableProducts | src/main/java/com/ECommerceAPI/ECommerceAPI/service/InventoryService.java:67-71 | lists exactly the products with stock > 0, each once, in `findAll` order |
| InventoryService.OutOfStockAndAvailablePartition | src/main/java/com/ECommerceAPI/ECommerceAPI/service/InventoryService.java:61-71 | the out-of-stock and available lists partition the catalogue: their lengths add up to the product count and their multisets to `findAll` |
| InventoryService.CheckStockAvailability | src/main/java/com/ECommerceAPI/ECommerceAPI/service/InventoryService.java:73-76 | true exactly when the product exists with stock ≥ `q`; an unknown id gives false |
| Entities.LifecycleExtend | src/main/java/com/ECommerceAPI/ECommerceAPI/service/PaymentService.java:85 | appending an allowed move to an allowed history gives an allowed history |
| Entities.LifecycleExtendTwice | src/main/java/com/ECommerceAPI/ECommerceAPI/service/PaymentService.java:55-72 | the same for the two moves through PROCESSING |
| Entities.LifecycleShapes | src/main/java/com/ECommerceAPI/ECommerceAPI/service/PaymentService.java:50-94 | every allowed history is one of five: P; P,PR; P,PR,C; P,PR,F; P,PR,C,R |
| Entities.TerminalIsLast | src/main/java/com/ECommerceAPI/ECommerceAPI/service/PaymentService.java:50-94 | FAILED and REFUNDED are never left |
| Entities.HistoryFacts | src/main/java/com/ECommerceAPI/ECommerceAPI/service/PaymentService.java:50-94 | a payment is processed at most once; it settles only after PROCESSING; it is refunded only after COMPLETED; it never both completes and fails |
| Store.PaymentCreated | src/main/java/com/ECommerceAPI/ECommerceAPI/service/PaymentService.java:30-43 | saving a PENDING payment for an existing order that has none keeps every constraint |
| Store.PaymentSaved | src/main/java/com/ECommerceAPI/ECommerceAPI/service/PaymentService.java:74 | re-saving a payment under its own order, with an allowed history ending at its new status, keeps every constraint |
| Store.ProductDeleted | src/main/java/com/ECommerceAPI/ECommerceAPI/service/ProductService.java:64-66 | deleting a product no cart holds keeps every constraint |
| OrderService.OrderTotalAdd | src/main/java/com/ECommerceAPI/ECommerceAPI/service/OrderService.java:52-56 | ordering one more priced product adds exactly its price to the total |
| OrderService.TotalPrice | src/main/java/com/ECommerceAPI/ECommerceAPI/service/OrderService.java:52-56 | the reduce fails with the null-price error exactly when some found product has no price. Otherwise it returns the exact sum of the prices |
| OrderService.CreateOrder | src/main/java/com/ECommerceAPI/ECommerceAPI/service/OrderService.java:34-65 | errors in source order: null user id, null or empty ids, unknown user, a missing product, a null price; each saves nothing. Otherwise inserts one order for that user and exactly those ids, totalled at current prices, dated `now`, untracked |
| OrderService.GetOrdersForUser | src/main/java/com/ECommerceAPI/ECommerceAPI/service/OrderService.java:67-71 | fails exactly for an unknown user; otherwise lists exactly that user's orders, each once, in `findAll` order |
| OrderService.WithStatus | src/main/java/com/ECommerceAPI/ECommerceAPI/service/OrderService.java:81-88 | the status is replaced by any value. The tracking number is replaced only by a non-null, non-blank one and is otherwise kept. Nothing else changes |
| OrderService.BlankTrackingIgnored | src/main/java/com/ECommerceAPI/ECommerceAPI/service/OrderService.java:86-88 | a whitespace-only tracking number acts as a null one |
| OrderService.UpdateOrderStatus | src/main/java/com/ECommerceAPI/ECommerceAPI/service/OrderService.java:73-79 | not-found leaves the orders alone; otherwise only that order's status changes |
| OrderService.UpdateOrderStatusAndTracking | src/main/java/com/ECommerceAPI/ECommerceAPI/service/OrderService.java:81-90 | not-found leaves the orders alone; otherwise only that order is saved, as `WithStatus` |
| OrderService.GetOrdersByStatus | src/main/java/com/ECommerceAPI/ECommerceAPI/service/OrderService.java:92-96 | lists exactly the orders in that status, each once, in `findAll` order |
| OrderService.StatusesPartitionOrders | src/main/java/com/ECommerceAPI/ECommerceAPI/service/OrderService.java:92-96 | every order is listed under its own status and under no other |
| OrderService.GetOrderById | src/main/java/com/ECommerceAPI/ECommerceAPI/service/OrderService.java:98-100 | found exactly when the id is stored, with its record |
| TransactionIds.GenerateTransactionId | src/main/java/com/ECommerceAPI/ECommerceAPI/service/PaymentService.java:113-115 | 16 characters starting with `TXN_` |
| TransactionIds.UuidString | src/main/java/com/ECommerceAPI/ECommerceAPI/service/PaymentService.java:114 | `UUID.toString` has 36 chars with dashes at positions 8, 13, 18 and 23 |
| TransactionIds.RemoveAll | src/main/java/com/ECommerceAPI/ECommerceAPI/service/PaymentService.java:114 | `replace("-", "")` leaves no dash and keeps every other char |
| TransactionIds.ToUpper | src/main/java/com/ECommerceAPI/ECommerceAPI/service/PaymentService.java:114 | `toUpperCase` keeps the length and maps each char to its upper-case form |
| TransactionIds.DashesRemoved | src/main/java/com/ECommerceAPI/ECommerceAPI/service/PaymentService.java:114 | removing the dashes from the printed UUID leaves its 32 hex digits in order |
| TransactionIds.TransactionIdDigits | src/main/java/com/ECommerceAPI/ECommerceAPI/service/PaymentService.java:113-115 | the id is `TXN_` followed by the UUID's first 12 digits in upper-case hex |
| TransactionIds.ToUpperHex | src/main/java/com/ECommerceAPI/ECommerceAPI/service/PaymentService.java:114 | upper-casing the printed hex digits gives the upper-case printing of the same digits |
| TransactionIds.TransactionIdCollision | src/main/java/com/ECommerceAPI/ECommerceAPI/service/PaymentService.java:113-115 | two UUIDs give the same id exactly when their first 12 digits agree, in both directions |
| PaymentService.GetPaymentByOrderId | src/main/java/com/ECommerceAPI/ECommerceAPI/service/PaymentService.java:97-99 | absent exactly when no payment refers to the order; otherwise that order's only payment |
| PaymentService.CreatePayment | src/main/java/com/ECommerceAPI/ECommerceAPI/service/PaymentService.java:26-44 | errors: unknown order, then an existing payment for it; each saves nothing. Otherwise inserts a PENDING payment for the order's total with the given method and the generated id. Its history starts at PENDING |
| PaymentService.ProcessPayment | src/main/java/com/ECommerceAPI/ECommerceAPI/service/PaymentService.java:46-75 | not-found, then not-PENDING, each with no change. Otherwise the payment passes through PROCESSING, and the amount, order, method and id are kept. Approved: COMPLETED with the gateway message, and the order CONFIRMED. Declined: FAILED with the decline reason, and the order untouched |
| PaymentService.RefundPayment | src/main/java/com/ECommerceAPI/ECommerceAPI/service/PaymentService.java:77-95 | not-found, then not-COMPLETED, each with no change. Otherwise: REFUNDED, the reason stored as given, processed at `now`, the charge kept, and the order REFUNDED |
| PaymentService.PaymentHistory | src/main/java/com/ECommerceAPI/ECommerceAPI/service/PaymentService.java:46-95 | in any database the services leave, each payment went through the gateway at most once. A settled payment went through PROCESSING, and a refunded one had COMPLETED |
| PaymentService.GetPaymentById | src/main/java/com/ECommerceAPI/ECommerceAPI/service/PaymentService.java:101-103 | found exactly when the id is stored |
| PaymentService.GetPaymentsByStatus | src/main/java/com/ECommerceAPI/ECommerceAPI/service/PaymentService.java:105-107 | lists exactly the payments in that status, each once, in `findAll` order |
| PaymentService.WithTransactionId | src/main/java/com/ECommerceAPI/ECommerceAPI/repository/PaymentRepository.java:16 | exactly the stored payments carrying that transaction id, each once, in `findAll` order |
| PaymentService.GetPaymentByTransactionId | src/main/java/com/ECommerceAPI/ECommerceAPI/service/PaymentService.java:109-111 | none exactly when no payment has that id. Fails with a non-unique-result error exactly when two payments share it. Otherwise returns the one payment |
| Carts.Items | src/main/java/com/ECommerceAPI/ECommerceAPI/model/Cart.java:21-27 | loading a join table gives exactly one entity per stored product id |
| Carts.ItemsRoundTrip | src/main/java/com/ECommerceAPI/ECommerceAPI/model/Cart.java:21-27 | loading and writing back a join table gives the same ids; adding or removing a loaded product adds or removes exactly its id |
| Carts.TotalAfterAdd | src/main/java/com/ECommerceAPI/ECommerceAPI/model/Cart.java:82-86 | adding a product not in the cart raises the total by its non-null price; adding it again changes nothing |
| Carts.TotalAfterRemove | src/main/java/com/ECommerceAPI/ECommerceAPI/model/Cart.java:88-92 | removing a member lowers the total by its price; removing an absent one changes nothing |
| Carts.Cart.constructor | src/main/java/com/ECommerceAPI/ECommerceAPI/model/Cart.java:27-38 | a new cart has no owner, an empty set and total 0 |
| Carts.Cart.SetUser | src/main/java/com/ECommerceAPI/ECommerceAPI/model/Cart.java:52-54 | the owner becomes the given user |
| Carts.Cart.SetProducts | src/main/java/com/ECommerceAPI/ECommerceAPI/model/Cart.java:60-64 | the set is replaced (null allowed), the time refreshed, and the total equals the new set's total |
| Carts.Cart.AddProduct | src/main/java/com/ECommerceAPI/ECommerceAPI/model/Cart.java:82-86 | set insertion, the time refreshed and the total recomputed |
| Carts.Cart.RemoveProduct | src/main/java/com/ECommerceAPI/ECommerceAPI/model/Cart.java:88-92 | set removal, the time refreshed and the total recomputed |
| Carts.Cart.ClearCart | src/main/java/com/ECommerceAPI/ECommerceAPI/model/Cart.java:94-98 | empty set, total 0, time refreshed |
| Carts.Cart.CalculateTotal | src/main/java/com/ECommerceAPI/ECommerceAPI/model/Cart.java:100-109 | the total becomes the sum of the non-null prices of the non-null members; a null set gives 0 |
| CartService.GetCartByUserId | src/main/java/com/ECommerceAPI/ECommerceAPI/service/CartService.java:65-67 | a read, never creating a cart. Absent exactly when the user has no cart; otherwise the user's only cart |
| CartService.EnsureCart | src/main/java/com/ECommerceAPI/ECommerceAPI/service/CartService.java:33-38 | afterwards the user has exactly the returned cart, still at most one per user. No stored cart changes. An existing cart is returned as is; otherwise one empty cart is inserted |
| CartService.EnsureCartIdempotent | src/main/java/com/ECommerceAPI/ECommerceAPI/service/CartService.java:33-38 | a second access returns the same cart and changes nothing |
| CartService.GetOrCreateCart | src/main/java/com/ECommerceAPI/ECommerceAPI/service/CartService.java:29-39 | an unknown user fails with no change; otherwise `EnsureCart`, keeping the database constraints |
| CartService.AddRemoveEffect | src/main/java/com/ECommerceAPI/ECommerceAPI/service/CartService.java:41-57 | adding a product already in the cart, or removing one that is not there, leaves the set as it was. Adding a new product raises the total by its price; removing a present one lowers it |
| CartService.Added | src/main/java/com/ECommerceAPI/ECommerceAPI/model/Cart.java:82-86 | the saved cart after `addProduct` holds the product and the same other products, with the same owner, the call's time and the total at current prices |
| CartService.Removed | src/main/java/com/ECommerceAPI/ECommerceAPI/model/Cart.java:88-92 | the saved cart after `removeProduct` lacks the product and keeps the other products, with the same owner, the call's time and the total at current prices |
| CartService.AddProductToCart | src/main/java/com/ECommerceAPI/ECommerceAPI/service/CartService.java:41-48 | unknown user, then unknown product; either rolls the whole call back, including a cart it created. Otherwise that user's cart alone is saved, with the product added and the total at current prices |
| CartService.RemoveProductFromCart | src/main/java/com/ECommerceAPI/ECommerceAPI/service/CartService.java:50-57 | the same with the product removed |
| CartService.ClearCart | src/main/java/com/ECommerceAPI/ECommerceAPI/service/CartService.java:59-63 | that user's cart alone is saved, empty with total 0 |
| ProductService.GetAllProducts | src/main/java/com/ECommerceAPI/ECommerceAPI/service/ProductService.java:18-20 | every product once |
| ProductService.GetProductById | src/main/java/com/ECommerceAPI/ECommerceAPI/service/ProductService.java:22-24 | found exactly when the id is stored |
| ProductService.CreationError | src/main/java/com/ECommerceAPI/ECommerceAPI/service/ProductService.java:28-36 | null product, then blank name, then null or negative price, in that order, each as an if-and-only-if. A zero price passes |
| ProductService.WithDefaults | src/main/java/com/ECommerceAPI/ECommerceAPI/service/ProductService.java:37-42 | a null stock becomes 0 and clears the flag; a null threshold becomes 5; the flag then agrees with the stock. With neither null, everything is kept as given |
| ProductService.CreateProduct | src/main/java/com/ECommerceAPI/ECommerceAPI/service/ProductService.java:26-45 | an invalid product fails with its first error and saves nothing; otherwise inserts `WithDefaults` of it |
| ProductService.Updated | src/main/java/com/ECommerceAPI/ECommerceAPI/service/ProductService.java:50-58 | name, description and price always overwritten, null included; stock and threshold only by non-null values, after which the flag agrees with the stock |
| ProductService.UpdateIdempotent | src/main/java/com/ECommerceAPI/ECommerceAPI/service/ProductService.java:47-62 | updating twice with the same details is updating once |
| ProductService.UpdateProduct | src/main/java/com/ECommerceAPI/ECommerceAPI/service/ProductService.java:47-62 | an absent id gives empty and changes nothing; otherwise only that product is saved, as `Updated` |
| ProductService.DeleteProduct | src/main/java/com/ECommerceAPI/ECommerceAPI/service/ProductService.java:64-66 | refused, with no change, exactly when a cart holds the product. Otherwise the product is gone and every other product is kept |
| ProductService.SearchProducts | src/main/java/com/ECommerceAPI/ECommerceAPI/service/ProductService.java:68-73 | a null or blank name gives every product; otherwise exactly the named products matching the trimmed name, each once, in `findAll` order |
| ProductService.SearchIgnoresPadding | src/main/java/com/ECommerceAPI/ECommerceAPI/service/ProductService.java:68-73 | a padded name searches as its trimmed form |
| ProductService.FilterProductsByPrice | src/main/java/com/ECommerceAPI/ECommerceAPI/service/ProductService.java:75-86 | both bounds null gives every product. Otherwise exactly the priced products within [min or 0, max or 999999.99], inclusive, each once, in `findAll` order |
| ProductService.DefaultMaxCaps | src/main/java/com/ECommerceAPI/ECommerceAPI/service/ProductService.java:82-84 | given only a lower bound, a product priced above 999999.99 is missed although it passes that bound |
| ProductService.GetAvailableProducts | src/main/java/com/ECommerceAPI/ECommerceAPI/service/ProductService.java:88-90 | exactly the products whose flag is set, each once, in `findAll` order |
| ProductService.GetUnavailableProducts | src/main/java/com/ECommerceAPI/ECommerceAPI/service/ProductService.java:92-94 | exactly the products whose flag is clear, each once, in `findAll` order |
| ProductService.AvailableByFlagIsInStock | src/main/java/com/ECommerceAPI/ECommerceAPI/service/ProductService.java:88-102 | when every flag agrees with its stock, the flag-based lists equal the stock-based lists (`getProductsInStock` and `getOutOfStockProducts`, the same queries as the inventory service's), element for element |
| ProductService.FreshProductListedAvailable | src/main/java/com/ECommerceAPI/ECommerceAPI/service/ProductService.java:88-98 | without that agreement they differ: a fresh product is listed available by flag but not by stock |
| ProductService.SearchScenario | src/test/java/com/ECommerceAPI/ECommerceAPI/service/ProductServiceTest.java:115-135 | of "Test Product" and "Laptop Computer", a search for "Test" lists exactly the first, given that the database matches only that name |
| ProductService.AvailableScenario | src/test/java/com/ECommerceAPI/ECommerceAPI/service/ProductServiceTest.java:138-154 | of a flagged and an unflagged product, the available list is exactly the flagged one |
| ProductService.SearchAndFilterProducts | src/main/java/com/ECommerceAPI/ECommerceAPI/repository/ProductRepository.java:15-25 | each null criterion is ignored; a price bound excludes unpriced products. Each product that passes is listed once, in `findAll` order |
| UserService.RegistrationError | src/main/java/com/ECommerceAPI/ECommerceAPI/service/UserService.java:23-37 | null user, blank username, blank email, blank password, password under 6 chars, in that order, each as an if-and-only-if |
| UserService.PaddedPasswordAccepted | src/main/java/com/ECommerceAPI/ECommerceAPI/service/UserService.java:32-37 | the length rule counts the raw password, blanks included |
| UserService.RegisterUser | src/main/java/com/ECommerceAPI/ECommerceAPI/service/UserService.java:21-42 | an invalid user fails with its first error and saves nothing. Otherwise the user is inserted with the encoder's output in place of the raw password |
| UserService.GetUserById | src/main/java/com/ECommerceAPI/ECommerceAPI/service/UserService.java:44-46 | found exactly when the id is stored |
| UserService.GetAllUsers | src/main/java/com/ECommerceAPI/ECommerceAPI/service/UserService.java:48-50 | every user once |
| UserService.UpdateUserRole | src/main/java/com/ECommerceAPI/ECommerceAPI/service/UserService.java:52-58 | not-found with no change; otherwise only that user's role changes |
| UserService.GetUsersByRole | src/main/java/com/ECommerceAPI/ECommerceAPI/service/UserService.java:60-64 | exactly the users holding that role, each once, in `findAll` order |
| UserService.Merged | src/main/java/com/ECommerceAPI/ECommerceAPI/service/UserService.java:70-82 | username, email and role replaced only by non-null values; the password, encoded, only by a non-null non-blank one |
| UserService.EmptyDetailsKeepUser | src/main/java/com/ECommerceAPI/ECommerceAPI/service/UserService.java:70-82 | all-null details change nothing |
| UserService.UpdateKeepsBlankNames | src/main/java/com/ECommerceAPI/ECommerceAPI/service/UserService.java:70-75 | an update stores a blank username and email, which registration would reject |
| UserService.UpdateUser | src/main/java/com/ECommerceAPI/ECommerceAPI/service/UserService.java:66-85 | not-found with no change; otherwise only that user is saved, as `Merged` |

## Left out

- Concurrency. Each service call is one atomic step. Row locking, `@Transactional` isolation and concurrent `reduceStock` are not modelled.
- HTTP controllers: routing, enum parsing, status codes. The controllers' positive-quantity guards are not preconditions either; the ledger accepts any quantity, as the service and entity do.
- `LocalDateTime.now()`, `Math.random()` in the gateway, `UUID.randomUUID()` and `PasswordEncoder.encode` are parameters. The gateway's 90% success rate is not modelled.
- The database's name matching (SQL `LIKE`, case folding) is the parameter `matches`. A product with a null name never matches a given name.
- `toUpperCase` is modelled on ASCII letters only. That is all a UUID's hex digits contain.
- Java `Integer` and `Long` overflow. Stock, thresholds and ids are unbounded integers.
- `PaymentService.ProcessPayment`: the method saves the payment twice inside one transaction, first as PROCESSING, then settled. The model writes the settled row once and records both statuses in the ghost history `paymentLog`. The intermediate row is never visible to another call in a sequential model.
- The `Order`, `Payment` and `User` entity classes and the `Role`, `PaymentMethod` and `OrderStatus` enums are not part of this model. Their records hold only the fields the services use. Role and payment method are opaque names.
- An order's initial status is not set by `createOrder`. The model assumes the entity's initialiser gives CREATED (`Entities.InitialOrderStatus`).
- `ProductService.DeleteProduct`: the only foreign key modelled is the cart join table. Whether an order's product references also block a deletion depends on the `Order` mapping, which is not part of this model.
- Product equality in a cart's set is by id. This holds because the persistence context loads one entity per id.
- A cart's stored total is taken as loaded. It is recomputed only when the cart changes, at the prices current then.
- Java's `String.length()` counts UTF-16 code units; the model counts Dafny chars.
- Row order of the derived and `@Query` list queries (`findByStatus`, `findByIsAvailableTrue`, `findProductsWithFilters` and the others): none of them has an `ORDER BY`, so SQL fixes no order. `Tables.Where` lists their rows in `findAll` order, which is one order the database may return. The stream filters over `findAll()` in the inventory service keep that order by definition.
- Identity values: a new record takes the table's `nextId`. `CartService.AddProductToCart` and `CartService.RemoveProductFromCart` restore the whole cart table on rollback, `nextId` included. A real database does not hand back an IDENTITY value it gave to a rolled-back insert, so there the next cart's id is larger. Ids are not compared anywhere else in the model.
- `ProductService.CreateProduct`: the input record carries no id. In the source, a `Product` whose id is already set goes to `save`, which merges it over the stored product with that id instead of inserting a new one. The model covers only the id-less input that the creation endpoint is meant for.
- `UserService.RegisterUser`: the input record carries no id. If a request body can set the user's id, `save` merges it over the stored user with that id, as for products. User.java is not part of this model. The model covers only the id-less input.

Where the code and the intended behaviour differ, the model follows the code:

- Stock can go negative through `addStock` or `updateStock`; see `InventoryService.StockCanGoNegative`.
- A transaction id carries only 48 random bits, so two payments can share one; see `TransactionIds.TransactionIdCollision`. A lookup by transaction id then fails with a non-unique result.
- Creating an order neither checks nor reserves stock.
