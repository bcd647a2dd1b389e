# Order store with a Redis read model

This project models the order module of a small shop: the write path of
`src/commands/write_order.py` and the queries of `src/queries/read_order.py`.
It proves properties of that model.

Orders live in a relational store (MySQL through SQLAlchemy):
- `products`, with prices;
- `orders`, with ids assigned by AUTO_INCREMENT;
- `order_items`.

A Redis keyspace mirrors some of this data:
- a hash `order:{id}` holds each order's summary;
- an integer counter `product:{pid}` holds each product's units sold.

What the model covers:
- Writes to the database first. `add_order` validates the request, prices it with the store's prices, inserts the order and its items in one transaction, commits, and only then projects into Redis. `delete_order` deletes the row (the items cascade), commits, and deletes the hash.
- Two reconciliation routines:
  - `sync_all_orders_to_redis` copies the whole `orders` table when Redis holds no order key;
  - `sync_products_to_redis` deletes every `product:` counter and rebuilds it from `order_items`.
- The queries:
  - `get_order_by_id` (one `hgetall`);
  - `get_orders_from_mysql`, last orders by id;
  - `get_orders_from_redis`, order keys in reverse string order;
  - the spending report per user, from the Redis hashes;
  - the sales report, from the `product:` counters.

Both stores are classes:
- `Stores.RelationalStore` has fields `prices`, `orders`, `items` and `nextId`;
- `Stores.CacheStore` has field `kv`, a map from key to hash or counter.

Each store also has a `reachable` flag. An unreachable store raises on its first command, before it writes anything. Every command of the source becomes a method that changes these fields. Each such method is proved equal to a function of the old state:
- `WriteOrder.AddOutcome`, `WriteOrder.Projected` and `WriteOrder.DeleteOutcome`;
- `Resync.WithSummaries` and `Resync.Rebuilt`;
- `ReadOrder.CacheOrders`, `ReadOrder.SpendingReport` and `ReadOrder.SalesReport`.

The lemmas are stated about those functions.

Other conventions:
- Python's conversions are written out in modules `Python` and `Text`: `int(x)` on strings and floats (truncation), `float(x)`, `str(n)`, `split(":")[1]`, string `<`, and slicing `s[:n]`.
- Numbers are exact: `int` and `real`.
- The clock is a parameter `now`.
- The database's AUTO_INCREMENT value is the field `nextId`.
- Redis's enumeration order for `KEYS` is a ghost out-parameter, constrained only to list each key once.

Modules and files:
- `wrappers.dfy`: Option, Result.
- `text.dfy`, `python.dfy`: Python's conversions.
- `sorting.dfy`: string order, sorting.
- `stores.dfy`: the two stores.
- `counters.dfy`: counter increments.
- `resync.dfy`: the reconciliation functions.
- `write_order.dfy`: validation, pricing, projection, and their lemmas.
- `commands.dfy`: the write methods.
- `read_order.dfy`: the query functions and their lemmas.
- `queries.dfy`: the read loops.

## Model

| member | source | states |
|---|---|---|
| Text.IntToStr | src/commands/write_order.py:106 | `str(n)` of an int is non-empty decimal digits, with a leading `-` exactly when n is negative |
| Text.ParseIntToStr | src/commands/write_order.py:22 | `int(str(n)) == n` |
| Text.IntToStrInjective | src/commands/write_order.py:106 | distinct ids give distinct key suffixes |
| Text.IntToStrCanonical | src/commands/write_order.py:106 | `str(n)` has no leading zeros: it is "0" for 0, and otherwise its first digit, after any `-`, is not 0 |
| Text.SecondField | src/queries/read_order.py:71 | `s.split(":")[1]` exists exactly when `s` contains a colon, and holds no colon |
| Text.SecondFieldValue | src/queries/read_order.py:71 | `s.split(":")[1]` is the text between the first colon and the second colon, or the end of `s` |
| Text.StrLessIrreflexive | src/queries/read_order.py:25 | Python's string `<` is irreflexive |
| Text.StrLessAsymmetric | src/queries/read_order.py:25 | Python's string `<` is asymmetric |
| Text.StrLessTotal | src/queries/read_order.py:25 | any two strings are equal or ordered one way round |
| Text.StrLessTransitive | src/queries/read_order.py:25 | Python's string `<` is transitive |
| Python.Trunc | src/commands/write_order.py:111 | `int(x)` of a float truncates toward zero: the floor for x >= 0, the least integer not below x for x < 0, and 0 when abs(x) < 1 |
| Python.ToInt | src/commands/write_order.py:22 | `int(None)` and `int("")` raise; `int(n)` of an int is n; `int(f)` of a float is the integer within 1 of f on the side of zero |
| Python.ToIntOfText | src/commands/write_order.py:22 | `int(str(n)) == n` for every integer n, as `int()` of a string value; `Text.ParseIntToStr` is the same fact for the text parser alone |
| Python.ToIntRejects | src/commands/write_order.py:22-25 | `int(text)` raises when text has a non-digit anywhere but a leading sign |
| Python.ToReal | src/commands/write_order.py:36 | `float(None)` and `float("")` raise, `float(n)` of an int is n and `float(f)` of a float is f |
| Python.ToRealOfIntText | src/commands/write_order.py:36 | `float(text)` is `int(text)` whenever the text is an integer |
| Python.ToRealRejects | src/commands/write_order.py:36 | `float(text)` raises on a character that is not a digit, a dot or a leading sign |
| Python.ToRealOfDecimal | src/commands/write_order.py:36 | `float(w + "." + f)` for digit strings w and f, not both empty, is w plus f over 10 to the power len(f) |
| Python.ToRealSigned | src/commands/write_order.py:36 | a leading `-` negates `float(text)` and a leading `+` keeps it, and either raises exactly when `float(text)` does |
| Python.ToRealOfDecimalText | src/commands/write_order.py:36 | `float("3.25")` is 3.25 |
| Text.UnsignedDecimalText | src/commands/write_order.py:36 | unsigned decimal text `w.f` denotes w plus f over 10 to the power len(f) |
| Python.Take | src/queries/read_order.py:25 | `s[:n]` keeps the first min(n, len) elements, or drops -n from the end when n < 0, in order |
| Sorting.KeysDescending | src/queries/read_order.py:25 | `sorted(keys, reverse=True)` lists every key exactly once, each string strictly greater than the next |
| Sorting.InsertDescSorted | src/queries/read_order.py:42 | inserting a row into a list sorted largest first keeps it sorted |
| Sorting.InsertDescPerm | src/queries/read_order.py:42 | inserting a row adds exactly that row and loses none |
| Sorting.SortDesc | src/queries/read_order.py:42 | `sorted(..., key=k, reverse=True)` is non-increasing in k and a permutation of its input |
| Sorting.SortIncreasing | src/queries/read_order.py:20 | sorting rows whose keys strictly increase, largest first, reverses them |
| Stores.FindOrder | src/commands/write_order.py:81 | `filter(Order.id == id).first()` finds a row with that id exactly when one exists |
| Stores.WithoutOrder | src/commands/write_order.py:84 | deleting an order keeps exactly the other rows, in ascending id order |
| Stores.WithoutItemsOf | src/commands/write_order.py:84 | an item survives the cascade exactly when it belongs to another order |
| Stores.WithoutItemsOfCounts | src/commands/write_order.py:84 | the cascade keeps every item of another order as often as it occurred, and no item of the deleted one |
| Stores.DeleteKeepsConsistent | src/commands/write_order.py:84-85 | the delete keeps ids unique and ascending, and keeps every item attached to an existing order |
| Stores.RelationalStore.InsertOrder | src/commands/write_order.py:52-56 | the new row gets the next AUTO_INCREMENT id and is appended |
| Stores.RelationalStore.InsertItem | src/commands/write_order.py:58-65 | an item of an existing order is appended |
| Stores.RelationalStore.DeleteOrder | src/commands/write_order.py:84-85 | the row and its items go, nothing else changes |
| Stores.KeyPrefixes | src/commands/write_order.py:106 | `order:{n}` keys and `product:{n}` keys lie under their own prefix and never under the other |
| Stores.OrderKeyInjective | src/commands/write_order.py:106 | `order:{a}` == `order:{b}` only when a == b |
| Stores.ProductKeyInjective | src/commands/write_order.py:113 | `product:{a}` == `product:{b}` only when a == b |
| Stores.CacheStore.HSet | src/commands/write_order.py:106 | `hset` stores the summary under the key and keeps the keyspace well typed |
| Stores.CacheStore.Incr | src/commands/write_order.py:113 | `incr` starts a missing key at 0 and returns the new value |
| Stores.CacheStore.Delete | src/commands/write_order.py:118 | `delete` removes exactly that key |
| Counters.ApplyDeltasCount | src/commands/write_order.py:109-113 | a counter rises by exactly the sum of the increments addressed to it |
| Counters.ApplyDeltasKeys | src/commands/write_order.py:109-113 | increments create exactly the counters they address |
| Counters.ApplyDeltasWellTyped | src/commands/write_order.py:113 | increments keep every `order:` key a hash and every other key a counter |
| Counters.ApplyDeltasKeepsOthers | src/commands/write_order.py:113 | increments never touch a key outside `product:` |
| Resync.WithSummariesKeys | src/commands/write_order.py:132-142 | the copy adds exactly the rows' `order:` keys |
| Resync.CopyCount | src/commands/write_order.py:127-143 | copying a table with unique ids into a cache with no order key leaves exactly as many order keys as rows |
| Resync.CopyAllReadable | src/commands/write_order.py:132-142 | after the copy, every row's summary is stored under its key |
| Resync.CopyWellTyped | src/commands/write_order.py:142 | the copy keeps the keyspace well typed |
| Resync.CopyKeepsOthers | src/commands/write_order.py:142 | the copy leaves every non-`order:` key as it was |
| Resync.ItemDeltas | src/commands/write_order.py:160-161 | the rebuild issues one increment of `int(quantity)` per item, in table order |
| Resync.RebuildCounts | src/commands/write_order.py:152-161 | after the rebuild, each counter is the sum of int(quantity) over that product's items |
| Resync.RebuildKeys | src/commands/write_order.py:156-161 | after the rebuild, the `product:` keys are exactly the products with items, a zero counter included |
| Resync.RebuildKeepsOthers | src/commands/write_order.py:156-161 | the rebuild leaves every key outside `product:` as it was |
| Resync.RebuildIdempotent | src/commands/write_order.py:152-163 | running the rebuild twice gives the state of running it once |
| Resync.RebuildWellTyped | src/commands/write_order.py:152-161 | the rebuild keeps the keyspace well typed |
| Resync.RebuildAgrees | src/commands/write_order.py:152-161 | after the rebuild, every product counter agrees with the units sold in `order_items` |
| Resync.UnitsSoldAppend | src/commands/write_order.py:160-161 | units sold over two item lists is the sum over each |
| WriteOrder.ProductIds | src/commands/write_order.py:19-25 | `int(product_id)` of every item, in order, when all convert |
| WriteOrder.CheckRequest | src/commands/write_order.py:16-25 | a falsy user or an empty list raises first; a success is the product ids of a truthy user |
| WriteOrder.PriceLines | src/commands/write_order.py:34-50 | a success has one priced line per item, in input order |
| WriteOrder.Validate | src/commands/write_order.py:16-50 | a falsy user or an empty item list is rejected; an accepted request has one line per item |
| WriteOrder.AddOutcome | src/commands/write_order.py:14-73 | a falsy user, an empty list or a bad product id raises its validation error before the database is used; an unreachable database fails exactly when those checks pass; with the database up, a bad quantity or unknown product raises its validation error; otherwise the order gets the next id, and is projected exactly when the cache is up |
| WriteOrder.FirstBadProductIdNamed | src/commands/write_order.py:19-25 | the error names the raw product id of the first item whose id does not convert |
| WriteOrder.BadProductIdRejected | src/commands/write_order.py:21-25 | `add_order` with a truthy user raises the error naming the first bad product id, whatever the stores hold |
| WriteOrder.ValidateAccepts | src/commands/write_order.py:16-42 | a request is accepted exactly when the user is truthy, the list is non-empty and every item converts, is positive and is priced |
| WriteOrder.ValidatedLines | src/commands/write_order.py:34-50 | each accepted line carries the item's product id, the float quantity and the store's current price |
| WriteOrder.TotalFromStorePrices | src/commands/write_order.py:44-45 | the order total is the sum of store price × quantity over the items |
| WriteOrder.ExampleOrderTotal | src/commands/write_order.py:34-50 | two units at 19.99 give one line with a total of 39.98 |
| WriteOrder.ProjectionDeltaSum | src/commands/write_order.py:109-113 | the projection adds to a product exactly the positive int(quantity) of its lines |
| WriteOrder.ProjectionWritesSummary | src/commands/write_order.py:100-106 | the projection stores the new summary under `order:{id}` |
| WriteOrder.ProjectionCounters | src/commands/write_order.py:109-113 | each product counter rises by the positive int(quantity) of that product's lines |
| WriteOrder.ProjectionAddresses | src/commands/write_order.py:111-113 | a counter is incremented exactly when some line of that product has int(quantity) > 0 |
| WriteOrder.ProjectionTouchesOnly | src/commands/write_order.py:97-113 | the projection changes no key other than the order key and the counters of lines with int(quantity) > 0 |
| WriteOrder.ProjectionCreatesCounter | src/commands/write_order.py:111-113 | a counter exists after the projection exactly when it existed before or a positive line addressed it |
| WriteOrder.ProjectionWellTyped | src/commands/write_order.py:97-113 | the projection keeps the keyspace well typed |
| WriteOrder.ItemRows | src/commands/write_order.py:58-65 | one `order_items` row per line, carrying the new order id, in input order |
| WriteOrder.CountedUnitsOfItems | src/commands/write_order.py:109-113 | for positive quantities, what the projection counts equals the units sold of the inserted items |
| WriteOrder.AddKeepsAgreement | src/commands/write_order.py:58-113 | when the counters agree with the stored items, they still agree after an order is inserted and projected |
| WriteOrder.DeleteOutcome | src/commands/write_order.py:77-95 | returns 1 exactly when the row exists and both stores are up, and 0 exactly when the database is up and the row is missing |
| WriteOrder.DeleteLeavesCounters | src/commands/write_order.py:115-118 | deleting an order's hash leaves every product counter unchanged |
| WriteOrder.DeleteLeavesStaleCounter | src/commands/write_order.py:77-118 | a concrete case where counters agree with the items before a delete and disagree after it |
| Commands.ProductIdsFailFast | src/commands/write_order.py:21-25 | the id conversion stops at the first item that fails |
| Commands.PriceLinesFailFast | src/commands/write_order.py:34-42 | the pricing loop stops at the first item it rejects |
| Commands.ParseProductIds | src/commands/write_order.py:19-25 | the loop computes the product ids or the first bad raw id |
| Commands.PriceNext | src/commands/write_order.py:34-45 | one pass of the pricing loop adds that item's line, or ends the loop with the outcome of the whole loop |
| Commands.PriceItems | src/commands/write_order.py:31-50 | the loop computes the priced lines or the first error, and the running total is the lines' total |
| Commands.AccumulateTotal | src/commands/write_order.py:31-45 | the running `total_amount` is the sum of unit price times quantity over the priced lines |
| Commands.InsertItems | src/commands/write_order.py:58-65 | the item rows are appended in input order and nothing else changes |
| Commands.AddOrder | src/commands/write_order.py:14-73 | result as `WriteOrder.AddOutcome`; on commit, one new order row and its items in input order, and the projection when the cache is up; otherwise no store changes |
| Commands.AddOrderToCache | src/commands/write_order.py:97-113 | the keyspace becomes the projection of the new order, or stays unchanged when Redis is down |
| Commands.IncrementProduct | src/commands/write_order.py:113 | `r.incr(f"product:{product_id}", quantity)` adds the amount to that product's counter, starting from 0 |
| Commands.IncrementCounters | src/commands/write_order.py:109-113 | the loop applies exactly the increments of the lines with int(quantity) > 0, in order |
| Commands.IncrementLine | src/commands/write_order.py:109-113 | one pass of that loop extends the applied increments by exactly that line's |
| Commands.DeleteOrder | src/commands/write_order.py:77-95 | result as `WriteOrder.DeleteOutcome`; the row and its items go only when it is found; the hash goes only after the commit |
| Commands.DeleteOrderFromCache | src/commands/write_order.py:115-118 | removes exactly `order:{id}` |
| Commands.SyncAllOrdersToCache | src/commands/write_order.py:120-150 | copies the table only when Redis held no order key; returns the number of order keys before plus the rows added, which is the number after |
| Commands.SyncProductsToCache | src/commands/write_order.py:152-163 | after the deletes and increments the keyspace is the rebuilt one; if the database fails after the deletes, the counters are gone |
| ReadOrder.HGetAll | src/queries/read_order.py:12-15 | `hgetall` gives the stored hash, an empty reply for a missing key, and in a well-typed keyspace a hash exactly for present `order:` keys |
| ReadOrder.ReadAfterProjection | src/queries/read_order.py:12-15 | after `add_order`'s projection, `get_order_by_id("order:{id}")` returns the new summary |
| ReadOrder.ReadAfterSync | src/queries/read_order.py:12-15 | after the table copy, every row reads back under its key |
| ReadOrder.LatestOrders | src/queries/read_order.py:17-20 | at most `limit` rows and at most the whole table, ordered by id descending, all taken from the table |
| ReadOrder.LatestOrdersNewestFirst | src/queries/read_order.py:17-20 | on a table with ascending ids: the last `limit` rows, newest first, with strictly descending ids, and every omitted row older than every returned row |
| ReadOrder.NewOrderListedFirst | src/queries/read_order.py:17-20 | the order just inserted is listed first |
| ReadOrder.TableOrderIsNumeric | src/queries/read_order.py:17-20 | orders 9 and 10 come back as 10, then 9 |
| ReadOrder.OrderKeysNewestFirst | src/queries/read_order.py:25 | the sorted key list holds every `order:` key once, in strictly decreasing string order |
| ReadOrder.CachedOrders | src/queries/read_order.py:35-38 | one summary per order key, the i-th the `hgetall` of the i-th key in reverse string order |
| ReadOrder.Records | src/queries/read_order.py:26-28 | one summary per key, in key order, each the `hgetall` of its key |
| ReadOrder.CacheOrders | src/queries/read_order.py:22-29 | `min(limit, keys)` records for limit >= 0, and all but the last -limit for a negative limit |
| ReadOrder.CacheOrdersTopKeys | src/queries/read_order.py:22-29 | the i-th record is the hash of the i-th greatest order key, and every order key left out is a smaller string than every key listed |
| ReadOrder.CacheOrdersByKeyString | src/queries/read_order.py:25 | the listed orders come in strictly decreasing order of their key strings |
| ReadOrder.CacheListsEveryHash | src/queries/read_order.py:22-29 | with a limit covering all order keys, every stored summary is listed |
| ReadOrder.SyncedOrdersListed | src/queries/read_order.py:22-29 | after the table copy, every row's summary is listed |
| ReadOrder.StringOrderIsNotNumeric | src/queries/read_order.py:25 | with orders 9 and 10 in Redis, the list is order 9, then order 10 |
| ReadOrder.UserName | src/queries/read_order.py:33 | `user_map.get(id)` is None exactly for ids other than 1, 2 and 3 |
| ReadOrder.AddTo | src/queries/read_order.py:41 | `d[name] += x` on a dict: a new name is appended, an existing one keeps its place |
| ReadOrder.AddToNames | src/queries/read_order.py:41 | after `d[name] += x` the names are the old names plus `name` |
| ReadOrder.AddToDistinct | src/queries/read_order.py:41 | `d[name] += x` keeps one entry per name |
| ReadOrder.AddToLookup | src/queries/read_order.py:35-41 | `d[name] += x` raises that name's value (0.0 by default) by x and no other |
| ReadOrder.AddToSum | src/queries/read_order.py:41 | `d[name] += x` raises the sum of values by x |
| ReadOrder.ExpensesNames | src/queries/read_order.py:40-41 | the grouped entries are exactly one per name the orders' users map to |
| ReadOrder.ExpensesSums | src/queries/read_order.py:40-41 | each name's value is the sum of `total_amount` of the orders whose user maps to it |
| ReadOrder.ExpensesTotal | src/queries/read_order.py:40-41 | the values sum to the total of all orders |
| ReadOrder.UnknownUsersCollapse | src/queries/read_order.py:33-41 | users outside `user_map` share one None entry holding all their spending |
| ReadOrder.SortKeepsSum | src/queries/read_order.py:42 | sorting the items keeps their total |
| ReadOrder.SortKeepsDistinct | src/queries/read_order.py:42 | sorting the items keeps one entry per name |
| ReadOrder.SpendingReport | src/queries/read_order.py:42-43 | the report is non-increasing by spending and a permutation of the grouped entries |
| ReadOrder.SpendingReportContents | src/queries/read_order.py:31-43 | one entry per name, each holding its per-name sum, and the entries sum to the total of all orders |
| ReadOrder.SalePairs | src/queries/read_order.py:68-72 | one `(key.split(":")[1], counter)` pair per key, in key order |
| ReadOrder.SalePairsPerKey | src/queries/read_order.py:66-72 | over a duplicate-free listing of the `product:` keys, one pair per key, and each key's (text after the colon, counter) among them |
| ReadOrder.SalesReport | src/queries/read_order.py:64-75 | the report is non-increasing by count and a permutation of the pairs |
| ReadOrder.ProductIdField | src/queries/read_order.py:70 | the id read from `product:{pid}` is `str(pid)` |
| ReadOrder.SalesReportPerKey | src/queries/read_order.py:64-75 | exactly one pair per `product:` key; each key's pair is (text after the first colon, its counter) |
| ReadOrder.DistinctCard | src/queries/read_order.py:66 | a duplicate-free key listing has as many entries as there are keys |
| ReadOrder.SalesAfterRebuild | src/queries/read_order.py:64-75 | after the rebuild, every product of `order_items` appears as (str(pid), units sold) |
| ReadOrder.SalesAfterRebuildOnly | src/queries/read_order.py:64-75 | after the rebuild, every pair of the report is some item's product with its units sold |
| Queries.ReadHashes | src/queries/read_order.py:26-28 | the `hgetall` loop collects the summaries of the keys in order |
| Queries.GetOrdersFromCache | src/queries/read_order.py:22-29 | returns `ReadOrder.CacheOrders`, or raises when Redis is down |
| Queries.AccumulateExpenses | src/queries/read_order.py:40-41 | the accumulation loop builds the grouped entries |
| Queries.HighestSpendingUsers | src/queries/read_order.py:31-43 | returns `ReadOrder.SpendingReport` of all cached orders, or raises when Redis is down |
| Queries.CollectSales | src/queries/read_order.py:66-72 | the loop visits each `product:` key once and collects its pair: one pair per key, each key's (text after the colon, counter) among them |
| Queries.HighestSoldItemsFromCache | src/queries/read_order.py:64-75 | returns `ReadOrder.SalesReport` over a duplicate-free listing of the `product:` keys, or raises when Redis is down |

## Left out

- `get_highest_sold_items` (src/queries/read_order.py:45-62): a floating-point heuristic (`//`, `%` and a tolerance of 1e-2 against hard-coded prices). Exact reals cannot state it faithfully.
- `src/db.py` and the views: connection factories and HTML rendering.
- Sessions: opening, closing and rollback of the connection are not modelled. A failed transaction is modelled as "nothing written".
- Logging: the `print` calls are not modelled.
- Concurrency: writers on either store, and operations interleaving between the database commit and the cache writes.
- Floating point:
  - quantities, prices and totals are exact reals, so rounding, NaN and infinities are not modelled;
  - `Decimal` prices and the `float(Decimal)` conversion of the synchronisation are treated as that exact value;
  - the column types of the `models/` package are not part of this model.
- Python's `int()` and `float()` on strings accept only an optional sign and ASCII digits (for `float`, with at most one dot). Whitespace, `_` separators, exponents, `inf` and `nan` are not modelled.
- A Redis failure in the middle of the projection, after some commands succeeded, is not modelled. A store is either reachable for the whole call or fails at its first command.
- Database constraint and foreign-key errors on insert are not modelled, and neither is a `KeyError` on a malformed item dictionary.
- Hash fields are stored typed, not as Redis strings:
  - `int(order['user_id'])` is the identity on the stored id;
  - `float(order['total_amount'])` is the identity on the stored total;
  - `int(r.get(key))` is the stored counter; `Text.ParseIntToStr` states the integer round trip.
- Query orders:
  - the order in which Redis enumerates `KEYS` is left unconstrained: `Queries.HighestSoldItemsFromCache` returns it as a ghost listing;
  - the order of `SELECT * FROM orders` is taken to be ascending id.
- `ReadOrder.LatestOrders`: the limit is a natural number; a negative `LIMIT` is not modelled.
- `Queries.GetOrdersFromCache`, `Queries.HighestSpendingUsers` and `Queries.HighestSoldItemsFromCache` require a well-typed keyspace. A WRONGTYPE error on a non-hash `order:` key or a non-counter `product:` key is not modelled; every write of the model keeps the keyspace well typed.
- `ReadOrder.HGetAll`: `get_order_by_id` passes its argument to Redis unchanged. The model takes it as a key string and does not decide whether callers pass `order:{id}` or a bare id.
- `ReadOrder.CacheOrdersByKeyString` states the order of the listed summaries only for a keyspace where each hash's key is `order:{its id}`, as both writers store it.
- Counter overflow: Redis's `INCR` fails past 64-bit signed range; counters here are unbounded integers.
- Timestamps: `datetime.now().isoformat()` is the parameter `now`. The order row and the hash carry the same string.
