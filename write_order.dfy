/**
 * The order write path: `add_order` validates a request, prices it from the
 * store, inserts the order and its items in one transaction and then projects
 * the order into the cache; `delete_order` removes an order and its summary;
 * two reconciliation routines copy the orders into an empty cache and rebuild
 * the product counters from the order items.
 */
module WriteOrder {
  import opened Wrappers
  import opened Text
  import opened Python
  import opened Stores
  import opened Counters
  import opened Resync

  /** One entry of the request's `items` list. */
  datatype RequestItem = RequestItem(productId: Raw, quantity: Raw)

  /** One entry of `order_items_data`: a validated, priced line. */
  datatype Line = Line(productId: int, quantity: real, unitPrice: real)

  /** The ValueErrors `add_order` raises on a bad request. */
  datatype ValidationError =
    | MissingUserOrItems
    | InvalidProductId(raw: Raw)
    | InvalidQuantity(raw: Raw)
    | NonPositiveQuantity
    | UnknownProduct(productId: int)

  /**
   * What `add_order` returns or raises: the new id after a commit, the same id
   * when the commit succeeded but the cache write raised, a validation error,
   * or the error of an unreachable database (rolled back).
   */
  datatype AddResult =
    | Committed(id: int)
    | ProjectionFailed(id: int)
    | Invalid(error: ValidationError)
    | DatabaseFailed

  /** What `delete_order` returns (1 or 0) or raises. */
  datatype DeleteResult = Deleted | NotFound | DeleteProjectionFailed | DeleteDatabaseFailed

  // ----- validation and pricing -----

  /** `int(item['product_id'])` for every item; a failure carries the raw value of the first item that fails. */
  function ProductIds(items: seq<RequestItem>): (r: Result<seq<int>, Raw>)
    ensures r.Ok? ==> |r.value| == |items|
    ensures r.Ok? ==> forall i :: 0 <= i < |items| ==> ToInt(items[i].productId) == Some(r.value[i])
    decreases |items|
  {
    if items == [] then Ok([])
    else
      var last := items[|items| - 1];
      match ProductIds(items[..|items| - 1])
      case Err(raw) => Err(raw)
      case Ok(ids) =>
        match ToInt(last.productId)
        case None => Err(last.productId)
        case Some(pid) => Ok(ids + [pid])
  }

  /** The checks made before the database is touched. */
  function CheckRequest(userId: Option<int>, items: seq<RequestItem>): (r: Result<seq<int>, ValidationError>)
    ensures !Truthy(userId) || items == [] ==> r == Err(MissingUserOrItems)
    ensures r.Ok? ==> Truthy(userId) && ProductIds(items) == Ok(r.value)
  {
    if !Truthy(userId) || items == [] then Err(MissingUserOrItems)
    else
      match ProductIds(items)
      case Err(raw) => Err(InvalidProductId(raw))
      case Ok(ids) => Ok(ids)
  }

  /** `{product.id: product.price}` for the products whose id was requested. */
  function PriceMap(prices: map<int, real>, ids: seq<int>): (pm: map<int, real>)
    ensures forall p :: p in pm <==> p in prices && p in ids
    ensures forall p :: p in pm ==> pm[p] == prices[p]
  {
    map p | p in prices && p in ids :: prices[p]
  }

  /** The checks on one item, in the order the loop makes them. */
  function PriceLine(item: RequestItem, pid: int, priceMap: map<int, real>): Result<Line, ValidationError>
  {
    match ToReal(item.quantity)
    case None => Err(InvalidQuantity(item.quantity))
    case Some(qty) =>
      if qty <= 0.0 then Err(NonPositiveQuantity)
      else if pid !in priceMap then Err(UnknownProduct(pid))
      else Ok(Line(pid, qty, priceMap[pid]))
  }

  /** The pricing loop: every line priced, or the error of the first item that fails. */
  function PriceLines(items: seq<RequestItem>, ids: seq<int>, priceMap: map<int, real>): (r: Result<seq<Line>, ValidationError>)
    requires |ids| == |items|
    ensures r.Ok? ==> |r.value| == |items|
    ensures r.Ok? ==> forall i :: 0 <= i < |items| ==> PriceLine(items[i], ids[i], priceMap) == Ok(r.value[i])
    decreases |items|
  {
    if items == [] then Ok([])
    else
      var n := |items| - 1;
      match PriceLines(items[..n], ids[..n], priceMap)
      case Err(e) => Err(e)
      case Ok(lines) =>
        match PriceLine(items[n], ids[n], priceMap)
        case Err(e) => Err(e)
        case Ok(line) =>
          assert forall i :: 0 <= i < n ==> items[..n][i] == items[i] && ids[..n][i] == ids[i];
          Ok(lines + [line])
  }

  /** `unit_price * qty`: what one line adds to `total_amount`. */
  function Amount(line: Line): real
  {
    line.unitPrice * line.quantity
  }

  /** `total_amount`: the sum of unit price times quantity over the lines. */
  function Total(lines: seq<Line>): real
    decreases |lines|
  {
    if lines == [] then 0.0
    else Total(lines[..|lines| - 1]) + Amount(lines[|lines| - 1])
  }

  /** The request as `add_order` validates and prices it against the store's prices. */
  function Validate(userId: Option<int>, items: seq<RequestItem>, prices: map<int, real>): (r: Result<seq<Line>, ValidationError>)
    ensures !Truthy(userId) || items == [] ==> r == Err(MissingUserOrItems)
    ensures r.Ok? ==> Truthy(userId) && |r.value| == |items|
  {
    match CheckRequest(userId, items)
    case Err(e) => Err(e)
    case Ok(ids) => PriceLines(items, ids, PriceMap(prices, ids))
  }

  /** The result of `add_order` as a function of the request and the state of both stores. */
  function AddOutcome(userId: Option<int>, items: seq<RequestItem>, prices: map<int, real>,
                      databaseUp: bool, cacheUp: bool, nextId: int): (r: AddResult)
    ensures r.Committed? || r.ProjectionFailed? <==> databaseUp && Validate(userId, items, prices).Ok?
    ensures r.Committed? || r.ProjectionFailed? ==> r.id == nextId && (r.Committed? <==> cacheUp)
    ensures r.Invalid? ==> Validate(userId, items, prices) == Err(r.error)
    ensures !Truthy(userId) || items == [] ==> r == Invalid(MissingUserOrItems)
    ensures CheckRequest(userId, items).Err? ==> r == Invalid(CheckRequest(userId, items).error)
    ensures r.DatabaseFailed? <==> !databaseUp && CheckRequest(userId, items).Ok?
    ensures databaseUp && Validate(userId, items, prices).Err? ==> r == Invalid(Validate(userId, items, prices).error)
  {
    match CheckRequest(userId, items)
    case Err(e) => Invalid(e)
    case Ok(ids) =>
      if !databaseUp then DatabaseFailed
      else
        match PriceLines(items, ids, PriceMap(prices, ids))
        case Err(e) => Invalid(e)
        case Ok(_) => if cacheUp then Committed(nextId) else ProjectionFailed(nextId)
  }

  // ----- properties of validation -----

  /** An item `add_order` accepts: an integer product id of a stored product and a positive quantity. */
  predicate Priceable(item: RequestItem, prices: map<int, real>)
  {
    && ToInt(item.productId).Some?
    && ToReal(item.quantity).Some?
    && ToReal(item.quantity).value > 0.0
    && ToInt(item.productId).value in prices
  }

  /** "Article ID ... n'est pas valide": the first product id that does not parse is named. */
  lemma {:induction false} FirstBadProductIdNamed(items: seq<RequestItem>, k: int)
    requires 0 <= k < |items| && ToInt(items[k].productId).None?
    requires forall j :: 0 <= j < k ==> ToInt(items[j].productId).Some?
    ensures ProductIds(items) == Err(items[k].productId)
    decreases |items|
  {
    var n := |items| - 1;
    assert items[..n][..k] == items[..k];
    if k < n {
      FirstBadProductIdNamed(items[..n], k);
    } else {
      ProductIdsOfGoodPrefix(items[..n]);
    }
  }

  lemma {:induction false} ProductIdsOfGoodPrefix(items: seq<RequestItem>)
    requires forall j :: 0 <= j < |items| ==> ToInt(items[j].productId).Some?
    ensures ProductIds(items).Ok?
    decreases |items|
  {
    if items != [] {
      ProductIdsOfGoodPrefix(items[..|items| - 1]);
    }
  }

  /**
   * A product id that does not parse makes `add_order` fail with that raw
   * value, whatever the state of the stores, so before any query.
   */
  lemma BadProductIdRejected(userId: Option<int>, items: seq<RequestItem>, k: int, prices: map<int, real>,
                             databaseUp: bool, cacheUp: bool, nextId: int)
    requires Truthy(userId)
    requires 0 <= k < |items| && ToInt(items[k].productId).None?
    requires forall j :: 0 <= j < k ==> ToInt(items[j].productId).Some?
    ensures AddOutcome(userId, items, prices, databaseUp, cacheUp, nextId) == Invalid(InvalidProductId(items[k].productId))
  {
    FirstBadProductIdNamed(items, k);
  }

  lemma {:induction false} PriceLinesOk(items: seq<RequestItem>, ids: seq<int>, priceMap: map<int, real>)
    requires |ids| == |items|
    requires forall i :: 0 <= i < |items| ==> PriceLine(items[i], ids[i], priceMap).Ok?
    ensures PriceLines(items, ids, priceMap).Ok?
    decreases |items|
  {
    if items != [] {
      var n := |items| - 1;
      PriceLinesOk(items[..n], ids[..n], priceMap);
    }
  }

  /** `add_order` accepts a request exactly when the user is given and every item is priceable. */
  lemma ValidateAccepts(userId: Option<int>, items: seq<RequestItem>, prices: map<int, real>)
    ensures Validate(userId, items, prices).Ok? <==>
      Truthy(userId) && items != [] && forall i :: 0 <= i < |items| ==> Priceable(items[i], prices)
  {
    if Truthy(userId) && items != [] {
      if forall i :: 0 <= i < |items| ==> Priceable(items[i], prices) {
        ProductIdsOfGoodPrefix(items);
        var ids := ProductIds(items).value;
        PriceLinesOk(items, ids, PriceMap(prices, ids));
      }
      if Validate(userId, items, prices).Ok? {
        var ids := ProductIds(items).value;
        forall i | 0 <= i < |items| ensures Priceable(items[i], prices) {
          assert PriceLine(items[i], ids[i], PriceMap(prices, ids)).Ok?;
        }
      }
    }
  }

  /**
   * An accepted request becomes one line per item, in request order, with the
   * parsed id and quantity and the unit price taken from the store.
   */
  lemma ValidatedLines(userId: Option<int>, items: seq<RequestItem>, prices: map<int, real>, lines: seq<Line>)
    requires Validate(userId, items, prices) == Ok(lines)
    ensures |lines| == |items|
    ensures forall i :: 0 <= i < |items| ==>
      && Priceable(items[i], prices)
      && lines[i] == Line(ToInt(items[i].productId).value, ToReal(items[i].quantity).value,
                          prices[ToInt(items[i].productId).value])
  {
    var ids := ProductIds(items).value;
    forall i | 0 <= i < |items|
      ensures Priceable(items[i], prices)
      ensures lines[i] == Line(ids[i], ToReal(items[i].quantity).value, prices[ids[i]])
    {
      assert PriceLine(items[i], ids[i], PriceMap(prices, ids)) == Ok(lines[i]);
    }
  }

  /** The value of the lines at the store's current prices. */
  function StoreValue(lines: seq<Line>, prices: map<int, real>): real
    requires forall i :: 0 <= i < |lines| ==> lines[i].productId in prices
    decreases |lines|
  {
    if lines == [] then 0.0
    else
      var last := lines[|lines| - 1];
      StoreValue(lines[..|lines| - 1], prices) + prices[last.productId] * last.quantity
  }

  lemma {:induction false} TotalAtSnapshot(lines: seq<Line>, prices: map<int, real>)
    requires forall i :: 0 <= i < |lines| ==> lines[i].productId in prices && lines[i].unitPrice == prices[lines[i].productId]
    ensures Total(lines) == StoreValue(lines, prices)
    decreases |lines|
  {
    if lines != [] {
      TotalAtSnapshot(lines[..|lines| - 1], prices);
    }
  }

  /** `total_amount` is the sum of store price times quantity: the caller supplies no prices. */
  lemma TotalFromStorePrices(userId: Option<int>, items: seq<RequestItem>, prices: map<int, real>, lines: seq<Line>)
    requires Validate(userId, items, prices) == Ok(lines)
    ensures forall i :: 0 <= i < |lines| ==> lines[i].productId in prices
    ensures Total(lines) == StoreValue(lines, prices)
  {
    ValidatedLines(userId, items, prices, lines);
    TotalAtSnapshot(lines, prices);
  }

  /** The order for user 1 of two units of product 10 at 19.99 totals 39.98. */
  lemma ExampleOrderTotal()
    ensures Validate(Some(1), [RequestItem(Int(10), Int(2))], map[10 := 19.99]) == Ok([Line(10, 2.0, 19.99)])
    ensures Total([Line(10, 2.0, 19.99)]) == 39.98
  {
    var items := [RequestItem(Int(10), Int(2))];
    assert items[..0] == [];
    assert ProductIds(items[..0]) == Ok([]);
    assert ToInt(items[0].productId) == Some(10);
    assert ProductIds(items) == Ok([] + [10]);
    var pm := PriceMap(map[10 := 19.99], [10]);
    assert pm == map[10 := 19.99];
    assert PriceLine(items[0], 10, pm) == Ok(Line(10, 2.0, 19.99));
    assert PriceLines(items[..0], [10][..0], pm) == Ok([]);
    assert PriceLines(items, [10], pm) == Ok([] + [Line(10, 2.0, 19.99)]);
    assert [] + [Line(10, 2.0, 19.99)] == [Line(10, 2.0, 19.99)];
    var ids: seq<int> := [10];
    assert [] + ids == ids;
    assert ProductIds(items) == Ok(ids);
    assert Truthy(Some(1));
    assert CheckRequest(Some(1), items) == Ok(ids);
    assert [Line(10, 2.0, 19.99)][..0] == [];
  }

  // ----- the cache projection of a new order -----

  /** The summary `add_order_to_redis` writes; `now` is `datetime.now().isoformat()`. */
  function NewSummary(orderId: int, userId: int, totalAmount: real, now: string): OrderSummary
  {
    OrderSummary(orderId, userId, totalAmount, now)
  }

  /** The increments of `add_order_to_redis`: `int(quantity)` per line, only when positive. */
  function ProjectionDeltas(lines: seq<Line>): seq<Delta>
    decreases |lines|
  {
    if lines == [] then []
    else
      var last := lines[|lines| - 1];
      var units := Trunc(last.quantity);
      ProjectionDeltas(lines[..|lines| - 1]) + (if units > 0 then [Delta(last.productId, units)] else [])
  }

  /** The increments of one line more. */
  lemma ProjectionDeltasStep(lines: seq<Line>, i: int)
    requires 0 <= i < |lines|
    ensures var units := Trunc(lines[i].quantity);
            ProjectionDeltas(lines[..i + 1]) ==
              ProjectionDeltas(lines[..i]) + if units > 0 then [Delta(lines[i].productId, units)] else []
  {
    var pre := lines[..i + 1];
    assert pre[..|pre| - 1] == lines[..i];
    assert pre[|pre| - 1] == lines[i];
  }

  /** The units of product `pid` the projection counts: positive truncated quantities only. */
  function CountedUnits(lines: seq<Line>, pid: int): int
    decreases |lines|
  {
    if lines == [] then 0
    else
      var last := lines[|lines| - 1];
      CountedUnits(lines[..|lines| - 1], pid) +
        (if last.productId == pid && Trunc(last.quantity) > 0 then Trunc(last.quantity) else 0)
  }

  /** The keyspace after `add_order_to_redis`: the summary, then the counter increments. */
  function Projected(kv: map<string, Entry>, summary: OrderSummary, lines: seq<Line>): map<string, Entry>
  {
    ApplyDeltas(kv[OrderKey(summary.id) := Summary(summary)], ProjectionDeltas(lines))
  }

  lemma DeltaSumAppend(ds: seq<Delta>, es: seq<Delta>, pid: int)
    ensures DeltaSum(ds + es, pid) == DeltaSum(ds, pid) + DeltaSum(es, pid)
    decreases |es|
  {
    if es == [] {
      assert ds + es == ds;
    } else {
      assert (ds + es)[..|ds + es| - 1] == ds + es[..|es| - 1];
      DeltaSumAppend(ds, es[..|es| - 1], pid);
    }
  }

  lemma {:induction false} ProjectionDeltaSum(lines: seq<Line>, pid: int)
    ensures DeltaSum(ProjectionDeltas(lines), pid) == CountedUnits(lines, pid)
    decreases |lines|
  {
    if lines != [] {
      var last := lines[|lines| - 1];
      var units := Trunc(last.quantity);
      ProjectionDeltaSum(lines[..|lines| - 1], pid);
      DeltaSumAppend(ProjectionDeltas(lines[..|lines| - 1]), if units > 0 then [Delta(last.productId, units)] else [], pid);
      if units > 0 {
        assert [Delta(last.productId, units)][..0] == [];
      }
    }
  }

  /** The projection stores the summary under `order:{id}`. */
  lemma ProjectionWritesSummary(kv: map<string, Entry>, summary: OrderSummary, lines: seq<Line>)
    ensures OrderKey(summary.id) in Projected(kv, summary, lines)
    ensures Projected(kv, summary, lines)[OrderKey(summary.id)] == Summary(summary)
  {
    KeyPrefixes(summary.id);
    OnlyProductKeysAddressed(ProjectionDeltas(lines), OrderKey(summary.id));
    ApplyDeltasOther(kv[OrderKey(summary.id) := Summary(summary)], ProjectionDeltas(lines), OrderKey(summary.id));
  }

  /** Each `product:{pid}` counter rises by the positive `int(quantity)` of that product's lines. */
  lemma ProjectionCounters(kv: map<string, Entry>, summary: OrderSummary, lines: seq<Line>, pid: int)
    ensures Count(Projected(kv, summary, lines), ProductKey(pid)) == Count(kv, ProductKey(pid)) + CountedUnits(lines, pid)
  {
    KeysDistinct(summary.id, pid);
    ApplyDeltasCount(kv[OrderKey(summary.id) := Summary(summary)], ProjectionDeltas(lines), pid);
    ProjectionDeltaSum(lines, pid);
  }

  /** Some line of at least one whole unit has counter key `k`. */
  predicate CountsTowards(lines: seq<Line>, k: string)
    decreases |lines|
  {
    lines != [] &&
      (CountsTowards(lines[..|lines| - 1], k) ||
       (k == ProductKey(lines[|lines| - 1].productId) && Trunc(lines[|lines| - 1].quantity) > 0))
  }

  lemma {:induction false} CountsTowardsSome(lines: seq<Line>, k: string)
    requires forall i :: 0 <= i < |lines| && Trunc(lines[i].quantity) > 0 ==> k != ProductKey(lines[i].productId)
    ensures !CountsTowards(lines, k)
    decreases |lines|
  {
    if lines != [] {
      var init := lines[..|lines| - 1];
      assert forall i :: 0 <= i < |init| ==> init[i] == lines[i];
      CountsTowardsSome(init, k);
    }
  }

  /** The projection addresses `k` exactly when some line of at least one whole unit has key `k`. */
  lemma {:induction false} ProjectionAddresses(lines: seq<Line>, k: string)
    ensures Addressed(ProjectionDeltas(lines), k) <==> CountsTowards(lines, k)
    decreases |lines|
  {
    if lines != [] {
      var init := lines[..|lines| - 1];
      var last := lines[|lines| - 1];
      var units := Trunc(last.quantity);
      ProjectionAddresses(init, k);
      var ds := ProjectionDeltas(init);
      if units > 0 {
        var all := ds + [Delta(last.productId, units)];
        assert all[..|all| - 1] == ds;
        assert Addressed(all, k) == (Addressed(ds, k) || k == ProductKey(last.productId));
      } else {
        assert ds + [] == ds;
      }
    }
  }

  /**
   * The projection creates a `product:{pid}` counter only for a product with a
   * line of at least one whole unit; every other key except `order:{id}` is left as it was.
   */
  lemma ProjectionTouchesOnly(kv: map<string, Entry>, summary: OrderSummary, lines: seq<Line>, k: string)
    requires k != OrderKey(summary.id)
    requires forall i :: 0 <= i < |lines| && Trunc(lines[i].quantity) > 0 ==> k != ProductKey(lines[i].productId)
    ensures k in Projected(kv, summary, lines) <==> k in kv
    ensures k in kv ==> Projected(kv, summary, lines)[k] == kv[k]
  {
    CountsTowardsSome(lines, k);
    ProjectionAddresses(lines, k);
    ApplyDeltasOther(kv[OrderKey(summary.id) := Summary(summary)], ProjectionDeltas(lines), k);
  }

  /** A counter is created only for a product with a line of at least one whole unit. */
  lemma ProjectionCreatesCounter(kv: map<string, Entry>, summary: OrderSummary, lines: seq<Line>, pid: int)
    ensures ProductKey(pid) in Projected(kv, summary, lines) <==>
      ProductKey(pid) in kv || CountsTowards(lines, ProductKey(pid))
  {
    KeysDistinct(summary.id, pid);
    ProjectionAddresses(lines, ProductKey(pid));
    ApplyDeltasKeys(kv[OrderKey(summary.id) := Summary(summary)], ProjectionDeltas(lines), ProductKey(pid));
  }

  lemma ProjectionWellTyped(kv: map<string, Entry>, summary: OrderSummary, lines: seq<Line>)
    requires WellTyped(kv)
    ensures WellTyped(Projected(kv, summary, lines))
  {
    KeyPrefixes(summary.id);
    ApplyDeltasWellTyped(kv[OrderKey(summary.id) := Summary(summary)], ProjectionDeltas(lines));
  }

  // ----- the stored items and the counters -----

  /** The `order_items` rows of a new order: one per line, in request order. */
  function ItemRows(orderId: int, lines: seq<Line>): (rows: seq<ItemRow>)
    ensures |rows| == |lines|
    ensures forall i :: 0 <= i < |lines| ==>
      rows[i] == ItemRow(orderId, lines[i].productId, lines[i].quantity, lines[i].unitPrice)
    decreases |lines|
  {
    if lines == [] then []
    else
      var last := lines[|lines| - 1];
      ItemRows(orderId, lines[..|lines| - 1]) + [ItemRow(orderId, last.productId, last.quantity, last.unitPrice)]
  }

  /** For positive quantities, the units the projection counts are the units the new items record. */
  lemma {:induction false} CountedUnitsOfItems(orderId: int, lines: seq<Line>, pid: int)
    requires forall i :: 0 <= i < |lines| ==> lines[i].quantity > 0.0
    ensures CountedUnits(lines, pid) == UnitsSold(ItemRows(orderId, lines), pid)
    decreases |lines|
  {
    if lines != [] {
      var n := |lines| - 1;
      var init := lines[..n];
      var rows := ItemRows(orderId, lines);
      assert rows[..n] == ItemRows(orderId, init);
      assert forall i :: 0 <= i < n ==> init[i] == lines[i];
      CountedUnitsOfItems(orderId, init, pid);
    }
  }

  /**
   * A committed and projected order keeps every counter equal to the units
   * sold recorded in `order_items`, the new order's items included.
   */
  lemma AddKeepsAgreement(kv: map<string, Entry>, stored: seq<ItemRow>, userId: Option<int>,
                          items: seq<RequestItem>, prices: map<int, real>, lines: seq<Line>, summary: OrderSummary)
    requires Validate(userId, items, prices) == Ok(lines)
    requires CountersAgree(kv, stored)
    ensures CountersAgree(Projected(kv, summary, lines), stored + ItemRows(summary.id, lines))
  {
    ValidatedLines(userId, items, prices, lines);
    assert forall i :: 0 <= i < |lines| ==> lines[i].quantity > 0.0;
    forall pid ensures Count(Projected(kv, summary, lines), ProductKey(pid)) ==
                       UnitsSold(stored + ItemRows(summary.id, lines), pid) {
      ProjectionCountsSold(kv, stored, lines, summary, pid);
    }
  }

  lemma ProjectionCountsSold(kv: map<string, Entry>, stored: seq<ItemRow>, lines: seq<Line>, summary: OrderSummary, pid: int)
    requires forall i :: 0 <= i < |lines| ==> lines[i].quantity > 0.0
    requires Count(kv, ProductKey(pid)) == UnitsSold(stored, pid)
    ensures Count(Projected(kv, summary, lines), ProductKey(pid)) == UnitsSold(stored + ItemRows(summary.id, lines), pid)
  {
    ProjectionCounters(kv, summary, lines, pid);
    CountedUnitsOfItems(summary.id, lines, pid);
    UnitsSoldAppend(stored, ItemRows(summary.id, lines), pid);
  }

  // ----- deletion -----

  /** The result of `delete_order` as a function of the table and the state of both stores. */
  function DeleteOutcome(orders: seq<OrderRow>, orderId: int, databaseUp: bool, cacheUp: bool): (r: DeleteResult)
    ensures r.Deleted? || r.DeleteProjectionFailed? <==> databaseUp && orderId in Ids(orders)
    ensures r.NotFound? <==> databaseUp && orderId !in Ids(orders)
    ensures r.Deleted? <==> databaseUp && cacheUp && orderId in Ids(orders)
  {
    if !databaseUp then DeleteDatabaseFailed
    else
      match FindOrder(orders, orderId)
      case None => NotFound
      case Some(_) => if cacheUp then Deleted else DeleteProjectionFailed
  }

  /** Deleting the summary of an order leaves every product counter as it was. */
  lemma DeleteLeavesCounters(kv: map<string, Entry>, orderId: int, pid: int)
    ensures Count(kv - {OrderKey(orderId)}, ProductKey(pid)) == Count(kv, ProductKey(pid))
  {
    KeysDistinct(orderId, pid);
  }

  /**
   * Since deletion leaves the counters alone, it breaks their agreement with
   * `order_items`: after deleting the only order, of two units of product 7,
   * the counter still says 2 while no item is left.
   */
  lemma DeleteLeavesStaleCounter()
    ensures var items := [ItemRow(1, 7, 2.0, 5.0)];
            var kv := map[OrderKey(1) := Summary(OrderSummary(1, 3, 10.0, "t")), ProductKey(7) := Counter(2)];
            && CountersAgree(kv, items)
            && !CountersAgree(kv - {OrderKey(1)}, WithoutItemsOf(items, 1))
  {
    var items := [ItemRow(1, 7, 2.0, 5.0)];
    var kv := map[OrderKey(1) := Summary(OrderSummary(1, 3, 10.0, "t")), ProductKey(7) := Counter(2)];
    assert items[..0] == [];
    forall pid ensures Count(kv, ProductKey(pid)) == UnitsSold(items, pid) {
      if pid != 7 && ProductKey(pid) == ProductKey(7) {
        ProductKeyInjective(pid, 7);
      }
    }
    assert WithoutItemsOf(items, 1) == [];
    DeleteLeavesCounters(kv, 1, 7);
    assert Count(kv - {OrderKey(1)}, ProductKey(7)) == 2;
  }
}
