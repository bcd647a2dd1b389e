/**
 * The commands of the write path, step by step against the two stores:
 * each method is proved to leave the stores in the state the functions of
 * `WriteOrder` and `Resync` describe, and to return what they predict.
 */
module Commands {
  import opened Wrappers
  import opened Python
  import opened Stores
  import opened Counters
  import opened Resync
  import opened WriteOrder

  /** A failure on a prefix of the items is the failure of the whole id loop. */
  lemma {:induction false} ProductIdsFailFast(items: seq<RequestItem>, j: int)
    requires 0 <= j <= |items| && ProductIds(items[..j]).Err?
    ensures ProductIds(items) == ProductIds(items[..j])
    decreases |items|
  {
    if j < |items| {
      var n := |items| - 1;
      assert items[..n][..j] == items[..j];
      ProductIdsFailFast(items[..n], j);
    } else {
      assert items[..j] == items;
    }
  }

  /** A failure on a prefix of the items is the failure of the whole pricing loop. */
  lemma {:induction false} PriceLinesFailFast(items: seq<RequestItem>, ids: seq<int>, priceMap: map<int, real>, j: int)
    requires |ids| == |items| && 0 <= j <= |items|
    requires PriceLines(items[..j], ids[..j], priceMap).Err?
    ensures PriceLines(items, ids, priceMap) == PriceLines(items[..j], ids[..j], priceMap)
    decreases |items|
  {
    if j < |items| {
      var n := |items| - 1;
      assert items[..n][..j] == items[..j];
      assert ids[..n][..j] == ids[..j];
      PriceLinesFailFast(items[..n], ids[..n], priceMap, j);
    } else {
      assert items[..j] == items && ids[..j] == ids;
    }
  }

  /** The `int(item['product_id'])` loop of `add_order`. */
  method ParseProductIds(items: seq<RequestItem>) returns (r: Result<seq<int>, Raw>)
    ensures r == ProductIds(items)
  {
    var ids: seq<int> := [];
    var i := 0;
    while i < |items|
      invariant 0 <= i <= |items|
      invariant ProductIds(items[..i]) == Ok(ids)
    {
      assert items[..i + 1][..i] == items[..i];
      var pid := ToInt(items[i].productId);
      if pid.None? {
        ProductIdsFailFast(items, i + 1);
        return Err(items[i].productId);
      }
      ids := ids + [pid.value];
      i := i + 1;
    }
    assert items[..|items|] == items;
    r := Ok(ids);
  }

  /** One more item through the pricing loop, when it prices. */
  lemma PriceLinesStep(items: seq<RequestItem>, ids: seq<int>, priceMap: map<int, real>, i: int,
                       lines: seq<Line>, line: Line)
    requires |ids| == |items| && 0 <= i < |items|
    requires PriceLines(items[..i], ids[..i], priceMap) == Ok(lines)
    requires PriceLine(items[i], ids[i], priceMap) == Ok(line)
    ensures PriceLines(items[..i + 1], ids[..i + 1], priceMap) == Ok(lines + [line])
  {
    assert items[..i + 1][..i] == items[..i];
    assert ids[..i + 1][..i] == ids[..i];
  }

  /** The running total after one more line. */
  lemma TotalPush(lines: seq<Line>, line: Line)
    ensures Total(lines + [line]) == Total(lines) + Amount(line)
  {
    assert (lines + [line])[..|lines|] == lines;
  }

  /** An item the pricing loop rejects is the outcome of the whole loop. */
  lemma PriceLinesStop(items: seq<RequestItem>, ids: seq<int>, priceMap: map<int, real>, i: int, lines: seq<Line>)
    requires |ids| == |items| && 0 <= i < |items|
    requires PriceLines(items[..i], ids[..i], priceMap) == Ok(lines)
    requires PriceLine(items[i], ids[i], priceMap).Err?
    ensures PriceLines(items, ids, priceMap) == Err(PriceLine(items[i], ids[i], priceMap).error)
  {
    assert items[..i + 1][..i] == items[..i];
    assert ids[..i + 1][..i] == ids[..i];
    PriceLinesFailFast(items, ids, priceMap, i + 1);
  }

  /** The running `total_amount` over the priced lines. */
  method AccumulateTotal(lines: seq<Line>) returns (total: real)
    ensures total == Total(lines)
  {
    total := 0.0;
    var i := 0;
    while i < |lines|
      invariant 0 <= i <= |lines|
      invariant total == Total(lines[..i])
    {
      assert lines[..i + 1] == lines[..i] + [lines[i]];
      TotalPush(lines[..i], lines[i]);
      total := total + Amount(lines[i]);
      i := i + 1;
    }
    assert lines[..|lines|] == lines;
  }

  /**
   * One pass of the pricing loop of `add_order` over item `i`: the lines so far
   * with this item's line added, or the error that ends the whole loop.
   */
  method PriceNext(items: seq<RequestItem>, ids: seq<int>, priceMap: map<int, real>, i: int, lines: seq<Line>)
    returns (next: Result<seq<Line>, ValidationError>)
    requires |ids| == |items| && 0 <= i < |items|
    requires PriceLines(items[..i], ids[..i], priceMap) == Ok(lines)
    ensures next.Ok? ==> PriceLines(items[..i + 1], ids[..i + 1], priceMap) == next
    ensures next.Err? ==> PriceLines(items, ids, priceMap) == next
  {
    var priced := PriceLine(items[i], ids[i], priceMap);
    if priced.Err? {
      PriceLinesStop(items, ids, priceMap, i, lines);
      return Err(priced.error);
    }
    PriceLinesStep(items, ids, priceMap, i, lines, priced.value);
    next := Ok(lines + [priced.value]);
  }

  /**
   * The pricing loop of `add_order`. The running `total_amount` is summed over
   * the priced lines once they are all known; the source adds each line as it
   * goes, which gives the same total, since the total is only used when every
   * line priced.
   */
  method PriceItems(items: seq<RequestItem>, ids: seq<int>, priceMap: map<int, real>)
    returns (r: Result<seq<Line>, ValidationError>, total: real)
    requires |ids| == |items|
    ensures r == PriceLines(items, ids, priceMap)
    ensures r.Ok? ==> total == Total(r.value)
  {
    var lines: seq<Line> := [];
    var i := 0;
    while i < |items|
      invariant 0 <= i <= |items|
      invariant PriceLines(items[..i], ids[..i], priceMap) == Ok(lines)
    {
      var next := PriceNext(items, ids, priceMap, i, lines);
      if next.Err? {
        return next, 0.0;
      }
      lines := next.value;
      i := i + 1;
    }
    assert items[..|items|] == items && ids[..|ids|] == ids;
    r := Ok(lines);
    total := AccumulateTotal(lines);
  }

  /** The `session.add(OrderItem(...))` loop: one item row per line, in order. */
  method InsertItems(db: RelationalStore, orderId: int, lines: seq<Line>)
    requires db.Valid() && orderId in Ids(db.orders)
    modifies db
    ensures db.Valid()
    ensures db.items == old(db.items) + ItemRows(orderId, lines)
    ensures db.orders == old(db.orders) && db.nextId == old(db.nextId)
    ensures db.prices == old(db.prices) && db.reachable == old(db.reachable)
  {
    var j := 0;
    while j < |lines|
      invariant 0 <= j <= |lines|
      invariant db.Valid()
      invariant db.orders == old(db.orders) && db.nextId == old(db.nextId)
      invariant db.prices == old(db.prices) && db.reachable == old(db.reachable)
      invariant db.items == old(db.items) + ItemRows(orderId, lines[..j])
    {
      assert lines[..j + 1][..j] == lines[..j];
      db.InsertItem(ItemRow(orderId, lines[j].productId, lines[j].quantity, lines[j].unitPrice));
      j := j + 1;
    }
    assert lines[..|lines|] == lines;
  }

  /**
   * `add_order`: the checks, the price query, the order row and its items in
   * one transaction, then the cache projection. A failure before the commit
   * leaves both stores unchanged; a cache failure after it leaves the order
   * committed and the cache unchanged.
   */
  method AddOrder(db: RelationalStore, cache: CacheStore, userId: Option<int>, items: seq<RequestItem>, now: string)
    returns (r: AddResult)
    requires db.Valid() && cache.Valid()
    modifies db, cache
    ensures db.Valid() && cache.Valid()
    ensures r == AddOutcome(userId, items, old(db.prices), old(db.reachable), old(cache.reachable), old(db.nextId))
    ensures db.prices == old(db.prices) && db.reachable == old(db.reachable) && cache.reachable == old(cache.reachable)
    ensures r.Committed? || r.ProjectionFailed? ==>
      && Validate(userId, items, old(db.prices)).Ok?
      && var lines := Validate(userId, items, old(db.prices)).value;
      && db.orders == old(db.orders) + [OrderRow(r.id, userId.value, Total(lines), now)]
      && db.items == old(db.items) + ItemRows(r.id, lines)
      && db.nextId == r.id + 1
      && (r.Committed? ==> cache.kv == Projected(old(cache.kv), NewSummary(r.id, userId.value, Total(lines), now), lines))
    ensures !(r.Committed? || r.ProjectionFailed?) ==>
      db.orders == old(db.orders) && db.items == old(db.items) && db.nextId == old(db.nextId)
    ensures !r.Committed? ==> cache.kv == old(cache.kv)
  {
    if !Truthy(userId) || items == [] {
      return Invalid(MissingUserOrItems);
    }
    var parsed := ParseProductIds(items);
    if parsed.Err? {
      return Invalid(InvalidProductId(parsed.error));
    }
    var ids := parsed.value;
    if !db.reachable {
      return DatabaseFailed;
    }
    var priceMap := PriceMap(db.prices, ids);
    var priced, total := PriceItems(items, ids, priceMap);
    if priced.Err? {
      return Invalid(priced.error);
    }
    var lines := priced.value;
    assert Validate(userId, items, db.prices) == Ok(lines);

    var orderId := db.InsertOrder(userId.value, total, now);
    assert db.orders[|db.orders| - 1].id == orderId;
    InsertItems(db, orderId, lines);
    var projected := AddOrderToCache(cache, orderId, userId.value, total, now, lines);
    r := if projected then Committed(orderId) else ProjectionFailed(orderId);
  }

  /**
   * `add_order_to_redis`: the summary hash, then one increment of
   * `int(quantity)` per line whose whole units are positive. An unreachable
   * cache raises before writing anything.
   */
  method AddOrderToCache(cache: CacheStore, orderId: int, userId: int, totalAmount: real, now: string, lines: seq<Line>)
    returns (ok: bool)
    requires cache.Valid()
    modifies cache
    ensures cache.Valid() && cache.reachable == old(cache.reachable)
    ensures ok == old(cache.reachable)
    ensures ok ==> cache.kv == Projected(old(cache.kv), NewSummary(orderId, userId, totalAmount, now), lines)
    ensures !ok ==> cache.kv == old(cache.kv)
  {
    if !cache.reachable {
      return false;
    }
    KeyPrefixes(orderId);
    cache.HSet(OrderKey(orderId), NewSummary(orderId, userId, totalAmount, now));
    IncrementCounters(cache, lines);
    ok := true;
  }

  /** The increments after one line more, given those before it. */
  lemma ProjectionDeltasNext(lines: seq<Line>, i: int, ds: seq<Delta>)
    requires 0 <= i < |lines| && ds == ProjectionDeltas(lines[..i])
    ensures ProjectionDeltas(lines[..i + 1]) ==
      if Trunc(lines[i].quantity) > 0 then ds + [Delta(lines[i].productId, Trunc(lines[i].quantity))] else ds
  {
    ProjectionDeltasStep(lines, i);
    assert ds + [] == ds;
  }

  /** One `r.incr` call of `add_order_to_redis`, on the counter of `d.productId`. */
  method IncrementProduct(cache: CacheStore, d: Delta)
    requires cache.Valid()
    modifies cache
    ensures cache.Valid() && cache.reachable == old(cache.reachable)
    ensures cache.kv == Incremented(old(cache.kv), d)
  {
    KeyPrefixes(d.productId);
    var value := cache.Incr(ProductKey(d.productId), d.amount);
    IncrMatches(old(cache.kv), d, value, cache.kv);
  }

  /**
   * The body of the `r.incr` loop of `add_order_to_redis` for line `i`: the
   * counters move from the increments of the lines before it to those of the
   * lines up to and including it.
   */
  method IncrementLine(cache: CacheStore, ghost start: map<string, Entry>, lines: seq<Line>, i: int)
    requires cache.Valid() && 0 <= i < |lines|
    requires cache.kv == ApplyDeltas(start, ProjectionDeltas(lines[..i]))
    modifies cache
    ensures cache.Valid() && cache.reachable == old(cache.reachable)
    ensures cache.kv == ApplyDeltas(start, ProjectionDeltas(lines[..i + 1]))
  {
    ProjectionDeltasNext(lines, i, ProjectionDeltas(lines[..i]));
    var quantity := Trunc(lines[i].quantity);
    if quantity > 0 {
      var d := Delta(lines[i].productId, quantity);
      IncrementProduct(cache, d);
      ApplyDeltasPush(start, ProjectionDeltas(lines[..i]), d, old(cache.kv), cache.kv);
    }
  }

  /** The `r.incr` loop of `add_order_to_redis`: `int(quantity)` per line, when positive. */
  method IncrementCounters(cache: CacheStore, lines: seq<Line>)
    requires cache.Valid()
    modifies cache
    ensures cache.Valid() && cache.reachable == old(cache.reachable)
    ensures cache.kv == ApplyDeltas(old(cache.kv), ProjectionDeltas(lines))
  {
    var i := 0;
    while i < |lines|
      invariant 0 <= i <= |lines|
      invariant cache.Valid() && cache.reachable == old(cache.reachable)
      invariant cache.kv == ApplyDeltas(old(cache.kv), ProjectionDeltas(lines[..i]))
    {
      IncrementLine(cache, old(cache.kv), lines, i);
      i := i + 1;
    }
    assert lines[..|lines|] == lines;
  }

  /**
   * `delete_order`: 1 after deleting an existing order (its items go with it)
   * and then its summary, 0 when there is no such order; the counters are
   * not touched.
   */
  method DeleteOrder(db: RelationalStore, cache: CacheStore, orderId: int) returns (r: DeleteResult)
    requires db.Valid() && cache.Valid()
    modifies db, cache
    ensures db.Valid() && cache.Valid()
    ensures r == DeleteOutcome(old(db.orders), orderId, old(db.reachable), old(cache.reachable))
    ensures db.prices == old(db.prices) && db.nextId == old(db.nextId)
    ensures db.reachable == old(db.reachable) && cache.reachable == old(cache.reachable)
    ensures r.Deleted? || r.DeleteProjectionFailed? ==>
      db.orders == WithoutOrder(old(db.orders), orderId) && db.items == WithoutItemsOf(old(db.items), orderId)
    ensures !(r.Deleted? || r.DeleteProjectionFailed?) ==> db.orders == old(db.orders) && db.items == old(db.items)
    ensures r.Deleted? ==> cache.kv == old(cache.kv) - {OrderKey(orderId)}
    ensures !r.Deleted? ==> cache.kv == old(cache.kv)
  {
    if !db.reachable {
      return DeleteDatabaseFailed;
    }
    var order := FindOrder(db.orders, orderId);
    if order.None? {
      return NotFound;
    }
    db.DeleteOrder(orderId);
    var removed := DeleteOrderFromCache(cache, orderId);
    r := if removed then Deleted else DeleteProjectionFailed;
  }

  /** `delete_order_from_redis`: removes the `order:{id}` key; an unreachable cache raises. */
  method DeleteOrderFromCache(cache: CacheStore, orderId: int) returns (ok: bool)
    requires cache.Valid()
    modifies cache
    ensures cache.Valid() && cache.reachable == old(cache.reachable)
    ensures ok == old(cache.reachable)
    ensures cache.kv == if ok then old(cache.kv) - {OrderKey(orderId)} else old(cache.kv)
  {
    if !cache.reachable {
      return false;
    }
    cache.Delete(OrderKey(orderId));
    ok := true;
  }

  /**
   * `sync_all_orders_to_redis`: when the cache holds no `order:` key, copies
   * every `orders` row into it. Returns the number of `order:` keys before
   * plus the rows added (the value of the `finally` clause, which overrides
   * the `return 0` of the error path); `None` when the cache raises on `keys`.
   */
  method SyncAllOrdersToCache(db: RelationalStore, cache: CacheStore) returns (count: Option<int>)
    requires db.Valid() && cache.Valid()
    modifies cache
    ensures cache.Valid() && cache.reachable == old(cache.reachable)
    ensures !old(cache.reachable) ==> count == None
    ensures old(cache.reachable) ==>
      var before := KeysWithPrefix(old(cache.kv), OrderPrefix);
      count == Some(|before| + if before == {} && db.reachable then |db.orders| else 0)
    ensures old(cache.reachable) ==> count == Some(|KeysWithPrefix(cache.kv, OrderPrefix)|)
    ensures cache.kv ==
      if old(cache.reachable) && KeysWithPrefix(old(cache.kv), OrderPrefix) == {} && db.reachable
      then WithSummaries(old(cache.kv), db.orders)
      else old(cache.kv)
  {
    if !cache.reachable {
      return None;
    }
    var ordersInCache := KeysWithPrefix(cache.kv, OrderPrefix);
    var rowsAdded := 0;
    if |ordersInCache| == 0 && db.reachable {
      var rows := db.orders;
      var i := 0;
      while i < |rows|
        invariant 0 <= i <= |rows|
        invariant cache.Valid() && cache.reachable
        invariant cache.kv == WithSummaries(old(cache.kv), rows[..i])
      {
        assert rows[..i + 1][..i] == rows[..i];
        KeyPrefixes(rows[i].id);
        cache.HSet(OrderKey(rows[i].id), SummaryOf(rows[i]));
        i := i + 1;
      }
      assert rows[..|rows|] == rows;
      rowsAdded := |rows|;
      CopyCount(old(cache.kv), rows);
    }
    count := Some(|ordersInCache| + rowsAdded);
  }

  /**
   * `sync_products_to_redis`: deletes every `product:` key, then increments
   * `product:{pid}` by `int(quantity)` for every `order_items` row. When the
   * database raises after the deletions, the counters stay deleted.
   */
  method SyncProductsToCache(db: RelationalStore, cache: CacheStore) returns (ok: bool)
    requires db.Valid() && cache.Valid()
    modifies cache
    ensures cache.Valid() && cache.reachable == old(cache.reachable)
    ensures ok <==> old(cache.reachable) && db.reachable
    ensures !old(cache.reachable) ==> cache.kv == old(cache.kv)
    ensures old(cache.reachable) && !db.reachable ==> cache.kv == WithoutCounters(old(cache.kv))
    ensures ok ==> cache.kv == Rebuilt(old(cache.kv), db.items)
  {
    if !cache.reachable {
      return false;
    }
    var keys := KeysWithPrefix(cache.kv, ProductPrefix);
    ghost var all := keys;
    while keys != {}
      invariant keys <= all
      invariant cache.Valid() && cache.reachable
      invariant cache.kv == map k | k in old(cache.kv) && (k !in all || k in keys) :: old(cache.kv)[k]
      decreases |keys|
    {
      var key :| key in keys;
      cache.Delete(key);
      keys := keys - {key};
    }
    assert cache.kv == WithoutCounters(old(cache.kv));
    if !db.reachable {
      return false;
    }
    ghost var cleared := cache.kv;
    ghost var ds: seq<Delta> := [];
    var items := db.items;
    var i := 0;
    while i < |items|
      invariant 0 <= i <= |items|
      invariant cache.Valid() && cache.reachable
      invariant ds == ItemDeltas(items[..i])
      invariant cache.kv == ApplyDeltas(cleared, ds)
    {
      ItemDeltasStep(items, i);
      var d := Delta(items[i].productId, Trunc(items[i].quantity));
      ghost var before := cache.kv;
      KeyPrefixes(d.productId);
      var value := cache.Incr(ProductKey(d.productId), d.amount);
      IncrMatches(before, d, value, cache.kv);
      ApplyDeltasPush(cleared, ds, d, before, cache.kv);
      ds := ds + [d];
      i := i + 1;
    }
    assert items[..|items|] == items;
    ok := true;
  }
}
