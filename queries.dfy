/**
 * The read loops of the cache queries: one `hgetall` per order key, the
 * accumulation of spending per user, and one `get` per product key.  Each
 * method is proved against the function of module ReadOrder that states
 * its result.  An unreachable cache raises on its first command; None
 * stands for that exception.
 */
module Queries {
  import opened Wrappers
  import opened Text
  import opened Python
  import opened Stores
  import opened Sorting
  import opened ReadOrder

  /** The loop that reads the hash of each key in turn and collects the summaries. */
  method ReadHashes(cache: CacheStore, keys: seq<string>) returns (orders: seq<OrderSummary>)
    requires AllHashes(cache.kv, keys)
    ensures orders == Records(cache.kv, keys)
  {
    orders := [];
    var i := 0;
    while i < |keys|
      invariant 0 <= i <= |keys|
      invariant orders == Records(cache.kv, keys[..i])
    {
      var reply := HGetAll(cache.kv, keys[i]);
      orders := orders + [reply.summary];
      assert keys[..i + 1][..i] == keys[..i];
      i := i + 1;
    }
    assert keys[..|keys|] == keys;
  }

  /** The cached order listing of `get_orders_from_redis`, or the error of an unreachable cache. */
  method GetOrdersFromCache(cache: CacheStore, limit: int) returns (r: Option<seq<OrderSummary>>)
    requires cache.Valid()
    ensures r == if cache.reachable then Some(CacheOrders(cache.kv, limit)) else None
  {
    if !cache.reachable {
      return None;
    }
    OrderKeysAreHashes(cache.kv, limit);
    var keys := Take(OrderKeysNewestFirst(cache.kv), limit);
    var orders := ReadHashes(cache, keys);
    return Some(orders);
  }

  /** The loop that adds each order's total to the entry of its user's name. */
  method AccumulateExpenses(orders: seq<OrderSummary>) returns (expenses: seq<Expense>)
    ensures expenses == Expenses(orders)
  {
    expenses := [];
    var i := 0;
    while i < |orders|
      invariant 0 <= i <= |orders|
      invariant expenses == Expenses(orders[..i])
    {
      var order := orders[i];
      ExpensesStep(orders, i);
      expenses := AddTo(expenses, UserName(order.userId), order.totalAmount);
      i := i + 1;
    }
    assert orders[..|orders|] == orders;
  }

  /** The spending report of `get_highest_spending_users`, or the error of an unreachable cache. */
  method HighestSpendingUsers(cache: CacheStore) returns (r: Option<seq<Expense>>)
    requires cache.Valid()
    ensures r == if cache.reachable then Some(SpendingReport(CachedOrders(cache.kv))) else None
  {
    if !cache.reachable {
      return None;
    }
    OrderKeysAreHashes(cache.kv, 0);
    var keys := OrderKeysNewestFirst(cache.kv);
    var orders := ReadHashes(cache, keys);
    var expenses := AccumulateExpenses(orders);
    return Some(SortDesc(expenses, Spent));
  }

  /**
   * The loop that pairs each product key's id text with its counter value.
   * The ghost `keys` is the reply of `r.keys("product:*")`, in the order Redis chose.
   */
  method CollectSales(cache: CacheStore) returns (products: seq<Sale>, ghost keys: seq<string>)
    requires cache.Valid()
    ensures Enumerates(keys, KeysWithPrefix(cache.kv, ProductPrefix))
    ensures AllCounters(cache.kv, keys) && products == SalePairs(cache.kv, keys)
    ensures |products| == |KeysWithPrefix(cache.kv, ProductPrefix)|
    ensures forall k :: k in KeysWithPrefix(cache.kv, ProductPrefix) ==>
      SecondField(k).Some? && (SecondField(k).value, Count(cache.kv, k)) in products
  {
    keys := [];
    products := [];
    var all := KeysWithPrefix(cache.kv, ProductPrefix);
    var remaining := all;
    while remaining != {}
      invariant remaining <= all
      invariant forall k :: k in keys <==> k in all && k !in remaining
      invariant forall i, j :: 0 <= i < j < |keys| ==> keys[i] != keys[j]
      invariant AllCounters(cache.kv, keys)
      invariant products == SalePairs(cache.kv, keys)
      decreases |remaining|
    {
      var key :| key in remaining;
      ProductKeyHasColon(key);
      var productId := SecondField(key).value;
      var quantity := cache.kv[key].n;
      SalePairsStep(cache.kv, keys, key);
      products := products + [(productId, quantity)];
      keys := keys + [key];
      remaining := remaining - {key};
    }
    SalePairsPerKey(cache.kv, keys);
  }

  /** The sales report of `get_highest_sold_items_redis`, or the error of an unreachable cache. */
  method HighestSoldItemsFromCache(cache: CacheStore) returns (r: Option<seq<Sale>>, ghost keys: seq<string>)
    requires cache.Valid()
    ensures !cache.reachable ==> r == None
    ensures cache.reachable ==> && Enumerates(keys, KeysWithPrefix(cache.kv, ProductPrefix))
                                && AllCounters(cache.kv, keys)
                                && r == Some(SalesReport(cache.kv, keys))
  {
    if !cache.reachable {
      return None, [];
    }
    var products;
    products, keys := CollectSales(cache);
    return Some(SortDesc(products, Sold)), keys;
  }
}
