/**
 * The two storage collaborators of the order code.
 *
 * The relational store holds the `products` prices, the `orders` rows in
 * primary-key order, the `order_items` rows and the next AUTO_INCREMENT id.
 * The cache store is one Redis keyspace: a hash `order:{id}` per order
 * summary and an integer counter `product:{pid}` per product.
 *
 * Each store has a `reachable` flag: an unreachable store raises on its first
 * command, before anything is written.
 */
module Stores {
  import opened Wrappers
  import opened Text

  // ----- relational store -----

  /** A row of `orders`. */
  datatype OrderRow = OrderRow(id: int, userId: int, totalAmount: real, createdAt: string)

  /** A row of `order_items`; the unit price is the product price when the order was placed. */
  datatype ItemRow = ItemRow(orderId: int, productId: int, quantity: real, unitPrice: real)

  /** The ids of a list of order rows. */
  function Ids(rows: seq<OrderRow>): (ids: set<int>)
    ensures forall i :: 0 <= i < |rows| ==> rows[i].id in ids
  {
    set r | r in rows :: r.id
  }

  predicate IdsAscending(rows: seq<OrderRow>)
  {
    forall i, j :: 0 <= i < j < |rows| ==> rows[i].id < rows[j].id
  }

  /** `SELECT ... WHERE id = :id` on `orders`. */
  function FindOrder(rows: seq<OrderRow>, id: int): (r: Option<OrderRow>)
    ensures r.None? <==> id !in Ids(rows)
    ensures r.Some? ==> r.value in rows && r.value.id == id
  {
    if rows == [] then None
    else if rows[0].id == id then Some(rows[0])
    else
      assert rows == [rows[0]] + rows[1..];
      FindOrder(rows[1..], id)
  }

  /** The rows of `orders` other than the one with this id. */
  function WithoutOrder(rows: seq<OrderRow>, id: int): (r: seq<OrderRow>)
    ensures forall x :: x in r <==> x in rows && x.id != id
    ensures IdsAscending(rows) ==> IdsAscending(r)
  {
    if rows == [] then []
    else
      var rest := WithoutOrder(rows[1..], id);
      if rows[0].id == id then rest
      else
        assert IdsAscending(rows) ==> IdsAscending([rows[0]] + rest) by {
          if IdsAscending(rows) {
            forall x | x in rest ensures rows[0].id < x.id {
              var k :| 0 <= k < |rows| - 1 && rows[1..][k] == x;
              assert rows[k + 1] == x;
            }
            ConsAscending(rows[0], rest);
          }
        }
        [rows[0]] + rest
  }

  lemma ConsAscending(row: OrderRow, rows: seq<OrderRow>)
    requires IdsAscending(rows) && forall x :: x in rows ==> row.id < x.id
    ensures IdsAscending([row] + rows)
  {
    forall i, j | 0 <= i < j < |rows| + 1 ensures ([row] + rows)[i].id < ([row] + rows)[j].id {
      assert ([row] + rows)[j] == rows[j - 1];
      if i > 0 { assert ([row] + rows)[i] == rows[i - 1]; }
    }
  }

  /** The rows of `order_items` that do not belong to this order. */
  function WithoutItemsOf(items: seq<ItemRow>, id: int): (r: seq<ItemRow>)
    ensures forall x :: x in r <==> x in items && x.orderId != id
    ensures |r| <= |items|
  {
    if items == [] then []
    else if items[0].orderId == id then WithoutItemsOf(items[1..], id)
    else [items[0]] + WithoutItemsOf(items[1..], id)
  }

  /** The cascade keeps each item of another order as often as it occurs, and none of the deleted order. */
  lemma {:induction false} WithoutItemsOfCounts(items: seq<ItemRow>, id: int)
    ensures forall x :: multiset(WithoutItemsOf(items, id))[x] == if x.orderId != id then multiset(items)[x] else 0
    decreases |items|
  {
    if items != [] {
      assert items == [items[0]] + items[1..];
      WithoutItemsOfCounts(items[1..], id);
      var rest := WithoutItemsOf(items[1..], id);
      if items[0].orderId != id {
        assert multiset([items[0]] + rest) == multiset{items[0]} + multiset(rest);
      }
    }
  }

  /** Ids are unique, ascending and below the AUTO_INCREMENT value; items belong to orders. */
  ghost predicate Consistent(orders: seq<OrderRow>, items: seq<ItemRow>, nextId: int)
  {
    && IdsAscending(orders)
    && (forall i :: 0 <= i < |orders| ==> orders[i].id < nextId)
    && (forall i :: 0 <= i < |items| ==> items[i].orderId in Ids(orders))
  }

  lemma DeleteKeepsConsistent(orders: seq<OrderRow>, items: seq<ItemRow>, nextId: int, id: int)
    requires Consistent(orders, items, nextId)
    ensures Consistent(WithoutOrder(orders, id), WithoutItemsOf(items, id), nextId)
  {
    var orders', items' := WithoutOrder(orders, id), WithoutItemsOf(items, id);
    forall i | 0 <= i < |orders'| ensures orders'[i].id < nextId {
      assert orders'[i] in orders;
    }
    forall i | 0 <= i < |items'| ensures items'[i].orderId in Ids(orders') {
      assert items'[i] in items;
      var j :| 0 <= j < |items| && items[j] == items'[i];
      assert items[j].orderId in Ids(orders);
      var o :| o in orders && o.id == items[j].orderId;
      assert o in orders';
    }
  }

  class RelationalStore {
    var prices: map<int, real>
    var orders: seq<OrderRow>
    var items: seq<ItemRow>
    var nextId: int
    var reachable: bool

    /** Ids are unique, ascending and below the AUTO_INCREMENT value; items belong to orders. */
    ghost predicate Valid()
      reads this
    {
      Consistent(orders, items, nextId)
    }

    constructor (prices: map<int, real>, reachable: bool)
      ensures Valid()
      ensures this.prices == prices && this.reachable == reachable
      ensures orders == [] && items == [] && nextId == 1
    {
      this.prices := prices;
      this.reachable := reachable;
      orders, items, nextId := [], [], 1;
    }

    /** INSERT INTO orders, with the id the table assigns. */
    method InsertOrder(userId: int, totalAmount: real, createdAt: string) returns (id: int)
      requires Valid()
      modifies this
      ensures Valid()
      ensures id == old(nextId) && nextId == id + 1
      ensures orders == old(orders) + [OrderRow(id, userId, totalAmount, createdAt)]
      ensures items == old(items) && prices == old(prices) && reachable == old(reachable)
    {
      id := nextId;
      orders := orders + [OrderRow(id, userId, totalAmount, createdAt)];
      nextId := nextId + 1;
      assert forall i :: 0 <= i < |old(orders)| ==> orders[i] == old(orders)[i];
    }

    /** INSERT INTO order_items, for an order that exists. */
    method InsertItem(item: ItemRow)
      requires Valid() && item.orderId in Ids(orders)
      modifies this
      ensures Valid()
      ensures items == old(items) + [item]
      ensures orders == old(orders) && nextId == old(nextId)
      ensures prices == old(prices) && reachable == old(reachable)
    {
      items := items + [item];
    }

    /** DELETE FROM orders WHERE id = :id; the foreign key cascades to order_items. */
    method DeleteOrder(id: int)
      requires Valid()
      modifies this
      ensures Valid()
      ensures orders == WithoutOrder(old(orders), id)
      ensures items == WithoutItemsOf(old(items), id)
      ensures nextId == old(nextId) && prices == old(prices) && reachable == old(reachable)
    {
      var orders', items' := WithoutOrder(orders, id), WithoutItemsOf(items, id);
      DeleteKeepsConsistent(orders, items, nextId, id);
      assert Consistent(orders', items', nextId);
      orders, items := orders', items';
    }
  }

  // ----- cache store -----

  /** The hash stored under `order:{id}`. */
  datatype OrderSummary = OrderSummary(id: int, userId: int, totalAmount: real, createdAt: string)

  /** A Redis value: a hash holding an order summary, or an integer counter. */
  datatype Entry = Summary(summary: OrderSummary) | Counter(n: int)

  const OrderPrefix: string := "order:"
  const ProductPrefix: string := "product:"

  /** `f"order:{order_id}"` */
  function OrderKey(id: int): string
  {
    OrderPrefix + IntToStr(id)
  }

  /** `f"product:{product_id}"` */
  function ProductKey(pid: int): string
  {
    ProductPrefix + IntToStr(pid)
  }

  /** An order key is under `order:` and a product key under `product:`, never the other. */
  lemma KeyPrefixes(n: int)
    ensures HasPrefix(OrderKey(n), OrderPrefix) && !HasPrefix(OrderKey(n), ProductPrefix)
    ensures HasPrefix(ProductKey(n), ProductPrefix) && !HasPrefix(ProductKey(n), OrderPrefix)
  {
    assert OrderKey(n)[0] == 'o';
    assert ProductKey(n)[0] == 'p';
  }

  /** No order key is a product key. */
  lemma KeysDistinct(a: int, b: int)
    ensures OrderKey(a) != ProductKey(b)
  {
    assert OrderKey(a)[0] != ProductKey(b)[0];
  }

  lemma OrderKeyInjective(a: int, b: int)
    requires OrderKey(a) == OrderKey(b)
    ensures a == b
  {
    assert IntToStr(a) == OrderKey(a)[|OrderPrefix|..];
    IntToStrInjective(a, b);
  }

  lemma ProductKeyInjective(a: int, b: int)
    requires ProductKey(a) == ProductKey(b)
    ensures a == b
  {
    assert IntToStr(a) == ProductKey(a)[|ProductPrefix|..];
    IntToStrInjective(a, b);
  }

  /** Every hash is under an `order:` key and every counter is under another key. */
  ghost predicate WellTyped(kv: map<string, Entry>)
  {
    forall k :: k in kv ==> (kv[k].Summary? <==> HasPrefix(k, OrderPrefix))
  }

  /** `r.keys(prefix + "*")` */
  function KeysWithPrefix(kv: map<string, Entry>, prefix: string): (ks: set<string>)
    ensures forall k :: k in ks <==> k in kv && HasPrefix(k, prefix)
  {
    set k | k in kv && HasPrefix(k, prefix)
  }

  /** The value of a counter; a missing key counts as 0, as Redis INCR treats it. */
  function Count(kv: map<string, Entry>, key: string): int
  {
    if key in kv && kv[key].Counter? then kv[key].n else 0
  }

  class CacheStore {
    var kv: map<string, Entry>
    var reachable: bool

    ghost predicate Valid()
      reads this
    {
      WellTyped(kv)
    }

    constructor (reachable: bool)
      ensures Valid() && kv == map[] && this.reachable == reachable
    {
      kv := map[];
      this.reachable := reachable;
    }

    /** `r.hset(key, mapping=...)`; every summary has the same four fields, so it replaces the old one. */
    method HSet(key: string, summary: OrderSummary)
      requires Valid() && HasPrefix(key, OrderPrefix)
      modifies this
      ensures Valid() && reachable == old(reachable)
      ensures kv == old(kv)[key := Summary(summary)]
    {
      kv := kv[key := Summary(summary)];
    }

    /** `r.incr(key, amount)` on a counter key; returns the new value. */
    method Incr(key: string, amount: int) returns (value: int)
      requires Valid() && !HasPrefix(key, OrderPrefix)
      modifies this
      ensures Valid() && reachable == old(reachable)
      ensures value == Count(old(kv), key) + amount
      ensures kv == old(kv)[key := Counter(value)]
    {
      value := Count(kv, key) + amount;
      kv := kv[key := Counter(value)];
    }

    /** `r.delete(key)` */
    method Delete(key: string)
      requires Valid()
      modifies this
      ensures Valid() && reachable == old(reachable)
      ensures kv == old(kv) - {key}
    {
      kv := kv - {key};
    }
  }
}
