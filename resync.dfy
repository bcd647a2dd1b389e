/**
 * The two reconciliation routines of the write path, as functions of the
 * stores' contents: copying the `orders` rows into a cache that holds no
 * order summary, and rebuilding every `product:` counter from `order_items`.
 */
module Resync {
  import opened Text
  import opened Python
  import opened Stores
  import opened Counters

  // ----- copying the orders into the cache -----

  /** The hash written for one `orders` row: its columns, the total as a float, the date in ISO form. */
  function SummaryOf(row: OrderRow): (s: OrderSummary)
    ensures s.id == row.id && s.userId == row.userId
    ensures s.totalAmount == row.totalAmount && s.createdAt == row.createdAt
  {
    OrderSummary(row.id, row.userId, row.totalAmount, row.createdAt)
  }

  /** The keyspace after one `hset` per row, in table order. */
  function WithSummaries(kv: map<string, Entry>, rows: seq<OrderRow>): map<string, Entry>
    decreases |rows|
  {
    if rows == [] then kv
    else
      var last := rows[|rows| - 1];
      WithSummaries(kv, rows[..|rows| - 1])[OrderKey(last.id) := Summary(SummaryOf(last))]
  }

  /** The `order:` keys of the rows. */
  function OrderKeys(rows: seq<OrderRow>): (ks: set<string>)
    ensures forall k :: k in ks ==> HasPrefix(k, OrderPrefix)
    decreases |rows|
  {
    if rows == [] then {}
    else OrderKeys(rows[..|rows| - 1]) + {OrderKey(rows[|rows| - 1].id)}
  }

  /** The copy adds exactly the rows' `order:` keys. */
  lemma {:induction false} WithSummariesKeys(kv: map<string, Entry>, rows: seq<OrderRow>)
    ensures KeysWithPrefix(WithSummaries(kv, rows), OrderPrefix) == KeysWithPrefix(kv, OrderPrefix) + OrderKeys(rows)
    decreases |rows|
  {
    if rows != [] {
      WithSummariesKeys(kv, rows[..|rows| - 1]);
    }
  }

  lemma {:induction false} OrderKeyOfOtherId(rows: seq<OrderRow>, id: int)
    requires forall i :: 0 <= i < |rows| ==> rows[i].id != id
    ensures OrderKey(id) !in OrderKeys(rows)
    decreases |rows|
  {
    if rows != [] {
      var init := rows[..|rows| - 1];
      assert forall i :: 0 <= i < |init| ==> init[i] == rows[i];
      OrderKeyOfOtherId(init, id);
      if OrderKey(id) == OrderKey(rows[|rows| - 1].id) {
        OrderKeyInjective(id, rows[|rows| - 1].id);
      }
    }
  }

  /** Rows with distinct ids have as many `order:` keys as rows. */
  lemma {:induction false} OrderKeysCount(rows: seq<OrderRow>)
    requires IdsAscending(rows)
    ensures |OrderKeys(rows)| == |rows|
    decreases |rows|
  {
    if rows != [] {
      var init := rows[..|rows| - 1];
      var last := rows[|rows| - 1];
      assert forall i :: 0 <= i < |init| ==> init[i] == rows[i];
      OrderKeysCount(init);
      OrderKeyOfOtherId(init, last.id);
    }
  }

  /**
   * Into a cache without order summaries, the copy of a table whose ids are
   * unique writes exactly as many summaries as the table has rows, so the
   * count the routine returns is the number of `order:` keys afterwards.
   */
  lemma CopyCount(kv: map<string, Entry>, rows: seq<OrderRow>)
    requires KeysWithPrefix(kv, OrderPrefix) == {}
    requires IdsAscending(rows)
    ensures |KeysWithPrefix(WithSummaries(kv, rows), OrderPrefix)| == |rows|
  {
    WithSummariesKeys(kv, rows);
    OrderKeysCount(rows);
  }

  /** After the copy, a row is readable under its key unless a later row has the same id. */
  lemma {:induction false} CopyReadable(kv: map<string, Entry>, rows: seq<OrderRow>, i: int)
    requires 0 <= i < |rows|
    requires forall j :: i < j < |rows| ==> rows[j].id != rows[i].id
    ensures OrderKey(rows[i].id) in WithSummaries(kv, rows)
    ensures WithSummaries(kv, rows)[OrderKey(rows[i].id)] == Summary(SummaryOf(rows[i]))
    decreases |rows|
  {
    var n := |rows| - 1;
    var init := rows[..n];
    var last := rows[n];
    var prev := WithSummaries(kv, init);
    assert WithSummaries(kv, rows) == prev[OrderKey(last.id) := Summary(SummaryOf(last))];
    if i < n {
      assert init[i] == rows[i];
      assert forall j :: i < j < |init| ==> init[j].id != init[i].id by {
        forall j | i < j < |init| ensures init[j].id != init[i].id {
          assert init[j] == rows[j];
        }
      }
      CopyReadable(kv, init, i);
      assert rows[i].id != last.id;
      if OrderKey(rows[i].id) == OrderKey(last.id) {
        OrderKeyInjective(rows[i].id, last.id);
      }
    }
  }

  /** After copying a table with unique ids, every row is readable under its key. */
  lemma CopyAllReadable(kv: map<string, Entry>, rows: seq<OrderRow>, i: int)
    requires IdsAscending(rows) && 0 <= i < |rows|
    ensures OrderKey(rows[i].id) in WithSummaries(kv, rows)
    ensures WithSummaries(kv, rows)[OrderKey(rows[i].id)] == Summary(SummaryOf(rows[i]))
  {
    CopyReadable(kv, rows, i);
  }

  /** The copy writes hashes under `order:` keys only, so the keyspace stays well typed. */
  lemma {:induction false} CopyWellTyped(kv: map<string, Entry>, rows: seq<OrderRow>)
    requires WellTyped(kv)
    ensures WellTyped(WithSummaries(kv, rows))
    decreases |rows|
  {
    if rows != [] {
      CopyWellTyped(kv, rows[..|rows| - 1]);
    }
  }

  /** The copy leaves every key outside `order:` as it was. */
  lemma {:induction false} CopyKeepsOthers(kv: map<string, Entry>, rows: seq<OrderRow>, k: string)
    requires !HasPrefix(k, OrderPrefix)
    ensures k in WithSummaries(kv, rows) <==> k in kv
    ensures k in kv ==> WithSummaries(kv, rows)[k] == kv[k]
    decreases |rows|
  {
    if rows != [] {
      CopyKeepsOthers(kv, rows[..|rows| - 1], k);
    }
  }

  // ----- rebuilding the product counters -----

  /** One `r.incr(f"product:{item.product_id}", int(item.quantity))` per item, in table order. */
  function ItemDeltas(items: seq<ItemRow>): (ds: seq<Delta>)
    ensures |ds| == |items|
    ensures forall i :: 0 <= i < |items| ==> ds[i] == Delta(items[i].productId, Trunc(items[i].quantity))
    decreases |items|
  {
    if items == [] then []
    else
      var last := items[|items| - 1];
      ItemDeltas(items[..|items| - 1]) + [Delta(last.productId, Trunc(last.quantity))]
  }

  /** The increments of one row more. */
  lemma ItemDeltasStep(items: seq<ItemRow>, i: int)
    requires 0 <= i < |items|
    ensures ItemDeltas(items[..i + 1]) == ItemDeltas(items[..i]) + [Delta(items[i].productId, Trunc(items[i].quantity))]
  {
    var pre := items[..i + 1];
    assert pre[..|pre| - 1] == items[..i];
  }

  /** The whole units of product `pid` recorded in `order_items`. */
  function UnitsSold(items: seq<ItemRow>, pid: int): int
    decreases |items|
  {
    if items == [] then 0
    else
      var last := items[|items| - 1];
      UnitsSold(items[..|items| - 1], pid) + (if last.productId == pid then Trunc(last.quantity) else 0)
  }

  /** The keyspace after the rebuild: the `product:` keys deleted, then one increment per item. */
  function Rebuilt(kv: map<string, Entry>, items: seq<ItemRow>): map<string, Entry>
  {
    ApplyDeltas(WithoutCounters(kv), ItemDeltas(items))
  }

  lemma {:induction false} ItemDeltaSum(items: seq<ItemRow>, pid: int)
    ensures DeltaSum(ItemDeltas(items), pid) == UnitsSold(items, pid)
    decreases |items|
  {
    if items != [] {
      var ds := ItemDeltas(items);
      assert ds[..|ds| - 1] == ItemDeltas(items[..|items| - 1]);
      ItemDeltaSum(items[..|items| - 1], pid);
    }
  }

  /** After the rebuild, each product's counter is the units sold of that product. */
  lemma RebuildCounts(kv: map<string, Entry>, items: seq<ItemRow>, pid: int)
    ensures Count(Rebuilt(kv, items), ProductKey(pid)) == UnitsSold(items, pid)
  {
    ApplyDeltasCount(WithoutCounters(kv), ItemDeltas(items), pid);
    ItemDeltaSum(items, pid);
  }

  lemma {:induction false} ItemDeltasAddress(items: seq<ItemRow>, k: string)
    ensures Addressed(ItemDeltas(items), k) <==> exists i :: 0 <= i < |items| && k == ProductKey(items[i].productId)
    decreases |items|
  {
    if items != [] {
      var n := |items| - 1;
      var init := items[..n];
      var ds := ItemDeltas(items);
      assert ds[..n] == ItemDeltas(init);
      assert Addressed(ds, k) == (Addressed(ItemDeltas(init), k) || k == ProductKey(items[n].productId));
      ItemDeltasAddress(init, k);
      if exists i :: 0 <= i < |init| && k == ProductKey(init[i].productId) {
        var i :| 0 <= i < |init| && k == ProductKey(init[i].productId);
        assert items[i] == init[i];
      }
      if exists i :: 0 <= i < |items| && k == ProductKey(items[i].productId) {
        var i :| 0 <= i < |items| && k == ProductKey(items[i].productId);
        if i < n {
          assert init[i] == items[i];
        }
      }
    }
  }

  /**
   * After the rebuild, the `product:` keys are exactly those of the products
   * that appear in `order_items`, including a counter of 0 for a product whose
   * quantities are all under one unit.
   */
  lemma RebuildKeys(kv: map<string, Entry>, items: seq<ItemRow>, k: string)
    requires HasPrefix(k, ProductPrefix)
    ensures k in Rebuilt(kv, items) <==> exists i :: 0 <= i < |items| && k == ProductKey(items[i].productId)
  {
    ItemDeltasAddress(items, k);
    ApplyDeltasKeys(WithoutCounters(kv), ItemDeltas(items), k);
  }

  /** The rebuild leaves every key outside `product:` as it was. */
  lemma RebuildKeepsOthers(kv: map<string, Entry>, items: seq<ItemRow>)
    ensures WithoutCounters(Rebuilt(kv, items)) == WithoutCounters(kv)
  {
    ApplyDeltasKeepsOthers(WithoutCounters(kv), ItemDeltas(items));
    assert WithoutCounters(WithoutCounters(kv)) == WithoutCounters(kv);
  }

  /** Running the rebuild twice on the same items gives the keyspace of running it once. */
  lemma RebuildIdempotent(kv: map<string, Entry>, items: seq<ItemRow>)
    ensures Rebuilt(Rebuilt(kv, items), items) == Rebuilt(kv, items)
  {
    RebuildKeepsOthers(kv, items);
  }

  lemma RebuildWellTyped(kv: map<string, Entry>, items: seq<ItemRow>)
    requires WellTyped(kv)
    ensures WellTyped(Rebuilt(kv, items))
  {
    ApplyDeltasWellTyped(WithoutCounters(kv), ItemDeltas(items));
  }

  /** Every product counter equals the units sold of that product in `order_items`. */
  ghost predicate CountersAgree(kv: map<string, Entry>, items: seq<ItemRow>)
  {
    forall pid :: Count(kv, ProductKey(pid)) == UnitsSold(items, pid)
  }

  /** The rebuild restores agreement between the counters and the items. */
  lemma RebuildAgrees(kv: map<string, Entry>, items: seq<ItemRow>)
    ensures CountersAgree(Rebuilt(kv, items), items)
  {
    forall pid ensures Count(Rebuilt(kv, items), ProductKey(pid)) == UnitsSold(items, pid) {
      RebuildCounts(kv, items, pid);
    }
  }

  lemma {:induction false} UnitsSoldAppend(items: seq<ItemRow>, more: seq<ItemRow>, pid: int)
    ensures UnitsSold(items + more, pid) == UnitsSold(items, pid) + UnitsSold(more, pid)
    decreases |more|
  {
    if more == [] {
      assert items + more == items;
    } else {
      var all := items + more;
      assert all[..|all| - 1] == items + more[..|more| - 1];
      assert all[|all| - 1] == more[|more| - 1];
      UnitsSoldAppend(items, more[..|more| - 1], pid);
    }
  }
}
