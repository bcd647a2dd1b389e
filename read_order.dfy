/**
 * The read side: the queries over both stores and the two reports built
 * from the cache, as functions of the stores' contents.  The loops that
 * issue one command per key are the methods of module Queries.
 */
module ReadOrder {
  import opened Wrappers
  import opened Text
  import opened Python
  import opened Stores
  import opened Counters
  import opened Sorting
  import opened Resync
  import opened WriteOrder

  // ----- get_order_by_id: one `hgetall` -----

  /** The reply to `r.hgetall(key)`: the hash, Redis's empty reply for a missing key, or WRONGTYPE on a counter. */
  datatype HashReply = Hash(summary: OrderSummary) | EmptyHash | WrongType

  /** `r.hgetall(key)`, which is all `get_order_by_id` does; the key is used exactly as given. */
  function HGetAll(kv: map<string, Entry>, key: string): (r: HashReply)
    ensures r.EmptyHash? <==> key !in kv
    ensures r.Hash? ==> key in kv && kv[key] == Summary(r.summary)
    ensures WellTyped(kv) ==> (r.Hash? <==> key in kv && HasPrefix(key, OrderPrefix))
  {
    if key !in kv then EmptyHash
    else match kv[key]
      case Summary(s) => Hash(s)
      case Counter(_) => WrongType
  }

  /** After `add_order_to_redis`, the new order's key reads back its summary. */
  lemma ReadAfterProjection(kv: map<string, Entry>, summary: OrderSummary, lines: seq<Line>)
    ensures HGetAll(Projected(kv, summary, lines), OrderKey(summary.id)) == Hash(summary)
  {
    ProjectionWritesSummary(kv, summary, lines);
  }

  /** After `sync_all_orders_to_redis` copies a table, each row reads back under its key. */
  lemma ReadAfterSync(kv: map<string, Entry>, rows: seq<OrderRow>, i: int)
    requires IdsAscending(rows) && 0 <= i < |rows|
    ensures HGetAll(WithSummaries(kv, rows), OrderKey(rows[i].id)) == Hash(SummaryOf(rows[i]))
  {
    CopyAllReadable(kv, rows, i);
  }

  // ----- get_orders_from_mysql -----

  function RowId(row: OrderRow): real { row.id as real }

  /** `SELECT * FROM orders ORDER BY id DESC LIMIT limit`. */
  function LatestOrders(rows: seq<OrderRow>, limit: nat): (r: seq<OrderRow>)
    ensures |r| == if limit < |rows| then limit else |rows|
    ensures NonIncreasing(r, RowId)
    ensures forall x :: x in r ==> x in rows
  {
    var sorted := SortDesc(rows, RowId);
    assert forall x :: x in sorted ==> x in multiset(rows);
    var r := Take(sorted, limit);
    assert forall i :: 0 <= i < |r| ==> r[i] in sorted;
    r
  }

  /**
   * On a table with unique ascending ids the query returns the `limit` most
   * recent rows, newest first, with strictly descending ids, and every row
   * it leaves out is older than every row it returns.
   */
  lemma LatestOrdersNewestFirst(rows: seq<OrderRow>, limit: nat)
    requires IdsAscending(rows)
    ensures var r := LatestOrders(rows, limit);
      && (forall i :: 0 <= i < |r| ==> r[i] == rows[|rows| - 1 - i])
      && (forall i, j :: 0 <= i < j < |r| ==> r[j].id < r[i].id)
      && (forall i, j :: 0 <= i < |rows| - |r| && 0 <= j < |r| ==> rows[i].id < r[j].id)
  {
    SortIncreasing(rows, RowId);
  }

  /** The order `add_order` has just committed is the first one listed. */
  lemma NewOrderListedFirst(rows: seq<OrderRow>, row: OrderRow, limit: nat)
    requires IdsAscending(rows + [row]) && limit > 0
    ensures LatestOrders(rows + [row], limit)[0] == row
  {
    LatestOrdersNewestFirst(rows + [row], limit);
  }

  // ----- get_orders_from_redis -----

  /** The cached order keys, greatest string first. */
  function OrderKeysNewestFirst(kv: map<string, Entry>): (keys: seq<string>)
    ensures forall k :: k in keys <==> k in kv && HasPrefix(k, OrderPrefix)
    ensures |keys| == |KeysWithPrefix(kv, OrderPrefix)|
    ensures forall i, j :: 0 <= i < j < |keys| ==> StrLess(keys[j], keys[i])
  {
    KeysDescending(KeysWithPrefix(kv, OrderPrefix))
  }

  /** Every key holds a hash, so `hgetall` on it returns an order summary. */
  ghost predicate AllHashes(kv: map<string, Entry>, keys: seq<string>)
  {
    forall i :: 0 <= i < |keys| ==> keys[i] in kv && kv[keys[i]].Summary?
  }

  /** The summaries the `hgetall` loop collects, one per key, in key order. */
  function Records(kv: map<string, Entry>, keys: seq<string>): (r: seq<OrderSummary>)
    requires AllHashes(kv, keys)
    ensures |r| == |keys|
    ensures forall i :: 0 <= i < |keys| ==> HGetAll(kv, keys[i]) == Hash(r[i])
    decreases |keys|
  {
    if keys == [] then []
    else Records(kv, keys[..|keys| - 1]) + [kv[keys[|keys| - 1]].summary]
  }

  lemma OrderKeysAreHashes(kv: map<string, Entry>, limit: int)
    requires WellTyped(kv)
    ensures AllHashes(kv, OrderKeysNewestFirst(kv))
    ensures AllHashes(kv, Take(OrderKeysNewestFirst(kv), limit))
  {
  }

  /** The orders the spending report reads: the hashes of all order keys, in reverse string order. */
  function CachedOrders(kv: map<string, Entry>): (r: seq<OrderSummary>)
    requires WellTyped(kv)
    ensures |r| == |KeysWithPrefix(kv, OrderPrefix)|
    ensures forall i :: 0 <= i < |r| ==> HGetAll(kv, OrderKeysNewestFirst(kv)[i]) == Hash(r[i])
  {
    OrderKeysAreHashes(kv, 0);
    Records(kv, OrderKeysNewestFirst(kv))
  }

  /** `get_orders_from_redis(limit)`: the hashes of the first `limit` order keys in reverse string order. */
  function CacheOrders(kv: map<string, Entry>, limit: int): (r: seq<OrderSummary>)
    requires WellTyped(kv)
    ensures var n := |KeysWithPrefix(kv, OrderPrefix)|;
      |r| == if limit >= 0 then (if limit < n then limit else n) else (if -limit < n then n + limit else 0)
  {
    OrderKeysAreHashes(kv, limit);
    Records(kv, Take(OrderKeysNewestFirst(kv), limit))
  }

  /**
   * The listing is the hashes of the greatest order keys: the i-th record is
   * the hash of the i-th greatest key, and every order key left out is
   * smaller, as a string, than every key listed.
   */
  lemma CacheOrdersTopKeys(kv: map<string, Entry>, limit: int)
    requires WellTyped(kv)
    ensures var keys := OrderKeysNewestFirst(kv);
      var r := CacheOrders(kv, limit);
      && |r| <= |keys|
      && (forall i :: 0 <= i < |r| ==> HGetAll(kv, keys[i]) == Hash(r[i]))
      && (forall k, j :: k in kv && HasPrefix(k, OrderPrefix) && k !in keys[..|r|] && 0 <= j < |r| ==> StrLess(k, keys[j]))
  {
    OrderKeysAreHashes(kv, limit);
    var keys := OrderKeysNewestFirst(kv);
    var listed := Take(keys, limit);
    var r := CacheOrders(kv, limit);
    assert listed == keys[..|r|];
    assert forall q :: 0 <= q < |r| ==> keys[q] == keys[..|r|][q];
    forall k, j | k in kv && HasPrefix(k, OrderPrefix) && k !in keys[..|r|] && 0 <= j < |r|
      ensures StrLess(k, keys[j])
    {
      var p :| 0 <= p < |keys| && keys[p] == k;
    }
  }

  /** Each summary stored under `order:{id}` carries that id, as both writers store it. */
  ghost predicate KeysMatchIds(kv: map<string, Entry>)
  {
    forall k :: k in kv && kv[k].Summary? ==> k == OrderKey(kv[k].summary.id)
  }

  /** The listed summaries come in strictly decreasing order of their key strings, which is not numeric id order. */
  lemma CacheOrdersByKeyString(kv: map<string, Entry>, limit: int)
    requires WellTyped(kv) && KeysMatchIds(kv)
    ensures var r := CacheOrders(kv, limit);
      forall i, j :: 0 <= i < j < |r| ==> StrLess(OrderKey(r[j].id), OrderKey(r[i].id))
  {
    OrderKeysAreHashes(kv, limit);
    var keys := Take(OrderKeysNewestFirst(kv), limit);
    var r := CacheOrders(kv, limit);
    forall i, j | 0 <= i < j < |r| ensures StrLess(OrderKey(r[j].id), OrderKey(r[i].id)) {
      assert HGetAll(kv, keys[i]) == Hash(r[i]) && HGetAll(kv, keys[j]) == Hash(r[j]);
    }
  }

  /** With a limit covering all order keys, every stored summary is listed. */
  lemma CacheListsEveryHash(kv: map<string, Entry>, limit: int, k: string)
    requires WellTyped(kv) && limit >= |KeysWithPrefix(kv, OrderPrefix)|
    requires k in kv && HasPrefix(k, OrderPrefix)
    ensures kv[k].Summary? && kv[k].summary in CacheOrders(kv, limit)
  {
    OrderKeysAreHashes(kv, limit);
    var keys := OrderKeysNewestFirst(kv);
    var i :| 0 <= i < |keys| && keys[i] == k;
    assert Take(keys, limit) == keys;
    assert HGetAll(kv, keys[i]) == Hash(CacheOrders(kv, limit)[i]);
  }

  /** After `sync_all_orders_to_redis`, listing without a tight limit shows every row of the table. */
  lemma SyncedOrdersListed(kv: map<string, Entry>, rows: seq<OrderRow>, limit: int, i: int)
    requires WellTyped(kv) && IdsAscending(rows) && 0 <= i < |rows|
    requires limit >= |KeysWithPrefix(WithSummaries(kv, rows), OrderPrefix)|
    ensures WellTyped(WithSummaries(kv, rows))
    ensures SummaryOf(rows[i]) in CacheOrders(WithSummaries(kv, rows), limit)
  {
    CopyWellTyped(kv, rows);
    CopyAllReadable(kv, rows, i);
    KeyPrefixes(rows[i].id);
    CacheListsEveryHash(WithSummaries(kv, rows), limit, OrderKey(rows[i].id));
  }

  /** `"order:10" < "order:9"`: the strings compare at their seventh character, `'1' < '9'`. */
  lemma KeyNineAboveTen()
    ensures StrLess(OrderKey(10), OrderKey(9)) && OrderKey(9) != OrderKey(10)
  {
    assert OrderKey(9) == "order:9";
    assert OrderKey(10) == "order:10";
    assert StrLess(OrderKey(10), OrderKey(9));
  }

  /** Two order keys are listed greatest first. */
  lemma TwoOrderKeys(kv: map<string, Entry>, a: string, b: string)
    requires KeysWithPrefix(kv, OrderPrefix) == {a, b} && StrLess(b, a)
    ensures OrderKeysNewestFirst(kv) == [a, b]
  {
    StrLessAsymmetric(b, a);
    StrLessIrreflexive(a);
    var keys := OrderKeysNewestFirst(kv);
    assert keys[0] == a && keys[1] == b;
  }

  /** With two order keys, a large enough limit lists both hashes, greatest key first. */
  lemma TwoHashesListed(kv: map<string, Entry>, a: string, b: string, sa: OrderSummary, sb: OrderSummary, limit: int)
    requires WellTyped(kv) && OrderKeysNewestFirst(kv) == [a, b] && limit >= 2
    requires a in kv && kv[a] == Summary(sa) && b in kv && kv[b] == Summary(sb)
    ensures CacheOrders(kv, limit) == [sa, sb]
  {
    OrderKeysAreHashes(kv, limit);
    var r := CacheOrders(kv, limit);
    assert HGetAll(kv, a) == Hash(r[0]) && HGetAll(kv, b) == Hash(r[1]);
  }

  /** The cache lists order 9 before order 10, where the table lists order 10 first. */
  lemma StringOrderIsNotNumeric(s9: OrderSummary, s10: OrderSummary)
    requires s9.id == 9 && s10.id == 10
    ensures var kv := map[OrderKey(9) := Summary(s9), OrderKey(10) := Summary(s10)];
      WellTyped(kv) && CacheOrders(kv, 9999) == [s9, s10]
  {
    var kv := map[OrderKey(9) := Summary(s9), OrderKey(10) := Summary(s10)];
    KeyNineAboveTen();
    KeyPrefixes(9);
    KeyPrefixes(10);
    assert KeysWithPrefix(kv, OrderPrefix) == {OrderKey(9), OrderKey(10)};
    TwoOrderKeys(kv, OrderKey(9), OrderKey(10));
    TwoHashesListed(kv, OrderKey(9), OrderKey(10), s9, s10, 9999);
  }

  /** The table lists order 10 before order 9. */
  lemma TableOrderIsNumeric(r9: OrderRow, r10: OrderRow)
    requires r9.id == 9 && r10.id == 10
    ensures LatestOrders([r9, r10], 9999) == [r10, r9]
  {
    LatestOrdersNewestFirst([r9, r10], 9999);
  }

  // ----- get_highest_spending_users -----

  /** `user_map` */
  const UserMap: map<int, string> := map[1 := "Ada Lovelace", 2 := "Adele Goldberg", 3 := "Alan Turing"]

  /** `user_map.get(int(user_id))`: None for every user id outside the map. */
  function UserName(userId: int): (r: Option<string>)
    ensures r.None? <==> userId !in {1, 2, 3}
  {
    if userId in UserMap then Some(UserMap[userId]) else None
  }

  /** An item of `expenses_by_user`: a user name, or None, and that user's spending. */
  type Expense = (Option<string>, real)

  function Spent(e: Expense): real { e.1 }

  function Names(es: seq<Expense>): set<Option<string>>
  {
    set e | e in es :: e.0
  }

  /** No name occurs twice, as in a dictionary. */
  predicate DistinctNames(es: seq<Expense>)
  {
    forall i, j :: 0 <= i < j < |es| ==> es[i].0 != es[j].0
  }

  /** `expenses_by_user[name]` on the `defaultdict(float)`: 0.0 for a name not yet present. */
  function Lookup(es: seq<Expense>, name: Option<string>): real
  {
    if es == [] then 0.0
    else if es[0].0 == name then es[0].1
    else Lookup(es[1..], name)
  }

  function SumValues(es: seq<Expense>): real
  {
    if es == [] then 0.0 else es[0].1 + SumValues(es[1..])
  }

  /**
   * `expenses_by_user[name] += amount`: the entry is updated in place, or
   * appended when the name is new, as a dictionary keeps insertion order.
   */
  function AddTo(es: seq<Expense>, name: Option<string>, amount: real): (r: seq<Expense>)
    ensures name !in Names(es) ==> r == es + [(name, amount)]
    ensures name in Names(es) ==> |r| == |es| && forall i :: 0 <= i < |r| ==> r[i].0 == es[i].0
  {
    if es == [] then [(name, amount)]
    else if es[0].0 == name then [(name, es[0].1 + amount)] + es[1..]
    else
      assert Names(es) == {es[0].0} + Names(es[1..]);
      [es[0]] + AddTo(es[1..], name, amount)
  }

  lemma {:induction false} AddToNames(es: seq<Expense>, name: Option<string>, amount: real)
    ensures Names(AddTo(es, name, amount)) == Names(es) + {name}
    decreases |es|
  {
    if es != [] {
      assert es == [es[0]] + es[1..];
      assert Names(es) == {es[0].0} + Names(es[1..]);
      var r := AddTo(es, name, amount);
      if es[0].0 == name {
        assert r == [(name, es[0].1 + amount)] + es[1..];
        assert Names(r) == {name} + Names(es[1..]);
      } else {
        AddToNames(es[1..], name, amount);
        var rest := AddTo(es[1..], name, amount);
        assert r == [es[0]] + rest;
        assert Names(r) == {es[0].0} + Names(rest);
      }
    }
  }

  /** Adding to a dictionary keeps one entry per name. */
  lemma AddToDistinct(es: seq<Expense>, name: Option<string>, amount: real)
    requires DistinctNames(es)
    ensures DistinctNames(AddTo(es, name, amount))
  {
    var r := AddTo(es, name, amount);
    if name !in Names(es) {
      forall j | 0 <= j < |es| ensures es[j].0 != name {
        NameAbsent(es, name, j);
      }
    }
  }

  /** Adding to one name changes that name's value by the amount and no other. */
  lemma {:induction false} AddToLookup(es: seq<Expense>, name: Option<string>, amount: real, m: Option<string>)
    ensures Lookup(AddTo(es, name, amount), m) == Lookup(es, m) + (if m == name then amount else 0.0)
    decreases |es|
  {
    if es != [] && es[0].0 != name {
      AddToLookup(es[1..], name, amount, m);
    }
  }

  lemma {:induction false} AddToSum(es: seq<Expense>, name: Option<string>, amount: real)
    ensures SumValues(AddTo(es, name, amount)) == SumValues(es) + amount
    decreases |es|
  {
    if es != [] && es[0].0 != name {
      AddToSum(es[1..], name, amount);
    }
  }

  /** The dictionary the second loop builds over the collected orders. */
  function Expenses(orders: seq<OrderSummary>): seq<Expense>
    decreases |orders|
  {
    if orders == [] then []
    else
      var last := orders[|orders| - 1];
      AddTo(Expenses(orders[..|orders| - 1]), UserName(last.userId), last.totalAmount)
  }

  lemma ExpensesStep(orders: seq<OrderSummary>, i: int)
    requires 0 <= i < |orders|
    ensures Expenses(orders[..i + 1]) == AddTo(Expenses(orders[..i]), UserName(orders[i].userId), orders[i].totalAmount)
  {
    assert orders[..i + 1][..i] == orders[..i];
  }

  /** The spending of the orders whose user maps to `name`. */
  function SpentBy(orders: seq<OrderSummary>, name: Option<string>): real
    decreases |orders|
  {
    if orders == [] then 0.0
    else
      var last := orders[|orders| - 1];
      SpentBy(orders[..|orders| - 1], name) + (if UserName(last.userId) == name then last.totalAmount else 0.0)
  }

  function TotalSpent(orders: seq<OrderSummary>): real
    decreases |orders|
  {
    if orders == [] then 0.0 else TotalSpent(orders[..|orders| - 1]) + orders[|orders| - 1].totalAmount
  }

  /** The names the orders' users map to, None included. */
  function UserNames(orders: seq<OrderSummary>): set<Option<string>>
    decreases |orders|
  {
    if orders == [] then {} else UserNames(orders[..|orders| - 1]) + {UserName(orders[|orders| - 1].userId)}
  }

  /** One entry per name the orders map to, and no other. */
  lemma {:induction false} ExpensesNames(orders: seq<OrderSummary>)
    ensures Names(Expenses(orders)) == UserNames(orders)
    ensures DistinctNames(Expenses(orders))
    decreases |orders|
  {
    if orders != [] {
      ExpensesNames(orders[..|orders| - 1]);
      var last := orders[|orders| - 1];
      AddToNames(Expenses(orders[..|orders| - 1]), UserName(last.userId), last.totalAmount);
      AddToDistinct(Expenses(orders[..|orders| - 1]), UserName(last.userId), last.totalAmount);
    }
  }

  /** Each name's value is the sum of the totals of the orders of the users that map to it. */
  lemma {:induction false} ExpensesSums(orders: seq<OrderSummary>, name: Option<string>)
    ensures Lookup(Expenses(orders), name) == SpentBy(orders, name)
    decreases |orders|
  {
    if orders != [] {
      ExpensesSums(orders[..|orders| - 1], name);
      var last := orders[|orders| - 1];
      AddToLookup(Expenses(orders[..|orders| - 1]), UserName(last.userId), last.totalAmount, name);
    }
  }

  /** Grouping keeps the grand total. */
  lemma {:induction false} ExpensesTotal(orders: seq<OrderSummary>)
    ensures SumValues(Expenses(orders)) == TotalSpent(orders)
    decreases |orders|
  {
    if orders != [] {
      ExpensesTotal(orders[..|orders| - 1]);
      var last := orders[|orders| - 1];
      AddToSum(Expenses(orders[..|orders| - 1]), UserName(last.userId), last.totalAmount);
    }
  }

  /** In a dictionary, the value looked up under an entry's name is that entry's value. */
  lemma {:induction false} LookupOfEntry(es: seq<Expense>, e: Expense)
    requires DistinctNames(es) && e in es
    ensures Lookup(es, e.0) == e.1
    decreases |es|
  {
    if es[0] != e {
      assert e in es[1..];
      var k :| 1 <= k < |es| && es[k] == e;
      assert es[0].0 != es[k].0;
      LookupOfEntry(es[1..], e);
    }
  }

  /** Every user id outside `user_map` lands in one `None` entry, holding all their spending. */
  lemma UnknownUsersCollapse(orders: seq<OrderSummary>, k: int)
    requires 0 <= k < |orders| && orders[k].userId !in {1, 2, 3}
    ensures var es := Expenses(orders);
      && (exists i :: 0 <= i < |es| && es[i] == (None, SpentBy(orders, None)))
      && (forall i, j :: 0 <= i < j < |es| && es[i].0 == None ==> es[j].0 != None)
  {
    var es := Expenses(orders);
    ExpensesNames(orders);
    UserNameListed(orders, k);
    var e :| e in es && e.0 == None;
    LookupOfEntry(es, e);
    ExpensesSums(orders, None);
  }

  lemma {:induction false} UserNameListed(orders: seq<OrderSummary>, k: int)
    requires 0 <= k < |orders|
    ensures UserName(orders[k].userId) in UserNames(orders)
    decreases |orders|
  {
    if k < |orders| - 1 {
      assert orders[..|orders| - 1][k] == orders[k];
      UserNameListed(orders[..|orders| - 1], k);
    }
  }

  lemma NamesOfPermutation(a: seq<Expense>, b: seq<Expense>)
    requires multiset(a) == multiset(b)
    ensures Names(a) == Names(b)
  {
    forall e | e in a ensures e in b { assert e in multiset(a); }
    forall e | e in b ensures e in a { assert e in multiset(b); }
  }

  lemma {:induction false} InsertKeepsSum(x: Expense, s: seq<Expense>)
    ensures SumValues(InsertDesc(x, s, Spent)) == x.1 + SumValues(s)
    decreases |s|
  {
    if s != [] && Spent(s[0]) > Spent(x) {
      InsertKeepsSum(x, s[1..]);
    }
  }

  /** Sorting the report keeps its grand total. */
  lemma {:induction false} SortKeepsSum(s: seq<Expense>)
    ensures SumValues(SortDesc(s, Spent)) == SumValues(s)
    decreases |s|
  {
    if s != [] {
      SortKeepsSum(s[1..]);
      InsertKeepsSum(s[0], SortDesc(s[1..], Spent));
    }
  }

  /** A name absent from a list is absent from each of its entries. */
  lemma NameAbsent(s: seq<Expense>, name: Option<string>, j: int)
    requires name !in Names(s) && 0 <= j < |s|
    ensures s[j].0 != name
  {
    assert s[j] in s;
  }

  lemma {:induction false} InsertKeepsDistinct(x: Expense, s: seq<Expense>)
    requires DistinctNames(s) && x.0 !in Names(s)
    ensures DistinctNames(InsertDesc(x, s, Spent))
    decreases |s|
  {
    if s == [] {
    } else if Spent(s[0]) > Spent(x) {
      var tail := s[1..];
      assert x.0 !in Names(tail) by {
        forall e | e in tail ensures e.0 != x.0 { assert e in s; }
      }
      InsertKeepsDistinct(x, tail);
      var rest := InsertDesc(x, tail, Spent);
      InsertDescPerm(x, tail, Spent);
      assert s[0].0 !in Names(tail + [x]) by {
        NameAbsent(s, x.0, 0);
        forall e | e in tail + [x] ensures e.0 != s[0].0 {
          if e != x {
            var k :| 0 <= k < |tail| && tail[k] == e;
            assert s[k + 1] == e;
          }
        }
      }
      NamesOfPermutation(rest, tail + [x]);
      forall j | 0 <= j < |rest| ensures s[0].0 != rest[j].0 {
        NameAbsent(rest, s[0].0, j);
      }
    } else {
      forall j | 0 <= j < |s| ensures x.0 != s[j].0 {
        NameAbsent(s, x.0, j);
      }
    }
  }

  /** Sorting a dictionary's items keeps one entry per name. */
  lemma {:induction false} SortKeepsDistinct(s: seq<Expense>)
    requires DistinctNames(s)
    ensures DistinctNames(SortDesc(s, Spent))
    decreases |s|
  {
    if s != [] {
      var tail := s[1..];
      assert s == [s[0]] + tail;
      SortKeepsDistinct(tail);
      var sorted := SortDesc(tail, Spent);
      NamesOfPermutation(sorted, tail);
      assert s[0].0 !in Names(tail) by {
        forall e | e in tail ensures e.0 != s[0].0 {
          var k :| 0 <= k < |tail| && tail[k] == e;
          assert s[k + 1] == e;
        }
      }
      InsertKeepsDistinct(s[0], sorted);
    }
  }

  /** The grouped spending entries, largest amount first, ties in insertion order. */
  function SpendingReport(orders: seq<OrderSummary>): (r: seq<Expense>)
    ensures NonIncreasing(r, Spent)
    ensures multiset(r) == multiset(Expenses(orders))
  {
    SortDesc(Expenses(orders), Spent)
  }

  /**
   * The spending report lists each name the orders' users map to exactly
   * once, with the total of that name's orders, and sums to the total of
   * all orders.
   */
  lemma SpendingReportContents(orders: seq<OrderSummary>)
    ensures var r := SpendingReport(orders);
      && Names(r) == UserNames(orders)
      && DistinctNames(r)
      && (forall e :: e in r ==> e.1 == SpentBy(orders, e.0))
      && SumValues(r) == TotalSpent(orders)
  {
    var es := Expenses(orders);
    var r := SpendingReport(orders);
    ExpensesNames(orders);
    NamesOfPermutation(r, es);
    SortKeepsDistinct(es);
    forall e | e in r ensures e.1 == SpentBy(orders, e.0) {
      assert e in multiset(r);
      LookupOfEntry(es, e);
      ExpensesSums(orders, e.0);
    }
    SortKeepsSum(es);
    ExpensesTotal(orders);
  }

  // ----- get_highest_sold_items_redis -----

  /** An item of the sales report: the product id as text and its counter. */
  type Sale = (string, int)

  function Sold(p: Sale): real { p.1 as real }

  /** `keys` lists each key of `s` exactly once, in the order Redis chose. */
  ghost predicate Enumerates(keys: seq<string>, s: set<string>)
  {
    && (forall i, j :: 0 <= i < j < |keys| ==> keys[i] != keys[j])
    && (forall k :: k in keys <==> k in s)
  }

  lemma ProductKeyHasColon(k: string)
    requires HasPrefix(k, ProductPrefix)
    ensures ':' in k && !HasPrefix(k, OrderPrefix)
  {
    assert k[7] == ProductPrefix[7] == ':';
    assert k[0] == ProductPrefix[0];
  }

  /** Each key is a `product:` key holding a counter. */
  ghost predicate AllCounters(kv: map<string, Entry>, keys: seq<string>)
  {
    forall i :: 0 <= i < |keys| ==> keys[i] in kv && kv[keys[i]].Counter? && HasPrefix(keys[i], ProductPrefix)
  }

  /** For each key, in key order, the text after its first colon with the key's counter. */
  function SalePairs(kv: map<string, Entry>, keys: seq<string>): (r: seq<Sale>)
    requires AllCounters(kv, keys)
    ensures |r| == |keys|
    ensures forall i :: 0 <= i < |keys| ==> Some(r[i].0) == SecondField(keys[i]) && r[i].1 == Count(kv, keys[i])
    decreases |keys|
  {
    if keys == [] then []
    else
      var k := keys[|keys| - 1];
      ProductKeyHasColon(k);
      SalePairs(kv, keys[..|keys| - 1]) + [(SecondField(k).value, kv[k].n)]
  }

  lemma SalePairsStep(kv: map<string, Entry>, keys: seq<string>, key: string)
    requires AllCounters(kv, keys + [key])
    ensures AllCounters(kv, keys) && ':' in key && key in kv && kv[key].Counter?
    ensures SalePairs(kv, keys + [key]) == SalePairs(kv, keys) + [(SecondField(key).value, kv[key].n)]
  {
    assert (keys + [key])[..|keys|] == keys;
    assert (keys + [key])[|keys|] == key;
    ProductKeyHasColon(key);
  }

  lemma ProductKeysAreCounters(kv: map<string, Entry>, keys: seq<string>)
    requires WellTyped(kv) && Enumerates(keys, KeysWithPrefix(kv, ProductPrefix))
    ensures AllCounters(kv, keys)
  {
    forall i | 0 <= i < |keys| ensures kv[keys[i]].Counter? {
      ProductKeyHasColon(keys[i]);
    }
  }

  /** The sales pairs, largest count first, ties in key order. */
  function SalesReport(kv: map<string, Entry>, keys: seq<string>): (r: seq<Sale>)
    requires AllCounters(kv, keys)
    ensures NonIncreasing(r, Sold)
    ensures multiset(r) == multiset(SalePairs(kv, keys))
  {
    SortDesc(SalePairs(kv, keys), Sold)
  }

  /** The id of a product key is the decimal text of the product id. */
  lemma ProductIdField(pid: int)
    ensures SecondField(ProductKey(pid)) == Some(IntToStr(pid))
  {
    var k := ProductKey(pid);
    var n := IntToStr(pid);
    assert k[7] == ':';
    assert forall j :: 0 <= j < 7 ==> k[j] != ':';
    assert FindChar(k, ':') == 7;
    assert k[8..] == n;
    assert forall j :: 0 <= j < |n| ==> n[j] != ':' by {
      if pid < 0 {
        forall j | 1 <= j < |n| ensures n[j] != ':' { assert n[1..][j - 1] == n[j]; }
      }
    }
    assert FindChar(n, ':') == |n|;
    assert n[..|n|] == n;
  }

  /** The pairs hold one entry per `product:` key, and each key's pair is among them. */
  lemma SalePairsPerKey(kv: map<string, Entry>, keys: seq<string>)
    requires AllCounters(kv, keys) && Enumerates(keys, KeysWithPrefix(kv, ProductPrefix))
    ensures |SalePairs(kv, keys)| == |KeysWithPrefix(kv, ProductPrefix)|
    ensures forall k :: k in KeysWithPrefix(kv, ProductPrefix) ==>
      SecondField(k).Some? && (SecondField(k).value, Count(kv, k)) in SalePairs(kv, keys)
  {
    var pairs := SalePairs(kv, keys);
    DistinctCard(keys, KeysWithPrefix(kv, ProductPrefix));
    forall k | k in KeysWithPrefix(kv, ProductPrefix)
      ensures SecondField(k).Some? && (SecondField(k).value, Count(kv, k)) in pairs
    {
      var i :| 0 <= i < |keys| && keys[i] == k;
      assert pairs[i] == (SecondField(k).value, Count(kv, k));
    }
  }

  /** The report holds one pair per `product:` key, and each key's pair is in it. */
  lemma SalesReportPerKey(kv: map<string, Entry>, keys: seq<string>, k: string)
    requires WellTyped(kv) && Enumerates(keys, KeysWithPrefix(kv, ProductPrefix))
    requires k in kv && HasPrefix(k, ProductPrefix)
    ensures AllCounters(kv, keys)
    ensures |SalesReport(kv, keys)| == |KeysWithPrefix(kv, ProductPrefix)|
    ensures SecondField(k).Some? && (SecondField(k).value, Count(kv, k)) in SalesReport(kv, keys)
  {
    ProductKeysAreCounters(kv, keys);
    var pairs := SalePairs(kv, keys);
    var r := SalesReport(kv, keys);
    var i :| 0 <= i < |keys| && keys[i] == k;
    assert pairs[i] in multiset(r);
    assert |multiset(r)| == |multiset(pairs)|;
    DistinctCard(keys, KeysWithPrefix(kv, ProductPrefix));
  }

  /** A duplicate-free listing of a set has the set's size. */
  lemma {:induction false} DistinctCard(keys: seq<string>, s: set<string>)
    requires Enumerates(keys, s)
    ensures |keys| == |s|
    decreases |keys|
  {
    if keys != [] {
      var init := keys[..|keys| - 1];
      var last := keys[|keys| - 1];
      assert Enumerates(init, s - {last}) by {
        forall k ensures k in init <==> k in s - {last} {
          if k in init {
            var i :| 0 <= i < |init| && init[i] == k;
            assert keys[i] == k;
          }
          if k in keys && k != last {
            var i :| 0 <= i < |keys| && keys[i] == k;
            assert init[i] == k;
          }
        }
      }
      DistinctCard(init, s - {last});
    }
  }

  /**
   * After `sync_products_to_redis`, the sales report shows, for every
   * product of `order_items`, its decimal id with its units sold, and it
   * shows nothing else.
   */
  lemma SalesAfterRebuild(kv: map<string, Entry>, items: seq<ItemRow>, keys: seq<string>, i: int)
    requires WellTyped(kv) && 0 <= i < |items|
    requires Enumerates(keys, KeysWithPrefix(Rebuilt(kv, items), ProductPrefix))
    ensures WellTyped(Rebuilt(kv, items)) && AllCounters(Rebuilt(kv, items), keys)
    ensures (IntToStr(items[i].productId), UnitsSold(items, items[i].productId)) in SalesReport(Rebuilt(kv, items), keys)
    ensures |SalesReport(Rebuilt(kv, items), keys)| == |KeysWithPrefix(Rebuilt(kv, items), ProductPrefix)|
  {
    var after := Rebuilt(kv, items);
    var pid := items[i].productId;
    RebuildWellTyped(kv, items);
    KeyPrefixes(pid);
    RebuildKeys(kv, items, ProductKey(pid));
    RebuildCounts(kv, items, pid);
    ProductIdField(pid);
    SalesReportPerKey(after, keys, ProductKey(pid));
  }

  /** Each pair of the report after the rebuild is a product of `order_items` with its units sold. */
  lemma {:induction false} SalesAfterRebuildOnly(kv: map<string, Entry>, items: seq<ItemRow>, keys: seq<string>)
    requires WellTyped(kv) && Enumerates(keys, KeysWithPrefix(Rebuilt(kv, items), ProductPrefix))
    ensures AllCounters(Rebuilt(kv, items), keys)
    ensures forall p :: p in SalesReport(Rebuilt(kv, items), keys) ==>
      exists i :: 0 <= i < |items| && p == (IntToStr(items[i].productId), UnitsSold(items, items[i].productId))
  {
    var after := Rebuilt(kv, items);
    RebuildWellTyped(kv, items);
    ProductKeysAreCounters(after, keys);
    var pairs := SalePairs(after, keys);
    forall p | p in SalesReport(after, keys)
      ensures exists i :: 0 <= i < |items| && p == (IntToStr(items[i].productId), UnitsSold(items, items[i].productId))
    {
      assert p in multiset(pairs);
      var j :| 0 <= j < |pairs| && pairs[j] == p;
      RebuildKeys(kv, items, keys[j]);
      var i :| 0 <= i < |items| && keys[j] == ProductKey(items[i].productId);
      ProductIdField(items[i].productId);
      RebuildCounts(kv, items, items[i].productId);
    }
  }
}
