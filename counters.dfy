/**
 * Product sale counters in the cache: the INCR commands the write path and
 * the rebuild issue, described as a list of (product, amount) increments.
 */
module Counters {
  import opened Text
  import opened Stores

  /** One `r.incr(f"product:{productId}", amount)`. */
  datatype Delta = Delta(productId: int, amount: int)

  /** The keyspace after one INCR: a missing or non-counter key starts from 0. */
  function Incremented(kv: map<string, Entry>, d: Delta): map<string, Entry>
  {
    var key := ProductKey(d.productId);
    kv[key := Counter(Count(kv, key) + d.amount)]
  }

  /** The keyspace after the increments of `ds`, in order. */
  function ApplyDeltas(kv: map<string, Entry>, ds: seq<Delta>): map<string, Entry>
    decreases |ds|
  {
    if ds == [] then kv
    else Incremented(ApplyDeltas(kv, ds[..|ds| - 1]), ds[|ds| - 1])
  }

  /** The total the increments of `ds` add to product `pid`. */
  function DeltaSum(ds: seq<Delta>, pid: int): int
    decreases |ds|
  {
    if ds == [] then 0
    else DeltaSum(ds[..|ds| - 1], pid) + (if ds[|ds| - 1].productId == pid then ds[|ds| - 1].amount else 0)
  }

  /** Each counter grows by exactly the increments addressed to it. */
  lemma {:induction false} ApplyDeltasCount(kv: map<string, Entry>, ds: seq<Delta>, pid: int)
    ensures Count(ApplyDeltas(kv, ds), ProductKey(pid)) == Count(kv, ProductKey(pid)) + DeltaSum(ds, pid)
    decreases |ds|
  {
    if ds != [] {
      ApplyDeltasCount(kv, ds[..|ds| - 1], pid);
      var last := ds[|ds| - 1].productId;
      if last != pid && ProductKey(last) == ProductKey(pid) {
        ProductKeyInjective(last, pid);
      }
    }
  }

  /** What `CacheStore.Incr` leaves is the keyspace `Incremented` describes. */
  lemma IncrMatches(before: map<string, Entry>, d: Delta, value: int, after: map<string, Entry>)
    requires value == Count(before, ProductKey(d.productId)) + d.amount
    requires after == before[ProductKey(d.productId) := Counter(value)]
    ensures after == Incremented(before, d)
  {
  }

  /** The state after one more increment, given the state before it. */
  lemma ApplyDeltasPush(kv: map<string, Entry>, ds: seq<Delta>, d: Delta,
                        before: map<string, Entry>, after: map<string, Entry>)
    requires before == ApplyDeltas(kv, ds)
    requires after == Incremented(before, d)
    ensures after == ApplyDeltas(kv, ds + [d])
  {
    var all := ds + [d];
    assert all[..|all| - 1] == ds;
  }

  /** A key no increment addresses keeps its value, or stays absent. */
  lemma {:induction false} ApplyDeltasOther(kv: map<string, Entry>, ds: seq<Delta>, k: string)
    requires !Addressed(ds, k)
    ensures k in ApplyDeltas(kv, ds) <==> k in kv
    ensures k in kv ==> ApplyDeltas(kv, ds)[k] == kv[k]
    decreases |ds|
  {
    if ds != [] {
      ApplyDeltasOther(kv, ds[..|ds| - 1], k);
    }
  }

  /** Some increment of `ds` is addressed to key `k`. */
  predicate Addressed(ds: seq<Delta>, k: string)
    decreases |ds|
  {
    ds != [] && (Addressed(ds[..|ds| - 1], k) || k == ProductKey(ds[|ds| - 1].productId))
  }

  lemma {:induction false} OnlyProductKeysAddressed(ds: seq<Delta>, k: string)
    requires !HasPrefix(k, ProductPrefix)
    ensures !Addressed(ds, k)
    decreases |ds|
  {
    if ds != [] {
      OnlyProductKeysAddressed(ds[..|ds| - 1], k);
    }
  }

  /** The increments create exactly the counters of the products they address. */
  lemma {:induction false} ApplyDeltasKeys(kv: map<string, Entry>, ds: seq<Delta>, k: string)
    ensures k in ApplyDeltas(kv, ds) <==> k in kv || Addressed(ds, k)
    decreases |ds|
  {
    if ds != [] {
      ApplyDeltasKeys(kv, ds[..|ds| - 1], k);
    }
  }

  /** Increments keep every `order:` key a hash and every other key a counter. */
  lemma {:induction false} ApplyDeltasWellTyped(kv: map<string, Entry>, ds: seq<Delta>)
    requires WellTyped(kv)
    ensures WellTyped(ApplyDeltas(kv, ds))
    decreases |ds|
  {
    if ds != [] {
      ApplyDeltasWellTyped(kv, ds[..|ds| - 1]);
      KeyPrefixes(ds[|ds| - 1].productId);
    }
  }

  /** The keyspace without its `product:` keys (what the rebuild deletes first). */
  function WithoutCounters(kv: map<string, Entry>): (r: map<string, Entry>)
    ensures forall k :: k in r <==> k in kv && !HasPrefix(k, ProductPrefix)
    ensures forall k :: k in r ==> r[k] == kv[k]
  {
    map k | k in kv && !HasPrefix(k, ProductPrefix) :: kv[k]
  }

  /** Increments never touch a key outside `product:`. */
  lemma ApplyDeltasKeepsOthers(kv: map<string, Entry>, ds: seq<Delta>)
    ensures WithoutCounters(ApplyDeltas(kv, ds)) == WithoutCounters(kv)
  {
    var a := ApplyDeltas(kv, ds);
    forall k | !HasPrefix(k, ProductPrefix)
      ensures (k in a <==> k in kv) && (k in kv ==> a[k] == kv[k])
    {
      OnlyProductKeysAddressed(ds, k);
      ApplyDeltasOther(kv, ds, k);
    }
  }
}
