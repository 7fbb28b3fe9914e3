/**
 * The trolley ledger: product id to committed quantity. The source copies the object and
 * upserts or deletes keys; these functions give the copy, and the `Shop` class assigns it.
 */
module Ledger {
  import opened Catalog

  /** No key is stored with a quantity below 1: a zero quantity is a deleted key. */
  predicate Valid(m: map<string, int>)
  {
    forall k :: k in m ==> m[k] >= 1
  }

  /** `trolley[key] || 0`. */
  function Get(m: map<string, int>, key: string): int
  {
    if key in m then m[key] else 0
  }

  /** The sum of all stored quantities, in no particular key order. */
  ghost function Sum(m: map<string, int>): (r: int)
    ensures (forall k :: k in m ==> m[k] >= 0) ==> r >= 0
    ensures m == map[] ==> r == 0
    decreases |m|
  {
    if m == map[] then 0
    else
      var k :| k in m;
      assert |m - {k}| < |m| by { assert (m - {k}).Keys == m.Keys - {k}; }
      m[k] + Sum(m - {k})
  }

  /** `updateTrolleyQty` (and the ledger half of `updateBelowQty`): clamp at 0, delete on 0, else upsert. */
  function SetQty(m: map<string, int>, key: string, n: int): (r: map<string, int>)
    ensures Valid(m) ==> Valid(r)
    ensures key in r <==> n > 0
    ensures key in r ==> r[key] == n
    ensures forall k :: k != key ==> (k in r <==> k in m)
    ensures forall k :: k != key && k in m ==> r[k] == m[k]
  {
    var q := if n > 0 then n else 0;
    if q == 0 then m - {key} else m[key := q]
  }

  /** `removeTrolleyItem`: the key is deleted, whatever it held. */
  function Remove(m: map<string, int>, key: string): (r: map<string, int>)
    ensures Valid(m) ==> Valid(r)
    ensures key !in r
    ensures forall k :: k != key ==> (k in r <==> k in m)
    ensures forall k :: k != key && k in m ==> r[k] == m[k]
  {
    m - {key}
  }

  /** The ledger half of `addSingleToTrolley`: store `max(old or 0, 1)`. */
  function CommitSingle(m: map<string, int>, key: string): (r: map<string, int>)
    ensures Valid(m) ==> Valid(r)
    ensures key in r && r[key] >= 1 && r[key] >= Get(m, key)
    ensures Get(m, key) >= 1 ==> r[key] == m[key]
    ensures Get(m, key) < 1 ==> r[key] == 1
    ensures forall k :: k != key ==> (k in r <==> k in m)
    ensures forall k :: k != key && k in m ==> r[k] == m[k]
  {
    var old_ := Get(m, key);
    m[key := if old_ > 1 then old_ else 1]
  }

  /**
   * The loop in `addToTrolley`: for each product in turn, `next[id] = quantity`. The keys
   * afterwards are the old keys and the products' ids; what each holds is stated by
   * `CommitManyLast` and `CommitManyUntouched`.
   */
  function CommitMany(m: map<string, int>, xs: seq<Product>): (r: map<string, int>)
    ensures forall k :: k in m ==> k in r
    ensures forall i :: 0 <= i < |xs| ==> xs[i].id in r
    ensures forall k :: k in r ==> k in m || k in Ids(xs)
    decreases |xs|
  {
    if xs == [] then m
    else
      var init := xs[..|xs| - 1];
      var x := xs[|xs| - 1];
      assert Ids(xs) == Ids(init) + {x.id};
      CommitMany(m, init)[x.id := x.quantity]
  }

  /** The updater passed to `setTrolley` in `addToTrolley`: copy the ledger, then write each product's quantity in turn. */
  method CommitEach(prev: map<string, int>, xs: seq<Product>) returns (next: map<string, int>)
    ensures next == CommitMany(prev, xs)
  {
    next := prev;
    var i := 0;
    while i < |xs|
      invariant 0 <= i <= |xs|
      invariant next == CommitMany(prev, xs[..i])
    {
      assert xs[..i + 1][..i] == xs[..i];
      next := next[xs[i].id := xs[i].quantity];
      i := i + 1;
    }
    assert xs[..i] == xs;
  }

  /** The ids of a sequence of products. */
  function Ids(xs: seq<Product>): (r: set<string>)
    ensures forall i :: 0 <= i < |xs| ==> xs[i].id in r
    ensures forall k :: k in r ==> exists i :: 0 <= i < |xs| && xs[i].id == k
  {
    set i | 0 <= i < |xs| :: xs[i].id
  }

  // ---------------------------------------------------------------------------
  // Properties

  /** Any key can be taken out first: the sum does not depend on the order of the keys. */
  lemma {:induction false} SumRemove(m: map<string, int>, k: string)
    requires k in m
    ensures Sum(m) == m[k] + Sum(m - {k})
    decreases |m|
  {
    var j :| j in m && Sum(m) == m[j] + Sum(m - {j});
    if j != k {
      assert (m - {j}).Keys == m.Keys - {j};
      SumRemove(m - {j}, k);
      assert (m - {k}).Keys == m.Keys - {k};
      SumRemove(m - {k}, j);
      assert m - {j} - {k} == m - {k} - {j};
    }
  }

  /** The sum after storing `v` under `k`: the old entry's share replaced by `v`. */
  lemma SumUpdate(m: map<string, int>, k: string, v: int)
    ensures Sum(m[k := v]) == Sum(m) - Get(m, k) + v
  {
    SumRemove(m[k := v], k);
    assert m[k := v] - {k} == m - {k};
    if k in m {
      SumRemove(m, k);
    } else {
      assert m - {k} == m;
    }
  }

  /** The sum after deleting `k`: its share is gone. */
  lemma SumDelete(m: map<string, int>, k: string)
    ensures Sum(m - {k}) == Sum(m) - Get(m, k)
  {
    if k in m {
      SumRemove(m, k);
    } else {
      assert m - {k} == m;
    }
  }

  /** The trolley count after `updateTrolleyQty(key, n)`: the key's share becomes `max(0, n)`. */
  lemma SetQtySum(m: map<string, int>, key: string, n: int)
    ensures Sum(SetQty(m, key, n)) == Sum(m) - Get(m, key) + (if n > 0 then n else 0)
  {
    if n > 0 { SumUpdate(m, key, n); } else { SumDelete(m, key); }
  }

  /** The trolley count after `removeTrolleyItem(key)`. */
  lemma RemoveSum(m: map<string, int>, key: string)
    ensures Sum(Remove(m, key)) == Sum(m) - Get(m, key)
  {
    SumDelete(m, key);
  }

  /** The trolley count after `addSingleToTrolley(key)` grows by 1 when the key was absent, and not at all otherwise. */
  lemma CommitSingleSum(m: map<string, int>, key: string)
    requires Valid(m)
    ensures Sum(CommitSingle(m, key)) == Sum(m) + (if key in m then 0 else 1)
  {
    SumUpdate(m, key, if Get(m, key) > 1 then Get(m, key) else 1);
  }

  /** With every quantity at least 1, the count is at least the number of entries: it is 0 only for an empty ledger. */
  lemma {:induction false} SumAtLeastSize(m: map<string, int>)
    requires Valid(m)
    ensures Sum(m) >= |m|
    ensures Sum(m) == 0 <==> m == map[]
    decreases |m|
  {
    if m != map[] {
      var k :| k in m;
      SumRemove(m, k);
      assert (m - {k}).Keys == m.Keys - {k};
      SumAtLeastSize(m - {k});
    }
  }

  /** Dropping entries of non-negative quantity never raises the sum. */
  lemma {:induction false} SumSubmap(a: map<string, int>, b: map<string, int>)
    requires forall k :: k in a ==> k in b && a[k] == b[k]
    requires forall k :: k in b ==> b[k] >= 0
    ensures Sum(a) <= Sum(b)
    decreases |b|
  {
    if b != map[] {
      var k :| k in b;
      SumRemove(b, k);
      assert (b - {k}).Keys == b.Keys - {k};
      if k in a {
        SumRemove(a, k);
        SumSubmap(a - {k}, b - {k});
      } else {
        SumSubmap(a, b - {k});
      }
    } else {
      assert a == map[];
    }
  }

  /** The last product carrying an id decides what that id holds after `addToTrolley`. */
  lemma {:induction false} CommitManyLast(m: map<string, int>, xs: seq<Product>, i: int)
    requires 0 <= i < |xs|
    requires forall j :: i < j < |xs| ==> xs[j].id != xs[i].id
    ensures CommitMany(m, xs)[xs[i].id] == xs[i].quantity
    decreases |xs|
  {
    if i < |xs| - 1 {
      var init := xs[..|xs| - 1];
      CommitManyLast(m, init, i);
    }
  }

  /** An id some product carries ends up holding the quantity of one of those products. */
  lemma {:induction false} CommitManyHit(m: map<string, int>, xs: seq<Product>, k: string)
    requires exists i :: 0 <= i < |xs| && xs[i].id == k
    ensures exists i :: 0 <= i < |xs| && xs[i].id == k && CommitMany(m, xs)[k] == xs[i].quantity
    decreases |xs|
  {
    var init := xs[..|xs| - 1];
    if xs[|xs| - 1].id != k {
      var i :| 0 <= i < |xs| && xs[i].id == k;
      assert init[i] == xs[i];
      CommitManyHit(m, init, k);
      var j :| 0 <= j < |init| && init[j].id == k && CommitMany(m, init)[k] == init[j].quantity;
      assert xs[j] == init[j];
    }
  }

  /** An id that no product carries keeps its old entry, or stays absent. */
  lemma {:induction false} CommitManyUntouched(m: map<string, int>, xs: seq<Product>, k: string)
    requires forall j :: 0 <= j < |xs| ==> xs[j].id != k
    ensures k in CommitMany(m, xs) <==> k in m
    ensures k in m ==> CommitMany(m, xs)[k] == m[k]
    decreases |xs|
  {
    if xs != [] {
      CommitManyUntouched(m, xs[..|xs| - 1], k);
    }
  }

  /** Committing products of positive quantity keeps every stored quantity at least 1. */
  lemma {:induction false} CommitManyValid(m: map<string, int>, xs: seq<Product>)
    requires Valid(m)
    requires forall i :: 0 <= i < |xs| ==> xs[i].quantity > 0
    ensures Valid(CommitMany(m, xs))
    decreases |xs|
  {
    if xs != [] {
      CommitManyValid(m, xs[..|xs| - 1]);
    }
  }
}
