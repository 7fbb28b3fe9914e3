/**
 * The values the shopping views derive from the catalogue and the trolley ledger:
 * `isInTrolley`, the quick-shop feed and its totals, `qsAllInTrolley`, the trolley's
 * materialised lines (`trolleyItems`), its counts and subtotal, and the minimum-spend rule.
 */
module Aggregates {
  import opened Wrappers
  import opened Seqs
  import opened Catalog
  import opened Categorizer
  import Ledger

  /** Minimum spend for delivery, in pounds. */
  const MinSpend: real := 40.0

  /** `isInTrolley`: the ledger holds the product's id with at least its staged quantity, and that quantity is positive. */
  predicate IsInTrolley(trolley: map<string, int>, p: Product)
    ensures IsInTrolley(trolley, p) <==> p.quantity > 0 && Ledger.Get(trolley, p.id) >= p.quantity
  {
    p.id in trolley && trolley[p.id] >= p.quantity && p.quantity > 0
  }

  function NotInTrolley(trolley: map<string, int>): Product -> bool
  {
    p => !IsInTrolley(trolley, p)
  }

  predicate Positive(p: Product) { p.quantity > 0 }

  /** `visibleItems`: the quick-shop products not yet in the trolley, in catalogue order. */
  function VisibleItems(items: seq<Product>, trolley: map<string, int>): (r: seq<Product>)
    ensures forall p :: p in r <==> p in items && InQuickShop(p) && !IsInTrolley(trolley, p)
  {
    Filter(QuickShop(items), NotInTrolley(trolley))
  }

  /** The products `addToTrolley` commits: the visible ones with a positive quantity. */
  function ItemsToAdd(items: seq<Product>, trolley: map<string, int>): (r: seq<Product>)
    ensures forall p :: p in r <==> p in items && InQuickShop(p) && !IsInTrolley(trolley, p) && p.quantity > 0
    ensures forall i :: 0 <= i < |r| ==> r[i].quantity > 0
  {
    var r := Filter(VisibleItems(items, trolley), Positive);
    assert forall i :: 0 <= i < |r| ==> r[i] in r;
    r
  }

  /** `qsAllInTrolley`: a non-empty quick shop whose every positive product is in the trolley. */
  predicate QsAllInTrolley(items: seq<Product>, trolley: map<string, int>)
    ensures QsAllInTrolley(items, trolley) <==>
              (exists i :: 0 <= i < |items| && InQuickShop(items[i]))
              && forall i :: 0 <= i < |items| && InQuickShop(items[i]) && items[i].quantity > 0 ==> IsInTrolley(trolley, items[i])
  {
    var qs := QuickShop(items);
    assert |qs| > 0 ==> qs[0] in qs;
    assert forall i :: 0 <= i < |items| ==> items[i] in items;
    |qs| > 0 && forall p :: p in Filter(qs, Positive) ==> IsInTrolley(trolley, p)
  }

  /** No two products share an id. */
  predicate UniqueIds(items: seq<Product>)
  {
    forall i, j :: 0 <= i < j < |items| ==> items[i].id != items[j].id
  }

  /** What one product costs at its quantity: `price * quantity`. */
  function LineTotal(p: Product): (r: real)
    ensures p.price >= 0.0 && p.quantity >= 0 ==> r >= 0.0
    ensures p.quantity == 0 ==> r == 0.0
  {
    if p.price >= 0.0 && p.quantity >= 0 then
      MulNonNegative(p.price, p.quantity as real);
      p.price * p.quantity as real
    else p.price * p.quantity as real
  }

  /** `reduce((sum, item) => sum + item.price * item.quantity, 0)`. */
  function Total(s: seq<Product>): (r: real)
    ensures (forall i :: 0 <= i < |s| ==> s[i].price >= 0.0 && s[i].quantity >= 0) ==> r >= 0.0
    ensures (forall i :: 0 <= i < |s| ==> s[i].quantity == 0) ==> r == 0.0
    decreases |s|
  {
    if s == [] then 0.0 else LineTotal(s[0]) + Total(s[1..])
  }

  /** `reduce((sum, item) => sum + item.quantity, 0)`. */
  function Count(s: seq<Product>): (r: int)
    ensures (forall i :: 0 <= i < |s| ==> s[i].quantity >= 0) ==> r >= 0
    ensures (forall i :: 0 <= i < |s| ==> s[i].quantity >= 0) ==> (r == 0 <==> forall i :: 0 <= i < |s| ==> s[i].quantity == 0)
    decreases |s|
  {
    if s == [] then 0 else s[0].quantity + Count(s[1..])
  }

  /**
   * `trolleyItems`: each ledger id found in the catalogue, as the first product with that id
   * carrying the ledger's quantity; ids not in the catalogue are dropped.
   */
  function TrolleyItems(items: seq<Product>, trolley: map<string, int>): (r: map<string, Product>)
    ensures forall k :: k in r <==> k in trolley && exists i :: 0 <= i < |items| && items[i].id == k
    ensures forall k :: k in r ==> r[k].quantity == trolley[k] && r[k].id == k
  {
    map k | k in trolley && FirstIndex(items, k).Some? :: items[FirstIndex(items, k).value].(quantity := trolley[k])
  }

  /** The quantities of the trolley lines, by id. */
  function Quantities(lines: map<string, Product>): (r: map<string, int>)
    ensures r.Keys == lines.Keys
    ensures forall k :: k in r ==> r[k] == lines[k].quantity
  {
    map k | k in lines :: lines[k].quantity
  }

  /** `trolleyItemCount`: the quantities of the trolley lines, summed. */
  ghost function TrolleyItemCount(lines: map<string, Product>): (r: int)
    ensures (forall k :: k in lines ==> lines[k].quantity >= 0) ==> r >= 0
    ensures lines == map[] ==> r == 0
  {
    Ledger.Sum(Quantities(lines))
  }

  /** A sum of reals over a map, in no particular key order. */
  ghost function RealSum(m: map<string, real>): (r: real)
    ensures (forall k :: k in m ==> m[k] >= 0.0) ==> r >= 0.0
    ensures m == map[] ==> r == 0.0
    decreases |m|
  {
    if m == map[] then 0.0
    else
      var k :| k in m;
      assert |m - {k}| < |m| by { assert (m - {k}).Keys == m.Keys - {k}; }
      m[k] + RealSum(m - {k})
  }

  /** The line totals, `price * quantity`, by id. */
  function LineTotals(lines: map<string, Product>): (r: map<string, real>)
    ensures r.Keys == lines.Keys
    ensures forall k :: k in r ==> r[k] == LineTotal(lines[k])
  {
    map k | k in lines :: LineTotal(lines[k])
  }

  /** `trolleySubtotal`. */
  ghost function Subtotal(lines: map<string, Product>): (r: real)
    ensures (forall k :: k in lines ==> lines[k].price >= 0.0 && lines[k].quantity >= 0) ==> r >= 0.0
    ensures lines == map[] ==> r == 0.0
  {
    RealSum(LineTotals(lines))
  }

  /** `belowMinSpend`. */
  predicate BelowMinSpend(subtotal: real)
  {
    subtotal < MinSpend
  }

  /** `amountToMinSpend = max(0, 40 - subtotal)`: what is still to spend, and nothing once the minimum is met. */
  function AmountToMinSpend(subtotal: real): (r: real)
    ensures r >= 0.0
    ensures r == 0.0 <==> !BelowMinSpend(subtotal)
    ensures r > 0.0 ==> subtotal + r == MinSpend
  {
    if MinSpend - subtotal > 0.0 then MinSpend - subtotal else 0.0
  }

  /** The noun after a count in the trolley's subtotal line. */
  function ItemNoun(n: int): (r: string)
    ensures r == "item" <==> n == 1
    ensures r == "item" || r == "items"
  {
    if n == 1 then "item" else "items"
  }

  // ---------------------------------------------------------------------------
  // Properties

  /** A product with no staged quantity is never in the trolley, whatever the ledger holds. */
  lemma ZeroNeverInTrolley(items: seq<Product>, trolley: map<string, int>, p: Product)
    requires p in items && InQuickShop(p) && p.quantity <= 0
    ensures !IsInTrolley(trolley, p) && p in VisibleItems(items, trolley)
  {
  }

  /** Staging a quick-shop product above its committed quantity brings it back into the feed. */
  lemma RaiseReturnsToFeed(items: seq<Product>, trolley: map<string, int>, id: string, q: int)
    requires q > Ledger.Get(trolley, id)
    ensures forall i :: 0 <= i < |items| && items[i].id == id && InQuickShop(items[i]) ==>
              SetQuantity(items, id, q)[i] in VisibleItems(SetQuantity(items, id, q), trolley)
  {
    var r := SetQuantity(items, id, q);
    forall i | 0 <= i < |items| && items[i].id == id && InQuickShop(items[i])
      ensures r[i] in VisibleItems(r, trolley)
    {
      assert r[i] in r && !IsInTrolley(trolley, r[i]);
    }
  }

  /** `qsAllInTrolley` holds exactly when the quick shop is non-empty and `addToTrolley` has nothing to commit. */
  lemma QsAllIffNothingToAdd(items: seq<Product>, trolley: map<string, int>)
    ensures QsAllInTrolley(items, trolley) <==> |QuickShop(items)| > 0 && ItemsToAdd(items, trolley) == []
  {
    var vis := VisibleItems(items, trolley);
    if QsAllInTrolley(items, trolley) {
      forall i | 0 <= i < |vis|
        ensures !Positive(vis[i])
      {
        assert vis[i] in vis;
        assert vis[i] in QuickShop(items);
      }
      FilterNone(vis, Positive);
    }
    if |QuickShop(items)| > 0 && ItemsToAdd(items, trolley) == [] {
      forall p | p in Filter(QuickShop(items), Positive)
        ensures IsInTrolley(trolley, p)
      {
        assert p in QuickShop(items);
      }
    }
  }

  lemma SameId(items: seq<Product>, a: Product, b: Product)
    requires UniqueIds(items) && a in items && b in items && a.id == b.id
    ensures a == b
  {
    var i :| 0 <= i < |items| && items[i] == a;
    var j :| 0 <= j < |items| && items[j] == b;
  }

  /**
   * After `addToTrolley` commits, every positive quick-shop product is in the trolley, so the
   * call-to-action turns into "continue" (catalogue ids being unique).
   */
  lemma AddCommitsEverything(items: seq<Product>, trolley: map<string, int>)
    requires UniqueIds(items) && |QuickShop(items)| > 0
    ensures QsAllInTrolley(items, Ledger.CommitMany(trolley, ItemsToAdd(items, trolley)))
  {
    var toAdd := ItemsToAdd(items, trolley);
    var next := Ledger.CommitMany(trolley, toAdd);
    forall p | p in Filter(QuickShop(items), Positive)
      ensures IsInTrolley(next, p)
    {
      if p in toAdd {
        Ledger.CommitManyHit(trolley, toAdd, p.id);
        var i :| 0 <= i < |toAdd| && toAdd[i].id == p.id && next[p.id] == toAdd[i].quantity;
        assert toAdd[i] in toAdd;
        SameId(items, toAdd[i], p);
      } else {
        forall j | 0 <= j < |toAdd|
          ensures toAdd[j].id != p.id
        {
          assert toAdd[j] in toAdd;
          if toAdd[j].id == p.id { SameId(items, toAdd[j], p); }
        }
        Ledger.CommitManyUntouched(trolley, toAdd, p.id);
      }
    }
  }

  /**
   * As written, `addSingleToTrolley` can leave a product not in the trolley: a food product
   * staged at 3 whose ledger entry was lowered to 2 on the trolley page keeps both values.
   */
  lemma AddSingleAsWrittenMissesAdded()
    ensures var p := Product("7", None, 1.0, "", "", 3, "", "Bakery", "", "7", 0.2);
            var trolley := map["7" := 2];
            !IsInTrolley(trolley, p)
            && !IsInTrolley(Ledger.CommitSingle(trolley, "7"), RaiseToOne([p], "7")[0])
  {
    var p := Product("7", None, 1.0, "", "", 3, "", "Bakery", "", "7", 0.2);
    var after := RaiseToOne([p], "7")[0];
    assert after.quantity == 3;
    assert Ledger.CommitSingle(map["7" := 2], "7")["7"] == 2;
  }

  /** The staged quantities after `addSingleToTrolley`, aligned with the ledger entry it stores. */
  function AddSingleItems(items: seq<Product>, trolley: map<string, int>, id: string): (r: seq<Product>)
    ensures |r| == |items|
    ensures forall i :: 0 <= i < |r| && items[i].id != id ==> r[i] == items[i]
    ensures forall i :: 0 <= i < |r| && items[i].id == id ==> r[i] == items[i].(quantity := Ledger.CommitSingle(trolley, id)[id])
  {
    SetQuantity(items, id, Ledger.CommitSingle(trolley, id)[id])
  }

  /** With the staged quantity aligned, every product with the id is in the trolley after `addSingleToTrolley`. */
  lemma AddSingleMarksAdded(items: seq<Product>, trolley: map<string, int>, id: string)
    ensures forall i :: 0 <= i < |items| && items[i].id == id ==>
              IsInTrolley(Ledger.CommitSingle(trolley, id), AddSingleItems(items, trolley, id)[i])
  {
  }

  lemma TotalCountCons(x: Product, s: seq<Product>)
    ensures Total([x] + s) == LineTotal(x) + Total(s)
    ensures Count([x] + s) == x.quantity + Count(s)
  {
    assert ([x] + s)[1..] == s;
  }

  /** Splitting a list by a predicate splits its total. */
  lemma {:induction false} TotalSplit(s: seq<Product>, f: Product -> bool, g: Product -> bool)
    requires forall p :: g(p) == !f(p)
    ensures Total(s) == Total(Filter(s, f)) + Total(Filter(s, g))
    decreases |s|
  {
    if s != [] {
      var x := s[0];
      var rf := Filter(s[1..], f);
      var rg := Filter(s[1..], g);
      TotalSplit(s[1..], f, g);
      if f(x) {
        assert Filter(s, f) == [x] + rf;
        TotalCountCons(x, rf);
      } else {
        assert Filter(s, g) == [x] + rg;
        TotalCountCons(x, rg);
      }
    }
  }

  /** Splitting a list by a predicate splits its count. */
  lemma {:induction false} CountSplit(s: seq<Product>, f: Product -> bool, g: Product -> bool)
    requires forall p :: g(p) == !f(p)
    ensures Count(s) == Count(Filter(s, f)) + Count(Filter(s, g))
    decreases |s|
  {
    if s != [] {
      var x := s[0];
      var rf := Filter(s[1..], f);
      var rg := Filter(s[1..], g);
      CountSplit(s[1..], f, g);
      if f(x) {
        assert Filter(s, f) == [x] + rf;
        TotalCountCons(x, rf);
      } else {
        assert Filter(s, g) == [x] + rg;
        TotalCountCons(x, rg);
      }
    }
  }

  /** The feed's `total` and `count` are the quick shop's, less what is already in the trolley. */
  lemma VisibleTotals(items: seq<Product>, trolley: map<string, int>)
    ensures Total(VisibleItems(items, trolley)) == Total(QuickShop(items)) - Total(Filter(QuickShop(items), (p: Product) => IsInTrolley(trolley, p)))
    ensures Count(VisibleItems(items, trolley)) == Count(QuickShop(items)) - Count(Filter(QuickShop(items), (p: Product) => IsInTrolley(trolley, p)))
  {
    TotalSplit(QuickShop(items), NotInTrolley(trolley), (p: Product) => IsInTrolley(trolley, p));
    CountSplit(QuickShop(items), NotInTrolley(trolley), (p: Product) => IsInTrolley(trolley, p));
  }

  /** Totals of concatenated lists add up. */
  lemma {:induction false} TotalCountAppend(a: seq<Product>, b: seq<Product>)
    ensures Total(a + b) == Total(a) + Total(b)
    ensures Count(a + b) == Count(a) + Count(b)
    decreases |a|
  {
    if a == [] {
      assert a + b == b;
    } else {
      assert (a + b)[1..] == a[1..] + b;
      TotalCountAppend(a[1..], b);
    }
  }

  /**
   * `trolleyItemCount` never exceeds `trolleyCount`, and equals it when every ledger id is in
   * the catalogue.
   */
  lemma ItemCountAtMostTrolleyCount(items: seq<Product>, trolley: map<string, int>)
    requires Ledger.Valid(trolley)
    ensures TrolleyItemCount(TrolleyItems(items, trolley)) <= Ledger.Sum(trolley)
    ensures (forall k :: k in trolley ==> exists i :: 0 <= i < |items| && items[i].id == k) ==>
              TrolleyItemCount(TrolleyItems(items, trolley)) == Ledger.Sum(trolley)
  {
    var q := Quantities(TrolleyItems(items, trolley));
    LineQuantitiesFromLedger(items, trolley);
    Ledger.SumSubmap(q, trolley);
    if forall k :: k in trolley ==> exists i :: 0 <= i < |items| && items[i].id == k {
      LineQuantitiesAll(items, trolley);
    }
  }

  lemma LineQuantitiesFromLedger(items: seq<Product>, trolley: map<string, int>)
    ensures forall k :: k in Quantities(TrolleyItems(items, trolley)) ==>
              k in trolley && Quantities(TrolleyItems(items, trolley))[k] == trolley[k]
  {
  }

  lemma LineQuantitiesAll(items: seq<Product>, trolley: map<string, int>)
    requires forall k :: k in trolley ==> exists i :: 0 <= i < |items| && items[i].id == k
    ensures Quantities(TrolleyItems(items, trolley)) == trolley
  {
    var lines := TrolleyItems(items, trolley);
    var q := Quantities(lines);
    assert q.Keys == trolley.Keys;
  }

  /** A sum of non-negative reals is non-negative. */
  /** The sum over a single entry is that entry. */
  lemma RealSumSingleton(k: string, v: real)
    ensures RealSum(map[k := v]) == v
  {
    var m := map[k := v];
    assert m - {k} == map[];
  }

  /** With non-negative prices, the subtotal of a valid trolley is non-negative and the empty trolley's is 0. */
  lemma SubtotalNonNegative(items: seq<Product>, trolley: map<string, int>)
    requires Ledger.Valid(trolley)
    requires forall i :: 0 <= i < |items| ==> items[i].price >= 0.0
    ensures Subtotal(TrolleyItems(items, trolley)) >= 0.0
    ensures trolley == map[] ==> Subtotal(TrolleyItems(items, trolley)) == 0.0
  {
    var lines := TrolleyItems(items, trolley);
    forall k | k in lines
      ensures lines[k].price >= 0.0 && lines[k].quantity >= 0
    {
      var i := FirstIndex(items, k).value;
      assert lines[k] == items[i].(quantity := trolley[k]);
    }
  }

  lemma MulNonNegative(a: real, b: real)
    requires a >= 0.0 && b >= 0.0
    ensures a * b >= 0.0
  {
  }

  /** A trolley line is the first catalogue product with its id, at the ledger's quantity. */
  lemma TrolleyLineIsFirstMatch(items: seq<Product>, trolley: map<string, int>, k: string)
    requires k in TrolleyItems(items, trolley)
    ensures exists i :: 0 <= i < |items| && TrolleyItems(items, trolley)[k] == items[i].(quantity := trolley[k])
                        && forall j :: 0 <= j < i ==> items[j].id != k
  {
    var i := FirstIndex(items, k).value;
    assert TrolleyItems(items, trolley)[k] == items[i].(quantity := trolley[k]);
  }

  /** Exactly 40 meets the minimum spend; a penny less does not, and leaves a penny to spend. */
  lemma MinSpendBoundary()
    ensures !BelowMinSpend(40.0) && AmountToMinSpend(40.0) == 0.0
    ensures BelowMinSpend(39.99) && AmountToMinSpend(39.99) == 0.01
  {
  }
}
