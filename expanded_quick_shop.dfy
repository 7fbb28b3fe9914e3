/**
 * The expanded quick-shop component: its running totals and the quantity each of its
 * controls asks the page to set.
 */
module ExpandedQuickShop {
  import opened Seqs
  import opened Catalog
  import opened Aggregates

  /** `estimatedTotal`: `price * quantity` summed over the shown products. */
  function EstimatedTotal(products: seq<Product>): (r: real)
    ensures (forall i :: 0 <= i < |products| ==> products[i].price >= 0.0 && products[i].quantity >= 0) ==> r >= 0.0
    ensures (forall i :: 0 <= i < |products| ==> products[i].quantity == 0) ==> r == 0.0
  {
    Total(products)
  }

  /** `totalCount`: the positive quantities summed; a zero or negative quantity adds nothing. */
  function TotalCount(products: seq<Product>): (r: int)
    ensures r >= 0
    decreases |products|
  {
    if products == [] then 0
    else (if products[0].quantity > 0 then products[0].quantity else 0) + TotalCount(products[1..])
  }

  /** A grid tile's tap: select one of a product not selected, and deselect any other. */
  function GridTap(q: int): (r: int)
    ensures r == 0 || r == 1
    ensures r == 1 <==> q == 0
  {
    if q == 0 then 1 else 0
  }

  /** The list's minus button: one less, never below 0. */
  function StepDown(q: int): (r: int)
    ensures r >= 0
    ensures r <= q || q < 0
  {
    if q - 1 > 0 then q - 1 else 0
  }

  /** The list's plus button. */
  function StepUp(q: int): (r: int)
    ensures r > q
  {
    q + 1
  }

  /** The hint under a grid tile. */
  function GridHint(q: int): (r: string)
    ensures r == "Tap to add" <==> q == 0
    ensures r == "Tap to remove" <==> q != 0
  {
    if q == 0 then "Tap to add" else "Tap to remove"
  }

  // ---------------------------------------------------------------------------
  // Properties

  /** `totalCount` is the quantity of the selected products: those staged above 0. */
  lemma {:induction false} TotalCountOfSelected(products: seq<Product>)
    ensures TotalCount(products) == Count(Filter(products, Positive))
    decreases |products|
  {
    if products != [] {
      var x := products[0];
      TotalCountOfSelected(products[1..]);
      if x.quantity > 0 {
        assert Filter(products, Positive) == [x] + Filter(products[1..], Positive);
        TotalCountCons(x, Filter(products[1..], Positive));
      }
    }
  }

  /** `totalCount` is 0 exactly when no product is staged above 0. */
  lemma {:induction false} TotalCountZero(products: seq<Product>)
    ensures TotalCount(products) == 0 <==> forall i :: 0 <= i < |products| ==> products[i].quantity <= 0
    decreases |products|
  {
    if products != [] {
      TotalCountZero(products[1..]);
      assert forall i :: 1 <= i < |products| ==> products[i] == products[1..][i - 1];
    }
  }

  /** Ignoring non-positive entries, `totalCount` is never below the plain sum of the quantities. */
  lemma {:induction false} TotalCountAtLeastCount(products: seq<Product>)
    ensures TotalCount(products) >= Count(products)
    decreases |products|
  {
    if products != [] {
      TotalCountAtLeastCount(products[1..]);
    }
  }

  /** Two taps on a tile starting from 0 come back to 0; from 1, back to 1. */
  lemma TapTwice(q: int)
    requires q == 0 || q == 1
    ensures GridTap(GridTap(q)) == q
  {
  }

  /** Minus undoes plus from any quantity that is not negative, and plus undoes minus above 0. */
  lemma StepperInverse(q: int)
    ensures q >= 0 ==> StepDown(StepUp(q)) == q
    ensures q >= 1 ==> StepUp(StepDown(q)) == q
  {
  }
}
