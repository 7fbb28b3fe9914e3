/** The quick-shop summary card: how many regulars are selected, the progress bar, and the add button. */
module IndexQuickShop {
  import opened Seqs
  import opened Catalog
  import opened Aggregates
  import ExpandedQuickShop

  /** The number of products shown in the preview row. */
  const PreviewSize: nat := 6

  /** `selectedCount`: how many products are staged above 0. */
  function SelectedCount(products: seq<Product>): (r: nat)
    ensures r <= |products|
  {
    |Filter(products, Positive)|
  }

  /** `progress`, in per cent: the selected share of the regulars, capped at 100, and 0 with none. */
  function Progress(products: seq<Product>): (r: real)
    ensures 0.0 <= r <= 100.0
    ensures products == [] ==> r == 0.0
    ensures r == 100.0 <==> products != [] && forall i :: 0 <= i < |products| ==> products[i].quantity > 0
  {
    if |products| == 0 then 0.0
    else
      SelectedCountExtremes(products);
      var share := Percent(SelectedCount(products), |products|);
      if share < 100.0 then share else 100.0
  }

  /** `part / whole * 100`, for a part no larger than the whole. */
  function Percent(part: nat, whole: nat): (r: real)
    requires 0 < whole && part <= whole
    ensures 0.0 <= r <= 100.0
    ensures r == 100.0 <==> part == whole
  {
    var p := part as real / whole as real;
    assert p * whole as real == part as real;
    assert p <= 1.0;
    assert p == 1.0 <==> part == whole;
    p * 100.0
  }

  /** The add button is disabled with nothing selected. */
  predicate AddDisabled(products: seq<Product>)
    ensures AddDisabled(products) <==> forall i :: 0 <= i < |products| ==> products[i].quantity <= 0
  {
    SelectedCountExtremes(products);
    SelectedCount(products) == 0
  }

  /** The noun in the button's label: "item" plus an "s" unless exactly one is selected. */
  function LabelNoun(n: int): (r: string)
    ensures r == ItemNoun(n)
  {
    "item" + (if n != 1 then "s" else "")
  }

  /** The preview row: the first six products, in order. */
  function Preview(products: seq<Product>): (r: seq<Product>)
    ensures |r| <= PreviewSize && |r| <= |products|
    ensures r == products[..|r|]
    ensures |products| <= PreviewSize ==> r == products
  {
    if |products| <= PreviewSize then products else products[..PreviewSize]
  }

  // ---------------------------------------------------------------------------
  // Properties

  /** The count is 0 exactly when nothing is selected, and the whole list exactly when everything is. */
  lemma SelectedCountExtremes(products: seq<Product>)
    ensures SelectedCount(products) == 0 <==> forall i :: 0 <= i < |products| ==> products[i].quantity <= 0
    ensures SelectedCount(products) == |products| <==> forall i :: 0 <= i < |products| ==> products[i].quantity > 0
  {
    var selected := Filter(products, Positive);
    FilterFull(products, Positive);
    if forall i :: 0 <= i < |products| ==> products[i].quantity <= 0 {
      FilterNone(products, Positive);
    }
    if selected != [] {
      assert selected[0] in selected;
    } else {
      forall i | 0 <= i < |products|
        ensures products[i].quantity <= 0
      {
        assert products[i] in products;
      }
    }
  }

  /** The button is disabled exactly when no product is staged above 0, which is when `totalCount` is 0. */
  lemma AddDisabledIff(products: seq<Product>)
    ensures AddDisabled(products) <==> forall i :: 0 <= i < |products| ==> products[i].quantity <= 0
    ensures AddDisabled(products) <==> ExpandedQuickShop.TotalCount(products) == 0
  {
    SelectedCountExtremes(products);
    ExpandedQuickShop.TotalCountZero(products);
  }

  /** Each selected product counts at least once in `totalCount`: the selected count never exceeds it. */
  lemma {:induction false} SelectedAtMostTotalCount(products: seq<Product>)
    ensures SelectedCount(products) <= ExpandedQuickShop.TotalCount(products)
    decreases |products|
  {
    if products != [] {
      var x := products[0];
      SelectedAtMostTotalCount(products[1..]);
      if x.quantity > 0 {
        assert Filter(products, Positive) == [x] + Filter(products[1..], Positive);
      } else {
        assert Filter(products, Positive) == Filter(products[1..], Positive);
      }
    }
  }
}
