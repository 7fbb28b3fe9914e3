/**
 * The shopping stages: the quick shop (score at least the threshold), and the rest of the
 * catalogue split into food & drink and household by category; the offers-only views; and
 * the favourites page's grouping by category.
 */
module Categorizer {
  import opened Catalog
  import opened Seqs

  /** The categories, lower-cased, that make a product a household one. */
  const HouseholdCategories: seq<string> := ["non food", "health & beauty"]

  /** The heading used for a product without a category on the favourites page. */
  const DefaultCategory: string := "Other"

  function LowerChar(c: char): char
  {
    if 'A' <= c <= 'Z' then (c as int + 32) as char else c
  }

  /** `toLowerCase` on the ASCII letters. */
  function ToLower(s: string): (r: string)
    ensures |r| == |s|
    ensures forall i :: 0 <= i < |s| ==> r[i] == LowerChar(s[i])
  {
    seq(|s|, i requires 0 <= i < |s| => LowerChar(s[i]))
  }

  predicate InQuickShop(p: Product) { p.score >= ScoreThreshold }

  predicate BelowScore(p: Product) { p.score < ScoreThreshold }

  predicate IsHousehold(p: Product) { ToLower(p.category) in HouseholdCategories }

  predicate IsFoodDrink(p: Product) { ToLower(p.category) !in HouseholdCategories }

  predicate HasOffer(p: Product) { p.offers != "" }

  /** Below the threshold and not a household category: the food & drink stage in one test. */
  predicate InFoodDrinkStage(p: Product) { BelowScore(p) && IsFoodDrink(p) }

  /** Below the threshold and a household category: the household stage in one test. */
  predicate InHouseholdStage(p: Product) { BelowScore(p) && IsHousehold(p) }

  /** `quickShopItems`: the products scored at least the threshold, in catalogue order. */
  function QuickShop(items: seq<Product>): (r: seq<Product>)
    ensures forall p :: p in r <==> p in items && InQuickShop(p)
  {
    Filter(items, InQuickShop)
  }

  /** `belowThreshold`: the products scored below the threshold. */
  function BelowThreshold(items: seq<Product>): (r: seq<Product>)
    ensures forall p :: p in r <==> p in items && BelowScore(p)
  {
    Filter(items, BelowScore)
  }

  /** `foodDrinkItemsAll`: below the threshold and not in a household category. */
  function FoodDrinkAll(items: seq<Product>): (r: seq<Product>)
    ensures forall p :: p in r <==> p in items && InFoodDrinkStage(p)
  {
    Filter(BelowThreshold(items), IsFoodDrink)
  }

  /** `householdItemsAll`: below the threshold and in a household category. */
  function HouseholdAll(items: seq<Product>): (r: seq<Product>)
    ensures forall p :: p in r <==> p in items && InHouseholdStage(p)
  {
    Filter(BelowThreshold(items), IsHousehold)
  }

  /** The offers-only filter: the products with an offer text. */
  function OffersOnly(s: seq<Product>): (r: seq<Product>)
    ensures forall p :: p in r <==> p in s && HasOffer(p)
  {
    Filter(s, HasOffer)
  }

  /** The food & drink list as shown: all of the stage, or only its products on offer. */
  function FoodDrinkView(items: seq<Product>, offersOnly: bool): (r: seq<Product>)
    ensures forall p :: p in r ==> p in items && InFoodDrinkStage(p) && (offersOnly ==> HasOffer(p))
    ensures forall p :: p in items && InFoodDrinkStage(p) && (offersOnly ==> HasOffer(p)) ==> p in r
  {
    if offersOnly then OffersOnly(FoodDrinkAll(items)) else FoodDrinkAll(items)
  }

  /** The household list as shown: all of the stage, or only its products on offer. */
  function HouseholdView(items: seq<Product>, offersOnly: bool): (r: seq<Product>)
    ensures forall p :: p in r ==> p in items && InHouseholdStage(p) && (offersOnly ==> HasOffer(p))
    ensures forall p :: p in items && InHouseholdStage(p) && (offersOnly ==> HasOffer(p)) ==> p in r
  {
    if offersOnly then OffersOnly(HouseholdAll(items)) else HouseholdAll(items)
  }

  /** `item.category || "Other"`. */
  function CategoryKey(p: Product): string
  {
    if p.category == "" then DefaultCategory else p.category
  }

  function InCategory(c: string): Product -> bool
  {
    p => CategoryKey(p) == c
  }

  /** The favourites page's `reduce`: products pushed, in order, onto the list of their category. */
  function GroupByCategory(items: seq<Product>): (r: map<string, seq<Product>>)
    ensures forall c :: c in r ==> r[c] != [] && forall p :: p in r[c] ==> p in items && CategoryKey(p) == c
    decreases |items|
  {
    if items == [] then map[]
    else
      var acc := GroupByCategory(items[..|items| - 1]);
      var p := items[|items| - 1];
      var c := CategoryKey(p);
      acc[c := (if c in acc then acc[c] else []) + [p]]
  }

  // ---------------------------------------------------------------------------
  // Properties

  /** The quick shop and the rest split the catalogue by score: every product in exactly one. */
  lemma ScorePartition(items: seq<Product>)
    ensures multiset(QuickShop(items)) + multiset(BelowThreshold(items)) == multiset(items)
    ensures |QuickShop(items)| + |BelowThreshold(items)| == |items|
    ensures forall p :: p in QuickShop(items) ==> !BelowScore(p)
  {
    FilterPartition(items, InQuickShop, BelowScore);
  }

  /** Each below-threshold list is one filter over the whole catalogue. */
  lemma StagesAreFilters(items: seq<Product>)
    ensures FoodDrinkAll(items) == Filter(items, InFoodDrinkStage)
    ensures HouseholdAll(items) == Filter(items, InHouseholdStage)
  {
    FilterFilter(items, BelowScore, IsFoodDrink, InFoodDrinkStage);
    FilterFilter(items, BelowScore, IsHousehold, InHouseholdStage);
  }

  /** Quick shop, food & drink and household together hold every product exactly once. */
  lemma StagesPartition(items: seq<Product>)
    ensures multiset(QuickShop(items)) + multiset(FoodDrinkAll(items)) + multiset(HouseholdAll(items)) == multiset(items)
    ensures |QuickShop(items)| + |FoodDrinkAll(items)| + |HouseholdAll(items)| == |items|
  {
    ScorePartition(items);
    FilterPartition(BelowThreshold(items), IsHousehold, IsFoodDrink);
  }

  /** The category test ignores case: "Non Food" and "HEALTH & BEAUTY" are household categories. */
  lemma HouseholdIgnoresCase(p: Product)
    requires p.category == "Non Food" || p.category == "HEALTH & BEAUTY"
    ensures IsHousehold(p) && !IsFoodDrink(p)
  {
    if p.category == "Non Food" {
      assert ToLower(p.category) == "non food";
    } else {
      assert ToLower(p.category) == "health & beauty";
    }
  }

  /** A category whose letters are lower-cased already is its own key; lower-casing twice changes nothing. */
  lemma ToLowerIdempotent(s: string)
    ensures ToLower(ToLower(s)) == ToLower(s)
  {
  }

  /** The grouping has a list for exactly the categories that occur. */
  lemma {:induction false} GroupKeys(items: seq<Product>)
    ensures forall c :: c in GroupByCategory(items) <==> exists i :: 0 <= i < |items| && CategoryKey(items[i]) == c
    decreases |items|
  {
    if items != [] {
      var init := items[..|items| - 1];
      GroupKeys(init);
      var acc := GroupByCategory(init);
      var g := GroupByCategory(items);
      forall c
        ensures c in g <==> exists i :: 0 <= i < |items| && CategoryKey(items[i]) == c
      {
        if c in acc {
          var i :| 0 <= i < |init| && CategoryKey(init[i]) == c;
          assert items[i] == init[i];
        }
        if exists i :: 0 <= i < |items| && CategoryKey(items[i]) == c {
          var i :| 0 <= i < |items| && CategoryKey(items[i]) == c;
          if i < |init| { assert init[i] == items[i]; }
        }
      }
    }
  }

  /**
   * The grouping has a list for exactly the categories that occur, and each list is the
   * catalogue filtered to that category, in catalogue order.
   */
  lemma {:induction false} GroupsAreFilters(items: seq<Product>)
    ensures forall c :: c in GroupByCategory(items) <==> exists i :: 0 <= i < |items| && CategoryKey(items[i]) == c
    ensures forall c :: c in GroupByCategory(items) ==> GroupByCategory(items)[c] == Filter(items, InCategory(c))
    decreases |items|
  {
    GroupKeys(items);
    if items != [] {
      var init := items[..|items| - 1];
      var p := items[|items| - 1];
      GroupsAreFilters(init);
      assert items == init + [p];
      var acc := GroupByCategory(init);
      forall c | c in GroupByCategory(items)
        ensures GroupByCategory(items)[c] == Filter(items, InCategory(c))
      {
        GroupStep(init, acc, p, c);
      }
    }
  }

  /** Pushing one more product keeps every group the filter of the longer list. */
  lemma GroupStep(init: seq<Product>, acc: map<string, seq<Product>>, p: Product, c: string)
    requires c in acc ==> acc[c] == Filter(init, InCategory(c))
    requires c !in acc ==> forall i :: 0 <= i < |init| ==> CategoryKey(init[i]) != c
    requires c in acc || c == CategoryKey(p)
    ensures acc[CategoryKey(p) := (if CategoryKey(p) in acc then acc[CategoryKey(p)] else []) + [p]][c]
            == Filter(init + [p], InCategory(c))
  {
    FilterAppend(init, [p], InCategory(c));
    FilterSingle(p, InCategory(c));
    if c !in acc {
      FilterNone(init, InCategory(c));
    }
  }
}
