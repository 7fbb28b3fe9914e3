/**
 * The shopping session: the `App` component's state and the handlers that step it. Each
 * handler is a method of `ShopState`; a button that is rendered only on one page or step
 * requires that page or step.
 */
module Shop {
  import opened Wrappers
  import opened Catalog
  import opened Categorizer
  import opened Aggregates
  import Ledger
  import Seqs

  datatype Page = Favourites | QuickShopPage | FoodDrink | Household | TrolleyPage

  datatype Step = TrolleyStep | CheckoutStep | Confirmation

  datatype Cta = Idle | Success

  /** The labels of the tab bar. */
  datatype Tab = FavouritesTab | PreviousOrdersTab | QuickShopTab

  /**
   * All fields of the session at one moment. `ctaTimerArmed` says the 2500 ms success timer
   * is running; `pendingAdvances` counts the 1200 ms "go to food & drink" timers not yet fired.
   */
  datatype Session = Session(
    items: seq<Product>,
    trolley: map<string, int>,
    page: Page,
    checkoutStep: Step,
    ctaState: Cta,
    offersOnlyFood: bool,
    offersOnlyHousehold: bool,
    ctaTimerArmed: bool,
    pendingAdvances: nat)

  /** The ledger stores no zero quantity, and the call-to-action shows success exactly while its timer runs. */
  predicate SessionValid(s: Session)
  {
    Ledger.Valid(s.trolley) && (s.ctaState == Success <==> s.ctaTimerArmed)
  }

  /** `Math.max(0, n)`. */
  function Clamp(n: int): (r: int)
    ensures r >= 0 && (n >= 0 ==> r == n) && (n < 0 ==> r == 0)
  {
    if n > 0 then n else 0
  }

  /** The session after `addToTrolley`: nothing changes when there is nothing to commit. */
  function Committed(s: Session): (r: Session)
    ensures ItemsToAdd(s.items, s.trolley) == [] ==> r == s
    ensures ItemsToAdd(s.items, s.trolley) != [] ==>
              r.trolley == Ledger.CommitMany(s.trolley, ItemsToAdd(s.items, s.trolley))
              && r.ctaState == Success && r.ctaTimerArmed
              && r.(trolley := s.trolley, ctaState := s.ctaState, ctaTimerArmed := s.ctaTimerArmed) == s
    ensures forall k :: k in s.trolley ==> k in r.trolley
  {
    var toAdd := ItemsToAdd(s.items, s.trolley);
    if toAdd == [] then s
    else s.(trolley := Ledger.CommitMany(s.trolley, toAdd), ctaState := Success, ctaTimerArmed := true)
  }

  /**
   * The updater `addToTrolley` runs: find the products to commit; if there are any, write
   * them into a copy of the ledger one after another and show success.
   */
  method CommitSession(s: Session) returns (r: Session)
    ensures r == Committed(s)
  {
    var toAdd := ItemsToAdd(s.items, s.trolley);
    if toAdd == [] {
      return s;
    }
    var next := Ledger.CommitEach(s.trolley, toAdd);
    r := s.(trolley := next, ctaState := Success, ctaTimerArmed := true);
  }

  /** The session after "Back to Favourites" on the confirmation: empty ledger, default quantities, first page. */
  function Reset(s: Session): (r: Session)
    ensures r.trolley == map[] && r.page == Favourites && r.checkoutStep == TrolleyStep
    ensures r.items == ApplyDefaults(s.items)
    ensures |r.items| == |s.items|
    ensures forall i :: 0 <= i < |r.items| ==> (r.items[i].quantity == 0 <==> !InQuickShop(s.items[i]))
    ensures r.(trolley := s.trolley, items := s.items, page := s.page, checkoutStep := s.checkoutStep) == s
  {
    s.(trolley := map[], items := ApplyDefaults(s.items), page := Favourites, checkoutStep := TrolleyStep)
  }

  class ShopState {
    var items: seq<Product>
    var trolley: map<string, int>
    var page: Page
    var checkoutStep: Step
    var ctaState: Cta
    var offersOnlyFood: bool
    var offersOnlyHousehold: bool
    var ctaTimerArmed: bool
    var pendingAdvances: nat

    function Snapshot(): Session
      reads this
    {
      Session(items, trolley, page, checkoutStep, ctaState, offersOnlyFood, offersOnlyHousehold,
              ctaTimerArmed, pendingAdvances)
    }

    predicate Valid()
      reads this
    {
      SessionValid(Snapshot())
    }

    /** The initial state: no products yet, an empty trolley, the favourites page. */
    constructor ()
      ensures Valid()
      ensures Snapshot() == Session([], map[], Favourites, TrolleyStep, Idle, false, false, false, 0)
    {
      items := [];
      trolley := map[];
      page := Favourites;
      checkoutStep := TrolleyStep;
      ctaState := Idle;
      offersOnlyFood := false;
      offersOnlyHousehold := false;
      ctaTimerArmed := false;
      pendingAdvances := 0;
    }

    /**
     * The product fetch has answered: its rows normalised, or, on an error or no rows, the
     * fallback list as it stands.
     */
    method Loaded(rows: seq<Row>, failed: bool, fallback: seq<Product>)
      requires Valid()
      modifies this
      ensures Valid()
      ensures Snapshot() == old(Snapshot()).(items := if failed || rows == [] then fallback else Load(rows))
    {
      if failed || rows == [] {
        items := fallback;
      } else {
        items := Load(rows);
      }
    }

    /** `updateQty`: every product with the id is staged at `max(0, next)`. */
    method UpdateQty(id: string, next: int)
      requires Valid()
      modifies this
      ensures Valid()
      ensures Snapshot() == old(Snapshot()).(items := SetQuantity(old(items), id, Clamp(next)))
    {
      items := SetQuantity(items, id, Clamp(next));
    }

    /**
     * `addToTrolley`: commit every visible quick-shop product with a positive quantity, one
     * after another, and show success; nothing happens when there is none.
     */
    method AddToTrolley()
      requires Valid()
      modifies this
      ensures Valid()
      ensures Snapshot() == Committed(old(Snapshot()))
      ensures UniqueIds(items) && |QuickShop(items)| > 0 ==> QsAllInTrolley(items, trolley)
    {
      ghost var before := Snapshot();
      CommittedValid(before);
      CommittedAllInTrolley(before);
      var r := CommitSession(Snapshot());
      trolley := r.trolley;
      ctaState := r.ctaState;
      ctaTimerArmed := r.ctaTimerArmed;
      assert Snapshot() == r;
    }

    /** The 2500 ms timer armed by `addToTrolley` fires: the call-to-action is idle again. */
    method CtaTimerElapsed()
      requires Valid() && ctaTimerArmed
      modifies this
      ensures Valid()
      ensures Snapshot() == old(Snapshot()).(ctaState := Idle, ctaTimerArmed := false)
    {
      ctaState := Idle;
      ctaTimerArmed := false;
    }

    /**
     * `addSingleToTrolley`: no id, no change; otherwise store `max(old or 0, 1)` and stage the
     * product at the stored quantity, so that it shows as in the trolley.
     */
    method AddSingleToTrolley(id: Option<string>)
      requires Valid()
      modifies this
      ensures Valid()
      ensures id.None? ==> Snapshot() == old(Snapshot())
      ensures id.Some? ==> Snapshot() == old(Snapshot()).(
                items := AddSingleItems(old(items), old(trolley), id.value),
                trolley := Ledger.CommitSingle(old(trolley), id.value))
      ensures id.Some? ==> forall i :: 0 <= i < |items| && items[i].id == id.value ==> IsInTrolley(trolley, items[i])
    {
      if id.None? {
        return;
      }
      AddSingleMarksAdded(items, trolley, id.value);
      items := AddSingleItems(items, trolley, id.value);
      trolley := Ledger.CommitSingle(trolley, id.value);
    }

    /** `updateBelowQty`: stage `max(0, next)` and mirror it in the ledger, deleting the entry at 0. */
    method UpdateBelowQty(id: string, next: int)
      requires Valid()
      modifies this
      ensures Valid()
      ensures Snapshot() == old(Snapshot()).(
                items := SetQuantity(old(items), id, Clamp(next)),
                trolley := Ledger.SetQty(old(trolley), id, Clamp(next)))
    {
      var q := Clamp(next);
      items := SetQuantity(items, id, q);
      trolley := Ledger.SetQty(trolley, id, q);
    }

    /** `updateTrolleyQty`: set the ledger entry to `max(0, n)`, deleting it at 0. */
    method UpdateTrolleyQty(id: string, n: int)
      requires Valid()
      modifies this
      ensures Valid()
      ensures Snapshot() == old(Snapshot()).(trolley := Ledger.SetQty(old(trolley), id, n))
      ensures id in trolley <==> n > 0
    {
      trolley := Ledger.SetQty(trolley, id, n);
    }

    /** `removeTrolleyItem`. */
    method RemoveTrolleyItem(id: string)
      requires Valid()
      modifies this
      ensures Valid()
      ensures Snapshot() == old(Snapshot()).(trolley := Ledger.Remove(old(trolley), id))
    {
      trolley := Ledger.Remove(trolley, id);
    }

    /** `clearTrolley`, the "Empty trolley" button. */
    method ClearTrolley()
      requires Valid()
      modifies this
      ensures Valid()
      ensures Snapshot() == old(Snapshot()).(trolley := map[])
    {
      trolley := map[];
    }

    /** The tab bar: "Favourites" and "Quick Shop" switch page; "Previous orders" does nothing. */
    method TabClick(tab: Tab)
      requires Valid()
      modifies this
      ensures Valid()
      ensures tab == FavouritesTab ==> Snapshot() == old(Snapshot()).(page := Favourites)
      ensures tab == QuickShopTab ==> Snapshot() == old(Snapshot()).(page := QuickShopPage)
      ensures tab == PreviousOrdersTab ==> Snapshot() == old(Snapshot())
    {
      if tab == FavouritesTab {
        page := Favourites;
      } else if tab == QuickShopTab {
        page := QuickShopPage;
      }
    }

    /** The trolley icon in the header: the trolley page, at its first step. */
    method TrolleyIconClick()
      requires Valid()
      modifies this
      ensures Valid()
      ensures Snapshot() == old(Snapshot()).(page := TrolleyPage, checkoutStep := TrolleyStep)
    {
      page := TrolleyPage;
      checkoutStep := TrolleyStep;
    }

    /** "View more" and the carousel's product buttons on the favourites page open the quick shop. */
    method OpenQuickShop()
      requires Valid() && page == Favourites
      modifies this
      ensures Valid()
      ensures Snapshot() == old(Snapshot()).(page := QuickShopPage)
    {
      page := QuickShopPage;
    }

    /**
     * The favourites page's call-to-action: once everything is in the trolley and the success
     * state is over, go to food & drink; otherwise commit the quick shop.
     */
    method FavouritesCta()
      requires Valid() && page == Favourites
      modifies this
      ensures Valid()
      ensures old(QsAllInTrolley(items, trolley)) && old(ctaState) == Idle ==>
                Snapshot() == old(Snapshot()).(page := FoodDrink)
      ensures !(old(QsAllInTrolley(items, trolley)) && old(ctaState) == Idle) ==>
                Snapshot() == Committed(old(Snapshot()))
    {
      if QsAllInTrolley(items, trolley) && ctaState == Idle {
        page := FoodDrink;
      } else {
        AddToTrolley();
      }
    }

    /**
     * The quick-shop page's footer button: like the favourites call-to-action, except that
     * committing also starts a 1200 ms timer that moves to food & drink.
     */
    method QuickShopCta()
      requires Valid() && page == QuickShopPage
      modifies this
      ensures Valid()
      ensures old(QsAllInTrolley(items, trolley)) && old(ctaState) == Idle ==>
                Snapshot() == old(Snapshot()).(page := FoodDrink)
      ensures !(old(QsAllInTrolley(items, trolley)) && old(ctaState) == Idle) ==>
                Snapshot() == Committed(old(Snapshot())).(pendingAdvances := old(pendingAdvances) + 1)
    {
      if QsAllInTrolley(items, trolley) && ctaState == Idle {
        page := FoodDrink;
      } else {
        ghost var after := Committed(Snapshot());
        CommittedKeepsAdvances(Snapshot());
        AddToTrolley();
        pendingAdvances := pendingAdvances + 1;
        assert Snapshot() == after.(pendingAdvances := after.pendingAdvances + 1);
      }
    }

    /** A 1200 ms timer started by the quick-shop button fires, wherever the session is. */
    method AdvanceTimerElapsed()
      requires Valid() && pendingAdvances > 0
      modifies this
      ensures Valid()
      ensures Snapshot() == old(Snapshot()).(page := FoodDrink, pendingAdvances := old(pendingAdvances) - 1)
    {
      page := FoodDrink;
      pendingAdvances := pendingAdvances - 1;
    }

    /** The food & drink page's "offers only" toggle. */
    method ToggleOffersOnlyFood()
      requires Valid() && page == FoodDrink
      modifies this
      ensures Valid()
      ensures Snapshot() == old(Snapshot()).(offersOnlyFood := !old(offersOnlyFood))
    {
      offersOnlyFood := !offersOnlyFood;
    }

    /** The household page's "offers only" toggle. */
    method ToggleOffersOnlyHousehold()
      requires Valid() && page == Household
      modifies this
      ensures Valid()
      ensures Snapshot() == old(Snapshot()).(offersOnlyHousehold := !old(offersOnlyHousehold))
    {
      offersOnlyHousehold := !offersOnlyHousehold;
    }

    /** The food & drink page's footer button. */
    method FoodDrinkNext()
      requires Valid() && page == FoodDrink
      modifies this
      ensures Valid()
      ensures Snapshot() == old(Snapshot()).(page := Household)
    {
      page := Household;
    }

    /** The household page's footer button: review the trolley. */
    method ReviewTrolley()
      requires Valid() && page == Household
      modifies this
      ensures Valid()
      ensures Snapshot() == old(Snapshot()).(page := TrolleyPage, checkoutStep := TrolleyStep)
    {
      page := TrolleyPage;
      checkoutStep := TrolleyStep;
    }

    /** "Continue shopping" on the trolley, whether it is empty or not. */
    method ContinueShopping()
      requires Valid() && page == TrolleyPage && checkoutStep == TrolleyStep
      modifies this
      ensures Valid()
      ensures Snapshot() == old(Snapshot()).(page := Favourites)
    {
      page := Favourites;
    }

    /** "Checkout", offered whenever the trolley has a line, below the minimum spend or not. */
    method Checkout()
      requires Valid() && page == TrolleyPage && checkoutStep == TrolleyStep
      requires |TrolleyItems(items, trolley)| > 0
      modifies this
      ensures Valid()
      ensures Snapshot() == old(Snapshot()).(checkoutStep := CheckoutStep)
    {
      checkoutStep := CheckoutStep;
    }

    /** Back from the checkout to the trolley. */
    method BackToTrolley()
      requires Valid() && page == TrolleyPage && checkoutStep == CheckoutStep
      modifies this
      ensures Valid()
      ensures Snapshot() == old(Snapshot()).(checkoutStep := TrolleyStep)
    {
      checkoutStep := TrolleyStep;
    }

    /** "Place order". */
    method PlaceOrder()
      requires Valid() && page == TrolleyPage && checkoutStep == CheckoutStep
      modifies this
      ensures Valid()
      ensures Snapshot() == old(Snapshot()).(checkoutStep := Confirmation)
    {
      checkoutStep := Confirmation;
    }

    /** "Back to Favourites" on the confirmation: clear the trolley and restore the default selection. */
    method BackToFavourites()
      requires Valid() && page == TrolleyPage && checkoutStep == Confirmation
      modifies this
      ensures Valid()
      ensures Snapshot() == Reset(old(Snapshot()))
    {
      ClearTrolley();
      items := ApplyDefaults(items);
      page := Favourites;
      checkoutStep := TrolleyStep;
    }
  }

  // ---------------------------------------------------------------------------
  // Properties

  /** Committing keeps the session valid: quantities committed are positive. */
  lemma CommittedValid(s: Session)
    requires SessionValid(s)
    ensures SessionValid(Committed(s))
  {
    Ledger.CommitManyValid(s.trolley, ItemsToAdd(s.items, s.trolley));
  }

  /** A commit leaves the pending auto-advance timers alone. */
  lemma CommittedKeepsAdvances(s: Session)
    ensures Committed(s).pendingAdvances == s.pendingAdvances
  {
  }

  /** After a commit every positive quick-shop product is in the trolley (catalogue ids being unique). */
  lemma CommittedAllInTrolley(s: Session)
    ensures UniqueIds(s.items) && |QuickShop(s.items)| > 0 ==> QsAllInTrolley(Committed(s).items, Committed(s).trolley)
  {
    if UniqueIds(s.items) && |QuickShop(s.items)| > 0 {
      AddCommitsEverything(s.items, s.trolley);
      if ItemsToAdd(s.items, s.trolley) == [] {
        QsAllIffNothingToAdd(s.items, s.trolley);
      }
    }
  }

  /** A second commit right after the first adds nothing new (catalogue ids being unique). */
  lemma CommitTwice(s: Session)
    requires UniqueIds(s.items) && |QuickShop(s.items)| > 0
    ensures ItemsToAdd(Committed(s).items, Committed(s).trolley) == []
    ensures Committed(s).trolley == Committed(Committed(s)).trolley
  {
    AddCommitsEverything(s.items, s.trolley);
    if ItemsToAdd(s.items, s.trolley) == [] {
      QsAllIffNothingToAdd(s.items, s.trolley);
    }
    QsAllIffNothingToAdd(Committed(s).items, Committed(s).trolley);
  }

  /** The reset restores the defaults: resetting again changes nothing, and the trolley count is 0. */
  lemma ResetIdempotent(s: Session)
    ensures Reset(Reset(s)) == Reset(s)
    ensures Ledger.Sum(Reset(s).trolley) == 0
  {
    ApplyDefaultsIdempotent(s.items);
  }

  /**
   * A quick shop of one product ("A", score 0.8, 3 staged at 2.00) beside a food product
   * ("B", score 0.2): committing puts 3 of "A" in the trolley, for a count of 3 and a subtotal
   * of 6.00, below the minimum spend, with one trolley line, so "Checkout" is offered.
   */
  lemma QuickShopScenario()
    ensures var a := Product("A", None, 2.0, "", "", 3, "", "", "", "1", 0.8);
            var b := Product("B", None, 5.0, "", "", 0, "", "", "", "2", 0.2);
            var s := Committed(Session([a, b], map[], QuickShopPage, TrolleyStep, Idle, false, false, false, 0));
            QuickShop([a, b]) == [a] && s.trolley == map["A" := 3] && Ledger.Sum(s.trolley) == 3
            && Subtotal(TrolleyItems(s.items, s.trolley)) == 6.0 && BelowMinSpend(6.0)
            && |TrolleyItems(s.items, s.trolley)| == 1
  {
    var a := Product("A", None, 2.0, "", "", 3, "", "", "", "1", 0.8);
    var b := Product("B", None, 5.0, "", "", 0, "", "", "", "2", 0.2);
    ScenarioCommit(a, b);
    ScenarioLines(a, b);
  }

  /** In the scenario, the quick shop is "A" alone and committing stores its 3. */
  lemma ScenarioCommit(a: Product, b: Product)
    requires a == Product("A", None, 2.0, "", "", 3, "", "", "", "1", 0.8)
    requires b == Product("B", None, 5.0, "", "", 0, "", "", "", "2", 0.2)
    ensures QuickShop([a, b]) == [a]
    ensures Committed(Session([a, b], map[], QuickShopPage, TrolleyStep, Idle, false, false, false, 0)).trolley == map["A" := 3]
    ensures Committed(Session([a, b], map[], QuickShopPage, TrolleyStep, Idle, false, false, false, 0)).items == [a, b]
  {
    var items := [a, b];
    assert QuickShop(items) == [a] by {
      assert items[1..] == [b];
      Seqs.FilterSingle(b, InQuickShop);
    }
    assert ItemsToAdd(items, map[]) == [a] by {
      assert [a][1..] == [];
    }
    assert Ledger.CommitMany(map[], [a]) == map["A" := 3] by {
      assert [a][..0] == [];
    }
  }

  /** In the scenario, the trolley `{"A": 3}` counts 3 and has one line, of subtotal 6.00. */
  lemma ScenarioLines(a: Product, b: Product)
    requires a == Product("A", None, 2.0, "", "", 3, "", "", "", "1", 0.8)
    requires b == Product("B", None, 5.0, "", "", 0, "", "", "", "2", 0.2)
    ensures Ledger.Sum(map["A" := 3]) == 3
    ensures TrolleyItems([a, b], map["A" := 3]) == map["A" := a]
    ensures Subtotal(map["A" := a]) == 6.0
  {
    var t := map["A" := 3];
    Ledger.SumRemove(t, "A");
    assert t - {"A"} == map[];
    assert FirstIndex([a, b], "A") == Some(0);
    var totals := LineTotals(map["A" := a]);
    assert totals == map["A" := 6.0];
    RealSumSingleton("A", 6.0);
  }
}
