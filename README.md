# Quick Shop prototype: the shopping session, modelled in Dafny

This project models the logic of the Quick Shop prototype. The prototype is a single-page
grocery front end. It loads a list of products from a table and proposes a "quick shop": the
regulars the customer is likely to buy again, each with a staged quantity. The customer can
commit those regulars to the trolley in one go. They then walk through the food & drink and
household pages, adjust the trolley, check out and confirm the order.

The model has ten modules:

- `PriceParser` covers `parsePrice` and the JavaScript conversions it relies on (`trim`,
  `parseFloat`, the first-occurrence `replace`). It also covers `Number`, which `mapRow` applies
  to the recommended quantity and the score. Prices are exact reals; `NaN` is `None`.
- `Catalog` covers `mapRow`, the default selection applied at load and after an order, and the
  list updates the handlers apply (`updateQty`, the list half of `addSingleToTrolley`, `find`).
- `Categorizer` covers the split of the catalogue into the quick shop (score at least 0.6),
  food & drink and household (by lower-cased category). It also covers the offers-only views and
  the favourites page's grouping by category.
- `Ledger` covers the trolley: a map from product id to committed quantity. It holds the
  functions the state setters apply to it, and the sum of its values (`trolleyCount`).
- `Aggregates` covers `isInTrolley`, `visibleItems`, `qsAllInTrolley`, the feed's totals,
  `trolleyItems`, the trolley's item count and subtotal, and the minimum-spend rule.
- `Shop` has the class `ShopState`, which holds the component's state fields. Each event handler
  is a method proved against the whole new state. The 2500 ms success timer and the 1200 ms
  auto-advance are explicit "timer fired" events.
- `ExpandedQuickShop` and `IndexQuickShop` are the two stand-alone quick-shop components: their
  totals, quantity controls, progress and labels.
- `Seqs` and `Wrappers` are generic: `filter` over sequences with its laws, and `Option`.

A few conventions run through the model:

- Ids are strings throughout. Every comparison in the program goes through `String(...)`.
- A button that the page renders only on one page or step requires that page or step. The same
  holds for "Checkout", which is rendered only while the trolley has a line.
- A contract that speaks of a session uses `Session`, a value holding all of the class's fields.

## Model

| member | source | states |
|---|---|---|
| Seqs.Filter | src/App.jsx:101-120 | the filtered list keeps only, and all of, the elements satisfying the predicate, and is no longer than the input |
| Seqs.FilterPartition | src/App.jsx:101-102 | filtering by a predicate and by its negation splits the input: the two multisets add up to the input's |
| PriceParser.Trim | src/App.jsx:15 | the result is an infix of the text with only white space before and after it, and neither starts nor ends with white space |
| PriceParser.Lexeme | src/App.jsx:16-17 | the numeral `parseFloat` reads is a non-empty prefix of the text |
| PriceParser.ParseFloat | src/App.jsx:16-17 | `parseFloat` is `NaN` exactly when, after leading white space, the text is empty, or starts with neither a digit nor a point followed by a digit |
| PriceParser.IntegerPrefix | src/App.jsx:16 | `parseFloat` of a digit run followed by a non-digit is the run's value |
| PriceParser.DecimalPrefix | src/App.jsx:17 | `parseFloat` of `digits.digits` followed by a non-digit is the decimal it spells |
| PriceParser.ToNumber | src/App.jsx:30 | `Number(...)`: a missing cell is `NaN`; a number cell is kept; a blank text is 0; any other text is a number exactly when, trimmed, it is one whole numeral |
| PriceParser.LexemeWhole | src/App.jsx:30 | the numeral read from a text is the whole text exactly when the text is a numeral |
| PriceParser.ToNumberInteger | src/App.jsx:30 | `Number` of a digit string is the value it spells |
| PriceParser.ToNumberDecimal | src/App.jsx:35 | `Number` of "<digits>.<digits>" is the decimal it spells |
| PriceParser.ReplaceFirst | src/App.jsx:17 | `replace` with a literal removes its first occurrence, keeping what is before and after it, and leaves a text without one unchanged |
| PriceParser.ReplaceFirstPrefix | src/App.jsx:17 | a literal that starts the text is removed, leaving exactly the rest |
| PriceParser.ReplaceFirstAbsent | src/App.jsx:17 | a text in which the literal's first character never occurs is unchanged |
| PriceParser.ParsePriceWith | src/App.jsx:12-18 | a number is returned unchanged; a missing or empty price is 0 |
| PriceParser.ParsePriceAsWritten | src/App.jsx:12-18 | as written: a number is kept, and a non-empty text not in pence and free of the literal's first character is the `parseFloat` of its trimmed form, or 0 |
| PriceParser.ParsePrice | src/App.jsx:12-18 | corrected: a number is kept, a missing price is 0, and a trimmed text that starts with "£" and is not in pence is the `parseFloat` of the rest, or 0 |
| PriceParser.PencePrice | src/App.jsx:16 | "<digits>p" is the digits' value divided by 100 |
| PriceParser.PoundPrice | src/App.jsx:17 | "£<digits>.<digits>" is the decimal it spells once the pound sign is stripped |
| PriceParser.PenceExample | src/App.jsx:16 | "99p" is 0.99 |
| PriceParser.PoundExample | src/App.jsx:17 | "£1.50" is 1.50 with the pound sign stripped |
| PriceParser.MisencodedPoundDropsPrice | src/App.jsx:17 | as written, "£1.50" gives 0, because the literal stripped is "¬£"; the corrected parser gives 1.50 |
| Catalog.OrEmpty | src/App.jsx:26-33 | a missing display text becomes "", a present one is kept |
| Catalog.QuantityOf | src/App.jsx:30 | `Number(...) \|\| 1`: a missing, unparsable or zero quantity is 1, any other is the number rounded down |
| Catalog.ScoreOf | src/App.jsx:35 | `Number(...) \|\| 0`: an unparsable score is 0, any other is kept |
| Catalog.MapRow | src/App.jsx:23-37 | the id is `item_id` when it is non-empty and `Order` otherwise; the price is the parsed price; the quantity is `QuantityOf` and the score `ScoreOf` of the row's cells; each display text is the row's text or ""; order and name are the row's |
| Catalog.DefaultQuantity | src/App.jsx:82 | 0 exactly below the threshold; in the quick shop a quantity of 0 becomes 1 and any other is kept |
| Catalog.ApplyDefaults | src/App.jsx:81-84 | only quantities change; a product ends at 0 exactly when its score is below the threshold; a quick-shop product at 0 becomes 1 and a non-zero quantity is kept |
| Catalog.Load | src/App.jsx:79-84 | one product per row: the row's `mapRow` with the default quantity applied, so the score is the row's, a product is at 0 exactly when below the threshold, and a quick-shop product keeps a non-zero recommended quantity |
| Catalog.SetQuantity | src/App.jsx:91-94 | products with the id take the new quantity; length, order and every other product are unchanged |
| Catalog.RaiseToOne | src/App.jsx:149-151 | `max(q, 1)`: products with the id below 1 become exactly 1 and positive ones are kept; every other product is unchanged |
| Catalog.FirstIndex | src/App.jsx:177 | `find`: the first position holding the id, or none when no product has it |
| Catalog.ApplyDefaultsIdempotent | src/App.jsx:2700 | restoring the defaults twice is restoring them once |
| Catalog.SetQuantityLastWins | src/App.jsx:91-94 | of two updates to the same id, the last wins |
| Catalog.SetQuantityCommutes | src/App.jsx:91-94 | updates to different ids commute |
| Catalog.QuantityExamples | src/App.jsx:30 | "3" gives 3; "", "n/a" and a missing cell give 1 |
| Catalog.NotANumber | src/App.jsx:30 | a text that starts with neither a digit nor a point is not a number |
| Categorizer.ToLower | src/App.jsx:104 | lower-casing keeps the length and lower-cases each letter |
| Categorizer.QuickShop | src/App.jsx:101 | the quick shop holds exactly the products scoring at least the threshold |
| Categorizer.BelowThreshold | src/App.jsx:102 | the below-threshold list holds exactly the products scoring under the threshold |
| Categorizer.FoodDrinkAll | src/App.jsx:103-105 | exactly the below-threshold products whose lower-cased category is not a household one |
| Categorizer.HouseholdAll | src/App.jsx:106-108 | exactly the below-threshold products whose lower-cased category is a household one |
| Categorizer.OffersOnly | src/App.jsx:110-115 | exactly the products with a non-empty offers text |
| Categorizer.GroupByCategory | src/App.jsx:839-845 | every group is non-empty and holds only catalogue products of its category |
| Categorizer.FoodDrinkView | src/App.jsx:103-112 | the food & drink list holds exactly the catalogue's below-threshold, non-household products, and with offers only, exactly those of them on offer |
| Categorizer.HouseholdView | src/App.jsx:106-115 | the household list holds exactly the below-threshold household products, and with offers only, exactly those on offer |
| Categorizer.ScorePartition | src/App.jsx:101-102 | the quick shop and the below-threshold list partition the catalogue |
| Categorizer.StagesAreFilters | src/App.jsx:103-108 | each below-threshold list is one filter over the catalogue |
| Categorizer.StagesPartition | src/App.jsx:101-108 | quick shop, food & drink and household together hold every product exactly once |
| Categorizer.HouseholdIgnoresCase | src/App.jsx:104-108 | "Non Food" and "HEALTH & BEAUTY" are household categories |
| Categorizer.ToLowerIdempotent | src/App.jsx:104 | lower-casing twice changes nothing more |
| Categorizer.GroupsAreFilters | src/App.jsx:839-845 | there is a group for exactly the categories that occur ("Other" for none), and each group is the catalogue filtered to that category, in order |
| Ledger.SetQty | src/App.jsx:187-199 | the entry is present exactly when the new quantity is positive, and then holds it; every other entry is unchanged; no zero is ever stored |
| Ledger.Remove | src/App.jsx:201-208 | the entry is gone; every other entry is unchanged |
| Ledger.CommitSingle | src/App.jsx:152 | `max(old or 0, 1)`: an absent or sub-1 entry becomes exactly 1, a positive one is kept, and nothing else changes |
| Ledger.CommitMany | src/App.jsx:134-140 | the keys afterwards are the old keys plus the committed products' ids |
| Ledger.CommitEach | src/App.jsx:134-140 | the copy-then-write loop computes `CommitMany` |
| Ledger.CommitManyLast | src/App.jsx:136-138 | the last committed product with an id decides its quantity |
| Ledger.CommitManyHit | src/App.jsx:136-138 | an id some committed product carries holds one of those products' quantities |
| Ledger.CommitManyUntouched | src/App.jsx:135-139 | an id no committed product carries keeps its entry, or stays absent |
| Ledger.CommitManyValid | src/App.jsx:131-140 | committing positive quantities keeps every entry at least 1 |
| Ledger.Sum | src/App.jsx:122 | `trolleyCount` of an empty trolley is 0, and is never negative when no entry is |
| Ledger.SumRemove | src/App.jsx:122 | `trolleyCount` does not depend on key order: any entry can be taken out first |
| Ledger.SumUpdate | src/App.jsx:122 | storing a value changes the count by the difference from the old entry |
| Ledger.SumDelete | src/App.jsx:122 | deleting an entry takes its value off the count |
| Ledger.SetQtySum | src/App.jsx:187-199 | after `updateTrolleyQty(id, n)` the id contributes `max(0, n)` to the count |
| Ledger.RemoveSum | src/App.jsx:201-208 | after `removeTrolleyItem(id)` the count loses the id's entry |
| Ledger.CommitSingleSum | src/App.jsx:152 | `addSingleToTrolley` raises the count by 1 for a new id and leaves it alone otherwise |
| Ledger.SumAtLeastSize | src/App.jsx:122 | the count is at least the number of entries, so it is 0 exactly for an empty trolley |
| Ledger.SumSubmap | src/App.jsx:122 | dropping entries of non-negative quantity never raises the count |
| Aggregates.IsInTrolley | src/App.jsx:96-99 | a product is in the trolley exactly when it is staged above 0 and its entry holds at least that |
| Aggregates.VisibleItems | src/App.jsx:120 | the feed holds exactly the quick-shop products not in the trolley |
| Aggregates.ItemsToAdd | src/App.jsx:131 | `addToTrolley` commits exactly the feed's products with a positive quantity |
| Aggregates.TrolleyItems | src/App.jsx:175-180 | a line for exactly the ledger ids found in the catalogue, each carrying the ledger's quantity |
| Aggregates.TrolleyLineIsFirstMatch | src/App.jsx:177-178 | each line is the first catalogue product with its id |
| Aggregates.QsAllInTrolley | src/App.jsx:126-128 | exactly when some product is in the quick shop and every quick-shop product staged above 0 is in the trolley |
| Aggregates.LineTotal | src/App.jsx:124 | a line's price times quantity is never negative for non-negative inputs and is 0 at quantity 0 |
| Aggregates.Total | src/App.jsx:124 | `total` is never negative for non-negative prices and quantities, and 0 when every quantity is |
| Aggregates.Count | src/App.jsx:125 | `count` is never negative, and is 0 exactly when every quantity is 0 |
| Aggregates.TrolleyItemCount | src/App.jsx:183 | never negative for non-negative lines, and 0 with no lines |
| Aggregates.Subtotal | src/App.jsx:182 | never negative for non-negative prices and quantities, and 0 with no lines |
| Aggregates.AmountToMinSpend | src/App.jsx:184-185 | never negative; 0 exactly when the subtotal is not below 40 (`belowMinSpend` is false); otherwise it tops the subtotal up to exactly 40 |
| Aggregates.ItemNoun | src/App.jsx:2283 | "item" exactly for a count of 1, "items" otherwise |
| Aggregates.ZeroNeverInTrolley | src/App.jsx:96-99 | a product staged at 0 is never in the trolley and stays in the feed |
| Aggregates.RaiseReturnsToFeed | src/App.jsx:91-99 | staging a quick-shop product above its committed quantity puts it back in the feed |
| Aggregates.QsAllIffNothingToAdd | src/App.jsx:126-132 | `qsAllInTrolley` holds exactly when the quick shop is non-empty and `addToTrolley` has nothing to commit |
| Aggregates.AddCommitsEverything | src/App.jsx:126-145 | after `addToTrolley`, with unique ids, every positive quick-shop product is in the trolley |
| Aggregates.AddSingleAsWrittenMissesAdded | src/App.jsx:147-153 | as written, adding a product staged at 3 whose entry holds 2 leaves it not in the trolley |
| Aggregates.AddSingleItems | src/App.jsx:147-153 | products with the id are staged at the quantity the ledger then holds; others are unchanged |
| Aggregates.AddSingleMarksAdded | src/App.jsx:147-153 | with that staging, every product with the id is in the trolley after the add |
| Aggregates.TotalSplit | src/App.jsx:124 | splitting a list by a predicate splits `total` |
| Aggregates.CountSplit | src/App.jsx:125 | splitting a list by a predicate splits `count` |
| Aggregates.VisibleTotals | src/App.jsx:120-125 | the feed's total and count are the quick shop's, less those of its products already in the trolley |
| Aggregates.TotalCountAppend | src/App.jsx:124-125 | totals and counts of concatenated lists add up |
| Aggregates.ItemCountAtMostTrolleyCount | src/App.jsx:122-183 | `trolleyItemCount` never exceeds `trolleyCount`, and equals it when every ledger id is in the catalogue |
| Aggregates.LineQuantitiesFromLedger | src/App.jsx:175-180 | every line's quantity is its ledger entry |
| Aggregates.LineQuantitiesAll | src/App.jsx:175-180 | when every ledger id is in the catalogue, the lines' quantities are the ledger itself |
| Aggregates.SubtotalNonNegative | src/App.jsx:175-182 | with non-negative catalogue prices and a valid ledger, every line has a non-negative price and quantity, so the subtotal is non-negative |
| Aggregates.MinSpendBoundary | src/App.jsx:173-185 | exactly 40 is not below the minimum; 39.99 is, with 0.01 left to spend |
| Shop.Clamp | src/App.jsx:93 | `max(0, n)`: never negative, equal to `n` when it is not negative |
| Shop.Committed | src/App.jsx:130-145 | nothing changes when there is nothing to commit; otherwise the ledger is `CommitMany` of the products to add, success is shown with its timer running, and no other field changes |
| Shop.CommitSession | src/App.jsx:130-140 | the commit computed with the copy-then-write loop is `Committed` |
| Shop.Reset | src/App.jsx:2697-2704 | empty trolley, favourites page, first step, the products are `ApplyDefaults` of the old ones, and no other field changes |
| Shop.ShopState.constructor | src/App.jsx:39-49 | no products, an empty trolley, the favourites page, the trolley step, idle, offers off, no timers |
| Shop.ShopState.Loaded | src/App.jsx:74-85 | on an error or no rows the fallback list is taken as it stands, otherwise the rows are loaded; nothing else changes |
| Shop.ShopState.UpdateQty | src/App.jsx:91-94 | products with the id are staged at `max(0, next)`; nothing else changes |
| Shop.ShopState.AddToTrolley | src/App.jsx:130-145 | the new session is `Committed` of the old one, the ledger stays valid, and with unique ids the quick shop is then all in the trolley |
| Shop.ShopState.CtaTimerElapsed | src/App.jsx:144 | the call-to-action is idle again and its timer has stopped |
| Shop.ShopState.AddSingleToTrolley | src/App.jsx:147-153 | no id changes nothing; otherwise the ledger stores `max(old or 0, 1)`, products with the id are staged at that value, and every one of them is in the trolley |
| Shop.ShopState.UpdateBelowQty | src/App.jsx:155-170 | the product and the ledger both take `max(0, next)`, the entry being deleted at 0 |
| Shop.ShopState.UpdateTrolleyQty | src/App.jsx:187-199 | the entry takes `max(0, n)`, and is present afterwards exactly when `n > 0` |
| Shop.ShopState.RemoveTrolleyItem | src/App.jsx:201-208 | only the entry is deleted |
| Shop.ShopState.ClearTrolley | src/App.jsx:210 | only the trolley changes, to empty |
| Shop.ShopState.TabClick | src/App.jsx:249-257 | "Favourites" and "Quick Shop" switch page; "Previous orders" changes nothing |
| Shop.ShopState.TrolleyIconClick | src/App.jsx:330-334 | trolley page, trolley step |
| Shop.ShopState.OpenQuickShop | src/App.jsx:216-227 | the quick-shop page |
| Shop.ShopState.FavouritesCta | src/App.jsx:686-691 | to food & drink exactly when everything is in the trolley and the call-to-action is idle; otherwise the commit |
| Shop.ShopState.QuickShopCta | src/App.jsx:1580-1590 | as the favourites call-to-action, but a commit also starts one more auto-advance timer |
| Shop.ShopState.AdvanceTimerElapsed | src/App.jsx:1586-1589 | the page becomes food & drink wherever the session is, and one timer fewer is pending |
| Shop.ShopState.ToggleOffersOnlyFood | src/App.jsx:1671 | only the food & drink offers flag flips |
| Shop.ShopState.ToggleOffersOnlyHousehold | src/App.jsx:1926 | only the household offers flag flips |
| Shop.ShopState.FoodDrinkNext | src/App.jsx:1871-1873 | the household page |
| Shop.ShopState.ReviewTrolley | src/App.jsx:2126-2129 | trolley page, trolley step |
| Shop.ShopState.ContinueShopping | src/App.jsx:2312 | back to favourites, from the empty or the filled trolley |
| Shop.ShopState.Checkout | src/App.jsx:2334-2342 | the checkout step; offered whenever the trolley has a line, whatever the minimum spend |
| Shop.ShopState.BackToTrolley | src/App.jsx:2522 | back to the trolley step |
| Shop.ShopState.PlaceOrder | src/App.jsx:2609 | the confirmation step |
| Shop.ShopState.BackToFavourites | src/App.jsx:2697-2704 | the new session is `Reset` of the old one |
| Shop.CommittedValid | src/App.jsx:131-144 | committing keeps the ledger free of zeros and success tied to its timer |
| Shop.CommittedAllInTrolley | src/App.jsx:126-145 | with unique ids, after a commit `qsAllInTrolley` holds |
| Shop.CommitTwice | src/App.jsx:130-145 | a second commit right after the first has nothing to add and leaves the trolley as it is |
| Shop.ResetIdempotent | src/App.jsx:2697-2704 | resetting twice is resetting once, and the trolley count after it is 0 |
| Shop.QuickShopScenario | src/App.jsx:101-185 | "A" (score 0.8, 3 at 2.00) beside "B" (score 0.2): the quick shop is ["A"]; committing stores 3 of "A"; count 3, subtotal 6.00, below the minimum; one line, so checkout is offered |
| Shop.ScenarioCommit | src/App.jsx:101-140 | for that catalogue, the quick shop is ["A"] and committing from an empty trolley stores 3 of "A" and keeps the products |
| Shop.ScenarioLines | src/App.jsx:122-182 | for that trolley, the count is 3, the only line is "A" as catalogued, and the subtotal is 6.00 |
| ExpandedQuickShop.TotalCount | src/components/ExpandedQuickShop.jsx:15-18 | never negative |
| ExpandedQuickShop.GridTap | src/components/ExpandedQuickShop.jsx:63-65 | asks for 1 exactly when the quantity is 0, and for 0 otherwise |
| ExpandedQuickShop.StepDown | src/components/ExpandedQuickShop.jsx:117-120 | never negative, and never above the current quantity |
| ExpandedQuickShop.StepUp | src/components/ExpandedQuickShop.jsx:130-133 | always above the current quantity |
| ExpandedQuickShop.GridHint | src/components/ExpandedQuickShop.jsx:82 | "Tap to add" exactly at quantity 0, "Tap to remove" exactly otherwise |
| ExpandedQuickShop.TotalCountOfSelected | src/components/ExpandedQuickShop.jsx:15-18 | `totalCount` is the summed quantity of the products staged above 0 |
| ExpandedQuickShop.TotalCountZero | src/components/ExpandedQuickShop.jsx:15-18 | `totalCount` is 0 exactly when no quantity is positive |
| ExpandedQuickShop.TotalCountAtLeastCount | src/components/ExpandedQuickShop.jsx:15-18 | ignoring non-positive entries never lowers the sum |
| ExpandedQuickShop.EstimatedTotal | src/components/ExpandedQuickShop.jsx:11-14 | with non-negative prices and quantities the estimate is non-negative, and 0 when no quantity is positive |
| ExpandedQuickShop.TapTwice | src/components/ExpandedQuickShop.jsx:63-65 | two taps from 0 come back to 0, and from 1 back to 1 |
| ExpandedQuickShop.StepperInverse | src/components/ExpandedQuickShop.jsx:117-133 | minus undoes plus from any quantity that is not negative; plus undoes minus above 0 |
| IndexQuickShop.SelectedCount | src/components/IndexQuickShop.jsx:6 | between 0 and the number of products |
| IndexQuickShop.SelectedCountExtremes | src/components/IndexQuickShop.jsx:6 | 0 exactly when nothing is selected; the whole list exactly when everything is |
| IndexQuickShop.Progress | src/components/IndexQuickShop.jsx:8-9 | between 0 and 100; 0 with no products; 100 exactly when there are products and all are selected |
| IndexQuickShop.Percent | src/components/IndexQuickShop.jsx:9 | a share of a whole is between 0 and 100, and 100 exactly for the whole |
| IndexQuickShop.LabelNoun | src/components/IndexQuickShop.jsx:47 | the button's noun is the trolley's subtotal noun: "item" exactly for 1 |
| IndexQuickShop.Preview | src/components/IndexQuickShop.jsx:24 | at most six products, a prefix of the list, all of it when it is that short |
| IndexQuickShop.AddDisabled | src/components/IndexQuickShop.jsx:45 | the button is disabled exactly when no product is staged above 0 |
| IndexQuickShop.AddDisabledIff | src/components/IndexQuickShop.jsx:45 | the button is disabled exactly when nothing is selected, which is when `totalCount` is 0 |
| IndexQuickShop.SelectedAtMostTotalCount | src/components/IndexQuickShop.jsx:6 | the selected count never exceeds `totalCount` |

## Findings

| source | as written | input that shows it | evidently intended | confidence | as-written member | corrected member |
|---|---|---|---|---|---|---|
| src/App.jsx:17 | `parsePrice` strips the literal "¬£", which is the pound sign UTF-8-decoded as Mac Roman, before `parseFloat` | the price text "£1.50" parses to 0 | strip "£", so that "£1.50" is 1.50 | medium (the whole file carries the same mis-encoding in its labels); not executed | PriceParser.MisencodedPoundDropsPrice | PriceParser.PoundPrice |
| src/App.jsx:147-153 | `addSingleToTrolley` raises the staged quantity to `max(q, 1)` and the entry to `max(old or 0, 1)` independently | a food product staged at 3 whose entry was lowered to 2 on the trolley page: "Add" leaves it at 3 and 2, still not in the trolley | after "Add" the product shows as in the trolley | medium; not executed | Aggregates.AddSingleAsWrittenMissesAdded | Aggregates.AddSingleMarksAdded |

The catalogue uses the corrected `PriceParser.ParsePrice`. `Shop.ShopState.AddSingleToTrolley`
stages the product at the quantity the ledger then holds (`Aggregates.AddSingleItems`), so
that the product is in the trolley afterwards. The as-written list update is kept as
`Catalog.RaiseToOne`.

## Left out

- The product fetch and the JSON fallback are I/O. `Shop.ShopState.Loaded` takes the fetch's
  outcome and the fallback list as parameters.
- Timers are wall-clock behaviour. The 2500 ms success revert and the 1200 ms auto-advance are
  explicit "timer fired" methods. The timer cleared on unmount and the 80 ms scroll retry are
  not modelled.
- DOM and window effects are cosmetic: scrolling, the carousel arrows, the grid/list `view`,
  `scrollToId`, `handleGridItemTap` and the loading flag. `OpenQuickShop` keeps only the page
  change of `navigateToItem` and `navigateToGridView`.
- Rendering is not modelled: `toFixed`, the progress-bar width, the order dates and reference,
  the label text around the counts, and `DELIVERY_FEE`, which is 0.
- Prices, scores and totals are exact reals, not floating point.
- PriceParser.ParseFloat: reads only unsigned digits with an optional point. It does not model
  signs, exponents or "Infinity".
- PriceParser.ToNumber: the same grammar as `ParseFloat`, whole text only.
- Catalog.QuantityOf: rounds a fractional recommended quantity down, because staged quantities
  are integers here.
- Categorizer.ToLower: lower-cases ASCII letters only.
- The order of `Object.entries` is not modelled. `trolleyItems` and the category groups are
  maps keyed by id and by category. The count and subtotal are sums in no particular order.
- Cells reach the model in their `String(...)` form, so a numeric `item_id` of 0 is not
  modelled.
- A `typeof raw === "number"` price that is `NaN` is not representable.
- Aggregates.AddCommitsEverything, Shop.CommittedAllInTrolley and Shop.CommitTwice assume
  unique catalogue ids. With duplicates, a later product with the same id can overwrite an
  earlier one's entry.
- src/components/FavouritesList.jsx is not part of this model. It only renders.
- The components' callbacks (`onChangeView`, `onViewMore`, `onAddAll`) are the caller's.
  `GridTap`, `StepDown` and `StepUp` model the values passed to `onChangeQuantity`.
- The confirmation reset keeps a quick-shop product's current quantity (`quantity || 1`). The
  recommended quantity is not restored.
- "Checkout" is offered while the materialised trolley lines are non-empty. A ledger whose ids
  are all missing from the catalogue does not offer it.
- Object keys that JavaScript treats specially are not modelled. In the grouping at
  src/App.jsx:839-845, a category named "toString" or "constructor" finds an inherited property,
  so `.push` throws. At src/App.jsx:137, an id of "__proto__" is not stored. The model's maps
  store every key.
- The fallback list is taken without `mapRow` or the default selection, as the code does.
