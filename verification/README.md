# Verified model of the store backend's core rules

This project models, in Dafny, the parts of the computer-store backend whose correctness is not visible from one
function body, and proves what they promise.

| module | what it models |
|---|---|
| `CategoryGraph`, `Categories` | the category table as a parent graph, both breadth-first closures, the two comparison-root guards, and create / update / remove over the table |
| `Promotions`, `Stacking` | scope, conditions and the discount of every kind of promotion; the stacking, checkout and cart loops; coupons in the cart and at checkout |
| `Checkout` | pricing of cart lines, materialising promotions and gifts, flash-sale aggregation, and the persisted order and its rows |
| `Amounts` | what each kind of promotion takes off, stated in quantities, prices and percentages alone |
| `Eligibility` | which promotions and coupons are applied, shown and taken, stated in the ids of the cart and the bounds set |
| `Prices` | what lines, gifts, rows and whole orders cost, stated in the prices of variants and flash sales alone |
| `Discounts` | what the promotions of one checkout take off, counted over the promotions it gets to |
| `FlashStock` | the flash-sale counters over many checkouts |
| `OrderQuota` | the order status machine, the guarded usage counter and the usage rows |
| `Purchases` | a checkout against the quota tables, and what its usage row records |
| `BuildPc` | the Build-PC compatibility engine |
| `PartRules` | when each kind of rule is reported, stated in the spec values of the parts alone |
| `Points` | what earning, adjusting, deducting and redeeming give and take, row by row |
| `Loyalty`, `Tiers` | the point ledger with its denormalised balance, redemption, and the membership tiers |
| `CustomerSessions`, `EmployeeSessions` | the capped session set with rotating refresh tokens, and the single employee session by active jti and blacklist |
| `Rfm` | quintile scores and segment labels |
| `UniqueCodes` | the loops that append a counter to a code until it is unused |
| `Sums`, `Wrappers` | integer sums over sequences and facts about products; Option, Result and database keys |

Tables and Redis keys are maps and sequences held by classes; each service call is one atomic step, and the methods are
proved against functions of the old state. Properties over whole runs are lemmas about those functions. Money is whole
VND, percentages are hundredths of a percent with an explicit round-half-up, and spec values are already normalised
tokens with an optional real number. Tokens and UUIDs are fresh numbers. Results of queries, the clock and what a
signature check recovers are parameters or fields.

## Where a promise does not hold, and exactly when it does

- Re-parenting a category is not guarded unless the same call newly sets the comparison flag. An accepted update keeps
  "one comparison root per branch" exactly when the new parent is outside the subtree and there is not both a flag above
  the new parent and a flag at or below the category (`UpdateKeepsInvariantIff`, counterexample
  `ReparentingCanBreakInvariant`).
- The search for flags below a category ends, whatever order the rows come in, exactly when the category is not its own
  ancestor or some ancestor of it is flagged; with nothing flagged below it, exactly when it is not its own ancestor
  (`WalkEndsInAnyOrderIff`, `UnflaggedWalkEndsIff`). An accepted update can hang a category under its own child, and
  flagging it next is a search that never ends (`ReparentingCanTrapTheGuard`). Only on tables reached by safe updates is
  it sure to end (`GuardAlwaysEnds`).
- The product search without a visited set ends exactly when its root is not its own ancestor (`LevelsEndIff`); on two
  categories hung under each other it never does (`SearchCanGoOnForever`).
- Checkout and the stacking loop agree exactly when checkout reaches no gift promotion, and on an empty cart, where
  checkout applies nothing, when no promotion is live; the cart loop's active entries agree with the stack exactly when it
  reaches no applicable free-shipping promotion with a fee below 1 (`CheckoutAgreesIff`, `CartAgreesIff`; inputs
  `GiftIsAppliedUnseen`, `FreeShippingIsShownForNothing`). The stacking loop itself is reached only through
  `applyAutoPromotions`, which nothing calls; the two loops customers do see run in different contexts, and agree exactly
  when the cart is empty or checkout only reaches promotions that grant no gift, apply in both or neither, and save the
  same on the goods (`CartMatchesCheckoutIff`); at unchanged prices, for a returning customer and with a fee to pay, only
  gifts differ (`SameTotalsSameOffers`).
- The business rules say an exclusive promotion is applied alone. One that is live stands alone in the stack exactly when
  no live promotion precedes it (`ExclusiveStandsAloneIff`, counterexample `ExclusiveIsNotAlone`).
- For a coupon the cart looks at the scope, never counts an order as the first, and has the listed total; checkout ignores
  the scope, checks the personal limit, knows the first order and the real total, and has no product lookup. So a coupon
  may be shown and refused, accepted though shown as unmet, or accepted at another amount (`ShownButRefused`,
  `AcceptedThoughUnmet`, `AcceptedAtAnotherAmount`); exactly when is `CouponPreviewMatchesCheckoutIff`. A coupon for a
  gift, or for a bundle of products or categories, is worth nothing at checkout (`LookupCouponsAreWorthless`).
- Every free-shipping promotion applied writes a row for the whole fee, so fee and rows reconcile exactly when checkout
  reaches at most one live free-shipping promotion (`ShippingReconcilesIff`, counterexample
  `TwoFreeShippingsWriteTwoRows`).
- Nothing keeps the discounts of an order together within its goods. A single discount exceeds them exactly when it is an
  uncapped percentage that rounds above 100%, or the fallback action, which is not clamped at all (`Overshoots`,
  `ExceedsSubtotalIff`, counterexample `OneDiscountCanOvershoot`). With at most one discount, counted over the promotions
  checkout reaches and the coupon, the goods cover it exactly when it does not overshoot (`OneDiscountIsCoveredIff`).
  Discounts none of which overshoots stay within the goods for every choice of n of them exactly when n is at most 1
  (`CoveredForEveryChoiceIff`, `FullDiscountsTakeAllEach`), and within n times the goods always (`DiscountsAreBounded`).
- The bundle bound is guaranteed only with positive prices and components that share no item
  (`BoundNeedsPositivePrices`, `BoundNeedsDisjointComponents`). The final clamp is idle for every percentage up to 100%
  exactly when the subtotal is not negative and the sets together cost at most that (`ClampIdleIff`); checkout's goods
  total at flash-sale prices may be less (`ClampNeedsCoveringSubtotal`).
- A coupon's per-customer limit is compared with the recorded uses when an order is placed, but uses are recorded when it
  is confirmed, so with a limit of one two pending orders end in two uses (`TwoPendingOrdersOverdraw`). An accepted order
  keeps the customer within the limit over every later run exactly when the uses and the orders still owing theirs left
  room for it, or the total quota leaves no more (`PlacementKeepsPersonalLimitIff`).
- In the same way an accepted order may find the total quota used up when it is to be confirmed (`SecondOrderIsStranded`).
  All orders that owe a coupon stay confirmable over every run exactly when the quota left covers all of them
  (`StayConfirmableIff`, `PlacementKeepsConfirmableIff`).
- The usage row of a coupon records the order's whole discount. That is the coupon's own amount exactly when checkout
  reached no automatic discount (`UsageRowIsCouponRowIff`).
- A rule that spends nothing per unit divides by zero; the points then cannot be written exactly when the order or its
  rate is worth nothing or no cap applies (`EarnedUnlessDividedByZero`).
- The cap of five bounds sessions, not refresh tokens. A live session survives a login exactly when it is not the earliest
  of five; its refresh token survives every login, so a customer holds more than five exactly when there were at least
  five before (`SurvivesLoginIff`, `EvictedSessionKeepsRefreshTokenIff`, `LoginAddsAToken`, `LoginsPileUpTokens`).
- The employee logout is safe exactly when it is handed the active token; the request guard in front of it ensures that
  (`UnguardedLogoutSafeIff`).
- The segment label New is never given: whoever passes its test passes that of Potential, which comes first. Every other
  label is given (`ShadowedIffNew`).
- Suffixed product codes and SKUs of full length fit their columns exactly while the counter is below 10000 (`FitsIff`).

Where code and documentation disagree the code is modelled: `.ai/BUSINESS-RULES.md` says an exclusive promotion is
applied alone and is the single best one, while the loops keep what precedes the first exclusive promotion; it says usage
rows are written after checkout, while they are written on confirmation; it says a return writes a ledger row of type
redeem, while the service writes adjust; it says a taken slug gets `-2`, `-3` and so on, while the loops start at `-1`.
The comment on `evaluateSinglePromotion` says a promotion without net effect yields null, while a gift yields an effect
with amount 0.

## Model

| member | source | states |
|---|---|---|
| `CategoryGraph.ResolveDescendantIds` | src/modules/build-pc/build-pc-compatibility.engine.ts:48-67 | on every parent table, cyclic ones included, the search ends and returns exactly the root and what lies below it |
| `CategoryGraph.ResolveDescendantIdsUnguarded` | src/modules/products/products-search.service.ts:267-279 | where its root is not its own ancestor, the search without a visited set ends, returns the same nodes, and lists none twice |
| `CategoryGraph.LevelsEndIff` | src/modules/products/products-search.service.ts:270-277 | its queue ever runs empty if and only if the root is not its own ancestor |
| `CategoryGraph.SearchCanGoOnForever` | src/modules/products/products-search.service.ts:270-277 | on two categories hung under each other the queue is never empty |
| `CategoryGraph.ChildRows` | src/modules/build-pc/build-pc-compatibility.engine.ts:52-56 | the child query returns exactly the rows whose parent is among the ids, each once |
| `Categories.AssertNoFlagOnAncestors` | src/modules/categories/categories.service.ts:233-248 | ends on every table and reports a conflict iff a node of the parent chain is flagged, naming such a node |
| `Categories.AssertNoFlagOnDescendants` | src/modules/categories/categories.service.ts:251-271 | wherever the walk ends, reports a conflict iff a proper descendant is flagged, naming one |
| `Categories.StackEmptiesIff` | src/modules/categories/categories.service.ts:260-269 | left to itself the stack runs empty iff the root is not its own ancestor |
| `Categories.UnflaggedWalkEndsIff` | src/modules/categories/categories.service.ts:261-270 | with nothing flagged below the root the walk ends iff the root is not its own ancestor |
| `Categories.WalkEndsInAnyOrderIff` | src/modules/categories/categories.service.ts:252-270 | it ends for every order of the rows iff the root is not its own ancestor or an ancestor is flagged |
| `Categories.GuardAlwaysEnds` | src/modules/categories/categories.service.ts:251-271 | on every table reached by creates, removes and safe updates it ends |
| `Categories.ReparentingCanTrapTheGuard` | src/modules/categories/categories.service.ts:136-149 | two creates and one accepted update make a table on which flagging a category never ends |
| `Categories.StackPop` | src/modules/categories/categories.service.ts:261-270 | one pop keeps the walk's state: popped nodes are unflagged descendants, the rest reached so far is on the stack once |
| `Categories.CategoriesService.Create` | src/modules/categories/categories.service.ts:24-69 | the new table or the error, in the order the checks are made, the slug's first; a rejected call changes nothing |
| `Categories.CategoriesService.Update` | src/modules/categories/categories.service.ts:114-176 | likewise, the guards running only when the flag is newly set; run wherever the second of them ends |
| `Categories.CategoriesService.Remove` | src/modules/categories/categories.service.ts:178-199 | likewise, refusing a category with children |
| `Categories.CreateKeepsInvariant` | src/modules/categories/categories.service.ts:28-51 | an accepted create keeps unique slugs, existing parents, no cycle, and no flagged category above a flagged one |
| `Categories.RemoveKeepsInvariant` | src/modules/categories/categories.service.ts:178-183 | so does an accepted remove |
| `Categories.ChainSplits` | src/modules/categories/categories.service.ts:147-157 | after a move outside the subtree, a chain starting below the moved node stays inside the subtree or continues above the new parent |
| `Categories.UpdateKeepsInvariantIff` | src/modules/categories/categories.service.ts:140-157 | an accepted update keeps the invariant iff the move stays outside the subtree and brings no flag above a flag |
| `Categories.GuardedUpdateIsSafe` | src/modules/categories/categories.service.ts:140-150 | an update that does not move the category, or newly flags it while moving outside its subtree, always meets that condition |
| `Categories.ReparentingCanBreakInvariant` | src/modules/categories/categories.service.ts:140-157 | moving a flagged root under a flagged root is accepted and breaks the invariant |
| `Categories.RunsKeepOneRootPerBranch` | src/modules/categories/categories.service.ts:232-271 | over every run of creates, removes and safe updates no flagged category has a flagged proper ancestor |
| `Categories.CreateAcceptedIff` | src/modules/categories/categories.service.ts:25-40 | a create is accepted iff its slug is unused, its parent exists, and a flag is only for a plain category with none at or above the parent |
| `Categories.CreateStores` | src/modules/categories/categories.service.ts:44-51 | the new row holds what was asked for, every other is as it was |
| `Categories.UpdateStores` | src/modules/categories/categories.service.ts:152-157 | each field given is stored, each absent stays, every other row is as it was |
| `Categories.RemoveDelivers` | src/modules/categories/categories.service.ts:178-183 | only a category without children goes, and nothing else |
| `Promotions.CountBundleComponent` | src/modules/promotions/promotion-evaluator.service.ts:525-541 | the loop returns the total quantity of the items matching the component |
| `Promotions.ApplyBundleDiscount` | src/modules/promotions/promotion-evaluator.service.ts:543-582 | the discount of the full sets the cart holds, early exit included, clamped to the subtotal |
| `Promotions.BundleCountIsGreatest` | src/modules/promotions/promotion-evaluator.service.ts:546-553 | k sets are counted iff k times every requirement is in the cart, so the count is the greatest such k |
| `Promotions.UnitPriceIsCheapest` | src/modules/promotions/promotion-evaluator.service.ts:556-571 | with positive prices the unit price of a component is the least price of a matching item, and some item has it |
| `Promotions.BundlesWithinSubtotal` | src/modules/promotions/promotion-evaluator.service.ts:543-571 | sets times set price is at most what the items cost, so at most a subtotal covering that, when prices are positive and no item serves two components |
| `Promotions.ClampIdleIff` | src/modules/promotions/promotion-evaluator.service.ts:573-581 | the final clamp is idle for every bundle percentage up to 100 iff the subtotal is not negative and the sets together cost at most that |
| `Promotions.PercentBundleNeverClamped` | src/modules/promotions/promotion-evaluator.service.ts:573-581 | so a bundle percentage of at most 100 stays within what the items cost, rounding included, and never meets the final clamp when the subtotal covers that |
| `Promotions.BoundNeedsPositivePrices` | src/modules/promotions/promotion-evaluator.service.ts:559-569 | a cart with a zero price that exceeds the bound |
| `Promotions.BoundNeedsDisjointComponents` | src/modules/promotions/promotion-evaluator.service.ts:555-571 | a cart with an item serving two components that exceeds the bound |
| `Promotions.ClampNeedsCoveringSubtotal` | src/modules/promotions/promotion-evaluator.service.ts:573-581 | a cart whose subtotal does not cover its listed prices, where the clamp takes half of the discount |
| `Promotions.CountBxgyBuyQuantity` | src/modules/promotions/promotion-evaluator.service.ts:594-610 | the loop returns the total quantity of the items that count as bought |
| `Promotions.ApplicationsAreGreatest` | src/modules/promotions/promotion-evaluator.service.ts:612-618 | k applications are granted iff k purchases fit the bought quantity and the cap allows k |
| `Promotions.MoreItemsNeverHurt` | src/modules/promotions/promotion-evaluator.service.ts:525-618 | adding items anywhere in the cart, new products included, or reordering it, lowers neither the set count nor the applications |
| `Promotions.ApplicableInLargerCart` | src/modules/promotions/promotion-evaluator.service.ts:408-482 | adding items never makes a promotion inapplicable whose conditions set no upper bound on value or quantity |
| `Promotions.BestTier` | src/modules/promotions/promotion-evaluator.service.ts:655-661 | the chosen bulk tier applies and none applicable has a higher minimum; none is chosen iff none applies |
| `Promotions.ExceedsSubtotalIff` | src/modules/promotions/promotion-evaluator.service.ts:498-521 | a discount other than a gift exceeds the subtotal iff it is an uncapped percentage rounding above all of it, an unclamped fallback amount or a fee above it |
| `Stacking.EvaluateAndStack` | src/modules/promotions/promotion-evaluator.service.ts:386-406 | the loop returns the contributions of the promotions the walk reaches, cut just after the first exclusive live one |
| `Stacking.StackedMembers` | src/modules/promotions/promotion-evaluator.service.ts:390-403 | an entry is in the stack iff its promotion is applicable with positive discount and no exclusive such one precedes it |
| `Stacking.ExclusiveStandsAloneIff` | src/modules/promotions/promotion-evaluator.service.ts:390-403 | a live exclusive promotion is the whole stack iff no live one precedes it |
| `Stacking.ExclusiveIsNotAlone` | src/modules/promotions/promotion-evaluator.service.ts:390-403 | an exclusive promotion stacked behind another one |
| `Stacking.EvaluateAutoPromotionsForCheckout` | src/modules/orders/orders.service.ts:1201-1235 | the checkout loop returns the effects it reaches, none for an empty cart |
| `Stacking.CheckoutAgreesIff` | src/modules/orders/orders.service.ts:1224-1234 | its list equals the stack iff it reaches no buy-X-get-Y promotion that grants a gift, or, on an empty cart, none is live |
| `Stacking.EvaluateForCart` | src/modules/promotions/promotion-evaluator.service.ts:108-132 | the active and unmet entries the cart loop reaches, and the saved coupon's entry if a code is saved |
| `Stacking.CartAgreesIff` | src/modules/promotions/promotion-evaluator.service.ts:116-132 | its active entries equal the stack iff it reaches no applicable free-shipping promotion with a fee below 1 |
| `Stacking.AgreeIff` | src/modules/promotions/promotion-evaluator.service.ts:386-406 | two walks with exclusive stops that differ only in zero contributions agree iff they decide alike on all the second reaches |
| `Stacking.WalksAgreeIff` | src/modules/orders/orders.service.ts:1224-1234 | two walks over promotions with distinct ids give the same list iff they decide alike on all the second reaches |
| `Stacking.CartMatchesCheckoutIff` | src/modules/cart/cart.service.ts:302-318 | in their own contexts, cart and checkout apply the same promotions with the same savings on the goods iff the cart is empty or checkout only reaches ones shown as they are charged |
| `Stacking.GiftIsAppliedUnseen` | src/modules/promotions/promotion-evaluator.service.ts:74-90 | a gift outside the cart that checkout grants and neither the stack nor the cart shows |
| `Stacking.FreeShippingIsShownForNothing` | src/modules/promotions/promotion-evaluator.service.ts:124-128 | a free-shipping promotion active in the cart and not in the stack |
| `Stacking.SameTotalsSameOffers` | src/modules/orders/orders.service.ts:1274-1288 | at unchanged prices, for a returning customer with a fee to pay, a promotion is shown as it is charged iff it grants no gift |
| `Stacking.ConditionsSplit` | src/modules/promotions/promotion-evaluator.service.ts:430-473 | conditions depend on the contents of the cart, its total and the first order only, and how |
| `Stacking.CouponPreviewMatchesCheckoutIff` | src/modules/orders/orders.service.ts:1320-1328 | checkout accepts a coupon just when the cart shows it as active, and at that amount, iff the two contexts' own demands agree and the amount survives them |
| `Stacking.AmountStaysIff` | src/modules/promotions/promotion-evaluator.service.ts:498-521 | a coupon's amount is the same in both contexts iff it needs no product lookup and is unmoved by the total, or needs one and was 0, kind by kind |
| `Stacking.LookupCouponsAreWorthless` | src/modules/orders/orders.service.ts:1320-1327 | at checkout a coupon for a gift, or for a bundle of products or categories, is worth 0 |
| `Stacking.ShownButRefused` | src/modules/promotions/promotion-evaluator.service.ts:372-380 | coupons shown as active and refused, for the personal limit and for the total |
| `Stacking.AcceptedThoughUnmet` | src/modules/promotions/promotion-evaluator.service.ts:161-164 | coupons shown as unmet and accepted, for the scope and for the first order |
| `Stacking.AcceptedAtAnotherAmount` | src/modules/promotions/promotion-evaluator.service.ts:543-553 | a product bundle's coupon shown with 20 and accepted with 0 |
| `Amounts.ItemCountsTowards` | src/modules/promotions/promotion-evaluator.service.ts:525-541 | one more item counts towards a component with its whole quantity iff its variant, product or category is the one referred to |
| `Amounts.ItemCountsAsBought` | src/modules/promotions/promotion-evaluator.service.ts:594-610 | and as bought iff its product is the one asked for, among the eligible, or nothing is asked for |
| `Amounts.FixedBundleDelivers` | src/modules/promotions/promotion-evaluator.service.ts:543-582 | with k sets fitting the cart's quantities and not k + 1, a fixed bundle takes off the lesser of k times its amount and the subtotal |
| `Amounts.PercentBundleDelivers` | src/modules/promotions/promotion-evaluator.service.ts:555-581 | a percentage bundle takes off that percentage of k sets at their cheapest prices to the nearest dong, or the subtotal if less |
| `Amounts.PercentageDelivers` | src/modules/promotions/promotion-evaluator.service.ts:500-504 | a percentage takes off that of the subtotal to the nearest dong, halves up, or the cap if less |
| `Amounts.PlainAmountsDeliver` | src/modules/promotions/promotion-evaluator.service.ts:505-519 | a fixed amount is taken off up to the subtotal, the fee if not negative, the fallback as it is |
| `Amounts.BulkDelivers` | src/modules/promotions/promotion-evaluator.service.ts:655-666 | the tier in range with the highest minimum decides: its percentage to the nearest dong, or its amount up to the subtotal |
| `Amounts.NoTierNoDiscount` | src/modules/promotions/promotion-evaluator.service.ts:657-661 | without a tier in range nothing is taken off |
| `Amounts.GiftPreviewDelivers` | src/modules/promotions/promotion-evaluator.service.ts:620-653 | a gift's preview is its percentage, held between 0 and 100, of all its pieces at the first matching price, to the nearest dong |
| `Amounts.GiftAtCheckoutDelivers` | src/modules/promotions/promotion-evaluator.service.ts:74-90 | checkout hands over the gift once per purchase that fits, at that percentage, and nothing if none fits or no gift is named |
| `Eligibility.ScopeIff` | src/modules/promotions/promotion-evaluator.service.ts:408-423 | a promotion is in scope iff it has none, a global one, or one naming a category, brand or variant of the cart |
| `Eligibility.AllMetIff` | src/modules/promotions/promotion-evaluator.service.ts:425-482 | conditions hold iff each is met: bounds inclusive, one of the ids or all of them, by kind |
| `Eligibility.StackedIff` | src/modules/promotions/promotion-evaluator.service.ts:386-406 | a promotion is stacked with an amount iff it qualifies in these terms, that is its action's positive amount, and no exclusive one before it saves anything |
| `Eligibility.StackedInOrder` | src/modules/promotions/promotion-evaluator.service.ts:390-403 | the stack keeps the order of the promotions |
| `Eligibility.AppliedAtCheckoutIff` | src/modules/orders/orders.service.ts:1213-1234 | checkout applies one iff it saves money or gives a gift, the cart is not empty, and no exclusive one before it saves money |
| `Eligibility.ShownInCartIff` | src/modules/promotions/promotion-evaluator.service.ts:116-132 | a cart entry is active, or unmet, iff the promotion qualifies and saves or ships free, or is in scope with a condition failing, up to the first exclusive one shown |
| `Eligibility.CouponShownIff` | src/modules/promotions/promotion-evaluator.service.ts:151-168 | a coupon is shown exhausted iff its uses reached its limit, active iff not and it qualifies |
| `Eligibility.CouponTakenIff` | src/modules/promotions/promotion-evaluator.service.ts:364-384 | checkout takes it iff a use is left in all and for the customer and its conditions are met, whatever its scope; and why not |
| `Prices.SellableIff` | src/modules/orders/orders.service.ts:113-115 | lines are sold iff every variant is known, on show and in stock for its whole line |
| `Prices.RefusedLine` | src/modules/orders/orders.service.ts:113-115 | not for sale iff unknown or hidden, out of stock iff shown and short |
| `Prices.LineDelivers` | src/modules/orders/orders.service.ts:117-138 | a line the sale has left in full costs the flash price and remembers the original, any other its variant's price |
| `Prices.GoodsAndSavingsAddUp` | src/modules/orders/orders.service.ts:121-124 | goods total plus savings is original prices times quantities |
| `Prices.NoNegativeSaving` | src/modules/orders/orders.service.ts:124 | with flash prices at most the original ones no line saves a negative amount |
| `Prices.LowerFlashPrice` | src/modules/orders/orders.service.ts:117-122 | a flash price lower by d lowers the goods total by d for every piece the sale serves |
| `Prices.GiftLineDelivers` | src/modules/orders/orders.service.ts:200-219 | a gift line is charged what its percentage leaves of the price, to the nearest dong, per piece, under its promotion |
| `Prices.UndeliverableGift` | src/modules/orders/orders.service.ts:199 | a gift without a sellable variant or enough stock leaves no line |
| `Prices.PromotionLeavesRow` | src/modules/orders/orders.service.ts:159-173 | every promotion reached that grants something leaves a row under its id, of the type and amount of its action |
| `Prices.OrderCosts` | src/modules/orders/orders.service.ts:221 | the customer pays full value less sale savings, gifts and fee, less what promotions and coupon take off |
| `Prices.PlainOrderCosts` | src/modules/orders/orders.service.ts:148 | without promotions a lower flash price lowers the payable as much, and delivery adds 0, 25000 or 40000 |
| `Checkout.PriceLines` | src/modules/orders/orders.service.ts:104-146 | succeeds iff every line is sellable, else the first failing line's error; line prices, totals, savings and flash-sale use as the lines say |
| `Checkout.FlashStockNeverOversold` | src/modules/orders/orders.service.ts:115-145 | with one line per variant no order takes more of a flash-sale item than the sale has left |
| `Checkout.EvaluatedEffects` | src/modules/promotions/promotion-evaluator.service.ts:64-93 | every effect checkout receives has a gift iff it is buy-X-get-Y, then no amount; free shipping carries the positive fee |
| `Checkout.MaterialiseEffects` | src/modules/orders/orders.service.ts:154-173 | one row per effect in order, the accumulated discount is the sum of the discounting rows, the fee is waived iff free shipping applies |
| `Checkout.AddGifts` | src/modules/orders/orders.service.ts:186-219 | the gift lines are those of the deliverable gifts in order, and their totals sum to what is added to the goods total |
| `Checkout.GiftSavingMatchesPreview` | src/modules/orders/orders.service.ts:201-211 | what checkout takes off a gift line is the discount the cart previews, up to half a dong per unit, half a dong overall and the percentage of the gap between the two prices; exactly that when there is no gap and the unit discount is whole |
| `Checkout.AggregateFlashSales` | src/modules/orders/orders.service.ts:229-237 | one entry per flash sale that occurs, holding that sale's savings; together the savings of all flash-sale lines |
| `Checkout.PromotionRows` | src/modules/orders/orders.service.ts:271-308 | flash-sale, coupon and automatic rows in that order; the discounting ones sum to the order's discount, the flash-sale ones to the lines' savings |
| `Checkout.AssembleOrder` | src/modules/orders/orders.service.ts:154-308 | the order reconciles: goods total, discount, flash-sale savings and payable are all recomputable from the persisted lines and rows plus shipping |
| `Checkout.PlaceOrder` | src/modules/orders/orders.service.ts:61-345 | that order, made of the lines, the automatic effects and the coupon evaluated on this cart and goods total; otherwise the first failing check's error |
| `Discounts.OneDiscountIsCoveredIff` | src/modules/orders/orders.service.ts:163-183 | with at most one discount reached, what is taken off is at most the goods total iff it does not overshoot |
| `Discounts.CoveredForEveryChoiceIff` | src/modules/orders/orders.service.ts:163-183 | n discounts none of which overshoots stay within the goods in every checkout iff n is at most 1 |
| `Discounts.FullDiscountsTakeAllEach` | src/modules/orders/orders.service.ts:163-183 | n full fixed discounts take off n times the goods |
| `Discounts.DiscountsAreBounded` | src/modules/orders/orders.service.ts:163-183 | unless one overshoots, the discounts take off at most the goods total once each |
| `Discounts.OneDiscountCanOvershoot` | src/modules/promotions/promotion-evaluator.service.ts:518-519 | one fallback discount takes 1000 off goods worth 200 |
| `Discounts.ShippingReconcilesIff` | src/modules/orders/orders.service.ts:160-162 | fee charged plus shipping rows give the full fee iff at most one live free-shipping promotion is reached |
| `Discounts.TwoFreeShippingsWriteTwoRows` | src/modules/orders/orders.service.ts:160-162 | two stackable ones write 50000 of shipping saved for a fee of 25000 |
| `FlashStock.RunsNeverOversell` | src/modules/orders/orders.service.ts:310-316 | over every run of checkouts no flash-sale item is sold beyond its limit, and its counter grows by what the orders took |
| `FlashStock.TakesWhatIsLeft` | src/modules/orders/orders.service.ts:115-145 | one checkout takes from a flash-sale item at most what it has left |
| `Purchases.CouponTakenIff` | src/modules/promotions/promotion-evaluator.service.ts:364-383 | checkout takes a code iff the stored quotas let the order be placed and the conditions hold, and gives the quotas' reason otherwise |
| `Purchases.UsageRowIsCouponRowIff` | src/modules/orders/orders.service.ts:880-884 | over every later run the usage row records the order's whole discount; that is the coupon row's amount iff no automatic discount was reached |
| `OrderQuota.PromotionsService.RecordCouponConsumption` | src/modules/promotions/promotions.service.ts:417-441 | succeeds iff the promotion exists and its limit allows one more; then counter and usage rows grow by one, else nothing changes |
| `OrderQuota.PromotionsService.CountCustomerUsage` | src/modules/promotions/promotions.service.ts:407-409 | the number of the customer's usage rows for the promotion |
| `OrderQuota.PromotionsService.CheckCoupon` | src/modules/promotions/promotion-evaluator.service.ts:365-377 | unknown code, used-up quota, reached personal limit, in that order, or none |
| `OrderQuota.OrdersService.PlaceOrder` | src/modules/orders/orders.service.ts:175-183 | a pending order, unless the coupon's quotas turn it down |
| `OrderQuota.OrdersService.ChangeStatus` | src/modules/orders/orders.service.ts:853-891 | the new state, the coupon consumed with a first confirmation; a refused coupon rolls the status back |
| `OrderQuota.OrdersService.UpdateOrderStatus` | src/modules/orders/orders.service.ts:636-652 | only the allowed transitions, then the status change |
| `OrderQuota.OrdersService.CancelOrder` | src/modules/orders/orders.service.ts:625-634 | only the customer's own pending order |
| `OrderQuota.OrdersService.ConsumeCoupon` | src/modules/orders/orders.service.ts:1343-1358 | idempotent consumption: true iff the coupon is or was consumed or there is none |
| `OrderQuota.RunsConsumeOnce` | src/modules/orders/orders.service.ts:876-891 | over every run, with consumption interleaved anywhere: counters grow by the usage rows and stay within limits, an order has one row iff consumed, and none gets past pending uncancelled without it |
| `OrderQuota.UsageRowsAreConsumedOrders` | src/modules/promotions/promotions.service.ts:430-431 | a promotion has a usage row for an order iff that order consumed it as its coupon |
| `OrderQuota.OrdersOnlyMoveForward` | src/modules/orders/orders.service.ts:947-960 | over every run an order keeps customer, coupon and discount, never revisits or leaves a final status, and is cancelled only from pending or confirmed |
| `OrderQuota.PersonalLimitKeptIff` | src/modules/orders/orders.service.ts:1343-1358 | with no further placements a customer stays within the personal limit over every run iff the orders owing their coupon, or the quota left, still fit |
| `OrderQuota.PlacementKeepsPersonalLimitIff` | src/modules/promotions/promotion-evaluator.service.ts:372-377 | an accepted order keeps the customer within the limit over every later run iff it had room beside the orders still owing |
| `OrderQuota.RoomyRunsKeepPersonalLimit` | src/modules/promotions/promotion-evaluator.service.ts:372-377 | over every run whose accepted orders all had room the customer stays within the limit |
| `OrderQuota.TwoPendingOrdersOverdraw` | src/modules/orders/orders.service.ts:879-885 | from empty tables and a limit of one, two orders are placed, confirmed and counted twice |
| `OrderQuota.StayConfirmableIff` | src/modules/orders/orders.service.ts:879-888 | with no further placements every order owing a coupon stays confirmable over every run iff the quota left covers them all |
| `OrderQuota.PlacementKeepsConfirmableIff` | src/modules/promotions/promotion-evaluator.service.ts:368-370 | an accepted order keeps them so iff the quota left covers one more than owed it before |
| `OrderQuota.SecondOrderIsStranded` | src/modules/orders/orders.service.ts:886-888 | under a quota of one, two orders are accepted and the second cannot be confirmed |
| `OrderQuota.TransitionsAre` | src/modules/orders/orders.service.ts:947-960 | an order may go one stage further or be cancelled before packing, and nothing else |
| `OrderQuota.UpdateDelivers` | src/modules/orders/orders.service.ts:636-652 | an update is accepted iff the order exists, the transition is one of these and a coupon due has quota left; then the order has that status and no other changed |
| `OrderQuota.CancelDelivers` | src/modules/orders/orders.service.ts:625-634 | a customer cancels iff the order is own and pending |
| `OrderQuota.PlaceDelivers` | src/modules/orders/orders.service.ts:250-268 | an accepted order is stored as placed, pending, its coupon not consumed |
| `OrderQuota.ConsumptionDelivers` | src/modules/orders/orders.service.ts:876-891 | a coupon consumed adds one use and the order's usage row |
| `OrderQuota.PendingOrdersCanBeDelivered` | src/modules/orders/orders.service.ts:947-960 | every pending order without a coupon can be taken all the way to delivery |
| `BuildPc.CollectQuantities` | src/modules/build-pc/build-pc-compatibility.engine.ts:73-78 | the loop returns the total normalised quantity of every variant mentioned |
| `BuildPc.EvaluateRule` | src/modules/build-pc/build-pc-compatibility.engine.ts:167-221 | whether a rule fails and against which parts: all that demand power for a sum, else the first that clashes |
| `BuildPc.CheckBuild` | src/modules/build-pc/build-pc-compatibility.engine.ts:69-165 | the issues in rule and listing order; compatible iff none comes from a mandatory rule; no parts, no issues |
| `BuildPc.IssuesMembers` | src/modules/build-pc/build-pc-compatibility.engine.ts:131-162 | an issue for a rule and part is reported iff the part fills the source slot with a value, the target slot is filled, and the rule fails |
| `BuildPc.IncompatibilityIsMonotone` | src/modules/build-pc/build-pc-compatibility.engine.ts:129-221 | an issue raised for a build is raised for every build containing it, with non-negative spec values and coefficient under a sum rule |
| `BuildPc.AddingPartsNeverRepairs` | src/modules/build-pc/build-pc-compatibility.engine.ts:164 | so adding parts or quantities never makes an incompatible build compatible |
| `BuildPc.OnlyTotalsMatter` | src/modules/build-pc/build-pc-compatibility.engine.ts:72-79 | requests with equal totals per variant get the same issues |
| `BuildPc.ReorderingAndMergingKeepIssues` | src/modules/build-pc/build-pc-compatibility.engine.ts:72-79 | permuting a request, or merging or splitting entries of one variant, changes no issue |
| `PartRules.ExactMatchReportedIff` | src/modules/build-pc/build-pc-compatibility.engine.ts:207-231 | an exact-match rule is reported for a part iff it applies and some target with a value has another one |
| `PartRules.ContainsReportedIff` | src/modules/build-pc/build-pc-compatibility.engine.ts:232-235 | a contains rule iff some target with a value neither lists the part's nor, without a list, holds it anywhere |
| `PartRules.MinValueReportedIff` | src/modules/build-pc/build-pc-compatibility.engine.ts:236-241 | a minimum rule iff some target is no number, or the part is none, or the target is below the part times the factor |
| `PartRules.HigherTargetNeverClashes` | src/modules/build-pc/build-pc-compatibility.engine.ts:236-241 | raising a target's number never brings up an issue |
| `PartRules.MinSumReportedIff` | src/modules/build-pc/build-pc-compatibility.engine.ts:177-195 | a sum rule iff the part is no number or less than the sum of value times quantity in its target slot times the factor |
| `PartRules.DefaultReportedIff` | src/modules/build-pc/build-pc-compatibility.engine.ts:197-205 | without a target slot a rule compares with its default value, if it has one |
| `PartRules.OtherChecksPass` | src/modules/build-pc/build-pc-compatibility.engine.ts:242 | a rule of another kind is never reported |
| `PartRules.SumIssueNames` | src/modules/build-pc/build-pc-compatibility.engine.ts:181-194 | an issue of a sum rule names every target with a value |
| `PartRules.IssueNames` | src/modules/build-pc/build-pc-compatibility.engine.ts:207-220 | an issue of another rule names the first target in listing order that offends |
| `PartRules.SingleRequest` | src/modules/build-pc/build-pc-compatibility.engine.ts:74-78 | a request for one part asks for the quantity given, at least one |
| `Loyalty.EarnedPointsGrow` | src/modules/loyalty/loyalty.service.ts:183-199 | a larger order never earns fewer points, and no order earns more than the cap |
| `Loyalty.EarnedUnlessDividedByZero` | src/modules/loyalty/loyalty.service.ts:197-199 | an order's points are no storable number iff the rule spends 0 per unit and total or rate is 0 or there is no cap |
| `Loyalty.LoyaltyService.WriteTransaction` | src/modules/loyalty/loyalty.service.ts:274-308 | balance and ledger move together by the points written; a balance below zero is refused and nothing changes |
| `Loyalty.LoyaltyService.EarnPointsForOrder` | src/modules/loyalty/loyalty.service.ts:176-221 | the first active rule's points are written as earned, or nothing when there are none; refused when they are no number |
| `Loyalty.LoyaltyService.DeductPointsForReturn` | src/modules/loyalty/loyalty.service.ts:223-249 | writes minus the lesser of the earned points and the balance |
| `Loyalty.LoyaltyService.AdjustPoints` | src/modules/loyalty/loyalty.service.ts:251-272 | writes the signed points, as earned when not negative |
| `Loyalty.LoyaltyService.RedeemPoints` | src/modules/loyalty/loyalty.service.ts:392-428 | takes the cost, counts the redemption and records it together, or nothing on any refusal |
| `Loyalty.RunsKeepTheBooks` | src/modules/loyalty/loyalty.service.ts:274-308 | over every run rows chain, balances are start plus points and never negative, redemption counters and limits hold, and redemption rows cost what redeem rows took |
| `Loyalty.WriteKeepsLedger` | src/modules/loyalty/loyalty.service.ts:285-307 | one write keeps every customer's chain and balance |
| `Loyalty.RedeemKeepsRedemptions` | src/modules/loyalty/loyalty.service.ts:397-425 | one redemption keeps the counter equal to the rows, within its limit, and both cost totals equal |
| `Loyalty.SummaryBalances` | src/modules/loyalty/loyalty.service.ts:545-577 | lifetime earned minus lifetime spent is the balance minus its start |
| `Loyalty.DeductionNeverFails` | src/modules/loyalty/loyalty.service.ts:229-239 | a return deduction always succeeds and leaves the balance less the earned points, or zero |
| `Points.PointsAreGreatest` | src/modules/loyalty/loyalty.service.ts:183-199 | an order at or above the rule's minimum earns k points iff it is worth k times the spend per unit at the rate and the cap allows k |
| `Points.OddRulesEarn` | src/modules/loyalty/loyalty.service.ts:197-199 | a rule spending 0 per unit gives what its cap allows, a negative one nothing |
| `Points.EarnDelivers` | src/modules/loyalty/loyalty.service.ts:201-208 | earning adds the points to balance and ledger as an earn row |
| `Points.AdjustDelivers` | src/modules/loyalty/loyalty.service.ts:251-272 | an adjustment is accepted iff the customer is known and can bear it, and moves the balance by the signed points |
| `Points.DeductDelivers` | src/modules/loyalty/loyalty.service.ts:229-241 | a deduction takes what was earned, or all there is if less |
| `Points.RedeemAcceptedIff` | src/modules/loyalty/loyalty.service.ts:395-406 | a redemption is accepted iff the item is active and below its limit and the customer known and holds its cost |
| `Points.RedeemDelivers` | src/modules/loyalty/loyalty.service.ts:405-425 | it takes exactly the cost, counts once more and records customer, item and cost |
| `Points.RedeemRowsSumToCosts` | src/modules/loyalty/loyalty.service.ts:405-425 | over every run without cost edits a customer's redeem rows sum to minus each item's cost times how often it was redeemed |
| `Tiers.ValidateOverlap` | src/modules/loyalty/membership-tier.service.ts:172-203 | reports a second unlimited tier, else an overlap with a tier other than the excluded one, else nothing |
| `Tiers.OverlapIsSharing` | src/modules/loyalty/membership-tier.service.ts:192-193 | the interval test holds iff some balance lies in both ranges, safe-integer infinity included |
| `Tiers.MembershipTierService.Create` | src/modules/loyalty/membership-tier.service.ts:62-93 | the new tiers or the first failing check's error, the database's unique slug last |
| `Tiers.MembershipTierService.Update` | src/modules/loyalty/membership-tier.service.ts:95-136 | likewise for the changed tier, its own row excluded |
| `Tiers.MembershipTierService.Remove` | src/modules/loyalty/membership-tier.service.ts:138-159 | removes the tier iff it exists and holds no customer |
| `Tiers.FetchCustomerCounts` | src/modules/loyalty/membership-tier.service.ts:205-227 | one entry per tier found, holding the number of balances in its range |
| `Tiers.CreateAcceptedIffValid` | src/modules/loyalty/membership-tier.service.ts:66-70 | a new tier is accepted iff the enlarged set of tiers is a valid partition with unique names and slugs |
| `Tiers.UpdateAcceptedIffValid` | src/modules/loyalty/membership-tier.service.ts:104-112 | an update is accepted iff the changed set of tiers is such a partition |
| `Tiers.TierHolds` | src/modules/loyalty/membership-tier.service.ts:212-220 | a tier holds its bounds and what lies between, without an upper one everything above |
| `Tiers.UpdateStores` | src/modules/loyalty/membership-tier.service.ts:114-122 | each field given is stored, each absent stays, every other tier is as it was |
| `Tiers.RemoveAcceptedIff` | src/modules/loyalty/membership-tier.service.ts:138-150 | a tier goes iff every balance lies outside its bounds |
| `Tiers.AtMostOneUnlimited` | src/modules/loyalty/membership-tier.service.ts:180-188 | at most one tier is unlimited |
| `Tiers.RunsKeepPartition` | src/modules/loyalty/membership-tier.service.ts:62-159 | over every run ids, names and slugs stay unique and ranges non-empty and disjoint |
| `Tiers.LargerBalanceNeverLowerTier` | src/modules/loyalty/membership-tier.service.ts:212-220 | a balance lies in at most one tier and a larger one never in a lower tier |
| `Tiers.CountsNeverExceedCustomers` | src/modules/loyalty/membership-tier.service.ts:205-227 | the customer counts of all tiers together never exceed the number of customers |
| `Tiers.RemovalMovesNobody` | src/modules/loyalty/membership-tier.service.ts:142-150 | removing a tier takes no customer out of a tier |
| `CustomerSessions.RedisService.AddCustomerSession` | src/common/redis/redis.service.ts:73-87 | expired members go, the lowest ranks make room, the new member is added; other customers' sets are untouched |
| `CustomerSessions.AddSessionEvictsEarliest` | src/common/redis/redis.service.ts:78-85 | at most five remain and no more are dropped than needed; the new one is in; a live one dropped expires no later than any older one kept |
| `CustomerSessions.RedisService.IsCustomerSessionValid` | src/common/redis/redis.service.ts:89-93 | true iff the session is a member that has not expired |
| `CustomerSessions.AuthService.IssueCustomerTokens` | src/modules/auth/auth.service.ts:283-298 | a fresh session and a fresh refresh token stored under it |
| `CustomerSessions.AuthService.LoginCustomer` | src/modules/auth/auth.service.ts:122-124 | a login is such an issue, for a day or, remembered, thirty |
| `CustomerSessions.AuthService.RefreshToken` | src/modules/auth/auth.service.ts:194-207 | a pair is granted iff the token verifies and is the one stored; otherwise nothing changes |
| `CustomerSessions.AuthService.RefreshCustomerToken` | src/modules/auth/auth.service.ts:209-233 | the old session and token are removed and a new pair is issued iff the presented token is the one stored |
| `CustomerSessions.AuthService.LogoutCustomer` | src/modules/auth/auth.service.ts:267-271 | the session and its refresh token are removed |
| `CustomerSessions.AuthService.ClearAfterReset` | src/modules/auth/auth.service.ts:359 | all sessions and refresh tokens of the customer are removed |
| `CustomerSessions.EachTokenExchangedOnce` | src/modules/auth/auth.service.ts:209-233 | over every run no refresh token is exchanged twice |
| `CustomerSessions.RunsKeepCap` | src/common/redis/redis.service.ts:69-87 | over every run a customer never has more than five sessions |
| `CustomerSessions.ResetRevokesEverything` | src/modules/auth/auth.service.ts:350-360 | after a reset no refresh token issued to the customer before is ever exchanged and no earlier session is ever valid |
| `CustomerSessions.SurvivesLoginIff` | src/common/redis/redis.service.ts:80-85 | a live session survives the customer's next login iff it is not the earliest of five |
| `CustomerSessions.LoginKeepsTokens` | src/modules/auth/auth.service.ts:283-298 | a login leaves every refresh token issued before it as exchangeable as it was |
| `CustomerSessions.EvictedSessionKeepsRefreshTokenIff` | src/common/redis/redis.service.ts:80-85 | a login takes an exchangeable token's live session away and leaves the token iff the session is the earliest of five |
| `CustomerSessions.LoginAddsAToken` | src/modules/auth/auth.service.ts:283-298 | a login adds one exchangeable token, so there are more than five after it iff there were at least five before |
| `CustomerSessions.LoginsPileUpTokens` | src/modules/auth/auth.service.ts:283-298 | n logins add n exchangeable tokens and leave at most five sessions |
| `CustomerSessions.LoginDelivers` | src/modules/auth/auth.service.ts:283-298 | a session valid for five hours and a token exchangeable for a day or thirty |
| `CustomerSessions.RefreshDelivers` | src/modules/auth/auth.service.ts:209-233 | an exchange ends the old session and token, gives new ones for five hours and thirty days, and changes no other token |
| `CustomerSessions.LogoutDelivers` | src/modules/auth/auth.service.ts:267-271 | a logout ends just that session and its token |
| `CustomerSessions.ResetDelivers` | src/modules/auth/auth.service.ts:359 | a reset leaves the customer without sessions and tokens and everybody else as they were |
| `EmployeeSessions.EmployeeAuth.RefreshEmployeeToken` | src/modules/auth/auth.service.ts:235-250 | granted iff the token is the stored one; the old active token is blacklisted and a fresh one activated |
| `EmployeeSessions.EmployeeAuth.IssueEmployeeTokens` | src/modules/auth/auth.service.ts:300-319 | likewise on login, with a new refresh token |
| `EmployeeSessions.EmployeeAuth.Validate` | src/modules/auth/strategies/jwt.strategy.ts:36-54 | accepts iff unexpired, not blacklisted and the active token of its employee |
| `EmployeeSessions.EmployeeAuth.LogoutEmployee` | src/modules/auth/auth.service.ts:272-278 | behind the guard: blacklists the token and removes the active and refresh keys |
| `EmployeeSessions.RunsKeepSingleSession` | src/modules/auth/auth.service.ts:300-319 | in every reachable state at most one access token per employee is unexpired and not blacklisted, and the guard accepts exactly those |
| `EmployeeSessions.NewSessionEndsEarlierOnes` | src/modules/auth/auth.service.ts:303-310 | a login or refresh ends every earlier session of the employee for good |
| `EmployeeSessions.UnguardedLogoutSafeIff` | src/modules/auth/auth.service.ts:273-277 | without the guard, a logout keeps the next login exclusive iff it was handed the active token or there was none |
| `EmployeeSessions.LoginDelivers` | src/modules/auth/auth.service.ts:300-319 | an access token accepted for five hours and a refresh token for a day or thirty |
| `EmployeeSessions.RefreshDelivers` | src/modules/auth/auth.service.ts:235-250 | another access token for five hours, the refresh token as it was; or nothing |
| `EmployeeSessions.LogoutDelivers` | src/modules/auth/auth.service.ts:272-278 | the token and the employee's refresh token end at once, nobody else's |
| `Rfm.LowScoresAreFew` | src/modules/reports/reports-compute.service.ts:154-161 | at most k fifths of the values score k or less, for any values and any k |
| `Rfm.ScoresAreMonotone` | src/modules/reports/reports-compute.service.ts:154-161 | a higher value never scores lower |
| `Rfm.OrderDoesNotMatter` | src/modules/reports/reports-compute.service.ts:148-152 | sorting the values first changes no score |
| `Rfm.SnapshotQuintiles` | src/modules/reports/reports-compute.service.ts:163-175 | the bound for frequency and money scores of a snapshot, and the mirrored one for recency |
| `Rfm.ScoreIs` | src/modules/reports/reports-compute.service.ts:154-161 | a value scores 1 to 5, and more than k iff more than k fifths of the values are at most it |
| `Rfm.ExtremesScore` | src/modules/reports/reports-compute.service.ts:170-173 | the longest absence scores 1, the highest frequency and value 5 |
| `Rfm.FirstPassing` | src/modules/reports/reports-compute.service.ts:12-21 | the label given is the first of the table whose test the scores pass |
| `Rfm.ShadowedIffNew` | src/modules/reports/reports-compute.service.ts:12-21 | all in-range scores passing a label's test pass an earlier one iff the label is New, shadowed by Potential |
| `UniqueCodes.MakeUnique` | src/modules/products/products.service.ts:516-523 | ends after at most one suffixed candidate more than there are existing codes, with the first candidate not among them |
| `UniqueCodes.MakeUniqueSlug` | src/modules/products/products.service.ts:516-523 | the same for slugs |
| `UniqueCodes.MakeUniqueMa` | src/modules/products/products.service.ts:525-532 | the same for product codes, which fit 255 characters while fewer than 9999 codes exist |
| `UniqueCodes.MakeUniqueSku` | src/modules/products/products.service.ts:534-541 | the same for SKUs, which fit 100 characters |
| `UniqueCodes.CandidateReads` | src/modules/products/products.service.ts:516-541 | a later candidate is the stem, a hyphen and decimal digits that read as its number |
| `UniqueCodes.SliceKeepsFront` | src/modules/products/products.service.ts:525-541 | a slice keeps the front of a string that is too long |
| `UniqueCodes.DecimalInjective` | src/modules/products/products.service.ts:520 | different counters give different suffixes |
| `UniqueCodes.FitsIff` | src/modules/products/products.service.ts:525-541 | a suffixed code of full length fits its column iff the counter is below 10000 |

## Left out

- Controllers, DTO mapping, mail, media, CMS, exports, raw-SQL reports, logging and audit text: input, output or presentation only.
- Stock and batch movements, returns, warranty and payment callbacks: they rest on InventoryService, BatchService, ReturnsWorkflowService and the gateways, which are not part of this model.
- The exchange-delivery step of the returns flow, which writes an order status directly, bypassing the transition table.
- Races inside one service call: every call is one atomic step.
- recordUsage, admin edits of a promotion's or catalog item's limit, and creating or deleting catalog items, are not steps of the runs.
- Deriving slugs from names: slugs are inputs. Display levels and other descriptive category fields.
- Fractional shipping fees, fractional dong and floating point: integers and exact rationals stand for them. Amounts the database returns as text are taken as numbers.
- Checkout.MaterialiseEffects: the one place where that matters is the fallback action, whose amount the source adds without converting it, so that a fallback discount next to another discount or a coupon would be joined to it as text; the reconciliation of AssembleOrder and PlaceOrder is stated for the number it stands for.
- Splitting and trimming of spec text, diacritics and case folding: tokens and names are modelled as already normalised.
- JSON parsing of condition values: conditions carry typed values.
- The rendered parts of a cart entry (labels, unmet reasons, bundle progress).
- Categories.AssertNoFlagOnDescendants: stated where the walk ends, which WalkEndsInAnyOrderIff and UnflaggedWalkEndsIff characterise; elsewhere the source never returns.
- Categories.CategoriesService.Update: stated where its search ends on the rows as listed, for the same reason. It assumes that the parent id assigned by the update is what is saved; the source also loads the old parent as a relation, and which of the two the ORM prefers is not visible in this code.
- CategoryGraph.ResolveDescendantIdsUnguarded: stated where it ends, which LevelsEndIff shows to be exactly off a cycle.
- Checkout.PlaceOrder: the results of its queries are inputs; cart clearing and stock updates are not modelled.
- OrderQuota.OrdersService.PlaceOrder: of checkout only the coupon's quota checks; Purchases connects it with the rest.
- FlashStock.RunsNeverOversell: edits of a flash sale's limit are not steps.
- CustomerSessions.RunsKeepCap: the 30-day expiry of whole Redis keys is a step that may drop a customer's sessions or refresh tokens at any time.
- EmployeeSessions.RunsKeepSingleSession: uses the default token lifetimes, the same for the token and its Redis key.
- Retention cohorts, revenue and inventory-health jobs: aggregation in SQL.
