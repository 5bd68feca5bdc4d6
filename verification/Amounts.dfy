/** What promotions take off, in quantities, prices and percentages alone. */
module Amounts {
  import opened Wrappers
  import opened Sums
  import opened Promotions
  import opened Stacking

  /** r is n / d to the nearest whole number, halves going up. */
  predicate Nearest(r: int, n: int, d: int) {
    2 * n - d < 2 * d * r <= 2 * n + d
  }

  /** r is the lesser of a and b. */
  predicate Lesser(r: int, a: int, b: int) {
    r <= a && r <= b && (r == a || r == b)
  }

  lemma {:induction false} RoundingIsNearest(n: int, d: int, r: int)
    requires d > 0
    ensures r == RoundDiv(n, d) <==> Nearest(r, n, d)
  {
    FloorIsGreatest(r, 2 * n + d, 2 * d);
    FloorIsGreatest(r + 1, 2 * n + d, 2 * d);
  }

  // -- What counts towards a bundle or a purchase -----------------------------

  function WithItem(ctx: Context, i: CartItem): Context { ctx.(items := ctx.items + [i]) }

  /** One more item in the cart counts towards a component with its whole quantity if its variant,
      or the product or category the lookup has for it, is the one referred to, else not at all. */
  lemma {:induction false} ItemCountsTowards(c: Component, ctx: Context, i: CartItem)
    ensures var more := Got(c, WithItem(ctx, i)) - Got(c, ctx);
            var known := i.variantId in ctx.products;
            && (c.kind == VariantRef && c.refId == Some(i.variantId) ==> more == i.quantity)
            && (c.kind == VariantRef && c.refId != Some(i.variantId) ==> more == 0)
            && (c.kind == ProductRef && known && c.refId == Some(ctx.products[i.variantId].productId)
                ==> more == i.quantity)
            && (c.kind == ProductRef && known && c.refId != Some(ctx.products[i.variantId].productId) ==> more == 0)
            && (c.kind == CategoryRef && known && c.refId.Some? && c.refId == ctx.products[i.variantId].categoryId
                ==> more == i.quantity)
            && (c.kind == CategoryRef && known && c.refId != ctx.products[i.variantId].categoryId ==> more == 0)
            && (c.kind in {ProductRef, CategoryRef} && !known ==> more == 0)
            && (c.kind == OtherRef || c.refId.None? ==> more == 0)
    ensures Got(c, ctx.(items := [])) == 0
  {
    SumPush(MatchedQuantity(c, ctx.products), ctx.items, i);
  }

  /** The same for what counts as bought: of the product asked for, of the eligible ones, or anything. */
  lemma {:induction false} ItemCountsAsBought(b: Bxgy, ctx: Context, i: CartItem)
    ensures var more := Bought(b, WithItem(ctx, i)) - Bought(b, ctx);
            var product := if i.variantId in ctx.products then Some(ctx.products[i.variantId].productId) else None;
            && (b.buyProductId.Some? && product == b.buyProductId ==> more == i.quantity)
            && (b.buyProductId.Some? && product != b.buyProductId ==> more == 0)
            && (b.buyProductId.None? && b.eligible == [] ==> more == i.quantity)
            && (b.buyProductId.None? && b.eligible != [] && product.Some? && product.value in b.eligible
                ==> more == i.quantity)
            && (b.buyProductId.None? && b.eligible != [] && (product.Some? ==> product.value !in b.eligible)
                ==> more == 0)
    ensures Bought(b, ctx.(items := [])) == 0
  {
    SumPush(BuyQuantity(b, ctx.products), ctx.items, i);
  }

  // -- Bundles ----------------------------------------------------------------

  /** k sets fit: the cart holds k times what each component asks for, and at least one of it per set. */
  predicate SetsFit(cs: seq<Component>, ctx: Context, k: nat) {
    forall c :: c in cs ==> k * c.minQuantity <= Got(c, ctx) && k <= Got(c, ctx)
  }

  lemma {:induction false} SetsFitIff(cs: seq<Component>, ctx: Context, k: nat)
    requires cs != []
    ensures SetsFit(cs, ctx, k) <==> k <= BundleCount(cs, ctx)
  {
    BundleCountIsGreatest(cs, ctx, k);
    forall c | c in cs ensures k * Needed(c) == if c.minQuantity > 1 then k * c.minQuantity else k {}
    forall c | c in cs ensures k * c.minQuantity <= k * Needed(c) && k <= k * Needed(c) {
      MulLe(c.minQuantity, Needed(c), k);
      MulLe(1, Needed(c), k);
    }
  }

  lemma {:induction false} CountIs(cs: seq<Component>, ctx: Context, k: nat)
    requires cs != [] && SetsFit(cs, ctx, k) && !SetsFit(cs, ctx, k + 1)
    ensures BundleCount(cs, ctx) == k
  {
    SetsFitIff(cs, ctx, k);
    SetsFitIff(cs, ctx, k + 1);
  }

  /** A fixed bundle discount is granted once for every set that fits, up to the subtotal. */
  lemma {:induction false} FixedBundleDelivers(cs: seq<Component>, amount: int, ctx: Context, k: nat)
    requires cs != [] && SetsFit(cs, ctx, k) && !SetsFit(cs, ctx, k + 1)
    ensures var r := BundleDiscount(cs, Fixed(amount), ctx);
            if k == 0 then r == 0 else Lesser(r, k * amount, ctx.subtotal)
  {
    CountIs(cs, ctx, k);
  }

  /** u is what the component costs: the price of a matching item, and no matching item costs less. */
  predicate Costs(c: Component, ctx: Context, u: int) {
    && (exists i :: i in ctx.items && Matches(c, ctx.products, i) && i.price == u)
    && (forall i :: i in ctx.items && Matches(c, ctx.products, i) ==> u <= i.price)
  }

  /** One set at these unit prices. */
  function SetPrice(cs: seq<Component>, us: seq<int>): int
    requires |us| == |cs|
  {
    if cs == [] then 0
    else SetPrice(cs[..|cs| - 1], us[..|cs| - 1]) + us[|cs| - 1] * cs[|cs| - 1].minQuantity
  }

  lemma {:induction false} SetPriceIsBase(cs: seq<Component>, ctx: Context, us: seq<int>)
    requires PricedCart(ctx) && |us| == |cs| && forall n :: 0 <= n < |cs| ==> Costs(cs[n], ctx, us[n])
    ensures ComboBase(cs, ctx) == SetPrice(cs, us)
  {
    if cs != [] {
      SetPriceIsBase(cs[..|cs| - 1], ctx, us[..|cs| - 1]);
      var c, u := cs[|cs| - 1], us[|cs| - 1];
      assert Costs(c, ctx, u);
      UnitPriceIsCheapest(c, ctx.products, ctx.items);
    }
  }

  /** A percentage of a bundle is that of all the sets that fit at their cheapest prices, to the
      nearest dong, up to the subtotal. */
  lemma {:induction false} PercentBundleDelivers(cs: seq<Component>, h: int, ctx: Context, k: nat, us: seq<int>, t: int)
    requires cs != [] && SetsFit(cs, ctx, k) && !SetsFit(cs, ctx, k + 1)
    requires PricedCart(ctx) && |us| == |cs| && forall n :: 0 <= n < |cs| ==> Costs(cs[n], ctx, us[n])
    requires Nearest(t, k * SetPrice(cs, us) * h, 10000)
    ensures var r := BundleDiscount(cs, Percent(h), ctx);
            if k == 0 then r == 0 else Lesser(r, t, ctx.subtotal)
  {
    CountIs(cs, ctx, k);
    SetPriceIsBase(cs, ctx, us);
    var base := SetPrice(cs, us);
    assert base * h * k == k * base * h by { Distribute(base, h, k); }
    RoundingIsNearest(base * h * k, 10000, t);
  }

  // -- The other kinds --------------------------------------------------------

  /** A percentage of the subtotal to the nearest dong, up to the cap if there is one. */
  lemma {:induction false} PercentageDelivers(h: int, cap: Option<int>, ctx: Context, t: int)
    requires Nearest(t, ctx.subtotal * h, 10000)
    ensures var r := ActionDiscount(PercentageAction(h, cap), ctx);
            if cap.None? || cap.value == 0 then r == t else Lesser(r, t, cap.value)
  {
    RoundingIsNearest(ctx.subtotal * h, 10000, t);
    if cap.Some? { RoundedMin(ctx.subtotal * h, cap.value); }
  }

  /** A fixed amount up to the subtotal; the shipping fee, if there is any; the fallback as it is. */
  lemma {:induction false} PlainAmountsDeliver(n: int, ctx: Context)
    ensures Lesser(ActionDiscount(FixedCartAction(n), ctx), n, ctx.subtotal)
    ensures ctx.shippingFee >= 0 ==> ActionDiscount(FreeShippingAction, ctx) == ctx.shippingFee
    ensures ctx.shippingFee < 0 ==> ActionDiscount(FreeShippingAction, ctx) == 0
    ensures ActionDiscount(OtherAction(n), ctx) == n
  {}

  function Quantity(): CartItem -> int { (i: CartItem) => i.quantity }

  /** The cart's total quantity lies in the tier's range. */
  predicate InRange(t: Tier, ctx: Context) {
    var total := Sum(Quantity(), ctx.items);
    t.minQuantity <= total && (t.maxQuantity.Some? ==> total <= t.maxQuantity.value)
  }

  /** The bulk tier in range with the highest minimum decides: its percentage of the subtotal to the
      nearest dong, or its amount up to the subtotal; without a tier in range nothing is taken off. */
  lemma {:induction false} BulkDelivers(tiers: seq<Tier>, ctx: Context, t: Tier, r': int)
    requires t in tiers && InRange(t, ctx)
    requires forall o :: o in tiers && InRange(o, ctx) && o != t ==> o.minQuantity < t.minQuantity
    requires t.discount.Percent? ==> Nearest(r', ctx.subtotal * t.discount.hundredths, 10000)
    ensures var r := ActionDiscount(BulkAction(tiers), ctx);
            match t.discount
            case Percent(_) => r == r'
            case Fixed(a) => Lesser(r, a, ctx.subtotal)
            case NoDiscount => Lesser(r, 0, ctx.subtotal)
  {
    SumSame(Quantity(), QuantityOf(), ctx.items);
    var best := BestTier(tiers, Sum(QuantityOf(), ctx.items));
    assert TierApplies(t, Sum(QuantityOf(), ctx.items));
    assert InRange(best.value, ctx);
    if t.discount.Percent? { RoundingIsNearest(ctx.subtotal * t.discount.hundredths, 10000, r'); }
  }

  lemma {:induction false} NoTierNoDiscount(tiers: seq<Tier>, ctx: Context)
    requires forall t :: t in tiers ==> !InRange(t, ctx)
    ensures ActionDiscount(BulkAction(tiers), ctx) == 0
  {
    SumSame(Quantity(), QuantityOf(), ctx.items);
    forall t | t in tiers ensures !TierApplies(t, Sum(QuantityOf(), ctx.items)) { assert !InRange(t, ctx); }
  }

  // -- Gifts ------------------------------------------------------------------

  /** The gift can be granted k times: k purchases are in the cart and the cap allows k. */
  predicate GiftsFit(b: Bxgy, ctx: Context, k: nat) {
    && k * b.buyQty <= Bought(b, ctx) && k <= Bought(b, ctx)
    && (b.maxApplications.Some? ==> k <= b.maxApplications.value)
  }

  lemma {:induction false} GiftsFitIff(b: Bxgy, ctx: Context, k: nat)
    requires k > 0
    ensures GiftsFit(b, ctx, k) <==> k <= BxgyApplications(b, ctx)
  {
    ApplicationsAreGreatest(b, ctx, k);
    MulLe(1, Max(1, b.buyQty), k);
    MulLe(b.buyQty, Max(1, b.buyQty), k);
    assert k * Max(1, b.buyQty) == if b.buyQty > 1 then k * b.buyQty else k;
  }

  /** Nothing fits, or n is the most that does. */
  predicate MostGifts(b: Bxgy, ctx: Context, n: nat) {
    !GiftsFit(b, ctx, n + 1) && (n > 0 ==> GiftsFit(b, ctx, n))
  }

  lemma {:induction false} ApplicationsAre(b: Bxgy, ctx: Context, n: nat)
    requires MostGifts(b, ctx, n)
    ensures BxgyApplications(b, ctx) == n
  {
    GiftsFitIff(b, ctx, n + 1);
    if n > 0 { GiftsFitIff(b, ctx, n); }
  }

  /** The percentage off a gift, held between 0 and 100. */
  predicate GiftPercent(b: Bxgy, pct: int) {
    && 0 <= pct <= 100
    && (0 <= b.getPct <= 100 ==> pct == b.getPct) && (b.getPct < 0 ==> pct == 0) && (b.getPct > 100 ==> pct == 100)
  }

  predicate IsProduct(id: int, ctx: Context, i: CartItem) {
    i.variantId in ctx.products && ctx.products[i.variantId].productId == id
  }

  lemma {:induction false} GiftPriceIsFirst(id: int, products: map<int, ProductInfo>, items: seq<CartItem>, at: nat)
    requires at <= |items|
    requires forall j :: 0 <= j < at ==>
               !(items[j].variantId in products && products[items[j].variantId].productId == id)
    requires at < |items| ==> items[at].variantId in products && products[items[at].variantId].productId == id
    ensures GiftPrice(id, products, items) == if at < |items| then items[at].price else 0
  {
    if at > 0 { GiftPriceIsFirst(id, products, items[1..], at - 1); }
  }

  /** The preview of a gift is its percentage of what all its pieces cost, at the price of the
      first item of that product in the cart, to the nearest dong; 0 if there is none. */
  lemma {:induction false} GiftPreviewDelivers(b: Bxgy, ctx: Context, n: nat, pct: int, at: nat, t: int)
    requires MostGifts(b, ctx, n) && GiftPercent(b, pct) && b.getProductId.Some?
    requires at <= |ctx.items| && forall j :: 0 <= j < at ==> !IsProduct(b.getProductId.value, ctx, ctx.items[j])
    requires at < |ctx.items| ==> IsProduct(b.getProductId.value, ctx, ctx.items[at]) && ctx.items[at].price > 0
    requires at < |ctx.items| ==> Nearest(t, ctx.items[at].price * b.getQty * n * pct, 100)
    ensures ActionDiscount(BxgyAction(b), ctx) == if at < |ctx.items| && n > 0 && b.getQty > 0 then t else 0
  {
    ApplicationsAre(b, ctx, n);
    GiftPriceIsFirst(b.getProductId.value, ctx.products, ctx.items, at);
    if at < |ctx.items| { RoundingIsNearest(ctx.items[at].price * b.getQty * n * pct, 100, t); }
  }

  /** What checkout hands over of a gift promotion that applies: nothing unless a purchase is in the
      cart and the gift is named, else so many pieces for every purchase at that percentage. */
  lemma {:induction false} GiftAtCheckoutDelivers(p: Promotion, b: Bxgy, ctx: Context, n: nat, pct: int)
    requires p.action == Some(BxgyAction(b)) && Applicable(p, ctx)
    requires MostGifts(b, ctx, n) && GiftPercent(b, pct)
    ensures EvaluateSinglePromotion(p, ctx) ==
            if n > 0 && b.getProductId.Some?
            then Some(Effect(BxgyKind, p.id, 0, Some(Gift(b.getProductId.value, b.getQty * n, pct))))
            else None
  {
    ApplicationsAre(b, ctx, n);
  }
}
