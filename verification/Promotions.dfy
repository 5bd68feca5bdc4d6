/** Scope, conditions and discount arithmetic of a single promotion. Money is whole VND. */
module Promotions {
  import opened Wrappers
  import opened Sums

  datatype CartItem = CartItem(variantId: int, quantity: int, price: int)
  datatype ProductInfo = ProductInfo(productId: int, categoryId: Option<int>)

  /** Absent id lists and an absent product lookup are empty; an absent shipping fee is 0. */
  datatype Context = Context(items: seq<CartItem>, subtotal: int, isFirstOrder: bool,
                             paymentMethod: Option<string>, platform: Option<string>,
                             categoryIds: seq<int>, brandIds: seq<int>,
                             products: map<int, ProductInfo>, shippingFee: int)

  // Reference ids are numbers parsed from text; None is text that is no number.
  datatype Scope = GlobalScope | CategoryScope(refId: Option<int>) | BrandScope(refId: Option<int>)
                 | VariantScope(refId: Option<int>) | OtherScope

  datatype Operator = Gte | Lte | Eq | AllInCart | AnyInCart | OtherOperator

  datatype Condition =
    | MinOrderValue(op: Operator, amount: int)
    | MinItemQuantity(op: Operator, amount: int)
    | FirstOrderOnly
    | PaymentMethodIn(methods: seq<string>)
    | PlatformIs(name: string)
    | RequiredCategories(op: Operator, ids: seq<int>)
    | RequiredProducts(op: Operator, ids: seq<int>)
    | OtherCondition

  datatype RefKind = VariantRef | ProductRef | CategoryRef | OtherRef
  datatype Component = Component(kind: RefKind, refId: Option<int>, minQuantity: int)

  // Percentages are in hundredths of a percent: 10000 is 100%.
  datatype Discount = Percent(hundredths: int) | Fixed(amount: int) | NoDiscount
  datatype Tier = Tier(minQuantity: int, maxQuantity: Option<int>, discount: Discount)

  datatype Bxgy = Bxgy(buyQty: int, buyProductId: Option<int>, eligible: seq<int>, maxApplications: Option<int>,
                       getQty: int, getProductId: Option<int>, getPct: int)

  datatype Action =
    | PercentageAction(hundredths: int, cap: Option<int>)
    | FixedCartAction(amount: int)
    | FreeShippingAction
    | BulkAction(tiers: seq<Tier>)
    | BundleAction(components: seq<Component>, discount: Discount)
    | BxgyAction(bxgy: Bxgy)
    | OtherAction(amount: int)

  datatype Promotion = Promotion(id: Id, scopes: seq<Scope>, conditions: seq<Condition>,
                                 action: Option<Action>, exclusive: bool)

  function Max(a: int, b: int): int { if a > b then a else b }
  function Min(a: int, b: int): int { if a < b then a else b }

  /** Math.round(n / d): the nearest integer, halves going up. */
  function RoundDiv(n: int, d: int): int
    requires d > 0
  {
    (2 * n + d) / (2 * d)
  }

  // -- Applicability ----------------------------------------------------------

  predicate ScopeMatches(s: Scope, ctx: Context) {
    match s
    case GlobalScope => true
    case CategoryScope(r) => r.Some? && r.value in ctx.categoryIds
    case BrandScope(r) => r.Some? && r.value in ctx.brandIds
    case VariantScope(r) => r.Some? && exists i :: 0 <= i < |ctx.items| && ctx.items[i].variantId == r.value
    case OtherScope => false
  }

  predicate CheckScope(scopes: seq<Scope>, ctx: Context) {
    scopes == [] || exists i :: 0 <= i < |scopes| && ScopeMatches(scopes[i], ctx)
  }

  predicate Compare(actual: int, expected: int, op: Operator) {
    match op
    case Gte => actual >= expected
    case Lte => actual <= expected
    case Eq => actual == expected
    case _ => true
  }

  function QuantityOf(): CartItem -> int { (i: CartItem) => i.quantity }

  predicate InCart(id: int, ctx: Context) {
    exists i :: 0 <= i < |ctx.items| && ctx.items[i].variantId == id
  }

  predicate ConditionHolds(c: Condition, ctx: Context) {
    match c
    case MinOrderValue(op, n) => Compare(ctx.subtotal, n, op)
    case MinItemQuantity(op, n) => Compare(Sum(QuantityOf(), ctx.items), n, op)
    case FirstOrderOnly => ctx.isFirstOrder
    case PaymentMethodIn(ms) => ctx.paymentMethod.Some? && ctx.paymentMethod.value in ms
    case PlatformIs(p) => ctx.platform == Some(p)
    case RequiredCategories(op, ids) =>
      (op == AnyInCart ==> exists i :: 0 <= i < |ids| && ids[i] in ctx.categoryIds) &&
      (op == AllInCart ==> forall i :: 0 <= i < |ids| ==> ids[i] in ctx.categoryIds)
    case RequiredProducts(op, ids) =>
      (op == AnyInCart ==> exists i :: 0 <= i < |ids| && InCart(ids[i], ctx)) &&
      (op == AllInCart ==> forall i :: 0 <= i < |ids| ==> InCart(ids[i], ctx))
    case OtherCondition => true
  }

  predicate CheckConditions(conditions: seq<Condition>, ctx: Context) {
    forall i :: 0 <= i < |conditions| ==> ConditionHolds(conditions[i], ctx)
  }

  // -- A growing cart keeps its promotions ------------------------------------

  /** A condition with no upper bound on the order value or the quantity. */
  predicate Growing(c: Condition) {
    (c.MinOrderValue? || c.MinItemQuantity?) ==> c.op !in {Lte, Eq}
  }

  /** ctx' is the same customer's cart with items added or reordered, and the ids that go with them. */
  ghost predicate Grows(ctx: Context, ctx': Context) {
    && multiset(ctx.items) <= multiset(ctx'.items) && ctx.subtotal <= ctx'.subtotal
    && (forall i :: i in ctx'.items ==> i.quantity >= 0)
    && (forall id :: id in ctx.categoryIds ==> id in ctx'.categoryIds)
    && (forall id :: id in ctx.brandIds ==> id in ctx'.brandIds)
    && ctx.isFirstOrder == ctx'.isFirstOrder && ctx.paymentMethod == ctx'.paymentMethod && ctx.platform == ctx'.platform
  }

  lemma {:induction false} StillInCart(id: int, ctx: Context, ctx': Context)
    requires Grows(ctx, ctx') && InCart(id, ctx)
    ensures InCart(id, ctx')
  {
    var i :| 0 <= i < |ctx.items| && ctx.items[i].variantId == id;
    var item := ctx.items[i];
    assert item in multiset(ctx'.items);
    assert item in ctx'.items;
  }

  lemma {:induction false} ScopeStillMatches(s: Scope, ctx: Context, ctx': Context)
    requires Grows(ctx, ctx') && ScopeMatches(s, ctx)
    ensures ScopeMatches(s, ctx')
  {
    if s.VariantScope? {
      StillInCart(s.refId.value, ctx, ctx');
    } else if s.CategoryScope? || s.BrandScope? {
      var id := s.refId.value;
      assert id in ctx.categoryIds ==> id in ctx'.categoryIds;
      assert id in ctx.brandIds ==> id in ctx'.brandIds;
    }
  }

  lemma {:induction false} ConditionStillHolds(c: Condition, ctx: Context, ctx': Context)
    requires Grows(ctx, ctx') && Growing(c) && ConditionHolds(c, ctx)
    ensures ConditionHolds(c, ctx')
  {
    if c.MinItemQuantity? {
      SumGrows(QuantityOf(), ctx.items, ctx'.items);
    } else if c.RequiredProducts? {
      forall id | InCart(id, ctx) ensures InCart(id, ctx') { StillInCart(id, ctx, ctx'); }
    } else if c.RequiredCategories? {
      forall i | 0 <= i < |c.ids| && c.ids[i] in ctx.categoryIds ensures c.ids[i] in ctx'.categoryIds {
        var id := c.ids[i];
        assert id in ctx'.categoryIds;
      }
    }
  }

  /** Adding items never takes a promotion away whose conditions set no upper bound. */
  lemma {:induction false} ApplicableInLargerCart(scopes: seq<Scope>, conditions: seq<Condition>, ctx: Context,
                                                  ctx': Context)
    requires Grows(ctx, ctx') && forall i :: 0 <= i < |conditions| ==> Growing(conditions[i])
    requires CheckScope(scopes, ctx) && CheckConditions(conditions, ctx)
    ensures CheckScope(scopes, ctx') && CheckConditions(conditions, ctx')
  {
    forall i | 0 <= i < |scopes| && ScopeMatches(scopes[i], ctx) ensures ScopeMatches(scopes[i], ctx') {
      ScopeStillMatches(scopes[i], ctx, ctx');
    }
    forall i | 0 <= i < |conditions| ensures ConditionHolds(conditions[i], ctx') {
      ConditionStillHolds(conditions[i], ctx, ctx');
    }
  }

  // -- Bundles ----------------------------------------------------------------

  predicate Matches(c: Component, products: map<int, ProductInfo>, item: CartItem) {
    c.refId.Some? &&
    match c.kind
    case VariantRef => item.variantId == c.refId.value
    case ProductRef => item.variantId in products && products[item.variantId].productId == c.refId.value
    case CategoryRef => item.variantId in products && products[item.variantId].categoryId == c.refId
    case OtherRef => false
  }

  function MatchedQuantity(c: Component, products: map<int, ProductInfo>): CartItem -> int {
    (i: CartItem) => if Matches(c, products, i) then i.quantity else 0
  }

  function Got(c: Component, ctx: Context): int {
    Sum(MatchedQuantity(c, ctx.products), ctx.items)
  }

  method CountBundleComponent(c: Component, ctx: Context) returns (qty: int)
    ensures qty == Got(c, ctx)
  {
    if c.refId.None? {
      SumZero(MatchedQuantity(c, ctx.products), ctx.items);
      return 0;
    }
    qty := 0;
    for n := 0 to |ctx.items|
      invariant qty == Sum(MatchedQuantity(c, ctx.products), ctx.items[..n])
    {
      SumPrefix(MatchedQuantity(c, ctx.products), ctx.items, n);
      var item := ctx.items[n];
      match c.kind {
        case VariantRef => if item.variantId == c.refId.value { qty := qty + item.quantity; }
        case ProductRef =>
          if item.variantId in ctx.products && ctx.products[item.variantId].productId == c.refId.value {
            qty := qty + item.quantity;
          }
        case CategoryRef =>
          if item.variantId in ctx.products && ctx.products[item.variantId].categoryId == c.refId {
            qty := qty + item.quantity;
          }
        case OtherRef =>
      }
    }
    assert ctx.items[..|ctx.items|] == ctx.items;
  }

  function Needed(c: Component): int { Max(1, c.minQuantity) }

  /** The number of full sets: the smallest number of times any component's requirement fits. */
  function BundleCount(cs: seq<Component>, ctx: Context): int
    requires cs != []
  {
    var last := Got(cs[|cs| - 1], ctx) / Needed(cs[|cs| - 1]);
    if |cs| == 1 then last else Min(BundleCount(cs[..|cs| - 1], ctx), last)
  }

  /** k sets can be made exactly when k times each requirement is in the cart. */
  lemma {:induction false} BundleCountIsGreatest(cs: seq<Component>, ctx: Context, k: int)
    requires cs != []
    ensures k <= BundleCount(cs, ctx) <==> forall c :: c in cs ==> k * Needed(c) <= Got(c, ctx)
  {
    var init, last := cs[..|cs| - 1], cs[|cs| - 1];
    assert cs == init + [last];
    FloorIsGreatest(k, Got(last, ctx), Needed(last));
    if |cs| > 1 { BundleCountIsGreatest(init, ctx, k); }
  }

  /** Cheapest matching listed price; 0 stands for "none seen yet". */
  function UnitPrice(c: Component, products: map<int, ProductInfo>, items: seq<CartItem>): int {
    if items == [] then 0
    else
      var u, item := UnitPrice(c, products, items[..|items| - 1]), items[|items| - 1];
      if Matches(c, products, item) && (u == 0 || item.price < u) then item.price else u
  }

  lemma {:induction false} UnitPriceIsCheapest(c: Component, products: map<int, ProductInfo>, items: seq<CartItem>)
    requires forall i :: i in items ==> i.price > 0
    ensures UnitPrice(c, products, items) >= 0
    ensures forall i :: i in items && Matches(c, products, i) ==> 0 < UnitPrice(c, products, items) <= i.price
    ensures UnitPrice(c, products, items) > 0
            ==> exists i :: i in items && Matches(c, products, i) && UnitPrice(c, products, items) == i.price
  {
    if items != [] {
      var init, last := items[..|items| - 1], items[|items| - 1];
      assert items == init + [last];
      UnitPriceIsCheapest(c, products, init);
      assert last in items;
    }
  }

  function PriceOfOne(ctx: Context): Component -> int {
    (c: Component) => UnitPrice(c, ctx.products, ctx.items) * c.minQuantity
  }

  /** Listed price of one set. */
  function ComboBase(cs: seq<Component>, ctx: Context): int {
    Sum(PriceOfOne(ctx), cs)
  }

  function BundleTotal(count: int, base: int, d: Discount): int {
    match d
    case Percent(h) => RoundDiv(base * h * count, 10000)
    case Fixed(a) => a * count
    case NoDiscount => 0
  }

  function BundleDiscount(cs: seq<Component>, d: Discount, ctx: Context): int {
    if cs == [] || BundleCount(cs, ctx) <= 0 then 0
    else Min(BundleTotal(BundleCount(cs, ctx), ComboBase(cs, ctx), d), ctx.subtotal)
  }

  /** Stops at the first component that allows no set at all. */
  method ApplyBundleDiscount(cs: seq<Component>, d: Discount, ctx: Context) returns (r: int)
    ensures r == BundleDiscount(cs, d, ctx)
  {
    if cs == [] { return 0; }
    var bundleCount := None;
    for n := 0 to |cs|
      invariant n == 0 <==> bundleCount == None
      invariant n > 0 ==> bundleCount == Some(BundleCount(cs[..n], ctx))
    {
      var got := CountBundleComponent(cs[n], ctx);
      var possible := got / Max(1, cs[n].minQuantity);
      if bundleCount.None? || possible < bundleCount.value { bundleCount := Some(possible); }
      assert cs[..n + 1][..n] == cs[..n];
      if bundleCount == Some(0) {
        MoreComponentsFewerBundles(cs, n + 1, ctx);
        return 0;
      }
    }
    assert cs[..|cs|] == cs;
    if bundleCount.value <= 0 { return 0; }
    var comboBase := 0;
    for n := 0 to |cs|
      invariant comboBase == Sum(PriceOfOne(ctx), cs[..n])
    {
      var unitPrice := 0;
      for m := 0 to |ctx.items|
        invariant unitPrice == UnitPrice(cs[n], ctx.products, ctx.items[..m])
      {
        assert ctx.items[..m + 1][..m] == ctx.items[..m];
        if Matches(cs[n], ctx.products, ctx.items[m]) {
          if unitPrice == 0 || ctx.items[m].price < unitPrice { unitPrice := ctx.items[m].price; }
        }
      }
      assert ctx.items[..|ctx.items|] == ctx.items;
      SumPrefix(PriceOfOne(ctx), cs, n);
      comboBase := comboBase + unitPrice * cs[n].minQuantity;
    }
    assert cs[..|cs|] == cs;
    var total := 0;
    match d {
      case Percent(h) => total := RoundDiv(comboBase * h * bundleCount.value, 10000);
      case Fixed(amount) => total := amount * bundleCount.value;
      case NoDiscount =>
    }
    return Min(total, ctx.subtotal);
  }

  lemma {:induction false} MoreComponentsFewerBundles(cs: seq<Component>, n: nat, ctx: Context)
    requires 0 < n <= |cs|
    ensures BundleCount(cs, ctx) <= BundleCount(cs[..n], ctx)
    decreases |cs|
  {
    if n == |cs| {
      assert cs[..n] == cs;
    } else {
      MoreComponentsFewerBundles(cs[..|cs| - 1], n, ctx);
      assert cs[..|cs| - 1][..n] == cs[..n];
    }
  }

  // -- A bundle never discounts more than the cart is worth -------------------

  function LineValue(): CartItem -> int { (i: CartItem) => i.price * i.quantity }

  predicate MatchesAny(cs: seq<Component>, products: map<int, ProductInfo>, i: CartItem) {
    exists n :: 0 <= n < |cs| && Matches(cs[n], products, i)
  }

  /** What the items matching some component of cs are worth. */
  function ValueOf(cs: seq<Component>, products: map<int, ProductInfo>): CartItem -> int {
    (i: CartItem) => if MatchesAny(cs, products, i) then i.price * i.quantity else 0
  }

  lemma {:induction false} MatchesSplit(cs: seq<Component>, products: map<int, ProductInfo>, i: CartItem)
    requires cs != []
    ensures MatchesAny(cs, products, i) <==>
            MatchesAny(cs[..|cs| - 1], products, i) || Matches(cs[|cs| - 1], products, i)
  {}

  /** No cart item serves two components. */
  ghost predicate Disjoint(cs: seq<Component>, ctx: Context) {
    forall a, b, i :: 0 <= a < b < |cs| && i in ctx.items && Matches(cs[a], ctx.products, i)
                      ==> !Matches(cs[b], ctx.products, i)
  }

  ghost predicate PricedCart(ctx: Context) {
    forall i :: i in ctx.items ==> i.price > 0 && i.quantity >= 0
  }

  /** What the items cost at the prices they carry. The cart's subtotal is just this; checkout
      passes its goods total instead, at current or flash-sale prices. */
  function ListedTotal(items: seq<CartItem>): int { Sum(LineValue(), items) }

  /** Quantity times the cheapest price is at most what the matching items cost. */
  lemma {:induction false} CheapestTimesQuantity(c: Component, products: map<int, ProductInfo>,
                                                 items: seq<CartItem>, u: int)
    requires forall i :: i in items && Matches(c, products, i) ==> u <= i.price && i.quantity >= 0
    ensures Sum(MatchedQuantity(c, products), items) * u <= Sum(ValueOf([c], products), items)
  {
    if items != [] {
      var init, last := items[..|items| - 1], items[|items| - 1];
      assert items == init + [last];
      CheapestTimesQuantity(c, products, init, u);
      MatchesSplit([c], products, last);
      if Matches(c, products, last) { MulLe(u, last.price, last.quantity); }
      Distribute(Sum(MatchedQuantity(c, products), init), last.quantity, u);
    }
  }

  lemma {:induction false} OneComponent(c: Component, ctx: Context, k: nat)
    requires PricedCart(ctx) && k * Needed(c) <= Got(c, ctx)
    ensures k * PriceOfOne(ctx)(c) <= Sum(ValueOf([c], ctx.products), ctx.items)
  {
    var u := UnitPrice(c, ctx.products, ctx.items);
    UnitPriceIsCheapest(c, ctx.products, ctx.items);
    CheapestTimesQuantity(c, ctx.products, ctx.items, u);
    SetsCost(k, c.minQuantity, Needed(c), Got(c, ctx), u);
  }

  lemma {:induction false} SetsCost(k: nat, m: int, needed: int, got: int, u: nat)
    requires m <= needed && k * needed <= got
    ensures k * (u * m) <= got * u
  {}

  lemma {:induction false} SetsWorthMatchedItems(cs: seq<Component>, ctx: Context, k: nat)
    requires PricedCart(ctx) && Disjoint(cs, ctx)
    requires forall c :: c in cs ==> k * Needed(c) <= Got(c, ctx)
    ensures k * ComboBase(cs, ctx) <= Sum(ValueOf(cs, ctx.products), ctx.items)
  {
    if cs == [] {
      SumZero(ValueOf(cs, ctx.products), ctx.items);
    } else {
      var init, last := cs[..|cs| - 1], cs[|cs| - 1];
      assert cs == init + [last];
      SetsWorthMatchedItems(init, ctx, k);
      OneComponent(last, ctx, k);
      forall i | i in ctx.items
        ensures ValueOf(cs, ctx.products)(i) == ValueOf(init, ctx.products)(i) + ValueOf([last], ctx.products)(i)
      {
        MatchesSplit(cs, ctx.products, i);
        MatchesSplit([last], ctx.products, i);
        assert forall n :: 0 <= n < |init| ==> init[n] == cs[n];
      }
      SumOfPair(ValueOf(init, ctx.products), ValueOf([last], ctx.products), ValueOf(cs, ctx.products), ctx.items);
      Distribute(ComboBase(init, ctx), PriceOfOne(ctx)(last), k);
    }
  }

  /** All the sets together cost at most what the items cost, so at most any subtotal that covers them. */
  lemma {:induction false} BundlesWithinSubtotal(cs: seq<Component>, ctx: Context)
    requires cs != [] && PricedCart(ctx) && Disjoint(cs, ctx)
    requires BundleCount(cs, ctx) >= 0
    ensures BundleCount(cs, ctx) * ComboBase(cs, ctx) <= ListedTotal(ctx.items)
    ensures ListedTotal(ctx.items) <= ctx.subtotal ==> BundleCount(cs, ctx) * ComboBase(cs, ctx) <= ctx.subtotal
  {
    var k := BundleCount(cs, ctx);
    BundleCountIsGreatest(cs, ctx, k);
    SetsWorthMatchedItems(cs, ctx, k);
    forall i | i in ctx.items ensures ValueOf(cs, ctx.products)(i) <= LineValue()(i) {
      MulLe(0, i.price, i.quantity);
    }
    SumLe(ValueOf(cs, ctx.products), LineValue(), ctx.items);
  }

  /** The final clamp is idle for every percentage of at most 100%, rounding included, exactly when
      the subtotal is not negative and all the sets together cost at most that. */
  lemma {:induction false} ClampIdleIff(cs: seq<Component>, ctx: Context)
    requires cs != [] && BundleCount(cs, ctx) > 0
    ensures var k, base := BundleCount(cs, ctx), ComboBase(cs, ctx);
            (forall h :: 0 <= h <= 10000 ==>
               BundleDiscount(cs, Percent(h), ctx) == BundleTotal(k, base, Percent(h))) <==>
            0 <= ctx.subtotal && k * base <= ctx.subtotal
  {
    var k, base := BundleCount(cs, ctx), ComboBase(cs, ctx);
    if 0 <= ctx.subtotal && k * base <= ctx.subtotal {
      forall h | 0 <= h <= 10000 ensures BundleTotal(k, base, Percent(h)) <= ctx.subtotal {
        PercentOf(k * base, h, ctx.subtotal);
        Distribute(base, h, k);
      }
    } else {
      Distribute(base, 10000, k);
      assert BundleTotal(k, base, Percent(10000)) == k * base;
      assert BundleTotal(k, base, Percent(0)) == 0;
      assert BundleDiscount(cs, Percent(10000), ctx) <= ctx.subtotal;
      assert BundleDiscount(cs, Percent(0), ctx) <= ctx.subtotal;
    }
  }

  /** So a percentage of at most 100% stays within what the items cost, and is never clamped when
      the subtotal covers that. */
  lemma {:induction false} PercentBundleNeverClamped(cs: seq<Component>, h: int, ctx: Context)
    requires cs != [] && PricedCart(ctx) && Disjoint(cs, ctx) && 0 <= h <= 10000
    requires BundleCount(cs, ctx) > 0
    ensures var total := BundleTotal(BundleCount(cs, ctx), ComboBase(cs, ctx), Percent(h));
            && total <= ListedTotal(ctx.items)
            && (ListedTotal(ctx.items) <= ctx.subtotal ==> BundleDiscount(cs, Percent(h), ctx) == total)
  {
    var k, base := BundleCount(cs, ctx), ComboBase(cs, ctx);
    BundlesWithinSubtotal(cs, ctx);
    forall i | i in ctx.items ensures LineValue()(i) >= 0 { MulLe(0, i.price, i.quantity); }
    SumNonNegative(LineValue(), ctx.items);
    PercentOf(k * base, h, ListedTotal(ctx.items));
    Distribute(base, h, k);
    ClampIdleIff(cs, ctx);
  }

  lemma {:induction false} PercentOf(x: int, h: int, s: int)
    requires x <= s && 0 <= s && 0 <= h <= 10000
    ensures RoundDiv(x * h, 10000) <= s
  {
    if x >= 0 { MulLe(h, 10000, x); } else { MulLe(x, 0, h); }
  }

  function Offer(items: seq<CartItem>, subtotal: int, products: map<int, ProductInfo>): Context {
    Context(items, subtotal, false, None, None, [], [], products, 0)
  }

  /** The bound is guaranteed only with positive prices: a zero price hides the cheapest item. */
  lemma {:induction false} BoundNeedsPositivePrices()
    ensures var ctx := Offer([CartItem(1, 5, 0), CartItem(2, 1, 100)], 100,
                             map[1 := ProductInfo(1, Some(9)), 2 := ProductInfo(2, Some(9))]);
            var cs := [Component(CategoryRef, Some(9), 1)];
            Disjoint(cs, ctx) && ListedTotal(ctx.items) == ctx.subtotal &&
            BundleCount(cs, ctx) * ComboBase(cs, ctx) > ctx.subtotal
  {
    var p := map[1 := ProductInfo(1, Some(9)), 2 := ProductInfo(2, Some(9))];
    var a, b := CartItem(1, 5, 0), CartItem(2, 1, 100);
    var c := Component(CategoryRef, Some(9), 1);
    var ctx := Offer([a, b], 100, p);
    assert [a, b][..1] == [a] && [a][..0] == [];
    SumPush(LineValue(), [a], b);
    SumPush(LineValue(), [], a);
    SumPush(MatchedQuantity(c, p), [a], b);
    SumPush(MatchedQuantity(c, p), [], a);
    SumPush(PriceOfOne(ctx), [], c);
    assert [a] + [b] == [a, b] && [] + [a] == [a] && [] + [c] == [c];
    assert UnitPrice(c, p, [a]) == 0;
    assert UnitPrice(c, p, [a, b]) == 100;
  }

  lemma {:induction false} OneMatch(c: Component, ctx: Context, i: CartItem)
    requires ctx.items == [i] && Matches(c, ctx.products, i)
    ensures Got(c, ctx) == i.quantity && PriceOfOne(ctx)(c) == i.price * c.minQuantity
    ensures ListedTotal(ctx.items) == i.price * i.quantity
  {
    SumPush(MatchedQuantity(c, ctx.products), [], i);
    SumPush(LineValue(), [], i);
    assert [] + [i] == [i] && [i][..0] == [];
    assert UnitPrice(c, ctx.products, []) == 0;
    assert UnitPrice(c, ctx.products, [i]) == i.price;
  }

  /** And only with components that share no item: one item may serve two of them. */
  lemma {:induction false} BoundNeedsDisjointComponents()
    ensures var ctx := Offer([CartItem(1, 1, 100)], 100, map[1 := ProductInfo(7, None)]);
            var cs := [Component(VariantRef, Some(1), 1), Component(ProductRef, Some(7), 1)];
            PricedCart(ctx) && ListedTotal(ctx.items) == ctx.subtotal &&
            BundleCount(cs, ctx) * ComboBase(cs, ctx) > ctx.subtotal
  {
    var i := CartItem(1, 1, 100);
    var ctx := Offer([i], 100, map[1 := ProductInfo(7, None)]);
    var c1, c2 := Component(VariantRef, Some(1), 1), Component(ProductRef, Some(7), 1);
    OneMatch(c1, ctx, i);
    OneMatch(c2, ctx, i);
    SumPush(PriceOfOne(ctx), [c1], c2);
    SumPush(PriceOfOne(ctx), [], c1);
    assert [c1] + [c2] == [c1, c2] && [] + [c1] == [c1];
    assert [c1, c2][..1] == [c1];
  }

  /** The clamp is sure to be idle only with a subtotal that covers the sets: at a flash-sale total of
      50 it takes half of a 100% discount. */
  lemma {:induction false} ClampNeedsCoveringSubtotal()
    ensures var ctx := Offer([CartItem(1, 1, 100)], 50, map[]);
            var cs := [Component(VariantRef, Some(1), 1)];
            PricedCart(ctx) && Disjoint(cs, ctx) &&
            BundleTotal(BundleCount(cs, ctx), ComboBase(cs, ctx), Percent(10000)) == 100 &&
            BundleDiscount(cs, Percent(10000), ctx) == 50
  {
    var i, c := CartItem(1, 1, 100), Component(VariantRef, Some(1), 1);
    var ctx := Offer([i], 50, map[]);
    OneMatch(c, ctx, i);
    SumPush(PriceOfOne(ctx), [], c);
    assert [] + [c] == [c];
  }

  // -- Buy X get Y ------------------------------------------------------------

  predicate CountsAsBuy(b: Bxgy, products: map<int, ProductInfo>, item: CartItem) {
    if b.buyProductId.Some? then
      item.variantId in products && products[item.variantId].productId == b.buyProductId.value
    else if |b.eligible| > 0 then
      item.variantId in products && products[item.variantId].productId in b.eligible
    else true
  }

  function BuyQuantity(b: Bxgy, products: map<int, ProductInfo>): CartItem -> int {
    (i: CartItem) => if CountsAsBuy(b, products, i) then i.quantity else 0
  }

  function Bought(b: Bxgy, ctx: Context): int {
    Sum(BuyQuantity(b, ctx.products), ctx.items)
  }

  method CountBxgyBuyQuantity(b: Bxgy, ctx: Context) returns (qty: int)
    ensures qty == Bought(b, ctx)
  {
    qty := 0;
    for n := 0 to |ctx.items|
      invariant qty == Sum(BuyQuantity(b, ctx.products), ctx.items[..n])
    {
      SumPrefix(BuyQuantity(b, ctx.products), ctx.items, n);
      var item := ctx.items[n];
      var known := item.variantId in ctx.products;
      if b.buyProductId.Some? {
        if known && ctx.products[item.variantId].productId == b.buyProductId.value { qty := qty + item.quantity; }
      } else if |b.eligible| > 0 {
        if known && ctx.products[item.variantId].productId in b.eligible { qty := qty + item.quantity; }
      } else {
        qty := qty + item.quantity;
      }
    }
    assert ctx.items[..|ctx.items|] == ctx.items;
  }

  function BxgyApplications(b: Bxgy, ctx: Context): int {
    var raw := Bought(b, ctx) / Max(1, b.buyQty);
    Max(0, if b.maxApplications.Some? then Min(raw, b.maxApplications.value) else raw)
  }

  /** k applications are granted exactly when k purchases fit and the cap allows them. */
  lemma {:induction false} ApplicationsAreGreatest(b: Bxgy, ctx: Context, k: int)
    requires k > 0
    ensures k <= BxgyApplications(b, ctx) <==>
            k * Max(1, b.buyQty) <= Bought(b, ctx) && (b.maxApplications.Some? ==> k <= b.maxApplications.value)
  {
    FloorIsGreatest(k, Bought(b, ctx), Max(1, b.buyQty));
  }

  /** The lookup is built from the variants in the cart, so that of a larger cart says more. */
  predicate KeepsLookup(p: map<int, ProductInfo>, p': map<int, ProductInfo>) {
    forall v :: v in p ==> v in p' && p'[v] == p[v]
  }

  lemma {:induction false} NoneNegativeInPart(items: seq<CartItem>, items': seq<CartItem>)
    requires multiset(items) <= multiset(items')
    requires forall i :: i in items' ==> i.quantity >= 0
    ensures forall i :: i in items ==> i.quantity >= 0
  {
    forall i | i in items ensures i.quantity >= 0 {
      assert i in multiset(items');
      assert i in items';
    }
  }

  /** Growing or reordering the cart lowers neither the number of sets nor the applications. */
  lemma {:induction false} MoreItemsNeverHurt(cs: seq<Component>, b: Bxgy, ctx: Context, ctx': Context)
    requires cs != [] && KeepsLookup(ctx.products, ctx'.products)
    requires multiset(ctx.items) <= multiset(ctx'.items)
    requires forall i :: i in ctx'.items ==> i.quantity >= 0
    ensures BundleCount(cs, ctx) <= BundleCount(cs, ctx')
    ensures BxgyApplications(b, ctx) <= BxgyApplications(b, ctx')
  {
    NoneNegativeInPart(ctx.items, ctx'.items);
    var k := BundleCount(cs, ctx);
    BundleCountIsGreatest(cs, ctx, k);
    forall c | c in cs ensures k * Needed(c) <= Got(c, ctx') {
      SumLe(MatchedQuantity(c, ctx.products), MatchedQuantity(c, ctx'.products), ctx.items);
      SumGrows(MatchedQuantity(c, ctx'.products), ctx.items, ctx'.items);
    }
    BundleCountIsGreatest(cs, ctx', k);
    SumLe(BuyQuantity(b, ctx.products), BuyQuantity(b, ctx'.products), ctx.items);
    SumGrows(BuyQuantity(b, ctx'.products), ctx.items, ctx'.items);
    var n := BxgyApplications(b, ctx);
    if n > 0 {
      ApplicationsAreGreatest(b, ctx, n);
      ApplicationsAreGreatest(b, ctx', n);
    }
  }

  /** Price of the first cart item of the gift product, 0 when none is in the cart. */
  function GiftPrice(giftId: int, products: map<int, ProductInfo>, items: seq<CartItem>): int {
    if items == [] then 0
    else if items[0].variantId in products && products[items[0].variantId].productId == giftId then items[0].price
    else GiftPrice(giftId, products, items[1..])
  }

  function GiftPct(b: Bxgy): int { Min(100, Max(0, b.getPct)) }

  function BxgyDiscount(b: Bxgy, ctx: Context): int {
    var n := BxgyApplications(b, ctx);
    if n <= 0 || b.getQty <= 0 || b.getProductId.None? then 0
    else
      var price := GiftPrice(b.getProductId.value, ctx.products, ctx.items);
      if price <= 0 then 0 else RoundDiv(price * b.getQty * n * GiftPct(b), 100)
  }

  // -- Bulk tiers and the discount of any action ------------------------------

  predicate TierApplies(t: Tier, qty: int) {
    qty >= t.minQuantity && (t.maxQuantity.None? || qty <= t.maxQuantity.value)
  }

  /** The first of the applicable tiers with the highest minimum. */
  function BestTier(tiers: seq<Tier>, qty: int): (r: Option<Tier>)
    ensures r.None? <==> forall t :: t in tiers ==> !TierApplies(t, qty)
    ensures r.Some? ==> r.value in tiers && TierApplies(r.value, qty)
    ensures r.Some? ==> forall t :: t in tiers && TierApplies(t, qty) ==> t.minQuantity <= r.value.minQuantity
  {
    if tiers == [] then None
    else
      var best, last := BestTier(tiers[..|tiers| - 1], qty), tiers[|tiers| - 1];
      assert tiers == tiers[..|tiers| - 1] + [last];
      if TierApplies(last, qty) && (best.None? || best.value.minQuantity < last.minQuantity) then Some(last) else best
  }

  function BulkDiscount(tiers: seq<Tier>, ctx: Context): int {
    match BestTier(tiers, Sum(QuantityOf(), ctx.items))
    case None => 0
    case Some(t) =>
      match t.discount
      case Percent(h) => RoundDiv(ctx.subtotal * h, 10000)
      case Fixed(a) => Min(a, ctx.subtotal)
      case NoDiscount => Min(0, ctx.subtotal)
  }

  function ActionDiscount(a: Action, ctx: Context): int {
    match a
    case PercentageAction(h, cap) =>
      if cap.Some? && cap.value != 0 then RoundDiv(Min(ctx.subtotal * h, cap.value * 10000), 10000)
      else RoundDiv(ctx.subtotal * h, 10000)
    case FixedCartAction(n) => Min(n, ctx.subtotal)
    case FreeShippingAction => Max(0, ctx.shippingFee)
    case BulkAction(tiers) => BulkDiscount(tiers, ctx)
    case BundleAction(cs, d) => BundleDiscount(cs, d, ctx)
    case BxgyAction(b) => BxgyDiscount(b, ctx)
    case OtherAction(n) => n
  }

  /** So much of so little rounds to more than all of it. */
  predicate RoundsAbove(h: int, subtotal: int) { subtotal * (h - 10000) >= 5000 }

  /** The discount exceeds what it is taken off. Fixed, bundle and fixed bulk discounts are clamped;
      percentages and the fallback action are not. */
  predicate Overshoots(a: Action, ctx: Context) {
    match a
    case PercentageAction(h, cap) =>
      RoundsAbove(h, ctx.subtotal) && (cap.Some? && cap.value != 0 ==> cap.value > ctx.subtotal)
    case BulkAction(tiers) =>
      var best := BestTier(tiers, Sum(QuantityOf(), ctx.items));
      best.Some? && best.value.discount.Percent? && RoundsAbove(best.value.discount.hundredths, ctx.subtotal)
    case FreeShippingAction => ctx.shippingFee > ctx.subtotal
    case OtherAction(n) => n > ctx.subtotal
    case _ => false
  }

  lemma {:induction false} RoundedMin(x: int, cap: int)
    ensures RoundDiv(Min(x, cap * 10000), 10000) == Min(RoundDiv(x, 10000), cap)
  {}

  lemma {:induction false} RoundsAboveIff(s: int, h: int)
    ensures RoundDiv(s * h, 10000) > s <==> RoundsAbove(h, s)
  {
    var x := s * h;
    FloorIsGreatest(s + 1, 2 * x + 10000, 20000);
    assert s * (h - 10000) == x - 10000 * s;
  }

  /** An action other than a gift takes more off than there is exactly when it overshoots. */
  lemma {:induction false} ExceedsSubtotalIff(a: Action, ctx: Context)
    requires ctx.subtotal >= 0 && !a.BxgyAction?
    ensures ActionDiscount(a, ctx) > ctx.subtotal <==> Overshoots(a, ctx)
  {
    match a {
      case PercentageAction(h, cap) =>
        RoundsAboveIff(ctx.subtotal, h);
        if cap.Some? { RoundedMin(ctx.subtotal * h, cap.value); }
      case BulkAction(tiers) =>
        var best := BestTier(tiers, Sum(QuantityOf(), ctx.items));
        if best.Some? && best.value.discount.Percent? { RoundsAboveIff(ctx.subtotal, best.value.discount.hundredths); }
      case _ =>
    }
  }

  // -- Quotas -----------------------------------------------------------------

  /** How often a promotion has been used and may be, in all and by one customer. */
  datatype Quota = Quota(usageCount: nat, limit: Option<nat>, perCustomerLimit: Option<nat>)
  datatype CouponError = UnknownCode | QuotaUsedUp | CustomerLimitReached | ConditionsNotMet

  predicate UsedUp(q: Quota) {
    q.limit.Some? && q.usageCount >= q.limit.value
  }

  predicate BelowPersonalLimit(q: Quota, customerUses: int) {
    q.perCustomerLimit.None? || customerUses < q.perCustomerLimit.value
  }

  /** Why checkout turns a code down, as far as quotas go; customerUses counts the customer's usage rows. */
  function QuotaError(found: Option<Quota>, customerUses: int): Option<CouponError> {
    if found.None? then Some(UnknownCode)
    else if UsedUp(found.value) then Some(QuotaUsedUp)
    else if !BelowPersonalLimit(found.value, customerUses) then Some(CustomerLimitReached)
    else None
  }
}
