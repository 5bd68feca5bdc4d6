/** Which promotions are applied, shown and taken, in terms of the ids in the cart and the bounds set. */
module Eligibility {
  import opened Wrappers
  import opened Sums
  import opened Promotions
  import opened Stacking

  // -- Scopes and conditions, by what they name -------------------------------

  /** The promotion is for everything, or for a category, brand or variant of the cart. */
  predicate OpenTo(scopes: seq<Scope>, ctx: Context) {
    || scopes == []
    || GlobalScope in scopes
    || (exists id :: id in ctx.categoryIds && CategoryScope(Some(id)) in scopes)
    || (exists id :: id in ctx.brandIds && BrandScope(Some(id)) in scopes)
    || (exists i :: i in ctx.items && VariantScope(Some(i.variantId)) in scopes)
  }

  lemma {:induction false} ScopeIff(scopes: seq<Scope>, ctx: Context)
    ensures CheckScope(scopes, ctx) <==> OpenTo(scopes, ctx)
  {
    if n :| 0 <= n < |scopes| && ScopeMatches(scopes[n], ctx) {
      var s := scopes[n];
      assert s in scopes;
      match s {
        case CategoryScope(r) =>
          var id := r.value;
          assert id in ctx.categoryIds && CategoryScope(Some(id)) in scopes;
        case BrandScope(r) =>
          var id := r.value;
          assert id in ctx.brandIds && BrandScope(Some(id)) in scopes;
        case VariantScope(r) =>
          var k :| 0 <= k < |ctx.items| && ctx.items[k].variantId == r.value;
          var i := ctx.items[k];
          assert i in ctx.items && VariantScope(Some(i.variantId)) in scopes;
        case _ =>
      }
    }
    if OpenTo(scopes, ctx) && scopes != [] { SomeScopeMatches(scopes, ctx); }
  }

  lemma {:induction false} SomeScopeMatches(scopes: seq<Scope>, ctx: Context)
    requires OpenTo(scopes, ctx) && scopes != []
    ensures exists n :: 0 <= n < |scopes| && ScopeMatches(scopes[n], ctx)
  {
    var s :=
      if GlobalScope in scopes then GlobalScope
      else if id :| id in ctx.categoryIds && CategoryScope(Some(id)) in scopes then CategoryScope(Some(id))
      else if id :| id in ctx.brandIds && BrandScope(Some(id)) in scopes then BrandScope(Some(id))
      else var i :| i in ctx.items && VariantScope(Some(i.variantId)) in scopes; VariantScope(Some(i.variantId));
    assert ScopeMatches(s, ctx);
    var n :| 0 <= n < |scopes| && scopes[n] == s;
  }

  /** At least, at most and equal all include the bound itself; any other operator asks nothing. */
  predicate Within(x: int, op: Operator, bound: int) {
    (op == Gte ==> !(x < bound)) && (op == Lte ==> !(x > bound)) && (op == Eq ==> !(x < bound) && !(x > bound))
  }

  function Quantity(): CartItem -> int { (i: CartItem) => i.quantity }

  /** The condition is met: bounds on value and total quantity, one of the ids or all of them. */
  predicate Met(d: Condition, ctx: Context) {
    match d
    case MinOrderValue(op, n) => Within(ctx.subtotal, op, n)
    case MinItemQuantity(op, n) => Within(Sum(Quantity(), ctx.items), op, n)
    case FirstOrderOnly => ctx.isFirstOrder
    case PaymentMethodIn(ms) => exists m :: m in ms && ctx.paymentMethod == Some(m)
    case PlatformIs(name) => ctx.platform == Some(name)
    case RequiredCategories(op, ids) =>
      && (op == AnyInCart ==> exists id :: id in ids && id in ctx.categoryIds)
      && (op == AllInCart ==> !exists id :: id in ids && id !in ctx.categoryIds)
    case RequiredProducts(op, ids) =>
      && (op == AnyInCart ==> exists i :: i in ctx.items && i.variantId in ids)
      && (op == AllInCart ==> forall id :: id in ids ==> exists i :: i in ctx.items && i.variantId == id)
    case OtherCondition => true
  }

  lemma {:induction false} InCartIff(id: int, ctx: Context)
    ensures InCart(id, ctx) <==> exists i :: i in ctx.items && i.variantId == id
  {
    if k :| 0 <= k < |ctx.items| && ctx.items[k].variantId == id { assert ctx.items[k] in ctx.items; }
  }

  lemma {:induction false} MetIff(d: Condition, ctx: Context)
    ensures ConditionHolds(d, ctx) <==> Met(d, ctx)
  {
    match d {
      case MinItemQuantity(_, _) => SumSame(Quantity(), QuantityOf(), ctx.items);
      case RequiredCategories(op, ids) => CategoriesIff(op, ids, ctx);
      case RequiredProducts(op, ids) => ProductsIff(op, ids, ctx);
      case _ =>
    }
  }

  lemma {:induction false} CategoriesIff(op: Operator, ids: seq<int>, ctx: Context)
    ensures ConditionHolds(RequiredCategories(op, ids), ctx) <==> Met(RequiredCategories(op, ids), ctx)
  {
    if id :| id in ids && id in ctx.categoryIds {
      var n :| 0 <= n < |ids| && ids[n] == id;
      assert ids[n] in ctx.categoryIds;
    }
    if id :| id in ids && id !in ctx.categoryIds {
      var n :| 0 <= n < |ids| && ids[n] == id;
      assert ids[n] !in ctx.categoryIds;
    }
    if n :| 0 <= n < |ids| && ids[n] !in ctx.categoryIds {
      var id := ids[n];
      assert id in ids && id !in ctx.categoryIds;
    }
    if n :| 0 <= n < |ids| && ids[n] in ctx.categoryIds {
      var id := ids[n];
      assert id in ids && id in ctx.categoryIds;
    }
  }

  lemma {:induction false} ProductsIff(op: Operator, ids: seq<int>, ctx: Context)
    ensures ConditionHolds(RequiredProducts(op, ids), ctx) <==> Met(RequiredProducts(op, ids), ctx)
  {
    forall id ensures InCart(id, ctx) <==> exists i :: i in ctx.items && i.variantId == id { InCartIff(id, ctx); }
    if i :| i in ctx.items && i.variantId in ids {
      var n :| 0 <= n < |ids| && ids[n] == i.variantId;
      assert InCart(ids[n], ctx);
    }
    if n :| 0 <= n < |ids| && InCart(ids[n], ctx) {
      var i :| i in ctx.items && i.variantId == ids[n];
      assert i.variantId in ids;
    }
    if forall n :: 0 <= n < |ids| ==> InCart(ids[n], ctx) {
      forall id | id in ids ensures exists i :: i in ctx.items && i.variantId == id {
        var n :| 0 <= n < |ids| && ids[n] == id;
        assert InCart(ids[n], ctx);
      }
    }
    if forall id :: id in ids ==> exists i :: i in ctx.items && i.variantId == id {
      forall n | 0 <= n < |ids| ensures InCart(ids[n], ctx) { assert ids[n] in ids; }
    }
  }

  predicate AllMet(conditions: seq<Condition>, ctx: Context) {
    forall d :: d in conditions ==> Met(d, ctx)
  }

  lemma {:induction false} AllMetIff(conditions: seq<Condition>, ctx: Context)
    ensures CheckConditions(conditions, ctx) <==> AllMet(conditions, ctx)
  {
    forall n | 0 <= n < |conditions| ensures ConditionHolds(conditions[n], ctx) <==> Met(conditions[n], ctx) {
      MetIff(conditions[n], ctx);
    }
    if CheckConditions(conditions, ctx) {
      forall d | d in conditions ensures Met(d, ctx) {
        var n :| 0 <= n < |conditions| && conditions[n] == d;
        assert ConditionHolds(conditions[n], ctx);
      }
    }
    if AllMet(conditions, ctx) {
      forall n | 0 <= n < |conditions| ensures ConditionHolds(conditions[n], ctx) {
        assert conditions[n] in conditions;
      }
    }
  }

  predicate Qualifies(p: Promotion, ctx: Context) {
    OpenTo(p.scopes, ctx) && AllMet(p.conditions, ctx)
  }

  lemma {:induction false} ApplicableIff(p: Promotion, ctx: Context)
    ensures Applicable(p, ctx) <==> Qualifies(p, ctx)
  {
    ScopeIff(p.scopes, ctx);
    AllMetIff(p.conditions, ctx);
  }

  /** It qualifies and takes something off. */
  predicate Saves(p: Promotion, ctx: Context) {
    Qualifies(p, ctx) && p.action.Some? && ActionDiscount(p.action.value, ctx) > 0
  }

  lemma {:induction false} LiveIff(p: Promotion, ctx: Context)
    ensures Live(p, ctx) <==> Saves(p, ctx)
  {
    ApplicableIff(p, ctx);
  }

  // -- The three loops --------------------------------------------------------

  /** No exclusive promotion before i saves anything. */
  predicate NoneExclusiveBefore(ps: seq<Promotion>, ctx: Context, i: nat)
    requires i <= |ps|
  {
    forall j :: 0 <= j < i && ps[j].exclusive ==> !Saves(ps[j], ctx)
  }

  predicate DistinctIds(ps: seq<Promotion>) {
    forall a, b :: 0 <= a < b < |ps| ==> ps[a].id != ps[b].id
  }

  /** A promotion is stacked exactly when it qualifies, saves something and comes before or with the
      first exclusive one that does; with what its action takes off. */
  lemma {:induction false} StackedIff(ps: seq<Promotion>, ctx: Context, i: nat, amount: int)
    requires DistinctIds(ps) && i < |ps|
    ensures Applied(ps[i].id, amount) in Stacked(ps, ctx) <==>
            Saves(ps[i], ctx) && NoneExclusiveBefore(ps, ctx, i) && amount == ActionDiscount(ps[i].action.value, ctx)
  {
    forall j | 0 <= j < |ps| ensures Live(ps[j], ctx) <==> Saves(ps[j], ctx) { LiveIff(ps[j], ctx); }
    StackedMembers(ps, ctx, Applied(ps[i].id, amount));
  }

  lemma {:induction false} CollectedInOrder<T>(ds: seq<Decision<T>>, n: nat, a: nat, b: nat) returns (i: nat, j: nat)
    requires n <= |ds| && a < b < |Collect(ds, n)|
    ensures i < j < n && ds[i].out == Some(Collect(ds, n)[a]) && ds[j].out == Some(Collect(ds, n)[b])
  {
    var before := Collect(ds, n - 1);
    if b < |before| {
      i, j := CollectedInOrder(ds, n - 1, a, b);
    } else {
      var x := before[a];
      CollectedIsReached(ds, n - 1, x);
      assert x in before;
      i :| 0 <= i < n - 1 && Reached(ds, i) && ds[i].out == Some(x);
      j := n - 1;
    }
  }

  /** The stack keeps the order of the promotions. */
  lemma {:induction false} StackedInOrder(ps: seq<Promotion>, ctx: Context, a: nat, b: nat) returns (i: nat, j: nat)
    requires a < b < |Stacked(ps, ctx)|
    ensures i < j < |ps| && Stacked(ps, ctx)[a].promotionId == ps[i].id && Stacked(ps, ctx)[b].promotionId == ps[j].id
  {
    i, j := CollectedInOrder(StackDecisions(ps, ctx), |ps|, a, b);
  }

  /** A purchase for the gift is in the cart, and the gift is named. */
  predicate Gives(p: Promotion, ctx: Context) {
    && Qualifies(p, ctx) && p.action.Some? && p.action.value.BxgyAction?
    && BxgyApplications(p.action.value.bxgy, ctx) > 0 && p.action.value.bxgy.getProductId.Some?
  }

  predicate SavesMoney(p: Promotion, ctx: Context) {
    Saves(p, ctx) && !p.action.value.BxgyAction?
  }

  lemma {:induction false} EvaluatedIff(p: Promotion, ctx: Context)
    ensures var e := EvaluateSinglePromotion(p, ctx);
            && (e.Some? <==> SavesMoney(p, ctx) || Gives(p, ctx))
            && (e.Some? ==> e.value.promotionId == p.id)
            && (e.Some? && SavesMoney(p, ctx) ==> e.value.amount == ActionDiscount(p.action.value, ctx))
            && (e.Some? && Gives(p, ctx) ==> e.value.amount == 0)
  {
    ApplicableIff(p, ctx);
  }

  /** Checkout applies a promotion exactly when it saves money or gives a gift, the cart is not
      empty, and no exclusive one before it saves money; gifts stop nobody. */
  lemma {:induction false} AppliedAtCheckoutIff(ps: seq<Promotion>, ctx: Context, i: nat)
    requires DistinctIds(ps) && i < |ps|
    ensures (exists e :: e in CheckoutEffects(ps, ctx) && e.promotionId == ps[i].id) <==>
            && ctx.items != [] && (SavesMoney(ps[i], ctx) || Gives(ps[i], ctx))
            && (forall j :: 0 <= j < i && ps[j].exclusive ==> !SavesMoney(ps[j], ctx))
  {
    var ds := CheckoutDecisions(ps, ctx);
    forall j | 0 <= j < |ps|
      ensures ds[j].out.Some? <==> SavesMoney(ps[j], ctx) || Gives(ps[j], ctx)
      ensures ds[j].out.Some? ==> ds[j].out.value.promotionId == ps[j].id
      ensures ds[j].stops <==> ps[j].exclusive && SavesMoney(ps[j], ctx)
    {
      EvaluatedIff(ps[j], ctx);
    }
    forall e ensures e in Collect(ds, |ps|) <==> exists j :: 0 <= j < |ps| && Reached(ds, j) && ds[j].out == Some(e) {
      CollectedIsReached(ds, |ps|, e);
    }
    if Reached(ds, i) && ds[i].out.Some? && ctx.items != [] {
      assert ds[i].out.value in CheckoutEffects(ps, ctx);
    }
  }

  /** The cart shows a promotion as active, exclusive or not, when it qualifies and saves something
      or is free shipping. */
  predicate Shows(p: Promotion, ctx: Context) {
    && Qualifies(p, ctx) && p.action.Some?
    && (ActionDiscount(p.action.value, ctx) > 0 || p.action.value.FreeShippingAction?)
  }

  lemma {:induction false} ShownDecision(p: Promotion, ctx: Context)
    ensures var d := CartDecision(p, ctx);
            && (d.out == Some(CartEntry(p.id, Auto, Unmet, 0)) <==> OpenTo(p.scopes, ctx) && !AllMet(p.conditions, ctx))
            && (d.out.Some? && d.out.value.status == Active <==> Shows(p, ctx))
            && (d.out.Some? ==> d.out.value.promotionId == p.id && d.out.value.status in {Active, Unmet})
            && (d.out.Some? && d.out.value.status == Active
                ==> d.out.value.amount == ActionDiscount(p.action.value, ctx))
            && (d.stops <==> p.exclusive && Shows(p, ctx))
  {
    ScopeIff(p.scopes, ctx);
    AllMetIff(p.conditions, ctx);
  }

  /** An entry of the cart is active exactly when the promotion is shown, unmet exactly when it is
      open to the cart and a condition fails, and either only up to the first exclusive one shown. */
  lemma {:induction false} ShownInCartIff(ps: seq<Promotion>, ctx: Context, i: nat)
    requires DistinctIds(ps) && i < |ps|
    ensures var es := Collect(CartDecisions(ps, ctx), |ps|);
            var reached := forall j :: 0 <= j < i && ps[j].exclusive ==> !Shows(ps[j], ctx);
            && ((exists e :: e in es && e.promotionId == ps[i].id && e.status == Active) <==>
                reached && Shows(ps[i], ctx))
            && ((exists e :: e in es && e.promotionId == ps[i].id && e.status == Unmet) <==>
                reached && OpenTo(ps[i].scopes, ctx) && !AllMet(ps[i].conditions, ctx))
  {
    var ds := CartDecisions(ps, ctx);
    forall j | 0 <= j < i ensures ds[j].stops <==> ps[j].exclusive && Shows(ps[j], ctx) { ShownDecision(ps[j], ctx); }
    ShownDecision(ps[i], ctx);
    forall e: CartEntry
      ensures e in Collect(ds, |ps|) && e.promotionId == ps[i].id <==> Reached(ds, i) && ds[i].out == Some(e)
    {
      OnlyOwnCartEntry(ps, ctx, i, e);
    }
    if Reached(ds, i) && ds[i].out.Some? {
      var e := ds[i].out.value;
      assert e in Collect(ds, |ps|) && e.promotionId == ps[i].id;
    }
  }

  lemma {:induction false} OnlyOwnCartEntry(ps: seq<Promotion>, ctx: Context, i: nat, e: CartEntry)
    requires DistinctIds(ps) && i < |ps|
    ensures var ds := CartDecisions(ps, ctx);
            e in Collect(ds, |ps|) && e.promotionId == ps[i].id <==> Reached(ds, i) && ds[i].out == Some(e)
  {
    var ds := CartDecisions(ps, ctx);
    CollectedIsReached(ds, |ps|, e);
    forall j | 0 <= j < |ps| ensures ds[j].out == Some(e) ==> e.promotionId == ps[j].id { ShownDecision(ps[j], ctx); }
  }

  // -- Coupons ----------------------------------------------------------------

  /** A coupon is shown as exhausted exactly when its uses have reached its limit, as active exactly
      when it is not and qualifies. */
  lemma {:induction false} CouponShownIff(k: Coupon, ctx: Context)
    ensures var e, action := PreviewCoupon(Some(k), ctx), k.promo.action;
            var exhausted := k.quota.limit.Some? && !(k.quota.usageCount < k.quota.limit.value);
            && (e.status == Exhausted <==> exhausted)
            && (e.status == Active <==> !exhausted && Qualifies(k.promo, ctx))
            && (e.status == Active ==> e.amount == if action.Some? then ActionDiscount(action.value, ctx) else 0)
            && (e.status != Active ==> e.amount == 0)
  {
    ApplicableIff(k.promo, ctx);
  }

  /** Checkout takes a coupon exactly when a use is left in all and for the customer and its
      conditions are met, whatever its scope; the first of these to fail is the reason given. */
  lemma {:induction false} CouponTakenIff(k: Coupon, customerUses: int, ctx: Context)
    ensures var r := ApplyCoupon(Some(k), customerUses, ctx);
            var left := k.quota.limit.Some? ==> k.quota.usageCount < k.quota.limit.value;
            var leftToCustomer := k.quota.perCustomerLimit.Some? ==> customerUses < k.quota.perCustomerLimit.value;
            && (r.Ok? <==> left && leftToCustomer && AllMet(k.promo.conditions, ctx))
            && (r == Err(QuotaUsedUp) <==> !left)
            && (r == Err(CustomerLimitReached) <==> left && !leftToCustomer)
            && (r.Ok? ==> var a := k.promo.action;
                          r.value.amount == if a.Some? then ActionDiscount(a.value, ctx) else 0)
  {
    AllMetIff(k.promo.conditions, ctx);
  }
}
