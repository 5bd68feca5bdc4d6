/** What the promotions of one checkout take off, counted over the promotions it gets to. */
module Discounts {
  import opened Wrappers
  import opened Sums
  import opened Promotions
  import opened Stacking
  import opened Checkout

  // -- Promotions checkout gets to --------------------------------------------

  /** One checkout: the cart, its goods total, the automatic promotions, the code entered, and the
      fee before promotions. */
  datatype Sale = Sale(cart: Cart, total: nat, ps: seq<Promotion>, coupon: Option<CouponRequest>,
                       firstOrder: bool, fee: nat)

  function At(s: Sale): Context { CheckoutContext(s.cart, s.total, s.firstOrder, s.fee) }

  function Effects(s: Sale): seq<Effect> { CheckoutEffects(s.ps, At(s)) }

  function CouponOf(s: Sale): Option<CouponUse> { CouponTaken(s.coupon, s.cart, s.total, s.firstOrder) }

  /** What the discounting rows of the order add up to. */
  function Taken(s: Sale): int {
    Sum(Discounting(), CouponRows(CouponOf(s)) + EffectRows(Effects(s)))
  }

  function KindOf(p: Promotion): Kind {
    match p.action
    case Some(FreeShippingAction) => FreeShippingKind
    case Some(BundleAction(_, _)) => BundleKind
    case Some(BxgyAction(_)) => BxgyKind
    case _ => OtherKind
  }

  /** Checkout gets to promotion i, which is live and of one of these kinds. */
  predicate Applies(ps: seq<Promotion>, ctx: Context, kinds: set<Kind>, i: nat)
    requires i < |ps|
  {
    Reached(CheckoutDecisions(ps, ctx), i) && Live(ps[i], ctx) && KindOf(ps[i]) in kinds
  }

  /** How many of the first n promotions checkout gets to, are live, and are of these kinds. */
  function CountReached(ps: seq<Promotion>, ctx: Context, kinds: set<Kind>, n: nat): nat
    requires n <= |ps|
  {
    if n == 0 then 0
    else CountReached(ps, ctx, kinds, n - 1) + if Applies(ps, ctx, kinds, n - 1) then 1 else 0
  }

  const ON_GOODS: set<Kind> := {BundleKind, OtherKind}

  /** The automatic discounts on the goods, counted over the promotions checkout gets to. */
  function AutoDiscounts(s: Sale): nat {
    if s.cart.items == [] then 0 else CountReached(s.ps, At(s), ON_GOODS, |s.ps|)
  }

  function Discounts(s: Sale): nat { AutoDiscounts(s) + if CouponOf(s).Some? then 1 else 0 }

  function FreeShippings(s: Sale): nat {
    if s.cart.items == [] then 0 else CountReached(s.ps, At(s), {FreeShippingKind}, |s.ps|)
  }

  /** Checkout gets to promotion i, and it takes off more than the goods are worth. */
  predicate ReachedOvershoots(ps: seq<Promotion>, ctx: Context, i: nat)
    requires i < |ps|
  {
    Applies(ps, ctx, ON_GOODS, i) && Overshoots(ps[i].action.value, ctx)
  }

  predicate CouponOvershoots(s: Sale) {
    CouponOf(s).Some? &&
    var p := s.coupon.value.found.value.promo;
    p.action.Some? && Overshoots(p.action.value, CouponContext(s.cart, s.total, s.firstOrder))
  }

  lemma {:induction false} EffectOf(p: Promotion, ctx: Context)
    ensures var e := EvaluateSinglePromotion(p, ctx);
            && (e.Some? ==> e.value.kind == KindOf(p) && WellFormedEffect(e.value))
            && (KindOf(p) != BxgyKind ==> (e.Some? <==> Live(p, ctx)))
            && (KindOf(p) != BxgyKind && e.Some? ==> e.value.amount == CalculateDiscount(p, ctx))
  {}

  lemma {:induction false} RowsOfMore(effects: seq<Effect>, e: Effect, f: PromoRow -> int)
    ensures Sum(f, EffectRows(effects + [e])) == Sum(f, EffectRows(effects)) + f(RowOf(e))
  {
    assert EffectRows(effects + [e]) == EffectRows(effects) + [RowOf(e)];
    SumPush(f, EffectRows(effects), RowOf(e));
  }

  /** What the rows of the first n promotions add up to. */
  function RowTotal(f: PromoRow -> int, ps: seq<Promotion>, ctx: Context, n: nat): int
    requires n <= |ps|
  {
    Sum(f, EffectRows(Collect(CheckoutDecisions(ps, ctx), n)))
  }

  lemma {:induction false} OneMoreRow(f: PromoRow -> int, kinds: set<Kind>, ps: seq<Promotion>, ctx: Context, n: nat)
    requires n < |ps| && BxgyKind !in kinds
    requires forall e: Effect :: WellFormedEffect(e) ==> f(RowOf(e)) == if e.kind in kinds then e.amount else 0
    ensures RowTotal(f, ps, ctx, n + 1)
            == RowTotal(f, ps, ctx, n) + if Applies(ps, ctx, kinds, n) then CalculateDiscount(ps[n], ctx) else 0
  {
    var ds := CheckoutDecisions(ps, ctx);
    EffectOf(ps[n], ctx);
    if Reached(ds, n) && ds[n].out.Some? {
      var e := ds[n].out.value;
      assert WellFormedEffect(e);
      RowsOfMore(Collect(ds, n), e, f);
    } else {
      assert Collect(ds, n + 1) == Collect(ds, n);
    }
  }

  /** None of the first n promotions overshoots. */
  predicate NoneOvershoots(ps: seq<Promotion>, ctx: Context, n: nat)
    requires n <= |ps|
  {
    forall i :: 0 <= i < n ==> !ReachedOvershoots(ps, ctx, i)
  }

  /** Some single discount takes off more than the goods are worth. */
  predicate SomeOvershoots(s: Sale) {
    CouponOvershoots(s) || (s.cart.items != [] && !NoneOvershoots(s.ps, At(s), |s.ps|))
  }

  /** What the first n promotions take off: nothing if none discounts, and at least 1 each. */
  lemma {:induction false} AtLeastOneEach(ps: seq<Promotion>, ctx: Context, n: nat)
    requires n <= |ps|
    ensures CountReached(ps, ctx, ON_GOODS, n) <= RowTotal(Discounting(), ps, ctx, n)
    ensures CountReached(ps, ctx, ON_GOODS, n) == 0
            ==> RowTotal(Discounting(), ps, ctx, n) == 0 && NoneOvershoots(ps, ctx, n)
  {
    if n > 0 {
      AtLeastOneEach(ps, ctx, n - 1);
      OneMoreRow(Discounting(), ON_GOODS, ps, ctx, n - 1);
    }
  }

  lemma {:induction false} AtMostTotal(ps: seq<Promotion>, ctx: Context, i: nat)
    requires i < |ps| && ctx.subtotal >= 0 && Applies(ps, ctx, ON_GOODS, i)
    ensures CalculateDiscount(ps[i], ctx) <= ctx.subtotal <==> !ReachedOvershoots(ps, ctx, i)
  {
    ExceedsSubtotalIff(ps[i].action.value, ctx);
  }

  lemma {:induction false} TakesAtMostTotal(ps: seq<Promotion>, ctx: Context, n: nat)
    requires n < |ps| && ctx.subtotal >= 0 && !ReachedOvershoots(ps, ctx, n)
    ensures RowTotal(Discounting(), ps, ctx, n + 1)
            <= RowTotal(Discounting(), ps, ctx, n) + if Applies(ps, ctx, ON_GOODS, n) then ctx.subtotal else 0
  {
    OneMoreRow(Discounting(), ON_GOODS, ps, ctx, n);
    if Applies(ps, ctx, ON_GOODS, n) { AtMostTotal(ps, ctx, n); }
  }

  lemma {:induction false} AtMostTotalEach(ps: seq<Promotion>, ctx: Context, n: nat)
    requires n <= |ps| && ctx.subtotal >= 0 && NoneOvershoots(ps, ctx, n)
    ensures RowTotal(Discounting(), ps, ctx, n) <= CountReached(ps, ctx, ON_GOODS, n) * ctx.subtotal
  {
    if n > 0 {
      AtMostTotalEach(ps, ctx, n - 1);
      TakesAtMostTotal(ps, ctx, n - 1);
      Distribute(CountReached(ps, ctx, ON_GOODS, n - 1), 1, ctx.subtotal);
    }
  }

  lemma {:induction false} FirstTaken(ps: seq<Promotion>, ctx: Context, n: nat)
    requires n < |ps| && ctx.subtotal >= 0
    requires Applies(ps, ctx, ON_GOODS, n) && CountReached(ps, ctx, ON_GOODS, n) == 0
    ensures RowTotal(Discounting(), ps, ctx, n + 1) <= ctx.subtotal <==> NoneOvershoots(ps, ctx, n + 1)
  {
    OneMoreRow(Discounting(), ON_GOODS, ps, ctx, n);
    AtLeastOneEach(ps, ctx, n);
    AtMostTotal(ps, ctx, n);
  }

  lemma {:induction false} NothingTaken(ps: seq<Promotion>, ctx: Context, n: nat)
    requires n < |ps| && !Applies(ps, ctx, ON_GOODS, n)
    ensures RowTotal(Discounting(), ps, ctx, n + 1) == RowTotal(Discounting(), ps, ctx, n)
    ensures NoneOvershoots(ps, ctx, n + 1) <==> NoneOvershoots(ps, ctx, n)
  {
    OneMoreRow(Discounting(), ON_GOODS, ps, ctx, n);
  }

  lemma {:induction false} OnlyOneTaken(ps: seq<Promotion>, ctx: Context, n: nat)
    requires n <= |ps| && ctx.subtotal >= 0 && CountReached(ps, ctx, ON_GOODS, n) == 1
    ensures RowTotal(Discounting(), ps, ctx, n) <= ctx.subtotal <==> NoneOvershoots(ps, ctx, n)
  {
    if Applies(ps, ctx, ON_GOODS, n - 1) {
      FirstTaken(ps, ctx, n - 1);
    } else {
      OnlyOneTaken(ps, ctx, n - 1);
      NothingTaken(ps, ctx, n - 1);
    }
  }

  lemma {:induction false} CouponExceedsIff(s: Sale)
    requires CouponOf(s).Some?
    ensures CouponOf(s).value.amount > s.total <==> CouponOvershoots(s)
  {
    var p, ctx := s.coupon.value.found.value.promo, CouponContext(s.cart, s.total, s.firstOrder);
    if p.action.Some? {
      if p.action.value.BxgyAction? {
        LookupCouponsAreWorthless(p.action.value, s.cart, s.total, s.firstOrder);
      } else {
        ExceedsSubtotalIff(p.action.value, ctx);
      }
    }
  }

  lemma {:induction false} TakenSplits(s: Sale)
    ensures Taken(s) == Sum(Discounting(), EffectRows(Effects(s)))
                        + if CouponOf(s).Some? then CouponOf(s).value.amount else 0
  {
    var rows := CouponRows(CouponOf(s));
    SumAppend(Discounting(), rows, EffectRows(Effects(s)));
    if rows != [] {
      SumPush(Discounting(), [], rows[0]);
      assert [] + [rows[0]] == rows;
    }
  }

  /** The discounts take off at most the goods total each, unless a single one overshoots. */
  lemma {:induction false} DiscountsAreBounded(s: Sale)
    requires !SomeOvershoots(s)
    ensures Taken(s) <= Discounts(s) * s.total
  {
    TakenSplits(s);
    if s.cart.items != [] { AtMostTotalEach(s.ps, At(s), |s.ps|); }
    if CouponOf(s).Some? { CouponExceedsIff(s); }
    Distribute(AutoDiscounts(s), 1, s.total);
  }

  /** With at most one discount, the goods cover what is taken off exactly when it does not overshoot. */
  lemma {:induction false} OneDiscountIsCoveredIff(s: Sale)
    requires Discounts(s) <= 1
    ensures Taken(s) <= s.total <==> !SomeOvershoots(s)
  {
    TakenSplits(s);
    if s.cart.items != [] {
      AtLeastOneEach(s.ps, At(s), |s.ps|);
      if AutoDiscounts(s) == 1 { OnlyOneTaken(s.ps, At(s), |s.ps|); }
    }
    if CouponOf(s).Some? { CouponExceedsIff(s); }
  }

  /** A catalogue as the database can hold it, and a cart that is not turned away. */
  predicate Possible(s: Sale) {
    s.cart.items != [] && forall i, j :: 0 <= i < j < |s.ps| ==> s.ps[i].id != s.ps[j].id
  }

  /** n promotions that each take off all of goods worth 100. */
  function FullDiscounts(n: nat): Sale {
    var ps := seq(n, i requires 0 <= i < n => Promotion(i + 1, [], [], Some(FixedCartAction(100)), false));
    Sale(OneItemCart(), 100, ps, None, false, 0)
  }

  lemma {:induction false} FullDiscountsAddUp(n: nat, k: nat)
    requires k <= n
    ensures var s := FullDiscounts(n);
            && CountReached(s.ps, At(s), ON_GOODS, k) == k
            && RowTotal(Discounting(), s.ps, At(s), k) == 100 * k
  {
    if k > 0 {
      var s := FullDiscounts(n);
      FullDiscountsAddUp(n, k - 1);
      OneMoreRow(Discounting(), ON_GOODS, s.ps, At(s), k - 1);
      assert forall i :: 0 <= i < n ==> !CheckoutDecisions(s.ps, At(s))[i].stops;
    }
  }

  lemma {:induction false} FullDiscountsTakeAllEach(n: nat)
    ensures var s := FullDiscounts(n);
            Possible(s) && Discounts(s) == n && !SomeOvershoots(s) && Taken(s) == n * s.total
  {
    var s := FullDiscounts(n);
    FullDiscountsAddUp(n, n);
    TakenSplits(s);
  }

  /** Discounts none of which overshoots stay within the goods, for every choice of n of them,
      exactly when n is at most 1. */
  lemma {:induction false} CoveredForEveryChoiceIff(n: nat)
    ensures (forall s :: Possible(s) && Discounts(s) == n && !SomeOvershoots(s) ==> Taken(s) <= s.total) <==> n <= 1
  {
    if n <= 1 {
      forall s | Possible(s) && Discounts(s) == n && !SomeOvershoots(s) ensures Taken(s) <= s.total {
        OneDiscountIsCoveredIff(s);
      }
    } else {
      FullDiscountsTakeAllEach(n);
      assert Taken(FullDiscounts(n)) > FullDiscounts(n).total;
    }
  }

  /** One promotion with the fallback action, 1000 off goods worth 200. */
  function Fallback(): Sale {
    Sale(OneItemCart(), 200, [TakeOff([], [], OtherAction(1000))], None, false, 0)
  }

  /** A single discount can exceed the goods. */
  lemma {:induction false} OneDiscountCanOvershoot()
    ensures Possible(Fallback()) && Discounts(Fallback()) == 1 && Taken(Fallback()) == 1000 > Fallback().total
    ensures SomeOvershoots(Fallback())
  {
    var s := Fallback();
    OneMoreRow(Discounting(), ON_GOODS, s.ps, At(s), 0);
    assert Applies(s.ps, At(s), ON_GOODS, 0);
    AtLeastOneEach(s.ps, At(s), 0);
    TakenSplits(s);
    assert ReachedOvershoots(s.ps, At(s), 0);
  }

  // -- Shipping ---------------------------------------------------------------

  lemma {:induction false} FreeRowsSum(ps: seq<Promotion>, ctx: Context, n: nat)
    requires n <= |ps| && ctx.shippingFee >= 0
    ensures var c := CountReached(ps, ctx, {FreeShippingKind}, n);
            && RowTotal(ShippingSaved(), ps, ctx, n) == c * ctx.shippingFee
            && (c > 0 ==> ctx.shippingFee > 0)
  {
    if n > 0 {
      FreeRowsSum(ps, ctx, n - 1);
      OneMoreRow(ShippingSaved(), {FreeShippingKind}, ps, ctx, n - 1);
      Distribute(CountReached(ps, ctx, {FreeShippingKind}, n - 1), 1, ctx.shippingFee);
    }
  }

  lemma {:induction false} AnyFreeStep(ps: seq<Promotion>, ctx: Context, n: nat)
    requires n < |ps|
    ensures var ds := CheckoutDecisions(ps, ctx);
            AnyFree(Collect(ds, n + 1)) <==> AnyFree(Collect(ds, n)) || Applies(ps, ctx, {FreeShippingKind}, n)
  {
    var ds := CheckoutDecisions(ps, ctx);
    EffectOf(ps[n], ctx);
    if Reached(ds, n) && ds[n].out.Some? {
      AnyFreeOfMore(Collect(ds, n), ds[n].out.value);
    } else {
      assert Collect(ds, n + 1) == Collect(ds, n);
    }
  }

  lemma {:induction false} AnyFreeIff(ps: seq<Promotion>, ctx: Context, n: nat)
    requires n <= |ps|
    ensures AnyFree(Collect(CheckoutDecisions(ps, ctx), n)) <==> CountReached(ps, ctx, {FreeShippingKind}, n) > 0
  {
    if n > 0 {
      AnyFreeStep(ps, ctx, n - 1);
      AnyFreeIff(ps, ctx, n - 1);
    }
  }

  /** What the order is charged for shipping. */
  function FeeCharged(s: Sale): int { if AnyFree(Effects(s)) then 0 else s.fee }

  /** The fee charged plus the shipping rows give back the full fee exactly when checkout gets to at
      most one live free-shipping promotion: each writes a row for the whole fee. */
  lemma {:induction false} ShippingReconcilesIff(s: Sale)
    ensures FeeCharged(s) + Sum(ShippingSaved(), EffectRows(Effects(s))) == s.fee <==> FreeShippings(s) <= 1
  {
    FreeRowsSum(s.ps, At(s), |s.ps|);
    AnyFreeIff(s.ps, At(s), |s.ps|);
    FeeAndRows(FreeShippings(s), s.fee);
  }

  lemma {:induction false} FeeAndRows(n: nat, fee: nat)
    requires n > 0 ==> fee > 0
    ensures (if n > 0 then 0 else fee) + n * fee == fee <==> n <= 1
  {
    if n > 1 { MulLe(2, n, fee); }
  }

  /** Two stackable free-shipping promotions, a fee of 25000. */
  function TwoFreeShippings(): Sale {
    var free := i requires 1 <= i => Promotion(i, [], [], Some(FreeShippingAction), false);
    Sale(OneItemCart(), 200, [free(1), free(2)], None, false, 25000)
  }

  /** They write 50000 of shipping saved. */
  lemma {:induction false} TwoFreeShippingsWriteTwoRows()
    ensures var s := TwoFreeShippings();
            Possible(s) && FeeCharged(s) == 0 && Sum(ShippingSaved(), EffectRows(Effects(s))) == 50000
  {
    var s := TwoFreeShippings();
    assert !CheckoutDecisions(s.ps, At(s))[0].stops;
    assert Applies(s.ps, At(s), {FreeShippingKind}, 0) && Applies(s.ps, At(s), {FreeShippingKind}, 1);
    assert CountReached(s.ps, At(s), {FreeShippingKind}, 1) == 1;
    FreeRowsSum(s.ps, At(s), 2);
    AnyFreeIff(s.ps, At(s), 2);
  }
}
