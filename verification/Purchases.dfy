/** A checkout and the quota tables together: what is recorded once its coupon is consumed. */
module Purchases {
  import opened Wrappers
  import opened Promotions
  import opened Stacking
  import opened Sums
  import opened Checkout
  import opened Discounts
  import Q = OrderQuota

  /** The request checkout makes of a code: its promotion as stored, and the customer's usage rows. */
  function RequestOf(db: Q.Db, promo: Promotion, customer: int): CouponRequest {
    CouponRequest(if promo.id in db.promos then Some(Coupon(promo, db.promos[promo.id])) else None,
                  Q.CustomerUses(db, promo.id, customer))
  }

  /** The order a checkout with this promotion's code places. */
  function PlacedAs(id: Id, customer: int, promo: Promotion, s: Sale): Q.Op {
    Q.Place(id, customer, Some(promo.id), Taken(s))
  }

  /** Checkout accepts the code exactly when the quotas let the order be placed and the conditions
      hold; and what the quotas turn down it turns down for the same reason. */
  lemma {:induction false} CouponTakenIff(db: Q.Db, id: Id, customer: int, promo: Promotion, s: Sale)
    requires s.coupon == Some(RequestOf(db, promo, customer))
    ensures var placed := Q.Outcome(db, PlacedAs(id, customer, promo, s));
            var outcome := CouponOutcome(s.coupon.value, s.cart, s.total, s.firstOrder);
            && (CouponOf(s).Some? <==>
                placed.Ok? && CheckConditions(promo.conditions, CouponContext(s.cart, s.total, s.firstOrder)))
            && (placed.Err? ==> outcome.Err? && placed.error == Q.BadCoupon(outcome.error))
  {}

  /** Whatever happens after the order was placed, a usage row of it records the order's whole
      discount. That is the coupon row's amount exactly when checkout got to no automatic discount. */
  lemma {:induction false} UsageRowIsCouponRowIff(db: Q.Db, id: Id, customer: int, promo: Promotion, s: Sale,
                                                  ops: seq<Q.Op>, u: Q.Usage)
    requires Q.Valid(db) && id !in db.orders
    requires s.coupon == Some(RequestOf(db, promo, customer)) && CouponOf(s).Some?
    requires Q.FreshRun(Q.Step(db, PlacedAs(id, customer, promo, s)), ops)
    requires u in Q.Run(Q.Step(db, PlacedAs(id, customer, promo, s)), ops).usages && u.orderId == id
    ensures u.promotionId == promo.id && u.customer == customer && u.amount == Taken(s)
    ensures CouponRows(CouponOf(s)) == [PromoRow(promo.id, CouponRow, CouponOf(s).value.amount)]
    ensures u.amount == CouponOf(s).value.amount <==> AutoDiscounts(s) == 0
  {
    var op := PlacedAs(id, customer, promo, s);
    CouponTakenIff(db, id, customer, promo, s);
    Q.StepKeeps(db, op);
    Q.RunsConsumeOnce(Q.Step(db, op), ops);
    Q.OrdersOnlyMoveForward(Q.Step(db, op), ops, id);
    assert Q.BelongsTo(u, Q.Run(Q.Step(db, op), ops).orders);
    TakenSplits(s);
    if s.cart.items != [] { AtLeastOneEach(s.ps, At(s), |s.ps|); }
  }
}
