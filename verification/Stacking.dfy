/** The three loops over the active promotions (stacking, checkout, cart) and when they agree. */
module Stacking {
  import opened Wrappers
  import opened Sums
  import opened Promotions

  datatype Applied = Applied(promotionId: int, amount: int)

  // -- What a loop with an exclusive stop collects ----------------------------

  /** What one promotion contributes, and whether it ends the walk. */
  datatype Decision<+T> = Decision(out: Option<T>, stops: bool)

  /** The walk gets to i when nothing before it stopped the walk. */
  predicate Reached<T>(ds: seq<Decision<T>>, i: nat)
    requires i <= |ds|
  {
    forall j :: 0 <= j < i ==> !ds[j].stops
  }

  /** The contributions, in order, of every promotion the walk gets to. */
  function Collect<T>(ds: seq<Decision<T>>, n: nat): seq<T>
    requires n <= |ds|
  {
    if n == 0 then []
    else Collect(ds, n - 1) + (if Reached(ds, n - 1) && ds[n - 1].out.Some? then [ds[n - 1].out.value] else [])
  }

  lemma {:induction false} NothingAfterStop<T>(ds: seq<Decision<T>>, i: nat, n: nat)
    requires i <= n <= |ds| && !Reached(ds, i)
    ensures Collect(ds, n) == Collect(ds, i)
  {
    if i < n { NothingAfterStop(ds, i, n - 1); }
  }

  lemma {:induction false} CollectedIsReached<T>(ds: seq<Decision<T>>, n: nat, x: T)
    requires n <= |ds|
    ensures x in Collect(ds, n) <==> exists i :: 0 <= i < n && Reached(ds, i) && ds[i].out == Some(x)
  {
    if n > 0 {
      CollectedIsReached(ds, n - 1, x);
      if x in Collect(ds, n) && x !in Collect(ds, n - 1) {
        assert Reached(ds, n - 1) && ds[n - 1].out == Some(x);
      }
      if i :| 0 <= i < n && Reached(ds, i) && ds[i].out == Some(x) {
        if i < n - 1 { assert x in Collect(ds, n - 1); }
      }
    }
  }

  lemma {:induction false} ReachedStep<T>(ds: seq<Decision<T>>, i: nat)
    requires i < |ds|
    ensures Reached(ds, i + 1) <==> Reached(ds, i) && !ds[i].stops
  {}

  /** Two walks whose decisions differ only where the second contributes 0, against a first that never does. */
  ghost predicate DifferOnlyInZeros(ds: seq<Decision<Applied>>, es: seq<Decision<Applied>>) {
    && |ds| == |es|
    && (forall i :: 0 <= i < |ds| && ds[i].out.Some? ==> ds[i].out.value.amount > 0)
    && (forall i :: 0 <= i < |ds| && ds[i] != es[i] ==> es[i].out.Some? && es[i].out.value.amount == 0)
  }

  lemma {:induction false} SameDecisionsSameWalk(ds: seq<Decision<Applied>>, es: seq<Decision<Applied>>, n: nat)
    requires |ds| == |es| && n <= |ds|
    requires forall i :: 0 <= i < n && Reached(es, i) ==> ds[i] == es[i]
    ensures Collect(ds, n) == Collect(es, n)
    ensures Reached(ds, n) <==> Reached(es, n)
  {
    if n > 0 {
      SameDecisionsSameWalk(ds, es, n - 1);
      ReachedStep(ds, n - 1);
      ReachedStep(es, n - 1);
      if Reached(es, n - 1) {
        assert ds[n - 1] == es[n - 1];
      } else {
        NothingAfterStop(ds, n - 1, n);
        NothingAfterStop(es, n - 1, n);
      }
    }
  }

  /** Such walks give the same list exactly when they decide alike on everything the second gets to. */
  lemma {:induction false} AgreeIff(ds: seq<Decision<Applied>>, es: seq<Decision<Applied>>)
    requires DifferOnlyInZeros(ds, es)
    ensures Collect(ds, |ds|) == Collect(es, |es|) <==>
            forall i :: 0 <= i < |es| && Reached(es, i) ==> ds[i] == es[i]
  {
    if forall i :: 0 <= i < |es| && Reached(es, i) ==> ds[i] == es[i] {
      SameDecisionsSameWalk(ds, es, |ds|);
    } else {
      var i :| 0 <= i < |es| && Reached(es, i) && ds[i] != es[i];
      var x := es[i].out.value;
      CollectedIsReached(es, |es|, x);
      CollectedIsReached(ds, |ds|, x);
    }
  }

  /** Decision i is about the promotion with the i-th id. */
  predicate Labelled(ds: seq<Decision<Applied>>, ids: seq<int>) {
    |ds| == |ids| && forall i :: 0 <= i < |ds| && ds[i].out.Some? ==> ds[i].out.value.promotionId == ids[i]
  }

  lemma {:induction false} FirstDifference(ds: seq<Decision<Applied>>, es: seq<Decision<Applied>>, n: nat)
    returns (i: nat)
    requires |ds| == |es| && n < |ds| && ds[n] != es[n]
    ensures i <= n && ds[i] != es[i] && forall j :: 0 <= j < i ==> ds[j] == es[j]
  {
    i := 0;
    while ds[i] == es[i]
      invariant i <= n && forall j :: 0 <= j < i ==> ds[j] == es[j]
      decreases n - i
    {
      i := i + 1;
    }
  }

  lemma {:induction false} OnlyOwnEntry(ds: seq<Decision<Applied>>, ids: seq<int>, i: nat, x: Applied)
    requires Labelled(ds, ids) && i < |ds| && x.promotionId == ids[i]
    requires forall a, b :: 0 <= a < b < |ids| ==> ids[a] != ids[b]
    ensures x in Collect(ds, |ds|) <==> Reached(ds, i) && ds[i].out == Some(x)
  {
    CollectedIsReached(ds, |ds|, x);
  }

  /** Two walks over promotions with distinct ids, where equal contributions mean equal stops,
      give the same list exactly when they decide alike on everything the second gets to. */
  lemma {:induction false} WalksAgreeIff(ds: seq<Decision<Applied>>, es: seq<Decision<Applied>>, ids: seq<int>)
    requires Labelled(ds, ids) && Labelled(es, ids)
    requires forall a, b :: 0 <= a < b < |ids| ==> ids[a] != ids[b]
    requires forall i :: 0 <= i < |ds| && ds[i].out == es[i].out ==> ds[i] == es[i]
    ensures Collect(ds, |ds|) == Collect(es, |es|) <==>
            forall i :: 0 <= i < |es| && Reached(es, i) ==> ds[i] == es[i]
  {
    if forall i :: 0 <= i < |es| && Reached(es, i) ==> ds[i] == es[i] {
      SameDecisionsSameWalk(ds, es, |ds|);
    } else {
      var n :| 0 <= n < |es| && Reached(es, n) && ds[n] != es[n];
      var i := FirstDifference(ds, es, n);
      SameDecisionsSameWalk(ds, es, i);
      var x := if ds[i].out.Some? then ds[i].out.value else es[i].out.value;
      OnlyOwnEntry(ds, ids, i, x);
      OnlyOwnEntry(es, ids, i, x);
    }
  }

  function Project<T, U>(f: T -> Option<U>, s: seq<T>): seq<U> {
    if s == [] then []
    else Project(f, s[..|s| - 1]) + (match f(s[|s| - 1]) case Some(u) => [u] case None => [])
  }

  function ProjectDecision<T, U>(f: T -> Option<U>, d: Decision<T>): Decision<U> {
    Decision(if d.out.Some? then f(d.out.value) else None, d.stops)
  }

  lemma {:induction false} ProjectCollected<T, U>(f: T -> Option<U>, ds: seq<Decision<T>>,
                                                  es: seq<Decision<U>>, n: nat)
    requires |ds| == |es| && n <= |ds|
    requires forall i :: 0 <= i < |ds| ==> es[i] == ProjectDecision(f, ds[i])
    ensures Project(f, Collect(ds, n)) == Collect(es, n)
  {
    if n > 0 {
      ProjectCollected(f, ds, es, n - 1);
      ReachedProjected(f, ds, es, n - 1);
      var s := Collect(ds, n);
      if Reached(ds, n - 1) && ds[n - 1].out.Some? {
        assert s[..|s| - 1] == Collect(ds, n - 1);
      } else {
        assert s == Collect(ds, n - 1);
      }
    }
  }

  lemma {:induction false} ReachedProjected<T, U>(f: T -> Option<U>, ds: seq<Decision<T>>, es: seq<Decision<U>>, i: nat)
    requires |ds| == |es| && i <= |ds|
    requires forall j :: 0 <= j < |ds| ==> es[j] == ProjectDecision(f, ds[j])
    ensures Reached(ds, i) <==> Reached(es, i)
  {}

  // -- The stacking loop ------------------------------------------------------

  predicate Applicable(p: Promotion, ctx: Context) {
    CheckScope(p.scopes, ctx) && CheckConditions(p.conditions, ctx)
  }

  function CalculateDiscount(p: Promotion, ctx: Context): int {
    if p.action.None? then 0 else ActionDiscount(p.action.value, ctx)
  }

  predicate Live(p: Promotion, ctx: Context) {
    Applicable(p, ctx) && CalculateDiscount(p, ctx) > 0
  }

  function StackDecision(p: Promotion, ctx: Context): Decision<Applied> {
    if Live(p, ctx) then Decision(Some(Applied(p.id, CalculateDiscount(p, ctx))), p.exclusive)
    else Decision(None, false)
  }

  function StackDecisions(ps: seq<Promotion>, ctx: Context): seq<Decision<Applied>> {
    seq(|ps|, i requires 0 <= i < |ps| => StackDecision(ps[i], ctx))
  }

  /** Exactly the applicable promotions with a positive discount, in order, up to the first exclusive one of them. */
  function Stacked(ps: seq<Promotion>, ctx: Context): seq<Applied> {
    Collect(StackDecisions(ps, ctx), |ps|)
  }

  method EvaluateAndStack(ps: seq<Promotion>, ctx: Context) returns (results: seq<Applied>)
    ensures results == Stacked(ps, ctx)
  {
    ghost var ds := StackDecisions(ps, ctx);
    results := [];
    var hasExclusive := false;
    for n := 0 to |ps|
      invariant results == Collect(ds, n)
      invariant hasExclusive <==> !Reached(ds, n)
    {
      if hasExclusive {
        NothingAfterStop(ds, n, |ps|);
        return;
      }
      if !CheckScope(ps[n].scopes, ctx) { continue; }
      if !CheckConditions(ps[n].conditions, ctx) { continue; }
      var discount := CalculateDiscount(ps[n], ctx);
      if discount <= 0 { continue; }
      results := results + [Applied(ps[n].id, discount)];
      if ps[n].exclusive { hasExclusive := true; }
    }
  }

  /** A promotion is in the stack exactly when it is live and no exclusive live one precedes it. */
  lemma {:induction false} StackedMembers(ps: seq<Promotion>, ctx: Context, x: Applied)
    ensures x in Stacked(ps, ctx) <==>
            exists i :: 0 <= i < |ps| && Live(ps[i], ctx) && x == Applied(ps[i].id, CalculateDiscount(ps[i], ctx)) &&
                        forall j :: 0 <= j < i ==> !(Live(ps[j], ctx) && ps[j].exclusive)
  {
    var ds := StackDecisions(ps, ctx);
    CollectedIsReached(ds, |ps|, x);
    if i :| 0 <= i < |ps| && Reached(ds, i) && ds[i].out == Some(x) {
      forall j | 0 <= j < i ensures !(Live(ps[j], ctx) && ps[j].exclusive) { assert !ds[j].stops; }
      assert Live(ps[i], ctx);
    }
    if i :| 0 <= i < |ps| && Live(ps[i], ctx) && x == Applied(ps[i].id, CalculateDiscount(ps[i], ctx)) &&
            forall j :: 0 <= j < i ==> !(Live(ps[j], ctx) && ps[j].exclusive) {
      assert Reached(ds, i) && ds[i].out == Some(x);
    }
  }

  /** A walk that contributes nothing before i and something at i starts with that. */
  lemma {:induction false} StartsWithFirst(ds: seq<Decision<Applied>>, i: nat, n: nat)
    requires i < n <= |ds| && Reached(ds, i) && ds[i].out.Some?
    requires forall j :: 0 <= j < i ==> ds[j].out.None?
    ensures Collect(ds, i + 1) == [ds[i].out.value]
    ensures Collect(ds, n) != [] && Collect(ds, n)[0] == ds[i].out.value
  {
    NothingCollected(ds, i);
    assert Collect(ds, i + 1) == Collect(ds, i) + [ds[i].out.value];
    CollectGrows(ds, i + 1, n);
  }

  lemma {:induction false} CollectGrows<T>(ds: seq<Decision<T>>, m: nat, n: nat)
    requires m <= n <= |ds|
    ensures Collect(ds, m) <= Collect(ds, n)
  {
    if m < n { CollectGrows(ds, m, n - 1); }
  }

  lemma {:induction false} NothingCollected<T>(ds: seq<Decision<T>>, k: nat)
    requires k <= |ds| && forall j :: 0 <= j < k ==> ds[j].out.None?
    ensures Collect(ds, k) == []
  {
    if k > 0 { NothingCollected(ds, k - 1); }
  }

  /** A live exclusive promotion stands alone in the stack exactly when no live one precedes it. */
  lemma {:induction false} ExclusiveStandsAloneIff(ps: seq<Promotion>, ctx: Context, i: nat)
    requires i < |ps| && ps[i].exclusive && Live(ps[i], ctx)
    requires forall a, b :: 0 <= a < b < |ps| ==> ps[a].id != ps[b].id
    ensures Stacked(ps, ctx) == [Applied(ps[i].id, CalculateDiscount(ps[i], ctx))] <==>
            forall j :: 0 <= j < i ==> !Live(ps[j], ctx)
  {
    var ds := StackDecisions(ps, ctx);
    var k := FirstLive(ps, ctx, i);
    StartsWithFirst(ds, k, |ps|);
    if k == i { NothingAfterStop(ds, i + 1, |ps|); }
  }

  /** An exclusive promotion behind another one is applied with it. */
  lemma {:induction false} ExclusiveIsNotAlone()
    ensures var a := Promotion(1, [], [], Some(FixedCartAction(10)), false);
            var b := Promotion(2, [], [], Some(FixedCartAction(20)), true);
            Stacked([a, b], Offer([], 100, map[])) == [Applied(1, 10), Applied(2, 20)]
  {
    var a := Promotion(1, [], [], Some(FixedCartAction(10)), false);
    var b := Promotion(2, [], [], Some(FixedCartAction(20)), true);
    var ds := StackDecisions([a, b], Offer([], 100, map[]));
    assert ds == [Decision(Some(Applied(1, 10)), false), Decision(Some(Applied(2, 20)), true)];
    assert Collect(ds, 1) == Collect(ds, 0) + [Applied(1, 10)] && Collect(ds, 2) == Collect(ds, 1) + [Applied(2, 20)];
  }

  // -- The checkout loop ------------------------------------------------------

  datatype Kind = FreeShippingKind | BundleKind | BxgyKind | OtherKind
  datatype Gift = Gift(productId: int, getQty: int, pct: int)
  datatype Effect = Effect(kind: Kind, promotionId: int, amount: int, gift: Option<Gift>)

  function EvaluateSinglePromotion(p: Promotion, ctx: Context): Option<Effect> {
    if !CheckScope(p.scopes, ctx) || !CheckConditions(p.conditions, ctx) || p.action.None? then None
    else match p.action.value
      case FreeShippingAction =>
        var amount := Max(0, ctx.shippingFee);
        if amount <= 0 then None else Some(Effect(FreeShippingKind, p.id, amount, None))
      case BundleAction(cs, d) =>
        var discount := BundleDiscount(cs, d, ctx);
        if discount <= 0 then None else Some(Effect(BundleKind, p.id, discount, None))
      case BxgyAction(b) =>
        var n := BxgyApplications(b, ctx);
        if n <= 0 || b.getProductId.None? then None
        else Some(Effect(BxgyKind, p.id, 0, Some(Gift(b.getProductId.value, b.getQty * n, GiftPct(b)))))
      case _ =>
        var discount := ActionDiscount(p.action.value, ctx);
        if discount <= 0 then None else Some(Effect(OtherKind, p.id, discount, None))
  }

  function CheckoutDecision(p: Promotion, ctx: Context): Decision<Effect> {
    var e := EvaluateSinglePromotion(p, ctx);
    Decision(e, e.Some? && e.value.amount > 0 && p.exclusive)
  }

  function CheckoutDecisions(ps: seq<Promotion>, ctx: Context): seq<Decision<Effect>> {
    seq(|ps|, i requires 0 <= i < |ps| => CheckoutDecision(ps[i], ctx))
  }

  /** What checkout applies: nothing to an empty cart. */
  function CheckoutEffects(ps: seq<Promotion>, ctx: Context): seq<Effect> {
    if ctx.items == [] then [] else Collect(CheckoutDecisions(ps, ctx), |ps|)
  }

  method EvaluateAutoPromotionsForCheckout(ps: seq<Promotion>, ctx: Context) returns (results: seq<Effect>)
    ensures results == CheckoutEffects(ps, ctx)
  {
    results := [];
    if |ctx.items| == 0 { return; }
    ghost var ds := CheckoutDecisions(ps, ctx);
    var hasExclusive := false;
    for n := 0 to |ps|
      invariant results == Collect(ds, n)
      invariant hasExclusive <==> !Reached(ds, n)
    {
      if hasExclusive {
        NothingAfterStop(ds, n, |ps|);
        return;
      }
      var evaluated := EvaluateSinglePromotion(ps[n], ctx);
      if evaluated.None? { continue; }
      results := results + [evaluated.value];
      if evaluated.value.amount > 0 && ps[n].exclusive { hasExclusive := true; }
    }
  }

  function AsApplied(): Effect -> Option<Applied> {
    (e: Effect) => Some(Applied(e.promotionId, e.amount))
  }

  /** A buy-X-get-Y promotion that grants a gift at checkout. */
  predicate GrantsGift(p: Promotion, ctx: Context) {
    && Applicable(p, ctx) && p.action.Some? && p.action.value.BxgyAction?
    && BxgyApplications(p.action.value.bxgy, ctx) > 0 && p.action.value.bxgy.getProductId.Some?
  }

  /** Checkout and stacking give the same list exactly when checkout gets to no gift, or, for an
      empty cart, when no promotion is live. */
  lemma {:induction false} CheckoutAgreesIff(ps: seq<Promotion>, ctx: Context)
    ensures Project(AsApplied(), CheckoutEffects(ps, ctx)) == Stacked(ps, ctx) <==>
            if ctx.items == [] then forall i :: 0 <= i < |ps| ==> !Live(ps[i], ctx)
            else forall i :: 0 <= i < |ps| && Reached(CheckoutDecisions(ps, ctx), i) ==> !GrantsGift(ps[i], ctx)
  {
    if ctx.items == [] {
      NothingStackedIff(ps, ctx);
    } else {
      NonEmptyCheckoutAgreesIff(ps, ctx);
    }
  }

  lemma {:induction false} NothingStackedIff(ps: seq<Promotion>, ctx: Context)
    ensures Stacked(ps, ctx) == [] <==> forall i :: 0 <= i < |ps| ==> !Live(ps[i], ctx)
  {
    if i :| 0 <= i < |ps| && Live(ps[i], ctx) {
      var k := FirstLive(ps, ctx, i);
      var x := Applied(ps[k].id, CalculateDiscount(ps[k], ctx));
      StackedMembers(ps, ctx, x);
      assert x in Stacked(ps, ctx);
    } else if Stacked(ps, ctx) != [] {
      var x := Stacked(ps, ctx)[0];
      StackedMembers(ps, ctx, x);
    }
  }

  lemma {:induction false} FirstLive(ps: seq<Promotion>, ctx: Context, i: nat) returns (k: nat)
    requires i < |ps| && Live(ps[i], ctx)
    ensures k <= i && Live(ps[k], ctx) && forall j :: 0 <= j < k ==> !Live(ps[j], ctx)
  {
    if j :| 0 <= j < i && Live(ps[j], ctx) { k := FirstLive(ps, ctx, j); } else { k := i; }
  }

  lemma {:induction false} NonEmptyCheckoutAgreesIff(ps: seq<Promotion>, ctx: Context)
    ensures var ds := CheckoutDecisions(ps, ctx);
            Project(AsApplied(), Collect(ds, |ps|)) == Stacked(ps, ctx) <==>
            forall i :: 0 <= i < |ps| && Reached(ds, i) ==> !GrantsGift(ps[i], ctx)
  {
    var ds, cs := StackDecisions(ps, ctx), CheckoutDecisions(ps, ctx);
    var es := seq(|ps|, i requires 0 <= i < |ps| => ProjectDecision(AsApplied(), cs[i]));
    ProjectCollected(AsApplied(), cs, es, |ps|);
    forall i | 0 <= i < |ps|
      ensures GrantsGift(ps[i], ctx) ==> es[i].out == Some(Applied(ps[i].id, 0)) && ds[i] != es[i]
      ensures !GrantsGift(ps[i], ctx) ==> ds[i] == es[i]
    {
      CheckoutDecidesLikeStack(ps[i], ctx);
    }
    AgreeIff(ds, es);
    forall i | 0 <= i <= |ps| ensures Reached(cs, i) <==> Reached(es, i) {
      ReachedProjected(AsApplied(), cs, es, i);
    }
  }

  lemma {:induction false} CheckoutDecidesLikeStack(p: Promotion, ctx: Context)
    ensures var e := ProjectDecision(AsApplied(), CheckoutDecision(p, ctx));
            if GrantsGift(p, ctx) then e.out == Some(Applied(p.id, 0)) && e != StackDecision(p, ctx)
            else e == StackDecision(p, ctx)
  {}

  // -- The cart loop ----------------------------------------------------------

  datatype Status = Active | Unmet | Exhausted
  datatype Source = Auto | FromCoupon
  datatype CartEntry = CartEntry(promotionId: int, source: Source, status: Status, amount: int)

  predicate IsFreeShipping(p: Promotion) {
    p.action == Some(FreeShippingAction)
  }

  function CartDecision(p: Promotion, ctx: Context): Decision<CartEntry> {
    if !CheckScope(p.scopes, ctx) then Decision(None, false)
    else if !CheckConditions(p.conditions, ctx) then Decision(Some(CartEntry(p.id, Auto, Unmet, 0)), false)
    else if CalculateDiscount(p, ctx) <= 0 && !IsFreeShipping(p) then Decision(None, false)
    else Decision(Some(CartEntry(p.id, Auto, Active, CalculateDiscount(p, ctx))), p.exclusive)
  }

  function CartDecisions(ps: seq<Promotion>, ctx: Context): seq<Decision<CartEntry>> {
    seq(|ps|, i requires 0 <= i < |ps| => CartDecision(ps[i], ctx))
  }

  /** found is the promotion the saved coupon code names, if one is saved and it names one. */
  method EvaluateForCart(ps: seq<Promotion>, savedCode: bool, found: Option<Coupon>, ctx: Context)
    returns (results: seq<CartEntry>)
    ensures results == Collect(CartDecisions(ps, ctx), |ps|) + if savedCode then [PreviewCoupon(found, ctx)] else []
  {
    results := AutoEntries(ps, ctx);
    if savedCode {
      var entry;
      if found.None? {
        entry := CartEntry(0, FromCoupon, Exhausted, 0);
      } else {
        var promo := found.value.promo;
        var quota := found.value.quota;
        if quota.limit.Some? && quota.usageCount >= quota.limit.value {
          entry := CartEntry(promo.id, FromCoupon, Exhausted, 0);
        } else {
          var scopeOk := CheckScope(promo.scopes, ctx);
          var status := if scopeOk && CheckConditions(promo.conditions, ctx) then Active else Unmet;
          var discount := if status == Active then CalculateDiscount(promo, ctx) else 0;
          entry := CartEntry(promo.id, FromCoupon, status, discount);
        }
      }
      results := results + [entry];
    }
  }

  method AutoEntries(ps: seq<Promotion>, ctx: Context) returns (results: seq<CartEntry>)
    ensures results == Collect(CartDecisions(ps, ctx), |ps|)
  {
    ghost var ds := CartDecisions(ps, ctx);
    results := [];
    var hasExclusive := false;
    for n := 0 to |ps|
      invariant results == Collect(ds, n)
      invariant hasExclusive <==> !Reached(ds, n)
    {
      if hasExclusive {
        NothingAfterStop(ds, n, |ps|);
        return;
      }
      if !CheckScope(ps[n].scopes, ctx) { continue; }
      var status := if CheckConditions(ps[n].conditions, ctx) then Active else Unmet;
      var discount := if status == Active then CalculateDiscount(ps[n], ctx) else 0;
      if status == Active && discount <= 0 && !IsFreeShipping(ps[n]) { continue; }
      results := results + [CartEntry(ps[n].id, Auto, status, discount)];
      if status == Active && ps[n].exclusive { hasExclusive := true; }
    }
  }

  function ActiveEntry(): CartEntry -> Option<Applied> {
    (e: CartEntry) => if e.status == Active then Some(Applied(e.promotionId, e.amount)) else None
  }

  predicate FreeButUnpriced(p: Promotion, ctx: Context) {
    Applicable(p, ctx) && IsFreeShipping(p) && ctx.shippingFee < 1
  }

  /** The cart's active entries are the stack exactly when the cart gets to no free-shipping
      promotion that saves nothing; a shipping fee of at least 1 rules those out. */
  lemma {:induction false} CartAgreesIff(ps: seq<Promotion>, ctx: Context)
    ensures var ds := CartDecisions(ps, ctx);
            Project(ActiveEntry(), Collect(ds, |ps|)) == Stacked(ps, ctx) <==>
            forall i :: 0 <= i < |ps| && Reached(ds, i) ==> !FreeButUnpriced(ps[i], ctx)
  {
    var ds, cs := StackDecisions(ps, ctx), CartDecisions(ps, ctx);
    var es := seq(|ps|, i requires 0 <= i < |ps| => ProjectDecision(ActiveEntry(), cs[i]));
    ProjectCollected(ActiveEntry(), cs, es, |ps|);
    forall i | 0 <= i < |ps|
      ensures FreeButUnpriced(ps[i], ctx) ==> es[i].out == Some(Applied(ps[i].id, 0)) && ds[i] != es[i]
      ensures !FreeButUnpriced(ps[i], ctx) ==> ds[i] == es[i]
    {
      CartDecidesLikeStack(ps[i], ctx);
    }
    AgreeIff(ds, es);
    forall i | 0 <= i <= |ps| ensures Reached(cs, i) <==> Reached(es, i) {
      ReachedProjected(ActiveEntry(), cs, es, i);
    }
  }

  lemma {:induction false} CartDecidesLikeStack(p: Promotion, ctx: Context)
    ensures var e := ProjectDecision(ActiveEntry(), CartDecision(p, ctx));
            if FreeButUnpriced(p, ctx) then e.out == Some(Applied(p.id, 0)) && e != StackDecision(p, ctx)
            else e == StackDecision(p, ctx)
  {}

  // -- The contexts the cart and checkout evaluate in -------------------------

  /** A customer's cart, with the ids and the product lookup its variants give rise to. */
  datatype Cart = Cart(items: seq<CartItem>, categoryIds: seq<int>, brandIds: seq<int>, products: map<int, ProductInfo>)

  /** The cart page counts no order as the first and knows no shipping fee. */
  function CartContext(c: Cart): Context {
    Context(c.items, ListedTotal(c.items), false, None, None, c.categoryIds, c.brandIds, c.products, 0)
  }

  /** Checkout, for automatic promotions; total is the goods total at current or flash-sale prices. */
  function CheckoutContext(c: Cart, total: int, firstOrder: bool, fee: int): Context {
    Context(c.items, total, firstOrder, None, None, c.categoryIds, c.brandIds, c.products, fee)
  }

  /** Checkout, for a coupon: no product lookup and no fee. */
  function CouponContext(c: Cart, total: int, firstOrder: bool): Context {
    Context(c.items, total, firstOrder, None, None, c.categoryIds, c.brandIds, map[], 0)
  }

  // -- What the cart shows against what checkout charges ----------------------

  predicate ShownInCart(p: Promotion, ctx: Context) {
    Applicable(p, ctx) && (IsFreeShipping(p) || CalculateDiscount(p, ctx) > 0)
  }

  /** The promotion grants no gift, applies in both places or in neither, and saves the same
      on the goods. */
  predicate ShownAsCharged(p: Promotion, cart: Context, checkout: Context) {
    && !GrantsGift(p, checkout)
    && (ShownInCart(p, cart) <==> Live(p, checkout))
    && (Live(p, checkout) && !IsFreeShipping(p) ==> CalculateDiscount(p, cart) == CalculateDiscount(p, checkout))
  }

  /** Effects by what they save on the goods; the fee is not shown in the cart. */
  function GoodsSaving(): Effect -> Option<Applied> {
    (e: Effect) => Some(Applied(e.promotionId, if e.kind == FreeShippingKind then 0 else e.amount))
  }

  function ShownWalk(ps: seq<Promotion>, ctx: Context): seq<Decision<Applied>> {
    seq(|ps|, i requires 0 <= i < |ps| => ProjectDecision(ActiveEntry(), CartDecision(ps[i], ctx)))
  }

  function ChargedWalk(ps: seq<Promotion>, ctx: Context): seq<Decision<Applied>> {
    seq(|ps|, i requires 0 <= i < |ps| => ProjectDecision(GoodsSaving(), CheckoutDecision(ps[i], ctx)))
  }

  lemma {:induction false} DecidedAlikeIff(p: Promotion, c: Cart, total: int, firstOrder: bool, fee: int)
    ensures var before, at := CartContext(c), CheckoutContext(c, total, firstOrder, fee);
            var d := ProjectDecision(ActiveEntry(), CartDecision(p, before));
            var e := ProjectDecision(GoodsSaving(), CheckoutDecision(p, at));
            && (d == e <==> ShownAsCharged(p, before, at))
            && (d.out == e.out ==> d == e)
            && (d.out.Some? ==> d.out.value.promotionId == p.id)
            && (e.out.Some? ==> e.out.value.promotionId == p.id)
  {
    CheckoutDecidesLikeStack(p, CheckoutContext(c, total, firstOrder, fee));
  }

  lemma {:induction false} WalksDecideAlikeIff(ps: seq<Promotion>, c: Cart, total: int, firstOrder: bool, fee: int)
    requires forall i, j :: 0 <= i < j < |ps| ==> ps[i].id != ps[j].id
    ensures var before, at := CartContext(c), CheckoutContext(c, total, firstOrder, fee);
            var ds, es := ShownWalk(ps, before), ChargedWalk(ps, at);
            Collect(ds, |ps|) == Collect(es, |ps|) <==>
            forall i :: 0 <= i < |ps| && Reached(es, i) ==> ShownAsCharged(ps[i], before, at)
  {
    var before, at := CartContext(c), CheckoutContext(c, total, firstOrder, fee);
    var ds, es := ShownWalk(ps, before), ChargedWalk(ps, at);
    forall i | 0 <= i < |ps|
      ensures ds[i] == es[i] <==> ShownAsCharged(ps[i], before, at)
      ensures ds[i].out == es[i].out ==> ds[i] == es[i]
      ensures ds[i].out.Some? ==> ds[i].out.value.promotionId == ps[i].id
      ensures es[i].out.Some? ==> es[i].out.value.promotionId == ps[i].id
    {
      DecidedAlikeIff(ps[i], c, total, firstOrder, fee);
    }
    WalksAgreeIff(ds, es, seq(|ps|, i requires 0 <= i < |ps| => ps[i].id));
  }

  /** What the cart page shows of the automatic promotions: nothing for an empty cart. */
  function ShownEntries(ps: seq<Promotion>, ctx: Context): seq<CartEntry> {
    if ctx.items == [] then [] else Collect(CartDecisions(ps, ctx), |ps|)
  }

  /** The cart's active entries are the promotions checkout applies, with the same savings on the
      goods, exactly when the cart is empty or checkout only gets to promotions that are shown as
      they are charged. */
  lemma {:induction false} CartMatchesCheckoutIff(ps: seq<Promotion>, c: Cart, total: int, firstOrder: bool, fee: int)
    requires forall i, j :: 0 <= i < j < |ps| ==> ps[i].id != ps[j].id
    ensures var before, at := CartContext(c), CheckoutContext(c, total, firstOrder, fee);
            Project(ActiveEntry(), ShownEntries(ps, before)) == Project(GoodsSaving(), CheckoutEffects(ps, at)) <==>
            c.items == [] ||
            forall i :: 0 <= i < |ps| && Reached(CheckoutDecisions(ps, at), i) ==> ShownAsCharged(ps[i], before, at)
  {
    var before, at := CartContext(c), CheckoutContext(c, total, firstOrder, fee);
    ProjectCollected(ActiveEntry(), CartDecisions(ps, before), ShownWalk(ps, before), |ps|);
    ProjectCollected(GoodsSaving(), CheckoutDecisions(ps, at), ChargedWalk(ps, at), |ps|);
    forall i | 0 <= i <= |ps| ensures Reached(CheckoutDecisions(ps, at), i) <==> Reached(ChargedWalk(ps, at), i) {
      ReachedProjected(GoodsSaving(), CheckoutDecisions(ps, at), ChargedWalk(ps, at), i);
    }
    WalksDecideAlikeIff(ps, c, total, firstOrder, fee);
  }

  /** At unchanged prices, for a returning customer and with a fee to pay, gifts are the only
      promotions that are shown otherwise than they are charged. */
  lemma {:induction false} SameTotalsSameOffers(p: Promotion, c: Cart, fee: int)
    requires fee >= 1
    ensures var before, at := CartContext(c), CheckoutContext(c, ListedTotal(c.items), false, fee);
            ShownAsCharged(p, before, at) <==> !GrantsGift(p, at)
  {
    var before, at := CartContext(c), CheckoutContext(c, ListedTotal(c.items), false, fee);
    ConditionsSplit(p.conditions, c, before);
    ConditionsSplit(p.conditions, c, at);
    if p.action.Some? && p.action.value.BundleAction? { SameMatchesSameBundle(p.action.value.components, before, at); }
  }

  /** A gift whose product is not in the cart: shown nowhere in the stack or the cart, applied at checkout. */
  lemma {:induction false} GiftIsAppliedUnseen()
    ensures var ps := [TakeOff([], [], BxgyAction(Bxgy(1, None, [], None, 1, Some(9), 100)))];
            var before, at := CartContext(OneItemCart()), CheckoutContext(OneItemCart(), 200, false, 25000);
            && Project(AsApplied(), CheckoutEffects(ps, at)) != Stacked(ps, at)
            && Project(ActiveEntry(), ShownEntries(ps, before)) != Project(GoodsSaving(), CheckoutEffects(ps, at))
  {
    var b := Bxgy(1, None, [], None, 1, Some(9), 100);
    var ps := [TakeOff([], [], BxgyAction(b))];
    var at := CheckoutContext(OneItemCart(), 200, false, 25000);
    SumPush(BuyQuantity(b, at.products), [], CartItem(1, 1, 200));
    assert [] + [CartItem(1, 1, 200)] == OneItemCart().items;
    assert GrantsGift(ps[0], at) && Reached(CheckoutDecisions(ps, at), 0);
    CheckoutAgreesIff(ps, at);
    CartMatchesCheckoutIff(ps, OneItemCart(), 200, false, 25000);
  }

  /** Free shipping is shown as active in the cart, which knows no fee, and is not in the stack. */
  lemma {:induction false} FreeShippingIsShownForNothing()
    ensures var ps, ctx := [TakeOff([], [], FreeShippingAction)], CartContext(OneItemCart());
            Project(ActiveEntry(), Collect(CartDecisions(ps, ctx), 1)) != Stacked(ps, ctx)
  {
    var ps, ctx := [TakeOff([], [], FreeShippingAction)], CartContext(OneItemCart());
    assert FreeButUnpriced(ps[0], ctx) && Reached(CartDecisions(ps, ctx), 0);
    CartAgreesIff(ps, ctx);
  }

  // -- What an evaluation depends on ------------------------------------------

  predicate SeesCart(ctx: Context, c: Cart) {
    && ctx.items == c.items && ctx.categoryIds == c.categoryIds && ctx.brandIds == c.brandIds
    && ctx.paymentMethod.None? && ctx.platform.None?
  }

  predicate NeedsFirstOrder(conditions: seq<Condition>) {
    exists i :: 0 <= i < |conditions| && conditions[i].FirstOrderOnly?
  }

  predicate ValueSuffices(conditions: seq<Condition>, total: int) {
    forall i :: 0 <= i < |conditions| && conditions[i].MinOrderValue?
                ==> Compare(total, conditions[i].amount, conditions[i].op)
  }

  /** The conditions on what is in the cart, leaving out its value and who buys it. */
  predicate ContentsSuffice(conditions: seq<Condition>, c: Cart) {
    forall i :: 0 <= i < |conditions| && !conditions[i].FirstOrderOnly? && !conditions[i].MinOrderValue?
                ==> ConditionHolds(conditions[i], CartContext(c))
  }

  lemma {:induction false} ConditionsSplit(conditions: seq<Condition>, c: Cart, ctx: Context)
    requires SeesCart(ctx, c)
    ensures CheckConditions(conditions, ctx) <==>
            ContentsSuffice(conditions, c) && ValueSuffices(conditions, ctx.subtotal) &&
            (NeedsFirstOrder(conditions) ==> ctx.isFirstOrder)
  {
    forall i | 0 <= i < |conditions|
      ensures match conditions[i]
              case FirstOrderOnly => ConditionHolds(conditions[i], ctx) <==> ctx.isFirstOrder
              case MinOrderValue(op, n) => ConditionHolds(conditions[i], ctx) <==> Compare(ctx.subtotal, n, op)
              case _ => ConditionHolds(conditions[i], ctx) <==> ConditionHolds(conditions[i], CartContext(c))
    {
      SameContentsCondition(conditions[i], c, ctx);
    }
  }

  lemma {:induction false} SameContentsCondition(d: Condition, c: Cart, ctx: Context)
    requires SeesCart(ctx, c)
    ensures !d.FirstOrderOnly? && !d.MinOrderValue? ==> (ConditionHolds(d, ctx) <==> ConditionHolds(d, CartContext(c)))
  {
    assert forall id :: InCart(id, ctx) <==> InCart(id, CartContext(c));
  }

  /** Contexts in which every component matches the same items count and price the same sets. */
  lemma {:induction false} SameMatchesSameBundle(cs: seq<Component>, a: Context, b: Context)
    requires a.items == b.items
    requires forall c, i :: c in cs && i in a.items ==> (Matches(c, a.products, i) <==> Matches(c, b.products, i))
    ensures cs != [] ==> BundleCount(cs, a) == BundleCount(cs, b)
    ensures ComboBase(cs, a) == ComboBase(cs, b)
  {
    if cs != [] {
      var init, last := cs[..|cs| - 1], cs[|cs| - 1];
      assert cs == init + [last];
      SameMatchesSameBundle(init, a, b);
      SumSame(MatchedQuantity(last, a.products), MatchedQuantity(last, b.products), a.items);
      SameUnitPrice(last, a.products, b.products, a.items);
    }
  }

  lemma {:induction false} SameUnitPrice(c: Component, p: map<int, ProductInfo>, q: map<int, ProductInfo>,
                                         items: seq<CartItem>)
    requires forall i :: i in items ==> (Matches(c, p, i) <==> Matches(c, q, i))
    ensures UnitPrice(c, p, items) == UnitPrice(c, q, items)
  {
    if items != [] {
      SameUnitPrice(c, p, q, items[..|items| - 1]);
      assert items[|items| - 1] in items;
    }
  }

  // -- Coupons: cart preview against checkout ---------------------------------

  datatype Coupon = Coupon(promo: Promotion, quota: Quota)

  /** The cart's entry for a saved coupon code. */
  function PreviewCoupon(found: Option<Coupon>, ctx: Context): CartEntry {
    match found
    case None => CartEntry(0, FromCoupon, Exhausted, 0)
    case Some(c) =>
      if UsedUp(c.quota) then CartEntry(c.promo.id, FromCoupon, Exhausted, 0)
      else if Applicable(c.promo, ctx) then CartEntry(c.promo.id, FromCoupon, Active, CalculateDiscount(c.promo, ctx))
      else CartEntry(c.promo.id, FromCoupon, Unmet, 0)
  }

  /** Checkout's use of a coupon code. */
  function ApplyCoupon(found: Option<Coupon>, customerUses: int, ctx: Context): Result<Applied, CouponError> {
    var refusal := QuotaError(if found.Some? then Some(found.value.quota) else None, customerUses);
    if refusal.Some? then Err(refusal.value)
    else if !CheckConditions(found.value.promo.conditions, ctx) then Err(ConditionsNotMet)
    else Ok(Applied(found.value.promo.id, CalculateDiscount(found.value.promo, ctx)))
  }

  /** What only the cart page asks, given that the code is not used up and the contents suffice. */
  predicate CartAsks(p: Promotion, c: Cart) {
    && CheckScope(p.scopes, CartContext(c))
    && !NeedsFirstOrder(p.conditions)
    && ValueSuffices(p.conditions, ListedTotal(c.items))
  }

  /** What only checkout asks. */
  predicate CheckoutAsks(k: Coupon, customerUses: int, total: int, firstOrder: bool) {
    && BelowPersonalLimit(k.quota, customerUses)
    && (NeedsFirstOrder(k.promo.conditions) ==> firstOrder)
    && ValueSuffices(k.promo.conditions, total)
  }

  /** Without the product lookup these actions find no product or category. */
  predicate LooksUpProducts(a: Action) {
    a.BxgyAction? ||
    (a.BundleAction? && exists i :: 0 <= i < |a.components| && a.components[i].kind in {ProductRef, CategoryRef})
  }

  predicate SamePercent(h: int, s: int, t: int) {
    RoundDiv(s * h, 10000) == RoundDiv(t * h, 10000)
  }

  /** The action's amount is the same at subtotal t as in the cart. */
  predicate SameAtTotal(a: Action, c: Cart, t: int) {
    var s := ListedTotal(c.items);
    s == t ||
    match a
    case PercentageAction(h, cap) =>
      SamePercent(h, s, t) ||
      (cap.Some? && cap.value != 0 && RoundDiv(s * h, 10000) >= cap.value && RoundDiv(t * h, 10000) >= cap.value)
    case FixedCartAction(n) => n <= s && n <= t
    case BulkAction(tiers) => (
      match BestTier(tiers, Sum(QuantityOf(), c.items))
      case None => true
      case Some(tier) => (
        match tier.discount
        case Percent(h) => SamePercent(h, s, t)
        case Fixed(n) => n <= s && n <= t
        case NoDiscount => 0 <= s && 0 <= t))
    case BundleAction(cs, d) =>
      cs == [] || BundleCount(cs, CartContext(c)) <= 0 ||
      (var total := BundleTotal(BundleCount(cs, CartContext(c)), ComboBase(cs, CartContext(c)), d);
       total <= s && total <= t)
    case _ => true
  }

  /** The amount survives the step from the cart to checkout: worth nothing in the cart if it
      needs the product lookup, unmoved by the new total otherwise. */
  predicate AmountStays(p: Promotion, c: Cart, t: int) {
    p.action.None? ||
    if LooksUpProducts(p.action.value) then CalculateDiscount(p, CartContext(c)) == 0
    else SameAtTotal(p.action.value, c, t)
  }

  lemma {:induction false} NoLookupNoGift(giftId: int, items: seq<CartItem>)
    ensures GiftPrice(giftId, map[], items) == 0
  {
    if items != [] { NoLookupNoGift(giftId, items[1..]); }
  }

  /** At checkout a coupon for a gift, or for a bundle of products or categories, is worth nothing. */
  lemma {:induction false} LookupCouponsAreWorthless(a: Action, c: Cart, total: int, firstOrder: bool)
    requires LooksUpProducts(a)
    ensures ActionDiscount(a, CouponContext(c, total, firstOrder)) == 0
  {
    var ctx := CouponContext(c, total, firstOrder);
    if a.BxgyAction? {
      if a.bxgy.getProductId.Some? { NoLookupNoGift(a.bxgy.getProductId.value, c.items); }
    } else {
      var i :| 0 <= i < |a.components| && a.components[i].kind in {ProductRef, CategoryRef};
      var d := a.components[i];
      SumZero(MatchedQuantity(d, ctx.products), ctx.items);
      BundleCountIsGreatest(a.components, ctx, 1);
      assert d in a.components && 1 * Needed(d) > Got(d, ctx);
    }
  }

  lemma {:induction false} SameAmountIff(a: Action, c: Cart, total: int, firstOrder: bool)
    requires !LooksUpProducts(a)
    ensures ActionDiscount(a, CartContext(c)) == ActionDiscount(a, CouponContext(c, total, firstOrder)) <==>
            SameAtTotal(a, c, total)
  {
    match a {
      case PercentageAction(h, cap) =>
        if cap.Some? {
          RoundedMin(ListedTotal(c.items) * h, cap.value);
          RoundedMin(total * h, cap.value);
        }
      case BundleAction(cs, d) =>
        forall k | k in cs ensures k.kind !in {ProductRef, CategoryRef} {
          var i :| 0 <= i < |cs| && cs[i] == k;
        }
        SameMatchesSameBundle(cs, CartContext(c), CouponContext(c, total, firstOrder));
      case _ =>
    }
  }

  lemma {:induction false} AmountStaysIff(p: Promotion, c: Cart, total: int, firstOrder: bool)
    ensures CalculateDiscount(p, CartContext(c)) == CalculateDiscount(p, CouponContext(c, total, firstOrder)) <==>
            AmountStays(p, c, total)
  {
    if p.action.Some? {
      if LooksUpProducts(p.action.value) {
        LookupCouponsAreWorthless(p.action.value, c, total, firstOrder);
      } else {
        SameAmountIff(p.action.value, c, total, firstOrder);
      }
    }
  }

  /** Checkout accepts a coupon just when the cart shows it as active exactly when what only the
      cart asks and what only checkout asks are both met or both not, or the code is used up or
      the contents do not suffice, so that both turn it down. It then takes off the amount shown
      exactly when the amount survives the missing lookup and the new total. */
  lemma {:induction false} CouponPreviewMatchesCheckoutIff(k: Coupon, customerUses: int, c: Cart, total: int,
                                                           firstOrder: bool)
    ensures var seen := PreviewCoupon(Some(k), CartContext(c));
            var got := ApplyCoupon(Some(k), customerUses, CouponContext(c, total, firstOrder));
            var bothTurnDown := UsedUp(k.quota) || !ContentsSuffice(k.promo.conditions, c);
            var asks, asksToo := CartAsks(k.promo, c), CheckoutAsks(k, customerUses, total, firstOrder);
            && ((seen.status == Active <==> got.Ok?) <==> bothTurnDown || (asks <==> asksToo))
            && ((if seen.status == Active then got == Ok(Applied(seen.promotionId, seen.amount)) else got.Err?) <==>
                bothTurnDown || ((asks <==> asksToo) && (asksToo ==> AmountStays(k.promo, c, total))))
  {
    ConditionsSplit(k.promo.conditions, c, CartContext(c));
    ConditionsSplit(k.promo.conditions, c, CouponContext(c, total, firstOrder));
    AmountStaysIff(k.promo, c, total, firstOrder);
  }

  // -- Inputs on which the cart and checkout disagree about a coupon ----------

  function OneItemCart(): Cart {
    Cart([CartItem(1, 1, 200)], [], [], map[1 := ProductInfo(7, None)])
  }

  function TakeOff(scopes: seq<Scope>, conditions: seq<Condition>, action: Action): Promotion {
    Promotion(1, scopes, conditions, Some(action), false)
  }

  /** Shown as active, refused: the personal limit is used up, or the flash-sale total is too low. */
  lemma {:induction false} ShownButRefused()
    ensures var k := Coupon(TakeOff([], [], FixedCartAction(20)), Quota(0, None, Some(1)));
            PreviewCoupon(Some(k), CartContext(OneItemCart())).status == Active &&
            ApplyCoupon(Some(k), 1, CouponContext(OneItemCart(), 200, false)) == Err(CustomerLimitReached)
    ensures var k := Coupon(TakeOff([], [MinOrderValue(Gte, 200)], FixedCartAction(20)), Quota(0, None, None));
            PreviewCoupon(Some(k), CartContext(OneItemCart())).status == Active &&
            ApplyCoupon(Some(k), 0, CouponContext(OneItemCart(), 150, false)) == Err(ConditionsNotMet)
  {
    SumPush(LineValue(), [], CartItem(1, 1, 200));
    assert [] + [CartItem(1, 1, 200)] == OneItemCart().items;
    var dear := [MinOrderValue(Gte, 200)];
    assert !ConditionHolds(dear[0], CouponContext(OneItemCart(), 150, false));
  }

  /** Accepted, though shown as unmet: the scope does not match, or it is the customer's first order. */
  lemma {:induction false} AcceptedThoughUnmet()
    ensures var k := Coupon(TakeOff([CategoryScope(Some(3))], [], FixedCartAction(20)), Quota(0, None, None));
            PreviewCoupon(Some(k), CartContext(OneItemCart())).status == Unmet &&
            ApplyCoupon(Some(k), 0, CouponContext(OneItemCart(), 200, false)) == Ok(Applied(1, 20))
    ensures var k := Coupon(TakeOff([], [FirstOrderOnly], FixedCartAction(20)), Quota(0, None, None));
            PreviewCoupon(Some(k), CartContext(OneItemCart())).status == Unmet &&
            ApplyCoupon(Some(k), 0, CouponContext(OneItemCart(), 200, true)) == Ok(Applied(1, 20))
  {
    var first := [FirstOrderOnly];
    assert first[0] == FirstOrderOnly;
    assert !CheckConditions(first, CartContext(OneItemCart()));
  }

  /** Accepted at another amount: a bundle of a product, which checkout cannot look up. */
  lemma {:induction false} AcceptedAtAnotherAmount()
    ensures var cs := [Component(ProductRef, Some(7), 1)];
            var k := Coupon(TakeOff([], [], BundleAction(cs, Percent(1000))), Quota(0, None, None));
            var seen := PreviewCoupon(Some(k), CartContext(OneItemCart()));
            && seen.status == Active && seen.amount == 20
            && ApplyCoupon(Some(k), 0, CouponContext(OneItemCart(), 200, false)) == Ok(Applied(1, 0))
  {
    var d := Component(ProductRef, Some(7), 1);
    var i, ctx := CartItem(1, 1, 200), CartContext(OneItemCart());
    OneMatch(d, ctx, i);
    SumPush(PriceOfOne(ctx), [], d);
    assert [] + [d] == [d];
    var a := BundleAction([d], Percent(1000));
    assert a.components[0].kind == ProductRef;
    LookupCouponsAreWorthless(a, OneItemCart(), 200, false);
  }
}
