/** What lines, gifts and whole orders cost, in the prices of variants and flash sales alone. */
module Prices {
  import opened Wrappers
  import opened Sums
  import opened Promotions
  import opened Stacking
  import opened Checkout
  import opened Discounts
  import opened Amounts

  /** The flash sale has the whole line left. */
  predicate Served(l: CartItem, sales: map<int, FlashSale>) {
    l.variantId in sales && l.quantity <= sales[l.variantId].remaining
  }

  /** An order is only taken from variants that are known, on show, and in stock for the whole line. */
  lemma {:induction false} SellableIff(items: seq<CartItem>, variants: map<int, Variant>)
    ensures AllSellable(items, variants) <==>
            forall l :: l in items ==>
              l.variantId in variants && !variants[l.variantId].hidden && l.quantity <= variants[l.variantId].stock
  {
    if AllSellable(items, variants) {
      forall l | l in items
        ensures l.variantId in variants && !variants[l.variantId].hidden && l.quantity <= variants[l.variantId].stock
      {
        var k :| 0 <= k < |items| && items[k] == l;
        assert LineError(items[k], variants).None?;
      }
    } else {
      var k :| 0 <= k < |items| && LineError(items[k], variants).Some?;
      assert items[k] in items;
    }
  }

  /** A line is refused as not for sale exactly when its variant is unknown or hidden, and as out of
      stock exactly when that is not so and the stock is smaller than the line. */
  lemma {:induction false} RefusedLine(l: CartItem, variants: map<int, Variant>)
    ensures var shown := l.variantId in variants && !variants[l.variantId].hidden;
            && (LineError(l, variants) == Some(NotForSale) <==> !shown)
            && (LineError(l, variants) == Some(OutOfStock) <==> shown && variants[l.variantId].stock < l.quantity)
  {}

  // -- One line ---------------------------------------------------------------

  /** A line the sale can serve in full is charged at the flash price and remembers the original
      one; any other is charged at the variant's price and has no part in the sale. */
  lemma {:induction false} LineDelivers(items: seq<CartItem>, variants: map<int, Variant>, sales: map<int, FlashSale>,
                                        k: nat)
    requires AllSellable(items, variants) && k < |items|
    ensures var l, line := items[k], PricedLines(items, variants, sales)[k];
            && line.variantId == l.variantId && line.quantity == l.quantity && line.promotion.None?
            && (Served(l, sales) ==>
                  var fs := sales[l.variantId];
                  && line.unitPrice == fs.flashPrice && line.lineTotal == fs.flashPrice * l.quantity
                  && line.originalPrice == fs.originalPrice && line.flashSale == Some(fs.saleId))
            && (!Served(l, sales) ==>
                  var price := variants[l.variantId].price;
                  && line.unitPrice == price && line.lineTotal == price * l.quantity
                  && line.originalPrice == price && line.flashSale.None?)
  {}

  // -- All lines --------------------------------------------------------------

  /** What a line costs before any sale, per unit. */
  function FullPrice(l: CartItem, variants: map<int, Variant>, sales: map<int, FlashSale>): int
    requires l.variantId in variants
  {
    if Served(l, sales) then sales[l.variantId].originalPrice else variants[l.variantId].price
  }

  /** Original prices times quantities. */
  function FullValue(items: seq<CartItem>, variants: map<int, Variant>, sales: map<int, FlashSale>): int
    requires AllSellable(items, variants)
  {
    if items == [] then 0
    else
      var l := items[|items| - 1];
      assert LineError(l, variants).None?;
      FullValue(items[..|items| - 1], variants, sales) + FullPrice(l, variants, sales) * l.quantity
  }

  lemma {:induction false} LastLine(items: seq<CartItem>, variants: map<int, Variant>, sales: map<int, FlashSale>)
    requires AllSellable(items, variants) && items != []
    ensures var init, lines := items[..|items| - 1], PricedLines(items, variants, sales);
            AllSellable(init, variants) && lines[..|lines| - 1] == PricedLines(init, variants, sales)
  {}

  /** The goods total and the savings together are what the goods would cost without the sale. */
  lemma {:induction false} GoodsAndSavingsAddUp(items: seq<CartItem>, variants: map<int, Variant>,
                                                sales: map<int, FlashSale>)
    requires AllSellable(items, variants)
    ensures GoodsTotal(items, variants, sales) + Sum(SaleSavings(), PricedLines(items, variants, sales))
            == FullValue(items, variants, sales)
  {
    if items != [] {
      LastLine(items, variants, sales);
      GoodsAndSavingsAddUp(items[..|items| - 1], variants, sales);
      var l := items[|items| - 1];
      LineDelivers(items, variants, sales, |items| - 1);
      if Served(l, sales) {
        var fs := sales[l.variantId];
        Distribute(fs.flashPrice, fs.originalPrice - fs.flashPrice, l.quantity);
      }
    }
  }

  /** With flash prices at most the original ones no line saves a negative amount. */
  lemma {:induction false} NoNegativeSaving(items: seq<CartItem>, variants: map<int, Variant>,
                                            sales: map<int, FlashSale>)
    requires AllSellable(items, variants) && forall l :: l in items ==> l.quantity >= 0
    requires forall v :: v in sales ==> sales[v].flashPrice <= sales[v].originalPrice
    ensures forall line :: line in PricedLines(items, variants, sales) ==> Savings(line) >= 0
    ensures GoodsTotal(items, variants, sales) <= FullValue(items, variants, sales)
  {
    var lines := PricedLines(items, variants, sales);
    forall line | line in lines ensures Savings(line) >= 0 {
      var k :| 0 <= k < |lines| && lines[k] == line;
      assert items[k] in items;
      LineDelivers(items, variants, sales, k);
      MulLe(0, line.originalPrice - line.unitPrice, line.quantity);
    }
    SumNonNegative(SaleSavings(), lines);
    GoodsAndSavingsAddUp(items, variants, sales);
  }

  function Lowered(sales: map<int, FlashSale>, v: int, d: int): map<int, FlashSale>
    requires v in sales
  {
    sales[v := sales[v].(flashPrice := sales[v].flashPrice - d)]
  }

  /** The quantity of variant v that the sale serves. */
  function ServedQuantity(items: seq<CartItem>, sales: map<int, FlashSale>, v: int): int {
    if items == [] then 0
    else
      var l := items[|items| - 1];
      ServedQuantity(items[..|items| - 1], sales, v) + if l.variantId == v && Served(l, sales) then l.quantity else 0
  }

  lemma {:induction false} LoweredLine(items: seq<CartItem>, variants: map<int, Variant>, sales: map<int, FlashSale>,
                                       v: int, d: int, k: nat)
    requires AllSellable(items, variants) && v in sales && k < |items|
    ensures PricedLines(items, variants, Lowered(sales, v, d))[k].lineTotal
            == PricedLines(items, variants, sales)[k].lineTotal
               - if items[k].variantId == v && Served(items[k], sales) then d * items[k].quantity else 0
  {
    LineDelivers(items, variants, sales, k);
    LineDelivers(items, variants, Lowered(sales, v, d), k);
    if items[k].variantId == v && Served(items[k], sales) {
      Distribute(sales[v].flashPrice, 0 - d, items[k].quantity);
    }
  }

  lemma {:induction false} GoodsWithLast(items: seq<CartItem>, variants: map<int, Variant>, sales: map<int, FlashSale>)
    requires AllSellable(items, variants) && items != []
    ensures AllSellable(items[..|items| - 1], variants)
    ensures GoodsTotal(items, variants, sales)
            == GoodsTotal(items[..|items| - 1], variants, sales)
               + PricedLines(items, variants, sales)[|items| - 1].lineTotal
  {
    LastLine(items, variants, sales);
  }

  /** Lowering a flash price by d lowers the goods total by d for every piece the sale serves. */
  lemma {:induction false} LowerFlashPrice(items: seq<CartItem>, variants: map<int, Variant>,
                                           sales: map<int, FlashSale>, v: int, d: int)
    requires AllSellable(items, variants) && v in sales
    ensures GoodsTotal(items, variants, Lowered(sales, v, d))
            == GoodsTotal(items, variants, sales) - d * ServedQuantity(items, sales, v)
  {
    if items != [] {
      var init, q := items[..|items| - 1], items[|items| - 1].quantity;
      GoodsWithLast(items, variants, sales);
      GoodsWithLast(items, variants, Lowered(sales, v, d));
      LowerFlashPrice(init, variants, sales, v, d);
      LoweredLine(items, variants, sales, v, d, |items| - 1);
      Distribute(ServedQuantity(init, sales, v), q, d);
    }
  }

  // -- Gifts ------------------------------------------------------------------

  /** A gift line is charged what its percentage leaves of the price, to the nearest dong, per piece,
      and names its promotion; a gift without a variant or enough stock leaves no line. */
  lemma {:induction false} GiftLineDelivers(o: GiftOrder, stock: map<int, GiftVariant>, unit: nat)
    requires o.gift.productId in stock && o.gift.getQty <= stock[o.gift.productId].stock
    requires Nearest(unit, stock[o.gift.productId].price * (100 - o.gift.pct), 100)
    ensures var gv := stock[o.gift.productId];
            GiftLines([o], stock) == [OrderItem(gv.variantId, o.gift.getQty, unit, unit * o.gift.getQty, gv.price, None,
                                                Some(o.promotionId))]
  {
    RoundingIsNearest(stock[o.gift.productId].price * (100 - o.gift.pct), 100, unit);
    assert [o][..0] == [] && GiftLines([], stock) == [];
  }

  lemma {:induction false} UndeliverableGift(o: GiftOrder, stock: map<int, GiftVariant>)
    requires o.gift.productId !in stock || stock[o.gift.productId].stock < o.gift.getQty
    ensures GiftLines([o], stock) == []
  {
    assert [o][..0] == [] && GiftLines([], stock) == [];
  }

  // -- Rows -------------------------------------------------------------------

  /** The row a promotion's action leaves on an order. */
  predicate RowFor(a: Action, row: PromoRow, amount: int) {
    && (a.FreeShippingAction? ==> row.rowType == FreeShippingRow && row.amount == amount)
    && (a.BundleAction? ==> row.rowType == BundleRow && row.amount == amount)
    && (a.BxgyAction? ==> row.rowType == BxgyRow && row.amount == 0)
    && (!a.FreeShippingAction? && !a.BundleAction? && !a.BxgyAction? ==> row.rowType == AutoRow && row.amount == amount)
  }

  /** Every promotion checkout gets to and that grants something leaves a row under its id, of the
      type and with the amount its action has. */
  lemma {:induction false} PromotionLeavesRow(s: Sale, i: nat) returns (row: PromoRow)
    requires s.cart.items != [] && i < |s.ps| && Reached(CheckoutDecisions(s.ps, At(s)), i)
    requires EvaluateSinglePromotion(s.ps[i], At(s)).Some?
    ensures row in EffectRows(Effects(s)) && row.promotionId == s.ps[i].id && s.ps[i].action.Some?
    ensures RowFor(s.ps[i].action.value, row, ActionDiscount(s.ps[i].action.value, At(s)))
  {
    var ds := CheckoutDecisions(s.ps, At(s));
    var e := ds[i].out.value;
    CollectedIsReached(ds, |s.ps|, e);
    var k :| 0 <= k < |Effects(s)| && Effects(s)[k] == e;
    row := RowOf(e);
    assert EffectRows(Effects(s))[k] == row;
  }

  // -- Whole orders -----------------------------------------------------------

  /** An order as PlaceOrder makes it. */
  ghost predicate PlacedFor(o: Order, s: Sale, variants: map<int, Variant>, sales: map<int, FlashSale>,
                            giftStock: map<int, GiftVariant>)
    requires AllSellable(s.cart.items, variants)
  {
    && s.total == GoodsTotal(s.cart.items, variants, sales)
    && MadeUpOf(o, PricedLines(s.cart.items, variants, sales), Effects(s), CouponOf(s), giftStock, s.fee)
    && o.payable == PayableFromRows(o)
  }

  lemma {:induction false} FlashRowsTakeNothing(agg: seq<SaleTotal>, rows: seq<PromoRow>)
    ensures Sum(Discounting(), FlashRows(agg) + rows) == Sum(Discounting(), rows)
  {
    FlashRowSums(agg);
    SumAppend(Discounting(), FlashRows(agg), rows);
  }

  /** The customer pays the goods at what the sale leaves of their full value, the gifts and the fee,
      unless waived, less what the promotions and the coupon take off. */
  lemma {:induction false} OrderCosts(o: Order, s: Sale, variants: map<int, Variant>, sales: map<int, FlashSale>,
                                      giftStock: map<int, GiftVariant>)
    requires AllSellable(s.cart.items, variants) && PlacedFor(o, s, variants, sales, giftStock)
    ensures o.payable == FullValue(s.cart.items, variants, sales)
                         - Sum(SaleSavings(), PricedLines(s.cart.items, variants, sales))
                         + Sum(LineTotal(), GiftLines(GiftsOf(Effects(s)), giftStock))
                         + FeeCharged(s) - Taken(s)
  {
    GoodsAndSavingsAddUp(s.cart.items, variants, sales);
    SumAppend(LineTotal(), PricedLines(s.cart.items, variants, sales), GiftLines(GiftsOf(Effects(s)), giftStock));
    RowsTake(o, s, variants, sales, giftStock);
  }

  lemma {:induction false} RowsTake(o: Order, s: Sale, variants: map<int, Variant>, sales: map<int, FlashSale>,
                                    giftStock: map<int, GiftVariant>)
    requires AllSellable(s.cart.items, variants) && PlacedFor(o, s, variants, sales, giftStock)
    ensures Sum(Discounting(), o.promoRows) == Taken(s)
  {
    var agg :| Aggregates(agg, o.items) &&
               o.promoRows == FlashRows(agg) + CouponRows(CouponOf(s)) + EffectRows(Effects(s));
    FlashRowsAside(agg, CouponRows(CouponOf(s)), EffectRows(Effects(s)));
  }

  lemma {:induction false} FlashRowsAside(agg: seq<SaleTotal>, a: seq<PromoRow>, b: seq<PromoRow>)
    ensures Sum(Discounting(), FlashRows(agg) + a + b) == Sum(Discounting(), a + b)
  {
    assert FlashRows(agg) + a + b == FlashRows(agg) + (a + b);
    FlashRowsTakeNothing(agg, a + b);
  }

  lemma {:induction false} NothingExtra(s: Sale, giftStock: map<int, GiftVariant>)
    requires s.ps == [] && s.coupon.None?
    ensures Effects(s) == [] && Taken(s) == 0 && FeeCharged(s) == s.fee
    ensures GiftLines(GiftsOf(Effects(s)), giftStock) == []
  {
    TakenSplits(s);
  }

  /** Without promotions a lower flash price lowers what the customer pays by as much for every piece
      the sale serves; and pick-up adds nothing, standard delivery 25000, express 40000. */
  lemma {:induction false} PlainOrderCosts(o: Order, o': Order, s: Sale, s': Sale, variants: map<int, Variant>,
                                           sales: map<int, FlashSale>, giftStock: map<int, GiftVariant>,
                                           v: int, d: int, how: Shipping)
    requires AllSellable(s.cart.items, variants) && v in sales
    requires s.ps == [] && s.coupon.None? && s.fee == RawShippingFee(how)
    requires s' == s.(total := s'.total)
    requires PlacedFor(o, s, variants, sales, giftStock) && PlacedFor(o', s', variants, Lowered(sales, v, d), giftStock)
    ensures o'.payable == o.payable - d * ServedQuantity(s.cart.items, sales, v)
    ensures o.payable == GoodsTotal(s.cart.items, variants, sales)
                         + match how case StorePickup => 0 case Standard => 25000 case Express => 40000
  {
    NothingExtra(s, giftStock);
    NothingExtra(s', giftStock);
    OrderCosts(o, s, variants, sales, giftStock);
    OrderCosts(o', s', variants, Lowered(sales, v, d), giftStock);
    GoodsAndSavingsAddUp(s.cart.items, variants, sales);
    GoodsAndSavingsAddUp(s.cart.items, variants, Lowered(sales, v, d));
    LowerFlashPrice(s.cart.items, variants, sales, v, d);
  }
}
