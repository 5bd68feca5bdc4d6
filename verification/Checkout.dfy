/** Checkout: pricing the lines, materialising the promotions, and the rows that are persisted. */
module Checkout {
  import opened Wrappers
  import opened Sums
  import opened Promotions
  import opened Stacking

  datatype Variant = Variant(price: int, hidden: bool, stock: int)
  datatype FlashSale = FlashSale(saleId: Id, flashPrice: int, originalPrice: int, remaining: int)
  datatype GiftVariant = GiftVariant(variantId: int, price: int, stock: int)
  datatype CouponUse = CouponUse(promotionId: Id, amount: int)

  /** The promotion an entered code names, if any, and the customer's usage rows for it. */
  datatype CouponRequest = CouponRequest(found: Option<Coupon>, customerUses: int)
  datatype Shipping = Express | StorePickup | Standard

  datatype OrderItem = OrderItem(variantId: int, quantity: int, unitPrice: int, lineTotal: int,
                                 originalPrice: int, flashSale: Option<Id>, promotion: Option<int>)
  datatype RowType = FlashSaleRow | CouponRow | FreeShippingRow | BundleRow | BxgyRow | AutoRow
  datatype PromoRow = PromoRow(promotionId: int, rowType: RowType, amount: int)
  datatype Consumption = Consumption(variantId: int, quantity: int, saleId: Id)

  datatype Order = Order(items: seq<OrderItem>, promoRows: seq<PromoRow>, shippingFee: int,
                         goodsTotal: int, discount: int, payable: int)

  datatype Error = EmptyCart | NoSuchAddress | NotForSale | OutOfStock | BadCoupon(reason: CouponError)

  function RawShippingFee(s: Shipping): int {
    match s case Express => 40000 case StorePickup => 0 case Standard => 25000
  }

  // -- Pricing ----------------------------------------------------------------

  function LineError(l: CartItem, variants: map<int, Variant>): Option<Error> {
    if l.variantId !in variants || variants[l.variantId].hidden then Some(NotForSale)
    else if variants[l.variantId].stock < l.quantity then Some(OutOfStock)
    else None
  }

  /** A flash sale applies to a line as a whole or not at all. */
  predicate OnSale(l: CartItem, sales: map<int, FlashSale>) {
    l.variantId in sales && sales[l.variantId].remaining >= l.quantity
  }

  function Priced(l: CartItem, variants: map<int, Variant>, sales: map<int, FlashSale>): OrderItem
    requires LineError(l, variants).None?
  {
    if OnSale(l, sales) then
      var fs := sales[l.variantId];
      OrderItem(l.variantId, l.quantity, fs.flashPrice, fs.flashPrice * l.quantity, fs.originalPrice,
                Some(fs.saleId), None)
    else
      var p := variants[l.variantId].price;
      OrderItem(l.variantId, l.quantity, p, p * l.quantity, p, None, None)
  }

  function LineTotal(): OrderItem -> int { (i: OrderItem) => i.lineTotal }

  function Savings(i: OrderItem): int { (i.originalPrice - i.unitPrice) * i.quantity }

  function SaleSavings(): OrderItem -> int {
    (i: OrderItem) => if i.flashSale.Some? then Savings(i) else 0
  }

  function SavingsOf(sale: Id): OrderItem -> int {
    (i: OrderItem) => if i.flashSale == Some(sale) then Savings(i) else 0
  }

  predicate AllSellable(cart: seq<CartItem>, variants: map<int, Variant>) {
    forall k :: 0 <= k < |cart| ==> LineError(cart[k], variants).None?
  }

  function PricedLines(cart: seq<CartItem>, variants: map<int, Variant>, sales: map<int, FlashSale>): seq<OrderItem>
    requires AllSellable(cart, variants)
  {
    seq(|cart|, k requires 0 <= k < |cart| => Priced(cart[k], variants, sales))
  }

  method PriceLine(item: CartItem, variants: map<int, Variant>, sales: map<int, FlashSale>) returns (line: OrderItem)
    requires LineError(item, variants).None?
    ensures line == Priced(item, variants, sales)
  {
    var v := variants[item.variantId];
    var useFlashSale := item.variantId in sales && sales[item.variantId].remaining >= item.quantity;
    var unit := if useFlashSale then sales[item.variantId].flashPrice else v.price;
    var original := if useFlashSale then sales[item.variantId].originalPrice else v.price;
    var sale := if useFlashSale then Some(sales[item.variantId].saleId) else None;
    line := OrderItem(item.variantId, item.quantity, unit, unit * item.quantity, original, sale, None);
  }

  lemma {:induction false} OneMoreLine(items: seq<OrderItem>, line: OrderItem)
    ensures Sum(LineTotal(), items + [line]) == Sum(LineTotal(), items) + line.lineTotal
    ensures Sum(SaleSavings(), items + [line])
            == Sum(SaleSavings(), items) + if line.flashSale.Some? then Savings(line) else 0
    ensures Consumed(items + [line]) == Consumed(items) +
              if line.flashSale.Some? then [Consumption(line.variantId, line.quantity, line.flashSale.value)] else []
  {
    SumPush(LineTotal(), items, line);
    SumPush(SaleSavings(), items, line);
    assert (items + [line])[..|items|] == items;
  }

  method PriceLines(cart: seq<CartItem>, variants: map<int, Variant>, sales: map<int, FlashSale>)
    returns (r: Result<seq<OrderItem>, Error>, goodsTotal: int, itemSavings: int, used: seq<Consumption>)
    ensures r.Ok? <==> AllSellable(cart, variants)
    ensures r.Err? ==> exists k :: 0 <= k < |cart| && LineError(cart[k], variants) == Some(r.error) &&
                                   forall j :: 0 <= j < k ==> LineError(cart[j], variants).None?
    ensures r.Ok? ==> r.value == PricedLines(cart, variants, sales)
    ensures r.Ok? ==> goodsTotal == Sum(LineTotal(), r.value)
    ensures r.Ok? ==> itemSavings == Sum(SaleSavings(), r.value)
    ensures r.Ok? ==> used == Consumed(r.value)
  {
    var items := [];
    goodsTotal, itemSavings, used := 0, 0, [];
    for n := 0 to |cart|
      invariant forall k :: 0 <= k < n ==> LineError(cart[k], variants).None?
      invariant |items| == n && forall k :: 0 <= k < n ==> items[k] == Priced(cart[k], variants, sales)
      invariant goodsTotal == Sum(LineTotal(), items)
      invariant itemSavings == Sum(SaleSavings(), items)
      invariant used == Consumed(items)
    {
      var item := cart[n];
      if item.variantId !in variants || variants[item.variantId].hidden {
        r := Err(NotForSale);
        return;
      }
      if variants[item.variantId].stock < item.quantity {
        r := Err(OutOfStock);
        return;
      }
      var line := PriceLine(item, variants, sales);
      goodsTotal := goodsTotal + line.lineTotal;
      itemSavings := itemSavings + (line.originalPrice - line.unitPrice) * item.quantity;
      OneMoreLine(items, line);
      items := items + [line];
      if line.flashSale.Some? {
        used := used + [Consumption(item.variantId, item.quantity, line.flashSale.value)];
      }
    }
    r := Ok(items);
  }

  /** The flash-sale stock an order takes: one entry per line sold at a flash price. */
  function Consumed(items: seq<OrderItem>): seq<Consumption> {
    if items == [] then []
    else
      var i := items[|items| - 1];
      Consumed(items[..|items| - 1]) +
      (if i.flashSale.Some? then [Consumption(i.variantId, i.quantity, i.flashSale.value)] else [])
  }

  function TakenOf(v: int): Consumption -> int { (u: Consumption) => if u.variantId == v then u.quantity else 0 }

  /** With one line per variant, as the cart table enforces, no order takes more of a
      flash-sale item than the sale has left. */
  lemma {:induction false} FlashStockNeverOversold(cart: seq<CartItem>, variants: map<int, Variant>, sales: map<int,
                                                   FlashSale>, v: int)
    requires AllSellable(cart, variants)
    requires forall i, j :: 0 <= i < j < |cart| ==> cart[i].variantId != cart[j].variantId
    requires v in sales && sales[v].remaining >= 0
    ensures Sum(TakenOf(v), Consumed(PricedLines(cart, variants, sales))) <= sales[v].remaining
    ensures (forall k :: 0 <= k < |cart| ==> cart[k].variantId != v)
            ==> Sum(TakenOf(v), Consumed(PricedLines(cart, variants, sales))) == 0
  {
    if cart != [] {
      var init, last := cart[..|cart| - 1], cart[|cart| - 1];
      FlashStockNeverOversold(init, variants, sales, v);
      assert PricedLines(cart, variants, sales)[..|cart| - 1] == PricedLines(init, variants, sales);
      var before := Consumed(PricedLines(init, variants, sales));
      assert forall k :: 0 <= k < |init| ==> init[k] == cart[k];
      if OnSale(last, sales) {
        var use := Consumption(last.variantId, last.quantity, sales[last.variantId].saleId);
        assert Consumed(PricedLines(cart, variants, sales)) == before + [use];
        SumPush(TakenOf(v), before, use);
      } else {
        assert Consumed(PricedLines(cart, variants, sales)) == before;
      }
    }
  }

  // -- Automatic promotions and gifts -----------------------------------------

  function RowTypeOf(k: Kind): RowType {
    match k case FreeShippingKind => FreeShippingRow case BundleKind => BundleRow
            case BxgyKind => BxgyRow case OtherKind => AutoRow
  }

  /** Rows that lower the goods total; flash-sale and shipping rows are informational. */
  function Discounting(): PromoRow -> int {
    (r: PromoRow) => if r.rowType.FlashSaleRow? || r.rowType.FreeShippingRow? then 0 else r.amount
  }

  function ShippingSaved(): PromoRow -> int {
    (r: PromoRow) => if r.rowType.FreeShippingRow? then r.amount else 0
  }

  function FlashSaved(): PromoRow -> int {
    (r: PromoRow) => if r.rowType.FlashSaleRow? then r.amount else 0
  }

  function RowOf(e: Effect): PromoRow { PromoRow(e.promotionId, RowTypeOf(e.kind), e.amount) }

  function EffectRows(effects: seq<Effect>): seq<PromoRow> {
    seq(|effects|, k requires 0 <= k < |effects| => RowOf(effects[k]))
  }

  /** Gifts come with buy-X-get-Y effects only, and those carry no amount. */
  predicate WellFormedEffect(e: Effect) {
    (e.kind == BxgyKind ==> e.amount == 0) && (e.gift.Some? <==> e.kind == BxgyKind)
  }

  /** What checkout's evaluation guarantees about every effect it hands over. */
  lemma {:induction false} EvaluatedEffects(ps: seq<Promotion>, ctx: Context)
    ensures forall e :: e in Collect(CheckoutDecisions(ps, ctx), |ps|) ==>
              WellFormedEffect(e) && (e.kind == FreeShippingKind ==> e.amount == ctx.shippingFee > 0)
  {
    var ds := CheckoutDecisions(ps, ctx);
    forall e | e in Collect(ds, |ps|)
      ensures WellFormedEffect(e) && (e.kind == FreeShippingKind ==> e.amount == ctx.shippingFee > 0)
    {
      CollectedIsReached(ds, |ps|, e);
    }
  }

  datatype GiftOrder = GiftOrder(promotionId: int, gift: Gift)

  function GiftsOf(effects: seq<Effect>): seq<GiftOrder> {
    if effects == [] then []
    else
      var e := effects[|effects| - 1];
      GiftsOf(effects[..|effects| - 1]) +
      (if e.kind == BxgyKind && e.gift.Some? then [GiftOrder(e.promotionId, e.gift.value)] else [])
  }

  /** Some effect is free shipping. */
  predicate AnyFree(effects: seq<Effect>) {
    exists i :: 0 <= i < |effects| && effects[i].kind == FreeShippingKind
  }

  lemma {:induction false} AnyFreeOfMore(effects: seq<Effect>, e: Effect)
    ensures AnyFree(effects + [e]) <==> AnyFree(effects) || e.kind == FreeShippingKind
  {
    var more := effects + [e];
    if i :| 0 <= i < |effects| && effects[i].kind == FreeShippingKind { assert more[i].kind == FreeShippingKind; }
    assert more[|effects|] == e;
  }

  lemma {:induction false} OneMoreEffect(effects: seq<Effect>, n: nat)
    requires n < |effects|
    ensures AnyFree(effects[..n + 1]) <==> AnyFree(effects[..n]) || effects[n].kind == FreeShippingKind
    ensures var e := effects[n];
            GiftsOf(effects[..n + 1]) == GiftsOf(effects[..n]) +
              (if e.kind == BxgyKind && e.gift.Some? then [GiftOrder(e.promotionId, e.gift.value)] else [])
  {
    assert effects[..n + 1] == effects[..n] + [effects[n]] && effects[..n + 1][..n] == effects[..n];
    AnyFreeOfMore(effects[..n], effects[n]);
  }

  method MaterialiseEffect(e: Effect, fee: int, autoDiscount: int)
    returns (fee': int, autoDiscount': int, row: PromoRow, gift: seq<GiftOrder>)
    requires WellFormedEffect(e)
    ensures fee' == if e.kind == FreeShippingKind then 0 else fee
    ensures row == RowOf(e) && autoDiscount' == autoDiscount + Discounting()(row)
    ensures gift == if e.kind == BxgyKind && e.gift.Some? then [GiftOrder(e.promotionId, e.gift.value)] else []
  {
    fee', autoDiscount', gift := fee, autoDiscount, [];
    match e.kind {
      case FreeShippingKind =>
        fee' := 0;
        row := PromoRow(e.promotionId, FreeShippingRow, e.amount);
      case BundleKind =>
        autoDiscount' := autoDiscount + e.amount;
        row := PromoRow(e.promotionId, BundleRow, e.amount);
      case BxgyKind =>
        if e.gift.Some? { gift := [GiftOrder(e.promotionId, e.gift.value)]; }
        row := PromoRow(e.promotionId, BxgyRow, e.amount);
      case OtherKind =>
        autoDiscount' := autoDiscount + e.amount;
        row := PromoRow(e.promotionId, AutoRow, e.amount);
    }
  }

  method MaterialiseEffects(effects: seq<Effect>, rawFee: int)
    returns (fee: int, autoDiscount: int, rows: seq<PromoRow>, gifts: seq<GiftOrder>)
    requires forall e :: e in effects ==> WellFormedEffect(e)
    ensures rows == EffectRows(effects)
    ensures autoDiscount == Sum(Discounting(), rows)
    ensures fee == if AnyFree(effects) then 0 else rawFee
    ensures gifts == GiftsOf(effects)
  {
    fee, autoDiscount, rows, gifts := rawFee, 0, [], [];
    for n := 0 to |effects|
      invariant |rows| == n && forall k :: 0 <= k < n ==> rows[k] == RowOf(effects[k])
      invariant autoDiscount == Sum(Discounting(), rows)
      invariant fee == if AnyFree(effects[..n]) then 0 else rawFee
      invariant gifts == GiftsOf(effects[..n])
    {
      var e := effects[n];
      assert e in effects;
      OneMoreEffect(effects, n);
      SumPush(Discounting(), rows, RowOf(e));
      var row, gift;
      fee, autoDiscount, row, gift := MaterialiseEffect(e, fee, autoDiscount);
      rows := rows + [row];
      gifts := gifts + gift;
    }
    assert effects[..|effects|] == effects;
  }

  function GiftUnit(price: int, pct: int): int { Max(0, RoundDiv(price * (100 - pct), 100)) }

  predicate Deliverable(g: Gift, stock: map<int, GiftVariant>) {
    g.productId in stock && stock[g.productId].stock >= g.getQty
  }

  /** The unit price after the gift's discount, no flash sale, the promotion recorded. */
  function GiftLine(o: GiftOrder, gv: GiftVariant): OrderItem {
    var unit := GiftUnit(gv.price, o.gift.pct);
    OrderItem(gv.variantId, o.gift.getQty, unit, unit * o.gift.getQty, gv.price, None, Some(o.promotionId))
  }

  /** Gifts whose product has no sellable variant, or not enough stock, are silently skipped. */
  function GiftLines(gifts: seq<GiftOrder>, stock: map<int, GiftVariant>): (r: seq<OrderItem>)
    ensures forall i :: i in r ==> i.flashSale.None? && i.promotion.Some?
  {
    if gifts == [] then []
    else
      var o := gifts[|gifts| - 1];
      GiftLines(gifts[..|gifts| - 1], stock) +
      (if Deliverable(o.gift, stock) then [GiftLine(o, stock[o.gift.productId])] else [])
  }

  method AddGifts(gifts: seq<GiftOrder>, stock: map<int, GiftVariant>) returns (lines: seq<OrderItem>, total: int)
    ensures lines == GiftLines(gifts, stock)
    ensures total == Sum(LineTotal(), lines)
  {
    lines, total := [], 0;
    for n := 0 to |gifts|
      invariant lines == GiftLines(gifts[..n], stock)
      invariant total == Sum(LineTotal(), lines)
    {
      assert gifts[..n + 1][..n] == gifts[..n];
      var g := gifts[n].gift;
      if g.productId !in stock || stock[g.productId].stock < g.getQty { continue; }
      var gv := stock[g.productId];
      var unit := Max(0, RoundDiv(gv.price * (100 - g.pct), 100));
      var line := OrderItem(gv.variantId, g.getQty, unit, unit * g.getQty, gv.price, None, Some(gifts[n].promotionId));
      SumPush(LineTotal(), lines, line);
      lines := lines + [line];
      total := total + unit * g.getQty;
    }
    assert gifts[..|gifts|] == gifts;
  }

  function Abs(x: int): nat { if x < 0 then -x else x }

  /** What the cart takes the gift to cost: 0 unless the gift product is in the cart. */
  function PreviewedPrice(b: Bxgy, ctx: Context): nat
    requires b.getProductId.Some?
  {
    Max(0, GiftPrice(b.getProductId.value, ctx.products, ctx.items))
  }

  /** What a gift line saves over its original price. */
  function LineSaving(line: OrderItem): int { (line.originalPrice - line.unitPrice) * line.quantity }

  /** Half a dong per unit, half a dong overall, and the percentage of the gap between two prices. */
  predicate WithinRounding(saved: int, preview: int, gap: nat, pct: int, qty: int) {
    200 * Abs(saved - preview) <= 100 * (qty + 1) + 2 * (gap * pct * qty)
  }

  /** What checkout takes off a gift line is the discount the cart previews for it, up to half a
      dong per unit, half a dong overall, and the promised percentage of any difference between
      the two prices; it is exactly that when the prices agree and the discount per unit is whole. */
  lemma {:induction false} GiftSavingMatchesPreview(p: Promotion, b: Bxgy, ctx: Context, gv: GiftVariant)
    requires p.action == Some(BxgyAction(b)) && b.getQty > 0
    requires EvaluateSinglePromotion(p, ctx).Some?
    requires gv.price >= 0
    ensures var line := GiftLine(GiftOrder(p.id, EvaluateSinglePromotion(p, ctx).value.gift.value), gv);
            var saved, preview := LineSaving(line), CalculateDiscount(p, ctx);
            var gap := Abs(gv.price - PreviewedPrice(b, ctx));
            && WithinRounding(saved, preview, gap, GiftPct(b), line.quantity)
            && (gap == 0 && (gv.price * GiftPct(b)) % 100 == 0 ==> saved == preview)
  {
    var o := GiftOrder(p.id, EvaluateSinglePromotion(p, ctx).value.gift.value);
    PreviewOfGift(p, b, ctx);
    GiftLineSaving(o, gv, PreviewedPrice(b, ctx), GiftPct(b), CalculateDiscount(p, ctx));
  }

  lemma {:induction false} GiftLineSaving(o: GiftOrder, gv: GiftVariant, shown: nat, pct: nat, preview: int)
    requires gv.price >= 0 && o.gift.getQty >= 0 && o.gift.pct == pct <= 100
    requires preview == RoundDiv(shown * o.gift.getQty * pct, 100)
    ensures WithinRounding(LineSaving(GiftLine(o, gv)), preview, Abs(gv.price - shown), pct, o.gift.getQty)
    ensures gv.price == shown && (gv.price * pct) % 100 == 0 ==> LineSaving(GiftLine(o, gv)) == preview
  {
    GiftRounding(gv.price, shown, pct, o.gift.getQty);
  }

  lemma {:induction false} PreviewOfGift(p: Promotion, b: Bxgy, ctx: Context)
    requires p.action == Some(BxgyAction(b)) && b.getQty > 0
    requires EvaluateSinglePromotion(p, ctx).Some?
    ensures var g := EvaluateSinglePromotion(p, ctx).value.gift.value;
            && g == Gift(b.getProductId.value, b.getQty * BxgyApplications(b, ctx), GiftPct(b))
            && g.getQty > 0
            && CalculateDiscount(p, ctx) == RoundDiv(PreviewedPrice(b, ctx) * g.getQty * g.pct, 100)
  {
    var price := PreviewedPrice(b, ctx);
    assert price * b.getQty * BxgyApplications(b, ctx) == price * (b.getQty * BxgyApplications(b, ctx));
    MulLe(1, BxgyApplications(b, ctx), b.getQty);
  }

  lemma {:induction false} GiftRounding(price: nat, shown: nat, pct: nat, qty: nat)
    requires pct <= 100
    ensures var saved, preview := (price - GiftUnit(price, pct)) * qty, RoundDiv(shown * qty * pct, 100);
            && 200 * Abs(saved - preview) <= 100 * (qty + 1) + 2 * (Abs(price - shown) * pct * qty)
            && (price == shown && (price * pct) % 100 == 0 ==> saved == preview)
  {
    UnitSaving(price, pct);
    Reordered(shown, qty, pct);
    ScaledGap(price, shown, pct);
    ScaledRounding(price - GiftUnit(price, pct), price * pct, shown * pct, qty);
  }

  lemma {:induction false} Reordered(a: int, b: int, c: int)
    ensures a * b * c == a * c * b
  {
    Distribute(a, b, c);
  }

  lemma {:induction false} ScaledGap(a: int, b: int, c: nat)
    ensures Abs(a * c - b * c) == Abs(a - b) * c
  {
    if a >= b { MulLe(b, a, c); Distribute(a - b, b, c); } else { MulLe(a, b, c); Distribute(b - a, a, c); }
  }

  lemma {:induction false} UnitSaving(price: nat, pct: nat)
    requires pct <= 100
    ensures -50 <= 100 * (price - GiftUnit(price, pct)) - price * pct <= 50
    ensures (price * pct) % 100 == 0 ==> 100 * (price - GiftUnit(price, pct)) == price * pct
  {
    var x := price * pct;
    MulLe(pct, 100, price);
    assert price * (100 - pct) == 100 * price - x;
  }

  lemma {:induction false} ScaledRounding(s: int, x: int, y: int, qty: nat)
    requires -50 <= 100 * s - x <= 50
    ensures 200 * Abs(s * qty - RoundDiv(y * qty, 100)) <= 100 * (qty + 1) + 2 * (Abs(x - y) * qty)
    ensures 100 * s == x == y ==> s * qty == RoundDiv(y * qty, 100)
  {
    var off, gap := 100 * s - x, Abs(x - y);
    MulLe(off + (x - y), 50 + gap, qty);
    MulLe(-50 - gap, off + (x - y), qty);
    Distribute(50, gap, qty);
    Distribute(-50, -gap, qty);
    assert (100 * s - y) * qty == 100 * (s * qty) - y * qty by { Scaled(s, y, qty); }
    Rounded(s * qty, y * qty, 50 * qty + gap * qty);
    if 100 * s == x == y { Rounded(s * qty, y * qty, 0); }
  }

  lemma {:induction false} Scaled(s: int, x: int, qty: int)
    ensures (100 * s - x) * qty == 100 * (s * qty) - x * qty
  {}

  lemma {:induction false} Rounded(t: int, y: int, d: nat)
    requires 0 - d <= 100 * t - y <= d
    ensures 200 * Abs(t - RoundDiv(y, 100)) <= 2 * d + 100
  {}

  // -- Flash-sale aggregation -------------------------------------------------

  datatype SaleTotal = SaleTotal(saleId: Id, amount: int)

  function SaleAmount(): SaleTotal -> int { (s: SaleTotal) => s.amount }

  function IndexOf(agg: seq<SaleTotal>, id: Id): (k: nat)
    ensures k <= |agg|
    ensures k < |agg| ==> agg[k].saleId == id
    ensures forall a :: 0 <= a < k ==> agg[a].saleId != id
  {
    if agg == [] || agg[0].saleId == id then 0 else 1 + IndexOf(agg[1..], id)
  }

  predicate Distinct(agg: seq<SaleTotal>) {
    forall a, b :: 0 <= a < b < |agg| ==> agg[a].saleId != agg[b].saleId
  }

  predicate HasSale(agg: seq<SaleTotal>, id: Id) {
    exists a :: 0 <= a < |agg| && agg[a].saleId == id
  }

  predicate SoldOn(items: seq<OrderItem>, id: Id) {
    exists k :: 0 <= k < |items| && items[k].flashSale == Some(id)
  }

  ghost predicate SameSales(agg: seq<SaleTotal>, items: seq<OrderItem>) {
    forall id: Id :: HasSale(agg, id) <==> SoldOn(items, id)
  }

  ghost predicate OwnSavings(agg: seq<SaleTotal>, items: seq<OrderItem>) {
    forall a :: 0 <= a < |agg| ==> agg[a].amount == Sum(SavingsOf(agg[a].saleId), items)
  }

  /** One entry per sale that occurs in the items, holding that sale's savings. */
  ghost predicate Aggregates(agg: seq<SaleTotal>, items: seq<OrderItem>) {
    && Distinct(agg)
    && SameSales(agg, items)
    && OwnSavings(agg, items)
    && Sum(SaleAmount(), agg) == Sum(SaleSavings(), items)
  }

  function AddSavings(agg: seq<SaleTotal>, id: Id, amount: int): seq<SaleTotal> {
    var k := IndexOf(agg, id);
    if k < |agg| then agg[k := SaleTotal(id, agg[k].amount + amount)] else agg + [SaleTotal(id, amount)]
  }

  lemma {:induction false} AddedSales(agg: seq<SaleTotal>, id: Id, amount: int)
    requires Distinct(agg)
    ensures Distinct(AddSavings(agg, id, amount))
    ensures forall other: Id :: HasSale(AddSavings(agg, id, amount), other) <==> HasSale(agg, other) || other == id
    ensures Sum(SaleAmount(), AddSavings(agg, id, amount)) == Sum(SaleAmount(), agg) + amount
  {
    var k, agg' := IndexOf(agg, id), AddSavings(agg, id, amount);
    if k < |agg| { SumUpdate(SaleAmount(), agg, k, agg'[k]); } else { SumPush(SaleAmount(), agg, agg'[k]); }
    assert agg'[k].saleId == id;
    forall other ensures HasSale(agg', other) <==> HasSale(agg, other) || other == id {
      if HasSale(agg, other) {
        var a :| 0 <= a < |agg| && agg[a].saleId == other;
        assert agg'[a].saleId == other;
      }
      if HasSale(agg', other) && other != id {
        var a :| 0 <= a < |agg'| && agg'[a].saleId == other;
        assert agg[a].saleId == other;
      }
    }
  }

  function Counted(agg: seq<SaleTotal>, x: OrderItem): seq<SaleTotal> {
    if x.flashSale.Some? then AddSavings(agg, x.flashSale.value, Savings(x)) else agg
  }

  lemma {:induction false} CountedAmounts(agg: seq<SaleTotal>, items: seq<OrderItem>, x: OrderItem)
    requires Distinct(agg) && SameSales(agg, items) && OwnSavings(agg, items)
    ensures OwnSavings(Counted(agg, x), items + [x])
  {
    var agg' := Counted(agg, x);
    forall a | 0 <= a < |agg'| ensures agg'[a].amount == Sum(SavingsOf(agg'[a].saleId), items + [x]) {
      SumPush(SavingsOf(agg'[a].saleId), items, x);
      if a == |agg| {
        var id := x.flashSale.value;
        assert !HasSale(agg, id);
        forall i | i in items ensures i.flashSale != Some(id) {
          var k :| 0 <= k < |items| && items[k] == i;
          assert !SoldOn(items, id);
        }
        SumZero(SavingsOf(id), items);
      }
    }
  }

  lemma {:induction false} SalesOfMore(items: seq<OrderItem>, x: OrderItem)
    ensures forall id: Id :: SoldOn(items + [x], id) <==> SoldOn(items, id) || x.flashSale == Some(id)
  {
    forall id: Id ensures SoldOn(items + [x], id) <==> SoldOn(items, id) || x.flashSale == Some(id) {
      if SoldOn(items, id) {
        var k :| 0 <= k < |items| && items[k].flashSale == Some(id);
        assert (items + [x])[k].flashSale == Some(id);
      }
      if x.flashSale == Some(id) { assert (items + [x])[|items|].flashSale == Some(id); }
    }
  }

  lemma {:induction false} CountedSales(agg: seq<SaleTotal>, items: seq<OrderItem>, x: OrderItem)
    requires Distinct(agg) && SameSales(agg, items)
    ensures Distinct(Counted(agg, x)) && SameSales(Counted(agg, x), items + [x])
    ensures Sum(SaleAmount(), Counted(agg, x)) == Sum(SaleAmount(), agg) + SaleSavings()(x)
  {
    SalesOfMore(items, x);
    if x.flashSale.Some? { AddedSales(agg, x.flashSale.value, Savings(x)); }
  }

  lemma {:induction false} AggregateStep(agg: seq<SaleTotal>, items: seq<OrderItem>, n: nat)
    requires n < |items| && Aggregates(agg, items[..n])
    ensures Aggregates(Counted(agg, items[n]), items[..n + 1])
  {
    SumPrefix(SaleSavings(), items, n);
    CountedSales(agg, items[..n], items[n]);
    CountedAmounts(agg, items[..n], items[n]);
    assert items[..n + 1] == items[..n] + [items[n]];
  }

  method CountItem(agg: seq<SaleTotal>, oi: OrderItem) returns (r: seq<SaleTotal>)
    ensures r == Counted(agg, oi)
  {
    if oi.flashSale.None? { return agg; }
    var savings := (oi.originalPrice - oi.unitPrice) * oi.quantity;
    var k := IndexOf(agg, oi.flashSale.value);
    if k < |agg| {
      r := agg[k := SaleTotal(agg[k].saleId, agg[k].amount + savings)];
    } else {
      r := agg + [SaleTotal(oi.flashSale.value, savings)];
    }
  }

  method AggregateFlashSales(items: seq<OrderItem>) returns (agg: seq<SaleTotal>)
    ensures Aggregates(agg, items)
  {
    agg := [];
    for n := 0 to |items|
      invariant Aggregates(agg, items[..n])
    {
      AggregateStep(agg, items, n);
      agg := CountItem(agg, items[n]);
    }
    assert items[..|items|] == items;
  }

  function FlashRows(agg: seq<SaleTotal>): seq<PromoRow> {
    seq(|agg|, k requires 0 <= k < |agg| => PromoRow(agg[k].saleId, FlashSaleRow, agg[k].amount))
  }

  lemma {:induction false} FlashRowSums(agg: seq<SaleTotal>)
    ensures Sum(FlashSaved(), FlashRows(agg)) == Sum(SaleAmount(), agg)
    ensures Sum(Discounting(), FlashRows(agg)) == 0
  {
    if agg != [] {
      var init := agg[..|agg| - 1];
      FlashRowSums(init);
      assert FlashRows(agg)[..|agg| - 1] == FlashRows(init);
    }
  }

  // -- The whole checkout -----------------------------------------------------

  /** What the order costs, read back from its persisted rows alone. */
  function PayableFromRows(o: Order): int {
    Sum(LineTotal(), o.items) + o.shippingFee - Sum(Discounting(), o.promoRows)
  }

  function CouponOutcome(q: CouponRequest, cart: Cart, total: int, firstOrder: bool): Result<CouponUse, CouponError> {
    match ApplyCoupon(q.found, q.customerUses, CouponContext(cart, total, firstOrder))
    case Err(e) => Err(e)
    case Ok(applied) => Ok(CouponUse(q.found.value.promo.id, applied.amount))
  }

  predicate CouponAccepted(q: Option<CouponRequest>, cart: Cart, total: int, firstOrder: bool) {
    q.Some? && CouponOutcome(q.value, cart, total, firstOrder).Ok?
  }

  /** The coupon an order carries: none if no code was entered or the code was turned down. */
  function CouponTaken(q: Option<CouponRequest>, cart: Cart, total: int, firstOrder: bool): Option<CouponUse> {
    if CouponAccepted(q, cart, total, firstOrder) then Some(CouponOutcome(q.value, cart, total, firstOrder).value)
    else None
  }

  function CouponRows(use: Option<CouponUse>): seq<PromoRow> {
    if use.Some? then [PromoRow(use.value.promotionId, CouponRow, use.value.amount)] else []
  }

  /** The persisted order reconciles with its rows. */
  ghost predicate Reconciles(o: Order, used: seq<Consumption>, itemSavings: int) {
    && o.goodsTotal == Sum(LineTotal(), o.items)
    && o.discount == Sum(Discounting(), o.promoRows)
    && o.payable == PayableFromRows(o)
    && itemSavings == Sum(FlashSaved(), o.promoRows)
    && itemSavings == Sum(SaleSavings(), o.items)
    && used == Consumed(o.items)
  }

  method PromotionRows(items: seq<OrderItem>, coupon: Option<CouponUse>, discount: int, autoDiscount: int,
                       autoRows: seq<PromoRow>)
    returns (rows: seq<PromoRow>)
    requires discount == autoDiscount + if coupon.Some? then coupon.value.amount else 0
    requires autoDiscount == Sum(Discounting(), autoRows) && forall x :: x in autoRows ==> !x.rowType.FlashSaleRow?
    ensures Sum(Discounting(), rows) == discount
    ensures Sum(FlashSaved(), rows) == Sum(SaleSavings(), items)
    ensures exists agg :: Aggregates(agg, items) && rows == FlashRows(agg) + CouponRows(coupon) + autoRows
  {
    var agg := AggregateFlashSales(items);
    rows := FlashRows(agg);
    if coupon.Some? {
      rows := rows + [PromoRow(coupon.value.promotionId, CouponRow, discount - autoDiscount)];
    }
    assert rows == FlashRows(agg) + CouponRows(coupon);
    rows := rows + autoRows;
    RowSums(agg, CouponRows(coupon), autoRows);
  }

  /** The goods at current or flash-sale prices, gifts not yet added. */
  function GoodsTotal(items: seq<CartItem>, variants: map<int, Variant>, sales: map<int, FlashSale>): int
    requires AllSellable(items, variants)
  {
    Sum(LineTotal(), PricedLines(items, variants, sales))
  }

  /** Why an order is turned down: the first check that fails. */
  ghost predicate TurnsDown(e: Error, cart: Cart, addressFound: bool, variants: map<int, Variant>,
                            sales: map<int, FlashSale>, q: Option<CouponRequest>, firstOrder: bool)
  {
    if cart.items == [] then e == EmptyCart
    else if !addressFound then e == NoSuchAddress
    else if !AllSellable(cart.items, variants) then
      exists k :: 0 <= k < |cart.items| && LineError(cart.items[k], variants) == Some(e) &&
                  forall j :: 0 <= j < k ==> LineError(cart.items[j], variants).None?
    else
      var total := GoodsTotal(cart.items, variants, sales);
      q.Some? && CouponOutcome(q.value, cart, total, firstOrder).Err? &&
      e == BadCoupon(CouponOutcome(q.value, cart, total, firstOrder).error)
  }

  predicate Accepts(cart: Cart, addressFound: bool, variants: map<int, Variant>, sales: map<int, FlashSale>,
                    q: Option<CouponRequest>, firstOrder: bool)
  {
    && cart.items != [] && addressFound && AllSellable(cart.items, variants)
    && (q.Some? ==> CouponOutcome(q.value, cart, GoodsTotal(cart.items, variants, sales), firstOrder).Ok?)
  }

  /** The order these lines, effects and coupon make up. */
  ghost predicate MadeUpOf(o: Order, lines: seq<OrderItem>, effects: seq<Effect>, coupon: Option<CouponUse>,
                           giftStock: map<int, GiftVariant>, rawFee: int)
  {
    && o.items == lines + GiftLines(GiftsOf(effects), giftStock)
    && o.shippingFee == (if AnyFree(effects) then 0 else rawFee)
    && exists agg :: Aggregates(agg, o.items) &&
                     o.promoRows == FlashRows(agg) + CouponRows(coupon) + EffectRows(effects)
  }

  /** From the priced lines on: effects, coupon, gifts, totals and rows. */
  method AssembleOrder(lines: seq<OrderItem>, linesTotal: int, effects: seq<Effect>, coupon: Option<CouponUse>,
                       giftStock: map<int, GiftVariant>, rawFee: int) returns (o: Order)
    requires linesTotal == Sum(LineTotal(), lines)
    requires forall e :: e in effects ==> WellFormedEffect(e)
    ensures Reconciles(o, Consumed(lines), Sum(SaleSavings(), lines))
    ensures MadeUpOf(o, lines, effects, coupon, giftStock, rawFee)
  {
    var fee, autoDiscount, autoRows, gifts := MaterialiseEffects(effects, rawFee);
    var discount := autoDiscount;
    if coupon.Some? { discount := discount + coupon.value.amount; }
    var giftLines, giftTotal := AddGifts(gifts, giftStock);
    var items := lines + giftLines;
    var goodsTotal := linesTotal + giftTotal;
    var payable := goodsTotal + fee - discount;
    var rows := PromotionRows(items, coupon, discount, autoDiscount, autoRows);
    o := Order(items, rows, fee, goodsTotal, discount, payable);
    TotalsReconcile(o, lines, giftLines);
  }

  lemma {:induction false} TotalsReconcile(o: Order, lines: seq<OrderItem>, giftLines: seq<OrderItem>)
    requires forall i :: i in giftLines ==> i.flashSale.None?
    requires o.items == lines + giftLines
    requires o.goodsTotal == Sum(LineTotal(), lines) + Sum(LineTotal(), giftLines)
    requires o.discount == Sum(Discounting(), o.promoRows) && o.payable == o.goodsTotal + o.shippingFee - o.discount
    requires Sum(FlashSaved(), o.promoRows) == Sum(SaleSavings(), o.items)
    ensures Reconciles(o, Consumed(lines), Sum(SaleSavings(), lines))
  {
    GoodsWithGifts(lines, giftLines);
  }

  /** ps are the active automatic promotions; the goods total, the effects and the coupon's amount
      all follow from the cart. */
  method PlaceOrder(cart: Cart, addressFound: bool, variants: map<int, Variant>, sales: map<int, FlashSale>,
                    ps: seq<Promotion>, q: Option<CouponRequest>, firstOrder: bool,
                    giftStock: map<int, GiftVariant>, shipping: Shipping)
    returns (r: Result<Order, Error>, used: seq<Consumption>, itemSavings: int)
    ensures r.Ok? <==> Accepts(cart, addressFound, variants, sales, q, firstOrder)
    ensures r.Err? ==> TurnsDown(r.error, cart, addressFound, variants, sales, q, firstOrder)
    ensures r.Ok? ==> Reconciles(r.value, used, itemSavings)
    ensures r.Ok? ==>
              var total, raw := GoodsTotal(cart.items, variants, sales), RawShippingFee(shipping);
              MadeUpOf(r.value, PricedLines(cart.items, variants, sales),
                       CheckoutEffects(ps, CheckoutContext(cart, total, firstOrder, raw)),
                       CouponTaken(q, cart, total, firstOrder), giftStock, raw)
  {
    used, itemSavings := [], 0;
    if |cart.items| == 0 {
      r := Err(EmptyCart);
      return;
    }
    if !addressFound {
      r := Err(NoSuchAddress);
      return;
    }
    var priced, goodsTotal, saved, consumption := PriceLines(cart.items, variants, sales);
    if priced.Err? {
      r := Err(priced.error);
      return;
    }
    var rawFee := RawShippingFee(shipping);
    var effects := EvaluateAutoPromotionsForCheckout(ps, CheckoutContext(cart, goodsTotal, firstOrder, rawFee));
    var coupon := None;
    if q.Some? {
      var outcome := CouponOutcome(q.value, cart, goodsTotal, firstOrder);
      if outcome.Err? {
        r := Err(BadCoupon(outcome.error));
        return;
      }
      coupon := Some(outcome.value);
    }
    EvaluatedEffects(ps, CheckoutContext(cart, goodsTotal, firstOrder, rawFee));
    var order := AssembleOrder(priced.value, goodsTotal, effects, coupon, giftStock, rawFee);
    r := Ok(order);
    used, itemSavings := consumption, saved;
  }

  lemma {:induction false} GoodsWithGifts(lines: seq<OrderItem>, giftLines: seq<OrderItem>)
    requires forall i :: i in giftLines ==> i.flashSale.None?
    ensures Sum(LineTotal(), lines + giftLines) == Sum(LineTotal(), lines) + Sum(LineTotal(), giftLines)
    ensures Sum(SaleSavings(), lines + giftLines) == Sum(SaleSavings(), lines)
    ensures Consumed(lines + giftLines) == Consumed(lines)
  {
    SumAppend(LineTotal(), lines, giftLines);
    SumAppend(SaleSavings(), lines, giftLines);
    SumZero(SaleSavings(), giftLines);
    ConsumedWithoutSales(lines, giftLines);
  }

  lemma {:induction false} ConsumedWithoutSales(a: seq<OrderItem>, b: seq<OrderItem>)
    requires forall i :: i in b ==> i.flashSale.None?
    ensures Consumed(a + b) == Consumed(a)
  {
    if b == [] {
      assert a + b == a;
    } else {
      assert (a + b)[..|a + b| - 1] == a + b[..|b| - 1];
      ConsumedWithoutSales(a, b[..|b| - 1]);
    }
  }

  lemma {:induction false} RowSums(agg: seq<SaleTotal>, couponRows: seq<PromoRow>, autoRows: seq<PromoRow>)
    requires |couponRows| <= 1 && forall x :: x in couponRows ==> x.rowType == CouponRow
    requires forall x :: x in autoRows ==> !x.rowType.FlashSaleRow?
    ensures var rows := FlashRows(agg) + couponRows + autoRows;
            && Sum(Discounting(), rows)
               == (if couponRows == [] then 0 else couponRows[0].amount) + Sum(Discounting(), autoRows)
            && Sum(FlashSaved(), rows) == Sum(SaleAmount(), agg)
  {
    FlashRowSums(agg);
    SumAppend(Discounting(), FlashRows(agg) + couponRows, autoRows);
    SumAppend(Discounting(), FlashRows(agg), couponRows);
    SumAppend(FlashSaved(), FlashRows(agg) + couponRows, autoRows);
    SumAppend(FlashSaved(), FlashRows(agg), couponRows);
    SumZero(FlashSaved(), couponRows);
    SumZero(FlashSaved(), autoRows);
    if couponRows != [] {
      assert couponRows == [] + [couponRows[0]] && couponRows[0] in couponRows;
      SumPush(Discounting(), [], couponRows[0]);
    }
  }
}
