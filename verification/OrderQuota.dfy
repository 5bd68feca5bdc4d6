/** The order status machine and the guarded coupon quota it consumes. */
module OrderQuota {
  import opened Wrappers
  import opened Sums
  import opened Promotions

  datatype Status = Pending | Confirmed | Packing | Shipping | Delivered | Cancelled | Returned

  datatype Order = Order(customer: int, coupon: Option<Id>, discount: int, status: Status, couponConsumed: bool)
  datatype Usage = Usage(promotionId: Id, customer: int, orderId: Id, amount: int)
  datatype Error = NotFound | Forbidden | BadTransition | BadCoupon(reason: CouponError) | CouponGone

  datatype Db = Db(orders: map<Id, Order>, promos: map<Id, Quota>, usages: seq<Usage>)

  function Next(s: Status): set<Status> {
    match s
    case Pending => {Confirmed, Cancelled}
    case Confirmed => {Packing, Cancelled}
    case Packing => {Shipping}
    case Shipping => {Delivered}
    case Delivered => {Returned}
    case Cancelled => {}
    case Returned => {}
  }

  // -- What each call does ----------------------------------------------------

  /** UPDATE ... SET usage_count = usage_count + 1 WHERE the limit allows it, and the usage row. */
  function Consume(db: Db, id: Id): Option<Db>
    requires id in db.orders && db.orders[id].coupon.Some?
  {
    var o := db.orders[id];
    var p := o.coupon.value;
    if p !in db.promos || (db.promos[p].limit.Some? && db.promos[p].usageCount >= db.promos[p].limit.value) then None
    else Some(db.(promos := db.promos[p := db.promos[p].(usageCount := db.promos[p].usageCount + 1)],
                  usages := db.usages + [Usage(p, o.customer, id, o.discount)]))
  }

  function WithStatus(db: Db, id: Id, s: Status): Db
    requires id in db.orders
  {
    db.(orders := db.orders[id := db.orders[id].(status := s)])
  }

  function WithConsumed(db: Db, id: Id): Db
    requires id in db.orders
  {
    db.(orders := db.orders[id := db.orders[id].(couponConsumed := true)])
  }

  function OfCustomer(p: Id, customer: int): Usage -> int {
    (u: Usage) => if u.promotionId == p && u.customer == customer then 1 else 0
  }

  /** The customer's usage rows for a promotion, which checkout compares with the personal limit. */
  function CustomerUses(db: Db, p: Id, customer: int): int {
    Sum(OfCustomer(p, customer), db.usages)
  }

  /** Why checkout turns a coupon down, as far as its quotas go. */
  function CouponRefusal(db: Db, p: Id, customer: int): Option<CouponError> {
    QuotaError(if p in db.promos then Some(db.promos[p]) else None, CustomerUses(db, p, customer))
  }

  predicate OwesCoupon(o: Order) { o.coupon.Some? && !o.couponConsumed }

  function StatusChanged(db: Db, id: Id, s: Status): Result<Db, Error>
    requires id in db.orders
  {
    if s == Confirmed && OwesCoupon(db.orders[id]) then
      match Consume(db, id)
      case None => Err(CouponGone)
      case Some(db') => Ok(WithConsumed(WithStatus(db', id, s), id))
    else Ok(WithStatus(db, id, s))
  }

  datatype Op =
    | Place(id: Id, customer: int, coupon: Option<Id>, discount: int)
    | UpdateStatus(id: Id, next: Status)
    | CancelByCustomer(id: Id, userId: int)
    | ConsumeOrderCoupon(id: Id)

  function Outcome(db: Db, op: Op): Result<Db, Error> {
    match op
    case Place(id, customer, coupon, discount) =>
      if coupon.Some? && CouponRefusal(db, coupon.value, customer).Some?
        then Err(BadCoupon(CouponRefusal(db, coupon.value, customer).value))
      else Ok(db.(orders := db.orders[id := Order(customer, coupon, discount, Pending, false)]))
    case UpdateStatus(id, next) =>
      if id !in db.orders then Err(NotFound)
      else if next !in Next(db.orders[id].status) then Err(BadTransition)
      else StatusChanged(db, id, next)
    case CancelByCustomer(id, userId) =>
      if id !in db.orders then Err(NotFound)
      else if db.orders[id].customer != userId then Err(Forbidden)
      else if db.orders[id].status != Pending then Err(BadTransition)
      else StatusChanged(db, id, Cancelled)
    case ConsumeOrderCoupon(id) =>
      if id !in db.orders then Err(NotFound)
      else if !OwesCoupon(db.orders[id]) then Ok(db)
      else match Consume(db, id) case None => Err(CouponGone) case Some(db') => Ok(WithConsumed(db', id))
  }

  // -- The services -----------------------------------------------------------

  class PromotionsService {
    var promos: map<Id, Quota>
    var usages: seq<Usage>

    constructor (promos: map<Id, Quota>)
      ensures this.promos == promos && usages == []
    {
      this.promos, usages := promos, [];
    }

    method RecordCouponConsumption(promotionId: Id, customer: int, orderId: Id, amount: int) returns (ok: bool)
      modifies this
      ensures ok <==> promotionId in old(promos) &&
                      (old(promos)[promotionId].limit.None? ||
                       old(promos)[promotionId].usageCount < old(promos)[promotionId].limit.value)
      ensures ok ==> promos == old(promos)[promotionId := old(promos)[promotionId].(
                                             usageCount := old(promos)[promotionId].usageCount + 1)]
      ensures ok ==> usages == old(usages) + [Usage(promotionId, customer, orderId, amount)]
      ensures !ok ==> promos == old(promos) && usages == old(usages)
    {
      if promotionId !in promos { return false; }
      var p := promos[promotionId];
      if p.limit.Some? && p.usageCount >= p.limit.value { return false; }
      promos := promos[promotionId := p.(usageCount := p.usageCount + 1)];
      usages := usages + [Usage(promotionId, customer, orderId, amount)];
      return true;
    }

    method CountCustomerUsage(promotionId: Id, customer: int) returns (n: int)
      ensures n == Sum(OfCustomer(promotionId, customer), usages)
    {
      n := 0;
      for i := 0 to |usages|
        invariant n == Sum(OfCustomer(promotionId, customer), usages[..i])
      {
        SumPrefix(OfCustomer(promotionId, customer), usages, i);
        if usages[i].promotionId == promotionId && usages[i].customer == customer { n := n + 1; }
      }
      assert usages[..|usages|] == usages;
    }

    /** The quota checks of a coupon at checkout. */
    method CheckCoupon(promotionId: Id, customer: int) returns (error: Option<CouponError>)
      ensures error == CouponRefusal(Db(map[], promos, usages), promotionId, customer)
    {
      if promotionId !in promos { return Some(UnknownCode); }
      var p := promos[promotionId];
      if p.limit.Some? && p.usageCount >= p.limit.value { return Some(QuotaUsedUp); }
      if p.perCustomerLimit.Some? {
        var uses := CountCustomerUsage(promotionId, customer);
        if uses >= p.perCustomerLimit.value { return Some(CustomerLimitReached); }
      }
      return None;
    }
  }

  class OrdersService {
    var orders: map<Id, Order>
    const promotions: PromotionsService

    constructor (promotions: PromotionsService)
      ensures this.promotions == promotions && orders == map[]
    {
      this.promotions := promotions;
      orders := map[];
    }

    ghost function State(): Db
      reads this, promotions
    {
      Db(orders, promotions.promos, promotions.usages)
    }

    /** A checkout as far as the quotas go; id is the key the database assigns. */
    method PlaceOrder(id: Id, customer: int, coupon: Option<Id>, discount: int) returns (r: Result<(), Error>)
      requires id !in orders
      modifies this
      ensures match Outcome(old(State()), Place(id, customer, coupon, discount))
              case Ok(db) => r.Ok? && State() == db
              case Err(e) => r == Err(e) && State() == old(State())
    {
      if coupon.Some? {
        var error := promotions.CheckCoupon(coupon.value, customer);
        if error.Some? { return Err(BadCoupon(error.value)); }
      }
      orders := orders[id := Order(customer, coupon, discount, Pending, false)];
      return Ok(());
    }

    /** The status is saved first; a refused coupon rolls it back. */
    method ChangeStatus(id: Id, newStatus: Status) returns (r: Result<(), Error>)
      requires id in orders
      modifies this, promotions
      ensures match StatusChanged(old(State()), id, newStatus)
              case Ok(db) => r.Ok? && State() == db
              case Err(e) => r == Err(e) && State() == old(State())
    {
      var before := orders;
      orders := orders[id := orders[id].(status := newStatus)];
      var order := orders[id];
      if newStatus == Confirmed && order.coupon.Some? && !order.couponConsumed {
        var ok := promotions.RecordCouponConsumption(order.coupon.value, order.customer, id, order.discount);
        if !ok {
          orders := before;
          return Err(CouponGone);
        }
        orders := orders[id := order.(couponConsumed := true)];
      }
      return Ok(());
    }

    method UpdateOrderStatus(id: Id, next: Status) returns (r: Result<(), Error>)
      modifies this, promotions
      ensures match Outcome(old(State()), UpdateStatus(id, next))
              case Ok(db) => r.Ok? && State() == db
              case Err(e) => r == Err(e) && State() == old(State())
    {
      if id !in orders { return Err(NotFound); }
      if next !in Next(orders[id].status) { return Err(BadTransition); }
      r := ChangeStatus(id, next);
    }

    method CancelOrder(id: Id, userId: int) returns (r: Result<(), Error>)
      modifies this, promotions
      ensures match Outcome(old(State()), CancelByCustomer(id, userId))
              case Ok(db) => r.Ok? && State() == db
              case Err(e) => r == Err(e) && State() == old(State())
    {
      if id !in orders { return Err(NotFound); }
      if orders[id].customer != userId { return Err(Forbidden); }
      if orders[id].status != Pending { return Err(BadTransition); }
      r := ChangeStatus(id, Cancelled);
    }

    /** Idempotent: true when the coupon is consumed now or was before, or there is none. */
    method ConsumeCoupon(id: Id) returns (ok: bool)
      modifies this, promotions
      ensures match Outcome(old(State()), ConsumeOrderCoupon(id))
              case Ok(db) => ok && State() == db
              case Err(_) => !ok && State() == old(State())
    {
      if id !in orders { return false; }
      var order := orders[id];
      if order.couponConsumed { return true; }
      if order.coupon.None? { return true; }
      ok := promotions.RecordCouponConsumption(order.coupon.value, order.customer, id, order.discount);
      if ok { orders := orders[id := order.(couponConsumed := true)]; }
    }
  }

  // -- Runs -------------------------------------------------------------------

  /** A rejected call changes nothing. */
  function Step(db: Db, op: Op): Db {
    match Outcome(db, op) case Ok(db') => db' case Err(_) => db
  }

  function Run(db: Db, ops: seq<Op>): Db
    decreases |ops|
  {
    if ops == [] then db else Run(Step(db, ops[0]), ops[1..])
  }

  predicate Fresh(db: Db, op: Op) {
    op.Place? ==> op.id !in db.orders
  }

  /** The database never assigns a key twice. */
  predicate FreshRun(db: Db, ops: seq<Op>)
    decreases |ops|
  {
    ops == [] || (Fresh(db, ops[0]) && FreshRun(Step(db, ops[0]), ops[1..]))
  }

  function OfOrder(id: Id): Usage -> int { (u: Usage) => if u.orderId == id then 1 else 0 }
  function OfPromo(p: Id): Usage -> int { (u: Usage) => if u.promotionId == p then 1 else 0 }

  predicate BelongsTo(u: Usage, orders: map<Id, Order>) {
    && u.orderId in orders
    && orders[u.orderId].coupon == Some(u.promotionId)
    && orders[u.orderId].customer == u.customer
    && orders[u.orderId].discount == u.amount
  }

  /** Each order owns one usage row if its coupon is consumed and none otherwise; the row
      carries the order's own coupon, customer and discount; no order gets past pending,
      other than by cancellation, without its coupon being consumed; no quota is overdrawn. */
  ghost predicate Valid(db: Db) {
    && (forall id :: id in db.orders ==> Sum(OfOrder(id), db.usages) == if db.orders[id].couponConsumed then 1 else 0)
    && (forall u :: u in db.usages ==> BelongsTo(u, db.orders))
    && (forall id :: id in db.orders && OwesCoupon(db.orders[id]) ==> db.orders[id].status in {Pending, Cancelled})
    && (forall p :: p in db.promos && db.promos[p].limit.Some? ==> db.promos[p].usageCount <= db.promos[p].limit.value)
  }

  /** Since db0, every promotion's counter has grown by the number of usage rows recorded for it. */
  ghost predicate Accounts(db0: Db, db: Db) {
    && db.promos.Keys == db0.promos.Keys
    && db0.usages <= db.usages
    && forall p :: p in db.promos ==>
         db.promos[p].limit == db0.promos[p].limit && db.promos[p].perCustomerLimit == db0.promos[p].perCustomerLimit &&
         db.promos[p].usageCount - db0.promos[p].usageCount == Sum(OfPromo(p), db.usages) - Sum(OfPromo(p), db0.usages)
  }

  lemma {:induction false} ConsumeKeeps(db: Db, id: Id, s: Status)
    requires Valid(db) && id in db.orders && OwesCoupon(db.orders[id]) && Consume(db, id).Some?
    ensures var db' := Consume(db, id).value;
            Valid(WithConsumed(WithStatus(db', id, s), id)) && Accounts(db, WithConsumed(WithStatus(db', id, s), id))
  {
    var o := db.orders[id];
    var u := Usage(o.coupon.value, o.customer, id, o.discount);
    var db' := WithConsumed(WithStatus(Consume(db, id).value, id, s), id);
    forall k | k in db.orders ensures Sum(OfOrder(k), db'.usages) == if db'.orders[k].couponConsumed then 1 else 0 {
      SumPush(OfOrder(k), db.usages, u);
    }
    forall p | p in db.promos
      ensures db'.promos[p].usageCount - db.promos[p].usageCount
              == Sum(OfPromo(p), db'.usages) - Sum(OfPromo(p), db.usages)
    {
      SumPush(OfPromo(p), db.usages, u);
    }
  }

  lemma {:induction false} PlaceKeeps(db: Db, id: Id, o: Order)
    requires Valid(db) && id !in db.orders && o.status == Pending && !o.couponConsumed
    ensures Valid(db.(orders := db.orders[id := o]))
  {
    forall u | u in db.usages ensures OfOrder(id)(u) == 0 { assert BelongsTo(u, db.orders); }
    SumZero(OfOrder(id), db.usages);
    forall u | u in db.usages ensures BelongsTo(u, db.orders[id := o]) { assert BelongsTo(u, db.orders); }
  }

  lemma {:induction false} StatusKeeps(db: Db, id: Id, s: Status)
    requires Valid(db) && id in db.orders && s in Next(db.orders[id].status)
    requires StatusChanged(db, id, s).Ok?
    ensures Valid(StatusChanged(db, id, s).value) && Accounts(db, StatusChanged(db, id, s).value)
  {
    if s == Confirmed && OwesCoupon(db.orders[id]) {
      ConsumeKeeps(db, id, s);
    } else {
      var db' := WithStatus(db, id, s);
      forall u | u in db.usages ensures BelongsTo(u, db'.orders) { assert BelongsTo(u, db.orders); }
    }
  }

  lemma {:induction false} StepKeeps(db: Db, op: Op)
    requires Valid(db) && Fresh(db, op)
    ensures Valid(Step(db, op)) && Accounts(db, Step(db, op))
  {
    match op {
      case Place(id, customer, coupon, discount) =>
        if Outcome(db, op).Ok? { PlaceKeeps(db, id, Order(customer, coupon, discount, Pending, false)); }
      case UpdateStatus(id, next) =>
        if Outcome(db, op).Ok? { StatusKeeps(db, id, next); }
      case CancelByCustomer(id, _) =>
        if Outcome(db, op).Ok? { StatusKeeps(db, id, Cancelled); }
      case ConsumeOrderCoupon(id) =>
        if id in db.orders && OwesCoupon(db.orders[id]) && Consume(db, id).Some? {
          ConsumeKeeps(db, id, db.orders[id].status);
          var db' := Consume(db, id).value;
          assert WithStatus(db', id, db.orders[id].status) == db';
        }
    }
  }

  lemma {:induction false} AccountsTrans(a: Db, b: Db, c: Db)
    requires Accounts(a, b) && Accounts(b, c)
    ensures Accounts(a, c)
  {}

  /** Over every run, wherever consumeOrderCoupon is interleaved: the invariant holds and the counters reconcile. */
  lemma {:induction false} RunsConsumeOnce(db: Db, ops: seq<Op>)
    requires Valid(db) && FreshRun(db, ops)
    ensures Valid(Run(db, ops)) && Accounts(db, Run(db, ops))
    decreases |ops|
  {
    if ops != [] {
      StepKeeps(db, ops[0]);
      RunsConsumeOnce(Step(db, ops[0]), ops[1..]);
      AccountsTrans(db, Step(db, ops[0]), Run(db, ops));
    }
  }

  /** A promotion has a usage row for an order exactly when that order consumed that promotion as its coupon. */
  lemma {:induction false} UsageRowsAreConsumedOrders(db: Db, p: Id, id: Id)
    requires Valid(db)
    ensures (exists u :: u in db.usages && u.promotionId == p && u.orderId == id) <==>
            id in db.orders && db.orders[id].couponConsumed && db.orders[id].coupon == Some(p)
  {
    if u :| u in db.usages && u.promotionId == p && u.orderId == id {
      var k :| 0 <= k < |db.usages| && db.usages[k] == u;
      SumWithout(OfOrder(id), db.usages, k);
      SumNonNegative(OfOrder(id), db.usages[..k] + db.usages[k + 1..]);
    }
    if id in db.orders && db.orders[id].couponConsumed && db.orders[id].coupon == Some(p) {
      if forall u :: u in db.usages ==> u.orderId != id { SumZero(OfOrder(id), db.usages); }
    }
  }

  // -- The status machine -----------------------------------------------------

  function Rank(s: Status): nat {
    match s
    case Pending => 0 case Confirmed => 1 case Packing => 2 case Shipping => 3
    case Delivered => 4 case Cancelled => 5 case Returned => 5
  }

  /** Nothing but the status and the consumed flag of an order ever changes; both only move forward. */
  ghost predicate Forward(a: Order, b: Order) {
    && a.customer == b.customer && a.coupon == b.coupon && a.discount == b.discount
    && (a.couponConsumed ==> b.couponConsumed)
    && (a.status == b.status || Rank(a.status) < Rank(b.status))
    && (b.status == Cancelled ==> a.status in {Pending, Confirmed, Cancelled})
  }

  /** Orders never leave the table, never revisit a status and never leave a final one. */
  lemma {:induction false} OrdersOnlyMoveForward(db: Db, ops: seq<Op>, id: Id)
    requires FreshRun(db, ops) && id in db.orders
    ensures id in Run(db, ops).orders && Forward(db.orders[id], Run(db, ops).orders[id])
    decreases |ops|
  {
    if ops != [] {
      var db' := Step(db, ops[0]);
      assert id in db'.orders && Forward(db.orders[id], db'.orders[id]);
      OrdersOnlyMoveForward(db', ops[1..], id);
    }
  }

  // -- The personal limit -----------------------------------------------------

  predicate OwnOrder(o: Order, p: Id, customer: int) {
    o.coupon == Some(p) && o.customer == customer
  }

  /** The customer's orders whose coupon p is still to be consumed, cancelled ones included:
      consumption asks for no status. */
  function OwedOrders(db: Db, p: Id, customer: int): set<Id> {
    set id | id in db.orders && OwesCoupon(db.orders[id]) && OwnOrder(db.orders[id], p, customer)
  }

  /** Of all that may still be consumed, by the orders owing it and by the quota left, at most as
      much as the personal limit has room for, given this many orders owing. */
  predicate Fits(db: Db, p: Id, customer: int, owed: nat)
    requires p in db.promos && db.promos[p].perCustomerLimit.Some?
  {
    var uses, most := CustomerUses(db, p, customer), db.promos[p].perCustomerLimit.value;
    uses + owed <= most ||
    (db.promos[p].limit.Some? && uses + (db.promos[p].limit.value - db.promos[p].usageCount) <= most)
  }

  predicate Covered(db: Db, p: Id, customer: int)
    requires p in db.promos && db.promos[p].perCustomerLimit.Some?
  {
    Fits(db, p, customer, |OwedOrders(db, p, customer)|)
  }

  /** What a caller can check before accepting one more order with the coupon. */
  predicate HasRoom(db: Db, p: Id, customer: int)
    requires p in db.promos && db.promos[p].perCustomerLimit.Some?
  {
    Fits(db, p, customer, |OwedOrders(db, p, customer)| + 1)
  }

  predicate PlacesFor(op: Op, p: Id, customer: int) {
    op.Place? && op.coupon == Some(p) && op.customer == customer
  }

  /** The state after order id's coupon has been consumed along with a change of its status to s. */
  function Consumed(db: Db, id: Id, s: Status): Db
    requires id in db.orders && OwesCoupon(db.orders[id]) && Consume(db, id).Some?
  {
    WithConsumed(WithStatus(Consume(db, id).value, id, s), id)
  }

  lemma {:induction false} OwedAfter(db: Db, id: Id, s: Status, p: Id, customer: int)
    requires id in db.orders && OwesCoupon(db.orders[id]) && Consume(db, id).Some?
    ensures OwedOrders(Consumed(db, id, s), p, customer)
            == OwedOrders(db, p, customer) - (if OwnOrder(db.orders[id], p, customer) then {id} else {})
    ensures OwnOrder(db.orders[id], p, customer) ==> id in OwedOrders(db, p, customer)
  {}

  lemma {:induction false} UsesAfter(db: Db, id: Id, s: Status, p: Id, customer: int)
    requires id in db.orders && OwesCoupon(db.orders[id]) && Consume(db, id).Some?
    ensures CustomerUses(Consumed(db, id, s), p, customer)
            == CustomerUses(db, p, customer) + (if OwnOrder(db.orders[id], p, customer) then 1 else 0)
  {
    var o := db.orders[id];
    SumPush(OfCustomer(p, customer), db.usages, Usage(o.coupon.value, o.customer, id, o.discount));
  }

  lemma {:induction false} ConsumeCovers(db: Db, id: Id, s: Status, p: Id, customer: int)
    requires Valid(db) && id in db.orders && OwesCoupon(db.orders[id]) && Consume(db, id).Some?
    requires p in db.promos && db.promos[p].perCustomerLimit.Some?
    ensures OwnOrder(db.orders[id], p, customer)
            ==> (Covered(Consumed(db, id, s), p, customer) <==> Covered(db, p, customer))
    ensures Covered(db, p, customer) ==> Covered(Consumed(db, id, s), p, customer)
  {
    OwedAfter(db, id, s, p, customer);
    UsesAfter(db, id, s, p, customer);
    var before, after := OwedOrders(db, p, customer), OwedOrders(Consumed(db, id, s), p, customer);
    assert |after| == |before| - (if OwnOrder(db.orders[id], p, customer) then 1 else 0);
  }

  lemma {:induction false} OwedWithOneMore(db: Db, id: Id, o: Order, p: Id, customer: int)
    requires id !in db.orders
    ensures OwedOrders(db.(orders := db.orders[id := o]), p, customer)
            == OwedOrders(db, p, customer) + (if OwesCoupon(o) && OwnOrder(o, p, customer) then {id} else {})
    ensures id !in OwedOrders(db, p, customer)
  {}

  lemma {:induction false} OwedAfterPlacement(db: Db, op: Op, p: Id, customer: int)
    requires Fresh(db, op) && op.Place? && Outcome(db, op).Ok?
    ensures var owed, owed' := OwedOrders(db, p, customer), OwedOrders(Step(db, op), p, customer);
            |owed'| == |owed| + if PlacesFor(op, p, customer) then 1 else 0
  {
    OwedWithOneMore(db, op.id, Order(op.customer, op.coupon, op.discount, Pending, false), p, customer);
  }

  lemma {:induction false} PlacementCovers(db: Db, op: Op, p: Id, customer: int)
    requires Fresh(db, op) && op.Place? && Outcome(db, op).Ok?
    requires p in db.promos && db.promos[p].perCustomerLimit.Some?
    ensures if PlacesFor(op, p, customer) then Covered(Step(db, op), p, customer) <==> HasRoom(db, p, customer)
            else Covered(Step(db, op), p, customer) <==> Covered(db, p, customer)
  {
    OwedAfterPlacement(db, op, p, customer);
  }

  lemma {:induction false} StatusCovers(db: Db, id: Id, s: Status, p: Id, customer: int)
    requires Valid(db) && id in db.orders && StatusChanged(db, id, s).Ok?
    requires p in db.promos && db.promos[p].perCustomerLimit.Some? && Covered(db, p, customer)
    ensures p in StatusChanged(db, id, s).value.promos
    ensures StatusChanged(db, id, s).value.promos[p].perCustomerLimit.Some?
    ensures Covered(StatusChanged(db, id, s).value, p, customer)
  {
    if s == Confirmed && OwesCoupon(db.orders[id]) {
      ConsumeCovers(db, id, s, p, customer);
    } else {
      assert OwedOrders(WithStatus(db, id, s), p, customer) == OwedOrders(db, p, customer);
    }
  }

  lemma {:induction false} ConsumeStep(db: Db, id: Id)
    requires id in db.orders && OwesCoupon(db.orders[id]) && Consume(db, id).Some?
    ensures Step(db, ConsumeOrderCoupon(id)) == Consumed(db, id, db.orders[id].status)
  {
    assert WithStatus(Consume(db, id).value, id, db.orders[id].status) == Consume(db, id).value;
  }

  lemma {:induction false} StepCovers(db: Db, op: Op, p: Id, customer: int)
    requires Valid(db) && Fresh(db, op)
    requires p in db.promos && db.promos[p].perCustomerLimit.Some? && Covered(db, p, customer)
    requires PlacesFor(op, p, customer) && Outcome(db, op).Ok? ==> HasRoom(db, p, customer)
    requires p in Step(db, op).promos && Step(db, op).promos[p].perCustomerLimit.Some?
    ensures Covered(Step(db, op), p, customer)
  {
    if Outcome(db, op).Ok? {
      match op {
        case Place(_, _, _, _) => PlacementCovers(db, op, p, customer);
        case UpdateStatus(id, next) => StatusCovers(db, id, next, p, customer);
        case CancelByCustomer(id, _) => StatusCovers(db, id, Cancelled, p, customer);
        case ConsumeOrderCoupon(id) =>
          if OwesCoupon(db.orders[id]) {
            ConsumeStep(db, id);
            ConsumeCovers(db, id, db.orders[id].status, p, customer);
          }
      }
    }
  }

  /** Every order accepted with the coupon had room when it was placed. */
  predicate RoomyRun(db: Db, ops: seq<Op>, p: Id, customer: int)
    requires p in db.promos && db.promos[p].perCustomerLimit.Some?
    decreases |ops|
  {
    ops == [] ||
    ((PlacesFor(ops[0], p, customer) && Outcome(db, ops[0]).Ok? ==> HasRoom(db, p, customer)) &&
     p in Step(db, ops[0]).promos && Step(db, ops[0]).promos[p].perCustomerLimit.Some? &&
     RoomyRun(Step(db, ops[0]), ops[1..], p, customer))
  }

  /** Over every run that only accepts orders with room, the customer stays within the personal limit. */
  lemma {:induction false} RoomyRunsKeepPersonalLimit(db: Db, ops: seq<Op>, p: Id, customer: int)
    requires Valid(db) && FreshRun(db, ops)
    requires p in db.promos && db.promos[p].perCustomerLimit.Some? && Covered(db, p, customer)
    requires RoomyRun(db, ops, p, customer)
    ensures CustomerUses(Run(db, ops), p, customer) <= db.promos[p].perCustomerLimit.value
    decreases |ops|
  {
    if ops != [] {
      StepKeeps(db, ops[0]);
      StepCovers(db, ops[0], p, customer);
      RoomyRunsKeepPersonalLimit(Step(db, ops[0]), ops[1..], p, customer);
    }
  }

  /** No further order with the coupon is placed for the customer. */
  predicate Quiet(ops: seq<Op>, p: Id, customer: int) {
    forall op :: op in ops ==> !PlacesFor(op, p, customer)
  }

  lemma {:induction false} QuietRunsAreRoomy(db: Db, ops: seq<Op>, p: Id, customer: int)
    requires Valid(db) && FreshRun(db, ops) && Quiet(ops, p, customer)
    requires p in db.promos && db.promos[p].perCustomerLimit.Some?
    ensures RoomyRun(db, ops, p, customer)
    decreases |ops|
  {
    if ops != [] {
      StepKeeps(db, ops[0]);
      QuietRunsAreRoomy(Step(db, ops[0]), ops[1..], p, customer);
    }
  }

  /** Consuming what is owed, order by order, overdraws a personal limit that is not covered. */
  lemma {:induction false} ConsumingOverdraws(db: Db, p: Id, customer: int) returns (ops: seq<Op>)
    requires Valid(db) && p in db.promos && db.promos[p].perCustomerLimit.Some? && !Covered(db, p, customer)
    ensures FreshRun(db, ops) && Quiet(ops, p, customer)
    ensures CustomerUses(Run(db, ops), p, customer) > db.promos[p].perCustomerLimit.value
    decreases db.promos[p].perCustomerLimit.value - CustomerUses(db, p, customer)
  {
    ops := [];
    if CustomerUses(db, p, customer) <= db.promos[p].perCustomerLimit.value {
      var owed := OwedOrders(db, p, customer);
      assert (forall id :: id !in owed) ==> owed == {};
      var id :| id in owed;
      var op := ConsumeOrderCoupon(id);
      ConsumeStep(db, id);
      ConsumeCovers(db, id, db.orders[id].status, p, customer);
      UsesAfter(db, id, db.orders[id].status, p, customer);
      StepKeeps(db, op);
      var rest := ConsumingOverdraws(Step(db, op), p, customer);
      ops := [op] + rest;
      assert ops[1..] == rest;
    }
  }

  /** Without further placements the customer stays within the limit over every run exactly
      when what is owed, or what the quota leaves, still fits. */
  lemma {:induction false} PersonalLimitKeptIff(db: Db, p: Id, customer: int)
    requires Valid(db) && p in db.promos && db.promos[p].perCustomerLimit.Some?
    ensures (forall ops :: FreshRun(db, ops) && Quiet(ops, p, customer)
                           ==> CustomerUses(Run(db, ops), p, customer) <= db.promos[p].perCustomerLimit.value) <==>
            Covered(db, p, customer)
  {
    if Covered(db, p, customer) {
      forall ops | FreshRun(db, ops) && Quiet(ops, p, customer)
        ensures CustomerUses(Run(db, ops), p, customer) <= db.promos[p].perCustomerLimit.value
      {
        QuietRunsAreRoomy(db, ops, p, customer);
        RoomyRunsKeepPersonalLimit(db, ops, p, customer);
      }
    } else {
      var ops := ConsumingOverdraws(db, p, customer);
    }
  }

  /** Checkout only compares the usage rows with the limit. An order it accepts keeps the customer
      within the limit over every run that follows exactly when there was room for it besides
      the orders that still owe theirs. */
  lemma {:induction false} PlacementKeepsPersonalLimitIff(db: Db, op: Op)
    requires Valid(db) && Fresh(db, op) && op.Place? && op.coupon.Some? && Outcome(db, op).Ok?
    requires db.promos[op.coupon.value].perCustomerLimit.Some?
    ensures var p, c := op.coupon.value, op.customer;
            (forall ops :: FreshRun(Step(db, op), ops) && Quiet(ops, p, c)
                           ==> CustomerUses(Run(Step(db, op), ops), p, c) <= db.promos[p].perCustomerLimit.value) <==>
            HasRoom(db, p, c)
  {
    StepKeeps(db, op);
    PlacementCovers(db, op, op.coupon.value, op.customer);
    PersonalLimitKeptIff(Step(db, op), op.coupon.value, op.customer);
  }

  /** One use per customer, two orders of one customer pending. */
  function TwoPending(): Db {
    Db(map[1 := Order(7, Some(1), 10, Pending, false), 2 := Order(7, Some(1), 10, Pending, false)],
       map[1 := Quota(0, None, Some(1))], [])
  }

  lemma {:induction false} BothAreAccepted()
    ensures var db := Db(map[], map[1 := Quota(0, None, Some(1))], []);
            Outcome(db, Place(1, 7, Some(1), 10)).Ok? &&
            Outcome(Outcome(db, Place(1, 7, Some(1), 10)).value, Place(2, 7, Some(1), 10)) == Ok(TwoPending())
  {}

  lemma {:induction false} BothAreConsumed()
    ensures var db' := Step(Step(TwoPending(), UpdateStatus(1, Confirmed)), UpdateStatus(2, Confirmed));
            CustomerUses(db', 1, 7) == 2
  {
    var first, second := Usage(1, 7, 1, 10), Usage(1, 7, 2, 10);
    var db1 := Step(TwoPending(), UpdateStatus(1, Confirmed));
    assert db1.usages == [] + [first] && db1.orders[2] == TwoPending().orders[2];
    assert Step(db1, UpdateStatus(2, Confirmed)).usages == db1.usages + [second];
    SumPush(OfCustomer(1, 7), [], first);
    SumPush(OfCustomer(1, 7), db1.usages, second);
  }

  /** From empty tables, one use per customer: two orders are accepted before either is confirmed,
      and the customer ends up with two uses. */
  lemma {:induction false} TwoPendingOrdersOverdraw()
    ensures var db := Db(map[], map[1 := Quota(0, None, Some(1))], []);
            var ops := [Place(1, 7, Some(1), 10), Place(2, 7, Some(1), 10)] +
                       [UpdateStatus(1, Confirmed), UpdateStatus(2, Confirmed)];
            Valid(db) && FreshRun(db, ops) && CustomerUses(Run(db, ops), 1, 7) == 2
  {
    var db := Db(map[], map[1 := Quota(0, None, Some(1))], []);
    var places := [Place(1, 7, Some(1), 10), Place(2, 7, Some(1), 10)];
    var confirms := [UpdateStatus(1, Confirmed), UpdateStatus(2, Confirmed)];
    BothAreAccepted();
    BothAreConsumed();
    RunTwo(db, places[0], places[1], confirms);
    RunTwo(TwoPending(), confirms[0], confirms[1], []);
    assert places == [places[0], places[1]] && confirms == [confirms[0], confirms[1]] + [];
  }

  lemma {:induction false} RunTwo(db: Db, a: Op, b: Op, rest: seq<Op>)
    ensures Run(db, [a, b] + rest) == Run(Step(Step(db, a), b), rest)
    ensures FreshRun(db, [a, b] + rest) <==>
            Fresh(db, a) && Fresh(Step(db, a), b) && FreshRun(Step(Step(db, a), b), rest)
  {
    assert ([a, b] + rest)[1..] == [b] + rest && ([b] + rest)[1..] == rest;
  }

  // -- Confirmability ---------------------------------------------------------

  /** All orders whose coupon p is still to be consumed. */
  function OwedTo(db: Db, p: Id): set<Id> {
    set id | id in db.orders && OwesCoupon(db.orders[id]) && db.orders[id].coupon == Some(p)
  }

  /** The quota left is enough for this many more uses. */
  predicate LeavesFor(db: Db, p: Id, owed: nat)
    requires p in db.promos
  {
    db.promos[p].limit.None? || owed <= db.promos[p].limit.value - db.promos[p].usageCount
  }

  predicate Backed(db: Db, p: Id)
    requires p in db.promos
  {
    LeavesFor(db, p, |OwedTo(db, p)|)
  }

  lemma {:induction false} ConsumeBacks(db: Db, id: Id, s: Status, p: Id)
    requires id in db.orders && OwesCoupon(db.orders[id]) && Consume(db, id).Some? && p in db.promos
    ensures Backed(Consumed(db, id, s), p) <==> Backed(db, p)
  {
    var owed, owed' := OwedTo(db, p), OwedTo(Consumed(db, id, s), p);
    if db.orders[id].coupon == Some(p) {
      assert id in owed && owed' == owed - {id};
    } else {
      assert owed' == owed;
    }
  }

  lemma {:induction false} OwedToWithOneMore(db: Db, id: Id, o: Order, p: Id)
    requires id !in db.orders
    ensures OwedTo(db.(orders := db.orders[id := o]), p)
            == OwedTo(db, p) + (if OwesCoupon(o) && o.coupon == Some(p) then {id} else {})
    ensures id !in OwedTo(db, p)
  {}

  lemma {:induction false} OwedToAfterPlacement(db: Db, op: Op, p: Id)
    requires Fresh(db, op) && op.Place? && Outcome(db, op).Ok?
    ensures |OwedTo(Step(db, op), p)| == |OwedTo(db, p)| + if op.coupon == Some(p) then 1 else 0
  {
    OwedToWithOneMore(db, op.id, Order(op.customer, op.coupon, op.discount, Pending, false), p);
  }

  lemma {:induction false} PlacementBacks(db: Db, op: Op, p: Id)
    requires Fresh(db, op) && op.Place? && Outcome(db, op).Ok? && p in db.promos
    ensures Backed(Step(db, op), p) <==>
            if op.coupon == Some(p) then LeavesFor(db, p, |OwedTo(db, p)| + 1) else Backed(db, p)
  {
    OwedToAfterPlacement(db, op, p);
  }

  lemma {:induction false} StatusBacks(db: Db, id: Id, s: Status, p: Id)
    requires id in db.orders && StatusChanged(db, id, s).Ok? && p in db.promos
    ensures p in StatusChanged(db, id, s).value.promos
    ensures Backed(StatusChanged(db, id, s).value, p) <==> Backed(db, p)
  {
    if s == Confirmed && OwesCoupon(db.orders[id]) {
      ConsumeBacks(db, id, s, p);
    } else {
      assert OwedTo(WithStatus(db, id, s), p) == OwedTo(db, p);
    }
  }

  lemma {:induction false} StepBacks(db: Db, op: Op, p: Id)
    requires Fresh(db, op) && p in db.promos && !(op.Place? && op.coupon == Some(p))
    ensures p in Step(db, op).promos
    ensures Backed(Step(db, op), p) <==> Backed(db, p)
  {
    if Outcome(db, op).Ok? {
      match op {
        case Place(_, _, _, _) => PlacementBacks(db, op, p);
        case UpdateStatus(id, next) => StatusBacks(db, id, next, p);
        case CancelByCustomer(id, _) => StatusBacks(db, id, Cancelled, p);
        case ConsumeOrderCoupon(id) =>
          if OwesCoupon(db.orders[id]) {
            ConsumeStep(db, id);
            ConsumeBacks(db, id, db.orders[id].status, p);
          }
      }
    }
  }

  /** No further order is placed with the coupon. */
  predicate NoMore(ops: seq<Op>, p: Id) {
    forall op :: op in ops ==> !(op.Place? && op.coupon == Some(p))
  }

  lemma {:induction false} RunBacks(db: Db, ops: seq<Op>, p: Id)
    requires FreshRun(db, ops) && NoMore(ops, p) && p in db.promos
    ensures p in Run(db, ops).promos
    ensures Backed(Run(db, ops), p) <==> Backed(db, p)
    decreases |ops|
  {
    if ops != [] {
      assert ops[0] in ops;
      StepBacks(db, ops[0], p);
      RunBacks(Step(db, ops[0]), ops[1..], p);
    }
  }

  /** Every order that owes the coupon could have it consumed now. */
  predicate AllConfirmable(db: Db, p: Id) {
    forall id :: id in OwedTo(db, p) ==> Consume(db, id).Some?
  }

  lemma {:induction false} BackedIsConfirmable(db: Db, p: Id)
    requires p in db.promos && Backed(db, p)
    ensures AllConfirmable(db, p)
  {
    forall id | id in OwedTo(db, p) ensures Consume(db, id).Some? {
      assert |OwedTo(db, p)| >= |{id}| by { SubsetSize({id}, OwedTo(db, p)); }
    }
  }

  lemma {:induction false} SubsetSize(a: set<Id>, b: set<Id>)
    requires a <= b
    ensures |a| <= |b|
  {
    assert b == a + (b - a);
  }

  /** Consuming as much as the quota leaves strands an order that owes more. */
  lemma {:induction false} ConsumingStrands(db: Db, p: Id) returns (ops: seq<Op>)
    requires Valid(db) && p in db.promos && !Backed(db, p)
    ensures FreshRun(db, ops) && NoMore(ops, p) && !AllConfirmable(Run(db, ops), p)
    decreases db.promos[p].limit.value - db.promos[p].usageCount
  {
    var owed := OwedTo(db, p);
    assert (forall id :: id !in owed) ==> owed == {};
    var id :| id in owed;
    if Consume(db, id).None? {
      ops := [];
    } else {
      var op := ConsumeOrderCoupon(id);
      ConsumeStep(db, id);
      ConsumeBacks(db, id, db.orders[id].status, p);
      StepKeeps(db, op);
      var rest := ConsumingStrands(Step(db, op), p);
      ops := [op] + rest;
      assert ops[1..] == rest;
    }
  }

  /** Without further placements every order that owes a coupon stays confirmable, over every run,
      exactly when the quota left covers all that owe it. */
  lemma {:induction false} StayConfirmableIff(db: Db, p: Id)
    requires Valid(db) && p in db.promos
    ensures (forall ops :: FreshRun(db, ops) && NoMore(ops, p) ==> AllConfirmable(Run(db, ops), p)) <==> Backed(db, p)
  {
    if Backed(db, p) {
      forall ops | FreshRun(db, ops) && NoMore(ops, p) ensures AllConfirmable(Run(db, ops), p) {
        RunBacks(db, ops, p);
        BackedIsConfirmable(Run(db, ops), p);
      }
    } else {
      var ops := ConsumingStrands(db, p);
    }
  }

  /** Checkout compares the recorded uses with the limit. An order it accepts leaves every order
      that owes the coupon confirmable for good exactly when the quota left covers one more than
      owed it before. */
  lemma {:induction false} PlacementKeepsConfirmableIff(db: Db, op: Op)
    requires Valid(db) && Fresh(db, op) && op.Place? && op.coupon.Some? && Outcome(db, op).Ok?
    ensures var p, db' := op.coupon.value, Step(db, op);
            (forall ops :: FreshRun(db', ops) && NoMore(ops, p) ==> AllConfirmable(Run(db', ops), p)) <==>
            LeavesFor(db, p, |OwedTo(db, p)| + 1)
  {
    StepKeeps(db, op);
    PlacementBacks(db, op, op.coupon.value);
    StayConfirmableIff(Step(db, op), op.coupon.value);
  }

  /** A quota of one, two orders accepted: the second can never be confirmed once the first is. */
  lemma {:induction false} SecondOrderIsStranded()
    ensures var db := Db(map[], map[1 := Quota(0, Some(1), None)], []);
            var first, second := Place(1, 7, Some(1), 10), Place(2, 8, Some(1), 10);
            var both := Step(Step(db, first), second);
            && Outcome(db, first).Ok? && Outcome(Step(db, first), second).Ok?
            && Outcome(both, UpdateStatus(1, Confirmed)).Ok?
            && Outcome(Step(both, UpdateStatus(1, Confirmed)), UpdateStatus(2, Confirmed)) == Err(CouponGone)
  {}

  // -- What each step delivers ------------------------------------------------

  /** How far along delivery a status is; a cancelled order is nowhere. */
  function Stage(s: Status): int {
    match s
    case Pending => 1 case Confirmed => 2 case Packing => 3 case Shipping => 4
    case Delivered => 5 case Returned => 6 case Cancelled => 0
  }

  /** An order may go one stage further, or be cancelled before it is packed, and nothing else. */
  lemma {:induction false} TransitionsAre(s: Status, next: Status)
    ensures next in Next(s) <==> if next == Cancelled then s in {Pending, Confirmed}
                                 else s != Cancelled && Stage(next) == Stage(s) + 1
  {}

  /** A status update is accepted exactly when the order exists, the transition is one of these, and a
      coupon to be consumed with it has quota left; then the order has that status, the coupon is
      consumed if it is confirmed now, and no other order changed. */
  lemma {:induction false} UpdateDelivers(db: Db, id: Id, next: Status)
    ensures var r := Outcome(db, UpdateStatus(id, next));
            && (r.Ok? <==> id in db.orders && next in Next(db.orders[id].status) &&
                           (next == Confirmed && OwesCoupon(db.orders[id]) ==>
                              var p := db.orders[id].coupon.value;
                              p in db.promos && (db.promos[p].limit.Some? ==>
                                                   db.promos[p].usageCount < db.promos[p].limit.value)))
            && (r.Ok? ==>
                  var o, o' := db.orders[id], r.value.orders[id];
                  && o'.status == next
                  && o'.customer == o.customer && o'.coupon == o.coupon && o'.discount == o.discount
                  && (o'.couponConsumed <==> o.couponConsumed || (next == Confirmed && o.coupon.Some?))
                  && r.value.orders.Keys == db.orders.Keys
                  && forall k :: k in db.orders && k != id ==> r.value.orders[k] == db.orders[k])
  {}

  /** A customer's cancellation is accepted exactly for an own order that is still pending. */
  lemma {:induction false} CancelDelivers(db: Db, id: Id, userId: int)
    ensures var r := Outcome(db, CancelByCustomer(id, userId));
            && (r.Ok? <==> id in db.orders && db.orders[id].customer == userId && db.orders[id].status == Pending)
            && (r.Ok? ==> r.value == db.(orders := db.orders[id := db.orders[id].(status := Cancelled)]))
  {}

  /** An accepted order is stored as placed, pending, its coupon not consumed. */
  lemma {:induction false} PlaceDelivers(db: Db, id: Id, customer: int, coupon: Option<Id>, discount: int)
    requires Outcome(db, Place(id, customer, coupon, discount)).Ok?
    ensures var db' := Outcome(db, Place(id, customer, coupon, discount)).value;
            && db'.orders.Keys == db.orders.Keys + {id} && db'.promos == db.promos && db'.usages == db.usages
            && db'.orders[id].customer == customer && db'.orders[id].coupon == coupon
            && db'.orders[id].discount == discount && db'.orders[id].status == Pending
            && !db'.orders[id].couponConsumed
            && forall k :: k in db.orders && k != id ==> db'.orders[k] == db.orders[k]
  {}

  /** Whether it is confirmed or consumed on its own, a coupon consumed adds one use and the usage row. */
  lemma {:induction false} ConsumptionDelivers(db: Db, id: Id, op: Op)
    requires id in db.orders && OwesCoupon(db.orders[id]) && Outcome(db, op).Ok?
    requires op == ConsumeOrderCoupon(id) || op == UpdateStatus(id, Confirmed)
    ensures var o, db' := db.orders[id], Outcome(db, op).value;
            var p := o.coupon.value;
            && p in db.promos && db'.usages == db.usages + [Usage(p, o.customer, id, o.discount)]
            && db'.promos == db.promos[p := Quota(db.promos[p].usageCount + 1, db.promos[p].limit,
                                                  db.promos[p].perCustomerLimit)]
            && db'.orders[id].couponConsumed
  {}

  function Deliver(id: Id): seq<Op> {
    [UpdateStatus(id, Confirmed), UpdateStatus(id, Packing), UpdateStatus(id, Shipping), UpdateStatus(id, Delivered)]
  }

  lemma {:induction false} AdvancesTo(db: Db, id: Id, next: Status, rest: seq<Op>)
    requires id in db.orders && db.orders[id].coupon.None? && next in Next(db.orders[id].status)
    ensures Run(db, [UpdateStatus(id, next)] + rest) == Run(Step(db, UpdateStatus(id, next)), rest)
    ensures var db' := Step(db, UpdateStatus(id, next));
            id in db'.orders && db'.orders[id].coupon.None? && db'.orders[id].status == next
  {
    assert ([UpdateStatus(id, next)] + rest)[1..] == rest;
  }

  /** Every pending order without a coupon can be taken all the way to delivery. */
  lemma {:induction false} PendingOrdersCanBeDelivered(db: Db, id: Id)
    requires id in db.orders && db.orders[id].status == Pending && db.orders[id].coupon.None?
    ensures id in Run(db, Deliver(id)).orders && Run(db, Deliver(id)).orders[id].status == Delivered
  {
    var ops := Deliver(id);
    var db1 := Step(db, ops[0]);
    var db2 := Step(db1, ops[1]);
    var db3 := Step(db2, ops[2]);
    AdvancesTo(db, id, Confirmed, ops[1..]);
    AdvancesTo(db1, id, Packing, ops[2..]);
    AdvancesTo(db2, id, Shipping, ops[3..]);
    AdvancesTo(db3, id, Delivered, []);
    assert ops == [ops[0]] + ops[1..] && ops[1..] == [ops[1]] + ops[2..];
    assert ops[2..] == [ops[2]] + ops[3..] && ops[3..] == [ops[3]] + [];
  }
}
