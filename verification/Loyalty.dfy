/** The loyalty ledger with its denormalised balance, and point redemption. */
module Loyalty {
  import opened Wrappers
  import opened Sums

  type Positive = x: int | x >= 1 witness 1

  datatype TxType = Earn | Redeem | Expire | Adjust
  datatype Tx = Tx(customer: int, txType: TxType, points: int, before: int, after: int)
  datatype CatalogItem = CatalogItem(cost: Positive, active: bool, limit: Option<int>, redeemed: int)
  datatype Redemption = Redemption(customer: int, catalogId: int, points: int)
  datatype Error = NotFound | NotEnoughPoints | SoldOut | UnknownCustomer | NotANumber

  datatype State = State(balances: map<int, int>, ledger: seq<Tx>,
                         catalog: map<int, CatalogItem>, redemptions: seq<Redemption>)

  // -- Earning ----------------------------------------------------------------

  /** Multipliers are in hundredths; scopes are the rule's category scopes. */
  datatype MultiplierScope = MultiplierScope(categoryId: int, multiplier: int)
  datatype EarnRule = EarnRule(minOrderValue: Option<int>, spendPerUnit: int, pointsPerUnit: int,
                               scopes: seq<MultiplierScope>, maxPoints: Option<int>)

  /** The first scope whose category is in the order; 100 when there is none. */
  function Multiplier(scopes: seq<MultiplierScope>, categoryIds: seq<int>): int {
    if scopes == [] then 100
    else if scopes[0].categoryId in categoryIds then scopes[0].multiplier
    else Multiplier(scopes[1..], categoryIds)
  }

  predicate Truthy(o: Option<int>) { o.Some? && o.value != 0 }

  /** A quotient in the source's numbers: dividing by zero gives an infinity, or no number at all. */
  datatype Quotient = Finite(floor: int) | PlusInfinity | MinusInfinity | NoNumber

  /** Math.floor((total / spend) * rate), rate in hundredths. */
  function FloorOf(total: int, spend: int, rate: int): Quotient {
    if spend > 0 then Finite((total * rate) / (spend * 100))
    else if spend < 0 then Finite((-total * rate) / (-spend * 100))
    else if total == 0 || rate == 0 then NoNumber
    else if (total > 0) == (rate > 0) then PlusInfinity
    else MinusInfinity
  }

  /** The points an order earns; None where what is left to be written is no storable number. */
  function PointsFor(rules: seq<EarnRule>, orderTotal: int, categoryIds: seq<int>): Option<nat> {
    if rules == [] then Some(0)
    else
      var r := rules[0];
      if Truthy(r.minOrderValue) && orderTotal < r.minOrderValue.value then Some(0)
      else
        match FloorOf(orderTotal, r.spendPerUnit, r.pointsPerUnit * Multiplier(r.scopes, categoryIds))
        case Finite(raw) =>
          var earned := if Truthy(r.maxPoints) && r.maxPoints.value < raw then r.maxPoints.value else raw;
          Some(if earned <= 0 then 0 else earned)
        case PlusInfinity =>
          if Truthy(r.maxPoints) then Some(if r.maxPoints.value <= 0 then 0 else r.maxPoints.value) else None
        case MinusInfinity => Some(0)
        case NoNumber => None
  }

  predicate SaneRates(rules: seq<EarnRule>) {
    rules != [] ==> rules[0].pointsPerUnit >= 0 && forall s :: s in rules[0].scopes ==> s.multiplier >= 0
  }

  /** A larger order of the same categories never earns fewer points, and no order earns more than the cap. */
  lemma {:induction false} EarnedPointsGrow(rules: seq<EarnRule>, total: nat, total': nat, categoryIds: seq<int>)
    requires total <= total' && SaneRates(rules)
    requires PointsFor(rules, total, categoryIds).Some? && PointsFor(rules, total', categoryIds).Some?
    ensures PointsFor(rules, total, categoryIds).value <= PointsFor(rules, total', categoryIds).value
    ensures rules != [] && Truthy(rules[0].maxPoints) && rules[0].maxPoints.value >= 0
            ==> PointsFor(rules, total', categoryIds).value <= rules[0].maxPoints.value
  {
    if rules != [] {
      var r := rules[0];
      var rate := r.pointsPerUnit * Multiplier(r.scopes, categoryIds);
      MultiplierNonNegative(r.scopes, categoryIds);
      assert rate >= 0;
      if r.spendPerUnit > 0 {
        Scaled(total, total', rate, r.spendPerUnit * 100);
      } else if r.spendPerUnit < 0 {
        NothingEarned(total, rate, -r.spendPerUnit * 100);
        NothingEarned(total', rate, -r.spendPerUnit * 100);
      }
    }
  }

  lemma {:induction false} NothingEarned(total: nat, rate: nat, d: int)
    requires d > 0
    ensures ((0 - total) * rate) / d <= 0
  {
    FloorIsGreatest(1, (0 - total) * rate, d);
    assert total * rate >= 0;
  }

  /** The points of an order cannot be written exactly when the rule that applies spends nothing per
      unit, and the order or its rate is worth nothing or no cap replaces the infinity. */
  lemma {:induction false} EarnedUnlessDividedByZero(rules: seq<EarnRule>, total: nat, categoryIds: seq<int>)
    requires SaneRates(rules)
    ensures PointsFor(rules, total, categoryIds).None? <==>
            rules != [] && rules[0].spendPerUnit == 0 &&
            !(Truthy(rules[0].minOrderValue) && total < rules[0].minOrderValue.value) &&
            (total == 0 || rules[0].pointsPerUnit * Multiplier(rules[0].scopes, categoryIds) == 0 ||
             !Truthy(rules[0].maxPoints))
  {
    if rules != [] {
      MultiplierNonNegative(rules[0].scopes, categoryIds);
      assert rules[0].pointsPerUnit * Multiplier(rules[0].scopes, categoryIds) >= 0;
    }
  }

  lemma {:induction false} MultiplierNonNegative(scopes: seq<MultiplierScope>, categoryIds: seq<int>)
    requires forall s :: s in scopes ==> s.multiplier >= 0
    ensures Multiplier(scopes, categoryIds) >= 0
  {
    if scopes != [] {
      var head := scopes[0];
      assert head in scopes;
      MultiplierNonNegative(scopes[1..], categoryIds);
    }
  }

  lemma {:induction false} Scaled(a: int, b: int, rate: int, d: int)
    requires a <= b && rate >= 0 && d > 0
    ensures (a * rate) / d <= (b * rate) / d
  {
    assert a * rate <= b * rate;
    var k := (a * rate) / d;
    FloorIsGreatest(k, a * rate, d);
    FloorIsGreatest(k, b * rate, d);
  }

  // -- What each call does ----------------------------------------------------

  /** A ledger row for an unknown customer violates the foreign key. */
  function Write(s: State, c: int, t: TxType, points: int): Result<State, Error> {
    var current := if c in s.balances then s.balances[c] else 0;
    if current + points < 0 then Err(NotEnoughPoints)
    else if c !in s.balances then Err(UnknownCustomer)
    else Ok(s.(balances := s.balances[c := current + points],
               ledger := s.ledger + [Tx(c, t, points, current, current + points)]))
  }

  datatype Op =
    | EarnOp(customer: int, rules: seq<EarnRule>, orderTotal: int, categoryIds: seq<int>)
    | DeductOp(customer: int, earned: int)
    | AdjustOp(customer: int, points: int)
    | RedeemOp(customer: int, catalogId: int)
    | EditOp(catalogId: int, cost: Positive, active: bool)

  function Outcome(s: State, op: Op): Result<State, Error> {
    match op
    case EarnOp(c, rules, total, cats) =>
      var earned := PointsFor(rules, total, cats);
      if earned.None? then Err(NotANumber)
      else if earned.value == 0 then Ok(s) else Write(s, c, Earn, earned.value)
    case DeductOp(c, earned) =>
      if earned <= 0 then Ok(s)
      else
        var balance := if c in s.balances then s.balances[c] else 0;
        Write(s, c, Adjust, -(if earned < balance then earned else balance))
    case AdjustOp(c, points) => Write(s, c, if points >= 0 then Earn else Adjust, points)
    case RedeemOp(c, id) =>
      if id !in s.catalog || !s.catalog[id].active then Err(NotFound)
      else
        var item := s.catalog[id];
        var cost: int := item.cost;
        if item.limit.Some? && item.redeemed >= item.limit.value then Err(SoldOut)
        else (match Write(s, c, Redeem, -cost)
          case Err(e) => Err(e)
          case Ok(s') => Ok(s'.(catalog := s'.catalog[id := item.(redeemed := item.redeemed + 1)],
                                redemptions := s'.redemptions + [Redemption(c, id, item.cost)])))
    case EditOp(id, cost, active) =>
      if id !in s.catalog then Err(NotFound)
      else Ok(s.(catalog := s.catalog[id := s.catalog[id].(cost := cost, active := active)]))
  }

  // -- The service over its tables --------------------------------------------

  class LoyaltyService {
    var balances: map<int, int>
    var ledger: seq<Tx>
    var catalog: map<int, CatalogItem>
    var redemptions: seq<Redemption>

    constructor (balances: map<int, int>, catalog: map<int, CatalogItem>)
      ensures Tables() == State(balances, [], catalog, [])
      ensures (forall c :: c in balances ==> balances[c] >= 0) ==> Valid(Tables(), Tables())
    {
      this.balances, this.catalog := balances, catalog;
      ledger, redemptions := [], [];
    }

    ghost function Tables(): State
      reads this
    {
      State(balances, ledger, catalog, redemptions)
    }

    method WriteTransaction(customer: int, txType: TxType, points: int) returns (r: Result<Tx, Error>)
      modifies this`balances, this`ledger
      ensures match Write(old(Tables()), customer, txType, points)
              case Ok(s) => r.Ok? && Tables() == s && r.value == ledger[|ledger| - 1]
              case Err(e) => r == Err(e) && Tables() == old(Tables())
    {
      var current := if customer in balances then balances[customer] else 0;
      var after := current + points;
      if after < 0 { return Err(NotEnoughPoints); }
      if customer !in balances { return Err(UnknownCustomer); }
      balances := balances[customer := after];
      var tx := Tx(customer, txType, points, current, after);
      ledger := ledger + [tx];
      return Ok(tx);
    }

    method EarnPointsForOrder(customer: int, rules: seq<EarnRule>, orderTotal: int, categoryIds: seq<int>)
      returns (r: Result<int, Error>)
      modifies this
      ensures match Outcome(old(Tables()), EarnOp(customer, rules, orderTotal, categoryIds))
              case Ok(s) => r == Ok(PointsFor(rules, orderTotal, categoryIds).value) && Tables() == s
              case Err(e) => r == Err(e) && Tables() == old(Tables())
    {
      var earned := PointsFor(rules, orderTotal, categoryIds);
      if earned.None? { return Err(NotANumber); }
      if earned.value <= 0 { return Ok(0); }
      var tx := WriteTransaction(customer, Earn, earned.value);
      return match tx case Ok(_) => Ok(earned.value) case Err(e) => Err(e);
    }

    method DeductPointsForReturn(customer: int, earnedPoints: int) returns (r: Result<(), Error>)
      modifies this
      ensures match Outcome(old(Tables()), DeductOp(customer, earnedPoints))
              case Ok(s) => r.Ok? && Tables() == s
              case Err(e) => r == Err(e) && Tables() == old(Tables())
    {
      if earnedPoints <= 0 { return Ok(()); }
      var balance := if customer in balances then balances[customer] else 0;
      var actual := if earnedPoints < balance then earnedPoints else balance;
      var tx := WriteTransaction(customer, Adjust, -actual);
      return match tx case Ok(_) => Ok(()) case Err(e) => Err(e);
    }

    method AdjustPoints(customer: int, points: int) returns (r: Result<(), Error>)
      modifies this
      ensures match Outcome(old(Tables()), AdjustOp(customer, points))
              case Ok(s) => r.Ok? && Tables() == s
              case Err(e) => r == Err(e) && Tables() == old(Tables())
    {
      var tx := WriteTransaction(customer, if points >= 0 then Earn else Adjust, points);
      return match tx case Ok(_) => Ok(()) case Err(e) => Err(e);
    }

    method RedeemPoints(customer: int, catalogId: int) returns (r: Result<Redemption, Error>)
      modifies this
      ensures match Outcome(old(Tables()), RedeemOp(customer, catalogId))
              case Ok(s) => r.Ok? && Tables() == s && r.value == redemptions[|redemptions| - 1]
              case Err(e) => r == Err(e) && Tables() == old(Tables())
    {
      if catalogId !in catalog || !catalog[catalogId].active { return Err(NotFound); }
      var item := catalog[catalogId];
      if item.limit.Some? && item.redeemed >= item.limit.value { return Err(SoldOut); }
      var cost: int := item.cost;
      var tx := WriteTransaction(customer, Redeem, -cost);
      if tx.Err? { return Err(tx.error); }
      catalog := catalog[catalogId := item.(redeemed := item.redeemed + 1)];
      var redemption := Redemption(customer, catalogId, item.cost);
      redemptions := redemptions + [redemption];
      return Ok(redemption);
    }
  }

  // -- The ledger invariant ---------------------------------------------------

  /** The balance the customer's last row leaves, or the start when there is no row. */
  function LastBalance(start: int, ledger: seq<Tx>, c: int): int {
    if ledger == [] then start
    else if ledger[|ledger| - 1].customer == c then ledger[|ledger| - 1].after
    else LastBalance(start, ledger[..|ledger| - 1], c)
  }

  /** Every row of c picks up where c's previous row left off, adds its points, and stays non-negative. */
  ghost predicate Chains(start: int, ledger: seq<Tx>, c: int) {
    forall i :: 0 <= i < |ledger| && ledger[i].customer == c ==>
      && ledger[i].before == LastBalance(start, ledger[..i], c)
      && ledger[i].after == ledger[i].before + ledger[i].points >= 0
  }

  function PointsOf(c: int): Tx -> int { (t: Tx) => if t.customer == c then t.points else 0 }
  function EarnedBy(c: int): Tx -> int { (t: Tx) => if t.customer == c && t.points > 0 then t.points else 0 }
  function SpentBy(c: int): Tx -> int { (t: Tx) => if t.customer == c && t.points < 0 then -t.points else 0 }
  function RedeemedBy(c: int): Tx -> int { (t: Tx) => if t.customer == c && t.txType == Redeem then -t.points else 0 }
  function CostTo(c: int): Redemption -> int { (r: Redemption) => if r.customer == c then r.points else 0 }
  function OfItem(id: int): Redemption -> int { (r: Redemption) => if r.catalogId == id then 1 else 0 }

  ghost predicate AccountOk(start: int, balance: int, ledger: seq<Tx>, c: int) {
    && Chains(start, ledger, c)
    && balance == LastBalance(start, ledger, c) >= 0
    && balance == start + Sum(PointsOf(c), ledger)
  }

  ghost predicate LedgerOk(start: State, s: State) {
    && s.balances.Keys == start.balances.Keys
    && forall c :: c in s.balances ==> AccountOk(start.balances[c], s.balances[c], s.ledger, c)
  }

  ghost predicate RedemptionsOk(start: State, s: State) {
    && s.catalog.Keys == start.catalog.Keys
    && (forall id :: id in s.catalog ==>
         && s.catalog[id].limit == start.catalog[id].limit
         && s.catalog[id].redeemed == start.catalog[id].redeemed + Sum(OfItem(id), s.redemptions)
         && (s.catalog[id].limit.Some? && start.catalog[id].redeemed <= s.catalog[id].limit.value
             ==> s.catalog[id].redeemed <= s.catalog[id].limit.value))
    && (forall c :: Sum(CostTo(c), s.redemptions) == Sum(RedeemedBy(c), s.ledger))
  }

  /** s is reached from start, whose ledger and redemption tables count as empty. */
  ghost predicate Valid(start: State, s: State) {
    LedgerOk(start, s) && RedemptionsOk(start, s)
  }

  lemma {:induction false} LastOfMore(start: int, ledger: seq<Tx>, t: Tx, c: int)
    ensures LastBalance(start, ledger + [t], c) == if t.customer == c then t.after else LastBalance(start, ledger, c)
  {}

  lemma {:induction false} ChainsOfMore(start: int, ledger: seq<Tx>, t: Tx, c: int)
    requires Chains(start, ledger, c)
    requires t.customer == c ==> t.before == LastBalance(start, ledger, c) && t.after == t.before + t.points >= 0
    ensures Chains(start, ledger + [t], c)
  {
    var more := ledger + [t];
    forall i | 0 <= i < |more| && more[i].customer == c
      ensures more[i].before == LastBalance(start, more[..i], c)
      ensures more[i].after == more[i].before + more[i].points >= 0
    {
      if i < |ledger| {
        assert more[i] == ledger[i] && more[..i] == ledger[..i];
      } else {
        assert more[..i] == ledger;
      }
    }
  }

  lemma {:induction false} WriteKeepsLedger(start: State, s: State, c: int, t: TxType, points: int)
    requires LedgerOk(start, s) && Write(s, c, t, points).Ok?
    ensures LedgerOk(start, Write(s, c, t, points).value)
  {
    var s' := Write(s, c, t, points).value;
    var row := s'.ledger[|s.ledger|];
    forall k | k in s'.balances
      ensures Chains(start.balances[k], s'.ledger, k)
      ensures s'.balances[k] == LastBalance(start.balances[k], s'.ledger, k) >= 0
      ensures s'.balances[k] == start.balances[k] + Sum(PointsOf(k), s'.ledger)
    {
      LastOfMore(start.balances[k], s.ledger, row, k);
      ChainsOfMore(start.balances[k], s.ledger, row, k);
      SumPush(PointsOf(k), s.ledger, row);
    }
  }

  /** Any write but a redemption leaves the redemption totals alone. */
  lemma {:induction false} WriteKeepsRedemptions(start: State, s: State, c: int, t: TxType, points: int)
    requires RedemptionsOk(start, s) && Write(s, c, t, points).Ok? && t != Redeem
    ensures RedemptionsOk(start, Write(s, c, t, points).value)
  {}

  lemma {:induction false} RedeemKeepsRedemptions(start: State, s: State, c: int, id: int)
    requires RedemptionsOk(start, s) && Outcome(s, RedeemOp(c, id)).Ok?
    ensures RedemptionsOk(start, Outcome(s, RedeemOp(c, id)).value)
  {
    var s' := Outcome(s, RedeemOp(c, id)).value;
    var row, redemption := s'.ledger[|s.ledger|], s'.redemptions[|s.redemptions|];
    forall k ensures Sum(CostTo(k), s'.redemptions) == Sum(RedeemedBy(k), s'.ledger) {
      SumPush(CostTo(k), s.redemptions, redemption);
      SumPush(RedeemedBy(k), s.ledger, row);
    }
    forall k | k in s'.catalog
      ensures s'.catalog[k].redeemed == start.catalog[k].redeemed + Sum(OfItem(k), s'.redemptions)
    {
      SumPush(OfItem(k), s.redemptions, redemption);
    }
  }

  /** A rejected call changes nothing. */
  function Step(s: State, op: Op): State {
    match Outcome(s, op) case Ok(s') => s' case Err(_) => s
  }

  function Run(s: State, ops: seq<Op>): State
    decreases |ops|
  {
    if ops == [] then s else Run(Step(s, ops[0]), ops[1..])
  }

  lemma {:induction false} KeepBoth(start: State, s: State, c: int, t: TxType, points: int)
    requires Valid(start, s) && Write(s, c, t, points).Ok? && t != Redeem
    ensures Valid(start, Write(s, c, t, points).value)
  {
    WriteKeepsLedger(start, s, c, t, points);
    WriteKeepsRedemptions(start, s, c, t, points);
  }

  lemma {:induction false} EditKeeps(start: State, s: State, id: int, cost: Positive, active: bool)
    requires Valid(start, s) && id in s.catalog
    ensures Valid(start, Outcome(s, EditOp(id, cost, active)).value)
  {}

  lemma {:induction false} RedeemWrites(s: State, c: int, id: int) returns (cost: int)
    requires Outcome(s, RedeemOp(c, id)).Ok?
    ensures id in s.catalog && cost == s.catalog[id].cost
    ensures Write(s, c, Redeem, -cost).Ok?
    ensures Outcome(s, RedeemOp(c, id)).value.balances == Write(s, c, Redeem, -cost).value.balances
    ensures Outcome(s, RedeemOp(c, id)).value.ledger == Write(s, c, Redeem, -cost).value.ledger
  {
    cost := s.catalog[id].cost;
  }

  lemma {:induction false} RedeemKeepsLedger(start: State, s: State, c: int, id: int)
    requires LedgerOk(start, s) && Outcome(s, RedeemOp(c, id)).Ok?
    ensures LedgerOk(start, Outcome(s, RedeemOp(c, id)).value)
  {
    var cost := RedeemWrites(s, c, id);
    WriteKeepsLedger(start, s, c, Redeem, -cost);
    var written, s' := Write(s, c, Redeem, -cost).value, Outcome(s, RedeemOp(c, id)).value;
    forall k | k in s'.balances ensures AccountOk(start.balances[k], s'.balances[k], s'.ledger, k) {
      assert AccountOk(start.balances[k], written.balances[k], written.ledger, k);
    }
  }

  lemma {:induction false} RedeemKeeps(start: State, s: State, c: int, id: int)
    requires Valid(start, s) && Outcome(s, RedeemOp(c, id)).Ok?
    ensures Valid(start, Outcome(s, RedeemOp(c, id)).value)
  {
    RedeemKeepsLedger(start, s, c, id);
    RedeemKeepsRedemptions(start, s, c, id);
  }

  /** The three operations that write a single row of their own. */
  lemma {:induction false} RowKeeps(start: State, s: State, op: Op)
    requires Valid(start, s) && Outcome(s, op).Ok? && (op.EarnOp? || op.DeductOp? || op.AdjustOp?)
    ensures Valid(start, Outcome(s, op).value)
  {
    var s' := Outcome(s, op).value;
    if s' != s {
      var row := s'.ledger[|s.ledger|];
      assert Write(s, row.customer, row.txType, row.points) == Ok(s');
      KeepBoth(start, s, row.customer, row.txType, row.points);
    }
  }

  lemma {:induction false} StepKeeps(start: State, s: State, op: Op)
    requires Valid(start, s)
    ensures Valid(start, Step(s, op))
  {
    if Outcome(s, op).Ok? {
      match op {
        case RedeemOp(c, id) => RedeemKeeps(start, s, c, id);
        case EditOp(id, cost, active) => EditKeeps(start, s, id, cost, active);
        case _ => RowKeeps(start, s, op);
      }
    }
  }

  /** Over every run: rows chain, balances equal start plus the points written and are never negative,
      redemption counters and quotas hold, and redemptions cost what the redeem rows took. */
  lemma {:induction false} RunsKeepTheBooks(start: State, s: State, ops: seq<Op>)
    requires Valid(start, s)
    ensures Valid(start, Run(s, ops))
    decreases |ops|
  {
    if ops != [] {
      StepKeeps(start, s, ops[0]);
      RunsKeepTheBooks(start, Step(s, ops[0]), ops[1..]);
    }
  }

  /** What the customer summary shows: lifetime earned minus lifetime spent is what the balance moved by. */
  lemma {:induction false} SummaryBalances(start: State, s: State, c: int)
    requires Valid(start, s) && c in s.balances
    ensures Sum(EarnedBy(c), s.ledger) - Sum(SpentBy(c), s.ledger) == s.balances[c] - start.balances[c]
  {
    forall t | t in s.ledger ensures EarnedBy(c)(t) == PointsOf(c)(t) + SpentBy(c)(t) {}
    SumOfPair(PointsOf(c), SpentBy(c), EarnedBy(c), s.ledger);
  }

  /** A return deduction never fails and takes what was earned, but no more than there is. */
  lemma {:induction false} DeductionNeverFails(start: State, s: State, c: int, earned: int)
    requires Valid(start, s) && c in s.balances
    ensures var r := Outcome(s, DeductOp(c, earned));
            r.Ok? && r.value.balances ==
              s.balances[c := if earned <= 0 then s.balances[c]
                              else if earned >= s.balances[c] then 0 else s.balances[c] - earned]
  {}
}
