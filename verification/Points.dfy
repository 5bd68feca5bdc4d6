/** What the loyalty operations give and take, customer by customer and row by row. */
module Points {
  import opened Wrappers
  import opened Sums
  import opened Loyalty

  /** One row was added for the customer, whose balance moved by its points; nothing else moved. */
  predicate Moved(s: State, s': State, c: int, t: TxType, points: int) {
    && c in s.balances
    && s'.balances == s.balances[c := s.balances[c] + points]
    && s'.ledger == s.ledger + [Tx(c, t, points, s.balances[c], s.balances[c] + points)]
  }

  predicate SameRedemptions(s: State, s': State) {
    s'.catalog == s.catalog && s'.redemptions == s.redemptions
  }

  // -- Earning ----------------------------------------------------------------

  /** m is the multiplier, in hundredths, of the first scope for a category of the order; 100 without one. */
  predicate Multiplies(scopes: seq<MultiplierScope>, categoryIds: seq<int>, m: int) {
    ((forall i :: 0 <= i < |scopes| ==> scopes[i].categoryId !in categoryIds) && m == 100) ||
    (exists i :: 0 <= i < |scopes| && scopes[i].categoryId in categoryIds && m == scopes[i].multiplier &&
                 forall j :: 0 <= j < i ==> scopes[j].categoryId !in categoryIds)
  }

  lemma {:induction false} MultiplierIs(scopes: seq<MultiplierScope>, categoryIds: seq<int>, m: int)
    requires Multiplies(scopes, categoryIds, m)
    ensures Multiplier(scopes, categoryIds) == m
  {
    if scopes != [] && scopes[0].categoryId !in categoryIds {
      if i :| 0 <= i < |scopes| && scopes[i].categoryId in categoryIds && m == scopes[i].multiplier &&
              forall j :: 0 <= j < i ==> scopes[j].categoryId !in categoryIds {
        assert scopes[1..][i - 1] == scopes[i];
      }
      MultiplierIs(scopes[1..], categoryIds, m);
    }
  }

  /** An order at or above the first rule's minimum earns k points or more exactly when it is worth k
      times the spend per unit at the rule's rate and the cap allows k; below the minimum it earns none. */
  lemma {:induction false} PointsAreGreatest(rules: seq<EarnRule>, total: int, categoryIds: seq<int>, m: int, k: nat)
    requires rules != [] && rules[0].spendPerUnit > 0 && Multiplies(rules[0].scopes, categoryIds, m) && k > 0
    ensures var r, points := rules[0], PointsFor(rules, total, categoryIds);
            var below := r.minOrderValue.Some? && r.minOrderValue.value != 0 && total < r.minOrderValue.value;
            var capped := r.maxPoints.Some? && r.maxPoints.value != 0;
            && points.Some? && (below ==> points.value == 0)
            && (!below ==> (k <= points.value <==>
                            k * (r.spendPerUnit * 100) <= total * (r.pointsPerUnit * m) &&
                            (capped ==> k <= r.maxPoints.value)))
  {
    var r := rules[0];
    MultiplierIs(r.scopes, categoryIds, m);
    FloorIsGreatest(k, total * (r.pointsPerUnit * m), r.spendPerUnit * 100);
  }

  /** A rule that spends nothing per unit gives an order of some worth all that its cap allows; one
      that spends a negative amount gives it nothing. */
  lemma {:induction false} OddRulesEarn(rules: seq<EarnRule>, total: nat, categoryIds: seq<int>, m: nat)
    requires rules != [] && Multiplies(rules[0].scopes, categoryIds, m) && rules[0].pointsPerUnit > 0 && m > 0
    requires total > 0 && (rules[0].minOrderValue.Some? ==> rules[0].minOrderValue.value <= total)
    requires rules[0].maxPoints.Some? && rules[0].maxPoints.value > 0
    ensures rules[0].spendPerUnit == 0 ==> PointsFor(rules, total, categoryIds) == Some(rules[0].maxPoints.value)
    ensures rules[0].spendPerUnit < 0 ==> PointsFor(rules, total, categoryIds) == Some(0)
  {
    MultiplierIs(rules[0].scopes, categoryIds, m);
    assert rules[0].pointsPerUnit * m > 0;
    if rules[0].spendPerUnit < 0 {
      NothingEarned(total, rules[0].pointsPerUnit * m, -rules[0].spendPerUnit * 100);
    }
  }

  /** Earning adds the order's points as an earn row; an order that earns nothing changes nothing. */
  lemma {:induction false} EarnDelivers(s: State, c: int, rules: seq<EarnRule>, total: int, categoryIds: seq<int>)
    requires PointsFor(rules, total, categoryIds).Some?
    ensures var points := PointsFor(rules, total, categoryIds).value;
            var r := Outcome(s, EarnOp(c, rules, total, categoryIds));
            && (points == 0 ==> r == Ok(s))
            && (points > 0 && c in s.balances && s.balances[c] >= 0 ==>
                  r.Ok? && Moved(s, r.value, c, Earn, points) && SameRedemptions(s, r.value))
  {}

  // -- Deducting and adjusting ------------------------------------------------

  /** An adjustment is accepted exactly when the customer is known and can bear it; it moves the
      balance by the signed points, as earned when they are not negative. */
  lemma {:induction false} AdjustDelivers(s: State, c: int, points: int)
    ensures var r := Outcome(s, AdjustOp(c, points));
            && (r.Ok? <==> c in s.balances && s.balances[c] + points >= 0)
            && (r.Ok? && points >= 0 ==> Moved(s, r.value, c, Earn, points) && SameRedemptions(s, r.value))
            && (r.Ok? && points < 0 ==> Moved(s, r.value, c, Adjust, points) && SameRedemptions(s, r.value))
  {}

  /** A deduction takes what was earned, or all there is if that is less. */
  lemma {:induction false} DeductDelivers(s: State, c: int, earned: nat)
    requires c in s.balances && s.balances[c] >= 0 && earned > 0
    ensures var r := Outcome(s, DeductOp(c, earned));
            && r.Ok? && SameRedemptions(s, r.value)
            && (earned <= s.balances[c] ==> Moved(s, r.value, c, Adjust, 0 - earned))
            && (earned > s.balances[c] ==> Moved(s, r.value, c, Adjust, -s.balances[c]))
  {}

  // -- Redeeming --------------------------------------------------------------

  /** A redemption is accepted exactly when the item is active and not redeemed up to its limit, and
      the customer is known and holds at least what it costs. */
  lemma {:induction false} RedeemAcceptedIff(s: State, c: int, id: int)
    ensures Outcome(s, RedeemOp(c, id)).Ok? <==>
            && id in s.catalog && s.catalog[id].active
            && (s.catalog[id].limit.Some? ==> s.catalog[id].redeemed < s.catalog[id].limit.value)
            && c in s.balances && s.catalog[id].cost <= s.balances[c]
  {}

  /** It takes exactly the cost, counts once more, and records customer, item and cost. */
  lemma {:induction false} RedeemDelivers(s: State, c: int, id: int)
    requires Outcome(s, RedeemOp(c, id)).Ok?
    ensures var s', item := Outcome(s, RedeemOp(c, id)).value, s.catalog[id];
            && Moved(s, s', c, Redeem, -(item.cost as int))
            && s'.redemptions == s.redemptions + [Redemption(c, id, item.cost)]
            && s'.catalog == s.catalog[id := CatalogItem(item.cost, item.active, item.limit, item.redeemed + 1)]
  {}

  predicate NoEdits(ops: seq<Op>) {
    forall op :: op in ops ==> !op.EditOp?
  }

  /** Every redemption was recorded at what its item costs. */
  predicate RecordedAtCost(s: State) {
    forall r :: r in s.redemptions ==> r.catalogId in s.catalog && r.points == s.catalog[r.catalogId].cost
  }

  predicate SameCosts(s: State, s': State) {
    s'.catalog.Keys == s.catalog.Keys && forall id :: id in s.catalog ==> s'.catalog[id].cost == s.catalog[id].cost
  }

  lemma {:induction false} StepKeepsCosts(s: State, op: Op)
    requires RecordedAtCost(s) && !op.EditOp?
    ensures RecordedAtCost(Step(s, op)) && SameCosts(s, Step(s, op))
  {
    if op.RedeemOp? && Outcome(s, op).Ok? { RedeemDelivers(s, op.customer, op.catalogId); }
  }

  lemma {:induction false} RunKeepsCosts(s: State, ops: seq<Op>)
    requires RecordedAtCost(s) && NoEdits(ops)
    ensures RecordedAtCost(Run(s, ops)) && SameCosts(s, Run(s, ops))
    decreases |ops|
  {
    if ops != [] {
      assert ops[0] in ops;
      StepKeepsCosts(s, ops[0]);
      RunKeepsCosts(Step(s, ops[0]), ops[1..]);
    }
  }

  /** How often the customer redeemed the item. */
  function Times(c: int, id: int, redemptions: seq<Redemption>): nat {
    if redemptions == [] then 0
    else
      var r := redemptions[|redemptions| - 1];
      Times(c, id, redemptions[..|redemptions| - 1]) + if r.customer == c && r.catalogId == id then 1 else 0
  }

  /** The cost of each of these items times how often the customer redeemed it. */
  function Spent(c: int, ids: seq<int>, s: State): int
    requires forall id :: id in ids ==> id in s.catalog
  {
    if ids == [] then 0
    else
      var id := ids[|ids| - 1];
      Spent(c, ids[..|ids| - 1], s) + s.catalog[id].cost * Times(c, id, s.redemptions)
  }

  /** ids lists every item of the catalog once. */
  ghost predicate Lists(ids: seq<int>, s: State) {
    (forall a, b :: 0 <= a < b < |ids| ==> ids[a] != ids[b]) && (forall id :: id in ids <==> id in s.catalog)
  }

  function WithRows(s: State, redemptions: seq<Redemption>): State { s.(redemptions := redemptions) }

  lemma {:induction false} SpentOneMore(c: int, ids: seq<int>, s: State, rows: seq<Redemption>, r: Redemption)
    requires forall id :: id in ids ==> id in s.catalog
    requires forall a, b :: 0 <= a < b < |ids| ==> ids[a] != ids[b]
    ensures Spent(c, ids, WithRows(s, rows + [r])) == Spent(c, ids, WithRows(s, rows)) +
            if r.customer == c && r.catalogId in ids then s.catalog[r.catalogId].cost else 0
  {
    assert (rows + [r])[..|rows|] == rows;
    if ids != [] {
      var init, id := ids[..|ids| - 1], ids[|ids| - 1];
      assert ids == init + [id] && id !in init;
      SpentOneMore(c, init, s, rows, r);
      Distribute(Times(c, id, rows), 1, s.catalog[id].cost);
    }
  }

  lemma {:induction false} NothingSpent(c: int, ids: seq<int>, s: State)
    requires forall id :: id in ids ==> id in s.catalog
    ensures Spent(c, ids, WithRows(s, [])) == 0
  {
    if ids != [] { NothingSpent(c, ids[..|ids| - 1], s); }
  }

  lemma {:induction false} SpentIsRecorded(c: int, ids: seq<int>, s: State, rows: seq<Redemption>)
    requires Lists(ids, s)
    requires forall r :: r in rows ==> r.catalogId in s.catalog && r.points == s.catalog[r.catalogId].cost
    ensures Spent(c, ids, WithRows(s, rows)) == Sum(CostTo(c), rows)
  {
    if rows == [] {
      NothingSpent(c, ids, s);
    } else {
      var init, r := rows[..|rows| - 1], rows[|rows| - 1];
      assert rows == init + [r] && r in rows;
      SpentIsRecorded(c, ids, s, init);
      SpentOneMore(c, ids, s, init, r);
    }
  }

  function RedeemPoints(c: int): Tx -> int { (t: Tx) => if t.customer == c && t.txType == Redeem then t.points else 0 }

  lemma {:induction false} RedeemPointsAreMinus(c: int, ledger: seq<Tx>)
    ensures Sum(RedeemPoints(c), ledger) == -Sum(RedeemedBy(c), ledger)
  {
    if ledger != [] { RedeemPointsAreMinus(c, ledger[..|ledger| - 1]); }
  }

  /** Over every run in which no cost is edited, a customer's redeem rows sum to minus what each item
      costs times how often the customer redeemed it. */
  lemma {:induction false} RedeemRowsSumToCosts(s: State, ops: seq<Op>, c: int, ids: seq<int>)
    requires s.ledger == [] && s.redemptions == [] && NoEdits(ops) && Lists(ids, s)
    requires forall k :: k in s.balances ==> s.balances[k] >= 0
    ensures var s' := Run(s, ops);
            Lists(ids, s') && Sum(RedeemPoints(c), s'.ledger) == -Spent(c, ids, s')
  {
    var s' := Run(s, ops);
    RunsKeepTheBooks(s, s, ops);
    RunKeepsCosts(s, ops);
    SpentIsRecorded(c, ids, s', s'.redemptions);
    assert WithRows(s', s'.redemptions) == s';
    RedeemPointsAreMinus(c, s'.ledger);
  }
}
