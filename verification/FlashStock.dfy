/** The flash-sale stock over many checkouts. */
module FlashStock {
  import opened Wrappers
  import opened Sums
  import opened Promotions
  import opened Checkout

  datatype Key = Key(saleId: Id, variantId: int)
  datatype Stock = Stock(limit: int, sold: int)
  type Table = map<Key, Stock>

  /** What a checkout finds on sale: for each variant at most one item that is not sold out, with what is left of it. */
  ghost predicate Offers(t: Table, sales: map<int, FlashSale>) {
    forall v :: v in sales ==>
      var k := Key(sales[v].saleId, v);
      k in t && t[k].sold < t[k].limit && sales[v].remaining == t[k].limit - t[k].sold
  }

  function KeyOf(u: Consumption): Key { Key(u.saleId, u.variantId) }

  function TakenFrom(k: Key): Consumption -> int { (u: Consumption) => if KeyOf(u) == k then u.quantity else 0 }

  /** UPDATE ... SET sold = sold + quantity, once for every entry. */
  function Record(t: Table, used: seq<Consumption>): Table {
    if used == [] then t
    else
      var before, u := Record(t, used[..|used| - 1]), used[|used| - 1];
      if KeyOf(u) !in before then before
      else before[KeyOf(u) := before[KeyOf(u)].(sold := before[KeyOf(u)].sold + u.quantity)]
  }

  lemma {:induction false} RecordAddsUp(t: Table, used: seq<Consumption>)
    ensures Record(t, used).Keys == t.Keys
    ensures forall k :: k in t ==> Record(t, used)[k] == Stock(t[k].limit, t[k].sold + Sum(TakenFrom(k), used))
  {
    if used != [] { RecordAddsUp(t, used[..|used| - 1]); }
  }

  lemma {:induction false} ConsumedOnOffer(items: seq<CartItem>, variants: map<int, Variant>, sales: map<int,
                                           FlashSale>)
    requires AllSellable(items, variants)
    ensures forall u :: u in Consumed(PricedLines(items, variants, sales)) ==>
              u.variantId in sales && u.saleId == sales[u.variantId].saleId
  {
    if items != [] {
      var init := items[..|items| - 1];
      ConsumedOnOffer(init, variants, sales);
      assert PricedLines(items, variants, sales)[..|items| - 1] == PricedLines(init, variants, sales);
    }
  }

  ghost predicate OneLineEach(items: seq<CartItem>) {
    forall i, j :: 0 <= i < j < |items| ==> items[i].variantId != items[j].variantId
  }

  /** No flash-sale item is sold beyond its limit. */
  predicate InStock(t: Table) {
    forall k :: k in t ==> t[k].sold <= t[k].limit
  }

  lemma {:induction false} TakesWhatIsLeft(t: Table, items: seq<CartItem>, variants: map<int, Variant>,
                                           sales: map<int, FlashSale>, k: Key)
    requires InStock(t) && Offers(t, sales) && OneLineEach(items) && AllSellable(items, variants) && k in t
    ensures Sum(TakenFrom(k), Consumed(PricedLines(items, variants, sales))) <= t[k].limit - t[k].sold
  {
    var used, v := Consumed(PricedLines(items, variants, sales)), k.variantId;
    ConsumedOnOffer(items, variants, sales);
    if v in sales && sales[v].saleId == k.saleId {
      FlashStockNeverOversold(items, variants, sales, v);
      SumSame(TakenFrom(k), TakenOf(v), used);
    } else {
      SumZero(TakenFrom(k), used);
    }
  }

  /** One checkout: its cart, what it found, and whether it went through. */
  datatype Visit = Visit(items: seq<CartItem>, variants: map<int, Variant>, sales: map<int, FlashSale>, placed: bool)

  ghost predicate Fair(t: Table, visit: Visit) {
    Offers(t, visit.sales) && OneLineEach(visit.items) && (visit.placed ==> AllSellable(visit.items, visit.variants))
  }

  function Used(visit: Visit): seq<Consumption> {
    if visit.placed && AllSellable(visit.items, visit.variants)
      then Consumed(PricedLines(visit.items, visit.variants, visit.sales)) else []
  }

  function Run(t: Table, visits: seq<Visit>): Table
    decreases |visits|
  {
    if visits == [] then t else Run(Record(t, Used(visits[0])), visits[1..])
  }

  /** Every checkout found what was on sale when it came. */
  ghost predicate FairRun(t: Table, visits: seq<Visit>)
    decreases |visits|
  {
    visits == [] || (Fair(t, visits[0]) && FairRun(Record(t, Used(visits[0])), visits[1..]))
  }

  function TakenInRun(k: Key): Visit -> int { (v: Visit) => Sum(TakenFrom(k), Used(v)) }

  lemma {:induction false} VisitKeepsStock(t: Table, v: Visit)
    requires InStock(t) && Fair(t, v)
    ensures InStock(Record(t, Used(v)))
  {
    var t' := Record(t, Used(v));
    RecordAddsUp(t, Used(v));
    forall k | k in t' ensures t'[k].sold <= t'[k].limit {
      if Used(v) != [] { TakesWhatIsLeft(t, v.items, v.variants, v.sales, k); }
    }
  }

  /** Over every run of checkouts no flash-sale item is sold beyond its limit, and each item's
      counter has grown by what the orders took. */
  lemma {:induction false} RunsNeverOversell(t: Table, visits: seq<Visit>)
    requires InStock(t) && FairRun(t, visits)
    ensures InStock(Run(t, visits)) && Run(t, visits).Keys == t.Keys
    ensures forall k :: k in t ==> Run(t, visits)[k] == Stock(t[k].limit, t[k].sold + Sum(TakenInRun(k), visits))
    decreases |visits|
  {
    if visits != [] {
      var v, rest := visits[0], visits[1..];
      VisitKeepsStock(t, v);
      RecordAddsUp(t, Used(v));
      RunsNeverOversell(Record(t, Used(v)), rest);
      forall k | k in t ensures Sum(TakenInRun(k), visits) == Sum(TakenFrom(k), Used(v)) + Sum(TakenInRun(k), rest) {
        SumHead(TakenInRun(k), visits);
      }
    }
  }

  lemma {:induction false} SumHead(f: Visit -> int, visits: seq<Visit>)
    requires visits != []
    ensures Sum(f, visits) == f(visits[0]) + Sum(f, visits[1..])
  {
    assert visits == [visits[0]] + visits[1..] && [] + [visits[0]] == [visits[0]];
    SumAppend(f, [visits[0]], visits[1..]);
    SumPush(f, [], visits[0]);
  }
}
