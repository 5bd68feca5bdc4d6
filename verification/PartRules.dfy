/** When a compatibility rule is reported for a build, in the spec values of its parts alone. */
module PartRules {
  import opened Wrappers
  import opened Sums
  import opened CategoryGraph
  import opened BuildPc

  // -- Parts and slots --------------------------------------------------------

  /** A listed part of the build whose category is the slot's or lies below it. */
  ghost predicate Fills(c: Catalog, q: Quantities, v: int, root: int) {
    v in c.order && v in q && v in c.category && c.category[v].Some? && Above(c.categories, root, c.category[v].value)
  }

  /** A part in the rule's target slot that has a value to compare. */
  ghost predicate Target(c: Catalog, q: Quantities, r: Rule, d: int) {
    r.dest.Some? && Fills(c, q, d, r.dest.value) && SpecOf(c, d, r.destKey).token != ""
  }

  /** The rule applies to the part: it fills the source slot with a value, and if the rule has a
      target slot something fills that. */
  ghost predicate AppliesTo(c: Catalog, q: Quantities, r: Rule, v: int) {
    && Fills(c, q, v, r.source) && SpecOf(c, v, r.sourceKey).token != ""
    && (r.dest.Some? ==> exists d :: Fills(c, q, d, r.dest.value))
  }

  /** The checked build has an issue with this rule about this part. */
  ghost predicate Reported(c: Catalog, q: Quantities, rules: seq<Rule>, r: Rule, v: int) {
    exists i :: i in Issues(c, q, rules) && i.rule == r && i.source == v
  }

  lemma {:induction false} SlotIff(c: Catalog, q: Quantities, root: int)
    ensures forall v :: v in Fill(c, Present(c, q, c.order), root) <==> Fills(c, q, v, root)
  {}

  lemma {:induction false} ReportedIff(c: Catalog, q: Quantities, rules: seq<Rule>, r: Rule, v: int)
    requires r in rules
    ensures Reported(c, q, rules, r, v) <==>
            AppliesTo(c, q, r, v) && Verdict(c, q, r, SpecOf(c, v, r.sourceKey), Dests(c, q, r)).Some?
  {
    IssuesMembers(c, q, rules, r, v);
    SlotIff(c, q, r.source);
    if r.dest.Some? {
      SlotIff(c, q, r.dest.value);
      var ds := Dests(c, q, r);
      if ds != [] { assert ds[0] in ds && Fills(c, q, ds[0], r.dest.value); }
    }
  }

  /** With a target slot, a rule that compares parts is reported exactly when it applies and some
      target does not compare. */
  lemma {:induction false} ClashIff(c: Catalog, q: Quantities, rules: seq<Rule>, r: Rule, v: int)
    requires r in rules && r.check != MinSum && r.dest.Some?
    ensures Reported(c, q, rules, r, v) <==>
            AppliesTo(c, q, r, v) &&
            exists d :: Target(c, q, r, d) &&
                        !CompareSingle(r.check, SpecOf(c, v, r.sourceKey), SpecOf(c, d, r.destKey), Coefficient(r))
  {
    ReportedIff(c, q, rules, r, v);
    SlotIff(c, q, r.dest.value);
    var src, ds := SpecOf(c, v, r.sourceKey), Dests(c, q, r);
    if ds != [] {
      ClashIsFailure(c, q, r, src, ds);
      forall d ensures d in ds && Clashes(c, r, src, d) <==>
                       Target(c, q, r, d) && !CompareSingle(r.check, src, SpecOf(c, d, r.destKey), Coefficient(r)) {}
    }
  }

  // -- Exact match ------------------------------------------------------------

  /** Reported exactly when some target with a value has another one. */
  lemma {:induction false} ExactMatchReportedIff(c: Catalog, q: Quantities, rules: seq<Rule>, r: Rule, v: int)
    requires r in rules && r.check == ExactMatch && r.dest.Some?
    ensures Reported(c, q, rules, r, v) <==>
            AppliesTo(c, q, r, v) &&
            exists d :: Target(c, q, r, d) && SpecOf(c, d, r.destKey).token != SpecOf(c, v, r.sourceKey).token
  {
    ClashIff(c, q, rules, r, v);
  }

  // -- Contains ---------------------------------------------------------------

  /** s occurs somewhere in t. */
  ghost predicate Occurs(s: string, t: string) {
    exists a, b :: t == a + s + b
  }

  lemma {:induction false} OccursIff(s: string, t: string)
    ensures Substring(s, t) <==> Occurs(s, t)
  {
    if i :| 0 <= i <= |t| && s <= t[i..] {
      var a, b := t[..i], t[i + |s|..];
      assert t == a + s + b;
    }
    if a, b :| t == a + s + b {
      assert s <= t[|a|..];
    }
  }

  /** The target lists the token, or, when it has no list, holds it somewhere. */
  ghost predicate Holds(target: Spec, token: string) {
    (target.parts != [] ==> token in target.parts) && (target.parts == [] ==> Occurs(token, target.token))
  }

  /** Reported exactly when some target with a value neither lists nor holds the part's. */
  lemma {:induction false} ContainsReportedIff(c: Catalog, q: Quantities, rules: seq<Rule>, r: Rule, v: int)
    requires r in rules && r.check == Contains && r.dest.Some?
    ensures Reported(c, q, rules, r, v) <==>
            AppliesTo(c, q, r, v) &&
            exists d :: Target(c, q, r, d) && !Holds(SpecOf(c, d, r.destKey), SpecOf(c, v, r.sourceKey).token)
  {
    ClashIff(c, q, rules, r, v);
    forall d ensures CompareSingle(Contains, SpecOf(c, v, r.sourceKey), SpecOf(c, d, r.destKey), Coefficient(r)) <==>
                     Holds(SpecOf(c, d, r.destKey), SpecOf(c, v, r.sourceKey).token)
    {
      OccursIff(SpecOf(c, v, r.sourceKey).token, SpecOf(c, d, r.destKey).token);
    }
  }

  // -- Minimum value ----------------------------------------------------------

  /** A rule's factor: its coefficient, or 1 when that is 0. */
  predicate Factor(r: Rule, k: real) {
    (r.coefficient != 0.0 ==> k == r.coefficient) && (r.coefficient == 0.0 ==> k == 1.0)
  }

  /** The target falls short: one of the two is no number, or the target is below the source times
      the factor; being equal to it is enough. */
  predicate FallsShort(source: Spec, target: Spec, k: real) {
    source.num.None? || target.num.None? || target.num.value < source.num.value * k
  }

  /** Reported exactly when some target with a value falls short. */
  lemma {:induction false} MinValueReportedIff(c: Catalog, q: Quantities, rules: seq<Rule>, r: Rule, v: int, k: real)
    requires r in rules && r.check == MinValue && r.dest.Some? && Factor(r, k)
    ensures Reported(c, q, rules, r, v) <==>
            AppliesTo(c, q, r, v) &&
            exists d :: Target(c, q, r, d) && FallsShort(SpecOf(c, v, r.sourceKey), SpecOf(c, d, r.destKey), k)
  {
    var src := SpecOf(c, v, r.sourceKey);
    ClashIff(c, q, rules, r, v);
    forall d ensures CompareSingle(MinValue, src, SpecOf(c, d, r.destKey), Coefficient(r)) <==>
                     !FallsShort(src, SpecOf(c, d, r.destKey), k)
    {
      FactorIs(r, k);
      ReachesIff(src, SpecOf(c, d, r.destKey), k);
    }
  }

  lemma {:induction false} FactorIs(r: Rule, k: real)
    requires Factor(r, k)
    ensures k == Coefficient(r)
  {}

  lemma {:induction false} ReachesIff(src: Spec, dst: Spec, k: real)
    ensures CompareSingle(MinValue, src, dst, k) <==> !FallsShort(src, dst, k)
  {}

  /** The catalog after part d's target value became a higher number. */
  predicate Raises(c: Catalog, c': Catalog, r: Rule, d: int, to: Spec) {
    && c' == c.(specs := c.specs[(d, r.destKey) := to])
    && SpecOf(c, d, r.destKey).token != "" && to.token != ""
    && SpecOf(c, d, r.destKey).num.Some? && to.num.Some? && SpecOf(c, d, r.destKey).num.value <= to.num.value
  }

  /** Raising the number of a target part never brings up an issue. */
  lemma {:induction false} HigherTargetNeverClashes(c: Catalog, c': Catalog, q: Quantities, rules: seq<Rule>, r: Rule,
                                                    v: int, d: int, to: Spec)
    requires r in rules && r.check == MinValue && r.dest.Some? && Raises(c, c', r, d, to)
    requires d != v || r.sourceKey != r.destKey
    requires Reported(c', q, rules, r, v)
    ensures Reported(c, q, rules, r, v)
  {
    var k := Coefficient(r);
    MinValueReportedIff(c, q, rules, r, v, k);
    MinValueReportedIff(c', q, rules, r, v, k);
    assert SpecOf(c', v, r.sourceKey) == SpecOf(c, v, r.sourceKey);
    forall x, root ensures Fills(c', q, x, root) <==> Fills(c, q, x, root) {}
    var x :| Target(c', q, r, x) && FallsShort(SpecOf(c', v, r.sourceKey), SpecOf(c', x, r.destKey), k);
    assert x != d ==> SpecOf(c', x, r.destKey) == SpecOf(c, x, r.destKey);
    assert Target(c, q, r, x) && FallsShort(SpecOf(c, v, r.sourceKey), SpecOf(c, x, r.destKey), k);
  }

  // -- Sums -------------------------------------------------------------------

  /** What a part asks for: its value, if that is a number, times its quantity in the build. */
  function Asks(s: Spec, quantity: nat): real {
    if s.token != "" && s.num.Some? then s.num.value * quantity as real else 0.0
  }

  /** What the parts of a slot ask for together, over part of the listing. */
  ghost function Load(c: Catalog, q: Quantities, key: string, root: int, order: seq<int>): real {
    if order == [] then 0.0
    else
      var v := order[|order| - 1];
      Load(c, q, key, root, order[..|order| - 1]) +
      if v in q && InSlot(c, v, root) then Asks(SpecOf(c, v, key), q[v]) else 0.0
  }

  lemma {:induction false} LoadOfNext(c: Catalog, q: Quantities, r: Rule, root: int, init: seq<int>, v: int)
    ensures Load(c, q, r.destKey, root, init + [v])
         == Load(c, q, r.destKey, root, init) + if v in q && InSlot(c, v, root) then Demand(c, q, r, v) else 0.0
  {
    assert (init + [v])[..|init|] == init;
  }

  lemma {:induction false} LoadIsDemand(c: Catalog, q: Quantities, r: Rule, root: int, order: seq<int>)
    ensures Load(c, q, r.destKey, root, order) == TotalDemand(c, q, r, Fill(c, Present(c, q, order), root))
  {
    if order == [] {
      assert Fill(c, Present(c, q, order), root) == [];
    } else {
      var init, v := order[..|order| - 1], order[|order| - 1];
      assert order == init + [v];
      LoadIsDemand(c, q, r, root, init);
      DemandOfNext(c, q, r, root, init, v);
      LoadOfNext(c, q, r, root, init, v);
    }
  }

  lemma {:induction false} CoversIff(src: Spec, load: real, k: real)
    ensures Covers(src, load, k) <==> src.num.Some? && !(src.num.value < load * k)
  {}

  lemma {:induction false} ShortIff(c: Catalog, q: Quantities, r: Rule, src: Spec, ds: seq<int>, load: real, k: real)
    requires r.check == MinSum && Factor(r, k) && load == TotalDemand(c, q, r, ds)
    ensures Verdict(c, q, r, src, ds).Some? <==> Short(src, load, k)
  {
    FactorIs(r, k);
    CoversIff(src, load, k);
  }

  /** The part has no number, or less than the load times the factor; just that much is enough. */
  predicate Short(src: Spec, load: real, k: real) {
    src.num.None? || src.num.value < load * k
  }

  /** What the rule's target slot asks for; nothing if it has none. */
  ghost function TargetLoad(c: Catalog, q: Quantities, r: Rule): real {
    if r.dest.Some? then Load(c, q, r.destKey, r.dest.value, c.order) else 0.0
  }

  /** A sum rule is reported exactly when it applies and the part is short of what its target slot
      asks for. */
  lemma {:induction false} MinSumReportedIff(c: Catalog, q: Quantities, rules: seq<Rule>, r: Rule, v: int, k: real)
    requires r in rules && r.check == MinSum && Factor(r, k)
    ensures Reported(c, q, rules, r, v) <==>
            AppliesTo(c, q, r, v) && Short(SpecOf(c, v, r.sourceKey), TargetLoad(c, q, r), k)
  {
    ReportedIff(c, q, rules, r, v);
    if r.dest.Some? { LoadIsDemand(c, q, r, r.dest.value, c.order); }
    ShortIff(c, q, r, SpecOf(c, v, r.sourceKey), Dests(c, q, r), TargetLoad(c, q, r), k);
  }

  // -- Rules without a target slot, and other kinds ---------------------------

  /** A rule without a target slot compares with its default value, if it has one. */
  lemma {:induction false} DefaultReportedIff(c: Catalog, q: Quantities, rules: seq<Rule>, r: Rule, v: int, k: real)
    requires r in rules && r.check != MinSum && r.dest.None? && Factor(r, k)
    ensures var src, ref := SpecOf(c, v, r.sourceKey), r.fallback;
            Reported(c, q, rules, r, v) <==>
            && AppliesTo(c, q, r, v) && ref.token != ""
            && (match r.check
                case ExactMatch => ref.token != src.token
                case Contains => !Holds(ref, src.token)
                case MinValue => FallsShort(src, ref, k)
                case _ => false)
  {
    var src := SpecOf(c, v, r.sourceKey);
    ReportedIff(c, q, rules, r, v);
    OccursIff(src.token, r.fallback.token);
    FactorIs(r, k);
    ReachesIff(src, r.fallback, k);
  }

  lemma {:induction false} OtherChecksPass(c: Catalog, q: Quantities, rules: seq<Rule>, r: Rule, v: int)
    requires r in rules && r.check == OtherCheck
    ensures !Reported(c, q, rules, r, v)
  {
    if r.dest.Some? { ClashIff(c, q, rules, r, v); } else { ReportedIff(c, q, rules, r, v); }
  }

  // -- Which parts an issue names ---------------------------------------------

  /** The target does not go with the source part under the rule. */
  ghost predicate Offends(r: Rule, src: Spec, dst: Spec, k: real) {
    match r.check
    case ExactMatch => dst.token != src.token
    case Contains => !Holds(dst, src.token)
    case MinValue => FallsShort(src, dst, k)
    case _ => false
  }

  lemma {:induction false} OffendsIff(r: Rule, src: Spec, dst: Spec, k: real)
    requires Factor(r, k) && r.check != MinSum
    ensures Offends(r, src, dst, k) <==> !CompareSingle(r.check, src, dst, Coefficient(r))
  {
    FactorIs(r, k);
    OccursIff(src.token, dst.token);
    ReachesIff(src, dst, k);
  }

  lemma {:induction false} IssueIsVerdict(c: Catalog, q: Quantities, rules: seq<Rule>, i: Issue)
    requires i in Issues(c, q, rules)
    ensures i.rule in rules
    ensures Verdict(c, q, i.rule, SpecOf(c, i.source, i.rule.sourceKey), Dests(c, q, i.rule)) == Some(i.against)
  {
    var init, last := rules[..|rules| - 1], rules[|rules| - 1];
    assert rules == init + [last];
    if i in Issues(c, q, init) {
      IssueIsVerdict(c, q, init, i);
    } else {
      IssuesFromMembers(c, q, last, Dests(c, q, last), Sources(c, q, last), i);
    }
  }

  lemma {:induction false} WithValueIs(c: Catalog, r: Rule, ds: seq<int>)
    ensures forall d :: d in WithValue(c, r, ds) <==> d in ds && SpecOf(c, d, r.destKey).token != ""
  {
    if ds != [] {
      var init := ds[..|ds| - 1];
      WithValueIs(c, r, init);
      assert forall d :: d in ds <==> d in init || d == ds[|ds| - 1];
    }
  }

  /** An issue of a sum rule names every target that has a value. */
  lemma {:induction false} SumIssueNames(c: Catalog, q: Quantities, rules: seq<Rule>, i: Issue)
    requires i in Issues(c, q, rules) && i.rule.check == MinSum
    ensures forall d :: d in i.against <==> Target(c, q, i.rule, d)
  {
    IssueIsVerdict(c, q, rules, i);
    if i.rule.dest.Some? { SlotIff(c, q, i.rule.dest.value); }
    WithValueIs(c, i.rule, Dests(c, q, i.rule));
  }

  /** The n-th part of the target slot is the first, in listing order, to offend. */
  ghost predicate FirstOffender(c: Catalog, r: Rule, src: Spec, k: real, ds: seq<int>, n: nat) {
    && n < |ds| && SpecOf(c, ds[n], r.destKey).token != "" && Offends(r, src, SpecOf(c, ds[n], r.destKey), k)
    && forall m :: 0 <= m < n && SpecOf(c, ds[m], r.destKey).token != ""
                   ==> !Offends(r, src, SpecOf(c, ds[m], r.destKey), k)
  }

  lemma {:induction false} FirstOffenderIs(c: Catalog, q: Quantities, r: Rule, src: Spec, k: real, ds: seq<int>)
    returns (n: nat)
    requires r.check != MinSum && Factor(r, k) && ds != [] && Verdict(c, q, r, src, ds).Some?
    ensures FirstOffender(c, r, src, k, ds, n) && Verdict(c, q, r, src, ds) == Some([ds[n]])
  {
    forall d ensures Offends(r, src, SpecOf(c, d, r.destKey), k) <==>
                     !CompareSingle(r.check, src, SpecOf(c, d, r.destKey), Coefficient(r))
    {
      OffendsIff(r, src, SpecOf(c, d, r.destKey), k);
    }
    n :| 0 <= n < |ds| && Clashes(c, r, src, ds[n]) && (forall j :: 0 <= j < n ==> !Clashes(c, r, src, ds[j]))
         && Verdict(c, q, r, src, ds) == Some([ds[n]]);
  }

  /** An issue of another rule names the first part of its target slot that offends, and nothing if
      it has no target slot. */
  lemma {:induction false} IssueNames(c: Catalog, q: Quantities, rules: seq<Rule>, i: Issue, k: real)
    requires i in Issues(c, q, rules) && Factor(i.rule, k) && i.rule.check != MinSum
    ensures var src, ds := SpecOf(c, i.source, i.rule.sourceKey), Dests(c, q, i.rule);
            if ds == [] then i.against == []
            else exists n: nat :: FirstOffender(c, i.rule, src, k, ds, n) && i.against == [ds[n]]
  {
    var src, ds := SpecOf(c, i.source, i.rule.sourceKey), Dests(c, q, i.rule);
    IssueIsVerdict(c, q, rules, i);
    if ds != [] { var n := FirstOffenderIs(c, q, i.rule, src, k, ds); }
  }

  // -- Requests ---------------------------------------------------------------

  /** A request for one part asks for the quantity given, rounded down to no less than one. */
  lemma {:induction false} SingleRequest(id: int, quantities: seq<int>)
    ensures Totals(Entries([id], quantities))
            == map[id := if quantities != [] && quantities[0] > 1 then quantities[0] else 1]
  {
    var es := Entries([id], quantities);
    assert es == [] + [es[0]];
    TotalsStep([], es[0]);
    assert Totals([]) == map[];
  }
}
