/** The Build-PC compatibility engine: rules between slots, evaluated over a quantity per variant. */
module BuildPc {
  import opened Wrappers
  import opened Sums
  import opened CategoryGraph

  /** A normalised spec value: its token ("" when absent), the token split at separators, and its
      number if it is one. */
  datatype Spec = Spec(token: string, parts: seq<string>, num: Option<real>)

  const NO_SPEC := Spec("", [], None)

  datatype Check = ExactMatch | Contains | MinSum | MinValue | OtherCheck

  /** dest is the category root of the target slot; fallback is the default reference value. */
  datatype Rule = Rule(id: int, source: int, sourceKey: string, dest: Option<int>, destKey: string,
                       check: Check, coefficient: real, fallback: Spec, mandatory: bool)

  /** order is the order in which the database lists variants; category is None for one without. */
  datatype Catalog = Catalog(order: seq<int>, category: map<int, Option<int>>,
                             specs: map<(int, string), Spec>, categories: Table)

  datatype Issue = Issue(rule: Rule, source: int, against: seq<int>)

  type Quantities = map<int, nat>

  function SpecOf(c: Catalog, v: int, key: string): Spec {
    if (v, key) in c.specs then c.specs[(v, key)] else NO_SPEC
  }

  /** Number(heSo) || 1 */
  function Coefficient(r: Rule): real {
    if r.coefficient == 0.0 then 1.0 else r.coefficient
  }

  // -- Who fills a slot -------------------------------------------------------

  /** The variants of the build that exist, in listing order. */
  function Present(c: Catalog, q: Quantities, order: seq<int>): (r: seq<int>)
    ensures forall v :: v in r <==> v in order && v in q && v in c.category
  {
    if order == [] then []
    else
      var v := order[|order| - 1];
      Present(c, q, order[..|order| - 1]) + (if v in q && v in c.category then [v] else [])
  }

  ghost predicate InSlot(c: Catalog, v: int, root: int) {
    v in c.category && c.category[v].Some? && Above(c.categories, root, c.category[v].value)
  }

  ghost function Fill(c: Catalog, ids: seq<int>, root: int): (r: seq<int>)
    ensures forall v :: v in r <==> v in ids && InSlot(c, v, root)
  {
    if ids == [] then []
    else
      var v := ids[|ids| - 1];
      Fill(c, ids[..|ids| - 1], root) + (if InSlot(c, v, root) then [v] else [])
  }

  /** ids filtered by a resolved category subtree. */
  method FilterByCategory(c: Catalog, ids: seq<int>, root: int, cats: set<int>) returns (r: seq<int>)
    requires forall d :: d in cats <==> Above(c.categories, root, d)
    ensures r == Fill(c, ids, root)
  {
    r := [];
    for n := 0 to |ids|
      invariant r == Fill(c, ids[..n], root)
    {
      assert ids[..n + 1][..n] == ids[..n];
      var v := ids[n];
      if v in c.category && c.category[v].Some? && c.category[v].value in cats { r := r + [v]; }
    }
    assert ids[..|ids|] == ids;
  }

  ghost function Sources(c: Catalog, q: Quantities, r: Rule): seq<int> {
    Fill(c, Present(c, q, c.order), r.source)
  }

  ghost function Dests(c: Catalog, q: Quantities, r: Rule): seq<int> {
    if r.dest.Some? then Fill(c, Present(c, q, c.order), r.dest.value) else []
  }

  // -- Evaluating one rule ----------------------------------------------------

  predicate Substring(s: string, t: string) {
    exists i :: 0 <= i <= |t| && s <= t[i..]
  }

  predicate CompareSingle(check: Check, src: Spec, dst: Spec, k: real) {
    match check
    case ExactMatch => src.token == dst.token
    case Contains => if |dst.parts| > 0 then src.token in dst.parts else Substring(src.token, dst.token)
    case MinValue => src.num.Some? && dst.num.Some? && dst.num.value >= src.num.value * k
    case _ => true
  }

  /** What one destination part asks for; a value that is no number counts as 0. */
  function Demand(c: Catalog, q: Quantities, r: Rule, d: int): real {
    var s := SpecOf(c, d, r.destKey);
    if s.token == "" || s.num.None? then 0.0
    else s.num.value * (if d in q then q[d] else 1) as real
  }

  function TotalDemand(c: Catalog, q: Quantities, r: Rule, ds: seq<int>): real {
    if ds == [] then 0.0 else TotalDemand(c, q, r, ds[..|ds| - 1]) + Demand(c, q, r, ds[|ds| - 1])
  }

  function WithValue(c: Catalog, r: Rule, ds: seq<int>): seq<int> {
    if ds == [] then []
    else WithValue(c, r, ds[..|ds| - 1]) +
         (if SpecOf(c, ds[|ds| - 1], r.destKey).token != "" then [ds[|ds| - 1]] else [])
  }

  predicate Clashes(c: Catalog, r: Rule, src: Spec, d: int) {
    var s := SpecOf(c, d, r.destKey);
    s.token != "" && !CompareSingle(r.check, src, s, Coefficient(r))
  }

  /** A source value that is no number covers nothing, not even a demand of 0. */
  predicate Covers(src: Spec, demand: real, k: real) {
    src.num.Some? && src.num.value >= demand * k
  }

  /** Some(parts) when the rule fails against these parts, None when it holds. */
  ghost function Verdict(c: Catalog, q: Quantities, r: Rule, src: Spec, ds: seq<int>): Option<seq<int>> {
    if r.check == MinSum then
      if Covers(src, TotalDemand(c, q, r, ds), Coefficient(r)) then None else Some(WithValue(c, r, ds))
    else if ds == [] then
      if r.fallback.token == "" || CompareSingle(r.check, src, r.fallback, Coefficient(r)) then None else Some([])
    else if k :| 0 <= k < |ds| && Clashes(c, r, src, ds[k]) && forall j :: 0 <= j < k ==> !Clashes(c, r, src, ds[j])
      then Some([ds[k]])
    else None
  }

  lemma {:induction false} FirstClash(c: Catalog, r: Rule, src: Spec, ds: seq<int>, n: nat) returns (k: nat)
    requires n < |ds| && Clashes(c, r, src, ds[n])
    ensures k <= n && Clashes(c, r, src, ds[k]) && forall j :: 0 <= j < k ==> !Clashes(c, r, src, ds[j])
  {
    if j :| 0 <= j < n && Clashes(c, r, src, ds[j]) { k := FirstClash(c, r, src, ds, j); } else { k := n; }
  }

  method SumDemand(c: Catalog, q: Quantities, r: Rule, ds: seq<int>) returns (sum: real, ids: seq<int>)
    ensures sum == TotalDemand(c, q, r, ds) && ids == WithValue(c, r, ds)
  {
    sum, ids := 0.0, [];
    for n := 0 to |ds|
      invariant sum == TotalDemand(c, q, r, ds[..n]) && ids == WithValue(c, r, ds[..n])
    {
      assert ds[..n + 1][..n] == ds[..n];
      var v := SpecOf(c, ds[n], r.destKey);
      if v.token != "" {
        var qty := if ds[n] in q then q[ds[n]] else 1;
        sum := sum + (if v.num.Some? then v.num.value else 0.0) * qty as real;
        ids := ids + [ds[n]];
      }
    }
    assert ds[..|ds|] == ds;
  }

  method EvaluateRule(c: Catalog, q: Quantities, r: Rule, src: Spec, ds: seq<int>) returns (failed: Option<seq<int>>)
    ensures failed == Verdict(c, q, r, src, ds)
  {
    if r.check == MinSum {
      var sum, ids := SumDemand(c, q, r, ds);
      return if src.num.Some? && src.num.value >= sum * Coefficient(r) then None else Some(ids);
    }
    if |ds| == 0 {
      if r.fallback.token == "" { return None; }
      return if CompareSingle(r.check, src, r.fallback, Coefficient(r)) then None else Some([]);
    }
    for n := 0 to |ds|
      invariant forall j :: 0 <= j < n ==> !Clashes(c, r, src, ds[j])
    {
      var dest := SpecOf(c, ds[n], r.destKey);
      if dest.token == "" { continue; }
      if !CompareSingle(r.check, src, dest, Coefficient(r)) { return Some([ds[n]]); }
    }
    return None;
  }

  // -- Checking a build -------------------------------------------------------

  ghost function IssuesFrom(c: Catalog, q: Quantities, r: Rule, ds: seq<int>, sources: seq<int>): seq<Issue> {
    if sources == [] then []
    else
      var v := sources[|sources| - 1];
      var src := SpecOf(c, v, r.sourceKey);
      var failed := Verdict(c, q, r, src, ds);
      IssuesFrom(c, q, r, ds, sources[..|sources| - 1]) +
      (if src.token != "" && failed.Some? then [Issue(r, v, failed.value)] else [])
  }

  ghost function RuleIssues(c: Catalog, q: Quantities, r: Rule): seq<Issue> {
    if r.dest.Some? && Dests(c, q, r) == [] then []
    else IssuesFrom(c, q, r, Dests(c, q, r), Sources(c, q, r))
  }

  /** All issues of a build, rule by rule in rule order, part by part in listing order. */
  ghost function Issues(c: Catalog, q: Quantities, rules: seq<Rule>): seq<Issue> {
    if rules == [] then [] else Issues(c, q, rules[..|rules| - 1]) + RuleIssues(c, q, rules[|rules| - 1])
  }

  ghost predicate Compatible(issues: seq<Issue>) {
    forall i :: i in issues ==> !i.rule.mandatory
  }

  datatype Entry = Entry(id: int, qty: nat)

  /** Missing quantities are 1, others at least 1. */
  function Entries(ids: seq<int>, quantities: seq<int>): seq<Entry> {
    seq(|ids|, i requires 0 <= i < |ids| =>
      Entry(ids[i], if i < |quantities| && quantities[i] > 1 then quantities[i] else 1))
  }

  function QtyOf(id: int): Entry -> int { (e: Entry) => if e.id == id then e.qty else 0 }

  /** The total quantity of every variant mentioned. */
  function Totals(es: seq<Entry>): Quantities {
    map id | id in (set e | e in es :: e.id) :: (var s := Sum(QtyOf(id), es); if s < 0 then 0 else s)
  }

  function AddQuantity(q: Quantities, e: Entry): Quantities {
    q[e.id := (if e.id in q then q[e.id] else 0) + e.qty]
  }

  lemma {:induction false} TotalsStep(es: seq<Entry>, e: Entry)
    ensures Totals(es + [e]) == AddQuantity(Totals(es), e)
  {
    var before, after := Totals(es), Totals(es + [e]);
    forall id
      ensures (id in after <==> id in before || id == e.id)
      ensures id in after ==> after[id] == AddQuantity(before, e)[id]
    {
      SumPush(QtyOf(id), es, e);
      SumNonNegative(QtyOf(id), es);
      if id !in before { SumZero(QtyOf(id), es); }
    }
  }

  method CollectQuantities(ids: seq<int>, quantities: seq<int>) returns (qtyById: Quantities)
    ensures qtyById == Totals(Entries(ids, quantities))
  {
    ghost var es := Entries(ids, quantities);
    qtyById := map[];
    for i := 0 to |ids|
      invariant qtyById == Totals(es[..i])
    {
      var qty := if i < |quantities| && quantities[i] > 1 then quantities[i] else 1;
      assert es[i] == Entry(ids[i], qty);
      assert es[..i + 1] == es[..i] + [es[i]] && Totals(es[..i + 1]) == AddQuantity(Totals(es[..i]), es[i]) by {
        assert es[..i + 1] == es[..i] + [es[i]];
        TotalsStep(es[..i], es[i]);
      }
      qtyById := AddQuantity(qtyById, Entry(ids[i], qty));
    }
    assert es[..|ids|] == es;
  }

  /** rows lists the categories, as the database returns them to each breadth-first query. */
  method CheckBuild(c: Catalog, rows: seq<int>, rules: seq<Rule>, ids: seq<int>, quantities: seq<int>)
    returns (compatible: bool, issues: seq<Issue>)
    requires Enumerates(rows, c.categories)
    ensures issues == Issues(c, Totals(Entries(ids, quantities)), rules)
    ensures compatible <==> Compatible(issues)
  {
    if |ids| == 0 {
      NoPartsNoIssues(c, rules);
      assert Entries(ids, quantities) == [] && Totals([]) == map[];
      return true, [];
    }
    var q := CollectQuantities(ids, quantities);
    var variants := Present(c, q, c.order);
    var subtree: map<int, set<int>> := map[];
    for n := 0 to |rules|
      invariant forall k :: 0 <= k < n ==>
                  rules[k].source in subtree && (rules[k].dest.Some? ==> rules[k].dest.value in subtree)
      invariant forall root, d :: root in subtree ==> (d in subtree[root] <==> Above(c.categories, root, d))
    {
      if rules[n].source !in subtree {
        var s := ResolveDescendantIds(c.categories, rows, rules[n].source);
        subtree := subtree[rules[n].source := s];
      }
      if rules[n].dest.Some? && rules[n].dest.value !in subtree {
        var s := ResolveDescendantIds(c.categories, rows, rules[n].dest.value);
        subtree := subtree[rules[n].dest.value := s];
      }
    }
    issues := [];
    for n := 0 to |rules|
      invariant issues == Issues(c, q, rules[..n])
    {
      var r := rules[n];
      var ruleIssues := CheckRule(c, q, r, variants, subtree);
      issues := issues + ruleIssues;
      assert rules[..n + 1][..n] == rules[..n];
    }
    assert rules[..|rules|] == rules;
    compatible := forall k :: 0 <= k < |issues| ==> !issues[k].rule.mandatory;
  }

  method CheckRule(c: Catalog, q: Quantities, r: Rule, variants: seq<int>, subtree: map<int, set<int>>)
    returns (issues: seq<Issue>)
    requires variants == Present(c, q, c.order)
    requires r.source in subtree && (r.dest.Some? ==> r.dest.value in subtree)
    requires forall root, d :: root in subtree ==> (d in subtree[root] <==> Above(c.categories, root, d))
    ensures issues == RuleIssues(c, q, r)
  {
    var sources := FilterByCategory(c, variants, r.source, subtree[r.source]);
    if |sources| == 0 { return []; }
    var dests := [];
    if r.dest.Some? { dests := FilterByCategory(c, variants, r.dest.value, subtree[r.dest.value]); }
    if r.dest.Some? && |dests| == 0 { return []; }
    issues := CheckSources(c, q, r, dests, sources);
  }

  method CheckSources(c: Catalog, q: Quantities, r: Rule, dests: seq<int>, sources: seq<int>)
    returns (issues: seq<Issue>)
    ensures issues == IssuesFrom(c, q, r, dests, sources)
  {
    issues := [];
    for n := 0 to |sources|
      invariant issues == IssuesFrom(c, q, r, dests, sources[..n])
    {
      assert sources[..n + 1][..n] == sources[..n];
      var src := SpecOf(c, sources[n], r.sourceKey);
      if src.token == "" { continue; }
      var failed := EvaluateRule(c, q, r, src, dests);
      if failed.Some? { issues := issues + [Issue(r, sources[n], failed.value)]; }
    }
    assert sources[..|sources|] == sources;
  }

  lemma {:induction false} NoPartsNoIssues(c: Catalog, rules: seq<Rule>)
    ensures Issues(c, map[], rules) == []
  {
    if rules != [] {
      NoPartsNoIssues(c, rules[..|rules| - 1]);
      var r := rules[|rules| - 1];
      assert Sources(c, map[], r) == [] by { NothingPresent(c, c.order); }
    }
  }

  lemma {:induction false} NothingPresent(c: Catalog, order: seq<int>)
    ensures Present(c, map[], order) == []
  {
    if order != [] { NothingPresent(c, order[..|order| - 1]); }
  }

  // -- Adding parts never repairs a build -------------------------------------

  /** An issue for (rule, part) is raised: the part fills the source slot with a value, the target
      slot is filled if the rule has one, and the rule fails. */
  ghost predicate Raised(c: Catalog, q: Quantities, r: Rule, v: int) {
    && v in Sources(c, q, r)
    && (r.dest.Some? ==> Dests(c, q, r) != [])
    && SpecOf(c, v, r.sourceKey).token != ""
    && Verdict(c, q, r, SpecOf(c, v, r.sourceKey), Dests(c, q, r)).Some?
  }

  lemma {:induction false} IssuesFromMembers(c: Catalog, q: Quantities, r: Rule, ds: seq<int>, sources: seq<int>,
                                             i: Issue)
    ensures i in IssuesFrom(c, q, r, ds, sources) <==>
            && i.rule == r && i.source in sources && SpecOf(c, i.source, r.sourceKey).token != ""
            && Verdict(c, q, r, SpecOf(c, i.source, r.sourceKey), ds) == Some(i.against)
  {
    if sources != [] {
      var init, last := sources[..|sources| - 1], sources[|sources| - 1];
      assert sources == init + [last];
      IssuesFromMembers(c, q, r, ds, init, i);
    }
  }

  lemma {:induction false} IssuesMembers(c: Catalog, q: Quantities, rules: seq<Rule>, r: Rule, v: int)
    ensures (exists i :: i in Issues(c, q, rules) && i.rule == r && i.source == v) <==> r in rules && Raised(c, q, r, v)
  {
    if rules != [] {
      var init, last := rules[..|rules| - 1], rules[|rules| - 1];
      assert rules == init + [last];
      IssuesMembers(c, q, init, r, v);
      var ds, sources := Dests(c, q, last), Sources(c, q, last);
      if i :| i in RuleIssues(c, q, last) && i.rule == r && i.source == v {
        IssuesFromMembers(c, q, last, ds, sources, i);
      }
      if r == last && Raised(c, q, r, v) {
        var i := Issue(r, v, Verdict(c, q, r, SpecOf(c, v, r.sourceKey), ds).value);
        IssuesFromMembers(c, q, last, ds, sources, i);
        assert i in Issues(c, q, rules);
      }
      if r in init && Raised(c, q, r, v) {
        var i :| i in Issues(c, q, init) && i.rule == r && i.source == v;
        assert i in Issues(c, q, rules);
      }
    }
  }

  /** q' has every part of q, in at least the same quantity. */
  ghost predicate Extends(q: Quantities, q': Quantities) {
    forall v :: v in q ==> v in q' && q[v] <= q'[v]
  }

  ghost predicate NonNegative(c: Catalog, r: Rule) {
    r.coefficient >= 0.0 && forall v :: SpecOf(c, v, r.destKey).num.Some? ==> SpecOf(c, v, r.destKey).num.value >= 0.0
  }

  /** Demand summed over a slot grows with the build: both slots are cut from the same listing. */
  lemma {:induction false} DemandGrows(c: Catalog, q: Quantities, q': Quantities, r: Rule, root: int, order: seq<int>)
    requires Extends(q, q') && NonNegative(c, r)
    ensures TotalDemand(c, q, r, Fill(c, Present(c, q, order), root))
         <= TotalDemand(c, q', r, Fill(c, Present(c, q', order), root))
  {
    if order != [] {
      var init, v := order[..|order| - 1], order[|order| - 1];
      DemandGrows(c, q, q', r, root, init);
      DemandOfNext(c, q, r, root, init, v);
      DemandOfNext(c, q', r, root, init, v);
      assert init + [v] == order;
      OneDemandGrows(c, q, q', r, v);
    }
  }

  lemma {:induction false} OneDemandGrows(c: Catalog, q: Quantities, q': Quantities, r: Rule, v: int)
    requires Extends(q, q') && NonNegative(c, r)
    ensures Demand(c, q', r, v) >= 0.0
    ensures v in q ==> Demand(c, q, r, v) <= Demand(c, q', r, v)
  {}

  lemma {:induction false} DemandOfNext(c: Catalog, q: Quantities, r: Rule, root: int, init: seq<int>, v: int)
    ensures TotalDemand(c, q, r, Fill(c, Present(c, q, init + [v]), root))
         == TotalDemand(c, q, r, Fill(c, Present(c, q, init), root))
            + if v in q && InSlot(c, v, root) then Demand(c, q, r, v) else 0.0
  {
    assert (init + [v])[..|init|] == init;
    var p := Present(c, q, init);
    if v in q && v in c.category {
      assert Present(c, q, init + [v]) == p + [v] && (p + [v])[..|p|] == p;
      var f := Fill(c, p, root);
      if InSlot(c, v, root) { assert Fill(c, p + [v], root) == f + [v] && (f + [v])[..|f|] == f; }
      else { assert Fill(c, p + [v], root) == f; }
    } else {
      assert Present(c, q, init + [v]) == p;
    }
  }

  lemma {:induction false} ClashIsFailure(c: Catalog, q: Quantities, r: Rule, src: Spec, ds: seq<int>)
    requires r.check != MinSum && ds != []
    ensures Verdict(c, q, r, src, ds).Some? <==> exists d :: d in ds && Clashes(c, r, src, d)
  {
    if d :| d in ds && Clashes(c, r, src, d) {
      var n :| 0 <= n < |ds| && ds[n] == d;
      var k := FirstClash(c, r, src, ds, n);
    }
  }

  lemma {:induction false} ShortageGrows(c: Catalog, q: Quantities, q': Quantities, r: Rule, src: Spec)
    requires Extends(q, q') && NonNegative(c, r) && r.check == MinSum
    requires Verdict(c, q, r, src, Dests(c, q, r)).Some?
    ensures Verdict(c, q', r, src, Dests(c, q', r)).Some?
  {
    var d, d' := TotalDemand(c, q, r, Dests(c, q, r)), TotalDemand(c, q', r, Dests(c, q', r));
    if r.dest.Some? { DemandGrows(c, q, q', r, r.dest.value, c.order); }
    CoversLess(src, d, d', Coefficient(r));
  }

  lemma {:induction false} CoversLess(src: Spec, d: real, d': real, k: real)
    requires d <= d' && k >= 0.0
    ensures Covers(src, d', k) ==> Covers(src, d, k)
  {}

  lemma {:induction false} SlotGrows(c: Catalog, q: Quantities, q': Quantities, root: int)
    requires Extends(q, q')
    ensures forall v :: v in Fill(c, Present(c, q, c.order), root) ==> v in Fill(c, Present(c, q', c.order), root)
  {}

  /** An issue raised for a build is raised for every build that contains it. */
  lemma {:induction false} IncompatibilityIsMonotone(c: Catalog, q: Quantities, q': Quantities, r: Rule, v: int)
    requires Extends(q, q') && (r.check == MinSum ==> NonNegative(c, r))
    requires Raised(c, q, r, v)
    ensures Raised(c, q', r, v)
  {
    var src := SpecOf(c, v, r.sourceKey);
    var ds, ds' := Dests(c, q, r), Dests(c, q', r);
    SlotGrows(c, q, q', r.source);
    if r.dest.Some? {
      SlotGrows(c, q, q', r.dest.value);
      var d := ds[0];
      assert d in ds && d in ds';
    }
    if r.check == MinSum {
      ShortageGrows(c, q, q', r, src);
    } else if ds != [] {
      ClashIsFailure(c, q, r, src, ds);
      ClashIsFailure(c, q', r, src, ds');
    }
  }

  /** So no part, and no larger quantity, makes an incompatible build compatible. */
  lemma {:induction false} AddingPartsNeverRepairs(c: Catalog, q: Quantities, q': Quantities, rules: seq<Rule>)
    requires Extends(q, q') && forall r :: r in rules && r.check == MinSum ==> NonNegative(c, r)
    requires !Compatible(Issues(c, q, rules))
    ensures !Compatible(Issues(c, q', rules))
  {
    var i :| i in Issues(c, q, rules) && i.rule.mandatory;
    IssuesMembers(c, q, rules, i.rule, i.source);
    IncompatibilityIsMonotone(c, q, q', i.rule, i.source);
    IssuesMembers(c, q', rules, i.rule, i.source);
  }

  // -- Only totals matter -----------------------------------------------------

  /** Requests with the same total per variant get the same issues. */
  lemma {:induction false} OnlyTotalsMatter(c: Catalog, rules: seq<Rule>, es: seq<Entry>, es': seq<Entry>)
    requires forall e :: e in es || e in es' ==> e.qty >= 1
    requires forall id :: Sum(QtyOf(id), es) == Sum(QtyOf(id), es')
    ensures Totals(es) == Totals(es')
    ensures Issues(c, Totals(es), rules) == Issues(c, Totals(es'), rules)
  {
    forall id ensures id in Totals(es) <==> id in Totals(es') {
      MentionedIffPositive(es, id);
      MentionedIffPositive(es', id);
    }
  }

  lemma {:induction false} MentionedIffPositive(es: seq<Entry>, id: int)
    requires forall e :: e in es ==> e.qty >= 1
    ensures id in Totals(es) <==> Sum(QtyOf(id), es) > 0
  {
    if id in Totals(es) {
      var k :| 0 <= k < |es| && es[k].id == id;
      SumWithout(QtyOf(id), es, k);
      SumNonNegative(QtyOf(id), es[..k] + es[k + 1..]);
    } else {
      SumZero(QtyOf(id), es);
    }
  }

  /** In particular reordering a request, or merging two entries for one variant, changes nothing. */
  lemma {:induction false} ReorderingAndMergingKeepIssues(c: Catalog, rules: seq<Rule>, es: seq<Entry>, es': seq<Entry>,
                                                          id: int, x: nat, y: nat)
    requires x >= 1 && y >= 1 && forall e :: e in es ==> e.qty >= 1
    requires multiset(es') == multiset(es)
    ensures Issues(c, Totals(es'), rules) == Issues(c, Totals(es), rules)
    ensures Issues(c, Totals(es + [Entry(id, x), Entry(id, y)]), rules)
            == Issues(c, Totals(es + [Entry(id, x + y)]), rules)
  {
    forall e | e in es' ensures e.qty >= 1 { assert e in multiset(es'); }
    forall k ensures Sum(QtyOf(k), es') == Sum(QtyOf(k), es) { SumPermutes(QtyOf(k), es', es); }
    OnlyTotalsMatter(c, rules, es', es);
    var a, b := es + [Entry(id, x), Entry(id, y)], es + [Entry(id, x + y)];
    forall k ensures Sum(QtyOf(k), a) == Sum(QtyOf(k), b) {
      assert a == (es + [Entry(id, x)]) + [Entry(id, y)];
      SumPush(QtyOf(k), es + [Entry(id, x)], Entry(id, y));
      SumPush(QtyOf(k), es, Entry(id, x));
      SumPush(QtyOf(k), es, Entry(id, x + y));
    }
    OnlyTotalsMatter(c, rules, a, b);
  }
}
