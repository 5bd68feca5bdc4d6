/** Membership tiers: a partial partition of the balance line, kept by the overlap check. */
module Tiers {
  import opened Wrappers
  import opened Sums

  /** Database INT columns with a validated minimum of 0. */
  type Points = x: int | 0 <= x < 0x8000_0000

  /** Number.MAX_SAFE_INTEGER stands for "no upper bound" in the overlap check. */
  const INF := 9007199254740991

  /** The display name as the uniqueness check compares it, trimmed and lower-cased, and the slug derived from it. */
  datatype Name = Name(display: string, slug: string)
  datatype Tier = Tier(id: int, name: Name, minPoints: Points, maxPoints: Option<Points>)
  datatype UpdateDto = UpdateDto(name: Option<Name>, minPoints: Option<Points>, maxPoints: Option<Option<Points>>)
  datatype Error = NotFound | NameTaken | SecondUnlimited | RangeOverlaps | EmptyRange | SlugTaken | TierInUse

  function EffectiveMax(t: Tier): int {
    if t.maxPoints.Some? then t.maxPoints.value else INF
  }

  predicate Overlaps(a: Tier, b: Tier) {
    a.minPoints <= EffectiveMax(b) && b.minPoints <= EffectiveMax(a)
  }

  predicate Contains(t: Tier, balance: int) {
    t.minPoints <= balance && (t.maxPoints.Some? ==> balance <= t.maxPoints.value)
  }

  predicate EmptyTier(t: Tier) {
    t.maxPoints.Some? && t.minPoints >= t.maxPoints.value
  }

  // -- The checks -------------------------------------------------------------

  predicate NameClash(tiers: seq<Tier>, display: string, exclude: Option<int>) {
    exists i :: 0 <= i < |tiers| && tiers[i].name.display == display && exclude != Some(tiers[i].id)
  }

  /** The unique column refuses the row. */
  predicate SlugClash(tiers: seq<Tier>, slug: string, exclude: Option<int>) {
    exists i :: 0 <= i < |tiers| && tiers[i].name.slug == slug && exclude != Some(tiers[i].id)
  }

  predicate UnlimitedClash(tiers: seq<Tier>, t: Tier, exclude: Option<int>) {
    t.maxPoints.None? && exists i :: 0 <= i < |tiers| && tiers[i].maxPoints.None? && exclude != Some(tiers[i].id)
  }

  predicate OverlapClash(tiers: seq<Tier>, t: Tier, exclude: Option<int>) {
    exists i :: 0 <= i < |tiers| && exclude != Some(tiers[i].id) && Overlaps(t, tiers[i])
  }

  method ValidateOverlap(tiers: seq<Tier>, t: Tier, exclude: Option<int>) returns (e: Option<Error>)
    ensures e == if UnlimitedClash(tiers, t, exclude) then Some(SecondUnlimited)
                 else if OverlapClash(tiers, t, exclude) then Some(RangeOverlaps) else None
  {
    if UnlimitedClash(tiers, t, exclude) { return Some(SecondUnlimited); }
    for n := 0 to |tiers|
      invariant !OverlapClash(tiers[..n], t, exclude)
      invariant forall i :: 0 <= i < n ==> !(exclude != Some(tiers[i].id) && Overlaps(t, tiers[i]))
    {
      if exclude == Some(tiers[n].id) { continue; }
      var eMax := if tiers[n].maxPoints.Some? then tiers[n].maxPoints.value else INF;
      var effectiveMax := if t.maxPoints.Some? then t.maxPoints.value else INF;
      if t.minPoints <= eMax && tiers[n].minPoints <= effectiveMax { return Some(RangeOverlaps); }
    }
    return None;
  }

  /** The service's four checks in the order it makes them, and then the database's. */
  function Refusal(tiers: seq<Tier>, t: Tier, exclude: Option<int>, checkName: bool): Option<Error> {
    if checkName && NameClash(tiers, t.name.display, exclude) then Some(NameTaken)
    else if UnlimitedClash(tiers, t, exclude) then Some(SecondUnlimited)
    else if OverlapClash(tiers, t, exclude) then Some(RangeOverlaps)
    else if EmptyTier(t) then Some(EmptyRange)
    else if SlugClash(tiers, t.name.slug, exclude) then Some(SlugTaken)
    else None
  }

  function IndexOf(tiers: seq<Tier>, id: int): (k: nat)
    ensures k <= |tiers|
    ensures k < |tiers| ==> tiers[k].id == id
    ensures forall i :: 0 <= i < k ==> tiers[i].id != id
  {
    if tiers == [] || tiers[0].id == id then 0 else 1 + IndexOf(tiers[1..], id)
  }

  function Changed(t: Tier, dto: UpdateDto): Tier {
    Tier(t.id,
         if dto.name.Some? then dto.name.value else t.name,
         if dto.minPoints.Some? then dto.minPoints.value else t.minPoints,
         if dto.maxPoints.Some? then dto.maxPoints.value else t.maxPoints)
  }

  function InTier(t: Tier): int -> int { (b: int) => if Contains(t, b) then 1 else 0 }

  /** COUNT(*) of the customers whose balance lies in the tier. */
  function CustomerCount(t: Tier, balances: seq<int>): int {
    Sum(InTier(t), balances)
  }

  // -- What each call does ----------------------------------------------------

  datatype Op =
    | CreateOp(tier: Tier)
    | UpdateOp(id: int, dto: UpdateDto)
    | RemoveOp(id: int, balances: seq<int>)

  function Outcome(tiers: seq<Tier>, op: Op): Result<seq<Tier>, Error> {
    match op
    case CreateOp(t) =>
      var refusal := Refusal(tiers, t, None, true);
      if refusal.Some? then Err(refusal.value) else Ok(tiers + [t])
    case UpdateOp(id, dto) =>
      var k := IndexOf(tiers, id);
      if k == |tiers| then Err(NotFound)
      else
        var t := Changed(tiers[k], dto);
        var refusal := Refusal(tiers, t, Some(id), t.name.display != tiers[k].name.display);
        if refusal.Some? then Err(refusal.value) else Ok(tiers[k := t])
    case RemoveOp(id, balances) =>
      var k := IndexOf(tiers, id);
      if k == |tiers| then Err(NotFound)
      else if CustomerCount(tiers[k], balances) > 0 then Err(TierInUse)
      else Ok(tiers[..k] + tiers[k + 1..])
  }

  class MembershipTierService {
    var tiers: seq<Tier>

    constructor ()
      ensures tiers == [] && Valid(tiers)
    {
      tiers := [];
    }

    method Create(t: Tier) returns (r: Result<(), Error>)
      modifies this
      ensures match Outcome(old(tiers), CreateOp(t))
              case Ok(ts) => r.Ok? && tiers == ts
              case Err(e) => r == Err(e) && tiers == old(tiers)
    {
      if NameClash(tiers, t.name.display, None) { return Err(NameTaken); }
      var overlap := ValidateOverlap(tiers, t, None);
      if overlap.Some? { return Err(overlap.value); }
      if t.maxPoints.Some? && t.minPoints >= t.maxPoints.value { return Err(EmptyRange); }
      if SlugClash(tiers, t.name.slug, None) { return Err(SlugTaken); }
      tiers := tiers + [t];
      return Ok(());
    }

    method Update(id: int, dto: UpdateDto) returns (r: Result<(), Error>)
      modifies this
      ensures match Outcome(old(tiers), UpdateOp(id, dto))
              case Ok(ts) => r.Ok? && tiers == ts
              case Err(e) => r == Err(e) && tiers == old(tiers)
    {
      var k := IndexOf(tiers, id);
      if k == |tiers| { return Err(NotFound); }
      var tier := tiers[k];
      var name := if dto.name.Some? then dto.name.value else tier.name;
      var minPoints := if dto.minPoints.Some? then dto.minPoints.value else tier.minPoints;
      var maxPoints := if dto.maxPoints.Some? then dto.maxPoints.value else tier.maxPoints;
      if dto.name.Some? && name.display != tier.name.display {
        if NameClash(tiers, name.display, Some(id)) { return Err(NameTaken); }
      }
      var next := Tier(tier.id, name, minPoints, maxPoints);
      var overlap := ValidateOverlap(tiers, next, Some(id));
      if overlap.Some? { return Err(overlap.value); }
      if maxPoints.Some? && minPoints >= maxPoints.value { return Err(EmptyRange); }
      if SlugClash(tiers, name.slug, Some(id)) { return Err(SlugTaken); }
      tiers := tiers[k := next];
      return Ok(());
    }

    method Remove(id: int, balances: seq<int>) returns (r: Result<(), Error>)
      modifies this
      ensures match Outcome(old(tiers), RemoveOp(id, balances))
              case Ok(ts) => r.Ok? && tiers == ts
              case Err(e) => r == Err(e) && tiers == old(tiers)
    {
      var k := IndexOf(tiers, id);
      if k == |tiers| { return Err(NotFound); }
      var found := [tiers[k]];
      var counts := FetchCustomerCounts(found, balances);
      assert found[0] in found && found[0].id == id;
      if counts[id] > 0 { return Err(TierInUse); }
      tiers := tiers[..k] + tiers[k + 1..];
      return Ok(());
    }
  }

  /** One count per tier found. */
  method FetchCustomerCounts(found: seq<Tier>, balances: seq<int>) returns (counts: map<int, int>)
    requires forall i, j :: 0 <= i < j < |found| ==> found[i].id != found[j].id
    ensures forall id :: id in counts <==> exists i :: 0 <= i < |found| && found[i].id == id
    ensures forall t :: t in found ==> counts[t.id] == CustomerCount(t, balances)
  {
    counts := map[];
    for n := 0 to |found|
      invariant forall id :: id in counts <==> exists i :: 0 <= i < n && found[i].id == id
      invariant forall i :: 0 <= i < n ==> counts[found[i].id] == CustomerCount(found[i], balances)
    {
      counts := counts[found[n].id := CustomerCount(found[n], balances)];
    }
  }

  // -- The partition ----------------------------------------------------------

  ghost predicate Share(a: Tier, b: Tier) {
    exists balance :: Contains(a, balance) && Contains(b, balance)
  }

  /** Ids, names and slugs are unique, every range has at least two points, and no balance lies in two tiers. */
  ghost predicate Valid(tiers: seq<Tier>) {
    && (forall i :: 0 <= i < |tiers| ==> !EmptyTier(tiers[i]))
    && (forall i, j :: 0 <= i < j < |tiers| ==> Apart(tiers[i], tiers[j]))
  }

  ghost predicate Apart(a: Tier, b: Tier) {
    a.id != b.id && a.name.display != b.name.display && a.name.slug != b.name.slug && !Share(a, b)
  }

  /** The interval test of the overlap check is exact. */
  lemma {:induction false} OverlapIsSharing(a: Tier, b: Tier)
    requires !EmptyTier(a) && !EmptyTier(b)
    ensures Overlaps(a, b) <==> Share(a, b)
    ensures Share(a, b) <==> Share(b, a)
  {
    var m := if a.minPoints < b.minPoints then b.minPoints else a.minPoints;
    if Overlaps(a, b) { assert Contains(a, m) && Contains(b, m); }
    if Share(a, b) {
      var x :| Contains(a, x) && Contains(b, x);
      assert Contains(a, m) && Contains(b, m);
    }
  }

  lemma {:induction false} UnlimitedShare(a: Tier, b: Tier)
    ensures a.maxPoints.None? && b.maxPoints.None? ==> Overlaps(a, b) && Share(a, b)
  {
    var m := if a.minPoints < b.minPoints then b.minPoints else a.minPoints;
    if a.maxPoints.None? && b.maxPoints.None? { assert Contains(a, m) && Contains(b, m); }
  }

  /** Two unlimited tiers always overlap, so at most one is unlimited. */
  lemma {:induction false} AtMostOneUnlimited(tiers: seq<Tier>)
    requires Valid(tiers)
    ensures forall i, j :: 0 <= i < j < |tiers| ==> tiers[i].maxPoints.Some? || tiers[j].maxPoints.Some?
  {
    forall i, j | 0 <= i < j < |tiers| ensures tiers[i].maxPoints.Some? || tiers[j].maxPoints.Some? {
      assert Apart(tiers[i], tiers[j]);
      UnlimitedShare(tiers[i], tiers[j]);
    }
  }

  lemma {:induction false} NotRefusedIsApart(tiers: seq<Tier>, t: Tier, exclude: Option<int>, i: nat)
    requires i < |tiers| && exclude != Some(tiers[i].id) && !EmptyTier(tiers[i])
    requires !OverlapClash(tiers, t, exclude) && !EmptyTier(t)
    ensures !Share(t, tiers[i]) && !Share(tiers[i], t)
  {}

  /** A new tier is accepted exactly when the enlarged set of tiers is valid. */
  lemma {:induction false} CreateAcceptedIffValid(tiers: seq<Tier>, t: Tier)
    requires Valid(tiers) && forall i :: 0 <= i < |tiers| ==> tiers[i].id != t.id
    ensures Outcome(tiers, CreateOp(t)).Ok? <==> Valid(tiers + [t])
  {
    var more := tiers + [t];
    if Outcome(tiers, CreateOp(t)).Ok? {
      forall i, j | 0 <= i < j < |more| ensures Apart(more[i], more[j]) {
        if j == |tiers| { NotRefusedIsApart(tiers, t, None, i); } else { assert Apart(tiers[i], tiers[j]); }
      }
    }
    if Valid(more) {
      assert !EmptyTier(more[|tiers|]);
      forall i | 0 <= i < |tiers|
        ensures tiers[i].name.display != t.name.display && tiers[i].name.slug != t.name.slug
        ensures !Overlaps(t, tiers[i]) && (t.maxPoints.Some? || tiers[i].maxPoints.Some?)
      {
        assert Apart(more[i], more[|tiers|]);
        OverlapIsSharing(t, tiers[i]);
        UnlimitedShare(t, tiers[i]);
      }
    }
  }

  /** An update is accepted exactly when the changed set of tiers is valid. */
  lemma {:induction false} UpdateAcceptedIffValid(tiers: seq<Tier>, id: int, dto: UpdateDto)
    requires Valid(tiers) && IndexOf(tiers, id) < |tiers|
    ensures var k := IndexOf(tiers, id);
            Outcome(tiers, UpdateOp(id, dto)).Ok? <==> Valid(tiers[k := Changed(tiers[k], dto)])
  {
    var k := IndexOf(tiers, id);
    var t := Changed(tiers[k], dto);
    var next := tiers[k := t];
    OthersHaveOtherIds(tiers, k);
    if Outcome(tiers, UpdateOp(id, dto)).Ok? {
      forall i, j | 0 <= i < j < |next| ensures Apart(next[i], next[j]) {
        assert Apart(tiers[i], tiers[j]);
        if j == k { NotRefusedIsApart(tiers, t, Some(id), i); }
        if i == k { NotRefusedIsApart(tiers, t, Some(id), j); }
      }
    }
    if Valid(next) {
      assert !EmptyTier(next[k]);
      forall i | 0 <= i < |tiers| && i != k
        ensures tiers[i].name.display != t.name.display && tiers[i].name.slug != t.name.slug
        ensures !Overlaps(t, tiers[i]) && (t.maxPoints.Some? || tiers[i].maxPoints.Some?)
      {
        assert if i < k then Apart(next[i], next[k]) else Apart(next[k], next[i]);
        OverlapIsSharing(t, tiers[i]);
        UnlimitedShare(t, tiers[i]);
      }
    }
  }

  lemma {:induction false} OthersHaveOtherIds(tiers: seq<Tier>, k: nat)
    requires Valid(tiers) && k < |tiers|
    ensures forall i :: 0 <= i < |tiers| && i != k ==> tiers[i].id != tiers[k].id
  {}

  lemma {:induction false} RemoveKeepsValid(tiers: seq<Tier>, k: nat)
    requires Valid(tiers) && k < |tiers|
    ensures Valid(tiers[..k] + tiers[k + 1..])
  {}

  /** A rejected call changes nothing. */
  function Step(tiers: seq<Tier>, op: Op): seq<Tier> {
    match Outcome(tiers, op) case Ok(ts) => ts case Err(_) => tiers
  }

  function Run(tiers: seq<Tier>, ops: seq<Op>): seq<Tier>
    decreases |ops|
  {
    if ops == [] then tiers else Run(Step(tiers, ops[0]), ops[1..])
  }

  /** The database assigns every new tier an unused id. */
  predicate FreshRun(tiers: seq<Tier>, ops: seq<Op>)
    decreases |ops|
  {
    ops == [] ||
    ((ops[0].CreateOp? ==> IndexOf(tiers, ops[0].tier.id) == |tiers|) && FreshRun(Step(tiers, ops[0]), ops[1..]))
  }

  /** Over every run, whatever happens to the balances in between, the tiers stay a partition. */
  lemma {:induction false} RunsKeepPartition(tiers: seq<Tier>, ops: seq<Op>)
    requires Valid(tiers) && FreshRun(tiers, ops)
    ensures Valid(Run(tiers, ops))
    decreases |ops|
  {
    if ops != [] {
      match ops[0] {
        case CreateOp(t) => CreateAcceptedIffValid(tiers, t);
        case UpdateOp(id, dto) => if IndexOf(tiers, id) < |tiers| { UpdateAcceptedIffValid(tiers, id, dto); }
        case RemoveOp(id, _) => if IndexOf(tiers, id) < |tiers| { RemoveKeepsValid(tiers, IndexOf(tiers, id)); }
      }
      RunsKeepPartition(Step(tiers, ops[0]), ops[1..]);
    }
  }

  // -- What customers see -----------------------------------------------------

  /** A balance lies in at most one tier, and a larger balance never in a lower one. */
  lemma {:induction false} LargerBalanceNeverLowerTier(tiers: seq<Tier>, i: nat, j: nat, b: int, b': int)
    requires Valid(tiers) && i < |tiers| && j < |tiers|
    requires Contains(tiers[i], b) && Contains(tiers[j], b') && b <= b'
    ensures b == b' ==> i == j
    ensures i == j || tiers[i].minPoints < tiers[j].minPoints
  {}

  predicate InAny(tiers: seq<Tier>, b: int) {
    exists i :: 0 <= i < |tiers| && Contains(tiers[i], b)
  }

  function Placed(tiers: seq<Tier>): int -> int { (b: int) => if InAny(tiers, b) then 1 else 0 }

  function CountIn(balances: seq<int>): Tier -> int { (t: Tier) => CustomerCount(t, balances) }

  lemma {:induction false} InAnySplit(tiers: seq<Tier>, b: int)
    requires tiers != []
    ensures InAny(tiers, b) <==> InAny(tiers[..|tiers| - 1], b) || Contains(tiers[|tiers| - 1], b)
  {}

  lemma {:induction false} CountsAddUp(tiers: seq<Tier>, balances: seq<int>)
    requires Valid(tiers)
    ensures Sum(CountIn(balances), tiers) == Sum(Placed(tiers), balances)
  {
    if tiers == [] {
      SumZero(Placed(tiers), balances);
    } else {
      var init, last := tiers[..|tiers| - 1], tiers[|tiers| - 1];
      CountsAddUp(init, balances);
      forall b | b in balances ensures Placed(tiers)(b) == Placed(init)(b) + InTier(last)(b) {
        InAnySplit(tiers, b);
        if InAny(init, b) {
          var i :| 0 <= i < |init| && Contains(init[i], b);
          assert Contains(tiers[i], b) && Apart(tiers[i], tiers[|tiers| - 1]);
        }
      }
      SumOfPair(Placed(init), InTier(last), Placed(tiers), balances);
    }
  }

  /** The customer counts over all tiers count nobody twice. */
  lemma {:induction false} CountsNeverExceedCustomers(tiers: seq<Tier>, balances: seq<int>)
    requires Valid(tiers)
    ensures Sum(CountIn(balances), tiers) <= |balances|
  {
    CountsAddUp(tiers, balances);
    AtMostOnePerBalance(Placed(tiers), balances);
  }

  lemma {:induction false} AtMostOnePerBalance(f: int -> int, balances: seq<int>)
    requires forall b :: b in balances ==> f(b) <= 1
    ensures Sum(f, balances) <= |balances|
  {
    if balances != [] {
      var last := balances[|balances| - 1];
      assert last in balances && f(last) <= 1;
      AtMostOnePerBalance(f, balances[..|balances| - 1]);
    }
  }

  /** Removing a tier takes no customer out of a tier. */
  lemma {:induction false} RemovalMovesNobody(tiers: seq<Tier>, id: int, balances: seq<int>)
    requires Valid(tiers) && Outcome(tiers, RemoveOp(id, balances)).Ok?
    ensures var left := Outcome(tiers, RemoveOp(id, balances)).value;
            forall b, t :: b in balances && t in tiers && Contains(t, b) ==> t in left
  {
    var k := IndexOf(tiers, id);
    var rest := tiers[..k] + tiers[k + 1..];
    forall b, t | b in balances && t in tiers && Contains(t, b) ensures t in rest {
      var i :| 0 <= i < |tiers| && tiers[i] == t;
      if i == k {
        var n :| 0 <= n < |balances| && balances[n] == b;
        SumWithout(InTier(t), balances, n);
        SumNonNegative(InTier(t), balances[..n] + balances[n + 1..]);
      }
      assert i < k ==> rest[i] == t;
      assert i > k ==> rest[i - 1] == t;
    }
  }

  // -- What is stored ---------------------------------------------------------

  /** A tier holds its bounds and what lies between, and without an upper bound everything above. */
  lemma {:induction false} TierHolds(t: Tier, balance: int)
    ensures Contains(t, t.minPoints - 1) == false && (t.maxPoints.None? ==> Contains(t, t.minPoints))
    ensures t.maxPoints.Some? && t.minPoints <= t.maxPoints.value
            ==> Contains(t, t.minPoints) && Contains(t, t.maxPoints.value) && !Contains(t, t.maxPoints.value + 1)
    ensures Contains(t, balance) ==> forall b :: t.minPoints <= b <= balance ==> Contains(t, b)
    ensures t.maxPoints.None? ==> forall b :: t.minPoints <= b ==> Contains(t, b)
  {}

  lemma {:induction false} IdsDiffer(tiers: seq<Tier>, k: nat)
    requires k < |tiers| && forall i, j :: 0 <= i < j < |tiers| ==> tiers[i].id != tiers[j].id
    ensures IndexOf(tiers, tiers[k].id) == k
  {}

  /** A created tier is added as given; an updated one holds each field given and keeps each absent;
      all others are as they were. */
  lemma {:induction false} UpdateStores(tiers: seq<Tier>, k: nat, dto: UpdateDto)
    requires k < |tiers| && forall i, j :: 0 <= i < j < |tiers| ==> tiers[i].id != tiers[j].id
    requires Outcome(tiers, UpdateOp(tiers[k].id, dto)).Ok?
    ensures var ts := Outcome(tiers, UpdateOp(tiers[k].id, dto)).value;
            && |ts| == |tiers| && (forall i :: 0 <= i < |tiers| && i != k ==> ts[i] == tiers[i])
            && ts[k].id == tiers[k].id
            && ts[k].name == (if dto.name.Some? then dto.name.value else tiers[k].name)
            && ts[k].minPoints == (if dto.minPoints.Some? then dto.minPoints.value else tiers[k].minPoints)
            && ts[k].maxPoints == (if dto.maxPoints.Some? then dto.maxPoints.value else tiers[k].maxPoints)
  {
    IdsDiffer(tiers, k);
  }

  /** A tier is removed exactly when nobody's balance lies between its bounds. */
  lemma {:induction false} RemoveAcceptedIff(tiers: seq<Tier>, k: nat, balances: seq<int>)
    requires k < |tiers| && forall i, j :: 0 <= i < j < |tiers| ==> tiers[i].id != tiers[j].id
    ensures var r := Outcome(tiers, RemoveOp(tiers[k].id, balances));
            && (r.Ok? <==> forall b :: b in balances ==> Outside(tiers[k], b))
            && (r.Ok? ==> r.value == tiers[..k] + tiers[k + 1..])
  {
    IdsDiffer(tiers, k);
    NobodyInIff(tiers[k], balances);
  }

  /** The balance is below or above the tier. */
  predicate Outside(t: Tier, b: int) {
    b < t.minPoints || (t.maxPoints.Some? && b > t.maxPoints.value)
  }

  lemma {:induction false} NobodyInIff(t: Tier, balances: seq<int>)
    ensures CustomerCount(t, balances) >= 0
    ensures CustomerCount(t, balances) == 0 <==> forall b :: b in balances ==> Outside(t, b)
  {
    SumNonNegative(InTier(t), balances);
    if forall b :: b in balances ==> Outside(t, b) {
      SumZero(InTier(t), balances);
    } else {
      var b :| b in balances && !Outside(t, b);
      var n :| 0 <= n < |balances| && balances[n] == b;
      SumWithout(InTier(t), balances, n);
      SumNonNegative(InTier(t), balances[..n] + balances[n + 1..]);
    }
  }
}
