/** Quintile scoring of the RFM snapshot, and its segment labels. */
module Rfm {
  import opened Sums

  function AtMost(v: int): int -> int { (x: int) => if x <= v then 1 else 0 }

  /** How many of the values are at most v. */
  function CountAtMost(values: seq<int>, v: int): int {
    Sum(AtMost(v), values)
  }

  /** The share of values at most v, compared with 0.2, 0.4, 0.6 and 0.8. */
  function Quintile(values: seq<int>, v: int): int {
    var n, count := |values|, CountAtMost(values, v);
    if 5 * count <= n then 1
    else if 5 * count <= 2 * n then 2
    else if 5 * count <= 3 * n then 3
    else if 5 * count <= 4 * n then 4
    else 5
  }

  // -- The scores -------------------------------------------------------------

  /** A higher value never scores lower; equal values score equally by definition. */
  lemma {:induction false} ScoresAreMonotone(values: seq<int>, v: int, w: int)
    requires v <= w
    ensures Quintile(values, v) <= Quintile(values, w)
  {
    SumLe(AtMost(v), AtMost(w), values);
  }

  /** Sorting the values first, as the job does, changes no score. */
  lemma {:induction false} OrderDoesNotMatter(values: seq<int>, sorted: seq<int>, v: int)
    requires multiset(values) == multiset(sorted)
    ensures Quintile(values, v) == Quintile(sorted, v)
  {
    SumPermutes(AtMost(v), values, sorted);
    assert |multiset(values)| == |values| && |multiset(sorted)| == |sorted|;
  }

  function ScoredAtMost(values: seq<int>, k: int): int -> int {
    (x: int) => if Quintile(values, x) <= k then 1 else 0
  }

  /** The largest of some members of s that score at most k. */
  lemma {:induction false} LargestScored(values: seq<int>, s: seq<int>, k: int) returns (m: int)
    requires exists x :: x in s && Quintile(values, x) <= k
    ensures m in s && Quintile(values, m) <= k
    ensures forall x :: x in s && Quintile(values, x) <= k ==> x <= m
  {
    var init, last := s[..|s| - 1], s[|s| - 1];
    assert s == init + [last];
    if exists x :: x in init && Quintile(values, x) <= k {
      m := LargestScored(values, init, k);
      if Quintile(values, last) <= k && last > m { m := last; }
    } else {
      m := last;
    }
  }

  lemma {:induction false} FewBelow(values: seq<int>, m: int, k: nat)
    requires Quintile(values, m) <= k <= 5
    ensures 5 * CountAtMost(values, m) <= k * |values|
  {
    CountBounded(values, m);
    assert k in {1, 2, 3, 4, 5};
  }

  /** At most k fifths of the customers score k or less, whatever the values and however many tie. */
  lemma {:induction false} LowScoresAreFew(values: seq<int>, k: nat)
    requires k <= 5
    ensures 5 * Sum(ScoredAtMost(values, k), values) <= k * |values|
  {
    if exists x :: x in values && Quintile(values, x) <= k {
      var m := LargestScored(values, values, k);
      SumLe(ScoredAtMost(values, k), AtMost(m), values);
      FewBelow(values, m, k);
    } else {
      SumZero(ScoredAtMost(values, k), values);
    }
  }

  lemma {:induction false} CountBounded(values: seq<int>, v: int)
    ensures CountAtMost(values, v) <= |values|
  {
    if values != [] { CountBounded(values[..|values| - 1], v); }
  }

  // -- The snapshot -----------------------------------------------------------

  datatype Row = Row(recencyDays: int, frequency: int, monetary: int)
  datatype Scores = Scores(r: int, f: int, m: int)

  function Values(f: Row -> int, rows: seq<Row>): seq<int> {
    seq(|rows|, i requires 0 <= i < |rows| => f(rows[i]))
  }

  function Recency(): Row -> int { (x: Row) => x.recencyDays }
  function Frequency(): Row -> int { (x: Row) => x.frequency }
  function Monetary(): Row -> int { (x: Row) => x.monetary }

  /** Fewer days since the last purchase is better, so the recency score is turned round. */
  function Score(rows: seq<Row>, x: Row): Scores {
    Scores(6 - Quintile(Values(Recency(), rows), x.recencyDays),
           Quintile(Values(Frequency(), rows), x.frequency),
           Quintile(Values(Monetary(), rows), x.monetary))
  }

  function RAtLeast(rows: seq<Row>, k: int): Row -> int { (x: Row) => if Score(rows, x).r >= k then 1 else 0 }
  function FAtMost(rows: seq<Row>, k: int): Row -> int { (x: Row) => if Score(rows, x).f <= k then 1 else 0 }
  function MAtMost(rows: seq<Row>, k: int): Row -> int { (x: Row) => if Score(rows, x).m <= k then 1 else 0 }

  lemma {:induction false} SumOverValues(f: Row -> int, g: int -> int, h: Row -> int, rows: seq<Row>)
    requires forall x :: x in rows ==> h(x) == g(f(x))
    ensures Sum(h, rows) == Sum(g, Values(f, rows))
  {
    if rows != [] {
      var last := rows[|rows| - 1];
      assert last in rows;
      SumOverValues(f, g, h, rows[..|rows| - 1]);
      assert Values(f, rows)[..|rows| - 1] == Values(f, rows[..|rows| - 1]);
    }
  }

  /** In one snapshot, at most k fifths of the customers have a frequency score of k or less, the
      same for money, and mirrored for recency: at most k fifths score 6 - k or more. */
  lemma {:induction false} SnapshotQuintiles(rows: seq<Row>, k: nat)
    requires k <= 5
    ensures 5 * Sum(FAtMost(rows, k), rows) <= k * |rows|
    ensures 5 * Sum(MAtMost(rows, k), rows) <= k * |rows|
    ensures 5 * Sum(RAtLeast(rows, 6 - k), rows) <= k * |rows|
  {
    LowScoresAreFew(Values(Frequency(), rows), k);
    LowScoresAreFew(Values(Monetary(), rows), k);
    LowScoresAreFew(Values(Recency(), rows), k);
    SumOverValues(Frequency(), ScoredAtMost(Values(Frequency(), rows), k), FAtMost(rows, k), rows);
    SumOverValues(Monetary(), ScoredAtMost(Values(Monetary(), rows), k), MAtMost(rows, k), rows);
    SumOverValues(Recency(), ScoredAtMost(Values(Recency(), rows), k), RAtLeast(rows, 6 - k), rows);
  }

  // -- Segments ---------------------------------------------------------------

  datatype Segment = Champions | Loyal | Potential | Promising | AtRisk | Lost | New | Hibernating

  /** The first label of the table whose test holds. */
  function SegmentOf(s: Scores): Segment {
    if s.r >= 5 && s.f >= 4 && s.m >= 4 then Champions
    else if s.f >= 4 && s.m >= 3 then Loyal
    else if s.r >= 4 && s.f <= 2 then Potential
    else if s.r >= 3 && s.f <= 2 && s.m <= 2 then Promising
    else if s.r <= 2 && s.f >= 3 then AtRisk
    else if s.r == 1 && s.f >= 2 then Lost
    else if s.r >= 4 && s.f == 1 then New
    else Hibernating
  }

  predicate InRange(s: Scores) { 1 <= s.r <= 5 && 1 <= s.f <= 5 && 1 <= s.m <= 5 }

  /** The test beside a label in the table. */
  predicate Passes(name: Segment, s: Scores) {
    match name
    case Champions => s.r >= 5 && s.f >= 4 && s.m >= 4
    case Loyal => s.f >= 4 && s.m >= 3
    case Potential => s.r >= 4 && s.f <= 2
    case Promising => s.r >= 3 && s.f <= 2 && s.m <= 2
    case AtRisk => s.r <= 2 && s.f >= 3
    case Lost => s.r == 1 && s.f >= 2
    case New => s.r >= 4 && s.f == 1
    case Hibernating => true
  }

  function Place(name: Segment): nat {
    match name
    case Champions => 0 case Loyal => 1 case Potential => 2 case Promising => 3
    case AtRisk => 4 case Lost => 5 case New => 6 case Hibernating => 7
  }

  /** The label given is the first whose test the scores pass. */
  lemma {:induction false} FirstPassing(s: Scores, name: Segment)
    ensures SegmentOf(s) == name <==>
            Passes(name, s) && forall other :: Place(other) < Place(name) ==> !Passes(other, s)
  {
    assert Passes(SegmentOf(s), s);
    forall other | Place(other) < Place(SegmentOf(s)) ensures !Passes(other, s) {}
  }

  /** All scores in range that pass this label's test pass an earlier one. */
  ghost predicate Shadowed(name: Segment) {
    forall s :: InRange(s) && Passes(name, s) ==> exists other :: Place(other) < Place(name) && Passes(other, s)
  }

  /** Only New is shadowed: whoever passes its test passes that of Potential, which comes before it. */
  lemma {:induction false} ShadowedIffNew(name: Segment)
    ensures Shadowed(name) <==> name == New
    ensures forall s :: Passes(New, s) ==> Passes(Potential, s)
    ensures Place(Potential) < Place(New)
  {
    var s := match name
      case Champions => Scores(5, 4, 4) case Loyal => Scores(4, 4, 3) case Potential => Scores(4, 2, 1)
      case Promising => Scores(3, 2, 2) case AtRisk => Scores(2, 3, 1) case Lost => Scores(1, 2, 1)
      case New => Scores(4, 1, 1) case Hibernating => Scores(2, 2, 1);
    assert InRange(s) && Passes(name, s);
    if name != New {
      assert SegmentOf(s) == name;
      FirstPassing(s, name);
    } else {
      forall t | InRange(t) && Passes(New, t) ensures exists other :: Place(other) < Place(New) && Passes(other, t) {
        assert Place(Potential) < Place(New) && Passes(Potential, t);
      }
    }
  }

  // -- What a score means -----------------------------------------------------

  /** The places of the values that are at most v. */
  function PlacesUpTo(values: seq<int>, v: int): set<nat> {
    set i: nat | i < |values| && values[i] <= v
  }

  lemma {:induction false} CountIsPlaces(values: seq<int>, v: int)
    ensures CountAtMost(values, v) == |PlacesUpTo(values, v)|
  {
    if values != [] {
      var n := |values| - 1;
      var init := values[..n];
      CountIsPlaces(init, v);
      assert PlacesUpTo(values, v) == PlacesUpTo(init, v) + if values[n] <= v then {n} else {};
    }
  }

  /** A value scores from one to five, and more than k exactly when more than k fifths of the values
      are at most it. */
  lemma {:induction false} ScoreIs(values: seq<int>, v: int, k: nat)
    requires 1 <= k <= 4
    ensures 1 <= Quintile(values, v) <= 5
    ensures Quintile(values, v) > k <==> 5 * |PlacesUpTo(values, v)| > k * |values|
  {
    CountIsPlaces(values, v);
    CountBounded(values, v);
    assert k in {1, 2, 3, 4};
  }

  /** In a snapshot the longest absence scores 1 and the highest frequency and value score 5. */
  lemma {:induction false} ExtremesScore(rows: seq<Row>, x: Row)
    requires x in rows
    ensures (forall y :: y in rows ==> y.recencyDays <= x.recencyDays) ==> Score(rows, x).r == 1
    ensures (forall y :: y in rows ==> y.frequency <= x.frequency) ==> Score(rows, x).f == 5
    ensures (forall y :: y in rows ==> y.monetary <= x.monetary) ==> Score(rows, x).m == 5
  {
    if forall y :: y in rows ==> y.recencyDays <= x.recencyDays { TopScores(Values(Recency(), rows), x.recencyDays); }
    if forall y :: y in rows ==> y.frequency <= x.frequency { TopScores(Values(Frequency(), rows), x.frequency); }
    if forall y :: y in rows ==> y.monetary <= x.monetary { TopScores(Values(Monetary(), rows), x.monetary); }
  }

  lemma {:induction false} TopScores(values: seq<int>, v: int)
    requires values != [] && forall i :: 0 <= i < |values| ==> values[i] <= v
    ensures Quintile(values, v) == 5
  {
    AllCounted(values, v);
  }

  lemma {:induction false} AllCounted(values: seq<int>, v: int)
    requires forall i :: 0 <= i < |values| ==> values[i] <= v
    ensures CountAtMost(values, v) == |values|
  {
    if values != [] { AllCounted(values[..|values| - 1], v); }
  }
}
