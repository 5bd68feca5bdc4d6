/** Category create, update and remove, with the one-comparison-root-per-branch guards. */
module Categories {
  import opened Wrappers
  import opened CategoryGraph

  datatype Error = NotFound | BadRequest | SlugTaken | Conflict | ForeignKey

  /** slug is the one given, or the one derived from the name. */
  datatype CreateDto = CreateDto(parent: Option<int>, flag: bool, nodeType: NodeType, slug: string)

  /** An absent field is None; a parent explicitly set to null is Some(None). slug is the one given,
      or the one derived from a new name. */
  datatype UpdateDto = UpdateDto(parent: Option<Option<int>>, flag: Option<bool>, nodeType: Option<NodeType>,
                                 slug: Option<string>)

  predicate SlugInUse(t: Table, slug: string) {
    exists c | c in t :: t[c].slug == slug
  }

  predicate Flagged(t: Table, c: int) {
    c in t && t[c].flag
  }

  ghost predicate AncestorFlagged(t: Table, start: Option<int>) {
    start.Some? && exists a :: Flagged(t, a) && Above(t, a, start.value)
  }

  ghost predicate DescendantFlagged(t: Table, root: int) {
    exists d :: Flagged(t, d) && ProperlyAbove(t, root, d)
  }

  // -- The guards -------------------------------------------------------------

  lemma {:induction false} ChainInside(t: Table, s: set<int>, c: int, n: nat)
    requires c in s && Up(t, c, n).Some?
    requires forall v :: v in s && Parent(t, v).Some? ==> Parent(t, v).value in s
    ensures Up(t, c, n).value in s
    decreases n
  {
    if n > 0 {
      var p := Parent(t, c).value;
      ChainInside(t, s, p, n - 1);
    }
  }

  /** Ends on every table; the answer is a flagged node of the parent chain, if there is one. */
  method AssertNoFlagOnAncestors(t: Table, startParentId: Option<int>) returns (conflict: Option<int>)
    ensures conflict.Some? <==> AncestorFlagged(t, startParentId)
    ensures conflict.Some? ==> Flagged(t, conflict.value) && Above(t, conflict.value, startParentId.value)
  {
    var currentId := startParentId;
    var visited: set<int> := {};
    if startParentId.Some? { AboveSelf(t, startParentId.value); }
    while currentId.Some?
      invariant visited <= t.Keys
      invariant forall v :: v in visited ==> !Flagged(t, v)
      invariant startParentId.Some? ==> startParentId.value in visited || currentId == startParentId
      invariant currentId.Some? ==> startParentId.Some? && Above(t, currentId.value, startParentId.value)
      invariant forall v :: v in visited && Parent(t, v).Some?
                            ==> Parent(t, v).value in visited || currentId == Parent(t, v)
      decreases t.Keys - visited
    {
      var id := currentId.value;
      if id in visited || id !in t {
        break;
      }
      visited := visited + {id};
      if t[id].flag {
        return Some(id);
      }
      if t[id].parent.Some? {
        assert Up(t, id, 1) == t[id].parent;
        AboveTrans(t, t[id].parent.value, id, startParentId.value);
      }
      currentId := t[id].parent;
    }
    conflict := None;
    if startParentId.Some? {
      ghost var walked := visited + (if currentId.Some? then {currentId.value} else {});
      forall a | Above(t, a, startParentId.value) ensures !Flagged(t, a) {
        var n: nat :| Up(t, startParentId.value, n) == Some(a);
        ChainInside(t, walked, startParentId.value, n);
      }
    }
  }

  /** What holds between pops: done has been popped, each other node reached so far is once on the stack. */
  ghost predicate StackState(t: Table, root: int, stack: seq<int>, done: set<int>) {
    && NoDup(stack)
    && (forall x :: x in stack ==> x in t && x !in done && ProperlyAbove(t, root, x))
    && (forall x :: x in done ==> x in t && !Flagged(t, x) && ProperlyAbove(t, root, x))
    && (forall x :: x in stack || x in done ==> Parent(t, x).value == root || Parent(t, x).value in done)
    && (forall x :: x in t && Parent(t, x).Some? && (Parent(t, x).value == root || Parent(t, x).value in done)
         ==> x in stack || x in done)
  }

  lemma {:induction false} StackPop(t: Table, rows: seq<int>, root: int, stack: seq<int>, done: set<int>)
    requires Enumerates(rows, t) && OffCycle(t, root)
    requires StackState(t, root, stack, done) && stack != []
    requires !Flagged(t, stack[|stack| - 1])
    ensures var node := stack[|stack| - 1];
            StackState(t, root, stack[..|stack| - 1] + ChildRows(t, rows, [node]), done + {node})
  {
    var node := stack[|stack| - 1];
    var rest, kids := stack[..|stack| - 1], ChildRows(t, rows, [node]);
    assert node in stack;
    assert forall x :: x in stack <==> x in rest || x == node;
    forall x | x in kids ensures x !in stack && x !in done && ProperlyAbove(t, root, x) {
      assert Parent(t, x) == Some(node) && node != root;
      ProperIsAbove(t, root, node);
    }
    NoDupAppend(rest, kids);
  }

  lemma {:induction false} BelowIsDone(t: Table, root: int, done: set<int>, d: int, n: nat)
    requires StackState(t, root, [], done)
    requires Parent(t, d).Some? && Up(t, Parent(t, d).value, n) == Some(root)
    ensures d in done
    decreases n
  {
    var p := Parent(t, d).value;
    if n > 0 { BelowIsDone(t, root, done, p, n - 1); }
  }

  /** The stack s after n more pops. */
  function Walk(t: Table, rows: seq<int>, s: seq<int>, n: nat): seq<int>
    decreases n
  {
    if n == 0 || s == [] then s
    else Walk(t, rows, s[..|s| - 1] + ChildRows(t, rows, [s[|s| - 1]]), n - 1)
  }

  /** The guard's stack after n pops, while no flagged node has been popped. */
  function Stack(t: Table, rows: seq<int>, root: int, n: nat): seq<int> {
    Walk(t, rows, ChildRows(t, rows, [root]), n)
  }

  predicate EndsAt(t: Table, rows: seq<int>, root: int, n: nat) {
    var s := Stack(t, rows, root, n);
    s == [] || Flagged(t, s[|s| - 1])
  }

  ghost predicate WalkEnds(t: Table, rows: seq<int>, root: int) {
    exists n: nat :: EndsAt(t, rows, root, n)
  }

  lemma {:induction false} WalkAdd(t: Table, rows: seq<int>, s: seq<int>, m: nat, n: nat)
    ensures Walk(t, rows, s, m + n) == Walk(t, rows, Walk(t, rows, s, m), n)
    decreases m
  {
    if m > 0 && s != [] { WalkAdd(t, rows, s[..|s| - 1] + ChildRows(t, rows, [s[|s| - 1]]), m - 1, n); }
  }

  lemma {:induction false} StackStep(t: Table, rows: seq<int>, root: int, n: nat)
    requires Stack(t, rows, root, n) != []
    ensures var s := Stack(t, rows, root, n);
            Stack(t, rows, root, n + 1) == s[..|s| - 1] + ChildRows(t, rows, [s[|s| - 1]])
  {
    var s := Stack(t, rows, root, n);
    WalkAdd(t, rows, ChildRows(t, rows, [root]), n, 1);
    assert Walk(t, rows, s, 1) == Walk(t, rows, s[..|s| - 1] + ChildRows(t, rows, [s[|s| - 1]]), 0);
  }

  lemma {:induction false} StackHoldsDescendants(t: Table, rows: seq<int>, root: int, n: nat)
    requires Enumerates(rows, t)
    ensures forall x :: x in Stack(t, rows, root, n) ==> x in t && ProperlyAbove(t, root, x)
  {
    AboveSelf(t, root);
    if n > 0 {
      StackHoldsDescendants(t, rows, root, n - 1);
      var s := Stack(t, rows, root, n - 1);
      if s == [] {
        WalkAdd(t, rows, ChildRows(t, rows, [root]), n - 1, 1);
      } else {
        StackStep(t, rows, root, n - 1);
        var top := s[|s| - 1];
        assert top in s;
        ProperIsAbove(t, root, top);
      }
    }
  }

  // -- The walk off a cycle ---------------------------------------------------

  ghost predicate Within(t: Table, x: int, below: set<int>) {
    x in t && OffCycle(t, x) && forall d :: d in t && Above(t, x, d) ==> d in below
  }

  /** Some number of pops takes the stack s to e. */
  ghost predicate Leads(t: Table, rows: seq<int>, s: seq<int>, e: seq<int>) {
    exists n: nat :: Walk(t, rows, s, n) == e
  }

  lemma {:induction false} LeadsOn(t: Table, rows: seq<int>, s: seq<int>, mid: seq<int>, e: seq<int>)
    requires Leads(t, rows, s, mid) && Leads(t, rows, mid, e)
    ensures Leads(t, rows, s, e)
  {
    var m: nat :| Walk(t, rows, s, m) == mid;
    var n: nat :| Walk(t, rows, mid, n) == e;
    WalkAdd(t, rows, s, m, n);
  }

  lemma {:induction false} PopOne(t: Table, rows: seq<int>, s: seq<int>, under: seq<int>, x: int)
    requires s == under + [x]
    ensures Leads(t, rows, s, under + ChildRows(t, rows, [x]))
  {
    assert s[..|s| - 1] == under;
    var next := under + ChildRows(t, rows, [x]);
    assert Walk(t, rows, s, 1) == Walk(t, rows, next, 0);
  }

  /** What lies below nodes off any cycle is popped after finitely many steps, however deep the stack under it. */
  lemma {:induction false} PopsDown(t: Table, rows: seq<int>, under: seq<int>, on: seq<int>, below: set<int>)
    requires Enumerates(rows, t)
    requires forall x :: x in on ==> Within(t, x, below)
    ensures Leads(t, rows, under + on, under)
    decreases below, |on|
  {
    var s := under + on;
    if on == [] {
      assert Walk(t, rows, s, 0) == under;
    } else {
      var x, rest := on[|on| - 1], under + on[..|on| - 1];
      var kids := ChildRows(t, rows, [x]);
      var deeper := Deeper(t, rows, x, on, below);
      PopsDown(t, rows, rest, kids, deeper);
      PopsDown(t, rows, under, on[..|on| - 1], below);
      PopOne(t, rows, s, rest, x);
      LeadsOn(t, rows, s, rest + kids, rest);
      LeadsOn(t, rows, s, rest, under);
    }
  }

  /** The children of x lie within fewer nodes: x itself is not among what is below it. */
  lemma {:induction false} Deeper(t: Table, rows: seq<int>, x: int, on: seq<int>, below: set<int>)
    returns (deeper: set<int>)
    requires Enumerates(rows, t) && x in on
    requires forall z :: z in on ==> Within(t, z, below)
    ensures deeper < below && forall k :: k in ChildRows(t, rows, [x]) ==> Within(t, k, deeper)
  {
    deeper := set d | d in below && ProperlyAbove(t, x, d);
    AboveSelf(t, x);
    assert x in below && x !in deeper;
    forall k | k in ChildRows(t, rows, [x]) ensures Within(t, k, deeper) { KidsBelow(t, x, k, below); }
  }

  lemma {:induction false} KidsBelow(t: Table, x: int, k: int, below: set<int>)
    requires Within(t, x, below) && Parent(t, k) == Some(x)
    ensures OffCycle(t, k)
    ensures forall d :: d in t && Above(t, k, d) ==> d in below && ProperlyAbove(t, x, d)
  {
    AboveSelf(t, x);
    if ProperlyAbove(t, k, k) { LoopBack(t, k, x); }
    forall d | d in t && Above(t, k, d) ensures d in below && ProperlyAbove(t, x, d) {
      AboveCases(t, k, d);
      ProperIsAbove(t, x, k);
      if d != k { AboveTrans(t, x, k, Parent(t, d).value); }
      ProperIsAbove(t, x, d);
    }
  }

  lemma {:induction false} OffCycleEmpties(t: Table, rows: seq<int>, root: int) returns (n: nat)
    requires Enumerates(rows, t) && OffCycle(t, root)
    ensures Stack(t, rows, root, n) == []
  {
    var kids := ChildRows(t, rows, [root]);
    forall k | k in kids ensures Within(t, k, t.Keys) {
      if ProperlyAbove(t, k, k) { LoopBack(t, k, root); }
    }
    PopsDown(t, rows, [], kids, t.Keys);
    assert [] + kids == kids;
    n :| Walk(t, rows, kids, n) == [];
  }

  // -- The walk on a cycle ----------------------------------------------------

  /** A node above the root is on the stack after any number of pops. */
  lemma {:induction false} OnCycleNeverEmpties(t: Table, rows: seq<int>, root: int, n: nat) returns (x: int)
    requires Enumerates(rows, t) && !OffCycle(t, root)
    ensures x in Stack(t, rows, root, n) && Above(t, x, root)
  {
    if n == 0 {
      AboveSelf(t, root);
      x := CycleChild(t, root, root);
    } else {
      var y := OnCycleNeverEmpties(t, rows, root, n - 1);
      var s := Stack(t, rows, root, n - 1);
      StackStep(t, rows, root, n - 1);
      if y == s[|s| - 1] {
        x := CycleChild(t, root, y);
      } else {
        x := y;
        assert y in s[..|s| - 1];
      }
    }
  }

  /** Left to itself the stack runs empty exactly when the root is not its own ancestor. */
  lemma {:induction false} StackEmptiesIff(t: Table, rows: seq<int>, root: int)
    requires Enumerates(rows, t)
    ensures (exists n: nat :: Stack(t, rows, root, n) == []) <==> OffCycle(t, root)
  {
    if OffCycle(t, root) {
      var n := OffCycleEmpties(t, rows, root);
    } else {
      forall n: nat ensures Stack(t, rows, root, n) != [] {
        var x := OnCycleNeverEmpties(t, rows, root, n);
      }
    }
  }

  /** So where nothing below the root is flagged, the walk ends exactly when the root is not its own ancestor. */
  lemma {:induction false} UnflaggedWalkEndsIff(t: Table, rows: seq<int>, root: int)
    requires Enumerates(rows, t) && !DescendantFlagged(t, root)
    ensures WalkEnds(t, rows, root) <==> OffCycle(t, root)
  {
    StackEmptiesIff(t, rows, root);
    forall n: nat ensures EndsAt(t, rows, root, n) <==> Stack(t, rows, root, n) == [] {
      StackHoldsDescendants(t, rows, root, n);
      var s := Stack(t, rows, root, n);
      if s != [] { assert s[|s| - 1] in s; }
    }
  }

  lemma {:induction false} SiblingsAreWithin(t: Table, rows: seq<int>, y: int, x: int, z: int)
    requires Enumerates(rows, t) && Parent(t, x) == Some(y) && ProperlyAbove(t, x, x)
    requires z in ChildRows(t, rows, [y]) && z != x
    ensures Within(t, z, t.Keys)
  {
    if ProperlyAbove(t, z, z) { OneCycleChild(t, x, z); }
  }

  lemma {:induction false} SplitAt(s: seq<int>, x: int) returns (a: seq<int>, b: seq<int>)
    requires NoDup(s) && x in s
    ensures s == a + [x] + b && forall z :: z in b ==> z in s && z != x
  {
    var i :| 0 <= i < |s| && s[i] == x;
    a, b := s[..i], s[i + 1..];
  }

  /** Of the children of a node, those popped before the one on the cycle have finite subtrees. */
  lemma {:induction false} SplitAtCycleChild(t: Table, rows: seq<int>, y: int, x: int)
    returns (a: seq<int>, b: seq<int>)
    requires Enumerates(rows, t) && Parent(t, x) == Some(y) && ProperlyAbove(t, x, x)
    ensures ChildRows(t, rows, [y]) == a + [x] + b && forall z :: z in b ==> Within(t, z, t.Keys)
  {
    a, b := SplitAt(ChildRows(t, rows, [y]), x);
    forall z | z in b ensures Within(t, z, t.Keys) { SiblingsAreWithin(t, rows, y, x, z); }
  }

  /** From one cycle node's children the walk gets down to the child that is on the cycle. */
  lemma {:induction false} WalksDownCycle(t: Table, rows: seq<int>, under: seq<int>, y: int, x: int)
    returns (under': seq<int>)
    requires Enumerates(rows, t) && Parent(t, x) == Some(y) && ProperlyAbove(t, x, x)
    ensures Leads(t, rows, under + ChildRows(t, rows, [y]), under' + [x])
  {
    var a, b := SplitAtCycleChild(t, rows, y, x);
    under' := under + a;
    PopsDown(t, rows, under' + [x], b, t.Keys);
    assert under + (a + [x] + b) == (under' + [x]) + b;
  }

  lemma {:induction false} CycleNode(t: Table, root: int, round: nat, j: nat) returns (x: int, y: int)
    requires j < round && Up(t, root, round) == Some(root)
    ensures Up(t, root, j) == Some(x) && Up(t, root, j + 1) == Some(y)
    ensures Parent(t, x) == Some(y) && ProperlyAbove(t, x, x)
  {
    UpAdd(t, root, j, round - j);
    UpAdd(t, root, j, 1);
    x := Up(t, root, j).value;
    UpAdd(t, x, round - j, j);
    assert Up(t, x, round) == Some(x);
    y := Parent(t, x).value;
    assert Up(t, x, 1) == Some(y) && Up(t, y, round - 1) == Some(x);
  }

  /** Going round the cycle, each of its nodes comes to the top of the stack. */
  lemma {:induction false} ReachesTop(t: Table, rows: seq<int>, root: int, round: nat, j: nat) returns (under: seq<int>)
    requires Enumerates(rows, t) && j < round && Up(t, root, round) == Some(root)
    ensures Up(t, root, j).Some? && Leads(t, rows, ChildRows(t, rows, [root]), under + [Up(t, root, j).value])
    decreases round - j
  {
    var x, y := CycleNode(t, root, round, j);
    var start := ChildRows(t, rows, [root]);
    if j + 1 == round {
      under := WalksDownCycle(t, rows, [], root, x);
      assert [] + start == start;
    } else {
      var above := ReachesTop(t, rows, root, round, j + 1);
      under := WalksDownCycle(t, rows, above, y, x);
      PopOne(t, rows, above + [y], above, y);
      LeadsOn(t, rows, above + [y], above + ChildRows(t, rows, [y]), under + [x]);
      LeadsOn(t, rows, start, above + [y], under + [x]);
    }
  }

  lemma {:induction false} FlaggedCycleEnds(t: Table, rows: seq<int>, root: int)
    requires Enumerates(rows, t) && !OffCycle(t, root) && AncestorFlagged(t, Some(root))
    ensures WalkEnds(t, rows, root)
  {
    var f :| Flagged(t, f) && Above(t, f, root);
    var j: nat :| Up(t, root, j) == Some(f);
    var period := Period(t, root);
    UpMul(t, root, period, j + 1);
    assert (j + 1) * period >= j + 1;
    var under := ReachesTop(t, rows, root, (j + 1) * period, j);
    var n: nat :| Walk(t, rows, ChildRows(t, rows, [root]), n) == under + [f];
    assert EndsAt(t, rows, root, n);
  }

  lemma {:induction false} Listing(s: set<int>) returns (r: seq<int>)
    ensures NoDup(r) && forall x :: x in r <==> x in s
  {
    if s == {} {
      r := [];
    } else {
      assert (forall c :: c !in s) ==> s == {};
      var c :| c in s;
      var rest := Listing(s - {c});
      NoDupAppend(rest, [c]);
      r := rest + [c];
    }
  }

  lemma {:induction false} ChildRowsAppend(t: Table, a: seq<int>, b: seq<int>, ids: seq<int>)
    ensures ChildRows(t, a + b, ids) == ChildRows(t, a, ids) + ChildRows(t, b, ids)
  {
    if a == [] {
      assert a + b == b;
    } else {
      assert (a + b)[1..] == a[1..] + b;
      ChildRowsAppend(t, a[1..], b, ids);
    }
  }

  /** With the nodes above the root listed last, each such node leads to another. */
  lemma {:induction false} StaysOnCycle(t: Table, rest: seq<int>, cycle: seq<int>, root: int, y: int)
    requires !OffCycle(t, root) && Above(t, y, root)
    requires forall c :: c in t && Above(t, c, root) ==> c in cycle
    requires forall c :: c in cycle ==> Above(t, c, root)
    ensures var kids := ChildRows(t, rest + cycle, [y]); kids != [] && Above(t, kids[|kids| - 1], root)
  {
    var x := CycleChild(t, root, y);
    ChildRowsAppend(t, rest, cycle, [y]);
    var onCycle := ChildRows(t, cycle, [y]);
    assert x in onCycle;
    assert onCycle[|onCycle| - 1] in onCycle;
  }

  lemma {:induction false} TopStaysOnCycle(t: Table, rest: seq<int>, cycle: seq<int>, root: int, n: nat)
    requires !OffCycle(t, root)
    requires forall c :: c in t && Above(t, c, root) ==> c in cycle
    requires forall c :: c in cycle ==> Above(t, c, root)
    ensures var s := Stack(t, rest + cycle, root, n); s != [] && Above(t, s[|s| - 1], root)
  {
    if n == 0 {
      AboveSelf(t, root);
      StaysOnCycle(t, rest, cycle, root, root);
    } else {
      TopStaysOnCycle(t, rest, cycle, root, n - 1);
      var s := Stack(t, rest + cycle, root, n - 1);
      StackStep(t, rest + cycle, root, n - 1);
      StaysOnCycle(t, rest, cycle, root, s[|s| - 1]);
    }
  }

  /** An order of rows in which the walk goes round an unflagged cycle forever. */
  lemma {:induction false} UnflaggedCycleTraps(t: Table, root: int) returns (rows: seq<int>)
    requires !OffCycle(t, root) && !AncestorFlagged(t, Some(root))
    ensures Enumerates(rows, t) && !WalkEnds(t, rows, root)
  {
    var onIt := set c | c in t && Above(t, c, root);
    var rest := Listing(t.Keys - onIt);
    var cycle := Listing(onIt);
    NoDupAppend(rest, cycle);
    rows := rest + cycle;
    forall n: nat ensures !EndsAt(t, rows, root, n) { TopStaysOnCycle(t, rest, cycle, root, n); }
  }

  /** Whatever order the rows come in, the walk ends exactly when the root is not its own
      ancestor or some ancestor of it is flagged. */
  lemma {:induction false} WalkEndsInAnyOrderIff(t: Table, root: int)
    ensures (forall rows :: Enumerates(rows, t) ==> WalkEnds(t, rows, root)) <==>
            OffCycle(t, root) || AncestorFlagged(t, Some(root))
  {
    if OffCycle(t, root) || AncestorFlagged(t, Some(root)) {
      forall rows | Enumerates(rows, t) ensures WalkEnds(t, rows, root) {
        if OffCycle(t, root) {
          var n := OffCycleEmpties(t, rows, root);
          assert EndsAt(t, rows, root, n);
        } else {
          FlaggedCycleEnds(t, rows, root);
        }
      }
    } else {
      var rows := UnflaggedCycleTraps(t, root);
    }
  }

  // -- The guard itself -------------------------------------------------------

  predicate NoneFlaggedBefore(t: Table, rows: seq<int>, root: int, n: nat) {
    forall i: nat :: i < n ==> !EndsAt(t, rows, root, i)
  }

  lemma {:induction false} StackStates(t: Table, rows: seq<int>, root: int, n: nat) returns (done: set<int>)
    requires Enumerates(rows, t) && OffCycle(t, root) && NoneFlaggedBefore(t, rows, root, n)
    ensures StackState(t, root, Stack(t, rows, root, n), done)
  {
    if n == 0 {
      done := {};
      AboveSelf(t, root);
    } else {
      done := StackStates(t, rows, root, n - 1);
      var s := Stack(t, rows, root, n - 1);
      assert !EndsAt(t, rows, root, n - 1);
      StackPop(t, rows, root, s, done);
      StackStep(t, rows, root, n - 1);
      done := done + {s[|s| - 1]};
    }
  }

  lemma {:induction false} EmptiedUnflagged(t: Table, rows: seq<int>, root: int, n: nat)
    requires Enumerates(rows, t) && NoneFlaggedBefore(t, rows, root, n) && Stack(t, rows, root, n) == []
    ensures !DescendantFlagged(t, root)
  {
    StackEmptiesIff(t, rows, root);
    var done := StackStates(t, rows, root, n);
    forall d | ProperlyAbove(t, root, d) ensures !Flagged(t, d) {
      var k: nat :| Up(t, Parent(t, d).value, k) == Some(root);
      BelowIsDone(t, root, done, d, k);
    }
  }

  /** The depth-first walk over an explicit stack, run where it ends. */
  method AssertNoFlagOnDescendants(t: Table, rows: seq<int>, rootId: int) returns (conflict: Option<int>)
    requires Enumerates(rows, t)
    requires WalkEnds(t, rows, rootId)
    ensures conflict.Some? <==> DescendantFlagged(t, rootId)
    ensures conflict.Some? ==> Flagged(t, conflict.value) && ProperlyAbove(t, rootId, conflict.value)
  {
    ghost var last: nat :| EndsAt(t, rows, rootId, last);
    var stack := ChildRows(t, rows, [rootId]);
    ghost var n := 0;
    while |stack| > 0
      invariant n <= last && stack == Stack(t, rows, rootId, n)
      invariant NoneFlaggedBefore(t, rows, rootId, n)
      decreases last - n
    {
      var node := stack[|stack| - 1];
      StackHoldsDescendants(t, rows, rootId, n);
      assert node in stack;
      if t[node].flag {
        return Some(node);
      }
      StackStep(t, rows, rootId, n);
      stack := stack[..|stack| - 1] + ChildRows(t, rows, [node]);
      n := n + 1;
    }
    EmptiedUnflagged(t, rows, rootId, n);
    conflict := None;
  }

  // -- What each call does to the table ---------------------------------------

  ghost function CreateOutcome(t: Table, id: int, dto: CreateDto): Result<Table, Error> {
    if SlugInUse(t, dto.slug) then Err(SlugTaken)
    else if dto.parent.Some? && dto.parent.value !in t then Err(NotFound)
    else if dto.flag && dto.nodeType != CategoryNode then Err(BadRequest)
    else if dto.flag && AncestorFlagged(t, dto.parent) then Err(Conflict)
    else Ok(t[id := Category(dto.parent, dto.flag, dto.nodeType, dto.slug)])
  }

  function NewParent(t: Table, id: int, dto: UpdateDto): Option<int>
    requires id in t
  {
    if dto.parent.Some? then dto.parent.value else t[id].parent
  }

  function NewFlag(t: Table, id: int, dto: UpdateDto): bool
    requires id in t
  {
    if dto.flag.Some? then dto.flag.value else t[id].flag
  }

  function NewNodeType(t: Table, id: int, dto: UpdateDto): NodeType
    requires id in t
  {
    if dto.nodeType.Some? then dto.nodeType.value else t[id].nodeType
  }

  function NewSlug(t: Table, id: int, dto: UpdateDto): string
    requires id in t
  {
    if dto.slug.Some? then dto.slug.value else t[id].slug
  }

  predicate NewlyFlagged(t: Table, id: int, dto: UpdateDto)
    requires id in t
  {
    dto.flag == Some(true) && !t[id].flag
  }

  function Updated(t: Table, id: int, dto: UpdateDto): Table
    requires id in t
  {
    t[id := Category(NewParent(t, id, dto), NewFlag(t, id, dto), NewNodeType(t, id, dto), NewSlug(t, id, dto))]
  }

  ghost function UpdateOutcome(t: Table, id: int, dto: UpdateDto): Result<Table, Error> {
    if id !in t then Err(NotFound)
    else if NewSlug(t, id, dto) != t[id].slug && SlugInUse(t, NewSlug(t, id, dto)) then Err(SlugTaken)
    else if dto.parent == Some(Some(id)) then Err(BadRequest)
    else if NewlyFlagged(t, id, dto) && NewNodeType(t, id, dto) != CategoryNode then Err(BadRequest)
    else if NewlyFlagged(t, id, dto) && (AncestorFlagged(t, NewParent(t, id, dto)) || DescendantFlagged(t, id))
      then Err(Conflict)
    else if NewParent(t, id, dto).Some? && NewParent(t, id, dto).value !in t then Err(ForeignKey)
    else Ok(Updated(t, id, dto))
  }

  /** The update gets as far as looking for flags below the category. */
  ghost predicate LooksBelow(t: Table, id: int, dto: UpdateDto) {
    && id in t && (NewSlug(t, id, dto) == t[id].slug || !SlugInUse(t, NewSlug(t, id, dto)))
    && dto.parent != Some(Some(id)) && NewlyFlagged(t, id, dto) && NewNodeType(t, id, dto) == CategoryNode
    && !AncestorFlagged(t, NewParent(t, id, dto))
  }

  function RemoveOutcome(t: Table, id: int): Result<Table, Error> {
    if id !in t then Err(NotFound)
    else if exists c | c in t :: t[c].parent == Some(id) then Err(BadRequest)
    else Ok(t - {id})
  }

  // -- The service over its repository ----------------------------------------

  class CategoriesService {
    var repo: Table

    constructor ()
      ensures repo == map[] && Valid(repo)
    {
      repo := map[];
    }

    /** id is the key the database assigns. */
    method Create(id: int, dto: CreateDto) returns (r: Result<(), Error>)
      requires id !in repo
      modifies this
      ensures match CreateOutcome(old(repo), id, dto)
              case Ok(t) => r.Ok? && repo == t
              case Err(e) => r == Err(e) && repo == old(repo)
    {
      if SlugInUse(repo, dto.slug) {
        return Err(SlugTaken);
      }
      if dto.parent.Some? && dto.parent.value !in repo {
        return Err(NotFound);
      }
      if dto.flag {
        if dto.nodeType != CategoryNode {
          return Err(BadRequest);
        }
        var conflict := AssertNoFlagOnAncestors(repo, dto.parent);
        if conflict.Some? {
          return Err(Conflict);
        }
      }
      repo := repo[id := Category(dto.parent, dto.flag, dto.nodeType, dto.slug)];
      return Ok(());
    }

    /** The two guards in turn, the second only if the first finds nothing. */
    method FlagOnBranch(rows: seq<int>, id: int, parentId: Option<int>) returns (conflict: bool)
      requires Enumerates(rows, repo)
      requires AncestorFlagged(repo, parentId) || WalkEnds(repo, rows, id)
      ensures conflict <==> AncestorFlagged(repo, parentId) || DescendantFlagged(repo, id)
    {
      var above := AssertNoFlagOnAncestors(repo, parentId);
      if above.Some? {
        return true;
      }
      var below := AssertNoFlagOnDescendants(repo, rows, id);
      return below.Some?;
    }

    /** rows is the table as the database lists it; run where the search below the category, if it
        is made, ends on these rows. */
    method Update(rows: seq<int>, id: int, dto: UpdateDto) returns (r: Result<(), Error>)
      requires Enumerates(rows, repo)
      requires LooksBelow(repo, id, dto) ==> WalkEnds(repo, rows, id)
      modifies this
      ensures match UpdateOutcome(old(repo), id, dto)
              case Ok(t) => r.Ok? && repo == t
              case Err(e) => r == Err(e) && repo == old(repo)
    {
      if id !in repo {
        return Err(NotFound);
      }
      var cat := repo[id];
      if dto.slug.Some? && dto.slug.value != cat.slug {
        if SlugInUse(repo, dto.slug.value) {
          return Err(SlugTaken);
        }
      }
      if dto.parent == Some(Some(id)) {
        return Err(BadRequest);
      }
      var parentId := if dto.parent.Some? then dto.parent.value else cat.parent;
      if dto.flag == Some(true) && !cat.flag {
        var nextNodeType := if dto.nodeType.Some? then dto.nodeType.value else cat.nodeType;
        if nextNodeType != CategoryNode {
          return Err(BadRequest);
        }
        var conflict := FlagOnBranch(rows, id, parentId);
        if conflict {
          return Err(Conflict);
        }
      }
      if dto.parent.Some? { cat := cat.(parent := dto.parent.value); }
      if dto.nodeType.Some? { cat := cat.(nodeType := dto.nodeType.value); }
      if dto.flag.Some? { cat := cat.(flag := dto.flag.value); }
      if dto.slug.Some? { cat := cat.(slug := dto.slug.value); }
      if cat.parent.Some? && cat.parent.value !in repo {
        return Err(ForeignKey);
      }
      repo := repo[id := cat];
      return Ok(());
    }

    method Remove(id: int) returns (r: Result<(), Error>)
      modifies this
      ensures match RemoveOutcome(old(repo), id)
              case Ok(t) => r.Ok? && repo == t
              case Err(e) => r == Err(e) && repo == old(repo)
    {
      if id !in repo {
        return Err(NotFound);
      }
      if exists c | c in repo :: repo[c].parent == Some(id) {
        return Err(BadRequest);
      }
      repo := repo - {id};
      return Ok(());
    }
  }

  // -- The invariant ----------------------------------------------------------

  /** No flagged category has a flagged proper ancestor. */
  ghost predicate OneRootPerBranch(t: Table) {
    forall a, c :: Flagged(t, a) && Flagged(t, c) ==> !ProperlyAbove(t, a, c)
  }

  ghost predicate ParentsExist(t: Table) {
    forall c :: c in t && t[c].parent.Some? ==> t[c].parent.value in t
  }

  ghost predicate SlugsDiffer(t: Table) {
    forall a, b :: a in t && b in t && a != b ==> t[a].slug != t[b].slug
  }

  ghost predicate Valid(t: Table) {
    ParentsExist(t) && Acyclic(t) && OneRootPerBranch(t) && SlugsDiffer(t)
  }

  /** Rows that differ only at id give the same chains to every node that is not below id. */
  lemma {:induction false} SameChain(t: Table, t': Table, id: int, x: int, n: nat)
    requires forall c :: c != id ==> Parent(t, c) == Parent(t', c)
    requires !Above(t, id, x)
    ensures Up(t', x, n) == Up(t, x, n)
    decreases n
  {
    AboveCases(t, id, x);
    if n > 0 && Parent(t, x).Some? { SameChain(t, t', id, Parent(t, x).value, n - 1); }
  }

  lemma {:induction false} SameAbove(t: Table, t': Table, id: int, x: int)
    requires forall c :: c != id ==> Parent(t, c) == Parent(t', c)
    requires !Above(t, id, x)
    ensures forall a :: Above(t', a, x) <==> Above(t, a, x)
  {
    forall n: nat ensures Up(t', x, n) == Up(t, x, n) { SameChain(t, t', id, x, n); }
  }

  lemma {:induction false} StillBelow(t: Table, t': Table, id: int, x: int, n: nat)
    requires forall c :: c != id ==> Parent(t, c) == Parent(t', c)
    requires Up(t, x, n) == Some(id)
    ensures Above(t', id, x)
    decreases n
  {
    AboveCases(t', id, x);
    if x != id { StillBelow(t, t', id, Parent(t, x).value, n - 1); }
  }

  /** Re-hanging id changes nobody's membership of its subtree. */
  lemma {:induction false} SameSubtree(t: Table, t': Table, id: int, x: int)
    requires forall c :: c != id ==> Parent(t, c) == Parent(t', c)
    ensures Above(t', id, x) <==> Above(t, id, x)
  {
    if Above(t, id, x) {
      var n: nat :| Up(t, x, n) == Some(id);
      StillBelow(t, t', id, x, n);
    } else {
      SameAbove(t, t', id, x);
    }
  }

  /** After id is hung under a node outside its subtree, a chain that starts below id
      stays inside the subtree or continues above the new parent. */
  lemma {:induction false} ChainSplits(t: Table, t': Table, id: int, a: int, x: int, n: nat)
    requires forall c :: c != id ==> Parent(t, c) == Parent(t', c)
    requires Parent(t', id).Some? ==> !Above(t, id, Parent(t', id).value)
    requires Up(t, x, n) == Some(id)
    requires Above(t', a, x)
    ensures (Above(t, a, x) && Above(t, id, a)) || (Parent(t', id).Some? && Above(t, a, Parent(t', id).value))
    decreases n
  {
    AboveCases(t', a, x);
    AboveSelf(t, x);
    if x == id {
      if a != x { SameAbove(t, t', id, Parent(t', id).value); }
    } else {
      var p := Parent(t, x).value;
      if a != x {
        ChainSplits(t, t', id, a, p, n - 1);
        AboveCases(t, a, x);
      }
    }
  }

  /** Exactly what a caller has to check before an update: the new parent lies outside the
      subtree, and not both a flag above the new parent and a flag at or below id. */
  ghost predicate SafeUpdate(t: Table, id: int, dto: UpdateDto)
    requires id in t
  {
    && (NewParent(t, id, dto).Some? ==> !Above(t, id, NewParent(t, id, dto).value))
    && !(AncestorFlagged(t, NewParent(t, id, dto)) && (NewFlag(t, id, dto) || DescendantFlagged(t, id)))
  }

  lemma {:induction false} CreateKeepsInvariant(t: Table, id: int, dto: CreateDto)
    requires Valid(t) && id !in t
    requires CreateOutcome(t, id, dto).Ok?
    ensures Valid(CreateOutcome(t, id, dto).value)
  {
    var t' := CreateOutcome(t, id, dto).value;
    forall x | x != id ensures !Above(t, id, x) {
      AboveCases(t, id, x);
      if ProperlyAbove(t, id, x) {
        var n: nat :| Up(t, Parent(t, x).value, n) == Some(id);
        ChainInside(t, t.Keys, Parent(t, x).value, n);
      }
    }
    forall a, x | x != id ensures ProperlyAbove(t', a, x) <==> ProperlyAbove(t, a, x) {
      if Parent(t, x).Some? { SameAbove(t, t', id, Parent(t, x).value); }
    }
    if dto.parent.Some? {
      var p := dto.parent.value;
      SameAbove(t, t', id, p);
    }
    forall c ensures OffCycle(t', c) { assert OffCycle(t, c); }
  }

  lemma {:induction false} HasChild(t: Table, id: int, x: int, n: nat)
    requires Parent(t, x).Some? && Up(t, Parent(t, x).value, n) == Some(id)
    ensures exists c :: c in t && t[c].parent == Some(id)
    decreases n
  {
    if n > 0 { HasChild(t, id, Parent(t, x).value, n - 1); }
  }

  lemma {:induction false} RemoveKeepsInvariant(t: Table, id: int)
    requires Valid(t)
    requires RemoveOutcome(t, id).Ok?
    ensures Valid(RemoveOutcome(t, id).value)
  {
    var t' := RemoveOutcome(t, id).value;
    forall x | x != id ensures !Above(t, id, x) {
      AboveCases(t, id, x);
      if ProperlyAbove(t, id, x) {
        var n: nat :| Up(t, Parent(t, x).value, n) == Some(id);
        HasChild(t, id, x, n);
      }
    }
    forall a, x | ProperlyAbove(t', a, x) ensures ProperlyAbove(t, a, x) {
      SameAbove(t, t', id, Parent(t, x).value);
    }
    forall c ensures OffCycle(t', c) { assert OffCycle(t, c); }
  }

  /** A proper ancestor after the update was one before it, or lies above the new parent. */
  lemma {:induction false} NewAncestor(t: Table, id: int, dto: UpdateDto, a: int, x: int)
    requires id in t
    requires NewParent(t, id, dto).Some? ==> !Above(t, id, NewParent(t, id, dto).value)
    requires ProperlyAbove(Updated(t, id, dto), a, x)
    ensures (x != id && ProperlyAbove(t, a, x)) ||
            (Above(t, id, x) && NewParent(t, id, dto).Some? && Above(t, a, NewParent(t, id, dto).value))
  {
    var t' := Updated(t, id, dto);
    var p := Parent(t', x).value;
    AboveCases(t, id, x);
    if x == id {
      SameAbove(t, t', id, p);
    } else if Above(t, id, p) {
      var n: nat :| Up(t, p, n) == Some(id);
      ChainSplits(t, t', id, a, p, n);
    } else {
      SameAbove(t, t', id, p);
    }
  }

  lemma {:induction false} FlagPair(t: Table, id: int, dto: UpdateDto, a: int, c: int)
    requires Valid(t) && UpdateOutcome(t, id, dto).Ok? && SafeUpdate(t, id, dto)
    requires Flagged(Updated(t, id, dto), a) && Flagged(Updated(t, id, dto), c)
    ensures !ProperlyAbove(Updated(t, id, dto), a, c)
  {
    if ProperlyAbove(Updated(t, id, dto), a, c) {
      NewAncestor(t, id, dto, a, c);
      AboveCases(t, id, c);
      if c != id && ProperlyAbove(t, a, c) {
        assert a == id && NewlyFlagged(t, id, dto) && DescendantFlagged(t, id);
      }
    }
  }

  lemma {:induction false} SafeUpdateKeepsInvariant(t: Table, id: int, dto: UpdateDto)
    requires Valid(t) && UpdateOutcome(t, id, dto).Ok? && SafeUpdate(t, id, dto)
    ensures Valid(Updated(t, id, dto))
  {
    var t' := Updated(t, id, dto);
    forall c ensures OffCycle(t', c) {
      if ProperlyAbove(t', c, c) {
        NewAncestor(t, id, dto, c, c);
        assert OffCycle(t, c);
        AboveTrans(t, id, c, NewParent(t, id, dto).value);
      }
    }
    forall a, c | Flagged(t', a) && Flagged(t', c) ensures !ProperlyAbove(t', a, c) {
      FlagPair(t, id, dto, a, c);
    }
  }

  lemma {:induction false} UnsafeUpdateBreaksInvariant(t: Table, id: int, dto: UpdateDto)
    requires Valid(t) && UpdateOutcome(t, id, dto).Ok? && !SafeUpdate(t, id, dto)
    ensures !Valid(Updated(t, id, dto))
  {
    var t' := Updated(t, id, dto);
    var np := NewParent(t, id, dto);
    if np.Some? && Above(t, id, np.value) {
      SameSubtree(t, t', id, np.value);
      assert !OffCycle(t', id);
    } else {
      var a :| Flagged(t, a) && Above(t, a, np.value);
      SameAbove(t, t', id, np.value);
      assert ProperlyAbove(t', a, id);
      if NewFlag(t, id, dto) {
        assert Flagged(t', a) && Flagged(t', id);
      } else {
        var d :| Flagged(t, d) && ProperlyAbove(t, id, d);
        assert OffCycle(t, id);
        var p := Parent(t', d).value;
        SameSubtree(t, t', id, p);
        ProperIsAbove(t', a, id);
        AboveTrans(t', a, id, p);
        assert Flagged(t', a) && Flagged(t', d) && ProperlyAbove(t', a, d);
      }
    }
  }

  /** The code accepts every update it does not guard, so this is exactly when the invariant survives one. */
  lemma {:induction false} UpdateKeepsInvariantIff(t: Table, id: int, dto: UpdateDto)
    requires Valid(t) && UpdateOutcome(t, id, dto).Ok?
    ensures Valid(Updated(t, id, dto)) <==> SafeUpdate(t, id, dto)
  {
    if SafeUpdate(t, id, dto) {
      SafeUpdateKeepsInvariant(t, id, dto);
    } else {
      UnsafeUpdateBreaksInvariant(t, id, dto);
    }
  }

  /** Updates that leave the parent alone are always safe, and so are moves outside
      the subtree that newly set the flag: the code's own guards see to it. */
  lemma {:induction false} GuardedUpdateIsSafe(t: Table, id: int, dto: UpdateDto)
    requires Valid(t) && UpdateOutcome(t, id, dto).Ok?
    requires NewParent(t, id, dto) == t[id].parent ||
             (NewlyFlagged(t, id, dto) &&
              (NewParent(t, id, dto).Some? ==> !Above(t, id, NewParent(t, id, dto).value)))
    ensures SafeUpdate(t, id, dto)
  {
    assert OffCycle(t, id);
    var np := NewParent(t, id, dto);
    if AncestorFlagged(t, np) {
      var a :| Flagged(t, a) && Above(t, a, np.value);
      assert ProperlyAbove(t, a, id);
      if DescendantFlagged(t, id) {
        var d :| Flagged(t, d) && ProperlyAbove(t, id, d);
        ProperIsAbove(t, a, id);
        AboveTrans(t, a, id, Parent(t, d).value);
        assert ProperlyAbove(t, a, d);
      }
    }
  }

  /** Hanging a flagged root under another flagged root is accepted and breaks the invariant. */
  lemma {:induction false} ReparentingCanBreakInvariant()
    ensures var t := map[1 := Category(None, true, CategoryNode, "a"), 2 := Category(None, true, CategoryNode, "b")];
            var dto := UpdateDto(Some(Some(1)), None, None, None);
            Valid(t) && UpdateOutcome(t, 2, dto).Ok? && !Valid(Updated(t, 2, dto))
  {
    var t := map[1 := Category(None, true, CategoryNode, "a"), 2 := Category(None, true, CategoryNode, "b")];
    var dto := UpdateDto(Some(Some(1)), None, None, None);
    AboveSelf(t, 1);
    assert Flagged(t, 1) && AncestorFlagged(t, NewParent(t, 2, dto));
    assert t[1].slug[0] != t[2].slug[0];
    UnsafeUpdateBreaksInvariant(t, 2, dto);
  }

  // -- Whole runs -------------------------------------------------------------

  datatype Op = CreateOp(id: int, create: CreateDto) | UpdateOp(id: int, update: UpdateDto) | RemoveOp(id: int)

  ghost function Outcome(t: Table, op: Op): Result<Table, Error> {
    match op
    case CreateOp(id, dto) => CreateOutcome(t, id, dto)
    case UpdateOp(id, dto) => UpdateOutcome(t, id, dto)
    case RemoveOp(id) => RemoveOutcome(t, id)
  }

  /** A rejected call leaves the table as it is. */
  ghost function Step(t: Table, op: Op): Table {
    match Outcome(t, op) case Ok(t') => t' case Err(_) => t
  }

  ghost predicate Allowed(t: Table, op: Op) {
    match op
    case CreateOp(id, _) => id !in t
    case UpdateOp(id, dto) => UpdateOutcome(t, id, dto).Ok? ==> SafeUpdate(t, id, dto)
    case RemoveOp(_) => true
  }

  ghost function Run(t: Table, ops: seq<Op>): Table
    decreases |ops|
  {
    if ops == [] then t else Run(Step(t, ops[0]), ops[1..])
  }

  ghost predicate AllowedRun(t: Table, ops: seq<Op>)
    decreases |ops|
  {
    ops == [] || (Allowed(t, ops[0]) && AllowedRun(Step(t, ops[0]), ops[1..]))
  }

  /** No run of creates, removes and safe updates ever puts two comparison roots on one branch. */
  lemma {:induction false} RunsKeepOneRootPerBranch(t: Table, ops: seq<Op>)
    requires Valid(t) && AllowedRun(t, ops)
    ensures Valid(Run(t, ops))
    decreases |ops|
  {
    if ops != [] {
      match ops[0] {
        case CreateOp(id, dto) => if CreateOutcome(t, id, dto).Ok? { CreateKeepsInvariant(t, id, dto); }
        case UpdateOp(id, dto) => if UpdateOutcome(t, id, dto).Ok? { SafeUpdateKeepsInvariant(t, id, dto); }
        case RemoveOp(id) => if RemoveOutcome(t, id).Ok? { RemoveKeepsInvariant(t, id); }
      }
      RunsKeepOneRootPerBranch(Step(t, ops[0]), ops[1..]);
    }
  }

  /** On tables that safe runs reach nothing is its own ancestor, so every update's search ends. */
  lemma {:induction false} GuardAlwaysEnds(t: Table, ops: seq<Op>, id: int)
    requires Valid(t) && AllowedRun(t, ops)
    ensures forall rows :: Enumerates(rows, Run(t, ops)) ==> WalkEnds(Run(t, ops), rows, id)
  {
    RunsKeepOneRootPerBranch(t, ops);
    assert OffCycle(Run(t, ops), id);
    WalkEndsInAnyOrderIff(Run(t, ops), id);
  }

  /** A category can be hung under its own child; flagging it next is a search that never ends. */
  lemma {:induction false} ReparentingCanTrapTheGuard()
    ensures var ops := [CreateOp(1, CreateDto(None, false, CategoryNode, "a")),
                        CreateOp(2, CreateDto(Some(1), false, CategoryNode, "b")),
                        UpdateOp(1, UpdateDto(Some(Some(2)), None, None, None))];
            Run(map[], ops) == Knot()
    ensures LooksBelow(Knot(), 1, UpdateDto(None, Some(true), None, None))
    ensures forall rows :: Enumerates(rows, Knot()) ==> !WalkEnds(Knot(), rows, 1)
  {
    var first := CreateOp(1, CreateDto(None, false, CategoryNode, "a"));
    var second := CreateOp(2, CreateDto(Some(1), false, CategoryNode, "b"));
    var third := UpdateOp(1, UpdateDto(Some(Some(2)), None, None, None));
    var ops := [first, second, third];
    assert "a"[0] != "b"[0];
    var t1: Table := map[1 := Category(None, false, CategoryNode, "a")];
    var t2 := t1[2 := Category(Some(1), false, CategoryNode, "b")];
    assert Step(map[], first) == t1 && Step(t1, second) == t2 && Step(t2, third) == Knot();
    assert ops[1..] == [second, third] && ops[1..][1..] == [third] && [third][1..] == [];
    assert Run(map[], ops) == Run(t1, [second, third]) == Run(t2, [third]) == Run(Knot(), []);
    KnotIsCycle();
    forall rows | Enumerates(rows, Knot()) ensures !WalkEnds(Knot(), rows, 1) { UnflaggedWalkEndsIff(Knot(), rows, 1); }
  }

  // -- What is stored ---------------------------------------------------------

  /** A create is accepted exactly when its slug is unused, its parent exists, and a flag is asked for
      only on a plain category with no flag at or above the parent. */
  lemma {:induction false} CreateAcceptedIff(t: Table, id: int, dto: CreateDto)
    ensures CreateOutcome(t, id, dto).Ok? <==>
            && (forall c :: c in t ==> t[c].slug != dto.slug)
            && (dto.parent.Some? ==> dto.parent.value in t)
            && (dto.flag ==> dto.nodeType == CategoryNode &&
                             forall a :: dto.parent.Some? && Above(t, a, dto.parent.value) && a in t ==> !t[a].flag)
  {
    if CreateOutcome(t, id, dto).Ok? && dto.flag && dto.parent.Some? {
      forall a | Above(t, a, dto.parent.value) && a in t ensures !t[a].flag { assert !AncestorFlagged(t, dto.parent); }
    }
  }

  /** The new row holds what was asked for; every other row is as it was. */
  lemma {:induction false} CreateStores(t: Table, id: int, dto: CreateDto)
    requires CreateOutcome(t, id, dto).Ok?
    ensures var t' := CreateOutcome(t, id, dto).value;
            && t'.Keys == t.Keys + {id}
            && t'[id].parent == dto.parent && t'[id].flag == dto.flag
            && t'[id].nodeType == dto.nodeType && t'[id].slug == dto.slug
            && forall c :: c in t && c != id ==> t'[c] == t[c]
  {}

  /** Each field given is stored, each field absent stays; every other row is as it was. */
  lemma {:induction false} UpdateStores(t: Table, id: int, dto: UpdateDto)
    requires UpdateOutcome(t, id, dto).Ok?
    ensures var t' := UpdateOutcome(t, id, dto).value;
            && t'.Keys == t.Keys && id in t && (forall c :: c in t && c != id ==> t'[c] == t[c])
            && (if dto.parent.Some? then t'[id].parent == dto.parent.value else t'[id].parent == t[id].parent)
            && (if dto.flag.Some? then t'[id].flag == dto.flag.value else t'[id].flag == t[id].flag)
            && (if dto.nodeType.Some? then t'[id].nodeType == dto.nodeType.value else t'[id].nodeType == t[id].nodeType)
            && (if dto.slug.Some? then t'[id].slug == dto.slug.value else t'[id].slug == t[id].slug)
  {}

  /** Only the row asked for goes, and only a category without children. */
  lemma {:induction false} RemoveDelivers(t: Table, id: int)
    ensures RemoveOutcome(t, id).Ok? <==> id in t && forall c :: c in t ==> t[c].parent != Some(id)
    ensures RemoveOutcome(t, id).Ok? ==>
              var t' := RemoveOutcome(t, id).value;
              t'.Keys == t.Keys - {id} && forall c :: c in t' ==> t'[c] == t[c]
  {}
}
