/** The category table as a parent graph, and the two breadth-first closures over it. */
module CategoryGraph {
  import opened Wrappers

  datatype NodeType = CategoryNode | FilterNode | LabelNode
  datatype Category = Category(parent: Option<int>, flag: bool, nodeType: NodeType, slug: string)
  type Table = map<int, Category>

  function Parent(t: Table, c: int): Option<int> {
    if c in t then t[c].parent else None
  }

  /** The n-th node on the parent chain of c, counting c itself as the 0-th. */
  function Up(t: Table, c: int, n: nat): Option<int>
    decreases n
  {
    if n == 0 then Some(c)
    else match Parent(t, c) case None => None case Some(p) => Up(t, p, n - 1)
  }

  /** a is c or an ancestor of c. */
  ghost predicate Above(t: Table, a: int, c: int) {
    exists n: nat :: Up(t, c, n) == Some(a)
  }

  ghost predicate ProperlyAbove(t: Table, a: int, c: int) {
    Parent(t, c).Some? && Above(t, a, Parent(t, c).value)
  }

  ghost predicate OffCycle(t: Table, c: int) {
    !ProperlyAbove(t, c, c)
  }

  ghost predicate Acyclic(t: Table) {
    forall c :: OffCycle(t, c)
  }

  // -- Chains -----------------------------------------------------------------

  lemma {:induction false} AboveSelf(t: Table, c: int)
    ensures Above(t, c, c)
  {
    assert Up(t, c, 0) == Some(c);
  }

  lemma {:induction false} ProperIsAbove(t: Table, a: int, c: int)
    requires ProperlyAbove(t, a, c)
    ensures Above(t, a, c)
  {
    var n: nat :| Up(t, Parent(t, c).value, n) == Some(a);
    assert Up(t, c, n + 1) == Some(a);
  }

  lemma {:induction false} AboveCases(t: Table, a: int, c: int)
    ensures Above(t, a, c) <==> a == c || ProperlyAbove(t, a, c)
  {
    AboveSelf(t, c);
    if ProperlyAbove(t, a, c) { ProperIsAbove(t, a, c); }
    if Above(t, a, c) && a != c {
      var n: nat :| Up(t, c, n) == Some(a);
      assert Up(t, Parent(t, c).value, n - 1) == Some(a);
    }
  }

  lemma {:induction false} UpAdd(t: Table, c: int, m: nat, n: nat)
    ensures Up(t, c, m + n) == match Up(t, c, m) case None => None case Some(b) => Up(t, b, n)
    decreases m
  {
    if m > 0 && Parent(t, c).Some? { UpAdd(t, Parent(t, c).value, m - 1, n); }
  }

  lemma {:induction false} AboveTrans(t: Table, a: int, b: int, c: int)
    requires Above(t, a, b) && Above(t, b, c)
    ensures Above(t, a, c)
  {
    var m: nat :| Up(t, c, m) == Some(b);
    var n: nat :| Up(t, b, n) == Some(a);
    UpAdd(t, c, m, n);
  }

  // -- Cycles -----------------------------------------------------------------

  lemma {:induction false} UpMul(t: Table, c: int, period: nat, n: nat)
    requires Up(t, c, period) == Some(c)
    ensures Up(t, c, n * period) == Some(c)
  {
    if n > 0 {
      UpMul(t, c, period, n - 1);
      UpAdd(t, c, (n - 1) * period, period);
      assert n * period == (n - 1) * period + period;
    }
  }

  /** A node above its own parent's ... parent chain back to c closes a cycle through c. */
  lemma {:induction false} LoopBack(t: Table, a: int, c: int)
    requires Above(t, a, c) && Parent(t, a) == Some(c)
    ensures ProperlyAbove(t, c, c)
  {
    var n: nat :| Up(t, c, n) == Some(a);
    UpAdd(t, c, n, 1);
    assert Up(t, a, 1) == Some(c);
    assert Up(t, Parent(t, c).value, n) == Some(c);
  }

  lemma {:induction false} Period(t: Table, c: int) returns (period: nat)
    requires ProperlyAbove(t, c, c)
    ensures period > 0 && Up(t, c, period) == Some(c)
  {
    var n: nat :| Up(t, Parent(t, c).value, n) == Some(c);
    period := n + 1;
  }

  /** Every node above a root that lies on a cycle has a child that is above the root, too. */
  lemma {:induction false} CycleChild(t: Table, root: int, y: int) returns (x: int)
    requires ProperlyAbove(t, root, root) && Above(t, y, root)
    ensures Parent(t, x) == Some(y) && Above(t, x, root)
  {
    var period := Period(t, root);
    var m: nat :| Up(t, root, m) == Some(y);
    var k: nat := if m == 0 then period else m;
    UpAdd(t, root, k - 1, 1);
    x := Up(t, root, k - 1).value;
    assert Up(t, x, 1) == Some(y);
  }

  /** No two children of a node are both on a cycle. */
  lemma {:induction false} OneCycleChild(t: Table, x: int, z: int)
    requires Parent(t, x).Some? && Parent(t, x) == Parent(t, z)
    requires ProperlyAbove(t, x, x) && ProperlyAbove(t, z, z)
    ensures x == z
  {
    var a := Period(t, x);
    var b := Period(t, z);
    UpMul(t, x, a, b);
    UpMul(t, z, b, a);
    assert a * b == b * a > 0;
    assert Up(t, x, a * b) == Up(t, Parent(t, x).value, a * b - 1) == Up(t, z, a * b);
  }

  // -- Rows as the database returns them --------------------------------------

  ghost predicate NoDup(s: seq<int>) {
    forall i, j :: 0 <= i < j < |s| ==> s[i] != s[j]
  }

  /** rows lists every key of the table once, in whatever order the database chose. */
  ghost predicate Enumerates(rows: seq<int>, t: Table) {
    NoDup(rows) && forall c :: c in rows <==> c in t
  }

  predicate IsChildOf(t: Table, c: int, ids: seq<int>) {
    Parent(t, c).Some? && Parent(t, c).value in ids
  }

  /** SELECT id FROM category WHERE parent IN (ids). */
  function ChildRows(t: Table, rows: seq<int>, ids: seq<int>): (r: seq<int>)
    ensures forall c :: c in r <==> c in rows && IsChildOf(t, c, ids)
    ensures NoDup(rows) ==> NoDup(r)
  {
    if rows == [] then []
    else if IsChildOf(t, rows[0], ids) then [rows[0]] + ChildRows(t, rows[1..], ids)
    else ChildRows(t, rows[1..], ids)
  }

  /** A set that holds the root and every child of its members holds everything below the root. */
  lemma {:induction false} ClosedHoldsBelow(t: Table, root: int, s: set<int>, d: int, n: nat)
    requires root in s
    requires forall c :: c in t && t[c].parent.Some? && t[c].parent.value in s ==> c in s
    requires Up(t, d, n) == Some(root)
    ensures d in s
    decreases n
  {
    if n > 0 { ClosedHoldsBelow(t, root, s, t[d].parent.value, n - 1); }
  }

  lemma {:induction false} ClosedIsBelow(t: Table, root: int, s: set<int>)
    requires root in s
    requires forall x :: x in s ==> Above(t, root, x)
    requires forall c :: c in t && t[c].parent.Some? && t[c].parent.value in s ==> c in s
    ensures forall d :: d in s <==> Above(t, root, d)
  {
    forall d | Above(t, root, d) ensures d in s {
      var n: nat :| Up(t, d, n) == Some(root);
      ClosedHoldsBelow(t, root, s, d, n);
    }
  }

  lemma {:induction false} ChildIsBelow(t: Table, root: int, c: int)
    requires Parent(t, c).Some? && Above(t, root, Parent(t, c).value)
    ensures Above(t, root, c)
  {
    ProperIsAbove(t, root, c);
  }

  // -- BFS with a visited set (compatibility engine) --------------------------

  /** Ends on every table, cyclic ones included, with exactly the root and what lies below it. */
  method ResolveDescendantIds(t: Table, rows: seq<int>, rootId: int) returns (result: set<int>)
    requires Enumerates(rows, t)
    ensures forall d :: d in result <==> Above(t, rootId, d)
  {
    result := {rootId};
    var frontier := [rootId];
    AboveSelf(t, rootId);
    while |frontier| > 0
      invariant rootId in result
      invariant forall x :: x in result ==> Above(t, rootId, x)
      invariant forall x :: x in frontier ==> x in result
      invariant forall c :: c in t && t[c].parent.Some? && t[c].parent.value in result
                            ==> c in result || t[c].parent.value in frontier
      decreases t.Keys - result, |frontier|
    {
      var children := ChildRows(t, rows, frontier);
      var next := [];
      ghost var before := result;
      for i := 0 to |children|
        invariant before <= result
        invariant forall x :: x in result <==> x in before || x in children[..i]
        invariant forall x :: x in next ==> x in result && x in t && x !in before
        invariant forall x :: x in result && x !in before ==> x in next
      {
        if children[i] !in result {
          result := result + {children[i]};
          next := next + [children[i]];
        }
      }
      forall x | x in children ensures Above(t, rootId, x) { ChildIsBelow(t, rootId, x); }
      assert children[..|children|] == children;
      if next == [] {
        assert forall x :: x in result ==> x in before;
        assert result == before;
      } else {
        ghost var z := next[0];
        assert z in next;
        assert z in t.Keys - before && z !in t.Keys - result;
      }
      forall c | c in t && t[c].parent.Some? && t[c].parent.value in result
        ensures c in result || t[c].parent.value in next
      {
        var p := t[c].parent.value;
        if p in before && c !in before {
          assert c in rows && IsChildOf(t, c, frontier);
          assert c in children;
        }
      }
      frontier := next;
    }
    ClosedIsBelow(t, rootId, result);
  }

  // -- BFS without a visited set (product search) -----------------------------

  /** What holds between rounds: done has been expanded, queue has not, ids lists both once. */
  ghost predicate BfsState(t: Table, root: int, ids: seq<int>, queue: seq<int>, done: set<int>) {
    && NoDup(ids) && root in ids
    && (forall x :: x in ids <==> x in done || x in queue)
    && (forall x :: x in queue ==> x !in done)
    && (forall x :: x in ids ==> Above(t, root, x))
    && (forall x :: x in ids && x != root ==> x in t && t[x].parent.Some? && t[x].parent.value in done)
    && (forall c :: c in t && t[c].parent.Some? && t[c].parent.value in done ==> c in ids)
  }

  lemma {:induction false} NoDupAppend(a: seq<int>, b: seq<int>)
    requires NoDup(a) && NoDup(b)
    requires forall x :: x in b ==> x !in a
    ensures NoDup(a + b)
  {
    forall i, j | 0 <= i < j < |a + b| ensures (a + b)[i] != (a + b)[j] {
      if i < |a| <= j { assert a[i] in a && b[j - |a|] in b; }
    }
  }

  lemma {:induction false} BfsRound(t: Table, rows: seq<int>, root: int, ids: seq<int>, queue: seq<int>, done: set<int>)
    requires Enumerates(rows, t) && OffCycle(t, root)
    requires BfsState(t, root, ids, queue, done)
    ensures var next := ChildRows(t, rows, queue);
            BfsState(t, root, ids + next, next, done + set x | x in queue)
  {
    var next := ChildRows(t, rows, queue);
    forall x | x in next ensures Above(t, root, x) && x !in ids {
      ChildIsBelow(t, root, x);
    }
    NoDupAppend(ids, next);
  }

  /** Run exactly where it ends (see LevelsEndIff): lists the root and everything below it, nothing twice. */
  method ResolveDescendantIdsUnguarded(t: Table, rows: seq<int>, rootId: int) returns (ids: seq<int>)
    requires Enumerates(rows, t)
    requires OffCycle(t, rootId)
    ensures forall d :: d in ids <==> Above(t, rootId, d)
    ensures NoDup(ids)
  {
    ids := [rootId];
    var queue := [rootId];
    ghost var done: set<int> := {};
    AboveSelf(t, rootId);
    while |queue| > 0
      invariant BfsState(t, rootId, ids, queue, done)
      decreases t.Keys + {rootId} - done
    {
      BfsRound(t, rows, rootId, ids, queue, done);
      ghost var expanded := done + set x | x in queue;
      ghost var z := queue[0];
      assert z in queue && z in ids;
      assert z in t.Keys + {rootId} - done && z in expanded;
      queue := ChildRows(t, rows, queue);
      ids := ids + queue;
      done := expanded;
    }
    ClosedIsBelow(t, rootId, set x | x in ids);
    assert forall d :: d in ids <==> d in set x | x in ids;
  }

  /** The queue of the unguarded search after n rounds. */
  function Level(t: Table, rows: seq<int>, root: int, n: nat): seq<int> {
    if n == 0 then [root] else ChildRows(t, rows, Level(t, rows, root, n - 1))
  }

  lemma {:induction false} OnCycleLevelHasAncestor(t: Table, rows: seq<int>, root: int, n: nat)
    returns (x: int)
    requires Enumerates(rows, t) && ProperlyAbove(t, root, root)
    ensures x in Level(t, rows, root, n) && Above(t, x, root)
  {
    if n == 0 {
      x := root;
      AboveSelf(t, root);
    } else {
      var y := OnCycleLevelHasAncestor(t, rows, root, n - 1);
      x := CycleChild(t, root, y);
    }
  }

  lemma {:induction false} OffCycleLevelsEnd(t: Table, rows: seq<int>, root: int, n: nat,
                                             ids: seq<int>, done: set<int>) returns (m: nat)
    requires Enumerates(rows, t) && OffCycle(t, root)
    requires BfsState(t, root, ids, Level(t, rows, root, n), done)
    ensures Level(t, rows, root, m) == []
    decreases t.Keys + {root} - done
  {
    var queue := Level(t, rows, root, n);
    if queue == [] {
      m := n;
    } else {
      BfsRound(t, rows, root, ids, queue, done);
      var next := Level(t, rows, root, n + 1);
      var expanded := done + set x | x in queue;
      var z := queue[0];
      assert z in queue && z in ids;
      assert z in t.Keys + {root} - done && z in expanded;
      m := OffCycleLevelsEnd(t, rows, root, n + 1, ids + next, expanded);
    }
  }

  /** The unguarded search runs out of queue exactly when its root is not its own ancestor. */
  lemma {:induction false} LevelsEndIff(t: Table, rows: seq<int>, root: int)
    requires Enumerates(rows, t)
    ensures (exists n: nat :: Level(t, rows, root, n) == []) <==> OffCycle(t, root)
  {
    if OffCycle(t, root) {
      AboveSelf(t, root);
      var m := OffCycleLevelsEnd(t, rows, root, 0, [root], {});
    } else {
      forall n: nat ensures Level(t, rows, root, n) != [] {
        var x := OnCycleLevelHasAncestor(t, rows, root, n);
      }
    }
  }

  /** Two categories hung under each other. */
  function Knot(): Table {
    map[1 := Category(Some(2), false, CategoryNode, "a"), 2 := Category(Some(1), false, CategoryNode, "b")]
  }

  lemma {:induction false} KnotIsCycle()
    ensures !OffCycle(Knot(), 1)
  {
    assert Up(Knot(), 2, 1) == Some(1);
  }

  /** The unguarded search from one of them never runs out of queue. */
  lemma {:induction false} SearchCanGoOnForever(rows: seq<int>, n: nat)
    requires Enumerates(rows, Knot())
    ensures Level(Knot(), rows, 1, n) != []
  {
    KnotIsCycle();
    LevelsEndIff(Knot(), rows, 1);
  }
}
