/** Walks up the parent links of the descendant owner map, which may be cyclic. */
module ParentChains {
  import opened Common
  import opened Graphs
  import opened ArchitecturePacket

  type Parents = map<Id, Option<Id>>

  /** A chain that repeats a node inside the map goes round forever. */
  lemma {:induction false} RepeatIsEndless(parentOf: Parents, start: Id, i: nat, j: nat, n: nat)
    requires i < j && ChainAt(parentOf, start, i) == ChainAt(parentOf, start, j)
    requires forall k: nat :: k < j ==> InMapAt(parentOf, start, k)
    ensures InMapAt(parentOf, start, n)
    decreases n
  {
    if n >= j {
      RepeatIsEndless(parentOf, start, i, j, n - (j - i));
      SameAfterwards(parentOf, start, i, j, n - j);
    }
  }

  lemma {:induction false} SameAfterwards(parentOf: Parents, start: Id, i: nat, j: nat, n: nat)
    requires ChainAt(parentOf, start, i) == ChainAt(parentOf, start, j)
    ensures ChainAt(parentOf, start, i + n) == ChainAt(parentOf, start, j + n)
    decreases n
  {
    if n > 0 {
      SameAfterwards(parentOf, start, i, j, n - 1);
      assert ChainAt(parentOf, start, i + n - 1) == ChainAt(parentOf, start, j + n - 1);
    }
  }

  /** Once the chain has left the map it has no further node. */
  lemma {:induction false} LeftForGood(parentOf: Parents, start: Id, i: nat, n: nat)
    requires i < n && !InMapAt(parentOf, start, i)
    ensures ChainAt(parentOf, start, n) == None
    decreases n
  {
    if n > i + 1 {
      LeftForGood(parentOf, start, i, n - 1);
    }
  }

  /** `visited` holds exactly the chain's nodes number `from` to `n - 1`. */
  ghost predicate Visits(parentOf: Parents, start: Id, from: nat, n: nat, visited: set<Id>) {
    && (forall k: nat :: from <= k < n ==>
          ChainAt(parentOf, start, k).Some? && ChainAt(parentOf, start, k).value in visited)
    && forall a :: a in visited ==> exists k: nat :: from <= k < n && ChainAt(parentOf, start, k) == Some(a)
  }

  lemma VisitOne(parentOf: Parents, start: Id, from: nat, n: nat, visited: set<Id>)
    requires Visits(parentOf, start, from, n, visited) && from <= n && ChainAt(parentOf, start, n).Some?
    ensures Visits(parentOf, start, from, n + 1, visited + {ChainAt(parentOf, start, n).value})
  {
  }

  /** Whether the walk from `start` comes back on itself: exactly when it never ends. */
  method WalkRepeats(parentOf: Parents, start: Id) returns (repeats: bool)
    ensures repeats <==> Endless(parentOf, start)
  {
    var seen: set<Id> := {};
    var current := Some(start);
    ghost var n: nat := 0;
    while current.Some? && current.value in parentOf
      invariant current == ChainAt(parentOf, start, n)
      invariant forall k: nat :: k < n ==> InMapAt(parentOf, start, k)
      invariant Visits(parentOf, start, 0, n, seen) && seen <= parentOf.Keys
      decreases parentOf.Keys - seen
    {
      if current.value in seen {
        RevisitIsEndless(parentOf, start, n, seen);
        return true;
      }
      assert InMapAt(parentOf, start, n);
      VisitOne(parentOf, start, 0, n, seen);
      seen := seen + {current.value};
      current := parentOf[current.value];
      n := n + 1;
    }
    assert !InMapAt(parentOf, start, n);
    return false;
  }

  lemma RevisitIsEndless(parentOf: Parents, start: Id, n: nat, seen: set<Id>)
    requires Visits(parentOf, start, 0, n, seen)
    requires ChainAt(parentOf, start, n).Some? && ChainAt(parentOf, start, n).value in seen
    requires forall k: nat :: k < n ==> InMapAt(parentOf, start, k)
    ensures Endless(parentOf, start)
  {
    var k: nat :| k < n && ChainAt(parentOf, start, k) == ChainAt(parentOf, start, n);
    forall m: nat
      ensures InMapAt(parentOf, start, m)
    {
      RepeatIsEndless(parentOf, start, k, n, m);
    }
  }

  /** All proper ancestors of `start`; terminates even when the links are cyclic. */
  method AncestorsOf(parentOf: Parents, start: Id) returns (visited: set<Id>)
    ensures forall a :: a in visited <==> Ancestor(parentOf, start, a)
  {
    visited := {};
    var parent := if start in parentOf then parentOf[start] else None;
    ghost var n: nat := 1;
    ghost var bound := {start} + set x | x in parentOf && parentOf[x].Some? :: parentOf[x].value;
    assert ChainAt(parentOf, start, 0) == Some(start);
    while parent.Some? && parent.value !in visited
      invariant n >= 1 && parent == ChainAt(parentOf, start, n)
      invariant parent.Some? ==> parent.value in bound
      invariant Visits(parentOf, start, 1, n, visited) && visited <= bound
      decreases bound - visited
    {
      VisitOne(parentOf, start, 1, n, visited);
      visited := visited + {parent.value};
      parent := if parent.value in parentOf then parentOf[parent.value] else None;
      n := n + 1;
    }
    forall a | Ancestor(parentOf, start, a)
      ensures a in visited
    {
      var m: nat :| m >= 1 && ChainAt(parentOf, start, m) == Some(a);
      NothingLater(parentOf, start, n, m, visited);
    }
  }

  /** When the walk stops, every later node was already visited. */
  lemma {:induction false} NothingLater(parentOf: Parents, start: Id, n: nat, m: nat, visited: set<Id>)
    requires n >= 1 && m >= 1 && ChainAt(parentOf, start, m).Some?
    requires ChainAt(parentOf, start, n).None? || ChainAt(parentOf, start, n).value in visited
    requires Visits(parentOf, start, 1, n, visited)
    ensures ChainAt(parentOf, start, m).value in visited
    decreases m
  {
    if m >= n {
      if ChainAt(parentOf, start, n).None? {
        assert !InMapAt(parentOf, start, n);
        if m > n {
          LeftForGood(parentOf, start, n, m);
        }
      } else {
        var k: nat :| 1 <= k < n && ChainAt(parentOf, start, k) == ChainAt(parentOf, start, n);
        SameAfterwards(parentOf, start, k, n, m - n);
        NothingLater(parentOf, start, n, k + (m - n), visited);
      }
    }
  }

  /** A chain that ends stops at a root or just outside the map. */
  lemma EndsSomewhere(parentOf: Parents, start: Id)
    requires start in parentOf && !Endless(parentOf, start)
    ensures exists top: Id :: top in parentOf && (top == start || Ancestor(parentOf, start, top)) &&
                              (parentOf[top].None? || parentOf[top].value !in parentOf)
  {
    var n: nat :| !InMapAt(parentOf, start, n);
    var k := FirstOutside(parentOf, start, n);
    var top := ChainAt(parentOf, start, k - 1).value;
    assert top == start || Ancestor(parentOf, start, top);
  }

  lemma {:induction false} FirstOutside(parentOf: Parents, start: Id, n: nat) returns (k: nat)
    requires start in parentOf && !InMapAt(parentOf, start, n)
    ensures 1 <= k <= n && !InMapAt(parentOf, start, k) && InMapAt(parentOf, start, k - 1)
    decreases n
  {
    assert InMapAt(parentOf, start, 0);
    if InMapAt(parentOf, start, n - 1) {
      k := n;
    } else {
      k := FirstOutside(parentOf, start, n - 1);
    }
  }
}
