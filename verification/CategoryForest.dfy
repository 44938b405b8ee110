/**
 Parent pointers between categories: walks towards the root, acyclicity, and what one changed
 pointer does to it.
*/
module CategoryForest {
  import opened Wrappers

  type Parents = map<string, Option<string>>

  /** The category reached from `x` after `n` steps to the parent, if the walk gets that far. */
  function Walk(p: Parents, x: string, n: nat): Option<string>
    decreases n
  {
    if n == 0 then Some(x)
    else if x in p && p[x].Some? then Walk(p, p[x].value, n - 1)
    else None
  }

  ghost predicate Acyclic(p: Parents) {
    forall x, n: nat :: n > 0 ==> Walk(p, x, n) != Some(x)
  }

  /** `x` is `top` or one of its descendants. */
  ghost predicate Below(p: Parents, x: string, top: string) {
    exists n :: Walk(p, x, n) == Some(top)
  }

  ghost predicate Closed(p: Parents) {
    forall x :: x in p && p[x].Some? ==> p[x].value in p
  }

  lemma {:induction false} WalkOn(p: Parents, x: string, m: nat, n: nat)
    requires Walk(p, x, m).Some?
    ensures Walk(p, x, m + n) == Walk(p, Walk(p, x, m).value, n)
    decreases m
  {
    if m > 0 { WalkOn(p, p[x].value, m - 1, n); }
  }

  lemma {:induction false} WalkStaysInside(p: Parents, x: string, n: nat)
    requires Closed(p) && x in p && Walk(p, x, n).Some?
    ensures Walk(p, x, n).value in p
    decreases n
  {
    if n > 0 { WalkStaysInside(p, p[x].value, n - 1); }
  }

  // ----- Changing one pointer --------------------------------------------------------------------------

  /** The two maps have the same pointers everywhere but at `x`. */
  ghost predicate DifferAt(p: Parents, q: Parents, x: string) {
    forall y :: y != x ==> (y in p <==> y in q) && (y in p ==> p[y] == q[y])
  }

  lemma {:induction false} WalkAround(p: Parents, q: Parents, x: string, y: string, n: nat)
    requires DifferAt(p, q, x) && forall m: nat :: m < n ==> Walk(p, y, m) != Some(x)
    ensures Walk(p, y, n) == Walk(q, y, n)
    decreases n
  {
    if n > 0 {
      assert Walk(p, y, 0) == Some(y);
      if y in p && p[y].Some? {
        forall m: nat | m < n - 1 ensures Walk(p, p[y].value, m) != Some(x) {
          assert Walk(p, y, m + 1) == Walk(p, p[y].value, m);
        }
        WalkAround(p, q, x, p[y].value, n - 1);
      }
    }
  }

  lemma {:induction false} FirstVisit(p: Parents, y: string, x: string, n: nat) returns (k: nat)
    requires Walk(p, y, n) == Some(x)
    ensures k <= n && Walk(p, y, k) == Some(x) && forall m: nat :: m < k ==> Walk(p, y, m) != Some(x)
  {
    k := 0;
    while Walk(p, y, k) != Some(x)
      invariant k <= n && forall m: nat :: m < k ==> Walk(p, y, m) != Some(x)
      decreases n - k
    {
      k := k + 1;
    }
  }

  /** A cycle of the changed map that passes through `x` shows that the new parent was below `x`. */
  lemma CycleComesFromBelow(p: Parents, x: string, parent: string, y: string, n: nat)
    requires Acyclic(p) && n > 0
    requires var q := p[x := Some(parent)]; Walk(q, y, n) == Some(y)
    ensures Below(p, parent, x)
  {
    var q := p[x := Some(parent)];
    if m: nat :| m < n && Walk(q, y, m) == Some(x) {
      WalkOn(q, y, m, n - m);
      WalkOn(q, x, n - m, m);
      assert Walk(q, x, n) == Some(x);
      var k := FirstVisit(q, parent, x, n - 1);
      WalkAround(q, p, x, parent, k);
    } else {
      WalkAround(q, p, x, y, n);
      assert false;
    }
  }

  /**
   Making `parent` the parent of `x` keeps a forest acyclic exactly when `parent` is neither `x`
   nor one of the descendants of `x`.
  */
  lemma ReparentingExactly(p: Parents, x: string, parent: string)
    requires Acyclic(p)
    ensures Acyclic(p[x := Some(parent)]) <==> !Below(p, parent, x)
  {
    var q := p[x := Some(parent)];
    if n: nat :| Walk(p, parent, n) == Some(x) {
      var k := FirstVisit(p, parent, x, n);
      WalkAround(p, q, x, parent, k);
      assert Walk(q, x, k + 1) == Some(x);
    }
    if y, n: nat :| n > 0 && Walk(q, y, n) == Some(y) {
      CycleComesFromBelow(p, x, parent, y, n);
    }
  }

  /** A category that nobody points to can get any existing parent. */
  lemma NewChildIsHarmless(p: Parents, x: string, parent: string)
    requires Acyclic(p) && Closed(p) && x !in p && parent in p
    ensures Acyclic(p[x := Some(parent)])
  {
    if n :| Walk(p, parent, n) == Some(x) {
      WalkStaysInside(p, parent, n);
    }
    ReparentingExactly(p, x, parent);
  }

  lemma {:induction false} FewerPointersWalk(p: Parents, q: Parents, x: string, n: nat)
    requires forall y :: y in q && q[y].Some? ==> y in p && p[y] == q[y]
    requires Walk(q, x, n).Some?
    ensures Walk(p, x, n) == Walk(q, x, n)
    decreases n
  {
    if n > 0 { FewerPointersWalk(p, q, q[x].value, n - 1); }
  }

  /** Dropping pointers, or adding a root, closes no cycle. */
  lemma FewerPointers(p: Parents, q: Parents)
    requires Acyclic(p) && forall y :: y in q && q[y].Some? ==> y in p && p[y] == q[y]
    ensures Acyclic(q)
  {
    if x, n: nat :| n > 0 && Walk(q, x, n) == Some(x) {
      FewerPointersWalk(p, q, x, n);
    }
  }

  // ----- Descendants ---------------------------------------------------------------------------------------

  /** The proper descendants; they shrink from a category to its children. */
  ghost function Descendants(p: Parents, top: string): set<string> {
    set y | y in p && y != top && Below(p, y, top)
  }

  lemma ChildrenHaveFewer(p: Parents, top: string, child: string)
    requires Acyclic(p) && child in p && p[child] == Some(top)
    ensures Descendants(p, child) < Descendants(p, top)
  {
    assert Walk(p, child, 1) == Walk(p, top, 0) == Some(top);
    assert child in Descendants(p, top);
    forall y | y in Descendants(p, child) ensures y in Descendants(p, top) {
      var n: nat :| Walk(p, y, n) == Some(child);
      WalkOn(p, y, n, 1);
      assert Walk(p, y, n + 1) == Some(top);
    }
  }
}
