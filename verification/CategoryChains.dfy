/** Chains of parents. */
module CategoryChains {
  import opened Wrappers

  // A parent relation maps each listed category to its parent, or to None for a root;
  // nothing forbids loops. These lemmas say which categories hang from a root, what a loop
  // costs, and what moving one category does to all the others.

  type Id = string

  type Parents = map<Id, Option<Id>>

  predicate Closed(p: Parents) {
    forall x :: x in p && p[x].Some? ==> p[x].value in p
  }

  /** d steps up from x end at a root. */
  predicate HasDepth(p: Parents, x: Id, d: nat)
    decreases d
  {
    x in p && if d == 0 then p[x].None? else p[x].Some? && HasDepth(p, p[x].value, d - 1)
  }

  ghost predicate Rooted(p: Parents, x: Id) {
    exists d: nat :: HasDepth(p, x, d)
  }

  /** n steps up from x lead to a. */
  predicate Reaches(p: Parents, x: Id, a: Id, n: nat)
    decreases n
  {
    if n == 0 then x == a else x in p && p[x].Some? && Reaches(p, p[x].value, a, n - 1)
  }

  /** x is a or one of its descendants. */
  ghost predicate UpTo(p: Parents, x: Id, a: Id) {
    exists n: nat :: Reaches(p, x, a, n)
  }

  /** x is a strict descendant of a. */
  ghost predicate Below(p: Parents, x: Id, a: Id) {
    exists n: nat :: n > 0 && Reaches(p, x, a, n)
  }

  ghost predicate AllRooted(p: Parents) {
    forall x :: x in p ==> Rooted(p, x)
  }

  // ---------- depth ----------

  lemma {:induction false} DepthUnique(p: Parents, x: Id, d: nat, e: nat)
    requires HasDepth(p, x, d) && HasDepth(p, x, e)
    ensures d == e
    decreases d
  {
    if d > 0 {
      DepthUnique(p, p[x].value, d - 1, e - 1);
    }
  }

  lemma {:induction false} DepthAbove(p: Parents, x: Id, d: nat, a: Id, n: nat)
    requires HasDepth(p, x, d) && Reaches(p, x, a, n)
    ensures n <= d && HasDepth(p, a, d - n)
    decreases n
  {
    if n > 0 {
      DepthAbove(p, p[x].value, d - 1, a, n - 1);
    }
  }

  lemma {:induction false} DepthBelow(p: Parents, x: Id, a: Id, n: nat, d: nat)
    requires Reaches(p, x, a, n) && HasDepth(p, a, d)
    ensures HasDepth(p, x, d + n)
    decreases n
  {
    if n > 0 {
      DepthBelow(p, p[x].value, a, n - 1, d);
    }
  }

  lemma {:induction false} ReachesTrans(p: Parents, x: Id, a: Id, n: nat, b: Id, m: nat)
    requires Reaches(p, x, a, n) && Reaches(p, a, b, m)
    ensures Reaches(p, x, b, n + m)
    decreases n
  {
    if n > 0 {
      ReachesTrans(p, p[x].value, a, n - 1, b, m);
    }
  }

  /** The last step of a way up. */
  lemma {:induction false} LastStep(p: Parents, x: Id, a: Id, n: nat) returns (y: Id)
    requires n > 0 && Reaches(p, x, a, n)
    ensures y in p && p[y] == Some(a) && Reaches(p, x, y, n - 1)
    decreases n
  {
    if n == 1 {
      y := x;
    } else {
      y := LastStep(p, p[x].value, a, n - 1);
    }
  }

  lemma {:induction false} SameSteps(p: Parents, x: Id, a: Id, b: Id, n: nat)
    requires Reaches(p, x, a, n) && Reaches(p, x, b, n)
    ensures a == b
    decreases n
  {
    if n > 0 {
      SameSteps(p, p[x].value, a, b, n - 1);
    }
  }

  /** A category that hangs from a root is not its own ancestor. */
  lemma NoLoop(p: Parents, x: Id)
    requires Rooted(p, x)
    ensures !Below(p, x, x)
  {
    var d: nat :| HasDepth(p, x, d);
    forall n: nat | n > 0 ensures !Reaches(p, x, x, n) {
      if Reaches(p, x, x, n) {
        DepthAbove(p, x, d, x, n);
        DepthUnique(p, x, d, d - n);
      }
    }
  }

  /** The chain of x up to its root. */
  function Chain(p: Parents, x: Id, d: nat): set<Id>
    requires HasDepth(p, x, d)
    decreases d
  {
    {x} + if d == 0 then {} else Chain(p, p[x].value, d - 1)
  }

  lemma {:induction false} ChainDepths(p: Parents, x: Id, d: nat, y: Id)
    requires HasDepth(p, x, d) && y in Chain(p, x, d)
    ensures y in p && exists e: nat :: e <= d && HasDepth(p, y, e)
    decreases d
  {
    if y != x {
      ChainDepths(p, p[x].value, d - 1, y);
    }
  }

  lemma {:induction false} ChainSize(p: Parents, x: Id, d: nat)
    requires HasDepth(p, x, d)
    ensures |Chain(p, x, d)| == d + 1 && Chain(p, x, d) <= p.Keys
    decreases d
  {
    if d > 0 {
      ChainSize(p, p[x].value, d - 1);
      if x in Chain(p, p[x].value, d - 1) {
        ChainDepths(p, p[x].value, d - 1, x);
        var e: nat :| e <= d - 1 && HasDepth(p, x, e);
        DepthUnique(p, x, d, e);
      }
    }
  }

  lemma SubsetSize<T>(a: set<T>, b: set<T>)
    requires a <= b
    ensures |a| <= |b|
  {
    assert b == a + (b - a);
  }

  /** No chain to a root is longer than the list. */
  lemma DepthBound(p: Parents, x: Id, d: nat)
    requires HasDepth(p, x, d)
    ensures d < |p|
  {
    ChainSize(p, x, d);
    SubsetSize(Chain(p, x, d), p.Keys);
    assert |p.Keys| == |p|;
  }

  // ---------- loops ----------

  ghost predicate RunsIntoLoop(p: Parents, x: Id) {
    exists a :: UpTo(p, x, a) && Below(p, a, a)
  }

  lemma {:induction false} Climb(p: Parents, x: Id, seen: set<Id>)
    requires Closed(p) && x in p && seen <= p.Keys
    requires forall s :: s in seen ==> Below(p, s, x)
    ensures Rooted(p, x) || RunsIntoLoop(p, x)
    decreases p.Keys - seen
  {
    assert Reaches(p, x, x, 0);
    if x in seen {
      assert UpTo(p, x, x);
    } else if p[x].None? {
      assert HasDepth(p, x, 0);
    } else {
      var up := p[x].value;
      assert Reaches(p, up, up, 0) && Reaches(p, x, up, 1);
      forall s | s in seen + {x} ensures Below(p, s, up) {
        if s in seen {
          var n: nat :| n > 0 && Reaches(p, s, x, n);
          ReachesTrans(p, s, x, n, up, 1);
        }
      }
      Climb(p, up, seen + {x});
      if Rooted(p, up) {
        var d: nat :| HasDepth(p, up, d);
        assert HasDepth(p, x, d + 1);
      } else {
        var a :| UpTo(p, up, a) && Below(p, a, a);
        var n: nat :| Reaches(p, up, a, n);
        assert Reaches(p, x, a, n + 1);
      }
    }
  }

  /** A chain ends at a root exactly when it does not run into a loop. */
  lemma RootedIffNoLoop(p: Parents, x: Id)
    requires Closed(p) && x in p
    ensures Rooted(p, x) <==> !RunsIntoLoop(p, x)
  {
    Climb(p, x, {});
    if Rooted(p, x) && RunsIntoLoop(p, x) {
      var a :| UpTo(p, x, a) && Below(p, a, a);
      var n: nat :| Reaches(p, x, a, n);
      var d: nat :| HasDepth(p, x, d);
      DepthAbove(p, x, d, a, n);
      NoLoop(p, a);
    }
  }

  // ---------- moving one category ----------

  /** What is not under i keeps its chain. */
  lemma {:induction false} DepthUntouched(p: Parents, q: Parents, i: Id, x: Id, d: nat)
    requires i in p && q.Keys == p.Keys && forall y :: y in p && y != i ==> q[y] == p[y]
    requires !UpTo(p, x, i)
    ensures HasDepth(q, x, d) <==> HasDepth(p, x, d)
    decreases d
  {
    assert Reaches(p, i, i, 0);
    if d > 0 && x in p && p[x].Some? {
      if n: nat :| Reaches(p, p[x].value, i, n) {
        assert Reaches(p, x, i, n + 1);
      }
      DepthUntouched(p, q, i, p[x].value, d - 1);
    }
  }

  /** What is under i still is: its way up to i does not use the link of i. */
  lemma {:induction false} StillUpTo(p: Parents, q: Parents, i: Id, x: Id, n: nat)
    requires i in p && q.Keys == p.Keys && forall y :: y in p && y != i ==> q[y] == p[y]
    requires Reaches(p, x, i, n)
    ensures UpTo(q, x, i)
    decreases n
  {
    if x == i {
      assert Reaches(q, x, i, 0);
    } else {
      StillUpTo(p, q, i, p[x].value, n - 1);
      var m: nat :| Reaches(q, p[x].value, i, m);
      assert Reaches(q, x, i, m + 1);
    }
  }

  lemma RootedAlong(p: Parents, x: Id, a: Id)
    requires UpTo(p, x, a)
    ensures Rooted(p, x) <==> Rooted(p, a)
  {
    var n: nat :| Reaches(p, x, a, n);
    if Rooted(p, x) {
      var d: nat :| HasDepth(p, x, d);
      DepthAbove(p, x, d, a, n);
    } else if Rooted(p, a) {
      var d: nat :| HasDepth(p, a, d);
      DepthBelow(p, x, a, n, d);
    }
  }

  /** The new place of i hangs from a root: at the top, or under a rooted category outside its own subtree. */
  ghost predicate GoodPlace(p: Parents, i: Id, place: Option<Id>) {
    place.None? || (!UpTo(p, place.value, i) && Rooted(p, place.value))
  }

  lemma MovedRooted(p: Parents, i: Id, place: Option<Id>)
    requires i in p && (place.Some? ==> place.value in p)
    ensures Rooted(p[i := place], i) <==> GoodPlace(p, i, place)
  {
    var q := p[i := place];
    if place.None? {
      assert HasDepth(q, i, 0);
    } else {
      var up := place.value;
      assert Reaches(q, up, up, 0) && Reaches(q, i, up, 1);
      assert UpTo(q, i, up);
      RootedAlong(q, i, up);
      if n: nat :| Reaches(p, up, i, n) {
        StillUpTo(p, q, i, up, n);
        var m: nat :| Reaches(q, up, i, m);
        assert Reaches(q, i, i, m + 1);
        if Rooted(q, i) { NoLoop(q, i); }
      } else {
        forall d: nat ensures HasDepth(q, up, d) <==> HasDepth(p, up, d) { DepthUntouched(p, q, i, up, d); }
      }
    }
  }

  /**
   What moving i under `place` does to every category, in any relation: those outside
   the subtree of i are as before, and the subtree hangs from a root exactly when the
   new place is a good one.
   */
  lemma Moved(p: Parents, i: Id, place: Option<Id>, x: Id)
    requires i in p && x in p && (place.Some? ==> place.value in p)
    ensures Rooted(p[i := place], x) <==> if UpTo(p, x, i) then GoodPlace(p, i, place) else Rooted(p, x)
  {
    var q := p[i := place];
    if n: nat :| Reaches(p, x, i, n) {
      StillUpTo(p, q, i, x, n);
      RootedAlong(q, x, i);
      MovedRooted(p, i, place);
    } else {
      forall d: nat ensures HasDepth(q, x, d) <==> HasDepth(p, x, d) { DepthUntouched(p, q, i, x, d); }
    }
  }

  /** With no loops to begin with, a move keeps everything rooted exactly when the new place is outside the moved subtree. */
  lemma SafeMoveIff(p: Parents, i: Id, place: Option<Id>)
    requires AllRooted(p) && i in p && (place.Some? ==> place.value in p)
    ensures AllRooted(p[i := place]) <==> (place.Some? ==> place.value != i && !Below(p, place.value, i))
  {
    forall x | x in p ensures Rooted(p[i := place], x) <==> (!UpTo(p, x, i) || GoodPlace(p, i, place)) {
      Moved(p, i, place, x);
    }
    assert Reaches(p, i, i, 0);
    if place.Some? {
      UpToIff(p, place.value, i);
    }
  }

  lemma UpToIff(p: Parents, x: Id, a: Id)
    ensures UpTo(p, x, a) <==> x == a || Below(p, x, a)
  {
    assert Reaches(p, a, a, 0);
    if n: nat :| Reaches(p, x, a, n) {
      if n > 0 {
        assert Below(p, x, a);
      }
    }
  }
}
