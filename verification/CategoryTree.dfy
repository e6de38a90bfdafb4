/** From a flat list of categories with parent ids to a forest. */
module CategoryTree {
  import opened Wrappers
  import opened CategoryChains

  // The list may hold loops, since the server only refuses a category as its own parent, and
  // parents that are not in the list.

  datatype Category = Category(id: Id, name: string, slug: string, parent: Option<Id>, image: Option<string>)

  datatype Tree = Tree(id: Id, name: string, slug: string, image: Option<string>, children: seq<Tree>)

  predicate UniqueIds(cats: seq<Category>) {
    forall i, j :: 0 <= i < j < |cats| ==> cats[i].id != cats[j].id
  }

  function IdsOf(cats: seq<Category>): set<Id> {
    set c | c in cats :: c.id
  }

  function RowOf(cats: seq<Category>, x: Id): (c: Category)
    requires x in IdsOf(cats)
    ensures c in cats && c.id == x
  {
    if cats[0].id == x then cats[0] else RowOf(cats[1..], x)
  }

  function ParentIn(cats: seq<Category>, c: Category): Option<Id> {
    if c.parent.Some? && c.parent.value in IdsOf(cats) then c.parent else None
  }

  function ParentsOf(cats: seq<Category>): Parents {
    map x | x in IdsOf(cats) :: ParentIn(cats, RowOf(cats, x))
  }

  /** The categories of `part` whose listed parent is `at`, in list order; None asks for the roots. */
  function Under(cats: seq<Category>, part: seq<Category>, at: Option<Id>): seq<Category> {
    if part == [] then []
    else
      var last := part[|part| - 1];
      Under(cats, part[..|part| - 1], at) + if ParentIn(cats, last) == at then [last] else []
  }

  /** t is the subtree of c: its own fields, and one subtree per child in list order. */
  predicate Shows(cats: seq<Category>, t: Tree, c: Category)
    decreases t
  {
    && t.id == c.id && t.name == c.name && t.slug == c.slug && t.image == c.image
    && var under := Under(cats, cats, Some(c.id));
       |t.children| == |under| && forall k :: 0 <= k < |under| ==> Shows(cats, t.children[k], under[k])
  }

  predicate ShowsAll(cats: seq<Category>, ts: seq<Tree>, cs: seq<Category>) {
    |ts| == |cs| && forall k :: 0 <= k < |cs| ==> Shows(cats, ts[k], cs[k])
  }

  predicate ShowsForest(cats: seq<Category>, forest: seq<Tree>) {
    ShowsAll(cats, forest, Under(cats, cats, None))
  }

  // ---------- the parent relation of a list ----------

  lemma RowKnown(cats: seq<Category>, c: Category)
    requires UniqueIds(cats) && c in cats
    ensures c.id in IdsOf(cats) && RowOf(cats, c.id) == c && ParentsOf(cats)[c.id] == ParentIn(cats, c)
  {
    var row := RowOf(cats, c.id);
    var i :| 0 <= i < |cats| && cats[i] == row;
    var j :| 0 <= j < |cats| && cats[j] == c;
    assert i == j;
  }

  lemma ParentsClosed(cats: seq<Category>)
    ensures Closed(ParentsOf(cats)) && ParentsOf(cats).Keys == IdsOf(cats)
  {
  }

  lemma {:induction false} UnderHolds(cats: seq<Category>, part: seq<Category>, at: Option<Id>, c: Category)
    ensures c in Under(cats, part, at) <==> c in part && ParentIn(cats, c) == at
  {
    if part != [] {
      UnderHolds(cats, part[..|part| - 1], at, c);
      assert part == part[..|part| - 1] + [part[|part| - 1]];
    }
  }

  /** Siblings are in list order, each once. */
  lemma {:induction false} SiblingOrder(cats: seq<Category>, part: seq<Category>, at: Option<Id>, a: nat, b: nat)
    returns (i: nat, j: nat)
    requires a < b < |Under(cats, part, at)|
    ensures i < j < |part| && part[i] == Under(cats, part, at)[a] && part[j] == Under(cats, part, at)[b]
  {
    var front := part[..|part| - 1];
    var before := Under(cats, front, at);
    if b < |before| {
      i, j := SiblingOrder(cats, front, at, a, b);
    } else {
      j := |part| - 1;
      UnderHolds(cats, front, at, before[a]);
      i :| 0 <= i < |front| && front[i] == before[a];
    }
  }

  lemma SiblingsDiffer(cats: seq<Category>, at: Option<Id>)
    requires UniqueIds(cats)
    ensures UniqueIds(Under(cats, cats, at))
  {
    var under := Under(cats, cats, at);
    forall a: nat, b: nat | a < b < |under| ensures under[a].id != under[b].id {
      var i, j := SiblingOrder(cats, cats, at, a, b);
    }
  }

  // ---------- what a forest lists ----------

  /** The ids of a forest, parents before their children. */
  function Listing(ts: seq<Tree>): seq<Id> {
    if ts == [] then [] else [ts[0].id] + Listing(ts[0].children) + Listing(ts[1..])
  }

  lemma {:induction false} ListingParts(ts: seq<Tree>, x: Id)
    ensures x in Listing(ts) <==> exists k :: 0 <= k < |ts| && (x == ts[k].id || x in Listing(ts[k].children))
  {
    if ts != [] {
      ListingParts(ts[1..], x);
      if x in Listing(ts[1..]) {
        var k :| 0 <= k < |ts[1..]| && (x == ts[1..][k].id || x in Listing(ts[1..][k].children));
        assert x == ts[k + 1].id || x in Listing(ts[k + 1].children);
      }
      if k :| 0 < k < |ts| && (x == ts[k].id || x in Listing(ts[k].children)) {
        assert ts[1..][k - 1] == ts[k];
      }
    }
  }

  ghost predicate UpToAny(p: Parents, x: Id, cs: seq<Category>) {
    exists k :: 0 <= k < |cs| && UpTo(p, x, cs[k].id)
  }

  lemma ChildrenKnown(cats: seq<Category>, c: Category)
    requires UniqueIds(cats)
    ensures forall y :: y in Under(cats, cats, Some(c.id)) ==>
              y in cats && y.id in ParentsOf(cats) && ParentsOf(cats)[y.id] == Some(c.id)
  {
    forall y | y in Under(cats, cats, Some(c.id))
      ensures y in cats && y.id in ParentsOf(cats) && ParentsOf(cats)[y.id] == Some(c.id)
    {
      UnderHolds(cats, cats, Some(c.id), y);
      RowKnown(cats, y);
    }
  }

  lemma ChildIndex(cats: seq<Category>, x: Id, at: Option<Id>) returns (j: nat)
    requires x in ParentsOf(cats) && ParentsOf(cats)[x] == at
    ensures j < |Under(cats, cats, at)| && Under(cats, cats, at)[j].id == x
  {
    var row := RowOf(cats, x);
    UnderHolds(cats, cats, at, row);
    j :| 0 <= j < |Under(cats, cats, at)| && Under(cats, cats, at)[j] == row;
  }

  lemma UnderChild(p: Parents, x: Id, y: Id, a: Id)
    requires UpTo(p, x, y) && y in p && p[y] == Some(a)
    ensures UpTo(p, x, a)
  {
    var n: nat :| Reaches(p, x, y, n);
    assert Reaches(p, a, a, 0) && Reaches(p, y, a, 1);
    ReachesTrans(p, x, y, n, a, 1);
  }

  lemma UpToSelf(p: Parents, x: Id)
    ensures UpTo(p, x, x)
  {
    assert Reaches(p, x, x, 0);
  }

  lemma {:induction false} ListedIsUnder(cats: seq<Category>, ts: seq<Tree>, cs: seq<Category>, x: Id)
    requires UniqueIds(cats) && ShowsAll(cats, ts, cs) && (forall c :: c in cs ==> c in cats)
    requires x in Listing(ts)
    ensures x in ParentsOf(cats) && UpToAny(ParentsOf(cats), x, cs)
    decreases ts
  {
    hide UniqueIds, ParentsOf, Under, Listing, UpTo;
    var p := ParentsOf(cats);
    ListingParts(ts, x);
    var k :| 0 <= k < |ts| && (x == ts[k].id || x in Listing(ts[k].children));
    var c := cs[k];
    if x == c.id {
      RowKnown(cats, c);
      ParentsClosed(cats);
      UpToSelf(p, x);
    } else {
      var under := Under(cats, cats, Some(c.id));
      ChildrenKnown(cats, c);
      ListedIsUnder(cats, ts[k].children, under, x);
      var j :| 0 <= j < |under| && UpTo(p, x, under[j].id);
      UnderChild(p, x, under[j].id, c.id);
    }
  }

  lemma {:induction false} UnderIsListed(cats: seq<Category>, ts: seq<Tree>, cs: seq<Category>, k: nat, x: Id, n: nat)
    requires ShowsAll(cats, ts, cs) && k < |cs|
    requires Reaches(ParentsOf(cats), x, cs[k].id, n)
    ensures x in Listing(ts)
    decreases n
  {
    hide ParentsOf, Under, Listing;
    ListingParts(ts, x);
    if n > 0 {
      var c := cs[k];
      var y := LastStep(ParentsOf(cats), x, c.id, n);
      var j := ChildIndex(cats, y, Some(c.id));
      UnderIsListed(cats, ts[k].children, Under(cats, cats, Some(c.id)), j, x, n - 1);
    }
  }

  /** Trees for categories cs list exactly cs and what is below them. */
  lemma ListingExact(cats: seq<Category>, ts: seq<Tree>, cs: seq<Category>, x: Id)
    requires UniqueIds(cats) && ShowsAll(cats, ts, cs) && (forall c :: c in cs ==> c in cats)
    ensures x in Listing(ts) <==> UpToAny(ParentsOf(cats), x, cs)
  {
    if x in Listing(ts) {
      ListedIsUnder(cats, ts, cs, x);
    } else if k :| 0 <= k < |cs| && UpTo(ParentsOf(cats), x, cs[k].id) {
      var n: nat :| Reaches(ParentsOf(cats), x, cs[k].id, n);
      UnderIsListed(cats, ts, cs, k, x, n);
    }
  }

  lemma RootsKnown(cats: seq<Category>)
    requires UniqueIds(cats)
    ensures forall c :: c in Under(cats, cats, None) ==> c in cats && HasDepth(ParentsOf(cats), c.id, 0)
  {
    forall c | c in Under(cats, cats, None) ensures c in cats && HasDepth(ParentsOf(cats), c.id, 0) {
      UnderHolds(cats, cats, None, c);
      RowKnown(cats, c);
    }
  }

  lemma RootedUnderRoots(cats: seq<Category>, x: Id)
    requires UniqueIds(cats)
    ensures Rooted(ParentsOf(cats), x) <==> UpToAny(ParentsOf(cats), x, Under(cats, cats, None))
  {
    hide UniqueIds, ParentsOf, Under;
    var p, roots := ParentsOf(cats), Under(cats, cats, None);
    RootsKnown(cats);
    if Rooted(p, x) {
      var d: nat :| HasDepth(p, x, d);
      var a := Top(p, x, d);
      var k := ChildIndex(cats, a, None);
      assert UpTo(p, x, roots[k].id);
    }
    if UpToAny(p, x, roots) {
      var k :| 0 <= k < |roots| && UpTo(p, x, roots[k].id);
      assert HasDepth(p, roots[k].id, 0);
      RootedAlong(p, x, roots[k].id);
    }
  }

  /** The root at the end of a chain. */
  lemma {:induction false} Top(p: Parents, x: Id, d: nat) returns (a: Id)
    requires HasDepth(p, x, d)
    ensures a in p && p[a].None? && Reaches(p, x, a, d)
    decreases d
  {
    if d == 0 {
      a := x;
    } else {
      a := Top(p, p[x].value, d - 1);
    }
  }

  /** The forest lists exactly the categories whose chain of parents ends at a root. */
  lemma ForestListsRooted(cats: seq<Category>, forest: seq<Tree>, x: Id)
    requires UniqueIds(cats) && ShowsForest(cats, forest)
    ensures x in Listing(forest) <==> Rooted(ParentsOf(cats), x)
  {
    RootedUnderRoots(cats, x);
    RootsKnown(cats);
    ListingExact(cats, forest, Under(cats, cats, None), x);
  }

  predicate NoRepeats(ids: seq<Id>) {
    forall i, j :: 0 <= i < j < |ids| ==> ids[i] != ids[j]
  }

  lemma NoRepeatsAppend(a: seq<Id>, b: seq<Id>)
    requires NoRepeats(a) && NoRepeats(b) && forall x :: x in a ==> x !in b
    ensures NoRepeats(a + b)
  {
    var both := a + b;
    forall i, j | 0 <= i < j < |both| ensures both[i] != both[j] {
      if i < |a| <= j {
        assert a[i] in a && b[j - |a|] in b;
      }
    }
  }

  lemma {:induction false} ListedOnce(cats: seq<Category>, ts: seq<Tree>, cs: seq<Category>, d: nat)
    requires UniqueIds(cats) && ShowsAll(cats, ts, cs) && UniqueIds(cs) && (forall c :: c in cs ==> c in cats)
    requires forall c :: c in cs ==> HasDepth(ParentsOf(cats), c.id, d)
    ensures NoRepeats(Listing(ts))
    decreases ts
  {
    hide ParentsOf, Under, NoRepeats;
    if ts == [] {
      NothingRepeats();
    } else {
      var c := cs[0];
      var under := Under(cats, cats, Some(c.id));
      var inner, rest := Listing(ts[0].children), Listing(ts[1..]);
      assert c in cs;
      ChildrenKnown(cats, c);
      SiblingsDiffer(cats, Some(c.id));
      ListedOnce(cats, ts[0].children, under, d + 1);
      ListedOnce(cats, ts[1..], cs[1..], d);
      forall x | x in [c.id] + inner ensures x !in rest {
        if x in rest { ListedApart(cats, ts, cs, d, x); }
      }
      if c.id in inner { NotAboveItself(cats, ts[0].children, c, d); }
      NothingRepeats();
      NoRepeatsAppend([c.id], inner);
      NoRepeatsAppend([c.id] + inner, rest);
    }
  }

  lemma NothingRepeats()
    ensures NoRepeats([]) && forall x: Id :: NoRepeats([x])
  {
  }

  lemma NotAboveItself(cats: seq<Category>, ts: seq<Tree>, c: Category, d: nat)
    requires UniqueIds(cats) && ShowsAll(cats, ts, Under(cats, cats, Some(c.id))) && HasDepth(ParentsOf(cats), c.id, d)
    ensures c.id !in Listing(ts)
  {
    hide UniqueIds, ParentsOf, Under, Listing, HasDepth, ShowsAll;
    var p, under := ParentsOf(cats), Under(cats, cats, Some(c.id));
    if c.id in Listing(ts) {
      ChildrenKnown(cats, c);
      ListedIsUnder(cats, ts, under, c.id);
      var k :| 0 <= k < |under| && UpTo(p, c.id, under[k].id);
      var n: nat :| Reaches(p, c.id, under[k].id, n);
      assert Reaches(p, c.id, c.id, 0) && Reaches(p, under[k].id, c.id, 1);
      ReachesTrans(p, c.id, under[k].id, n, c.id, 1);
      NoLoop(p, c.id);
    }
  }

  lemma SiblingsApart(p: Parents, x: Id, a: Id, b: Id, d: nat)
    requires UpTo(p, x, a) && UpTo(p, x, b) && HasDepth(p, a, d) && HasDepth(p, b, d)
    ensures a == b
  {
    var n: nat :| Reaches(p, x, a, n);
    var m: nat :| Reaches(p, x, b, m);
    DepthBelow(p, x, a, n, d);
    DepthBelow(p, x, b, m, d);
    DepthUnique(p, x, d + n, d + m);
    SameSteps(p, x, a, b, n);
  }

  /** Nothing hangs from two siblings. */
  lemma ListedApart(cats: seq<Category>, ts: seq<Tree>, cs: seq<Category>, d: nat, x: Id)
    requires UniqueIds(cats) && ShowsAll(cats, ts, cs) && UniqueIds(cs) && (forall c :: c in cs ==> c in cats)
    requires forall c :: c in cs ==> HasDepth(ParentsOf(cats), c.id, d)
    requires ts != [] && (x == cs[0].id || x in Listing(ts[0].children))
    ensures x !in Listing(ts[1..])
  {
    hide ParentsOf, Listing, HasDepth, UpTo;
    var p := ParentsOf(cats);
    if x in Listing(ts[1..]) {
      var first := ts[..1];
      ListingParts(first, x);
      assert x == first[0].id || x in Listing(first[0].children);
      ListedIsUnder(cats, first, cs[..1], x);
      ListedIsUnder(cats, ts[1..], cs[1..], x);
      assert UpTo(p, x, cs[0].id);
      var k :| 0 <= k < |cs[1..]| && UpTo(p, x, cs[1..][k].id);
      assert cs[0] in cs && cs[k + 1] in cs;
      SiblingsApart(p, x, cs[0].id, cs[k + 1].id, d);
    }
  }

  /** The forest lists no category twice. */
  lemma ForestListsOnce(cats: seq<Category>, forest: seq<Tree>)
    requires UniqueIds(cats) && ShowsForest(cats, forest)
    ensures NoRepeats(Listing(forest))
  {
    RootsKnown(cats);
    SiblingsDiffer(cats, None);
    ListedOnce(cats, forest, Under(cats, cats, None), 0);
  }

  /** A list has one forest: what ShowsForest says leaves nothing open. */
  lemma {:induction false} ForestUnique(cats: seq<Category>, ts: seq<Tree>, us: seq<Tree>, cs: seq<Category>)
    requires ShowsAll(cats, ts, cs) && ShowsAll(cats, us, cs)
    ensures ts == us
    decreases ts
  {
    forall k | 0 <= k < |cs| ensures ts[k] == us[k] {
      ForestUnique(cats, ts[k].children, us[k].children, Under(cats, cats, Some(cs[k].id)));
    }
  }

  // ---------- the order of the list ----------

  /** The same rows in any order have the same parent relation. */
  lemma SameRowsSameParents(a: seq<Category>, b: seq<Category>)
    requires UniqueIds(a) && UniqueIds(b) && forall c :: c in a <==> c in b
    ensures ParentsOf(a) == ParentsOf(b)
  {
    assert IdsOf(a) == IdsOf(b);
    forall x | x in IdsOf(a) ensures ParentsOf(a)[x] == ParentsOf(b)[x] {
      RowKnown(b, RowOf(a, x));
    }
  }
}
