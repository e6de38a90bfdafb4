/** The admin page for categories. */
module CategoryAdmin {
  import opened Wrappers
  import opened CategoryChains
  import opened CategoryTree

  // The forest the page receives carries no parent ids, so the page recovers parents and
  // descendants from the nesting, and offers as new parent only what is not the edited
  // category or below it.

  datatype Entry = Entry(id: Id, text: string)

  class Record {
    var parentOf: map<Id, Id>

    constructor ()
      ensures parentOf == map[]
    {
      parentOf := map[];
    }
  }

  class IdSet {
    var ids: set<Id>

    constructor ()
      ensures ids == {}
    {
      ids := {};
    }
  }

  function IdsIn(ts: seq<Tree>): set<Id> {
    set x | x in Listing(ts)
  }

  // ---------- flatten ----------

  function Dashes(depth: nat): string {
    if depth == 0 then "" else "\U{2014} " + Dashes(depth - 1)
  }

  function Flat(ts: seq<Tree>, depth: nat): seq<Entry> {
    if ts == [] then []
    else [Entry(ts[0].id, Dashes(depth) + ts[0].name)] + Flat(ts[0].children, depth + 1) + Flat(ts[1..], depth)
  }

  /** One dash and one space per level. */
  lemma {:induction false} DashesAre(depth: nat)
    ensures |Dashes(depth)| == 2 * depth
    ensures forall k :: 0 <= k < depth ==> Dashes(depth)[2 * k] == '\U{2014}' && Dashes(depth)[2 * k + 1] == ' '
  {
    if depth > 0 {
      DashesAre(depth - 1);
      forall k | 0 <= k < depth
        ensures Dashes(depth)[2 * k] == '\U{2014}' && Dashes(depth)[2 * k + 1] == ' '
      {
        if k > 0 {
          assert Dashes(depth)[2 * k] == Dashes(depth - 1)[2 * (k - 1)];
          assert Dashes(depth)[2 * k + 1] == Dashes(depth - 1)[2 * (k - 1) + 1];
        }
      }
    }
  }

  /** The page shows one tree after the other, and each as its own entry followed by its children, one level deeper. */
  lemma {:induction false} FlatParts(ts: seq<Tree>, us: seq<Tree>, t: Tree, depth: nat)
    ensures Flat([t], depth) == [Entry(t.id, Dashes(depth) + t.name)] + Flat(t.children, depth + 1)
    ensures Flat(ts + us, depth) == Flat(ts, depth) + Flat(us, depth)
  {
    assert [t][1..] == [] && [t][0] == t;
    if ts == [] {
      assert ts + us == us;
    } else {
      assert (ts + us)[1..] == ts[1..] + us && (ts + us)[0] == ts[0];
      FlatParts(ts[1..], us, t, depth);
    }
  }

  method Flatten(tree: seq<Tree>, depth: nat) returns (out: seq<Entry>)
    ensures out == Flat(tree, depth)
    decreases tree
  {
    hide Dashes;
    out := [];
    for k := 0 to |tree|
      invariant out + Flat(tree[k..], depth) == Flat(tree, depth)
    {
      var c := tree[k];
      assert tree[k..][0] == c && tree[k..][1..] == tree[k + 1..];
      out := out + [Entry(c.id, Dashes(depth) + c.name)];
      if |c.children| > 0 {
        var inner := Flatten(c.children, depth + 1);
        out := out + inner;
      }
    }
  }

  lemma {:induction false} FlatIds(ts: seq<Tree>, depth: nat)
    ensures |Flat(ts, depth)| == |Listing(ts)|
    ensures forall k :: 0 <= k < |Listing(ts)| ==> Flat(ts, depth)[k].id == Listing(ts)[k]
    decreases ts
  {
    if ts != [] {
      FlatIds(ts[0].children, depth + 1);
      FlatIds(ts[1..], depth);
    }
  }

  ghost predicate GoodLabel(cats: seq<Category>, e: Entry) {
    e.id in IdsOf(cats)
    && exists d: nat :: HasDepth(ParentsOf(cats), e.id, d) && e.text == Dashes(d) + RowOf(cats, e.id).name
  }

  lemma {:induction false} FlatLabels(cats: seq<Category>, ts: seq<Tree>, cs: seq<Category>, d: nat, e: Entry)
    requires UniqueIds(cats) && ShowsAll(cats, ts, cs) && e in Flat(ts, d)
    requires forall c :: c in cs ==> c in cats && HasDepth(ParentsOf(cats), c.id, d)
    ensures GoodLabel(cats, e)
    decreases ts
  {
    hide UniqueIds, ParentsOf, Under, RowOf;
    var c := cs[0];
    assert c in cs;
    ChildrenKnown(cats, c);
    if e == Entry(c.id, Dashes(d) + c.name) {
      RowKnown(cats, c);
    } else if e in Flat(ts[0].children, d + 1) {
      FlatLabels(cats, ts[0].children, Under(cats, cats, Some(c.id)), d + 1, e);
    } else {
      FlatLabels(cats, ts[1..], cs[1..], d, e);
    }
  }

  /** The page lists each rooted category once, under its name indented by its depth. */
  lemma FlattenExact(cats: seq<Category>, forest: seq<Tree>)
    requires UniqueIds(cats) && ShowsForest(cats, forest)
    ensures forall e :: e in Flat(forest, 0) ==> GoodLabel(cats, e)
    ensures forall x :: Rooted(ParentsOf(cats), x) <==> exists e :: e in Flat(forest, 0) && e.id == x
    ensures |Flat(forest, 0)| == |Listing(forest)| && NoRepeats(Listing(forest))
  {
    RootsKnown(cats);
    forall e | e in Flat(forest, 0) ensures GoodLabel(cats, e) {
      FlatLabels(cats, forest, Under(cats, cats, None), 0, e);
    }
    forall x ensures Rooted(ParentsOf(cats), x) <==> exists e :: e in Flat(forest, 0) && e.id == x {
      OfferedRooted(cats, forest, x);
    }
    FlatIds(forest, 0);
    ForestListsOnce(cats, forest);
  }

  lemma OfferedRooted(cats: seq<Category>, forest: seq<Tree>, x: Id)
    requires UniqueIds(cats) && ShowsForest(cats, forest)
    ensures Rooted(ParentsOf(cats), x) <==> exists e :: e in Flat(forest, 0) && e.id == x
  {
    FlatIds(forest, 0);
    ForestListsRooted(cats, forest, x);
    if x in Listing(forest) {
      var k :| 0 <= k < |Listing(forest)| && Listing(forest)[k] == x;
      assert Flat(forest, 0)[k].id == x;
    }
  }

  // ---------- parentMap ----------

  function Recorded(ts: seq<Tree>, parent: Id, m: map<Id, Id>): map<Id, Id> {
    if ts == [] then m
    else Recorded(ts[1..], parent, Recorded(ts[0].children, ts[0].id, m[ts[0].id := parent]))
  }

  method ParentMap(tree: seq<Tree>, parent: Id, acc: Record)
    modifies acc
    ensures acc.parentOf == Recorded(tree, parent, old(acc.parentOf))
    decreases tree
  {
    for k := 0 to |tree|
      invariant Recorded(tree[k..], parent, acc.parentOf) == Recorded(tree, parent, old(acc.parentOf))
    {
      var c := tree[k];
      assert tree[k..][0] == c && tree[k..][1..] == tree[k + 1..];
      acc.parentOf := acc.parentOf[c.id := parent];
      if |c.children| > 0 {
        ParentMap(c.children, c.id, acc);
      }
    }
  }

  lemma {:induction false} RecordedExact(cats: seq<Category>, ts: seq<Tree>, cs: seq<Category>, at: Option<Id>,
                                         m: map<Id, Id>, x: Id)
    requires UniqueIds(cats) && ShowsAll(cats, ts, cs)
    requires forall c :: c in cs ==> c in cats && ParentIn(cats, c) == at
    ensures var r := Recorded(ts, at.GetOr(""), m);
            && (x in Listing(ts) ==> x in ParentsOf(cats) && x in r && r[x] == ParentsOf(cats)[x].GetOr(""))
            && (x !in Listing(ts) ==> (x in r <==> x in m) && (x in r ==> r[x] == m[x]))
    decreases ts
  {
    hide UniqueIds, ParentsOf, Under;
    if ts != [] {
      var c := cs[0];
      assert c in cs;
      RowKnown(cats, c);
      ParentsClosed(cats);
      var m1 := m[c.id := at.GetOr("")];
      var under := Under(cats, cats, Some(c.id));
      forall y | y in under ensures y in cats && ParentIn(cats, y) == Some(c.id) {
        UnderHolds(cats, cats, Some(c.id), y);
      }
      RecordedExact(cats, ts[0].children, under, Some(c.id), m1, x);
      RecordedExact(cats, ts[1..], cs[1..], at, Recorded(ts[0].children, c.id, m1), x);
    }
  }

  /** The page recovers the parent of every category it was given, and nothing else. */
  lemma ParentRoundTrip(cats: seq<Category>, forest: seq<Tree>, x: Id)
    requires UniqueIds(cats) && ShowsForest(cats, forest)
    ensures x in Recorded(forest, "", map[]) <==> Rooted(ParentsOf(cats), x)
    ensures Rooted(ParentsOf(cats), x) ==>
              var c := RowOf(cats, x);
              Recorded(forest, "", map[])[x]
                == if c.parent.Some? && c.parent.value in IdsOf(cats) then c.parent.value else ""
  {
    RootedIsListed(cats, x);
    forall c | c in Under(cats, cats, None) ensures c in cats && ParentIn(cats, c) == None {
      UnderHolds(cats, cats, None, c);
    }
    RecordedExact(cats, forest, Under(cats, cats, None), None, map[], x);
    ForestListsRooted(cats, forest, x);
  }

  lemma RootedIsListed(cats: seq<Category>, x: Id)
    ensures Rooted(ParentsOf(cats), x) ==> x in IdsOf(cats)
  {
    if Rooted(ParentsOf(cats), x) {
      var d: nat :| HasDepth(ParentsOf(cats), x, d);
    }
  }

  // ---------- descendantsOf ----------

  function FindIn(ts: seq<Tree>, id: Id): Option<Tree> {
    if ts == [] then None
    else if ts[0].id == id then Some(ts[0])
    else
      var f := FindIn(ts[0].children, id);
      if f.Some? then f else FindIn(ts[1..], id)
  }

  method Find(nodes: seq<Tree>, id: Id) returns (r: Option<Tree>)
    ensures r == FindIn(nodes, id)
    decreases nodes
  {
    for k := 0 to |nodes|
      invariant FindIn(nodes, id) == FindIn(nodes[k..], id)
    {
      var n := nodes[k];
      assert nodes[k..][0] == n && nodes[k..][1..] == nodes[k + 1..];
      if n.id == id {
        return Some(n);
      }
      var f := Find(n.children, id);
      if f.Some? {
        return f;
      }
    }
    return None;
  }

  /** The ids strictly below the first node with this id. */
  function Descendants(tree: seq<Tree>, id: Id): set<Id> {
    var n := FindIn(tree, id);
    if n.Some? then IdsIn(n.value.children) else {}
  }

  method Collect(n: Tree, acc: IdSet)
    modifies acc
    ensures acc.ids == old(acc.ids) + IdsIn(n.children)
    decreases n
  {
    var all := n.children;
    for k := 0 to |all|
      invariant acc.ids + IdsIn(all[k..]) == old(acc.ids) + IdsIn(all)
    {
      var c := all[k];
      IdsInFirst(all[k..]);
      assert all[k..][1..] == all[k + 1..];
      acc.ids := acc.ids + {c.id};
      Collect(c, acc);
    }
  }

  lemma IdsInFirst(ts: seq<Tree>)
    requires ts != []
    ensures IdsIn(ts) == {ts[0].id} + IdsIn(ts[0].children) + IdsIn(ts[1..])
  {
  }

  method DescendantsOf(tree: seq<Tree>, id: Id) returns (out: set<Id>)
    ensures out == Descendants(tree, id)
  {
    var node := Find(tree, id);
    var acc := new IdSet();
    if node.Some? {
      Collect(node.value, acc);
    }
    out := acc.ids;
  }

  lemma {:induction false} FindExact(cats: seq<Category>, ts: seq<Tree>, cs: seq<Category>, id: Id)
    requires UniqueIds(cats) && ShowsAll(cats, ts, cs) && forall c :: c in cs ==> c in cats
    ensures var r := FindIn(ts, id);
            && (r.Some? <==> id in Listing(ts))
            && (r.Some? ==> id in IdsOf(cats) && r.value.id == id && Shows(cats, r.value, RowOf(cats, id)))
    decreases ts
  {
    hide UniqueIds, Under;
    if ts != [] {
      var c := cs[0];
      assert c in cs;
      RowKnown(cats, c);
      ChildrenKnown(cats, c);
      FindExact(cats, ts[0].children, Under(cats, cats, Some(c.id)), id);
      FindExact(cats, ts[1..], cs[1..], id);
    }
  }

  lemma BelowChild(cats: seq<Category>, x: Id, id: Id)
    requires UniqueIds(cats)
    ensures UpToAny(ParentsOf(cats), x, Under(cats, cats, Some(id))) <==> Below(ParentsOf(cats), x, id)
  {
    hide UniqueIds, ParentsOf, Under;
    var p, under := ParentsOf(cats), Under(cats, cats, Some(id));
    if UpToAny(p, x, under) {
      var k :| 0 <= k < |under| && UpTo(p, x, under[k].id);
      var n: nat :| Reaches(p, x, under[k].id, n);
      ChildOf(cats, under[k], id);
      assert Reaches(p, id, id, 0) && Reaches(p, under[k].id, id, 1);
      ReachesTrans(p, x, under[k].id, n, id, 1);
    }
    if Below(p, x, id) {
      var n: nat :| n > 0 && Reaches(p, x, id, n);
      var y := LastStep(p, x, id, n);
      var j := ChildIndex(cats, y, Some(id));
      assert UpTo(p, x, under[j].id);
    }
  }

  lemma ChildOf(cats: seq<Category>, y: Category, id: Id)
    requires UniqueIds(cats) && y in Under(cats, cats, Some(id))
    ensures y.id in ParentsOf(cats) && ParentsOf(cats)[y.id] == Some(id)
  {
    UnderHolds(cats, cats, Some(id), y);
    RowKnown(cats, y);
  }

  /** c is listed directly below `at`: it has that parent, or, at the top, none that is listed. */
  predicate Hangs(cats: seq<Category>, c: Category, at: Option<Id>) {
    c in cats && if at.Some? then c.parent == at else c.parent.None? || forall d :: d in cats ==> d.id != c.parent.value
  }

  /** x is listed before y. */
  ghost predicate Before(cats: seq<Category>, x: Id, y: Id) {
    exists i, j :: 0 <= i < j < |cats| && cats[i].id == x && cats[j].id == y
  }

  /** t is a node of a category that hangs from `at`, with its fields. */
  ghost predicate NodeAt(cats: seq<Category>, t: Tree, at: Option<Id>) {
    exists c :: Hangs(cats, c, at) && c.id == t.id && c.name == t.name && c.slug == t.slug && c.image == t.image
  }

  /** These nodes are the categories that hang from `at`, each with its fields, in the order of the list. */
  ghost predicate Hung(cats: seq<Category>, ts: seq<Tree>, at: Option<Id>) {
    && (forall a :: 0 <= a < |ts| ==> NodeAt(cats, ts[a], at))
    && (forall c :: Hangs(cats, c, at) ==> exists a :: 0 <= a < |ts| && ts[a].id == c.id)
    && forall a, b :: 0 <= a < b < |ts| ==> Before(cats, ts[a].id, ts[b].id)
  }

  lemma HangsIff(cats: seq<Category>, c: Category, at: Option<Id>)
    requires at.Some? ==> at.value in IdsOf(cats)
    ensures c in Under(cats, cats, at) <==> Hangs(cats, c, at)
  {
    UnderHolds(cats, cats, at, c);
  }

  lemma HungFrom(cats: seq<Category>, ts: seq<Tree>, at: Option<Id>)
    requires UniqueIds(cats) && ShowsAll(cats, ts, Under(cats, cats, at))
    requires at.Some? ==> at.value in IdsOf(cats)
    ensures Hung(cats, ts, at)
  {
    hide UniqueIds, Under, Hangs, NodeAt, Before, IdsOf, Shows;
    var cs := Under(cats, cats, at);
    forall c ensures c in cs <==> Hangs(cats, c, at) { HangsIff(cats, c, at); }
    forall a | 0 <= a < |ts| ensures NodeAt(cats, ts[a], at) && ts[a].id == cs[a].id {
      ShowsNode(cats, ts[a], cs[a], at);
    }
    forall c | Hangs(cats, c, at) ensures exists a :: 0 <= a < |ts| && ts[a].id == c.id {
      var k :| 0 <= k < |cs| && cs[k] == c;
      assert ts[k].id == c.id;
    }
    forall a, b | 0 <= a < b < |ts| ensures Before(cats, ts[a].id, ts[b].id) {
      InListOrder(cats, at, a, b);
    }
  }

  lemma ShowsNode(cats: seq<Category>, t: Tree, c: Category, at: Option<Id>)
    requires Shows(cats, t, c) && Hangs(cats, c, at)
    ensures NodeAt(cats, t, at) && t.id == c.id
  {
  }

  lemma InListOrder(cats: seq<Category>, at: Option<Id>, a: nat, b: nat)
    requires a < b < |Under(cats, cats, at)|
    ensures Before(cats, Under(cats, cats, at)[a].id, Under(cats, cats, at)[b].id)
  {
    var i, j := SiblingOrder(cats, cats, at, a, b);
  }

  /**
   The forest row by row: at the top the categories without a listed parent, below each
   listed category those that name it as their parent, all with their own fields and in
   the order of the list.
   */
  lemma ForestExact(cats: seq<Category>, forest: seq<Tree>, id: Id)
    requires UniqueIds(cats) && ShowsForest(cats, forest)
    ensures Hung(cats, forest, None)
    ensures FindIn(forest, id).Some? <==> Rooted(ParentsOf(cats), id)
    ensures FindIn(forest, id).Some? ==> FindIn(forest, id).value.id == id && Hung(cats, FindIn(forest, id).value.children, Some(id))
  {
    HungFrom(cats, forest, None);
    RootsKnown(cats);
    FindExact(cats, forest, Under(cats, cats, None), id);
    ForestListsRooted(cats, forest, id);
    if FindIn(forest, id).Some? {
      HungFrom(cats, FindIn(forest, id).value.children, Some(id));
    }
  }

  /** descendantsOf, on the forest the server built, finds exactly the strict descendants. */
  lemma DescendantsExact(cats: seq<Category>, forest: seq<Tree>, id: Id, x: Id)
    requires UniqueIds(cats) && ShowsForest(cats, forest)
    ensures x in Descendants(forest, id) <==> Rooted(ParentsOf(cats), id) && Below(ParentsOf(cats), x, id)
  {
    hide UniqueIds, ParentsOf, Under, Rooted, Below;
    RootsKnown(cats);
    FindExact(cats, forest, Under(cats, cats, None), id);
    ForestListsRooted(cats, forest, id);
    if id in Listing(forest) {
      var t, under := FindIn(forest, id).value, Under(cats, cats, Some(id));
      assert ShowsAll(cats, t.children, under);
      forall c | c in under ensures c in cats { UnderHolds(cats, cats, Some(id), c); }
      ListingExact(cats, t.children, under, x);
      BelowChild(cats, x, id);
    }
  }

  // ---------- the parent options of the form ----------

  function Excluded(tree: seq<Tree>, editId: Option<Id>): set<Id> {
    if editId.Some? then {editId.value} + Descendants(tree, editId.value) else {}
  }

  function Without(entries: seq<Entry>, excluded: set<Id>): seq<Entry> {
    if entries == [] then []
    else
      var last := entries[|entries| - 1];
      Without(entries[..|entries| - 1], excluded) + if last.id in excluded then [] else [last]
  }

  method ParentOptions(tree: seq<Tree>, editId: Option<Id>) returns (options: seq<Entry>)
    ensures options == Without(Flat(tree, 0), Excluded(tree, editId))
  {
    var excluded := {};
    if editId.Some? {
      var below := DescendantsOf(tree, editId.value);
      excluded := {editId.value} + below;
    }
    var all := Flatten(tree, 0);
    options := [];
    for k := 0 to |all|
      invariant options == Without(all[..k], excluded)
    {
      assert all[..k + 1][..k] == all[..k];
      if all[k].id !in excluded {
        options := options + [all[k]];
      }
    }
    assert all[..|all|] == all;
  }

  lemma {:induction false} WithoutExact(entries: seq<Entry>, excluded: set<Id>, e: Entry)
    ensures e in Without(entries, excluded) <==> e in entries && e.id !in excluded
  {
    if entries != [] {
      WithoutExact(entries[..|entries| - 1], excluded, e);
      assert entries == entries[..|entries| - 1] + [entries[|entries| - 1]];
    }
  }

  /** The entries that are left stay in their order, each as often as before. */
  lemma {:induction false} WithoutParts(a: seq<Entry>, b: seq<Entry>, excluded: set<Id>)
    ensures Without(a + b, excluded) == Without(a, excluded) + Without(b, excluded)
  {
    if b == [] {
      assert a + b == a;
    } else {
      assert (a + b)[..|a + b| - 1] == a + b[..|b| - 1];
      WithoutParts(a, b[..|b| - 1], excluded);
    }
  }

  predicate Offers(options: seq<Entry>, x: Id) {
    exists e :: e in options && e.id == x
  }

  /** A child of an unlisted category is not listed. */
  lemma RootedBelow(p: Parents, x: Id, id: Id)
    requires Rooted(p, x) && Below(p, x, id)
    ensures Rooted(p, id)
  {
    var n: nat :| n > 0 && Reaches(p, x, id, n);
    assert UpTo(p, x, id);
    RootedAlong(p, x, id);
  }

  /** The form for a new category offers every rooted one. */
  lemma NewFormOffersAll(cats: seq<Category>, forest: seq<Tree>, x: Id)
    requires UniqueIds(cats) && ShowsForest(cats, forest)
    ensures Offers(Without(Flat(forest, 0), Excluded(forest, None)), x) <==> Rooted(ParentsOf(cats), x)
  {
    hide UniqueIds, ParentsOf, Under, Rooted, Flat;
    var all := Flat(forest, 0);
    OfferedRooted(cats, forest, x);
    forall e ensures e in Without(all, {}) <==> e in all { WithoutExact(all, {}, e); }
  }

  /** The form for category id offers exactly the rooted categories outside its own subtree. */
  lemma OffersExact(cats: seq<Category>, forest: seq<Tree>, id: Id, x: Id)
    requires UniqueIds(cats) && ShowsForest(cats, forest)
    ensures Offers(Without(Flat(forest, 0), Excluded(forest, Some(id))), x)
       <==> Rooted(ParentsOf(cats), x) && x != id && !Below(ParentsOf(cats), x, id)
  {
    hide UniqueIds, ParentsOf, Under, Rooted, Below, Flat, Descendants;
    var excluded, all := Excluded(forest, Some(id)), Flat(forest, 0);
    DescendantsExact(cats, forest, id, x);
    OfferedRooted(cats, forest, x);
    if Rooted(ParentsOf(cats), x) && Below(ParentsOf(cats), x, id) { RootedBelow(ParentsOf(cats), x, id); }
    forall e ensures e in Without(all, excluded) <==> e in all && e.id !in excluded { WithoutExact(all, excluded, e); }
    if Rooted(ParentsOf(cats), x) && x !in excluded {
      var e :| e in all && e.id == x;
      assert e in Without(all, excluded);
    }
  }

  // ---------- edits ----------

  /** after lists the rows of before, in any order, once `id` was moved to `place`. */
  ghost predicate MovedRow(before: seq<Category>, after: seq<Category>, id: Id, place: Option<Id>) {
    && UniqueIds(before) && UniqueIds(after) && id in IdsOf(before)
    && (place.Some? ==> place.value in IdsOf(before))
    && ParentsOf(after) == ParentsOf(before)[id := place]
  }

  /**
   What the forest lists after an edit, whatever the relation was before: categories
   outside the moved subtree as before, the moved subtree exactly when its new place is
   at the top or under a listed category outside it.
   */
  lemma EditLists(before: seq<Category>, after: seq<Category>, shown: seq<Tree>, rebuilt: seq<Tree>,
                  id: Id, place: Option<Id>, x: Id)
    requires MovedRow(before, after, id, place) && ShowsForest(before, shown) && ShowsForest(after, rebuilt)
    requires x in IdsOf(before)
    ensures x in Listing(rebuilt) <==>
              if UpTo(ParentsOf(before), x, id)
              then place.None? || (!UpTo(ParentsOf(before), place.value, id) && place.value in Listing(shown))
              else x in Listing(shown)
  {
    hide UniqueIds, Under, Rooted, UpTo, Listing;
    ParentsClosed(before);
    Moved(ParentsOf(before), id, place, x);
    ForestListsRooted(before, shown, x);
    ForestListsRooted(after, rebuilt, x);
    if place.Some? { ForestListsRooted(before, shown, place.value); }
  }

  /**
   If every category was listed, a parent other than the top is offered by the form
   exactly when choosing it keeps every category listed.
   */
  lemma FormOffersSafeMoves(before: seq<Category>, after: seq<Category>, shown: seq<Tree>, rebuilt: seq<Tree>,
                            id: Id, parent: Id)
    requires MovedRow(before, after, id, Some(parent)) && ShowsForest(before, shown) && ShowsForest(after, rebuilt)
    requires forall x :: x in IdsOf(before) ==> x in Listing(shown)
    ensures Offers(Without(Flat(shown, 0), Excluded(shown, Some(id))), parent)
       <==> forall x :: x in IdsOf(after) ==> x in Listing(rebuilt)
  {
    hide UniqueIds, Under, UpTo, Listing, Below, Without, Flat, Excluded, Rooted;
    var p := ParentsOf(before);
    ParentsClosed(before);
    ParentsClosed(after);
    forall x | x in IdsOf(before)
      ensures Rooted(p, x) && (x in Listing(rebuilt) <==> Rooted(ParentsOf(after), x))
    {
      ForestListsRooted(before, shown, x);
      ForestListsRooted(after, rebuilt, x);
    }
    SafeMoveIff(p, id, Some(parent));
    OffersExact(before, shown, id, parent);
  }

  /** Saving the form as it was filled in changes no parent. */
  lemma {:induction false} SavingUnchanged(cats: seq<Category>, forest: seq<Tree>, id: Id)
    requires UniqueIds(cats) && ShowsForest(cats, forest) && Rooted(ParentsOf(cats), id) && "" !in IdsOf(cats)
    ensures id in Recorded(forest, "", map[])
    ensures var parent := Recorded(forest, "", map[])[id];
            ParentsOf(cats)[id := if parent == "" then None else Some(parent)] == ParentsOf(cats)
  {
    ParentRoundTrip(cats, forest, id);
    RootedIsListed(cats, id);
  }

  /** A category under parent a, as the list holds it. */
  function Child(id: Id, parent: Option<Id>): Category {
    Category(id, id, id, parent, None)
  }

  lemma TwoRows(top: Option<Id>)
    requires top.Some? ==> top.value == "b"
    ensures var cats := [Child("a", top), Child("b", Some("a"))];
            UniqueIds(cats) && IdsOf(cats) == {"a", "b"} && ParentsOf(cats) == map["a" := top, "b" := Some("a")]
  {
    var cats := [Child("a", top), Child("b", Some("a"))];
    assert cats[0] in cats && cats[1] in cats;
    RowKnown(cats, cats[0]);
    RowKnown(cats, cats[1]);
  }

  lemma NoRoots(cats: seq<Category>)
    requires forall c :: c in cats ==> ParentIn(cats, c).Some?
    ensures Under(cats, cats, None) == []
  {
    if Under(cats, cats, None) != [] {
      UnderHolds(cats, cats, None, Under(cats, cats, None)[0]);
    }
  }

  /**
   The server alone does not keep this: it accepts a child as the new parent, and then
   the forest lists neither of the two.
   */
  lemma ServerLosesSubtree() returns (before: seq<Category>, after: seq<Category>)
    ensures MovedRow(before, after, "a", Some("b")) && AllRooted(ParentsOf(before))
    ensures IdsOf(after) == {"a", "b"} && ShowsForest(after, [])
  {
    hide ParentsOf, UniqueIds, IdsOf;
    before, after := [Child("a", None), Child("b", Some("a"))], [Child("a", Some("b")), Child("b", Some("a"))];
    TwoRows(None);
    TwoRows(Some("b"));
    var p := ParentsOf(before);
    assert HasDepth(p, "a", 0) && HasDepth(p, "b", 1);
    NoRoots(after);
  }
}
