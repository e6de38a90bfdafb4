/**
 The category service as it runs: nodes linked through child pointers in two passes, a
 recursive copy of the pointer graph into values, and the update of one row.
 */
module CategoryServices {
  import opened Wrappers
  import opened CategoryChains
  import opened CategoryTree

  class Node {
    const id: Id
    const name: string
    const slug: string
    const image: Option<string>
    var childPtrs: seq<Node>

    constructor (c: Category)
      ensures id == c.id && name == c.name && slug == c.slug && image == c.image && childPtrs == []
    {
      id, name, slug, image := c.id, c.name, c.slug, c.image;
      childPtrs := [];
    }
  }

  /** One node per category, in list order. */
  ghost predicate NodesOf(cats: seq<Category>, nodes: seq<Node>) {
    && |nodes| == |cats|
    && (forall i, j :: 0 <= i < j < |nodes| ==> nodes[i] != nodes[j])
    && forall i :: 0 <= i < |nodes| ==>
         && nodes[i].id == cats[i].id && nodes[i].name == cats[i].name
         && nodes[i].slug == cats[i].slug && nodes[i].image == cats[i].image
  }

  /** n is the node of category c. */
  ghost predicate IsNode(cats: seq<Category>, nodes: seq<Node>, n: Node, c: Category) {
    exists i :: 0 <= i < |cats| && i < |nodes| && cats[i] == c && nodes[i] == n
  }

  /** ptrs are the nodes of these categories, in this order. */
  ghost predicate PtrsTo(cats: seq<Category>, nodes: seq<Node>, ptrs: seq<Node>, cs: seq<Category>) {
    |ptrs| == |cs| && forall k :: 0 <= k < |ptrs| ==> IsNode(cats, nodes, ptrs[k], cs[k])
  }

  /** With the first n categories linked, every node points to its children among them. */
  ghost predicate Linked(cats: seq<Category>, nodes: seq<Node>, n: nat)
    requires |nodes| == |cats| && n <= |cats|
    reads nodes
  {
    forall i :: 0 <= i < |nodes| ==> PtrsTo(cats, nodes, nodes[i].childPtrs, Under(cats, cats[..n], Some(cats[i].id)))
  }

  lemma PtrsGrow(cats: seq<Category>, nodes: seq<Node>, ptrs: seq<Node>, at: Option<Id>, n: nat)
    requires |nodes| == |cats| && n < |cats|
    requires PtrsTo(cats, nodes, ptrs, Under(cats, cats[..n], at))
    ensures ParentIn(cats, cats[n]) == at ==> PtrsTo(cats, nodes, ptrs + [nodes[n]], Under(cats, cats[..n + 1], at))
    ensures ParentIn(cats, cats[n]) != at ==> PtrsTo(cats, nodes, ptrs, Under(cats, cats[..n + 1], at))
  {
    assert cats[..n + 1][..n] == cats[..n];
    assert IsNode(cats, nodes, nodes[n], cats[n]);
  }

  lemma NothingLinked(cats: seq<Category>, nodes: seq<Node>)
    requires |nodes| == |cats| && forall n :: n in nodes ==> n.childPtrs == []
    ensures Linked(cats, nodes, 0) && PtrsTo(cats, nodes, [], Under(cats, cats[..0], None))
  {
  }

  lemma NodeFields(cats: seq<Category>, nodes: seq<Node>, n: Node, c: Category)
    requires NodesOf(cats, nodes) && IsNode(cats, nodes, n, c)
    ensures c in cats && n.id == c.id && n.name == c.name && n.slug == c.slug && n.image == c.image
  {
  }

  lemma ChildPtrs(cats: seq<Category>, nodes: seq<Node>, n: Node, c: Category)
    requires |nodes| == |cats| && Linked(cats, nodes, |cats|) && IsNode(cats, nodes, n, c)
    ensures PtrsTo(cats, nodes, n.childPtrs, Under(cats, cats, Some(c.id)))
  {
    assert cats[..|cats|] == cats;
  }

  method BuildTree(cats: seq<Category>) returns (result: seq<Tree>)
    requires UniqueIds(cats)
    ensures ShowsForest(cats, result)
  {
    hide Under, Shows, ParentsOf, IsNode, HasDepth, UniqueIds, IdsOf;
    var nodeMap, nodes := CreateNodes(cats);
    var roots := LinkNodes(cats, nodeMap, nodes);
    ghost var top := Under(cats, cats, None);
    RootsKnown(cats);
    result := [];
    for k := 0 to |roots|
      modifies {}
      invariant |result| == k && forall j :: 0 <= j < k ==> Shows(cats, result[j], top[j])
    {
      assert top[k] in top;
      var t := Convert(cats, nodes, roots[k], top[k], 0);
      result := result + [t];
    }
  }

  method CreateNodes(cats: seq<Category>) returns (nodeMap: map<Id, Node>, ghost nodes: seq<Node>)
    requires UniqueIds(cats)
    ensures NodesOf(cats, nodes) && fresh(nodes) && forall n :: n in nodes ==> n.childPtrs == []
    ensures nodeMap.Keys == IdsOf(cats) && forall i :: 0 <= i < |cats| ==> nodeMap[cats[i].id] == nodes[i]
  {
    nodeMap, nodes := map[], [];
    for k := 0 to |cats|
      invariant NodesOf(cats[..k], nodes) && fresh(nodes) && forall n :: n in nodes ==> n.childPtrs == []
      invariant nodeMap.Keys == IdsOf(cats[..k])
      invariant forall i :: 0 <= i < k ==> cats[i].id in nodeMap && nodeMap[cats[i].id] == nodes[i]
    {
      var n := new Node(cats[k]);
      nodeMap := nodeMap[cats[k].id := n];
      nodes := nodes + [n];
      assert cats[..k + 1] == cats[..k] + [cats[k]];
    }
    assert cats[..|cats|] == cats;
  }

  /** The second pass: a category whose parent is listed becomes its child, any other a root. */
  method LinkNodes(cats: seq<Category>, nodeMap: map<Id, Node>, ghost nodes: seq<Node>) returns (roots: seq<Node>)
    requires UniqueIds(cats) && NodesOf(cats, nodes) && forall n :: n in nodes ==> n.childPtrs == []
    requires nodeMap.Keys == IdsOf(cats) && forall i :: 0 <= i < |cats| ==> nodeMap[cats[i].id] == nodes[i]
    modifies nodes
    ensures Linked(cats, nodes, |cats|) && PtrsTo(cats, nodes, roots, Under(cats, cats, None))
  {
    hide Under, PtrsTo, Linked, IsNode;
    NothingLinked(cats, nodes);
    roots := [];
    for k := 0 to |cats|
      invariant Linked(cats, nodes, k) && PtrsTo(cats, nodes, roots, Under(cats, cats[..k], None))
    {
      var c := cats[k];
      var n := nodeMap[c.id];
      PtrsGrow(cats, nodes, roots, None, k);
      if c.parent.Some? && c.parent.value in nodeMap {
        var parent := nodeMap[c.parent.value];
        AddChild(cats, nodes, parent, n, k);
      } else {
        SkipChild(cats, nodes, k);
        roots := roots + [n];
      }
    }
    assert cats[..|cats|] == cats;
  }

  /** parent.childPtrs = append(parent.childPtrs, n), for the k-th category. */
  method AddChild(ghost cats: seq<Category>, ghost nodes: seq<Node>, parent: Node, n: Node, ghost k: nat)
    requires UniqueIds(cats) && NodesOf(cats, nodes) && k < |cats| && Linked(cats, nodes, k)
    requires n == nodes[k] && parent in nodes && ParentIn(cats, cats[k]) == Some(parent.id)
    modifies parent
    ensures Linked(cats, nodes, k + 1)
  {
    hide Under, PtrsTo, IsNode, IdsOf, ParentIn;
    forall i | 0 <= i < |nodes|
      ensures nodes[i] == parent ==>
                PtrsTo(cats, nodes, nodes[i].childPtrs + [n], Under(cats, cats[..k + 1], Some(cats[i].id)))
      ensures nodes[i] != parent ==>
                PtrsTo(cats, nodes, nodes[i].childPtrs, Under(cats, cats[..k + 1], Some(cats[i].id)))
    {
      PtrsGrow(cats, nodes, nodes[i].childPtrs, Some(cats[i].id), k);
    }
    parent.childPtrs := parent.childPtrs + [n];
  }

  lemma SkipChild(cats: seq<Category>, nodes: seq<Node>, k: nat)
    requires |nodes| == |cats| && k < |cats| && Linked(cats, nodes, k) && ParentIn(cats, cats[k]) == None
    ensures Linked(cats, nodes, k + 1)
  {
    hide Under, PtrsTo, IsNode, IdsOf, ParentIn;
    forall i | 0 <= i < |nodes|
      ensures PtrsTo(cats, nodes, nodes[i].childPtrs, Under(cats, cats[..k + 1], Some(cats[i].id)))
    {
      PtrsGrow(cats, nodes, nodes[i].childPtrs, Some(cats[i].id), k);
    }
  }

  /** The third pass: the pointer graph below a node, copied into a value. */
  method Convert(ghost cats: seq<Category>, ghost nodes: seq<Node>, n: Node, ghost c: Category, ghost depth: nat)
    returns (t: Tree)
    requires UniqueIds(cats) && NodesOf(cats, nodes) && Linked(cats, nodes, |cats|)
    requires IsNode(cats, nodes, n, c) && HasDepth(ParentsOf(cats), c.id, depth)
    ensures Shows(cats, t, c)
    decreases |ParentsOf(cats)| - depth
  {
    hide Under, ParentsOf, IsNode, HasDepth, UniqueIds, Shows;
    ghost var under := Under(cats, cats, Some(c.id));
    NodeFields(cats, nodes, n, c);
    ChildPtrs(cats, nodes, n, c);
    var children: seq<Tree> := [];
    for k := 0 to |n.childPtrs|
      invariant |children| == k && forall j :: 0 <= j < k ==> Shows(cats, children[j], under[j])
    {
      ChildDeeper(cats, c, under[k], depth);
      var child := Convert(cats, nodes, n.childPtrs[k], under[k], depth + 1);
      children := children + [child];
    }
    t := Tree(n.id, n.name, n.slug, n.image, children);
    ShowsParts(cats, t, c);
  }

  /** Why the copying ends: each call is one level deeper, and no level is as deep as the list is long. */
  lemma ChildDeeper(cats: seq<Category>, c: Category, y: Category, depth: nat)
    requires UniqueIds(cats) && HasDepth(ParentsOf(cats), c.id, depth) && y in Under(cats, cats, Some(c.id))
    ensures HasDepth(ParentsOf(cats), y.id, depth + 1) && depth + 1 < |ParentsOf(cats)|
  {
    ChildrenKnown(cats, c);
    DepthBound(ParentsOf(cats), y.id, depth + 1);
  }

  lemma ShowsParts(cats: seq<Category>, t: Tree, c: Category)
    requires t.id == c.id && t.name == c.name && t.slug == c.slug && t.image == c.image
    requires ShowsAll(cats, t.children, Under(cats, cats, Some(c.id)))
    ensures Shows(cats, t, c)
  {
  }

  // ---------- updating a row ----------

  datatype UpdateResult = Updated(row: Category) | Invalid | OwnParent | NotFound | Exists | NoSuchParent

  /** No parent is asked for by a missing or an empty parent id. */
  function PlaceOf(parent: Option<Id>): Option<Id> {
    if parent == Some("") then None else parent
  }

  predicate ValidText(text: string) {
    1 <= |text| <= 255
  }

  /** The constraints of the table: primary key, unique names and slugs, parents that exist. */
  predicate ValidRows(rows: seq<Category>) {
    && UniqueIds(rows)
    && (forall i, j :: 0 <= i < j < |rows| ==> rows[i].name != rows[j].name && rows[i].slug != rows[j].slug)
    && (forall c :: c in rows && c.parent.Some? ==> c.parent.value in IdsOf(rows))
  }

  /** Another row holds this name or slug. */
  predicate Taken(rows: seq<Category>, id: Id, name: string, slug: string) {
    exists c :: c in rows && c.id != id && (c.name == name || c.slug == slug)
  }

  class Service {
    var rows: seq<Category>

    ghost predicate Valid()
      reads this
    {
      ValidRows(rows)
    }

    constructor ()
      ensures Valid() && rows == []
    {
      rows := [];
    }

    /**
     Update: the one check on the parent is that it is not the category itself. On
     success exactly this row changed, and in the parent relation exactly its place.
     */
    method Update(id: Id, name: string, slug: string, parent: Option<Id>) returns (r: UpdateResult)
      requires Valid()
      modifies this
      ensures Valid()
      ensures r.Invalid? <==> |name| < 1 || |name| > 255 || |slug| < 1 || |slug| > 255
      ensures r.OwnParent? <==> !r.Invalid? && parent == Some(id) && id != ""
      ensures r.Updated? <==>
        && !r.Invalid? && !r.OwnParent? && id in IdsOf(old(rows))
        && (forall c :: c in old(rows) && c.id != id ==> c.name != name && c.slug != slug)
        && (parent.Some? && parent.value != "" ==> parent.value in IdsOf(old(rows)))
      ensures !r.Updated? ==> rows == old(rows)
      ensures r.Updated? ==>
        && r.row == Category(id, name, slug, if parent == Some("") then None else parent, RowOf(old(rows), id).image)
        && IdsOf(rows) == IdsOf(old(rows)) && RowOf(rows, id) == r.row
        && (forall x :: x in IdsOf(rows) && x != id ==> RowOf(rows, x) == RowOf(old(rows), x))
        && ParentsOf(rows) == ParentsOf(old(rows))[id := if parent == Some("") then None else parent]
    {
      if !(ValidText(name) && ValidText(slug)) {
        return Invalid;
      }
      var place := None;
      if parent.Some? && parent.value != "" {
        if parent.value == id {
          return OwnParent;
        }
        place := parent;
      }
      r := UpdateRow(id, name, slug, place);
    }

    /** The repository's UPDATE ... RETURNING under the constraints of the table. */
    method UpdateRow(id: Id, name: string, slug: string, place: Option<Id>) returns (r: UpdateResult)
      requires Valid()
      modifies this
      ensures Valid() && !r.Invalid? && !r.OwnParent?
      ensures r.Updated? <==>
        && id in IdsOf(old(rows)) && !Taken(old(rows), id, name, slug)
        && (place.Some? ==> place.value in IdsOf(old(rows)))
      ensures !r.Updated? ==> rows == old(rows)
      ensures r.Updated? ==>
        && r.row == RowOf(old(rows), id).(name := name, slug := slug, parent := place)
        && IdsOf(rows) == IdsOf(old(rows)) && RowOf(rows, id) == r.row
        && (forall x :: x in IdsOf(rows) && x != id ==> RowOf(rows, x) == RowOf(old(rows), x))
        && ParentsOf(rows) == ParentsOf(old(rows))[id := place]
    {
      if id !in IdsOf(rows) {
        return NotFound;
      }
      if Taken(rows, id, name, slug) {
        return Exists;
      }
      if place.Some? && place.value !in IdsOf(rows) {
        return NoSuchParent;
      }
      var n := 0;
      while rows[n].id != id
        invariant 0 <= n < |rows| && forall i :: 0 <= i < n ==> rows[i].id != id
        decreases |rows| - n
      {
        n := n + 1;
      }
      var row := rows[n].(name := name, slug := slug, parent := place);
      RowChanged(rows, n, row);
      rows := rows[n := row];
      r := Updated(row);
    }
  }

  lemma RowChanged(rows: seq<Category>, n: nat, row: Category)
    requires ValidRows(rows) && n < |rows| && row.id == rows[n].id && !Taken(rows, row.id, row.name, row.slug)
    requires row.parent.Some? ==> row.parent.value in IdsOf(rows)
    ensures ValidRows(rows[n := row]) && IdsOf(rows[n := row]) == IdsOf(rows)
    ensures RowOf(rows, row.id) == rows[n] && RowOf(rows[n := row], row.id) == row
    ensures forall x :: x in IdsOf(rows) && x != row.id ==> RowOf(rows[n := row], x) == RowOf(rows, x)
    ensures ParentsOf(rows[n := row]) == ParentsOf(rows)[row.id := row.parent]
  {
    hide RowOf, ValidRows, UniqueIds, IdsOf, Taken;
    var after := rows[n := row];
    RowsChanged(rows, n, row);
    UniqueRows(rows);
    UniqueRows(after);
    assert rows[n] in rows && after[n] in after;
    RowKnown(rows, rows[n]);
    RowKnown(after, row);
    forall x | x in IdsOf(rows) && x != row.id ensures RowOf(after, x) == RowOf(rows, x) {
      OtherRow(rows, n, row, x);
    }
    PlaceChanged(rows, after, row);
  }

  lemma UniqueRows(rows: seq<Category>)
    requires ValidRows(rows)
    ensures UniqueIds(rows)
  {
  }

  lemma OtherRow(rows: seq<Category>, n: nat, row: Category, x: Id)
    requires n < |rows| && row.id == rows[n].id && UniqueIds(rows) && UniqueIds(rows[n := row])
    requires x in IdsOf(rows) && x in IdsOf(rows[n := row]) && x != row.id
    ensures RowOf(rows[n := row], x) == RowOf(rows, x)
  {
    hide RowOf, UniqueIds;
    var after, c := rows[n := row], RowOf(rows, x);
    var i :| 0 <= i < |rows| && rows[i] == c;
    assert after[i] == c;
    RowKnown(after, c);
  }

  lemma PlaceChanged(rows: seq<Category>, after: seq<Category>, row: Category)
    requires IdsOf(after) == IdsOf(rows) && row.id in IdsOf(rows) && RowOf(after, row.id) == row
    requires forall x :: x in IdsOf(rows) && x != row.id ==> RowOf(after, x) == RowOf(rows, x)
    requires row.parent.Some? ==> row.parent.value in IdsOf(rows)
    ensures ParentsOf(after) == ParentsOf(rows)[row.id := row.parent]
  {
    hide RowOf, IdsOf;
  }

  lemma RowsChanged(rows: seq<Category>, n: nat, row: Category)
    requires ValidRows(rows) && n < |rows| && row.id == rows[n].id && !Taken(rows, row.id, row.name, row.slug)
    requires row.parent.Some? ==> row.parent.value in IdsOf(rows)
    ensures ValidRows(rows[n := row]) && IdsOf(rows[n := row]) == IdsOf(rows)
  {
    var after := rows[n := row];
    forall x ensures x in IdsOf(after) <==> x in IdsOf(rows) {
      if x in IdsOf(rows) {
        var i :| 0 <= i < |rows| && rows[i].id == x;
        assert after[i] in after && after[i].id == x;
      }
    }
    forall i, j | 0 <= i < j < |after| ensures after[i].name != after[j].name && after[i].slug != after[j].slug {
      assert rows[i] in rows && rows[j] in rows;
    }
    forall c | c in after && c.parent.Some? ensures c.parent.value in IdsOf(after) {
      assert c == row || c in rows;
    }
  }
}
