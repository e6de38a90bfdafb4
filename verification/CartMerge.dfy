/** Merging a guest cart into a user cart. */
module CartMerge {
  import opened Wrappers

  // A loop of capped upserts, then the deletion of the guest cart. The statements do not
  // share a transaction, so a failing one leaves what was done before it.

  type ProductId = nat

  type CartId = nat

  datatype Owner = User(id: nat) | Guest(session: nat)

  datatype Item = Item(product: ProductId, quantity: nat)

  datatype Cart = Cart(owner: Owner, items: seq<Item>)

  /** A cart row joined with its product. */
  datatype Detail = Detail(product: ProductId, quantity: nat, stock: int)

  predicate Distinct(items: seq<Item>) {
    forall i, j :: 0 <= i < j < |items| ==> items[i].product != items[j].product
  }

  function Qty(items: seq<Item>, p: ProductId): nat {
    if items == [] then 0
    else if items[0].product == p then items[0].quantity
    else Qty(items[1..], p)
  }

  predicate Priced(items: seq<Item>, stock: map<ProductId, int>) {
    forall i :: 0 <= i < |items| ==> items[i].product in stock
  }

  function InStock(stock: map<ProductId, int>, p: ProductId): int {
    if p in stock then stock[p] else 0
  }

  function Details(items: seq<Item>, stock: map<ProductId, int>): seq<Detail> {
    seq(|items|, i requires 0 <= i < |items| =>
          Detail(items[i].product, items[i].quantity, InStock(stock, items[i].product)))
  }

  /** INSERT ... ON CONFLICT (cart_id, product_id) DO UPDATE: bump the row or append one. */
  function Upsert(items: seq<Item>, p: ProductId, n: nat): seq<Item> {
    if items == [] then [Item(p, n)]
    else if items[0].product == p then [Item(p, items[0].quantity + n)] + items[1..]
    else [items[0]] + Upsert(items[1..], p, n)
  }

  /** How much of g still fits on top of u. */
  function Fitting(u: nat, g: nat, stock: int): nat {
    if stock <= u then 0 else if g <= stock - u then g else stock - u
  }

  /** The user's items after the guest items gs were gone through; `was` is what the user had at the start. */
  function Transferred(was: seq<Item>, gs: seq<Detail>): seq<Item> {
    if gs == [] then was
    else
      var g := gs[|gs| - 1];
      var before := Transferred(was, gs[..|gs| - 1]);
      if g.stock <= Qty(was, g.product) then before
      else Upsert(before, g.product, Fitting(Qty(was, g.product), g.quantity, g.stock))
  }

  /** The join shows every row of a cart with its own quantity and the stock of its product. */
  lemma DetailsExact(items: seq<Item>, stock: map<ProductId, int>, i: nat)
    requires Priced(items, stock) && i < |items|
    ensures |Details(items, stock)| == |items|
    ensures Details(items, stock)[i] == Detail(items[i].product, items[i].quantity, stock[items[i].product])
  {
  }

  // ---------- the formula ----------

  lemma {:induction false} UpsertQty(items: seq<Item>, p: ProductId, n: nat, q: ProductId)
    ensures Qty(Upsert(items, p, n), q) == Qty(items, q) + if p == q then n else 0
  {
    if items != [] && items[0].product != p {
      UpsertQty(items[1..], p, n, q);
    }
  }

  predicate Has(items: seq<Item>, p: ProductId) {
    exists i :: 0 <= i < |items| && items[i].product == p
  }

  lemma {:induction false} UpsertHas(items: seq<Item>, p: ProductId, n: nat, q: ProductId)
    ensures Has(Upsert(items, p, n), q) <==> Has(items, q) || p == q
  {
    var up := Upsert(items, p, n);
    if items == [] || items[0].product == p {
      assert up[0].product == p;
      forall i | 0 < i < |items| ensures up[i] == items[i] { }
    } else {
      UpsertHas(items[1..], p, n, q);
      assert up[0] == items[0] && up[1..] == Upsert(items[1..], p, n);
      if Has(items[1..], q) {
        var i :| 0 <= i < |items[1..]| && items[1..][i].product == q;
        assert items[i + 1].product == q;
      }
      if Has(up[1..], q) {
        var i :| 0 <= i < |up[1..]| && up[1..][i].product == q;
        assert up[i + 1].product == q;
      }
      if i :| 0 < i < |up| && up[i].product == q {
        assert up[1..][i - 1].product == q;
      }
      if i :| 0 < i < |items| && items[i].product == q {
        assert items[1..][i - 1].product == q;
      }
    }
  }

  lemma {:induction false} DistinctParts(items: seq<Item>)
    requires items != []
    ensures Distinct(items) <==> Distinct(items[1..]) && !Has(items[1..], items[0].product)
  {
    if Distinct(items) {
      forall i | 0 <= i < |items[1..]| ensures items[1..][i].product != items[0].product {
        assert items[1..][i] == items[i + 1];
      }
    } else {
      var i, j :| 0 <= i < j < |items| && items[i].product == items[j].product;
      assert items[1..][j - 1] == items[j];
      if i > 0 { assert items[1..][i - 1] == items[i]; }
    }
  }

  /** The unique (cart, product) key survives an upsert. */
  lemma {:induction false} UpsertDistinct(items: seq<Item>, p: ProductId, n: nat)
    requires Distinct(items)
    ensures Distinct(Upsert(items, p, n))
  {
    hide Distinct, Has;
    DistinctParts(Upsert(items, p, n));
    if items == [] {
      NoItems(p);
      assert Upsert(items, p, n)[1..] == [];
    } else {
      DistinctParts(items);
      if items[0].product != p {
        UpsertDistinct(items[1..], p, n);
        UpsertHas(items[1..], p, n, items[0].product);
      }
    }
  }

  /** An upsert bumps the row of its product where it stands, or appends one. */
  lemma {:induction false} UpsertExact(items: seq<Item>, p: ProductId, n: nat, i: nat)
    requires Distinct(items)
    ensures i < |items| && items[i].product == p ==> Upsert(items, p, n) == items[i := Item(p, items[i].quantity + n)]
    ensures (forall j :: 0 <= j < |items| ==> items[j].product != p) ==> Upsert(items, p, n) == items + [Item(p, n)]
  {
    if items != [] {
      DistinctParts(items);
      UpsertExact(items[1..], p, n, if i > 0 then i - 1 else 0);
      if i < |items| && items[i].product == p && items[0].product != p {
        assert items[1..][i - 1] == items[i];
        assert items[i := Item(p, items[i].quantity + n)]
            == [items[0]] + items[1..][i - 1 := Item(p, items[i].quantity + n)];
      }
      if forall j :: 0 <= j < |items| ==> items[j].product != p {
        forall j | 0 <= j < |items[1..]| ensures items[1..][j].product != p {
          assert items[1..][j] == items[j + 1];
        }
        assert items + [Item(p, n)] == [items[0]] + (items[1..] + [Item(p, n)]);
      }
    }
  }

  lemma NoItems(p: ProductId)
    ensures Distinct([]) && !Has([], p)
  {
  }

  lemma {:induction false} QtyWithoutLast(items: seq<Item>, p: ProductId)
    requires items != [] && Distinct(items)
    ensures var last := items[|items| - 1];
            Qty(items, p) == if last.product == p then last.quantity else Qty(items[..|items| - 1], p)
    ensures var last := items[|items| - 1]; Qty(items[..|items| - 1], last.product) == 0
  {
    if |items| > 1 {
      QtyWithoutLast(items[1..], p);
      assert items[1..][..|items| - 2] == items[..|items| - 1][1..];
    }
  }

  /**
   For every product, the merged cart holds the user's quantity plus what fits of the
   guest's under the stock; the unique key survives.
   */
  lemma {:induction false} MergeFormula(was: seq<Item>, guest: seq<Item>, stock: map<ProductId, int>, p: ProductId)
    requires Distinct(was) && Distinct(guest)
    ensures var had, more, shelf := Qty(was, p), Qty(guest, p), if p in stock then stock[p] else 0;
            Qty(Transferred(was, Details(guest, stock)), p)
              == if shelf <= had then had else if had + more <= shelf then had + more else shelf
    ensures Distinct(Transferred(was, Details(guest, stock)))
  {
    hide Distinct;
    var gs := Details(guest, stock);
    if guest != [] {
      var front := guest[..|guest| - 1];
      assert gs[..|gs| - 1] == Details(front, stock);
      DistinctFront(guest);
      MergeFormula(was, front, stock, p);
      QtyWithoutLast(guest, p);
      var g, before := gs[|gs| - 1], Transferred(was, gs[..|gs| - 1]);
      UpsertQty(before, g.product, Fitting(Qty(was, g.product), g.quantity, g.stock), p);
      UpsertDistinct(before, g.product, Fitting(Qty(was, g.product), g.quantity, g.stock));
    }
  }

  lemma DistinctFront(items: seq<Item>)
    requires items != [] && Distinct(items)
    ensures Distinct(items[..|items| - 1])
  {
  }

  /** No quantity ends above the stock unless the user already had more, and nothing the user had is lost. */
  lemma MergedWithinStock(was: seq<Item>, guest: seq<Item>, stock: map<ProductId, int>, p: ProductId)
    requires Distinct(was) && Distinct(guest)
    ensures var merged, u := Qty(Transferred(was, Details(guest, stock)), p), Qty(was, p);
            && u <= merged <= u + Qty(guest, p)
            && (merged > u ==> p in stock && merged <= stock[p])
            && (!Has(guest, p) ==> merged == u)
  {
    MergeFormula(was, guest, stock, p);
    if !Has(guest, p) { AbsentQty(guest, p); }
  }

  lemma {:induction false} AbsentQty(items: seq<Item>, p: ProductId)
    requires !Has(items, p)
    ensures Qty(items, p) == 0
  {
    if items != [] {
      assert items[0].product != p;
      forall i | 0 <= i < |items[1..]| ensures items[1..][i].product != p {
        assert items[i + 1].product != p;
      }
      AbsentQty(items[1..], p);
    }
  }

  /** What merges that failed leave behind: the n-th one got through the first ks[n] of the guest's items. */
  function LeftBehind(was: seq<Item>, guest: seq<Item>, stock: map<ProductId, int>, ks: seq<nat>): seq<Item>
    requires forall n :: 0 <= n < |ks| ==> ks[n] <= |guest|
  {
    if ks == [] then was
    else Transferred(LeftBehind(was, guest, stock, ks[..|ks| - 1]), Details(guest[..ks[|ks| - 1]], stock))
  }

  lemma {:induction false} PrefixQty(items: seq<Item>, k: nat, p: ProductId)
    requires Distinct(items) && k <= |items|
    ensures Distinct(items[..k]) && (Qty(items[..k], p) == 0 || Qty(items[..k], p) == Qty(items, p))
  {
    if k < |items| {
      PrefixQty(items[..|items| - 1], k, p);
      assert items[..|items| - 1][..k] == items[..k];
      QtyWithoutLast(items, p);
    } else {
      assert items[..k] == items;
    }
  }

  /** None of the failed merges got to product p. */
  predicate NotReached(guest: seq<Item>, ks: seq<nat>, p: ProductId)
    requires forall n :: 0 <= n < |ks| ==> ks[n] <= |guest|
  {
    forall n :: 0 <= n < |ks| ==> Qty(guest[..ks[n]], p) == 0
  }

  lemma {:induction false} LeftBehindQty(was: seq<Item>, guest: seq<Item>, stock: map<ProductId, int>, ks: seq<nat>, p: ProductId)
    requires Distinct(was) && Distinct(guest) && forall n :: 0 <= n < |ks| ==> ks[n] <= |guest|
    ensures Distinct(LeftBehind(was, guest, stock, ks))
    ensures var left, u, g := Qty(LeftBehind(was, guest, stock, ks), p), Qty(was, p), Qty(guest, p);
            && u <= left && (left == u || left <= InStock(stock, p))
            && (NotReached(guest, ks, p) ==> left == u)
            && (!NotReached(guest, ks, p) && u + g <= InStock(stock, p) ==> u + g <= left)
  {
    hide Distinct;
    if ks != [] {
      var front, k := ks[..|ks| - 1], ks[|ks| - 1];
      LeftBehindQty(was, guest, stock, front, p);
      PrefixQty(guest, k, p);
      MergeFormula(LeftBehind(was, guest, stock, front), guest[..k], stock, p);
      if NotReached(guest, front, p) && Qty(guest[..k], p) == 0 {
        assert NotReached(guest, ks, p);
      }
    }
  }

  /**
   After any number of merges that failed, each after any number of its upserts, the
   repeated merge gives the quantity of a single one exactly when none of them got to
   the product, or the stock cuts the guest's quantity down, or fits it exactly.
   */
  lemma {:induction false} RepeatedMergeIff(was: seq<Item>, guest: seq<Item>, stock: map<ProductId, int>, ks: seq<nat>, p: ProductId)
    requires Distinct(was) && Distinct(guest) && forall n :: 0 <= n < |ks| ==> ks[n] <= |guest|
    ensures Qty(Transferred(LeftBehind(was, guest, stock, ks), Details(guest, stock)), p)
         == Qty(Transferred(was, Details(guest, stock)), p)
       <==> NotReached(guest, ks, p) || (if p in stock then stock[p] else 0) <= Qty(was, p) + Qty(guest, p)
  {
    hide Distinct;
    MergeFormula(was, guest, stock, p);
    LeftBehindQty(was, guest, stock, ks, p);
    MergeFormula(LeftBehind(was, guest, stock, ks), guest, stock, p);
    if Qty(guest, p) == 0 { ReachesNothing(guest, ks, p); }
  }

  lemma ReachesNothing(guest: seq<Item>, ks: seq<nat>, p: ProductId)
    requires Distinct(guest) && Qty(guest, p) == 0 && forall n :: 0 <= n < |ks| ==> ks[n] <= |guest|
    ensures NotReached(guest, ks, p)
  {
    forall n | 0 <= n < |ks| ensures Qty(guest[..ks[n]], p) == 0 { PrefixQty(guest, ks[n], p); }
  }

  // ---------- the tables and the service ----------

  datatype Reply =
    | Failure
    | InvalidStrategy
    | Items(items: seq<Detail>)

  datatype Status =
    | Unknown
    | NoConflict
    | AutoMerged(user: seq<Detail>)
    | Conflict(guest: seq<Detail>, user: seq<Detail>)

  predicate OneCartEach(carts: map<CartId, Cart>) {
    forall c, d :: c in carts && d in carts && carts[c].owner == carts[d].owner ==> c == d
  }

  predicate Keyed(carts: map<CartId, Cart>, stock: map<ProductId, int>) {
    forall c :: c in carts ==> Distinct(carts[c].items) && Priced(carts[c].items, stock)
  }

  predicate Owns(carts: map<CartId, Cart>, o: Owner) {
    exists c :: c in carts && carts[c].owner == o
  }

  /** What an owner has in the cart; an owner without a cart has nothing. */
  ghost function ItemsOf(carts: map<CartId, Cart>, o: Owner): seq<Item> {
    if Owns(carts, o) then
      var c :| c in carts && carts[c].owner == o;
      carts[c].items
    else []
  }

  lemma CartOf(carts: map<CartId, Cart>, c: CartId)
    requires OneCartEach(carts) && c in carts
    ensures Owns(carts, carts[c].owner) && ItemsOf(carts, carts[c].owner) == carts[c].items
  {
  }

  lemma ItemsSet(carts: map<CartId, Cart>, c: CartId, cart: Cart, o: Owner)
    requires OneCartEach(carts) && (forall d :: d in carts && carts[d].owner == cart.owner ==> d == c)
    requires c in carts ==> carts[c].owner == cart.owner
    ensures OneCartEach(carts[c := cart]) && (Owns(carts[c := cart], o) <==> Owns(carts, o) || o == cart.owner)
    ensures ItemsOf(carts[c := cart], o) == if o == cart.owner then cart.items else ItemsOf(carts, o)
  {
    var after := carts[c := cart];
    assert c in after && after[c] == cart;
    if d :| d in carts && carts[d].owner == o {
      assert d in after && after[d].owner == o;
    }
  }

  /** Changing the items of cart c changes no other owner's cart. */
  lemma OthersSame(before: map<CartId, Cart>, after: map<CartId, Cart>, c: CartId, o: Owner)
    requires OneCartEach(before) && c in before && after.Keys == before.Keys && after[c].owner == before[c].owner
    requires forall d :: d in after && d != c ==> after[d] == before[d]
    ensures Owns(after, o) <==> Owns(before, o)
    ensures o != before[c].owner ==> ItemsOf(after, o) == ItemsOf(before, o)
  {
    assert after == before[c := after[c]];
    ItemsSet(before, c, after[c], o);
  }

  lemma CartDeleted(carts: map<CartId, Cart>, c: CartId, o: Owner)
    requires OneCartEach(carts) && c in carts
    ensures OneCartEach(carts - {c}) && (Owns(carts - {c}, o) <==> Owns(carts, o) && o != carts[c].owner)
    ensures ItemsOf(carts - {c}, o) == if o == carts[c].owner then [] else ItemsOf(carts, o)
  {
    var after := carts - {c};
    if d :| d in carts && carts[d].owner == o && o != carts[c].owner {
      assert d in after && after[d].owner == o;
    }
  }

  class Service {
    var carts: map<CartId, Cart>
    var stock: map<ProductId, int>
    var nextId: CartId

    /** How many statements have failed so far. */
    ghost var outages: nat

    ghost predicate Valid()
      reads this`carts, this`stock, this`nextId
    {
      OneCartEach(carts) && Keyed(carts, stock) && forall c :: c in carts ==> c < nextId
    }

    constructor (shelf: map<ProductId, int>)
      ensures Valid() && carts == map[] && stock == shelf
    {
      carts, stock, nextId, outages := map[], shelf, 0, 0;
    }

    /** Whether the database answers the next statement. */
    method Reachable() returns (up: bool)
      modifies this`outages
      ensures outages == old(outages) + if up then 0 else 1
    {
      up := *;
      if !up {
        outages := outages + 1;
      }
    }

    // ---------- the repository ----------

    method GetBy(o: Owner) returns (found: Option<CartId>)
      ensures found.Some? ==> found.value in carts && carts[found.value].owner == o
      ensures found.None? ==> !Owns(carts, o)
    {
      if c :| c in carts && carts[c].owner == o {
        found := Some(c);
      } else {
        found := None;
      }
    }

    method GetOrCreateByUser(u: nat) returns (c: CartId)
      requires Valid()
      modifies this`carts, this`nextId
      ensures Valid()
      ensures c in carts && carts[c].owner == User(u) && carts[c].items == ItemsOf(old(carts), User(u))
      ensures forall d :: d in old(carts) ==> d in carts && carts[d] == old(carts)[d]
      ensures forall o :: ItemsOf(carts, o) == ItemsOf(old(carts), o)
      ensures forall o :: Owns(carts, o) <==> Owns(old(carts), o) || o == User(u)
    {
      var found := GetBy(User(u));
      if found.Some? {
        CartOf(carts, found.value);
        return found.value;
      }
      c := nextId;
      forall o {
        ItemsSet(carts, c, Cart(User(u), []), o);
      }
      carts, nextId := carts[c := Cart(User(u), [])], c + 1;
    }

    method GetItems(c: CartId) returns (items: seq<Detail>)
      requires Valid() && c in carts
      ensures items == Details(carts[c].items, stock)
    {
      items := [];
      var rows := carts[c].items;
      for k := 0 to |rows|
        invariant items == Details(rows, stock)[..k]
      {
        items := items + [Detail(rows[k].product, rows[k].quantity, InStock(stock, rows[k].product))];
      }
    }

    method AddItem(c: CartId, p: ProductId, n: nat)
      requires Valid() && c in carts && p in stock
      modifies this`carts
      ensures Valid() && carts == old(carts)[c := old(carts)[c].(items := Upsert(old(carts)[c].items, p, n))]
    {
      var cart := carts[c].(items := Upsert(carts[c].items, p, n));
      UpsertDistinct(carts[c].items, p, n);
      UpsertPriced(carts[c].items, p, n, stock);
      carts := carts[c := cart];
    }

    /** Deletes the cart row; its items go with it. */
    method DeleteCart(c: CartId)
      requires Valid() && c in carts
      modifies this`carts
      ensures Valid() && carts == old(carts) - {c}
      ensures forall o :: ItemsOf(carts, o) == if o == old(carts)[c].owner then [] else ItemsOf(old(carts), o)
      ensures forall o :: Owns(carts, o) <==> Owns(old(carts), o) && o != old(carts)[c].owner
    {
      forall o {
        CartDeleted(carts, c, o);
      }
      carts := carts - {c};
    }

    // ---------- the service ----------

    method LoadCartAndItems(o: Owner) returns (cart: Option<CartId>, items: seq<Detail>)
      requires Valid()
      ensures cart.Some? ==> cart.value in carts && carts[cart.value].owner == o && items == Details(carts[cart.value].items, stock)
      ensures cart.None? ==> !Owns(carts, o) && items == []
    {
      cart := GetBy(o);
      items := [];
      if cart.Some? {
        items := GetItems(cart.value);
      }
    }

    /** Some of the guest items were added, and the guest cart is untouched unless all were. */
    ghost predicate Partly(before: map<CartId, Cart>, u: nat, session: nat)
      reads this
    {
      var gs := Details(ItemsOf(before, Guest(session)), stock);
      exists k :: 0 <= k <= |gs|
        && ItemsOf(carts, User(u)) == Transferred(ItemsOf(before, User(u)), gs[..k])
        && (k < |gs| ==> Owns(carts, Guest(session)))
        && (Owns(carts, Guest(session)) ==> ItemsOf(carts, Guest(session)) == ItemsOf(before, Guest(session)))
    }

    /**
     transferItems. A failure on the way keeps what was added so far, and the guest cart
     is deleted only after all of it was added.
     */
    method TransferItems(u: nat, ghost session: nat, guest: CartId, guestItems: seq<Detail>) returns (r: Reply)
      requires Valid() && guest in carts && carts[guest].owner == Guest(session) && guestItems == Details(carts[guest].items, stock)
      modifies this
      ensures Valid() && stock == old(stock) && !r.InvalidStrategy?
      ensures forall o :: o != User(u) && o != Guest(session) ==> ItemsOf(carts, o) == ItemsOf(old(carts), o)
      ensures r.Items? ==>
        && ItemsOf(carts, User(u)) == Transferred(ItemsOf(old(carts), User(u)), guestItems)
        && !Owns(carts, Guest(session)) && r.items == Details(ItemsOf(carts, User(u)), stock)
      ensures r.Failure? <==> outages > old(outages)
      ensures r.Failure? ==> Partly(old(carts), u, session)
    {
      hide Upsert, Distinct;
      var up := Reachable();
      CartOf(carts, guest);
      ghost var was := ItemsOf(carts, User(u));
      NothingDone(u, session);
      if !up { return Failure; }
      var c := GetOrCreateByUser(u);
      up := Reachable();
      if !up { return Failure; }
      var existing := GetItems(c);
      var existingQty := Quantities(existing, was);
      ghost var before := carts;
      up := AddAll(c, guest, guestItems, existingQty, was);
      forall o {
        OthersSame(before, carts, c, o);
      }
      CartOf(carts, c);
      if !up { return Failure; }
      assert guestItems[..|guestItems|] == guestItems;
      r := CloseGuest(u, session, guest, c);
    }

    /** The end of transferItems: the guest cart deleted, the user's items shown. */
    method CloseGuest(ghost u: nat, ghost session: nat, guest: CartId, c: CartId) returns (r: Reply)
      requires Valid() && guest in carts && carts[guest].owner == Guest(session) && c in carts && carts[c].owner == User(u)
      modifies this`carts, this`outages
      ensures Valid() && !r.InvalidStrategy?
      ensures forall o :: o != Guest(session) ==> ItemsOf(carts, o) == ItemsOf(old(carts), o)
      ensures Owns(carts, Guest(session)) ==> ItemsOf(carts, Guest(session)) == ItemsOf(old(carts), Guest(session))
      ensures r.Items? ==> !Owns(carts, Guest(session)) && r.items == Details(ItemsOf(carts, User(u)), stock)
      ensures r.Failure? <==> outages > old(outages)
    {
      var up := Reachable();
      if !up { return Failure; }
      DeleteCart(guest);
      up := Reachable();
      if !up { return Failure; }
      CartOf(carts, c);
      var items := GetItems(c);
      r := Items(items);
    }

    method Quantities(existing: seq<Detail>, ghost was: seq<Item>) returns (qty: map<ProductId, nat>)
      requires Distinct(was) && existing == Details(was, stock)
      ensures forall p :: Qty(was, p) == if p in qty then qty[p] else 0
    {
      qty := map[];
      for k := 0 to |existing|
        invariant forall p :: Qty(was[..k], p) == if p in qty then qty[p] else 0
      {
        var it := existing[k];
        assert it.product == was[k].product && it.quantity == was[k].quantity;
        qty := qty[it.product := it.quantity];
        forall p ensures Qty(was[..k + 1], p) == if p in qty then qty[p] else 0 {
          assert was[..k + 1][..k] == was[..k];
          QtyWithoutLast(was[..k + 1], p);
        }
      }
      assert was[..|existing|] == was;
    }

    /** The loop of transferItems; false when an upsert failed. */
    method AddAll(c: CartId, guest: CartId, guestItems: seq<Detail>, existingQty: map<ProductId, nat>, ghost was: seq<Item>)
      returns (up: bool)
      requires Valid() && c in carts && guest in carts && c != guest && carts[c].items == was
      requires guestItems == Details(carts[guest].items, stock)
      requires forall p :: Qty(was, p) == if p in existingQty then existingQty[p] else 0
      modifies this`carts, this`outages
      ensures Valid() && carts.Keys == old(carts.Keys) && carts[c].owner == old(carts)[c].owner
      ensures forall d :: d in carts && d != c ==> carts[d] == old(carts)[d]
      ensures outages == old(outages) + if up then 0 else 1
      ensures up ==> carts[c].items == Transferred(was, guestItems)
      ensures exists k :: 0 <= k <= |guestItems| && carts[c].items == Transferred(was, guestItems[..k])
    {
      hide Upsert, Distinct, ItemsOf, Qty, Owns;
      for n := 0 to |guestItems|
        invariant Valid() && carts.Keys == old(carts.Keys) && carts[c].owner == old(carts)[c].owner
        invariant forall d :: d in carts && d != c ==> carts[d] == old(carts)[d]
        invariant carts[c].items == Transferred(was, guestItems[..n]) && outages == old(outages)
      {
        var g := guestItems[n];
        assert guestItems[..n + 1][..n] == guestItems[..n];
        var room := g.stock - if g.product in existingQty then existingQty[g.product] else 0;
        if room > 0 {
          var addQty := g.quantity;
          if addQty > room {
            addQty := room;
          }
          up := Reachable();
          if !up { return; }
          AddItem(c, g.product, addQty);
        }
      }
      up := true;
      assert guestItems[..|guestItems|] == guestItems;
    }

    /**
     Merge. The guest strategy ends with the merged quantities, the user strategy with
     the user's own; either way the guest cart is gone and no other cart changed.
     */
    method Merge(u: nat, session: nat, strategy: string) returns (r: Reply)
      requires Valid()
      modifies this
      ensures Valid() && stock == old(stock)
      ensures r.InvalidStrategy? <==> strategy != "guest" && strategy != "user"
      ensures r.InvalidStrategy? ==> carts == old(carts)
      ensures forall o :: o != User(u) && o != Guest(session) ==> ItemsOf(carts, o) == ItemsOf(old(carts), o)
      ensures r.Items? ==> !Owns(carts, Guest(session)) && r.items == Details(ItemsOf(carts, User(u)), stock)
      ensures r.Items? && strategy == "guest" ==>
        forall p ::
          var had, more := Qty(ItemsOf(old(carts), User(u)), p), Qty(ItemsOf(old(carts), Guest(session)), p);
          var shelf := if p in stock then stock[p] else 0;
          Qty(ItemsOf(carts, User(u)), p) == if shelf <= had then had else if had + more <= shelf then had + more else shelf
      ensures strategy == "user" ==> ItemsOf(carts, User(u)) == ItemsOf(old(carts), User(u))
      ensures r.Failure? <==> outages > old(outages)
      ensures r.Failure? && strategy == "guest" ==> Partly(old(carts), u, session)
    {
      if strategy != "guest" && strategy != "user" {
        return InvalidStrategy;
      }
      ghost var was, guests := ItemsOf(carts, User(u)), ItemsOf(carts, Guest(session));
      NothingDone(u, session);
      var up := Reachable();
      if !up { return Failure; }
      var guest, guestItems := LoadCartAndItems(Guest(session));
      assert guestItems == Details(guests, stock);
      ItemsDistinct(User(u));
      ItemsDistinct(Guest(session));
      FormulaForAll(was, guests);
      if strategy == "guest" && guest.Some? && |guestItems| > 0 {
        r := TransferItems(u, session, guest.value, guestItems);
        return;
      }
      r := Discard(u, session, guest);
    }

    /** What an owner without quantities to add comes to: the guest cart deleted, the user's own shown. */
    method Discard(u: nat, session: nat, guest: Option<CartId>) returns (r: Reply)
      requires Valid()
      requires if guest.Some? then guest.value in carts && carts[guest.value].owner == Guest(session) else !Owns(carts, Guest(session))
      modifies this
      ensures Valid() && stock == old(stock) && !r.InvalidStrategy?
      ensures forall o :: o != Guest(session) ==> ItemsOf(carts, o) == ItemsOf(old(carts), o)
      ensures Owns(carts, Guest(session)) ==> ItemsOf(carts, Guest(session)) == ItemsOf(old(carts), Guest(session))
      ensures r.Failure? <==> outages > old(outages)
      ensures r.Items? ==> !Owns(carts, Guest(session)) && r.items == Details(ItemsOf(carts, User(u)), stock)
    {
      var up := Reachable();
      if !up { return Failure; }
      if guest.Some? {
        DeleteCart(guest.value);
      }
      up := Reachable();
      if !up { return Failure; }
      var c := GetOrCreateByUser(u);
      up := Reachable();
      if !up { return Failure; }
      CartOf(carts, c);
      var items := GetItems(c);
      r := Items(items);
    }

    lemma NothingDone(u: nat, session: nat)
      ensures Partly(carts, u, session)
    {
      assert Details(ItemsOf(carts, Guest(session)), stock)[..0] == [];
    }

    lemma FormulaForAll(was: seq<Item>, guest: seq<Item>)
      requires Distinct(was) && Distinct(guest)
      ensures forall p ::
                var had, more, shelf := Qty(was, p), Qty(guest, p), if p in stock then stock[p] else 0;
                Qty(Transferred(was, Details(guest, stock)), p)
                  == if shelf <= had then had else if had + more <= shelf then had + more else shelf
    {
      forall p
        ensures var had, more, shelf := Qty(was, p), Qty(guest, p), if p in stock then stock[p] else 0;
                Qty(Transferred(was, Details(guest, stock)), p)
                  == if shelf <= had then had else if had + more <= shelf then had + more else shelf
      {
        MergeFormula(was, guest, stock, p);
      }
    }

    lemma ItemsDistinct(o: Owner)
      requires Valid()
      ensures Distinct(ItemsOf(carts, o))
    {
    }

    /**
     MergeStatus. A guest cart with items and a user without any are merged at once; two
     carts with items are a conflict for the shopper to decide; otherwise nothing happens.
     */
    method MergeStatus(u: nat, session: Option<nat>) returns (r: Status)
      requires Valid()
      modifies this
      ensures Valid() && stock == old(stock)
      ensures forall o :: o != User(u) && (session.None? || o != Guest(session.value)) ==>
                ItemsOf(carts, o) == ItemsOf(old(carts), o)
      ensures r.NoConflict? ==>
        carts == old(carts) && (session.None? || ItemsOf(carts, Guest(session.value)) == [])
      ensures r.Conflict? ==>
        && carts == old(carts) && session.Some? && ItemsOf(carts, Guest(session.value)) != [] && ItemsOf(carts, User(u)) != []
        && r.guest == Details(ItemsOf(carts, Guest(session.value)), stock)
        && r.user == Details(ItemsOf(carts, User(u)), stock)
      ensures r.AutoMerged? ==>
        && session.Some? && ItemsOf(old(carts), Guest(session.value)) != [] && ItemsOf(old(carts), User(u)) == []
        && !Owns(carts, Guest(session.value)) && r.user == Details(ItemsOf(carts, User(u)), stock)
        && forall p ::
             var more, shelf := Qty(ItemsOf(old(carts), Guest(session.value)), p), if p in stock then stock[p] else 0;
             Qty(ItemsOf(carts, User(u)), p) == if shelf <= 0 then 0 else if more <= shelf then more else shelf
      ensures r.Unknown? <==> outages > old(outages)
      ensures r.Unknown? ==> session.Some? && Partly(old(carts), u, session.value)
    {
      if session.None? {
        return NoConflict;
      }
      NothingDone(u, session.value);
      var up := Reachable();
      if !up { return Unknown; }
      var guest, guestItems := LoadCartAndItems(Guest(session.value));
      if guest.None? || |guestItems| == 0 {
        return NoConflict;
      }
      up := Reachable();
      if !up { return Unknown; }
      var user, userItems := LoadCartAndItems(User(u));
      if user.None? || |userItems| == 0 {
        ghost var guests := ItemsOf(carts, Guest(session.value));
        ItemsDistinct(Guest(session.value));
        FormulaForAll([], guests);
        var merged := TransferItems(u, session.value, guest.value, guestItems);
        return if merged.Items? then AutoMerged(merged.items) else Unknown;
      }
      r := Conflict(guestItems, userItems);
    }
  }

  lemma {:induction false} UpsertPriced(items: seq<Item>, p: ProductId, n: nat, stock: map<ProductId, int>)
    requires Priced(items, stock) && p in stock
    ensures Priced(Upsert(items, p, n), stock)
  {
    if items != [] && items[0].product != p {
      UpsertPriced(items[1..], p, n, stock);
    }
  }
}
