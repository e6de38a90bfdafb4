/**
 Product rows and the two things a transaction does to them: checkout deducts
 the lines of a cart, a release puts the lines of an order back.
 */
module Stock {
  type ProductId = nat

  datatype Product = Product(price: int, stock: int)

  /** A cart line; the same triple becomes an order item. */
  datatype Line = Line(product: ProductId, quantity: nat, price: int)

  type Products = map<ProductId, Product>

  /** What checkout verifies about one line under the product's row lock. */
  predicate Accepts(rows: Products, line: Line) {
    && line.product in rows
    && line.quantity <= rows[line.product].stock
    && line.price == rows[line.product].price
  }

  predicate AcceptsAll(rows: Products, lines: seq<Line>) {
    forall i :: 0 <= i < |lines| ==> Accepts(rows, lines[i])
  }

  /** The unique (cart, product) key of cart_items and its quantity check. */
  predicate ValidCart(lines: seq<Line>) {
    && (forall i :: 0 <= i < |lines| ==> lines[i].quantity > 0)
    && (forall i, j :: 0 <= i < j < |lines| ==> lines[i].product != lines[j].product)
  }

  /** UPDATE products SET stock_quantity = stock_quantity + n; no row, no effect. */
  function AddStock(rows: Products, p: ProductId, n: int): Products {
    if p in rows then rows[p := rows[p].(stock := rows[p].stock + n)] else rows
  }

  function Deduct(rows: Products, lines: seq<Line>): Products {
    if lines == [] then rows
    else
      var last := lines[|lines| - 1];
      AddStock(Deduct(rows, lines[..|lines| - 1]), last.product, -(last.quantity as int))
  }

  function Restock(rows: Products, lines: seq<Line>): Products {
    if lines == [] then rows
    else
      var last := lines[|lines| - 1];
      AddStock(Restock(rows, lines[..|lines| - 1]), last.product, last.quantity)
  }

  function Units(lines: seq<Line>, p: ProductId): nat {
    if lines == [] then 0
    else
      var last := lines[|lines| - 1];
      Units(lines[..|lines| - 1], p) + if last.product == p then last.quantity else 0
  }

  predicate NonNegative(rows: Products) {
    forall p :: p in rows ==> rows[p].stock >= 0
  }

  /** Deduct takes exactly the ordered units from each row, and nothing else. */
  lemma {:induction false} DeductTakesUnits(rows: Products, lines: seq<Line>)
    ensures Deduct(rows, lines).Keys == rows.Keys
    ensures forall p :: p in rows ==>
      Deduct(rows, lines)[p] == rows[p].(stock := rows[p].stock - Units(lines, p))
  {
    if lines != [] {
      DeductTakesUnits(rows, lines[..|lines| - 1]);
    }
  }

  /** Restock gives exactly the held units back to each row, and nothing else. */
  lemma {:induction false} RestockGivesUnits(rows: Products, lines: seq<Line>)
    ensures Restock(rows, lines).Keys == rows.Keys
    ensures forall p :: p in rows ==>
      Restock(rows, lines)[p] == rows[p].(stock := rows[p].stock + Units(lines, p))
  {
    if lines != [] {
      RestockGivesUnits(rows, lines[..|lines| - 1]);
    }
  }

  /** Releasing what a checkout reserved restores every row. */
  lemma RestockUndoesDeduct(rows: Products, lines: seq<Line>)
    ensures Restock(Deduct(rows, lines), lines) == rows
  {
    DeductTakesUnits(rows, lines);
    RestockGivesUnits(Deduct(rows, lines), lines);
    var back := Restock(Deduct(rows, lines), lines);
    forall p | p in rows
      ensures back[p] == rows[p]
    {
      assert rows[p].(stock := rows[p].stock - Units(lines, p)).(stock := rows[p].stock) == rows[p];
    }
  }

  lemma {:induction false} NoUnitsWithoutLine(lines: seq<Line>, p: ProductId)
    requires forall i :: 0 <= i < |lines| ==> lines[i].product != p
    ensures Units(lines, p) == 0
  {
    if lines != [] {
      NoUnitsWithoutLine(lines[..|lines| - 1], p);
    }
  }

  lemma {:induction false} UnitsOfLine(lines: seq<Line>, i: nat)
    requires i < |lines|
    ensures Units(lines, lines[i].product) >= lines[i].quantity
  {
    if i < |lines| - 1 {
      UnitsOfLine(lines[..|lines| - 1], i);
    }
  }

  /** With distinct products the per-line checks bound the whole demand. */
  lemma {:induction false} ChecksCoverDemand(rows: Products, lines: seq<Line>, p: ProductId)
    requires ValidCart(lines) && AcceptsAll(rows, lines) && NonNegative(rows) && p in rows
    ensures Units(lines, p) <= rows[p].stock
  {
    if lines != [] {
      var n := |lines| - 1;
      if lines[n].product == p {
        assert Accepts(rows, lines[n]);
        NoUnitsWithoutLine(lines[..n], p);
      } else {
        assert AcceptsAll(rows, lines[..n]) by {
          forall i | 0 <= i < n ensures Accepts(rows, lines[..n][i]) { assert Accepts(rows, lines[i]); }
        }
        ChecksCoverDemand(rows, lines[..n], p);
      }
    }
  }

  /** An accepted checkout of a cart with distinct products leaves no row negative. */
  lemma AcceptedCheckoutKeepsStock(rows: Products, lines: seq<Line>)
    requires ValidCart(lines) && AcceptsAll(rows, lines) && NonNegative(rows)
    ensures NonNegative(Deduct(rows, lines))
  {
    DeductTakesUnits(rows, lines);
    forall p | p in rows ensures Deduct(rows, lines)[p].stock >= 0 {
      ChecksCoverDemand(rows, lines, p);
    }
  }

  // ---------- row by row ----------

  /** Every line has its product row, at the price it was put in the cart for and with enough stock. */
  predicate Fits(rows: Products, lines: seq<Line>) {
    forall i :: 0 <= i < |lines| ==>
      && lines[i].product in rows && rows[lines[i].product].price == lines[i].price
      && lines[i].quantity <= rows[lines[i].product].stock
  }

  /** The rows once the lines of a cart were taken: each line's product has lost its quantity, and no other changed. */
  predicate Taken(rows: Products, after: Products, lines: seq<Line>) {
    && after.Keys == rows.Keys
    && (forall i :: 0 <= i < |lines| && lines[i].product in rows ==>
          after[lines[i].product]
            == Product(rows[lines[i].product].price, rows[lines[i].product].stock - lines[i].quantity))
    && forall p :: p in rows && (forall i :: 0 <= i < |lines| ==> lines[i].product != p) ==> after[p] == rows[p]
  }

  lemma FitsIff(rows: Products, lines: seq<Line>)
    ensures AcceptsAll(rows, lines) <==> Fits(rows, lines)
  {
    if AcceptsAll(rows, lines) {
      forall i | 0 <= i < |lines|
        ensures lines[i].product in rows && rows[lines[i].product].price == lines[i].price
        ensures lines[i].quantity <= rows[lines[i].product].stock
      {
        assert Accepts(rows, lines[i]);
      }
    }
  }

  lemma DeductTaken(rows: Products, lines: seq<Line>)
    requires ValidCart(lines)
    ensures Taken(rows, Deduct(rows, lines), lines)
  {
    DeductTakesUnits(rows, lines);
    forall i | 0 <= i < |lines| ensures Units(lines, lines[i].product) == lines[i].quantity { UnitsOfItem(lines, i); }
    forall p | p in rows && (forall i :: 0 <= i < |lines| ==> lines[i].product != p) ensures Units(lines, p) == 0 {
      NoUnitsWithoutLine(lines, p);
    }
  }

  lemma {:induction false} UnitsOfItem(lines: seq<Line>, i: nat)
    requires ValidCart(lines) && i < |lines|
    ensures Units(lines, lines[i].product) == lines[i].quantity
  {
    var n := |lines| - 1;
    if i < n {
      UnitsOfItem(lines[..n], i);
    } else {
      NoUnitsWithoutLine(lines[..n], lines[n].product);
    }
  }

  lemma RestockTakenBack(rows: Products, lines: seq<Line>)
    requires ValidCart(lines)
    ensures Taken(Restock(rows, lines), rows, lines)
  {
    RestockGivesUnits(rows, lines);
    forall i | 0 <= i < |lines| ensures Units(lines, lines[i].product) == lines[i].quantity { UnitsOfItem(lines, i); }
    forall p | p in rows && (forall i :: 0 <= i < |lines| ==> lines[i].product != p) ensures Units(lines, p) == 0 {
      NoUnitsWithoutLine(lines, p);
    }
  }

  /** Why the unique key matters: two lines of one product can each pass and still overdraw the row. */
  lemma RepeatedProductOverdraws(rows: Products, p: ProductId, price: int)
    requires p in rows && rows[p] == Product(price, 3)
    ensures var lines := [Line(p, 2, price), Line(p, 2, price)];
            AcceptsAll(rows, lines) && !NonNegative(Deduct(rows, lines))
  {
    var lines := [Line(p, 2, price), Line(p, 2, price)];
    DeductTakesUnits(rows, lines);
    assert lines[..1] == [Line(p, 2, price)];
    assert Units(lines[..1], p) == Units([], p) + 2;
    assert Deduct(rows, lines)[p].stock == -1;
  }
}
