/**
 Checkout and release transactions at the granularity of single row locks, and why the
 order protocol may treat a transaction as one step.
 */
module LockedCheckout {
  import opened Stock
  import State = ShopState

  type OrderStatus = State.OrderStatus

  /** A release compares and sets the status of its order before it restocks. */
  datatype Kind = Checkout | Release(order: nat, from: OrderStatus, to: OrderStatus)

  /** `done` counts the lines already locked (Locking) or already written (Writing). */
  datatype Stage = Locking(done: nat) | Claiming | Writing(done: nat) | Ended

  datatype Tx = Tx(kind: Kind, lines: seq<Line>, stage: Stage, dirty: Products)

  /** The committed rows. */
  datatype Tables = Tables(rows: Products, orders: seq<OrderStatus>)

  /**
   Every transaction is a sequence of steps, other transactions run between any two of
   them, and an uncommitted write is visible to its own transaction only.
   */
  datatype World = World(tables: Tables, locks: map<ProductId, nat>, orderLocks: map<nat, nat>, txs: seq<Tx>)

  /** The last two are single statements that commit by themselves. */
  datatype Event =
    | Begin(kind: Kind, lines: seq<Line>)
    | Advance(t: nat)
    | Rollback(t: nat)
    | EditPrice(p: ProductId, price: int)
    | EditStatus(order: nat, from: OrderStatus, to: OrderStatus)

  predicate Free(w: World, p: ProductId, t: nat) {
    p in w.locks ==> w.locks[p] == t
  }

  function Visible(w: World, t: nat, p: ProductId): Product
    requires t < |w.txs| && (p in w.txs[t].dirty || p in w.tables.rows)
  {
    if p in w.txs[t].dirty then w.txs[t].dirty[p] else w.tables.rows[p]
  }

  function Unlock(locks: map<nat, nat>, t: nat): map<nat, nat> {
    map p | p in locks && locks[p] != t :: locks[p]
  }

  function Finish(w: World, t: nat, tables: Tables): World
    requires t < |w.txs|
  {
    World(tables, Unlock(w.locks, t), Unlock(w.orderLocks, t), w.txs[t := w.txs[t].(stage := Ended, dirty := map[])])
  }

  /** SELECT ... FOR UPDATE on the next line and the check on the locked row. */
  function LockNext(w: World, t: nat): World
    requires t < |w.txs| && w.txs[t].stage.Locking? && w.txs[t].stage.done < |w.txs[t].lines|
  {
    var line := w.txs[t].lines[w.txs[t].stage.done];
    if !Free(w, line.product, t) then w
    else if !Accepts(w.tables.rows, line) then Finish(w, t, w.tables)
    else
      w.(locks := w.locks[line.product := t],
         txs := w.txs[t := w.txs[t].(stage := Locking(w.txs[t].stage.done + 1))])
  }

  /** UPDATE orders SET status = to WHERE id = order AND status = from: it waits for the row, and ends the release on a miss. */
  function Claim(w: World, t: nat): World
    requires t < |w.txs| && w.txs[t].stage.Claiming? && w.txs[t].kind.Release?
  {
    var kind := w.txs[t].kind;
    if kind.order in w.orderLocks && w.orderLocks[kind.order] != t then w
    else if kind.order < |w.tables.orders| && w.tables.orders[kind.order] == kind.from then
      w.(orderLocks := w.orderLocks[kind.order := t], txs := w.txs[t := w.txs[t].(stage := Writing(0))])
    else Finish(w, t, w.tables)
  }

  /** The stock UPDATE of the next line; it takes the row lock when it does not hold it yet. */
  function WriteNext(w: World, t: nat): World
    requires t < |w.txs| && w.txs[t].stage.Writing? && w.txs[t].stage.done < |w.txs[t].lines|
  {
    var tx := w.txs[t];
    var line := tx.lines[tx.stage.done];
    if line.product !in w.tables.rows then
      if tx.kind.Checkout? then Finish(w, t, w.tables)
      else w.(txs := w.txs[t := tx.(stage := Writing(tx.stage.done + 1))])
    else if !Free(w, line.product, t) then w
    else
      var row := Visible(w, t, line.product);
      var n: int := if tx.kind.Checkout? then -(line.quantity as int) else line.quantity;
      w.(locks := w.locks[line.product := t],
         txs := w.txs[t := tx.(stage := Writing(tx.stage.done + 1),
                               dirty := tx.dirty[line.product := row.(stock := row.stock + n)])])
  }

  /** What the order rows are when a transaction commits: a checkout adds a pending one, a release has changed its own. */
  function OrdersAfter(orders: seq<OrderStatus>, kind: Kind): seq<OrderStatus> {
    match kind
    case Checkout => orders + [State.PendingPayment]
    case Release(o, _, to) => if o < |orders| then orders[o := to] else orders
  }

  function Commit(w: World, t: nat): World
    requires t < |w.txs|
  {
    Finish(w, t, Tables(w.tables.rows + w.txs[t].dirty, OrdersAfter(w.tables.orders, w.txs[t].kind)))
  }

  predicate Startable(kind: Kind, lines: seq<Line>) {
    if kind.Checkout? then ValidCart(lines) else kind.from != kind.to
  }

  function Apply(w: World, e: Event): World {
    match e
    case Begin(kind, lines) =>
      if !Startable(kind, lines) then w
      else w.(txs := w.txs + [Tx(kind, lines, if kind.Checkout? then Locking(0) else Claiming, map[])])
    case Advance(t) =>
      if t >= |w.txs| then w
      else
        (match w.txs[t].stage
         case Ended => w
         case Locking(done) =>
           if done < |w.txs[t].lines| then LockNext(w, t)
           else w.(txs := w.txs[t := w.txs[t].(stage := Writing(0))])
         case Claiming => if w.txs[t].kind.Release? then Claim(w, t) else w
         case Writing(done) => if done < |w.txs[t].lines| then WriteNext(w, t) else Commit(w, t))
    case Rollback(t) =>
      if t >= |w.txs| then w else Finish(w, t, w.tables)
    case EditPrice(p, price) =>
      if p in w.tables.rows && p !in w.locks then
        w.(tables := w.tables.(rows := w.tables.rows[p := w.tables.rows[p].(price := price)]))
      else w
    case EditStatus(o, from, to) =>
      if o < |w.tables.orders| && o !in w.orderLocks && w.tables.orders[o] == from then
        w.(tables := w.tables.(orders := w.tables.orders[o := to]))
      else w
  }

  function RunAll(w: World, es: seq<Event>): World {
    if es == [] then w else Apply(RunAll(w, es[..|es| - 1]), es[|es| - 1])
  }

  predicate Initial(w: World) {
    NonNegative(w.tables.rows) && w.locks == map[] && w.orderLocks == map[] && w.txs == []
  }

  // ---------- the serial form ----------

  /**
   A whole transaction as one step on the committed rows, which after any run are those
   of a serial replay in commit order. In particular a release changes the status and
   restocks together, or does neither.
   */
  datatype Atom =
    | Whole(kind: Kind, lines: seq<Line>)
    | PriceChange(p: ProductId, price: int)
    | StatusChange(order: nat, from: OrderStatus, to: OrderStatus)

  /** What a step of the fine-grained run amounts to: nothing, or one whole transaction at its commit. */
  function Committed(w: World, e: Event): seq<Atom> {
    match e
    case Advance(t) =>
      if t < |w.txs| && w.txs[t].stage.Writing? && w.txs[t].stage.done >= |w.txs[t].lines|
      then [Whole(w.txs[t].kind, w.txs[t].lines)] else []
    case EditPrice(p, price) =>
      if p in w.tables.rows && p !in w.locks then [PriceChange(p, price)] else []
    case EditStatus(o, from, to) =>
      if o < |w.tables.orders| && o !in w.orderLocks && w.tables.orders[o] == from then [StatusChange(o, from, to)] else []
    case _ => []
  }

  function SerialOrder(w: World, es: seq<Event>): seq<Atom> {
    if es == [] then []
    else
      var front := es[..|es| - 1];
      SerialOrder(w, front) + Committed(RunAll(w, front), es[|es| - 1])
  }

  predicate HasStatus(orders: seq<OrderStatus>, o: nat, st: OrderStatus) {
    o < |orders| && orders[o] == st
  }

  predicate Allowed(tables: Tables, a: Atom) {
    match a
    case Whole(kind, lines) =>
      if kind.Checkout? then ValidCart(lines) && AcceptsAll(tables.rows, lines)
      else kind.from != kind.to && HasStatus(tables.orders, kind.order, kind.from)
    case PriceChange(p, _) => p in tables.rows
    case StatusChange(o, from, _) => HasStatus(tables.orders, o, from)
  }

  function Effect(tables: Tables, a: Atom): Tables {
    match a
    case Whole(kind, lines) =>
      Tables(if kind.Checkout? then Deduct(tables.rows, lines) else Restock(tables.rows, lines), OrdersAfter(tables.orders, kind))
    case PriceChange(p, price) =>
      if p in tables.rows then tables.(rows := tables.rows[p := tables.rows[p].(price := price)]) else tables
    case StatusChange(o, _, to) =>
      if o < |tables.orders| then tables.(orders := tables.orders[o := to]) else tables
  }

  function Replay(tables: Tables, atoms: seq<Atom>): Tables {
    if atoms == [] then tables else Effect(Replay(tables, atoms[..|atoms| - 1]), atoms[|atoms| - 1])
  }

  predicate AllAllowed(tables: Tables, atoms: seq<Atom>) {
    forall n :: 0 <= n < |atoms| ==> Allowed(Replay(tables, atoms[..n]), atoms[n])
  }

  // ---------- the invariant ----------

  function Signed(kind: Kind, lines: seq<Line>, p: ProductId): int {
    if kind.Checkout? then -(Units(lines, p) as int) else Units(lines, p)
  }

  predicate DirtyIs(rows: Products, tx: Tx, done: nat)
    requires done <= |tx.lines|
  {
    && (forall p :: p in tx.dirty ==>
          p in rows && tx.dirty[p] == rows[p].(stock := rows[p].stock + Signed(tx.kind, tx.lines[..done], p)))
    && (forall p :: p in rows && p !in tx.dirty ==> Units(tx.lines[..done], p) == 0)
  }

  predicate HoldsLine(w: World, t: nat, line: Line) {
    line.product in w.locks && w.locks[line.product] == t && Accepts(w.tables.rows, line)
  }

  predicate Holds(w: World, t: nat, lines: seq<Line>) {
    forall i :: 0 <= i < |lines| ==> HoldsLine(w, t, lines[i])
  }

  /** A release past its compare-and-set holds the order row, which still has the status it came from. */
  predicate HoldsOrder(w: World, t: nat, kind: Kind) {
    && kind.Release? && kind.from != kind.to && kind.order in w.orderLocks && w.orderLocks[kind.order] == t
    && HasStatus(w.tables.orders, kind.order, kind.from)
  }

  predicate TxInv(w: World, t: nat)
    requires t < |w.txs|
  {
    var tx := w.txs[t];
    && (forall p :: p in tx.dirty ==> p in w.locks && w.locks[p] == t)
    && Startable(tx.kind, tx.lines)
    && match tx.stage
       case Ended => tx.dirty == map[]
       case Claiming => tx.kind.Release? && tx.dirty == map[]
       case Locking(done) => tx.kind.Checkout? && done <= |tx.lines| && tx.dirty == map[] && Holds(w, t, tx.lines[..done])
       case Writing(done) =>
         && done <= |tx.lines| && DirtyIs(w.tables.rows, tx, done)
         && if tx.kind.Checkout? then Holds(w, t, tx.lines) else HoldsOrder(w, t, tx.kind)
  }

  predicate Inv(w: World) {
    NonNegative(w.tables.rows) && forall t :: 0 <= t < |w.txs| ==> TxInv(w, t)
  }

  /** The locks of transaction t are still its own, and what they lock is as it was. */
  predicate Guarded(w: World, w': World, t: nat) {
    && w'.tables.rows.Keys == w.tables.rows.Keys
    && (forall p :: p in w.locks && w.locks[p] == t ==>
          p in w'.locks && w'.locks[p] == t && (p in w.tables.rows ==> w'.tables.rows[p] == w.tables.rows[p]))
    && (forall o :: o in w.orderLocks && w.orderLocks[o] == t ==>
          o in w'.orderLocks && w'.orderLocks[o] == t
          && forall st :: HasStatus(w.tables.orders, o, st) ==> HasStatus(w'.tables.orders, o, st))
  }

  /** A transaction's invariant survives any step that leaves its locks and locked rows alone. */
  lemma Undisturbed(w: World, w': World, t: nat)
    requires t < |w.txs| && t < |w'.txs| && w'.txs[t] == w.txs[t] && TxInv(w, t)
    requires Guarded(w, w', t)
    ensures TxInv(w', t)
  {
    var tx := w.txs[t];
    if tx.stage.Writing? {
      assert DirtyIs(w'.tables.rows, tx, tx.stage.done);
    }
  }

  // ---------- single steps ----------

  lemma LockNextKeepsInv(w: World, t: nat)
    requires Inv(w) && t < |w.txs| && w.txs[t].stage.Locking? && w.txs[t].stage.done < |w.txs[t].lines|
    ensures Inv(LockNext(w, t)) && LockNext(w, t).tables == w.tables
  {
    var w' := LockNext(w, t);
    var tx := w.txs[t];
    var done := tx.stage.done;
    assert TxInv(w, t);
    forall u | 0 <= u < |w'.txs| ensures TxInv(w', u) {
      assert TxInv(w, u);
      if u != t {
        Undisturbed(w, w', u);
      } else if w'.txs[t].stage == Locking(done + 1) {
        assert tx.lines[..done + 1] == tx.lines[..done] + [tx.lines[done]];
        var held := tx.lines[..done + 1];
        forall i | 0 <= i < |held|
          ensures HoldsLine(w', t, held[i])
        {
          if i < done { assert HoldsLine(w, t, tx.lines[..done][i]); }
        }
      }
    }
  }

  /** The compare-and-set of a release: only one transaction at a time gets past it for an order. */
  lemma ClaimKeepsInv(w: World, t: nat)
    requires Inv(w) && t < |w.txs| && w.txs[t].stage.Claiming? && w.txs[t].kind.Release?
    ensures Inv(Claim(w, t)) && Claim(w, t).tables == w.tables
  {
    var w' := Claim(w, t);
    var tx := w.txs[t];
    assert TxInv(w, t);
    assert tx.lines[..0] == [];
    forall u | 0 <= u < |w'.txs| ensures TxInv(w', u) {
      assert TxInv(w, u);
      if u != t {
        Undisturbed(w, w', u);
      }
    }
  }

  lemma UnitsOfPrefix(lines: seq<Line>, n: nat, p: ProductId)
    requires n < |lines|
    ensures Units(lines[..n + 1], p) == Units(lines[..n], p) + if lines[n].product == p then lines[n].quantity else 0
  {
    assert lines[..n + 1][..n] == lines[..n];
  }

  lemma DirtyAfterWrite(rows: Products, tx: Tx, done: nat, dirty: Products)
    requires done < |tx.lines| && DirtyIs(rows, tx, done)
    requires var line := tx.lines[done];
      && line.product in rows
      && var row := if line.product in tx.dirty then tx.dirty[line.product] else rows[line.product];
         dirty == tx.dirty[line.product := row.(stock := row.stock + Signed(tx.kind, [line], line.product))]
    ensures DirtyIs(rows, tx.(dirty := dirty), done + 1)
  {
    forall p | p in rows
      ensures p in dirty ==> dirty[p] == rows[p].(stock := rows[p].stock + Signed(tx.kind, tx.lines[..done + 1], p))
      ensures p !in dirty ==> Units(tx.lines[..done + 1], p) == 0
    {
      UnitsOfPrefix(tx.lines, done, p);
      UnitsOfPrefix([tx.lines[done]], 0, p);
      assert [tx.lines[done]][..1] == [tx.lines[done]];
      assert [tx.lines[done]][..0] == [];
    }
  }

  lemma UnitsOfOne(line: Line)
    ensures Units([line], line.product) == line.quantity
  {
    assert [line][..0] == [];
  }

  lemma SkippedLineKeepsDirty(rows: Products, tx: Tx, done: nat)
    requires done < |tx.lines| && DirtyIs(rows, tx, done) && tx.lines[done].product !in rows
    ensures DirtyIs(rows, tx, done + 1)
  {
    forall p | p in rows
      ensures Units(tx.lines[..done + 1], p) == Units(tx.lines[..done], p)
    {
      UnitsOfPrefix(tx.lines, done, p);
    }
  }

  lemma WriteNextKeepsInv(w: World, t: nat)
    requires Inv(w) && t < |w.txs| && w.txs[t].stage.Writing? && w.txs[t].stage.done < |w.txs[t].lines|
    ensures Inv(WriteNext(w, t)) && WriteNext(w, t).tables == w.tables
  {
    var w' := WriteNext(w, t);
    var tx := w.txs[t];
    var done := tx.stage.done;
    var line := tx.lines[done];
    assert TxInv(w, t);
    forall u | 0 <= u < |w'.txs| ensures TxInv(w', u) {
      assert TxInv(w, u);
      if u != t {
        Undisturbed(w, w', u);
      } else if line.product !in w.tables.rows {
        if tx.kind.Release? {
          SkippedLineKeepsDirty(w.tables.rows, tx, done);
        }
      } else if Free(w, line.product, t) {
        UnitsOfOne(line);
        DirtyAfterWrite(w.tables.rows, tx, done, w'.txs[t].dirty);
        assert DirtyIs(w'.tables.rows, w'.txs[t], done + 1);
      }
    }
  }

  /** The rows a fully written transaction is about to commit. */
  lemma WrittenRows(rows: Products, tx: Tx)
    requires DirtyIs(rows, tx, |tx.lines|)
    ensures rows + tx.dirty == if tx.kind.Checkout? then Deduct(rows, tx.lines) else Restock(rows, tx.lines)
  {
    assert tx.lines[..|tx.lines|] == tx.lines;
    var whole := if tx.kind.Checkout? then Deduct(rows, tx.lines) else Restock(rows, tx.lines);
    DeductTakesUnits(rows, tx.lines);
    RestockGivesUnits(rows, tx.lines);
    assert whole.Keys == rows.Keys == (rows + tx.dirty).Keys;
    forall p | p in rows ensures (rows + tx.dirty)[p] == whole[p] {
      assert whole[p] == rows[p].(stock := rows[p].stock + Signed(tx.kind, tx.lines, p));
      if p !in tx.dirty {
        assert Signed(tx.kind, tx.lines, p) == 0;
        assert rows[p].(stock := rows[p].stock + 0) == rows[p];
      }
    }
  }

  predicate Ready(w: World, t: nat) {
    t < |w.txs| && w.txs[t].stage.Writing? && w.txs[t].stage.done >= |w.txs[t].lines|
  }

  /** What the commit of a checkout leaves of the rows: each line fitted and is taken, and there is one pending order more. */
  predicate Bought(before: Tables, after: Tables, lines: seq<Line>) {
    && (forall i :: 0 <= i < |lines| ==>
          && lines[i].product in before.rows && before.rows[lines[i].product].price == lines[i].price
          && lines[i].quantity <= before.rows[lines[i].product].stock)
    && Taken(before.rows, after.rows, lines)
    && after.orders == before.orders + [State.PendingPayment]
  }

  /** What the commit of a release leaves: the order went from one status to the other, and its units are back. */
  predicate GivenBack(before: Tables, after: Tables, lines: seq<Line>, o: nat, from: OrderStatus, to: OrderStatus) {
    && o < |before.orders| && before.orders[o] == from && after.orders == before.orders[o := to]
    && after.rows.Keys == before.rows.Keys
    && forall p :: p in before.rows ==>
         after.rows[p] == Product(before.rows[p].price, before.rows[p].stock + Units(lines, p))
  }

  lemma EffectIs(tables: Tables, kind: Kind, lines: seq<Line>)
    requires Allowed(tables, Whole(kind, lines))
    ensures kind.Checkout? ==> Bought(tables, Effect(tables, Whole(kind, lines)), lines)
    ensures kind.Release? ==> GivenBack(tables, Effect(tables, Whole(kind, lines)), lines, kind.order, kind.from, kind.to)
  {
    if kind.Checkout? {
      FitsIff(tables.rows, lines);
      DeductTaken(tables.rows, lines);
    } else {
      RestockGivesUnits(tables.rows, lines);
    }
  }

  /** At its commit a transaction has exactly the effect it would have had alone, and it was allowed to run. */
  lemma CommitIsAtomic(w: World, t: nat)
    requires Inv(w) && Ready(w, t)
    ensures var a := Whole(w.txs[t].kind, w.txs[t].lines);
            Allowed(w.tables, a) && Effect(w.tables, a) == Commit(w, t).tables
    ensures var kind, lines := w.txs[t].kind, w.txs[t].lines;
            && (kind.Checkout? ==> Bought(w.tables, Commit(w, t).tables, lines))
            && (kind.Release? ==> GivenBack(w.tables, Commit(w, t).tables, lines, kind.order, kind.from, kind.to))
  {
    var tx := w.txs[t];
    assert TxInv(w, t);
    WrittenRows(w.tables.rows, tx);
    if tx.kind.Checkout? {
      forall i | 0 <= i < |tx.lines| ensures Accepts(w.tables.rows, tx.lines[i]) {
        assert HoldsLine(w, t, tx.lines[i]);
      }
    }
    EffectIs(w.tables, tx.kind, tx.lines);
  }

  /**
   When a checkout step ends its transaction: at the commit, or at a line whose row it
   could lock and which is gone, too short of stock, or at another price than the cart's.
   */
  lemma CheckoutEndsIff(w: World, t: nat)
    requires Inv(w) && t < |w.txs| && w.txs[t].kind.Checkout? && !w.txs[t].stage.Ended?
    ensures var tx := w.txs[t];
            Apply(w, Advance(t)).txs[t].stage.Ended? <==>
              match tx.stage
              case Locking(done) =>
                done < |tx.lines|
                && var line := tx.lines[done];
                   && (line.product in w.locks ==> w.locks[line.product] == t)
                   && (line.product !in w.tables.rows || w.tables.rows[line.product].stock < line.quantity
                       || w.tables.rows[line.product].price != line.price)
              case Writing(done) => done == |tx.lines|
              case _ => false
  {
    assert TxInv(w, t);
    var tx := w.txs[t];
    if tx.stage.Writing? && tx.stage.done < |tx.lines| {
      assert HoldsLine(w, t, tx.lines[tx.stage.done]);
    }
  }

  lemma FinishKeepsInv(w: World, t: nat, tables: Tables)
    requires Inv(w) && t < |w.txs| && NonNegative(tables.rows) && tables.rows.Keys == w.tables.rows.Keys
    requires forall p :: p in tables.rows && tables.rows[p] != w.tables.rows[p] ==> p in w.locks && w.locks[p] == t
    requires forall o, st :: HasStatus(w.tables.orders, o, st) && !HasStatus(tables.orders, o, st) ==>
               o in w.orderLocks && w.orderLocks[o] == t
    ensures Inv(Finish(w, t, tables))
  {
    var w' := Finish(w, t, tables);
    forall u | 0 <= u < |w'.txs| ensures TxInv(w', u) {
      assert TxInv(w, u);
      if u != t {
        Undisturbed(w, w', u);
      }
    }
  }

  lemma ReleaseKeepsStock(rows: Products, lines: seq<Line>)
    requires NonNegative(rows)
    ensures NonNegative(Restock(rows, lines))
  {
    RestockGivesUnits(rows, lines);
  }

  lemma CommitKeepsInv(w: World, t: nat)
    requires Inv(w) && Ready(w, t)
    ensures Inv(Commit(w, t))
  {
    var tx := w.txs[t];
    CommitIsAtomic(w, t);
    if tx.kind.Checkout? {
      AcceptedCheckoutKeepsStock(w.tables.rows, tx.lines);
    } else {
      ReleaseKeepsStock(w.tables.rows, tx.lines);
    }
    assert TxInv(w, t);
    FinishKeepsInv(w, t, Commit(w, t).tables);
  }

  lemma BeginKeepsInv(w: World, kind: Kind, lines: seq<Line>)
    requires Inv(w)
    ensures Inv(Apply(w, Begin(kind, lines)))
  {
    var w' := Apply(w, Begin(kind, lines));
    forall u | 0 <= u < |w'.txs| ensures TxInv(w', u) {
      if u < |w.txs| {
        assert TxInv(w, u);
        Undisturbed(w, w', u);
      } else {
        assert w'.txs[u].lines[..0] == [];
      }
    }
  }

  lemma StartWritingKeepsInv(w: World, t: nat)
    requires Inv(w) && t < |w.txs| && w.txs[t].stage.Locking? && w.txs[t].stage.done >= |w.txs[t].lines|
    ensures Inv(Apply(w, Advance(t))) && Apply(w, Advance(t)).tables == w.tables
  {
    var w' := Apply(w, Advance(t));
    var tx := w.txs[t];
    forall u | 0 <= u < |w'.txs| ensures TxInv(w', u) {
      assert TxInv(w, u);
      if u != t {
        Undisturbed(w, w', u);
      } else {
        assert tx.lines[..tx.stage.done] == tx.lines;
        assert tx.lines[..0] == [];
      }
    }
  }

  lemma EditKeepsInv(w: World, e: Event)
    requires Inv(w) && (e.EditPrice? || e.EditStatus?)
    ensures Inv(Apply(w, e))
  {
    var w' := Apply(w, e);
    forall u | 0 <= u < |w'.txs| ensures TxInv(w', u) {
      assert TxInv(w, u);
      Undisturbed(w, w', u);
    }
  }

  // ---------- serializability ----------

  /** One step keeps the invariant and does to the committed rows what the serial form does. */
  predicate IsSerial(w: World, e: Event) {
    && Inv(Apply(w, e))
    && AllAllowed(w.tables, Committed(w, e))
    && Apply(w, e).tables == Replay(w.tables, Committed(w, e))
  }

  lemma ReplayOne(tables: Tables, a: Atom)
    ensures Replay(tables, [a]) == Effect(tables, a)
    ensures AllAllowed(tables, [a]) <==> Allowed(tables, a)
    ensures Replay(tables, []) == tables && AllAllowed(tables, [])
  {
    assert [a][..0] == [];
  }

  lemma AdvanceIsSerial(w: World, t: nat)
    requires Inv(w) && t < |w.txs|
    ensures IsSerial(w, Advance(t))
  {
    hide Inv, TxInv, LockNext, WriteNext, Claim, Commit, AllAllowed, Replay;
    var tx := w.txs[t];
    TxKnown(w, t);
    ReplayOne(w.tables, Whole(tx.kind, tx.lines));
    if tx.stage.Locking? && tx.stage.done < |tx.lines| {
      LockNextKeepsInv(w, t);
    } else if tx.stage.Locking? {
      StartWritingKeepsInv(w, t);
    } else if tx.stage.Claiming? {
      ClaimKeepsInv(w, t);
    } else if Ready(w, t) {
      CommitIsAtomic(w, t);
      CommitKeepsInv(w, t);
    } else if tx.stage.Writing? {
      WriteNextKeepsInv(w, t);
    }
  }

  lemma TxKnown(w: World, t: nat)
    requires Inv(w) && t < |w.txs|
    ensures w.txs[t].stage.Claiming? ==> w.txs[t].kind.Release?
  {
    assert TxInv(w, t);
  }

  lemma StepIsSerial(w: World, e: Event)
    requires Inv(w)
    ensures IsSerial(w, e)
  {
    hide TxInv, AllAllowed, Replay;
    match e
    case Begin(kind, lines) =>
      BeginKeepsInv(w, kind, lines);
      ReplayOne(w.tables, PriceChange(0, 0));
    case Advance(t) =>
      if t < |w.txs| { AdvanceIsSerial(w, t); } else { ReplayOne(w.tables, PriceChange(0, 0)); }
    case Rollback(t) =>
      ReplayOne(w.tables, PriceChange(0, 0));
      if t < |w.txs| { FinishKeepsInv(w, t, w.tables); }
    case EditPrice(p, price) =>
      EditKeepsInv(w, e);
      ReplayOne(w.tables, PriceChange(p, price));
    case EditStatus(o, from, to) =>
      EditKeepsInv(w, e);
      ReplayOne(w.tables, StatusChange(o, from, to));
  }

  lemma {:induction false} ReplayAppend(tables: Tables, xs: seq<Atom>, ys: seq<Atom>)
    ensures Replay(tables, xs + ys) == Replay(Replay(tables, xs), ys)
  {
    if ys == [] {
      assert xs + ys == xs;
    } else {
      assert (xs + ys)[..|xs + ys| - 1] == xs + ys[..|ys| - 1];
      ReplayAppend(tables, xs, ys[..|ys| - 1]);
    }
  }

  lemma AllowedAppend(tables: Tables, xs: seq<Atom>, ys: seq<Atom>)
    requires AllAllowed(tables, xs) && AllAllowed(Replay(tables, xs), ys)
    ensures AllAllowed(tables, xs + ys)
  {
    forall n | 0 <= n < |xs + ys|
      ensures Allowed(Replay(tables, (xs + ys)[..n]), (xs + ys)[n])
    {
      if n < |xs| {
        assert (xs + ys)[..n] == xs[..n];
      } else {
        assert (xs + ys)[..n] == xs + ys[..n - |xs|];
        ReplayAppend(tables, xs, ys[..n - |xs|]);
      }
    }
  }

  /**
   Every interleaving is equivalent to running the committed transactions one
   after the other in commit order, each of them accepted where it stands.
   */
  lemma {:induction false} Serializable(start: World, es: seq<Event>)
    requires Initial(start)
    ensures Inv(RunAll(start, es))
    ensures AllAllowed(start.tables, SerialOrder(start, es))
    ensures RunAll(start, es).tables == Replay(start.tables, SerialOrder(start, es))
  {
    if es != [] {
      var front := es[..|es| - 1];
      var e := es[|es| - 1];
      Serializable(start, front);
      var w := RunAll(start, front);
      StepIsSerial(w, e);
      ReplayAppend(start.tables, SerialOrder(start, front), Committed(w, e));
      AllowedAppend(start.tables, SerialOrder(start, front), Committed(w, e));
    }
  }

  // ---------- what follows ----------

  /**
   In every interleaving each committed checkout fitted the rows that the commits before
   it left, and each committed release found its order as it expected.
   */
  lemma EveryCommitFits(start: World, es: seq<Event>, n: nat)
    requires Initial(start) && n < |SerialOrder(start, es)| && SerialOrder(start, es)[n].Whole?
    ensures var atoms := SerialOrder(start, es);
            var before, after := Replay(start.tables, atoms[..n]), Replay(start.tables, atoms[..n + 1]);
            var kind, lines := atoms[n].kind, atoms[n].lines;
            && (kind.Checkout? ==> Bought(before, after, lines))
            && (kind.Release? ==> GivenBack(before, after, lines, kind.order, kind.from, kind.to))
  {
    hide Bought, GivenBack, Effect, Allowed, SerialOrder, RunAll, Inv;
    Serializable(start, es);
    var atoms := SerialOrder(start, es);
    assert Allowed(Replay(start.tables, atoms[..n]), atoms[n]);
    assert atoms[..n + 1][..n] == atoms[..n];
    EffectIs(Replay(start.tables, atoms[..n]), atoms[n].kind, atoms[n].lines);
  }

  lemma {:induction false} PrefixUnits(lines: seq<Line>, n: nat, p: ProductId)
    requires n <= |lines|
    ensures Units(lines[..n], p) <= Units(lines, p)
    decreases |lines| - n
  {
    if n < |lines| {
      UnitsOfPrefix(lines, n, p);
      PrefixUnits(lines, n + 1, p);
    } else {
      assert lines[..n] == lines;
    }
  }

  /** No run shows a negative stock, neither committed nor inside a transaction that is still writing. */
  lemma {:induction false} StockNeverNegative(start: World, es: seq<Event>)
    requires Initial(start)
    ensures NonNegative(RunAll(start, es).tables.rows)
    ensures forall t :: 0 <= t < |RunAll(start, es).txs| ==> NonNegative(RunAll(start, es).txs[t].dirty)
  {
    Serializable(start, es);
    var w := RunAll(start, es);
    forall t, p | 0 <= t < |w.txs| && p in w.txs[t].dirty
      ensures w.txs[t].dirty[p].stock >= 0
    {
      assert TxInv(w, t);
      var tx := w.txs[t];
      if tx.kind.Checkout? {
        ChecksCoverDemand(w.tables.rows, tx.lines, p);
        PrefixUnits(tx.lines, tx.stage.done, p);
      }
    }
  }

  /** How often an order was released from this status, its items restocked each time. */
  function Releases(atoms: seq<Atom>, o: nat, from: OrderStatus): nat {
    if atoms == [] then 0
    else
      var a := atoms[|atoms| - 1];
      Releases(atoms[..|atoms| - 1], o, from)
      + if a.Whole? && a.kind.Release? && a.kind.order == o && a.kind.from == from then 1 else 0
  }

  /** How often a committed step put the order into this status, which it did not have. */
  function Entries(tables: Tables, atoms: seq<Atom>, o: nat, st: OrderStatus): nat {
    if atoms == [] then 0
    else
      var front := atoms[..|atoms| - 1];
      Entries(tables, front, o, st)
      + if !HasStatus(Replay(tables, front).orders, o, st) && HasStatus(Replay(tables, atoms).orders, o, st) then 1 else 0
  }

  lemma {:induction false} ReleasesBounded(tables: Tables, atoms: seq<Atom>, o: nat, from: OrderStatus)
    requires AllAllowed(tables, atoms)
    ensures Releases(atoms, o, from) + (if HasStatus(Replay(tables, atoms).orders, o, from) then 1 else 0)
         <= (if HasStatus(tables.orders, o, from) then 1 else 0) + Entries(tables, atoms, o, from)
  {
    if atoms != [] {
      var front := atoms[..|atoms| - 1];
      assert AllAllowed(tables, front) by {
        forall n | 0 <= n < |front| ensures Allowed(Replay(tables, front[..n]), front[n]) {
          assert front[..n] == atoms[..n];
        }
      }
      ReleasesBounded(tables, front, o, from);
      assert Allowed(Replay(tables, front), atoms[|atoms| - 1]);
    }
  }

  /**
   However many releases of an order run at the same time, its items are restocked at
   most once for each time it entered the status they release it from.
   */
  lemma {:induction false} ReleasedOncePerEntry(start: World, es: seq<Event>, o: nat, from: OrderStatus)
    requires Initial(start)
    ensures Releases(SerialOrder(start, es), o, from)
         <= (if HasStatus(start.tables.orders, o, from) then 1 else 0)
            + Entries(start.tables, SerialOrder(start, es), o, from)
  {
    Serializable(start, es);
    ReleasesBounded(start.tables, SerialOrder(start, es), o, from);
  }

  // ---------- a transaction that nobody holds up ----------

  /** No lock is held by a transaction that has ended. */
  predicate NoneLeftOver(w: World) {
    && (forall p :: p in w.locks ==> w.locks[p] < |w.txs| && !w.txs[w.locks[p]].stage.Ended?)
    && (forall o :: o in w.orderLocks ==> w.orderLocks[o] < |w.txs| && !w.txs[w.orderLocks[o]].stage.Ended?)
  }

  lemma FinishLeavesNone(w: World, t: nat, tables: Tables)
    requires NoneLeftOver(w) && t < |w.txs|
    ensures NoneLeftOver(Finish(w, t, tables))
  {
  }

  lemma LockLeavesNone(w: World, t: nat)
    requires NoneLeftOver(w) && t < |w.txs| && w.txs[t].stage.Locking?
    ensures NoneLeftOver(Apply(w, Advance(t)))
  {
    FinishLeavesNone(w, t, w.tables);
    hide Finish;
  }

  lemma ClaimLeavesNone(w: World, t: nat)
    requires NoneLeftOver(w) && t < |w.txs| && w.txs[t].stage.Claiming?
    ensures NoneLeftOver(Apply(w, Advance(t)))
  {
    FinishLeavesNone(w, t, w.tables);
    hide Finish;
  }

  lemma WriteLeavesNone(w: World, t: nat)
    requires NoneLeftOver(w) && t < |w.txs| && w.txs[t].stage.Writing?
    ensures NoneLeftOver(Apply(w, Advance(t)))
  {
    FinishLeavesNone(w, t, w.tables);
    FinishLeavesNone(w, t, Tables(w.tables.rows + w.txs[t].dirty, OrdersAfter(w.tables.orders, w.txs[t].kind)));
    hide Finish;
  }

  lemma StepLeavesNone(w: World, e: Event)
    requires NoneLeftOver(w)
    ensures NoneLeftOver(Apply(w, e))
  {
    hide LockNext, Claim, WriteNext, Commit, Finish, OrdersAfter, Accepts;
    match e
    case Begin(_, _) =>
    case Advance(t) =>
      if t < |w.txs| {
        match w.txs[t].stage
        case Ended =>
        case Locking(_) => LockLeavesNone(w, t);
        case Claiming => ClaimLeavesNone(w, t);
        case Writing(_) => WriteLeavesNone(w, t);
      }
    case Rollback(t) =>
      if t < |w.txs| { FinishLeavesNone(w, t, w.tables); }
    case EditPrice(_, _) =>
    case EditStatus(_, _, _) =>
  }

  lemma {:induction false} LocksAreGivenUp(start: World, es: seq<Event>)
    requires Initial(start)
    ensures NoneLeftOver(RunAll(start, es))
  {
    if es != [] {
      LocksAreGivenUp(start, es[..|es| - 1]);
      StepLeavesNone(RunAll(start, es[..|es| - 1]), es[|es| - 1]);
    }
  }

  function AdvanceBy(w: World, t: nat, n: nat): World
    decreases n
  {
    if n == 0 then w else AdvanceBy(Apply(w, Advance(t)), t, n - 1)
  }

  function StepsLeft(tx: Tx): int {
    match tx.stage
    case Ended => 0
    case Claiming => |tx.lines| + 2
    case Locking(done) => |tx.lines| - done + |tx.lines| + 2
    case Writing(done) => |tx.lines| - done + 1
  }

  /** Nobody else holds the order row or a product row that the transaction needs. */
  predicate Unhindered(w: World, t: nat)
    requires t < |w.txs|
  {
    && (w.txs[t].kind.Release? && w.txs[t].kind.order in w.orderLocks ==> w.orderLocks[w.txs[t].kind.order] == t)
    && forall i :: 0 <= i < |w.txs[t].lines| && w.txs[t].lines[i].product in w.locks ==>
         w.locks[w.txs[t].lines[i].product] == t
  }

  /** What a whole transaction comes to on these rows: it does all that it is for, or nothing. */
  predicate WholeOrNothing(before: Tables, after: Tables, kind: Kind, lines: seq<Line>) {
    match kind
    case Checkout => if Fits(before.rows, lines) then Bought(before, after, lines) else after == before
    case Release(o, from, to) =>
      if o < |before.orders| && before.orders[o] == from then GivenBack(before, after, lines, o, from, to)
      else after == before
  }

  lemma OneStepAlone(w: World, t: nat)
    requires Inv(w) && t < |w.txs| && Unhindered(w, t) && !w.txs[t].stage.Ended?
    ensures var w' := Apply(w, Advance(t));
            && Inv(w') && |w'.txs| == |w.txs| && Unhindered(w', t)
            && w'.txs[t].kind == w.txs[t].kind && w'.txs[t].lines == w.txs[t].lines
            && if w'.txs[t].stage.Ended? then WholeOrNothing(w.tables, w'.tables, w.txs[t].kind, w.txs[t].lines)
               else w'.tables == w.tables && StepsLeft(w'.txs[t]) == StepsLeft(w.txs[t]) - 1
  {
    hide Inv, Bought, GivenBack, Fits, AllAllowed, Accepts;
    AdvanceIsSerial(w, t);
    var tx := w.txs[t];
    TxStage(w, t);
    if Ready(w, t) {
      CommitIsAtomic(w, t);
      FitsAtCommit(w, t);
    } else if tx.stage.Locking? && tx.stage.done < |tx.lines| && !Accepts(w.tables.rows, tx.lines[tx.stage.done]) {
      UnfitLine(w.tables.rows, tx.lines, tx.stage.done);
    }
  }

  lemma TxStage(w: World, t: nat)
    requires Inv(w) && t < |w.txs| && !w.txs[t].stage.Ended?
    ensures var tx := w.txs[t];
            && (tx.stage.Claiming? ==> tx.kind.Release?)
            && (tx.stage.Locking? ==> tx.kind.Checkout? && tx.stage.done <= |tx.lines|)
            && (tx.stage.Writing? ==> tx.stage.done <= |tx.lines|)
            && (tx.stage.Writing? && tx.stage.done < |tx.lines| && tx.kind.Checkout? ==>
                  tx.lines[tx.stage.done].product in w.tables.rows)
  {
    assert TxInv(w, t);
    var tx := w.txs[t];
    if tx.stage.Writing? && tx.kind.Checkout? && tx.stage.done < |tx.lines| {
      assert HoldsLine(w, t, tx.lines[tx.stage.done]);
    }
  }

  lemma FitsAtCommit(w: World, t: nat)
    requires Inv(w) && Ready(w, t)
    ensures w.txs[t].kind.Checkout? ==> Fits(w.tables.rows, w.txs[t].lines)
    ensures w.txs[t].kind.Release? ==> HasStatus(w.tables.orders, w.txs[t].kind.order, w.txs[t].kind.from)
  {
    CommitIsAtomic(w, t);
    FitsIff(w.tables.rows, w.txs[t].lines);
  }

  lemma UnfitLine(rows: Products, lines: seq<Line>, n: nat)
    requires n < |lines| && !Accepts(rows, lines[n])
    ensures !Fits(rows, lines)
  {
    FitsIff(rows, lines);
  }

  /**
   A transaction that nobody holds up ends after as many steps as it has left. A checkout
   has then bought every line, or, when one of them does not fit, changed nothing; a
   release has given everything back, or, when the order is not in the status it
   expects, changed nothing.
   */
  lemma {:induction false} EndsAlone(w: World, t: nat)
    requires Inv(w) && t < |w.txs| && Unhindered(w, t) && !w.txs[t].stage.Ended?
    ensures var n := StepsLeft(w.txs[t]);
            && n > 0 && t < |AdvanceBy(w, t, n).txs| && AdvanceBy(w, t, n).txs[t].stage.Ended?
            && WholeOrNothing(w.tables, AdvanceBy(w, t, n).tables, w.txs[t].kind, w.txs[t].lines)
    decreases StepsLeft(w.txs[t])
  {
    hide Inv, WholeOrNothing, Unhindered, Apply;
    TxStage(w, t);
    OneStepAlone(w, t);
    var w' := Apply(w, Advance(t));
    var n := StepsLeft(w.txs[t]);
    if w'.txs[t].stage.Ended? {
      StaysEnded(w', t, n - 1);
    } else {
      TxStage(w', t);
      EndsAlone(w', t);
    }
  }

  lemma {:induction false} StaysEnded(w: World, t: nat, n: nat)
    requires t < |w.txs| && w.txs[t].stage.Ended?
    ensures AdvanceBy(w, t, n) == w
  {
    if n > 0 {
      StaysEnded(w, t, n - 1);
    }
  }
}
