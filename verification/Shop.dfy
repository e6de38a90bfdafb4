/**
 The services as the program runs them: methods that read and overwrite rows, loop
 over items, intents and stale orders, and call Stripe, with other requests running
 between any two of their calls.

 The shop keeps a ghost log of the protocol steps it has taken. Valid says that its
 tables are exactly what the protocol produces from that log, so every theorem
 about runs of the protocol is a theorem about these methods.
 */
module ShopServices {
  import opened Wrappers
  import opened Stock
  import opened ShopState
  import opened Operations
  import opened ShopInvariant
  import opened ShopTheorems

  /** The world the protocol reaches from an initial one by the events of a log. */
  ghost predicate Reached(start: World, log: seq<Event>, world: World) {
    Initial(start) && world == RunAll(start, log) && Inv(world)
  }

  predicate IsPrefix(a: seq<Event>, b: seq<Event>) {
    a <= b
  }

  /** The log only grew: everything that was a prefix of it still is. */
  ghost predicate Extended(before: seq<Event>, after: seq<Event>) {
    forall past :: IsPrefix(past, before) ==> IsPrefix(past, after)
  }

  lemma ExtendedIff(before: seq<Event>, after: seq<Event>)
    ensures Extended(before, after) <==> before <= after
  {
    assert IsPrefix(before, before);
  }

  /** Where a refund leaves the operation: at what its caller does next, or at the end of a reconcile. */
  function Wrap(inside: Option<nat>, op: Op): Op {
    if op == Done then Out(inside, false) else In(inside, op)
  }

  /** What a release transaction comes to. */
  lemma ReleaseNext(k: nat, op: Op, db: Db)
    requires op.Release?
    ensures NextPlain(k, op, db, false) == Moved(Done, db)
    ensures var m := NextPlain(k, op, db, true);
            && m.op == Done
            && if op.order < |db.orders| && db.orders[op.order].status == op.from then
                 m.db == db.(orders := db.orders[op.order := db.orders[op.order].(status := op.target)],
                             products := Restock(db.products, op.items),
                             notes := if op.reason.ByReaper?
                                      then db.notes.(reaped := db.notes.reaped[op.order := op.reason.listed]) else db.notes)
               else m.db == db
  {
  }

  lemma ReleaseHits(op: Op, db: Db)
    requires op.Release?
    ensures forall ok :: Hits(op, db, ok) <==> ok && op.order < |db.orders| && db.orders[op.order].status == op.from
  {
  }

  lemma EndOf(inside: Option<nat>, op: Op)
    requires Breaks(op)
    ensures forall ok :: Then(inside, op, Done, ok) == Out(inside, !ok)
  {
  }

  /** Where the status check of a reconcile leads. */
  lemma CheckNext(k: nat, p: nat, db: Db)
    requires p < |db.payments| && db.payments[p].intent < |db.intents|
    ensures NextPlain(k, ReconcileCheck(p), db, false) == Moved(Done, db)
    ensures NextPlain(k, ReconcileCheck(p), db, true)
         == var st := db.intents[db.payments[p].intent].status;
            Moved(if st == IntentSucceeded then PayCas(p)
                  else if st == IntentCanceled || st == RequiresPaymentMethod(true) then RecordFailed(p) else Done, db)
  {
  }

  ghost predicate Ran(w: World, k: nat, request: Op) {
    k < |w.ops| && k < |w.asked| && w.ops[k] == Done && w.asked[k] == request
  }

  /** The last event of the log is a step of operation k, and it is the one that made its request succeed. */
  ghost predicate Hit(start: World, log: seq<Event>, k: nat) {
    && log != [] && log[|log| - 1].Run? && log[|log| - 1].k == k
    && var w := RunAll(start, log[..|log| - 1]);
       k < |w.ops| && Hits(Core(w.ops[k]), w.db, log[|log| - 1].ok)
  }

  /** The last event of the log is operation k's release of an order in the name of the reaper. */
  ghost predicate Reaps(start: World, log: seq<Event>, k: nat) {
    Hit(start, log, k) && var op := Core(RunAll(start, log[..|log| - 1]).ops[k]); op.Release? && op.reason.ByReaper?
  }

  /** victims are exactly those of the first orders whose operation ended, at its mark, with the reaper's release. */
  ghost predicate Counted(start: World, ids: seq<nat>, ks: seq<nat>, marks: seq<seq<Event>>, victims: set<nat>) {
    && |ks| == |marks| <= |ids| && (forall o :: o in victims ==> o in ids[..|ks|])
    && forall n :: 0 <= n < |ks| ==> (ids[n] in victims <==> Reaps(start, marks[n], ks[n]))
  }

  lemma CountedNext(start: World, ids: seq<nat>, ks: seq<nat>, marks: seq<seq<Event>>, victims: set<nat>,
                    k: nat, mark: seq<Event>)
    requires Counted(start, ids, ks, marks, victims) && |ks| < |ids| && Increasing(ids)
    ensures ids[|ks|] !in victims
    ensures Counted(start, ids, ks + [k], marks + [mark],
                    victims + if Reaps(start, mark, k) then {ids[|ks|]} else {})
  {
    hide Reaps;
    assert ids[..|ks| + 1] == ids[..|ks|] + [ids[|ks|]];
  }

  lemma ExtendedAgain(first: seq<Event>, log: seq<Event>, log': seq<Event>)
    requires Extended(first, log) && Extended(log, log')
    ensures Extended(first, log') && Extended(log', log')
  {
    hide IsPrefix;
  }

  lemma AllExtended(marks: seq<seq<Event>>, log: seq<Event>, log': seq<Event>)
    requires Extended(log, log') && forall n :: 0 <= n < |marks| ==> Extended(marks[n], log)
    ensures forall n :: 0 <= n < |marks| ==> Extended(marks[n], log')
  {
    hide IsPrefix;
  }

  predicate Increasing(ids: seq<nat>) {
    forall a, b :: 0 <= a < b < |ids| ==> ids[a] < ids[b]
  }

  /** The oldest pending orders before the cutoff: all of them, or the first `limit`. */
  predicate IsStaleList(orders: seq<Order>, cutoff: nat, limit: nat, ids: seq<nat>) {
    && |ids| <= limit && Increasing(ids)
    && (forall n :: 0 <= n < |ids| ==>
          ids[n] < |orders| && ids[n] < cutoff && orders[ids[n]].status == PendingPayment)
    && (forall o :: 0 <= o < |orders| && o < cutoff && orders[o].status == PendingPayment ==>
          o in ids || (|ids| == limit && forall n :: 0 <= n < |ids| ==> ids[n] < o))
  }

  class Shop {
    var products: Products
    var orders: seq<Order>
    var payments: seq<Payment>
    var intents: seq<Intent>
    var refunds: map<nat, nat>
    var purchases: seq<nat>
    var announced: seq<nat>

    ghost var notes: Notes
    ghost var world: World
    ghost var log: seq<Event>
    ghost const start: World

    ghost function View(): Db
      reads this
    {
      Db(products, orders, payments, intents, refunds, purchases, announced, notes)
    }

    ghost predicate Tracked()
      reads this`world, this`log
    {
      Reached(start, log, world)
    }

    ghost predicate Valid()
      reads this
    {
      Tracked() && world.db == View()
    }

    /** Operation k has run to its end, and it came from this request. */
    ghost predicate Finished(k: nat, request: Op)
      reads this
    {
      Valid() && Ran(world, k, request)
    }

    /** Operation k stands at op. */
    ghost predicate At(k: nat, op: Op)
      reads this
    {
      Valid() && k < |world.ops| && world.ops[k] == op
    }

    constructor (shelf: Products)
      requires NonNegative(shelf)
      ensures Valid() && log == [] && products == shelf && orders == [] && payments == []
    {
      products, orders, payments, intents := shelf, [], [], [];
      refunds, purchases, announced := map[], [], [];
      notes := Notes(map[], map[], {}, []);
      start := World(Db(shelf, [], [], [], map[], [], [], Notes(map[], map[], {}, [])), [], []);
      world := World(Db(shelf, [], [], [], map[], [], [], Notes(map[], map[], {}, [])), [], []);
      log := [];
      new;
      InitialInv(start);
    }

    /** The payment an operation carries is a row of the table, linked to an order and an intent. */
    lemma PaymentKnown(k: nat, p: nat)
      requires Valid() && k < |world.ops|
      requires var op := Core(world.ops[k]);
               && (op.PayCas? || op.LogPurchases? || op.PayRead? || op.RecordSucceeded? || op.RecordFailed?
                   || op.ReconcileCheck? || op.IntentProbe? || op.RefundCall? || op.RefundMark?)
               && op.payment == p
      ensures p < |payments| && payments[p].order < |orders| && payments[p].intent < |intents|
    {
    }

    lemma OrderKnown(k: nat, o: nat)
      requires Valid() && k < |world.ops|
      requires var op := Core(world.ops[k]);
               (op.ReadItems? || op.Release?) && op.order == o
      ensures o < |orders| && (Core(world.ops[k]).Release? ==> Core(world.ops[k]).items == orders[o].items)
    {
    }

    lemma IntentKnown(k: nat)
      requires Valid() && k < |world.ops|
      requires var op := world.ops[k]; op.Void? || op.VoidCheck? || op.VoidRecord?
      ensures world.ops[k].next < |world.ops[k].listed| && world.ops[k].listed[world.ops[k].next] < |intents|
    {
    }

    /**
     What the theorems about runs say of the tables at any moment: no stock is negative,
     and shelf plus held units are what the shop opened with exactly when no forward edit
     has revived a released order.
     */
    lemma StockKept()
      requires Valid()
      ensures NonNegative(products) && products.Keys == start.db.products.Keys
      ensures notes.revived == [] <==> forall p :: p in start.db.products ==> Total(View(), p) == Total(start.db, p)
    {
      StockConservedIff(start, log);
      ReachableInv(start, log);
    }

    /** A refunded order in the table has a refund at Stripe of one of its own charged payments. */
    lemma RefundsAreReal(o: nat)
      requires Valid() && o < |orders| && orders[o].status == RefundedOrder
      ensures exists p :: p in refunds && p < |payments| && payments[p].order == o && Charged(View(), payments[p].intent)
    {
      RefundedIsTrue(start, log, o);
    }

    // ---------- bookkeeping ----------

    /** A request arrives. */
    ghost method Begin(op: Op) returns (k: nat)
      requires Valid() && Startable(op, world.db)
      modifies this`world, this`log
      ensures At(k, op) && world.db == old(world.db) && |world.asked| == |world.ops| && world.asked[k] == op
      ensures |log| == |old(log)| + 1 && log[|old(log)|] == Spawn(op) && Extended(old(log), log)
    {
      k := |world.ops|;
      EventKeeps(world, Spawn(op));
      log := log + [Spawn(op)];
      assert log[..|log| - 1] == old(log);
      world := Apply(world, Spawn(op));
    }

    /** The tables have just been changed as step (k, ok) changes them. */
    ghost method Step(k: nat, ok: bool)
      requires Tracked() && k < |world.ops|
      requires var m := Next(k, world.ops[k], world.db, ok); View().(notes := m.db.notes) == m.db
      modifies this`notes, this`world, this`log
      ensures At(k, Next(k, old(world.ops[k]), old(world.db), ok).op)
      ensures |log| == |old(log)| + 1 && log[|old(log)|] == Run(k, ok) && Extended(old(log), log)
      ensures notes == Next(k, old(world.ops[k]), old(world.db), ok).db.notes
      ensures Hit(start, log, k) <==> Hits(Core(old(world.ops[k])), old(world.db), ok)
      ensures Reaps(start, log, k) <==>
                Hit(start, log, k) && Core(old(world.ops[k])).Release? && Core(old(world.ops[k])).reason.ByReaper?
    {
      hide Next;
      EventKeeps(world, Run(k, ok));
      notes := Next(k, world.ops[k], world.db, ok).db.notes;
      log := log + [Run(k, ok)];
      assert log[..|log| - 1] == old(log);
      world := Apply(world, Run(k, ok));
    }

    /** The same for a step that a request for an intent may also make inside its reconcile. */
    ghost method StepIn(k: nat, inside: Option<nat>, op: Op, ok: bool)
      requires Tracked() && k < |world.ops| && world.ops[k] == In(inside, op) && !op.IntentFirst?
      requires var m := NextPlain(k, op, world.db, ok); View().(notes := m.db.notes) == m.db
      modifies this`notes, this`world, this`log
      ensures At(k, Then(inside, op, NextPlain(k, op, old(world.db), ok).op, ok))
      ensures Extended(old(log), log)
      ensures notes == NextPlain(k, op, old(world.db), ok).db.notes
      ensures Hit(start, log, k) <==> Hits(op, old(world.db), ok)
      ensures Reaps(start, log, k) <==> Hit(start, log, k) && op.Release? && op.reason.ByReaper?
    {
      hide Reached, Hit, Reaps, Hits, NextPlain, IsPrefix;
      NextIn(k, inside, op, world.db, ok);
      hide Next, In, Then, Core;
      Step(k, ok);
    }

    /**
     Everybody else runs: other operations take any number of steps, new requests
     arrive, Stripe moves intents. A caller knows no more about the tables than this.
     */
    method Interfere(ghost k: nat, ghost op: Op)
      requires At(k, op)
      modifies this
      ensures At(k, op) && Extended(old(log), log)
    {
    }

    // ---------- the repository: one statement each ----------

    method TransitionStatus(o: nat, from: OrderStatus, to: OrderStatus) returns (ok: bool)
      modifies this`orders
      ensures ok <==> o < |old(orders)| && old(orders)[o].status == from
      ensures orders == if ok then old(orders)[o := old(orders)[o].(status := to)] else old(orders)
    {
      ok := o < |orders| && orders[o].status == from;
      if ok {
        orders := orders[o := orders[o].(status := to)];
      }
    }

    method LockProductForUpdate(p: ProductId) returns (row: Option<Product>)
      ensures row == if p in products then Some(products[p]) else None
    {
      row := if p in products then Some(products[p]) else None;
    }

    method AddToStock(p: ProductId, n: int)
      modifies this`products
      ensures products == AddStock(old(products), p, n)
    {
      if p in products {
        products := products[p := products[p].(stock := products[p].stock + n)];
      }
    }

    /** The restock loop of every release transaction. */
    method RestockItems(items: seq<Line>)
      modifies this`products
      ensures products == Restock(old(products), items)
    {
      for n := 0 to |items|
        invariant products == Restock(old(products), items[..n])
      {
        assert items[..n + 1][..n] == items[..n];
        AddToStock(items[n].product, items[n].quantity);
      }
      assert items[..|items|] == items;
    }

    method LatestForOrder(o: nat) returns (row: Option<nat>)
      ensures row == Latest(payments, o)
    {
      var n := |payments|;
      assert payments[..n] == payments;
      while n > 0
        invariant 0 <= n <= |payments|
        invariant Latest(payments, o) == Latest(payments[..n], o)
      {
        assert payments[..n][..n - 1] == payments[..n - 1];
        if payments[n - 1].order == o {
          return Some(n - 1);
        }
        n := n - 1;
      }
      row := None;
    }

    method GetByPaymentIntentID(i: nat) returns (row: Option<nat>)
      ensures row == RowOfIntent(payments, i)
    {
      var n := |payments|;
      assert payments[..n] == payments;
      while n > 0
        invariant 0 <= n <= |payments|
        invariant RowOfIntent(payments, i) == RowOfIntent(payments[..n], i)
      {
        assert payments[..n][..n - 1] == payments[..n - 1];
        if payments[n - 1].intent == i {
          return Some(n - 1);
        }
        n := n - 1;
      }
      row := None;
    }

    method PendingIntentIDsForOrder(o: nat) returns (ids: seq<nat>)
      ensures ids == PendingIntents(payments, o)
    {
      ids := [];
      for n := 0 to |payments|
        invariant ids == PendingIntents(payments[..n], o)
      {
        assert payments[..n + 1][..n] == payments[..n];
        if payments[n].order == o && payments[n].status == Pending {
          ids := ids + [payments[n].intent];
        }
      }
      assert payments[..|payments|] == payments;
    }

    /** UpdateSucceeded, UpdateFailed and MarkRefunded: the row is overwritten whatever it said. */
    method OverwritePayment(p: nat, to: PaymentStatus)
      requires p < |payments|
      modifies this`payments
      ensures payments == old(payments)[p := old(payments)[p].(status := to)]
    {
      payments := payments[p := payments[p].(status := to)];
    }

    method UpdateCancelled(i: nat)
      modifies this`payments
      ensures View() == old(CancelRow(View(), i))
    {
      var row := GetByPaymentIntentID(i);
      if row.Some? && payments[row.value].status == Pending {
        payments := payments[row.value := payments[row.value].(status := CancelledPayment)];
      }
    }

    // ---------- orders service ----------

    /**
     The order's number, or None when the cart is empty, a product is gone, or stock or price
     changed; `rows` are the products under the locks. Unless its last statement failed, it
     refuses a cart exactly when one of its lines does not fit them.
     */
    method Checkout(lines: seq<Line>) returns (placed: Option<nat>, ghost k: nat, ghost rows: Products)
      requires Valid() && ValidCart(lines)
      modifies this
      ensures Valid() && Extended(old(log), log)
      ensures lines == [] ==> placed.None? && log == old(log)
      ensures lines != [] ==> Finished(k, Operations.Checkout(lines))
      ensures placed.Some? <==> lines != [] && Hit(start, log, k)
      ensures placed.Some? ==> placed.value == |orders| - 1 && orders[placed.value] == Order(lines, PendingPayment)
      ensures placed.Some? ==>
        && (forall n :: 0 <= n < |lines| ==>
              && lines[n].product in rows && rows[lines[n].product].price == lines[n].price
              && lines[n].quantity <= rows[lines[n].product].stock)
        && Taken(rows, products, lines)
      ensures placed.None? ==> products == rows
      ensures placed.None? && lines != [] && log[|log| - 1] != Run(k, false) ==>
        exists n :: 0 <= n < |lines|
          && (lines[n].product !in rows || rows[lines[n].product].price != lines[n].price
              || rows[lines[n].product].stock < lines[n].quantity)
    {
      hide Reached, Hit, Reaps, OpInv, IsPrefix, Latest, RowOfIntent, PendingIntents;
      hide NextRelease, NextRefund, NextSucceeded, NextFailed, NextReconcile, NextReap, NextIntent;
      if lines == [] {
        return None, 0, products;
      }
      k := Begin(Operations.Checkout(lines));
      ghost var asked, mark := world, log;
      Interfere(k, Operations.Checkout(lines));
      rows := products;
      for n := 0 to |lines|
        invariant At(k, Operations.Checkout(lines)) && Extended(old(log), log) && Extended(mark, log)
        invariant products == rows && AcceptsAll(rows, lines[..n])
      {
        var row := LockProductForUpdate(lines[n].product);
        if row.None? || row.value.stock < lines[n].quantity || row.value.price != lines[n].price {
          assert !Accepts(products, lines[n]);
          Step(k, true);
          StillAsked(asked, mark, k);
          return None, k, rows;
        }
        assert lines[..n + 1] == lines[..n] + [lines[n]];
      }
      assert lines[..|lines|] == lines;
      placed := WriteOrder(k, lines);
      FitsIff(rows, lines);
      DeductTaken(rows, lines);
      StillAsked(asked, mark, k);
    }

    /**
     The writing half of the checkout transaction: the order, then each item with its
     decrement. A statement or the commit may fail, and then everything is rolled back.
     */
    method WriteOrder(ghost k: nat, lines: seq<Line>) returns (placed: Option<nat>)
      requires At(k, Operations.Checkout(lines)) && AcceptsAll(products, lines)
      modifies this
      ensures At(k, Done) && Extended(old(log), log)
      ensures placed.Some? <==> Hit(start, log, k)
      ensures placed.Some? ==>
        && placed.value == |old(orders)| && orders == old(orders) + [Order(lines, PendingPayment)]
        && products == Deduct(old(products), lines)
      ensures placed.None? ==> orders == old(orders) && products == old(products)
      ensures |log| == |old(log)| + 1 && log[|log| - 1] == Run(k, placed.Some?)
    {
      hide Reached, Hit, Reaps, OpInv, IsPrefix, Latest, RowOfIntent, PendingIntents;
      hide NextRelease, NextRefund, NextSucceeded, NextFailed, NextReconcile, NextReap, NextIntent;
      var o, ordersBefore, productsBefore := |orders|, orders, products;
      orders := orders + [Order([], PendingPayment)];
      for n := 0 to |lines|
        invariant ordersBefore == old(orders) && productsBefore == old(products) && o == |old(orders)|
        invariant orders == old(orders) + [Order(lines[..n], PendingPayment)]
        invariant products == Deduct(old(products), lines[..n])
        invariant payments == old(payments) && intents == old(intents) && refunds == old(refunds)
        invariant purchases == old(purchases) && announced == old(announced)
        invariant notes == old(notes) && world == old(world) && log == old(log)
      {
        var up: bool := *;
        if !up {
          orders, products := ordersBefore, productsBefore;
          Step(k, false);
          return None;
        }
        assert lines[..n + 1][..n] == lines[..n];
        assert lines[..n + 1] == lines[..n] + [lines[n]];
        orders := orders[o := orders[o].(items := orders[o].items + [lines[n]])];
        AddToStock(lines[n].product, -(lines[n].quantity as int));
      }
      assert lines[..|lines|] == lines;
      var committed: bool := *;
      if !committed {
        orders, products := ordersBefore, productsBefore;
      }
      Step(k, committed);
      placed := if committed then Some(o) else None;
    }

    /**
     ItemsForRestock and the release transaction that Cancel, AdminRefund,
     MarkPaymentFailed and the reaper share. `err` says that a statement failed; without
     one, a release that is not ok found the order in another status.
     */
    method ReleaseItems(ghost k: nat, ghost inside: Option<nat>, o: nat, from: OrderStatus, to: OrderStatus, ghost reason: Reason)
      returns (ok: bool, err: bool)
      requires At(k, In(inside, ReadItems(o, from, to, reason)))
      modifies this
      ensures At(k, Out(inside, err)) && Extended(old(log), log) && (ok ==> !err)
      ensures ok <==> Hit(start, log, k)
      ensures Reaps(start, log, k) <==> ok && reason.ByReaper?
      ensures ok ==> o < |orders| && orders[o].status == to
      ensures ok && reason.ByReaper? ==> o in notes.reaped && notes.reaped[o] == reason.listed
    {
      hide Reached, Hit, Reaps, OpInv, IsPrefix, Latest, RowOfIntent, PendingIntents;
      hide NextRelease, NextRefund, NextSucceeded, NextFailed, NextReconcile, NextReap, NextIntent;
      OrderKnown(k, o);
      ghost var read := ReadItems(o, from, to, reason);
      var up: bool := *;
      if !up {
        StepIn(k, inside, read, false);
        return false, true;
      }
      var items := orders[o].items;
      StepIn(k, inside, read, true);
      ok, err := ReleaseTransaction(k, inside, o, items, from, to, reason);
    }

    /** The compare-and-set and, if it hit, the restock loop; a failing statement rolls both back. */
    method ReleaseTransaction(ghost k: nat, ghost inside: Option<nat>, o: nat, items: seq<Line>,
                              from: OrderStatus, to: OrderStatus, ghost reason: Reason)
      returns (ok: bool, err: bool)
      requires At(k, In(inside, Release(o, items, from, to, reason)))
      modifies this
      ensures At(k, Out(inside, err)) && Extended(old(log), log) && (ok ==> !err)
      ensures ok <==> Hit(start, log, k)
      ensures Reaps(start, log, k) <==> ok && reason.ByReaper?
      ensures ok ==> o < |orders| && orders[o].status == to
      ensures ok && reason.ByReaper? ==> o in notes.reaped && notes.reaped[o] == reason.listed
    {
      hide Reached, Hit, Reaps, PlainInv, OpInv, IsPrefix, Latest, RowOfIntent, PendingIntents, Restock, NextPlain, Extended;
      ghost var release := Release(o, items, from, to, reason);
      Interfere(k, In(inside, release));
      ghost var mark := log;
      ReleaseNext(k, release, world.db);
      ReleaseHits(release, world.db);
      EndOf(inside, release);
      hide Hits, In, Out, Then;
      ok, err := ReleaseWrites(o, items, from, to);
      StepIn(k, inside, release, !err);
      ExtendedAgain(old(log), mark, log);
    }

    /** The statements of that transaction. */
    method ReleaseWrites(o: nat, items: seq<Line>, from: OrderStatus, to: OrderStatus) returns (ok: bool, err: bool)
      modifies this`orders, this`products
      ensures ok <==> !err && o < |old(orders)| && old(orders)[o].status == from
      ensures orders == if ok then old(orders)[o := old(orders)[o].(status := to)] else old(orders)
      ensures products == if ok then Restock(old(products), items) else old(products)
    {
      var ordersBefore, productsBefore := orders, products;
      ok := TransitionStatus(o, from, to);
      if ok {
        RestockItems(items);
      }
      err := *;
      if err {
        orders, products := ordersBefore, productsBefore;
        ok := false;
      }
    }

    /** The order is read again to answer the caller; without it the request fails although it took effect. */
    method Answered(ok: bool) returns (answer: Answer)
      ensures answer == Refused <==> !ok
    {
      var up: bool := *;
      answer := if !ok then Refused else if up then Accepted else Unconfirmed;
    }

    method Cancel(o: nat) returns (answer: Answer, ghost k: nat)
      requires Valid()
      modifies this
      ensures Finished(k, CancelStart(o)) && Extended(old(log), log)
      ensures answer != Refused <==> Hit(start, log, k)
      ensures answer != Refused ==> o < |orders| && (orders[o].status == Cancelled || orders[o].status == RefundedOrder)
    {
      hide Reached, Hit, Reaps, OpInv, IsPrefix, Latest, RowOfIntent, PendingIntents;
      hide NextRelease, NextRefund, NextSucceeded, NextFailed, NextReconcile, NextReap, NextIntent;
      k := Begin(CancelStart(o));
      ghost var asked, mark := world, log;
      Interfere(k, CancelStart(o));
      var ok, err;
      var up: bool := *;
      if !up || o >= |orders| || (orders[o].status != PendingPayment && orders[o].status != Paid) {
        Step(k, up);
        StillAsked(asked, mark, k);
        return Refused, k;
      }
      var status := orders[o].status;
      Step(k, true);
      if status == Paid {
        ghost var p;
        ok, p := RefundOrder(k, None, o, ThenRelease(Paid));
        if !ok {
          StillAsked(asked, mark, k);
          return Refused, k;
        }
        Interfere(k, ReadItems(o, Paid, RefundedOrder, ByRefund(p)));
        ok, err := ReleaseItems(k, None, o, Paid, RefundedOrder, ByRefund(p));
      } else {
        Interfere(k, ReadItems(o, PendingPayment, Cancelled, ByCancel));
        ok, err := ReleaseItems(k, None, o, PendingPayment, Cancelled, ByCancel);
      }
      StillAsked(asked, mark, k);
      answer := Answered(ok);
    }

    method AdminRefund(o: nat) returns (answer: Answer, ghost k: nat)
      requires Valid()
      modifies this
      ensures Finished(k, RefundStart(o)) && Extended(old(log), log)
      ensures answer != Refused <==> Hit(start, log, k)
      ensures answer != Refused ==> o < |orders| && orders[o].status == RefundedOrder
    {
      hide Reached, Hit, Reaps, OpInv, IsPrefix, Latest, RowOfIntent, PendingIntents;
      hide NextRelease, NextRefund, NextSucceeded, NextFailed, NextReconcile, NextReap, NextIntent;
      k := Begin(RefundStart(o));
      ghost var asked, mark := world, log;
      Interfere(k, RefundStart(o));
      var ok, err;
      var up: bool := *;
      if !up || o >= |orders| || !PostPayment(orders[o].status) {
        Step(k, up);
        StillAsked(asked, mark, k);
        return Refused, k;
      }
      var status := orders[o].status;
      Step(k, true);
      ghost var p;
      ok, p := RefundOrder(k, None, o, ThenRelease(status));
      if !ok {
        StillAsked(asked, mark, k);
        return Refused, k;
      }
      Interfere(k, ReadItems(o, status, RefundedOrder, ByRefund(p)));
      ok, err := ReleaseItems(k, None, o, status, RefundedOrder, ByRefund(p));
      StillAsked(asked, mark, k);
      answer := Answered(ok);
    }

    method AdminUpdateStatus(o: nat, target: OrderStatus) returns (answer: Answer, ghost k: nat)
      requires Valid()
      modifies this
      ensures Finished(k, EditStart(o, target)) && Extended(old(log), log)
      ensures answer != Refused <==> Hit(start, log, k)
      ensures answer != Refused ==>
        o < |orders| && orders[o].status == target && target in {Processing, Shipped, Delivered, Cancelled}
    {
      hide Reached, Hit, Reaps, OpInv, IsPrefix, Latest, RowOfIntent, PendingIntents;
      hide NextRelease, NextRefund, NextSucceeded, NextFailed, NextReconcile, NextReap, NextIntent;
      k := Begin(EditStart(o, target));
      ghost var asked, mark := world, log;
      if !AdminSettable(target) {
        Step(k, true);
        StillAsked(asked, mark, k);
        return Refused, k;
      }
      Interfere(k, EditStart(o, target));
      var ok, err;
      var up: bool := *;
      if !up || o >= |orders| || (target == Cancelled && orders[o].status != PendingPayment) {
        Step(k, up);
        StillAsked(asked, mark, k);
        return Refused, k;
      }
      var status := orders[o].status;
      Step(k, true);
      if target == Cancelled {
        Interfere(k, ReadItems(o, PendingPayment, Cancelled, ByAdmin));
        ok, err := ReleaseItems(k, None, o, PendingPayment, Cancelled, ByAdmin);
      } else {
        ok := ForwardOrder(k, o, status, target);
      }
      StillAsked(asked, mark, k);
      answer := Answered(ok);
    }

    /** The forward shipping edit: a compare-and-set from whatever status was read. */
    method ForwardOrder(ghost k: nat, o: nat, from: OrderStatus, target: OrderStatus) returns (ok: bool)
      requires At(k, EditForward(o, from, target))
      modifies this
      ensures At(k, Done) && Extended(old(log), log)
      ensures ok <==> Hit(start, log, k)
      ensures ok ==> o < |orders| && orders[o].status == target
    {
      hide Reached, Hit, Reaps, OpInv, IsPrefix, Latest, RowOfIntent, PendingIntents;
      hide NextRelease, NextRefund, NextSucceeded, NextFailed, NextReconcile, NextReap, NextIntent;
      Interfere(k, EditForward(o, from, target));
      var up: bool := *;
      if up {
        ok := TransitionStatus(o, from, target);
      } else {
        ok := false;
      }
      Step(k, up);
    }

    /** MarkPaid: whether the order is in a paid-or-later state after the call, unless a statement failed. */
    method MarkPaid(ghost k: nat, ghost inside: Option<nat>, p: nat) returns (answered: bool, paid: bool)
      requires At(k, In(inside, PayCas(p)))
      modifies this
      ensures Extended(old(log), log)
      ensures At(k, if answered then In(inside, RecordSucceeded(p, paid)) else Out(inside, true))
      ensures !Reaps(start, log, k)
    {
      hide Reached, Hit, Reaps, OpInv, IsPrefix, Latest, RowOfIntent, PendingIntents;
      hide NextOrder, NextRelease, NextRefund, NextFailed, NextReconcile, NextReap, NextIntent;
      PaymentKnown(k, p);
      var up: bool := *;
      if !up {
        StepIn(k, inside, PayCas(p), false);
        return false, false;
      }
      var o := payments[p].order;
      var flipped := TransitionStatus(o, PendingPayment, Paid);
      StepIn(k, inside, PayCas(p), true);
      if flipped {
        LogPurchasesOf(k, inside, p);
        return true, true;
      }
      answered, paid := ReadPaid(k, inside, p);
    }

    /** logPurchases; its failure is only logged. */
    method LogPurchasesOf(ghost k: nat, ghost inside: Option<nat>, p: nat)
      requires At(k, In(inside, LogPurchases(p)))
      modifies this
      ensures Extended(old(log), log) && At(k, In(inside, RecordSucceeded(p, true))) && !Reaps(start, log, k)
    {
      hide Reached, Hit, Reaps, OpInv, IsPrefix, Latest, RowOfIntent, PendingIntents;
      hide NextOrder, NextRelease, NextRefund, NextFailed, NextReconcile, NextReap, NextIntent;
      Interfere(k, In(inside, LogPurchases(p)));
      PaymentKnown(k, p);
      var logged: bool := *;
      if logged {
        purchases := purchases + [payments[p].order];
      }
      StepIn(k, inside, LogPurchases(p), logged);
    }

    /** The read after a missed compare-and-set. */
    method ReadPaid(ghost k: nat, ghost inside: Option<nat>, p: nat) returns (answered: bool, paid: bool)
      requires At(k, In(inside, PayRead(p)))
      modifies this
      ensures Extended(old(log), log)
      ensures At(k, if answered then In(inside, RecordSucceeded(p, paid)) else Out(inside, true))
      ensures !Reaps(start, log, k)
    {
      hide Reached, Hit, Reaps, OpInv, IsPrefix, Latest, RowOfIntent, PendingIntents;
      hide NextOrder, NextRelease, NextRefund, NextFailed, NextReconcile, NextReap, NextIntent;
      Interfere(k, In(inside, PayRead(p)));
      PaymentKnown(k, p);
      answered := *;
      paid := answered && PostPayment(orders[payments[p].order].status);
      StepIn(k, inside, PayRead(p), answered);
    }

    method MarkPaymentFailed(ghost k: nat, ghost inside: Option<nat>, o: nat) returns (err: bool)
      requires At(k, In(inside, ReadItems(o, PendingPayment, PaymentFailed, ByFailure)))
      modifies this
      ensures At(k, Out(inside, err)) && Extended(old(log), log)
      ensures !Reaps(start, log, k)
    {
      hide Reached, Hit, Reaps, OpInv, IsPrefix, Latest, RowOfIntent, PendingIntents;
      hide NextOrder, NextRelease, NextRefund, NextSucceeded, NextFailed, NextReconcile, NextReap, NextIntent;
      var flipped;
      flipped, err := ReleaseItems(k, inside, o, PendingPayment, PaymentFailed, ByFailure);
    }

    /** StalePendingOrders: the oldest pending orders created before the cutoff, at most `limit` of them. */
    method StalePendingOrders(cutoff: nat, limit: nat) returns (ids: seq<nat>)
      ensures IsStaleList(orders, cutoff, limit, ids)
    {
      ids := [];
      for o := 0 to |orders|
        invariant IsStaleList(orders[..o], cutoff, limit, ids)
      {
        if o < cutoff && orders[o].status == PendingPayment && |ids| < limit {
          ids := ids + [o];
        }
      }
      assert orders[..|orders|] == orders;
    }

    /**
     The reaper. It runs every stale order of its list to the end, and counts exactly the
     orders that it released itself; marks are the logs at which it turned to the next.
     Each was cancelled after the canceller had voided, or judged void, all intents it
     listed for that order.
     */
    method ExpireStaleCheckouts(cutoff: nat, limit: nat)
      returns (reaped: nat, ghost stale: seq<nat>, ghost ks: seq<nat>, ghost marks: seq<seq<Event>>, ghost victims: set<nat>)
      requires Valid()
      modifies this
      ensures Valid() && Extended(old(log), log)
      ensures IsStaleList(old(orders), cutoff, limit, stale)
      ensures |ks| == |stale| && forall n :: 0 <= n < |stale| ==> Finished(ks[n], ReapStart(stale[n]))
      ensures Counted(start, stale, ks, marks, victims) && forall n :: 0 <= n < |marks| ==> Extended(marks[n], log)
      ensures reaped == |victims|
      ensures victims <= notes.reaped.Keys && forall o :: o in victims ==> LeftPending(View(), o)
    {
      hide Valid, Reached, Hit, Reaps, Counted, OpInv, IsPrefix, IsStaleList, Ran, Next, Extended, LeftPending;
      var ids := StalePendingOrders(cutoff, limit);
      StaleListFits(orders, cutoff, limit, ids);
      stale := ids;
      reaped, ks, marks, victims := ReapAll(ids);
      ReapedLeft();
    }

    /** The loop of the reaper. */
    method ReapAll(ids: seq<nat>)
      returns (reaped: nat, ghost ks: seq<nat>, ghost marks: seq<seq<Event>>, ghost victims: set<nat>)
      requires Valid() && Increasing(ids) && forall n :: 0 <= n < |ids| ==> ids[n] < |orders|
      modifies this
      ensures Valid() && Extended(old(log), log)
      ensures |ks| == |ids| && forall n :: 0 <= n < |ids| ==> Ran(world, ks[n], ReapStart(ids[n]))
      ensures Counted(start, ids, ks, marks, victims) && forall n :: 0 <= n < |marks| ==> Extended(marks[n], log)
      ensures reaped == |victims| && victims <= notes.reaped.Keys
    {
      hide Valid, Reached, Hit, Reaps, Counted, OpInv, IsPrefix, Ran, Next, Extended;
      NoneCounted(start);
      NothingLogged();
      reaped, ks, marks, victims := 0, [], [], {};
      for n := 0 to |ids|
        invariant Valid() && Extended(old(log), log) && |old(orders)| <= |orders|
        invariant |ks| == n && forall a :: 0 <= a < n ==> Ran(world, ks[a], ReapStart(ids[a]))
        invariant Counted(start, ids, ks, marks, victims)
        invariant |marks| == n && forall a :: 0 <= a < n ==> Extended(marks[a], log)
        invariant reaped == |victims| && victims <= notes.reaped.Keys
      {
        ghost var mark := log;
        var flipped, k := ReapStale(ids[n]);
        ExtendedAgain(old(log), mark, log);
        AllExtended(marks, mark, log);
        CountedNext(start, ids, ks, marks, victims, k, log);
        ks, marks := ks + [k], marks + [log];
        if flipped {
          reaped := reaped + 1;
          victims := victims + {ids[n]};
        }
      }
    }

    lemma NothingLogged()
      ensures Extended(log, log)
    {
    }

    lemma NoneCounted(start: World)
      ensures forall ids :: Counted(start, ids, [], [], {})
    {
    }

    lemma StaleListFits(orders: seq<Order>, cutoff: nat, limit: nat, ids: seq<nat>)
      requires IsStaleList(orders, cutoff, limit, ids)
      ensures Increasing(ids) && forall n :: 0 <= n < |ids| ==> ids[n] < |orders|
    {
    }

    /** Whatever was logged since, orders stay, notes of reaps stay, and finished operations stay finished. */
    lemma Since(before: World, mark: seq<Event>)
      requires Valid() && Reached(start, mark, before) && Extended(mark, log)
      ensures |before.db.orders| <= |orders|
      ensures forall o :: o in before.db.notes.reaped ==> o in notes.reaped
      ensures |before.ops| <= |world.ops| == |world.asked|
      ensures forall k :: 0 <= k < |before.ops| ==> world.asked[k] == before.asked[k]
      ensures forall k, request :: Ran(before, k, request) ==> Ran(world, k, request)
    {
      ExtendedIff(mark, log);
      var since := log[|mark|..];
      assert log == mark + since;
      RunAllAppend(start, mark, since);
      OperationsStay(before, since);
      RunsForward(before, since);
    }

    lemma StillAsked(before: World, mark: seq<Event>, k: nat)
      requires Valid() && Reached(start, mark, before) && Extended(mark, log) && k < |before.ops|
      ensures k < |world.asked| && k < |before.asked| && world.asked[k] == before.asked[k]
    {
      Since(before, mark);
    }

    lemma ReapedLeft()
      requires Valid()
      ensures forall o :: o in notes.reaped ==> LeftPending(View(), o)
    {
    }

    /** One order of the reaper's loop, and what stays of the orders before it. */
    method ReapStale(o: nat) returns (flipped: bool, ghost k: nat)
      requires Valid() && o < |orders|
      modifies this
      ensures Finished(k, ReapStart(o)) && Extended(old(log), log)
      ensures flipped <==> Reaps(start, log, k)
      ensures flipped ==> o in notes.reaped
      ensures |old(orders)| <= |orders| && old(notes.reaped).Keys <= notes.reaped.Keys
      ensures forall j, request :: Ran(old(world), j, request) ==> Ran(world, j, request)
    {
      hide Reached, Hit, Reaps, OpInv, IsPrefix, Ran;
      ghost var before, mark := world, log;
      flipped, k := ReapOrder(o);
      Since(before, mark);
    }

    /** One order of the reaper's loop. */
    method ReapOrder(o: nat) returns (flipped: bool, ghost k: nat)
      requires Valid() && o < |orders|
      modifies this
      ensures Finished(k, ReapStart(o)) && Extended(old(log), log)
      ensures flipped <==> Reaps(start, log, k)
      ensures flipped ==> o in notes.reaped
    {
      hide Reached, Hit, Reaps, OpInv, IsPrefix, Latest, RowOfIntent, PendingIntents;
      hide NextOrder, NextRelease, NextRefund, NextSucceeded, NextFailed, NextReconcile, NextIntent;
      k := Begin(ReapStart(o));
      ghost var asked, mark := world, log;
      Interfere(k, ReapStart(o));
      var listed, outcome := CancelOrderIntents(k, o);
      if outcome == InFlight {
        Interfere(k, ReconcileStart(o));
        var failed := Reconcile(k, None, o);
        StillAsked(asked, mark, k);
        return false, k;
      }
      if outcome == Broken {
        StillAsked(asked, mark, k);
        return false, k;
      }
      Interfere(k, ReadItems(o, PendingPayment, Cancelled, ByReaper(listed)));
      var err;
      flipped, err := ReleaseItems(k, None, o, PendingPayment, Cancelled, ByReaper(listed));
      StillAsked(asked, mark, k);
    }

    // ---------- payments service ----------

    /** RefundOrder; on success the operation is ready for what its caller does next. */
    method RefundOrder(ghost k: nat, ghost inside: Option<nat>, o: nat, ghost after: After) returns (ok: bool, ghost p: nat)
      requires At(k, In(inside, RefundRead(o, after)))
      modifies this
      ensures Extended(old(log), log)
      ensures At(k, Wrap(inside, if ok then AfterRefund(o, p, after) else Done))
      ensures !Hit(start, log, k) && !Reaps(start, log, k)
    {
      hide Reached, Hit, Reaps, OpInv, IsPrefix, Latest, RowOfIntent, PendingIntents;
      hide NextOrder, NextRelease, NextSucceeded, NextFailed, NextReconcile, NextReap, NextIntent;
      Interfere(k, In(inside, RefundRead(o, after)));
      p := 0;
      var up: bool := *;
      var row := LatestForOrder(o);
      if !up || row.None? {
        StepIn(k, inside, RefundRead(o, after), up);
        return false, p;
      }
      p := row.value;
      var status := payments[row.value].status;
      StepIn(k, inside, RefundRead(o, after), true);
      if status == RefundedPayment {
        return true, p;
      }
      if status != Succeeded {
        return false, p;
      }
      ok := ChargeBack(k, inside, o, row.value, after);
    }

    /** The Stripe refund of row q, and the mark that records it. */
    method ChargeBack(ghost k: nat, ghost inside: Option<nat>, o: nat, q: nat, ghost after: After) returns (ok: bool)
      requires At(k, In(inside, RefundCall(o, q, after)))
      modifies this
      ensures Extended(old(log), log)
      ensures At(k, Wrap(inside, if ok then AfterRefund(o, q, after) else Done))
      ensures !Hit(start, log, k) && !Reaps(start, log, k)
    {
      hide Reached, Hit, Reaps, OpInv, IsPrefix;
      hide NextOrder, NextRelease, NextSucceeded, NextFailed, NextReconcile, NextReap, NextIntent;
      Interfere(k, In(inside, RefundCall(o, q, after)));
      PaymentKnown(k, q);
      var answered: bool := *;
      if !answered {
        StepIn(k, inside, RefundCall(o, q, after), false);
        return false;
      }
      ok := StripeRefund(q);
      StepIn(k, inside, RefundCall(o, q, after), true);
      if ok {
        ok := MarkRefunded(k, inside, o, q, after);
      }
    }

    /** The mark of the refunded row. */
    method MarkRefunded(ghost k: nat, ghost inside: Option<nat>, o: nat, q: nat, ghost after: After) returns (ok: bool)
      requires At(k, In(inside, RefundMark(o, q, after)))
      modifies this
      ensures Extended(old(log), log)
      ensures At(k, Wrap(inside, if ok then AfterRefund(o, q, after) else Done))
      ensures !Hit(start, log, k) && !Reaps(start, log, k)
    {
      hide Reached, Hit, Reaps, OpInv, IsPrefix;
      hide NextOrder, NextRelease, NextSucceeded, NextFailed, NextReconcile, NextReap, NextIntent;
      Interfere(k, In(inside, RefundMark(o, q, after)));
      PaymentKnown(k, q);
      ok := *;
      if ok {
        OverwritePayment(q, RefundedPayment);
      }
      StepIn(k, inside, RefundMark(o, q, after), ok);
    }

    /** Stripe's refund call, keyed by the payment row. */
    method StripeRefund(p: nat) returns (accepted: bool)
      requires p < |payments| && payments[p].intent < |intents|
      modifies this`refunds
      ensures accepted <==> old(RefundAccepted(View(), p))
      ensures View() == if accepted then old(RefundCharge(View(), p)) else old(View())
    {
      if p in refunds {
        return true;
      }
      accepted := intents[payments[p].intent].status == IntentSucceeded && payments[p].intent !in refunds.Values;
      if accepted {
        refunds := refunds[p := payments[p].intent];
      }
    }

    method OnIntentSucceeded(i: nat) returns (ghost k: nat)
      requires Valid() && Charged(View(), i)
      modifies this
      ensures Finished(k, SucceededEvent(i)) && Extended(old(log), log)
    {
      hide Reached, Hit, Reaps, OpInv, IsPrefix, Latest, RowOfIntent, PendingIntents;
      hide NextOrder, NextRelease, NextRefund, NextFailed, NextReconcile, NextReap, NextIntent;
      k := Begin(SucceededEvent(i));
      ghost var asked, mark := world, log;
      Interfere(k, SucceededEvent(i));
      var up: bool := *;
      var row := GetByPaymentIntentID(i);
      if !up || row.None? || payments[row.value].status == Succeeded {
        Step(k, up);
        StillAsked(asked, mark, k);
        return;
      }
      Step(k, true);
      var err := ApplySucceeded(k, None, row.value);
      StillAsked(asked, mark, k);
    }

    /** applySucceeded: the order first, the row second, then the announcement or the refund of a dead order. */
    method ApplySucceeded(ghost k: nat, ghost inside: Option<nat>, p: nat) returns (err: bool)
      requires At(k, In(inside, PayCas(p)))
      modifies this
      ensures At(k, Out(inside, err)) && Extended(old(log), log)
      ensures !Reaps(start, log, k)
    {
      hide Reached, Hit, Reaps, OpInv, IsPrefix, Latest, RowOfIntent, PendingIntents;
      hide NextOrder, NextRelease, NextRefund, NextFailed, NextReconcile, NextReap, NextIntent;
      Interfere(k, In(inside, PayCas(p)));
      var answered, paid := MarkPaid(k, inside, p);
      if !answered {
        return true;
      }
      var o;
      o, err := UpdateSucceeded(k, inside, p, paid);
      if err {
        return;
      }
      if paid {
        AnnouncePaid(k, inside, p);
      } else {
        ghost var q;
        var refunded;
        refunded, q := RefundOrder(k, inside, o, ThenNothing);
      }
    }

    /** UpdateSucceeded: the row is overwritten whatever it said. */
    method UpdateSucceeded(ghost k: nat, ghost inside: Option<nat>, p: nat, paid: bool) returns (o: nat, err: bool)
      requires At(k, In(inside, RecordSucceeded(p, paid)))
      modifies this
      ensures Extended(old(log), log) && !Reaps(start, log, k)
      ensures At(k, if err then Out(inside, true) else In(inside, if paid then Announce(p) else RefundRead(o, ThenNothing)))
    {
      hide Reached, Hit, Reaps, OpInv, IsPrefix, Latest, RowOfIntent, PendingIntents;
      hide NextOrder, NextRelease, NextRefund, NextFailed, NextReconcile, NextReap, NextIntent;
      Interfere(k, In(inside, RecordSucceeded(p, paid)));
      PaymentKnown(k, p);
      o := payments[p].order;
      err := *;
      if !err {
        OverwritePayment(p, Succeeded);
      }
      StepIn(k, inside, RecordSucceeded(p, paid), !err);
    }

    /** The revenue metric and the published confirmation. */
    method AnnouncePaid(ghost k: nat, ghost inside: Option<nat>, p: nat)
      requires At(k, In(inside, Announce(p)))
      modifies this
      ensures At(k, Out(inside, false)) && Extended(old(log), log) && !Reaps(start, log, k)
    {
      hide Reached, Hit, Reaps, OpInv, IsPrefix;
      hide NextOrder, NextRelease, NextRefund, NextFailed, NextReconcile, NextReap, NextIntent;
      Interfere(k, In(inside, Announce(p)));
      announced := announced + [p];
      StepIn(k, inside, Announce(p), true);
    }

    method OnIntentFailed(i: nat) returns (ghost k: nat)
      requires Valid()
      modifies this
      ensures Finished(k, FailedEvent(i)) && Extended(old(log), log)
    {
      hide Reached, Hit, Reaps, OpInv, IsPrefix, Latest, RowOfIntent, PendingIntents;
      hide NextOrder, NextRelease, NextRefund, NextSucceeded, NextReconcile, NextReap, NextIntent;
      k := Begin(FailedEvent(i));
      ghost var asked, mark := world, log;
      Interfere(k, FailedEvent(i));
      var up: bool := *;
      var row := GetByPaymentIntentID(i);
      if !up || row.None? || payments[row.value].status == Failed {
        Step(k, up);
        StillAsked(asked, mark, k);
        return;
      }
      Step(k, true);
      var err := ApplyFailed(k, None, row.value);
      StillAsked(asked, mark, k);
    }

    /** applyFailed: the row first, whatever it said, then the release of a pending order. */
    method ApplyFailed(ghost k: nat, ghost inside: Option<nat>, p: nat) returns (err: bool)
      requires At(k, In(inside, RecordFailed(p)))
      modifies this
      ensures At(k, Out(inside, err)) && Extended(old(log), log)
      ensures !Reaps(start, log, k)
    {
      hide Reached, Hit, Reaps, OpInv, IsPrefix, Latest, RowOfIntent, PendingIntents;
      hide NextOrder, NextRelease, NextRefund, NextSucceeded, NextReconcile, NextReap, NextIntent;
      Interfere(k, In(inside, RecordFailed(p)));
      PaymentKnown(k, p);
      var o := payments[p].order;
      var up: bool := *;
      if up {
        OverwritePayment(p, Failed);
      }
      StepIn(k, inside, RecordFailed(p), up);
      if !up {
        return true;
      }
      Interfere(k, In(inside, ReadItems(o, PendingPayment, PaymentFailed, ByFailure)));
      err := MarkPaymentFailed(k, inside, o);
    }

    /** Reconcile, by itself or inside a request for an intent; whether it failed. */
    method Reconcile(ghost k: nat, ghost inside: Option<nat>, o: nat) returns (err: bool)
      requires At(k, In(inside, ReconcileStart(o)))
      modifies this
      ensures At(k, Out(inside, err)) && Extended(old(log), log)
      ensures !Reaps(start, log, k)
    {
      hide Reached, Hit, Reaps, OpInv, IsPrefix, Latest, RowOfIntent, PendingIntents;
      hide NextOrder, NextRelease, NextRefund, NextSucceeded, NextFailed, NextReap, NextIntent;
      Interfere(k, In(inside, ReconcileStart(o)));
      var up: bool := *;
      var row := LatestForOrder(o);
      if !up || row.None? || payments[row.value].status != Pending {
        StepIn(k, inside, ReconcileStart(o), up);
        return !up;
      }
      StepIn(k, inside, ReconcileStart(o), true);
      err := ApplyIntentState(k, inside, row.value);
    }

    /** The second half of Reconcile: pull the intent from Stripe and do what its webhook would have done. */
    method ApplyIntentState(ghost k: nat, ghost inside: Option<nat>, p: nat) returns (err: bool)
      requires At(k, In(inside, ReconcileCheck(p)))
      modifies this
      ensures At(k, Out(inside, err)) && Extended(old(log), log)
      ensures !Reaps(start, log, k)
    {
      hide Reached, Hit, Reaps, Hits, OpInv, IsPrefix, NextPlain;
      Interfere(k, In(inside, ReconcileCheck(p)));
      PaymentKnown(k, p);
      CheckNext(k, p, world.db);
      var answered: bool := *;
      if !answered {
        StepIn(k, inside, ReconcileCheck(p), false);
        return true;
      }
      var status := intents[payments[p].intent].status;
      StepIn(k, inside, ReconcileCheck(p), true);
      if status == IntentSucceeded {
        err := ApplySucceeded(k, inside, p);
      } else if status == IntentCanceled || status == RequiresPaymentMethod(true) {
        err := ApplyFailed(k, inside, p);
      } else {
        err := false;
      }
    }

    /** CancelOrderIntents: list the pending intents, void them one by one, record each after Stripe confirmed. */
    method CancelOrderIntents(ghost k: nat, o: nat) returns (listed: seq<nat>, outcome: VoidOutcome)
      requires At(k, ReapStart(o))
      modifies this
      ensures Valid() && Extended(old(log), log)
      ensures outcome == AllVoid ==> At(k, ReadItems(o, PendingPayment, Cancelled, ByReaper(listed)))
      ensures outcome == InFlight ==> At(k, ReconcileStart(o))
      ensures outcome == Broken ==> At(k, Done)
      ensures outcome == Broken ==> !Reaps(start, log, k)
    {
      hide Reached, Hit, Reaps, OpInv, IsPrefix, Latest, RowOfIntent, PendingIntents;
      hide NextOrder, NextRelease, NextRefund, NextSucceeded, NextFailed, NextReconcile, NextIntent;
      listed := PendingIntentIDsForOrder(o);
      var up: bool := *;
      Step(k, up);
      if !up {
        return listed, Broken;
      }
      outcome := VoidAll(k, o, listed);
    }

    method VoidAll(ghost k: nat, o: nat, listed: seq<nat>) returns (outcome: VoidOutcome)
      requires At(k, VoidNext(o, listed, 0))
      modifies this
      ensures Valid() && Extended(old(log), log)
      ensures outcome == AllVoid ==> At(k, ReadItems(o, PendingPayment, Cancelled, ByReaper(listed)))
      ensures outcome == InFlight ==> At(k, ReconcileStart(o))
      ensures outcome == Broken ==> At(k, Done)
      ensures outcome == Broken ==> !Reaps(start, log, k)
    {
      hide Reached, Hit, Reaps, OpInv, IsPrefix, Latest, RowOfIntent, PendingIntents;
      hide NextOrder, NextRelease, NextRefund, NextSucceeded, NextFailed, NextReconcile, NextReap, NextIntent;
      for n := 0 to |listed|
        invariant At(k, VoidNext(o, listed, n)) && Extended(old(log), log)
      {
        outcome := VoidIntent(k, o, listed, n);
        if outcome != AllVoid {
          return;
        }
        var up := RecordVoid(k, o, listed, n);
        if !up {
          return Broken;
        }
      }
      outcome := AllVoid;
    }

    method RecordVoid(ghost k: nat, o: nat, listed: seq<nat>, n: nat) returns (up: bool)
      requires n < |listed| && At(k, VoidRecord(o, listed, n))
      modifies this
      ensures At(k, if up then VoidNext(o, listed, n + 1) else Done) && Extended(old(log), log)
      ensures !Reaps(start, log, k)
    {
      hide Reached, Hit, Reaps, OpInv, IsPrefix, RowOfIntent, PendingIntents;
      hide NextOrder, NextRelease, NextRefund, NextSucceeded, NextFailed, NextReconcile, NextIntent;
      Interfere(k, VoidRecord(o, listed, n));
      IntentKnown(k);
      up := *;
      if up {
        UpdateCancelled(listed[n]);
      }
      Step(k, up);
    }

    /** CancelIntent, and the status check when Stripe refuses. */
    method VoidIntent(ghost k: nat, o: nat, listed: seq<nat>, n: nat) returns (outcome: VoidOutcome)
      requires n < |listed| && At(k, Void(o, listed, n))
      modifies this
      ensures Valid() && Extended(old(log), log)
      ensures outcome == AllVoid ==> At(k, VoidRecord(o, listed, n))
      ensures outcome == InFlight ==> At(k, ReconcileStart(o))
      ensures outcome == Broken ==> At(k, Done)
      ensures outcome == Broken ==> !Reaps(start, log, k)
    {
      hide Reached, Hit, Reaps, OpInv, IsPrefix, Latest, RowOfIntent, PendingIntents;
      hide NextOrder, NextRelease, NextRefund, NextSucceeded, NextFailed, NextReconcile, NextIntent;
      Interfere(k, Void(o, listed, n));
      IntentKnown(k);
      var i := listed[n];
      var willing: bool := *;
      var answer := StripeCancel(i, willing);
      Step(k, willing);
      if answer == Canceled {
        return AllVoid;
      }
      if answer == Unreachable {
        return Broken;
      }
      outcome := CheckIntent(k, o, listed, n);
    }

    /** The status check after a refused void. */
    method CheckIntent(ghost k: nat, o: nat, listed: seq<nat>, n: nat) returns (outcome: VoidOutcome)
      requires n < |listed| && At(k, VoidCheck(o, listed, n))
      modifies this
      ensures Valid() && Extended(old(log), log)
      ensures outcome == AllVoid ==> At(k, VoidRecord(o, listed, n))
      ensures outcome == InFlight ==> At(k, ReconcileStart(o))
      ensures outcome == Broken ==> At(k, Done)
      ensures outcome == Broken ==> !Reaps(start, log, k)
    {
      hide Reached, Hit, Reaps, OpInv, IsPrefix;
      hide NextOrder, NextRelease, NextRefund, NextSucceeded, NextFailed, NextReconcile, NextIntent;
      Interfere(k, VoidCheck(o, listed, n));
      IntentKnown(k);
      var answered: bool := *;
      if !answered {
        Step(k, false);
        return Broken;
      }
      var status := intents[listed[n]].status;
      Step(k, true);
      outcome := if status == IntentSucceeded || status == InProcess then InFlight else AllVoid;
    }

    /** Stripe's cancel call: payable intents are voided, one in process may be, terminal ones are refused. */
    method StripeCancel(i: nat, willing: bool) returns (answer: CancelAnswer)
      requires i < |intents|
      modifies this`intents
      ensures answer == if Terminal(old(intents)[i].status) then NotCancellable
                        else if willing then Canceled
                        else if old(intents)[i].status == InProcess then NotCancellable else Unreachable
      ensures intents == if answer == Canceled then old(intents)[i := old(intents)[i].(status := IntentCanceled)]
                         else old(intents)
    {
      if Terminal(intents[i].status) {
        return NotCancellable;
      }
      if willing {
        intents := intents[i := intents[i].(status := IntentCanceled)];
        return Canceled;
      }
      answer := if intents[i].status == InProcess then NotCancellable else Unreachable;
    }

    /** The order belongs to the intent and the intent has a payment row. */
    ghost predicate Usable(o: nat, i: nat)
      reads this
    {
      i < |intents| && intents[i].order == o && RowOfIntent(payments, i).Some?
    }

    /**
     CreateIntent: the intent the customer is to pay, reused or new. Reading the order
     reconciles it first while it is pending; if that fails the order is taken as it was
     read.
     */
    method CreateIntent(o: nat) returns (intent: Option<nat>, ghost k: nat)
      requires Valid()
      modifies this
      ensures Finished(k, IntentStart(o)) && Extended(old(log), log)
      ensures intent.Some? <==> Hit(start, log, k)
      ensures intent.Some? ==> Usable(o, intent.value)
    {
      hide Reached, Hit, Reaps, OpInv, IsPrefix, Latest, RowOfIntent, PendingIntents, Usable;
      hide NextOrder, NextRelease, NextRefund, NextSucceeded, NextFailed, NextReconcile, NextReap;
      k := Begin(IntentStart(o));
      ghost var asked, mark := world, log;
      Interfere(k, IntentStart(o));
      var up: bool := *;
      if !up || o >= |orders| || orders[o].status != PendingPayment {
        Step(k, up);
        StillAsked(asked, mark, k);
        return None, k;
      }
      Step(k, true);
      var err := Reconcile(k, Some(o), o);
      intent := AfterReconcile(k, o, err);
      StillAsked(asked, mark, k);
    }

    /** The reload after a reconcile that did not fail, and the intent if the order is still pending. */
    method AfterReconcile(ghost k: nat, o: nat, err: bool) returns (intent: Option<nat>)
      requires At(k, Out(Some(o), err))
      modifies this
      ensures At(k, Done) && Extended(old(log), log)
      ensures intent.Some? <==> Hit(start, log, k)
      ensures intent.Some? ==> Usable(o, intent.value)
    {
      hide Reached, Hit, Reaps, OpInv, IsPrefix, Latest, RowOfIntent, PendingIntents, Usable;
      hide NextOrder, NextRelease, NextRefund, NextSucceeded, NextFailed, NextReconcile, NextReap;
      if !err {
        Interfere(k, IntentReload(o));
        ReloadKnown(k, o);
        var up: bool := *;
        var gone := up && orders[o].status != PendingPayment;
        Step(k, up);
        if gone {
          return None;
        }
      }
      intent := ReuseOrNew(k, o);
    }

    lemma ReloadKnown(k: nat, o: nat)
      requires At(k, IntentReload(o))
      ensures o < |orders|
    {
    }

    method ReuseOrNew(ghost k: nat, o: nat) returns (intent: Option<nat>)
      requires At(k, IntentReuse(o))
      modifies this
      ensures At(k, Done) && Extended(old(log), log)
      ensures intent.Some? <==> Hit(start, log, k)
      ensures intent.Some? ==> Usable(o, intent.value)
    {
      hide Reached, Hit, Reaps, OpInv, IsPrefix, Latest, RowOfIntent, PendingIntents, Usable;
      hide NextOrder, NextRelease, NextRefund, NextSucceeded, NextFailed, NextReconcile, NextReap;
      Interfere(k, IntentReuse(o));
      var row := LatestForOrder(o);
      var found: bool := *;
      Step(k, found);
      if found && row.Some? && payments[row.value].status == Pending {
        intent := ReuseIntent(k, o, row.value);
        if intent.Some? {
          return;
        }
      }
      intent := NewIntent(k, o);
    }

    /** The pending row's intent, if Stripe answers and it can still be confirmed. */
    method ReuseIntent(ghost k: nat, o: nat, p: nat) returns (intent: Option<nat>)
      requires At(k, IntentProbe(o, p))
      modifies this
      ensures Extended(old(log), log)
      ensures At(k, if intent.Some? then Done else IntentNew(o))
      ensures intent.Some? <==> Hit(start, log, k)
      ensures intent.Some? ==> Usable(o, intent.value)
    {
      hide Reached, Hit, Reaps, OpInv, IsPrefix, Latest, RowOfIntent, PendingIntents;
      hide NextOrder, NextRelease, NextRefund, NextSucceeded, NextFailed, NextReconcile, NextReap;
      Interfere(k, IntentProbe(o, p));
      PaymentKnown(k, p);
      ProbeKnown(k, o, p);
      var i := payments[p].intent;
      var answered: bool := *;
      Step(k, answered);
      intent := if answered && Reusable(intents[i].status) then Some(i) else None;
    }

    method NewIntent(ghost k: nat, o: nat) returns (intent: Option<nat>)
      requires At(k, IntentNew(o))
      modifies this
      ensures At(k, Done) && Extended(old(log), log)
      ensures intent.Some? <==> Hit(start, log, k)
      ensures intent.Some? ==> Usable(o, intent.value)
    {
      hide Reached, Hit, Reaps, OpInv, IsPrefix, Latest, PendingIntents;
      hide NextOrder, NextRelease, NextRefund, NextSucceeded, NextFailed, NextReconcile, NextReap;
      Interfere(k, IntentNew(o));
      var created: bool := *;
      if !created {
        Step(k, false);
        return None;
      }
      var i := |intents|;
      intents := intents + [Intent(o, RequiresPaymentMethod(false))];
      Step(k, true);
      intent := AddRow(k, o, i);
    }

    /** The pending row of a new intent; the unique index refuses a second row of the same intent. */
    method AddRow(ghost k: nat, o: nat, i: nat) returns (intent: Option<nat>)
      requires At(k, IntentRow(o, i))
      modifies this
      ensures At(k, Done) && Extended(old(log), log)
      ensures intent.Some? <==> Hit(start, log, k)
      ensures intent.Some? ==> Usable(o, intent.value)
    {
      hide Reached, Hit, Reaps, OpInv, IsPrefix, Latest, PendingIntents;
      hide NextOrder, NextRelease, NextRefund, NextSucceeded, NextFailed, NextReconcile, NextReap;
      Interfere(k, IntentRow(o, i));
      RowKnown(k, o, i);
      var up: bool := *;
      var taken := GetByPaymentIntentID(i);
      if up && taken.None? {
        payments := payments + [Payment(o, i, Pending)];
        intent := Some(i);
      } else {
        intent := None;
      }
      Step(k, up);
    }

    lemma ProbeKnown(k: nat, o: nat, p: nat)
      requires At(k, IntentProbe(o, p))
      ensures p < |payments| && Usable(o, payments[p].intent)
    {
      assert PaymentOk(world.db, p);
      if RowOfIntent(payments, payments[p].intent).None? {
        NoRowOfIntent(payments, payments[p].intent);
      }
    }

    lemma RowKnown(k: nat, o: nat, i: nat)
      requires At(k, IntentRow(o, i))
      ensures i < |intents| && intents[i].order == o
    {
    }
  }

  datatype Answer = Accepted | Refused | Unconfirmed

  datatype VoidOutcome = AllVoid | InFlight | Broken

  datatype CancelAnswer = Canceled | NotCancellable | Unreachable
}
