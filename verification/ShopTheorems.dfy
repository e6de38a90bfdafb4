/** What the order protocol promises over whole runs, and where the code does not keep a promise. */
module ShopTheorems {
  import opened Stock
  import opened ShopState
  import opened Operations
  import opened ShopInvariant

  lemma InitialInv(start: World)
    requires Initial(start)
    ensures Inv(start)
  {
  }

  lemma ReachableInv(start: World, es: seq<Event>)
    requires Initial(start)
    ensures Inv(RunAll(start, es))
  {
    InitialInv(start);
    RunKeeps(start, es);
  }

  // ---------- stock conservation ----------

  function Part(order: Order, p: ProductId): nat {
    if HoldsStock(order.status) then Units(order.items, p) else 0
  }

  /** Units of p taken out of stock by the orders whose status holds stock. */
  function Held(orders: seq<Order>, p: ProductId): nat {
    if orders == [] then 0 else Held(orders[..|orders| - 1], p) + Part(orders[|orders| - 1], p)
  }

  /** Units of p in orders that were moved forward after their stock had been released. */
  function Revived(orders: seq<Order>, revived: seq<nat>, p: ProductId): nat {
    if revived == [] then 0
    else
      var o := revived[|revived| - 1];
      Revived(orders, revived[..|revived| - 1], p) + if o < |orders| then Units(orders[o].items, p) else 0
  }

  function Total(db: Db, p: ProductId): int
    requires p in db.products
  {
    db.products[p].stock + Held(db.orders, p)
  }

  function Leaked(db: Db, p: ProductId): nat {
    Revived(db.orders, db.notes.revived, p)
  }

  lemma {:induction false} HeldUpdate(orders: seq<Order>, o: nat, order: Order, p: ProductId)
    requires o < |orders|
    ensures Held(orders[o := order], p) == Held(orders, p) - Part(orders[o], p) + Part(order, p)
  {
    var n := |orders| - 1;
    if o == n {
      assert orders[o := order][..n] == orders[..n];
    } else {
      assert orders[o := order][..n] == orders[..n][o := order];
      HeldUpdate(orders[..n], o, order, p);
    }
  }

  lemma {:induction false} RevivedSame(orders: seq<Order>, orders': seq<Order>, revived: seq<nat>, p: ProductId)
    requires |orders| <= |orders'|
    requires forall o :: 0 <= o < |orders| ==> orders'[o].items == orders[o].items
    requires forall n :: 0 <= n < |revived| ==> revived[n] < |orders|
    ensures Revived(orders', revived, p) == Revived(orders, revived, p)
  {
    if revived != [] {
      RevivedSame(orders, orders', revived[..|revived| - 1], p);
    }
  }

  /** One status change moves units between the shelf and the order, or is noted as a revival. */
  lemma StatusAccount(db: Db, db': Db, o: nat, to: OrderStatus, p: ProductId)
    requires DbInv(db) && o < |db.orders| && p in db.products && p in db'.products
    requires db'.orders == db.orders[o := db.orders[o].(status := to)]
    requires db'.products[p].stock - db.products[p].stock
          == if HoldsStock(db.orders[o].status) && !HoldsStock(to) then Units(db.orders[o].items, p) as int else 0
    requires db'.notes.revived
          == if HoldsStock(to) && !HoldsStock(db.orders[o].status) then db.notes.revived + [o] else db.notes.revived
    ensures Total(db', p) - Leaked(db', p) == Total(db, p) - Leaked(db, p)
  {
    HeldUpdate(db.orders, o, db'.orders[o], p);
    RevivedSame(db.orders, db'.orders, db.notes.revived, p);
    if db'.notes.revived != db.notes.revived {
      assert db'.notes.revived[..|db'.notes.revived| - 1] == db.notes.revived;
    }
  }

  lemma PlaceAccount(db: Db, lines: seq<Line>, p: ProductId)
    requires DbInv(db) && p in db.products
    ensures p in PlaceOrder(db, lines).products
    ensures Total(PlaceOrder(db, lines), p) - Leaked(PlaceOrder(db, lines), p) == Total(db, p) - Leaked(db, p)
  {
    var db' := PlaceOrder(db, lines);
    DeductTakesUnits(db.products, lines);
    assert db'.orders[..|db'.orders| - 1] == db.orders;
    RevivedSame(db.orders, db'.orders, db.notes.revived, p);
  }

  lemma ReleaseAccount(k: nat, op: Op, db: Db, ok: bool, p: ProductId)
    requires DbInv(db) && op.Release? && PlainInv(k, op, db) && p in db.products
    ensures var db' := NextRelease(op, db, ok).db;
            p in db'.products && Total(db', p) - Leaked(db', p) == Total(db, p) - Leaked(db, p)
  {
    RestockGivesUnits(db.products, op.items);
    if ok && db.orders[op.order].status == op.from {
      StatusAccount(db, NextRelease(op, db, ok).db, op.order, op.target, p);
    }
  }

  /** Only four kinds of step touch the shelf or an order's status. */
  lemma QuietStep(k: nat, op: Op, db: Db, ok: bool)
    requires !op.Release? && !op.Checkout? && !op.EditForward? && !op.PayCas? && !op.IntentFirst?
    ensures var db' := NextPlain(k, op, db, ok).db;
            db'.products == db.products && db'.orders == db.orders && db'.notes.revived == db.notes.revived
  {
  }

  lemma StepAccount(k: nat, op: Op, db: Db, ok: bool, p: ProductId)
    requires DbInv(db) && PlainInv(k, op, db) && !op.IntentFirst? && p in db.products
    ensures var db' := NextPlain(k, op, db, ok).db;
            p in db'.products && Total(db', p) - Leaked(db', p) == Total(db, p) - Leaked(db, p)
  {
    if op.Release? {
      ReleaseAccount(k, op, db, ok, p);
    } else if op.Checkout? {
      if ok && AcceptsAll(db.products, op.lines) { PlaceAccount(db, op.lines, p); }
    } else if op.EditForward? {
      if ok && op.order < |db.orders| && db.orders[op.order].status == op.from {
        StatusAccount(db, MoveForward(db, op.order, op.target), op.order, op.target, p);
      }
    } else if op.PayCas? {
      var o := db.payments[op.payment].order;
      if ok && db.orders[o].status == PendingPayment { StatusAccount(db, PayOrder(db, o, k), o, Paid, p); }
    } else {
      QuietStep(k, op, db, ok);
    }
  }

  lemma EventAccount(w: World, e: Event, p: ProductId)
    requires Inv(w) && p in w.db.products
    ensures p in Apply(w, e).db.products
    ensures Total(Apply(w, e).db, p) - Leaked(Apply(w, e).db, p) == Total(w.db, p) - Leaked(w.db, p)
  {
    if e.Run? && e.k < |w.ops| {
      assert OpInv(e.k, w.ops[e.k], w.db);
      StepAccount(e.k, Core(w.ops[e.k]), w.db, e.ok, p);
    }
  }

  /**
   Exact accounting over every run: shelf plus reserved units grow by precisely the
   units of the orders an admin moved forward after their stock had gone back.
   */
  lemma {:induction false} StockAccounting(start: World, es: seq<Event>, p: ProductId)
    requires Initial(start) && p in start.db.products
    ensures p in RunAll(start, es).db.products
    ensures Total(RunAll(start, es).db, p) == Total(start.db, p) + Leaked(RunAll(start, es).db, p)
  {
    if es != [] {
      var front := es[..|es| - 1];
      StockAccounting(start, front, p);
      ReachableInv(start, front);
      EventAccount(RunAll(start, front), es[|es| - 1], p);
    }
  }

  lemma {:induction false} RevivedCounts(db: Db, revived: seq<nat>, n: nat)
    requires n < |revived| && revived[n] < |db.orders|
    ensures forall p :: Revived(db.orders, revived, p) >= Units(db.orders[revived[n]].items, p)
  {
    if n < |revived| - 1 {
      RevivedCounts(db, revived[..|revived| - 1], n);
    }
  }

  /**
   Stock is conserved for every product exactly when no forward edit ever started
   from a status that no longer held stock.
   */
  lemma StockConservedIff(start: World, es: seq<Event>)
    requires Initial(start)
    ensures var db := RunAll(start, es).db;
            db.products.Keys == start.db.products.Keys
            && (db.notes.revived == [] <==>
                forall p :: p in start.db.products ==> p in db.products && Total(db, p) == Total(start.db, p))
  {
    var db := RunAll(start, es).db;
    ReachableInv(start, es);
    SameProducts(start, es);
    forall p | p in start.db.products
      ensures Total(db, p) == Total(start.db, p) + Leaked(db, p)
    {
      StockAccounting(start, es, p);
    }
    if db.notes.revived != [] {
      var o := db.notes.revived[0];
      assert OrderOk(db, o);
      var line := db.orders[o].items[0];
      UnitsOfLine(db.orders[o].items, 0);
      RevivedCounts(db, db.notes.revived, 0);
      assert Leaked(db, line.product) > 0;
      assert line.product in start.db.products;
    }
  }

  lemma {:induction false} SameProducts(start: World, es: seq<Event>)
    requires Initial(start)
    ensures RunAll(start, es).db.products.Keys == start.db.products.Keys
  {
    if es != [] {
      var front := es[..|es| - 1];
      SameProducts(start, front);
      ReachableInv(start, front);
      EventKeeps(RunAll(start, front), es[|es| - 1]);
    }
  }

  // ---------- one way out of pending ----------

  predicate Leaves(w: World, e: Event, o: nat) {
    && o < |w.db.orders| && w.db.orders[o].status == PendingPayment
    && o < |Apply(w, e).db.orders| && Apply(w, e).db.orders[o].status != PendingPayment
  }

  function Exits(w: World, es: seq<Event>, o: nat): nat {
    if es == [] then 0
    else
      var front := es[..|es| - 1];
      Exits(w, front, o) + if Leaves(RunAll(w, front), es[|es| - 1], o) then 1 else 0
  }

  lemma NewOrdersArePending(w: World, e: Event, o: nat)
    requires Inv(w) && |w.db.orders| <= o < |Apply(w, e).db.orders|
    ensures Apply(w, e).db.orders[o].status == PendingPayment
  {
    assert OpInv(e.k, w.ops[e.k], w.db);
    var op := Core(w.ops[e.k]);
    if !op.Release? && !op.Checkout? && !op.EditForward? && !op.PayCas? {
      QuietStep(e.k, op, w.db, e.ok);
    }
  }

  /** Payment, failure, reaper, cancel and admin edits race for one exit: it is taken once, and never taken back. */
  lemma {:induction false} SingleExit(start: World, es: seq<Event>, o: nat)
    requires Initial(start)
    ensures Exits(start, es, o) == if LeftPending(RunAll(start, es).db, o) then 1 else 0
  {
    if es != [] {
      var front := es[..|es| - 1];
      var w := RunAll(start, front);
      SingleExit(start, front, o);
      ReachableInv(start, front);
      EventKeeps(w, es[|es| - 1]);
      if |w.db.orders| <= o < |Apply(w, es[|es| - 1]).db.orders| {
        NewOrdersArePending(w, es[|es| - 1], o);
      }
    }
  }

  /** An order's purchases are logged at most once, and only if a payment moved it out of pending. */
  lemma {:induction false} PurchasesLoggedOnce(start: World, es: seq<Event>)
    requires Initial(start)
    ensures var db := RunAll(start, es).db;
            && (forall a, b :: 0 <= a < b < |db.purchases| ==> db.purchases[a] != db.purchases[b])
            && (forall o :: o in db.purchases ==> o in db.notes.markedPaid && PaidOk(db, o))
  {
    ReachableInv(start, es);
    var db := RunAll(start, es).db;
    forall o | o in db.purchases ensures PaidOk(db, o) {
      assert o in db.notes.markedPaid;
    }
  }

  // ---------- truth of terminal statuses ----------

  /** Between two points of a run nothing is lost and nothing goes back. */
  predicate Later(db: Db, db': Db) {
    && |db.orders| <= |db'.orders| && |db.intents| <= |db'.intents| && |db.payments| <= |db'.payments|
    && (forall o :: 0 <= o < |db.orders| ==>
          db'.orders[o].items == db.orders[o].items && (LeftPending(db, o) ==> LeftPending(db', o)))
    && (forall i :: 0 <= i < |db.intents| && Terminal(db.intents[i].status) ==> db'.intents[i].status == db.intents[i].status)
    && (forall o :: o in db.notes.markedPaid ==> o in db'.notes.markedPaid)
    && (forall o :: o in db.notes.reaped ==> o in db'.notes.reaped)
    && (forall p :: p in db.refunds ==> p in db'.refunds && db'.refunds[p] == db.refunds[p])
  }

  lemma {:induction false} RunsForward(w: World, es: seq<Event>)
    requires Inv(w)
    ensures Later(w.db, RunAll(w, es).db)
  {
    if es != [] {
      var front := es[..|es| - 1];
      RunsForward(w, front);
      RunKeeps(w, front);
      EventKeeps(RunAll(w, front), es[|es| - 1]);
    }
  }

  /** An order seen as paid at any point of a run is never cancelled or failed at any later point. */
  lemma PaidIsNeverCancelled(start: World, es: seq<Event>, es': seq<Event>, o: nat)
    requires Initial(start)
    requires o < |RunAll(start, es).db.orders| && RunAll(start, es).db.orders[o].status == Paid
    ensures var db := RunAll(start, es + es').db;
            o < |db.orders| && db.orders[o].status != Cancelled && db.orders[o].status != PaymentFailed
            && db.orders[o].status != PendingPayment
  {
    RunAllAppend(start, es, es');
    ReachableInv(start, es);
    assert OrderOk(RunAll(start, es).db, o);
    RunsForward(RunAll(start, es), es');
    ReachableInv(start, es + es');
    assert PaidOk(RunAll(start, es + es').db, o);
  }

  /** A refunded order has an executed Stripe refund of one of its own, really charged payments. */
  lemma {:induction false} RefundedIsTrue(start: World, es: seq<Event>, o: nat)
    requires Initial(start)
    requires o < |RunAll(start, es).db.orders| && RunAll(start, es).db.orders[o].status == RefundedOrder
    ensures var db := RunAll(start, es).db;
            exists p :: p in db.refunds && p < |db.payments| && db.payments[p].order == o
              && db.refunds[p] == db.payments[p].intent && Charged(db, db.payments[p].intent)
  {
    ReachableInv(start, es);
    var db := RunAll(start, es).db;
    assert OrderOk(db, o);
    var p :| p in db.refunds && p < |db.payments| && db.payments[p].order == o;
    assert RefundOk(db, p);
  }

  /** No intent is ever refunded under two idempotency keys. */
  lemma {:induction false} OneRefundPerIntent(start: World, es: seq<Event>, p: nat, q: nat)
    requires Initial(start)
    requires p in RunAll(start, es).db.refunds && q in RunAll(start, es).db.refunds
    requires RunAll(start, es).db.refunds[p] == RunAll(start, es).db.refunds[q]
    ensures p == q
  {
    ReachableInv(start, es);
    var db := RunAll(start, es).db;
    assert RefundOk(db, p) && RefundOk(db, q);
    assert DistinctIntents(db);
  }

  /** A row is only marked succeeded or refunded for a charge that happened and after its order left pending. */
  lemma {:induction false} WriteOrder(start: World, es: seq<Event>, p: nat)
    requires Initial(start) && p < |RunAll(start, es).db.payments|
    ensures var db := RunAll(start, es).db;
            var row := db.payments[p];
            && (row.status == Succeeded || row.status == RefundedPayment ==>
                  LeftPending(db, row.order) && Charged(db, row.intent))
            && (row.status == RefundedPayment ==> p in db.refunds && db.refunds[p] == row.intent)
            && (row.status == CancelledPayment ==> Voided(db, row.intent))
  {
    ReachableInv(start, es);
    var db := RunAll(start, es).db;
    assert PaymentOk(db, p);
    if p in db.refunds { assert RefundOk(db, p); }
  }

  // ---------- reaper safety ----------

  /**
   After the reaper cancelled an order, every intent its canceller listed is void at
   Stripe and stays so in every continuation, unless that intent's status check saw
   it payable again after the void had been refused.
   */
  lemma ReaperSafety(start: World, es: seq<Event>, es': seq<Event>, o: nat, i: nat)
    requires Initial(start)
    requires o in RunAll(start, es).db.notes.reaped && i in RunAll(start, es).db.notes.reaped[o]
    requires i !in RunAll(start, es).db.notes.misjudged
    ensures var db := RunAll(start, es + es').db;
            i < |db.intents| && db.intents[i].status == IntentCanceled && !Charged(db, i)
  {
    RunAllAppend(start, es, es');
    ReachableInv(start, es);
    var db := RunAll(start, es).db;
    var n :| 0 <= n < |db.notes.reaped[o]| && db.notes.reaped[o][n] == i;
    assert Voided(db, db.notes.reaped[o][n]);
    RunsForward(RunAll(start, es), es');
  }

  /**
   The exact condition: once the reaper has cancelled an order, an intent its canceller
   listed is never charged in any continuation exactly when it is canceled at Stripe
   by now, and one that is not has been misjudged.
   */
  lemma ReaperSafetyIff(start: World, es: seq<Event>, o: nat, i: nat)
    requires Initial(start)
    requires o in RunAll(start, es).db.notes.reaped && i in RunAll(start, es).db.notes.reaped[o]
    ensures var db := RunAll(start, es).db;
            && i < |db.intents|
            && ((forall es' :: !Charged(RunAll(start, es + es').db, i)) <==> db.intents[i].status == IntentCanceled)
            && (db.intents[i].status != IntentCanceled ==> i in db.notes.misjudged)
  {
    var w := RunAll(start, es);
    ReapedKnown(start, es, o, i);
    if w.db.intents[i].status == IntentCanceled {
      forall es' ensures !Charged(RunAll(start, es + es').db, i) { CanceledStays(start, es, es', i); }
    } else if w.db.intents[i].status == IntentSucceeded {
      assert es + [] == es;
      assert Charged(RunAll(start, es + []).db, i);
    } else {
      ChargedNext(start, es, i);
      assert Charged(RunAll(start, es + [Stripe(i, IntentSucceeded)]).db, i);
    }
  }

  lemma ReapedKnown(start: World, es: seq<Event>, o: nat, i: nat)
    requires Initial(start)
    requires o in RunAll(start, es).db.notes.reaped && i in RunAll(start, es).db.notes.reaped[o]
    ensures Voided(RunAll(start, es).db, i)
  {
    ReachableInv(start, es);
    var listed := RunAll(start, es).db.notes.reaped[o];
    var n :| 0 <= n < |listed| && listed[n] == i;
  }

  lemma CanceledStays(start: World, es: seq<Event>, es': seq<Event>, i: nat)
    requires Initial(start)
    requires i < |RunAll(start, es).db.intents| && RunAll(start, es).db.intents[i].status == IntentCanceled
    ensures !Charged(RunAll(start, es + es').db, i)
  {
    RunAllAppend(start, es, es');
    ReachableInv(start, es);
    RunsForward(RunAll(start, es), es');
  }

  /** The customer can still pay an intent that is not terminal. */
  lemma ChargedNext(start: World, es: seq<Event>, i: nat)
    requires i < |RunAll(start, es).db.intents| && !Terminal(RunAll(start, es).db.intents[i].status)
    ensures Charged(RunAll(start, es + [Stripe(i, IntentSucceeded)]).db, i)
  {
    var es' := es + [Stripe(i, IntentSucceeded)];
    assert es'[..|es'| - 1] == es;
  }

  // ---------- when an intent is misjudged ----------

  /** This event is Stripe refusing operation k's void of intent i: it is terminal, or in process. */
  predicate Refuses(w: World, e: Event, k: nat, i: nat) {
    && e.Run? && e.k == k && k < |w.ops| && w.ops[k].Void? && w.ops[k].next < |w.ops[k].listed|
    && w.ops[k].listed[w.ops[k].next] == i && i < |w.db.intents|
    && (Terminal(w.db.intents[i].status) || (!e.ok && w.db.intents[i].status.InProcess?))
  }

  /** This event is operation k's answered status check of intent i, and it sees the intent payable. */
  predicate SeesPayable(w: World, e: Event, k: nat, i: nat) {
    && e.Run? && e.k == k && e.ok && k < |w.ops| && w.ops[k].VoidCheck? && w.ops[k].next < |w.ops[k].listed|
    && w.ops[k].listed[w.ops[k].next] == i && i < |w.db.intents| && Payable(w.db.intents[i].status)
  }

  /** In this run operation k had its void of intent i refused at event m, and saw the intent payable at event n. */
  predicate Overtaken(start: World, es: seq<Event>, m: nat, n: nat, k: nat, i: nat) {
    m < n < |es| && Refuses(RunAll(start, es[..m]), es[m], k, i) && SeesPayable(RunAll(start, es[..n]), es[n], k, i)
  }

  lemma {:induction false} CheckFollowsRefusal(start: World, es: seq<Event>, k: nat) returns (m: nat)
    requires Initial(start) && k < |RunAll(start, es).ops|
    requires var op := RunAll(start, es).ops[k]; op.VoidCheck? && op.next < |op.listed|
    ensures var op := RunAll(start, es).ops[k];
            m < |es| && Refuses(RunAll(start, es[..m]), es[m], k, op.listed[op.next])
  {
    var front, e := es[..|es| - 1], es[|es| - 1];
    var w := RunAll(start, front);
    if e.Run? && e.k == k {
      m := |es| - 1;
      ReachableInv(start, front);
      assert OpInv(k, w.ops[k], w.db);
      RefusedVoid(w, e, k);
    } else {
      m := CheckFollowsRefusal(start, front, k);
      assert front[..m] == es[..m];
    }
  }

  lemma RefusedVoid(w: World, e: Event, k: nat)
    requires e.Run? && e.k == k && k < |w.ops| && OpInv(k, w.ops[k], w.db)
    requires var op := Apply(w, e).ops[k]; op.VoidCheck? && op.next < |op.listed|
    ensures var op := Apply(w, e).ops[k]; Refuses(w, e, k, op.listed[op.next])
  {
  }

  lemma StepMisjudges(k: nat, op: Op, db: Db, ok: bool, i: nat)
    requires !op.IntentFirst?
    ensures i in NextPlain(k, op, db, ok).db.notes.misjudged
       <==> i in db.notes.misjudged
            || (ok && op.VoidCheck? && op.next < |op.listed| && op.listed[op.next] == i && i < |db.intents|
                && Payable(db.intents[i].status))
  {
  }

  lemma MisjudgedStep(w: World, e: Event, i: nat)
    requires forall k :: 0 <= k < |w.ops| ==> OpInv(k, w.ops[k], w.db)
    ensures i in Apply(w, e).db.notes.misjudged <==> i in w.db.notes.misjudged || (e.Run? && SeesPayable(w, e, e.k, i))
  {
    hide NextPlain, PlainInv;
    if e.Run? && e.k < |w.ops| {
      assert OpInv(e.k, w.ops[e.k], w.db);
      StepMisjudges(e.k, Core(w.ops[e.k]), w.db, e.ok, i);
    }
  }

  /**
   An intent is misjudged in a run exactly when some canceller had its void refused and
   then, at its status check, saw the intent payable again.
   */
  lemma {:induction false} MisjudgedIff(start: World, es: seq<Event>, i: nat)
    requires Initial(start)
    ensures i in RunAll(start, es).db.notes.misjudged <==> exists m, n, k :: Overtaken(start, es, m, n, k, i)
  {
    hide Refuses, SeesPayable, Apply;
    if es != [] {
      var front, e := es[..|es| - 1], es[|es| - 1];
      var w := RunAll(start, front);
      MisjudgedIff(start, front, i);
      ReachableInv(start, front);
      MisjudgedStep(w, e, i);
      if m: nat, n: nat, k: nat :| Overtaken(start, front, m, n, k, i) {
        OvertakenBefore(start, es, m, n, k, i);
      }
      if e.Run? && SeesPayable(w, e, e.k, i) {
        var m := OvertakenLast(start, es, i);
      }
      if m: nat, n: nat, k: nat :| Overtaken(start, es, m, n, k, i) {
        if n < |front| {
          OvertakenBefore(start, es, m, n, k, i);
        } else {
          SeenByRun(w, e, k, i);
        }
      }
    }
  }

  lemma SeenByRun(w: World, e: Event, k: nat, i: nat)
    requires SeesPayable(w, e, k, i)
    ensures e.Run? && e.k == k
  {
  }

  lemma OvertakenBefore(start: World, es: seq<Event>, m: nat, n: nat, k: nat, i: nat)
    requires es != [] && n < |es| - 1
    ensures Overtaken(start, es, m, n, k, i) <==> Overtaken(start, es[..|es| - 1], m, n, k, i)
  {
    hide Refuses, SeesPayable, RunAll;
    var front := es[..|es| - 1];
    if m < n {
      assert front[..m] == es[..m] && front[..n] == es[..n];
    }
  }

  lemma {:induction false} OvertakenLast(start: World, es: seq<Event>, i: nat) returns (m: nat)
    requires Initial(start) && es != [] && es[|es| - 1].Run?
    requires SeesPayable(RunAll(start, es[..|es| - 1]), es[|es| - 1], es[|es| - 1].k, i)
    ensures Overtaken(start, es, m, |es| - 1, es[|es| - 1].k, i)
  {
    var front := es[..|es| - 1];
    m := CheckFollowsRefusal(start, front, es[|es| - 1].k);
    assert front[..m] == es[..m];
  }

  /** Operations are never forgotten, keep the request they came from, and once done stay done. */
  lemma {:induction false} OperationsStay(w: World, es: seq<Event>)
    requires |w.asked| == |w.ops|
    ensures var w' := RunAll(w, es);
            && |w'.asked| == |w'.ops| && |w.ops| <= |w'.ops|
            && (forall k :: 0 <= k < |w.ops| ==> w'.asked[k] == w.asked[k])
            && (forall k :: 0 <= k < |w.ops| && w.ops[k] == Done ==> w'.ops[k] == Done)
  {
    if es != [] {
      OperationsStay(w, es[..|es| - 1]);
    }
  }
}
