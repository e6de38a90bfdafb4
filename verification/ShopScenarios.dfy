/**
 Runs in which a promise fails. Each starts from an open shop with three units of
 one product and only uses steps the code can take: a forward edit revives a cancelled
 order, an order the reaper cancelled is charged, a late failed event hides a charge,
 two deliveries of one event overlap, and the charge of a cancelled order belongs to
 an older row. The exact conditions are theorems of ShopTheorems, ShopRecovery,
 ShopDelivery and ShopOverlap.
 */
module ShopScenarios {
  import opened Stock
  import opened ShopState
  import opened Operations
  import opened ShopInvariant
  import opened ShopTheorems

  const SHELF: Products := map[0 := Product(10, 3)]
  const CART: seq<Line> := [Line(0, 2, 10)]

  function Opening(): World {
    World(Db(SHELF, [], [], [], map[], [], [], Notes(map[], map[], {}, [])), [], [])
  }

  /** The shelf after the cart's two units were taken. */
  lemma CartTaken()
    ensures Deduct(SHELF, CART) == map[0 := Product(10, 1)]
    ensures Restock(map[0 := Product(10, 1)], CART) == SHELF
    ensures Units(CART, 0) == 2
  {
    assert CART[..0] == [];
  }

  lemma Continue(es: seq<Event>, w: World, e: Event) returns (es': seq<Event>, w': World)
    requires RunAll(Opening(), es) == w
    ensures es' == es + [e] && w' == Apply(w, e) && RunAll(Opening(), es') == w'
  {
    es' := es + [e];
    w' := Apply(w, e);
    assert es'[..|es'| - 1] == es;
  }

  /** One pending order for two units, placed by operation 0. */
  function OneOrder(intents: seq<Intent>, payments: seq<Payment>): Db {
    Db(map[0 := Product(10, 1)], [Order(CART, PendingPayment)], payments, intents,
       map[], [], [], Notes(map[], map[], {}, []))
  }

  lemma PlaceOne() returns (es: seq<Event>, w: World)
    ensures RunAll(Opening(), es) == w && w.db == OneOrder([], []) && w.ops == [Done]
  {
    assert RunAll(Opening(), []) == Opening();
    hide RunAll, Deduct, NextRelease, NextRefund, NextSucceeded, NextFailed, NextReconcile, NextReap, NextIntent;
    CartTaken();
    es, w := Continue([], Opening(), Spawn(Checkout(CART)));
    es, w := Continue(es, w, Run(0, true));
  }

  /** Operation 1 asks for an intent; its reconcile finds no row. */
  lemma AskForIntent() returns (es: seq<Event>, w: World)
    ensures RunAll(Opening(), es) == w && w.db == OneOrder([], []) && w.ops == [Done, IntentReload(0)]
  {
    hide RunAll, NextOrder, NextRelease, NextRefund, NextSucceeded, NextFailed, NextReap;
    es, w := PlaceOne();
    es, w := Continue(es, w, Spawn(IntentStart(0)));
    es, w := Continue(es, w, Run(1, true));
    assert w.ops[1] == IntentFirst(0, ReconcileStart(0));
    es, w := Continue(es, w, Run(1, true));
  }

  /** The order with one intent and its pending row, created by operation 1. */
  lemma PlaceWithIntent() returns (es: seq<Event>, w: World)
    ensures RunAll(Opening(), es) == w && w.ops == [Done, Done]
    ensures w.db == OneOrder([Intent(0, RequiresPaymentMethod(false))], [Payment(0, 0, Pending)])
  {
    hide RunAll, NextOrder, NextRelease, NextRefund, NextSucceeded, NextFailed, NextReconcile, NextReap;
    es, w := AskForIntent();
    es, w := Continue(es, w, Run(1, true));
    es, w := Continue(es, w, Run(1, true));
    assert w.ops[1] == IntentNew(0);
    es, w := Continue(es, w, Run(1, true));
    es, w := Continue(es, w, Run(1, true));
  }

  /** The order after its two units went back: only its status and the reaper's notes vary. */
  function Released(status: OrderStatus, intents: seq<Intent>, payments: seq<Payment>, notes: Notes): Db {
    Db(SHELF, [Order(CART, status)], payments, intents, map[], [], [], notes)
  }

  lemma CancelOne() returns (es: seq<Event>, w: World)
    ensures RunAll(Opening(), es) == w && w.ops == [Done, Done]
    ensures w.db == Released(Cancelled, [], [], Notes(map[], map[], {}, []))
  {
    hide RunAll, NextRefund, NextSucceeded, NextFailed, NextReconcile, NextReap, NextIntent;
    CartTaken();
    es, w := PlaceOne();
    es, w := Continue(es, w, Spawn(CancelStart(0)));
    es, w := Continue(es, w, Run(1, true));
    es, w := Continue(es, w, Run(1, true));
    es, w := Continue(es, w, Run(1, true));
  }

  /** A cancelled order that an admin moves forward: all units are on the shelf and two are promised as well. */
  lemma ForwardEditLeaks() returns (es: seq<Event>)
    ensures var db := RunAll(Opening(), es).db;
            && db.orders == [Order(CART, Processing)] && db.products == SHELF
            && Total(db, 0) == Total(Opening().db, 0) + 2
  {
    hide RunAll, NextRelease, NextRefund, NextSucceeded, NextFailed, NextReconcile, NextReap, NextIntent;
    var w;
    CartTaken();
    es, w := CancelOne();
    es, w := Continue(es, w, Spawn(EditStart(0, Processing)));
    es, w := Continue(es, w, Run(2, true));
    es, w := Continue(es, w, Run(2, true));
    assert w.db.orders == [Order(CART, Processing)];
    assert w.db.orders[..0] == [];
  }

  lemma ListedOne()
    ensures PendingIntents([Payment(0, 0, Pending)], 0) == [0]
  {
    assert [Payment(0, 0, Pending)][..0] == [];
  }

  lemma ReapBegun() returns (es: seq<Event>, w: World)
    ensures RunAll(Opening(), es) == w && w.ops == [Done, Done, Void(0, [0], 0)]
    ensures w.db == OneOrder([Intent(0, RequiresPaymentMethod(false))], [Payment(0, 0, Pending)])
  {
    hide RunAll, NextOrder, NextRelease, NextRefund, NextSucceeded, NextFailed, NextReconcile, NextIntent;
    es, w := PlaceWithIntent();
    ListedOne();
    es, w := Continue(es, w, Spawn(ReapStart(0)));
    es, w := Continue(es, w, Run(2, true));
  }

  /** The void of the only intent is refused while the charge is in process, and then the charge fails. */
  lemma VoidRefused() returns (es: seq<Event>, w: World)
    ensures RunAll(Opening(), es) == w && w.ops == [Done, Done, VoidCheck(0, [0], 0)]
    ensures w.db == OneOrder([Intent(0, RequiresPaymentMethod(true))], [Payment(0, 0, Pending)])
  {
    hide RunAll, NextOrder, NextRelease, NextRefund, NextSucceeded, NextFailed, NextReconcile, NextIntent;
    es, w := ReapBegun();
    es, w := Continue(es, w, Stripe(0, InProcess));
    es, w := Continue(es, w, Run(2, false));
    es, w := Continue(es, w, Stripe(0, RequiresPaymentMethod(true)));
  }

  lemma CheckedAndRecorded() returns (es: seq<Event>, w: World)
    ensures RunAll(Opening(), es) == w
    ensures w.ops == [Done, Done, ReadItems(0, PendingPayment, Cancelled, ByReaper([0]))]
    ensures w.db == OneOrder([Intent(0, RequiresPaymentMethod(true))], [Payment(0, 0, CancelledPayment)])
                      .(notes := Notes(map[], map[], {0}, []))
  {
    hide RunAll, NextOrder, NextRelease, NextRefund, NextSucceeded, NextFailed, NextReconcile, NextIntent;
    es, w := VoidRefused();
    es, w := Continue(es, w, Run(2, true));
    es, w := Continue(es, w, Run(2, true));
  }

  /**
   The reaper's void is refused while the charge is in process, the charge fails
   before the status check, and the customer pays the cancelled order afterwards.
   */
  lemma ReapedOrderIsCharged() returns (es: seq<Event>)
    ensures var db := RunAll(Opening(), es).db;
            && db.orders == [Order(CART, Cancelled)] && db.products == SHELF
            && 0 in db.notes.reaped && 0 in db.notes.reaped[0] && Charged(db, 0)
            && db.payments == [Payment(0, 0, CancelledPayment)]
  {
    hide RunAll, NextRefund, NextSucceeded, NextFailed, NextReconcile, NextReap, NextIntent;
    var w;
    CartTaken();
    es, w := CheckedAndRecorded();
    es, w := Continue(es, w, Run(2, true));
    es, w := Continue(es, w, Run(2, true));
    assert w.db == Released(Cancelled, [Intent(0, RequiresPaymentMethod(true))], [Payment(0, 0, CancelledPayment)],
                            Notes(map[], map[0 := [0]], {0}, []));
    es, w := Continue(es, w, Stripe(0, IntentSucceeded));
  }

  /** The charged order with its succeeded event read by operation 2. */
  lemma ChargeAndDeliver() returns (es: seq<Event>, w: World)
    ensures RunAll(Opening(), es) == w && w.ops == [Done, Done, PayCas(0)]
    ensures w.db == OneOrder([Intent(0, IntentSucceeded)], [Payment(0, 0, Pending)])
  {
    hide RunAll, NextOrder, NextRelease, NextRefund, NextFailed, NextReconcile, NextReap, NextIntent;
    es, w := PlaceWithIntent();
    es, w := Continue(es, w, Stripe(0, IntentSucceeded));
    es, w := Continue(es, w, Spawn(SucceededEvent(0)));
    es, w := Continue(es, w, Run(2, true));
    assert w.ops[2] == PayCas(0);
  }

  /** The order is paid and its row succeeded. */
  lemma PaidAndRecorded() returns (es: seq<Event>, w: World)
    ensures RunAll(Opening(), es) == w && w.ops == [Done, Done, Announce(0)]
    ensures w.db.orders == [Order(CART, Paid)] && w.db.payments == [Payment(0, 0, Succeeded)]
    ensures w.db.intents == [Intent(0, IntentSucceeded)]
  {
    hide RunAll, NextOrder, NextRelease, NextRefund, NextFailed, NextReconcile, NextReap, NextIntent;
    es, w := ChargeAndDeliver();
    es, w := Continue(es, w, Run(2, true));
    es, w := Continue(es, w, Run(2, true));
    es, w := Continue(es, w, Run(2, true));
  }

  /** A failed event that arrives late overwrites the succeeded row; the paid order can then no longer be refunded. */
  lemma LateFailureHidesCharge() returns (es: seq<Event>)
    ensures var db := RunAll(Opening(), es).db;
            && db.orders == [Order(CART, Paid)] && Charged(db, 0)
            && db.payments == [Payment(0, 0, Failed)]
            && Next(0, RefundRead(0, ThenRelease(Paid)), db, true) == Moved(Done, db)
  {
    hide RunAll, NextOrder, NextRelease, NextSucceeded, NextReconcile, NextReap, NextIntent;
    var w;
    es, w := PaidAndRecorded();
    es, w := Continue(es, w, Spawn(FailedEvent(0)));
    es, w := Continue(es, w, Run(3, true));
    es, w := Continue(es, w, Run(3, true));
    assert w.db.payments == [Payment(0, 0, Failed)];
  }

  /** Two deliveries of one event, both past their check. */
  lemma BothDeliver() returns (es: seq<Event>, w: World)
    ensures RunAll(Opening(), es) == w && w.ops == [Done, Done, PayCas(0), PayCas(0)]
    ensures w.db == OneOrder([Intent(0, IntentSucceeded)], [Payment(0, 0, Pending)])
  {
    hide RunAll, NextOrder, NextRelease, NextRefund, NextFailed, NextReconcile, NextReap, NextIntent;
    es, w := ChargeAndDeliver();
    es, w := Continue(es, w, Spawn(SucceededEvent(0)));
    es, w := Continue(es, w, Run(3, true));
  }

  /** The first of them has recorded the payment, the second is about to pay. */
  lemma Overlap() returns (es: seq<Event>, w: World)
    ensures RunAll(Opening(), es) == w && w.ops == [Done, Done, Announce(0), PayCas(0)]
    ensures w.db.orders == [Order(CART, Paid)] && w.db.payments == [Payment(0, 0, Succeeded)] && w.db.announced == []
  {
    hide RunAll, NextOrder, NextRelease, NextRefund, NextFailed, NextReconcile, NextReap, NextIntent;
    es, w := BothDeliver();
    es, w := Continue(es, w, Run(2, true));
    es, w := Continue(es, w, Run(2, true));
    es, w := Continue(es, w, Run(2, true));
  }

  /** Two deliveries of one event that overlap count its revenue twice. */
  lemma OverlappingDeliveriesAnnounceTwice() returns (es: seq<Event>)
    ensures RunAll(Opening(), es).db.announced == [0, 0]
  {
    hide RunAll, NextOrder, NextRelease, NextRefund, NextFailed, NextReconcile, NextReap, NextIntent;
    var w;
    es, w := Overlap();
    es, w := Continue(es, w, Run(2, true));
    es, w := Continue(es, w, Run(3, true));
    es, w := Continue(es, w, Run(3, true));
    es, w := Continue(es, w, Run(3, true));
    assert w.ops[3] == Announce(0) && w.db.announced == [0];
    es, w := Continue(es, w, Run(3, true));
  }

  // ---------- a charge that no refund reaches ----------

  /** A second request, operation 2, is about to ask Stripe about the pending intent. */
  lemma AskingStripe() returns (es: seq<Event>, w: World)
    ensures RunAll(Opening(), es) == w && w.ops == [Done, Done, IntentFirst(0, ReconcileCheck(0))]
    ensures w.db == OneOrder([Intent(0, RequiresPaymentMethod(false))], [Payment(0, 0, Pending)])
  {
    hide RunAll, NextOrder, NextRelease, NextRefund, NextSucceeded, NextFailed, NextReap;
    es, w := PlaceWithIntent();
    es, w := Continue(es, w, Spawn(IntentStart(0)));
    es, w := Continue(es, w, Run(2, true));
    es, w := Continue(es, w, Run(2, true));
  }

  /** Stripe does not answer it: it goes on with the order as it was read, and is about to create an intent. */
  lemma AskAgain() returns (es: seq<Event>, w: World)
    ensures RunAll(Opening(), es) == w && w.ops == [Done, Done, IntentNew(0)]
    ensures w.db == OneOrder([Intent(0, RequiresPaymentMethod(false))], [Payment(0, 0, Pending)])
  {
    hide RunAll, NextOrder, NextRelease, NextRefund, NextSucceeded, NextFailed, NextReap;
    es, w := AskingStripe();
    es, w := Continue(es, w, Run(2, false));
    assert w.ops[2] == IntentReuse(0);
    es, w := Continue(es, w, Run(2, true));
    assert w.ops[2] == IntentProbe(0, 0);
    es, w := Continue(es, w, Run(2, false));
  }

  function TwoIntents(first: IntentStatus): seq<Intent> {
    [Intent(0, first), Intent(0, RequiresPaymentMethod(false))]
  }

  lemma TwoRows() returns (es: seq<Event>, w: World)
    ensures RunAll(Opening(), es) == w && w.ops == [Done, Done, Done]
    ensures w.db == OneOrder(TwoIntents(RequiresPaymentMethod(false)), [Payment(0, 0, Pending), Payment(0, 1, Pending)])
  {
    hide RunAll, NextOrder, NextRelease, NextRefund, NextSucceeded, NextFailed, NextReconcile, NextReap;
    es, w := AskAgain();
    es, w := Continue(es, w, Run(2, true));
    es, w := Continue(es, w, Run(2, true));
  }

  /** The customer cancels the order and the first intent is charged after that. */
  lemma CancelledAndCharged() returns (es: seq<Event>, w: World)
    ensures RunAll(Opening(), es) == w && w.ops == [Done, Done, Done, Done]
    ensures w.db == Released(Cancelled, TwoIntents(IntentSucceeded), [Payment(0, 0, Pending), Payment(0, 1, Pending)],
                             Notes(map[], map[], {}, []))
  {
    hide RunAll, NextRefund, NextSucceeded, NextFailed, NextReconcile, NextReap, NextIntent;
    CartTaken();
    es, w := TwoRows();
    es, w := Continue(es, w, Spawn(CancelStart(0)));
    es, w := Continue(es, w, Run(3, true));
    es, w := Continue(es, w, Run(3, true));
    es, w := Continue(es, w, Run(3, true));
    es, w := Continue(es, w, Stripe(0, IntentSucceeded));
  }

  lemma ChargeSeen() returns (es: seq<Event>, w: World)
    ensures RunAll(Opening(), es) == w && w.ops == [Done, Done, Done, Done, RecordSucceeded(0, false)]
    ensures w.db == Released(Cancelled, TwoIntents(IntentSucceeded), [Payment(0, 0, Pending), Payment(0, 1, Pending)],
                             Notes(map[], map[], {}, []))
  {
    hide RunAll, NextOrder, NextRelease, NextRefund, NextFailed, NextReconcile, NextReap, NextIntent;
    es, w := CancelledAndCharged();
    es, w := Continue(es, w, Spawn(SucceededEvent(0)));
    es, w := Continue(es, w, Run(4, true));
    assert w.ops[4] == PayCas(0);
    es, w := Continue(es, w, Run(4, true));
    es, w := Continue(es, w, Run(4, true));
  }

  /** The automatic refund of a charge on a dead order looks at the newest row only, and refuses. */
  lemma OlderChargeIsNotRefunded() returns (es: seq<Event>)
    ensures var w := RunAll(Opening(), es);
            && w.ops == [Done, Done, Done, Done, Done]
            && w.db.orders == [Order(CART, Cancelled)] && Charged(w.db, 0) && w.db.refunds == map[]
            && w.db.payments == [Payment(0, 0, Succeeded), Payment(0, 1, Pending)]
  {
    hide RunAll, NextOrder, NextRelease, NextFailed, NextReconcile, NextReap, NextIntent;
    var w;
    es, w := ChargeSeen();
    es, w := Continue(es, w, Run(4, true));
    assert w.db.payments == [Payment(0, 0, Succeeded), Payment(0, 1, Pending)];
    es, w := Continue(es, w, Run(4, true));
  }
}
