/**
 Every actor that moves an order, as a sequence of separate steps. An operation is
 its program counter together with the values it has read; one step makes at most
 one atomic change. A step whose statement or outside call fails changes nothing; an
 operation that stops half-way is one that never gets another step.
 */
module Operations {
  import opened Wrappers
  import opened Stock
  import opened ShopState

  /** What RefundOrder's caller does next: release the order it read as `from`, or nothing (orphaned payment). */
  datatype After = ThenRelease(from: OrderStatus) | ThenNothing

  /** Who runs a release transaction, with the evidence that belongs to it. */
  datatype Reason = ByCancel | ByAdmin | ByFailure | ByReaper(listed: seq<nat>) | ByRefund(payment: nat)

  datatype Op =
    | Done
    // checkout, after the cart was read
    | Checkout(lines: seq<Line>)
    // Cancel and AdminRefund: read the order
    | CancelStart(order: nat)
    | RefundStart(order: nat)
    // AdminUpdateStatus
    | EditStart(order: nat, target: OrderStatus)
    | EditForward(order: nat, from: OrderStatus, target: OrderStatus)
    // ItemsForRestock, then the release transaction
    | ReadItems(order: nat, from: OrderStatus, target: OrderStatus, reason: Reason)
    | Release(order: nat, items: seq<Line>, from: OrderStatus, target: OrderStatus, reason: Reason)
    // RefundOrder: newest row, Stripe call, MarkRefunded
    | RefundRead(order: nat, after: After)
    | RefundCall(order: nat, payment: nat, after: After)
    | RefundMark(order: nat, payment: nat, after: After)
    // onIntentSucceeded and applySucceeded
    | SucceededEvent(intent: nat)
    | PayCas(payment: nat)
    | LogPurchases(payment: nat)
    | PayRead(payment: nat)
    | RecordSucceeded(payment: nat, live: bool)
    | Announce(payment: nat)
    // onIntentFailed and applyFailed
    | FailedEvent(intent: nat)
    | RecordFailed(payment: nat)
    // Reconcile
    | ReconcileStart(order: nat)
    | ReconcileCheck(payment: nat)
    // one order of ExpireStaleCheckouts: list the pending intents, void them one by one
    | ReapStart(order: nat)
    | Void(order: nat, listed: seq<nat>, next: nat)
    | VoidCheck(order: nat, listed: seq<nat>, next: nat)
    | VoidRecord(order: nat, listed: seq<nat>, next: nat)
    // CreateIntent: read the order, and reconcile and reload it while it is pending
    | IntentStart(order: nat)
    | IntentFirst(order: nat, inner: Op)
    | IntentReload(order: nat)
    | IntentReuse(order: nat)
    | IntentProbe(order: nat, payment: nat)
    | IntentNew(order: nat)
    | IntentRow(order: nat, intent: nat)

  datatype Moved = Moved(op: Op, db: Db)

  predicate AdminSettable(s: OrderStatus) {
    s.Processing? || s.Shipped? || s.Delivered? || s.Cancelled?
  }

  function AfterRefund(o: nat, p: nat, after: After): Op {
    match after
    case ThenRelease(from) => ReadItems(o, from, RefundedOrder, ByRefund(p))
    case ThenNothing => Done
  }

  /** The canceller moves on to the next listed intent; after the last one the reaper reads the items. */
  function VoidNext(o: nat, listed: seq<nat>, next: nat): Op {
    if next < |listed| then Void(o, listed, next) else ReadItems(o, PendingPayment, Cancelled, ByReaper(listed))
  }

  function NextRelease(op: Op, db: Db, ok: bool): Moved
    requires op.Release?
  {
    if ok && op.order < |db.orders| && db.orders[op.order].status == op.from then
      var db' := ReleaseOrder(db, op.order, op.target, op.items);
      Moved(Done, if op.reason.ByReaper?
                  then db'.(notes := db.notes.(reaped := db.notes.reaped[op.order := op.reason.listed]))
                  else db')
    else Moved(Done, db)
  }

  function NextRefund(op: Op, db: Db, ok: bool): Moved
    requires OnRefund(op)
  {
    match op
    case RefundRead(o, after) =>
      (match Latest(db.payments, o)
       case None => Moved(Done, db)
       case Some(p) =>
         if !ok then Moved(Done, db)
         else if db.payments[p].status == RefundedPayment then Moved(AfterRefund(o, p, after), db)
         else if db.payments[p].status != Succeeded then Moved(Done, db)
         else Moved(RefundCall(o, p, after), db))
    case RefundCall(o, p, after) =>
      if ok && p < |db.payments| && db.payments[p].intent < |db.intents| && RefundAccepted(db, p)
      then Moved(RefundMark(o, p, after), RefundCharge(db, p))
      else Moved(Done, db)
    case RefundMark(o, p, after) =>
      if ok && p < |db.payments| then Moved(AfterRefund(o, p, after), SetPayment(db, p, RefundedPayment)) else Moved(Done, db)
  }

  function NextSucceeded(k: nat, op: Op, db: Db, ok: bool): Moved
    requires OnSucceeded(op)
  {
    match op
    case SucceededEvent(i) =>
      (match RowOfIntent(db.payments, i)
       case None => Moved(Done, db)
       case Some(p) => Moved(if !ok || db.payments[p].status == Succeeded then Done else PayCas(p), db))
    case PayCas(p) =>
      if ok && p < |db.payments| && db.payments[p].order < |db.orders| then
        var o := db.payments[p].order;
        if db.orders[o].status == PendingPayment then Moved(LogPurchases(p), PayOrder(db, o, k)) else Moved(PayRead(p), db)
      else Moved(Done, db)
    case LogPurchases(p) =>
      Moved(RecordSucceeded(p, true),
            if ok && p < |db.payments| then db.(purchases := db.purchases + [db.payments[p].order]) else db)
    case PayRead(p) =>
      if ok && p < |db.payments| && db.payments[p].order < |db.orders|
      then Moved(RecordSucceeded(p, PostPayment(db.orders[db.payments[p].order].status)), db)
      else Moved(Done, db)
    case RecordSucceeded(p, live) =>
      if ok && p < |db.payments|
      then Moved(if live then Announce(p) else RefundRead(db.payments[p].order, ThenNothing), SetPayment(db, p, Succeeded))
      else Moved(Done, db)
    case Announce(p) => Moved(Done, db.(announced := db.announced + [p]))
  }

  function NextFailed(op: Op, db: Db, ok: bool): Moved
    requires OnFailed(op)
  {
    match op
    case FailedEvent(i) =>
      (match RowOfIntent(db.payments, i)
       case None => Moved(Done, db)
       case Some(p) => Moved(if !ok || db.payments[p].status == Failed then Done else RecordFailed(p), db))
    case RecordFailed(p) =>
      if ok && p < |db.payments|
      then Moved(ReadItems(db.payments[p].order, PendingPayment, PaymentFailed, ByFailure), SetPayment(db, p, Failed))
      else Moved(Done, db)
  }

  function NextReconcile(op: Op, db: Db, ok: bool): Moved
    requires OnReconcile(op)
  {
    match op
    case ReconcileStart(o) =>
      (match Latest(db.payments, o)
       case None => Moved(Done, db)
       case Some(p) => Moved(if ok && db.payments[p].status == Pending then ReconcileCheck(p) else Done, db))
    case ReconcileCheck(p) =>
      if ok && p < |db.payments| && db.payments[p].intent < |db.intents| then
        match db.intents[db.payments[p].intent].status
        case IntentSucceeded => Moved(PayCas(p), db)
        case IntentCanceled => Moved(RecordFailed(p), db)
        case RequiresPaymentMethod(failed) => Moved(if failed then RecordFailed(p) else Done, db)
        case _ => Moved(Done, db)
      else Moved(Done, db)
  }

  /** CancelIntent: voids a payable intent, may void one in process, and refuses a terminal one. */
  function NextReap(op: Op, db: Db, ok: bool): Moved
    requires OnReap(op)
  {
    if op.ReapStart? then Moved(if ok then VoidNext(op.order, PendingIntents(db.payments, op.order), 0) else Done, db)
    else if op.next >= |op.listed| || op.listed[op.next] >= |db.intents| then Moved(Done, db)
    else
      var i := op.listed[op.next];
      var st := db.intents[i].status;
      match op
      case Void(o, listed, n) =>
        if Terminal(st) then Moved(VoidCheck(o, listed, n), db)
        else if ok then Moved(VoidRecord(o, listed, n), SetIntent(db, i, IntentCanceled))
        else Moved(if st.InProcess? then VoidCheck(o, listed, n) else Done, db)
      case VoidCheck(o, listed, n) =>
        if !ok then Moved(Done, db)
        else if st.IntentSucceeded? || st.InProcess? then Moved(ReconcileStart(o), db)
        else Moved(VoidRecord(o, listed, n),
                   if st.IntentCanceled? then db
                   else db.(notes := db.notes.(misjudged := db.notes.misjudged + {i})))
      case VoidRecord(o, listed, n) =>
        if ok then Moved(VoidNext(o, listed, n + 1), CancelRow(db, i)) else Moved(Done, db)
  }

  function NextIntent(op: Op, db: Db, ok: bool): Moved
    requires OnIntent(op)
  {
    match op
    case IntentStart(o) =>
      Moved(if ok && o < |db.orders| && db.orders[o].status == PendingPayment
            then IntentFirst(o, ReconcileStart(o)) else Done, db)
    case IntentReload(o) =>
      // a failed reload answers with the order as it was read first, which was pending
      Moved(if ok && o < |db.orders| && db.orders[o].status != PendingPayment then Done else IntentReuse(o), db)
    case IntentReuse(o) =>
      var row := Latest(db.payments, o);
      Moved(if ok && row.Some? && db.payments[row.value].status == Pending then IntentProbe(o, row.value) else IntentNew(o), db)
    case IntentProbe(o, p) =>
      Moved(if ok && p < |db.payments| && db.payments[p].intent < |db.intents|
               && Reusable(db.intents[db.payments[p].intent].status) then Done else IntentNew(o), db)
    case IntentNew(o) =>
      if ok then Moved(IntentRow(o, |db.intents|), db.(intents := db.intents + [Intent(o, RequiresPaymentMethod(false))]))
      else Moved(Done, db)
    case IntentRow(o, i) =>
      Moved(Done, if ok && RowOfIntent(db.payments, i).None? then db.(payments := db.payments + [Payment(o, i, Pending)]) else db)
  }

  /** The order-side steps: checkout, the reads that admit a request, the admin edit, the items read. */
  function NextOrder(op: Op, db: Db, ok: bool): Moved
    requires OnOrder(op)
  {
    match op
    case Done => Moved(Done, db)
    case Checkout(lines) =>
      Moved(Done, if ok && AcceptsAll(db.products, lines) then PlaceOrder(db, lines) else db)
    case CancelStart(o) =>
      if ok && o < |db.orders| then
        match db.orders[o].status
        case PendingPayment => Moved(ReadItems(o, PendingPayment, Cancelled, ByCancel), db)
        case Paid => Moved(RefundRead(o, ThenRelease(Paid)), db)
        case _ => Moved(Done, db)
      else Moved(Done, db)
    case RefundStart(o) =>
      Moved(if ok && o < |db.orders| && PostPayment(db.orders[o].status)
            then RefundRead(o, ThenRelease(db.orders[o].status)) else Done, db)
    case EditStart(o, target) =>
      Moved(if !ok || o >= |db.orders| || !AdminSettable(target) then Done
            else if target != Cancelled then EditForward(o, db.orders[o].status, target)
            else if db.orders[o].status == PendingPayment then ReadItems(o, PendingPayment, Cancelled, ByAdmin)
            else Done, db)
    case EditForward(o, from, target) =>
      Moved(Done, if ok && o < |db.orders| && db.orders[o].status == from then MoveForward(db, o, target) else db)
    case ReadItems(o, from, target, reason) =>
      Moved(if ok && o < |db.orders| then Release(o, db.orders[o].items, from, target, reason) else Done, db)
  }

  predicate OnOrder(op: Op) {
    op.Done? || op.Checkout? || op.CancelStart? || op.RefundStart? || op.EditStart? || op.EditForward? || op.ReadItems?
  }

  predicate OnRefund(op: Op) {
    op.RefundRead? || op.RefundCall? || op.RefundMark?
  }

  predicate OnSucceeded(op: Op) {
    op.SucceededEvent? || op.PayCas? || op.LogPurchases? || op.PayRead? || op.RecordSucceeded? || op.Announce?
  }

  predicate OnFailed(op: Op) {
    op.FailedEvent? || op.RecordFailed?
  }

  predicate OnReconcile(op: Op) {
    op.ReconcileStart? || op.ReconcileCheck?
  }

  predicate OnReap(op: Op) {
    op.ReapStart? || op.Void? || op.VoidCheck? || op.VoidRecord?
  }

  predicate OnIntent(op: Op) {
    op.IntentStart? || op.IntentReload? || op.IntentReuse? || op.IntentProbe? || op.IntentNew? || op.IntentRow?
  }

  /** The steps a reconcile can consist of. */
  predicate Reconciling(op: Op) {
    OnReconcile(op) || OnSucceeded(op) || OnRefund(op) || op.RecordFailed? || op.ReadItems? || op.Release?
  }

  /** A failure of this step makes the reconcile fail; a failed refund or announcement is only logged. */
  predicate Breaks(op: Op) {
    !OnRefund(op) && !op.Announce?
  }

  /**
   Where a request for an intent stands after a step of the reconcile inside it: on to
   the next step, to the reload, or, when the reconcile failed, ahead with the order as
   it was read first.
   */
  function AfterInner(o: nat, inner: Op, next: Op, ok: bool): Op {
    if next != Done then IntentFirst(o, next)
    else if !ok && Breaks(inner) then IntentReuse(o)
    else IntentReload(o)
  }

  /** One step of operation number k outside a nested reconcile. */
  function NextPlain(k: nat, op: Op, db: Db, ok: bool): Moved
    requires !op.IntentFirst?
  {
    if OnOrder(op) then NextOrder(op, db, ok)
    else if op.Release? then NextRelease(op, db, ok)
    else if OnRefund(op) then NextRefund(op, db, ok)
    else if OnSucceeded(op) then NextSucceeded(k, op, db, ok)
    else if OnFailed(op) then NextFailed(op, db, ok)
    else if OnReconcile(op) then NextReconcile(op, db, ok)
    else if OnReap(op) then NextReap(op, db, ok)
    else NextIntent(op, db, ok)
  }

  /** The step an operation is about to make: its own, or that of the reconcile inside it. */
  function Core(op: Op): Op {
    if op.IntentFirst? then op.inner else op
  }

  /** One step of operation number k. `ok` is false when the statement or the outside call of the step fails. */
  function Next(k: nat, op: Op, db: Db, ok: bool): Moved {
    if !op.IntentFirst? then NextPlain(k, op, db, ok)
    else if op.inner.IntentFirst? then Moved(Done, db)
    else
      var m := NextPlain(k, op.inner, db, ok);
      Moved(AfterInner(op.order, op.inner, m.op, ok), m.db)
  }

  /** Where an operation stands that is at `op`, by itself or in a reconcile inside a request for an intent. */
  function In(inside: Option<nat>, op: Op): Op {
    match inside
    case None => op
    case Some(o) => IntentFirst(o, op)
  }

  /** Where it stands when that is over, with or without an error. */
  function Out(inside: Option<nat>, err: bool): Op {
    match inside
    case None => Done
    case Some(o) => if err then IntentReuse(o) else IntentReload(o)
  }

  function Then(inside: Option<nat>, op: Op, next: Op, ok: bool): Op {
    match inside
    case None => next
    case Some(o) => AfterInner(o, op, next, ok)
  }

  lemma NextIn(k: nat, inside: Option<nat>, op: Op, db: Db, ok: bool)
    requires !op.IntentFirst?
    ensures var m := NextPlain(k, op, db, ok);
            Next(k, In(inside, op), db, ok) == Moved(Then(inside, op, m.op, ok), m.db)
    ensures Core(In(inside, op)) == op
  {
  }

  /** The step that makes a request succeed: the order placed, released or moved forward, the intent reused or recorded. */
  predicate Hits(op: Op, db: Db, ok: bool) {
    match op
    case Checkout(lines) => ok && AcceptsAll(db.products, lines)
    case Release(o, _, from, _, _) => ok && o < |db.orders| && db.orders[o].status == from
    case EditForward(o, from, _) => ok && o < |db.orders| && db.orders[o].status == from
    case IntentProbe(_, p) =>
      ok && p < |db.payments| && db.payments[p].intent < |db.intents| && Reusable(db.intents[db.payments[p].intent].status)
    case IntentRow(_, i) => ok && RowOfIntent(db.payments, i).None?
    case _ => false
  }

  // ---------- runs ----------

  /** `asked` keeps the request each operation started as. */
  datatype World = World(db: Db, ops: seq<Op>, asked: seq<Op>)

  /** A request arrives, an operation takes a step, or Stripe moves an intent on its own. */
  datatype Event =
    | Spawn(op: Op)
    | Run(k: nat, ok: bool)
    | Stripe(intent: nat, status: IntentStatus)

  /**
   The requests the outside may start. The reaper takes its orders from a list
   of existing ones, and a succeeded event is only delivered for an intent that did succeed.
   */
  predicate Startable(op: Op, db: Db) {
    match op
    case Checkout(lines) => lines != [] && ValidCart(lines)
    case SucceededEvent(i) => i < |db.intents| && db.intents[i].status.IntentSucceeded?
    case CancelStart(_) => true
    case RefundStart(_) => true
    case EditStart(_, _) => true
    case FailedEvent(_) => true
    case ReconcileStart(_) => true
    case ReapStart(o) => o < |db.orders|
    case IntentStart(_) => true
    case _ => false
  }

  function Apply(w: World, e: Event): World {
    match e
    case Spawn(op) => if Startable(op, w.db) then w.(ops := w.ops + [op], asked := w.asked + [op]) else w
    case Run(k, ok) =>
      if k < |w.ops| then
        var moved := Next(k, w.ops[k], w.db, ok);
        w.(db := moved.db, ops := w.ops[k := moved.op])
      else w
    case Stripe(i, st) =>
      if i < |w.db.intents| && !Terminal(w.db.intents[i].status) then w.(db := SetIntent(w.db, i, st)) else w
  }

  /** A run: any number of events in any order, the last one outermost. */
  function RunAll(w: World, es: seq<Event>): World {
    if es == [] then w else Apply(RunAll(w, es[..|es| - 1]), es[|es| - 1])
  }

  /** A shop that is open but has not sold anything yet. */
  predicate Initial(w: World) {
    && NonNegative(w.db.products)
    && w.db == Db(w.db.products, [], [], [], map[], [], [], Notes(map[], map[], {}, []))
    && w.ops == [] && w.asked == []
  }

  lemma {:induction false} RunAllAppend(w: World, es: seq<Event>, es': seq<Event>)
    ensures RunAll(w, es + es') == RunAll(RunAll(w, es), es')
  {
    if es' == [] {
      assert es + es' == es;
    } else {
      assert (es + es')[..|es + es'| - 1] == es + es'[..|es'| - 1];
      RunAllAppend(w, es, es'[..|es'| - 1]);
    }
  }
}
