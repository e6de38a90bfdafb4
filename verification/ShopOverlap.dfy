/**
 Any number of deliveries of one event, and of reconciles of its order, in any
 interleaving: how often the revenue of the payment is counted. Each of them may fail or
 stop at any step, and nothing is assumed about when they arrive. What requests of other
 kinds do to the count is said for series of requests, one at a time.
 */
module ShopOverlap {
  import opened Wrappers
  import opened ShopState
  import opened Operations
  import opened ShopInvariant
  import opened ShopRecovery
  import opened ShopDelivery

  /** A reconcile of the order looks at this row. */
  predicate Newest(db: Db, p: nat) {
    p < |db.payments| && Latest(db.payments, db.payments[p].order) == Some(p)
  }

  /** The request is a delivery for row p, or a reconcile that looks at it. */
  predicate OfPayment(db: Db, op: Op, p: nat)
    requires p < |db.payments|
  {
    op == SucceededEvent(db.payments[p].intent) || (op == ReconcileStart(db.payments[p].order) && Newest(db, p))
  }

  /** Nothing else is requested; Stripe may do with other intents what it likes. */
  predicate AllOfPayment(db: Db, es: seq<Event>, p: nat)
    requires p < |db.payments|
  {
    forall n :: 0 <= n < |es| && es[n].Spawn? ==> OfPayment(db, es[n].op, p)
  }

  /** The operation has passed its check and has not announced the payment yet. */
  predicate Underway(op: Op, p: nat) {
    op == PayCas(p) || op == LogPurchases(p) || op == PayRead(p) || op == RecordSucceeded(p, true) || op == Announce(p)
  }

  /** Where a delivery or a reconcile stands while the order is not dead. */
  predicate Standing(op: Op, db: Db, p: nat)
    requires p < |db.payments|
  {
    || op == Done || OfPayment(db, op, p) || (op == ReconcileCheck(p) && Newest(db, p)) || op == PayCas(p)
    || (Underway(op, p) && LiveOrder(db, p))
  }

  function UnderwayCount(ops: seq<Op>, p: nat): nat {
    if ops == [] then 0 else UnderwayCount(ops[..|ops| - 1], p) + if Underway(ops[|ops| - 1], p) then 1 else 0
  }

  /**
   The event is an answered check that lets its operation go on to pay: a delivery that
   finds the row not succeeded, or the status check of a reconcile that found it pending.
   */
  predicate Passes(w: World, e: Event, p: nat) {
    && e.Run? && e.ok && e.k < |w.ops| && p < |w.db.payments|
    && ((w.ops[e.k] == SucceededEvent(w.db.payments[p].intent) && w.db.payments[p].status != Succeeded)
        || w.ops[e.k] == ReconcileCheck(p))
  }

  /** The event is a failing statement that ends an operation past its check. */
  predicate Loses(w: World, e: Event, p: nat) {
    && e.Run? && !e.ok && e.k < |w.ops|
    && (w.ops[e.k] == PayCas(p) || w.ops[e.k] == PayRead(p) || w.ops[e.k] == RecordSucceeded(p, true))
  }

  function Passed(w: World, es: seq<Event>, p: nat): nat {
    if es == [] then 0
    else
      var front := es[..|es| - 1];
      Passed(w, front, p) + if Passes(RunAll(w, front), es[|es| - 1], p) then 1 else 0
  }

  function Lost(w: World, es: seq<Event>, p: nat): nat {
    if es == [] then 0
    else
      var front := es[..|es| - 1];
      Lost(w, front, p) + if Loses(RunAll(w, front), es[|es| - 1], p) then 1 else 0
  }

  // ---------- one step ----------

  lemma {:induction false} UnderwayUpdate(ops: seq<Op>, k: nat, op: Op, p: nat)
    requires k < |ops|
    ensures UnderwayCount(ops[k := op], p) + (if Underway(ops[k], p) then 1 else 0)
         == UnderwayCount(ops, p) + if Underway(op, p) then 1 else 0
  {
    var n := |ops| - 1;
    if k == n {
      assert ops[k := op][..n] == ops[..n];
    } else {
      assert ops[k := op][..n] == ops[..n][k := op];
      UnderwayUpdate(ops[..n], k, op, p);
    }
  }

  lemma UnderwaySpawn(ops: seq<Op>, op: Op, p: nat)
    requires !Underway(op, p)
    ensures UnderwayCount(ops + [op], p) == UnderwayCount(ops, p)
  {
    assert (ops + [op])[..|ops|] == ops;
  }

  /** The order is pending or past payment, and every operation is a delivery or a reconcile of the payment. */
  predicate Contest(w: World, p: nat) {
    && Inv(w) && Paying(w.db, p) && (LiveOrder(w.db, p) || PendingOrder(w.db, p))
    && forall k :: 0 <= k < |w.ops| ==> Standing(w.ops[k], w.db, p)
  }

  function One(b: bool): nat {
    if b then 1 else 0
  }

  /**
   What one step does to the payment: its row and order stay contested, and what passed
   its check is under way, announced or lost.
   */
  predicate StepCounts(db: Db, op: Op, ok: bool, m: Moved, p: nat)
    requires p < |db.payments|
  {
    && p < |m.db.payments|
    && m.db.payments[p].order == db.payments[p].order && m.db.payments[p].intent == db.payments[p].intent
    && Latest(m.db.payments, db.payments[p].order) == Latest(db.payments, db.payments[p].order)
    && m.db.intents == db.intents
    && (LiveOrder(db, p) ==> LiveOrder(m.db, p)) && (LiveOrder(m.db, p) || PendingOrder(m.db, p))
    && Standing(m.op, m.db, p)
    && multiset(m.db.announced)[p] + One(Underway(m.op, p))
         + One(!ok && (op == PayCas(p) || op == PayRead(p) || op == RecordSucceeded(p, true)))
       == multiset(db.announced)[p] + One(Underway(op, p))
         + One(ok && ((op == SucceededEvent(db.payments[p].intent) && db.payments[p].status != Succeeded)
                      || op == ReconcileCheck(p)))
  }

  lemma AnnouncedMore(announced: seq<nat>, p: nat)
    ensures multiset(announced + [p])[p] == multiset(announced)[p] + 1
  {
  }

  lemma CheckStep(k: nat, op: Op, db: Db, ok: bool, p: nat)
    requires Paying(db, p) && (LiveOrder(db, p) || PendingOrder(db, p)) && Standing(op, db, p) && op.SucceededEvent?
    ensures StepCounts(db, op, ok, NextSucceeded(k, op, db, ok), p)
  {
    hide DbInv, Latest, RowOfIntent;
    RowIsUnique(db, p);
  }

  lemma CasStep(k: nat, op: Op, db: Db, ok: bool, p: nat)
    requires Paying(db, p) && (LiveOrder(db, p) || PendingOrder(db, p)) && Standing(op, db, p) && op.PayCas?
    ensures StepCounts(db, op, ok, NextSucceeded(k, op, db, ok), p)
  {
    hide DbInv, Latest, RowOfIntent;
    RowIsUnique(db, p);
  }

  lemma LogStep(k: nat, op: Op, db: Db, ok: bool, p: nat)
    requires Paying(db, p) && (LiveOrder(db, p) || PendingOrder(db, p)) && Standing(op, db, p)
    requires op.LogPurchases? || op.PayRead?
    ensures StepCounts(db, op, ok, NextSucceeded(k, op, db, ok), p)
  {
    hide DbInv, Latest, RowOfIntent;
    RowIsUnique(db, p);
  }

  lemma RecordStep(k: nat, op: Op, db: Db, ok: bool, p: nat)
    requires Paying(db, p) && (LiveOrder(db, p) || PendingOrder(db, p)) && Standing(op, db, p) && op.RecordSucceeded?
    ensures StepCounts(db, op, ok, NextSucceeded(k, op, db, ok), p)
  {
    hide DbInv, Latest, RowOfIntent;
    RowIsUnique(db, p);
    LatestIgnoresStatus(db.payments, p, Succeeded, db.payments[p].order);
  }

  lemma AnnounceStep(k: nat, op: Op, db: Db, ok: bool, p: nat)
    requires Paying(db, p) && (LiveOrder(db, p) || PendingOrder(db, p)) && Standing(op, db, p) && op.Announce?
    ensures StepCounts(db, op, ok, NextSucceeded(k, op, db, ok), p)
  {
    hide DbInv, Latest, RowOfIntent;
    RowIsUnique(db, p);
    AnnouncedMore(db.announced, p);
  }

  lemma PayingStep(k: nat, op: Op, db: Db, ok: bool, p: nat)
    requires Paying(db, p) && (LiveOrder(db, p) || PendingOrder(db, p)) && Standing(op, db, p) && OnSucceeded(op)
    ensures StepCounts(db, op, ok, NextSucceeded(k, op, db, ok), p)
  {
    hide Paying, Standing, StepCounts, LiveOrder, PendingOrder, NextSucceeded;
    if op.SucceededEvent? { CheckStep(k, op, db, ok, p); }
    else if op.PayCas? { CasStep(k, op, db, ok, p); }
    else if op.RecordSucceeded? { RecordStep(k, op, db, ok, p); }
    else if op.Announce? { AnnounceStep(k, op, db, ok, p); }
    else { LogStep(k, op, db, ok, p); }
  }

  lemma ReconcilingStep(k: nat, op: Op, db: Db, ok: bool, p: nat)
    requires Paying(db, p) && (LiveOrder(db, p) || PendingOrder(db, p)) && Standing(op, db, p) && OnReconcile(op)
    ensures StepCounts(db, op, ok, NextReconcile(op, db, ok), p)
  {
    hide DbInv, Latest;
    RowIsUnique(db, p);
  }

  lemma IdleStep(k: nat, db: Db, ok: bool, p: nat)
    requires Paying(db, p) && (LiveOrder(db, p) || PendingOrder(db, p))
    ensures StepCounts(db, Done, ok, Moved(Done, db), p)
  {
    hide DbInv, Latest;
  }

  lemma OneStep(k: nat, op: Op, db: Db, ok: bool, p: nat)
    requires Paying(db, p) && (LiveOrder(db, p) || PendingOrder(db, p)) && Standing(op, db, p)
    ensures StepCounts(db, op, ok, Next(k, op, db, ok), p)
  {
    hide Paying, StepCounts, LiveOrder, PendingOrder;
    hide NextSucceeded, NextReconcile, NextRelease, NextRefund, NextFailed, NextReap, NextIntent;
    if OnSucceeded(op) { PayingStep(k, op, db, ok, p); }
    else if OnReconcile(op) { ReconcilingStep(k, op, db, ok, p); }
    else { IdleStep(k, db, ok, p); }
  }

  // ---------- runs ----------

  function Times(w: World, p: nat): nat {
    multiset(w.db.announced)[p]
  }

  /** The payment keeps its order and its intent, and stays the newest row or an older one. */
  predicate SameRow(w: World, w': World, p: nat) {
    && p < |w.db.payments| && p < |w'.db.payments|
    && w'.db.payments[p].order == w.db.payments[p].order && w'.db.payments[p].intent == w.db.payments[p].intent
    && (Newest(w'.db, p) <==> Newest(w.db, p))
  }

  /** What an event does to a contest. */
  predicate EventCounts(w: World, e: Event, p: nat) {
    && Contest(Apply(w, e), p) && SameRow(w, Apply(w, e), p)
    && Times(Apply(w, e), p) + UnderwayCount(Apply(w, e).ops, p) + One(Loses(w, e, p))
       == Times(w, p) + UnderwayCount(w.ops, p) + One(Passes(w, e, p))
  }

  lemma RunCounts(w: World, e: Event, p: nat)
    requires Contest(w, p) && e.Run? && e.k < |w.ops|
    ensures EventCounts(w, e, p)
  {
    hide Inv, DbInv, Latest, Next;
    var op := w.ops[e.k];
    var m := Next(e.k, op, w.db, e.ok);
    KeptInv(w, e);
    OneStep(e.k, op, w.db, e.ok, p);
    UnderwayUpdate(w.ops, e.k, m.op, p);
    forall j | 0 <= j < |Apply(w, e).ops| ensures Standing(Apply(w, e).ops[j], m.db, p) {
      assert Standing(w.ops[j], w.db, p);
    }
  }

  lemma KeptInv(w: World, e: Event)
    requires Inv(w)
    ensures Inv(Apply(w, e)) && DbInv(Apply(w, e).db)
  {
    EventKeeps(w, e);
  }

  lemma SpawnCounts(w: World, e: Event, p: nat)
    requires Contest(w, p) && e.Spawn? && OfPayment(w.db, e.op, p)
    ensures EventCounts(w, e, p)
  {
    hide Inv, DbInv, Latest, Startable, LiveOrder, PendingOrder, Charged;
    KeptInv(w, e);
    UnderwaySpawn(w.ops, e.op, p);
  }

  lemma StripeCounts(w: World, e: Event, p: nat)
    requires Contest(w, p) && (e.Stripe? || (e.Run? && e.k >= |w.ops|))
    ensures EventCounts(w, e, p)
  {
    hide Inv, DbInv, Latest;
    KeptInv(w, e);
    forall j | 0 <= j < |w.ops| ensures Standing(w.ops[j], Apply(w, e).db, p) {
      assert Standing(w.ops[j], w.db, p);
    }
  }

  /**
   In any interleaving of any number of deliveries and reconciles of one payment, with
   failures and stops anywhere, whatever passed its check is announced, still under way,
   or lost to a failed statement. Nothing else announces the payment.
   */
  lemma {:induction false} OverlapExact(w: World, es: seq<Event>, p: nat)
    requires p < |w.db.payments| && Contest(w, p) && AllOfPayment(w.db, es, p)
    ensures var w' := RunAll(w, es);
            && Contest(w', p) && SameRow(w, w', p)
            && Times(w', p) + UnderwayCount(w'.ops, p) + Lost(w, es, p)
               == Times(w, p) + UnderwayCount(w.ops, p) + Passed(w, es, p)
  {
    hide Contest, Newest, Passes, Loses, Times, Apply;
    if es != [] {
      var front, e := es[..|es| - 1], es[|es| - 1];
      OverlapExact(w, front, p);
      var before := RunAll(w, front);
      if e.Run? && e.k < |before.ops| {
        RunCounts(before, e, p);
      } else if e.Spawn? {
        SpawnCounts(before, e, p);
      } else {
        StripeCounts(before, e, p);
      }
    }
  }

  /**
   When all of them have run to their end and no statement failed, the payment is
   announced once exactly when one of them passed its check.
   */
  lemma {:induction false} AnnouncedOnceIff(w: World, es: seq<Event>, p: nat)
    requires p < |w.db.payments| && Contest(w, p) && AllOfPayment(w.db, es, p)
    requires UnderwayCount(w.ops, p) == 0 && UnderwayCount(RunAll(w, es).ops, p) == 0
    requires forall n :: 0 <= n < |es| ==> es[n].Run? ==> es[n].ok
    ensures Times(RunAll(w, es), p) == Times(w, p) + 1 <==> Passed(w, es, p) == 1
  {
    hide Contest, AllOfPayment, Times;
    OverlapExact(w, es, p);
    NothingLost(w, es, p);
  }

  lemma {:induction false} NothingLost(w: World, es: seq<Event>, p: nat)
    requires forall n :: 0 <= n < |es| ==> es[n].Run? ==> es[n].ok
    ensures Lost(w, es, p) == 0
  {
    hide Apply;
    if es != [] { NothingLost(w, es[..|es| - 1], p); }
  }

  // ---------- dead orders ----------

  /** Where a delivery or a reconcile stands when the order is dead. */
  predicate Quiet(op: Op, db: Db, p: nat)
    requires p < |db.payments|
  {
    || op == Done || OfPayment(db, op, p) || (op == ReconcileCheck(p) && Newest(db, p))
    || op == PayCas(p) || op == PayRead(p) || op == RecordSucceeded(p, false)
    || (OnRefund(op) && op.after == ThenNothing && (!op.RefundRead? ==> op.payment < |db.payments|))
  }

  predicate DeadContest(w: World, p: nat) {
    && Inv(w) && Paying(w.db, p) && Dead(w.db, w.db.payments[p].order)
    && forall k :: 0 <= k < |w.ops| ==> Quiet(w.ops[k], w.db, p)
  }

  predicate QuietMoved(db: Db, m: Moved, p: nat)
    requires p < |db.payments|
  {
    && |m.db.payments| == |db.payments|
    && m.db.payments[p].order == db.payments[p].order && m.db.payments[p].intent == db.payments[p].intent
    && Latest(m.db.payments, db.payments[p].order) == Latest(db.payments, db.payments[p].order)
    && m.db.intents == db.intents && m.db.orders == db.orders && m.db.announced == db.announced
    && Quiet(m.op, m.db, p)
  }

  lemma QuietPays(k: nat, op: Op, db: Db, ok: bool, p: nat)
    requires Paying(db, p) && Dead(db, db.payments[p].order) && Quiet(op, db, p) && OnSucceeded(op)
    ensures QuietMoved(db, NextSucceeded(k, op, db, ok), p)
  {
    hide DbInv, Latest, RowOfIntent;
    RowIsUnique(db, p);
    LatestIgnoresStatus(db.payments, p, Succeeded, db.payments[p].order);
  }

  lemma QuietRefunds(op: Op, db: Db, ok: bool, p: nat)
    requires Paying(db, p) && Quiet(op, db, p) && OnRefund(op)
    ensures QuietMoved(db, NextRefund(op, db, ok), p)
  {
    hide DbInv, Latest;
    if op.RefundMark? { LatestIgnoresStatus(db.payments, op.payment, RefundedPayment, db.payments[p].order); }
  }

  lemma QuietReconciles(op: Op, db: Db, ok: bool, p: nat)
    requires Paying(db, p) && Quiet(op, db, p) && OnReconcile(op)
    ensures QuietMoved(db, NextReconcile(op, db, ok), p)
  {
    hide DbInv, Latest;
    RowIsUnique(db, p);
  }

  lemma QuietIdles(db: Db, p: nat)
    requires Paying(db, p)
    ensures QuietMoved(db, Moved(Done, db), p)
  {
  }

  lemma QuietStep(k: nat, op: Op, db: Db, ok: bool, p: nat)
    requires Paying(db, p) && Dead(db, db.payments[p].order) && Quiet(op, db, p)
    ensures QuietMoved(db, Next(k, op, db, ok), p)
  {
    hide Paying, QuietMoved, Dead;
    hide NextSucceeded, NextReconcile, NextRelease, NextRefund, NextFailed, NextReap, NextIntent;
    if OnSucceeded(op) { QuietPays(k, op, db, ok, p); }
    else if OnReconcile(op) { QuietReconciles(op, db, ok, p); }
    else if OnRefund(op) { QuietRefunds(op, db, ok, p); }
    else { QuietIdles(db, p); }
  }

  lemma QuietEvent(w: World, e: Event, p: nat)
    requires DeadContest(w, p) && (e.Spawn? ==> OfPayment(w.db, e.op, p))
    ensures DeadContest(Apply(w, e), p) && SameRow(w, Apply(w, e), p) && Apply(w, e).db.announced == w.db.announced
  {
    hide Inv, DbInv, Latest, Next, Startable;
    KeptInv(w, e);
    if e.Run? && e.k < |w.ops| { QuietStep(e.k, w.ops[e.k], w.db, e.ok, p); }
    forall j | 0 <= j < |w.ops| && (e.Run? ==> j != e.k) ensures Quiet(w.ops[j], Apply(w, e).db, p) {
      assert Quiet(w.ops[j], w.db, p);
    }
  }

  /** However many of them overlap, a payment of a dead order is never announced. */
  lemma {:induction false} DeadAnnouncesNothing(w: World, es: seq<Event>, p: nat)
    requires p < |w.db.payments| && DeadContest(w, p) && AllOfPayment(w.db, es, p)
    ensures var w' := RunAll(w, es);
            DeadContest(w', p) && SameRow(w, w', p) && w'.db.announced == w.db.announced
  {
    hide DeadContest, Newest, Apply;
    if es != [] {
      DeadAnnouncesNothing(w, es[..|es| - 1], p);
      QuietEvent(RunAll(w, es[..|es| - 1]), es[|es| - 1], p);
    }
  }
}
