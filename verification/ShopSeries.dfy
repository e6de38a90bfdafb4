/**
 Any series of requests, one at a time: how often the revenue of a payment is counted and
 its confirmation published, and exactly which requests make it be counted again. A
 request of the series may fail at any of its steps or stop after any of them; the next
 one then finds what it left.
 */
module ShopSeries {
  import opened ShopState
  import opened Operations
  import opened ShopInvariant
  import opened ShopRecovery
  import opened ShopDelivery

  /** A request with the fate of its steps, or a move of Stripe's own. */
  datatype Turn = Ask(request: Op, oks: seq<bool>) | StripeMoves(intent: nat, status: IntentStatus)

  /** What a turn does; a request the outside may not start does nothing. */
  function Serve(k: nat, db: Db, t: Turn): Db {
    match t
    case Ask(request, oks) => if Startable(request, db) then Solo(k, request, db, oks).db else db
    case StripeMoves(i, st) =>
      if i < |db.intents| && !Terminal(db.intents[i].status) then SetIntent(db, i, st) else db
  }

  function ServeAll(k: nat, db: Db, ts: seq<Turn>): Db {
    if ts == [] then db else Serve(k, ServeAll(k, db, ts[..|ts| - 1]), ts[|ts| - 1])
  }

  lemma StartKnown(k: nat, request: Op, db: Db)
    requires Startable(request, db)
    ensures OpInv(k, request, db)
  {
  }

  lemma ServeKeeps(k: nat, db: Db, t: Turn)
    requires DbInv(db)
    ensures DbInv(Serve(k, db, t))
  {
    hide DbInv, Startable, OpInv;
    if t.Ask? && Startable(t.request, db) {
      StartKnown(k, t.request, db);
      SoloKeeps(k, t.request, db, t.oks);
    } else if t.StripeMoves? && t.intent < |db.intents| && !Terminal(db.intents[t.intent].status) {
      IntentKeeps(db, t.intent, t.status, k);
    }
  }

  lemma {:induction false} ServeAllKeeps(k: nat, db: Db, ts: seq<Turn>)
    requires DbInv(db)
    ensures DbInv(ServeAll(k, db, ts))
  {
    hide DbInv, Serve;
    if ts != [] {
      ServeAllKeeps(k, db, ts[..|ts| - 1]);
      ServeKeeps(k, ServeAll(k, db, ts[..|ts| - 1]), ts[|ts| - 1]);
    }
  }

  /** What can still be announced for payment p: nothing once its row is succeeded or its order is dead. */
  function Open(db: Db, p: nat): nat {
    if p < |db.payments| && (db.payments[p].status == Succeeded || Dead(db, db.payments[p].order)) then 0 else 1
  }

  /** The turn took back what had closed the payment: its next delivery will announce it again. */
  predicate Reopens(k: nat, db: Db, t: Turn, p: nat) {
    Open(db, p) == 0 && Open(Serve(k, db, t), p) == 1
  }

  function Reopenings(k: nat, db: Db, ts: seq<Turn>, p: nat): nat {
    if ts == [] then 0
    else
      var front := ts[..|ts| - 1];
      Reopenings(k, db, front, p) + if Reopens(k, ServeAll(k, db, front), ts[|ts| - 1], p) then 1 else 0
  }

  // ---------- requests that cannot reopen a payment ----------

  /** Neither a failed event, nor a cancel, a refund or an admin edit. */
  predicate Calm(request: Op) {
    request.Checkout? || request.SucceededEvent? || request.ReconcileStart? || request.ReapStart? || request.IntentStart?
  }

  /** What such a request knows at its next step while it runs alone. */
  predicate PlainAlone(op: Op, db: Db) {
    if op.ReconcileCheck? || op.PayCas? || op.PayRead? || op.RecordFailed? then
      PaymentSeen(db, op.payment) && db.payments[op.payment].status != Succeeded
    else if op.LogPurchases? then
      PaymentSeen(db, op.payment) && db.payments[op.payment].status != Succeeded
      && PostPayment(db.orders[db.payments[op.payment].order].status)
    else if op.RecordSucceeded? then
      PaymentSeen(db, op.payment) && db.payments[op.payment].status != Succeeded
      && (if op.live then PostPayment(db.orders[db.payments[op.payment].order].status)
          else Dead(db, db.payments[op.payment].order))
    else if op.Announce? then PaymentSeen(db, op.payment) && db.payments[op.payment].status == Succeeded
    else if op.RefundRead? then op.after == ThenNothing && Dead(db, op.order)
    else if OnRefund(op) then
      && op.after == ThenNothing && Dead(db, op.order)
      && PaymentSeen(db, op.payment) && db.payments[op.payment].order == op.order
    else if op.ReadItems? || op.Release? then
      op.from == PendingPayment && (op.target == PaymentFailed || op.target == Cancelled)
    else op == Done || Calm(op) || OnReap(op) || OnIntent(op)
  }

  predicate Alone(op: Op, db: Db) {
    PlainAlone(Core(op), db)
  }

  /** What is announced for p, and what still can be. */
  function Budget(op: Op, db: Db, p: nat): nat {
    multiset(db.announced)[p] + if Core(op) == Announce(p) then 1 else Open(db, p)
  }

  lemma MoreAnnounced(announced: seq<nat>, q: nat, p: nat)
    ensures multiset(announced + [q])[p] == multiset(announced)[p] + if q == p then 1 else 0
  {
  }

  /** The step keeps what the operation knows alone, and adds nothing to announced and announceable. */
  predicate Spends(op: Op, db: Db, m: Moved, p: nat) {
    Alone(m.op, m.db) && Budget(m.op, m.db, p) <= Budget(op, db, p)
  }

  lemma OrderSpends(k: nat, op: Op, db: Db, ok: bool, p: nat)
    requires DbInv(db) && PlainInv(k, op, db) && PlainAlone(op, db) && OnOrder(op)
    ensures Spends(op, db, NextOrder(op, db, ok), p)
  {
    if p < |db.payments| { RowOk(db, p); }
    hide DbInv;
    assert op.Done? || op.Checkout? || op.ReadItems?;
  }

  lemma ReleaseSpends(k: nat, op: Op, db: Db, ok: bool, p: nat)
    requires PlainInv(k, op, db) && PlainAlone(op, db) && op.Release?
    ensures Spends(op, db, NextRelease(op, db, ok), p)
  {
  }

  lemma PaySpends(k: nat, op: Op, db: Db, ok: bool, p: nat)
    requires PlainInv(k, op, db) && PlainAlone(op, db) && (op.PayCas? || op.LogPurchases? || op.PayRead?)
    ensures Spends(op, db, NextSucceeded(k, op, db, ok), p)
  {
  }

  lemma RecordSpends(k: nat, op: Op, db: Db, ok: bool, p: nat)
    requires PlainInv(k, op, db) && PlainAlone(op, db) && op.RecordSucceeded?
    ensures Spends(op, db, NextSucceeded(k, op, db, ok), p)
  {
  }

  lemma CheckSpends(k: nat, op: Op, db: Db, ok: bool, p: nat)
    requires DbInv(db) && op.SucceededEvent?
    ensures Spends(op, db, NextSucceeded(k, op, db, ok), p)
  {
    hide DbInv;
    var row := RowOfIntent(db.payments, op.intent);
    if row.Some? { RowOk(db, row.value); }
  }

  lemma AnnounceSpends(k: nat, op: Op, db: Db, ok: bool, p: nat)
    requires PlainAlone(op, db) && op.Announce?
    ensures Spends(op, db, NextSucceeded(k, op, db, ok), p)
  {
    MoreAnnounced(db.announced, op.payment, p);
  }

  lemma SucceededSpends(k: nat, op: Op, db: Db, ok: bool, p: nat)
    requires DbInv(db) && PlainInv(k, op, db) && PlainAlone(op, db) && OnSucceeded(op)
    ensures Spends(op, db, NextSucceeded(k, op, db, ok), p)
  {
    hide DbInv, PlainInv, PlainAlone, Spends, NextSucceeded;
    if op.SucceededEvent? { CheckSpends(k, op, db, ok, p); }
    else if op.Announce? { AnnounceSpends(k, op, db, ok, p); }
    else if op.RecordSucceeded? { RecordSpends(k, op, db, ok, p); }
    else { PaySpends(k, op, db, ok, p); }
  }

  lemma RefundSpends(k: nat, op: Op, db: Db, ok: bool, p: nat)
    requires DbInv(db) && PlainInv(k, op, db) && PlainAlone(op, db) && OnRefund(op)
    ensures Spends(op, db, NextRefund(op, db, ok), p)
  {
    hide DbInv;
    if op.RefundRead? {
      var row := Latest(db.payments, op.order);
      if row.Some? { RowOk(db, row.value); }
    }
  }

  lemma ReconcileSpends(k: nat, op: Op, db: Db, ok: bool, p: nat)
    requires DbInv(db) && PlainInv(k, op, db) && PlainAlone(op, db) && OnReconcile(op)
    ensures Spends(op, db, NextReconcile(op, db, ok), p)
  {
    hide DbInv;
    if op.ReconcileStart? {
      var row := Latest(db.payments, op.order);
      if row.Some? { RowOk(db, row.value); }
    }
  }

  lemma FailureSpends(k: nat, op: Op, db: Db, ok: bool, p: nat)
    requires PlainInv(k, op, db) && PlainAlone(op, db) && OnFailed(op)
    ensures Spends(op, db, NextFailed(op, db, ok), p)
  {
    assert op.RecordFailed?;
  }

  lemma CancelSpends(db: Db, i: nat, p: nat)
    ensures CancelRow(db, i).announced == db.announced && Open(CancelRow(db, i), p) == Open(db, p)
  {
    hide RowOfIntent;
  }

  lemma ReapSpends(k: nat, op: Op, db: Db, ok: bool, p: nat)
    requires OnReap(op)
    ensures Spends(op, db, NextReap(op, db, ok), p)
  {
    hide PendingIntents, CancelRow;
    if op.VoidRecord? && op.next < |op.listed| {
      CancelSpends(db, op.listed[op.next], p);
    }
  }

  lemma IntentSpends(k: nat, op: Op, db: Db, ok: bool, p: nat)
    requires OnIntent(op)
    ensures Spends(op, db, NextIntent(op, db, ok), p)
  {
    hide Latest, RowOfIntent;
  }

  lemma PlainSpends(k: nat, op: Op, db: Db, ok: bool, p: nat)
    requires DbInv(db) && PlainInv(k, op, db) && PlainAlone(op, db) && !op.IntentFirst?
    ensures Spends(op, db, NextPlain(k, op, db, ok), p)
  {
    hide DbInv, PlainInv, PlainAlone, Spends;
    if OnOrder(op) { OrderSpends(k, op, db, ok, p); }
    else if op.Release? { ReleaseSpends(k, op, db, ok, p); }
    else if OnRefund(op) { RefundSpends(k, op, db, ok, p); }
    else if OnSucceeded(op) { SucceededSpends(k, op, db, ok, p); }
    else if OnFailed(op) { FailureSpends(k, op, db, ok, p); }
    else if OnReconcile(op) { ReconcileSpends(k, op, db, ok, p); }
    else if OnReap(op) { ReapSpends(k, op, db, ok, p); }
    else { IntentSpends(k, op, db, ok, p); }
  }

  lemma StepSpends(k: nat, op: Op, db: Db, ok: bool, p: nat)
    requires DbInv(db) && OpInv(k, op, db) && Alone(op, db)
    ensures Spends(op, db, Next(k, op, db, ok), p)
  {
    hide DbInv, PlainInv, NextPlain, Open;
    if !op.IntentFirst? {
      PlainSpends(k, op, db, ok, p);
    } else {
      PlainSpends(k, op.inner, db, ok, p);
      InnerStays(k, op.inner, db, ok);
    }
  }

  lemma {:induction false} SoloSpends(k: nat, op: Op, db: Db, oks: seq<bool>, p: nat)
    requires DbInv(db) && OpInv(k, op, db) && Alone(op, db)
    ensures Spends(op, db, Solo(k, op, db, oks), p)
    decreases oks
  {
    hide DbInv, OpInv, Alone, Budget, Next;
    if oks != [] {
      var m := Next(k, op, db, oks[0]);
      StepKeeps(k, op, db, oks[0]);
      StepSpends(k, op, db, oks[0], p);
      SoloSpends(k, m.op, m.db, oks[1..], p);
    }
  }

  // ---------- requests that announce nothing ----------

  /** A failed event, a cancel, a refund or an admin edit never reaches a step that announces. */
  predicate Silent(op: Op) {
    || op == Done || op.FailedEvent? || op.RecordFailed? || op.CancelStart? || op.RefundStart? || OnRefund(op)
    || op.EditStart? || op.EditForward? || op.ReadItems? || op.Release? || op.Checkout?
  }

  lemma SilentStep(k: nat, op: Op, db: Db, ok: bool)
    requires Silent(op)
    ensures var m := Next(k, op, db, ok); Silent(m.op) && m.db.announced == db.announced
  {
  }

  lemma {:induction false} SilentSolo(k: nat, op: Op, db: Db, oks: seq<bool>)
    requires Silent(op)
    ensures Solo(k, op, db, oks).db.announced == db.announced
    decreases oks
  {
    hide Silent, Next;
    if oks != [] {
      SilentStep(k, op, db, oks[0]);
      var m := Next(k, op, db, oks[0]);
      SilentSolo(k, m.op, m.db, oks[1..]);
    }
  }

  lemma QuietPlain(k: nat, op: Op, db: Db, ok: bool)
    requires !op.IntentFirst? && !op.Announce?
    ensures NextPlain(k, op, db, ok).db.announced == db.announced
  {
  }

  lemma AnnouncedStep(k: nat, op: Op, db: Db, ok: bool, p: nat)
    ensures multiset(Next(k, op, db, ok).db.announced)[p] >= multiset(db.announced)[p]
  {
    hide AfterInner;
    var core := Core(op);
    if core.Announce? {
      MoreAnnounced(db.announced, core.payment, p);
    } else if !core.IntentFirst? {
      QuietPlain(k, core, db, ok);
      hide NextPlain;
    }
  }

  lemma {:induction false} NeverUnannounced(k: nat, op: Op, db: Db, oks: seq<bool>, p: nat)
    ensures multiset(Solo(k, op, db, oks).db.announced)[p] >= multiset(db.announced)[p]
    decreases oks
  {
    hide Next;
    if oks != [] {
      AnnouncedStep(k, op, db, oks[0], p);
      var m := Next(k, op, db, oks[0]);
      NeverUnannounced(k, m.op, m.db, oks[1..], p);
    }
  }

  // ---------- the bound ----------

  lemma CalmStart(request: Op, db: Db)
    requires Startable(request, db)
    ensures if Calm(request) then Alone(request, db) && !Core(request).Announce? else Silent(request)
  {
  }

  /** Calm requests spend what is open; of the others each can only reopen the payment. */
  lemma ServeSpends(k: nat, db: Db, t: Turn, p: nat)
    requires DbInv(db)
    ensures multiset(Serve(k, db, t).announced)[p] + Open(Serve(k, db, t), p)
         <= multiset(db.announced)[p] + Open(db, p) + if Reopens(k, db, t, p) then 1 else 0
    ensures t.StripeMoves? || Calm(t.request) ==> !Reopens(k, db, t, p)
  {
    hide DbInv, Solo, PlainAlone, Startable, OpInv, Calm;
    if t.Ask? && Startable(t.request, db) {
      StartKnown(k, t.request, db);
      CalmStart(t.request, db);
      if Calm(t.request) {
        SoloSpends(k, t.request, db, t.oks, p);
        NeverUnannounced(k, t.request, db, t.oks, p);
      } else {
        SilentSolo(k, t.request, db, t.oks);
      }
    }
  }

  /**
   Over any series of requests and moves of Stripe's own, with failures and stops
   anywhere, a payment is announced at most once for being open at the start and once for
   every reopening.
   */
  lemma {:induction false} AnnouncementsBounded(k: nat, db: Db, ts: seq<Turn>, p: nat)
    requires DbInv(db)
    ensures DbInv(ServeAll(k, db, ts))
    ensures multiset(ServeAll(k, db, ts).announced)[p] + Open(ServeAll(k, db, ts), p)
         <= multiset(db.announced)[p] + Open(db, p) + Reopenings(k, db, ts, p)
  {
    hide DbInv, Serve, Open, Reopens;
    if ts != [] {
      var front := ts[..|ts| - 1];
      AnnouncementsBounded(k, db, front, p);
      ServeKeeps(k, ServeAll(k, db, front), ts[|ts| - 1]);
      ServeSpends(k, ServeAll(k, db, front), ts[|ts| - 1], p);
    }
  }

  /** Without failed events, cancels, refunds and admin edits it is announced at most once, and not at all once it is closed. */
  lemma {:induction false} AnnouncedAtMostOnce(k: nat, db: Db, ts: seq<Turn>, p: nat)
    requires DbInv(db) && forall n :: 0 <= n < |ts| ==> ts[n].StripeMoves? || Calm(ts[n].request)
    ensures Reopenings(k, db, ts, p) == 0
    ensures multiset(ServeAll(k, db, ts).announced)[p] + Open(ServeAll(k, db, ts), p)
         <= multiset(db.announced)[p] + Open(db, p)
  {
    hide DbInv, Serve, Open, Reopens, Calm;
    AnnouncementsBounded(k, db, ts, p);
    if ts != [] {
      var front := ts[..|ts| - 1];
      AnnouncedAtMostOnce(k, db, front, p);
      AnnouncementsBounded(k, db, front, p);
      ServeSpends(k, ServeAll(k, db, front), ts[|ts| - 1], p);
    }
  }
}
